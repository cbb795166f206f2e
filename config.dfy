/** Run configuration read from the environment: the date window and the
    search strings. */
module Config {
  import opened Common
  import opened Text

  const SEARCH_STRINGS_REQUIRED := "SEARCH_STRINGS environment variable is required"

  /** `get_search_strings`, given the value of `SEARCH_STRINGS` (None when
      the variable is unset): an unset or empty value raises; otherwise one
      stripped element per comma-separated field. */
  function GetSearchStrings(value: Option<string>): (r: Result<seq<string>>)
    ensures r.Failure? <==> value.GetOr("") == ""
    ensures r.Failure? ==> r.error == SEARCH_STRINGS_REQUIRED
    ensures r.Success? ==> |r.value| == Count(value.GetOr(""), ',') + 1
    ensures r.Success? ==> forall i :: 0 <= i < |r.value| ==> r.value[i] == Strip(Split(value.GetOr(""), ',')[i])
  {
    var raw := value.GetOr("");
    if raw == "" then Failure(SEARCH_STRINGS_REQUIRED)
    else
      var fields := Split(raw, ',');
      Success(seq(|fields|, i requires 0 <= i < |fields| => Strip(fields[i])))
  }

  /** A doubled comma yields an empty search string between its neighbours:
      `"a,,b"` gives `["a", "", "b"]`. */
  lemma DoubleCommaYieldsEmptyField(a: char, b: char)
    requires a != ',' && b != ',' && !IsSpace(a) && !IsSpace(b)
    ensures GetSearchStrings(Some([a, ',', ',', b])) == Success([[a], "", [b]])
  {
    var value := [a, ',', ',', b];
    SplitExample(a, b);
    var fields := Split(value, ',');
    StripUnpadded(fields[0]);
    StripUnpadded(fields[1]);
    StripUnpadded(fields[2]);
    var r := GetSearchStrings(Some(value)).value;
    assert r == [[a], "", [b]];
  }

  lemma SplitExample(a: char, b: char)
    requires a != ',' && b != ','
    ensures Split([a, ',', ',', b], ',') == [[a], "", [b]]
  {
    var value := [a, ',', ',', b];
    assert value[1..] == [',', ',', b] && value[2..] == [',', b] && value[3..] == [b] && [b][1..] == [];
    assert Split([], ',') == [""];
    assert [b] + [] == [b] && [a] + [] == [a];
    assert Split([b], ',') == [[b]];
    assert Split([',', b], ',') == ["", [b]];
    assert Split([',', ',', b], ',') == ["", "", [b]];
  }

  /** Stripping a string without surrounding whitespace leaves it as is. */
  lemma StripUnpadded(s: string)
    requires s == [] || (!IsSpace(s[0]) && !IsSpace(s[|s| - 1]))
    ensures Strip(s) == s
  {
    assert TrimStart(s) == s;
    assert TrimEnd(s) == s;
  }

  /** A value made only of whitespace is accepted and yields a single empty
      search string. */
  lemma BlankValueYieldsEmptySearchString(value: string)
    requires value != [] && forall k :: 0 <= k < |value| ==> IsSpace(value[k])
    ensures GetSearchStrings(Some(value)) == Success([""])
  {
    assert ',' !in value by {
      forall k | 0 <= k < |value| ensures value[k] != ',' {
        assert IsSpace(value[k]);
      }
    }
    SplitWithoutSeparator(value, ',');
    TrimStartAllSpace(value);
    var r := GetSearchStrings(Some(value)).value;
    assert |r| == 1 && r[0] == Strip(value) == "";
    assert r == [""];
  }

  lemma {:induction false} TrimStartAllSpace(s: string)
    requires forall k :: 0 <= k < |s| ==> IsSpace(s[k])
    ensures TrimStart(s) == []
    decreases |s|
  {
    if s != [] {
      TrimStartAllSpace(s[1..]);
    }
  }

  lemma {:induction false} SplitWithoutSeparator(s: string, sep: char)
    requires sep !in s
    ensures Split(s, sep) == [s]
    decreases |s|
  {
    if s != [] {
      SplitWithoutSeparator(s[1..], sep);
      assert [s[0]] + s[1..] == s;
    }
  }

  const DATE_FORMAT_HINT := "Expected format: YYYY/MM/DD"

  /** `get_env_date`: the variable's value, or `default` when unset, raising
      when `isValidDate` (the `%Y/%m/%d` parse) rejects it. */
  function GetEnvDate(name: string, value: Option<string>, default: string, isValidDate: string -> bool): (r: Result<string>)
    ensures r.Success? <==> isValidDate(value.GetOr(default))
    ensures r.Success? ==> r.value == value.GetOr(default)
    ensures r.Failure? ==> r.error == "Invalid date format for " + name + ". " + DATE_FORMAT_HINT
  {
    var date := value.GetOr(default);
    if isValidDate(date) then Success(date)
    else Failure("Invalid date format for " + name + ". " + DATE_FORMAT_HINT)
  }
}
