/** The match test: does the extracted text contain any search string? */
module Matching {
  import opened Text

  /** `contains_search_strings`: some search string, lower-cased, is a
      literal substring of the text (an empty list never matches). */
  function ContainsSearchStrings(text: string, searchStrings: seq<string>): (b: bool)
    ensures b <==> exists i :: 0 <= i < |searchStrings| && Contains(Lower(searchStrings[i]), text)
  {
    if searchStrings == [] then false
    else Contains(Lower(searchStrings[0]), text) || ContainsSearchStrings(text, searchStrings[1..])
  }

  /** An empty search string matches every text, the empty text included. */
  lemma EmptySearchStringMatchesAll(text: string, searchStrings: seq<string>)
    requires "" in searchStrings
    ensures ContainsSearchStrings(text, searchStrings)
  {
    var i :| 0 <= i < |searchStrings| && searchStrings[i] == "";
    assert Contains(Lower(searchStrings[i]), text);
  }

  /** The empty text (what a failed extraction yields) matches exactly when
      some search string is empty. */
  lemma EmptyTextMatchesOnlyEmptySearchString(searchStrings: seq<string>)
    ensures ContainsSearchStrings("", searchStrings) <==> "" in searchStrings
  {
    if ContainsSearchStrings("", searchStrings) {
      var i :| 0 <= i < |searchStrings| && Contains(Lower(searchStrings[i]), "");
      ContainsEmpty(Lower(searchStrings[i]), "");
      assert searchStrings[i] == "";
    } else if "" in searchStrings {
      EmptySearchStringMatchesAll("", searchStrings);
    }
  }

  /** The search strings' case does not matter: lower-casing them first
      changes nothing. */
  lemma SearchIsCaseInsensitive(text: string, searchStrings: seq<string>)
    ensures ContainsSearchStrings(text, searchStrings) ==
            ContainsSearchStrings(text, seq(|searchStrings|, i requires 0 <= i < |searchStrings| => Lower(searchStrings[i])))
  {
    var lowered := seq(|searchStrings|, i requires 0 <= i < |searchStrings| => Lower(searchStrings[i]));
    forall i | 0 <= i < |searchStrings| ensures Lower(lowered[i]) == Lower(searchStrings[i]) {
      LowerIdempotent(searchStrings[i]);
    }
  }

  /** With the criteria `9512302884` and `IAPP`, text containing `iapp`
      matches. */
  lemma IappExample(before: string, after: string)
    ensures ContainsSearchStrings(before + "iapp" + after, ["9512302884", "IAPP"])
  {
    var text := before + "iapp" + after;
    assert Lower("IAPP") == "iapp";
    assert text[|before|..|before| + 4] == "iapp";
    assert OccursAt("iapp", text, |before|);
    ContainsIff("iapp", text);
    assert Contains(Lower(["9512302884", "IAPP"][1]), text);
  }
}
