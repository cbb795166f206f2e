/** The string operations the pipeline uses: ASCII case folding, substring
    search, suffix test, whitespace stripping and splitting on a separator. */
module Text {

  /** Case folding of one character; only ASCII letters are folded. */
  function LowerChar(c: char): char
  {
    if 'A' <= c <= 'Z' then (c as int + 32) as char else c
  }

  /** `s.lower()`, restricted to ASCII folding. */
  function Lower(s: string): (r: string)
    ensures |r| == |s|
    ensures forall i :: 0 <= i < |s| ==> r[i] == LowerChar(s[i])
  {
    if s == [] then [] else [LowerChar(s[0])] + Lower(s[1..])
  }

  lemma LowerAppend(a: string, b: string)
    ensures Lower(a + b) == Lower(a) + Lower(b)
  {
    var l, r := Lower(a + b), Lower(a) + Lower(b);
    assert |l| == |r|;
    forall i | 0 <= i < |l| ensures l[i] == r[i] {
      if i < |a| { assert (a + b)[i] == a[i]; } else { assert (a + b)[i] == b[i - |a|]; }
    }
  }

  lemma LowerIdempotent(s: string)
    ensures Lower(Lower(s)) == Lower(s)
  {
    var l, r := Lower(Lower(s)), Lower(s);
    assert |l| == |r|;
    forall i | 0 <= i < |l| ensures l[i] == r[i] { }
  }

  /** `needle` occurs in `hay` starting at index `k`. */
  predicate OccursAt(needle: string, hay: string, k: int)
  {
    0 <= k && k + |needle| <= |hay| && hay[k..k + |needle|] == needle
  }

  predicate IsPrefix(p: string, s: string)
  {
    |p| <= |s| && s[..|p|] == p
  }

  /** Python's `needle in hay` for strings. */
  function Contains(needle: string, hay: string): bool
    decreases |hay|
  {
    IsPrefix(needle, hay) || (hay != [] && Contains(needle, hay[1..]))
  }

  /** `Contains` is literal substring search: true exactly when `needle` occurs
      at some position of `hay`. */
  lemma {:induction false} ContainsIff(needle: string, hay: string)
    ensures Contains(needle, hay) <==> exists k :: OccursAt(needle, hay, k)
    decreases |hay|
  {
    if IsPrefix(needle, hay) {
      assert OccursAt(needle, hay, 0);
    }
    if hay == [] {
      if exists k :: OccursAt(needle, hay, k) {
        var k :| OccursAt(needle, hay, k);
        assert IsPrefix(needle, hay);
      }
    } else {
      ContainsIff(needle, hay[1..]);
      if Contains(needle, hay[1..]) {
        var k :| OccursAt(needle, hay[1..], k);
        assert hay[1..][k..k + |needle|] == hay[k + 1..k + 1 + |needle|];
        assert OccursAt(needle, hay, k + 1);
      }
      if exists k :: OccursAt(needle, hay, k) {
        var k :| OccursAt(needle, hay, k);
        if k == 0 {
          assert IsPrefix(needle, hay);
        } else {
          assert hay[1..][k - 1..k - 1 + |needle|] == hay[k..k + |needle|];
          assert OccursAt(needle, hay[1..], k - 1);
        }
      }
    }
  }

  /** The empty string occurs in every string, and only the empty string
      occurs in the empty string. */
  lemma ContainsEmpty(needle: string, hay: string)
    ensures Contains("", hay)
    ensures Contains(needle, "") <==> needle == ""
  {
  }

  /** `s.endswith(suffix)` */
  predicate EndsWith(s: string, suffix: string)
  {
    |suffix| <= |s| && s[|s| - |suffix|..] == suffix
  }

  /** The characters `str.isspace()` accepts, which `str.strip()` removes. */
  predicate IsSpace(c: char)
  {
    var n := c as int;
    || 0x09 <= n <= 0x0D
    || 0x1C <= n <= 0x20
    || n == 0x85 || n == 0xA0 || n == 0x1680
    || 0x2000 <= n <= 0x200A
    || n == 0x2028 || n == 0x2029 || n == 0x202F || n == 0x205F || n == 0x3000
  }

  /** `s.lstrip()`: the longest suffix of `s` that does not start with whitespace. */
  function TrimStart(s: string): (r: string)
    ensures |r| <= |s| && r == s[|s| - |r|..]
    ensures forall k :: 0 <= k < |s| - |r| ==> IsSpace(s[k])
    ensures r == [] || !IsSpace(r[0])
    decreases |s|
  {
    if s != [] && IsSpace(s[0]) then TrimStart(s[1..]) else s
  }

  /** `s.rstrip()`: the longest prefix of `s` that does not end with whitespace. */
  function TrimEnd(s: string): (r: string)
    ensures |r| <= |s| && r == s[..|r|]
    ensures forall k :: |r| <= k < |s| ==> IsSpace(s[k])
    ensures r == [] || !IsSpace(r[|r| - 1])
    decreases |s|
  {
    if s != [] && IsSpace(s[|s| - 1]) then TrimEnd(s[..|s| - 1]) else s
  }

  /** `r` is `s` with the whitespace run `s[..i]` before it and only
      whitespace after it. */
  predicate StrippedAt(s: string, r: string, i: int)
  {
    && 0 <= i && i + |r| <= |s| && s[i..i + |r|] == r
    && (forall k :: 0 <= k < i ==> IsSpace(s[k]))
    && (forall k :: i + |r| <= k < |s| ==> IsSpace(s[k]))
  }

  /** `s.strip()`: a slice of `s` that neither starts nor ends with
      whitespace, with only whitespace removed around it. */
  function Strip(s: string): (r: string)
    ensures StrippedAt(s, r, |s| - |TrimStart(s)|)
    ensures r == [] || (!IsSpace(r[0]) && !IsSpace(r[|r| - 1]))
  {
    var t := TrimStart(s);
    var r := TrimEnd(t);
    StripSlice(s, t, r);
    r
  }

  lemma StripSlice(s: string, t: string, r: string)
    requires |t| <= |s| && t == s[|s| - |t|..]
    requires forall k :: 0 <= k < |s| - |t| ==> IsSpace(s[k])
    requires t == [] || !IsSpace(t[0])
    requires |r| <= |t| && r == t[..|r|]
    requires forall k :: |r| <= k < |t| ==> IsSpace(t[k])
    requires r == [] || !IsSpace(r[|r| - 1])
    ensures StrippedAt(s, r, |s| - |t|)
    ensures r == [] || (!IsSpace(r[0]) && !IsSpace(r[|r| - 1]))
  {
    var i := |s| - |t|;
    assert s[i..i + |r|] == t[..|r|];
    forall k | i + |r| <= k < |s| ensures IsSpace(s[k]) {
      assert s[k] == t[k - i];
    }
    if r != [] {
      assert r[0] == t[0];
    }
  }

  /** Number of occurrences of `c` in `s`. */
  function Count(s: string, c: char): nat
  {
    if s == [] then 0 else (if s[0] == c then 1 else 0) + Count(s[1..], c)
  }

  /** Python's `s.split(sep)` for a one-character separator: one field per
      separator plus one, none of them containing the separator. */
  function Split(s: string, sep: char): (fields: seq<string>)
    ensures |fields| == Count(s, sep) + 1
    ensures forall i :: 0 <= i < |fields| ==> sep !in fields[i]
    decreases |s|
  {
    if s == [] then [""]
    else
      var rest := Split(s[1..], sep);
      if s[0] == sep then [""] + rest
      else [[s[0]] + rest[0]] + rest[1..]
  }

  /** `sep.join(fields)` */
  function Join(fields: seq<string>, sep: char): string
  {
    if fields == [] then ""
    else if |fields| == 1 then fields[0]
    else fields[0] + [sep] + Join(fields[1..], sep)
  }

  /** Splitting loses nothing: joining the fields with the separator gives
      back the input. */
  lemma {:induction false} SplitJoin(s: string, sep: char)
    ensures Join(Split(s, sep), sep) == s
    decreases |s|
  {
    if s != [] {
      var rest := Split(s[1..], sep);
      SplitJoin(s[1..], sep);
      if s[0] == sep {
        assert ([""] + rest)[1..] == rest;
        assert Join([""] + rest, sep) == "" + [sep] + Join(rest, sep);
        assert s == [sep] + s[1..];
      } else {
        var fields := [[s[0]] + rest[0]] + rest[1..];
        assert fields[1..] == rest[1..];
        if |rest| == 1 {
          assert Join(fields, sep) == [s[0]] + rest[0];
        } else {
          assert Join(rest, sep) == rest[0] + [sep] + Join(rest[1..], sep);
          assert Join(fields, sep) == ([s[0]] + rest[0]) + [sep] + Join(rest[1..], sep);
        }
        assert s == [s[0]] + s[1..];
      }
    }
  }
}
