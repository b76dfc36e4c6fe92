/** The JavaScript string built-ins the robots.txt code relies on, with their
    ECMAScript semantics written out: `indexOf`, `substr`, `split` on a single
    character, `trim` and `toLowerCase`. Strings are sequences of characters. */
module JsString {

  /** `needle` occurs in `hay` starting at position `i`. */
  predicate OccursAt(hay: string, needle: string, i: int) {
    0 <= i && i + |needle| <= |hay| && hay[i..i + |needle|] == needle
  }

  /** The first position at or after `from` where `needle` occurs, or -1
      when there is none. This is `String.prototype.indexOf(needle, from)`
      for `from <= |hay|`; past the end JavaScript still finds the empty
      needle, at `|hay|`, but the code only ever searches from 0 (`IndexOf`). */
  function IndexFrom(hay: string, needle: string, from: nat): (r: int)
    ensures r == -1 || (from <= r && OccursAt(hay, needle, r))
    ensures r == -1 ==> forall i :: from <= i ==> !OccursAt(hay, needle, i)
    ensures r != -1 ==> forall i :: from <= i < r ==> !OccursAt(hay, needle, i)
    decreases |hay| - from
  {
    if from + |needle| > |hay| then -1
    else if hay[from..from + |needle|] == needle then from
    else IndexFrom(hay, needle, from + 1)
  }

  /** `hay.indexOf(needle)`: the first occurrence, or -1. The empty needle is
      found at 0. */
  function IndexOf(hay: string, needle: string): int {
    IndexFrom(hay, needle, 0)
  }

  /** `haystack.indexOf(needle) >= 0`. */
  predicate Contains(hay: string, needle: string) {
    IndexOf(hay, needle) >= 0
  }

  /** A character that is not in `hay` is not found. */
  lemma IndexOfAbsent(hay: string, c: char)
    requires c !in hay
    ensures IndexOf(hay, [c]) == -1
  {
    forall i | 0 <= i && i + 1 <= |hay|
      ensures !OccursAt(hay, [c], i)
    {
      assert hay[i..i + 1][0] == hay[i];
    }
  }

  /** A character is found first where it first appears. */
  lemma IndexOfFirst(a: string, c: char, b: string)
    requires c !in a
    ensures IndexOf(a + [c] + b, [c]) == |a|
  {
    var hay := a + [c] + b;
    assert hay[|a|..|a| + 1] == [c];
    assert OccursAt(hay, [c], |a|);
    forall i | 0 <= i < |a|
      ensures !OccursAt(hay, [c], i)
    {
      assert hay[i..i + 1][0] == a[i];
    }
  }

  /** `s.substr(i)` for a non-negative start: past the end it is "". */
  function Substr(s: string, i: nat): string {
    if i <= |s| then s[i..] else ""
  }

  /** An occurrence, established one character at a time. */
  lemma OccursAtByChars(hay: string, needle: string, i: int)
    requires 0 <= i && i + |needle| <= |hay|
    requires forall k :: 0 <= k < |needle| ==> hay[i + k] == needle[k]
    ensures OccursAt(hay, needle, i)
  {
    assert hay[i..i + |needle|] == needle;
  }

  /** A non-occurrence, established by one mismatching character. */
  lemma NotOccursAtByChar(hay: string, needle: string, i: int, k: int)
    requires 0 <= k < |needle| && 0 <= i + k < |hay|
    requires hay[i + k] != needle[k]
    ensures !OccursAt(hay, needle, i)
  {
  }

  /** `indexOf(needle) == 0` holds exactly when `needle` is a prefix. */
  lemma IndexOfZeroIffPrefix(hay: string, needle: string)
    ensures IndexOf(hay, needle) == 0 <==> needle <= hay
  {
    if needle <= hay {
      assert hay[0..|needle|] == needle;
    }
  }

  /** An occurrence inside `s.substr(i)` is an occurrence in `s`, shifted by `i`. */
  lemma SubstrOccurrence(s: string, i: nat, needle: string, j: int)
    requires OccursAt(Substr(s, i), needle, j)
    ensures i <= |s| ==> OccursAt(s, needle, i + j)
    ensures i > |s| ==> needle == []
  {
    if i <= |s| {
      assert s[i..][j..j + |needle|] == s[i + j..i + j + |needle|];
    }
  }

  /** Conversely, an occurrence in `s` at or after `i` lies inside `s.substr(i)`. */
  lemma OccurrenceInSubstr(s: string, i: nat, needle: string, k: int)
    requires i <= k && OccursAt(s, needle, k)
    ensures OccursAt(Substr(s, i), needle, k - i)
  {
    assert s[i..][k - i..k - i + |needle|] == s[k..k + |needle|];
  }

  /** `s.substr(i)` contains `needle` exactly when `needle` occurs in `s` at
      or after `i`, or `i` is past the end and `needle` is empty. */
  lemma ContainsSubstrIff(s: string, i: nat, needle: string)
    ensures Contains(Substr(s, i), needle) <==> (IndexFrom(s, needle, i) >= 0 || (i > |s| && needle == []))
  {
    var t := Substr(s, i);
    var j := IndexOf(t, needle);
    if j >= 0 {
      SubstrOccurrence(s, i, needle, j);
    }
    var k := IndexFrom(s, needle, i);
    if i > |s| && needle == [] {
      assert OccursAt(t, needle, 0);
    }
    if k >= 0 {
      OccurrenceInSubstr(s, i, needle, k);
    }
  }

  // ---------------------------------------------------------------------
  // split on one separator character

  /** The inverse of `split`: the pieces glued back together with `c`. */
  function Join(pieces: seq<string>, c: char): string
    requires |pieces| >= 1
  {
    if |pieces| == 1 then pieces[0] else pieces[0] + [c] + Join(pieces[1..], c)
  }

  /** `s.split(c)` for a one-character separator string: always at least one
      piece, no piece contains `c`, and joining the pieces with `c` gives `s`
      back. */
  function Split(s: string, c: char): (r: seq<string>)
    ensures |r| >= 1
    ensures Join(r, c) == s
    ensures forall k :: 0 <= k < |r| ==> c !in r[k]
    decreases |s|
  {
    if s == [] then [""]
    else
      var rest := Split(s[1..], c);
      if s[0] == c then [""] + rest
      else
        var r := [[s[0]] + rest[0]] + rest[1..];
        assert Join(r, c) == [s[0]] + Join(rest, c) by {
          if |rest| > 1 {
            assert r[1..] == rest[1..];
          }
        }
        assert s == [s[0]] + s[1..];
        r
  }

  /** A string without the separator splits into itself alone. */
  lemma {:induction false} SplitNoSeparator(s: string, c: char)
    requires c !in s
    ensures Split(s, c) == [s]
    decreases |s|
  {
    if s != [] {
      SplitNoSeparator(s[1..], c);
    }
  }

  /** Splitting `a + c + b`, where `a` has no separator, gives `a` followed by
      the pieces of `b`. */
  lemma {:induction false} SplitAfterFirst(a: string, c: char, b: string)
    requires c !in a
    ensures Split(a + [c] + b, c) == [a] + Split(b, c)
    decreases |a|
  {
    var s := a + [c] + b;
    if a == [] {
      assert s[1..] == b;
    } else {
      assert s[1..] == a[1..] + [c] + b;
      SplitAfterFirst(a[1..], c, b);
      assert [a[0]] + a[1..] == a;
    }
  }

  /** `split` inverts `Join` for pieces free of the separator. */
  lemma {:induction false} SplitJoin(pieces: seq<string>, c: char)
    requires |pieces| >= 1
    requires forall k :: 0 <= k < |pieces| ==> c !in pieces[k]
    ensures Split(Join(pieces, c), c) == pieces
    decreases |pieces|
  {
    if |pieces| == 1 {
      SplitNoSeparator(pieces[0], c);
    } else {
      SplitJoin(pieces[1..], c);
      SplitAfterFirst(pieces[0], c, Join(pieces[1..], c));
      assert [pieces[0]] + pieces[1..] == pieces;
    }
  }

  /** A string holding the separator splits into at least two pieces. */
  lemma SeparatorSplits(s: string, c: char)
    requires c in s
    ensures |Split(s, c)| >= 2
  {
  }

  /** Appending the separator adds one empty piece at the end. */
  lemma {:induction false} SplitAppendSeparator(s: string, c: char)
    ensures Split(s + [c], c) == Split(s, c) + [""]
    decreases |s|
  {
    var t := s + [c];
    if s == [] {
      assert t[1..] == [];
    } else {
      assert t[1..] == s[1..] + [c];
      SplitAppendSeparator(s[1..], c);
    }
  }

  // ---------------------------------------------------------------------
  // trim

  /** ECMAScript WhiteSpace and LineTerminator code points, which `trim`
      removes from both ends. */
  predicate IsJsSpace(ch: char) {
    ch == '\t' || ch == '\n' || ch == '\U{B}' || ch == '\U{C}' || ch == '\r' || ch == ' '
    || ch == '\U{A0}' || ch == '\U{1680}' || ('\U{2000}' <= ch <= '\U{200A}')
    || ch == '\U{2028}' || ch == '\U{2029}' || ch == '\U{202F}' || ch == '\U{205F}'
    || ch == '\U{3000}' || ch == '\U{FEFF}'
  }

  predicate AllSpace(s: string) {
    forall k :: 0 <= k < |s| ==> IsJsSpace(s[k])
  }

  /** `trimStart`: drops the leading white space. */
  function TrimStart(s: string): (r: string)
    ensures |r| <= |s| && r == s[|s| - |r|..] && AllSpace(s[..|s| - |r|])
    ensures r == [] || !IsJsSpace(r[0])
    decreases |s|
  {
    if s != [] && IsJsSpace(s[0]) then
      var r := TrimStart(s[1..]);
      assert s[..|s| - |r|] == [s[0]] + s[1..][..|s[1..]| - |r|];
      r
    else
      s
  }

  /** `trimEnd`: drops the trailing white space. */
  function TrimEnd(s: string): (r: string)
    ensures |r| <= |s| && r == s[..|r|] && AllSpace(s[|r|..])
    ensures r == [] || !IsJsSpace(r[|r| - 1])
    decreases |s|
  {
    if s != [] && IsJsSpace(s[|s| - 1]) then
      var r := TrimEnd(s[..|s| - 1]);
      assert AllSpace(s[|r|..]) by {
        forall k | 0 <= k < |s| - |r| ensures IsJsSpace(s[|r|..][k]) {
          if k < |s| - 1 - |r| {
            assert s[|r|..][k] == s[..|s| - 1][|r|..][k];
          }
        }
      }
      r
    else
      s
  }

  /** `s.trim()`: the middle of `s`, with surrounding white space removed and
      nothing else changed. */
  function Trim(s: string): (r: string)
    ensures exists i, j :: 0 <= i <= j <= |s| && AllSpace(s[..i]) && AllSpace(s[j..]) && r == s[i..j]
    ensures r == [] || (!IsJsSpace(r[0]) && !IsJsSpace(r[|r| - 1]))
  {
    var t := TrimStart(s);
    var r := TrimEnd(t);
    TrimWitness(s, t, r);
    r
  }

  lemma TrimWitness(s: string, t: string, r: string)
    requires |t| <= |s| && t == s[|s| - |t|..] && AllSpace(s[..|s| - |t|])
    requires |r| <= |t| && r == t[..|r|] && AllSpace(t[|r|..])
    ensures exists i, j :: 0 <= i <= j <= |s| && AllSpace(s[..i]) && AllSpace(s[j..]) && r == s[i..j]
  {
    var i := |s| - |t|;
    var j := i + |r|;
    assert r == s[i..j];
    assert s[j..] == t[|r|..];
  }

  /** Non-empty, and white space at neither end. */
  predicate Tidy(s: string) {
    s != [] && !IsJsSpace(s[0]) && !IsJsSpace(s[|s| - 1])
  }

  /** `trim` leaves a tidy string alone. */
  lemma TrimTidy(s: string)
    requires Tidy(s)
    ensures Trim(s) == s
  {
    assert TrimStart(s) == s;
    assert TrimEnd(s) == s;
  }

  /** `trim` drops the blank after a field's colon. */
  lemma TrimLeadingBlank(s: string)
    requires Tidy(s)
    ensures Trim(" " + s) == s
  {
    assert (" " + s)[1..] == s;
    assert TrimStart(s) == s;
    assert TrimStart(" " + s) == s;
    assert TrimEnd(s) == s;
  }

  // ---------------------------------------------------------------------
  // toLowerCase

  /** ASCII case folding: upper-case Latin letters map to lower case. */
  function LowerChar(ch: char): char {
    if 'A' <= ch <= 'Z' then (ch as int + 32) as char else ch
  }

  function Lower(s: string): string {
    seq(|s|, k requires 0 <= k < |s| => LowerChar(s[k]))
  }
}
