/** One Allow or Disallow line of a robots.txt record and the `*` wildcard
    matcher that decides whether it covers a url (lib/rule.js). */
module Rules {
  import opened JsString
  import opened Uri

  /** `path` is the normalised pattern; `allowance` is true for Allow. */
  datatype Rule = Rule(path: string, allowance: bool)

  /** The `Rule` constructor: the stored path is the normalised pattern, and
      an empty Disallow is turned into an Allow, because an empty value means
      "allow everything". */
  function MakeRule(codec: Codec, path: string, allowance: bool): (r: Rule)
    ensures r.path == Normalize(codec, path)
    ensures r.allowance <==> (allowance || path == "")
  {
    var rule := Rule(Normalize(codec, path), allowance);
    if path == "" && !allowance then rule.(allowance := true) else rule
  }

  /** `startsWith` as the source writes it: the first occurrence is at 0. */
  predicate StartsWith(hay: string, needle: string) {
    IndexOf(hay, needle) == 0
  }

  /** A piece found in `url.substr(index)` is found in `url` as well. */
  lemma FoundInUrl(url: string, index: nat, piece: string)
    requires Contains(Substr(url, index), piece)
    ensures Contains(url, piece)
  {
    SubstrOccurrence(url, index, piece, IndexOf(Substr(url, index), piece));
    if index > |url| {
      assert OccursAt(url, piece, 0);
    }
  }

  /** Where the scan continues after `piece` was found in `url.substr(index)`:
      the old index plus the piece's length plus the position of the piece's
      FIRST occurrence in the whole url, exactly as the source computes it. */
  function NextIndex(url: string, index: nat, piece: string): nat
    requires Contains(Substr(url, index), piece)
  {
    FoundInUrl(url, index, piece);
    index + |piece| + IndexOf(url, piece)
  }

  /** The loop of `does_rule_fit_path` from the piece `pieces[0]` on, with the
      running `index`. Each piece must occur in `url.substr(index)`, and the
      index then advances by `NextIndex`. Whatever the index, a successful
      scan has seen every piece in the url. */
  function PiecesFit(pieces: seq<string>, url: string, index: nat): (r: bool)
    ensures r ==> forall k :: 0 <= k < |pieces| ==> Contains(url, pieces[k])
    decreases |pieces|
  {
    if pieces == [] then true
    else if !Contains(Substr(url, index), pieces[0]) then false
    else
      FoundInUrl(url, index, pieces[0]);
      PiecesFit(pieces[1..], url, NextIndex(url, index, pieces[0]))
  }

  /** `does_rule_fit_path(rule, url)`: split the pattern on `*`, require the
      url to start with the first piece, then run the scan from index 0.
      A match implies that the url starts with the text before the first `*`
      and that every `*`-separated piece of the pattern occurs in the url. */
  function RuleFitsPath(rule: string, url: string): (r: bool)
    ensures r ==> Split(rule, '*')[0] <= url
    ensures r ==> forall k :: 0 <= k < |Split(rule, '*')| ==> Contains(url, Split(rule, '*')[k])
  {
    var pieces := Split(rule, '*');
    IndexOfZeroIffPrefix(url, pieces[0]);
    StartsWith(url, pieces[0]) && PiecesFit(pieces, url, 0)
  }

  /** `Rule.appliesTo(url)`: the url is normalised like the stored path before
      matching, so a rule can only apply when its first piece starts the
      normalised url and each of its pieces occurs in it. */
  function RuleAppliesTo(codec: Codec, rule: Rule, url: string): (r: bool)
    ensures r ==> Split(rule.path, '*')[0] <= Normalize(codec, url)
    ensures r ==> forall k :: 0 <= k < |Split(rule.path, '*')| ==>
                  Contains(Normalize(codec, url), Split(rule.path, '*')[k])
  {
    RuleFitsPath(rule.path, Normalize(codec, url))
  }

  // ---------------------------------------------------------------------
  // properties of the matcher

  /** A pattern without `*` matches exactly the urls it is a prefix of,
      comparing characters exactly (so case matters). */
  lemma NoWildcardIsPrefix(rule: string, url: string)
    requires '*' !in rule
    ensures RuleFitsPath(rule, url) <==> rule <= url
  {
    SplitNoSeparator(rule, '*');
    IndexOfZeroIffPrefix(url, rule);
    if rule <= url {
      assert Substr(url, 0) == url;
      assert OccursAt(url, rule, 0);
      assert PiecesFit([rule], url, 0);
    }
  }

  /** With exactly one `*`, `a*b` matches `url` exactly when `url` starts with
      `a` and `b` occurs in `url` at or after position |a|. */
  lemma OneWildcard(a: string, b: string, url: string)
    requires '*' !in a && '*' !in b
    ensures RuleFitsPath(a + "*" + b, url) <==>
            (a <= url && exists k :: |a| <= k && OccursAt(url, b, k))
  {
    SplitAfterFirst(a, '*', b);
    SplitNoSeparator(b, '*');
    assert Split(a + "*" + b, '*') == [a, b];
    IndexOfZeroIffPrefix(url, a);
    if a <= url {
      assert Substr(url, 0) == url;
      assert OccursAt(url, a, 0);
      assert |a| + IndexOf(url, a) == |a|;
      ContainsSubstrIff(url, |a|, b);
      assert [a, b][1..] == [b] && [b][1..] == [];
      assert PiecesFit([a, b], url, 0) == PiecesFit([b], url, |a|);
      assert PiecesFit([b], url, |a|) == Contains(Substr(url, |a|), b);
      var at := IndexFrom(url, b, |a|);
      if at >= 0 {
        assert |a| <= at && OccursAt(url, b, at);
      }
    }
  }

  /** One step of the scan. */
  lemma PiecesFitUnfold(pieces: seq<string>, url: string, index: nat)
    requires pieces != []
    ensures PiecesFit(pieces, url, index) <==>
            Contains(Substr(url, index), pieces[0]) &&
            PiecesFit(pieces[1..], url, NextIndex(url, index, pieces[0]))
  {
  }

  /** The empty piece is contained in every `url.substr(index)`. */
  lemma EmptyPieceFits(url: string, index: nat)
    ensures PiecesFit([""], url, index)
  {
    assert OccursAt(Substr(url, index), "", 0);
    assert [""][1..] == [];
  }

  /** An empty last piece is found at any index. */
  lemma {:induction false} PiecesFitEmptyTail(pieces: seq<string>, url: string, index: nat)
    ensures PiecesFit(pieces + [""], url, index) == PiecesFit(pieces, url, index)
    decreases |pieces|
  {
    if pieces == [] {
      EmptyPieceFits(url, index);
      assert [] + [""] == [""];
    } else {
      var piece := pieces[0];
      var longer := pieces + [""];
      assert longer[0] == piece;
      assert longer[1..] == pieces[1..] + [""];
      if Contains(Substr(url, index), piece) {
        var next := NextIndex(url, index, piece);
        PiecesFitEmptyTail(pieces[1..], url, next);
        PiecesFitUnfold(longer, url, index);
        PiecesFitUnfold(pieces, url, index);
      } else {
        PiecesFitUnfold(longer, url, index);
        PiecesFitUnfold(pieces, url, index);
      }
    }
  }

  /** Appending a trailing `*` never changes the outcome. */
  lemma TrailingWildcard(rule: string, url: string)
    ensures RuleFitsPath(rule + "*", url) == RuleFitsPath(rule, url)
  {
    SplitAppendSeparator(rule, '*');
    var pieces := Split(rule, '*');
    assert Split(rule + "*", '*')[0] == pieces[0];
    PiecesFitEmptyTail(pieces, url, 0);
  }

  /** The empty pattern and the lone `*` match every url. */
  lemma MatchEverything(url: string)
    ensures RuleFitsPath("", url)
    ensures RuleFitsPath("*", url)
  {
    assert OccursAt(url, "", 0);
    SplitNoSeparator("", '*');
    assert Substr(url, 0) == url;
    assert PiecesFit([""], url, 0) by {
      assert [""][1..] == [];
    }
    TrailingWildcard("", url);
  }

  // ---------------------------------------------------------------------
  // the matcher against a plain in-order scan

  /** Reference scan: each piece must be found at or after the position where
      the previous piece ended. */
  function ScanFrom(pieces: seq<string>, url: string, from: nat): bool
    decreases |pieces|
  {
    if pieces == [] then true
    else
      var at := IndexFrom(url, pieces[0], from);
      if at < 0 then false else ScanFrom(pieces[1..], url, at + |pieces[0]|)
  }

  /** Reference matcher: the url starts with the first piece and the other
      pieces follow it in order. */
  function InOrderMatch(rule: string, url: string): bool {
    var pieces := Split(rule, '*');
    pieces[0] <= url && ScanFrom(pieces[1..], url, |pieces[0]|)
  }

  /** For patterns with at most one `*` the matcher agrees with the in-order
      scan. */
  lemma AgreesWithInOrderScan(rule: string, url: string)
    requires |Split(rule, '*')| <= 2
    ensures RuleFitsPath(rule, url) == InOrderMatch(rule, url)
  {
    var pieces := Split(rule, '*');
    var a := pieces[0];
    IndexOfZeroIffPrefix(url, a);
    if a <= url {
      assert Substr(url, 0) == url;
      assert OccursAt(url, a, 0);
      assert NextIndex(url, 0, a) == |a|;
      PiecesFitUnfold(pieces, url, 0);
      if |pieces| == 2 {
        var b := pieces[1];
        assert pieces[1..] == [b] && [b][1..] == [];
        ContainsSubstrIff(url, |a|, b);
        PiecesFitUnfold([b], url, |a|);
        var at := IndexFrom(url, b, |a|);
        assert ScanFrom(pieces[1..], url, |a|) == (at >= 0);
        assert RuleFitsPath(rule, url) == PiecesFit([b], url, |a|);
      }
    }
  }

  // With three or more pieces the source's index arithmetic departs from
  // the in-order scan. Rule-matching case 16 of the test suite expects
  // `/a/*/b/*/c/*` to match `/a/1/b/2/c/3`; the in-order scan does, but the
  // source's index reaches 10 after `/b/` and `/c/` is not in `"/3"`.
  lemma ThreePiecesRejectedInOrderMatch()
    ensures InOrderMatch("/a/*/b/*/c/*", "/a/1/b/2/c/3")
    ensures !RuleFitsPath("/a/*/b/*/c/*", "/a/1/b/2/c/3")
  {
    var url := "/a/1/b/2/c/3";
    var pieces := ["/a/", "/b/", "/c/", ""];
    SplitThreeStars();
    ThreePiecesOccurrences(url);
    ThreePiecesInOrder(url, pieces);
    ThreePiecesSource(url, pieces);
    IndexOfZeroIffPrefix(url, "/a/");
  }

  lemma ThreePiecesOccurrences(url: string)
    requires url == "/a/1/b/2/c/3"
    ensures OccursAt(url, "/a/", 0) && OccursAt(url, "/b/", 4) && OccursAt(url, "/c/", 8)
    ensures forall i :: 0 <= i < 4 ==> !OccursAt(url, "/b/", i)
    ensures !OccursAt(url, "/c/", 7)
  {
    OccursAtByChars(url, "/a/", 0);
    OccursAtByChars(url, "/b/", 4);
    OccursAtByChars(url, "/c/", 8);
    NotOccursAtByChar(url, "/b/", 0, 1);
    NotOccursAtByChar(url, "/b/", 1, 0);
    NotOccursAtByChar(url, "/b/", 2, 1);
    NotOccursAtByChar(url, "/b/", 3, 0);
    NotOccursAtByChar(url, "/c/", 7, 1);
  }

  lemma SplitThreeStars()
    ensures Split("/a/*/b/*/c/*", '*') == ["/a/", "/b/", "/c/", ""]
  {
    var pieces := ["/a/", "/b/", "/c/", ""];
    assert Join(pieces, '*') == "/a/*/b/*/c/*";
    SplitJoin(pieces, '*');
  }

  lemma ThreePiecesInOrder(url: string, pieces: seq<string>)
    requires url == "/a/1/b/2/c/3" && pieces == ["/a/", "/b/", "/c/", ""]
    requires OccursAt(url, "/a/", 0) && OccursAt(url, "/b/", 4) && OccursAt(url, "/c/", 8)
    requires !OccursAt(url, "/b/", 3) && !OccursAt(url, "/c/", 7)
    ensures pieces[0] <= url && ScanFrom(pieces[1..], url, |pieces[0]|)
  {
    assert url[..3] == "/a/";
    assert IndexFrom(url, "/b/", 3) == 4;
    assert IndexFrom(url, "/c/", 7) == 8;
    assert OccursAt(url, "", 11);
    assert IndexFrom(url, "", 11) == 11;
    assert pieces[1..][1..][1..][1..] == [];
    assert ScanFrom(pieces[1..][1..][1..], url, 11);
  }

  lemma ThreePiecesSource(url: string, pieces: seq<string>)
    requires url == "/a/1/b/2/c/3" && pieces == ["/a/", "/b/", "/c/", ""]
    requires OccursAt(url, "/a/", 0) && OccursAt(url, "/b/", 4)
    requires forall i :: 0 <= i < 4 ==> !OccursAt(url, "/b/", i)
    ensures !PiecesFit(pieces, url, 0)
  {
    assert IndexOf(url, "/a/") == 0;
    assert Substr(url, 0) == url;
    assert NextIndex(url, 0, "/a/") == 3;
    OccurrenceInSubstr(url, 3, "/b/", 4);
    assert IndexOf(url, "/b/") == 4;
    assert NextIndex(url, 3, "/b/") == 10;
    assert !Contains(Substr(url, 10), "/c/");
    PiecesFitUnfold(pieces, url, 0);
    PiecesFitUnfold(pieces[1..], url, 3);
    PiecesFitUnfold(pieces[1..][1..], url, 10);
  }

  // The departure goes the other way as well: `/*/*.json` matches
  // `/a.json/`, where no `.json` follows the second `/`, because the source
  // adds the first position of `/` (0) instead of the position it found.
  lemma OutOfOrderAccepted()
    ensures RuleFitsPath("/*/*.json", "/a.json/")
    ensures !InOrderMatch("/*/*.json", "/a.json/")
  {
    var url := "/a.json/";
    var pieces := ["/", "/", ".json"];
    assert Join(pieces, '*') == "/*/*.json";
    SplitJoin(pieces, '*');
    OutOfOrderOccurrences(url);
    OutOfOrderSource(url, pieces);
    OutOfOrderInOrder(url, pieces);
  }

  lemma OutOfOrderOccurrences(url: string)
    requires url == "/a.json/"
    ensures OccursAt(url, "/", 0) && OccursAt(url, "/", 7) && OccursAt(url, ".json", 2)
    ensures forall i :: 1 <= i < 7 ==> !OccursAt(url, "/", i)
  {
    OccursAtByChars(url, "/", 0);
    OccursAtByChars(url, "/", 7);
    OccursAtByChars(url, ".json", 2);
    NotOccursAtByChar(url, "/", 1, 0);
    NotOccursAtByChar(url, "/", 2, 0);
    NotOccursAtByChar(url, "/", 3, 0);
    NotOccursAtByChar(url, "/", 4, 0);
    NotOccursAtByChar(url, "/", 5, 0);
    NotOccursAtByChar(url, "/", 6, 0);
  }

  lemma OutOfOrderSource(url: string, pieces: seq<string>)
    requires url == "/a.json/" && pieces == ["/", "/", ".json"]
    requires OccursAt(url, "/", 0) && OccursAt(url, "/", 7) && OccursAt(url, ".json", 2)
    ensures IndexOf(url, pieces[0]) == 0 && PiecesFit(pieces, url, 0)
  {
    assert IndexOf(url, "/") == 0;
    assert Substr(url, 0) == url;
    assert NextIndex(url, 0, "/") == 1;
    OccurrenceInSubstr(url, 1, "/", 7);
    assert NextIndex(url, 1, "/") == 2;
    OccurrenceInSubstr(url, 2, ".json", 2);
    PiecesFitUnfold(pieces, url, 0);
    PiecesFitUnfold(pieces[1..], url, 1);
    PiecesFitUnfold(pieces[1..][1..], url, 2);
    assert pieces[1..][1..][1..] == [];
  }

  lemma OutOfOrderInOrder(url: string, pieces: seq<string>)
    requires url == "/a.json/" && pieces == ["/", "/", ".json"]
    requires OccursAt(url, "/", 7)
    requires forall i :: 1 <= i < 7 ==> !OccursAt(url, "/", i)
    ensures !ScanFrom(pieces[1..], url, |pieces[0]|)
  {
    assert IndexFrom(url, "/", 1) == 7;
    assert IndexFrom(url, ".json", 8) == -1;
    assert pieces[1..][1..] == [".json"];
  }
}
