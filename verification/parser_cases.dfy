/** Whole robots.txt documents from the repository's test table
    (tests/parser.test.js), parsed line by line and then queried. The agents
    and paths are parameters, of which the tests' own values are instances.
    The codec stays abstract: the cases only ask that the paths
    involved are safe and, for the final answers, that normalising keeps the
    rule's path a prefix of the url. */
module ParserCases {
  import opened JsString
  import opened Uri
  import opened Optional
  import opened Rules
  import opened Entries
  import opened Parser
  import opened Resolver

  // ---------------------------------------------------------------------
  // the lines involved

  /** A value the line lemmas accept: trimmed, non-empty, no `:` and no `#`. */
  predicate Plain(s: string) {
    Tidy(s) && ':' !in s && '#' !in s
  }

  lemma FieldNames()
    ensures Lower("User-agent") == "user-agent"
    ensures Lower("Disallow") == "disallow"
    ensures Lower("Allow") == "allow"
  {
  }

  lemma DelayFieldName(value: string)
    ensures ClassifyField(Lower("Crawl-delay"), value) == CrawlDelayLine(value)
  {
    assert Lower("Crawl-delay") == "crawl-delay";
  }

  lemma UserAgentLineIs(agent: string)
    requires Plain(agent)
    ensures Classify("User-agent: " + agent) == UserAgentLine(agent)
  {
    var line := "User-agent: " + agent;
    assert line == "User-agent" + ": " + agent;
    assert '#' !in "User-agent: ";
    FieldNames();
    ClassifyWellFormed(line, "User-agent", agent);
  }

  lemma DisallowLineIs(path: string)
    requires Plain(path)
    ensures Classify("Disallow: " + path) == RuleLine(false, path)
  {
    var line := "Disallow: " + path;
    assert line == "Disallow" + ": " + path;
    assert '#' !in "Disallow: ";
    FieldNames();
    ClassifyWellFormed(line, "Disallow", path);
  }

  lemma AllowLineIs(path: string)
    requires Plain(path)
    ensures Classify("Allow: " + path) == RuleLine(true, path)
  {
    var line := "Allow: " + path;
    assert line == "Allow" + ": " + path;
    assert '#' !in "Allow: ";
    FieldNames();
    ClassifyWellFormed(line, "Allow", path);
  }

  lemma CrawlDelayLineIs(value: string)
    requires Plain(value)
    ensures Classify("Crawl-delay: " + value) == CrawlDelayLine(value)
  {
    var line := "Crawl-delay: " + value;
    assert line == "Crawl-delay" + ": " + value;
    assert '#' !in "Crawl-delay: ";
    DelayFieldName(value);
    ClassifyWellFormed(line, "Crawl-delay", value);
  }

  /** A known move of the first line leaves the run of the rest. */
  lemma MoveCons(codec: Codec, m: Machine, lines: seq<string>, d: Directive, m': Machine)
    requires lines != [] && Moves(codec, m, lines[0], d, m')
    ensures Run(codec, m, lines) == Run(codec, m', lines[1..])
  {
    MovesIsStep(codec, m, lines[0], d, m');
  }

  /** Two known moves leave the run of the rest. */
  lemma MoveTwice(codec: Codec, m0: Machine, m1: Machine, m2: Machine, lines: seq<string>, d0: Directive, d1: Directive)
    requires |lines| >= 2
    requires Moves(codec, m0, lines[0], d0, m1) && Moves(codec, m1, lines[1], d1, m2)
    ensures Run(codec, m0, lines) == Run(codec, m2, lines[2..])
  {
    MoveCons(codec, m0, lines, d0, m1);
    MoveCons(codec, m1, lines[1..], d1, m2);
    assert lines[1..][1..] == lines[2..];
  }

  /** Two lines that move the machine through the three given states run it
      from the first to the last. */
  lemma RunTwo(codec: Codec, m0: Machine, m1: Machine, m2: Machine, lines: seq<string>, d0: Directive, d1: Directive)
    requires |lines| == 2
    requires Moves(codec, m0, lines[0], d0, m1) && Moves(codec, m1, lines[1], d1, m2)
    ensures Run(codec, m0, lines) == m2
  {
    MoveTwice(codec, m0, m1, m2, lines, d0, d1);
    assert lines[2..] == [];
  }

  /** Four lines that move the machine through the five given states run it
      from the first to the last. */
  lemma RunFour(codec: Codec, ms: seq<Machine>, lines: seq<string>, ds: seq<Directive>)
    requires |ms| == 5 && |lines| == 4 && |ds| == 4
    requires Moves(codec, ms[0], lines[0], ds[0], ms[1])
    requires Moves(codec, ms[1], lines[1], ds[1], ms[2])
    requires Moves(codec, ms[2], lines[2], ds[2], ms[3])
    requires Moves(codec, ms[3], lines[3], ds[3], ms[4])
    ensures Run(codec, ms[0], lines) == ms[4]
  {
    MoveTwice(codec, ms[0], ms[1], ms[2], lines, ds[0], ds[1]);
    RunTwo(codec, ms[2], ms[3], ms[4], lines[2..], ds[2], ds[3]);
  }

  /** Five lines that move the machine through the six given states run it
      from the first to the last. */
  lemma RunFive(codec: Codec, ms: seq<Machine>, lines: seq<string>, ds: seq<Directive>)
    requires |ms| == 6 && |lines| == 5 && |ds| == 5
    requires Moves(codec, ms[0], lines[0], ds[0], ms[1])
    requires Moves(codec, ms[1], lines[1], ds[1], ms[2])
    requires Moves(codec, ms[2], lines[2], ds[2], ms[3])
    requires Moves(codec, ms[3], lines[3], ds[3], ms[4])
    requires Moves(codec, ms[4], lines[4], ds[4], ms[5])
    ensures Run(codec, ms[0], lines) == ms[5]
  {
    MoveTwice(codec, ms[0], ms[1], ms[2], lines, ds[0], ds[1]);
    MoveTwice(codec, ms[2], ms[3], ms[4], lines[2..], ds[2], ds[3]);
    MoveCons(codec, ms[4], lines[2..][2..], ds[4], ms[5]);
    assert lines[2..][2..][1..] == [];
  }

  // ---------------------------------------------------------------------
  // two records separated by a blank line

  /** The line of an Allow (`allow`) or Disallow rule for `path`. */
  function RuleText(allow: bool, path: string): string {
    (if allow then "Allow: " else "Disallow: ") + path
  }

  lemma RuleTextIs(allow: bool, path: string)
    requires Plain(path)
    ensures Classify(RuleText(allow, path)) == RuleLine(allow, path)
  {
    if allow {
      AllowLineIs(path);
    } else {
      DisallowLineIs(path);
    }
  }

  /**   User-agent: <a>
        Allow: <p>          (or Disallow: <p>)

        User-agent: <b>
        Disallow: <q> */
  function TwoRecords(a: string, allow: bool, p: string, b: string, q: string): seq<string> {
    ["User-agent: " + a, RuleText(allow, p), "", "User-agent: " + b, "Disallow: " + q]
  }

  /** The machine before and after each line of `TwoRecords`. */
  function TwoRecordsMachines(codec: Codec, a: string, allow: bool, p: string, b: string, q: string): seq<Machine> {
    var first := Entry([a], [MakeRule(codec, p, allow)], None);
    var doc := AddEntry(EmptyDoc, first);
    [Machine(Start, EmptyEntry, EmptyDoc),
     Machine(SawAgent, Entry([a], [], None), EmptyDoc),
     Machine(SawAllowOrDisallow, first, EmptyDoc),
     Machine(Start, EmptyEntry, doc),
     Machine(SawAgent, Entry([b], [], None), doc),
     Machine(SawAllowOrDisallow, Entry([b], [MakeRule(codec, q, false)], None), doc)]
  }

  lemma TwoRecordsTransitions(codec: Codec, a: string, allow: bool, p: string, b: string, q: string)
    requires codec.pathSafe(p) && codec.pathSafe(q)
    ensures var ms := TwoRecordsMachines(codec, a, allow, p, b, q);
            && Apply(codec, ms[0], UserAgentLine(a)) == ms[1]
            && Apply(codec, ms[1], RuleLine(allow, p)) == ms[2]
            && Blank(ms[2]) == ms[3]
            && Apply(codec, ms[3], UserAgentLine(b)) == ms[4]
            && Apply(codec, ms[4], RuleLine(false, q)) == ms[5]
  {
  }

  /** The blank line commits the first record and the end of input the
      second, both through `_addEntry`, in file order. */
  lemma ParseTwoRecords(codec: Codec, a: string, allow: bool, p: string, b: string, q: string)
    requires Plain(a) && Plain(p) && Plain(b) && Plain(q)
    requires codec.pathSafe(p) && codec.pathSafe(q)
    ensures Parse(codec, EmptyDoc, TwoRecords(a, allow, p, b, q)) ==
            AddEntry(AddEntry(EmptyDoc, Entry([a], [MakeRule(codec, p, allow)], None)),
                     Entry([b], [MakeRule(codec, q, false)], None))
  {
    var ms, lines := TwoRecordsMachines(codec, a, allow, p, b, q), TwoRecords(a, allow, p, b, q);
    UserAgentLineIs(a);
    RuleTextIs(allow, p);
    UserAgentLineIs(b);
    DisallowLineIs(q);
    TwoRecordsTransitions(codec, a, allow, p, b, q);
    RunFive(codec, ms, lines, [UserAgentLine(a), RuleLine(allow, p), Malformed,
                               UserAgentLine(b), RuleLine(false, q)]);
  }

  // ---------------------------------------------------------------------
  // a record that follows another without a blank line

  /**   User-agent: <a>
        Allow: <p>          (or Disallow: <p>)
        User-agent: <b>
        Disallow: <q> */
  function BackToBack(a: string, allow: bool, p: string, b: string, q: string): seq<string> {
    ["User-agent: " + a, RuleText(allow, p), "User-agent: " + b, "Disallow: " + q]
  }

  /** The machine before and after each line of `BackToBack`. */
  function BackToBackMachines(codec: Codec, a: string, allow: bool, p: string, b: string, q: string): seq<Machine> {
    var first := Entry([a], [MakeRule(codec, p, allow)], None);
    var doc := AddEntry(EmptyDoc, first);
    [Machine(Start, EmptyEntry, EmptyDoc),
     Machine(SawAgent, Entry([a], [], None), EmptyDoc),
     Machine(SawAllowOrDisallow, first, EmptyDoc),
     Machine(SawAgent, Entry([b], [], None), doc),
     Machine(SawAllowOrDisallow, Entry([b], [MakeRule(codec, q, false)], None), doc)]
  }

  lemma BackToBackTransitions(codec: Codec, a: string, allow: bool, p: string, b: string, q: string)
    requires codec.pathSafe(p) && codec.pathSafe(q)
    ensures var ms := BackToBackMachines(codec, a, allow, p, b, q);
            && Apply(codec, ms[0], UserAgentLine(a)) == ms[1]
            && Apply(codec, ms[1], RuleLine(allow, p)) == ms[2]
            && Apply(codec, ms[2], UserAgentLine(b)) == ms[3]
            && Apply(codec, ms[3], RuleLine(false, q)) == ms[4]
  {
  }

  /** A `User-agent` line need not follow a blank line: after a rule it
      commits the pending record through `_addEntry` and starts a new one,
      so the result is the same as with the blank line. */
  lemma ParseBackToBack(codec: Codec, a: string, allow: bool, p: string, b: string, q: string)
    requires Plain(a) && Plain(p) && Plain(b) && Plain(q)
    requires codec.pathSafe(p) && codec.pathSafe(q)
    ensures Parse(codec, EmptyDoc, BackToBack(a, allow, p, b, q)) ==
            AddEntry(AddEntry(EmptyDoc, Entry([a], [MakeRule(codec, p, allow)], None)),
                     Entry([b], [MakeRule(codec, q, false)], None))
    ensures Parse(codec, EmptyDoc, BackToBack(a, allow, p, b, q)) ==
            Parse(codec, EmptyDoc, TwoRecords(a, allow, p, b, q))
  {
    ParseFourLines(codec, a, allow, p, b, q);
    ParseTwoRecords(codec, a, allow, p, b, q);
  }

  lemma ParseFourLines(codec: Codec, a: string, allow: bool, p: string, b: string, q: string)
    requires Plain(a) && Plain(p) && Plain(b) && Plain(q)
    requires codec.pathSafe(p) && codec.pathSafe(q)
    ensures Parse(codec, EmptyDoc, BackToBack(a, allow, p, b, q)) ==
            AddEntry(AddEntry(EmptyDoc, Entry([a], [MakeRule(codec, p, allow)], None)),
                     Entry([b], [MakeRule(codec, q, false)], None))
  {
    var ms, lines := BackToBackMachines(codec, a, allow, p, b, q), BackToBack(a, allow, p, b, q);
    UserAgentLineIs(a);
    RuleTextIs(allow, p);
    UserAgentLineIs(b);
    DisallowLineIs(q);
    BackToBackTransitions(codec, a, allow, p, b, q);
    RunFour(codec, ms, lines, [UserAgentLine(a), RuleLine(allow, p), UserAgentLine(b), RuleLine(false, q)]);
  }

  // ---------------------------------------------------------------------
  // a record with a crawl delay and no rules

  /**   User-agent: <a>
        Crawl-delay: <v> */
  function DelayOnly(a: string, v: string): seq<string> {
    ["User-agent: " + a, "Crawl-delay: " + v]
  }

  /** `Crawl-delay` after an agent moves to SAW_ALLOW_OR_DISALLOW, so a
      record with a delay and no rules is still committed at end of input,
      and its agent then gets that delay. */
  lemma DelayOnlyRecord(codec: Codec, a: string, v: string)
    requires Plain(a) && Plain(v) && a != "*" && '/' !in a
    ensures Parse(codec, EmptyDoc, DelayOnly(a, v)) == Doc([Entry([a], [], Some(v))], None)
    ensures CrawlDelay(Parse(codec, EmptyDoc, DelayOnly(a, v)), a) == Some(v)
  {
    RunDelayOnly(codec, a, v);
    CommitOne(Entry([a], [], Some(v)));
    OwnDelay(Entry([a], [], Some(v)), a);
  }

  lemma RunDelayOnly(codec: Codec, a: string, v: string)
    requires Plain(a) && Plain(v)
    ensures Run(codec, Machine(Start, EmptyEntry, EmptyDoc), DelayOnly(a, v)) ==
            Machine(SawAllowOrDisallow, Entry([a], [], Some(v)), EmptyDoc)
  {
    UserAgentLineIs(a);
    CrawlDelayLineIs(v);
    DelayOnlyTransitions(codec, a, v);
    RunTwo(codec, Machine(Start, EmptyEntry, EmptyDoc), Machine(SawAgent, Entry([a], [], None), EmptyDoc),
           Machine(SawAllowOrDisallow, Entry([a], [], Some(v)), EmptyDoc), DelayOnly(a, v),
           UserAgentLine(a), CrawlDelayLine(v));
  }

  lemma DelayOnlyTransitions(codec: Codec, a: string, v: string)
    ensures Apply(codec, Machine(Start, EmptyEntry, EmptyDoc), UserAgentLine(a)) ==
            Machine(SawAgent, Entry([a], [], None), EmptyDoc)
    ensures Apply(codec, Machine(SawAgent, Entry([a], [], None), EmptyDoc), CrawlDelayLine(v)) ==
            Machine(SawAllowOrDisallow, Entry([a], [], Some(v)), EmptyDoc)
  {
  }

  /** Committing an agent-specific record to an empty document makes it the
      only entry. */
  lemma CommitOne(e: Entry)
    requires "*" !in e.userAgents
    ensures AddEntry(EmptyDoc, e) == Doc([e], None)
  {
  }

  /** A one-agent entry with a delay, alone in the document, gives its own
      agent that delay. */
  lemma OwnDelay(e: Entry, a: string)
    requires e.userAgents == [a] && e.crawlDelay.Some? && '/' !in a
    ensures CrawlDelay(Doc([e], None), a) == e.crawlDelay
  {
    AgentTokenWithoutSlash(a);
    SingleAgent(e, a);
    assert AppliesTo(e, a);
  }

  // ---------------------------------------------------------------------
  // case 14: obey the first `*` record

  /** Of two `*` records, the first becomes the default entry and the second
      is dropped; no agent-specific entry is produced. */
  lemma ObeyFirstStarRecord(codec: Codec, star: string, p: string, q: string)
    requires star == "*" && Plain(p) && Plain(q)
    requires codec.pathSafe(p) && codec.pathSafe(q)
    ensures Parse(codec, EmptyDoc, TwoRecords(star, false, p, star, q)) ==
            Doc([], Some(Entry([star], [MakeRule(codec, p, false)], None)))
  {
    ParseTwoRecords(codec, star, false, p, star, q);
    assert star in [star];
  }

  // ---------------------------------------------------------------------
  // cases 10 and 11: entries are consulted in file order

  /** Two agent-specific records are both kept, in file order. */
  lemma ParseOrderLines(codec: Codec, a: string, p: string, b: string, q: string)
    requires Plain(a) && Plain(p) && Plain(b) && Plain(q) && "*" !in [a, b]
    requires codec.pathSafe(p) && codec.pathSafe(q)
    ensures Parse(codec, EmptyDoc, TwoRecords(a, true, p, b, q)) ==
            Doc([Entry([a], [MakeRule(codec, p, true)], None),
                 Entry([b], [MakeRule(codec, q, false)], None)], None)
  {
    ParseTwoRecords(codec, a, true, p, b, q);
    CommitTwo(Entry([a], [MakeRule(codec, p, true)], None), Entry([b], [MakeRule(codec, q, false)], None));
  }

  /** Committing two agent-specific records to an empty document keeps both,
      in order, and sets no default. */
  lemma CommitTwo(first: Entry, second: Entry)
    requires "*" !in first.userAgents && "*" !in second.userAgents
    ensures AddEntry(AddEntry(EmptyDoc, first), second) == Doc([first, second], None)
  {
    assert [] + [first] + [second] == [first, second];
  }

  /** After a 200 response with a `Googlebot-Mobile` record allowing `/`
      before a `Googlebot` record disallowing `/`, `Googlebot` may not fetch
      the url and `Googlebot-Mobile` may, although `Googlebot-Mobile` also
      starts with `Googlebot`: its own record comes first. */
  lemma GetTheOrderCorrect(codec: Codec, mobile: string, plain: string, root: string, url: string)
    requires mobile == "Googlebot-Mobile" && plain == "Googlebot" && root == "/"
    requires codec.pathSafe(root)
    requires '*' !in Normalize(codec, root)
    requires Normalize(codec, root) <= Normalize(codec, EffectiveUrl(url))
    ensures var r := OnStatus(Robots(Parse(codec, EmptyDoc, TwoRecords(mobile, true, root, plain, root)), false, false, -1), 200);
            !CanFetchSync(codec, r, plain, url) && CanFetchSync(codec, r, mobile, url)
  {
    ParseOrderLines(codec, mobile, root, plain, root);
    OrderDecides(codec, mobile, plain, root, url);
  }

  lemma OrderDecides(codec: Codec, mobile: string, plain: string, root: string, url: string)
    requires mobile == "Googlebot-Mobile" && plain == "Googlebot" && root != ""
    requires '*' !in Normalize(codec, root)
    requires Normalize(codec, root) <= Normalize(codec, EffectiveUrl(url))
    ensures var r := Robots(Doc([Entry([mobile], [MakeRule(codec, root, true)], None),
                                 Entry([plain], [MakeRule(codec, root, false)], None)], None), false, false, 200);
            !CanFetchSync(codec, r, plain, url) && CanFetchSync(codec, r, mobile, url)
  {
    var m, p := Entry([mobile], [MakeRule(codec, root, true)], None), Entry([plain], [MakeRule(codec, root, false)], None);
    EntryOrderIsFileOrder(codec, m, p, url);
    SingleRuleDecides(codec, m, root, true, url);
    SingleRuleDecides(codec, p, root, false, url);
  }

  /** An entry whose one rule's pattern has no `*` and, normalised, starts
      the normalised url answers with that rule's allowance. */
  lemma SingleRuleDecides(codec: Codec, e: Entry, path: string, allow: bool, url: string)
    requires e.rules == [MakeRule(codec, path, allow)] && path != ""
    requires '*' !in Normalize(codec, path)
    requires Normalize(codec, path) <= Normalize(codec, EffectiveUrl(url))
    ensures Allowance(codec, e, EffectiveUrl(url)) == allow
  {
    NoWildcardIsPrefix(Normalize(codec, path), Normalize(codec, EffectiveUrl(url)));
    assert RuleAppliesTo(codec, e.rules[0], EffectiveUrl(url));
  }
}
