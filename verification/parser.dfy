/** The line-oriented robots.txt parser of lib/parser.js: a three-state
    machine folded over the lines, and the rule that commits a finished record
    either as an agent-specific entry or as the default (`*`) entry. */
module Parser {
  import opened JsString
  import opened Uri
  import opened Optional
  import opened Rules
  import opened Entries

  /** START, SAW_AGENT and SAW_ALLOW_OR_DISALLOW. */
  datatype State = Start | SawAgent | SawAllowOrDisallow

  /** What parsing has produced so far: the agent-specific entries in file
      order and the default entry, the first record that listed `*`. */
  datatype Doc = Doc(entries: seq<Entry>, defaultEntry: Option<Entry>)

  const EmptyDoc := Doc([], None)

  /** The machine between two lines: its state, the record being built and
      the document so far. */
  datatype Machine = Machine(state: State, entry: Entry, doc: Doc)

  /** What one line says once its comment is gone and it is split into field
      and value. */
  datatype Directive =
    | UserAgentLine(value: string)
    | RuleLine(allow: bool, value: string)
    | CrawlDelayLine(value: string)
    | OtherField
    | Malformed

  /** `_addEntry`: a record that lists `*` becomes the default entry unless
      one is already set, in which case it is dropped; any other record is
      appended to the entries. The default entry, once set, never changes. */
  function AddEntry(doc: Doc, e: Entry): (d: Doc)
    ensures "*" !in e.userAgents ==> d.entries == doc.entries + [e] && d.defaultEntry == doc.defaultEntry
    ensures "*" in e.userAgents ==> d.entries == doc.entries
    ensures "*" in e.userAgents && doc.defaultEntry.None? ==> d.defaultEntry == Some(e)
    ensures doc.defaultEntry.Some? ==> d.defaultEntry == doc.defaultEntry
  {
    if "*" in e.userAgents then
      if doc.defaultEntry.None? then doc.(defaultEntry := Some(e)) else doc
    else
      doc.(entries := doc.entries + [e])
  }

  /** The line with any `#` comment cut off and white space trimmed. */
  function Content(line: string): string {
    var hash := IndexOf(line, "#");
    Trim(if hash > -1 then line[..hash] else line)
  }

  /** Splits the content on every `:` and accepts exactly two parts: a value
      that itself contains `:` makes the line malformed. The field is
      compared case-insensitively; field and value are trimmed. */
  function Classify(line: string): Directive {
    var parts := Split(Content(line), ':');
    if |parts| != 2 then Malformed
    else ClassifyField(Lower(Trim(parts[0])), Trim(parts[1]))
  }

  /** The directive a lower-cased field name introduces. */
  function ClassifyField(field: string, value: string): Directive {
    if field == "user-agent" then UserAgentLine(value)
    else if field == "disallow" then RuleLine(false, value)
    else if field == "allow" then RuleLine(true, value)
    else if field == "crawl-delay" then CrawlDelayLine(value)
    else OtherField
  }

  /** An empty line ends a record: an agent-only record is discarded, a record
      with rules is committed, and the machine returns to START. */
  function Blank(m: Machine): Machine {
    match m.state
    case Start => m
    case SawAgent => Machine(Start, EmptyEntry, m.doc)
    case SawAllowOrDisallow => Machine(Start, EmptyEntry, AddEntry(m.doc, m.entry))
  }

  /** The effect of one directive. */
  function Apply(codec: Codec, m: Machine, d: Directive): Machine {
    match d
    case UserAgentLine(value) =>
      var base := if m.state == SawAllowOrDisallow then Machine(m.state, EmptyEntry, AddEntry(m.doc, m.entry)) else m;
      Machine(SawAgent, base.entry.(userAgents := base.entry.userAgents + [value]), base.doc)
    case RuleLine(allow, value) =>
      if m.state != Start && codec.pathSafe(value) then
        Machine(SawAllowOrDisallow, m.entry.(rules := m.entry.rules + [MakeRule(codec, value, allow)]), m.doc)
      else m
    case CrawlDelayLine(value) =>
      if m.state != Start then Machine(SawAllowOrDisallow, m.entry.(crawlDelay := Some(value)), m.doc)
      else m
    case OtherField => m
    case Malformed => m
  }

  /** One iteration of the parse loop: the empty-line check comes first, on
      the raw line, and the line is then classified and applied. */
  function Step(codec: Codec, m: Machine, line: string): Machine {
    Apply(codec, if line == "" then Blank(m) else m, Classify(line))
  }

  /** The parse loop over `lines`. */
  function Run(codec: Codec, m: Machine, lines: seq<string>): Machine
    decreases |lines|
  {
    if lines == [] then m else Run(codec, Step(codec, m, lines[0]), lines[1..])
  }

  /** After the last line only a record in SAW_ALLOW_OR_DISALLOW is committed;
      an agent-only record and the START state contribute nothing. */
  function Finish(m: Machine): (d: Doc)
    ensures m.state != SawAllowOrDisallow ==> d == m.doc
    ensures m.state == SawAllowOrDisallow ==> d == AddEntry(m.doc, m.entry)
  {
    if m.state == SawAllowOrDisallow then AddEntry(m.doc, m.entry) else m.doc
  }

  /** `parse(lines)`: runs the machine from START with a fresh record over the
      document the parser already holds (the source does not reset it). */
  function Parse(codec: Codec, doc: Doc, lines: seq<string>): Doc {
    Finish(Run(codec, Machine(Start, EmptyEntry, doc), lines))
  }

  // ---------------------------------------------------------------------
  // invariants

  /** Every committed entry names at least one agent; agent-specific entries
      never list `*`; the default entry does. */
  predicate DocInv(doc: Doc) {
    && (forall i :: 0 <= i < |doc.entries| ==> |doc.entries[i].userAgents| >= 1 && "*" !in doc.entries[i].userAgents)
    && (doc.defaultEntry.Some? ==> "*" in doc.defaultEntry.value.userAgents)
  }

  /** In START the pending record is a fresh one; in the other states it has
      at least one agent; in SAW_AGENT it has neither rules nor a delay. */
  predicate MachineInv(m: Machine) {
    && DocInv(m.doc)
    && (m.state == Start ==> m.entry == EmptyEntry)
    && (m.state != Start ==> |m.entry.userAgents| >= 1)
    && (m.state == SawAgent ==> m.entry.rules == [] && m.entry.crawlDelay.None?)
  }

  /** Committing a record with at least one agent keeps the document
      well formed. */
  lemma AddEntryKeepsInv(doc: Doc, e: Entry)
    requires DocInv(doc) && |e.userAgents| >= 1
    ensures DocInv(AddEntry(doc, e))
  {
    if "*" !in e.userAgents {
      var d := AddEntry(doc, e);
      assert d.entries[|d.entries| - 1] == e;
    }
  }

  lemma ApplyKeepsInv(codec: Codec, m: Machine, d: Directive)
    requires MachineInv(m)
    ensures MachineInv(Apply(codec, m, d))
  {
    if d.UserAgentLine? && m.state == SawAllowOrDisallow {
      AddEntryKeepsInv(m.doc, m.entry);
    }
  }

  lemma StepKeepsInv(codec: Codec, m: Machine, line: string)
    requires MachineInv(m)
    ensures MachineInv(Step(codec, m, line))
  {
    var m1 := if line == "" then Blank(m) else m;
    if line == "" && m.state == SawAllowOrDisallow {
      AddEntryKeepsInv(m.doc, m.entry);
    }
    ApplyKeepsInv(codec, m1, Classify(line));
  }

  lemma {:induction false} RunKeepsInv(codec: Codec, m: Machine, lines: seq<string>)
    requires MachineInv(m)
    ensures MachineInv(Run(codec, m, lines))
    decreases |lines|
  {
    if lines != [] {
      StepKeepsInv(codec, m, lines[0]);
      RunKeepsInv(codec, Step(codec, m, lines[0]), lines[1..]);
    }
  }

  /** Parsing into a well-formed document yields a well-formed document:
      every committed entry has an agent, and `*` records only ever become
      the default entry. */
  lemma ParseKeepsInv(codec: Codec, doc: Doc, lines: seq<string>)
    requires DocInv(doc)
    ensures DocInv(Parse(codec, doc, lines))
  {
    var m := Run(codec, Machine(Start, EmptyEntry, doc), lines);
    RunKeepsInv(codec, Machine(Start, EmptyEntry, doc), lines);
    if m.state == SawAllowOrDisallow {
      AddEntryKeepsInv(m.doc, m.entry);
    }
  }

  // ---------------------------------------------------------------------
  // what parsing never undoes

  /** The document only grows: entries are appended, never removed or
      reordered, and a default entry, once set, is never replaced. */
  predicate Extends(before: Doc, after: Doc) {
    && before.entries <= after.entries
    && (before.defaultEntry.Some? ==> after.defaultEntry == before.defaultEntry)
  }

  lemma ApplyExtends(codec: Codec, m: Machine, d: Directive)
    ensures Extends(m.doc, Apply(codec, m, d).doc)
  {
  }

  lemma BlankExtends(m: Machine)
    ensures Extends(m.doc, Blank(m).doc)
  {
  }

  lemma ExtendsTransitive(a: Doc, b: Doc, c: Doc)
    requires Extends(a, b) && Extends(b, c)
    ensures Extends(a, c)
  {
  }

  lemma StepExtends(codec: Codec, m: Machine, line: string)
    ensures Extends(m.doc, Step(codec, m, line).doc)
  {
    var m1 := if line == "" then Blank(m) else m;
    BlankExtends(m);
    var d := Classify(line);
    ApplyExtends(codec, m1, d);
    ExtendsTransitive(m.doc, m1.doc, Apply(codec, m1, d).doc);
  }

  lemma {:induction false} RunExtends(codec: Codec, m: Machine, lines: seq<string>)
    ensures Extends(m.doc, Run(codec, m, lines).doc)
    decreases |lines|
  {
    if lines != [] {
      var m1 := Step(codec, m, lines[0]);
      StepExtends(codec, m, lines[0]);
      RunExtends(codec, m1, lines[1..]);
    }
  }

  /** The first `*` record wins: once a default entry is set, later `*`
      records are dropped, and entries already present stay in place. */
  lemma ParseExtends(codec: Codec, doc: Doc, lines: seq<string>)
    ensures Extends(doc, Parse(codec, doc, lines))
  {
    RunExtends(codec, Machine(Start, EmptyEntry, doc), lines);
  }

  // ---------------------------------------------------------------------
  // running through known lines

  /** One line moves the machine from `m` to `m'`: an empty line through the
      blank-line rule, any other line through the directive `d` it carries. */
  predicate Moves(codec: Codec, m: Machine, line: string, d: Directive, m': Machine) {
    if line == "" then Blank(m) == m' else Classify(line) == d && Apply(codec, m, d) == m'
  }

  lemma MovesIsStep(codec: Codec, m: Machine, line: string, d: Directive, m': Machine)
    requires Moves(codec, m, line, d, m')
    ensures Step(codec, m, line) == m'
  {
    if line == "" {
      EmptyLine(codec, m);
      match m.state
      case Start =>
      case SawAgent =>
      case SawAllowOrDisallow =>
    }
  }

  // ---------------------------------------------------------------------
  // single lines

  /** A non-empty line whose content does not split into exactly two parts
      on `:` changes nothing: not the state, the pending record or the
      document. */
  lemma MalformedLineIsNoOp(codec: Codec, m: Machine, line: string)
    requires line != "" && |Split(Content(line), ':')| != 2
    ensures Step(codec, m, line) == m
  {
  }

  /** In particular a line whose value contains a `:` is dropped. */
  lemma ColonInValueDropped(codec: Codec, m: Machine, line: string, field: string, value: string)
    requires line != "" && Content(line) == field + ":" + value
    requires ':' !in field && ':' in value
    ensures Step(codec, m, line) == m
  {
    SplitAfterFirst(field, ':', value);
    SeparatorSplits(value, ':');
    assert Content(line) == field + [':'] + value;
    MalformedLineIsNoOp(codec, m, line);
  }

  /** The empty line: an agent-only record is discarded, a record with rules
      is committed, and START is left alone. */
  lemma EmptyLine(codec: Codec, m: Machine)
    ensures m.state == Start ==> Step(codec, m, "") == m
    ensures m.state == SawAgent ==> Step(codec, m, "") == Machine(Start, EmptyEntry, m.doc)
    ensures m.state == SawAllowOrDisallow ==>
            Step(codec, m, "") == Machine(Start, EmptyEntry, AddEntry(m.doc, m.entry))
  {
    ClassifyEmpty();
  }

  lemma ClassifyEmpty()
    ensures Classify("") == Malformed
  {
    assert IndexOf("", "#") == -1;
    assert Trim("") == "";
    assert Split("", ':') == [""];
  }

  /** A well-formed `field: value` line (no comment, one colon, a single
      blank after it) carries the directive its field names, whatever the
      field's case. */
  lemma ClassifyWellFormed(line: string, field: string, value: string)
    requires line == field + ": " + value
    requires '#' !in line && ':' !in field && ':' !in value
    requires Tidy(field) && Tidy(value)
    ensures Classify(line) == ClassifyField(Lower(field), value)
  {
    assert line[0] == field[0] && line[|line| - 1] == value[|value| - 1];
    ContentOfTidy(line);
    SplitFieldValue(field, value);
    TrimTidy(field);
    TrimLeadingBlank(value);
  }

  /** A tidy line without `#` is its own content. */
  lemma ContentOfTidy(line: string)
    requires '#' !in line && Tidy(line)
    ensures Content(line) == line
  {
    IndexOfAbsent(line, '#');
    TrimTidy(line);
  }

  lemma SplitFieldValue(field: string, value: string)
    requires ':' !in field && ':' !in value
    ensures Split(field + ": " + value, ':') == [field, " " + value]
  {
    assert field + ": " + value == field + [':'] + (" " + value);
    SplitAfterFirst(field, ':', " " + value);
    SplitNoSeparator(" " + value, ':');
  }

  /** Everything from the first `#` on is ignored; a line holding only a
      comment is not blank, so it changes nothing and does not end a record. */
  lemma CommentIgnored(codec: Codec, m: Machine, line: string, comment: string)
    requires '#' !in line
    ensures Classify(line + "#" + comment) == Classify(line)
    ensures line != "" ==> Step(codec, m, line + "#" + comment) == Step(codec, m, line)
    ensures Step(codec, m, "#" + comment) == m
  {
    ContentDropsComment(line, comment);
    assert Classify(line + "#" + comment) == Classify(line);
    CommentLineIgnored(codec, m, comment);
  }

  /** A line that is nothing but a comment is malformed, and is not blank
      either, so the machine does not move. */
  lemma CommentLineIgnored(codec: Codec, m: Machine, comment: string)
    ensures Classify("#" + comment) == Malformed
    ensures Step(codec, m, "#" + comment) == m
  {
    var line := "#" + comment;
    ContentDropsComment("", comment);
    assert "" + "#" + comment == line;
    ClassifyEmpty();
    EmptyContentIgnored(codec, m, line);
  }

  /** A non-empty line whose content is empty leaves the machine alone. */
  lemma EmptyContentIgnored(codec: Codec, m: Machine, line: string)
    requires line != "" && Content(line) == Content("")
    requires Classify("") == Malformed
    ensures Classify(line) == Malformed
    ensures Step(codec, m, line) == m
  {
  }

  lemma ContentDropsComment(line: string, comment: string)
    requires '#' !in line
    ensures Content(line + "#" + comment) == Content(line)
  {
    var full := line + "#" + comment;
    IndexOfFirst(line, '#', comment);
    assert full[..|line|] == line;
    IndexOfAbsent(line, '#');
  }

  /** Allow, Disallow and Crawl-delay before any User-agent line are ignored,
      and so are Allow and Disallow lines whose value is not a safe path. */
  lemma IgnoredDirectives(codec: Codec, m: Machine, line: string)
    requires line != ""
    ensures m.state == Start && !Classify(line).UserAgentLine? ==> Step(codec, m, line) == m
    ensures Classify(line).RuleLine? && !codec.pathSafe(Classify(line).value) ==> Step(codec, m, line) == m
  {
  }
}
