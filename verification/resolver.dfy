/** The questions a parsed robots.txt answers (lib/parser.js): may this agent
    fetch this url, with which crawl delay, and how the HTTP status of the
    robots.txt response overrides the document. */
module Resolver {
  import opened Uri
  import opened Optional
  import opened Search
  import opened Rules
  import opened Entries
  import opened Parser

  /** The parser object after a fetch: the parsed document, the two status
      flags and the last status code seen (-1 before any response). */
  datatype Robots = Robots(doc: Doc, disallowAll: bool, allowAll: bool, statusCode: int)

  /** The parser as its constructor leaves it. */
  const Initial := Robots(EmptyDoc, false, false, -1)

  /** How `read` treats a response status. */
  datatype StatusAction = DenyAll | PermitAll | FollowRedirect | ParseBody

  /** 401 and 403 deny everything, any other status of 400 or more permits
      everything, 301 and 302 are followed, and anything else is parsed. */
  function ClassifyStatus(code: int): (a: StatusAction)
    ensures a == DenyAll <==> code == 401 || code == 403
    ensures a == PermitAll <==> code >= 400 && code != 401 && code != 403
    ensures a == FollowRedirect <==> code == 301 || code == 302
    ensures a == ParseBody <==> code < 400 && code != 301 && code != 302
  {
    if code == 401 || code == 403 then DenyAll
    else if code >= 400 then PermitAll
    else if code == 301 || code == 302 then FollowRedirect
    else ParseBody
  }

  /** The response handler's effect on the parser: record the status code and
      raise the matching flag. Flags are only ever raised, never cleared. */
  function OnStatus(r: Robots, code: int): (r': Robots)
    ensures r'.statusCode == code && r'.doc == r.doc
    ensures r'.disallowAll == (r.disallowAll || code == 401 || code == 403)
    ensures r'.allowAll == (r.allowAll || (code >= 400 && code != 401 && code != 403))
  {
    match ClassifyStatus(code)
    case DenyAll => r.(statusCode := code, disallowAll := true)
    case PermitAll => r.(statusCode := code, allowAll := true)
    case FollowRedirect => r.(statusCode := code)
    case ParseBody => r.(statusCode := code)
  }

  /** `url || '/'`: an empty url stands for the site root. */
  function EffectiveUrl(url: string): (u: string)
    ensures url == "" ==> u == "/"
    ensures url != "" ==> u == url
  {
    if url == "" then "/" else url
  }

  /** Entry `i` is the first in file order that applies to the agent. */
  predicate FirstApplies(doc: Doc, userAgent: string, i: int) {
    0 <= i < |doc.entries| && AppliesTo(doc.entries[i], userAgent) &&
    forall j :: 0 <= j < i ==> !AppliesTo(doc.entries[j], userAgent)
  }

  /** No entry applies to the agent. */
  predicate NoneApplies(doc: Doc, userAgent: string) {
    forall j :: 0 <= j < |doc.entries| ==> !AppliesTo(doc.entries[j], userAgent)
  }

  /** `canFetchSync(userAgent, url)`. */
  function CanFetchSync(codec: Codec, r: Robots, userAgent: string, url: string): (allowed: bool)
    // the status flags override the document, denial first
    ensures r.disallowAll ==> !allowed
    ensures !r.disallowAll && r.allowAll ==> allowed
    // the first entry in file order that applies decides, whatever its rules say
    ensures forall i :: !r.disallowAll && !r.allowAll && FirstApplies(r.doc, userAgent, i)
                        ==> allowed == Allowance(codec, r.doc.entries[i], EffectiveUrl(url))
    // the default entry only when no entry applies; with neither, allowed
    ensures !r.disallowAll && !r.allowAll && NoneApplies(r.doc, userAgent)
            ==> allowed == (r.doc.defaultEntry.None? ||
                            Allowance(codec, r.doc.defaultEntry.value, EffectiveUrl(url)))
  {
    var path := EffectiveUrl(url);
    if r.disallowAll then false
    else if r.allowAll then true
    else
      var applies := (e: Entry) => AppliesTo(e, userAgent);
      match First(r.doc.entries, applies)
      case Some(i) =>
        assert forall k :: (0 <= k < |r.doc.entries| && applies(r.doc.entries[k]) &&
                            (forall j :: 0 <= j < k ==> !applies(r.doc.entries[j]))) ==> k == i;
        Allowance(codec, r.doc.entries[i], path)
      case None =>
        match r.doc.defaultEntry
        case Some(d) => Allowance(codec, d, path)
        case None => true
  }

  /** The reason the asynchronous `canFetch` reports with its answer. */
  datatype Reason =
    | StatusCode(code: int)
    | ByEntry(entry: Entry)
    | ByDefaultEntry(entry: Entry)
    | NoRule

  /** What the asynchronous `canFetch` hands its callback. */
  datatype Verdict = Verdict(allowed: bool, url: string, reason: Reason)

  /** `canFetch(userAgent, url, callback)` without the deferral: the answer,
      the effective url and the reason. */
  function CanFetchVerdict(codec: Codec, r: Robots, userAgent: string, url: string): (v: Verdict)
    ensures v.url == EffectiveUrl(url)
    ensures v.reason.StatusCode? <==> r.disallowAll || r.allowAll
    ensures v.reason.StatusCode? ==> v.reason.code == r.statusCode && v.allowed == !r.disallowAll
    // an entry reason names the first applicable entry, whose rules give the answer
    ensures v.reason.ByEntry? ==>
              (exists i :: FirstApplies(r.doc, userAgent, i) && r.doc.entries[i] == v.reason.entry) &&
              v.allowed == Allowance(codec, v.reason.entry, v.url)
    // the default entry is the reason only when no entry applies
    ensures v.reason.ByDefaultEntry? ==>
              NoneApplies(r.doc, userAgent) && r.doc.defaultEntry == Some(v.reason.entry) &&
              v.allowed == Allowance(codec, v.reason.entry, v.url)
    ensures v.reason.NoRule? ==> v.allowed && NoneApplies(r.doc, userAgent) && r.doc.defaultEntry.None?
  {
    var path := EffectiveUrl(url);
    if r.disallowAll then Verdict(false, path, StatusCode(r.statusCode))
    else if r.allowAll then Verdict(true, path, StatusCode(r.statusCode))
    else
      match First(r.doc.entries, (e: Entry) => AppliesTo(e, userAgent))
      case Some(i) =>
        assert FirstApplies(r.doc, userAgent, i);
        Verdict(Allowance(codec, r.doc.entries[i], path), path, ByEntry(r.doc.entries[i]))
      case None =>
        assert NoneApplies(r.doc, userAgent);
        match r.doc.defaultEntry
        case Some(d) => Verdict(Allowance(codec, d, path), path, ByDefaultEntry(d))
        case None => Verdict(true, path, NoRule)
  }

  /** `getCrawlDelay(userAgent)`: the delay of the first entry that both
      applies and has a delay, skipping applicable entries without one;
      otherwise the default entry's delay, absent when there is no default.
      The status flags play no part. */
  function CrawlDelay(doc: Doc, userAgent: string): (delay: Option<string>)
    ensures forall i :: (0 <= i < |doc.entries| && AppliesTo(doc.entries[i], userAgent) &&
                         doc.entries[i].crawlDelay.Some? &&
                         (forall j :: 0 <= j < i && AppliesTo(doc.entries[j], userAgent) ==>
                                      doc.entries[j].crawlDelay.None?))
                        ==> delay == doc.entries[i].crawlDelay
    ensures (forall j :: 0 <= j < |doc.entries| && AppliesTo(doc.entries[j], userAgent) ==>
                         doc.entries[j].crawlDelay.None?)
            ==> delay == (if doc.defaultEntry.Some? then doc.defaultEntry.value.crawlDelay else None)
  {
    var hasDelay := (e: Entry) => AppliesTo(e, userAgent) && e.crawlDelay.Some?;
    match First(doc.entries, hasDelay)
    case Some(i) =>
      assert forall k :: (0 <= k < |doc.entries| && hasDelay(doc.entries[k]) &&
                          (forall j :: 0 <= j < k ==> !hasDelay(doc.entries[j]))) ==> k == i;
      doc.entries[i].crawlDelay
    case None =>
      if doc.defaultEntry.Some? then doc.defaultEntry.value.crawlDelay else None
  }

  // ---------------------------------------------------------------------
  // properties

  /** The asynchronous answer agrees with the synchronous one on every
      input: the decision logic is the same. */
  lemma VerdictAgreesWithSync(codec: Codec, r: Robots, userAgent: string, url: string)
    ensures CanFetchVerdict(codec, r, userAgent, url).allowed == CanFetchSync(codec, r, userAgent, url)
  {
  }

  /** A 401 or 403 response denies every agent every url; any other status
      of 400 or more permits every agent every url, unless an earlier
      response already denied everything. */
  lemma StatusDecides(codec: Codec, r: Robots, code: int, userAgent: string, url: string)
    ensures code == 401 || code == 403 ==> !CanFetchSync(codec, OnStatus(r, code), userAgent, url)
    ensures code >= 400 && code != 401 && code != 403 && !r.disallowAll ==>
            CanFetchSync(codec, OnStatus(r, code), userAgent, url)
  {
  }

  /** An empty url is the site root. */
  lemma EmptyUrlIsRoot(codec: Codec, r: Robots, userAgent: string)
    ensures CanFetchSync(codec, r, userAgent, "") == CanFetchSync(codec, r, userAgent, "/")
  {
  }

  /** A document with no entries and no default entry permits everything,
      whatever the agent and url. */
  lemma EmptyDocPermits(codec: Codec, userAgent: string, url: string)
    ensures CanFetchSync(codec, Initial, userAgent, url)
  {
  }

  /** `e` is the entry that decides for the agent: the first applicable
      entry, or the default entry when none applies. */
  predicate Decides(doc: Doc, userAgent: string, e: Entry) {
    (exists i :: 0 <= i < |doc.entries| && FirstApplies(doc, userAgent, i) && doc.entries[i] == e) ||
    (NoneApplies(doc, userAgent) && doc.defaultEntry == Some(e))
  }

  /** The url is denied by one of the entry's Disallow rules that applies. */
  predicate DisallowedBy(codec: Codec, e: Entry, url: string) {
    exists k :: 0 <= k < |e.rules| && !e.rules[k].allowance && RuleAppliesTo(codec, e.rules[k], url)
  }

  /** A denial from a parsed document is always backed by a Disallow rule
      that applies to the url, in the entry that decides. */
  lemma DenialHasReason(codec: Codec, r: Robots, userAgent: string, url: string)
    requires !r.disallowAll && !CanFetchSync(codec, r, userAgent, url)
    ensures exists e :: Decides(r.doc, userAgent, e) && DisallowedBy(codec, e, EffectiveUrl(url))
  {
    var v := CanFetchVerdict(codec, r, userAgent, url);
    VerdictAgreesWithSync(codec, r, userAgent, url);
    assert v.reason.ByEntry? || v.reason.ByDefaultEntry?;
    var e := v.reason.entry;
    assert Decides(r.doc, userAgent, e) && !Allowance(codec, e, EffectiveUrl(url));
    assert DisallowedBy(codec, e, EffectiveUrl(url));
  }

  /** Order among agent-specific entries is file order, not specificity: with
      a `Googlebot-Mobile` record before a `Googlebot` record, `Googlebot` is
      decided by its own record and `Googlebot-Mobile` by the first. */
  lemma EntryOrderIsFileOrder(codec: Codec, mobile: Entry, plain: Entry, url: string)
    requires mobile.userAgents == ["Googlebot-Mobile"] && plain.userAgents == ["Googlebot"]
    ensures var r := Robots(Doc([mobile, plain], None), false, false, 200);
            && CanFetchSync(codec, r, "Googlebot", url) == Allowance(codec, plain, EffectiveUrl(url))
            && CanFetchSync(codec, r, "Googlebot-Mobile", url) == Allowance(codec, mobile, EffectiveUrl(url))
  {
    var r := Robots(Doc([mobile, plain], None), false, false, 200);
    PrefixDirection(plain, mobile);
    DecidedBy(codec, r, "Googlebot", url, 1);
    DecidedBy(codec, r, "Googlebot-Mobile", url, 0);
  }

  /** The entry at `i` decides when it is the first that applies. */
  lemma DecidedBy(codec: Codec, r: Robots, userAgent: string, url: string, i: nat)
    requires !r.disallowAll && !r.allowAll
    requires FirstApplies(r.doc, userAgent, i)
    ensures CanFetchSync(codec, r, userAgent, url) == Allowance(codec, r.doc.entries[i], EffectiveUrl(url))
  {
  }
}
