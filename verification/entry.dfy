/** A robots.txt record: the user agents it names, its rules in file order and
    its optional crawl delay (lib/entry.js). */
module Entries {
  import opened JsString
  import opened Uri
  import opened Optional
  import opened Search
  import opened Rules

  /** `crawlDelay` keeps the raw text of the Crawl-delay value. */
  datatype Entry = Entry(userAgents: seq<string>, rules: seq<Rule>, crawlDelay: Option<string>)

  /** A freshly constructed entry. */
  const EmptyEntry := Entry([], [], None)

  /** The product token of a caller's User-Agent: the text before the first
      `/`, lower-cased. It is the lower-cased longest `/`-free prefix. */
  function AgentToken(userAgent: string): (token: string)
    ensures |token| <= |userAgent| && token == Lower(userAgent[..|token|])
    ensures '/' !in userAgent[..|token|]
    ensures |token| == |userAgent| || userAgent[|token|] == '/'
  {
    var pieces := Split(userAgent, '/');
    if |pieces| == 1 then
      assert userAgent[..|pieces[0]|] == userAgent;
      Lower(pieces[0])
    else
      assert userAgent == pieces[0] + ['/'] + Join(pieces[1..], '/');
      assert userAgent[..|pieces[0]|] == pieces[0];
      Lower(pieces[0])
  }

  /** One stored agent against the caller's token: the catch-all `*`, or a
      lower-cased prefix of the token. */
  predicate AgentMatches(stored: string, token: string) {
    var agent := Lower(stored);
    agent == "*" || StartsWith(token, agent)
  }

  /** `Entry.appliesTo(userAgent)`: some stored agent matches the caller's
      token. */
  predicate AppliesTo(e: Entry, userAgent: string) {
    First(e.userAgents, (a: string) => AgentMatches(a, AgentToken(userAgent))).Some?
  }

  /** `Entry.allowance(url)`: the allowance of the first rule that applies to
      the url; with no applicable rule (in particular, with no rules) the url
      is allowed. A denial is always backed by an applicable Disallow rule. */
  function Allowance(codec: Codec, e: Entry, url: string): (allowed: bool)
    ensures (forall j :: 0 <= j < |e.rules| ==> !RuleAppliesTo(codec, e.rules[j], url)) ==> allowed
    ensures forall i :: (0 <= i < |e.rules| && RuleAppliesTo(codec, e.rules[i], url) &&
                         (forall j :: 0 <= j < i ==> !RuleAppliesTo(codec, e.rules[j], url)))
                        ==> allowed == e.rules[i].allowance
    ensures !allowed ==> exists i :: 0 <= i < |e.rules| && RuleAppliesTo(codec, e.rules[i], url) &&
                                     !e.rules[i].allowance
  {
    var applies := (r: Rule) => RuleAppliesTo(codec, r, url);
    match First(e.rules, applies)
    case None => true
    case Some(i) =>
      assert forall k :: (0 <= k < |e.rules| && applies(e.rules[k]) &&
                          (forall j :: 0 <= j < k ==> !applies(e.rules[j]))) ==> k == i;
      e.rules[i].allowance
  }

  // ---------------------------------------------------------------------
  // agent matching

  /** An entry applies exactly when one of its agents, lower-cased, is `*` or
      a prefix of the caller's token; so it depends on the caller's agent only
      through that token. */
  lemma AppliesToIff(e: Entry, userAgent: string)
    ensures AppliesTo(e, userAgent) <==>
            exists i :: 0 <= i < |e.userAgents| &&
                        (Lower(e.userAgents[i]) == "*" || Lower(e.userAgents[i]) <= AgentToken(userAgent))
  {
    var token := AgentToken(userAgent);
    forall i | 0 <= i < |e.userAgents|
      ensures AgentMatches(e.userAgents[i], token) <==>
              (Lower(e.userAgents[i]) == "*" || Lower(e.userAgents[i]) <= token)
    {
      IndexOfZeroIffPrefix(token, Lower(e.userAgents[i]));
    }
    var r := First(e.userAgents, (a: string) => AgentMatches(a, token));
    if r.Some? {
      assert AgentMatches(e.userAgents[r.value], token);
    }
  }

  /** An entry that lists `*` applies to every user agent. */
  lemma StarAppliesToAll(e: Entry, userAgent: string)
    requires "*" in e.userAgents
    ensures AppliesTo(e, userAgent)
  {
    var i :| 0 <= i < |e.userAgents| && e.userAgents[i] == "*";
    assert Lower("*") == "*";
    AppliesToIff(e, userAgent);
  }

  /** An entry with no agents applies to nobody; an empty stored agent is a
      prefix of every token and so applies to everybody. */
  lemma AgentEdgeCases(e: Entry, userAgent: string)
    ensures e.userAgents == [] ==> !AppliesTo(e, userAgent)
    ensures "" in e.userAgents ==> AppliesTo(e, userAgent)
  {
    AppliesToIff(e, userAgent);
    if "" in e.userAgents {
      var i :| 0 <= i < |e.userAgents| && e.userAgents[i] == "";
      assert Lower(e.userAgents[i]) <= AgentToken(userAgent);
    }
  }

  /** A caller's agent without `/` is its own product token, lower-cased. */
  lemma AgentTokenWithoutSlash(userAgent: string)
    requires '/' !in userAgent
    ensures AgentToken(userAgent) == Lower(userAgent)
  {
    SplitNoSeparator(userAgent, '/');
  }

  /** The stored agent must be a prefix of the caller's token, not the other
      way round: a `Googlebot` record applies to `Googlebot-Mobile`, a
      `Googlebot-Mobile` record does not apply to `Googlebot`. */
  lemma PrefixDirection(plain: Entry, mobile: Entry)
    requires plain.userAgents == ["Googlebot"] && mobile.userAgents == ["Googlebot-Mobile"]
    ensures AppliesTo(plain, "Googlebot-Mobile") && AppliesTo(plain, "Googlebot")
    ensures !AppliesTo(mobile, "Googlebot") && AppliesTo(mobile, "Googlebot-Mobile")
  {
    GooglebotTokens();
    var short, long := "googlebot", "googlebot-mobile";
    assert short <= long && !(long <= short);
    SingleAgent(plain, "Googlebot-Mobile");
    SingleAgent(plain, "Googlebot");
    SingleAgent(mobile, "Googlebot");
    SingleAgent(mobile, "Googlebot-Mobile");
  }

  /** An entry with one agent applies exactly when that agent, lower-cased,
      is `*` or a prefix of the caller's token. */
  lemma SingleAgent(e: Entry, userAgent: string)
    requires |e.userAgents| == 1
    ensures AppliesTo(e, userAgent) <==>
            Lower(e.userAgents[0]) == "*" || Lower(e.userAgents[0]) <= AgentToken(userAgent)
  {
    AppliesToIff(e, userAgent);
  }

  lemma GooglebotTokens()
    ensures Lower("Googlebot") == AgentToken("Googlebot") == "googlebot"
    ensures Lower("Googlebot-Mobile") == AgentToken("Googlebot-Mobile") == "googlebot-mobile"
  {
    LowerGooglebot();
    AgentTokenWithoutSlash("Googlebot");
    AgentTokenWithoutSlash("Googlebot-Mobile");
  }

  lemma LowerGooglebot()
    ensures Lower("Googlebot") == "googlebot"
    ensures Lower("Googlebot-Mobile") == "googlebot-mobile"
  {
  }
}
