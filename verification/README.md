# robots.js decision logic in Dafny

A Dafny model of the robots.txt decision logic of robots.js (`lib/`). It
covers three parts:

- the `Rule` wildcard matcher;
- the `Entry` record, with its user-agent matching and first-match rule
  evaluation;
- the `RobotsParser` line machine, with its commit rule, the answers
  `canFetchSync`, `canFetch` and `getCrawlDelay`, and the way the response
  status of robots.txt maps to the `disallowAll` / `allowAll` flags.

The library follows the older CPython-robotparser reading of the Robots
Exclusion Protocol (RFC 9309):

- the first rule that matches decides, rather than the longest match of
  section 2.2.2;
- there is no `$` anchor (section 2.2.3);
- it does not collect sitemaps.

The model adds none of these.

Modules, one concept each:

| module | file | models |
|---|---|---|
| `JsString` | js_string.dfy | the ECMAScript string built-ins the code uses |
| `Optional`, `Uri` | uri.dfy | `Option`, and the URI codec (`quote`, `unquote`, `is_path_safe`) as a parameter |
| `Search` | search.dfy | "index of the first element that qualifies", the loop shape of every lookup in the code |
| `Rules` | rule.dfy | lib/rule.js |
| `Entries` | entry.dfy | lib/entry.js |
| `Parser` | parser.dfy | `_addEntry` and `parse` in lib/parser.js |
| `Resolver` | resolver.dfy | status flags, `canFetchSync`, `canFetch`, `getCrawlDelay` in lib/parser.js |
| `ParserCases` | parser_cases.dfy | whole documents from the repository's test table, parsed line by line and queried |

Where each source function lives in the model:

| source | Dafny |
|---|---|
| `String.prototype.indexOf` | `JsString.IndexOf` (over `JsString.IndexFrom`) |
| `String.prototype.substr` | `JsString.Substr` |
| `String.prototype.split` on one character | `JsString.Split` |
| `String.prototype.trim` | `JsString.Trim` |
| `String.prototype.toLowerCase` | `JsString.Lower` |
| `Rule` constructor (lib/rule.js:21-30) | `Rules.MakeRule` |
| `Rule.appliesTo` (lib/rule.js:38-42) | `Rules.RuleAppliesTo` |
| `does_rule_fit_path` (lib/rule.js:52-66) | `Rules.RuleFitsPath`, with its loop as `Rules.PiecesFit` |
| the index step at lib/rule.js:63 | `Rules.NextIndex` |
| `startsWith` (lib/rule.js:72-74) | `Rules.StartsWith` |
| `contains` (lib/rule.js:80-82) | `JsString.Contains` |
| `Entry` (lib/entry.js:16-19) | `Entries.Entry` |
| `Entry.appliesTo` (lib/entry.js:27-44) | `Entries.AppliesTo`, with `Entries.AgentToken` and `Entries.AgentMatches` |
| `Entry.allowance` (lib/entry.js:54-65) | `Entries.Allowance` |
| the status handling in `read` (lib/parser.js:88-107) | `Resolver.ClassifyStatus` and `Resolver.OnStatus` |
| `_addEntry` (lib/parser.js:134-146) | `Parser.AddEntry` |
| `parse` (lib/parser.js:156-231) | `Parser.Parse`, folding `Parser.Step` over the lines with `Parser.Run` |
| the blank-line branch (lib/parser.js:174-184) | `Parser.Blank` |
| comment, trim and split (lib/parser.js:186-201) | `Parser.Content` and `Parser.Classify` |
| the field switch (lib/parser.js:203-226) | `Parser.ClassifyField` and `Parser.Apply` |
| the final commit (lib/parser.js:228-230) | `Parser.Finish` |
| `canFetchSync` (lib/parser.js:242-271) | `Resolver.CanFetchSync` |
| `canFetch` (lib/parser.js:281-325) | `Resolver.CanFetchVerdict` |
| `getCrawlDelay` (lib/parser.js:338-347) | `Resolver.CrawlDelay` |

Everything is pure:

- a `Rule`, an `Entry`, a parsed `Doc` and the parser object `Robots` are
  immutable datatypes;
- `parse` is a fold of one step function over the lines;
- the matcher is a recursive function that carries the running index
  explicitly.

`quote`, `unquote` and `is_path_safe` are the JavaScript built-ins
`encodeURIComponent` and `decodeURIComponent` plus a try/catch around them.
They are uninterpreted here: every operation takes a `Codec` value whose
three fields are arbitrary functions. Each property below holds for every
codec that meets the member's own `requires`. Two kinds of codec assumption
appear there, and only in the `ParserCases` lemmas:

- a rule's path is accepted by `is_path_safe` (`codec.pathSafe(p)`), which
  `ParserCases.TwoRecordsTransitions`, `ParseTwoRecords`,
  `BackToBackTransitions`, `ParseFourLines`, `ParseBackToBack`,
  `ObeyFirstStarRecord`, `ParseOrderLines` and `GetTheOrderCorrect` require;
- the normalised rule path has no `*` and is a prefix of the normalised url,
  which `ParserCases.GetTheOrderCorrect`, `OrderDecides` and
  `SingleRuleDecides` require.

### The wildcard matcher as written

`does_rule_fit_path` (lib/rule.js:52-66) advances its index by
`piece.length + url.indexOf(piece)`. That is the position of the piece's
FIRST occurrence in the whole url, not the position the scan just found it
at. The model keeps this arithmetic exactly (`Rules.NextIndex`).

The model also defines an in-order reference scan, `Rules.InOrderMatch`.
The two are related as follows:

- For patterns with at most one `*`, the two matchers agree
  (`Rules.AgreesWithInOrderScan`).
- With more pieces they part ways in both directions:
  - `Rules.ThreePiecesRejectedInOrderMatch`: `/a/*/b/*/c/*` does not match
    `/a/1/b/2/c/3`, although the in-order scan matches it. The repository's
    test table (tests/parser.test.js:312-315) expects a match for this
    pattern and for `/a/*/b/*/c/` against `/a/1/b/2/c/yeah`; the code as
    written rejects both.
  - `Rules.OutOfOrderAccepted`: `/*/*.json` matches `/a.json/`, although no
    `.json` follows the second `/`.

The rest of the model uses the matcher exactly as written.

### Behaviour worth noting

- The code has no `$` end anchor and collects no sitemaps. A 301 or 302 is
  followed again with no hop limit.
- `getCrawlDelay` returns the raw text of the `Crawl-delay` value, which the
  code never converts to a number. So `Crawl-delay:` with an empty value is a
  present delay of `""`.
- `parse` starts from the entries and default entry the parser object
  already holds (`Parser.Parse` takes that `Doc`). It does not reset them.
- A line counts as blank only if it is exactly `""` before any comment is
  stripped. A line holding only spaces or only a comment does not end a
  record.

## Model

| member | source | states |
|---|---|---|
| JsString.IndexFrom | lib/rule.js:72-82 | `indexOf` returns the first position of an occurrence at or after the start, or -1 exactly when there is none |
| JsString.IndexOfZeroIffPrefix | lib/rule.js:72-74 | `startsWith` (first occurrence at 0) holds exactly when the needle is a prefix |
| JsString.ContainsSubstrIff | lib/rule.js:60 | the needle is in `url.substr(index)` exactly when it occurs in the url at or after `index`, or the index is past the end and the needle is empty |
| JsString.Split | lib/rule.js:53 | `split` on one character gives at least one piece, no piece holds the separator, and joining the pieces with it restores the input |
| JsString.SplitJoin | lib/rule.js:53 | `split` is the inverse of joining separator-free pieces |
| JsString.SplitAfterFirst | lib/parser.js:195 | splitting `a:b` with no `:` in `a` gives `a` followed by the pieces of `b` |
| JsString.Trim | lib/parser.js:193 | `trim` returns a middle slice of its input, removes only white space, and leaves no white space at either end |
| Rules.MakeRule | lib/rule.js:21-30 | the stored path is `quote(unquote(path))`; the rule allows exactly when asked to or when the raw path is empty |
| Rules.PiecesFit | lib/rule.js:58-64 | whatever the starting index, a successful scan has found every piece somewhere in the url |
| Rules.RuleFitsPath | lib/rule.js:52-66 | a match implies that the url starts with the text before the first `*` and contains every `*`-separated piece |
| Rules.RuleAppliesTo | lib/rule.js:38-42 | a rule applies only when its first piece starts the normalised url and every piece occurs in it |
| Rules.NoWildcardIsPrefix | lib/rule.js:52-66 | a pattern without `*` matches exactly the urls it is a prefix of, compared case-sensitively |
| Rules.OneWildcard | lib/rule.js:53-65 | `a*b` matches exactly the urls that start with `a` and contain `b` at or after position \|a\| |
| Rules.PiecesFitEmptyTail | lib/rule.js:58-64 | an extra empty last piece never changes the scan's outcome |
| Rules.TrailingWildcard | lib/rule.js:58-62 | appending `*` to a pattern never changes what it matches |
| Rules.MatchEverything | lib/rule.js:53-65 | the empty pattern and `*` match every url |
| Rules.AgreesWithInOrderScan | lib/rule.js:52-66 | with at most one `*`, the matcher agrees with the in-order reference scan on every url |
| Rules.ThreePiecesRejectedInOrderMatch | lib/rule.js:63 | `/a/*/b/*/c/*` does not match `/a/1/b/2/c/3`, although the in-order scan matches it |
| Rules.OutOfOrderAccepted | lib/rule.js:63 | `/*/*.json` matches `/a.json/`, although the in-order scan rejects it |
| Entries.AgentToken | lib/entry.js:29 | the caller's token is the lower-cased longest `/`-free prefix of its User-Agent |
| Entries.AgentTokenWithoutSlash | lib/entry.js:29 | an agent without `/` is its own token, lower-cased |
| Entries.Allowance | lib/entry.js:54-65 | with no applicable rule (in particular with no rules) the url is allowed; the first applicable rule decides whatever follows it; a denial is backed by an applicable Disallow rule |
| Entries.AppliesToIff | lib/entry.js:27-44 | an entry applies exactly when some stored agent, lower-cased, is `*` or a prefix of the caller's token |
| Entries.StarAppliesToAll | lib/entry.js:34 | an entry listing `*` applies to every user agent |
| Entries.AgentEdgeCases | lib/entry.js:32-43 | an entry with no agents applies to nobody; an empty stored agent applies to everybody |
| Entries.SingleAgent | lib/entry.js:32-43 | a one-agent entry applies exactly when that agent, lower-cased, is `*` or a prefix of the token |
| Entries.PrefixDirection | lib/entry.js:35 | a `Googlebot` entry applies to `Googlebot-Mobile`, but a `Googlebot-Mobile` entry does not apply to `Googlebot` |
| Parser.AddEntry | lib/parser.js:134-146 | a record without `*` is appended; the first `*` record becomes the default; later `*` records are dropped; a default entry never changes |
| Parser.Finish | lib/parser.js:228-230 | at end of input only a record in SAW_ALLOW_OR_DISALLOW is committed |
| Parser.AddEntryKeepsInv | lib/parser.js:134-146 | committing a record with an agent keeps every entry agent-bearing, keeps `*` out of the entries and in the default entry |
| Parser.RunKeepsInv | lib/parser.js:171-227 | the loop invariant: in START the pending record is fresh, otherwise it has an agent, and the document stays well formed |
| Parser.ParseKeepsInv | lib/parser.js:156-231 | after parsing, every committed entry has an agent, `entries` never lists `*`, and the default entry does |
| Parser.RunExtends | lib/parser.js:171-227 | across the loop, entries are only appended and a set default entry is never replaced |
| Parser.ParseExtends | lib/parser.js:156-231 | parsing never removes or reorders entries, and the first `*` record stays the default entry |
| Parser.MalformedLineIsNoOp | lib/parser.js:186-198 | a non-empty line that does not split on `:` into exactly two parts changes nothing: not the state, the pending record or the document |
| Parser.ColonInValueDropped | lib/parser.js:195-198 | a line whose value contains `:` is dropped |
| Parser.EmptyLine | lib/parser.js:174-184 | an empty line discards an agent-only record, commits a record with rules, and leaves START alone |
| Parser.ClassifyEmpty | lib/parser.js:186-198 | the empty line carries no directive |
| Parser.ClassifyWellFormed | lib/parser.js:186-211 | a line `field: value` with no `#`, no `:` in either part and no surrounding white space carries the directive its lower-cased field names, with the value as written |
| Parser.CommentIgnored | lib/parser.js:186-193 | a `#` comment changes neither the directive of a line nor the step it makes, unless cutting it leaves an empty line; a comment-only line changes nothing |
| Parser.IgnoredDirectives | lib/parser.js:213-225 | Allow, Disallow and Crawl-delay in START, and Allow or Disallow with an unsafe path, change nothing |
| Resolver.ClassifyStatus | lib/parser.js:90-107 | 401 and 403 deny all; any other status of 400 or more permits all; 301 and 302 redirect; every other status is parsed |
| Resolver.OnStatus | lib/parser.js:88-107 | the status is recorded and the document is untouched; 401 and 403 raise `disallowAll`, any other status of 400 or more raises `allowAll`, every other status raises no flag, and no flag is ever cleared |
| Resolver.EffectiveUrl | lib/parser.js:243 | the empty url becomes `/`, and any other url is kept |
| Resolver.CanFetchSync | lib/parser.js:242-271 | `disallowAll` denies and then `allowAll` permits; otherwise the first applicable entry decides, even with no matching rule; the default entry is used only when no entry applies; with neither, access is allowed |
| Resolver.CanFetchVerdict | lib/parser.js:281-325 | the callback's url is the effective url; the reason is the status code exactly when a flag is set, and then the answer is "not denied by status"; an entry reason names the first applicable entry and a default reason the default entry when no entry applies, and in both the answer is that entry's allowance; "no rule" means allowed, with no applicable entry and no default |
| Resolver.VerdictAgreesWithSync | lib/parser.js:281-325 | the asynchronous answer equals `canFetchSync` on every input |
| Resolver.CrawlDelay | lib/parser.js:338-347 | the delay of the first applicable entry that has one, skipping applicable entries without one; failing that, the default entry's delay, absent with no default |
| Resolver.StatusDecides | lib/parser.js:88-99 | after a 401 or 403 every agent is denied every url; after another status of 400 or more, with no earlier denial, every agent is allowed every url |
| Resolver.EmptyUrlIsRoot | lib/parser.js:243 | asking about the empty url is asking about `/` |
| Resolver.EmptyDocPermits | lib/parser.js:265-270 | the freshly constructed parser allows every agent every url |
| Resolver.DenialHasReason | lib/parser.js:255-267 | without `disallowAll`, a denial is backed by an applicable Disallow rule of the entry that decides: the first applicable entry, or the default entry when none applies |
| Resolver.DecidedBy | lib/parser.js:257-261 | the first entry in file order that applies decides the answer |
| Resolver.EntryOrderIsFileOrder | lib/parser.js:255-262 | with a `Googlebot-Mobile` record before a `Googlebot` record, each agent is decided by its own record |
| ParserCases.UserAgentLineIs | lib/parser.js:200-211 | `User-agent: a` names the agent `a` |
| ParserCases.DisallowLineIs | lib/parser.js:200-219 | `Disallow: p` is a Disallow rule for `p` |
| ParserCases.AllowLineIs | lib/parser.js:200-219 | `Allow: p` is an Allow rule for `p` |
| ParserCases.ParseTwoRecords | lib/parser.js:171-230 | a record, a blank line and a second record: the blank line commits the first record and the end of input the second, both through `_addEntry`, in file order |
| ParserCases.CrawlDelayLineIs | lib/parser.js:200-223 | `Crawl-delay: v` is a crawl delay of `v` |
| ParserCases.ParseBackToBack | lib/parser.js:204-208 | a `User-agent` line right after a rule, with no blank line (which the parser explicitly allows), commits the pending record through `_addEntry` and starts a new one: the result is the same as with a blank line between the records |
| ParserCases.DelayOnlyRecord | lib/parser.js:221-229 | `Crawl-delay` after an agent moves to SAW_ALLOW_OR_DISALLOW, so a record with only a delay is committed at end of input, and its agent then gets that delay |
| ParserCases.ObeyFirstStarRecord | tests/parser.test.js:257-268 | of two `*` records separated by a blank line, whatever their paths, the first becomes the default entry and the second is dropped; no agent-specific entry results |
| ParserCases.ParseOrderLines | tests/parser.test.js:208-220 | two agent-specific records separated by a blank line, whatever their agents and paths, are both kept, in file order, and no default entry is set |
| ParserCases.SingleRuleDecides | lib/entry.js:54-65 | an entry whose one rule is a `*`-free prefix of the url answers with that rule's allowance |
| ParserCases.GetTheOrderCorrect | tests/parser.test.js:208-233 | after a 200 response with a `Googlebot-Mobile` Allow record before a `Googlebot` Disallow record, `Googlebot` is denied and `Googlebot-Mobile` allowed |

## Left out

- Fetching robots.txt is left out: the `RobotsParser` constructor, `setUrl` and `read` (lib/parser.js:24-126). They do HTTP/HTTPS I/O with event callbacks and join the response chunks. Only the mapping from status to flags is modelled (`Resolver.ClassifyStatus`, `Resolver.OnStatus`).
- A 301 or 302 response calls `setUrl` on the resolved `Location` and fetches again, with no hop limit. The model records only the decision to follow the redirect.
- Splitting the response body on `\r\n`, `\r` or `\n` before `parse` is I/O glue. `Parser.Parse` takes the lines.
- The asynchronous `canFetch` defers its callback with `process.nextTick`. It is modelled as the pure `Resolver.CanFetchVerdict`, which returns the answer, the url and the reason together.
- lib/utils.js is kept abstract:
  - `quote`, `unquote` and `is_path_safe` are the parameters of `Uri.Codec`;
  - `d` is debug logging;
  - `extend` is only used by test mocks.
- Resolver.CanFetchSync: does not model the exception `decodeURIComponent` throws on a malformed url at match time, because the codec is a total function here.
- Entries.AgentToken: `toLowerCase` folds ASCII letters only (`JsString.LowerChar`), not the full Unicode case mapping. The agents and paths robots.txt deals with are ASCII.
- Strings are sequences of Unicode scalar values, not UTF-16 code units. `indexOf` and lengths agree with JavaScript for text in the Basic Multilingual Plane.
- `toString` and `toStringLite` of the parser, `Entry.toString` and `Rule.toString` produce diagnostic text only.
- index.js only re-exports the parser and the package version.
