# CricHeroes score extractor, modelled in Dafny

The server is a small proxy. It takes a CricHeroes `_next/data/.../index.json`
URL, checks that the URL points at the CricHeroes Next.js data endpoint,
fetches the document and pulls a live-score summary out of it. It extracts
seven fields: two team names, a score line, the overs, the striker, the
non-striker and the bowler. It does this without knowing the document's
exact layout. It unwraps the usual Next.js envelopes (`pageProps.data`,
`pageProps`, `props.pageProps`). Then it looks each field up with `deepFind`.
That is a depth-first search for the first key whose lowercased text
contains one of the field's candidate fragments. Each value found is then
coerced into the response slot: a string, a `name`/`teamName` property, a
`toString()` rendering, or `null`.

The model has seven modules:

- `JsonValue` (`json.dfy`): parsed JSON, with JavaScript truthiness,
  `typeof`, `Object.keys` enumeration (array indices as decimal keys), optional
  property access and string conversion.
- `JsStrings` (`strings.dfy`): `toLowerCase` on ASCII, `includes`, and
  prefixes.
- `Walker` (`walker.dfy`): `deepFind`, described three ways. The first is
  a recursive function (`Find`) together with the list of keys it tests
  (`Tested`). The second is an independent reference: the first hit in the
  pre-order list of all entries (`Preorder`, `FirstMatch`, `Scan`). The
  third is imperative: a class `Finder` holding the closure's mutable
  `ans`, with a method `Walk` whose loop has the two `break`s of the
  source. The lemmas prove all three agree.
- `Resolver` (`resolver.dfy`) covers three things:
  - the root unwrapping;
  - every field's lookup, with its candidate list and `||` fallback;
  - the composed `r/w (o ov)` score line, with a parser proving that line
    unambiguous when the runs text has no `/` and the wickets text has no
    space. Every number's rendering meets that condition. A string value
    need not: `"1/2"` and `"3"` give the same line `1/2/3` as `"1"` and
    `"2/3"`.
- `Normalizer` (`normalizer.dfy`): the response slots and the whole
  extraction `Extract` from a parsed document to a response record.
- `HostCheck` (`host.dfy`): the choice of target URL, the two 400
  responses, and the host regular expression. The expression is modelled
  as a small backtracking matcher and proved equal to a test for two
  prefixes.
- `Examples` (`examples.dfy`): worked documents. Each is stated for every
  key that hits and misses the candidate lists the way the example's key
  does. Separate lemmas then show that the example's own keys (`runs`,
  `wickets`, `overs`, `TeamA`, `bowler`) behave that way.

Several behaviours of the source are easy to misread. The model follows
the code:

- A fallback lookup (`team, name` for team A, `batsman` for the striker,
  the composed score) fires whenever the first lookup's value is falsy:
  absent, `null`, `false`, `0` or `""`. It is not limited to "not found".
- A match whose value is `null` still ends the search. The walk does not
  go on to a later, better match (`Examples.MatchedNullStops`).
- Arrays are walked. `typeof [] === "object"`, and their index keys never
  match (`Resolver.IndexKeysNeverHit`).
- Among several matching keys, the earliest in pre-order wins. This is not
  necessarily the shallowest: a match deep inside an earlier sibling beats
  a later sibling's own key (`Examples.EarlierDeepBeatsLaterShallow`).
- A team slot holding an object takes the first *truthy* of `name` and
  `teamName`, not the first present one. Player slots never consult
  `teamName`.
- A truthy non-string `name` (a non-zero number, an object) is passed on
  into the slot unchanged. A falsy one falls through to `teamName` or to
  `null`.
- The response has seven fields besides `ok`.
- The key `overs` contains `r`, so it also satisfies the runs lookup
  (`Examples.OversHits`, `Examples.OversFirstExtracted`). The same holds
  for `nonStriker` and the striker lookup (`Resolver.NonStrikerFirstIsFound`).

## Model

| member | source | states |
|---|---|---|
| JsonValue.IndexKeyDigits | Server/index.js:21 | the keys `Object.keys` gives for array positions are non-empty strings of decimal digits |
| JsonValue.Lookup | Server/index.js:60-62 | `v.name` on an object is defined exactly when some entry has that key, and is then that entry's value |
| JsStrings.LowerMeaning | Server/index.js:23 | lowercasing keeps the length and maps every character by the ASCII upper-to-lower rule |
| JsStrings.LowerConcat | Server/index.js:23 | lowercasing a concatenation lowercases each part |
| JsStrings.ContainsMeaning | Server/index.js:24 | `includes` holds exactly when the fragment occurs at some position of the key |
| JsStrings.ContainsSelf | Server/index.js:24 | every key includes itself, so the `===` test adds nothing to `includes` |
| JsStrings.ContainsTransitive | Server/index.js:24 | a key including a fragment includes every fragment of that fragment |
| Walker.KeyMatchesMeaning | Server/index.js:24 | `keys.some(low === key \|\| low.includes(key))` holds exactly when some candidate occurs in the lowercased key |
| Walker.Find | Server/index.js:16-34 | the key of whatever the search returns is a hit |
| Walker.FindFrom | Server/index.js:21-30 | the loop from the i-th key on only ever stops at a hit |
| Walker.WalkOrder | Server/index.js:18-31 | the walk returns the first hit in the pre-order list of all entries, and tests exactly the keys of that list up to and including the hit; nothing after the hit is tested and no later subtree is entered |
| Walker.FindSound | Server/index.js:16-34 | a found pair is an entry of the tree whose key is a hit, and every entry before it in walk order misses |
| Walker.FindAbsent | Server/index.js:16-34 | `deepFind` returns `undefined` exactly when no reachable key is a hit |
| Walker.FindFirst | Server/index.js:19-29 | a hit with only misses before it is the result whatever its value, so a matched `null`, `0` or `""` ends the search |
| Walker.Step | Server/index.js:21-30 | one loop iteration: a hit stops the loop; otherwise a hit in the value's subtree stops it; otherwise the loop moves to the next key, with the tested keys growing accordingly |
| Walker.HitAt | Server/index.js:24-27 | a hit at the i-th key ends the loop with that key and its value |
| Walker.SkipLeaf | Server/index.js:20-29 | a missed key whose value is not an object is passed over |
| Walker.FindSameMatches | Server/index.js:24 | two candidate lists accepting the same lowercased keys give the same result on every document |
| Walker.Subsumed | Server/index.js:24 | a candidate that contains another candidate of the list can be dropped without changing which keys the list accepts |
| Walker.IndexKeyMisses | Server/index.js:21-24 | an array's index key is no hit for a list whose candidates all start with a non-digit |
| Walker.Finder.constructor | Server/index.js:17 | the search starts with `ans` unset and no key tested |
| Walker.Finder.Walk | Server/index.js:18-31 | with `ans` already set nothing changes; otherwise `ans` becomes the recursive search's result and the tested keys grow by exactly the keys that search tests |
| Walker.DeepFind | Server/index.js:16-34 | returns the value of the first hit in walk order, `undefined` exactly when no reachable key is a hit, and tests precisely the keys up to and including the hit |
| Resolver.FirstTruthy | Server/index.js:59-63 | a chain of `\|\|` gives the first truthy candidate, or the last operand when none is truthy |
| Resolver.Root | Server/index.js:59-63 | the root is `pageProps.data`, else `pageProps`, else `props.pageProps`, whichever is first truthy, else the document itself |
| Resolver.RootOfPlainDocument | Server/index.js:59-63 | a document with neither a `pageProps` nor a `props` key is its own root |
| Resolver.ResolveByWalkOrder | Server/index.js:66-91 | every field is the first hit of its list in walk order; teamA, scoreText and striker take their fallback exactly when the primary value is falsy |
| Resolver.ComposeScoreRule | Server/index.js:73-80 | the composed score is a string exactly when runs and wickets are both non-null, and `null` otherwise; when the runs text has no `/` and the wickets text has no space, its text reads back as its rendered parts, with an overs part exactly when overs is non-null |
| Resolver.ScoreLineRoundTrip | Server/index.js:77-78 | the line `r/w (o ov)` or `r/w` parses back into exactly r, w and the optional o when r has no `/` and w no space |
| Resolver.TeamAListCollapses | Server/index.js:67 | the team-A list finds the same as it does without `teama_name`, which contains `teama` |
| Resolver.TeamBListCollapses | Server/index.js:70 | the team-B list finds the same as it does without `teamb_name` |
| Resolver.ScoreListCollapses | Server/index.js:72 | the score list finds the same as the single fragment `score` |
| Resolver.RunsListCollapses | Server/index.js:74 | the runs list finds the same as the single fragment `r`: any key with an `r` in it |
| Resolver.WicketsListCollapses | Server/index.js:75 | the wickets list finds the same as the single fragment `w` |
| Resolver.OversListCollapses | Server/index.js:76 | the overs list finds the same as the single fragment `ov` |
| Resolver.BowlerListCollapses | Server/index.js:88 | the bowler list finds the same as the single fragment `bowler` |
| Resolver.NonStrikerKeyHitsStriker | Server/index.js:83 | a `nonStriker` key is a hit for the striker list, since `nonstriker` contains `striker` |
| Resolver.NonStrikerKeyHitsNonStriker | Server/index.js:86 | a `nonStriker` key is a hit for the non-striker list |
| Resolver.NonStrikerFirstIsFound | Server/index.js:82-84 | in `{nonStriker: a, striker: b}` the striker lookup returns a |
| Resolver.NonStrikerFirstFillsStriker | Server/index.js:82-86 | a non-empty non-striker name listed first becomes the striker field |
| Resolver.IndexKeysNeverHit | Server/index.js:21 | no candidate list of the resolver matches an array index key, so arrays are only ever searched through |
| Normalizer.OrNull | Server/index.js:96-102 | `x \|\| null` keeps exactly the truthy values |
| Normalizer.TeamSlot | Server/index.js:96-97 | a string passes unchanged; otherwise the slot is `name` or `teamName`, is never a falsy non-string, and is `null` otherwise |
| Normalizer.PlayerSlot | Server/index.js:100-102 | a string passes unchanged; otherwise the slot is `name`, is never a falsy non-string, and is `null` otherwise |
| Normalizer.ScoreSlot | Server/index.js:98 | the score text is set exactly when the value is a string, and is then that string |
| Normalizer.OversSlot | Server/index.js:99 | a string passes unchanged, `null` and `undefined` give `null`, and any other value gives its rendering exactly when that rendering is non-empty, and `null` otherwise |
| Normalizer.TeamSlotOfObject | Server/index.js:96-97 | an object gives its `name` when truthy, else its `teamName` when truthy, else `null` |
| Normalizer.PlayerSlotOfObject | Server/index.js:100-102 | an object gives its `name` when truthy, else `null` |
| Normalizer.NonObjectsAreNull | Server/index.js:96-102 | numbers, booleans, arrays, `null` and `undefined` give `null` in every slot but overs |
| Normalizer.StringOrNull | Server/index.js:96-102 | when `name` and `teamName` are strings or missing, the team and player slots are strings or `null` |
| Normalizer.NonStringNamePassesThrough | Server/index.js:96-102 | a truthy non-string `name` is passed into the slot as it is |
| Normalizer.TeamNameOnlyForTeams | Server/index.js:96-102 | `{teamName: x}` fills a team slot but leaves a player slot `null` |
| Normalizer.PlayerExamples | Server/index.js:100-102 | `{name: "Kumar", id: 7}` gives "Kumar", and `{id: 7}` gives `null` |
| Normalizer.OversOfNumber | Server/index.js:99 | a number in the overs slot gives its rendering, `0` included |
| Normalizer.OversOfEmptyText | Server/index.js:99 | a value whose `toString()` is empty gives `null` |
| Normalizer.StringsPassThrough | Server/index.js:94-102 | a string found for any field reaches the response unchanged, the empty string included |
| Normalizer.SlotsAreNullStringOrTruthy | Server/index.js:94-102 | no team or player slot holds `null`, `0`, `false` or another falsy non-string |
| Normalizer.ScoreTextRule | Server/index.js:71-80 | a truthy string score match is kept; a truthy non-string match gives `null`; a falsy match gives the composed line when runs and wickets are non-null, and `null` otherwise |
| Normalizer.ComposedOversAgree | Server/index.js:76-99 | a composed score line's overs part is the text of the overs field |
| Normalizer.UnmatchedFieldsAreNull | Server/index.js:66-102 | a field none of whose candidates hits any reachable key comes out `null` |
| Normalizer.UnmatchedScoreIsNull | Server/index.js:71-98 | with no score key, and no runs key or no wickets key reachable, the score text is `null` |
| HostCheck.HostAllowedIsPrefixTest | Server/index.js:42 | the expression accepts exactly the URLs starting with `https://cricheroes.com/_next/data/` or `https://www.cricheroes.com/_next/data/` |
| HostCheck.HostAllowedUnfolded | Server/index.js:42 | the backtracking match: the scheme, then either `www.` followed by the path or the path directly |
| HostCheck.PlainHttpRejected | Server/index.js:42-43 | an `http://` URL is refused |
| HostCheck.UpperCaseRejected | Server/index.js:42-43 | the match is case-sensitive: `HTTPS://` is refused |
| HostCheck.LookalikeHostRejected | Server/index.js:42-43 | a host that only starts with `cricheroes.com` is refused |
| HostCheck.EmbeddedPrefixRejected | Server/index.js:42-43 | the allowed prefix later in the URL does not count, since the expression is anchored |
| HostCheck.HostAllowsAnySuffix | Server/index.js:42 | any path after either prefix is accepted |
| HostCheck.CheckTarget | Server/index.js:39-43 | an accepted target always passes the host test, and every refusal is a 400 |
| HostCheck.CheckTargetChoosesUrl | Server/index.js:39 | a non-empty query URL is used; otherwise the environment URL is |
| HostCheck.CheckTargetErrors | Server/index.js:39-43 | "Missing url" exactly when neither source gives a non-empty string; "Invalid host" exactly when the chosen URL starts with neither allowed prefix |
| Examples.TeamAKeyHits | Server/index.js:23-24 | `TeamA` is a team-A key, since matching lowercases the key first |
| Examples.OversHits | Server/index.js:74-76 | `overs` is a hit for the overs lookup and also for the runs lookup |
| Examples.FullScoreExtracted | Server/index.js:71-99 | `{runs: r, wickets: w, overs: o}` gives the score text `r/w (o ov)` and the overs text o |
| Examples.OversFirstExtracted | Server/index.js:74-77 | `{overs: o, runs: r, wickets: w}` gives `o/w (o ov)`: the overs value stands in for the runs |
| Examples.NoOversExtracted | Server/index.js:78-99 | `{runs: r, wickets: w}` gives `r/w` and a `null` overs field |
| Examples.FullScoreLiteral | Server/index.js:71-99 | the document `{runs: 120, wickets: 4, overs: 15.2}` gives the score text `120/4 (15.2 ov)` and the overs text `15.2` |
| Examples.SingleTeamLiteral | Server/index.js:66-96 | the document `{"TeamA": "Lions"}` gives teamA `"Lions"` |
| Examples.SingleTeamKey | Server/index.js:66-96 | a one-key document under a team-A key holding a non-empty string gives that string as teamA |
| Examples.EarlierDeepBeatsLaterShallow | Server/index.js:18-31 | `{a: {bowler: x}, bowler: y}` gives x: an earlier sibling's subtree is searched before a later sibling's key |
| Examples.MatchedNullStops | Server/index.js:19-29 | `{bowler: null, a: {bowler: y}}` gives a `null` bowler whatever y is |
| Examples.ArraysAreWalked | Server/index.js:20-29 | `[{bowler: x}]` gives x |

## Left out

- The HTTP layer is not modelled: the Express app, the CORS middleware,
  the `/` route and `listen` (lines 5-13, 37, 112-114). These are I/O.
- The upstream fetch is not modelled: the request headers, a non-OK
  upstream status and `r.json()` (lines 45-56). These are network I/O.
  The model starts from the parsed document.
- The `try`/`catch` and its 500 response (lines 38, 106-109) are not
  modelled. The extraction as modelled never throws.
- The recursion depth of `walk` is not bounded. In the source a document
  nested deeply enough exhausts the JavaScript stack, and the RangeError
  becomes a 500 through the `catch`. The model returns a record for every
  document.
- The value of `process.env.CRICHEROES_URL` is an input of
  `CheckTarget`, not read from the environment.
- A `url` query parameter given more than once (an array in Express) is
  not modelled. Both URL sources are optional strings.
- The constant `ok: true` field of the response is not modelled.
- `toLowerCase` is modelled for ASCII only. Non-ASCII case mappings
  (including ones that change a string's length) are not modelled.
- JavaScript number formatting is not modelled. A number carries the
  text `String(n)` gives it, so truthiness is "the text is not `0`".
- `String(v)` of arrays and objects is the parameter `objectText`.
  Its values (`[object Object]`, element joins) are not computed. In the
  source that conversion can throw a TypeError, which the `try`/`catch`
  turns into the 500 "Server error" response. `objectText` is total, so
  the model never takes that path. The cases are listed in the next line.
- ComposeScore, OversSlot: an object with its own `toString` key, or an
  array holding such an object, is not modelled. The template literals
  of `Server/index.js:77-78` convert `r`, `w` and `o` to strings. For that
  object the conversion throws when its `toString` is not a function,
  `null` included, because `valueOf` then returns the object itself. Line 99's
  `overs?.toString?.()` gives `undefined` for an own `toString` that is
  `null`, so the slot is `null`; for any other non-function value it
  throws; an array holding such an object throws through `join`.
  `{"player": {"toString": 1}, "w": 1}` is such a document: the runs
  lookup stops at `player`, which contains `r`. There the source answers
  500, and the model gives the score text `objectText(r) + "/1"`.
  `ComposeScore` and `OversSlot` use `objectText` for every container.
- Property enumeration order is not modelled. An object's entries are
  taken to be in the order `Object.keys` gives, and distinct. The
  JavaScript rule that integer-like keys come first and the
  last-duplicate-wins rule of JSON parsing are not modelled.
- Examples: only `{runs: 120, wickets: 4, overs: 15.2}` and
  `{"TeamA": "Lions"}` are stated as literal documents (`FullScoreLiteral`,
  `SingleTeamLiteral`). The other worked documents are stated for any keys
  with the hit pattern of the example's keys, and those keys' own hit
  patterns are proved in separate lemmas (`RunsHits`, `OversHits`,
  `OversMisses`, `BowlerKeys`). The lowercasing of a longer literal key
  with several capitals, such as `TeamA_Name`, is not proved, so the team
  example uses `TeamA`.
