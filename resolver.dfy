/** The field resolver (Server/index.js:59-91): the engine root is unwrapped
    from the common Next.js shapes, then each field is a `deepFind` over that
    root with its own candidate list, combined with JavaScript `||`, so a
    fallback fires on any falsy result, not only on "not found". */
module Resolver {
  import opened Wrappers
  import opened JsonValue
  import opened JsStrings
  import opened Walker

  const TeamACandidates: seq<string> := ["teama", "battingteam", "team1", "teama_name", "hometeam"]
  const TeamAFallback: seq<string> := ["team", "name"]
  const TeamBCandidates: seq<string> := ["teamb", "bowlingteam", "team2", "teamb_name", "awayteam"]
  const ScoreCandidates: seq<string> := ["score_string", "scorestr", "score"]
  const RunsCandidates: seq<string> := ["runs", "r"]
  const WicketsCandidates: seq<string> := ["wickets", "wk", "w"]
  const OversCandidates: seq<string> := ["overs", "ov"]
  const StrikerCandidates: seq<string> := ["striker", "batsman1", "batter1", "onstrike"]
  const StrikerFallback: seq<string> := ["batsman"]
  const NonStrikerCandidates: seq<string> := ["nonstriker", "batsman2", "batter2"]
  const BowlerCandidates: seq<string> := ["bowler", "currentbowler"]

  /** The raw value of each field before normalization (`undefined` is None). */
  datatype Lookups = Lookups(
    teamA: Option<Json>,
    teamB: Option<Json>,
    scoreText: Option<Json>,
    overs: Option<Json>,
    striker: Option<Json>,
    nonStriker: Option<Json>,
    bowler: Option<Json>)

  // ---------------------------------------------------------------------------
  // Root unwrapping

  /** The first truthy candidate's value, or `last` when none is truthy. */
  function FirstTruthy(cands: seq<Option<Json>>, last: Json): (r: Json)
    ensures (r == last && forall i :: 0 <= i < |cands| ==> !TruthyOpt(cands[i]))
      || exists i :: 0 <= i < |cands| && cands[i] == Some(r) && Truthy(r)
           && forall m :: 0 <= m < i ==> !TruthyOpt(cands[m])
  {
    if cands == [] then last
    else if TruthyOpt(cands[0]) then cands[0].value
    else
      var r := FirstTruthy(cands[1..], last);
      assert forall i :: 1 <= i < |cands| ==> cands[i] == cands[1..][i - 1];
      r
  }

  /** The three Next.js wrappings the root is looked for in, in order:
      `raw.pageProps.data`, `raw.pageProps`, `raw.props.pageProps`. */
  function Wrappings(raw: Json): seq<Option<Json>> {
    [Prop(Prop(Some(raw), "pageProps"), "data"),
     Prop(Some(raw), "pageProps"),
     Prop(Prop(Some(raw), "props"), "pageProps")]
  }

  /** `raw?.pageProps?.data || raw?.pageProps || raw?.props?.pageProps || raw`. */
  function Root(raw: Json): (root: Json)
    ensures root == FirstTruthy(Wrappings(raw), raw)
  {
    var w := Wrappings(raw);
    Or(Or(Or(w[0], w[1]), w[2]), Some(raw)).value
  }

  // ---------------------------------------------------------------------------
  // The composed score

  /** The template literals of lines 77-78: `${r}/${w} (${o} ov)` or `${r}/${w}`. */
  function ScoreLine(r: string, w: string, o: Option<string>): string {
    r + "/" + w + if o.Some? then " (" + o.value + " ov)" else ""
  }

  /** The immediately-invoked arrow function of lines 73-80: a score line
      from separate runs, wickets and overs lookups, or `null`. */
  function ComposeScore(root: Json, objectText: Json -> string): Option<Json> {
    var r := FindValue(root, RunsCandidates);
    var w := FindValue(root, WicketsCandidates);
    var o := FindValue(root, OversCandidates);
    if NotNullish(r) && NotNullish(w) && NotNullish(o) then
      Some(JStr(ScoreLine(Render(r.value, objectText), Render(w.value, objectText), Some(Render(o.value, objectText)))))
    else if NotNullish(r) && NotNullish(w) then
      Some(JStr(ScoreLine(Render(r.value, objectText), Render(w.value, objectText), None)))
    else Some(JNull)
  }

  /** Lines 66-91: every field's raw value. */
  function Resolve(root: Json, objectText: Json -> string): Lookups {
    Lookups(
      teamA := Or(FindValue(root, TeamACandidates), FindValue(root, TeamAFallback)),
      teamB := FindValue(root, TeamBCandidates),
      scoreText := Or(FindValue(root, ScoreCandidates), ComposeScore(root, objectText)),
      overs := FindValue(root, OversCandidates),
      striker := Or(FindValue(root, StrikerCandidates), FindValue(root, StrikerFallback)),
      nonStriker := FindValue(root, NonStrikerCandidates),
      bowler := FindValue(root, BowlerCandidates))
  }

  // ---------------------------------------------------------------------------
  // Reading a score line back

  /** Position of the first `c` in `s`, or |s|. */
  function IndexOf(s: string, c: char): (n: nat)
    ensures n <= |s|
    ensures n < |s| ==> s[n] == c
    ensures forall m :: 0 <= m < n ==> s[m] != c
  {
    if s == [] then 0 else if s[0] == c then 0 else 1 + IndexOf(s[1..], c)
  }

  /** Splits a score line into runs, wickets and the optional overs text. */
  function ParseScoreLine(s: string): Option<(string, string, Option<string>)> {
    var a := IndexOf(s, '/');
    if a == |s| then None
    else
      var rest := s[a + 1..];
      var b := IndexOf(rest, ' ');
      if b == |rest| then Some((s[..a], rest, None))
      else
        var tail := rest[b..];
        if |tail| >= 6 && tail[..2] == " (" && tail[|tail| - 4..] == " ov)" then
          Some((s[..a], rest[..b], Some(tail[2..|tail| - 4])))
        else None
  }

  lemma IndexOfAt(s: string, c: char, n: nat)
    requires n <= |s|
    requires n < |s| ==> s[n] == c
    requires forall m :: 0 <= m < n ==> s[m] != c
    ensures IndexOf(s, c) == n
  {
  }

  /** Splitting at the first `/` recovers the text before it and after it. */
  lemma SplitAtSlash(r: string, rest: string)
    requires forall m :: 0 <= m < |r| ==> r[m] != '/'
    ensures var s := r + "/" + rest;
      IndexOf(s, '/') == |r| && s[..|r|] == r && s[|r| + 1..] == rest
  {
    var s := r + "/" + rest;
    IndexOfAt(s, '/', |r|);
    assert s[..|r|] == r;
    assert s[|r| + 1..] == rest;
  }

  /** The overs part reads back from behind the wickets text. */
  lemma SplitOvers(w: string, o: string)
    requires forall m :: 0 <= m < |w| ==> w[m] != ' '
    ensures var rest, tail := w + (" (" + o + " ov)"), " (" + o + " ov)";
      && IndexOf(rest, ' ') == |w| && rest[..|w|] == w && rest[|w|..] == tail
      && |tail| >= 6 && tail[..2] == " (" && tail[|tail| - 4..] == " ov)" && tail[2..|tail| - 4] == o
  {
    var tail := " (" + o + " ov)";
    var rest := w + tail;
    IndexOfAt(rest, ' ', |w|);
    assert rest[..|w|] == w;
    assert rest[|w|..] == tail;
    assert tail[..2] == " (";
    assert tail[|tail| - 4..] == " ov)";
    assert tail[2..|tail| - 4] == o;
  }

  /** The composed score line is unambiguous: when the runs text has no `/`
      and the wickets text no space (true of every number's rendering), the
      line reads back as exactly its three parts. */
  lemma ScoreLineRoundTrip(r: string, w: string, o: Option<string>)
    requires forall m :: 0 <= m < |r| ==> r[m] != '/'
    requires forall m :: 0 <= m < |w| ==> w[m] != ' '
    ensures ParseScoreLine(ScoreLine(r, w, o)) == Some((r, w, o))
  {
    if o.Some? {
      var tail := " (" + o.value + " ov)";
      assert ScoreLine(r, w, o) == r + "/" + (w + tail);
      SplitAtSlash(r, w + tail);
      SplitOvers(w, o.value);
    } else {
      assert ScoreLine(r, w, o) == r + "/" + w;
      SplitAtSlash(r, w);
      IndexOfAt(w, ' ', |w|);
    }
  }

  // ---------------------------------------------------------------------------
  // Properties of the resolver

  /** A document with neither `pageProps` nor `props` is its own root. */
  lemma RootOfPlainDocument(raw: Json)
    requires raw.JObj? ==> forall i :: 0 <= i < |raw.entries| ==> raw.entries[i].0 != "pageProps" && raw.entries[i].0 != "props"
    ensures Root(raw) == raw
  {
  }

  /** Every field in terms of the reference walk order: each lookup is the
      first hit of the pre-order entry list, and `||` takes the fallback
      exactly when the primary value is falsy (absent, null, false, 0, ""). */
  lemma ResolveByWalkOrder(root: Json, objectText: Json -> string)
    ensures var l, first := Resolve(root, objectText), (keys: seq<string>) => ValueOf(FirstMatch(Preorder(root), keys));
      && l.teamA == (if TruthyOpt(first(TeamACandidates)) then first(TeamACandidates) else first(TeamAFallback))
      && l.teamB == first(TeamBCandidates)
      && l.scoreText == (if TruthyOpt(first(ScoreCandidates)) then first(ScoreCandidates) else ComposeScore(root, objectText))
      && l.overs == first(OversCandidates)
      && l.striker == (if TruthyOpt(first(StrikerCandidates)) then first(StrikerCandidates) else first(StrikerFallback))
      && l.nonStriker == first(NonStrikerCandidates)
      && l.bowler == first(BowlerCandidates)
  {
    WalkOrder(root, TeamACandidates);
    WalkOrder(root, TeamAFallback);
    WalkOrder(root, TeamBCandidates);
    WalkOrder(root, ScoreCandidates);
    WalkOrder(root, OversCandidates);
    WalkOrder(root, StrikerCandidates);
    WalkOrder(root, StrikerFallback);
    WalkOrder(root, NonStrikerCandidates);
    WalkOrder(root, BowlerCandidates);
  }

  /** The composed score is a string exactly when runs and wickets are both
      non-null, carries the overs part exactly when overs is non-null too,
      and is `null` otherwise; its text reads back as the rendered parts. */
  lemma ComposeScoreRule(root: Json, objectText: Json -> string)
    ensures var c, r, w, o := ComposeScore(root, objectText), FindValue(root, RunsCandidates),
                              FindValue(root, WicketsCandidates), FindValue(root, OversCandidates);
      && c.Some? && (c.value.JStr? || c.value.JNull?)
      && (c.value.JStr? <==> NotNullish(r) && NotNullish(w))
      && (c.value.JStr?
          && (forall m :: 0 <= m < |Render(r.value, objectText)| ==> Render(r.value, objectText)[m] != '/')
          && (forall m :: 0 <= m < |Render(w.value, objectText)| ==> Render(w.value, objectText)[m] != ' ')
          ==> ParseScoreLine(c.value.s) ==
                Some((Render(r.value, objectText), Render(w.value, objectText),
                      if NotNullish(o) then Some(Render(o.value, objectText)) else None)))
  {
    var r, w, o := FindValue(root, RunsCandidates), FindValue(root, WicketsCandidates), FindValue(root, OversCandidates);
    if NotNullish(r) && NotNullish(w) {
      var rt, wt := Render(r.value, objectText), Render(w.value, objectText);
      if (forall m :: 0 <= m < |rt| ==> rt[m] != '/') && (forall m :: 0 <= m < |wt| ==> wt[m] != ' ') {
        ScoreLineRoundTrip(rt, wt, if NotNullish(o) then Some(Render(o.value, objectText)) else None);
      }
    }
  }

  // A candidate that contains another candidate of its list is redundant:
  // each list accepts exactly the keys its shortest fragments accept.

  /** "teama_name" contains "teama" (line 67). */
  lemma TeamAListCollapses(j: Json)
    ensures Find(j, TeamACandidates) == Find(j, ["teama", "battingteam", "team1", "hometeam"])
  {
    var short := ["teama", "battingteam", "team1", "hometeam"];
    ContainsWitness("teama_name", "teama", 0);
    assert KeyMatches("teama_name", short);
    Subsumed(short, TeamACandidates);
    FindSameMatches(j, short, TeamACandidates);
  }

  /** "teamb_name" contains "teamb" (line 70). */
  lemma TeamBListCollapses(j: Json)
    ensures Find(j, TeamBCandidates) == Find(j, ["teamb", "bowlingteam", "team2", "awayteam"])
  {
    var short := ["teamb", "bowlingteam", "team2", "awayteam"];
    ContainsWitness("teamb_name", "teamb", 0);
    assert KeyMatches("teamb_name", short);
    Subsumed(short, TeamBCandidates);
    FindSameMatches(j, short, TeamBCandidates);
  }

  /** Both longer score candidates contain "score" (line 72). */
  lemma ScoreListCollapses(j: Json)
    ensures Find(j, ScoreCandidates) == Find(j, ["score"])
  {
    ContainsWitness("score_string", "score", 0);
    ContainsWitness("scorestr", "score", 0);
    assert KeyMatches("score_string", ["score"]) && KeyMatches("scorestr", ["score"]);
    Subsumed(["score"], ScoreCandidates);
    FindSameMatches(j, ["score"], ScoreCandidates);
  }

  /** The runs lookup accepts every key with an "r" in it (line 74). */
  lemma RunsListCollapses(j: Json)
    ensures Find(j, RunsCandidates) == Find(j, ["r"])
  {
    ContainsWitness("runs", "r", 0);
    assert KeyMatches("runs", ["r"]);
    Subsumed(["r"], RunsCandidates);
    FindSameMatches(j, ["r"], RunsCandidates);
  }

  /** The wickets lookup accepts every key with a "w" in it (line 75). */
  lemma WicketsListCollapses(j: Json)
    ensures Find(j, WicketsCandidates) == Find(j, ["w"])
  {
    ContainsWitness("wickets", "w", 0);
    ContainsWitness("wk", "w", 0);
    assert KeyMatches("wickets", ["w"]) && KeyMatches("wk", ["w"]);
    Subsumed(["w"], WicketsCandidates);
    FindSameMatches(j, ["w"], WicketsCandidates);
  }

  /** "overs" contains "ov" (lines 76 and 91). */
  lemma OversListCollapses(j: Json)
    ensures Find(j, OversCandidates) == Find(j, ["ov"])
  {
    ContainsWitness("overs", "ov", 0);
    assert KeyMatches("overs", ["ov"]);
    Subsumed(["ov"], OversCandidates);
    FindSameMatches(j, ["ov"], OversCandidates);
  }

  /** "currentbowler" contains "bowler" (line 88). */
  lemma BowlerListCollapses(j: Json)
    ensures Find(j, BowlerCandidates) == Find(j, ["bowler"])
  {
    ContainsWitness("currentbowler", "bowler", 7);
    assert KeyMatches("currentbowler", ["bowler"]);
    Subsumed(["bowler"], BowlerCandidates);
    FindSameMatches(j, ["bowler"], BowlerCandidates);
  }

  /** A `nonStriker` key is a hit for the striker lookup as well, since
      "nonstriker" contains "striker"... */
  lemma NonStrikerKeyHitsStriker()
    ensures IsHit("nonStriker", StrikerCandidates)
  {
    LowerNonStriker();
    ContainsMiddle("non", "striker", []);
    assert "non" + "striker" + [] == "non" + "striker";
    KeyMatchesMeaning("non" + "striker", StrikerCandidates);
    assert "striker" in StrikerCandidates;
  }

  /** ... besides being one for the non-striker lookup. */
  lemma NonStrikerKeyHitsNonStriker()
    ensures IsHit("nonStriker", NonStrikerCandidates)
  {
    LowerNonStriker();
    assert "non" + "striker" == "nonstriker";
  }

  lemma LowerNonStriker()
    ensures Lower("nonStriker") == "non" + "striker"
  {
    assert "nonStriker" == "non" + ['S'] + "triker";
    LowerOneCapital("non", 'S', "triker");
    assert ['s'] + "triker" == "striker";
    ConcatAssoc("non", ['s'], "triker");
  }

  /** So the striker lookup stops at a non-striker listed before the striker... */
  lemma NonStrikerFirstIsFound(a: Json, b: Json)
    ensures FindValue(JObj([("nonStriker", a), ("striker", b)]), StrikerCandidates) == Some(a)
  {
    var doc := JObj([("nonStriker", a), ("striker", b)]);
    assert KeyAt(doc, 0) == "nonStriker" && ValAt(doc, 0) == a;
    NonStrikerKeyHitsStriker();
    Step(doc, 0, StrikerCandidates);
  }

  /** ... and, when that value is a non-empty string, it fills the striker field. */
  lemma NonStrikerFirstFillsStriker(a: string, b: string, objectText: Json -> string)
    requires a != ""
    ensures Resolve(JObj([("nonStriker", JStr(a)), ("striker", JStr(b))]), objectText).striker == Some(JStr(a))
  {
    NonStrikerFirstIsFound(JStr(a), JStr(b));
  }

  lemma TeamListsLetterLed()
    ensures LetterLed(TeamACandidates) && LetterLed(TeamAFallback) && LetterLed(TeamBCandidates)
  {
  }

  lemma ScoreListsLetterLed()
    ensures LetterLed(ScoreCandidates) && LetterLed(RunsCandidates)
    ensures LetterLed(WicketsCandidates) && LetterLed(OversCandidates)
  {
  }

  lemma PlayerListsLetterLed()
    ensures LetterLed(StrikerCandidates) && LetterLed(StrikerFallback)
    ensures LetterLed(NonStrikerCandidates) && LetterLed(BowlerCandidates)
  {
  }

  /** Array elements are reached through index keys, and no candidate of the
      resolver ever matches an index key. */
  lemma IndexKeysNeverHit(i: nat)
    ensures !IsHit(IndexKey(i), TeamACandidates) && !IsHit(IndexKey(i), TeamAFallback)
    ensures !IsHit(IndexKey(i), TeamBCandidates) && !IsHit(IndexKey(i), ScoreCandidates)
    ensures !IsHit(IndexKey(i), RunsCandidates) && !IsHit(IndexKey(i), WicketsCandidates)
    ensures !IsHit(IndexKey(i), OversCandidates) && !IsHit(IndexKey(i), StrikerCandidates)
    ensures !IsHit(IndexKey(i), StrikerFallback) && !IsHit(IndexKey(i), NonStrikerCandidates)
    ensures !IsHit(IndexKey(i), BowlerCandidates)
  {
    TeamListsLetterLed();
    ScoreListsLetterLed();
    PlayerListsLetterLed();
    IndexKeyMisses(i, TeamACandidates);
    IndexKeyMisses(i, TeamAFallback);
    IndexKeyMisses(i, TeamBCandidates);
    IndexKeyMisses(i, ScoreCandidates);
    IndexKeyMisses(i, RunsCandidates);
    IndexKeyMisses(i, WicketsCandidates);
    IndexKeyMisses(i, OversCandidates);
    IndexKeyMisses(i, StrikerCandidates);
    IndexKeyMisses(i, StrikerFallback);
    IndexKeyMisses(i, NonStrikerCandidates);
    IndexKeyMisses(i, BowlerCandidates);
  }
}
