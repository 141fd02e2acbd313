/** Worked documents pushed through the model: the composed score lines,
    the overs key that doubles as a runs key, a team-name key, walk order,
    a matched `null` and an array. Each is stated for any keys that hit and
    miss the candidate lists as the keys of the example do, and separate
    lemmas show that the example's own keys do. */
module Examples {
  import opened Wrappers
  import opened JsonValue
  import opened JsStrings
  import opened Walker
  import opened Resolver
  import opened Normalizer

  /** A key that is not one of the Next.js wrapper keys. */
  predicate NotWrapper(k: string) {
    k != "pageProps" && k != "props"
  }

  // ---------------------------------------------------------------------------
  // How the example keys fare against the candidate lists

  lemma RunsHits()
    ensures IsHit("runs", RunsCandidates)
  {
    LowerOfLowercase("runs");
  }

  lemma RunsMisses()
    ensures !IsHit("runs", ScoreCandidates)
    ensures !IsHit("runs", WicketsCandidates)
    ensures !IsHit("runs", OversCandidates)
  {
    LowerOfLowercase("runs");
    RunsMissesScore();
    RunsMissesWickets();
    LacksChar("runs", "overs", 0);
    LacksChar("runs", "ov", 0);
    KeyMatchesNone("runs", OversCandidates);
  }

  lemma RunsMissesScore()
    ensures !KeyMatches("runs", ScoreCandidates)
  {
    assert !Contains("runs", "score_string") && !Contains("runs", "scorestr") && !Contains("runs", "score");
    KeyMatchesNone("runs", ScoreCandidates);
  }

  lemma RunsMissesWickets()
    ensures !KeyMatches("runs", WicketsCandidates)
  {
    LacksChar("runs", "wickets", 0);
    LacksChar("runs", "wk", 0);
    LacksChar("runs", "w", 0);
    KeyMatchesNone("runs", WicketsCandidates);
  }

  lemma WicketsHits()
    ensures IsHit("wickets", WicketsCandidates)
  {
    LowerOfLowercase("wickets");
  }

  lemma WicketsMisses()
    ensures !IsHit("wickets", ScoreCandidates)
    ensures !IsHit("wickets", OversCandidates)
  {
    WicketsMissesScore();
    WicketsMissesOvers();
    LowerOfLowercase("wickets");
  }

  lemma WicketsMissesOvers()
    ensures !KeyMatches("wickets", OversCandidates)
  {
    LacksChar("wickets", "overs", 0);
    LacksChar("wickets", "ov", 0);
    KeyMatchesNone("wickets", OversCandidates);
  }

  lemma WicketsMissesScore()
    ensures !KeyMatches("wickets", ScoreCandidates)
  {
    LacksChar("wickets", "score_string", 2);
    LacksChar("wickets", "scorestr", 2);
    LacksChar("wickets", "score", 2);
    KeyMatchesNone("wickets", ScoreCandidates);
  }

  /** "overs" contains "r", so it is a hit for the runs lookup as well. */
  lemma OversHits()
    ensures IsHit("overs", OversCandidates)
    ensures IsHit("overs", RunsCandidates)
  {
    LowerOfLowercase("overs");
    ContainsWitness("overs", "r", 3);
    KeyMatchesMeaning("overs", RunsCandidates);
    assert "r" in RunsCandidates;
  }

  lemma OversMisses()
    ensures !IsHit("overs", ScoreCandidates)
    ensures !IsHit("overs", WicketsCandidates)
  {
    LowerOfLowercase("overs");
    LacksChar("overs", "score_string", 1);
    LacksChar("overs", "scorestr", 1);
    LacksChar("overs", "score", 1);
    KeyMatchesNone("overs", ScoreCandidates);
    LacksChar("overs", "wickets", 0);
    LacksChar("overs", "wk", 0);
    LacksChar("overs", "w", 0);
    KeyMatchesNone("overs", WicketsCandidates);
  }

  /** The test is case-insensitive: "TeamA" lowercases to "teama". */
  lemma TeamAKeyHits()
    ensures IsHit("TeamA", TeamACandidates)
  {
    LowerTeamA();
  }

  lemma LowerTeamA()
    ensures Lower("TeamA") == "teama"
  {
    assert "TeamA" == [] + ['T'] + "eamA";
    assert "eamA" == "eam" + ['A'] + [];
    LowerOneCapital("eam", 'A', []);
    LowerOneCapital([], 'T', "eama");
  }

  lemma BowlerKeys()
    ensures IsHit("bowler", BowlerCandidates)
    ensures !IsHit("a", BowlerCandidates)
  {
    LowerOfLowercase("bowler");
    LowerOfLowercase("a");
    assert !Contains("a", "bowler") && !Contains("a", "currentbowler");
    KeyMatchesNone("a", BowlerCandidates);
  }

  // ---------------------------------------------------------------------------
  // {runs: r, wickets: w, overs: o}

  /** Three numbers, given by their renderings, under three keys. */
  function Flat3(k0: string, v0: string, k1: string, v1: string, k2: string, v2: string): Json {
    JObj([(k0, JNum(v0)), (k1, JNum(v1)), (k2, JNum(v2))])
  }

  /** A list none of the three keys hits finds nothing. */
  lemma Flat3Misses(k0: string, v0: string, k1: string, v1: string, k2: string, v2: string, keys: seq<string>)
    requires !IsHit(k0, keys) && !IsHit(k1, keys) && !IsHit(k2, keys)
    ensures FindValue(Flat3(k0, v0, k1, v1, k2, v2), keys) == None
  {
    var d := Flat3(k0, v0, k1, v1, k2, v2);
    assert KeyAt(d, 0) == k0 && KeyAt(d, 1) == k1 && KeyAt(d, 2) == k2;
    SkipLeaf(d, 0, keys);
    SkipLeaf(d, 1, keys);
    SkipLeaf(d, 2, keys);
  }

  lemma FullScoreLookups(kr: string, r: string, kw: string, w: string, ko: string, o: string)
    requires IsHit(kr, RunsCandidates) && !IsHit(kr, ScoreCandidates)
    requires !IsHit(kr, WicketsCandidates) && !IsHit(kr, OversCandidates)
    requires IsHit(kw, WicketsCandidates) && !IsHit(kw, ScoreCandidates) && !IsHit(kw, OversCandidates)
    requires IsHit(ko, OversCandidates) && !IsHit(ko, ScoreCandidates)
    ensures var d := Flat3(kr, r, kw, w, ko, o);
      && FindValue(d, ScoreCandidates) == None
      && FindValue(d, RunsCandidates) == Some(JNum(r))
      && FindValue(d, WicketsCandidates) == Some(JNum(w))
      && FindValue(d, OversCandidates) == Some(JNum(o))
  {
    Flat3Misses(kr, r, kw, w, ko, o, ScoreCandidates);
    var d := Flat3(kr, r, kw, w, ko, o);
    assert KeyAt(d, 0) == kr && KeyAt(d, 1) == kw && KeyAt(d, 2) == ko;
    HitAt(d, 0, RunsCandidates);
    SkipLeaf(d, 0, WicketsCandidates);
    HitAt(d, 1, WicketsCandidates);
    SkipLeaf(d, 0, OversCandidates);
    SkipLeaf(d, 1, OversCandidates);
    HitAt(d, 2, OversCandidates);
  }

  /** With no score key the line is composed, "r/w (o ov)", and the overs
      field is o: `{runs: 120, wickets: 4, overs: 15.2}` gives
      "120/4 (15.2 ov)" (the keys qualify by RunsHits, RunsMisses,
      WicketsHits, WicketsMisses, OversHits and OversMisses). */
  lemma FullScoreExtracted(kr: string, r: string, kw: string, w: string, ko: string, o: string,
                           objectText: Json -> string)
    requires IsHit(kr, RunsCandidates) && !IsHit(kr, ScoreCandidates)
    requires !IsHit(kr, WicketsCandidates) && !IsHit(kr, OversCandidates)
    requires IsHit(kw, WicketsCandidates) && !IsHit(kw, ScoreCandidates) && !IsHit(kw, OversCandidates)
    requires IsHit(ko, OversCandidates) && !IsHit(ko, ScoreCandidates)
    requires NotWrapper(kr) && NotWrapper(kw) && NotWrapper(ko) && o != ""
    ensures Extract(Flat3(kr, r, kw, w, ko, o), objectText).scoreText == Some(ScoreLine(r, w, Some(o)))
    ensures Extract(Flat3(kr, r, kw, w, ko, o), objectText).overs == Some(o)
  {
    var d := Flat3(kr, r, kw, w, ko, o);
    RootOfPlainDocument(d);
    FullScoreLookups(kr, r, kw, w, ko, o);
    ScoreTextRule(d, objectText);
  }

  /** The keys of `{runs: 120, wickets: 4, overs: 15.2}` have the hit
      pattern FullScoreExtracted asks for. */
  lemma FullScoreKeys()
    ensures IsHit("runs", RunsCandidates) && !IsHit("runs", ScoreCandidates)
    ensures !IsHit("runs", WicketsCandidates) && !IsHit("runs", OversCandidates)
    ensures IsHit("wickets", WicketsCandidates) && !IsHit("wickets", ScoreCandidates)
    ensures !IsHit("wickets", OversCandidates)
    ensures IsHit("overs", OversCandidates) && !IsHit("overs", ScoreCandidates)
    ensures NotWrapper("runs") && NotWrapper("wickets") && NotWrapper("overs")
  {
    RunsHits();
    RunsMisses();
    WicketsHits();
    WicketsMisses();
    OversHits();
    OversMisses();
  }

  /** The literal document `{runs: 120, wickets: 4, overs: 15.2}` gives the
      score line "120/4 (15.2 ov)" and the overs "15.2". */
  lemma FullScoreLiteral(objectText: Json -> string)
    ensures Extract(Flat3("runs", "120", "wickets", "4", "overs", "15.2"), objectText).scoreText
            == Some("120/4 (15.2 ov)")
    ensures Extract(Flat3("runs", "120", "wickets", "4", "overs", "15.2"), objectText).overs == Some("15.2")
  {
    FullScoreKeys();
    FullScoreExtracted("runs", "120", "wickets", "4", "overs", "15.2", objectText);
    FullScoreLiteralLine();
  }

  lemma FullScoreLiteralLine()
    ensures ScoreLine("120", "4", Some("15.2")) == "120/4 (15.2 ov)"
  {
  }

  // ---------------------------------------------------------------------------
  // {overs: o, runs: r, wickets: w}

  lemma OversFirstLookups(ko: string, o: string, kr: string, r: string, kw: string, w: string)
    requires IsHit(ko, OversCandidates) && IsHit(ko, RunsCandidates)
    requires !IsHit(ko, ScoreCandidates) && !IsHit(ko, WicketsCandidates)
    requires !IsHit(kr, ScoreCandidates) && !IsHit(kr, WicketsCandidates)
    requires IsHit(kw, WicketsCandidates) && !IsHit(kw, ScoreCandidates)
    ensures var d := Flat3(ko, o, kr, r, kw, w);
      && FindValue(d, ScoreCandidates) == None
      && FindValue(d, RunsCandidates) == Some(JNum(o))
      && FindValue(d, WicketsCandidates) == Some(JNum(w))
      && FindValue(d, OversCandidates) == Some(JNum(o))
  {
    Flat3Misses(ko, o, kr, r, kw, w, ScoreCandidates);
    var d := Flat3(ko, o, kr, r, kw, w);
    assert KeyAt(d, 0) == ko && KeyAt(d, 1) == kr && KeyAt(d, 2) == kw;
    HitAt(d, 0, RunsCandidates);
    HitAt(d, 0, OversCandidates);
    SkipLeaf(d, 0, WicketsCandidates);
    SkipLeaf(d, 1, WicketsCandidates);
    HitAt(d, 2, WicketsCandidates);
  }

  /** The same numbers with the overs key first: the runs lookup stops at
      "overs", which contains "r", so the overs value stands in for the
      runs: `{overs: 15.2, runs: 120, wickets: 4}` gives "15.2/4 (15.2 ov)". */
  lemma OversFirstExtracted(ko: string, o: string, kr: string, r: string, kw: string, w: string,
                            objectText: Json -> string)
    requires IsHit(ko, OversCandidates) && IsHit(ko, RunsCandidates)
    requires !IsHit(ko, ScoreCandidates) && !IsHit(ko, WicketsCandidates)
    requires !IsHit(kr, ScoreCandidates) && !IsHit(kr, WicketsCandidates)
    requires IsHit(kw, WicketsCandidates) && !IsHit(kw, ScoreCandidates)
    requires NotWrapper(ko) && NotWrapper(kr) && NotWrapper(kw)
    ensures Extract(Flat3(ko, o, kr, r, kw, w), objectText).scoreText == Some(ScoreLine(o, w, Some(o)))
  {
    var d := Flat3(ko, o, kr, r, kw, w);
    RootOfPlainDocument(d);
    OversFirstLookups(ko, o, kr, r, kw, w);
    ScoreTextRule(d, objectText);
  }

  // ---------------------------------------------------------------------------
  // {runs: r, wickets: w}

  lemma NoOversLookups(kr: string, r: string, kw: string, w: string)
    requires IsHit(kr, RunsCandidates) && !IsHit(kr, ScoreCandidates)
    requires !IsHit(kr, WicketsCandidates) && !IsHit(kr, OversCandidates)
    requires IsHit(kw, WicketsCandidates) && !IsHit(kw, ScoreCandidates) && !IsHit(kw, OversCandidates)
    ensures var d := JObj([(kr, JNum(r)), (kw, JNum(w))]);
      && FindValue(d, ScoreCandidates) == None
      && FindValue(d, RunsCandidates) == Some(JNum(r))
      && FindValue(d, WicketsCandidates) == Some(JNum(w))
      && FindValue(d, OversCandidates) == None
  {
    NoOversMisses(kr, r, kw, w, ScoreCandidates);
    NoOversMisses(kr, r, kw, w, OversCandidates);
    var d := JObj([(kr, JNum(r)), (kw, JNum(w))]);
    assert KeyAt(d, 0) == kr && KeyAt(d, 1) == kw;
    HitAt(d, 0, RunsCandidates);
    SkipLeaf(d, 0, WicketsCandidates);
    HitAt(d, 1, WicketsCandidates);
  }

  /** A list neither key hits finds nothing in the two-key document. */
  lemma NoOversMisses(kr: string, r: string, kw: string, w: string, keys: seq<string>)
    requires !IsHit(kr, keys) && !IsHit(kw, keys)
    ensures FindValue(JObj([(kr, JNum(r)), (kw, JNum(w))]), keys) == None
  {
    var d := JObj([(kr, JNum(r)), (kw, JNum(w))]);
    assert KeyAt(d, 0) == kr && KeyAt(d, 1) == kw;
    SkipLeaf(d, 0, keys);
    SkipLeaf(d, 1, keys);
  }

  /** Without an overs key the line is "r/w" and the overs field is `null`:
      `{runs: 120, wickets: 4}` gives "120/4". */
  lemma NoOversExtracted(kr: string, r: string, kw: string, w: string, objectText: Json -> string)
    requires IsHit(kr, RunsCandidates) && !IsHit(kr, ScoreCandidates)
    requires !IsHit(kr, WicketsCandidates) && !IsHit(kr, OversCandidates)
    requires IsHit(kw, WicketsCandidates) && !IsHit(kw, ScoreCandidates) && !IsHit(kw, OversCandidates)
    requires NotWrapper(kr) && NotWrapper(kw)
    ensures Extract(JObj([(kr, JNum(r)), (kw, JNum(w))]), objectText).scoreText == Some(ScoreLine(r, w, None))
    ensures Extract(JObj([(kr, JNum(r)), (kw, JNum(w))]), objectText).overs == None
  {
    var d := JObj([(kr, JNum(r)), (kw, JNum(w))]);
    RootOfPlainDocument(d);
    NoOversLookups(kr, r, kw, w);
    ScoreTextRule(d, objectText);
  }

  // ---------------------------------------------------------------------------
  // Team names, walk order, a matched null, arrays

  /** A document whose one key is a team-A key holding a non-empty string
      yields that string as teamA: `{"TeamA": "Lions"}` gives "Lions"
      (the key qualifies by TeamAKeyHits). */
  lemma SingleTeamKey(k: string, name: string, objectText: Json -> string)
    requires IsHit(k, TeamACandidates) && NotWrapper(k) && name != ""
    ensures Extract(JObj([(k, JStr(name))]), objectText).teamA == Some(JStr(name))
  {
    var d := JObj([(k, JStr(name))]);
    RootOfPlainDocument(d);
    assert KeyAt(d, 0) == k;
    HitAt(d, 0, TeamACandidates);
  }

  /** The literal document `{"TeamA": "Lions"}`. */
  lemma SingleTeamLiteral(objectText: Json -> string)
    ensures Extract(JObj([("TeamA", JStr("Lions"))]), objectText).teamA == Some(JStr("Lions"))
  {
    TeamAKeyHits();
    SingleTeamKey("TeamA", "Lions", objectText);
  }

  /** An earlier sibling's subtree is searched before a later sibling's key,
      so a deeper match can win over a shallower one:
      `{a: {bowler: x}, bowler: y}` gives x (the keys qualify by BowlerKeys). */
  lemma EarlierDeepBeatsLaterShallow(ka: string, kb: string, x: Json, y: Json)
    requires !IsHit(ka, BowlerCandidates) && IsHit(kb, BowlerCandidates)
    ensures FindValue(JObj([(ka, JObj([(kb, x)])), (kb, y)]), BowlerCandidates) == Some(x)
  {
    var inner := JObj([(kb, x)]);
    var d := JObj([(ka, inner), (kb, y)]);
    assert KeyAt(inner, 0) == kb && KeyAt(d, 0) == ka && ValAt(d, 0) == inner;
    HitAt(inner, 0, BowlerCandidates);
    Step(d, 0, BowlerCandidates);
  }

  /** A match holding `null` ends the search, and the slot shows `null`:
      `{bowler: null, a: {bowler: y}}` gives a `null` bowler whatever y is. */
  lemma MatchedNullStops(kb: string, ka: string, y: Json, objectText: Json -> string)
    requires IsHit(kb, BowlerCandidates) && NotWrapper(kb) && NotWrapper(ka)
    ensures FindValue(JObj([(kb, JNull), (ka, JObj([(kb, y)]))]), BowlerCandidates) == Some(JNull)
    ensures Extract(JObj([(kb, JNull), (ka, JObj([(kb, y)]))]), objectText).bowler == None
  {
    var d := JObj([(kb, JNull), (ka, JObj([(kb, y)]))]);
    RootOfPlainDocument(d);
    assert KeyAt(d, 0) == kb;
    HitAt(d, 0, BowlerCandidates);
  }

  /** Arrays are walked through their index keys, which never match:
      `[{bowler: x}]` gives x. */
  lemma ArraysAreWalked(kb: string, x: Json)
    requires IsHit(kb, BowlerCandidates)
    ensures FindValue(JArr([JObj([(kb, x)])]), BowlerCandidates) == Some(x)
  {
    var inner := JObj([(kb, x)]);
    var d := JArr([inner]);
    IndexKeysNeverHit(0);
    assert KeyAt(d, 0) == IndexKey(0) && ValAt(d, 0) == inner && KeyAt(inner, 0) == kb;
    HitAt(inner, 0, BowlerCandidates);
    Step(d, 0, BowlerCandidates);
  }
}
