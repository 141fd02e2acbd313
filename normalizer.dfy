/** The response object of lines 94-102: each looked-up value coerced into
    its slot, and the whole extraction from a parsed document to that record. */
module Normalizer {
  import opened Wrappers
  import opened JsonValue
  import opened Walker
  import opened Resolver

  /** The seven fields of the response besides the constant `ok: true`.
      `None` is JSON `null`. The team and player slots may hold any JSON
      value, because a `name` property is passed on whatever its type. */
  datatype Record = Record(
    teamA: Option<Json>,
    teamB: Option<Json>,
    scoreText: Option<string>,
    overs: Option<string>,
    striker: Option<Json>,
    nonStriker: Option<Json>,
    bowler: Option<Json>)

  /** `typeof v === "string"`. */
  predicate IsString(v: Option<Json>) {
    v.Some? && v.value.JStr?
  }

  /** `x || null`. */
  function OrNull(v: Option<Json>): (r: Option<Json>)
    ensures r.Some? <==> TruthyOpt(v)
    ensures r.Some? ==> r == v
  {
    if TruthyOpt(v) then v else None
  }

  /** Lines 96-97: `typeof t === "string" ? t : t?.name || t?.teamName || null`. */
  function TeamSlot(v: Option<Json>): (r: Option<Json>)
    ensures IsString(v) ==> r == v
    ensures r.Some? ==> r.value.JStr? || Truthy(r.value)
    ensures !IsString(v) && r.Some? ==> r == Prop(v, "name") || r == Prop(v, "teamName")
  {
    if IsString(v) then v else OrNull(Or(Prop(v, "name"), Prop(v, "teamName")))
  }

  /** Lines 100-102: `typeof p === "string" ? p : p?.name || null`. */
  function PlayerSlot(v: Option<Json>): (r: Option<Json>)
    ensures IsString(v) ==> r == v
    ensures r.Some? ==> r.value.JStr? || Truthy(r.value)
    ensures !IsString(v) && r.Some? ==> r == Prop(v, "name")
  {
    if IsString(v) then v else OrNull(Prop(v, "name"))
  }

  /** Line 98: only a string survives. */
  function ScoreSlot(v: Option<Json>): (r: Option<string>)
    ensures r.Some? <==> IsString(v)
    ensures r.Some? ==> v == Some(JStr(r.value))
  {
    if IsString(v) then Some(v.value.s) else None
  }

  /** Line 99: `typeof o === "string" ? o : (o?.toString?.() || null)`. */
  function OversSlot(v: Option<Json>, objectText: Json -> string): (r: Option<string>)
    ensures IsString(v) ==> r == Some(v.value.s)
    ensures !NotNullish(v) ==> r.None?
    ensures r.Some? && !IsString(v) ==> r.value == Render(v.value, objectText) && r.value != ""
    ensures NotNullish(v) && !IsString(v) ==> (r.Some? <==> Render(v.value, objectText) != "")
  {
    if IsString(v) then Some(v.value.s)
    else if !NotNullish(v) then None
    else
      var t := Render(v.value, objectText);
      if t == "" then None else Some(t)
  }

  /** Lines 94-102: every slot coerced from its looked-up value. */
  function Normalize(l: Lookups, objectText: Json -> string): Record {
    Record(
      teamA := TeamSlot(l.teamA),
      teamB := TeamSlot(l.teamB),
      scoreText := ScoreSlot(l.scoreText),
      overs := OversSlot(l.overs, objectText),
      striker := PlayerSlot(l.striker),
      nonStriker := PlayerSlot(l.nonStriker),
      bowler := PlayerSlot(l.bowler))
  }

  /** Lines 59-102: from the parsed upstream document to the response. */
  function Extract(raw: Json, objectText: Json -> string): Record {
    Normalize(Resolve(Root(raw), objectText), objectText)
  }

  // ---------------------------------------------------------------------------
  // Slot rules

  /** An object in a team slot yields its `name` when that is truthy, else
      its `teamName` when that is truthy, else `null`: the first truthy one
      wins, not the first present one. */
  lemma TeamSlotOfObject(es: seq<(string, Json)>)
    ensures var r, n, t := TeamSlot(Some(JObj(es))), Lookup(es, "name"), Lookup(es, "teamName");
      && (TruthyOpt(n) ==> r == n)
      && (!TruthyOpt(n) && TruthyOpt(t) ==> r == t)
      && (!TruthyOpt(n) && !TruthyOpt(t) ==> r.None?)
  {
  }

  /** A player slot never falls back to `teamName`. */
  lemma PlayerSlotOfObject(es: seq<(string, Json)>)
    ensures var r, n := PlayerSlot(Some(JObj(es))), Lookup(es, "name");
      && (TruthyOpt(n) ==> r == n)
      && (!TruthyOpt(n) ==> r.None?)
  {
  }

  /** Numbers, booleans, arrays, `null` and `undefined` have no `name` or
      `teamName`, so every slot but `overs` becomes `null` for them. */
  lemma NonObjectsAreNull(v: Option<Json>)
    requires !IsString(v) && !(v.Some? && v.value.JObj?)
    ensures TeamSlot(v).None? && PlayerSlot(v).None? && ScoreSlot(v).None?
  {
  }

  /** When `name` and `teamName` are strings (or missing), a team slot is a
      string or `null`; the same holds for a player slot with `name` alone. */
  lemma StringOrNull(v: Option<Json>)
    requires Prop(v, "name").None? || IsString(Prop(v, "name"))
    requires Prop(v, "teamName").None? || IsString(Prop(v, "teamName"))
    ensures TeamSlot(v).None? || TeamSlot(v).value.JStr?
    ensures PlayerSlot(v).None? || PlayerSlot(v).value.JStr?
  {
  }

  /** Without that hypothesis the slot passes a non-string `name` on. */
  lemma NonStringNamePassesThrough(n: Json)
    requires Truthy(n)
    ensures TeamSlot(Some(JObj([("name", n)]))) == Some(n)
    ensures PlayerSlot(Some(JObj([("name", n)]))) == Some(n)
  {
  }

  /** `{teamName: x}` fills a team slot but not a player slot. */
  lemma TeamNameOnlyForTeams(x: Json)
    requires Truthy(x)
    ensures TeamSlot(Some(JObj([("teamName", x)]))) == Some(x)
    ensures PlayerSlot(Some(JObj([("teamName", x)]))) == None
  {
  }

  /** `{name: "Kumar", id: 7}` yields "Kumar"; `{id: 7}` yields `null`. */
  lemma PlayerExamples()
    ensures PlayerSlot(Some(JObj([("name", JStr("Kumar")), ("id", JNum("7"))]))) == Some(JStr("Kumar"))
    ensures PlayerSlot(Some(JObj([("id", JNum("7"))]))) == None
    ensures TeamSlot(Some(JObj([("id", JNum("7"))]))) == None
  {
    assert Lookup([("id", JNum("7"))], "name") == None;
    assert Lookup([("id", JNum("7"))], "teamName") == None;
  }

  /** A number in the overs slot yields its rendering, "0" included (a
      non-empty string is truthy even when the number is not). */
  lemma OversOfNumber(t: string, objectText: Json -> string)
    requires t != ""
    ensures OversSlot(Some(JNum(t)), objectText) == Some(t)
  {
  }

  /** An empty array's `toString` is "", which `|| null` turns into `null`. */
  lemma OversOfEmptyText(v: Json, objectText: Json -> string)
    requires !v.JStr? && Render(v, objectText) == ""
    ensures OversSlot(Some(v), objectText) == None
  {
  }

  // ---------------------------------------------------------------------------
  // The record

  /** A string value found for a field reaches the response unchanged, the
      empty string included. */
  lemma StringsPassThrough(raw: Json, objectText: Json -> string)
    ensures var l, x := Resolve(Root(raw), objectText), Extract(raw, objectText);
      && (IsString(l.teamA) ==> x.teamA == l.teamA)
      && (IsString(l.teamB) ==> x.teamB == l.teamB)
      && (IsString(l.scoreText) ==> x.scoreText == Some(l.scoreText.value.s))
      && (IsString(l.overs) ==> x.overs == Some(l.overs.value.s))
      && (IsString(l.striker) ==> x.striker == l.striker)
      && (IsString(l.nonStriker) ==> x.nonStriker == l.nonStriker)
      && (IsString(l.bowler) ==> x.bowler == l.bowler)
  {
  }

  /** No slot of the response holds `null` inside a `Some`, nor a falsy
      non-string such as 0 or false. */
  lemma SlotsAreNullStringOrTruthy(raw: Json, objectText: Json -> string)
    ensures var x := Extract(raw, objectText);
      && (x.teamA.Some? ==> x.teamA.value.JStr? || Truthy(x.teamA.value))
      && (x.teamB.Some? ==> x.teamB.value.JStr? || Truthy(x.teamB.value))
      && (x.striker.Some? ==> x.striker.value.JStr? || Truthy(x.striker.value))
      && (x.nonStriker.Some? ==> x.nonStriker.value.JStr? || Truthy(x.nonStriker.value))
      && (x.bowler.Some? ==> x.bowler.value.JStr? || Truthy(x.bowler.value))
  {
  }

  /** The score text: a truthy primary match is kept only when it is a
      string (an object or a number there suppresses composition and gives
      `null`); a falsy primary match gives the composed score line. */
  lemma ScoreTextRule(raw: Json, objectText: Json -> string)
    ensures var root := Root(raw);
            var p, r, w, o := FindValue(root, ScoreCandidates), FindValue(root, RunsCandidates),
                              FindValue(root, WicketsCandidates), FindValue(root, OversCandidates);
            var s := Extract(raw, objectText).scoreText;
      && (TruthyOpt(p) && IsString(p) ==> s == Some(p.value.s))
      && (TruthyOpt(p) && !IsString(p) ==> s.None?)
      && (!TruthyOpt(p) && NotNullish(r) && NotNullish(w) ==>
            s == Some(ScoreLine(Render(r.value, objectText), Render(w.value, objectText),
                                if NotNullish(o) then Some(Render(o.value, objectText)) else None)))
      && (!TruthyOpt(p) && !(NotNullish(r) && NotNullish(w)) ==> s.None?)
  {
    ComposeScoreRule(Root(raw), objectText);
  }

  /** A composed score line and the `overs` field agree: when the overs
      field is a text, that same text is the line's overs part. */
  lemma ComposedOversAgree(raw: Json, objectText: Json -> string)
    requires var root := Root(raw);
      !TruthyOpt(FindValue(root, ScoreCandidates))
      && NotNullish(FindValue(root, RunsCandidates)) && NotNullish(FindValue(root, WicketsCandidates))
      && Extract(raw, objectText).overs.Some?
    ensures var root := Root(raw);
      Extract(raw, objectText).scoreText ==
        Some(ScoreLine(Render(FindValue(root, RunsCandidates).value, objectText),
                       Render(FindValue(root, WicketsCandidates).value, objectText),
                       Extract(raw, objectText).overs))
  {
    ScoreTextRule(raw, objectText);
  }

  /** A field none of whose candidates matches any key reachable from the
      root comes out `null`. */
  lemma UnmatchedFieldsAreNull(raw: Json, objectText: Json -> string)
    ensures var x, e := Extract(raw, objectText), Preorder(Root(raw));
      && ((forall m :: m in e ==> !IsHit(m.0, TeamACandidates) && !IsHit(m.0, TeamAFallback)) ==> x.teamA.None?)
      && ((forall m :: m in e ==> !IsHit(m.0, TeamBCandidates)) ==> x.teamB.None?)
      && ((forall m :: m in e ==> !IsHit(m.0, OversCandidates)) ==> x.overs.None?)
      && ((forall m :: m in e ==> !IsHit(m.0, StrikerCandidates) && !IsHit(m.0, StrikerFallback)) ==> x.striker.None?)
      && ((forall m :: m in e ==> !IsHit(m.0, NonStrikerCandidates)) ==> x.nonStriker.None?)
      && ((forall m :: m in e ==> !IsHit(m.0, BowlerCandidates)) ==> x.bowler.None?)
  {
    var root := Root(raw);
    AbsentIsNull(root, TeamACandidates);
    AbsentIsNull(root, TeamAFallback);
    AbsentIsNull(root, TeamBCandidates);
    AbsentIsNull(root, OversCandidates);
    AbsentIsNull(root, StrikerCandidates);
    AbsentIsNull(root, StrikerFallback);
    AbsentIsNull(root, NonStrikerCandidates);
    AbsentIsNull(root, BowlerCandidates);
  }

  lemma AbsentIsNull(root: Json, keys: seq<string>)
    ensures (forall m :: m in Preorder(root) ==> !IsHit(m.0, keys)) ==> FindValue(root, keys) == None
  {
    FindAbsent(root, keys);
  }

  /** The score text is `null` when neither a score key nor both a runs and
      a wickets key are reachable. */
  lemma UnmatchedScoreIsNull(raw: Json, objectText: Json -> string)
    requires var e := Preorder(Root(raw));
      forall m :: m in e ==> !IsHit(m.0, ScoreCandidates)
    requires var e := Preorder(Root(raw));
      (forall m :: m in e ==> !IsHit(m.0, RunsCandidates))
      || (forall m :: m in e ==> !IsHit(m.0, WicketsCandidates))
    ensures Extract(raw, objectText).scoreText.None?
  {
    var root := Root(raw);
    FindAbsent(root, ScoreCandidates);
    FindAbsent(root, RunsCandidates);
    FindAbsent(root, WicketsCandidates);
    ScoreTextRule(raw, objectText);
  }
}
