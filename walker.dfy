/** `deepFind` (Server/index.js:16-34): a depth-first search of a JSON tree for
    the first key whose lowercased text contains one of the candidate
    fragments. Three descriptions of it live here:
    - `Find`/`FindFrom`, the walk as recursive functions, with `Tested`
      recording which keys the walk tests;
    - `Preorder` with `FirstMatch`, a reference definition: the first hit in
      the list of all entries in document order;
    - `Finder.Walk` and `DeepFind`, the imperative search with the captured
      mutable `ans` and the two `break`s.
    The lemmas prove the three agree. */
module Walker {
  import opened Wrappers
  import opened JsonValue
  import opened JsStrings

  /** The pair `deepFind` keeps in `ans`: the key that matched and its value. */
  datatype Match = Match(key: string, value: Json)

  /** `keys.some(key => low === key || low.includes(key))`. */
  function KeyMatches(low: string, keys: seq<string>): bool {
    if keys == [] then false
    else low == keys[0] || Contains(low, keys[0]) || KeyMatches(low, keys[1..])
  }

  /** The match rule: a lowercased key matches iff some candidate occurs in
      it; the `===` test is subsumed by `includes`. */
  lemma {:induction false} KeyMatchesMeaning(low: string, keys: seq<string>)
    ensures KeyMatches(low, keys) <==> exists c :: c in keys && Contains(low, c)
  {
    if keys != [] {
      KeyMatchesMeaning(low, keys[1..]);
      assert keys[0] in keys;
      assert forall c :: c in keys[1..] ==> c in keys;
      if low == keys[0] {
        ContainsSelf(low);
      }
      if exists c :: c in keys && Contains(low, c) {
        var c :| c in keys && Contains(low, c);
        assert c == keys[0] || c in keys[1..];
      }
    }
  }

  /** A key no candidate occurs in is no match. */
  lemma KeyMatchesNone(low: string, keys: seq<string>)
    requires forall c :: c in keys ==> !Contains(low, c)
    ensures !KeyMatches(low, keys)
  {
    KeyMatchesMeaning(low, keys);
  }

  /** The key test of line 23-24: the key is lowercased, then matched. */
  predicate IsHit(k: string, keys: seq<string>) {
    KeyMatches(Lower(k), keys)
  }

  /** Two candidate lists accept exactly the same lowercased keys. */
  ghost predicate SameMatches(keys1: seq<string>, keys2: seq<string>) {
    forall low :: KeyMatches(low, keys1) == KeyMatches(low, keys2)
  }

  // ---------------------------------------------------------------------------
  // The walk, as recursive functions

  /** `walk(o)` started with `ans` unset: what `ans` is afterwards. Falsy
      values and non-objects are not descended; arrays are walked by index. */
  function Find(j: Json, keys: seq<string>): (r: Option<Match>)
    decreases Size(j), 1
    ensures r.Some? ==> IsHit(r.value.key, keys)
  {
    if !Truthy(j) || !IsObject(j) then None else FindFrom(j, 0, keys)
  }

  /** The `for ... of` loop of `walk(j)` from the i-th key on, `ans` unset. */
  function FindFrom(j: Json, i: nat, keys: seq<string>): (r: Option<Match>)
    decreases Size(j), 0, Count(j) - i
    ensures r.Some? ==> IsHit(r.value.key, keys)
  {
    if i >= Count(j) then None
    else
      var k := KeyAt(j, i);
      if IsHit(k, keys) then Some(Match(k, ValAt(j, i)))
      else
        var sub := Find(ValAt(j, i), keys);
        if sub.Some? then sub else FindFrom(j, i + 1, keys)
  }

  /** `ans?.value`: the matched value, `undefined` when nothing matched. */
  function ValueOf(m: Option<Match>): Option<Json> {
    match m
    case Some(m) => Some(m.value)
    case None => None
  }

  /** `deepFind(obj, keys)`. */
  function FindValue(j: Json, keys: seq<string>): Option<Json> {
    ValueOf(Find(j, keys))
  }

  /** The keys `walk(j)` tests, in order, when started with `ans` unset. */
  function Tested(j: Json, keys: seq<string>): seq<string>
    decreases Size(j), 1
  {
    if !Truthy(j) || !IsObject(j) then [] else TestedFrom(j, 0, keys)
  }

  function TestedFrom(j: Json, i: nat, keys: seq<string>): seq<string>
    decreases Size(j), 0, Count(j) - i
  {
    if i >= Count(j) then []
    else
      var k := KeyAt(j, i);
      if IsHit(k, keys) then [k]
      else
        var v := ValAt(j, i);
        [k] + Tested(v, keys) + (if Find(v, keys).Some? then [] else TestedFrom(j, i + 1, keys))
  }

  // ---------------------------------------------------------------------------
  // Reference definition: the first hit among all entries in document order

  /** Every (key, value) entry of the tree in pre-order: an entry, then the
      entries below its value, then its next sibling. */
  function Preorder(j: Json): seq<(string, Json)>
    decreases Size(j), 1
  {
    PreorderFrom(j, 0)
  }

  function PreorderFrom(j: Json, i: nat): seq<(string, Json)>
    decreases Size(j), 0, Count(j) - i
  {
    if i >= Count(j) then []
    else [(KeyAt(j, i), ValAt(j, i))] + Preorder(ValAt(j, i)) + PreorderFrom(j, i + 1)
  }

  /** Position of the first entry whose key is a hit, or |s| if none is. */
  function FirstIndex(s: seq<(string, Json)>, keys: seq<string>): (n: nat)
    ensures n <= |s|
    ensures n < |s| ==> IsHit(s[n].0, keys)
    ensures forall m :: 0 <= m < n ==> !IsHit(s[m].0, keys)
  {
    if s == [] then 0
    else if IsHit(s[0].0, keys) then 0
    else 1 + FirstIndex(s[1..], keys)
  }

  /** The entry at the first hit, if there is one. */
  function FirstMatch(s: seq<(string, Json)>, keys: seq<string>): Option<Match> {
    var n := FirstIndex(s, keys);
    if n < |s| then Some(Match(s[n].0, s[n].1)) else None
  }

  /** The keys a left-to-right scan of `s` tests when it stops at the first hit. */
  function Scan(s: seq<(string, Json)>, keys: seq<string>): seq<string> {
    if s == [] then []
    else [s[0].0] + (if IsHit(s[0].0, keys) then [] else Scan(s[1..], keys))
  }

  /** A stopping scan tests the keys of `s` from the start up to and including
      the first hit, or every key when nothing hits. */
  lemma {:induction false} ScanMeaning(s: seq<(string, Json)>, keys: seq<string>)
    ensures |Scan(s, keys)| == if FirstIndex(s, keys) < |s| then FirstIndex(s, keys) + 1 else |s|
    ensures forall m :: 0 <= m < |Scan(s, keys)| ==> Scan(s, keys)[m] == s[m].0
  {
    if s != [] && !IsHit(s[0].0, keys) {
      ScanMeaning(s[1..], keys);
    }
  }

  /** The first hit is the only position meeting the first-hit conditions. */
  lemma FirstIndexUnique(s: seq<(string, Json)>, keys: seq<string>, n: nat)
    requires n <= |s|
    requires n < |s| ==> IsHit(s[n].0, keys)
    requires forall m :: 0 <= m < n ==> !IsHit(s[m].0, keys)
    ensures FirstIndex(s, keys) == n
  {
  }

  /** The first hit in a concatenation: in the first part if it has one. */
  lemma FirstIndexConcat(a: seq<(string, Json)>, b: seq<(string, Json)>, keys: seq<string>)
    ensures FirstIndex(a + b, keys) ==
      if FirstIndex(a, keys) < |a| then FirstIndex(a, keys) else |a| + FirstIndex(b, keys)
  {
    var na, nb := FirstIndex(a, keys), FirstIndex(b, keys);
    if na < |a| {
      FirstIndexUnique(a + b, keys, na);
    } else {
      assert forall m :: |a| <= m < |a| + nb ==> (a + b)[m] == b[m - |a|];
      FirstIndexUnique(a + b, keys, |a| + nb);
    }
  }

  lemma FirstMatchConcat(a: seq<(string, Json)>, b: seq<(string, Json)>, keys: seq<string>)
    ensures FirstMatch(a + b, keys) == if FirstMatch(a, keys).Some? then FirstMatch(a, keys) else FirstMatch(b, keys)
  {
    FirstIndexConcat(a, b, keys);
    var nb := FirstIndex(b, keys);
    if FirstIndex(a, keys) == |a| && nb < |b| {
      assert (a + b)[|a| + nb] == b[nb];
    }
  }

  lemma {:induction false} ScanConcat(a: seq<(string, Json)>, b: seq<(string, Json)>, keys: seq<string>)
    ensures Scan(a + b, keys) == Scan(a, keys) + if FirstMatch(a, keys).Some? then [] else Scan(b, keys)
  {
    if a == [] {
      assert a + b == b;
    } else {
      var k := a[0].0;
      assert (a + b)[0] == a[0];
      assert (a + b)[1..] == a[1..] + b;
      if IsHit(k, keys) {
        assert FirstIndex(a, keys) == 0;
      } else {
        ScanConcat(a[1..], b, keys);
        FirstMatchTail(a, keys);
        ConcatAssoc([k], Scan(a[1..], keys), if FirstMatch(a[1..], keys).Some? then [] else Scan(b, keys));
      }
    }
  }

  /** Past a missed first entry, the first hit is the first hit of the rest. */
  lemma FirstMatchTail(a: seq<(string, Json)>, keys: seq<string>)
    requires a != [] && !IsHit(a[0].0, keys)
    ensures FirstMatch(a, keys) == FirstMatch(a[1..], keys)
  {
    var n := FirstIndex(a[1..], keys);
    assert FirstIndex(a, keys) == 1 + n;
    if n < |a[1..]| {
      assert a[1 + n] == a[1..][n];
    }
  }

  /** Walk order: the recursive walk returns the first hit of the pre-order
      entry list, and tests the keys a scan of that list stopping at the
      first hit tests: no key after it is tested, no subtree after it is
      entered. */
  lemma WalkOrder(j: Json, keys: seq<string>)
    ensures Find(j, keys) == FirstMatch(Preorder(j), keys)
    ensures Tested(j, keys) == Scan(Preorder(j), keys)
  {
    FindIsFirst(j, keys);
    TestedIsScan(j, keys);
  }

  lemma {:induction false} FindIsFirst(j: Json, keys: seq<string>)
    ensures Find(j, keys) == FirstMatch(Preorder(j), keys)
    decreases Size(j), 1
  {
    if Truthy(j) && IsObject(j) {
      FindFromIsFirst(j, 0, keys);
    } else {
      assert Count(j) == 0;
    }
  }

  lemma {:induction false} FindFromIsFirst(j: Json, i: nat, keys: seq<string>)
    ensures FindFrom(j, i, keys) == FirstMatch(PreorderFrom(j, i), keys)
    decreases Size(j), 0, Count(j) - i
  {
    if i < Count(j) {
      var k, v := KeyAt(j, i), ValAt(j, i);
      FindIsFirst(v, keys);
      FindFromIsFirst(j, i + 1, keys);
      var pv, pr := Preorder(v), PreorderFrom(j, i + 1);
      ConcatAssoc([(k, v)], pv, pr);
      FirstMatchConcat([(k, v)], pv + pr, keys);
      FirstMatchConcat(pv, pr, keys);
      Single(k, v, keys);
      Step(j, i, keys);
    }
  }

  lemma {:induction false} TestedIsScan(j: Json, keys: seq<string>)
    ensures Tested(j, keys) == Scan(Preorder(j), keys)
    decreases Size(j), 1
  {
    if Truthy(j) && IsObject(j) {
      TestedFromIsScan(j, 0, keys);
    } else {
      assert Count(j) == 0;
    }
  }

  lemma {:induction false} TestedFromIsScan(j: Json, i: nat, keys: seq<string>)
    ensures TestedFrom(j, i, keys) == Scan(PreorderFrom(j, i), keys)
    decreases Size(j), 0, Count(j) - i
  {
    if i < Count(j) {
      var k, v := KeyAt(j, i), ValAt(j, i);
      FindIsFirst(v, keys);
      TestedIsScan(v, keys);
      TestedFromIsScan(j, i + 1, keys);
      var pv, pr := Preorder(v), PreorderFrom(j, i + 1);
      ConcatAssoc([(k, v)], pv, pr);
      ScanConcat([(k, v)], pv + pr, keys);
      ScanConcat(pv, pr, keys);
      Single(k, v, keys);
      Step(j, i, keys);
      if !IsHit(k, keys) {
        if Find(v, keys).Some? {
          ConcatAssoc([k], Scan(pv, keys), []);
        } else {
          ConcatAssoc([k], Scan(pv, keys), Scan(pr, keys));
        }
      }
    }
  }

  /** Regrouping a concatenation, stated on sequences of any element type. */
  lemma ConcatAssoc<T>(a: seq<T>, b: seq<T>, c: seq<T>)
    ensures a + (b + c) == (a + b) + c
    ensures a + [] == a
  {
  }

  lemma Single(k: string, v: Json, keys: seq<string>)
    ensures Scan([(k, v)], keys) == [k]
    ensures FirstMatch([(k, v)], keys) == if IsHit(k, keys) then Some(Match(k, v)) else None
  {
    assert [(k, v)][1..] == [];
  }

  /** One iteration of the walk's loop, unfolded. */
  lemma Step(j: Json, i: nat, keys: seq<string>)
    requires i < Count(j)
    ensures IsHit(KeyAt(j, i), keys) ==>
      FindFrom(j, i, keys) == Some(Match(KeyAt(j, i), ValAt(j, i))) && TestedFrom(j, i, keys) == [KeyAt(j, i)]
    ensures !IsHit(KeyAt(j, i), keys) && Find(ValAt(j, i), keys).Some? ==>
      FindFrom(j, i, keys) == Find(ValAt(j, i), keys) && TestedFrom(j, i, keys) == [KeyAt(j, i)] + Tested(ValAt(j, i), keys)
    ensures !IsHit(KeyAt(j, i), keys) && Find(ValAt(j, i), keys).None? ==>
      FindFrom(j, i, keys) == FindFrom(j, i + 1, keys)
      && TestedFrom(j, i, keys) == [KeyAt(j, i)] + Tested(ValAt(j, i), keys) + TestedFrom(j, i + 1, keys)
  {
  }

  /** The loop's bookkeeping for a hit at entry i, after keys `t` were tested. */
  lemma StepHit(j: Json, i: nat, keys: seq<string>, t: seq<string>)
    requires i < Count(j) && IsHit(KeyAt(j, i), keys)
    ensures FindFrom(j, i, keys) == Some(Match(KeyAt(j, i), ValAt(j, i)))
    ensures t + TestedFrom(j, i, keys) == t + [KeyAt(j, i)]
  {
    Step(j, i, keys);
  }

  /** The loop's bookkeeping for a miss at entry i, after keys `t` were tested
      and the value's subtree was walked. */
  lemma StepMiss(j: Json, i: nat, keys: seq<string>, t: seq<string>)
    requires i < Count(j) && !IsHit(KeyAt(j, i), keys)
    ensures var k, v := KeyAt(j, i), ValAt(j, i);
      && FindFrom(j, i, keys) == (if Find(v, keys).Some? then Find(v, keys) else FindFrom(j, i + 1, keys))
      && t + TestedFrom(j, i, keys) ==
           t + [k] + Tested(v, keys) + (if Find(v, keys).Some? then [] else TestedFrom(j, i + 1, keys))
  {
    var k, v := KeyAt(j, i), ValAt(j, i);
    Step(j, i, keys);
    var rest := if Find(v, keys).Some? then [] else TestedFrom(j, i + 1, keys);
    assert TestedFrom(j, i, keys) == [k] + Tested(v, keys) + rest;
    ConcatAssoc(t, [k] + Tested(v, keys), rest);
    ConcatAssoc(t, [k], Tested(v, keys));
  }

  /** A hit at entry i ends the walk of that container there. */
  lemma HitAt(j: Json, i: nat, keys: seq<string>)
    requires i < Count(j) && IsHit(KeyAt(j, i), keys)
    ensures FindFrom(j, i, keys) == Some(Match(KeyAt(j, i), ValAt(j, i)))
  {
  }

  /** A missed entry whose value is not an object is passed over. */
  lemma SkipLeaf(j: Json, i: nat, keys: seq<string>)
    requires i < Count(j) && !IsHit(KeyAt(j, i), keys) && !IsObject(ValAt(j, i))
    ensures FindFrom(j, i, keys) == FindFrom(j, i + 1, keys)
  {
  }

  /** Soundness: a found value is the value of a reachable entry whose key
      is a hit, and every entry before it in walk order misses. */
  lemma FindSound(j: Json, keys: seq<string>)
    requires Find(j, keys).Some?
    ensures exists n ::
              && 0 <= n < |Preorder(j)|
              && Preorder(j)[n] == (Find(j, keys).value.key, Find(j, keys).value.value)
              && IsHit(Preorder(j)[n].0, keys)
              && (forall m :: 0 <= m < n ==> !IsHit(Preorder(j)[m].0, keys))
  {
    WalkOrder(j, keys);
    var n := FirstIndex(Preorder(j), keys);
    assert Preorder(j)[n] == (Find(j, keys).value.key, Find(j, keys).value.value);
  }

  /** Absence: the search comes back empty iff no reachable key is a hit. */
  lemma FindAbsent(j: Json, keys: seq<string>)
    ensures Find(j, keys).None? <==> forall e :: e in Preorder(j) ==> !IsHit(e.0, keys)
  {
    WalkOrder(j, keys);
    var p := Preorder(j);
    if FirstIndex(p, keys) < |p| {
      assert p[FirstIndex(p, keys)] in p;
    }
  }

  /** A hit whose every predecessor in walk order misses is the result,
      whatever its value (a matched `null` or 0 ends the search too). */
  lemma FindFirst(j: Json, keys: seq<string>, n: nat)
    requires n < |Preorder(j)| && IsHit(Preorder(j)[n].0, keys)
    requires forall m :: 0 <= m < n ==> !IsHit(Preorder(j)[m].0, keys)
    ensures Find(j, keys) == Some(Match(Preorder(j)[n].0, Preorder(j)[n].1))
  {
    WalkOrder(j, keys);
    FirstIndexUnique(Preorder(j), keys, n);
  }

  // ---------------------------------------------------------------------------
  // The match rule

  /** The result depends on the candidates only through the keys they accept. */
  lemma {:induction false} FirstIndexSameMatches(s: seq<(string, Json)>, keys1: seq<string>, keys2: seq<string>)
    requires SameMatches(keys1, keys2)
    ensures FirstIndex(s, keys1) == FirstIndex(s, keys2)
  {
    FirstIndexUnique(s, keys2, FirstIndex(s, keys1));
  }

  lemma FindSameMatches(j: Json, keys1: seq<string>, keys2: seq<string>)
    requires SameMatches(keys1, keys2)
    ensures Find(j, keys1) == Find(j, keys2)
  {
    WalkOrder(j, keys1);
    WalkOrder(j, keys2);
    FirstIndexSameMatches(Preorder(j), keys1, keys2);
  }

  /** Dropping candidates that contain a kept candidate changes nothing: if
      `keys1` is drawn from `keys2` and every candidate of `keys2`, read as a
      key, is itself accepted by `keys1`, both lists accept the same keys. */
  lemma Subsumed(keys1: seq<string>, keys2: seq<string>)
    requires forall c :: c in keys1 ==> c in keys2
    requires forall c :: c in keys2 ==> KeyMatches(c, keys1)
    ensures SameMatches(keys1, keys2)
  {
    forall low ensures KeyMatches(low, keys1) == KeyMatches(low, keys2) {
      KeyMatchesMeaning(low, keys1);
      KeyMatchesMeaning(low, keys2);
      if KeyMatches(low, keys2) {
        var c :| c in keys2 && Contains(low, c);
        KeyMatchesMeaning(c, keys1);
        var d :| d in keys1 && Contains(c, d);
        ContainsTransitive(low, c, d);
      }
    }
  }

  /** Every candidate starts with a character other than a decimal digit. */
  predicate LetterLed(keys: seq<string>) {
    keys == [] || (|keys[0]| > 0 && !IsDigit(keys[0][0]) && LetterLed(keys[1..]))
  }

  lemma {:induction false} LetterLedMeaning(keys: seq<string>, c: string)
    requires LetterLed(keys) && c in keys
    ensures |c| > 0 && !IsDigit(c[0])
  {
    if c != keys[0] {
      assert c in keys[1..];
      LetterLedMeaning(keys[1..], c);
    }
  }

  /** An array's index keys never hit a candidate list whose candidates
      all start with a non-digit. */
  lemma IndexKeyMisses(i: nat, keys: seq<string>)
    requires LetterLed(keys)
    ensures !IsHit(IndexKey(i), keys)
  {
    var k := IndexKey(i);
    IndexKeyDigits(i);
    assert Lower(k) == k by {
      LowerMeaning(k);
      assert forall m :: 0 <= m < |k| ==> Lower(k)[m] == k[m];
    }
    KeyMatchesMeaning(k, keys);
    if IsHit(k, keys) {
      var c :| c in keys && Contains(k, c);
      LetterLedMeaning(keys, c);
      ContainsChars(k, c, 0);
      assert false;
    }
  }

  // ---------------------------------------------------------------------------
  // The imperative search

  /** The closure of one `deepFind` call: the candidate list, the captured
      mutable `ans`, and (ghost) the keys tested so far. */
  class Finder {
    const keys: seq<string>
    var ans: Option<Match>
    ghost var tested: seq<string>

    constructor (keys: seq<string>)
      ensures this.keys == keys && ans == None && tested == []
    {
      this.keys := keys;
      ans := None;
      tested := [];
    }

    /** `walk(o)`. Once `ans` is set nothing more is tested; otherwise the
        walk sets `ans` to the recursive `Find` and tests the keys `Tested`
        lists. */
    method Walk(o: Json)
      modifies this
      decreases Size(o)
      ensures old(ans).Some? ==> ans == old(ans) && tested == old(tested)
      ensures old(ans).None? ==> ans == Find(o, keys) && tested == old(tested) + Tested(o, keys)
    {
      if !Truthy(o) || ans.Some? {
        return;
      }
      if !IsObject(o) {
        return;
      }
      assert Find(o, keys) == FindFrom(o, 0, keys) && Tested(o, keys) == TestedFrom(o, 0, keys);
      var n := Count(o);
      var i := 0;
      while i < n
        invariant 0 <= i <= n
        invariant ans.Some? ==> FindFrom(o, 0, keys) == ans
        invariant ans.None? ==> FindFrom(o, 0, keys) == FindFrom(o, i, keys)
        invariant ans.Some? ==> old(tested) + TestedFrom(o, 0, keys) == tested
        invariant ans.None? ==> old(tested) + TestedFrom(o, 0, keys) == tested + TestedFrom(o, i, keys)
      {
        if ans.Some? {
          break;
        }
        var k := KeyAt(o, i);
        var low := Lower(k);
        ghost var before := tested;
        tested := tested + [k];
        if KeyMatches(low, keys) {
          ans := Some(Match(k, ValAt(o, i)));
          StepHit(o, i, keys, before);
          break;
        }
        var v := ValAt(o, i);
        Walk(v);
        StepMiss(o, i, keys, before);
        assert ans.None? ==> FindFrom(o, i, keys) == FindFrom(o, i + 1, keys);
        i := i + 1;
      }
    }
  }

  /** `deepFind(obj, keys)`: the value of the first hit in walk order; the
      keys it tests are exactly those up to and including that hit. */
  method DeepFind(obj: Json, keys: seq<string>) returns (r: Option<Json>, ghost tested: seq<string>)
    ensures r == FindValue(obj, keys)
    ensures r.None? <==> forall e :: e in Preorder(obj) ==> !IsHit(e.0, keys)
    ensures r.Some? ==> r == Some(FirstMatch(Preorder(obj), keys).value.value)
    ensures |tested| == if r.Some? then FirstIndex(Preorder(obj), keys) + 1 else |Preorder(obj)|
    ensures forall m :: 0 <= m < |tested| ==> tested[m] == Preorder(obj)[m].0
  {
    var f := new Finder(keys);
    f.Walk(obj);
    r := if f.ans.Some? then Some(f.ans.value.value) else None;
    tested := f.tested;
    WalkOrder(obj, keys);
    FindAbsent(obj, keys);
    ScanMeaning(Preorder(obj), keys);
  }
}
