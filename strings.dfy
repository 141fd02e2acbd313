/** The string operations the extractor calls: `toLowerCase`, `includes`
    and the anchored prefix a regular expression tests. */
module JsStrings {

  /** `toLowerCase` on one character, restricted to ASCII letters. */
  function LowerChar(c: char): char {
    if 'A' <= c <= 'Z' then (c as int + 32) as char else c
  }

  /** `s.toLowerCase()` for ASCII text. */
  function Lower(s: string): string {
    if s == [] then [] else [LowerChar(s[0])] + Lower(s[1..])
  }

  /** Lowercasing maps each character on its own and keeps the length. */
  lemma {:induction false} LowerMeaning(s: string)
    ensures |Lower(s)| == |s|
    ensures forall i :: 0 <= i < |s| ==> Lower(s)[i] == LowerChar(s[i])
  {
    if s != [] {
      LowerMeaning(s[1..]);
    }
  }

  /** No character of `s` is an upper-case ASCII letter. */
  predicate NoCapitals(s: string) {
    s == [] || (!('A' <= s[0] <= 'Z') && NoCapitals(s[1..]))
  }

  /** Text without upper-case ASCII letters is its own lowercase form. */
  lemma {:induction false} LowerOfLowercase(s: string)
    requires NoCapitals(s)
    ensures Lower(s) == s
  {
    if s != [] {
      LowerOfLowercase(s[1..]);
    }
  }

  /** Lowercasing distributes over concatenation. */
  lemma {:induction false} LowerConcat(a: string, b: string)
    ensures Lower(a + b) == Lower(a) + Lower(b)
  {
    if a == [] {
      assert a + b == b;
    } else {
      assert (a + b)[0] == a[0];
      assert (a + b)[1..] == a[1..] + b;
      LowerConcat(a[1..], b);
      assert Lower(a + b) == [LowerChar(a[0])] + (Lower(a[1..]) + Lower(b));
    }
  }

  /** Text with one upper-case letter at position `|a|`: only that letter changes. */
  lemma LowerOneCapital(a: string, c: char, b: string)
    requires NoCapitals(a) && NoCapitals(b)
    ensures Lower(a + [c] + b) == a + [LowerChar(c)] + b
  {
    calc {
      Lower(a + [c] + b);
      { LowerConcat(a + [c], b); }
      Lower(a + [c]) + Lower(b);
      { LowerConcat(a, [c]); }
      Lower(a) + Lower([c]) + Lower(b);
      { LowerOfLowercase(a); LowerOfLowercase(b); LowerSingle(c); }
      a + [LowerChar(c)] + b;
    }
  }

  lemma LowerSingle(c: char)
    ensures Lower([c]) == [LowerChar(c)]
  {
    assert [c][1..] == [];
  }

  /** `t` occurs in `s` starting at position `p`. */
  predicate OccursAt(s: string, t: string, p: nat) {
    p + |t| <= |s| && s[p..p + |t|] == t
  }

  predicate StartsWith(s: string, t: string) {
    |t| <= |s| && s[..|t|] == t
  }

  /** `s.includes(t)`. */
  function Contains(s: string, t: string): bool {
    if StartsWith(s, t) then true
    else if |s| <= |t| then false
    else Contains(s[1..], t)
  }

  /** `s.includes(t)` holds iff `t` occurs somewhere in `s`. */
  lemma {:induction false} ContainsMeaning(s: string, t: string)
    ensures Contains(s, t) <==> exists p: nat :: OccursAt(s, t, p)
  {
    if StartsWith(s, t) {
      assert OccursAt(s, t, 0);
    } else if |s| <= |t| {
      forall p: nat ensures !OccursAt(s, t, p) {
        assert |t| <= |s| ==> s[0..|t|] == s[..|t|];
      }
    } else {
      ContainsMeaning(s[1..], t);
      if Contains(s[1..], t) {
        var p: nat :| OccursAt(s[1..], t, p);
        assert s[p + 1..p + 1 + |t|] == s[1..][p..p + |t|];
        assert OccursAt(s, t, p + 1);
      }
      if exists p: nat :: OccursAt(s, t, p) {
        var p: nat :| OccursAt(s, t, p);
        assert p != 0;
        assert s[1..][p - 1..p - 1 + |t|] == s[p..p + |t|];
        assert OccursAt(s[1..], t, p - 1);
      }
    }
  }

  /** An occurrence at a known position is a containment. */
  lemma ContainsWitness(s: string, t: string, p: nat)
    requires OccursAt(s, t, p)
    ensures Contains(s, t)
  {
    ContainsMeaning(s, t);
  }

  /** A string contains every middle part of it. */
  lemma ContainsMiddle(a: string, t: string, b: string)
    ensures Contains(a + t + b, t)
  {
    var s := a + t + b;
    assert s[|a|..|a| + |t|] == t;
    ContainsWitness(s, t, |a|);
  }

  /** Every string contains itself, so `low === key` implies `low.includes(key)`. */
  lemma ContainsSelf(s: string)
    ensures Contains(s, s)
  {
    assert OccursAt(s, s, 0);
    ContainsMeaning(s, s);
  }

  /** Containment is transitive. */
  lemma ContainsTransitive(s: string, t: string, u: string)
    requires Contains(s, t) && Contains(t, u)
    ensures Contains(s, u)
  {
    ContainsMeaning(s, t);
    ContainsMeaning(t, u);
    ContainsMeaning(s, u);
    var p: nat :| OccursAt(s, t, p);
    var q: nat :| OccursAt(t, u, q);
    forall k | 0 <= k < |u|
      ensures s[p + q + k] == u[k]
    {
      assert u[k] == t[q..q + |u|][k] == t[q + k];
      assert t[q + k] == s[p..p + |t|][q + k];
    }
    assert s[p + q..p + q + |u|] == u;
    assert OccursAt(s, u, p + q);
  }

  /** Every character of a contained string occurs in the containing one. */
  lemma ContainsChars(s: string, t: string, m: nat)
    requires Contains(s, t) && m < |t|
    ensures exists n :: 0 <= n < |s| && s[n] == t[m]
  {
    ContainsMeaning(s, t);
    var p: nat :| OccursAt(s, t, p);
    assert s[p + m] == s[p..p + |t|][m];
  }

  /** So a string lacking one character of `t` does not contain `t`. */
  lemma LacksChar(s: string, t: string, m: nat)
    requires m < |t| && forall n :: 0 <= n < |s| ==> s[n] != t[m]
    ensures !Contains(s, t)
  {
    if Contains(s, t) {
      ContainsChars(s, t, m);
    }
  }
}
