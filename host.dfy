/** The request gate of lines 39-43: which upstream URL the proxy agrees to
    fetch. The URL comes from the `url` query parameter or, failing that, from
    the `CRICHEROES_URL` environment variable; both are passed in. */
module HostCheck {
  import opened Wrappers
  import opened JsStrings

  /** One element of a regular expression built from literals. */
  datatype Piece =
    | Lit(text: string)   // the characters themselves (`\/` and `\.` are escapes)
    | Opt(text: string)   // a group `(…)?` around a literal

  const Scheme: string := "https://"
  const Www: string := "www."
  const HostPath: string := "cricheroes.com/_next/data/"

  /** `/^https:\/\/(www\.)?cricheroes\.com\/_next\/data\//`, after the anchor. */
  const HostRegex: seq<Piece> := [Lit(Scheme), Opt(Www), Lit(HostPath)]

  /** The two URL prefixes the expression admits. */
  const BarePrefix: string := Scheme + HostPath
  const WwwPrefix: string := Scheme + (Www + HostPath)

  /** Backtracking match of `pat` against `s` from position `at`: a literal
      must occur there, an optional group is tried first present and then
      absent. The expression has no `$`, so whatever follows is ignored. */
  predicate MatchFrom(s: string, pat: seq<Piece>, at: nat)
    decreases |pat|
  {
    if pat == [] then true
    else match pat[0]
      case Lit(t) => OccursAt(s, t, at) && MatchFrom(s, pat[1..], at + |t|)
      case Opt(t) =>
        (OccursAt(s, t, at) && MatchFrom(s, pat[1..], at + |t|)) || MatchFrom(s, pat[1..], at)
  }

  /** `re.test(url)` for the anchored expression of line 42. */
  predicate HostAllowed(url: string) {
    MatchFrom(url, HostRegex, 0)
  }

  lemma OccursAtJoin(s: string, a: string, b: string, at: nat)
    ensures OccursAt(s, a, at) && OccursAt(s, b, at + |a|) <==> OccursAt(s, a + b, at)
  {
    if OccursAt(s, a + b, at) {
      assert s[at..at + |a|] == (a + b)[..|a|];
      assert s[at + |a|..at + |a| + |b|] == (a + b)[|a|..];
    }
    if OccursAt(s, a, at) && OccursAt(s, b, at + |a|) {
      assert s[at..at + |a| + |b|] == s[at..at + |a|] + s[at + |a|..at + |a| + |b|];
    }
  }

  lemma HostAllowedUnfolded(url: string)
    ensures HostAllowed(url) <==>
      OccursAt(url, Scheme, 0) &&
        ((OccursAt(url, Www, |Scheme|) && OccursAt(url, HostPath, |Scheme| + |Www|))
         || OccursAt(url, HostPath, |Scheme|))
  {
    var p1, p2 := [Opt(Www), Lit(HostPath)], [Lit(HostPath)];
    assert HostRegex[0] == Lit(Scheme) && HostRegex[1..] == p1;
    assert p1[0] == Opt(Www) && p1[1..] == p2;
    assert p2[0] == Lit(HostPath) && p2[1..] == [];
    var a, b := |Scheme|, |Scheme| + |Www|;
    assert MatchFrom(url, p2, a) == OccursAt(url, HostPath, a);
    assert MatchFrom(url, p2, b) == OccursAt(url, HostPath, b);
    assert MatchFrom(url, p1, a) == ((OccursAt(url, Www, a) && MatchFrom(url, p2, b)) || MatchFrom(url, p2, a));
    assert MatchFrom(url, HostRegex, 0) == (OccursAt(url, Scheme, 0) && MatchFrom(url, p1, a));
  }

  /** The expression is nothing more than a test for one of two prefixes. */
  lemma HostAllowedIsPrefixTest(url: string)
    ensures HostAllowed(url) <==> StartsWith(url, BarePrefix) || StartsWith(url, WwwPrefix)
  {
    HostAllowedUnfolded(url);
    OccursAtJoin(url, Scheme, HostPath, 0);
    OccursAtJoin(url, Www, HostPath, |Scheme|);
    OccursAtJoin(url, Scheme, Www + HostPath, 0);
  }

  /** One differing position rules a prefix out. */
  lemma DiffersAt(s: string, t: string, i: nat)
    requires i < |s| && i < |t| && s[i] != t[i]
    ensures !StartsWith(s, t)
  {
    if |t| <= |s| {
      assert s[..|t|][i] != t[i];
    }
  }

  /** A URL differing from each prefix somewhere within it is refused. */
  lemma RefusedAt(u: string, i: nat, j: nat)
    requires i < |u| && i < |BarePrefix| && u[i] != BarePrefix[i]
    requires j < |u| && j < |WwwPrefix| && u[j] != WwwPrefix[j]
    ensures !HostAllowed(u)
  {
    HostAllowedIsPrefixTest(u);
    DiffersAt(u, BarePrefix, i);
    DiffersAt(u, WwwPrefix, j);
  }

  /** Another scheme is refused. */
  lemma PlainHttpRejected()
    ensures !HostAllowed("http://cricheroes.com/_next/data/x.json")
  {
    var u := "http://cricheroes.com/_next/data/x.json";
    RefusedAt(u, 4, 4);
  }

  /** The expression has no `i` flag: an upper-case scheme is refused. */
  lemma UpperCaseRejected()
    ensures !HostAllowed("HTTPS://cricheroes.com/_next/data/x.json")
  {
    var u := "HTTPS://cricheroes.com/_next/data/x.json";
    RefusedAt(u, 0, 0);
  }

  /** A host that merely starts with the allowed name is refused. */
  lemma LookalikeHostRejected()
    ensures !HostAllowed("https://cricheroes.com.a.io/_next/data/")
  {
    var u := "https://cricheroes.com.a.io/_next/data/";
    RefusedAt(u, 22, 8);
  }

  /** The allowed prefix later in the URL does not count: the match is anchored. */
  lemma EmbeddedPrefixRejected()
    ensures !HostAllowed("https://a.io/?https://cricheroes.com/_next/data/")
  {
    var u := "https://a.io/?https://cricheroes.com/_next/data/";
    RefusedAt(u, 8, 8);
  }

  /** Only a prefix is checked: any path after it is let through. */
  lemma HostAllowsAnySuffix(suffix: string)
    ensures HostAllowed(BarePrefix + suffix) && HostAllowed(WwwPrefix + suffix)
  {
    HostAllowedIsPrefixTest(BarePrefix + suffix);
    HostAllowedIsPrefixTest(WwwPrefix + suffix);
    assert (BarePrefix + suffix)[..|BarePrefix|] == BarePrefix;
    assert (WwwPrefix + suffix)[..|WwwPrefix|] == WwwPrefix;
  }

  /** The outcome of the gate: the URL to fetch, or a 400 response. */
  datatype Gate =
    | Accepted(target: string)
    | Rejected(status: nat, error: string)

  /** `string || string` in JavaScript: the first unless it is missing or "". */
  function OrText(a: Option<string>, b: Option<string>): Option<string> {
    if a.Some? && a.value != "" then a else b
  }

  /** Lines 39-43. */
  function CheckTarget(queryUrl: Option<string>, envUrl: Option<string>): (g: Gate)
    ensures g.Accepted? ==> HostAllowed(g.target)
    ensures g.Rejected? ==> g.status == 400
  {
    var target := OrText(queryUrl, envUrl);
    if target.None? || target.value == "" then Rejected(400, "Missing url")
    else if !HostAllowed(target.value) then Rejected(400, "Invalid host")
    else Accepted(target.value)
  }

  /** The query parameter wins whenever it is non-empty; the environment
      variable is consulted only when it is missing or empty. */
  lemma CheckTargetChoosesUrl(queryUrl: Option<string>, envUrl: Option<string>)
    ensures var g := CheckTarget(queryUrl, envUrl);
      && (queryUrl.Some? && queryUrl.value != "" ==>
            g == if HostAllowed(queryUrl.value) then Accepted(queryUrl.value) else Rejected(400, "Invalid host"))
      && (!(queryUrl.Some? && queryUrl.value != "") ==>
            g == CheckTarget(envUrl, None))
  {
  }

  /** "Missing url" exactly when neither source gives a non-empty string;
      otherwise "Invalid host" exactly when that string fails the prefix test. */
  lemma CheckTargetErrors(queryUrl: Option<string>, envUrl: Option<string>)
    ensures var g := CheckTarget(queryUrl, envUrl);
      && (g == Rejected(400, "Missing url") <==>
            !(queryUrl.Some? && queryUrl.value != "") && !(envUrl.Some? && envUrl.value != ""))
      && (g == Rejected(400, "Invalid host") <==>
            var t := OrText(queryUrl, envUrl);
            t.Some? && t.value != "" && !(StartsWith(t.value, BarePrefix) || StartsWith(t.value, WwwPrefix)))
  {
    var t := OrText(queryUrl, envUrl);
    if t.Some? {
      HostAllowedIsPrefixTest(t.value);
    }
  }
}
