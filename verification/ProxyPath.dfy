/** From a request path to the name of a bucket object: every branch of `parseProxyTarget`. */
module ProxyPath {
  import opened Common
  import opened Text

  // ---- fragments -----------------------------------------------------------------------

  predicate IsLowerWord(c: char) { 'a' <= c <= 'z' || IsDigit(c) }

  /** `[a-z0-9-]` */
  predicate IsProfileChar(c: char) { IsLowerWord(c) || c == '-' }

  /** `[A-Za-z0-9_]` */
  predicate IsTypeChar(c: char) { IsLowerWord(c) || 'A' <= c <= 'Z' || c == '_' }

  /** `[a-z0-9._-]` */
  predicate IsSegmentChar(c: char) { IsLowerWord(c) || c == '.' || c == '_' || c == '-' }

  predicate IsProfile(s: string) { s != "" && forall c <- s :: IsProfileChar(c) }

  predicate IsTypeName(s: string) { s != "" && forall c <- s :: IsTypeChar(c) }

  predicate IsSegment(s: string) { s != "" && forall c <- s :: IsSegmentChar(c) }

  predicate Includes(s: string, part: string) {
    exists i | 0 <= i <= |s| :: StartsAt(s, i, part)
  }

  predicate StartsAt(s: string, i: nat, part: string) {
    i + |part| <= |s| && s[i..i + |part|] == part
  }

  /** The first index of `c`, or the length. */
  function IndexOf(s: string, c: char): (k: nat)
    ensures k <= |s| && c !in s[..k] && (k < |s| ==> s[k] == c)
  {
    if s == "" || s[0] == c then 0 else 1 + IndexOf(s[1..], c)
  }

  /** JavaScript's `split` on one character. */
  function Split(s: string, c: char): (parts: seq<string>)
    ensures |parts| > 0
    decreases |s|
  {
    var k := IndexOf(s, c);
    if k == |s| then [s] else [s[..k]] + Split(s[k + 1..], c)
  }

  // ---- keys ----------------------------------------------------------------------------

  const SUFFIX := ".json"

  /** `<chain>__<address>__<selector>`: the last two parts have fixed widths. */
  predicate IsCallKey(s: string) {
    && |s| > 56
    && IsPositiveDecimal(s[..|s| - 56]) && s[|s| - 56..|s| - 54] == "__"
    && IsHexWord(s[|s| - 54..|s| - 12], 40) && s[|s| - 12..|s| - 10] == "__"
    && IsHexWord(s[|s| - 10..], 8)
  }

  predicate IsSelectorKey(s: string) {
    |s| > 12 && IsPositiveDecimal(s[..|s| - 12]) && s[|s| - 12..|s| - 10] == "__" && IsHexWord(s[|s| - 10..], 8)
  }

  /** `<chain>__<address>__<type>`: the chain ends at the first underscore. */
  predicate IsTypedDataKey(s: string) {
    var k := IndexOf(s, '_');
    && k + 46 < |s|
    && IsPositiveDecimal(s[..k]) && s[k..k + 2] == "__"
    && IsHexWord(s[k + 2..k + 44], 40) && s[k + 44..k + 46] == "__"
    && IsTypeName(s[k + 46..])
  }

  predicate IsTokenName(s: string) {
    var k := IndexOf(s, '/');
    0 < k < |s| && IsPositiveDecimal(s[..k]) && IsHexWord(s[k + 1..], 40)
  }

  predicate IsFileOf(s: string, suffix: string) {
    EndsWith(s, suffix) && IsHexWord(s[..|s| - |suffix|], 64)
  }

  predicate IsScamSequence(s: string) {
    s == "0" || (IsPositiveDecimal(s) && |s| <= 78)
  }

  /** The version of `<profile>/<version>.json`, if it has that shape. */
  function PolicyVersion(s: string): Option<string> {
    var k := IndexOf(s, '/');
    if k < |s| && IsProfile(s[..k]) && EndsWith(s[k + 1..], SUFFIX) then Some(s[k + 1..|s| - |SUFFIX|]) else None
  }

  predicate IsPolicyName(s: string) {
    var version := PolicyVersion(s);
    version.Some? && (version.value == "latest" || IsPositiveDecimal(version.value))
  }

  /** The version of `<env>/<profile>/<version>.json`, if it has that shape. */
  function ScamVersion(s: string): Option<string> {
    var k := IndexOf(s, '/');
    if k < |s| && (s[..k] == "staging" || s[..k] == "production") && IndexOf(s[k + 1..], '/') <= 128 then PolicyVersion(s[k + 1..]) else None
  }

  predicate IsScamName(s: string) {
    var version := ScamVersion(s);
    version.Some? && (version.value == "latest" || IsScamSequence(version.value))
  }

  /** `<scope...>/<chain>/<address>.json` with at least two scope segments. */
  predicate IsContextName(s: string) {
    var parts := Split(s, '/');
    var n := |parts|;
    && n >= 4 && EndsWith(parts[n - 1], SUFFIX)
    && IsHexWord(parts[n - 1][..|parts[n - 1]| - |SUFFIX|], 40)
    && IsPositiveDecimal(parts[n - 2])
    && forall i | 0 <= i < n - 2 :: IsSegment(parts[i])
  }

  // ---- the parser ----------------------------------------------------------------------

  datatype Root = CallKeys | TypedData | Selectors | Tokens | Bundles | Signatures | Policies | Scams | Contexts

  const ROOTS := [CallKeys, TypedData, Selectors, Tokens, Bundles, Signatures, Policies, Scams, Contexts]

  function Prefix(r: Root): string {
    match r
    case CallKeys => "index/by-callkey/"
    case TypedData => "index/by-typed-data/"
    case Selectors => "index/by-selector/"
    case Tokens => "tokens/"
    case Bundles => "bundles/"
    case Signatures => "signatures/"
    case Policies => "policy-bundles/"
    case Scams => "scam-bundles/"
    case Contexts => "contexts/"
  }

  predicate Under(prefix: string, path: string) {
    |prefix| < |path| && path[0] == '/' && path[1..1 + |prefix|] == prefix
  }

  predicate NeedsSuffix(r: Root) {
    r.CallKeys? || r.TypedData? || r.Selectors? || r.Tokens? || r.Contexts?
  }

  /** What follows the prefix, with `.json` already cut off where the branch cuts it. */
  predicate Accepts(r: Root, name: string) {
    match r
    case CallKeys => IsCallKey(name)
    case TypedData => IsTypedDataKey(name)
    case Selectors => IsSelectorKey(name)
    case Tokens => IsTokenName(name)
    case Bundles => IsFileOf(name, SUFFIX)
    case Signatures => IsFileOf(name, ".sig")
    case Policies => IsPolicyName(name)
    case Scams => IsScamName(name)
    case Contexts => IsContextName(name)
  }

  predicate CutsSuffix(r: Root) { NeedsSuffix(r) && !r.Contexts? }

  function Tail(r: Root): string { if CutsSuffix(r) then SUFFIX else "" }

  /** The object name a branch puts together again from what it matched; the tokens branch had cut it at a slash. */
  function Rebuild(cut: Option<nat>, prefix: string, name: string, tail: string): string
    requires cut.Some? ==> cut.value < |name|
  {
    match cut
    case None => prefix + name + tail
    case Some(k) => prefix + name[..k] + "/" + name[k + 1..] + tail
  }

  function CutOf(r: Root, name: string): Option<nat> {
    if r.Tokens? then Some(IndexOf(name, '/')) else None
  }

  predicate Guard(r: Root, path: string) {
    Under(Prefix(r), path) && (NeedsSuffix(r) ==> EndsWith(path, SUFFIX))
  }

  /** The branch of one root, whose prefix and cut-off suffix are given. */
  function ParseUnder(r: Root, prefix: string, tail: string, path: string): Option<string>
    requires Under(prefix, path)
  {
    var start, end := 1 + |prefix|, |path| - |tail|;
    if end < start || path[end..] != tail || !Accepts(r, path[start..end]) then None
    else Some(Rebuild(CutOf(r, path[start..end]), prefix, path[start..end], tail))
  }

  /** The branches in the order they are tried: the first whose guard holds decides. */
  function ParseFrom(roots: seq<Root>, path: string): Option<string> {
    if roots == [] then None
    else if Guard(roots[0], path) then ParseUnder(roots[0], Prefix(roots[0]), Tail(roots[0]), path)
    else ParseFrom(roots[1..], path)
  }

  function ParseProxyTarget(path: string): Option<string> {
    if Includes(path, "..") || Includes(path, "%") then None else ParseFrom(ROOTS, path)
  }

  predicate IsNumberedPolicy(prefix: string, path: string) {
    Under(prefix, path) && var v := PolicyVersion(path[1 + |prefix|..]); v.Some? && IsPositiveDecimal(v.value)
  }

  predicate IsNumberedScam(prefix: string, path: string) {
    Under(prefix, path) && var v := ScamVersion(path[1 + |prefix|..]); v.Some? && IsScamSequence(v.value)
  }

  /** The immutable leaves: named by a hash, or by a sequence that is never reused. */
  predicate IsContentAddressed(path: string) {
    || Under(Prefix(Bundles), path)
    || Under(Prefix(Signatures), path)
    || IsNumberedPolicy(Prefix(Policies), path)
    || IsNumberedScam(Prefix(Scams), path)
  }

  // ---- what it accepts -----------------------------------------------------------------

  lemma Regroup(prefix: string, a: string, b: string, c: string, tail: string)
    ensures prefix + (a + b + c) + tail == prefix + a + b + c + tail
  {
  }

  lemma Cut(name: string, k: nat)
    requires k < |name|
    ensures name == name[..k] + [name[k]] + name[k + 1..]
  {
  }

  lemma RebuildIsTheName(cut: Option<nat>, prefix: string, name: string, tail: string)
    requires cut.Some? ==> cut.value < |name| && name[cut.value] == '/'
    ensures Rebuild(cut, prefix, name, tail) == prefix + name + tail
  {
    if cut.Some? {
      var k := cut.value;
      Cut(name, k);
      Regroup(prefix, name[..k], [name[k]], name[k + 1..], tail);
      assert [name[k]] == "/";
    }
  }

  lemma RebuildsThePath(path: string, i: nat, j: nat, prefix: string, tail: string, cut: Option<nat>)
    requires 0 < i <= j <= |path| && path[0] == '/' && path[1..i] == prefix && path[j..] == tail
    requires cut.Some? ==> cut.value < j - i && path[i..j][cut.value] == '/'
    ensures path == ['/'] + Rebuild(cut, prefix, path[i..j], tail)
  {
    RebuildIsTheName(cut, prefix, path[i..j], tail);
    assert path == path[..1] + path[1..i] + path[i..j] + path[j..];
  }

  lemma AcceptsGives(r: Root, name: string)
    requires Accepts(r, name)
    ensures CutOf(r, name).Some? ==> CutOf(r, name).value < |name| && name[CutOf(r, name).value] == '/'
  {
  }

  lemma ParseUnderIsItself(r: Root, prefix: string, tail: string, path: string)
    requires Under(prefix, path) && ParseUnder(r, prefix, tail, path).Some?
    ensures path == ['/'] + ParseUnder(r, prefix, tail, path).value
  {
    var start, end := 1 + |prefix|, |path| - |tail|;
    AcceptsGives(r, path[start..end]);
    RebuildsThePath(path, start, end, prefix, tail, CutOf(r, path[start..end]));
  }

  lemma {:induction false} ParseFromIsItself(roots: seq<Root>, path: string)
    requires ParseFrom(roots, path).Some?
    ensures path == ['/'] + ParseFrom(roots, path).value
    ensures exists r <- roots :: Guard(r, path) && ParseUnder(r, Prefix(r), Tail(r), path).Some?
  {
    var r := roots[0];
    if Guard(r, path) {
      ParseUnderIsItself(r, Prefix(r), Tail(r), path);
      assert r in roots;
    } else {
      ParseFromIsItself(roots[1..], path);
    }
  }

  /** No two prefixes overlap, so at most one branch can be taken. */
  lemma PrefixesAreDisjoint(r: Root, q: Root, path: string)
    requires Under(Prefix(r), path) && Under(Prefix(q), path)
    ensures r == q
  {
    var p, o := Prefix(r), Prefix(q);
    assert path[1] == p[0] == o[0] && path[2] == p[1] == o[1];
    if |p| > 9 && |o| > 9 {
      assert path[10] == p[9] == o[9];
    }
  }

  lemma {:induction false} ParseFromFinds(roots: seq<Root>, r: Root, path: string)
    requires r in roots && Guard(r, path)
    ensures ParseFrom(roots, path) == ParseUnder(r, Prefix(r), Tail(r), path)
  {
    if Guard(roots[0], path) {
      PrefixesAreDisjoint(r, roots[0], path);
    } else {
      ParseFromFinds(roots[1..], r, path);
    }
  }

  /** An accepted path names the object that is read, and fits the grammar of one of the nine roots. */
  lemma TargetIsThePath(path: string)
    requires ParseProxyTarget(path).Some?
    ensures path == ['/'] + ParseProxyTarget(path).value && !Includes(path, "..") && !Includes(path, "%")
    ensures exists r <- ROOTS :: Guard(r, path) && ParseUnder(r, Prefix(r), Tail(r), path).Some?
  {
    ParseFromIsItself(ROOTS, path);
  }

  lemma EveryRootIsTried(r: Root)
    ensures r in ROOTS
  {
    var i := match r
      case CallKeys => 0
      case TypedData => 1
      case Selectors => 2
      case Tokens => 3
      case Bundles => 4
      case Signatures => 5
      case Policies => 6
      case Scams => 7
      case Contexts => 8;
    assert ROOTS[i] == r;
  }

  /** And a path that fits the grammar of one root is accepted, whatever branches come before. */
  lemma GrammarIsAccepted(r: Root, path: string)
    requires Guard(r, path) && ParseUnder(r, Prefix(r), Tail(r), path).Some?
    requires !Includes(path, "..") && !Includes(path, "%")
    ensures ParseProxyTarget(path).Some? && path == ['/'] + ParseProxyTarget(path).value
  {
    EveryRootIsTried(r);
    ParseFromFinds(ROOTS, r, path);
    ParseFromIsItself(ROOTS, path);
  }
}
