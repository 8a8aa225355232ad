/**
 The paths the proxy accepts, said from their parts: which paths can be written, rather than
 how they are taken apart, and which of them are immutable leaves.
 */
module ProxyGrammar {
  import opened Common
  import opened Text
  import opened ProxyPath
  import M = Materialize

  datatype Parts =
    | CallKey(chain: string, address: string, selector: string)
    | TypedDataKey(chain: string, address: string, typeName: string)
    | SelectorKey(chain: string, selector: string)
    | Token(chain: string, address: string)
    | BundleFile(sha: string)
    | SignatureFile(sha: string)
    | PolicyFile(profile: string, version: string)
    | ScamFile(env: string, profile: string, version: string)
    | ContextFile(scopes: seq<string>, chain: string, address: string)

  /** What each part may be: chains without leading zeros, addresses, selectors and hashes in lower-case hex. */
  predicate PartsOk(p: Parts) {
    match p
    case CallKey(chain, address, selector) => IsPositiveDecimal(chain) && IsHexWord(address, 40) && IsHexWord(selector, 8)
    case TypedDataKey(chain, address, typeName) => IsPositiveDecimal(chain) && IsHexWord(address, 40) && IsTypeName(typeName)
    case SelectorKey(chain, selector) => IsPositiveDecimal(chain) && IsHexWord(selector, 8)
    case Token(chain, address) => IsPositiveDecimal(chain) && IsHexWord(address, 40)
    case BundleFile(sha) => IsHexWord(sha, 64)
    case SignatureFile(sha) => IsHexWord(sha, 64)
    case PolicyFile(profile, version) => IsProfile(profile) && (version == "latest" || IsPositiveDecimal(version))
    case ScamFile(env, profile, version) =>
      && env in ["staging", "production"] && IsProfile(profile) && |profile| <= 128
      && (version == "latest" || version == "0" || (IsPositiveDecimal(version) && |version| <= 78))
    case ContextFile(scopes, chain, address) =>
      |scopes| >= 2 && (forall scope <- scopes :: IsSegment(scope)) && IsPositiveDecimal(chain) && IsHexWord(address, 40)
  }

  function RootOf(p: Parts): Root {
    match p
    case CallKey(_, _, _) => CallKeys
    case TypedDataKey(_, _, _) => TypedData
    case SelectorKey(_, _) => Selectors
    case Token(_, _) => Tokens
    case BundleFile(_) => Bundles
    case SignatureFile(_) => Signatures
    case PolicyFile(_, _) => Policies
    case ScamFile(_, _, _) => Scams
    case ContextFile(_, _, _) => Contexts
  }

  /** What follows the root, up to the suffix of the index and token files. */
  function NameOf(p: Parts): string {
    match p
    case CallKey(chain, address, selector) => chain + "__" + address + "__" + selector
    case TypedDataKey(chain, address, typeName) => chain + "__" + address + "__" + typeName
    case SelectorKey(chain, selector) => chain + "__" + selector
    case Token(chain, address) => chain + "/" + address
    case BundleFile(sha) => sha + ".json"
    case SignatureFile(sha) => sha + ".sig"
    case PolicyFile(profile, version) => profile + "/" + (version + ".json")
    case ScamFile(env, profile, version) => env + "/" + (profile + "/" + (version + ".json"))
    case ContextFile(scopes, chain, address) => M.Joined(scopes) + (chain + "/" + (address + ".json"))
  }

  function SuffixOf(p: Parts): string {
    if p.CallKey? || p.TypedDataKey? || p.SelectorKey? || p.Token? then ".json" else ""
  }

  function RootName(p: Parts): string {
    match p
    case CallKey(_, _, _) => "index/by-callkey/"
    case TypedDataKey(_, _, _) => "index/by-typed-data/"
    case SelectorKey(_, _) => "index/by-selector/"
    case Token(_, _) => "tokens/"
    case BundleFile(_) => "bundles/"
    case SignatureFile(_) => "signatures/"
    case PolicyFile(_, _) => "policy-bundles/"
    case ScamFile(_, _, _) => "scam-bundles/"
    case ContextFile(_, _, _) => "contexts/"
  }

  /** The object the parts name. */
  function ObjectName(p: Parts): string { RootName(p) + NameOf(p) + SuffixOf(p) }

  /** The characters of type names, profiles, context scopes, numbers and hex words, one by one. */
  lemma CharacterClasses(c: char)
    ensures IsDigit(c) <==> c in "0123456789"
    ensures IsHexLower(c) <==> c in "0123456789abcdef"
    ensures IsLowerWord(c) <==> c in "abcdefghijklmnopqrstuvwxyz0123456789"
    ensures IsProfileChar(c) <==> IsLowerWord(c) || c in "-"
    ensures IsSegmentChar(c) <==> IsLowerWord(c) || c in "._-"
    ensures IsTypeChar(c) <==> IsLowerWord(c) || c in "ABCDEFGHIJKLMNOPQRSTUVWXYZ_"
  {
  }

  // ---- pieces of strings -----------------------------------------------------------------

  lemma FirstMark(a: string, mark: string, c: char, b: string)
    requires c !in a && mark == [c]
    ensures var s := a + mark + b; IndexOf(s, c) == |a| < |s| && s[..|a|] == a && s[|a| + 1..] == b && s[|a|] == c
  {
    var s := a + mark + b;
    assert s[|a|] == c && s[..|a|] == a;
  }

  lemma CutAt(s: string, k: nat)
    requires k < |s|
    ensures s == s[..k] + [s[k]] + s[k + 1..]
  {
  }

  lemma EndIs(a: string, end: string)
    ensures EndsWith(a + end, end) && (a + end)[..|a + end| - |end|] == a
  {
  }

  lemma CutEnd(s: string, end: string)
    requires EndsWith(s, end)
    ensures s == s[..|s| - |end|] + end
  {
  }

  lemma FromTheEnd(a: string, u: string, b: string, v: string, c: string)
    requires |u| == |v| == 2 && |b| == 42 && |c| == 10
    ensures var s := a + u + b + v + c;
            && |s| == |a| + 56 && s[..|s| - 56] == a && s[|s| - 56..|s| - 54] == u && s[|s| - 54..|s| - 12] == b
            && s[|s| - 12..|s| - 10] == v && s[|s| - 10..] == c
  {
  }

  lemma FromTheStart(a: string, u: string, b: string, v: string, c: string)
    requires |u| == |v| == 2 && |b| == 42
    ensures var s := a + u + b + v + c;
            && |s| == |a| + 46 + |c| && s[..|a|] == a && s[|a|..|a| + 2] == u && s[|a| + 2..|a| + 44] == b
            && s[|a| + 44..|a| + 46] == v && s[|a| + 46..] == c
  {
  }

  lemma TwoAreFromTheEnd(a: string, u: string, c: string)
    requires |u| == 2 && |c| == 10
    ensures var s := a + u + c; |s| == |a| + 12 && s[..|s| - 12] == a && s[|s| - 12..|s| - 10] == u && s[|s| - 10..] == c
  {
  }

  lemma Fives(s: string, i: nat, j: nat, k: nat, l: nat)
    requires i <= j <= k <= l <= |s|
    ensures s == s[..i] + s[i..j] + s[j..k] + s[k..l] + s[l..]
  {
  }

  // ---- written and taken apart -----------------------------------------------------------

  lemma CallKeyIsAccepted(chain: string, address: string, selector: string)
    requires IsPositiveDecimal(chain) && IsHexWord(address, 40) && IsHexWord(selector, 8)
    ensures IsCallKey(chain + "__" + address + "__" + selector)
  {
    FromTheEnd(chain, "__", address, "__", selector);
  }

  lemma CallKeyHasParts(s: string)
    requires IsCallKey(s)
    ensures s == s[..|s| - 56] + "__" + s[|s| - 54..|s| - 12] + "__" + s[|s| - 10..]
  {
    Fives(s, |s| - 56, |s| - 54, |s| - 12, |s| - 10);
  }

  lemma FirstOfTwoMarks(a: string, mark: string, u: string, rest: string, c: char)
    requires c !in a && mark == [c] && u == [c, c]
    ensures IndexOf(a + u + rest, c) == |a|
  {
    FirstMark(a, mark, c, mark + rest);
    assert a + u + rest == a + mark + (mark + rest);
  }

  lemma TypedDataIsAccepted(chain: string, address: string, typeName: string)
    requires IsPositiveDecimal(chain) && IsHexWord(address, 40) && IsTypeName(typeName)
    ensures IsTypedDataKey(chain + "__" + address + "__" + typeName)
  {
    FromTheStart(chain, "__", address, "__", typeName);
    assert '_' !in chain;
    FirstOfTwoMarks(chain, "_", "__", address + "__" + typeName, '_');
    Reassociated(chain + "__", address, "__", typeName);
  }

  lemma Reassociated(a: string, b: string, u: string, c: string)
    ensures a + (b + u + c) == a + b + u + c
  {
  }

  lemma TypedDataHasParts(s: string)
    requires IsTypedDataKey(s)
    ensures var k := IndexOf(s, '_');
            k + 46 < |s| && s == s[..k] + "__" + s[k + 2..k + 44] + "__" + s[k + 46..]
  {
    var k := IndexOf(s, '_');
    Fives(s, k, k + 2, k + 44, k + 46);
  }

  lemma SelectorIsAccepted(chain: string, selector: string)
    requires IsPositiveDecimal(chain) && IsHexWord(selector, 8)
    ensures IsSelectorKey(chain + "__" + selector)
  {
    TwoAreFromTheEnd(chain, "__", selector);
  }

  lemma SelectorHasParts(s: string)
    requires IsSelectorKey(s)
    ensures s == s[..|s| - 12] + "__" + s[|s| - 10..]
  {
    assert s == s[..|s| - 12] + s[|s| - 12..|s| - 10] + s[|s| - 10..];
  }

  lemma TokenIsAccepted(chain: string, address: string)
    requires IsPositiveDecimal(chain) && IsHexWord(address, 40)
    ensures IsTokenName(chain + "/" + address)
  {
    FirstMark(chain, "/", '/', address);
  }

  lemma TokenHasParts(s: string)
    requires IsTokenName(s)
    ensures var k := IndexOf(s, '/'); k < |s| && s == s[..k] + "/" + s[k + 1..]
  {
    CutAt(s, IndexOf(s, '/'));
  }

  lemma FileIsAccepted(sha: string, end: string)
    requires IsHexWord(sha, 64)
    ensures IsFileOf(sha + end, end)
  {
    EndIs(sha, end);
  }

  lemma PolicyVersionIs(profile: string, version: string, end: string)
    requires IsProfile(profile) && end == SUFFIX
    ensures PolicyVersion(profile + "/" + (version + end)) == Some(version)
  {
    var s := profile + "/" + (version + end);
    FirstMark(profile, "/", '/', version + end);
    EndIs(version, end);
    assert s[|profile| + 1..|s| - |end|] == s[|profile| + 1..][..|version + end| - |end|];
  }

  lemma SlashedFile(s: string, k: nat, end: string)
    requires k < |s| && s[k] == '/' && EndsWith(s[k + 1..], end)
    ensures s == s[..k] + "/" + (s[k + 1..|s| - |end|] + end)
  {
    CutAt(s, k);
    CutEnd(s[k + 1..], end);
    assert s[k + 1..][..|s[k + 1..]| - |end|] == s[k + 1..|s| - |end|];
  }

  lemma PolicyHasParts(s: string)
    requires PolicyVersion(s).Some?
    ensures var k := IndexOf(s, '/'); k < |s| && IsProfile(s[..k]) && s == s[..k] + "/" + (PolicyVersion(s).value + ".json")
  {
    SlashedFile(s, IndexOf(s, '/'), SUFFIX);
  }

  lemma ScamVersionIs(env: string, profile: string, version: string)
    requires env in ["staging", "production"] && IsProfile(profile) && |profile| <= 128
    ensures ScamVersion(env + "/" + (profile + "/" + (version + ".json"))) == Some(version)
  {
    FirstMark(env, "/", '/', profile + "/" + (version + ".json"));
    FirstMark(profile, "/", '/', version + ".json");
    PolicyVersionIs(profile, version, ".json");
  }

  lemma ScamHasParts(s: string)
    requires ScamVersion(s).Some?
    ensures var k := IndexOf(s, '/');
            && k < |s| && s[..k] in ["staging", "production"]
            && var l := IndexOf(s[k + 1..], '/');
               && l < |s[k + 1..]| && l <= 128 && IsProfile(s[k + 1..][..l])
               && s == s[..k] + "/" + (s[k + 1..][..l] + "/" + (ScamVersion(s).value + ".json"))
  {
    var k := IndexOf(s, '/');
    CutAt(s, k);
    PolicyHasParts(s[k + 1..]);
  }

  // ---- contexts --------------------------------------------------------------------------

  lemma SplitFirst(part: string, mark: string, rest: string)
    requires '/' !in part && mark == "/"
    ensures Split(part + mark + rest, '/') == [part] + Split(rest, '/')
  {
    FirstMark(part, mark, '/', rest);
  }

  lemma {:induction false} SplitSlashed(parts: seq<string>, rest: string)
    requires forall part <- parts :: '/' !in part
    ensures Split(M.Joined(parts) + rest, '/') == parts + Split(rest, '/')
    decreases |parts|
  {
    if parts == [] {
      assert M.Joined(parts) + rest == rest;
    } else {
      assert parts[0] in parts;
      SplitSlashed(parts[1..], rest);
      SplitNext(parts[0], parts[1..], M.Joined(parts[1..]), rest);
      assert parts == [parts[0]] + parts[1..];
    }
  }

  lemma SplitNext(part: string, others: seq<string>, joined: string, rest: string)
    requires '/' !in part && Split(joined + rest, '/') == others + Split(rest, '/')
    ensures Split(part + "/" + joined + rest, '/') == [part] + others + Split(rest, '/')
  {
    assert part + "/" + joined + rest == part + "/" + (joined + rest);
    SplitFirst(part, "/", joined + rest);
    assert [part] + others + Split(rest, '/') == [part] + (others + Split(rest, '/'));
  }

  /** Every string is its parts, joined again. */
  lemma {:induction false} JoinedSplit(s: string, n: nat)
    requires |Split(s, '/')| == n + 1
    ensures s == M.Joined(Split(s, '/')[..n]) + Split(s, '/')[n]
    decreases |s|
  {
    var k := IndexOf(s, '/');
    if k < |s| {
      var rest := Split(s[k + 1..], '/');
      JoinedSplit(s[k + 1..], n - 1);
      CutAt(s, k);
      JoinNext(s[..k], rest, n - 1, s[k + 1..]);
      assert Split(s, '/') == [s[..k]] + rest;
    } else {
      assert Split(s, '/') == [s] && M.Joined([s][..0]) == "";
    }
  }

  lemma JoinNext(part: string, others: seq<string>, n: nat, rest: string)
    requires n < |others| && rest == M.Joined(others[..n]) + others[n]
    ensures part + ['/'] + rest == M.Joined(([part] + others)[..n + 1]) + ([part] + others)[n + 1]
  {
    var all := [part] + others;
    assert all[..n + 1] == [part] + others[..n] && ([part] + others[..n])[1..] == others[..n];
  }

  lemma ContextIsAccepted(scopes: seq<string>, chain: string, address: string, last: string)
    requires |scopes| >= 2 && (forall scope <- scopes :: IsSegment(scope)) && IsPositiveDecimal(chain) && IsHexWord(address, 40)
    requires last == address + SUFFIX
    ensures IsContextName(M.Joined(scopes) + (chain + "/" + last))
  {
    SlashesBetween(scopes, chain, last, address);
    EndIs(address, SUFFIX);
    ContextParts(M.Joined(scopes) + (chain + "/" + last), scopes, chain, address, last);
  }

  lemma SlashesBetween(scopes: seq<string>, chain: string, last: string, address: string)
    requires (forall scope <- scopes :: IsSegment(scope)) && IsPositiveDecimal(chain) && IsHexWord(address, 40) && last == address + SUFFIX
    ensures Split(M.Joined(scopes) + (chain + "/" + last), '/') == scopes + ([chain] + [last])
  {
    NoSlashInSegments(scopes);
    SplitSlashed(scopes, chain + "/" + last);
    assert '/' !in chain;
    SplitFirst(chain, "/", last);
    NoSlashIn(address);
    M.SplitWithout(last, '/');
  }

  lemma NoSlashInSegments(scopes: seq<string>)
    requires forall scope <- scopes :: IsSegment(scope)
    ensures forall scope <- scopes :: '/' !in scope
  {
  }

  lemma ContextParts(s: string, scopes: seq<string>, chain: string, address: string, last: string)
    requires |scopes| >= 2 && (forall scope <- scopes :: IsSegment(scope)) && IsPositiveDecimal(chain) && IsHexWord(address, 40)
    requires EndsWith(last, SUFFIX) && last[..|last| - |SUFFIX|] == address && Split(s, '/') == scopes + ([chain] + [last])
    ensures IsContextName(s)
  {
    var parts := Split(s, '/');
    assert |parts| == |scopes| + 2 && parts[|parts| - 1] == last && parts[|parts| - 2] == chain;
    forall i | 0 <= i < |parts| - 2 ensures IsSegment(parts[i]) {
      assert parts[i] == scopes[i];
    }
  }

  lemma NoSlashIn(address: string)
    requires IsHexWord(address, 40)
    ensures '/' !in address + SUFFIX
  {
    assert address == address[..2] + address[2..];
  }

  lemma ContextHasParts(s: string) returns (scopes: seq<string>, chain: string, address: string)
    requires IsContextName(s)
    ensures |scopes| >= 2 && (forall scope <- scopes :: IsSegment(scope)) && IsPositiveDecimal(chain) && IsHexWord(address, 40)
    ensures s == M.Joined(scopes) + (chain + "/" + (address + ".json"))
  {
    var parts := Split(s, '/');
    var n := |parts|;
    JoinedSplit(s, n - 1);
    scopes, chain, address := parts[..n - 2], parts[n - 2], parts[n - 1][..|parts[n - 1]| - |SUFFIX|];
    CutEnd(parts[n - 1], SUFFIX);
    assert parts[..n - 1] == scopes + [chain];
    JoinedSnoc(scopes, chain);
    assert M.Joined(scopes) + chain + "/" + parts[n - 1] == M.Joined(scopes) + (chain + "/" + parts[n - 1]);
  }

  lemma {:induction false} JoinedSnoc(parts: seq<string>, last: string)
    ensures M.Joined(parts + [last]) == M.Joined(parts) + last + "/"
    decreases |parts|
  {
    if parts == [] {
      assert M.Joined([]) == "" && [last][1..] == [];
    } else {
      assert (parts + [last])[1..] == parts[1..] + [last];
      JoinedSnoc(parts[1..], last);
    }
  }

  // ---- all roots -------------------------------------------------------------------------

  lemma RootsAgree(p: Parts)
    ensures Prefix(RootOf(p)) == RootName(p) && Tail(RootOf(p)) == SuffixOf(p)
  {
  }

  lemma NameIsAccepted(p: Parts)
    requires PartsOk(p)
    ensures Accepts(RootOf(p), NameOf(p))
  {
    match p
    case CallKey(chain, address, selector) => CallKeyIsAccepted(chain, address, selector);
    case TypedDataKey(chain, address, typeName) => TypedDataIsAccepted(chain, address, typeName);
    case SelectorKey(chain, selector) => SelectorIsAccepted(chain, selector);
    case Token(chain, address) => TokenIsAccepted(chain, address);
    case BundleFile(sha) => FileIsAccepted(sha, ".json");
    case SignatureFile(sha) => FileIsAccepted(sha, ".sig");
    case PolicyFile(profile, version) => PolicyVersionIs(profile, version, ".json");
    case ScamFile(env, profile, version) => ScamVersionIs(env, profile, version);
    case ContextFile(scopes, chain, address) => ContextIsAccepted(scopes, chain, address, address + ".json");
  }

  lemma NameHasParts(r: Root, s: string) returns (p: Parts)
    requires Accepts(r, s)
    ensures PartsOk(p) && RootOf(p) == r && NameOf(p) == s
  {
    match r
    case CallKeys =>
      CallKeyHasParts(s);
      p := CallKey(s[..|s| - 56], s[|s| - 54..|s| - 12], s[|s| - 10..]);
    case TypedData =>
      var k := IndexOf(s, '_');
      TypedDataHasParts(s);
      p := TypedDataKey(s[..k], s[k + 2..k + 44], s[k + 46..]);
    case Selectors =>
      SelectorHasParts(s);
      p := SelectorKey(s[..|s| - 12], s[|s| - 10..]);
    case Tokens =>
      TokenHasParts(s);
      p := Token(s[..IndexOf(s, '/')], s[IndexOf(s, '/') + 1..]);
    case Bundles =>
      CutEnd(s, ".json");
      p := BundleFile(s[..|s| - 5]);
    case Signatures =>
      CutEnd(s, ".sig");
      p := SignatureFile(s[..|s| - 4]);
    case Policies =>
      PolicyHasParts(s);
      p := PolicyFile(s[..IndexOf(s, '/')], PolicyVersion(s).value);
    case Scams => p := ScamParts(s);
    case Contexts =>
      var scopes, chain, address := ContextHasParts(s);
      p := ContextFile(scopes, chain, address);
  }

  lemma ScamParts(s: string) returns (p: Parts)
    requires IsScamName(s)
    ensures PartsOk(p) && p.ScamFile? && NameOf(p) == s
  {
    ScamHasParts(s);
    var k := IndexOf(s, '/');
    var l := IndexOf(s[k + 1..], '/');
    p := ScamFile(s[..k], s[k + 1..][..l], ScamVersion(s).value);
  }

  /** A written name, as the path of a request. */
  lemma WrittenPath(prefix: string, name: string, tail: string)
    ensures var path := ['/'] + (prefix + name + tail);
            && Under(prefix, path) && |path| == 1 + |prefix| + |name| + |tail|
            && path[1 + |prefix|..|path| - |tail|] == name && path[|path| - |tail|..] == tail
  {
  }

  lemma EndsLater(a: string, b: string, end: string)
    requires EndsWith(b, end)
    ensures EndsWith(a + b, end)
  {
    CutEnd(b, end);
    assert a + b == (a + b[..|b| - |end|]) + end;
    EndIs(a + b[..|b| - |end|], end);
  }

  /** The whole name ends in the suffix its branch insists on. */
  lemma WrittenEnds(p: Parts, prefix: string, name: string, tail: string)
    requires NeedsSuffix(RootOf(p)) && name == NameOf(p) && tail == SuffixOf(p)
    ensures EndsWith(['/'] + (prefix + name + tail), SUFFIX)
  {
    if p.ContextFile? {
      EndIs(p.address, ".json");
      EndsLater(p.chain + "/", p.address + ".json", ".json");
      EndsLater(M.Joined(p.scopes), p.chain + "/" + (p.address + ".json"), ".json");
      EndsLater(prefix, name, ".json");
      assert prefix + name + tail == prefix + name;
    } else {
      EndIs(prefix + name, tail);
    }
    EndsLater(['/'], prefix + name + tail, ".json");
  }

  lemma PathIsAccepted(r: Root, prefix: string, name: string, tail: string, path: string)
    requires prefix == Prefix(r) && tail == Tail(r) && Accepts(r, name) && path == ['/'] + (prefix + name + tail)
    requires !Includes(path, "..") && !Includes(path, "%") && (NeedsSuffix(r) ==> EndsWith(path, SUFFIX))
    ensures ParseProxyTarget(path) == Some(prefix + name + tail)
  {
    WrittenPath(prefix, name, tail);
    GrammarIsAccepted(r, path);
    AfterSlash(ParseProxyTarget(path).value, prefix + name + tail);
  }

  lemma AfterSlash(v: string, w: string)
    ensures ['/'] + v == ['/'] + w <==> v == w
  {
    assert (['/'] + v)[1..] == v && (['/'] + w)[1..] == w;
  }

  lemma WrittenIsAccepted(p: Parts, path: string)
    requires PartsOk(p) && path == ['/'] + ObjectName(p) && !Includes(path, "..") && !Includes(path, "%")
    ensures ParseProxyTarget(path) == Some(ObjectName(p))
  {
    RootsAgree(p);
    NameIsAccepted(p);
    if NeedsSuffix(RootOf(p)) {
      WrittenEnds(p, RootName(p), NameOf(p), SuffixOf(p));
    }
    PathIsAccepted(RootOf(p), RootName(p), NameOf(p), SuffixOf(p), path);
  }

  lemma PathHasName(prefix: string, tail: string, path: string)
    requires Under(prefix, path) && 1 + |prefix| + |tail| <= |path| && path[|path| - |tail|..] == tail
    ensures path == ['/'] + (prefix + path[1 + |prefix|..|path| - |tail|] + tail)
  {
    var start, end := 1 + |prefix|, |path| - |tail|;
    assert path == path[..1] + path[1..start] + path[start..end] + path[end..];
  }

  lemma AcceptedIsWritten(r: Root, prefix: string, tail: string, path: string) returns (p: Parts)
    requires prefix == Prefix(r) && tail == Tail(r) && Under(prefix, path) && ParseUnder(r, prefix, tail, path).Some?
    ensures PartsOk(p) && path == ['/'] + ObjectName(p)
  {
    PathHasName(prefix, tail, path);
    var name := path[1 + |prefix|..|path| - |tail|];
    p := NameHasParts(r, name);
    RootsAgree(p);
    ObjectNameIs(p, prefix, name, tail);
  }

  lemma ObjectNameIs(p: Parts, prefix: string, name: string, tail: string)
    requires prefix == RootName(p) && name == NameOf(p) && tail == SuffixOf(p)
    ensures ObjectName(p) == prefix + name + tail
  {
  }

  /**
   The proxy accepts exactly the paths that can be written from well-formed parts under one of
   the nine roots (and that hold neither `..`, which two context scopes might, nor `%`), and
   reads the object of that very name.
   */
  lemma AcceptedExactlyWhenWritten(path: string)
    ensures ParseProxyTarget(path).Some? <==>
            !Includes(path, "..") && !Includes(path, "%") && exists p :: PartsOk(p) && path == ['/'] + ObjectName(p)
    ensures forall p :: PartsOk(p) && path == ['/'] + ObjectName(p) && ParseProxyTarget(path).Some? ==>
              ParseProxyTarget(path) == Some(ObjectName(p))
  {
    if ParseProxyTarget(path).Some? {
      TargetIsThePath(path);
      var r :| r in ROOTS && Guard(r, path) && ParseUnder(r, Prefix(r), Tail(r), path).Some?;
      var p := AcceptedIsWritten(r, Prefix(r), Tail(r), path);
    }
    forall p | PartsOk(p) && path == ['/'] + ObjectName(p) && !Includes(path, "..") && !Includes(path, "%")
      ensures ParseProxyTarget(path) == Some(ObjectName(p))
    {
      WrittenIsAccepted(p, path);
    }
  }

  /** The leaves are exactly the bundles, the signatures, and the policy and scam bundles named by their sequence rather than `latest`. */
  lemma LeavesAreExactly(p: Parts)
    requires PartsOk(p)
    ensures IsContentAddressed(['/'] + ObjectName(p)) <==>
            p.BundleFile? || p.SignatureFile? || ((p.PolicyFile? || p.ScamFile?) && p.version != "latest")
  {
    var path := ['/'] + ObjectName(p);
    RootsAgree(p);
    ObjectNameIs(p, RootName(p), NameOf(p), SuffixOf(p));
    WrittenPath(RootName(p), NameOf(p), SuffixOf(p));
    LeafTest(RootOf(p), path);
    if p.PolicyFile? {
      PolicyLeaf(RootName(p), p, path);
    } else if p.ScamFile? {
      ScamLeaf(RootName(p), p, path);
    }
  }

  /** The test of a path under a given root. */
  lemma LeafTest(r: Root, path: string)
    requires Under(Prefix(r), path)
    ensures IsContentAddressed(path) <==>
            || r.Bundles? || r.Signatures?
            || (r.Policies? && IsNumberedPolicy(Prefix(r), path)) || (r.Scams? && IsNumberedScam(Prefix(r), path))
  {
    OnlyUnder(r, path, Bundles);
    OnlyUnder(r, path, Signatures);
    NumberedIsUnder(path);
    OnlyUnder(r, path, Policies);
    OnlyUnder(r, path, Scams);
  }

  lemma NumberedIsUnder(path: string)
    ensures IsNumberedPolicy(Prefix(Policies), path) ==> Under(Prefix(Policies), path)
    ensures IsNumberedScam(Prefix(Scams), path) ==> Under(Prefix(Scams), path)
  {
  }

  lemma OnlyUnder(own: Root, path: string, r: Root)
    requires Under(Prefix(own), path)
    ensures Under(Prefix(r), path) <==> r == own
  {
    if Under(Prefix(r), path) {
      PrefixesAreDisjoint(r, own, path);
    }
  }

  lemma LatestIsNoNumber()
    ensures !IsPositiveDecimal("latest")
  {
    assert 'l' in "latest";
  }

  lemma PolicyLeaf(prefix: string, p: Parts, path: string)
    requires p.PolicyFile? && PartsOk(p) && Under(prefix, path) && path[1 + |prefix|..|path|] == NameOf(p)
    ensures IsNumberedPolicy(prefix, path) <==> p.version != "latest"
  {
    PolicyVersionIs(p.profile, p.version, ".json");
    LatestIsNoNumber();
    assert path[1 + |prefix|..] == path[1 + |prefix|..|path|];
  }

  lemma NumbersAreNotLatest(version: string)
    requires version == "latest" || version == "0" || (IsPositiveDecimal(version) && |version| <= 78)
    ensures IsScamSequence(version) <==> version != "latest"
  {
    LatestIsNoNumber();
    assert "latest"[0] != "0"[0];
  }

  lemma ScamLeaf(prefix: string, p: Parts, path: string)
    requires p.ScamFile? && PartsOk(p) && Under(prefix, path) && path[1 + |prefix|..|path|] == NameOf(p)
    ensures IsNumberedScam(prefix, path) <==> p.version != "latest"
  {
    ScamVersionIs(p.env, p.profile, p.version);
    NumbersAreNotLatest(p.version);
    assert path[1 + |prefix|..] == path[1 + |prefix|..|path|];
  }
}
