/** Builder and proxy together: what the builder writes, the proxy serves back. */
module Registry {
  import opened Common
  import opened Text
  import opened Json
  import opened ProxyPath
  import M = Materialize
  import P = Proxy
  import B = BuildIndex

  // ---- the server's own rules ----------------------------------------------------------

  function SlashFirst(ref: string): string { if ref != "" && ref[0] == '/' then ref else ['/'] + ref }

  /** `normalizeGeneratedObjectRef`; `None` is its exception. */
  function NormalizeRef(ref: string, root: Root): Option<string> {
    var target := ParseProxyTarget(SlashFirst(ref));
    if target.Some? && Prefix(root) <= target.value then target else None
  }

  /** A reference is accepted with or without a leading slash, and only as the object of that very name under its own root. */
  lemma RefIsItsName(name: string, root: Root)
    requires name == "" || name[0] != '/'
    ensures NormalizeRef(['/'] + name, root) == NormalizeRef(name, root)
    ensures NormalizeRef(name, root).Some? ==> NormalizeRef(name, root) == Some(name) && Prefix(root) <= name
  {
    if NormalizeRef(name, root).Some? {
      TargetIsThePath(['/'] + name);
      SameAfterSlash(ParseProxyTarget(['/'] + name).value, name);
    }
  }

  function ServerRules(js: M.Js): P.Rules {
    P.Rules(
      name => Prefix(CallKeys) <= name, name => IsContentAddressed(['/'] + name),
      ref => NormalizeRef(ref, Bundles), ref => NormalizeRef(ref, Contexts),
      js.hash, Lower, (template, doc) => M.MaterializeSourceBundle(js, template, doc))
  }

  lemma ServerRulesAreValid(js: M.Js)
    ensures P.ValidRules(ServerRules(js))
  {
    var w := ServerRules(js);
    forall ref | w.bundleRef(ref).Some? ensures !w.isIndex(w.bundleRef(ref).value) {
      var name := w.bundleRef(ref).value;
      assert name[0] == Prefix(Bundles)[0] && Prefix(CallKeys)[0] == 'i';
    }
  }

  lemma LeavesAreNotIndex(js: M.Js, name: string)
    requires ServerRules(js).isLeaf(name)
    ensures !ServerRules(js).isIndex(name)
  {
    var path := ['/'] + name;
    LeafRoot(path);
    var r: Root :| !r.CallKeys? && Under(Prefix(r), path);
    if Prefix(CallKeys) <= name {
      UnderPrefix(Prefix(CallKeys), name);
      PrefixesAreDisjoint(r, CallKeys, path);
    }
  }

  lemma UnderPrefix(prefix: string, name: string)
    requires prefix <= name
    ensures Under(prefix, ['/'] + name)
  {
  }

  lemma LeafRoot(path: string)
    requires IsContentAddressed(path)
    ensures exists r: Root :: !r.CallKeys? && Under(Prefix(r), path)
  {
    if !Under(Prefix(Bundles), path) && !Under(Prefix(Signatures), path) && !Under(Prefix(Policies), path) {
      assert Under(Prefix(Scams), path);
    }
  }

  /** On the server: a request that starts its own read of an immutable leaf after it was published never gets a 404. */
  lemma ServerFindsLandedLeaf(js: M.Js, bucket: map<string, P.Blob>, before: seq<P.Step>, after: seq<P.Step>, name: string)
    requires IsContentAddressed(['/'] + name) && P.Remove(name) !in after
    requires P.Behave(ServerRules(js), P.Fresh(bucket), before).Some?
    requires var s := P.Behave(ServerRules(js), P.Fresh(bucket), before).value; name in s.bucket && name !in s.flights
    requires P.Behave(ServerRules(js), P.Begin(ServerRules(js), P.Behave(ServerRules(js), P.Fresh(bucket), before).value, name), after).Some?
    ensures var s := P.Behave(ServerRules(js), P.Fresh(bucket), before).value;
            var t := P.Behave(ServerRules(js), P.Begin(ServerRules(js), s, name), after).value;
            var q := |s.requests|;
            q < |t.requests| && t.requests[q].name == name && !(t.requests[q].phase.Answered? && t.requests[q].phase.response.NotFound?)
  {
    ServerRulesAreValid(js);
    LeavesAreNotIndex(js, name);
    P.LandedLeafIsFound(ServerRules(js), bucket, before, after, name);
  }

  // ---- names ---------------------------------------------------------------------------

  predicate Plain(s: string) { forall c <- s :: c != '.' && c != '%' }

  /** A path whose only dot starts its suffix passes the two substring tests. */
  lemma OneDotIsSafe(head: string, tail: string)
    requires Plain(head) && |tail| > 1 && tail[0] == '.' && Plain(tail[1..])
    ensures !Includes(head + tail, "..") && !Includes(head + tail, "%")
  {
    var s := head + tail;
    forall i | 0 <= i < |s| && i != |head| ensures s[i] != '.' && s[i] != '%' {
      assert if i < |head| then s[i] in head else s[i] in tail[1..];
    }
    assert forall i | 0 <= i <= |s| :: StartsAt(s, i, "..") ==> s[i..i + 2][0] == '.' && s[i..i + 2][1] == '.';
    assert forall i | 0 <= i <= |s| :: StartsAt(s, i, "%") ==> s[i..i + 1][0] == '%';
  }

  lemma PlainAppend(a: string, b: string)
    requires Plain(a) && Plain(b)
    ensures Plain(a + b)
  {
  }

  lemma HexIsPlain(s: string, n: nat)
    requires IsHexWord(s, n)
    ensures Plain(s)
  {
    assert s == s[..2] + s[2..];
  }

  lemma SuffixIsPlain()
    ensures |SUFFIX| > 1 && SUFFIX[0] == '.' && Plain(SUFFIX[1..])
  {
    assert SUFFIX[1..] == "json";
  }

  /** `prefix` and `name` under a root, put together as a path. */
  function PathOf(prefix: string, name: string, tail: string): string { ['/'] + (prefix + name + tail) }

  lemma PathParts(prefix: string, name: string, tail: string)
    ensures var path := PathOf(prefix, name, tail);
            && Under(prefix, path)
            && |path| == 1 + |prefix| + |name| + |tail|
            && path[1 + |prefix|..|path| - |tail|] == name && path[|path| - |tail|..] == tail
            && path == ['/'] + prefix + name + tail
            && path[1 + |prefix|..] == name + tail
  {
  }

  lemma CallkeyParts(a: string, t: string, s: string, name: string)
    requires name == a + "__" + t + "__" + s && |t| == 42 && |s| == 10
    ensures |name| == |a| + 56
    ensures name[..|name| - 56] == a && name[|name| - 56..|name| - 54] == "__" && name[|name| - 54..|name| - 12] == t
    ensures name[|name| - 12..|name| - 10] == "__" && name[|name| - 10..] == s
  {
  }

  function CallkeyName(chain: nat, to: string, selector: string): string {
    Digits(chain) + "__" + Lower(to) + "__" + Lower(selector)
  }

  lemma CallkeyNameIsAccepted(chain: nat, to: string, selector: string)
    requires chain > 0 && IsAnyHexWord(to, 40) && IsAnyHexWord(selector, 8)
    ensures IsCallKey(CallkeyName(chain, to, selector)) && Plain(CallkeyName(chain, to, selector))
  {
    var a, t, s := Digits(chain), Lower(to), Lower(selector);
    DigitsRoundTrip(chain);
    LowerHexWord(to, 40);
    LowerHexWord(selector, 8);
    CallkeyParts(a, t, s, CallkeyName(chain, to, selector));
    HexIsPlain(t, 40);
    HexIsPlain(s, 8);
    assert Plain(a) && Plain("__");
    PlainAppend(a, "__");
    PlainAppend(a + "__", t);
    PlainAppend(a + "__" + t, "__");
    PlainAppend(a + "__" + t + "__", s);
  }

  function IndexObject(key: string): string { Prefix(CallKeys) + key }

  /** Every call key file of the index is reachable through the proxy, under its own name. */
  lemma CallkeyIsReachable(chain: nat, to: string, selector: string)
    requires chain > 0 && IsAnyHexWord(to, 40) && IsAnyHexWord(selector, 8)
    ensures var name := IndexObject(B.CallkeyFilename(chain, to, selector));
            ParseProxyTarget(['/'] + name) == Some(name)
  {
    var name := CallkeyName(chain, to, selector);
    CallkeyNameIsAccepted(chain, to, selector);
    AcceptedUnderCallKeys(Prefix(CallKeys), name, SUFFIX);
    assert B.CallkeyFilename(chain, to, selector) == name + SUFFIX;
    assert Prefix(CallKeys) + name + SUFFIX == Prefix(CallKeys) + (name + SUFFIX);
  }

  /** A path of plain parts and the usual suffix passes the two substring tests. */
  lemma PathIsSafe(prefix: string, name: string, tail: string)
    requires Plain(prefix) && Plain(name) && tail == SUFFIX
    ensures !Includes(PathOf(prefix, name, tail), "..") && !Includes(PathOf(prefix, name, tail), "%")
  {
    SuffixIsPlain();
    assert Plain(['/']);
    PlainAppend(['/'], prefix);
    PlainAppend(['/'] + prefix, name);
    OneDotIsSafe(['/'] + prefix + name, tail);
    assert PathOf(prefix, name, tail) == ['/'] + prefix + name + tail;
  }

  lemma SameAfterSlash(v: string, w: string)
    ensures ['/'] + v == ['/'] + w <==> v == w
  {
    assert (['/'] + v)[1..] == v && (['/'] + w)[1..] == w;
  }

  lemma AcceptedUnderCallKeys(prefix: string, name: string, tail: string)
    requires prefix == Prefix(CallKeys) && tail == SUFFIX && IsCallKey(name) && Plain(name)
    ensures ParseProxyTarget(PathOf(prefix, name, tail)) == Some(prefix + name + tail)
  {
    var path := PathOf(prefix, name, tail);
    PathParts(prefix, name, tail);
    assert Plain(prefix);
    PathIsSafe(prefix, name, tail);
    GrammarIsAccepted(CallKeys, path);
    SameAfterSlash(ParseProxyTarget(path).value, prefix + name + tail);
  }

  lemma AcceptedUnderBundles(prefix: string, sha: string, tail: string)
    requires prefix == Prefix(Bundles) && tail == SUFFIX && IsHexWord(sha, 64)
    ensures ParseProxyTarget(PathOf(prefix, sha, tail)) == Some(prefix + sha + tail)
  {
    var path := PathOf(prefix, sha, tail);
    PathParts(prefix, sha, tail);
    HexIsPlain(sha, 64);
    assert Plain(prefix);
    PathIsSafe(prefix, sha, tail);
    assert IsFileOf(sha + tail, SUFFIX) by {
      assert (sha + tail)[..|sha|] == sha && (sha + tail)[|sha|..] == tail;
    }
    assert Tail(Bundles) == "" && path[|path|..] == "" && path[1 + |prefix|..|path|] == sha + tail;
    GrammarIsAccepted(Bundles, path);
    SameAfterSlash(ParseProxyTarget(path).value, prefix + sha + tail);
  }

  /** The bundle reference the builder writes is accepted, and names the object it was written to. */
  lemma BundleRefNormalises(sha: string)
    requires IsHexWord(sha, 64)
    ensures NormalizeRef(B.BundleFileRef(sha), Bundles) == Some(B.BundleFileRef(sha))
  {
    var prefix := Prefix(Bundles);
    LowerOfHexWord(sha, 64);
    AcceptedUnderBundles(prefix, sha, SUFFIX);
    var ref := prefix + sha + SUFFIX;
    assert B.BundleFileRef(sha) == ref;
    assert ref[0] == prefix[0];
    assert prefix <= ref;
  }

  /** For manifests with well-formed chains, addresses and selectors, every index file of a build is reachable under its own name. */
  lemma EveryEntryIsReachable(h: B.Hashes, manifests: seq<B.Manifest>, key: string)
    requires (forall m <- manifests :: B.ManifestWellFormed(m)) && key in B.Built(h, manifests).index
    ensures ParseProxyTarget(['/'] + IndexObject(key)) == Some(IndexObject(key))
  {
    B.EntriesMatchTheirKeys(h, manifests, true);
    var e := B.Built(h, manifests).index[key];
    assert B.EntryMatches(h, key, e, true);
    var p :| p in B.Pairs(e.bundle.targets) && B.KeyOf(e.bundle, p) == key;
    CallkeyIsReachable(p.0, p.1, e.bundle.selector);
  }

  // ---- context references --------------------------------------------------------------

  /** A source kind such as `curve:pools`: at least two parts, each a plain path segment. */
  ghost predicate SafePart(part: string) {
    IsSegment(part) && '.' !in part && part[0] != '-' && part[|part| - 1] != '-'
  }

  ghost predicate SafeSource(source: string) {
    |Split(source, ':')| >= 2 && forall part <- Split(source, ':') :: SafePart(part)
  }

  lemma SafePartIsKept(part: string)
    requires SafePart(part)
    ensures M.SanitizeIdSuffix(part) == part && part != "" && '/' !in part && Plain(part)
  {
    assert forall i | 0 <= i < |part| :: part[i] in part;
    M.CleanIsKept(part);
  }

  lemma {:induction false} SafePartsAreKept(parts: seq<string>)
    requires forall part <- parts :: SafePart(part)
    ensures M.Sanitized(parts) == parts && "" !in parts && Plain(M.Joined(parts))
    decreases |parts|
  {
    if parts != [] {
      assert parts[0] in parts;
      SafePartIsKept(parts[0]);
      SafePartsAreKept(parts[1..]);
      PlainAppend(parts[0], "/");
      PlainAppend(parts[0] + "/", M.Joined(parts[1..]));
    }
  }

  lemma SplitHead(part: string, sep: string, rest: string)
    requires '/' !in part && sep == "/"
    ensures Split(part + sep + rest, '/') == [part] + Split(rest, '/')
  {
    var s := part + sep + rest;
    var k := IndexOf(s, '/');
    assert s[|part|] == '/';
    assert k >= |part| by { assert forall i | 0 <= i < |part| :: s[i] == part[i] && part[i] in part; }
    assert k <= |part|;
    assert s[..k] == part && s[k + 1..] == rest;
  }

  lemma Regroup3(a: string, sep: string, b: string, c: string)
    ensures a + sep + b + c == a + sep + (b + c)
  {
  }

  lemma {:induction false} SplitJoined(parts: seq<string>, rest: string)
    requires forall part <- parts :: SafePart(part)
    ensures Split(M.Joined(parts) + rest, '/') == parts + Split(rest, '/')
    decreases |parts|
  {
    if parts == [] {
      assert M.Joined(parts) + rest == rest;
    } else {
      SplitJoined(parts[1..], rest);
      SplitJoinedStep(parts[0], parts[1..], M.Joined(parts[1..]), rest);
      assert parts == [parts[0]] + parts[1..];
    }
  }

  lemma SplitJoinedStep(part: string, others: seq<string>, joined: string, rest: string)
    requires SafePart(part) && Split(joined + rest, '/') == others + Split(rest, '/')
    ensures Split(part + "/" + joined + rest, '/') == [part] + others + Split(rest, '/')
  {
    SafePartIsKept(part);
    Regroup3(part, "/", joined, rest);
    SplitHead(part, "/", joined + rest);
    assert [part] + others + Split(rest, '/') == [part] + (others + Split(rest, '/'));
  }

  /** What follows `contexts/` in a context reference. */
  function ContextTail(parts: seq<string>, chain: string, address: string): string {
    M.Joined(parts) + chain + "/" + address + ".json"
  }

  lemma ContextTailIsAccepted(parts: seq<string>, chain: string, address: string, last: string, tail: string)
    requires |parts| >= 2 && (forall part <- parts :: SafePart(part)) && IsPositiveDecimal(chain) && IsHexWord(address, 40)
    requires last == address + SUFFIX && tail == ContextTail(parts, chain, address)
    ensures IsContextName(tail)
  {
    ContextTailSplits(parts, chain, address, last, tail);
    var all := Split(tail, '/');
    assert |all| == |parts| + 2 && all[|all| - 1] == last && all[|all| - 2] == chain;
    assert last[..|last| - |SUFFIX|] == address && last[|last| - |SUFFIX|..] == SUFFIX;
    forall i | 0 <= i < |all| - 2 ensures IsSegment(all[i]) {
      assert all[i] == parts[i] && parts[i] in parts;
      assert SafePart(parts[i]);
    }
  }

  lemma ContextTailSplits(parts: seq<string>, chain: string, address: string, last: string, tail: string)
    requires (forall part <- parts :: SafePart(part)) && IsPositiveDecimal(chain) && IsHexWord(address, 40)
    requires last == address + SUFFIX && tail == ContextTail(parts, chain, address)
    ensures Split(tail, '/') == parts + [chain, last]
  {
    var joined := M.Joined(parts);
    Regroup3(joined + chain, "/", address, SUFFIX);
    assert tail == joined + chain + "/" + last;
    Regroup2(joined, chain, "/", last);
    SplitJoined(parts, chain + "/" + last);
    SplitHead(chain, "/", last);
    HexHasNoSlash(address);
    M.SplitWithout(last, '/');
    assert [chain] + [last] == [chain, last];
  }

  lemma Regroup2(a: string, b: string, c: string, d: string)
    ensures a + b + c + d == a + (b + c + d)
  {
  }

  lemma HexHasNoSlash(s: string)
    requires IsHexWord(s, 40)
    ensures '/' !in s + SUFFIX
  {
    assert s == s[..2] + s[2..];
  }

  /** The context reference of a safe source is accepted, and names the object it was written to. */
  lemma ContextRefNormalises(source: string, chain: nat, address: string)
    requires SafeSource(source) && chain > 0 && IsAnyHexWord(address, 40)
    ensures M.SourceContextRef(source, chain, address).Some?
    ensures var ref := M.SourceContextRef(source, chain, address).value;
            NormalizeRef(ref, Contexts) == Some(ref) && Prefix(Contexts) <= ref
  {
    var parts, digits, a := Split(source, ':'), Digits(chain), Lower(address);
    SafePartsAreKept(parts);
    DigitsRoundTrip(chain);
    LowerHexWord(address, 40);
    var tail := ContextTail(parts, digits, a);
    ContextTailIsAccepted(parts, digits, a, a + SUFFIX, tail);
    var head := M.Joined(parts) + digits + "/" + a;
    HexIsPlain(a, 40);
    assert Plain(digits) && Plain("/");
    PlainAppend(M.Joined(parts), digits);
    PlainAppend(M.Joined(parts) + digits, "/");
    PlainAppend(M.Joined(parts) + digits + "/", a);
    AcceptedUnderContexts(Prefix(Contexts), head, SUFFIX, tail);
    ContextSlash(Prefix(Contexts), tail);
  }

  lemma ContextSlash(prefix: string, tail: string)
    requires prefix == Prefix(Contexts) && ParseProxyTarget(['/'] + (prefix + tail)) == Some(prefix + tail)
    ensures NormalizeRef(prefix + tail, Contexts) == Some(prefix + tail) && prefix <= prefix + tail
  {
    assert (prefix + tail)[0] == prefix[0];
  }

  lemma AcceptedUnderContexts(prefix: string, head: string, suffix: string, tail: string)
    requires prefix == Prefix(Contexts) && suffix == SUFFIX && Plain(head) && tail == head + suffix && IsContextName(tail)
    ensures ParseProxyTarget(['/'] + (prefix + tail)) == Some(prefix + tail)
  {
    var path := PathOf(prefix, head, suffix);
    PathParts(prefix, head, suffix);
    assert Plain(prefix);
    PathIsSafe(prefix, head, suffix);
    ContextsGrammar(prefix, path, suffix, tail);
    assert prefix + head + suffix == prefix + tail;
    ContextsAccepted(path, prefix + tail);
  }

  lemma ContextsAccepted(path: string, name: string)
    requires path == ['/'] + name && Guard(Contexts, path) && ParseUnder(Contexts, Prefix(Contexts), Tail(Contexts), path).Some?
    requires !Includes(path, "..") && !Includes(path, "%")
    ensures ParseProxyTarget(path) == Some(name)
  {
    GrammarIsAccepted(Contexts, path);
    SameAfterSlash(ParseProxyTarget(path).value, name);
  }

  lemma ContextsGrammar(prefix: string, path: string, suffix: string, tail: string)
    requires prefix == Prefix(Contexts) && suffix == SUFFIX && Under(prefix, path) && path[1 + |prefix|..] == tail
    requires IsContextName(tail) && |suffix| <= |path| && path[|path| - |suffix|..] == suffix
    ensures Guard(Contexts, path) && ParseUnder(Contexts, Prefix(Contexts), Tail(Contexts), path).Some?
  {
    assert Tail(Contexts) == "" && path[|path|..] == "" && path[1 + |prefix|..|path|] == tail;
  }

  // ---- what is published ---------------------------------------------------------------

  function EncodeAddresses(addresses: seq<string>): (r: seq<Json>)
    ensures |r| == |addresses| && forall i | 0 <= i < |r| :: r[i] == Str(addresses[i])
  {
    seq(|addresses|, i requires 0 <= i < |addresses| => Str(addresses[i]))
  }

  function EncodeTargets(targets: seq<B.Target>): map<string, Json> {
    if targets == [] then map[]
    else
      var last := targets[|targets| - 1];
      EncodeTargets(targets[..|targets| - 1])[
        Digits(last.chain) := Arr(EncodeAddresses(last.addresses))]
  }

  /** A resolved bundle as the JSON object that is hashed and written. */
  function EncodeBundle(b: B.Bundle): Json {
    Obj(b.rest["id" := Str(b.id)][
      "match" := Obj(b.extra["selector" := Str(b.selector)]["chain_to_addresses" := Obj(EncodeTargets(b.targets))])])
  }

  /** The builder hashes canonical JSON with the same function as the proxy. */
  function BuilderHashes(js: M.Js): B.Hashes {
    B.Hashes(b => js.hash(EncodeBundle(b)), js.hash, EncodeBundle)
  }

  /** Hashes are printed as `0x` and 64 lower-case hex digits. */
  ghost predicate HexHash(js: M.Js) {
    forall v :: IsHexWord(js.hash(v), 64)
  }

  /** The index file of a context-free reference entry. */
  function RefEntry(e: B.Entry): map<string, Json>
    requires e.form.BundleRef?
  {
    map["matched" := Bool(true), "schema_version" := Str("3-ref"), "bundle_id" := Str(e.bundle.id),
        "manifest_path" := Str(e.path), "bundle_sha256" := Str(e.sha), "bundle_ref" := Str(e.form.ref)]
  }

  /** What a client gets for the entry when the object behind it is `bundle`. */
  function Served(e: B.Entry, bundle: Json): Json {
    Obj(map["matched" := Bool(true), "bundle_id" := Str(e.bundle.id), "manifest_path" := Str(e.path),
            "bundle_sha256" := Str(e.sha), "bundle" := bundle])
  }

  /** What a client should get: the entry's own fields around the builder's bundle. */
  function Expected(e: B.Entry): Json { Served(e, EncodeBundle(e.bundle)) }

  function PublishedAs(key: string, e: B.Entry, content: Json): P.Published
    requires e.form.BundleRef?
  {
    P.Published(IndexObject(key), RefEntry(e), e.form.ref, P.Text(content), false, None)
  }

  /** The entry's reference and hash, and the object behind them. */
  lemma EntryIsBacked(js: M.Js, manifests: seq<B.Manifest>, key: string)
    requires var b := B.Built(BuilderHashes(js), manifests); key in b.index && b.index[key].form.BundleRef?
    ensures var b := B.Built(BuilderHashes(js), manifests);
            var e := b.index[key];
            && e.form.ref == B.BundleFileRef(e.sha) && e.sha == js.hash(EncodeBundle(e.bundle)) && e.form.ref in b.generated
            && var content := b.generated[e.form.ref].content;
               js.hash(content) == e.sha && (content == EncodeBundle(e.bundle) || Collision(js.hash, content, EncodeBundle(e.bundle)))
  {
    var h := BuilderHashes(js);
    assert B.Coherent(h);
    B.ReferencesHold(h, manifests, key);
  }

  lemma AssemblePublished(w: P.Rules, key: string, e: B.Entry, content: Json)
    requires e.form.BundleRef? && w.isIndex(IndexObject(key)) && !w.isIndex(e.form.ref)
    requires w.bundleRef(e.form.ref) == Some(e.form.ref) && w.hash(content) == w.lower(e.sha)
    ensures var p := PublishedAs(key, e, content); P.PublishedOk(w, p) && P.Usable(w, p) && P.Exact(w, p) == Served(e, content)
  {
    assert P.IsRefEntry(Obj(RefEntry(e)));
  }

  lemma BundleNamesAreAccepted(js: M.Js, key: string, sha: string)
    requires IsHexWord(sha, 64)
    ensures var w, ref := ServerRules(js), B.BundleFileRef(sha);
            w.isIndex(IndexObject(key)) && !w.isIndex(ref) && w.bundleRef(ref) == Some(ref)
  {
    var w := ServerRules(js);
    BundleRefNormalises(sha);
    ServerRulesAreValid(js);
    assert w.bundleRef(B.BundleFileRef(sha)) == Some(B.BundleFileRef(sha));
  }

  lemma BackedIsPublished(js: M.Js, key: string, e: B.Entry, content: Json)
    requires HexHash(js) && e.form.BundleRef? && e.form.ref == B.BundleFileRef(e.sha) && e.sha == js.hash(content)
    ensures var w, p := ServerRules(js), PublishedAs(key, e, content);
            P.PublishedOk(w, p) && P.Usable(w, p) && P.Exact(w, p) == Served(e, content)
  {
    BundleNamesAreAccepted(js, key, e.sha);
    LowerOfHexWord(e.sha, 64);
    AssemblePublished(ServerRules(js), key, e, content);
  }

  /** The state of the server after some schedule from a cold start. */
  ghost function Reached(js: M.Js, bucket: map<string, P.Blob>, steps: seq<P.Step>): Option<P.State> {
    P.Behave(ServerRules(js), P.Fresh(bucket), steps)
  }

  /** The index file and the build's object for the entry are in the bucket, and what the proxy knows of them agrees. */
  ghost predicate Uploaded(js: M.Js, b: B.Book, key: string, s: P.State)
    requires key in b.index && b.index[key].form.BundleRef? && b.index[key].form.ref in b.generated
  {
    var p := PublishedAs(key, b.index[key], b.generated[b.index[key].form.ref].content);
    P.PublishedOk(ServerRules(js), p) && P.Agrees(ServerRules(js), p, s)
  }

  /** From `s` on, request `q` for the entry is answered in a schedule that leaves the published objects alone. */
  ghost predicate Answers(js: M.Js, p: P.Published, s: P.State, after: seq<P.Step>, q: nat) {
    && P.Behave(ServerRules(js), s, after).Some? && P.Calm(ServerRules(js), p, s, after) && q !in P.AnsweredIn(s)
    && var t := P.Behave(ServerRules(js), s, after).value;
       q < |t.requests| && t.requests[q].name == p.index && t.requests[q].phase.Answered?
  }

  ghost function AnswerTo(js: M.Js, s: P.State, after: seq<P.Step>, q: nat): P.Response
    requires P.Behave(ServerRules(js), s, after).Some?
    requires var t := P.Behave(ServerRules(js), s, after).value; q < |t.requests| && t.requests[q].phase.Answered?
  {
    P.Behave(ServerRules(js), s, after).value.requests[q].phase.response
  }

  lemma ServedAsPublished(js: M.Js, p: P.Published, bucket: map<string, P.Blob>, before: seq<P.Step>, after: seq<P.Step>, q: nat)
    requires P.PublishedOk(ServerRules(js), p) && Reached(js, bucket, before).Some?
    requires P.Agrees(ServerRules(js), p, Reached(js, bucket, before).value)
    requires Answers(js, p, Reached(js, bucket, before).value, after, q)
    ensures P.AnswerOk(ServerRules(js), p, AnswerTo(js, Reached(js, bucket, before).value, after, q))
  {
    ServerRulesAreValid(js);
    P.PublishedIsServed(ServerRules(js), p, bucket, before, after, q);
  }

  /**
   Build to serve. Once a build's objects are uploaded, the path of a context-free entry is
   accepted, and every answer a running proxy then gives for it is 200 with exactly the
   builder's bundle, in every schedule that leaves the objects in place and reads them without
   fault, whatever it had cached or was reading of them for other entries. The one exception is
   named: another object stored with the very hash of the bundle.
   */
  lemma BuildToServe(
    js: M.Js, manifests: seq<B.Manifest>, key: string, bucket: map<string, P.Blob>, before: seq<P.Step>, after: seq<P.Step>, q: nat)
    requires HexHash(js) && forall m <- manifests :: B.ManifestWellFormed(m)
    requires var b := B.Built(BuilderHashes(js), manifests);
             && key in b.index && b.index[key].form.BundleRef? && b.index[key].form.ref in b.generated
             && Reached(js, bucket, before).Some? && Uploaded(js, b, key, Reached(js, bucket, before).value)
             && Answers(js, PublishedAs(key, b.index[key], b.generated[b.index[key].form.ref].content), Reached(js, bucket, before).value, after, q)
    ensures ParseProxyTarget(['/'] + IndexObject(key)) == Some(IndexObject(key))
    ensures var b := B.Built(BuilderHashes(js), manifests);
            var e := b.index[key];
            var content := b.generated[e.form.ref].content;
            var a := AnswerTo(js, Reached(js, bucket, before).value, after, q);
            && a.Ok? && P.BlobOf(a.body) == P.Text(Served(e, content))
            && (content == EncodeBundle(e.bundle) || Collision(js.hash, content, EncodeBundle(e.bundle)))
  {
    var b := B.Built(BuilderHashes(js), manifests);
    var e := b.index[key];
    EveryEntryIsReachable(BuilderHashes(js), manifests, key);
    EntryIsBacked(js, manifests, key);
    BackedIsPublished(js, key, e, b.generated[e.form.ref].content);
    ServedAsPublished(js, PublishedAs(key, e, b.generated[e.form.ref].content), bucket, before, after, q);
  }

  /** And whatever has been published since, a 200 made from that entry never carries another bundle, unless it has the bundle's hash. */
  lemma NeverAnotherBundle(js: M.Js, manifests: seq<B.Manifest>, key: string, bucket: map<string, P.Blob>, steps: seq<P.Step>, q: nat)
    requires HexHash(js)
    requires var b := B.Built(BuilderHashes(js), manifests); key in b.index && b.index[key].form.BundleRef?
    requires Reached(js, bucket, steps).Some?
    requires var s := Reached(js, bucket, steps).value;
             P.Materialised(s, q) && P.EntryRead(s, q) == Some(P.Found(P.Text(Obj(RefEntry(B.Built(BuilderHashes(js), manifests).index[key])))))
    ensures var e := B.Built(BuilderHashes(js), manifests).index[key];
            var j := Reached(js, bucket, steps).value.requests[q].phase.response.body.json;
            j == Expected(e) || (j.Obj? && "bundle" in j.fields && Collision(js.hash, j.fields["bundle"], EncodeBundle(e.bundle)))
  {
    var w := ServerRules(js);
    var e := B.Built(BuilderHashes(js), manifests).index[key];
    var j := Reached(js, bucket, steps).value.requests[q].phase.response.body.json;
    ServerRulesAreValid(js);
    EntryIsBacked(js, manifests, key);
    BackedIsPublished(js, key, e, EncodeBundle(e.bundle));
    P.OkIsOneRead(w, bucket, steps, q);
    assert P.Renders(w, Obj(RefEntry(e)), j);
    assert P.Renders(w, Obj(RefEntry(e)), Expected(e));
    P.EntryDetermines(w, Obj(RefEntry(e)), j, Expected(e));
  }

  // ---- source-context entries ----------------------------------------------------------

  /** The index file of a source-context entry. */
  function ContextEntry(e: B.Entry, contextSha: string): map<string, Json>
    requires e.form.ContextRef? && e.output.SourceRef?
  {
    map["matched" := Bool(true), "schema_version" := Str("3-ref"), "bundle_id" := Str(e.bundle.id),
        "manifest_path" := Str(e.path), "bundle_sha256" := Str(e.sha),
        "bundle_ref" := Str(e.form.ref), "context_ref" := Str(e.form.context), "context_sha256" := Str(contextSha),
        "materialization" := Obj(map["kind" := Str("source_context"), "source" := Str(e.output.source),
                                     "chain_id" := Num(e.output.chain as real), "address" := Str(Lower(e.output.address))])]
  }

  /** The output is what the builder makes of a template and a resolver's answer. */
  ghost predicate BuiltFrom(js: M.Js, o: B.Output, template: map<string, Json>, selector: string, entry: M.SourceEntry) {
    && o.SourceRef? && o.template == Obj(template) && "id" in template && o.chain > 0
    && M.IsObject(Field(template, "match")) && Field(template["match"].fields, "selector") == Some(Str(selector))
    && IsAnyHexWord(selector, 8)
    && M.BuildMaterialized(js, template, selector, o.chain as real, entry) == Some(EncodeBundle(o.bundle))
    && o.context == Obj(M.BuildSourceContext(js, o.chain as real, entry)) && o.address == Lower(entry.address)
  }

  /** Names the proxy accepts. */
  ghost predicate SafeOutput(o: B.Output) {
    o.SourceRef? && SafeSource(o.source) && o.chain > 0 && IsAnyHexWord(o.address, 40)
  }

  /** The conditions of `ContextRoundTrip`. */
  ghost predicate Servable(js: M.Js, o: B.Output, template: map<string, Json>, entry: M.SourceEntry)
    requires o.SourceRef? && "id" in template
  {
    && Lower(entry.address) == entry.address
    && M.IdStaysText(js, template, Obj(M.BuildSourceContext(js, o.chain as real, entry)))
  }

  /** What the build wrote under a reference. */
  function Stored(b: B.Book, ref: string): Json { if ref in b.generated then b.generated[ref].content else Null }

  /** A source-context entry with the template and context stored under its references. */
  function PublishedStored(key: string, e: B.Entry, contextSha: string, template: Json, doc: Json): P.Published
    requires e.form.ContextRef? && e.output.SourceRef?
  {
    P.Published(IndexObject(key), ContextEntry(e, contextSha), e.form.ref, P.Text(template), false,
                Some(P.Document(e.form.context, P.Text(doc))))
  }

  /** The proxy rebuilds the output's own bundle from its template and document. */
  lemma OutputIsRebuilt(js: M.Js, o: B.Output, template: map<string, Json>, selector: string, entry: M.SourceEntry)
    requires BuiltFrom(js, o, template, selector, entry) && Servable(js, o, template, entry)
    ensures M.MaterializeSourceBundle(js, o.template, B.DocOf(o)) == Some(EncodeBundle(o.bundle))
  {
    var chain := o.chain as real;
    M.LowerIsIdempotent(entry.address);
    assert B.DocOf(o) == M.ContextDocument(js, o.source, chain, entry);
    assert chain.Floor as real == chain;
    M.ContextRoundTrip(js, template, selector, o.source, chain, entry);
  }

  lemma ContextNames(ref: string, key: string, sha: string)
    requires Prefix(Contexts) <= ref
    ensures ref != IndexObject(key) && ref != B.BundleFileRef(sha) && B.BundleFileRef(sha) != IndexObject(key)
  {
    assert ref[0] == Prefix(Contexts)[0] == 'c' && IndexObject(key)[0] == 'i' && B.BundleFileRef(sha)[0] == 'b';
  }

  /** What a client gets for the entry when the proxy rebuilds `bundle`. */
  function ServedRebuilt(e: B.Entry, id: Json, bundle: Json): Json {
    Obj(map["matched" := Bool(true), "bundle_id" := id, "manifest_path" := Str(e.path), "bundle_sha256" := Str(e.sha), "bundle" := bundle])
  }

  lemma EntryFields(e: B.Entry, contextSha: string, id: Json, bundle: Json)
    requires e.form.ContextRef? && e.output.SourceRef?
    ensures P.IsRefEntry(Obj(ContextEntry(e, contextSha)))
    ensures P.ResponseFor(ContextEntry(e, contextSha), id, bundle) == ServedRebuilt(e, id, bundle)
    ensures var f := ContextEntry(e, contextSha);
            && f["bundle_ref"] == Str(e.form.ref) && f["bundle_sha256"] == Str(e.sha)
            && Field(f, "context_ref") == Some(Str(e.form.context))
  {
  }

  lemma ContextNamesAreAccepted(js: M.Js, key: string, e: B.Entry)
    requires HexHash(js) && e.form.ContextRef? && SafeOutput(e.output) && e.form.ref == B.BundleFileRef(js.hash(e.output.template))
    requires B.ContextRefOf(e.output) == Some(e.form.context)
    ensures var w := ServerRules(js);
            && w.isIndex(IndexObject(key)) && !w.isIndex(e.form.ref)
            && w.bundleRef(e.form.ref) == Some(e.form.ref) && w.contextRef(e.form.context) == Some(e.form.context)
    ensures e.form.ref != IndexObject(key) && e.form.context !in {IndexObject(key), e.form.ref}
  {
    BundleNamesAreAccepted(js, key, js.hash(e.output.template));
    ContextRefNormalises(e.output.source, e.output.chain, e.output.address);
    ContextNames(e.form.context, key, js.hash(e.output.template));
  }

  lemma StoredIsPublished(w: P.Rules, key: string, e: B.Entry, contextSha: string, template: Json, doc: Json)
    requires e.form.ContextRef? && e.output.SourceRef?
    requires w.isIndex(IndexObject(key)) && !w.isIndex(e.form.ref)
    requires w.bundleRef(e.form.ref) == Some(e.form.ref) && w.contextRef(e.form.context) == Some(e.form.context)
    requires e.form.context !in {IndexObject(key), e.form.ref}
    ensures P.PublishedOk(w, PublishedStored(key, e, contextSha, template, doc))
  {
    EntryFields(e, contextSha, Null, Null);
  }

  /** A rebuilt bundle is an object with an id. */
  lemma RebuiltHasId(js: M.Js, template: Json, doc: Json)
    ensures var made := M.MaterializeSourceBundle(js, template, doc); made.Some? ==> made.value.Obj? && "id" in made.value.fields
  {
  }

  lemma MadeIsRebuilt(w: P.Rules, p: P.Published, made: Option<Json>)
    requires p.blob.Text? && p.context.Some? && p.context.value.blob.Text? && made == w.rebuild(p.blob.json, p.context.value.blob.json)
    requires made.Some? ==> made.value.Obj? && "id" in made.value.fields
    ensures P.Made(w, p) == made
  {
  }

  /** What the build says of a source-context entry. */
  lemma ContextIsBacked(js: M.Js, manifests: seq<B.Manifest>, key: string)
    requires var b := B.Built(BuilderHashes(js), manifests); key in b.index && b.index[key].form.ContextRef?
    ensures var b := B.Built(BuilderHashes(js), manifests);
            var e := b.index[key];
            && e.output.SourceRef? && e.bundle == e.output.bundle && e.sha == js.hash(EncodeBundle(e.bundle))
            && e.form.ref == B.BundleFileRef(js.hash(e.output.template)) && B.ContextRefOf(e.output) == Some(e.form.context)
            && (Stored(b, e.form.ref) == e.output.template || Collision(js.hash, Stored(b, e.form.ref), e.output.template))
  {
    var h := BuilderHashes(js);
    assert B.Coherent(h);
    B.TemplatesHold(h, manifests, key);
    B.EntriesMatchTheirKeys(h, manifests, false);
    assert B.EntryMatches(h, key, B.Built(h, manifests).index[key], false);
  }

  /** The index file and the two objects stored for the entry are in the bucket, and what the proxy knows of them agrees. */
  ghost predicate ContextUploaded(js: M.Js, b: B.Book, key: string, contextSha: string, s: P.State)
    requires key in b.index && b.index[key].form.ContextRef? && b.index[key].output.SourceRef?
  {
    var p := PublishedStored(key, b.index[key], contextSha, Stored(b, b.index[key].form.ref), Stored(b, b.index[key].form.context));
    P.PublishedOk(ServerRules(js), p) && P.Agrees(ServerRules(js), p, s)
  }

  ghost predicate ContextAnswers(js: M.Js, b: B.Book, key: string, contextSha: string, s: P.State, after: seq<P.Step>, q: nat)
    requires key in b.index && b.index[key].form.ContextRef? && b.index[key].output.SourceRef?
  {
    && ContextUploaded(js, b, key, contextSha, s)
    && Answers(js, PublishedStored(key, b.index[key], contextSha, Stored(b, b.index[key].form.ref), Stored(b, b.index[key].form.context)),
               s, after, q)
  }

  /**
   For every source-context entry of every build the stored template and context decide: the
   answer is 200 exactly when the proxy rebuilds from them a bundle with the entry's hash, and
   502 otherwise; and the bundle of a 200 is the builder's, or collides with it.
   */
  lemma StoredContextDecides(
    js: M.Js, manifests: seq<B.Manifest>, key: string, contextSha: string,
    bucket: map<string, P.Blob>, before: seq<P.Step>, after: seq<P.Step>, q: nat)
    requires var b := B.Built(BuilderHashes(js), manifests);
             && HexHash(js) && key in b.index && b.index[key].form.ContextRef? && SafeOutput(b.index[key].output)
             && Reached(js, bucket, before).Some? && ContextAnswers(js, b, key, contextSha, Reached(js, bucket, before).value, after, q)
    ensures var b := B.Built(BuilderHashes(js), manifests);
            var e := b.index[key];
            var made := M.MaterializeSourceBundle(js, Stored(b, e.form.ref), Stored(b, e.form.context));
            var a := AnswerTo(js, Reached(js, bucket, before).value, after, q);
            && (a.Ok? <==> made.Some? && js.hash(made.value) == e.sha)
            && (!a.Ok? ==> a == P.BadGateway)
            && (a.Ok? ==>
                  && made.value.Obj? && "id" in made.value.fields
                  && P.BlobOf(a.body) == P.Text(ServedRebuilt(e, made.value.fields["id"], made.value))
                  && (made.value == EncodeBundle(e.bundle) || Collision(js.hash, made.value, EncodeBundle(e.bundle))))
  {
    var b := B.Built(BuilderHashes(js), manifests);
    var e := b.index[key];
    var t, d := Stored(b, e.form.ref), Stored(b, e.form.context);
    var made := M.MaterializeSourceBundle(js, t, d);
    ContextIsBacked(js, manifests, key);
    LowerOfHexWord(e.sha, 64);
    RebuiltHasId(js, t, d);
    MadeIsRebuilt(ServerRules(js), PublishedStored(key, e, contextSha, t, d), made);
    if made.Some? {
      EntryFields(e, contextSha, made.value.fields["id"], made.value);
    } else {
      EntryFields(e, contextSha, Null, Null);
    }
    ServedAsPublished(js, PublishedStored(key, e, contextSha, t, d), bucket, before, after, q);
  }

  /**
   Build to serve, for source-context entries: in a build without errors whose written contexts
   agree, every answer for a servable entry is 200 with exactly the builder's bundle, unless the
   stored template is another value with the template's hash.
   */
  lemma ContextToServe(
    js: M.Js, manifests: seq<B.Manifest>, key: string, contextSha: string, template: map<string, Json>, selector: string, entry: M.SourceEntry,
    bucket: map<string, P.Blob>, before: seq<P.Step>, after: seq<P.Step>, q: nat)
    requires var b := B.Built(BuilderHashes(js), manifests);
             && HexHash(js) && key in b.index && b.index[key].form.ContextRef? && SafeOutput(b.index[key].output)
             && Reached(js, bucket, before).Some? && ContextAnswers(js, b, key, contextSha, Reached(js, bucket, before).value, after, q)
    requires var b := B.Built(BuilderHashes(js), manifests);
             && b.errors == 0 && B.WrittenContextsAgree(B.ConcreteKeys(manifests), B.BuildEvents(B.ConcreteKeys(manifests), manifests))
             && BuiltFrom(js, b.index[key].output, template, selector, entry) && Servable(js, b.index[key].output, template, entry)
    ensures var b := B.Built(BuilderHashes(js), manifests);
            var e := b.index[key];
            var a := AnswerTo(js, Reached(js, bucket, before).value, after, q);
            (a.Ok? && P.BlobOf(a.body) == P.Text(Expected(e))) || Collision(js.hash, Stored(b, e.form.ref), e.output.template)
  {
    var b := B.Built(BuilderHashes(js), manifests);
    var e := b.index[key];
    ContextIsBacked(js, manifests, key);
    ContextIsOwn(js, manifests, key);
    OutputIsRebuilt(js, e.output, template, selector, entry);
    StoredContextDecides(js, manifests, key, contextSha, bucket, before, after, q);
    ExpectedIsRebuilt(e);
  }

  lemma ContextIsOwn(js: M.Js, manifests: seq<B.Manifest>, key: string)
    requires var b := B.Built(BuilderHashes(js), manifests);
             && b.errors == 0 && B.WrittenContextsAgree(B.ConcreteKeys(manifests), B.BuildEvents(B.ConcreteKeys(manifests), manifests))
             && key in b.index && b.index[key].form.ContextRef?
    ensures var b := B.Built(BuilderHashes(js), manifests);
            b.index[key].output.SourceRef? && Stored(b, b.index[key].form.context) == B.DocOf(b.index[key].output)
  {
    B.AgreeingContextIsOwn(BuilderHashes(js), manifests, key);
  }

  lemma ExpectedIsRebuilt(e: B.Entry)
    ensures var bundle := EncodeBundle(e.bundle);
            "id" in bundle.fields && ServedRebuilt(e, bundle.fields["id"], bundle) == Expected(e)
  {
    assert EncodeBundle(e.bundle).fields["id"] == Str(e.bundle.id);
  }

  // ---- the hypotheses can be met -------------------------------------------------------

  function Zeros(): string { seq(64, _ => '0') }

  function SmallJs(): M.Js { M.Js(_ => "0x" + Zeros(), _ => None, _ => "1", _ => "") }

  function SmallManifests(o: B.Output): seq<B.Manifest> { [B.Sourced("a.json", Some([o]))] }

  /** A bucket, and a schedule from a cold start, in which a published entry is asked for and answered. */
  lemma PublishedCanBeAnswered(js: M.Js, p: P.Published) returns (bucket: map<string, P.Blob>, after: seq<P.Step>)
    requires P.PublishedOk(ServerRules(js), p) && !p.pinned
    ensures Reached(js, bucket, []) == Some(P.Fresh(bucket)) && P.Agrees(ServerRules(js), p, P.Fresh(bucket))
    ensures Answers(js, p, P.Fresh(bucket), after, 0)
  {
    bucket := map[p.name := p.blob];
    if p.context.Some? {
      bucket := bucket[p.context.value.name := p.context.value.blob];
    }
    bucket := bucket[p.index := P.Text(Obj(p.entry))];
    assert P.InBucket(p, bucket);
    ServerRulesAreValid(js);
    after := P.ColdRequestIsAnswered(ServerRules(js), p, bucket);
  }

  /** A hash of the right shape, a build with a reference entry, a bucket it is uploaded to and an answered request: what `BuildToServe` asks for exists. */
  lemma BuildToServeIsNotVacuous(address: string, selector: string)
    requires IsAnyHexWord(address, 40) && IsAnyHexWord(selector, 8)
    ensures var js := SmallJs();
            var o := B.Plain(B.Bundle("x", selector, [B.Target(1, [address])], map[], map[]));
            var b := B.Built(BuilderHashes(js), SmallManifests(o));
            var key := B.CallkeyFilename(1, address, selector);
            && HexHash(js) && (forall m <- SmallManifests(o) :: B.ManifestWellFormed(m))
            && key in b.index && b.index[key].form.BundleRef? && b.index[key].form.ref in b.generated
            && exists bucket, after ::
                 && Reached(js, bucket, []) == Some(P.Fresh(bucket)) && Uploaded(js, b, key, P.Fresh(bucket))
                 && Answers(js, PublishedAs(key, b.index[key], b.generated[b.index[key].form.ref].content), P.Fresh(bucket), after, 0)
  {
    var js := SmallJs();
    var o := B.Plain(B.Bundle("x", selector, [B.Target(1, [address])], map[], map[]));
    var h := BuilderHashes(js);
    var b := B.Built(h, SmallManifests(o));
    var key := B.CallkeyFilename(1, address, selector);
    ZeroIsHex("0x", Zeros());
    B.OnePlainBuild(h, o, (1, address));
    SmallIsWellFormed(o, address);
    EntryIsBacked(js, SmallManifests(o), key);
    var content := b.generated[b.index[key].form.ref].content;
    BackedIsPublished(js, key, b.index[key], content);
    var bucket, after := PublishedCanBeAnswered(js, PublishedAs(key, b.index[key], content));
    assert Uploaded(js, b, key, P.Fresh(bucket));
  }

  lemma ZeroIsHex(prefix: string, zeros: string)
    requires prefix == "0x" && zeros == Zeros()
    ensures IsHexWord(prefix + zeros, 64)
  {
    assert (prefix + zeros)[..2] == prefix && (prefix + zeros)[2..] == zeros;
  }

  lemma SmallIsWellFormed(o: B.Output, address: string)
    requires o.bundle.targets == [B.Target(1, [address])] && IsAnyHexWord(address, 40) && IsAnyHexWord(o.bundle.selector, 8)
    ensures B.WellFormed(o.bundle)
  {
    assert o.bundle.targets[..0] == [];
    assert B.TargetPairs(B.Target(1, [address])) == [(1, address)];
    assert B.Pairs(o.bundle.targets) == [(1, address)];
  }

  // ---- outputs of one small source -----------------------------------------------------

  /** A resolver's answer for the address, with an id suffix of its choice. */
  function PoolEntry(address: string, suffix: string): M.SourceEntry { M.SourceEntry(address, Some(suffix), map[]) }

  function PoolBundle(address: string, selector: string, id: string): B.Bundle {
    B.Bundle(id, selector, [B.Target(1, [address])], map[], map[])
  }

  /** What the builder makes of a manifest for `selector` and that answer. */
  function PoolOutput(js: M.Js, address: string, selector: string, suffix: string): B.Output {
    B.SourceRef(PoolBundle(address, selector, "pool" + "/" + suffix), Obj(M.SmallTemplate("pool", selector)), "a:b", 1, address,
                Obj(M.BuildSourceContext(js, 1.0, PoolEntry(address, suffix))))
  }

  lemma PoolBundleIsEncoded(address: string, selector: string, id: string)
    ensures EncodeBundle(PoolBundle(address, selector, id)) == M.Placed(M.SmallTemplate("pool", selector), id, selector, "1", address)
  {
    var targets := [B.Target(1, [address])];
    assert targets[..0] == [] && Digits(1) == "1";
    assert EncodeAddresses([address]) == [Str(address)];
    assert EncodeTargets([]) == map[];
    assert EncodeTargets(targets) == map["1" := Arr([Str(address)])];
  }

  lemma SmallTemplateIsItself(js: M.Js, selector: string, context: Json)
    requires IsAnyHexWord(selector, 8)
    ensures M.Substitute(js, Obj(M.SmallTemplate("pool", selector)), context) == Some(Obj(M.SmallTemplate("pool", selector)))
  {
    M.SubstituteKeepsHex(js, selector, 8, context);
    var route := map["selector" := Str(selector)];
    M.SubstituteUnchanged(js, route, context);
    ShortIsNoPlaceholder("pool");
    assert M.SmallTemplate("pool", selector)["match"] == Obj(route);
    M.SubstituteUnchanged(js, M.SmallTemplate("pool", selector), context);
  }

  lemma ShortIsNoPlaceholder(s: string)
    requires |s| < 8
    ensures !M.IsPlaceholder(s)
  {
  }

  lemma PoolIsBuilt(js: M.Js, selector: string, suffix: string, entry: M.SourceEntry, context: map<string, Json>)
    requires js.show(1.0) == "1" && M.CleanSuffix(suffix) && suffix != ""
    requires entry.idSuffix == Some(suffix) && context == M.BuildSourceContext(js, 1.0, entry)
    requires M.Substitute(js, Obj(M.SmallTemplate("pool", selector)), Obj(context)) == Some(Obj(M.SmallTemplate("pool", selector)))
    ensures M.BuildMaterialized(js, M.SmallTemplate("pool", selector), selector, 1.0, entry) ==
            Some(M.Placed(M.SmallTemplate("pool", selector), "pool" + "/" + suffix, selector, "1", entry.address))
  {
    M.CleanIsKept(suffix);
    assert context["id_suffix"] == Str(suffix);
    assert AfterLast("pool", '@') == 0 by { assert '@' !in "pool"; }
  }

  /** The outputs are ones the builder makes, with names and conditions as the proxy needs them. */
  lemma PoolOutputIsServable(js: M.Js, address: string, selector: string, suffix: string)
    requires js.show(1.0) == "1" && IsHexWord(address, 40) && IsAnyHexWord(selector, 8) && M.CleanSuffix(suffix) && suffix != ""
    ensures var o := PoolOutput(js, address, selector, suffix);
            && BuiltFrom(js, o, M.SmallTemplate("pool", selector), selector, PoolEntry(address, suffix))
            && Servable(js, o, M.SmallTemplate("pool", selector), PoolEntry(address, suffix)) && SafeOutput(o)
  {
    var entry := PoolEntry(address, suffix);
    var context := M.BuildSourceContext(js, 1.0, entry);
    LowerOfHexWord(address, 40);
    SmallTemplateIsItself(js, selector, Obj(context));
    PoolIsBuilt(js, selector, suffix, entry, context);
    PoolBundleIsEncoded(address, selector, "pool" + "/" + suffix);
    SmallSourceIsSafe();
    HexIsAnyHex(address);
    M.SubstituteField(js, M.SmallTemplate("pool", selector), "id", Obj(context));
  }

  lemma HexIsAnyHex(s: string)
    requires IsHexWord(s, 40)
    ensures IsAnyHexWord(s, 40)
  {
  }

  lemma SmallSourceIsSafe()
    ensures SafeSource("a:b")
  {
    var s := "a:b";
    assert IndexOf(s, ':') == 1 by { assert s[0] == 'a' && s[1..][0] == ':'; }
    assert s[..1] == "a" && s[2..] == "b";
    M.SplitWithout("b", ':');
    assert Split(s, ':') == ["a", "b"];
  }

  /** A build, a source-context entry, a bucket and an answered request that meet what `ContextToServe` asks for. */
  lemma ContextToServeIsNotVacuous(address: string, o: B.Output)
    requires IsHexWord(address, 40) && o == PoolOutput(SmallJs(), address, M.SELECTOR, "x")
    ensures var js := SmallJs();
            var b := B.Built(BuilderHashes(js), SmallManifests(o));
            var key := B.CallkeyFilename(1, address, M.SELECTOR);
            var concrete := B.ConcreteKeys(SmallManifests(o));
            && HexHash(js) && b.errors == 0 && key in b.index && b.index[key].form.ContextRef? && b.index[key].output == o && SafeOutput(o)
            && B.WrittenContextsAgree(concrete, B.BuildEvents(concrete, SmallManifests(o)))
            && BuiltFrom(js, o, M.SmallTemplate("pool", M.SELECTOR), M.SELECTOR, PoolEntry(address, "x"))
            && Servable(js, o, M.SmallTemplate("pool", M.SELECTOR), PoolEntry(address, "x"))
            && exists bucket, after :: Reached(js, bucket, []) == Some(P.Fresh(bucket)) && ContextAnswers(js, b, key, "", P.Fresh(bucket), after, 0)
  {
    var js := SmallJs();
    var h := BuilderHashes(js);
    var key := B.CallkeyFilename(1, address, M.SELECTOR);
    ZeroIsHex("0x", Zeros());
    M.SelectorIsHex();
    PoolOutputIsServable(js, address, M.SELECTOR, "x");
    ContextRefNormalises(o.source, o.chain, o.address);
    B.OneSourceBuild(h, o, (1, address));
    ContextCanBeAnswered(js, SmallManifests(o), key);
  }

  lemma ContextCanBeAnswered(js: M.Js, manifests: seq<B.Manifest>, key: string)
    requires var b := B.Built(BuilderHashes(js), manifests);
             HexHash(js) && key in b.index && b.index[key].form.ContextRef? && SafeOutput(b.index[key].output)
    ensures var b := B.Built(BuilderHashes(js), manifests);
            exists bucket, after :: Reached(js, bucket, []) == Some(P.Fresh(bucket)) && ContextAnswers(js, b, key, "", P.Fresh(bucket), after, 0)
  {
    var b := B.Built(BuilderHashes(js), manifests);
    var e := b.index[key];
    ContextIsBacked(js, manifests, key);
    ContextNamesAreAccepted(js, key, e);
    StoredIsPublished(ServerRules(js), key, e, "", Stored(b, e.form.ref), Stored(b, e.form.context));
    var bucket, after := PublishedCanBeAnswered(js, PublishedStored(key, e, "", Stored(b, e.form.ref), Stored(b, e.form.context)));
    assert ContextAnswers(js, b, key, "", P.Fresh(bucket), after, 0);
  }

  // ---- a silent collision --------------------------------------------------------------

  const OTHER_SELECTOR := "0x00000001"

  lemma SelectorsDiffer(address: string)
    ensures IsAnyHexWord(OTHER_SELECTOR, 8)
    ensures B.CallkeyFilename(1, address, M.SELECTOR) != B.CallkeyFilename(1, address, OTHER_SELECTOR)
  {
    var head := Digits(1) + "__" + Lower(address) + "__";
    B.KeyTail(head, Lower(M.SELECTOR), 9);
    B.KeyTail(head, Lower(OTHER_SELECTOR), 9);
  }

  lemma BundleRefsAreInjective(prefix: string, a: string, b: string, tail: string)
    requires |a| == |b| && prefix + a + tail == prefix + b + tail
    ensures a == b
  {
    assert (prefix + a + tail)[|prefix|..|prefix| + |a|] == a && (prefix + b + tail)[|prefix|..|prefix| + |b|] == b;
  }

  lemma TemplateRefs(js: M.Js, o: B.Output, p: B.Output)
    requires HexHash(js) && o.SourceRef? && p.SourceRef?
    ensures B.BundleFileRef(js.hash(o.template)) == B.BundleFileRef(js.hash(p.template)) ==> js.hash(o.template) == js.hash(p.template)
  {
    var a, b := js.hash(o.template), js.hash(p.template);
    LowerOfHexWord(a, 64);
    LowerOfHexWord(b, 64);
    if B.BundleFileRef(a) == B.BundleFileRef(b) {
      BundleRefsAreInjective("bundles/", a, b, ".json");
    }
  }

  /** Two resolver answers with different suffixes give different contexts. */
  lemma PoolContextsDiffer(js: M.Js, address: string, x: string, y: string)
    requires x != y
    ensures Obj(M.BuildSourceContext(js, 1.0, PoolEntry(address, x))) != Obj(M.BuildSourceContext(js, 1.0, PoolEntry(address, y)))
  {
    var c, d := M.BuildSourceContext(js, 1.0, PoolEntry(address, x)), M.BuildSourceContext(js, 1.0, PoolEntry(address, y));
    assert c["id_suffix"] == Str(x) && d["id_suffix"] == Str(y);
  }

  /** An id suffix that is kept as it is. */
  ghost predicate GoodSuffix(s: string) { M.CleanSuffix(s) && s != "" }

  /**
   Two manifests of one source for two selectors, and a resolver whose second answer for the
   address differs from its first: both outputs are the builder's own, the build has no errors,
   and the second entry refers to the first one's context.
   */
  lemma SilentCollision(js: M.Js, address: string, s1: string, s2: string, x: string, y: string, o: B.Output, p: B.Output)
    requires HexHash(js) && js.show(1.0) == "1" && IsHexWord(address, 40) && IsAnyHexWord(s1, 8) && IsAnyHexWord(s2, 8)
    requires B.CallkeyFilename(1, address, s1) != B.CallkeyFilename(1, address, s2) && GoodSuffix(x) && GoodSuffix(y) && x != y
    requires o == PoolOutput(js, address, s1, x) && p == PoolOutput(js, address, s2, y)
    ensures BuiltFrom(js, o, M.SmallTemplate("pool", s1), s1, PoolEntry(address, x))
    ensures BuiltFrom(js, p, M.SmallTemplate("pool", s2), s2, PoolEntry(address, y)) && SafeOutput(p)
    ensures var b := B.Built(BuilderHashes(js), B.TwoManifests(o, p));
            var key := B.CallkeyFilename(1, address, s2);
            && b.errors == 0 && key in b.index && b.index[key].form.ContextRef? && b.index[key].output == p && b.index[key].bundle == p.bundle
            && Stored(b, b.index[key].form.context) == B.DocOf(o) != B.DocOf(p)
  {
    PoolOutputIsServable(js, address, s1, x);
    PoolOutputIsServable(js, address, s2, y);
    ContextRefNormalises(o.source, o.chain, o.address);
    PoolContextsDiffer(js, address, x, y);
    CollidingBuild(js, o, p, address);
  }

  lemma CollidingBuild(js: M.Js, o: B.Output, p: B.Output, address: string)
    requires HexHash(js) && o.SourceRef? && p.SourceRef? && B.ContextRefOf(o).Some?
    requires B.OnePair(o, (1, address)) && B.OnePair(p, (1, address))
    requires B.CallkeyFilename(1, address, o.bundle.selector) != B.CallkeyFilename(1, address, p.bundle.selector)
    requires o.source == p.source && o.chain == p.chain && o.address == p.address && o.context != p.context
    ensures var b := B.Built(BuilderHashes(js), B.TwoManifests(o, p));
            var key := B.CallkeyFilename(1, address, p.bundle.selector);
            && b.errors == 0 && key in b.index && b.index[key].form.ContextRef? && b.index[key].output == p && b.index[key].bundle == p.bundle
            && Stored(b, b.index[key].form.context) == B.DocOf(o) != B.DocOf(p)
  {
    TemplateRefs(js, o, p);
    B.ContextCollisionIsSilent(BuilderHashes(js), o, (1, address), p, (1, address));
  }

  /** What the proxy makes of the second template and the first context: the second bundle under the first id. */
  lemma WrongContextRebuildsAnother(js: M.Js, address: string, s1: string, s2: string, x: string, y: string, o: B.Output, p: B.Output)
    requires js.show(1.0) == "1" && IsHexWord(address, 40) && IsAnyHexWord(s2, 8) && GoodSuffix(x) && x != y
    requires o == PoolOutput(js, address, s1, x) && p == PoolOutput(js, address, s2, y)
    ensures var wrong := EncodeBundle(PoolBundle(address, s2, "pool" + "/" + x));
            M.MaterializeSourceBundle(js, p.template, B.DocOf(o)) == Some(wrong) && wrong != EncodeBundle(p.bundle)
  {
    var mixed := PoolOutput(js, address, s2, x);
    PoolOutputIsServable(js, address, s2, x);
    OutputIsRebuilt(js, mixed, M.SmallTemplate("pool", s2), s2, PoolEntry(address, x));
    assert B.DocOf(mixed) == B.DocOf(o);
    IdsDiffer(address, s2, "pool" + "/", x, y);
  }

  lemma IdsDiffer(address: string, selector: string, head: string, x: string, y: string)
    requires x != y
    ensures EncodeBundle(PoolBundle(address, selector, head + x)) != EncodeBundle(PoolBundle(address, selector, head + y))
  {
    var a, b := EncodeBundle(PoolBundle(address, selector, head + x)), EncodeBundle(PoolBundle(address, selector, head + y));
    assert a.fields["id"] == Str(head + x) && b.fields["id"] == Str(head + y);
    assert (head + x)[|head|..] == x && (head + y)[|head|..] == y;
  }

  /** So the proxy answers 502 for the second entry of such a build, in every undisturbed schedule, unless two named values collide under the hash. */
  lemma SilentCollisionIsRefused(
    js: M.Js, address: string, s1: string, s2: string, x: string, y: string, o: B.Output, p: B.Output, contextSha: string,
    bucket: map<string, P.Blob>, before: seq<P.Step>, after: seq<P.Step>, q: nat)
    requires HexHash(js) && js.show(1.0) == "1" && IsHexWord(address, 40) && IsAnyHexWord(s1, 8) && IsAnyHexWord(s2, 8)
    requires B.CallkeyFilename(1, address, s1) != B.CallkeyFilename(1, address, s2) && GoodSuffix(x) && GoodSuffix(y) && x != y
    requires o == PoolOutput(js, address, s1, x) && p == PoolOutput(js, address, s2, y)
    requires var b := B.Built(BuilderHashes(js), B.TwoManifests(o, p));
             var key := B.CallkeyFilename(1, address, s2);
             && key in b.index && b.index[key].form.ContextRef? && b.index[key].output.SourceRef?
             && Reached(js, bucket, before).Some? && ContextAnswers(js, b, key, contextSha, Reached(js, bucket, before).value, after, q)
    ensures var b := B.Built(BuilderHashes(js), B.TwoManifests(o, p));
            var e := b.index[B.CallkeyFilename(1, address, s2)];
            || AnswerTo(js, Reached(js, bucket, before).value, after, q) == P.BadGateway
            || Collision(js.hash, EncodeBundle(PoolBundle(address, s2, "pool" + "/" + x)), EncodeBundle(p.bundle))
            || Collision(js.hash, Stored(b, e.form.ref), p.template)
  {
    var key := B.CallkeyFilename(1, address, s2);
    SilentCollision(js, address, s1, s2, x, y, o, p);
    ContextIsBacked(js, B.TwoManifests(o, p), key);
    WrongContextRebuildsAnother(js, address, s1, s2, x, y, o, p);
    StoredContextDecides(js, B.TwoManifests(o, p), key, contextSha, bucket, before, after, q);
  }

  /** One such build, whatever the hash, with an answered request for its second entry. */
  lemma SilentCollisionHappens(js: M.Js, address: string, o: B.Output, p: B.Output)
    requires HexHash(js) && js.show(1.0) == "1" && IsHexWord(address, 40)
    requires o == PoolOutput(js, address, M.SELECTOR, "x") && p == PoolOutput(js, address, OTHER_SELECTOR, "y")
    ensures var b := B.Built(BuilderHashes(js), B.TwoManifests(o, p));
            var key := B.CallkeyFilename(1, address, OTHER_SELECTOR);
            && b.errors == 0 && key in b.index && b.index[key].form.ContextRef? && b.index[key].output == p
            && Stored(b, b.index[key].form.context) == B.DocOf(o) != B.DocOf(p)
            && exists bucket, after :: Reached(js, bucket, []) == Some(P.Fresh(bucket)) && ContextAnswers(js, b, key, "", P.Fresh(bucket), after, 0)
  {
    M.SelectorIsHex();
    SelectorsDiffer(address);
    assert "x"[0] != "y"[0];
    SilentCollision(js, address, M.SELECTOR, OTHER_SELECTOR, "x", "y", o, p);
    ContextCanBeAnswered(js, B.TwoManifests(o, p), B.CallkeyFilename(1, address, OTHER_SELECTOR));
  }
}
