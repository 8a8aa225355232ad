/**
 Who owns which call key: the emission loop of the index builder, from loaded manifests to
 the index files, the collision counters and the exit code. The full build is modelled, not
 the representative one.
 */
module BuildIndex {
  import opened Common
  import opened Text
  import opened Json
  import M = Materialize

  datatype Target = Target(chain: nat, addresses: seq<string>)

  /** A resolved bundle: what it matches, the other fields of `match` in `extra`, the other fields of the bundle in `rest`. */
  datatype Bundle = Bundle(id: string, selector: string, targets: seq<Target>, extra: map<string, Json>, rest: map<string, Json>)

  datatype Output =
    | Plain(bundle: Bundle)
    | SourceRef(bundle: Bundle, template: Json, source: string, chain: nat, address: string, context: Json)

  /** A manifest as far as the loop sees it; `clash` says its typed-data or selector entry already exists. */
  datatype Manifest =
    | Broken(path: string)
    | Concrete(path: string, bundle: Bundle, clash: bool)
    | Sourced(path: string, outputs: Option<seq<Output>>)
    | Agnostic(path: string, clash: bool)

  /** The builder's hashes, of a bundle and of any generated object. */
  datatype Hashes = Hashes(bundle: Bundle -> string, json: Json -> string, encode: Bundle -> Json)

  // ---- call keys -----------------------------------------------------------------------

  function CallkeyFilename(chain: nat, to: string, selector: string): string {
    Digits(chain) + "__" + Lower(to) + "__" + Lower(selector) + ".json"
  }

  lemma CutAtFirst(a: string, b: string, c: string, d: string, mark: char)
    requires mark !in a && mark !in c
    ensures a + [mark] + b == c + [mark] + d <==> a == c && b == d
  {
    var x, y := a + [mark] + b, c + [mark] + d;
    if x == y {
      assert x[|a|] == mark && y[|c|] == mark;
      assert |a| == |c|;
      assert a == x[..|a|] == c && b == x[|a| + 1..] == d;
    }
  }

  lemma LowerHasNoMark(s: string, mark: char)
    requires mark !in s && !('a' <= mark <= 'z')
    ensures mark !in Lower(s)
  {
  }

  /** Two call keys share a file exactly when chain, address and selector agree, the last two without regard to case. */
  lemma CallkeysAreDistinct(chain: nat, to: string, selector: string, chain': nat, to': string, selector': string)
    requires '_' !in to && '_' !in to'
    ensures CallkeyFilename(chain, to, selector) == CallkeyFilename(chain', to', selector') <==>
            chain == chain' && Lower(to) == Lower(to') && Lower(selector) == Lower(selector')
  {
    DigitsRoundTrip(chain);
    DigitsRoundTrip(chain');
    LowerHasNoMark(to, '_');
    LowerHasNoMark(to', '_');
    CallkeyParts(Digits(chain), Lower(to), Lower(selector), Digits(chain'), Lower(to'), Lower(selector'), '_', ".json");
  }

  lemma CallkeyParts(a: string, b: string, c: string, a': string, b': string, c': string, mark: char, end: string)
    requires mark !in a && mark !in a' && mark !in b && mark !in b'
    ensures a + [mark, mark] + b + [mark, mark] + c + end == a' + [mark, mark] + b' + [mark, mark] + c' + end <==>
            a == a' && b == b' && c == c'
  {
    Regrouped(a, b, c, mark, end);
    Regrouped(a', b', c', mark, end);
    CutAtFirst(a, [mark] + (b + [mark] + ([mark] + (c + end))), a', [mark] + (b' + [mark] + ([mark] + (c' + end))), mark);
    M.DropFront([mark], b + [mark] + ([mark] + (c + end)), b' + [mark] + ([mark] + (c' + end)));
    CutAtFirst(b, [mark] + (c + end), b', [mark] + (c' + end), mark);
    M.DropFront([mark], c + end, c' + end);
    M.DropEnd(c, end, c');
  }

  lemma Regrouped(a: string, b: string, c: string, mark: char, end: string)
    ensures a + [mark, mark] + b + [mark, mark] + c + end == a + [mark] + ([mark] + (b + [mark] + ([mark] + (c + end))))
  {
  }

  function TargetPairs(t: Target): seq<(nat, string)> {
    seq(|t.addresses|, i requires 0 <= i < |t.addresses| => (t.chain, t.addresses[i]))
  }

  /** The (chain, address) pairs in the order the two inner loops visit them. */
  function Pairs(targets: seq<Target>): seq<(nat, string)> {
    if targets == [] then [] else Pairs(targets[..|targets| - 1]) + TargetPairs(targets[|targets| - 1])
  }

  function KeyOf(b: Bundle, p: (nat, string)): string { CallkeyFilename(p.0, p.1, b.selector) }

  function KeysAt(selector: string, pairs: seq<(nat, string)>): set<string> {
    set p <- pairs :: CallkeyFilename(p.0, p.1, selector)
  }

  function KeysOf(b: Bundle): set<string> { KeysAt(b.selector, Pairs(b.targets)) }

  // ---- claims and the book -------------------------------------------------------------

  /** One turn of the innermost loop. */
  datatype Claim = Claim(path: string, sourced: bool, output: Output, bundle: Bundle, pair: (nat, string))

  datatype Event = Claimed(claim: Claim) | Ended(failed: bool)

  datatype Form = Inline | BundleRef(ref: string) | ContextRef(ref: string, context: string)

  /** An index file; `output`, only used in proofs, is what it was made from. */
  datatype Entry = Entry(path: string, sourced: bool, sha: string, bundle: Bundle, form: Form, output: Output)

  datatype Owner = Owner(path: string, sha: string)

  datatype Generated = Generated(sha: string, content: Json)

  /** `threw` says the current manifest has thrown and its remaining turns are abandoned. */
  datatype Book = Book(
    index: map<string, Entry>, owners: map<string, Owner>, generated: map<string, Generated>,
    threw: bool, errors: nat, duplicates: nat, collisions: nat)

  const BLANK := Book(map[], map[], map[], false, 0, 0, 0)

  function ClaimKey(c: Claim): string { KeyOf(c.bundle, c.pair) }

  function BundleFileRef(sha: string): string { "bundles/" + Lower(sha) + ".json" }

  /** `writeGeneratedJsonObject`: the first content stays, a second one is an error. */
  function WriteGenerated(b: Book, ref: string, sha: string, content: Json): Book {
    if ref !in b.generated then b.(generated := b.generated[ref := Generated(sha, content)])
    else if b.generated[ref].sha != sha then b.(threw := true)
    else b
  }

  /** Where the context of a source output goes; `None` when its source names no path. */
  function ContextRefOf(o: Output): Option<string>
    requires o.SourceRef?
  {
    M.SourceContextRef(o.source, o.chain, o.address)
  }

  function DocOf(o: Output): Json
    requires o.SourceRef?
  {
    M.DocumentOf(o.source, o.chain as real, o.address, o.context)
  }

  /** The context object; one already written under its name is not compared. */
  function WriteContext(h: Hashes, b: Book, ref: Option<string>, doc: Json): Book {
    if b.threw then b
    else if ref.None? then b.(threw := true)
    else if ref.value in b.generated then b
    else WriteGenerated(b, ref.value, h.json(doc), doc)
  }

  /** The objects an entry refers to. */
  function WriteArtifacts(h: Hashes, b: Book, c: Claim): Book {
    if c.output.SourceRef? then
      var t := h.json(c.output.template);
      WriteContext(h, WriteGenerated(b, BundleFileRef(t), t, c.output.template), ContextRefOf(c.output), DocOf(c.output))
    else if c.sourced then
      WriteGenerated(b, BundleFileRef(h.bundle(c.bundle)), h.bundle(c.bundle), h.encode(c.bundle))
    else b
  }

  function FormOf(h: Hashes, c: Claim): Form {
    if c.output.SourceRef? then
      var ref := ContextRefOf(c.output);
      ContextRef(BundleFileRef(h.json(c.output.template)), if ref.Some? then ref.value else "")
    else if c.sourced then BundleRef(BundleFileRef(h.bundle(c.bundle)))
    else Inline
  }

  function EntryOf(h: Hashes, c: Claim): Entry {
    Entry(c.path, c.sourced, h.bundle(c.bundle), c.bundle, FormOf(h, c), c.output)
  }

  function Write(h: Hashes, b: Book, c: Claim): Book {
    b.(index := b.index[ClaimKey(c) := EntryOf(h, c)])
  }

  function Own(h: Hashes, b: Book, c: Claim): Book {
    b.(owners := b.owners[ClaimKey(c) := Owner(c.path, h.bundle(c.bundle))])
  }

  /** A turn for a concrete manifest: identical bundles keep the first, different ones the last. */
  function EmitConcrete(h: Hashes, b: Book, c: Claim): Book {
    var key, sha := ClaimKey(c), h.bundle(c.bundle);
    if key in b.owners && b.owners[key].path != c.path then
      if b.owners[key].sha == sha then b.(duplicates := b.duplicates + 1)
      else Write(h, Own(h, b.(collisions := b.collisions + 1), c), c)
    else Write(h, Own(h, b, c), c)
  }

  /** A turn for a sourced manifest: never over an existing file, never on a concrete key. */
  function EmitSourced(h: Hashes, concrete: set<string>, b: Book, c: Claim): Book {
    var key := ClaimKey(c);
    if key in b.index || key in concrete then b
    else
      var b1 := WriteArtifacts(h, b, c);
      if b1.threw then b1 else Write(h, b1, c)
  }

  /** One turn of the innermost loop; nothing once the manifest has thrown. */
  function Turn(h: Hashes, concrete: set<string>, b: Book, c: Claim): Book {
    if b.threw then b else if c.sourced then EmitSourced(h, concrete, b, c) else EmitConcrete(h, b, c)
  }

  function Emit(h: Hashes, concrete: set<string>, b: Book, e: Event): Book {
    match e
    case Ended(failed) => b.(threw := false, errors := b.errors + if failed || b.threw then 1 else 0)
    case Claimed(c) => Turn(h, concrete, b, c)
  }

  function EmitAll(h: Hashes, concrete: set<string>, b: Book, events: seq<Event>): Book {
    if events == [] then b else Emit(h, concrete, EmitAll(h, concrete, b, events[..|events| - 1]), events[|events| - 1])
  }

  lemma {:induction false} EmitAppend(h: Hashes, concrete: set<string>, b: Book, p: seq<Event>, q: seq<Event>)
    ensures EmitAll(h, concrete, b, p + q) == EmitAll(h, concrete, EmitAll(h, concrete, b, p), q)
    decreases |q|
  {
    if q == [] {
      assert p + q == p;
    } else {
      assert (p + q)[..|p + q| - 1] == p + q[..|q| - 1];
      EmitAppend(h, concrete, b, p, q[..|q| - 1]);
    }
  }

  // ---- from manifests to events --------------------------------------------------------

  predicate Keeps(b: Bundle, concrete: set<string>, p: (nat, string)) { KeyOf(b, p) !in concrete }

  function KeptAddresses(b: Bundle, concrete: set<string>, chain: nat, addresses: seq<string>): seq<string> {
    if addresses == [] then []
    else
      var last := addresses[|addresses| - 1];
      KeptAddresses(b, concrete, chain, addresses[..|addresses| - 1]) + if Keeps(b, concrete, (chain, last)) then [last] else []
  }

  /** The targets with concrete-owned keys taken out; chains left without addresses go too. */
  function KeptTargets(b: Bundle, concrete: set<string>, targets: seq<Target>): seq<Target> {
    if targets == [] then []
    else
      var last := targets[|targets| - 1];
      var kept := KeptAddresses(b, concrete, last.chain, last.addresses);
      KeptTargets(b, concrete, targets[..|targets| - 1]) + if kept == [] then [] else [Target(last.chain, kept)]
  }

  predicate AllKept(b: Bundle, concrete: set<string>, pairs: seq<(nat, string)>) {
    forall p <- pairs :: Keeps(b, concrete, p)
  }

  /** A bundle nothing is taken from stays as it is. */
  function PruneBundle(b: Bundle, concrete: set<string>): Bundle {
    if AllKept(b, concrete, Pairs(b.targets)) then b else b.(targets := KeptTargets(b, concrete, b.targets))
  }

  function EventsFor(path: string, sourced: bool, output: Output, bundle: Bundle, pairs: seq<(nat, string)>): (events: seq<Event>)
    ensures |events| == |pairs|
    ensures forall i | 0 <= i < |pairs| :: events[i] == Claimed(Claim(path, sourced, output, bundle, pairs[i]))
  {
    seq(|pairs|, i requires 0 <= i < |pairs| => Claimed(Claim(path, sourced, output, bundle, pairs[i])))
  }

  function ClaimsFor(path: string, sourced: bool, output: Output, bundle: Bundle): seq<Event> {
    EventsFor(path, sourced, output, bundle, Pairs(bundle.targets))
  }

  /** What a sourced output is emitted as: plain bundles are pruned first. */
  function Resolved(concrete: set<string>, output: Output): Bundle {
    if output.Plain? then PruneBundle(output.bundle, concrete) else output.bundle
  }

  function OutputEvents(concrete: set<string>, path: string, output: Output): seq<Event> {
    ClaimsFor(path, true, output, Resolved(concrete, output))
  }

  function OutputsEvents(concrete: set<string>, path: string, outputs: seq<Output>): seq<Event> {
    if outputs == [] then []
    else OutputsEvents(concrete, path, outputs[..|outputs| - 1]) + OutputEvents(concrete, path, outputs[|outputs| - 1])
  }

  /** What processing one manifest does, in order. */
  function ManifestEvents(concrete: set<string>, m: Manifest): seq<Event> {
    match m
    case Broken(_) => [Ended(true)]
    case Agnostic(_, clash) => [Ended(clash)]
    case Concrete(path, bundle, clash) => ClaimsFor(path, false, Plain(bundle), bundle) + [Ended(clash)]
    case Sourced(path, outputs) =>
      if outputs.None? then [Ended(true)] else OutputsEvents(concrete, path, outputs.value) + [Ended(false)]
  }

  function BuildEvents(concrete: set<string>, manifests: seq<Manifest>): seq<Event> {
    if manifests == [] then []
    else BuildEvents(concrete, manifests[..|manifests| - 1]) + ManifestEvents(concrete, manifests[|manifests| - 1])
  }

  /** The keys every loadable concrete manifest claims. */
  function ConcreteKeys(manifests: seq<Manifest>): set<string> {
    if manifests == [] then {}
    else
      var last := manifests[|manifests| - 1];
      ConcreteKeys(manifests[..|manifests| - 1]) + if last.Concrete? then KeysOf(last.bundle) else {}
  }

  function Exit(strict: bool, b: Book): nat {
    if b.errors > 0 then 1 else if strict && b.collisions > 0 then 1 else 0
  }

  // ---- claims of a run -----------------------------------------------------------------

  ghost predicate IsConcrete(e: Event, key: string) { e.Claimed? && !e.claim.sourced && ClaimKey(e.claim) == key }

  ghost predicate IsSourced(e: Event, key: string) { e.Claimed? && e.claim.sourced && ClaimKey(e.claim) == key }

  ghost function LastConcrete(events: seq<Event>, key: string): Option<Claim> {
    if events == [] then None
    else if IsConcrete(events[|events| - 1], key) then Some(events[|events| - 1].claim)
    else LastConcrete(events[..|events| - 1], key)
  }

  ghost function FirstSourced(events: seq<Event>, key: string): Option<Claim> {
    if events == [] then None
    else
      var earlier := FirstSourced(events[..|events| - 1], key);
      if earlier.Some? then earlier
      else if IsSourced(events[|events| - 1], key) then Some(events[|events| - 1].claim) else None
  }

  /** Concrete claims lie in `concrete`. */
  ghost predicate Covered(concrete: set<string>, events: seq<Event>) {
    forall e <- events :: e.Claimed? && !e.claim.sourced ==> ClaimKey(e.claim) in concrete
  }

  predicate Smooth(b: Book) { b.errors == 0 && !b.threw }

  // ---- ownership -----------------------------------------------------------------------

  predicate OffConcrete(concrete: set<string>, b: Book) {
    forall key <- b.index | key in concrete :: !b.index[key].sourced
  }

  lemma StepOffConcrete(h: Hashes, concrete: set<string>, b: Book, e: Event)
    requires OffConcrete(concrete, b)
    ensures OffConcrete(concrete, Emit(h, concrete, b, e))
  {
    if e.Claimed? {
      ArtifactsFrame(h, b, e.claim);
    }
  }

  /** In any order, with or without failures: a sourced entry never sits on a concrete key. */
  lemma {:induction false} SourcedStaysOffConcrete(h: Hashes, concrete: set<string>, events: seq<Event>)
    ensures OffConcrete(concrete, EmitAll(h, concrete, BLANK, events))
    decreases |events|
  {
    if events != [] {
      SourcedStaysOffConcrete(h, concrete, events[..|events| - 1]);
      StepOffConcrete(h, concrete, EmitAll(h, concrete, BLANK, events[..|events| - 1]), events[|events| - 1]);
    }
  }

  /** Entry and owner of `key` after a run without failures. */
  ghost predicate KeyOk(h: Hashes, concrete: set<string>, b: Book, key: string, last: Option<Claim>, first: Option<Claim>) {
    && (last.Some? ==>
          && key in b.index && key in b.owners && !b.index[key].sourced
          && b.index[key].sha == b.owners[key].sha == h.bundle(last.value.bundle))
    && (last.None? ==>
          && key !in b.owners
          && (if first.Some? && key !in concrete then key in b.index && b.index[key] == EntryOf(h, first.value) else key !in b.index))
  }

  ghost predicate SameBut(b: Book, t: Book) {
    t.index == b.index && t.owners == b.owners && t.errors == b.errors && t.collisions == b.collisions && (b.threw ==> t.threw)
  }

  lemma ContextFrame(h: Hashes, b: Book, ref: Option<string>, doc: Json)
    ensures SameBut(b, WriteContext(h, b, ref, doc))
  {
  }

  lemma ArtifactsFrame(h: Hashes, b: Book, c: Claim)
    ensures SameBut(b, WriteArtifacts(h, b, c))
  {
    if c.output.SourceRef? {
      var t := h.json(c.output.template);
      ContextFrame(h, WriteGenerated(b, BundleFileRef(t), t, c.output.template), ContextRefOf(c.output), DocOf(c.output));
    }
  }

  lemma SmoothBefore(h: Hashes, concrete: set<string>, b: Book, e: Event)
    requires Smooth(Emit(h, concrete, b, e))
    ensures Smooth(b)
  {
    if e.Claimed? {
      ArtifactsFrame(h, b, e.claim);
    }
  }

  lemma SourcedKeyOk(h: Hashes, concrete: set<string>, b: Book, c: Claim, key: string, last: Option<Claim>, first: Option<Claim>)
    requires KeyOk(h, concrete, b, key, last, first) && c.sourced && !EmitSourced(h, concrete, b, c).threw
    requires last.Some? ==> key in concrete
    ensures KeyOk(h, concrete, EmitSourced(h, concrete, b, c), key, last,
                  if first.Some? then first else if ClaimKey(c) == key then Some(c) else None)
  {
    ArtifactsFrame(h, b, c);
  }

  lemma ConcreteKeyOk(h: Hashes, concrete: set<string>, b: Book, c: Claim, key: string, last: Option<Claim>, first: Option<Claim>)
    requires KeyOk(h, concrete, b, key, last, first) && !c.sourced && ClaimKey(c) in concrete
    ensures KeyOk(h, concrete, EmitConcrete(h, b, c), key, if ClaimKey(c) == key then Some(c) else last, first)
  {
  }

  lemma StepKeyOk(h: Hashes, concrete: set<string>, b: Book, e: Event, key: string, last: Option<Claim>, first: Option<Claim>)
    requires Smooth(b) && Smooth(Emit(h, concrete, b, e)) && KeyOk(h, concrete, b, key, last, first)
    requires last.Some? ==> key in concrete
    requires e.Claimed? && !e.claim.sourced ==> ClaimKey(e.claim) in concrete
    ensures KeyOk(h, concrete, Emit(h, concrete, b, e), key,
                  if IsConcrete(e, key) then Some(e.claim) else last,
                  if first.Some? then first else if IsSourced(e, key) then Some(e.claim) else None)
  {
    if e.Claimed? {
      if e.claim.sourced {
        SourcedKeyOk(h, concrete, b, e.claim, key, last, first);
      } else {
        ConcreteKeyOk(h, concrete, b, e.claim, key, last, first);
      }
    }
  }

  /** Every key in a run without failures: the last concrete claimant's hash, else the first sourced claimant's entry. */
  lemma {:induction false} KeysAreOwned(h: Hashes, concrete: set<string>, events: seq<Event>, key: string)
    requires Covered(concrete, events) && Smooth(EmitAll(h, concrete, BLANK, events))
    ensures KeyOk(h, concrete, EmitAll(h, concrete, BLANK, events), key, LastConcrete(events, key), FirstSourced(events, key))
    ensures LastConcrete(events, key).Some? ==> key in concrete
    decreases |events|
  {
    if events != [] {
      var past, e := events[..|events| - 1], events[|events| - 1];
      var b := EmitAll(h, concrete, BLANK, past);
      assert e in events;
      SmoothBefore(h, concrete, b, e);
      KeysAreOwned(h, concrete, past, key);
      StepKeyOk(h, concrete, b, e, key, LastConcrete(past, key), FirstSourced(past, key));
    }
  }

  // ---- collisions ----------------------------------------------------------------------

  /** All concrete claims of one key carry one hash. */
  ghost predicate Agree(h: Hashes, events: seq<Event>, key: string) {
    forall i, j | 0 <= i < |events| && 0 <= j < |events| && IsConcrete(events[i], key) && IsConcrete(events[j], key) ::
      h.bundle(events[i].claim.bundle) == h.bundle(events[j].claim.bundle)
  }

  ghost predicate AllAgree(h: Hashes, events: seq<Event>) {
    forall key :: Agree(h, events, key)
  }

  lemma {:induction false} LastConcreteIsLast(events: seq<Event>, key: string)
    ensures LastConcrete(events, key).None? ==> forall i | 0 <= i < |events| :: !IsConcrete(events[i], key)
    ensures LastConcrete(events, key).Some? ==>
              exists i | 0 <= i < |events| :: IsConcrete(events[i], key) && events[i].claim == LastConcrete(events, key).value
    decreases |events|
  {
    if events != [] {
      var last := |events| - 1;
      LastConcreteIsLast(events[..last], key);
      if IsConcrete(events[last], key) {
        assert events[last].claim == LastConcrete(events, key).value;
      } else if LastConcrete(events, key).Some? {
        var i :| 0 <= i < last && IsConcrete(events[..last][i], key) && events[..last][i].claim == LastConcrete(events[..last], key).value;
        assert IsConcrete(events[i], key);
      }
      assert forall i | 0 <= i < last :: events[..last][i] == events[i];
    }
  }

  lemma AgreeNext(h: Hashes, past: seq<Event>, e: Event, key: string)
    ensures Agree(h, past + [e], key) <==>
            && Agree(h, past, key)
            && (IsConcrete(e, key) && LastConcrete(past, key).Some? ==>
                  h.bundle(e.claim.bundle) == h.bundle(LastConcrete(past, key).value.bundle))
  {
    var events := past + [e];
    LastConcreteIsLast(past, key);
    if Agree(h, events, key) {
      assert forall i | 0 <= i < |past| :: events[i] == past[i];
      if IsConcrete(e, key) && LastConcrete(past, key).Some? {
        var i :| 0 <= i < |past| && IsConcrete(past[i], key) && past[i].claim == LastConcrete(past, key).value;
        assert IsConcrete(events[i], key) && IsConcrete(events[|past|], key);
      }
    }
  }

  /** Owners come from claims, and `own` gives the one hash each path claims. */
  ghost predicate OwnersOk(b: Book, own: string -> string) {
    forall key <- b.owners :: b.owners[key].sha == own(b.owners[key].path)
  }

  ghost predicate OneHashPerPath(h: Hashes, events: seq<Event>, own: string -> string) {
    forall e <- events :: e.Claimed? && !e.claim.sourced ==> h.bundle(e.claim.bundle) == own(e.claim.path)
  }

  lemma StepCollides(h: Hashes, concrete: set<string>, b: Book, e: Event, own: string -> string, last: Option<Claim>)
    requires Smooth(b) && OwnersOk(b, own)
    requires e.Claimed? && !e.claim.sourced ==> h.bundle(e.claim.bundle) == own(e.claim.path)
    requires e.Claimed? ==> (last.Some? <==> ClaimKey(e.claim) in b.owners)
    requires e.Claimed? && last.Some? ==> b.owners[ClaimKey(e.claim)].sha == h.bundle(last.value.bundle)
    ensures var t := Emit(h, concrete, b, e);
            && OwnersOk(t, own)
            && (t.collisions == 0 <==>
                  b.collisions == 0 && (e.Claimed? && !e.claim.sourced && last.Some? ==> h.bundle(e.claim.bundle) == h.bundle(last.value.bundle)))
  {
    if e.Claimed? {
      ArtifactsFrame(h, b, e.claim);
    }
  }

  /** No collision is counted exactly when, key by key, all concrete claims agree. */
  lemma {:induction false} CollisionsAreDisagreements(h: Hashes, concrete: set<string>, events: seq<Event>, own: string -> string)
    requires Covered(concrete, events) && OneHashPerPath(h, events, own) && Smooth(EmitAll(h, concrete, BLANK, events))
    ensures OwnersOk(EmitAll(h, concrete, BLANK, events), own)
    ensures EmitAll(h, concrete, BLANK, events).collisions == 0 <==> AllAgree(h, events)
    decreases |events|
  {
    if events != [] {
      var past, e := events[..|events| - 1], events[|events| - 1];
      var b := EmitAll(h, concrete, BLANK, past);
      assert e in events && events == past + [e];
      SmoothBefore(h, concrete, b, e);
      CollisionsAreDisagreements(h, concrete, past, own);
      var key := if e.Claimed? then ClaimKey(e.claim) else "";
      KeysAreOwned(h, concrete, past, key);
      StepCollides(h, concrete, b, e, own, LastConcrete(past, key));
      forall k ensures Agree(h, events, k) <==> (Agree(h, past, k) && (k == key ==> Agree(h, events, key))) {
        AgreeNext(h, past, e, k);
      }
      AgreeNext(h, past, e, key);
    }
  }

  // ---- pruning -------------------------------------------------------------------------

  lemma {:induction false} KeptAddressesAre(b: Bundle, concrete: set<string>, chain: nat, addresses: seq<string>, a: string)
    ensures a in KeptAddresses(b, concrete, chain, addresses) <==> a in addresses && Keeps(b, concrete, (chain, a))
    ensures |KeptAddresses(b, concrete, chain, addresses)| <= |addresses|
    decreases |addresses|
  {
    if addresses != [] {
      var past := addresses[..|addresses| - 1];
      KeptAddressesAre(b, concrete, chain, past, a);
      assert addresses == past + [addresses[|addresses| - 1]];
    }
  }

  lemma PairsNext(targets: seq<Target>, t: Target)
    ensures Pairs(targets + [t]) == Pairs(targets) + TargetPairs(t)
  {
    assert (targets + [t])[..|targets|] == targets;
  }

  lemma TargetPairsAre(t: Target, p: (nat, string))
    ensures p in TargetPairs(t) <==> p.0 == t.chain && p.1 in t.addresses
  {
    if p.0 == t.chain && p.1 in t.addresses {
      var i :| 0 <= i < |t.addresses| && t.addresses[i] == p.1;
      assert TargetPairs(t)[i] == p;
    }
  }

  function KeptTarget(b: Bundle, concrete: set<string>, t: Target): Target {
    Target(t.chain, KeptAddresses(b, concrete, t.chain, t.addresses))
  }

  lemma KeptTargetIs(b: Bundle, concrete: set<string>, t: Target, p: (nat, string))
    ensures p in TargetPairs(KeptTarget(b, concrete, t)) <==> p in TargetPairs(t) && Keeps(b, concrete, p)
  {
    KeptAddressesAre(b, concrete, t.chain, t.addresses, p.1);
    TargetPairsAre(t, p);
    TargetPairsAre(KeptTarget(b, concrete, t), p);
  }

  lemma KeptTargetsNext(b: Bundle, concrete: set<string>, past: seq<Target>, t: Target)
    ensures Pairs(KeptTargets(b, concrete, past + [t])) == Pairs(KeptTargets(b, concrete, past)) + TargetPairs(KeptTarget(b, concrete, t))
  {
    assert (past + [t])[..|past|] == past;
    var kept := KeptTarget(b, concrete, t);
    if kept.addresses == [] {
      assert KeptTargets(b, concrete, past + [t]) == KeptTargets(b, concrete, past);
    } else {
      PairsNext(KeptTargets(b, concrete, past), kept);
    }
  }

  lemma {:induction false} KeptTargetsAre(b: Bundle, concrete: set<string>, targets: seq<Target>, p: (nat, string))
    ensures p in Pairs(KeptTargets(b, concrete, targets)) <==> p in Pairs(targets) && Keeps(b, concrete, p)
    decreases |targets|
  {
    if targets != [] {
      var past, last := targets[..|targets| - 1], targets[|targets| - 1];
      assert targets == past + [last];
      KeptTargetsAre(b, concrete, past, p);
      KeptTargetIs(b, concrete, last, p);
      KeptTargetsNext(b, concrete, past, last);
    }
  }

  /** Pruning takes out exactly the pairs whose key a concrete manifest claims. */
  lemma PruningIsExact(b: Bundle, concrete: set<string>, p: (nat, string))
    ensures p in Pairs(PruneBundle(b, concrete).targets) <==> p in Pairs(b.targets) && KeyOf(b, p) !in concrete
  {
    KeptTargetsAre(b, concrete, b.targets, p);
  }

  /** One inner loop of the pruning: the kept addresses of one chain. */
  method PruneAddresses(bundle: Bundle, concrete: set<string>, t: Target) returns (kept: seq<string>, pruned: nat)
    ensures kept == KeptAddresses(bundle, concrete, t.chain, t.addresses) && pruned + |kept| == |t.addresses|
    ensures pruned == 0 <==> AllKept(bundle, concrete, TargetPairs(t))
  {
    kept, pruned := [], 0;
    for j := 0 to |t.addresses|
      invariant kept == KeptAddresses(bundle, concrete, t.chain, t.addresses[..j]) && pruned + |kept| == j
      invariant pruned == 0 <==> forall k | 0 <= k < j :: Keeps(bundle, concrete, (t.chain, t.addresses[k]))
    {
      assert t.addresses[..j + 1][..j] == t.addresses[..j];
      if KeyOf(bundle, (t.chain, t.addresses[j])) in concrete {
        pruned := pruned + 1;
      } else {
        kept := kept + [t.addresses[j]];
      }
    }
    assert t.addresses[..|t.addresses|] == t.addresses;
    assert forall k | 0 <= k < |t.addresses| :: TargetPairs(t)[k] == (t.chain, t.addresses[k]);
  }

  lemma AllKeptAppend(b: Bundle, concrete: set<string>, p: seq<(nat, string)>, q: seq<(nat, string)>)
    ensures AllKept(b, concrete, p + q) <==> AllKept(b, concrete, p) && AllKept(b, concrete, q)
  {
    assert forall x <- p :: x in p + q;
    assert forall x <- q :: x in p + q;
  }

  lemma PruneNext(bundle: Bundle, concrete: set<string>, i: nat)
    requires i < |bundle.targets|
    ensures var kept := KeptTarget(bundle, concrete, bundle.targets[i]);
            && KeptTargets(bundle, concrete, bundle.targets[..i + 1]) ==
               KeptTargets(bundle, concrete, bundle.targets[..i]) + (if kept.addresses == [] then [] else [kept])
            && |Pairs(KeptTargets(bundle, concrete, bundle.targets[..i + 1]))| ==
               |Pairs(KeptTargets(bundle, concrete, bundle.targets[..i]))| + |kept.addresses|
            && |Pairs(bundle.targets[..i + 1])| == |Pairs(bundle.targets[..i])| + |bundle.targets[i].addresses|
            && (AllKept(bundle, concrete, Pairs(bundle.targets[..i + 1])) <==>
                  AllKept(bundle, concrete, Pairs(bundle.targets[..i])) && AllKept(bundle, concrete, TargetPairs(bundle.targets[i])))
  {
    TakeNext(bundle.targets, i);
    PairsNext(bundle.targets[..i], bundle.targets[i]);
    KeptTargetsNext(bundle, concrete, bundle.targets[..i], bundle.targets[i]);
    AllKeptAppend(bundle, concrete, Pairs(bundle.targets[..i]), TargetPairs(bundle.targets[i]));
    assert bundle.targets[..i + 1][..i] == bundle.targets[..i];
  }

  method PruneConcreteOwnedCallkeys(bundle: Bundle, concrete: set<string>) returns (next: Bundle, pruned: nat)
    ensures next == PruneBundle(bundle, concrete) && pruned + |Pairs(next.targets)| == |Pairs(bundle.targets)|
  {
    var targets: seq<Target> := [];
    pruned := 0;
    for i := 0 to |bundle.targets|
      invariant targets == KeptTargets(bundle, concrete, bundle.targets[..i])
      invariant pruned + |Pairs(targets)| == |Pairs(bundle.targets[..i])|
      invariant pruned == 0 <==> AllKept(bundle, concrete, Pairs(bundle.targets[..i]))
    {
      var kept, n := PruneAddresses(bundle, concrete, bundle.targets[i]);
      PruneNext(bundle, concrete, i);
      pruned := pruned + n;
      if kept != [] {
        targets := targets + [Target(bundle.targets[i].chain, kept)];
      }
    }
    assert bundle.targets[..|bundle.targets|] == bundle.targets;
    next := if pruned == 0 then bundle else bundle.(targets := targets);
  }

  // ---- the loops of the build ----------------------------------------------------------

  method CollectBundleKeys(b: Bundle) returns (out: set<string>)
    ensures out == KeysOf(b)
  {
    out := {};
    for i := 0 to |b.targets|
      invariant out == KeysAt(b.selector, Pairs(b.targets[..i]))
    {
      var t := b.targets[i];
      ghost var before := Pairs(b.targets[..i]);
      for j := 0 to |t.addresses|
        invariant out == KeysAt(b.selector, before) + KeysAt(b.selector, TargetPairs(t)[..j])
      {
        TakeNext(TargetPairs(t), j);
        out := out + {CallkeyFilename(t.chain, t.addresses[j], b.selector)};
      }
      assert TargetPairs(t)[..|t.addresses|] == TargetPairs(t);
      TakeNext(b.targets, i);
      PairsNext(b.targets[..i], t);
    }
    assert b.targets[..|b.targets|] == b.targets;
  }

  method CollectConcreteCallkeys(manifests: seq<Manifest>) returns (out: set<string>)
    ensures out == ConcreteKeys(manifests)
  {
    out := {};
    for i := 0 to |manifests|
      invariant out == ConcreteKeys(manifests[..i])
    {
      assert manifests[..i + 1][..i] == manifests[..i];
      if manifests[i].Concrete? {
        var keys := CollectBundleKeys(manifests[i].bundle);
        out := out + keys;
      }
    }
    assert manifests[..|manifests|] == manifests;
  }

  lemma EmitPrefix(h: Hashes, concrete: set<string>, b: Book, events: seq<Event>, j: nat)
    requires j < |events|
    ensures EmitAll(h, concrete, b, events[..j + 1]) == Emit(h, concrete, EmitAll(h, concrete, b, events[..j]), events[j])
  {
    assert events[..j + 1][..j] == events[..j];
  }

  lemma EventsAppend(path: string, sourced: bool, output: Output, bundle: Bundle, p: seq<(nat, string)>, q: seq<(nat, string)>)
    ensures EventsFor(path, sourced, output, bundle, p + q) ==
            EventsFor(path, sourced, output, bundle, p) + EventsFor(path, sourced, output, bundle, q)
  {
  }

  /** The innermost loop, over the addresses of one chain. */
  method EmitTarget(h: Hashes, concrete: set<string>, start: Book, path: string, sourced: bool, output: Output, bundle: Bundle, t: Target)
    returns (b: Book)
    ensures b == EmitAll(h, concrete, start, EventsFor(path, sourced, output, bundle, TargetPairs(t)))
  {
    b := start;
    ghost var events := EventsFor(path, sourced, output, bundle, TargetPairs(t));
    for j := 0 to |t.addresses|
      invariant b == EmitAll(h, concrete, start, events[..j])
    {
      EmitPrefix(h, concrete, start, events, j);
      b := Turn(h, concrete, b, Claim(path, sourced, output, bundle, (t.chain, t.addresses[j])));
    }
    assert events[..|t.addresses|] == events;
  }

  method EmitOutput(h: Hashes, concrete: set<string>, start: Book, path: string, sourced: bool, output: Output, bundle: Bundle)
    returns (b: Book)
    ensures b == EmitAll(h, concrete, start, ClaimsFor(path, sourced, output, bundle))
  {
    b := start;
    for i := 0 to |bundle.targets|
      invariant b == EmitAll(h, concrete, start, EventsFor(path, sourced, output, bundle, Pairs(bundle.targets[..i])))
    {
      var t := bundle.targets[i];
      b := EmitTarget(h, concrete, b, path, sourced, output, bundle, t);
      ghost var before := Pairs(bundle.targets[..i]);
      EventsAppend(path, sourced, output, bundle, before, TargetPairs(t));
      EmitAppend(h, concrete, start, EventsFor(path, sourced, output, bundle, before), EventsFor(path, sourced, output, bundle, TargetPairs(t)));
      TakeNext(bundle.targets, i);
      PairsNext(bundle.targets[..i], t);
    }
    assert bundle.targets[..|bundle.targets|] == bundle.targets;
  }

  method ResolveOutput(concrete: set<string>, output: Output) returns (r: Bundle)
    ensures r == Resolved(concrete, output)
  {
    r := output.bundle;
    if output.Plain? {
      var pruned;
      r, pruned := PruneConcreteOwnedCallkeys(r, concrete);
    }
  }

  lemma OutputsNext(h: Hashes, concrete: set<string>, b: Book, path: string, outputs: seq<Output>, i: nat)
    requires i < |outputs|
    ensures EmitAll(h, concrete, b, OutputsEvents(concrete, path, outputs[..i + 1])) ==
            EmitAll(h, concrete, EmitAll(h, concrete, b, OutputsEvents(concrete, path, outputs[..i])), OutputEvents(concrete, path, outputs[i]))
  {
    assert outputs[..i + 1][..i] == outputs[..i];
    EmitAppend(h, concrete, b, OutputsEvents(concrete, path, outputs[..i]), OutputEvents(concrete, path, outputs[i]));
  }

  /** The loop over the outputs of a sourced manifest. */
  method EmitOutputs(h: Hashes, concrete: set<string>, start: Book, path: string, outputs: seq<Output>) returns (b: Book)
    ensures b == EmitAll(h, concrete, start, OutputsEvents(concrete, path, outputs))
  {
    b := start;
    for i := 0 to |outputs|
      invariant b == EmitAll(h, concrete, start, OutputsEvents(concrete, path, outputs[..i]))
    {
      OutputsNext(h, concrete, start, path, outputs, i);
      var resolved := ResolveOutput(concrete, outputs[i]);
      b := EmitOutput(h, concrete, b, path, true, outputs[i], resolved);
    }
    assert outputs[..|outputs|] == outputs;
  }

  method EmitManifest(h: Hashes, concrete: set<string>, start: Book, m: Manifest) returns (b: Book)
    ensures b == EmitAll(h, concrete, start, ManifestEvents(concrete, m))
  {
    b := start;
    ghost var done: seq<Event> := [];
    var failed := true;
    match m {
      case Broken(_) =>
      case Agnostic(_, clash) => failed := clash;
      case Concrete(path, bundle, clash) =>
        b := EmitOutput(h, concrete, b, path, false, Plain(bundle), bundle);
        done, failed := ClaimsFor(path, false, Plain(bundle), bundle), clash;
      case Sourced(path, outputs) =>
        if outputs.Some? {
          b := EmitOutputs(h, concrete, b, path, outputs.value);
          done, failed := OutputsEvents(concrete, path, outputs.value), false;
        }
    }
    assert ManifestEvents(concrete, m) == done + [Ended(failed)];
    EndManifest(h, concrete, start, done, failed);
    b := b.(threw := false, errors := b.errors + if failed || b.threw then 1 else 0);
  }

  lemma EndManifest(h: Hashes, concrete: set<string>, start: Book, done: seq<Event>, failed: bool)
    ensures var b := EmitAll(h, concrete, start, done);
            EmitAll(h, concrete, start, done + [Ended(failed)]) ==
            b.(threw := false, errors := b.errors + if failed || b.threw then 1 else 0)
  {
    EmitAppend(h, concrete, start, done, [Ended(failed)]);
    EmitOne(h, concrete, EmitAll(h, concrete, start, done), Ended(failed));
  }

  lemma EmitOne(h: Hashes, concrete: set<string>, b: Book, e: Event)
    ensures EmitAll(h, concrete, b, [e]) == Emit(h, concrete, b, e)
  {
    assert [e][..0] == [];
  }

  /** The main loop: the files written, the counters, and the exit code. */
  method Build(h: Hashes, manifests: seq<Manifest>, strict: bool) returns (b: Book, exit: nat)
    ensures b == EmitAll(h, ConcreteKeys(manifests), BLANK, BuildEvents(ConcreteKeys(manifests), manifests))
    ensures exit == Exit(strict, b)
  {
    var concrete := CollectConcreteCallkeys(manifests);
    b := BLANK;
    for i := 0 to |manifests|
      invariant b == EmitAll(h, concrete, BLANK, BuildEvents(concrete, manifests[..i]))
    {
      assert manifests[..i + 1][..i] == manifests[..i];
      EmitAppend(h, concrete, BLANK, BuildEvents(concrete, manifests[..i]), ManifestEvents(concrete, manifests[i]));
      b := EmitManifest(h, concrete, b, manifests[i]);
    }
    assert manifests[..|manifests|] == manifests;
    exit := if b.errors > 0 then 1 else if strict && b.collisions > 0 then 1 else 0;
  }

  // ---- what the build promises ---------------------------------------------------------

  function Built(h: Hashes, manifests: seq<Manifest>): Book {
    EmitAll(h, ConcreteKeys(manifests), BLANK, BuildEvents(ConcreteKeys(manifests), manifests))
  }

  /** No manifest file is listed twice. */
  ghost predicate DistinctPaths(manifests: seq<Manifest>) {
    forall i, j | 0 <= i < j < |manifests| :: manifests[i].path != manifests[j].path
  }

  /** Some concrete claim of `key` carries this path and bundle. */
  ghost predicate HasClaim(events: seq<Event>, key: string, path: string, bundle: Bundle) {
    exists i | 0 <= i < |events| :: IsConcrete(events[i], key) && events[i].claim.path == path && events[i].claim.bundle == bundle
  }

  /** Some concrete manifest with this path and bundle claims `key`. */
  ghost predicate HasManifest(manifests: seq<Manifest>, key: string, path: string, bundle: Bundle) {
    exists i | 0 <= i < |manifests| ::
      manifests[i].Concrete? && manifests[i].path == path && manifests[i].bundle == bundle && key in KeysOf(bundle)
  }

  lemma HasClaimAppend(p: seq<Event>, q: seq<Event>, key: string, path: string, bundle: Bundle)
    ensures HasClaim(p + q, key, path, bundle) <==> HasClaim(p, key, path, bundle) || HasClaim(q, key, path, bundle)
  {
    var all := p + q;
    if i :| 0 <= i < |all| && IsConcrete(all[i], key) && all[i].claim.path == path && all[i].claim.bundle == bundle {
      assert if i < |p| then p[i] == all[i] else q[i - |p|] == all[i];
    }
    if i :| 0 <= i < |p| && IsConcrete(p[i], key) && p[i].claim.path == path && p[i].claim.bundle == bundle {
      assert all[i] == p[i];
    }
    if i :| 0 <= i < |q| && IsConcrete(q[i], key) && q[i].claim.path == path && q[i].claim.bundle == bundle {
      assert all[|p| + i] == q[i];
    }
  }

  lemma NoClaim(events: seq<Event>, key: string, path: string, bundle: Bundle)
    requires forall e <- events :: !(e.Claimed? && !e.claim.sourced)
    ensures !HasClaim(events, key, path, bundle)
  {
  }

  lemma {:induction false} SourcedOnly(concrete: set<string>, path: string, outputs: seq<Output>)
    ensures forall e <- OutputsEvents(concrete, path, outputs) :: e.Claimed? && e.claim.sourced
    decreases |outputs|
  {
    if outputs != [] {
      SourcedOnly(concrete, path, outputs[..|outputs| - 1]);
    }
  }

  lemma ManifestClaims(concrete: set<string>, m: Manifest, key: string, path: string, bundle: Bundle)
    ensures HasClaim(ManifestEvents(concrete, m), key, path, bundle) <==>
            m.Concrete? && m.path == path && m.bundle == bundle && key in KeysOf(bundle)
  {
    var events := ManifestEvents(concrete, m);
    match m
    case Broken(_) => NoClaim(events, key, path, bundle);
    case Agnostic(_, _) => NoClaim(events, key, path, bundle);
    case Sourced(p, outputs) =>
      if outputs.Some? {
        SourcedOnly(concrete, p, outputs.value);
      }
      NoClaim(events, key, path, bundle);
    case Concrete(p, b, clash) =>
      var claims := ClaimsFor(p, false, Plain(b), b);
      HasClaimAppend(claims, [Ended(clash)], key, path, bundle);
      NoClaim([Ended(clash)], key, path, bundle);
      ConcreteClaims(p, b, key, path, bundle);
  }

  lemma ConcreteClaims(p: string, b: Bundle, key: string, path: string, bundle: Bundle)
    ensures HasClaim(ClaimsFor(p, false, Plain(b), b), key, path, bundle) <==> p == path && b == bundle && key in KeysOf(b)
  {
    var claims, pairs := ClaimsFor(p, false, Plain(b), b), Pairs(b.targets);
    if p == path && b == bundle && key in KeysOf(b) {
      var i :| 0 <= i < |pairs| && key == CallkeyFilename(pairs[i].0, pairs[i].1, b.selector);
      assert IsConcrete(claims[i], key);
    }
    if i :| 0 <= i < |claims| && IsConcrete(claims[i], key) {
      assert pairs[i] in pairs;
    }
  }

  /** The concrete claims of a build are those of its concrete manifests. */
  lemma {:induction false} BuildClaims(concrete: set<string>, manifests: seq<Manifest>, key: string, path: string, bundle: Bundle)
    ensures HasClaim(BuildEvents(concrete, manifests), key, path, bundle) <==> HasManifest(manifests, key, path, bundle)
    decreases |manifests|
  {
    if manifests != [] {
      var n := |manifests| - 1;
      var past, last := manifests[..n], manifests[n];
      assert past + [last] == manifests;
      BuildClaims(concrete, past, key, path, bundle);
      ClaimsNext(concrete, past, last, key, path, bundle);
    }
  }

  lemma ClaimsNext(concrete: set<string>, past: seq<Manifest>, last: Manifest, key: string, path: string, bundle: Bundle)
    requires HasClaim(BuildEvents(concrete, past), key, path, bundle) <==> HasManifest(past, key, path, bundle)
    ensures HasClaim(BuildEvents(concrete, past + [last]), key, path, bundle) <==> HasManifest(past + [last], key, path, bundle)
  {
    assert (past + [last])[..|past|] == past;
    ManifestClaims(concrete, last, key, path, bundle);
    HasClaimAppend(BuildEvents(concrete, past), ManifestEvents(concrete, last), key, path, bundle);
    HasManifestNext(past, last, key, path, bundle);
  }

  lemma HasManifestNext(past: seq<Manifest>, m: Manifest, key: string, path: string, bundle: Bundle)
    ensures HasManifest(past + [m], key, path, bundle) <==>
            HasManifest(past, key, path, bundle) || (m.Concrete? && m.path == path && m.bundle == bundle && key in KeysOf(bundle))
  {
    var all := past + [m];
    assert all[|past|] == m;
    if i :| 0 <= i < |past| && past[i].Concrete? && past[i].path == path && past[i].bundle == bundle && key in KeysOf(bundle) {
      assert all[i] == past[i];
    }
    if i :| 0 <= i < |all| && all[i].Concrete? && all[i].path == path && all[i].bundle == bundle && key in KeysOf(bundle) {
      assert i < |past| ==> past[i] == all[i];
    }
  }

  lemma {:induction false} ConcreteKeysAre(manifests: seq<Manifest>, key: string)
    ensures key in ConcreteKeys(manifests) <==> exists m <- manifests :: m.Concrete? && key in KeysOf(m.bundle)
    decreases |manifests|
  {
    if manifests != [] {
      var n := |manifests| - 1;
      ConcreteKeysAre(manifests[..n], key);
      assert manifests == manifests[..n] + [manifests[n]];
    }
  }

  lemma BuildIsCovered(manifests: seq<Manifest>)
    ensures Covered(ConcreteKeys(manifests), BuildEvents(ConcreteKeys(manifests), manifests))
  {
    var concrete := ConcreteKeys(manifests);
    var events := BuildEvents(concrete, manifests);
    forall e <- events | e.Claimed? && !e.claim.sourced ensures ClaimKey(e.claim) in concrete {
      var i :| 0 <= i < |events| && events[i] == e;
      var key := ClaimKey(e.claim);
      assert IsConcrete(events[i], key);
      assert HasClaim(events, key, e.claim.path, e.claim.bundle);
      BuildClaims(concrete, manifests, key, e.claim.path, e.claim.bundle);
      var k :| 0 <= k < |manifests| && manifests[k].Concrete? && manifests[k].bundle == e.claim.bundle && key in KeysOf(e.claim.bundle);
      ConcreteKeysAre(manifests, key);
    }
  }

  lemma BuildEndsCalmly(h: Hashes, manifests: seq<Manifest>)
    ensures !Built(h, manifests).threw
  {
    if manifests != [] {
      var concrete := ConcreteKeys(manifests);
      var past, last := BuildEvents(concrete, manifests[..|manifests| - 1]), ManifestEvents(concrete, manifests[|manifests| - 1]);
      var n := |last| - 1;
      assert last[n].Ended?;
      assert (past + last)[|past + last| - 1] == last[n];
    }
  }

  // ---- ownership, manifest by manifest -------------------------------------------------

  /** Concrete manifests that claim a common key have the same bundle hash. */
  ghost predicate ManifestsAgree(h: Hashes, manifests: seq<Manifest>) {
    forall m <- manifests, n <- manifests, key |
      m.Concrete? && n.Concrete? && key in KeysOf(m.bundle) && key in KeysOf(n.bundle) :: h.bundle(m.bundle) == h.bundle(n.bundle)
  }

  /** The hash of the concrete manifest at a path. */
  function OwnHash(h: Hashes, manifests: seq<Manifest>, path: string): string {
    if manifests == [] then ""
    else
      var last := manifests[|manifests| - 1];
      if last.Concrete? && last.path == path then h.bundle(last.bundle) else OwnHash(h, manifests[..|manifests| - 1], path)
  }

  lemma {:induction false} OwnHashIs(h: Hashes, manifests: seq<Manifest>, i: nat)
    requires DistinctPaths(manifests) && i < |manifests| && manifests[i].Concrete?
    ensures OwnHash(h, manifests, manifests[i].path) == h.bundle(manifests[i].bundle)
    decreases |manifests|
  {
    var n := |manifests| - 1;
    if i < n {
      OwnHashIs(h, manifests[..n], i);
    }
  }

  lemma BuildHasOneHashPerPath(h: Hashes, concrete: set<string>, manifests: seq<Manifest>, own: string -> string)
    requires DistinctPaths(manifests) && forall path :: own(path) == OwnHash(h, manifests, path)
    ensures OneHashPerPath(h, BuildEvents(concrete, manifests), own)
  {
    var events := BuildEvents(concrete, manifests);
    forall e <- events | e.Claimed? && !e.claim.sourced ensures h.bundle(e.claim.bundle) == own(e.claim.path) {
      var i :| 0 <= i < |events| && events[i] == e;
      var key := ClaimKey(e.claim);
      assert IsConcrete(events[i], key);
      BuildClaims(concrete, manifests, key, e.claim.path, e.claim.bundle);
      var k :| 0 <= k < |manifests| && manifests[k].Concrete? && manifests[k].path == e.claim.path && manifests[k].bundle == e.claim.bundle;
      OwnHashIs(h, manifests, k);
    }
  }

  lemma AgreementIsOfManifests(h: Hashes, concrete: set<string>, manifests: seq<Manifest>)
    ensures AllAgree(h, BuildEvents(concrete, manifests)) <==> ManifestsAgree(h, manifests)
  {
    var events := BuildEvents(concrete, manifests);
    if AllAgree(h, events) {
      forall m <- manifests, n <- manifests, key |
        m.Concrete? && n.Concrete? && key in KeysOf(m.bundle) && key in KeysOf(n.bundle)
        ensures h.bundle(m.bundle) == h.bundle(n.bundle)
      {
        assert Agree(h, events, key);
        assert HasManifest(manifests, key, m.path, m.bundle) && HasManifest(manifests, key, n.path, n.bundle);
        BuildClaims(concrete, manifests, key, m.path, m.bundle);
        BuildClaims(concrete, manifests, key, n.path, n.bundle);
      }
    }
    if ManifestsAgree(h, manifests) {
      forall key ensures Agree(h, events, key) {
        forall i, j | 0 <= i < |events| && 0 <= j < |events| && IsConcrete(events[i], key) && IsConcrete(events[j], key)
          ensures h.bundle(events[i].claim.bundle) == h.bundle(events[j].claim.bundle)
        {
          var c, d := events[i].claim, events[j].claim;
          assert HasClaim(events, key, c.path, c.bundle) && HasClaim(events, key, d.path, d.bundle);
          BuildClaims(concrete, manifests, key, c.path, c.bundle);
          BuildClaims(concrete, manifests, key, d.path, d.bundle);
        }
      }
    }
  }

  lemma CollisionsAreOfManifests(h: Hashes, manifests: seq<Manifest>)
    requires DistinctPaths(manifests)
    ensures Exit(true, Built(h, manifests)) == 0 <==> Built(h, manifests).errors == 0 && ManifestsAgree(h, manifests)
  {
    var concrete := ConcreteKeys(manifests);
    BuildEndsCalmly(h, manifests);
    if Built(h, manifests).errors == 0 {
      BuildIsCovered(manifests);
      var own := path => OwnHash(h, manifests, path);
      BuildHasOneHashPerPath(h, concrete, manifests, own);
      CollisionsAreDisagreements(h, concrete, BuildEvents(concrete, manifests), own);
      AgreementIsOfManifests(h, concrete, manifests);
    }
  }

  ghost function LastClaimant(manifests: seq<Manifest>, key: string): Option<Manifest> {
    if manifests == [] then None
    else
      var last := manifests[|manifests| - 1];
      if last.Concrete? && key in KeysOf(last.bundle) then Some(last) else LastClaimant(manifests[..|manifests| - 1], key)
  }

  lemma {:induction false} LastConcreteAppend(p: seq<Event>, q: seq<Event>, key: string)
    ensures LastConcrete(p + q, key) == if LastConcrete(q, key).Some? then LastConcrete(q, key) else LastConcrete(p, key)
    decreases |q|
  {
    if q == [] {
      assert p + q == p;
    } else {
      assert (p + q)[..|p + q| - 1] == p + q[..|q| - 1];
      LastConcreteAppend(p, q[..|q| - 1], key);
    }
  }

  lemma LastOfManifest(concrete: set<string>, m: Manifest, key: string)
    ensures var last := LastConcrete(ManifestEvents(concrete, m), key);
            && (last.Some? <==> m.Concrete? && key in KeysOf(m.bundle))
            && (last.Some? ==> last.value.bundle == m.bundle)
  {
    var events := ManifestEvents(concrete, m);
    LastConcreteIsLast(events, key);
    if LastConcrete(events, key).Some? {
      var c := LastConcrete(events, key).value;
      assert HasClaim(events, key, c.path, c.bundle);
      ManifestClaims(concrete, m, key, c.path, c.bundle);
    } else if m.Concrete? {
      ManifestClaims(concrete, m, key, m.path, m.bundle);
    }
  }

  lemma {:induction false} LastIsLastClaimant(concrete: set<string>, manifests: seq<Manifest>, key: string)
    ensures var last, m := LastConcrete(BuildEvents(concrete, manifests), key), LastClaimant(manifests, key);
            (last.Some? <==> m.Some?) && (m.Some? ==> m.value.Concrete? && last.value.bundle == m.value.bundle)
    decreases |manifests|
  {
    if manifests != [] {
      var n := |manifests| - 1;
      LastIsLastClaimant(concrete, manifests[..n], key);
      LastOfManifest(concrete, manifests[n], key);
      LastConcreteAppend(BuildEvents(concrete, manifests[..n]), ManifestEvents(concrete, manifests[n]), key);
    }
  }

  /**
   In a build without errors every key is owned as promised: by the last concrete manifest
   that claims it, or else, complete, by the first sourced claim; and by nobody otherwise.
   */
  lemma IndexOwnership(h: Hashes, manifests: seq<Manifest>, key: string)
    requires Built(h, manifests).errors == 0
    ensures var b, concrete := Built(h, manifests), ConcreteKeys(manifests);
            var last, first := LastClaimant(manifests, key), FirstSourced(BuildEvents(concrete, manifests), key);
            if last.Some? then
              key in b.index && last.value.Concrete? && !b.index[key].sourced && b.index[key].sha == h.bundle(last.value.bundle)
            else if first.Some? then
              key in b.index && b.index[key] == EntryOf(h, first.value)
            else
              key !in b.index
  {
    var concrete := ConcreteKeys(manifests);
    BuildEndsCalmly(h, manifests);
    BuildIsCovered(manifests);
    KeysAreOwned(h, concrete, BuildEvents(concrete, manifests), key);
    LastIsLastClaimant(concrete, manifests, key);
    LastClaimantExists(manifests, key);
  }

  lemma {:induction false} LastClaimantExists(manifests: seq<Manifest>, key: string)
    ensures LastClaimant(manifests, key).Some? <==> key in ConcreteKeys(manifests)
    ensures var m := LastClaimant(manifests, key); m.Some? ==> m.value in manifests && m.value.Concrete? && key in KeysOf(m.value.bundle)
    decreases |manifests|
  {
    if manifests != [] {
      LastClaimantExists(manifests[..|manifests| - 1], key);
    }
  }

  /** When a strict build exits 0, each concrete manifest's keys resolve to its own bundle hash. */
  lemma StrictBuildServesEveryManifest(h: Hashes, manifests: seq<Manifest>, m: Manifest, key: string)
    requires DistinctPaths(manifests) && Exit(true, Built(h, manifests)) == 0
    requires m in manifests && m.Concrete? && key in KeysOf(m.bundle)
    ensures key in Built(h, manifests).index && Built(h, manifests).index[key].sha == h.bundle(m.bundle)
  {
    CollisionsAreOfManifests(h, manifests);
    IndexOwnership(h, manifests, key);
    ConcreteKeysAre(manifests, key);
    LastClaimantExists(manifests, key);
    var last := LastClaimant(manifests, key).value;
    assert h.bundle(m.bundle) == h.bundle(last.bundle);
  }

  // ---- which manifest an entry names ---------------------------------------------------

  /** The concrete claim a key's entry comes from: the first of those that agree with the last one, with none in between that does not. */
  ghost function Holder(h: Hashes, start: Option<Claim>, events: seq<Event>, key: string): Option<Claim> {
    if events == [] then start
    else
      var earlier, e := Holder(h, start, events[..|events| - 1], key), events[|events| - 1];
      if !IsConcrete(e, key) || (earlier.Some? && h.bundle(earlier.value.bundle) == h.bundle(e.claim.bundle)) then earlier
      else Some(e.claim)
  }

  lemma {:induction false} HolderAppend(h: Hashes, start: Option<Claim>, p: seq<Event>, q: seq<Event>, key: string)
    ensures Holder(h, start, p + q, key) == Holder(h, Holder(h, start, p, key), q, key)
    decreases |q|
  {
    if q == [] {
      assert p + q == p;
    } else {
      assert (p + q)[..|p + q| - 1] == p + q[..|q| - 1];
      HolderAppend(h, start, p, q[..|q| - 1], key);
    }
  }

  /** One path, one bundle, and concrete claims come with their own. */
  ghost predicate OneBundlePerPath(events: seq<Event>, own: string -> Bundle) {
    forall e <- events :: e.Claimed? && !e.claim.sourced ==> e.claim.bundle == own(e.claim.path) && e.claim.output == Plain(e.claim.bundle)
  }

  ghost predicate HeldBy(h: Hashes, b: Book, key: string, holder: Option<Claim>, own: string -> Bundle) {
    if holder.None? then key !in b.owners
    else
      var c := holder.value;
      && !c.sourced && c.bundle == own(c.path) && c.output == Plain(c.bundle)
      && key in b.owners && b.owners[key] == Owner(c.path, h.bundle(c.bundle))
      && key in b.index && b.index[key] == EntryOf(h, c)
  }

  lemma StepHolds(h: Hashes, concrete: set<string>, b: Book, e: Event, key: string, holder: Option<Claim>, own: string -> Bundle)
    requires Smooth(b) && Smooth(Emit(h, concrete, b, e)) && HeldBy(h, b, key, holder, own)
    requires e.Claimed? && !e.claim.sourced ==> e.claim.bundle == own(e.claim.path) && e.claim.output == Plain(e.claim.bundle)
    ensures HeldBy(h, Emit(h, concrete, b, e), key,
                   if !IsConcrete(e, key) || (holder.Some? && h.bundle(holder.value.bundle) == h.bundle(e.claim.bundle)) then holder
                   else Some(e.claim), own)
  {
    if e.Claimed? {
      ArtifactsFrame(h, b, e.claim);
    }
  }

  lemma {:induction false} EventsHold(h: Hashes, concrete: set<string>, events: seq<Event>, key: string, own: string -> Bundle)
    requires OneBundlePerPath(events, own) && Smooth(EmitAll(h, concrete, BLANK, events))
    ensures HeldBy(h, EmitAll(h, concrete, BLANK, events), key, Holder(h, None, events, key), own)
    decreases |events|
  {
    if events != [] {
      var past, e := events[..|events| - 1], events[|events| - 1];
      assert e in events;
      SmoothBefore(h, concrete, EmitAll(h, concrete, BLANK, past), e);
      EventsHold(h, concrete, past, key, own);
      StepHolds(h, concrete, EmitAll(h, concrete, BLANK, past), e, key, Holder(h, None, past, key), own);
    }
  }

  predicate ClaimsKey(m: Manifest, key: string) { m.Concrete? && key in KeysOf(m.bundle) }

  /** The same, manifest by manifest. */
  ghost function HolderOf(h: Hashes, manifests: seq<Manifest>, key: string): Option<Manifest> {
    if manifests == [] then None
    else
      var earlier, m := HolderOf(h, manifests[..|manifests| - 1], key), manifests[|manifests| - 1];
      if !ClaimsKey(m, key) || (earlier.Some? && earlier.value.Concrete? && h.bundle(earlier.value.bundle) == h.bundle(m.bundle)) then earlier
      else Some(m)
  }

  ghost predicate SameHolder(c: Option<Claim>, m: Option<Manifest>) {
    (c.Some? <==> m.Some?) && (m.Some? ==> m.value.Concrete? && c.value.path == m.value.path && c.value.bundle == m.value.bundle)
  }

  lemma {:induction false} HolderOfPairs(h: Hashes, start: Option<Claim>, path: string, bundle: Bundle, pairs: seq<(nat, string)>, key: string)
    ensures var held := Holder(h, start, EventsFor(path, false, Plain(bundle), bundle, pairs), key);
            if key !in KeysAt(bundle.selector, pairs) || (start.Some? && h.bundle(start.value.bundle) == h.bundle(bundle)) then held == start
            else held.Some? && held.value.path == path && held.value.bundle == bundle
    decreases |pairs|
  {
    if pairs != [] {
      var init, last := pairs[..|pairs| - 1], pairs[|pairs| - 1];
      assert pairs == init + [last];
      var events := EventsFor(path, false, Plain(bundle), bundle, pairs);
      assert events[..|pairs| - 1] == EventsFor(path, false, Plain(bundle), bundle, init);
      HolderOfPairs(h, start, path, bundle, init, key);
      assert KeysAt(bundle.selector, pairs) == KeysAt(bundle.selector, init) + {CallkeyFilename(last.0, last.1, bundle.selector)};
    }
  }

  lemma {:induction false} NobodyHolds(h: Hashes, start: Option<Claim>, events: seq<Event>, key: string)
    requires forall e <- events :: !(e.Claimed? && !e.claim.sourced)
    ensures Holder(h, start, events, key) == start
    decreases |events|
  {
    if events != [] {
      assert events[|events| - 1] in events;
      NobodyHolds(h, start, events[..|events| - 1], key);
    }
  }

  lemma ManifestHolds(h: Hashes, concrete: set<string>, start: Option<Claim>, m: Manifest, key: string)
    ensures var held := Holder(h, start, ManifestEvents(concrete, m), key);
            if !ClaimsKey(m, key) || (start.Some? && h.bundle(start.value.bundle) == h.bundle(m.bundle)) then held == start
            else held.Some? && held.value.path == m.path && held.value.bundle == m.bundle
  {
    match m
    case Concrete(path, bundle, clash) =>
      var claims := ClaimsFor(path, false, Plain(bundle), bundle);
      HolderOfPairs(h, start, path, bundle, Pairs(bundle.targets), key);
      HolderAppend(h, start, claims, [Ended(clash)], key);
      NobodyHolds(h, Holder(h, start, claims, key), [Ended(clash)], key);
    case Sourced(path, outputs) =>
      if outputs.Some? {
        SourcedOnly(concrete, path, outputs.value);
      }
      NobodyHolds(h, start, ManifestEvents(concrete, m), key);
    case _ => NobodyHolds(h, start, ManifestEvents(concrete, m), key);
  }

  lemma {:induction false} HoldersAreOfManifests(h: Hashes, concrete: set<string>, manifests: seq<Manifest>, key: string)
    ensures SameHolder(Holder(h, None, BuildEvents(concrete, manifests), key), HolderOf(h, manifests, key))
    decreases |manifests|
  {
    if manifests != [] {
      var past, m := manifests[..|manifests| - 1], manifests[|manifests| - 1];
      HoldersAreOfManifests(h, concrete, past, key);
      HolderAppend(h, None, BuildEvents(concrete, past), ManifestEvents(concrete, m), key);
      ManifestHolds(h, concrete, Holder(h, None, BuildEvents(concrete, past), key), m, key);
    }
  }

  /** The bundle of the concrete manifest at a path. */
  function OwnBundle(manifests: seq<Manifest>, path: string): Bundle {
    if manifests == [] then Bundle("", "", [], map[], map[])
    else
      var last := manifests[|manifests| - 1];
      if last.Concrete? && last.path == path then last.bundle else OwnBundle(manifests[..|manifests| - 1], path)
  }

  lemma {:induction false} OwnBundleIs(manifests: seq<Manifest>, i: nat)
    requires DistinctPaths(manifests) && i < |manifests| && manifests[i].Concrete?
    ensures OwnBundle(manifests, manifests[i].path) == manifests[i].bundle
    decreases |manifests|
  {
    var n := |manifests| - 1;
    if i < n {
      OwnBundleIs(manifests[..n], i);
    }
  }

  lemma BuildHasOneBundlePerPath(concrete: set<string>, manifests: seq<Manifest>, own: string -> Bundle)
    requires DistinctPaths(manifests) && forall path :: own(path) == OwnBundle(manifests, path)
    ensures OneBundlePerPath(BuildEvents(concrete, manifests), own)
  {
    var events := BuildEvents(concrete, manifests);
    BuildIsPlain(concrete, manifests);
    forall e <- events | e.Claimed? && !e.claim.sourced
      ensures e.claim.bundle == own(e.claim.path) && e.claim.output == Plain(e.claim.bundle)
    {
      var i :| 0 <= i < |events| && events[i] == e;
      var key := ClaimKey(e.claim);
      assert IsConcrete(events[i], key);
      BuildClaims(concrete, manifests, key, e.claim.path, e.claim.bundle);
      var k :| 0 <= k < |manifests| && manifests[k].Concrete? && manifests[k].path == e.claim.path && manifests[k].bundle == e.claim.bundle;
      OwnBundleIs(manifests, k);
    }
  }

  /** Manifest `i` claims the key, every later claimant agrees with its hash, and the claimant just before it, if any, does not. */
  ghost predicate Leads(h: Hashes, manifests: seq<Manifest>, key: string, i: nat) {
    && i < |manifests| && ClaimsKey(manifests[i], key)
    && (forall j | i < j < |manifests| && ClaimsKey(manifests[j], key) :: h.bundle(manifests[j].bundle) == h.bundle(manifests[i].bundle))
    && (forall j | 0 <= j < i && ClaimsKey(manifests[j], key) && (forall k | j < k < i :: !ClaimsKey(manifests[k], key)) ::
          h.bundle(manifests[j].bundle) != h.bundle(manifests[i].bundle))
  }

  lemma LeadsOn(h: Hashes, past: seq<Manifest>, m: Manifest, key: string, i: nat)
    requires Leads(h, past, key, i) && (ClaimsKey(m, key) ==> h.bundle(m.bundle) == h.bundle(past[i].bundle))
    ensures Leads(h, past + [m], key, i)
  {
    var all := past + [m];
    assert forall j | 0 <= j < |past| :: all[j] == past[j];
  }

  lemma LeadsAnew(h: Hashes, past: seq<Manifest>, m: Manifest, key: string, l: Option<nat>)
    requires ClaimsKey(m, key)
    requires if l.Some? then Leads(h, past, key, l.value) && h.bundle(past[l.value].bundle) != h.bundle(m.bundle)
             else forall j | 0 <= j < |past| :: !ClaimsKey(past[j], key)
    ensures Leads(h, past + [m], key, |past|)
  {
    var all, n := past + [m], |past|;
    assert forall j | 0 <= j < n :: all[j] == past[j];
    forall j | 0 <= j < n && ClaimsKey(all[j], key) && (forall k | j < k < n :: !ClaimsKey(all[k], key))
      ensures h.bundle(all[j].bundle) != h.bundle(m.bundle)
    {
      assert j >= l.value by { assert ClaimsKey(all[l.value], key); }
    }
  }

  lemma {:induction false} HolderLeads(h: Hashes, manifests: seq<Manifest>, key: string) returns (i: nat)
    requires HolderOf(h, manifests, key).Some?
    ensures Leads(h, manifests, key, i) && HolderOf(h, manifests, key) == Some(manifests[i])
    decreases |manifests|
  {
    var n := |manifests| - 1;
    var past, m := manifests[..n], manifests[n];
    var earlier := HolderOf(h, past, key);
    assert manifests == past + [m];
    if earlier.None? {
      NoneClaims(h, past, key);
      LeadsAnew(h, past, m, key, None);
      i := n;
    } else {
      i := HolderLeads(h, past, key);
      if !ClaimsKey(m, key) || h.bundle(past[i].bundle) == h.bundle(m.bundle) {
        LeadsOn(h, past, m, key, i);
      } else {
        LeadsAnew(h, past, m, key, Some(i));
        i := n;
      }
    }
  }

  lemma {:induction false} NoneClaims(h: Hashes, manifests: seq<Manifest>, key: string)
    requires HolderOf(h, manifests, key).None?
    ensures forall j | 0 <= j < |manifests| :: !ClaimsKey(manifests[j], key)
    decreases |manifests|
  {
    if manifests != [] {
      var n := |manifests| - 1;
      NoneClaims(h, manifests[..n], key);
      assert forall j | 0 <= j < n :: manifests[..n][j] == manifests[j];
    }
  }

  /**
   In a build without errors the entry of a concrete key is the whole entry of one manifest:
   of the claimants that agree with the last one without a break, the first. Identical
   bundles keep the manifest that came first, different ones the one that came last.
   */
  lemma FirstOfEqualsIsNamed(h: Hashes, manifests: seq<Manifest>, key: string) returns (i: nat)
    requires DistinctPaths(manifests) && Built(h, manifests).errors == 0 && key in ConcreteKeys(manifests)
    ensures Leads(h, manifests, key, i) && manifests[i].Concrete? && key in Built(h, manifests).index
    ensures var e, m := Built(h, manifests).index[key], manifests[i];
            e == Entry(m.path, false, h.bundle(m.bundle), m.bundle, Inline, Plain(m.bundle))
  {
    var concrete := ConcreteKeys(manifests);
    var own := path => OwnBundle(manifests, path);
    BuildEndsCalmly(h, manifests);
    BuildHasOneBundlePerPath(concrete, manifests, own);
    EventsHold(h, concrete, BuildEvents(concrete, manifests), key, own);
    HoldersAreOfManifests(h, concrete, manifests, key);
    if HolderOf(h, manifests, key).None? {
      NoneClaims(h, manifests, key);
      ConcreteKeysAre(manifests, key);
      assert false;
    }
    i := HolderLeads(h, manifests, key);
  }

  // ---- entries and the objects they refer to -------------------------------------------

  /** Chains, addresses and selector as the manifest checks and resolvers give them. */
  ghost predicate WellFormed(b: Bundle) {
    && IsAnyHexWord(b.selector, 8)
    && forall p <- Pairs(b.targets) :: p.0 > 0 && IsAnyHexWord(p.1, 40)
  }

  ghost predicate ManifestWellFormed(m: Manifest) {
    && (m.Concrete? ==> WellFormed(m.bundle))
    && (m.Sourced? && m.outputs.Some? ==> forall o <- m.outputs.value :: WellFormed(o.bundle))
  }

  /** A claim is for a pair its own bundle matches; a source output is claimed as it is. */
  ghost predicate ClaimOk(c: Claim, formed: bool) {
    && c.pair in Pairs(c.bundle.targets)
    && (c.output.SourceRef? ==> c.bundle == c.output.bundle)
    && (formed ==> WellFormed(c.bundle))
  }

  ghost predicate WellClaimed(events: seq<Event>, formed: bool) {
    forall e <- events :: e.Claimed? ==> ClaimOk(e.claim, formed)
  }

  lemma ClaimsAreWellClaimed(path: string, sourced: bool, output: Output, bundle: Bundle, formed: bool)
    requires (output.SourceRef? ==> bundle == output.bundle) && (formed ==> WellFormed(bundle))
    ensures WellClaimed(ClaimsFor(path, sourced, output, bundle), formed)
  {
  }

  lemma PrunedIsWellFormed(b: Bundle, concrete: set<string>)
    requires WellFormed(b)
    ensures WellFormed(PruneBundle(b, concrete))
  {
    forall p <- Pairs(PruneBundle(b, concrete).targets) ensures p.0 > 0 && IsAnyHexWord(p.1, 40) {
      PruningIsExact(b, concrete, p);
    }
  }

  lemma {:induction false} OutputsAreWellClaimed(concrete: set<string>, path: string, outputs: seq<Output>, formed: bool)
    requires formed ==> forall o <- outputs :: WellFormed(o.bundle)
    ensures WellClaimed(OutputsEvents(concrete, path, outputs), formed)
    decreases |outputs|
  {
    if outputs != [] {
      var last := outputs[|outputs| - 1];
      assert last in outputs;
      OutputsAreWellClaimed(concrete, path, outputs[..|outputs| - 1], formed);
      if formed && last.Plain? {
        PrunedIsWellFormed(last.bundle, concrete);
      }
      ClaimsAreWellClaimed(path, true, last, Resolved(concrete, last), formed);
    }
  }

  lemma ManifestIsWellClaimed(concrete: set<string>, m: Manifest, formed: bool)
    requires formed ==> ManifestWellFormed(m)
    ensures WellClaimed(ManifestEvents(concrete, m), formed)
  {
    match m
    case Concrete(path, bundle, _) => ClaimsAreWellClaimed(path, false, Plain(bundle), bundle, formed);
    case Sourced(path, outputs) =>
      if outputs.Some? {
        OutputsAreWellClaimed(concrete, path, outputs.value, formed);
      }
    case _ =>
  }

  lemma {:induction false} BuildIsWellClaimed(concrete: set<string>, manifests: seq<Manifest>, formed: bool)
    requires formed ==> forall m <- manifests :: ManifestWellFormed(m)
    ensures WellClaimed(BuildEvents(concrete, manifests), formed)
    decreases |manifests|
  {
    if manifests != [] {
      assert manifests[|manifests| - 1] in manifests;
      BuildIsWellClaimed(concrete, manifests[..|manifests| - 1], formed);
      ManifestIsWellClaimed(concrete, manifests[|manifests| - 1], formed);
    }
  }

  /** An entry's bundle matches the chain, address and selector of its key, under its own hash. */
  ghost predicate EntryMatches(h: Hashes, key: string, e: Entry, formed: bool) {
    && e.sha == h.bundle(e.bundle) && (exists p <- Pairs(e.bundle.targets) :: KeyOf(e.bundle, p) == key)
    && (e.output.SourceRef? ==> e.bundle == e.output.bundle)
    && (formed ==> WellFormed(e.bundle))
  }

  ghost predicate IndexMatches(h: Hashes, b: Book, formed: bool) {
    forall key <- b.index :: EntryMatches(h, key, b.index[key], formed)
  }

  lemma SourcedMatches(h: Hashes, concrete: set<string>, b: Book, c: Claim, formed: bool)
    requires IndexMatches(h, b, formed) && ClaimOk(c, formed)
    ensures IndexMatches(h, EmitSourced(h, concrete, b, c), formed)
  {
    ArtifactsFrame(h, b, c);
    assert EntryMatches(h, ClaimKey(c), EntryOf(h, c), formed);
  }

  lemma ConcreteMatches(h: Hashes, b: Book, c: Claim, formed: bool)
    requires IndexMatches(h, b, formed) && ClaimOk(c, formed)
    ensures IndexMatches(h, EmitConcrete(h, b, c), formed)
  {
    assert EntryMatches(h, ClaimKey(c), EntryOf(h, c), formed);
  }

  lemma StepMatches(h: Hashes, concrete: set<string>, b: Book, e: Event, formed: bool)
    requires IndexMatches(h, b, formed) && (e.Claimed? ==> ClaimOk(e.claim, formed))
    ensures IndexMatches(h, Emit(h, concrete, b, e), formed)
  {
    if e.Claimed? {
      SourcedMatches(h, concrete, b, e.claim, formed);
      ConcreteMatches(h, b, e.claim, formed);
    }
  }

  lemma {:induction false} EventsMatch(h: Hashes, concrete: set<string>, events: seq<Event>, formed: bool)
    requires WellClaimed(events, formed)
    ensures IndexMatches(h, EmitAll(h, concrete, BLANK, events), formed)
    decreases |events|
  {
    if events != [] {
      var past, e := events[..|events| - 1], events[|events| - 1];
      assert e in events;
      EventsMatch(h, concrete, past, formed);
      StepMatches(h, concrete, EmitAll(h, concrete, BLANK, past), e, formed);
    }
  }

  /** Whatever fails, every file in the index holds a bundle that matches the file's own key, well formed if the manifests are. */
  lemma EntriesMatchTheirKeys(h: Hashes, manifests: seq<Manifest>, formed: bool)
    requires formed ==> forall m <- manifests :: ManifestWellFormed(m)
    ensures IndexMatches(h, Built(h, manifests), formed)
  {
    BuildIsWellClaimed(ConcreteKeys(manifests), manifests, formed);
    EventsMatch(h, ConcreteKeys(manifests), BuildEvents(ConcreteKeys(manifests), manifests), formed);
  }

  /** A plain sourced claim is for its output's bundle without the pairs whose key a concrete manifest claims. */
  ghost predicate Pruned(concrete: set<string>, sourced: bool, output: Output, bundle: Bundle) {
    sourced && output.Plain? ==>
      && bundle == output.bundle.(targets := bundle.targets)
      && forall p :: p in Pairs(bundle.targets) <==> p in Pairs(output.bundle.targets) && KeyOf(output.bundle, p) !in concrete
  }

  ghost predicate AllPruned(concrete: set<string>, events: seq<Event>) {
    forall e <- events :: e.Claimed? ==> Pruned(concrete, e.claim.sourced, e.claim.output, e.claim.bundle)
  }

  lemma ResolvedIsPruned(concrete: set<string>, output: Output)
    ensures Pruned(concrete, true, output, Resolved(concrete, output))
  {
    if output.Plain? {
      forall p
        ensures p in Pairs(Resolved(concrete, output).targets) <==> p in Pairs(output.bundle.targets) && KeyOf(output.bundle, p) !in concrete
      {
        PruningIsExact(output.bundle, concrete, p);
      }
    }
  }

  lemma {:induction false} OutputsArePruned(concrete: set<string>, path: string, outputs: seq<Output>)
    ensures AllPruned(concrete, OutputsEvents(concrete, path, outputs))
    decreases |outputs|
  {
    if outputs != [] {
      OutputsArePruned(concrete, path, outputs[..|outputs| - 1]);
      ResolvedIsPruned(concrete, outputs[|outputs| - 1]);
    }
  }

  lemma {:induction false} BuildIsPruned(concrete: set<string>, manifests: seq<Manifest>)
    ensures AllPruned(concrete, BuildEvents(concrete, manifests))
    decreases |manifests|
  {
    if manifests != [] {
      var last := manifests[|manifests| - 1];
      BuildIsPruned(concrete, manifests[..|manifests| - 1]);
      if last.Sourced? && last.outputs.Some? {
        OutputsArePruned(concrete, last.path, last.outputs.value);
      }
    }
  }

  ghost predicate IndexPruned(concrete: set<string>, b: Book) {
    forall key <- b.index :: Pruned(concrete, b.index[key].sourced, b.index[key].output, b.index[key].bundle)
  }

  lemma StepPrunes(h: Hashes, concrete: set<string>, b: Book, e: Event)
    requires IndexPruned(concrete, b) && (e.Claimed? ==> Pruned(concrete, e.claim.sourced, e.claim.output, e.claim.bundle))
    ensures IndexPruned(concrete, Emit(h, concrete, b, e))
  {
    if e.Claimed? {
      ArtifactsFrame(h, b, e.claim);
    }
  }

  lemma {:induction false} EventsPrune(h: Hashes, concrete: set<string>, events: seq<Event>)
    requires AllPruned(concrete, events)
    ensures IndexPruned(concrete, EmitAll(h, concrete, BLANK, events))
    decreases |events|
  {
    if events != [] {
      var past, e := events[..|events| - 1], events[|events| - 1];
      assert e in events;
      EventsPrune(h, concrete, past);
      StepPrunes(h, concrete, EmitAll(h, concrete, BLANK, past), e);
    }
  }

  /** Whatever fails, the bundle of a plain sourced entry matches what its resolver gave, less exactly the pairs concrete manifests claim. */
  lemma SourcedEntriesArePruned(h: Hashes, manifests: seq<Manifest>, key: string)
    requires key in Built(h, manifests).index && Built(h, manifests).index[key].sourced && Built(h, manifests).index[key].output.Plain?
    ensures var e := Built(h, manifests).index[key];
            && e.bundle == e.output.bundle.(targets := e.bundle.targets)
            && forall p :: p in Pairs(e.bundle.targets) <==> p in Pairs(e.output.bundle.targets) && KeyOf(e.bundle, p) !in ConcreteKeys(manifests)
  {
    BuildIsPruned(ConcreteKeys(manifests), manifests);
    EventsPrune(h, ConcreteKeys(manifests), BuildEvents(ConcreteKeys(manifests), manifests));
  }

  /** A generated reference receives one content, once. */
  ghost predicate Preserves(b: Book, t: Book) {
    forall ref <- b.generated :: ref in t.generated && t.generated[ref] == b.generated[ref]
  }

  lemma ContextPreserves(h: Hashes, b: Book, ref: Option<string>, doc: Json)
    ensures Preserves(b, WriteContext(h, b, ref, doc))
  {
  }

  lemma ArtifactsPreserve(h: Hashes, b: Book, c: Claim)
    ensures Preserves(b, WriteArtifacts(h, b, c))
  {
    if c.output.SourceRef? {
      var t := h.json(c.output.template);
      ContextPreserves(h, WriteGenerated(b, BundleFileRef(t), t, c.output.template), ContextRefOf(c.output), DocOf(c.output));
    }
  }

  lemma StepPreserves(h: Hashes, concrete: set<string>, b: Book, e: Event)
    ensures Preserves(b, Emit(h, concrete, b, e))
  {
    if e.Claimed? {
      ArtifactsPreserve(h, b, e.claim);
    }
  }

  lemma {:induction false} GeneratedIsWriteOnce(h: Hashes, concrete: set<string>, b: Book, events: seq<Event>)
    ensures Preserves(b, EmitAll(h, concrete, b, events))
    decreases |events|
  {
    if events != [] {
      GeneratedIsWriteOnce(h, concrete, b, events[..|events| - 1]);
      StepPreserves(h, concrete, EmitAll(h, concrete, b, events[..|events| - 1]), events[|events| - 1]);
    }
  }

  /** A bundle is hashed as the object it is written as. */
  ghost predicate Coherent(h: Hashes) {
    forall b :: h.bundle(b) == h.json(h.encode(b))
  }

  ghost predicate GeneratedOk(h: Hashes, b: Book) {
    forall ref <- b.generated :: b.generated[ref].sha == h.json(b.generated[ref].content)
  }

  /** The bundle a context-free reference entry names has been written, under the entry's hash. */
  ghost predicate RefsOk(b: Book) {
    forall key <- b.index | b.index[key].form.BundleRef? ::
      var e := b.index[key];
      e.form.ref == BundleFileRef(e.sha) && e.form.ref in b.generated && b.generated[e.form.ref].sha == e.sha
  }

  lemma GenerateHolds(h: Hashes, b: Book, ref: string, sha: string, content: Json)
    requires GeneratedOk(h, b) && sha == h.json(content)
    ensures var t := WriteGenerated(b, ref, sha, content);
            && GeneratedOk(h, t) && Preserves(b, t)
            && (!t.threw ==> ref in t.generated && t.generated[ref].sha == sha)
  {
  }

  lemma ArtifactsHold(h: Hashes, b: Book, c: Claim)
    requires Coherent(h) && GeneratedOk(h, b)
    ensures var t := WriteArtifacts(h, b, c);
            && GeneratedOk(h, t) && Preserves(b, t)
            && (c.sourced && c.output.Plain? && !t.threw ==>
                  var ref := BundleFileRef(h.bundle(c.bundle)); ref in t.generated && t.generated[ref].sha == h.bundle(c.bundle))
  {
    if c.output.SourceRef? {
      var t := h.json(c.output.template);
      GenerateHolds(h, b, BundleFileRef(t), t, c.output.template);
      var b1 := WriteGenerated(b, BundleFileRef(t), t, c.output.template);
      if !b1.threw && ContextRefOf(c.output).Some? {
        GenerateHolds(h, b1, ContextRefOf(c.output).value, h.json(DocOf(c.output)), DocOf(c.output));
      }
    } else if c.sourced {
      GenerateHolds(h, b, BundleFileRef(h.bundle(c.bundle)), h.bundle(c.bundle), h.encode(c.bundle));
    }
  }

  lemma SourcedRefs(h: Hashes, concrete: set<string>, b: Book, c: Claim)
    requires Coherent(h) && GeneratedOk(h, b) && RefsOk(b) && c.sourced
    ensures GeneratedOk(h, EmitSourced(h, concrete, b, c)) && RefsOk(EmitSourced(h, concrete, b, c))
  {
    ArtifactsHold(h, b, c);
    ArtifactsFrame(h, b, c);
  }

  lemma ConcreteRefs(h: Hashes, b: Book, c: Claim)
    requires GeneratedOk(h, b) && RefsOk(b) && !c.sourced
    ensures GeneratedOk(h, EmitConcrete(h, b, c)) && RefsOk(EmitConcrete(h, b, c))
  {
  }

  lemma StepRefs(h: Hashes, concrete: set<string>, b: Book, e: Event)
    requires Coherent(h) && GeneratedOk(h, b) && RefsOk(b)
    ensures GeneratedOk(h, Emit(h, concrete, b, e)) && RefsOk(Emit(h, concrete, b, e))
  {
    if e.Claimed? {
      if e.claim.sourced {
        SourcedRefs(h, concrete, b, e.claim);
      } else {
        ConcreteRefs(h, b, e.claim);
      }
    }
  }

  lemma {:induction false} EventsRefs(h: Hashes, concrete: set<string>, events: seq<Event>)
    requires Coherent(h)
    ensures GeneratedOk(h, EmitAll(h, concrete, BLANK, events)) && RefsOk(EmitAll(h, concrete, BLANK, events))
    decreases |events|
  {
    if events != [] {
      var past := events[..|events| - 1];
      EventsRefs(h, concrete, past);
      StepRefs(h, concrete, EmitAll(h, concrete, BLANK, past), events[|events| - 1]);
    }
  }

  /** Every context-free reference entry names a written object that holds the entry's bundle, or another one with its hash. */
  lemma ReferencesHold(h: Hashes, manifests: seq<Manifest>, key: string)
    requires Coherent(h)
    requires key in Built(h, manifests).index && Built(h, manifests).index[key].form.BundleRef?
    ensures var b := Built(h, manifests);
            var e := b.index[key];
            && e.form.ref == BundleFileRef(e.sha) && e.form.ref in b.generated && e.sha == h.json(h.encode(e.bundle))
            && h.json(b.generated[e.form.ref].content) == e.sha
            && var content := b.generated[e.form.ref].content;
               content == h.encode(e.bundle) || Collision(h.json, content, h.encode(e.bundle))
  {
    var b := Built(h, manifests);
    EventsRefs(h, ConcreteKeys(manifests), BuildEvents(ConcreteKeys(manifests), manifests));
    EntriesMatchTheirKeys(h, manifests, false);
    assert EntryMatches(h, key, b.index[key], false);
    assert h.json(b.generated[b.index[key].form.ref].content) == h.json(h.encode(b.index[key].bundle));
  }

  // ---- source contexts -----------------------------------------------------------------

  /** Context references and bundle references cannot be confused. */
  predicate NamesContext(ref: string) { ref != "" && ref[0] == 'c' }

  lemma RefNames(sha: string, o: Output)
    requires o.SourceRef?
    ensures !NamesContext(BundleFileRef(sha))
    ensures ContextRefOf(o).Some? ==> NamesContext(ContextRefOf(o).value)
  {
  }

  /** A source-context entry refers to its own template, under its hash, and to some written context. */
  ghost predicate ContextEntryOk(h: Hashes, b: Book, e: Entry) {
    e.form.ContextRef? ==>
      && e.sourced && e.output.SourceRef? && ContextRefOf(e.output) == Some(e.form.context) && e.form.context in b.generated
      && e.form.ref == BundleFileRef(h.json(e.output.template))
      && e.form.ref in b.generated && b.generated[e.form.ref].sha == h.json(e.output.template)
  }

  /** The entry refers to `ref`, and its own context document is `doc`. */
  ghost predicate OwnsDoc(e: Entry, ref: string, doc: Json) {
    e.form.ContextRef? && e.output.SourceRef? && e.form.context == ref && DocOf(e.output) == doc
  }

  ghost predicate IsOwned(b: Book, ref: string) {
    ref in b.generated && exists key <- b.index :: OwnsDoc(b.index[key], ref, b.generated[ref].content)
  }

  /** Every context object written is the document of an entry that refers to it. */
  ghost predicate ContextsOk(h: Hashes, b: Book) {
    && (forall key <- b.index :: ContextEntryOk(h, b, b.index[key]))
    && (forall ref <- b.generated | NamesContext(ref) :: IsOwned(b, ref))
  }

  /** Sourced entries and generated objects stay. */
  ghost predicate Retains(b: Book, t: Book) {
    && Preserves(b, t)
    && forall key <- b.index | b.index[key].form.ContextRef? :: key in t.index && t.index[key] == b.index[key]
  }

  lemma OwnershipStays(b: Book, t: Book, ref: string)
    requires Retains(b, t) && IsOwned(b, ref)
    ensures IsOwned(t, ref)
  {
    var key :| key in b.index && OwnsDoc(b.index[key], ref, b.generated[ref].content);
    assert key in t.index && OwnsDoc(t.index[key], ref, t.generated[ref].content);
  }

  /** A template and a context written one after the other, without an exception. */
  lemma WritesPair(h: Hashes, b: Book, tref: string, sha: string, template: Json, ref: Option<string>, doc: Json)
    requires !b.threw && tref != "" && !NamesContext(tref)
    requires ref.Some? ==> NamesContext(ref.value)
    ensures var t := WriteContext(h, WriteGenerated(b, tref, sha, template), ref, doc);
            && Preserves(b, t)
            && (t.threw ==> forall r <- t.generated | NamesContext(r) :: r in b.generated)
            && (!t.threw ==>
                  && tref in t.generated && t.generated[tref].sha == sha
                  && ref.Some? && ref.value in t.generated
                  && (ref.value !in b.generated ==> t.generated[ref.value].content == doc)
                  && forall r <- t.generated | NamesContext(r) :: r in b.generated || r == ref.value)
  {
  }

  lemma SourceRefContexts(h: Hashes, concrete: set<string>, b: Book, c: Claim)
    requires ContextsOk(h, b) && !b.threw && c.sourced && c.output.SourceRef?
    ensures ContextsOk(h, EmitSourced(h, concrete, b, c))
  {
    var key, t := ClaimKey(c), EmitSourced(h, concrete, b, c);
    if key !in b.index && key !in concrete {
      var sha, ref, doc := h.json(c.output.template), ContextRefOf(c.output), DocOf(c.output);
      RefNames(sha, c.output);
      WritesPair(h, b, BundleFileRef(sha), sha, c.output.template, ref, doc);
      ArtifactsFrame(h, b, c);
      assert Retains(b, t);
      if !t.threw {
        assert t.index[key] == EntryOf(h, c);
        assert ContextEntryOk(h, t, t.index[key]);
        if ref.value !in b.generated {
          assert OwnsDoc(t.index[key], ref.value, t.generated[ref.value].content);
        }
      }
      ContextsCarryOver(h, b, t, key, ref);
    }
  }

  /** What is left to show after a step that adds at most one entry and one context. */
  lemma ContextsCarryOver(h: Hashes, b: Book, t: Book, key: string, ref: Option<string>)
    requires ContextsOk(h, b) && Retains(b, t)
    requires forall k <- t.index | k != key :: k in b.index && t.index[k] == b.index[k]
    requires key in t.index ==> ContextEntryOk(h, t, t.index[key])
    requires forall r <- t.generated | NamesContext(r) :: r in b.generated || (ref == Some(r) && IsOwned(t, r))
    ensures ContextsOk(h, t)
  {
    forall k <- t.index ensures ContextEntryOk(h, t, t.index[k]) {
      assert k != key ==> ContextEntryOk(h, b, b.index[k]);
    }
    forall r <- t.generated | NamesContext(r) ensures IsOwned(t, r) {
      if r in b.generated {
        OwnershipStays(b, t, r);
      }
    }
  }

  lemma PlainContexts(h: Hashes, concrete: set<string>, b: Book, c: Claim)
    requires ContextsOk(h, b) && !b.threw && c.sourced && c.output.Plain?
    ensures ContextsOk(h, EmitSourced(h, concrete, b, c))
  {
    var key, t := ClaimKey(c), EmitSourced(h, concrete, b, c);
    if key !in b.index && key !in concrete {
      ArtifactsFrame(h, b, c);
      assert !NamesContext(BundleFileRef(h.bundle(c.bundle)));
      ContextsCarryOver(h, b, t, key, None);
    }
  }

  lemma ConcreteFrame(h: Hashes, b: Book, c: Claim)
    ensures var t := EmitConcrete(h, b, c);
            && t.generated == b.generated
            && (forall k <- t.index | k != ClaimKey(c) :: k in b.index && t.index[k] == b.index[k])
            && (forall k <- b.index | k != ClaimKey(c) :: k in t.index)
            && (ClaimKey(c) in t.index ==> t.index[ClaimKey(c)] == EntryOf(h, c) || (ClaimKey(c) in b.index && t.index[ClaimKey(c)] == b.index[ClaimKey(c)]))
  {
  }

  lemma ConcreteContexts(h: Hashes, concrete: set<string>, b: Book, c: Claim)
    requires ContextsOk(h, b) && OffConcrete(concrete, b) && !c.sourced && c.output.Plain? && ClaimKey(c) in concrete
    ensures ContextsOk(h, EmitConcrete(h, b, c))
  {
    var key, t := ClaimKey(c), EmitConcrete(h, b, c);
    assert key in b.index ==> ContextEntryOk(h, b, b.index[key]);
    ConcreteFrame(h, b, c);
    assert EntryOf(h, c).form.Inline?;
    ContextsCarryOver(h, b, t, key, None);
  }

  /** Concrete claims come with their own bundle. */
  ghost predicate ConcreteArePlain(events: seq<Event>) {
    forall e <- events :: e.Claimed? && !e.claim.sourced ==> e.claim.output == Plain(e.claim.bundle)
  }

  lemma StepContexts(h: Hashes, concrete: set<string>, b: Book, e: Event)
    requires ContextsOk(h, b) && OffConcrete(concrete, b)
    requires e.Claimed? && !e.claim.sourced ==> ClaimKey(e.claim) in concrete && e.claim.output.Plain?
    ensures ContextsOk(h, Emit(h, concrete, b, e))
  {
    match e
    case Ended(_) => ContextsCarryOver(h, b, Emit(h, concrete, b, e), "", None);
    case Claimed(c) =>
      if !b.threw {
        if !c.sourced {
          ConcreteContexts(h, concrete, b, c);
        } else if c.output.SourceRef? {
          SourceRefContexts(h, concrete, b, c);
        } else {
          PlainContexts(h, concrete, b, c);
        }
      }
  }

  lemma {:induction false} EventsContexts(h: Hashes, concrete: set<string>, events: seq<Event>)
    requires Covered(concrete, events) && ConcreteArePlain(events)
    ensures ContextsOk(h, EmitAll(h, concrete, BLANK, events))
    decreases |events|
  {
    if events != [] {
      var past, e := events[..|events| - 1], events[|events| - 1];
      assert e in events;
      EventsContexts(h, concrete, past);
      SourcedStaysOffConcrete(h, concrete, past);
      StepContexts(h, concrete, EmitAll(h, concrete, BLANK, past), e);
    }
  }

  lemma {:induction false} BuildIsPlain(concrete: set<string>, manifests: seq<Manifest>)
    ensures ConcreteArePlain(BuildEvents(concrete, manifests))
    decreases |manifests|
  {
    if manifests != [] {
      var last := manifests[|manifests| - 1];
      BuildIsPlain(concrete, manifests[..|manifests| - 1]);
      if last.Sourced? && last.outputs.Some? {
        SourcedOnly(concrete, last.path, last.outputs.value);
      }
    }
  }

  lemma BuildContexts(h: Hashes, manifests: seq<Manifest>)
    ensures ContextsOk(h, Built(h, manifests)) && OffConcrete(ConcreteKeys(manifests), Built(h, manifests))
  {
    var concrete := ConcreteKeys(manifests);
    BuildIsCovered(manifests);
    BuildIsPlain(concrete, manifests);
    EventsContexts(h, concrete, BuildEvents(concrete, manifests));
    SourcedStaysOffConcrete(h, concrete, BuildEvents(concrete, manifests));
  }

  /** Every source-context entry names a written object that holds its template, or another value with the template's hash. */
  lemma TemplatesHold(h: Hashes, manifests: seq<Manifest>, key: string)
    requires Coherent(h) && key in Built(h, manifests).index && Built(h, manifests).index[key].form.ContextRef?
    ensures var b := Built(h, manifests);
            var e := b.index[key];
            && e.output.SourceRef? && ContextRefOf(e.output) == Some(e.form.context) && e.form.context in b.generated
            && e.form.ref == BundleFileRef(h.json(e.output.template)) && e.form.ref in b.generated
            && var content := b.generated[e.form.ref].content;
               content == e.output.template || Collision(h.json, content, e.output.template)
  {
    var b := Built(h, manifests);
    BuildContexts(h, manifests);
    EventsRefs(h, ConcreteKeys(manifests), BuildEvents(ConcreteKeys(manifests), manifests));
    assert ContextEntryOk(h, b, b.index[key]);
  }

  /** Every source-context entry refers to its own context document. */
  ghost predicate OwnContexts(b: Book) {
    forall key <- b.index | b.index[key].form.ContextRef? ::
      var e := b.index[key];
      e.output.SourceRef? && e.form.context in b.generated && b.generated[e.form.context].content == DocOf(e.output)
  }

  /** Of the claims that get an index file, those with one context reference carry one document. */
  ghost predicate WrittenContextsAgree(concrete: set<string>, events: seq<Event>) {
    forall k, l | k !in concrete && l !in concrete && FirstSourced(events, k).Some? && FirstSourced(events, l).Some? ::
      var o, p := FirstSourced(events, k).value.output, FirstSourced(events, l).value.output;
      o.SourceRef? && p.SourceRef? && ContextRefOf(o) == ContextRefOf(p) ==> DocOf(o) == DocOf(p)
  }

  /** A source-context entry of a build without errors is that of the first sourced claim of its key. */
  lemma ContextEntryIsFirst(h: Hashes, manifests: seq<Manifest>, key: string)
    requires Built(h, manifests).errors == 0
    requires key in Built(h, manifests).index && Built(h, manifests).index[key].form.ContextRef?
    ensures var first := FirstSourced(BuildEvents(ConcreteKeys(manifests), manifests), key);
            && key !in ConcreteKeys(manifests) && first.Some?
            && Built(h, manifests).index[key] == EntryOf(h, first.value) && first.value.output.SourceRef?
  {
    BuildContexts(h, manifests);
    assert ContextEntryOk(h, Built(h, manifests), Built(h, manifests).index[key]);
    IndexOwnership(h, manifests, key);
    LastClaimantExists(manifests, key);
  }

  lemma FirstIsContextEntry(h: Hashes, manifests: seq<Manifest>, key: string)
    requires Built(h, manifests).errors == 0 && key !in ConcreteKeys(manifests)
    requires var first := FirstSourced(BuildEvents(ConcreteKeys(manifests), manifests), key); first.Some? && first.value.output.SourceRef?
    ensures var first := FirstSourced(BuildEvents(ConcreteKeys(manifests), manifests), key);
            && key in Built(h, manifests).index && Built(h, manifests).index[key] == EntryOf(h, first.value)
            && Built(h, manifests).index[key].form.ContextRef?
            && ContextRefOf(first.value.output) == Some(Built(h, manifests).index[key].form.context)
  {
    IndexOwnership(h, manifests, key);
    LastClaimantExists(manifests, key);
    BuildContexts(h, manifests);
    assert ContextEntryOk(h, Built(h, manifests), Built(h, manifests).index[key]);
  }

  /**
   In a build without errors every source-context entry refers to its own context exactly when
   the claims that get an index file agree: one reference, computed from source, chain and
   address, one document.
   */
  lemma ContextsHold(h: Hashes, manifests: seq<Manifest>)
    requires Built(h, manifests).errors == 0
    ensures OwnContexts(Built(h, manifests)) <==>
            WrittenContextsAgree(ConcreteKeys(manifests), BuildEvents(ConcreteKeys(manifests), manifests))
  {
    var b, concrete := Built(h, manifests), ConcreteKeys(manifests);
    var events := BuildEvents(concrete, manifests);
    if OwnContexts(b) {
      forall k, l | k !in concrete && l !in concrete && FirstSourced(events, k).Some? && FirstSourced(events, l).Some?
        ensures var o, p := FirstSourced(events, k).value.output, FirstSourced(events, l).value.output;
                o.SourceRef? && p.SourceRef? && ContextRefOf(o) == ContextRefOf(p) ==> DocOf(o) == DocOf(p)
      {
        if FirstSourced(events, k).value.output.SourceRef? && FirstSourced(events, l).value.output.SourceRef? {
          FirstIsContextEntry(h, manifests, k);
          FirstIsContextEntry(h, manifests, l);
        }
      }
    }
    if WrittenContextsAgree(concrete, events) {
      forall key <- b.index | b.index[key].form.ContextRef?
        ensures b.index[key].output.SourceRef? && b.index[key].form.context in b.generated
        ensures b.generated[b.index[key].form.context].content == DocOf(b.index[key].output)
      {
        AgreeingContextIsOwn(h, manifests, key);
      }
    }
  }

  lemma AgreeingContextIsOwn(h: Hashes, manifests: seq<Manifest>, key: string)
    requires Built(h, manifests).errors == 0
    requires WrittenContextsAgree(ConcreteKeys(manifests), BuildEvents(ConcreteKeys(manifests), manifests))
    requires key in Built(h, manifests).index && Built(h, manifests).index[key].form.ContextRef?
    ensures var b := Built(h, manifests);
            var e := b.index[key];
            e.output.SourceRef? && e.form.context in b.generated && b.generated[e.form.context].content == DocOf(e.output)
  {
    var b := Built(h, manifests);
    var e := b.index[key];
    BuildContexts(h, manifests);
    assert ContextEntryOk(h, b, e);
    RefNames("", e.output);
    assert IsOwned(b, e.form.context);
    var other :| other in b.index && OwnsDoc(b.index[other], e.form.context, b.generated[e.form.context].content);
    assert ContextEntryOk(h, b, b.index[other]);
    ContextEntryIsFirst(h, manifests, key);
    ContextEntryIsFirst(h, manifests, other);
  }

  // ---- when a build succeeds -----------------------------------------------------------

  /** The manifest loads, its resolver answers, and its typed-data or selector entry is new. */
  predicate Faultless(m: Manifest) {
    match m
    case Broken(_) => false
    case Concrete(_, _, clash) => !clash
    case Sourced(_, outputs) => outputs.Some?
    case Agnostic(_, clash) => !clash
  }

  lemma ManifestFails(concrete: set<string>, m: Manifest)
    ensures Ended(true) in ManifestEvents(concrete, m) <==> !Faultless(m)
  {
    var events := ManifestEvents(concrete, m);
    if m.Concrete? {
      var claims := ClaimsFor(m.path, false, Plain(m.bundle), m.bundle);
      assert forall e <- claims :: e.Claimed?;
      assert events == claims + [Ended(m.clash)];
      assert events[|claims|] == Ended(m.clash);
    } else if m.Sourced? && m.outputs.Some? {
      SourcedOnly(concrete, m.path, m.outputs.value);
    } else {
      assert events[0] in events;
    }
  }

  lemma {:induction false} FaultyManifestFails(concrete: set<string>, manifests: seq<Manifest>)
    ensures Ended(true) in BuildEvents(concrete, manifests) <==> exists m <- manifests :: !Faultless(m)
    decreases |manifests|
  {
    if manifests != [] {
      var past, last := manifests[..|manifests| - 1], manifests[|manifests| - 1];
      FaultyManifestFails(concrete, past);
      ManifestFails(concrete, last);
      assert manifests == past + [last];
    }
  }

  /** The claim that gets the index file of a key no concrete manifest claims. */
  ghost predicate GetsFile(concrete: set<string>, events: seq<Event>, key: string) {
    key !in concrete && FirstSourced(events, key).Some?
  }

  /** The hash under which a sourced claim's bundle, or its template, is written. */
  function ObjectHash(h: Hashes, c: Claim): string {
    if c.output.SourceRef? then h.json(c.output.template) else h.bundle(c.bundle)
  }

  predicate NamesItsContext(c: Claim) {
    c.output.SourceRef? ==> ContextRefOf(c.output).Some?
  }

  /** Every claim that gets an index file has somewhere to write its context. */
  ghost predicate AllNameContexts(concrete: set<string>, events: seq<Event>) {
    forall key | GetsFile(concrete, events, key) :: NamesItsContext(FirstSourced(events, key).value)
  }

  /** Of the claims that get an index file, no two write one bundle reference under two hashes. */
  ghost predicate OneHashPerRef(h: Hashes, concrete: set<string>, events: seq<Event>) {
    forall k, l | GetsFile(concrete, events, k) && GetsFile(concrete, events, l) ::
      var x, y := ObjectHash(h, FirstSourced(events, k).value), ObjectHash(h, FirstSourced(events, l).value);
      BundleFileRef(x) == BundleFileRef(y) ==> x == y
  }

  /** Writing the objects of a claim fails exactly for a bundle reference that is taken under another hash, or for want of a context path. */
  lemma WhenArtifactsThrow(h: Hashes, b: Book, c: Claim)
    requires !b.threw && c.sourced
    ensures var ref, t := BundleFileRef(ObjectHash(h, c)), WriteArtifacts(h, b, c);
            && (t.threw <==> (ref in b.generated && b.generated[ref].sha != ObjectHash(h, c)) || !NamesItsContext(c))
            && (!t.threw ==>
                  && ref in t.generated && t.generated[ref].sha == ObjectHash(h, c)
                  && forall r <- t.generated | !NamesContext(r) :: (r in b.generated && t.generated[r] == b.generated[r]) || r == ref)
  {
    if c.output.SourceRef? {
      var sha := h.json(c.output.template);
      RefNames(sha, c.output);
      PairThrows(h, b, BundleFileRef(sha), sha, c.output.template, ContextRefOf(c.output), DocOf(c.output));
    }
  }

  lemma PairThrows(h: Hashes, b: Book, tref: string, sha: string, template: Json, ref: Option<string>, doc: Json)
    requires !b.threw && !NamesContext(tref) && (ref.Some? ==> NamesContext(ref.value))
    ensures var t := WriteContext(h, WriteGenerated(b, tref, sha, template), ref, doc);
            && (t.threw <==> (tref in b.generated && b.generated[tref].sha != sha) || ref.None?)
            && (!t.threw ==>
                  && tref in t.generated && t.generated[tref].sha == sha
                  && forall r <- t.generated | !NamesContext(r) :: (r in b.generated && t.generated[r] == b.generated[r]) || r == tref)
  {
  }

  /** The written bundle reference comes from a claim that got an index file. */
  ghost predicate StemsFrom(h: Hashes, concrete: set<string>, events: seq<Event>, b: Book, ref: string, key: string)
    requires ref in b.generated
  {
    && GetsFile(concrete, events, key)
    && var sha := ObjectHash(h, FirstSourced(events, key).value); ref == BundleFileRef(sha) && b.generated[ref].sha == sha
  }

  ghost predicate AllStem(h: Hashes, concrete: set<string>, events: seq<Event>, b: Book) {
    forall ref <- b.generated | !NamesContext(ref) :: exists key :: StemsFrom(h, concrete, events, b, ref, key)
  }

  /** And every claim that got an index file has a context path and its bundle or template in place. */
  ghost predicate AllInPlace(h: Hashes, concrete: set<string>, events: seq<Event>, b: Book) {
    forall key | GetsFile(concrete, events, key) ::
      var c := FirstSourced(events, key).value;
      var ref := BundleFileRef(ObjectHash(h, c));
      NamesItsContext(c) && ref in b.generated && b.generated[ref].sha == ObjectHash(h, c)
  }

  lemma FirstStays(past: seq<Event>, e: Event, key: string)
    ensures FirstSourced(past + [e], key) ==
            if FirstSourced(past, key).Some? then FirstSourced(past, key) else if IsSourced(e, key) then Some(e.claim) else None
  {
    assert (past + [e])[..|past|] == past;
  }

  lemma StemsStay(h: Hashes, concrete: set<string>, past: seq<Event>, e: Event, b: Book, t: Book)
    requires AllStem(h, concrete, past, b)
    requires forall r <- t.generated | !NamesContext(r) ::
               (r in b.generated && t.generated[r] == b.generated[r]) || exists key :: StemsFrom(h, concrete, past + [e], t, r, key)
    ensures AllStem(h, concrete, past + [e], t)
  {
    forall r <- t.generated | !NamesContext(r) ensures exists key :: StemsFrom(h, concrete, past + [e], t, r, key) {
      if r in b.generated && t.generated[r] == b.generated[r] {
        var key :| StemsFrom(h, concrete, past, b, r, key);
        FirstStays(past, e, key);
        assert StemsFrom(h, concrete, past + [e], t, r, key);
      }
    }
  }

  lemma InPlaceStays(h: Hashes, concrete: set<string>, past: seq<Event>, e: Event, b: Book, t: Book)
    requires AllInPlace(h, concrete, past, b) && Preserves(b, t)
    requires e.Claimed? && e.claim.sourced && GetsFile(concrete, past + [e], ClaimKey(e.claim)) && FirstSourced(past, ClaimKey(e.claim)).None? ==>
               var ref := BundleFileRef(ObjectHash(h, e.claim));
               NamesItsContext(e.claim) && ref in t.generated && t.generated[ref].sha == ObjectHash(h, e.claim)
    ensures AllInPlace(h, concrete, past + [e], t)
  {
    forall key | GetsFile(concrete, past + [e], key)
      ensures var c := FirstSourced(past + [e], key).value;
              var ref := BundleFileRef(ObjectHash(h, c));
              NamesItsContext(c) && ref in t.generated && t.generated[ref].sha == ObjectHash(h, c)
    {
      FirstStays(past, e, key);
      assert FirstSourced(past, key).Some? ==> GetsFile(concrete, past, key);
    }
  }

  /** One more event of a run without failures so far: it fails exactly as the event and what was written before say. */
  lemma StepSucceeds(h: Hashes, concrete: set<string>, past: seq<Event>, e: Event, b: Book)
    requires b == EmitAll(h, concrete, BLANK, past) && Smooth(b) && Covered(concrete, past)
    requires AllStem(h, concrete, past, b) && AllInPlace(h, concrete, past, b)
    ensures var t := Emit(h, concrete, b, e);
            && (Smooth(t) <==> e != Ended(true) && AllNameContexts(concrete, past + [e]) && OneHashPerRef(h, concrete, past + [e]))
            && (Smooth(t) ==> AllStem(h, concrete, past + [e], t) && AllInPlace(h, concrete, past + [e], t))
  {
    var t := Emit(h, concrete, b, e);
    if e.Claimed? && e.claim.sourced && ClaimKey(e.claim) !in b.index && ClaimKey(e.claim) !in concrete {
      WritingSucceeds(h, concrete, past, e, b);
    } else {
      NothingNew(h, concrete, past, e, b);
    }
  }

  /** The claim gets no file, so nothing is written and nothing new is asked for. */
  lemma NothingNew(h: Hashes, concrete: set<string>, past: seq<Event>, e: Event, b: Book)
    requires b == EmitAll(h, concrete, BLANK, past) && Smooth(b) && Covered(concrete, past)
    requires AllStem(h, concrete, past, b) && AllInPlace(h, concrete, past, b)
    requires !(e.Claimed? && e.claim.sourced && ClaimKey(e.claim) !in b.index && ClaimKey(e.claim) !in concrete)
    ensures var t := Emit(h, concrete, b, e);
            && (Smooth(t) <==> e != Ended(true)) && AllNameContexts(concrete, past + [e]) && OneHashPerRef(h, concrete, past + [e])
            && AllStem(h, concrete, past + [e], t) && AllInPlace(h, concrete, past + [e], t)
  {
    var t := Emit(h, concrete, b, e);
    assert t.generated == b.generated;
    if e.Claimed? {
      KeysAreOwned(h, concrete, past, ClaimKey(e.claim));
    }
    StemsStay(h, concrete, past, e, b, t);
    InPlaceStays(h, concrete, past, e, b, t);
    PlacedAgree(h, concrete, past + [e], t);
  }

  /** One reference holds one hash. */
  lemma PlacedAgree(h: Hashes, concrete: set<string>, events: seq<Event>, b: Book)
    requires AllInPlace(h, concrete, events, b)
    ensures AllNameContexts(concrete, events) && OneHashPerRef(h, concrete, events)
  {
  }

  lemma WritingSucceeds(h: Hashes, concrete: set<string>, past: seq<Event>, e: Event, b: Book)
    requires b == EmitAll(h, concrete, BLANK, past) && Smooth(b) && Covered(concrete, past)
    requires AllStem(h, concrete, past, b) && AllInPlace(h, concrete, past, b)
    requires e.Claimed? && e.claim.sourced && ClaimKey(e.claim) !in b.index && ClaimKey(e.claim) !in concrete
    ensures var t := Emit(h, concrete, b, e);
            && (Smooth(t) <==> AllNameContexts(concrete, past + [e]) && OneHashPerRef(h, concrete, past + [e]))
            && (Smooth(t) ==> AllStem(h, concrete, past + [e], t) && AllInPlace(h, concrete, past + [e], t))
  {
    var t, c, key := Emit(h, concrete, b, e), e.claim, ClaimKey(e.claim);
    KeysAreOwned(h, concrete, past, key);
    FirstStays(past, e, key);
    WhenArtifactsThrow(h, b, c);
    ArtifactsFrame(h, b, c);
    ArtifactsPreserve(h, b, c);
    if Smooth(t) {
      var ref := BundleFileRef(ObjectHash(h, c));
      assert StemsFrom(h, concrete, past + [e], t, ref, key);
      StemsStay(h, concrete, past, e, b, t);
      InPlaceStays(h, concrete, past, e, b, t);
      PlacedAgree(h, concrete, past + [e], t);
    } else {
      Conflicts(h, concrete, past, e, b);
    }
  }

  /** If its objects cannot be written, the claim lacks a context path or disagrees with an earlier one. */
  lemma Conflicts(h: Hashes, concrete: set<string>, past: seq<Event>, e: Event, b: Book)
    requires AllStem(h, concrete, past, b) && e.Claimed? && e.claim.sourced && ClaimKey(e.claim) !in concrete
    requires FirstSourced(past + [e], ClaimKey(e.claim)) == Some(e.claim)
    requires var ref := BundleFileRef(ObjectHash(h, e.claim));
             (ref in b.generated && b.generated[ref].sha != ObjectHash(h, e.claim)) || !NamesItsContext(e.claim)
    ensures !(AllNameContexts(concrete, past + [e]) && OneHashPerRef(h, concrete, past + [e]))
  {
    var ref, key := BundleFileRef(ObjectHash(h, e.claim)), ClaimKey(e.claim);
    assert GetsFile(concrete, past + [e], key);
    if NamesItsContext(e.claim) {
      RefIsNoContext(ObjectHash(h, e.claim));
      var other :| StemsFrom(h, concrete, past, b, ref, other);
      FirstStays(past, e, other);
      assert GetsFile(concrete, past + [e], other);
    }
  }

  lemma RefIsNoContext(sha: string)
    ensures !NamesContext(BundleFileRef(sha))
  {
  }

  ghost predicate Succeeds(h: Hashes, concrete: set<string>, events: seq<Event>) {
    Ended(true) !in events && AllNameContexts(concrete, events) && OneHashPerRef(h, concrete, events)
  }

  lemma SucceedsBefore(h: Hashes, concrete: set<string>, past: seq<Event>, e: Event)
    requires Succeeds(h, concrete, past + [e])
    ensures Succeeds(h, concrete, past)
  {
    forall key | GetsFile(concrete, past, key)
      ensures GetsFile(concrete, past + [e], key) && FirstSourced(past + [e], key) == FirstSourced(past, key)
    {
      FirstStays(past, e, key);
    }
    assert forall x <- past :: x in past + [e];
  }

  /** A run goes without failures exactly when nothing in it fails by itself and the claims that get files can all be written. */
  lemma {:induction false} RunSucceeds(h: Hashes, concrete: set<string>, events: seq<Event>)
    requires Covered(concrete, events)
    ensures var b := EmitAll(h, concrete, BLANK, events);
            && (Smooth(b) <==> Succeeds(h, concrete, events))
            && (Smooth(b) ==> AllStem(h, concrete, events, b) && AllInPlace(h, concrete, events, b))
    decreases |events|
  {
    if events != [] {
      var past, e := events[..|events| - 1], events[|events| - 1];
      var b := EmitAll(h, concrete, BLANK, past);
      assert events == past + [e];
      RunSucceeds(h, concrete, past);
      if Smooth(b) {
        StepSucceeds(h, concrete, past, e, b);
      } else if Smooth(EmitAll(h, concrete, BLANK, events)) {
        SmoothBefore(h, concrete, b, e);
      } else if Succeeds(h, concrete, events) {
        SucceedsBefore(h, concrete, past, e);
      }
    }
  }

  /**
   The build counts no error exactly when every manifest loads, every resolver answers and no
   typed-data or selector entry clashes; every source output that gets an index file has a
   context path; and no two outputs that get one write one bundle reference under two hashes.
   */
  lemma NoErrors(h: Hashes, manifests: seq<Manifest>)
    ensures Built(h, manifests).errors == 0 <==>
            var concrete := ConcreteKeys(manifests);
            var events := BuildEvents(concrete, manifests);
            && (forall m <- manifests :: Faultless(m))
            && AllNameContexts(concrete, events) && OneHashPerRef(h, concrete, events)
  {
    var concrete := ConcreteKeys(manifests);
    BuildIsCovered(manifests);
    BuildEndsCalmly(h, manifests);
    RunSucceeds(h, concrete, BuildEvents(concrete, manifests));
    FaultyManifestFails(concrete, manifests);
  }

  /** A build exits 0 exactly when it meets no error; a strict one, when moreover concrete manifests agree on every key they share. */
  lemma StrictExit(h: Hashes, manifests: seq<Manifest>, strict: bool)
    requires DistinctPaths(manifests)
    ensures Exit(strict, Built(h, manifests)) == 0 <==>
            var concrete := ConcreteKeys(manifests);
            var events := BuildEvents(concrete, manifests);
            && (forall m <- manifests :: Faultless(m))
            && AllNameContexts(concrete, events) && OneHashPerRef(h, concrete, events)
            && (strict ==> ManifestsAgree(h, manifests))
    ensures Exit(strict, Built(h, manifests)) <= 1
  {
    NoErrors(h, manifests);
    CollisionsAreOfManifests(h, manifests);
  }

  // ---- a silent collision --------------------------------------------------------------

  predicate OnePair(o: Output, p: (nat, string)) { o.bundle.targets == [Target(p.0, [p.1])] }

  function OnlyClaim(path: string, o: Output, p: (nat, string)): Claim { Claim(path, true, o, o.bundle, p) }

  lemma OneOutputEvents(concrete: set<string>, path: string, o: Output, p: (nat, string))
    requires o.SourceRef? && OnePair(o, p)
    ensures ManifestEvents(concrete, Sourced(path, Some([o]))) == [Claimed(OnlyClaim(path, o, p)), Ended(false)]
  {
    var t := Target(p.0, [p.1]);
    assert o.bundle.targets[..0] == [] && TargetPairs(t) == [p];
    assert Pairs(o.bundle.targets) == [p];
    assert [o][..0] == [] && Resolved(concrete, o) == o.bundle;
    assert OutputEvents(concrete, path, o) == EventsFor(path, true, o, o.bundle, [p]);
    assert EventsFor(path, true, o, o.bundle, [p]) == [Claimed(OnlyClaim(path, o, p))];
    assert OutputsEvents(concrete, path, [o]) == [Claimed(OnlyClaim(path, o, p))];
  }

  function TwoManifests(o: Output, p: Output): seq<Manifest> {
    [Sourced("a.json", Some([o])), Sourced("b.json", Some([p]))]
  }

  lemma TwoManifestsBuild(h: Hashes, o: Output, op: (nat, string), p: Output, pp: (nat, string))
    requires o.SourceRef? && OnePair(o, op) && p.SourceRef? && OnePair(p, pp)
    ensures ConcreteKeys(TwoManifests(o, p)) == {}
    ensures var b1 := Emit(h, {}, Turn(h, {}, BLANK, OnlyClaim("a.json", o, op)), Ended(false));
            Built(h, TwoManifests(o, p)) == Emit(h, {}, Turn(h, {}, b1, OnlyClaim("b.json", p, pp)), Ended(false))
  {
    var ms := TwoManifests(o, p);
    assert ms[..1] == [ms[0]] && [ms[0]][..0] == [] && ms[..0] == [];
    assert ConcreteKeys([ms[0]]) == {};
    OneOutputEvents({}, "a.json", o, op);
    OneOutputEvents({}, "b.json", p, pp);
    var c, d := Claimed(OnlyClaim("a.json", o, op)), Claimed(OnlyClaim("b.json", p, pp));
    assert BuildEvents({}, [ms[0]]) == [c, Ended(false)];
    assert BuildEvents({}, ms) == [c, Ended(false)] + [d, Ended(false)];
    EmitAppend(h, {}, BLANK, [c, Ended(false)], [d, Ended(false)]);
    EmitPair(h, BLANK, c, Ended(false));
    EmitPair(h, EmitAll(h, {}, BLANK, [c, Ended(false)]), d, Ended(false));
  }

  lemma EmitPair(h: Hashes, b: Book, c: Event, d: Event)
    ensures EmitAll(h, {}, b, [c, d]) == Emit(h, {}, Emit(h, {}, b, c), d)
  {
    assert [c, d] == [c] + [d];
    EmitAppend(h, {}, b, [c], [d]);
    EmitOne(h, {}, b, c);
    EmitOne(h, {}, Emit(h, {}, b, c), d);
  }

  /** The book after one source output with nothing in its way. */
  lemma FirstTurn(h: Hashes, b: Book, c: Claim)
    requires !b.threw && c.sourced && c.output.SourceRef? && ClaimKey(c) !in b.index && ContextRefOf(c.output).Some?
    requires var tref := BundleFileRef(h.json(c.output.template)); tref in b.generated ==> b.generated[tref].sha == h.json(c.output.template)
    ensures var t := Turn(h, {}, b, c);
            var ref := ContextRefOf(c.output).value;
            && !t.threw && t.errors == b.errors && t.index == b.index[ClaimKey(c) := EntryOf(h, c)]
            && BundleFileRef(h.json(c.output.template)) in t.generated && ref in t.generated
            && t.generated[BundleFileRef(h.json(c.output.template))].sha == h.json(c.output.template)
            && t.generated[ref].content == (if ref in b.generated then b.generated[ref].content else DocOf(c.output))
            && forall r <- t.generated :: r in b.generated || r == ref || r == BundleFileRef(h.json(c.output.template))
  {
    var sha, ref, doc := h.json(c.output.template), ContextRefOf(c.output), DocOf(c.output);
    RefNames(sha, c.output);
    WritesPair(h, b, BundleFileRef(sha), sha, c.output.template, ref, doc);
    ArtifactsFrame(h, b, c);
    PairDoesNotThrow(h, b, BundleFileRef(sha), sha, c.output.template, ref, doc);
  }

  lemma PairDoesNotThrow(h: Hashes, b: Book, tref: string, sha: string, template: Json, ref: Option<string>, doc: Json)
    requires !b.threw && ref.Some? && (tref in b.generated ==> b.generated[tref].sha == sha)
    ensures var t := WriteContext(h, WriteGenerated(b, tref, sha, template), ref, doc);
            !t.threw && forall r <- t.generated :: r in b.generated || r == ref.value || r == tref
  {
  }

  /**
   Two source outputs for one source, chain and address whose contexts differ: the build
   succeeds, and the second entry refers to the first one's context.
   */
  lemma ContextCollisionIsSilent(h: Hashes, o: Output, op: (nat, string), p: Output, pp: (nat, string))
    requires o.SourceRef? && OnePair(o, op) && p.SourceRef? && OnePair(p, pp) && KeyOf(o.bundle, op) != KeyOf(p.bundle, pp)
    requires BundleFileRef(h.json(o.template)) == BundleFileRef(h.json(p.template)) ==> h.json(o.template) == h.json(p.template)
    requires o.source == p.source && o.chain == p.chain && o.address == p.address && o.context != p.context
    requires ContextRefOf(o).Some?
    ensures var b := Built(h, TwoManifests(o, p));
            var key := KeyOf(p.bundle, pp);
            && b.errors == 0 && key in b.index && b.index[key] == EntryOf(h, OnlyClaim("b.json", p, pp))
            && ContextRefOf(p).Some? && ContextRefOf(p).value in b.generated
            && b.generated[ContextRefOf(p).value].content == DocOf(o) != DocOf(p)
  {
    var c, d := OnlyClaim("a.json", o, op), OnlyClaim("b.json", p, pp);
    TwoManifestsBuild(h, o, op, p, pp);
    FirstTurn(h, BLANK, c);
    var b1 := Emit(h, {}, Turn(h, {}, BLANK, c), Ended(false));
    RefNames(h.json(p.template), o);
    FirstTurn(h, b1, d);
    DocsDiffer(o, p);
  }

  lemma DocsDiffer(o: Output, p: Output)
    requires o.SourceRef? && p.SourceRef? && o.context != p.context
    ensures DocOf(o) != DocOf(p)
  {
    assert DocOf(o).fields["context"] == o.context && DocOf(p).fields["context"] == p.context;
  }

  lemma KeyTail(head: string, selector: string, i: nat)
    requires i < |selector|
    ensures (head + selector + ".json")[|head| + i] == selector[i]
  {
  }

  // ---- a small build -------------------------------------------------------------------

  lemma OnePlainEvents(path: string, o: Output, p: (nat, string))
    requires o.Plain? && OnePair(o, p)
    ensures ManifestEvents({}, Sourced(path, Some([o]))) == [Claimed(OnlyClaim(path, o, p)), Ended(false)]
  {
    assert o.bundle.targets[..0] == [] && TargetPairs(Target(p.0, [p.1])) == [p];
    assert Pairs(o.bundle.targets) == [p];
    assert AllKept(o.bundle, {}, [p]);
    assert [o][..0] == [] && Resolved({}, o) == o.bundle;
    assert OutputEvents({}, path, o) == EventsFor(path, true, o, o.bundle, [p]);
    assert EventsFor(path, true, o, o.bundle, [p]) == [Claimed(OnlyClaim(path, o, p))];
    assert OutputsEvents({}, path, [o]) == [Claimed(OnlyClaim(path, o, p))];
  }

  /** One sourced manifest with one bundle for one address: one reference entry, and its bundle behind it. */
  lemma OnePlainBuild(h: Hashes, o: Output, p: (nat, string))
    requires o.Plain? && OnePair(o, p)
    ensures var b := Built(h, [Sourced("a.json", Some([o]))]);
            var key := KeyOf(o.bundle, p);
            && b.errors == 0 && key in b.index && b.index[key].bundle == o.bundle
            && b.index[key].form == BundleRef(BundleFileRef(h.bundle(o.bundle)))
            && b.index[key].form.ref in b.generated && b.generated[b.index[key].form.ref].content == h.encode(o.bundle)
  {
    var ms := [Sourced("a.json", Some([o]))];
    assert ms[..0] == [];
    assert ConcreteKeys(ms) == {};
    OnePlainEvents("a.json", o, p);
    var c := OnlyClaim("a.json", o, p);
    assert BuildEvents({}, ms) == [Claimed(c), Ended(false)];
    EmitPair(h, BLANK, Claimed(c), Ended(false));
    ArtifactsFrame(h, BLANK, c);
  }

  lemma {:induction false} FirstSourcedIsAClaim(events: seq<Event>, key: string)
    ensures FirstSourced(events, key).Some? ==> Claimed(FirstSourced(events, key).value) in events
    decreases |events|
  {
    if events != [] {
      FirstSourcedIsAClaim(events[..|events| - 1], key);
    }
  }

  /** One sourced manifest with one source output: one source-context entry, its two objects behind it, and contexts that agree. */
  lemma OneSourceBuild(h: Hashes, o: Output, p: (nat, string))
    requires o.SourceRef? && OnePair(o, p) && ContextRefOf(o).Some?
    ensures var ms := [Sourced("a.json", Some([o]))];
            var b := Built(h, ms);
            var key := KeyOf(o.bundle, p);
            && b.errors == 0 && key in b.index && b.index[key] == EntryOf(h, OnlyClaim("a.json", o, p))
            && BundleFileRef(h.json(o.template)) in b.generated && ContextRefOf(o).value in b.generated
            && WrittenContextsAgree(ConcreteKeys(ms), BuildEvents(ConcreteKeys(ms), ms))
  {
    var ms := [Sourced("a.json", Some([o]))];
    assert ms[..0] == [];
    assert ConcreteKeys(ms) == {};
    OneOutputEvents({}, "a.json", o, p);
    var c := OnlyClaim("a.json", o, p);
    var events := [Claimed(c), Ended(false)];
    assert BuildEvents({}, ms) == events;
    EmitPair(h, BLANK, Claimed(c), Ended(false));
    FirstTurn(h, BLANK, c);
    forall k | FirstSourced(events, k).Some? ensures FirstSourced(events, k).value.output == o {
      FirstSourcedIsAClaim(events, k);
    }
  }
}
