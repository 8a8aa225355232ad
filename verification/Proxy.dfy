/**
 The registry proxy under concurrency: requests, coalesced bucket reads, the object cache
 and publishers interleave freely. Every `await` of a request ends a step. The cache may
 lose entries at any time; the bucket may change at any time.
 */
module Proxy {
  import opened Common
  import opened Json

  /** What an object holds: JSON text, or bytes that do not parse. */
  datatype Blob = Text(json: Json) | Garbage(raw: string)

  datatype Result = Found(blob: Blob) | Missing | Fault

  /** A 200 body; `read` remembers, for proofs, which bucket read it was made from. */
  datatype Body = Verbatim(blob: Blob, read: nat) | Rendered(json: Json, read: nat)

  datatype CacheValue = Positive(body: Body) | Negative

  datatype Response = Ok(body: Body) | NotFound(noStore: bool) | BadGateway

  /** An upstream read: sampled once, landed when its in-flight slot is released. */
  datatype Read = Read(name: string, sample: Option<Result>, landed: bool)

  datatype Phase =
    | AwaitMain(read: nat)
    | AwaitBundle(index: nat, entry: map<string, Json>, bundle: string, read: nat)
    | HaveBundle(index: nat, entry: map<string, Json>, blob: Blob)
    | AwaitContext(index: nat, entry: map<string, Json>, template: Json, read: nat)
    | Answered(response: Response)

  datatype Request = Request(name: string, phase: Phase)

  datatype State = State(
    bucket: map<string, Blob>, cache: map<string, CacheValue>, flights: map<string, nat>,
    fetches: seq<Read>, requests: seq<Request>)

  datatype Step =
    | Publish(name: string, blob: Blob)
    | Remove(name: string)
    | Evict(name: string)
    | Arrive(name: string)
    | Sample(read: nat, fault: bool)
    | Land(read: nat)
    | Resume(request: nat)

  /** How names, references and bundles are interpreted; the server's own are in module `Registry`. */
  datatype Rules = Rules(
    isIndex: string -> bool, isLeaf: string -> bool,
    bundleRef: string -> Option<string>, contextRef: string -> Option<string>,
    hash: Json -> string, lower: string -> string, rebuild: (Json, Json) -> Option<Json>)

  /** A bundle reference never names an index object. */
  ghost predicate ValidRules(w: Rules) {
    forall ref :: w.bundleRef(ref).Some? ==> !w.isIndex(w.bundleRef(ref).value)
  }

  /** `isRefRegistryEntry` */
  predicate IsRefEntry(v: Json) {
    && v.Obj?
    && Field(v.fields, "matched") == Some(Bool(true))
    && Field(v.fields, "schema_version") == Some(Str("3-ref"))
    && HasString(v.fields, "bundle_id") && HasString(v.fields, "manifest_path")
    && HasString(v.fields, "bundle_sha256") && HasString(v.fields, "bundle_ref")
    && ("context_ref" in v.fields ==> v.fields["context_ref"].Str?)
  }

  /** The response object made from an entry and the bundle it stands for. */
  function ResponseFor(entry: map<string, Json>, id: Json, bundle: Json): Json
    requires IsRefEntry(Obj(entry))
  {
    Obj(map["matched" := Bool(true), "bundle_id" := id, "manifest_path" := entry["manifest_path"],
            "bundle_sha256" := entry["bundle_sha256"], "bundle" := bundle])
  }

  // ---- steps ---------------------------------------------------------------------------

  /** `singleFlight.run`: share the read in flight for this object, or start one. */
  function Join(s: State, name: string): (State, nat) {
    if name in s.flights then (s, s.flights[name])
    else (s.(fetches := s.fetches + [Read(name, None, false)], flights := s.flights[name := |s.fetches|]), |s.fetches|)
  }

  function At(s: State, q: nat, phase: Phase): State
    requires q < |s.requests|
  {
    s.(requests := s.requests[q := s.requests[q].(phase := phase)])
  }

  function Fail(s: State, q: nat): State
    requires q < |s.requests|
  {
    At(s, q, Answered(BadGateway))
  }

  function Serve(s: State, q: nat, body: Body): State
    requires q < |s.requests|
  {
    At(s.(cache := s.cache[s.requests[q].name := Positive(body)]), q, Answered(Ok(body)))
  }

  function BlobOf(b: Body): Blob { if b.Verbatim? then b.blob else Text(b.json) }

  function Begin(w: Rules, s: State, name: string): State {
    if name in s.cache then
      var answer := match s.cache[name] case Positive(body) => Ok(body) case Negative => NotFound(false);
      s.(requests := s.requests + [Request(name, Answered(answer))])
    else
      var (t, r) := Join(s, name);
      t.(requests := t.requests + [Request(name, AwaitMain(r))])
  }

  /** The bundle sub-read, answered from the cache when it holds the bundle. */
  function SeekBundle(w: Rules, s: State, q: nat, index: nat, entry: map<string, Json>): State
    requires q < |s.requests| && IsRefEntry(Obj(entry))
  {
    var name := w.bundleRef(entry["bundle_ref"].s);
    if name.None? then Fail(s, q)
    else if name.value in s.cache && s.cache[name.value].Positive? then
      At(s, q, HaveBundle(index, entry, BlobOf(s.cache[name.value].body)))
    else
      var (t, r) := Join(s, name.value);
      At(t, q, AwaitBundle(index, entry, name.value, r))
  }

  function AfterMain(w: Rules, s: State, q: nat, r: nat, result: Result): State
    requires q < |s.requests|
  {
    var name := s.requests[q].name;
    match result
    case Fault => Fail(s, q)
    case Missing =>
      var t := if w.isLeaf(name) then s else s.(cache := s.cache[name := Negative]);
      At(t, q, Answered(NotFound(w.isLeaf(name))))
    case Found(blob) =>
      if !w.isIndex(name) then Serve(s, q, Verbatim(blob, r))
      else if blob.Garbage? then Fail(s, q)
      else if !IsRefEntry(blob.json) then Serve(s, q, Verbatim(blob, r))
      else SeekBundle(w, s, q, r, blob.json.fields)
  }

  function AfterBundle(s: State, q: nat, index: nat, entry: map<string, Json>, name: string, r: nat, result: Result): State
    requires q < |s.requests|
  {
    if !result.Found? then Fail(s, q)
    else At(s.(cache := s.cache[name := Positive(Verbatim(result.blob, r))]), q, HaveBundle(index, entry, result.blob))
  }

  /** The hash check, then the response under the id `id`. */
  function Check(w: Rules, s: State, q: nat, index: nat, entry: map<string, Json>, id: Json, bundle: Json): State
    requires q < |s.requests| && IsRefEntry(Obj(entry))
  {
    if w.hash(bundle) != w.lower(entry["bundle_sha256"].s) then Fail(s, q)
    else Serve(s, q, Rendered(ResponseFor(entry, id, bundle), index))
  }

  function WithBundle(w: Rules, s: State, q: nat, index: nat, entry: map<string, Json>, blob: Blob): State
    requires q < |s.requests| && IsRefEntry(Obj(entry))
  {
    if blob.Garbage? then Fail(s, q)
    else if "context_ref" !in entry then Check(w, s, q, index, entry, entry["bundle_id"], blob.json)
    else
      var name := w.contextRef(entry["context_ref"].s);
      if name.None? then Fail(s, q)
      else
        var (t, r) := Join(s, name.value);
        At(t, q, AwaitContext(index, entry, blob.json, r))
  }

  function AfterContext(w: Rules, s: State, q: nat, index: nat, entry: map<string, Json>, template: Json, result: Result): State
    requires q < |s.requests| && IsRefEntry(Obj(entry))
  {
    if !result.Found? || result.blob.Garbage? then Fail(s, q)
    else
      var bundle := w.rebuild(template, result.blob.json);
      if bundle.None? || !bundle.value.Obj? || "id" !in bundle.value.fields then Fail(s, q)
      else Check(w, s, q, index, entry, bundle.value.fields["id"], bundle.value)
  }

  predicate Landed(s: State, r: nat) {
    r < |s.fetches| && s.fetches[r].landed && s.fetches[r].sample.Some?
  }

  predicate CanResume(s: State, p: Phase) {
    match p
    case AwaitMain(r) => Landed(s, r)
    case AwaitBundle(_, e, _, r) => Landed(s, r)
    case HaveBundle(_, e, _) => IsRefEntry(Obj(e))
    case AwaitContext(_, e, _, r) => Landed(s, r) && IsRefEntry(Obj(e))
    case Answered(_) => false
  }

  predicate Enabled(s: State, step: Step) {
    match step
    case Sample(r, _) => r < |s.fetches| && s.fetches[r].sample.None?
    case Land(r) => r < |s.fetches| && s.fetches[r].sample.Some? && !s.fetches[r].landed
    case Resume(q) => q < |s.requests| && CanResume(s, s.requests[q].phase)
    case _ => true
  }

  function Look(s: State, name: string, fault: bool): Result {
    if fault then Fault else if name in s.bucket then Found(s.bucket[name]) else Missing
  }

  function Continue(w: Rules, s: State, q: nat): State
    requires Enabled(s, Resume(q))
  {
    match s.requests[q].phase
    case AwaitMain(r) => AfterMain(w, s, q, r, s.fetches[r].sample.value)
    case AwaitBundle(i, e, name, r) => AfterBundle(s, q, i, e, name, r, s.fetches[r].sample.value)
    case HaveBundle(i, e, blob) => WithBundle(w, s, q, i, e, blob)
    case AwaitContext(i, e, template, r) => AfterContext(w, s, q, i, e, template, s.fetches[r].sample.value)
  }

  function Next(w: Rules, s: State, step: Step): State
    requires Enabled(s, step)
  {
    match step
    case Publish(name, blob) => s.(bucket := s.bucket[name := blob])
    case Remove(name) => s.(bucket := s.bucket - {name})
    case Evict(name) => s.(cache := s.cache - {name})
    case Arrive(name) => Begin(w, s, name)
    case Sample(r, fault) => s.(fetches := s.fetches[r := s.fetches[r].(sample := Some(Look(s, s.fetches[r].name, fault)))])
    case Land(r) => s.(fetches := s.fetches[r := s.fetches[r].(landed := true)], flights := s.flights - {s.fetches[r].name})
    case Resume(q) => Continue(w, s, q)
  }

  function Behave(w: Rules, s: State, steps: seq<Step>): Option<State>
    decreases |steps|
  {
    if steps == [] then Some(s)
    else if !Enabled(s, steps[0]) then None
    else Behave(w, Next(w, s, steps[0]), steps[1..])
  }

  function Fresh(bucket: map<string, Blob>): State { State(bucket, map[], map[], [], []) }

  // ---- invariant -----------------------------------------------------------------------

  /** The in-flight table is exactly the reads that have not landed, one per object. */
  ghost predicate FlightsOk(s: State) {
    && (forall name <- s.flights ::
          s.flights[name] < |s.fetches| && s.fetches[s.flights[name]].name == name && !s.fetches[s.flights[name]].landed)
    && (forall r | 0 <= r < |s.fetches| && !s.fetches[r].landed :: s.fetches[r].name in s.flights && s.flights[s.fetches[r].name] == r)
    && (forall r | 0 <= r < |s.fetches| && s.fetches[r].landed :: s.fetches[r].sample.Some?)
  }

  /** Read `r` of object `name` has landed and found `blob`. */
  ghost predicate Delivered(fetches: seq<Read>, r: nat, name: string, blob: Blob) {
    r < |fetches| && fetches[r] == Read(name, Some(Found(blob)), true)
  }

  /** `j` is what the entry stands for: its own fields and the one bundle with its hash. */
  ghost predicate Renders(w: Rules, entry: Json, j: Json) {
    && IsRefEntry(entry) && j.Obj? && "bundle" in j.fields
    && var bundle := j.fields["bundle"];
       && w.hash(bundle) == w.lower(entry.fields["bundle_sha256"].s)
       && (if "context_ref" in entry.fields then
             bundle.Obj? && "id" in bundle.fields && j == ResponseFor(entry.fields, bundle.fields["id"], bundle)
           else
             j == ResponseFor(entry.fields, entry.fields["bundle_id"], bundle))
  }

  /** A 200 body of `name` comes from one landed read of `name`. */
  ghost predicate BodyOk(w: Rules, fetches: seq<Read>, name: string, body: Body) {
    match body
    case Verbatim(blob, r) =>
      Delivered(fetches, r, name, blob) && (w.isIndex(name) ==> blob.Text? && !IsRefEntry(blob.json))
    case Rendered(j, r) =>
      r < |fetches| && w.isIndex(name) && exists e :: Delivered(fetches, r, name, Text(e)) && Renders(w, e, j)
  }

  ghost predicate CachedOk(w: Rules, fetches: seq<Read>, name: string, v: CacheValue) {
    match v
    case Positive(body) => BodyOk(w, fetches, name, body)
    case Negative => !w.isLeaf(name)
  }

  ghost predicate EntryOk(w: Rules, fetches: seq<Read>, name: string, index: nat, entry: map<string, Json>) {
    w.isIndex(name) && IsRefEntry(Obj(entry)) && Delivered(fetches, index, name, Text(Obj(entry)))
  }

  ghost predicate RequestOk(w: Rules, fetches: seq<Read>, q: Request) {
    match q.phase
    case AwaitMain(r) => r < |fetches| && fetches[r].name == q.name
    case AwaitBundle(i, e, b, r) =>
      EntryOk(w, fetches, q.name, i, e) && w.bundleRef(e["bundle_ref"].s) == Some(b) && r < |fetches| && fetches[r].name == b && !w.isIndex(b)
    case HaveBundle(i, e, _) => EntryOk(w, fetches, q.name, i, e)
    case AwaitContext(i, e, _, r) => EntryOk(w, fetches, q.name, i, e) && r < |fetches| && "context_ref" in e
    case Answered(a) => (a.Ok? ==> BodyOk(w, fetches, q.name, a.body)) && (a.NotFound? ==> a.noStore == w.isLeaf(q.name))
  }

  ghost predicate Inv(w: Rules, s: State) {
    && FlightsOk(s)
    && (forall name <- s.cache :: CachedOk(w, s.fetches, name, s.cache[name]))
    && (forall q <- s.requests :: RequestOk(w, s.fetches, q))
  }

  // ---- preservation --------------------------------------------------------------------

  /** Reads are only added or completed; a landed read never changes. */
  ghost predicate Extends(a: seq<Read>, b: seq<Read>) {
    && |a| <= |b|
    && forall r | 0 <= r < |a| :: b[r].name == a[r].name && (a[r].landed ==> b[r] == a[r])
  }

  lemma BodyStays(w: Rules, a: seq<Read>, b: seq<Read>, name: string, body: Body)
    requires Extends(a, b) && BodyOk(w, a, name, body)
    ensures BodyOk(w, b, name, body)
  {
    if body.Rendered? {
      var e :| Delivered(a, body.read, name, Text(e)) && Renders(w, e, body.json);
      assert Delivered(b, body.read, name, Text(e));
    }
  }

  lemma RequestStays(w: Rules, a: seq<Read>, b: seq<Read>, q: Request)
    requires Extends(a, b) && RequestOk(w, a, q)
    ensures RequestOk(w, b, q)
  {
    if q.phase.Answered? && q.phase.response.Ok? {
      BodyStays(w, a, b, q.name, q.phase.response.body);
    }
  }

  /** Everything but the flights survives when the reads are extended. */
  lemma ReadsKeep(w: Rules, s: State, t: State)
    requires Inv(w, s) && Extends(s.fetches, t.fetches) && FlightsOk(t)
    requires t.cache == s.cache && t.requests == s.requests
    ensures Inv(w, t)
  {
    forall name <- t.cache ensures CachedOk(w, t.fetches, name, t.cache[name]) {
      assert CachedOk(w, s.fetches, name, s.cache[name]);
      if t.cache[name].Positive? {
        BodyStays(w, s.fetches, t.fetches, name, t.cache[name].body);
      }
    }
    forall q <- t.requests ensures RequestOk(w, t.fetches, q) {
      assert q in s.requests;
      RequestStays(w, s.fetches, t.fetches, q);
    }
  }

  lemma JoinKeeps(w: Rules, s: State, name: string)
    requires Inv(w, s)
    ensures var (t, r) := Join(s, name);
            && Inv(w, t) && Extends(s.fetches, t.fetches) && t.requests == s.requests && t.cache == s.cache && t.bucket == s.bucket
            && r < |t.fetches| && t.fetches[r].name == name && !t.fetches[r].landed
  {
    var t := Join(s, name).0;
    if name !in s.flights {
      ReadsKeep(w, s, t);
    }
  }

  /** Writing one request, and possibly one cache entry. */
  lemma PutKeeps(w: Rules, s: State, q: nat, phase: Phase, cache: map<string, CacheValue>, name: string)
    requires Inv(w, s) && q < |s.requests|
    requires RequestOk(w, s.fetches, s.requests[q].(phase := phase))
    requires cache == s.cache || (cache.Keys == s.cache.Keys + {name} && (forall n <- s.cache | n != name :: cache[n] == s.cache[n])
                                  && CachedOk(w, s.fetches, name, cache[name]))
    ensures Inv(w, At(s.(cache := cache), q, phase))
  {
    var t := At(s.(cache := cache), q, phase);
    forall x <- t.requests ensures RequestOk(w, t.fetches, x) {
      assert x in s.requests || x == s.requests[q].(phase := phase);
    }
  }

  lemma FailKeeps(w: Rules, s: State, q: nat)
    requires Inv(w, s) && q < |s.requests|
    ensures Inv(w, Fail(s, q))
  {
    PutKeeps(w, s, q, Answered(BadGateway), s.cache, "");
  }

  lemma ServeKeeps(w: Rules, s: State, q: nat, body: Body)
    requires Inv(w, s) && q < |s.requests| && BodyOk(w, s.fetches, s.requests[q].name, body)
    ensures Inv(w, Serve(s, q, body))
  {
    var name := s.requests[q].name;
    PutKeeps(w, s, q, Answered(Ok(body)), s.cache[name := Positive(body)], name);
  }

  lemma SeekBundleKeeps(w: Rules, s: State, q: nat, index: nat, entry: map<string, Json>)
    requires Inv(w, s) && ValidRules(w) && q < |s.requests| && EntryOk(w, s.fetches, s.requests[q].name, index, entry)
    ensures Inv(w, SeekBundle(w, s, q, index, entry))
  {
    var name := w.bundleRef(entry["bundle_ref"].s);
    if name.None? {
      FailKeeps(w, s, q);
    } else if name.value in s.cache && s.cache[name.value].Positive? {
      PutKeeps(w, s, q, HaveBundle(index, entry, BlobOf(s.cache[name.value].body)), s.cache, "");
    } else {
      JoinKeeps(w, s, name.value);
      var (t, r) := Join(s, name.value);
      PutKeeps(w, t, q, AwaitBundle(index, entry, name.value, r), t.cache, "");
    }
  }

  lemma MainKeeps(w: Rules, s: State, q: nat, r: nat)
    requires Inv(w, s) && ValidRules(w) && q < |s.requests| && s.requests[q].phase == AwaitMain(r) && Landed(s, r)
    ensures Inv(w, AfterMain(w, s, q, r, s.fetches[r].sample.value))
  {
    var name := s.requests[q].name;
    assert RequestOk(w, s.fetches, s.requests[q]);
    match s.fetches[r].sample.value
    case Fault => FailKeeps(w, s, q);
    case Missing =>
      var leaf := w.isLeaf(name);
      PutKeeps(w, s, q, Answered(NotFound(leaf)), if leaf then s.cache else s.cache[name := Negative], name);
    case Found(blob) =>
      assert Delivered(s.fetches, r, name, blob);
      if !w.isIndex(name) {
        ServeKeeps(w, s, q, Verbatim(blob, r));
      } else if blob.Garbage? {
        FailKeeps(w, s, q);
      } else if !IsRefEntry(blob.json) {
        ServeKeeps(w, s, q, Verbatim(blob, r));
      } else {
        SeekBundleKeeps(w, s, q, r, blob.json.fields);
      }
  }

  lemma BundleKeeps(w: Rules, s: State, q: nat)
    requires Inv(w, s) && Enabled(s, Resume(q)) && s.requests[q].phase.AwaitBundle?
    ensures Inv(w, Continue(w, s, q))
  {
    var p := s.requests[q].phase;
    assert RequestOk(w, s.fetches, s.requests[q]);
    var result := s.fetches[p.read].sample.value;
    if result.Found? {
      var body := Verbatim(result.blob, p.read);
      PutKeeps(w, s, q, HaveBundle(p.index, p.entry, result.blob), s.cache[p.bundle := Positive(body)], p.bundle);
    } else {
      FailKeeps(w, s, q);
    }
  }

  lemma CheckKeeps(w: Rules, s: State, q: nat, index: nat, entry: map<string, Json>, id: Json, bundle: Json)
    requires Inv(w, s) && q < |s.requests| && EntryOk(w, s.fetches, s.requests[q].name, index, entry)
    requires if "context_ref" in entry then bundle.Obj? && "id" in bundle.fields && id == bundle.fields["id"] else id == entry["bundle_id"]
    ensures Inv(w, Check(w, s, q, index, entry, id, bundle))
  {
    if w.hash(bundle) != w.lower(entry["bundle_sha256"].s) {
      FailKeeps(w, s, q);
    } else {
      var j := ResponseFor(entry, id, bundle);
      assert j.fields["bundle"] == bundle && Renders(w, Obj(entry), j);
      assert BodyOk(w, s.fetches, s.requests[q].name, Rendered(j, index));
      ServeKeeps(w, s, q, Rendered(j, index));
    }
  }

  lemma WithBundleKeeps(w: Rules, s: State, q: nat, index: nat, entry: map<string, Json>, blob: Blob)
    requires Inv(w, s) && q < |s.requests| && EntryOk(w, s.fetches, s.requests[q].name, index, entry)
    ensures Inv(w, WithBundle(w, s, q, index, entry, blob))
  {
    if blob.Garbage? {
      FailKeeps(w, s, q);
    } else if "context_ref" !in entry {
      CheckKeeps(w, s, q, index, entry, entry["bundle_id"], blob.json);
    } else {
      var name := w.contextRef(entry["context_ref"].s);
      if name.None? {
        FailKeeps(w, s, q);
      } else {
        JoinKeeps(w, s, name.value);
        var (t, r) := Join(s, name.value);
        PutKeeps(w, t, q, AwaitContext(index, entry, blob.json, r), t.cache, "");
      }
    }
  }

  lemma ContextKeeps(w: Rules, s: State, q: nat, index: nat, entry: map<string, Json>, template: Json, result: Result)
    requires Inv(w, s) && q < |s.requests| && EntryOk(w, s.fetches, s.requests[q].name, index, entry) && "context_ref" in entry
    ensures Inv(w, AfterContext(w, s, q, index, entry, template, result))
  {
    if !result.Found? || result.blob.Garbage? {
      FailKeeps(w, s, q);
    } else {
      var bundle := w.rebuild(template, result.blob.json);
      if bundle.None? || !bundle.value.Obj? || "id" !in bundle.value.fields {
        FailKeeps(w, s, q);
      } else {
        CheckKeeps(w, s, q, index, entry, bundle.value.fields["id"], bundle.value);
      }
    }
  }

  lemma ArriveKeeps(w: Rules, s: State, name: string)
    requires Inv(w, s)
    ensures Inv(w, Begin(w, s, name))
  {
    var t := Begin(w, s, name);
    JoinKeeps(w, s, name);
    if name in s.cache {
      assert CachedOk(w, s.fetches, name, s.cache[name]);
    }
    var last := t.requests[|s.requests|];
    assert RequestOk(w, t.fetches, last);
    forall q <- t.requests ensures RequestOk(w, t.fetches, q) {
      assert q in s.requests || q == last;
      if q in s.requests {
        RequestStays(w, s.fetches, t.fetches, q);
      }
    }
  }

  lemma FetchKeeps(w: Rules, s: State, step: Step)
    requires Inv(w, s) && Enabled(s, step) && (step.Sample? || step.Land?)
    ensures Inv(w, Next(w, s, step))
  {
    ReadsKeep(w, s, Next(w, s, step));
  }

  lemma ResumeKeeps(w: Rules, s: State, q: nat)
    requires Inv(w, s) && ValidRules(w) && Enabled(s, Resume(q))
    ensures Inv(w, Continue(w, s, q))
  {
    assert RequestOk(w, s.fetches, s.requests[q]);
    match s.requests[q].phase
    case AwaitMain(r) => MainKeeps(w, s, q, r);
    case AwaitBundle(_, _, _, _) => BundleKeeps(w, s, q);
    case HaveBundle(i, e, blob) => WithBundleKeeps(w, s, q, i, e, blob);
    case AwaitContext(i, e, template, r) => ContextKeeps(w, s, q, i, e, template, s.fetches[r].sample.value);
  }

  lemma StepKeepsInv(w: Rules, s: State, step: Step)
    requires Inv(w, s) && ValidRules(w) && Enabled(s, step)
    ensures Inv(w, Next(w, s, step))
  {
    match step
    case Arrive(name) => ArriveKeeps(w, s, name);
    case Sample(_, _) => FetchKeeps(w, s, step);
    case Land(_) => FetchKeeps(w, s, step);
    case Resume(q) => ResumeKeeps(w, s, q);
    case _ =>
  }

  lemma {:induction false} BehaveKeepsInv(w: Rules, s: State, steps: seq<Step>)
    requires Inv(w, s) && ValidRules(w) && Behave(w, s, steps).Some?
    ensures Inv(w, Behave(w, s, steps).value)
    decreases |steps|
  {
    if steps != [] {
      StepKeepsInv(w, s, steps[0]);
      BehaveKeepsInv(w, Next(w, s, steps[0]), steps[1..]);
    }
  }

  // ---- what a resumed request leaves alone ---------------------------------------------

  /**
   Only request `p` moves, fetches are only added, and the cache is written only with an answer
   other than 502 or on the way from the bundle read.
   */
  ghost predicate Moves(s: State, t: State, p: nat) {
    && t.bucket == s.bucket && |t.requests| == |s.requests| && s.fetches <= t.fetches
    && (forall q | 0 <= q < |s.requests| && q != p :: t.requests[q] == s.requests[q])
    && (p < |s.requests| ==>
          && t.requests[p].name == s.requests[p].name
          && (t.requests[p].phase == Answered(BadGateway) ==> t.cache == s.cache)
          && (!t.requests[p].phase.Answered? && !s.requests[p].phase.AwaitBundle? ==> t.cache == s.cache))
  }

  lemma SeekBundleMoves(w: Rules, s: State, q: nat, index: nat, entry: map<string, Json>)
    requires q < |s.requests| && IsRefEntry(Obj(entry))
    ensures Moves(s, SeekBundle(w, s, q, index, entry), q)
  {
  }

  lemma MainMoves(w: Rules, s: State, q: nat, r: nat, result: Result)
    requires q < |s.requests|
    ensures Moves(s, AfterMain(w, s, q, r, result), q)
  {
    if result.Found? && result.blob.Text? && IsRefEntry(result.blob.json) {
      SeekBundleMoves(w, s, q, r, result.blob.json.fields);
    }
  }

  lemma CheckMoves(w: Rules, s: State, q: nat, index: nat, entry: map<string, Json>, id: Json, bundle: Json)
    requires q < |s.requests| && IsRefEntry(Obj(entry))
    ensures Moves(s, Check(w, s, q, index, entry, id, bundle), q)
  {
  }

  lemma WithBundleMoves(w: Rules, s: State, q: nat, index: nat, entry: map<string, Json>, blob: Blob)
    requires q < |s.requests| && IsRefEntry(Obj(entry))
    ensures Moves(s, WithBundle(w, s, q, index, entry, blob), q)
  {
    if blob.Text? {
      CheckMoves(w, s, q, index, entry, entry["bundle_id"], blob.json);
    }
  }

  lemma ContextMoves(w: Rules, s: State, q: nat, index: nat, entry: map<string, Json>, template: Json, result: Result)
    requires q < |s.requests| && IsRefEntry(Obj(entry))
    ensures Moves(s, AfterContext(w, s, q, index, entry, template, result), q)
  {
    if result.Found? && result.blob.Text? {
      var bundle := w.rebuild(template, result.blob.json);
      if bundle.Some? && bundle.value.Obj? && "id" in bundle.value.fields {
        CheckMoves(w, s, q, index, entry, bundle.value.fields["id"], bundle.value);
      }
    }
  }

  lemma ResumeMoves(w: Rules, s: State, q: nat)
    requires Enabled(s, Resume(q))
    ensures Moves(s, Continue(w, s, q), q)
  {
    match s.requests[q].phase
    case AwaitMain(r) => MainMoves(w, s, q, r, s.fetches[r].sample.value);
    case AwaitBundle(i, e, name, r) =>
    case HaveBundle(i, e, blob) => WithBundleMoves(w, s, q, i, e, blob);
    case AwaitContext(i, e, template, r) => ContextMoves(w, s, q, i, e, template, s.fetches[r].sample.value);
  }

  lemma AnsweredStays(w: Rules, s: State, step: Step, q: nat)
    requires Enabled(s, step) && q < |s.requests| && s.requests[q].phase.Answered?
    ensures q < |Next(w, s, step).requests| && Next(w, s, step).requests[q] == s.requests[q]
  {
    if step.Resume? {
      ResumeMoves(w, s, step.request);
    }
  }

  lemma {:induction false} AnswersAreFinal(w: Rules, s: State, steps: seq<Step>, q: nat)
    requires Behave(w, s, steps).Some? && q < |s.requests| && s.requests[q].phase.Answered?
    ensures q < |Behave(w, s, steps).value.requests| && Behave(w, s, steps).value.requests[q] == s.requests[q]
    decreases |steps|
  {
    if steps != [] {
      AnsweredStays(w, s, steps[0], q);
      AnswersAreFinal(w, Next(w, s, steps[0]), steps[1..], q);
    }
  }

  // ---- every schedule ------------------------------------------------------------------

  /** At most one upstream read per object is under way. */
  lemma OneReadPerObject(w: Rules, bucket: map<string, Blob>, steps: seq<Step>, i: nat, j: nat)
    requires ValidRules(w) && Behave(w, Fresh(bucket), steps).Some?
    requires var f := Behave(w, Fresh(bucket), steps).value.fetches;
             i < |f| && j < |f| && f[i].name == f[j].name && !f[i].landed && !f[j].landed
    ensures i == j
  {
    BehaveKeepsInv(w, Fresh(bucket), steps);
  }

  /** The cache never holds a 404 for an immutable leaf, and no 404 for one may be stored by anyone. */
  lemma LeavesAreNeverNegative(w: Rules, bucket: map<string, Blob>, steps: seq<Step>, name: string)
    requires ValidRules(w) && Behave(w, Fresh(bucket), steps).Some? && w.isLeaf(name)
    ensures var s := Behave(w, Fresh(bucket), steps).value;
            && (name in s.cache ==> s.cache[name].Positive?)
            && (forall q <- s.requests | q.name == name && q.phase.Answered? && q.phase.response.NotFound? :: q.phase.response.noStore)
  {
    BehaveKeepsInv(w, Fresh(bucket), steps);
    var s := Behave(w, Fresh(bucket), steps).value;
    assert name in s.cache ==> CachedOk(w, s.fetches, name, s.cache[name]);
    forall q <- s.requests | q.name == name && q.phase.Answered? && q.phase.response.NotFound?
      ensures q.phase.response.noStore
    {
      assert RequestOk(w, s.fetches, q);
    }
  }

  /** Every 200 is made from one landed read of its own object: its bytes, or what its entry stands for. */
  lemma OkIsOneRead(w: Rules, bucket: map<string, Blob>, steps: seq<Step>, q: nat)
    requires ValidRules(w) && Behave(w, Fresh(bucket), steps).Some? && q < |Behave(w, Fresh(bucket), steps).value.requests|
    requires var a := Behave(w, Fresh(bucket), steps).value.requests[q].phase; a.Answered? && a.response.Ok?
    ensures var s := Behave(w, Fresh(bucket), steps).value;
            var body := s.requests[q].phase.response.body;
            && body.read < |s.fetches| && s.fetches[body.read].landed && s.fetches[body.read].name == s.requests[q].name
            && exists blob ::
                 && s.fetches[body.read].sample == Some(Found(blob))
                 && if w.isIndex(s.requests[q].name) && blob.Text? && IsRefEntry(blob.json) then
                      body.Rendered? && Renders(w, blob.json, body.json)
                    else
                      body == Verbatim(blob, body.read)
  {
    BehaveKeepsInv(w, Fresh(bucket), steps);
    var s := Behave(w, Fresh(bucket), steps).value;
    assert RequestOk(w, s.fetches, s.requests[q]);
    var body := s.requests[q].phase.response.body;
    if body.Rendered? {
      var e :| Delivered(s.fetches, body.read, s.requests[q].name, Text(e)) && Renders(w, e, body.json);
      assert s.fetches[body.read].sample == Some(Found(Text(e)));
    }
  }

  /** An entry stands for one response only, whichever objects were read for it, unless two bundles collide under the hash. */
  lemma EntryDetermines(w: Rules, entry: Json, a: Json, b: Json)
    requires Renders(w, entry, a) && Renders(w, entry, b)
    ensures a == b || Collision(w.hash, a.fields["bundle"], b.fields["bundle"])
  {
    assert w.hash(a.fields["bundle"]) == w.hash(b.fields["bundle"]);
  }

  /** So two materialised answers for equal entries are equal across objects, schedules and publishes, or their bundles are a hash collision. */
  lemma MaterialisedIsDeterminedByEntry(
    w: Rules, bucket: map<string, Blob>, steps: seq<Step>, q: nat, bucket': map<string, Blob>, steps': seq<Step>, q': nat)
    requires ValidRules(w)
    requires Behave(w, Fresh(bucket), steps).Some? && Behave(w, Fresh(bucket'), steps').Some?
    requires Materialised(Behave(w, Fresh(bucket), steps).value, q) && Materialised(Behave(w, Fresh(bucket'), steps').value, q')
    requires EntryRead(Behave(w, Fresh(bucket), steps).value, q) == EntryRead(Behave(w, Fresh(bucket'), steps').value, q')
    ensures var a := Behave(w, Fresh(bucket), steps).value.requests[q].phase.response.body.json;
            var b := Behave(w, Fresh(bucket'), steps').value.requests[q'].phase.response.body.json;
            a == b || (a.Obj? && b.Obj? && "bundle" in a.fields && "bundle" in b.fields && Collision(w.hash, a.fields["bundle"], b.fields["bundle"]))
  {
    var s, t := Behave(w, Fresh(bucket), steps).value, Behave(w, Fresh(bucket'), steps').value;
    OkIsOneRead(w, bucket, steps, q);
    OkIsOneRead(w, bucket', steps', q');
    EntryDetermines(w, EntryRead(s, q).value.blob.json, s.requests[q].phase.response.body.json, t.requests[q'].phase.response.body.json);
  }

  ghost predicate Materialised(s: State, q: nat) {
    && q < |s.requests| && s.requests[q].phase.Answered? && s.requests[q].phase.response.Ok?
    && s.requests[q].phase.response.body.Rendered? && s.requests[q].phase.response.body.read < |s.fetches|
  }

  /** The content of the read that a materialised answer was made from. */
  ghost function EntryRead(s: State, q: nat): Option<Result>
    requires Materialised(s, q)
  {
    s.fetches[s.requests[q].phase.response.body.read].sample
  }

  // ---- a leaf that has landed ----------------------------------------------------------

  /** The request waits for a read that has not missed, or was not answered 404. */
  ghost predicate Tracked(w: Rules, s: State, q: nat, r: nat, name: string) {
    && name in s.bucket && q < |s.requests| && s.requests[q].name == name
    && match s.requests[q].phase
       case AwaitMain(k) => k == r && r < |s.fetches| && s.fetches[r].name == name && s.fetches[r].sample != Some(Missing)
       case Answered(a) => !a.NotFound?
       case _ => false
  }

  lemma StepTracks(w: Rules, s: State, step: Step, q: nat, r: nat, name: string)
    requires Tracked(w, s, q, r, name) && !w.isIndex(name) && Enabled(s, step) && step != Remove(name)
    ensures Tracked(w, Next(w, s, step), q, r, name)
  {
    if step.Resume? {
      ResumeMoves(w, s, step.request);
    }
  }

  lemma {:induction false} BehaveTracks(w: Rules, s: State, steps: seq<Step>, q: nat, r: nat, name: string)
    requires Tracked(w, s, q, r, name) && !w.isIndex(name) && Remove(name) !in steps && Behave(w, s, steps).Some?
    ensures Tracked(w, Behave(w, s, steps).value, q, r, name)
    decreases |steps|
  {
    if steps != [] {
      StepTracks(w, s, steps[0], q, r, name);
      BehaveTracks(w, Next(w, s, steps[0]), steps[1..], q, r, name);
    }
  }

  /**
   Once an immutable leaf is in the bucket, a request for it that finds no read already under
   way is never answered 404, whatever else happens, as long as nobody removes the leaf.
   */
  lemma LandedLeafIsFound(w: Rules, bucket: map<string, Blob>, before: seq<Step>, after: seq<Step>, name: string)
    requires ValidRules(w) && w.isLeaf(name) && !w.isIndex(name) && Remove(name) !in after
    requires Behave(w, Fresh(bucket), before).Some?
    requires var s := Behave(w, Fresh(bucket), before).value; name in s.bucket && name !in s.flights
    requires Behave(w, Begin(w, Behave(w, Fresh(bucket), before).value, name), after).Some?
    ensures var s := Behave(w, Fresh(bucket), before).value;
            var t := Behave(w, Begin(w, s, name), after).value;
            var q := |s.requests|;
            q < |t.requests| && t.requests[q].name == name && !(t.requests[q].phase.Answered? && t.requests[q].phase.response.NotFound?)
  {
    var s := Behave(w, Fresh(bucket), before).value;
    LeavesAreNeverNegative(w, bucket, before, name);
    assert Tracked(w, Begin(w, s, name), |s.requests|, |s.fetches|, name);
    BehaveTracks(w, Begin(w, s, name), after, |s.requests|, |s.fetches|, name);
  }

  // ---- what a failing request leaves behind --------------------------------------------

  /** From `s` to `t`, request `q` wrote nothing but the bundle object its own entry names, as a read of it found it. */
  ghost predicate WritesOnlyBundle(w: Rules, s: State, t: State, q: nat) {
    && s.cache.Keys <= t.cache.Keys
    && forall name <- t.cache | name !in s.cache || t.cache[name] != s.cache[name] ::
         && q < |s.requests| && name != s.requests[q].name && !w.isIndex(name)
         && s.requests[q].phase.AwaitBundle? && IsRefEntry(Obj(s.requests[q].phase.entry))
         && w.bundleRef(s.requests[q].phase.entry["bundle_ref"].s) == Some(name)
         && EntryOk(w, s.fetches, s.requests[q].name, s.requests[q].phase.index, s.requests[q].phase.entry)
         && t.cache[name].Positive? && t.cache[name].body.Verbatim?
         && Delivered(t.fetches, t.cache[name].body.read, name, t.cache[name].body.blob)
  }

  /** The same for every step the request takes in a behaviour. */
  ghost predicate LifeWrites(w: Rules, s: State, steps: seq<Step>, q: nat)
    decreases |steps|
  {
    steps != [] && Enabled(s, steps[0]) ==>
      && (steps[0] == Resume(q) ==> WritesOnlyBundle(w, s, Next(w, s, steps[0]), q))
      && LifeWrites(w, Next(w, s, steps[0]), steps[1..], q)
  }

  lemma ResumeWrites(w: Rules, s: State, q: nat, t: State)
    requires Inv(w, s) && Enabled(s, Resume(q)) && t == Next(w, s, Resume(q)) && q < |t.requests|
    requires t.requests[q].phase.Answered? ==> t.requests[q].phase.response == BadGateway
    ensures WritesOnlyBundle(w, s, t, q)
  {
    ResumeMoves(w, s, q);
    assert RequestOk(w, s.fetches, s.requests[q]);
    if s.requests[q].phase.AwaitBundle? {
      BundleWrites(w, s, q);
    }
  }

  lemma BundleWrites(w: Rules, s: State, q: nat)
    requires Inv(w, s) && Enabled(s, Resume(q)) && s.requests[q].phase.AwaitBundle?
    ensures WritesOnlyBundle(w, s, Next(w, s, Resume(q)), q)
  {
    assert RequestOk(w, s.fetches, s.requests[q]);
  }

  lemma {:induction false} FailingLife(w: Rules, s: State, steps: seq<Step>, q: nat)
    requires Inv(w, s) && ValidRules(w) && Behave(w, s, steps).Some?
    requires var t := Behave(w, s, steps).value; q < |t.requests| && t.requests[q].phase == Answered(BadGateway)
    ensures LifeWrites(w, s, steps, q)
    decreases |steps|
  {
    if steps != [] {
      var t := Next(w, s, steps[0]);
      StepKeepsInv(w, s, steps[0]);
      FailingLife(w, t, steps[1..], q);
      if steps[0] == Resume(q) {
        ResumeMoves(w, s, q);
        if t.requests[q].phase.Answered? {
          AnswersAreFinal(w, t, steps[1..], q);
        }
        ResumeWrites(w, s, q, t);
      }
    }
  }

  /** Over its whole life a request that ends in 502 caches nothing under its own name, and at most the bundle object its entry names, as a read found it. */
  lemma FailureIsNotCached(w: Rules, bucket: map<string, Blob>, steps: seq<Step>, q: nat)
    requires ValidRules(w) && Behave(w, Fresh(bucket), steps).Some?
    requires var t := Behave(w, Fresh(bucket), steps).value; q < |t.requests| && t.requests[q].phase == Answered(BadGateway)
    ensures LifeWrites(w, Fresh(bucket), steps, q)
  {
    FailingLife(w, Fresh(bucket), steps, q);
  }

  /** A bundle object that cannot serve the entry: it does not parse, or is the wrong one for a context-free entry. */
  ghost predicate Unusable(w: Rules, entry: map<string, Json>, blob: Blob)
    requires IsRefEntry(Obj(entry))
  {
    blob.Garbage? || ("context_ref" !in entry && w.hash(blob.json) != w.lower(entry["bundle_sha256"].s))
  }

  /** Such a bundle is cached before it is looked at: the request that read it gets a 502 and leaves it in the cache. */
  lemma UnusableBundleIsCached(w: Rules, s: State, q: nat, blob: Blob)
    requires Inv(w, s) && Enabled(s, Resume(q)) && s.requests[q].phase.AwaitBundle?
    requires s.fetches[s.requests[q].phase.read].sample == Some(Found(blob))
    requires IsRefEntry(Obj(s.requests[q].phase.entry)) && Unusable(w, s.requests[q].phase.entry, blob)
    ensures var p := s.requests[q].phase;
            var t := Next(w, s, Resume(q));
            && Enabled(t, Resume(q))
            && var u := Next(w, t, Resume(q));
               && u.requests[q].phase == Answered(BadGateway)
               && p.bundle in u.cache && u.cache[p.bundle] == Positive(Verbatim(blob, p.read))
  {
    var t := Continue(w, s, q);
    assert t.requests[q].phase == HaveBundle(s.requests[q].phase.index, s.requests[q].phase.entry, blob);
    assert WithBundle(w, t, q, s.requests[q].phase.index, s.requests[q].phase.entry, blob) == Fail(t, q);
  }

  const COLD_READ := [Sample(0, false), Land(0), Resume(0), Sample(1, false), Land(1)]

  /** A cold proxy that has read an entry and then its bundle object. */
  function BundleRead(bucket: map<string, Blob>, index: string, entry: map<string, Json>, name: string): State
    requires name in bucket
  {
    State(bucket, map[], map[],
          [Read(index, Some(Found(Text(Obj(entry)))), true), Read(name, Some(Found(bucket[name])), true)],
          [Request(index, AwaitBundle(0, entry, name, 1))])
  }

  /** Reading one object: the read is sampled and lands. */
  lemma ReadCompletes(w: Rules, s: State, past: seq<Read>, name: string)
    requires s.fetches == past + [Read(name, None, false)] && name in s.bucket && s.flights == map[name := |past|]
    ensures var t := Next(w, s, Sample(|past|, false));
            && Enabled(t, Land(|past|))
            && Next(w, t, Land(|past|)) == s.(fetches := past + [Read(name, Some(Found(s.bucket[name])), true)], flights := map[])
  {
  }

  lemma BundleReadIsReached(w: Rules, bucket: map<string, Blob>, index: string, entry: map<string, Json>, name: string)
    requires w.isIndex(index) && IsRefEntry(Obj(entry)) && w.bundleRef(entry["bundle_ref"].s) == Some(name)
    requires index in bucket && bucket[index] == Text(Obj(entry)) && name in bucket
    ensures Behave(w, Begin(w, Fresh(bucket), index), COLD_READ) == Some(BundleRead(bucket, index, entry, name))
  {
    var s0 := State(bucket, map[], map[index := 0], [Read(index, None, false)], [Request(index, AwaitMain(0))]);
    ReadCompletes(w, s0, [], index);
    var s1 := Next(w, s0, Sample(0, false));
    var first := Read(index, Some(Found(Text(Obj(entry)))), true);
    var s2 := s0.(fetches := [first], flights := map[]);
    var s3 := State(bucket, map[], map[name := 1], [first] + [Read(name, None, false)], [Request(index, AwaitBundle(0, entry, name, 1))]);
    assert Continue(w, s2, 0) == SeekBundle(w, s2, 0, 0, entry) == s3;
    ReadCompletes(w, s3, [first], name);
    var s4 := Next(w, s3, Sample(1, false));
    var s5 := BundleRead(bucket, index, entry, name);
    assert [first] + [Read(name, Some(Found(bucket[name])), true)] == s5.fetches;
    LastSteps(w, s3, s4, s5);
    assert Begin(w, Fresh(bucket), index) == s0 && Next(w, s1, Land(0)) == s2;
    assert Behave(w, s2, COLD_READ[2..]) == Some(s5);
    assert Behave(w, s1, COLD_READ[1..]) == Some(s5);
  }

  lemma LastSteps(w: Rules, s: State, t: State, u: State)
    requires Enabled(s, Sample(1, false)) && t == Next(w, s, Sample(1, false))
    requires Enabled(t, Land(1)) && u == Next(w, t, Land(1))
    ensures Behave(w, s, COLD_READ[3..]) == Some(u)
  {
    assert Behave(w, u, []) == Some(u);
    assert Behave(w, t, COLD_READ[4..]) == Some(u);
  }

  /** The cache holds `blob` for `name` at every point of the behaviour. */
  ghost predicate StaysCached(w: Rules, s: State, steps: seq<Step>, name: string, blob: Blob)
    decreases |steps|
  {
    && name in s.cache && s.cache[name].Positive? && BlobOf(s.cache[name].body) == blob
    && (steps != [] && Enabled(s, steps[0]) ==> StaysCached(w, Next(w, s, steps[0]), steps[1..], name, blob))
  }

  /** The request is on its way to a 502 by way of an unusable bundle. */
  ghost predicate Doomed(s: State, q: nat, r: nat, index: string, entry: map<string, Json>, blob: Blob) {
    && index in s.bucket && s.bucket[index] == Text(Obj(entry))
    && q < |s.requests| && s.requests[q].name == index
    && match s.requests[q].phase
       case AwaitMain(k) =>
         && k == r && r < |s.fetches| && s.fetches[r].name == index
         && s.fetches[r].sample in {None, Some(Fault), Some(Found(Text(Obj(entry))))}
       case HaveBundle(_, e, b) => e == entry && b == blob
       case Answered(a) => a == BadGateway
       case _ => false
  }

  lemma DoomedResume(w: Rules, s: State, q: nat, r: nat, index: string, entry: map<string, Json>, name: string, blob: Blob)
    requires w.isIndex(index) && IsRefEntry(Obj(entry)) && w.bundleRef(entry["bundle_ref"].s) == Some(name) && Unusable(w, entry, blob)
    requires name in s.cache && s.cache[name].Positive? && BlobOf(s.cache[name].body) == blob
    requires Doomed(s, q, r, index, entry, blob) && Enabled(s, Resume(q))
    ensures Doomed(Continue(w, s, q), q, r, index, entry, blob)
  {
    match s.requests[q].phase
    case AwaitMain(k) =>
      if s.fetches[r].sample == Some(Found(Text(Obj(entry)))) {
        assert Continue(w, s, q) == SeekBundle(w, s, q, r, entry);
      }
    case HaveBundle(i, e, b) => assert Continue(w, s, q) == Fail(s, q);
  }

  lemma StepDooms(w: Rules, s: State, step: Step, q: nat, r: nat, index: string, entry: map<string, Json>, name: string, blob: Blob)
    requires w.isIndex(index) && IsRefEntry(Obj(entry)) && w.bundleRef(entry["bundle_ref"].s) == Some(name) && Unusable(w, entry, blob)
    requires name in s.cache && s.cache[name].Positive? && BlobOf(s.cache[name].body) == blob
    requires Doomed(s, q, r, index, entry, blob) && Enabled(s, step)
    requires step != Remove(index) && !(step.Publish? && step.name == index)
    ensures Doomed(Next(w, s, step), q, r, index, entry, blob)
  {
    if step == Resume(q) {
      DoomedResume(w, s, q, r, index, entry, name, blob);
    } else if step.Resume? {
      ResumeMoves(w, s, step.request);
    }
  }

  lemma {:induction false} BehaveDooms(w: Rules, s: State, steps: seq<Step>, q: nat, r: nat, index: string, entry: map<string, Json>, name: string, blob: Blob)
    requires w.isIndex(index) && IsRefEntry(Obj(entry)) && w.bundleRef(entry["bundle_ref"].s) == Some(name) && Unusable(w, entry, blob)
    requires Doomed(s, q, r, index, entry, blob) && Behave(w, s, steps).Some? && StaysCached(w, s, steps, name, blob)
    requires forall step <- steps :: step != Remove(index) && !(step.Publish? && step.name == index)
    ensures Doomed(Behave(w, s, steps).value, q, r, index, entry, blob)
    decreases |steps|
  {
    if steps != [] {
      StepDooms(w, s, steps[0], q, r, index, entry, name, blob);
      BehaveDooms(w, Next(w, s, steps[0]), steps[1..], q, r, index, entry, name, blob);
    }
  }

  /**
   While an unusable bundle stays cached, a request that reads the entry for itself is answered
   502 or not at all, whatever the bucket now holds under the bundle's name.
   */
  lemma CachedBundleBlocksEntry(w: Rules, s: State, steps: seq<Step>, index: string, entry: map<string, Json>, name: string, blob: Blob)
    requires w.isIndex(index) && IsRefEntry(Obj(entry)) && w.bundleRef(entry["bundle_ref"].s) == Some(name) && Unusable(w, entry, blob)
    requires index in s.bucket && s.bucket[index] == Text(Obj(entry)) && index !in s.cache && index !in s.flights
    requires Behave(w, Begin(w, s, index), steps).Some? && StaysCached(w, Begin(w, s, index), steps, name, blob)
    requires forall step <- steps :: step != Remove(index) && !(step.Publish? && step.name == index)
    ensures var t := Behave(w, Begin(w, s, index), steps).value;
            && |s.requests| < |t.requests| && t.requests[|s.requests|].name == index
            && (t.requests[|s.requests|].phase.Answered? ==> t.requests[|s.requests|].phase.response == BadGateway)
  {
    BehaveDooms(w, Begin(w, s, index), steps, |s.requests|, |s.fetches|, index, entry, name, blob);
  }

  // ---- a published entry ---------------------------------------------------------------

  datatype Document = Document(name: string, blob: Blob)

  /**
   An index object with its entry, the bundle or template object it refers to, and the context
   object if any. `pinned` says the object is taken from the cache throughout, whatever the
   bucket holds under its name; otherwise it is the one in the bucket.
   */
  datatype Published = Published(
    index: string, entry: map<string, Json>, name: string, blob: Blob, pinned: bool, context: Option<Document>)

  ghost predicate PublishedOk(w: Rules, p: Published) {
    && w.isIndex(p.index) && !w.isIndex(p.name) && IsRefEntry(Obj(p.entry))
    && w.bundleRef(p.entry["bundle_ref"].s) == Some(p.name)
    && match p.context
       case None => "context_ref" !in p.entry
       case Some(d) =>
         && "context_ref" in p.entry && w.contextRef(p.entry["context_ref"].s) == Some(d.name)
         && d.name != p.index && d.name != p.name
  }

  /** The bundle the objects make, if they make one. */
  function Made(w: Rules, p: Published): (r: Option<Json>)
    ensures r.Some? && p.context.Some? ==> r.value.Obj? && "id" in r.value.fields
  {
    if p.blob.Garbage? then None
    else
      match p.context
      case None => Some(p.blob.json)
      case Some(d) =>
        if d.blob.Garbage? then None
        else
          var r := w.rebuild(p.blob.json, d.blob.json);
          if r.Some? && r.value.Obj? && "id" in r.value.fields then r else None
  }

  /** They make one, and it has the entry's hash. */
  ghost predicate Usable(w: Rules, p: Published)
    requires IsRefEntry(Obj(p.entry))
  {
    Made(w, p).Some? && w.hash(Made(w, p).value) == w.lower(p.entry["bundle_sha256"].s)
  }

  /** The response the entry then stands for. */
  function Exact(w: Rules, p: Published): Json
    requires IsRefEntry(Obj(p.entry)) && Made(w, p).Some?
  {
    var bundle := Made(w, p).value;
    ResponseFor(p.entry, if p.context.Some? then bundle.fields["id"] else p.entry["bundle_id"], bundle)
  }

  /** 200 with that response if the objects are usable, 502 if they are not. */
  ghost predicate AnswerOk(w: Rules, p: Published, a: Response)
    requires IsRefEntry(Obj(p.entry))
  {
    if Usable(w, p) then a.Ok? && BlobOf(a.body) == Text(Exact(w, p)) else a == BadGateway
  }

  predicate Concerns(p: Published, name: string) {
    name == p.index || (name == p.name && !p.pinned) || (p.context.Some? && name == p.context.value.name)
  }

  function Content(p: Published, name: string): Blob
    requires Concerns(p, name)
  {
    if name == p.index then Text(Obj(p.entry)) else if name == p.name && !p.pinned then p.blob else p.context.value.blob
  }

  ghost predicate InBucket(p: Published, bucket: map<string, Blob>) {
    forall name | Concerns(p, name) :: name in bucket && bucket[name] == Content(p, name)
  }

  /** A pinned object is in the cache. */
  ghost predicate PinnedAt(p: Published, s: State) {
    p.pinned ==> p.name in s.cache && s.cache[p.name].Positive? && BlobOf(s.cache[p.name].body) == p.blob
  }

  /** The step leaves the objects as they are, and does not fail to read them. */
  predicate Undisturbed(p: Published, s: State, step: Step) {
    match step
    case Publish(name, _) => !Concerns(p, name)
    case Remove(name) => !Concerns(p, name)
    case Sample(r, fault) => fault && r < |s.fetches| ==> !Concerns(p, s.fetches[r].name)
    case _ => true
  }

  ghost predicate CacheHolds(w: Rules, p: Published, name: string, v: CacheValue)
    requires PublishedOk(w, p)
  {
    && (name == p.index ==> Usable(w, p) && v.Positive? && BlobOf(v.body) == Text(Exact(w, p)))
    && (name == p.name && !p.pinned ==> v.Positive? && BlobOf(v.body) == p.blob)
  }

  /** A read of one of the objects has found, or is yet to find, what is published. */
  ghost predicate FetchHolds(p: Published, fetches: seq<Read>, r: nat) {
    && r < |fetches|
    && (Concerns(p, fetches[r].name) ==> fetches[r].sample.None? || fetches[r].sample == Some(Found(Content(p, fetches[r].name))))
  }

  /** A request that waits for one of the objects waits for such a read. */
  ghost predicate WaitsWell(p: Published, fetches: seq<Read>, q: Request) {
    match q.phase
    case AwaitMain(r) => Concerns(p, q.name) ==> FetchHolds(p, fetches, r)
    case AwaitBundle(_, _, b, r) => b == p.name && !p.pinned ==> FetchHolds(p, fetches, r)
    case _ => true
  }

  /** How far a request for the entry may have come. */
  ghost predicate PhaseHolds(w: Rules, p: Published, fetches: seq<Read>, phase: Phase)
    requires PublishedOk(w, p)
  {
    match phase
    case AwaitMain(_) => true
    case AwaitBundle(_, e, b, _) => e == p.entry && b == p.name && !p.pinned
    case HaveBundle(_, e, blob) => e == p.entry && blob == p.blob
    case AwaitContext(_, e, t, r) =>
      && p.context.Some? && e == p.entry && Text(t) == p.blob
      && FetchHolds(p, fetches, r) && fetches[r].name == p.context.value.name
    case Answered(a) => AnswerOk(w, p, a)
  }

  ghost predicate RequestHolds(w: Rules, p: Published, fetches: seq<Read>, q: Request, exempt: bool)
    requires PublishedOk(w, p)
  {
    WaitsWell(p, fetches, q) && (q.name == p.index ==> if exempt then q.phase.Answered? else PhaseHolds(w, p, fetches, q.phase))
  }

  /** All the proxy knows of the objects, apart from the answers `exempt`, agrees with what is published. */
  ghost predicate Holds(w: Rules, p: Published, s: State, exempt: set<nat>)
    requires PublishedOk(w, p)
  {
    && InBucket(p, s.bucket) && (forall i <- exempt :: i < |s.requests|)
    && (forall name <- s.flights | Concerns(p, name) :: FetchHolds(p, s.fetches, s.flights[name]))
    && (forall name <- s.cache :: CacheHolds(w, p, name, s.cache[name]))
    && (forall i | 0 <= i < |s.requests| :: RequestHolds(w, p, s.fetches, s.requests[i], i in exempt))
  }

  lemma HoldsPut(w: Rules, p: Published, s: State, x: set<nat>, q: nat, phase: Phase, cache: map<string, CacheValue>, name: string)
    requires PublishedOk(w, p) && Holds(w, p, s, x) && q < |s.requests|
    requires RequestHolds(w, p, s.fetches, s.requests[q].(phase := phase), q in x)
    requires cache == s.cache || (cache.Keys == s.cache.Keys + {name} && (forall n <- s.cache | n != name :: cache[n] == s.cache[n])
                                  && CacheHolds(w, p, name, cache[name]))
    ensures Holds(w, p, At(s.(cache := cache), q, phase), x)
  {
  }

  lemma HoldsFail(w: Rules, p: Published, s: State, x: set<nat>, q: nat)
    requires PublishedOk(w, p) && Holds(w, p, s, x) && q < |s.requests| && (s.requests[q].name == p.index ==> !Usable(w, p))
    ensures Holds(w, p, Fail(s, q), x)
  {
    HoldsPut(w, p, s, x, q, Answered(BadGateway), s.cache, "");
  }

  lemma HoldsJoin(w: Rules, p: Published, s: State, x: set<nat>, name: string)
    requires PublishedOk(w, p) && Inv(w, s) && Holds(w, p, s, x)
    ensures var (t, r) := Join(s, name);
            && Holds(w, p, t, x) && t.requests == s.requests && t.cache == s.cache
            && r < |t.fetches| && t.fetches[r].name == name && FetchHolds(p, t.fetches, r)
  {
    var t := Join(s, name).0;
    forall i | 0 <= i < |t.requests| ensures RequestHolds(w, p, t.fetches, t.requests[i], i in x) {
      assert RequestHolds(w, p, s.fetches, s.requests[i], i in x);
    }
  }

  lemma HoldsSeek(w: Rules, p: Published, s: State, x: set<nat>, q: nat, index: nat, entry: map<string, Json>)
    requires PublishedOk(w, p) && Inv(w, s) && Holds(w, p, s, x) && PinnedAt(p, s) && q < |s.requests| && IsRefEntry(Obj(entry))
    requires s.requests[q].name == p.index ==> entry == p.entry && q !in x
    ensures Holds(w, p, SeekBundle(w, s, q, index, entry), x)
  {
    var name := w.bundleRef(entry["bundle_ref"].s);
    if name.None? {
      HoldsFail(w, p, s, x, q);
    } else if name.value in s.cache && s.cache[name.value].Positive? {
      HoldsPut(w, p, s, x, q, HaveBundle(index, entry, BlobOf(s.cache[name.value].body)), s.cache, "");
    } else {
      HoldsJoin(w, p, s, x, name.value);
      var (t, r) := Join(s, name.value);
      HoldsPut(w, p, t, x, q, AwaitBundle(index, entry, name.value, r), t.cache, "");
    }
  }

  lemma HoldsMain(w: Rules, p: Published, s: State, x: set<nat>, q: nat, r: nat)
    requires PublishedOk(w, p) && Inv(w, s) && Holds(w, p, s, x) && PinnedAt(p, s)
    requires q < |s.requests| && s.requests[q].phase == AwaitMain(r) && Landed(s, r)
    ensures Holds(w, p, AfterMain(w, s, q, r, s.fetches[r].sample.value), x)
  {
    var name := s.requests[q].name;
    assert RequestOk(w, s.fetches, s.requests[q]);
    assert RequestHolds(w, p, s.fetches, s.requests[q], q in x);
    match s.fetches[r].sample.value
    case Fault => HoldsFail(w, p, s, x, q);
    case Missing =>
      var leaf := w.isLeaf(name);
      HoldsPut(w, p, s, x, q, Answered(NotFound(leaf)), if leaf then s.cache else s.cache[name := Negative], name);
    case Found(blob) =>
      if !w.isIndex(name) || (blob.Text? && !IsRefEntry(blob.json)) {
        var body := Verbatim(blob, r);
        HoldsPut(w, p, s, x, q, Answered(Ok(body)), s.cache[name := Positive(body)], name);
      } else if blob.Garbage? {
        HoldsFail(w, p, s, x, q);
      } else {
        HoldsSeek(w, p, s, x, q, r, blob.json.fields);
      }
  }

  lemma HoldsBundle(w: Rules, p: Published, s: State, x: set<nat>, q: nat)
    requires PublishedOk(w, p) && Inv(w, s) && Holds(w, p, s, x)
    requires Enabled(s, Resume(q)) && s.requests[q].phase.AwaitBundle?
    ensures Holds(w, p, Continue(w, s, q), x)
  {
    var y := s.requests[q].phase;
    assert RequestOk(w, s.fetches, s.requests[q]);
    assert RequestHolds(w, p, s.fetches, s.requests[q], q in x);
    var result := s.fetches[y.read].sample.value;
    if result.Found? {
      var body := Verbatim(result.blob, y.read);
      HoldsPut(w, p, s, x, q, HaveBundle(y.index, y.entry, result.blob), s.cache[y.bundle := Positive(body)], y.bundle);
    } else {
      HoldsFail(w, p, s, x, q);
    }
  }

  lemma HoldsCheck(w: Rules, p: Published, s: State, x: set<nat>, q: nat, index: nat, entry: map<string, Json>, id: Json, bundle: Json)
    requires PublishedOk(w, p) && Holds(w, p, s, x) && q < |s.requests| && EntryOk(w, s.fetches, s.requests[q].name, index, entry)
    requires s.requests[q].name == p.index ==>
               q !in x && entry == p.entry && Made(w, p) == Some(bundle) && ResponseFor(entry, id, bundle) == Exact(w, p)
    ensures Holds(w, p, Check(w, s, q, index, entry, id, bundle), x)
  {
    if w.hash(bundle) != w.lower(entry["bundle_sha256"].s) {
      HoldsFail(w, p, s, x, q);
    } else {
      var name, body := s.requests[q].name, Rendered(ResponseFor(entry, id, bundle), index);
      HoldsPut(w, p, s, x, q, Answered(Ok(body)), s.cache[name := Positive(body)], name);
    }
  }

  lemma HoldsWith(w: Rules, p: Published, s: State, x: set<nat>, q: nat, index: nat, entry: map<string, Json>, blob: Blob)
    requires PublishedOk(w, p) && Inv(w, s) && Holds(w, p, s, x) && q < |s.requests|
    requires EntryOk(w, s.fetches, s.requests[q].name, index, entry)
    requires s.requests[q].name == p.index ==> q !in x && entry == p.entry && blob == p.blob
    ensures Holds(w, p, WithBundle(w, s, q, index, entry, blob), x)
  {
    if blob.Garbage? {
      HoldsFail(w, p, s, x, q);
    } else if "context_ref" !in entry {
      HoldsCheck(w, p, s, x, q, index, entry, entry["bundle_id"], blob.json);
    } else {
      var name := w.contextRef(entry["context_ref"].s);
      if name.None? {
        HoldsFail(w, p, s, x, q);
      } else {
        HoldsJoin(w, p, s, x, name.value);
        var (t, r) := Join(s, name.value);
        HoldsPut(w, p, t, x, q, AwaitContext(index, entry, blob.json, r), t.cache, "");
      }
    }
  }

  lemma HoldsContext(w: Rules, p: Published, s: State, x: set<nat>, q: nat)
    requires PublishedOk(w, p) && Inv(w, s) && Holds(w, p, s, x)
    requires Enabled(s, Resume(q)) && s.requests[q].phase.AwaitContext?
    ensures Holds(w, p, Continue(w, s, q), x)
  {
    var y := s.requests[q].phase;
    assert RequestOk(w, s.fetches, s.requests[q]);
    assert RequestHolds(w, p, s.fetches, s.requests[q], q in x);
    var result := s.fetches[y.read].sample.value;
    if !result.Found? || result.blob.Garbage? {
      HoldsFail(w, p, s, x, q);
    } else {
      var bundle := w.rebuild(y.template, result.blob.json);
      if bundle.None? || !bundle.value.Obj? || "id" !in bundle.value.fields {
        HoldsFail(w, p, s, x, q);
      } else {
        HoldsCheck(w, p, s, x, q, y.index, y.entry, bundle.value.fields["id"], bundle.value);
      }
    }
  }

  lemma HoldsArrive(w: Rules, p: Published, s: State, x: set<nat>, name: string)
    requires PublishedOk(w, p) && Inv(w, s) && Holds(w, p, s, x)
    ensures Holds(w, p, Begin(w, s, name), x)
  {
    HoldsJoin(w, p, s, x, name);
    var t := Begin(w, s, name);
    var n := |s.requests|;
    if name in s.cache {
      assert CacheHolds(w, p, name, s.cache[name]);
    }
    assert RequestHolds(w, p, t.fetches, t.requests[n], false);
    forall i | 0 <= i < |t.requests| ensures RequestHolds(w, p, t.fetches, t.requests[i], i in x) {
      assert i < n ==> RequestHolds(w, p, s.fetches, s.requests[i], i in x);
    }
  }

  lemma HoldsResume(w: Rules, p: Published, s: State, x: set<nat>, q: nat)
    requires PublishedOk(w, p) && Inv(w, s) && Holds(w, p, s, x) && PinnedAt(p, s) && Enabled(s, Resume(q))
    ensures Holds(w, p, Continue(w, s, q), x)
  {
    assert RequestOk(w, s.fetches, s.requests[q]);
    assert RequestHolds(w, p, s.fetches, s.requests[q], q in x);
    match s.requests[q].phase
    case AwaitMain(r) => HoldsMain(w, p, s, x, q, r);
    case AwaitBundle(_, _, _, _) => HoldsBundle(w, p, s, x, q);
    case HaveBundle(i, e, blob) => HoldsWith(w, p, s, x, q, i, e, blob);
    case AwaitContext(_, _, _, _) => HoldsContext(w, p, s, x, q);
  }

  lemma HoldsFetch(w: Rules, p: Published, s: State, x: set<nat>, step: Step)
    requires PublishedOk(w, p) && Inv(w, s) && Holds(w, p, s, x)
    requires Enabled(s, step) && Undisturbed(p, s, step) && (step.Sample? || step.Land?)
    ensures Holds(w, p, Next(w, s, step), x)
  {
    var t := Next(w, s, step);
    assert forall r: nat | FetchHolds(p, s.fetches, r) :: FetchHolds(p, t.fetches, r);
    forall i | 0 <= i < |t.requests| ensures RequestHolds(w, p, t.fetches, t.requests[i], i in x) {
      assert RequestHolds(w, p, s.fetches, s.requests[i], i in x);
    }
  }

  lemma HoldsStep(w: Rules, p: Published, s: State, x: set<nat>, step: Step)
    requires PublishedOk(w, p) && Inv(w, s) && Holds(w, p, s, x) && PinnedAt(p, s) && Enabled(s, step) && Undisturbed(p, s, step)
    ensures Holds(w, p, Next(w, s, step), x)
  {
    match step
    case Arrive(name) => HoldsArrive(w, p, s, x, name);
    case Resume(q) => HoldsResume(w, p, s, x, q);
    case Sample(_, _) => HoldsFetch(w, p, s, x, step);
    case Land(_) => HoldsFetch(w, p, s, x, step);
    case _ =>
  }

  /** No step of the behaviour disturbs the published objects, and a pinned one stays cached. */
  ghost predicate Calm(w: Rules, p: Published, s: State, steps: seq<Step>)
    decreases |steps|
  {
    && PinnedAt(p, s)
    && (steps != [] && Enabled(s, steps[0]) ==> Undisturbed(p, s, steps[0]) && Calm(w, p, Next(w, s, steps[0]), steps[1..]))
  }

  lemma {:induction false} BehaveHolds(w: Rules, p: Published, s: State, x: set<nat>, steps: seq<Step>)
    requires ValidRules(w) && PublishedOk(w, p) && Inv(w, s) && Holds(w, p, s, x)
    requires Behave(w, s, steps).Some? && Calm(w, p, s, steps)
    ensures Holds(w, p, Behave(w, s, steps).value, x)
    decreases |steps|
  {
    if steps != [] {
      StepKeepsInv(w, s, steps[0]);
      HoldsStep(w, p, s, x, steps[0]);
      BehaveHolds(w, p, Next(w, s, steps[0]), x, steps[1..]);
    }
  }

  ghost function AnsweredIn(s: State): set<nat> {
    set i: nat | i < |s.requests| && s.requests[i].phase.Answered?
  }

  /**
   What the proxy knows of the objects agrees with what is published: cached copies, reads that
   have been sampled and requests under way, whoever they are for. Nothing at all will do.
   */
  ghost predicate Agrees(w: Rules, p: Published, s: State)
    requires PublishedOk(w, p)
  {
    Holds(w, p, s, AnsweredIn(s))
  }

  /**
   From any state that agrees with an entry and its objects, while they stay and are read
   without fault, every answer to a request for the entry is decided by them: 200 with exactly
   their response when they are usable, and 502 when they are not.
   */
  lemma PublishedIsServed(w: Rules, p: Published, bucket: map<string, Blob>, before: seq<Step>, after: seq<Step>, q: nat)
    requires ValidRules(w) && PublishedOk(w, p) && Behave(w, Fresh(bucket), before).Some?
    requires var s := Behave(w, Fresh(bucket), before).value; Agrees(w, p, s) && Behave(w, s, after).Some? && Calm(w, p, s, after)
    requires var s := Behave(w, Fresh(bucket), before).value;
             var t := Behave(w, s, after).value;
             q !in AnsweredIn(s) && q < |t.requests| && t.requests[q].name == p.index && t.requests[q].phase.Answered?
    ensures var a := Behave(w, Behave(w, Fresh(bucket), before).value, after).value.requests[q].phase.response;
            AnswerOk(w, p, a) && (a.Ok? <==> Usable(w, p))
  {
    BehaveKeepsInv(w, Fresh(bucket), before);
    var s := Behave(w, Fresh(bucket), before).value;
    BehaveHolds(w, p, s, AnsweredIn(s), after);
    var t := Behave(w, s, after).value;
    assert RequestHolds(w, p, t.fetches, t.requests[q], false);
  }

  /** The published objects as the proxy uses them while `cached` stays in its cache under the bundle's name. */
  function WithCached(p: Published, cached: Option<Blob>): Published {
    if cached.None? then p else p.(pinned := true, blob := cached.value)
  }

  /** For usable objects in the bucket, the entry is served exactly when no other bundle is cached or the cached one is usable. */
  lemma CachedBundleDecides(
    w: Rules, p: Published, cached: Option<Blob>, bucket: map<string, Blob>, before: seq<Step>, after: seq<Step>, q: nat)
    requires ValidRules(w) && PublishedOk(w, p) && !p.pinned && Usable(w, p) && Behave(w, Fresh(bucket), before).Some?
    requires var s, r := Behave(w, Fresh(bucket), before).value, WithCached(p, cached);
             Agrees(w, r, s) && Behave(w, s, after).Some? && Calm(w, r, s, after)
    requires var s := Behave(w, Fresh(bucket), before).value;
             var t := Behave(w, s, after).value;
             q !in AnsweredIn(s) && q < |t.requests| && t.requests[q].name == p.index && t.requests[q].phase.Answered?
    ensures var a := Behave(w, Behave(w, Fresh(bucket), before).value, after).value.requests[q].phase.response;
            && (a.Ok? <==> cached.None? || Usable(w, WithCached(p, cached)))
            && (!a.Ok? ==> a == BadGateway)
  {
    PublishedIsServed(w, WithCached(p, cached), bucket, before, after, q);
  }

  /** A cold proxy agrees with whatever the bucket holds. */
  lemma FreshAgrees(w: Rules, p: Published, bucket: map<string, Blob>)
    requires PublishedOk(w, p) && InBucket(p, bucket)
    ensures Agrees(w, p, Fresh(bucket))
  {
  }

  // ---- requests can be finished --------------------------------------------------------

  /** Steps of requests and of reads that do not fail. */
  predicate Harmless(steps: seq<Step>) {
    forall step <- steps :: step.Resume? || step.Land? || (step.Sample? && !step.fault)
  }

  function Stage(p: Phase): nat {
    match p
    case AwaitMain(_) => 4
    case AwaitBundle(_, _, _, _) => 3
    case HaveBundle(_, _, _) => 2
    case AwaitContext(_, _, _, _) => 1
    case Answered(_) => 0
  }

  function ReadRank(s: State, p: Phase): nat {
    if p.Answered? || p.HaveBundle? || p.read >= |s.fetches| || s.fetches[p.read].landed then 0
    else if s.fetches[p.read].sample.Some? then 1 else 2
  }

  /** How many steps a request is from its answer, at most. */
  function Rank(s: State, q: nat): nat
    requires q < |s.requests|
  {
    3 * Stage(s.requests[q].phase) + ReadRank(s, s.requests[q].phase)
  }

  /** The stage request `q` is at. */
  ghost predicate Before(s: State, q: nat, stage: nat) {
    q < |s.requests| && Stage(s.requests[q].phase) < stage
  }

  lemma MainAdvances(w: Rules, s: State, q: nat, r: nat, result: Result)
    requires q < |s.requests|
    ensures Before(AfterMain(w, s, q, r, result), q, 4)
  {
    if result.Found? && result.blob.Text? && IsRefEntry(result.blob.json) {
      SeekAdvances(w, s, q, r, result.blob.json.fields);
    }
  }

  lemma SeekAdvances(w: Rules, s: State, q: nat, index: nat, entry: map<string, Json>)
    requires q < |s.requests| && IsRefEntry(Obj(entry))
    ensures Before(SeekBundle(w, s, q, index, entry), q, 4)
  {
  }

  lemma WithAdvances(w: Rules, s: State, q: nat, index: nat, entry: map<string, Json>, blob: Blob)
    requires q < |s.requests| && IsRefEntry(Obj(entry))
    ensures Before(WithBundle(w, s, q, index, entry, blob), q, 2)
  {
  }

  lemma ContextAdvances(w: Rules, s: State, q: nat, index: nat, entry: map<string, Json>, template: Json, result: Result)
    requires q < |s.requests| && IsRefEntry(Obj(entry))
    ensures Before(AfterContext(w, s, q, index, entry, template, result), q, 1)
  {
  }

  lemma ResumeAdvances(w: Rules, s: State, q: nat)
    requires Enabled(s, Resume(q))
    ensures Before(Continue(w, s, q), q, Stage(s.requests[q].phase))
  {
    match s.requests[q].phase
    case AwaitMain(r) => MainAdvances(w, s, q, r, s.fetches[r].sample.value);
    case AwaitBundle(_, _, _, _) =>
    case HaveBundle(i, e, blob) => WithAdvances(w, s, q, i, e, blob);
    case AwaitContext(i, e, template, r) => ContextAdvances(w, s, q, i, e, template, s.fetches[r].sample.value);
  }

  /** The next harmless step towards the answer. */
  lemma CanAdvance(w: Rules, s: State, q: nat) returns (step: Step)
    requires Inv(w, s) && q < |s.requests| && !s.requests[q].phase.Answered?
    ensures Enabled(s, step) && Harmless([step])
    ensures q < |Next(w, s, step).requests| && Rank(Next(w, s, step), q) < Rank(s, q)
  {
    var p := s.requests[q].phase;
    assert RequestOk(w, s.fetches, s.requests[q]);
    if p.HaveBundle? || s.fetches[p.read].landed {
      step := Resume(q);
      ResumeAdvances(w, s, q);
    } else if s.fetches[p.read].sample.Some? {
      step := Land(p.read);
    } else {
      step := Sample(p.read, false);
    }
  }

  lemma {:induction false} FinishFrom(w: Rules, s: State, q: nat) returns (steps: seq<Step>)
    requires ValidRules(w) && Inv(w, s) && q < |s.requests|
    ensures Harmless(steps) && Behave(w, s, steps).Some?
    ensures q < |Behave(w, s, steps).value.requests| && Behave(w, s, steps).value.requests[q].phase.Answered?
    decreases Rank(s, q)
  {
    steps := [];
    if !s.requests[q].phase.Answered? {
      var step := CanAdvance(w, s, q);
      StepKeepsInv(w, s, step);
      var rest := FinishFrom(w, Next(w, s, step), q);
      steps := [step] + rest;
      assert steps[0] == step && steps[1..] == rest;
    }
  }

  /** From every reachable state every request can be brought to its answer by reads that do not fail and steps of requests. */
  lemma CanFinish(w: Rules, bucket: map<string, Blob>, before: seq<Step>, q: nat) returns (steps: seq<Step>)
    requires ValidRules(w) && Behave(w, Fresh(bucket), before).Some? && q < |Behave(w, Fresh(bucket), before).value.requests|
    ensures Harmless(steps) && Behave(w, Behave(w, Fresh(bucket), before).value, steps).Some?
    ensures var t := Behave(w, Behave(w, Fresh(bucket), before).value, steps).value; q < |t.requests| && t.requests[q].phase.Answered?
  {
    BehaveKeepsInv(w, Fresh(bucket), before);
    steps := FinishFrom(w, Behave(w, Fresh(bucket), before).value, q);
  }

  /** Harmless steps leave objects that are not pinned alone. */
  lemma {:induction false} HarmlessIsCalm(w: Rules, p: Published, s: State, steps: seq<Step>)
    requires !p.pinned && Harmless(steps)
    ensures Calm(w, p, s, steps)
    decreases |steps|
  {
    if steps != [] && Enabled(s, steps[0]) {
      assert steps[0] in steps;
      HarmlessIsCalm(w, p, Next(w, s, steps[0]), steps[1..]);
    }
  }

  /** A cold proxy asked for a published entry gets to an answer, undisturbed. */
  lemma ColdRequestIsAnswered(w: Rules, p: Published, bucket: map<string, Blob>) returns (after: seq<Step>)
    requires ValidRules(w) && PublishedOk(w, p) && !p.pinned && InBucket(p, bucket)
    ensures Agrees(w, p, Fresh(bucket)) && AnsweredIn(Fresh(bucket)) == {}
    ensures Behave(w, Fresh(bucket), after).Some? && Calm(w, p, Fresh(bucket), after)
    ensures var t := Behave(w, Fresh(bucket), after).value;
            |t.requests| > 0 && t.requests[0].name == p.index && t.requests[0].phase.Answered?
  {
    FreshAgrees(w, p, bucket);
    var s := Begin(w, Fresh(bucket), p.index);
    StepKeepsInv(w, Fresh(bucket), Arrive(p.index));
    var steps := FinishFrom(w, s, 0);
    HarmlessIsCalm(w, p, s, steps);
    NameStays(w, s, steps, 0);
    after := [Arrive(p.index)] + steps;
    assert after[0] == Arrive(p.index) && after[1..] == steps;
  }

  lemma {:induction false} NameStays(w: Rules, s: State, steps: seq<Step>, q: nat)
    requires Behave(w, s, steps).Some? && q < |s.requests|
    ensures q < |Behave(w, s, steps).value.requests| && Behave(w, s, steps).value.requests[q].name == s.requests[q].name
    decreases |steps|
  {
    if steps != [] {
      if steps[0].Resume? {
        ResumeMoves(w, s, steps[0].request);
      }
      NameStays(w, Next(w, s, steps[0]), steps[1..], q);
    }
  }

  /** No request is ever left without a way forward: while unanswered, it or the read it awaits has a step. */
  lemma NeverStuck(w: Rules, bucket: map<string, Blob>, steps: seq<Step>, q: nat)
    requires ValidRules(w) && Behave(w, Fresh(bucket), steps).Some?
    requires q < |Behave(w, Fresh(bucket), steps).value.requests| && !Behave(w, Fresh(bucket), steps).value.requests[q].phase.Answered?
    ensures var s := Behave(w, Fresh(bucket), steps).value;
            || Enabled(s, Resume(q))
            || (!s.requests[q].phase.HaveBundle? && (Enabled(s, Sample(s.requests[q].phase.read, false)) || Enabled(s, Land(s.requests[q].phase.read))))
  {
    BehaveKeepsInv(w, Fresh(bucket), steps);
    var s := Behave(w, Fresh(bucket), steps).value;
    assert RequestOk(w, s.fetches, s.requests[q]);
  }
}
