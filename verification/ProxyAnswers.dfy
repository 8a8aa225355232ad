/**
 What every answer of the proxy says about the bucket: why a request is answered 404 or 502,
 what the bucket decides for an object that is served as it is, and what is remembered.
 */
module ProxyAnswers {
  import opened Common
  import opened Json
  import opened Proxy

  // ---- every answer has its reason ------------------------------------------------------

  /** A landed read of `name` found nothing. */
  ghost predicate Missed(fetches: seq<Read>, name: string) {
    exists r :: 0 <= r < |fetches| && fetches[r] == Read(name, Some(Missing), true)
  }

  /** A read that can end in a 502: it failed, or it found an index object that does not parse or that refers to others. */
  ghost predicate Trouble(w: Rules, read: Read, name: string) {
    && read.name == name && read.landed && read.sample.Some?
    && match read.sample.value
       case Fault => true
       case Missing => false
       case Found(blob) => w.isIndex(name) && (blob.Garbage? || IsRefEntry(blob.json))
  }

  ghost predicate Troubled(w: Rules, fetches: seq<Read>, name: string) {
    exists r :: 0 <= r < |fetches| && Trouble(w, fetches[r], name)
  }

  ghost predicate Justified(w: Rules, fetches: seq<Read>, q: Request) {
    && (q.phase.Answered? && q.phase.response.NotFound? ==> Missed(fetches, q.name))
    && (q.phase.Answered? && q.phase.response.BadGateway? ==> Troubled(w, fetches, q.name))
  }

  ghost predicate AllJustified(w: Rules, s: State) {
    && (forall name <- s.cache :: s.cache[name].Negative? ==> Missed(s.fetches, name))
    && (forall q <- s.requests :: Justified(w, s.fetches, q))
  }

  lemma JustifiedStays(w: Rules, a: seq<Read>, b: seq<Read>, name: string)
    requires Extends(a, b)
    ensures Missed(a, name) ==> Missed(b, name)
    ensures Troubled(w, a, name) ==> Troubled(w, b, name)
  {
    if Missed(a, name) {
      var r :| 0 <= r < |a| && a[r] == Read(name, Some(Missing), true);
      assert b[r] == a[r];
    }
    if Troubled(w, a, name) {
      var r :| 0 <= r < |a| && Trouble(w, a[r], name);
      assert b[r] == a[r];
    }
  }

  /** Request `q` goes by the same name and is not answered 404. */
  ghost predicate NotMissing(s: State, t: State, q: nat) {
    q < |s.requests| == |t.requests| && t.requests[q].name == s.requests[q].name && t.requests[q].phase != Answered(NotFound(true))
    && t.requests[q].phase != Answered(NotFound(false))
  }

  lemma WithIsNotMissing(w: Rules, s: State, q: nat, index: nat, entry: map<string, Json>, blob: Blob)
    requires q < |s.requests| && IsRefEntry(Obj(entry))
    ensures NotMissing(s, WithBundle(w, s, q, index, entry, blob), q)
  {
  }

  lemma ContextIsNotMissing(w: Rules, s: State, q: nat, index: nat, entry: map<string, Json>, template: Json, result: Result)
    requires q < |s.requests| && IsRefEntry(Obj(entry))
    ensures NotMissing(s, AfterContext(w, s, q, index, entry, template, result), q)
  {
  }

  /** Once a request follows an entry, a 404 is out of reach and a 502 is within it. */
  lemma EntryJustifies(w: Rules, s: State, t: State, q: nat, index: nat, entry: map<string, Json>)
    requires NotMissing(s, t, q) && EntryOk(w, s.fetches, s.requests[q].name, index, entry)
    ensures Justified(w, s.fetches, t.requests[q])
  {
    assert Trouble(w, s.fetches[index], s.requests[q].name);
  }

  /** The request that was resumed, in its new phase, is justified. */
  lemma ResumedIsJustified(w: Rules, s: State, q: nat, t: State)
    requires Inv(w, s) && Enabled(s, Resume(q)) && t == Continue(w, s, q)
    ensures q < |t.requests| && Justified(w, s.fetches, t.requests[q])
  {
    assert RequestOk(w, s.fetches, s.requests[q]);
    match s.requests[q].phase
    case AwaitMain(r) => MainIsJustified(w, s, q, r);
    case AwaitBundle(i, e, _, _) => EntryJustifies(w, s, t, q, i, e);
    case HaveBundle(i, e, blob) =>
      WithIsNotMissing(w, s, q, i, e, blob);
      EntryJustifies(w, s, t, q, i, e);
    case AwaitContext(i, e, template, r) =>
      ContextIsNotMissing(w, s, q, i, e, template, s.fetches[r].sample.value);
      EntryJustifies(w, s, t, q, i, e);
  }

  lemma MainIsJustified(w: Rules, s: State, q: nat, r: nat)
    requires q < |s.requests| && Landed(s, r) && s.fetches[r].name == s.requests[q].name
    ensures var t := AfterMain(w, s, q, r, s.fetches[r].sample.value); q < |t.requests| && Justified(w, s.fetches, t.requests[q])
  {
    var read := s.fetches[r];
    if read.sample.value.Missing? {
      assert read == Read(read.name, Some(Missing), true);
    } else if read.sample.value.Fault? {
      assert Trouble(w, s.fetches[r], read.name);
    } else if w.isIndex(read.name) && (read.sample.value.blob.Garbage? || IsRefEntry(read.sample.value.blob.json)) {
      assert Trouble(w, s.fetches[r], read.name);
    }
  }

  lemma ResumeJustifies(w: Rules, s: State, q: nat, t: State)
    requires Inv(w, s) && AllJustified(w, s) && Enabled(s, Resume(q)) && t == Continue(w, s, q)
    ensures AllJustified(w, t)
  {
    ResumedIsJustified(w, s, q, t);
    ResumeMoves(w, s, q);
    ResumeEffects(w, s, q);
    JustifiedFrame(w, s, t, q);
  }

  lemma JustifiedFrame(w: Rules, s: State, t: State, q: nat)
    requires AllJustified(w, s) && Moves(s, t, q) && Effects(w, s, t, q) && Extends(s.fetches, t.fetches)
    requires Justified(w, s.fetches, t.requests[q])
    ensures AllJustified(w, t)
  {
    forall name <- t.cache ensures t.cache[name].Negative? ==> Missed(t.fetches, name) {
      JustifiedStays(w, s.fetches, t.fetches, name);
    }
    forall x <- t.requests ensures Justified(w, t.fetches, x) {
      var i :| 0 <= i < |t.requests| && t.requests[i] == x;
      assert i != q ==> x == s.requests[i] && x in s.requests;
      assert Justified(w, s.fetches, x);
      JustifiedStays(w, s.fetches, t.fetches, x.name);
    }
  }

  /** What a resumed request leaves in the cache. */
  ghost predicate CachesExactly(w: Rules, s: State, t: State, q: nat)
    requires q < |s.requests| == |t.requests|
  {
    var name := s.requests[q].name;
    match t.requests[q].phase
    case Answered(Ok(body)) => t.cache == s.cache[name := Positive(body)]
    case Answered(NotFound(noStore)) => noStore == w.isLeaf(name) && t.cache == if noStore then s.cache else s.cache[name := Negative]
    case Answered(BadGateway) => t.cache == s.cache
    case HaveBundle(_, _, blob) =>
      if s.requests[q].phase.AwaitBundle? then
        t.cache == s.cache[s.requests[q].phase.bundle := Positive(Verbatim(blob, s.requests[q].phase.read))]
      else t.cache == s.cache
    case _ => t.cache == s.cache
  }

  /** What it adds to the reads: nothing, or one that has not been sampled and is in flight. */
  ghost predicate StartsReads(s: State, t: State) {
    || (t.fetches == s.fetches && t.flights == s.flights)
    || exists x :: Started(s, t, x)
  }

  ghost predicate Started(s: State, t: State, x: string) {
    x !in s.flights && t.fetches == s.fetches + [Read(x, None, false)] && t.flights == s.flights[x := |s.fetches|]
  }

  ghost predicate Effects(w: Rules, s: State, t: State, q: nat) {
    q < |s.requests| == |t.requests| && CachesExactly(w, s, t, q) && StartsReads(s, t)
  }

  lemma JoinEffects(w: Rules, s: State, q: nat, name: string, phase: Phase)
    requires q < |s.requests| && (phase.AwaitBundle? || phase.AwaitContext?)
    ensures Effects(w, s, At(Join(s, name).0, q, phase), q)
  {
    var t := At(Join(s, name).0, q, phase);
    assert name !in s.flights ==> Started(s, t, name);
  }

  lemma SeekEffects(w: Rules, s: State, q: nat, index: nat, entry: map<string, Json>)
    requires q < |s.requests| && IsRefEntry(Obj(entry)) && !s.requests[q].phase.AwaitBundle?
    ensures Effects(w, s, SeekBundle(w, s, q, index, entry), q)
  {
    var name := w.bundleRef(entry["bundle_ref"].s);
    if name.Some? {
      JoinEffects(w, s, q, name.value, AwaitBundle(index, entry, name.value, Join(s, name.value).1));
    }
  }

  lemma MainEffects(w: Rules, s: State, q: nat, r: nat, result: Result)
    requires q < |s.requests| && !s.requests[q].phase.AwaitBundle?
    ensures Effects(w, s, AfterMain(w, s, q, r, result), q)
  {
    if result.Found? && result.blob.Text? && IsRefEntry(result.blob.json) {
      SeekEffects(w, s, q, r, result.blob.json.fields);
    }
  }

  lemma CheckEffects(w: Rules, s: State, q: nat, index: nat, entry: map<string, Json>, id: Json, bundle: Json)
    requires q < |s.requests| && IsRefEntry(Obj(entry))
    ensures Effects(w, s, Check(w, s, q, index, entry, id, bundle), q)
  {
  }

  lemma WithEffects(w: Rules, s: State, q: nat, index: nat, entry: map<string, Json>, blob: Blob)
    requires q < |s.requests| && IsRefEntry(Obj(entry))
    ensures Effects(w, s, WithBundle(w, s, q, index, entry, blob), q)
  {
    if blob.Text? {
      CheckEffects(w, s, q, index, entry, entry["bundle_id"], blob.json);
      if "context_ref" in entry {
        var name := w.contextRef(entry["context_ref"].s);
        if name.Some? {
          JoinEffects(w, s, q, name.value, AwaitContext(index, entry, blob.json, Join(s, name.value).1));
        }
      }
    }
  }

  lemma ContextEffects(w: Rules, s: State, q: nat, index: nat, entry: map<string, Json>, template: Json, result: Result)
    requires q < |s.requests| && IsRefEntry(Obj(entry))
    ensures Effects(w, s, AfterContext(w, s, q, index, entry, template, result), q)
  {
    if result.Found? && result.blob.Text? {
      var bundle := w.rebuild(template, result.blob.json);
      if bundle.Some? && bundle.value.Obj? && "id" in bundle.value.fields {
        CheckEffects(w, s, q, index, entry, bundle.value.fields["id"], bundle.value);
      }
    }
  }

  lemma ResumeEffects(w: Rules, s: State, q: nat)
    requires Enabled(s, Resume(q))
    ensures Effects(w, s, Continue(w, s, q), q)
  {
    match s.requests[q].phase
    case AwaitMain(r) => MainEffects(w, s, q, r, s.fetches[r].sample.value);
    case AwaitBundle(i, e, name, r) =>
    case HaveBundle(i, e, blob) => WithEffects(w, s, q, i, e, blob);
    case AwaitContext(i, e, template, r) => ContextEffects(w, s, q, i, e, template, s.fetches[r].sample.value);
  }

  lemma StepJustifies(w: Rules, s: State, step: Step)
    requires Inv(w, s) && AllJustified(w, s) && Enabled(s, step)
    ensures AllJustified(w, Next(w, s, step))
  {
    var t := Next(w, s, step);
    if step.Resume? {
      ResumeJustifies(w, s, step.request, t);
    } else {
      assert Extends(s.fetches, t.fetches);
      forall name ensures Missed(s.fetches, name) ==> Missed(t.fetches, name)
                  ensures Troubled(w, s.fetches, name) ==> Troubled(w, t.fetches, name)
      {
        JustifiedStays(w, s.fetches, t.fetches, name);
      }
      forall x <- t.requests ensures Justified(w, t.fetches, x) {
        if x in s.requests {
          assert Justified(w, s.fetches, x);
        } else {
          assert step.Arrive? && x == t.requests[|s.requests|];
        }
      }
    }
  }

  lemma {:induction false} BehaveJustifies(w: Rules, s: State, steps: seq<Step>)
    requires Inv(w, s) && ValidRules(w) && AllJustified(w, s) && Behave(w, s, steps).Some?
    ensures AllJustified(w, Behave(w, s, steps).value)
    decreases |steps|
  {
    if steps != [] {
      StepKeepsInv(w, s, steps[0]);
      StepJustifies(w, s, steps[0]);
      BehaveJustifies(w, Next(w, s, steps[0]), steps[1..]);
    }
  }

  /**
   In every schedule a 404 means that a read of that very object found nothing, never that a
   bundle or a context it refers to is absent; and a 502 means that a read of that very object
   failed, or found an index object that does not parse or refers to others. In particular an
   object outside the index is answered 502 only when reading it failed.
   */
  lemma AnswersHaveReasons(w: Rules, bucket: map<string, Blob>, steps: seq<Step>, q: nat)
    requires ValidRules(w) && Behave(w, Fresh(bucket), steps).Some?
    requires var t := Behave(w, Fresh(bucket), steps).value; q < |t.requests| && t.requests[q].phase.Answered?
    ensures var t := Behave(w, Fresh(bucket), steps).value;
            var a := t.requests[q].phase.response;
            && (a.NotFound? ==> Missed(t.fetches, t.requests[q].name))
            && (a.BadGateway? ==> Troubled(w, t.fetches, t.requests[q].name))
  {
    BehaveJustifies(w, Fresh(bucket), steps);
    var t := Behave(w, Fresh(bucket), steps).value;
    assert Justified(w, t.fetches, t.requests[q]);
  }

  lemma BehaveThree(w: Rules, s: State, a: Step, b: Step, c: Step)
    requires Enabled(s, a) && Enabled(Next(w, s, a), b) && Enabled(Next(w, Next(w, s, a), b), c)
    ensures Behave(w, s, [a, b, c]) == Some(Next(w, Next(w, Next(w, s, a), b), c))
  {
    var t := Next(w, s, a);
    var u := Next(w, t, b);
    assert [a, b, c][1..] == [b, c] && [b, c][1..] == [c] && [c][1..] == [];
    assert Behave(w, u, [c]) == Behave(w, Next(w, u, c), []);
    assert Behave(w, t, [b, c]) == Behave(w, u, [c]);
  }

  /** Whatever the bucket holds, a read of the object itself that fails is answered 502, and nothing is remembered of it. */
  lemma FailedReadIsRefused(w: Rules, s: State, q: nat, r: nat)
    requires q < |s.requests| && s.requests[q].phase == AwaitMain(r)
    requires r < |s.fetches| && s.fetches[r].sample.None? && !s.fetches[r].landed
    ensures var t := Behave(w, s, [Sample(r, true), Land(r), Resume(q)]);
            && t.Some? && q < |t.value.requests| && t.value.requests[q] == Request(s.requests[q].name, Answered(BadGateway))
            && t.value.cache == s.cache && t.value.bucket == s.bucket
  {
    var t := Next(w, s, Sample(r, true));
    var u := Next(w, t, Land(r));
    assert u.fetches[r].sample == Some(Fault) && u.fetches[r].landed && u.requests == s.requests;
    BehaveThree(w, s, Sample(r, true), Land(r), Resume(q));
  }

  // ---- what is remembered ---------------------------------------------------------------

  /**
   In every state, a request resumed to a 200, or to a 404 of an object that is no
   leaf, leaves that answer for the next request for the object, which is given it without any
   read; a 404 of a leaf and a 502 leave the cache as it was.
   */
  lemma AnswerIsRepeated(w: Rules, s: State, q: nat, t: State)
    requires Enabled(s, Resume(q)) && t == Next(w, s, Resume(q)) && q < |t.requests| && t.requests[q].phase.Answered?
    ensures var name := s.requests[q].name;
            var a := t.requests[q].phase.response;
            if a.Ok? || (a.NotFound? && !w.isLeaf(name)) then
              Next(w, t, Arrive(name)) == t.(requests := t.requests + [Request(name, Answered(a))])
            else t.cache == s.cache
  {
    ResumeEffects(w, s, q);
  }

  // ---- what the bucket decides -----------------------------------------------------------

  /** An object, or its absence, that is not an entry referring to others. */
  ghost predicate Plain(w: Rules, name: string, content: Option<Blob>) {
    content.Some? && w.isIndex(name) && content.value.Text? ==> !IsRefEntry(content.value.json)
  }

  function ContentOf(bucket: map<string, Blob>, name: string): Option<Blob> {
    if name in bucket then Some(bucket[name]) else None
  }

  /** 404 for what is absent, marked not to be stored when it is a leaf; the very bytes of what is present, unless the index object does not parse. */
  ghost predicate AnswerFits(w: Rules, name: string, content: Option<Blob>, a: Response) {
    match content
    case None => a == NotFound(w.isLeaf(name))
    case Some(blob) =>
      if w.isIndex(name) && blob.Garbage? then a == BadGateway else a.Ok? && a.body.Verbatim? && a.body.blob == blob
  }

  /** A 404 is remembered only of what is no leaf, and a 200 with the very bytes. */
  ghost predicate CacheFits(w: Rules, name: string, content: Option<Blob>, v: CacheValue) {
    match content
    case None => v.Negative? && !w.isLeaf(name)
    case Some(blob) => v.Positive? && v.body.Verbatim? && v.body.blob == blob && !(w.isIndex(name) && blob.Garbage?)
  }

  /** A read of the object has found, or is yet to find, what the bucket holds. */
  ghost predicate FetchFits(name: string, content: Option<Blob>, fetches: seq<Read>, r: nat) {
    && r < |fetches|
    && (fetches[r].name == name && fetches[r].sample.Some? ==>
          fetches[r].sample.value == if content.None? then Missing else Found(content.value))
  }

  ghost predicate RequestFits(w: Rules, name: string, content: Option<Blob>, fetches: seq<Read>, q: Request, exempt: bool) {
    match q.phase
    case AwaitMain(r) => q.name == name ==> FetchFits(name, content, fetches, r)
    case AwaitBundle(_, _, b, r) => q.name != name && (b == name ==> FetchFits(name, content, fetches, r))
    case HaveBundle(_, _, _) => q.name != name
    case AwaitContext(_, _, _, _) => q.name != name
    case Answered(a) => q.name == name && !exempt ==> AnswerFits(w, name, content, a)
  }

  /** All the proxy knows of the object, apart from the answers `exempt`, is what the bucket holds. */
  ghost predicate Fits(w: Rules, name: string, content: Option<Blob>, s: State, exempt: set<nat>) {
    && ContentOf(s.bucket, name) == content
    && (forall i <- exempt :: i < |s.requests| && s.requests[i].phase.Answered?)
    && (name in s.flights ==> FetchFits(name, content, s.fetches, s.flights[name]))
    && (name in s.cache ==> CacheFits(w, name, content, s.cache[name]))
    && (forall i | 0 <= i < |s.requests| :: RequestFits(w, name, content, s.fetches, s.requests[i], i in exempt))
  }

  predicate LeavesAlone(name: string, s: State, step: Step) {
    match step
    case Publish(n, _) => n != name
    case Remove(n) => n != name
    case Sample(r, fault) => fault && r < |s.fetches| ==> s.fetches[r].name != name
    case _ => true
  }

  /** No step changes the object in the bucket or fails to read it. */
  ghost predicate LeftAlone(w: Rules, name: string, s: State, steps: seq<Step>)
    decreases |steps|
  {
    steps != [] && Enabled(s, steps[0]) ==> LeavesAlone(name, s, steps[0]) && LeftAlone(w, name, Next(w, s, steps[0]), steps[1..])
  }

  lemma MainFits(w: Rules, name: string, content: Option<Blob>, s: State, q: nat)
    requires Plain(w, name, content) && Inv(w, s) && Enabled(s, Resume(q)) && s.requests[q].phase.AwaitMain? && s.requests[q].name == name
    requires FetchFits(name, content, s.fetches, s.requests[q].phase.read)
    ensures q < |Continue(w, s, q).requests|
    ensures Continue(w, s, q).requests[q].phase.Answered? && AnswerFits(w, name, content, Continue(w, s, q).requests[q].phase.response)
  {
    assert RequestOk(w, s.fetches, s.requests[q]);
  }

  /** A request for another object that is told to wait for this one, as a bundle, waits for a read that fits. */
  lemma JoinFits(w: Rules, name: string, content: Option<Blob>, s: State, other: string)
    requires name in s.flights ==> FetchFits(name, content, s.fetches, s.flights[name])
    requires FlightsOk(s)
    ensures var (t, r) := Join(s, other); t.requests == s.requests && (other == name ==> FetchFits(name, content, t.fetches, r))
  {
  }

  lemma SeekFits(w: Rules, name: string, content: Option<Blob>, s: State, q: nat, index: nat, entry: map<string, Json>)
    requires q < |s.requests| && s.requests[q].name != name && FlightsOk(s) && IsRefEntry(Obj(entry))
    requires name in s.flights ==> FetchFits(name, content, s.fetches, s.flights[name])
    ensures var t := SeekBundle(w, s, q, index, entry);
            q < |t.requests| && RequestFits(w, name, content, t.fetches, t.requests[q], false)
  {
    var ref := w.bundleRef(entry["bundle_ref"].s);
    if ref.Some? {
      JoinFits(w, name, content, s, ref.value);
    }
  }

  lemma MainSeeks(w: Rules, name: string, content: Option<Blob>, s: State, q: nat, r: nat, result: Result)
    requires q < |s.requests| && s.requests[q].name != name && FlightsOk(s)
    requires name in s.flights ==> FetchFits(name, content, s.fetches, s.flights[name])
    ensures var t := AfterMain(w, s, q, r, result);
            q < |t.requests| && RequestFits(w, name, content, t.fetches, t.requests[q], false)
  {
    if result.Found? && result.blob.Text? && IsRefEntry(result.blob.json) {
      SeekFits(w, name, content, s, q, r, result.blob.json.fields);
    }
  }

  lemma OtherFits(w: Rules, name: string, content: Option<Blob>, s: State, q: nat)
    requires FlightsOk(s) && Enabled(s, Resume(q)) && s.requests[q].name != name
    requires name in s.flights ==> FetchFits(name, content, s.fetches, s.flights[name])
    ensures var t := Continue(w, s, q);
            q < |t.requests| && RequestFits(w, name, content, t.fetches, t.requests[q], false)
  {
    ResumeMoves(w, s, q);
    match s.requests[q].phase
    case AwaitMain(r) => MainSeeks(w, name, content, s, q, r, s.fetches[r].sample.value);
    case AwaitBundle(i, e, b, r) =>
    case HaveBundle(i, e, blob) =>
    case AwaitContext(i, e, template, r) =>
  }

  /** Only a request that waits for a read of the object, as itself or as a bundle, writes it to the cache. */
  lemma CacheStillFits(w: Rules, name: string, content: Option<Blob>, s: State, t: State, q: nat)
    requires Inv(w, s) && Enabled(s, Resume(q)) && Effects(w, s, t, q) && t == Continue(w, s, q)
    requires name in s.cache ==> CacheFits(w, name, content, s.cache[name])
    requires RequestFits(w, name, content, s.fetches, s.requests[q], false)
    requires s.requests[q].name == name ==> t.requests[q].phase.Answered? && AnswerFits(w, name, content, t.requests[q].phase.response)
    ensures name in t.cache ==> CacheFits(w, name, content, t.cache[name])
  {
    assert RequestOk(w, s.fetches, s.requests[q]);
    assert s.requests[q].name == name && t.requests[q].phase.response.NotFound? ==> content.None?;
  }

  lemma FlightsStillFit(name: string, content: Option<Blob>, s: State, t: State)
    requires StartsReads(s, t) && (name in s.flights ==> FetchFits(name, content, s.fetches, s.flights[name]))
    ensures name in t.flights ==> FetchFits(name, content, t.fetches, t.flights[name])
  {
  }

  lemma ResumeFits(w: Rules, name: string, content: Option<Blob>, s: State, x: set<nat>, q: nat)
    requires Plain(w, name, content) && Inv(w, s) && Fits(w, name, content, s, x) && Enabled(s, Resume(q))
    ensures Fits(w, name, content, Continue(w, s, q), x)
  {
    var t := Continue(w, s, q);
    ResumeMoves(w, s, q);
    ResumeEffects(w, s, q);
    assert RequestFits(w, name, content, s.fetches, s.requests[q], q in x);
    if s.requests[q].name == name {
      MainFits(w, name, content, s, q);
    } else {
      OtherFits(w, name, content, s, q);
    }
    CacheStillFits(w, name, content, s, t, q);
    FlightsStillFit(name, content, s, t);
    forall i | 0 <= i < |t.requests| ensures RequestFits(w, name, content, t.fetches, t.requests[i], i in x) {
      if i != q {
        assert RequestFits(w, name, content, s.fetches, s.requests[i], i in x);
      }
    }
  }

  lemma ArriveFits(w: Rules, name: string, content: Option<Blob>, s: State, x: set<nat>, other: string)
    requires Inv(w, s) && Fits(w, name, content, s, x)
    ensures Fits(w, name, content, Begin(w, s, other), x)
  {
    JoinFits(w, name, content, s, other);
    var t := Begin(w, s, other);
    forall i | 0 <= i < |t.requests| ensures RequestFits(w, name, content, t.fetches, t.requests[i], i in x) {
      if i < |s.requests| {
        assert RequestFits(w, name, content, s.fetches, s.requests[i], i in x);
      }
    }
  }

  lemma FetchesFit(w: Rules, name: string, content: Option<Blob>, s: State, x: set<nat>, step: Step)
    requires Inv(w, s) && Fits(w, name, content, s, x)
    requires Enabled(s, step) && LeavesAlone(name, s, step) && (step.Sample? || step.Land?)
    ensures Fits(w, name, content, Next(w, s, step), x)
  {
    var t := Next(w, s, step);
    assert forall r: nat | FetchFits(name, content, s.fetches, r) :: FetchFits(name, content, t.fetches, r);
    forall i | 0 <= i < |t.requests| ensures RequestFits(w, name, content, t.fetches, t.requests[i], i in x) {
      assert RequestFits(w, name, content, s.fetches, s.requests[i], i in x);
    }
  }

  lemma StepFits(w: Rules, name: string, content: Option<Blob>, s: State, x: set<nat>, step: Step)
    requires Plain(w, name, content) && Inv(w, s) && Fits(w, name, content, s, x) && Enabled(s, step) && LeavesAlone(name, s, step)
    ensures Fits(w, name, content, Next(w, s, step), x)
  {
    match step
    case Arrive(other) => ArriveFits(w, name, content, s, x, other);
    case Resume(q) => ResumeFits(w, name, content, s, x, q);
    case Sample(_, _) => FetchesFit(w, name, content, s, x, step);
    case Land(_) => FetchesFit(w, name, content, s, x, step);
    case _ =>
  }

  lemma {:induction false} BehaveFits(w: Rules, name: string, content: Option<Blob>, s: State, x: set<nat>, steps: seq<Step>)
    requires ValidRules(w) && Plain(w, name, content) && Inv(w, s) && Fits(w, name, content, s, x)
    requires Behave(w, s, steps).Some? && LeftAlone(w, name, s, steps)
    ensures Fits(w, name, content, Behave(w, s, steps).value, x)
    decreases |steps|
  {
    if steps != [] {
      StepKeepsInv(w, s, steps[0]);
      StepFits(w, name, content, s, x, steps[0]);
      BehaveFits(w, name, content, Next(w, s, steps[0]), x, steps[1..]);
    }
  }

  /** Nothing of the object is cached, being read or being asked for. */
  ghost predicate Untouched(s: State, name: string) {
    && name !in s.cache && name !in s.flights
    && forall q <- s.requests ::
         && (q.name == name ==> q.phase.Answered?)
         && (q.phase.AwaitBundle? ==> q.phase.bundle != name)
  }

  /** Such a state knows nothing that could contradict the bucket. */
  lemma UntouchedFits(w: Rules, s: State, name: string)
    requires Untouched(s, name)
    ensures Fits(w, name, ContentOf(s.bucket, name), s, AnsweredIn(s))
  {
    var content := ContentOf(s.bucket, name);
    forall i | 0 <= i < |s.requests| ensures RequestFits(w, name, content, s.fetches, s.requests[i], i in AnsweredIn(s)) {
      assert s.requests[i] in s.requests;
    }
  }

  /**
   From any reachable state that knows nothing of an object, or nothing that contradicts the
   bucket, while the object stays as it is and no read of it fails: if it is absent every
   request for it is answered 404, not to be stored exactly when it is a leaf; if it is there
   and is no entry referring to others it is answered 200 with its very bytes, and 502 only
   as an index object that does not parse. The cache remembers nothing else of it.
   */
  lemma BucketDecides(w: Rules, bucket: map<string, Blob>, before: seq<Step>, after: seq<Step>, name: string, q: nat)
    requires ValidRules(w) && Behave(w, Fresh(bucket), before).Some?
    requires var s := Behave(w, Fresh(bucket), before).value;
             var content := ContentOf(s.bucket, name);
             && Plain(w, name, content) && (Untouched(s, name) || Fits(w, name, content, s, AnsweredIn(s)))
             && Behave(w, s, after).Some? && LeftAlone(w, name, s, after) && q !in AnsweredIn(s)
    ensures var s := Behave(w, Fresh(bucket), before).value;
            var content := ContentOf(s.bucket, name);
            var t := Behave(w, s, after).value;
            && (q < |t.requests| && t.requests[q].name == name && t.requests[q].phase.Answered? ==>
                  AnswerFits(w, name, content, t.requests[q].phase.response))
            && (name in t.cache ==> CacheFits(w, name, content, t.cache[name]))
  {
    BehaveKeepsInv(w, Fresh(bucket), before);
    var s := Behave(w, Fresh(bucket), before).value;
    var content := ContentOf(s.bucket, name);
    if Untouched(s, name) {
      UntouchedFits(w, s, name);
    }
    BehaveFits(w, name, content, s, AnsweredIn(s), after);
    var t := Behave(w, s, after).value;
    assert q < |t.requests| ==> RequestFits(w, name, content, t.fetches, t.requests[q], false);
  }

  lemma {:induction false} HarmlessLeavesAlone(w: Rules, name: string, s: State, steps: seq<Step>)
    requires Harmless(steps)
    ensures LeftAlone(w, name, s, steps)
    decreases |steps|
  {
    if steps != [] && Enabled(s, steps[0]) {
      assert steps[0] in steps;
      HarmlessLeavesAlone(w, name, Next(w, s, steps[0]), steps[1..]);
    }
  }

  /** And such an answer is always to be had: a request that arrives then can be brought to it. */
  lemma PlainRequestIsAnswered(w: Rules, bucket: map<string, Blob>, before: seq<Step>, s: State, name: string) returns (after: seq<Step>)
    requires ValidRules(w) && Behave(w, Fresh(bucket), before) == Some(s)
    requires Untouched(s, name) && Plain(w, name, ContentOf(s.bucket, name))
    ensures Behave(w, s, after).Some? && LeftAlone(w, name, s, after)
    ensures var t := Behave(w, s, after).value;
            var q := |s.requests|;
            && q < |t.requests| && t.requests[q].name == name && t.requests[q].phase.Answered?
            && AnswerFits(w, name, ContentOf(s.bucket, name), t.requests[q].phase.response)
  {
    BehaveKeepsInv(w, Fresh(bucket), before);
    StepKeepsInv(w, s, Arrive(name));
    var u, q := Begin(w, s, name), |s.requests|;
    var steps := FinishFrom(w, u, q);
    HarmlessLeavesAlone(w, name, u, steps);
    NameStays(w, u, steps, q);
    after := [Arrive(name)] + steps;
    assert after[0] == Arrive(name) && after[1..] == steps;
    BucketDecides(w, bucket, before, after, name, q);
  }

  lemma {:induction false} OneStepMore(w: Rules, s: State, steps: seq<Step>, step: Step)
    requires Behave(w, s, steps).Some? && Enabled(Behave(w, s, steps).value, step)
    ensures Behave(w, s, steps + [step]) == Some(Next(w, Behave(w, s, steps).value, step))
    decreases |steps|
  {
    if steps == [] {
      assert steps + [step] == [step] && [step][1..] == [];
      assert Behave(w, Next(w, s, step), []) == Some(Next(w, s, step));
    } else {
      assert (steps + [step])[1..] == steps[1..] + [step];
      OneStepMore(w, Next(w, s, steps[0]), steps[1..], step);
    }
  }

  /** What a publisher writes, or removes, is what the next request for it gets, from a proxy that knows nothing of the object. */
  lemma PublishersAreSeen(w: Rules, bucket: map<string, Blob>, before: seq<Step>, s: State, name: string, content: Option<Blob>)
    returns (after: seq<Step>)
    requires ValidRules(w) && Behave(w, Fresh(bucket), before) == Some(s) && Untouched(s, name) && Plain(w, name, content)
    ensures var t := Next(w, s, if content.Some? then Publish(name, content.value) else Remove(name));
            var u := Behave(w, t, after);
            && u.Some? && |s.requests| < |u.value.requests| && u.value.requests[|s.requests|].name == name
            && u.value.requests[|s.requests|].phase.Answered?
            && AnswerFits(w, name, content, u.value.requests[|s.requests|].phase.response)
  {
    var step := if content.Some? then Publish(name, content.value) else Remove(name);
    OneStepMore(w, Fresh(bucket), before, step);
    after := PlainRequestIsAnswered(w, bucket, before + [step], Next(w, s, step), name);
  }
}
