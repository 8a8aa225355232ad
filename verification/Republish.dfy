/**
 The bucket protocol of the policy-bundle republisher: any number of runs, each
 reading `latest.json`, creating a write-once `<n>.json`, and swapping `latest.json`
 by generation. A run may die between any two steps.

 The machine is `Apply`, one bucket request (or local decision) per step; an
 interleaving is a sequence of steps, and every theorem is about all of them.
 */
module Republish {
  import opened Common
  import opened Text

  const ATTEMPTS: nat := 5
  /** Number.MAX_SAFE_INTEGER */
  const MAX_SEQUENCE: nat := 0x1F_FFFF_FFFF_FFFF

  /** `n++` on a JavaScript number: 2^53 plus one rounds back to 2^53. */
  function Increment(n: nat): nat {
    if n > MAX_SEQUENCE then n else n + 1
  }

  datatype Payload = Payload(
    policies: seq<string>,
    sequence: int,
    issuedAt: int,
    expiresAt: Option<int>,
    env: string,
    profile: string,
    registryRef: Option<string>)

  /** The bytes of one object: a signed bundle, or text that does not parse as one. */
  datatype Bytes = Malformed | Signed(payload: Payload, signature: string, keyId: string)

  datatype Object = Object(bytes: Bytes, generation: nat)

  datatype Options = Options(fromSource: Option<seq<string>>, keyId: string, dryRun: bool)

  datatype Failure = InvalidLive | Overflow | KeyChanged | Collision | GaveUp | Crashed

  /**
   `at` is the index in the history of `latest.json` of the object this attempt read,
   `known` the version files that existed at that moment.
   */
  datatype Pc =
    | Begin
    | Listing(at: nat, known: set<nat>)
    | Uploading(at: nat, known: set<nat>, policies: seq<string>, issuedAt: int, next: nat)
    | Swapping(at: nat, next: nat, bytes: Bytes)
    | Rereading(next: nat)
    | Done(sequence: int)
    | DryRun(sequence: int)
    | Failed(why: Failure)

  /** `born` is the length of the history when the run started, `uploads` counts this attempt's version uploads. */
  datatype Run = Run(options: Options, pc: Pc, attempt: nat, born: nat, uploads: nat)

  /** `history` holds every object `latest.json` has been; the last one is live. */
  datatype State = State(history: seq<Object>, versions: map<nat, Bytes>, runs: map<nat, Run>)

  datatype Step =
    | Spawn(id: nat, options: Options)
    | Read(id: nat)
    | List(id: nat, found: nat, issuedAt: int)
    | Upload(id: nat, signature: string)
    | Swap(id: nat, generation: nat)
    | Reread(id: nat)
    | Crash(id: nat)

  predicate Live(b: Bytes) {
    b.Signed? && 1 <= b.payload.sequence <= MAX_SEQUENCE
  }

  predicate LiveAt(s: State, at: nat) {
    at < |s.history| && Live(s.history[at].bytes)
  }

  function Latest(s: State): Object
    requires s.history != []
  {
    s.history[|s.history| - 1]
  }

  /** A listing spans several page requests, so it sees at least what existed when it began and at most what exists at its end. */
  predicate ListingMayReturn(found: nat, known: set<nat>, versions: map<nat, Bytes>) {
    && (found == 0 || found in versions)
    && forall n <- known :: n <= found
  }

  predicate Enabled(s: State, step: Step) {
    && s.history != []
    && if step.Spawn? then step.id !in s.runs else
       && step.id in s.runs
       && var pc := s.runs[step.id].pc;
       match step
       case Spawn(_, _) => true
       case Read(_) => pc.Begin?
       case List(_, found, _) => pc.Listing? && LiveAt(s, pc.at) && ListingMayReturn(found, pc.known, s.versions)
       case Upload(_, _) => pc.Uploading? && LiveAt(s, pc.at)
       case Swap(_, generation) =>
         && pc.Swapping? && pc.at < |s.history|
         && generation != 0 && forall o <- s.history :: o.generation != generation
       case Reread(_) => pc.Rereading?
       case Crash(_) => true
  }

  function WithPc(s: State, id: nat, pc: Pc): State
    requires id in s.runs
  {
    s.(runs := s.runs[id := s.runs[id].(pc := pc)])
  }

  function Max(a: int, b: int): int {
    if a < b then b else a
  }

  /** Choosing the next number, after the listing returned `found`. */
  function AfterListing(r: Run, live: Bytes, found: nat, issuedAt: int): Run
    requires r.pc.Listing? && Live(live)
  {
    var next := Max(live.payload.sequence, found) + 1;
    if next > MAX_SEQUENCE then r.(pc := Failed(Overflow))
    else if r.options.dryRun then
      r.(pc := if r.options.keyId == live.keyId then DryRun(next) else Failed(KeyChanged))
    else
      var policies := if r.options.fromSource.Some? then r.options.fromSource.value else live.payload.policies;
      r.(pc := Uploading(r.pc.at, r.pc.known, policies, issuedAt, next), uploads := 0)
  }

  /** What a run signs: the live payload with new policies, sequence and issue time. */
  function Sign(live: Bytes, policies: seq<string>, issuedAt: int, next: nat, signature: string, keyId: string): Bytes
    requires live.Signed?
  {
    Signed(live.payload.(policies := policies, sequence := next, issuedAt := issuedAt), signature, keyId)
  }

  function Apply(s: State, step: Step): State
    requires Enabled(s, step)
  {
    match step
    case Spawn(id, options) =>
      s.(runs := s.runs[id := Run(options, Begin, 1, |s.history|, 0)])
    case Read(id) =>
      WithPc(s, id, if Live(Latest(s).bytes) then Listing(|s.history| - 1, s.versions.Keys) else Failed(InvalidLive))
    case List(id, found, issuedAt) =>
      var r := s.runs[id];
      s.(runs := s.runs[id := AfterListing(r, s.history[r.pc.at].bytes, found, issuedAt)])
    case Upload(id, signature) => ApplyUpload(s, id, signature)
    case Swap(id, generation) =>
      var r := s.runs[id];
      if Latest(s).generation == s.history[r.pc.at].generation then
        WithPc(s, id, Done(r.pc.next)).(history := s.history + [Object(r.pc.bytes, generation)])
      else
        WithPc(s, id, Rereading(r.pc.next))
    case Reread(id) =>
      var r := s.runs[id];
      var now := Latest(s).bytes;
      if !Live(now) then WithPc(s, id, Failed(InvalidLive))
      else if now.payload.sequence >= r.pc.next then WithPc(s, id, Done(now.payload.sequence))
      else if r.attempt >= ATTEMPTS then WithPc(s, id, Failed(GaveUp))
      else s.(runs := s.runs[id := r.(pc := Begin, attempt := r.attempt + 1)])
    case Crash(id) => WithPc(s, id, Failed(Crashed))
  }

  /** Sign the next number and create `<next>.json` if it is absent; a taken number moves on to the following one. */
  function ApplyUpload(s: State, id: nat, signature: string): State
    requires Enabled(s, Upload(id, signature))
  {
    var r := s.runs[id];
    var live := s.history[r.pc.at].bytes;
    var pc := r.pc;
    if r.options.keyId != live.keyId then WithPc(s, id, Failed(KeyChanged)) else
    var bytes := Sign(live, pc.policies, pc.issuedAt, pc.next, signature, r.options.keyId);
    var tried := r.(uploads := r.uploads + 1);
    if pc.next !in s.versions then
      s.(versions := s.versions[pc.next := bytes],
         runs := s.runs[id := tried.(pc := Swapping(pc.at, pc.next, bytes))])
    else if pc.next - live.payload.sequence > ATTEMPTS then
      s.(runs := s.runs[id := tried.(pc := Failed(Collision))])
    else
      s.(runs := s.runs[id := tried.(pc := Uploading(pc.at, pc.known, pc.policies, pc.issuedAt, Increment(pc.next)))])
  }

  /** The state after a schedule, or None when some step of it is not enabled. */
  function Behave(s: State, steps: seq<Step>): Option<State>
    decreases |steps|
  {
    if steps == [] then Some(s)
    else if !Enabled(s, steps[0]) then None
    else Behave(Apply(s, steps[0]), steps[1..])
  }

  /** A bucket nobody is republishing to: any content at all, with a `latest.json` that exists. */
  predicate Quiet(s: State) {
    |s.history| == 1 && s.history[0].generation != 0 && s.runs == map[]
  }

  // ---- invariant -----------------------------------------------------------------

  function SequenceAt(s: State, at: nat): int
    requires at < |s.history| && s.history[at].bytes.Signed?
  {
    s.history[at].bytes.payload.sequence
  }

  /** What holds of one run at each of its program points. */
  ghost predicate RunOk(s: State, r: Run)
    requires s.history != []
  {
    && 1 <= r.attempt <= ATTEMPTS
    && 1 <= r.born
    && match r.pc
       case Begin => r.born + r.attempt - 1 <= |s.history|
       case Listing(at, known) =>
         LiveAt(s, at) && r.born + r.attempt - 2 <= at && known <= s.versions.Keys
       case Uploading(at, known, policies, _, next) =>
         && LiveAt(s, at) && r.born + r.attempt - 2 <= at
         && SequenceAt(s, at) < next <= MAX_SEQUENCE + 1
         && (forall n <- known :: n < next)
         && policies == (if r.options.fromSource.Some? then r.options.fromSource.value
                         else s.history[at].bytes.payload.policies)
         && SequenceAt(s, at) < MAX_SEQUENCE
         && (SequenceAt(s, at) + ATTEMPTS <= MAX_SEQUENCE ==>
               r.uploads == 0 || r.uploads < next - SequenceAt(s, at) <= ATTEMPTS + 1)
       case Swapping(at, next, bytes) =>
         && LiveAt(s, at) && r.born + r.attempt - 2 <= at
         && next in s.versions && s.versions[next] == bytes
         && bytes.Signed? && bytes.payload.sequence == next && SequenceAt(s, at) < next
         && Inherits(r.options, s.history[at].bytes, bytes)
       case Rereading(next) => r.born + r.attempt <= |s.history|
       case Done(sequence) => Latest(s).bytes.Signed? && sequence <= Latest(s).bytes.payload.sequence
       case Failed(GaveUp) => r.born + ATTEMPTS <= |s.history|
       case _ => true
  }

  /** `child` was signed from `parent`: same key, and every field but sequence and issue time carried over. */
  ghost predicate Inherits(options: Options, parent: Bytes, child: Bytes) {
    && parent.Signed? && child.Signed?
    && child.keyId == parent.keyId
    && child.payload.expiresAt == parent.payload.expiresAt
    && child.payload.env == parent.payload.env
    && child.payload.profile == parent.payload.profile
    && child.payload.registryRef == parent.payload.registryRef
    && child.payload.policies == (if options.fromSource.Some? then options.fromSource.value else parent.payload.policies)
  }

  /** Each replacement of `latest.json` raises its sequence, for any two positions of the history. */
  ghost predicate Rising(history: seq<Object>) {
    && (|history| > 1 ==> forall o <- history :: o.bytes.Signed?)
    && forall i, j | 0 <= i < j < |history| ::
         && history[i].bytes.Signed? && history[j].bytes.Signed?
         && history[i].bytes.payload.sequence < history[j].bytes.payload.sequence
  }

  /** `latest.json`, once replaced, is byte for byte the version file its sequence names. */
  ghost predicate PointsAtVersions(s: State) {
    forall i | 1 <= i < |s.history| :: IsVersion(s, s.history[i].bytes)
  }

  ghost predicate IsVersion(s: State, b: Bytes) {
    && b.Signed? && 0 <= b.payload.sequence
    && b.payload.sequence in s.versions && s.versions[b.payload.sequence] == b
  }

  ghost predicate DistinctGenerations(history: seq<Object>) {
    forall i, j | 0 <= i < j < |history| :: history[i].generation != history[j].generation
  }

  ghost predicate Inv(s: State) {
    && s.history != []
    && DistinctGenerations(s.history)
    && Rising(s.history)
    && PointsAtVersions(s)
    && forall id <- s.runs :: RunOk(s, s.runs[id])
  }

  /** What every step keeps: the history only grows at its end and no version file is rewritten or removed. */
  ghost predicate Extends(s: State, t: State) {
    && s.history <= t.history
    && forall n <- s.versions :: n in t.versions && t.versions[n] == s.versions[n]
  }

  lemma StepExtends(s: State, step: Step)
    requires Enabled(s, step)
    ensures Extends(s, Apply(s, step))
  {
  }

  lemma RunOkIsStable(s: State, t: State, r: Run)
    requires Inv(s) && Rising(t.history) && Extends(s, t) && RunOk(s, r)
    ensures RunOk(t, r)
  {
    if r.pc.Done? && |s.history| < |t.history| {
      assert t.history[|s.history| - 1] == Latest(s);
    }
  }

  lemma AppendKeepsHistory(history: seq<Object>, o: Object)
    requires history != [] && DistinctGenerations(history) && Rising(history) && o.bytes.Signed?
    requires forall p <- history :: p.generation != o.generation
    requires var last := history[|history| - 1].bytes; last.Signed? && last.payload.sequence < o.bytes.payload.sequence
    ensures DistinctGenerations(history + [o]) && Rising(history + [o])
  {
  }

  lemma SwapKeepsHistory(s: State, id: nat, generation: nat)
    requires Inv(s) && Enabled(s, Swap(id, generation))
    ensures var t := Apply(s, Swap(id, generation));
            DistinctGenerations(t.history) && Rising(t.history) && PointsAtVersions(t)
  {
    var r := s.runs[id];
    assert RunOk(s, r);
    var t := Apply(s, Swap(id, generation));
    if Latest(s).generation == s.history[r.pc.at].generation {
      assert r.pc.at == |s.history| - 1;
      AppendKeepsHistory(s.history, Object(r.pc.bytes, generation));
    }
    forall i | 1 <= i < |t.history| ensures IsVersion(t, t.history[i].bytes) {
      assert i < |s.history| ==> IsVersion(s, s.history[i].bytes);
    }
  }

  lemma OtherStepsKeepHistory(s: State, step: Step)
    requires Inv(s) && Enabled(s, step) && !step.Swap?
    ensures Apply(s, step).history == s.history && PointsAtVersions(Apply(s, step))
  {
    StepExtends(s, step);
    assert Apply(s, step).history == s.history;
    forall i | 1 <= i < |s.history| ensures IsVersion(Apply(s, step), s.history[i].bytes) {
      assert IsVersion(s, s.history[i].bytes);
    }
  }

  /** A step touches no run but its own. */
  lemma StepTouchesOneRun(s: State, step: Step, id: nat)
    requires Enabled(s, step) && id != step.id
    ensures var t := Apply(s, step);
            (id in t.runs <==> id in s.runs) && (id in s.runs ==> t.runs[id] == s.runs[id])
  {
  }

  lemma StepKeepsInv(s: State, step: Step)
    requires Inv(s) && Enabled(s, step)
    ensures Inv(Apply(s, step))
  {
    if step.Swap? {
      SwapKeepsHistory(s, step.id, step.generation);
    } else {
      OtherStepsKeepHistory(s, step);
    }
    StepExtends(s, step);
    StepKeepsOwnRun(s, step);
    forall id | id != step.id
      ensures id in Apply(s, step).runs ==> id in s.runs && Apply(s, step).runs[id] == s.runs[id]
    {
      StepTouchesOneRun(s, step, id);
    }
    AllRunsOk(s, Apply(s, step), step.id);
  }

  lemma AllRunsOk(s: State, t: State, own: nat)
    requires Inv(s) && Extends(s, t) && DistinctGenerations(t.history) && Rising(t.history) && PointsAtVersions(t)
    requires own in t.runs && RunOk(t, t.runs[own])
    requires forall id | id != own :: id in t.runs ==> id in s.runs && t.runs[id] == s.runs[id]
    ensures Inv(t)
  {
    forall id <- t.runs ensures RunOk(t, t.runs[id]) {
      if id != own {
        assert RunOk(s, s.runs[id]);
        RunOkIsStable(s, t, t.runs[id]);
      }
    }
  }

  lemma StepKeepsOwnRun(s: State, step: Step)
    requires Inv(s) && Enabled(s, step)
    ensures var t := Apply(s, step); step.id in t.runs && RunOk(t, t.runs[step.id])
  {
    match step
    case Spawn(id, _) =>
    case Upload(id, signature) => UploadKeepsOwnRun(s, id, signature);
    case List(id, found, issuedAt) => ListKeepsOwnRun(s, id, found, issuedAt);
    case Read(id) => ReadKeepsOwnRun(s, id);
    case Swap(id, generation) => SwapKeepsOwnRun(s, id, generation);
    case Reread(id) => RereadKeepsOwnRun(s, id);
    case Crash(id) => assert RunOk(s, s.runs[id]);
  }

  lemma ReadKeepsOwnRun(s: State, id: nat)
    requires Inv(s) && Enabled(s, Read(id))
    ensures var t := Apply(s, Read(id)); id in t.runs && RunOk(t, t.runs[id])
  {
    assert RunOk(s, s.runs[id]);
  }

  lemma SwapKeepsOwnRun(s: State, id: nat, generation: nat)
    requires Inv(s) && Enabled(s, Swap(id, generation))
    ensures var t := Apply(s, Swap(id, generation)); id in t.runs && RunOk(t, t.runs[id])
  {
    assert RunOk(s, s.runs[id]);
  }

  lemma RereadKeepsOwnRun(s: State, id: nat)
    requires Inv(s) && Enabled(s, Reread(id))
    ensures var t := Apply(s, Reread(id)); id in t.runs && RunOk(t, t.runs[id])
  {
    assert RunOk(s, s.runs[id]);
  }

  lemma UploadKeepsOwnRun(s: State, id: nat, signature: string)
    requires Inv(s) && Enabled(s, Upload(id, signature))
    ensures var t := Apply(s, Upload(id, signature)); id in t.runs && RunOk(t, t.runs[id])
  {
    assert RunOk(s, s.runs[id]);
  }

  lemma ListKeepsOwnRun(s: State, id: nat, found: nat, issuedAt: int)
    requires Inv(s) && Enabled(s, List(id, found, issuedAt))
    ensures var t := Apply(s, List(id, found, issuedAt)); id in t.runs && RunOk(t, t.runs[id])
  {
    assert RunOk(s, s.runs[id]);
  }

  // ---- every schedule ------------------------------------------------------------

  lemma {:induction false} BehaveKeepsInv(s: State, steps: seq<Step>)
    requires Inv(s) && Behave(s, steps).Some?
    ensures Inv(Behave(s, steps).value) && Extends(s, Behave(s, steps).value)
    decreases |steps|
  {
    if steps != [] {
      var t := Apply(s, steps[0]);
      StepKeepsInv(s, steps[0]);
      StepExtends(s, steps[0]);
      BehaveKeepsInv(t, steps[1..]);
      ExtendsIsTransitive(s, t, Behave(s, steps).value);
    }
  }

  lemma ExtendsIsTransitive(s: State, t: State, u: State)
    requires Extends(s, t) && Extends(t, u)
    ensures Extends(s, u)
  {
    assert s.history == t.history[..|s.history|] && t.history == u.history[..|t.history|];
  }

  lemma QuietIsInv(s: State)
    requires Quiet(s)
    ensures Inv(s)
  {
  }

  /**
   Whatever runs overlap, in whatever order their steps fall and wherever they die:
   replacements of `latest.json` strictly raise its sequence, no version file changes or
   disappears once created, and `latest.json` is the version file its sequence names
   (from the first replacement on, or from the start if it was so then).
   */
  lemma SafeUnderEverySchedule(s: State, before: seq<Step>, after: seq<Step>)
    requires Quiet(s) && Behave(s, before).Some?
    requires var mid := Behave(s, before).value; Behave(mid, after).Some?
    ensures var mid := Behave(s, before).value;
            var end := Behave(mid, after).value;
            && Rising(end.history)
            && mid.history <= end.history
            && (forall n <- mid.versions :: n in end.versions && end.versions[n] == mid.versions[n])
            && end.history != []
            && (|end.history| > 1 || IsVersion(s, Latest(s).bytes) ==> IsVersion(end, Latest(end).bytes))
  {
    QuietIsInv(s);
    BehaveKeepsInv(s, before);
    var mid := Behave(s, before).value;
    BehaveKeepsInv(mid, after);
    ExtendsIsTransitive(s, mid, Behave(mid, after).value);
  }

  /** A number this attempt finds taken was created by another run after this attempt read `latest.json`. */
  lemma CollisionsAreConcurrent(s: State, steps: seq<Step>, id: nat, signature: string)
    requires Quiet(s) && Behave(s, steps).Some?
    requires Enabled(Behave(s, steps).value, Upload(id, signature))
    ensures var t := Behave(s, steps).value;
            t.runs[id].pc.next !in t.runs[id].pc.known
  {
    QuietIsInv(s);
    BehaveKeepsInv(s, steps);
    var t := Behave(s, steps).value;
    assert RunOk(t, t.runs[id]);
  }

  /** Once a run has returned sequence q, `latest.json` is at q or higher for ever. */
  lemma ReturnedSequenceIsForever(s: State, before: seq<Step>, after: seq<Step>, id: nat)
    requires Quiet(s) && Behave(s, before).Some?
    requires Behave(Behave(s, before).value, after).Some?
    requires var mid := Behave(s, before).value; id in mid.runs && mid.runs[id].pc.Done?
    ensures var mid := Behave(s, before).value;
            var end := Behave(mid, after).value;
            && end.history != [] && Latest(end).bytes.Signed?
            && mid.runs[id].pc.sequence <= Latest(end).bytes.payload.sequence
  {
    QuietIsInv(s);
    BehaveKeepsInv(s, before);
    var mid := Behave(s, before).value;
    BehaveKeepsInv(mid, after);
    var end := Behave(mid, after).value;
    assert RunOk(mid, mid.runs[id]);
    assert end.history[|mid.history| - 1] == Latest(mid);
  }

  lemma {:induction false} BornIsConstant(s: State, steps: seq<Step>, id: nat)
    requires id in s.runs && Behave(s, steps).Some?
    ensures var t := Behave(s, steps).value; id in t.runs && t.runs[id].born == s.runs[id].born
    decreases |steps|
  {
    if steps != [] {
      var t := Apply(s, steps[0]);
      assert id in t.runs && t.runs[id].born == s.runs[id].born;
      BornIsConstant(t, steps[1..], id);
    }
  }

  predicate Returned(s: State, id: nat) {
    id in s.runs && (s.runs[id].pc.Done? || s.runs[id].pc == Failed(Crashed))
  }

  /** A run that has returned takes no further step; it can only be crashed. */
  lemma {:induction false} ReturnedStays(s: State, steps: seq<Step>, id: nat)
    requires Returned(s, id) && Behave(s, steps).Some?
    ensures Returned(Behave(s, steps).value, id)
    decreases |steps|
  {
    if steps != [] {
      if steps[0].id != id {
        StepTouchesOneRun(s, steps[0], id);
      }
      ReturnedStays(Apply(s, steps[0]), steps[1..], id);
    }
  }

  /** How often `latest.json` is replaced along a schedule by runs other than `id`. */
  ghost function ReplacedByOthers(s: State, steps: seq<Step>, id: nat): nat
    decreases |steps|
  {
    if steps == [] || !Enabled(s, steps[0]) then 0
    else
      var t := Apply(s, steps[0]);
      (if t.history != s.history && steps[0].id != id then 1 else 0) + ReplacedByOthers(t, steps[1..], id)
  }

  lemma HistoryGrowsBySwaps(s: State, step: Step)
    requires Enabled(s, step)
    ensures var t := Apply(s, step);
            |t.history| == |s.history| + (if t.history != s.history then 1 else 0)
            && (t.history != s.history ==> step.id in t.runs && t.runs[step.id].pc.Done?)
  {
  }

  /** Every replacement seen by a run that gives up was another run's. */
  lemma {:induction false} OthersReplaced(s: State, steps: seq<Step>, id: nat)
    requires id in s.runs && Behave(s, steps).Some?
    requires var t := Behave(s, steps).value; id in t.runs && t.runs[id].pc == Failed(GaveUp)
    ensures |Behave(s, steps).value.history| == |s.history| + ReplacedByOthers(s, steps, id)
    decreases |steps|
  {
    if steps != [] {
      var t := Apply(s, steps[0]);
      HistoryGrowsBySwaps(s, steps[0]);
      if t.history != s.history && steps[0].id == id {
        ReturnedStays(t, steps[1..], id);
      }
      assert id in t.runs;
      OthersReplaced(t, steps[1..], id);
    }
  }

  /** A run that gives up has seen `latest.json` replaced at least ATTEMPTS times since it started, and never by itself. */
  lemma GivingUpTakesFiveReplacements(s: State, before: seq<Step>, id: nat, options: Options, after: seq<Step>)
    requires Quiet(s) && Behave(s, before).Some?
    requires var mid := Behave(s, before).value;
             Enabled(mid, Spawn(id, options)) && Behave(Apply(mid, Spawn(id, options)), after).Some?
    requires var end := Behave(Apply(Behave(s, before).value, Spawn(id, options)), after).value;
             id in end.runs && end.runs[id].pc == Failed(GaveUp)
    ensures var mid := Behave(s, before).value;
            var end := Behave(Apply(mid, Spawn(id, options)), after).value;
            && |mid.history| + 5 <= |end.history|
            && |end.history| == |mid.history| + ReplacedByOthers(Apply(mid, Spawn(id, options)), after, id)
            && 5 <= ReplacedByOthers(Apply(mid, Spawn(id, options)), after, id)
  {
    QuietIsInv(s);
    BehaveKeepsInv(s, before);
    var mid := Behave(s, before).value;
    var spawned := Apply(mid, Spawn(id, options));
    StepKeepsInv(mid, Spawn(id, options));
    BehaveKeepsInv(spawned, after);
    BornIsConstant(spawned, after, id);
    OthersReplaced(spawned, after, id);
    var end := Behave(spawned, after).value;
    assert RunOk(end, end.runs[id]);
  }

  // ---- what a run did, and what it returns ----------------------------------------

  /**
   What the bucket saw of a run along a schedule: how often it read `latest.json` to begin an
   attempt, the last version file it created, and how often it replaced `latest.json`.
   */
  datatype Deeds = Deeds(tries: nat, file: Option<nat>, replaced: nat)

  ghost function DeedsOf(s: State, steps: seq<Step>, id: nat): Deeds
    requires Behave(s, steps).Some?
    decreases |steps|
  {
    if steps == [] then Deeds(0, None, 0)
    else
      BehaveSnoc(s, steps);
      var init, last := steps[..|steps| - 1], steps[|steps| - 1];
      var deeds := DeedsOf(s, init, id);
      if last.id == id then Deed(deeds, last, Behave(s, init).value, Behave(s, steps).value) else deeds
  }

  ghost function Deed(deeds: Deeds, step: Step, before: State, after: State): Deeds {
    Deeds(
      deeds.tries + (if step.Read? then 1 else 0),
      if exists n :: Created(n, before, after) then
        var n :| Created(n, before, after);
        Some(n)
      else deeds.file,
      deeds.replaced + (if after.history != before.history then 1 else 0))
  }

  ghost predicate Created(n: nat, before: State, after: State) {
    n in after.versions && n !in before.versions
  }

  lemma {:induction false} BehaveSnoc(s: State, steps: seq<Step>)
    requires steps != [] && Behave(s, steps).Some?
    ensures var u := Behave(s, steps[..|steps| - 1]);
            u.Some? && Enabled(u.value, steps[|steps| - 1]) && Behave(s, steps) == Some(Apply(u.value, steps[|steps| - 1]))
    decreases |steps|
  {
    if |steps| > 1 {
      BehaveSnoc(Apply(s, steps[0]), steps[1..]);
      assert steps[1..][..|steps| - 2] == steps[..|steps| - 1][1..];
    }
  }

  /** What a run's program point says about its deeds. */
  ghost predicate Honest(s: State, r: Run, d: Deeds) {
    && d.tries <= ATTEMPTS
    && match r.pc
       case Begin => d.tries + 1 == r.attempt <= ATTEMPTS && d.replaced == 0
       case Listing(_, _) => d.tries == r.attempt && d.replaced == 0
       case Uploading(_, _, _, _, _) => d.tries == r.attempt && d.replaced == 0
       case Swapping(_, next, _) => d.tries == r.attempt && d.replaced == 0 && d.file == Some(next)
       case Rereading(next) => d.tries == r.attempt && d.replaced == 0 && d.file == Some(next)
       case Done(q) => d.file.Some? && (PublishedOwn(s, d, q) || Overtaken(s, d, q))
       case DryRun(_) => d == Deeds(1, None, 0)
       case Failed(GaveUp) => d.tries == ATTEMPTS && d.file.Some? && d.replaced == 0
       case Failed(Crashed) => d.replaced <= 1
       case Failed(_) => d.replaced == 0
  }

  /** The run replaced `latest.json`, once, by its own version file, whose number it returns. */
  ghost predicate PublishedOwn(s: State, d: Deeds, q: int) {
    && d.replaced == 1 && d.file.Some? && q == d.file.value && q in s.versions
    && exists i :: 1 <= i < |s.history| && s.history[i].bytes == s.versions[q]
  }

  /** The run replaced nothing, and returns the number of a bundle that went live and is its own or a later one. */
  ghost predicate Overtaken(s: State, d: Deeds, q: int) {
    && d.replaced == 0 && d.file.Some? && d.file.value <= q
    && exists i :: 0 <= i < |s.history| && Live(s.history[i].bytes) && s.history[i].bytes.payload.sequence == q
  }

  /** A dry run never gets past its first listing. */
  ghost predicate DryOk(r: Run, d: Deeds) {
    r.options.dryRun ==>
      && r.attempt == 1 && d.file.None? && d.replaced == 0
      && !r.pc.Uploading? && !r.pc.Swapping? && !r.pc.Rereading? && !r.pc.Done?
  }

  ghost predicate AllHonest(s: State, steps: seq<Step>, t: State)
    requires Behave(s, steps).Some?
  {
    && (forall id: nat :: id !in t.runs ==> DeedsOf(s, steps, id) == Deeds(0, None, 0))
    && (forall id <- t.runs :: Honest(t, t.runs[id], DeedsOf(s, steps, id)) && DryOk(t.runs[id], DeedsOf(s, steps, id)))
  }

  lemma HonestIsStable(s: State, t: State, r: Run, d: Deeds)
    requires Extends(s, t) && Honest(s, r, d)
    ensures Honest(t, r, d)
  {
    if r.pc.Done? {
      if PublishedOwn(s, d, r.pc.sequence) {
        var i :| 1 <= i < |s.history| && s.history[i].bytes == s.versions[r.pc.sequence];
        assert t.history[i] == s.history[i];
      } else {
        var i :| 0 <= i < |s.history| && Live(s.history[i].bytes) && s.history[i].bytes.payload.sequence == r.pc.sequence;
        assert t.history[i] == s.history[i];
      }
    }
  }

  /** Only an upload creates a file, and only the one it was after. */
  lemma OnlyUploadsCreate(s: State, step: Step)
    requires Enabled(s, step)
    ensures !step.Upload? ==> forall n :: !Created(n, s, Apply(s, step))
    ensures step.Upload? ==>
              var r := s.runs[step.id];
              var t := Apply(s, step);
              && (forall n :: Created(n, s, t) ==> n == r.pc.next)
              && step.id in t.runs && (Created(r.pc.next, s, t) <==> t.runs[step.id].pc.Swapping?)
              && (t.runs[step.id].pc.Swapping? ==> t.runs[step.id].pc.next == r.pc.next)
  {
  }

  lemma UploadIsHonest(s: State, id: nat, signature: string, d: Deeds)
    requires Inv(s) && Enabled(s, Upload(id, signature)) && Honest(s, s.runs[id], d) && DryOk(s.runs[id], d)
    ensures var t := Apply(s, Upload(id, signature));
            id in t.runs && var after := Deed(d, Upload(id, signature), s, t); Honest(t, t.runs[id], after) && DryOk(t.runs[id], after)
  {
    OnlyUploadsCreate(s, Upload(id, signature));
  }

  lemma SwapIsHonest(s: State, id: nat, generation: nat, d: Deeds)
    requires Inv(s) && Enabled(s, Swap(id, generation)) && Honest(s, s.runs[id], d) && DryOk(s.runs[id], d)
    ensures var t := Apply(s, Swap(id, generation));
            id in t.runs && var after := Deed(d, Swap(id, generation), s, t); Honest(t, t.runs[id], after) && DryOk(t.runs[id], after)
  {
    OnlyUploadsCreate(s, Swap(id, generation));
    assert RunOk(s, s.runs[id]);
    var t := Apply(s, Swap(id, generation));
    if t.history != s.history {
      assert t.history[|s.history|].bytes == t.versions[s.runs[id].pc.next];
      assert PublishedOwn(t, Deed(d, Swap(id, generation), s, t), t.runs[id].pc.sequence);
    }
  }

  lemma RereadIsHonest(s: State, id: nat, d: Deeds)
    requires Inv(s) && Enabled(s, Reread(id)) && Honest(s, s.runs[id], d) && DryOk(s.runs[id], d)
    ensures var t := Apply(s, Reread(id));
            id in t.runs && var after := Deed(d, Reread(id), s, t); Honest(t, t.runs[id], after) && DryOk(t.runs[id], after)
  {
    OnlyUploadsCreate(s, Reread(id));
    assert RunOk(s, s.runs[id]);
    var t := Apply(s, Reread(id));
    if t.runs[id].pc.Done? {
      assert Live(t.history[|t.history| - 1].bytes) && t.history[|t.history| - 1].bytes.payload.sequence == t.runs[id].pc.sequence;
      assert Overtaken(t, Deed(d, Reread(id), s, t), t.runs[id].pc.sequence);
    }
  }

  /** Spawning, reading, listing and dying write nothing. */
  lemma QuietStepIsHonest(s: State, step: Step, d: Deeds)
    requires Inv(s) && Enabled(s, step) && (step.Spawn? || step.Read? || step.List? || step.Crash?)
    requires if step.Spawn? then d == Deeds(0, None, 0) else Honest(s, s.runs[step.id], d) && DryOk(s.runs[step.id], d)
    ensures var t := Apply(s, step);
            step.id in t.runs && var after := Deed(d, step, s, t); Honest(t, t.runs[step.id], after) && DryOk(t.runs[step.id], after)
  {
    OnlyUploadsCreate(s, step);
    OtherStepsWriteNothing(s, step);
    if !step.Spawn? {
      assert RunOk(s, s.runs[step.id]);
    }
  }

  lemma StepIsHonest(s: State, step: Step, d: Deeds)
    requires Inv(s) && Enabled(s, step)
    requires if step.Spawn? then d == Deeds(0, None, 0) else Honest(s, s.runs[step.id], d) && DryOk(s.runs[step.id], d)
    ensures var t := Apply(s, step);
            step.id in t.runs && var after := Deed(d, step, s, t); Honest(t, t.runs[step.id], after) && DryOk(t.runs[step.id], after)
  {
    match step
    case Upload(id, signature) => UploadIsHonest(s, id, signature, d);
    case Swap(id, generation) => SwapIsHonest(s, id, generation, d);
    case Reread(id) => RereadIsHonest(s, id, d);
    case _ => QuietStepIsHonest(s, step, d);
  }

  lemma {:induction false} BehaveIsHonest(s: State, steps: seq<Step>)
    requires Quiet(s) && Behave(s, steps).Some?
    ensures Inv(Behave(s, steps).value) && AllHonest(s, steps, Behave(s, steps).value)
    decreases |steps|
  {
    QuietIsInv(s);
    BehaveKeepsInv(s, steps);
    if steps != [] {
      var init, last := steps[..|steps| - 1], steps[|steps| - 1];
      BehaveSnoc(s, steps);
      BehaveIsHonest(s, init);
      var u, t := Behave(s, init).value, Behave(s, steps).value;
      StepIsHonest(u, last, DeedsOf(s, init, last.id));
      StepExtends(u, last);
      forall id: nat | id != last.id
        ensures DeedsOf(s, steps, id) == DeedsOf(s, init, id) && (id in t.runs <==> id in u.runs)
        ensures id in t.runs ==> Honest(t, t.runs[id], DeedsOf(s, steps, id)) && DryOk(t.runs[id], DeedsOf(s, steps, id))
      {
        StepTouchesOneRun(u, last, id);
        if id in u.runs {
          HonestIsStable(u, t, u.runs[id], DeedsOf(s, init, id));
        }
      }
    }
  }

  /**
   Along every schedule a run that returned q has created a version file, the last of them
   some n, and either replaced `latest.json` exactly once, by that very file, and q is n; or
   replaced nothing, and q is the sequence of a bundle that went live with n <= q.
   A run that gave up has made five attempts and published nothing. A dry run, however it
   ends, has created and replaced nothing.
   */
  lemma ReturnedIsPublished(s: State, steps: seq<Step>, id: nat)
    requires Quiet(s) && Behave(s, steps).Some? && id in Behave(s, steps).value.runs
    ensures var t := Behave(s, steps).value;
            var d := DeedsOf(s, steps, id);
            && d.tries <= ATTEMPTS
            && (t.runs[id].pc.Done? ==>
                  var q := t.runs[id].pc.sequence;
                  && d.file.Some? && d.file.value <= q
                  && (PublishedOwn(t, d, q) || Overtaken(t, d, q)))
            && (t.runs[id].pc == Failed(GaveUp) ==> d.tries == 5 && d.replaced == 0)
            && (t.runs[id].pc.Failed? && t.runs[id].pc.why != Crashed ==> d.replaced == 0)
            && (t.runs[id].options.dryRun ==> d.file.None? && d.replaced == 0 && !t.runs[id].pc.Done?)
  {
    BehaveIsHonest(s, steps);
  }

  /**
   After a lost swap: the run is content exactly when what is live now is at or above the last
   file it created, and otherwise starts over exactly while it has made fewer than ATTEMPTS attempts.
   */
  lemma LostSwapIsDecided(s: State, steps: seq<Step>, id: nat)
    requires Quiet(s) && Behave(s, steps).Some? && Enabled(Behave(s, steps).value, Reread(id))
    ensures var t := Behave(s, steps).value;
            var d := DeedsOf(s, steps, id);
            var live := Latest(t).bytes;
            var pc := Apply(t, Reread(id)).runs[id].pc;
            && d.file.Some? && d.replaced == 0
            && (Live(live) && live.payload.sequence >= d.file.value <==> pc.Done?)
            && (Live(live) && live.payload.sequence < d.file.value && d.tries < ATTEMPTS <==> pc.Begin?)
            && (Live(live) && live.payload.sequence < d.file.value && d.tries == ATTEMPTS <==> pc == Failed(GaveUp))
  {
    BehaveIsHonest(s, steps);
    var t := Behave(s, steps).value;
    assert Honest(t, t.runs[id], DeedsOf(s, steps, id));
  }

  // ---- why a run ends as it does, and how it numbers its files --------------------

  /** Some version file or some bundle that was live has this number. */
  ghost predicate InUse(s: State, n: int) {
    || (n >= 0 && n in s.versions)
    || exists i :: 0 <= i < |s.history| && Live(s.history[i].bytes) && s.history[i].bytes.payload.sequence == n
  }

  /** How a run may end on account of a bundle it found live. */
  ghost predicate Excuse(s: State, r: Run, live: Bytes)
    requires live.Signed?
  {
    match r.pc
    case DryRun(n) => r.options.dryRun && live.keyId == r.options.keyId && live.payload.sequence < n <= MAX_SEQUENCE && InUse(s, n - 1)
    case Failed(KeyChanged) => live.keyId != r.options.keyId
    case Failed(Collision) => exists n <- s.versions :: n - live.payload.sequence > ATTEMPTS
    case _ => false
  }

  ghost predicate Reasoned(s: State, r: Run) {
    match r.pc
    case Uploading(_, _, _, _, next) => InUse(s, next - 1)
    case Swapping(_, next, _) => InUse(s, next - 1)
    case Failed(InvalidLive) => exists i :: 0 <= i < |s.history| && !Live(s.history[i].bytes)
    case Failed(Overflow) => exists n :: n >= MAX_SEQUENCE && InUse(s, n)
    case Failed(GaveUp) => true
    case Failed(Crashed) => true
    case Failed(_) => exists i: nat :: LiveAt(s, i) && Excuse(s, r, s.history[i].bytes)
    case DryRun(_) => exists i: nat :: LiveAt(s, i) && Excuse(s, r, s.history[i].bytes)
    case _ => true
  }

  /** Every file that was not there at first is numbered one above a number in use. */
  ghost predicate NoGaps(initial: State, s: State) {
    forall n <- s.versions :: n in initial.versions || InUse(s, n - 1)
  }

  lemma InUseIsStable(s: State, t: State, n: int)
    requires Extends(s, t) && InUse(s, n)
    ensures InUse(t, n)
  {
    if !(n >= 0 && n in s.versions) {
      var i :| 0 <= i < |s.history| && Live(s.history[i].bytes) && s.history[i].bytes.payload.sequence == n;
      assert t.history[i] == s.history[i];
    }
  }

  lemma ExcuseIsStable(s: State, t: State, r: Run, i: nat)
    requires Extends(s, t) && LiveAt(s, i) && Excuse(s, r, s.history[i].bytes)
    ensures LiveAt(t, i) && Excuse(t, r, t.history[i].bytes)
  {
    assert t.history[i] == s.history[i];
    if r.pc.DryRun? {
      InUseIsStable(s, t, r.pc.sequence - 1);
    }
  }

  lemma ReasonedIsStable(s: State, t: State, r: Run)
    requires Extends(s, t) && Reasoned(s, r)
    ensures Reasoned(t, r)
  {
    match r.pc
    case Uploading(_, _, _, _, next) => InUseIsStable(s, t, next - 1);
    case Swapping(_, next, _) => InUseIsStable(s, t, next - 1);
    case Failed(InvalidLive) =>
      var i :| 0 <= i < |s.history| && !Live(s.history[i].bytes);
      assert t.history[i] == s.history[i];
    case Failed(Overflow) =>
      var n :| n >= MAX_SEQUENCE && InUse(s, n);
      InUseIsStable(s, t, n);
    case _ =>
      if i: nat :| LiveAt(s, i) && Excuse(s, r, s.history[i].bytes) {
        ExcuseIsStable(s, t, r, i);
      }
  }

  lemma ListIsReasoned(s: State, id: nat, found: nat, issuedAt: int)
    requires Inv(s) && Enabled(s, List(id, found, issuedAt))
    ensures var t := Apply(s, List(id, found, issuedAt)); id in t.runs && Reasoned(t, t.runs[id])
  {
    var r := s.runs[id];
    var live := s.history[r.pc.at].bytes;
    var highest := Max(live.payload.sequence, found);
    assert InUse(s, highest) by {
      assert Live(s.history[r.pc.at].bytes);
      assert found != 0 ==> InUse(s, found);
      assert InUse(s, live.payload.sequence);
    }
    var t := Apply(s, List(id, found, issuedAt));
    assert Extends(s, t);
    InUseIsStable(s, t, highest);
    assert LiveAt(t, r.pc.at) && t.history[r.pc.at].bytes == live;
  }

  lemma UploadIsReasoned(s: State, id: nat, signature: string)
    requires Inv(s) && Enabled(s, Upload(id, signature)) && Reasoned(s, s.runs[id])
    ensures var t := Apply(s, Upload(id, signature)); id in t.runs && Reasoned(t, t.runs[id])
  {
    var r := s.runs[id];
    assert RunOk(s, r);
    var t := Apply(s, Upload(id, signature));
    assert Extends(s, t);
    InUseIsStable(s, t, r.pc.next - 1);
    assert LiveAt(t, r.pc.at) && t.history[r.pc.at].bytes == s.history[r.pc.at].bytes;
  }

  lemma StepIsReasoned(s: State, step: Step)
    requires Inv(s) && Enabled(s, step) && (step.Spawn? || Reasoned(s, s.runs[step.id]))
    ensures var t := Apply(s, step); step.id in t.runs && Reasoned(t, t.runs[step.id])
  {
    match step
    case List(id, found, issuedAt) => ListIsReasoned(s, id, found, issuedAt);
    case Upload(id, signature) => UploadIsReasoned(s, id, signature);
    case Read(id) =>
      assert Apply(s, step).history == s.history && s.history[|s.history| - 1] == Latest(s);
    case Reread(id) =>
      assert Apply(s, step).history == s.history && s.history[|s.history| - 1] == Latest(s);
    case _ =>
  }

  lemma StepLeavesNoGap(initial: State, s: State, step: Step)
    requires Inv(s) && Enabled(s, step) && NoGaps(initial, s) && (step.Spawn? || Reasoned(s, s.runs[step.id]))
    ensures NoGaps(initial, Apply(s, step))
  {
    StepExtends(s, step);
    CreatesAboveUsed(s, step);
    NoGapsExtend(initial, s, Apply(s, step));
  }

  lemma CreatesAboveUsed(s: State, step: Step)
    requires Enabled(s, step) && (step.Upload? ==> InUse(s, s.runs[step.id].pc.next - 1))
    ensures forall n: nat :: Created(n, s, Apply(s, step)) ==> InUse(s, n - 1)
  {
    OnlyUploadsCreate(s, step);
  }

  lemma NoGapsExtend(initial: State, s: State, t: State)
    requires NoGaps(initial, s) && Extends(s, t)
    requires forall n: nat :: Created(n, s, t) ==> InUse(s, n - 1)
    ensures NoGaps(initial, t)
  {
    forall n <- t.versions ensures n in initial.versions || InUse(t, n - 1) {
      assert n in s.versions || Created(n, s, t);
      if n !in initial.versions {
        InUseIsStable(s, t, n - 1);
      }
    }
  }

  lemma {:induction false} BehaveIsReasoned(initial: State, s: State, steps: seq<Step>)
    requires Inv(s) && NoGaps(initial, s) && (forall id <- s.runs :: Reasoned(s, s.runs[id])) && Behave(s, steps).Some?
    ensures var t := Behave(s, steps).value; NoGaps(initial, t) && forall id <- t.runs :: Reasoned(t, t.runs[id])
    decreases |steps|
  {
    if steps != [] {
      var t := Apply(s, steps[0]);
      StepKeepsInv(s, steps[0]);
      StepExtends(s, steps[0]);
      StepIsReasoned(s, steps[0]);
      StepLeavesNoGap(initial, s, steps[0]);
      forall id <- t.runs ensures Reasoned(t, t.runs[id]) {
        if id != steps[0].id {
          StepTouchesOneRun(s, steps[0], id);
          ReasonedIsStable(s, t, s.runs[id]);
        }
      }
      BehaveIsReasoned(initial, t, steps[1..]);
    }
  }

  /**
   Along every schedule: a run refuses the live object, its key, an exhausted range or a
   crowd only when there was one; a dry run announces a number above what was live under its
   own key; and every number a run gives a file or announces follows one already in use, so
   the files of all runs together leave no gap.
   */
  lemma RunsEndForAReason(s: State, steps: seq<Step>, id: nat)
    requires Quiet(s) && Behave(s, steps).Some?
    ensures var t := Behave(s, steps).value;
            && (forall n <- t.versions :: n in s.versions || InUse(t, n - 1))
            && (id in t.runs ==> Reasoned(t, t.runs[id]))
  {
    QuietIsInv(s);
    BehaveIsReasoned(s, s, steps);
  }

  /** The bundle a run makes of the live one. */
  function Successor(live: Bytes, options: Options, sequence: int, issuedAt: int, signature: string): Bytes
    requires live.Signed?
  {
    var was := live.payload;
    Signed(Payload(if options.fromSource.Some? then options.fromSource.value else was.policies, sequence, issuedAt,
                   was.expiresAt, was.env, was.profile, was.registryRef), signature, live.keyId)
  }

  lemma BehaveTwo(s: State, a: Step, b: Step)
    requires Enabled(s, a) && Enabled(Apply(s, a), b)
    ensures Behave(s, [a, b]) == Some(Apply(Apply(s, a), b))
  {
    assert [a, b][1..] == [b] && [b][1..] == [];
    assert Behave(Apply(s, a), [b]) == Behave(Apply(Apply(s, a), b), []);
  }

  lemma BehaveFour(s: State, a: Step, b: Step, c: Step, d: Step)
    requires Enabled(s, a) && Enabled(Apply(s, a), b)
    requires var u := Apply(Apply(s, a), b); Enabled(u, c) && Enabled(Apply(u, c), d)
    ensures Behave(s, [a, b, c, d]) == Some(Apply(Apply(Apply(Apply(s, a), b), c), d))
  {
    assert [a, b, c, d][1..] == [b, c, d] && [b, c, d][1..] == [c, d];
    BehaveTwo(Apply(Apply(s, a), b), c, d);
  }

  /** A run about to begin an attempt on a live bundle, and a listing it may get when nobody else is there. */
  ghost predicate Undisturbed(t: State, id: nat, found: nat) {
    && id in t.runs && t.runs[id].pc.Begin? && t.history != []
    && Latest(t).bytes.Signed? && 1 <= Latest(t).bytes.payload.sequence <= LAST_SAFE
    && ListingMayReturn(found, t.versions.Keys, t.versions)
  }

  /** 2^53 - 1 */
  const LAST_SAFE := 9_007_199_254_740_991

  function NextNumber(live: Bytes, found: nat): nat
    requires live.Signed? && live.payload.sequence >= 1
  {
    if live.payload.sequence < found then found + 1 else live.payload.sequence + 1
  }

  /** The state after `Read` and `List`. */
  lemma Looks(t: State, id: nat, found: nat, issuedAt: int)
    requires Undisturbed(t, id, found)
    ensures Enabled(t, Read(id)) && Enabled(Apply(t, Read(id)), List(id, found, issuedAt))
    ensures var r := t.runs[id];
            var live := Latest(t).bytes;
            var next := NextNumber(live, found);
            var u := Apply(Apply(t, Read(id)), List(id, found, issuedAt));
            var policies := if r.options.fromSource.Some? then r.options.fromSource.value else live.payload.policies;
            && u.history == t.history && u.versions == t.versions && u.runs.Keys == t.runs.Keys && id in u.runs
            && u.runs[id].options == r.options
            && u.runs[id].pc ==
               (if next > MAX_SEQUENCE then Failed(Overflow)
                else if r.options.dryRun then (if r.options.keyId == live.keyId then DryRun(next) else Failed(KeyChanged))
                else Uploading(|t.history| - 1, t.versions.Keys, policies, issuedAt, next))
  {
  }

  /** The state after `Upload` and `Swap`, while what was read is still live and the number is free. */
  lemma Publishes(u: State, id: nat, signature: string, generation: nat, live: Bytes, policies: seq<string>, next: nat)
    requires u.history != [] && live == Latest(u).bytes && Live(live) && id in u.runs && u.runs[id].pc.Uploading?
    requires var pc := u.runs[id].pc; pc.at == |u.history| - 1 && pc.next == next && next !in u.versions && pc.policies == policies
    requires generation != 0 && forall o <- u.history :: o.generation != generation
    ensures Enabled(u, Upload(id, signature))
    ensures var w := Apply(u, Upload(id, signature));
            if u.runs[id].options.keyId != live.keyId then
              w.history == u.history && w.versions == u.versions && id in w.runs && w.runs[id].pc == Failed(KeyChanged)
            else
              var child := Sign(live, policies, u.runs[id].pc.issuedAt, next, signature, live.keyId);
              Enabled(w, Swap(id, generation))
              && var end := Apply(w, Swap(id, generation));
                 && end.history == u.history + [Object(child, generation)] && end.versions == u.versions[next := child]
                 && id in end.runs && end.runs[id].pc == Done(next)
  {
  }

  /**
   An attempt nobody disturbs, in whatever state earlier runs left the bucket: it takes one
   above the higher of the live sequence and the highest version file, writes that one file
   and makes it live, and changes nothing else. A dry run only announces the number. Beyond
   the last safe integer, or with another key, it fails and writes nothing.
   */
  lemma UndisturbedAttempt(t: State, id: nat, found: nat, issuedAt: int, signature: string, generation: nat)
    requires Undisturbed(t, id, found)
    requires generation != 0 && forall o <- t.history :: o.generation != generation
    ensures var live := Latest(t).bytes;
            var options := t.runs[id].options;
            var next := NextNumber(live, found);
            var child := Successor(live, options, next, issuedAt, signature);
            var looked := Behave(t, [Read(id), List(id, found, issuedAt)]);
            var tried := Behave(t, [Read(id), List(id, found, issuedAt), Upload(id, signature), Swap(id, generation)]);
            && next !in t.versions
            && (next > LAST_SAFE ==> Leaves(looked, id, t.history, t.versions, Failed(Overflow)))
            && (next <= LAST_SAFE && options.dryRun ==>
                  Leaves(looked, id, t.history, t.versions, if options.keyId == live.keyId then DryRun(next) else Failed(KeyChanged)))
            && (next <= LAST_SAFE && !options.dryRun && options.keyId != live.keyId ==>
                  looked.Some? && Enabled(looked.value, Upload(id, signature))
                  && Leaves(Some(Apply(looked.value, Upload(id, signature))), id, t.history, t.versions, Failed(KeyChanged)))
            && (next <= LAST_SAFE && !options.dryRun && options.keyId == live.keyId ==>
                  Leaves(tried, id, t.history + [Object(child, generation)], t.versions[next := child], Done(next)))
  {
    var live := Latest(t).bytes;
    var next := NextNumber(live, found);
    var options := t.runs[id].options;
    Looks(t, id, found, issuedAt);
    BehaveTwo(t, Read(id), List(id, found, issuedAt));
    var u := Apply(Apply(t, Read(id)), List(id, found, issuedAt));
    if next <= LAST_SAFE && !options.dryRun {
      Publishes(u, id, signature, generation, live, u.runs[id].pc.policies, next);
      if options.keyId == live.keyId {
        BehaveFour(t, Read(id), List(id, found, issuedAt), Upload(id, signature), Swap(id, generation));
      }
    }
  }

  ghost predicate Leaves(s: Option<State>, id: nat, history: seq<Object>, versions: map<nat, Bytes>, pc: Pc) {
    s.Some? && s.value.history == history && s.value.versions == versions && id in s.value.runs && s.value.runs[id].pc == pc
  }

  lemma {:induction false} Highest(numbers: set<nat>) returns (n: nat)
    ensures (numbers == {} && n == 0) || n in numbers
    ensures forall m <- numbers :: m <= n
    decreases |numbers|
  {
    if numbers == {} {
      return 0;
    }
    var one :| one in numbers;
    var rest := Highest(numbers - {one});
    assert forall m <- numbers :: m == one || m in numbers - {one};
    n := if one < rest then rest else one;
  }

  /** Along every schedule, a run that has not ended can take a step other than dying, and can die. */
  lemma RunsAreNeverStuck(s: State, steps: seq<Step>, id: nat)
    requires Quiet(s) && Behave(s, steps).Some?
    requires var t := Behave(s, steps).value; id in t.runs && var pc := t.runs[id].pc; !pc.Done? && !pc.DryRun? && !pc.Failed?
    ensures exists step: Step :: step.id == id && !step.Crash? && Enabled(Behave(s, steps).value, step)
    ensures Enabled(Behave(s, steps).value, Crash(id)) && Apply(Behave(s, steps).value, Crash(id)).runs[id].pc == Failed(Crashed)
  {
    QuietIsInv(s);
    BehaveKeepsInv(s, steps);
    var t := Behave(s, steps).value;
    assert RunOk(t, t.runs[id]);
    var found := Highest(t.versions.Keys);
    var generations := set o <- t.history :: o.generation;
    var generation := Highest(generations);
    assert forall o <- t.history :: o.generation in generations;
    var step := match t.runs[id].pc
      case Begin => Read(id)
      case Listing(_, _) => List(id, found, 0)
      case Uploading(_, _, _, _, _) => Upload(id, "")
      case Swapping(_, _, _) => Swap(id, generation + 1)
      case _ => Reread(id);
    assert Enabled(t, step);
  }

  // ---- conserved content ---------------------------------------------------------

  /** The fields no run may change, and the policies too when no run signs from a checkout. */
  ghost predicate Kin(policiesToo: bool, a: Bytes, b: Bytes) {
    && a.Signed? && b.Signed?
    && a.keyId == b.keyId
    && a.payload.env == b.payload.env
    && a.payload.profile == b.payload.profile
    && a.payload.registryRef == b.payload.registryRef
    && a.payload.expiresAt == b.payload.expiresAt
    && (policiesToo ==> a.payload.policies == b.payload.policies)
  }

  ghost predicate Conserved(initial: State, s: State, frozen: bool) {
    && |initial.history| == 1 && initial.history <= s.history
    && (forall i | 1 <= i < |s.history| :: Kin(frozen, s.history[0].bytes, s.history[i].bytes))
    && (forall n <- s.versions :: n in initial.versions || Kin(frozen, s.history[0].bytes, s.versions[n]))
    && (frozen ==> forall id <- s.runs :: s.runs[id].options.fromSource.None?)
  }

  predicate SignsLiveContentOnly(step: Step) {
    step.Spawn? ==> step.options.fromSource.None?
  }

  lemma UploadConserves(initial: State, s: State, frozen: bool, id: nat, signature: string)
    requires Inv(s) && Enabled(s, Upload(id, signature)) && Conserved(initial, s, frozen)
    ensures Conserved(initial, Apply(s, Upload(id, signature)), frozen)
  {
    var r := s.runs[id];
    assert RunOk(s, r);
    assert Kin(frozen, s.history[0].bytes, s.history[r.pc.at].bytes);
  }

  lemma SwapConserves(initial: State, s: State, frozen: bool, id: nat, generation: nat)
    requires Inv(s) && Enabled(s, Swap(id, generation)) && Conserved(initial, s, frozen)
    ensures Conserved(initial, Apply(s, Swap(id, generation)), frozen)
  {
    var r := s.runs[id];
    assert RunOk(s, r);
    assert Kin(frozen, s.history[0].bytes, s.history[r.pc.at].bytes);
  }

  /** The other steps write nothing. */
  lemma OtherStepsWriteNothing(s: State, step: Step)
    requires Enabled(s, step) && !step.Upload? && !step.Swap?
    ensures Apply(s, step).history == s.history && Apply(s, step).versions == s.versions
    ensures forall id <- Apply(s, step).runs ::
              Apply(s, step).runs[id].options == if step.Spawn? && id == step.id then step.options else s.runs[id].options
  {
  }

  lemma StepConserves(initial: State, s: State, frozen: bool, step: Step)
    requires Inv(s) && Enabled(s, step) && Conserved(initial, s, frozen)
    requires frozen ==> SignsLiveContentOnly(step)
    ensures Conserved(initial, Apply(s, step), frozen)
  {
    match step
    case Upload(id, signature) => UploadConserves(initial, s, frozen, id, signature);
    case Swap(id, generation) => SwapConserves(initial, s, frozen, id, generation);
    case _ => OtherStepsWriteNothing(s, step);
  }

  /**
   Along every schedule, all that runs write keeps the key, environment, profile, registry
   reference and expiry of the initial bundle; and its policies too, when no run signs
   from a source checkout.
   */
  lemma {:induction false} ContentIsConserved(initial: State, s: State, steps: seq<Step>, frozen: bool)
    requires Inv(s) && Conserved(initial, s, frozen) && Behave(s, steps).Some?
    requires frozen ==> forall step <- steps :: SignsLiveContentOnly(step)
    ensures Conserved(initial, Behave(s, steps).value, frozen)
    decreases |steps|
  {
    if steps != [] {
      StepKeepsInv(s, steps[0]);
      StepConserves(initial, s, frozen, steps[0]);
      ContentIsConserved(initial, Apply(s, steps[0]), steps[1..], frozen);
    }
  }

  lemma QuietConserves(s: State, steps: seq<Step>, frozen: bool)
    requires Quiet(s) && Behave(s, steps).Some?
    requires frozen ==> forall step <- steps :: SignsLiveContentOnly(step)
    ensures var t := Behave(s, steps).value;
            && (forall i | 1 <= i < |t.history| :: Kin(frozen, Latest(s).bytes, t.history[i].bytes))
            && (forall n <- t.versions :: n in s.versions || Kin(frozen, Latest(s).bytes, t.versions[n]))
  {
    QuietIsInv(s);
    ContentIsConserved(s, s, steps, frozen);
  }

  // ---- uploads per attempt -------------------------------------------------------

  /** One attempt makes at most ATTEMPTS + 1 version uploads when its live sequence leaves room below 2^53. */
  lemma UploadsPerAttempt(s: State, steps: seq<Step>, id: nat, signature: string)
    requires Quiet(s) && Behave(s, steps).Some?
    requires var t := Behave(s, steps).value;
             && Enabled(t, Upload(id, signature))
             && SequenceAt(t, t.runs[id].pc.at) + ATTEMPTS <= MAX_SEQUENCE
    ensures var t := Behave(s, steps).value;
            Apply(t, Upload(id, signature)).runs[id].uploads <= ATTEMPTS + 1
  {
    QuietIsInv(s);
    BehaveKeepsInv(s, steps);
    var t := Behave(s, steps).value;
    assert RunOk(t, t.runs[id]);
  }

  /** Two runs that each create one file, and a third that keeps finding the last number taken. */
  ghost function CrowdedSchedule(keyId: string, n: nat): seq<Step> {
    var o := Options(None, keyId, false);
    [Spawn(0, o), Spawn(1, o), Spawn(2, o), Read(0), Read(1), Read(2),
     List(0, MAX_SEQUENCE - 1, 0), List(1, MAX_SEQUENCE - 1, 0), List(2, MAX_SEQUENCE - 1, 0),
     Upload(0, ""), Upload(1, ""), Upload(1, ""), Upload(2, "")] + Repeat(Upload(2, ""), n)
  }

  ghost function Repeat(step: Step, n: nat): seq<Step> {
    if n == 0 then [] else [step] + Repeat(step, n - 1)
  }

  /** At 2^53 the counter stops moving, so a taken number is tried again without end. */
  ghost predicate Stuck(s: State) {
    && s.history != [] && 2 in s.runs && s.runs[2].pc.Uploading?
    && s.runs[2].pc.next == MAX_SEQUENCE + 1 && s.runs[2].pc.next in s.versions
    && LiveAt(s, s.runs[2].pc.at)
    && s.runs[2].options.keyId == s.history[s.runs[2].pc.at].bytes.keyId
    && s.runs[2].pc.next - SequenceAt(s, s.runs[2].pc.at) <= ATTEMPTS
  }

  lemma {:induction false} StuckForever(s: State, n: nat)
    requires Stuck(s)
    ensures var t := Behave(s, Repeat(Upload(2, ""), n));
            t.Some? && 2 in t.value.runs && t.value.runs[2].uploads == s.runs[2].uploads + n
    decreases n
  {
    if n > 0 {
      var steps := Repeat(Upload(2, ""), n);
      assert steps[0] == Upload(2, "") && steps[1..] == Repeat(Upload(2, ""), n - 1);
      StuckForever(Apply(s, Upload(2, "")), n - 1);
    }
  }

  /** A live bundle just below the safe-integer limit, with one orphaned version file right under the limit. */
  ghost function CrowdedBucket(payload: Payload, keyId: string): State {
    var bytes := Signed(payload, "", keyId);
    State([Object(bytes, 1)], map[MAX_SEQUENCE - 1 := bytes], map[])
  }

  /** The crowded bucket with three runs at the same point. */
  ghost function Crowd(payload: Payload, keyId: string, pc: Pc): State {
    var r := Run(Options(None, keyId, false), pc, 1, 1, 0);
    CrowdedBucket(payload, keyId).(runs := map[0 := r, 1 := r, 2 := r])
  }

  lemma ThreeSteps(s: State, steps: seq<Step>, i: nat)
    requires i + 3 <= |steps|
    requires Enabled(s, steps[i])
    requires var a := Apply(s, steps[i]); Enabled(a, steps[i + 1]) && Enabled(Apply(a, steps[i + 1]), steps[i + 2])
    ensures var t := Apply(Apply(Apply(s, steps[i]), steps[i + 1]), steps[i + 2]);
            Behave(s, steps[i..]) == Behave(t, steps[i + 3..])
  {
    OneStep(s, steps, i);
    OneStep(Apply(s, steps[i]), steps, i + 1);
    OneStep(Apply(Apply(s, steps[i]), steps[i + 1]), steps, i + 2);
  }

  lemma OneStep(s: State, steps: seq<Step>, i: nat)
    requires i < |steps| && Enabled(s, steps[i])
    ensures Behave(s, steps[i..]) == Behave(Apply(s, steps[i]), steps[i + 1..])
  {
    assert steps[i..][0] == steps[i] && steps[i..][1..] == steps[i + 1..];
  }

  lemma CrowdGathers(payload: Payload, keyId: string, n: nat)
    requires MAX_SEQUENCE - ATTEMPTS < payload.sequence < MAX_SEQUENCE
    ensures var steps := CrowdedSchedule(keyId, n);
            Behave(CrowdedBucket(payload, keyId), steps)
            == Behave(Crowd(payload, keyId, Listing(0, {MAX_SEQUENCE - 1})), steps[6..])
  {
    var steps := CrowdedSchedule(keyId, n);
    var s := CrowdedBucket(payload, keyId);
    var spawned := Crowd(payload, keyId, Begin);
    assert Apply(Apply(Apply(s, steps[0]), steps[1]), steps[2]) == spawned;
    ThreeSteps(s, steps, 0);
    assert steps[0..] == steps;
    assert s.versions.Keys == {MAX_SEQUENCE - 1};
    assert Apply(Apply(Apply(spawned, steps[3]), steps[4]), steps[5]) == Crowd(payload, keyId, Listing(0, {MAX_SEQUENCE - 1}));
    ThreeSteps(spawned, steps, 3);
  }

  lemma CrowdLists(payload: Payload, keyId: string, n: nat)
    requires MAX_SEQUENCE - ATTEMPTS < payload.sequence < MAX_SEQUENCE
    ensures var steps := CrowdedSchedule(keyId, n);
            Behave(Crowd(payload, keyId, Listing(0, {MAX_SEQUENCE - 1})), steps[6..])
            == Behave(Crowd(payload, keyId, Uploading(0, {MAX_SEQUENCE - 1}, payload.policies, 0, MAX_SEQUENCE)), steps[9..])
  {
    var steps := CrowdedSchedule(keyId, n);
    var s := Crowd(payload, keyId, Listing(0, {MAX_SEQUENCE - 1}));
    var listed := Crowd(payload, keyId, Uploading(0, {MAX_SEQUENCE - 1}, payload.policies, 0, MAX_SEQUENCE));
    assert Apply(Apply(Apply(s, steps[6]), steps[7]), steps[8]) == listed;
    ThreeSteps(s, steps, 6);
  }

  /**
   Without that room the bound fails: for every live sequence above MAX_SEQUENCE - ATTEMPTS
   (and below MAX_SEQUENCE, where the run refuses to start) and every n there is a schedule
   in which one attempt uploads more than n times.
   */
  lemma UploadsWithoutBound(payload: Payload, keyId: string, n: nat)
    requires MAX_SEQUENCE - ATTEMPTS < payload.sequence < MAX_SEQUENCE
    ensures var s := CrowdedBucket(payload, keyId);
            var t := Behave(s, CrowdedSchedule(keyId, n));
            Quiet(s) && t.Some? && 2 in t.value.runs && t.value.runs[2].uploads == n + 1
  {
    var steps := CrowdedSchedule(keyId, n);
    CrowdGathers(payload, keyId, n);
    CrowdLists(payload, keyId, n);
    var s := Crowd(payload, keyId, Uploading(0, {MAX_SEQUENCE - 1}, payload.policies, 0, MAX_SEQUENCE));
    CrowdIsStuck(payload, keyId, steps);
    ThreeSteps(s, steps, 9);
    var s12 := Apply(Apply(Apply(s, steps[9]), steps[10]), steps[11]);
    OneStep(s12, steps, 12);
    assert steps[13..] == Repeat(Upload(2, ""), n);
    StuckForever(Apply(s12, steps[12]), n);
  }

  lemma CrowdIsStuck(payload: Payload, keyId: string, steps: seq<Step>)
    requires MAX_SEQUENCE - ATTEMPTS < payload.sequence < MAX_SEQUENCE
    requires |steps| > 12 && steps[9] == Upload(0, "") && steps[10] == steps[11] == Upload(1, "") && steps[12] == Upload(2, "")
    ensures var s := Crowd(payload, keyId, Uploading(0, {MAX_SEQUENCE - 1}, payload.policies, 0, MAX_SEQUENCE));
            && Enabled(s, steps[9]) && Enabled(Apply(s, steps[9]), steps[10])
            && Enabled(Apply(Apply(s, steps[9]), steps[10]), steps[11])
            && var s12 := Apply(Apply(Apply(s, steps[9]), steps[10]), steps[11]);
               Enabled(s12, steps[12]) && Stuck(Apply(s12, steps[12])) && Apply(s12, steps[12]).runs[2].uploads == 1
  {
  }

  // ---- listing -------------------------------------------------------------------

  /** The number in a name matching `/\/([1-9][0-9]*)\.json$/`. */
  function VersionOf(name: string): Option<nat> {
    if !EndsWith(name, ".json") then None else
    var stem := name[..|name| - 5];
    var k := AfterLast(stem, '/');
    if k > 0 && IsPositiveDecimal(stem[k..]) then Some(Value(stem[k..])) else None
  }

  lemma VersionOfFileName(prefix: string, n: nat)
    requires n > 0
    ensures VersionOf(prefix + "/" + Digits(n) + ".json") == Some(n)
    ensures VersionOf(prefix + "/" + "latest" + ".json") == None
  {
    DigitsRoundTrip(n);
    AfterLastSlash(prefix, Digits(n));
    VersionOfStem(prefix + "/" + Digits(n), Digits(n), |prefix| + 1, ".json");
    AfterLastSlash(prefix, "latest");
    VersionOfStem(prefix + "/" + "latest", "latest", |prefix| + 1, ".json");
    assert !IsPositiveDecimal("latest") by { assert 'l' in "latest"; }
  }

  lemma {:induction false} ValueRoundTrip(s: string)
    requires IsPositiveDecimal(s)
    ensures Value(s) > 0 && Digits(Value(s)) == s
    decreases |s|
  {
    var init, last := s[..|s| - 1], s[|s| - 1];
    assert last in s && s == init + [last];
    if init == "" {
      assert Value(init) == 0;
    } else {
      assert forall c <- init :: c in s;
      ValueRoundTrip(init);
    }
  }

  /** And nothing but the name of a version file passes the test. */
  lemma OnlyVersionFilesAreCounted(name: string)
    requires VersionOf(name).Some?
    ensures VersionOf(name).value > 0
    ensures exists prefix :: name == prefix + "/" + Digits(VersionOf(name).value) + ".json"
  {
    var stem := name[..|name| - 5];
    var k := AfterLast(stem, '/');
    ValueRoundTrip(stem[k..]);
    NamedUnder(name, stem, k, ".json");
  }

  lemma NamedUnder(name: string, stem: string, k: nat, suffix: string)
    requires EndsWith(name, suffix) && stem == name[..|name| - |suffix|] && 0 < k <= |stem| && stem[k - 1] == '/'
    ensures name == stem[..k - 1] + "/" + stem[k..] + suffix
  {
    assert stem == stem[..k - 1] + [stem[k - 1]] + stem[k..];
    assert name == stem + suffix;
  }

  lemma VersionOfStem(stem: string, last: string, k: nat, suffix: string)
    requires suffix == ".json" && AfterLast(stem, '/') == k && 0 < k <= |stem| && stem[k..] == last
    ensures VersionOf(stem + suffix) == if IsPositiveDecimal(last) then Some(Value(last)) else None
  {
    var name := stem + suffix;
    assert |suffix| == 5 && name[..|name| - 5] == stem && name[|name| - 5..] == suffix;
  }

  lemma AfterLastSlash(prefix: string, last: string)
    requires '/' !in last
    ensures AfterLast(prefix + "/" + last, '/') == |prefix| + 1
    ensures (prefix + "/" + last)[|prefix| + 1..] == last
  {
    var s := prefix + "/" + last;
    var k := AfterLast(s, '/');
    assert s[|prefix|] == '/';
  }

  ghost predicate Covers(pages: seq<seq<string>>, known: set<nat>) {
    forall n <- known | n > 0 :: exists page <- pages, name <- page :: VersionOf(name) == Some(n)
  }

  ghost predicate Within(pages: seq<seq<string>>, versions: map<nat, Bytes>) {
    forall page <- pages, name <- page :: VersionOf(name).Some? ==> VersionOf(name).value in versions
  }

  /**
   Highest version number over all pages of the listing, 0 when there is none. Pages that
   cover what existed when the listing began, and name nothing that does not exist, give
   what the protocol's listing step allows.
   */
  method HighestVersionObject(pages: seq<seq<string>>, ghost known: set<nat>, ghost versions: map<nat, Bytes>)
    returns (max: nat)
    ensures Covers(pages, known) && Within(pages, versions) ==> ListingMayReturn(max, known, versions)
    ensures forall page <- pages, name <- page :: VersionOf(name).Some? ==> VersionOf(name).value <= max
    ensures max == 0 || exists page <- pages, name <- page :: VersionOf(name) == Some(max)
  {
    max := 0;
    for i := 0 to |pages|
      invariant forall page <- pages[..i], name <- page :: VersionOf(name).Some? ==> VersionOf(name).value <= max
      invariant max == 0 || exists page <- pages, name <- page :: VersionOf(name) == Some(max)
    {
      TakeNext(pages, i);
      for j := 0 to |pages[i]|
        invariant forall page <- pages[..i], name <- page :: VersionOf(name).Some? ==> VersionOf(name).value <= max
        invariant forall name <- pages[i][..j] :: VersionOf(name).Some? ==> VersionOf(name).value <= max
        invariant max == 0 || exists page <- pages, name <- page :: VersionOf(name) == Some(max)
      {
        TakeNext(pages[i], j);
        var m := VersionOf(pages[i][j]);
        if m.Some? && m.value > max {
          max := m.value;
          assert pages[i] in pages && pages[i][j] in pages[i];
        }
      }
      assert pages[i][..|pages[i]|] == pages[i];
    }
    assert pages[..|pages|] == pages;
  }
}
