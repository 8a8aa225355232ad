/**
 Critical sections made of chained promises: the per-actor lock of the orchestrator and the
 install chain of the policies loader. Arrivals, starts, settlements and clean-ups
 interleave freely; a body may resolve or reject.
 */
module PromiseChain {
  import opened Common

  /**
   The actor lock stores `next.finally(...)` in its map and compares the slot with `next`;
   the loader stores and compares the same promise.
   */
  datatype Discipline = ActorLock | Loader

  /** Two promises per task: the body's own, and the one derived by `finally`. */
  datatype Handle = Next(task: nat) | Derived(task: nat)

  datatype Phase = Waiting | Running | Settled(ok: bool) | Swept(ok: bool)

  datatype Task = Task(key: string, prev: Option<Handle>, phase: Phase)

  /** `tasks` in arrival order, `slots` the map of latest promises, `started` the bodies in the order they began. */
  datatype State = State(tasks: seq<Task>, slots: map<string, Handle>, started: seq<nat>)

  datatype Step = Arrive(key: string) | Begin(task: nat) | Finish(task: nat, ok: bool) | Sweep(task: nat)

  function HandleOf(d: Discipline, i: nat): Handle {
    if d.ActorLock? then Derived(i) else Next(i)
  }

  predicate Done(p: Phase) {
    p.Settled? || p.Swept?
  }

  predicate IsSettled(s: State, h: Handle) {
    h.task < |s.tasks| && (if h.Next? then Done(s.tasks[h.task].phase) else s.tasks[h.task].phase.Swept?)
  }

  predicate Enabled(d: Discipline, s: State, step: Step) {
    match step
    case Arrive(_) => true
    case Begin(i) =>
      i < |s.tasks| && s.tasks[i].phase.Waiting? && (s.tasks[i].prev.None? || IsSettled(s, s.tasks[i].prev.value))
    case Finish(i, _) => i < |s.tasks| && s.tasks[i].phase.Running?
    case Sweep(i) => i < |s.tasks| && s.tasks[i].phase.Settled?
  }

  function At(s: State, i: nat, phase: Phase): State
    requires i < |s.tasks|
  {
    s.(tasks := s.tasks[i := s.tasks[i].(phase := phase)])
  }

  function Apply(d: Discipline, s: State, step: Step): State
    requires Enabled(d, s, step)
  {
    match step
    case Arrive(key) =>
      var prev := if key in s.slots then Some(s.slots[key]) else None;
      s.(tasks := s.tasks + [Task(key, prev, Waiting)], slots := s.slots[key := HandleOf(d, |s.tasks|)])
    case Begin(i) => At(s, i, Running).(started := s.started + [i])
    case Finish(i, ok) => At(s, i, Settled(ok))
    case Sweep(i) =>
      var swept := At(s, i, Swept(s.tasks[i].phase.ok));
      var key := s.tasks[i].key;
      if key in s.slots && s.slots[key] == Next(i) then swept.(slots := s.slots - {key}) else swept
  }

  function Behave(d: Discipline, s: State, steps: seq<Step>): Option<State>
    decreases |steps|
  {
    if steps == [] then Some(s)
    else if !Enabled(d, s, steps[0]) then None
    else Behave(d, Apply(d, s, steps[0]), steps[1..])
  }

  const EMPTY := State([], map[], [])

  // ---- invariant ----------------------------------------------------------------------

  /** No task of `key` strictly between the two positions. */
  ghost predicate NoneBetween(s: State, key: string, low: int, high: int) {
    forall j | 0 <= j < |s.tasks| :: low < j < high ==> s.tasks[j].key != key
  }

  /** Every task of `key` before position `i` is done. */
  ghost predicate DoneBefore(s: State, key: string, i: nat) {
    forall j | 0 <= j < |s.tasks| :: j < i && s.tasks[j].key == key ==> Done(s.tasks[j].phase)
  }

  /** A task follows the previous task of its key, or came when all earlier ones were done. */
  ghost predicate PrevOk(d: Discipline, s: State, i: nat)
    requires i < |s.tasks|
  {
    var t := s.tasks[i];
    match t.prev
    case None => DoneBefore(s, t.key, i)
    case Some(h) => h == HandleOf(d, h.task) && h.task < i && s.tasks[h.task].key == t.key && NoneBetween(s, t.key, h.task, i)
  }

  /** A slot holds the promise of the latest task of its key; an empty one means all are done. */
  ghost predicate SlotOk(d: Discipline, s: State, key: string) {
    if key in s.slots then
      var h := s.slots[key];
      h == HandleOf(d, h.task) && h.task < |s.tasks| && s.tasks[h.task].key == key && NoneBetween(s, key, h.task, |s.tasks|)
    else
      DoneBefore(s, key, |s.tasks|)
  }

  /** A body that has begun found every earlier body of its key done. */
  ghost predicate Ordered(s: State) {
    forall i | 0 <= i < |s.tasks| :: !s.tasks[i].phase.Waiting? ==> DoneBefore(s, s.tasks[i].key, i)
  }

  ghost predicate StartedInOrder(s: State) {
    && (forall i <- s.started :: i < |s.tasks| && !s.tasks[i].phase.Waiting?)
    && forall a, b | 0 <= a < b < |s.started| ::
         && s.started[a] < |s.tasks| && s.started[b] < |s.tasks|
         && (s.tasks[s.started[a]].key == s.tasks[s.started[b]].key ==> s.started[a] < s.started[b])
  }

  ghost predicate Inv(d: Discipline, s: State) {
    && (forall i | 0 <= i < |s.tasks| :: PrevOk(d, s, i))
    && (forall key :: SlotOk(d, s, key))
    && Ordered(s)
    && StartedInOrder(s)
  }

  /** What a step on an existing task keeps: every key and predecessor, and every finished body. */
  ghost predicate Advances(s: State, t: State) {
    && |s.tasks| <= |t.tasks|
    && forall j | 0 <= j < |s.tasks| ::
         && t.tasks[j].key == s.tasks[j].key && t.tasks[j].prev == s.tasks[j].prev
         && (Done(s.tasks[j].phase) ==> Done(t.tasks[j].phase))
  }

  lemma StepAdvances(d: Discipline, s: State, step: Step)
    requires Enabled(d, s, step)
    ensures Advances(s, Apply(d, s, step))
    ensures !step.Arrive? ==> |Apply(d, s, step).tasks| == |s.tasks|
  {
  }

  lemma StablePrev(d: Discipline, s: State, t: State, i: nat)
    requires i < |s.tasks| && PrevOk(d, s, i) && Advances(s, t)
    ensures PrevOk(d, t, i)
  {
  }

  lemma PrevKept(d: Discipline, s: State, step: Step, i: nat)
    requires Inv(d, s) && Enabled(d, s, step) && i < |Apply(d, s, step).tasks|
    ensures PrevOk(d, Apply(d, s, step), i)
  {
    StepAdvances(d, s, step);
    var t := Apply(d, s, step);
    if i < |s.tasks| {
      StablePrev(d, s, t, i);
    } else {
      assert SlotOk(d, s, step.key);
    }
  }

  lemma SlotKept(d: Discipline, s: State, step: Step, key: string)
    requires Inv(d, s) && Enabled(d, s, step)
    ensures SlotOk(d, Apply(d, s, step), key)
  {
    StepAdvances(d, s, step);
    assert SlotOk(d, s, key);
    if step.Sweep? {
      assert DoneBefore(s, s.tasks[step.task].key, step.task);
    }
  }

  /** When a body may begin, every earlier body of its key is done. */
  lemma BeginIsInTurn(d: Discipline, s: State, i: nat)
    requires Inv(d, s) && Enabled(d, s, Begin(i))
    ensures DoneBefore(s, s.tasks[i].key, i)
  {
    assert PrevOk(d, s, i);
    if s.tasks[i].prev.Some? {
      var j := s.tasks[i].prev.value.task;
      assert DoneBefore(s, s.tasks[j].key, j);
    }
  }

  lemma OrderKept(d: Discipline, s: State, step: Step)
    requires Inv(d, s) && Enabled(d, s, step)
    ensures Ordered(Apply(d, s, step))
  {
    StepAdvances(d, s, step);
    var t := Apply(d, s, step);
    if step.Begin? {
      BeginIsInTurn(d, s, step.task);
    }
    forall i | 0 <= i < |t.tasks| && !t.tasks[i].phase.Waiting? ensures DoneBefore(t, t.tasks[i].key, i) {
      assert DoneBefore(s, s.tasks[i].key, i);
    }
  }

  lemma StartsKept(d: Discipline, s: State, step: Step)
    requires Inv(d, s) && Enabled(d, s, step)
    ensures StartedInOrder(Apply(d, s, step))
  {
    StepAdvances(d, s, step);
    var t := Apply(d, s, step);
    forall a | 0 <= a < |s.started| ensures s.started[a] < |s.tasks| && !s.tasks[s.started[a]].phase.Waiting? {
      assert s.started[a] in s.started;
    }
    forall a, b | 0 <= a < b < |t.started| && t.tasks[t.started[a]].key == t.tasks[t.started[b]].key
      ensures t.started[a] < t.started[b]
    {
      if b == |s.started| {
        assert DoneBefore(s, s.tasks[s.started[a]].key, s.started[a]);
      }
    }
  }

  lemma StepKeepsInv(d: Discipline, s: State, step: Step)
    requires Inv(d, s) && Enabled(d, s, step)
    ensures Inv(d, Apply(d, s, step))
  {
    forall i | 0 <= i < |Apply(d, s, step).tasks| ensures PrevOk(d, Apply(d, s, step), i) {
      PrevKept(d, s, step, i);
    }
    forall key ensures SlotOk(d, Apply(d, s, step), key) {
      SlotKept(d, s, step, key);
    }
    OrderKept(d, s, step);
    StartsKept(d, s, step);
  }

  lemma {:induction false} BehaveKeepsInv(d: Discipline, s: State, steps: seq<Step>)
    requires Inv(d, s) && Behave(d, s, steps).Some?
    ensures Inv(d, Behave(d, s, steps).value)
    decreases |steps|
  {
    if steps != [] {
      StepKeepsInv(d, s, steps[0]);
      BehaveKeepsInv(d, Apply(d, s, steps[0]), steps[1..]);
    }
  }

  // ---- every schedule -----------------------------------------------------------------

  /** Under both disciplines and every schedule: one body of a key at a time, begun in order of arrival, each only after all before it ended. */
  lemma OneAtATimeInOrder(d: Discipline, steps: seq<Step>)
    requires Behave(d, EMPTY, steps).Some?
    ensures var t := Behave(d, EMPTY, steps).value;
            && (forall i, j | 0 <= i < |t.tasks| && 0 <= j < |t.tasks| ::
                  t.tasks[i].key == t.tasks[j].key && t.tasks[i].phase.Running? && t.tasks[j].phase.Running? ==> i == j)
            && (forall i, j | 0 <= i < j < |t.tasks| ::
                  t.tasks[i].key == t.tasks[j].key && !t.tasks[j].phase.Waiting? ==> Done(t.tasks[i].phase))
            && (forall a, b | 0 <= a < b < |t.started| ::
                  && t.started[a] < |t.tasks| && t.started[b] < |t.tasks|
                  && (t.tasks[t.started[a]].key == t.tasks[t.started[b]].key ==> t.started[a] < t.started[b]))
  {
    BehaveKeepsInv(d, EMPTY, steps);
    var t := Behave(d, EMPTY, steps).value;
    forall i, j | 0 <= i < j < |t.tasks| && t.tasks[i].key == t.tasks[j].key && !t.tasks[j].phase.Waiting?
      ensures Done(t.tasks[i].phase)
    {
      assert DoneBefore(t, t.tasks[j].key, j);
    }
  }

  lemma {:induction false} WaitingHasAStep(d: Discipline, s: State, i: nat)
    requires Inv(d, s) && i < |s.tasks| && s.tasks[i].phase.Waiting?
    ensures exists step :: Enabled(d, s, step) && !step.Arrive? && step.task <= i && s.tasks[step.task].key == s.tasks[i].key
    decreases i
  {
    assert PrevOk(d, s, i);
    if s.tasks[i].prev.None? || IsSettled(s, s.tasks[i].prev.value) {
      assert Enabled(d, s, Begin(i));
    } else {
      var j := s.tasks[i].prev.value.task;
      match s.tasks[j].phase
      case Waiting => WaitingHasAStep(d, s, j);
      case Running => assert Enabled(d, s, Finish(j, true));
      case Settled(_) => assert Enabled(d, s, Sweep(j));
    }
  }

  /** Nothing blocks a waiting body for ever: it, or a task of its key before it, always has a step to take, whether bodies resolved or rejected. */
  lemma NeverStuck(d: Discipline, steps: seq<Step>, i: nat)
    requires Behave(d, EMPTY, steps).Some?
    requires var t := Behave(d, EMPTY, steps).value; i < |t.tasks| && t.tasks[i].phase.Waiting?
    ensures var t := Behave(d, EMPTY, steps).value;
            exists step :: Enabled(d, t, step) && !step.Arrive? && step.task <= i && t.tasks[step.task].key == t.tasks[i].key
  {
    BehaveKeepsInv(d, EMPTY, steps);
    WaitingHasAStep(d, Behave(d, EMPTY, steps).value, i);
  }

  ghost predicate Slotted(s: State) {
    forall i | 0 <= i < |s.tasks| :: s.tasks[i].key in s.slots
  }

  lemma {:induction false} SlotsAreKept(s: State, steps: seq<Step>)
    requires Inv(ActorLock, s) && Slotted(s) && Behave(ActorLock, s, steps).Some?
    ensures Slotted(Behave(ActorLock, s, steps).value)
    decreases |steps|
  {
    if steps != [] {
      var t := Apply(ActorLock, s, steps[0]);
      assert Slotted(t) by {
        if steps[0].Sweep? {
          assert SlotOk(ActorLock, s, s.tasks[steps[0].task].key);
        }
      }
      StepKeepsInv(ActorLock, s, steps[0]);
      SlotsAreKept(t, steps[1..]);
    }
  }

  /** The actor lock never frees a slot: every actor that ever called has one, even when all its bodies are done and swept. */
  lemma ActorSlotsAreNeverFreed(steps: seq<Step>, i: nat)
    requires Behave(ActorLock, EMPTY, steps).Some? && i < |Behave(ActorLock, EMPTY, steps).value.tasks|
    ensures var t := Behave(ActorLock, EMPTY, steps).value; t.tasks[i].key in t.slots
  {
    SlotsAreKept(EMPTY, steps);
  }

  /** The loader does: when every install has been swept, the slot is empty. */
  lemma LoaderSlotIsFreed(steps: seq<Step>, key: string)
    requires Behave(Loader, EMPTY, steps).Some?
    requires var t := Behave(Loader, EMPTY, steps).value;
             forall i | 0 <= i < |t.tasks| :: t.tasks[i].phase.Swept?
    ensures key !in Behave(Loader, EMPTY, steps).value.slots
  {
    SlotsAreUnswept(EMPTY, steps);
    BehaveKeepsInv(Loader, EMPTY, steps);
    assert SlotOk(Loader, Behave(Loader, EMPTY, steps).value, key);
  }

  ghost predicate UnsweptSlots(s: State) {
    forall key <- s.slots :: s.slots[key].task < |s.tasks| ==> !s.tasks[s.slots[key].task].phase.Swept?
  }

  lemma {:induction false} SlotsAreUnswept(s: State, steps: seq<Step>)
    requires Inv(Loader, s) && UnsweptSlots(s) && Behave(Loader, s, steps).Some?
    ensures UnsweptSlots(Behave(Loader, s, steps).value)
    decreases |steps|
  {
    if steps != [] {
      var t := Apply(Loader, s, steps[0]);
      StepKeepsInv(Loader, s, steps[0]);
      assert UnsweptSlots(t) by {
        forall key <- t.slots | t.slots[key].task < |t.tasks| ensures !t.tasks[t.slots[key].task].phase.Swept? {
          assert SlotOk(Loader, s, key);
        }
      }
      SlotsAreUnswept(t, steps[1..]);
    }
  }

  // ---- whose outcome it is --------------------------------------------------------------

  /** Every body that has begun is logged once, and every outcome is that of the body's own end. */
  ghost predicate Logged(past: seq<Step>, s: State) {
    && (forall i | 0 <= i < |s.tasks| :: i in s.started <==> !s.tasks[i].phase.Waiting?)
    && (forall a, b | 0 <= a < b < |s.started| :: s.started[a] != s.started[b])
    && (forall i <- s.started :: i < |s.tasks|)
    && (forall i | 0 <= i < |s.tasks| && Done(s.tasks[i].phase) :: Finish(i, s.tasks[i].phase.ok) in past)
  }

  lemma StepLogs(d: Discipline, past: seq<Step>, s: State, step: Step)
    requires Logged(past, s) && Enabled(d, s, step)
    ensures Logged(past + [step], Apply(d, s, step))
  {
    var t := Apply(d, s, step);
    forall i | 0 <= i < |t.tasks| && Done(t.tasks[i].phase) ensures Finish(i, t.tasks[i].phase.ok) in past + [step] {
      assert i < |s.tasks|;
      if Done(s.tasks[i].phase) {
        assert Finish(i, s.tasks[i].phase.ok) in past;
      } else {
        assert step == Finish(i, t.tasks[i].phase.ok);
      }
    }
    if step.Begin? {
      assert step.task !in s.started;
    }
  }

  lemma {:induction false} BehaveLogs(d: Discipline, past: seq<Step>, s: State, steps: seq<Step>)
    requires Logged(past, s) && Behave(d, s, steps).Some?
    ensures Logged(past + steps, Behave(d, s, steps).value)
    decreases |steps|
  {
    if steps == [] {
      assert past + steps == past;
    } else {
      StepLogs(d, past, s, steps[0]);
      BehaveLogs(d, past + [steps[0]], Apply(d, s, steps[0]), steps[1..]);
      assert past + [steps[0]] + steps[1..] == past + steps;
    }
  }

  /** Each body runs exactly once, and a caller gets the outcome of its own body, whatever became of those before it. */
  lemma OwnOutcome(d: Discipline, steps: seq<Step>, i: nat)
    requires Behave(d, EMPTY, steps).Some? && i < |Behave(d, EMPTY, steps).value.tasks|
    ensures var t := Behave(d, EMPTY, steps).value;
            && (!t.tasks[i].phase.Waiting? <==> exists a :: 0 <= a < |t.started| && t.started[a] == i)
            && (forall a, b | 0 <= a < |t.started| && 0 <= b < |t.started| && t.started[a] == t.started[b] :: a == b)
            && (Done(t.tasks[i].phase) ==> Finish(i, t.tasks[i].phase.ok) in steps)
  {
    BehaveLogs(d, [], EMPTY, steps);
    assert [] + steps == steps;
  }

  // ---- what a body waits for ------------------------------------------------------------

  ghost predicate SweptBefore(s: State, key: string, i: nat) {
    forall j | 0 <= j < |s.tasks| :: j < i && s.tasks[j].key == key ==> s.tasks[j].phase.Swept?
  }

  /** With the actor lock a body waits for the clean-up of the one before it too, and only the first of a key has none before it. */
  ghost predicate WaitsForCleanUp(s: State) {
    && Slotted(s)
    && (forall i, j | 0 <= j < i < |s.tasks| && s.tasks[i].prev.None? :: s.tasks[j].key != s.tasks[i].key)
    && (forall i | 0 <= i < |s.tasks| && !s.tasks[i].phase.Waiting? :: SweptBefore(s, s.tasks[i].key, i))
  }

  lemma StepWaits(s: State, step: Step)
    requires Inv(ActorLock, s) && WaitsForCleanUp(s) && Enabled(ActorLock, s, step)
    ensures WaitsForCleanUp(Apply(ActorLock, s, step))
  {
    var t := Apply(ActorLock, s, step);
    if step.Sweep? {
      assert SlotOk(ActorLock, s, s.tasks[step.task].key);
    }
    if step.Begin? {
      BeginsAfterCleanUp(s, step.task);
    }
    forall i | 0 <= i < |t.tasks| && !t.tasks[i].phase.Waiting? ensures SweptBefore(t, t.tasks[i].key, i) {
      assert SweptBefore(s, s.tasks[i].key, i);
    }
  }

  lemma BeginsAfterCleanUp(s: State, i: nat)
    requires Inv(ActorLock, s) && WaitsForCleanUp(s) && Enabled(ActorLock, s, Begin(i))
    ensures SweptBefore(s, s.tasks[i].key, i)
  {
    assert PrevOk(ActorLock, s, i);
    if s.tasks[i].prev.Some? {
      var j := s.tasks[i].prev.value.task;
      assert SweptBefore(s, s.tasks[j].key, j) && s.tasks[j].phase.Swept?;
    }
  }

  lemma {:induction false} BehaveWaits(s: State, steps: seq<Step>)
    requires Inv(ActorLock, s) && WaitsForCleanUp(s) && Behave(ActorLock, s, steps).Some?
    ensures WaitsForCleanUp(Behave(ActorLock, s, steps).value)
    decreases |steps|
  {
    if steps != [] {
      StepWaits(s, steps[0]);
      StepKeepsInv(ActorLock, s, steps[0]);
      BehaveWaits(Apply(ActorLock, s, steps[0]), steps[1..]);
    }
  }

  /** Under the actor lock a body begins only when the clean-up of every earlier body of its key has run; under the loader it may begin as soon as they ended. */
  lemma WhatABodyWaitsFor(steps: seq<Step>, i: nat, d: Discipline)
    requires Behave(d, EMPTY, steps).Some?
    requires var t := Behave(d, EMPTY, steps).value; i < |t.tasks| && t.tasks[i].phase.Waiting?
    ensures var t := Behave(d, EMPTY, steps).value;
            && (d.ActorLock? ==> (Enabled(d, t, Begin(i)) <==> SweptBefore(t, t.tasks[i].key, i)))
            && (d.Loader? ==> (Enabled(d, t, Begin(i)) <==> DoneBefore(t, t.tasks[i].key, i)))
  {
    BehaveKeepsInv(d, EMPTY, steps);
    var t := Behave(d, EMPTY, steps).value;
    assert PrevOk(d, t, i);
    if Enabled(d, t, Begin(i)) {
      BeginIsInTurn(d, t, i);
    }
    if d.ActorLock? {
      BehaveWaits(EMPTY, steps);
      if Enabled(d, t, Begin(i)) {
        BeginsAfterCleanUp(t, i);
      }
    }
  }

  // ---- draining -------------------------------------------------------------------------

  function Left(tasks: seq<Task>): nat {
    if tasks == [] then 0
    else
      Left(tasks[..|tasks| - 1])
      + match tasks[|tasks| - 1].phase case Waiting => 3 case Running => 2 case Settled(_) => 1 case Swept(_) => 0
  }

  lemma {:induction false} LeftAfter(tasks: seq<Task>, i: nat, t: Task)
    requires i < |tasks|
    requires tasks[i].phase.Waiting? ==> t.phase.Running?
    requires tasks[i].phase.Running? ==> t.phase.Settled?
    requires tasks[i].phase.Settled? ==> t.phase.Swept?
    requires !tasks[i].phase.Swept?
    ensures Left(tasks[i := t]) < Left(tasks)
    decreases |tasks|
  {
    var n := |tasks| - 1;
    if i < n {
      LeftAfter(tasks[..n], i, t);
      assert tasks[i := t][..n] == tasks[..n][i := t];
    } else {
      assert tasks[i := t][..n] == tasks[..n];
    }
  }

  /** The first task that has not been cleaned up after can take a step. */
  lemma FirstCanMove(d: Discipline, s: State, i: nat) returns (step: Step)
    requires Inv(d, s) && i < |s.tasks| && !s.tasks[i].phase.Swept? && forall j | 0 <= j < i :: s.tasks[j].phase.Swept?
    ensures Enabled(d, s, step) && !step.Arrive? && |Apply(d, s, step).tasks| == |s.tasks| && Left(Apply(d, s, step).tasks) < Left(s.tasks)
  {
    assert PrevOk(d, s, i);
    step := if s.tasks[i].phase.Waiting? then Begin(i) else if s.tasks[i].phase.Running? then Finish(i, true) else Sweep(i);
    LeftAfter(s.tasks, i, Apply(d, s, step).tasks[i]);
  }

  lemma {:induction false} DrainFrom(d: Discipline, s: State) returns (more: seq<Step>)
    requires Inv(d, s)
    ensures (forall step <- more :: !step.Arrive?) && Behave(d, s, more).Some?
    ensures var t := Behave(d, s, more).value; |t.tasks| == |s.tasks| && forall i | 0 <= i < |t.tasks| :: t.tasks[i].phase.Swept?
    decreases Left(s.tasks)
  {
    more := [];
    if exists i :: 0 <= i < |s.tasks| && !s.tasks[i].phase.Swept? {
      var i := FirstUnswept(s.tasks);
      var step := FirstCanMove(d, s, i);
      StepKeepsInv(d, s, step);
      var rest := DrainFrom(d, Apply(d, s, step));
      more := [step] + rest;
      assert more[0] == step && more[1..] == rest;
    }
  }

  lemma {:induction false} FirstUnswept(tasks: seq<Task>) returns (i: nat)
    requires exists k :: 0 <= k < |tasks| && !tasks[k].phase.Swept?
    ensures i < |tasks| && !tasks[i].phase.Swept? && forall j | 0 <= j < i :: tasks[j].phase.Swept?
    decreases |tasks|
  {
    var k :| 0 <= k < |tasks| && !tasks[k].phase.Swept?;
    i := k;
    if exists l :: 0 <= l < k && !tasks[l].phase.Swept? {
      var l :| 0 <= l < k && !tasks[l].phase.Swept?;
      assert tasks[..k][l] == tasks[l];
      i := FirstUnswept(tasks[..k]);
      assert forall j | 0 <= j < i :: tasks[..k][j] == tasks[j];
    }
  }

  /** From every reachable state all bodies can run to their end without a further arrival; then calls may arrive again, the loader's slots are empty, and the actor lock's are all still there. */
  lemma CanDrain(d: Discipline, steps: seq<Step>) returns (more: seq<Step>)
    requires Behave(d, EMPTY, steps).Some?
    ensures (forall step <- more :: !step.Arrive?) && Behave(d, EMPTY, steps + more).Some?
    ensures var t := Behave(d, EMPTY, steps + more).value;
            && |t.tasks| == |Behave(d, EMPTY, steps).value.tasks|
            && (forall i | 0 <= i < |t.tasks| :: t.tasks[i].phase.Swept?)
            && (forall key :: Enabled(d, t, Arrive(key)))
            && (d.Loader? ==> t.slots == map[])
            && (d.ActorLock? ==> forall i | 0 <= i < |t.tasks| :: t.tasks[i].key in t.slots)
  {
    BehaveKeepsInv(d, EMPTY, steps);
    more := DrainFrom(d, Behave(d, EMPTY, steps).value);
    BehaveThen(d, EMPTY, steps, more);
    var t := Behave(d, EMPTY, steps + more).value;
    if d.Loader? {
      forall key ensures key !in t.slots {
        LoaderSlotIsFreed(steps + more, key);
      }
    } else {
      SlotsAreKept(EMPTY, steps + more);
    }
  }

  lemma {:induction false} BehaveThen(d: Discipline, s: State, steps: seq<Step>, more: seq<Step>)
    requires Behave(d, s, steps).Some?
    ensures Behave(d, s, steps + more) == Behave(d, Behave(d, s, steps).value, more)
    decreases |steps|
  {
    if steps == [] {
      assert steps + more == more;
    } else {
      assert (steps + more)[1..] == steps[1..] + more;
      BehaveThen(d, Apply(d, s, steps[0]), steps[1..], more);
    }
  }
}
