/**
 The queue that applies a desired set of enabled policies: one apply in flight, one queued
 tail that newer calls overwrite, and every caller answered. Each await of the source is a
 step here, so calls may arrive between any two.
 */
module ApplyQueue {
  import opened Common

  type Ids = seq<string>

  datatype Result = Ok | Error(kind: string)

  /** Where one `runApply` stands; each phase but the last two awaits something that may fail. */
  datatype Phase =
    | AwaitUser
    | ReinstallNone
    | WriteEnabled(uid: string)
    | Reinstall(uid: string)
    | WriteApplied(uid: string)
    | Returned(result: Result)
    | Finished(result: Result)

  /** One apply: the ids asked for, its phase, and the callers its end answers. */
  datatype Run = Run(ids: Ids, phase: Phase, waiting: seq<nat>)

  /** A call of `applyEnabledIds`: its ids, and how many runs had begun before it. */
  datatype Call = Call(ids: Ids, runsBefore: nat)

  datatype Settlement = Settlement(call: nat, run: nat, result: Result)

  /**
   `inflight` is the call whose promise drains the queue. `runs`, `calls`, `settled` and
   `reinstalled` (the sets some reinstall succeeded with) are histories.
   */
  datatype State = State(
    inflight: Option<nat>,
    queuedDesired: Option<Ids>,
    queuedResolvers: seq<nat>,
    calls: seq<Call>,
    runs: seq<Run>,
    settled: seq<Settlement>,
    enabled: map<string, set<string>>,
    applied: map<string, set<string>>,
    reinstalled: set<set<string>>)

  datatype Step =
    | Apply(ids: Ids)
    | User(run: nat, uid: Option<string>)
    | Settle(run: nat, ok: bool, kind: string)
    | Continue(run: nat)

  /** The sorted, duplicate-free array the source stores stands for this set. */
  function Normalize(ids: Ids): set<string> {
    set id <- ids
  }

  predicate Enabled(s: State, step: Step) {
    match step
    case Apply(_) => true
    case User(r, _) => r < |s.runs| && s.runs[r].phase.AwaitUser?
    case Settle(r, _, _) =>
      r < |s.runs| && var p := s.runs[r].phase; p.ReinstallNone? || p.WriteEnabled? || p.Reinstall? || p.WriteApplied?
    case Continue(r) => r < |s.runs| && s.runs[r].phase.Returned? && s.inflight.Some?
  }

  function At(s: State, r: nat, phase: Phase): State
    requires r < |s.runs|
  {
    s.(runs := s.runs[r := s.runs[r].(phase := phase)])
  }

  /** The code after `await runApply`: answer the tail's callers, then start the next tail or finish. */
  function Continued(s: State, r: nat): State
    requires Enabled(s, Continue(r))
  {
    var result := s.runs[r].phase.result;
    var answered := At(s, r, Finished(result)).(settled := s.settled + Answers(s.runs[r].waiting, r, result));
    match s.queuedDesired
    case Some(next) =>
      answered.(queuedDesired := None, queuedResolvers := [], runs := answered.runs + [Run(next, AwaitUser, s.queuedResolvers)])
    case None =>
      answered.(inflight := None, settled := answered.settled + [Settlement(s.inflight.value, r, result)])
  }

  function Answers(callers: seq<nat>, r: nat, result: Result): seq<Settlement> {
    seq(|callers|, i requires 0 <= i < |callers| => Settlement(callers[i], r, result))
  }

  function Next(s: State, step: Step): State
    requires Enabled(s, step)
  {
    match step
    case Apply(ids) =>
      var called := s.(calls := s.calls + [Call(ids, |s.runs|)]);
      if s.inflight.Some? then
        called.(queuedDesired := Some(ids), queuedResolvers := s.queuedResolvers + [|s.calls|])
      else
        called.(inflight := Some(|s.calls|), runs := s.runs + [Run(ids, AwaitUser, [])])
    case User(r, None) => At(s, r, ReinstallNone)
    case User(r, Some(uid)) => At(s, r, WriteEnabled(uid))
    case Settle(r, false, kind) => At(s, r, Returned(Error(kind)))
    case Settle(r, true, _) =>
      var ids := Normalize(s.runs[r].ids);
      (match s.runs[r].phase
       case ReinstallNone => At(s, r, Returned(Ok)).(reinstalled := s.reinstalled + {{}})
       case WriteEnabled(uid) => At(s, r, Reinstall(uid)).(enabled := s.enabled[uid := ids])
       case Reinstall(uid) => At(s, r, WriteApplied(uid)).(reinstalled := s.reinstalled + {ids})
       case WriteApplied(uid) => At(s, r, Returned(Ok)).(applied := s.applied[uid := ids])
       case _ => s)
    case Continue(r) => Continued(s, r)
  }

  function Behave(s: State, steps: seq<Step>): Option<State>
    decreases |steps|
  {
    if steps == [] then Some(s)
    else if !Enabled(s, steps[0]) then None
    else Behave(Next(s, steps[0]), steps[1..])
  }

  predicate Fresh(s: State) {
    && s.inflight == None && s.queuedDesired == None && s.queuedResolvers == []
    && s.calls == [] && s.runs == [] && s.settled == [] && s.reinstalled == {}
  }

  // ---- invariant ----------------------------------------------------------------------

  /** At most the last run is unfinished, and only while the queue is in flight. */
  ghost predicate OneAtATime(s: State) {
    && (forall i | 0 <= i < |s.runs| - 1 :: s.runs[i].phase.Finished?)
    && (s.inflight.Some? <==> s.runs != [] && !s.runs[|s.runs| - 1].phase.Finished?)
  }

  /** What is queued, or else what ran last, is what was asked for last. */
  ghost predicate LatestWins(s: State) {
    && (s.queuedDesired.Some? ==> s.inflight.Some?)
    && (s.queuedDesired.None? ==> s.queuedResolvers == [])
    && (s.calls == [] ==> s.runs == [] && s.queuedDesired.None?)
    && (s.calls != [] ==> s.runs != [])
    && (s.calls != [] ==>
          s.calls[|s.calls| - 1].ids == (if s.queuedDesired.Some? then s.queuedDesired.value else s.runs[|s.runs| - 1].ids))
  }

  ghost function Callers(settled: seq<Settlement>): seq<nat> {
    seq(|settled|, i requires 0 <= i < |settled| => settled[i].call)
  }

  /** Every call, once: answered, holding the queue, waiting on the run, or queued. */
  ghost function Ledger(settled: seq<Settlement>, holder: Option<nat>, waiting: seq<nat>, queued: seq<nat>): multiset<nat> {
    multiset(Callers(settled)) + (if holder.Some? then multiset{holder.value} else multiset{}) + multiset(waiting) + multiset(queued)
  }

  ghost function Waiting(s: State): seq<nat> {
    if s.inflight.Some? && s.runs != [] then s.runs[|s.runs| - 1].waiting else []
  }

  ghost function Accounted(s: State): multiset<nat> {
    Ledger(s.settled, s.inflight, Waiting(s), s.queuedResolvers)
  }

  ghost predicate EveryCallOnce(s: State) {
    forall c: nat :: Accounted(s)[c] == if c < |s.calls| then 1 else 0
  }

  ghost predicate CallBefore(s: State, c: nat, r: nat) {
    c < |s.calls| && s.calls[c].runsBefore <= r
  }

  /** Nobody waits on a run that began before their call, and answers carry the result of their run. */
  ghost predicate NotStale(s: State) {
    && (forall x <- s.settled :: x.run < |s.runs| && s.runs[x.run].phase == Finished(x.result) && CallBefore(s, x.call, x.run))
    && (s.runs != [] ==>
          var last := |s.runs| - 1;
          && (s.inflight.Some? ==> CallBefore(s, s.inflight.value, last))
          && forall c <- s.runs[last].waiting :: CallBefore(s, c, last))
    && (forall c <- s.queuedResolvers :: CallBefore(s, c, |s.runs|))
  }

  /** The applied record holds what it held at first, or a set some reinstall succeeded with. */
  ghost predicate AppliedWasInstalled(initial: map<string, set<string>>, s: State) {
    && (forall uid <- s.applied :: (uid in initial && s.applied[uid] == initial[uid]) || s.applied[uid] in s.reinstalled)
    && (forall i | 0 <= i < |s.runs| :: s.runs[i].phase.WriteApplied? ==> Normalize(s.runs[i].ids) in s.reinstalled)
  }

  ghost predicate Inv(initial: map<string, set<string>>, s: State) {
    OneAtATime(s) && LatestWins(s) && EveryCallOnce(s) && NotStale(s) && AppliedWasInstalled(initial, s)
  }

  /** The only run that can take a step is the last one. */
  lemma StepIsOfLastRun(s: State, step: Step)
    requires OneAtATime(s) && Enabled(s, step) && !step.Apply?
    ensures step.run == |s.runs| - 1 && s.inflight.Some?
  {
  }

  lemma StepKeepsOneAtATime(s: State, step: Step)
    requires OneAtATime(s) && Enabled(s, step)
    ensures OneAtATime(Next(s, step))
  {
    if !step.Apply? {
      StepIsOfLastRun(s, step);
    }
  }

  lemma StepKeepsLatestWins(s: State, step: Step)
    requires OneAtATime(s) && LatestWins(s) && Enabled(s, step)
    ensures LatestWins(Next(s, step))
  {
    if step.Continue? {
      StepIsOfLastRun(s, step);
    } else if !step.Apply? {
      RunStepFrame(s, step);
    }
  }

  /** A step inside a run changes its phase and storage, and nothing of the queue. */
  lemma RunStepFrame(s: State, step: Step)
    requires OneAtATime(s) && Enabled(s, step) && (step.User? || step.Settle?)
    ensures var t := Next(s, step);
            && t.(runs := s.runs, enabled := s.enabled, applied := s.applied, reinstalled := s.reinstalled) == s
            && step.run == |s.runs| - 1 && |t.runs| == |s.runs|
            && t.runs[..step.run] == s.runs[..step.run]
            && t.runs[step.run].ids == s.runs[step.run].ids && t.runs[step.run].waiting == s.runs[step.run].waiting
            && !t.runs[step.run].phase.Finished?
  {
    StepIsOfLastRun(s, step);
  }

  lemma LedgerAnswers(settled: seq<Settlement>, holder: Option<nat>, waiting: seq<nat>, queued: seq<nat>, r: nat, result: Result)
    ensures Ledger(settled + Answers(waiting, r, result), holder, queued, []) == Ledger(settled, holder, waiting, queued)
  {
    assert Callers(settled + Answers(waiting, r, result)) == Callers(settled) + waiting;
  }

  lemma LedgerEnds(settled: seq<Settlement>, holder: nat, r: nat, result: Result)
    ensures Ledger(settled + [Settlement(holder, r, result)], None, [], []) == Ledger(settled, Some(holder), [], [])
  {
    assert Callers(settled + [Settlement(holder, r, result)]) == Callers(settled) + [holder];
  }

  lemma StepAccounts(s: State, step: Step)
    requires OneAtATime(s) && LatestWins(s) && Enabled(s, step)
    ensures Accounted(Next(s, step)) == Accounted(s) + (if step.Apply? then multiset{|s.calls|} else multiset{})
  {
    if step.Apply? {
      ApplyAccounts(s, step.ids);
    } else if step.Continue? {
      StepIsOfLastRun(s, step);
      ContinueAccounts(s, step.run);
    } else {
      RunStepFrame(s, step);
      assert Waiting(Next(s, step)) == Waiting(s);
    }
  }

  lemma ApplyAccounts(s: State, ids: Ids)
    requires OneAtATime(s) && LatestWins(s)
    ensures Accounted(Next(s, Apply(ids))) == Accounted(s) + multiset{|s.calls|}
  {
    var t := Next(s, Apply(ids));
    if s.inflight.Some? {
      assert Waiting(t) == Waiting(s);
      var c: nat := |s.calls|;
      assert t.queuedResolvers == s.queuedResolvers + [c];
    } else {
      assert Waiting(t) == [] == Waiting(s);
    }
  }

  lemma ContinueAccounts(s: State, r: nat)
    requires LatestWins(s) && Enabled(s, Continue(r)) && r == |s.runs| - 1
    ensures Accounted(Next(s, Continue(r))) == Accounted(s)
  {
    var t := Next(s, Continue(r));
    LedgerAnswers(s.settled, s.inflight, s.runs[r].waiting, s.queuedResolvers, r, s.runs[r].phase.result);
    if s.queuedDesired.Some? {
      assert Waiting(t) == s.queuedResolvers;
    } else {
      assert Waiting(t) == [];
      LedgerEnds(s.settled + Answers(s.runs[r].waiting, r, s.runs[r].phase.result), s.inflight.value, r, s.runs[r].phase.result);
    }
  }

  lemma StepKeepsEveryCallOnce(s: State, step: Step)
    requires OneAtATime(s) && LatestWins(s) && EveryCallOnce(s) && Enabled(s, step)
    ensures EveryCallOnce(Next(s, step))
  {
    StepAccounts(s, step);
    CallsAreApplies(s, step);
    AccountedOnce(s, Next(s, step), step.Apply?);
  }

  lemma CallsAreApplies(s: State, step: Step)
    requires Enabled(s, step)
    ensures |Next(s, step).calls| == |s.calls| + (if step.Apply? then 1 else 0)
  {
  }

  lemma AccountedOnce(s: State, t: State, grows: bool)
    requires EveryCallOnce(s) && |t.calls| == |s.calls| + (if grows then 1 else 0)
    requires Accounted(t) == Accounted(s) + (if grows then multiset{|s.calls|} else multiset{})
    ensures EveryCallOnce(t)
  {
  }

  lemma StepKeepsNotStale(s: State, step: Step)
    requires OneAtATime(s) && NotStale(s) && Enabled(s, step)
    ensures NotStale(Next(s, step))
  {
    if step.Apply? {
      ApplyKeepsNotStale(s, step.ids);
    } else if step.Continue? {
      ContinueKeepsNotStale(s, step.run);
    } else {
      RunStepFrame(s, step);
      var t := Next(s, step);
      assert forall c: nat, r: nat :: CallBefore(t, c, r) == CallBefore(s, c, r);
      assert forall i | 0 <= i < step.run :: t.runs[i] == s.runs[..step.run][i];
    }
  }

  lemma ContinueKeepsNotStale(s: State, r: nat)
    requires OneAtATime(s) && NotStale(s) && Enabled(s, Continue(r))
    ensures NotStale(Next(s, Continue(r)))
  {
    var t := Next(s, Continue(r));
    StepIsOfLastRun(s, Continue(r));
    assert forall c: nat, r: nat :: CallBefore(t, c, r) == CallBefore(s, c, r);
    var answers := Answers(s.runs[r].waiting, r, s.runs[r].phase.result);
    forall x <- answers ensures CallBefore(s, x.call, r) && x.run == r && x.result == s.runs[r].phase.result {
      assert x.call in s.runs[r].waiting;
    }
    forall x <- t.settled
      ensures x.run < |t.runs| && t.runs[x.run].phase == Finished(x.result) && CallBefore(t, x.call, x.run)
    {
      assert x in s.settled || x in answers || x == Settlement(s.inflight.value, r, s.runs[r].phase.result);
    }
  }

  lemma ApplyKeepsNotStale(s: State, ids: Ids)
    requires OneAtATime(s) && NotStale(s)
    ensures NotStale(Next(s, Apply(ids)))
  {
    var t := Next(s, Apply(ids));
    forall c: nat, r: nat | CallBefore(s, c, r) ensures CallBefore(t, c, r) {
    }
    if s.inflight.None? {
      forall c <- s.queuedResolvers ensures CallBefore(t, c, |t.runs|) {
        assert CallBefore(s, c, |s.runs|);
      }
    }
  }

  lemma StepKeepsApplied(initial: map<string, set<string>>, s: State, step: Step)
    requires AppliedWasInstalled(initial, s) && Enabled(s, step)
    ensures AppliedWasInstalled(initial, Next(s, step))
  {
  }

  lemma StepKeepsInv(initial: map<string, set<string>>, s: State, step: Step)
    requires Inv(initial, s) && Enabled(s, step)
    ensures Inv(initial, Next(s, step))
  {
    StepKeepsOneAtATime(s, step);
    StepKeepsLatestWins(s, step);
    StepKeepsEveryCallOnce(s, step);
    StepKeepsNotStale(s, step);
    StepKeepsApplied(initial, s, step);
  }

  // ---- every schedule -----------------------------------------------------------------

  lemma {:induction false} BehaveKeepsInv(initial: map<string, set<string>>, s: State, steps: seq<Step>)
    requires Inv(initial, s) && Behave(s, steps).Some?
    ensures Inv(initial, Behave(s, steps).value)
    decreases |steps|
  {
    if steps != [] {
      StepKeepsInv(initial, s, steps[0]);
      BehaveKeepsInv(initial, Next(s, steps[0]), steps[1..]);
    }
  }

  /**
   However calls, failures and completions interleave: at most one apply is unfinished; no
   caller is answered twice; an answer is the result of a run that began no earlier than its
   call; the applied record only ever holds a set some reinstall succeeded with, or what it
   held at first; and a queue at rest has answered everyone and last ran the ids asked for last.
   */
  lemma QueueIsCorrect(s: State, steps: seq<Step>)
    requires Fresh(s) && Behave(s, steps).Some?
    ensures var t := Behave(s, steps).value;
            && (forall i, j | 0 <= i < |t.runs| && 0 <= j < |t.runs| ::
                  !t.runs[i].phase.Finished? && !t.runs[j].phase.Finished? ==> i == j)
            && (forall i, j | 0 <= i < j < |t.settled| :: t.settled[i].call != t.settled[j].call)
            && (forall x <- t.settled ::
                  && x.run < |t.runs| && t.runs[x.run].phase == Finished(x.result)
                  && x.call < |t.calls| && t.calls[x.call].runsBefore <= x.run)
            && (forall uid <- t.applied ::
                  (uid in s.applied && t.applied[uid] == s.applied[uid]) || t.applied[uid] in t.reinstalled)
            && (t.inflight.None? ==>
                  && (forall c: nat | c < |t.calls| :: c in Callers(t.settled))
                  && (t.calls != [] ==> t.runs != [] && t.runs[|t.runs| - 1].ids == t.calls[|t.calls| - 1].ids))
  {
    FreshIsInv(s);
    BehaveKeepsInv(s.applied, s, steps);
    var t := Behave(s, steps).value;
    assert forall x <- t.settled :: CallBefore(t, x.call, x.run);
    AnsweredOnce(t);
    if t.inflight.None? {
      forall c: nat | c < |t.calls| ensures c in Callers(t.settled) {
        assert Accounted(t)[c] == 1;
      }
    }
  }

  lemma FreshIsInv(s: State)
    requires Fresh(s)
    ensures Inv(s.applied, s)
  {
    assert Accounted(s) == multiset{};
  }

  lemma AnsweredOnce(t: State)
    requires EveryCallOnce(t)
    ensures forall i, j | 0 <= i < j < |t.settled| :: t.settled[i].call != t.settled[j].call
  {
    var callers := Callers(t.settled);
    forall i, j | 0 <= i < j < |t.settled| ensures t.settled[i].call != t.settled[j].call {
      assert Accounted(t)[callers[i]] <= 1 && multiset(callers) <= Accounted(t);
      RepeatsCountTwice(callers, i, j);
    }
  }

  lemma RepeatsCountTwice(xs: seq<nat>, i: nat, j: nat)
    requires i < j < |xs|
    ensures xs[i] == xs[j] ==> multiset(xs)[xs[i]] >= 2
  {
    assert xs == xs[..i] + [xs[i]] + xs[i + 1..j] + [xs[j]] + xs[j + 1..];
  }

  // ---- what a run's awaits decide -----------------------------------------------------

  /** What the schedule says of one run: the user it found, how many of its awaits succeeded, the one that failed, whether its callers were answered. */
  datatype Log = Log(user: Option<Option<string>>, successes: nat, failure: Option<string>, answered: bool)

  ghost function LogOf(steps: seq<Step>, r: nat): Log
    decreases |steps|
  {
    if steps == [] then Log(None, 0, None, false)
    else
      var log := LogOf(steps[..|steps| - 1], r);
      match steps[|steps| - 1]
      case Apply(_) => log
      case User(q, uid) => if q == r then log.(user := Some(uid)) else log
      case Settle(q, true, _) => if q == r then log.(successes := log.successes + 1) else log
      case Settle(q, false, kind) => if q == r then log.(failure := Some(kind)) else log
      case Continue(q) => if q == r then log.(answered := true) else log
  }

  /** A run fails with the failure of the first await that fails, and is ok when none of them did: three with a user, one without. */
  function ResultOf(log: Log): Option<Result> {
    if log.failure.Some? then Some(Error(log.failure.value))
    else if log.user.Some? && log.successes == (if log.user.value.Some? then 3 else 1) then Some(Ok)
    else None
  }

  datatype Records = Records(enabled: map<string, set<string>>, applied: map<string, set<string>>, reinstalled: set<set<string>>)

  /** What a run leaves behind: the enabled ids, then the installed set, then the applied ids, as far as it got; without a user the empty set is installed. */
  function Left(before: Records, ids: set<string>, log: Log): Records {
    match log.user
    case None => before
    case Some(None) => if log.successes == 0 then before else before.(reinstalled := before.reinstalled + {{}})
    case Some(Some(uid)) =>
      Records(
        if log.successes >= 1 then before.enabled[uid := ids] else before.enabled,
        if log.successes >= 3 then before.applied[uid := ids] else before.applied,
        if log.successes >= 2 then before.reinstalled + {ids} else before.reinstalled)
  }

  /** The records after the first `k` runs, one after the other. */
  ghost function LeftByAll(initial: Records, runs: seq<Run>, steps: seq<Step>, k: nat): Records
    requires k <= |runs|
  {
    if k == 0 then initial
    else Left(LeftByAll(initial, runs, steps, k - 1), Normalize(runs[k - 1].ids), LogOf(steps, k - 1))
  }

  ghost predicate PhaseFits(phase: Phase, log: Log) {
    match phase
    case AwaitUser => log == Log(None, 0, None, false)
    case ReinstallNone => log == Log(Some(None), 0, None, false)
    case WriteEnabled(uid) => log == Log(Some(Some(uid)), 0, None, false)
    case Reinstall(uid) => log == Log(Some(Some(uid)), 1, None, false)
    case WriteApplied(uid) => log == Log(Some(Some(uid)), 2, None, false)
    case Returned(result) => log.user.Some? && ResultOf(log) == Some(result) && !log.answered
    case Finished(result) => log.user.Some? && ResultOf(log) == Some(result) && log.answered
  }

  ghost function Stored(s: State): Records {
    Records(s.enabled, s.applied, s.reinstalled)
  }

  ghost predicate Told(initial: Records, s: State, steps: seq<Step>) {
    && (forall r: nat | r < |s.runs| :: PhaseFits(s.runs[r].phase, LogOf(steps, r)))
    && (forall r: nat | r >= |s.runs| :: LogOf(steps, r) == Log(None, 0, None, false))
    && Stored(s) == LeftByAll(initial, s.runs, steps, |s.runs|)
  }

  lemma LogSnoc(steps: seq<Step>, step: Step, r: nat)
    ensures step.Apply? || step.run != r ==> LogOf(steps + [step], r) == LogOf(steps, r)
    ensures step == Continue(r) ==> LogOf(steps + [step], r) == LogOf(steps, r).(answered := true)
    ensures step.User? && step.run == r ==> LogOf(steps + [step], r) == LogOf(steps, r).(user := Some(step.uid))
    ensures step.Settle? && step.run == r && step.ok ==>
              LogOf(steps + [step], r) == LogOf(steps, r).(successes := LogOf(steps, r).successes + 1)
    ensures step.Settle? && step.run == r && !step.ok ==> LogOf(steps + [step], r) == LogOf(steps, r).(failure := Some(step.kind))
  {
    assert (steps + [step])[..|steps|] == steps;
  }

  /** Runs before the `k`-th leave what they left, as long as neither their ids nor their logs change. */
  lemma {:induction false} LeftByAllFrame(initial: Records, runs: seq<Run>, after: seq<Run>, steps: seq<Step>, step: Step, k: nat)
    requires k <= |runs| && k <= |after|
    requires forall r: nat | r < k :: after[r].ids == runs[r].ids && LogOf(steps + [step], r) == LogOf(steps, r)
    ensures LeftByAll(initial, after, steps + [step], k) == LeftByAll(initial, runs, steps, k)
    decreases k
  {
    if k != 0 {
      LeftByAllFrame(initial, runs, after, steps, step, k - 1);
    }
  }

  lemma ApplyTells(initial: Records, s: State, steps: seq<Step>, ids: Ids)
    requires Told(initial, s, steps)
    ensures Told(initial, Next(s, Apply(ids)), steps + [Apply(ids)])
  {
    var t := Next(s, Apply(ids));
    forall r: nat ensures LogOf(steps + [Apply(ids)], r) == LogOf(steps, r) {
      LogSnoc(steps, Apply(ids), r);
    }
    LeftByAllFrame(initial, s.runs, t.runs, steps, Apply(ids), |s.runs|);
  }

  /** A step of the last run: what the runs before it left is what it was, and its own log moves on. */
  lemma RunTells(initial: Records, s: State, steps: seq<Step>, step: Step, before: Records)
    requires OneAtATime(s) && Told(initial, s, steps) && Enabled(s, step) && !step.Apply?
    requires before == LeftByAll(initial, s.runs, steps, |s.runs| - 1)
    ensures step.run == |s.runs| - 1
    ensures forall r: nat | r != step.run :: LogOf(steps + [step], r) == LogOf(steps, r)
    ensures LeftByAll(initial, Next(s, step).runs, steps + [step], step.run) == before
    ensures Stored(s) == Left(before, Normalize(s.runs[step.run].ids), LogOf(steps, step.run))
    ensures |Next(s, step).runs| > step.run && Next(s, step).runs[step.run].ids == s.runs[step.run].ids
  {
    StepIsOfLastRun(s, step);
    forall r: nat | r != step.run ensures LogOf(steps + [step], r) == LogOf(steps, r) {
      LogSnoc(steps, step, r);
    }
    LeftByAllFrame(initial, s.runs, Next(s, step).runs, steps, step, step.run);
  }

  /** One await of a run: its phase and what is stored follow its log. */
  lemma AwaitMoves(s: State, step: Step, before: Records, log: Log, after: Log)
    requires Enabled(s, step) && (step.User? || step.Settle?)
    requires PhaseFits(s.runs[step.run].phase, log) && Stored(s) == Left(before, Normalize(s.runs[step.run].ids), log)
    requires step.User? ==> after == log.(user := Some(step.uid))
    requires step.Settle? && step.ok ==> after == log.(successes := log.successes + 1)
    requires step.Settle? && !step.ok ==> after == log.(failure := Some(step.kind))
    ensures PhaseFits(Next(s, step).runs[step.run].phase, after)
    ensures Stored(Next(s, step)) == Left(before, Normalize(s.runs[step.run].ids), after)
  {
  }

  /** The pieces of `Told` after a step of the last run. */
  lemma TellsBy(initial: Records, s: State, t: State, steps: seq<Step>, step: Step, before: Records)
    requires Told(initial, s, steps) && !step.Apply? && step.run == |s.runs| - 1 < |t.runs| <= |s.runs| + 1
    requires forall r: nat | r < step.run :: t.runs[r] == s.runs[r]
    requires forall r: nat | r != step.run :: LogOf(steps + [step], r) == LogOf(steps, r)
    requires |t.runs| > |s.runs| ==> t.runs[|s.runs|].phase.AwaitUser?
    requires PhaseFits(t.runs[step.run].phase, LogOf(steps + [step], step.run))
    requires LeftByAll(initial, t.runs, steps + [step], step.run) == before
    requires Stored(t) == Left(before, Normalize(t.runs[step.run].ids), LogOf(steps + [step], step.run))
    ensures Told(initial, t, steps + [step])
  {
    assert Stored(t) == LeftByAll(initial, t.runs, steps + [step], |s.runs|);
  }

  lemma AwaitTells(initial: Records, s: State, steps: seq<Step>, step: Step)
    requires OneAtATime(s) && Told(initial, s, steps) && Enabled(s, step) && (step.User? || step.Settle?)
    ensures Told(initial, Next(s, step), steps + [step])
  {
    var before := LeftByAll(initial, s.runs, steps, |s.runs| - 1);
    RunTells(initial, s, steps, step, before);
    LogSnoc(steps, step, step.run);
    RunStepFrame(s, step);
    var t := Next(s, step);
    assert forall r: nat | r < step.run :: t.runs[r] == t.runs[..step.run][r] == s.runs[r];
    AwaitMoves(s, step, before, LogOf(steps, step.run), LogOf(steps + [step], step.run));
    TellsBy(initial, s, t, steps, step, before);
  }

  lemma ContinueMoves(s: State, r: nat, before: Records, log: Log, after: Log)
    requires Enabled(s, Continue(r)) && r == |s.runs| - 1
    requires PhaseFits(s.runs[r].phase, log) && Stored(s) == Left(before, Normalize(s.runs[r].ids), log)
    requires after == log.(answered := true)
    ensures var t := Next(s, Continue(r));
            && r < |t.runs| <= r + 2 && t.runs[..r] == s.runs[..r] && (|t.runs| == r + 2 ==> t.runs[r + 1].phase.AwaitUser?)
            && PhaseFits(t.runs[r].phase, after) && Stored(t) == Left(before, Normalize(s.runs[r].ids), after)
  {
  }

  lemma ContinueTells(initial: Records, s: State, steps: seq<Step>, r: nat)
    requires OneAtATime(s) && Told(initial, s, steps) && Enabled(s, Continue(r))
    ensures Told(initial, Next(s, Continue(r)), steps + [Continue(r)])
  {
    var before := LeftByAll(initial, s.runs, steps, |s.runs| - 1);
    RunTells(initial, s, steps, Continue(r), before);
    LogSnoc(steps, Continue(r), r);
    ContinueMoves(s, r, before, LogOf(steps, r), LogOf(steps + [Continue(r)], r));
    var t := Next(s, Continue(r));
    assert forall i: nat | i < r :: t.runs[i] == t.runs[..r][i] == s.runs[i];
    TellsBy(initial, s, t, steps, Continue(r), before);
  }

  lemma StepTells(initial: Records, s: State, steps: seq<Step>, step: Step)
    requires OneAtATime(s) && Told(initial, s, steps) && Enabled(s, step)
    ensures Told(initial, Next(s, step), steps + [step])
  {
    if step.Apply? {
      ApplyTells(initial, s, steps, step.ids);
    } else if step.Continue? {
      ContinueTells(initial, s, steps, step.run);
    } else {
      AwaitTells(initial, s, steps, step);
    }
  }

  lemma {:induction false} BehaveSnoc(s: State, steps: seq<Step>)
    requires steps != [] && Behave(s, steps).Some?
    ensures var u := Behave(s, steps[..|steps| - 1]);
            u.Some? && Enabled(u.value, steps[|steps| - 1]) && Behave(s, steps) == Some(Next(u.value, steps[|steps| - 1]))
    decreases |steps|
  {
    if |steps| > 1 {
      BehaveSnoc(Next(s, steps[0]), steps[1..]);
      assert steps[1..][..|steps| - 2] == steps[..|steps| - 1][1..];
    }
  }

  lemma FreshIsTold(s: State)
    requires Fresh(s)
    ensures Told(Stored(s), s, [])
  {
  }

  lemma {:induction false} BehaveTells(s: State, steps: seq<Step>)
    requires Fresh(s) && Behave(s, steps).Some?
    ensures Inv(s.applied, Behave(s, steps).value) && Told(Stored(s), Behave(s, steps).value, steps)
    decreases |steps|
  {
    FreshIsInv(s);
    BehaveKeepsInv(s.applied, s, steps);
    if steps == [] {
      FreshIsTold(s);
    } else {
      var init, last := steps[..|steps| - 1], steps[|steps| - 1];
      BehaveSnoc(s, steps);
      BehaveTells(s, init);
      ExtendTells(s.applied, Stored(s), Behave(s, init).value, init, last, Behave(s, steps).value, steps);
    }
  }

  lemma ExtendTells(applied: map<string, set<string>>, initial: Records, u: State, init: seq<Step>, last: Step, t: State, steps: seq<Step>)
    requires Inv(applied, u) && Told(initial, u, init) && Enabled(u, last) && t == Next(u, last) && |steps| > 0
    requires init == steps[..|steps| - 1] && last == steps[|steps| - 1]
    ensures Told(initial, t, steps)
  {
    StepTells(initial, u, init, last);
    assert steps == init + [last];
  }

  /** The log records a failure exactly when the schedule has one, and it is the last. */
  lemma {:induction false} LogFailure(steps: seq<Step>, r: nat)
    ensures LogOf(steps, r).failure.None? <==> forall kind :: Settle(r, false, kind) !in steps
    ensures LogOf(steps, r).failure.Some? ==> Settle(r, false, LogOf(steps, r).failure.value) in steps
    decreases |steps|
  {
    if steps != [] {
      var init, last := steps[..|steps| - 1], steps[|steps| - 1];
      LogFailure(init, r);
      assert steps == init + [last];
      if last.Settle? && last.run == r && !last.ok {
        assert Settle(r, false, last.kind) in steps;
      } else {
        assert forall kind :: Settle(r, false, kind) in steps <==> Settle(r, false, kind) in init;
      }
    }
  }

  /** No second await of a run fails. */
  lemma {:induction false} FailsOnce(s: State, steps: seq<Step>, r: nat, kind: string)
    requires Fresh(s) && Behave(s, steps).Some? && Settle(r, false, kind) in steps
    ensures LogOf(steps, r).failure == Some(kind)
    decreases |steps|
  {
    var init, last := steps[..|steps| - 1], steps[|steps| - 1];
    BehaveSnoc(s, steps);
    assert steps == init + [last];
    LogSnoc(init, last, r);
    if Settle(r, false, kind) in init {
      FailsOnce(s, init, r, kind);
      BehaveTells(s, init);
      assert Enabled(Behave(s, init).value, last);
      if last.Settle? && last.run == r {
        assert PhaseFits(Behave(s, init).value.runs[r].phase, LogOf(init, r));
      }
    }
  }

  /**
   However the schedule goes, an answer tells what happened: it is ok exactly when no await
   of its run failed, and otherwise it is the failure of the one that did.
   */
  lemma AnswersAreHonest(s: State, steps: seq<Step>, x: Settlement)
    requires Fresh(s) && Behave(s, steps).Some? && x in Behave(s, steps).value.settled
    ensures x.result.Ok? <==> forall kind :: Settle(x.run, false, kind) !in steps
    ensures forall kind :: Settle(x.run, false, kind) in steps ==> x.result == Error(kind)
  {
    BehaveTells(s, steps);
    var t := Behave(s, steps).value;
    LogFailure(steps, x.run);
    assert PhaseFits(t.runs[x.run].phase, LogOf(steps, x.run));
    forall kind | Settle(x.run, false, kind) in steps ensures x.result == Error(kind) {
      FailsOnce(s, steps, x.run, kind);
    }
  }

  /**
   The stored records are those of the runs one after the other, each as far as its own
   awaits got, whatever calls came in between.
   */
  lemma RecordsAreSequential(s: State, steps: seq<Step>)
    requires Fresh(s) && Behave(s, steps).Some?
    ensures var t := Behave(s, steps).value; Stored(t) == LeftByAll(Stored(s), t.runs, steps, |t.runs|)
  {
    BehaveTells(s, steps);
  }

  /**
   When the last run has come back ok, the user it found has exactly its ids in both records
   and they were installed; at rest those are the ids asked for last. Without a user no ids
   are stored and the empty set was installed.
   */
  lemma OkIsStored(s: State, steps: seq<Step>, r: nat, uid: Option<string>)
    requires Fresh(s) && Behave(s, steps).Some? && User(r, uid) in steps
    requires var t := Behave(s, steps).value;
             r == |t.runs| - 1 && (t.runs[r].phase == Returned(Ok) || t.runs[r].phase == Finished(Ok))
    ensures var t := Behave(s, steps).value;
            && (uid.Some? ==>
                  var ids := Normalize(t.runs[r].ids);
                  uid.value in t.enabled && t.enabled[uid.value] == ids && uid.value in t.applied && t.applied[uid.value] == ids && ids in t.reinstalled)
            && (uid.None? ==> {} in t.reinstalled)
            && (t.inflight.None? ==> t.calls != [] && t.runs[r].ids == t.calls[|t.calls| - 1].ids)
  {
    BehaveTells(s, steps);
    FoundOnce(s, steps, r, uid);
    var t := Behave(s, steps).value;
    assert PhaseFits(t.runs[r].phase, LogOf(steps, r));
    assert Stored(t) == Left(LeftByAll(Stored(s), t.runs, steps, r), Normalize(t.runs[r].ids), LogOf(steps, r));
  }

  lemma {:induction false} FoundOnce(s: State, steps: seq<Step>, r: nat, uid: Option<string>)
    requires Fresh(s) && Behave(s, steps).Some? && User(r, uid) in steps
    ensures LogOf(steps, r).user == Some(uid)
    decreases |steps|
  {
    var init, last := steps[..|steps| - 1], steps[|steps| - 1];
    BehaveSnoc(s, steps);
    assert steps == init + [last];
    LogSnoc(init, last, r);
    if User(r, uid) in init {
      FoundOnce(s, init, r, uid);
      BehaveTells(s, init);
      if last.User? && last.run == r {
        assert PhaseFits(Behave(s, init).value.runs[r].phase, LogOf(init, r));
      }
    }
  }

  // ---- coming to rest -----------------------------------------------------------------

  /** Awaits left before the queue is idle, if nobody calls again. */
  function Remaining(s: State): nat {
    (if s.queuedDesired.Some? then 6 else 0)
    + (if s.runs == [] then 0 else
         match s.runs[|s.runs| - 1].phase
         case AwaitUser => 5
         case WriteEnabled(_) => 4
         case Reinstall(_) => 3
         case ReinstallNone => 3
         case WriteApplied(_) => 2
         case Returned(_) => 1
         case Finished(_) => 0)
  }

  /** Unless it is idle the queue has a step to take, and every step but a new call brings it closer to idle. */
  lemma ComesToRest(s: State, steps: seq<Step>, step: Step)
    requires Fresh(s) && Behave(s, steps).Some?
    ensures var t := Behave(s, steps).value;
            && (t.inflight.Some? ==> exists next :: Enabled(t, next) && !next.Apply?)
            && (t.inflight.None? ==> Remaining(t) == 0)
            && (Enabled(t, step) && !step.Apply? ==> Remaining(Next(t, step)) < Remaining(t))
  {
    FreshIsInv(s);
    BehaveKeepsInv(s.applied, s, steps);
    var t := Behave(s, steps).value;
    if t.inflight.Some? {
      var next := NextOf(t);
    }
    if Enabled(t, step) && !step.Apply? {
      StepIsCloser(t, step);
    }
  }

  /** So from every reachable state it can be brought to rest without a further call, with everyone answered. */
  lemma CanComeToRest(s: State, steps: seq<Step>) returns (more: seq<Step>)
    requires Fresh(s) && Behave(s, steps).Some?
    ensures (forall step <- more :: !step.Apply?) && Behave(Behave(s, steps).value, more).Some?
    ensures var t := Behave(Behave(s, steps).value, more).value;
            t.inflight.None? && t.calls == Behave(s, steps).value.calls && forall c: nat | c < |t.calls| :: c in Callers(t.settled)
  {
    FreshIsInv(s);
    BehaveKeepsInv(s.applied, s, steps);
    more := RestFrom(s.applied, Behave(s, steps).value);
    BehaveKeepsInv(s.applied, Behave(s, steps).value, more);
    var t := Behave(Behave(s, steps).value, more).value;
    forall c: nat | c < |t.calls| ensures c in Callers(t.settled) {
      assert Accounted(t)[c] == 1;
    }
  }

  lemma {:induction false} RestFrom(initial: map<string, set<string>>, s: State) returns (more: seq<Step>)
    requires Inv(initial, s)
    ensures (forall step <- more :: !step.Apply?) && Behave(s, more).Some?
    ensures Behave(s, more).value.inflight.None? && Behave(s, more).value.calls == s.calls
    decreases Remaining(s)
  {
    more := [];
    if s.inflight.Some? {
      var step := NextOf(s);
      StepIsCloser(s, step);
      StepKeepsInv(initial, s, step);
      var rest := RestFrom(initial, Next(s, step));
      more := [step] + rest;
      assert more[0] == step && more[1..] == rest;
    }
  }

  lemma NextOf(s: State) returns (step: Step)
    requires OneAtATime(s) && s.inflight.Some?
    ensures Enabled(s, step) && !step.Apply? && Next(s, step).calls == s.calls
  {
    var last: nat := |s.runs| - 1;
    var phase := s.runs[last].phase;
    step := if phase.AwaitUser? then User(last, None) else if phase.Returned? then Continue(last) else Settle(last, true, "");
  }

  lemma StepIsCloser(s: State, step: Step)
    requires OneAtATime(s) && Enabled(s, step) && !step.Apply?
    ensures Remaining(Next(s, step)) < Remaining(s)
  {
    StepIsOfLastRun(s, step);
  }
}
