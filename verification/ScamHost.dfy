/**
 The life of a scam-check host: one session at a time, replaced whenever the stored
 configuration changes, and checks that attach to whichever session their own
 configuration read selected. Every `await` of the worker ends a step here, so steps of
 different checks, session openings and invalidations interleave freely. Clock readings
 are arbitrary.
 */
module ScamHost {
  import opened Common

  const CHECK_TIMEOUT_MS := 2500

  datatype Reason = Aborted | TimedOut | InvalidConfiguration | InvalidRequest | UnsupportedRequest | InitializationFailed | HostError

  /** What the promise of a check resolves to; `NotConfigured` is the source's `undefined`. */
  datatype Outcome = Report(at: int) | NotConfigured | Unavailable(reason: Reason) | ReportMissing

  /** Progress of one `ready` chain: `held` says whether a runtime had been produced. */
  datatype Opening =
    | Created | Pending | Produced | Ready
    | Failing(held: bool, why: Reason) | Failed(held: bool, why: Reason)

  datatype Session = Session(fingerprint: string, opening: Opening, aborted: bool, callers: set<nat>, disposals: nat)

  datatype Progress =
    | Reading | Selected(choice: Option<nat>) | Awaiting(target: nat) | Checking(target: nat)
    | Thrown(error: Reason) | Finished

  /** A `begin`. `late`, only used in proofs, says its session was already aborted when it attached. */
  datatype Check = Check(
    deadline: int, badRequest: Option<Reason>, revision: nat, progress: Progress, attached: Option<nat>,
    late: bool, aborted: bool, timer: bool, outcomes: seq<Outcome>)

  datatype Host = Host(sessions: seq<Session>, current: Option<nat>, revision: nat, checks: seq<Check>)

  const FRESH := Host([], None, 0, [])

  datatype Stored = Absent | Malformed | Configured(fingerprint: string) | Unreadable

  datatype Verdict = Reported | WithoutReport | CheckThrew

  datatype Step =
    | Begin(now: int, badRequest: Option<Reason>)
    | Warm(warmRead: Stored, warmRevision: nat)
    | Read(check: nat, stored: Stored, now: int)
    | Attach(check: nat, now: int)
    | Await(check: nat, now: int)
    | Conclude(check: nat, verdict: Verdict, now: int)
    | Catch(check: nat, now: int)
    | Timer(check: nat)
    | Cancel(check: nat)
    | Invalidate
    | Launch(session: nat)
    | Produce(session: nat)
    | Reject(session: nat, error: Reason)
    | Deliver(session: nat)
    | Settle(session: nat)

  // ---- the pieces of the code ----------------------------------------------------------

  predicate Unsettled(c: Check) { c.outcomes == [] }

  /** `finish`: the first outcome counts, the timer is cleared. */
  function Finish(c: Check, o: Outcome): Check {
    if Unsettled(c) then c.(outcomes := [o], timer := false) else c
  }

  /** `controller.abort()`, whose listener finishes the check. */
  function Abort(c: Check): Check {
    if c.aborted then c else Finish(c, Unavailable(Aborted)).(aborted := true)
  }

  /** The timer's callback, also run by `expired()`. */
  function TimeOut(c: Check): Check { Abort(Finish(c, Unavailable(TimedOut))) }

  /** The guard after every await, then `next`. */
  function Guarded(c: Check, now: int, next: Check): Check {
    if c.aborted then c.(progress := Finished)
    else if now >= c.deadline then TimeOut(c).(progress := Finished)
    else next
  }

  /** Writes back a check; `finish` also removes a settled caller from its session. */
  function Put(h: Host, i: nat, c: Check): Host
    requires i < |h.checks|
  {
    var g := h.(checks := h.checks[i := c]);
    if !Unsettled(c) && c.attached.Some? && c.attached.value < |h.sessions| then
      var k := c.attached.value;
      g.(sessions := h.sessions[k := h.sessions[k].(callers := h.sessions[k].callers - {i})])
    else g
  }

  function Closed(s: Session): Session {
    s.(aborted := true, callers := {}, disposals := s.disposals + if s.opening.Ready? then 1 else 0)
  }

  function AbortAll(checks: seq<Check>, callers: set<nat>): (r: seq<Check>)
    ensures |r| == |checks|
    ensures forall i | 0 <= i < |checks| :: r[i] == if i in callers then Abort(checks[i]) else checks[i]
  {
    seq(|checks|, i requires 0 <= i < |checks| => if i in callers then Abort(checks[i]) else checks[i])
  }

  /** `invalidate`: raise the revision, drop the session, abort everything attached to it, dispose its runtime. */
  function Drop(h: Host): Host {
    if h.current.None? || h.current.value >= |h.sessions| then h.(current := None, revision := h.revision + 1)
    else
      var k := h.current.value;
      Host(h.sessions[k := Closed(h.sessions[k])], None, h.revision + 1, AbortAll(h.checks, h.sessions[k].callers))
  }

  function Open(h: Host, fingerprint: string): Host {
    h.(sessions := h.sessions + [Session(fingerprint, Created, false, {}, 0)], current := Some(|h.sessions|))
  }

  /** `select` after its read, past the revision and deadline checks: the host it leaves and what it returns or throws. */
  function Select(h: Host, stored: Stored): (Host, Progress) {
    match stored
    case Unreadable => (h, Thrown(HostError))
    case Malformed => (Drop(h), Thrown(InvalidConfiguration))
    case Absent => (if h.current.Some? then Drop(h) else h, Selected(None))
    case Configured(f) =>
      if h.current.Some? && h.current.value < |h.sessions| && h.sessions[h.current.value].fingerprint == f then (h, Selected(h.current))
      else
        var g := if h.current.Some? then Drop(h) else h;
        (Open(g, f), Selected(Some(|g.sessions|)))
  }

  predicate CanMove(h: Host, i: nat) { i < |h.checks| }

  predicate Enabled(h: Host, step: Step) {
    match step
    case Begin(_, _) => true
    case Warm(_, _) => true
    case Read(i, _, _) => CanMove(h, i) && h.checks[i].progress.Reading?
    case Attach(i, _) => CanMove(h, i) && h.checks[i].progress.Selected?
    case Await(i, _) =>
      && CanMove(h, i) && h.checks[i].progress.Awaiting? && h.checks[i].progress.target < |h.sessions|
      && var o := h.sessions[h.checks[i].progress.target].opening; o.Ready? || o.Failed?
    case Conclude(i, _, _) => CanMove(h, i) && h.checks[i].progress.Checking?
    case Catch(i, _) => CanMove(h, i) && h.checks[i].progress.Thrown?
    case Timer(i) => CanMove(h, i) && h.checks[i].timer
    case Cancel(i) => CanMove(h, i)
    case Invalidate => true
    case Launch(k) => k < |h.sessions| && h.sessions[k].opening.Created?
    case Produce(k) => k < |h.sessions| && h.sessions[k].opening.Pending?
    case Reject(k, _) => k < |h.sessions| && h.sessions[k].opening.Pending?
    case Deliver(k) => k < |h.sessions| && h.sessions[k].opening.Produced?
    case Settle(k) => k < |h.sessions| && h.sessions[k].opening.Failing?
  }

  function AfterRead(h: Host, i: nat, stored: Stored, now: int): Host
    requires i < |h.checks|
  {
    var c := h.checks[i];
    if stored.Unreadable? then Put(h, i, c.(progress := Thrown(HostError)))
    else if c.aborted || c.revision != h.revision then Put(h, i, c.(progress := Thrown(Aborted)))
    else if now >= c.deadline then Put(h, i, c.(progress := Thrown(TimedOut)))
    else
      var (g, p) := Select(h, stored);
      if i < |g.checks| then Put(g, i, g.checks[i].(progress := p)) else g
  }

  /** `attached = await select(...)` and the synchronous code after it. */
  function AfterSelect(h: Host, i: nat, now: int): Host
    requires i < |h.checks| && h.checks[i].progress.Selected?
  {
    var choice := h.checks[i].progress.choice;
    var late := choice.Some? && choice.value < |h.sessions| && h.sessions[choice.value].aborted;
    var c := h.checks[i].(attached := choice, late := late);
    if c.aborted || now >= c.deadline then Put(h, i, Guarded(c, now, c))
    else if choice.None? then Put(h, i, Finish(c, NotConfigured).(progress := Finished))
    else if choice.value >= |h.sessions| then h
    else
      var k := choice.value;
      var g := h.(sessions := h.sessions[k := h.sessions[k].(callers := h.sessions[k].callers + {i})]);
      Put(g, i, c.(progress := if c.badRequest.Some? then Thrown(c.badRequest.value) else Awaiting(k)))
  }

  function AfterReady(h: Host, i: nat, now: int): Host
    requires Enabled(h, Await(i, now))
  {
    var c := h.checks[i];
    var o := h.sessions[c.progress.target].opening;
    if o.Failed? then Put(h, i, c.(progress := Thrown(o.why)))
    else Put(h, i, Guarded(c, now, c.(progress := Checking(c.progress.target))))
  }

  function AfterCheck(h: Host, i: nat, verdict: Verdict, now: int): Host
    requires i < |h.checks|
  {
    var c := h.checks[i];
    match verdict
    case CheckThrew => Put(h, i, c.(progress := Thrown(HostError)))
    case Reported => Put(h, i, Guarded(c, now, Finish(c, Report(now)).(progress := Finished)))
    case WithoutReport => Put(h, i, Guarded(c, now, Finish(c, ReportMissing).(progress := Finished)))
  }

  function At(h: Host, k: nat, s: Session): Host
    requires k < |h.sessions|
  {
    h.(sessions := h.sessions[k := s])
  }

  function Next(h: Host, step: Step): Host
    requires Enabled(h, step)
  {
    match step
    case Begin(now, bad) =>
      h.(checks := h.checks + [Check(now + CHECK_TIMEOUT_MS, bad, h.revision, Reading, None, false, false, true, [])])
    case Warm(stored, revision) => if revision != h.revision then h else Select(h, stored).0
    case Read(i, stored, now) => AfterRead(h, i, stored, now)
    case Attach(i, now) => AfterSelect(h, i, now)
    case Await(i, now) => AfterReady(h, i, now)
    case Conclude(i, verdict, now) => AfterCheck(h, i, verdict, now)
    case Catch(i, now) =>
      var c := h.checks[i];
      Put(h, i, Guarded(c, now, Finish(c, Unavailable(c.progress.error)).(progress := Finished)))
    case Timer(i) => Put(h, i, TimeOut(h.checks[i]))
    case Cancel(i) => Put(h, i, Abort(h.checks[i]))
    case Invalidate => Drop(h)
    case Launch(k) => At(h, k, h.sessions[k].(opening := if h.sessions[k].aborted then Failing(false, Aborted) else Pending))
    case Produce(k) => At(h, k, h.sessions[k].(opening := Produced))
    case Reject(k, error) => At(h, k, h.sessions[k].(opening := Failing(false, error)))
    case Deliver(k) =>
      var s := h.sessions[k];
      At(h, k, if s.aborted then s.(opening := Failing(true, Aborted), disposals := s.disposals + 1) else s.(opening := Ready))
    case Settle(k) =>
      var o := h.sessions[k].opening;
      var g := At(h, k, h.sessions[k].(opening := Failed(o.held, o.why)));
      if h.current == Some(k) then g.(current := None) else g
  }

  function Behave(h: Host, steps: seq<Step>): Option<Host>
    decreases |steps|
  {
    if steps == [] then Some(h)
    else if !Enabled(h, steps[0]) then None
    else Behave(Next(h, steps[0]), steps[1..])
  }

  // ---- invariant -----------------------------------------------------------------------

  /** The disposals a session must have had, by where its opening stands. */
  function DisposalsDue(s: Session): nat {
    match s.opening
    case Ready => if s.aborted then 1 else 0
    case Failing(held, _) => if held then 1 else 0
    case Failed(held, _) => if held then 1 else 0
    case _ => 0
  }

  /** Current exactly while neither aborted nor failed; disposed exactly as often as due. */
  ghost predicate SessionOk(s: Session, isCurrent: bool) {
    && s.disposals == DisposalsDue(s)
    && ((s.opening.Failing? || s.opening.Failed?) && s.opening.held ==> s.aborted)
    && (isCurrent <==> !s.aborted && !s.opening.Failed?)
  }

  /** How far a check may have come, given its session. */
  ghost predicate ProgressOk(sessions: seq<Session>, c: Check) {
    && (c.attached.Some? ==> c.attached.value < |sessions|)
    && (c.progress.Reading? || c.progress.Selected? ==> c.attached.None?)
    && (c.progress.Selected? && c.progress.choice.Some? ==> c.progress.choice.value < |sessions|)
    && (c.progress.Awaiting? || c.progress.Checking? ==> c.attached == Some(c.progress.target))
    && (c.progress.Checking? ==> sessions[c.attached.value].opening.Ready?)
  }

  /** Settled at most once; until then the timer is armed and nothing has aborted it; reports beat the deadline. */
  ghost predicate OutcomeOk(c: Check) {
    && |c.outcomes| <= 1
    && (c.timer <==> Unsettled(c))
    && (c.aborted ==> !Unsettled(c))
    && (c.progress.Finished? ==> !Unsettled(c))
    && (!Unsettled(c) && !c.aborted ==> c.progress.Finished?)
    && (forall o <- c.outcomes :: o.Report? ==> o.at < c.deadline)
  }

  /** An unsettled, attached check is a caller of its session, which is aborted only if it was at the attachment. */
  ghost predicate AttachedOk(sessions: seq<Session>, i: nat, c: Check) {
    Unsettled(c) && c.attached.Some? && c.attached.value < |sessions| ==>
      && i in sessions[c.attached.value].callers
      && (c.late <==> sessions[c.attached.value].aborted)
  }

  ghost predicate CheckOk(sessions: seq<Session>, i: nat, c: Check) {
    OutcomeOk(c) && ProgressOk(sessions, c) && AttachedOk(sessions, i, c)
  }

  /** A caller of a session is an unsettled check attached to it. */
  ghost predicate CallerOk(h: Host, k: nat, i: nat)
    requires k < |h.sessions|
  {
    i in h.sessions[k].callers ==> i < |h.checks| && Unsettled(h.checks[i]) && h.checks[i].attached == Some(k)
  }

  ghost predicate Inv(h: Host) {
    && (h.current.Some? ==> h.current.value < |h.sessions|)
    && (forall k | 0 <= k < |h.sessions| :: SessionOk(h.sessions[k], h.current == Some(k)))
    && (forall i | 0 <= i < |h.checks| :: CheckOk(h.sessions, i, h.checks[i]))
    && (forall k, i | 0 <= k < |h.sessions| && 0 <= i :: CallerOk(h, k, i))
  }

  // ---- preservation --------------------------------------------------------------------

  lemma PutKeeps(h: Host, i: nat, c: Check)
    requires Inv(h) && i < |h.checks|
    requires CheckOk(h.sessions, i, c) && (c.attached == h.checks[i].attached || (h.checks[i].attached.None? && !Unsettled(c)))
    requires Unsettled(c) ==> Unsettled(h.checks[i])
    ensures Inv(Put(h, i, c))
  {
    var g := Put(h, i, c);
    forall k, j | 0 <= k < |g.sessions| && 0 <= j ensures CallerOk(g, k, j) {
      assert CallerOk(h, k, j);
    }
    forall j | 0 <= j < |g.checks| ensures CheckOk(g.sessions, j, g.checks[j]) {
      assert j != i ==> CheckOk(h.sessions, j, h.checks[j]);
    }
  }

  lemma DropKeeps(h: Host)
    requires Inv(h)
    ensures Inv(Drop(h)) && Drop(h).current.None?
    ensures |Drop(h).sessions| == |h.sessions| && |Drop(h).checks| == |h.checks|
    ensures forall i | 0 <= i < |h.checks| && h.checks[i].attached.None? :: Drop(h).checks[i] == h.checks[i]
  {
    if h.current.Some? {
      var k, g := h.current.value, Drop(h);
      forall j | 0 <= j < |g.sessions| ensures SessionOk(g.sessions[j], false) {
        assert SessionOk(h.sessions[j], h.current == Some(j));
      }
      forall j, i | 0 <= j < |g.sessions| && 0 <= i ensures CallerOk(g, j, i) {
        assert CallerOk(h, j, i) && CallerOk(h, k, i);
      }
      forall i | 0 <= i < |g.checks| ensures CheckOk(g.sessions, i, g.checks[i]) {
        assert CheckOk(h.sessions, i, h.checks[i]) && CallerOk(h, k, i);
      }
      assert forall i | 0 <= i < |h.checks| && h.checks[i].attached.None? :: CallerOk(h, k, i);
    } else {
      assert forall k, i | 0 <= k < |h.sessions| && 0 <= i :: CallerOk(h, k, i) ==> CallerOk(Drop(h), k, i);
    }
  }

  lemma OpenKeeps(h: Host, fingerprint: string)
    requires Inv(h) && h.current.None?
    ensures Inv(Open(h, fingerprint))
  {
    var g := Open(h, fingerprint);
    forall k, i | 0 <= k < |g.sessions| && 0 <= i ensures CallerOk(g, k, i) {
      assert k < |h.sessions| ==> CallerOk(h, k, i);
    }
    forall i | 0 <= i < |g.checks| ensures CheckOk(g.sessions, i, g.checks[i]) {
      assert CheckOk(h.sessions, i, h.checks[i]);
    }
  }

  lemma SelectKeeps(h: Host, stored: Stored)
    requires Inv(h)
    ensures var (g, p) := Select(h, stored);
            && Inv(g) && |g.checks| == |h.checks|
            && (p.Thrown? || (p.Selected? && (p.choice.Some? ==> p.choice.value < |g.sessions|)))
            && forall i | 0 <= i < |h.checks| && h.checks[i].attached.None? :: g.checks[i] == h.checks[i]
  {
    DropKeeps(h);
    if stored.Configured? {
      var g := if h.current.Some? then Drop(h) else h;
      if g.current.None? {
        OpenKeeps(g, stored.fingerprint);
      }
    }
  }

  /** A step of one opening, which may end the session's time as the current one. */
  lemma OpeningKeeps(h: Host, k: nat, s: Session, current: Option<nat>)
    requires Inv(h) && k < |h.sessions|
    requires s.callers == h.sessions[k].callers && s.aborted == h.sessions[k].aborted
    requires h.sessions[k].opening.Ready? ==> s.opening.Ready?
    requires SessionOk(s, current == Some(k))
    requires current == h.current || (h.current == Some(k) && current == None)
    ensures Inv(At(h, k, s).(current := current))
  {
    var g := At(h, k, s).(current := current);
    forall j, i | 0 <= j < |g.sessions| && 0 <= i ensures CallerOk(g, j, i) {
      assert CallerOk(h, j, i);
    }
    forall i | 0 <= i < |g.checks| ensures CheckOk(g.sessions, i, g.checks[i]) {
      assert CheckOk(h.sessions, i, h.checks[i]);
    }
  }

  lemma OpeningStepKeeps(h: Host, step: Step)
    requires Inv(h) && Enabled(h, step)
    requires step.Launch? || step.Produce? || step.Reject? || step.Deliver? || step.Settle?
    ensures Inv(Next(h, step))
  {
    var k := step.session;
    var g := Next(h, step);
    assert SessionOk(h.sessions[k], h.current == Some(k));
    assert g == At(h, k, g.sessions[k]).(current := g.current);
    OpeningKeeps(h, k, g.sessions[k], g.current);
  }

  lemma BeginKeeps(h: Host, step: Step)
    requires Inv(h) && step.Begin?
    ensures Inv(Next(h, step))
  {
    var g := Next(h, step);
    forall k, i | 0 <= k < |g.sessions| && 0 <= i ensures CallerOk(g, k, i) {
      assert CallerOk(h, k, i);
    }
  }

  lemma ReadKeeps(h: Host, i: nat, stored: Stored, now: int)
    requires Inv(h) && Enabled(h, Read(i, stored, now))
    ensures Inv(AfterRead(h, i, stored, now))
  {
    var c := h.checks[i];
    assert CheckOk(h.sessions, i, c);
    if stored.Unreadable? {
      PutKeeps(h, i, c.(progress := Thrown(HostError)));
    } else if c.aborted || c.revision != h.revision {
      PutKeeps(h, i, c.(progress := Thrown(Aborted)));
    } else if now >= c.deadline {
      PutKeeps(h, i, c.(progress := Thrown(TimedOut)));
    } else {
      SelectKeeps(h, stored);
      var (g, p) := Select(h, stored);
      PutKeeps(g, i, g.checks[i].(progress := p));
    }
  }

  /** A check joins the callers of its session. */
  lemma JoinKeeps(h: Host, i: nat, k: nat, c: Check, g: Host)
    requires Inv(h) && i < |h.checks| && k < |h.sessions|
    requires h.checks[i].attached.None? && c.attached == Some(k) && Unsettled(c)
    requires OutcomeOk(c) && !c.progress.Reading? && !c.progress.Selected? && !c.progress.Checking?
    requires (c.progress.Awaiting? ==> c.progress.target == k) && c.late == h.sessions[k].aborted
    requires g == h.(checks := h.checks[i := c], sessions := h.sessions[k := h.sessions[k].(callers := h.sessions[k].callers + {i})])
    ensures Inv(g)
  {
    forall m, j | 0 <= m < |g.sessions| && 0 <= j ensures CallerOk(g, m, j) {
      assert CallerOk(h, m, j);
    }
    forall j | 0 <= j < |g.checks| ensures CheckOk(g.sessions, j, g.checks[j]) {
      assert CheckOk(h.sessions, j, h.checks[j]);
    }
    assert SessionOk(h.sessions[k], h.current == Some(k));
  }

  lemma AttachKeeps(h: Host, i: nat, now: int)
    requires Inv(h) && Enabled(h, Attach(i, now))
    ensures Inv(AfterSelect(h, i, now))
  {
    assert CheckOk(h.sessions, i, h.checks[i]);
    var choice := h.checks[i].progress.choice;
    var c := h.checks[i].(attached := choice, late := choice.Some? && h.sessions[choice.value].aborted);
    if c.aborted || now >= c.deadline {
      PutKeeps(h, i, Guarded(c, now, c));
    } else if choice.None? {
      PutKeeps(h, i, Finish(c, NotConfigured).(progress := Finished));
    } else {
      var d := c.(progress := if c.badRequest.Some? then Thrown(c.badRequest.value) else Awaiting(choice.value));
      JoinKeeps(h, i, choice.value, d, AfterSelect(h, i, now));
    }
  }

  lemma AwaitKeeps(h: Host, i: nat, now: int)
    requires Inv(h) && Enabled(h, Await(i, now))
    ensures Inv(AfterReady(h, i, now))
  {
    var c := h.checks[i];
    assert CheckOk(h.sessions, i, c);
    var o := h.sessions[c.progress.target].opening;
    if o.Failed? {
      PutKeeps(h, i, c.(progress := Thrown(o.why)));
    } else {
      PutKeeps(h, i, Guarded(c, now, c.(progress := Checking(c.progress.target))));
    }
  }

  lemma ConcludeKeeps(h: Host, i: nat, verdict: Verdict, now: int)
    requires Inv(h) && Enabled(h, Conclude(i, verdict, now))
    ensures Inv(AfterCheck(h, i, verdict, now))
  {
    var c := h.checks[i];
    assert CheckOk(h.sessions, i, c);
    match verdict
    case CheckThrew => PutKeeps(h, i, c.(progress := Thrown(HostError)));
    case Reported => PutKeeps(h, i, Guarded(c, now, Finish(c, Report(now)).(progress := Finished)));
    case WithoutReport => PutKeeps(h, i, Guarded(c, now, Finish(c, ReportMissing).(progress := Finished)));
  }

  /** The catch handler, the timer and `cancel`. */
  lemma EndingKeeps(h: Host, step: Step)
    requires Inv(h) && Enabled(h, step) && (step.Catch? || step.Timer? || step.Cancel?)
    ensures Inv(Next(h, step))
  {
    var i := step.check;
    var c := h.checks[i];
    assert CheckOk(h.sessions, i, c);
    match step
    case Catch(_, now) => PutKeeps(h, i, Guarded(c, now, Finish(c, Unavailable(c.progress.error)).(progress := Finished)));
    case Timer(_) => PutKeeps(h, i, TimeOut(c));
    case Cancel(_) => PutKeeps(h, i, Abort(c));
  }

  lemma StepKeepsInv(h: Host, step: Step)
    requires Inv(h) && Enabled(h, step)
    ensures Inv(Next(h, step))
  {
    match step
    case Begin(_, _) => BeginKeeps(h, step);
    case Warm(stored, _) => SelectKeeps(h, stored);
    case Read(i, stored, now) => ReadKeeps(h, i, stored, now);
    case Attach(i, now) => AttachKeeps(h, i, now);
    case Invalidate => DropKeeps(h);
    case Await(i, now) => AwaitKeeps(h, i, now);
    case Conclude(i, verdict, now) => ConcludeKeeps(h, i, verdict, now);
    case Catch(_, _) => EndingKeeps(h, step);
    case Timer(_) => EndingKeeps(h, step);
    case Cancel(_) => EndingKeeps(h, step);
    case _ => OpeningStepKeeps(h, step);
  }

  lemma {:induction false} BehaveKeepsInv(h: Host, steps: seq<Step>)
    requires Inv(h) && Behave(h, steps).Some?
    ensures Inv(Behave(h, steps).value)
    decreases |steps|
  {
    if steps != [] {
      StepKeepsInv(h, steps[0]);
      BehaveKeepsInv(Next(h, steps[0]), steps[1..]);
    }
  }

  // ---- what steps leave alone ----------------------------------------------------------

  /** Nothing is forgotten: sessions keep their openings, settled checks their outcomes. */
  ghost predicate Follows(h: Host, g: Host) {
    && |h.sessions| <= |g.sessions| && |h.checks| <= |g.checks|
    && (forall k | 0 <= k < |h.sessions| :: g.sessions[k].opening == h.sessions[k].opening)
    && (forall i | 0 <= i < |h.checks| && h.checks[i].outcomes != [] :: g.checks[i].outcomes == h.checks[i].outcomes)
  }

  lemma PutFollows(h: Host, i: nat, c: Check)
    requires i < |h.checks| && (h.checks[i].outcomes != [] ==> c.outcomes == h.checks[i].outcomes)
    ensures Follows(h, Put(h, i, c))
  {
  }

  lemma SelectFollows(h: Host, stored: Stored)
    ensures Follows(h, Select(h, stored).0) && Follows(h, Drop(h))
  {
  }

  lemma ReadFollows(h: Host, i: nat, stored: Stored, now: int)
    requires Enabled(h, Read(i, stored, now))
    ensures Follows(h, AfterRead(h, i, stored, now))
  {
    var c := h.checks[i];
    SelectFollows(h, stored);
    var (g, p) := Select(h, stored);
    PutFollows(g, i, g.checks[i].(progress := p));
    PutFollows(h, i, c.(progress := Thrown(HostError)));
    PutFollows(h, i, c.(progress := Thrown(Aborted)));
    PutFollows(h, i, c.(progress := Thrown(TimedOut)));
  }

  lemma AttachFollows(h: Host, i: nat, now: int)
    requires Enabled(h, Attach(i, now))
    ensures Follows(h, AfterSelect(h, i, now))
  {
  }

  lemma AwaitFollows(h: Host, i: nat, now: int)
    requires Enabled(h, Await(i, now))
    ensures Follows(h, AfterReady(h, i, now))
  {
    PutFollows(h, i, AfterReady(h, i, now).checks[i]);
  }

  lemma ConcludeFollows(h: Host, i: nat, verdict: Verdict, now: int)
    requires Enabled(h, Conclude(i, verdict, now))
    ensures Follows(h, AfterCheck(h, i, verdict, now))
  {
    PutFollows(h, i, AfterCheck(h, i, verdict, now).checks[i]);
  }

  lemma EndingFollows(h: Host, step: Step)
    requires Enabled(h, step) && (step.Catch? || step.Timer? || step.Cancel?)
    ensures Follows(h, Next(h, step))
  {
    PutFollows(h, step.check, Next(h, step).checks[step.check]);
  }

  /** Every step but those of an opening; and of those only `Settle` fails its session. */
  lemma StepFollows(h: Host, step: Step)
    requires Enabled(h, step)
    ensures var g := Next(h, step);
            && |h.sessions| <= |g.sessions| && |h.checks| <= |g.checks|
            && (forall k | 0 <= k < |h.sessions| && !h.sessions[k].opening.Failed? && g.sessions[k].opening.Failed? :: step == Settle(k))
            && (forall i | 0 <= i < |h.checks| && h.checks[i].outcomes != [] :: g.checks[i].outcomes == h.checks[i].outcomes)
  {
    match step
    case Warm(stored, _) => SelectFollows(h, stored);
    case Read(i, stored, now) => ReadFollows(h, i, stored, now);
    case Attach(i, now) => AttachFollows(h, i, now);
    case Invalidate => SelectFollows(h, Absent);
    case Await(i, now) => AwaitFollows(h, i, now);
    case Conclude(i, verdict, now) => ConcludeFollows(h, i, verdict, now);
    case Catch(_, _) => EndingFollows(h, step);
    case Timer(_) => EndingFollows(h, step);
    case Cancel(_) => EndingFollows(h, step);
    case _ =>
  }

  // ---- every schedule ------------------------------------------------------------------

  /** A runtime that `open` produced is in hand-over, held by the live session, or disposed once: nothing leaks, nothing is disposed twice. */
  lemma RuntimesAreAccountedFor(steps: seq<Step>, k: nat)
    requires Behave(FRESH, steps).Some? && k < |Behave(FRESH, steps).value.sessions|
    ensures var h := Behave(FRESH, steps).value;
            var s := h.sessions[k];
            && (s.opening.Ready? ==> if h.current == Some(k) then s.disposals == 0 else s.disposals == 1)
            && ((s.opening.Failing? || s.opening.Failed?) ==> s.disposals == if s.opening.held then 1 else 0)
            && (s.opening.Created? || s.opening.Pending? || s.opening.Produced? ==> s.disposals == 0)
  {
    BehaveKeepsInv(FRESH, steps);
    var h := Behave(FRESH, steps).value;
    assert SessionOk(h.sessions[k], h.current == Some(k));
  }

  /** A session stops being current only by invalidation or by its own failure, so a late failure never evicts its replacement. */
  lemma OnlyItsOwnFailureEvicts(steps: seq<Step>, step: Step, k: nat)
    requires Behave(FRESH, steps).Some? && Enabled(Behave(FRESH, steps).value, step)
    requires Behave(FRESH, steps).value.current == Some(k)
    ensures var h := Behave(FRESH, steps).value;
            var g := Next(h, step);
            || g.current == Some(k)
            || (k < |g.sessions| && g.sessions[k].aborted)
            || (step == Settle(k) && g.current.None?)
  {
    BehaveKeepsInv(FRESH, steps);
    var h := Behave(FRESH, steps).value;
    StepKeepsInv(h, step);
    var g := Next(h, step);
    StepFollows(h, step);
    assert SessionOk(h.sessions[k], true) && SessionOk(g.sessions[k], g.current == Some(k));
  }

  /** Each check settles at most once, never with a report at or after its deadline, and until it settles its timer is armed. */
  lemma ChecksSettleOnce(steps: seq<Step>, i: nat)
    requires Behave(FRESH, steps).Some? && i < |Behave(FRESH, steps).value.checks|
    ensures var h := Behave(FRESH, steps).value;
            var c := h.checks[i];
            && |c.outcomes| <= 1
            && (forall o <- c.outcomes :: o.Report? ==> o.at < c.deadline)
            && (c.outcomes == [] ==> Enabled(h, Timer(i)) && |Next(h, Timer(i)).checks[i].outcomes| == 1)
  {
    BehaveKeepsInv(FRESH, steps);
    var h := Behave(FRESH, steps).value;
    assert CheckOk(h.sessions, i, h.checks[i]);
  }

  lemma {:induction false} OutcomesStay(h: Host, steps: seq<Step>, i: nat)
    requires Inv(h) && Behave(h, steps).Some? && i < |h.checks| && h.checks[i].outcomes != []
    ensures var g := Behave(h, steps).value; i < |g.checks| && g.checks[i].outcomes == h.checks[i].outcomes
    decreases |steps|
  {
    if steps != [] {
      StepFollows(h, steps[0]);
      StepKeepsInv(h, steps[0]);
      OutcomesStay(Next(h, steps[0]), steps[1..], i);
    }
  }

  /** Settled is for good: no later step changes an outcome. */
  lemma OutcomesAreFinal(before: seq<Step>, after: seq<Step>, i: nat)
    requires Behave(FRESH, before).Some? && Behave(Behave(FRESH, before).value, after).Some?
    requires var h := Behave(FRESH, before).value; i < |h.checks| && h.checks[i].outcomes != []
    ensures var h := Behave(FRESH, before).value;
            var g := Behave(h, after).value;
            i < |g.checks| && g.checks[i].outcomes == h.checks[i].outcomes
  {
    BehaveKeepsInv(FRESH, before);
    OutcomesStay(Behave(FRESH, before).value, after, i);
  }

  /** A check starts on a disposed runtime exactly when its session had been dropped before it attached. */
  lemma StaleExactlyWhenLate(steps: seq<Step>, i: nat, now: int)
    requires Behave(FRESH, steps).Some? && Enabled(Behave(FRESH, steps).value, Await(i, now))
    requires Next(Behave(FRESH, steps).value, Await(i, now)).checks[i].progress.Checking?
    ensures var h := Behave(FRESH, steps).value;
            var k := h.checks[i].progress.target;
            && (h.sessions[k].disposals == if h.checks[i].late then 1 else 0)
            && (h.current == Some(k) <==> !h.checks[i].late)
  {
    BehaveKeepsInv(FRESH, steps);
    var h := Behave(FRESH, steps).value;
    var k := h.checks[i].progress.target;
    assert CheckOk(h.sessions, i, h.checks[i]) && SessionOk(h.sessions[k], h.current == Some(k));
  }

  /** A report comes from the session that is current when it is made, unless the check attached late. */
  lemma ReportsAreCurrent(steps: seq<Step>, i: nat, now: int)
    requires Behave(FRESH, steps).Some? && Enabled(Behave(FRESH, steps).value, Conclude(i, Reported, now))
    requires Behave(FRESH, steps).value.checks[i].outcomes == []
    requires Next(Behave(FRESH, steps).value, Conclude(i, Reported, now)).checks[i].outcomes == [Report(now)]
    ensures var h := Behave(FRESH, steps).value;
            now < h.checks[i].deadline && (h.current == Some(h.checks[i].progress.target) <==> !h.checks[i].late)
  {
    BehaveKeepsInv(FRESH, steps);
    var h := Behave(FRESH, steps).value;
    var k := h.checks[i].progress.target;
    assert CheckOk(h.sessions, i, h.checks[i]) && SessionOk(h.sessions[k], h.current == Some(k));
  }

  // ---- prompt schedules ----------------------------------------------------------------

  /** Nothing comes between a check's selection and its attachment, as when every configuration read resolves in a task of its own. */
  ghost predicate Prompt(h: Host, steps: seq<Step>)
    decreases |steps|
  {
    steps != [] && Enabled(h, steps[0]) ==>
      && (forall i | 0 <= i < |h.checks| && h.checks[i].progress.Selected? :: steps[0].Attach? && steps[0].check == i)
      && Prompt(Next(h, steps[0]), steps[1..])
  }

  /** A selection not yet attached is of the current session, and the check has not attached late. */
  ghost predicate InTime(current: Option<nat>, c: Check) {
    !c.late && (c.progress.Selected? && c.progress.choice.Some? ==> current == c.progress.choice)
  }

  ghost predicate AllInTime(h: Host) {
    forall i | 0 <= i < |h.checks| :: InTime(h.current, h.checks[i])
  }

  /** No check is selected, or becomes late. */
  ghost predicate Quiets(h: Host, g: Host) {
    && |h.checks| <= |g.checks|
    && (forall i | 0 <= i < |h.checks| :: g.checks[i].late == h.checks[i].late && (g.checks[i].progress.Selected? ==> h.checks[i].progress.Selected?))
    && (forall i | |h.checks| <= i < |g.checks| :: !g.checks[i].late && !g.checks[i].progress.Selected?)
  }

  lemma PutQuiets(h: Host, i: nat, c: Check)
    requires i < |h.checks| && c.late == h.checks[i].late && (c.progress.Selected? ==> h.checks[i].progress.Selected?)
    ensures Quiets(h, Put(h, i, c))
  {
  }

  lemma SelectQuiets(h: Host, stored: Stored)
    ensures Quiets(h, Drop(h)) && Quiets(h, Select(h, stored).0)
    ensures var (g, p) := Select(h, stored); p.Selected? && p.choice.Some? ==> g.current == p.choice
  {
  }

  lemma EndingQuiets(h: Host, step: Step)
    requires Enabled(h, step) && (step.Catch? || step.Timer? || step.Cancel?)
    ensures Quiets(h, Next(h, step))
  {
    PutQuiets(h, step.check, Next(h, step).checks[step.check]);
  }

  lemma AwaitQuiets(h: Host, i: nat, now: int)
    requires Enabled(h, Await(i, now))
    ensures Quiets(h, AfterReady(h, i, now))
  {
    PutQuiets(h, i, AfterReady(h, i, now).checks[i]);
  }

  lemma ConcludeQuiets(h: Host, i: nat, verdict: Verdict, now: int)
    requires Enabled(h, Conclude(i, verdict, now))
    ensures Quiets(h, AfterCheck(h, i, verdict, now))
  {
    PutQuiets(h, i, AfterCheck(h, i, verdict, now).checks[i]);
  }

  lemma StepQuiets(h: Host, step: Step)
    requires Enabled(h, step) && !step.Read? && !step.Attach?
    ensures Quiets(h, Next(h, step))
  {
    match step
    case Warm(stored, _) => SelectQuiets(h, stored);
    case Invalidate => SelectQuiets(h, Absent);
    case Await(i, now) => AwaitQuiets(h, i, now);
    case Conclude(i, verdict, now) => ConcludeQuiets(h, i, verdict, now);
    case Catch(_, _) => EndingQuiets(h, step);
    case Timer(_) => EndingQuiets(h, step);
    case Cancel(_) => EndingQuiets(h, step);
    case _ =>
  }

  /** One check takes a new progress in a host where none was selected. */
  lemma ProgressInTime(h: Host, g: Host, i: nat, p: Progress)
    requires AllInTime(h) && Quiets(h, g) && i < |h.checks| && forall j | 0 <= j < |h.checks| :: !h.checks[j].progress.Selected?
    requires p.Selected? && p.choice.Some? ==> g.current == p.choice
    ensures AllInTime(Put(g, i, g.checks[i].(progress := p)))
  {
    var t := Put(g, i, g.checks[i].(progress := p));
    forall j | 0 <= j < |t.checks| ensures InTime(t.current, t.checks[j]) {
      assert j < |h.checks| ==> InTime(h.current, h.checks[j]);
    }
  }

  lemma PromptRead(h: Host, i: nat, stored: Stored, now: int)
    requires AllInTime(h) && Enabled(h, Read(i, stored, now)) && forall j | 0 <= j < |h.checks| :: !h.checks[j].progress.Selected?
    ensures AllInTime(AfterRead(h, i, stored, now))
  {
    var c := h.checks[i];
    if stored.Unreadable? {
      ProgressInTime(h, h, i, Thrown(HostError));
    } else if c.aborted || c.revision != h.revision {
      ProgressInTime(h, h, i, Thrown(Aborted));
    } else if now >= c.deadline {
      ProgressInTime(h, h, i, Thrown(TimedOut));
    } else {
      SelectQuiets(h, stored);
      var (g, p) := Select(h, stored);
      ProgressInTime(h, g, i, p);
    }
  }

  lemma PromptAttach(h: Host, i: nat, now: int)
    requires Inv(h) && AllInTime(h) && Enabled(h, Attach(i, now))
    requires forall j | 0 <= j < |h.checks| && h.checks[j].progress.Selected? :: j == i
    ensures AllInTime(AfterSelect(h, i, now))
  {
    var choice := h.checks[i].progress.choice;
    assert InTime(h.current, h.checks[i]) && CheckOk(h.sessions, i, h.checks[i]);
    if choice.Some? {
      assert SessionOk(h.sessions[choice.value], h.current == Some(choice.value));
    }
    var t := AfterSelect(h, i, now);
    assert t.current == h.current && !t.checks[i].late && !t.checks[i].progress.Selected?;
    forall j | 0 <= j < |t.checks| ensures InTime(t.current, t.checks[j]) {
      assert InTime(h.current, h.checks[j]);
    }
  }

  lemma PromptStep(h: Host, step: Step)
    requires Inv(h) && AllInTime(h) && Enabled(h, step)
    requires forall i | 0 <= i < |h.checks| && h.checks[i].progress.Selected? :: step.Attach? && step.check == i
    ensures AllInTime(Next(h, step))
  {
    match step
    case Read(i, stored, now) => PromptRead(h, i, stored, now);
    case Attach(i, now) => PromptAttach(h, i, now);
    case _ =>
      StepQuiets(h, step);
      var t := Next(h, step);
      forall i | 0 <= i < |t.checks| ensures InTime(t.current, t.checks[i]) {
        assert i < |h.checks| ==> InTime(h.current, h.checks[i]);
      }
  }

  lemma {:induction false} PromptBehave(h: Host, steps: seq<Step>)
    requires Inv(h) && AllInTime(h) && Behave(h, steps).Some? && Prompt(h, steps)
    ensures AllInTime(Behave(h, steps).value)
    decreases |steps|
  {
    if steps != [] {
      StepKeepsInv(h, steps[0]);
      PromptStep(h, steps[0]);
      PromptBehave(Next(h, steps[0]), steps[1..]);
    }
  }

  /** When nothing comes between selection and attachment no check is late: each starts on the undisposed runtime of the current session. */
  lemma PromptChecksAreNeverStale(steps: seq<Step>, i: nat, now: int)
    requires Behave(FRESH, steps).Some? && Prompt(FRESH, steps) && Enabled(Behave(FRESH, steps).value, Await(i, now))
    requires Next(Behave(FRESH, steps).value, Await(i, now)).checks[i].progress.Checking?
    ensures var h := Behave(FRESH, steps).value;
            var k := h.checks[i].progress.target;
            h.sessions[k].disposals == 0 && h.current == Some(k)
  {
    PromptBehave(FRESH, steps);
    StaleExactlyWhenLate(steps, i, now);
    var h := Behave(FRESH, steps).value;
    assert InTime(h.current, h.checks[i]);
  }

  lemma {:induction false} BehaveThen(h: Host, steps: seq<Step>, more: seq<Step>)
    requires Behave(h, steps).Some?
    ensures Behave(h, steps + more) == Behave(Behave(h, steps).value, more)
    decreases |steps|
  {
    if steps == [] {
      assert steps + more == more;
    } else {
      assert (steps + more)[1..] == steps[1..] + more;
      BehaveThen(Next(h, steps[0]), steps[1..], more);
    }
  }

  const READING := Check(CHECK_TIMEOUT_MS, None, 0, Reading, None, false, false, true, [])
  const WARMED := Host([Session("a", Ready, false, {}, 0)], Some(0), 0, [READING, READING])

  lemma WarmedIsReached()
    ensures Behave(FRESH, WARM_UP) == Some(WARMED)
  {
    var steps := WARM_UP;
    var h1 := Next(FRESH, steps[0]);
    var h2 := Next(h1, steps[1]);
    var h3 := Next(h2, steps[2]);
    var h4 := Next(h3, steps[3]);
    var h5 := Next(h4, steps[4]);
    assert Next(h5, steps[5]) == WARMED;
    assert Behave(WARMED, []) == Some(WARMED);
    assert Behave(h5, steps[5..]) == Some(WARMED);
    assert Behave(h4, steps[4..]) == Some(WARMED);
    assert Behave(h3, steps[3..]) == Some(WARMED);
    assert Behave(h2, steps[2..]) == Some(WARMED);
    assert Behave(h1, steps[1..]) == Some(WARMED);
  }

  const REPLACED := Host(
    [Session("a", Ready, true, {}, 1), Session("b", Created, false, {}, 0)], Some(1), 1,
    [READING.(progress := Selected(Some(0))), READING.(progress := Selected(Some(1)))])

  lemma ReplacedIsReached()
    ensures Behave(WARMED, REPLACE) == Some(REPLACED)
  {
    var steps := REPLACE;
    var h := Next(WARMED, steps[0]);
    assert Next(h, steps[1]) == REPLACED;
    assert Behave(REPLACED, []) == Some(REPLACED);
    assert Behave(h, steps[1..]) == Some(REPLACED);
  }

  lemma StaleCheckStarts()
    ensures var h := Behave(REPLACED, STALE); h.Some? && ChecksDisposedRuntime(h.value)
  {
    var steps := STALE;
    var h := Next(REPLACED, steps[0]);
    var g := Next(h, steps[1]);
    assert Behave(g, []) == Some(g);
    assert Behave(h, steps[1..]) == Some(g);
  }

  const WARM_UP := [Warm(Configured("a"), 0), Launch(0), Produce(0), Deliver(0), Begin(0, None), Begin(0, None)]
  const REPLACE := [Read(0, Configured("a"), 0), Read(1, Configured("b"), 0)]
  const STALE := [Attach(0, 0), Await(0, 0)]

  ghost predicate ChecksDisposedRuntime(h: Host) {
    |h.checks| > 0 && h.checks[0].progress == Checking(0) && |h.sessions| > 0 && h.sessions[0].disposals == 1
  }

  /** Such a schedule: a second check reads a new configuration between the first one's selection and attachment. */
  lemma LateAttachmentHappens()
    ensures var h := Behave(FRESH, WARM_UP + (REPLACE + STALE)); h.Some? && ChecksDisposedRuntime(h.value)
  {
    WarmedIsReached();
    ReplacedIsReached();
    StaleCheckStarts();
    BehaveThen(WARMED, REPLACE, STALE);
    BehaveThen(FRESH, WARM_UP, REPLACE + STALE);
  }
}
