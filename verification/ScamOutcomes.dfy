/** Why a scam check ends as it does: every outcome traced to the steps that led to it. */
module ScamOutcomes {
  import opened Common
  import opened ScamHost

  // ---- reasons ---------------------------------------------------------------------------

  /** The check's own read of the configuration found this. */
  ghost predicate ReadIt(steps: seq<Step>, i: nat, stored: Stored) {
    exists now :: Read(i, stored, now) in steps
  }

  predicate IsLate(step: Step, i: nat, deadline: int) {
    (step.Read? || step.Attach? || step.Await? || step.Conclude? || step.Catch?) && step.check == i && step.now >= deadline
  }

  /** The request was bad in this way, or a session could not be opened for it, or the check itself met it. */
  ghost predicate ErrorReason(steps: seq<Step>, revision: nat, i: nat, c: Check, e: Reason) {
    || c.badRequest == Some(e)
    || (exists k :: Reject(k, e) in steps)
    || match e
       case Aborted => Cancel(i) in steps || revision > c.revision
       case TimedOut => Timer(i) in steps || exists step <- steps :: IsLate(step, i, c.deadline)
       case InvalidConfiguration => ReadIt(steps, i, Malformed)
       case HostError => ReadIt(steps, i, Unreadable) || exists now :: Conclude(i, CheckThrew, now) in steps
       case _ => false
  }

  /** Session `k` was opened for the configuration that the check's own read found. */
  ghost predicate ItsSession(steps: seq<Step>, sessions: seq<Session>, i: nat, k: nat) {
    k < |sessions| && ReadIt(steps, i, Configured(sessions[k].fingerprint))
  }

  ghost predicate OutcomeReason(steps: seq<Step>, sessions: seq<Session>, revision: nat, i: nat, c: Check, o: Outcome) {
    match o
    case Report(at) => Conclude(i, Reported, at) in steps && c.attached.Some? && ItsSession(steps, sessions, i, c.attached.value)
    case ReportMissing => exists now :: Conclude(i, WithoutReport, now) in steps
    case NotConfigured => ReadIt(steps, i, Absent)
    case Unavailable(e) => ErrorReason(steps, revision, i, c, e)
  }

  /** Its session may have been dropped only since the check began. */
  ghost predicate HoldsSession(steps: seq<Step>, sessions: seq<Session>, revision: nat, i: nat, c: Check, k: nat) {
    ItsSession(steps, sessions, i, k) && (sessions[k].aborted ==> revision > c.revision)
  }

  ghost predicate ProgressReason(steps: seq<Step>, sessions: seq<Session>, revision: nat, i: nat, c: Check) {
    match c.progress
    case Reading => true
    case Selected(choice) => if choice.None? then ReadIt(steps, i, Absent) else HoldsSession(steps, sessions, revision, i, c, choice.value)
    case Awaiting(k) => HoldsSession(steps, sessions, revision, i, c, k) && c.attached == Some(k)
    case Checking(k) => HoldsSession(steps, sessions, revision, i, c, k) && c.attached == Some(k)
    case Thrown(e) => c.aborted || ErrorReason(steps, revision, i, c, e)
    case Finished => true
  }

  ghost predicate Begun(steps: seq<Step>, c: Check) {
    exists now :: Begin(now, c.badRequest) in steps && c.deadline == now + 2500
  }

  ghost predicate CheckTold(steps: seq<Step>, sessions: seq<Session>, revision: nat, i: nat, c: Check) {
    && c.revision <= revision && Begun(steps, c)
    && (forall o <- c.outcomes :: OutcomeReason(steps, sessions, revision, i, c, o))
    && ProgressReason(steps, sessions, revision, i, c)
  }

  /** A session fails by its own rejection or abortion, and holds a runtime exactly if one was produced for it. */
  ghost predicate SessionTold(steps: seq<Step>, k: nat, s: Session) {
    && (s.opening.Failing? || s.opening.Failed? ==>
          && (Reject(k, s.opening.why) in steps || (s.opening.why == Aborted && s.aborted))
          && (s.opening.held <==> Produce(k) in steps))
    && (s.opening.Created? || s.opening.Pending? ==> Produce(k) !in steps)
    && (s.opening.Produced? || s.opening.Ready? ==> Produce(k) in steps)
  }

  ghost predicate Told(steps: seq<Step>, h: Host) {
    && (forall k: nat :: Produce(k) in steps ==> k < |h.sessions|)
    && (forall k | 0 <= k < |h.sessions| :: SessionTold(steps, k, h.sessions[k]))
    && (forall i | 0 <= i < |h.checks| :: CheckTold(steps, h.sessions, h.revision, i, h.checks[i]))
  }

  // ---- what stays told -------------------------------------------------------------------

  /** Sessions keep what they were opened for, and are dropped only as the revision rises. */
  ghost predicate Grows(sessions: seq<Session>, revision: nat, sessions': seq<Session>, revision': nat) {
    && |sessions| <= |sessions'| && revision <= revision'
    && forall k | 0 <= k < |sessions| ::
         sessions'[k].fingerprint == sessions[k].fingerprint && (sessions'[k].aborted && !sessions[k].aborted ==> revision < revision')
  }

  lemma ReadStays(steps: seq<Step>, step: Step, i: nat, stored: Stored)
    requires ReadIt(steps, i, stored)
    ensures ReadIt(steps + [step], i, stored)
  {
    var now :| Read(i, stored, now) in steps;
    assert Read(i, stored, now) in steps + [step];
  }

  lemma ErrorStays(steps: seq<Step>, step: Step, revision: nat, revision': nat, i: nat, c: Check, e: Reason)
    requires ErrorReason(steps, revision, i, c, e) && revision <= revision'
    ensures ErrorReason(steps + [step], revision', i, c, e)
  {
    assert forall x <- steps :: x in steps + [step];
    if ReadIt(steps, i, Malformed) {
      ReadStays(steps, step, i, Malformed);
    }
    if ReadIt(steps, i, Unreadable) {
      ReadStays(steps, step, i, Unreadable);
    }
  }

  lemma SessionStays(steps: seq<Step>, step: Step, a: seq<Session>, r: nat, b: seq<Session>, r': nat, i: nat, c: Check, k: nat)
    requires Grows(a, r, b, r') && c.revision <= r
    ensures ItsSession(steps, a, i, k) ==> ItsSession(steps + [step], b, i, k)
    ensures HoldsSession(steps, a, r, i, c, k) ==> HoldsSession(steps + [step], b, r', i, c, k)
  {
    if ItsSession(steps, a, i, k) {
      ReadStays(steps, step, i, Configured(a[k].fingerprint));
    }
  }

  lemma OutcomeStays(steps: seq<Step>, step: Step, a: seq<Session>, r: nat, b: seq<Session>, r': nat, i: nat, c: Check, o: Outcome)
    requires Grows(a, r, b, r') && c.revision <= r && OutcomeReason(steps, a, r, i, c, o)
    ensures OutcomeReason(steps + [step], b, r', i, c, o)
  {
    assert forall x <- steps :: x in steps + [step];
    match o
    case Report(_) => SessionStays(steps, step, a, r, b, r', i, c, c.attached.value);
    case NotConfigured => ReadStays(steps, step, i, Absent);
    case Unavailable(e) => ErrorStays(steps, step, r, r', i, c, e);
    case ReportMissing =>
  }

  lemma CheckStays(steps: seq<Step>, step: Step, a: seq<Session>, r: nat, b: seq<Session>, r': nat, i: nat, c: Check)
    requires Grows(a, r, b, r') && CheckTold(steps, a, r, i, c)
    ensures CheckTold(steps + [step], b, r', i, c)
  {
    forall o <- c.outcomes ensures OutcomeReason(steps + [step], b, r', i, c, o) {
      OutcomeStays(steps, step, a, r, b, r', i, c, o);
    }
    var now :| Begin(now, c.badRequest) in steps && c.deadline == now + 2500;
    assert Begin(now, c.badRequest) in steps + [step];
    match c.progress
    case Selected(choice) =>
      if choice.None? {
        ReadStays(steps, step, i, Absent);
      } else {
        SessionStays(steps, step, a, r, b, r', i, c, choice.value);
      }
    case Awaiting(k) => SessionStays(steps, step, a, r, b, r', i, c, k);
    case Checking(k) => SessionStays(steps, step, a, r, b, r', i, c, k);
    case Thrown(e) =>
      if !c.aborted {
        ErrorStays(steps, step, r, r', i, c, e);
      }
    case _ =>
  }

  /** Two states of a check that began the same way and are attached alike. */
  ghost predicate SameBasis(c: Check, d: Check) {
    d.badRequest == c.badRequest && d.revision == c.revision && d.deadline == c.deadline && d.attached == c.attached
  }

  lemma Retold(steps: seq<Step>, sessions: seq<Session>, revision: nat, i: nat, c: Check, d: Check)
    requires CheckTold(steps, sessions, revision, i, c) && SameBasis(c, d)
    requires forall o <- d.outcomes :: o in c.outcomes || OutcomeReason(steps, sessions, revision, i, d, o)
    requires (d.progress == c.progress && (c.aborted ==> d.aborted)) || ProgressReason(steps, sessions, revision, i, d)
    ensures CheckTold(steps, sessions, revision, i, d)
  {
  }

  /** A check whose abort signal fires once the revision has risen. */
  lemma AbortIsTold(steps: seq<Step>, sessions: seq<Session>, revision: nat, i: nat, c: Check)
    requires CheckTold(steps, sessions, revision, i, c) && revision > c.revision
    ensures CheckTold(steps, sessions, revision, i, Abort(c))
  {
    Retold(steps, sessions, revision, i, c, Abort(c));
  }

  /** What a step does to the checks that did not take it: nothing, or it aborts them as the revision rises. */
  ghost predicate OthersStay(h: Host, g: Host, own: nat) {
    && |h.checks| <= |g.checks|
    && forall j | 0 <= j < |h.checks| && j != own ::
         g.checks[j] == h.checks[j] || (g.checks[j] == Abort(h.checks[j]) && g.revision > h.revision)
  }

  ghost predicate SessionsTold(steps: seq<Step>, sessions: seq<Session>) {
    forall k | 0 <= k < |sessions| :: SessionTold(steps, k, sessions[k])
  }

  lemma HostTold(steps: seq<Step>, step: Step, h: Host, g: Host, own: nat)
    requires Told(steps, h) && Grows(h.sessions, h.revision, g.sessions, g.revision) && OthersStay(h, g, own)
    requires SessionsTold(steps + [step], g.sessions) && (step.Produce? ==> step.session < |h.sessions|)
    requires own < |g.checks| ==> CheckTold(steps + [step], g.sessions, g.revision, own, g.checks[own])
    requires |g.checks| <= |h.checks| || (own == |h.checks| && |g.checks| == own + 1)
    ensures Told(steps + [step], g)
  {
    forall j | 0 <= j < |g.checks| ensures CheckTold(steps + [step], g.sessions, g.revision, j, g.checks[j]) {
      if j != own {
        var c := h.checks[j];
        assert CheckTold(steps, h.sessions, h.revision, j, c);
        CheckStays(steps, step, h.sessions, h.revision, g.sessions, g.revision, j, c);
        if g.checks[j] != c {
          AbortIsTold(steps + [step], g.sessions, g.revision, j, c);
        }
      }
    }
  }

  /** Sessions whose openings stay as they were, or are new. */
  lemma OpeningsStay(steps: seq<Step>, step: Step, a: seq<Session>, b: seq<Session>)
    requires SessionsTold(steps, a) && |a| <= |b| && !step.Produce? && forall k: nat :: Produce(k) in steps ==> k < |a|
    requires forall k | 0 <= k < |a| :: b[k].opening == a[k].opening && (a[k].aborted ==> b[k].aborted)
    requires forall k | |a| <= k < |b| :: b[k].opening.Created?
    ensures SessionsTold(steps + [step], b)
  {
    forall k | 0 <= k < |b| ensures SessionTold(steps + [step], k, b[k]) {
      if k < |a| {
        assert SessionTold(steps, k, a[k]);
        assert forall x <- steps :: x in steps + [step];
      }
      assert Produce(k) in steps + [step] <==> Produce(k) in steps;
    }
  }

  ghost predicate OpeningsKept(a: seq<Session>, b: seq<Session>) {
    && |a| <= |b|
    && (forall k | 0 <= k < |a| :: b[k].opening == a[k].opening && (a[k].aborted ==> b[k].aborted))
    && (forall k | |a| <= k < |b| :: b[k].opening.Created?)
  }

  lemma DropFrame(h: Host)
    ensures var g := Drop(h);
            && |g.checks| == |h.checks| && OthersStay(h, g, |h.checks|) && g.revision == h.revision + 1
            && Grows(h.sessions, h.revision, g.sessions, g.revision) && OpeningsKept(h.sessions, g.sessions)
  {
  }

  lemma SelectFrame(h: Host, stored: Stored)
    requires Inv(h)
    ensures var (g, p) := Select(h, stored);
            && |g.checks| == |h.checks| && OthersStay(h, g, |h.checks|)
            && Grows(h.sessions, h.revision, g.sessions, g.revision) && OpeningsKept(h.sessions, g.sessions)
            && p == (match stored
                     case Unreadable => Thrown(HostError)
                     case Malformed => Thrown(InvalidConfiguration)
                     case Absent => Selected(None)
                     case Configured(_) => Selected(g.current))
            && (stored.Configured? ==>
                  && g.current.Some? && g.current.value < |g.sessions|
                  && g.sessions[g.current.value].fingerprint == stored.fingerprint && !g.sessions[g.current.value].aborted)
  {
    DropFrame(h);
    if h.current.Some? {
      assert SessionOk(h.sessions[h.current.value], true);
    }
  }

  // ---- step by step ----------------------------------------------------------------------

  lemma BeginTells(steps: seq<Step>, h: Host, now: int, bad: Option<Reason>)
    requires Told(steps, h)
    ensures Told(steps + [Begin(now, bad)], Next(h, Begin(now, bad)))
  {
    var g := Next(h, Begin(now, bad));
    OpeningsStay(steps, Begin(now, bad), h.sessions, g.sessions);
    var c := g.checks[|h.checks|];
    assert Begin(now, c.badRequest) in steps + [Begin(now, bad)] && c.deadline == now + 2500;
    HostTold(steps, Begin(now, bad), h, g, |h.checks|);
  }

  lemma ReplaceTells(steps: seq<Step>, step: Step, h: Host)
    requires Inv(h) && Told(steps, h) && (step.Warm? || step.Invalidate?)
    ensures Told(steps + [step], Next(h, step))
  {
    var g := Next(h, step);
    if step.Warm? {
      SelectFrame(h, step.warmRead);
    } else {
      DropFrame(h);
    }
    OpeningsStay(steps, step, h.sessions, g.sessions);
    HostTold(steps, step, h, g, |h.checks|);
  }

  /** One check changes, as `Put` writes it, and the rest of the host as it may. */
  lemma PutTells(steps: seq<Step>, step: Step, h: Host, g: Host, i: nat, d: Check)
    requires Told(steps, h) && i < |h.checks| && |g.checks| == |h.checks|
    requires Grows(h.sessions, h.revision, g.sessions, g.revision) && OpeningsKept(h.sessions, g.sessions) && OthersStay(h, g, i)
    requires CheckTold(steps + [step], g.sessions, g.revision, i, d) && !step.Produce?
    ensures Told(steps + [step], Put(g, i, d))
  {
    var t := Put(g, i, d);
    assert OpeningsKept(h.sessions, t.sessions) && Grows(h.sessions, h.revision, t.sessions, t.revision);
    OpeningsStay(steps, step, h.sessions, t.sessions);
    SessionsAlike(steps + [step], g.sessions, t.sessions, g.revision, i, d);
    HostTold(steps, step, h, t, i);
  }

  /** Who calls a session plays no part. */
  lemma SessionsAlike(steps: seq<Step>, a: seq<Session>, b: seq<Session>, revision: nat, i: nat, c: Check)
    requires |a| == |b| && forall k | 0 <= k < |a| :: b[k].fingerprint == a[k].fingerprint && b[k].aborted == a[k].aborted
    requires CheckTold(steps, a, revision, i, c)
    ensures CheckTold(steps, b, revision, i, c)
  {
    forall o <- c.outcomes ensures OutcomeReason(steps, b, revision, i, c, o) {
      assert OutcomeReason(steps, a, revision, i, c, o);
    }
  }

  lemma ReadTells(steps: seq<Step>, h: Host, i: nat, stored: Stored, now: int)
    requires Inv(h) && Told(steps, h) && Enabled(h, Read(i, stored, now))
    ensures Told(steps + [Read(i, stored, now)], AfterRead(h, i, stored, now))
  {
    var c, step := h.checks[i], Read(i, stored, now);
    var after := steps + [step];
    assert step in after && ReadIt(after, i, stored);
    assert CheckOk(h.sessions, i, c) && CheckTold(steps, h.sessions, h.revision, i, c);
    CheckStays(steps, step, h.sessions, h.revision, h.sessions, h.revision, i, c);
    if stored.Unreadable? || c.aborted || c.revision != h.revision || now >= c.deadline {
      var e := if stored.Unreadable? then HostError else if c.aborted || c.revision != h.revision then Aborted else TimedOut;
      assert now >= c.deadline ==> IsLate(step, i, c.deadline);
      ThrownIsTold(after, h.sessions, h.revision, i, c, e);
      PutTells(steps, step, h, h, i, c.(progress := Thrown(e)));
    } else {
      SelectFrame(h, stored);
      var (g, p) := Select(h, stored);
      DropKeeps(h);
      SelectKeeps(h, stored);
      assert g.checks[i] == c;
      CheckStays(steps, step, h.sessions, h.revision, g.sessions, g.revision, i, c);
      Retold(after, g.sessions, g.revision, i, c, c.(progress := p));
      PutTells(steps, step, h, g, i, c.(progress := p));
    }
  }

  lemma ThrownIsTold(steps: seq<Step>, sessions: seq<Session>, revision: nat, i: nat, c: Check, e: Reason)
    requires CheckTold(steps, sessions, revision, i, c) && (c.aborted || ErrorReason(steps, revision, i, c, e))
    ensures CheckTold(steps, sessions, revision, i, c.(progress := Thrown(e)))
  {
    Retold(steps, sessions, revision, i, c, c.(progress := Thrown(e)));
  }

  /** The guard after an await: an aborted check just ends, a late one is timed out, and another goes on as `next`. */
  lemma GuardIsTold(steps: seq<Step>, sessions: seq<Session>, revision: nat, i: nat, c: Check, now: int, next: Check)
    requires CheckTold(steps, sessions, revision, i, c) && (!c.aborted && now < c.deadline ==> CheckTold(steps, sessions, revision, i, next))
    requires now >= c.deadline ==> exists step <- steps :: IsLate(step, i, c.deadline)
    ensures CheckTold(steps, sessions, revision, i, Guarded(c, now, next))
  {
    var d := Guarded(c, now, next);
    if c.aborted || now >= c.deadline {
      Retold(steps, sessions, revision, i, c, d);
    }
  }

  /** A check takes note of its session, and of whether it comes late. */
  lemma AttachedIsTold(steps: seq<Step>, sessions: seq<Session>, revision: nat, i: nat, c: Check, late: bool)
    requires CheckTold(steps, sessions, revision, i, c) && c.progress.Selected? && c.attached.None?
    ensures CheckTold(steps, sessions, revision, i, c.(attached := c.progress.choice, late := late))
  {
    var d := c.(attached := c.progress.choice, late := late);
    forall o <- d.outcomes ensures OutcomeReason(steps, sessions, revision, i, d, o) {
      assert OutcomeReason(steps, sessions, revision, i, c, o);
    }
  }

  lemma AttachTells(steps: seq<Step>, h: Host, i: nat, now: int)
    requires Inv(h) && Told(steps, h) && Enabled(h, Attach(i, now))
    ensures Told(steps + [Attach(i, now)], AfterSelect(h, i, now))
  {
    var step := Attach(i, now);
    var after := steps + [step];
    assert step in after && (now >= h.checks[i].deadline ==> IsLate(step, i, h.checks[i].deadline));
    assert CheckOk(h.sessions, i, h.checks[i]) && CheckTold(steps, h.sessions, h.revision, i, h.checks[i]);
    CheckStays(steps, step, h.sessions, h.revision, h.sessions, h.revision, i, h.checks[i]);
    var choice := h.checks[i].progress.choice;
    var late := choice.Some? && h.sessions[choice.value].aborted;
    var c := h.checks[i].(attached := choice, late := late);
    AttachedIsTold(after, h.sessions, h.revision, i, h.checks[i], late);
    if c.aborted || now >= c.deadline {
      GuardIsTold(after, h.sessions, h.revision, i, c, now, c);
      PutTells(steps, step, h, h, i, Guarded(c, now, c));
    } else if choice.None? {
      var d := Finish(c, NotConfigured).(progress := Finished);
      Retold(after, h.sessions, h.revision, i, c, d);
      PutTells(steps, step, h, h, i, d);
    } else {
      var k := choice.value;
      var d := c.(progress := if c.badRequest.Some? then Thrown(c.badRequest.value) else Awaiting(k));
      Retold(after, h.sessions, h.revision, i, c, d);
      var g := h.(sessions := h.sessions[k := h.sessions[k].(callers := h.sessions[k].callers + {i})]);
      SessionsAlike(after, h.sessions, g.sessions, h.revision, i, d);
      PutTells(steps, step, h, g, i, d);
    }
  }

  lemma AwaitTells(steps: seq<Step>, h: Host, i: nat, now: int)
    requires Inv(h) && Told(steps, h) && Enabled(h, Await(i, now))
    ensures Told(steps + [Await(i, now)], AfterReady(h, i, now))
  {
    var c, step := h.checks[i], Await(i, now);
    var after := steps + [step];
    assert step in after && (now >= c.deadline ==> IsLate(step, i, c.deadline));
    assert CheckTold(steps, h.sessions, h.revision, i, c);
    CheckStays(steps, step, h.sessions, h.revision, h.sessions, h.revision, i, c);
    var k := c.progress.target;
    var o := h.sessions[k].opening;
    if o.Failed? {
      assert SessionTold(steps, k, h.sessions[k]);
      assert Reject(k, o.why) in steps ==> Reject(k, o.why) in after;
      ThrownIsTold(after, h.sessions, h.revision, i, c, o.why);
      PutTells(steps, step, h, h, i, c.(progress := Thrown(o.why)));
    } else {
      var d := c.(progress := Checking(k));
      Retold(after, h.sessions, h.revision, i, c, d);
      GuardIsTold(after, h.sessions, h.revision, i, c, now, d);
      PutTells(steps, step, h, h, i, Guarded(c, now, d));
    }
  }

  lemma ConcludeTells(steps: seq<Step>, h: Host, i: nat, verdict: Verdict, now: int)
    requires Told(steps, h) && Enabled(h, Conclude(i, verdict, now))
    ensures Told(steps + [Conclude(i, verdict, now)], AfterCheck(h, i, verdict, now))
  {
    var c, step := h.checks[i], Conclude(i, verdict, now);
    var after := steps + [step];
    assert step in after && (now >= c.deadline ==> IsLate(step, i, c.deadline));
    assert CheckTold(steps, h.sessions, h.revision, i, c);
    CheckStays(steps, step, h.sessions, h.revision, h.sessions, h.revision, i, c);
    if verdict.CheckThrew? {
      ThrownIsTold(after, h.sessions, h.revision, i, c, HostError);
      PutTells(steps, step, h, h, i, c.(progress := Thrown(HostError)));
    } else {
      var o := if verdict.Reported? then Report(now) else ReportMissing;
      var d := Finish(c, o).(progress := Finished);
      Retold(after, h.sessions, h.revision, i, c, d);
      GuardIsTold(after, h.sessions, h.revision, i, c, now, d);
      PutTells(steps, step, h, h, i, Guarded(c, now, d));
    }
  }

  lemma EndingTells(steps: seq<Step>, step: Step, h: Host)
    requires Inv(h) && Told(steps, h) && Enabled(h, step) && (step.Catch? || step.Timer? || step.Cancel?)
    ensures Told(steps + [step], Next(h, step))
  {
    var i := step.check;
    var c, after := h.checks[i], steps + [step];
    assert step in after;
    assert CheckOk(h.sessions, i, c) && CheckTold(steps, h.sessions, h.revision, i, c);
    CheckStays(steps, step, h.sessions, h.revision, h.sessions, h.revision, i, c);
    match step
    case Timer(_) =>
      Retold(after, h.sessions, h.revision, i, c, TimeOut(c));
      PutTells(steps, step, h, h, i, TimeOut(c));
    case Cancel(_) =>
      Retold(after, h.sessions, h.revision, i, c, Abort(c));
      PutTells(steps, step, h, h, i, Abort(c));
    case Catch(_, now) =>
      assert now >= c.deadline ==> IsLate(step, i, c.deadline);
      var d := Finish(c, Unavailable(c.progress.error)).(progress := Finished);
      if !c.aborted {
        Retold(after, h.sessions, h.revision, i, c, d);
      }
      GuardIsTold(after, h.sessions, h.revision, i, c, now, d);
      PutTells(steps, step, h, h, i, Guarded(c, now, d));
  }

  lemma OpeningTells(steps: seq<Step>, step: Step, h: Host)
    requires Told(steps, h) && Enabled(h, step) && (step.Launch? || step.Produce? || step.Reject? || step.Deliver? || step.Settle?)
    ensures Told(steps + [step], Next(h, step))
  {
    var g := Next(h, step);
    forall k | 0 <= k < |g.sessions| ensures SessionTold(steps + [step], k, g.sessions[k]) {
      assert SessionTold(steps, k, h.sessions[k]);
      assert forall x <- steps :: x in steps + [step];
      assert step in steps + [step];
      assert step != Produce(k) ==> (Produce(k) in steps + [step] <==> Produce(k) in steps);
    }
    HostTold(steps, step, h, g, |h.checks|);
  }

  lemma StepTells(steps: seq<Step>, step: Step, h: Host)
    requires Inv(h) && Told(steps, h) && Enabled(h, step)
    ensures Told(steps + [step], Next(h, step))
  {
    match step
    case Begin(now, bad) => BeginTells(steps, h, now, bad);
    case Warm(_, _) => ReplaceTells(steps, step, h);
    case Invalidate => ReplaceTells(steps, step, h);
    case Read(i, stored, now) => ReadTells(steps, h, i, stored, now);
    case Attach(i, now) => AttachTells(steps, h, i, now);
    case Await(i, now) => AwaitTells(steps, h, i, now);
    case Conclude(i, verdict, now) => ConcludeTells(steps, h, i, verdict, now);
    case Catch(_, _) => EndingTells(steps, step, h);
    case Timer(_) => EndingTells(steps, step, h);
    case Cancel(_) => EndingTells(steps, step, h);
    case _ => OpeningTells(steps, step, h);
  }

  lemma {:induction false} BehaveTells(past: seq<Step>, h: Host, steps: seq<Step>)
    requires Inv(h) && Told(past, h) && Behave(h, steps).Some?
    ensures Told(past + steps, Behave(h, steps).value)
    decreases |steps|
  {
    if steps == [] {
      assert past + steps == past;
    } else {
      StepKeepsInv(h, steps[0]);
      StepTells(past, steps[0], h);
      BehaveTells(past + [steps[0]], Next(h, steps[0]), steps[1..]);
      assert past + [steps[0]] + steps[1..] == past + steps;
    }
  }

  // ---- every schedule --------------------------------------------------------------------

  /**
   However the steps interleave, the outcome of a check is accounted for: a report by the
   runtime's own answer, on a session opened for exactly the configuration this check read;
   `undefined` only by a read that found no configuration; and an unavailable result by a
   cause of that very kind. The deadline is 2500 ms from the beginning.
   */
  lemma OutcomesHaveReasons(steps: seq<Step>, i: nat)
    requires Behave(FRESH, steps).Some? && i < |Behave(FRESH, steps).value.checks|
    ensures var h := Behave(FRESH, steps).value;
            && Begun(steps, h.checks[i])
            && forall o <- h.checks[i].outcomes :: OutcomeReason(steps, h.sessions, h.revision, i, h.checks[i], o)
  {
    BehaveTells([], FRESH, steps);
    assert [] + steps == steps;
    var h := Behave(FRESH, steps).value;
    assert CheckTold(steps, h.sessions, h.revision, i, h.checks[i]);
  }

  /**
   Every runtime that was ever produced, and no other, is in hand-over to its session, or held
   undisposed by the session that is current, or disposed exactly once.
   */
  lemma ProducedRuntimesAreDisposed(steps: seq<Step>, k: nat)
    requires Behave(FRESH, steps).Some? && k < |Behave(FRESH, steps).value.sessions|
    ensures var h := Behave(FRESH, steps).value;
            var s := h.sessions[k];
            s.disposals == if Produce(k) in steps && !s.opening.Produced? && h.current != Some(k) then 1 else 0
  {
    BehaveTells([], FRESH, steps);
    assert [] + steps == steps;
    RuntimesAreAccountedFor(steps, k);
    BehaveKeepsInv(FRESH, steps);
    var h := Behave(FRESH, steps).value;
    assert SessionTold(steps, k, h.sessions[k]) && SessionOk(h.sessions[k], h.current == Some(k));
  }

  /** A configuration read from before an invalidation opens, drops and selects nothing, whether a check or a warm-up made it. */
  lemma EarlierReadsAreFenced(h: Host, i: nat, stored: Stored, now: int, revision: nat)
    requires revision < h.revision
    ensures Next(h, Warm(stored, revision)) == h
    ensures Enabled(h, Read(i, stored, now)) && h.checks[i].revision == revision ==>
              var g := Next(h, Read(i, stored, now));
              g.current == h.current && g.revision == h.revision && |g.sessions| == |h.sessions| && i < |g.checks| && g.checks[i].progress.Thrown?
  {
  }

  /** Whenever it comes first, the timer settles a check as timed out, a cancellation as aborted, and an invalidation so every check of the current session. */
  lemma EndingsSettle(steps: seq<Step>, i: nat, h: Host)
    requires Behave(FRESH, steps) == Some(h) && i < |h.checks| && h.checks[i].outcomes == []
    ensures Enabled(h, Timer(i)) && Next(h, Timer(i)).checks[i].outcomes == [Unavailable(TimedOut)]
    ensures Enabled(h, Cancel(i)) && Next(h, Cancel(i)).checks[i].outcomes == [Unavailable(Aborted)]
    ensures h.checks[i].attached.Some? && h.checks[i].attached == h.current ==>
              i < |Next(h, Invalidate).checks| && Next(h, Invalidate).checks[i].outcomes == [Unavailable(Aborted)]
  {
    BehaveKeepsInv(FRESH, steps);
    assert CheckOk(h.sessions, i, h.checks[i]);
  }

  lemma OneMore(h: Host, step: Step, rest: seq<Step>)
    requires Enabled(h, step)
    ensures Behave(h, [step] + rest) == Behave(Next(h, step), rest)
  {
    assert ([step] + rest)[1..] == rest;
  }

  /** The check about to begin, once it has come so far. */
  function Undisturbed(h: Host, start: int, progress: Progress, attached: Option<nat>): Host {
    h.(checks := h.checks + [Check(start + CHECK_TIMEOUT_MS, None, h.revision, progress, attached, false, false, true, [])])
  }

  lemma Selects(h: Host, start: int, stored: Stored, now: int, choice: Option<nat>)
    requires now < start + 2500
    requires match stored
             case Configured(f) => h.current == choice && choice.Some? && choice.value < |h.sessions| && h.sessions[choice.value].fingerprint == f
             case Absent => h.current.None? && choice.None?
             case _ => false
    ensures Enabled(Undisturbed(h, start, Reading, None), Read(|h.checks|, stored, now))
    ensures Next(Undisturbed(h, start, Reading, None), Read(|h.checks|, stored, now)) == Undisturbed(h, start, Selected(choice), None)
  {
    var u, i := Undisturbed(h, start, Reading, None), |h.checks|;
    assert Select(u, stored) == (u, Selected(choice));
    assert u.checks[i := u.checks[i].(progress := Selected(choice))] == Undisturbed(h, start, Selected(choice), None).checks;
  }

  /** An open check with time left, at this point, on a session that is ready. */
  ghost predicate Running(h: Host, i: nat, k: nat, now: int, progress: Progress) {
    && i < |h.checks| && k < |h.sessions| && h.sessions[k].opening.Ready?
    && h.checks[i].progress == progress && h.checks[i].outcomes == [] && !h.checks[i].aborted
    && now < h.checks[i].deadline && h.checks[i].badRequest.None?
  }

  lemma Attaches(h: Host, i: nat, k: nat, now: int)
    requires Running(h, i, k, now, Selected(Some(k)))
    ensures Enabled(h, Attach(i, now)) && Running(Next(h, Attach(i, now)), i, k, now, Awaiting(k)) && Next(h, Attach(i, now)).current == h.current
  {
  }

  lemma Awaits(h: Host, i: nat, k: nat, now: int)
    requires Running(h, i, k, now, Awaiting(k))
    ensures Enabled(h, Await(i, now)) && Running(Next(h, Await(i, now)), i, k, now, Checking(k)) && Next(h, Await(i, now)).current == h.current
  {
  }

  lemma Concludes(h: Host, i: nat, k: nat, now: int)
    requires Running(h, i, k, now, Checking(k))
    ensures Enabled(h, Conclude(i, Reported, now))
    ensures var g := Next(h, Conclude(i, Reported, now)); i < |g.checks| && g.checks[i].outcomes == [Report(now)] && g.current == h.current
  {
  }

  lemma RunsToReport(h: Host, i: nat, k: nat, now: int)
    requires Running(h, i, k, now, Selected(Some(k)))
    ensures var g := Behave(h, [Attach(i, now), Await(i, now), Conclude(i, Reported, now)]);
            g.Some? && i < |g.value.checks| && g.value.checks[i].outcomes == [Report(now)] && g.value.current == h.current
  {
    Attaches(h, i, k, now);
    var h3 := Next(h, Attach(i, now));
    Awaits(h3, i, k, now);
    var h4 := Next(h3, Await(i, now));
    Concludes(h4, i, k, now);
    OneMore(h, Attach(i, now), [Await(i, now), Conclude(i, Reported, now)]);
    OneMore(h3, Await(i, now), [Conclude(i, Reported, now)]);
    OneMore(h4, Conclude(i, Reported, now), []);
  }

  /** A check begins, and its read selects what is open. */
  lemma BeginsAndSelects(h: Host, start: int, stored: Stored, now: int, choice: Option<nat>, rest: seq<Step>)
    requires now < start + 2500
    requires match stored
             case Configured(f) => h.current == choice && choice.Some? && choice.value < |h.sessions| && h.sessions[choice.value].fingerprint == f
             case Absent => h.current.None? && choice.None?
             case _ => false
    ensures Behave(h, [Begin(start, None), Read(|h.checks|, stored, now)] + rest) == Behave(Undisturbed(h, start, Selected(choice), None), rest)
  {
    var h1, read := Undisturbed(h, start, Reading, None), Read(|h.checks|, stored, now);
    Selects(h, start, stored, now, choice);
    assert [Begin(start, None), read] + rest == [Begin(start, None)] + ([read] + rest);
    OneMore(h, Begin(start, None), [read] + rest);
    assert Next(h, Begin(start, None)) == h1;
    OneMore(h1, read, rest);
  }

  /** A check nobody disturbs, on a host whose session is ready for the stored configuration and within its 2500 ms, ends with the runtime's report. */
  lemma UndisturbedCheckReports(h: Host, k: nat, start: int, now: int)
    requires now < start + 2500 && h.current == Some(k) && k < |h.sessions| && h.sessions[k].opening.Ready?
    ensures var i, stored := |h.checks|, Configured(h.sessions[k].fingerprint);
            var g := Behave(h, [Begin(start, None), Read(i, stored, now)] + [Attach(i, now), Await(i, now), Conclude(i, Reported, now)]);
            g.Some? && i < |g.value.checks| && g.value.checks[i].outcomes == [Report(now)] && g.value.current == h.current
  {
    var i, stored := |h.checks|, Configured(h.sessions[k].fingerprint);
    BeginsAndSelects(h, start, stored, now, Some(k), [Attach(i, now), Await(i, now), Conclude(i, Reported, now)]);
    var u := Undisturbed(h, start, Selected(Some(k)), None);
    assert Running(u, i, k, now, Selected(Some(k)));
    RunsToReport(u, i, k, now);
  }

  /** And where nothing is configured and no session is open, with `undefined`. */
  lemma UnconfiguredCheckIsSilent(h: Host, start: int, now: int)
    requires now < start + 2500 && h.current.None?
    ensures var i := |h.checks|;
            var g := Behave(h, [Begin(start, None), Read(i, Absent, now)] + [Attach(i, now)]);
            g.Some? && i < |g.value.checks| && g.value.checks[i].outcomes == [NotConfigured]
  {
    var i := |h.checks|;
    BeginsAndSelects(h, start, Absent, now, None, [Attach(i, now)]);
    OneMore(Undisturbed(h, start, Selected(None), None), Attach(i, now), []);
  }
}
