/**
 The publisher of scam bundles: any number of processes write one env/profile directory
 under an exclusive lock file, a write-once file per sequence and a renamed `latest.json`.
 A process may be killed between any two file operations, and an operator may clear the
 lock a dead process left.
 */
module ScamPublish {
  import opened Common

  const MAX_SEQUENCE: nat := 0x1_0000000000000000_0000000000000000_0000000000000000_0000000000000000 - 1

  datatype Bundle = Bundle(sequence: nat, content: string)

  /** A signed wrapper of this scope, or any other file. */
  datatype File = Foreign | Wrapper(bundle: Bundle)

  /** The next file operation of a publisher inside its critical section. */
  datatype Phase = Checking | WritingVersion | WritingTemporary | Renaming | RemovingTemporary | RemovingLock

  datatype Publisher =
    | Waiting(bundle: Bundle)
    | Holding(bundle: Bundle, phase: Phase)
    | Stopped
    | Killed

  /** `lock` is the process that created the lock file, `log` every bundle `latest.json` was replaced by. */
  datatype Directory = Directory(
    lock: Option<nat>,
    versions: map<nat, File>,
    latest: Option<File>,
    temporaries: map<nat, Bundle>,
    publishers: map<nat, Publisher>,
    log: seq<Bundle>)

  datatype Action =
    | Start(pid: nat, bundle: Bundle)
    | Acquire(pid: nat)
    | Proceed(pid: nat)
    | Kill(pid: nat)
    | ClearStaleLock

  predicate Running(d: Directory, pid: nat) {
    pid in d.publishers && (d.publishers[pid].Waiting? || d.publishers[pid].Holding?)
  }

  predicate Enabled(d: Directory, a: Action) {
    match a
    case Start(pid, bundle) => !Running(d, pid) && bundle.sequence <= MAX_SEQUENCE
    case Acquire(pid) => pid in d.publishers && d.publishers[pid].Waiting?
    case Proceed(pid) => pid in d.publishers && d.publishers[pid].Holding?
    case Kill(pid) => Running(d, pid)
    // The operator removes a lock only after seeing that its process is gone.
    case ClearStaleLock => d.lock.Some? && !Running(d, d.lock.value)
  }

  /** `checkPrevious`: the number is new, and above the one `latest.json` carries. */
  predicate PreviousAllows(d: Directory, bundle: Bundle) {
    && bundle.sequence !in d.versions
    && match d.latest
       case None => true
       case Some(Foreign) => false
       case Some(Wrapper(previous)) => previous.sequence <= MAX_SEQUENCE && previous.sequence < bundle.sequence
  }

  function At(d: Directory, pid: nat, bundle: Bundle, phase: Phase): Directory {
    d.(publishers := d.publishers[pid := Holding(bundle, phase)])
  }

  /** One file operation of the holder; a failed one goes to the clean-up. */
  function Proceeds(d: Directory, pid: nat, bundle: Bundle, phase: Phase): Directory {
    match phase
    case Checking =>
      At(d, pid, bundle, if PreviousAllows(d, bundle) then WritingVersion else RemovingTemporary)
    case WritingVersion =>
      if bundle.sequence in d.versions then At(d, pid, bundle, RemovingTemporary)
      else At(d, pid, bundle, WritingTemporary).(versions := d.versions[bundle.sequence := Wrapper(bundle)])
    case WritingTemporary =>
      if pid in d.temporaries then At(d, pid, bundle, RemovingTemporary)
      else At(d, pid, bundle, Renaming).(temporaries := d.temporaries[pid := bundle])
    case Renaming =>
      if pid !in d.temporaries then At(d, pid, bundle, RemovingTemporary)
      else At(d, pid, bundle, RemovingTemporary).(
             latest := Some(Wrapper(d.temporaries[pid])),
             log := d.log + [d.temporaries[pid]],
             temporaries := d.temporaries - {pid})
    case RemovingTemporary =>
      At(d, pid, bundle, RemovingLock).(temporaries := d.temporaries - {pid})
    case RemovingLock =>
      d.(lock := None, publishers := d.publishers[pid := Stopped])
  }

  function Apply(d: Directory, a: Action): Directory
    requires Enabled(d, a)
  {
    match a
    case Start(pid, bundle) => d.(publishers := d.publishers[pid := Waiting(bundle)])
    case Acquire(pid) =>
      // open with "wx" fails when the lock file exists, and nobody steals it
      if d.lock.Some? then d.(publishers := d.publishers[pid := Stopped])
      else At(d, pid, d.publishers[pid].bundle, Checking).(lock := Some(pid))
    case Proceed(pid) => Proceeds(d, pid, d.publishers[pid].bundle, d.publishers[pid].phase)
    case Kill(pid) => d.(publishers := d.publishers[pid := Killed])
    case ClearStaleLock => d.(lock := None)
  }

  function Behave(d: Directory, actions: seq<Action>): Option<Directory>
    decreases |actions|
  {
    if actions == [] then Some(d)
    else if !Enabled(d, actions[0]) then None
    else Behave(Apply(d, actions[0]), actions[1..])
  }

  predicate Idle(d: Directory) {
    d.publishers == map[] && d.log == []
  }

  /** Only the process whose lock file exists is between its lock and its clean-up. */
  ghost predicate OneWriter(d: Directory) {
    forall pid <- d.publishers :: d.publishers[pid].Holding? ==> d.lock == Some(pid)
  }

  ghost predicate Above(d: Directory, bundle: Bundle) {
    d.latest.None? || (d.latest.value.Wrapper? && d.latest.value.bundle.sequence < bundle.sequence)
  }

  ghost predicate IsVersion(d: Directory, bundle: Bundle) {
    bundle.sequence in d.versions && d.versions[bundle.sequence] == Wrapper(bundle)
  }

  ghost predicate HolderOk(d: Directory, pid: nat, bundle: Bundle, phase: Phase) {
    && (phase.WritingVersion? || phase.WritingTemporary? || phase.Renaming? ==> Above(d, bundle))
    && (phase.WritingTemporary? || phase.Renaming? ==> IsVersion(d, bundle))
    && (phase.Renaming? ==> pid in d.temporaries && d.temporaries[pid] == bundle)
  }

  ghost predicate HoldersOk(d: Directory) {
    forall pid <- d.publishers :: d.publishers[pid].Holding? ==>
      HolderOk(d, pid, d.publishers[pid].bundle, d.publishers[pid].phase)
  }

  ghost predicate Rising(log: seq<Bundle>) {
    forall i, j | 0 <= i < j < |log| :: log[i].sequence < log[j].sequence
  }

  ghost predicate LogOk(d: Directory) {
    && Rising(d.log)
    && (d.log != [] ==> d.latest == Some(Wrapper(d.log[|d.log| - 1])))
    && forall b <- d.log :: IsVersion(d, b)
  }

  ghost predicate Inv(d: Directory) {
    OneWriter(d) && HoldersOk(d) && LogOk(d)
  }

  ghost predicate Extends(d: Directory, e: Directory) {
    && d.log <= e.log
    && forall n <- d.versions :: n in e.versions && e.versions[n] == d.versions[n]
  }

  lemma ProceedKeepsInv(d: Directory, pid: nat)
    requires Inv(d) && Enabled(d, Proceed(pid))
    ensures Inv(Apply(d, Proceed(pid))) && Extends(d, Apply(d, Proceed(pid)))
  {
    var p := d.publishers[pid];
    var e := Apply(d, Proceed(pid));
    assert forall other <- d.publishers | other != pid :: !d.publishers[other].Holding?;
    match p.phase
    case Checking => assert e.log == d.log;
    case WritingVersion => assert e.log == d.log;
    case WritingTemporary => assert e.log == d.log;
    case Renaming =>
      assert e.log == d.log + [p.bundle];
      assert Rising(e.log);
    case RemovingTemporary => assert e.log == d.log;
    case RemovingLock => assert e.log == d.log;
  }

  lemma ActionKeepsInv(d: Directory, a: Action)
    requires Inv(d) && Enabled(d, a)
    ensures Inv(Apply(d, a)) && Extends(d, Apply(d, a))
  {
    if a.Proceed? {
      ProceedKeepsInv(d, a.pid);
    } else {
      var e := Apply(d, a);
      assert e.log == d.log && e.versions == d.versions && e.latest == d.latest && e.temporaries == d.temporaries;
      assert LogOk(e);
    }
  }

  lemma {:induction false} BehaveKeepsInv(d: Directory, actions: seq<Action>)
    requires Inv(d) && Behave(d, actions).Some?
    ensures Inv(Behave(d, actions).value) && Extends(d, Behave(d, actions).value)
    decreases |actions|
  {
    if actions != [] {
      var e := Apply(d, actions[0]);
      ActionKeepsInv(d, actions[0]);
      BehaveKeepsInv(e, actions[1..]);
      var f := Behave(d, actions).value;
      assert d.log == e.log[..|d.log|] && e.log == f.log[..|e.log|];
    }
  }

  /**
   Any interleaving of publishers, kills and stale-lock clearings keeps one writer,
   write-once sequence files, and a strictly rising `latest.json` that is one of them.
   */
  lemma LockedPublishersAreSafe(d: Directory, before: seq<Action>, after: seq<Action>)
    requires Idle(d) && Behave(d, before).Some?
    requires Behave(Behave(d, before).value, after).Some?
    ensures var mid := Behave(d, before).value;
            var end := Behave(mid, after).value;
            && (forall p, q | p in end.publishers && q in end.publishers ::
                  end.publishers[p].Holding? && end.publishers[q].Holding? ==> p == q)
            && mid.log <= end.log && Rising(end.log)
            && (end.log != [] ==>
                  && end.latest == Some(Wrapper(end.log[|end.log| - 1]))
                  && IsVersion(end, end.log[|end.log| - 1]))
            && (forall n <- mid.versions :: n in end.versions && end.versions[n] == mid.versions[n])
  {
    BehaveKeepsInv(d, before);
    BehaveKeepsInv(Behave(d, before).value, after);
  }

  /** The first replacement too goes up: from whatever wrapper `latest.json` held before. */
  lemma RenameRaisesLatest(d: Directory, actions: seq<Action>, pid: nat)
    requires Idle(d) && Behave(d, actions).Some?
    requires var e := Behave(d, actions).value; Enabled(e, Proceed(pid)) && e.publishers[pid].phase == Renaming
    ensures var e := Behave(d, actions).value;
            var f := Apply(e, Proceed(pid));
            && f.latest == Some(Wrapper(e.publishers[pid].bundle))
            && (e.latest.Some? ==> e.latest.value.Wrapper? && e.latest.value.bundle.sequence < f.latest.value.bundle.sequence)
  {
    BehaveKeepsInv(d, actions);
  }

  // ---- one publisher ---------------------------------------------------------------

  lemma FirstAction(d: Directory, a: Action, rest: seq<Action>)
    requires Enabled(d, a)
    ensures Behave(d, [a] + rest) == Behave(Apply(d, a), rest)
  {
    assert ([a] + rest)[1..] == rest;
  }

  ghost function Proceedings(pid: nat, n: nat): seq<Action> {
    if n == 0 then [] else [Proceed(pid)] + Proceedings(pid, n - 1)
  }

  /** The holder of the lock carries on from one phase to the next. */
  lemma ProceedsOn(d: Directory, pid: nat, bundle: Bundle, phase: Phase, n: nat)
    requires pid in d.publishers && d.publishers[pid] == Holding(bundle, phase) && n > 0
    ensures Behave(d, Proceedings(pid, n)) == Behave(Proceeds(d, pid, bundle, phase), Proceedings(pid, n - 1))
  {
    FirstAction(d, Proceed(pid), Proceedings(pid, n - 1));
  }

  lemma Enters(d: Directory, pid: nat, bundle: Bundle, n: nat)
    requires d.lock.None? && !Running(d, pid) && bundle.sequence <= MAX_SEQUENCE
    ensures Behave(d, [Start(pid, bundle), Acquire(pid)] + Proceedings(pid, n)) ==
            Behave(At(d.(lock := Some(pid)), pid, bundle, Checking), Proceedings(pid, n))
  {
    var e := Apply(d, Start(pid, bundle));
    assert [Start(pid, bundle), Acquire(pid)] + Proceedings(pid, n) == [Start(pid, bundle)] + ([Acquire(pid)] + Proceedings(pid, n));
    FirstAction(d, Start(pid, bundle), [Acquire(pid)] + Proceedings(pid, n));
    FirstAction(e, Acquire(pid), Proceedings(pid, n));
    assert Apply(e, Acquire(pid)) == At(d.(lock := Some(pid)), pid, bundle, Checking);
  }

  /** The number is new and above the one `latest.json` carries, if it is a wrapper at all. */
  ghost predicate Publishable(d: Directory, bundle: Bundle) {
    && bundle.sequence !in d.versions
    && (d.latest.Some? ==> d.latest.value.Wrapper? && d.latest.value.bundle.sequence < bundle.sequence)
  }

  lemma CleansUp(d: Directory, pid: nat, bundle: Bundle)
    requires pid in d.publishers && d.publishers[pid] == Holding(bundle, RemovingTemporary)
    ensures Behave(d, Proceedings(pid, 2)) ==
            Some(d.(lock := None, temporaries := d.temporaries - {pid}, publishers := d.publishers[pid := Stopped]))
  {
    ProceedsOn(d, pid, bundle, RemovingTemporary, 2);
    var e := Proceeds(d, pid, bundle, RemovingTemporary);
    ProceedsOn(e, pid, bundle, RemovingLock, 1);
    assert e.publishers[pid := Stopped] == d.publishers[pid := Stopped];
  }

  lemma Writes(d: Directory, pid: nat, bundle: Bundle)
    requires pid in d.publishers && d.publishers[pid] == Holding(bundle, WritingVersion)
    requires bundle.sequence !in d.versions && pid !in d.temporaries
    ensures Behave(d, Proceedings(pid, 5)) ==
            Some(Directory(None, d.versions[bundle.sequence := Wrapper(bundle)], Some(Wrapper(bundle)), d.temporaries - {pid},
                           d.publishers[pid := Stopped], d.log + [bundle]))
  {
    ProceedsOn(d, pid, bundle, WritingVersion, 5);
    var e := Proceeds(d, pid, bundle, WritingVersion);
    ProceedsOn(e, pid, bundle, WritingTemporary, 4);
    var f := Proceeds(e, pid, bundle, WritingTemporary);
    ProceedsOn(f, pid, bundle, Renaming, 3);
    var g := Proceeds(f, pid, bundle, Renaming);
    CleansUp(g, pid, bundle);
    assert g.temporaries - {pid} == d.temporaries - {pid} && g.publishers[pid := Stopped] == d.publishers[pid := Stopped];
  }

  lemma Publishes(d: Directory, pid: nat, bundle: Bundle)
    requires d.lock.None? && !Running(d, pid) && bundle.sequence <= MAX_SEQUENCE && pid !in d.temporaries && Publishable(d, bundle)
    ensures Behave(d, [Start(pid, bundle), Acquire(pid)] + Proceedings(pid, 6)) ==
            Some(Directory(None, d.versions[bundle.sequence := Wrapper(bundle)], Some(Wrapper(bundle)), d.temporaries,
                           d.publishers[pid := Stopped], d.log + [bundle]))
  {
    var e := At(d.(lock := Some(pid)), pid, bundle, Checking);
    Enters(d, pid, bundle, 6);
    ProceedsOn(e, pid, bundle, Checking, 6);
    var f := Proceeds(e, pid, bundle, Checking);
    Writes(f, pid, bundle);
    assert f.publishers[pid := Stopped] == d.publishers[pid := Stopped] && d.temporaries - {pid} == d.temporaries;
  }

  lemma Refuses(d: Directory, pid: nat, bundle: Bundle)
    requires d.lock.None? && !Running(d, pid) && bundle.sequence <= MAX_SEQUENCE && pid !in d.temporaries && !Publishable(d, bundle)
    ensures Behave(d, [Start(pid, bundle), Acquire(pid)] + Proceedings(pid, 3)) == Some(d.(publishers := d.publishers[pid := Stopped]))
  {
    var e := At(d.(lock := Some(pid)), pid, bundle, Checking);
    Enters(d, pid, bundle, 3);
    ProceedsOn(e, pid, bundle, Checking, 3);
    var f := Proceeds(e, pid, bundle, Checking);
    CleansUp(f, pid, bundle);
    assert f.publishers[pid := Stopped] == d.publishers[pid := Stopped] && d.temporaries - {pid} == d.temporaries;
  }

  lemma StopsAtTheLock(d: Directory, pid: nat, bundle: Bundle)
    requires d.lock.Some? && !Running(d, pid) && bundle.sequence <= MAX_SEQUENCE
    ensures Behave(d, [Start(pid, bundle)] + [Acquire(pid)]) == Some(d.(publishers := d.publishers[pid := Stopped]))
  {
    var s := Apply(d, Start(pid, bundle));
    FirstAction(d, Start(pid, bundle), [Acquire(pid)]);
    FirstAction(s, Acquire(pid), []);
    assert s.publishers[pid := Stopped] == d.publishers[pid := Stopped];
  }

  /**
   A publisher nobody disturbs. With the lock free it leaves one new version file and makes
   it `latest.json`, and removes its lock and temporary file, exactly when the number is new
   and above the latest; otherwise it leaves the directory as it found it. With the lock taken
   it stops at once.
   */
  lemma UndisturbedPublish(d: Directory, pid: nat, bundle: Bundle)
    requires !Running(d, pid) && bundle.sequence <= MAX_SEQUENCE && pid !in d.temporaries
    ensures d.lock.None? && Publishable(d, bundle) ==>
              Behave(d, [Start(pid, bundle), Acquire(pid)] + Proceedings(pid, 6)) ==
              Some(Directory(None, d.versions[bundle.sequence := Wrapper(bundle)], Some(Wrapper(bundle)), d.temporaries,
                             d.publishers[pid := Stopped], d.log + [bundle]))
    ensures d.lock.None? && !Publishable(d, bundle) ==>
              Behave(d, [Start(pid, bundle), Acquire(pid)] + Proceedings(pid, 3)) == Some(d.(publishers := d.publishers[pid := Stopped]))
    ensures d.lock.Some? ==>
              Behave(d, [Start(pid, bundle)] + [Acquire(pid)]) == Some(d.(publishers := d.publishers[pid := Stopped]))
  {
    if d.lock.Some? {
      StopsAtTheLock(d, pid, bundle);
    } else if Publishable(d, bundle) {
      Publishes(d, pid, bundle);
    } else {
      Refuses(d, pid, bundle);
    }
  }

  /** A publisher can be killed at any time, and leaves everything as it is, its lock included; a lock is cleared only once its owner is gone. */
  lemma KillsLeaveTheLock(d: Directory, pid: nat)
    requires Running(d, pid)
    ensures Enabled(d, Kill(pid)) && Apply(d, Kill(pid)) == d.(publishers := d.publishers[pid := Killed])
    ensures d.lock == Some(pid) ==> !Enabled(d, ClearStaleLock) && Enabled(Apply(d, Kill(pid)), ClearStaleLock)
    ensures d.lock == Some(pid) ==> Apply(Apply(d, Kill(pid)), ClearStaleLock) == Apply(d, Kill(pid)).(lock := None)
  {
  }
}

/**
 The publisher of policy bundles: one process at a time takes the counter's successor,
 refuses if that version exists, then writes the version file, `latest.json` and the
 counter, in that order. Only kills interrupt it.
 */
module PolicyPublish {
  import opened Common

  /** Number.MAX_SAFE_INTEGER */
  const MAX_SEQUENCE: nat := 0x1F_FFFF_FFFF_FFFF

  /** Contents of a profile directory; files are named by sequence, `latest` is the sequence inside `latest.json`. */
  datatype Profile = Profile(versions: map<nat, string>, latest: Option<nat>, counter: nat)

  /** How far a publish gets: rejected before writing, or killed after `written` of its three writes. */
  datatype Outcome = Rejected | Published(written: nat)

  /** One publish of `content`, killed after at most `budget` writes (3 when it is not killed). */
  function Publish(p: Profile, content: string, budget: nat): (Profile, Outcome) {
    var sequence := p.counter + 1;
    if sequence > MAX_SEQUENCE || sequence in p.versions then (p, Rejected) else
    var v := if budget >= 1 then p.(versions := p.versions[sequence := content]) else p;
    var l := if budget >= 2 then v.(latest := Some(sequence)) else v;
    var c := if budget >= 3 then l.(counter := sequence) else l;
    (c, Published(if budget > 3 then 3 else budget))
  }

  /** The profile directory on disk; `budget` is the number of writes the process lives to make. */
  class ProfileDirectory {
    var versions: map<nat, string>
    var latest: Option<nat>
    var counter: nat

    function Contents(): Profile
      reads this
    {
      Profile(versions, latest, counter)
    }

    method PublishPolicyBundle(content: string, budget: nat) returns (outcome: Outcome)
      modifies this
      ensures (Contents(), outcome) == Publish(old(Contents()), content, budget)
    {
      var sequence := counter + 1;
      if sequence > MAX_SEQUENCE || sequence in versions {
        return Rejected;
      }
      if budget == 0 { return Published(0); }
      versions := versions[sequence := content];
      if budget == 1 { return Published(1); }
      latest := Some(sequence);
      if budget == 2 { return Published(2); }
      counter := sequence;
      return Published(3);
    }
  }

  /** A history of publishes, each with its content and the number of writes it survived. */
  function PublishAll(p: Profile, attempts: seq<(string, nat)>): Profile {
    if attempts == [] then p
    else
      var last := attempts[|attempts| - 1];
      Publish(PublishAll(p, attempts[..|attempts| - 1]), last.0, last.1).0
  }

  ghost predicate Consistent(p: Profile) {
    && (forall n <- p.versions :: n <= p.counter + 1)
    && (p.latest == Some(p.counter) || (p.counter == 0 && p.latest == None)
        || (p.latest == Some(p.counter + 1) && p.counter + 1 in p.versions))
    && (p.latest.Some? ==> p.latest.value in p.versions)
  }

  /**
   Over any history of publishes, killed anywhere: version files are never rewritten,
   `latest.json` is at the counter or one above it, and it names an existing version.
   */
  lemma {:induction false} KilledPublishesAreSafe(p: Profile, attempts: seq<(string, nat)>)
    requires Consistent(p)
    ensures var q := PublishAll(p, attempts);
            && Consistent(q)
            && p.counter <= q.counter
            && forall n <- p.versions :: n in q.versions && q.versions[n] == p.versions[n]
    decreases |attempts|
  {
    if attempts != [] {
      KilledPublishesAreSafe(p, attempts[..|attempts| - 1]);
    }
  }

  ghost predicate Wedged(p: Profile) {
    p.counter + 1 in p.versions
  }

  /** A kill between the version file and the counter wedges the profile: every later publish is refused. */
  lemma {:induction false} WedgedForever(p: Profile, attempts: seq<(string, nat)>)
    requires Wedged(p)
    ensures PublishAll(p, attempts) == p
    ensures forall content, budget :: Publish(p, content, budget).1 == Rejected
    decreases |attempts|
  {
    if attempts != [] {
      WedgedForever(p, attempts[..|attempts| - 1]);
    }
  }

  /** And only that: a publish into a consistent profile leaves it open exactly when it was not killed after the first write. */
  lemma WedgesIffKilledBeforeCounter(p: Profile, content: string, budget: nat)
    requires Consistent(p) && !Wedged(p) && p.counter < MAX_SEQUENCE
    ensures Wedged(Publish(p, content, budget).0) <==> budget == 1 || budget == 2
  {
    var q := Publish(p, content, budget).0;
    if budget >= 3 {
      assert p.counter + 2 !in q.versions;
    }
  }

  /** Publishes that are not killed. */
  function Whole(contents: seq<string>): seq<(string, nat)> {
    seq(|contents|, i requires 0 <= i < |contents| => (contents[i], 3))
  }

  /**
   Publishes that run to their end take consecutive numbers from the counter on, each into a
   version file of its own in the order they came, with `latest.json` and the counter at the
   last of them and every other file as it was, while numbers last.
   */
  lemma {:induction false} WholePublishesAreConsecutive(p: Profile, contents: seq<string>)
    requires (forall n <- p.versions :: n <= p.counter) && p.counter + |contents| <= MAX_SEQUENCE
    ensures var q := PublishAll(p, Whole(contents));
            && q.counter == p.counter + |contents|
            && q.latest == (if contents == [] then p.latest else Some(q.counter))
            && (forall n :: n in q.versions <==> n in p.versions || p.counter < n <= q.counter)
            && (forall n <- p.versions :: q.versions[n] == p.versions[n])
            && (forall i | 0 <= i < |contents| :: q.versions[p.counter + 1 + i] == contents[i])
    decreases |contents|
  {
    if contents != [] {
      var init := contents[..|contents| - 1];
      WholePublishesAreConsecutive(p, init);
      assert Whole(contents)[..|contents| - 1] == Whole(init);
    }
  }

  /** At the last number a publish is refused, and otherwise only where that version exists already; one that is not makes its writes as long as it lives. */
  lemma RefusedExactlyWhen(p: Profile, content: string, budget: nat)
    ensures Publish(p, content, budget).1 == Rejected <==> p.counter >= 9_007_199_254_740_991 || Wedged(p)
    ensures Publish(p, content, budget).1 == Rejected ==> Publish(p, content, budget).0 == p
    ensures Publish(p, content, budget).1 != Rejected ==>
              var written := Publish(p, content, budget).1.written; written <= 3 && written <= budget && (written == 3 || written == budget)
  {
  }
}
