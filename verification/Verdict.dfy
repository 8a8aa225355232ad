/**
 How a decoded request becomes a yes or a no: every body of the action forest is evaluated,
 the verdicts are joined by deny-overrides with a fault floor, and the result is put to the
 user. The verdict of one body is an input; planning, dispatching and Cedar evaluation are not modelled.
 */
module Verdict {
  import opened Common

  datatype Match = Match(policyId: string, reason: string)

  datatype Verdict = Pass | Warn(matched: seq<Match>) | Fail(matched: seq<Match>)

  datatype EngineError = EngineError(kind: string, message: string)

  /** Evaluating one body gives a verdict or throws, possibly with an engine error. */
  datatype Outcome = Evaluated(verdict: Verdict) | Throws(error: Option<EngineError>)

  /** A decoded body, with the outcome its evaluation would have; a multicall whose `actions` is not an array has no children. */
  datatype Body =
    | NotAnObject
    | NoDomain
    | Unknown
    | Plain(outcome: Outcome)
    | Multicall(outcome: Outcome, children: seq<Body>)

  const PARTIAL_DECODE := Warn([Match("__engine::partial_decode", "Part of this batch could not be decoded — review before signing")])
  const NO_DECODER := Warn([Match("__engine::no_decoder", "Transaction type not recognized by any installed decoder")])
  const TIMEOUT := Warn([Match("__engine::timeout", "Engine took longer than the hard limit")])

  // ---- joining verdicts ---------------------------------------------------------------

  function Matched(v: Verdict): seq<Match> {
    if v.Pass? then [] else v.matched
  }

  /** Deny-overrides on two verdicts; the matched policies of both, in order. */
  function Join(a: Verdict, b: Verdict): Verdict {
    if a.Fail? || b.Fail? then Fail(Matched(a) + Matched(b))
    else if a.Warn? || b.Warn? then Warn(Matched(a) + Matched(b))
    else Pass
  }

  function JoinAll(vs: seq<Verdict>): Verdict {
    if vs == [] then Pass else Join(JoinAll(vs[..|vs| - 1]), vs[|vs| - 1])
  }

  method AggregateV2Verdicts(verdicts: seq<Verdict>) returns (r: Verdict)
    ensures r == JoinAll(verdicts)
  {
    var matched: seq<Match> := [];
    var anyFail, anyWarn := false, false;
    for i := 0 to |verdicts|
      invariant JoinAll(verdicts[..i]) == if anyFail then Fail(matched) else if anyWarn then Warn(matched) else Pass
      invariant !anyFail && !anyWarn ==> matched == []
    {
      assert verdicts[..i + 1][..i] == verdicts[..i];
      var v := verdicts[i];
      if v.Fail? {
        anyFail := true;
        matched := matched + v.matched;
      } else if v.Warn? {
        anyWarn := true;
        matched := matched + v.matched;
      }
    }
    assert verdicts[..|verdicts|] == verdicts;
    if anyFail { return Fail(matched); }
    if anyWarn { return Warn(matched); }
    return Pass;
  }

  lemma JoinAssociates(a: Verdict, b: Verdict, c: Verdict)
    ensures Join(Join(a, b), c) == Join(a, Join(b, c))
  {
    assert (Matched(a) + Matched(b)) + Matched(c) == Matched(a) + (Matched(b) + Matched(c));
    assert Matched(a) + [] == Matched(a) && [] + Matched(c) == Matched(c);
  }

  lemma JoinPass(a: Verdict)
    ensures Join(a, Pass) == a == Join(Pass, a)
  {
    assert Matched(a) + [] == Matched(a) == [] + Matched(a);
  }

  lemma {:induction false} JoinAllConcat(a: seq<Verdict>, b: seq<Verdict>)
    ensures JoinAll(a + b) == Join(JoinAll(a), JoinAll(b))
    decreases |b|
  {
    if b == [] {
      assert a + b == a;
      JoinPass(JoinAll(a));
    } else {
      var init, last := b[..|b| - 1], b[|b| - 1];
      assert (a + b)[..|a + b| - 1] == a + init;
      JoinAllConcat(a, init);
      JoinAssociates(JoinAll(a), JoinAll(init), last);
    }
  }

  /** The matched policies of all verdicts, one list after the other. */
  function AllMatched(vs: seq<Verdict>): seq<Match> {
    if vs == [] then [] else Matched(vs[0]) + AllMatched(vs[1..])
  }

  /** Joined, verdicts fail exactly when one of them fails and pass exactly when all do, and report every matched policy in order. */
  lemma {:induction false} JoinAllMeans(vs: seq<Verdict>)
    ensures JoinAll(vs).Fail? <==> exists v <- vs :: v.Fail?
    ensures JoinAll(vs).Pass? <==> forall v <- vs :: v.Pass?
    ensures Matched(JoinAll(vs)) == AllMatched(vs)
    decreases |vs|
  {
    if vs != [] {
      JoinAllMeans(vs[1..]);
      assert vs == [vs[0]] + vs[1..] && [vs[0]][..0] == [];
      JoinPass(vs[0]);
      JoinAllConcat([vs[0]], vs[1..]);
      assert JoinAll([vs[0]]) == Join(Pass, vs[0]);
      assert Matched(vs[0]) + [] == Matched(vs[0]) && [] + AllMatched(vs[1..]) == AllMatched(vs[1..]);
    }
  }

  // ---- one leg ------------------------------------------------------------------------

  datatype LegResult = Verdicts(verdicts: seq<Verdict>) | Threw(error: Option<EngineError>)

  /** The verdicts of one body and, for a multicall, of everything below it, in preorder; a throw anywhere discards them all. */
  function Evaluate(body: Body): LegResult
    decreases body, 1
  {
    match body
    case NotAnObject => Verdicts([])
    case NoDomain => Verdicts([])
    case Unknown => Verdicts([PARTIAL_DECODE])
    case Plain(Throws(e)) => Threw(e)
    case Plain(Evaluated(v)) => Verdicts([v])
    case Multicall(Throws(e), _) => Threw(e)
    case Multicall(Evaluated(v), children) =>
      match EvaluateAll(children)
      case Threw(e) => Threw(e)
      case Verdicts(vs) => Verdicts([v] + vs)
  }

  function EvaluateAll(bodies: seq<Body>): LegResult
    decreases bodies, 0
  {
    if bodies == [] then Verdicts([])
    else
      match EvaluateAll(bodies[..|bodies| - 1])
      case Threw(e) => Threw(e)
      case Verdicts(vs) =>
        match Evaluate(bodies[|bodies| - 1])
        case Threw(e) => Threw(e)
        case Verdicts(ws) => Verdicts(vs + ws)
  }

  method EvaluateBodyTree(body: Body) returns (r: LegResult)
    ensures r == Evaluate(body)
    decreases body
  {
    var verdicts: seq<Verdict> := [];
    if body.Plain? || body.Multicall? {
      if body.outcome.Throws? {
        return Threw(body.outcome.error);
      }
      verdicts := verdicts + [body.outcome.verdict];
    } else if body.Unknown? {
      verdicts := verdicts + [PARTIAL_DECODE];
    }
    if body.Multicall? {
      var children := body.children;
      for i := 0 to |children|
        invariant EvaluateAll(children[..i]).Verdicts?
        invariant verdicts == [body.outcome.verdict] + EvaluateAll(children[..i]).verdicts
      {
        assert children[..i + 1][..i] == children[..i];
        var child := EvaluateBodyTree(children[i]);
        if child.Threw? {
          ThrowsStays(children, i + 1);
          return child;
        }
        verdicts := verdicts + child.verdicts;
      }
      assert children[..|children|] == children;
    }
    return Verdicts(verdicts);
  }

  lemma {:induction false} ThrowsStays(bodies: seq<Body>, k: nat)
    requires k <= |bodies| && EvaluateAll(bodies[..k]).Threw?
    ensures EvaluateAll(bodies) == EvaluateAll(bodies[..k])
    decreases |bodies|
  {
    if k == |bodies| {
      assert bodies[..k] == bodies;
    } else {
      assert bodies[..|bodies| - 1][..k] == bodies[..k];
      ThrowsStays(bodies[..|bodies| - 1], k);
    }
  }

  /** The verdict of a body by structure: its own, joined with its children's. */
  function BottomUp(body: Body): Verdict
    decreases body, 1
  {
    match body
    case NotAnObject => Pass
    case NoDomain => Pass
    case Unknown => PARTIAL_DECODE
    case Plain(o) => Own(o)
    case Multicall(o, children) => Join(Own(o), BottomUpAll(children))
  }

  function BottomUpAll(bodies: seq<Body>): Verdict
    decreases bodies, 0
  {
    if bodies == [] then Pass else Join(BottomUpAll(bodies[..|bodies| - 1]), BottomUp(bodies[|bodies| - 1]))
  }

  function Own(o: Outcome): Verdict {
    if o.Evaluated? then o.verdict else Pass
  }

  /** Flattening a tree and joining the list is joining bottom up, matched policies and their order included. */
  lemma {:induction false} FlatIsBottomUp(body: Body)
    requires Evaluate(body).Verdicts?
    ensures JoinAll(Evaluate(body).verdicts) == BottomUp(body)
    decreases body, 1
  {
    match body
    case NotAnObject =>
    case NoDomain =>
    case Unknown => Singleton(PARTIAL_DECODE);
    case Plain(o) => Singleton(Own(o));
    case Multicall(o, children) =>
      FlatIsBottomUpAll(children);
      Singleton(Own(o));
      JoinAllConcat([Own(o)], EvaluateAll(children).verdicts);
  }

  lemma {:induction false} FlatIsBottomUpAll(bodies: seq<Body>)
    requires EvaluateAll(bodies).Verdicts?
    ensures JoinAll(EvaluateAll(bodies).verdicts) == BottomUpAll(bodies)
    decreases bodies, 0
  {
    if bodies != [] {
      var init, last := bodies[..|bodies| - 1], bodies[|bodies| - 1];
      FlatIsBottomUpAll(init);
      FlatIsBottomUp(last);
      JoinAllConcat(EvaluateAll(init).verdicts, Evaluate(last).verdicts);
    }
  }

  lemma Singleton(v: Verdict)
    ensures JoinAll([v]) == v
  {
    assert [v][..0] == [];
    JoinPass(v);
  }

  // ---- what a node contributes --------------------------------------------------------

  /** Some node of the tree has this outcome. */
  ghost predicate Somewhere(body: Body, p: Body -> bool)
    decreases body
  {
    p(body) || (body.Multicall? && exists child <- body.children :: Somewhere(child, p))
  }

  predicate NodeFails(b: Body) {
    (b.Plain? || b.Multicall?) && b.outcome.Evaluated? && b.outcome.verdict.Fail?
  }

  /** Fails, warns or was not decoded. */
  predicate NodeObjects(b: Body) {
    b.Unknown? || ((b.Plain? || b.Multicall?) && b.outcome.Evaluated? && !b.outcome.verdict.Pass?)
  }

  predicate NodeThrows(b: Body) {
    (b.Plain? || b.Multicall?) && b.outcome.Throws?
  }

  /** A leg fails exactly when some node of it fails, and passes exactly when no node fails, warns or is undecoded. */
  lemma {:induction false} LegVerdict(body: Body)
    ensures BottomUp(body).Fail? <==> Somewhere(body, NodeFails)
    ensures BottomUp(body).Pass? <==> !Somewhere(body, NodeObjects)
    decreases body, 1
  {
    if body.Multicall? {
      LegVerdicts(body.children);
    }
  }

  lemma {:induction false} LegVerdicts(bodies: seq<Body>)
    ensures BottomUpAll(bodies).Fail? <==> exists b <- bodies :: Somewhere(b, NodeFails)
    ensures BottomUpAll(bodies).Pass? <==> forall b <- bodies :: !Somewhere(b, NodeObjects)
    decreases bodies, 0
  {
    if bodies != [] {
      var init, last := bodies[..|bodies| - 1], bodies[|bodies| - 1];
      LegVerdicts(init);
      LegVerdict(last);
      assert bodies == init + [last];
    }
  }

  lemma {:induction false} LegThrows(body: Body)
    ensures Evaluate(body).Threw? <==> Somewhere(body, NodeThrows)
    decreases body, 1
  {
    if body.Multicall? {
      LegsThrow(body.children);
    }
  }

  lemma {:induction false} LegsThrow(bodies: seq<Body>)
    ensures EvaluateAll(bodies).Threw? <==> exists b <- bodies :: Somewhere(b, NodeThrows)
    decreases bodies, 0
  {
    if bodies != [] {
      LegsThrow(bodies[..|bodies| - 1]);
      LegThrows(bodies[|bodies| - 1]);
      assert bodies == bodies[..|bodies| - 1] + [bodies[|bodies| - 1]];
    }
  }

  // ---- a whole request ----------------------------------------------------------------

  /** The top-level bodies that drive a verdict. */
  function RealActions(actions: seq<Body>): (r: seq<Body>)
    ensures forall a :: a in r <==> a in actions && !a.NotAnObject? && !a.Unknown?
  {
    if actions == [] then []
    else
      var rest := RealActions(actions[..|actions| - 1]);
      var last := actions[|actions| - 1];
      if last.NotAnObject? || last.Unknown? then rest else rest + [last]
  }

  /** The join of the legs that did not throw. */
  function Surviving(legs: seq<Body>): Verdict {
    if legs == [] then Pass
    else
      var rest := Surviving(legs[..|legs| - 1]);
      var last := legs[|legs| - 1];
      if Evaluate(last).Threw? then rest else Join(rest, BottomUp(last))
  }

  predicate AnyThrew(legs: seq<Body>) {
    exists leg <- legs :: Evaluate(leg).Threw?
  }

  /** The first engine error among the legs that threw. */
  function FirstEngineError(legs: seq<Body>): Option<EngineError> {
    if legs == [] then None
    else
      var rest := FirstEngineError(legs[..|legs| - 1]);
      var last := Evaluate(legs[|legs| - 1]);
      if rest.None? && last.Threw? then last.error else rest
  }

  /** No verdict, possibly because of an engine error, or a verdict. */
  datatype PathResult = NoVerdict(fault: Option<EngineError>) | Decided(verdict: Verdict)

  /** Deny-overrides with a fault floor over the legs of a transaction. */
  function V2Path(actions: seq<Body>, hasPolicies: bool): PathResult {
    var legs := RealActions(actions);
    if legs == [] || !hasPolicies then NoVerdict(None)
    else if Surviving(legs).Fail? then Decided(Surviving(legs))
    else if AnyThrew(legs) then NoVerdict(FirstEngineError(legs))
    else Decided(Surviving(legs))
  }

  /** What one more leg adds. */
  lemma NextLeg(legs: seq<Body>, i: nat)
    requires i < |legs|
    ensures Surviving(legs[..i + 1]) ==
            if Evaluate(legs[i]).Threw? then Surviving(legs[..i]) else Join(Surviving(legs[..i]), BottomUp(legs[i]))
    ensures AnyThrew(legs[..i + 1]) <==> AnyThrew(legs[..i]) || Evaluate(legs[i]).Threw?
    ensures FirstEngineError(legs[..i + 1]) ==
            if FirstEngineError(legs[..i]).None? && Evaluate(legs[i]).Threw? then Evaluate(legs[i]).error else FirstEngineError(legs[..i])
  {
    assert legs[..i + 1][..i] == legs[..i];
    assert legs[..i + 1] == legs[..i] + [legs[i]];
  }

  method TryV2VerdictPath(actions: seq<Body>, hasPolicies: bool) returns (r: PathResult)
    ensures r == V2Path(actions, hasPolicies)
  {
    var legs := RealActions(actions);
    if |legs| == 0 || !hasPolicies {
      return NoVerdict(None);
    }
    var verdicts: seq<Verdict> := [];
    var anyLegThrew := false;
    var firstEngineError: Option<EngineError> := None;
    for i := 0 to |legs|
      invariant JoinAll(verdicts) == Surviving(legs[..i])
      invariant anyLegThrew <==> AnyThrew(legs[..i])
      invariant firstEngineError == FirstEngineError(legs[..i])
    {
      NextLeg(legs, i);
      var leg := EvaluateBodyTree(legs[i]);
      match leg
      case Verdicts(vs) =>
        FlatIsBottomUp(legs[i]);
        JoinAllConcat(verdicts, vs);
        verdicts := verdicts + vs;
      case Threw(e) =>
        anyLegThrew := true;
        if firstEngineError.None? && e.Some? {
          firstEngineError := e;
        }
    }
    assert legs[..|legs|] == legs;
    var aggregate := AggregateV2Verdicts(verdicts);
    if aggregate.Fail? { return Decided(aggregate); }
    if anyLegThrew { return NoVerdict(firstEngineError); }
    return Decided(aggregate);
  }

  /** The approvable warning for a request that could not be evaluated. */
  function FaultVerdict(e: Option<EngineError>): Verdict {
    if e.None? then NO_DECODER else Warn([Match("__engine::" + e.value.kind, e.value.message)])
  }

  /** The verdict of a transaction whose calldata was decoded; a route miss is the empty list. */
  function TransactionVerdict(actions: seq<Body>, hasPolicies: bool): Verdict {
    match V2Path(actions, hasPolicies)
    case Decided(v) => v
    case NoVerdict(fault) => FaultVerdict(fault)
  }

  /** The verdict of a typed-data signature: like a transaction, except that no policies means pass. */
  function SignatureVerdict(actions: seq<Body>, hasPolicies: bool): Verdict {
    var legs := RealActions(actions);
    if legs == [] then NO_DECODER
    else if !hasPolicies then Pass
    else if !Surviving(legs).Fail? && AnyThrew(legs) then FaultVerdict(FirstEngineError(legs))
    else Surviving(legs)
  }

  lemma {:induction false} SurvivingVerdict(legs: seq<Body>)
    ensures Surviving(legs).Fail? <==>
              exists leg <- legs :: !Somewhere(leg, NodeThrows) && Somewhere(leg, NodeFails)
    ensures !AnyThrew(legs) ==> (Surviving(legs).Pass? <==> forall leg <- legs :: !Somewhere(leg, NodeObjects))
  {
    if legs != [] {
      var init, last := legs[..|legs| - 1], legs[|legs| - 1];
      SurvivingVerdict(init);
      LegThrows(last);
      LegVerdict(last);
      assert legs == init + [last];
    }
  }

  /** A leg whose whole tree evaluated, with a failing node in it. */
  ghost predicate Denies(leg: Body) {
    !leg.NotAnObject? && !leg.Unknown? && !Somewhere(leg, NodeThrows) && Somewhere(leg, NodeFails)
  }

  /** A leg that raises nothing at all. */
  ghost predicate Clean(leg: Body) {
    !Somewhere(leg, NodeThrows) && !Somewhere(leg, NodeObjects)
  }

  /**
   With policies to apply, a transaction or a signature is denied exactly when some leg
   denies, whatever the other legs do, and passes exactly when every leg that is an object
   and not undecoded at top level is clean (and there is one).
   */
  lemma DenyOverrides(actions: seq<Body>)
    ensures TransactionVerdict(actions, true).Fail? <==> exists leg <- actions :: Denies(leg)
    ensures TransactionVerdict(actions, true).Pass? <==>
              && RealActions(actions) != []
              && forall leg <- RealActions(actions) :: Clean(leg)
    ensures SignatureVerdict(actions, true) == TransactionVerdict(actions, true)
  {
    var legs := RealActions(actions);
    SurvivingVerdict(legs);
    forall leg ensures Evaluate(leg).Threw? <==> Somewhere(leg, NodeThrows) {
      LegThrows(leg);
    }
    if exists leg <- actions :: Denies(leg) {
      var leg :| leg in actions && Denies(leg);
      assert leg in legs;
    }
  }

  /** A leg that threw an engine error, with none before it that did. */
  ghost predicate FirstToThrow(legs: seq<Body>, i: nat, e: EngineError) {
    && i < |legs| && Evaluate(legs[i]) == Threw(Some(e))
    && forall j | 0 <= j < i :: !(Evaluate(legs[j]).Threw? && Evaluate(legs[j]).error.Some?)
  }

  lemma {:induction false} FirstErrorIsFirst(legs: seq<Body>)
    ensures FirstEngineError(legs).None? ==> forall i | 0 <= i < |legs| :: !(Evaluate(legs[i]).Threw? && Evaluate(legs[i]).error.Some?)
    ensures FirstEngineError(legs).Some? ==> exists i: nat :: FirstToThrow(legs, i, FirstEngineError(legs).value)
    decreases |legs|
  {
    if legs != [] {
      var n := |legs| - 1;
      FirstErrorIsFirst(legs[..n]);
      assert forall j | 0 <= j < n :: legs[..n][j] == legs[j];
      if FirstEngineError(legs[..n]).Some? {
        var i: nat :| FirstToThrow(legs[..n], i, FirstEngineError(legs).value);
        assert FirstToThrow(legs, i, FirstEngineError(legs).value);
      } else if FirstEngineError(legs).Some? {
        assert FirstToThrow(legs, n, FirstEngineError(legs).value);
      }
    }
  }

  /**
   When no leg denies but some leg throws, the request is warned about, and the warning names
   the first engine error among the legs; without one it says that no decoder knows the request.
   */
  lemma FaultIsNamed(actions: seq<Body>)
    requires (!exists leg <- actions :: Denies(leg)) && exists leg <- RealActions(actions) :: Somewhere(leg, NodeThrows)
    ensures var legs := RealActions(actions);
            var v := TransactionVerdict(actions, true);
            && v.Warn? && |v.matched| == 1
            && ((exists i: nat, e :: FirstToThrow(legs, i, e) && v.matched == [Match("__engine::" + e.kind, e.message)])
                || ((forall i | 0 <= i < |legs| :: !(Evaluate(legs[i]).Threw? && Evaluate(legs[i]).error.Some?)) && v == NO_DECODER))
  {
    var legs := RealActions(actions);
    DenyOverrides(actions);
    FirstErrorIsFirst(legs);
    var leg :| leg in legs && Somewhere(leg, NodeThrows);
    LegThrows(leg);
    assert AnyThrew(legs);
    if FirstEngineError(legs).Some? {
      var i: nat :| FirstToThrow(legs, i, FirstEngineError(legs).value);
    }
  }

  predicate NodeUndecoded(b: Body) {
    b.Unknown?
  }

  lemma {:induction false} UndecodedObjects(body: Body)
    requires Somewhere(body, NodeUndecoded)
    ensures Somewhere(body, NodeObjects)
    decreases body
  {
    if !body.Unknown? {
      var child :| child in body.children && Somewhere(child, NodeUndecoded);
      UndecodedObjects(child);
    }
  }

  /** A request with an undecoded body nested in one of its legs never passes. */
  lemma NestedUndecodedNeverPasses(actions: seq<Body>, leg: Body)
    requires leg in actions && leg.Multicall? && Somewhere(leg, NodeUndecoded)
    ensures !TransactionVerdict(actions, true).Pass?
  {
    DenyOverrides(actions);
    UndecodedObjects(leg);
    assert leg in RealActions(actions);
  }

  /** At top level an undecoded body weighs nothing: the verdict is that of the request without it. */
  lemma TopLevelUndecodedIsIgnored(actions: seq<Body>, hasPolicies: bool)
    ensures TransactionVerdict(RealActions(actions), hasPolicies) == TransactionVerdict(actions, hasPolicies)
    ensures actions == [Plain(Evaluated(Pass)), Unknown] ==> TransactionVerdict(actions, true) == Pass
  {
    RealPrefix(RealActions(actions));
    DenyOverrides(actions);
    if actions == [Plain(Evaluated(Pass)), Unknown] {
      assert actions[0] in RealActions(actions);
    }
  }

  lemma {:induction false} RealPrefix(legs: seq<Body>)
    requires forall a <- legs :: !a.NotAnObject? && !a.Unknown?
    ensures RealActions(legs) == legs
  {
    if legs != [] {
      RealPrefix(legs[..|legs| - 1]);
    }
  }

  // ---- the answer given to the page ---------------------------------------------------

  /** What surrounds a verdict: a scam report to show, the user's answer if asked, the warning setting. */
  datatype Setting = Setting(scamReport: bool, answer: bool, warnModal: bool)

  /** How the evaluation ended. */
  datatype Lifecycle = Finished(verdict: Verdict) | TimedOut(venueOrder: bool) | Broken(error: Option<EngineError>)

  datatype Decision = Decision(ok: bool, verdict: Verdict)

  /** The verdict an error outside the lifecycle's own handling turns into. */
  function EngineErrorVerdict(e: Option<EngineError>): Verdict {
    if e.Some? && e.value.kind == "route_failed" then Pass
    else if e.Some? then Fail([Match("__engine::" + e.value.kind, e.value.message)])
    else Fail([Match("__engine::unexpected", "")])
  }

  function Decide(l: Lifecycle, s: Setting): Decision {
    match l
    case Finished(v) => Decision(Approve(v, s), v)
    case TimedOut(venueOrder) =>
      var v := if venueOrder then Fail([Match("__venue::deny_closed", "Venue order blocked (fail-closed): engine timeout")]) else TIMEOUT;
      Decision(Approve(v, s), v)
    case Broken(e) =>
      var v := EngineErrorVerdict(e);
      Decision(if s.scamReport then !v.Fail? && s.answer else v.Pass?, v)
  }

  function Approve(v: Verdict, s: Setting): bool {
    match v
    case Pass => !s.scamReport || s.answer
    case Fail(_) => false
    case Warn(_) => if s.scamReport || s.warnModal then s.answer else true
  }

  /** A denied transaction or signature is refused for every user answer, warning setting and scam result. */
  lemma DeniedIsRefused(actions: seq<Body>, s: Setting)
    requires exists leg <- actions :: Denies(leg)
    ensures !Decide(Finished(TransactionVerdict(actions, true)), s).ok
    ensures !Decide(Finished(SignatureVerdict(actions, true)), s).ok
  {
    DenyOverrides(actions);
  }

  /**
   Without the user's approval a transaction or signature goes through exactly when there is no
   scam report and either every decoded call is clean, or no call is denied and the warning
   window is turned off.
   */
  lemma ProceedsUnapproved(actions: seq<Body>, s: Setting)
    requires !s.answer
    ensures var clean := RealActions(actions) != [] && forall leg <- RealActions(actions) :: Clean(leg);
            var denied := exists leg <- actions :: Denies(leg);
            && (Decide(Finished(TransactionVerdict(actions, true)), s).ok <==> !s.scamReport && (clean || (!denied && !s.warnModal)))
            && (Decide(Finished(SignatureVerdict(actions, true)), s).ok <==> !s.scamReport && (clean || (!denied && !s.warnModal)))
  {
    DenyOverrides(actions);
  }

  /**
   When the engine gives no verdict of its own: a venue order that ran out of time is refused
   for every answer and setting; any other request that did so is put to the user exactly when
   there is a scam report or the warning window is on, and otherwise goes through; after an
   exception every request is refused, except a route miss, which goes through unless there is
   a scam report the user does not approve.
   */
  lemma WithoutAVerdict(s: Setting, error: Option<EngineError>)
    ensures !Decide(TimedOut(true), s).ok
    ensures Decide(TimedOut(true), s).verdict == Fail([Match("__venue::deny_closed", "Venue order blocked (fail-closed): engine timeout")])
    ensures Decide(TimedOut(false), s).verdict == TIMEOUT
    ensures Decide(TimedOut(false), s).ok <==> s.answer || (!s.scamReport && !s.warnModal)
    ensures Decide(Broken(error), s).ok <==> error.Some? && error.value.kind == "route_failed" && (s.answer || !s.scamReport)
    ensures Decide(Broken(error), s).ok <==> !Decide(Broken(error), s).verdict.Fail? && (s.answer || !s.scamReport)
    ensures var id := if error.Some? then "__engine::" + error.value.kind else "__engine::unexpected";
            var v := Decide(Broken(error), s).verdict;
            v.Pass? || (v.Fail? && |v.matched| == 1 && v.matched[0].policyId == id)
  {
  }

  /** The user's approval overrides everything but a denial, and a denial overrides it. */
  lemma ApprovalOverridesAllButDenial(v: Verdict, s: Setting)
    requires s.answer
    ensures Decide(Finished(v), s).ok <==> !v.Fail?
    ensures Decide(Finished(v), s).verdict == v
  {
  }

  /** With no policy installed a transaction is at best warned about, and a signature passes exactly when some part of it was decoded. */
  lemma WithoutPolicies(actions: seq<Body>, s: Setting)
    ensures TransactionVerdict(actions, false).Warn?
    ensures SignatureVerdict(actions, false).Pass? <==> exists leg <- actions :: !leg.NotAnObject? && !leg.Unknown?
    ensures SignatureVerdict(actions, false).Pass? || SignatureVerdict(actions, false).Warn?
  {
    var legs := RealActions(actions);
    if legs != [] {
      assert legs[0] in actions && !legs[0].NotAnObject? && !legs[0].Unknown?;
    }
  }

  /** With that window off and no scam report, nothing but a denying leg stops a request, not even a leg that could not be evaluated. */
  lemma WindowOffStopsOnlyDenials(actions: seq<Body>, answer: bool)
    ensures Decide(Finished(TransactionVerdict(actions, true)), Setting(false, answer, false)).ok
            <==> !exists leg <- actions :: Denies(leg)
  {
    DenyOverrides(actions);
  }
}
