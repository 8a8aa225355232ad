/**
 The gate on a venue's `/exchange` request: parse the body into one payload per guarded
 action, ask the worker about each in turn, and let the request out only if all agree.
 */
module VenueGate {
  import opened Common
  import opened Json
  import V = Verdict

  type Record = map<string, Json>

  /** One order of a batch: its asset index and side, with the order object they came from. */
  datatype Wire = Wire(asset: real, isBuy: bool, spec: Record)

  datatype Payload =
    | Order(wire: Wire)
    | Guarded(kind: string, action: Record)
    | UnknownAction(actionType: string)

  /** A leg is an order only as an object with a numeric `a` and a boolean `b`; None is an absent value. */
  function OrderWireFrom(leg: Option<Json>): Option<Wire> {
    if leg.Some? && leg.value.Obj? && HasNumber(leg.value.fields, "a") && HasBool(leg.value.fields, "b")
    then Some(Wire(leg.value.fields["a"].n, leg.value.fields["b"].b, leg.value.fields))
    else None
  }

  // ---- legs -------------------------------------------------------------------------

  predicate Parses(legs: seq<Option<Json>>) {
    forall leg <- legs :: OrderWireFrom(leg).Some?
  }

  /** The payloads of the legs that parse, in order. */
  function Orders(legs: seq<Option<Json>>): seq<Payload> {
    if legs == [] then []
    else
      var rest := Orders(legs[..|legs| - 1]);
      var wire := OrderWireFrom(legs[|legs| - 1]);
      if wire.Some? then rest + [Order(wire.value)] else rest
  }

  /** The loop both order parsers run over their legs. */
  method ParseLegs(legs: seq<Option<Json>>, actionType: string) returns (payloads: seq<Payload>)
    ensures payloads == Orders(legs) + (if legs != [] && Parses(legs) then [] else [UnknownAction(actionType)])
  {
    payloads := [];
    var sawInvalidLeg := false;
    for i := 0 to |legs|
      invariant payloads == Orders(legs[..i])
      invariant sawInvalidLeg <==> !Parses(legs[..i])
      invariant !sawInvalidLeg ==> |payloads| == i
    {
      assert legs[..i + 1][..i] == legs[..i] && legs[..i + 1] == legs[..i] + [legs[i]];
      var wire := OrderWireFrom(legs[i]);
      if wire.None? {
        sawInvalidLeg := true;
      } else {
        payloads := payloads + [Order(wire.value)];
      }
    }
    assert legs[..|legs|] == legs;
    if sawInvalidLeg {
      payloads := payloads + [UnknownAction(actionType)];
    }
    if |payloads| == 0 {
      payloads := [UnknownAction(actionType)];
    }
  }

  /** The legs of an `order` action; None when `orders` is not a non-empty array. */
  function OrderLegs(action: Record): seq<Option<Json>> {
    if "orders" in action && action["orders"].Arr? then Present(action["orders"].items) else []
  }

  function Present(items: seq<Json>): seq<Option<Json>> {
    seq(|items|, i requires 0 <= i < |items| => Some(items[i]))
  }

  /** The legs of a `modify` or `batchModify` action: the order inside each of `modifies`, or the one `order`. */
  function ModifyLegs(action: Record): seq<Option<Json>> {
    if "modifies" in action && action["modifies"].Arr? then
      var items := action["modifies"].items;
      seq(|items|, i requires 0 <= i < |items| => if items[i].Obj? then Field(items[i].fields, "order") else None)
    else
      [Field(action, "order")]
  }

  // ---- actions ----------------------------------------------------------------------

  const BENIGN: set<string> := {
    "cancel", "cancelByCloid", "twapCancel", "scheduleCancel", "noop", "reserveRequestWeight",
    "setReferrer", "createSubAccount", "subAccountModify", "vaultModify", "spotUser", "evmUserModify"
  }

  /** The single-payload action types, and the fields each must carry to be understood. */
  function WellFormed(actionType: string, a: Record): Option<bool> {
    match actionType
    case "updateLeverage" => Some(HasNumber(a, "asset") && HasBool(a, "isCross") && HasNumber(a, "leverage"))
    case "withdraw3" => Some(HasString(a, "destination") && "amount" in a)
    case "usdSend" => Some(HasString(a, "destination") && "amount" in a)
    case "spotSend" => Some(HasString(a, "destination") && HasString(a, "token") && "amount" in a)
    case "usdClassTransfer" => Some("amount" in a)
    case "sendAsset" => Some(HasString(a, "destination") && "amount" in a)
    case "sendToEvmWithData" => Some(HasString(a, "destinationRecipient") && "amount" in a)
    case "cDeposit" => Some("wei" in a)
    case "cWithdraw" => Some("wei" in a)
    case "vaultTransfer" => Some(HasString(a, "vaultAddress") && "usd" in a)
    case "subAccountTransfer" => Some(HasString(a, "subAccountUser") && "usd" in a)
    case "tokenDelegate" => Some(HasString(a, "validator") && "wei" in a)
    case "twapOrder" =>
      Some("twap" in a && a["twap"].Obj? && HasNumber(a["twap"].fields, "a") && HasBool(a["twap"].fields, "b"))
    case "updateIsolatedMargin" => Some(HasNumber(a, "asset") && "ntli" in a)
    case _ => None
  }

  /** JSON.parse */
  type Parser = string -> Option<Json>

  /** The action of a body, when it is an object with an `action` object that has a string `type`; a string body is parsed once more. */
  function TypedAction(body: Json, parse: Parser): Option<Record> {
    if body.Str? then (if parse(body.s).Some? then ActionOf(parse(body.s).value) else None) else ActionOf(body)
  }

  function ActionOf(body: Json): Option<Record> {
    if body.Obj? && "action" in body.fields && body.fields["action"].Obj? && HasString(body.fields["action"].fields, "type")
    then Some(body.fields["action"].fields)
    else None
  }

  predicate IsOrderBatch(actionType: string) {
    actionType in {"order", "modify", "batchModify"}
  }

  function Legs(action: Record): seq<Option<Json>>
    requires HasString(action, "type")
  {
    if action["type"].s == "order" then OrderLegs(action) else ModifyLegs(action)
  }

  /** One payload per guarded action of the body, or None when there is nothing to guard. */
  method ParseHyperliquidExchangeOrders(body: Json, parse: Parser) returns (r: Option<seq<Payload>>)
    ensures r == Parsed(body, parse)
  {
    var typed := TypedAction(body, parse);
    if typed.None? {
      return None;
    }
    var action := typed.value;
    var actionType := action["type"].s;
    if actionType == "order" {
      var payloads := ParseLegs(OrderLegs(action), actionType);
      return Some(payloads);
    }
    if actionType == "modify" || actionType == "batchModify" {
      var payloads := ParseLegs(ModifyLegs(action), actionType);
      return Some(payloads);
    }
    var shape := WellFormed(actionType, action);
    if shape == Some(true) {
      return Some([Guarded(actionType, action)]);
    }
    if shape.None? && actionType in BENIGN {
      return None;
    }
    return Some([UnknownAction(actionType)]);
  }

  function Parsed(body: Json, parse: Parser): Option<seq<Payload>> {
    match TypedAction(body, parse)
    case None => None
    case Some(action) =>
      var actionType := action["type"].s;
      if IsOrderBatch(actionType) then
        Some(Orders(Legs(action)) + (if Legs(action) != [] && Parses(Legs(action)) then [] else [UnknownAction(actionType)]))
      else if WellFormed(actionType, action) == Some(true) then Some([Guarded(actionType, action)])
      else if WellFormed(actionType, action).None? && actionType in BENIGN then None
      else Some([UnknownAction(actionType)])
  }

  // ---- the worker's answers -----------------------------------------------------------

  /** What the worker makes of one payload: the engine's verdict, or None for any fault, and the user's surroundings. */
  datatype Evaluation = Evaluation(verdict: Option<V.Verdict>, setting: V.Setting)

  const DENY_CLOSED := V.Fail([V.Match("__venue::deny_closed", "Venue order blocked (fail-closed)")])

  /** Deny-closed: an unknown action and every fault are denials. */
  function VenueVerdict(p: Payload, e: Evaluation): V.Verdict {
    if p.UnknownAction? || e.verdict.None? then DENY_CLOSED else e.verdict.value
  }

  function WorkerAllows(p: Payload, e: Evaluation): bool {
    V.Decide(V.Finished(VenueVerdict(p, e)), e.setting).ok
  }

  method EvaluatePayloads(payloads: seq<Payload>, worker: nat -> Evaluation) returns (allowed: bool)
    ensures allowed <==> forall i | 0 <= i < |payloads| :: WorkerAllows(payloads[i], worker(i))
  {
    for i := 0 to |payloads|
      invariant forall k | 0 <= k < i :: WorkerAllows(payloads[k], worker(k))
    {
      if !WorkerAllows(payloads[i], worker(i)) {
        return false;
      }
    }
    return true;
  }

  datatype Ruling = Passthrough | Allow(payloads: seq<Payload>) | Deny(unreadable: bool)

  /** The ruling on a whole request; `body` is None when it cannot be read as JSON text. */
  method DecideVenueBody(body: Option<Json>, parse: Parser, worker: nat -> Evaluation) returns (r: Ruling)
    ensures r == Ruled(body, parse, worker)
  {
    if body.None? {
      return Deny(true);
    }
    var payloads := ParseHyperliquidExchangeOrders(body.value, parse);
    if payloads.None? {
      return Passthrough;
    }
    var allowed := EvaluatePayloads(payloads.value, worker);
    return if allowed then Allow(payloads.value) else Deny(false);
  }

  function Ruled(body: Option<Json>, parse: Parser, worker: nat -> Evaluation): Ruling {
    if body.None? then Deny(true)
    else if Parsed(body.value, parse).None? then Passthrough
    else
      var payloads := Parsed(body.value, parse).value;
      if forall i | 0 <= i < |payloads| :: WorkerAllows(payloads[i], worker(i)) then Allow(payloads) else Deny(false)
  }

  // ---- what the gate lets out ---------------------------------------------------------

  lemma {:induction false} OrdersAreLegs(legs: seq<Option<Json>>)
    requires Parses(legs)
    ensures |Orders(legs)| == |legs|
    ensures forall i | 0 <= i < |legs| :: Orders(legs)[i] == Order(OrderWireFrom(legs[i]).value)
  {
    if legs != [] {
      OrdersAreLegs(legs[..|legs| - 1]);
    }
  }

  lemma UnknownIsDenied(p: Payload, e: Evaluation)
    requires p.UnknownAction?
    ensures !WorkerAllows(p, e)
  {
  }

  /**
   A batch of any length leaves only if it has a leg, every leg parsed, and the worker said
   yes to every leg; then payload i is leg i, so the venue's i-th status reports on it.
   */
  lemma BatchLeavesOnlyWhole(body: Json, parse: Parser, worker: nat -> Evaluation)
    requires TypedAction(body, parse).Some? && IsOrderBatch(TypedAction(body, parse).value["type"].s)
    ensures var legs := Legs(TypedAction(body, parse).value);
            var r := Ruled(Some(body), parse, worker);
            && !r.Passthrough?
            && (r.Allow? <==>
                  && legs != [] && Parses(legs)
                  && forall i | 0 <= i < |legs| :: WorkerAllows(Order(OrderWireFrom(legs[i]).value), worker(i)))
            && (r.Allow? ==>
                  && |r.payloads| == |legs|
                  && forall i | 0 <= i < |legs| :: r.payloads[i] == Order(OrderWireFrom(legs[i]).value))
  {
    var legs := Legs(TypedAction(body, parse).value);
    var payloads := Parsed(body, parse).value;
    if legs != [] && Parses(legs) {
      OrdersAreLegs(legs);
      assert payloads == Orders(legs);
    } else {
      assert payloads[|payloads| - 1].UnknownAction?;
      UnknownIsDenied(payloads[|payloads| - 1], worker(|payloads| - 1));
    }
  }

  /** Nothing unread, unknown, malformed, faulted or denied leaves as allowed. */
  lemma AllowedIsClean(body: Option<Json>, parse: Parser, worker: nat -> Evaluation, i: nat)
    requires Ruled(body, parse, worker).Allow? && i < |Ruled(body, parse, worker).payloads|
    ensures var p := Ruled(body, parse, worker).payloads[i];
            && (p.Guarded? ==> WellFormed(p.kind, p.action) == Some(true))
            && !p.UnknownAction?
            && worker(i).verdict.Some? && !worker(i).verdict.value.Fail?
  {
    assert WorkerAllows(Ruled(body, parse, worker).payloads[i], worker(i));
    PayloadIsUnderstood(body.value, parse, i);
  }

  lemma PayloadIsUnderstood(body: Json, parse: Parser, i: nat)
    requires Parsed(body, parse).Some? && i < |Parsed(body, parse).value|
    ensures var p := Parsed(body, parse).value[i]; p.Guarded? ==> WellFormed(p.kind, p.action) == Some(true)
  {
    var action := TypedAction(body, parse).value;
    if IsOrderBatch(action["type"].s) {
      OrdersAreOrders(Legs(action));
      if i < |Orders(Legs(action))| {
        assert Parsed(body, parse).value[i] in Orders(Legs(action));
      }
    }
  }

  lemma {:induction false} OrdersAreOrders(legs: seq<Option<Json>>)
    ensures forall p <- Orders(legs) :: p.Order?
  {
    if legs != [] {
      OrdersAreOrders(legs[..|legs| - 1]);
    }
  }

  lemma BenignHaveNoShape(actionType: string, action: Record)
    requires actionType in BENIGN
    ensures WellFormed(actionType, action).None? && !IsOrderBatch(actionType)
  {
  }

  /** What passes unevaluated is exactly a readable body without a typed action, or with one of the twelve harmless action types; a denial says whether the body could be read. */
  lemma PassthroughIsBenign(body: Option<Json>, parse: Parser, worker: nat -> Evaluation)
    ensures Ruled(body, parse, worker).Passthrough? <==>
              && body.Some?
              && (TypedAction(body.value, parse).None? ||
                  TypedAction(body.value, parse).value["type"].s in
                    ["cancel", "cancelByCloid", "twapCancel", "scheduleCancel", "noop", "reserveRequestWeight", "setReferrer",
                     "createSubAccount", "subAccountModify", "vaultModify", "spotUser", "evmUserModify"])
    ensures Ruled(body, parse, worker).Deny? ==> (Ruled(body, parse, worker).unreadable <==> body.None?)
  {
    if body.Some? && TypedAction(body.value, parse).Some? {
      var action := TypedAction(body.value, parse).value;
      if action["type"].s in BENIGN {
        BenignHaveNoShape(action["type"].s, action);
      }
    }
  }

  // ---- what is asked is what was sent -------------------------------------------------

  /** An order as a page writes it: the asset index, whether it buys, and whatever else it says. */
  datatype Placement = Placement(asset: real, isBuy: bool, rest: Record)

  function OrderFields(o: Placement): Record { o.rest["a" := Num(o.asset)]["b" := Bool(o.isBuy)] }

  function WireOf(o: Placement): Wire { Wire(o.asset, o.isBuy, OrderFields(o)) }

  /** A leg is taken for an order exactly when it is one, and then for that one. */
  lemma LegIsItsOrder(leg: Json, o: Placement)
    ensures leg == Obj(OrderFields(o)) ==> OrderWireFrom(Some(leg)) == Some(WireOf(o))
    ensures OrderWireFrom(Some(leg)).Some? ==>
              exists p: Placement :: leg == Obj(OrderFields(p)) && OrderWireFrom(Some(leg)) == Some(WireOf(p))
  {
    if OrderWireFrom(Some(leg)).Some? {
      var p := Placement(leg.fields["a"].n, leg.fields["b"].b, leg.fields);
      assert OrderFields(p) == leg.fields;
      assert leg == Obj(OrderFields(p)) && OrderWireFrom(Some(leg)) == Some(WireOf(p));
    }
  }

  function Payloads(orders: seq<Placement>): seq<Payload> {
    seq(|orders|, i requires 0 <= i < |orders| => Order(WireOf(orders[i])))
  }

  function OrderItems(orders: seq<Placement>): seq<Json> {
    seq(|orders|, i requires 0 <= i < |orders| => Obj(OrderFields(orders[i])))
  }

  function ModifyItems(orders: seq<Placement>, extra: Record): seq<Json> {
    seq(|orders|, i requires 0 <= i < |orders| => Obj(extra["order" := Obj(OrderFields(orders[i]))]))
  }

  /** The body of a request with this action in it, and whatever else. */
  function BodyWith(root: Record, action: Record): Json { Obj(root["action" := Obj(action)]) }

  lemma LegsOfOrders(legs: seq<Option<Json>>, orders: seq<Placement>)
    requires |legs| == |orders| && forall i | 0 <= i < |orders| :: legs[i] == Some(Obj(OrderFields(orders[i])))
    ensures Parses(legs) && Orders(legs) == Payloads(orders)
  {
    forall i | 0 <= i < |orders| ensures OrderWireFrom(legs[i]) == Some(WireOf(orders[i])) {
      LegIsItsOrder(legs[i].value, orders[i]);
    }
    OrdersAreLegs(legs);
  }

  lemma ParsedBatch(root: Record, action: Record, parse: Parser, kind: string, orders: seq<Placement>)
    requires Field(action, "type") == Some(Str(kind)) && IsOrderBatch(kind) && orders != []
    requires var legs := if kind == "order" then OrderLegs(action) else ModifyLegs(action);
             |legs| == |orders| && forall i | 0 <= i < |orders| :: legs[i] == Some(Obj(OrderFields(orders[i])))
    ensures Parsed(BodyWith(root, action), parse) == Some(Payloads(orders))
  {
    LegsOfOrders(Legs(action), orders);
    assert TypedAction(BodyWith(root, action), parse) == Some(action);
    assert Payloads(orders) + [] == Payloads(orders);
  }

  /** The worker is asked about exactly the orders a page places, in their order, each with its own asset and side. */
  lemma OrdersAreAskedAbout(root: Record, rest: Record, parse: Parser, orders: seq<Placement>)
    requires orders != []
    ensures Parsed(BodyWith(root, rest["type" := Str("order")]["orders" := Arr(OrderItems(orders))]), parse) == Some(Payloads(orders))
  {
    ParsedBatch(root, rest["type" := Str("order")]["orders" := Arr(OrderItems(orders))], parse, "order", orders);
  }

  /** So it is about the orders of a modification, one or many. */
  lemma ModificationsAreAskedAbout(root: Record, rest: Record, extra: Record, parse: Parser, orders: seq<Placement>, kind: string)
    requires orders != [] && kind in ["modify", "batchModify"]
    ensures Parsed(BodyWith(root, rest["type" := Str(kind)]["modifies" := Arr(ModifyItems(orders, extra))]), parse) == Some(Payloads(orders))
    ensures Parsed(BodyWith(root, (rest - {"modifies"})["type" := Str(kind)]["order" := Obj(OrderFields(orders[0]))]), parse)
            == Some(Payloads([orders[0]]))
  {
    ParsedBatch(root, rest["type" := Str(kind)]["modifies" := Arr(ModifyItems(orders, extra))], parse, kind, orders);
    ParsedBatch(root, (rest - {"modifies"})["type" := Str(kind)]["order" := Obj(OrderFields(orders[0]))], parse, kind, [orders[0]]);
  }

  // ---- what each action must carry ----------------------------------------------------

  datatype Kind = Anything | Text | Number | Flag

  predicate Carries(a: Record, key: string, kind: Kind) {
    key in a && match kind case Anything => true case Text => a[key].Str? case Number => a[key].Num? case Flag => a[key].Bool?
  }

  /** The guarded actions other than orders, and the fields without which one is not understood. */
  function Required(actionType: string): Option<map<string, Kind>> {
    if actionType == "updateLeverage" then Some(map["asset" := Number, "isCross" := Flag, "leverage" := Number])
    else if actionType in ["withdraw3", "usdSend", "sendAsset"] then Some(map["destination" := Text, "amount" := Anything])
    else if actionType == "spotSend" then Some(map["destination" := Text, "token" := Text, "amount" := Anything])
    else if actionType == "usdClassTransfer" then Some(map["amount" := Anything])
    else if actionType == "sendToEvmWithData" then Some(map["destinationRecipient" := Text, "amount" := Anything])
    else if actionType in ["cDeposit", "cWithdraw"] then Some(map["wei" := Anything])
    else if actionType == "vaultTransfer" then Some(map["vaultAddress" := Text, "usd" := Anything])
    else if actionType == "subAccountTransfer" then Some(map["subAccountUser" := Text, "usd" := Anything])
    else if actionType == "tokenDelegate" then Some(map["validator" := Text, "wei" := Anything])
    else if actionType == "updateIsolatedMargin" then Some(map["asset" := Number, "ntli" := Anything])
    else None
  }

  predicate CarriesAll(a: Record, fields: map<string, Kind>) {
    forall key <- fields :: Carries(a, key, fields[key])
  }

  lemma CarriesTwo(a: Record, fields: map<string, Kind>, k: string, l: string)
    requires fields.Keys == {k, l}
    ensures CarriesAll(a, fields) <==> Carries(a, k, fields[k]) && Carries(a, l, fields[l])
  {
  }

  lemma CarriesThree(a: Record, fields: map<string, Kind>, k: string, l: string, m: string)
    requires fields.Keys == {k, l, m}
    ensures CarriesAll(a, fields) <==> Carries(a, k, fields[k]) && Carries(a, l, fields[l]) && Carries(a, m, fields[m])
  {
  }

  /** The field both of the one-field actions carry. */
  function OnlyField(actionType: string): string { if actionType == "usdClassTransfer" then "amount" else "wei" }

  /** A guarded action is understood exactly when it carries each of its fields, with the right kind of value; a TWAP, when its own object has asset and side. */
  lemma UnderstoodWhenComplete(actionType: string, a: Record)
    ensures Required(actionType).Some? ==> WellFormed(actionType, a) == Some(CarriesAll(a, Required(actionType).value))
    ensures actionType == "twapOrder" ==>
              WellFormed(actionType, a) == Some("twap" in a && a["twap"].Obj? && CarriesAll(a["twap"].fields, map["a" := Number, "b" := Flag]))
    ensures Required(actionType).None? && actionType != "twapOrder" ==> WellFormed(actionType, a).None?
  {
    if actionType == "twapOrder" {
      if "twap" in a && a["twap"].Obj? {
        CarriesTwo(a["twap"].fields, map["a" := Number, "b" := Flag], "a", "b");
      }
    } else if Required(actionType).Some? {
      var fields := Required(actionType).value;
      if actionType == "updateLeverage" {
        CarriesThree(a, fields, "asset", "isCross", "leverage");
      } else if actionType in ["withdraw3", "usdSend", "sendAsset"] {
        CarriesTwo(a, fields, "destination", "amount");
      } else if actionType == "spotSend" {
        CarriesThree(a, fields, "destination", "token", "amount");
      } else if actionType == "sendToEvmWithData" {
        CarriesTwo(a, fields, "destinationRecipient", "amount");
      } else if actionType == "vaultTransfer" {
        CarriesTwo(a, fields, "vaultAddress", "usd");
      } else if actionType == "subAccountTransfer" {
        CarriesTwo(a, fields, "subAccountUser", "usd");
      } else if actionType == "tokenDelegate" {
        CarriesTwo(a, fields, "validator", "wei");
      } else if actionType == "updateIsolatedMargin" {
        CarriesTwo(a, fields, "asset", "ntli");
      } else {
        CarriesTwo(a, fields, OnlyField(actionType), OnlyField(actionType));
      }
    }
  }
}
