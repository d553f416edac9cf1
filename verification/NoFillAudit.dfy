/** The terminal-outcome audit: under execution policies v3 and v4 every simulated no-fill is matched
    to its order, its broker decision and its bar, and every order must have come to some end. */
module NoFillAudit {
  import opened MarketData
  import opened VolumeCap
  import Replay

  // ---------- Records as read back ----------

  /** A time: its text, and the instant it parses to. */
  datatype Stamp = Stamp(text: string, at: Option<int>)

  /** Numeric fields are None when they did not parse. */
  datatype Order = Order(orderId: string, intentId: string, symbol: string, side: string, quantity: Option<real>,
                         signalAt: Stamp, referencePrice: Option<real>, executionEventAt: string)
  datatype BrokerDecision = BrokerDecision(stage: string, code: string, intentId: string, approved: Option<real>)
  datatype NoFill = NoFill(
    orderId: string, symbol: string, side: string, schema: string, policy: string, dataset: string, reason: string,
    liquidity: string, signalAt: Stamp, selectedOpenAt: Stamp, evaluatedAt: Stamp, requested: Option<real>,
    approved: Option<real>, filled: Option<real>, reference: Option<real>, openPrice: Option<real>,
    closePrice: Option<real>, barVolume: Option<real>, capacity: Option<real>)
  datatype Manifest = Manifest(policy: string, participationBps: int, noFillRule: string, start: Option<int>,
                               end: Option<int>, dataset: string)

  /** What a run leaves behind; the no-fills are recorded twice. */
  datatype Trace = Trace(manifest: Manifest, noFills: seq<NoFill>, artifactNoFills: seq<NoFill>, orders: seq<Order>,
                         decisions: seq<BrokerDecision>, filledOrderIds: seq<string>)

  /** The curve's first and last instant. */
  datatype Curve = Curve(start: int, end: int)

  datatype Primitive = Primitive(record: NoFill, signalAt: int, selectedOpenAt: int, evaluatedAt: int)

  const V3_POLICY := "backtest-execution-v3"
  const V4_POLICY := "backtest-execution-v4"
  const ZERO_TRADES := "simulated_no_fill_zero_trades"
  const OVER_CAP := "simulated_no_fill_volume_cap"
  const CAP_RULE := "selected_volume_cap_all_or_none_cancel_v1"

  /** Decimal texts are equal when both parse to one number. */
  predicate DecimalEqual(a: Option<real>, b: Option<real>) {
    a.Some? && b.Some? && a.value == b.value
  }

  // ---------- What the decisions say ----------

  /** brokerApproved keeps the last decision's quantity. */
  datatype Outcomes = Outcomes(riskRejected: set<string>, noFills: multiset<string>,
                               approved: map<string, Option<real>>, otherRejected: set<string>)

  predicate IsNoFill(d: BrokerDecision, v4: bool) {
    d.stage == "broker" && (d.code == ZERO_TRADES || (v4 && d.code == OVER_CAP))
  }

  predicate IsOtherRejection(d: BrokerDecision, v4: bool) {
    d.stage == "broker" && !IsNoFill(d, v4) && d.code != "" && d.code != "filled" && d.code != "accepted"
  }

  function Noted(o: Outcomes, d: BrokerDecision, v4: bool): Outcomes {
    var risk := if d.stage == "risk" then o.riskRejected + {d.intentId} else o.riskRejected;
    if IsNoFill(d, v4) then
      Outcomes(risk, o.noFills + multiset{d.intentId}, o.approved[d.intentId := d.approved], o.otherRejected)
    else if IsOtherRejection(d, v4) then
      o.(riskRejected := risk, otherRejected := o.otherRejected + {d.intentId})
    else
      o.(riskRejected := risk)
  }

  function OutcomesOf(decisions: seq<BrokerDecision>, v4: bool): Outcomes {
    if decisions == [] then Outcomes({}, multiset{}, map[], {})
    else Noted(OutcomesOf(decisions[..|decisions| - 1], v4), decisions[|decisions| - 1], v4)
  }

  method ReadDecisions(decisions: seq<BrokerDecision>, v4: bool) returns (o: Outcomes)
    ensures o == OutcomesOf(decisions, v4)
  {
    o := Outcomes({}, multiset{}, map[], {});
    for i := 0 to |decisions|
      invariant o == OutcomesOf(decisions[..i], v4)
    {
      var d := decisions[i];
      assert decisions[..i + 1][..i] == decisions[..i];
      if d.stage == "risk" {
        o := o.(riskRejected := o.riskRejected + {d.intentId});
      }
      if d.stage == "broker" && (d.code == ZERO_TRADES || (v4 && d.code == OVER_CAP)) {
        o := o.(noFills := o.noFills + multiset{d.intentId}, approved := o.approved[d.intentId := d.approved]);
      } else if d.stage == "broker" && d.code != "" && d.code != "filled" && d.code != "accepted" {
        o := o.(otherRejected := o.otherRejected + {d.intentId});
      }
    }
    assert decisions[..|decisions|] == decisions;
  }

  /** Ids of the broker's no-fill decisions, in order. */
  function NoFillIds(decisions: seq<BrokerDecision>, v4: bool): seq<string> {
    if decisions == [] then []
    else
      var d := decisions[|decisions| - 1];
      NoFillIds(decisions[..|decisions| - 1], v4) + if IsNoFill(d, v4) then [d.intentId] else []
  }

  lemma MultisetSnoc(ids: seq<string>, id: string)
    ensures multiset(ids + [id]) == multiset(ids) + multiset{id}
  {
  }

  /** The decisions folded as no-fills are exactly those listed. */
  lemma {:induction false} NoFillsMean(decisions: seq<BrokerDecision>, v4: bool)
    ensures OutcomesOf(decisions, v4).noFills == multiset(NoFillIds(decisions, v4))
  {
    if decisions != [] {
      var front, d := decisions[..|decisions| - 1], decisions[|decisions| - 1];
      NoFillsMean(front, v4);
      MultisetSnoc(NoFillIds(front, v4), d.intentId);
      assert NoFillIds(decisions, v4) == NoFillIds(front, v4) + if IsNoFill(d, v4) then [d.intentId] else [];
      assert NoFillIds(front, v4) + [] == NoFillIds(front, v4);
    }
  }

  ghost predicate RiskRefused(decisions: seq<BrokerDecision>, id: string) {
    exists i :: 0 <= i < |decisions| && decisions[i].stage == "risk" && decisions[i].intentId == id
  }

  ghost predicate OtherwiseRefused(decisions: seq<BrokerDecision>, v4: bool, id: string) {
    exists i :: 0 <= i < |decisions| && IsOtherRejection(decisions[i], v4) && decisions[i].intentId == id
  }

  lemma RefusedMore(front: seq<BrokerDecision>, d: BrokerDecision, v4: bool, id: string)
    ensures RiskRefused(front + [d], id) <==> RiskRefused(front, id) || (d.stage == "risk" && d.intentId == id)
    ensures OtherwiseRefused(front + [d], v4, id) <==>
            OtherwiseRefused(front, v4, id) || (IsOtherRejection(d, v4) && d.intentId == id)
  {
    var longer := front + [d];
    assert longer[|front|] == d;
    assert forall i :: 0 <= i < |front| ==> longer[i] == front[i];
  }

  /** The folded rejections are exactly those decided. */
  lemma {:induction false} RejectionsMean(decisions: seq<BrokerDecision>, v4: bool, id: string)
    ensures id in OutcomesOf(decisions, v4).riskRejected <==> RiskRefused(decisions, id)
    ensures id in OutcomesOf(decisions, v4).otherRejected <==> OtherwiseRefused(decisions, v4, id)
  {
    if decisions != [] {
      var front, d := decisions[..|decisions| - 1], decisions[|decisions| - 1];
      RejectionsMean(front, v4, id);
      RefusedMore(front, d, v4, id);
      assert decisions == front + [d];
    }
  }

  // ---------- One record, declaratively ----------

  /** Everything a record is checked against. */
  datatype Env = Env(manifest: Manifest, start: int, end: int, curve: Curve, orders: map<string, Order>,
                     outcomes: Outcomes, filled: set<string>, execution: Series, rules: Rules)

  predicate IsV4(manifest: Manifest) {
    manifest.policy == V4_POLICY
  }

  /** One no-fill decision and no other outcome. */
  predicate Unconflicted(r: NoFill, env: Env) {
    && env.outcomes.noFills[r.orderId] == 1
    && r.orderId in env.outcomes.approved && DecimalEqual(env.outcomes.approved[r.orderId], r.approved)
    && r.orderId !in env.outcomes.riskRejected && r.orderId !in env.outcomes.otherRejected && r.orderId !in env.filled
    && r.policy == env.manifest.policy && r.dataset == env.manifest.dataset
  }

  predicate RightKind(r: NoFill, v4: bool) {
    if v4 then
      r.schema == "simulated-no-fill-v2" && r.reason == OVER_CAP && r.liquidity == "selected_bar_base_volume_10pct"
    else
      r.schema == "simulated-no-fill-v1" && r.reason == ZERO_TRADES && r.liquidity == "zero_base_volume"
  }

  predicate FromOrder(r: NoFill, o: Order, v4: bool) {
    && o.symbol == r.symbol && o.side == r.side && DecimalEqual(o.quantity, r.requested)
    && DecimalEqual(o.referencePrice, r.reference)
    && o.executionEventAt == if v4 then r.evaluatedAt.text else r.selectedOpenAt.text
  }

  predicate Timed(r: NoFill) {
    r.signalAt.at.Some? && r.selectedOpenAt.at.Some? && r.evaluatedAt.at.Some?
  }

  /** Signal, then selected open, then evaluation, inside the window and the curve. */
  predicate WellTimed(r: NoFill, o: Order, env: Env) {
    && Timed(r) && o.signalAt.at == r.signalAt.at
    && env.start <= r.signalAt.at.value < r.selectedOpenAt.at.value < r.evaluatedAt.at.value < env.end
    && env.curve.start <= r.signalAt.at.value && r.evaluatedAt.at.value <= env.curve.end
  }

  /** The selected minute bar; under v3 it traded nothing. */
  predicate OnBar(r: NoFill, env: Env)
    requires Timed(r)
  {
    match BarAt(MarketData.Get(env.execution, r.symbol), r.selectedOpenAt.at.value)
    case None => false
    case Some(bar) =>
      && MinuteBar(bar, r.evaluatedAt.at.value)
      && (!IsV4(env.manifest) ==> bar.volume == 0.0)
      && r.openPrice == Some(bar.open)
      && (IsV4(env.manifest) ==> r.closePrice == Some(bar.close))
  }

  /** Under v4 the approved quantity is over the bar's cap, and the record shows volume and cap. */
  predicate OverCap(r: NoFill, env: Env)
    requires Timed(r) && OnBar(r, env)
  {
    var bar := BarAt(MarketData.Get(env.execution, r.symbol), r.selectedOpenAt.at.value).value;
    var cap := CapAt(env.rules, r.symbol, bar.volume, r.evaluatedAt.at.value);
    && cap.Some? && r.approved.Some? && r.approved.value > cap.value
    && r.barVolume == Some(bar.volume) && r.capacity == cap
  }

  predicate RightAmounts(r: NoFill) {
    && r.requested.Some? && r.approved.Some? && r.filled.Some? && r.reference.Some?
    && 0.0 < r.approved.value <= r.requested.value && r.filled.value == 0.0 && r.reference.value > 0.0
  }

  predicate Genuine(r: NoFill, env: Env) {
    && Unconflicted(r, env) && RightKind(r, IsV4(env.manifest))
    && r.orderId in env.orders && FromOrder(r, env.orders[r.orderId], IsV4(env.manifest))
    && WellTimed(r, env.orders[r.orderId], env)
    && OnBar(r, env) && (IsV4(env.manifest) ==> OverCap(r, env)) && RightAmounts(r)
  }

  function SignalOf(r: NoFill): int {
    if r.signalAt.at.Some? then r.signalAt.at.value else ZERO_INSTANT
  }

  /** The program treats a zero time as "no previous signal". */
  predicate Follows(previous: int, r: NoFill) {
    previous == ZERO_INSTANT || previous <= SignalOf(r)
  }

  ghost predicate InOrder(records: seq<NoFill>) {
    forall i, j :: 0 <= i < j < |records| && j == i + 1 ==> Follows(SignalOf(records[i]), records[j])
  }

  ghost predicate EachOnce(records: seq<NoFill>) {
    forall i, j :: 0 <= i < j < |records| ==> records[i].orderId != records[j].orderId
  }

  /** All genuine, no order twice, signals in order. */
  ghost predicate AllGenuine(records: seq<NoFill>, env: Env) {
    EachOnce(records) && InOrder(records) && forall i :: 0 <= i < |records| ==> Genuine(records[i], env)
  }

  function RecordIds(records: seq<NoFill>): set<string> {
    set r | r in records :: r.orderId
  }

  /** Every no-fill decision is the only one for its order and has its record. */
  ghost predicate DecisionsRecorded(noFills: multiset<string>, recorded: set<string>) {
    forall id :: id in noFills ==> noFills[id] == 1 && id in recorded
  }

  predicate Ended(id: string, o: Outcomes, filled: set<string>, recorded: set<string>) {
    id in o.riskRejected || id in o.otherRejected || id in filled || id in recorded
  }

  // ---------- The whole audit, declaratively ----------

  /** Each order has an id of its own, shared with its intent. */
  ghost predicate OrdersIdentified(orders: seq<Order>) {
    && (forall i :: 0 <= i < |orders| ==> orders[i].orderId != "" && orders[i].orderId == orders[i].intentId)
    && (forall i, j :: 0 <= i < j < |orders| ==> orders[i].orderId != orders[j].orderId)
  }

  function OrderMap(orders: seq<Order>): map<string, Order> {
    if orders == [] then map[]
    else
      var last := orders[|orders| - 1];
      OrderMap(orders[..|orders| - 1])[last.orderId := last]
  }

  predicate PolicyReady(manifest: Manifest, rules: Option<Rules>) {
    IsV4(manifest) ==>
      rules.Some? && rules.value.resolver.Some? && manifest.participationBps == 1000 && manifest.noFillRule == CAP_RULE
  }

  predicate WindowReady(manifest: Manifest, curve: Curve) {
    && manifest.start.Some? && manifest.end.Some? && manifest.start.value < manifest.end.value
    && manifest.dataset != "" && curve.start != ZERO_INSTANT && curve.end >= curve.start
  }

  function SetOf(ids: seq<string>): set<string> {
    set id | id in ids
  }

  const NO_RULES := Rules(None, map[], false)

  function EnvOf(trace: Trace, execution: Series, curve: Curve, rules: Option<Rules>): Env
    requires WindowReady(trace.manifest, curve)
  {
    Env(trace.manifest, trace.manifest.start.value, trace.manifest.end.value, curve, OrderMap(trace.orders),
        OutcomesOf(trace.decisions, IsV4(trace.manifest)), SetOf(trace.filledOrderIds), execution,
        if rules.Some? then rules.value else NO_RULES)
  }

  predicate Audited(manifest: Manifest) {
    manifest.policy == V3_POLICY || IsV4(manifest)
  }

  ghost predicate Accepts(trace: Trace, execution: Series, curve: Curve, rules: Option<Rules>) {
    && trace.noFills == trace.artifactNoFills
    && (!Audited(trace.manifest) ==> trace.noFills == [])
    && (Audited(trace.manifest) ==>
          && PolicyReady(trace.manifest, rules) && WindowReady(trace.manifest, curve)
          && OrdersIdentified(trace.orders)
          && var env := EnvOf(trace, execution, curve, rules);
          && AllGenuine(trace.noFills, env)
          && DecisionsRecorded(env.outcomes.noFills, RecordIds(trace.noFills))
          && forall id :: id in env.orders ==> Ended(id, env.outcomes, env.filled, RecordIds(trace.noFills)))
  }

  // ---------- The audit, as the program runs it ----------

  lemma OrderMapKeys(orders: seq<Order>)
    ensures forall id :: id in OrderMap(orders) <==> exists i :: 0 <= i < |orders| && orders[i].orderId == id
  {
    if orders != [] {
      OrderMapKeys(orders[..|orders| - 1]);
      assert orders == orders[..|orders| - 1] + [orders[|orders| - 1]];
    }
  }

  lemma OrdersMore(orders: seq<Order>, o: Order)
    requires OrdersIdentified(orders)
    ensures OrdersIdentified(orders + [o]) <==>
            o.orderId != "" && o.orderId == o.intentId && o.orderId !in OrderMap(orders)
    ensures OrderMap(orders + [o]) == OrderMap(orders)[o.orderId := o]
  {
    var longer := orders + [o];
    OrderMapKeys(orders);
    assert longer[..|orders|] == orders && longer[|orders|] == o;
    if o.orderId in OrderMap(orders) {
      var i :| 0 <= i < |orders| && orders[i].orderId == o.orderId;
      assert longer[i].orderId == longer[|orders|].orderId;
    }
  }

  lemma OrdersPrefix(orders: seq<Order>, n: nat)
    requires n <= |orders|
    ensures OrdersIdentified(orders) ==> OrdersIdentified(orders[..n])
  {
  }

  method IndexOrders(orders: seq<Order>) returns (r: Option<map<string, Order>>)
    ensures r.Some? <==> OrdersIdentified(orders)
    ensures r.Some? ==> r.value == OrderMap(orders)
  {
    var indexed: map<string, Order> := map[];
    for i := 0 to |orders|
      invariant OrdersIdentified(orders[..i]) && indexed == OrderMap(orders[..i])
    {
      var o := orders[i];
      assert orders[..i + 1] == orders[..i] + [o];
      OrdersMore(orders[..i], o);
      OrdersPrefix(orders, i + 1);
      if o.orderId == "" || o.orderId != o.intentId || o.orderId in indexed {
        return None;
      }
      indexed := indexed[o.orderId := o];
    }
    assert orders[..|orders|] == orders;
    r := Some(indexed);
  }

  /** The checks on one record, in the program's order. */
  method CheckRecord(r: NoFill, env: Env, seen: set<string>, previousSignal: int) returns (ok: bool)
    ensures ok <==> Genuine(r, env) && r.orderId !in seen && Follows(previousSignal, r)
  {
    var v4 := IsV4(env.manifest);
    if r.orderId in seen || !Unconflicted(r, env) || !RightKind(r, v4) {
      return false;
    }
    if r.orderId !in env.orders || !FromOrder(r, env.orders[r.orderId], v4) {
      return false;
    }
    if !WellTimed(r, env.orders[r.orderId], env) || !Follows(previousSignal, r) {
      return false;
    }
    if !OnBar(r, env) || (v4 && !OverCap(r, env)) {
      return false;
    }
    ok := RightAmounts(r);
  }

  function PreviousSignal(records: seq<NoFill>): int {
    if records == [] then ZERO_INSTANT else SignalOf(records[|records| - 1])
  }

  lemma OnceMore(records: seq<NoFill>, r: NoFill)
    requires EachOnce(records)
    ensures EachOnce(records + [r]) <==> r.orderId !in RecordIds(records)
    ensures RecordIds(records + [r]) == RecordIds(records) + {r.orderId}
  {
    var longer := records + [r];
    assert longer[|records|] == r;
    forall i | 0 <= i < |records| ensures longer[i] == records[i] {
    }
    IdsListed(records);
    if r.orderId in RecordIds(records) {
      var i :| 0 <= i < |records| && IdsOf(records)[i] == r.orderId;
      assert longer[i].orderId == longer[|records|].orderId;
    }
  }

  lemma OrderMore(records: seq<NoFill>, r: NoFill)
    requires InOrder(records)
    ensures InOrder(records + [r]) <==> Follows(PreviousSignal(records), r)
  {
    var longer := records + [r];
    assert longer[|records|] == r;
    forall i | 0 <= i < |records| ensures longer[i] == records[i] {
    }
    assert records != [] ==> longer[|records| - 1] == records[|records| - 1];
  }

  lemma GenuineMore(records: seq<NoFill>, r: NoFill, env: Env)
    requires AllGenuine(records, env)
    ensures AllGenuine(records + [r], env) <==>
            Genuine(r, env) && r.orderId !in RecordIds(records) && Follows(PreviousSignal(records), r)
    ensures RecordIds(records + [r]) == RecordIds(records) + {r.orderId}
  {
    var longer := records + [r];
    OnceMore(records, r);
    OrderMore(records, r);
    assert longer[|records|] == r;
    forall i | 0 <= i < |records| ensures Genuine(longer[i], env) {
      assert longer[i] == records[i];
    }
  }

  function IdsOf(records: seq<NoFill>): (ids: seq<string>)
    ensures |ids| == |records| && forall i :: 0 <= i < |records| ==> ids[i] == records[i].orderId
  {
    seq(|records|, i requires 0 <= i < |records| => records[i].orderId)
  }

  lemma IdsListed(records: seq<NoFill>)
    ensures forall id :: id in IdsOf(records) <==> id in RecordIds(records)
  {
    forall id | id in RecordIds(records) ensures id in IdsOf(records) {
      var i :| 0 <= i < |records| && records[i].orderId == id;
      assert IdsOf(records)[i] == id;
    }
  }

  lemma GenuinePrefix(records: seq<NoFill>, n: nat, env: Env)
    requires n <= |records|
    ensures AllGenuine(records, env) ==> AllGenuine(records[..n], env)
  {
  }

  lemma PrefixSplits(records: seq<NoFill>, n: nat)
    requires n < |records|
    ensures records[..n + 1] == records[..n] + [records[n]]
    ensures PreviousSignal(records[..n + 1]) == SignalOf(records[n])
  {
  }

  function PrimitiveOf(r: NoFill): Primitive
    requires Timed(r)
  {
    Primitive(r, r.signalAt.at.value, r.selectedOpenAt.at.value, r.evaluatedAt.at.value)
  }

  ghost predicate ProjectsTo(records: seq<NoFill>, primitives: seq<Primitive>) {
    && |primitives| == |records|
    && forall i :: 0 <= i < |records| ==> Timed(records[i]) && primitives[i] == PrimitiveOf(records[i])
  }

  lemma ProjectsMore(records: seq<NoFill>, r: NoFill, primitives: seq<Primitive>)
    requires ProjectsTo(records, primitives) && Timed(r)
    ensures ProjectsTo(records + [r], primitives + [PrimitiveOf(r)])
  {
  }

  /** The loop over the records. */
  method CheckRecords(records: seq<NoFill>, env: Env) returns (ok: bool, primitives: seq<Primitive>, seen: set<string>)
    ensures ok <==> AllGenuine(records, env)
    ensures ok ==> ProjectsTo(records, primitives) && seen == RecordIds(records)
  {
    hide OnBar, OverCap, Unconflicted, RightKind, FromOrder, RightAmounts, Follows;
    primitives, seen := [], {};
    var previousSignal := ZERO_INSTANT;
    for i := 0 to |records|
      invariant AllGenuine(records[..i], env) && seen == RecordIds(records[..i])
      invariant previousSignal == PreviousSignal(records[..i]) && ProjectsTo(records[..i], primitives)
    {
      var r := records[i];
      PrefixSplits(records, i);
      GenuineMore(records[..i], r, env);
      GenuinePrefix(records, i + 1, env);
      ok := CheckRecord(r, env, seen, previousSignal);
      if !ok {
        return;
      }
      ProjectsMore(records[..i], r, primitives);
      primitives := primitives + [PrimitiveOf(r)];
      seen, previousSignal := seen + {r.orderId}, SignalOf(r);
    }
    assert records[..|records|] == records;
    ok := true;
  }

  /** Visits the decided orders in any order. */
  method CheckDecided(noFills: multiset<string>, seen: set<string>) returns (ok: bool)
    ensures ok <==> DecisionsRecorded(noFills, seen)
  {
    var rest := set id | id in noFills;
    while rest != {}
      invariant forall id :: id in noFills && id !in rest ==> noFills[id] == 1 && id in seen
      invariant forall id :: id in rest ==> id in noFills
    {
      var id :| id in rest;
      if noFills[id] != 1 || id !in seen {
        return false;
      }
      rest := rest - {id};
    }
    ok := true;
  }

  /** Visits the orders in any order. */
  method CheckEnded(ids: set<string>, o: Outcomes, filled: set<string>, seen: set<string>) returns (ok: bool)
    ensures ok <==> forall id :: id in ids ==> Ended(id, o, filled, seen)
  {
    var rest := ids;
    while rest != {}
      invariant rest <= ids && forall id :: id in ids && id !in rest ==> Ended(id, o, filled, seen)
    {
      var id :| id in rest;
      if id !in o.riskRejected && id !in o.otherRejected && id !in filled && id !in seen {
        return false;
      }
      rest := rest - {id};
    }
    ok := true;
  }

  method FilledOrders(ids: seq<string>) returns (filled: set<string>)
    ensures filled == SetOf(ids)
  {
    filled := {};
    for i := 0 to |ids|
      invariant filled == SetOf(ids[..i])
    {
      filled := filled + {ids[i]};
    }
  }

  /** stage 07 no-fill primitives. */
  method NoFillPrimitives(trace: Trace, execution: Series, curve: Curve, rules: Option<Rules>)
    returns (r: Option<seq<Primitive>>)
    ensures r.Some? <==> Accepts(trace, execution, curve, rules)
    ensures r.Some? ==> ProjectsTo(trace.noFills, r.value)
  {
    if |trace.noFills| != |trace.artifactNoFills| || trace.noFills != trace.artifactNoFills {
      return None;
    }
    if !Audited(trace.manifest) {
      r := if trace.noFills != [] then None else Some([]);
      return;
    }
    if !PolicyReady(trace.manifest, rules) || !WindowReady(trace.manifest, curve) {
      return None;
    }
    var orders := IndexOrders(trace.orders);
    if orders.None? {
      return None;
    }
    var outcomes := ReadDecisions(trace.decisions, IsV4(trace.manifest));
    var filled := FilledOrders(trace.filledOrderIds);
    var env := Env(trace.manifest, trace.manifest.start.value, trace.manifest.end.value, curve, orders.value, outcomes,
                   filled, execution, if rules.Some? then rules.value else NO_RULES);
    var ok, primitives, seen := CheckRecords(trace.noFills, env);
    if !ok {
      return None;
    }
    ok := CheckDecided(outcomes.noFills, seen);
    if !ok {
      return None;
    }
    ok := CheckEnded(orders.value.Keys, outcomes, filled, seen);
    if !ok {
      return None;
    }
    r := Some(primitives);
  }

  // ---------- What acceptance means ----------

  lemma DistinctMultiplicity(ids: seq<string>, id: string)
    requires forall i, j :: 0 <= i < j < |ids| ==> ids[i] != ids[j]
    ensures multiset(ids)[id] == if id in ids then 1 else 0
  {
    if ids != [] {
      var front, last := ids[..|ids| - 1], ids[|ids| - 1];
      DistinctMultiplicity(front, id);
      assert ids == front + [last];
    }
  }

  lemma GenuineAreSingle(records: seq<NoFill>, env: Env)
    requires AllGenuine(records, env)
    ensures forall id :: id in IdsOf(records) ==> env.outcomes.noFills[id] == 1
  {
    forall i | 0 <= i < |records| ensures env.outcomes.noFills[IdsOf(records)[i]] == 1 {
      assert Unconflicted(records[i], env);
    }
  }

  lemma RecordsAreDecisions(records: seq<NoFill>, env: Env)
    requires AllGenuine(records, env) && DecisionsRecorded(env.outcomes.noFills, RecordIds(records))
    ensures multiset(IdsOf(records)) == env.outcomes.noFills
  {
    IdsListed(records);
    GenuineAreSingle(records, env);
    forall id ensures multiset(IdsOf(records))[id] == env.outcomes.noFills[id] {
      DistinctMultiplicity(IdsOf(records), id);
    }
  }

  /** Under v3 and v4 an accepted trace's no-fill records are, one for one, the broker's no-fill
      decisions, with no order twice; under any other policy there are none. */
  lemma AcceptedRecordsAreDecisions(trace: Trace, execution: Series, curve: Curve, rules: Option<Rules>)
    requires Accepts(trace, execution, curve, rules)
    ensures Audited(trace.manifest) ==>
      multiset(IdsOf(trace.noFills)) == multiset(NoFillIds(trace.decisions, IsV4(trace.manifest)))
    ensures forall i, j :: 0 <= i < j < |trace.noFills| ==> trace.noFills[i].orderId != trace.noFills[j].orderId
    ensures !Audited(trace.manifest) ==> trace.noFills == []
  {
    if Audited(trace.manifest) {
      NoFillsMean(trace.decisions, IsV4(trace.manifest));
      RecordsAreDecisions(trace.noFills, EnvOf(trace, execution, curve, rules));
    }
  }

  /** An accepted no-fill belongs to an order that neither filled nor was rejected. */
  lemma AcceptedRecordsAreExclusive(trace: Trace, execution: Series, curve: Curve, rules: Option<Rules>, i: nat)
    requires Accepts(trace, execution, curve, rules) && i < |trace.noFills|
    ensures var id := trace.noFills[i].orderId;
      && (exists k :: 0 <= k < |trace.orders| && trace.orders[k].orderId == id)
      && id !in trace.filledOrderIds && !RiskRefused(trace.decisions, id)
      && !OtherwiseRefused(trace.decisions, IsV4(trace.manifest), id)
  {
    var env := EnvOf(trace, execution, curve, rules);
    assert Genuine(trace.noFills[i], env);
    OrderMapKeys(trace.orders);
    RejectionsMean(trace.decisions, IsV4(trace.manifest), trace.noFills[i].orderId);
  }

  /** Every order of an accepted v3 or v4 trace came to an end: filled, rejected, or not filled. */
  lemma EveryOrderEnds(trace: Trace, execution: Series, curve: Curve, rules: Option<Rules>, k: nat)
    requires Accepts(trace, execution, curve, rules) && Audited(trace.manifest) && k < |trace.orders|
    ensures var id := trace.orders[k].orderId;
      || id in trace.filledOrderIds || RiskRefused(trace.decisions, id)
      || OtherwiseRefused(trace.decisions, IsV4(trace.manifest), id) || id in IdsOf(trace.noFills)
  {
    var env := EnvOf(trace, execution, curve, rules);
    var id := trace.orders[k].orderId;
    OrderMapKeys(trace.orders);
    assert Ended(id, env.outcomes, env.filled, RecordIds(trace.noFills));
    RejectionsMean(trace.decisions, IsV4(trace.manifest), id);
    IdsListed(trace.noFills);
  }

  lemma GenuineIsOverCap(r: NoFill, env: Env)
    requires Genuine(r, env) && IsV4(env.manifest)
    ensures NoFillCapacity(env.execution, env.rules, r.symbol, r.selectedOpenAt.at.value, r.evaluatedAt.at.value,
                           r.approved.value)
  {
  }

  /** Under v4 every accepted no-fill is one the broker had to cancel: at its bar and instant the
      approved quantity is over the cap, so no fill of that order could pass the fill audit there. */
  lemma AcceptedNoFillsCannotFill(trace: Trace, execution: Series, curve: Curve, rules: Option<Rules>, i: nat)
    requires Accepts(trace, execution, curve, rules) && IsV4(trace.manifest) && i < |trace.noFills|
    ensures var r := trace.noFills[i];
      && Timed(r) && r.approved.Some? && rules.Some?
      && NoFillCapacity(execution, rules.value, r.symbol, r.selectedOpenAt.at.value, r.evaluatedAt.at.value,
                        r.approved.value)
      && forall filled :: !FillCapacity(execution, rules.value, r.symbol, r.evaluatedAt.at.value, r.approved.value,
                                        filled)
  {
    var r := trace.noFills[i];
    GenuineIsOverCap(r, EnvOf(trace, execution, curve, rules));
    forall filled
      ensures !FillCapacity(execution, rules.value, r.symbol, r.evaluatedAt.at.value, r.approved.value, filled)
    {
      AuditsExclude(execution, rules.value, r.symbol, r.selectedOpenAt.at.value, r.evaluatedAt.at.value,
                    r.approved.value, filled);
    }
  }

  /** Under v3 every accepted no-fill is on a bar without trades, and the replay admits no fill of that
      symbol there. */
  lemma AcceptedZeroTradesCannotFill(trace: Trace, execution: Series, curve: Curve, rules: Option<Rules>, i: nat,
                                     st: Replay.State, f: Replay.FillArtifact, ctx: Replay.Context)
    requires Accepts(trace, execution, curve, rules) && trace.manifest.policy == V3_POLICY && i < |trace.noFills|
    ensures var r := trace.noFills[i];
      && Timed(r) && NoTrades(execution, r.symbol, r.selectedOpenAt.at.value, r.evaluatedAt.at.value)
      && (!ctx.policy.V4? && ctx.execution == execution && f.symbol == r.symbol && f.at == r.selectedOpenAt.at.value ==>
            Replay.Admit(st, f, ctx).Denied?)
  {
    hide Replay.Admit;
    var r := trace.noFills[i];
    NoTradesRecorded(r, EnvOf(trace, execution, curve, rules));
    if !ctx.policy.V4? && ctx.execution == execution && f.symbol == r.symbol && f.at == r.selectedOpenAt.at.value {
      NoTradesNoFill(st, f, ctx, r.evaluatedAt.at.value);
    }
  }

  lemma NoTradesRecorded(r: NoFill, env: Env)
    requires Genuine(r, env) && !IsV4(env.manifest)
    ensures Timed(r)
    ensures NoTrades(env.execution, r.symbol, r.selectedOpenAt.at.value, r.evaluatedAt.at.value)
  {
  }

  // ---------- What a record must show ----------

  /** The record and an order of the trace agree. */
  predicate OfOrder(r: NoFill, o: Order, v4: bool) {
    && o.orderId == r.orderId && o.intentId == r.orderId && r.orderId != "" && o.symbol == r.symbol && o.side == r.side
    && o.quantity.Some? && o.quantity == r.requested && o.referencePrice.Some? && o.referencePrice == r.reference
    && o.signalAt.at == r.signalAt.at
    && o.executionEventAt == if v4 then r.evaluatedAt.text else r.selectedOpenAt.text
  }

  /** The record lies in the run and the curve: signal, then selected open, then evaluation. */
  predicate InRun(r: NoFill, m: Manifest, curve: Curve) {
    && m.start.Some? && m.end.Some? && r.signalAt.at.Some? && r.selectedOpenAt.at.Some? && r.evaluatedAt.at.Some?
    && m.start.value <= r.signalAt.at.value && curve.start <= r.signalAt.at.value
    && r.signalAt.at.value < r.selectedOpenAt.at.value < r.evaluatedAt.at.value
    && r.evaluatedAt.at.value < m.end.value && r.evaluatedAt.at.value <= curve.end
  }

  /** The record shows a sound minute bar: without trades under v3, and under v4 with its close, its volume
      and a capacity that the approved quantity is over. */
  predicate OfBar(r: NoFill, bar: Bar, v4: bool)
    requires r.selectedOpenAt.at.Some? && r.evaluatedAt.at.Some?
  {
    && Instant(bar.openTime) == r.selectedOpenAt.at.value && bar.closeTime == Millis(r.evaluatedAt.at.value)
    && bar.closeTime == bar.openTime + 60_000 - 1
    && 0.0 < bar.low <= bar.open <= bar.high && bar.low <= bar.close <= bar.high && bar.volume >= 0.0
    && r.openPrice == Some(bar.open)
    && (if v4 then
          && r.closePrice == Some(bar.close) && r.barVolume == Some(bar.volume)
          && r.capacity.Some? && r.approved.Some? && r.capacity.value < r.approved.value
          && r.capacity.value <= bar.volume / 10.0
        else bar.volume == 0.0)
  }

  /** The fixed words of a record, by policy. */
  predicate OfKind(r: NoFill, m: Manifest) {
    && r.policy == m.policy && r.dataset == m.dataset
    && (if m.policy == "backtest-execution-v4" then
          && r.schema == "simulated-no-fill-v2" && r.reason == "simulated_no_fill_volume_cap"
          && r.liquidity == "selected_bar_base_volume_10pct"
        else
          && r.schema == "simulated-no-fill-v1" && r.reason == "simulated_no_fill_zero_trades"
          && r.liquidity == "zero_base_volume")
    && r.requested.Some? && r.approved.Some? && r.filled == Some(0.0) && r.reference.Some? && r.reference.value > 0.0
    && 0.0 < r.approved.value <= r.requested.value
  }

  lemma {:induction false} MappedOrder(orders: seq<Order>, id: string) returns (k: nat)
    requires id in OrderMap(orders)
    ensures k < |orders| && orders[k].orderId == id && orders[k] == OrderMap(orders)[id]
    decreases |orders|
  {
    var last := |orders| - 1;
    if orders[last].orderId == id {
      k := last;
    } else {
      k := MappedOrder(orders[..last], id);
    }
  }

  lemma GenuineOnBar(r: NoFill, env: Env) returns (bar: Bar)
    requires Genuine(r, env)
    ensures Timed(r) && bar in MarketData.Get(env.execution, r.symbol) && OfBar(r, bar, IsV4(env.manifest))
  {
    hide CapAt;
    bar := BarAt(MarketData.Get(env.execution, r.symbol), r.selectedOpenAt.at.value).value;
    BarOpens(MarketData.Get(env.execution, r.symbol), r.selectedOpenAt.at.value);
    if IsV4(env.manifest) {
      CapIsATenth(env.rules, r.symbol, bar.volume, r.evaluatedAt.at.value);
    }
  }

  lemma CapIsATenth(rules: Rules, symbol: string, volume: real, at: int)
    requires CapAt(rules, symbol, volume, at).Some?
    ensures CapAt(rules, symbol, volume, at).value <= volume / 10.0
  {
    CapIsGreatestMultiple(volume, ConstraintValues(rules, symbol, at).value.lot);
  }

  /** Every accepted record belongs to an order of the trace, lies in the run and shows its bar. */
  lemma AcceptedRecordShows(trace: Trace, execution: Series, curve: Curve, rules: Option<Rules>, i: nat)
    returns (k: nat, bar: Bar)
    requires Accepts(trace, execution, curve, rules) && Audited(trace.manifest) && i < |trace.noFills|
    ensures var r, m := trace.noFills[i], trace.manifest;
      && InRun(r, m, curve) && OfKind(r, m)
      && k < |trace.orders| && OfOrder(r, trace.orders[k], m.policy == "backtest-execution-v4")
      && bar in MarketData.Get(execution, r.symbol) && OfBar(r, bar, m.policy == "backtest-execution-v4")
  {
    hide OnBar, OverCap, OfBar, Unconflicted;
    var r, env := trace.noFills[i], EnvOf(trace, execution, curve, rules);
    assert Genuine(r, env);
    k := MappedOrder(trace.orders, r.orderId);
    bar := GenuineOnBar(r, env);
    GenuineKind(r, env);
  }

  lemma GenuineKind(r: NoFill, env: Env)
    requires Genuine(r, env) && Audited(env.manifest)
    ensures OfKind(r, env.manifest)
  {
    hide OnBar, OverCap;
  }
}
