/** The whole v4 admission of the fill replay: each fill is bound to its order, to the one decision that
    accepted it, to its bar and to the cost policy. The broker and the audit read a bar's close through
    different texts, so a fill the v4 broker makes passes exactly when both readings slip to one price. */
module V4Admission {
  import opened MarketData
  import opened Rounding
  import opened VolumeCap
  import opened NoFillAudit
  import FillCosts
  import Ledger
  import Orders
  import Refinement
  import Replay
  import Runs

  // ---------- What the audit reads ----------

  type Fraction = r: Rat | r.den > 0 witness Rat(0, 1)

  function RealOf(r: Fraction): real {
    r.num as real / r.den as real
  }

  /** A fill's numbers, read exactly from the texts that the replay reads as numbers. */
  datatype Amounts = Amounts(quantity: Fraction, price: Fraction, fee: Fraction)

  /** The rest of a fill's record; None where a text does not parse. */
  datatype Papers = Papers(intentId: string, orderAt: Option<int>, costVersion: string, amounts: Option<Amounts>)

  /** The run's constraints and cost policy, and how the program writes an instant. Prices and ticks are
      given by their shortest text; rendered is the units of the 18-place text of the same binary number,
      which need not be equal. */
  datatype Terms = Terms(rules: Rules, feeBps: real, slippageBps: real, costVersion: string, canonical: int -> string,
                         rendered: real -> int)

  predicate IsAcceptance(d: BrokerDecision) {
    d.stage == "broker" && (d.code == "filled" || d.code == "accepted")
  }

  /** Accepting decisions per order; approved keeps the last one's quantity. */
  datatype Acceptances = Acceptances(count: multiset<string>, approved: map<string, Option<real>>)

  function AcceptancesOf(decisions: seq<BrokerDecision>): Acceptances {
    if decisions == [] then Acceptances(multiset{}, map[])
    else
      var earlier, d := AcceptancesOf(decisions[..|decisions| - 1]), decisions[|decisions| - 1];
      if IsAcceptance(d) then
        Acceptances(earlier.count + multiset{d.intentId}, earlier.approved[d.intentId := d.approved])
      else earlier
  }

  method ReadAcceptances(decisions: seq<BrokerDecision>) returns (a: Acceptances)
    ensures a == AcceptancesOf(decisions)
  {
    var count: multiset<string>, approved: map<string, Option<real>> := multiset{}, map[];
    for i := 0 to |decisions|
      invariant Acceptances(count, approved) == AcceptancesOf(decisions[..i])
    {
      var d := decisions[i];
      assert decisions[..i + 1][..i] == decisions[..i];
      if d.stage == "broker" && (d.code == "filled" || d.code == "accepted") {
        count := count + multiset{d.intentId};
        approved := approved[d.intentId := d.approved];
      }
    }
    assert decisions[..|decisions|] == decisions;
    a := Acceptances(count, approved);
  }

  predicate Accepts(decisions: seq<BrokerDecision>, i: nat, id: string) {
    i < |decisions| && IsAcceptance(decisions[i]) && decisions[i].intentId == id
  }

  ghost predicate OnlyAcceptance(decisions: seq<BrokerDecision>, i: nat, id: string) {
    Accepts(decisions, i, id) && forall j: nat :: Accepts(decisions, j, id) ==> j == i
  }

  lemma AcceptsMore(front: seq<BrokerDecision>, d: BrokerDecision, id: string)
    ensures forall j: nat :: j < |front| ==> (Accepts(front + [d], j, id) <==> Accepts(front, j, id))
    ensures Accepts(front + [d], |front|, id) <==> IsAcceptance(d) && d.intentId == id
    ensures forall j: nat :: j > |front| ==> !Accepts(front + [d], j, id)
  {
  }

  lemma {:induction false} AcceptancesCounted(decisions: seq<BrokerDecision>, id: string)
    ensures AcceptancesOf(decisions).count[id] == 0 <==> forall j: nat :: !Accepts(decisions, j, id)
    ensures AcceptancesOf(decisions).count[id] == 1 <==> exists i: nat :: OnlyAcceptance(decisions, i, id)
    ensures forall i: nat :: OnlyAcceptance(decisions, i, id) ==>
              id in AcceptancesOf(decisions).approved
              && AcceptancesOf(decisions).approved[id] == decisions[i].approved
  {
    if decisions != [] {
      var front, d := decisions[..|decisions| - 1], decisions[|decisions| - 1];
      assert decisions == front + [d];
      AcceptancesCounted(front, id);
      AcceptsMore(front, d, id);
      if IsAcceptance(d) && d.intentId == id {
        LastAcceptance(front, d, id);
      } else {
        SameAcceptances(front, d, id);
      }
    }
  }

  lemma LastAcceptance(front: seq<BrokerDecision>, d: BrokerDecision, id: string)
    requires IsAcceptance(d) && d.intentId == id
    ensures OnlyAcceptance(front + [d], |front|, id) <==> forall j: nat :: !Accepts(front, j, id)
    ensures forall i: nat :: OnlyAcceptance(front + [d], i, id) ==> i == |front|
  {
    AcceptsMore(front, d, id);
  }

  lemma SameAcceptances(front: seq<BrokerDecision>, d: BrokerDecision, id: string)
    requires !(IsAcceptance(d) && d.intentId == id)
    ensures forall i: nat :: OnlyAcceptance(front + [d], i, id) <==> OnlyAcceptance(front, i, id)
    ensures forall i: nat :: OnlyAcceptance(front, i, id) ==> (front + [d])[i] == front[i]
  {
    AcceptsMore(front, d, id);
    forall i: nat ensures Accepts(front + [d], i, id) <==> Accepts(front, i, id) {
    }
  }

  // ---------- The binding ----------

  datatype Books = Books(orders: map<string, Order>, acceptances: Acceptances)

  /** A tick is read through its 18-place text by broker and audit alike. */
  function TickOf(terms: Terms, tick: Option<real>): FillCosts.Tick {
    match tick
    case None => FillCosts.NoTick
    case Some(t) => FillCosts.Step(terms.rendered(t))
  }

  /** The audit's reading of a close, through its shortest text. */
  function CloseOf(close: real): FillCosts.Close {
    match InputDecimal(close)
    case None => FillCosts.Inexact
    case Some(units) => FillCosts.Exact(units)
  }

  function SideOf(text: string): Orders.Side {
    if text == "sell" then Orders.Sell else Orders.Buy
  }

  function RecordOf(side: Orders.Side, amounts: Amounts): FillCosts.FillRecord {
    FillCosts.FillRecord(side, amounts.quantity, amounts.price, amounts.fee)
  }

  predicate CostsVerified(terms: Terms, f: Replay.FillArtifact, amounts: Amounts, bar: Bar) {
    match ConstraintValues(terms.rules, f.symbol, f.at)
    case None => false
    case Some(limits) =>
      FillCosts.VerifyFillCosts(RecordOf(SideOf(f.side), amounts), CloseOf(bar.close), TickOf(terms, limits.tick),
                                terms.feeBps, terms.slippageBps).Accepted?
  }

  /** The fill agrees with its order, and the order was accepted once for just this quantity. */
  predicate MatchesOrder(terms: Terms, books: Books, f: Replay.FillArtifact, p: Papers) {
    && f.orderId in books.orders && books.acceptances.count[f.orderId] == 1
    && f.orderId in books.acceptances.approved
    && var o, approved := books.orders[f.orderId], books.acceptances.approved[f.orderId];
    && p.intentId == f.orderId && o.symbol == f.symbol && o.side == f.side
    && o.signalAt.at.Some? && o.signalAt.at.value < MinuteOpen(f.at) && p.orderAt == o.signalAt.at
    && approved == Some(f.quantity) && o.quantity.Some? && f.quantity <= o.quantity.value
    && o.executionEventAt == terms.canonical(f.at) && p.costVersion == terms.costVersion
  }

  /** Both readings of a fill's texts are of the same numbers. */
  predicate ReadTwice(f: Replay.FillArtifact, amounts: Amounts) {
    RealOf(amounts.quantity) == f.quantity && RealOf(amounts.price) == f.price && RealOf(amounts.fee) == f.fee
  }

  predicate Bound(terms: Terms, books: Books, papers: map<string, Papers>, f: Replay.FillArtifact, bar: Bar) {
    && f.fillId in papers && papers[f.fillId].amounts.Some? && ReadTwice(f, papers[f.fillId].amounts.value)
    && MatchesOrder(terms, books, f, papers[f.fillId])
    && CostsVerified(terms, f, papers[f.fillId].amounts.value, bar)
  }

  function Binding(terms: Terms, books: Books, papers: map<string, Papers>): (Replay.FillArtifact, Bar) -> bool {
    (f: Replay.FillArtifact, bar: Bar) => Bound(terms, books, papers, f, bar)
  }

  function PolicyOf(terms: Terms, books: Books, papers: map<string, Papers>): Replay.Policy {
    Replay.V4(Admission(terms.rules, Binding(terms, books, papers)))
  }

  function BooksOf(orders: seq<Order>, decisions: seq<BrokerDecision>): Books {
    Books(OrderMap(orders), AcceptancesOf(decisions))
  }

  // ---------- The v4 replay ----------

  datatype V4Result = NoConstraints | BadOrders | Replayed(result: Replay.StepResult)

  /** Everything a v4 run leaves for the replay. */
  datatype Evidence = Evidence(orders: seq<Order>, decisions: seq<BrokerDecision>, fills: seq<Replay.FillArtifact>,
                               papers: map<string, Papers>, metrics: Replay.Metrics)

  /** stage 07 economic primitives under policy v4: point-in-time constraints must be at hand and every
      order must have an id of its own before any fill is replayed. */
  method EconomicPrimitivesV4(evidence: Evidence, terms: Terms, capital: real, ctx: Replay.Context)
    returns (r: V4Result)
    requires capital != 0.0
    ensures r.NoConstraints? <==> terms.rules.resolver.None?
    ensures r.BadOrders? <==> terms.rules.resolver.Some? && !OrdersIdentified(evidence.orders)
    ensures r.Replayed? ==>
      var books := BooksOf(evidence.orders, evidence.decisions);
      r.result == Replay.ReplayAll(evidence.fills, evidence.metrics, capital,
                                   ctx.(policy := PolicyOf(terms, books, evidence.papers)))
  {
    if terms.rules.resolver.None? {
      return NoConstraints;
    }
    var orders := IndexOrders(evidence.orders);
    if orders.None? {
      return BadOrders;
    }
    var acceptances := ReadAcceptances(evidence.decisions);
    var policy := PolicyOf(terms, Books(orders.value, acceptances), evidence.papers);
    var result := Replay.EconomicPrimitives(evidence.fills, evidence.metrics, capital, ctx.(policy := policy));
    r := Replayed(result);
  }

  // ---------- What the broker leaves behind ----------

  /** An order as risk approved it, the bar it fills on, and the fill's identity. */
  datatype Deal = Deal(orderId: string, symbol: string, side: Orders.Side, requested: real, approved: Fraction,
                       signalAt: int, selectedOpen: int, fillId: string, reference: real)

  /** Basis points as the broker takes them, cut to a whole number. */
  function WholeBps(bps: real): int {
    if bps >= 0.0 then bps.Floor else -((-bps).Floor)
  }

  function BarOf(config: Config, d: Deal): Bar
    requires SelectedBar(config, d.symbol, d.selectedOpen).Some?
  {
    SelectedBar(config, d.symbol, d.selectedOpen).value
  }

  function FilledAt(config: Config, d: Deal): int
    requires SelectedBar(config, d.symbol, d.selectedOpen).Some?
  {
    Instant(BarOf(config, d).closeTime)
  }

  /** The tick in force when the bar closes. */
  function TickAt(config: Config, terms: Terms, d: Deal): FillCosts.Tick
    requires SelectedBar(config, d.symbol, d.selectedOpen).Some?
  {
    match ConstraintValues(terms.rules, d.symbol, FilledAt(config, d))
    case None => FillCosts.NoTick
    case Some(limits) => TickOf(terms, limits.tick)
  }

  function PriceUnits(config: Config, terms: Terms, d: Deal): int
    requires SelectedBar(config, d.symbol, d.selectedOpen).Some? && FillCosts.ValidTick(TickAt(config, terms, d))
  {
    FillCosts.BrokerPrice(terms.rendered(BarOf(config, d).close), d.side, WholeBps(terms.slippageBps),
                          TickAt(config, terms, d))
  }

  /** The v4 broker passes the order on at minute bars and finds a price for it. */
  predicate BrokerFills(config: Config, terms: Terms, d: Deal) {
    && config.intervalMinutes == 1 && SelectedBar(config, d.symbol, d.selectedOpen).Some?
    && d.approved.num > 0 && RealOf(d.approved) <= d.requested && d.signalAt < d.selectedOpen
    && BrokerDecides(config, terms.rules, d.symbol, d.selectedOpen, RealOf(d.approved)).PassedOn?
    && terms.rendered(BarOf(config, d).close) > 0
    && FillCosts.ValidTick(TickAt(config, terms, d)) && PriceUnits(config, terms, d) > 0
    && d.fillId != "" && DecimalText.TrimSpace(d.symbol) != "" && d.reference > 0.0
  }

  function AmountsOf(config: Config, terms: Terms, d: Deal): Amounts
    requires BrokerFills(config, terms, d)
  {
    var price := Lowest(PriceUnits(config, terms, d), UNIT);
    Amounts(d.approved, price, Lowest(FillCosts.BrokerFee(d.approved, price, WholeBps(terms.feeBps)), UNIT))
  }

  /** The fill the program records. */
  function FillOf(config: Config, terms: Terms, d: Deal): Replay.FillArtifact
    requires BrokerFills(config, terms, d)
  {
    var amounts := AmountsOf(config, terms, d);
    Replay.FillArtifact(d.fillId, d.orderId, d.symbol, Refinement.SideText(d.side), true, RealOf(amounts.quantity),
                        RealOf(amounts.price), RealOf(amounts.fee), d.reference, FilledAt(config, d))
  }

  function PapersOf(config: Config, terms: Terms, d: Deal): Papers
    requires BrokerFills(config, terms, d)
  {
    Papers(d.orderId, Some(d.signalAt), terms.costVersion, Some(AmountsOf(config, terms, d)))
  }

  /** The records hold the order, its one acceptance and the rest of its fill. */
  ghost predicate Recorded(config: Config, terms: Terms, d: Deal, evidence: Evidence)
    requires BrokerFills(config, terms, d)
  {
    && d.fillId in evidence.papers && evidence.papers[d.fillId] == PapersOf(config, terms, d)
    && (exists k :: 0 <= k < |evidence.orders| && evidence.orders[k].orderId == d.orderId
                    && OrderRecorded(config, terms, d, evidence.orders[k]))
    && (exists i: nat :: OnlyAcceptance(evidence.decisions, i, d.orderId)
                         && evidence.decisions[i].approved == Some(RealOf(d.approved)))
  }

  predicate OrderRecorded(config: Config, terms: Terms, d: Deal, o: Order)
    requires BrokerFills(config, terms, d)
  {
    && o.symbol == d.symbol && o.side == Refinement.SideText(d.side) && o.quantity == Some(d.requested)
    && o.signalAt.at == Some(d.signalAt) && o.executionEventAt == terms.canonical(FilledAt(config, d))
  }

  // ---------- Broker fills are admitted ----------

  /** Cost rates the audit takes: whole, and not negative. */
  predicate WholeCosts(terms: Terms) {
    && terms.feeBps >= 0.0 && terms.slippageBps >= 0.0
    && terms.feeBps == terms.feeBps.Floor as real && terms.slippageBps == terms.slippageBps.Floor as real
  }

  lemma SignOfReal(r: Fraction)
    ensures RealOf(r) > 0.0 <==> r.num > 0
    ensures RealOf(r) >= 0.0 <==> r.num >= 0
  {
    var n, d := r.num as real, r.den as real;
    assert n == RealOf(r) * d;
  }

  /** Both readings of the close slip to one price; the audit has one only within 18 places. */
  predicate ReadsAlike(config: Config, terms: Terms, d: Deal)
    requires BrokerFills(config, terms, d)
  {
    var close := BarOf(config, d).close;
    && InputDecimal(close).Some?
    && FillCosts.SameSlip(terms.rendered(close), InputDecimal(close).value, d.side, WholeBps(terms.slippageBps),
                          TickAt(config, terms, d))
  }

  /** Where both texts of the close are one number, as of a close that a binary number holds exactly. */
  lemma EqualReadingsSuffice(config: Config, terms: Terms, d: Deal)
    requires BrokerFills(config, terms, d)
    requires InputDecimal(BarOf(config, d).close) == Some(terms.rendered(BarOf(config, d).close))
    ensures ReadsAlike(config, terms, d)
  {
  }

  /** The broker's own costs are verified exactly when rates are whole and the readings slip alike. */
  lemma CostsVerifiedIff(config: Config, terms: Terms, d: Deal)
    requires BrokerFills(config, terms, d)
    ensures CostsVerified(terms, FillOf(config, terms, d), AmountsOf(config, terms, d), BarOf(config, d))
      <==> WholeCosts(terms) && ReadsAlike(config, terms, d)
  {
    var amounts, bar := AmountsOf(config, terms, d), BarOf(config, d);
    assert SideOf(Refinement.SideText(d.side)) == d.side;
    assert ConstraintValues(terms.rules, d.symbol, FilledAt(config, d)).Some?;
    if WholeCosts(terms) && InputDecimal(bar.close).Some? {
      var feeBps: nat, slippageBps: nat := terms.feeBps.Floor, terms.slippageBps.Floor;
      FillCosts.AuditAcceptsReadingIff(RecordOf(d.side, amounts), terms.rendered(bar.close),
                                       InputDecimal(bar.close).value, TickAt(config, terms, d), feeBps, slippageBps);
    }
  }

  lemma FeeOfDeal(config: Config, terms: Terms, d: Deal)
    requires BrokerFills(config, terms, d) && WholeCosts(terms)
    ensures RealOf(AmountsOf(config, terms, d).fee) >= 0.0
  {
    var amounts := AmountsOf(config, terms, d);
    FillCosts.SignOfUnits(amounts.price, PriceUnits(config, terms, d));
    FillCosts.FeeIsNotNegative(d.approved, amounts.price, terms.feeBps.Floor);
    FillCosts.SignOfUnits(amounts.fee, FillCosts.BrokerFee(d.approved, amounts.price, terms.feeBps.Floor));
    SignOfReal(amounts.fee);
  }

  lemma OrderMapLists(orders: seq<Order>, k: nat)
    requires OrdersIdentified(orders) && k < |orders|
    ensures orders[k].orderId in OrderMap(orders) && OrderMap(orders)[orders[k].orderId] == orders[k]
  {
    var front, last := orders[..|orders| - 1], orders[|orders| - 1];
    if k < |orders| - 1 {
      OrderMapLists(front, k);
      assert front[k] == orders[k] && orders[k].orderId != last.orderId;
    }
  }

  lemma RecordsMatch(config: Config, terms: Terms, d: Deal, evidence: Evidence)
    requires BrokerFills(config, terms, d) && Recorded(config, terms, d, evidence)
    requires OrdersIdentified(evidence.orders)
    ensures MatchesOrder(terms, BooksOf(evidence.orders, evidence.decisions), FillOf(config, terms, d),
                         PapersOf(config, terms, d))
  {
    hide MatchesOrder, OrderMap, AcceptancesOf, OrdersIdentified, OrderRecorded, BrokerFills, FillOf, PapersOf;
    var k :| 0 <= k < |evidence.orders| && evidence.orders[k].orderId == d.orderId
             && OrderRecorded(config, terms, d, evidence.orders[k]);
    var i: nat :| OnlyAcceptance(evidence.decisions, i, d.orderId)
                  && evidence.decisions[i].approved == Some(RealOf(d.approved));
    OrderMapLists(evidence.orders, k);
    AcceptancesCounted(evidence.decisions, d.orderId);
    DealMatches(config, terms, d, evidence.orders[k], BooksOf(evidence.orders, evidence.decisions));
  }

  lemma DealMatches(config: Config, terms: Terms, d: Deal, o: Order, books: Books)
    requires BrokerFills(config, terms, d) && OrderRecorded(config, terms, d, o)
    requires d.orderId in books.orders && books.orders[d.orderId] == o && books.acceptances.count[d.orderId] == 1
    requires d.orderId in books.acceptances.approved
    requires books.acceptances.approved[d.orderId] == Some(RealOf(d.approved))
    ensures MatchesOrder(terms, books, FillOf(config, terms, d), PapersOf(config, terms, d))
  {
    hide SelectedBar, CapAt, TickAt, PriceUnits, RealOf, BrokerDecides;
    CompleteMinute(config, d.symbol, d.selectedOpen);
  }

  /** The v4 replay under the run's own execution data. */
  ghost predicate RunsUnder(ctx: Replay.Context, config: Config, terms: Terms, evidence: Evidence) {
    && ctx.execution == config.execution
    && ctx.policy == PolicyOf(terms, BooksOf(evidence.orders, evidence.decisions), evidence.papers)
  }

  /** A fill the v4 broker makes, at its price and fee, recorded with its order and decision, is admitted
      exactly when the cost rates are whole and both readings of the close slip to one price. */
  lemma BrokerFillIsAdmittedIff(config: Config, terms: Terms, d: Deal, evidence: Evidence, filled: set<string>,
                                ctx: Replay.Context)
    requires BrokerFills(config, terms, d) && Recorded(config, terms, d, evidence)
    requires OrdersIdentified(evidence.orders) && RunsUnder(ctx, config, terms, evidence)
    requires d.orderId !in filled
    ensures Refinement.Supported(FillOf(config, terms, d), filled, ctx)
      <==> WholeCosts(terms) && ReadsAlike(config, terms, d)
  {
    hide AmountsOf, CostsVerified, ReadsAlike, MatchesOrder, CapAt, SelectedBar, RealOf, Recorded, BrokerDecides;
    var f, bar := FillOf(config, terms, d), BarOf(config, d);
    CostsVerifiedIff(config, terms, d);
    RecordsMatch(config, terms, d, evidence);
    FillIsWellFormed(config, terms, d);
    FillFitsBar(config, terms, d, ctx);
    assert Replay.FillBar(ctx, f) == Some(bar);
    PapersRecorded(config, terms, d, evidence);
  }

  lemma PapersRecorded(config: Config, terms: Terms, d: Deal, evidence: Evidence)
    requires BrokerFills(config, terms, d) && Recorded(config, terms, d, evidence)
    ensures d.fillId in evidence.papers && evidence.papers[d.fillId] == PapersOf(config, terms, d)
  {
  }

  lemma FillFitsBar(config: Config, terms: Terms, d: Deal, ctx: Replay.Context)
    requires BrokerFills(config, terms, d) && ctx.execution == config.execution && ctx.policy.V4?
    ensures var f, bar := FillOf(config, terms, d), BarOf(config, d);
      Replay.FillBar(ctx, f) == Some(bar) && bar.volume > 0.0 && FitsCap(terms.rules, f, bar)
  {
    hide CapAt, SelectedBar, RealOf, PriceUnits, TickAt, ConstraintValues, BarAt, BrokerDecides;
    SignOfReal(d.approved);
    AuditsAgreeWithBroker(config, terms.rules, d.symbol, d.selectedOpen, RealOf(d.approved));
    SelectedIsBarAt(config, d.symbol, d.selectedOpen);
    assert FillCapacity(config.execution, terms.rules, d.symbol, FilledAt(config, d), RealOf(d.approved),
                        RealOf(d.approved));
  }

  lemma FillIsWellFormed(config: Config, terms: Terms, d: Deal)
    requires BrokerFills(config, terms, d)
    ensures WholeCosts(terms) ==> Replay.WellFormed(FillOf(config, terms, d))
  {
    var amounts := AmountsOf(config, terms, d);
    SignOfReal(d.approved);
    FillCosts.SignOfUnits(amounts.price, PriceUnits(config, terms, d));
    SignOfReal(amounts.price);
    if WholeCosts(terms) {
      FeeOfDeal(config, terms, d);
    }
  }

  // ---------- Whole runs ----------

  ghost predicate AllRecorded(config: Config, terms: Terms, deals: seq<Deal>, evidence: Evidence) {
    forall i :: 0 <= i < |deals| ==>
      BrokerFills(config, terms, deals[i]) && Recorded(config, terms, deals[i], evidence)
  }

  /** No fill or order twice, and times that do not run back. */
  ghost predicate InSequence(config: Config, deals: seq<Deal>)
    requires forall i :: 0 <= i < |deals| ==> SelectedBar(config, deals[i].symbol, deals[i].selectedOpen).Some?
  {
    forall i, j :: 0 <= i < j < |deals| ==>
      && deals[i].fillId != deals[j].fillId && deals[i].orderId != deals[j].orderId
      && FilledAt(config, deals[i]) <= FilledAt(config, deals[j])
  }

  function FillsOf(config: Config, terms: Terms, deals: seq<Deal>): (fills: seq<Replay.FillArtifact>)
    requires forall i :: 0 <= i < |deals| ==> BrokerFills(config, terms, deals[i])
    ensures |fills| == |deals| && forall i :: 0 <= i < |deals| ==> fills[i] == FillOf(config, terms, deals[i])
  {
    seq(|deals|, i requires 0 <= i < |deals| => FillOf(config, terms, deals[i]))
  }

  predicate Agreed(config: Config, terms: Terms, d: Deal)
    requires BrokerFills(config, terms, d)
  {
    WholeCosts(terms) && ReadsAlike(config, terms, d)
  }

  /** The fills of a v4 run are good evidence for the replay exactly when each one's readings slip alike. */
  lemma RunIsGoodEvidenceIff(config: Config, terms: Terms, deals: seq<Deal>, evidence: Evidence, ctx: Replay.Context)
    requires AllRecorded(config, terms, deals, evidence) && InSequence(config, deals)
    requires OrdersIdentified(evidence.orders) && RunsUnder(ctx, config, terms, evidence)
    ensures Refinement.GoodEvidence(FillsOf(config, terms, deals), ctx)
      <==> forall i :: 0 <= i < |deals| ==> Agreed(config, terms, deals[i])
  {
    hide FillOf, Recorded, Refinement.Supported, BarOf, InputDecimal, BrokerDecides, PriceUnits, TickAt, FilledAt;
    assert ctx.policy.V4?;
    var fills := FillsOf(config, terms, deals);
    forall i | 0 <= i < |deals|
      ensures Refinement.Supported(fills[i], Refinement.OrderIdsOf(fills[..i]), ctx)
        <==> Agreed(config, terms, deals[i])
    {
      OrderIsNew(config, terms, deals, i);
      BrokerFillIsAdmittedIff(config, terms, deals[i], evidence, Refinement.OrderIdsOf(fills[..i]), ctx);
    }
    forall i | 0 <= i < |deals|
      ensures fills[i].fillId == deals[i].fillId && fills[i].at == FilledAt(config, deals[i])
    {
      FillNamesDeal(config, terms, deals[i]);
    }
  }

  lemma FillNamesDeal(config: Config, terms: Terms, d: Deal)
    requires BrokerFills(config, terms, d)
    ensures FillOf(config, terms, d).fillId == d.fillId && FillOf(config, terms, d).orderId == d.orderId
    ensures FillOf(config, terms, d).at == FilledAt(config, d)
  {
  }

  lemma OrderIsNew(config: Config, terms: Terms, deals: seq<Deal>, k: nat)
    requires k < |deals| && forall i :: 0 <= i < |deals| ==> BrokerFills(config, terms, deals[i])
    requires forall i, j :: 0 <= i < j < |deals| ==> deals[i].orderId != deals[j].orderId
    ensures deals[k].orderId !in Refinement.OrderIdsOf(FillsOf(config, terms, deals)[..k])
  {
    var earlier := FillsOf(config, terms, deals)[..k];
    forall f | f in earlier ensures f.orderId != deals[k].orderId {
      var i :| 0 <= i < k && earlier[i] == f;
      FillNamesDeal(config, terms, deals[i]);
    }
  }

  /** Under v4, with whole cost rates and readings that slip alike, the replay of a surviving history whose events are
      the broker's fills accepts exactly when every sell was covered, up to dust. */
  lemma V4ReplayRefinesLedger(capital: real, steps: seq<Runs.Step>, env: Runs.Setting, deals: seq<Deal>,
                              config: Config, terms: Terms, evidence: Evidence, ctx: Replay.Context)
    requires capital != 0.0 && ctx.ledger == env.tol
    requires Runs.LegalRun(Ledger.OpeningBook(capital), steps, env) && Refinement.NoRenames(steps)
    requires AllRecorded(config, terms, deals, evidence) && InSequence(config, deals)
    requires forall i :: 0 <= i < |deals| ==> Agreed(config, terms, deals[i])
    requires OrdersIdentified(evidence.orders) && RunsUnder(ctx, config, terms, evidence)
    requires var b := Runs.Play(Ledger.OpeningBook(capital), steps, env);
      Refinement.ProjectAll(b.events) == FillsOf(config, terms, deals) && ctx.trades == b.trades
    ensures var b := Runs.Play(Ledger.OpeningBook(capital), steps, env);
      var r := Replay.ReplayAll(FillsOf(config, terms, deals), Refinement.MetricsOf(b, capital), capital, ctx);
      && (r.Next? <==> Runs.CoveredRun(Ledger.OpeningBook(capital), steps, env))
      && (r.Next? ==> Refinement.Tracks(b, r.state))
  {
    RunIsGoodEvidenceIff(config, terms, deals, evidence, ctx);
    Refinement.ReplayRefinesLedger(capital, steps, env, ctx);
  }

  // ---------- Prices of an accepted replay ----------

  /** A buy at its bar's close or above it, a sell at the close or below. */
  predicate AtOrBeyondClose(f: Replay.FillArtifact, ctx: Replay.Context) {
    var bar := Replay.FillBar(ctx, f);
    bar.Some? && if f.side == "sell" then f.price <= bar.value.close else f.price >= bar.value.close
  }

  lemma UnitsInOrder(value: Fraction, units: int, close: int, x: real)
    requires FillCosts.IsUnits(value, units) && close as real == x * UNIT as real
    ensures units >= close ==> RealOf(value) >= x
    ensures units <= close ==> RealOf(value) <= x
  {
    var n, d, u := value.num as real, value.den as real, UNIT as real;
    assert n * u == units as real * d by {
      assert (value.num * UNIT) as real == n * u && (units * value.den) as real == units as real * d;
    }
    assert n == RealOf(value) * d;
    CancelPositive(RealOf(value) * u, units as real, d);
    assert RealOf(value) * u == units as real by {
      assert (RealOf(value) * u) * d == (RealOf(value) * d) * u;
    }
    ScaledOrder(RealOf(value), x, u);
  }

  lemma CancelPositive(a: real, b: real, d: real)
    requires d > 0.0
    ensures a * d == b * d ==> a == b
  {
    if a * d == b * d {
      assert (a - b) * d == 0.0;
    }
  }

  lemma ScaledOrder(a: real, b: real, u: real)
    requires u > 0.0
    ensures a * u >= b * u ==> a >= b
    ensures a * u <= b * u ==> a <= b
  {
    if a < b {
      assert (b - a) * u > 0.0;
    } else if a > b {
      assert (a - b) * u > 0.0;
    }
  }

  lemma VerifiedIsAdverse(terms: Terms, f: Replay.FillArtifact, amounts: Amounts, bar: Bar)
    requires CostsVerified(terms, f, amounts, bar) && ReadTwice(f, amounts)
    ensures if f.side == "sell" then f.price <= bar.close else f.price >= bar.close
  {
    var tick := TickOf(terms, ConstraintValues(terms.rules, f.symbol, f.at).value.tick);
    var record := RecordOf(SideOf(f.side), amounts);
    var close := InputDecimal(bar.close).value;
    var feeBps: nat, slippageBps: nat := terms.feeBps.Floor, terms.slippageBps.Floor;
    var price, fee := FillCosts.AcceptedFillIsAdverse(record, close, tick, feeBps, slippageBps);
    UnitsInOrder(amounts.price, price, close, bar.close);
  }

  lemma AdmittedIsAdverse(st: Replay.State, f: Replay.FillArtifact, ctx: Replay.Context, terms: Terms, books: Books,
                          papers: map<string, Papers>)
    requires ctx.policy == PolicyOf(terms, books, papers) && Replay.Admit(st, f, ctx).Next?
    ensures AtOrBeyondClose(f, ctx)
  {
    var bar := Replay.FillBar(ctx, f).value;
    assert Binding(terms, books, papers)(f, bar);
    VerifiedIsAdverse(terms, f, papers[f.fillId].amounts.value, bar);
  }

  /** In every replay accepted under v4 no fill is better than the close of its bar. */
  lemma {:induction false} AcceptedFillsAreAdverse(st: Replay.State, fills: seq<Replay.FillArtifact>,
                                                   ctx: Replay.Context, terms: Terms, books: Books,
                                                   papers: map<string, Papers>)
    requires ctx.policy == PolicyOf(terms, books, papers) && Replay.ReplayFrom(st, fills, ctx).Next?
    ensures forall i :: 0 <= i < |fills| ==> AtOrBeyondClose(fills[i], ctx)
    decreases |fills|
  {
    if fills != [] {
      ReplayKeepsOrders(st, fills[0], ctx);
      AdmittedIsAdverse(st, fills[0], ctx, terms, books, papers);
      AcceptedFillsAreAdverse(Replay.ReplayOne(st, fills[0], ctx).state, fills[1..], ctx, terms, books, papers);
      assert forall i :: 1 <= i < |fills| ==> fills[i] == fills[1..][i - 1];
    }
  }

  // ---------- What an accepted fill is bound to ----------

  /** A fill and an order agree: the fill takes no more than was requested, and its minute opens after the
      order's signal. */
  predicate OfOrder(f: Replay.FillArtifact, p: Papers, o: Order, terms: Terms) {
    && o.orderId == f.orderId && o.intentId == f.orderId && p.intentId == f.orderId && f.orderId != ""
    && o.symbol == f.symbol && o.side == f.side && o.quantity.Some? && f.quantity <= o.quantity.value
    && o.signalAt.at.Some? && p.orderAt == o.signalAt.at
    && o.signalAt.at.value < f.at - 60_000 * NS_PER_MS + NS_PER_MS
    && o.executionEventAt == terms.canonical(f.at) && p.costVersion == terms.costVersion
  }

  lemma AdmittedIsBound(st: Replay.State, f: Replay.FillArtifact, ctx: Replay.Context, terms: Terms,
                        evidence: Evidence)
    requires ctx.policy == PolicyOf(terms, BooksOf(evidence.orders, evidence.decisions), evidence.papers)
    requires Replay.Admit(st, f, ctx).Next?
    ensures f.fillId in evidence.papers
    ensures MatchesOrder(terms, BooksOf(evidence.orders, evidence.decisions), f, evidence.papers[f.fillId])
  {
    var bar := Replay.FillBar(ctx, f).value;
    assert Binding(terms, BooksOf(evidence.orders, evidence.decisions), evidence.papers)(f, bar);
  }

  /** Everything in the trace that an accepted fill answers to. */
  ghost predicate Answers(f: Replay.FillArtifact, terms: Terms, evidence: Evidence) {
    && f.fillId in evidence.papers
    && (exists k :: 0 <= k < |evidence.orders|
                 && OfOrder(f, evidence.papers[f.fillId], evidence.orders[k], terms))
    && (exists i: nat :: OnlyAcceptance(evidence.decisions, i, f.orderId)
                      && evidence.decisions[i].approved == Some(f.quantity))
  }

  lemma MatchedAnswers(f: Replay.FillArtifact, terms: Terms, evidence: Evidence)
    requires OrdersIdentified(evidence.orders) && f.fillId in evidence.papers
    requires MatchesOrder(terms, BooksOf(evidence.orders, evidence.decisions), f, evidence.papers[f.fillId])
    ensures Answers(f, terms, evidence)
  {
    var k := MappedOrder(evidence.orders, f.orderId);
    assert OfOrder(f, evidence.papers[f.fillId], evidence.orders[k], terms);
    AcceptancesCounted(evidence.decisions, f.orderId);
  }

  /** In every replay accepted under v4 each fill answers to an order and to the one decision that accepted
      just its quantity. */
  lemma {:induction false} AcceptedFillsAnswer(st: Replay.State, fills: seq<Replay.FillArtifact>,
                                               ctx: Replay.Context, terms: Terms, evidence: Evidence)
    requires ctx.policy == PolicyOf(terms, BooksOf(evidence.orders, evidence.decisions), evidence.papers)
    requires OrdersIdentified(evidence.orders) && Replay.ReplayFrom(st, fills, ctx).Next?
    ensures forall i :: 0 <= i < |fills| ==> Answers(fills[i], terms, evidence)
    decreases |fills|
  {
    hide Answers, MatchesOrder;
    if fills != [] {
      ReplayKeepsOrders(st, fills[0], ctx);
      AdmittedIsBound(st, fills[0], ctx, terms, evidence);
      MatchedAnswers(fills[0], terms, evidence);
      AcceptedFillsAnswer(Replay.ReplayOne(st, fills[0], ctx).state, fills[1..], ctx, terms, evidence);
      assert forall i :: 1 <= i < |fills| ==> fills[i] == fills[1..][i - 1];
    }
  }

  // ---------- A broker fill that is refused ----------

  const CLOSE := 100.37
  const CLOSE_BITS := 7_062_910_853_112_136
  const CLOSE_TEXT := 100_370_000_000_000_004_547
  const REFUSED_BAR := Bar(0, CLOSE, CLOSE, CLOSE, CLOSE, 100.0, 59_999)
  const REFUSED := Deal("o", "X", Orders.Buy, 1.0, Rat(1, 1), -1, 0, "f", CLOSE)
  const REFUSED_CONFIG := Config(map["X" := [REFUSED_BAR]], true, 1, Instant(120_000))

  function RefusedTerms(): Terms {
    var rules := Rules(Some((symbol: string, at: int) => Some(Constraints(1.0, 0.0, 0.0, 0.0))), map[], false);
    Terms(rules, 0.0, 5.0, "costs", (at: int) => "closing", (x: real) => if x == CLOSE then CLOSE_TEXT else 0)
  }

  lemma RefusedBarIsSelected()
    ensures SelectedBar(REFUSED_CONFIG, "X", 0) == Some(REFUSED_BAR)
  {
    assert OpensFrom([REFUSED_BAR], 0)(0);
    assert FirstOpenFrom([REFUSED_BAR], 0) == 0;
    MillisOfInstant(120_000);
  }

  lemma WholeInput(n: nat)
    ensures InputDecimal(n as real) == Some(n * UNIT)
  {
    assert (n * UNIT) as real == n as real * UNIT as real;
  }

  lemma TenLotsFit(rules: Rules, symbol: string, at: int)
    requires ConstraintValues(rules, symbol, at).Some? && ConstraintValues(rules, symbol, at).value.lot == 1.0
    ensures CapAt(rules, symbol, 100.0, at).Some? && CapAt(rules, symbol, 100.0, at).value >= 1.0
  {
    hide ConstraintValues, VolumeCap.VolumeCap, Amount, InputDecimal;
    WholeInput(100);
    WholeInput(1);
    CapIsGreatestMultiple(100.0, 1.0);
    assert Lots(1, 1.0) == 1.0;
  }

  lemma RefusedLimits()
    ensures ConstraintValues(RefusedTerms().rules, "X", Instant(59_999)) == Some(Limits(1.0, None, None, None))
  {
  }

  lemma RefusedPrice()
    ensures FillCosts.BrokerPrice(CLOSE_TEXT, Orders.Buy, 5, FillCosts.NoTick) == 100_420_185_000_000_004_549
  {
    FillCosts.BrokerPriceMeaning(CLOSE_TEXT, Orders.Buy, 5, FillCosts.NoTick);
    FillCosts.SlipOf(CLOSE_TEXT, 100_420_185_000_000_004_549);
  }

  lemma RefusedIsFilled()
    ensures BrokerFills(REFUSED_CONFIG, RefusedTerms(), REFUSED) && WholeCosts(RefusedTerms())
  {
    hide FillCosts.BrokerPrice, CapAt, ConstraintValues, SelectedBar;
    RefusedBarIsSelected();
    RefusedLimits();
    TenLotsFit(RefusedTerms().rules, "X", Instant(59_999));
    RefusedPrice();
    assert RealOf(REFUSED.approved) == 1.0;
    assert TickAt(REFUSED_CONFIG, RefusedTerms(), REFUSED) == FillCosts.NoTick;
    assert DecimalText.TrimSpace("X") == "X";
  }

  /** The close 100.37 at 5 basis points: everything is recorded as the broker did it, and the replay does
      not admit the fill. */
  lemma BrokerFillIsRefused() returns (evidence: Evidence, ctx: Replay.Context)
    ensures FillCosts.BinaryReading(CLOSE, CLOSE_BITS, RefusedTerms().rendered(CLOSE))
    ensures BrokerFills(REFUSED_CONFIG, RefusedTerms(), REFUSED) && WholeCosts(RefusedTerms())
    ensures Recorded(REFUSED_CONFIG, RefusedTerms(), REFUSED, evidence) && OrdersIdentified(evidence.orders)
    ensures RunsUnder(ctx, REFUSED_CONFIG, RefusedTerms(), evidence)
    ensures !Refinement.Supported(FillOf(REFUSED_CONFIG, RefusedTerms(), REFUSED), {}, ctx)
  {
    hide BrokerFills, FillOf, Refinement.Supported, AcceptancesOf, OrderMap, Recorded, OrdersIdentified, WholeCosts;
    hide RefusedTerms, ReadsAlike, FillCosts.BinaryReading;
    var terms := RefusedTerms();
    RefusedIsFilled();
    evidence := RefusedIsRecorded();
    ctx := Replay.Context(PolicyOf(terms, BooksOf(evidence.orders, evidence.decisions), evidence.papers),
                          REFUSED_CONFIG.execution, [], Ledger.Tolerances(0.0, 0.0), 0.0);
    RefusedReadsApart();
    BrokerFillIsAdmittedIff(REFUSED_CONFIG, terms, REFUSED, evidence, {}, ctx);
    CloseIsRendered();
  }

  lemma CloseIsRendered()
    ensures FillCosts.BinaryReading(CLOSE, CLOSE_BITS, RefusedTerms().rendered(CLOSE))
  {
    FillCosts.ReadingsDiffer();
  }

  lemma RefusedIsRecorded() returns (evidence: Evidence)
    requires BrokerFills(REFUSED_CONFIG, RefusedTerms(), REFUSED)
    ensures Recorded(REFUSED_CONFIG, RefusedTerms(), REFUSED, evidence) && OrdersIdentified(evidence.orders)
  {
    hide BrokerFills, PapersOf, BrokerDecides, TickAt, SelectedBar;
    RefusedBarIsSelected();
    var terms := RefusedTerms();
    var order := Order("o", "o", "X", "buy", Some(1.0), Stamp("signal", Some(-1)), None, "closing");
    var decision := BrokerDecision("broker", "filled", "o", Some(1.0));
    evidence := Evidence([order], [decision], [], map["f" := PapersOf(REFUSED_CONFIG, terms, REFUSED)],
                         Replay.Metrics(0.0, 0.0, 0.0, 0.0, 0, 0));
    assert OrderRecorded(REFUSED_CONFIG, terms, REFUSED, evidence.orders[0]);
    assert OnlyAcceptance(evidence.decisions, 0, "o");
  }

  lemma RefusedReadsApart()
    requires BrokerFills(REFUSED_CONFIG, RefusedTerms(), REFUSED)
    ensures !ReadsAlike(REFUSED_CONFIG, RefusedTerms(), REFUSED)
  {
    hide FillCosts.SameSlip, ConstraintValues, BrokerFills, SelectedBar;
    RefusedBarIsSelected();
    RefusedLimits();
    FillCosts.ReadingsDiffer();
    assert InputDecimal(CLOSE).Some? ==> InputDecimal(CLOSE).value == 100_370_000_000_000_000_000;
  }
}
