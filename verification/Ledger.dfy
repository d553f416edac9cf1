/** The in-memory ledger of a backtest: a broker outcome is first checked against scratch balances
    and only then committed to cash, positions, trades and events. Prices, quantities and cash are
    exact reals; the program's float tolerances are parameters. */
module Ledger {
  import opened Orders
  import opened RealMath

  /** cash: how far a buy may overdraw; size: how far a sell may exceed the holding, and the size at
      or below which what is left of a position is deleted. */
  datatype Tolerances = Tolerances(cash: NonNegative, size: NonNegative)

  const PROGRAM_TOLERANCES := Tolerances(0.000_000_001, 0.000_000_000_001)

  datatype Intent = Intent(id: string, side: Side, reference: real)
  datatype Fill = Fill(id: string, symbol: string, quantity: Positive, price: Positive, fee: real, at: int)
  datatype AcceptedOrder = AcceptedOrder(orderId: string, fills: seq<Fill>)
  datatype Outcome = Outcome(complete: bool, accepted: seq<AcceptedOrder>, rejected: seq<string>)

  datatype Position = Position(entryPrice: Positive, size: Positive, entryFee: real, entryAt: int)
  datatype Trade = Trade(symbol: string, entryAt: int, exitAt: int, entryPrice: real, exitPrice: real,
                         size: real, pnl: real)
  datatype Event = Event(side: Side, symbol: string, quantity: real, price: real, fee: real, fillId: string,
                         orderId: string, reference: real, at: int, cashAfter: real)

  /** Everything the ledger accounts for. */
  datatype Book = Book(cash: real, positions: map<string, Position>, trades: seq<Trade>, events: seq<Event>,
                       turnover: real)

  datatype Action = Action(intent: Intent, fill: Fill)

  datatype RecordError =
    | Incomplete | Unapproved | DuplicateOutcome | InsufficientCash | InsufficientAsset
    | InvalidRejection | Unresolved

  // ---------- Phase one: the dry run ----------

  datatype Dry = Dry(cash: real, sizes: map<string, real>, seen: set<string>, actions: seq<Action>)
  datatype DryResult = Refused(error: RecordError) | Ready(dry: Dry)

  function Get(sizes: map<string, real>, symbol: string): real {
    if symbol in sizes then sizes[symbol] else 0.0
  }

  function SizesOf(positions: map<string, Position>): map<string, real> {
    map s | s in positions :: positions[s].size as real
  }

  /** A later intent with the same id replaces an earlier one. */
  function IntentMap(intents: seq<Intent>): map<string, Intent> {
    if intents == [] then map[]
    else
      var last := intents[|intents| - 1];
      IntentMap(intents[..|intents| - 1])[last.id := last]
  }

  function DryFill(d: Dry, intent: Intent, fill: Fill, tol: Tolerances): DryResult {
    var held := Get(d.sizes, fill.symbol);
    var actions := d.actions + [Action(intent, fill)];
    if intent.side.Buy? then
      var cash := d.cash - (fill.quantity * fill.price + fill.fee);
      if cash + tol.cash < 0.0 then Refused(InsufficientCash)
      else Ready(d.(cash := cash, sizes := d.sizes[fill.symbol := held + fill.quantity], actions := actions))
    else if held + tol.size < fill.quantity then Refused(InsufficientAsset)
    else
      Ready(d.(cash := d.cash + (fill.quantity * fill.price - fill.fee),
               sizes := d.sizes[fill.symbol := held - fill.quantity], actions := actions))
  }

  function DryFills(d: Dry, intent: Intent, fills: seq<Fill>, tol: Tolerances): DryResult
    decreases |fills|
  {
    if fills == [] then Ready(d)
    else
      match DryFill(d, intent, fills[0], tol)
      case Refused(error) => Refused(error)
      case Ready(next) => DryFills(next, intent, fills[1..], tol)
  }

  lemma DryFillsStep(d: Dry, intent: Intent, fills: seq<Fill>, j: nat, tol: Tolerances)
    requires j < |fills|
    ensures DryFills(d, intent, fills[j..], tol)
         == match DryFill(d, intent, fills[j], tol)
            case Refused(error) => Refused(error)
            case Ready(next) => DryFills(next, intent, fills[j + 1..], tol)
  {
    assert fills[j..][1..] == fills[j + 1..];
  }

  lemma DryFillsEnd(d: Dry, intent: Intent, fills: seq<Fill>, tol: Tolerances)
    ensures DryFills(d, intent, fills[|fills|..], tol) == Ready(d)
  {
  }

  function DryOrder(d: Dry, intents: map<string, Intent>, order: AcceptedOrder, tol: Tolerances): DryResult {
    if order.orderId !in intents then Refused(Unapproved)
    else if order.orderId in d.seen then Refused(DuplicateOutcome)
    else DryFills(d.(seen := d.seen + {order.orderId}), intents[order.orderId], order.fills, tol)
  }

  function DryOrders(d: Dry, intents: map<string, Intent>, orders: seq<AcceptedOrder>, tol: Tolerances): DryResult
    decreases |orders|
  {
    if orders == [] then Ready(d)
    else
      match DryOrder(d, intents, orders[0], tol)
      case Refused(error) => Refused(error)
      case Ready(next) => DryOrders(next, intents, orders[1..], tol)
  }

  function DryRejections(d: Dry, intents: map<string, Intent>, rejected: seq<string>): DryResult
    decreases |rejected|
  {
    if rejected == [] then Ready(d)
    else if rejected[0] !in intents || rejected[0] in d.seen then Refused(InvalidRejection)
    else DryRejections(d.(seen := d.seen + {rejected[0]}), intents, rejected[1..])
  }

  function DryStart(b: Book): Dry {
    Dry(b.cash, SizesOf(b.positions), {}, [])
  }

  function DryRun(b: Book, approved: seq<Intent>, outcome: Outcome, tol: Tolerances): DryResult {
    var intents := IntentMap(approved);
    if !outcome.complete then Refused(Incomplete)
    else
      match DryOrders(DryStart(b), intents, outcome.accepted, tol)
      case Refused(error) => Refused(error)
      case Ready(d) =>
        match DryRejections(d, intents, outcome.rejected)
        case Refused(error) => Refused(error)
        case Ready(e) => if |e.seen| != |intents| then Refused(Unresolved) else Ready(e)
  }

  // ---------- Phase two: the commit ----------

  /** NilPosition: a sell found no position; the program stops there with turnover and cash moved. */
  datatype CommitResult = Done(book: Book) | NilPosition(book: Book)

  function EventOf(a: Action, cashAfter: real): Event {
    Event(a.intent.side, a.fill.symbol, a.fill.quantity, a.fill.price, a.fill.fee, a.fill.id, a.intent.id,
          a.intent.reference, a.fill.at, cashAfter)
  }

  function Averaged(p: Position, fill: Fill): Position {
    var total := p.size + fill.quantity;
    var entryPrice := (p.entryPrice * p.size + fill.price * fill.quantity) / total;
    assert entryPrice > 0.0 by {
      QuotientIsPositive(p.entryPrice * p.size + fill.price * fill.quantity, total);
    }
    p.(entryPrice := entryPrice, size := total, entryFee := p.entryFee + fill.fee)
  }

  function CommitBuy(b: Book, a: Action): Book {
    var f := a.fill;
    var cash := b.cash - (f.quantity * f.price + f.fee);
    var position :=
      if f.symbol in b.positions then Averaged(b.positions[f.symbol], f)
      else Position(f.price, f.quantity, f.fee, f.at);
    b.(cash := cash, positions := b.positions[f.symbol := position], events := b.events + [EventOf(a, cash)],
       turnover := b.turnover + f.quantity * f.price)
  }

  /** Entry fee a sell of quantity takes out of p. */
  function ReleasedFee(p: Position, quantity: real): real {
    p.entryFee * quantity / p.size
  }

  function TradeOf(p: Position, f: Fill): Trade {
    Trade(f.symbol, p.entryAt, f.at, p.entryPrice, f.price, f.quantity,
          (f.price - p.entryPrice) * f.quantity - ReleasedFee(p, f.quantity) - f.fee)
  }

  function CommitSell(b: Book, a: Action, dust: NonNegative): Book
    requires a.fill.symbol in b.positions
  {
    var f := a.fill;
    var p := b.positions[f.symbol];
    var cash := b.cash + (f.quantity * f.price - f.fee);
    var size := p.size - f.quantity;
    var positions :=
      if size <= dust then b.positions - {f.symbol}
      else b.positions[f.symbol := p.(size := size, entryFee := p.entryFee - ReleasedFee(p, f.quantity))];
    Book(cash, positions, b.trades + [TradeOf(p, f)], b.events + [EventOf(a, cash)],
         b.turnover + f.quantity * f.price)
  }

  function CommitOne(b: Book, a: Action, dust: NonNegative): CommitResult {
    if a.intent.side.Buy? then Done(CommitBuy(b, a))
    else if a.fill.symbol !in b.positions then
      NilPosition(b.(cash := b.cash + (a.fill.quantity * a.fill.price - a.fill.fee),
                     turnover := b.turnover + a.fill.quantity * a.fill.price))
    else Done(CommitSell(b, a, dust))
  }

  function Commit(b: Book, actions: seq<Action>, dust: NonNegative): CommitResult
    decreases |actions|
  {
    if actions == [] then Done(b)
    else
      match CommitOne(b, actions[0], dust)
      case NilPosition(stopped) => NilPosition(stopped)
      case Done(next) => Commit(next, actions[1..], dust)
  }

  // ---------- The whole operation ----------

  datatype Verdict = Failed(error: RecordError) | Recorded | Panicked

  function Record(b: Book, approved: seq<Intent>, outcome: Outcome, tol: Tolerances): (Verdict, Book) {
    match DryRun(b, approved, outcome, tol)
    case Refused(error) => (Failed(error), b)
    case Ready(dry) =>
      match Commit(b, dry.actions, tol.size)
      case Done(book) => (Recorded, book)
      case NilPosition(book) => (Panicked, book)
  }

  function OpeningBook(initial: real): Book {
    Book(initial, map[], [], [], 0.0)
  }

  class MemoryLedger {
    const tol: Tolerances
    var cash: real
    var positions: map<string, Position>
    var trades: seq<Trade>
    var events: seq<Event>
    var turnover: real
    var runs: nat

    constructor (initial: real, tol: Tolerances)
      ensures this.tol == tol && CurrentBook() == OpeningBook(initial) && runs == 0
    {
      this.tol := tol;
      cash, positions, trades, events, turnover, runs := initial, map[], [], [], 0.0, 0;
    }

    ghost function CurrentBook(): Book
      reads this
    {
      Book(cash, positions, trades, events, turnover)
    }

    /** Checks an outcome on scratch balances. Nothing of the ledger is touched. */
    method Check(approved: seq<Intent>, outcome: Outcome) returns (r: DryResult)
      ensures r == DryRun(CurrentBook(), approved, outcome, tol)
    {
      if !outcome.complete {
        return Refused(Incomplete);
      }
      var intents := IndexIntents(approved);
      var d := Dry(cash, map s | s in positions :: positions[s].size as real, {}, []);
      for i := 0 to |outcome.accepted|
        invariant DryOrders(DryStart(CurrentBook()), intents, outcome.accepted, tol)
               == DryOrders(d, intents, outcome.accepted[i..], tol)
      {
        var order := outcome.accepted[i];
        assert outcome.accepted[i..][1..] == outcome.accepted[i + 1..];
        if order.orderId !in intents {
          return Refused(Unapproved);
        }
        if order.orderId in d.seen {
          return Refused(DuplicateOutcome);
        }
        var step := CheckFills(d.(seen := d.seen + {order.orderId}), intents[order.orderId], order.fills);
        if step.Refused? {
          return step;
        }
        d := step.dry;
      }
      var rejections := CheckRejections(d, intents, outcome.rejected);
      if rejections.Refused? {
        return rejections;
      }
      if |rejections.dry.seen| != |intents| {
        return Refused(Unresolved);
      }
      r := rejections;
    }

    static method IndexIntents(approved: seq<Intent>) returns (intents: map<string, Intent>)
      ensures intents == IntentMap(approved)
    {
      intents := map[];
      for i := 0 to |approved|
        invariant intents == IntentMap(approved[..i])
      {
        assert approved[..i + 1][..i] == approved[..i];
        intents := intents[approved[i].id := approved[i]];
      }
      assert approved[..|approved|] == approved;
    }

    method CheckFills(start: Dry, intent: Intent, fills: seq<Fill>) returns (r: DryResult)
      ensures r == DryFills(start, intent, fills, tol)
    {
      var d := start;
      assert fills[0..] == fills;
      hide DryFills;
      for j := 0 to |fills|
        invariant DryFills(start, intent, fills, tol) == DryFills(d, intent, fills[j..], tol)
      {
        var fill := fills[j];
        DryFillsStep(d, intent, fills, j, tol);
        var held, balance := Get(d.sizes, fill.symbol), d.cash;
        if intent.side.Buy? {
          balance := balance - (fill.quantity * fill.price + fill.fee);
          if balance + tol.cash < 0.0 {
            return Refused(InsufficientCash);
          }
          held := held + fill.quantity;
        } else {
          if held + tol.size < fill.quantity {
            return Refused(InsufficientAsset);
          }
          balance := balance + (fill.quantity * fill.price - fill.fee);
          held := held - fill.quantity;
        }
        ghost var before := d;
        d := Dry(balance, d.sizes[fill.symbol := held], d.seen, d.actions + [Action(intent, fill)]);
        assert DryFill(before, intent, fill, tol).dry.sizes == d.sizes;
        assert DryFill(before, intent, fill, tol) == Ready(d);
      }
      DryFillsEnd(d, intent, fills, tol);
      r := Ready(d);
    }

    static method CheckRejections(start: Dry, intents: map<string, Intent>, rejected: seq<string>)
      returns (r: DryResult)
      ensures r == DryRejections(start, intents, rejected)
    {
      var d := start;
      for i := 0 to |rejected|
        invariant DryRejections(start, intents, rejected) == DryRejections(d, intents, rejected[i..])
      {
        assert rejected[i..][1..] == rejected[i + 1..];
        if rejected[i] !in intents || rejected[i] in d.seen {
          return Refused(InvalidRejection);
        }
        d := d.(seen := d.seen + {rejected[i]});
      }
      r := Ready(d);
    }

    /** Records one broker outcome. Any error leaves cash, positions, trades, events and turnover as
        they were; only the run counter moves. */
    method RecordBrokerOutcome(approved: seq<Intent>, outcome: Outcome) returns (verdict: Verdict)
      modifies this
      ensures runs == old(runs) + 1
      ensures (verdict, CurrentBook()) == Record(old(CurrentBook()), approved, outcome, tol)
      ensures verdict.Failed? ==> CurrentBook() == old(CurrentBook())
    {
      runs := runs + 1;
      var checked := Check(approved, outcome);
      if checked.Refused? {
        return Failed(checked.error);
      }
      var actions := checked.dry.actions;
      for i := 0 to |actions|
        invariant runs == old(runs) + 1
        invariant Commit(old(CurrentBook()), actions, tol.size) == Commit(CurrentBook(), actions[i..], tol.size)
      {
        assert actions[i..][0] == actions[i] && actions[i..][1..] == actions[i + 1..];
        var ok := CommitAction(actions[i]);
        if !ok {
          return Panicked;
        }
      }
      verdict := Recorded;
    }

    /** One turn of the commit loop; false where the program would dereference a missing position. */
    method CommitAction(a: Action) returns (ok: bool)
      modifies this
      ensures runs == old(runs)
      ensures CommitOne(old(CurrentBook()), a, tol.size)
           == if ok then Done(CurrentBook()) else NilPosition(CurrentBook())
    {
      var fill := a.fill;
      turnover := turnover + fill.quantity * fill.price;
      if a.intent.side.Buy? {
        cash := cash - (fill.quantity * fill.price + fill.fee);
        if fill.symbol in positions {
          positions := positions[fill.symbol := Averaged(positions[fill.symbol], fill)];
        } else {
          positions := positions[fill.symbol := Position(fill.price, fill.quantity, fill.fee, fill.at)];
        }
      } else {
        cash := cash + (fill.quantity * fill.price - fill.fee);
        if fill.symbol !in positions {
          return false;
        }
        var p := positions[fill.symbol];
        var entryFee := ReleasedFee(p, fill.quantity);
        var pnl := (fill.price - p.entryPrice) * fill.quantity - entryFee - fill.fee;
        var trade := Trade(fill.symbol, p.entryAt, fill.at, p.entryPrice, fill.price, fill.quantity, pnl);
        assert trade == TradeOf(p, fill);
        trades := trades + [trade];
        if p.size - fill.quantity <= tol.size {
          positions := positions - {fill.symbol};
        } else {
          positions := positions[fill.symbol := p.(size := p.size - fill.quantity,
                                                   entryFee := p.entryFee - entryFee)];
        }
      }
      events := events + [EventOf(a, cash)];
      assert CommitOne(old(CurrentBook()), a, tol.size).book.positions == positions;
      assert CommitOne(old(CurrentBook()), a, tol.size) == Done(CurrentBook());
      ok := true;
    }
  }
}
