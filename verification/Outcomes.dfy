/** What an outcome may spend and sell, and what it leaves in the books, told from its fills: when the check
    lets it through, and field by field what each committed fill adds to cash, turnover, events and trades. */
module Outcomes {
  import opened Atomicity
  import opened Ledger
  import opened Orders
  import opened RealMath

  // ---------- Sums over fills ----------

  /** The cash a fill brings in, or takes out when negative. */
  function Paid(a: Action): real {
    if a.intent.side.Buy? then -(a.fill.quantity * a.fill.price + a.fill.fee)
    else a.fill.quantity * a.fill.price - a.fill.fee
  }

  function CashMoved(actions: seq<Action>): real {
    if actions == [] then 0.0 else Paid(actions[0]) + CashMoved(actions[1..])
  }

  function TradedFor(a: Action): real {
    a.fill.quantity * a.fill.price
  }

  function TradedValue(actions: seq<Action>): real {
    if actions == [] then 0.0 else TradedFor(actions[0]) + TradedValue(actions[1..])
  }

  /** What the fills of a symbol add to what is held of it, nothing being deleted. */
  function Added(actions: seq<Action>, symbol: string): real {
    if actions == [] then 0.0
    else
      (if actions[0].fill.symbol != symbol then 0.0
       else if actions[0].intent.side.Buy? then actions[0].fill.quantity as real
       else -(actions[0].fill.quantity as real))
      + Added(actions[1..], symbol)
  }

  function SellCount(actions: seq<Action>): nat {
    if actions == [] then 0 else (if actions[0].intent.side.Sell? then 1 else 0) + SellCount(actions[1..])
  }

  lemma PrefixTail(actions: seq<Action>, i: nat)
    requires 0 < i <= |actions|
    ensures actions[..i] != [] && actions[..i][0] == actions[0] && actions[..i][1..] == actions[1..][..i - 1]
  {
  }

  // ---------- What the check lets through ----------

  /** Fill j is affordable: a buy does not overdraw cash beyond the tolerance, and a sell does not exceed what
      the fills before it leave of the symbol. */
  predicate Affords(cash: real, sizes: map<string, real>, actions: seq<Action>, j: nat, tol: Tolerances)
    requires j < |actions|
  {
    var symbol := actions[j].fill.symbol;
    if actions[j].intent.side.Buy? then cash + CashMoved(actions[..j + 1]) + tol.cash >= 0.0
    else actions[j].fill.quantity <= Get(sizes, symbol) + Added(actions[..j], symbol) + tol.size
  }

  ghost predicate AffordsAll(cash: real, sizes: map<string, real>, actions: seq<Action>, tol: Tolerances) {
    forall j :: 0 <= j < |actions| ==> Affords(cash, sizes, actions, j, tol)
  }

  lemma OneFill(cash: real, sizes: map<string, real>, a: Action, tol: Tolerances)
    ensures var next := DryFill(Dry(cash, sizes, {}, []), a.intent, a.fill, tol);
      && (next.Ready? <==> if a.intent.side.Buy? then cash + Paid(a) + tol.cash >= 0.0
                           else a.fill.quantity <= Get(sizes, a.fill.symbol) + tol.size)
      && (next.Ready? ==>
            && next.dry.cash == cash + Paid(a)
            && forall s :: Get(next.dry.sizes, s) == Get(sizes, s) + Added([a], s))
  {
    assert [a][1..] == [];
  }

  lemma FirstAffords(cash: real, sizes: map<string, real>, actions: seq<Action>, tol: Tolerances)
    requires actions != []
    ensures Affords(cash, sizes, actions, 0, tol)
      <==> DryFill(Dry(cash, sizes, {}, []), actions[0].intent, actions[0].fill, tol).Ready?
  {
    hide DryFill;
    OneFill(cash, sizes, actions[0], tol);
    PrefixTail(actions, 1);
    assert actions[..0] == [] && actions[1..][..0] == [];
    assert CashMoved(actions[..0 + 1]) == Paid(actions[0]);
    assert Added(actions[..0], actions[0].fill.symbol) == 0.0;
  }

  lemma AddedSplits(a: Action, rest: seq<Action>, s: string)
    ensures Added([a] + rest, s) == Added([a], s) + Added(rest, s)
  {
    assert ([a] + rest)[1..] == rest && [a][1..] == [];
  }

  lemma LaterAffords(cash: real, sizes: map<string, real>, actions: seq<Action>, j: nat, next: Dry, tol: Tolerances)
    requires j + 1 < |actions|
    requires next.cash == cash + Paid(actions[0])
    requires forall s :: Get(next.sizes, s) == Get(sizes, s) + Added([actions[0]], s)
    ensures Affords(cash, sizes, actions, j + 1, tol) <==> Affords(next.cash, next.sizes, actions[1..], j, tol)
  {
    hide Get, Paid;
    PrefixTail(actions, j + 2);
    PrefixTail(actions, j + 1);
    assert actions[..j + 1] == [actions[0]] + actions[1..][..j];
    AddedSplits(actions[0], actions[1..][..j], actions[j + 1].fill.symbol);
  }

  /** The check funds some fills exactly when each is affordable after those before it, and then ends with
      their cash and sizes. */
  lemma {:induction false} FundIff(cash: real, sizes: map<string, real>, actions: seq<Action>, tol: Tolerances)
    ensures Fund(cash, sizes, actions, tol).Enough? <==> AffordsAll(cash, sizes, actions, tol)
    ensures Fund(cash, sizes, actions, tol).Enough? ==>
      var funds := Fund(cash, sizes, actions, tol);
      funds.cash == cash + CashMoved(actions) && forall s :: Get(funds.sizes, s) == Get(sizes, s) + Added(actions, s)
    decreases |actions|
  {
    hide DryFill, Affords, Get, Paid;
    if actions != [] {
      var a, rest := actions[0], actions[1..];
      var step := DryFill(Dry(cash, sizes, {}, []), a.intent, a.fill, tol);
      FirstAffords(cash, sizes, actions, tol);
      if step.Ready? {
        OneFill(cash, sizes, a, tol);
        FundIff(step.dry.cash, step.dry.sizes, rest, tol);
        forall j | 0 <= j < |rest|
          ensures Affords(cash, sizes, actions, j + 1, tol) <==> Affords(step.dry.cash, step.dry.sizes, rest, j, tol)
        {
          LaterAffords(cash, sizes, actions, j, step.dry, tol);
        }
        AllOrFirst(cash, sizes, actions, step.dry, tol);
        assert actions == [a] + rest;
        forall s ensures Added(actions, s) == Added([a], s) + Added(rest, s) {
          AddedSplits(a, rest, s);
        }
      }
    }
  }

  lemma AllOrFirst(cash: real, sizes: map<string, real>, actions: seq<Action>, next: Dry, tol: Tolerances)
    requires actions != [] && Affords(cash, sizes, actions, 0, tol)
    requires forall j :: 0 <= j < |actions| - 1 ==>
      (Affords(cash, sizes, actions, j + 1, tol) <==> Affords(next.cash, next.sizes, actions[1..], j, tol))
    ensures AffordsAll(cash, sizes, actions, tol) <==> AffordsAll(next.cash, next.sizes, actions[1..], tol)
  {
    hide Affords;
    if AffordsAll(next.cash, next.sizes, actions[1..], tol) {
      forall j | 0 <= j < |actions| ensures Affords(cash, sizes, actions, j, tol) {
        if j > 0 {
          assert Affords(next.cash, next.sizes, actions[1..], j - 1, tol);
        }
      }
    }
    if AffordsAll(cash, sizes, actions, tol) {
      forall j | 0 <= j < |actions| - 1 ensures Affords(next.cash, next.sizes, actions[1..], j, tol) {
        assert Affords(cash, sizes, actions, j + 1, tol);
      }
    }
  }

  /** An outcome is acceptable exactly when it is complete, resolves every approved intent once, and each of
      its fills is affordable after those before it. */
  lemma AcceptableIff(b: Book, approved: seq<Intent>, outcome: Outcome, tol: Tolerances)
    ensures var intents := IntentMap(approved);
      Acceptable(b, approved, outcome, tol) <==>
        && outcome.complete && ResolvesExactlyOnce(outcome, intents)
        && AffordsAll(b.cash, SizesOf(b.positions), ActionsOf(intents, outcome.accepted), tol)
  {
    FundIff(b.cash, SizesOf(b.positions), ActionsOf(IntentMap(approved), outcome.accepted), tol);
  }

  // ---------- What the commit writes ----------

  /** The event of a fill: the intent's side, id and reference price, the fill's own figures, and the cash the
      ledger has after it. */
  predicate EventCarries(e: Event, a: Action, cash: real) {
    && e.side == a.intent.side && e.orderId == a.intent.id && e.reference == a.intent.reference
    && e.symbol == a.fill.symbol && e.quantity == a.fill.quantity && e.price == a.fill.price && e.fee == a.fill.fee
    && e.fillId == a.fill.id && e.at == a.fill.at && e.cashAfter == cash
  }

  /** The trade a sell closes ends with the fill. */
  predicate TradeEnds(t: Trade, a: Action) {
    t.symbol == a.fill.symbol && t.exitAt == a.fill.at && t.exitPrice == a.fill.price && t.size == a.fill.quantity
  }

  /** The books have one more event for each fill and one more trade for each sell, and what was there before
      is still there. */
  ghost predicate Written(b: Book, actions: seq<Action>, after: Book) {
    && after.cash == b.cash + CashMoved(actions) && after.turnover == b.turnover + TradedValue(actions)
    && |after.events| == |b.events| + |actions| && b.events <= after.events
    && |after.trades| == |b.trades| + SellCount(actions) && b.trades <= after.trades
    && (forall i :: 0 <= i < |actions| ==>
          EventCarries(after.events[|b.events| + i], actions[i], b.cash + CashMoved(actions[..i + 1])))
    && (forall i :: 0 <= i < |actions| && actions[i].intent.side.Sell? ==> TradeWritten(b, actions, after, i))
  }

  ghost predicate TradeWritten(b: Book, actions: seq<Action>, after: Book, i: nat)
    requires i < |actions|
  {
    var k := |b.trades| + SellCount(actions[..i]);
    k < |after.trades| && TradeEnds(after.trades[k], actions[i])
  }

  lemma OneWritten(b: Book, a: Action, dust: NonNegative)
    requires CommitOne(b, a, dust).Done?
    ensures var next := CommitOne(b, a, dust).book;
      && next.cash == b.cash + Paid(a) && next.turnover == b.turnover + TradedFor(a)
      && (exists e :: next.events == b.events + [e] && EventCarries(e, a, b.cash + Paid(a)))
      && (a.intent.side.Buy? ==> next.trades == b.trades)
      && (a.intent.side.Sell? ==> exists t :: next.trades == b.trades + [t] && TradeEnds(t, a))
  {
    var next := CommitOne(b, a, dust).book;
    assert next.events == b.events + [next.events[|b.events|]];
    if a.intent.side.Sell? {
      assert next.trades == b.trades + [next.trades[|b.trades|]];
    }
  }

  /** Every committed outcome writes its fills, each with the cash after it. */
  lemma {:induction false} CommitWrites(b: Book, actions: seq<Action>, dust: NonNegative)
    requires Commit(b, actions, dust).Done?
    ensures Written(b, actions, Commit(b, actions, dust).book)
    decreases |actions|
  {
    hide CommitOne, EventCarries, TradeEnds, Paid, TradedFor;
    if actions != [] {
      var a, next := actions[0], CommitOne(b, actions[0], dust).book;
      OneWritten(b, a, dust);
      CommitWrites(next, actions[1..], dust);
      WrittenMore(b, actions, next, Commit(b, actions, dust).book);
    }
  }

  lemma WrittenMore(b: Book, actions: seq<Action>, next: Book, after: Book)
    requires actions != [] && Written(next, actions[1..], after)
    requires next.cash == b.cash + Paid(actions[0]) && next.turnover == b.turnover + TradedFor(actions[0])
    requires exists e :: next.events == b.events + [e] && EventCarries(e, actions[0], b.cash + Paid(actions[0]))
    requires actions[0].intent.side.Buy? ==> next.trades == b.trades
    requires actions[0].intent.side.Sell? ==> exists t :: next.trades == b.trades + [t] && TradeEnds(t, actions[0])
    ensures Written(b, actions, after)
  {
    hide EventCarries, TradeEnds, Paid, TradedFor;
    forall i | 0 <= i < |actions|
      ensures EventCarries(after.events[|b.events| + i], actions[i], b.cash + CashMoved(actions[..i + 1]))
    {
      PrefixTail(actions, i + 1);
      if i > 0 {
        assert EventCarries(after.events[|next.events| + (i - 1)], actions[1..][i - 1],
                            next.cash + CashMoved(actions[1..][..i]));
      }
    }
    forall i | 0 <= i < |actions| && actions[i].intent.side.Sell? ensures TradeWritten(b, actions, after, i) {
      if i > 0 {
        PrefixTail(actions, i);
        assert TradeWritten(next, actions[1..], after, i - 1);
      } else {
        assert actions[..0] == [];
      }
    }
  }

  /** A recorded outcome's events carry its fills, field by field, and the last one the ledger's cash. */
  lemma RecordWrites(b: Book, approved: seq<Intent>, outcome: Outcome, tol: Tolerances)
    requires Record(b, approved, outcome, tol).0.Recorded?
    ensures Written(b, ActionsOf(IntentMap(approved), outcome.accepted), Record(b, approved, outcome, tol).1)
  {
    RecordIsAtomic(b, approved, outcome, tol);
    CommitWrites(b, ActionsOf(IntentMap(approved), outcome.accepted), tol.size);
  }

  /** Where the program stops, the fills before are written, and of the one that finds nothing only cash and
      turnover. */
  lemma {:induction false} StoppedWrites(b: Book, actions: seq<Action>, dust: NonNegative) returns (j: nat)
    requires Commit(b, actions, dust).NilPosition?
    ensures var after := Commit(b, actions, dust).book;
      && j < |actions| && actions[j].intent.side.Sell?
      && after.cash == b.cash + CashMoved(actions[..j + 1])
      && after.turnover == b.turnover + TradedValue(actions[..j + 1])
      && |after.events| == |b.events| + j && |after.trades| == |b.trades| + SellCount(actions[..j])
    decreases |actions|
  {
    var a := actions[0];
    if CommitOne(b, a, dust).NilPosition? {
      j := 0;
      PrefixTail(actions, 1);
      assert actions[1..][..0] == [] && actions[..0] == [];
    } else {
      OneWritten(b, a, dust);
      var k := StoppedWrites(CommitOne(b, a, dust).book, actions[1..], dust);
      j := k + 1;
      PrefixTail(actions, j + 1);
      PrefixTail(actions, j);
    }
  }
}
