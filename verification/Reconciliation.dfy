/** The ledger's own audit: cash and per-asset quantities are rebuilt from the event log alone and
    compared with the live balances. Every legal history passes it. */
module Reconciliation {
  import opened RealMath
  import opened FiniteSums
  import opened Ledger
  import opened Atomicity
  import opened Renames
  import opened Runs

  /** How far rebuilt cash and quantities may be from the live ones. */
  datatype Slack = Slack(cash: NonNegative, quantity: NonNegative)

  const PROGRAM_SLACK := Slack(0.000_000_01, 0.000_000_000_1)

  function CashEffect(e: Event): real {
    if e.side.Buy? then -(e.quantity * e.price + e.fee) else e.quantity * e.price - e.fee
  }

  function QuantityEffect(e: Event): real {
    if e.side.Buy? then e.quantity else -e.quantity
  }

  function RebuiltCash(start: real, events: seq<Event>): real {
    if events == [] then start
    else RebuiltCash(start, events[..|events| - 1]) + CashEffect(events[|events| - 1])
  }

  function RebuiltQuantity(events: seq<Event>, ids: Identities, asset: string): real {
    if events == [] then 0.0
    else
      var e := events[|events| - 1];
      RebuiltQuantity(events[..|events| - 1], ids, asset)
      + if AssetOf(ids, e.symbol) == asset then QuantityEffect(e) else 0.0
  }

  predicate ValidEvent(e: Event) {
    e.quantity > 0.0 && e.price > 0.0 && e.fee >= 0.0
  }

  function LoggedAssets(events: seq<Event>, ids: Identities): set<string> {
    set e | e in events :: AssetOf(ids, e.symbol)
  }

  /** What the audit accepts. */
  ghost predicate Reconciles(start: real, events: seq<Event>, cash: real, positions: map<string, Position>,
                             ids: Identities, slack: Slack)
  {
    && (forall e :: e in events ==> ValidEvent(e))
    && Within(RebuiltCash(start, events), cash, slack.cash)
    && forall asset :: asset in LoggedAssets(events, ids) ==>
         Within(RebuiltQuantity(events, ids, asset), Held(positions, ids, asset), slack.quantity)
  }

  /** The event pass: cash and a quantity per asset, or false at the first invalid event. */
  method Rebuild(start: real, events: seq<Event>, ids: Identities)
    returns (ok: bool, cash: real, quantities: map<string, real>)
    ensures ok <==> forall e :: e in events ==> ValidEvent(e)
    ensures ok ==> cash == RebuiltCash(start, events)
    ensures ok ==> quantities.Keys == LoggedAssets(events, ids)
    ensures ok ==> forall asset :: asset in quantities ==> quantities[asset] == RebuiltQuantity(events, ids, asset)
  {
    hide RebuiltCash, RebuiltQuantity;
    ok, cash, quantities := true, start, map[];
    NothingRebuilt(start, ids);
    assert events[..0] == [];
    for i := 0 to |events|
      invariant forall e :: e in events[..i] ==> ValidEvent(e)
      invariant cash == RebuiltCash(start, events[..i])
      invariant quantities.Keys == LoggedAssets(events[..i], ids)
      invariant forall asset :: Get(quantities, asset) == RebuiltQuantity(events[..i], ids, asset)
    {
      var e := events[i];
      RebuildStep(start, events, i, ids);
      if e.quantity <= 0.0 || e.price <= 0.0 || e.fee < 0.0 {
        assert e in events && !ValidEvent(e);
        return false, cash, quantities;
      }
      var asset := AssetOf(ids, e.symbol);
      var notional := e.quantity * e.price;
      var change := e.quantity;
      if e.side.Buy? {
        assert CashEffect(e) == -(notional + e.fee);
        cash := cash - (notional + e.fee);
      } else {
        assert CashEffect(e) == notional - e.fee;
        cash := cash + (notional - e.fee);
        change := -e.quantity;
      }
      quantities := quantities[asset := Get(quantities, asset) + change];
    }
    assert events[..|events|] == events;
  }

  lemma NothingRebuilt(start: real, ids: Identities)
    ensures RebuiltCash(start, []) == start && forall asset :: RebuiltQuantity([], ids, asset) == 0.0
  {
  }

  lemma RebuildStep(start: real, events: seq<Event>, i: nat, ids: Identities)
    requires i < |events|
    ensures RebuiltCash(start, events[..i + 1]) == RebuiltCash(start, events[..i]) + CashEffect(events[i])
    ensures LoggedAssets(events[..i + 1], ids) == LoggedAssets(events[..i], ids) + {AssetOf(ids, events[i].symbol)}
    ensures forall asset {:trigger RebuiltQuantity(events[..i + 1], ids, asset)} ::
      RebuiltQuantity(events[..i + 1], ids, asset)
      == RebuiltQuantity(events[..i], ids, asset)
         + if AssetOf(ids, events[i].symbol) == asset then QuantityEffect(events[i]) else 0.0
    ensures forall e :: e in events[..i + 1] <==> e in events[..i] || e == events[i]
  {
    assert events[..i + 1] == events[..i] + [events[i]];
    assert events[..i + 1][..i] == events[..i];
  }

  /** Adds up the positions of one asset, in whatever order they come. */
  method HeldQuantity(positions: map<string, Position>, ids: Identities, asset: string) returns (held: real)
    ensures held == Held(positions, ids, asset)
  {
    held := 0.0;
    var left := positions;
    while left != map[]
      invariant held + SumOver(left, HeldIn(ids, asset)) == Held(positions, ids, asset)
      decreases |left|
    {
      var symbol :| symbol in left;
      SumTakeOut(left, HeldIn(ids, asset), symbol);
      if AssetOf(ids, symbol) == asset {
        held := held + left[symbol].size;
      }
      left := left - {symbol};
    }
  }

  method ReconcileLedger(start: real, ledger: MemoryLedger, ids: Identities, slack: Slack) returns (ok: bool)
    ensures ok <==> Reconciles(start, ledger.events, ledger.cash, ledger.positions, ids, slack)
  {
    var valid, cash, quantities := Rebuild(start, ledger.events, ids);
    if !valid || !Within(cash, ledger.cash, slack.cash) {
      return false;
    }
    var left := quantities.Keys;
    while left != {}
      invariant left <= quantities.Keys
      invariant forall asset :: asset in quantities && asset !in left ==>
        Within(quantities[asset], Held(ledger.positions, ids, asset), slack.quantity)
      decreases |left|
    {
      var asset :| asset in left;
      var held := HeldQuantity(ledger.positions, ids, asset);
      if !Within(quantities[asset], held, slack.quantity) {
        return false;
      }
      left := left - {asset};
    }
    ok := true;
  }

  // ---------- Every legal history reconciles ----------

  function SellCount(events: seq<Event>, ids: Identities, asset: string): nat {
    if events == [] then 0
    else
      var e := events[|events| - 1];
      SellCount(events[..|events| - 1], ids, asset) + if e.side.Sell? && AssetOf(ids, e.symbol) == asset then 1 else 0
  }

  /** Dust per sell of an asset. */
  function Leak(events: seq<Event>, env: Setting, asset: string): real {
    Copies(SellCount(events, env.ids, asset), env.tol.size)
  }

  ghost predicate QuantityInStep(b: Book, env: Setting, asset: string) {
    Within(RebuiltQuantity(b.events, env.ids, asset), Held(b.positions, env.ids, asset), Leak(b.events, env, asset))
  }

  /** The log explains the cash exactly, and each asset's quantity up to dust per sell of it. */
  ghost predicate InStep(start: real, b: Book, env: Setting) {
    && (forall e :: e in b.events ==> ValidEvent(e))
    && RebuiltCash(start, b.events) == b.cash
    && forall asset :: QuantityInStep(b, env, asset)
  }

  /** The log of one committed action. */
  lemma LogAfter(start: real, b: Book, a: Action, ids: Identities, dust: NonNegative, asset: string)
    requires CommitOne(b, a, dust).Done?
    ensures var after := CommitOne(b, a, dust).book;
      var own := AssetOf(ids, a.fill.symbol) == asset;
      && after.events == b.events + [EventOf(a, after.cash)]
      && RebuiltCash(start, after.events) - after.cash == RebuiltCash(start, b.events) - b.cash
      && RebuiltQuantity(after.events, ids, asset) == RebuiltQuantity(b.events, ids, asset)
         + (if !own then 0.0 else if a.intent.side.Buy? then a.fill.quantity else -(a.fill.quantity as real))
      && SellCount(after.events, ids, asset) == SellCount(b.events, ids, asset)
         + if own && a.intent.side.Sell? then 1 else 0
  {
    var after := CommitOne(b, a, dust).book;
    assert after.events == b.events + [EventOf(a, after.cash)];
    assert after.events[..|b.events|] == b.events;
  }

  // ---------- Scratch balances, live balances and the log ----------

  /** A scratch size counted toward one asset. */
  ghost function ScratchIn(ids: Identities, asset: string): (string, real) -> real {
    (s: string, size: real) => if AssetOf(ids, s) == asset then size else 0.0
  }

  /** Dust per closing counted toward one asset. */
  ghost function ClosingsIn(ids: Identities, asset: string, dust: NonNegative): (string, nat) -> real {
    (s: string, n: nat) => if AssetOf(ids, s) == asset then Copies(n, dust) else 0.0
  }

  lemma ScratchAtStart(positions: map<string, Position>, ids: Identities, asset: string)
    ensures SumOver(SizesOf(positions), ScratchIn(ids, asset)) == Held(positions, ids, asset)
    decreases |positions|
  {
    if positions == map[] {
      assert SizesOf(positions) == map[];
    } else {
      var k :| k in positions;
      SumTakeOut(positions, HeldIn(ids, asset), k);
      SumTakeOut(SizesOf(positions), ScratchIn(ids, asset), k);
      assert SizesOf(positions) - {k} == SizesOf(positions - {k});
      ScratchAtStart(positions - {k}, ids, asset);
    }
  }

  /** Scratch and live quantities of an asset differ by at most dust per closing of its symbols. */
  lemma {:induction false} HeldDiffer(sizes: map<string, real>, positions: map<string, Position>,
                                      closings: map<string, nat>, ids: Identities, asset: string, dust: NonNegative)
    requires positions.Keys <= sizes.Keys && closings.Keys <= sizes.Keys
    requires forall s :: s in sizes ==>
      Within(sizes[s], if s in positions then positions[s].size else 0.0, Copies(CountOf(closings, s), dust))
    ensures Within(SumOver(sizes, ScratchIn(ids, asset)), Held(positions, ids, asset),
                   SumOver(closings, ClosingsIn(ids, asset, dust)))
    decreases |sizes|
  {
    if sizes == map[] {
      assert positions == map[] && closings == map[];
    } else {
      var k :| k in sizes;
      HeldDiffer(sizes - {k}, positions - {k}, closings - {k}, ids, asset, dust);
      SumTakeOut(sizes, ScratchIn(ids, asset), k);
      TakeOutIf(positions, HeldIn(ids, asset), k);
      TakeOutIf(closings, ClosingsIn(ids, asset, dust), k);
      OneMore(0, dust);
    }
  }

  lemma TakeOutIf<V(!new)>(m: map<string, V>, f: (string, V) -> real, k: string)
    ensures SumOver(m, f) == SumOver(m - {k}, f) + if k in m then f(k, m[k]) else 0.0
  {
    if k in m {
      SumTakeOut(m, f, k);
    } else {
      assert m - {k} == m;
    }
  }

  /** What has been traded of an asset, in the log and on scratch balances, and how often it was sold
      against how often it was closed. */
  ghost predicate LogFollows(b: Book, sizes: map<string, real>, closings: map<string, nat>, next: Book,
                             later: map<string, real>, more: map<string, nat>, env: Setting, asset: string)
  {
    && RebuiltQuantity(next.events, env.ids, asset) - SumOver(later, ScratchIn(env.ids, asset))
       == RebuiltQuantity(b.events, env.ids, asset) - SumOver(sizes, ScratchIn(env.ids, asset))
    && SumOver(more, ClosingsIn(env.ids, asset, env.tol.size)) - Leak(next.events, env, asset)
       <= SumOver(closings, ClosingsIn(env.ids, asset, env.tol.size)) - Leak(b.events, env, asset)
  }

  lemma LeakAfter(b: Book, a: Action, env: Setting, asset: string)
    requires CommitOne(b, a, env.tol.size).Done?
    ensures var own := AssetOf(env.ids, a.fill.symbol) == asset;
      Leak(CommitOne(b, a, env.tol.size).book.events, env, asset)
      == Leak(b.events, env, asset) + if own && a.intent.side.Sell? then env.tol.size else 0.0
  {
    LogAfter(0.0, b, a, env.ids, env.tol.size, asset);
    OneMore(SellCount(b.events, env.ids, asset), env.tol.size);
  }

  lemma DrySizes(d: Dry, a: Action, sizes: map<string, real>, cash: real, tol: Tolerances)
    requires DryFill(Dry(cash, sizes, {}, []), a.intent, a.fill, tol) == Ready(d)
    ensures var q := a.fill.quantity;
      d.sizes
      == sizes[a.fill.symbol := Get(sizes, a.fill.symbol) + if a.intent.side.Buy? then q as real else -(q as real)]
  {
  }

  lemma ScratchAfter(d: Dry, a: Action, sizes: map<string, real>, cash: real, env: Setting, asset: string)
    requires DryFill(Dry(cash, sizes, {}, []), a.intent, a.fill, env.tol) == Ready(d)
    ensures d.sizes.Keys == sizes.Keys + {a.fill.symbol}
    ensures SumOver(d.sizes, ScratchIn(env.ids, asset)) == SumOver(sizes, ScratchIn(env.ids, asset))
      + if AssetOf(env.ids, a.fill.symbol) != asset then 0.0
        else if a.intent.side.Buy? then a.fill.quantity as real
        else -(a.fill.quantity as real)
  {
    hide DryFill;
    DrySizes(d, a, sizes, cash, env.tol);
    SumPut(sizes, ScratchIn(env.ids, asset), a.fill.symbol, d.sizes[a.fill.symbol]);
  }

  lemma ClosingsMore(b: Book, a: Action, closings: map<string, nat>, env: Setting, asset: string)
    ensures SumOver(NextClosings(b, a, closings, env.tol.size), ClosingsIn(env.ids, asset, env.tol.size))
         == SumOver(closings, ClosingsIn(env.ids, asset, env.tol.size))
          + if Closes(b, a, env.tol.size) && AssetOf(env.ids, a.fill.symbol) == asset then env.tol.size else 0.0
  {
    var s, f := a.fill.symbol, ClosingsIn(env.ids, asset, env.tol.size);
    SumPut<nat>(closings, f, s, CountOf(closings, s) + 1);
    OneMore(CountOf(closings, s), env.tol.size);
    OneMore(0, env.tol.size);
  }

  lemma OneLogFollows(b: Book, sizes: map<string, real>, a: Action, closings: map<string, nat>, d: Dry, env: Setting,
                      asset: string)
    requires CommitOne(b, a, env.tol.size).Done?
    requires DryFill(Dry(b.cash, sizes, {}, []), a.intent, a.fill, env.tol) == Ready(d)
    ensures LogFollows(b, sizes, closings, CommitOne(b, a, env.tol.size).book, d.sizes,
                       NextClosings(b, a, closings, env.tol.size), env, asset)
  {
    LogAfter(0.0, b, a, env.ids, env.tol.size, asset);
    LeakAfter(b, a, env, asset);
    ScratchAfter(d, a, sizes, b.cash, env, asset);
    ClosingsMore(b, a, closings, env, asset);
  }

  lemma {:induction false} CommitLogFollows(b: Book, sizes: map<string, real>, actions: seq<Action>,
                                            closings: map<string, nat>, env: Setting, asset: string)
    requires Agree(sizes, b, closings, env.tol.size)
    requires Fund(b.cash, sizes, actions, env.tol).Enough? && Commit(b, actions, env.tol.size).Done?
    ensures LogFollows(b, sizes, closings, Commit(b, actions, env.tol.size).book,
                       Fund(b.cash, sizes, actions, env.tol).sizes,
                       ClosingsAfter(b, actions, closings, env.tol.size), env, asset)
    decreases |actions|
  {
    if actions != [] {
      var next := CommitOne(b, actions[0], env.tol.size).book;
      var d := FundedStep(b, sizes, actions, closings, env.tol);
      OneLogFollows(b, sizes, actions[0], closings, d, env, asset);
      CommitLogFollows(next, d.sizes, actions[1..], NextClosings(b, actions[0], closings, env.tol.size), env, asset);
    }
  }

  /** Scratch balances list every position and every closed symbol. */
  lemma {:induction false} ScratchListsAll(b: Book, sizes: map<string, real>, actions: seq<Action>,
                                           closings: map<string, nat>, env: Setting)
    requires Agree(sizes, b, closings, env.tol.size)
    requires Fund(b.cash, sizes, actions, env.tol).Enough? && Commit(b, actions, env.tol.size).Done?
    requires b.positions.Keys <= sizes.Keys && closings.Keys <= sizes.Keys
    ensures Commit(b, actions, env.tol.size).book.positions.Keys <= Fund(b.cash, sizes, actions, env.tol).sizes.Keys
    ensures ClosingsAfter(b, actions, closings, env.tol.size).Keys <= Fund(b.cash, sizes, actions, env.tol).sizes.Keys
    decreases |actions|
  {
    if actions != [] {
      var d := FundedStep(b, sizes, actions, closings, env.tol);
      ScratchAfter(d, actions[0], sizes, b.cash, env, "");
      ScratchListsAll(CommitOne(b, actions[0], env.tol.size).book, d.sizes, actions[1..],
                      NextClosings(b, actions[0], closings, env.tol.size), env);
    }
  }

  lemma LagIsWithin(x: real, y: real, n: nat, dust: NonNegative)
    requires LagWithin(x - y, n, dust)
    ensures Within(x, y, Copies(n, dust))
  {
    if n > 0 {
      OneMore(n - 1, dust);
    }
    OneMore(n, dust);
  }

  /** After a commit the asset's quantity is still explained: the lag of the live sizes behind the check
      costs at most dust per sell. */
  lemma QuantityStaysInStep(b: Book, actions: seq<Action>, env: Setting, asset: string)
    requires QuantityInStep(b, env, asset)
    requires Fund(b.cash, SizesOf(b.positions), actions, env.tol).Enough? && Commit(b, actions, env.tol.size).Done?
    ensures QuantityInStep(Commit(b, actions, env.tol.size).book, env, asset)
  {
    var sizes, dust := SizesOf(b.positions), env.tol.size;
    var after, later := Commit(b, actions, dust).book, Fund(b.cash, sizes, actions, env.tol).sizes;
    var closings := ClosingsAfter(b, actions, map[], dust);
    SizesAgreeAtStart(b, dust);
    CommitFollowsFund(b, sizes, actions, map[], env.tol);
    CommitLogFollows(b, sizes, actions, map[], env, asset);
    ScratchListsAll(b, sizes, actions, map[], env);
    ScratchAtStart(b.positions, env.ids, asset);
    forall s | s in later
      ensures Within(later[s], if s in after.positions then after.positions[s].size else 0.0,
                     Copies(CountOf(closings, s), dust))
    {
      LagIsWithin(Get(later, s), SizeAt(after, s), CountOf(closings, s), dust);
    }
    HeldDiffer(later, after.positions, closings, env.ids, asset, dust);
  }

  lemma {:induction false} CommitKeepsCash(start: real, b: Book, actions: seq<Action>, dust: NonNegative)
    requires Commit(b, actions, dust).Done? && FeesNonNegative(actions)
    requires (forall e :: e in b.events ==> ValidEvent(e)) && RebuiltCash(start, b.events) == b.cash
    ensures var after := Commit(b, actions, dust).book;
      (forall e :: e in after.events ==> ValidEvent(e)) && RebuiltCash(start, after.events) == after.cash
    decreases |actions|
  {
    if actions != [] {
      assert actions[0] in actions && forall c :: c in actions[1..] ==> c in actions;
      OneKeepsCash(start, b, actions[0], dust);
      CommitKeepsCash(start, CommitOne(b, actions[0], dust).book, actions[1..], dust);
    }
  }

  lemma OneKeepsCash(start: real, b: Book, a: Action, dust: NonNegative)
    requires CommitOne(b, a, dust).Done? && a.fill.fee >= 0.0
    requires (forall e :: e in b.events ==> ValidEvent(e)) && RebuiltCash(start, b.events) == b.cash
    ensures var after := CommitOne(b, a, dust).book;
      (forall e :: e in after.events ==> ValidEvent(e)) && RebuiltCash(start, after.events) == after.cash
  {
    hide CommitOne, RebuiltCash;
    LogAfter(start, b, a, map[], dust, "");
    assert ValidEvent(EventOf(a, CommitOne(b, a, dust).book.cash));
  }

  lemma CommitStaysInStep(start: real, b: Book, actions: seq<Action>, env: Setting)
    requires InStep(start, b, env) && FeesNonNegative(actions)
    requires Fund(b.cash, SizesOf(b.positions), actions, env.tol).Enough? && Commit(b, actions, env.tol.size).Done?
    ensures InStep(start, Commit(b, actions, env.tol.size).book, env)
  {
    CommitKeepsCash(start, b, actions, env.tol.size);
    forall asset ensures QuantityInStep(Commit(b, actions, env.tol.size).book, env, asset) {
      assert QuantityInStep(b, env, asset);
      QuantityStaysInStep(b, actions, env, asset);
    }
  }

  lemma RenameStaysInStep(start: real, b: Book, step: Step, env: Setting)
    requires step.Rename? && InStep(start, b, env) && Legal(b, step, env)
    ensures InStep(start, Advance(b, step, env), env)
  {
    forall asset ensures QuantityInStep(Advance(b, step, env), env, asset) {
      assert QuantityInStep(b, env, asset);
      RenameAllKeeps(b.positions, step.order, step.candidates, env.ids, HeldIn(env.ids, asset));
    }
  }

  lemma {:induction false} RunStaysInStep(start: real, b: Book, steps: seq<Step>, env: Setting)
    requires InStep(start, b, env) && LegalRun(b, steps, env)
    ensures InStep(start, Play(b, steps, env), env)
    decreases |steps|
  {
    if steps != [] {
      if steps[0].Submit? {
        SubmitCommits(b, steps[0], env);
        CommitStaysInStep(start, b, StepActions(b, steps[0], env), env);
      } else {
        RenameStaysInStep(start, b, steps[0], env);
      }
      RunStaysInStep(start, Advance(b, steps[0], env), steps[1..], env);
    }
  }

  /** Each asset is sold so rarely that its deleted remainders stay within the audit's slack. */
  ghost predicate FewEnoughSells(events: seq<Event>, env: Setting, slack: Slack) {
    forall asset :: Leak(events, env, asset) <= slack.quantity
  }

  /** Every ledger reached by outcomes and renames, on any history the program survives without a
      rename collision, reconciles with its own log, if the audit starts within slack of the initial
      balance and the deleted remainders fit in the slack. */
  lemma EveryRunReconciles(initial: real, start: real, steps: seq<Step>, env: Setting, slack: Slack)
    requires LegalRun(OpeningBook(initial), steps, env)
    requires Within(start, initial, slack.cash)
    requires FewEnoughSells(Play(OpeningBook(initial), steps, env).events, env, slack)
    ensures var b := Play(OpeningBook(initial), steps, env);
      Reconciles(start, b.events, b.cash, b.positions, env.ids, slack)
  {
    OpeningInStep(initial, env);
    RunStaysInStep(initial, OpeningBook(initial), steps, env);
    InStepReconciles(initial, start, Play(OpeningBook(initial), steps, env), env, slack);
  }

  lemma OpeningInStep(initial: real, env: Setting)
    ensures InStep(initial, OpeningBook(initial), env)
  {
    var b := OpeningBook(initial);
    forall asset ensures QuantityInStep(b, env, asset) {
      assert Held(b.positions, env.ids, asset) == 0.0;
      OneMore(0, env.tol.size);
    }
  }

  lemma InStepReconciles(initial: real, start: real, b: Book, env: Setting, slack: Slack)
    requires InStep(initial, b, env) && Within(start, initial, slack.cash) && FewEnoughSells(b.events, env, slack)
    ensures Reconciles(start, b.events, b.cash, b.positions, env.ids, slack)
  {
    StartShifts(start, initial, b.events);
    forall asset
      ensures Within(RebuiltQuantity(b.events, env.ids, asset), Held(b.positions, env.ids, asset), slack.quantity)
    {
      assert QuantityInStep(b, env, asset) && Leak(b.events, env, asset) <= slack.quantity;
    }
  }

  lemma StartShifts(start: real, initial: real, events: seq<Event>)
    ensures RebuiltCash(start, events) - start == RebuiltCash(initial, events) - initial
  {
  }

  lemma NoDustNoLeak(events: seq<Event>, env: Setting)
    requires env.tol.size == 0.0
    ensures FewEnoughSells(events, env, Slack(0.0, 0.0))
  {
    forall asset ensures Leak(events, env, asset) <= 0.0 {
      NoCopies(SellCount(events, env.ids, asset));
    }
  }

  lemma NoCopies(n: nat)
    ensures Copies(n, 0.0) == 0.0
  {
  }

  /** Without a dust threshold there is nothing to fit: every legal history reconciles exactly. */
  lemma EveryRunReconcilesExactly(initial: real, steps: seq<Step>, env: Setting)
    requires env.tol.size == 0.0 && LegalRun(OpeningBook(initial), steps, env)
    ensures var b := Play(OpeningBook(initial), steps, env);
      Reconciles(initial, b.events, b.cash, b.positions, env.ids, Slack(0.0, 0.0))
  {
    NoDustNoLeak(Play(OpeningBook(initial), steps, env).events, env);
    EveryRunReconciles(initial, initial, steps, env, Slack(0.0, 0.0));
  }

  // ---------- From the events' own figures ----------

  /** The cash an event moves. */
  function Moves(e: Event): real {
    if e.side.Buy? then -(e.quantity * e.price + e.fee) else e.quantity * e.price - e.fee
  }

  function CashLogged(events: seq<Event>): real {
    if events == [] then 0.0 else CashLogged(events[..|events| - 1]) + Moves(events[|events| - 1])
  }

  /** Bought less sold of an asset. */
  function NetLogged(events: seq<Event>, ids: Identities, asset: string): real {
    if events == [] then 0.0
    else
      var e := events[|events| - 1];
      NetLogged(events[..|events| - 1], ids, asset)
      + if AssetOf(ids, e.symbol) != asset then 0.0 else if e.side.Buy? then e.quantity else -e.quantity
  }

  lemma {:induction false} RebuiltIsLogged(start: real, events: seq<Event>, ids: Identities, asset: string)
    ensures RebuiltCash(start, events) == start + CashLogged(events)
    ensures RebuiltQuantity(events, ids, asset) == NetLogged(events, ids, asset)
  {
    if events != [] {
      RebuiltIsLogged(start, events[..|events| - 1], ids, asset);
    }
  }

  function Apart(a: real, b: real): real {
    if a >= b then a - b else b - a
  }

  /** What the audit accepts: no event without quantity or price or with a negative fee, cash within slack of
      what the events leave, and of each asset logged as much held, within slack, as was bought less sold. */
  lemma ReconcilesIff(start: real, events: seq<Event>, cash: real, positions: map<string, Position>, ids: Identities,
                      slack: Slack)
    ensures Reconciles(start, events, cash, positions, ids, slack) <==>
      && (forall i :: 0 <= i < |events| ==> events[i].quantity > 0.0 && events[i].price > 0.0 && events[i].fee >= 0.0)
      && Apart(start + CashLogged(events), cash) <= slack.cash
      && (forall i :: 0 <= i < |events| ==>
            var asset := AssetOf(ids, events[i].symbol);
            Apart(NetLogged(events, ids, asset), Held(positions, ids, asset)) <= slack.quantity)
  {
    hide Held, AssetOf, RebuiltCash, RebuiltQuantity, CashLogged, NetLogged;
    RebuiltIsLogged(start, events, ids, "");
    forall asset ensures RebuiltQuantity(events, ids, asset) == NetLogged(events, ids, asset) {
      RebuiltIsLogged(start, events, ids, asset);
    }
    forall asset ensures asset in LoggedAssets(events, ids) <==>
      exists i :: 0 <= i < |events| && AssetOf(ids, events[i].symbol) == asset
    {
      AssetIsLogged(events, ids, asset);
    }
    if Reconciles(start, events, cash, positions, ids, slack) {
      assert forall i :: 0 <= i < |events| ==> events[i] in events;
    }
  }

  lemma AssetIsLogged(events: seq<Event>, ids: Identities, asset: string)
    ensures asset in LoggedAssets(events, ids)
      <==> exists i :: 0 <= i < |events| && AssetOf(ids, events[i].symbol) == asset
  {
    forall i | 0 <= i < |events| ensures AssetOf(ids, events[i].symbol) in LoggedAssets(events, ids) {
      assert events[i] in events;
    }
  }
}
