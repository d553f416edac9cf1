/** How many sells the ledger's audit can absorb before the remainders it never logs exceed its
    slack. */
module AuditLimits {
  import opened RealMath
  import opened FiniteSums
  import opened Ledger
  import opened Orders
  import opened Atomicity
  import opened Renames
  import opened Runs
  import opened Reconciliation

  function OneOrder(intent: Intent, fill: Fill): Step {
    Submit([intent], Outcome(true, [AcceptedOrder(intent.id, [fill])], []))
  }

  /** A submission of one fully resolved order with one fill commits that fill if it is affordable. */
  lemma OneOrderCommits(b: Book, intent: Intent, fill: Fill, env: Setting)
    requires fill.fee >= 0.0 && (intent.side.Sell? ==> fill.quantity > env.tol.size)
    requires DryFill(DryStart(b), intent, fill, env.tol).Ready?
    ensures Legal(b, OneOrder(intent, fill), env)
    ensures CommitOne(b, Action(intent, fill), env.tol.size) == Done(Advance(b, OneOrder(intent, fill), env))
  {
    var step, a := OneOrder(intent, fill), Action(intent, fill);
    var intents := IntentMap(step.approved);
    assert IntentMap(step.approved[..0]) == map[];
    assert intents == map[intent.id := intent];
    var actions := ActionsOf(intents, step.outcome.accepted);
    assert [fill][1..] == [] && step.outcome.accepted[1..] == [];
    assert ActionsFor(intent, [fill]) == [a] + [];
    assert ActionsOf(intents, []) == [];
    assert actions == [a];
    assert ResolvesExactlyOnce(step.outcome, intents) by {
      assert OrderIds(step.outcome.accepted) == [intent.id] + [];
    }
    var d := DryFill(Dry(b.cash, SizesOf(b.positions), {}, []), intent, fill, env.tol);
    assert actions[1..] == [];
    assert Fund(d.dry.cash, d.dry.sizes, [], env.tol).Enough?;
    assert CommitOne(b, a, env.tol.size).Done?;
    forall j: nat ensures !FindsNothing(b, actions, j, env.tol.size) {
      assert j == 0 ==> actions[..0] == [];
    }
    RecordIsAtomic(b, step.approved, step.outcome, env.tol);
    assert Commit(b, actions, env.tol.size) == Done(CommitOne(b, a, env.tol.size).book);
  }

  /** Cost of one round trip's buy. */
  function Stake(env: Setting): real {
    env.tol.size + env.tol.size + 1.0
  }

  function BuyOf(env: Setting): Action {
    Action(Intent("b", Buy, 1.0), Fill("b", "X", Stake(env), 1.0, 0.0, 0))
  }

  function SellOf(env: Setting): Action {
    Action(Intent("s", Sell, 1.0), Fill("s", "X", 1.0 + env.tol.size, 1.0, 0.0, 0))
  }

  function StepOf(a: Action): Step {
    OneOrder(a.intent, a.fill)
  }

  lemma BuyLeg(b: Book, env: Setting)
    requires b.positions == map[] && b.cash >= Stake(env)
    ensures Legal(b, StepOf(BuyOf(env)), env)
    ensures var mid := Advance(b, StepOf(BuyOf(env)), env);
      && CommitOne(b, BuyOf(env), env.tol.size) == Done(mid)
      && mid.cash == b.cash - Stake(env)
      && mid.positions == map["X" := Position(1.0, Stake(env), 0.0, 0)]
  {
    OneOrderCommits(b, BuyOf(env).intent, BuyOf(env).fill, env);
  }

  lemma SellLeg(mid: Book, env: Setting)
    requires mid.positions == map["X" := Position(1.0, Stake(env), 0.0, 0)]
    ensures Legal(mid, StepOf(SellOf(env)), env)
    ensures var after := Advance(mid, StepOf(SellOf(env)), env);
      && CommitOne(mid, SellOf(env), env.tol.size) == Done(after)
      && after.cash == mid.cash + 1.0 + env.tol.size
      && after.positions == map[]
  {
    hide Legal, Advance, OneOrder;
    assert Get(SizesOf(mid.positions), "X") == Stake(env);
    OneOrderCommits(mid, SellOf(env).intent, SellOf(env).fill, env);
    var after := Advance(mid, StepOf(SellOf(env)), env);
    assert after.positions == mid.positions - {"X"};
  }

  lemma TwoSteps(b: Book, first: Step, second: Step, env: Setting)
    requires Legal(b, first, env) && Legal(Advance(b, first, env), second, env)
    ensures LegalRun(b, [first, second], env)
    ensures Play(b, [first, second], env) == Advance(Advance(b, first, env), second, env)
  {
    var mid := Advance(b, first, env);
    var after := Advance(mid, second, env);
    assert [first, second][1..] == [second] && [second][1..] == [];
    assert LegalRun(after, [], env) && Play(after, [], env) == after;
    assert LegalRun(mid, [second], env) && Play(mid, [second], env) == after;
  }

  /** Buying 1 + 2 dust of X and selling 1 + dust leaves dust, which is deleted without a trace. */
  lemma LeakyRoundTrip(b: Book, env: Setting) returns (buy: Step, sell: Step)
    requires b.positions == map[] && b.cash >= Stake(env)
    ensures LegalRun(b, [buy, sell], env)
    ensures Leaked(b, Play(b, [buy, sell], env), env.tol.size, 1, env)
    ensures Play(b, [buy, sell], env).cash == b.cash - env.tol.size
  {
    buy, sell := StepOf(BuyOf(env)), StepOf(SellOf(env));
    BuyLeg(b, env);
    var mid := Advance(b, buy, env);
    SellLeg(mid, env);
    TwoSteps(b, buy, sell, env);
    RoundTripLeaks(b, mid, Advance(mid, sell, env), env);
  }

  lemma RoundTripLeaks(b: Book, mid: Book, after: Book, env: Setting)
    requires CommitOne(b, BuyOf(env), env.tol.size) == Done(mid)
    requires CommitOne(mid, SellOf(env), env.tol.size) == Done(after) && after.positions == map[]
    ensures Leaked(b, after, env.tol.size, 1, env)
  {
    forall asset
      ensures SellCount(after.events, env.ids, asset) <= SellCount(b.events, env.ids, asset) + 1
    {
      LogAfter(0.0, b, BuyOf(env), env.ids, env.tol.size, asset);
      LogAfter(0.0, mid, SellOf(env), env.ids, env.tol.size, asset);
    }
    var x := AssetOf(env.ids, "X");
    LogAfter(0.0, b, BuyOf(env), env.ids, env.tol.size, x);
    LogAfter(0.0, mid, SellOf(env), env.ids, env.tol.size, x);
    assert after.events[|after.events| - 1] == EventOf(SellOf(env), after.cash);
  }

  function Stakes(n: nat, env: Setting): real {
    if n == 0 then 0.0 else Stakes(n - 1, env) + Stake(env)
  }

  /** After n round trips from b: nothing is held, and the log claims leak more of X than before. */
  ghost predicate Leaked(b: Book, after: Book, leak: real, n: nat, env: Setting) {
    var x := AssetOf(env.ids, "X");
    && after.positions == map[]
    && RebuiltQuantity(after.events, env.ids, x) == RebuiltQuantity(b.events, env.ids, x) + leak
    && (n > 0 ==> x in LoggedAssets(after.events, env.ids))
    && forall asset :: SellCount(after.events, env.ids, asset) <= SellCount(b.events, env.ids, asset) + n
  }

  lemma OneTrip(b: Book, n: nat, env: Setting) returns (trip: seq<Step>)
    requires n > 0 && b.positions == map[] && b.cash >= Stakes(n, env)
    ensures LegalRun(b, trip, env) && Leaked(b, Play(b, trip, env), env.tol.size, 1, env)
    ensures Play(b, trip, env).cash >= Stakes(n - 1, env)
  {
    StakesNonNegative(n - 1, env);
    var buy, sell := LeakyRoundTrip(b, env);
    trip := [buy, sell];
  }

  lemma NothingLeaked(b: Book, env: Setting)
    requires b.positions == map[]
    ensures Leaked(b, b, Copies(0, env.tol.size), 0, env)
    ensures LegalRun(b, [], env) && Play(b, [], env) == b
  {
  }

  lemma {:induction false} LeakyRun(b: Book, n: nat, env: Setting) returns (steps: seq<Step>)
    requires b.positions == map[] && b.cash >= Stakes(n, env)
    ensures LegalRun(b, steps, env) && Leaked(b, Play(b, steps, env), Copies(n, env.tol.size), n, env)
    ensures n == 0 ==> steps == []
    decreases n
  {
    hide LegalRun, Play, Stakes;
    if n == 0 {
      steps := [];
      NothingLeaked(b, env);
    } else {
      var trip := OneTrip(b, n, env);
      var rest := LeakyRun(Play(b, trip, env), n - 1, env);
      steps := trip + rest;
      JoinTrips(b, trip, rest, n, env);
    }
  }

  /** One round trip, and then the others. */
  lemma JoinTrips(b: Book, trip: seq<Step>, rest: seq<Step>, n: nat, env: Setting)
    requires n > 0 && LegalRun(b, trip, env) && LegalRun(Play(b, trip, env), rest, env) && (n == 1 ==> rest == [])
    requires Leaked(b, Play(b, trip, env), env.tol.size, 1, env)
    requires Leaked(Play(b, trip, env), Play(Play(b, trip, env), rest, env), Copies(n - 1, env.tol.size), n - 1, env)
    ensures LegalRun(b, trip + rest, env)
    ensures Leaked(b, Play(b, trip + rest, env), Copies(n, env.tol.size), n, env)
  {
    hide *;
    RunAppend(b, trip, rest, env);
    OneMore(n - 1, env.tol.size);
    var next := Play(b, trip, env);
    NoSteps(next, env);
    LeaksAdd(b, next, Play(next, rest, env), env.tol.size, Copies(n - 1, env.tol.size), n, env);
  }

  lemma NoSteps(b: Book, env: Setting)
    ensures Play(b, [], env) == b
  {
  }

  lemma LeaksAdd(b: Book, next: Book, after: Book, first: real, leak: real, n: nat, env: Setting)
    requires n > 0 && Leaked(b, next, first, 1, env) && Leaked(next, after, leak, n - 1, env)
    requires n == 1 ==> after == next
    ensures Leaked(b, after, leak + first, n, env)
  {
    forall asset ensures SellCount(after.events, env.ids, asset) <= SellCount(b.events, env.ids, asset) + n {
      assert SellCount(next.events, env.ids, asset) <= SellCount(b.events, env.ids, asset) + 1;
    }
  }

  lemma StakesNonNegative(n: nat, env: Setting)
    ensures Stakes(n, env) >= 0.0
  {
  }

  lemma {:induction false} RunAppend(b: Book, first: seq<Step>, second: seq<Step>, env: Setting)
    requires LegalRun(b, first, env) && LegalRun(Play(b, first, env), second, env)
    ensures LegalRun(b, first + second, env)
    ensures Play(b, first + second, env) == Play(Play(b, first, env), second, env)
    decreases |first|
  {
    if first == [] {
      assert first + second == second;
    } else {
      assert (first + second)[0] == first[0] && (first + second)[1..] == first[1..] + second;
      RunAppend(Advance(b, first[0], env), first[1..], second, env);
    }
  }

  /** No asset is sold more than n times. */
  ghost predicate AtMostSells(events: seq<Event>, env: Setting, n: nat) {
    forall asset :: SellCount(events, env.ids, asset) <= n
  }

  ghost predicate RunReconciles(initial: real, steps: seq<Step>, env: Setting, slack: Slack) {
    var b := Play(OpeningBook(initial), steps, env);
    Reconciles(initial, b.events, b.cash, b.positions, env.ids, slack)
  }

  /** A legal history with at most n sells of each asset. */
  ghost predicate ShortRun(initial: real, steps: seq<Step>, env: Setting, n: nat) {
    LegalRun(OpeningBook(initial), steps, env) && AtMostSells(Play(OpeningBook(initial), steps, env).events, env, n)
  }

  lemma ShortRunReconciles(n: nat, initial: real, steps: seq<Step>, env: Setting, slack: Slack)
    requires Copies(n, env.tol.size) <= slack.quantity && ShortRun(initial, steps, env, n)
    ensures RunReconciles(initial, steps, env, slack)
  {
    var events := Play(OpeningBook(initial), steps, env).events;
    FewSells(events, n, env, slack);
    EveryRunReconciles(initial, initial, steps, env, slack);
  }

  lemma FewSells(events: seq<Event>, n: nat, env: Setting, slack: Slack)
    requires AtMostSells(events, env, n) && Copies(n, env.tol.size) <= slack.quantity
    ensures FewEnoughSells(events, env, slack)
  {
    forall asset ensures Leak(events, env, asset) <= slack.quantity {
      CountScales(env.tol.size, SellCount(events, env.ids, asset), n);
    }
  }

  lemma LeakyRunFails(n: nat, env: Setting, slack: Slack) returns (initial: real, steps: seq<Step>)
    requires Copies(n, env.tol.size) > slack.quantity
    ensures ShortRun(initial, steps, env, n) && !RunReconciles(initial, steps, env, slack)
  {
    initial := Stakes(n, env);
    steps := LeakyRun(OpeningBook(initial), n, env);
    var b := Play(OpeningBook(initial), steps, env);
    assert n > 0;
    LeakedFails(initial, b, n, env, slack);
  }

  lemma LeakedFails(initial: real, b: Book, n: nat, env: Setting, slack: Slack)
    requires Leaked(OpeningBook(initial), b, Copies(n, env.tol.size), n, env)
    requires n > 0 && Copies(n, env.tol.size) > slack.quantity
    ensures AtMostSells(b.events, env, n)
    ensures !Reconciles(initial, b.events, b.cash, b.positions, env.ids, slack)
  {
    var x := AssetOf(env.ids, "X");
    assert Held(b.positions, env.ids, x) == 0.0;
    assert !Within(RebuiltQuantity(b.events, env.ids, x), Held(b.positions, env.ids, x), slack.quantity);
  }

  lemma CountScales(x: NonNegative, m: nat, n: nat)
    requires m <= n
    ensures Copies(m, x) <= Copies(n, x)
  {
  }

  /** The audit accepts every legal history with at most n sells per asset exactly when n remainders
      fit in its quantity slack. With the program's constants that is n <= 100. */
  lemma AuditAbsorbsExactly(n: nat, env: Setting, slack: Slack)
    ensures Copies(n, env.tol.size) <= slack.quantity <==>
      forall initial, steps :: ShortRun(initial, steps, env, n) ==> RunReconciles(initial, steps, env, slack)
    ensures Copies(n, PROGRAM_TOLERANCES.size) <= PROGRAM_SLACK.quantity <==> n <= 100
  {
    if Copies(n, env.tol.size) <= slack.quantity {
      forall initial, steps | ShortRun(initial, steps, env, n) ensures RunReconciles(initial, steps, env, slack) {
        ShortRunReconciles(n, initial, steps, env, slack);
      }
    } else {
      var initial, steps := LeakyRunFails(n, env, slack);
    }
  }
}
