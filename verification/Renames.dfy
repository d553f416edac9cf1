/** Symbol renames: a held position moves to another tradable symbol of the same economic asset. */
module Renames {
  import opened FiniteSums
  import opened Ledger
  import opened TextOrder

  /** Economic identity of each symbol; a symbol without one stands for itself. */
  type Identities = map<string, string>

  function Identity(ids: Identities, symbol: string): string {
    if symbol in ids then ids[symbol] else ""
  }

  function AssetOf(ids: Identities, symbol: string): string {
    if Identity(ids, symbol) == "" then symbol else Identity(ids, symbol)
  }

  datatype Alias = NoAlias | Alias(symbol: string)

  /** The first candidate other than held that shares held's identity. */
  function FirstAlias(candidates: seq<string>, ids: Identities, held: string): (a: Alias)
    ensures a.Alias? ==> a.symbol != held && Identity(ids, a.symbol) == Identity(ids, held)
    decreases |candidates|
  {
    if candidates == [] then NoAlias
    else if candidates[0] != held && Identity(ids, candidates[0]) == Identity(ids, held) then Alias(candidates[0])
    else FirstAlias(candidates[1..], ids, held)
  }

  function RenameTarget(candidates: seq<string>, ids: Identities, held: string): Alias {
    if Identity(ids, held) == "" then NoAlias else FirstAlias(candidates, ids, held)
  }

  function RenameOne(positions: map<string, Position>, held: string, candidates: seq<string>, ids: Identities)
    : map<string, Position>
  {
    match RenameTarget(candidates, ids, held)
    case NoAlias => positions
    case Alias(target) =>
      if held in positions then (positions - {held})[target := positions[held]] else positions
  }

  /** Renames every symbol of order in turn. */
  function RenameAll(positions: map<string, Position>, order: seq<string>, candidates: seq<string>, ids: Identities)
    : map<string, Position>
    decreases |order|
  {
    if order == [] then positions
    else RenameAll(RenameOne(positions, order[0], candidates, ids), order[1..], candidates, ids)
  }

  /** A symbol's listing period; an open period never ends. */
  datatype Lifecycle = Open(listedAt: int) | Closed(listedAt: int, delistedAt: int)

  predicate Live(l: Lifecycle, at: int) {
    l.listedAt <= at && (l.Closed? ==> l.delistedAt > at)
  }

  /** Rename targets, in order: the wanted symbols that are live or unlisted, and every live symbol. */
  method RenameCandidates(targets: seq<string>, lifecycles: map<string, Lifecycle>, at: int)
    returns (candidates: seq<string>)
    ensures Sorted(candidates)
    ensures forall c :: c in candidates <==>
      || (c in targets && c !in lifecycles)
      || (c in lifecycles && lifecycles[c].listedAt <= at && (lifecycles[c].Closed? ==> at < lifecycles[c].delistedAt))
  {
    candidates := [];
    for i := 0 to |targets|
      invariant forall c :: c in candidates <==>
        c in targets[..i] && (c in lifecycles ==> Live(lifecycles[c], at))
    {
      if targets[i] !in lifecycles || Live(lifecycles[targets[i]], at) {
        candidates := candidates + [targets[i]];
      }
    }
    var left := lifecycles.Keys;
    while left != {}
      invariant left <= lifecycles.Keys
      invariant forall c :: c in candidates <==>
        || (c in targets && (c in lifecycles ==> Live(lifecycles[c], at)))
        || (c in lifecycles && c !in left && Live(lifecycles[c], at))
      decreases |left|
    {
      var symbol :| symbol in left;
      left := left - {symbol};
      if Live(lifecycles[symbol], at) {
        candidates := candidates + [symbol];
      }
    }
    ghost var unsorted := candidates;
    candidates := SortStrings(candidates);
    forall c ensures c in candidates <==> c in unsorted {
      assert c in candidates <==> c in multiset(candidates);
    }
  }

  /** Among sorted candidates the alias found is the least one. */
  lemma {:induction false} AliasIsLeast(candidates: seq<string>, ids: Identities, held: string, c: string)
    requires Sorted(candidates) && c in candidates && c != held && Identity(ids, c) == Identity(ids, held)
    ensures FirstAlias(candidates, ids, held).Alias? && !Less(c, FirstAlias(candidates, ids, held).symbol)
    decreases |candidates|
  {
    if candidates[0] != held && Identity(ids, candidates[0]) == Identity(ids, held) {
      LessIsIrreflexive(c);
    } else {
      AliasIsLeast(candidates[1..], ids, held, c);
    }
  }

  /** The search for a rename target. */
  method FindAlias(candidates: seq<string>, ids: Identities, held: string) returns (a: Alias)
    ensures a == FirstAlias(candidates, ids, held)
  {
    for k := 0 to |candidates|
      invariant FirstAlias(candidates, ids, held) == FirstAlias(candidates[k..], ids, held)
    {
      var target := candidates[k];
      assert candidates[k..][1..] == candidates[k + 1..];
      if held != target && Identity(ids, target) == Identity(ids, held) {
        return Alias(target);
      }
    }
    a := NoAlias;
  }

  /** Moves one held position to the first candidate of its asset. */
  method MovePosition(ledger: MemoryLedger, held: string, candidates: seq<string>, ids: Identities)
    requires held in ledger.positions
    modifies ledger`positions
    ensures ledger.positions == RenameOne(old(ledger.positions), held, candidates, ids)
  {
    if Identity(ids, held) == "" {
      return;
    }
    var position := ledger.positions[held];
    var alias := FindAlias(candidates, ids, held);
    if alias.Alias? {
      ledger.positions := (ledger.positions - {held})[alias.symbol := position];
    }
  }

  lemma OthersStay(positions: map<string, Position>, held: string, candidates: seq<string>, ids: Identities)
    ensures forall s :: s in positions && s != held ==> s in RenameOne(positions, held, candidates, ids)
  {
  }

  /** Moves positions to their new symbols, visiting the held symbols in the given order. */
  method TransitionEconomicPositions(ledger: MemoryLedger, order: seq<string>, candidates: seq<string>, ids: Identities)
    requires Enumerates(order, ledger.positions)
    modifies ledger`positions
    ensures ledger.positions == RenameAll(old(ledger.positions), order, candidates, ids)
  {
    hide RenameOne;
    for i := 0 to |order|
      invariant forall j :: i <= j < |order| ==> order[j] in ledger.positions
      invariant RenameAll(old(ledger.positions), order, candidates, ids)
             == RenameAll(ledger.positions, order[i..], candidates, ids)
    {
      assert order[i..][1..] == order[i + 1..];
      OthersStay(ledger.positions, order[i], candidates, ids);
      MovePosition(ledger, order[i], candidates, ids);
    }
  }

  // ---------- What a rename keeps ----------

  /** No two held symbols are the same asset. */
  ghost predicate OneHeldPerAsset(positions: map<string, Position>, ids: Identities) {
    forall s, t :: s in positions && t in positions && AssetOf(ids, s) == AssetOf(ids, t) ==> s == t
  }

  /** Size of a position counted toward one asset. */
  ghost function HeldIn(ids: Identities, asset: string): (string, Position) -> real {
    (s: string, p: Position) => if AssetOf(ids, s) == asset then p.size as real else 0.0
  }

  /** Quantity of an asset over all its symbols. */
  ghost function Held(positions: map<string, Position>, ids: Identities, asset: string): real {
    SumOver(positions, HeldIn(ids, asset))
  }

  lemma AliasKeepsAsset(candidates: seq<string>, ids: Identities, held: string)
    ensures var a := RenameTarget(candidates, ids, held);
      a.Alias? ==> a.symbol != held && AssetOf(ids, a.symbol) == AssetOf(ids, held)
  {
  }

  /** The target of one rename is free, if there is one. */
  predicate TargetFree(positions: map<string, Position>, held: string, candidates: seq<string>, ids: Identities) {
    var a := RenameTarget(candidates, ids, held);
    held in positions && a.Alias? ==> a.symbol !in positions
  }

  /** Every rename of a sweep moves to a symbol that is not held by then. */
  predicate SweepFree(positions: map<string, Position>, order: seq<string>, candidates: seq<string>, ids: Identities)
    decreases |order|
  {
    order == [] ||
    (&& TargetFree(positions, order[0], candidates, ids)
     && SweepFree(RenameOne(positions, order[0], candidates, ids), order[1..], candidates, ids))
  }

  /** A rename never adds to an asset, and loses some of one if its target is held. */
  lemma RenameNeverGains(positions: map<string, Position>, held: string, candidates: seq<string>, ids: Identities,
                         asset: string)
    ensures Held(RenameOne(positions, held, candidates, ids), ids, asset) <= Held(positions, ids, asset)
    ensures !TargetFree(positions, held, candidates, ids) && asset == AssetOf(ids, held) ==>
      Held(RenameOne(positions, held, candidates, ids), ids, asset) < Held(positions, ids, asset)
  {
    var a, f := RenameTarget(candidates, ids, held), HeldIn(ids, asset);
    AliasKeepsAsset(candidates, ids, held);
    if a.Alias? && held in positions {
      var p, rest := positions[held], positions - {held};
      SumTakeOut(positions, f, held);
      SumPut(rest, f, a.symbol, p);
      assert f(a.symbol, p) == f(held, p);
      if a.symbol in positions {
        assert rest[a.symbol] == positions[a.symbol] && f(a.symbol, rest[a.symbol]) >= 0.0;
        assert AssetOf(ids, held) == asset ==> f(a.symbol, rest[a.symbol]) > 0.0;
      }
    }
  }

  lemma {:induction false} SweepNeverGains(positions: map<string, Position>, order: seq<string>,
                                           candidates: seq<string>, ids: Identities, asset: string)
    ensures Held(RenameAll(positions, order, candidates, ids), ids, asset) <= Held(positions, ids, asset)
    decreases |order|
  {
    if order != [] {
      RenameNeverGains(positions, order[0], candidates, ids, asset);
      SweepNeverGains(RenameOne(positions, order[0], candidates, ids), order[1..], candidates, ids, asset);
    }
  }

  lemma {:induction false} CollisionLoses(positions: map<string, Position>, order: seq<string>, candidates: seq<string>,
                                          ids: Identities)
    returns (asset: string)
    requires !SweepFree(positions, order, candidates, ids)
    ensures Held(RenameAll(positions, order, candidates, ids), ids, asset) < Held(positions, ids, asset)
    decreases |order|
  {
    var next := RenameOne(positions, order[0], candidates, ids);
    if TargetFree(positions, order[0], candidates, ids) {
      asset := CollisionLoses(next, order[1..], candidates, ids);
    } else {
      asset := AssetOf(ids, order[0]);
      SweepNeverGains(next, order[1..], candidates, ids, asset);
    }
    RenameNeverGains(positions, order[0], candidates, ids, asset);
  }

  /** What a sweep of renames leaves alone: every measure that depends on a position and its asset
      only. */
  ghost predicate DependsOnAsset(f: (string, Position) -> real, ids: Identities) {
    forall s, t, p :: AssetOf(ids, s) == AssetOf(ids, t) ==> f(s, p) == f(t, p)
  }

  /** A sweep without collisions keeps every total that depends on the asset only. */
  lemma {:induction false} RenameAllKeeps(positions: map<string, Position>, order: seq<string>, candidates: seq<string>,
                                          ids: Identities, f: (string, Position) -> real)
    requires SweepFree(positions, order, candidates, ids) && DependsOnAsset(f, ids)
    ensures SumOver(RenameAll(positions, order, candidates, ids), f) == SumOver(positions, f)
    decreases |order|
  {
    if order != [] {
      var a := RenameTarget(candidates, ids, order[0]);
      AliasKeepsAsset(candidates, ids, order[0]);
      if a.Alias? && order[0] in positions {
        SumMove(positions, f, order[0], a.symbol, positions[order[0]]);
      }
      RenameAllKeeps(RenameOne(positions, order[0], candidates, ids), order[1..], candidates, ids, f);
    }
  }

  /** A sweep keeps the quantity of every asset exactly when none of its renames lands on a symbol held
      by then. */
  lemma SweepKeepsQuantitiesIffFree(positions: map<string, Position>, order: seq<string>, candidates: seq<string>,
                                    ids: Identities)
    ensures SweepFree(positions, order, candidates, ids) <==>
      forall asset :: Held(RenameAll(positions, order, candidates, ids), ids, asset) == Held(positions, ids, asset)
  {
    if SweepFree(positions, order, candidates, ids) {
      forall asset
        ensures Held(RenameAll(positions, order, candidates, ids), ids, asset) == Held(positions, ids, asset)
      {
        RenameAllKeeps(positions, order, candidates, ids, HeldIn(ids, asset));
      }
    } else {
      var asset := CollisionLoses(positions, order, candidates, ids);
    }
  }

  lemma OneHeldStep(positions: map<string, Position>, held: string, candidates: seq<string>, ids: Identities)
    requires OneHeldPerAsset(positions, ids)
    ensures TargetFree(positions, held, candidates, ids)
    ensures OneHeldPerAsset(RenameOne(positions, held, candidates, ids), ids)
  {
    AliasKeepsAsset(candidates, ids, held);
    var a := RenameTarget(candidates, ids, held);
    if a.Alias? && held in positions {
      assert a.symbol !in positions;
    }
  }

  /** With one held symbol per asset no sweep collides, and there is still one afterwards. */
  lemma {:induction false} OneHeldIsFree(positions: map<string, Position>, order: seq<string>, candidates: seq<string>,
                                         ids: Identities)
    requires OneHeldPerAsset(positions, ids)
    ensures SweepFree(positions, order, candidates, ids)
    ensures OneHeldPerAsset(RenameAll(positions, order, candidates, ids), ids)
    decreases |order|
  {
    if order != [] {
      OneHeldStep(positions, order[0], candidates, ids);
      OneHeldIsFree(RenameOne(positions, order[0], candidates, ids), order[1..], candidates, ids);
    }
  }

  /** So a sweep keeps every asset's quantity then, whatever the order and the candidates. */
  lemma RenameAllKeepsQuantities(positions: map<string, Position>, order: seq<string>, candidates: seq<string>,
                                 ids: Identities, asset: string)
    requires OneHeldPerAsset(positions, ids)
    ensures OneHeldPerAsset(RenameAll(positions, order, candidates, ids), ids)
    ensures Held(RenameAll(positions, order, candidates, ids), ids, asset) == Held(positions, ids, asset)
  {
    OneHeldIsFree(positions, order, candidates, ids);
    RenameAllKeeps(positions, order, candidates, ids, HeldIn(ids, asset));
  }
}
