/** Whole ledger histories: broker outcomes and symbol renames in any order. */
module Runs {
  import opened RealMath
  import opened FiniteSums
  import opened Ledger
  import opened Atomicity
  import opened Renames

  datatype Step =
    | Submit(approved: seq<Intent>, outcome: Outcome)
    | Rename(order: seq<string>, candidates: seq<string>)

  datatype Setting = Setting(ids: Identities, tol: Tolerances)

  function Advance(b: Book, step: Step, env: Setting): Book {
    match step
    case Submit(approved, outcome) => Record(b, approved, outcome, env.tol).1
    case Rename(order, candidates) => b.(positions := RenameAll(b.positions, order, candidates, env.ids))
  }

  function Play(b: Book, steps: seq<Step>, env: Setting): Book
    decreases |steps|
  {
    if steps == [] then b else Play(Advance(b, steps[0], env), steps[1..], env)
  }

  ghost predicate FeesNonNegative(actions: seq<Action>) {
    forall a :: a in actions ==> a.fill.fee >= 0.0
  }

  /** An acceptable outcome charges no negative fee and lets every sell find something held; a rename
      sweep never lands on a symbol held by then. */
  ghost predicate Legal(b: Book, step: Step, env: Setting) {
    match step
    case Submit(approved, outcome) =>
      var actions := ActionsOf(IntentMap(approved), outcome.accepted);
      Acceptable(b, approved, outcome, env.tol) ==> FeesNonNegative(actions) && FindsPositions(b, actions, env.tol.size)
    case Rename(order, candidates) =>
      Enumerates(order, b.positions) && SweepFree(b.positions, order, candidates, env.ids)
  }

  ghost predicate LegalRun(b: Book, steps: seq<Step>, env: Setting)
    decreases |steps|
  {
    steps == [] || (Legal(b, steps[0], env) && LegalRun(Advance(b, steps[0], env), steps[1..], env))
  }

  /** The committed actions of a step; none for a rename or a refused outcome. */
  function StepActions(b: Book, step: Step, env: Setting): seq<Action> {
    if step.Submit? && Record(b, step.approved, step.outcome, env.tol).0.Recorded?
    then ActionsOf(IntentMap(step.approved), step.outcome.accepted)
    else []
  }

  /** A legal submission commits its actions: the program does not stop, the check has funded them, and
      the book follows the check. */
  lemma SubmitCommits(b: Book, step: Step, env: Setting)
    requires step.Submit? && Legal(b, step, env)
    ensures !Record(b, step.approved, step.outcome, env.tol).0.Panicked?
    ensures var actions := StepActions(b, step, env);
      && FeesNonNegative(actions) && FindsPositions(b, actions, env.tol.size)
      && Commit(b, actions, env.tol.size) == Done(Advance(b, step, env))
      && BuysCovered(b, actions, env.tol)
      && Fund(b.cash, SizesOf(b.positions), actions, env.tol).Enough?
  {
    RecordIsAtomic(b, step.approved, step.outcome, env.tol);
  }

  /** The steps a history can take without stopping the program are the legal ones, fees and renames
      aside. */
  lemma LegalIffSurvives(b: Book, step: Step, env: Setting)
    requires step.Submit? && FeesNonNegative(ActionsOf(IntentMap(step.approved), step.outcome.accepted))
    ensures Legal(b, step, env) <==> !Record(b, step.approved, step.outcome, env.tol).0.Panicked?
  {
    RecordIsAtomic(b, step.approved, step.outcome, env.tol);
  }

  /** Every sell of a history is covered by what is held, up to dust. */
  ghost predicate CoveredRun(b: Book, steps: seq<Step>, env: Setting)
    decreases |steps|
  {
    steps == [] ||
    (&& SellsCovered(b, StepActions(b, steps[0], env), env.tol.size)
     && CoveredRun(Advance(b, steps[0], env), steps[1..], env))
  }

  /** Without a dust threshold every history is covered. */
  lemma {:induction false} ExactRunIsCovered(b: Book, steps: seq<Step>, env: Setting)
    requires env.tol.size == 0.0
    ensures CoveredRun(b, steps, env)
    decreases |steps|
  {
    if steps != [] {
      if steps[0].Submit? {
        RecordIsExactWithoutDust(b, steps[0].approved, steps[0].outcome, env.tol);
      }
      ExactRunIsCovered(Advance(b, steps[0], env), steps[1..], env);
    }
  }
}
