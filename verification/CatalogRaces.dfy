/** Edits and state transitions of one catalogue version that overlap in time, over its rows. */
module CatalogRaces {
  import opened Prelude
  import opened CatalogContent
  import opened CatalogStore
  import opened CatalogReading

  /** What an edit does to the rows when it commits: it removes those it saw and writes its own. */
  datatype Delta = Delta(drop: set<Id>, write: Rows)

  function Apply(rows: Rows, d: Delta): Rows {
    Rows(rows.metrics - d.drop + d.write.metrics, rows.plans - d.drop + d.write.plans,
         rows.prices - d.drop + d.write.prices, rows.grants - d.drop + d.write.grants)
  }

  /** The lock a transaction holds on the row of the version until it ends. */
  datatype Lock = NoLock | Shared | Exclusive

  /**
   * A transaction between its last read and its commit: an edit whose statements have passed the draft
   * trigger, or a transition that has checked the state it found and, for validation, the content.
   */
  datatype Tx =
    | Editing(delta: Delta, lock: Lock)
    | Moving(from: CatalogState, to: CatalogState, lock: Lock)

  /** The committed state and rows of the version, and the transactions under way. */
  datatype World = World(state: CatalogState, rows: Rows, txs: map<nat, Tx>)

  datatype Action =
    | Replace(t: nat, delta: Delta)
    | EditPlan(t: nat, delta: Delta) // holds the row FOR UPDATE
    | Check(t: nat, to: CatalogState)
    | Commit(t: nat)
    | Abort(t: nat)

  /**
   * What the code might do about it: name the checked state in the update's WHERE clause, read the state
   * FOR SHARE in the trigger, read it FOR UPDATE in the check.
   */
  datatype Discipline = Discipline(guardUpdate: bool, lockInTrigger: bool, lockInCheck: bool)

  /** The code does none of it. */
  const AS_CODED := Discipline(false, false, false)

  predicate Unlocked(w: World) { forall t | t in w.txs :: w.txs[t].lock == NoLock }

  predicate NoneExclusive(w: World) { forall t | t in w.txs :: w.txs[t].lock != Exclusive }

  predicate OthersUnlocked(w: World, t: nat) { forall u | u in w.txs && u != t :: w.txs[u].lock == NoLock }

  predicate Enabled(d: Discipline, w: World, a: Action) {
    match a
    case Replace(t, _) => t !in w.txs && w.state == Draft && (d.lockInTrigger ==> NoneExclusive(w))
    case EditPlan(t, _) => t !in w.txs && w.state == Draft && Unlocked(w)
    case Check(t, to) =>
      && t !in w.txs && TransitionCatalog(w.state, to).Some?
      && (to == Validated ==> VersionComplete(w.rows))
      && (d.lockInCheck ==> Unlocked(w))
    case Commit(t) =>
      && t in w.txs
      && (w.txs[t].Moving? ==> OthersUnlocked(w, t) && (d.guardUpdate ==> w.state == w.txs[t].from))
    case Abort(t) => t in w.txs
  }

  function Next(d: Discipline, w: World, a: Action): World
    requires Enabled(d, w, a)
  {
    match a
    case Replace(t, delta) => w.(txs := w.txs[t := Editing(delta, if d.lockInTrigger then Shared else NoLock)])
    case EditPlan(t, delta) => w.(txs := w.txs[t := Editing(delta, Exclusive)])
    case Check(t, to) => w.(txs := w.txs[t := Moving(w.state, to, if d.lockInCheck then Exclusive else NoLock)])
    case Abort(t) => w.(txs := w.txs - {t})
    case Commit(t) =>
      match w.txs[t]
      case Editing(delta, _) => w.(rows := Apply(w.rows, delta), txs := w.txs - {t})
      case Moving(_, to, _) => w.(state := to, txs := w.txs - {t})
  }

  /** A draft with rows that the service can have stored. */
  predicate Starts(w: World) { w.state == Draft && w.txs == map[] && VersionRowsOk(w.rows) }

  predicate Follows(d: Discipline, run: seq<World>, actions: seq<Action>) {
    && |run| == |actions| + 1
    && forall i | 0 <= i < |actions| :: Enabled(d, run[i], actions[i]) && run[i + 1] == Next(d, run[i], actions[i])
  }

  predicate IsRun(d: Discipline, run: seq<World>, actions: seq<Action>) {
    Follows(d, run, actions) && Starts(run[0])
  }

  /** A commit leaves exactly the rows that the edit wrote, and those before it that the edit did not remove. */
  lemma EditLands(d: Discipline, w: World, t: nat)
    requires Enabled(d, w, Commit(t)) && w.txs[t].Editing?
    ensures var edit, after := w.txs[t].delta, Next(d, w, Commit(t));
            && after.state == w.state
            && (forall p :: p in after.rows.plans <==> p in edit.write.plans || (p in w.rows.plans && p !in edit.drop))
            && (forall p | p in after.rows.plans ::
                 after.rows.plans[p] == if p in edit.write.plans then edit.write.plans[p] else w.rows.plans[p])
            && (forall r :: r in after.rows.prices <==>
                 r in edit.write.prices || (r in w.rows.prices && r !in edit.drop))
            && (forall r | r in after.rows.prices ::
                 after.rows.prices[r] == if r in edit.write.prices then edit.write.prices[r] else w.rows.prices[r])
  {
  }

  // ---- the two promises ----

  predicate CommitsMove(w: World, a: Action) { a.Commit? && a.t in w.txs && w.txs[a.t].Moving? }

  /** The lifecycle: a transition that commits moves the state one legal step on, and nothing else moves it. */
  predicate LegalStep(w: World, a: Action, w': World) {
    if CommitsMove(w, a) then TransitionCatalog(w.state, w'.state).Some? else w'.state == w.state
  }

  /** Completeness: a version that is no longer a draft has a plan, and each of its plans a price. */
  predicate Kept(w: World) { w.state != Draft ==> VersionComplete(w.rows) }

  predicate StatesLegal(run: seq<World>, actions: seq<Action>)
    requires |run| == |actions| + 1
  {
    forall i | 0 <= i < |actions| :: LegalStep(run[i], actions[i], run[i + 1])
  }

  predicate ContentKept(run: seq<World>) { forall i | 0 <= i < |run| :: Kept(run[i]) }

  ghost predicate AlwaysLegal(d: Discipline) {
    forall run, actions | IsRun(d, run, actions) :: StatesLegal(run, actions)
  }

  ghost predicate AlwaysKept(d: Discipline) {
    forall run, actions | IsRun(d, run, actions) :: ContentKept(run)
  }

  // ---- which steps break them ----

  /** Transitions under way were legal from the state they found. */
  predicate Checked(w: World) {
    forall t | t in w.txs && w.txs[t].Moving? :: TransitionCatalog(w.txs[t].from, w.txs[t].to).Some?
  }

  /**
   * What a commit would have to look at: a transition finds the state it checked, and complete rows; an
   * edit finds a draft, or leaves the rows complete all the same.
   */
  predicate SafeCommit(w: World, a: Action) {
    a.Commit? && a.t in w.txs ==>
      match w.txs[a.t]
      case Editing(delta, _) => w.state == Draft || VersionComplete(Apply(w.rows, delta))
      case Moving(from, _, _) => w.state == from && VersionComplete(w.rows)
  }

  /** A step keeps both promises exactly if it is not an unsafe commit. */
  lemma StepSafeIff(d: Discipline, w: World, a: Action)
    requires Enabled(d, w, a) && Checked(w) && Kept(w)
    ensures Checked(Next(d, w, a))
    ensures LegalStep(w, a, Next(d, w, a)) && Kept(Next(d, w, a)) <==> SafeCommit(w, a)
  {
  }

  /** A run keeps both promises exactly if each of its commits was safe, under any discipline, the code's included. */
  lemma {:induction false} RunSafeIff(d: Discipline, run: seq<World>, actions: seq<Action>)
    requires IsRun(d, run, actions)
    ensures Checked(run[|actions|])
    ensures StatesLegal(run, actions) && ContentKept(run) <==>
            forall i | 0 <= i < |actions| :: SafeCommit(run[i], actions[i])
    decreases |actions|
  {
    if actions != [] {
      var n := |actions| - 1;
      RunSafeIff(d, run[..n + 1], actions[..n]);
      assert run[..n + 1][n] == run[n] && run == run[..n + 1] + [run[n + 1]];
      assert forall i | 0 <= i < n :: SafeCommit(run[..n + 1][i], actions[..n][i]) == SafeCommit(run[i], actions[i]);
      CheckedNext(d, run[n], actions[n]);
      if Kept(run[n]) {
        StepSafeIff(d, run[n], actions[n]);
      }
    }
  }

  lemma CheckedNext(d: Discipline, w: World, a: Action)
    requires Enabled(d, w, a) && Checked(w)
    ensures Checked(Next(d, w, a))
  {
  }

  // ---- which disciplines keep them ----

  /** With a lock from the check on, a transition under way excludes every other locking transaction. */
  predicate MovesAlone(w: World) {
    forall t | t in w.txs && w.txs[t].Moving? ::
      w.txs[t].lock == Exclusive && OthersUnlocked(w, t) && w.txs[t].from == w.state
  }

  lemma StepMovesAlone(d: Discipline, w: World, a: Action)
    requires d.lockInCheck && Enabled(d, w, a) && MovesAlone(w)
    ensures MovesAlone(Next(d, w, a))
  {
  }

  lemma {:induction false} GuardedIsLegal(d: Discipline, run: seq<World>, actions: seq<Action>)
    requires IsRun(d, run, actions) && (d.guardUpdate || d.lockInCheck)
    ensures StatesLegal(run, actions) && Checked(run[|actions|])
    ensures d.lockInCheck ==> MovesAlone(run[|actions|])
    decreases |actions|
  {
    if actions != [] {
      var n := |actions| - 1;
      GuardedIsLegal(d, run[..n + 1], actions[..n]);
      forall i | 0 <= i < n
        ensures LegalStep(run[i], actions[i], run[i + 1])
      {
        assert LegalStep(run[..n + 1][i], actions[..n][i], run[..n + 1][i + 1]);
      }
      CheckedNext(d, run[n], actions[n]);
      if d.lockInCheck {
        StepMovesAlone(d, run[n], actions[n]);
      }
    }
  }

  /** With locks in the check and the trigger, edits and transitions exclude each other. */
  predicate Serial(w: World) {
    && MovesAlone(w) && Checked(w) && Kept(w)
    && (forall t | t in w.txs :: w.txs[t].lock != NoLock)
    && (forall t | t in w.txs && w.txs[t].Editing? :: w.state == Draft)
    && (forall t | t in w.txs && w.txs[t].Moving? && w.txs[t].from == Draft :: VersionComplete(w.rows))
  }

  lemma StepKeepsSerial(d: Discipline, w: World, a: Action)
    requires d.lockInCheck && d.lockInTrigger && Enabled(d, w, a) && Serial(w)
    ensures Serial(Next(d, w, a))
  {
  }

  lemma {:induction false} LockedIsKept(d: Discipline, run: seq<World>, actions: seq<Action>)
    requires IsRun(d, run, actions) && d.lockInTrigger && d.lockInCheck
    ensures ContentKept(run) && Serial(run[|actions|])
    decreases |actions|
  {
    if actions != [] {
      var n := |actions| - 1;
      LockedIsKept(d, run[..n + 1], actions[..n]);
      StepKeepsSerial(d, run[n], actions[n]);
      forall i | 0 <= i < |run|
        ensures Kept(run[i])
      {
        assert i <= n ==> Kept(run[..n + 1][i]);
      }
    }
  }

  /**
   * The state moves legally in every run exactly under a guard in the update or a lock in the check: the
   * code, which has neither, does not keep its lifecycle.
   */
  lemma AlwaysLegalIff(d: Discipline)
    ensures AlwaysLegal(d) <==> d.guardUpdate || d.lockInCheck
  {
    if d.guardUpdate || d.lockInCheck {
      forall run, actions | IsRun(d, run, actions)
        ensures StatesLegal(run, actions)
      {
        GuardedIsLegal(d, run, actions);
      }
    } else {
      ClearedIsIncomplete();
      var run, actions := StateMovesBack(d, PRICED);
      assert !LegalStep(run[5], actions[5], run[5 + 1]);
    }
  }

  /**
   * What has been checked stays complete in every run exactly if both the trigger and the check lock the
   * state they read; a guard in the update makes no difference.
   */
  lemma AlwaysKeptIff(d: Discipline)
    ensures AlwaysKept(d) <==> d.lockInTrigger && d.lockInCheck
  {
    if d.lockInTrigger && d.lockInCheck {
      forall run, actions | IsRun(d, run, actions)
        ensures ContentKept(run)
      {
        LockedIsKept(d, run, actions);
      }
    } else if !d.lockInTrigger {
      ClearedIsIncomplete();
      var run, actions := PublishedIncomplete(d, PRICED, CLEARS);
      assert !Kept(run[6]);
    } else {
      ClearedIsIncomplete();
      var run, actions := StaleValidation(d, PRICED, CLEARS);
      assert !Kept(run[4]);
    }
  }

  // ---- runs that break them ----

  lemma Step(d: Discipline, run: seq<World>, actions: seq<Action>, a: Action)
    returns (run': seq<World>, actions': seq<Action>)
    requires Follows(d, run, actions) && Enabled(d, run[|actions|], a)
    ensures Follows(d, run', actions') && |actions'| == |actions| + 1
    ensures run'[..|run|] == run && actions'[..|actions|] == actions
    ensures actions'[|actions|] == a && run'[|run|] == Next(d, run[|actions|], a)
  {
    run', actions' := run + [Next(d, run[|actions|], a)], actions + [a];
  }

  const NINE_EUROS := Json(Some(FixedProperties(Some(900), "EUR")), None, None)

  /** One plan with one price, and the edit that removes both. */
  const PRICED := Rows(map[], map[1 := PlanRow(0, "basic", "Basic", Monthly, "EUR")],
                       map[2 := PriceRow(1, 0, None, Fixed, NINE_EUROS)], map[])
  const CLEARS := Delta({1, 2}, Rows(map[], map[], map[], map[]))

  lemma ClearedIsIncomplete()
    ensures VersionRowsOk(PRICED) && VersionComplete(PRICED) && !VersionComplete(Apply(PRICED, CLEARS))
  {
    assert Priced(PRICED, 1) by { assert 2 in PRICED.prices; }
    assert Apply(PRICED, CLEARS).plans == map[];
  }

  /** Transaction 2 publishes a validated version. */
  lemma Publish(d: Discipline, run: seq<World>, actions: seq<Action>) returns (run': seq<World>, actions': seq<Action>)
    requires Follows(d, run, actions)
    requires var w := run[|actions|]; w.state == Validated && 2 !in w.txs && Unlocked(w)
    ensures Follows(d, run', actions') && |actions'| == |actions| + 2 && run'[0] == run[0]
    ensures run'[|actions'|] == run[|actions|].(state := Published)
  {
    run', actions' := Step(d, run, actions, Check(2, Published));
    run', actions' := Step(d, run', actions', Commit(2));
    assert run[|actions|].txs[2 := run'[|actions| + 1].txs[2]] - {2} == run[|actions|].txs;
  }

  /** Two validations overlap, one commits, and the version is published. */
  lemma PublishOverlapped(d: Discipline, w: World) returns (run: seq<World>, actions: seq<Action>)
    requires w.state == Draft && w.txs == map[] && VersionComplete(w.rows) && !d.guardUpdate && !d.lockInCheck
    ensures Follows(d, run, actions) && |actions| == 5 && run[0] == w
    ensures run[5] == w.(state := Published, txs := map[1 := Moving(Draft, Validated, NoLock)])
  {
    run, actions := [w], [];
    run, actions := Step(d, run, actions, Check(0, Validated));
    run, actions := Step(d, run, actions, Check(1, Validated));
    run, actions := Step(d, run, actions, Commit(0));
    run, actions := Publish(d, run, actions);
  }

  /** From any complete rows: two validations that overlap take a published version back to validated. */
  lemma StateMovesBack(d: Discipline, rows: Rows) returns (run: seq<World>, actions: seq<Action>)
    requires !d.guardUpdate && !d.lockInCheck && VersionRowsOk(rows) && VersionComplete(rows)
    ensures IsRun(d, run, actions) && |run| == 7 && CommitsMove(run[5], actions[5])
    ensures run[5].state == Published && run[6].state == Validated
  {
    run, actions := PublishOverlapped(d, World(Draft, rows, map[]));
    run, actions := Step(d, run, actions, Commit(1));
  }

  /** A validation and a publication while an edit is under way that holds no lock. */
  lemma PublishUnderEdit(d: Discipline, w: World, edit: Delta) returns (run: seq<World>, actions: seq<Action>)
    requires w.state == Draft && w.txs == map[] && VersionComplete(w.rows) && !d.lockInTrigger
    ensures Follows(d, run, actions) && |actions| == 5 && run[0] == w
    ensures run[5] == w.(state := Published, txs := map[0 := Editing(edit, NoLock)])
  {
    run, actions := [w], [];
    run, actions := Step(d, run, actions, Replace(0, edit));
    run, actions := Step(d, run, actions, Check(1, Validated));
    run, actions := Step(d, run, actions, Commit(1));
    run, actions := Publish(d, run, actions);
  }

  /**
   * From any complete rows: an edit that leaves them incomplete, begun before the validation, commits after
   * publication.
   */
  lemma PublishedIncomplete(d: Discipline, rows: Rows, edit: Delta) returns (run: seq<World>, actions: seq<Action>)
    requires !d.lockInTrigger && VersionRowsOk(rows) && VersionComplete(rows) && !VersionComplete(Apply(rows, edit))
    ensures IsRun(d, run, actions) && |run| == 7
    ensures run[6].state == Published && !VersionComplete(run[6].rows)
  {
    run, actions := PublishUnderEdit(d, World(Draft, rows, map[]), edit);
    run, actions := Step(d, run, actions, Commit(0));
  }

  /** From any complete rows: such an edit begins and commits between a validation's check and its commit. */
  lemma StaleValidation(d: Discipline, rows: Rows, edit: Delta) returns (run: seq<World>, actions: seq<Action>)
    requires !d.lockInCheck && VersionRowsOk(rows) && VersionComplete(rows) && !VersionComplete(Apply(rows, edit))
    ensures IsRun(d, run, actions) && |run| == 5
    ensures run[4].state == Validated && !VersionComplete(run[4].rows)
  {
    run, actions := [World(Draft, rows, map[])], [];
    run, actions := Step(d, run, actions, Check(0, Validated));
    run, actions := Step(d, run, actions, Replace(1, edit));
    run, actions := Step(d, run, actions, Commit(1));
    run, actions := Step(d, run, actions, Commit(0));
  }
}
