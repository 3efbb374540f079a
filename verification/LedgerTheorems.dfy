/** The promises of the action authority, stated over every run. */
module LedgerTheorems {
  import opened Common
  import opened Ledger
  import opened LedgerInvariants
  import opened LedgerRuns

  /******* Counting what happened to one action along a run *******/

  function StatusOf(w: World, a: nat): Option<ActionStatus> {
    if a < |w.db.actions| then Some(w.db.actions[a].status) else None
  }

  function Count(b: bool): nat {
    if b then 1 else 0
  }

  /** Number of steps at which action `a` entered the executing state. */
  function Entries(w: World, steps: seq<Step>, a: nat): nat
    decreases |steps|
  {
    if steps == [] then 0
    else
      var v := Next(w, steps[0]);
      Count(StatusOf(w, a) != Some(Executing) && StatusOf(v, a) == Some(Executing)) + Entries(v, steps[1..], a)
  }

  /** Number of steps at which an execution of `a` was given an outcome. */
  function Settlements(w: World, steps: seq<Step>, a: nat): nat
    decreases |steps|
  {
    if steps == [] then 0
    else
      var v := Next(w, steps[0]);
      Count(StatusOf(w, a) == Some(Executing) && StatusOf(v, a) != Some(Executing)) + Settlements(v, steps[1..], a)
  }

  /** Number of dispatches of action `a` in a log. */
  function DispatchCount(log: seq<Dispatch>, a: nat): nat {
    if log == [] then 0 else DispatchCount(log[1..], a) + Count(log[0].action == a)
  }

  lemma StepMoves(w: World, step: Step, a: nat)
    requires WorldInv(w)
    ensures StatusOf(w, a).Some? ==>
      StatusOf(Next(w, step), a).Some? && Moves(StatusOf(w, a).value, StatusOf(Next(w, step), a).value)
    ensures a < |w.db.actions| ==> RowEvolves(w.db.actions[a], Next(w, step).db.actions[a])
                                   || Next(w, step).db.actions[a] == w.db.actions[a]
  {
    NextCommits(w, step);
    match Committed(w, step)
    case Some((tx, now)) => CommitEvolves(w.db, tx, now);
    case None =>
  }

  /** Succeeded, failed, cancelled and uncertain are absorbing along every run. */
  lemma {:induction false} OutcomesAbsorb(w: World, steps: seq<Step>, a: nat)
    requires WorldInv(w) && StatusOf(w, a).Some? && Terminal(StatusOf(w, a).value)
    ensures StatusOf(Run(w, steps), a) == StatusOf(w, a)
    decreases |steps|
  {
    if steps != [] {
      StepMoves(w, steps[0], a);
      NextKeepsInv(w, steps[0]);
      OutcomesAbsorb(Next(w, steps[0]), steps[1..], a);
    }
  }

  /** An action enters execution at most once, and not at all once it has left the prepared state. */
  lemma {:induction false} EntersAtMostOnce(w: World, steps: seq<Step>, a: nat)
    requires WorldInv(w)
    ensures Entries(w, steps, a) <= Count(StatusOf(w, a) in {None, Some(Prepared)})
    decreases |steps|
  {
    if steps != [] {
      StepMoves(w, steps[0], a);
      NextKeepsInv(w, steps[0]);
      EntersAtMostOnce(Next(w, steps[0]), steps[1..], a);
    }
  }

  /** Every execution entered is settled exactly once or is still executing. */
  lemma {:induction false} ExecutionsConserved(w: World, steps: seq<Step>, a: nat)
    ensures Count(StatusOf(w, a) == Some(Executing)) + Entries(w, steps, a)
         == Settlements(w, steps, a) + Count(StatusOf(Run(w, steps), a) == Some(Executing))
    decreases |steps|
  {
    if steps != [] { ExecutionsConserved(Next(w, steps[0]), steps[1..], a); }
  }

  /**
   Whatever races for an executing action (a late completion, stale sweepers, an
   interruption), exactly one of them decides its outcome.
   */
  lemma OneRacerSettles(w: World, steps: seq<Step>, a: nat)
    requires WorldInv(w) && StatusOf(w, a) == Some(Executing)
    ensures StatusOf(Run(w, steps), a) == Some(Executing) ==> Settlements(w, steps, a) == 0
    ensures StatusOf(Run(w, steps), a) != Some(Executing) ==> Settlements(w, steps, a) == 1
  {
    EntersAtMostOnce(w, steps, a);
    ExecutionsConserved(w, steps, a);
  }

  /** A racer that comes when the outcome is decided, a late completion or a sweeper, changes no row at all. */
  lemma LateRacerChangesNothing(w: World, step: Step, a: nat)
    requires WorldInv(w) && StatusOf(w, a).Some? && StatusOf(w, a) != Some(Executing)
    requires match step
      case Finish(c, _, _) => c in w.clients && w.clients[c].Awaiting? && w.clients[c].action == a
      case SweepNext(q, _) => q in w.sweeps && w.sweeps[q].rows != [] && w.sweeps[q].rows[0] == a
      case _ => false
    ensures Next(w, step).db == w.db
  {
  }

  lemma {:induction false} DispatchCountBound(log: seq<Dispatch>, a: nat)
    requires DispatchedOnce(log)
    ensures DispatchCount(log, a) <= 1
    ensures (forall i :: 0 <= i < |log| ==> log[i].action != a) ==> DispatchCount(log, a) == 0
    decreases |log|
  {
    if log != [] {
      assert forall i :: 0 <= i < |log[1..]| ==> log[1..][i] == log[i + 1];
      assert DispatchedOnce(log[1..]);
      DispatchCountBound(log[1..], a);
    }
  }

  /** In every run each action is executed at most once, settled at most once and dispatched at most once. */
  lemma AtMostOnce(steps: seq<Step>, a: nat)
    ensures Entries(Start, steps, a) <= 1
    ensures Settlements(Start, steps, a) <= 1
    ensures DispatchCount(Run(Start, steps).dispatched, a) <= 1
  {
    EntersAtMostOnce(Start, steps, a);
    ExecutionsConserved(Start, steps, a);
    ReachableInv(steps);
    DispatchCountBound(Run(Start, steps).dispatched, a);
  }

  /******* What is dispatched is what was proposed *******/

  lemma {:induction false} RowsKeepIdentity(w: World, steps: seq<Step>, a: nat)
    requires WorldInv(w) && a < |w.db.actions|
    ensures a < |Run(w, steps).db.actions|
    ensures var x, y := w.db.actions[a], Run(w, steps).db.actions[a];
      x.targetHash == y.targetHash && x.operation == y.operation && x.runId == y.runId && x.automatic == y.automatic
    decreases |steps|
  {
    if steps != [] {
      StepMoves(w, steps[0], a);
      NextKeepsInv(w, steps[0]);
      RowsKeepIdentity(Next(w, steps[0]), steps[1..], a);
    }
  }

  /**
   A proposal is prepared in some reachable state, and any steps follow, including ones that
   rewrite its stored evidence.  If its action is dispatched at all, then with the operation and
   arguments that were proposed, under an approval of the digest that seals them together with
   the principal and capability, given less than an hour after the proposal was created.
   */
  lemma DispatchedAsProposed(before: seq<Step>, after: seq<Step>, r: nat, operation: string, arguments: Arguments,
                             capabilityId: string, created: int, i: nat)
    requires Apply(Run(Start, before).db, TxPrepare(r, operation, arguments, capabilityId), created).Ok?
    requires var w := Run(Start, before);
      var v := Run(Next(w, Transact(TxPrepare(r, operation, arguments, capabilityId), created)), after);
      i < |v.dispatched| && v.dispatched[i].action == |w.db.actions|
    ensures var w := Run(Start, before);
      var v := Run(Next(w, Transact(TxPrepare(r, operation, arguments, capabilityId), created)), after);
      var d := v.dispatched[i];
      && d.operation == operation && d.arguments == arguments
      && d.approval.Some?
      && d.approval.value.at < created + PROPOSAL_TTL
      && d.approval.value.hash
         == Sealed(operation, arguments, created, created + PROPOSAL_TTL, CapabilityOf(operation, capabilityId))
  {
    var w := Run(Start, before);
    ReachableInv(before);
    var step := Transact(TxPrepare(r, operation, arguments, capabilityId), created);
    var u := Next(w, step);
    NextKeepsInv(w, step);
    assert u.db.actions[|w.db.actions|].targetHash ==
      Sealed(operation, arguments, created, created + PROPOSAL_TTL, CapabilityOf(operation, capabilityId));
    assert !u.db.actions[|w.db.actions|].automatic;
    RowsKeepIdentity(u, after, |w.db.actions|);
    RunKeepsInv(u, after);
    var v := Run(u, after);
    assert DispatchOk(v.db.actions, v.dispatched[i]);
  }

  /**
   One approval, whatever was written over the stored evidence: a proposal verifies if and only if it still renders to
   the operation, arguments, principal, times and capability it was prepared with, and its hour has not passed.
   */
  lemma ApprovalBindsProposal(action: ActionRow, arguments: Arguments, created: int, capabilityId: string, now: int)
    requires action.targetHash == Sealed(action.operation, arguments, created, created + PROPOSAL_TTL, capabilityId)
    ensures var p := action.proposal;
      VerifyProposal(action, now).Ok? <==>
        && p.Stored?
        && p.operation == Str(Plain(action.operation)) && p.principal == Str(Plain(OWNER_PRINCIPAL))
        && p.arguments == arguments && PyStr(p.capabilityId) == Plain(capabilityId)
        && PyStr(p.createdAt) == Iso(created) && PyStr(p.expiresAt) == Iso(created + PROPOSAL_TTL)
        && now < created + PROPOSAL_TTL
    ensures VerifyProposal(action, now).Ok? ==> VerifyProposal(action, now).value == action.proposal
  {
    if action.proposal.Stored? {
      assert StoredDigest(action.proposal) == action.targetHash <==>
        StoredDigest(action.proposal).payload == action.targetHash.payload;
    }
  }

  /******* Attention agrees with actions *******/

  /** All attention rows that name action `a`. */
  ghost function RowsOf(attention: seq<AttentionRow>, a: nat): set<nat> {
    set k: nat | k < |attention| && attention[k].actionId == Some(a)
  }

  ghost function UnresolvedOf(attention: seq<AttentionRow>, a: nat): set<nat> {
    set k: nat | k < |attention| && IsOpen(attention[k], a)
  }

  /** In every reachable state the attention table says exactly what the owner still owes each action. */
  lemma AttentionAgreesWithActions(steps: seq<Step>, a: nat)
    requires a < |Run(Start, steps).db.actions|
    ensures var db := Run(Start, steps).db;
      var rows, open := RowsOf(db.attention, a), UnresolvedOf(db.attention, a);
      && |rows| <= 1
      && (db.actions[a].status == Prepared ==> |open| == 1)
      && (db.actions[a].status in {Succeeded, Failed, Cancelled} ==> open == {})
      && (db.actions[a].status == Uncertain ==>
            |rows| == 1 && (open == {} <==> db.actions[a].acknowledgedAt.Some?))
  {
    ReachableInv(steps);
    var db := Run(Start, steps).db;
    var rows, open := RowsOf(db.attention, a), UnresolvedOf(db.attention, a);
    forall k | k in rows ensures rows == {k} && open <= {k} && RowAgrees(db.actions[a], db.attention[k]) {
    }
    if db.actions[a].status in {Prepared, Uncertain} {
      assert HasRow(db.attention, a);
      var k: nat :| k < |db.attention| && db.attention[k].actionId == Some(a);
      assert k in rows;
      assert IsOpen(db.attention[k], a) <==> k in open;
      assert open == {} || open == {k};
    } else if rows != {} {
      var k :| k in rows;
      assert rows == {k};
    }
  }

  /******* Checkpoint pruning *******/

  /** The test that removes an action from a transcript's pending list. */
  predicate Prunable(db: Db, a: nat) {
    && a < |db.actions|
    && (|| db.actions[a].status in {Succeeded, Failed, Cancelled}
        || (db.actions[a].status == Uncertain
            && (db.actions[a].acknowledgedAt.Some? || AttentionSettled(db.attention, a))))
  }

  /** Attention for the action was seen, and none of it is open. */
  predicate AttentionSettled(attention: seq<AttentionRow>, a: nat) {
    && (exists k :: 0 <= k < |attention| && attention[k].actionId == Some(a))
    && (forall k :: 0 <= k < |attention| ==> !IsOpen(attention[k], a))
  }

  predicate NeedsOwner(db: Db, a: nat) {
    exists k :: 0 <= k < |db.attention| && IsOpen(db.attention[k], a)
  }

  /** The two tests for a settled uncertain action agree in every reachable state. */
  lemma SettledTestsAgree(db: Db, a: nat)
    requires Inv(db) && a < |db.actions| && db.actions[a].status == Uncertain
    ensures db.actions[a].acknowledgedAt.Some? <==> AttentionSettled(db.attention, a)
  {
    assert HasRow(db.attention, a);
    var k :| 0 <= k < |db.attention| && db.attention[k].actionId == Some(a);
    assert RowAgrees(db.actions[a], db.attention[k]);
    assert IsOpen(db.attention[k], a) <==> db.actions[a].acknowledgedAt.None?;
    forall j | 0 <= j < |db.attention| && j != k ensures !IsOpen(db.attention[j], a) {
    }
  }

  lemma PrunableStaysPrunable(w: World, step: Step, a: nat)
    requires WorldInv(w) && Prunable(w.db, a)
    ensures Prunable(Next(w, step).db, a)
  {
    StepMoves(w, step, a);
    NextKeepsInv(w, step);
    if w.db.actions[a].status == Uncertain {
      SettledTestsAgree(w.db, a);
      SettledTestsAgree(Next(w, step).db, a);
    }
  }

  /** A pruned action can never again be executing, be prepared, or need the owner. */
  lemma {:induction false} PruningIsSafe(w: World, steps: seq<Step>, a: nat)
    requires WorldInv(w) && Prunable(w.db, a)
    ensures var v := Run(w, steps);
      Prunable(v.db, a) && v.db.actions[a].status !in {Prepared, Executing} && !NeedsOwner(v.db, a)
    decreases |steps|
  {
    if steps == [] {
      forall k | 0 <= k < |w.db.attention| ensures !IsOpen(w.db.attention[k], a) {
        if w.db.attention[k].actionId == Some(a) {
          assert RowAgrees(w.db.actions[a], w.db.attention[k]);
          if w.db.actions[a].status == Uncertain { SettledTestsAgree(w.db, a); }
        }
      }
    } else {
      PrunableStaysPrunable(w, steps[0], a);
      NextKeepsInv(w, steps[0]);
      PruningIsSafe(Next(w, steps[0]), steps[1..], a);
    }
  }

  /******* Runs and sweepers *******/

  /** Once any action of a run is uncertain, the run is uncertain and unfinished from then on. */
  lemma UncertainForever(w: World, steps: seq<Step>, a: nat)
    requires WorldInv(w) && StatusOf(w, a) == Some(Uncertain)
    ensures a < |Run(w, steps).db.actions|
    ensures var v := Run(w, steps);
      w.db.actions[a].runId < |v.db.runs| && Pinned(v.db.runs[w.db.actions[a].runId])
  {
    OutcomesAbsorb(w, steps, a);
    RowsKeepIdentity(w, steps, a);
    RunKeepsInv(w, steps);
  }

  /**
   In every reachable state a sweeper turns uncertain only an execution that began before its
   bound, and never one whose run still has a live inference with a fresh heartbeat.
   */
  lemma SweeperIsConservative(steps: seq<Step>, q: nat, now: int, a: nat)
    requires var w := Run(Start, steps);
      StatusOf(w, a) == Some(Executing) && StatusOf(Next(w, SweepNext(q, now)), a) == Some(Uncertain)
    ensures var w := Run(Start, steps);
      && q in w.sweeps
      && w.db.actions[a].startedAt.Some? && w.db.actions[a].startedAt.value < w.sweeps[q].staleBefore
      && !HeartbeatFresh(w.db, w.db.actions[a].runId, w.sweeps[q].staleBefore)
  {
    ReachableInv(steps);
    var w := Run(Start, steps);
    assert w.sweeps[q].rows != [];
    assert OldEnough(w.db.actions, w.sweeps[q].rows[0], w.sweeps[q].staleBefore);
  }

  /** Recording a finished execution while inference is active never makes the stored status stale. */
  lemma RecordingWhileActiveAgrees(db: Db, r: nat, operation: string, arguments: Arguments, succeeded: bool, now: int)
    requires Inv(db) && Agrees(db, r) && db.runs[r].inferenceActive
    ensures Agrees(Commit(db, TxRecord(r, operation, arguments, succeeded), now), r)
  {
    AgreementKeptExactly(db, TxRecord(r, operation, arguments, succeeded), now, r);
  }

  /** A reachable state whose stored run status is not the derived one. */
  lemma StoredStatusCanBeStale()
    ensures exists steps :: var db := Run(Start, steps).db; 0 < |db.runs| && !Agrees(db, 0)
  {
    var s0 := Transact(TxCreateRun(None, Foreground), 0);
    var s1 := Transact(TxPrepare(0, "gmail.message.send", map[], "gmail"), 1);
    var s2 := Transact(TxBeginAutomatic(0, "storage.write", map[], "storage"), 2);
    var w1 := Next(Start, s0);
    var w2 := Next(w1, s1);
    var w3 := Next(w2, s2);
    RunThree(s0, s1, s2);
    RefreshAgrees(w1.db, s1.tx, 1, 0);
    assert w2.db.actions[0].status == Prepared && w2.db.actions[0].runId == 0;
    assert Prepared in Statuses(w2.db.actions, 0);
    assert w2.db.runs[0].status == RunWaiting;
    AgreementKeptExactly(w2.db, s2.tx, 2, 0);
    assert !Agrees(w3.db, 0) && Run(Start, [s0, s1, s2]) == w3;
  }

  lemma RunThree(s0: Step, s1: Step, s2: Step)
    ensures WorldInv(Next(Start, s0)) && WorldInv(Next(Next(Start, s0), s1))
    ensures Run(Start, [s0, s1, s2]) == Next(Next(Next(Start, s0), s1), s2)
  {
    NextKeepsInv(Start, s0);
    NextKeepsInv(Next(Start, s0), s1);
    assert [s0, s1, s2][1..] == [s1, s2];
    assert [s1, s2][1..] == [s2];
    assert Run(Next(Next(Start, s0), s1), [s2]) == Run(Next(Next(Next(Start, s0), s1), s2), []);
  }

  /******* The stale sweep as a whole *******/

  /** An execution the sweep must give up on. */
  predicate Abandoned(db: Db, a: nat, staleBefore: int) {
    a < |db.actions| && IsStale(db.actions[a], staleBefore) && !HeartbeatFresh(db, db.actions[a].runId, staleBefore)
  }

  /** One row of a sweep: the rows it leaves, and whether it settled the execution. */
  function SweepOne(db: Db, a: nat, staleBefore: int): (Db, bool) {
    if a < |db.actions| && SweepRow(db, a, staleBefore).Ok? && SweepRow(db, a, staleBefore).value.Some?
    then (SweepRow(db, a, staleBefore).value.value, true)
    else (db, false)
  }

  /** The rows left by sweeping `rows` in order, and how many of them were settled. */
  function SweepAll(db: Db, rows: seq<nat>, staleBefore: int): (Db, nat) {
    if rows == [] then (db, 0)
    else
      var (d, n) := SweepAll(db, rows[..|rows| - 1], staleBefore);
      var (e, moved) := SweepOne(d, rows[|rows| - 1], staleBefore);
      (e, n + Count(moved))
  }

  lemma SweepAllSnoc(db: Db, front: seq<nat>, a: nat, staleBefore: int)
    ensures var (d, n) := SweepAll(db, front, staleBefore);
      var (e, moved) := SweepOne(d, a, staleBefore);
      SweepAll(db, front + [a], staleBefore) == (e, n + Count(moved))
  {
    assert (front + [a])[..|front|] == front;
  }

  ghost predicate LivenessKept(x: seq<RunRow>, y: seq<RunRow>) {
    |x| == |y| && forall r :: 0 <= r < |x| ==>
      y[r].inferenceActive == x[r].inferenceActive && y[r].heartbeatAt == x[r].heartbeatAt
  }

  ghost predicate Swept(x: seq<ActionRow>, y: seq<ActionRow>, settled: set<nat>) {
    |x| == |y| && forall a :: 0 <= a < |x| ==>
      y[a] == if a in settled then x[a].(status := Uncertain) else x[a]
  }

  ghost function AbandonedBelow(db: Db, k: nat, staleBefore: int): set<nat> {
    set a: nat | a < k && Abandoned(db, a, staleBefore)
  }

  /** Giving up on one more abandoned row. */
  lemma SweepStep(db: Db, d: Db, settled: set<nat>, a: nat, staleBefore: int)
    requires Swept(db.actions, d.actions, settled) && LivenessKept(db.runs, d.runs)
    requires a < |db.actions| && a !in settled && IsStale(db.actions[a], staleBefore)
    requires SweepRow(d, a, staleBefore).Ok?
    ensures var (e, moved) := SweepOne(d, a, staleBefore);
      && (moved <==> Abandoned(db, a, staleBefore))
      && LivenessKept(db.runs, e.runs)
      && Swept(db.actions, e.actions, settled + (if moved then {a} else {}))
  {
    assert d.actions[a] == db.actions[a];
    assert HeartbeatFresh(d, d.actions[a].runId, staleBefore) == HeartbeatFresh(db, db.actions[a].runId, staleBefore);
    var (e, moved) := SweepOne(d, a, staleBefore);
    if moved { MarkScopeFull(d, a); }
  }

  lemma MarkScopeFull(d: Db, a: nat)
    requires a < |d.actions| && MarkUncertain(WithStatus(d, a, Uncertain), a).Ok?
    ensures var e := MarkUncertain(WithStatus(d, a, Uncertain), a).value;
      && e.actions == d.actions[a := d.actions[a].(status := Uncertain)]
      && LivenessKept(d.runs, e.runs)
  {
  }

  lemma AbandonedBelowStep(db: Db, k: nat, staleBefore: int)
    ensures AbandonedBelow(db, k + 1, staleBefore)
         == AbandonedBelow(db, k, staleBefore) + (if Abandoned(db, k, staleBefore) then {k} else {})
    ensures k !in AbandonedBelow(db, k, staleBefore)
    ensures |AbandonedBelow(db, k + 1, staleBefore)|
         == |AbandonedBelow(db, k, staleBefore)| + Count(Abandoned(db, k, staleBefore))
  {
    var x, y := AbandonedBelow(db, k, staleBefore), AbandonedBelow(db, k + 1, staleBefore);
    assert y == x + (if Abandoned(db, k, staleBefore) then {k} else {});
  }

  lemma StaleRowsStep(actions: seq<ActionRow>, k: nat, staleBefore: int)
    requires k < |actions|
    ensures StaleRows(actions[..k + 1], staleBefore)
         == StaleRows(actions[..k], staleBefore) + (if IsStale(actions[k], staleBefore) then [k] else [])
  {
    assert actions[..k + 1][..k] == actions[..k];
  }

  lemma SweepRowInv(d: Db, a: nat, staleBefore: int)
    requires Inv(d) && a < |d.actions|
    ensures SweepRow(d, a, staleBefore).Ok?
    ensures SweepRow(d, a, staleBefore).value.Some? ==> Inv(SweepRow(d, a, staleBefore).value.value)
  {
    if d.actions[a].status == Executing { UncertainKeeps(d, a); }
  }

  lemma {:induction false} SweepAllKeepsInv(db: Db, rows: seq<nat>, staleBefore: int)
    requires Inv(db)
    ensures Inv(SweepAll(db, rows, staleBefore).0)
    decreases |rows|
  {
    if rows != [] {
      SweepAllKeepsInv(db, rows[..|rows| - 1], staleBefore);
      var d := SweepAll(db, rows[..|rows| - 1], staleBefore).0;
      if rows[|rows| - 1] < |d.actions| { SweepRowInv(d, rows[|rows| - 1], staleBefore); }
    }
  }

  lemma SweepRowReady(db: Db, front: seq<nat>, a: nat, staleBefore: int)
    requires Inv(db) && a < |SweepAll(db, front, staleBefore).0.actions|
    ensures SweepRow(SweepAll(db, front, staleBefore).0, a, staleBefore).Ok?
  {
    SweepAllKeepsInv(db, front, staleBefore);
    SweepRowInv(SweepAll(db, front, staleBefore).0, a, staleBefore);
  }

  /** A sweep of the first `k` actions settles exactly the abandoned ones, and counts them. */
  ghost predicate SweepExact(db: Db, k: nat, staleBefore: int)
    requires k <= |db.actions|
  {
    var (d, n) := SweepAll(db, StaleRows(db.actions[..k], staleBefore), staleBefore);
    && LivenessKept(db.runs, d.runs)
    && Swept(db.actions, d.actions, AbandonedBelow(db, k, staleBefore))
    && n == |AbandonedBelow(db, k, staleBefore)|
  }

  lemma SweepNone(db: Db, staleBefore: int)
    ensures SweepExact(db, 0, staleBefore)
  {
    assert db.actions[..0] == [] && StaleRows([], staleBefore) == [];
    assert AbandonedBelow(db, 0, staleBefore) == {};
  }

  lemma SweepSkips(db: Db, k: nat, staleBefore: int)
    requires k < |db.actions| && SweepExact(db, k, staleBefore) && !IsStale(db.actions[k], staleBefore)
    ensures SweepExact(db, k + 1, staleBefore)
  {
    StaleRowsStep(db.actions, k, staleBefore);
    AbandonedBelowStep(db, k, staleBefore);
    var rows := StaleRows(db.actions[..k], staleBefore);
    assert rows + [] == rows && AbandonedBelow(db, k, staleBefore) + {} == AbandonedBelow(db, k, staleBefore);
  }

  lemma SweepTakes(db: Db, k: nat, staleBefore: int)
    requires Inv(db) && k < |db.actions| && SweepExact(db, k, staleBefore) && IsStale(db.actions[k], staleBefore)
    ensures SweepExact(db, k + 1, staleBefore)
  {
    var rows, settled := StaleRows(db.actions[..k], staleBefore), AbandonedBelow(db, k, staleBefore);
    var (d, n) := SweepAll(db, rows, staleBefore);
    StaleRowsStep(db.actions, k, staleBefore);
    AbandonedBelowStep(db, k, staleBefore);
    SweepAllSnoc(db, rows, k, staleBefore);
    SweepRowReady(db, rows, k, staleBefore);
    SweepStep(db, d, settled, k, staleBefore);
  }

  lemma SweepMore(db: Db, k: nat, staleBefore: int)
    requires Inv(db) && k < |db.actions| && SweepExact(db, k, staleBefore)
    ensures SweepExact(db, k + 1, staleBefore)
  {
    if IsStale(db.actions[k], staleBefore) { SweepTakes(db, k, staleBefore); } else { SweepSkips(db, k, staleBefore); }
  }

  lemma {:induction false} SweepBelow(db: Db, k: nat, staleBefore: int)
    requires Inv(db) && k <= |db.actions|
    ensures SweepExact(db, k, staleBefore)
    decreases k
  {
    if k == 0 {
      SweepNone(db, staleBefore);
    } else {
      SweepBelow(db, k - 1, staleBefore);
      SweepMore(db, k - 1, staleBefore);
    }
  }

  /** Sweeping every stale row settles exactly the abandoned executions of the table. */
  lemma SweepOutcome(db: Db, staleBefore: int)
    requires Inv(db)
    ensures var (d, n) := SweepAll(db, StaleRows(db.actions, staleBefore), staleBefore);
      var abandoned := AbandonedBelow(db, |db.actions|, staleBefore);
      LivenessKept(db.runs, d.runs) && Swept(db.actions, d.actions, abandoned) && n == |abandoned|
  {
    SweepBelow(db, |db.actions|, staleBefore);
    assert db.actions[..|db.actions|] == db.actions;
  }
}
