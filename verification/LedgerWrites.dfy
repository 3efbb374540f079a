/** What each transaction writes, row by row, told apart from the functions that compute it. */
module LedgerWrites {
  import opened Common
  import opened Ledger
  import opened LedgerInvariants

  /******* What a run's status says about its actions *******/

  ghost predicate Owns(actions: seq<ActionRow>, r: nat, s: ActionStatus) {
    exists a :: 0 <= a < |actions| && actions[a].runId == r && actions[a].status == s
  }

  ghost predicate OwnsOnly(actions: seq<ActionRow>, r: nat, allowed: set<ActionStatus>) {
    forall a :: 0 <= a < |actions| && actions[a].runId == r ==> actions[a].status in allowed
  }

  /** Nothing of the run is under way, waited for or in doubt. */
  ghost predicate Over(actions: seq<ActionRow>, r: nat, run: RunRow) {
    !run.inferenceActive && OwnsOnly(actions, r, {Succeeded, Failed, Cancelled})
  }

  ghost predicate Unbroken(run: RunRow) {
    run.inference != InferenceFailed && run.inference != InferenceInterrupted
  }

  /** What each label of a run promises about its actions and its inference. */
  ghost predicate Means(status: RunStatus, actions: seq<ActionRow>, r: nat, run: RunRow) {
    match status
    case RunUncertain => Owns(actions, r, Uncertain)
    case RunRunning =>
      && OwnsOnly(actions, r, {Prepared, Executing, Succeeded, Failed, Cancelled})
      && (Owns(actions, r, Executing) || (run.inferenceActive && !Owns(actions, r, Prepared)))
    case RunWaiting => OwnsOnly(actions, r, {Prepared, Succeeded, Failed, Cancelled}) && Owns(actions, r, Prepared)
    case RunInterrupted => Over(actions, r, run) && run.inference == InferenceInterrupted
    case RunFailed =>
      && Over(actions, r, run) && run.inference != InferenceInterrupted
      && (run.inference == InferenceFailed || Owns(actions, r, Failed))
    case RunCancelled =>
      && !run.inferenceActive && Unbroken(run)
      && OwnsOnly(actions, r, {Succeeded, Cancelled}) && Owns(actions, r, Cancelled)
    case RunSucceeded => !run.inferenceActive && Unbroken(run) && OwnsOnly(actions, r, {Succeeded})
    case RunQueued => false
  }

  lemma StatusOwned(actions: seq<ActionRow>, r: nat, s: ActionStatus)
    ensures s in Statuses(actions, r) <==> Owns(actions, r, s)
  {
  }

  lemma OwnedOnly(actions: seq<ActionRow>, r: nat, allowed: set<ActionStatus>)
    ensures OwnsOnly(actions, r, allowed) <==> Statuses(actions, r) <= allowed
  {
    if Statuses(actions, r) <= allowed {
      forall a | 0 <= a < |actions| && actions[a].runId == r ensures actions[a].status in allowed {
        StatusPresent(actions, a);
      }
    }
  }

  /** The derived status is the one label whose promise holds, and it is a final one exactly when the run is over. */
  lemma DerivedExactly(actions: seq<ActionRow>, r: nat, run: RunRow, status: RunStatus)
    ensures Derived(Statuses(actions, r), run) == status <==> Means(status, actions, r, run)
    ensures Finished(Derived(Statuses(actions, r), run)) <==> Over(actions, r, run)
  {
    forall s ensures s in Statuses(actions, r) <==> Owns(actions, r, s) { StatusOwned(actions, r, s); }
    forall allowed ensures OwnsOnly(actions, r, allowed) <==> Statuses(actions, r) <= allowed {
      OwnedOnly(actions, r, allowed);
    }
  }

  /** The row of run `r` got the status its actions call for and the matching finish time; no other row changed. */
  ghost predicate Refreshed(was: seq<RunRow>, db: Db, r: nat, now: int) {
    && OthersUntouched(was, db.runs, r)
    && (r < |was| ==>
          && db.runs[r] == was[r].(status := db.runs[r].status, finishedAt := db.runs[r].finishedAt)
          && Means(db.runs[r].status, db.actions, r, was[r])
          && db.runs[r].finishedAt == if Over(db.actions, r, was[r]) then Some(now) else None)
  }

  lemma RecomputeWrites(db: Db, r: nat, now: int)
    ensures Refreshed(db.runs, Recompute(db, r, now), r, now)
  {
    if r < |db.runs| {
      DerivedExactly(db.actions, r, db.runs[r], Recompute(db, r, now).runs[r].status);
    }
  }

  /******* The attention table *******/

  ghost predicate OneOpen(attention: seq<AttentionRow>, a: nat) {
    forall j, k :: 0 <= j < k < |attention| && IsOpen(attention[j], a) ==> !IsOpen(attention[k], a)
  }

  ghost predicate NoneOpen(attention: seq<AttentionRow>, a: nat) {
    forall k :: 0 <= k < |attention| ==> !IsOpen(attention[k], a)
  }

  /** Whatever was open about the action is resolved; no other row changed. */
  ghost predicate Resolved(x: seq<AttentionRow>, y: seq<AttentionRow>, a: nat, now: int) {
    |y| == |x| && forall k :: 0 <= k < |x| ==>
      y[k] == if x[k].actionId == Some(a) && !x[k].resolved
              then x[k].(resolved := true, resolvedAt := Some(now)) else x[k]
  }

  /** An open row says that the action's effect is in doubt: the one there was, or a new one. */
  ghost predicate InDoubt(x: seq<AttentionRow>, y: seq<AttentionRow>, a: nat, r: nat) {
    if NoneOpen(x, a) then y == x + [AttentionRow(r, Some(a), UncertainEffect, false, None)]
    else
      |y| == |x| && forall k :: 0 <= k < |x| ==>
        y[k] == if x[k].actionId == Some(a) && !x[k].resolved then x[k].(state := UncertainEffect) else x[k]
  }

  lemma OpenRowsCount(attention: seq<AttentionRow>, a: nat)
    ensures |OpenRows(attention, a)| <= 1 <==> OneOpen(attention, a)
    ensures OpenRows(attention, a) == [] <==> NoneOpen(attention, a)
  {
    var rows := OpenRows(attention, a);
    if |rows| > 1 {
      assert IsOpen(attention[rows[0]], a) && IsOpen(attention[rows[1]], a) && rows[0] < rows[1];
    } else {
      forall k | 0 <= k < |attention| && IsOpen(attention[k], a) ensures rows == [k] { assert k in rows; }
    }
  }

  lemma CloseOpenWrites(attention: seq<AttentionRow>, a: nat, now: int)
    requires |OpenRows(attention, a)| <= 1
    ensures Resolved(attention, CloseOpen(attention, a, now), a, now)
  {
    OpenRowsCount(attention, a);
  }

  lemma NoteUncertainWrites(attention: seq<AttentionRow>, a: nat, r: nat)
    requires |OpenRows(attention, a)| <= 1
    ensures InDoubt(attention, NoteUncertain(attention, a, r), a, r)
  {
    OpenRowsCount(attention, a);
  }

  /** Under the invariant an action has at most one open row, and an unsettled doubt has exactly one. */
  lemma InvOneOpen(db: Db, a: nat)
    requires Inv(db)
    ensures OneOpen(db.attention, a)
    ensures a < |db.actions| && db.actions[a].status == Uncertain ==>
      (NoneOpen(db.attention, a) <==> db.actions[a].acknowledgedAt.Some?)
  {
    if a < |db.actions| && db.actions[a].status == Uncertain {
      assert HasRow(db.attention, a);
      var k :| 0 <= k < |db.attention| && db.attention[k].actionId == Some(a);
      assert RowAgrees(db.actions[a], db.attention[k]);
      if db.actions[a].acknowledgedAt.None? { assert IsOpen(db.attention[k], a); }
    }
  }

  /******* The transactions *******/

  /** A managed task that is not active answers for the run's transcript. */
  ghost predicate Blocked(run: RunRow, tasks: map<nat, Task>) {
    exists t :: run.transcript == Some(t) && t in tasks && tasks[t].managed && !tasks[t].active
  }

  lemma BlockedExactly(db: Db, r: nat)
    requires r < |db.runs|
    ensures TaskBlocks(db, r) <==> Blocked(db.runs[r], db.tasks)
  {
  }

  /** The evidence still renders to what the digest sealed, and its hour is not over. */
  ghost predicate Intact(action: ActionRow, now: int) {
    var p := action.proposal;
    && p.Stored? && p.operation == Str(Plain(action.operation)) && p.principal == Str(Plain(OWNER_PRINCIPAL))
    && PyStr(p.expiresAt).Iso? && now < PyStr(p.expiresAt).at
    && action.targetHash.payload == Payload(Plain(action.operation), p.arguments, Plain(OWNER_PRINCIPAL),
                                            PyStr(p.createdAt), PyStr(p.expiresAt), PyStr(p.capabilityId))
  }

  /** What an execution needs before it may begin. */
  ghost predicate MayBegin(db: Db, a: nat, reviewed: Option<Digest>, now: int) {
    && a < |db.actions| && db.actions[a].runId < |db.runs|
    && !Blocked(db.runs[db.actions[a].runId], db.tasks)
    && Intact(db.actions[a], now)
    && (reviewed.None? || reviewed == Some(db.actions[a].targetHash))
    && db.actions[a].status == Prepared
  }

  /** What each refusal to begin says. */
  ghost predicate Explains(e: Refusal, db: Db, a: nat, reviewed: Option<Digest>, now: int) {
    if e == NotFound then a >= |db.actions| || db.actions[a].runId >= |db.runs|
    else
      && a < |db.actions| && db.actions[a].runId < |db.runs|
      && var action := db.actions[a];
         var p := action.proposal;
         match e
         case TaskNotActive => Blocked(db.runs[action.runId], db.tasks)
         case PayloadMissing => p.Missing?
         case PayloadIncomplete => p.Incomplete?
         case IdentityChanged =>
           p.Stored? && (p.operation != Str(Plain(action.operation)) || p.principal != Str(Plain(OWNER_PRINCIPAL)))
         case ExpiryInvalid => p.Stored? && PyStr(p.expiresAt).Plain?
         case Expired => p.Stored? && PyStr(p.expiresAt).Iso? && PyStr(p.expiresAt).at <= now
         case IntegrityFailed => p.Stored? && action.targetHash != StoredDigest(p) && !Intact(action, now)
         case ReviewedHashChanged => Intact(action, now) && reviewed.Some? && reviewed.value != action.targetHash
         case NotExecutable => Intact(action, now) && action.status != Prepared
         case _ => false
  }

  lemma BeginWrites(db: Db, a: nat, reviewed: Option<Digest>, now: int)
    ensures BeginExecution(db, a, reviewed, now).Ok? <==> MayBegin(db, a, reviewed, now)
    ensures BeginExecution(db, a, reviewed, now).Err? ==>
      Explains(BeginExecution(db, a, reviewed, now).error, db, a, reviewed, now)
    ensures BeginExecution(db, a, reviewed, now).Ok? ==>
      var e := BeginExecution(db, a, reviewed, now).value;
      && e.actions == db.actions[a := db.actions[a].(status := Executing, startedAt := Some(now))]
      && e.attention == db.attention && e.tasks == db.tasks && Refreshed(db.runs, e, db.actions[a].runId, now)
  {
    if a < |db.actions| && db.actions[a].runId < |db.runs| {
      BlockedExactly(db, db.actions[a].runId);
      IntactExactly(db.actions[a], now);
      var d := db.(actions := db.actions[a := db.actions[a].(status := Executing, startedAt := Some(now))]);
      RecomputeWrites(d, db.actions[a].runId, now);
    }
  }

  lemma IntactExactly(action: ActionRow, now: int)
    ensures VerifyProposal(action, now).Ok? <==> Intact(action, now)
  {
    if action.proposal.Stored? {
      assert StoredDigest(action.proposal) == action.targetHash <==>
        StoredDigest(action.proposal).payload == action.targetHash.payload;
    }
  }

  /** An action left a live status for a settled one: its row alone, its attention and its run followed. */
  ghost predicate Settles(db: Db, e: Db, a: nat, s: ActionStatus, now: int)
    requires a < |db.actions|
  {
    && e.actions == db.actions[a := db.actions[a].(status := s)] && e.tasks == db.tasks
    && (if s == Uncertain then InDoubt(db.attention, e.attention, a, db.actions[a].runId)
        else Resolved(db.attention, e.attention, a, now))
    && Refreshed(db.runs, e, db.actions[a].runId, now)
  }

  lemma ResolveWrites(db: Db, a: nat, s: ActionStatus, now: int)
    requires a < |db.actions| && s != Uncertain
    ensures var m := ResolveAttentionAndRun(WithStatus(db, a, s), a, now);
      (m.Ok? <==> OneOpen(db.attention, a)) && (m.Ok? ==> Settles(db, m.value, a, s, now))
      && (m.Err? ==> m.error == MultipleRows)
  {
    OpenRowsCount(db.attention, a);
    if OneOpen(db.attention, a) {
      CloseOpenWrites(db.attention, a, now);
      RecomputeWrites(WithStatus(db, a, s).(attention := CloseOpen(db.attention, a, now)), db.actions[a].runId, now);
    }
  }

  lemma UncertainWrites(db: Db, a: nat, now: int)
    requires a < |db.actions|
    ensures var m := MarkUncertain(WithStatus(db, a, Uncertain), a);
      (m.Ok? <==> OneOpen(db.attention, a)) && (m.Ok? ==> Settles(db, m.value, a, Uncertain, now))
      && (m.Err? ==> m.error == MultipleRows)
  {
    OpenRowsCount(db.attention, a);
    if OneOpen(db.attention, a) {
      NoteUncertainWrites(db.attention, a, db.actions[a].runId);
      var e := MarkUncertain(WithStatus(db, a, Uncertain), a).value;
      assert e.actions[a].status == Uncertain && e.actions[a].runId == db.actions[a].runId;
    }
  }

  /** A completion stores the outcome it was given, exactly when the action is executing. */
  lemma CompleteWrites(db: Db, a: nat, s: ActionStatus, now: int)
    ensures var m := Complete(db, a, s, now);
      && (m.Ok? <==>
            && s in {Succeeded, Failed, Uncertain} && a < |db.actions| && db.actions[a].status == Executing
            && OneOpen(db.attention, a))
      && (m.Ok? ==> Settles(db, m.value, a, s, now))
      && (m == Err(BadOutcome) <==> s !in {Succeeded, Failed, Uncertain})
      && (m == Err(ExecutionLost) <==>
            s in {Succeeded, Failed, Uncertain} && (a >= |db.actions| || db.actions[a].status != Executing))
  {
    if a < |db.actions| {
      if s == Uncertain { UncertainWrites(db, a, now); } else { ResolveWrites(db, a, s, now); }
    }
  }

  lemma CancelWrites(db: Db, a: nat, now: int)
    ensures var m := Cancel(db, a, now);
      && (m.Ok? <==> a < |db.actions| && db.actions[a].status == Prepared && OneOpen(db.attention, a))
      && (m.Ok? ==> Settles(db, m.value, a, Cancelled, now))
      && (m == Err(NotFound) <==> a >= |db.actions|)
      && (m == Err(NotCancellable) <==> a < |db.actions| && db.actions[a].status != Prepared)
  {
    if a < |db.actions| { ResolveWrites(db, a, Cancelled, now); }
  }

  lemma AcknowledgeWrites(db: Db, a: nat, now: int)
    ensures var m := Acknowledge(db, a, now);
      && (m.Ok? <==>
            && a < |db.actions| && db.actions[a].status == Uncertain
            && OneOpen(db.attention, a) && !NoneOpen(db.attention, a))
      && (m.Ok? ==>
            && m.value.actions == db.actions[a := db.actions[a].(acknowledgedAt := Some(now))]
            && Resolved(db.attention, m.value.attention, a, now)
            && m.value.runs == db.runs && m.value.tasks == db.tasks)
      && (m == Err(NotFound) <==> a >= |db.actions|)
      && (m == Err(NotUncertain) <==> a < |db.actions| && db.actions[a].status != Uncertain)
      && (m == Err(AttentionNotFound) <==>
            a < |db.actions| && db.actions[a].status == Uncertain && NoneOpen(db.attention, a))
  {
    OpenRowsCount(db.attention, a);
    if OneOpen(db.attention, a) { CloseOpenWrites(db.attention, a, now); }
  }

  /** The run once its inference has ended, before its status is worked out. */
  function Ended(run: RunRow, succeeded: bool): RunRow {
    run.(inferenceActive := false, inference := if succeeded then InferenceSucceeded else InferenceFailed)
  }

  lemma FinishWrites(db: Db, r: nat, succeeded: bool, now: int)
    ensures var m := FinishRun(db, r, succeeded, now);
      && (m.Err? <==> r < |db.runs| && !(db.runs[r].inferenceActive && db.runs[r].inference == InferenceRunning))
      && (m.Err? ==> m.error == InferenceGone)
      && (m.Ok? ==>
            && m.value.actions == db.actions && m.value.attention == db.attention && m.value.tasks == db.tasks
            && (r >= |db.runs| ==> m.value == db)
            && (r < |db.runs| ==>
                  Refreshed(db.runs[r := Ended(db.runs[r], succeeded)], m.value, r, now)))
  {
    if r < |db.runs| { RecomputeWrites(db.(runs := db.runs[r := Ended(db.runs[r], succeeded)]), r, now); }
  }

  /******* Proposals *******/

  /** What comes before the first dot, or everything. */
  ghost predicate FirstSegment(segment: string, operation: string) {
    && segment <= operation && '.' !in segment
    && (|segment| < |operation| ==> operation[|segment|] == '.')
  }

  lemma {:induction false} HeadIsFirst(operation: string)
    ensures FirstSegment(HeadSegment(operation), operation)
  {
    if operation != "" && operation[0] != '.' {
      HeadIsFirst(operation[1..]);
      assert operation == [operation[0]] + operation[1..];
    }
  }

  /** A fresh proposal: sealed to the owner, intact for exactly an hour, and naming what was asked for. */
  ghost predicate Proposed(row: ActionRow, r: nat, operation: string, arguments: Arguments, capabilityId: string,
                           now: int)
  {
    && row.runId == r && row.operation == operation && row.status == Prepared && !row.automatic
    && row.startedAt.None? && row.acknowledgedAt.None?
    && row.proposal.Stored? && row.proposal.arguments == arguments && PyStr(row.proposal.createdAt) == Iso(now)
    && (forall t :: Intact(row, t) <==> t < now + 3600)
    && row.targetHash.payload.capabilityId.Plain?
    && (var cap := row.targetHash.payload.capabilityId.s;
        if capabilityId != "" then cap == capabilityId else FirstSegment(cap, operation))
  }

  lemma PrepareWrites(db: Db, r: nat, operation: string, arguments: Arguments, capabilityId: string, now: int)
    ensures var m := Prepare(db, r, operation, arguments, capabilityId, now);
      && (m.Ok? <==> r < |db.runs| && !Blocked(db.runs[r], db.tasks))
      && (m == Err(NotFound) <==> r >= |db.runs|)
      && (m.Err? && r < |db.runs| ==> m.error == TaskNotActive)
      && (m.Ok? ==>
            && |m.value.actions| == |db.actions| + 1 && m.value.actions[..|db.actions|] == db.actions
            && Proposed(m.value.actions[|db.actions|], r, operation, arguments, capabilityId, now)
            && m.value.attention == db.attention + [AttentionRow(r, Some(|db.actions|), ApprovalRequired, false, None)]
            && m.value.tasks == db.tasks && Refreshed(db.runs, m.value, r, now))
  {
    if r < |db.runs| {
      BlockedExactly(db, r);
      HeadIsFirst(operation);
      var m := Prepare(db, r, operation, arguments, capabilityId, now);
      if m.Ok? { RecomputeWrites(db.(actions := m.value.actions, attention := m.value.attention), r, now); }
    }
  }

  /******* Recovery *******/

  /** An execution begun before the bound, of a run with no active inference or with no beat since the bound. */
  predicate LeftBehind(action: ActionRow, runs: seq<RunRow>, staleBefore: int) {
    && action.status == Executing && action.startedAt.Some? && action.startedAt.value < staleBefore
    && (action.runId < |runs| ==>
          var run := runs[action.runId];
          !run.inferenceActive || run.heartbeatAt.None? || run.heartbeatAt.value < staleBefore)
  }

  /** A claim is won once: the run then works and beats, and a later claim finds nothing to take. */
  lemma ClaimedOnce(db: Db, r: nat, now: int, later: int)
    requires r < |db.runs| && db.runs[r].inference == InferenceQueued
    ensures var e := ClaimRun(db, r, now);
      && ClaimRun(e, r, later) == e && HeartbeatFresh(e, r, now) && !HeartbeatFresh(e, r, now + 1)
      && FinishRun(e, r, true, later).Ok? && OthersUntouched(db.runs, e.runs, r)
      && e.runs[r].status == RunRunning && e.actions == db.actions && e.attention == db.attention
  {
  }

  /** A beat spares the run's executions from every sweep whose bound it reaches, if its inference is active. */
  lemma BeatSpares(db: Db, r: nat, now: int, staleBefore: int)
    requires r < |db.runs|
    ensures HeartbeatFresh(Heartbeat(db, r, now), r, staleBefore) <==> db.runs[r].inferenceActive && staleBefore <= now
  {
  }

  /** A run whose ownership was withdrawn can no longer end itself, is spared by no sweep, and can be interrupted. */
  lemma AbandonedRun(db: Db, r: nat, succeeded: bool, now: int, staleBefore: int)
    requires r < |db.runs| && db.runs[r].inference == InferenceRunning
    ensures var e := Abandon(db, r);
      && FinishRun(e, r, succeeded, now) == Err(InferenceGone) && !HeartbeatFresh(e, r, staleBefore)
      && Interruptible(e.runs[r].inference) && OthersUntouched(db.runs, e.runs, r)
      && e.actions == db.actions && e.attention == db.attention
  {
  }
}
