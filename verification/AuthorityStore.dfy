/** The store that updates the ledger's rows in place, one transaction a method. */
module Authority {
  import opened Common
  import opened Ledger
  import opened LedgerInvariants
  import opened LedgerTheorems
  import opened LedgerWrites

  class AuthorityStore {
    var actions: seq<ActionRow>
    var runs: seq<RunRow>
    var attention: seq<AttentionRow>
    var tasks: map<nat, Task>

    ghost function Rows(): Db
      reads this
    {
      Db(actions, runs, attention, tasks)
    }

    constructor ()
      ensures Rows() == Db([], [], [], map[])
    {
      actions, runs, attention, tasks := [], [], [], map[];
    }

    /** What a transaction leaves behind: its committed rows, or the rows it found. */
    ghost predicate Left(was: Db, want: Outcome<Db, Refusal>, got: Outcome<(), Refusal>)
      reads this
    {
      match want
      case Ok(d) => got == Ok(()) && Rows() == d
      case Err(e) => got == Err(e) && Rows() == was
    }

    /** One action row was added, of the given run, operation and status, and nothing else was written. */
    ghost predicate Added(was: Db, r: nat, operation: string, status: ActionStatus, started: Option<int>)
      reads this
    {
      && |actions| == |was.actions| + 1 && actions[..|was.actions|] == was.actions
      && actions[|was.actions|].runId == r && actions[|was.actions|].operation == operation
      && actions[|was.actions|].status == status && actions[|was.actions|].automatic == started.Some?
      && actions[|was.actions|].startedAt == started && actions[|was.actions|].acknowledgedAt.None?
      && actions[|was.actions|].proposal.Missing?
      && runs == was.runs && attention == was.attention && tasks == was.tasks
    }

    /** The unresolved attention rows of one action. */
    method FindOpen(a: nat) returns (rows: seq<nat>)
      ensures rows == OpenRows(attention, a)
    {
      rows := [];
      for k := 0 to |attention|
        invariant rows == OpenRows(attention[..k], a)
      {
        assert attention[..k + 1][..k] == attention[..k];
        if attention[k].actionId == Some(a) && !attention[k].resolved {
          rows := rows + [k];
        }
      }
      assert attention[..|attention|] == attention;
    }

    method RecomputeRun(r: nat, now: int)
      modifies this`runs
      ensures Rows() == Recompute(old(Rows()), r, now)
      ensures Refreshed(old(runs), Rows(), r, now)
    {
      RecomputeWrites(Rows(), r, now);
      if r >= |runs| { return; }
      var statuses: set<ActionStatus> := {};
      for a := 0 to |actions|
        invariant statuses == Statuses(actions[..a], r)
        invariant runs == old(runs)
      {
        assert actions[..a + 1] == actions[..a] + [actions[a]];
        if actions[a].runId == r {
          StatusesAppend(actions[..a], actions[a]);
          statuses := statuses + {actions[a].status};
        } else {
          StatusesFrame(actions[..a], actions[..a + 1], r);
        }
      }
      assert actions[..|actions|] == actions;
      var run := runs[r];
      var status := RunSucceeded;
      if Uncertain in statuses {
        status := RunUncertain;
      } else if Executing in statuses {
        status := RunRunning;
      } else if Prepared in statuses {
        status := RunWaiting;
      } else if run.inferenceActive {
        status := RunRunning;
      } else if Failed in statuses || run.inference in {InferenceFailed, InferenceInterrupted} {
        status := if run.inference != InferenceInterrupted then RunFailed else RunInterrupted;
      } else if Cancelled in statuses {
        status := RunCancelled;
      }
      runs := runs[r := run.(status := status,
        finishedAt := if status in {RunSucceeded, RunFailed, RunCancelled, RunInterrupted} then Some(now) else None)];
    }

    method ResolveOpen(a: nat, now: int) returns (res: Outcome<(), Refusal>)
      requires a < |actions|
      modifies this`attention, this`runs
      ensures Left(old(Rows()), ResolveAttentionAndRun(old(Rows()), a, now), res)
      ensures res.Ok? <==> OneOpen(old(attention), a)
      ensures res.Ok? ==>
        Resolved(old(attention), attention, a, now) && Refreshed(old(runs), Rows(), actions[a].runId, now)
    {
      OpenRowsCount(attention, a);
      var open := FindOpen(a);
      if |open| > 1 { return Err(MultipleRows); }
      CloseOpenWrites(attention, a, now);
      if |open| == 1 {
        attention := attention[open[0] := attention[open[0]].(resolved := true, resolvedAt := Some(now))];
      }
      RecomputeRun(actions[a].runId, now);
      res := Ok(());
    }

    method NoteUncertainOutcome(a: nat) returns (res: Outcome<(), Refusal>)
      requires a < |actions|
      modifies this`attention, this`runs
      ensures Left(old(Rows()), MarkUncertain(old(Rows()), a), res)
      ensures res.Ok? <==> OneOpen(old(attention), a)
      ensures res.Ok? ==>
        InDoubt(old(attention), attention, a, actions[a].runId)
        && OthersUntouched(old(runs), runs, actions[a].runId)
        && (actions[a].runId < |runs| ==>
              runs[actions[a].runId] == old(runs)[actions[a].runId].(status := RunUncertain, finishedAt := None))
    {
      OpenRowsCount(attention, a);
      var open := FindOpen(a);
      var r := actions[a].runId;
      if |open| > 1 { return Err(MultipleRows); }
      NoteUncertainWrites(attention, a, r);
      if |open| == 0 {
        attention := attention + [AttentionRow(r, Some(a), UncertainEffect, false, None)];
      } else {
        attention := attention[open[0] := attention[open[0]].(state := UncertainEffect)];
      }
      if r < |runs| {
        runs := runs[r := runs[r].(status := RunUncertain, finishedAt := None)];
      }
      res := Ok(());
    }

    method TaskRefuses(r: nat) returns (refuses: bool)
      requires r < |runs|
      ensures refuses == TaskBlocks(Rows(), r)
      ensures refuses <==> Blocked(runs[r], tasks)
    {
      var t := runs[r].transcript;
      if t.None? || t.value !in tasks { return false; }
      var task := tasks[t.value];
      return task.managed && !task.active;
    }

    method Create(transcript: Option<nat>, kind: RunKind, now: int) returns (res: Outcome<(), Refusal>)
      modifies this
      ensures Left(old(Rows()), CreateRun(old(Rows()), transcript, kind, now), res)
      ensures Keeps(old(Rows()), Rows())
      ensures res.Err? <==>
        && kind == Foreground && transcript.Some?
        && exists r :: 0 <= r < |old(runs)|
             && old(runs)[r].kind == Foreground && old(runs)[r].transcript == transcript && old(runs)[r].inferenceActive
      ensures res.Ok? ==>
        && runs == old(runs) + [RunRow(kind, transcript, RunRunning, None, true, InferenceRunning, Some(now))]
        && actions == old(actions) && attention == old(attention) && tasks == old(tasks)
    {
      TransactionKeeps(Rows(), TxCreateRun(transcript, kind), now);
      if kind == Foreground && transcript.Some? {
        for r := 0 to |runs|
          invariant runs == old(runs) && Rows() == old(Rows())
          invariant forall q :: 0 <= q < r ==> !ForegroundLive(runs[q], transcript.value)
        {
          if runs[r].transcript == transcript && runs[r].kind == kind && runs[r].inferenceActive {
            assert ForegroundLive(runs[r], transcript.value);
            return Err(ForegroundBusy);
          }
        }
      }
      runs := runs + [RunRow(kind, transcript, RunRunning, None, true, InferenceRunning, Some(now))];
      res := Ok(());
    }

    method PrepareProposal(r: nat, operation: string, arguments: Arguments, capabilityId: string, now: int)
      returns (res: Outcome<(), Refusal>)
      modifies this
      ensures Left(old(Rows()), Prepare(old(Rows()), r, operation, arguments, capabilityId, now), res)
      ensures Keeps(old(Rows()), Rows())
      ensures res.Ok? <==> r < |old(runs)| && !Blocked(old(runs)[r], old(tasks))
      ensures res.Ok? ==>
        && |actions| == |old(actions)| + 1 && actions[..|old(actions)|] == old(actions)
        && Proposed(actions[|old(actions)|], r, operation, arguments, capabilityId, now)
        && attention == old(attention) + [AttentionRow(r, Some(|old(actions)|), ApprovalRequired, false, None)]
        && tasks == old(tasks) && Refreshed(old(runs), Rows(), r, now)
    {
      PrepareWrites(Rows(), r, operation, arguments, capabilityId, now);
      TransactionKeeps(Rows(), TxPrepare(r, operation, arguments, capabilityId), now);
      if r >= |runs| { return Err(NotFound); }
      var refuses := TaskRefuses(r);
      if refuses { return Err(TaskNotActive); }
      var cap := CapabilityOf(operation, capabilityId);
      var expires := now + PROPOSAL_TTL;
      var proposal := Stored(Str(Plain(operation)), arguments, Str(Plain(OWNER_PRINCIPAL)),
                             Str(Iso(now)), Str(Iso(expires)), Str(Plain(cap)));
      var id := |actions|;
      actions := actions + [ActionRow(r, operation, Sealed(operation, arguments, now, expires, cap), Prepared,
                                      proposal, false, None, None)];
      attention := attention + [AttentionRow(r, Some(id), ApprovalRequired, false, None)];
      RecomputeRun(r, now);
      res := Ok(());
    }

    method Record(r: nat, operation: string, arguments: Arguments, succeeded: bool, now: int)
      returns (res: Outcome<(), Refusal>)
      modifies this
      ensures Left(old(Rows()), RecordExecution(old(Rows()), r, operation, arguments, succeeded, now), res)
      ensures Keeps(old(Rows()), Rows())
      ensures res.Ok? ==> Added(old(Rows()), r, operation, if succeeded then Succeeded else Failed, None)
      ensures res.Ok? && old(Inv(Rows()) && Agrees(Rows(), r)) ==>
        (Agrees(Rows(), r) <==> succeeded || old(runs)[r].status !in {RunSucceeded, RunCancelled})
      ensures forall q :: q != r && old(Inv(Rows()) && Agrees(Rows(), q)) ==> Agrees(Rows(), q)
    {
      TransactionKeeps(Rows(), TxRecord(r, operation, arguments, succeeded), now);
      AgreementAfter(Rows(), TxRecord(r, operation, arguments, succeeded), now);
      if r >= |runs| { return Err(NotFound); }
      var status := if succeeded then Succeeded else Failed;
      actions := actions + [ActionRow(r, operation, Sealed(operation, arguments, now, now, HeadSegment(operation)),
                                      status, Missing, false, None, None)];
      res := Ok(());
    }

    method BeginAutomaticExecution(r: nat, operation: string, arguments: Arguments, capabilityId: string, now: int)
      returns (res: Outcome<(), Refusal>)
      modifies this
      ensures Left(old(Rows()), BeginAutomatic(old(Rows()), r, operation, arguments, capabilityId, now), res)
      ensures Keeps(old(Rows()), Rows())
      ensures res.Ok? ==> Added(old(Rows()), r, operation, Executing, Some(now))
      ensures res.Ok? && old(Inv(Rows()) && Agrees(Rows(), r)) ==>
        (Agrees(Rows(), r) <==> old(runs)[r].status in {RunUncertain, RunRunning})
      ensures forall q :: q != r && old(Inv(Rows()) && Agrees(Rows(), q)) ==> Agrees(Rows(), q)
    {
      TransactionKeeps(Rows(), TxBeginAutomatic(r, operation, arguments, capabilityId), now);
      AgreementAfter(Rows(), TxBeginAutomatic(r, operation, arguments, capabilityId), now);
      if r >= |runs| { return Err(NotFound); }
      var refuses := TaskRefuses(r);
      if refuses { return Err(TaskNotActive); }
      actions := actions + [ActionRow(r, operation, Sealed(operation, arguments, now, now, capabilityId), Executing,
                                      Missing, true, Some(now), None)];
      res := Ok(());
    }

    method Begin(a: nat, reviewed: Option<Digest>, now: int) returns (res: Outcome<(), Refusal>)
      modifies this
      ensures Left(old(Rows()), BeginExecution(old(Rows()), a, reviewed, now), res)
      ensures Keeps(old(Rows()), Rows())
      ensures res.Ok? <==> MayBegin(old(Rows()), a, reviewed, now)
      ensures res.Err? ==> Explains(res.error, old(Rows()), a, reviewed, now)
      ensures res.Ok? ==>
        && actions == old(actions)[a := old(actions)[a].(status := Executing, startedAt := Some(now))]
        && attention == old(attention) && tasks == old(tasks)
        && Refreshed(old(runs), Rows(), old(actions)[a].runId, now)
    {
      BeginWrites(Rows(), a, reviewed, now);
      TransactionKeeps(Rows(), TxBegin(a, reviewed), now);
      if a >= |actions| || actions[a].runId >= |runs| { return Err(NotFound); }
      var action := actions[a];
      var refuses := TaskRefuses(action.runId);
      if refuses { return Err(TaskNotActive); }
      var verified := VerifyProposal(action, now);
      if verified.Err? { return Err(verified.error); }
      if reviewed.Some? && reviewed.value != action.targetHash { return Err(ReviewedHashChanged); }
      if action.status != Prepared { return Err(NotExecutable); }
      actions := actions[a := action.(status := Executing, startedAt := Some(now))];
      RecomputeRun(action.runId, now);
      res := Ok(());
    }

    method CancelAction(a: nat, now: int) returns (res: Outcome<(), Refusal>)
      modifies this
      ensures Left(old(Rows()), Cancel(old(Rows()), a, now), res)
      ensures Keeps(old(Rows()), Rows())
      ensures res.Ok? <==> a < |old(actions)| && old(actions)[a].status == Prepared && OneOpen(old(attention), a)
      ensures old(Inv(Rows())) ==> (res.Ok? <==> a < |old(actions)| && old(actions)[a].status == Prepared)
      ensures res.Ok? ==>
        && actions == old(actions)[a := old(actions)[a].(status := Cancelled)] && tasks == old(tasks)
        && Resolved(old(attention), attention, a, now)
        && Refreshed(old(runs), Rows(), old(actions)[a].runId, now)
    {
      CancelWrites(Rows(), a, now);
      if Inv(Rows()) { InvOneOpen(Rows(), a); }
      TransactionKeeps(Rows(), TxCancel(a), now);
      if a >= |actions| { return Err(NotFound); }
      if actions[a].status != Prepared { return Err(NotCancellable); }
      var saved := actions;
      actions := actions[a := actions[a].(status := Cancelled)];
      res := ResolveOpen(a, now);
      if res.Err? { actions := saved; }
      assert Rows() == Commit(old(Rows()), TxCancel(a), now);
    }

    method CompleteAction(a: nat, s: ActionStatus, now: int) returns (res: Outcome<(), Refusal>)
      modifies this
      ensures Left(old(Rows()), Complete(old(Rows()), a, s, now), res)
      ensures Keeps(old(Rows()), Rows())
      ensures res.Ok? <==>
        && a < |old(actions)| && old(actions)[a].status == Executing && s in {Succeeded, Failed, Uncertain}
        && OneOpen(old(attention), a)
      ensures old(Inv(Rows())) ==>
        (res.Ok? <==> a < |old(actions)| && old(actions)[a].status == Executing && s in {Succeeded, Failed, Uncertain})
      ensures res.Ok? ==>
        && actions == old(actions)[a := old(actions)[a].(status := s)] && tasks == old(tasks)
        && (if s == Uncertain then InDoubt(old(attention), attention, a, old(actions)[a].runId)
            else Resolved(old(attention), attention, a, now))
        && Refreshed(old(runs), Rows(), old(actions)[a].runId, now)
    {
      CompleteWrites(Rows(), a, s, now);
      if Inv(Rows()) { InvOneOpen(Rows(), a); }
      TransactionKeeps(Rows(), TxComplete(a, s), now);
      if s !in {Succeeded, Failed, Uncertain} { return Err(BadOutcome); }
      if a >= |actions| { return Err(ExecutionLost); }
      if actions[a].status != Executing { return Err(ExecutionLost); }
      var saved := actions;
      actions := actions[a := actions[a].(status := s)];
      if s == Uncertain {
        res := NoteUncertainOutcome(a);
      } else {
        res := ResolveOpen(a, now);
      }
      if res.Err? { actions := saved; }
      assert Rows() == Commit(old(Rows()), TxComplete(a, s), now);
    }

    method AcknowledgeAction(a: nat, now: int) returns (res: Outcome<(), Refusal>)
      modifies this
      ensures Left(old(Rows()), Acknowledge(old(Rows()), a, now), res)
      ensures Keeps(old(Rows()), Rows())
      ensures old(Inv(Rows())) ==>
        (res.Ok? <==>
           a < |old(actions)| && old(actions)[a].status == Uncertain && old(actions)[a].acknowledgedAt.None?)
      ensures res.Ok? ==>
        && actions == old(actions)[a := old(actions)[a].(acknowledgedAt := Some(now))]
        && Resolved(old(attention), attention, a, now) && runs == old(runs) && tasks == old(tasks)
    {
      AcknowledgeWrites(Rows(), a, now);
      if Inv(Rows()) { InvOneOpen(Rows(), a); }
      TransactionKeeps(Rows(), TxAcknowledge(a), now);
      if a >= |actions| { return Err(NotFound); }
      if actions[a].status != Uncertain { return Err(NotUncertain); }
      var open := FindOpen(a);
      if |open| > 1 { return Err(MultipleRows); }
      if |open| == 0 { return Err(AttentionNotFound); }
      attention := attention[open[0] := attention[open[0]].(resolved := true, resolvedAt := Some(now))];
      actions := actions[a := actions[a].(acknowledgedAt := Some(now))];
      res := Ok(());
      assert Rows() == Commit(old(Rows()), TxAcknowledge(a), now);
    }

    method Finish(r: nat, succeeded: bool, now: int) returns (res: Outcome<(), Refusal>)
      modifies this
      ensures Left(old(Rows()), FinishRun(old(Rows()), r, succeeded, now), res)
      ensures Keeps(old(Rows()), Rows())
      ensures res.Ok? <==>
        r >= |old(runs)| || (old(runs)[r].inferenceActive && old(runs)[r].inference == InferenceRunning)
      ensures res.Ok? && r < |old(runs)| ==> Refreshed(old(runs)[r := Ended(old(runs)[r], succeeded)], Rows(), r, now)
      ensures actions == old(actions) && attention == old(attention) && tasks == old(tasks)
    {
      FinishWrites(Rows(), r, succeeded, now);
      TransactionKeeps(Rows(), TxFinishRun(r, succeeded), now);
      if r >= |runs| { return Ok(()); }
      if !runs[r].inferenceActive || runs[r].inference != InferenceRunning { return Err(InferenceGone); }
      runs := runs[r := runs[r].(inferenceActive := false,
                                 inference := if succeeded then InferenceSucceeded else InferenceFailed)];
      RecomputeRun(r, now);
      res := Ok(());
    }

    /**
     The stale sweep: every execution that began before the bound becomes uncertain, unless its
     run's inference is alive with a fresh heartbeat; nothing else does, and the count is exact.
     */
    method ReconcileStaleExecutions(staleBefore: int) returns (reconciled: nat)
      requires Inv(Rows())
      modifies this
      ensures Inv(Rows()) && LivenessKept(old(runs), runs)
      ensures Swept(old(actions), actions, AbandonedBelow(old(Rows()), |old(actions)|, staleBefore))
      ensures reconciled == |AbandonedBelow(old(Rows()), |old(actions)|, staleBefore)|
      ensures forall a :: 0 <= a < |old(actions)| ==>
        actions[a] == if LeftBehind(old(actions)[a], old(runs), staleBefore)
                      then old(actions)[a].(status := Uncertain) else old(actions)[a]
    {
      ghost var was := Rows();
      var rows := SelectStale(staleBefore);
      reconciled := SweepSelected(rows, staleBefore);
      SweepOutcome(was, staleBefore);
      SweepAllKeepsInv(was, rows, staleBefore);
    }

    method SweepSelected(rows: seq<nat>, staleBefore: int) returns (reconciled: nat)
      modifies this
      ensures SweepAll(old(Rows()), rows, staleBefore) == (Rows(), reconciled)
    {
      reconciled := 0;
      for i := 0 to |rows|
        invariant SweepAll(old(Rows()), rows[..i], staleBefore) == (Rows(), reconciled)
      {
        SweepAllSnoc(old(Rows()), rows[..i], rows[i], staleBefore);
        assert rows[..i + 1] == rows[..i] + [rows[i]];
        var moved := SweepAction(rows[i], staleBefore);
        if moved { reconciled := reconciled + 1; }
      }
      assert rows[..|rows|] == rows;
    }

    /** One iteration of the sweep; a row whose attention is ambiguous is left as it was. */
    method SweepAction(a: nat, staleBefore: int) returns (moved: bool)
      modifies this
      ensures Rows() == SweepOne(old(Rows()), a, staleBefore).0
      ensures moved == SweepOne(old(Rows()), a, staleBefore).1
    {
      if a >= |actions| { return false; }
      var r := actions[a].runId;
      if r < |runs| && runs[r].inferenceActive && runs[r].heartbeatAt.Some?
        && runs[r].heartbeatAt.value >= staleBefore {
        return false;
      }
      if actions[a].status != Executing { return false; }
      var saved := actions;
      actions := actions[a := actions[a].(status := Uncertain)];
      var res := NoteUncertainOutcome(a);
      if res.Err? { actions := saved; }
      moved := res.Ok?;
    }

    method SelectStale(staleBefore: int) returns (rows: seq<nat>)
      ensures rows == StaleRows(actions, staleBefore)
    {
      rows := [];
      for a := 0 to |actions|
        invariant rows == StaleRows(actions[..a], staleBefore)
      {
        assert actions[..a + 1][..a] == actions[..a];
        if actions[a].status == Executing && actions[a].startedAt.Some? && actions[a].startedAt.value < staleBefore {
          rows := rows + [a];
        }
      }
      assert actions[..|actions|] == actions;
    }

    /** Which of a transcript's pending actions its checkpoint may forget. */
    method SettledActions(pending: seq<nat>) returns (settled: set<nat>)
      ensures settled == set a | a in pending && Prunable(Rows(), a)
    {
      var seen: set<nat> := {};
      var open: set<nat> := {};
      for k := 0 to |attention|
        invariant forall a :: a in seen <==> exists j :: 0 <= j < k && attention[j].actionId == Some(a)
        invariant forall a :: a in open <==> exists j :: 0 <= j < k && IsOpen(attention[j], a)
      {
        if attention[k].actionId.Some? {
          seen := seen + {attention[k].actionId.value};
          if !attention[k].resolved {
            assert IsOpen(attention[k], attention[k].actionId.value);
            open := open + {attention[k].actionId.value};
          }
        }
      }
      settled := {};
      for i := 0 to |pending|
        invariant settled == set a | a in pending[..i] && Prunable(Rows(), a)
      {
        var a := pending[i];
        assert AttentionSettled(attention, a) <==> a in seen && a !in open;
        if a < |actions| {
          if actions[a].status in {Succeeded, Failed, Cancelled} {
            settled := settled + {a};
          } else if actions[a].status == Uncertain {
            if actions[a].acknowledgedAt.Some? || (a in seen && a !in open) {
              settled := settled + {a};
            }
          }
        }
        assert pending[..i + 1] == pending[..i] + [a];
      }
      assert pending[..|pending|] == pending;
    }
  }

  /** The ledger invariant is kept, and every action moves along the allowed transitions. */
  ghost predicate Keeps(was: Db, after: Db) {
    Inv(was) ==> Inv(after) && Evolves(was.actions, after.actions)
  }

  lemma TransactionKeeps(db: Db, tx: Tx, now: int)
    ensures Keeps(db, Commit(db, tx, now))
  {
    if Inv(db) {
      CommitKeepsInv(db, tx, now);
      CommitEvolves(db, tx, now);
    }
  }

  lemma AgreementAfter(db: Db, tx: Tx, now: int)
    ensures forall r :: Inv(db) && Agrees(db, r) ==> (Agrees(Commit(db, tx, now), r) <==> !LeavesStale(db, tx, r))
  {
    forall r | Inv(db) && Agrees(db, r) ensures Agrees(Commit(db, tx, now), r) <==> !LeavesStale(db, tx, r) {
      AgreementKeptExactly(db, tx, now, r);
    }
  }
}
