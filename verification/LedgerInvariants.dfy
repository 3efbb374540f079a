/** What every transaction on the ledger keeps, whatever order transactions commit in. */
module LedgerInvariants {
  import opened Common
  import opened Ledger

  /** One committed transaction against the ledger's tables. */
  datatype Tx =
    | TxCreateRun(transcript: Option<nat>, kind: RunKind)
    | TxRecord(run: nat, operation: string, arguments: Arguments, succeeded: bool)
    | TxPrepare(run: nat, operation: string, arguments: Arguments, capabilityId: string)
    | TxBegin(action: nat, reviewed: Option<Digest>)
    | TxBeginAutomatic(run: nat, operation: string, arguments: Arguments, capabilityId: string)
    | TxCancel(action: nat)
    | TxComplete(action: nat, status: ActionStatus)
    | TxSweep(action: nat, staleBefore: int)
    | TxAcknowledge(action: nat)
    | TxFinishRun(run: nat, succeeded: bool)
    | TxAbandon(run: nat)
    | TxInterrupt(run: nat, notify: bool)
    | TxHeartbeat(run: nat)
    | TxDismissNotices
    | TxTamper(action: nat, proposal: StoredProposal)
    | TxSetTask(chat: nat, task: Task)

  function Apply(db: Db, tx: Tx, now: int): Outcome<Db, Refusal> {
    match tx
    case TxCreateRun(t, k) => CreateRun(db, t, k, now)
    case TxRecord(r, op, args, ok) => RecordExecution(db, r, op, args, ok, now)
    case TxPrepare(r, op, args, cap) => Prepare(db, r, op, args, cap, now)
    case TxBegin(a, h) => BeginExecution(db, a, h, now)
    case TxBeginAutomatic(r, op, args, cap) => BeginAutomatic(db, r, op, args, cap, now)
    case TxCancel(a) => Cancel(db, a, now)
    case TxComplete(a, s) => Complete(db, a, s, now)
    case TxSweep(a, stale) =>
      if a >= |db.actions| then Err(NotFound)
      else
        (match SweepRow(db, a, stale)
         case Ok(Some(d)) => Ok(d)
         case Ok(None) => Ok(db)
         case Err(e) => Err(e))
    case TxAcknowledge(a) => Acknowledge(db, a, now)
    case TxFinishRun(r, ok) => FinishRun(db, r, ok, now)
    case TxAbandon(r) => Ok(Abandon(db, r))
    case TxInterrupt(r, notify) => Interrupt(db, r, notify, now)
    case TxHeartbeat(r) => Ok(Heartbeat(db, r, now))
    case TxDismissNotices => Ok(DismissNotices(db, now))
    case TxTamper(a, p) => Ok(Tamper(db, a, p))
    case TxSetTask(t, task) => Ok(db.(tasks := db.tasks[t := task]))
  }

  /** A refused transaction is rolled back. */
  function Commit(db: Db, tx: Tx, now: int): Db {
    match Apply(db, tx, now)
    case Ok(d) => d
    case Err(_) => db
  }

  /******* The invariant *******/

  ghost predicate RowsUnique(attention: seq<AttentionRow>) {
    forall i, j :: 0 <= i < j < |attention| && attention[i].actionId.Some? ==>
      attention[i].actionId != attention[j].actionId
  }

  /** What an action's attention row must look like, given the action. */
  predicate RowAgrees(action: ActionRow, row: AttentionRow) {
    match action.status
    case Prepared => !row.resolved && row.state == ApprovalRequired
    case Executing => !row.resolved && row.state == ApprovalRequired
    case Uncertain => row.state == UncertainEffect && (row.resolved <==> action.acknowledgedAt.Some?)
    case _ => row.resolved
  }

  ghost predicate RowsAgree(actions: seq<ActionRow>, attention: seq<AttentionRow>) {
    forall k :: 0 <= k < |attention| && attention[k].actionId.Some? ==>
      attention[k].actionId.value < |actions| && RowAgrees(actions[attention[k].actionId.value], attention[k])
  }

  ghost predicate HasRow(attention: seq<AttentionRow>, a: nat) {
    exists k :: 0 <= k < |attention| && attention[k].actionId == Some(a)
  }

  ghost predicate RowsPresent(actions: seq<ActionRow>, attention: seq<AttentionRow>) {
    forall a :: 0 <= a < |actions| && actions[a].status in {Prepared, Uncertain} ==> HasRow(attention, a)
  }

  ghost predicate OnlyUncertainAcknowledged(actions: seq<ActionRow>) {
    forall a :: 0 <= a < |actions| && actions[a].acknowledgedAt.Some? ==> actions[a].status == Uncertain
  }

  ghost predicate AttentionOk(actions: seq<ActionRow>, attention: seq<AttentionRow>) {
    && RowsUnique(attention)
    && RowsAgree(actions, attention)
    && RowsPresent(actions, attention)
    && OnlyUncertainAcknowledged(actions)
  }

  /** Every action has its run, and a run that owns an uncertain action is uncertain and unfinished. */
  ghost predicate RunsOk(actions: seq<ActionRow>, runs: seq<RunRow>) {
    forall a :: 0 <= a < |actions| ==>
      && actions[a].runId < |runs|
      && (actions[a].status == Uncertain ==> Pinned(runs[actions[a].runId]))
  }

  predicate Pinned(run: RunRow) {
    run.status == RunUncertain && run.finishedAt == None
  }

  /** The partial unique index on foreground inference. */
  ghost predicate ForegroundUnique(runs: seq<RunRow>) {
    forall i, j, t :: 0 <= i < j < |runs| && ForegroundLive(runs[i], t) ==> !ForegroundLive(runs[j], t)
  }

  ghost predicate Inv(db: Db) {
    AttentionOk(db.actions, db.attention) && RunsOk(db.actions, db.runs) && ForegroundUnique(db.runs)
  }

  /******* How one action row may evolve *******/

  predicate Terminal(s: ActionStatus) {
    s in {Succeeded, Failed, Cancelled, Uncertain}
  }

  predicate Moves(from: ActionStatus, to: ActionStatus) {
    || from == to
    || (from == Prepared && to in {Executing, Cancelled})
    || (from == Executing && to in {Succeeded, Failed, Uncertain})
  }

  predicate RowEvolves(x: ActionRow, y: ActionRow) {
    && Moves(x.status, y.status)
    && y.runId == x.runId && y.operation == x.operation && y.targetHash == x.targetHash && y.automatic == x.automatic
    && (x.status != Prepared ==> y.startedAt == x.startedAt)
    && (x.acknowledgedAt.Some? ==> y.acknowledgedAt.Some?)
  }

  ghost predicate Evolves(x: seq<ActionRow>, y: seq<ActionRow>) {
    && |x| <= |y|
    && (forall a :: 0 <= a < |x| ==> RowEvolves(x[a], y[a]))
    && (forall a :: |x| <= a < |y| ==> y[a].status !in {Cancelled, Uncertain})
  }

  /******* Agreement of the stored run status *******/

  ghost predicate Agrees(db: Db, r: nat) {
    && r < |db.runs|
    && db.runs[r].status == Derived(Statuses(db.actions, r), db.runs[r])
    && (db.runs[r].finishedAt.Some? <==> Finished(db.runs[r].status))
  }

  lemma StatusesFrame(x: seq<ActionRow>, y: seq<ActionRow>, r: nat)
    requires |x| <= |y|
    requires forall a :: 0 <= a < |x| ==> x[a].runId == y[a].runId
    requires forall a :: 0 <= a < |x| && x[a].runId == r ==> x[a].status == y[a].status
    requires forall a :: |x| <= a < |y| ==> y[a].runId != r
    ensures Statuses(x, r) == Statuses(y, r)
  {
    forall s ensures s in Statuses(x, r) <==> s in Statuses(y, r) {
      if s in Statuses(x, r) {
        var a :| 0 <= a < |x| && x[a].runId == r && x[a].status == s;
        assert y[a].runId == r && y[a].status == s;
      }
      if s in Statuses(y, r) {
        var a :| 0 <= a < |y| && y[a].runId == r && y[a].status == s;
        assert x[a].runId == r && x[a].status == s;
      }
    }
  }

  lemma StatusesAppend(x: seq<ActionRow>, row: ActionRow)
    ensures Statuses(x + [row], row.runId) == Statuses(x, row.runId) + {row.status}
  {
    var y := x + [row];
    assert y[|x|] == row;
    forall s | s in Statuses(x, row.runId) ensures s in Statuses(y, row.runId) {
      var a :| 0 <= a < |x| && x[a].runId == row.runId && x[a].status == s;
      assert y[a] == x[a];
    }
  }

  /******* The attention table *******/

  lemma OpenRowsAtMostOne(attention: seq<AttentionRow>, a: nat)
    ensures RowsUnique(attention) ==> |OpenRows(attention, a)| <= 1
  {
    var rows := OpenRows(attention, a);
    if |rows| > 1 {
      assert attention[rows[0]].actionId == attention[rows[1]].actionId == Some(a);
      assert rows[0] < rows[1];
    }
  }

  lemma LiveRowIsOpen(actions: seq<ActionRow>, attention: seq<AttentionRow>, a: nat)
    requires RowsAgree(actions, attention) && a < |actions| && actions[a].status in {Prepared, Executing}
    requires HasRow(attention, a)
    ensures OpenRows(attention, a) != []
  {
    var k :| 0 <= k < |attention| && attention[k].actionId == Some(a);
    assert RowAgrees(actions[a], attention[k]);
    assert k in OpenRows(attention, a);
  }

  lemma HasRowKept(x: seq<AttentionRow>, y: seq<AttentionRow>, b: nat)
    requires HasRow(x, b) && |x| <= |y|
    requires forall k :: 0 <= k < |x| ==> y[k].actionId == x[k].actionId
    ensures HasRow(y, b)
  {
    var k :| 0 <= k < |x| && x[k].actionId == Some(b);
    assert y[k].actionId == Some(b);
  }

  lemma RowsPresentKept(actions: seq<ActionRow>, actions': seq<ActionRow>, x: seq<AttentionRow>, y: seq<AttentionRow>)
    requires RowsPresent(actions, x) && |x| <= |y| && |actions'| == |actions|
    requires forall k :: 0 <= k < |x| ==> y[k].actionId == x[k].actionId
    requires forall a :: 0 <= a < |actions| && actions'[a].status in {Prepared, Uncertain} ==>
      actions[a].status in {Prepared, Uncertain} || HasRow(y, a)
    ensures RowsPresent(actions', y)
  {
    forall a | 0 <= a < |actions'| && actions'[a].status in {Prepared, Uncertain} ensures HasRow(y, a) {
      if actions[a].status in {Prepared, Uncertain} { HasRowKept(x, y, a); }
    }
  }

  /** Settling a live action resolves its row and leaves the two tables in agreement. */
  lemma CloseOpenKeeps(actions: seq<ActionRow>, attention: seq<AttentionRow>, a: nat, s: ActionStatus, now: int)
    requires AttentionOk(actions, attention) && a < |actions|
    requires actions[a].status in {Prepared, Executing} && s in {Succeeded, Failed, Cancelled}
    ensures |OpenRows(attention, a)| <= 1
    ensures AttentionOk(actions[a := actions[a].(status := s)], CloseOpen(attention, a, now))
  {
    OpenRowsAtMostOne(attention, a);
    var open := OpenRows(attention, a);
    var actions' := actions[a := actions[a].(status := s)];
    var y := CloseOpen(attention, a, now);
    RowsPresentKept(actions, actions', attention, y);
    forall k | 0 <= k < |y| && y[k].actionId.Some?
      ensures RowAgrees(actions'[y[k].actionId.value], y[k])
    {
      assert RowAgrees(actions[attention[k].actionId.value], attention[k]);
      if attention[k].actionId == Some(a) {
        assert k in open;
      }
    }
  }

  /** An execution that becomes uncertain ends with exactly one open row that says so. */
  lemma NoteUncertainKeeps(actions: seq<ActionRow>, attention: seq<AttentionRow>, a: nat, r: nat)
    requires AttentionOk(actions, attention) && a < |actions| && actions[a].status == Executing
    ensures |OpenRows(attention, a)| <= 1
    ensures AttentionOk(actions[a := actions[a].(status := Uncertain)], NoteUncertain(attention, a, r))
  {
    OpenRowsAtMostOne(attention, a);
    var open := OpenRows(attention, a);
    var actions' := actions[a := actions[a].(status := Uncertain)];
    var y := NoteUncertain(attention, a, r);
    if HasRow(attention, a) { LiveRowIsOpen(actions, attention, a); }
    var at := if open == [] then |attention| else open[0];
    assert y[at].actionId == Some(a);
    RowsPresentKept(actions, actions', attention, y);
    forall k | 0 <= k < |y| && y[k].actionId.Some?
      ensures y[k].actionId.value < |actions'| && RowAgrees(actions'[y[k].actionId.value], y[k])
    {
      if k < |attention| {
        assert RowAgrees(actions[attention[k].actionId.value], attention[k]);
        if attention[k].actionId == Some(a) {
          assert k in open;
        }
      }
    }
  }

  /******* The run table *******/

  lemma ForegroundKept(x: seq<RunRow>, y: seq<RunRow>)
    requires ForegroundUnique(x) && |x| == |y|
    requires forall r :: 0 <= r < |x| ==>
      y[r].kind == x[r].kind && y[r].transcript == x[r].transcript && (y[r].inferenceActive ==> x[r].inferenceActive)
    ensures ForegroundUnique(y)
  {
    forall i, j, t | 0 <= i < j < |y| && ForegroundLive(y[i], t) ensures !ForegroundLive(y[j], t) {
      assert ForegroundLive(x[i], t);
    }
  }

  lemma RecomputeAgrees(db: Db, r: nat, now: int)
    requires r < |db.runs|
    ensures Agrees(Recompute(db, r, now), r)
    ensures Uncertain in Statuses(db.actions, r) ==> Pinned(Recompute(db, r, now).runs[r])
  {
  }

  /** Recomputing run `r` pins it when it must be pinned; the other runs are not touched. */
  lemma RecomputeKeeps(db: Db, r: nat, now: int)
    requires ForegroundUnique(db.runs) && r < |db.runs|
    requires forall a :: 0 <= a < |db.actions| ==>
      && db.actions[a].runId < |db.runs|
      && (db.actions[a].status == Uncertain && db.actions[a].runId != r ==> Pinned(db.runs[db.actions[a].runId]))
    ensures RunsOk(db.actions, Recompute(db, r, now).runs) && ForegroundUnique(Recompute(db, r, now).runs)
  {
    var e := Recompute(db, r, now);
    forall a | 0 <= a < |e.actions| && e.actions[a].status == Uncertain ensures Pinned(e.runs[e.actions[a].runId]) {
      if e.actions[a].runId == r { assert Uncertain in Statuses(db.actions, r); }
    }
    ForegroundKept(db.runs, e.runs);
  }

  /******* Leaving a live state *******/

  ghost predicate OthersUntouched(x: seq<RunRow>, y: seq<RunRow>, r: nat) {
    |x| == |y| && forall i :: 0 <= i < |x| && i != r ==> y[i] == x[i]
  }

  lemma UncertainKeeps(db: Db, a: nat)
    requires Inv(db) && a < |db.actions| && db.actions[a].status == Executing
    ensures var m := MarkUncertain(WithStatus(db, a, Uncertain), a);
      && m.Ok? && Inv(m.value)
      && Agrees(m.value, db.actions[a].runId)
      && OthersUntouched(db.runs, m.value.runs, db.actions[a].runId)
  {
    var r := db.actions[a].runId;
    NoteUncertainKeeps(db.actions, db.attention, a, r);
    var e := MarkUncertain(WithStatus(db, a, Uncertain), a).value;
    assert e.actions[a].status == Uncertain;
    assert Uncertain in Statuses(e.actions, r);
    ForegroundKept(db.runs, e.runs);
  }

  lemma SettleKeeps(db: Db, a: nat, s: ActionStatus, now: int)
    requires Inv(db) && a < |db.actions|
    requires db.actions[a].status in {Prepared, Executing} && s in {Succeeded, Failed, Cancelled}
    ensures var m := ResolveAttentionAndRun(WithStatus(db, a, s), a, now);
      && m.Ok? && Inv(m.value)
      && Agrees(m.value, db.actions[a].runId)
      && OthersUntouched(db.runs, m.value.runs, db.actions[a].runId)
  {
    var r := db.actions[a].runId;
    CloseOpenKeeps(db.actions, db.attention, a, s, now);
    var c := WithStatus(db, a, s).(attention := CloseOpen(db.attention, a, now));
    RecomputeKeeps(c, r, now);
    RecomputeAgrees(c, r, now);
  }

  /******* Adding rows *******/

  lemma AppendActionKeeps(db: Db, row: ActionRow)
    requires Inv(db) && row.runId < |db.runs|
    requires row.status in {Executing, Succeeded, Failed} && row.acknowledgedAt.None?
    ensures Inv(db.(actions := db.actions + [row]))
  {
    var actions := db.actions + [row];
    forall k | 0 <= k < |db.attention| && db.attention[k].actionId.Some?
      ensures RowAgrees(actions[db.attention[k].actionId.value], db.attention[k])
    {
      assert RowAgrees(db.actions[db.attention[k].actionId.value], db.attention[k]);
    }
    forall a | 0 <= a < |actions| && actions[a].status in {Prepared, Uncertain} ensures HasRow(db.attention, a) {
      assert actions[a] == db.actions[a];
    }
  }

  lemma PrepareAttentionKeeps(actions: seq<ActionRow>, attention: seq<AttentionRow>, row: ActionRow)
    requires AttentionOk(actions, attention)
    requires row.status == Prepared && row.acknowledgedAt.None?
    ensures AttentionOk(actions + [row],
                        attention + [AttentionRow(row.runId, Some(|actions|), ApprovalRequired, false, None)])
  {
    var actions' := actions + [row];
    var y := attention + [AttentionRow(row.runId, Some(|actions|), ApprovalRequired, false, None)];
    forall k | 0 <= k < |y| && y[k].actionId.Some?
      ensures y[k].actionId.value < |actions'| && RowAgrees(actions'[y[k].actionId.value], y[k])
    {
      if k < |attention| { assert RowAgrees(actions[attention[k].actionId.value], attention[k]); }
    }
    forall a | 0 <= a < |actions'| && actions'[a].status in {Prepared, Uncertain} ensures HasRow(y, a) {
      if a < |actions| { HasRowKept(attention, y, a); } else { assert y[|attention|].actionId == Some(a); }
    }
  }

  lemma PrepareKeeps(db: Db, r: nat, operation: string, arguments: Arguments, capabilityId: string, now: int)
    requires Inv(db)
    requires Prepare(db, r, operation, arguments, capabilityId, now).Ok?
    ensures var e := Prepare(db, r, operation, arguments, capabilityId, now).value;
      && Inv(e) && Agrees(e, r) && OthersUntouched(db.runs, e.runs, r)
      && |e.actions| == |db.actions| + 1 && e.actions[..|db.actions|] == db.actions
      && e.actions[|db.actions|].status == Prepared && e.actions[|db.actions|].runId == r
  {
    var e := Prepare(db, r, operation, arguments, capabilityId, now).value;
    var row := e.actions[|db.actions|];
    PrepareAttentionKeeps(db.actions, db.attention, row);
    var d := db.(actions := e.actions, attention := e.attention);
    RecomputeKeeps(d, r, now);
    RecomputeAgrees(d, r, now);
  }

  lemma BeginKeeps(db: Db, a: nat, reviewed: Option<Digest>, now: int)
    requires Inv(db) && BeginExecution(db, a, reviewed, now).Ok?
    ensures var e := BeginExecution(db, a, reviewed, now).value;
      && Inv(e) && Agrees(e, db.actions[a].runId) && OthersUntouched(db.runs, e.runs, db.actions[a].runId)
  {
    var r := db.actions[a].runId;
    var d := db.(actions := db.actions[a := db.actions[a].(status := Executing, startedAt := Some(now))]);
    forall k | 0 <= k < |d.attention| && d.attention[k].actionId.Some?
      ensures RowAgrees(d.actions[d.attention[k].actionId.value], d.attention[k])
    {
      assert RowAgrees(db.actions[d.attention[k].actionId.value], d.attention[k]);
    }
    RowsPresentKept(db.actions, d.actions, db.attention, d.attention);
    RecomputeKeeps(d, r, now);
    RecomputeAgrees(d, r, now);
  }

  lemma AcknowledgeKeeps(db: Db, a: nat, now: int)
    requires Inv(db) && Acknowledge(db, a, now).Ok?
    ensures Inv(Acknowledge(db, a, now).value)
  {
    var e := Acknowledge(db, a, now).value;
    var open := OpenRows(db.attention, a);
    RowsPresentKept(db.actions, e.actions, db.attention, e.attention);
    forall k | 0 <= k < |e.attention| && e.attention[k].actionId.Some?
      ensures RowAgrees(e.actions[e.attention[k].actionId.value], e.attention[k])
    {
      assert RowAgrees(db.actions[db.attention[k].actionId.value], db.attention[k]);
      if db.attention[k].actionId == Some(a) { assert k == open[0]; }
    }
  }

  lemma FinishRunKeeps(db: Db, r: nat, succeeded: bool, now: int)
    requires Inv(db) && r < |db.runs| && FinishRun(db, r, succeeded, now).Ok?
    ensures var e := FinishRun(db, r, succeeded, now).value;
      Inv(e) && Agrees(e, r) && OthersUntouched(db.runs, e.runs, r)
  {
    var d := db.(runs := db.runs[r := db.runs[r].(
      inferenceActive := false, inference := if succeeded then InferenceSucceeded else InferenceFailed)]);
    ForegroundKept(db.runs, d.runs);
    RecomputeKeeps(d, r, now);
    RecomputeAgrees(d, r, now);
  }

  /******* Interruption *******/

  /** Some executing actions of run `r` became uncertain; nothing else happened to the actions. */
  ghost predicate OnlyUncertain(x: seq<ActionRow>, y: seq<ActionRow>, r: nat) {
    |x| == |y| && forall a :: 0 <= a < |x| ==>
      y[a] == x[a] || (x[a].runId == r && x[a].status == Executing && y[a] == x[a].(status := Uncertain))
  }

  lemma {:induction false} MarkExecutingOk(db: Db, r: nat, n: nat)
    requires Inv(db) && r < |db.runs| && n <= |db.actions|
    ensures MarkExecuting(db, r, n).Ok? && Inv(MarkExecuting(db, r, n).value)
    decreases n
  {
    if n > 0 {
      MarkExecutingOk(db, r, n - 1);
      var d := MarkExecuting(db, r, n - 1).value;
      if n - 1 < |d.actions| && d.actions[n - 1].runId == r && d.actions[n - 1].status == Executing {
        UncertainKeeps(d, n - 1);
      }
    }
  }

  /** Nothing of run `r` changed but its status and its finish time. */
  ghost predicate OnlyStatus(x: seq<RunRow>, y: seq<RunRow>, r: nat) {
    r < |x| && r < |y| ==> y[r] == x[r].(status := y[r].status, finishedAt := y[r].finishedAt)
  }

  lemma MarkScope(d: Db, a: nat)
    requires a < |d.actions| && MarkUncertain(WithStatus(d, a, Uncertain), a).Ok?
    ensures var e := MarkUncertain(WithStatus(d, a, Uncertain), a).value;
      && e.actions == d.actions[a := d.actions[a].(status := Uncertain)]
      && OthersUntouched(d.runs, e.runs, d.actions[a].runId) && OnlyStatus(d.runs, e.runs, d.actions[a].runId)
  {
  }

  ghost predicate MarkedBelow(x: seq<ActionRow>, y: seq<ActionRow>, r: nat, n: nat) {
    && OnlyUncertain(x, y, r)
    && (forall a :: 0 <= a < n <= |x| && x[a].runId == r ==> y[a].status != Executing)
    && (forall a :: n <= a < |x| ==> y[a] == x[a])
  }

  lemma MarkedStep(x: seq<ActionRow>, y: seq<ActionRow>, r: nat, n: nat)
    requires n < |x| && MarkedBelow(x, y, r, n)
    ensures y[n].runId == r && y[n].status == Executing ==>
      MarkedBelow(x, y[n := y[n].(status := Uncertain)], r, n + 1)
    ensures !(y[n].runId == r && y[n].status == Executing) ==> MarkedBelow(x, y, r, n + 1)
  {
  }

  lemma {:induction false} MarkExecutingScope(db: Db, r: nat, n: nat)
    requires n <= |db.actions| && MarkExecuting(db, r, n).Ok?
    ensures var m := MarkExecuting(db, r, n).value;
      MarkedBelow(db.actions, m.actions, r, n) && OthersUntouched(db.runs, m.runs, r) && OnlyStatus(db.runs, m.runs, r)
    decreases n
  {
    if n > 0 {
      MarkExecutingScope(db, r, n - 1);
      var d := MarkExecuting(db, r, n - 1).value;
      MarkedStep(db.actions, d.actions, r, n - 1);
      if d.actions[n - 1].runId == r && d.actions[n - 1].status == Executing {
        MarkScope(d, n - 1);
      }
    }
  }

  lemma InterruptKeeps(db: Db, r: nat, notify: bool, now: int)
    requires Inv(db) && r < |db.runs| && Interruptible(db.runs[r].inference)
    ensures var m := Interrupt(db, r, notify, now);
      && m.Ok? && Inv(m.value) && Agrees(m.value, r)
      && OnlyUncertain(db.actions, m.value.actions, r)
      && OthersUntouched(db.runs, m.value.runs, r)
      && (forall a :: 0 <= a < |db.actions| && db.actions[a].runId == r ==> m.value.actions[a].status != Executing)
      && (notify ==> HasNotice(m.value.attention, r))
      && m.value.runs[r] == db.runs[r].(inferenceActive := false, inference := InferenceInterrupted,
                                        status := m.value.runs[r].status, finishedAt := m.value.runs[r].finishedAt)
  {
    var d := db.(runs := db.runs[r := db.runs[r].(inferenceActive := false, inference := InferenceInterrupted)]);
    ForegroundKept(db.runs, d.runs);
    assert Inv(d);
    MarkExecutingOk(d, r, |d.actions|);
    MarkExecutingScope(d, r, |d.actions|);
    var m := MarkExecuting(d, r, |d.actions|).value;
    RecomputeKeeps(m, r, now);
    RecomputeAgrees(m, r, now);
    var c := Recompute(m, r, now);
    var e := Interrupt(db, r, notify, now).value;
    if notify && !HasNotice(c.attention, r) {
      assert e.attention == c.attention + [AttentionRow(r, None, InterruptedWork, false, None)];
      RowsPresentKept(c.actions, e.actions, c.attention, e.attention);
      assert e.attention[|c.attention|] == AttentionRow(r, None, InterruptedWork, false, None);
    }
  }

  lemma AbandonKeeps(db: Db, r: nat)
    requires Inv(db)
    ensures Inv(Abandon(db, r))
  {
    ForegroundKept(db.runs, Abandon(db, r).runs);
  }

  lemma DismissKeeps(db: Db, now: int)
    requires Inv(db)
    ensures Inv(DismissNotices(db, now))
    ensures var x, y := db.attention, DismissNotices(db, now).attention;
      && |y| == |x|
      && (forall r :: !HasNotice(y, r))
      && (forall k :: 0 <= k < |x| ==>
            y[k] == x[k] || (HasNotice(x, x[k].runId) && y[k] == x[k].(resolved := true, resolvedAt := Some(now))))
      && (forall k :: 0 <= k < |x| && (x[k].actionId.Some? || x[k].resolved) ==> y[k] == x[k])
  {
    var e := DismissNotices(db, now);
    RowsPresentKept(db.actions, e.actions, db.attention, e.attention);
    forall k | 0 <= k < |e.attention| && e.attention[k].actionId.Some?
      ensures RowAgrees(e.actions[e.attention[k].actionId.value], e.attention[k])
    {
      assert e.attention[k] == db.attention[k];
    }
  }

  lemma TamperKeeps(db: Db, a: nat, proposal: StoredProposal)
    requires Inv(db)
    ensures Inv(Tamper(db, a, proposal))
  {
    var e := Tamper(db, a, proposal);
    forall k | 0 <= k < |e.attention| && e.attention[k].actionId.Some?
      ensures RowAgrees(e.actions[e.attention[k].actionId.value], e.attention[k])
    {
      assert RowAgrees(db.actions[db.attention[k].actionId.value], db.attention[k]);
    }
    RowsPresentKept(db.actions, e.actions, db.attention, e.attention);
  }

  lemma CreateRunKeeps(db: Db, transcript: Option<nat>, kind: RunKind, now: int)
    requires Inv(db) && CreateRun(db, transcript, kind, now).Ok?
    ensures Inv(CreateRun(db, transcript, kind, now).value)
  {
    var e := CreateRun(db, transcript, kind, now).value;
    forall i, j, t | 0 <= i < j < |e.runs| && ForegroundLive(e.runs[i], t) ensures !ForegroundLive(e.runs[j], t) {
      assert ForegroundLive(db.runs[i], t);
    }
  }

  /******* Every transaction keeps the invariant *******/

  lemma CommitKeepsInv(db: Db, tx: Tx, now: int)
    requires Inv(db)
    ensures Inv(Commit(db, tx, now))
  {
    if Apply(db, tx, now).Ok? {
      match tx
      case TxCreateRun(t, k) => CreateRunKeeps(db, t, k, now);
      case TxRecord(r, op, args, ok) => AppendActionKeeps(db, Commit(db, tx, now).actions[|db.actions|]);
      case TxPrepare(r, op, args, cap) => PrepareKeeps(db, r, op, args, cap, now);
      case TxBegin(a, h) => BeginKeeps(db, a, h, now);
      case TxBeginAutomatic(r, op, args, cap) => AppendActionKeeps(db, Commit(db, tx, now).actions[|db.actions|]);
      case TxCancel(a) => SettleKeeps(db, a, Cancelled, now);
      case TxComplete(a, s) => if s == Uncertain { UncertainKeeps(db, a); } else { SettleKeeps(db, a, s, now); }
      case TxSweep(a, stale) => if SweepRow(db, a, stale).value.Some? { UncertainKeeps(db, a); }
      case TxAcknowledge(a) => AcknowledgeKeeps(db, a, now);
      case TxFinishRun(r, ok) => if r < |db.runs| { FinishRunKeeps(db, r, ok, now); }
      case TxAbandon(r) => AbandonKeeps(db, r);
      case TxInterrupt(r, notify) =>
        if r < |db.runs| && Interruptible(db.runs[r].inference) { InterruptKeeps(db, r, notify, now); }
      case TxHeartbeat(r) => ForegroundKept(db.runs, Heartbeat(db, r, now).runs);
      case TxDismissNotices => DismissKeeps(db, now);
      case TxTamper(a, p) => TamperKeeps(db, a, p);
      case TxSetTask(t, task) =>
    }
  }

  lemma UpdateEvolves(x: seq<ActionRow>, a: nat, row: ActionRow)
    requires a < |x| && RowEvolves(x[a], row)
    ensures Evolves(x, x[a := row])
  {
  }

  lemma AppendEvolves(x: seq<ActionRow>, row: ActionRow)
    requires row.status !in {Cancelled, Uncertain}
    ensures Evolves(x, x + [row])
  {
  }

  lemma MovedEvolves(db: Db, tx: Tx, now: int, a: nat)
    requires Apply(db, tx, now).Ok? && a < |db.actions|
    requires (tx.TxBegin? || tx.TxCancel? || tx.TxComplete? || tx.TxAcknowledge?) && tx.action == a
    ensures Evolves(db.actions, Commit(db, tx, now).actions)
  {
    UpdateEvolves(db.actions, a, Commit(db, tx, now).actions[a]);
  }

  lemma SweptEvolves(db: Db, a: nat, staleBefore: int)
    requires a < |db.actions| && SweepRow(db, a, staleBefore).Ok? && SweepRow(db, a, staleBefore).value.Some?
    ensures Evolves(db.actions, SweepRow(db, a, staleBefore).value.value.actions)
  {
    UpdateEvolves(db.actions, a, SweepRow(db, a, staleBefore).value.value.actions[a]);
  }

  lemma AddedEvolves(db: Db, tx: Tx, now: int)
    requires Apply(db, tx, now).Ok? && (tx.TxRecord? || tx.TxPrepare? || tx.TxBeginAutomatic?)
    ensures Evolves(db.actions, Commit(db, tx, now).actions)
  {
    AppendEvolves(db.actions, Commit(db, tx, now).actions[|db.actions|]);
  }

  lemma InterruptEvolves(db: Db, r: nat, notify: bool, now: int)
    requires Inv(db)
    ensures Interrupt(db, r, notify, now).Ok?
    ensures Evolves(db.actions, Interrupt(db, r, notify, now).value.actions)
  {
    if r < |db.runs| && Interruptible(db.runs[r].inference) {
      InterruptKeeps(db, r, notify, now);
      OnlyUncertainEvolves(db.actions, Interrupt(db, r, notify, now).value.actions, r);
    }
  }

  lemma OnlyUncertainEvolves(x: seq<ActionRow>, y: seq<ActionRow>, r: nat)
    requires OnlyUncertain(x, y, r)
    ensures Evolves(x, y)
  {
  }

  /** No transaction moves an action backwards, out of an outcome, or rewrites what it is. */
  lemma CommitEvolves(db: Db, tx: Tx, now: int)
    requires Inv(db)
    ensures Evolves(db.actions, Commit(db, tx, now).actions)
  {
    if Apply(db, tx, now).Ok? {
      match tx
      case TxInterrupt(r, notify) => InterruptEvolves(db, r, notify, now);
      case TxRecord(_, _, _, _) => AddedEvolves(db, tx, now);
      case TxPrepare(_, _, _, _) => AddedEvolves(db, tx, now);
      case TxBeginAutomatic(_, _, _, _) => AddedEvolves(db, tx, now);
      case TxBegin(a, _) => MovedEvolves(db, tx, now, a);
      case TxCancel(a) => MovedEvolves(db, tx, now, a);
      case TxComplete(a, _) => MovedEvolves(db, tx, now, a);
      case TxAcknowledge(a) => MovedEvolves(db, tx, now, a);
      case TxSweep(a, stale) => if SweepRow(db, a, stale).value.Some? { SweptEvolves(db, a, stale); }
      case TxTamper(a, _) => if a < |db.actions| { UpdateEvolves(db.actions, a, Commit(db, tx, now).actions[a]); }
      case _ => assert Commit(db, tx, now).actions == db.actions;
    }
  }

  lemma InterruptOneRow(db: Db, r: nat, notify: bool, now: int)
    requires Inv(db)
    ensures Interrupt(db, r, notify, now).Ok?
  {
    if r < |db.runs| && Interruptible(db.runs[r].inference) { InterruptKeeps(db, r, notify, now); }
  }

  lemma OneRowTransactions(db: Db, tx: Tx, now: int)
    requires RowsUnique(db.attention) && !tx.TxInterrupt?
    ensures Apply(db, tx, now) != Err(MultipleRows)
  {
    if tx.TxAcknowledge? || tx.TxCancel? || tx.TxComplete? || tx.TxSweep? {
      OpenRowsAtMostOne(db.attention, tx.action);
    }
  }

  /** Under the invariant the one-row attention query never finds two rows. */
  lemma NeverMultipleRows(db: Db, tx: Tx, now: int)
    requires Inv(db)
    ensures Apply(db, tx, now) != Err(MultipleRows)
  {
    if tx.TxInterrupt? {
      InterruptOneRow(db, tx.run, tx.notify, now);
    } else {
      OneRowTransactions(db, tx, now);
    }
  }

  /******* When a transaction leaves the stored run status out of date *******/

  /**
   The three transactions that write without recomputing, and exactly when that shows:
   a failed execution recorded on a run that had ended well, an automatic execution begun
   on a run that is not running, and ownership withdrawn from a run that only its
   inference kept running.
   */
  predicate LeavesStale(db: Db, tx: Tx, r: nat)
    requires r < |db.runs|
  {
    match tx
    case TxRecord(q, _, _, succeeded) => q == r && !succeeded && db.runs[r].status in {RunSucceeded, RunCancelled}
    case TxBeginAutomatic(q, _, _, _) =>
      q == r && !TaskBlocks(db, r) && db.runs[r].status !in {RunUncertain, RunRunning}
    case TxAbandon(q) =>
      q == r && db.runs[r].inference == InferenceRunning && db.runs[r].status == RunRunning
      && Executing !in Statuses(db.actions, r)
    case _ => false
  }

  /** The transactions that recompute, or pin, the run they work on. */
  predicate Refreshes(db: Db, tx: Tx, r: nat) {
    match tx
    case TxPrepare(q, _, _, _) => q == r
    case TxBegin(a, _) => a < |db.actions| && db.actions[a].runId == r
    case TxCancel(a) => a < |db.actions| && db.actions[a].runId == r
    case TxComplete(a, _) => a < |db.actions| && db.actions[a].runId == r
    case TxSweep(a, stale) =>
      a < |db.actions| && db.actions[a].runId == r && db.actions[a].status == Executing
      && !HeartbeatFresh(db, r, stale)
    case TxFinishRun(q, _) => q == r && r < |db.runs|
    case TxInterrupt(q, _) => q == r && r < |db.runs| && Interruptible(db.runs[r].inference)
    case _ => false
  }

  /** After a committed transaction that recomputes a run, its stored status is the derived one. */
  lemma RefreshAgrees(db: Db, tx: Tx, now: int, r: nat)
    requires Inv(db) && Apply(db, tx, now).Ok? && Refreshes(db, tx, r)
    ensures Agrees(Commit(db, tx, now), r)
  {
    match tx
    case TxPrepare(q, op, args, cap) => PrepareKeeps(db, q, op, args, cap, now);
    case TxBegin(a, h) => BeginKeeps(db, a, h, now);
    case TxCancel(a) => SettleKeeps(db, a, Cancelled, now);
    case TxComplete(a, s) => if s == Uncertain { UncertainKeeps(db, a); } else { SettleKeeps(db, a, s, now); }
    case TxSweep(a, stale) => UncertainKeeps(db, a);
    case TxFinishRun(q, ok) => FinishRunKeeps(db, q, ok, now);
    case TxInterrupt(q, notify) => InterruptKeeps(db, q, notify, now);
  }

  lemma OtherRunsAction(db: Db, e: Db, a: nat, r: nat)
    requires Agrees(db, r) && a < |db.actions| && db.actions[a].runId != r
    requires |e.actions| == |db.actions| && e.actions == db.actions[a := e.actions[a]]
    requires e.actions[a].runId == db.actions[a].runId
    requires r < |e.runs| && e.runs[r] == db.runs[r]
    ensures Agrees(e, r)
  {
    StatusesFrame(db.actions, e.actions, r);
  }

  lemma OtherRunPrepared(db: Db, q: nat, op: string, args: Arguments, cap: string, now: int, r: nat)
    requires Inv(db) && Agrees(db, r) && r != q && Prepare(db, q, op, args, cap, now).Ok?
    ensures Agrees(Prepare(db, q, op, args, cap, now).value, r)
  {
    PrepareKeeps(db, q, op, args, cap, now);
    var e := Prepare(db, q, op, args, cap, now).value;
    assert forall a :: 0 <= a < |db.actions| ==> e.actions[a] == e.actions[..|db.actions|][a];
    StatusesFrame(db.actions, e.actions, r);
  }

  lemma OtherRunInterrupted(db: Db, q: nat, notify: bool, now: int, r: nat)
    requires Inv(db) && Agrees(db, r) && r != q
    ensures Interrupt(db, q, notify, now).Ok? && Agrees(Interrupt(db, q, notify, now).value, r)
  {
    if q < |db.runs| && Interruptible(db.runs[q].inference) {
      InterruptKeeps(db, q, notify, now);
      StatusesFrame(db.actions, Interrupt(db, q, notify, now).value.actions, r);
    }
  }

  lemma OtherRunSettled(db: Db, a: nat, s: ActionStatus, now: int, r: nat)
    requires Inv(db) && Agrees(db, r) && a < |db.actions| && db.actions[a].runId != r
    requires db.actions[a].status in {Prepared, Executing} && s in {Succeeded, Failed, Cancelled}
    ensures ResolveAttentionAndRun(WithStatus(db, a, s), a, now).Ok?
    ensures Agrees(ResolveAttentionAndRun(WithStatus(db, a, s), a, now).value, r)
  {
    SettleKeeps(db, a, s, now);
    OtherRunsAction(db, ResolveAttentionAndRun(WithStatus(db, a, s), a, now).value, a, r);
  }

  lemma OtherRunUncertain(db: Db, a: nat, r: nat)
    requires Inv(db) && Agrees(db, r) && a < |db.actions| && db.actions[a].runId != r
      && db.actions[a].status == Executing
    ensures MarkUncertain(WithStatus(db, a, Uncertain), a).Ok?
    ensures Agrees(MarkUncertain(WithStatus(db, a, Uncertain), a).value, r)
  {
    UncertainKeeps(db, a);
    OtherRunsAction(db, MarkUncertain(WithStatus(db, a, Uncertain), a).value, a, r);
  }

  lemma OtherRunBegun(db: Db, a: nat, h: Option<Digest>, now: int, r: nat)
    requires Inv(db) && Agrees(db, r) && BeginExecution(db, a, h, now).Ok? && db.actions[a].runId != r
    ensures Agrees(BeginExecution(db, a, h, now).value, r)
  {
    BeginKeeps(db, a, h, now);
    OtherRunsAction(db, BeginExecution(db, a, h, now).value, a, r);
  }

  /** A transition of another run's action leaves run `r` as it was. */
  lemma OtherRunMoved(db: Db, tx: Tx, now: int, r: nat)
    requires Inv(db) && Agrees(db, r) && Apply(db, tx, now).Ok?
    requires !Refreshes(db, tx, r) && (tx.TxBegin? || tx.TxCancel? || tx.TxComplete? || tx.TxSweep?)
    ensures Agrees(Commit(db, tx, now), r)
  {
    match tx
    case TxBegin(a, h) => OtherRunBegun(db, a, h, now, r);
    case TxCancel(a) => OtherRunSettled(db, a, Cancelled, now, r);
    case TxComplete(a, s) =>
      if s == Uncertain { OtherRunUncertain(db, a, r); } else { OtherRunSettled(db, a, s, now, r); }
    case TxSweep(a, stale) => if SweepRow(db, a, stale).value.Some? { OtherRunUncertain(db, a, r); }
  }

  lemma RunRowsOnly(db: Db, tx: Tx, now: int, r: nat)
    requires Agrees(db, r) && Apply(db, tx, now).Ok? && !Refreshes(db, tx, r)
    requires
      || tx.TxCreateRun? || tx.TxFinishRun? || tx.TxAbandon?
      || tx.TxHeartbeat? || tx.TxDismissNotices? || tx.TxSetTask?
    requires !tx.TxAbandon? || tx.run != r
    ensures Agrees(Commit(db, tx, now), r)
  {
    assert Commit(db, tx, now).actions == db.actions;
  }

  lemma ActionRowsOnly(db: Db, tx: Tx, now: int, r: nat)
    requires Agrees(db, r) && Apply(db, tx, now).Ok?
    requires tx.TxRecord? || tx.TxBeginAutomatic? || tx.TxAcknowledge? || tx.TxTamper?
    requires tx.TxRecord? || tx.TxBeginAutomatic? ==> tx.run != r
    ensures Agrees(Commit(db, tx, now), r)
  {
    StatusesFrame(db.actions, Commit(db, tx, now).actions, r);
  }

  lemma AppendAgreement(db: Db, tx: Tx, now: int, r: nat)
    requires Agrees(db, r) && Apply(db, tx, now).Ok?
    requires (tx.TxRecord? || tx.TxBeginAutomatic?) && tx.run == r
    ensures Agrees(Commit(db, tx, now), r) <==> !LeavesStale(db, tx, r)
  {
    StatusesAppend(db.actions, Commit(db, tx, now).actions[|db.actions|]);
  }

  /**
   For a run whose stored status is the derived one, a transaction keeps that agreement
   if and only if it is not one of the three stale writes.
   */
  lemma AgreementKeptExactly(db: Db, tx: Tx, now: int, r: nat)
    requires Inv(db) && Agrees(db, r)
    ensures Agrees(Commit(db, tx, now), r) <==> !LeavesStale(db, tx, r)
  {
    if Apply(db, tx, now).Ok? {
      if Refreshes(db, tx, r) {
        RefreshAgrees(db, tx, now, r);
      } else if (tx.TxRecord? || tx.TxBeginAutomatic?) && tx.run == r {
        AppendAgreement(db, tx, now, r);
      } else if tx.TxAbandon? && tx.run == r {
        assert Commit(db, tx, now).actions == db.actions;
      } else {
        match tx
        case TxPrepare(q, op, args, cap) => OtherRunPrepared(db, q, op, args, cap, now, r);
        case TxInterrupt(q, notify) => if q != r { OtherRunInterrupted(db, q, notify, now, r); }
        case TxBegin(_, _) => OtherRunMoved(db, tx, now, r);
        case TxCancel(_) => OtherRunMoved(db, tx, now, r);
        case TxComplete(_, _) => OtherRunMoved(db, tx, now, r);
        case TxSweep(_, _) => OtherRunMoved(db, tx, now, r);
        case TxRecord(_, _, _, _) => ActionRowsOnly(db, tx, now, r);
        case TxBeginAutomatic(_, _, _, _) => ActionRowsOnly(db, tx, now, r);
        case TxAcknowledge(_) => ActionRowsOnly(db, tx, now, r);
        case TxTamper(_, _) => ActionRowsOnly(db, tx, now, r);
        case _ => RunRowsOnly(db, tx, now, r);
      }
    }
  }

  /******* The scheduler's own writes *******/

  lemma QueueRunKeeps(db: Db, transcript: nat)
    requires Inv(db)
    ensures Inv(QueueRun(db, transcript)) && Statuses(QueueRun(db, transcript).actions, |db.runs|) == {}
  {
    var e := QueueRun(db, transcript);
    forall a | 0 <= a < |e.actions| ensures e.actions[a].runId < |db.runs| {
      assert e.actions[a] == db.actions[a];
    }
  }

  /**
   Claiming a queued run writes its status outright, without looking at its actions. That keeps the invariant if and
   only if the run owns no uncertain action, as it does when nothing worked for it while it was queued.
   */
  lemma ClaimKeepsExactly(db: Db, r: nat, now: int)
    requires Inv(db) && r < |db.runs| && db.runs[r].inference == InferenceQueued && db.runs[r].kind != Foreground
    ensures Inv(ClaimRun(db, r, now)) <==> Uncertain !in Statuses(db.actions, r)
  {
    var e := ClaimRun(db, r, now);
    if Uncertain in Statuses(db.actions, r) {
      var a :| 0 <= a < |db.actions| && db.actions[a].runId == r && db.actions[a].status == Uncertain;
      assert !Pinned(e.runs[e.actions[a].runId]);
    } else {
      forall a | 0 <= a < |e.actions| && e.actions[a].status == Uncertain ensures e.actions[a].runId != r {
        StatusPresent(db.actions, a);
      }
      ForegroundClaimed(db, r, now);
    }
  }

  lemma StatusPresent(actions: seq<ActionRow>, a: nat)
    requires a < |actions|
    ensures actions[a].status in Statuses(actions, actions[a].runId)
  {
  }

  lemma ForegroundClaimed(db: Db, r: nat, now: int)
    requires ForegroundUnique(db.runs) && r < |db.runs| && db.runs[r].kind != Foreground
    ensures ForegroundUnique(ClaimRun(db, r, now).runs)
  {
  }
}
