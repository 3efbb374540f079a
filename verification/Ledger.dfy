/**
 The action authority ledger: its three tables and its transactions as functions on
 the committed rows.  A row's identifier is its index, so identifiers are never reused.
 */
module Ledger {
  import opened Common

  const OWNER_PRINCIPAL := "owner:jaco"
  const PROPOSAL_TTL: int := 3600

  /******* Proposals and their digests *******/

  /** A string; the ISO rendering of an instant is kept symbolic. */
  datatype Text = Plain(s: string) | Iso(at: int)

  /** A stored JSON scalar: a string, or something else that `str()` renders as text. */
  datatype Json = Str(text: Text) | Other(rendering: Text)

  function PyStr(j: Json): Text {
    match j
    case Str(t) => t
    case Other(t) => t
  }

  /** A JSON object, each value by its canonical rendering. */
  type Arguments = map<string, string>

  datatype Payload = Payload(
    operation: Text, arguments: Arguments, principal: Text,
    createdAt: Text, expiresAt: Text, capabilityId: Text)

  /** SHA-256 of the canonical JSON of a payload; collision-free by construction. */
  datatype Digest = Sha256(payload: Payload)

  datatype StoredProposal =
    | Missing
    | Incomplete
    | Stored(operation: Json, arguments: Arguments, principal: Json,
             createdAt: Json, expiresAt: Json, capabilityId: Json)

  function HeadSegment(operation: string): string {
    if operation == "" || operation[0] == '.' then ""
    else [operation[0]] + HeadSegment(operation[1..])
  }

  function CapabilityOf(operation: string, capabilityId: string): string {
    if capabilityId != "" then capabilityId else HeadSegment(operation)
  }

  function Sealed(operation: string, arguments: Arguments, createdAt: int, expiresAt: int,
                  capabilityId: string): Digest
  {
    Sha256(Payload(Plain(operation), arguments, Plain(OWNER_PRINCIPAL),
                   Iso(createdAt), Iso(expiresAt), Plain(capabilityId)))
  }

  function StoredDigest(p: StoredProposal): Digest
    requires p.Stored?
  {
    Sha256(Payload(PyStr(p.operation), p.arguments, PyStr(p.principal),
                   PyStr(p.createdAt), PyStr(p.expiresAt), PyStr(p.capabilityId)))
  }

  /******* Tables *******/

  datatype ActionStatus = Prepared | Executing | Succeeded | Failed | Cancelled | Uncertain

  datatype RunStatus =
    RunQueued | RunRunning | RunWaiting | RunUncertain | RunSucceeded | RunFailed | RunCancelled | RunInterrupted

  datatype RunKind = Foreground | Scheduled | Background

  datatype Inference = InferenceQueued | InferenceRunning | InferenceSucceeded | InferenceFailed | InferenceInterrupted

  datatype ActionRow = ActionRow(
    runId: nat, operation: string, targetHash: Digest, status: ActionStatus,
    proposal: StoredProposal, automatic: bool,
    startedAt: Option<int>, acknowledgedAt: Option<int>)

  datatype RunRow = RunRow(
    kind: RunKind, transcript: Option<nat>, status: RunStatus, finishedAt: Option<int>,
    inferenceActive: bool, inference: Inference, heartbeatAt: Option<int>)

  datatype Notice = ApprovalRequired | UncertainEffect | InterruptedWork

  datatype AttentionRow = AttentionRow(
    runId: nat, actionId: Option<nat>, state: Notice, resolved: bool, resolvedAt: Option<int>)

  /** The task a transcript carries: only a managed task can block effects. */
  datatype Task = Task(managed: bool, active: bool)

  datatype Db = Db(
    actions: seq<ActionRow>, runs: seq<RunRow>, attention: seq<AttentionRow>, tasks: map<nat, Task>)

  datatype Refusal =
    | NotFound | ForegroundBusy | TaskNotActive
    | PayloadMissing | PayloadIncomplete | IdentityChanged | ExpiryInvalid | Expired
    | IntegrityFailed | ReviewedHashChanged
    | NotExecutable | NotCancellable | ExecutionLost | BadOutcome | NotUncertain
    | AttentionNotFound | MultipleRows | InferenceGone

  /******* Derived run status *******/

  function Statuses(actions: seq<ActionRow>, r: nat): set<ActionStatus> {
    set a | 0 <= a < |actions| && actions[a].runId == r :: actions[a].status
  }

  function Derived(statuses: set<ActionStatus>, run: RunRow): RunStatus {
    if Uncertain in statuses then RunUncertain
    else if Executing in statuses then RunRunning
    else if Prepared in statuses then RunWaiting
    else if run.inferenceActive then RunRunning
    else if Failed in statuses || run.inference in {InferenceFailed, InferenceInterrupted} then
      if run.inference == InferenceInterrupted then RunInterrupted else RunFailed
    else if Cancelled in statuses then RunCancelled
    else RunSucceeded
  }

  predicate Finished(s: RunStatus) {
    s in {RunSucceeded, RunFailed, RunCancelled, RunInterrupted}
  }

  function Recompute(db: Db, r: nat, now: int): Db {
    if r >= |db.runs| then db
    else
      var s := Derived(Statuses(db.actions, r), db.runs[r]);
      db.(runs := db.runs[r := db.runs[r].(
        status := s, finishedAt := if Finished(s) then Some(now) else None)])
  }

  /******* Attention rows *******/

  predicate IsOpen(row: AttentionRow, a: nat) {
    row.actionId == Some(a) && !row.resolved
  }

  /** Indices of the unresolved attention rows of action `a`, oldest first. */
  function OpenRows(attention: seq<AttentionRow>, a: nat): (rows: seq<nat>)
    ensures forall i :: 0 <= i < |rows| ==> rows[i] < |attention| && IsOpen(attention[rows[i]], a)
    ensures forall k :: 0 <= k < |attention| && IsOpen(attention[k], a) ==> k in rows
    ensures forall i, j :: 0 <= i < j < |rows| ==> rows[i] < rows[j]
  {
    if attention == [] then []
    else
      var last := |attention| - 1;
      var rest := OpenRows(attention[..last], a);
      if IsOpen(attention[last], a) then rest + [last] else rest
  }

  function Close(row: AttentionRow, now: int): AttentionRow {
    row.(resolved := true, resolvedAt := Some(now))
  }

  /** The attention table once the open row of action `a`, if any, is resolved. */
  function CloseOpen(attention: seq<AttentionRow>, a: nat, now: int): seq<AttentionRow> {
    var open := OpenRows(attention, a);
    if open == [] then attention else attention[open[0] := Close(attention[open[0]], now)]
  }

  /** The attention table once action `a` has an open row that says its effect is uncertain. */
  function NoteUncertain(attention: seq<AttentionRow>, a: nat, r: nat): seq<AttentionRow> {
    var open := OpenRows(attention, a);
    if open == [] then attention + [AttentionRow(r, Some(a), UncertainEffect, false, None)]
    else attention[open[0] := attention[open[0]].(state := UncertainEffect)]
  }

  function PinRun(runs: seq<RunRow>, r: nat): seq<RunRow> {
    if r >= |runs| then runs else runs[r := runs[r].(status := RunUncertain, finishedAt := None)]
  }

  function ResolveAttentionAndRun(db: Db, a: nat, now: int): Outcome<Db, Refusal>
    requires a < |db.actions|
  {
    if |OpenRows(db.attention, a)| > 1 then Err(MultipleRows)
    else Ok(Recompute(db.(attention := CloseOpen(db.attention, a, now)), db.actions[a].runId, now))
  }

  function MarkUncertain(db: Db, a: nat): Outcome<Db, Refusal>
    requires a < |db.actions|
  {
    var r := db.actions[a].runId;
    if |OpenRows(db.attention, a)| > 1 then Err(MultipleRows)
    else Ok(db.(attention := NoteUncertain(db.attention, a, r), runs := PinRun(db.runs, r)))
  }

  function WithStatus(db: Db, a: nat, s: ActionStatus): Db
    requires a < |db.actions|
  {
    db.(actions := db.actions[a := db.actions[a].(status := s)])
  }

  /******* Transactions *******/

  predicate TaskBlocks(db: Db, r: nat)
    requires r < |db.runs|
  {
    var t := db.runs[r].transcript;
    t.Some? && t.value in db.tasks && db.tasks[t.value].managed && !db.tasks[t.value].active
  }

  predicate ForegroundLive(run: RunRow, transcript: nat) {
    run.kind == Foreground && run.transcript == Some(transcript) && run.inferenceActive
  }

  function CreateRun(db: Db, transcript: Option<nat>, kind: RunKind, now: int): Outcome<Db, Refusal> {
    if kind == Foreground && transcript.Some?
       && exists r :: 0 <= r < |db.runs| && ForegroundLive(db.runs[r], transcript.value)
    then Err(ForegroundBusy)
    else Ok(db.(runs := db.runs + [
      RunRow(kind, transcript, RunRunning, None, true, InferenceRunning, Some(now))]))
  }

  function RecordExecution(db: Db, r: nat, operation: string, arguments: Arguments, succeeded: bool,
                           now: int): Outcome<Db, Refusal>
  {
    if r >= |db.runs| then Err(NotFound)
    else Ok(db.(actions := db.actions + [
      ActionRow(r, operation, Sealed(operation, arguments, now, now, HeadSegment(operation)),
                if succeeded then Succeeded else Failed, Missing, false, None, None)]))
  }

  function Prepare(db: Db, r: nat, operation: string, arguments: Arguments, capabilityId: string,
                   now: int): Outcome<Db, Refusal>
  {
    if r >= |db.runs| then Err(NotFound)
    else if TaskBlocks(db, r) then Err(TaskNotActive)
    else
      var cap := CapabilityOf(operation, capabilityId);
      var expires := now + PROPOSAL_TTL;
      var proposal := Stored(Str(Plain(operation)), arguments, Str(Plain(OWNER_PRINCIPAL)),
                             Str(Iso(now)), Str(Iso(expires)), Str(Plain(cap)));
      var d := db.(
        actions := db.actions + [
          ActionRow(r, operation, Sealed(operation, arguments, now, expires, cap), Prepared,
                    proposal, false, None, None)],
        attention := db.attention + [
          AttentionRow(r, Some(|db.actions|), ApprovalRequired, false, None)]);
      Ok(Recompute(d, r, now))
  }

  function VerifyProposal(action: ActionRow, now: int): Outcome<StoredProposal, Refusal> {
    var p := action.proposal;
    if p.Missing? then Err(PayloadMissing)
    else if p.Incomplete? then Err(PayloadIncomplete)
    else if p.operation != Str(Plain(action.operation)) || p.principal != Str(Plain(OWNER_PRINCIPAL)) then
      Err(IdentityChanged)
    else if PyStr(p.expiresAt).Plain? then Err(ExpiryInvalid)
    else if now >= PyStr(p.expiresAt).at then Err(Expired)
    else if StoredDigest(p) != action.targetHash then Err(IntegrityFailed)
    else Ok(p)
  }

  function BeginExecution(db: Db, a: nat, reviewed: Option<Digest>, now: int): Outcome<Db, Refusal> {
    if a >= |db.actions| || db.actions[a].runId >= |db.runs| then Err(NotFound)
    else
      var action := db.actions[a];
      if TaskBlocks(db, action.runId) then Err(TaskNotActive)
      else
        var verified := VerifyProposal(action, now);
        if verified.Err? then Err(verified.error)
        else if reviewed.Some? && reviewed.value != action.targetHash then Err(ReviewedHashChanged)
        else if action.status != Prepared then Err(NotExecutable)
        else
          var d := db.(actions := db.actions[a := action.(status := Executing, startedAt := Some(now))]);
          Ok(Recompute(d, action.runId, now))
  }

  function BeginAutomatic(db: Db, r: nat, operation: string, arguments: Arguments, capabilityId: string,
                          now: int): Outcome<Db, Refusal>
  {
    if r >= |db.runs| then Err(NotFound)
    else if TaskBlocks(db, r) then Err(TaskNotActive)
    else Ok(db.(actions := db.actions + [
      ActionRow(r, operation, Sealed(operation, arguments, now, now, capabilityId), Executing,
                Missing, true, Some(now), None)]))
  }

  function Cancel(db: Db, a: nat, now: int): Outcome<Db, Refusal> {
    if a >= |db.actions| then Err(NotFound)
    else if db.actions[a].status != Prepared then Err(NotCancellable)
    else ResolveAttentionAndRun(WithStatus(db, a, Cancelled), a, now)
  }

  function Complete(db: Db, a: nat, s: ActionStatus, now: int): Outcome<Db, Refusal> {
    if s !in {Succeeded, Failed, Uncertain} then Err(BadOutcome)
    else if a >= |db.actions| then Err(ExecutionLost)
    else if db.actions[a].status != Executing then Err(ExecutionLost)
    else
      var d := WithStatus(db, a, s);
      if s == Uncertain then MarkUncertain(d, a) else ResolveAttentionAndRun(d, a, now)
  }

  predicate IsStale(action: ActionRow, staleBefore: int) {
    action.status == Executing && action.startedAt.Some? && action.startedAt.value < staleBefore
  }

  predicate HeartbeatFresh(db: Db, r: nat, staleBefore: int) {
    r < |db.runs| && db.runs[r].inferenceActive
    && db.runs[r].heartbeatAt.Some? && db.runs[r].heartbeatAt.value >= staleBefore
  }

  /** One iteration of the stale sweep; `None` says the row was left alone. */
  function SweepRow(db: Db, a: nat, staleBefore: int): Outcome<Option<Db>, Refusal>
    requires a < |db.actions|
  {
    if HeartbeatFresh(db, db.actions[a].runId, staleBefore) || db.actions[a].status != Executing then Ok(None)
    else
      match MarkUncertain(WithStatus(db, a, Uncertain), a)
      case Ok(d) => Ok(Some(d))
      case Err(e) => Err(e)
  }

  function StaleRows(actions: seq<ActionRow>, staleBefore: int): (rows: seq<nat>)
    ensures forall i :: 0 <= i < |rows| ==> rows[i] < |actions| && IsStale(actions[rows[i]], staleBefore)
    ensures forall a :: 0 <= a < |actions| && IsStale(actions[a], staleBefore) ==> a in rows
    ensures forall i, j :: 0 <= i < j < |rows| ==> rows[i] < rows[j]
  {
    if actions == [] then []
    else
      var last := |actions| - 1;
      var rest := StaleRows(actions[..last], staleBefore);
      if IsStale(actions[last], staleBefore) then rest + [last] else rest
  }

  function Acknowledge(db: Db, a: nat, now: int): Outcome<Db, Refusal> {
    if a >= |db.actions| then Err(NotFound)
    else if db.actions[a].status != Uncertain then Err(NotUncertain)
    else
      var open := OpenRows(db.attention, a);
      if |open| > 1 then Err(MultipleRows)
      else if open == [] then Err(AttentionNotFound)
      else Ok(db.(
        attention := CloseOpen(db.attention, a, now),
        actions := db.actions[a := db.actions[a].(acknowledgedAt := Some(now))]))
  }

  function FinishRun(db: Db, r: nat, succeeded: bool, now: int): Outcome<Db, Refusal> {
    if r >= |db.runs| then Ok(db)
    else if !db.runs[r].inferenceActive || db.runs[r].inference != InferenceRunning then Err(InferenceGone)
    else
      var d := db.(runs := db.runs[r := db.runs[r].(
        inferenceActive := false, inference := if succeeded then InferenceSucceeded else InferenceFailed)]);
      Ok(Recompute(d, r, now))
  }

  /******* Recovery transactions that write the same tables *******/

  /** First half of abandoned-run recovery: ownership is withdrawn, nothing is recomputed. */
  function Abandon(db: Db, r: nat): Db {
    if r < |db.runs| && db.runs[r].inference == InferenceRunning
    then db.(runs := db.runs[r := db.runs[r].(inferenceActive := false)])
    else db
  }

  /** Executing actions of run `r` among the first `n` become uncertain, in table order. */
  function MarkExecuting(db: Db, r: nat, n: nat): Outcome<Db, Refusal>
    requires n <= |db.actions|
    decreases n
  {
    if n == 0 then Ok(db)
    else
      match MarkExecuting(db, r, n - 1)
      case Err(e) => Err(e)
      case Ok(d) =>
        if n - 1 < |d.actions| && d.actions[n - 1].runId == r && d.actions[n - 1].status == Executing
        then MarkUncertain(WithStatus(d, n - 1, Uncertain), n - 1)
        else Ok(d)
  }

  predicate Interruptible(i: Inference) {
    i in {InferenceRunning, InferenceQueued}
  }

  /** An open interruption notice of a run. */
  predicate HasNotice(attention: seq<AttentionRow>, r: nat) {
    exists k :: 0 <= k < |attention|
      && attention[k].runId == r && attention[k].actionId.None? && attention[k].state == InterruptedWork
        && !attention[k].resolved
  }

  /** The interruption of a run; `notify` says that no managed task answers for its recovery. */
  function Interrupt(db: Db, r: nat, notify: bool, now: int): Outcome<Db, Refusal> {
    if r >= |db.runs| || !Interruptible(db.runs[r].inference) then Ok(db)
    else
      var d := db.(runs := db.runs[r := db.runs[r].(
        inferenceActive := false, inference := InferenceInterrupted)]);
      match MarkExecuting(d, r, |d.actions|)
      case Err(e) => Err(e)
      case Ok(m) =>
        var c := Recompute(m, r, now);
        Ok(if notify && !HasNotice(c.attention, r)
           then c.(attention := c.attention + [AttentionRow(r, None, InterruptedWork, false, None)])
           else c)
  }

  /** The scheduler queues an occurrence: a run that nothing works on yet. */
  function QueueRun(db: Db, transcript: nat): Db {
    db.(runs := db.runs + [RunRow(Scheduled, Some(transcript), RunQueued, None, false, InferenceQueued, None)])
  }

  /** The scheduler claims a queued occurrence and writes its status outright. */
  function ClaimRun(db: Db, r: nat, now: int): Db {
    if r < |db.runs| && db.runs[r].inference == InferenceQueued
    then db.(runs := db.runs[r := db.runs[r].(
      inferenceActive := true, inference := InferenceRunning, status := RunRunning, heartbeatAt := Some(now))])
    else db
  }

  function Heartbeat(db: Db, r: nat, now: int): Db {
    if r < |db.runs| && db.runs[r].inferenceActive
    then db.(runs := db.runs[r := db.runs[r].(heartbeatAt := Some(now))])
    else db
  }

  /** Dismissing informational notices never touches a row that names an action. */
  function DismissNotices(db: Db, now: int): Db {
    db.(attention := seq(|db.attention|, k requires 0 <= k < |db.attention| =>
      var row := db.attention[k];
      if !row.resolved && row.actionId.None? && row.state == InterruptedWork
      then Close(row, now) else row))
  }

  /** Whatever rewrites the stored proposal evidence of an action. */
  function Tamper(db: Db, a: nat, proposal: StoredProposal): Db {
    if a < |db.actions| then db.(actions := db.actions[a := db.actions[a].(proposal := proposal)]) else db
  }
}
