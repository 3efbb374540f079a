/**
 Whole runs of the ledger: approvers, automatic executors, late completions, crashes,
 stale sweepers and every other transaction interleave in any order.
 */
module LedgerRuns {
  import opened Common
  import opened Ledger
  import opened LedgerInvariants

  /** The owner's approval of one exact proposal. */
  datatype Approval = Approval(at: int, hash: Digest)

  /** Where a process that works on one action stands between its transactions. */
  datatype Client =
    | Reviewed(action: nat, proposal: StoredProposal, hash: Digest)
    | MayDispatch(action: nat, arguments: Arguments, approval: Option<Approval>)
    | Awaiting(action: nat)

  /** Rows a sweeper selected before it locked any of them. */
  datatype Sweep = Sweep(staleBefore: int, rows: seq<nat>)

  /** One call into the outside world. */
  datatype Dispatch = Dispatch(action: nat, operation: string, arguments: Arguments, approval: Option<Approval>)

  datatype World = World(
    db: Db, clients: map<nat, Client>, sweeps: map<nat, Sweep>, dispatched: seq<Dispatch>)

  datatype Step =
    | Transact(tx: Tx, now: int)
    | Review(client: nat, action: nat, hash: Digest, capabilityId: string, now: int)
    | Approve(client: nat, now: int)
    | StartAutomatic(client: nat, run: nat, operation: string, arguments: Arguments, capabilityId: string, now: int)
    | Send(client: nat)
    | Finish(client: nat, status: ActionStatus, now: int)
    | Crash(client: nat)
    | SelectStale(sweeper: nat, staleBefore: int)
    | SweepNext(sweeper: nat, now: int)

  const Start := World(Db([], [], [], map[]), map[], map[], [])

  function Drop<V>(m: map<nat, V>, k: nat): map<nat, V> {
    m - {k}
  }

  /** A step that is not enabled changes nothing. */
  function Next(w: World, step: Step): World {
    match step
    case Transact(tx, now) => w.(db := Commit(w.db, tx, now))
    case Review(c, a, hash, cap, now) =>
      if c !in w.clients && a < |w.db.actions| && w.db.actions[a].status == Prepared
         && VerifyProposal(w.db.actions[a], now).Ok?
         && w.db.actions[a].proposal.capabilityId == Str(Plain(cap))
      then w.(clients := w.clients[c := Reviewed(a, w.db.actions[a].proposal, hash)])
      else w
    case Approve(c, now) =>
      if c in w.clients && w.clients[c].Reviewed? then
        var Reviewed(a, p, hash) := w.clients[c];
        if p.Stored? && BeginExecution(w.db, a, Some(hash), now).Ok?
        then w.(db := BeginExecution(w.db, a, Some(hash), now).value,
                clients := w.clients[c := MayDispatch(a, p.arguments, Some(Approval(now, hash)))])
        else w.(clients := Drop(w.clients, c))
      else w
    case StartAutomatic(c, r, op, args, cap, now) =>
      if c !in w.clients && BeginAutomatic(w.db, r, op, args, cap, now).Ok?
      then w.(db := BeginAutomatic(w.db, r, op, args, cap, now).value,
              clients := w.clients[c := MayDispatch(|w.db.actions|, args, None)])
      else w
    case Send(c) =>
      if c in w.clients && w.clients[c].MayDispatch? && w.clients[c].action < |w.db.actions|
      then
        var MayDispatch(a, args, approval) := w.clients[c];
        w.(clients := w.clients[c := Awaiting(a)],
           dispatched := w.dispatched + [Dispatch(a, w.db.actions[a].operation, args, approval)])
      else w
    case Finish(c, s, now) =>
      if c in w.clients && w.clients[c].Awaiting?
      then w.(db := Commit(w.db, TxComplete(w.clients[c].action, s), now), clients := Drop(w.clients, c))
      else w
    case Crash(c) => w.(clients := Drop(w.clients, c))
    case SelectStale(q, staleBefore) =>
      w.(sweeps := w.sweeps[q := Sweep(staleBefore, StaleRows(w.db.actions, staleBefore))])
    case SweepNext(q, now) =>
      if q in w.sweeps && w.sweeps[q].rows != []
      then w.(db := Commit(w.db, TxSweep(w.sweeps[q].rows[0], w.sweeps[q].staleBefore), now),
              sweeps := w.sweeps[q := w.sweeps[q].(rows := w.sweeps[q].rows[1..])])
      else w
  }

  function Run(w: World, steps: seq<Step>): World
    decreases |steps|
  {
    if steps == [] then w else Run(Next(w, steps[0]), steps[1..])
  }

  /** The ledger transaction a step commits, if any. */
  function Committed(w: World, step: Step): Option<(Tx, int)> {
    match step
    case Transact(tx, now) => Some((tx, now))
    case Approve(c, now) =>
      if c in w.clients && w.clients[c].Reviewed? && w.clients[c].proposal.Stored?
      then Some((TxBegin(w.clients[c].action, Some(w.clients[c].hash)), now)) else None
    case StartAutomatic(c, r, op, args, cap, now) =>
      if c !in w.clients then Some((TxBeginAutomatic(r, op, args, cap), now)) else None
    case Finish(c, s, now) =>
      if c in w.clients && w.clients[c].Awaiting? then Some((TxComplete(w.clients[c].action, s), now)) else None
    case SweepNext(q, now) =>
      if q in w.sweeps && w.sweeps[q].rows != []
      then Some((TxSweep(w.sweeps[q].rows[0], w.sweeps[q].staleBefore), now)) else None
    case _ => None
  }

  lemma NextCommits(w: World, step: Step)
    ensures Next(w, step).db ==
      match Committed(w, step) case Some((tx, now)) => Commit(w.db, tx, now) case None => w.db
  {
  }

  /******* The invariant of whole runs *******/

  /** An action row's digest seals its operation and, for a proposal, a one-hour life. */
  predicate SealedRow(row: ActionRow) {
    var p := row.targetHash.payload;
    && p.operation == Plain(row.operation)
    && p.createdAt.Iso? && p.expiresAt.Iso?
    && (row.status == Prepared ==> p.expiresAt.at == p.createdAt.at + PROPOSAL_TTL && !row.automatic)
  }

  /** `arguments`, under `approval`, is exactly what the action row seals. */
  predicate Authorised(row: ActionRow, arguments: Arguments, approval: Option<Approval>) {
    && SealedRow(row)
    && row.status != Prepared
    && row.targetHash.payload.arguments == arguments
    && (approval.None? ==> row.automatic)
    && (approval.Some? ==>
          && approval.value.hash == row.targetHash
          && approval.value.at < row.targetHash.payload.createdAt.at + PROPOSAL_TTL)
  }

  predicate ClientOk(actions: seq<ActionRow>, client: Client) {
    && client.action < |actions|
    && match client
       case Reviewed(a, p, _) => p.Stored? && StoredDigest(p) == actions[a].targetHash
       case MayDispatch(a, args, approval) => Authorised(actions[a], args, approval)
       case Awaiting(a) => true
  }

  predicate DispatchOk(actions: seq<ActionRow>, d: Dispatch) {
    && d.action < |actions|
    && d.operation == actions[d.action].operation
    && Authorised(actions[d.action], d.arguments, d.approval)
  }

  ghost predicate AllSealed(actions: seq<ActionRow>) {
    forall a :: 0 <= a < |actions| ==> SealedRow(actions[a])
  }

  ghost predicate ClientsOk(actions: seq<ActionRow>, clients: map<nat, Client>) {
    forall c :: c in clients ==> ClientOk(actions, clients[c])
  }

  ghost predicate DispatchesOk(actions: seq<ActionRow>, dispatched: seq<Dispatch>) {
    forall i :: 0 <= i < |dispatched| ==> DispatchOk(actions, dispatched[i])
  }

  ghost predicate DispatchedOnce(dispatched: seq<Dispatch>) {
    forall i, j :: 0 <= i < j < |dispatched| ==> dispatched[i].action != dispatched[j].action
  }

  predicate Holds(clients: map<nat, Client>, c: nat, a: nat) {
    c in clients && clients[c].MayDispatch? && clients[c].action == a
  }

  /** At most one process may still dispatch an action, and only if nothing has. */
  ghost predicate TokensOk(clients: map<nat, Client>, dispatched: seq<Dispatch>) {
    && (forall c, e, a :: Holds(clients, c, a) && Holds(clients, e, a) ==> c == e)
    && (forall c, i :: 0 <= i < |dispatched| ==> !Holds(clients, c, dispatched[i].action))
  }

  predicate OldEnough(actions: seq<ActionRow>, a: nat, staleBefore: int) {
    && a < |actions| && actions[a].status != Prepared
    && actions[a].startedAt.Some? && actions[a].startedAt.value < staleBefore
  }

  /** Selected rows really were abandoned executions, and stay as old as they were. */
  ghost predicate SweepsOk(actions: seq<ActionRow>, sweeps: map<nat, Sweep>) {
    forall q, i :: q in sweeps && 0 <= i < |sweeps[q].rows| ==>
      OldEnough(actions, sweeps[q].rows[i], sweeps[q].staleBefore)
  }

  ghost predicate WorldInv(w: World) {
    && Inv(w.db)
    && AllSealed(w.db.actions)
    && ClientsOk(w.db.actions, w.clients)
    && DispatchesOk(w.db.actions, w.dispatched)
    && DispatchedOnce(w.dispatched)
    && TokensOk(w.clients, w.dispatched)
    && SweepsOk(w.db.actions, w.sweeps)
  }

  /******* The invariant holds in every reachable state *******/

  lemma NewRowsSealed(db: Db, tx: Tx, now: int)
    requires Inv(db)
    ensures var y := Commit(db, tx, now).actions;
      forall a :: |db.actions| <= a < |y| ==> SealedRow(y[a])
  {
    CommitEvolves(db, tx, now);
    if tx.TxInterrupt? && tx.run < |db.runs| && Interruptible(db.runs[tx.run].inference) {
      InterruptKeeps(db, tx.run, tx.notify, now);
    }
  }

  /** Committing any transaction keeps everything that is said about clients, dispatches and sweeps. */
  lemma CommitKeepsWorld(w: World, tx: Tx, now: int)
    requires WorldInv(w)
    ensures WorldInv(w.(db := Commit(w.db, tx, now)))
  {
    CommitKeepsInv(w.db, tx, now);
    CommitEvolves(w.db, tx, now);
    NewRowsSealed(w.db, tx, now);
    var y := Commit(w.db, tx, now).actions;
    EvolutionKeeps(w.db.actions, y, w.clients, w.dispatched, w.sweeps);
  }

  lemma EvolutionKeeps(x: seq<ActionRow>, y: seq<ActionRow>, clients: map<nat, Client>, dispatched: seq<Dispatch>,
                       sweeps: map<nat, Sweep>)
    requires Evolves(x, y) && AllSealed(x) && forall a :: |x| <= a < |y| ==> SealedRow(y[a])
    requires ClientsOk(x, clients) && DispatchesOk(x, dispatched) && SweepsOk(x, sweeps)
    ensures AllSealed(y) && ClientsOk(y, clients) && DispatchesOk(y, dispatched) && SweepsOk(y, sweeps)
  {
    forall a | 0 <= a < |y| ensures SealedRow(y[a]) {
      if a < |x| { assert RowEvolves(x[a], y[a]); }
    }
    forall c | c in clients ensures ClientOk(y, clients[c]) {
      assert RowEvolves(x[clients[c].action], y[clients[c].action]);
    }
    forall i | 0 <= i < |dispatched| ensures DispatchOk(y, dispatched[i]) {
      assert DispatchOk(x, dispatched[i]) && RowEvolves(x[dispatched[i].action], y[dispatched[i].action]);
    }
    forall q, i | q in sweeps && 0 <= i < |sweeps[q].rows|
      ensures OldEnough(y, sweeps[q].rows[i], sweeps[q].staleBefore)
    {
      assert OldEnough(x, sweeps[q].rows[i], sweeps[q].staleBefore);
      assert RowEvolves(x[sweeps[q].rows[i]], y[sweeps[q].rows[i]]);
    }
  }

  /** A process that just made an action leave the prepared state is the only one that may dispatch it. */
  lemma TokenKeeps(w: World, v: World, c: nat, client: Client)
    requires WorldInv(v) && v.clients == w.clients && v.dispatched == w.dispatched
    requires client.MayDispatch? && ClientOk(v.db.actions, client)
    requires ClientsOk(w.db.actions, w.clients) && DispatchesOk(w.db.actions, w.dispatched)
    requires client.action >= |w.db.actions| || w.db.actions[client.action].status == Prepared
    ensures WorldInv(v.(clients := v.clients[c := client]))
  {
    var clients := v.clients[c := client];
    forall e | e in v.clients && v.clients[e].MayDispatch? ensures v.clients[e].action != client.action {
      assert ClientOk(w.db.actions, w.clients[e]);
    }
    forall i | 0 <= i < |v.dispatched| ensures v.dispatched[i].action != client.action {
      assert DispatchOk(w.db.actions, w.dispatched[i]);
    }
    forall e, f, a | Holds(clients, e, a) && Holds(clients, f, a) ensures e == f {
      assert e != c ==> Holds(v.clients, e, a);
      assert f != c ==> Holds(v.clients, f, a);
    }
    forall e, i | 0 <= i < |v.dispatched| ensures !Holds(clients, e, v.dispatched[i].action) {
      assert !Holds(v.clients, e, v.dispatched[i].action);
    }
  }

  /** A committed approval authorises exactly the arguments the client reviewed. */
  lemma ApprovedRow(row: ActionRow, p: StoredProposal, hash: Digest, now: int)
    requires SealedRow(row) && row.status == Prepared && p.Stored? && StoredDigest(p) == row.targetHash
    requires VerifyProposal(row, now).Ok? && hash == row.targetHash
    ensures Authorised(row.(status := Executing, startedAt := Some(now)), p.arguments, Some(Approval(now, hash)))
  {
  }

  lemma ApproveKeeps(w: World, c: nat, now: int)
    requires WorldInv(w)
    ensures WorldInv(Next(w, Approve(c, now)))
  {
    if c in w.clients && w.clients[c].Reviewed? {
      assert ClientOk(w.db.actions, w.clients[c]);
      var Reviewed(a, p, hash) := w.clients[c];
      if BeginExecution(w.db, a, Some(hash), now).Ok? {
        ApprovedRow(w.db.actions[a], p, hash, now);
        BeginGrants(w, c, a, p.arguments, hash, now);
      } else {
        DropKeeps(w, c);
      }
    }
  }

  lemma BeginGrants(w: World, c: nat, a: nat, arguments: Arguments, hash: Digest, now: int)
    requires WorldInv(w) && BeginExecution(w.db, a, Some(hash), now).Ok?
    requires var row := w.db.actions[a].(status := Executing, startedAt := Some(now));
      Authorised(row, arguments, Some(Approval(now, hash)))
    ensures WorldInv(w.(db := BeginExecution(w.db, a, Some(hash), now).value,
                        clients := w.clients[c := MayDispatch(a, arguments, Some(Approval(now, hash)))]))
  {
    var v := w.(db := BeginExecution(w.db, a, Some(hash), now).value);
    CommitKeepsWorld(w, TxBegin(a, Some(hash)), now);
    assert v.db.actions[a] == w.db.actions[a].(status := Executing, startedAt := Some(now));
    TokenKeeps(w, v, c, MayDispatch(a, arguments, Some(Approval(now, hash))));
  }

  lemma DropKeeps(w: World, c: nat)
    requires WorldInv(w)
    ensures WorldInv(w.(clients := Drop(w.clients, c)))
  {
    var clients := Drop(w.clients, c);
    assert forall e, a :: Holds(clients, e, a) ==> Holds(w.clients, e, a);
  }

  lemma StartAutomaticKeeps(w: World, c: nat, r: nat, op: string, args: Arguments, cap: string, now: int)
    requires WorldInv(w)
    ensures WorldInv(Next(w, StartAutomatic(c, r, op, args, cap, now)))
  {
    if c !in w.clients && BeginAutomatic(w.db, r, op, args, cap, now).Ok? {
      AutomaticGrants(w, c, r, op, args, cap, now);
    }
  }

  lemma AutomaticGrants(w: World, c: nat, r: nat, op: string, args: Arguments, cap: string, now: int)
    requires WorldInv(w) && BeginAutomatic(w.db, r, op, args, cap, now).Ok?
    ensures WorldInv(w.(db := BeginAutomatic(w.db, r, op, args, cap, now).value,
                        clients := w.clients[c := MayDispatch(|w.db.actions|, args, None)]))
  {
    var v := w.(db := BeginAutomatic(w.db, r, op, args, cap, now).value);
    CommitKeepsWorld(w, TxBeginAutomatic(r, op, args, cap), now);
    assert Authorised(v.db.actions[|w.db.actions|], args, None);
    TokenKeeps(w, v, c, MayDispatch(|w.db.actions|, args, None));
  }

  /** Dispatching uses up the only token: it joins the log and leaves the clients. */
  lemma TokenSpent(clients: map<nat, Client>, dispatched: seq<Dispatch>, c: nat, d: Dispatch)
    requires TokensOk(clients, dispatched) && DispatchedOnce(dispatched) && Holds(clients, c, d.action)
    ensures TokensOk(clients[c := Awaiting(d.action)], dispatched + [d]) && DispatchedOnce(dispatched + [d])
  {
    var after := clients[c := Awaiting(d.action)];
    forall e, a | Holds(after, e, a) ensures Holds(clients, e, a) && e != c {
    }
  }

  lemma SendKeeps(w: World, c: nat)
    requires WorldInv(w)
    ensures WorldInv(Next(w, Send(c)))
  {
    if c in w.clients && w.clients[c].MayDispatch? {
      assert ClientOk(w.db.actions, w.clients[c]);
      var MayDispatch(a, args, approval) := w.clients[c];
      TokenSpent(w.clients, w.dispatched, c, Dispatch(a, w.db.actions[a].operation, args, approval));
    }
  }

  lemma ReviewKeeps(w: World, step: Step)
    requires WorldInv(w) && step.Review?
    ensures WorldInv(Next(w, step))
  {
    var clients := Next(w, step).clients;
    assert forall e, b :: Holds(clients, e, b) ==> Holds(w.clients, e, b);
  }

  lemma FinishKeeps(w: World, step: Step)
    requires WorldInv(w) && step.Finish?
    ensures WorldInv(Next(w, step))
  {
    if step.client in w.clients && w.clients[step.client].Awaiting? {
      CommitKeepsWorld(w, TxComplete(w.clients[step.client].action, step.status), step.now);
      DropKeeps(w.(db := Next(w, step).db), step.client);
    }
  }

  lemma SelectKeeps(w: World, step: Step)
    requires WorldInv(w) && step.SelectStale?
    ensures WorldInv(Next(w, step))
  {
    var rows := StaleRows(w.db.actions, step.staleBefore);
    forall i | 0 <= i < |rows| ensures OldEnough(w.db.actions, rows[i], step.staleBefore) {
    }
  }

  lemma SweepNextKeeps(w: World, step: Step)
    requires WorldInv(w) && step.SweepNext?
    ensures WorldInv(Next(w, step))
  {
    var q := step.sweeper;
    if q in w.sweeps && w.sweeps[q].rows != [] {
      CommitKeepsWorld(w, TxSweep(w.sweeps[q].rows[0], w.sweeps[q].staleBefore), step.now);
      ShorterSweep(Next(w, step).db.actions, w.sweeps, q);
    }
  }

  lemma ShorterSweep(actions: seq<ActionRow>, sweeps: map<nat, Sweep>, q: nat)
    requires SweepsOk(actions, sweeps) && q in sweeps && sweeps[q].rows != []
    ensures SweepsOk(actions, sweeps[q := sweeps[q].(rows := sweeps[q].rows[1..])])
  {
  }

  lemma NextKeepsInv(w: World, step: Step)
    requires WorldInv(w)
    ensures WorldInv(Next(w, step))
  {
    match step
    case Transact(tx, now) => CommitKeepsWorld(w, tx, now);
    case Review(_, _, _, _, _) => ReviewKeeps(w, step);
    case Approve(c, now) => ApproveKeeps(w, c, now);
    case StartAutomatic(c, r, op, args, cap, now) => StartAutomaticKeeps(w, c, r, op, args, cap, now);
    case Send(c) => SendKeeps(w, c);
    case Finish(_, _, _) => FinishKeeps(w, step);
    case Crash(c) => DropKeeps(w, c);
    case SelectStale(_, _) => SelectKeeps(w, step);
    case SweepNext(_, _) => SweepNextKeeps(w, step);
  }

  lemma {:induction false} RunKeepsInv(w: World, steps: seq<Step>)
    requires WorldInv(w)
    ensures WorldInv(Run(w, steps))
    decreases |steps|
  {
    if steps != [] {
      NextKeepsInv(w, steps[0]);
      RunKeepsInv(Next(w, steps[0]), steps[1..]);
    }
  }

  lemma ReachableInv(steps: seq<Step>)
    ensures WorldInv(Run(Start, steps))
  {
    RunKeepsInv(Start, steps);
  }
}
