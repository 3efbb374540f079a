/** Explicit owner memory requests: an obligation row, its command row, and how a candidate's outcome settles both. */
module ExplicitObligation {
  import opened Common

  const OWNER_RETRY_BUDGET: nat := 3
  const PUBLISHED := "published"
  const EXHAUSTED := "failed_retry_exhausted"

  datatype CandidateStatus =
    | Pending | Leased | RetainedShortTerm | AwaitingOwner
    | Reconciled | Failed | Discarded | Blocked | Invalidated | Expired | Rejected

  datatype Obligation = Obligation(
    candidate: nat, explicit: bool, resolution: Option<string>, failures: nat, ownerRetries: nat, command: Option<nat>)

  datatype CommandStatus = CommandPending | Applied | CommandFailed

  /** Obligations in order of creation, and the command ledger. */
  datatype Book = Book(obligations: seq<Obligation>, commands: seq<CommandStatus>)

  /** The resolution a terminal candidate status stands for. */
  function TerminalResolution(s: CandidateStatus): Option<string> {
    match s
    case Reconciled => Some(PUBLISHED)
    case Discarded => Some("discarded")
    case Blocked => Some("blocked")
    case Invalidated => Some("invalidated")
    case Expired => Some("expired")
    case Rejected => Some("rejected")
    case _ => None
  }

  predicate IsPending(o: Obligation, candidate: nat) {
    o.explicit && o.candidate == candidate && o.resolution.None?
  }

  /** Index of the oldest pending explicit obligation of a candidate, or the number of obligations. */
  function FirstPending(obligations: seq<Obligation>, candidate: nat): (k: nat)
    ensures k <= |obligations|
    ensures k < |obligations| ==> IsPending(obligations[k], candidate)
    ensures forall j :: 0 <= j < k ==> !IsPending(obligations[j], candidate)
  {
    if obligations == [] then 0
    else if IsPending(obligations[0], candidate) then 0
    else 1 + FirstPending(obligations[1..], candidate)
  }

  /** What a settlement does to the obligation it finds, and to its command. */
  function Settled(o: Obligation, s: CandidateStatus, resolution: Option<string>): (Obligation, Option<CommandStatus>) {
    match s
    case Reconciled => (o.(resolution := Some(PUBLISHED)), Some(Applied))
    case Failed =>
      var n := o.failures + 1;
      if n >= OWNER_RETRY_BUDGET then (o.(failures := n, resolution := Some(EXHAUSTED)), Some(CommandFailed))
      else (o.(failures := n), None)
    case _ =>
      var r := if resolution.Some? && resolution.value != "" then resolution else TerminalResolution(s);
      if r.None? then (o, None) else (o.(resolution := r), Some(CommandFailed))
  }

  function SetCommand(commands: seq<CommandStatus>, at: Option<nat>, s: Option<CommandStatus>): seq<CommandStatus> {
    if at.Some? && at.value < |commands| && s.Some? then commands[at.value := s.value] else commands
  }

  function Settle(b: Book, candidate: nat, s: CandidateStatus, resolution: Option<string>): Book {
    var k := FirstPending(b.obligations, candidate);
    if k == |b.obligations| then b
    else
      var (o, c) := Settled(b.obligations[k], s, resolution);
      Book(b.obligations[k := o], SetCommand(b.commands, o.command, c))
  }

  /** What a candidate's end is called when its settlement names no resolution. */
  ghost predicate Called(s: CandidateStatus, name: string) {
    match s
    case Reconciled => name == "published"
    case Failed => name == "failed_retry_exhausted"
    case Discarded => name == "discarded"
    case Blocked => name == "blocked"
    case Invalidated => name == "invalidated"
    case Expired => name == "expired"
    case Rejected => name == "rejected"
    case _ => false
  }

  /** A status that ends the obligation: an outcome, the third failure, or whatever comes with a resolution. */
  ghost predicate Ends(o: Obligation, s: CandidateStatus, resolution: Option<string>) {
    match s
    case Failed => o.failures >= 2
    case Reconciled => true
    case Discarded | Blocked | Invalidated | Expired | Rejected => true
    case _ => resolution.Some? && resolution.value != ""
  }

  /** The obligation after a settlement: a failure more or none, and a resolution of the right name just at an end. */
  ghost predicate SettledAs(o: Obligation, p: Obligation, s: CandidateStatus, resolution: Option<string>) {
    && p == o.(failures := o.failures + (if s == Failed then 1 else 0), resolution := p.resolution)
    && (!Ends(o, s, resolution) ==> p.resolution == o.resolution)
    && (Ends(o, s, resolution) ==>
          && p.resolution.Some?
          && if s in {Reconciled, Failed} || resolution.None? || resolution.value == ""
             then Called(s, p.resolution.value) else p.resolution == resolution)
  }

  /** A command that is there is applied by a publication, failed by another end, and otherwise left alone. */
  ghost predicate CommandsFollow(x: seq<CommandStatus>, y: seq<CommandStatus>, o: Obligation, s: CandidateStatus,
                                 resolution: Option<string>)
  {
    && |y| == |x|
    && forall k :: 0 <= k < |x| ==>
         y[k] == if o.command != Some(k) || !Ends(o, s, resolution) then x[k]
                 else if s == Reconciled then Applied else CommandFailed
  }

  lemma SettledExactly(o: Obligation, commands: seq<CommandStatus>, s: CandidateStatus, resolution: Option<string>)
    requires o.resolution.None?
    ensures SettledAs(o, Settled(o, s, resolution).0, s, resolution)
    ensures CommandsFollow(commands, SetCommand(commands, o.command, Settled(o, s, resolution).1), o, s, resolution)
    ensures Terminal(o, s, resolution) <==> Ends(o, s, resolution)
  {
  }

  /** The tables after a settlement that found obligation `k`. */
  ghost predicate SettledAt(b: Book, e: Book, k: nat, s: CandidateStatus, resolution: Option<string>) {
    && k < |b.obligations| == |e.obligations| && e.obligations == b.obligations[k := e.obligations[k]]
    && SettledAs(b.obligations[k], e.obligations[k], s, resolution)
    && CommandsFollow(b.commands, e.commands, b.obligations[k], s, resolution)
  }

  lemma SettleExactly(b: Book, candidate: nat, s: CandidateStatus, resolution: Option<string>)
    ensures var k := FirstPending(b.obligations, candidate);
      k < |b.obligations| ==> SettledAt(b, Settle(b, candidate, s, resolution), k, s, resolution)
  {
    var k := FirstPending(b.obligations, candidate);
    if k < |b.obligations| { SettledExactly(b.obligations[k], b.commands, s, resolution); }
  }

  class ObligationStore {
    var obligations: seq<Obligation>
    var commands: seq<CommandStatus>

    ghost function Rows(): Book
      reads this
    {
      Book(obligations, commands)
    }

    constructor ()
      ensures Rows() == Book([], [])
    {
      obligations, commands := [], [];
    }

    method PendingObligation(candidate: nat) returns (k: nat)
      ensures k == FirstPending(obligations, candidate)
    {
      k := 0;
      while k < |obligations|
        && !(obligations[k].explicit && obligations[k].candidate == candidate && obligations[k].resolution.None?)
        invariant k <= |obligations|
        invariant k + FirstPending(obligations[k..], candidate) == FirstPending(obligations, candidate)
      {
        assert obligations[k..][1..] == obligations[k + 1..];
        k := k + 1;
      }
    }

    method SettleExplicit(candidate: nat, status: CandidateStatus, resolution: Option<string>) returns (found: bool)
      modifies this
      ensures Rows() == Settle(old(Rows()), candidate, status, resolution)
      ensures found <==> FirstPending(old(obligations), candidate) < |old(obligations)|
      ensures found <==> exists k :: 0 <= k < |old(obligations)| && IsPending(old(obligations)[k], candidate)
      ensures !found ==> obligations == old(obligations) && commands == old(commands)
      ensures found ==>
        SettledAt(old(Rows()), Rows(), FirstPending(old(obligations), candidate), status, resolution)
    {
      SettleExactly(Rows(), candidate, status, resolution);
      var k := PendingObligation(candidate);
      if k == |obligations| { return false; }
      found := true;
      var o := obligations[k];
      if status == Reconciled {
        obligations := obligations[k := o.(resolution := Some(PUBLISHED))];
        if o.command.Some? && o.command.value < |commands| { commands := commands[o.command.value := Applied]; }
        return;
      }
      if status == Failed {
        var count := o.failures + 1;
        obligations := obligations[k := o.(failures := count)];
        if count >= OWNER_RETRY_BUDGET {
          obligations := obligations[k := o.(failures := count, resolution := Some(EXHAUSTED))];
          if o.command.Some? && o.command.value < |commands| { commands := commands[o.command.value := CommandFailed]; }
        }
        return;
      }
      var r := resolution;
      if resolution.None? || resolution.value == "" { r := TerminalResolution(status); }
      if r.None? { assert obligations[k := o] == obligations; return; }
      obligations := obligations[k := o.(resolution := r)];
      if o.command.Some? && o.command.value < |commands| { commands := commands[o.command.value := CommandFailed]; }
    }
  }

  /******* Agreement *******/

  /** Pending with pending, published with applied, any other resolution with failed. */
  predicate Matches(o: Obligation, c: CommandStatus) {
    match o.resolution
    case None => c == CommandPending
    case Some(r) => if r == PUBLISHED then c == Applied else c == CommandFailed
  }

  ghost predicate Agree(b: Book) {
    forall k :: 0 <= k < |b.obligations| && b.obligations[k].command.Some? ==>
      b.obligations[k].command.value < |b.commands|
      && Matches(b.obligations[k], b.commands[b.obligations[k].command.value])
  }

  /** Each command belongs to one obligation. */
  ghost predicate OneOwner(b: Book) {
    forall j, k :: 0 <= j < k < |b.obligations| && b.obligations[j].command.Some? ==>
      b.obligations[j].command != b.obligations[k].command
  }

  ghost predicate FailuresBounded(b: Book) {
    forall k :: 0 <= k < |b.obligations| ==>
      && b.obligations[k].failures <= OWNER_RETRY_BUDGET
      && (b.obligations[k].failures == OWNER_RETRY_BUDGET ==> b.obligations[k].resolution == Some(EXHAUSTED))
  }

  /** A caller names the resolution "published" itself, for a candidate that neither was reconciled nor failed. */
  predicate ClaimsPublication(s: CandidateStatus, resolution: Option<string>) {
    s != Reconciled && s != Failed && resolution == Some(PUBLISHED)
  }

  lemma SettledMatches(o: Obligation, s: CandidateStatus, resolution: Option<string>)
    requires o.resolution.None?
    ensures var (p, c) := Settled(o, s, resolution);
      && p.command == o.command
      && (Matches(p, if c.Some? then c.value else CommandPending) <==> !ClaimsPublication(s, resolution))
  {
  }

  /**
   A settlement keeps the obligation and command tables in agreement if and only if it is not a
   bare claim of publication against a pending obligation that has a command.
   */
  lemma AgreementKeptExactly(b: Book, candidate: nat, s: CandidateStatus, resolution: Option<string>)
    requires Agree(b) && OneOwner(b)
    ensures var k := FirstPending(b.obligations, candidate);
      Agree(Settle(b, candidate, s, resolution))
      <==> !(ClaimsPublication(s, resolution) && k < |b.obligations| && b.obligations[k].command.Some?)
    ensures OneOwner(Settle(b, candidate, s, resolution))
  {
    var k := FirstPending(b.obligations, candidate);
    if k < |b.obligations| {
      var e := Settle(b, candidate, s, resolution);
      SettledMatches(b.obligations[k], s, resolution);
      var (p, c) := Settled(b.obligations[k], s, resolution);
      forall j | 0 <= j < |e.obligations| && j != k && e.obligations[j].command.Some?
        ensures e.obligations[j].command.value < |e.commands|
        ensures Matches(e.obligations[j], e.commands[e.obligations[j].command.value])
      {
        assert e.obligations[j] == b.obligations[j];
        assert e.obligations[j].command != p.command;
      }
      if p.command.Some? {
        var at := p.command.value;
        assert at < |b.commands| && b.commands[at] == CommandPending;
        assert e.obligations[k] == p && e.commands[at] == if c.Some? then c.value else CommandPending;
      }
    }
  }

  /** The failing case, concretely: the obligation says published while its command says failed. */
  lemma PublishedButFailed()
    ensures var b := Book([Obligation(7, true, None, 0, 0, Some(0))], [CommandPending]);
      Agree(b) && Settle(b, 7, AwaitingOwner, Some(PUBLISHED))
                  == Book([Obligation(7, true, Some(PUBLISHED), 0, 0, Some(0))], [CommandFailed])
  {
    var b := Book([Obligation(7, true, None, 0, 0, Some(0))], [CommandPending]);
    assert FirstPending(b.obligations, 7) == 0;
  }

  /******* Whole runs *******/

  datatype Step =
    | Request(candidate: nat)
    | IntakeFailed(candidate: nat)
    | Other(candidate: nat)
    | OwnerRetry(candidate: nat)
    | SettleStep(candidate: nat, status: CandidateStatus, resolution: Option<string>)

  function Next(b: Book, step: Step): Book {
    match step
    case Request(c) =>
      Book(b.obligations + [Obligation(c, true, None, 0, 0, Some(|b.commands|))], b.commands + [CommandPending])
    case IntakeFailed(c) =>
      var o := Obligation(c, true, Some("intake_failed"), 0, 0, Some(|b.commands|));
      Book(b.obligations + [o], b.commands + [CommandFailed])
    case Other(c) => b.(obligations := b.obligations + [Obligation(c, false, None, 0, 0, None)])
    case OwnerRetry(c) =>
      var k := FirstPending(b.obligations, c);
      if k == |b.obligations| then b
      else b.(obligations := b.obligations[k := b.obligations[k].(ownerRetries := b.obligations[k].ownerRetries + 1)])
    case SettleStep(c, s, r) => Settle(b, c, s, r)
  }

  function Run(b: Book, steps: seq<Step>): Book
    decreases |steps|
  {
    if steps == [] then b else Run(Next(b, steps[0]), steps[1..])
  }

  /** The callers of settlement never claim publication themselves. */
  ghost predicate Honest(steps: seq<Step>) {
    forall i :: 0 <= i < |steps| && steps[i].SettleStep? ==> !ClaimsPublication(steps[i].status, steps[i].resolution)
  }

  ghost predicate Inv(b: Book) {
    Agree(b) && OneOwner(b) && FailuresBounded(b)
  }

  lemma NextKeeps(b: Book, step: Step)
    requires Inv(b) && (step.SettleStep? ==> !ClaimsPublication(step.status, step.resolution))
    ensures Inv(Next(b, step))
  {
    match step
    case SettleStep(c, s, r) => AgreementKeptExactly(b, c, s, r);
    case _ =>
  }

  /** Along any run of requests, retries and settlements the two tables agree and the retry budget holds. */
  lemma {:induction false} RunAgrees(b: Book, steps: seq<Step>)
    requires Inv(b) && Honest(steps)
    ensures Inv(Run(b, steps))
    decreases |steps|
  {
    if steps != [] {
      assert steps[0].SettleStep? ==> !ClaimsPublication(steps[0].status, steps[0].resolution);
      NextKeeps(b, steps[0]);
      assert forall i :: 0 <= i < |steps[1..]| ==> steps[1..][i] == steps[i + 1];
      RunAgrees(Next(b, steps[0]), steps[1..]);
    }
  }

  /** A resolved obligation never changes again, honest callers or not. */
  lemma {:induction false} ResolvedForever(b: Book, steps: seq<Step>, k: nat)
    requires k < |b.obligations| && b.obligations[k].resolution.Some?
    ensures k < |Run(b, steps).obligations| && Run(b, steps).obligations[k] == b.obligations[k]
    decreases |steps|
  {
    if steps != [] {
      var n := Next(b, steps[0]);
      assert k < |n.obligations| && n.obligations[k] == b.obligations[k];
      ResolvedForever(n, steps[1..], k);
    }
  }

  /** What the owner is promised: settling touches one obligation at most, and only the oldest pending one. */
  lemma SettlesOnlyTheOldest(b: Book, candidate: nat, s: CandidateStatus, resolution: Option<string>, j: nat)
    requires j < |b.obligations| && j != FirstPending(b.obligations, candidate)
    ensures Settle(b, candidate, s, resolution).obligations[j] == b.obligations[j]
    ensures |Settle(b, candidate, s, resolution).obligations| == |b.obligations|
  {
  }

  /** The third exhausted automatic budget ends a pending obligation visibly. */
  lemma ThirdFailureTerminates(b: Book, candidate: nat, r: Option<string>)
    requires Inv(b) && FirstPending(b.obligations, candidate) < |b.obligations|
    ensures var k := FirstPending(b.obligations, candidate);
      var e := Settle(b, candidate, Failed, r).obligations[k];
      && e.failures == b.obligations[k].failures + 1 <= OWNER_RETRY_BUDGET
      && (e.resolution == Some(EXHAUSTED) <==> b.obligations[k].failures == OWNER_RETRY_BUDGET - 1)
      && (e.resolution.None? <==> e.failures < OWNER_RETRY_BUDGET)
  {
  }

  /******* Several requests for one candidate *******/

  /** How many explicit obligations of a candidate are pending. */
  function PendingCount(obligations: seq<Obligation>, candidate: nat): nat {
    if obligations == [] then 0
    else PendingCount(obligations[..|obligations| - 1], candidate)
         + if IsPending(obligations[|obligations| - 1], candidate) then 1 else 0
  }

  /** The settlement resolves the obligation it finds. */
  predicate Terminal(o: Obligation, s: CandidateStatus, resolution: Option<string>) {
    Settled(o, s, resolution).0.resolution.Some?
  }

  lemma {:induction false} PendingConcat(a: seq<Obligation>, b: seq<Obligation>, candidate: nat)
    ensures PendingCount(a + b, candidate) == PendingCount(a, candidate) + PendingCount(b, candidate)
    decreases |b|
  {
    if b == [] {
      assert a + b == a;
    } else {
      assert (a + b)[..|a + b| - 1] == a + b[..|b| - 1];
      PendingConcat(a, b[..|b| - 1], candidate);
    }
  }

  lemma PendingUpdate(obligations: seq<Obligation>, k: nat, o: Obligation, candidate: nat)
    requires k < |obligations|
    ensures PendingCount(obligations[k := o], candidate)
          + (if IsPending(obligations[k], candidate) then 1 else 0)
         == PendingCount(obligations, candidate) + if IsPending(o, candidate) then 1 else 0
  {
    var a, b := obligations[..k], obligations[k + 1..];
    assert obligations == a + [obligations[k]] + b && obligations[k := o] == a + [o] + b;
    PendingConcat(a + [obligations[k]], b, candidate);
    PendingConcat(a + [o], b, candidate);
    PendingConcat(a, [obligations[k]], candidate);
    PendingConcat(a, [o], candidate);
    assert [o][..0] == [] && [obligations[k]][..0] == [];
  }

  lemma {:induction false} NonePending(obligations: seq<Obligation>, candidate: nat)
    ensures PendingCount(obligations, candidate) == 0 <==> FirstPending(obligations, candidate) == |obligations|
  {
    var k := FirstPending(obligations, candidate);
    if obligations != [] {
      var front := obligations[..|obligations| - 1];
      NonePending(front, candidate);
      var j := FirstPending(front, candidate);
      if j < |front| { assert front[j] == obligations[j]; }
      if k < |front| { assert front[k] == obligations[k]; }
    }
  }

  /**
   A terminal settlement resolves one request. So afterwards none of the candidate's requests is pending if and only
   if there was at most one: a second request that met the same candidate is left behind.
   */
  lemma TerminalSettlesExactly(b: Book, candidate: nat, s: CandidateStatus, resolution: Option<string>)
    requires var k := FirstPending(b.obligations, candidate);
      k < |b.obligations| ==> Terminal(b.obligations[k], s, resolution)
    ensures var n := PendingCount(b.obligations, candidate);
      PendingCount(Settle(b, candidate, s, resolution).obligations, candidate) == if n == 0 then 0 else n - 1
    ensures var e := Settle(b, candidate, s, resolution);
      FirstPending(e.obligations, candidate) == |e.obligations| <==> PendingCount(b.obligations, candidate) <= 1
  {
    var k := FirstPending(b.obligations, candidate);
    NonePending(b.obligations, candidate);
    NonePending(Settle(b, candidate, s, resolution).obligations, candidate);
    if k < |b.obligations| {
      PendingUpdate(b.obligations, k, Settled(b.obligations[k], s, resolution).0, candidate);
    }
  }

  /** Two requests that met one candidate, which was then published: the second is still pending. */
  lemma SecondRequestLeft(candidate: nat)
    ensures var steps := [Request(candidate), Request(candidate), SettleStep(candidate, Reconciled, None)];
      var b := Run(Book([], []), steps);
      |b.obligations| == 2 && b.obligations[0].resolution == Some(PUBLISHED) && IsPending(b.obligations[1], candidate)
  {
    var steps := [Request(candidate), Request(candidate), SettleStep(candidate, Reconciled, None)];
    assert steps[1..] == [Request(candidate), SettleStep(candidate, Reconciled, None)];
    assert steps[1..][1..] == [SettleStep(candidate, Reconciled, None)];
    assert steps[1..][1..][1..] == [];
    var one := Next(Book([], []), steps[0]);
    var two := Next(one, steps[1]);
    assert two.obligations[0] == one.obligations[0] && FirstPending(two.obligations, candidate) == 0;
    var three := Next(two, steps[2]);
    assert Run(three, []) == three;
    assert Run(two, steps[1..][1..]) == Run(three, []);
    assert Run(one, steps[1..]) == Run(two, steps[1..][1..]);
  }
}
