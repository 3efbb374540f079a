/**
 One coding session: its record, the process groups it launched, and the world that moves between any two observations.
 */
module CodingSession {
  import opened Common
  import opened Processes
  import opened SessionLog
  import Whitespace

  const TERM_GRACE: nat := 2000
  const KILL_GRACE: nat := 1000
  const THREAD_WAIT: nat := 3000
  const POLL: nat := 50

  datatype Status = Created | Starting | Running | Completed | Failed | Interrupted | Cancelled

  datatype Record = Record(
    status: Status, repo: Option<string>, thread: Option<string>, runs: seq<Handle>, cancelledBeforeStart: bool)

  datatype Refusal =
    | InvalidRepo | AlreadyExists | CancelledBeforeLaunch | UnknownSession | TurnActive
    | BlankPrompt | NoBinary | NoThread | SpawnFailed | RecordLost | ThreadMismatch | StillAlive

  /** How the host answers one launch. */
  datatype Host = Host(repoValid: bool, binary: bool, pid: nat, birthReadable: bool, recordWritten: bool)

  function ThreadOf(events: seq<Event>): Option<string> {
    if events == [] then None
    else if events[0].ThreadStarted? then Some(events[0].id)
    else ThreadOf(events[1..])
  }

  function EventStatus(events: seq<Event>, running: bool): Status {
    if running then Running
    else if events == [] then Interrupted
    else match events[|events| - 1]
      case TurnCompleted => Completed
      case TurnFailed => Failed
      case Error => Failed
      case _ => EventStatus(events[..|events| - 1], false)
  }

  predicate InUse(k: Kernel, group: nat) {
    exists p :: p in k.table && k.table[p].group.id == group
  }

  /******* The record and the groups launched *******/

  function Runs(record: Option<Record>): seq<Handle> {
    if record.Some? then record.value.runs else []
  }

  /** Nothing was or will be launched under a record that a cancellation created. */
  ghost predicate Sealed(record: Option<Record>) {
    record.Some? && record.value.cancelledBeforeStart
  }

  /** The runs on record name the groups launched, in order, and every group but the latest is gone. */
  ghost predicate Tracked(k: Kernel, log: Log, record: Option<Record>) {
    && |Runs(record)| == |log.launched|
    && (forall i :: 0 <= i < |log.launched| ==> Names(Runs(record)[i], log.launched[i]) && Founded(k, log.launched[i]))
    && (forall i :: 0 <= i < |log.launched| - 1 ==> Gone(k, log, 0, log.launched[i]))
    && (Sealed(record) ==> record.value.status == Cancelled && record.value.repo.None? && record.value.runs == [])
  }

  ghost predicate AllGone(k: Kernel, log: Log) {
    forall i :: 0 <= i < |log.launched| ==> Gone(k, log, 0, log.launched[i])
  }

  ghost predicate AllDead(k: Kernel, launched: seq<Group>) {
    forall i :: 0 <= i < |launched| ==> Founded(k, launched[i]) && !GroupLive(k, launched[i])
  }

  ghost function Latest(log: Log): Group
    requires log.launched != []
  {
    log.launched[|log.launched| - 1]
  }

  /** The latest group is dead, unless a scan made between the two logs missed it; undisturbed, it is dead. */
  ghost predicate LatestGone(k: Kernel, a: Log, b: Log) {
    && Grows(a, b)
    && (b.launched != [] ==>
          Gone(k, b, |a.scans|, Latest(b)) && (Undisturbed(a, b, Latest(b)) ==> !GroupLive(k, Latest(b))))
  }

  lemma TrackedLater(k: Kernel, n: Kernel, a: Log, b: Log, record: Option<Record>)
    requires Later(k, n) && Grows(a, b) && a.launched == b.launched
    ensures Tracked(k, a, record) ==> Tracked(n, b, record)
    ensures Tracked(k, a, record) && AllGone(k, a) ==> AllGone(n, b)
  {
    if Tracked(k, a, record) {
      forall i | 0 <= i < |a.launched| && Gone(k, a, 0, a.launched[i]) ensures Gone(n, b, 0, a.launched[i]) {
        assert Founded(k, a.launched[i]);
        GoneKept(k, n, a, b, 0, a.launched[i]);
      }
    }
  }

  lemma TrackedMoved(k: Kernel, n: Kernel, a: Log, b: Log, r: Option<Record>, s: Option<Record>)
    requires Later(k, n) && Grows(a, b) && a.launched == b.launched && Runs(r) == Runs(s)
    ensures Tracked(k, a, r) && !Sealed(s) ==> Tracked(n, b, s)
  {
    TrackedLater(k, n, a, b, r);
  }

  /** The latest run's group is gone, and with it every group. */
  lemma LastGone(k: Kernel, n: Kernel, a: Log, b: Log, record: Option<Record>, h: Handle)
    requires Tracked(k, a, record) && Tracked(n, b, record) && Grows(a, b) && a.launched == b.launched
    requires b.launched != [] && h == Runs(record)[|b.launched| - 1] && NamedGone(k, h, n, b, |a.scans|)
    ensures AllGone(n, b) && LatestGone(n, a, b)
  {
    var g := Latest(b);
    assert Names(h, g) && Founded(k, g);
    assert Gone(n, b, |a.scans|, g);
    if Undisturbed(a, b, g) { UndisturbedSeen(a, b, g); }
    forall i | 0 <= i < |b.launched| ensures Gone(n, b, 0, b.launched[i]) {
      if i == |b.launched| - 1 { assert Gone(n, b, 0, g); }
    }
  }

  /** How a session stands after its latest run was looked at. */
  lemma Standing(k: Kernel, n: Kernel, a: Log, b: Log, record: Option<Record>, status: Status)
    requires Later(k, n) && Grows(a, b) && a.launched == b.launched
    requires Runs(record) != [] && status != Running ==>
      NamedGone(k, Runs(record)[|Runs(record)| - 1], n, b, |a.scans|)
    ensures Tracked(k, a, record) ==> Tracked(n, b, record)
    ensures Tracked(k, a, record) && (b.launched == [] || status != Running) ==> AllGone(n, b) && LatestGone(n, a, b)
  {
    TrackedLater(k, n, a, b, record);
    if Tracked(k, a, record) && b.launched != [] && status != Running {
      LastGone(k, n, a, b, record, Runs(record)[|b.launched| - 1]);
    }
  }

  lemma TrackedSpawn(k: Kernel, log: Log, r: Record, p: nat, h: Handle)
    requires Coherent(k) && Unused(k, p) && Names(h, Group(p, k.clock)) && r.repo.Some?
    ensures var n := Next(k, Spawn(p));
      Tracked(k, log, Some(r)) && AllGone(k, log) ==>
        Tracked(n, Noted(log, Spawned(Group(p, k.clock)), n), Some(r.(runs := r.runs + [h], status := Starting)))
  {
    if Tracked(k, log, Some(r)) && AllGone(k, log) {
      var n := Next(k, Spawn(p));
      var more := Noted(log, Spawned(Group(p, k.clock)), n);
      SpawnFounds(k, p);
      WentOne(k, [], {}, log, Spawned(Group(p, k.clock)));
      forall i | 0 <= i < |more.launched| - 1
        ensures Founded(n, more.launched[i]) && Gone(n, more, 0, more.launched[i])
      {
        assert more.launched[i] == log.launched[i] && Founded(k, log.launched[i]) && Gone(k, log, 0, log.launched[i]);
        GoneKept(k, n, log, more, 0, log.launched[i]);
      }
    }
  }

  /** Every live group of the session is the one the latest run on record names, so that a cancellation reaches it. */
  ghost predicate Reachable(k: Kernel, runs: seq<Handle>, launched: seq<Group>) {
    forall i :: 0 <= i < |launched| && GroupLive(k, launched[i]) ==> runs != [] && Names(runs[|runs| - 1], launched[i])
  }

  /** The latest run on record, its birth unread, has the number that a new group was given. */
  predicate Coincides(runs: seq<Handle>, g: Group) {
    runs != [] && Names(runs[|runs| - 1], g)
  }

  /**
   After a spawn, everything alive is within reach of a cancellation if and only if the record was written, or
   the latest run on record happens to name the new group too.
   */
  lemma LostLaunchExactly(k: Kernel, runs: seq<Handle>, launched: seq<Group>, p: nat, h: Handle, written: bool)
    requires Coherent(k) && AllDead(k, launched) && Unused(k, p) && Names(h, Group(p, k.clock))
    ensures var g := Group(p, k.clock);
      Reachable(Next(k, Spawn(p)), if written then runs + [h] else runs, launched + [g]) <==>
        written || Coincides(runs, g)
  {
    var g := Group(p, k.clock);
    var n := Next(k, Spawn(p));
    SpawnFounds(k, p);
    NextLater(k, Spawn(p));
    var more := launched + [g];
    assert more[|launched|] == g;
    forall i | 0 <= i < |launched| ensures !GroupLive(n, more[i]) { assert more[i] == launched[i]; }
  }

  ghost predicate AllFounded(k: Kernel, launched: seq<Group>) {
    forall i :: 0 <= i < |launched| ==> Founded(k, launched[i])
  }

  lemma ReachableLater(k: Kernel, n: Kernel, runs: seq<Handle>, launched: seq<Group>)
    requires Later(k, n) && Reachable(k, runs, launched) && AllFounded(k, launched)
    ensures Reachable(n, runs, launched)
  {
  }

  /** The refusals of a launch, in order. */
  function RefusalOf(k: Kernel, r: Record, prompt: string, resume: bool, host: Host): Option<Refusal> {
    if Whitespace.Words(prompt) == [] then Some(BlankPrompt)
    else if r.repo.None? || !host.repoValid then Some(InvalidRepo)
    else if !host.binary then Some(NoBinary)
    else if resume && (r.thread.None? || Whitespace.Words(r.thread.value) == []) then Some(NoThread)
    else if !Unused(k, host.pid) then Some(SpawnFailed)
    else None
  }

  /** A refusal to resume looks at the record's thread and repository alone; a sealed record has none. */
  lemma SameRefusal(k: Kernel, r: Record, n: Record, prompt: string, host: Host)
    requires n.repo == r.repo
    ensures r.repo.None? ==> RefusalOf(k, n, prompt, true, host).Some?
    ensures n.thread == r.thread ==> RefusalOf(k, n, prompt, true, host) == RefusalOf(k, r, prompt, true, host)
  {
  }

  /** What it takes to launch, and what each refusal says. */
  lemma RefusalExactly(k: Kernel, r: Record, prompt: string, resume: bool, host: Host)
    ensures var refusal := RefusalOf(k, r, prompt, resume, host);
      && (refusal.None? <==>
            && Whitespace.Words(prompt) != [] && r.repo.Some? && host.repoValid && host.binary
            && (resume ==> r.thread.Some? && Whitespace.Words(r.thread.value) != []) && Unused(k, host.pid))
      && (refusal.Some? ==>
            match refusal.value
            case BlankPrompt => Whitespace.Words(prompt) == []
            case InvalidRepo => r.repo.None? || !host.repoValid
            case NoBinary => !host.binary
            case NoThread => resume && (r.thread.Some? ==> Whitespace.Words(r.thread.value) == [])
            case SpawnFailed => !Unused(k, host.pid)
            case _ => false)
  {
  }

  /** In a still world, what it takes for the next turn to be launched. */
  predicate Resumable(k: Kernel, record: Option<Record>, prompt: string, host: Host) {
    && record.Some? && record.value.runs != [] && !GroupAlive(k, record.value.runs[|record.value.runs| - 1])
    && RefusalOf(k, record.value, prompt, true, host).None?
  }

  class Session {
    var kernel: Kernel
    var now: nat
    var future: seq<Slice>
    var stuck: set<nat>
    var record: Option<Record>
    var signals: seq<Signal>
    /** Every moment of the session's life, every scan that found nobody, and every group launched. */
    ghost var log: Log

    ghost predicate Valid()
      reads this
    {
      Coherent(kernel) && Tracked(kernel, log, record)
    }

    constructor (k: Kernel, future: seq<Slice>, stuck: set<nat>)
      requires Coherent(k)
      ensures Valid() && record.None? && log == Log([], [], [])
      ensures kernel == k && this.future == future && this.stuck == stuck
    {
      kernel, now, this.future, this.stuck, record, signals, log := k, 0, future, stuck, None, [], Log([], [], []);
    }

    ghost function Here(): Origin
      reads this
    {
      Origin(kernel, future, log)
    }

    /** The session came here from the origin, through the moments its log has gained. */
    ghost predicate From(o: Origin)
      reads this
    {
      Went(o.kernel, o.future, stuck, o.log, log, kernel, future)
    }

    /** The rest of the world moves, and at least the given time passes. */
    method Pass(least: nat, ghost o: Origin) returns (events: seq<Event>)
      requires From(o)
      modifies this`kernel, this`now, this`future, this`log
      ensures From(o) && now >= old(now) + least && Later(old(kernel), kernel)
      ensures log == Noted(old(log), Passed, kernel) && events == ReadAt(old(future), 0)
      ensures old(future) == [] ==> kernel == old(kernel) && future == [] && events == []
    {
      ghost var k, f, l := kernel, future, log;
      WentOne(kernel, future, stuck, log, Passed);
      events := [];
      now := now + least;
      if future != [] {
        now, events := now + future[0].delay, future[0].events;
        kernel, future := After(kernel, future[0].steps), future[1..];
      }
      log := Noted(log, Passed, kernel);
      WentThen(o.kernel, o.future, stuck, o.log, k, f, l, kernel, future, log);
    }

    /** Lists the process directory, each entry at a moment of its own. */
    method ListProcesses(ghost from: nat, ghost o: Origin) returns (listed: seq<nat>)
      requires From(o) && Scanning(log, kernel, from)
      modifies this`kernel, this`now, this`future, this`log
      ensures From(o) && now >= old(now) && Listing(old(log), log, kernel, from, listed, PID_MAX + 1)
      ensures old(future) == [] ==> kernel == old(kernel) && future == []
      ensures old(future) == [] ==> ListedBelow(kernel, listed, PID_MAX + 1)
    {
      listed := [];
      for p: nat := 1 to PID_MAX + 1
        invariant From(o) && now >= old(now) && Listing(old(log), log, kernel, from, listed, p)
        invariant old(future) == [] ==> kernel == old(kernel) && future == []
        invariant old(future) == [] ==> ListedBelow(kernel, listed, p)
      {
        ghost var was := listed;
        listed := ListEntry(p, listed, from, old(log), o);
        if old(future) == [] { ListedNext(kernel, was, p); }
      }
    }

    method ListEntry(p: nat, listed: seq<nat>, ghost from: nat, ghost start: Log, ghost o: Origin)
      returns (more: seq<nat>)
      requires From(o) && Listing(start, log, kernel, from, listed, p)
      modifies this`kernel, this`now, this`future, this`log
      ensures From(o) && now >= old(now) && Listing(start, log, kernel, from, more, p + 1)
      ensures more == if p in kernel.table then listed + [p] else listed
      ensures old(future) == [] ==> kernel == old(kernel) && future == []
    {
      var _ := Pass(0, o);
      ListingNext(start, old(log), old(kernel), kernel, from, listed, p);
      more := if p in kernel.table then listed + [p] else listed;
    }

    /** Reads every listed process in turn, looking for live members of a group. */
    method ReadMembers(listed: seq<nat>, id: nat, ghost from: nat, ghost o: Origin) returns (found: bool)
      requires From(o) && Scanning(log, kernel, from)
      modifies this`kernel, this`now, this`future, this`log
      ensures From(o) && now >= old(now) && Reading(old(log), log, kernel, from, listed, |listed|, id, found)
      ensures old(future) == [] ==> kernel == old(kernel) && future == []
      ensures old(future) == [] ==> (found <==> AnyMember(kernel, listed, |listed|, id))
    {
      found := false;
      for i := 0 to |listed|
        invariant From(o) && now >= old(now) && Reading(old(log), log, kernel, from, listed, i, id, found)
        invariant old(future) == [] ==> kernel == old(kernel) && future == []
        invariant old(future) == [] ==> (found <==> AnyMember(kernel, listed, i, id))
      {
        found := ReadEntry(listed, i, id, found, from, old(log), o);
      }
    }

    method ReadEntry(listed: seq<nat>, i: nat, id: nat, found: bool, ghost from: nat, ghost start: Log, ghost o: Origin)
      returns (seen: bool)
      requires From(o) && i < |listed| && Reading(start, log, kernel, from, listed, i, id, found)
      modifies this`kernel, this`now, this`future, this`log
      ensures From(o) && now >= old(now) && Reading(start, log, kernel, from, listed, i + 1, id, seen)
      ensures seen <==> found || LiveMember(kernel, listed[i], id)
      ensures old(future) == [] ==> kernel == old(kernel) && future == []
    {
      var _ := Pass(0, o);
      var p := listed[i];
      seen := found || (p in kernel.table && !kernel.table[p].zombie && kernel.table[p].group.id == id);
      ReadingNext(start, old(log), old(kernel), kernel, from, listed, i, id, found);
    }

    method ScanMembers(h: Handle, ghost from: nat, ghost o: Origin) returns (b: bool)
      requires From(o) && Scanning(log, kernel, from) && from + 1 == |log.history|
      modifies this`kernel, this`now, this`future, this`log
      ensures From(o) && Scanning(log, kernel, from) && now >= old(now) && log.scans == old(log.scans)
      ensures !b ==> forall g :: Names(h, g) && GroupLive(kernel, g) ==> Relayed(Since(log, from), g)
      ensures b ==> AnswersAt(Since(log, from), h)
      ensures old(future) == [] ==> kernel == old(kernel) && future == [] && b == HasMember(kernel, h.pid)
    {
      ghost var first := kernel;
      var listed := ListProcesses(from, o);
      ghost var l := log;
      b := ReadMembers(listed, h.pid, from, o);
      assert l.history[from] == l.history[..|old(log.history)|][from];
      if !b { ScanMisses(h, listed, l, log, first, kernel, from); } else { SeenAnswers(Since(log, from), h); }
      if old(future) == [] { ListedMembers(kernel, listed, h.pid); }
    }

    /**
     Reads the leader, then lists the processes and reads them one by one, with the world moving throughout.
     A no is right, unless the group's live members relayed it past the moments of this very call.
     */
    method Alive(h: Handle) returns (b: bool)
      requires Coherent(kernel)
      modifies this`kernel, this`now, this`future, this`log
      ensures Went(old(kernel), old(future), stuck, old(log), log, kernel, future) && now >= old(now)
      ensures OnlyPassed(log, |old(log.history)|) && log.launched == old(log.launched)
      ensures log.scans == old(log.scans)
        || (!b && log.scans == old(log.scans) + [Scan(h.pid, |old(log.history)|, |log.history|)])
      ensures !b ==> NamedGone(old(kernel), h, kernel, log, |old(log.scans)|)
      ensures b ==> AnswersAt(Since(log, |old(log.history)|), h)
      ensures future == Rest(old(future), |log.history| - |old(log.history)|)
      ensures old(future) == [] ==> kernel == old(kernel) && future == [] && b == GroupAlive(kernel, h)
    {
      WentNowhere(kernel, future, stuck, log);
      ghost var o := Here();
      var _ := Pass(0, o);
      if Live(kernel, h.pid) {
        b := h.start.None? || kernel.table[h.pid].birth == h.start.value;
        OnlyTime(o, stuck, log, kernel, future, h.pid);
        if b {
          LastAnswers(log, kernel, |o.log.history|, h);
        } else {
          LeaderVerdict(o.kernel, h, kernel, log, |o.log.scans|);
        }
        return;
      }
      b := ScanAll(h, o);
    }

    /** The scan of the whole process table, noted if it saw nobody. */
    method ScanAll(h: Handle, ghost o: Origin) returns (b: bool)
      requires From(o) && Scanning(log, kernel, |o.log.history|) && |log.history| == |o.log.history| + 1
      requires log.scans == o.log.scans
      modifies this`kernel, this`now, this`future, this`log
      ensures From(o) && now >= old(now) && OnlyPassed(log, |o.log.history|) && log.launched == o.log.launched
      ensures |log.history| > |o.log.history|
      ensures log.scans == if b then o.log.scans else o.log.scans + [Scan(h.pid, |o.log.history|, |log.history|)]
      ensures !b ==> NamedGone(o.kernel, h, kernel, log, |o.log.scans|)
      ensures b ==> AnswersAt(Since(log, |o.log.history|), h)
      ensures future == Rest(o.future, |log.history| - |o.log.history|)
      ensures old(future) == [] ==> kernel == old(kernel) && future == [] && b == HasMember(kernel, h.pid)
    {
      b := ScanMembers(h, |o.log.history|, o);
      OnlyTime(o, stuck, log, kernel, future, h.pid);
      if !b {
        log := log.(scans := log.scans + [Scan(h.pid, |o.log.history|, |log.history|)]);
        ScanVerdict(o.kernel, h, kernel, o.log, log);
      }
    }

    /** The liveness test as one step of something longer. */
    method Probe(h: Handle, ghost o: Origin) returns (b: bool)
      requires From(o)
      modifies this`kernel, this`now, this`future, this`log
      ensures From(o) && now >= old(now) && log.launched == old(log.launched)
      ensures !b ==> NamedGone(o.kernel, h, kernel, log, |o.log.scans|)
      ensures |old(log.history)| <= |log.history| && future == Rest(old(future), |log.history| - |old(log.history)|)
      ensures b ==> AnswersAt(Since(log, |old(log.history)|), h)
      ensures old(future) == [] ==> kernel == old(kernel) && future == [] && b == GroupAlive(kernel, h)
    {
      b := Alive(h);
      WentThen(o.kernel, o.future, stuck, o.log, old(kernel), old(future), old(log), kernel, future, log);
      if !b { NamedGoneEarlier(o.kernel, old(kernel), h, kernel, log, |o.log.scans|, |old(log.scans)|); }
    }

    /** Sends one signal to the whole group; false if no process is in it. */
    method KillGroup(s: Signal, ghost o: Origin) returns (found: bool)
      requires From(o)
      modifies this`kernel, this`now, this`future, this`signals, this`log
      ensures From(o) && now >= old(now) && log.launched == old(log.launched)
      ensures signals == if found then old(signals) + [s] else old(signals)
      ensures !found || (s.Kill? && stuck == {}) ==> NumberDead(o.kernel, s.group, kernel)
    {
      var _ := Pass(0, o);
      found := InUse(kernel, s.group);
      if found {
        signals := signals + [s];
        Strike(s, o);
      }
    }

    method Strike(s: Signal, ghost o: Origin)
      requires From(o)
      modifies this`kernel, this`log
      ensures From(o) && log.launched == old(log.launched)
      ensures s.Kill? && stuck == {} ==> NumberDead(o.kernel, s.group, kernel)
    {
      WentOne(kernel, future, stuck, log, Signalled(s));
      if s.Kill? {
        kernel := Killed(kernel, s.group, stuck);
        forall g: Group | stuck == {} && g.id == s.group ensures !GroupLive(kernel, g) { KilledDead(old(kernel), g); }
      }
      log := Noted(log, Signalled(s), kernel);
      WentThen(o.kernel, o.future, stuck, o.log, old(kernel), future, old(log), kernel, future, log);
    }

    /** Polls until the group is seen dead or the deadline has passed. */
    method AwaitDeath(h: Handle, deadline: nat, ghost o: Origin) returns (dead: bool)
      requires From(o)
      modifies this`kernel, this`now, this`future, this`log
      ensures From(o) && now >= old(now) && log.launched == old(log.launched) && Later(old(kernel), kernel)
      ensures dead ==> NamedGone(o.kernel, h, kernel, log, |o.log.scans|)
      ensures !dead ==> now >= deadline
    {
      WentNowhere(kernel, future, stuck, log);
      while now < deadline
        invariant From(o) && now >= old(now) && log.launched == old(log.launched) && Later(old(kernel), kernel)
        decreases deadline - now
      {
        dead := ProbeOnce(h, old(kernel), o);
        if dead { return; }
      }
      return false;
    }

    /** One round of polling: a test, and a pause unless the group is dead. */
    method ProbeOnce(h: Handle, ghost was: Kernel, ghost o: Origin) returns (dead: bool)
      requires From(o) && Later(was, kernel)
      modifies this`kernel, this`now, this`future, this`log
      ensures From(o) && now >= old(now) && log.launched == old(log.launched) && Later(was, kernel)
      ensures dead ==> NamedGone(o.kernel, h, kernel, log, |o.log.scans|)
      ensures !dead ==> now >= old(now) + POLL
    {
      var alive := Alive(h);
      ghost var k := kernel;
      WentThen(o.kernel, o.future, stuck, o.log, old(kernel), old(future), old(log), kernel, future, log);
      LaterTransitive(was, old(kernel), kernel);
      if !alive {
        NamedGoneEarlier(o.kernel, old(kernel), h, kernel, log, |o.log.scans|, |old(log.scans)|);
        return true;
      }
      var _ := Pass(POLL, o);
      LaterTransitive(was, k, kernel);
      return false;
    }

    /**
     Stops a whole group: terminate, two seconds of grace, kill, one second more. A normal return means the group
     named by the handle is dead, unless a scan made here missed it. A failed kill leaves it dead without that
     exception, unless a member is stuck in the kernel.
     */
    method Terminate(h: Handle, ghost o: Origin) returns (ok: bool)
      requires From(o)
      modifies this`kernel, this`now, this`future, this`signals, this`log
      ensures From(o) && log.launched == old(log.launched)
      ensures ok ==> NamedGone(o.kernel, h, kernel, log, |o.log.scans|)
      ensures signals in {old(signals), old(signals) + [Term(h.pid)], old(signals) + [Term(h.pid), Kill(h.pid)]}
      ensures signals == old(signals) + [Term(h.pid), Kill(h.pid)] ==> now >= old(now) + TERM_GRACE
      ensures stuck == {} && (!ok || |signals| == |old(signals)| + 2) ==> NamedDead(o.kernel, h, kernel)
    {
      ok := AskToStop(h, o);
      if !ok {
        ok := KillAndAwait(h, o);
        assert old(signals) + [Term(h.pid)] + [Kill(h.pid)] == old(signals) + [Term(h.pid), Kill(h.pid)];
      }
    }

    method AskToStop(h: Handle, ghost o: Origin) returns (dead: bool)
      requires From(o)
      modifies this`kernel, this`now, this`future, this`signals, this`log
      ensures From(o) && log.launched == old(log.launched)
      ensures dead ==> NamedGone(o.kernel, h, kernel, log, |o.log.scans|)
      ensures dead ==> signals == old(signals) || signals == old(signals) + [Term(h.pid)]
      ensures !dead ==> signals == old(signals) + [Term(h.pid)] && now >= old(now) + TERM_GRACE
    {
      var alive := Probe(h, o);
      if !alive { return true; }
      var found := KillGroup(Term(h.pid), o);
      if !found { DeadIsGone(o.kernel, h, kernel, log, |o.log.scans|); return true; }
      dead := AwaitDeath(h, now + TERM_GRACE, o);
      if dead { return; }
      alive := Probe(h, o);
      dead := !alive;
    }

    method KillAndAwait(h: Handle, ghost o: Origin) returns (ok: bool)
      requires From(o)
      modifies this`kernel, this`now, this`future, this`signals, this`log
      ensures From(o) && now >= old(now) && log.launched == old(log.launched)
      ensures ok ==> NamedGone(o.kernel, h, kernel, log, |o.log.scans|)
      ensures stuck == {} ==> NamedDead(o.kernel, h, kernel)
      ensures signals in {old(signals), old(signals) + [Kill(h.pid)]}
    {
      var found := KillGroup(Kill(h.pid), o);
      if !found { DeadIsGone(o.kernel, h, kernel, log, |o.log.scans|); return true; }
      ok := AwaitEnd(h, o);
    }

    /** The last second, and the last test. What was dead already stays dead. */
    method AwaitEnd(h: Handle, ghost o: Origin) returns (ok: bool)
      requires From(o)
      modifies this`kernel, this`now, this`future, this`log
      ensures From(o) && now >= old(now) && log.launched == old(log.launched)
      ensures ok ==> NamedGone(o.kernel, h, kernel, log, |o.log.scans|)
      ensures NumberDead(o.kernel, h.pid, old(kernel)) ==> NamedDead(o.kernel, h, kernel)
    {
      ok := AwaitDeath(h, now + KILL_GRACE, o);
      if !ok { ok := ProbeOnce(h, old(kernel), o); }
      StaysDead(o.kernel, h, old(kernel), kernel);
    }

    /**
     The record as the latest run's group and log now show it; any status but running means that group is dead,
     unless the scan made here missed it.
     */
    method Refresh(r: Record, ghost o: Origin) returns (n: Record)
      requires From(o)
      modifies this`kernel, this`now, this`future, this`log
      ensures From(o) && log.launched == old(log.launched)
      ensures n.runs == r.runs && n.repo == r.repo && n.cancelledBeforeStart == r.cancelledBeforeStart
      ensures r.runs == [] ==> n == r
      ensures r.runs != [] ==> n.status in {Running, Completed, Failed, Interrupted}
      ensures r.runs != [] && n.status != Running ==>
        NamedGone(o.kernel, r.runs[|r.runs| - 1], kernel, log, |o.log.scans|)
      ensures r.runs != [] ==> Told(r, n, old(future), old(log), log)
      ensures old(future) == [] ==> kernel == old(kernel) && future == [] && n.thread == r.thread
      ensures old(future) == [] && r.runs != [] ==> (n.status == Running <==> GroupAlive(kernel, r.runs[|r.runs| - 1]))
    {
      n := r;
      if r.runs == [] { return; }
      var h := r.runs[|r.runs| - 1];
      var running, events := ReadRun(h, o);
      var thread := ThreadOf(events);
      if thread.Some? && thread.value != "" { n := n.(thread := thread); }
      StatusRange(events, running);
      n := n.(status := EventStatus(events, running));
      UpdatedReports(r, events, running);
    }

    /** The liveness test of a run, and then its log. */
    method ReadRun(h: Handle, ghost o: Origin) returns (running: bool, events: seq<Event>)
      requires From(o)
      modifies this`kernel, this`now, this`future, this`log
      ensures From(o) && log.launched == old(log.launched) && |old(log.history)| < |log.history|
      ensures events == LastRead(old(future), old(log), log)
      ensures !running ==> NamedGone(o.kernel, h, kernel, log, |o.log.scans|)
      ensures running ==> AnswersAt(Since(log, |old(log.history)|), h)
      ensures old(future) == [] ==>
        kernel == old(kernel) && future == [] && events == [] && running == GroupAlive(kernel, h)
    {
      running := Probe(h, o);
      ghost var k, l := kernel, log;
      events := Pass(0, o);
      ReadOnce(old(future), old(log), l, kernel);
      if running {
        AnswersStill(l, kernel, |old(log.history)|, h);
      } else {
        NamedGonePassed(o.kernel, h, k, kernel, l, |o.log.scans|);
      }
    }

    /**
     Starts a process group for a new run, exactly when nothing refuses it. The group is on record before anything
     else can happen, if the record can be written; and a cancellation can reach it exactly then.
     */
    method Launch(r: Record, prompt: string, resume: bool, host: Host) returns (out: Outcome<Status, Refusal>)
      requires Coherent(kernel) && record.Some? && r.runs == record.value.runs && r.repo == record.value.repo
      requires r.cancelledBeforeStart == record.value.cancelledBeforeStart
      modifies this
      ensures stuck == old(stuck) && Went(old(kernel), old(future), stuck, old(log), log, kernel, future)
      ensures log.launched == old(log.launched)
        + if old(RefusalOf(kernel, r, prompt, resume, host)).None? then [Group(host.pid, old(kernel).clock)] else []
      ensures old(RefusalOf(kernel, r, prompt, resume, host)).Some? ==>
        && out == Err(old(RefusalOf(kernel, r, prompt, resume, host)).value)
        && record == old(record) && log == old(log) && kernel == old(kernel)
      ensures old(Valid() && AllGone(kernel, log)) && (log.launched == old(log.launched) || host.recordWritten) ==>
        Valid()
      ensures out.Ok? ==> log.launched != old(log.launched) && host.recordWritten
      ensures log.launched != old(log.launched) && !host.recordWritten ==>
        && out == Err(RecordLost) && record == old(record)
        && kernel == Next(old(kernel), Spawn(host.pid)) && future == old(future)
      ensures log.launched != old(log.launched) && old(AllDead(kernel, log.launched)) ==>
        (Reachable(kernel, Runs(record), log.launched) <==> host.recordWritten || Coincides(r.runs, Latest(log)))
      ensures old(future) == [] ==> future == []
      ensures old(future) == [] && log.launched != old(log.launched) ==> kernel == Next(old(kernel), Spawn(host.pid))
    {
      WentNowhere(kernel, future, stuck, log);
      if Whitespace.Words(prompt) == [] { return Err(BlankPrompt); }
      if r.repo.None? || !host.repoValid { return Err(InvalidRepo); }
      if !host.binary { return Err(NoBinary); }
      if resume && (r.thread.None? || Whitespace.Words(r.thread.value) == []) { return Err(NoThread); }
      if !Unused(kernel, host.pid) { return Err(SpawnFailed); }
      var h := SpawnRun(r, host, old(Here()));
      if !host.recordWritten { return Err(RecordLost); }
      record := Some(r.(runs := r.runs + [h], status := Starting));
      out := Settle(h, if resume then r.thread else None, old(Here()));
    }

    /** The spawn itself; nothing else moves. */
    method SpawnRun(r: Record, host: Host, ghost o: Origin) returns (h: Handle)
      requires From(o) && Unused(kernel, host.pid) && r.repo.Some?
      requires record.Some? && r.runs == record.value.runs && r.repo == record.value.repo
      requires r.cancelledBeforeStart == record.value.cancelledBeforeStart
      modifies this`kernel, this`log
      ensures From(o) && kernel == Next(old(kernel), Spawn(host.pid))
      ensures log.launched == old(log.launched) + [Group(host.pid, old(kernel).clock)]
      ensures old(Valid() && AllGone(kernel, log)) ==>
        Tracked(kernel, log, Some(r.(runs := r.runs + [h], status := Starting)))
      ensures old(AllDead(kernel, log.launched)) ==>
        && (Reachable(kernel, r.runs, log.launched) <==> Coincides(r.runs, Latest(log)))
        && Reachable(kernel, r.runs + [h], log.launched) && AllFounded(kernel, log.launched)
    {
      ghost var g := Group(host.pid, kernel.clock);
      h := Handle(host.pid, if host.birthReadable then Some(kernel.clock) else None);
      SpawnFacts(kernel, log, record, r, host.pid, h);
      WentOne(kernel, future, stuck, log, Spawned(g));
      kernel := Next(kernel, Spawn(host.pid));
      log := Noted(log, Spawned(g), kernel);
      WentThen(o.kernel, o.future, stuck, o.log, old(kernel), future, old(log), kernel, future, log);
    }

    /** The wait after a launch, which keeps what is true of it. */
    method Settle(h: Handle, expected: Option<string>, ghost o: Origin) returns (out: Outcome<Status, Refusal>)
      requires From(o) && record.Some?
      modifies this`kernel, this`now, this`future, this`signals, this`record, this`log
      ensures From(o) && log.launched == old(log.launched) && record.Some? && Runs(record) == old(Runs(record))
      ensures old(Tracked(kernel, log, record)) && !Sealed(old(record)) ==> Valid()
      ensures old(Reachable(kernel, Runs(record), log.launched) && AllFounded(kernel, log.launched)) ==>
        Reachable(kernel, Runs(record), log.launched)
      ensures old(future) == [] ==> kernel == old(kernel) && future == []
    {
      out := AwaitThread(h, expected);
      WentThen(o.kernel, o.future, stuck, o.log, old(kernel), old(future), old(log), kernel, future, log);
      if old(Reachable(kernel, Runs(record), log.launched) && AllFounded(kernel, log.launched)) {
        ReachableLater(old(kernel), kernel, Runs(record), log.launched);
      }
    }

    /** Waits up to three seconds for the thread id; a resumed run that reports another thread is stopped. */
    method AwaitThread(h: Handle, expected: Option<string>) returns (out: Outcome<Status, Refusal>)
      requires Coherent(kernel) && record.Some?
      modifies this`kernel, this`now, this`future, this`signals, this`record, this`log
      ensures Went(old(kernel), old(future), stuck, old(log), log, kernel, future)
      ensures log.launched == old(log.launched)
      ensures record.Some? && record.value.runs == old(record.value.runs)
      ensures record.value.cancelledBeforeStart == old(record.value.cancelledBeforeStart)
      ensures old(Valid()) && !Sealed(old(record)) ==> Valid()
      ensures out == Err(ThreadMismatch) ==>
        && expected.Some? && NamedGone(old(kernel), h, kernel, log, |old(log.scans)|)
        && record.value == old(record.value).(status := Failed)
      ensures old(future) == [] ==> kernel == old(kernel) && future == []
    {
      WentNowhere(kernel, future, stuck, log);
      ghost var o := Here();
      var deadline := now + THREAD_WAIT;
      while now < deadline
        invariant From(o) && log.launched == old(log.launched) && record == old(record)
        invariant old(future) == [] ==> kernel == old(kernel) && future == []
        decreases deadline - now
      {
        var events := Pass(0, o);
        var thread := ThreadOf(events);
        if thread.Some? && thread.value != "" {
          out := ThreadSeen(h, expected, thread.value, events, o);
          if out.Err? { TrackedMoved(old(kernel), kernel, old(log), log, old(record), record); return; }
          break;
        }
        var dead := ProbeQuiet(h, o);
        if dead { break; }
      }
      var n := Refresh(record.value, o);
      TrackedMoved(old(kernel), kernel, old(log), log, old(record), record);
      return Ok(n.status);
    }

    /** A round of polling that a still world leaves as it was. */
    method ProbeQuiet(h: Handle, ghost o: Origin) returns (dead: bool)
      requires From(o)
      modifies this`kernel, this`now, this`future, this`log
      ensures From(o) && log.launched == old(log.launched)
      ensures !dead ==> now >= old(now) + POLL
      ensures old(future) == [] ==> kernel == old(kernel) && future == []
    {
      var alive := Probe(h, o);
      if !alive { return true; }
      var _ := Pass(POLL, o);
      return false;
    }

    method ThreadSeen(h: Handle, expected: Option<string>, thread: string, events: seq<Event>, ghost o: Origin)
      returns (out: Outcome<Status, Refusal>)
      requires From(o) && record.Some?
      modifies this`kernel, this`now, this`future, this`signals, this`record, this`log
      ensures From(o) && log.launched == old(log.launched)
      ensures record.Some? && record.value.runs == old(record.value.runs)
      ensures record.value.cancelledBeforeStart == old(record.value.cancelledBeforeStart)
      ensures out.Err? <==> expected.Some? && expected.value != thread
      ensures out == Err(ThreadMismatch) ==>
        && NamedGone(o.kernel, h, kernel, log, |o.log.scans|)
        && record.value == old(record.value).(status := Failed)
      ensures out.Ok? ==>
        && record.value == old(record.value).(thread := Some(thread), status := out.value)
        && StatusTold(out.value, events)
        && (out.value != Running ==> NamedGone(o.kernel, h, kernel, log, |o.log.scans|))
    {
      if expected.Some? && thread != expected.value {
        var ok := Terminate(h, o);
        if !ok { return Err(StillAlive); }
        record := Some(record.value.(status := Failed));
        return Err(ThreadMismatch);
      }
      var alive := Probe(h, o);
      StatusRange(events, alive);
      StatusExactly(events);
      record := Some(record.value.(thread := Some(thread), status := EventStatus(events, alive)));
      return Ok(record.value.status);
    }

    method Start(repo: Option<string>, prompt: string, host: Host) returns (out: Outcome<Status, Refusal>)
      requires Coherent(kernel)
      modifies this
      ensures stuck == old(stuck) && Went(old(kernel), old(future), stuck, old(log), log, kernel, future)
      ensures old(Valid()) && (log.launched == old(log.launched) || host.recordWritten) ==> Valid()
      ensures out.Ok? ==> |log.launched| == |old(log.launched)| + 1 && host.recordWritten
      ensures old(record).Some? ==> out.Err? && log.launched == old(log.launched) && record == old(record)
      ensures old(Valid()) && Sealed(old(record)) && repo.Some? ==> out == Err(CancelledBeforeLaunch)
    {
      WentNowhere(kernel, future, stuck, log);
      if repo.None? { return Err(InvalidRepo); }
      if record.Some? {
        var cancelled := record.value.status == Cancelled && record.value.cancelledBeforeStart;
        return Err(if cancelled then CancelledBeforeLaunch else AlreadyExists);
      }
      record := Some(Record(Created, repo, None, [], false));
      out := Launch(record.value, prompt, false, host);
    }

    /**
     Launches the next turn, unless the latest run's group answers. When it launches, the previous group was dead,
     unless a scan of this call missed it; if nobody entered that group during the call, it was dead.
     */
    method Send(prompt: string, host: Host) returns (out: Outcome<Status, Refusal>)
      requires Coherent(kernel)
      modifies this
      ensures stuck == old(stuck) && Went(old(kernel), old(future), stuck, old(log), log, kernel, future)
      ensures old(Valid()) && (log.launched == old(log.launched) || host.recordWritten) ==> Valid()
      ensures out.Ok? ==> |log.launched| == |old(log.launched)| + 1 && host.recordWritten
      ensures old(Valid()) && Sealed(old(record)) ==>
        out.Err? && log.launched == old(log.launched) && record == old(record)
      ensures old(Valid()) && old(log.launched) != [] && log.launched != old(log.launched) ==>
        PreviousGone(kernel, old(log), log, old(Latest(log)))
      ensures old(future) == [] && old(Resumable(kernel, record, prompt, host)) ==>
        && log.launched == old(log.launched) + [Group(host.pid, old(kernel).clock)] && future == []
        && kernel == Next(old(kernel), Spawn(host.pid)) && (!host.recordWritten ==> record == old(record))
    {
      WentNowhere(kernel, future, stuck, log);
      if record.None? { return Err(UnknownSession); }
      var r := Refreshed();
      SameRefusal(kernel, record.value, r, prompt, host);
      if r.status in {Running, Starting} { return Err(TurnActive); }
      assert old(Valid() && log.launched != []) ==> Gone(kernel, log, |old(log.scans)|, Latest(old(log)));
      out := LaunchNext(r, prompt, host, old(Here()));
    }

    /** A launch, seen from where the call set out. */
    method LaunchNext(r: Record, prompt: string, host: Host, ghost o: Origin) returns (out: Outcome<Status, Refusal>)
      requires From(o) && record.Some? && r.runs == record.value.runs && r.repo == record.value.repo
      requires r.cancelledBeforeStart == record.value.cancelledBeforeStart && log.launched == o.log.launched
      modifies this
      ensures stuck == old(stuck) && From(o)
      ensures log.launched == o.log.launched
        + if old(RefusalOf(kernel, r, prompt, true, host)).None? then [Group(host.pid, old(kernel).clock)] else []
      ensures old(RefusalOf(kernel, r, prompt, true, host)).Some? ==> out.Err? && record == old(record)
      ensures old(Valid() && AllGone(kernel, log)) && (log.launched == o.log.launched || host.recordWritten) ==> Valid()
      ensures out.Ok? ==> log.launched != o.log.launched && host.recordWritten
      ensures !host.recordWritten ==> record == old(record)
      ensures old(Valid()) && o.log.launched != [] && Gone(old(kernel), old(log), |o.log.scans|, Latest(o.log)) ==>
        PreviousGone(kernel, o.log, log, Latest(o.log))
      ensures old(future) == [] ==> future == []
      ensures old(future) == [] && log.launched != o.log.launched ==> kernel == Next(old(kernel), Spawn(host.pid))
    {
      out := Launch(r, prompt, true, host);
      WentThen(o.kernel, o.future, stuck, o.log, old(kernel), old(future), old(log), kernel, future, log);
      if old(Valid()) && o.log.launched != [] {
        assert Founded(old(kernel), Latest(o.log));
        PreviousKept(old(kernel), kernel, o.log, old(log), log, Latest(o.log));
      }
    }

    /** The record refreshed; unless it says running, no group is alive, unless a scan missed it. */
    method Refreshed() returns (r: Record)
      requires Coherent(kernel) && record.Some?
      modifies this`kernel, this`now, this`future, this`log
      ensures Went(old(kernel), old(future), stuck, old(log), log, kernel, future)
      ensures log.launched == old(log.launched)
      ensures r.runs == record.value.runs && r.repo == record.value.repo
      ensures r.cancelledBeforeStart == record.value.cancelledBeforeStart
      ensures r.runs == [] ==> r == record.value
      ensures r.runs != [] ==> r.status in {Running, Completed, Failed, Interrupted}
      ensures old(Valid()) ==> Valid()
      ensures old(Valid()) && (log.launched == [] || r.status != Running) ==>
        AllGone(kernel, log) && LatestGone(kernel, old(log), log)
      ensures old(future) == [] ==> kernel == old(kernel) && future == [] && r.thread == record.value.thread
      ensures old(future) == [] && r.runs != [] ==> (r.status == Running <==> GroupAlive(kernel, r.runs[|r.runs| - 1]))
    {
      WentNowhere(kernel, future, stuck, log);
      r := Refresh(record.value, old(Here()));
      Standing(old(kernel), kernel, old(log), log, record, r.status);
    }

    /** The record refreshed and told apart, for the answer to a question about the status. */
    method RefreshedTold() returns (r: Record)
      requires Coherent(kernel) && record.Some?
      modifies this`kernel, this`now, this`future, this`log
      ensures Went(old(kernel), old(future), stuck, old(log), log, kernel, future)
      ensures log.launched == old(log.launched)
      ensures r.runs == record.value.runs && r.repo == record.value.repo
      ensures r.cancelledBeforeStart == record.value.cancelledBeforeStart
      ensures r.runs == [] ==> r == record.value
      ensures r.runs != [] ==> Told(record.value, r, old(future), old(log), log)
      ensures old(Valid()) ==> Valid()
      ensures old(Valid()) && (log.launched == [] || r.status != Running) ==>
        AllGone(kernel, log) && LatestGone(kernel, old(log), log)
    {
      WentNowhere(kernel, future, stuck, log);
      r := Refresh(record.value, old(Here()));
      Standing(old(kernel), kernel, old(log), log, record, r.status);
    }

    method GetStatus() returns (out: Outcome<Status, Refusal>)
      requires Coherent(kernel)
      modifies this`kernel, this`now, this`future, this`record, this`log
      ensures Went(old(kernel), old(future), stuck, old(log), log, kernel, future)
      ensures log.launched == old(log.launched) && record.Some? == old(record).Some?
      ensures old(Valid()) ==> Valid()
      ensures old(Valid()) && Sealed(old(record)) ==> record == old(record)
      ensures old(Valid()) && out.Ok? && out != Ok(Running) ==>
        AllGone(kernel, log) && LatestGone(kernel, old(log), log)
      ensures out.Ok? && Runs(old(record)) != [] ==>
        && |old(log.history)| < |log.history| && record.Some? && record.value.status == out.value
        && Runs(record) == Runs(old(record))
        && Reports(old(record).value, record.value, LastRead(old(future), old(log), log))
        && (out == Ok(Running) ==> AnswersAt(Since(log, |old(log.history)|), Runs(record)[|Runs(record)| - 1]))
    {
      WentNowhere(kernel, future, stuck, log);
      if record.None? { return Err(UnknownSession); }
      var r := RefreshedTold();
      record := Some(r);
      return Ok(r.status);
    }

    /**
     A normal return means that no group this session launched is alive, unless a scan missed it; for the latest
     group, a scan made by this very call, and if nobody entered the group during the call, it is dead.
     */
    method Cancel() returns (out: Outcome<Status, Refusal>, ghost seen: Record, ghost at: Log)
      requires Coherent(kernel)
      modifies this`kernel, this`now, this`future, this`signals, this`record, this`log
      ensures Went(old(kernel), old(future), stuck, old(log), log, kernel, future)
      ensures log.launched == old(log.launched)
      ensures old(Valid()) ==> Valid()
      ensures old(Valid()) && out.Ok? ==> AllGone(kernel, log) && LatestGone(kernel, old(log), log)
      ensures old(Valid()) && out.Err? && stuck == {} && log.launched != [] ==> !GroupLive(kernel, Latest(log))
      ensures out.Ok? ==>
        record.Some? && record.value.status == out.value && out.value in {Cancelled, Completed, Failed}
      ensures Runs(record) == Runs(old(record))
      ensures out.Err? ==> record == old(record)
      ensures out.Ok? && old(record).None? ==> Sealed(record) && record.value.status == Cancelled
      ensures Runs(old(record)) != [] ==> Told(old(record).value, seen, old(future), old(log), at) && Grows(at, log)
      ensures Runs(old(record)) != [] && out.Ok? ==>
        && out.value == (if seen.status in {Completed, Failed} then seen.status else Cancelled)
        && record == Some(seen.(status := out.value))
      ensures old(Valid()) && Sealed(old(record)) ==> record == old(record)
    {
      WentNowhere(kernel, future, stuck, log);
      if record.None? {
        record := Some(Record(Cancelled, None, None, [], true));
        return Ok(Cancelled), record.value, log;
      }
      var r := RefreshedTold();
      seen, at := r, log;
      if r.status in {Running, Starting, Created, Interrupted} {
        if r.runs != [] {
          ghost var k, f, l := kernel, future, log;
          var ok := StopLatest(old(log));
          WentThen(old(kernel), old(future), stuck, old(log), k, f, l, kernel, future, log);
          if !ok { return Err(StillAlive), seen, at; }
        }
        r := r.(status := Cancelled);
      }
      record := Some(r);
      out := Ok(r.status);
    }

    method StopLatest(ghost since: Log) returns (ok: bool)
      requires Coherent(kernel) && record.Some? && record.value.runs != [] && Grows(since, log)
      modifies this`kernel, this`now, this`future, this`signals, this`log
      ensures Went(old(kernel), old(future), stuck, old(log), log, kernel, future)
      ensures log.launched == old(log.launched)
      ensures old(Valid()) ==> Valid()
      ensures old(Valid()) && ok ==> AllGone(kernel, log) && LatestGone(kernel, since, log)
      ensures old(Valid()) && !ok && stuck == {} ==> !GroupLive(kernel, Latest(log))
    {
      var h := record.value.runs[|record.value.runs| - 1];
      WentNowhere(kernel, future, stuck, log);
      ok := Terminate(h, old(Here()));
      TrackedLater(old(kernel), kernel, old(log), log, record);
      if old(Valid()) {
        assert Names(h, Latest(log)) && Founded(old(kernel), Latest(log));
        if ok {
          LastGone(old(kernel), kernel, old(log), log, record, h);
          LatestEarlier(kernel, since, old(log), log);
        }
      }
    }

    method Answer(call: Call) returns (out: Outcome<Status, Refusal>)
      requires Coherent(kernel)
      modifies this
      ensures stuck == old(stuck) && Went(old(kernel), old(future), stuck, old(log), log, kernel, future)
      ensures old(Valid()) && (Sealed(old(record)) || Recorded(call)) ==> Valid()
      ensures old(Valid()) && Sealed(old(record)) ==> log.launched == old(log.launched) && record == old(record)
    {
      match call {
        case StartCall(repo, prompt, host) => out := Start(repo, prompt, host);
        case SendCall(prompt, host) => out := Send(prompt, host);
        case StatusCall => out := GetStatus();
        case CancelCall =>
          ghost var seen, at;
          out, seen, at := Cancel();
      }
    }

    /**
     Any history of calls, with the world moving throughout: of the groups launched only the latest is alive, the
     one the latest run on record names, and any other only if a scan missed it. If the session was cancelled
     before it started, nothing is launched.
     */
    method Serve(calls: seq<Call>)
      requires Valid()
      requires Sealed(record) || forall i :: 0 <= i < |calls| ==> Recorded(calls[i])
      modifies this
      ensures Valid() && stuck == old(stuck)
      ensures Went(old(kernel), old(future), stuck, old(log), log, kernel, future)
      ensures forall i :: 0 <= i < |log.launched| && GroupLive(kernel, log.launched[i]) ==>
        || Missed(log, 0, log.launched[i])
        || (i == |log.launched| - 1 && Names(record.value.runs[i], log.launched[i]))
      ensures Sealed(old(record)) ==> log.launched == old(log.launched) && record == old(record)
    {
      WentNowhere(kernel, future, stuck, log);
      for i := 0 to |calls|
        invariant Valid() && stuck == old(stuck)
        invariant Went(old(kernel), old(future), stuck, old(log), log, kernel, future)
        invariant Sealed(old(record)) ==> log.launched == old(log.launched) && record == old(record)
      {
        ghost var k, f, l := kernel, future, log;
        var _ := Answer(calls[i]);
        WentThen(old(kernel), old(future), stuck, old(log), k, f, l, kernel, future, log);
      }
      assert forall i :: 0 <= i < |log.launched| - 1 ==> Gone(kernel, log, 0, log.launched[i]);
    }
  }

  /** The group that was the latest is dead, unless a scan of the call missed it; undisturbed, it is dead. */
  ghost predicate PreviousGone(k: Kernel, a: Log, b: Log, g: Group) {
    Grows(a, b) && Gone(k, b, |a.scans|, g) && (Undisturbed(a, b, g) ==> !GroupLive(k, g))
  }

  lemma PreviousKept(k: Kernel, n: Kernel, a: Log, b: Log, c: Log, g: Group)
    requires Later(k, n) && Grows(a, b) && Grows(b, c) && Founded(k, g)
    ensures Gone(k, b, |a.scans|, g) ==> PreviousGone(n, a, c, g)
  {
    GrowsThen(a, b, c);
    if Gone(k, b, |a.scans|, g) {
      GoneKept(k, n, b, c, |a.scans|, g);
      if Undisturbed(a, c, g) { UndisturbedSeen(a, c, g); }
    }
  }

  lemma LatestEarlier(k: Kernel, a: Log, b: Log, c: Log)
    requires Grows(a, b) && LatestGone(k, b, c)
    ensures LatestGone(k, a, c)
  {
    GrowsThen(a, b, c);
    if c.launched != [] && Undisturbed(a, c, Latest(c)) { UndisturbedSeen(a, c, Latest(c)); }
  }

  lemma SpawnFacts(k: Kernel, log: Log, record: Option<Record>, r: Record, p: nat, h: Handle)
    requires Coherent(k) && Unused(k, p) && Names(h, Group(p, k.clock)) && r.repo.Some?
    requires record.Some? && r.runs == record.value.runs && r.repo == record.value.repo
    requires r.cancelledBeforeStart == record.value.cancelledBeforeStart
    ensures var n := Next(k, Spawn(p));
      var more := Noted(log, Spawned(Group(p, k.clock)), n);
      && Coherent(n)
      && (Tracked(k, log, record) && AllGone(k, log) ==>
            Tracked(n, more, Some(r.(runs := r.runs + [h], status := Starting))))
      && (AllDead(k, log.launched) ==>
            && (Reachable(n, r.runs, more.launched) <==> Coincides(r.runs, Group(p, k.clock)))
            && Reachable(n, r.runs + [h], more.launched)
            && AllFounded(n, more.launched))
  {
    NextLater(k, Spawn(p));
    if Tracked(k, log, record) && AllGone(k, log) {
      assert Tracked(k, log, Some(r));
      TrackedSpawn(k, log, r, p, h);
    }
    if AllDead(k, log.launched) {
      LostLaunchExactly(k, r.runs, log.launched, p, h, true);
      LostLaunchExactly(k, r.runs, log.launched, p, h, false);
      SpawnFounds(k, p);
    }
  }

  datatype Call =
    | StartCall(repo: Option<string>, prompt: string, host: Host)
    | SendCall(prompt: string, host: Host)
    | StatusCall
    | CancelCall

  /** A launch of this call would reach the record. */
  predicate Recorded(c: Call) {
    match c
    case StartCall(_, _, host) => host.recordWritten
    case SendCall(_, host) => host.recordWritten
    case _ => true
  }

  /** A record brought up to date with the log and the liveness test. */
  function Updated(r: Record, events: seq<Event>, running: bool): Record {
    var thread := ThreadOf(events);
    r.(thread := if thread.Some? && thread.value != "" then thread else r.thread,
       status := EventStatus(events, running))
  }

  /** The record is up to date with what was read between the logs, and running only if a process answered. */
  ghost predicate Told(r: Record, n: Record, f: seq<Slice>, a: Log, b: Log)
    requires r.runs != []
  {
    && |a.history| < |b.history|
    && Reports(r, n, LastRead(f, a, b))
    && (n.status == Running ==> AnswersAt(Since(b, |a.history|), r.runs[|r.runs| - 1]))
  }

  ghost predicate CompletedBy(events: seq<Event>) {
    exists i: nat :: LastDecisive(events, i) && events[i].TurnCompleted?
  }

  ghost predicate FailedBy(events: seq<Event>) {
    exists i: nat :: LastDecisive(events, i) && (events[i].TurnFailed? || events[i].Error?)
  }

  /** A status other than running is what the log's last deciding event says, or interrupted if there is none. */
  ghost predicate StatusTold(status: Status, events: seq<Event>) {
    && status in {Running, Completed, Failed, Interrupted}
    && (status != Running ==>
          && (status == Completed <==> CompletedBy(events))
          && (status == Failed <==> FailedBy(events))
          && (status == Interrupted <==> Undecided(events)))
  }

  /**
   What a record says after the log was read: a turn is completed or failed by the last event that decides it and
   interrupted if there is none, unless its group answered; and the thread is the first the log names, or as before.
   */
  ghost predicate Reports(r: Record, n: Record, events: seq<Event>) {
    && StatusTold(n.status, events)
    && if NamesNone(events) || NamesThread(events, "") then n.thread == r.thread
       else n.thread.Some? && NamesThread(events, n.thread.value)
  }

  lemma UpdatedReports(r: Record, events: seq<Event>, running: bool)
    ensures Reports(r, Updated(r, events, running), events)
  {
    StatusRange(events, running);
    StatusExactly(events);
    ThreadExactly(events);
  }

  lemma DecidedLast(events: seq<Event>)
    requires events != [] && Decisive(events[|events| - 1])
    ensures CompletedBy(events) <==> events[|events| - 1].TurnCompleted?
    ensures FailedBy(events) <==> !events[|events| - 1].TurnCompleted?
    ensures !Undecided(events)
  {
    var last: nat := |events| - 1;
    assert LastDecisive(events, last);
    assert forall i: nat :: LastDecisive(events, i) ==> i == last;
  }

  lemma LastDecisiveFront(events: seq<Event>, i: nat)
    requires events != [] && !Decisive(events[|events| - 1])
    ensures LastDecisive(events, i) <==> LastDecisive(events[..|events| - 1], i)
  {
  }

  lemma DecidedBefore(events: seq<Event>)
    requires events != [] && !Decisive(events[|events| - 1])
    ensures CompletedBy(events) <==> CompletedBy(events[..|events| - 1])
    ensures FailedBy(events) <==> FailedBy(events[..|events| - 1])
    ensures Undecided(events) <==> Undecided(events[..|events| - 1])
  {
    var front := events[..|events| - 1];
    forall i: nat ensures LastDecisive(events, i) <==> LastDecisive(front, i) { LastDecisiveFront(events, i); }
    forall i: nat | LastDecisive(front, i) ensures events[i] == front[i] {}
  }

  lemma {:induction false} StatusExactly(events: seq<Event>)
    ensures EventStatus(events, false) == Completed <==> CompletedBy(events)
    ensures EventStatus(events, false) == Failed <==> FailedBy(events)
    ensures EventStatus(events, false) == Interrupted <==> Undecided(events)
  {
    if events != [] {
      if Decisive(events[|events| - 1]) {
        DecidedLast(events);
      } else {
        DecidedBefore(events);
        StatusExactly(events[..|events| - 1]);
      }
    }
  }

  lemma {:induction false} ThreadExactly(events: seq<Event>)
    ensures ThreadOf(events).None? <==> NamesNone(events)
    ensures forall id :: ThreadOf(events) == Some(id) <==> NamesThread(events, id)
  {
    if events != [] {
      if events[0].ThreadStarted? {
        assert NamesThread(events, events[0].id);
      } else {
        ThreadExactly(events[1..]);
        forall id ensures NamesThread(events, id) <==> NamesThread(events[1..], id) { ThreadLater(events, id); }
        assert NamesNone(events) <==> NamesNone(events[1..]);
      }
    }
  }

  lemma ThreadLater(events: seq<Event>, id: string)
    requires events != [] && !events[0].ThreadStarted?
    ensures NamesThread(events, id) <==> NamesThread(events[1..], id)
  {
    var rest := events[1..];
    if NamesThread(events, id) {
      var i :|
        0 <= i < |events| && events[i] == ThreadStarted(id) && forall j :: 0 <= j < i ==> !events[j].ThreadStarted?;
      assert rest[i - 1] == ThreadStarted(id);
    }
    if NamesThread(rest, id) {
      var i :| 0 <= i < |rest| && rest[i] == ThreadStarted(id) && forall j :: 0 <= j < i ==> !rest[j].ThreadStarted?;
      assert events[i + 1] == ThreadStarted(id);
      forall j | 0 <= j < i + 1 ensures !events[j].ThreadStarted? { if j > 0 { assert events[j] == rest[j - 1]; } }
    }
  }

  lemma {:induction false} StatusRange(events: seq<Event>, running: bool)
    ensures EventStatus(events, running) in {Running, Completed, Failed, Interrupted}
    ensures EventStatus(events, running) == Running <==> running
  {
    if !running && events != [] { StatusRange(events[..|events| - 1], false); }
  }

  /******* A launch the record misses *******/

  lemma OtherGroupUnseen(k: Kernel, p: nat, h: Handle)
    requires Coherent(k) && Unused(k, p) && p != h.pid && !GroupAlive(k, h)
    ensures !GroupAlive(Next(k, Spawn(p)), h)
  {
    var n := Next(k, Spawn(p));
    assert Live(n, h.pid) <==> Live(k, h.pid);
    if HasMember(n, h.pid) {
      var q :| q in n.table && !n.table[q].zombie && n.table[q].group.id == h.pid;
      assert q in k.table && k.table[q] == n.table[q];
    }
  }

  lemma BothSpawned(k: Kernel, p: nat, q: nat)
    requires Unused(k, p) && Unused(Next(k, Spawn(p)), q)
    ensures var n := Next(Next(k, Spawn(p)), Spawn(q));
      GroupLive(n, Group(p, k.clock)) && GroupLive(n, Group(q, k.clock + 1))
  {
    var n := Next(Next(k, Spawn(p)), Spawn(q));
    assert Live(n, p) && Live(n, q);
  }

  /** A launch the record lost leaves the session as resumable as it was. */
  lemma ResumableAgain(k: Kernel, record: Option<Record>, prompt: string, first: Host, second: Host)
    requires Coherent(k) && Resumable(k, record, prompt, first)
    requires first.pid != record.value.runs[|record.value.runs| - 1].pid
    requires second.repoValid && second.binary && Unused(Next(k, Spawn(first.pid)), second.pid)
    ensures Resumable(Next(k, Spawn(first.pid)), record, prompt, second) && Coherent(Next(k, Spawn(first.pid)))
  {
    OtherGroupUnseen(k, first.pid, record.value.runs[|record.value.runs| - 1]);
    NextCoherent(k, Spawn(first.pid));
  }

  /**
   Two turns sent in a still world, the first of them lost by the record: the second is launched beside the
   first, and both are alive.
   */
  method LostLaunchDoubles(s: Session, prompt: string, first: Host, second: Host)
    requires Coherent(s.kernel) && s.future == [] && Resumable(s.kernel, s.record, prompt, first)
      && !first.recordWritten
    requires first.pid != s.record.value.runs[|s.record.value.runs| - 1].pid
    requires second.repoValid && second.binary && Unused(Next(s.kernel, Spawn(first.pid)), second.pid)
    modifies s
    ensures var g := Group(first.pid, old(s.kernel).clock);
      var d := Group(second.pid, old(s.kernel).clock + 1);
      s.log.launched == old(s.log.launched) + [g, d] && g != d && GroupLive(s.kernel, g) && GroupLive(s.kernel, d)
  {
    ResumableAgain(s.kernel, s.record, prompt, first, second);
    BothSpawned(s.kernel, first.pid, second.pid);
    SendStill(s, prompt, first);
    SendStill(s, prompt, second);
  }

  method SendStill(s: Session, prompt: string, host: Host)
    requires Coherent(s.kernel) && s.future == [] && Resumable(s.kernel, s.record, prompt, host)
    modifies s
    ensures s.future == [] && s.kernel == Next(old(s.kernel), Spawn(host.pid))
    ensures s.log.launched == old(s.log.launched) + [Group(host.pid, old(s.kernel).clock)]
    ensures !host.recordWritten ==> s.record == old(s.record)
  {
    var _ := s.Send(prompt, host);
  }
}
