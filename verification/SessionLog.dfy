/**
 What happened around a coding session, moment by moment: the world moving, signals, launches, and the scans made
 of the process table. The log is a replay: every kernel in it follows from the one before.
 */
module SessionLog {
  import opened Processes

  datatype Event = ThreadStarted(id: string) | TurnCompleted | TurnFailed | Error | OtherEvent

  /** What passes between two observations: kernel events, time, and the latest run's log as then read. */
  datatype Slice = Slice(steps: seq<Step>, delay: nat, events: seq<Event>)

  datatype Signal = Term(group: nat) | Kill(group: nat)

  datatype Act = Passed | Signalled(signal: Signal) | Spawned(group: Group)

  /** An act and the kernel right after it. */
  datatype Moment = Moment(act: Act, kernel: Kernel)

  /** A scan that found nobody in a group: its first moment, and the end of its moments. */
  datatype Scan = Scan(id: nat, from: nat, to: nat)

  datatype Log = Log(history: seq<Moment>, scans: seq<Scan>, launched: seq<Group>)

  /******* Replay *******/

  /** The kernel after an act, and what is still to come of the world. */
  function Does(k: Kernel, f: seq<Slice>, stuck: set<nat>, a: Act): (Kernel, seq<Slice>) {
    match a
    case Passed => if f == [] then (k, f) else (After(k, f[0].steps), f[1..])
    case Signalled(Term(_)) => (k, f)
    case Signalled(Kill(g)) => (Killed(k, g, stuck), f)
    case Spawned(g) => (Next(k, Spawn(g.id)), f)
  }

  predicate Possible(k: Kernel, a: Act) {
    a.Spawned? ==> Unused(k, a.group.id) && a.group.birth == k.clock
  }

  /** From one kernel and future, this history leads to the other. */
  ghost predicate Replays(k: Kernel, f: seq<Slice>, stuck: set<nat>, h: seq<Moment>, n: Kernel, g: seq<Slice>)
    decreases |h|
  {
    if h == [] then k == n && f == g
    else
      var (m, r) := Does(k, f, stuck, h[0].act);
      Possible(k, h[0].act) && h[0].kernel == m && Replays(m, r, stuck, h[1..], n, g)
  }

  lemma {:induction false} ReplaysThen(k: Kernel, f: seq<Slice>, stuck: set<nat>, a: seq<Moment>, m: Kernel,
                                       fm: seq<Slice>,
                                       b: seq<Moment>, n: Kernel, fn: seq<Slice>)
    requires Replays(k, f, stuck, a, m, fm) && Replays(m, fm, stuck, b, n, fn)
    ensures Replays(k, f, stuck, a + b, n, fn)
    decreases |a|
  {
    if a == [] {
      assert a + b == b;
    } else {
      var (k1, f1) := Does(k, f, stuck, a[0].act);
      ReplaysThen(k1, f1, stuck, a[1..], m, fm, b, n, fn);
      assert (a + b)[1..] == a[1..] + b;
    }
  }

  /** The groups launched in a history. */
  function Spawns(h: seq<Moment>): seq<Group> {
    if h == [] then []
    else Spawns(h[..|h| - 1]) + if h[|h| - 1].act.Spawned? then [h[|h| - 1].act.group] else []
  }

  lemma {:induction false} SpawnsConcat(a: seq<Moment>, b: seq<Moment>)
    ensures Spawns(a + b) == Spawns(a) + Spawns(b)
    decreases |b|
  {
    if b == [] {
      assert a + b == a;
    } else {
      assert (a + b)[..|a + b| - 1] == a + b[..|b| - 1];
      SpawnsConcat(a, b[..|b| - 1]);
    }
  }

  /******* Logs that grow *******/

  ghost predicate ScanWithin(s: Scan, from: nat, h: seq<Moment>) {
    from <= s.from < s.to <= |h| && forall i :: s.from <= i < s.to ==> h[i].act == Passed
  }

  /** A longer log: new moments after the old ones, and new scans made of new moments in which only time passed. */
  ghost predicate Grows(a: Log, b: Log) {
    && |a.history| <= |b.history| && b.history[..|a.history|] == a.history
    && |a.scans| <= |b.scans| && b.scans[..|a.scans|] == a.scans
    && forall i :: |a.scans| <= i < |b.scans| ==> ScanWithin(b.scans[i], |a.history|, b.history)
  }

  function NewMoments(a: Log, b: Log): seq<Moment>
    requires |a.history| <= |b.history|
  {
    b.history[|a.history|..]
  }

  /** From one kernel and log to another: time went on, and the new moments are a replay of what happened. */
  ghost predicate Went(k: Kernel, f: seq<Slice>, stuck: set<nat>, a: Log, b: Log, n: Kernel, g: seq<Slice>) {
    && Later(k, n) && Grows(a, b)
    && Replays(k, f, stuck, NewMoments(a, b), n, g)
    && b.launched == a.launched + Spawns(NewMoments(a, b))
  }

  /** Where something set out from. */
  datatype Origin = Origin(kernel: Kernel, future: seq<Slice>, log: Log)

  lemma WentNowhere(k: Kernel, f: seq<Slice>, stuck: set<nat>, a: Log)
    requires Coherent(k)
    ensures Went(k, f, stuck, a, a, k, f)
  {
    assert NewMoments(a, a) == [];
    assert a.launched + [] == a.launched;
  }

  lemma GrowsThen(a: Log, b: Log, c: Log)
    requires Grows(a, b) && Grows(b, c)
    ensures Grows(a, c) && NewMoments(a, c) == NewMoments(a, b) + NewMoments(b, c)
  {
    assert c.history[..|a.history|] == c.history[..|b.history|][..|a.history|];
    assert c.scans[..|a.scans|] == c.scans[..|b.scans|][..|a.scans|];
    forall i | |a.scans| <= i < |c.scans| ensures ScanWithin(c.scans[i], |a.history|, c.history) {
      if i < |b.scans| {
        assert c.scans[i] == c.scans[..|b.scans|][i];
        forall j | c.scans[i].from <= j < c.scans[i].to ensures c.history[j].act == Passed {
          assert c.history[j] == c.history[..|b.history|][j];
        }
      }
    }
  }

  lemma WentThen(k: Kernel, f: seq<Slice>, stuck: set<nat>, a: Log, m: Kernel, fm: seq<Slice>, b: Log,
                 n: Kernel, fn: seq<Slice>, c: Log)
    requires Went(k, f, stuck, a, b, m, fm) && Went(m, fm, stuck, b, c, n, fn)
    ensures Went(k, f, stuck, a, c, n, fn)
  {
    GrowsThen(a, b, c);
    LaterTransitive(k, m, n);
    ReplaysThen(k, f, stuck, NewMoments(a, b), m, fm, NewMoments(b, c), n, fn);
    SpawnsConcat(NewMoments(a, b), NewMoments(b, c));
    assert a.launched + Spawns(NewMoments(a, b)) + Spawns(NewMoments(b, c))
        == a.launched + (Spawns(NewMoments(a, b)) + Spawns(NewMoments(b, c)));
  }

  /** The log after one more act. */
  function Noted(log: Log, a: Act, k: Kernel): Log {
    Log(log.history + [Moment(a, k)], log.scans, log.launched + if a.Spawned? then [a.group] else [])
  }

  lemma WentOne(k: Kernel, f: seq<Slice>, stuck: set<nat>, log: Log, a: Act)
    requires Coherent(k) && Possible(k, a)
    ensures var (n, g) := Does(k, f, stuck, a); Went(k, f, stuck, log, Noted(log, a, n), n, g)
  {
    var (n, g) := Does(k, f, stuck, a);
    var b := Noted(log, a, n);
    var more := [Moment(a, n)];
    assert NewMoments(log, b) == more;
    assert more[1..] == [] && more[..0] == [];
    assert Spawns(more) == Spawns(more[..0]) + if a.Spawned? then [a.group] else [];
    assert b.scans[..|log.scans|] == log.scans;
    match a
    case Passed => AfterLater(k, if f == [] then [] else f[0].steps);
    case Signalled(Term(_)) => AfterLater(k, []);
    case Signalled(Kill(group)) => KilledLater(k, group, stuck);
    case Spawned(group) => NextLater(k, Spawn(group.id));
  }

  /******* Scans that were wrong *******/

  function Kernels(h: seq<Moment>): (ks: seq<Kernel>)
    ensures |ks| == |h| && forall i :: 0 <= i < |h| ==> ks[i] == h[i].kernel
  {
    seq(|h|, i requires 0 <= i < |h| => h[i].kernel)
  }

  /** The kernels from a position of the log on. */
  function Since(log: Log, from: nat): seq<Kernel>
    requires from <= |log.history|
  {
    Kernels(log.history[from..])
  }

  /** The group is alive at the last moment, although no process was a live member of it at every moment. */
  ghost predicate Relayed(ks: seq<Kernel>, g: Group) {
    |ks| > 0 && GroupLive(ks[|ks| - 1], g) && forall p: nat :: !Always(ks, p, g.id)
  }

  /**
   Relaying is exactly what lets some order of reading miss a live group, and it takes somebody entering the group.
   */
  lemma RelayedExactly(ks: seq<Kernel>, g: Group)
    requires |ks| > 0
    ensures Relayed(ks, g) <==> GroupLive(ks[|ks| - 1], g) && CanMiss(ks, g.id)
    ensures NobodyEnters(ks, g.id) ==> !Relayed(ks, g)
  {
    ScanMissesExactly(ks, g.id);
    if NobodyEnters(ks, g.id) && GroupLive(ks[|ks| - 1], g) {
      var p :| Live(ks[|ks| - 1], p) && ks[|ks| - 1].table[p].group == g;
      forall i | 0 <= i < |ks| ensures LiveMember(ks[i], p, g.id) { MemberThroughout(ks, g.id, p, i); }
      assert Always(ks, p, g.id);
    }
  }

  /** The group was relayed past this scan. */
  ghost predicate MissedBy(log: Log, s: Scan, g: Group) {
    s.id == g.id && s.from < s.to <= |log.history| && Relayed(Kernels(log.history[s.from..s.to]), g)
  }

  /** One of the scans from the `n`th on missed the group. */
  ghost predicate Missed(log: Log, n: nat, g: Group) {
    exists i :: n <= i < |log.scans| && MissedBy(log, log.scans[i], g)
  }

  lemma MissedByKept(a: Log, b: Log, s: Scan, g: Group)
    requires |a.history| <= |b.history| && b.history[..|a.history|] == a.history && MissedBy(a, s, g)
    ensures MissedBy(b, s, g)
  {
    assert a.history[s.from..s.to] == b.history[s.from..s.to];
  }

  lemma MissedKept(a: Log, b: Log, n: nat, g: Group)
    requires Grows(a, b) && Missed(a, n, g)
    ensures Missed(b, n, g)
  {
    var i :| n <= i < |a.scans| && MissedBy(a, a.scans[i], g);
    MissedByKept(a, b, a.scans[i], g);
    assert b.scans[..|a.scans|][i] == b.scans[i];
  }

  /** Between the two logs nobody entered the group. */
  ghost predicate Undisturbed(a: Log, b: Log, g: Group)
    requires |a.history| <= |b.history|
  {
    NobodyEnters(Since(b, |a.history|), g.id)
  }

  lemma SliceUndisturbed(ks: seq<Kernel>, from: nat, to: nat, id: nat)
    requires NobodyEnters(ks, id) && from <= to <= |ks|
    ensures NobodyEnters(ks[from..to], id)
  {
    forall i: nat, p: nat ensures !Enters(ks[from..to], i, p, id) { assert !Enters(ks, from + i, p, id); }
  }

  lemma UndisturbedScan(b: Log, n: nat, s: Scan, g: Group)
    requires n <= s.from < s.to <= |b.history| && NobodyEnters(Since(b, n), g.id)
    ensures !MissedBy(b, s, g)
  {
    var ks := Kernels(b.history[s.from..s.to]);
    assert ks == Since(b, n)[s.from - n..s.to - n];
    SliceUndisturbed(Since(b, n), s.from - n, s.to - n, g.id);
    RelayedExactly(ks, g);
  }

  /** Where nobody enters a group, no scan misses it. */
  lemma UndisturbedSeen(a: Log, b: Log, g: Group)
    requires Grows(a, b) && Undisturbed(a, b, g)
    ensures !Missed(b, |a.scans|, g)
  {
    forall i | |a.scans| <= i < |b.scans| ensures !MissedBy(b, b.scans[i], g) {
      assert ScanWithin(b.scans[i], |a.history|, b.history);
      UndisturbedScan(b, |a.history|, b.scans[i], g);
    }
  }

  /** Dead, unless one of the scans from the `n`th on missed it. */
  ghost predicate Gone(k: Kernel, log: Log, n: nat, g: Group) {
    !GroupLive(k, g) || Missed(log, n, g)
  }

  lemma GoneKept(k: Kernel, m: Kernel, a: Log, b: Log, n: nat, g: Group)
    requires Later(k, m) && Grows(a, b) && Founded(k, g) && Gone(k, a, n, g)
    ensures Gone(m, b, n, g)
  {
    if Missed(a, n, g) { MissedKept(a, b, n, g); }
  }

  /** Every group the handle may stand for is dead, unless one of the scans from the `n`th on missed it. */
  ghost predicate NamedGone(was: Kernel, h: Handle, k: Kernel, log: Log, n: nat) {
    forall g :: Founded(was, g) && Names(h, g) ==> Gone(k, log, n, g)
  }

  ghost predicate NamedDead(was: Kernel, h: Handle, k: Kernel) {
    forall g :: Founded(was, g) && Names(h, g) ==> !GroupLive(k, g)
  }

  /** Every group founded under the number is dead. */
  ghost predicate NumberDead(was: Kernel, id: nat, k: Kernel) {
    forall g :: Founded(was, g) && g.id == id ==> !GroupLive(k, g)
  }

  lemma DeadIsGone(was: Kernel, h: Handle, k: Kernel, log: Log, n: nat)
    requires NumberDead(was, h.pid, k)
    ensures NamedDead(was, h, k) && NamedGone(was, h, k, log, n)
  {
  }

  lemma StaysDead(was: Kernel, h: Handle, k: Kernel, m: Kernel)
    requires Later(was, k) && Later(k, m)
    ensures NumberDead(was, h.pid, k) ==> NamedDead(was, h, m)
  {
  }

  /** A live leader of another birth settles it: the group is dead. */
  lemma LeaderVerdict(was: Kernel, h: Handle, k: Kernel, log: Log, n: nat)
    requires Coherent(k) && !GroupAlive(k, h)
    ensures NamedGone(was, h, k, log, n)
  {
    forall g | Names(h, g) ensures !GroupLive(k, g) {
      if GroupLive(k, g) { LiveIsSeen(k, h, g); }
    }
  }

  lemma NamedGonePassed(was: Kernel, h: Handle, k: Kernel, m: Kernel, log: Log, n: nat)
    requires Later(was, k) && Later(k, m) && NamedGone(was, h, k, log, n)
    ensures NamedGone(was, h, m, Noted(log, Passed, m), n)
  {
    assert Grows(log, Noted(log, Passed, m));
    NamedGoneKept(was, h, k, m, log, Noted(log, Passed, m), n);
  }

  /** What is gone stays gone as time passes and the log grows. */
  lemma NamedGoneKept(was: Kernel, h: Handle, k: Kernel, m: Kernel, a: Log, b: Log, n: nat)
    requires Later(was, k) && Later(k, m) && Grows(a, b) && NamedGone(was, h, k, a, n)
    ensures NamedGone(was, h, m, b, n)
  {
    forall g | Founded(was, g) && Names(h, g) ensures Gone(m, b, n, g) { GoneKept(k, m, a, b, n, g); }
  }

  /** What is gone by the scans since a later moment is gone by those since an earlier one. */
  lemma NamedGoneEarlier(was: Kernel, mid: Kernel, h: Handle, k: Kernel, log: Log, n: nat, m: nat)
    requires Later(was, mid) && NamedGone(mid, h, k, log, m) && n <= m
    ensures NamedGone(was, h, k, log, n)
  {
    forall g | Founded(was, g) && Names(h, g) ensures Gone(k, log, n, g) {
      assert Gone(k, log, m, g);
    }
  }

  /******* A scan *******/

  lemma SinceNext(log: Log, a: Act, k: Kernel, from: nat)
    requires from <= |log.history|
    ensures Since(Noted(log, a, k), from) == Since(log, from) + [k]
  {
    assert (log.history + [Moment(a, k)])[from..] == log.history[from..] + [Moment(a, k)];
  }

  lemma SincePrefix(a: Log, b: Log, from: nat)
    requires |a.history| <= |b.history| && b.history[..|a.history|] == a.history && from <= |a.history|
    ensures |Since(a, from)| <= |Since(b, from)| && Since(b, from)[..|Since(a, from)|] == Since(a, from)
  {
    assert b.history[from..][..|a.history| - from] == b.history[..|a.history|][from..];
  }

  /** The log ends with this kernel. */
  ghost predicate Current(log: Log, k: Kernel) {
    log.history != [] && log.history[|log.history| - 1].kernel == k
  }

  /** A scan is going on since a position of the log. */
  ghost predicate Scanning(log: Log, k: Kernel, from: nat) {
    Current(log, k) && from < |log.history| && OnlyPassed(log, from)
  }

  predicate AnyMember(k: Kernel, listed: seq<nat>, n: nat, id: nat)
    requires n <= |listed|
  {
    exists i :: 0 <= i < n && listed[i] in k.table && !k.table[listed[i]].zombie && k.table[listed[i]].group.id == id
  }

  ghost predicate OnlyPassed(log: Log, from: nat) {
    forall i :: from <= i < |log.history| ==> log.history[i].act == Passed
  }

  /** Everything present at every moment is listed. */
  ghost predicate Lists(ks: seq<Kernel>, listed: seq<nat>, below: nat) {
    forall p: nat :: 0 < p < below && Present(ks, p) ==> p in listed
  }

  lemma ListsNext(ks: seq<Kernel>, k: Kernel, listed: seq<nat>, p: nat)
    requires Lists(ks, listed, p)
    ensures Lists(ks + [k], if p in k.table then listed + [p] else listed, p + 1)
  {
    var more := ks + [k];
    forall q: nat | 0 < q < p + 1 && Present(more, q) ensures q in if p in k.table then listed + [p] else listed {
      assert Present(ks, q) by { forall i | 0 <= i < |ks| ensures q in ks[i].table { assert more[i] == ks[i]; } }
      assert more[|ks|] == k;
    }
  }

  /** None of the processes read so far was a live member at every moment. */
  ghost predicate NoneAlways(ks: seq<Kernel>, listed: seq<nat>, n: nat, id: nat)
    requires n <= |listed|
  {
    forall j :: 0 <= j < n ==> !Always(ks, listed[j], id)
  }

  lemma NoneAlwaysNext(ks: seq<Kernel>, k: Kernel, listed: seq<nat>, n: nat, id: nat)
    requires n < |listed| && NoneAlways(ks, listed, n, id) && !LiveMember(k, listed[n], id)
    ensures NoneAlways(ks + [k], listed, n + 1, id)
  {
    var more := ks + [k];
    forall j | 0 <= j < n + 1 ensures !Always(more, listed[j], id) {
      assert more[|ks|] == k;
      if j < n && Always(more, listed[j], id) {
        assert Always(ks, listed[j], id) by {
          forall i | 0 <= i < |ks| ensures LiveMember(ks[i], listed[j], id) { assert more[i] == ks[i]; }
        }
      }
    }
  }

  /** A scan that read everything listed and saw nobody misses exactly what is relayed. */
  lemma NobodySeen(ks: seq<Kernel>, listed: seq<nat>, before: seq<Kernel>, id: nat, g: Group)
    requires |before| <= |ks| && ks[..|before|] == before && before != []
    requires Coherent(before[0]) && Lists(before, listed, PID_MAX + 1) && NoneAlways(ks, listed, |listed|, id)
    requires g.id == id && GroupLive(ks[|ks| - 1], g)
    ensures Relayed(ks, g)
  {
    forall p: nat ensures !Always(ks, p, id) {
      if Always(ks, p, id) {
        assert Present(before, p) by {
          forall i | 0 <= i < |before| ensures p in before[i].table {
            assert before[i] == ks[i] && LiveMember(ks[i], p, id);
          }
        }
      }
    }
  }

  lemma {:induction false} NothingSpawned(h: seq<Moment>)
    requires forall i :: 0 <= i < |h| ==> h[i].act == Passed
    ensures Spawns(h) == []
  {
    if h != [] { NothingSpawned(h[..|h| - 1]); }
  }

  /** Where only time passed nothing was launched, and a scan made of all of it may be noted. */
  lemma ScanNoted(k: Kernel, f: seq<Slice>, stuck: set<nat>, a: Log, b: Log, n: Kernel, g: seq<Slice>, id: nat)
    requires Went(k, f, stuck, a, b, n, g) && OnlyPassed(b, |a.history|) && b.scans == a.scans
    ensures b.launched == a.launched
    ensures |a.history| < |b.history| ==>
      Went(k, f, stuck, a, b.(scans := b.scans + [Scan(id, |a.history|, |b.history|)]), n, g)
  {
    NothingSpawned(NewMoments(a, b));
    assert a.launched + [] == a.launched;
    var c := b.(scans := b.scans + [Scan(id, |a.history|, |b.history|)]);
    assert NewMoments(a, c) == NewMoments(a, b) && c.scans[..|a.scans|] == a.scans;
  }

  /** What a scan that saw nobody is worth, once noted. */
  lemma ScanVerdict(was: Kernel, h: Handle, k: Kernel, a: Log, b: Log)
    requires Grows(a, b) && b.scans == a.scans + [Scan(h.pid, |a.history|, |b.history|)] && |a.history| < |b.history|
    requires forall g :: Names(h, g) && GroupLive(k, g) ==> Relayed(Since(b, |a.history|), g)
    ensures NamedGone(was, h, k, b, |a.scans|)
  {
    var s := Scan(h.pid, |a.history|, |b.history|);
    assert b.scans[|a.scans|] == s;
    assert b.history[s.from..s.to] == b.history[|a.history|..];
    forall g | Names(h, g) && GroupLive(k, g) ensures Missed(b, |a.scans|, g) {
      assert MissedBy(b, b.scans[|a.scans|], g);
    }
  }

  /** The log of a scan is the log it began with and the moments since; no scan is noted yet. */
  ghost predicate Longer(start: Log, log: Log) {
    && log.scans == start.scans
    && |start.history| <= |log.history| && log.history[..|start.history|] == start.history
  }

  lemma LongerNext(start: Log, log: Log, k: Kernel, n: Kernel, from: nat)
    requires Longer(start, log) && Scanning(log, k, from)
    ensures Longer(start, Noted(log, Passed, n)) && Scanning(Noted(log, Passed, n), n, from)
    ensures Since(Noted(log, Passed, n), from) == Since(log, from) + [n]
  {
    SinceNext(log, Passed, n, from);
    assert (log.history + [Moment(Passed, n)])[..|start.history|] == log.history[..|start.history|];
  }

  /** Exactly the processes below a number are listed. */
  ghost predicate ListedBelow(k: Kernel, listed: seq<nat>, below: nat) {
    forall q :: q in listed <==> q in k.table && q < below
  }

  lemma ListedNext(k: Kernel, listed: seq<nat>, p: nat)
    requires ListedBelow(k, listed, p)
    ensures ListedBelow(k, if p in k.table then listed + [p] else listed, p + 1)
  {
  }

  lemma ListedMembers(k: Kernel, listed: seq<nat>, id: nat)
    requires Coherent(k) && ListedBelow(k, listed, PID_MAX + 1)
    ensures AnyMember(k, listed, |listed|, id) <==> HasMember(k, id)
  {
    if HasMember(k, id) {
      var p :| p in k.table && !k.table[p].zombie && k.table[p].group.id == id;
      assert p in listed;
      var i :| 0 <= i < |listed| && listed[i] == p;
    }
  }

  /** The entries below a number are listed. */
  ghost predicate Listing(start: Log, log: Log, k: Kernel, from: nat, listed: seq<nat>, below: nat) {
    Longer(start, log) && Scanning(log, k, from) && Lists(Since(log, from), listed, below)
  }

  lemma ListingNext(start: Log, log: Log, k: Kernel, n: Kernel, from: nat, listed: seq<nat>, p: nat)
    requires Listing(start, log, k, from, listed, p)
    ensures Listing(start, Noted(log, Passed, n), n, from, if p in n.table then listed + [p] else listed, p + 1)
  {
    LongerNext(start, log, k, n, from);
    ListsNext(Since(log, from), n, listed, p);
  }

  /** The first entries are read, and none of them answered, or one did. */
  ghost predicate Reading(start: Log, log: Log, k: Kernel, from: nat, listed: seq<nat>, n: nat, id: nat, found: bool) {
    && Longer(start, log) && Scanning(log, k, from) && n <= |listed|
    && (!found ==> NoneAlways(Since(log, from), listed, n, id))
    && (found ==> MemberSeen(Since(log, from), id))
  }

  /** At some moment the group's number had a live member. */
  ghost predicate MemberSeen(ks: seq<Kernel>, id: nat) {
    exists i :: 0 <= i < |ks| && HasMember(ks[i], id)
  }

  lemma MemberSeenNext(ks: seq<Kernel>, k: Kernel, id: nat)
    ensures MemberSeen(ks, id) || HasMember(k, id) ==> MemberSeen(ks + [k], id)
  {
    var more := ks + [k];
    if MemberSeen(ks, id) {
      var i :| 0 <= i < |ks| && HasMember(ks[i], id);
      assert more[i] == ks[i];
    }
    assert more[|ks|] == k;
  }

  lemma ReadingNext(start: Log, log: Log, k: Kernel, m: Kernel, from: nat, listed: seq<nat>, n: nat, id: nat,
                    found: bool)
    requires n < |listed| && Reading(start, log, k, from, listed, n, id, found)
    ensures Reading(start, Noted(log, Passed, m), m, from, listed, n + 1, id, found || LiveMember(m, listed[n], id))
  {
    LongerNext(start, log, k, m, from);
    if !found && !LiveMember(m, listed[n], id) { NoneAlwaysNext(Since(log, from), m, listed, n, id); }
    if LiveMember(m, listed[n], id) { assert HasMember(m, id); }
    MemberSeenNext(Since(log, from), m, id);
  }

  /** A scan that listed, read and saw nobody: what is alive was relayed past it. */
  lemma ScanMisses(h: Handle, listed: seq<nat>, mid: Log, end: Log, first: Kernel, k: Kernel, from: nat)
    requires Longer(mid, end) && from < |mid.history| && mid.history[from].kernel == first && Coherent(first)
    requires Lists(Since(mid, from), listed, PID_MAX + 1)
    requires Current(end, k) && NoneAlways(Since(end, from), listed, |listed|, h.pid)
    ensures forall g :: Names(h, g) && GroupLive(k, g) ==> Relayed(Since(end, from), g)
  {
    SincePrefix(mid, end, from);
    forall g | Names(h, g) && GroupLive(k, g) ensures Relayed(Since(end, from), g) {
      NobodySeen(Since(end, from), listed, Since(mid, from), h.pid, g);
    }
  }

  /******* What was read *******/

  /** The log as it is read after a number of slices. */
  function ReadAt(f: seq<Slice>, i: nat): seq<Event> {
    if i < |f| then f[i].events else []
  }

  function Rest(f: seq<Slice>, n: nat): seq<Slice> {
    if n <= |f| then f[n..] else []
  }

  /** Where only time passed, one slice of the future went with every moment. */
  lemma {:induction false} PassedFuture(k: Kernel, f: seq<Slice>, stuck: set<nat>, h: seq<Moment>, n: Kernel,
                                        g: seq<Slice>)
    requires Replays(k, f, stuck, h, n, g) && forall i :: 0 <= i < |h| ==> h[i].act == Passed
    ensures g == Rest(f, |h|)
    decreases |h|
  {
    if h != [] {
      var (m, r) := Does(k, f, stuck, h[0].act);
      PassedFuture(m, r, stuck, h[1..], n, g);
    }
  }

  /** A process of the group's number answers for it. */
  predicate Answers(k: Kernel, h: Handle) {
    || (Live(k, h.pid) && (h.start.None? || k.table[h.pid].birth == h.start.value))
    || HasMember(k, h.pid)
  }

  ghost predicate AnswersAt(ks: seq<Kernel>, h: Handle) {
    exists i :: 0 <= i < |ks| && Answers(ks[i], h)
  }

  predicate Decisive(e: Event) {
    e.TurnCompleted? || e.TurnFailed? || e.Error?
  }

  /** The last event that decides a turn. */
  ghost predicate LastDecisive(events: seq<Event>, i: nat) {
    i < |events| && Decisive(events[i]) && forall j :: i < j < |events| ==> !Decisive(events[j])
  }

  ghost predicate Undecided(events: seq<Event>) {
    forall j :: 0 <= j < |events| ==> !Decisive(events[j])
  }

  /** The first thread a log names. */
  ghost predicate NamesThread(events: seq<Event>, id: string) {
    exists i ::
      0 <= i < |events| && events[i] == ThreadStarted(id) && forall j :: 0 <= j < i ==> !events[j].ThreadStarted?
  }

  ghost predicate NamesNone(events: seq<Event>) {
    forall i :: 0 <= i < |events| ==> !events[i].ThreadStarted?
  }

  lemma SeenAnswers(ks: seq<Kernel>, h: Handle)
    requires MemberSeen(ks, h.pid)
    ensures AnswersAt(ks, h)
  {
    var i :| 0 <= i < |ks| && HasMember(ks[i], h.pid);
    assert Answers(ks[i], h);
  }

  lemma AnswersStill(log: Log, k: Kernel, from: nat, h: Handle)
    requires from <= |log.history| && AnswersAt(Since(log, from), h)
    ensures AnswersAt(Since(Noted(log, Passed, k), from), h)
  {
    SinceNext(log, Passed, k, from);
    var i :| 0 <= i < |Since(log, from)| && Answers(Since(log, from)[i], h);
    assert Answers(Since(Noted(log, Passed, k), from)[i], h);
  }

  /** Where only time passed: nothing was launched, the future went slice by slice, and the scan may be noted. */
  lemma OnlyTime(o: Origin, stuck: set<nat>, b: Log, n: Kernel, g: seq<Slice>, id: nat)
    requires Went(o.kernel, o.future, stuck, o.log, b, n, g) && OnlyPassed(b, |o.log.history|) && b.scans == o.log.scans
    ensures b.launched == o.log.launched && g == Rest(o.future, |b.history| - |o.log.history|)
    ensures |o.log.history| < |b.history| ==>
      Went(o.kernel, o.future, stuck, o.log, b.(scans := b.scans + [Scan(id, |o.log.history|, |b.history|)]), n, g)
  {
    ScanNoted(o.kernel, o.future, stuck, o.log, b, n, g, id);
    PassedFuture(o.kernel, o.future, stuck, NewMoments(o.log, b), n, g);
  }

  lemma LastAnswers(log: Log, k: Kernel, from: nat, h: Handle)
    requires Current(log, k) && from < |log.history| && Answers(k, h)
    ensures AnswersAt(Since(log, from), h)
  {
    var ks := Since(log, from);
    assert ks[|ks| - 1] == k;
  }

  /** What was read last between two logs. */
  function LastRead(f: seq<Slice>, a: Log, b: Log): seq<Event>
    requires |a.history| < |b.history|
  {
    ReadAt(f, |b.history| - |a.history| - 1)
  }

  /** A log read once more time has passed is the one the last moment gave. */
  lemma ReadOnce(f: seq<Slice>, a: Log, b: Log, k: Kernel)
    requires |a.history| <= |b.history|
    ensures |Noted(b, Passed, k).history| == |b.history| + 1 && Noted(b, Passed, k).launched == b.launched
    ensures ReadAt(Rest(f, |b.history| - |a.history|), 0) == LastRead(f, a, Noted(b, Passed, k))
  {
  }
}
