/** The least-recently-attempted scheduler of the discovery sweep, and how long a transcript can wait. */
module SweepFairness {
  import opened Common
  import D = Discovery

  /** What the selection query reads of a transcript: eligibility, last attempt, last change. */
  datatype Row = Row(eligible: bool, stamp: Option<int>, touched: int)

  type Fleet = map<nat, Row>

  /** Never-swept first, then least recently attempted, then least recently changed, then by identifier. */
  predicate Precedes(f: Fleet, x: nat, y: nat)
    requires x in f && y in f
  {
    var a, b := f[x], f[y];
    if a.stamp != b.stamp then a.stamp.None? || (b.stamp.Some? && a.stamp.value < b.stamp.value)
    else if a.touched != b.touched then a.touched < b.touched
    else x < y
  }

  ghost predicate AllEligible(f: Fleet, batch: seq<nat>) {
    forall i :: 0 <= i < |batch| ==> batch[i] in f && f[batch[i]].eligible
  }

  function Members(batch: seq<nat>): set<nat> {
    set y | y in batch
  }

  /** The first `limit` eligible transcripts in selection order. */
  ghost predicate IsBatch(f: Fleet, batch: seq<nat>, limit: nat) {
    && AllEligible(f, batch)
    && (forall i, j :: 0 <= i < j < |batch| ==> Precedes(f, batch[i], batch[j]))
    && |batch| <= limit
    && (forall y :: y in f && f[y].eligible && y !in batch ==>
          |batch| == limit && forall i :: 0 <= i < |batch| ==> Precedes(f, batch[i], y))
  }

  /** Selecting the minimum of what remains, until the limit is reached. */
  method EligibleTranscripts(f: Fleet, limit: nat) returns (batch: seq<nat>)
    ensures IsBatch(f, batch, limit)
  {
    batch := [];
    var rest := set x | x in f && f[x].eligible;
    while |batch| < limit && rest != {}
      invariant AllEligible(f, batch) && |batch| <= limit
      invariant forall x :: x in rest ==> x in f && f[x].eligible
      invariant forall y :: y in f && f[y].eligible ==> y in rest || y in batch
      invariant forall i, j :: 0 <= i < j < |batch| ==> Precedes(f, batch[i], batch[j])
      invariant forall i, y :: 0 <= i < |batch| && y in rest ==> Precedes(f, batch[i], y)
      decreases |rest|
    {
      var least := Least(f, rest);
      batch := batch + [least];
      rest := rest - {least};
    }
  }

  method Least(f: Fleet, rest: set<nat>) returns (least: nat)
    requires rest != {} && forall x :: x in rest ==> x in f
    ensures least in rest
    ensures forall y :: y in rest && y != least ==> Precedes(f, least, y)
  {
    least :| least in rest;
    var todo := rest - {least};
    while todo != {}
      invariant todo <= rest && least in rest && least !in todo
      invariant forall y :: y in rest && y != least && y !in todo ==> Precedes(f, least, y)
      decreases |todo|
    {
      var y :| y in todo;
      todo := todo - {y};
      if Precedes(f, y, least) { least := y; }
    }
  }

  /******* Runs of the sweep with an active environment *******/

  /**
   A run attempts its batch. An attempt stamps its transcript, unless it left no trace (`unstamped` gives such a
   transcript's row afterwards): its turns were purged before the snapshot, or recording the attempt failed too.
   Some are scanned to the end (`drained`). Between runs any row may change.
   */
  datatype Event =
    | Sweep(batch: seq<nat>, unstamped: map<nat, Row>, drained: set<nat>, now: int)
    | Change(id: nat, row: Row)

  function After(f: Fleet, e: Event): Fleet {
    match e
    case Change(id, row) => f[id := row]
    case Sweep(batch, unstamped, drained, now) =>
      map x | x in f ::
        if x !in batch then f[x]
        else if x in unstamped then unstamped[x]
        else f[x].(stamp := Some(now), eligible := x !in drained)
  }

  function Sweeps(events: seq<Event>): nat {
    if events == [] then 0 else Sweeps(events[1..]) + (if events[0].Sweep? then 1 else 0)
  }

  /** The attempts of one event that left no stamp. */
  function Traceless(e: Event): set<nat> {
    if e.Sweep? then Members(e.batch) * e.unstamped.Keys else {}
  }

  function Unstamped(events: seq<Event>): nat {
    if events == [] then 0 else Unstamped(events[1..]) + |Traceless(events[0])|
  }

  predicate Attempted(events: seq<Event>, x: nat) {
    exists i :: 0 <= i < |events| && events[i].Sweep? && x in events[i].batch
  }

  predicate Newer(row: Row, base: int) {
    row.stamp.Some? && row.stamp.value > base
  }

  /** A stamp is kept or moved past `base`. */
  predicate Forward(was: Row, row: Row, base: int) {
    row.stamp == was.stamp || Newer(row, base)
  }

  /**
   Transcript `x` stays eligible, last attempted no later than `base`; at every run the eligible
   transcripts lie in `universe` and the clock is past `base`; nothing but an attempt restamps
   `x`, and no change moves another stamp backwards.
   */
  ghost predicate Steady(f: Fleet, events: seq<Event>, x: nat, universe: set<nat>, limit: nat, base: int)
    decreases |events|
  {
    && x in f && !Newer(f[x], base)
    && (events != [] ==>
          && Admissible(f, events[0], x, universe, limit, base)
          && (Attempted(events[..1], x) || Steady(After(f, events[0]), events[1..], x, universe, limit, base)))
  }

  ghost predicate Admissible(f: Fleet, e: Event, x: nat, universe: set<nat>, limit: nat, base: int) {
    match e
    case Sweep(batch, unstamped, drained, now) =>
      && IsBatch(f, batch, limit) && now > base
      && x in f && f[x].eligible
      && (forall y :: y in f && f[y].eligible ==> y in universe)
      && (forall y :: y in unstamped && y in f ==> Forward(f[y], unstamped[y], base))
    case Change(id, row) =>
      if id == x then id in f && row.stamp == f[id].stamp
      else id !in f || Forward(f[id], row, base)
  }

  /** Every run that passes `x` over fills its batch with transcripts not stamped since `base`. */
  lemma PassedOverConsumes(f: Fleet, batch: seq<nat>, x: nat, universe: set<nat>, limit: nat, base: int,
                           tried: set<nat>)
    requires IsBatch(f, batch, limit) && x in f && f[x].eligible && x !in batch && !Newer(f[x], base)
    requires forall y :: y in f && f[y].eligible ==> y in universe
    requires tried <= universe - {x} && Behind(f, tried, base)
    ensures var added := Members(batch);
      added !! tried && |added| == limit && tried + added <= universe - {x}
  {
    forall y | y in batch ensures y !in tried && y in universe {
      assert Precedes(f, y, x);
    }
    DistinctSize(f, batch);
  }

  lemma {:induction false} DistinctSize(f: Fleet, batch: seq<nat>)
    requires AllEligible(f, batch)
    requires forall i, j :: 0 <= i < j < |batch| ==> Precedes(f, batch[i], batch[j])
    ensures |Members(batch)| == |batch|
    decreases |batch|
  {
    if batch != [] {
      var front, last := batch[..|batch| - 1], batch[|batch| - 1];
      DistinctSize(f, front);
      assert batch == front + [last];
      forall i | 0 <= i < |front| ensures front[i] != last { assert Precedes(f, batch[i], last); }
      assert Members(batch) == Members(front) + {last};
    }
  }

  /** What was stamped later than `base` stays behind `x`. */
  ghost predicate Behind(f: Fleet, tried: set<nat>, base: int) {
    forall y :: y in tried ==> y in f && Newer(f[y], base)
  }

  lemma SweepLeavesBehind(f: Fleet, e: Event, base: int, tried: set<nat>)
    requires e.Sweep? && e.now > base && AllEligible(f, e.batch) && Behind(f, tried, base)
    requires forall y :: y in e.unstamped && y in f ==> Forward(f[y], e.unstamped[y], base)
    ensures Behind(After(f, e), tried + (Members(e.batch) - Traceless(e)), base)
  {
    var g := After(f, e);
    forall y | y in tried + (Members(e.batch) - Traceless(e)) ensures y in g && Newer(g[y], base) {
      if y in e.batch {
        var i :| 0 <= i < |e.batch| && e.batch[i] == y;
        assert y in f;
      }
    }
  }

  lemma AttemptedSplit(events: seq<Event>, x: nat)
    requires events != []
    ensures Attempted(events, x) <==> Attempted(events[..1], x) || Attempted(events[1..], x)
    ensures Attempted(events[..1], x) <==> events[0].Sweep? && x in events[0].batch
  {
    if Attempted(events, x) {
      var i :| 0 <= i < |events| && events[i].Sweep? && x in events[i].batch;
      assert i == 0 || events[1..][i - 1] == events[i];
      assert events[..1][0] == events[0];
    }
    if Attempted(events[1..], x) {
      var i :| 0 <= i < |events[1..]| && events[1..][i].Sweep? && x in events[1..][i].batch;
      assert events[i + 1].Sweep? && x in events[i + 1].batch;
    }
    assert events[..1][0] == events[0];
  }

  lemma TriedGrows(tried: set<nat>, added: set<nat>, lost: set<nat>)
    requires added !! tried && lost <= added
    ensures |tried + (added - lost)| == |tried| + |added| - |lost|
  {
    assert added == (added - lost) + lost;
    assert |added| == |added - lost| + |lost|;
    assert tried !! (added - lost);
  }

  ghost predicate Room(f: Fleet, x: nat, universe: set<nat>, base: int, tried: set<nat>) {
    tried <= universe - {x} && Behind(f, tried, base)
  }

  lemma PassedOver(f: Fleet, e: Event, x: nat, universe: set<nat>, limit: nat, base: int, tried: set<nat>)
    returns (more: set<nat>)
    requires e.Sweep? && Admissible(f, e, x, universe, limit, base) && x !in e.batch && !Newer(f[x], base)
    requires Room(f, x, universe, base, tried)
    ensures Room(After(f, e), x, universe, base, more) && |more| == |tried| + limit - |Traceless(e)|
  {
    PassedOverConsumes(f, e.batch, x, universe, limit, base, tried);
    SweepLeavesBehind(f, e, base, tried);
    TriedGrows(tried, Members(e.batch), Traceless(e));
    more := tried + (Members(e.batch) - Traceless(e));
  }

  lemma ChangeKeepsRoom(f: Fleet, e: Event, x: nat, universe: set<nat>, limit: nat, base: int, tried: set<nat>)
    requires e.Change? && Admissible(f, e, x, universe, limit, base) && Room(f, x, universe, base, tried)
    ensures Room(After(f, e), x, universe, base, tried)
  {
  }

  lemma SteadyNext(f: Fleet, events: seq<Event>, x: nat, universe: set<nat>, limit: nat, base: int)
    requires Steady(f, events, x, universe, limit, base) && events != [] && !Attempted(events, x)
    ensures Admissible(f, events[0], x, universe, limit, base) && x in f && !Newer(f[x], base)
    ensures events[0].Sweep? ==> x !in events[0].batch
    ensures Steady(After(f, events[0]), events[1..], x, universe, limit, base) && !Attempted(events[1..], x)
  {
    AttemptedSplit(events, x);
  }

  /** The room after one event, and how it grew. */
  lemma RoomNext(f: Fleet, e: Event, x: nat, universe: set<nat>, limit: nat, base: int, tried: set<nat>)
    returns (more: set<nat>)
    requires Admissible(f, e, x, universe, limit, base) && x in f && !Newer(f[x], base) && (e.Sweep? ==> x !in e.batch)
    requires Room(f, x, universe, base, tried)
    ensures Room(After(f, e), x, universe, base, more)
    ensures |more| == |tried| + (if e.Sweep? then limit else 0) - |Traceless(e)|
  {
    if e.Sweep? {
      more := PassedOver(f, e, x, universe, limit, base, tried);
    } else {
      more := tried;
      ChangeKeepsRoom(f, e, x, universe, limit, base, tried);
    }
  }

  lemma RoomBound(f: Fleet, x: nat, universe: set<nat>, base: int, tried: set<nat>)
    requires x in universe && Room(f, x, universe, base, tried)
    ensures |tried| <= |universe| - 1
  {
    assert |universe - {x}| == |universe| - 1;
    SubsetSize(tried, universe - {x});
  }

  lemma CountNext(limit: nat, events: seq<Event>, tried: nat, more: nat, bound: int)
    requires events != [] && more == tried + (if events[0].Sweep? then limit else 0) - |Traceless(events[0])|
    requires more + limit * Sweeps(events[1..]) <= bound + Unstamped(events[1..])
    ensures tried + limit * Sweeps(events) <= bound + Unstamped(events)
  {
    Distribute(limit, Sweeps(events[1..]));
  }

  /** The runs `x` waits through use up the transcripts, except for attempts that left no stamp. */
  lemma {:induction false} WaitBound(f: Fleet, events: seq<Event>, x: nat, universe: set<nat>, limit: nat, base: int,
                                     tried: set<nat>)
    requires x in universe && Steady(f, events, x, universe, limit, base) && !Attempted(events, x)
    requires Room(f, x, universe, base, tried)
    ensures |tried| + limit * Sweeps(events) <= |universe| - 1 + Unstamped(events)
    decreases |events|
  {
    if events == [] {
      RoomBound(f, x, universe, base, tried);
    } else {
      SteadyNext(f, events, x, universe, limit, base);
      var more := RoomNext(f, events[0], x, universe, limit, base, tried);
      WaitBound(After(f, events[0]), events[1..], x, universe, limit, base, more);
      CountNext(limit, events, |tried|, |more|, |universe| - 1);
    }
  }

  lemma Distribute(m: nat, n: nat)
    ensures m * (n + 1) == m * n + m
  {
  }

  lemma {:induction false} SubsetSize(a: set<nat>, b: set<nat>)
    requires a <= b
    ensures |a| <= |b|
    decreases a
  {
    if a != {} {
      var x :| x in a;
      SubsetSize(a - {x}, b - {x});
    }
  }

  function CeilDiv(t: nat, m: nat): nat
    requires m > 0
  {
    (t + m - 1) / m
  }

  lemma CeilCovers(t: nat, m: nat)
    requires m > 0
    ensures m * CeilDiv(t, m) >= t
  {
    var q := (t + m - 1) / m;
    assert t + m - 1 == m * q + (t + m - 1) % m;
  }

  /**
   Sweep fairness: a transcript that stays eligible among at most T transcripts is attempted within
   ⌈(T + U) / M⌉ runs, however many attempts of the others fail, go stale or drain, where U counts the
   attempts that left no stamp; within ⌈T / M⌉ runs when there are none.
   */
  lemma AttemptedWithinBound(f: Fleet, events: seq<Event>, x: nat, universe: set<nat>, limit: nat, base: int)
    requires limit > 0 && x in universe && Steady(f, events, x, universe, limit, base)
    requires Sweeps(events) >= CeilDiv(|universe| + Unstamped(events), limit)
    ensures Attempted(events, x)
  {
    if !Attempted(events, x) {
      WaitBound(f, events, x, universe, limit, base, {});
      CeilCovers(|universe| + Unstamped(events), limit);
      MulMonotone(limit, CeilDiv(|universe| + Unstamped(events), limit), Sweeps(events));
    }
  }

  /** The first `n` identifiers, in order. */
  function Upto(n: nat): (r: seq<nat>)
    ensures |r| == n && forall i :: 0 <= i < n ==> r[i] == i
  {
    seq(n, i requires 0 <= i < n => i)
  }

  lemma InUpto(n: nat, x: nat)
    ensures x in Upto(n) <==> x < n
  {
    if x < n { assert Upto(n)[x] == x; }
  }

  /** One more transcript than a batch holds, none of them ever attempted, the last one changed last. */
  function Crowd(limit: nat): Fleet {
    map x | x in Everyone(limit) :: Row(true, None, if x < limit then 0 else 1)
  }

  /** A run whose attempts all leave no stamp. */
  function Fruitless(limit: nat, now: int): Event {
    Sweep(Upto(limit), map x | x in Members(Upto(limit)) :: Row(true, None, 0), {}, now)
  }

  function FruitlessRuns(limit: nat, now: int, n: nat): seq<Event> {
    if n == 0 then [] else [Fruitless(limit, now)] + FruitlessRuns(limit, now, n - 1)
  }

  function Everyone(limit: nat): set<nat> {
    Members(Upto(limit + 1))
  }

  lemma {:induction false} UptoSize(n: nat)
    ensures |Members(Upto(n))| == n
  {
    if n > 0 {
      UptoSize(n - 1);
      assert Upto(n) == Upto(n - 1) + [n - 1];
      InUpto(n - 1, n - 1);
      assert Members(Upto(n)) == Members(Upto(n - 1)) + {n - 1};
    }
  }

  lemma CrowdRow(limit: nat, x: nat)
    ensures x in Crowd(limit) <==> x <= limit
    ensures x <= limit ==> Crowd(limit)[x] == Row(true, None, if x < limit then 0 else 1)
    ensures x in Upto(limit) <==> x < limit
  {
    InUpto(limit + 1, x);
    InUpto(limit, x);
  }

  lemma CrowdBatch(limit: nat)
    ensures IsBatch(Crowd(limit), Upto(limit), limit)
  {
    var f, batch := Crowd(limit), Upto(limit);
    forall x: nat ensures x in f <==> x <= limit { CrowdRow(limit, x); }
    forall x: nat | x <= limit ensures f[x] == Row(true, None, if x < limit then 0 else 1) { CrowdRow(limit, x); }
    forall x: nat ensures x in batch <==> x < limit { CrowdRow(limit, x); }
  }

  lemma FruitlessStep(limit: nat, base: int)
    ensures var f, e := Crowd(limit), Fruitless(limit, base + 1);
      && After(f, e) == f && Admissible(f, e, limit, Everyone(limit), limit, base) && limit !in e.batch
      && |Traceless(e)| == limit && limit in f && !Newer(f[limit], base)
  {
    var f, e := Crowd(limit), Fruitless(limit, base + 1);
    var g := After(f, e);
    CrowdBatch(limit);
    UptoSize(limit);
    CrowdRow(limit, limit);
    forall x: nat | x in f ensures g[x] == f[x] && (x in e.unstamped ==> e.unstamped[x] == f[x]) { CrowdRow(limit, x); }
    assert g == f;
    assert Traceless(e) == Members(e.batch);
  }

  /** Events that leave the crowd's last transcript waiting. */
  ghost predicate Starving(limit: nat, base: int, events: seq<Event>, n: nat) {
    && Steady(Crowd(limit), events, limit, Everyone(limit), limit, base)
    && Sweeps(events) == n && Unstamped(events) == limit * n && !Attempted(events, limit)
  }

  lemma SteadyMore(f: Fleet, e: Event, rest: seq<Event>, x: nat, universe: set<nat>, limit: nat, base: int)
    requires x in f && !Newer(f[x], base) && Admissible(f, e, x, universe, limit, base) && After(f, e) == f
    requires Steady(f, rest, x, universe, limit, base)
    ensures Steady(f, [e] + rest, x, universe, limit, base)
  {
    assert ([e] + rest)[1..] == rest;
  }

  lemma StarvingMore(limit: nat, base: int, rest: seq<Event>, n: nat)
    requires Starving(limit, base, rest, n)
    ensures Starving(limit, base, [Fruitless(limit, base + 1)] + rest, n + 1)
  {
    var e := Fruitless(limit, base + 1);
    FruitlessStep(limit, base);
    SteadyMore(Crowd(limit), e, rest, limit, Everyone(limit), limit, base);
    assert ([e] + rest)[1..] == rest;
    AttemptedSplit([e] + rest, limit);
    Distribute(limit, n);
  }

  /**
   Attempts that leave no stamp can starve a transcript: for every batch size and any number of runs, with one
   transcript more than a batch holds, the last one stays eligible and is never attempted.
   */
  lemma {:induction false} UnstampedStarves(limit: nat, base: int, n: nat)
    ensures |Everyone(limit)| == limit + 1 && Starving(limit, base, FruitlessRuns(limit, base + 1, n), n)
    decreases n
  {
    UptoSize(limit + 1);
    FruitlessStep(limit, base);
    if n > 0 {
      UnstampedStarves(limit, base, n - 1);
      StarvingMore(limit, base, FruitlessRuns(limit, base + 1, n - 1), n - 1);
    }
  }

  lemma MulMonotone(m: nat, a: nat, b: nat)
    requires a <= b
    ensures m * a <= m * b
  {
  }

  /******* One run over the stored rows *******/

  /** What happens around the attempts of one run. */
  datatype Luck = Luck(
    /** Transcripts other transactions changed between selection and snapshot, and between snapshot and advance. */
    early: map<nat, D.Chat>, late: map<nat, D.Chat>,
    /** Where discovery, intake and the advance raise nothing. */
    smooth: set<nat>,
    /** Where recording a stale attempt works, and where recording a failed one does. */
    touch: set<nat>, retry: set<nat>)

  /** A stale attempt whose record fails is counted as stale and as a failure. */
  datatype Came = Empty | Failure | Advanced | Stale | StaleFailure

  datatype Stats = Stats(seen: nat, advanced: nat, stale: nat, failures: nat, empty: nat)

  function Tally(stats: Stats, came: Came): Stats {
    var s := stats.(seen := stats.seen + 1);
    match came
    case Empty => s.(empty := s.empty + 1)
    case Failure => s.(failures := s.failures + 1)
    case Advanced => s.(advanced := s.advanced + 1)
    case Stale => s.(stale := s.stale + 1)
    case StaleFailure => s.(stale := s.stale + 1, failures := s.failures + 1)
  }

  function Sum(s: Stats): nat {
    s.advanced + s.stale + s.failures + s.empty
  }

  function FleetOf(chats: map<nat, D.Chat>, touched: map<nat, int>): Fleet {
    map t | t in chats ::
      Row(D.Eligible(chats[t]),
          if chats[t].state.Some? then Some(chats[t].state.value.updatedAt) else None,
          if t in touched then touched[t] else 0)
  }

  function Found(changed: map<nat, D.Chat>, t: nat, chat: D.Chat): D.Chat {
    if t in changed then changed[t] else chat
  }

  /** How the attempt of one transcript comes out, and the transcript it leaves. */
  function Attempt(chat: D.Chat, t: nat, luck: Luck, window: nat, now: int): (D.Chat, Came) {
    var seen := Found(luck.early, t, chat);
    var found := Found(luck.late, t, seen);
    match D.TakeScan(seen, window)
    case None => (seen, Empty)
    case Some(scan) =>
      if t !in luck.smooth then (if t in luck.retry then D.Touch(found, now) else found, Failure)
      else
        var after := D.Advance(found, scan, now);
        if D.CanAdvance(found, scan) then (after, Advanced)
        else if t in luck.touch then (D.Touch(after, now), Stale)
        else (if t in luck.retry then D.Touch(after, now) else after, StaleFailure)
  }

  /** The attempt is recorded: the cursor moved, or one of the two ways to record a fruitless attempt worked. */
  predicate Records(came: Came, t: nat, luck: Luck) {
    match came
    case Empty => false
    case Failure => t in luck.retry
    case Advanced => true
    case Stale => true
    case StaleFailure => t in luck.retry
  }

  /** A recorded attempt, advanced, failed or stale, leaves its transcript stamped with the time of the attempt. */
  lemma AttemptStamps(chat: D.Chat, t: nat, luck: Luck, window: nat, now: int)
    ensures var (after, came) := Attempt(chat, t, luck, window, now);
      Records(came, t, luck) ==> after.state.Some? && after.state.value.updatedAt == now
  {
  }

  /** An attempt is recorded if the transcript is still eligible at the snapshot and a failure can be recorded. */
  lemma AttemptRecorded(chat: D.Chat, t: nat, luck: Luck, window: nat, now: int)
    requires window > 0 && D.Eligible(Found(luck.early, t, chat)) && t in luck.retry
    ensures Records(Attempt(chat, t, luck, window, now).1, t, luck)
  {
    var seen := Found(luck.early, t, chat);
    var i :| 0 <= i < |seen.turns| && D.Unscanned(seen.turns[i], D.Cursor(seen));
    var w := D.Window(seen.turns, D.Cursor(seen), window);
    assert i in w || |w| == window;
    assert w != [];
  }

  /** Turns were only deleted or appended. */
  ghost predicate Grown(seen: D.Chat, found: D.Chat) {
    && D.TurnsOk(seen) && D.TurnsOk(found) && |seen.turns| <= |found.turns| && seen.nextSequence <= found.nextSequence
    && forall i :: 0 <= i < |seen.turns| ==>
      found.turns[i].sequence == seen.turns[i].sequence && (seen.turns[i].deleted ==> found.turns[i].deleted)
  }

  /**
   What an attempt that advanced has done: as many turns as the window holds are off what remained, and if the
   transcript was not touched meanwhile, it is no longer eligible unless more remained than the window holds.
   */
  ghost predicate Consumed(chat: D.Chat, t: nat, luck: Luck, window: nat, after: D.Chat) {
    var seen := Found(luck.early, t, chat);
    var found := Found(luck.late, t, seen);
    var n := |D.Remaining(seen.turns, D.Cursor(seen))|;
    Grown(seen, found) ==>
      && D.Remaining(after.turns, D.Cursor(after)) <= D.Remaining(found.turns, D.Cursor(found))
      && |D.Remaining(after.turns, D.Cursor(after))|
         == |D.Remaining(found.turns, D.Cursor(found))| - (if n <= window then n else window)
      && (found == seen ==> (D.Eligible(after) <==> seen.owner && n > window))
  }

  /** A sequence no later than the anchor belongs to a turn that was already there. */
  lemma GrownIndex(seen: D.Chat, found: D.Chat, scan: D.Scan, i: nat)
    requires Grown(seen, found) && D.Anchored(seen.turns, scan)
    requires i < |found.turns| && found.turns[i].sequence <= scan.anchor
    ensures i < |seen.turns|
  {
    var k :| 0 <= k < |scan.window| && seen.turns[scan.window[k]].sequence == scan.anchor;
    var j := scan.window[k];
    assert found.turns[j].sequence == scan.anchor;
  }

  lemma GrownScan(seen: D.Chat, found: D.Chat, window: nat)
    requires Grown(seen, found) && D.TakeScan(seen, window).Some?
    ensures D.ScanOk(found, D.TakeScan(seen, window).value)
    ensures D.Anchored(found.turns, D.TakeScan(seen, window).value)
  {
    var scan := D.TakeScan(seen, window).value;
    D.TakeScanOk(seen, window);
    D.TakeScanAnchored(seen, window);
    D.AnchoredKept(seen.turns, found.turns, scan);
    forall i | 0 <= i < |found.turns| && found.turns[i].sequence <= scan.anchor ensures i < |seen.turns| {
      GrownIndex(seen, found, scan, i);
    }
  }

  lemma TakenOff(rest: set<nat>, taken: set<nat>)
    requires taken <= rest
    ensures |rest - taken| == |rest| - |taken|
  {
    assert rest == (rest - taken) + taken;
  }

  lemma EligibleRemaining(chat: D.Chat)
    ensures D.Eligible(chat) <==> chat.owner && |D.Remaining(chat.turns, D.Cursor(chat))| > 0
  {
    var rest := D.Remaining(chat.turns, D.Cursor(chat));
    if rest != {} {
      var i :| i in rest;
      assert D.Unscanned(chat.turns[i], D.Cursor(chat));
    }
    if D.Eligible(chat) {
      var i :| 0 <= i < |chat.turns| && D.Unscanned(chat.turns[i], D.Cursor(chat));
      assert i in rest;
    }
  }

  lemma AdvancedConsumes(seen: D.Chat, found: D.Chat, window: nat, now: int)
    requires Grown(seen, found) && D.TakeScan(seen, window).Some?
    requires D.CanAdvance(found, D.TakeScan(seen, window).value)
    ensures var after := D.Advance(found, D.TakeScan(seen, window).value, now);
      var n := |D.Remaining(seen.turns, D.Cursor(seen))|;
      && D.Remaining(after.turns, D.Cursor(after)) <= D.Remaining(found.turns, D.Cursor(found))
      && |D.Remaining(after.turns, D.Cursor(after))|
         == |D.Remaining(found.turns, D.Cursor(found))| - (if n <= window then n else window)
  {
    var scan := D.TakeScan(seen, window).value;
    GrownScan(seen, found, window);
    D.AdvanceConsumes(found, scan, now);
    D.WindowSize(seen, window);
    TakenOff(D.Remaining(found.turns, D.Cursor(found)), D.Indices(scan.window));
  }

  lemma AttemptConsumes(chat: D.Chat, t: nat, luck: Luck, window: nat, now: int)
    ensures var (after, came) := Attempt(chat, t, luck, window, now);
      came == Advanced ==> Consumed(chat, t, luck, window, after)
  {
    var (after, came) := Attempt(chat, t, luck, window, now);
    var seen := Found(luck.early, t, chat);
    var found := Found(luck.late, t, seen);
    if came == Advanced && Grown(seen, found) {
      AdvancedConsumes(seen, found, window, now);
      EligibleRemaining(after);
    }
  }

  class DiscoveryService {
    var chats: map<nat, D.Chat>
    var touched: map<nat, int>

    constructor ()
      ensures chats == map[] && touched == map[]
    {
      chats, touched := map[], map[];
    }

    /**
     One sweep: the batch is attempted in order and each counter is the number of attempts that ended its way. So the
     counters add up to the batch if and only if no stale attempt failed to be recorded.
     */
    method RunOnce(luck: Luck, limit: nat, window: nat, now: int) returns (batch: seq<nat>, stats: Stats)
      modifies this`chats
      ensures IsBatch(FleetOf(old(chats), touched), batch, limit)
      ensures chats == AttemptAll(old(chats), batch, luck, window, now)
      ensures forall t :: t in batch && t in old(chats) ==>
        Records(Attempt(old(chats)[t], t, luck, window, now).1, t, luck) ==>
        t in chats && chats[t].state.Some? && chats[t].state.value.updatedAt == now
      ensures Exact(stats, Ways(old(chats), luck, window, now), batch)
      ensures Sum(stats) == |batch| <==> Ends(Ways(old(chats), luck, window, now), batch, StaleFailure) == 0
    {
      var f := FleetOf(chats, touched);
      batch := EligibleTranscripts(f, limit);
      BatchInFleet(chats, touched, batch, limit);
      AttemptAllOutcome(chats, batch, luck, window, now);
      stats := AttemptBatch(batch, luck, window, now);
    }

    method AttemptBatch(batch: seq<nat>, luck: Luck, window: nat, now: int) returns (stats: Stats)
      requires forall i :: 0 <= i < |batch| ==> batch[i] in chats
      requires forall j, k :: 0 <= j < k < |batch| ==> batch[j] != batch[k]
      modifies this`chats
      ensures chats == AttemptAll(old(chats), batch, luck, window, now)
      ensures Exact(stats, Ways(old(chats), luck, window, now), batch)
    {
      stats := Stats(0, 0, 0, 0, 0);
      ghost var was := chats;
      for i := 0 to |batch|
        invariant (chats, stats) == Batched(was, batch[..i], luck, window, now) && chats.Keys == was.Keys
      {
        assert batch[..i + 1][..i] == batch[..i];
        var came := AttemptOne(batch[i], luck, window, now);
        stats := Tally(stats, came);
      }
      assert batch[..|batch|] == batch;
      BatchedExact(was, batch, luck, window, now);
    }

    /** Snapshot, discover, compare-and-set, for one transcript; whatever raises is caught and recorded if it can be. */
    method AttemptOne(t: nat, luck: Luck, window: nat, now: int) returns (came: Came)
      requires t in chats
      modifies this`chats
      ensures chats == old(chats)[t := Attempt(old(chats)[t], t, luck, window, now).0]
      ensures came == Attempt(old(chats)[t], t, luck, window, now).1
      ensures came == Advanced ==> Consumed(old(chats)[t], t, luck, window, chats[t])
    {
      AttemptConsumes(chats[t], t, luck, window, now);
      var chat := Found(luck.early, t, chats[t]);
      var snapshot := D.TakeScan(chat, window);
      if snapshot.None? {
        chats := chats[t := chat];
        return Empty;
      }
      chat := Found(luck.late, t, chat);
      came := Failure;
      if t in luck.smooth {
        var advanced := D.CanAdvance(chat, snapshot.value);
        chat := D.Advance(chat, snapshot.value, now);
        if advanced || t in luck.touch {
          chats := chats[t := if advanced then chat else D.Touch(chat, now)];
          return if advanced then Advanced else Stale;
        }
        came := StaleFailure;
      }
      if t in luck.retry { chat := D.Touch(chat, now); }
      chats := chats[t := chat];
    }
  }

  /** How the attempt of each transcript comes out. */
  ghost function Ways(chats: map<nat, D.Chat>, luck: Luck, window: nat, now: int): map<nat, Came> {
    map t | t in chats :: Attempt(chats[t], t, luck, window, now).1
  }

  /** How many attempts of a batch end one way. */
  ghost function Ends(ways: map<nat, Came>, batch: seq<nat>, came: Came): nat {
    if batch == [] then 0
    else
      var t := batch[|batch| - 1];
      Ends(ways, batch[..|batch| - 1], came) + if t in ways && ways[t] == came then 1 else 0
  }

  /** Every counter is the number of attempts that ended its way; a stale failure is in two of them. */
  ghost predicate Exact(s: Stats, ways: map<nat, Came>, batch: seq<nat>) {
    && s.seen == |batch|
    && s.advanced == Ends(ways, batch, Advanced)
    && s.empty == Ends(ways, batch, Empty)
    && s.stale == Ends(ways, batch, Stale) + Ends(ways, batch, StaleFailure)
    && s.failures == Ends(ways, batch, Failure) + Ends(ways, batch, StaleFailure)
    && Sum(s) == |batch| + Ends(ways, batch, StaleFailure)
  }

  /** The transcripts and the counters after a batch was attempted in order. */
  function Batched(chats: map<nat, D.Chat>, batch: seq<nat>, luck: Luck, window: nat, now: int): (map<nat, D.Chat>,
                   Stats) {
    if batch == [] then (chats, Stats(0, 0, 0, 0, 0))
    else
      var (c, s) := Batched(chats, batch[..|batch| - 1], luck, window, now);
      var t := batch[|batch| - 1];
      if t in c then
        var (after, came) := Attempt(c[t], t, luck, window, now);
        (c[t := after], Tally(s, came))
      else (c, s)
  }

  lemma WayAt(chats: map<nat, D.Chat>, luck: Luck, window: nat, now: int, t: nat)
    requires t in chats
    ensures t in Ways(chats, luck, window, now)
    ensures Ways(chats, luck, window, now)[t] == Attempt(chats[t], t, luck, window, now).1
  {
  }

  lemma {:induction false} BatchedChats(chats: map<nat, D.Chat>, batch: seq<nat>, luck: Luck, window: nat, now: int)
    ensures Batched(chats, batch, luck, window, now).0 == AttemptAll(chats, batch, luck, window, now)
    decreases |batch|
  {
    if batch != [] { BatchedChats(chats, batch[..|batch| - 1], luck, window, now); }
  }

  /** The last attempt of a batch is counted by how it ends on the transcript as it was. */
  lemma BatchedLast(chats: map<nat, D.Chat>, front: seq<nat>, t: nat, luck: Luck, window: nat, now: int)
    requires t in chats && t !in front && forall j, k :: 0 <= j < k < |front| ==> front[j] != front[k]
    ensures Batched(chats, front + [t], luck, window, now).1
         == Tally(Batched(chats, front, luck, window, now).1, Attempt(chats[t], t, luck, window, now).1)
  {
    assert (front + [t])[..|front|] == front;
    BatchedChats(chats, front, luck, window, now);
    AttemptAllAt(chats, front, luck, window, now, t);
  }

  /** The counters of attempts that end these ways. */
  function TallyAll(ways: map<nat, Came>, batch: seq<nat>): Stats
    requires forall i :: 0 <= i < |batch| ==> batch[i] in ways
  {
    if batch == [] then Stats(0, 0, 0, 0, 0) else Tally(TallyAll(ways, batch[..|batch| - 1]), ways[batch[|batch| - 1]])
  }

  lemma EndsNext(ways: map<nat, Came>, front: seq<nat>, t: nat, came: Came)
    requires t in ways
    ensures Ends(ways, front + [t], came) == Ends(ways, front, came) + if ways[t] == came then 1 else 0
  {
    assert (front + [t])[..|front|] == front;
  }

  lemma ExactStep(s: Stats, ways: map<nat, Came>, front: seq<nat>, t: nat)
    requires Exact(s, ways, front) && t in ways
    ensures Exact(Tally(s, ways[t]), ways, front + [t])
  {
    EndsNext(ways, front, t, Advanced);
    EndsNext(ways, front, t, Empty);
    EndsNext(ways, front, t, Stale);
    EndsNext(ways, front, t, Failure);
    EndsNext(ways, front, t, StaleFailure);
  }

  lemma {:induction false} TallyExact(ways: map<nat, Came>, batch: seq<nat>)
    requires forall i :: 0 <= i < |batch| ==> batch[i] in ways
    ensures Exact(TallyAll(ways, batch), ways, batch)
    decreases |batch|
  {
    if batch != [] {
      var front, t := batch[..|batch| - 1], batch[|batch| - 1];
      TallyExact(ways, front);
      ExactStep(TallyAll(ways, front), ways, front, t);
      assert batch == front + [t];
    }
  }

  lemma {:induction false} BatchedTally(chats: map<nat, D.Chat>, batch: seq<nat>, luck: Luck, window: nat, now: int)
    requires forall i :: 0 <= i < |batch| ==> batch[i] in Ways(chats, luck, window, now)
    requires forall j, k :: 0 <= j < k < |batch| ==> batch[j] != batch[k]
    ensures Batched(chats, batch, luck, window, now).1 == TallyAll(Ways(chats, luck, window, now), batch)
    decreases |batch|
  {
    if batch != [] {
      var front, t := batch[..|batch| - 1], batch[|batch| - 1];
      BatchedTally(chats, front, luck, window, now);
      BatchedLast(chats, front, t, luck, window, now);
      WayAt(chats, luck, window, now, t);
      assert batch == front + [t];
    }
  }

  lemma BatchedExact(chats: map<nat, D.Chat>, batch: seq<nat>, luck: Luck, window: nat, now: int)
    requires forall i :: 0 <= i < |batch| ==> batch[i] in chats
    requires forall j, k :: 0 <= j < k < |batch| ==> batch[j] != batch[k]
    ensures Batched(chats, batch, luck, window, now).0 == AttemptAll(chats, batch, luck, window, now)
    ensures Exact(Batched(chats, batch, luck, window, now).1, Ways(chats, luck, window, now), batch)
  {
    BatchedChats(chats, batch, luck, window, now);
    BatchedTally(chats, batch, luck, window, now);
    TallyExact(Ways(chats, luck, window, now), batch);
  }

  /**
   A run that counts an attempt twice: a transcript's one turn is purged while the model reads it, so that the advance
   is refused, and recording the stale attempt raises.
   */
  lemma CountedTwice(window: nat, now: int, retry: set<nat>)
    requires window > 0
    ensures var chat := D.Chat([D.Turn(1, false)], 1, true, None);
      var purged := chat.(turns := [D.Turn(1, true)]);
      var luck := Luck(map[], map[0 := purged], {0}, {}, retry);
      D.Eligible(chat) && Attempt(chat, 0, luck, window, now).1 == StaleFailure
      && Ends(Ways(map[0 := chat], luck, window, now), [0], StaleFailure) == 1
  {
    var chat := D.Chat([D.Turn(1, false)], 1, true, None);
    assert D.Unscanned(chat.turns[0], D.Cursor(chat));
    var w := D.Window(chat.turns, 0, window);
    assert 0 in w || |w| == window;
    assert w[0] == 0;
  }

  /** The transcripts after a batch was attempted in order. */
  function AttemptAll(chats: map<nat, D.Chat>, batch: seq<nat>, luck: Luck, window: nat, now: int): map<nat, D.Chat> {
    if batch == [] then chats
    else
      var c := AttemptAll(chats, batch[..|batch| - 1], luck, window, now);
      var t := batch[|batch| - 1];
      if t in c then c[t := Attempt(c[t], t, luck, window, now).0] else c
  }

  lemma AttemptAllSnoc(chats: map<nat, D.Chat>, front: seq<nat>, t: nat, luck: Luck, window: nat, now: int)
    ensures var c := AttemptAll(chats, front, luck, window, now);
      t in c ==> AttemptAll(chats, front + [t], luck, window, now) == c[t := Attempt(c[t], t, luck, window, now).0]
  {
    assert (front + [t])[..|front|] == front;
  }

  lemma {:induction false} AttemptAllAt(chats: map<nat, D.Chat>, batch: seq<nat>, luck: Luck, window: nat, now: int,
                                        t: nat)
    requires t in chats && forall j, k :: 0 <= j < k < |batch| ==> batch[j] != batch[k]
    ensures var c := AttemptAll(chats, batch, luck, window, now);
      && t in c
      && (t !in batch ==> c[t] == chats[t])
      && (t in batch ==> c[t] == Attempt(chats[t], t, luck, window, now).0)
    decreases |batch|
  {
    if batch != [] {
      AttemptAllAt(chats, batch[..|batch| - 1], luck, window, now, t);
      assert batch == batch[..|batch| - 1] + [batch[|batch| - 1]];
    }
  }

  lemma {:induction false} AttemptAllKeys(chats: map<nat, D.Chat>, batch: seq<nat>, luck: Luck, window: nat, now: int)
    ensures AttemptAll(chats, batch, luck, window, now).Keys == chats.Keys
    decreases |batch|
  {
    if batch != [] { AttemptAllKeys(chats, batch[..|batch| - 1], luck, window, now); }
  }

  lemma BatchInFleet(chats: map<nat, D.Chat>, touched: map<nat, int>, batch: seq<nat>, limit: nat)
    requires IsBatch(FleetOf(chats, touched), batch, limit)
    ensures forall i :: 0 <= i < |batch| ==> batch[i] in chats
    ensures forall j, k :: 0 <= j < k < |batch| ==> batch[j] != batch[k]
  {
    var f := FleetOf(chats, touched);
    forall j, k | 0 <= j < k < |batch| ensures batch[j] != batch[k] { assert Precedes(f, batch[j], batch[k]); }
  }

  /** Each attempt stands alone: what it leaves, stamped if it was recorded, and nothing outside the batch changes. */
  lemma AttemptAllOutcome(chats: map<nat, D.Chat>, batch: seq<nat>, luck: Luck, window: nat, now: int)
    requires forall j, k :: 0 <= j < k < |batch| ==> batch[j] != batch[k]
    ensures var c := AttemptAll(chats, batch, luck, window, now);
      forall t :: t in chats ==>
        && t in c
        && c[t] == (if t in batch then Attempt(chats[t], t, luck, window, now).0 else chats[t])
        && (t in batch && Records(Attempt(chats[t], t, luck, window, now).1, t, luck) ==>
              c[t].state.Some? && c[t].state.value.updatedAt == now)
  {
    forall t | t in chats
      ensures var c := AttemptAll(chats, batch, luck, window, now);
        && t in c
        && c[t] == (if t in batch then Attempt(chats[t], t, luck, window, now).0 else chats[t])
        && (t in batch && Records(Attempt(chats[t], t, luck, window, now).1, t, luck) ==>
              c[t].state.Some? && c[t].state.value.updatedAt == now)
    {
      AttemptAllAt(chats, batch, luck, window, now, t);
      AttemptStamps(chats[t], t, luck, window, now);
    }
  }

  ghost function Drained(c: map<nat, D.Chat>, batch: seq<nat>): set<nat> {
    set t | t in batch && t in c && !D.Eligible(c[t])
  }

  /** The attempts of a batch that were recorded. */
  ghost function RecordedIn(chats: map<nat, D.Chat>, batch: seq<nat>, luck: Luck, window: nat, now: int): set<nat> {
    set t | t in batch && t in chats && Records(Attempt(chats[t], t, luck, window, now).1, t, luck)
  }

  /** The rows of the attempts that were not recorded. */
  ghost function LeftRows(c: map<nat, D.Chat>, touched: map<nat, int>, batch: seq<nat>,
                          recorded: set<nat>): map<nat, Row> {
    map t | t in c && t in batch && t !in recorded :: FleetOf(c, touched)[t]
  }

  lemma StampedIsSweep(chats: map<nat, D.Chat>, c: map<nat, D.Chat>, touched: map<nat, int>, batch: seq<nat>,
                       recorded: set<nat>, now: int)
    requires c.Keys == chats.Keys
    requires forall t :: t in chats && t !in batch ==> c[t] == chats[t]
    requires forall t :: t in chats && t in recorded ==> c[t].state.Some? && c[t].state.value.updatedAt == now
    ensures FleetOf(c, touched)
      == After(FleetOf(chats, touched), Sweep(batch, LeftRows(c, touched, batch, recorded), Drained(c, batch), now))
  {
    var x := FleetOf(c, touched);
    var e := Sweep(batch, LeftRows(c, touched, batch, recorded), Drained(c, batch), now);
    var y := After(FleetOf(chats, touched), e);
    assert x.Keys == y.Keys;
    forall t | t in x ensures x[t] == y[t] {
    }
  }

  /** A run over the stored rows is a sweep event of the fairness argument, its unrecorded attempts left unstamped. */
  lemma RunIsSweep(chats: map<nat, D.Chat>, touched: map<nat, int>, batch: seq<nat>, limit: nat, luck: Luck,
                   window: nat, now: int)
    requires IsBatch(FleetOf(chats, touched), batch, limit)
    ensures var c := AttemptAll(chats, batch, luck, window, now);
      var left := LeftRows(c, touched, batch, RecordedIn(chats, batch, luck, window, now));
      FleetOf(c, touched) == After(FleetOf(chats, touched), Sweep(batch, left, Drained(c, batch), now))
  {
    BatchInFleet(chats, touched, batch, limit);
    AttemptAllOutcome(chats, batch, luck, window, now);
    AttemptAllKeys(chats, batch, luck, window, now);
    var c := AttemptAll(chats, batch, luck, window, now);
    StampedIsSweep(chats, c, touched, batch, RecordedIn(chats, batch, luck, window, now), now);
  }
}
