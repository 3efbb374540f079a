/** The sliding-window limiter of authentication attempts, refined against its whole history. */
module RateLimiter {
  const OVERFLOW := "__overflow__"
  const MAX_KEYS := 4096

  /** One attempt, in the bucket that counted it. */
  datatype Attempt = Attempt(bucket: string, at: int, accepted: bool)

  /** Times of the accepted attempts of a bucket, oldest first. */
  function Accepted(history: seq<Attempt>, bucket: string): seq<int> {
    if history == [] then []
    else
      var last := history[|history| - 1];
      var rest := Accepted(history[..|history| - 1], bucket);
      if last.accepted && last.bucket == bucket then rest + [last.at] else rest
  }

  /** How many of `times` lie in the half-open window above `lo` and up to `hi`. */
  function Within(times: seq<int>, lo: int, hi: int): nat {
    if times == [] then 0
    else Within(times[..|times| - 1], lo, hi) + (if lo < times[|times| - 1] <= hi then 1 else 0)
  }

  function Recent(history: seq<Attempt>, bucket: string, now: int, window: int): nat {
    Within(Accepted(history, bucket), now - window, now)
  }

  /** The full-history specification: time never runs backwards, and exactly the attempts with room are accepted. */
  ghost predicate Spec(history: seq<Attempt>, limit: nat, window: int) {
    InTime(history) && forall i :: 0 <= i < |history| ==> Fair(history, i, limit, window)
  }

  ghost predicate InTime(history: seq<Attempt>) {
    forall i, j :: 0 <= i <= j < |history| ==> history[i].at <= history[j].at
  }

  /** Attempt `i` was accepted exactly when its bucket had room in the window behind it. */
  ghost predicate Fair(history: seq<Attempt>, i: nat, limit: nat, window: int)
    requires i < |history|
  {
    history[i].accepted <==> Recent(history[..i], history[i].bucket, history[i].at, window) < limit
  }

  ghost predicate NoLaterThan(history: seq<Attempt>, latest: int) {
    forall i :: 0 <= i < |history| ==> history[i].at <= latest
  }

  ghost predicate WindowHolds(history: seq<Attempt>, bucket: string, start: int, window: int, limit: nat) {
    Within(Accepted(history, bucket), start, start + window) <= limit
  }

  /******* Counting *******/

  lemma {:induction false} WithinConcat(a: seq<int>, b: seq<int>, lo: int, hi: int)
    ensures Within(a + b, lo, hi) == Within(a, lo, hi) + Within(b, lo, hi)
    decreases |b|
  {
    if b == [] {
      assert a + b == a;
    } else {
      assert (a + b)[..|a + b| - 1] == a + b[..|b| - 1];
      WithinConcat(a, b[..|b| - 1], lo, hi);
    }
  }

  lemma {:induction false} WithinNone(times: seq<int>, lo: int, hi: int)
    requires forall i :: 0 <= i < |times| ==> times[i] <= lo
    ensures Within(times, lo, hi) == 0
  {
    if times != [] { WithinNone(times[..|times| - 1], lo, hi); }
  }

  lemma {:induction false} WithinAll(times: seq<int>, lo: int, hi: int)
    requires forall i :: 0 <= i < |times| ==> lo < times[i] <= hi
    ensures Within(times, lo, hi) == |times|
  {
    if times != [] { WithinAll(times[..|times| - 1], lo, hi); }
  }

  lemma {:induction false} WithinWider(times: seq<int>, lo: int, hi: int, lo': int, hi': int)
    requires lo' <= lo && forall i :: 0 <= i < |times| ==> times[i] <= hi'
    ensures Within(times, lo, hi) <= Within(times, lo', hi')
  {
    if times != [] { WithinWider(times[..|times| - 1], lo, hi, lo', hi'); }
  }

  lemma {:induction false} AcceptedAreAttempts(history: seq<Attempt>, bucket: string, hi: int)
    requires NoLaterThan(history, hi)
    ensures forall k :: 0 <= k < |Accepted(history, bucket)| ==> Accepted(history, bucket)[k] <= hi
    decreases |history|
  {
    if history != [] { AcceptedAreAttempts(history[..|history| - 1], bucket, hi); }
  }

  lemma AcceptedSnoc(history: seq<Attempt>, next: Attempt, bucket: string)
    ensures Accepted(history + [next], bucket)
         == if next.accepted
           && next.bucket == bucket then Accepted(history, bucket) + [next.at] else Accepted(history, bucket)
  {
    assert (history + [next])[..|history|] == history;
  }

  /** An accepted attempt inside a window leaves room for itself among the earlier ones. */
  lemma WindowStep(times: seq<int>, at: int, start: int, window: int, limit: nat)
    requires Within(times, start, start + window) <= limit
    requires (forall i :: 0 <= i < |times| ==> times[i] <= at) && Within(times, at - window, at) < limit
    ensures Within(times + [at], start, start + window) <= limit
  {
    WithinConcat(times, [at], start, start + window);
    if start < at <= start + window {
      WithinWider(times, start, start + window, at - window, at);
    }
  }

  /** Under the specification no window of the given length, wherever it starts, holds more than the limit. */
  lemma {:induction false} EveryWindowBounded(history: seq<Attempt>, limit: nat, window: int, bucket: string,
                                              start: int)
    requires Spec(history, limit, window)
    ensures WindowHolds(history, bucket, start, window, limit)
    decreases |history|
  {
    if history != [] {
      var front, last := history[..|history| - 1], history[|history| - 1];
      SpecPrefix(history, limit, window);
      EveryWindowBounded(front, limit, window, bucket, start);
      AcceptedSnoc(front, last, bucket);
      assert history == front + [last];
      if last.accepted && last.bucket == bucket {
        AcceptedAreAttempts(front, bucket, last.at);
        assert Fair(history, |history| - 1, limit, window);
        WindowStep(Accepted(front, bucket), last.at, start, window, limit);
      }
    }
  }

  lemma SpecPrefix(history: seq<Attempt>, limit: nat, window: int)
    requires Spec(history, limit, window) && history != []
    ensures Spec(history[..|history| - 1], limit, window)
    ensures NoLaterThan(history[..|history| - 1], history[|history| - 1].at)
  {
    var front := history[..|history| - 1];
    forall i | 0 <= i < |front| ensures Fair(front, i, limit, window) {
      assert Fair(history, i, limit, window) && front[..i] == history[..i];
    }
  }

  /******* The limiter's table *******/

  type Table = map<string, seq<int>>

  /** The bucket that counts an attempt with this key. */
  function BucketFor(table: Table, key: string): string {
    if key !in table && |table| >= MAX_KEYS then OVERFLOW else key
  }

  function Deque(table: Table, bucket: string): seq<int> {
    if bucket in table then table[bucket] else []
  }

  function Popped(deque: seq<int>, cutoff: int): seq<int> {
    if deque != [] && deque[0] <= cutoff then Popped(deque[1..], cutoff) else deque
  }

  /** One attempt: the new table, and whether it was accepted. */
  function After(table: Table, key: string, now: int, limit: nat, window: int): (Table, bool) {
    var bucket := BucketFor(table, key);
    var deque := Popped(Deque(table, bucket), now - window);
    if |deque| >= limit then (table[bucket := deque], false) else (table[bucket := deque + [now]], true)
  }

  class Limiter {
    var attempts: Table
    const limit: nat
    const window: int

    constructor (limit: nat, window: int)
      ensures attempts == map[] && this.limit == limit && this.window == window
    {
      this.limit, this.window, attempts := limit, window, map[];
    }

    /** Pops what is too old, refuses a full bucket, otherwise records the attempt. */
    method RateLimit(key: string, now: int) returns (accepted: bool)
      modifies this`attempts
      ensures (attempts, accepted) == After(old(attempts), key, now, limit, window)
    {
      var bucket := key;
      if key !in attempts && |attempts| >= MAX_KEYS { bucket := OVERFLOW; }
      var deque := if bucket in attempts then attempts[bucket] else [];
      while deque != [] && deque[0] <= now - window
        invariant attempts == old(attempts)
        invariant Popped(deque, now - window) == Popped(Deque(old(attempts), bucket), now - window)
        decreases |deque|
      {
        deque := deque[1..];
      }
      attempts := attempts[bucket := deque];
      if |deque| >= limit { return false; }
      attempts := attempts[bucket := deque + [now]];
      accepted := true;
      assert attempts == old(attempts)[bucket := deque + [now]];
    }
  }

  /******* Refinement *******/

  /** A deque is the bucket's accepted history without a part that is too old to matter. */
  ghost predicate Keeps(deque: seq<int>, times: seq<int>, cutoff: int) {
    && |deque| <= |times| && times[|times| - |deque|..] == deque
    && forall i :: 0 <= i < |times| - |deque| ==> times[i] <= cutoff
  }

  ghost predicate BucketOk(table: Table, history: seq<Attempt>, bucket: string, latest: int, limit: nat, window: int) {
    Keeps(Deque(table, bucket), Accepted(history, bucket), latest - window) && |Deque(table, bucket)| <= limit
  }

  ghost predicate Bounded(table: Table) {
    |table| <= MAX_KEYS + 1 && (|table| > MAX_KEYS ==> OVERFLOW in table)
  }

  ghost predicate Refines(table: Table, history: seq<Attempt>, latest: int, limit: nat, window: int) {
    && Spec(history, limit, window) && NoLaterThan(history, latest)
    && (forall bucket :: BucketOk(table, history, bucket, latest, limit, window))
    && Bounded(table)
  }

  lemma {:induction false} PoppedKeeps(deque: seq<int>, times: seq<int>, before: int, cutoff: int)
    requires Keeps(deque, times, before) && before <= cutoff
    ensures Keeps(Popped(deque, cutoff), times, cutoff)
    ensures |Popped(deque, cutoff)| <= |deque|
    ensures Popped(deque, cutoff) == [] || Popped(deque, cutoff)[0] > cutoff
    decreases |deque|
  {
    if deque != [] && deque[0] <= cutoff {
      var n := |times| - |deque|;
      assert times[n] == deque[0];
      assert times[n + 1..] == deque[1..];
      forall i | 0 <= i < n + 1 ensures times[i] <= cutoff {
      }
      PoppedKeeps(deque[1..], times, cutoff, cutoff);
    }
  }

  ghost predicate Ascending(times: seq<int>) {
    forall i, j :: 0 <= i <= j < |times| ==> times[i] <= times[j]
  }

  /** What remains after popping is exactly the recent part of an ascending history. */
  lemma RecentIsDeque(times: seq<int>, deque: seq<int>, now: int, window: int)
    requires Keeps(deque, times, now - window) && (deque == [] || deque[0] > now - window)
    requires Ascending(times) && forall i :: 0 <= i < |times| ==> times[i] <= now
    ensures Within(times, now - window, now) == |deque|
  {
    var n := |times| - |deque|;
    var gone := times[..n];
    assert times == gone + deque;
    forall i | 0 <= i < |deque| ensures now - window < deque[i] <= now {
      assert times[n] == deque[0] && times[n + i] == deque[i];
    }
    WithinConcat(gone, deque, now - window, now);
    WithinNone(gone, now - window, now);
    WithinAll(deque, now - window, now);
  }

  lemma {:induction false} AcceptedAscending(history: seq<Attempt>, bucket: string)
    requires InTime(history)
    ensures Ascending(Accepted(history, bucket))
    decreases |history|
  {
    if history != [] {
      var front := history[..|history| - 1];
      AcceptedAscending(front, bucket);
      AcceptedAreAttempts(front, bucket, history[|history| - 1].at);
    }
  }

  /** Popping a bucket leaves exactly its recent accepted attempts. */
  lemma PoppedIsRecent(deque: seq<int>, history: seq<Attempt>, bucket: string, latest: int, now: int, window: int)
    requires Keeps(deque, Accepted(history, bucket), latest - window) && now >= latest
    requires InTime(history) && NoLaterThan(history, latest)
    ensures |Popped(deque, now - window)| == Recent(history, bucket, now, window)
  {
    PoppedKeeps(deque, Accepted(history, bucket), latest - window, now - window);
    AcceptedAscending(history, bucket);
    AcceptedAreAttempts(history, bucket, latest);
    RecentIsDeque(Accepted(history, bucket), Popped(deque, now - window), now, window);
  }

  /** The table accepts an attempt exactly when the whole history leaves room for it. */
  lemma DecisionIsSpec(table: Table, history: seq<Attempt>, latest: int, key: string, now: int, limit: nat, window: int)
    requires Refines(table, history, latest, limit, window) && now >= latest
    ensures After(table, key, now, limit, window).1 <==> Recent(history, BucketFor(table, key), now, window) < limit
  {
    var bucket := BucketFor(table, key);
    assert BucketOk(table, history, bucket, latest, limit, window);
    PoppedIsRecent(Deque(table, bucket), history, bucket, latest, now, window);
  }

  lemma SpecExtends(history: seq<Attempt>, next: Attempt, latest: int, limit: nat, window: int)
    requires Spec(history, limit, window) && NoLaterThan(history, latest) && next.at >= latest
    requires next.accepted <==> Recent(history, next.bucket, next.at, window) < limit
    ensures Spec(history + [next], limit, window) && NoLaterThan(history + [next], next.at)
  {
    var h := history + [next];
    forall i | 0 <= i < |h| ensures Fair(h, i, limit, window) {
      if i < |history| {
        assert Fair(history, i, limit, window) && h[..i] == history[..i];
      } else {
        assert h[..i] == history;
      }
    }
  }

  lemma KeepsLater(deque: seq<int>, times: seq<int>, before: int, cutoff: int)
    requires Keeps(deque, times, before) && before <= cutoff
    ensures Keeps(deque, times, cutoff)
  {
  }

  lemma KeepsSnoc(deque: seq<int>, times: seq<int>, cutoff: int, at: int)
    requires Keeps(deque, times, cutoff)
    ensures Keeps(deque + [at], times + [at], cutoff)
  {
    var n := |times| - |deque|;
    assert (times + [at])[n..] == times[n..] + [at];
  }

  lemma OwnBucketKept(deque: seq<int>, times: seq<int>, latest: int, now: int, limit: nat, window: int)
    requires Keeps(deque, times, latest - window) && |deque| <= limit && now >= latest
    ensures var d := Popped(deque, now - window);
      if |d| >= limit then Keeps(d, times, now - window) && |d| <= limit
      else Keeps(d + [now], times + [now], now - window) && |d + [now]| <= limit
  {
    PoppedKeeps(deque, times, latest - window, now - window);
    KeepsSnoc(Popped(deque, now - window), times, now - window, now);
  }

  /** The deques after an attempt: only its own bucket changed. */
  lemma AfterDeque(table: Table, key: string, now: int, limit: nat, window: int, b: string)
    ensures var (after, accepted) := After(table, key, now, limit, window);
      var d := Popped(Deque(table, b), now - window);
      if b != BucketFor(table, key) then Deque(after, b) == Deque(table, b)
      else accepted == (|d| < limit) && Deque(after, b) == if accepted then d + [now] else d
  {
  }

  lemma BucketsKept(table: Table, history: seq<Attempt>, latest: int, next: Attempt, limit: nat, window: int, b: string,
                    after: Table)
    requires BucketOk(table, history, b, latest, limit, window) && next.at >= latest
    requires var d := Popped(Deque(table, b), next.at - window);
      if b != next.bucket then Deque(after, b) == Deque(table, b)
      else next.accepted == (|d| < limit) && Deque(after, b) == if next.accepted then d + [next.at] else d
    ensures BucketOk(after, history + [next], b, next.at, limit, window)
  {
    AcceptedSnoc(history, next, b);
    if b == next.bucket {
      OwnBucketKept(Deque(table, b), Accepted(history, b), latest, next.at, limit, window);
    } else {
      KeepsLater(Deque(table, b), Accepted(history, b), latest - window, next.at - window);
    }
  }

  lemma TableBounded(table: Table, bucket: string, key: string, deque: seq<int>)
    requires Bounded(table) && bucket == BucketFor(table, key)
    ensures Bounded(table[bucket := deque])
  {
    assert table[bucket := deque].Keys == table.Keys + {bucket};
    assert |table.Keys| == |table| && |table[bucket := deque].Keys| == |table[bucket := deque]|;
  }

  /** One attempt keeps the refinement. */
  lemma AfterRefines(table: Table, history: seq<Attempt>, latest: int, key: string, now: int, limit: nat, window: int)
    requires Refines(table, history, latest, limit, window) && now >= latest
    ensures var (after, accepted) := After(table, key, now, limit, window);
      Refines(after, history + [Attempt(BucketFor(table, key), now, accepted)], now, limit, window)
  {
    var bucket := BucketFor(table, key);
    var (after, accepted) := After(table, key, now, limit, window);
    var next := Attempt(bucket, now, accepted);
    DecisionIsSpec(table, history, latest, key, now, limit, window);
    SpecExtends(history, next, latest, limit, window);
    TableBounded(table, bucket, key, after[bucket]);
    assert after == table[bucket := after[bucket]];
    var h := history + [next];
    forall b ensures BucketOk(after, h, b, now, limit, window) {
      assert BucketOk(table, history, b, latest, limit, window);
      AfterDeque(table, key, now, limit, window, b);
      BucketsKept(table, history, latest, next, limit, window, b, after);
    }
  }

  /******* Whole runs *******/

  datatype Request = Request(key: string, at: int)

  /** The table and the history after serving requests from the start. */
  function Serve(requests: seq<Request>, limit: nat, window: int): (Table, seq<Attempt>) {
    if requests == [] then (map[], [])
    else
      var (table, history) := Serve(requests[..|requests| - 1], limit, window);
      var r := requests[|requests| - 1];
      var (after, accepted) := After(table, r.key, r.at, limit, window);
      (after, history + [Attempt(BucketFor(table, r.key), r.at, accepted)])
  }

  lemma {:induction false} ServeRefines(requests: seq<Request>, limit: nat, window: int, latest: int)
    requires forall i, j :: 0 <= i <= j < |requests| ==> requests[i].at <= requests[j].at
    requires forall i :: 0 <= i < |requests| ==> requests[i].at <= latest
    requires requests != [] ==> requests[|requests| - 1].at == latest
    ensures var (table, history) := Serve(requests, limit, window); Refines(table, history, latest, limit, window)
    decreases |requests|
  {
    if requests != [] {
      var front := requests[..|requests| - 1];
      var before := if front == [] then latest else front[|front| - 1].at;
      ServeRefines(front, limit, window, before);
      var (table, history) := Serve(front, limit, window);
      AfterRefines(table, history, before, requests[|requests| - 1].key, latest, limit, window);
    }
  }

  /**
   For every run of requests on a clock that never runs backwards: each is accepted exactly when its
   bucket has room in the window behind it, no window holds more than the limit, every deque stays
   within the limit, and there are never more than 4097 buckets.
   */
  lemma LimiterMeetsSpec(requests: seq<Request>, limit: nat, window: int)
    requires forall i, j :: 0 <= i <= j < |requests| ==> requests[i].at <= requests[j].at
    ensures var (table, history) := Serve(requests, limit, window);
      && Spec(history, limit, window)
      && (forall bucket, start :: WindowHolds(history, bucket, start, window, limit))
      && (forall bucket :: bucket in table ==> |table[bucket]| <= limit)
      && |table| <= 4097
  {
    var latest := if requests == [] then 0 else requests[|requests| - 1].at;
    ServeRefines(requests, limit, window, latest);
    var (table, history) := Serve(requests, limit, window);
    forall bucket, start ensures WindowHolds(history, bucket, start, window, limit) {
      EveryWindowBounded(history, limit, window, bucket, start);
    }
    forall bucket | bucket in table ensures |table[bucket]| <= limit {
      assert BucketOk(table, history, bucket, latest, limit, window);
    }
  }

  /******* Which bucket counts a request *******/

  ghost function KeysOf(requests: seq<Request>): set<string> {
    set i | 0 <= i < |requests| :: requests[i].key
  }

  /** The key was met while fewer than 4096 keys had been: it is among the first 4096. */
  ghost predicate Early(requests: seq<Request>, key: string) {
    exists j :: 0 <= j < |requests| && requests[j].key == key && |KeysOf(requests[..j])| < 4096
  }

  lemma KeysSnoc(requests: seq<Request>)
    requires requests != []
    ensures var front, last := requests[..|requests| - 1], requests[|requests| - 1];
      && KeysOf(requests) == KeysOf(front) + {last.key}
      && |KeysOf(requests)| == |KeysOf(front)| + if last.key in KeysOf(front) then 0 else 1
  {
    var front, last := requests[..|requests| - 1], requests[|requests| - 1];
    forall k | k in KeysOf(front) + {last.key} ensures k in KeysOf(requests) {
      if k in KeysOf(front) {
        var i :| 0 <= i < |front| && front[i].key == k;
        assert requests[i].key == k;
      }
    }
    if last.key in KeysOf(front) { assert KeysOf(requests) == KeysOf(front); }
  }

  lemma EarlySnoc(requests: seq<Request>, key: string)
    requires requests != []
    ensures var front, last := requests[..|requests| - 1], requests[|requests| - 1];
      Early(requests, key) <==> Early(front, key) || (last.key == key && |KeysOf(front)| < MAX_KEYS)
  {
    var front := requests[..|requests| - 1];
    forall j | 0 <= j < |front| ensures requests[..j] == front[..j] && requests[j] == front[j] {
    }
    if Early(front, key) {
      var j :| 0 <= j < |front| && front[j].key == key && |KeysOf(front[..j])| < MAX_KEYS;
      assert requests[j].key == key && requests[..j] == front[..j];
    }
  }

  /** The buckets are the first 4096 keys, and the shared one once there were more. */
  ghost predicate Filed(table: Table, requests: seq<Request>) {
    && (|KeysOf(requests)| <= MAX_KEYS ==> table.Keys == KeysOf(requests))
    && (|KeysOf(requests)| >= MAX_KEYS ==> |table.Keys| >= MAX_KEYS)
    && forall k :: k in table <==> Early(requests, k) || (k == OVERFLOW && |KeysOf(requests)| > MAX_KEYS)
  }

  lemma FiledStep(table: Table, requests: seq<Request>, after: Table)
    requires requests != [] && Filed(table, requests[..|requests| - 1])
    requires after.Keys == table.Keys + {BucketFor(table, requests[|requests| - 1].key)}
    ensures Filed(after, requests)
  {
    var front, key := requests[..|requests| - 1], requests[|requests| - 1].key;
    KeysSnoc(requests);
    assert |table| == |table.Keys|;
    assert |KeysOf(front)| >= MAX_KEYS ==> |after.Keys| >= |table.Keys| by { SubsetSize(table.Keys, after.Keys); }
    forall k ensures k in after <==> Early(requests, k) || (k == OVERFLOW && |KeysOf(requests)| > MAX_KEYS) {
      EarlySnoc(requests, k);
      assert k in table <==> Early(front, k) || (k == OVERFLOW && |KeysOf(front)| > MAX_KEYS);
    }
  }

  lemma {:induction false} SubsetSize(a: set<string>, b: set<string>)
    requires a <= b
    ensures |a| <= |b|
  {
    assert b == a + (b - a);
  }

  lemma {:induction false} BucketsFiled(requests: seq<Request>, limit: nat, window: int)
    ensures Filed(Serve(requests, limit, window).0, requests)
    decreases |requests|
  {
    if requests == [] {
      assert KeysOf(requests) == {};
    } else {
      var front, r := requests[..|requests| - 1], requests[|requests| - 1];
      BucketsFiled(front, limit, window);
      var table := Serve(front, limit, window).0;
      FiledStep(table, requests, After(table, r.key, r.at, limit, window).0);
    }
  }

  /** A request is counted in a bucket of its own exactly when its key is among the first 4096; the rest share one. */
  lemma OwnBucketExactly(requests: seq<Request>, limit: nat, window: int)
    requires requests != []
    ensures var history := Serve(requests, limit, window).1;
      var last := requests[|requests| - 1];
      |history| > 0 && history[|history| - 1].at == last.at
        && history[|history| - 1].bucket == if Early(requests, last.key) then last.key else OVERFLOW
  {
    var front, key := requests[..|requests| - 1], requests[|requests| - 1].key;
    var table := Serve(front, limit, window).0;
    BucketsFiled(front, limit, window);
    EarlySnoc(requests, key);
    assert key in table <==> Early(front, key) || (key == OVERFLOW && |KeysOf(front)| > MAX_KEYS);
    assert |table| == |table.Keys|;
  }

  /******* Closed windows *******/

  /** How many of `times` lie in the closed window from `lo` to `hi`. */
  function Inside(times: seq<int>, lo: int, hi: int): nat {
    if times == [] then 0
    else Inside(times[..|times| - 1], lo, hi) + (if lo <= times[|times| - 1] <= hi then 1 else 0)
  }

  ghost predicate ClosedWindowHolds(history: seq<Attempt>, bucket: string, start: int, window: int, limit: nat) {
    Inside(Accepted(history, bucket), start, start + window) <= limit
  }

  /** Attempt `i`, if accepted, had room even counting what lies exactly at the far end of its window. */
  ghost predicate RoomAtEnd(history: seq<Attempt>, i: nat, limit: nat, window: int)
    requires i < |history|
  {
    history[i].accepted ==>
      Inside(Accepted(history[..i], history[i].bucket), history[i].at - window, history[i].at) < limit
  }

  ghost predicate AlwaysRoomAtEnd(history: seq<Attempt>, bucket: string, limit: nat, window: int) {
    forall i :: 0 <= i < |history| && history[i].bucket == bucket ==> RoomAtEnd(history, i, limit, window)
  }

  lemma {:induction false} InsideIsWithin(times: seq<int>, lo: int, hi: int)
    ensures Inside(times, lo, hi) == Within(times, lo - 1, hi)
  {
    if times != [] { InsideIsWithin(times[..|times| - 1], lo, hi); }
  }

  lemma ClosedStep(times: seq<int>, at: int, start: int, window: int, limit: nat)
    requires Inside(times, start, start + window) <= limit
    requires (forall i :: 0 <= i < |times| ==> times[i] <= at) && Inside(times, at - window, at) < limit
    ensures Inside(times + [at], start, start + window) <= limit
  {
    InsideIsWithin(times, start, start + window);
    InsideIsWithin(times, at - window, at);
    InsideIsWithin(times + [at], start, start + window);
    WindowStep(times, at, start - 1, window + 1, limit);
  }

  lemma RoomPrefix(history: seq<Attempt>, bucket: string, limit: nat, window: int)
    requires history != [] && AlwaysRoomAtEnd(history, bucket, limit, window)
    ensures AlwaysRoomAtEnd(history[..|history| - 1], bucket, limit, window)
  {
    var front := history[..|history| - 1];
    forall i | 0 <= i < |front| && front[i].bucket == bucket ensures RoomAtEnd(front, i, limit, window) {
      assert RoomAtEnd(history, i, limit, window) && front[..i] == history[..i];
    }
  }

  lemma RoomStep(front: seq<Attempt>, last: Attempt, limit: nat, window: int, bucket: string, start: int)
    requires ClosedWindowHolds(front, bucket, start, window, limit) && NoLaterThan(front, last.at)
    requires last.bucket == bucket && last.accepted ==>
      Inside(Accepted(front, bucket), last.at - window, last.at) < limit
    ensures ClosedWindowHolds(front + [last], bucket, start, window, limit)
  {
    AcceptedSnoc(front, last, bucket);
    if last.accepted && last.bucket == bucket {
      AcceptedAreAttempts(front, bucket, last.at);
      ClosedStep(Accepted(front, bucket), last.at, start, window, limit);
    }
  }

  lemma {:induction false} RoomBounds(history: seq<Attempt>, limit: nat, window: int, bucket: string, start: int)
    requires InTime(history) && AlwaysRoomAtEnd(history, bucket, limit, window)
    ensures ClosedWindowHolds(history, bucket, start, window, limit)
    decreases |history|
  {
    if history != [] {
      var front, last := history[..|history| - 1], history[|history| - 1];
      RoomPrefix(history, bucket, limit, window);
      RoomBounds(front, limit, window, bucket, start);
      assert last.bucket == bucket ==> RoomAtEnd(history, |history| - 1, limit, window);
      RoomStep(front, last, limit, window, bucket, start);
      assert history == front + [last];
    }
  }

  lemma {:induction false} PrefixInside(history: seq<Attempt>, n: nat, bucket: string, lo: int, hi: int)
    requires n <= |history|
    ensures Inside(Accepted(history[..n], bucket), lo, hi) <= Inside(Accepted(history, bucket), lo, hi)
    decreases |history|
  {
    if n == |history| {
      assert history[..n] == history;
    } else {
      var front := history[..|history| - 1];
      assert front[..n] == history[..n];
      PrefixInside(front, n, bucket, lo, hi);
      var times, last := Accepted(front, bucket), history[|history| - 1];
      assert last.accepted && last.bucket == bucket ==> (times + [last.at])[..|times|] == times;
    }
  }

  lemma BoundsRoom(history: seq<Attempt>, limit: nat, window: int, i: nat)
    requires Spec(history, limit, window) && i < |history|
    requires ClosedWindowHolds(history, history[i].bucket, history[i].at - window, window, limit)
    ensures RoomAtEnd(history, i, limit, window)
  {
    var a := history[i];
    if a.accepted {
      assert Fair(history, i, limit, window);
      var times := Accepted(history[..i], a.bucket);
      assert history[..i + 1] == history[..i] + [a];
      AcceptedSnoc(history[..i], a, a.bucket);
      PrefixInside(history, i + 1, a.bucket, a.at - window, a.at);
      assert (times + [a.at])[..|times|] == times;
      InsideIsWithin(times, a.at - window, a.at);
      if window < 0 { NothingWithin(times, a.at - window - 1, a.at); }
    }
  }

  lemma {:induction false} NothingWithin(times: seq<int>, lo: int, hi: int)
    requires hi <= lo
    ensures Within(times, lo, hi) == 0
  {
    if times != [] { NothingWithin(times[..|times| - 1], lo, hi); }
  }

  /**
   No closed window of a bucket holds more than the limit if and only if every accepted attempt had room with
   the far end of its window counted: the case in which popping what is exactly that old makes the difference.
   */
  lemma ClosedWindowsExactly(history: seq<Attempt>, limit: nat, window: int, bucket: string)
    requires Spec(history, limit, window)
    ensures (forall start :: ClosedWindowHolds(history, bucket, start, window, limit))
      <==> AlwaysRoomAtEnd(history, bucket, limit, window)
  {
    if AlwaysRoomAtEnd(history, bucket, limit, window) {
      forall start ensures ClosedWindowHolds(history, bucket, start, window, limit) {
        RoomBounds(history, limit, window, bucket, start);
      }
    }
    if forall start :: ClosedWindowHolds(history, bucket, start, window, limit) {
      forall i | 0 <= i < |history| && history[i].bucket == bucket ensures RoomAtEnd(history, i, limit, window) {
        assert ClosedWindowHolds(history, bucket, history[i].at - window, window, limit);
        BoundsRoom(history, limit, window, i);
      }
    }
  }

  lemma {:induction false} InsideConcat(a: seq<int>, b: seq<int>, lo: int, hi: int)
    ensures Inside(a + b, lo, hi) == Inside(a, lo, hi) + Inside(b, lo, hi)
    decreases |b|
  {
    if b == [] {
      assert a + b == a;
    } else {
      assert (a + b)[..|a + b| - 1] == a + b[..|b| - 1];
      InsideConcat(a, b[..|b| - 1], lo, hi);
    }
  }

  /** What is left after popping an ascending deque is what lies above the cutoff. */
  lemma {:induction false} PoppedCounts(deque: seq<int>, cutoff: int, hi: int)
    requires forall i, j :: 0 <= i <= j < |deque| ==> deque[i] <= deque[j]
    requires forall i :: 0 <= i < |deque| ==> deque[i] <= hi
    ensures |Popped(deque, cutoff)| == Inside(deque, cutoff + 1, hi)
    decreases |deque|
  {
    if deque != [] && deque[0] <= cutoff {
      PoppedCounts(deque[1..], cutoff, hi);
      assert deque == [deque[0]] + deque[1..] && [deque[0]][..0] == [];
      InsideConcat([deque[0]], deque[1..], cutoff + 1, hi);
    } else {
      InsideAll(deque, cutoff + 1, hi);
    }
  }

  lemma {:induction false} InsideEnd(times: seq<int>, lo: int, hi: int)
    requires lo <= hi && forall i :: 0 <= i < |times| ==> times[i] <= lo
    ensures Inside(times, lo, hi) == Inside(times, lo, lo)
  {
    if times != [] { InsideEnd(times[..|times| - 1], lo, hi); }
  }

  /** The accepted attempts of a bucket that its deque no longer holds. */
  function Dropped(table: Table, history: seq<Attempt>, bucket: string): seq<int>
    requires |Deque(table, bucket)| <= |Accepted(history, bucket)|
  {
    Accepted(history, bucket)[..|Accepted(history, bucket)| - |Deque(table, bucket)|]
  }

  lemma RoomCounts(dropped: seq<int>, deque: seq<int>, times: seq<int>, latest: int, now: int, window: int)
    requires times == dropped + deque && now >= latest
    requires forall i, j :: 0 <= i <= j < |times| ==> times[i] <= times[j]
    requires forall i :: 0 <= i < |times| ==> times[i] <= latest
    requires forall i :: 0 <= i < |dropped| ==> times[i] <= latest - window
    ensures |Popped(deque, now - window - 1)| + Inside(dropped, now - window, now - window)
         == Inside(times, now - window, now)
    ensures now > latest ==> Inside(dropped, now - window, now - window) == 0
  {
    assert forall i :: 0 <= i < |deque| ==> deque[i] == times[|dropped| + i];
    assert forall i :: 0 <= i < |dropped| ==> dropped[i] == times[i];
    PoppedCounts(deque, now - window - 1, now);
    InsideConcat(dropped, deque, now - window, now);
    if window >= 0 { InsideEnd(dropped, now - window, now); } else { InsideNone(dropped, now - window, now, latest); }
    if now > latest { InsideBelow(dropped, now - window, latest - window); }
  }

  lemma {:induction false} InsideBelow(times: seq<int>, lo: int, top: int)
    requires top < lo && forall i :: 0 <= i < |times| ==> times[i] <= top
    ensures Inside(times, lo, lo) == 0
  {
    if times != [] { InsideBelow(times[..|times| - 1], lo, top); }
  }

  lemma {:induction false} InsideNone(times: seq<int>, lo: int, hi: int, top: int)
    requires hi < lo && top <= hi && forall i :: 0 <= i < |times| ==> times[i] <= top
    ensures Inside(times, lo, hi) == 0 && Inside(times, lo, lo) == 0
  {
    if times != [] { InsideNone(times[..|times| - 1], lo, hi, top); }
  }

  /**
   The room counted with the far end, read off the bucket's deque before the call, popping only what is older still.
   The deque falls short by the attempts exactly at the far end that it has dropped. There are none if the clock has
   moved on since the last attempt; at an equal reading of the clock an earlier attempt may have popped them.
   */
  lemma RoomTest(table: Table, history: seq<Attempt>, latest: int, bucket: string, now: int, limit: nat, window: int)
    requires Refines(table, history, latest, limit, window) && now >= latest
    ensures |Deque(table, bucket)| <= |Accepted(history, bucket)|
    ensures |Popped(Deque(table, bucket), now - window - 1)|
          + Inside(Dropped(table, history, bucket), now - window, now - window)
         == Inside(Accepted(history, bucket), now - window, now)
    ensures now > latest ==> Inside(Dropped(table, history, bucket), now - window, now - window) == 0
  {
    assert BucketOk(table, history, bucket, latest, limit, window);
    AcceptedAscending(history, bucket);
    AcceptedAreAttempts(history, bucket, latest);
    RoomCounts(Dropped(table, history, bucket), Deque(table, bucket), Accepted(history, bucket), latest, now, window);
  }

  /** So many requests with one key at time zero. */
  function Burst(key: string, n: nat): seq<Request> {
    if n == 0 then [] else Burst(key, n - 1) + [Request(key, 0)]
  }

  lemma ServeNext(front: seq<Request>, r: Request, limit: nat, window: int)
    ensures var (table, history) := Serve(front, limit, window);
      var (after, accepted) := After(table, r.key, r.at, limit, window);
      Serve(front + [r], limit, window) == (after, history + [Attempt(BucketFor(table, r.key), r.at, accepted)])
  {
    assert (front + [r])[..|front|] == front;
  }

  /** At most one bucket, holding at most `n` attempts at time zero. */
  ghost predicate Zeros(table: Table, key: string, n: nat) {
    && table.Keys <= {key} && |Deque(table, key)| <= n
    && forall i :: 0 <= i < |Deque(table, key)| ==> Deque(table, key)[i] == 0
  }

  lemma ZerosNext(table: Table, key: string, n: nat, limit: nat, window: int)
    requires Zeros(table, key, n) && n < limit
    ensures BucketFor(table, key) == key
    ensures After(table, key, 0, limit, window).1 && Zeros(After(table, key, 0, limit, window).0, key, n + 1)
  {
    OneKey(table, key);
    PoppedZeros(Deque(table, key), 0 - window);
  }

  lemma ZerosExpire(table: Table, key: string, n: nat, limit: nat, window: int)
    requires Zeros(table, key, n) && limit > 0
    ensures BucketFor(table, key) == key && After(table, key, window, limit, window).1
  {
    OneKey(table, key);
    PoppedZeros(Deque(table, key), window - window);
  }

  function Repeat(n: nat): (r: seq<int>)
    ensures |r| == n && forall i :: 0 <= i < n ==> r[i] == 0
  {
    if n == 0 then [] else Repeat(n - 1) + [0]
  }

  lemma BurstStep(table: Table, history: seq<Attempt>, key: string, n: nat, limit: nat, window: int)
    requires Zeros(table, key, n) && n < limit && Accepted(history, key) == Repeat(n)
    ensures var (after, accepted) := After(table, key, 0, limit, window);
      Zeros(after, key, n + 1)
        && Accepted(history + [Attempt(BucketFor(table, key), 0, accepted)], key) == Repeat(n + 1)
  {
    ZerosNext(table, key, n, limit, window);
    AcceptedSnoc(history, Attempt(key, 0, true), key);
  }

  lemma {:induction false} BurstAccepted(key: string, n: nat, limit: nat, window: int)
    requires n <= limit
    ensures Zeros(Serve(Burst(key, n), limit, window).0, key, n)
    ensures Accepted(Serve(Burst(key, n), limit, window).1, key) == Repeat(n)
    decreases n
  {
    if n > 0 {
      BurstAccepted(key, n - 1, limit, window);
      var (table, history) := Serve(Burst(key, n - 1), limit, window);
      BurstStep(table, history, key, n - 1, limit, window);
      ServeNext(Burst(key, n - 1), Request(key, 0), limit, window);
    }
  }

  lemma OneKey(table: Table, key: string)
    requires table.Keys <= {key}
    ensures BucketFor(table, key) == key
  {
    assert |table.Keys| <= 1 by { assert table.Keys == {} || table.Keys == {key}; }
    assert |table| == |table.Keys|;
  }

  lemma {:induction false} PoppedZeros(deque: seq<int>, cutoff: int)
    requires forall i :: 0 <= i < |deque| ==> deque[i] == 0
    ensures |Popped(deque, cutoff)| <= |deque|
    ensures forall i :: 0 <= i < |Popped(deque, cutoff)| ==> Popped(deque, cutoff)[i] == 0
    ensures cutoff >= 0 ==> Popped(deque, cutoff) == []
  {
    if deque != [] && deque[0] <= cutoff { PoppedZeros(deque[1..], cutoff); }
  }

  lemma {:induction false} InsideAll(times: seq<int>, lo: int, hi: int)
    requires forall i :: 0 <= i < |times| ==> lo <= times[i] <= hi
    ensures Inside(times, lo, hi) == |times|
  {
    if times != [] { InsideAll(times[..|times| - 1], lo, hi); }
  }

  /**
   For every limit: that many requests at once and one more a window later are all accepted, one too many for the closed
   window.
   */
  lemma ClosedWindowOverflows(key: string, limit: nat, window: int)
    requires limit > 0 && window >= 0
    ensures var (table, history) := Serve(Burst(key, limit) + [Request(key, window)], limit, window);
      Inside(Accepted(history, key), 0, window) == limit + 1 && !ClosedWindowHolds(history, key, 0, window, limit)
  {
    BurstAccepted(key, limit, limit, window);
    var (table, history) := Serve(Burst(key, limit), limit, window);
    ServeNext(Burst(key, limit), Request(key, window), limit, window);
    ZerosExpire(table, key, limit, limit, window);
    AcceptedSnoc(history, Attempt(key, window, true), key);
    InsideAll(Accepted(history, key) + [window], 0, window);
  }
}
