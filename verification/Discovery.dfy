/** The background memory discovery sweep over one transcript, with concurrent sweepers and purges. */
module Discovery {
  import opened Common

  /** A turn; its identifier is its index in the transcript. */
  datatype Turn = Turn(sequence: nat, deleted: bool)

  datatype CursorRow = CursorRow(cursor: nat, updatedAt: int)

  datatype Chat = Chat(turns: seq<Turn>, nextSequence: nat, owner: bool, state: Option<CursorRow>)

  /** One bounded scan window, read under the cursor it was taken at. */
  datatype Scan = Scan(cursor: nat, window: seq<nat>, anchor: nat)

  function Cursor(chat: Chat): nat {
    if chat.state.Some? then chat.state.value.cursor else 0
  }

  /** Unscanned: live and above the cursor. */
  predicate Unscanned(turn: Turn, cursor: nat) {
    !turn.deleted && turn.sequence > cursor
  }

  predicate Eligible(chat: Chat) {
    chat.owner && exists i :: 0 <= i < |chat.turns| && Unscanned(chat.turns[i], Cursor(chat))
  }

  /** Sequences are handed out in increasing order and never beyond the transcript's counter. */
  ghost predicate TurnsOk(chat: Chat) {
    && (forall i, j :: 0 <= i < j < |chat.turns| ==> chat.turns[i].sequence < chat.turns[j].sequence)
    && (forall i :: 0 <= i < |chat.turns| ==> 0 < chat.turns[i].sequence <= chat.nextSequence)
  }

  /** The first `limit` unscanned turns of `turns`, in order. */
  function Window(turns: seq<Turn>, cursor: nat, limit: nat): (w: seq<nat>)
    ensures |w| <= limit
    ensures forall k :: 0 <= k < |w| ==> w[k] < |turns| && Unscanned(turns[w[k]], cursor)
    ensures forall j, k :: 0 <= j < k < |w| ==> w[j] < w[k]
    ensures forall i :: 0 <= i < |turns| && Unscanned(turns[i], cursor) ==>
      i in w || (|w| == limit && forall k :: 0 <= k < |w| ==> w[k] < i)
  {
    if turns == [] then []
    else
      var last := |turns| - 1;
      var rest := Window(turns[..last], cursor, limit);
      if Unscanned(turns[last], cursor) && |rest| < limit then rest + [last] else rest
  }

  function TakeScan(chat: Chat, limit: nat): Option<Scan> {
    var w := Window(chat.turns, Cursor(chat), limit);
    if w == [] then None else Some(Scan(Cursor(chat), w, chat.turns[w[|w| - 1]].sequence))
  }

  /** The state row that a sweep locks, created at cursor zero when missing. */
  function LockedState(chat: Chat, now: int): CursorRow {
    if chat.state.Some? then chat.state.value else CursorRow(0, now)
  }

  predicate WindowLive(chat: Chat, scan: Scan) {
    forall k :: 0 <= k < |scan.window| ==> scan.window[k] < |chat.turns| && !chat.turns[scan.window[k]].deleted
  }

  /** Compare-and-set: refuses when the cursor moved or a scanned turn was purged meanwhile. */
  predicate CanAdvance(chat: Chat, scan: Scan) {
    Cursor(chat) == scan.cursor && WindowLive(chat, scan)
  }

  function Advance(chat: Chat, scan: Scan, now: int): Chat {
    chat.(state := Some(if CanAdvance(chat, scan) then CursorRow(scan.anchor, now) else LockedState(chat, now)))
  }

  function Touch(chat: Chat, now: int): Chat {
    chat.(state := Some(LockedState(chat, now).(updatedAt := now)))
  }

  /******* Interleavings *******/

  datatype World = World(chat: Chat, scans: map<nat, Scan>, completed: seq<Scan>)

  datatype Step =
    | Append
    | Purge(turns: set<nat>)
    | Rewind(to: nat, now: int)
    | DeleteChat
    | BeginScan(worker: nat, limit: nat)
    | TryAdvance(worker: nat, now: int)
    | Attempted(now: int)
    | Crash(worker: nat)

  function Next(w: World, step: Step): World {
    match step
    case Append =>
      w.(chat := w.chat.(turns := w.chat.turns + [Turn(w.chat.nextSequence + 1, false)],
                         nextSequence := w.chat.nextSequence + 1))
    case Purge(ids) =>
      w.(chat := w.chat.(turns := seq(|w.chat.turns|, i requires 0 <= i < |w.chat.turns| =>
        w.chat.turns[i].(deleted := w.chat.turns[i].deleted || i in ids))))
    case Rewind(to, now) =>
      if w.chat.state.Some? && to <= w.chat.state.value.cursor
      then w.(chat := w.chat.(state := Some(CursorRow(to, now)))) else w
    case DeleteChat =>
      var turns := seq(|w.chat.turns|, i requires 0 <= i < |w.chat.turns| => w.chat.turns[i].(deleted := true));
      w.(chat := w.chat.(owner := false, state := None, turns := turns))
    case BeginScan(worker, limit) =>
      (match TakeScan(w.chat, limit)
       case Some(scan) => w.(scans := w.scans[worker := scan])
       case None => w)
    case TryAdvance(worker, now) =>
      if worker in w.scans then
        var scan := w.scans[worker];
        World(Advance(w.chat, scan, now), w.scans - {worker},
              if CanAdvance(w.chat, scan) then w.completed + [scan] else w.completed)
      else w
    case Attempted(now) => w.(chat := Touch(w.chat, now))
    case Crash(worker) => w.(scans := w.scans - {worker})
  }

  function Run(w: World, steps: seq<Step>): World
    decreases |steps|
  {
    if steps == [] then w else Run(Next(w, steps[0]), steps[1..])
  }

  const Start := World(Chat([], 0, true, None), map[], [])

  /** The window's turns come in order, all of them above the cursor, and the anchor is the greatest of them. */
  ghost predicate Anchored(turns: seq<Turn>, scan: Scan) {
    && (forall k :: 0 <= k < |scan.window| ==>
          scan.window[k] < |turns| && scan.cursor < turns[scan.window[k]].sequence <= scan.anchor)
    && (forall j, k :: 0 <= j < k < |scan.window| ==> scan.window[j] < scan.window[k])
    && (exists k :: 0 <= k < |scan.window| && turns[scan.window[k]].sequence == scan.anchor)
  }

  /** Every still-live turn the scan claims to have passed is in its window. */
  ghost predicate ScanOk(chat: Chat, scan: Scan) {
    && scan.cursor < scan.anchor <= chat.nextSequence
    && (forall i :: 0 <= i < |chat.turns| && !chat.turns[i].deleted ==>
          scan.cursor < chat.turns[i].sequence <= scan.anchor ==> i in scan.window)
  }

  ghost predicate Seen(completed: seq<Scan>, i: nat) {
    exists k :: 0 <= k < |completed| && i in completed[k].window
  }

  /** No live turn at or below the cursor was skipped. */
  ghost predicate NothingSkipped(chat: Chat, completed: seq<Scan>) {
    forall i :: 0 <= i < |chat.turns| && !chat.turns[i].deleted && chat.turns[i].sequence <= Cursor(chat) ==>
      Seen(completed, i)
  }

  ghost predicate Inv(w: World) {
    && TurnsOk(w.chat)
    && Cursor(w.chat) <= w.chat.nextSequence
    && (forall q :: q in w.scans ==> ScanOk(w.chat, w.scans[q]))
    && NothingSkipped(w.chat, w.completed)
  }

  /** A snapshot skips no live turn up to its anchor, whatever the window limit cut off. */
  lemma TakeScanOk(chat: Chat, limit: nat)
    requires TurnsOk(chat) && TakeScan(chat, limit).Some?
    ensures ScanOk(chat, TakeScan(chat, limit).value)
  {
    var scan := TakeScan(chat, limit).value;
    var w := scan.window;
    assert Unscanned(chat.turns[w[|w| - 1]], scan.cursor);
    forall i | 0 <= i < |chat.turns| && scan.cursor < chat.turns[i].sequence <= scan.anchor && !chat.turns[i].deleted
      ensures i in w
    {
      assert Unscanned(chat.turns[i], scan.cursor);
      assert i <= w[|w| - 1];
    }
  }

  lemma SeenKept(x: seq<Scan>, scan: Scan, i: nat)
    ensures Seen(x, i) ==> Seen(x + [scan], i)
    ensures i in scan.window ==> Seen(x + [scan], i)
  {
    if Seen(x, i) {
      var k :| 0 <= k < |x| && i in x[k].window;
      assert i in (x + [scan])[k].window;
    }
    assert (x + [scan])[|x|] == scan;
  }

  lemma AdvanceKeeps(w: World, worker: nat, now: int)
    requires Inv(w) && worker in w.scans
    ensures Inv(Next(w, TryAdvance(worker, now)))
  {
    var scan := w.scans[worker];
    var v := Next(w, TryAdvance(worker, now));
    if CanAdvance(w.chat, scan) {
      forall i | 0 <= i < |v.chat.turns| && !v.chat.turns[i].deleted && v.chat.turns[i].sequence <= Cursor(v.chat)
        ensures Seen(v.completed, i)
      {
        SeenKept(w.completed, scan, i);
        if v.chat.turns[i].sequence > scan.cursor {
          assert i in scan.window;
        }
      }
    }
  }

  /** Deleting turns, or appending above every scan's anchor, keeps scans and coverage. */
  lemma TurnsChangeKeeps(w: World, turns: seq<Turn>, next: nat)
    requires Inv(w) && |w.chat.turns| <= |turns| && w.chat.nextSequence <= next
    requires forall i :: 0 <= i < |w.chat.turns| ==>
      turns[i].sequence == w.chat.turns[i].sequence && (w.chat.turns[i].deleted ==> turns[i].deleted)
    requires forall i :: |w.chat.turns| <= i < |turns| ==> turns[i].sequence > w.chat.nextSequence
    requires TurnsOk(w.chat.(turns := turns, nextSequence := next))
    ensures Inv(w.(chat := w.chat.(turns := turns, nextSequence := next)))
  {
    var chat := w.chat.(turns := turns, nextSequence := next);
    forall q | q in w.scans ensures ScanOk(chat, w.scans[q]) {
      assert ScanOk(w.chat, w.scans[q]);
    }
  }

  lemma AnchoredKept(x: seq<Turn>, y: seq<Turn>, scan: Scan)
    requires Anchored(x, scan) && SequencesKept(x, y)
    ensures Anchored(y, scan)
  {
    var k :| 0 <= k < |scan.window| && x[scan.window[k]].sequence == scan.anchor;
    assert y[scan.window[k]].sequence == scan.anchor;
  }

  lemma DeleteChatKeeps(w: World)
    requires Inv(w)
    ensures Inv(Next(w, DeleteChat))
  {
    TurnsChangeKeeps(w, Next(w, DeleteChat).chat.turns, w.chat.nextSequence);
  }

  lemma RewindKeeps(w: World, to: nat, now: int)
    requires Inv(w)
    ensures Inv(Next(w, Rewind(to, now)))
  {
    var v := Next(w, Rewind(to, now));
    forall q | q in v.scans ensures ScanOk(v.chat, v.scans[q]) {
      assert ScanOk(w.chat, w.scans[q]);
    }
  }

  lemma AppendKeeps(w: World)
    requires Inv(w)
    ensures Inv(Next(w, Append))
  {
    TurnsChangeKeeps(w, Next(w, Append).chat.turns, w.chat.nextSequence + 1);
  }

  lemma PurgeKeeps(w: World, ids: set<nat>)
    requires Inv(w)
    ensures Inv(Next(w, Purge(ids)))
  {
    TurnsChangeKeeps(w, Next(w, Purge(ids)).chat.turns, w.chat.nextSequence);
  }

  lemma BeginScanKeeps(w: World, worker: nat, limit: nat)
    requires Inv(w)
    ensures Inv(Next(w, BeginScan(worker, limit)))
  {
    if TakeScan(w.chat, limit).Some? { TakeScanOk(w.chat, limit); }
  }

  lemma AttemptedKeeps(w: World, now: int)
    requires Inv(w)
    ensures Inv(Next(w, Attempted(now)))
  {
    var v := Next(w, Attempted(now));
    forall q | q in v.scans ensures ScanOk(v.chat, v.scans[q]) {
      assert ScanOk(w.chat, w.scans[q]);
    }
  }

  lemma NextKeepsInv(w: World, step: Step)
    requires Inv(w)
    ensures Inv(Next(w, step))
  {
    match step
    case Append => AppendKeeps(w);
    case Purge(ids) => PurgeKeeps(w, ids);
    case Rewind(to, now) => RewindKeeps(w, to, now);
    case DeleteChat => DeleteChatKeeps(w);
    case BeginScan(worker, limit) => BeginScanKeeps(w, worker, limit);
    case TryAdvance(worker, now) => if worker in w.scans { AdvanceKeeps(w, worker, now); }
    case Attempted(now) => AttemptedKeeps(w, now);
    case Crash(worker) =>
  }

  lemma {:induction false} RunKeepsInv(w: World, steps: seq<Step>)
    requires Inv(w)
    ensures Inv(Run(w, steps))
    decreases |steps|
  {
    if steps != [] {
      NextKeepsInv(w, steps[0]);
      RunKeepsInv(Next(w, steps[0]), steps[1..]);
    }
  }

  /**
   Under concurrent sweeps, appends, purges, rewinds, chat deletion and crashes, every still-live
   turn at or below the cursor was in the window of some completed scan.
   */
  lemma NoLiveTurnSkipped(steps: seq<Step>, i: nat)
    requires var w := Run(Start, steps);
      i < |w.chat.turns| && !w.chat.turns[i].deleted && w.chat.turns[i].sequence <= Cursor(w.chat)
    ensures Seen(Run(Start, steps).completed, i)
  {
    RunKeepsInv(Start, steps);
  }

  /******* What an advance leaves to do *******/

  /** The turns still to scan: live, and above the cursor. */
  ghost function Remaining(turns: seq<Turn>, cursor: nat): set<nat> {
    set i: nat | i < |turns| && Unscanned(turns[i], cursor)
  }

  ghost function Indices(w: seq<nat>): set<nat> {
    set i | i in w
  }

  lemma {:induction false} IncreasingSize(w: seq<nat>)
    requires forall j, k :: 0 <= j < k < |w| ==> w[j] < w[k]
    ensures |Indices(w)| == |w|
  {
    if w != [] {
      var front, last := w[..|w| - 1], w[|w| - 1];
      IncreasingSize(front);
      assert w == front + [last] && last !in front;
      assert Indices(w) == Indices(front) + {last};
    }
  }

  lemma ScannedRemain(chat: Chat, scan: Scan, i: nat)
    requires Anchored(chat.turns, scan) && CanAdvance(chat, scan) && i in scan.window
    ensures i in Remaining(chat.turns, Cursor(chat)) && chat.turns[i].sequence <= scan.anchor
  {
    var k :| 0 <= k < |scan.window| && scan.window[k] == i;
  }

  /** A successful advance takes exactly the window off what remains, and leaves the cursor at its greatest sequence. */
  lemma AdvanceConsumes(chat: Chat, scan: Scan, now: int)
    requires ScanOk(chat, scan) && Anchored(chat.turns, scan) && CanAdvance(chat, scan)
    ensures var after := Advance(chat, scan, now);
      && (forall k :: 0 <= k < |scan.window| ==> after.turns[scan.window[k]].sequence <= Cursor(after))
      && (exists k :: 0 <= k < |scan.window| && after.turns[scan.window[k]].sequence == Cursor(after))
    ensures Indices(scan.window) <= Remaining(chat.turns, Cursor(chat)) && |Indices(scan.window)| == |scan.window|
    ensures var after := Advance(chat, scan, now);
      Remaining(after.turns, Cursor(after)) == Remaining(chat.turns, Cursor(chat)) - Indices(scan.window)
  {
    IncreasingSize(scan.window);
    forall i | i in scan.window
      ensures i in Remaining(chat.turns, Cursor(chat)) && chat.turns[i].sequence <= scan.anchor
    {
      ScannedRemain(chat, scan, i);
    }
  }

  /** A window holds everything that remains, or as much as it may. */
  lemma WindowSize(chat: Chat, limit: nat)
    requires TakeScan(chat, limit).Some?
    ensures var n := |Remaining(chat.turns, Cursor(chat))|;
      |TakeScan(chat, limit).value.window| == if n <= limit then n else limit
  {
    var w := TakeScan(chat, limit).value.window;
    var rest := Remaining(chat.turns, Cursor(chat));
    IncreasingSize(w);
    assert Indices(w) <= rest;
    SizeWithin(Indices(w), rest);
    if |w| < limit { assert Indices(w) == rest; }
  }

  /** The snapshot's anchor is its last turn. */
  lemma TakeScanAnchored(chat: Chat, limit: nat)
    requires TurnsOk(chat) && TakeScan(chat, limit).Some?
    ensures Anchored(chat.turns, TakeScan(chat, limit).value)
  {
    var scan := TakeScan(chat, limit).value;
    var w, last := scan.window, |scan.window| - 1;
    forall k | 0 <= k < |w| ensures scan.cursor < chat.turns[w[k]].sequence <= scan.anchor {
      assert Unscanned(chat.turns[w[k]], scan.cursor);
      assert k < last ==> w[k] < w[last];
    }
    assert chat.turns[w[last]].sequence == scan.anchor;
  }

  ghost predicate AllAnchored(w: World) {
    forall q :: q in w.scans ==> Anchored(w.chat.turns, w.scans[q])
  }

  ghost predicate SequencesKept(x: seq<Turn>, y: seq<Turn>) {
    |x| <= |y| && forall i :: 0 <= i < |x| ==> y[i].sequence == x[i].sequence
  }

  lemma NextSequences(w: World, step: Step)
    ensures SequencesKept(w.chat.turns, Next(w, step).chat.turns)
  {
  }

  lemma NextScans(w: World, step: Step, q: nat)
    requires q in Next(w, step).scans
    ensures (q in w.scans && Next(w, step).scans[q] == w.scans[q])
         || (step.BeginScan? && TakeScan(w.chat, step.limit) == Some(Next(w, step).scans[q])
             && Next(w, step).chat == w.chat)
  {
  }

  lemma NextAnchored(w: World, step: Step)
    requires TurnsOk(w.chat) && AllAnchored(w)
    ensures AllAnchored(Next(w, step))
  {
    var v := Next(w, step);
    NextSequences(w, step);
    forall q | q in v.scans ensures Anchored(v.chat.turns, v.scans[q]) {
      NextScans(w, step, q);
      if q in w.scans && v.scans[q] == w.scans[q] {
        AnchoredKept(w.chat.turns, v.chat.turns, w.scans[q]);
      } else {
        TakeScanAnchored(w.chat, step.limit);
      }
    }
  }

  lemma {:induction false} RunAnchored(w: World, steps: seq<Step>)
    requires Inv(w) && AllAnchored(w)
    ensures AllAnchored(Run(w, steps))
    decreases |steps|
  {
    if steps != [] {
      NextKeepsInv(w, steps[0]);
      NextAnchored(w, steps[0]);
      RunAnchored(Next(w, steps[0]), steps[1..]);
    }
  }

  lemma {:induction false} SizeWithin(a: set<nat>, b: set<nat>)
    requires a <= b
    ensures |a| <= |b| && (|a| == |b| ==> a == b)
    decreases a
  {
    if a != {} {
      var x :| x in a;
      SizeWithin(a - {x}, b - {x});
      assert a == a - {x} + {x} && b == b - {x} + {x};
    } else if b != {} {
      var x :| x in b;
      assert |b| > 0;
    }
  }

  /**
   Every successful advance strictly raises the cursor, completes exactly one more scan, and takes exactly that scan's
   window off what remains.
   */
  lemma AdvanceRaises(steps: seq<Step>, worker: nat, now: int)
    requires var w := Run(Start, steps); worker in w.scans && CanAdvance(w.chat, w.scans[worker])
    ensures var w := Run(Start, steps);
      var v := Next(w, TryAdvance(worker, now));
      && Cursor(v.chat) > Cursor(w.chat) && v.completed == w.completed + [w.scans[worker]]
      && Remaining(v.chat.turns, Cursor(v.chat))
         == Remaining(w.chat.turns, Cursor(w.chat)) - Indices(w.scans[worker].window)
  {
    RunKeepsInv(Start, steps);
    RunAnchored(Start, steps);
    assert ScanOk(Run(Start, steps).chat, Run(Start, steps).scans[worker]);
    AdvanceConsumes(Run(Start, steps).chat, Run(Start, steps).scans[worker], now);
  }

  /** Of two sweepers that read the same cursor, at most one advance takes effect. */
  lemma LoserIsRefused(w: World, p: nat, q: nat, t: int, u: int)
    requires Inv(w) && p != q && p in w.scans && q in w.scans
    requires w.scans[p].cursor == w.scans[q].cursor && CanAdvance(w.chat, w.scans[p])
    ensures var v := Next(w, TryAdvance(p, t));
      q in v.scans && !CanAdvance(v.chat, v.scans[q]) && Next(v, TryAdvance(q, u)).completed == v.completed
  {
    assert ScanOk(w.chat, w.scans[p]);
  }
}
