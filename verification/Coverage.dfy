/** The coverage report over one transcript, and what it truthfully says about the index. */
module Coverage {
  import opened Common
  import opened TranscriptIndex
  import opened IndexRuns

  datatype Gap = Gap(start: int, end: int)

  datatype Report = Report(
    canonicalStart: Option<int>, canonicalEnd: Option<int>, turns: nat,
    indexedThrough: nat,
    requestedStart: Option<int>, requestedEnd: Option<int>,
    rangeIndexed: bool, boundaryComplete: bool,
    gaps: seq<Gap>, straddling: seq<Chunk>)

  /** Only whole chunks strictly before the boundary are searchable. */
  predicate Searchable(chunk: Chunk, before: Option<int>) {
    chunk.rows != [] && (before.Some? ==> chunk.End() < before.value)
  }

  predicate Straddles(chunk: Chunk, before: int) {
    chunk.rows != [] && chunk.Start() < before && chunk.End() >= before
  }

  function StraddlingChunks(chunks: seq<Chunk>, before: int): (s: seq<Chunk>)
    ensures forall k :: 0 <= k < |s| ==> s[k] in chunks && Straddles(s[k], before)
    ensures forall k :: 0 <= k < |chunks| && Straddles(chunks[k], before) ==> chunks[k] in s
  {
    if chunks == [] then []
    else (if Straddles(chunks[0], before) then [chunks[0]] else []) + StraddlingChunks(chunks[1..], before)
  }

  const STRADDLING_CAP := 10

  function FirstStraddling(chunks: seq<Chunk>, before: int): seq<Chunk> {
    var all := StraddlingChunks(chunks, before);
    if |all| > STRADDLING_CAP then all[..STRADDLING_CAP] else all
  }

  /** The report's branches in source order. */
  method Cover(b: Book, before: Option<int>) returns (r: Report)
    ensures r == ReportOf(b, before)
    ensures forall maxChars :: IndexOk(b, maxChars) ==> Truthful(b, before, r)
  {
    var canonicalStart: Option<int> := None;
    var canonicalEnd: Option<int> := None;
    if b.turns != [] {
      canonicalStart := Some(b.turns[0].sequence);
      canonicalEnd := Some(b.turns[|b.turns| - 1].sequence);
    }
    var requestedStart, requestedEnd := canonicalStart, canonicalEnd;
    if before.Some? && requestedStart.Some? {
      if requestedStart.value >= before.value {
        requestedStart, requestedEnd := None, None;
      } else if requestedEnd.Some? {
        requestedEnd := Some(Min(requestedEnd.value, before.value - 1));
      }
    }
    var indexed := requestedEnd.None? || b.index.cursor >= requestedEnd.value;
    var gaps: seq<Gap> := [];
    if requestedEnd.Some? && canonicalStart.Some? && b.index.cursor < requestedEnd.value {
      gaps := gaps + [Gap(Max(canonicalStart.value, b.index.cursor + 1), requestedEnd.value)];
    }
    var boundary := [];
    if before.Some? { boundary := FirstStraddling(b.index.chunks, before.value); }
    r := Report(canonicalStart, canonicalEnd, |b.turns|, b.index.cursor, requestedStart, requestedEnd,
                indexed, indexed && boundary == [], gaps, boundary);
    assert r == ReportOf(b, before);
    AlwaysTruthful(b, before);
  }

  /** The report in closed form. */
  function ReportOf(b: Book, before: Option<int>): Report {
    var start: Option<int> := if b.turns == [] then None else Some(b.turns[0].sequence);
    var end: Option<int> := if b.turns == [] then None else Some(b.turns[|b.turns| - 1].sequence);
    var hidden := start.Some? && before.Some? && start.value >= before.value;
    var from := if hidden then None else start;
    var to := if hidden || end.None? then None
              else Some(if before.Some? then Min(end.value, before.value - 1) else end.value);
    var indexed := to.None? || b.index.cursor >= to.value;
    var shown := if before.Some? then FirstStraddling(b.index.chunks, before.value) else [];
    Report(start, end, |b.turns|, b.index.cursor, from, to, indexed, indexed && shown == [],
           if indexed then [] else [Gap(Max(start.value, b.index.cursor + 1), to.value)], shown)
  }

  /** A sequence number is inside the requested range. */
  predicate Requested(r: Report, s: int) {
    r.requestedStart.Some? && r.requestedEnd.Some? && r.requestedStart.value <= s <= r.requestedEnd.value
  }

  predicate InGaps(r: Report, s: int) {
    exists g :: 0 <= g < |r.gaps| && r.gaps[g].start <= s <= r.gaps[g].end
  }

  /** The reported gaps are exactly the requested range minus the indexed range. */
  lemma GapsAreExact(b: Book, before: Option<int>, maxChars: nat, s: int)
    requires IndexOk(b, maxChars)
    ensures var r := ReportOf(b, before); InGaps(r, s) <==> Requested(r, s) && s > r.indexedThrough
  {
    var r := ReportOf(b, before);
    if !r.rangeIndexed {
      assert r.gaps[0] == Gap(Max(r.canonicalStart.value, b.index.cursor + 1), r.requestedEnd.value);
    }
  }

  /** Every turn before the boundary is in the requested range. */
  lemma TurnsRequested(b: Book, before: Option<int>, maxChars: nat, i: nat)
    requires IndexOk(b, maxChars) && i < |b.turns|
    ensures before.None? || b.turns[i].sequence < before.value <==> Requested(ReportOf(b, before), b.turns[i].sequence)
  {
    assert b.turns[0].sequence <= b.turns[i].sequence <= b.turns[|b.turns| - 1].sequence;
  }

  /** At most one chunk straddles any boundary, so the cap of ten hides nothing. */
  lemma OneStraddles(b: Book, before: int, maxChars: nat)
    requires IndexOk(b, maxChars)
    ensures |StraddlingChunks(b.index.chunks, before)| <= 1
    ensures ReportOf(b, Some(before)).straddling == StraddlingChunks(b.index.chunks, before)
  {
    IndexOrdered(b, maxChars);
    StraddlingAtMostOne(b.index.chunks, before);
  }

  lemma {:induction false} StraddlingAtMostOne(chunks: seq<Chunk>, before: int)
    requires Ordered(chunks)
    ensures |StraddlingChunks(chunks, before)| <= 1
    decreases |chunks|
  {
    if chunks != [] {
      var rest := chunks[1..];
      assert forall k :: 0 <= k < |rest| ==> rest[k] == chunks[k + 1];
      StraddlingAtMostOne(rest, before);
      if Straddles(chunks[0], before) {
        forall k | 0 <= k < |rest| ensures !Straddles(rest[k], before) {
          assert chunks[0].End() < chunks[k + 1].Start();
        }
        NoneStraddles(rest, before);
      }
    }
  }

  lemma {:induction false} NoneStraddles(chunks: seq<Chunk>, before: int)
    requires forall k :: 0 <= k < |chunks| ==> !Straddles(chunks[k], before)
    ensures StraddlingChunks(chunks, before) == []
    decreases |chunks|
  {
    if chunks != [] { NoneStraddles(chunks[1..], before); }
  }

  /** Turn `i` lies in a chunk that a search up to the boundary can return. */
  ghost predicate Reachable(b: Book, before: Option<int>, i: nat)
    requires i < |b.turns|
  {
    exists k :: 0 <= k < |b.index.chunks| && Searchable(b.index.chunks[k], before)
      && b.turns[i] in b.index.chunks[k].rows
  }

  ghost predicate AllReachable(b: Book, before: Option<int>) {
    forall i :: 0 <= i < |b.turns| && b.turns[i].text != "" && (before.None? || b.turns[i].sequence < before.value) ==>
      Reachable(b, before, i)
  }

  lemma CompleteMeansReachable(b: Book, before: Option<int>, maxChars: nat)
    requires IndexOk(b, maxChars) && ReportOf(b, before).boundaryComplete
    ensures AllReachable(b, before)
  {
    forall i | 0 <= i < |b.turns| && b.turns[i].text != "" && (before.None? || b.turns[i].sequence < before.value)
      ensures Reachable(b, before, i)
    {
      TurnsRequested(b, before, maxChars, i);
      var k := InExactlyOneChunk(b, maxChars, i);
      RowsWithin(b, maxChars, k, b.turns[i]);
      if before.Some? {
        OneStraddles(b, before.value, maxChars);
        assert !Straddles(b.index.chunks[k], before.value);
      }
      assert Searchable(b.index.chunks[k], before);
    }
  }

  lemma StraddlingHidesATurn(b: Book, before: int, maxChars: nat, k: nat)
    requires IndexOk(b, maxChars) && k < |b.index.chunks| && Straddles(b.index.chunks[k], before)
    ensures !AllReachable(b, Some(before))
  {
    var row := b.index.chunks[k].rows[0];
    assert Groups(b.index.chunks)[k][0] == row;
    FlattenMember(Groups(b.index.chunks), k, 0);
    KeptMembers(b.turns, b.index.cursor);
    var i: nat :| i < |b.turns| && b.turns[i] == row;
    var at := InExactlyOneChunk(b, maxChars, i);
    assert at == k;
    assert !Reachable(b, Some(before), i);
  }

  /**
   Given that the requested range is indexed, the report says the boundary is complete if and only
   if every turn with text before the boundary lies in a searchable chunk.
   */
  lemma BoundaryCompleteExactly(b: Book, before: Option<int>, maxChars: nat)
    requires IndexOk(b, maxChars) && ReportOf(b, before).rangeIndexed
    ensures ReportOf(b, before).boundaryComplete <==> AllReachable(b, before)
  {
    var r := ReportOf(b, before);
    if r.boundaryComplete {
      CompleteMeansReachable(b, before, maxChars);
    } else {
      OneStraddles(b, before.value, maxChars);
      var chunk := r.straddling[0];
      var k :| 0 <= k < |b.index.chunks| && b.index.chunks[k] == chunk;
      StraddlingHidesATurn(b, before.value, maxChars, k);
    }
  }

  /** The least and the greatest sequence of the transcript, or nothing if it is empty. */
  ghost predicate Bounds(turns: seq<Turn>, start: Option<int>, end: Option<int>) {
    && (turns == [] <==> start.None?) && (turns == [] <==> end.None?)
    && (turns != [] ==>
          && (forall i :: 0 <= i < |turns| ==> start.value <= turns[i].sequence <= end.value)
          && (exists i :: 0 <= i < |turns| && turns[i].sequence == start.value)
          && (exists i :: 0 <= i < |turns| && turns[i].sequence == end.value))
  }

  /** What a report says, in terms of the transcript and its index alone. */
  ghost predicate Truthful(b: Book, before: Option<int>, r: Report) {
    && Bounds(b.turns, r.canonicalStart, r.canonicalEnd) && r.turns == |b.turns| && r.indexedThrough == b.index.cursor
    && (forall s :: Requested(r, s) <==>
          && r.canonicalStart.Some? && r.canonicalStart.value <= s <= r.canonicalEnd.value
          && (before.None? || s < before.value))
    && (r.rangeIndexed <==> forall s :: Requested(r, s) ==> s <= r.indexedThrough)
    && (r.gaps == [] <==> r.rangeIndexed)
    && (forall g :: 0 <= g < |r.gaps| ==> r.gaps[g].start <= r.gaps[g].end)
    && (forall s :: InGaps(r, s) <==> Requested(r, s) && s > r.indexedThrough)
    && (r.boundaryComplete <==> r.rangeIndexed && AllReachable(b, before))
    && (forall k :: 0 <= k < |b.index.chunks| ==>
          (b.index.chunks[k] in r.straddling <==> before.Some? && Straddles(b.index.chunks[k], before.value)))
  }

  lemma ReportBounds(b: Book, before: Option<int>)
    requires TurnsOk(b.turns, b.next)
    ensures var r := ReportOf(b, before); Bounds(b.turns, r.canonicalStart, r.canonicalEnd)
  {
    if b.turns != [] {
      var last := |b.turns| - 1;
      forall i | 0 <= i < |b.turns| ensures b.turns[0].sequence <= b.turns[i].sequence <= b.turns[last].sequence {
      }
      assert b.turns[0].sequence == b.turns[0].sequence && b.turns[last].sequence == b.turns[last].sequence;
    }
  }

  lemma ReportRange(b: Book, before: Option<int>)
    requires TurnsOk(b.turns, b.next)
    ensures var r := ReportOf(b, before);
      && (forall s :: Requested(r, s) <==>
            && r.canonicalStart.Some? && r.canonicalStart.value <= s <= r.canonicalEnd.value
            && (before.None? || s < before.value))
      && (r.rangeIndexed <==> forall s :: Requested(r, s) ==> s <= r.indexedThrough)
      && (r.gaps == [] <==> r.rangeIndexed)
      && (forall g :: 0 <= g < |r.gaps| ==> r.gaps[g].start <= r.gaps[g].end)
  {
    var r := ReportOf(b, before);
    if b.turns != [] { assert b.turns[0].sequence <= b.turns[|b.turns| - 1].sequence; }
    if !r.rangeIndexed { assert Requested(r, r.requestedEnd.value); }
  }

  /** Every report on a faithful index is truthful. */
  lemma ReportIsTruthful(b: Book, before: Option<int>, maxChars: nat)
    requires IndexOk(b, maxChars)
    ensures Truthful(b, before, ReportOf(b, before))
  {
    var r := ReportOf(b, before);
    ReportBounds(b, before);
    ReportRange(b, before);
    forall s ensures InGaps(r, s) <==> Requested(r, s) && s > r.indexedThrough { GapsAreExact(b, before, maxChars, s); }
    if before.Some? { OneStraddles(b, before.value, maxChars); }
    if r.rangeIndexed { BoundaryCompleteExactly(b, before, maxChars); }
  }

  lemma AlwaysTruthful(b: Book, before: Option<int>)
    ensures forall maxChars :: IndexOk(b, maxChars) ==> Truthful(b, before, ReportOf(b, before))
  {
    forall maxChars | IndexOk(b, maxChars) ensures Truthful(b, before, ReportOf(b, before)) {
      ReportIsTruthful(b, before, maxChars);
    }
  }

  /** All of it holds in every state the indexer can reach. */
  lemma CoverageIsTruthful(steps: seq<Step>, maxChars: nat, before: Option<int>)
    ensures var b := Run(Blank, steps, maxChars);
      var r := ReportOf(b, before);
      Truthful(b, before, r) && |r.straddling| <= 1
  {
    RunKeeps(Blank, steps, maxChars);
    var b := Run(Blank, steps, maxChars);
    ReportIsTruthful(b, before, maxChars);
    if before.Some? { OneStraddles(b, before.value, maxChars); }
  }
}
