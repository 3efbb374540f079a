/** Any number of index runs, appends, closes and purges over one transcript. */
module IndexRuns {
  import opened Common
  import opened TranscriptIndex

  datatype Index = Index(cursor: nat, chunks: seq<Chunk>)

  /** A transcript's turns, the last sequence handed out, and its durable index. */
  datatype Book = Book(turns: seq<Turn>, next: nat, closed: bool, index: Index)

  function Slice(turns: seq<Turn>, after: nat, through: nat): seq<Turn> {
    if turns == [] then []
    else (if after < turns[0].sequence <= through then [turns[0]] else []) + Slice(turns[1..], after, through)
  }

  function ToChunks(groups: seq<seq<Turn>>): seq<Chunk> {
    seq(|groups|, k requires 0 <= k < |groups| => Chunk(groups[k], Join(Texts(groups[k]))))
  }

  function IndexThrough(b: Book, through: int, maxChars: nat): Index {
    if through <= 0 || through <= b.index.cursor then b.index
    else
      var rows := Slice(b.turns, b.index.cursor, through);
      if rows == [] then b.index.(cursor := through)
      else Index(rows[|rows| - 1].sequence, b.index.chunks + ToChunks(Pack(rows, maxChars, [], 0)))
  }

  /** Sequences of the owner's turns, oldest first. */
  function OwnerSequences(turns: seq<Turn>): seq<nat> {
    if turns == [] then []
    else (if turns[0].owner then [turns[0].sequence] else []) + OwnerSequences(turns[1..])
  }

  function ActiveCutoff(b: Book, tail: int): int {
    if b.closed || tail <= 0 then b.next
    else
      var owners := OwnerSequences(b.turns);
      if |owners| < tail then 0 else Max(0, owners[|owners| - tail] as int - 1)
  }

  /** The index transaction on stored rows. */
  class TranscriptIndexer {
    var turns: seq<Turn>
    var next: nat
    var closed: bool
    var index: Index

    ghost function Rows(): Book
      reads this
    {
      Book(turns, next, closed, index)
    }

    constructor (turns: seq<Turn>, next: nat, closed: bool, index: Index)
      ensures Rows() == Book(turns, next, closed, index)
    {
      this.turns, this.next, this.closed, this.index := turns, next, closed, index;
    }

    method IndexTranscript(through: int, maxChars: nat) returns (created: nat, processed: nat)
      modifies this`index
      ensures index == IndexThrough(old(Rows()), through, maxChars)
      ensures created == |index.chunks| - |old(index).chunks|
      ensures processed == if through <= 0 || through <= old(index).cursor then 0
                           else |Slice(turns, old(index).cursor, through)|
    {
      if through <= 0 { return 0, 0; }
      if through <= index.cursor { return 0, 0; }
      var rows := Slice(turns, index.cursor, through);
      if rows == [] {
        index := index.(cursor := through);
        return 0, 0;
      }
      created := 0;
      var added := ChunkRows(rows, maxChars);
      assert added == ToChunks(Pack(rows, maxChars, [], 0)) by {
        assert |added| == |Groups(added)|;
        forall k | 0 <= k < |added| ensures added[k] == ToChunks(Pack(rows, maxChars, [], 0))[k] {
          assert Groups(added)[k] == added[k].rows;
        }
      }
      ghost var was := index.chunks;
      for k := 0 to |added|
        invariant index == Index(old(index).cursor, was + added[..k]) && created == k
      {
        index := index.(chunks := index.chunks + [added[k]]);
        created := created + 1;
        assert added[..k + 1] == added[..k] + [added[k]];
      }
      assert added[..|added|] == added;
      index := index.(cursor := rows[|rows| - 1].sequence);
      processed := |rows|;
    }
  }

  /******* The invariant *******/

  ghost predicate Increasing(rows: seq<Turn>) {
    forall i, j :: 0 <= i < j < |rows| ==> rows[i].sequence < rows[j].sequence
  }

  ghost predicate TurnsOk(turns: seq<Turn>, next: nat) {
    Increasing(turns) && forall i :: 0 <= i < |turns| ==> 0 < turns[i].sequence <= next
  }

  /** The turns with text at or below `c`. */
  function Kept(turns: seq<Turn>, c: int): seq<Turn> {
    if turns == [] then []
    else (if turns[0].text != "" && turns[0].sequence <= c then [turns[0]] else []) + Kept(turns[1..], c)
  }

  ghost predicate ChunksOk(chunks: seq<Chunk>, maxChars: nat) {
    forall k :: 0 <= k < |chunks| ==>
      && chunks[k].rows != []
      && chunks[k].content == Join(Texts(chunks[k].rows))
      && (|chunks[k].rows| > 1 ==> |chunks[k].content| <= maxChars)
  }

  /** The chunks, read in order, hold exactly the turns with text at or below the cursor. */
  ghost predicate IndexOk(b: Book, maxChars: nat) {
    && TurnsOk(b.turns, b.next)
    && b.index.cursor <= b.next
    && ChunksOk(b.index.chunks, maxChars)
    && Flatten(Groups(b.index.chunks)) == Kept(b.turns, b.index.cursor)
  }

  lemma IncreasingRest(turns: seq<Turn>)
    requires Increasing(turns) && turns != []
    ensures Increasing(turns[1..]) && forall i :: 0 <= i < |turns[1..]| ==> turns[1..][i].sequence > turns[0].sequence
  {
    forall i | 0 <= i < |turns[1..]| ensures turns[1..][i].sequence > turns[0].sequence {
      assert turns[1..][i] == turns[i + 1];
    }
  }

  lemma {:induction false} KeptSplit(turns: seq<Turn>, c: nat, d: nat)
    requires Increasing(turns) && c <= d
    ensures Kept(turns, d) == Kept(turns, c) + WithText(Slice(turns, c, d))
    decreases |turns|
  {
    if turns != [] {
      IncreasingRest(turns);
      KeptSplit(turns[1..], c, d);
      if turns[0].sequence > c {
        KeptNone(turns[1..], c);
        KeptNone(turns, c);
        SplitAbove(turns, c, d);
      } else {
        SplitBelow(turns, c, d);
      }
    }
  }

  lemma SplitBelow(turns: seq<Turn>, c: nat, d: nat)
    requires turns != [] && turns[0].sequence <= c <= d
    requires Kept(turns[1..], d) == Kept(turns[1..], c) + WithText(Slice(turns[1..], c, d))
    ensures Kept(turns, d) == Kept(turns, c) + WithText(Slice(turns, c, d))
  {
    SliceSkip(turns, c, d);
    var head := if turns[0].text != "" then [turns[0]] else [];
    Assoc(head, Kept(turns[1..], c), WithText(Slice(turns[1..], c, d)));
  }

  lemma SliceSkip(turns: seq<Turn>, c: nat, d: nat)
    requires turns != [] && !(c < turns[0].sequence <= d)
    ensures Slice(turns, c, d) == Slice(turns[1..], c, d)
  {
  }

  /** The step of the split above the lower bound. */
  lemma SplitAbove(turns: seq<Turn>, c: nat, d: nat)
    requires turns != [] && turns[0].sequence > c
    requires Kept(turns[1..], d) == [] + WithText(Slice(turns[1..], c, d))
    ensures Kept(turns, d) == [] + WithText(Slice(turns, c, d))
  {
    if turns[0].sequence <= d {
      WithTextCons(turns[0], Slice(turns[1..], c, d));
    } else {
      assert Slice(turns, c, d) == [] + Slice(turns[1..], c, d) == Slice(turns[1..], c, d);
    }
  }

  lemma WithTextCons(row: Turn, rows: seq<Turn>)
    ensures WithText([row] + rows) == (if row.text == "" then [] else [row]) + WithText(rows)
  {
    assert ([row] + rows)[1..] == rows;
  }

  lemma {:induction false} KeptNone(turns: seq<Turn>, c: int)
    requires forall i :: 0 <= i < |turns| ==> turns[i].sequence > c
    ensures Kept(turns, c) == []
  {
    if turns != [] { KeptNone(turns[1..], c); }
  }

  lemma {:induction false} SliceMembers(turns: seq<Turn>, c: nat, d: nat)
    ensures forall k :: 0 <= k < |Slice(turns, c, d)| ==>
      c < Slice(turns, c, d)[k].sequence <= d && Slice(turns, c, d)[k] in turns
    decreases |turns|
  {
    if turns != [] { SliceMembers(turns[1..], c, d); }
  }

  lemma {:induction false} SliceHas(turns: seq<Turn>, c: nat, d: nat, i: nat)
    requires i < |turns| && c < turns[i].sequence <= d
    ensures turns[i] in Slice(turns, c, d)
    decreases |turns|
  {
    if i > 0 {
      assert turns[1..][i - 1] == turns[i];
      SliceHas(turns[1..], c, d, i - 1);
    }
  }

  lemma {:induction false} SliceIncreasing(turns: seq<Turn>, c: nat, d: nat)
    requires Increasing(turns)
    ensures Increasing(Slice(turns, c, d))
    decreases |turns|
  {
    if turns != [] {
      IncreasingRest(turns);
      SliceIncreasing(turns[1..], c, d);
      SliceMembers(turns[1..], c, d);
      AllAbove(turns[0], turns[1..], Slice(turns[1..], c, d));
      IncreasingCons(turns[0], Slice(turns[1..], c, d));
      assert [] + Slice(turns[1..], c, d) == Slice(turns[1..], c, d);
    }
  }

  /** Putting a smaller row in front. */
  lemma IncreasingCons(row: Turn, s: seq<Turn>)
    requires Increasing(s) && forall k :: 0 <= k < |s| ==> s[k].sequence > row.sequence
    ensures Increasing([row] + s)
  {
    var t := [row] + s;
    forall i, j | 0 <= i < j < |t| ensures t[i].sequence < t[j].sequence {
      assert t[j] == s[j - 1] && (i > 0 ==> t[i] == s[i - 1]);
    }
  }

  /** Putting a larger row at the end. */
  lemma IncreasingSnoc(s: seq<Turn>, row: Turn)
    requires Increasing(s) && forall k :: 0 <= k < |s| ==> s[k].sequence < row.sequence
    ensures Increasing(s + [row])
  {
    var t := s + [row];
    forall i, j | 0 <= i < j < |t| ensures t[i].sequence < t[j].sequence {
      assert t[i] == s[i] && (j < |s| ==> t[j] == s[j]);
    }
  }

  lemma AllAbove(row: Turn, rest: seq<Turn>, s: seq<Turn>)
    requires forall k :: 0 <= k < |s| ==> s[k] in rest
    requires forall i :: 0 <= i < |rest| ==> rest[i].sequence > row.sequence
    ensures forall k :: 0 <= k < |s| ==> s[k].sequence > row.sequence
  {
    forall k | 0 <= k < |s| ensures s[k].sequence > row.sequence {
      var i :| 0 <= i < |rest| && rest[i] == s[k];
    }
  }

  /** Nothing lies between the last row read and the requested end of the slice. */
  lemma SliceStopsShort(turns: seq<Turn>, c: nat, d: nat)
    requires Increasing(turns) && Slice(turns, c, d) != []
    ensures var s := Slice(turns, c, d);
      c < s[|s| - 1].sequence <= d && Kept(turns, d) == Kept(turns, s[|s| - 1].sequence)
  {
    var s := Slice(turns, c, d);
    SliceMembers(turns, c, d);
    SliceIncreasing(turns, c, d);
    var e := s[|s| - 1].sequence;
    forall i | 0 <= i < |turns| && turns[i].sequence <= d ensures turns[i].sequence <= e {
      if turns[i].sequence > c {
        SliceHas(turns, c, d, i);
        var k :| 0 <= k < |s| && s[k] == turns[i];
      }
    }
    KeptSame(turns, e, d);
  }

  lemma {:induction false} KeptSame(turns: seq<Turn>, c: int, d: int)
    requires forall i :: 0 <= i < |turns| ==> (turns[i].sequence <= c <==> turns[i].sequence <= d)
    ensures Kept(turns, c) == Kept(turns, d)
  {
    if turns != [] { KeptSame(turns[1..], c, d); }
  }

  lemma GroupsConcat(x: seq<Chunk>, y: seq<Chunk>)
    ensures Groups(x + y) == Groups(x) + Groups(y)
  {
  }

  lemma GroupsOf(groups: seq<seq<Turn>>)
    ensures Groups(ToChunks(groups)) == groups
  {
  }

  lemma PackedChunksOk(rows: seq<Turn>, maxChars: nat)
    ensures ChunksOk(ToChunks(Pack(rows, maxChars, [], 0)), maxChars)
  {
    var packed := Pack(rows, maxChars, [], 0);
    PackNonEmpty(rows, maxChars, [], 0);
    PackFits(rows, maxChars, [], 0);
    forall k | 0 <= k < |packed|
      ensures packed[k] != [] && (|packed[k]| > 1 ==> |Join(Texts(packed[k]))| <= maxChars)
    {
      assert |packed[k]| > 1 ==> JoinedLength(packed[k]) <= maxChars;
    }
  }

  lemma AppendedFlatten(chunks: seq<Chunk>, rows: seq<Turn>, maxChars: nat)
    ensures Flatten(Groups(chunks + ToChunks(Pack(rows, maxChars, [], 0)))) == Flatten(Groups(chunks)) + WithText(rows)
  {
    var packed := Pack(rows, maxChars, [], 0);
    PackFlattens(rows, maxChars, [], 0);
    GroupsConcat(chunks, ToChunks(packed));
    GroupsOf(packed);
    FlattenConcat(Groups(chunks), packed);
    assert [] + WithText(rows) == WithText(rows);
  }

  /** An index run keeps the invariant whenever it does not ask beyond the last sequence handed out. */
  lemma IndexThroughKeeps(b: Book, through: int, maxChars: nat)
    requires IndexOk(b, maxChars) && through <= b.next
    ensures IndexOk(b.(index := IndexThrough(b, through, maxChars)), maxChars)
    ensures IndexThrough(b, through, maxChars).cursor >= b.index.cursor
  {
    if 0 < through && b.index.cursor < through {
      var c := b.index.cursor;
      var rows := Slice(b.turns, c, through);
      KeptSplit(b.turns, c, through);
      if rows == [] {
        assert Kept(b.turns, c) + [] == Kept(b.turns, c);
      } else {
        SliceStopsShort(b.turns, c, through);
        PackedChunksOk(rows, maxChars);
        AppendedFlatten(b.index.chunks, rows, maxChars);
      }
    }
  }

  /******* Purging turns *******/

  function MinStart(chunks: seq<Chunk>, s: nat): Option<nat>
    requires forall k :: 0 <= k < |chunks| ==> chunks[k].rows != []
  {
    if chunks == [] then None
    else
      var rest := MinStart(chunks[1..], s);
      if chunks[0].End() < s then rest
      else Some(if rest.Some? && rest.value < chunks[0].Start() then rest.value else chunks[0].Start())
  }

  function EndingBefore(chunks: seq<Chunk>, e: nat): seq<Chunk>
    requires forall k :: 0 <= k < |chunks| ==> chunks[k].rows != []
  {
    if chunks == [] then []
    else (if chunks[0].End() < e then [chunks[0]] else []) + EndingBefore(chunks[1..], e)
  }

  function RebuildFrom(chunks: seq<Chunk>, s: nat): nat
    requires forall k :: 0 <= k < |chunks| ==> chunks[k].rows != []
  {
    var m := MinStart(chunks, s);
    if m.Some? && m.value < s then m.value else s
  }

  /** Invalidating the index from the earliest redacted sequence `s`. */
  function Invalidate(index: Index, s: nat): Index
    requires forall k :: 0 <= k < |index.chunks| ==> index.chunks[k].rows != []
  {
    var from := RebuildFrom(index.chunks, s);
    Index(if from == 0 then 0 else Min(index.cursor, from - 1), EndingBefore(index.chunks, from))
  }

  ghost predicate Redacted(x: seq<Turn>, y: seq<Turn>, s: nat) {
    && |x| == |y|
    && (forall i :: 0 <= i < |x| ==> x[i].sequence == y[i].sequence)
    && (forall i :: 0 <= i < |x| && x[i].sequence < s ==> x[i] == y[i])
  }

  /** Chunks in order: each ends before the next begins. */
  ghost predicate Ordered(chunks: seq<Chunk>) {
    && (forall k :: 0 <= k < |chunks| ==> chunks[k].rows != [] && chunks[k].Start() <= chunks[k].End())
    && (forall j, k :: 0 <= j < k < |chunks| ==> chunks[j].End() < chunks[k].Start())
  }

  lemma {:induction false} FlattenMember(groups: seq<seq<Turn>>, k: nat, i: nat)
    requires k < |groups| && i < |groups[k]|
    ensures groups[k][i] in Flatten(groups)
  {
    if k > 0 { FlattenMember(groups[1..], k - 1, i); }
  }

  lemma {:induction false} FlattenLocate(groups: seq<seq<Turn>>, row: Turn) returns (k: nat)
    requires row in Flatten(groups)
    ensures k < |groups| && row in groups[k]
  {
    if row in groups[0] {
      k := 0;
    } else {
      var j := FlattenLocate(groups[1..], row);
      k := j + 1;
    }
  }

  lemma {:induction false} IncreasingSplit(a: seq<Turn>, b: seq<Turn>)
    requires Increasing(a + b)
    ensures Increasing(a) && Increasing(b)
    ensures forall x, y :: x in a && y in b ==> x.sequence < y.sequence
  {
    forall i, j | 0 <= i < j < |a| ensures a[i].sequence < a[j].sequence {
      assert (a + b)[i] == a[i] && (a + b)[j] == a[j];
    }
    forall i, j | 0 <= i < j < |b| ensures b[i].sequence < b[j].sequence {
      assert (a + b)[|a| + i] == b[i] && (a + b)[|a| + j] == b[j];
    }
    forall x, y | x in a && y in b ensures x.sequence < y.sequence {
      var i :| 0 <= i < |a| && a[i] == x;
      var j :| 0 <= j < |b| && b[j] == y;
      assert (a + b)[i] == x && (a + b)[|a| + j] == y;
    }
  }

  lemma {:induction false} OrderedChunks(chunks: seq<Chunk>)
    requires forall k :: 0 <= k < |chunks| ==> chunks[k].rows != []
    requires Increasing(Flatten(Groups(chunks)))
    ensures Ordered(chunks)
    decreases |chunks|
  {
    if chunks != [] {
      var rest := chunks[1..];
      assert Groups(chunks)[1..] == Groups(rest);
      IncreasingSplit(chunks[0].rows, Flatten(Groups(rest)));
      OrderedChunks(rest);
      forall k | 0 <= k < |rest| ensures chunks[0].End() < rest[k].Start() {
        assert Groups(rest)[k] == rest[k].rows;
        FlattenMember(Groups(rest), k, 0);
      }
      OrderedCons(chunks[0], rest);
      assert chunks == [chunks[0]] + rest;
    }
  }

  lemma OrderedCons(chunk: Chunk, rest: seq<Chunk>)
    requires chunk.rows != [] && chunk.Start() <= chunk.End() && Ordered(rest)
    requires forall k :: 0 <= k < |rest| ==> chunk.End() < rest[k].Start()
    ensures Ordered([chunk] + rest)
  {
    var chunks := [chunk] + rest;
    forall j, k | 0 <= j < k < |chunks|
      ensures chunks[j].rows != [] && chunks[k].rows != [] && chunks[j].End() < chunks[k].Start()
    {
      assert chunks[k] == rest[k - 1] && (j > 0 ==> chunks[j] == rest[j - 1]);
    }
  }

  lemma {:induction false} KeptMembers(turns: seq<Turn>, c: int)
    ensures forall k :: 0 <= k < |Kept(turns, c)| ==>
      Kept(turns, c)[k] in turns && Kept(turns, c)[k].text != "" && Kept(turns, c)[k].sequence <= c
    decreases |turns|
  {
    if turns != [] { KeptMembers(turns[1..], c); }
  }

  lemma {:induction false} KeptHas(turns: seq<Turn>, c: int, i: nat)
    requires i < |turns| && turns[i].text != "" && turns[i].sequence <= c
    ensures turns[i] in Kept(turns, c)
    decreases |turns|
  {
    if i > 0 {
      assert turns[1..][i - 1] == turns[i];
      KeptHas(turns[1..], c, i - 1);
    }
  }

  lemma {:induction false} KeptIncreasing(turns: seq<Turn>, c: int)
    requires Increasing(turns)
    ensures Increasing(Kept(turns, c))
    decreases |turns|
  {
    if turns != [] {
      IncreasingRest(turns);
      KeptIncreasing(turns[1..], c);
      KeptMembers(turns[1..], c);
      AllAbove(turns[0], turns[1..], Kept(turns[1..], c));
      IncreasingCons(turns[0], Kept(turns[1..], c));
      assert [] + Kept(turns[1..], c) == Kept(turns[1..], c);
    }
  }

  /** Under the invariant the chunk ranges are disjoint and increasing. */
  lemma IndexOrdered(b: Book, maxChars: nat)
    requires IndexOk(b, maxChars)
    ensures Ordered(b.index.chunks)
  {
    KeptIncreasing(b.turns, b.index.cursor);
    OrderedChunks(b.index.chunks);
  }

  /** The chunks a purge keeps are the ones before its rebuild point. */
  lemma {:induction false} PurgePrefix(chunks: seq<Chunk>, s: nat) returns (n: nat)
    requires Ordered(chunks)
    ensures n <= |chunks| && EndingBefore(chunks, RebuildFrom(chunks, s)) == chunks[..n]
    ensures forall k :: 0 <= k < n ==> chunks[k].End() < RebuildFrom(chunks, s)
    ensures forall k :: n <= k < |chunks| ==> chunks[k].Start() >= RebuildFrom(chunks, s)
    ensures RebuildFrom(chunks, s) <= s
    ensures forall k :: 0 <= k < |chunks| ==> (chunks[k].End() < s <==> k < n)
    ensures RebuildFrom(chunks, s) == if n < |chunks| then Min(s, chunks[n].Start()) else s
  {
    var from := RebuildFrom(chunks, s);
    n := FirstEndingAt(chunks, s);
    MinStartIs(chunks, s, n);
    forall k | 0 <= k < n ensures chunks[k].End() < from {
      if n < |chunks| { assert chunks[k].End() < chunks[n].Start(); }
    }
    forall k | n <= k < |chunks| ensures chunks[k].Start() >= from && chunks[k].End() >= from {
      if k > n { assert chunks[n].End() < chunks[k].Start(); }
    }
    EndingBeforePrefix(chunks, from, n);
  }

  lemma FirstEndingAt(chunks: seq<Chunk>, s: nat) returns (n: nat)
    requires Ordered(chunks)
    ensures n <= |chunks|
    ensures forall k :: 0 <= k < n ==> chunks[k].End() < s
    ensures forall k :: n <= k < |chunks| ==> chunks[k].End() >= s
  {
    n := 0;
    while n < |chunks| && chunks[n].End() < s
      invariant n <= |chunks| && forall k :: 0 <= k < n ==> chunks[k].End() < s
    {
      n := n + 1;
    }
    forall k | n <= k < |chunks| ensures chunks[k].End() >= s {
      if k > n { assert chunks[n].End() < chunks[k].Start() <= chunks[k].End(); }
    }
  }

  lemma {:induction false} MinStartIs(chunks: seq<Chunk>, s: nat, n: nat)
    requires Ordered(chunks) && n <= |chunks|
    requires forall k :: 0 <= k < n ==> chunks[k].End() < s
    requires forall k :: n <= k < |chunks| ==> chunks[k].End() >= s
    ensures MinStart(chunks, s) == if n < |chunks| then Some(chunks[n].Start()) else None
    decreases |chunks|
  {
    if chunks != [] {
      var rest := chunks[1..];
      assert forall k :: 0 <= k < |rest| ==> rest[k] == chunks[k + 1];
      MinStartIs(rest, s, if n == 0 then 0 else n - 1);
      if n == 0 && |rest| > 0 { assert chunks[0].End() < chunks[1].Start(); }
    }
  }

  lemma {:induction false} EndingBeforePrefix(chunks: seq<Chunk>, e: nat, n: nat)
    requires n <= |chunks| && forall k :: 0 <= k < |chunks| ==> chunks[k].rows != []
    requires forall k :: 0 <= k < n ==> chunks[k].End() < e
    requires forall k :: n <= k < |chunks| ==> chunks[k].End() >= e
    ensures EndingBefore(chunks, e) == chunks[..n]
    decreases |chunks|
  {
    if chunks != [] {
      EndingBeforePrefix(chunks[1..], e, if n == 0 then 0 else n - 1);
      assert n > 0 ==> chunks[..n] == [chunks[0]] + chunks[1..][..n - 1];
    }
  }

  lemma {:induction false} KeptCut(turns: seq<Turn>, c: int, d: int, a: seq<Turn>, z: seq<Turn>)
    requires d <= c && Kept(turns, c) == a + z
    requires (forall i :: 0 <= i < |a| ==> a[i].sequence <= d) && (forall i :: 0 <= i < |z| ==> z[i].sequence > d)
    ensures Kept(turns, d) == a
    decreases |turns|
  {
    if turns == [] {
      assert a + z == [];
    } else if turns[0].text != "" && turns[0].sequence <= c {
      assert (a + z)[0] == turns[0] && Kept(turns[1..], c) == (a + z)[1..];
      if a != [] {
        assert (a + z)[1..] == a[1..] + z;
        KeptCut(turns[1..], c, d, a[1..], z);
      } else {
        assert (a + z)[1..] == [] + z[1..];
        KeptCut(turns[1..], c, d, [], z[1..]);
      }
    } else {
      KeptCut(turns[1..], c, d, a, z);
    }
  }

  lemma {:induction false} KeptRedacted(x: seq<Turn>, y: seq<Turn>, s: nat, d: int)
    requires Redacted(x, y, s) && d < s
    ensures Kept(x, d) == Kept(y, d)
  {
    if x != [] {
      assert Redacted(x[1..], y[1..], s);
      KeptRedacted(x[1..], y[1..], s, d);
    }
  }

  /** Rows of the chunks a purge keeps lie at or below the rewound cursor. */
  lemma PurgeKeepsBelow(b: Book, maxChars: nat, s: nat, n: nat, row: Turn)
    requires IndexOk(b, maxChars) && s > 0 && n <= |b.index.chunks|
    requires forall k :: 0 <= k < n ==> b.index.chunks[k].End() < RebuildFrom(b.index.chunks, s)
    requires row in Flatten(Groups(b.index.chunks[..n])) && row.sequence <= b.index.cursor
    ensures row.sequence <= Invalidate(b.index, s).cursor
  {
    var k := FlattenLocate(Groups(b.index.chunks[..n]), row);
    RowsWithin(b, maxChars, k, row);
  }

  /** Rows of the chunks a purge drops lie above the rewound cursor. */
  lemma PurgeDropsAbove(b: Book, maxChars: nat, s: nat, n: nat, row: Turn)
    requires IndexOk(b, maxChars) && s > 0 && n <= |b.index.chunks| && row.sequence > 0
    requires forall k :: n <= k < |b.index.chunks| ==> b.index.chunks[k].Start() >= RebuildFrom(b.index.chunks, s)
    requires row in Flatten(Groups(b.index.chunks[n..]))
    ensures row.sequence > Invalidate(b.index, s).cursor
  {
    var k := FlattenLocate(Groups(b.index.chunks[n..]), row);
    assert Groups(b.index.chunks[n..])[k] == b.index.chunks[n + k].rows;
    RowsWithin(b, maxChars, n + k, row);
  }

  lemma SplitChunks(chunks: seq<Chunk>, n: nat)
    requires n <= |chunks|
    ensures Flatten(Groups(chunks)) == Flatten(Groups(chunks[..n])) + Flatten(Groups(chunks[n..]))
  {
    assert chunks == chunks[..n] + chunks[n..];
    GroupsConcat(chunks[..n], chunks[n..]);
    FlattenConcat(Groups(chunks[..n]), Groups(chunks[n..]));
  }

  lemma PurgeKeepsAllBelow(b: Book, s: nat, maxChars: nat, n: nat, a: seq<Turn>, z: seq<Turn>)
    requires IndexOk(b, maxChars) && s > 0 && n <= |b.index.chunks|
    requires forall k :: 0 <= k < n ==> b.index.chunks[k].End() < RebuildFrom(b.index.chunks, s)
    requires a == Flatten(Groups(b.index.chunks[..n])) && Kept(b.turns, b.index.cursor) == a + z
    ensures forall i :: 0 <= i < |a| ==> a[i].sequence <= Invalidate(b.index, s).cursor
  {
    KeptMembers(b.turns, b.index.cursor);
    forall i | 0 <= i < |a| ensures a[i].sequence <= Invalidate(b.index, s).cursor {
      assert (a + z)[i] == a[i];
      PurgeKeepsBelow(b, maxChars, s, n, a[i]);
    }
  }

  lemma PurgeDropsAllAbove(b: Book, s: nat, maxChars: nat, n: nat, a: seq<Turn>, z: seq<Turn>)
    requires IndexOk(b, maxChars) && s > 0 && n <= |b.index.chunks|
    requires forall k :: n <= k < |b.index.chunks| ==> b.index.chunks[k].Start() >= RebuildFrom(b.index.chunks, s)
    requires z == Flatten(Groups(b.index.chunks[n..])) && Kept(b.turns, b.index.cursor) == a + z
    ensures forall i :: 0 <= i < |z| ==> z[i].sequence > Invalidate(b.index, s).cursor
  {
    KeptMembers(b.turns, b.index.cursor);
    forall i | 0 <= i < |z| ensures z[i].sequence > Invalidate(b.index, s).cursor {
      assert (a + z)[|a| + i] == z[i];
      PurgeDropsAbove(b, maxChars, s, n, z[i]);
    }
  }

  lemma PrefixOk(chunks: seq<Chunk>, n: nat, maxChars: nat)
    requires ChunksOk(chunks, maxChars) && n <= |chunks|
    ensures ChunksOk(chunks[..n], maxChars)
  {
  }

  lemma RewindBounds(index: Index, s: nat)
    requires s > 0 && forall k :: 0 <= k < |index.chunks| ==> index.chunks[k].rows != []
    ensures Invalidate(index, s).cursor <= index.cursor && Invalidate(index, s).cursor < s
  {
  }

  /** What remains after a purge is what the rewound cursor promises. */
  lemma InvalidateFlattens(b: Book, s: nat, maxChars: nat) returns (n: nat)
    requires IndexOk(b, maxChars) && s > 0
    ensures n <= |b.index.chunks| && Invalidate(b.index, s).chunks == b.index.chunks[..n]
    ensures Flatten(Groups(b.index.chunks[..n])) == Kept(b.turns, Invalidate(b.index, s).cursor)
  {
    IndexOrdered(b, maxChars);
    n := PurgePrefix(b.index.chunks, s);
    var a, z := Flatten(Groups(b.index.chunks[..n])), Flatten(Groups(b.index.chunks[n..]));
    SplitChunks(b.index.chunks, n);
    PurgeKeepsAllBelow(b, s, maxChars, n, a, z);
    PurgeDropsAllAbove(b, s, maxChars, n, a, z);
    RewindBounds(b.index, s);
    KeptCut(b.turns, b.index.cursor, Invalidate(b.index, s).cursor, a, z);
  }

  /**
   Purging any turns from sequence `s` on, whatever their text becomes: the chunks that remain
   are exactly the turns with text at or below the rewound cursor.
   */
  lemma InvalidateKeeps(b: Book, turns: seq<Turn>, s: nat, maxChars: nat)
    requires IndexOk(b, maxChars) && Redacted(b.turns, turns, s) && s > 0
    ensures IndexOk(b.(turns := turns, index := Invalidate(b.index, s)), maxChars)
  {
    var n := InvalidateFlattens(b, s, maxChars);
    PrefixOk(b.index.chunks, n, maxChars);
    RewindBounds(b.index, s);
    KeptRedacted(b.turns, turns, s, Invalidate(b.index, s).cursor);
    RedactedOk(b.turns, turns, s, b.next);
  }

  /**
   A purge drops no more than it must: exactly the chunks that reach the purged sequence go, and the cursor falls
   right below the first of them, or right below the purged sequence.
   */
  lemma InvalidateExactly(b: Book, s: nat, maxChars: nat) returns (n: nat)
    requires IndexOk(b, maxChars) && s > 0
    ensures n <= |b.index.chunks| && Invalidate(b.index, s).chunks == b.index.chunks[..n]
    ensures forall k :: 0 <= k < |b.index.chunks| ==> (k < n <==> b.index.chunks[k].End() < s)
    ensures n == |b.index.chunks| ==> Invalidate(b.index, s).cursor == Min(b.index.cursor, s - 1)
    ensures n < |b.index.chunks| ==>
      Invalidate(b.index, s).cursor == Min(b.index.cursor, Max(0, Min(s, b.index.chunks[n].Start()) - 1))
  {
    IndexOrdered(b, maxChars);
    n := PurgePrefix(b.index.chunks, s);
  }

  lemma RedactedOk(x: seq<Turn>, y: seq<Turn>, s: nat, next: nat)
    requires TurnsOk(x, next) && Redacted(x, y, s)
    ensures TurnsOk(y, next)
  {
  }

  lemma RowsWithin(b: Book, maxChars: nat, k: nat, row: Turn)
    requires IndexOk(b, maxChars) && k < |b.index.chunks| && row in b.index.chunks[k].rows
    ensures b.index.chunks[k].Start() <= row.sequence <= b.index.chunks[k].End()
  {
    KeptIncreasing(b.turns, b.index.cursor);
    GroupIncreasing(Groups(b.index.chunks), k);
    var rows := b.index.chunks[k].rows;
    assert Groups(b.index.chunks)[k] == rows;
    var i :| 0 <= i < |rows| && rows[i] == row;
    assert i > 0 ==> rows[0].sequence < rows[i].sequence;
    assert i < |rows| - 1 ==> rows[i].sequence < rows[|rows| - 1].sequence;
  }

  lemma {:induction false} GroupIncreasing(groups: seq<seq<Turn>>, k: nat)
    requires k < |groups| && Increasing(Flatten(groups))
    ensures Increasing(groups[k])
  {
    IncreasingSplit(groups[0], Flatten(groups[1..]));
    if k > 0 { GroupIncreasing(groups[1..], k - 1); }
  }

  /******* Whole runs *******/

  datatype Step =
    | Append(owner: bool, text: string)
    | SetClosed(closed: bool)
    | IndexActive(tail: int)
    | Purge(from: nat, texts: map<nat, string>)
    | DeleteChat(texts: map<nat, string>)

  function Retext(turns: seq<Turn>, from: nat, texts: map<nat, string>): seq<Turn> {
    seq(|turns|, i requires 0 <= i < |turns| =>
      if turns[i].sequence >= from && turns[i].sequence in texts
      then turns[i].(text := texts[turns[i].sequence]) else turns[i])
  }

  ghost function Next(b: Book, step: Step, maxChars: nat): Book {
    match step
    case Append(owner, text) => b.(turns := b.turns + [Turn(b.next + 1, owner, text)], next := b.next + 1)
    case SetClosed(closed) => b.(closed := closed)
    case IndexActive(tail) =>
      var cutoff := ActiveCutoff(b, tail);
      if cutoff <= 0 then b else b.(index := IndexThrough(b, cutoff, maxChars))
    case Purge(s, texts) =>
      if s > 0 && forall k :: 0 <= k < |b.index.chunks| ==> b.index.chunks[k].rows != []
      then b.(turns := Retext(b.turns, s, texts), index := Invalidate(b.index, s)) else b
    case DeleteChat(texts) => b.(turns := Retext(b.turns, 0, texts), closed := true, index := Index(0, []))
  }

  ghost function Run(b: Book, steps: seq<Step>, maxChars: nat): Book
    decreases |steps|
  {
    if steps == [] then b else Run(Next(b, steps[0], maxChars), steps[1..], maxChars)
  }

  const Blank := Book([], 0, false, Index(0, []))

  lemma {:induction false} OwnerSequencesWithin(turns: seq<Turn>, next: nat)
    requires forall i :: 0 <= i < |turns| ==> turns[i].sequence <= next
    ensures forall k :: 0 <= k < |OwnerSequences(turns)| ==> OwnerSequences(turns)[k] <= next
  {
    if turns != [] { OwnerSequencesWithin(turns[1..], next); }
  }

  /** The indexer's own cutoff never asks beyond the last sequence handed out. */
  lemma CutoffWithin(b: Book, tail: int)
    requires TurnsOk(b.turns, b.next)
    ensures ActiveCutoff(b, tail) <= b.next
  {
    OwnerSequencesWithin(b.turns, b.next);
  }

  /** How many of the owner's turns lie above a bound. */
  function OwnersAbove(turns: seq<Turn>, c: int): nat {
    if turns == [] then 0
    else (if turns[0].owner && turns[0].sequence > c then 1 else 0) + OwnersAbove(turns[1..], c)
  }

  lemma {:induction false} OwnerOf(turns: seq<Turn>, k: nat) returns (i: nat)
    requires k < |OwnerSequences(turns)|
    ensures i < |turns| && turns[i].sequence == OwnerSequences(turns)[k]
  {
    var first := if turns[0].owner then 1 else 0;
    if k < first { return 0; }
    var j := OwnerOf(turns[1..], k - first);
    i := j + 1;
  }

  lemma {:induction false} NoOwnersBelow(turns: seq<Turn>, c: int)
    requires forall i :: 0 <= i < |turns| ==> turns[i].sequence > c
    ensures OwnersAbove(turns, c) == |OwnerSequences(turns)|
  {
    if turns != [] { NoOwnersBelow(turns[1..], c); }
  }

  /** Right below the k-th of the owner's turns, all but k of them lie above; at it, one fewer. */
  lemma {:induction false} AboveOwner(turns: seq<Turn>, k: nat)
    requires Increasing(turns) && k < |OwnerSequences(turns)|
    ensures OwnersAbove(turns, OwnerSequences(turns)[k] as int - 1) == |OwnerSequences(turns)| - k
    ensures OwnersAbove(turns, OwnerSequences(turns)[k]) == |OwnerSequences(turns)| - k - 1
  {
    var rest := turns[1..];
    assert forall i :: 0 <= i < |rest| ==> rest[i] == turns[i + 1];
    if turns[0].owner && k == 0 {
      NoOwnersBelow(rest, turns[0].sequence);
      NoOwnersBelow(rest, turns[0].sequence - 1);
    } else {
      var j := if turns[0].owner then k - 1 else k;
      AboveOwner(rest, j);
      var i := OwnerOf(rest, j);
    }
  }

  /**
   An open transcript is indexed up to right before its tail: exactly `tail` of the owner's turns lie above the cutoff,
   and one fewer above the next sequence; nothing is indexed while the owner has fewer turns than that.
   */
  lemma CutoffExactly(b: Book, tail: int)
    requires TurnsOk(b.turns, b.next)
    ensures var c := ActiveCutoff(b, tail);
      if b.closed || tail <= 0 then c == b.next
      else if OwnersAbove(b.turns, 0) < tail then c == 0
      else c >= 0 && OwnersAbove(b.turns, c) == tail && OwnersAbove(b.turns, c + 1) == tail - 1
  {
    NoOwnersBelow(b.turns, 0);
    var n := |OwnerSequences(b.turns)|;
    if 0 < tail <= n {
      AboveOwner(b.turns, n - tail);
      var i := OwnerOf(b.turns, n - tail);
    }
  }

  lemma {:induction false} KeptAppend(turns: seq<Turn>, row: Turn, c: int)
    requires row.sequence > c
    ensures Kept(turns + [row], c) == Kept(turns, c)
  {
    if turns != [] {
      assert (turns + [row])[1..] == turns[1..] + [row];
      KeptAppend(turns[1..], row, c);
    }
  }

  lemma AppendTurns(turns: seq<Turn>, next: nat, row: Turn)
    requires TurnsOk(turns, next) && row.sequence == next + 1
    ensures TurnsOk(turns + [row], next + 1)
  {
    IncreasingSnoc(turns, row);
  }

  lemma AppendKeeps(b: Book, step: Step, maxChars: nat)
    requires IndexOk(b, maxChars) && step.Append?
    ensures IndexOk(Next(b, step, maxChars), maxChars)
  {
    var row := Turn(b.next + 1, step.owner, step.text);
    AppendTurns(b.turns, b.next, row);
    KeptAppend(b.turns, row, b.index.cursor);
    var c := Next(b, step, maxChars);
    assert c.index == b.index && c.turns == b.turns + [row] && c.next == b.next + 1;
  }

  lemma IndexActiveKeeps(b: Book, step: Step, maxChars: nat)
    requires IndexOk(b, maxChars) && step.IndexActive?
    ensures IndexOk(Next(b, step, maxChars), maxChars)
    ensures Next(b, step, maxChars).index.cursor >= b.index.cursor
  {
    CutoffWithin(b, step.tail);
    IndexThroughKeeps(b, ActiveCutoff(b, step.tail), maxChars);
  }

  lemma PurgeKeeps(b: Book, step: Step, maxChars: nat)
    requires IndexOk(b, maxChars) && step.Purge?
    ensures IndexOk(Next(b, step, maxChars), maxChars)
  {
    if step.from > 0 {
      RetextRedacts(b.turns, step.from, step.texts);
      InvalidateKeeps(b, Retext(b.turns, step.from, step.texts), step.from, maxChars);
    }
  }

  lemma RetextRedacts(turns: seq<Turn>, from: nat, texts: map<nat, string>)
    ensures Redacted(turns, Retext(turns, from, texts), from)
  {
  }

  lemma DeleteKeeps(b: Book, step: Step, maxChars: nat)
    requires IndexOk(b, maxChars) && step.DeleteChat?
    ensures IndexOk(Next(b, step, maxChars), maxChars)
  {
    var turns := Retext(b.turns, 0, step.texts);
    RetextRedacts(b.turns, 0, step.texts);
    RedactedOk(b.turns, turns, 0, b.next);
    KeptNone(turns, 0);
    EmptyIndex(turns, b.next, maxChars);
  }

  lemma EmptyIndex(turns: seq<Turn>, next: nat, maxChars: nat)
    requires TurnsOk(turns, next) && Kept(turns, 0) == []
    ensures IndexOk(Book(turns, next, true, Index(0, [])), maxChars)
  {
    assert Groups([]) == [];
  }

  lemma NextKeeps(b: Book, step: Step, maxChars: nat)
    requires IndexOk(b, maxChars)
    ensures IndexOk(Next(b, step, maxChars), maxChars)
    ensures !step.Purge? && !step.DeleteChat? ==> Next(b, step, maxChars).index.cursor >= b.index.cursor
  {
    match step
    case Append(_, _) => AppendKeeps(b, step, maxChars);
    case SetClosed(_) =>
    case IndexActive(_) => IndexActiveKeeps(b, step, maxChars);
    case Purge(_, _) => PurgeKeeps(b, step, maxChars);
    case DeleteChat(_) => DeleteKeeps(b, step, maxChars);
  }

  lemma {:induction false} RunKeeps(b: Book, steps: seq<Step>, maxChars: nat)
    requires IndexOk(b, maxChars)
    ensures IndexOk(Run(b, steps, maxChars), maxChars)
    decreases |steps|
  {
    if steps != [] {
      NextKeeps(b, steps[0], maxChars);
      RunKeeps(Next(b, steps[0], maxChars), steps[1..], maxChars);
    }
  }

  /** Without purges the cursor never goes back, over any number of runs. */
  lemma {:induction false} CursorNeverDecreases(b: Book, steps: seq<Step>, maxChars: nat)
    requires IndexOk(b, maxChars)
    requires forall i :: 0 <= i < |steps| ==> !steps[i].Purge? && !steps[i].DeleteChat?
    ensures Run(b, steps, maxChars).index.cursor >= b.index.cursor
    decreases |steps|
  {
    if steps != [] {
      NextKeeps(b, steps[0], maxChars);
      CursorNeverDecreases(Next(b, steps[0], maxChars), steps[1..], maxChars);
    }
  }

  /** In every reachable state each turn with text at or below the cursor is in one chunk and no other. */
  lemma InExactlyOneChunk(b: Book, maxChars: nat, i: nat) returns (k: nat)
    requires IndexOk(b, maxChars) && i < |b.turns| && b.turns[i].text != "" && b.turns[i].sequence <= b.index.cursor
    ensures k < |b.index.chunks| && b.turns[i] in b.index.chunks[k].rows
    ensures forall j :: 0 <= j < |b.index.chunks| && b.turns[i] in b.index.chunks[j].rows ==> j == k
  {
    KeptHas(b.turns, b.index.cursor, i);
    k := FlattenLocate(Groups(b.index.chunks), b.turns[i]);
    IndexOrdered(b, maxChars);
    RowsWithin(b, maxChars, k, b.turns[i]);
    forall j | 0 <= j < |b.index.chunks| && b.turns[i] in b.index.chunks[j].rows ensures j == k {
      RowsWithin(b, maxChars, j, b.turns[i]);
    }
  }

  function ChunkContents(chunks: seq<Chunk>): seq<string> {
    seq(|chunks|, k requires 0 <= k < |chunks| => chunks[k].content)
  }

  /**
   Over any run of appends, index runs with changing cutoffs, closes, purges and deletions: the
   chunk ranges are disjoint and increasing, joining the chunks gives the join of the indexed turn
   texts, and no chunk of several turns is over the limit.
   */
  lemma IndexIsFaithful(steps: seq<Step>, maxChars: nat)
    ensures var b := Run(Blank, steps, maxChars);
      && IndexOk(b, maxChars)
      && Ordered(b.index.chunks)
      && Join(ChunkContents(b.index.chunks)) == Join(Texts(Kept(b.turns, b.index.cursor)))
      && (forall k :: 0 <= k < |b.index.chunks| && |b.index.chunks[k].rows| > 1 ==>
            |b.index.chunks[k].content| <= maxChars)
  {
    RunKeeps(Blank, steps, maxChars);
    var b := Run(Blank, steps, maxChars);
    IndexOrdered(b, maxChars);
    ContentsJoin(b.index.chunks, maxChars);
  }

  lemma ContentsJoin(chunks: seq<Chunk>, maxChars: nat)
    requires ChunksOk(chunks, maxChars)
    ensures Join(ChunkContents(chunks)) == Join(Texts(Flatten(Groups(chunks))))
  {
    var groups := Groups(chunks);
    JoinFlatten(groups);
    assert Contents(groups) == ChunkContents(chunks);
  }

  /******* Where the cursor lands *******/

  /** A turn that a call with this bound has still to index. */
  ghost predicate Due(b: Book, through: int, i: nat) {
    i < |b.turns| && b.index.cursor < b.turns[i].sequence <= through
  }

  /**
   A call leaves the cursor alone if the bound is not beyond it, moves it to the bound if no turn is due, and
   otherwise moves it to the last turn due; what was indexed before stays.
   */
  lemma CursorExactly(b: Book, through: int, maxChars: nat)
    requires Increasing(b.turns)
    ensures var e := IndexThrough(b, through, maxChars);
      && b.index.chunks <= e.chunks
      && (through <= b.index.cursor ==> e == b.index)
      && (through > b.index.cursor && (forall i: nat :: !Due(b, through, i)) ==>
            e.cursor == through && e.chunks == b.index.chunks)
      && (forall i: nat :: Due(b, through, i) ==> b.turns[i].sequence <= e.cursor)
      && ((exists i: nat :: Due(b, through, i)) ==>
            exists i: nat :: Due(b, through, i) && b.turns[i].sequence == e.cursor)
  {
    if through > b.index.cursor {
      var rows := Slice(b.turns, b.index.cursor, through);
      SliceMembers(b.turns, b.index.cursor, through);
      SliceIncreasing(b.turns, b.index.cursor, through);
      forall i: nat | Due(b, through, i) ensures rows != [] && b.turns[i].sequence <= rows[|rows| - 1].sequence {
        SliceHas(b.turns, b.index.cursor, through, i);
        LastIsGreatest(rows, b.turns[i]);
      }
      if rows != [] {
        var last := rows[|rows| - 1];
        var i :| 0 <= i < |b.turns| && b.turns[i] == last;
        assert Due(b, through, i);
      }
    }
  }

  lemma LastIsGreatest(rows: seq<Turn>, row: Turn)
    requires Increasing(rows) && row in rows
    ensures row.sequence <= rows[|rows| - 1].sequence
  {
    var k :| 0 <= k < |rows| && rows[k] == row;
  }

  /******* Asking for more than was handed out *******/

  /**
   Called directly with an arbitrary bound, the index transaction keeps the invariant if and only if
   the bound does not exceed the last sequence handed out or there is something to index.
   */
  lemma IndexThroughExactly(b: Book, through: int, maxChars: nat)
    requires IndexOk(b, maxChars)
    ensures IndexOk(b.(index := IndexThrough(b, through, maxChars)), maxChars)
      <==> through <= b.next || Slice(b.turns, b.index.cursor, through) != []
  {
    if through <= b.next {
      IndexThroughKeeps(b, through, maxChars);
    } else {
      SliceBeyond(b.turns, b.index.cursor, b.next, through);
      if Slice(b.turns, b.index.cursor, through) != [] {
        SliceMembers(b.turns, b.index.cursor, b.next);
        assert b.index.cursor < Slice(b.turns, b.index.cursor, b.next)[0].sequence <= b.next;
        assert IndexThrough(b, through, maxChars) == IndexThrough(b, b.next, maxChars);
        IndexThroughKeeps(b, b.next, maxChars);
      }
    }
  }

  lemma {:induction false} SliceBeyond(turns: seq<Turn>, c: nat, next: nat, through: nat)
    requires next <= through && forall i :: 0 <= i < |turns| ==> turns[i].sequence <= next
    ensures Slice(turns, c, through) == Slice(turns, c, next)
  {
    if turns != [] { SliceBeyond(turns[1..], c, next, through); }
  }

  /** A turn appended, or the index transaction called with any bound. */
  datatype Call = Add(owner: bool, text: string) | IndexTo(through: int)

  function Answer(b: Book, call: Call, maxChars: nat): Book {
    match call
    case Add(owner, text) => b.(turns := b.turns + [Turn(b.next + 1, owner, text)], next := b.next + 1)
    case IndexTo(through) => b.(index := IndexThrough(b, through, maxChars))
  }

  function Answers(b: Book, calls: seq<Call>, maxChars: nat): Book
    decreases |calls|
  {
    if calls == [] then b else Answers(Answer(b, calls[0], maxChars), calls[1..], maxChars)
  }

  /** No chunk holds a turn with this sequence. */
  ghost predicate Absent(index: Index, q: nat) {
    forall i :: 0 <= i < |Flatten(Groups(index.chunks))| ==> Flatten(Groups(index.chunks))[i].sequence != q
  }

  lemma {:induction false} WithTextAbove(rows: seq<Turn>, c: nat)
    requires forall i :: 0 <= i < |rows| ==> rows[i].sequence > c
    ensures forall i :: 0 <= i < |WithText(rows)| ==> WithText(rows)[i].sequence > c
  {
    if rows != [] { WithTextAbove(rows[1..], c); }
  }

  lemma AnswerKeepsAbsent(b: Book, call: Call, maxChars: nat, q: nat)
    requires Absent(b.index, q) && q <= b.index.cursor
    ensures Absent(Answer(b, call, maxChars).index, q) && q <= Answer(b, call, maxChars).index.cursor
  {
    if call.IndexTo? && call.through > b.index.cursor {
      var rows := Slice(b.turns, b.index.cursor, call.through);
      SliceMembers(b.turns, b.index.cursor, call.through);
      if rows != [] {
        AppendedFlatten(b.index.chunks, rows, maxChars);
        WithTextAbove(rows, b.index.cursor);
      }
    }
  }

  /** A turn that the cursor has passed without indexing it is indexed by no later call. */
  lemma {:induction false} PassedForever(b: Book, calls: seq<Call>, maxChars: nat, q: nat)
    requires Absent(b.index, q) && q <= b.index.cursor
    ensures Absent(Answers(b, calls, maxChars).index, q)
    decreases |calls|
  {
    if calls != [] {
      AnswerKeepsAbsent(b, calls[0], maxChars, q);
      PassedForever(Answer(b, calls[0], maxChars), calls[1..], maxChars, q);
    }
  }

  /**
   From any faithful index, a call whose bound is beyond the last sequence handed out and that finds nothing to
   index: every turn that is later given a sequence up to that bound is indexed by no call, ever.
   */
  lemma OverreachSkipsForever(b: Book, through: nat, calls: seq<Call>, maxChars: nat, q: nat)
    requires IndexOk(b, maxChars) && Slice(b.turns, b.index.cursor, through) == [] && b.next < q <= through
    ensures Absent(Answers(b.(index := IndexThrough(b, through, maxChars)), calls, maxChars).index, q)
  {
    KeptMembers(b.turns, b.index.cursor);
    var c := b.(index := IndexThrough(b, through, maxChars));
    assert c.index == Index(through, b.index.chunks);
    PassedForever(c, calls, maxChars, q);
  }
}
