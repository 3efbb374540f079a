/** Greedy chunking of transcript turns and the durable index cursor it resumes from. */
module TranscriptIndex {
  /** A turn row; `text` is its searchable projection, empty when it has none. */
  datatype Turn = Turn(sequence: nat, owner: bool, text: string)

  /** A stored chunk and the turns it was derived from. */
  datatype Chunk = Chunk(rows: seq<Turn>, content: string) {
    function Start(): nat
      requires rows != []
    {
      rows[0].sequence
    }

    function End(): nat
      requires rows != []
    {
      rows[|rows| - 1].sequence
    }
  }

  /******* Joining and flattening *******/

  const SEP := "\n\n"

  function Join(parts: seq<string>): string {
    if parts == [] then "" else if |parts| == 1 then parts[0] else parts[0] + SEP + Join(parts[1..])
  }

  function Texts(rows: seq<Turn>): seq<string> {
    seq(|rows|, i requires 0 <= i < |rows| => rows[i].text)
  }

  function WithText(rows: seq<Turn>): seq<Turn> {
    if rows == [] then []
    else (if rows[0].text == "" then [] else [rows[0]]) + WithText(rows[1..])
  }

  function Flatten(groups: seq<seq<Turn>>): seq<Turn> {
    if groups == [] then [] else groups[0] + Flatten(groups[1..])
  }

  lemma {:induction false} JoinConcat(a: seq<string>, b: seq<string>)
    requires a != [] && b != []
    ensures Join(a + b) == Join(a) + SEP + Join(b)
  {
    if |a| == 1 {
      assert (a + b)[1..] == b;
    } else {
      JoinConcat(a[1..], b);
      assert (a + b)[1..] == a[1..] + b;
    }
  }

  lemma {:induction false} FlattenConcat(x: seq<seq<Turn>>, y: seq<seq<Turn>>)
    ensures Flatten(x + y) == Flatten(x) + Flatten(y)
  {
    if x == [] {
      assert x + y == y;
    } else {
      FlattenConcat(x[1..], y);
      assert (x + y)[1..] == x[1..] + y && (x + y)[0] == x[0];
      Assoc(x[0], Flatten(x[1..]), Flatten(y));
    }
  }

  ghost predicate NonEmpty(groups: seq<seq<Turn>>) {
    forall k :: 0 <= k < |groups| ==> groups[k] != []
  }

  function Contents(groups: seq<seq<Turn>>): seq<string> {
    seq(|groups|, k requires 0 <= k < |groups| => Join(Texts(groups[k])))
  }

  /** Joining the joined groups is joining everything: chunk boundaries lose and add nothing. */
  lemma {:induction false} JoinFlatten(groups: seq<seq<Turn>>)
    requires NonEmpty(groups)
    ensures Join(Contents(groups)) == Join(Texts(Flatten(groups)))
    decreases |groups|
  {
    if |groups| > 0 {
      var rest := groups[1..];
      JoinFlatten(rest);
      assert Contents(groups)[1..] == Contents(rest);
      assert Texts(Flatten(groups)) == Texts(groups[0]) + Texts(Flatten(rest));
      if |groups| == 1 {
        assert Texts(Flatten(groups)) == Texts(groups[0]);
      } else {
        assert Flatten(rest) == rest[0] + Flatten(rest[1..]);
        JoinConcat(Texts(groups[0]), Texts(Flatten(rest)));
      }
    }
  }

  /******* Greedy packing *******/

  /** Packing `rows` into chunks, resuming with the open chunk `current` and its character count. */
  function Pack(rows: seq<Turn>, maxChars: nat, current: seq<Turn>, chars: nat): seq<seq<Turn>>
    decreases |rows|
  {
    if rows == [] then (if current == [] then [] else [current])
    else if rows[0].text == "" then Pack(rows[1..], maxChars, current, chars)
    else
      var addition := |rows[0].text| + (if current == [] then 0 else 2);
      if current != [] && chars + addition > maxChars
      then [current] + Pack(rows[1..], maxChars, [rows[0]], addition)
      else Pack(rows[1..], maxChars, current + [rows[0]], chars + addition)
  }

  /** The chunks made so far and what packing the remaining rows still adds. */
  function Plan(chunks: seq<Chunk>, rows: seq<Turn>, i: nat, maxChars: nat, current: seq<Turn>,
                chars: nat): seq<seq<Turn>>
    requires i <= |rows|
  {
    Groups(chunks) + Pack(rows[i..], maxChars, current, chars)
  }

  /** One row, skipped, appended to the open chunk, or put into a new one after a flush: the plan stands. */
  lemma PlanStep(chunks: seq<Chunk>, rows: seq<Turn>, i: nat, maxChars: nat, current: seq<Turn>, chars: nat)
    requires i < |rows|
    ensures var row, plan := rows[i], Plan(chunks, rows, i, maxChars, current, chars);
      var addition := |row.text| + (if current == [] then 0 else 2);
      if row.text == "" then plan == Plan(chunks, rows, i + 1, maxChars, current, chars)
      else if current != [] && chars + addition > maxChars
      then plan == Plan(chunks + [Chunk(current, Join(Texts(current)))], rows, i + 1, maxChars, [row], addition)
      else plan == Plan(chunks, rows, i + 1, maxChars, current + [row], chars + addition)
  {
    assert rows[i..][0] == rows[i] && rows[i..][1..] == rows[i + 1..];
    GroupsSnoc(chunks, Chunk(current, Join(Texts(current))));
  }

  lemma PlanEnd(chunks: seq<Chunk>, rows: seq<Turn>, maxChars: nat, current: seq<Turn>, chars: nat)
    ensures Plan(chunks, rows, |rows|, maxChars, current, chars) ==
      Groups(if current == [] then chunks else chunks + [Chunk(current, Join(Texts(current)))])
  {
    GroupsSnoc(chunks, Chunk(current, Join(Texts(current))));
  }

  lemma GroupsSnoc(chunks: seq<Chunk>, chunk: Chunk)
    ensures Groups(chunks + [chunk]) == Groups(chunks) + [chunk.rows]
  {
  }

  lemma TextsSnoc(rows: seq<Turn>, row: Turn)
    ensures Texts(rows + [row]) == Texts(rows) + [row.text]
  {
  }

  ghost predicate Joined(chunks: seq<Chunk>) {
    forall k :: 0 <= k < |chunks| ==> chunks[k].content == Join(Texts(chunks[k].rows))
  }

  /** The loop over turn rows: three accumulators and a flush. */
  method ChunkRows(rows: seq<Turn>, maxChars: nat) returns (chunks: seq<Chunk>)
    ensures Groups(chunks) == Pack(rows, maxChars, [], 0) && Joined(chunks)
  {
    chunks := [];
    var currentRows: seq<Turn> := [];
    var currentParts: seq<string> := [];
    var currentChars: nat := 0;
    assert Plan(chunks, rows, 0, maxChars, [], 0) == Pack(rows, maxChars, [], 0) by { assert rows[0..] == rows; }
    for i := 0 to |rows|
      invariant Plan(chunks, rows, i, maxChars, currentRows, currentChars) == Pack(rows, maxChars, [], 0)
      invariant Joined(chunks) && currentParts == Texts(currentRows)
    {
      PlanStep(chunks, rows, i, maxChars, currentRows, currentChars);
      var text := rows[i].text;
      if text == "" { continue; }
      var addition := |text| + (if currentParts != [] then 2 else 0);
      if currentRows != [] && currentChars + addition > maxChars {
        chunks := chunks + [Chunk(currentRows, Join(currentParts))];
        currentRows, currentParts, currentChars := [], [], 0;
        assert currentRows + [rows[i]] == [rows[i]];
      }
      TextsSnoc(currentRows, rows[i]);
      currentRows := currentRows + [rows[i]];
      currentParts := currentParts + [text];
      currentChars := currentChars + addition;
    }
    PlanEnd(chunks, rows, maxChars, currentRows, currentChars);
    if currentRows != [] && currentParts != [] {
      chunks := chunks + [Chunk(currentRows, Join(currentParts))];
    }
  }

  function Groups(chunks: seq<Chunk>): seq<seq<Turn>> {
    seq(|chunks|, k requires 0 <= k < |chunks| => chunks[k].rows)
  }

  function JoinedLength(rows: seq<Turn>): nat {
    |Join(Texts(rows))|
  }

  lemma JoinedLengthSnoc(rows: seq<Turn>, row: Turn)
    ensures JoinedLength(rows + [row]) == if rows == [] then |row.text| else JoinedLength(rows) + 2 + |row.text|
  {
    assert Texts(rows + [row]) == Texts(rows) + [row.text];
    if rows != [] { JoinConcat(Texts(rows), [row.text]); }
  }

  lemma {:induction false} PackNonEmpty(rows: seq<Turn>, maxChars: nat, current: seq<Turn>, chars: nat)
    ensures NonEmpty(Pack(rows, maxChars, current, chars))
    decreases |rows|
  {
    if rows != [] {
      var addition := |rows[0].text| + (if current == [] then 0 else 2);
      if rows[0].text == "" {
        PackNonEmpty(rows[1..], maxChars, current, chars);
      } else if current != [] && chars + addition > maxChars {
        PackNonEmpty(rows[1..], maxChars, [rows[0]], addition);
      } else {
        PackNonEmpty(rows[1..], maxChars, current + [rows[0]], chars + addition);
      }
    }
  }

  lemma FlattenCons(group: seq<Turn>, groups: seq<seq<Turn>>)
    ensures Flatten([group] + groups) == group + Flatten(groups) && Flatten([group]) == group
  {
    assert ([group] + groups)[1..] == groups;
    assert [group][1..] == [];
  }

  lemma WithTextHead(rows: seq<Turn>)
    requires rows != []
    ensures WithText(rows) == if rows[0].text == "" then WithText(rows[1..]) else [rows[0]] + WithText(rows[1..])
  {
    assert rows[0].text == "" ==> [] + WithText(rows[1..]) == WithText(rows[1..]);
  }

  lemma Assoc(a: seq<Turn>, b: seq<Turn>, c: seq<Turn>)
    ensures a + (b + c) == a + b + c
  {
  }

  /** Packing neither drops, repeats nor reorders a turn that has text. */
  lemma {:induction false} PackFlattens(rows: seq<Turn>, maxChars: nat, current: seq<Turn>, chars: nat)
    ensures Flatten(Pack(rows, maxChars, current, chars)) == current + WithText(rows)
    decreases |rows|
  {
    if rows == [] {
      FlattenCons(current, []);
    } else {
      var rest, addition := rows[1..], |rows[0].text| + (if current == [] then 0 else 2);
      WithTextHead(rows);
      if rows[0].text == "" {
        PackFlattens(rest, maxChars, current, chars);
      } else if current != [] && chars + addition > maxChars {
        PackFlattens(rest, maxChars, [rows[0]], addition);
        FlattenCons(current, Pack(rest, maxChars, [rows[0]], addition));
      } else {
        PackFlattens(rest, maxChars, current + [rows[0]], chars + addition);
        Assoc(current, [rows[0]], WithText(rest));
      }
    }
  }

  ghost predicate Fits(groups: seq<seq<Turn>>, maxChars: nat) {
    forall k :: 0 <= k < |groups| && |groups[k]| > 1 ==> JoinedLength(groups[k]) <= maxChars
  }

  /**
   A chunk of several turns never exceeds the limit, although the count carried over a flush is
   two characters too high: the count only ever errs upwards.
   */
  lemma {:induction false} PackFits(rows: seq<Turn>, maxChars: nat, current: seq<Turn>, chars: nat)
    requires JoinedLength(current) <= chars && (|current| > 1 ==> JoinedLength(current) <= maxChars)
    ensures Fits(Pack(rows, maxChars, current, chars), maxChars)
    decreases |rows|
  {
    if rows != [] && rows[0].text == "" {
      PackFits(rows[1..], maxChars, current, chars);
    } else if rows != [] {
      var addition := |rows[0].text| + (if current == [] then 0 else 2);
      JoinedLengthSnoc(current, rows[0]);
      if current != [] && chars + addition > maxChars {
        JoinedLengthSnoc([], rows[0]);
        assert [] + [rows[0]] == [rows[0]];
        PackFits(rows[1..], maxChars, [rows[0]], addition);
      } else {
        PackFits(rows[1..], maxChars, current + [rows[0]], chars + addition);
      }
    }
  }

  /** Two neighbouring chunks could not have been packed more tightly, up to the two-character overcount. */
  ghost predicate Tight(groups: seq<seq<Turn>>, maxChars: nat) {
    forall k :: 0 <= k < |groups| - 1 && groups[k] != [] && groups[k + 1] != [] ==>
      JoinedLength(groups[k]) + 2 + |groups[k + 1][0].text| > maxChars - 2
  }

  lemma {:induction false} PackHead(rows: seq<Turn>, maxChars: nat, current: seq<Turn>, chars: nat)
    requires current != []
    ensures var p := Pack(rows, maxChars, current, chars); p != [] && p[0] != [] && p[0][0] == current[0]
    decreases |rows|
  {
    if rows != [] {
      var addition := |rows[0].text| + 2;
      if rows[0].text == "" {
        PackHead(rows[1..], maxChars, current, chars);
      } else if chars + addition <= maxChars {
        PackHead(rows[1..], maxChars, current + [rows[0]], chars + addition);
      }
    }
  }

  lemma TightCons(group: seq<Turn>, groups: seq<seq<Turn>>, maxChars: nat)
    requires Tight(groups, maxChars) && groups != [] && groups[0] != []
    requires JoinedLength(group) + 2 + |groups[0][0].text| > maxChars - 2
    ensures Tight([group] + groups, maxChars)
  {
    var all: seq<seq<Turn>> := [group] + groups;
    forall k | 0 <= k < |all| - 1 && all[k] != [] && all[k + 1] != []
      ensures JoinedLength(all[k]) + 2 + |all[k + 1][0].text| > maxChars - 2
    {
      assert all[k + 1] == groups[k];
      if k > 0 { assert all[k] == groups[k - 1]; }
    }
  }

  lemma {:induction false} PackTight(rows: seq<Turn>, maxChars: nat, current: seq<Turn>, chars: nat)
    requires chars <= JoinedLength(current) + 2
    ensures Tight(Pack(rows, maxChars, current, chars), maxChars)
    decreases |rows|
  {
    if rows != [] && rows[0].text == "" {
      PackTight(rows[1..], maxChars, current, chars);
    } else if rows != [] {
      var addition := |rows[0].text| + (if current == [] then 0 else 2);
      if current != [] && chars + addition > maxChars {
        JoinedLengthSnoc([], rows[0]);
        assert [] + [rows[0]] == [rows[0]];
        PackTight(rows[1..], maxChars, [rows[0]], addition);
        PackHead(rows[1..], maxChars, [rows[0]], addition);
        TightCons(current, Pack(rows[1..], maxChars, [rows[0]], addition), maxChars);
      } else {
        JoinedLengthSnoc(current, rows[0]);
        PackTight(rows[1..], maxChars, current + [rows[0]], chars + addition);
      }
    }
  }
}
