/** Reciprocal-rank fusion of a lexical and a semantic result list, over real numbers. */
module RankFusion {
  import opened Common

  const RRF_K: real := 60.0
  const LEXICAL: real := 1.1
  const SEMANTIC: real := 1.0
  const CANDIDATE_MAX := 40

  /** A retrieved chunk: its identifier and the sequence it ends at. */
  datatype Hit = Hit(id: nat, end: nat)

  datatype Item = Item(hit: Hit, score: real)

  predicate Distinct(hits: seq<Hit>) {
    forall i, j :: 0 <= i < j < |hits| ==> hits[i].id != hits[j].id
  }

  /** Where `id` stands in a list, counting from one; zero when it is absent. */
  function Position(hits: seq<Hit>, id: nat): (p: nat)
    ensures p <= |hits|
    ensures p > 0 ==> hits[p - 1].id == id
  {
    if hits == [] then 0
    else
      var last := |hits| - 1;
      var p := Position(hits[..last], id);
      if p > 0 then p else if hits[last].id == id then |hits| else 0
  }

  lemma {:induction false} PositionPresent(hits: seq<Hit>, i: nat)
    requires i < |hits|
    ensures Position(hits, hits[i].id) > 0
    decreases |hits|
  {
    if i < |hits| - 1 { PositionPresent(hits[..|hits| - 1], i); }
  }

  /** The position is that of the first hit with the identifier, and zero exactly when there is none. */
  lemma {:induction false} PositionExactly(hits: seq<Hit>, id: nat, p: nat)
    ensures p > 0 ==>
      (Position(hits, id) == p <==>
         p <= |hits| && hits[p - 1].id == id && forall i :: 0 <= i < p - 1 ==> hits[i].id != id)
    ensures Position(hits, id) == 0 <==> forall i :: 0 <= i < |hits| ==> hits[i].id != id
  {
    if hits != [] {
      var front := hits[..|hits| - 1];
      PositionExactly(front, id, p);
      assert forall i :: 0 <= i < |front| ==> hits[i] == front[i];
    }
  }

  function Share(weight: real, position: nat): real {
    if position == 0 then 0.0 else weight / (RRF_K + position as real)
  }

  /** The fused score of an item, from its two positions alone. */
  function Score(lexical: seq<Hit>, semantic: seq<Hit>, id: nat): real {
    Share(LEXICAL, Position(lexical, id)) + Share(SEMANTIC, Position(semantic, id))
  }

  function CandidateLimit(limit: int): int {
    Max(20, Min(CANDIDATE_MAX, Max(1, Min(limit, 10)) * 4))
  }

  /** What a retriever returns of its matches: as many as the search asks for, never more than forty. */
  function Candidates(matches: seq<Hit>, limit: int): (hits: seq<Hit>)
    ensures |hits| <= CANDIDATE_MAX && hits <= matches
  {
    matches[..Min(CandidateLimit(limit), |matches|)]
  }

  /******* The arithmetic of shares *******/

  lemma ShareBounds(weight: real, p: nat)
    requires weight > 0.0 && 1 <= p <= CANDIDATE_MAX
    ensures weight / 100.0 <= Share(weight, p) <= weight / 61.0
  {
    DivisionOrder(weight, 61.0, RRF_K + p as real);
    DivisionOrder(weight, RRF_K + p as real, 100.0);
  }

  lemma DivisionOrder(w: real, a: real, b: real)
    requires w > 0.0 && 0.0 < a <= b
    ensures w / b <= w / a
    ensures a < b ==> w / b < w / a
  {
    var x, y := w / a, w / b;
    assert x * a == w && y * b == w;
    if a < b {
      if y >= x {
        ProductOrder(x, y, a, b);
        assert false;
      }
    }
  }

  lemma ProductOrder(x: real, y: real, a: real, b: real)
    requires 0.0 < x <= y && 0.0 < a < b
    ensures x * a < y * b
  {
    assert x * a < x * b;
    assert x * b <= y * b;
  }

  /** For lists within the candidate limit, an item found by both retrievers outranks one found by only one. */
  lemma BothBeatsOne(lexical: seq<Hit>, semantic: seq<Hit>, both: nat, one: nat)
    requires |lexical| <= CANDIDATE_MAX && |semantic| <= CANDIDATE_MAX
    requires Position(lexical, both) > 0 && Position(semantic, both) > 0
    requires Position(lexical, one) == 0 || Position(semantic, one) == 0
    ensures Score(lexical, semantic, both) > Score(lexical, semantic, one)
  {
    ShareBounds(LEXICAL, Position(lexical, both));
    ShareBounds(SEMANTIC, Position(semantic, both));
    if Position(lexical, one) > 0 { ShareBounds(LEXICAL, Position(lexical, one)); }
    if Position(semantic, one) > 0 { ShareBounds(SEMANTIC, Position(semantic, one)); }
  }

  /** At least as well placed in a list: earlier, or the other is absent. */
  predicate NoWorse(hits: seq<Hit>, x: nat, y: nat) {
    Position(hits, y) == 0 || 0 < Position(hits, x) <= Position(hits, y)
  }

  lemma NoWorseShare(weight: real, hits: seq<Hit>, x: nat, y: nat)
    requires weight > 0.0 && NoWorse(hits, x, y)
    ensures Share(weight, Position(hits, x)) >= Share(weight, Position(hits, y))
    ensures Position(hits, x) != Position(hits, y) ==>
      Share(weight, Position(hits, x)) > Share(weight, Position(hits, y))
  {
    var p, q := Position(hits, x), Position(hits, y);
    if q > 0 { DivisionOrder(weight, RRF_K + p as real, RRF_K + q as real); }
  }

  /** Dominance in both lists is dominance in the fused score. */
  lemma DominanceScores(lexical: seq<Hit>, semantic: seq<Hit>, x: nat, y: nat)
    requires NoWorse(lexical, x, y) && NoWorse(semantic, x, y)
    requires Position(lexical, x) != Position(lexical, y) || Position(semantic, x) != Position(semantic, y)
    ensures Score(lexical, semantic, x) > Score(lexical, semantic, y)
  {
    NoWorseShare(LEXICAL, lexical, x, y);
    NoWorseShare(SEMANTIC, semantic, x, y);
  }

  predicate OnlyIn(found: seq<Hit>, missed: seq<Hit>, id: nat) {
    Position(found, id) > 0 && Position(missed, id) == 0
  }

  /**
   Of two hits of one retriever each, the lexical one at place p and the semantic one at place q: the lexical one
   scores higher exactly when 10(60 + p) is less than 11(60 + q), and equally exactly when they are equal.
   */
  lemma OneEach(lexical: seq<Hit>, semantic: seq<Hit>, x: nat, y: nat)
    requires OnlyIn(lexical, semantic, x) && OnlyIn(semantic, lexical, y)
    ensures var p, q := Position(lexical, x), Position(semantic, y);
      && (Score(lexical, semantic, x) > Score(lexical, semantic, y) <==> 10 * (60 + p) < 11 * (60 + q))
      && (Score(lexical, semantic, x) == Score(lexical, semantic, y) <==> 10 * (60 + p) == 11 * (60 + q))
  {
    CrossOrder(1.1, 60.0 + Position(lexical, x) as real, 1.0, 60.0 + Position(semantic, y) as real);
  }

  lemma CrossOrder(v: real, a: real, w: real, b: real)
    requires v > 0.0 && w > 0.0 && a > 0.0 && b > 0.0
    ensures v / a > w / b <==> v * b > w * a
    ensures v / a == w / b <==> v * b == w * a
  {
    var x, y := v / a, w / b;
    assert x * a == v && y * b == w;
    assert v * b == x * (a * b) && w * a == y * (a * b);
    if x > y { ScaledOrder(y, x, a * b); } else if x < y { ScaledOrder(x, y, a * b); }
  }

  lemma ScaledOrder(x: real, y: real, c: real)
    requires x < y && c > 0.0
    ensures x * c < y * c
  {
  }

  /******* Sorting *******/

  /** When an item was first met: in the lexical list, and after all of it in the semantic one. */
  function Met(lexical: seq<Hit>, semantic: seq<Hit>, id: nat): nat {
    if Position(lexical, id) > 0 then Position(lexical, id) else |lexical| + Position(semantic, id)
  }

  /** Higher score; of equal scores, the later end; of equal ends, the one met first. */
  predicate Precedes(lexical: seq<Hit>, semantic: seq<Hit>, a: Item, b: Item) {
    || a.score > b.score
    || (a.score == b.score && a.hit.end > b.hit.end)
    || (a.score == b.score && a.hit.end == b.hit.end
        && Met(lexical, semantic, a.hit.id) < Met(lexical, semantic, b.hit.id))
  }

  ghost predicate Ranked(lexical: seq<Hit>, semantic: seq<Hit>, items: seq<Item>) {
    forall i, j :: 0 <= i < j < |items| ==> Precedes(lexical, semantic, items[i], items[j])
  }

  /** In the order they were met. */
  ghost predicate InOrder(lexical: seq<Hit>, semantic: seq<Hit>, order: seq<Hit>) {
    forall i, j :: 0 <= i < j < |order| ==> Met(lexical, semantic, order[i].id) < Met(lexical, semantic, order[j].id)
  }

  /** Descending by score, then by end sequence. */
  predicate AtLeast(a: Item, b: Item) {
    a.score > b.score || (a.score == b.score && a.hit.end >= b.hit.end)
  }

  function Insert(item: Item, sorted: seq<Item>): seq<Item> {
    if sorted == [] || AtLeast(item, sorted[0]) then [item] + sorted
    else [sorted[0]] + Insert(item, sorted[1..])
  }

  /** Stable descending sort. */
  function Sorted(items: seq<Item>): seq<Item> {
    if items == [] then [] else Insert(items[0], Sorted(items[1..]))
  }

  lemma {:induction false} InsertPermutes(item: Item, sorted: seq<Item>)
    ensures multiset(Insert(item, sorted)) == multiset(sorted) + multiset{item}
  {
    if sorted != [] && !AtLeast(item, sorted[0]) {
      InsertPermutes(item, sorted[1..]);
      assert sorted == [sorted[0]] + sorted[1..];
    }
  }

  lemma {:induction false} InsertMembers(item: Item, sorted: seq<Item>, k: nat)
    requires k < |Insert(item, sorted)|
    ensures Insert(item, sorted)[k] == item || Insert(item, sorted)[k] in sorted
  {
    if sorted != [] && !AtLeast(item, sorted[0]) && k > 0 { InsertMembers(item, sorted[1..], k - 1); }
  }

  lemma {:induction false} InsertRanks(lexical: seq<Hit>, semantic: seq<Hit>, item: Item, sorted: seq<Item>)
    requires Ranked(lexical, semantic, sorted)
    requires forall k :: 0 <= k < |sorted| ==>
      Met(lexical, semantic, item.hit.id) < Met(lexical, semantic, sorted[k].hit.id)
    ensures Ranked(lexical, semantic, Insert(item, sorted))
  {
    if sorted != [] && !AtLeast(item, sorted[0]) {
      var rest := sorted[1..];
      assert forall i :: 0 <= i < |rest| ==> rest[i] == sorted[i + 1];
      InsertRanks(lexical, semantic, item, rest);
      var r := Insert(item, rest);
      forall k | 0 <= k < |r| ensures Precedes(lexical, semantic, sorted[0], r[k]) { InsertMembers(item, rest, k); }
    } else if sorted != [] {
      forall k | 0 <= k < |sorted| ensures Precedes(lexical, semantic, item, sorted[k]) {
        assert k > 0 ==> Precedes(lexical, semantic, sorted[0], sorted[k]);
      }
    }
  }

  ghost function HitsOf(items: seq<Item>): seq<Hit> {
    seq(|items|, k requires 0 <= k < |items| => items[k].hit)
  }

  lemma {:induction false} SortedPermutes(items: seq<Item>)
    ensures multiset(Sorted(items)) == multiset(items)
  {
    if items != [] {
      SortedPermutes(items[1..]);
      InsertPermutes(items[0], Sorted(items[1..]));
      assert items == [items[0]] + items[1..];
    }
  }

  lemma {:induction false} SortedRanks(lexical: seq<Hit>, semantic: seq<Hit>, items: seq<Item>)
    requires InOrder(lexical, semantic, HitsOf(items))
    ensures Ranked(lexical, semantic, Sorted(items))
  {
    if items != [] {
      var rest := items[1..];
      assert forall k :: 0 <= k < |rest| ==> HitsOf(rest)[k] == HitsOf(items)[k + 1];
      SortedRanks(lexical, semantic, rest);
      SortedPermutes(rest);
      forall k | 0 <= k < |Sorted(rest)|
        ensures Met(lexical, semantic, items[0].hit.id) < Met(lexical, semantic, Sorted(rest)[k].hit.id)
      {
        assert Sorted(rest)[k] in multiset(rest);
        var j :| 0 <= j < |rest| && rest[j] == Sorted(rest)[k];
        assert HitsOf(items)[0] == items[0].hit && HitsOf(items)[j + 1] == rest[j].hit;
      }
      InsertRanks(lexical, semantic, items[0], Sorted(rest));
    }
  }

  /******* The fusion *******/

  ghost predicate InUnion(lexical: seq<Hit>, semantic: seq<Hit>, id: nat) {
    Position(lexical, id) > 0 || Position(semantic, id) > 0
  }

  /** One entry per identifier, in order of first retrieval. */
  ghost predicate Entries(order: seq<Hit>, scores: map<nat, real>) {
    Distinct(order) && forall id :: EntryAt(order, scores, id)
  }

  ghost predicate EntryAt(order: seq<Hit>, scores: map<nat, real>, id: nat) {
    id in scores <==> Position(order, id) > 0
  }

  ghost predicate ScoredAt(scores: map<nat, real>, lexical: seq<Hit>, semantic: seq<Hit>, id: nat) {
    && (id in scores <==> InUnion(lexical, semantic, id))
    && (id in scores ==> scores[id] == Score(lexical, semantic, id))
  }

  ghost predicate Scored(scores: map<nat, real>, lexical: seq<Hit>, semantic: seq<Hit>) {
    forall id :: ScoredAt(scores, lexical, semantic, id)
  }

  ghost predicate Retrieved(order: seq<Hit>, lexical: seq<Hit>, semantic: seq<Hit>) {
    forall k :: 0 <= k < |order| ==> order[k] in lexical || order[k] in semantic
  }

  lemma PositionSnoc(hits: seq<Hit>, hit: Hit, id: nat)
    ensures Position(hits + [hit], id) ==
      if Position(hits, id) > 0 then Position(hits, id) else if hit.id == id then |hits| + 1 else 0
  {
    assert (hits + [hit])[..|hits|] == hits;
  }

  lemma DistinctLast(hits: seq<Hit>, i: nat)
    requires i < |hits| && Distinct(hits)
    ensures Position(hits[..i], hits[i].id) == 0
  {
  }

  function Sofar(scores: map<nat, real>, id: nat): real {
    if id in scores then scores[id] else 0.0
  }

  function AddOrder(order: seq<Hit>, scores: map<nat, real>, hit: Hit): seq<Hit> {
    if hit.id in scores then order else order + [hit]
  }

  /** For one identifier: `scores` is `before` with the share of its position among `hits` added. */
  ghost predicate AddedAt(before: map<nat, real>, scores: map<nat, real>, hits: seq<Hit>, weight: real, id: nat) {
    && (id in scores <==> id in before || Position(hits, id) > 0)
    && (id in scores ==> scores[id] == Sofar(before, id) + Share(weight, Position(hits, id)))
  }

  ghost predicate Added(before: map<nat, real>, scores: map<nat, real>, hits: seq<Hit>, weight: real) {
    forall id :: AddedAt(before, scores, hits, weight, id)
  }

  function Bump(scores: map<nat, real>, hit: Hit, share: real): map<nat, real> {
    scores[hit.id := Sofar(scores, hit.id) + share]
  }

  lemma EntriesStep(order: seq<Hit>, scores: map<nat, real>, hit: Hit, share: real)
    requires Entries(order, scores)
    ensures Entries(AddOrder(order, scores, hit), Bump(scores, hit, share))
  {
    var order', after := AddOrder(order, scores, hit), Bump(scores, hit, share);
    forall k | 0 <= k < |order| ensures order[k].id in scores {
      PositionPresent(order, k);
      assert EntryAt(order, scores, order[k].id);
    }
    forall id ensures EntryAt(order', after, id) {
      assert EntryAt(order, scores, id);
      PositionSnoc(order, hit, id);
    }
  }

  lemma AddedAtStep(before: map<nat, real>, scores: map<nat, real>, front: seq<Hit>, hit: Hit, weight: real, id: nat)
    requires Position(front, hit.id) == 0
    requires AddedAt(before, scores, front, weight, id) && AddedAt(before, scores, front, weight, hit.id)
    ensures AddedAt(before, Bump(scores, hit, Share(weight, |front| + 1)), front + [hit], weight, id)
  {
    PositionSnoc(front, hit, id);
  }

  lemma AddedStep(before: map<nat, real>, scores: map<nat, real>, front: seq<Hit>, hit: Hit, weight: real)
    requires Position(front, hit.id) == 0 && Added(before, scores, front, weight)
    ensures Added(before, Bump(scores, hit, Share(weight, |front| + 1)), front + [hit], weight)
  {
    var after, more := Bump(scores, hit, Share(weight, |front| + 1)), front + [hit];
    forall id ensures AddedAt(before, after, more, weight, id) {
      assert AddedAt(before, scores, front, weight, hit.id);
      AddedAtStep(before, scores, front, hit, weight, id);
    }
  }

  ghost predicate Pass(order0: seq<Hit>, scores0: map<nat, real>, order: seq<Hit>, scores: map<nat, real>,
                       hits: seq<Hit>, weight: real)
  {
    Entries(order, scores) && Added(scores0, scores, hits, weight) && Retrieved(order, order0, hits)
  }

  lemma PassStep(order0: seq<Hit>, scores0: map<nat, real>, order: seq<Hit>, scores: map<nat, real>,
                 hits: seq<Hit>, i: nat, weight: real)
    requires Distinct(hits) && i < |hits| && Pass(order0, scores0, order, scores, hits[..i], weight)
    ensures Pass(order0, scores0, AddOrder(order, scores, hits[i]), Bump(scores, hits[i], Share(weight, i + 1)),
                 hits[..i + 1], weight)
  {
    DistinctLast(hits, i);
    var front, hit := hits[..i], hits[i];
    AddedStep(scores0, scores, front, hit, weight);
    EntriesStep(order, scores, hit, Share(weight, i + 1));
    RetrievedStep(order0, order, scores, front, hit);
    assert hits[..i + 1] == front + [hit];
  }

  lemma RetrievedStep(order0: seq<Hit>, order: seq<Hit>, scores: map<nat, real>, front: seq<Hit>, hit: Hit)
    requires Retrieved(order, order0, front)
    ensures Retrieved(AddOrder(order, scores, hit), order0, front + [hit])
  {
  }

  /** The table after one retriever's hits. */
  function Filled(order0: seq<Hit>, scores0: map<nat, real>, hits: seq<Hit>, weight: real): (seq<Hit>, map<nat, real>) {
    if hits == [] then (order0, scores0)
    else
      var last := |hits| - 1;
      var (order, scores) := Filled(order0, scores0, hits[..last], weight);
      (AddOrder(order, scores, hits[last]), Bump(scores, hits[last], Share(weight, last + 1)))
  }

  lemma FilledStep(order0: seq<Hit>, scores0: map<nat, real>, hits: seq<Hit>, i: nat, weight: real)
    requires i < |hits|
    ensures var (order, scores) := Filled(order0, scores0, hits[..i], weight);
      Filled(order0, scores0, hits[..i + 1], weight)
        == (AddOrder(order, scores, hits[i]), Bump(scores, hits[i], Share(weight, i + 1)))
  {
    assert hits[..i + 1][..i] == hits[..i] && hits[..i + 1][i] == hits[i];
  }

  lemma FilledPass(order0: seq<Hit>, scores0: map<nat, real>, hits: seq<Hit>, weight: real)
    requires Distinct(hits) && Entries(order0, scores0)
    ensures var (order, scores) := Filled(order0, scores0, hits, weight);
      Pass(order0, scores0, order, scores, hits, weight)
  {
    FilledFront(order0, scores0, hits, |hits|, weight);
    assert hits[..|hits|] == hits;
  }

  lemma {:induction false} FilledFront(order0: seq<Hit>, scores0: map<nat, real>, hits: seq<Hit>, i: nat, weight: real)
    requires Distinct(hits) && Entries(order0, scores0) && i <= |hits|
    ensures var (order, scores) := Filled(order0, scores0, hits[..i], weight);
      Pass(order0, scores0, order, scores, hits[..i], weight)
  {
    if i == 0 {
      assert hits[..i] == [];
      EmptyPass(order0, scores0, weight);
    } else {
      FilledFront(order0, scores0, hits, i - 1, weight);
      var (order, scores) := Filled(order0, scores0, hits[..i - 1], weight);
      FilledStep(order0, scores0, hits, i - 1, weight);
      PassStep(order0, scores0, order, scores, hits, i - 1, weight);
    }
  }

  lemma EmptyPass(order0: seq<Hit>, scores0: map<nat, real>, weight: real)
    requires Entries(order0, scores0)
    ensures Pass(order0, scores0, order0, scores0, [], weight)
  {
    forall id ensures AddedAt(scores0, scores0, [], weight, id) {
    }
  }

  /** The first retriever's hits are met one after the other. */
  lemma {:induction false} FirstMet(lexical: seq<Hit>)
    requires Distinct(lexical)
    ensures Filled([], map[], lexical, LEXICAL).0 == lexical
    decreases |lexical|
  {
    if lexical != [] {
      var last := |lexical| - 1;
      FirstMet(lexical[..last]);
      assert forall id :: EntryAt([], map[], id);
      FilledPass([], map[], lexical[..last], LEXICAL);
      DistinctLast(lexical, last);
      assert AddedAt(map[], Filled([], map[], lexical[..last], LEXICAL).1, lexical[..last], LEXICAL, lexical[last].id);
      assert lexical == lexical[..last] + [lexical[last]];
    }
  }

  ghost predicate MetWithin(lexical: seq<Hit>, semantic: seq<Hit>, order: seq<Hit>, n: nat) {
    InOrder(lexical, semantic, order) && forall k :: 0 <= k < |order| ==> Met(lexical, semantic, order[k].id) <= n
  }

  lemma LexicalMet(lexical: seq<Hit>, semantic: seq<Hit>)
    requires Distinct(lexical)
    ensures MetWithin(lexical, semantic, lexical, |lexical|)
  {
    forall k | 0 <= k < |lexical| ensures Met(lexical, semantic, lexical[k].id) == k + 1 {
      PositionExactly(lexical, lexical[k].id, k + 1);
    }
  }

  /** The second retriever's new hits are met after all that came before. */
  lemma {:induction false} ThenMet(lexical: seq<Hit>, semantic: seq<Hit>, scores1: map<nat, real>, i: nat)
    requires Distinct(lexical) && Distinct(semantic) && i <= |semantic|
    requires Entries(lexical, scores1)
    ensures MetWithin(lexical, semantic, Filled(lexical, scores1, semantic[..i], SEMANTIC).0, |lexical| + i)
  {
    if i == 0 {
      assert semantic[..i] == [];
      LexicalMet(lexical, semantic);
    } else {
      FilledStep(lexical, scores1, semantic, i - 1, SEMANTIC);
      ThenMet(lexical, semantic, scores1, i - 1);
      NewlyMet(lexical, semantic, scores1, i - 1);
      var (order, scores) := Filled(lexical, scores1, semantic[..i - 1], SEMANTIC);
      MetStep(lexical, semantic, order, scores, i - 1);
    }
  }

  lemma MetStep(lexical: seq<Hit>, semantic: seq<Hit>, order: seq<Hit>, scores: map<nat, real>, i: nat)
    requires i < |semantic| && MetWithin(lexical, semantic, order, |lexical| + i)
    requires semantic[i].id !in scores ==> Met(lexical, semantic, semantic[i].id) == |lexical| + i + 1
    ensures MetWithin(lexical, semantic, AddOrder(order, scores, semantic[i]), |lexical| + i + 1)
  {
  }

  lemma NewlyMet(lexical: seq<Hit>, semantic: seq<Hit>, scores1: map<nat, real>, i: nat)
    requires Distinct(semantic) && i < |semantic| && Entries(lexical, scores1)
    ensures semantic[i].id !in Filled(lexical, scores1, semantic[..i], SEMANTIC).1 ==>
      Met(lexical, semantic, semantic[i].id) == |lexical| + i + 1
  {
    FilledPass(lexical, scores1, semantic[..i], SEMANTIC);
    assert AddedAt(scores1, Filled(lexical, scores1, semantic[..i], SEMANTIC).1, semantic[..i], SEMANTIC,
                   semantic[i].id);
    assert EntryAt(lexical, scores1, semantic[i].id);
    PositionExactly(semantic, semantic[i].id, i + 1);
  }

  /** One retriever's loop: each hit adds the share of its position to what its identifier has so far. */
  method AddAll(order0: seq<Hit>, scores0: map<nat, real>, hits: seq<Hit>, weight: real)
    returns (order: seq<Hit>, scores: map<nat, real>)
    ensures (order, scores) == Filled(order0, scores0, hits, weight)
  {
    order, scores := order0, scores0;
    for i := 0 to |hits|
      invariant (order, scores) == Filled(order0, scores0, hits[..i], weight)
    {
      assert hits[..i + 1][..i] == hits[..i];
      var key := hits[i].id;
      var sofar := if key in scores then scores[key] else 0.0;
      if key !in scores { order := order + [hits[i]]; }
      scores := scores[key := sofar + Share(weight, i + 1)];
    }
    assert hits[..|hits|] == hits;
  }

  method FillTable(lexical: seq<Hit>, semantic: seq<Hit>) returns (order: seq<Hit>, scores: map<nat, real>)
    requires Distinct(lexical) && Distinct(semantic)
    ensures Entries(order, scores) && Scored(scores, lexical, semantic) && Retrieved(order, lexical, semantic)
    ensures InOrder(lexical, semantic, order)
  {
    assert forall id :: EntryAt([], map[], id);
    var order1, scores1 := AddAll([], map[], lexical, LEXICAL);
    FilledPass([], map[], lexical, LEXICAL);
    FirstMet(lexical);
    order, scores := AddAll(order1, scores1, semantic, SEMANTIC);
    FilledPass(order1, scores1, semantic, SEMANTIC);
    TwoPasses(scores1, scores, lexical, semantic);
    ThenMet(lexical, semantic, scores1, |semantic|);
    assert semantic[..|semantic|] == semantic;
  }

  lemma TwoPasses(scores1: map<nat, real>, scores: map<nat, real>, lexical: seq<Hit>, semantic: seq<Hit>)
    requires Added(map[], scores1, lexical, LEXICAL) && Added(scores1, scores, semantic, SEMANTIC)
    ensures Scored(scores, lexical, semantic)
  {
    forall id ensures ScoredAt(scores, lexical, semantic, id) {
      assert AddedAt(map[], scores1, lexical, LEXICAL, id);
      assert AddedAt(scores1, scores, semantic, SEMANTIC, id);
    }
  }

  /** `items` holds exactly the union of the two lists, once each, with fused scores. */
  ghost predicate IsUnion(items: seq<Item>, lexical: seq<Hit>, semantic: seq<Hit>) {
    && (forall i, j :: 0 <= i < j < |items| ==> items[i].hit.id != items[j].hit.id)
    && (forall k :: 0 <= k < |items| ==>
          && items[k].score == Score(lexical, semantic, items[k].hit.id)
          && InUnion(lexical, semantic, items[k].hit.id)
          && (items[k].hit in lexical || items[k].hit in semantic))
    && (forall id :: InUnion(lexical, semantic, id) ==> exists k :: 0 <= k < |items| && items[k].hit.id == id)
  }

  /** The first `k` of the union, or all of it: by score, then by end, then by when they were met. */
  ghost predicate IsTop(result: seq<Item>, lexical: seq<Hit>, semantic: seq<Hit>, k: int) {
    exists all ::
      && IsUnion(all, lexical, semantic) && Ranked(lexical, semantic, all)
      && |result| == Min(k, |all|) && result == all[..|result|]
  }

  /** Search results: the duplicate-free top of the union by fused score. */
  method Fuse(lexical: seq<Hit>, semantic: seq<Hit>, limit: int) returns (result: seq<Item>)
    requires Distinct(lexical) && Distinct(semantic)
    ensures IsTop(result, lexical, semantic, Max(1, Min(limit, 10)))
  {
    var order, scores := FillTable(lexical, semantic);
    var items := ScoreAll(order, scores);
    TableIsUnion(order, scores, lexical, semantic, items);
    var sorted := Sorted(items);
    SortedPermutes(items);
    assert HitsOf(items) == order;
    SortedRanks(lexical, semantic, items);
    PermutedUnion(items, sorted, lexical, semantic);
    result := sorted[..Min(Max(1, Min(limit, 10)), |sorted|)];
  }

  /** The rank of each entry is its final score. */
  method ScoreAll(order: seq<Hit>, scores: map<nat, real>) returns (items: seq<Item>)
    requires Entries(order, scores)
    ensures |items| == |order|
    ensures forall k :: 0 <= k < |order| ==> order[k].id in scores && items[k] == Item(order[k], scores[order[k].id])
  {
    items := [];
    for k := 0 to |order|
      invariant |items| == k
      invariant forall j :: 0 <= j < k ==> order[j].id in scores && items[j] == Item(order[j], scores[order[j].id])
    {
      PositionPresent(order, k);
      assert EntryAt(order, scores, order[k].id);
      items := items + [Item(order[k], scores[order[k].id])];
    }
  }

  lemma TableIsUnion(order: seq<Hit>, scores: map<nat, real>, lexical: seq<Hit>, semantic: seq<Hit>, items: seq<Item>)
    requires Entries(order, scores) && Scored(scores, lexical, semantic) && Retrieved(order, lexical, semantic)
    requires |items| == |order|
    requires forall k :: 0 <= k < |order| ==> order[k].id in scores && items[k] == Item(order[k], scores[order[k].id])
    ensures IsUnion(items, lexical, semantic)
  {
    forall k | 0 <= k < |items|
      ensures items[k].score == Score(lexical, semantic, items[k].hit.id)
      ensures InUnion(lexical, semantic, items[k].hit.id)
      ensures items[k].hit in lexical || items[k].hit in semantic
    {
      assert ScoredAt(scores, lexical, semantic, order[k].id);
    }
    forall id | InUnion(lexical, semantic, id) ensures exists k :: 0 <= k < |items| && items[k].hit.id == id {
      assert ScoredAt(scores, lexical, semantic, id);
      assert EntryAt(order, scores, id);
      var p := Position(order, id);
      assert items[p - 1].hit.id == id;
    }
  }

  lemma PermutedUnion(x: seq<Item>, y: seq<Item>, lexical: seq<Hit>, semantic: seq<Hit>)
    requires multiset(x) == multiset(y) && IsUnion(x, lexical, semantic)
    ensures IsUnion(y, lexical, semantic)
  {
    forall i, j | 0 <= i < j < |y| ensures y[i].hit.id != y[j].hit.id {
      OncePerId(x, y[i]);
      if y[i].hit.id == y[j].hit.id {
        assert y[j] in multiset(x) && y[i] in multiset(x);
        assert y[i] == y[j];
        TwoCopies(y, i, j);
        assert false;
      }
    }
    forall k | 0 <= k < |y|
      ensures y[k].score == Score(lexical, semantic, y[k].hit.id) && InUnion(lexical, semantic, y[k].hit.id)
      ensures y[k].hit in lexical || y[k].hit in semantic
    {
      assert y[k] in multiset(x);
    }
    forall id | InUnion(lexical, semantic, id) ensures exists k :: 0 <= k < |y| && y[k].hit.id == id {
      var k :| 0 <= k < |x| && x[k].hit.id == id;
      assert x[k] in multiset(y);
    }
  }

  lemma {:induction false} OncePerId(x: seq<Item>, item: Item)
    requires forall i, j :: 0 <= i < j < |x| ==> x[i].hit.id != x[j].hit.id
    ensures multiset(x)[item] <= 1
    decreases |x|
  {
    if x != [] {
      assert x == [x[0]] + x[1..];
      OncePerId(x[1..], item);
      if x[0] == item {
        forall k | 0 <= k < |x[1..]| ensures x[1..][k] != item { assert x[k + 1].hit.id != x[0].hit.id; }
        assert item !in multiset(x[1..]);
      }
    }
  }

  lemma TwoCopies(y: seq<Item>, i: nat, j: nat)
    requires i < j < |y| && y[i] == y[j]
    ensures multiset(y)[y[i]] >= 2
  {
    assert y == y[..j] + [y[j]] + y[j + 1..];
    assert y[i] in y[..j];
  }

  lemma BetterIsEarlier(lexical: seq<Hit>, semantic: seq<Hit>, all: seq<Item>, x: nat, j: nat) returns (i: nat)
    requires IsUnion(all, lexical, semantic) && Ranked(lexical, semantic, all) && j < |all|
    requires InUnion(lexical, semantic, x)
    requires Score(lexical, semantic, x) > Score(lexical, semantic, all[j].hit.id)
    ensures i < j && all[i].hit.id == x
  {
    i :| 0 <= i < |all| && all[i].hit.id == x;
    assert !Precedes(lexical, semantic, all[j], all[i]);
  }

  /** A returned item with the given identifier stands before place `j`. */
  ghost predicate ReturnedBefore(result: seq<Item>, x: nat, j: nat) {
    exists i :: 0 <= i < j && i < |result| && result[i].hit.id == x
  }

  /** Whatever outscores a returned item is returned before it. */
  lemma BetterComesFirst(lexical: seq<Hit>, semantic: seq<Hit>, result: seq<Item>, k: int, x: nat, j: nat)
    ensures IsTop(result, lexical, semantic, k) && j < |result| && InUnion(lexical, semantic, x)
      && Score(lexical, semantic, x) > Score(lexical, semantic, result[j].hit.id)
      ==> ReturnedBefore(result, x, j)
  {
    if IsTop(result, lexical, semantic, k) && j < |result| && InUnion(lexical, semantic, x)
      && Score(lexical, semantic, x) > Score(lexical, semantic, result[j].hit.id)
    {
      var all: seq<Item> :|
        && IsUnion(all, lexical, semantic) && Ranked(lexical, semantic, all)
        && |result| == Min(k, |all|) && result == all[..|result|];
      assert result[j] == all[j];
      var i := BetterIsEarlier(lexical, semantic, all, x, j);
      assert result[i] == all[i];
    }
  }

  predicate FoundByBoth(lexical: seq<Hit>, semantic: seq<Hit>, x: nat) {
    Position(lexical, x) > 0 && Position(semantic, x) > 0
  }

  /** An item found by both retrievers is returned before every returned item that only one of them found. */
  lemma BothComeFirst(lexical: seq<Hit>, semantic: seq<Hit>, result: seq<Item>, k: int, x: nat, j: nat)
    requires |lexical| <= CANDIDATE_MAX && |semantic| <= CANDIDATE_MAX
    ensures IsTop(result, lexical, semantic, k) && j < |result| && FoundByBoth(lexical, semantic, x)
      && !FoundByBoth(lexical, semantic, result[j].hit.id)
      ==> ReturnedBefore(result, x, j)
  {
    if j < |result| && FoundByBoth(lexical, semantic, x) && !FoundByBoth(lexical, semantic, result[j].hit.id) {
      BothBeatsOne(lexical, semantic, x, result[j].hit.id);
      BetterComesFirst(lexical, semantic, result, k, x, j);
    }
  }

  /** An item at least as well placed as another in both lists, and better in one, is returned before it. */
  lemma DominatingComesFirst(lexical: seq<Hit>, semantic: seq<Hit>, result: seq<Item>, k: int, x: nat, j: nat)
    ensures IsTop(result, lexical, semantic, k) && j < |result| && Dominates(lexical, semantic, x, result[j].hit.id)
      ==> ReturnedBefore(result, x, j)
  {
    if IsTop(result, lexical, semantic, k) && j < |result| && Dominates(lexical, semantic, x, result[j].hit.id) {
      DominanceScores(lexical, semantic, x, result[j].hit.id);
      BetterComesFirst(lexical, semantic, result, k, x, j);
    }
  }

  predicate Dominates(lexical: seq<Hit>, semantic: seq<Hit>, x: nat, y: nat) {
    && NoWorse(lexical, x, y) && NoWorse(semantic, x, y)
    && (Position(lexical, x) != Position(lexical, y) || Position(semantic, x) != Position(semantic, y))
  }

  /** Of two hits of one retriever each, the one whose place weighs less: ten times a lexical, eleven a semantic one. */
  predicate Outweighs(lexical: seq<Hit>, semantic: seq<Hit>, x: nat, y: nat) {
    || (OnlyIn(lexical, semantic, x) && OnlyIn(semantic, lexical, y)
        && 10 * (60 + Position(lexical, x)) < 11 * (60 + Position(semantic, y)))
    || (OnlyIn(semantic, lexical, x) && OnlyIn(lexical, semantic, y)
        && 11 * (60 + Position(semantic, x)) < 10 * (60 + Position(lexical, y)))
  }

  lemma OutweighingComesFirst(lexical: seq<Hit>, semantic: seq<Hit>, result: seq<Item>, k: int, x: nat, j: nat)
    ensures IsTop(result, lexical, semantic, k) && j < |result| && Outweighs(lexical, semantic, x, result[j].hit.id)
      ==> ReturnedBefore(result, x, j)
  {
    if IsTop(result, lexical, semantic, k) && j < |result| && Outweighs(lexical, semantic, x, result[j].hit.id) {
      if OnlyIn(lexical, semantic, x) {
        OneEach(lexical, semantic, x, result[j].hit.id);
      } else {
        OneEach(lexical, semantic, result[j].hit.id, x);
      }
      BetterComesFirst(lexical, semantic, result, k, x, j);
    }
  }

  /**
   A whole search, from all matches of both retrievers: at most ten results, in an order in which hits of both
   retrievers come before hits of one, dominating hits before dominated ones, and a hit of one retriever before a
   hit of the other that it outweighs.
   */
  method Search(lexical: seq<Hit>, semantic: seq<Hit>, limit: int) returns (result: seq<Item>)
    requires Distinct(lexical) && Distinct(semantic)
    ensures var l, s := Candidates(lexical, limit), Candidates(semantic, limit);
      && IsTop(result, l, s, Max(1, Min(limit, 10))) && |result| <= 10
      && (forall x, j: nat :: j < |result| && FoundByBoth(l, s, x) && !FoundByBoth(l, s, result[j].hit.id) ==>
            ReturnedBefore(result, x, j))
      && (forall x, j: nat :: j < |result| && Dominates(l, s, x, result[j].hit.id) ==> ReturnedBefore(result, x, j))
      && (forall x, j: nat :: j < |result| && Outweighs(l, s, x, result[j].hit.id) ==> ReturnedBefore(result, x, j))
  {
    var l, s := Candidates(lexical, limit), Candidates(semantic, limit);
    result := Fuse(l, s, limit);
    forall x: nat, j: nat | j < |result| && FoundByBoth(l, s, x) && !FoundByBoth(l, s, result[j].hit.id)
      ensures ReturnedBefore(result, x, j)
    {
      BothComeFirst(l, s, result, Max(1, Min(limit, 10)), x, j);
    }
    forall x: nat, j: nat | j < |result| && Dominates(l, s, x, result[j].hit.id) ensures ReturnedBefore(result, x, j) {
      DominatingComesFirst(l, s, result, Max(1, Min(limit, 10)), x, j);
    }
    forall x: nat, j: nat | j < |result| && Outweighs(l, s, x, result[j].hit.id) ensures ReturnedBefore(result, x, j) {
      OutweighingComesFirst(l, s, result, Max(1, Min(limit, 10)), x, j);
    }
  }
}
