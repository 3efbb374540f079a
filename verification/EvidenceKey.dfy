/** The dedupe key of a memory candidate: a digest over the sorted lines of its evidence references. */
module EvidenceKey {
  datatype Ref = Ref(turn: string, span: string)

  /** SHA-256, taken to be collision-free. */
  datatype Digest = Sha256(material: string)

  const UUID_LENGTH: nat := 36

  predicate IsUuidChar(c: char) {
    '0' <= c <= '9' || 'a' <= c <= 'f' || c == '-'
  }

  /** The canonical text of a UUID. */
  predicate IsUuid(s: string) {
    |s| == UUID_LENGTH && forall i :: 0 <= i < |s| ==> IsUuidChar(s[i])
  }

  predicate Flat(s: string) {
    forall i :: 0 <= i < |s| ==> s[i] != '\n'
  }

  predicate Canonical(r: Ref) {
    IsUuid(r.turn) && Flat(r.span)
  }

  ghost predicate AllCanonical(refs: seq<Ref>) {
    forall i :: 0 <= i < |refs| ==> Canonical(refs[i])
  }

  function Line(r: Ref): string {
    r.turn + ":" + r.span
  }

  function Lines(refs: seq<Ref>): (r: seq<string>)
    ensures |r| == |refs|
    ensures forall i :: 0 <= i < |refs| ==> r[i] == Line(refs[i])
  {
    if refs == [] then [] else [Line(refs[0])] + Lines(refs[1..])
  }

  /** Order of strings by code point. */
  predicate AtMost(a: string, b: string) {
    a == "" || (b != "" && (a[0] < b[0] || (a[0] == b[0] && AtMost(a[1..], b[1..]))))
  }

  function Insert(x: string, s: seq<string>): seq<string> {
    if s == [] || AtMost(x, s[0]) then [x] + s else [s[0]] + Insert(x, s[1..])
  }

  function Sort(s: seq<string>): seq<string> {
    if s == [] then [] else Insert(s[0], Sort(s[1..]))
  }

  function JoinLines(s: seq<string>): string {
    if s == [] then "" else if |s| == 1 then s[0] else s[0] + "\n" + JoinLines(s[1..])
  }

  function EvidenceSetHash(refs: seq<Ref>): Digest {
    Sha256(JoinLines(Sort(Lines(refs))))
  }

  /** Keeps the first occurrence of each element, in order. */
  function Dedupe<T(==)>(s: seq<T>): seq<T> {
    if s == [] then []
    else
      var front := Dedupe(s[..|s| - 1]);
      var x := s[|s| - 1];
      if x in front then front else front + [x]
  }

  /******* The order and the sort *******/

  lemma {:induction false} AtMostTotal(a: string, b: string)
    ensures AtMost(a, b) || AtMost(b, a)
  {
    if a != "" && b != "" && a[0] == b[0] { AtMostTotal(a[1..], b[1..]); }
  }

  lemma {:induction false} AtMostAntisymmetric(a: string, b: string)
    requires AtMost(a, b) && AtMost(b, a)
    ensures a == b
  {
    if a != "" {
      AtMostAntisymmetric(a[1..], b[1..]);
      assert a == [a[0]] + a[1..] && b == [b[0]] + b[1..];
    }
  }

  lemma {:induction false} AtMostTransitive(a: string, b: string, c: string)
    requires AtMost(a, b) && AtMost(b, c)
    ensures AtMost(a, c)
  {
    if a != "" && a[0] == b[0] == c[0] { AtMostTransitive(a[1..], b[1..], c[1..]); }
  }

  /** Every line is at least the first and the rest is sorted. */
  ghost predicate Sorted(s: seq<string>) {
    s != [] ==> (forall x :: x in s ==> AtMost(s[0], x)) && Sorted(s[1..])
  }

  lemma {:induction false} InsertElements(x: string, s: seq<string>)
    ensures multiset(Insert(x, s)) == multiset{x} + multiset(s)
    ensures |Insert(x, s)| == |s| + 1
  {
    if s != [] {
      assert s == [s[0]] + s[1..];
      InsertElements(x, s[1..]);
    }
  }

  lemma {:induction false} SortElements(s: seq<string>)
    ensures multiset(Sort(s)) == multiset(s)
  {
    if s != [] {
      assert s == [s[0]] + s[1..];
      SortElements(s[1..]);
      InsertElements(s[0], Sort(s[1..]));
    }
  }

  lemma AtMostReflexive(a: string)
    ensures AtMost(a, a)
  {
    AtMostTotal(a, a);
  }

  lemma {:induction false} InsertSorts(x: string, s: seq<string>)
    requires Sorted(s)
    ensures Sorted(Insert(x, s))
  {
    if s == [] {
      AtMostReflexive(x);
    } else if AtMost(x, s[0]) {
      assert ([x] + s)[1..] == s;
      AtMostReflexive(x);
      forall y | y in s ensures AtMost(x, y) { AtMostTransitive(x, s[0], y); }
    } else {
      AtMostTotal(x, s[0]);
      InsertSorts(x, s[1..]);
      var t := Insert(x, s[1..]);
      assert ([s[0]] + t)[1..] == t;
      InsertElements(x, s[1..]);
      AtMostReflexive(s[0]);
      forall y | y in t ensures AtMost(s[0], y) {
        assert y in multiset(t);
        assert y == x || y in s[1..];
      }
    }
  }

  lemma {:induction false} SortSorts(s: seq<string>)
    ensures Sorted(Sort(s))
  {
    if s != [] {
      SortSorts(s[1..]);
      InsertSorts(s[0], Sort(s[1..]));
    }
  }

  /** A sorted sequence is determined by its elements. */
  lemma {:induction false} SortedUnique(a: seq<string>, b: seq<string>)
    requires Sorted(a) && Sorted(b) && multiset(a) == multiset(b)
    ensures a == b
  {
    assert |a| == |multiset(a)| == |multiset(b)| == |b|;
    if a != [] {
      assert a[0] in multiset(a) && b[0] in multiset(b);
      AtMostAntisymmetric(a[0], b[0]);
      assert a == [a[0]] + a[1..] && b == [b[0]] + b[1..];
      assert multiset(a[1..]) == multiset(a) - multiset{a[0]};
      assert multiset(b[1..]) == multiset(b) - multiset{b[0]};
      SortedUnique(a[1..], b[1..]);
    }
  }

  /******* Joining is injective *******/

  ghost predicate FlatLines(s: seq<string>) {
    forall i :: 0 <= i < |s| ==> Flat(s[i]) && s[i] != ""
  }

  lemma BreakComesAfter(a: string, p: string, b: string, q: string)
    requires Flat(b) && a + p == b + q && (p == "" || p[0] == '\n')
    ensures |b| <= |a|
  {
    assert forall i :: 0 <= i < |b| ==> (b + q)[i] == b[i];
    assert p != "" ==> (a + p)[|a|] == '\n';
  }

  /** Two texts that continue with a line break, or end, split at the same place. */
  lemma FirstLineUnique(a: string, p: string, b: string, q: string)
    requires Flat(a) && Flat(b) && a + p == b + q
    requires (p == "" || p[0] == '\n') && (q == "" || q[0] == '\n')
    ensures a == b && p == q
  {
    BreakComesAfter(a, p, b, q);
    BreakComesAfter(b, q, a, p);
    assert a == (a + p)[..|a|] && b == (b + q)[..|b|];
    assert p == (a + p)[|a|..] && q == (b + q)[|b|..];
  }

  /** What follows the first line of a joined text. */
  function Tail(s: seq<string>): string
    requires s != []
  {
    if |s| == 1 then "" else "\n" + JoinLines(s[1..])
  }

  lemma JoinHead(s: seq<string>)
    requires s != []
    ensures JoinLines(s) == s[0] + Tail(s)
  {
    if |s| > 1 { assert s[0] + "\n" + JoinLines(s[1..]) == s[0] + ("\n" + JoinLines(s[1..])); }
  }

  lemma {:induction false} JoinInjective(a: seq<string>, b: seq<string>)
    requires FlatLines(a) && FlatLines(b) && JoinLines(a) == JoinLines(b)
    ensures a == b
  {
    if a != [] { JoinHead(a); }
    if b != [] { JoinHead(b); }
    if a != [] && b != [] {
      FirstLineUnique(a[0], Tail(a), b[0], Tail(b));
      assert a == [a[0]] + a[1..] && b == [b[0]] + b[1..];
      if |a| > 1 && |b| > 1 {
        assert JoinLines(a[1..]) == Tail(a)[1..] && JoinLines(b[1..]) == Tail(b)[1..];
        JoinInjective(a[1..], b[1..]);
      }
    }
  }

  /******* The key *******/

  lemma LineInjective(a: Ref, b: Ref)
    requires Canonical(a) && Canonical(b) && Line(a) == Line(b)
    ensures a == b
  {
    assert a.turn == Line(a)[..UUID_LENGTH] && b.turn == Line(b)[..UUID_LENGTH];
    assert a.span == Line(a)[UUID_LENGTH + 1..] && b.span == Line(b)[UUID_LENGTH + 1..];
  }

  lemma LineFlat(r: Ref)
    requires Canonical(r)
    ensures Flat(Line(r)) && Line(r) != ""
  {
    forall i | 0 <= i < |Line(r)| ensures Line(r)[i] != '\n' {
      if i < |r.turn| { assert IsUuidChar(r.turn[i]); }
    }
  }

  /** A reference occurs as often as its line. */
  lemma {:induction false} LineCount(refs: seq<Ref>, r: Ref)
    requires AllCanonical(refs) && Canonical(r)
    ensures multiset(Lines(refs))[Line(r)] == multiset(refs)[r]
  {
    if refs != [] {
      LineCount(refs[1..], r);
      assert refs == [refs[0]] + refs[1..];
      assert Lines(refs) == [Line(refs[0])] + Lines(refs[1..]);
      if refs[0] != r && Line(refs[0]) == Line(r) { LineInjective(refs[0], r); }
    }
  }

  lemma LinesElements(a: seq<Ref>, b: seq<Ref>)
    requires AllCanonical(a) && AllCanonical(b) && multiset(a) == multiset(b)
    ensures multiset(Lines(a)) <= multiset(Lines(b))
  {
    forall l | l in multiset(Lines(a)) ensures multiset(Lines(a))[l] <= multiset(Lines(b))[l] {
      assert l in Lines(a);
      var k :| 0 <= k < |a| && Lines(a)[k] == l;
      LineCount(a, a[k]);
      LineCount(b, a[k]);
    }
  }

  lemma SortedLinesFlat(refs: seq<Ref>)
    requires AllCanonical(refs)
    ensures FlatLines(Sort(Lines(refs)))
  {
    var s := Sort(Lines(refs));
    SortElements(Lines(refs));
    forall i | 0 <= i < |s| ensures Flat(s[i]) && s[i] != "" {
      assert s[i] in multiset(s);
      assert s[i] in multiset(Lines(refs));
      var j :| 0 <= j < |refs| && Lines(refs)[j] == s[i];
      LineFlat(refs[j]);
    }
  }

  /** Equal keys mean the same references, each cited the same number of times, in whatever order. */
  lemma HashIffSameMultiset(a: seq<Ref>, b: seq<Ref>)
    requires AllCanonical(a) && AllCanonical(b)
    ensures EvidenceSetHash(a) == EvidenceSetHash(b) <==> multiset(a) == multiset(b)
  {
    SortElements(Lines(a));
    SortElements(Lines(b));
    if multiset(a) == multiset(b) {
      LinesElements(a, b);
      LinesElements(b, a);
      SortSorts(Lines(a));
      SortSorts(Lines(b));
      SortedUnique(Sort(Lines(a)), Sort(Lines(b)));
    }
    if EvidenceSetHash(a) == EvidenceSetHash(b) {
      SortedLinesFlat(a);
      SortedLinesFlat(b);
      JoinInjective(Sort(Lines(a)), Sort(Lines(b)));
      forall r: Ref | r in multiset(a) || r in multiset(b) ensures multiset(a)[r] == multiset(b)[r] {
        assert Canonical(r) by {
          if r in multiset(a) { assert r in a; } else { assert r in b; }
        }
        LineCount(a, r);
        LineCount(b, r);
      }
      assert multiset(a) == multiset(b) by {
        assert forall r: Ref :: multiset(a)[r] == multiset(b)[r];
      }
    }
  }

  /******* Sets *******/

  ghost predicate Distinct<T(!new)>(s: seq<T>) {
    forall i, j :: 0 <= i < j < |s| ==> s[i] != s[j]
  }

  ghost function Elements<T>(s: seq<T>): set<T> {
    set x | x in s
  }

  lemma {:induction false} DedupeFacts<T(!new)>(s: seq<T>)
    ensures Distinct(Dedupe(s))
    ensures Elements(Dedupe(s)) == Elements(s)
    ensures |Dedupe(s)| <= |s|
  {
    if s != [] {
      DedupeFacts(s[..|s| - 1]);
      assert s == s[..|s| - 1] + [s[|s| - 1]];
      assert forall x :: x in s <==> x in s[..|s| - 1] || x == s[|s| - 1];
      var front := Dedupe(s[..|s| - 1]);
      assert forall x :: x in front <==> x in Elements(front);
    }
  }

  lemma {:induction false} DistinctCounts<T(!new)>(s: seq<T>, x: T)
    requires Distinct(s)
    ensures multiset(s)[x] == if x in s then 1 else 0
  {
    if s != [] {
      DistinctCounts(s[1..], x);
      assert s == [s[0]] + s[1..];
    }
  }

  lemma SameElements<T(!new)>(a: seq<T>, b: seq<T>)
    requires Distinct(a) && Distinct(b)
    ensures multiset(a) == multiset(b) <==> Elements(a) == Elements(b)
  {
    forall x ensures multiset(a)[x] == (if x in Elements(a) then 1 else 0) {
      DistinctCounts(a, x);
    }
    forall x ensures multiset(b)[x] == (if x in Elements(b) then 1 else 0) {
      DistinctCounts(b, x);
    }
    if multiset(a) == multiset(b) {
      assert forall x :: x in Elements(a) <==> x in Elements(b);
    }
  }

  lemma DistinctKeys(a: seq<Ref>, b: seq<Ref>)
    requires AllCanonical(a) && AllCanonical(b) && Distinct(a) && Distinct(b)
    ensures EvidenceSetHash(a) == EvidenceSetHash(b) <==> Elements(a) == Elements(b)
  {
    HashIffSameMultiset(a, b);
    SameElements(a, b);
  }

  lemma DedupeCanonical(s: seq<Ref>)
    requires AllCanonical(s)
    ensures AllCanonical(Dedupe(s))
  {
    DedupeFacts(s);
    var d := Dedupe(s);
    forall i | 0 <= i < |d| ensures Canonical(d[i]) {
      assert d[i] in Elements(d);
      assert d[i] in s;
    }
  }

  /** The dedupe key of two proposals agrees exactly when they cite the same set, whatever the order or repetition. */
  lemma KeyIffSameSet(a: seq<Ref>, b: seq<Ref>)
    requires AllCanonical(a) && AllCanonical(b)
    ensures EvidenceSetHash(Dedupe(a)) == EvidenceSetHash(Dedupe(b)) <==> Elements(a) == Elements(b)
  {
    DedupeFacts(a);
    DedupeFacts(b);
    DedupeCanonical(a);
    DedupeCanonical(b);
    DistinctKeys(Dedupe(a), Dedupe(b));
  }

  /** Without the removal of duplicates the digest would tell a repeated citation from a single one. */
  lemma BareHashSeesRepetition(r: Ref)
    requires Canonical(r)
    ensures Elements([r, r]) == Elements([r])
    ensures EvidenceSetHash([r, r]) != EvidenceSetHash([r])
  {
    HashIffSameMultiset([r, r], [r]);
    assert |multiset([r, r])| == 2 && |multiset([r])| == 1;
  }
}
