/** What intake promises: which proposals it refuses, one open row per evidence set, and counts that add up. */
module CandidateTheorems {
  import opened Common
  import opened Whitespace
  import opened EvidenceKey
  import opened Candidates

  /******* Normalisation *******/

  /** The field limits make the truncations idle: a collapsed field is never cut. */
  lemma NormalRefFacts(r: RawRef)
    requires RefOk(r)
    ensures NormalRef(r) == RawRef(OrNone(Collapse(TextOf(r.handle))), r.turn, Collapse(r.span))
    ensures NormalRef(NormalRef(r)) == NormalRef(r)
    ensures Flat(NormalRef(r).span)
    ensures RefOk(NormalRef(r)) <==> r.handle.Some? ==> Words(r.handle.value) != []
  {
    CollapseShortens(TextOf(r.handle));
    CollapseShortens(r.span);
    CollapseIdempotent(TextOf(r.handle));
    CollapseIdempotent(r.span);
    JoinWordsFlat(Words(r.span));
    WordsEmptyExactly(TextOf(r.handle));
  }

  lemma {:induction false} DedupeDistinct<T(!new)>(s: seq<T>)
    requires Distinct(s)
    ensures Dedupe(s) == s
  {
    if s != [] {
      var front := s[..|s| - 1];
      assert s == front + [s[|s| - 1]];
      DedupeDistinct(front);
    }
  }

  /** Every kept reference is the normal form of a proposed one, and every proposed one is kept. */
  lemma NormalElements(refs: seq<RawRef>)
    ensures forall x :: x in Dedupe(NormalRefs(refs)) <==> exists i :: 0 <= i < |refs| && x == NormalRef(refs[i])
  {
    var n := NormalRefs(refs);
    DedupeFacts(n);
    forall x ensures x in Dedupe(n) <==> x in n {
      assert x in Elements(Dedupe(n)) <==> x in Elements(n);
    }
    forall x | exists i :: 0 <= i < |refs| && x == NormalRef(refs[i]) ensures x in n {
      var i :| 0 <= i < |refs| && x == NormalRef(refs[i]);
      assert n[i] == x;
    }
  }

  lemma NormalizedFields(c: Candidate, n: Candidate)
    requires CandidateOk(c) && Normalized(c) == Ok(n)
    ensures CandidateOk(n) && n.content == Collapse(c.content) && n.refs == Dedupe(NormalRefs(c.refs))
    ensures Distinct(n.refs)
    ensures forall i :: 0 <= i < |n.refs| ==>
      RefOk(n.refs[i]) && NormalRef(n.refs[i]) == n.refs[i] && Flat(n.refs[i].span)
  {
    DedupeFacts(NormalRefs(c.refs));
    NormalElements(c.refs);
    forall i | 0 <= i < |n.refs| ensures NormalRef(n.refs[i]) == n.refs[i] && Flat(n.refs[i].span) {
      assert n.refs[i] in n.refs;
      var j :| 0 <= j < |c.refs| && n.refs[i] == NormalRef(c.refs[j]);
      NormalRefFacts(c.refs[j]);
    }
  }

  /** Normalising a normal candidate changes nothing. */
  lemma NormalizedIdempotent(c: Candidate)
    requires CandidateOk(c) && Normalized(c).Ok?
    ensures Normalized(Normalized(c).value) == Normalized(c)
  {
    var n := Normalized(c).value;
    NormalizedFields(c, n);
    CollapseIdempotent(c.content);
    assert NormalRefs(n.refs) == n.refs;
    DedupeDistinct(n.refs);
  }

  predicate BlankHandle(r: RawRef) {
    r.handle.Some? && Words(r.handle.value) == []
  }

  lemma BlankExactly(r: RawRef)
    requires RefOk(r)
    ensures RefOk(NormalRef(r)) <==> !BlankHandle(r)
  {
    NormalRefFacts(r);
  }

  lemma KeptOk(refs: seq<RawRef>, x: RawRef)
    requires RefsOk(refs) && x in Dedupe(NormalRefs(refs))
    requires forall i :: 0 <= i < |refs| ==> !BlankHandle(refs[i])
    ensures RefOk(x)
  {
    NormalElements(refs);
    var i :| 0 <= i < |refs| && x == NormalRef(refs[i]);
    BlankExactly(refs[i]);
  }

  lemma NotBlank(refs: seq<RawRef>, i: nat)
    requires RefsOk(refs) && i < |refs| && RefsOk(Dedupe(NormalRefs(refs)))
    ensures !BlankHandle(refs[i])
  {
    NormalElements(refs);
    assert NormalRef(refs[i]) in Dedupe(NormalRefs(refs));
    BlankExactly(refs[i]);
  }

  lemma NormalRefsOkExactly(refs: seq<RawRef>)
    requires RefsOk(refs)
    ensures RefsOk(Dedupe(NormalRefs(refs))) <==> forall i :: 0 <= i < |refs| ==> !BlankHandle(refs[i])
  {
    var kept := Dedupe(NormalRefs(refs));
    if RefsOk(kept) {
      forall i | 0 <= i < |refs| ensures !BlankHandle(refs[i]) { NotBlank(refs, i); }
    }
    if forall i :: 0 <= i < |refs| ==> !BlankHandle(refs[i]) {
      forall k | 0 <= k < |kept| ensures RefOk(kept[k]) { KeptOk(refs, kept[k]); }
      DedupeFacts(NormalRefs(refs));
      NormalElements(refs);
      assert NormalRef(refs[0]) in kept;
    }
  }

  /**
   A valid candidate is refused by normalisation exactly when its content or one of its handles is all white space.
   */
  lemma NormalizedExactly(c: Candidate)
    requires CandidateOk(c)
    ensures Normalized(c).Ok? <==> Words(c.content) != [] && forall i :: 0 <= i < |c.refs| ==> !BlankHandle(c.refs[i])
  {
    WordsEmptyExactly(c.content);
    CollapseShortens(c.content);
    NormalRefsOkExactly(c.refs);
  }

  /******* Resolution *******/

  lemma {:induction false} ResolveFacts(refs: seq<RawRef>, handles: Option<map<string, Ref>>, done: seq<Ref>)
    ensures Resolve(refs, handles, done).Ok? <==> forall i :: 0 <= i < |refs| ==> Meaning(refs[i], handles).Ok?
    ensures Resolve(refs, handles, done).Ok? ==>
      var all := Resolve(refs, handles, done).value;
      && |all| == |done| + |refs| && all[..|done|] == done
      && forall i :: 0 <= i < |refs| ==> Meaning(refs[i], handles) == Ok(all[|done| + i])
    decreases |refs|
  {
    if refs != [] && Meaning(refs[0], handles).Ok? {
      var more := done + [Meaning(refs[0], handles).value];
      ResolveFacts(refs[1..], handles, more);
      assert forall i :: 0 <= i < |refs[1..]| ==> refs[1..][i] == refs[i + 1];
      if Resolve(refs[1..], handles, more).Ok? {
        var all := Resolve(refs[1..], handles, more).value;
        assert all[..|more|][..|done|] == all[..|done|];
        assert all[|done|] == all[..|more|][|done|];
        forall i | 0 <= i < |refs| ensures Meaning(refs[i], handles) == Ok(all[|done| + i]) {
          if i > 0 { assert Meaning(refs[1..][i - 1], handles) == Ok(all[|more| + (i - 1)]); }
        }
      }
    }
  }

  lemma ResolvedInOrder(refs: seq<RawRef>, handles: Option<map<string, Ref>>)
    requires Resolve(refs, handles, []).Ok?
    ensures var all := Resolve(refs, handles, []).value;
      |all| == |refs| && forall i :: 0 <= i < |refs| ==> Meaning(refs[i], handles) == Ok(all[i])
  {
    var none: seq<Ref> := [];
    ResolveFacts(refs, handles, none);
    var all := Resolve(refs, handles, none).value;
    assert forall i :: 0 <= i < |refs| ==> all[|none| + i] == all[i];
  }

  lemma {:induction false} FirstFaultExactly(refs: seq<Ref>, ctx: Context)
    requires Known(refs, ctx)
    ensures FirstFault(refs, ctx).None? <==> forall i :: 0 <= i < |refs| ==> Fault(refs[i], ctx).None?
  {
    if refs != [] {
      FirstFaultExactly(refs[1..], ctx);
      assert refs == [refs[0]] + refs[1..];
    }
  }

  /**
   A canonical reference intake accepts: visible, known, live, of this transcript, and naming a text block if it names
   one.
   */
  predicate Sound(r: Ref, ctx: Context) {
    && (ctx.allowed.Some? ==> r.turn in ctx.allowed.value)
    && r.turn in ctx.turns
    && !ctx.turns[r.turn].deleted
    && ctx.turns[r.turn].transcript == ctx.transcript
    && SpanFault(r.span, ctx.turns[r.turn]).None?
  }

  lemma SoundExactly(refs: seq<Ref>, ctx: Context)
    ensures (Visible(refs, ctx) && Known(refs, ctx) && FirstFault(refs, ctx).None?)
            <==> forall i :: 0 <= i < |refs| ==> Sound(refs[i], ctx)
  {
    if Known(refs, ctx) { FirstFaultExactly(refs, ctx); }
  }

  /** The references a normal candidate stands for, as a set. */
  ghost function Cited(refs: seq<RawRef>, handles: Option<map<string, Ref>>): set<Ref> {
    set i | 0 <= i < |refs| && Meaning(refs[i], handles).Ok? :: Meaning(refs[i], handles).value
  }

  lemma ResolvedSet(refs: seq<RawRef>, handles: Option<map<string, Ref>>)
    requires Resolve(refs, handles, []).Ok?
    ensures Elements(Dedupe(Resolve(refs, handles, []).value)) == Cited(refs, handles)
    ensures Distinct(Dedupe(Resolve(refs, handles, []).value))
  {
    var all := Resolve(refs, handles, []).value;
    ResolvedInOrder(refs, handles);
    DedupeFacts(all);
    forall x | x in Elements(all) ensures x in Cited(refs, handles) {
      var i :| 0 <= i < |all| && all[i] == x;
      assert Meaning(refs[i], handles) == Ok(x);
    }
  }

  lemma AllOfSet(s: seq<Ref>, ctx: Context)
    ensures (forall i :: 0 <= i < |s| ==> Sound(s[i], ctx)) <==> forall x :: x in Elements(s) ==> Sound(x, ctx)
  {
    if forall x :: x in Elements(s) ==> Sound(x, ctx) {
      forall i | 0 <= i < |s| ensures Sound(s[i], ctx) { assert s[i] in Elements(s); }
    }
  }

  /**
   Intake accepts a normal candidate's evidence if and only if every reference stands for something and
   everything stood for is sound; the evidence is then exactly that set, without repetition.
   */
  lemma EvidenceExactly(c: Candidate, ctx: Context)
    requires Normalized(c).Ok?
    ensures var refs := Normalized(c).value.refs;
      Evidence(c, ctx).Ok? <==>
        && (forall i :: 0 <= i < |refs| ==> Meaning(refs[i], ctx.handles).Ok?)
        && (forall x :: x in Cited(refs, ctx.handles) ==> Sound(x, ctx))
    ensures Evidence(c, ctx).Ok? ==>
      && Elements(Evidence(c, ctx).value) == Cited(Normalized(c).value.refs, ctx.handles)
      && Distinct(Evidence(c, ctx).value)
  {
    var refs := Normalized(c).value.refs;
    ResolveFacts(refs, ctx.handles, []);
    if Resolve(refs, ctx.handles, []).Ok? {
      ResolvedSet(refs, ctx.handles);
      var kept := Dedupe(Resolve(refs, ctx.handles, []).value);
      SoundExactly(kept, ctx);
      AllOfSet(kept, ctx);
    }
  }

  lemma MeaningCanonical(r: RawRef, ctx: Context)
    requires RefOk(r) && Flat(r.span) && ContextOk(ctx) && Meaning(r, ctx.handles).Ok?
    ensures Canonical(Meaning(r, ctx.handles).value)
  {
  }

  lemma EvidenceCanonical(c: Candidate, ctx: Context)
    requires CandidateOk(c) && ContextOk(ctx) && Evidence(c, ctx).Ok?
    ensures AllCanonical(Evidence(c, ctx).value) && Distinct(Evidence(c, ctx).value)
  {
    var n := Normalized(c).value;
    var all := Resolve(n.refs, ctx.handles, []).value;
    NormalizedFields(c, n);
    ResolvedInOrder(n.refs, ctx.handles);
    forall i | 0 <= i < |all| ensures Canonical(all[i]) {
      MeaningCanonical(n.refs[i], ctx);
    }
    DedupeCanonical(all);
    DedupeFacts(all);
  }

  /******* What a refusal says *******/

  /** What a reference stands for: what its known handle names, or itself where handles are not in use. */
  lemma MeaningExactly(r: RawRef, handles: Option<map<string, Ref>>, m: Ref)
    ensures Meaning(r, handles) == Ok(m) <==>
      match r.handle
      case Some(h) => handles.Some? && h in handles.value && handles.value[h] == m && r.span in {"", m.span}
      case None => handles.None? && m == Ref(TextOf(r.turn), r.span)
  {
  }

  /** Why a reference stands for nothing. */
  ghost predicate MeansNothing(r: RawRef, handles: Option<map<string, Ref>>, category: string) {
    || (category == "candidate_referenced_an_unknown_evidence_handle"
        && r.handle.Some? && (handles.None? || r.handle.value !in handles.value))
    || (category == "candidate_evidence_handle/span_mismatch"
        && r.handle.Some? && handles.Some? && r.handle.value in handles.value
        && r.span != "" && r.span != handles.value[r.handle.value].span)
    || (category == "model_candidates_must_use_runtime_evidence_handles" && r.handle.None? && handles.Some?)
  }

  /** Why a known reference is at fault. */
  ghost predicate AtFault(r: Ref, ctx: Context, category: string)
    requires r.turn in ctx.turns
  {
    var turn := ctx.turns[r.turn];
    || (category == "candidate_referenced_deleted_canonical_evidence" && turn.deleted)
    || (category == "candidate_evidence_must_belong_to_the_source_transcript" && turn.transcript != ctx.transcript)
    || (category == "candidate_evidence_span_is_malformed" && r.span != "" && BlockNumber(r.span).None?)
    || (category == "candidate_evidence_span_is_unavailable"
        && BlockNumber(r.span).Some?
        && (!("text:" <= r.span) || !(0 <= BlockNumber(r.span).value < |turn.isText|)))
    || (category == "candidate_evidence_span_is_not_canonical_text"
        && "text:" <= r.span && BlockNumber(r.span).Some?
        && 0 <= BlockNumber(r.span).value < |turn.isText| && !turn.isText[BlockNumber(r.span).value])
  }

  /** The number behind the first colon. */
  function BlockNumber(span: string): Option<int> {
    var n := Colon(span);
    if n == |span| then None else ParseInt(span[n + 1..])
  }

  lemma {:induction false} ColonSplits(span: string)
    ensures ':' !in span[..Colon(span)] && (Colon(span) < |span| ==> span[Colon(span)] == ':')
  {
    if span != "" && span[0] != ':' {
      ColonSplits(span[1..]);
      assert span[..Colon(span)] == [span[0]] + span[1..][..Colon(span[1..])];
    }
  }

  lemma TextKind(span: string)
    requires Colon(span) < |span|
    ensures span[..Colon(span)] == "text" <==> "text:" <= span
  {
    ColonSplits(span);
    var n := Colon(span);
    if span[..n] == "text" { assert span[..n + 1] == "text:"; }
  }

  lemma FaultExplained(r: Ref, ctx: Context)
    requires r.turn in ctx.turns && Fault(r, ctx).Some?
    ensures AtFault(r, ctx, Fault(r, ctx).value)
  {
    if r.span != "" && Colon(r.span) < |r.span| { TextKind(r.span); }
  }

  /** What each category of refusal says about a valid candidate. */
  ghost predicate Explained(c: Candidate, ctx: Context, category: string) {
    || (category == "candidate_content_cannot_be_empty" && Words(c.content) == [])
    || (category == "invalid_evidence_refs" && exists i :: 0 <= i < |c.refs| && BlankHandle(c.refs[i]))
    || (Normalized(c).Ok? && RefsExplained(Normalized(c).value.refs, ctx, category))
  }

  ghost predicate RefsExplained(refs: seq<RawRef>, ctx: Context, category: string) {
    || (exists i :: 0 <= i < |refs| && MeansNothing(refs[i], ctx.handles, category))
    || (exists x :: x in Cited(refs, ctx.handles) && Unsound(x, ctx, category))
  }

  /** Why a canonical reference cannot be accepted. */
  ghost predicate Unsound(x: Ref, ctx: Context, category: string) {
    || (category == "candidate_referenced_evidence_outside_the_model_visible_context"
        && ctx.allowed.Some? && x.turn !in ctx.allowed.value)
    || (category == "candidate_referenced_unknown_canonical_evidence" && x.turn !in ctx.turns)
    || (x.turn in ctx.turns && AtFault(x, ctx, category))
  }

  lemma {:induction false} RefusedFirst(refs: seq<RawRef>, handles: Option<map<string, Ref>>, done: seq<Ref>)
    requires Resolve(refs, handles, done).Err?
    ensures exists i :: 0 <= i < |refs| && MeansNothing(refs[i], handles, Resolve(refs, handles, done).error)
    decreases |refs|
  {
    if Meaning(refs[0], handles).Err? {
      assert MeansNothing(refs[0], handles, Meaning(refs[0], handles).error);
    } else {
      RefusedFirst(refs[1..], handles, done + [Meaning(refs[0], handles).value]);
      var i :| 0 <= i < |refs[1..]|
        && MeansNothing(refs[1..][i], handles, Resolve(refs, handles, done).error);
      assert refs[i + 1] == refs[1..][i];
    }
  }

  lemma {:induction false} FaultyFirst(refs: seq<Ref>, ctx: Context) returns (i: nat)
    requires Known(refs, ctx) && FirstFault(refs, ctx).Some?
    ensures i < |refs| && AtFault(refs[i], ctx, FirstFault(refs, ctx).value)
  {
    if Fault(refs[0], ctx).Some? {
      FaultExplained(refs[0], ctx);
      i := 0;
    } else {
      var j := FaultyFirst(refs[1..], ctx);
      i := j + 1;
    }
  }

  lemma NormalizedExplained(c: Candidate, ctx: Context)
    requires CandidateOk(c) && Normalized(c).Err?
    ensures Explained(c, ctx, Normalized(c).error)
  {
    WordsEmptyExactly(c.content);
    CollapseShortens(c.content);
    NormalRefsOkExactly(c.refs);
    NormalElements(c.refs);
    assert NormalRef(c.refs[0]) in Dedupe(NormalRefs(c.refs));
  }

  lemma VettedExplained(c: Candidate, ctx: Context)
    requires Normalized(c).Ok? && Resolve(Normalized(c).value.refs, ctx.handles, []).Ok? && Evidence(c, ctx).Err?
    ensures Explained(c, ctx, Evidence(c, ctx).error)
  {
    var refs := Normalized(c).value.refs;
    var kept := Dedupe(Resolve(refs, ctx.handles, []).value);
    ResolvedSet(refs, ctx.handles);
    var i := VettedUnsound(c, ctx, kept);
    assert kept[i] in Elements(kept);
    assert RefsExplained(refs, ctx, Evidence(c, ctx).error);
  }

  lemma VettedUnsound(c: Candidate, ctx: Context, kept: seq<Ref>) returns (i: nat)
    requires Normalized(c).Ok? && Resolve(Normalized(c).value.refs, ctx.handles, []).Ok? && Evidence(c, ctx).Err?
    requires kept == Dedupe(Resolve(Normalized(c).value.refs, ctx.handles, []).value)
    ensures i < |kept| && Unsound(kept[i], ctx, Evidence(c, ctx).error)
  {
    if !Visible(kept, ctx) {
      i :| 0 <= i < |kept| && kept[i].turn !in ctx.allowed.value;
    } else if !Known(kept, ctx) {
      i :| 0 <= i < |kept| && kept[i].turn !in ctx.turns;
    } else {
      i := FaultyFirst(kept, ctx);
    }
  }

  /** Every refusal of a valid candidate names something that is wrong with it. */
  lemma RefusedBecause(c: Candidate, ctx: Context)
    requires CandidateOk(c) && Evidence(c, ctx).Err?
    ensures Explained(c, ctx, Evidence(c, ctx).error)
  {
    if Normalized(c).Err? {
      NormalizedExplained(c, ctx);
    } else if Resolve(Normalized(c).value.refs, ctx.handles, []).Err? {
      RefusedFirst(Normalized(c).value.refs, ctx.handles, []);
    } else {
      VettedExplained(c, ctx);
    }
  }

  /******* Spans by block number *******/

  function Digit(d: nat): char
    requires d < 10
  {
    ('0' as int + d) as char
  }

  /** The usual decimal text of a number. */
  function Decimal(n: nat): (s: string)
    ensures s != "" && forall i :: 0 <= i < |s| ==> '0' <= s[i] <= '9'
  {
    if n < 10 then [Digit(n)] else Decimal(n / 10) + [Digit(n % 10)]
  }

  lemma {:induction false} DigitsSnoc(s: string, d: nat, value: nat, gap: bool)
    requires d < 10 && Digits(s, value, gap).Some?
    ensures Digits(s + [Digit(d)], value, gap) == Some(10 * Digits(s, value, gap).value + d)
    decreases |s|
  {
    var t := s + [Digit(d)];
    if s == "" {
      assert t[0] == Digit(d) && t[1..] == "";
    } else {
      assert t[0] == s[0] && t[1..] == s[1..] + [Digit(d)];
      if '0' <= s[0] <= '9' {
        DigitsSnoc(s[1..], d, 10 * value + (s[0] as int - '0' as int), false);
      } else {
        DigitsSnoc(s[1..], d, value, true);
      }
    }
  }

  lemma {:induction false} DecimalDigits(n: nat)
    ensures Digits(Decimal(n), 0, true) == Some(n)
  {
    if n < 10 {
      assert [Digit(n)][1..] == "";
    } else {
      DecimalDigits(n / 10);
      DigitsSnoc(Decimal(n / 10), n % 10, 0, true);
    }
  }

  lemma DecimalParses(n: nat)
    ensures ParseInt(Decimal(n)) == Some(n) && ParseInt("-" + Decimal(n)) == Some(0 - n)
  {
    DecimalDigits(n);
    assert Stripped(Decimal(n)) == Decimal(n);
    assert Stripped("-" + Decimal(n)) == "-" + Decimal(n) && ("-" + Decimal(n))[1..] == Decimal(n);
  }

  /** A span that spells out a block number is accepted exactly when the turn has that block and it is text. */
  lemma BlockExactly(n: nat, t: Turn)
    ensures SpanFault("text:" + Decimal(n), t).None? <==> n < |t.isText| && t.isText[n]
    ensures NamedBlock("text:" + Decimal(n)) == Some(n)
    ensures n > 0 ==> SpanFault("text:" + ("-" + Decimal(n)), t).Some?
  {
    DecimalParses(n);
    SpanParts(Decimal(n));
    SpanParts("-" + Decimal(n));
  }

  /******* One open row per evidence set *******/

  ghost predicate RowOk(row: Row) {
    && (row.key.Some? ==>
      AllCanonical(row.evidence) && Distinct(row.evidence) && row.key.value == EvidenceSetHash(row.evidence))
    && (Open(row.status) ==> row.key.Some?)
  }

  /** Keyed rows carry the key of their evidence, and no two open rows share one. */
  ghost predicate Inv(rows: seq<Row>) {
    && (forall i :: 0 <= i < |rows| ==> RowOk(rows[i]))
    && (forall i, j :: 0 <= i < j < |rows| && Open(rows[i].status) && Open(rows[j].status) ==>
          rows[i].key != rows[j].key)
  }

  /** An open row that cites exactly a set. */
  ghost predicate Cites(row: Row, refs: set<Ref>) {
    Open(row.status) && Elements(row.evidence) == refs
  }

  lemma HoldsIffCites(row: Row, refs: seq<Ref>)
    requires RowOk(row) && AllCanonical(refs) && Distinct(refs)
    ensures Holds(row, EvidenceSetHash(refs)) <==> Cites(row, Elements(refs))
  {
    if Open(row.status) { DistinctKeys(row.evidence, refs); }
  }

  /**
   Enqueue creates a row exactly when no open candidate cites the set; otherwise it changes nothing and
   ends with the one open candidate that does.
   */
  lemma AdmitExactly(rows: seq<Row>, refs: seq<Ref>)
    requires Inv(rows) && AllCanonical(refs) && Distinct(refs)
    ensures var (after, k) := Admit(rows, refs);
      && (k == |rows| <==> forall i :: 0 <= i < |rows| ==> !Cites(rows[i], Elements(refs)))
      && (k == |rows| ==>
            && |after| == k + 1 && after[..k] == rows
            && Cites(after[k], Elements(refs)) && after[k].status == Pending)
      && (k < |rows| ==> after == rows && forall i :: 0 <= i < |rows| ==> (Cites(rows[i], Elements(refs)) <==> i == k))
      && Inv(after)
  {
    var (after, k) := Admit(rows, refs);
    forall i | 0 <= i < |rows| ensures Holds(rows[i], EvidenceSetHash(refs)) <==> Cites(rows[i], Elements(refs)) {
      HoldsIffCites(rows[i], refs);
    }
    if k == |rows| { assert RowOk(after[k]); }
  }

  /******* Whole runs *******/

  /**
   What happens to the table: intake, moves of the lifecycle, an owner's confirming turn, and the deletion of a chat.
   */
  datatype Step =
    | Intake(c: Candidate, ctx: Context)
    | Move(row: nat, status: Status)
    | Confirm(row: nat, turn: Ref)
    | Erase(row: nat)

  /** A write the unique index or the payload constraint refuses leaves the table as it was. */
  function Write(rows: seq<Row>, k: nat, row: Row): seq<Row>
    requires k < |rows|
  {
    if Open(row.status) && (row.key.None? || exists j :: 0 <= j < |rows| && j != k && Holds(rows[j], row.key.value))
    then rows
    else rows[k := row]
  }

  function Next(rows: seq<Row>, step: Step): seq<Row> {
    match step
    case Intake(c, ctx) => Enqueued(rows, c, ctx).0
    case Move(k, s) => if k < |rows| then Write(rows, k, rows[k].(status := s)) else rows
    case Confirm(k, t) =>
      if k < |rows| && rows[k].status == AwaitingOwner then
        var evidence := rows[k].evidence + [t];
        Write(rows, k, Row(Pending, evidence, Some(EvidenceSetHash(evidence))))
      else rows
    case Erase(k) => if k < |rows| then rows[k := Row(Invalidated, [], None)] else rows
  }

  /** The confirming turn is new, so no row cites it yet. */
  ghost predicate Legal(rows: seq<Row>, step: Step) {
    match step
    case Intake(c, ctx) => CandidateOk(c) && ContextOk(ctx)
    case Confirm(k, t) => Canonical(t) && (k < |rows| ==> t !in rows[k].evidence)
    case _ => true
  }

  ghost predicate LegalRun(rows: seq<Row>, steps: seq<Step>)
    decreases |steps|
  {
    steps == [] || (Legal(rows, steps[0]) && LegalRun(Next(rows, steps[0]), steps[1..]))
  }

  function Run(rows: seq<Row>, steps: seq<Step>): seq<Row>
    decreases |steps|
  {
    if steps == [] then rows else Run(Next(rows, steps[0]), steps[1..])
  }

  lemma WriteKeeps(rows: seq<Row>, k: nat, row: Row)
    requires Inv(rows) && k < |rows| && ((Open(row.status) && row.key.None?) || RowOk(row))
    ensures Inv(Write(rows, k, row))
  {
    var after := Write(rows, k, row);
    if after != rows && Open(row.status) {
      assert forall j :: 0 <= j < |rows| && j != k ==> !Holds(rows[j], row.key.value);
    }
  }

  lemma NextKeeps(rows: seq<Row>, step: Step)
    requires Inv(rows) && Legal(rows, step)
    ensures Inv(Next(rows, step))
  {
    match step
    case Intake(c, ctx) =>
      if Evidence(c, ctx).Ok? {
        EvidenceCanonical(c, ctx);
        AdmitExactly(rows, Evidence(c, ctx).value);
      }
    case Move(k, s) =>
      if k < |rows| { WriteKeeps(rows, k, rows[k].(status := s)); }
    case Confirm(k, t) =>
      if k < |rows| && rows[k].status == AwaitingOwner {
        var evidence := rows[k].evidence + [t];
        WriteKeeps(rows, k, Row(Pending, evidence, Some(EvidenceSetHash(evidence))));
      }
    case Erase(k) =>
      if k < |rows| { WriteKeeps(rows, k, Row(Invalidated, [], None)); }
  }

  lemma {:induction false} RunKeeps(rows: seq<Row>, steps: seq<Step>)
    requires Inv(rows) && LegalRun(rows, steps)
    ensures Inv(Run(rows, steps))
    decreases |steps|
  {
    if steps != [] {
      NextKeeps(rows, steps[0]);
      RunKeeps(Next(rows, steps[0]), steps[1..]);
    }
  }

  /** After any history, no two open candidates cite the same set of evidence. */
  lemma OneOpenRowPerSet(steps: seq<Step>, i: nat, j: nat)
    requires LegalRun([], steps)
    requires i < j < |Run([], steps)|
    ensures var rows := Run([], steps);
      Open(rows[i].status) && Open(rows[j].status) ==> Elements(rows[i].evidence) != Elements(rows[j].evidence)
  {
    var rows := Run([], steps);
    RunKeeps([], steps);
    assert RowOk(rows[i]) && RowOk(rows[j]);
    if Open(rows[i].status) && Open(rows[j].status) { DistinctKeys(rows[i].evidence, rows[j].evidence); }
  }

  /** After any history, what one more proposal does. */
  lemma EnqueueExactly(steps: seq<Step>, c: Candidate, ctx: Context)
    requires LegalRun([], steps) && CandidateOk(c) && ContextOk(ctx) && Evidence(c, ctx).Ok?
    ensures var rows := Run([], steps);
      var cited := Cited(Normalized(c).value.refs, ctx.handles);
      var (after, result) := Enqueued(rows, c, ctx);
      && result.Ok? && result.value.0 < |after| && Cites(after[result.value.0], cited)
      && (result.value.1 <==> forall i :: 0 <= i < |rows| ==> !Cites(rows[i], cited))
      && (result.value.1 ==> after[..|rows|] == rows && |after| == |rows| + 1)
      && (!result.value.1 ==> after == rows)
  {
    RunKeeps([], steps);
    EvidenceCanonical(c, ctx);
    EvidenceExactly(c, ctx);
    AdmitExactly(Run([], steps), Evidence(c, ctx).value);
  }

  /******* Counts *******/

  ghost function Total(m: map<string, nat>): nat
    decreases |m|
  {
    if m == map[] then 0
    else
      var k :| k in m;
      m[k] + Total(m - {k})
  }

  /** The total may be counted starting from any key. */
  lemma {:induction false} TotalFrom(m: map<string, nat>, k: string)
    requires k in m
    ensures Total(m) == m[k] + Total(m - {k})
    decreases |m|
  {
    var j :| j in m && Total(m) == m[j] + Total(m - {j});
    if j != k {
      TotalFrom(m - {j}, k);
      TotalFrom(m - {k}, j);
      assert m - {j} - {k} == m - {k} - {j};
    }
  }

  lemma TotalBump(m: map<string, nat>, k: string)
    ensures Total(Bump(m, k)) == Total(m) + 1
  {
    var b := Bump(m, k);
    TotalFrom(b, k);
    if k in m { TotalFrom(m, k); } else { assert b - {k} == m; }
    assert b - {k} == m - {k};
  }

  function CountOf(verdicts: seq<Verdict>, v: Verdict): nat {
    if verdicts == [] then 0
    else CountOf(verdicts[..|verdicts| - 1], v) + if verdicts[|verdicts| - 1] == v then 1 else 0
  }

  /** Every proposal is counted once; each rejection category counts the proposals refused for it. */
  lemma {:induction false} TallyAddsUp(verdicts: seq<Verdict>)
    ensures var r := Tally(verdicts);
      && r.accepted + r.duplicate + r.rejected == |verdicts|
      && Total(r.rejections) == r.rejected
      && r.accepted == CountOf(verdicts, Accepted)
      && r.duplicate == CountOf(verdicts, Duplicate)
      && forall c :: (if c in r.rejections then r.rejections[c] else 0) == CountOf(verdicts, Refused(c))
  {
    if verdicts != [] {
      var front := verdicts[..|verdicts| - 1];
      TallyAddsUp(front);
      var v := verdicts[|verdicts| - 1];
      if v.Refused? { TotalBump(Tally(front).rejections, v.category); }
    }
  }

  /** The accepted proposals are the rows created. */
  lemma {:induction false} AcceptedAreRows(rows: seq<Row>, raws: seq<Raw>, ctx: Context)
    ensures var (after, verdicts) := Batch(rows, raws, ctx);
      |after| == |rows| + CountOf(verdicts, Accepted) && after[..|rows|] == rows
  {
    if raws != [] {
      AcceptedAreRows(rows, raws[..|raws| - 1], ctx);
      var (before, verdicts) := Batch(rows, raws[..|raws| - 1], ctx);
      var v := Judged(before, raws[|raws| - 1], ctx).1;
      assert (verdicts + [v])[..|verdicts|] == verdicts;
    }
  }

  lemma BatchCounts(rows: seq<Row>, raws: seq<Raw>, ctx: Context)
    ensures var taken := raws[..Min(BATCH_LIMIT, |raws|)];
      var (after, verdicts) := Batch(rows, taken, ctx);
      var r := Tally(verdicts);
      && r.accepted + r.duplicate + r.rejected == Min(BATCH_LIMIT, |raws|)
      && Total(r.rejections) == r.rejected
      && |after| == |rows| + r.accepted
  {
    var taken := raws[..Min(BATCH_LIMIT, |raws|)];
    TallyAddsUp(Batch(rows, taken, ctx).1);
    AcceptedAreRows(rows, taken, ctx);
  }

  /******* What the key does not see *******/

  lemma {:induction false} ColonAfter(kind: string, rest: string)
    requires forall i :: 0 <= i < |kind| ==> kind[i] != ':'
    ensures Colon(kind + ":" + rest) == |kind|
  {
    if kind == "" {
      assert (kind + ":" + rest)[0] == ':';
    } else {
      ColonAfter(kind[1..], rest);
      assert (kind + ":" + rest)[1..] == kind[1..] + ":" + rest;
    }
  }

  lemma LeadingSpace(digits: string)
    ensures ParseInt(" " + digits) == ParseInt(digits)
  {
    assert IsSpace(' ') && (" " + digits)[1..] == digits;
  }

  lemma SpanParts(rest: string)
    ensures var span := "text:" + rest;
      Colon(span) == 4 && span[..4] == "text" && span[5..] == rest
  {
    assert "text:" + rest == "text" + ":" + rest;
    ColonAfter("text", rest);
  }

  lemma SpansSeparate(turn: string, a: string, b: string)
    requires IsUuid(turn) && Flat(a) && Flat(b) && a != b
    ensures EvidenceSetHash([Ref(turn, a)]) != EvidenceSetHash([Ref(turn, b)])
  {
    assert Ref(turn, a) in Elements([Ref(turn, a)]) && Ref(turn, a) !in Elements([Ref(turn, b)]);
    DistinctKeys([Ref(turn, a)], [Ref(turn, b)]);
  }

  /** The block an accepted span names. */
  function NamedBlock(span: string): Option<int> {
    var n := Colon(span);
    if n == |span| || span[..n] != "text" then None else ParseInt(span[n + 1..])
  }

  lemma AcceptedNames(span: string, t: Turn)
    requires span != "" && SpanFault(span, t).None?
    ensures NamedBlock(span).Some? && 0 <= NamedBlock(span).value < |t.isText| && t.isText[NamedBlock(span).value]
  {
  }

  /** A candidate that cites one span of one turn directly. */
  function Direct(content: string, turn: string, span: string): Candidate {
    Candidate(content, [RawRef(None, Some(turn), span)])
  }

  lemma SingleNormal(r: RawRef)
    ensures Dedupe(NormalRefs([r])) == [NormalRef(r)]
  {
    assert NormalRefs([r]) == [NormalRef(r)];
    assert Distinct([NormalRef(r)]);
    DedupeDistinct([NormalRef(r)]);
  }

  lemma DirectNormal(content: string, turn: string, span: string)
    requires CandidateOk(Direct(content, turn, span))
    ensures Normalized(Direct(content, turn, span)).Ok? <==> Words(content) != []
    ensures Words(content) != [] ==>
      Normalized(Direct(content, turn, span)).value.refs == [RawRef(None, Some(turn), Collapse(span))]
  {
    var r := RawRef(None, Some(turn), span);
    assert RefOk(r) by { assert RefOk(Direct(content, turn, span).refs[0]); }
    assert !BlankHandle(r);
    NormalizedExactly(Direct(content, turn, span));
    SingleNormal(r);
    NormalRefFacts(r);
  }

  lemma DistinctSingleton(s: seq<Ref>, x: Ref)
    requires Distinct(s) && Elements(s) == {x}
    ensures s == [x]
  {
    forall i | 0 <= i < |s| ensures s[i] == x { assert s[i] in Elements(s); }
    assert x in Elements(s);
    DistinctCounts(s, x);
    AllSame(s, x);
  }

  lemma {:induction false} AllSame(s: seq<Ref>, x: Ref)
    requires forall i :: 0 <= i < |s| ==> s[i] == x
    ensures multiset(s)[x] == |s|
  {
    if s != [] {
      AllSame(s[1..], x);
      assert s == [s[0]] + s[1..];
    }
  }

  lemma SingleCited(r: RawRef, handles: Option<map<string, Ref>>)
    requires Meaning(r, handles).Ok?
    ensures Cited([r], handles) == {Meaning(r, handles).value}
  {
    assert [r][0] == r;
    assert Meaning([r][0], handles).value in Cited([r], handles);
  }

  /** A direct citation is accepted exactly when it is sound, and its evidence is the turn with the collapsed span. */
  lemma DirectEvidence(content: string, turn: string, span: string, ctx: Context)
    requires CandidateOk(Direct(content, turn, span)) && ctx.handles.None? && Words(content) != []
    ensures Evidence(Direct(content, turn, span), ctx).Ok? <==> Sound(Ref(turn, Collapse(span)), ctx)
    ensures Evidence(Direct(content, turn, span), ctx).Ok? ==>
      Evidence(Direct(content, turn, span), ctx).value == [Ref(turn, Collapse(span))]
  {
    DirectNormal(content, turn, span);
    SingleCited(RawRef(None, Some(turn), Collapse(span)), ctx.handles);
    EvidenceExactly(Direct(content, turn, span), ctx);
    if Evidence(Direct(content, turn, span), ctx).Ok? {
      DistinctSingleton(Evidence(Direct(content, turn, span), ctx).value, Ref(turn, Collapse(span)));
    }
  }

  /**
   Two accepted citations of one turn share a key if and only if their collapsed spans are the same text,
   whether or not they name the same block.
   */
  lemma SpanKeysExactly(content: string, turn: string, a: string, b: string, ctx: Context)
    requires CandidateOk(Direct(content, turn, a)) && CandidateOk(Direct(content, turn, b)) && ctx.handles.None?
    requires Evidence(Direct(content, turn, a), ctx).Ok? && Evidence(Direct(content, turn, b), ctx).Ok?
    ensures var x, y := Evidence(Direct(content, turn, a), ctx).value, Evidence(Direct(content, turn, b), ctx).value;
      EvidenceSetHash(x) == EvidenceSetHash(y) <==> Collapse(a) == Collapse(b)
  {
    DirectNormal(content, turn, a);
    DirectEvidence(content, turn, a, ctx);
    DirectEvidence(content, turn, b, ctx);
    assert IsUuid(turn) by { assert RefOk(Direct(content, turn, a).refs[0]); }
    JoinWordsFlat(Words(a));
    JoinWordsFlat(Words(b));
    if Collapse(a) != Collapse(b) { SpansSeparate(turn, Collapse(a), Collapse(b)); }
  }

  lemma SpellingsCollapse(digits: string)
    requires Solid(digits)
    ensures Collapse("text:" + digits) == "text:" + digits
      && Collapse("text:" + (" " + digits)) == "text:" + (" " + digits)
  {
    var one, two := ["text:" + digits], ["text:", digits];
    assert Solid("text:" + digits) && Solid("text:");
    WordsOfJoin(one);
    WordsOfJoin(two);
    assert two[1..] == [digits];
    assert JoinWords(two) == "text:" + " " + digits == "text:" + (" " + digits);
  }

  /**
   The key compares the text of spans, not the blocks they name: whenever a block is cited and accepted, citing it
   with a space before its number is accepted too, names the same block, and has another key.
   */
  lemma SpellingsDiffer(content: string, turn: string, digits: string, ctx: Context)
    requires Solid(digits) && CandidateOk(Direct(content, turn, "text:" + (" " + digits))) && ctx.handles.None?
    requires CandidateOk(Direct(content, turn, "text:" + digits))
      && Evidence(Direct(content, turn, "text:" + digits), ctx).Ok?
    ensures NamedBlock("text:" + digits).Some? && NamedBlock("text:" + (" " + digits)) == NamedBlock("text:" + digits)
    ensures Evidence(Direct(content, turn, "text:" + (" " + digits)), ctx).Ok?
    ensures EvidenceSetHash(Evidence(Direct(content, turn, "text:" + (" " + digits)), ctx).value)
         != EvidenceSetHash(Evidence(Direct(content, turn, "text:" + digits), ctx).value)
  {
    var a, b := "text:" + (" " + digits), "text:" + digits;
    SpellingsCollapse(digits);
    SpanParts(digits);
    SpanParts(" " + digits);
    LeadingSpace(digits);
    DirectNormal(content, turn, b);
    DirectEvidence(content, turn, a, ctx);
    DirectEvidence(content, turn, b, ctx);
    AcceptedNames(b, ctx.turns[turn]);
    assert |a| == |b| + 1;
    SpanKeysExactly(content, turn, a, b, ctx);
  }
}
