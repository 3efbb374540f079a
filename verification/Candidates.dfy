/** Intake of memory candidates: normalising, resolving and vetting evidence, and one open row per evidence set. */
module Candidates {
  import opened Common
  import opened Whitespace
  import opened EvidenceKey

  const HANDLE_LIMIT: nat := 32
  const SPAN_LIMIT: nat := 160
  const CONTENT_LIMIT: nat := 2000
  const REFS_LIMIT: nat := 8
  const BATCH_LIMIT: nat := 8

  /** An evidence reference as proposed: a runtime handle or a turn, and a span. */
  datatype RawRef = RawRef(handle: Option<string>, turn: Option<string>, span: string)

  datatype Candidate = Candidate(content: string, refs: seq<RawRef>)

  /** A proposal as it arrives: fields the schema refuses, with the refusal's category, or fields to look at further. */
  datatype Raw = Malformed(category: string) | Fields(candidate: Candidate)

  datatype Turn = Turn(transcript: string, deleted: bool, isText: seq<bool>)

  datatype Context = Context(
    transcript: string, allowed: Option<set<string>>, handles: Option<map<string, Ref>>, turns: map<string, Turn>)

  /** The runtime's own handles name turns and spans without line breaks. */
  ghost predicate ContextOk(ctx: Context) {
    ctx.handles.Some? ==> forall h :: h in ctx.handles.value ==> Canonical(ctx.handles.value[h])
  }

  /******* Validation and normalisation *******/

  predicate RefOk(r: RawRef) {
    && r.handle.None? != r.turn.None?
    && (r.handle.Some? ==> 1 <= |r.handle.value| <= HANDLE_LIMIT)
    && (r.turn.Some? ==> IsUuid(r.turn.value))
    && |r.span| <= SPAN_LIMIT
  }

  predicate RefsOk(refs: seq<RawRef>) {
    1 <= |refs| <= REFS_LIMIT && forall i :: 0 <= i < |refs| ==> RefOk(refs[i])
  }

  predicate CandidateOk(c: Candidate) {
    1 <= |c.content| <= CONTENT_LIMIT && RefsOk(c.refs)
  }

  function Validated(raw: Raw): Outcome<Candidate, string> {
    match raw
    case Malformed(category) => Err(category)
    case Fields(c) =>
      if !(1 <= |c.content| <= CONTENT_LIMIT) then Err("invalid_content")
      else if !RefsOk(c.refs) then Err("invalid_evidence_refs")
      else Ok(c)
  }

  function Take(s: string, n: nat): string {
    if |s| <= n then s else s[..n]
  }

  function TextOf(s: Option<string>): string {
    if s.Some? then s.value else ""
  }

  function OrNone(s: string): Option<string> {
    if s == "" then None else Some(s)
  }

  function NormalRef(r: RawRef): RawRef {
    RawRef(
      OrNone(Take(Collapse(TextOf(r.handle)), HANDLE_LIMIT)),
      OrNone(TextOf(r.turn)),
      Take(Collapse(r.span), SPAN_LIMIT))
  }

  function NormalRefs(refs: seq<RawRef>): (r: seq<RawRef>)
    ensures |r| == |refs|
    ensures forall i :: 0 <= i < |refs| ==> r[i] == NormalRef(refs[i])
  {
    if refs == [] then [] else [NormalRef(refs[0])] + NormalRefs(refs[1..])
  }

  function Normalized(c: Candidate): Outcome<Candidate, string> {
    var content := Collapse(c.content);
    var refs := Dedupe(NormalRefs(c.refs));
    if content == "" then Err("candidate_content_cannot_be_empty")
    else if refs == [] then Err("candidate_requires_canonical_evidence_references")
    else if !CandidateOk(Candidate(content, refs)) then Err("invalid_evidence_refs")
    else Ok(Candidate(content, refs))
  }

  lemma DedupeNext<T(!new)>(s: seq<T>, i: nat)
    requires i < |s|
    ensures Dedupe(s[..i + 1]) == Dedupe(s[..i]) + if s[i] in Dedupe(s[..i]) then [] else [s[i]]
  {
    assert s[..i + 1][..i] == s[..i];
  }

  method UniqueRefs(items: seq<RawRef>) returns (refs: seq<RawRef>)
    ensures refs == Dedupe(NormalRefs(items))
  {
    refs := [];
    var seen: set<RawRef> := {};
    ghost var normal := NormalRefs(items);
    for i := 0 to |items|
      invariant refs == Dedupe(normal[..i])
      invariant forall x :: x in seen <==> x in refs
    {
      var key := NormalRef(items[i]);
      DedupeNext(normal, i);
      if key !in seen {
        seen := seen + {key};
        refs := refs + [key];
      }
    }
    assert normal[..|items|] == normal;
  }

  method Normalize(c: Candidate) returns (r: Outcome<Candidate, string>)
    ensures r == Normalized(c)
  {
    var content := Collapse(c.content);
    if content == "" { return Err("candidate_content_cannot_be_empty"); }
    var refs := UniqueRefs(c.refs);
    if refs == [] { return Err("candidate_requires_canonical_evidence_references"); }
    if !CandidateOk(Candidate(content, refs)) { return Err("invalid_evidence_refs"); }
    return Ok(Candidate(content, refs));
  }

  /******* Resolution of references *******/

  /** The canonical reference one proposed reference stands for, or why it stands for none. */
  function Meaning(r: RawRef, handles: Option<map<string, Ref>>): Outcome<Ref, string> {
    if r.handle.Some? then
      if handles.None? || r.handle.value !in handles.value then Err("candidate_referenced_an_unknown_evidence_handle")
      else
        var m := handles.value[r.handle.value];
        if r.span != "" && r.span != m.span then Err("candidate_evidence_handle/span_mismatch") else Ok(m)
    else if handles.Some? then Err("model_candidates_must_use_runtime_evidence_handles")
    else Ok(Ref(TextOf(r.turn), r.span))
  }

  function Resolve(refs: seq<RawRef>, handles: Option<map<string, Ref>>, done: seq<Ref>): Outcome<seq<Ref>, string>
    decreases |refs|
  {
    if refs == [] then Ok(done)
    else match Meaning(refs[0], handles)
      case Err(e) => Err(e)
      case Ok(m) => Resolve(refs[1..], handles, done + [m])
  }

  function Digits(s: string, value: nat, gap: bool): Option<nat>
    decreases |s|
  {
    if s == "" then if gap then None else Some(value)
    else if '0' <= s[0] <= '9' then Digits(s[1..], 10 * value + (s[0] as int - '0' as int), false)
    else if s[0] == '_' && !gap then Digits(s[1..], value, true)
    else None
  }

  function Stripped(s: string): string {
    if s != "" && IsSpace(s[0]) then Stripped(s[1..])
    else if s != "" && IsSpace(s[|s| - 1]) then Stripped(s[..|s| - 1])
    else s
  }

  /** Decimal text of an integer: spaces around it, a sign, then digits with single underscores between them. */
  function ParseInt(text: string): Option<int> {
    var s := Stripped(text);
    var signed := s != "" && (s[0] == '-' || s[0] == '+');
    match Digits(if signed then s[1..] else s, 0, true)
    case None => None
    case Some(n) =>
      var value: int := n;
      Some(if signed && s[0] == '-' then 0 - value else value)
  }

  function Colon(s: string): (n: nat)
    ensures n <= |s|
  {
    if s == "" || s[0] == ':' then 0 else 1 + Colon(s[1..])
  }

  function SpanFault(span: string, turn: Turn): Option<string> {
    var n := Colon(span);
    if span == "" then None
    else if n == |span| then Some("candidate_evidence_span_is_malformed")
    else
      var index := ParseInt(span[n + 1..]);
      if index.None? then Some("candidate_evidence_span_is_malformed")
      else if span[..n] != "text" || index.value < 0 || index.value >= |turn.isText| then
        Some("candidate_evidence_span_is_unavailable")
      else if !turn.isText[index.value] then Some("candidate_evidence_span_is_not_canonical_text")
      else None
  }

  function Fault(r: Ref, ctx: Context): Option<string>
    requires r.turn in ctx.turns
  {
    var turn := ctx.turns[r.turn];
    if turn.deleted then Some("candidate_referenced_deleted_canonical_evidence")
    else if turn.transcript != ctx.transcript then Some("candidate_evidence_must_belong_to_the_source_transcript")
    else SpanFault(r.span, turn)
  }

  function FirstFault(refs: seq<Ref>, ctx: Context): Option<string>
    requires forall i :: 0 <= i < |refs| ==> refs[i].turn in ctx.turns
  {
    if refs == [] then None
    else
      var f := Fault(refs[0], ctx);
      if f.Some? then f else FirstFault(refs[1..], ctx)
  }

  predicate Visible(refs: seq<Ref>, ctx: Context) {
    ctx.allowed.None? || forall i :: 0 <= i < |refs| ==> refs[i].turn in ctx.allowed.value
  }

  predicate Known(refs: seq<Ref>, ctx: Context) {
    forall i :: 0 <= i < |refs| ==> refs[i].turn in ctx.turns
  }

  /** The distinct canonical references of a candidate, or the category of its refusal. */
  function Evidence(c: Candidate, ctx: Context): Outcome<seq<Ref>, string> {
    match Normalized(c)
    case Err(e) => Err(e)
    case Ok(n) =>
      match Resolve(n.refs, ctx.handles, [])
      case Err(e) => Err(e)
      case Ok(all) =>
        var refs := Dedupe(all);
        if !Visible(refs, ctx) then Err("candidate_referenced_evidence_outside_the_model_visible_context")
        else if !Known(refs, ctx) then Err("candidate_referenced_unknown_canonical_evidence")
        else
          var f := FirstFault(refs, ctx);
          if f.Some? then Err(f.value) else Ok(refs)
  }

  /** The first reference that stands for nothing is refused for this. */
  ghost predicate FirstRefused(refs: seq<RawRef>, handles: Option<map<string, Ref>>, category: string) {
    exists i :: 0 <= i < |refs| && Meaning(refs[i], handles) == Err(category)
      && forall j :: 0 <= j < i ==> Meaning(refs[j], handles).Ok?
  }

  ghost predicate FirstFaulty(refs: seq<Ref>, ctx: Context, f: Option<string>)
    requires Known(refs, ctx)
  {
    exists i :: 0 <= i < |refs| && Fault(refs[i], ctx) == f && forall j :: 0 <= j < i ==> Fault(refs[j], ctx).None?
  }

  method ResolveRefs(refs: seq<RawRef>, handles: Option<map<string, Ref>>) returns (r: Outcome<seq<Ref>, string>)
    ensures r == Resolve(refs, handles, [])
    ensures r.Ok? ==>
      |r.value| == |refs| && forall i :: 0 <= i < |refs| ==> Meaning(refs[i], handles) == Ok(r.value[i])
    ensures r.Err? ==> FirstRefused(refs, handles, r.error)
  {
    var done: seq<Ref> := [];
    for i := 0 to |refs|
      invariant |done| == i && forall j :: 0 <= j < i ==> Meaning(refs[j], handles) == Ok(done[j])
      invariant Resolve(refs[i..], handles, done) == Resolve(refs, handles, [])
    {
      var m := Meaning(refs[i], handles);
      if m.Err? { return Err(m.error); }
      done := done + [m.value];
      assert refs[i..][1..] == refs[i + 1..];
    }
    return Ok(done);
  }

  method FindFault(refs: seq<Ref>, ctx: Context) returns (f: Option<string>)
    requires Known(refs, ctx)
    ensures f == FirstFault(refs, ctx)
    ensures f.None? ==> forall i :: 0 <= i < |refs| ==> Fault(refs[i], ctx).None?
    ensures f.Some? ==> FirstFaulty(refs, ctx, f)
  {
    for i := 0 to |refs|
      invariant forall j :: 0 <= j < i ==> Fault(refs[j], ctx).None?
      invariant FirstFault(refs[i..], ctx) == FirstFault(refs, ctx)
    {
      f := Fault(refs[i], ctx);
      if f.Some? { return; }
      assert refs[i..][1..] == refs[i + 1..];
    }
    return None;
  }

  /******* Rows *******/

  datatype Status =
    | Pending | Leased | RetainedShortTerm | AwaitingOwner
    | Reconciled | Failed | Discarded | Blocked | Invalidated | Expired | Rejected

  /** The statuses under the partial unique index. */
  predicate Open(s: Status) {
    s in {Pending, Leased, RetainedShortTerm, AwaitingOwner}
  }

  datatype Row = Row(status: Status, evidence: seq<Ref>, key: Option<Digest>)

  predicate Holds(row: Row, key: Digest) {
    Open(row.status) && row.key == Some(key)
  }

  /** Index of the newest open row with a key, or the number of rows. */
  function NewestOpen(rows: seq<Row>, key: Digest): (k: nat)
    ensures k <= |rows|
    ensures k < |rows| ==> Holds(rows[k], key)
    ensures k == |rows| ==> forall j :: 0 <= j < |rows| ==> !Holds(rows[j], key)
    ensures k < |rows| ==> forall j :: k < j < |rows| ==> !Holds(rows[j], key)
  {
    if rows == [] then 0
    else
      var n := |rows| - 1;
      if Holds(rows[n], key) then n
      else
        var k := NewestOpen(rows[..n], key);
        if k == n then |rows| else k
  }

  /** The insert that does nothing on conflict, and the row it ends with. */
  function Admit(rows: seq<Row>, refs: seq<Ref>): (seq<Row>, nat) {
    var key := EvidenceSetHash(refs);
    var k := NewestOpen(rows, key);
    (if k == |rows| then rows + [Row(Pending, refs, Some(key))] else rows, k)
  }

  datatype Verdict = Accepted | Duplicate | Refused(category: string)

  function Enqueued(rows: seq<Row>, c: Candidate, ctx: Context): (seq<Row>, Outcome<(nat, bool), string>) {
    match Evidence(c, ctx)
    case Err(e) => (rows, Err(e))
    case Ok(refs) =>
      var (after, k) := Admit(rows, refs);
      (after, Ok((k, k == |rows|)))
  }

  function Judged(rows: seq<Row>, raw: Raw, ctx: Context): (seq<Row>, Verdict) {
    match Validated(raw)
    case Err(e) => (rows, Refused(e))
    case Ok(c) =>
      match Enqueued(rows, c, ctx)
      case (after, Ok((_, created))) => (after, if created then Accepted else Duplicate)
      case (after, Err(e)) => (after, Refused(e))
  }

  function Batch(rows: seq<Row>, raws: seq<Raw>, ctx: Context): (r: (seq<Row>, seq<Verdict>))
    ensures |r.1| == |raws|
  {
    if raws == [] then (rows, [])
    else
      var (before, verdicts) := Batch(rows, raws[..|raws| - 1], ctx);
      var (after, v) := Judged(before, raws[|raws| - 1], ctx);
      (after, verdicts + [v])
  }

  /******* The repository *******/

  datatype Report = Report(accepted: nat, duplicate: nat, rejected: nat, rejections: map<string, nat>)

  function Bump(m: map<string, nat>, k: string): map<string, nat> {
    m[k := (if k in m then m[k] else 0) + 1]
  }

  function Score(r: Report, v: Verdict): Report {
    match v
    case Accepted => r.(accepted := r.accepted + 1)
    case Duplicate => r.(duplicate := r.duplicate + 1)
    case Refused(c) => r.(rejected := r.rejected + 1, rejections := Bump(r.rejections, c))
  }

  function Tally(verdicts: seq<Verdict>): Report {
    if verdicts == [] then Report(0, 0, 0, map[])
    else Score(Tally(verdicts[..|verdicts| - 1]), verdicts[|verdicts| - 1])
  }

  lemma BatchNext(rows: seq<Row>, raws: seq<Raw>, ctx: Context, i: nat)
    requires i < |raws|
    ensures var (before, verdicts) := Batch(rows, raws[..i], ctx);
      var (after, v) := Judged(before, raws[i], ctx);
      && Batch(rows, raws[..i + 1], ctx).0 == after
      && Tally(Batch(rows, raws[..i + 1], ctx).1) == Score(Tally(verdicts), v)
  {
    var verdicts := Batch(rows, raws[..i], ctx).1;
    var v := Judged(Batch(rows, raws[..i], ctx).0, raws[i], ctx).1;
    assert raws[..i + 1][..i] == raws[..i];
    assert (verdicts + [v])[..|verdicts|] == verdicts;
  }

  class CandidateRepository {
    var rows: seq<Row>

    constructor ()
      ensures rows == []
    {
      rows := [];
    }

    method FindNewest(key: Digest) returns (k: nat)
      ensures k == NewestOpen(rows, key)
    {
      var i := |rows|;
      while i > 0
        invariant 0 <= i <= |rows|
        invariant forall j :: i <= j < |rows| ==> !Holds(rows[j], key)
      {
        i := i - 1;
        if Holds(rows[i], key) { return i; }
      }
      return |rows|;
    }

    method Enqueue(c: Candidate, ctx: Context) returns (r: Outcome<(nat, bool), string>)
      modifies this
      ensures (rows, r) == Enqueued(old(rows), c, ctx)
    {
      var n := Normalize(c);
      if n.Err? { return Err(n.error); }
      var resolved := ResolveRefs(n.value.refs, ctx.handles);
      if resolved.Err? { return Err(resolved.error); }
      var refs := Dedupe(resolved.value);
      if !Visible(refs, ctx) { return Err("candidate_referenced_evidence_outside_the_model_visible_context"); }
      if !Known(refs, ctx) { return Err("candidate_referenced_unknown_canonical_evidence"); }
      var f := FindFault(refs, ctx);
      if f.Some? { return Err(f.value); }
      var key := EvidenceSetHash(refs);
      var k := FindNewest(key);
      if k == |rows| {
        rows := rows + [Row(Pending, refs, Some(key))];
        return Ok((k, true));
      }
      return Ok((k, false));
    }

    /** One proposal of a batch: a refusal is recorded, never raised. */
    method Judge(raw: Raw, ctx: Context) returns (v: Verdict)
      modifies this
      ensures (rows, v) == Judged(old(rows), raw, ctx)
    {
      var c := Validated(raw);
      if c.Err? { return Refused(c.error); }
      var r := Enqueue(c.value, ctx);
      if r.Err? { return Refused(r.error); }
      return if r.value.1 then Accepted else Duplicate;
    }

    /** At most eight proposals, each judged against the rows the earlier ones left. */
    method EnqueueMany(raws: seq<Raw>, ctx: Context) returns (report: Report)
      modifies this
      ensures var taken := raws[..Min(BATCH_LIMIT, |raws|)];
        rows == Batch(old(rows), taken, ctx).0 && report == Tally(Batch(old(rows), taken, ctx).1)
    {
      var taken := raws[..Min(BATCH_LIMIT, |raws|)];
      var accepted, duplicate, rejected: nat := 0, 0, 0;
      var rejections: map<string, nat> := map[];
      for i := 0 to |taken|
        invariant rows == Batch(old(rows), taken[..i], ctx).0
        invariant Report(accepted, duplicate, rejected, rejections) == Tally(Batch(old(rows), taken[..i], ctx).1)
      {
        BatchNext(old(rows), taken, ctx, i);
        var v := Judge(taken[i], ctx);
        match v {
          case Accepted => accepted := accepted + 1;
          case Duplicate => duplicate := duplicate + 1;
          case Refused(category) => rejected, rejections := rejected + 1, Bump(rejections, category);
        }
      }
      assert taken[..|taken|] == taken;
      return Report(accepted, duplicate, rejected, rejections);
    }
  }
}
