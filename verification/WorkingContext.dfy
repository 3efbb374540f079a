/** Assembling the model's working context under a token budget, specified as first fit over a ladder. */
module WorkingContext {
  import opened Common

  datatype Actor = Owner | Atlas | Tool

  /** A turn, with the phases of the tool observations among its blocks. */
  datatype Turn = Turn(id: nat, actor: Actor, phases: seq<Option<string>>)

  /** Lower case, for the letters that occur in phases. */
  function Folded(s: string): string {
    if s == "" then "" else [if 'A' <= s[0] <= 'Z' then (s[0] as int + 32) as char else s[0]] + Folded(s[1..])
  }

  /** An observation that must stay verbatim: something failed, is open, or needs the owner. */
  predicate Protected(phase: Option<string>) {
    phase.Some? && Folded(phase.value) in
      {"failed", "uncertain", "prepared", "executing", "approval_required", "forbidden", "unavailable"}
  }

  /** A tool turn with observations, none of them protected. */
  predicate MayCompact(turn: Turn) {
    turn.actor == Tool && turn.phases != [] && forall i :: 0 <= i < |turn.phases| ==> !Protected(turn.phases[i])
  }

  /** One way to present the conversation. */
  datatype Form = Form(turns: seq<Turn>, compact: set<nat>, summary: bool, continuity: bool)

  datatype Stage =
    Verbatim | OlderToolsCompacted | ToolsCompacted | ContinuityOmitted | HistoryTrimmed | CapsuleOmitted

  datatype Rung = Rung(stage: Stage, form: Form)

  /** What the assembly is given; `tokens` counts the input tokens of a form's messages. */
  datatype Context = Context(
    selected: seq<Turn>, rawToolExchanges: nat, hasSummary: bool, hasContinuity: bool, budget: nat, tokens: Form -> nat)

  datatype Report = Report(
    inputTokens: nat, selectedExchanges: nat, compactedToolTurns: nat,
    summaryIncluded: bool, continuityIncluded: bool, budgetExceeded: bool, stage: Stage)

  /******* Exchanges *******/

  function OwnerCount(turns: seq<Turn>): nat {
    if turns == [] then 0 else (if turns[0].actor == Owner then 1 else 0) + OwnerCount(turns[1..])
  }

  /** The suffix that begins at an owner turn and holds `k` owner turns. */
  function Suffix(turns: seq<Turn>, k: nat): seq<Turn>
    requires 0 < k <= OwnerCount(turns)
  {
    if turns[0].actor == Owner && OwnerCount(turns) == k then turns else Suffix(turns[1..], k)
  }

  function Recent(turns: seq<Turn>, k: int): seq<Turn> {
    if k <= 0 then [] else if OwnerCount(turns) <= k then turns else Suffix(turns, k)
  }

  lemma {:induction false} SuffixFacts(turns: seq<Turn>, k: nat)
    requires 0 < k <= OwnerCount(turns)
    ensures OwnerCount(Suffix(turns, k)) == k && Suffix(turns, k)[0].actor == Owner
    ensures |Suffix(turns, k)| <= |turns| && Suffix(turns, k) == turns[|turns| - |Suffix(turns, k)|..]
    decreases |turns|
  {
    if !(turns[0].actor == Owner && OwnerCount(turns) == k) {
      SuffixFacts(turns[1..], k);
      var n := |Suffix(turns[1..], k)|;
      assert turns[1..][|turns[1..]| - n..] == turns[|turns| - n..];
    }
  }

  lemma {:induction false} SuffixNested(turns: seq<Turn>, j: nat, k: nat)
    requires 0 < k < j <= OwnerCount(turns)
    ensures OwnerCount(Suffix(turns, j)) == j && Suffix(Suffix(turns, j), k) == Suffix(turns, k)
    decreases |turns|
  {
    if !(turns[0].actor == Owner && OwnerCount(turns) == j) { SuffixNested(turns[1..], j, k); }
  }

  /** Trimming what was already trimmed is trimming the original. */
  lemma RecentNested(turns: seq<Turn>, j: nat, k: nat)
    requires 0 < k <= j
    ensures Recent(Recent(turns, j), k) == Recent(turns, k)
  {
    if OwnerCount(turns) > j {
      SuffixFacts(turns, j);
      if k < j { SuffixNested(turns, j, k); }
    }
  }

  /** A trimmed history holds exactly the exchanges asked for, and is the end of the history. */
  lemma RecentCounts(turns: seq<Turn>, k: nat)
    requires 0 < k <= OwnerCount(turns)
    ensures OwnerCount(Recent(turns, k)) == k
    ensures |Recent(turns, k)| <= |turns| && Recent(turns, k) == turns[|turns| - |Recent(turns, k)|..]
  {
    SuffixFacts(turns, k);
  }

  /******* Compaction *******/

  function Compactable(turns: seq<Turn>): set<nat> {
    set i | 0 <= i < |turns| && MayCompact(turns[i]) :: turns[i].id
  }

  method CompactableIds(turns: seq<Turn>) returns (ids: set<nat>)
    ensures ids == Compactable(turns)
  {
    ids := {};
    for i := 0 to |turns|
      invariant ids == set j | 0 <= j < i && MayCompact(turns[j]) :: turns[j].id
    {
      if turns[i].actor != Tool { continue; }
      if turns[i].phases != [] && forall k :: 0 <= k < |turns[i].phases| ==> !Protected(turns[i].phases[k]) {
        ids := ids + {turns[i].id};
      }
    }
  }

  /** How many exchanges ago each tool turn happened; the latest exchange has age one. */
  function ToolSequences(turns: seq<Turn>): map<nat, nat> {
    if turns == [] then map[]
    else
      var last := |turns| - 1;
      var rest := ToolSequences(turns[..last]);
      if turns[last].actor == Tool then rest[turns[last].id := OwnerCount(turns[..last])] else rest
  }

  function AgeOf(turns: seq<Turn>, id: nat): int {
    var seqs := ToolSequences(turns);
    if id in seqs then Max(1, OwnerCount(turns) - seqs[id] + 1) else 1
  }

  function OlderCompactable(turns: seq<Turn>, raw: nat): set<nat> {
    set id | id in Compactable(turns) && AgeOf(turns, id) > raw
  }

  ghost predicate DistinctIds(turns: seq<Turn>) {
    forall i, j :: 0 <= i < j < |turns| ==> turns[i].id != turns[j].id
  }

  lemma {:induction false} OwnersSplit(turns: seq<Turn>, i: nat)
    requires i <= |turns|
    ensures OwnerCount(turns) == OwnerCount(turns[..i]) + OwnerCount(turns[i..])
    decreases i
  {
    if i > 0 {
      OwnersSplit(turns[1..], i - 1);
      assert turns[..i][1..] == turns[1..][..i - 1] && turns[i..] == turns[1..][i - 1..];
    }
  }

  lemma {:induction false} ToolSequenceOf(turns: seq<Turn>, i: nat)
    requires DistinctIds(turns) && i < |turns| && turns[i].actor == Tool
    ensures turns[i].id in ToolSequences(turns) && ToolSequences(turns)[turns[i].id] == OwnerCount(turns[..i])
    decreases |turns|
  {
    var last := |turns| - 1;
    if i < last {
      ToolSequenceOf(turns[..last], i);
      assert turns[..last][..i] == turns[..i];
    }
  }

  /** The age of a tool turn is one more than the number of owner turns after it. */
  lemma AgeExactly(turns: seq<Turn>, i: nat)
    requires DistinctIds(turns) && i < |turns| && turns[i].actor == Tool
    ensures AgeOf(turns, turns[i].id) == OwnerCount(turns[i + 1..]) + 1
  {
    ToolSequenceOf(turns, i);
    OwnersSplit(turns, i);
    assert turns[i..][1..] == turns[i + 1..];
  }

  /** The older tool turns are the compactable ones with at least `raw` owner turns after them. */
  lemma OlderExactly(turns: seq<Turn>, raw: nat, i: nat)
    requires DistinctIds(turns) && i < |turns|
    ensures turns[i].id in OlderCompactable(turns, raw) <==> MayCompact(turns[i]) && OwnerCount(turns[i + 1..]) >= raw
  {
    if turns[i].id in Compactable(turns) {
      var j :| 0 <= j < |turns| && MayCompact(turns[j]) && turns[j].id == turns[i].id;
      assert j == i;
      AgeExactly(turns, i);
    }
    if MayCompact(turns[i]) {
      assert turns[i].id in Compactable(turns);
      AgeExactly(turns, i);
    }
  }

  /** Fewer than `k` owner turns follow a turn of the last `k` exchanges, its owner's turn included. */
  lemma RecentOwners(turns: seq<Turn>, k: nat, i: nat)
    requires 0 < k && i < |turns| && i >= |turns| - |Recent(turns, k)| && turns[i].actor != Owner
    requires OwnerCount(turns[..i]) > 0
    ensures OwnerCount(turns[i + 1..]) < k
  {
    OwnersSplit(turns, i);
    assert turns[i..][1..] == turns[i + 1..];
    if OwnerCount(turns) > k {
      var rest := Suffix(turns, k);
      SuffixFacts(turns, k);
      var n := |turns| - |rest|;
      assert turns[n..] == rest;
      OwnersSplit(rest, i - n);
      assert rest[i - n..] == turns[i..] && rest[..i - n][0] == rest[0];
    }
  }

  /** So no tool turn of the latest `raw` exchanges is touched. */
  lemma LatestStayRaw(turns: seq<Turn>, raw: nat, i: nat)
    requires DistinctIds(turns) && 0 < raw && i < |turns| && i >= |turns| - |Recent(turns, raw)|
    requires OwnerCount(turns[..i]) > 0
    ensures turns[i].id !in OlderCompactable(turns, raw)
  {
    OlderExactly(turns, raw, i);
    if turns[i].actor == Tool { RecentOwners(turns, raw, i); }
  }

  /******* The ladder *******/

  function TrimRung(c: Context, k: nat): Rung {
    var t := Recent(c.selected, k);
    Rung(HistoryTrimmed, Form(t, Compactable(t), c.hasSummary, false))
  }

  /** Rungs for `k`, `k - 1`, ..., 1 exchanges. */
  function TrimRungs(c: Context, k: nat): seq<Rung> {
    if k == 0 then [] else [TrimRung(c, k)] + TrimRungs(c, k - 1)
  }

  function TopRungs(c: Context): seq<Rung> {
    var s := c.selected;
    [Rung(Verbatim, Form(s, {}, c.hasSummary, c.hasContinuity)),
     Rung(OlderToolsCompacted, Form(s, OlderCompactable(s, c.rawToolExchanges), c.hasSummary, c.hasContinuity)),
     Rung(ToolsCompacted, Form(s, Compactable(s), c.hasSummary, c.hasContinuity))]
    + (if c.hasContinuity then [Rung(ContinuityOmitted, Form(s, Compactable(s), c.hasSummary, false))] else [])
  }

  function TrimCount(c: Context): nat {
    if OwnerCount(c.selected) > 1 then OwnerCount(c.selected) - 1 else 0
  }

  /** The last rung: the shortest history, without the summary. */
  function BottomRungs(c: Context): seq<Rung> {
    var t := if TrimCount(c) > 0 then Recent(c.selected, 1) else c.selected;
    if c.hasSummary then [Rung(CapsuleOmitted, Form(t, Compactable(t), false, false))] else []
  }

  /** Every form the assembly may return, in order of preference. */
  function Ladder(c: Context): seq<Rung> {
    TopRungs(c) + TrimRungs(c, TrimCount(c)) + BottomRungs(c)
  }

  /** The ids of the turns that may be compacted and, if so asked, have enough owner turns after them. */
  ghost predicate Compacts(turns: seq<Turn>, compact: set<nat>, raw: nat) {
    && (forall i :: 0 <= i < |turns| ==>
          (turns[i].id in compact <==> MayCompact(turns[i]) && OwnerCount(turns[i + 1..]) >= raw))
    && forall id :: id in compact ==> exists i :: 0 <= i < |turns| && turns[i].id == id
  }

  /** What each stage presents, in terms of the conversation it was given. */
  ghost predicate StageForm(c: Context, stage: Stage, f: Form) {
    && (stage in {Verbatim, OlderToolsCompacted, ToolsCompacted, ContinuityOmitted} ==> f.turns == c.selected)
    && (stage in {Verbatim, OlderToolsCompacted, ToolsCompacted} ==> f.continuity == c.hasContinuity)
    && (stage in {ContinuityOmitted, HistoryTrimmed, CapsuleOmitted} ==> !f.continuity)
    && (stage == CapsuleOmitted <==> f.summary != c.hasSummary)
    && (stage == ContinuityOmitted ==> c.hasContinuity)
    && (stage == Verbatim ==> f.compact == {})
    && (stage == OlderToolsCompacted && DistinctIds(c.selected) ==> Compacts(f.turns, f.compact, c.rawToolExchanges))
    && (stage !in {Verbatim, OlderToolsCompacted} && DistinctIds(c.selected) ==> Compacts(f.turns, f.compact, 0))
    && (stage == HistoryTrimmed ==> Trimmed(c.selected, f.turns))
    && (stage == CapsuleOmitted ==> OwnerCount(f.turns) <= 1 && (f.turns == c.selected || Trimmed(c.selected, f.turns)))
  }

  /** The end of a conversation from an owner turn on, with fewer but at least one exchange. */
  ghost predicate Trimmed(turns: seq<Turn>, kept: seq<Turn>) {
    && |kept| <= |turns| && kept == turns[|turns| - |kept|..]
    && 0 < OwnerCount(kept) < OwnerCount(turns) && kept[0].actor == Owner
  }

  lemma RecentTrims(turns: seq<Turn>, k: nat)
    requires 0 < k < OwnerCount(turns)
    ensures Trimmed(turns, Recent(turns, k)) && OwnerCount(Recent(turns, k)) == k
    ensures DistinctIds(turns) ==> DistinctIds(Recent(turns, k))
  {
    SuffixFacts(turns, k);
  }

  lemma AllCompacted(turns: seq<Turn>)
    requires DistinctIds(turns)
    ensures Compacts(turns, Compactable(turns), 0)
  {
    var ids := Compactable(turns);
    forall i | 0 <= i < |turns| ensures turns[i].id in ids <==> MayCompact(turns[i]) {
      if turns[i].id in ids {
        var j :| 0 <= j < |turns| && MayCompact(turns[j]) && turns[j].id == turns[i].id;
        assert j == i;
      }
    }
  }

  lemma OlderCompacted(turns: seq<Turn>, raw: nat)
    requires DistinctIds(turns)
    ensures Compacts(turns, OlderCompactable(turns, raw), raw)
  {
    forall i | 0 <= i < |turns|
      ensures turns[i].id in OlderCompactable(turns, raw) <==> MayCompact(turns[i]) && OwnerCount(turns[i + 1..]) >= raw
    {
      OlderExactly(turns, raw, i);
    }
  }

  lemma {:induction false} TrimRungsAt(c: Context, k: nat, j: nat)
    requires j < k
    ensures |TrimRungs(c, k)| == k && TrimRungs(c, k)[j] == TrimRung(c, k - j)
    decreases k
  {
    if k > 1 { TrimRungsAt(c, k - 1, if j > 0 then j - 1 else 0); }
  }

  lemma TopForms(c: Context, i: nat)
    requires i < |TopRungs(c)|
    ensures StageForm(c, TopRungs(c)[i].stage, TopRungs(c)[i].form)
  {
    if DistinctIds(c.selected) {
      if i == 1 { OlderCompacted(c.selected, c.rawToolExchanges); }
      if i >= 2 { AllCompacted(c.selected); }
    }
  }

  lemma TrimForms(c: Context, k: nat)
    requires 0 < k <= TrimCount(c)
    ensures StageForm(c, TrimRung(c, k).stage, TrimRung(c, k).form)
  {
    RecentTrims(c.selected, k);
    if DistinctIds(c.selected) { AllCompacted(Recent(c.selected, k)); }
  }

  lemma BottomForms(c: Context)
    requires BottomRungs(c) != []
    ensures StageForm(c, BottomRungs(c)[0].stage, BottomRungs(c)[0].form)
  {
    if TrimCount(c) > 0 { RecentTrims(c.selected, 1); }
    var t := if TrimCount(c) > 0 then Recent(c.selected, 1) else c.selected;
    if DistinctIds(c.selected) { AllCompacted(t); }
  }

  lemma {:induction false} TrimRungsSize(c: Context, k: nat)
    ensures |TrimRungs(c, k)| == k
  {
    if k > 0 { TrimRungsSize(c, k - 1); }
  }

  /** Every rung of the ladder is what its stage says. */
  lemma LadderForms(c: Context, i: nat)
    requires i < |Ladder(c)|
    ensures StageForm(c, Ladder(c)[i].stage, Ladder(c)[i].form)
  {
    var top, n := |TopRungs(c)|, TrimCount(c);
    TrimRungsSize(c, n);
    if i < top {
      TopForms(c, i);
    } else if i < top + n {
      TrimRungsAt(c, n, i - top);
      TrimForms(c, n - (i - top));
    } else {
      BottomForms(c);
    }
  }

  predicate Fits(c: Context, rung: Rung) {
    c.tokens(rung.form) <= c.budget
  }

  /** Where first fit stops: the first rung that fits, or else the last one. */
  function FirstFit(c: Context, rungs: seq<Rung>): Rung
    requires rungs != []
  {
    if |rungs| == 1 || Fits(c, rungs[0]) then rungs[0] else FirstFit(c, rungs[1..])
  }

  lemma {:induction false} FirstFitFacts(c: Context, rungs: seq<Rung>)
    requires rungs != []
    ensures exists i ::
      && 0 <= i < |rungs| && FirstFit(c, rungs) == rungs[i]
      && (forall j :: 0 <= j < i ==> !Fits(c, rungs[j])) && (Fits(c, rungs[i]) || i == |rungs| - 1)
    ensures Fits(c, FirstFit(c, rungs)) <==> exists i :: 0 <= i < |rungs| && Fits(c, rungs[i])
    decreases |rungs|
  {
    if |rungs| == 1 || Fits(c, rungs[0]) {
      assert FirstFit(c, rungs) == rungs[0];
      assert Fits(c, rungs[0]) || 0 == |rungs| - 1;
    } else {
      var rest := rungs[1..];
      FirstFitFacts(c, rest);
      var i :| 0 <= i < |rest| && FirstFit(c, rest) == rest[i]
        && (forall j :: 0 <= j < i ==> !Fits(c, rest[j])) && (Fits(c, rest[i]) || i == |rest| - 1);
      assert rungs[i + 1] == rest[i];
      forall j | 0 <= j < i + 1 ensures !Fits(c, rungs[j]) { if j > 0 { assert rungs[j] == rest[j - 1]; } }
      if k :| 0 <= k < |rungs| && Fits(c, rungs[k]) { assert k > 0 && rest[k - 1] == rungs[k]; }
    }
  }

  /** Nothing fits in `front`: first fit goes on from its last rung. */
  lemma {:induction false} FirstFitSkips(c: Context, front: seq<Rung>, rest: seq<Rung>)
    requires rest != [] && forall i :: 0 <= i < |front| ==> !Fits(c, front[i])
    ensures FirstFit(c, front + rest) == FirstFit(c, rest)
    decreases |front|
  {
    if front == [] {
      assert front + rest == rest;
    } else {
      assert (front + rest)[1..] == front[1..] + rest && (front + rest)[0] == front[0];
      FirstFitSkips(c, front[1..], rest);
    }
  }

  /** Stopped at a rung that fits, or at the last rung: that is where first fit stops. */
  lemma StoppedAt(c: Context, front: seq<Rung>, rung: Rung, rest: seq<Rung>)
    requires forall i :: 0 <= i < |front| ==> !Fits(c, front[i])
    requires Fits(c, rung) || rest == []
    ensures FirstFit(c, front + [rung] + rest) == rung
  {
    assert front + [rung] + rest == front + ([rung] + rest);
    FirstFitSkips(c, front, [rung] + rest);
    assert ([rung] + rest)[0] == rung;
  }

  /******* The assembly *******/

  /** The descending loop over exchange counts, each trimming what the previous one left. */
  method TrimHistory(c: Context) returns (rung: Rung, ghost passed: seq<Rung>, ghost ahead: seq<Rung>)
    requires TrimCount(c) > 0
    ensures TrimRungs(c, TrimCount(c)) != [] && rung == FirstFit(c, TrimRungs(c, TrimCount(c)))
    ensures passed + [rung] + ahead == TrimRungs(c, TrimCount(c))
    ensures forall i :: 0 <= i < |passed| ==> !Fits(c, passed[i])
    ensures Fits(c, rung) || ahead == []
    ensures ahead == [] ==> rung == TrimRung(c, 1)
  {
    var k := OwnerCount(c.selected) - 1;
    var selected := Recent(c.selected, k);
    var ids := CompactableIds(selected);
    rung := Rung(HistoryTrimmed, Form(selected, ids, c.hasSummary, false));
    passed, ahead := [], TrimRungs(c, k - 1);
    while k > 1 && c.tokens(rung.form) > c.budget
      invariant 1 <= k <= TrimCount(c) && rung == TrimRung(c, k) && selected == Recent(c.selected, k)
      invariant ahead == TrimRungs(c, k - 1)
      invariant passed + [rung] + ahead == TrimRungs(c, TrimCount(c))
      invariant forall i :: 0 <= i < |passed| ==> !Fits(c, passed[i])
    {
      RecentNested(c.selected, k, k - 1);
      passed := passed + [rung];
      k := k - 1;
      selected := Recent(selected, k);
      ids := CompactableIds(selected);
      rung := Rung(HistoryTrimmed, Form(selected, ids, c.hasSummary, false));
      assert ahead == [rung] + TrimRungs(c, k - 1);
      ahead := TrimRungs(c, k - 1);
    }
    StoppedAt(c, passed, rung, ahead);
  }

  /** Staged reduction, in the order of the source. */
  method Assemble(c: Context) returns (form: Form, report: Report)
    ensures Rung(report.stage, form) == FirstFit(c, Ladder(c))
    ensures report.inputTokens == c.tokens(form)
    ensures report.budgetExceeded <==> forall i :: 0 <= i < |Ladder(c)| ==> !Fits(c, Ladder(c)[i])
    ensures report.selectedExchanges == OwnerCount(form.turns) && report.compactedToolTurns == |form.compact|
    ensures report.summaryIncluded == form.summary && report.continuityIncluded == form.continuity
    ensures StageForm(c, report.stage, form)
  {
    var rung := ReduceTop(c);
    if c.tokens(rung.form) > c.budget {
      rung := ReduceFurther(c, rung);
    } else {
      TopFits(c, rung);
    }
    form := rung.form;
    var tokens := c.tokens(form);
    report := Report(
      tokens, OwnerCount(form.turns), |form.compact|, form.summary, form.continuity, tokens > c.budget, rung.stage);
    FirstFitFacts(c, Ladder(c));
    var i :| 0 <= i < |Ladder(c)| && FirstFit(c, Ladder(c)) == Ladder(c)[i];
    LadderForms(c, i);
  }

  /** Verbatim, older tools, all tools, continuity. */
  method ReduceTop(c: Context) returns (rung: Rung)
    ensures rung == FirstFit(c, TopRungs(c))
  {
    var selected := c.selected;
    var form := Form(selected, {}, c.hasSummary, c.hasContinuity);
    var tokens := c.tokens(form);
    var stage := Verbatim;
    var ids := CompactableIds(selected);
    if tokens > c.budget {
      form := form.(compact := set id | id in ids && AgeOf(selected, id) > c.rawToolExchanges);
      tokens := c.tokens(form);
      stage := OlderToolsCompacted;
    }
    if tokens > c.budget {
      form := form.(compact := ids);
      tokens := c.tokens(form);
      stage := ToolsCompacted;
    }
    if tokens > c.budget && c.hasContinuity {
      form := form.(continuity := false);
      tokens := c.tokens(form);
      stage := ContinuityOmitted;
    }
    rung := Rung(stage, form);
    TopCases(c);
  }

  lemma TopCases(c: Context)
    ensures var t := TopRungs(c);
      FirstFit(c, t) ==
        if Fits(c, t[0]) then t[0]
        else if Fits(c, t[1]) then t[1]
        else if Fits(c, t[2]) || |t| == 3 then t[2]
        else t[3]
  {
    var t := TopRungs(c);
    assert t[1..][1..] == t[2..];
    assert t[2..][1..] == t[3..];
    assert FirstFit(c, t[2..]) == if Fits(c, t[2]) || |t| == 3 then t[2] else t[3];
    assert FirstFit(c, t[1..]) == if Fits(c, t[1]) then t[1] else FirstFit(c, t[1..][1..]);
  }

  lemma {:induction false} FirstFitStops(c: Context, front: seq<Rung>, rest: seq<Rung>)
    requires front != [] && Fits(c, FirstFit(c, front))
    ensures FirstFit(c, front + rest) == FirstFit(c, front)
    decreases |front|
  {
    if !Fits(c, front[0]) {
      assert (front + rest)[1..] == front[1..] + rest;
      FirstFitStops(c, front[1..], rest);
    }
  }

  lemma TopFits(c: Context, rung: Rung)
    requires rung == FirstFit(c, TopRungs(c)) && Fits(c, rung)
    ensures FirstFit(c, Ladder(c)) == rung
  {
    FirstFitStops(c, TopRungs(c), TrimRungs(c, TrimCount(c)) + BottomRungs(c));
    assert Ladder(c) == TopRungs(c) + (TrimRungs(c, TrimCount(c)) + BottomRungs(c));
  }

  lemma TopExhausted(c: Context, rung: Rung)
    requires rung == FirstFit(c, TopRungs(c)) && !Fits(c, rung)
    ensures forall i :: 0 <= i < |TopRungs(c)| ==> !Fits(c, TopRungs(c)[i])
    ensures rung == TopRungs(c)[|TopRungs(c)| - 1]
    ensures rung.form == Form(c.selected, Compactable(c.selected), c.hasSummary, false)
  {
    FirstFitFacts(c, TopRungs(c));
  }

  /** Trim the history, then drop the summary. */
  method ReduceFurther(c: Context, top: Rung) returns (rung: Rung)
    requires top == FirstFit(c, TopRungs(c)) && !Fits(c, top)
    ensures rung == FirstFit(c, Ladder(c))
  {
    TopExhausted(c, top);
    rung := top;
    ghost var front, rest := TopRungs(c)[..|TopRungs(c)| - 1], [];
    assert TopRungs(c) == front + [rung];
    if OwnerCount(c.selected) > 1 {
      ghost var passed, ahead;
      rung, passed, ahead := TrimHistory(c);
      front, rest := TopRungs(c) + passed, ahead;
    }
    assert front + [rung] + rest == TopRungs(c) + TrimRungs(c, TrimCount(c));
    if c.tokens(rung.form) > c.budget && c.hasSummary {
      front := front + [rung];
      rung := Rung(CapsuleOmitted, rung.form.(summary := false));
      assert front + [rung] + [] == Ladder(c);
      StoppedAt(c, front, rung, []);
    } else {
      assert front + [rung] + (rest + BottomRungs(c)) == Ladder(c);
      StoppedAt(c, front, rung, rest + BottomRungs(c));
    }
  }
}
