/** What a backup writes, in which order, and what every moment on the way looks like. */
module BackupRun {
  import opened Common
  import opened BackupTree
  import opened Backup

  datatype Live = Live(rows: seq<ArtifactRow>, artifacts: Source, checkpoints: Source, marker: Option<Content>)

  datatype Failure = NotSeparate | AlreadyExists | DumpFailed | CopyFailed | ArtifactMismatch

  ghost predicate LiveOk(l: Live) {
    SourceOk(l.artifacts) && SourceOk(l.checkpoints)
  }

  /******* The snapshot *******/

  function WithDump(l: Live): Tree {
    map[DUMP := File([Dump(l.rows)])]
  }

  function WithArtifacts(l: Live): Tree {
    Base(WithDump(l), [ARTIFACTS]) + Placed(l.artifacts.nodes, [ARTIFACTS])
  }

  function WithTrees(l: Live): Tree {
    Base(WithArtifacts(l), [CHECKPOINTS]) + Placed(l.checkpoints.nodes, [CHECKPOINTS])
  }

  function Body(l: Live): Tree {
    if l.marker.Some? then WithTrees(l)[MARKER := File(l.marker.value)] else WithTrees(l)
  }

  function ManifestOf(body: Tree): Content {
    [Manifest(1, Catalog(body))]
  }

  function Manifested(body: Tree): Tree {
    body[MANIFEST := File(ManifestOf(body))]
  }

  function Completed(body: Tree): Tree {
    Manifested(body)[COMPLETE := File(Digest(ManifestOf(body)))]
  }

  /** A finished backup of the live state. */
  function Finished(l: Live): Tree {
    Completed(Body(l))
  }

  /** Paths moved below a directory have at least two parts. */
  lemma PlacedDeep(s: Source, name: string, q: Path)
    requires SourceOk(s) && q in Placed(s.nodes, [name])
    ensures |q| >= 2 && q[0] == name && q[1..] in s.nodes
  {
    PlacedUnder(s.nodes, [name], q);
    assert q[..1][0] == q[0];
    assert q == [name] + q[1..];
  }

  lemma PlacedApart(base: Tree, s: Source, name: string)
    requires SourceOk(s) && forall q :: q in base ==> |q| == 1 || (|q| >= 1 && q[0] != name)
    ensures Apart(base, s.nodes, [name])
  {
    forall p | p in s.nodes ensures [name] + p !in base {
      assert p != [] && |[name] + p| >= 2 && ([name] + p)[0] == name;
    }
  }

  /** Where everything in a snapshot lies. */
  lemma TreesShape(l: Live, q: Path)
    requires LiveOk(l) && q in WithTrees(l)
    ensures q in {DUMP, [ARTIFACTS], [CHECKPOINTS]} || (|q| >= 2 && q[0] in {ARTIFACTS, CHECKPOINTS})
  {
    if q in Placed(l.artifacts.nodes, [ARTIFACTS]) { PlacedDeep(l.artifacts, ARTIFACTS, q); }
    if q in Placed(l.checkpoints.nodes, [CHECKPOINTS]) { PlacedDeep(l.checkpoints, CHECKPOINTS, q); }
  }

  lemma ArtifactsShape(l: Live, q: Path)
    requires LiveOk(l) && q in WithArtifacts(l)
    ensures q in {DUMP, [ARTIFACTS]} || (|q| >= 2 && q[0] == ARTIFACTS)
  {
    if q in Placed(l.artifacts.nodes, [ARTIFACTS]) { PlacedDeep(l.artifacts, ARTIFACTS, q); }
  }

  lemma ReservedNames(l: Live)
    requires LiveOk(l)
    ensures COMPLETE !in Body(l) && MANIFEST !in Body(l) && MARKER !in WithTrees(l)
    ensures IsFile(Body(l), DUMP) && Body(l)[DUMP].content == [Dump(l.rows)]
  {
    if COMPLETE in WithTrees(l) { TreesShape(l, COMPLETE); }
    if MANIFEST in WithTrees(l) { TreesShape(l, MANIFEST); }
    if MARKER in WithTrees(l) { TreesShape(l, MARKER); }
    if DUMP in Placed(l.artifacts.nodes, [ARTIFACTS]) { PlacedDeep(l.artifacts, ARTIFACTS, DUMP); }
    if DUMP in Placed(l.checkpoints.nodes, [CHECKPOINTS]) { PlacedDeep(l.checkpoints, CHECKPOINTS, DUMP); }
  }

  lemma DeepInCompleted(body: Tree, q: Path)
    requires |q| >= 2
    ensures q in Completed(body) <==> q in body
    ensures q in body ==> Completed(body)[q] == body[q]
  {
    assert |MANIFEST| == 1 && |COMPLETE| == 1;
  }

  lemma DeepInBody(l: Live, q: Path)
    requires |q| >= 2
    ensures q in Body(l) <==> q in WithTrees(l)
    ensures q in Body(l) ==> Body(l)[q] == WithTrees(l)[q]
  {
    assert |MARKER| == 1;
  }

  lemma DeepInTrees(l: Live, q: Path)
    requires |q| >= 2
    ensures q in WithTrees(l) <==>
      q in Placed(l.artifacts.nodes, [ARTIFACTS]) || q in Placed(l.checkpoints.nodes, [CHECKPOINTS])
    ensures q in Placed(l.checkpoints.nodes, [CHECKPOINTS]) ==>
      WithTrees(l)[q] == Placed(l.checkpoints.nodes, [CHECKPOINTS])[q]
    ensures q in Placed(l.artifacts.nodes, [ARTIFACTS]) && q !in Placed(l.checkpoints.nodes, [CHECKPOINTS]) ==>
      WithTrees(l)[q] == Placed(l.artifacts.nodes, [ARTIFACTS])[q]
  {
  }

  /** Paths below different directories differ. */
  lemma OtherTree(s: Source, name: string, other: string, p: Path)
    requires SourceOk(s) && name != other
    ensures [other] + p !in Placed(s.nodes, [name])
  {
    PlacedUnder(s.nodes, [name], [other] + p);
    assert ([other] + p)[..1] == [other];
  }

  lemma AtArtifacts(l: Live, p: Path)
    requires LiveOk(l) && p != []
    ensures [ARTIFACTS] + p in Body(l) <==> p in l.artifacts.nodes
    ensures p in l.artifacts.nodes ==> Body(l)[[ARTIFACTS] + p] == l.artifacts.nodes[p]
  {
    DeepInBody(l, [ARTIFACTS] + p);
    DeepInTrees(l, [ARTIFACTS] + p);
    PlacedAt(l.artifacts.nodes, [ARTIFACTS], p);
    OtherTree(l.checkpoints, CHECKPOINTS, ARTIFACTS, p);
  }

  lemma AtCheckpoints(l: Live, p: Path)
    requires LiveOk(l) && p != []
    ensures [CHECKPOINTS] + p in Body(l) <==> p in l.checkpoints.nodes
    ensures p in l.checkpoints.nodes ==> Body(l)[[CHECKPOINTS] + p] == l.checkpoints.nodes[p]
  {
    DeepInBody(l, [CHECKPOINTS] + p);
    DeepInTrees(l, [CHECKPOINTS] + p);
    PlacedAt(l.checkpoints.nodes, [CHECKPOINTS], p);
    OtherTree(l.artifacts, ARTIFACTS, CHECKPOINTS, p);
  }

  lemma BelowIs(t: Tree, name: string, nodes: Tree)
    requires [] !in nodes
    requires forall p :: p != [] ==> ([name] + p in t <==> p in nodes)
    requires forall p :: p in nodes ==> t[[name] + p] == nodes[p]
    ensures Below(t, name) == nodes
  {
    forall p ensures (p in Below(t, name) <==> p in nodes) && (p in nodes ==> Below(t, name)[p] == nodes[p]) {
      BelowAt(t, name, p);
    }
  }

  lemma BodyTrees(l: Live)
    requires LiveOk(l)
    ensures Below(Body(l), ARTIFACTS) == l.artifacts.nodes
    ensures Below(Body(l), CHECKPOINTS) == l.checkpoints.nodes
  {
    var t := Body(l);
    forall p: Path | p != []
      ensures ([ARTIFACTS] + p in t <==> p in l.artifacts.nodes)
        && (p in l.artifacts.nodes ==> t[[ARTIFACTS] + p] == l.artifacts.nodes[p])
    {
      AtArtifacts(l, p);
    }
    BelowIs(t, ARTIFACTS, l.artifacts.nodes);
    forall p: Path | p != []
      ensures ([CHECKPOINTS] + p in t <==> p in l.checkpoints.nodes)
        && (p in l.checkpoints.nodes ==> t[[CHECKPOINTS] + p] == l.checkpoints.nodes[p])
    {
      AtCheckpoints(l, p);
    }
    BelowIs(t, CHECKPOINTS, l.checkpoints.nodes);
  }

  /** Nothing below a directory changes with the manifest and the marker. */
  lemma BelowCompleted(body: Tree, name: string)
    ensures Below(Completed(body), name) == Below(body, name)
  {
    forall p ensures (p in Below(Completed(body), name) <==> p in Below(body, name))
      && (p in Below(body, name) ==> Below(Completed(body), name)[p] == Below(body, name)[p])
    {
      BelowAt(Completed(body), name, p);
      BelowAt(body, name, p);
      if p != [] { DeepInCompleted(body, [name] + p); }
    }
  }

  lemma PlacedRegular(t: Tree, prefix: Path)
    requires Regular(t)
    ensures Regular(Placed(t, prefix))
  {
    forall q | q in Placed(t, prefix) ensures Placed(t, prefix)[q].Dir? || Placed(t, prefix)[q].File? {
      PlacedUnder(t, prefix, q);
    }
  }

  lemma RegularUnion(a: Tree, b: Tree)
    requires Regular(a) && Regular(b)
    ensures Regular(a + b)
  {
  }

  lemma BodyRegular(l: Live)
    requires Regular(l.artifacts.nodes) && Regular(l.checkpoints.nodes)
    ensures Regular(Body(l))
  {
    PlacedRegular(l.artifacts.nodes, [ARTIFACTS]);
    RegularUnion(Base(WithDump(l), [ARTIFACTS]), Placed(l.artifacts.nodes, [ARTIFACTS]));
    PlacedRegular(l.checkpoints.nodes, [CHECKPOINTS]);
    RegularUnion(Base(WithArtifacts(l), [CHECKPOINTS]), Placed(l.checkpoints.nodes, [CHECKPOINTS]));
  }

  /** A body as a backup leaves it before the manifest. */
  ghost predicate Bodily(body: Tree) {
    Regular(body) && MANIFEST !in body && COMPLETE !in body && IsFile(body, DUMP)
  }

  /** Adding a manifest and a marker to a regular body makes a whole, acceptable snapshot. */
  lemma BodyWhole(body: Tree)
    requires Bodily(body)
    ensures Whole(Manifested(body)) && Completed(body) - {COMPLETE} == Manifested(body) && Acceptable(Completed(body))
  {
    var t := Manifested(body);
    var f := Completed(body);
    assert MANIFEST[0] != COMPLETE[0];
    assert t - {MANIFEST} == body;
    assert f - {COMPLETE} == t;
    TrimDigest(ManifestOf(body));
    AcceptableExactly(t, f);
  }

  lemma BodyBodily(l: Live)
    requires LiveOk(l) && Regular(l.artifacts.nodes) && Regular(l.checkpoints.nodes)
    ensures Bodily(Body(l))
  {
    BodyRegular(l);
    ReservedNames(l);
  }

  /******* Backup *******/

  /** No step so far writes the completion marker. */
  ghost predicate Unmarked(ops: seq<Op>) {
    forall i :: 0 <= i < |ops| ==> ops[i].Wrote? ==> ops[i].path != COMPLETE
  }

  /** The disk is what these steps make of an empty one. */
  ghost predicate Made(d: Disk, ops: seq<Op>) {
    d == Moment(ops, |ops|)
  }

  /** The disk after the first steps of a backup. */
  function Moment(ops: seq<Op>, i: nat): Disk
    requires i <= |ops|
  {
    Replay(Disk(map[], map[]), ops[..i])
  }

  /** A moment of a backup: unmarked, or the marker on top of the whole snapshot, the rest of it durable. */
  ghost predicate Staged(d: Disk, snapshot: Tree) {
    COMPLETE in d.cache ==> Guarded(d) && d.cache - {COMPLETE} == snapshot
  }

  /** After every number of steps the disk is staged. */
  ghost predicate AllStaged(ops: seq<Op>, snapshot: Tree) {
    forall i :: 0 <= i <= |ops| ==> Staged(Moment(ops, i), snapshot)
  }

  lemma {:induction false} UnmarkedReplay(ops: seq<Op>)
    requires Unmarked(ops)
    ensures COMPLETE !in Replay(Disk(map[], map[]), ops).cache && COMPLETE !in Replay(Disk(map[], map[]), ops).durable
  {
    if ops != [] {
      UnmarkedReplay(ops[..|ops| - 1]);
      assert ops[|ops| - 1].Wrote? ==> ops[|ops| - 1].path != COMPLETE;
    }
  }

  lemma UnmarkedStaged(ops: seq<Op>, snapshot: Tree)
    requires Unmarked(ops)
    ensures AllStaged(ops, snapshot)
  {
    forall i | 0 <= i <= |ops| ensures Staged(Moment(ops, i), snapshot) { UnmarkedReplay(ops[..i]); }
  }

  lemma MadeThen(d: Disk, a: seq<Op>, e: Disk, b: seq<Op>)
    requires Made(d, a) && |a| <= |b| && b[..|a|] == a && e == Replay(d, b[|a|..])
    ensures Made(e, b)
  {
    assert a[..|a|] == a && b[..|b|] == b && b == a + b[|a|..];
    ReplayConcat(Disk(map[], map[]), a, b[|a|..]);
  }

  /** Writes elsewhere leave a backup unmarked. */
  lemma WorkedUnmarked(d: Disk, a: seq<Op>, e: Disk, b: seq<Op>, paths: set<Path>)
    requires Made(d, a) && Unmarked(a) && Worked(d, a, e, b, paths) && COMPLETE !in paths
    ensures Made(e, b) && Unmarked(b) && COMPLETE !in e.cache
  {
    MadeThen(d, a, e, b);
    forall i | 0 <= i < |b| && b[i].Wrote? ensures b[i].path != COMPLETE {
      if i < |a| { assert b[i] == b[..|a|][i]; }
    }
    assert b[..|b|] == b;
    UnmarkedReplay(b);
  }

  method WriteUnmarked(v: Volume, p: Path, c: Content)
    requires Made(v.disk, v.ops) && Unmarked(v.ops) && p != COMPLETE
    modifies v
    ensures v.disk == Disk(old(v.disk).durable, old(v.disk).cache[p := File(c)])
    ensures Made(v.disk, v.ops) && Unmarked(v.ops)
  {
    v.WriteFile(p, c);
    WorkedUnmarked(old(v.disk), old(v.ops), v.disk, v.ops, {p});
  }

  method CopyInto(v: Volume, name: string, s: Source) returns (ok: bool)
    requires SourceOk(s) && name != "COMPLETE" && Made(v.disk, v.ops) && Unmarked(v.ops)
    requires Apart(Base(v.disk.cache, [name]), s.nodes, [name])
    modifies v
    ensures v.disk.durable == old(v.disk).durable
    ensures ok <==> !s.link && Regular(s.nodes)
    ensures ok ==> v.disk.cache == Base(old(v.disk).cache, [name]) + Placed(s.nodes, [name])
    ensures Made(v.disk, v.ops) && Unmarked(v.ops)
  {
    ok := v.CopyTree([name], s);
    ghost var paths := {[name]} + Placed(s.nodes, [name]).Keys;
    assert COMPLETE !in paths by {
      assert COMPLETE[0] != [name][0];
      if COMPLETE in Placed(s.nodes, [name]) { PlacedDeep(s, name, COMPLETE); }
    }
    WorkedUnmarked(old(v.disk), old(v.ops), v.disk, v.ops, paths);
  }

  lemma RoomForArtifacts(l: Live)
    requires LiveOk(l)
    ensures Apart(Base(WithDump(l), [ARTIFACTS]), l.artifacts.nodes, [ARTIFACTS])
  {
    PlacedApart(Base(WithDump(l), [ARTIFACTS]), l.artifacts, ARTIFACTS);
  }

  lemma RoomForCheckpoints(l: Live)
    requires LiveOk(l)
    ensures Apart(Base(WithArtifacts(l), [CHECKPOINTS]), l.checkpoints.nodes, [CHECKPOINTS])
  {
    forall q | q in WithArtifacts(l) ensures |q| == 1 || (|q| >= 1 && q[0] != CHECKPOINTS) { ArtifactsShape(l, q); }
    PlacedApart(Base(WithArtifacts(l), [CHECKPOINTS]), l.checkpoints, CHECKPOINTS);
  }

  /** The state roots can be copied. */
  predicate Copyable(l: Live) {
    !l.artifacts.link && Regular(l.artifacts.nodes) && !l.checkpoints.link && Regular(l.checkpoints.nodes)
  }

  method WriteBody(v: Volume, l: Live) returns (ok: bool)
    requires LiveOk(l) && v.disk == Disk(map[], map[]) && v.ops == []
    modifies v
    ensures v.disk.durable == map[]
    ensures ok <==> Copyable(l)
    ensures ok ==> v.disk.cache == Body(l)
    ensures Made(v.disk, v.ops) && Unmarked(v.ops)
  {
    assert v.ops[..0] == [];
    WriteUnmarked(v, DUMP, [Dump(l.rows)]);
    assert v.disk.cache == WithDump(l);
    RoomForArtifacts(l);
    ok := CopyInto(v, ARTIFACTS, l.artifacts);
    if !ok { return; }
    RoomForCheckpoints(l);
    ok := CopyInto(v, CHECKPOINTS, l.checkpoints);
    if !ok { return; }
    if l.marker.Some? { WriteUnmarked(v, MARKER, l.marker.value); }
  }

  lemma MarkerStaged(snapshot: Tree, c: Content)
    requires Whole(snapshot)
    ensures var t := snapshot[COMPLETE := File(c)];
      Staged(Disk(snapshot, t), snapshot) && Staged(Disk(t, t), snapshot)
  {
    var t := snapshot[COMPLETE := File(c)];
    assert t - {COMPLETE} == snapshot && snapshot - {COMPLETE} == snapshot;
  }

  /** One more step, to a staged disk. */
  lemma StagedNext(ops: seq<Op>, op: Op, snapshot: Tree)
    requires AllStaged(ops, snapshot) && Staged(Do(Moment(ops, |ops|), op), snapshot)
    ensures AllStaged(ops + [op], snapshot)
    ensures Moment(ops + [op], |ops| + 1) == Do(Moment(ops, |ops|), op)
  {
    var more := ops + [op];
    assert more[..|more|] == more && more[..|ops|] == ops && ops[..|ops|] == ops;
    assert Moment(more, |more|) == Do(Moment(ops, |ops|), op);
    forall i | 0 <= i <= |more| ensures Staged(Moment(more, i), snapshot) {
      if i <= |ops| { assert more[..i] == ops[..i] && Staged(Moment(ops, i), snapshot); }
    }
  }

  /** The marker's own steps: created, filled, synced, on top of a durable whole snapshot. */
  lemma MarkerMoments(ops: seq<Op>, snapshot: Tree, digest: Content)
    requires Unmarked(ops) && Made(Disk(snapshot, snapshot), ops) && Whole(snapshot)
    ensures AllStaged(ops + [Wrote(COMPLETE, File([])), Wrote(COMPLETE, File(digest))] + [Synced], snapshot)
  {
    UnmarkedStaged(ops, snapshot);
    MarkerStaged(snapshot, []);
    MarkerStaged(snapshot, digest);
    var a, b := ops + [Wrote(COMPLETE, File([]))], ops + [Wrote(COMPLETE, File([])), Wrote(COMPLETE, File(digest))];
    StagedNext(ops, Wrote(COMPLETE, File([])), snapshot);
    assert snapshot[COMPLETE := File([])][COMPLETE := File(digest)] == snapshot[COMPLETE := File(digest)];
    StagedNext(a, Wrote(COMPLETE, File(digest)), snapshot);
    assert a + [Wrote(COMPLETE, File(digest))] == b;
    StagedNext(b, Synced, snapshot);
  }

  /** Manifest, sync, marker, sync: the marker is created only once everything else is durable. */
  method Publish(v: Volume, ghost body: Tree)
    requires Bodily(body) && v.disk == Disk(map[], body) && Made(v.disk, v.ops) && Unmarked(v.ops)
    modifies v
    ensures v.disk == Disk(Completed(body), Completed(body)) && Made(v.disk, v.ops)
    ensures AllStaged(v.ops, Manifested(body))
  {
    var manifest := ManifestOf(v.disk.cache);
    WriteUnmarked(v, MANIFEST, manifest);
    SyncMade(v);
    BodyWhole(body);
    PublishMarker(v, Digest(manifest));
  }

  method SyncMade(v: Volume)
    requires Made(v.disk, v.ops)
    modifies v
    ensures v.disk == Disk(old(v.disk).cache, old(v.disk).cache) && v.ops == old(v.ops) + [Synced]
    ensures Made(v.disk, v.ops)
  {
    v.Sync();
    assert v.ops[|old(v.ops)|..] == [Synced] && [Synced][..0] == [];
    MadeThen(old(v.disk), old(v.ops), v.disk, v.ops);
  }

  method PublishMarker(v: Volume, digest: Content)
    requires v.disk.durable == v.disk.cache && Whole(v.disk.cache) && Made(v.disk, v.ops) && Unmarked(v.ops)
    modifies v
    ensures var t := old(v.disk).cache[COMPLETE := File(digest)]; v.disk == Disk(t, t)
    ensures Made(v.disk, v.ops) && AllStaged(v.ops, old(v.disk).cache)
  {
    MarkerMoments(v.ops, v.disk.cache, digest);
    v.WriteFile(COMPLETE, digest);
    MadeThen(old(v.disk), old(v.ops), v.disk, v.ops);
    SyncMade(v);
  }

  /**
   A backup succeeds exactly on sound live state and leaves its finished snapshot durable; at every moment on the
   way there is no marker, or only the marker is missing.
   */
  method BackUp(v: Volume, l: Live, separate: bool, taken: bool, dumped: bool) returns (r: Outcome<nat, Failure>)
    requires LiveOk(l) && v.disk == Disk(map[], map[]) && v.ops == []
    modifies v
    ensures r.Ok? <==> separate && !taken && dumped && Copyable(l) && RowsHold(l.rows, l.artifacts.nodes)
    ensures r.Ok? ==> v.disk == Disk(Finished(l), Finished(l)) && r.value == |Catalog(Body(l))|
    ensures Made(v.disk, v.ops) && AllStaged(v.ops, Manifested(Body(l)))
    ensures r.Err? ==> Unmarked(v.ops)
    ensures r == Err(NotSeparate) <==> !separate
    ensures r == Err(AlreadyExists) <==> separate && taken
    ensures r == Err(DumpFailed) <==> separate && !taken && !dumped
    ensures r == Err(CopyFailed) <==> separate && !taken && dumped && !Copyable(l)
  {
    assert v.ops[..0] == [];
    UnmarkedStaged(v.ops, Manifested(Body(l)));
    if !separate { return Err(NotSeparate); }
    if taken { return Err(AlreadyExists); }
    if !dumped { return Err(DumpFailed); }
    var ok := WriteBody(v, l);
    UnmarkedStaged(v.ops, Manifested(Body(l)));
    if !ok { return Err(CopyFailed); }
    BodyTrees(l);
    ok := VerifyArtifacts(l.rows, Below(v.disk.cache, ARTIFACTS));
    if !ok { return Err(ArtifactMismatch); }
    BodyBodily(l);
    var count := |Catalog(v.disk.cache)|;
    Publish(v, Body(l));
    return Ok(count);
  }
}
