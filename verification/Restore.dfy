/** Restore into empty targets, and the round trip from live state through a backup, or a crash of one, and back. */
module Restore {
  import opened Common
  import opened BackupTree
  import opened Backup
  import opened BackupRun

  datatype Refusal =
    BadSnapshot | TargetsNotEmpty | MarkerExists | DatabaseNotEmpty | DumpUnreadable | CopyRefused | RowMismatch

  /** The artifact rows a snapshot's dump restores, if it is one. */
  function RowsIn(s: Tree): Option<seq<ArtifactRow>> {
    if !IsFile(s, DUMP) then None
    else
      var c := s[DUMP].content;
      if |c| == 1 && c[0].Dump? then Some(c[0].rows) else None
  }

  function MarkerIn(s: Tree): Option<Content> {
    if IsFile(s, MARKER) then Some(s[MARKER].content) else None
  }

  method CheckFiles(s: Tree, files: map<Path, Content>) returns (ok: bool)
    ensures ok <==> FilesMatch(s, files)
  {
    var todo := files.Keys;
    while todo != {}
      invariant todo <= files.Keys
      invariant forall p :: p in files && p !in todo ==> IsFile(s, p) && Digest(s[p].content) == files[p]
      decreases |todo|
    {
      var name :| name in todo;
      if !IsFile(s, name) || Digest(s[name].content) != files[name] { return false; }
      todo := todo - {name};
    }
    return true;
  }

  /** Everything asked of a snapshot, in the order it is asked. */
  method Inspect(s: Tree) returns (ok: bool)
    ensures ok <==> Acceptable(s)
  {
    if !Regular(s) || !Marked(s) { return false; }
    var files := Listed(s);
    if files.None? { return false; }
    ok := CheckFiles(s, files.value);
    if !ok { return; }
    ok := NothingUnlisted(s, files.value);
  }

  class Target {
    const artifacts: Volume
    const checkpoints: Volume
    var database: Option<seq<ArtifactRow>>
    var marker: Option<Content>

    constructor (artifacts: Volume, checkpoints: Volume)
      ensures this.artifacts == artifacts && this.checkpoints == checkpoints
      ensures database.None? && marker.None?
    {
      this.artifacts, this.checkpoints, database, marker := artifacts, checkpoints, None, None;
    }

    /** Separate, empty places to restore into. */
    predicate Empty(separate: bool)
      reads this, artifacts, checkpoints
    {
      && separate && artifacts.disk.cache == map[] && checkpoints.disk.cache == map[]
      && marker.None? && database.None?
    }

    /**
     Refused checks leave every target as it was. Once they pass, restore succeeds exactly when the dump's artifact
     rows agree with the snapshot's artifacts; that test comes last, so its failure leaves the targets written.
     */
    method RestoreFrom(s: Tree, separate: bool) returns (r: Option<Refusal>)
      requires artifacts != checkpoints
      modifies this, artifacts, checkpoints
      ensures r.None? <==>
        Acceptable(s) && old(Empty(separate)) && RowsIn(s).Some? && RowsHold(RowsIn(s).value, Below(s, ARTIFACTS))
      ensures r.None? ==>
        && artifacts.disk == Disk(Below(s, ARTIFACTS), Below(s, ARTIFACTS))
        && checkpoints.disk == Disk(Below(s, CHECKPOINTS), Below(s, CHECKPOINTS))
        && database == RowsIn(s) && marker == MarkerIn(s)
      ensures !(Acceptable(s) && old(Empty(separate)) && RowsIn(s).Some?) ==>
        && artifacts.disk == old(artifacts.disk) && checkpoints.disk == old(checkpoints.disk)
        && database == old(database) && marker == old(marker)
      ensures Acceptable(s) && old(Empty(separate)) && RowsIn(s).Some? && r.Some? ==>
        && r == Some(RowMismatch) && artifacts.disk.cache == Below(s, ARTIFACTS)
        && checkpoints.disk.cache == Below(s, CHECKPOINTS) && database == RowsIn(s) && marker.None?
      ensures r == Some(BadSnapshot) <==> !Acceptable(s)
      ensures r == Some(TargetsNotEmpty) <==>
        Acceptable(s) && (!separate || old(artifacts.disk.cache != map[] || checkpoints.disk.cache != map[]))
      ensures r == Some(DumpUnreadable) <==> Acceptable(s) && old(Empty(separate)) && RowsIn(s).None?
    {
      var ok := Inspect(s);
      if !ok { return Some(BadSnapshot); }
      if !separate || artifacts.disk.cache != map[] || checkpoints.disk.cache != map[] { return Some(TargetsNotEmpty); }
      if marker.Some? { return Some(MarkerExists); }
      if database.Some? { return Some(DatabaseNotEmpty); }
      if RowsIn(s).None? { return Some(DumpUnreadable); }
      database := RowsIn(s);
      CopyBack(artifacts, s, ARTIFACTS);
      CopyBack(checkpoints, s, CHECKPOINTS);
      ok := VerifyArtifacts(database.value, artifacts.disk.cache);
      if !ok { return Some(RowMismatch); }
      if IsFile(s, MARKER) { marker := Some(s[MARKER].content); }
      artifacts.Sync();
      checkpoints.Sync();
      return None;
    }
  }

  /** Lists the paths of a tree, in whatever order they come. */
  method Walk(t: Tree) returns (walk: seq<Path>)
    ensures forall p :: p in walk <==> p in t
    ensures forall i, j :: 0 <= i < j < |walk| ==> walk[i] != walk[j]
  {
    walk := [];
    var todo := t.Keys;
    while todo != {}
      invariant todo <= t.Keys
      invariant forall p :: p in walk <==> p in t && p !in todo
      invariant forall i, j :: 0 <= i < j < |walk| ==> walk[i] != walk[j]
      decreases |todo|
    {
      var p :| p in todo;
      assert p !in walk;
      walk, todo := walk + [p], todo - {p};
    }
  }

  method CopyBack(v: Volume, s: Tree, name: string)
    requires Regular(s) && v.disk.cache == map[]
    modifies v
    ensures v.disk.cache == Below(s, name)
  {
    var nodes := Below(s, name);
    BelowRegular(s, name);
    BelowAt(s, name, []);
    var walk := Walk(nodes);
    var ok := v.CopyTree([], Source(false, true, nodes, walk));
    PlacedAtRoot(nodes);
    assert ok;
  }

  lemma BelowRegular(s: Tree, name: string)
    requires Regular(s)
    ensures Regular(Below(s, name))
  {
  }

  lemma PlacedAtRoot(t: Tree)
    ensures Placed(t, []) == t
  {
    forall q ensures (q in Placed(t, []) <==> q in t) && (q in t ==> Placed(t, [])[q] == t[q]) {
      PlacedUnder(t, [], q);
      assert q[0..] == q;
    }
  }

  /******* Round trip *******/

  /** What a restore of this snapshot brings back is the live state. */
  ghost predicate BringsBack(s: Tree, l: Live) {
    && Below(s, ARTIFACTS) == l.artifacts.nodes && Below(s, CHECKPOINTS) == l.checkpoints.nodes
    && RowsIn(s) == Some(l.rows) && MarkerIn(s) == l.marker
  }

  lemma BodyBringsBack(l: Live)
    requires LiveOk(l)
    ensures BringsBack(Body(l), l)
  {
    ReservedNames(l);
    BodyTrees(l);
  }

  lemma ShellAt(body: Tree, s: Tree, p: Path)
    requires s - {COMPLETE} == Manifested(body) && p != COMPLETE && p != MANIFEST
    ensures p in s <==> p in body
    ensures p in body ==> s[p] == body[p]
  {
    assert p in s <==> p in s - {COMPLETE};
  }

  /** The manifest and the completion marker, whatever it holds, bring nothing else back. */
  lemma ShellBringsBack(body: Tree, s: Tree, l: Live)
    requires Bodily(body) && BringsBack(body, l) && s - {COMPLETE} == Manifested(body)
    ensures BringsBack(s, l)
  {
    assert MARKER[0] != COMPLETE[0] && MARKER[0] != MANIFEST[0] && DUMP[0] != COMPLETE[0] && DUMP[0] != MANIFEST[0];
    ShellAt(body, s, MARKER);
    ShellAt(body, s, DUMP);
    BelowShell(body, s, ARTIFACTS);
    BelowShell(body, s, CHECKPOINTS);
  }

  lemma BelowShell(body: Tree, s: Tree, name: string)
    requires s - {COMPLETE} == Manifested(body)
    ensures Below(s, name) == Below(body, name)
  {
    forall p ensures (p in Below(s, name) <==> p in Below(body, name))
      && (p in Below(body, name) ==> Below(s, name)[p] == Below(body, name)[p])
    {
      BelowAt(s, name, p);
      BelowAt(body, name, p);
      if p != [] {
        assert |[name] + p| >= 2 && |MANIFEST| == 1 && |COMPLETE| == 1;
        ShellAt(body, s, [name] + p);
      }
    }
  }

  /** A finished backup is acceptable, brings back the live state, and passes the last test. */
  lemma BackupRoundTrip(l: Live)
    requires LiveOk(l) && Copyable(l) && RowsHold(l.rows, l.artifacts.nodes)
    ensures Acceptable(Finished(l)) && BringsBack(Finished(l), l)
    ensures RowsHold(RowsIn(Finished(l)).value, Below(Finished(l), ARTIFACTS))
  {
    BodyBodily(l);
    BodyWhole(Body(l));
    BodyBringsBack(l);
    ShellBringsBack(Body(l), Finished(l), l);
  }

  /**
   After a crash at any moment of a backup, restore refuses what is left, or what is left brings back the whole
   live state; it is the latter exactly when the marker holds the manifest's full digest.
   */
  lemma CrashRoundTrip(l: Live, d: Disk, left: Tree)
    requires LiveOk(l) && Copyable(l) && RowsHold(l.rows, l.artifacts.nodes)
    requires Staged(d, Manifested(Body(l))) && Survives(d, left)
    ensures Acceptable(left) <==> IsFile(left, COMPLETE) && Trim(left[COMPLETE].content) == Digest(ManifestOf(Body(l)))
    ensures Acceptable(left) ==> BringsBack(left, l) && RowsHold(RowsIn(left).value, Below(left, ARTIFACTS))
  {
    CrashExactly(d, left);
    if COMPLETE in d.cache {
      assert d.cache - {COMPLETE} == Manifested(Body(l)) && d.cache[MANIFEST] == (d.cache - {COMPLETE})[MANIFEST];
    }
    if Acceptable(left) {
      BodyBodily(l);
      BodyBringsBack(l);
      ShellBringsBack(Body(l), left, l);
    }
  }

  lemma FilesBelow(s: Tree, t: Tree, name: string, p: Path)
    requires SameFiles(s, t)
    ensures SameFile(Below(s, name), Below(t, name), p)
  {
    BelowAt(s, name, p);
    BelowAt(t, name, p);
    if p != [] {
      assert |[name] + p| >= 2 && |COMPLETE| == 1;
      assert SameFile(s, t, [name] + p);
    }
  }

  /** The same directories below the state roots. */
  ghost predicate SameDirs(s: Tree, t: Tree, name: string) {
    forall p :: IsDir(Below(s, name), p) <==> IsDir(Below(t, name), p)
  }

  lemma SameNodesBelow(s: Tree, t: Tree, name: string)
    requires Regular(s) && Regular(t) && SameFiles(s, t)
    ensures Below(s, name) == Below(t, name) <==> SameDirs(s, t, name)
  {
    var a, b := Below(s, name), Below(t, name);
    BelowRegular(s, name);
    BelowRegular(t, name);
    if SameDirs(s, t, name) {
      forall p ensures (p in a <==> p in b) && (p in a ==> a[p] == b[p]) {
        FilesBelow(s, t, name, p);
        assert IsDir(a, p) <==> IsDir(b, p);
      }
    }
  }

  lemma RowsHoldSame(rows: seq<ArtifactRow>, a: Tree, b: Tree)
    requires RowsHold(rows, a) && forall p :: SameFile(b, a, p)
    ensures RowsHold(rows, b)
  {
    forall i | 0 <= i < |rows| ensures RowHolds(rows[i], b) {
      assert RowHolds(rows[i], a) && SameFile(b, a, rows[i].key);
    }
  }

  /**
   Whatever was done to a finished backup, as long as its marker is the original: if restore takes it, the database,
   the owner marker and every file come back as they were and the last test passes; and the whole live state comes
   back if and only if the directories are the original ones.
   */
  lemma AlteredRoundTrip(l: Live, s: Tree)
    requires LiveOk(l) && Copyable(l) && RowsHold(l.rows, l.artifacts.nodes)
    requires Acceptable(s) && Trim(s[COMPLETE].content) == Digest(ManifestOf(Body(l)))
    ensures RowsIn(s) == Some(l.rows) && MarkerIn(s) == l.marker && RowsHold(l.rows, Below(s, ARTIFACTS))
    ensures forall p :: SameFile(Below(s, ARTIFACTS), l.artifacts.nodes, p)
    ensures forall p :: SameFile(Below(s, CHECKPOINTS), l.checkpoints.nodes, p)
    ensures BringsBack(s, l) <==> SameDirs(s, Finished(l), ARTIFACTS) && SameDirs(s, Finished(l), CHECKPOINTS)
  {
    BackupRoundTrip(l);
    AlteredFiles(l, s);
    var t := Finished(l);
    SameNodesBelow(s, t, ARTIFACTS);
    SameNodesBelow(s, t, CHECKPOINTS);
    forall p
      ensures SameFile(Below(s, ARTIFACTS), l.artifacts.nodes, p)
        && SameFile(Below(s, CHECKPOINTS), l.checkpoints.nodes, p)
    {
      FilesBelow(s, t, ARTIFACTS, p);
      FilesBelow(s, t, CHECKPOINTS, p);
    }
    RowsHoldSame(l.rows, l.artifacts.nodes, Below(s, ARTIFACTS));
    assert MARKER[0] != COMPLETE[0] && DUMP[0] != COMPLETE[0];
    assert SameFile(s, t, MARKER) && SameFile(s, t, DUMP);
  }

  lemma AlteredFiles(l: Live, s: Tree)
    requires LiveOk(l) && Copyable(l)
    requires Acceptable(s) && Trim(s[COMPLETE].content) == Digest(ManifestOf(Body(l)))
    ensures SameFiles(s, Finished(l)) && Regular(s) && Regular(Finished(l))
  {
    BodyBodily(l);
    BodyWhole(Body(l));
    var t := Manifested(Body(l));
    AlteredExactly(t, s);
    AgreesElsewhere(t, Finished(l));
    forall p | p != COMPLETE ensures SameFile(s, Finished(l), p) { assert SameFile(s, t, p); }
  }

  /** The gap, for every finished backup: a directory added to its artifacts is restored with them. */
  lemma AddedDirectoryRestored(l: Live, p: Path)
    requires LiveOk(l) && Copyable(l) && RowsHold(l.rows, l.artifacts.nodes) && p != [] && p !in l.artifacts.nodes
    ensures var s := Finished(l)[[ARTIFACTS] + p := Dir];
      Acceptable(s) && p in Below(s, ARTIFACTS) && !BringsBack(s, l)
  {
    BackupRoundTrip(l);
    BelowAt(Finished(l), ARTIFACTS, p);
    DirectoryUnseen(Finished(l), [ARTIFACTS] + p);
    BelowAt(Finished(l)[[ARTIFACTS] + p := Dir], ARTIFACTS, p);
  }

  /** The last test, failing after the targets are written: an acceptable snapshot whose one row names no file. */
  lemma LateTestExample()
    ensures var row := ArtifactRow(["a"], [], 0);
      var s := Completed(map[DUMP := File([Dump([row])])]);
      Acceptable(s) && RowsIn(s) == Some([row]) && !RowsHold([row], Below(s, ARTIFACTS))
  {
    var row := ArtifactRow(["a"], [], 0);
    var body: Tree := map[DUMP := File([Dump([row])])];
    assert MANIFEST[0] != DUMP[0] && COMPLETE[0] != DUMP[0];
    BodyWhole(body);
    BelowCompleted(body, ARTIFACTS);
    BelowAt(body, ARTIFACTS, ["a"]);
    assert |[ARTIFACTS] + ["a"]| == 2 && |DUMP| == 1;
    assert ["a"] !in Below(body, ARTIFACTS);
    assert [row][0] == row;
  }

  /** Backing up sound live state and restoring it into empty targets gives it back. */
  method RoundTrip(v: Volume, l: Live, t: Target)
    requires LiveOk(l) && Copyable(l) && RowsHold(l.rows, l.artifacts.nodes)
    requires v.disk == Disk(map[], map[]) && v.ops == [] && v != t.artifacts && v != t.checkpoints
    requires t.artifacts != t.checkpoints && t.Empty(true)
    modifies v, t, t.artifacts, t.checkpoints
    ensures t.artifacts.disk.durable == l.artifacts.nodes && t.checkpoints.disk.durable == l.checkpoints.nodes
    ensures t.database == Some(l.rows) && t.marker == l.marker
  {
    var b := BackUp(v, l, true, false, true);
    BackupRoundTrip(l);
    var r := t.RestoreFrom(v.disk.durable, true);
    assert r.None?;
  }

  /**
   The whole story. Any live state, sound or not, is backed up; the machine stops after any number of steps and loses
   any of what was not yet durable; and restore is run on what is left. It succeeds if and only if what is left holds
   the full digest of the manifest as its marker. Then the live state is back; otherwise the targets are untouched.
   */
  method CrashThenRestore(v: Volume, l: Live, i: nat, left: Tree, t: Target) returns (r: Option<Refusal>)
    requires LiveOk(l) && v.disk == Disk(map[], map[]) && v.ops == [] && v != t.artifacts && v != t.checkpoints
    requires t.artifacts != t.checkpoints && t.Empty(true)
    modifies v, t, t.artifacts, t.checkpoints
    ensures i <= |v.ops| && Survives(Moment(v.ops, i), left) ==>
      && (r.None? <==> IsFile(left, COMPLETE) && Trim(left[COMPLETE].content) == Digest(ManifestOf(Body(l))))
      && (r.None? ==>
            && t.artifacts.disk.durable == l.artifacts.nodes && t.checkpoints.disk.durable == l.checkpoints.nodes
            && t.database == Some(l.rows) && t.marker == l.marker)
      && (r.Some? ==>
            && t.artifacts.disk == old(t.artifacts.disk) && t.checkpoints.disk == old(t.checkpoints.disk)
            && t.database.None? && t.marker.None?)
  {
    var b := BackUp(v, l, true, false, true);
    ghost var here := i <= |v.ops| && Survives(Moment(v.ops, i), left);
    if here { CrashOutcome(l, v.ops, i, left, b.Ok?); }
    r := t.RestoreFrom(left, true);
  }

  lemma CrashOutcome(l: Live, ops: seq<Op>, i: nat, left: Tree, ok: bool)
    requires LiveOk(l) && i <= |ops| && Survives(Moment(ops, i), left) && AllStaged(ops, Manifested(Body(l)))
    requires if ok then Copyable(l) && RowsHold(l.rows, l.artifacts.nodes) else Unmarked(ops)
    ensures Acceptable(left) <==> IsFile(left, COMPLETE) && Trim(left[COMPLETE].content) == Digest(ManifestOf(Body(l)))
    ensures Acceptable(left) ==> BringsBack(left, l) && RowsHold(RowsIn(left).value, Below(left, ARTIFACTS))
  {
    assert Staged(Moment(ops, i), Manifested(Body(l)));
    if ok {
      CrashRoundTrip(l, Moment(ops, i), left);
    } else {
      UnmarkedReplay(ops[..i]);
      assert COMPLETE !in left;
    }
  }
}
