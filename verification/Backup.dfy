/**
 Backup into a new directory, step by step and with a crash possible after every step, and restore into empty targets.
 */
module Backup {
  import opened BackupTree

  /** What is safely on disk, and what the running system sees. */
  datatype Disk = Disk(durable: Tree, cache: Tree)

  /**
   What a crash may leave: paths that were synced as they are stay; anything newer may be missing, and a file
   among it may hold anything at all.
   */
  ghost predicate Survives(d: Disk, left: Tree) {
    && (forall p :: p in left ==> p in d.cache)
    && (forall p :: p in left ==> (d.cache[p].File? <==> left[p].File?))
    && (forall p :: p in left && !d.cache[p].File? ==> left[p] == d.cache[p])
    && (forall p :: p in d.durable && p in d.cache && d.durable[p] == d.cache[p] ==> p in left && left[p] == d.cache[p])
  }

  /** Either no completion marker exists yet, or the marker is all that is not yet durable. */
  ghost predicate Guarded(d: Disk) {
    COMPLETE !in d.cache
    || (d.cache[COMPLETE].File? && d.durable - {COMPLETE} == d.cache - {COMPLETE} && Whole(d.cache - {COMPLETE}))
  }

  lemma SurvivorAgrees(d: Disk, left: Tree)
    requires Guarded(d) && Survives(d, left) && COMPLETE in d.cache
    ensures left - {COMPLETE} == d.cache - {COMPLETE}
  {
    AgreesElsewhere(d.cache - {COMPLETE}, d.cache);
    AgreesElsewhere(d.durable - {COMPLETE}, d.durable);
    forall p | p != COMPLETE ensures (p in left <==> p in d.cache) && (p in left ==> left[p] == d.cache[p]) {
      assert p in d.cache ==> p in d.durable && d.durable[p] == d.cache[p];
    }
  }

  /**
   After a crash at a guarded moment, restore takes what is left if and only if the marker survived with the full
   digest of the manifest, and then everything but the marker is exactly what was backed up.
   */
  lemma CrashExactly(d: Disk, left: Tree)
    requires Guarded(d) && Survives(d, left)
    ensures Acceptable(left) <==>
      COMPLETE in left && Trim(left[COMPLETE].content) == Digest(d.cache[MANIFEST].content)
    ensures Acceptable(left) ==> COMPLETE in d.cache && left - {COMPLETE} == d.cache - {COMPLETE}
  {
    if COMPLETE in d.cache {
      SurvivorAgrees(d, left);
      AcceptableExactly(d.cache - {COMPLETE}, left);
    }
  }

  /** A marker cut short is refused. */
  lemma TornMarkerRefused(d: Disk, left: Tree)
    requires Guarded(d) && Survives(d, left)
    requires IsFile(left, COMPLETE) ==> |left[COMPLETE].content| < DIGEST_LENGTH
    ensures !Acceptable(left)
  {
    CrashExactly(d, left);
    if IsFile(left, COMPLETE) { TrimShortens(left[COMPLETE].content); }
  }

  /******* Artifact rows *******/

  predicate RowHolds(row: ArtifactRow, t: Tree) {
    IsFile(t, row.key) && |t[row.key].content| == row.size && Digest(t[row.key].content) == row.sha256
  }

  predicate RowsHold(rows: seq<ArtifactRow>, t: Tree) {
    forall i :: 0 <= i < |rows| ==> RowHolds(rows[i], t)
  }

  method VerifyArtifacts(rows: seq<ArtifactRow>, t: Tree) returns (ok: bool)
    ensures ok <==> RowsHold(rows, t)
  {
    for i := 0 to |rows|
      invariant forall j :: 0 <= j < i ==> RowHolds(rows[j], t)
    {
      if !IsFile(t, rows[i].key) { return false; }
      var content := t[rows[i].key].content;
      if |content| != rows[i].size || Digest(content) != rows[i].sha256 { return false; }
    }
    return true;
  }

  /******* A directory being written *******/

  /** A state root: a link, absent, or a tree with the order in which it is walked. */
  datatype Source = Source(link: bool, present: bool, nodes: Tree, walk: seq<Path>)

  /** The walk visits every path below the root, once. */
  ghost predicate SourceOk(s: Source) {
    && Rooted(s.nodes)
    && (forall p :: p in s.walk <==> p in s.nodes)
    && (forall i, j :: 0 <= i < j < |s.walk| ==> s.walk[i] != s.walk[j])
    && (!s.present ==> s.nodes == map[])
  }

  /** One step of writing: a path gets a node, or everything so far is made durable. */
  datatype Op = Wrote(path: Path, node: Node) | Synced

  function Do(d: Disk, op: Op): Disk {
    match op
    case Wrote(p, n) => d.(cache := d.cache[p := n])
    case Synced => Disk(d.cache, d.cache)
  }

  /** The disk after steps taken in order. */
  function Replay(d: Disk, ops: seq<Op>): Disk {
    if ops == [] then d else Do(Replay(d, ops[..|ops| - 1]), ops[|ops| - 1])
  }

  lemma {:induction false} ReplayConcat(d: Disk, a: seq<Op>, b: seq<Op>)
    ensures Replay(d, a + b) == Replay(Replay(d, a), b)
    decreases |b|
  {
    if b == [] {
      assert a + b == a;
    } else {
      assert (a + b)[..|a + b| - 1] == a + b[..|b| - 1];
      ReplayConcat(d, a, b[..|b| - 1]);
    }
  }

  /** From one disk to another by the steps the record has gained, all of them writes to paths of a set. */
  ghost predicate Worked(d: Disk, a: seq<Op>, e: Disk, b: seq<Op>, paths: set<Path>) {
    && |a| <= |b| && b[..|a|] == a && e == Replay(d, b[|a|..])
    && forall i :: |a| <= i < |b| ==> b[i].Wrote? && b[i].path in paths
  }

  lemma WorkedNone(d: Disk, a: seq<Op>, paths: set<Path>)
    ensures Worked(d, a, d, a, paths)
  {
  }

  lemma WorkedThen(d: Disk, a: seq<Op>, e: Disk, b: seq<Op>, f: Disk, c: seq<Op>, fewer: set<Path>, paths: set<Path>)
    requires Worked(d, a, e, b, paths) && Worked(e, b, f, c, fewer) && fewer <= paths
    ensures Worked(d, a, f, c, paths)
  {
    assert c[..|a|] == c[..|b|][..|a|];
    assert c[|a|..] == c[..|b|][|a|..] + c[|b|..];
    ReplayConcat(d, b[|a|..], c[|b|..]);
    forall i | |a| <= i < |c| ensures c[i].Wrote? && c[i].path in paths {
      if i < |b| { assert c[i] == c[..|b|][i]; }
    }
  }

  class Volume {
    var disk: Disk
    /** Every step taken so far. */
    ghost var ops: seq<Op>

    constructor ()
      ensures disk == Disk(map[], map[]) && ops == []
    {
      disk, ops := Disk(map[], map[]), [];
    }

    method Put(p: Path, n: Node)
      modifies this
      ensures disk == Disk(old(disk).durable, old(disk).cache[p := n])
      ensures ops == old(ops) + [Wrote(p, n)] && Worked(old(disk), old(ops), disk, ops, {p})
    {
      disk := disk.(cache := disk.cache[p := n]);
      ops := ops + [Wrote(p, n)];
      assert ops[|old(ops)|..] == [Wrote(p, n)] && [Wrote(p, n)][..0] == [];
    }

    /** Creates a file and then fills it: two moments at which a crash may fall. */
    method WriteFile(p: Path, c: Content)
      modifies this
      ensures disk == Disk(old(disk).durable, old(disk).cache[p := File(c)])
      ensures ops == old(ops) + [Wrote(p, File([])), Wrote(p, File(c))] && Worked(old(disk), old(ops), disk, ops, {p})
    {
      Put(p, File([]));
      assert disk.cache[p := File(c)] == old(disk).cache[p := File(c)];
      ghost var d, a := disk, ops;
      Put(p, File(c));
      WorkedThen(old(disk), old(ops), d, a, disk, ops, {p}, {p});
    }

    method Sync()
      modifies this
      ensures disk == Disk(old(disk).cache, old(disk).cache)
      ensures ops == old(ops) + [Synced]
    {
      disk := Disk(disk.cache, disk.cache);
      ops := ops + [Synced];
    }

    /** Makes a directory, or writes a file where there is none. */
    method CopyNode(to: Path, n: Node) returns (ok: bool)
      modifies this
      ensures ok <==>
        || (n.Dir? && (to in old(disk).cache ==> old(disk).cache[to] == Dir))
        || (n.File? && to !in old(disk).cache)
      ensures disk == if ok then Disk(old(disk).durable, old(disk).cache[to := n]) else old(disk)
      ensures Worked(old(disk), old(ops), disk, ops, {to})
    {
      match n {
        case Dir =>
          if to in disk.cache && disk.cache[to] != Dir { return false; }
          Put(to, Dir);
        case File(content) =>
          if to in disk.cache { return false; }
          WriteFile(to, content);
        case _ => return false;
      }
      return true;
    }

    method CopyWalk(prefix: Path, s: Source) returns (ok: bool)
      requires SourceOk(s)
      modifies this
      ensures disk.durable == old(disk).durable
      ensures ok ==> Regular(s.nodes) && disk.cache == old(disk).cache + Placed(s.nodes, prefix)
      ensures Regular(s.nodes) && Apart(old(disk).cache, s.nodes, prefix) ==> ok
      ensures Worked(old(disk), old(ops), disk, ops, Placed(s.nodes, prefix).Keys)
    {
      ghost var base := disk.cache;
      ghost var paths := Placed(s.nodes, prefix).Keys;
      WorkedNone(disk, ops, paths);
      for i := 0 to |s.walk|
        invariant disk.durable == old(disk).durable
        invariant Underway(base, disk.cache, s, prefix, i)
        invariant Worked(old(disk), old(ops), disk, ops, paths)
      {
        var p := s.walk[i];
        UnderwayNext(base, disk.cache, s, prefix, i);
        ghost var d, a := disk, ops;
        var copied := CopyNode(prefix + p, s.nodes[p]);
        WorkedThen(old(disk), old(ops), d, a, disk, ops, {prefix + p}, paths);
        if !copied { return false; }
      }
      UnderwayDone(base, disk.cache, s, prefix);
      return true;
    }

    /** Copies a state root below a prefix, refusing links, special files and anything already there. */
    method CopyTree(prefix: Path, s: Source) returns (ok: bool)
      requires SourceOk(s)
      modifies this
      ensures disk.durable == old(disk).durable
      ensures ok ==>
        !s.link && Regular(s.nodes) && disk.cache == Base(old(disk).cache, prefix) + Placed(s.nodes, prefix)
      ensures !s.link && Regular(s.nodes) && Apart(Base(old(disk).cache, prefix), s.nodes, prefix) ==> ok
      ensures Worked(old(disk), old(ops), disk, ops, {prefix} + Placed(s.nodes, prefix).Keys)
    {
      ghost var paths := {prefix} + Placed(s.nodes, prefix).Keys;
      if prefix != [] { Put(prefix, Dir); }
      if s.link { return false; }
      ghost var d, a := disk, ops;
      ok := CopyWalk(prefix, s);
      WorkedThen(old(disk), old(ops), d, a, disk, ops, Placed(s.nodes, prefix).Keys, paths);
    }
  }

  /** A tree with the directory copied into made. */
  function Base(t: Tree, prefix: Path): Tree {
    if prefix == [] then t else t[prefix := Dir]
  }

  ghost predicate Apart(base: Tree, nodes: Tree, prefix: Path) {
    forall p :: p in nodes ==> prefix + p !in base
  }

  /** The first paths of the walk are copied, nothing else was changed, and the rest are still to come. */
  ghost predicate Underway(base: Tree, t: Tree, s: Source, prefix: Path, done: nat)
    requires done <= |s.walk|
  {
    && (forall q :: q in base ==> q in t && t[q] == base[q])
    && (forall q :: q in t && q !in base ==> q in Placed(s.nodes, prefix))
    && (forall j :: 0 <= j < done ==> Arrived(t, s, prefix, j))
    && (forall j :: done <= j < |s.walk| && prefix + s.walk[j] in t ==> prefix + s.walk[j] in base)
  }

  ghost predicate Arrived(t: Tree, s: Source, prefix: Path, j: nat)
    requires j < |s.walk|
  {
    && s.walk[j] in s.nodes
    && (s.nodes[s.walk[j]].Dir? || s.nodes[s.walk[j]].File?)
    && prefix + s.walk[j] in t && t[prefix + s.walk[j]] == s.nodes[s.walk[j]]
  }

  lemma AppendInjective(prefix: Path, a: Path, b: Path)
    requires prefix + a == prefix + b
    ensures a == b
  {
    assert a == (prefix + a)[|prefix|..] && b == (prefix + b)[|prefix|..];
  }

  /** Copying the next path, where nothing different is in its place. */
  lemma UnderwayNext(base: Tree, t: Tree, s: Source, prefix: Path, i: nat)
    requires SourceOk(s) && i < |s.walk| && Underway(base, t, s, prefix, i)
    ensures s.walk[i] in s.nodes && prefix + s.walk[i] in Placed(s.nodes, prefix)
    ensures var p := s.walk[i];
      p in s.nodes && ((s.nodes[p].Dir? || s.nodes[p].File?) && (prefix + p in t ==> t[prefix + p] == s.nodes[p]) ==>
        Underway(base, t[prefix + p := s.nodes[p]], s, prefix, i + 1))
  {
    var p := s.walk[i];
    assert p in s.walk;
    var n := t[prefix + p := s.nodes[p]];
    PlacedAt(s.nodes, prefix, p);
    if (s.nodes[p].Dir? || s.nodes[p].File?) && (prefix + p in t ==> t[prefix + p] == s.nodes[p]) {
      forall j | 0 <= j < i + 1 ensures Arrived(n, s, prefix, j) {
        if j < i { assert Arrived(t, s, prefix, j); }
      }
      forall j | i + 1 <= j < |s.walk| && prefix + s.walk[j] in n ensures prefix + s.walk[j] in base {
        if prefix + s.walk[j] == prefix + p { AppendInjective(prefix, s.walk[j], p); }
      }
    }
  }

  lemma UnderwayDone(base: Tree, t: Tree, s: Source, prefix: Path)
    requires SourceOk(s) && Underway(base, t, s, prefix, |s.walk|)
    ensures Regular(s.nodes) && t == base + Placed(s.nodes, prefix)
  {
    forall p | p in s.nodes
      ensures (s.nodes[p].Dir? || s.nodes[p].File?) && prefix + p in t && t[prefix + p] == s.nodes[p]
    {
      assert p in s.walk;
      var j :| 0 <= j < |s.walk| && s.walk[j] == p;
      assert Arrived(t, s, prefix, j);
    }
    var goal := Placed(s.nodes, prefix);
    forall q | q in goal ensures q in t && t[q] == goal[q] {
      PlacedUnder(s.nodes, prefix, q);
      assert q == prefix + q[|prefix|..];
    }
  }
}
