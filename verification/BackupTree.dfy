/** Directory trees, file contents and digests for backup and restore, and when a snapshot directory is acceptable. */
module BackupTree {
  import opened Common

  type Path = seq<string>
  type Content = seq<Atom>

  /**
   A unit of file content. Digests are sixty-four units that remember what was digested, which makes SHA-256
   collision-free; a manifest and a database dump are one unit each.
   */
  datatype Atom =
    | Byte(value: nat)
    | Hex(of: Content, index: int)
    | Manifest(version: int, files: map<Path, Content>)
    | Dump(rows: seq<ArtifactRow>)

  datatype ArtifactRow = ArtifactRow(key: Path, sha256: Content, size: nat)

  datatype Node = Dir | File(content: Content) | Link | Special

  type Tree = map<Path, Node>

  const DIGEST_LENGTH: nat := 64
  const DUMP: Path := ["database.dump"]
  const ARTIFACTS: string := "artifacts"
  const CHECKPOINTS: string := "project-checkpoints"
  const MARKER: Path := ["owner-enrolled"]
  const MANIFEST: Path := ["manifest.json"]
  const COMPLETE: Path := ["COMPLETE"]

  function Digest(c: Content): (d: Content)
    ensures |d| == DIGEST_LENGTH
    ensures forall i :: 0 <= i < DIGEST_LENGTH ==> d[i] == Hex(c, i)
  {
    seq(DIGEST_LENGTH, i => Hex(c, i))
  }

  lemma DigestInjective(a: Content, b: Content)
    requires Digest(a) == Digest(b)
    ensures a == b
  {
    assert Digest(a)[0] == Digest(b)[0];
  }

  predicate IsBlank(a: Atom) {
    a.Byte? && (9 <= a.value <= 13 || a.value == 32)
  }

  /** Content without the white space around it. */
  function Trim(c: Content): Content {
    if c != [] && IsBlank(c[0]) then Trim(c[1..])
    else if c != [] && IsBlank(c[|c| - 1]) then Trim(c[..|c| - 1])
    else c
  }

  lemma {:induction false} TrimShortens(c: Content)
    ensures |Trim(c)| <= |c|
  {
    if c != [] && IsBlank(c[0]) { TrimShortens(c[1..]); }
    else if c != [] && IsBlank(c[|c| - 1]) { TrimShortens(c[..|c| - 1]); }
  }

  lemma TrimDigest(c: Content)
    ensures Trim(Digest(c)) == Digest(c)
  {
  }

  /******* Trees *******/

  predicate IsFile(t: Tree, p: Path) {
    p in t && t[p].File?
  }

  predicate Regular(t: Tree) {
    forall p :: p in t ==> t[p].Dir? || t[p].File?
  }

  predicate Under(prefix: Path, q: Path) {
    |prefix| <= |q| && q[..|prefix|] == prefix
  }

  /** A tree moved below a prefix. */
  function Placed(t: Tree, prefix: Path): Tree {
    map q | q in (set p | p in t :: prefix + p) && q[|prefix|..] in t :: t[q[|prefix|..]]
  }

  /** The tree below a top-level directory. */
  function Below(t: Tree, name: string): Tree {
    map p | p in (set q | q in t && |q| > 1 && q[0] == name :: q[1..]) && [name] + p in t :: t[[name] + p]
  }

  /** The digests of a tree's files. */
  function Catalog(t: Tree): map<Path, Content> {
    map p | p in t && t[p].File? :: Digest(t[p].content)
  }

  /** No path of a live tree is the root itself. */
  ghost predicate Rooted(t: Tree) {
    [] !in t
  }

  lemma PlacedAt(t: Tree, prefix: Path, p: Path)
    ensures prefix + p in Placed(t, prefix) <==> p in t
    ensures p in t ==> Placed(t, prefix)[prefix + p] == t[p]
  {
    assert (prefix + p)[|prefix|..] == p;
  }

  lemma PlacedUnder(t: Tree, prefix: Path, q: Path)
    ensures q in Placed(t, prefix) <==> Under(prefix, q) && q[|prefix|..] in t
    ensures q in Placed(t, prefix) ==> Placed(t, prefix)[q] == t[q[|prefix|..]]
  {
    if Under(prefix, q) {
      assert q == prefix + q[|prefix|..];
      PlacedAt(t, prefix, q[|prefix|..]);
    }
    if q in Placed(t, prefix) {
      var p :| p in t && q == prefix + p;
      assert q[..|prefix|] == prefix;
    }
  }

  lemma BelowAt(t: Tree, name: string, p: Path)
    ensures p in Below(t, name) <==> p != [] && [name] + p in t
    ensures p in Below(t, name) ==> Below(t, name)[p] == t[[name] + p]
  {
    var q := [name] + p;
    assert q[1..] == p && q[0] == name;
    if p in Below(t, name) {
      var o :| o in t && |o| > 1 && o[0] == name && p == o[1..];
      assert o == q;
    }
  }

  /******* Acceptable snapshots *******/

  /** The completion marker holds the digest of the manifest. */
  predicate Marked(s: Tree) {
    IsFile(s, COMPLETE) && IsFile(s, MANIFEST) && Trim(s[COMPLETE].content) == Digest(s[MANIFEST].content)
  }

  function Listed(s: Tree): Option<map<Path, Content>> {
    if !IsFile(s, MANIFEST) then None
    else
      var c := s[MANIFEST].content;
      if |c| == 1 && c[0].Manifest? && c[0].version == 1 && DUMP in c[0].files then Some(c[0].files) else None
  }

  predicate FilesMatch(s: Tree, files: map<Path, Content>) {
    forall p :: p in files ==> IsFile(s, p) && Digest(s[p].content) == files[p]
  }

  predicate NothingUnlisted(s: Tree, files: map<Path, Content>) {
    (set p | p in s && s[p].File?) - {COMPLETE, MANIFEST} == files.Keys
  }

  /** Everything restore asks of the snapshot before it looks at its targets. */
  predicate Acceptable(s: Tree) {
    && Regular(s)
    && Marked(s)
    && Listed(s).Some?
    && FilesMatch(s, Listed(s).value)
    && NothingUnlisted(s, Listed(s).value)
  }

  /** A body of regular files, with the manifest that catalogues it. */
  ghost predicate Whole(t: Tree) {
    && Regular(t)
    && COMPLETE !in t && IsFile(t, MANIFEST)
    && IsFile(t, DUMP)
    && t[MANIFEST].content == [Manifest(1, Catalog(t - {MANIFEST}))]
  }

  /** Whatever its marker holds, a whole snapshot is acceptable exactly when the marker is the manifest's digest. */
  lemma AcceptableExactly(t: Tree, s: Tree)
    requires Whole(t) && s - {COMPLETE} == t && (COMPLETE in s ==> s[COMPLETE].File?)
    ensures Acceptable(s) <==> COMPLETE in s && Trim(s[COMPLETE].content) == Digest(t[MANIFEST].content)
  {
    AgreesElsewhere(t, s);
    var files := Catalog(t - {MANIFEST});
    assert Listed(s) == Some(files) by {
      assert s[MANIFEST] == t[MANIFEST] && DUMP in t - {MANIFEST};
    }
    forall p | p in files ensures IsFile(s, p) && Digest(s[p].content) == files[p] { assert s[p] == t[p]; }
    assert NothingUnlisted(s, files);
    if COMPLETE in s {
      forall p | p in s ensures s[p].Dir? || s[p].File? {
        if p != COMPLETE { assert p in t; }
      }
    }
  }

  lemma AgreesElsewhere(t: Tree, s: Tree)
    requires s - {COMPLETE} == t
    ensures forall p :: p != COMPLETE ==> (p in s <==> p in t)
    ensures forall p :: p != COMPLETE && p in s ==> s[p] == t[p]
  {
    forall p | p != COMPLETE ensures p in s <==> p in t && (p in s ==> s[p] == t[p]) {
      assert p in s <==> p in s - {COMPLETE};
    }
  }

  /******* A snapshot altered after it was finished *******/

  predicate IsDir(t: Tree, p: Path) {
    p in t && t[p].Dir?
  }

  ghost predicate SameFile(s: Tree, t: Tree, p: Path) {
    (IsFile(s, p) <==> IsFile(t, p)) && (IsFile(s, p) ==> s[p] == t[p])
  }

  /** The same regular files with the same content, the completion marker aside. */
  ghost predicate SameFiles(s: Tree, t: Tree) {
    forall p :: p != COMPLETE ==> SameFile(s, t, p)
  }

  lemma ManifestKept(t: Tree, s: Tree)
    requires Whole(t) && Marked(s) && Trim(s[COMPLETE].content) == Digest(t[MANIFEST].content)
    ensures s[MANIFEST] == t[MANIFEST] && Listed(s) == Some(Catalog(t - {MANIFEST}))
  {
    DigestInjective(s[MANIFEST].content, t[MANIFEST].content);
    assert DUMP in t - {MANIFEST};
  }

  lemma AcceptableKeepsFiles(t: Tree, s: Tree, p: Path)
    requires Whole(t) && Acceptable(s) && Trim(s[COMPLETE].content) == Digest(t[MANIFEST].content)
    requires p != COMPLETE
    ensures SameFile(s, t, p)
  {
    ManifestKept(t, s);
    var files := Catalog(t - {MANIFEST});
    if p != MANIFEST {
      assert p in files <==> IsFile(t, p);
      assert IsFile(s, p) <==> p in (set q | q in s && s[q].File?) - {COMPLETE, MANIFEST};
      if p in files { DigestInjective(s[p].content, t[p].content); }
    }
  }

  lemma KeptFilesAcceptable(t: Tree, s: Tree)
    requires Whole(t) && Regular(s) && SameFiles(s, t)
    requires IsFile(s, COMPLETE) && Trim(s[COMPLETE].content) == Digest(t[MANIFEST].content)
    ensures Acceptable(s)
  {
    assert MANIFEST[0] != COMPLETE[0];
    assert SameFile(s, t, MANIFEST);
    ManifestKept(t, s);
    var files := Catalog(t - {MANIFEST});
    forall p | p in files ensures IsFile(s, p) && Digest(s[p].content) == files[p] { assert SameFile(s, t, p); }
    forall p ensures p in (set q | q in s && s[q].File?) - {COMPLETE, MANIFEST} <==> p in files.Keys {
      if p != COMPLETE { assert SameFile(s, t, p); }
    }
  }

  /**
   Under the original marker an altered snapshot is acceptable if and only if it has no links or special files
   and its regular files are exactly the original ones. Directories are not constrained.
   */
  lemma AlteredExactly(t: Tree, s: Tree)
    requires Whole(t) && IsFile(s, COMPLETE) && Trim(s[COMPLETE].content) == Digest(t[MANIFEST].content)
    ensures Acceptable(s) <==> Regular(s) && SameFiles(s, t)
  {
    if Acceptable(s) {
      forall p | p != COMPLETE ensures SameFile(s, t, p) { AcceptableKeepsFiles(t, s, p); }
    }
    if Regular(s) && SameFiles(s, t) { KeptFilesAcceptable(t, s); }
  }

  /** An added empty directory goes unseen. */
  lemma DirectoryUnseen(s: Tree, e: Path)
    requires Acceptable(s) && e !in s
    ensures Acceptable(s[e := Dir])
  {
    var n := s[e := Dir];
    assert Listed(n) == Listed(s);
    assert (set p | p in n && n[p].File?) == (set p | p in s && s[p].File?);
  }
}
