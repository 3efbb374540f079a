/** Processes and process groups as the kernel shows them to the coding server. */
module Processes {
  import opened Common

  /** A group is named by its founder: the founder's process id and time of birth. */
  datatype Group = Group(id: nat, birth: nat)

  datatype Process = Process(zombie: bool, birth: nat, group: Group, sessionLeader: bool)

  datatype Kernel = Kernel(table: map<nat, Process>, clock: nat)

  predicate Live(k: Kernel, p: nat) {
    p in k.table && !k.table[p].zombie
  }

  /** The largest process id. */
  const PID_MAX: nat := 4194304

  /** A process id the kernel may hand out: neither a process nor a group uses it. */
  predicate Unused(k: Kernel, p: nat) {
    0 < p <= PID_MAX && p !in k.table && forall q :: q in k.table ==> k.table[q].group.id != p
  }

  datatype Step =
    | Fork(parent: nat, child: nat)
    | NewSession(leader: nat)
    | Regroup(p: nat, target: nat)
    | Exit(p: nat)
    | Reap(p: nat)
    | Spawn(child: nat)

  function Born(k: Kernel, p: nat, group: Group, leader: bool): Kernel {
    Kernel(k.table[p := Process(false, k.clock, group, leader)], k.clock + 1)
  }

  function Moved(k: Kernel, p: nat, group: Group, leader: bool): Kernel
    requires p in k.table
  {
    k.(table := k.table[p := k.table[p].(group := group, sessionLeader := leader)])
  }

  /**
   One event in the process table; an event the kernel would refuse changes nothing. A session leader
   keeps its group, and a process moves only into a group of its own or one with a live member.
   */
  function Next(k: Kernel, step: Step): Kernel {
    match step
    case Fork(parent, child) =>
      if Live(k, parent) && Unused(k, child) then Born(k, child, k.table[parent].group, false) else k
    case NewSession(p) =>
      if Live(k, p) && k.table[p].group.id != p then Moved(k, p, Group(p, k.table[p].birth), true) else k
    case Regroup(p, target) =>
      if Live(k, p) && Live(k, target) && !k.table[p].sessionLeader
      then Moved(k, p, if p == target then Group(p, k.table[p].birth) else k.table[target].group, false)
      else k
    case Exit(p) => if Live(k, p) then k.(table := k.table[p := k.table[p].(zombie := true)]) else k
    case Reap(p) => if p in k.table && k.table[p].zombie then k.(table := k.table - {p}) else k
    case Spawn(child) => if Unused(k, child) then Born(k, child, Group(child, k.clock), true) else k
  }

  function After(k: Kernel, steps: seq<Step>): Kernel
    decreases |steps|
  {
    if steps == [] then k else After(Next(k, steps[0]), steps[1..])
  }

  /** The members of a group that a kill signal reaches are gone, except those stuck in the kernel. */
  function Killed(k: Kernel, group: nat, stuck: set<nat>): Kernel {
    k.(table := map p | p in k.table ::
      if k.table[p].group.id == group && p !in stuck then k.table[p].(zombie := true) else k.table[p])
  }

  /******* What the kernel keeps *******/

  /** While a process id is in use, a group with that number is the group that process founded. */
  ghost predicate Coherent(k: Kernel) {
    && (forall p :: p in k.table ==> 0 < p <= PID_MAX && k.table[p].birth < k.clock)
    && (forall p, q :: p in k.table && q in k.table && k.table[q].group.id == p ==>
          k.table[q].group.birth == k.table[p].birth)
  }

  ghost predicate GroupLive(k: Kernel, g: Group) {
    exists p :: Live(k, p) && k.table[p].group == g
  }

  /** A group founded in the past by a session leader. */
  ghost predicate Founded(k: Kernel, g: Group) {
    && g.birth < k.clock && g.id > 0
    && (g.id in k.table && k.table[g.id].birth == g.birth ==> k.table[g.id].sessionLeader && k.table[g.id].group == g)
  }

  /** Time passes: founded groups stay founded, and a dead one stays dead. */
  ghost predicate Later(k: Kernel, n: Kernel) {
    && Coherent(n)
    && k.clock <= n.clock
    && (forall g :: Founded(k, g) ==> Founded(n, g))
    && (forall g :: Founded(k, g) && !GroupLive(k, g) ==> !GroupLive(n, g))
  }

  lemma NextCoherent(k: Kernel, step: Step)
    requires Coherent(k)
    ensures Coherent(Next(k, step)) && k.clock <= Next(k, step).clock
  {
  }

  lemma NextFounded(k: Kernel, step: Step, g: Group)
    requires Coherent(k) && Founded(k, g)
    ensures Founded(Next(k, step), g)
  {
  }

  /** No event revives a founded group that has no live member. */
  lemma NextKeepsDead(k: Kernel, step: Step, g: Group)
    requires Coherent(k) && Founded(k, g) && GroupLive(Next(k, step), g)
    ensures GroupLive(k, g)
  {
    var n := Next(k, step);
    var p :| Live(n, p) && n.table[p].group == g;
    if Live(k, p) && k.table[p].group == g {
    } else {
      match step
      case Fork(parent, _) => assert Live(k, parent) && k.table[parent].group == g;
      case Regroup(_, target) => assert Live(k, target) && k.table[target].group == g;
      case _ =>
    }
  }

  lemma NextLater(k: Kernel, step: Step)
    requires Coherent(k)
    ensures Later(k, Next(k, step))
  {
    NextCoherent(k, step);
    forall g | Founded(k, g) ensures Founded(Next(k, step), g) && (GroupLive(Next(k, step), g) ==> GroupLive(k, g)) {
      NextFounded(k, step, g);
      if GroupLive(Next(k, step), g) { NextKeepsDead(k, step, g); }
    }
  }

  lemma LaterTransitive(a: Kernel, b: Kernel, c: Kernel)
    requires Later(a, b) && Later(b, c)
    ensures Later(a, c)
  {
  }

  lemma {:induction false} AfterLater(k: Kernel, steps: seq<Step>)
    requires Coherent(k)
    ensures Later(k, After(k, steps))
    decreases |steps|
  {
    if steps != [] {
      NextLater(k, steps[0]);
      AfterLater(Next(k, steps[0]), steps[1..]);
      LaterTransitive(k, Next(k, steps[0]), After(k, steps));
    }
  }

  lemma KilledLater(k: Kernel, group: nat, stuck: set<nat>)
    requires Coherent(k)
    ensures Later(k, Killed(k, group, stuck))
  {
    var n := Killed(k, group, stuck);
    forall g | GroupLive(n, g) ensures GroupLive(k, g) {
      var p :| Live(n, p) && n.table[p].group == g;
      assert Live(k, p) && k.table[p].group == g;
    }
  }

  /** A kill signal leaves the group dead unless one of its members is stuck. */
  lemma KilledDead(k: Kernel, g: Group)
    ensures !GroupLive(Killed(k, g.id, {}), g)
  {
  }

  /** A spawned process founds a live group of its own that never existed before. */
  lemma SpawnFounds(k: Kernel, p: nat)
    requires Coherent(k) && Unused(k, p)
    ensures var g := Group(p, k.clock);
      var n := Next(k, Spawn(p));
      Coherent(n) && Founded(n, g) && GroupLive(n, g) && !Founded(k, g)
  {
    NextCoherent(k, Spawn(p));
    assert Live(Next(k, Spawn(p)), p);
  }

  /******* The liveness test *******/

  /** Number and, if it could be read, birth of a launched leader; its group has the same number. */
  datatype Handle = Handle(pid: nat, start: Option<nat>)

  predicate Names(h: Handle, g: Group) {
    h.pid == g.id && (h.start.Some? ==> h.start.value == g.birth)
  }

  predicate HasMember(k: Kernel, id: nat) {
    exists p :: p in k.table && !k.table[p].zombie && k.table[p].group.id == id
  }

  function GroupAlive(k: Kernel, h: Handle): bool {
    if Live(k, h.pid) then h.start.None? || k.table[h.pid].birth == h.start.value
    else HasMember(k, h.pid)
  }

  /** A later group under the same number whose founder is no longer live. */
  predicate Impostor(k: Kernel, g: Group) {
    && !Live(k, g.id)
    && exists p :: p in k.table && !k.table[p].zombie && k.table[p].group.id == g.id && k.table[p].group != g
  }

  /** A live group is always seen. */
  lemma LiveIsSeen(k: Kernel, h: Handle, g: Group)
    requires Coherent(k) && Names(h, g) && GroupLive(k, g)
    ensures GroupAlive(k, h)
  {
    var p :| Live(k, p) && k.table[p].group == g;
    assert k.table[p].group.id == g.id;
  }

  /** A live process that was given the number later. */
  predicate Stranger(k: Kernel, g: Group) {
    Live(k, g.id) && k.table[g.id].birth != g.birth
  }

  /**
   When the test is wrong: the number now belongs to a group whose founder is gone, or, if the birth could not be
   read at the launch, to any live process that was given it later.
   */
  lemma AliveExactly(k: Kernel, h: Handle, g: Group)
    requires Coherent(k) && Founded(k, g) && Names(h, g)
    ensures GroupAlive(k, h) <==> GroupLive(k, g) || Impostor(k, g) || (h.start.None? && Stranger(k, g))
  {
    if GroupLive(k, g) { LiveIsSeen(k, h, g); }
    if Live(k, g.id) && k.table[g.id].birth == g.birth { assert k.table[g.id].group == g; }
    if GroupAlive(k, h) && !Live(k, g.id) {
      var p :| p in k.table && !k.table[p].zombie && k.table[p].group.id == g.id;
      if k.table[p].group == g { assert Live(k, p); }
    }
  }

  /** The false alarm, concretely: number 5 was reused, its second founder is a zombie, a child of it lives on. */
  lemma ReusedNumberAlarms()
    ensures var g := Group(5, 0);
      var second := Group(5, 3);
      var k := Kernel(map[5 := Process(true, 3, second, true), 6 := Process(false, 4, second, false)], 5);
      Coherent(k) && Founded(k, g) && !GroupLive(k, g) && GroupAlive(k, Handle(5, Some(0)))
  {
    var second := Group(5, 3);
    var k := Kernel(map[5 := Process(true, 3, second, true), 6 := Process(false, 4, second, false)], 5);
    assert 6 in k.table && !k.table[6].zombie;
  }

  /******* A scan that takes time *******/

  /** The kernel before each of a series of steps, and after the last. */
  ghost predicate History(ks: seq<Kernel>, steps: seq<Step>) {
    && |ks| == |steps| + 1
    && forall i :: 0 <= i < |steps| ==> ks[i + 1] == Next(ks[i], steps[i])
  }

  ghost predicate LiveMember(k: Kernel, p: nat, id: nat) {
    Live(k, p) && k.table[p].group.id == id
  }

  ghost predicate Enters(ks: seq<Kernel>, i: nat, p: nat, id: nat) {
    0 < i < |ks| && LiveMember(ks[i], p, id) && !LiveMember(ks[i - 1], p, id)
  }

  /** Nothing enters a group during a history: who is a live member after a step was one before it. */
  ghost predicate NobodyEnters(ks: seq<Kernel>, id: nat) {
    forall i: nat, p: nat :: !Enters(ks, i, p, id)
  }

  /** A scan reads each process at a moment of its own. */
  ghost predicate ScanSees(ks: seq<Kernel>, moment: map<nat, nat>, id: nat) {
    exists p :: p in moment && moment[p] < |ks| && LiveMember(ks[moment[p]], p, id)
  }

  ghost predicate Present(ks: seq<Kernel>, p: nat) {
    forall i :: 0 <= i < |ks| ==> p in ks[i].table
  }

  /** Every process present throughout is read at some moment. */
  ghost predicate Complete(ks: seq<Kernel>, moment: map<nat, nat>) {
    forall p :: Present(ks, p) ==> p in moment && moment[p] < |ks|
  }

  lemma {:induction false} MemberThroughout(ks: seq<Kernel>, id: nat, p: nat, i: nat)
    requires NobodyEnters(ks, id) && i < |ks| && LiveMember(ks[|ks| - 1], p, id)
    ensures LiveMember(ks[i], p, id)
    decreases |ks| - i
  {
    if i < |ks| - 1 {
      MemberThroughout(ks, id, p, i + 1);
      assert !Enters(ks, i + 1, p, id);
    }
  }

  /** A scan of the process table is sound at its end if nobody entered the group while it went on. */
  lemma ScanSound(ks: seq<Kernel>, moment: map<nat, nat>, id: nat, p: nat)
    requires |ks| > 0 && Complete(ks, moment) && NobodyEnters(ks, id)
    requires LiveMember(ks[|ks| - 1], p, id)
    ensures ScanSees(ks, moment, id)
  {
    forall i | 0 <= i < |ks| ensures p in ks[i].table && LiveMember(ks[i], p, id) {
      MemberThroughout(ks, id, p, i);
    }
    assert Present(ks, p);
  }

  /** One and the same process is a live member at every moment. */
  ghost predicate Always(ks: seq<Kernel>, p: nat, id: nat) {
    forall i :: 0 <= i < |ks| ==> LiveMember(ks[i], p, id)
  }

  /** A reading of every process present throughout that finds no live member. */
  ghost predicate CanMiss(ks: seq<Kernel>, id: nat) {
    exists moment :: Complete(ks, moment) && !ScanSees(ks, moment, id)
  }

  /**
   Exactly when a scan can miss a group: its live members, if it has any, take turns, and none of them is
   there from the first moment to the last.
   */
  lemma ScanMissesExactly(ks: seq<Kernel>, id: nat)
    requires |ks| > 0
    ensures CanMiss(ks, id) <==> forall p: nat :: !Always(ks, p, id)
  {
    if p: nat :| Always(ks, p, id) {
      assert Present(ks, p) by {
        forall i | 0 <= i < |ks| ensures p in ks[i].table { assert LiveMember(ks[i], p, id); }
      }
    } else {
      forall p: nat | Present(ks, p)
        ensures p in ks[0].table
        ensures exists i: nat :: i < |ks| && !LiveMember(ks[i], p, id)
      {
        assert !Always(ks, p, id);
      }
      var moment := map p: nat | p in ks[0].table && Present(ks, p) :: Absent(ks, p, id);
      assert Complete(ks, moment) && !ScanSees(ks, moment, id);
    }
  }

  /** A moment at which a process is not a live member, if there is one. */
  ghost function Absent(ks: seq<Kernel>, p: nat, id: nat): (i: nat)
    ensures !Always(ks, p, id) ==> i < |ks| && !LiveMember(ks[i], p, id)
  {
    if Always(ks, p, id) then 0
    else
      var i: nat :| i < |ks| && !LiveMember(ks[i], p, id);
      i
  }

  /** Otherwise it can miss: 9 forks 4 after 4's place was passed and exits before its own place is reached. */
  lemma ScanCanMiss()
    ensures var g := Group(9, 0);
      var k0 := Kernel(map[9 := Process(false, 0, g, true)], 1);
      var k1 := Next(k0, Fork(9, 4));
      var k2 := Next(k1, Exit(9));
      && Coherent(k0) && History([k0, k1, k2], [Fork(9, 4), Exit(9)])
      && Complete([k0, k1, k2], map[4 := 0, 9 := 2])
      && GroupLive(k2, g) && !ScanSees([k0, k1, k2], map[4 := 0, 9 := 2], 9)
      && forall p: nat :: !Always([k0, k1, k2], p, 9)
  {
    var g := Group(9, 0);
    var k0 := Kernel(map[9 := Process(false, 0, g, true)], 1);
    var k1 := Next(k0, Fork(9, 4));
    var k2 := Next(k1, Exit(9));
    var ks := [k0, k1, k2];
    assert Unused(k0, 4) && k1 == Born(k0, 4, g, false);
    assert Live(k2, 4) && k2.table[4].group == g;
    forall p | Present(ks, p) ensures p == 9 { assert p in ks[0].table; }
    ScanMissesExactly(ks, 9);
    assert Complete(ks, map[4 := 0, 9 := 2]) && !ScanSees(ks, map[4 := 0, 9 := 2], 9);
  }
}
