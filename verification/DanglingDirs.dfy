module DanglingDirs {
  // The one name that can outlive its inode: the .. of a removed directory that
  // somebody still has as current directory. When exactly a step leaves such a
  // name behind, and a run that does.

  import opened Wrappers
  import opened Directory
  import opened PathWalk
  import opened DirGraph
  import opened DirTree
  import opened DirTreeProof

  /** Every .. leads to an allocated inode. */
  ghost predicate Up(s: State) {
    UpIn(s.Graph(), s.nodes.Keys)
  }

  ghost predicate UpIn(g: Graph, keys: set<nat>) {
    forall d :: d in g ==> ".." in g[d] && g[d][".."] in keys
  }

  /** Another directory's .. is i. */
  ghost predicate IsParent(g: Graph, i: nat) {
    exists d :: d in g && d != i && ".." in g[d] && g[d][".."] == i
  }

  /** unlink of this name frees a directory that is a parent. */
  ghost predicate UnlinkOrphans(s: State, dp: nat, t: string)
    requires s.IsDir(dp)
  {
    Removable(s, dp, t) && LastLink(s, AsMap(s.Entries(dp))[t])
  }

  /** i has one link and no references, and another directory's .. is i. */
  ghost predicate LastLink(s: State, i: nat) {
    i in s.nodes && s.nodes[i].nlink == 1 && i !in s.held && IsParent(s.Graph(), i)
  }

  /** iput frees i, and another directory's .. is i. */
  ghost predicate ReleaseOrphans(s: State, i: nat) {
    i in s.nodes && s.nodes[i].nlink == 0 && s.held[i] == 1 && IsParent(s.Graph(), i)
  }

  /** The step frees a directory that is still the .. of another one. */
  ghost predicate Orphans(s: State, a: Step) {
    match a
    case Release(i) => ReleaseOrphans(s, i)
    case Unlink(dp, name) => s.IsDir(dp) && UnlinkOrphans(s, dp, Trunc(name))
    case _ => false
  }

  /** The names in all directories stay, apart from new directories. */
  ghost predicate SameUps(g: Graph, h: Graph, keys: set<nat>) {
    forall d :: d in h ==>
      ".." in h[d] && (if d in g then ".." in g[d] && h[d][".."] == g[d][".."] else h[d][".."] in keys)
  }

  lemma UpKept(g: Graph, h: Graph, keys: set<nat>, keys': set<nat>)
    requires UpIn(g, keys) && SameUps(g, h, keys') && keys <= keys'
    ensures UpIn(h, keys')
  {
  }

  lemma NamedUps(g: Graph, dp: nat, t: string, i: nat, keys: set<nat>)
    requires UpIn(g, keys) && dp in g && !Dot(t)
    ensures UpIn(WithName(g, dp, t, i), keys) && UpIn(WithoutName(g, dp, t), keys)
  {
  }

  lemma CreatedUps(s: State, dp: nat, name: string, made: Node, i: nat)
    requires s.Inv() && Up(s) && AtDir(s, dp, name) && MayMake(s, dp, made, Some(i))
    requires Trunc(name) !in AsMap(s.Entries(dp))
    ensures Up(Created(s, dp, name, made, Some(i), true).0)
  {
    hide State.Shape, State.Counts, State.Links, State.Graph, State.Refs, AsMap, NewEntries, Trunc, WithName, Linked;
    hide UpIn;
    var u := s.(nodes := s.nodes[i := Inode(made, 1)], held := s.held + multiset{i});
    NewInode(s, u, dp, made, i);
    NewUps(s, u, dp, made, i);
    NotZero(u, i);
    LinkGraph(u, dp, name, i);
    var v := u.Link(dp, name, i);
    CountGraph(v, dp, 1);
    NamedUps(u.Graph(), dp, Trunc(name), i, u.nodes.Keys);
    assert v.nodes.Keys == u.nodes.Keys && v.Count(dp, 1).nodes.Keys == u.nodes.Keys;
  }

  lemma NewUps(s: State, u: State, dp: nat, made: Node, i: nat)
    requires s.Inv() && Up(s) && s.IsDir(dp) && MayMake(s, dp, made, Some(i)) && u.nodes == s.nodes[i := Inode(made, 1)]
    ensures Up(u)
  {
    hide State.Shape, State.Counts, State.Links, State.Graph, State.Refs, AsMap, NewEntries;
    NotZero(s, dp);
    NewGraph(s, u, dp, made, i);
    GraphKeys(s, i);
    assert SameUps(s.Graph(), u.Graph(), u.nodes.Keys);
    UpKept(s.Graph(), u.Graph(), s.nodes.Keys, u.nodes.Keys);
  }

  /** iput at the end: a .. dangles exactly if the freed inode is a parent. */
  lemma PutUps(s: State, i: nat)
    requires s.Shape() && s.Counts() && Up(s)
    ensures Up(s.Put(i)) <==> !(i in s.nodes && s.nodes[i].nlink == 0 && i !in s.held && IsParent(s.Graph(), i))
  {
    hide State.Shape, State.Counts, State.Graph;
    if i in s.nodes && s.nodes[i].nlink == 0 && i !in s.held {
      DueFacts(s, i);
      FreedGraph(s, s.Put(i), i);
      FreedUps(s.Graph(), s.nodes.Keys, i);
      assert s.Put(i).nodes.Keys == s.nodes.Keys - {i};
    }
  }

  lemma FreedUps(g: Graph, keys: set<nat>, i: nat)
    requires UpIn(g, keys)
    ensures UpIn(g - {i}, keys - {i}) <==> !IsParent(g, i)
  {
    var h := g - {i};
    if d :| d in g && d != i && ".." in g[d] && g[d][".."] == i {
      assert d in h && h[d][".."] == i;
    } else {
      assert forall d :: d in h ==> d in g && h[d] == g[d];
    }
  }

  lemma UnlinkedUps(s: State, dp: nat, name: string)
    requires s.Inv() && Up(s) && AtDir(s, dp, name)
    ensures Up(Unlinked(s, dp, name).0) <==> !UnlinkOrphans(s, dp, Trunc(name))
  {
    hide State.Inv, AsMap, Trunc, Removable, LastLink, Up, Unlinked;
    UnlinkAnswer(s, dp, name);
    if Removable(s, dp, Trunc(name)) {
      RemovedUps(s, dp, name);
    } else {
      NotRemoved(s, dp, name);
    }
  }

  lemma NotRemoved(s: State, dp: nat, name: string)
    requires s.IsDir(dp) && !Unlinked(s, dp, name).1.Ok?
    ensures Unlinked(s, dp, name).0 == s
  {
    hide AsMap, Trunc, Named, EmptyDir, Cleared, State.Put;
  }

  lemma RemovedUps(s: State, dp: nat, name: string)
    requires s.Inv() && Up(s) && AtDir(s, dp, name) && Removable(s, dp, Trunc(name)) && Unlinked(s, dp, name).1.Ok?
    ensures Up(Unlinked(s, dp, name).0) <==> !UnlinkOrphans(s, dp, Trunc(name))
  {
    hide AsMap, Trunc, Named, EmptyDir, NoMoreThanDots, IsParent, UpIn, State.Graph, Cleared, State.Put, LeadsBack;
    hide State.Shape, State.Counts, State.Links, State.Refs, AlmostInv, WithoutName;
    var t := Trunc(name);
    var j := AsMap(s.Entries(dp))[t];
    NameInGraph(s, dp, t);
    GraphKeys(s, dp);
    NameLeads(s, dp, t);
    RemoveInv(s, dp, t, j);
    ClearGraph(s, dp, t);
    var u := s.Clear(dp, t);
    var v := if s.IsDir(j) then u.Count(dp, -1) else u;
    var w := v.Count(j, -1);
    CountGraph(u, dp, -1);
    CountGraph(v, j, -1);
    NamedUps(s.Graph(), dp, t, j, s.nodes.Keys);
    assert w.nodes.Keys == s.nodes.Keys;
    AlmostFacts(w, j);
    PutUps(w, j);
    SameParents(s.Graph(), dp, t, j);
    LinkCount(s, j);
    GraphKeys(s, j);
    assert s.IsDir(j) ==> j != dp by { LeadsElsewhere(s.Graph(), dp, j); }
    assert s.nodes[j].nlink == 1 <==> w.nodes[j].nlink == 0;
  }

  lemma LeadsElsewhere(g: Graph, dp: nat, j: nat)
    requires LeadsBack(g, dp, j)
    ensures j in g ==> j != dp
  {
  }

  lemma AlmostFacts(s: State, i: nat)
    requires AlmostInv(s, i)
    ensures s.Shape() && s.Counts()
  {
  }

  lemma SameParents(g: Graph, dp: nat, t: string, i: nat)
    requires dp in g && !Dot(t)
    ensures IsParent(WithoutName(g, dp, t), i) <==> IsParent(g, i)
  {
    var h := WithoutName(g, dp, t);
    if d :| d in g && d != i && ".." in g[d] && g[d][".."] == i {
      assert d in h && ".." in h[d] && h[d][".."] == i;
    }
    if d :| d in h && d != i && ".." in h[d] && h[d][".."] == i {
      assert d in g && ".." in g[d] && g[d][".."] == i;
    }
  }

  lemma ReleasedUps(s: State, i: nat)
    requires s.Inv() && Up(s) && s.promised[i] < s.held[i]
    ensures Up(s.(held := s.held - multiset{i}).Put(i)) <==> !ReleaseOrphans(s, i)
  {
    hide State.Shape, State.Counts, State.Links, State.Graph, State.Refs, State.Put, IsParent, UpIn;
    var u := s.(held := s.held - multiset{i});
    SameNodes(s, u);
    PutUps(u, i);
    assert i !in u.held <==> s.held[i] == 1;
  }

  /**
    From a state in which every .. leads somewhere, a step leaves one that does
    not if and only if it frees a directory that is the .. of another one. Only a
    directory removed while somebody held it can be that other one.
  */
  lemma DanglesIff(s: State, a: Step)
    requires s.Inv() && Up(s) && Enabled(s, a)
    ensures Up(Next(s, a).0) <==> !Orphans(s, a)
  {
    hide State.Inv, AsMap, Trunc, Created, Unlinked, ReleaseOrphans, UnlinkOrphans, NewEntries;
    match a
    case Release(i) => ReleasedUps(s, i);
    case Unlink(dp, name) => UnlinkedUps(s, dp, name);
    case Create(dp, name, made, inum, room) => CreateUps(s, dp, name, made, inum, room);
    case Hold(i) => SameKeys(s, Next(s, a).0);
    case Promise(ip) =>
      CountGraph(s, ip, 1);
      SameKeys(s.Count(ip, 1), s.Count(ip, 1).(promised := s.promised + multiset{ip}));
    case Withdraw(ip) => WithdrawnUps(s, ip);
    case Enter(ip, dp, name, room) =>
      if Trunc(name) in AsMap(s.Entries(dp)) || !room { WithdrawnUps(s, ip); } else { EnteredUps(s, ip, dp, name); }
  }

  lemma SameKeys(s: State, u: State)
    requires Up(s) && u.nodes == s.nodes
    ensures Up(u)
  {
    Unpromised(s, u);
  }

  lemma WithdrawnUps(s: State, ip: nat)
    requires Up(s) && ip in s.nodes
    ensures Up(Withdrawn(s, ip))
  {
    hide State.Graph, UpIn;
    CountGraph(s, ip, -1);
    Unpromised(s.Count(ip, -1), Withdrawn(s, ip));
    assert Withdrawn(s, ip).nodes.Keys == s.nodes.Keys;
  }

  lemma EnteredUps(s: State, ip: nat, dp: nat, name: string)
    requires s.Inv() && Up(s) && ip in s.nodes && s.IsDir(dp) && NulFree(name) && Trunc(name) !in AsMap(s.Entries(dp))
    ensures Up(s.Link(dp, name, ip).(promised := s.promised - multiset{ip}))
  {
    hide State.Shape, State.Counts, State.Links, State.Graph, State.Refs, AsMap, Trunc, WithName, Linked, UpIn;
    var c := s.Link(dp, name, ip);
    NotZero(s, ip);
    LinkGraph(s, dp, name, ip);
    Unpromised(c, c.(promised := s.promised - multiset{ip}));
    NamedUps(s.Graph(), dp, Trunc(name), ip, s.nodes.Keys);
    assert c.nodes.Keys == s.nodes.Keys;
  }

  lemma CreateUps(s: State, dp: nat, name: string, made: Node, inum: Option<nat>, room: bool)
    requires s.Inv() && Up(s) && AtDir(s, dp, name) && MayMake(s, dp, made, inum)
    ensures Up(Created(s, dp, name, made, inum, room).0)
  {
    hide State.Inv, State.Graph, State.Link, State.Count, AsMap, Trunc, NewEntries, UpIn;
    if Trunc(name) in AsMap(s.Entries(dp)) {
      var j := AsMap(s.Entries(dp))[Trunc(name)];
      Unpromised(s, s.(held := s.held + multiset{j}));
    } else if inum.Some? && room {
      CreatedUps(s, dp, name, made, inum.value);
    }
  }

  /** While every .. leads somewhere, no walk from an allocated inode panics. */
  lemma {:induction false} WalkUp(s: State, ip: nat, elems: seq<string>, parent: bool)
    requires s.Inv() && Up(s) && ip in s.nodes
    ensures Walk(s.Tree(), ip, elems, parent) != Stuck
    decreases |elems|
  {
    hide State.Inv, State.Graph, AsMap, Trunc, UpIn;
    if elems != [] && s.IsDir(ip) && !(parent && |elems| == 1) && Trunc(elems[0]) in AsMap(s.Entries(ip)) {
      NamesResolve(s, ip, Trunc(elems[0]));
      DotDotUp(s, ip);
      WalkUp(s, AsMap(s.Entries(ip))[Trunc(elems[0])], elems[1..], parent);
    }
  }

  lemma DotDotUp(s: State, d: nat)
    requires Up(s) && s.IsDir(d)
    ensures ".." in AsMap(s.Entries(d)) && AsMap(s.Entries(d))[".."] in s.nodes
  {
    hide AsMap, State.Graph;
    GraphKeys(s, d);
  }

  // ------------------------------------------------------------- a run that leaves one behind

  lemma MkdirFacts(s: State, dp: nat, name: string, i: nat)
    requires s.Inv() && AtDir(s, dp, name) && i != 0 && i !in s.nodes && Trunc(name) !in AsMap(s.Entries(dp))
    requires s.nodes[dp].nlink < NLINK_MAX
    ensures var u := Created(s, dp, name, DirNode(NewEntries(i, dp)), Some(i), true).0;
      && u.Inv() && u.nodes.Keys == s.nodes.Keys + {i} && u.held == s.held + multiset{i} && u.promised == s.promised
      && u.IsDir(dp) && AsMap(u.Entries(dp)) == AsMap(s.Entries(dp))[Trunc(name) := i]
      && u.nodes[dp].nlink == s.nodes[dp].nlink + 1
      && u.IsDir(i) && AsMap(u.Entries(i)) == map["." := i, ".." := dp] && u.nodes[i].nlink == 1
      && |u.Entries(i)| == 2 && |u.Entries(dp)| <= |s.Entries(dp)| + 1
      && (forall x :: x in s.nodes && x != dp ==> u.nodes[x] == s.nodes[x])
  {
    hide State.Inv, AsMap, Linked, NewEntries, Trunc, DirOk, Dotted;
    MakeInv(s, dp, name, DirNode(NewEntries(i, dp)), i);
    DirFacts(s, dp);
    LinkedMap(s.Entries(dp), name, i, dp);
    LinkedSize(s.Entries(dp), name, i);
    NewEntriesMap(i, dp);
  }

  lemma DirFacts(s: State, d: nat)
    requires s.Inv() && s.IsDir(d)
    ensures DirOk(s.Entries(d)) && d != 0 && 0 <= s.nodes[d].nlink <= NLINK_MAX
  {
    hide AsMap, DirOk, Dotted, State.Graph, State.Links, State.Refs;
    ShapeFacts(s, d);
    LinkCount(s, d);
  }

  /** rmdir of a directory that only has its dots. */
  lemma RmdirFacts(s: State, dp: nat, name: string)
    requires s.Inv() && AtDir(s, dp, name) && Removable(s, dp, Trunc(name))
    requires s.IsDir(AsMap(s.Entries(dp))[Trunc(name)])
    ensures var u, j := Unlinked(s, dp, name).0, AsMap(s.Entries(dp))[Trunc(name)];
      && u.Inv() && u.held == s.held && u.promised == s.promised && j != dp && j in s.nodes
      && u.nodes.Keys == (if s.nodes[j].nlink == 1 && j !in s.held then s.nodes.Keys - {j} else s.nodes.Keys)
      && u.IsDir(dp) && AsMap(u.Entries(dp)) == AsMap(s.Entries(dp)) - {Trunc(name)}
      && u.nodes[dp].nlink == s.nodes[dp].nlink - 1
      && (j in u.nodes ==> u.nodes[j] == s.nodes[j].(nlink := s.nodes[j].nlink - 1))
      && (forall x :: x in u.nodes && x != dp && x != j ==> u.nodes[x] == s.nodes[x])
  {
    hide State.Inv, AsMap, Trunc, Removable, Cleared, Named, EmptyDir, State.Graph;
    var t := Trunc(name);
    UnlinkAnswer(s, dp, name);
    UnlinkedInv(s, dp, name);
    RmdirTarget(s, dp, t);
    ClearedMap(s.Entries(dp), t, dp);
  }

  lemma RmdirTarget(s: State, dp: nat, t: string)
    requires s.Inv() && s.IsDir(dp) && Removable(s, dp, t) && s.IsDir(AsMap(s.Entries(dp))[t])
    ensures var j := AsMap(s.Entries(dp))[t];
      && j != dp && j in s.nodes && 1 <= s.nodes[j].nlink <= NLINK_MAX && 1 <= s.nodes[dp].nlink <= NLINK_MAX
      && DirOk(s.Entries(dp)) && Named(s.Entries(dp), t) && s.Entries(dp)[IndexOf(s.Entries(dp), t)].inum == j
  {
    hide State.Shape, State.Counts, State.Links, State.Refs, State.Graph, AsMap, DirOk, Dotted, NoMoreThanDots;
    ShapeFacts(s, dp);
    MapHas(s.Entries(dp), t);
    NameInGraph(s, dp, t);
    NameLeads(s, dp, t);
    GraphKeys(s, AsMap(s.Entries(dp))[t]);
    SubdirCounts(s, dp, t);
    LinkCount(s, dp);
    LinkCount(s, AsMap(s.Entries(dp))[t]);
  }

  /** A directory in a directory; the inner one is somebody's current directory. */
  lemma TwoDirs() returns (steps: seq<Step>, s: State)
    ensures CleanRun(Mkfs(), steps, s) && s.Inv() && s.nodes.Keys == {1, 2, 3}
    ensures s.held == multiset{1, 2, 3} && s.promised == multiset{}
    ensures s.IsDir(1) && s.IsDir(2) && s.IsDir(3) && s.nodes[2].nlink == 2 && s.nodes[3].nlink == 1
    ensures AsMap(s.Entries(1)) == map["." := 1, ".." := 1, "a" := 2]
    ensures AsMap(s.Entries(2)) == map["." := 2, ".." := 1, "b" := 3]
    ensures AsMap(s.Entries(3)) == map["." := 3, ".." := 2]
  {
    hide State.Inv, NewEntries, AsMap, Created;
    var s0 := Mkfs();
    MkfsInv();
    NewEntriesMap(ROOTINO, ROOTINO);
    var s1 := s0.(held := multiset{1});
    assert s0.held + multiset{1} == multiset{1};
    HoldInv(s0, 1);
    MkdirFacts(s1, 1, "a", 2);
    var a2 := Create(1, "a", DirNode(NewEntries(2, 1)), Some(2), true);
    var s2 := Next(s1, a2).0;
    MkdirFacts(s2, 2, "b", 3);
    var a3 := Create(2, "b", DirNode(NewEntries(3, 2)), Some(3), true);
    s := Next(s2, a3).0;
    steps := [Hold(1), a2, a3];
    ThreeSteps(s0, steps, s1, s2, s);
  }

  /** Both directories are removed; the inner one stays, held, and its .. leads to a freed inode. */
  lemma RemoveBoth(s: State) returns (steps: seq<Step>, t: State)
    requires s.Inv() && s.nodes.Keys == {1, 2, 3} && s.held == multiset{1, 2, 3} && s.promised == multiset{}
    requires s.IsDir(1) && s.IsDir(2) && s.IsDir(3) && s.nodes[2].nlink == 2 && s.nodes[3].nlink == 1
    requires AsMap(s.Entries(1)) == map["." := 1, ".." := 1, "a" := 2]
    requires AsMap(s.Entries(2)) == map["." := 2, ".." := 1, "b" := 3]
    requires AsMap(s.Entries(3)) == map["." := 3, ".." := 2]
    ensures CleanRun(s, steps, t) && t.Inv() && t.IsDir(3) && AsMap(t.Entries(3)) == map["." := 3, ".." := 2]
    ensures 2 !in t.nodes
  {
    hide State.Inv, AsMap, Unlinked;
    RmdirFacts(s, 2, "b");
    var s1 := Next(s, Unlink(2, "b")).0;
    var s2 := Next(s1, Release(2)).0;
    ReleaseInv(s1, 2);
    assert s2.held == multiset{1, 3};
    assert s2.nodes == s1.nodes;
    RmdirFacts(s2, 1, "a");
    t := Next(s2, Unlink(1, "a")).0;
    steps := [Unlink(2, "b"), Release(2), Unlink(1, "a")];
    ThreeSteps(s, steps, s1, s2, t);
  }

  /** In this run a path through the .. of a removed current directory makes the kernel panic. */
  lemma RemovedParent() returns (steps: seq<Step>, t: State)
    ensures CleanRun(Mkfs(), steps, t) && 3 in t.nodes && Walk(t.Tree(), 3, ["..", "x"], false) == Stuck && !Up(t)
  {
    hide CleanRun, State.Inv, AsMap, State.Graph;
    var a, s := TwoDirs();
    var b;
    b, t := RemoveBoth(s);
    CleanConcat(Mkfs(), a, s, b, t);
    steps := a + b;
    WalkStep(t.Tree(), 3, ["..", "x"], false);
    WalkStep(t.Tree(), 2, ["..", "x"][1..], false);
    if Up(t) { DotDotUp(t, 3); }
  }
}
