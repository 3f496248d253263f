module LinkCounts {
  // Link counts that are exactly the names, and the one step that makes them
  // larger: the last iput of a removed directory in which names were made after
  // its removal.

  import opened Wrappers
  import opened Sets
  import opened Directory
  import opened PathWalk
  import opened DirGraph
  import opened DirTree
  import opened DirTreeProof
  import opened DanglingDirs

  /** Every link count is what it covers, no more. */
  ghost predicate Exact(s: State) {
    forall i :: i in s.nodes ==> s.nodes[i].nlink == s.Due(i)
  }

  /** Directory d has names besides its dots. */
  ghost predicate HasNames(g: Graph, d: nat) {
    d in g && exists n :: n in g[d] && !Dot(n)
  }

  /** The last reference to a removed directory that has names. */
  ghost predicate Leaks(s: State, a: Step) {
    a.Release? && a.i in s.nodes && s.nodes[a.i].nlink == 0 && s.held[a.i] == 1 && HasNames(s.Graph(), a.i)
  }

  /** Counts and what they cover go up and down together. */
  lemma ExactMoves(s: State, u: State)
    requires Exact(s) && u.nodes.Keys == s.nodes.Keys
    requires forall x :: x in s.nodes ==> u.nodes[x].nlink - s.nodes[x].nlink == u.Due(x) - s.Due(x)
    ensures Exact(u)
  {
    hide State.Due;
    assert forall x :: x in u.nodes ==> x in s.nodes;
  }

  lemma SameDue(s: State, u: State)
    requires u.Graph() == s.Graph() && u.promised == s.promised
    ensures forall x :: u.Due(x) == s.Due(x)
  {
    hide State.Graph, NamesOf, Subdirs;
  }

  /** Freeing i leaves the counts exact if and only if it has no names. */
  lemma FreedExact(s: State, u: State, i: nat)
    requires AlmostInv(s, i) && Exact(s) && i in s.nodes && s.nodes[i].nlink == 0 && u == s.(nodes := s.nodes - {i})
    ensures Exact(u) <==> !HasNames(s.Graph(), i)
  {
    hide State.Shape, State.Links, State.Refs, State.NoneLost, NamesOf, Subdirs, State.Graph;
    var g := s.Graph();
    DueFacts(s, i);
    FreedGraph(s, u, i);
    if HasNames(g, i) {
      LostName(s, u, i);
    } else {
      forall x | x in u.nodes ensures u.Due(x) == s.Due(x) {
        DropDir(g, i, x);
        NoNameLost(g, i, x);
      }
    }
  }

  lemma NoNameLost(g: Graph, i: nat, x: nat)
    requires !HasNames(g, i)
    ensures NamesOf(g - {i}, x) == NamesOf(g, x)
  {
    hide NamesOf;
    forall p ensures p in NamesOf(g - {i}, x) <==> p in NamesOf(g, x) {
      NameMember(g, x, p);
      NameMember(g - {i}, x, p);
    }
  }

  /** A name in the freed directory was counted and is gone. */
  lemma LostName(s: State, u: State, i: nat)
    requires AlmostInv(s, i) && Exact(s) && HasNames(s.Graph(), i) && Nameless(s.Graph(), i)
    requires u == s.(nodes := s.nodes - {i}) && u.Graph() == s.Graph() - {i}
    ensures !Exact(u)
  {
    hide State.Shape, State.Counts, State.Refs, State.NoneLost, NamesOf, Subdirs, State.Graph, LeadsBack, State.Links;
    var g := s.Graph();
    var n :| n in g[i] && !Dot(n);
    var x := g[i][n];
    NameLeads(s, i, n);
    DropDir(g, i, x);
    NameMember(g, x, (i, n));
    NameMember(g - {i}, x, (i, n));
    FewerNames(NamesOf(g - {i}, x), NamesOf(g, x), (i, n));
    assert x in u.nodes;
    assert u.Due(x) < s.Due(x);
  }

  lemma FewerNames(a: set<(nat, string)>, b: set<(nat, string)>, p: (nat, string))
    requires a <= b && p in b && p !in a
    ensures |a| < |b|
  {
    SubsetSize(a, b - {p});
  }

  /** A name t for i in dp: its link is counted now, or was promised before. */
  lemma NamedExact(s: State, u: State, g: Graph, dp: nat, t: string, i: nat)
    requires dp in g && t !in g[dp] && !Dot(t) && i in s.nodes && dp in s.nodes && i != dp
    requires u.nodes.Keys == s.nodes.Keys && forall x :: x != i ==> u.promised[x] == s.promised[x]
    requires forall x :: x in s.nodes && x in u.nodes ==>
      u.nodes[x].nlink == s.nodes[x].nlink + Raised(s, u, g, dp, i, x)
    requires s.Graph() == g && u.Graph() == WithName(g, dp, t, i) && Exact(s)
    ensures Exact(u)
  {
    hide State.Graph, NamesOf, Subdirs, WithName;
    forall x | x in s.nodes ensures u.nodes[x].nlink - s.nodes[x].nlink == u.Due(x) - s.Due(x) {
      AddName(g, dp, t, i, x);
      assert x in u.nodes;
    }
    ExactMoves(s, u);
  }

  /** By how much the link count of x rises. */
  function Raised(s: State, u: State, g: Graph, dp: nat, i: nat, x: nat): int {
    var before: int, now: int := s.promised[i], u.promised[i];
    (if x == dp && i in g then 1 else 0) + (if x == i then now - before + 1 else 0)
  }

  lemma DroppedExact(s: State, u: State, dp: nat, t: string, j: nat)
    requires Exact(s) && dp in s.Graph() && t in s.Graph()[dp] && !Dot(t) && j == s.Graph()[dp][t] && j in s.nodes
    requires u.Graph() == WithoutName(s.Graph(), dp, t) && u.nodes.Keys == s.nodes.Keys && u.promised == s.promised
    requires forall x :: x in s.nodes ==>
      u.nodes[x].nlink == s.nodes[x].nlink - (if x == j then 1 else 0) - (if x == dp && j in s.Graph() then 1 else 0)
    ensures Exact(u)
  {
    hide State.Graph, NamesOf, Subdirs, WithoutName;
    forall x | x in s.nodes ensures u.nodes[x].nlink - s.nodes[x].nlink == u.Due(x) - s.Due(x) {
      DropName(s.Graph(), dp, t, x);
    }
    ExactMoves(s, u);
  }

  // ----------------------------------------------------------------------------- the steps

  lemma CreatedExact(s: State, dp: nat, name: string, made: Node, inum: Option<nat>, room: bool)
    requires s.Inv() && Exact(s) && AtDir(s, dp, name) && MayMake(s, dp, made, inum)
    ensures Exact(Created(s, dp, name, made, inum, room).0) <==> !CreateWraps(s, dp, name, made, inum, room)
  {
    hide State.Inv, State.Link, State.Count, State.Graph, State.Due, AsMap, Trunc, NewEntries;
    var t := Trunc(name);
    if t in AsMap(s.Entries(dp)) {
      var u := s.(held := s.held + multiset{AsMap(s.Entries(dp))[t]});
      Unpromised(s, u);
      SameDue(s, u);
    } else if inum.Some? && room {
      CountBound(s, dp);
      if CreateWraps(s, dp, name, made, inum, room) {
        WrappedNotExact(s, dp, name, made, inum.value);
      } else {
        MadeExact(s, dp, name, made, inum.value);
      }
    }
  }

  lemma WrappedNotExact(s: State, dp: nat, name: string, made: Node, i: nat)
    requires s.IsDir(dp) && MayMake(s, dp, made, Some(i)) && CreateWraps(s, dp, name, made, Some(i), true)
    ensures !Exact(Created(s, dp, name, made, Some(i), true).0)
  {
    hide State.Due, AsMap, Trunc, NewEntries, Linked;
    assert dp in Created(s, dp, name, made, Some(i), true).0.nodes;
  }

  lemma MadeExact(s: State, dp: nat, name: string, made: Node, i: nat)
    requires s.Inv() && Exact(s) && AtDir(s, dp, name) && MayMake(s, dp, made, Some(i))
    requires Trunc(name) !in AsMap(s.Entries(dp)) && (made.DirNode? ==> s.nodes[dp].nlink < NLINK_MAX)
    ensures Exact(Created(s, dp, name, made, Some(i), true).0)
  {
    hide State.Shape, State.Counts, State.Links, State.Graph, State.Refs, AsMap, NewEntries, Trunc, WithName, Linked;
    hide State.Due, State.NoneLost;
    var u := s.(nodes := s.nodes[i := Inode(made, 0)], held := s.held + multiset{i});
    var u1 := u.(nodes := s.nodes[i := Inode(made, 1)]);
    NewInode(s, u1, dp, made, i);
    BareExact(s, u, u1, dp, made, i);
    NotZero(u1, i);
    LinkGraph(u1, dp, name, i);
    var v := u1.Link(dp, name, i);
    var w := if made.DirNode? then v.Count(dp, 1) else v;
    CountGraph(v, dp, 1);
    LinkCount(s, dp);
    GraphKeys(u1, dp);
    assert w.nodes.Keys == u.nodes.Keys;
    NamedExact(u, w, u.Graph(), dp, Trunc(name), i);
  }

  /** A new inode without a name, and with no links counted yet. */
  lemma BareExact(s: State, u: State, u1: State, dp: nat, made: Node, i: nat)
    requires s.Inv() && Exact(s) && s.IsDir(dp) && MayMake(s, dp, made, Some(i)) && u1.Due(i) == 0 && i != ROOTINO
    requires u == s.(nodes := s.nodes[i := Inode(made, 0)], held := s.held + multiset{i})
    requires u1 == u.(nodes := s.nodes[i := Inode(made, 1)])
    ensures Exact(u) && u.Graph() == u1.Graph()
  {
    hide State.Shape, State.Counts, State.Links, State.Graph, State.Refs, AsMap, NewEntries, NamesOf, Subdirs;
    hide State.NoneLost;
    NotZero(s, dp);
    NewGraph(s, u1, dp, made, i);
    SameButCount(u, u1, i);
    NothingNamed(s, i);
    GraphKeys(s, i);
    forall x | x in u.nodes ensures u.nodes[x].nlink == u.Due(x) {
      if made.DirNode? { AddDir(s.Graph(), i, u1.Graph()[i], x); }
    }
  }

  lemma SameButCount(u: State, u1: State, i: nat)
    requires i in u.nodes && i in u1.nodes && u1 == u.(nodes := u.nodes[i := u.nodes[i].(nlink := u1.nodes[i].nlink)])
    ensures u1.Graph() == u.Graph()
  {
    hide AsMap;
  }

  lemma EnteredExact(s: State, ip: nat, dp: nat, name: string)
    requires s.Inv() && Exact(s) && ip in s.promised && ip in s.nodes && s.IsDir(dp) && NulFree(name)
    requires Trunc(name) !in AsMap(s.Entries(dp))
    ensures Exact(s.Link(dp, name, ip).(promised := s.promised - multiset{ip}))
  {
    hide State.Shape, State.Counts, State.Links, State.Graph, State.Refs, AsMap, Trunc, WithName, Linked, State.Due;
    var c := s.Link(dp, name, ip);
    var u := c.(promised := s.promised - multiset{ip});
    NotZero(s, ip);
    LinkGraph(s, dp, name, ip);
    Unpromised(c, u);
    RefsFacts(s, ip);
    GraphKeys(s, ip);
    GraphKeys(s, dp);
    assert u.nodes.Keys == s.nodes.Keys;
    NamedExact(s, u, s.Graph(), dp, Trunc(name), ip);
  }

  /** A count and the promised links change together. */
  lemma CountedExact(s: State, u: State, i: nat, n: int)
    requires s.Inv() && Exact(s) && i in s.nodes && u.nodes == s.Count(i, n).nodes
    requires 0 <= s.nodes[i].nlink + n <= NLINK_MAX
    requires u.promised[i] == s.promised[i] + n && forall x :: x != i ==> u.promised[x] == s.promised[x]
    ensures Exact(u)
  {
    hide State.Inv, State.Graph, NamesOf, Subdirs;
    CountGraph(s, i, n);
    Unpromised(s.Count(i, n), u);
    assert u.nodes.Keys == s.nodes.Keys;
    forall x | x in s.nodes ensures u.nodes[x].nlink - s.nodes[x].nlink == u.Due(x) - s.Due(x) {
    }
    ExactMoves(s, u);
  }

  lemma RemovedExact(s: State, dp: nat, t: string, j: nat)
    requires s.Inv() && Exact(s) && dp in s.held && s.IsDir(dp) && Named(s.Entries(dp), t) && !Dot(t)
    requires j == s.Entries(dp)[IndexOf(s.Entries(dp), t)].inum && j in s.nodes
    ensures var u := s.Clear(dp, t);
      var v := if s.IsDir(j) then u.Count(dp, -1) else u;
      Exact(v.Count(j, -1))
  {
    hide State.Shape, State.Counts, State.Links, State.Graph, State.Refs, AsMap, WithoutName, Named, Cleared, State.Due;
    NameInGraph(s, dp, t);
    NameLeads(s, dp, t);
    ClearGraph(s, dp, t);
    var u := s.Clear(dp, t);
    var v := if s.IsDir(j) then u.Count(dp, -1) else u;
    var w := v.Count(j, -1);
    CountGraph(u, dp, -1);
    CountGraph(v, j, -1);
    GraphKeys(s, j);
    GraphKeys(s, dp);
    if s.IsDir(j) { SubdirCounts(s, dp, t); }
    LinkCount(s, j);
    LinkCount(s, dp);
    assert w.nodes.Keys == s.nodes.Keys;
    DroppedExact(s, w, dp, t, j);
  }

  /** unlink never leaves a count too high: what it frees is a file or an empty directory. */
  lemma UnlinkedExact(s: State, dp: nat, name: string)
    requires s.Inv() && Exact(s) && AtDir(s, dp, name)
    ensures Exact(Unlinked(s, dp, name).0)
  {
    hide State.Inv, AsMap, Trunc, Named, EmptyDir, Dot, AlmostInv, Cleared, Exact, Removable;
    var t := Trunc(name);
    if !Dot(t) && t in AsMap(s.Entries(dp)) && Named(s.Entries(dp), t) {
      var j := s.Entries(dp)[IndexOf(s.Entries(dp), t)].inum;
      if j in s.nodes && s.nodes[j].nlink >= 1 && (s.IsDir(j) ==> EmptyDir(s.Entries(j))) {
        RemoveInv(s, dp, t, j);
        RemovedExact(s, dp, t, j);
        var u := s.Clear(dp, t);
        var v := if s.IsDir(j) then u.Count(dp, -1) else u;
        var w := v.Count(j, -1);
        PutExact(w, j);
        UnlinkedEmpty(s, dp, t, j, w);
      }
    }
  }

  /** The end of iput. */
  lemma PutExact(s: State, i: nat)
    requires AlmostInv(s, i) && Exact(s)
    ensures Exact(s.Put(i)) <==> !(i in s.nodes && s.nodes[i].nlink == 0 && i !in s.held && HasNames(s.Graph(), i))
  {
    hide State.Shape, State.Counts, State.Links, State.Refs, Exact, HasNames;
    if i in s.nodes && s.nodes[i].nlink == 0 && i !in s.held {
      FreedExact(s, s.Put(i), i);
    }
  }

  lemma UnlinkedEmpty(s: State, dp: nat, t: string, j: nat, w: State)
    requires s.Inv() && s.IsDir(dp) && Named(s.Entries(dp), t) && !Dot(t) && j in s.nodes
    requires j == s.Entries(dp)[IndexOf(s.Entries(dp), t)].inum && (s.IsDir(j) ==> EmptyDir(s.Entries(j)))
    requires var u := s.Clear(dp, t);
      var v := if s.IsDir(j) then u.Count(dp, -1) else u;
      w == v.Count(j, -1)
    ensures !HasNames(w.Graph(), j)
  {
    hide State.Shape, State.Counts, State.Links, State.Graph, State.Refs, AsMap, WithoutName, Named, Cleared, EmptyDir;
    NameInGraph(s, dp, t);
    NameLeads(s, dp, t);
    ClearGraph(s, dp, t);
    var u := s.Clear(dp, t);
    var v := if s.IsDir(j) then u.Count(dp, -1) else u;
    CountGraph(u, dp, -1);
    CountGraph(v, j, -1);
    GraphKeys(s, j);
    EmptyInMap(s, j);
    OnlyDots(s.Graph(), dp, t, j);
  }

  lemma OnlyDots(g: Graph, dp: nat, t: string, j: nat)
    requires dp in g && (j in g ==> j != dp && g[j].Keys == {".", ".."})
    ensures !HasNames(WithoutName(g, dp, t), j)
  {
    var h := WithoutName(g, dp, t);
    if j in h {
      assert h[j] == g[j];
      forall n | n in h[j] ensures Dot(n) {
        assert n in g[j].Keys;
      }
    }
  }

  lemma ReleasedExact(s: State, i: nat)
    requires s.Inv() && Exact(s) && s.promised[i] < s.held[i]
    ensures Exact(s.(held := s.held - multiset{i}).Put(i)) <==> !Leaks(s, Release(i))
  {
    hide State.Shape, State.Counts, State.Links, State.Graph, State.Put, State.Due, HasNames;
    var u := s.(held := s.held - multiset{i});
    SameNodes(s, u);
    SameDue(s, u);
    ReleaseAlmost(s, i);
    PutExact(u, i);
    assert i !in u.held <==> s.held[i] == 1;
  }

  /**
    From exact counts every step leads to exact counts, except one that makes a
    count wrap, and the last iput of a removed directory in which names were made:
    what they named keeps a link that no name has.
  */
  lemma ExactIff(s: State, a: Step)
    requires s.Inv() && Exact(s) && Enabled(s, a)
    ensures Exact(Next(s, a).0) <==> !Leaks(s, a) && !Wraps(s, a)
  {
    hide State.Inv, AsMap, Trunc, Created, Unlinked, NewEntries, State.Due, State.Graph, HasNames, Exact, State.Put;
    hide CreateWraps;
    match a
    case Release(i) => ReleasedExact(s, i);
    case Unlink(dp, name) => UnlinkedExact(s, dp, name);
    case Create(dp, name, made, inum, room) => CreatedExact(s, dp, name, made, inum, room);
    case Hold(i) => HeldExact(s, i);
    case Promise(ip) =>
      if !s.IsDir(ip) {
        PromisedExact(s, ip);
        CountBound(s, ip);
      }
    case Withdraw(ip) => WithdrawnExact(s, ip);
    case Enter(ip, dp, name, room) =>
      if Trunc(name) in AsMap(s.Entries(dp)) || !room { WithdrawnExact(s, ip); } else { EnteredExact(s, ip, dp, name); }
  }

  lemma HeldExact(s: State, i: nat)
    requires Exact(s)
    ensures Exact(s.(held := s.held + multiset{i}))
  {
    hide State.Due, State.Graph;
    Unpromised(s, s.(held := s.held + multiset{i}));
    SameDue(s, s.(held := s.held + multiset{i}));
  }

  lemma PromisedExact(s: State, ip: nat)
    requires s.Inv() && Exact(s) && ip in s.nodes
    ensures Exact(s.Count(ip, 1).(promised := s.promised + multiset{ip})) <==> s.nodes[ip].nlink < NLINK_MAX
  {
    hide State.Shape, State.Links, State.Refs, State.Graph, State.Counts, State.NoneLost, State.Due;
    LinkCount(s, ip);
    var u := s.Count(ip, 1).(promised := s.promised + multiset{ip});
    if s.nodes[ip].nlink < NLINK_MAX { CountedExact(s, u, ip, 1); } else { assert ip in u.nodes; }
  }

  lemma WithdrawnExact(s: State, ip: nat)
    requires s.Inv() && Exact(s) && ip in s.promised && ip in s.nodes
    ensures Exact(Withdrawn(s, ip))
  {
    hide State.Shape, State.Links, State.Refs, State.Graph, State.Counts, Exact, State.NoneLost, State.Due;
    LinkCount(s, ip);
    CountedExact(s, Withdrawn(s, ip), ip, -1);
  }

  // --------------------------------------------------------------------------- a run that leaks

  lemma MkfsExact()
    ensures Exact(Mkfs())
  {
    hide AsMap, NewEntries, State.Graph;
    RootGraph();
  }

  lemma MkfileFacts(s: State, dp: nat, name: string, i: nat)
    requires s.Inv() && AtDir(s, dp, name) && i != 0 && i !in s.nodes && Trunc(name) !in AsMap(s.Entries(dp))
    ensures var u := Created(s, dp, name, FileNode, Some(i), true).0;
      && u.Inv() && u.held == s.held + multiset{i} && u.promised == s.promised && u.IsDir(dp)
      && u.nodes.Keys == s.nodes.Keys + {i} && u.nodes[i] == Inode(FileNode, 1)
      && AsMap(u.Entries(dp)) == AsMap(s.Entries(dp))[Trunc(name) := i] && u.nodes[dp].nlink == s.nodes[dp].nlink
      && |u.Entries(dp)| <= |s.Entries(dp)| + 1
      && (forall x :: x in s.nodes && x != dp ==> u.nodes[x] == s.nodes[x])
  {
    hide State.Inv, AsMap, Linked, NewEntries, Trunc, DirOk, Dotted;
    MakeInv(s, dp, name, FileNode, i);
    DirFacts(s, dp);
    LinkedMap(s.Entries(dp), name, i, dp);
    LinkedSize(s.Entries(dp), name, i);
  }

  /** A directory is made and removed, and stays somebody's current one. */
  lemma RemovedButHeld() returns (steps: seq<Step>, s: State)
    ensures CleanRun(Mkfs(), steps, s) && s.Inv() && Exact(s) && s.promised == multiset{} && s.held == multiset{1, 2}
    ensures s.nodes.Keys == {1, 2} && s.IsDir(2) && s.nodes[2].nlink == 0
    ensures AsMap(s.Entries(2)) == map["." := 2, ".." := 1]
  {
    hide State.Inv, NewEntries, AsMap, Created, Unlinked, Exact;
    var s0 := Mkfs();
    MkfsInv();
    MkfsExact();
    NewEntriesMap(ROOTINO, ROOTINO);
    var s1 := s0.(held := multiset{1});
    assert s0.held + multiset{1} == multiset{1};
    HoldInv(s0, 1);
    ExactIff(s0, Hold(1));
    MkdirFacts(s1, 1, "a", 2);
    var a2 := Create(1, "a", DirNode(NewEntries(2, 1)), Some(2), true);
    ExactIff(s1, a2);
    var s2 := Next(s1, a2).0;
    RmdirFacts(s2, 1, "a");
    ExactIff(s2, Unlink(1, "a"));
    s := Next(s2, Unlink(1, "a")).0;
    steps := [Hold(1), a2, Unlink(1, "a")];
    ThreeSteps(s0, steps, s1, s2, s);
  }

  /** A file made in it has a link and, once the directory is let go, no name. */
  lemma LeakedFile() returns (steps: seq<Step>, t: State)
    ensures CleanRun(Mkfs(), steps, t) && !Exact(t)
  {
    hide State.Inv, NewEntries, AsMap, Created, Exact, CleanRun;
    var a, s := RemovedButHeld();
    var make := Create(2, "f", FileNode, Some(3), true);
    MkfileFacts(s, 2, "f", 3);
    ExactIff(s, make);
    var u := Next(s, make).0;
    assert u.held[2] == 1;
    GraphKeys(u, 2);
    assert "f" in u.Graph()[2] && !Dot("f");
    ExactIff(u, Release(2));
    t := Next(u, Release(2)).0;
    TwoSteps(s, make, u, Release(2), t);
    CleanConcat(Mkfs(), a, s, [make, Release(2)], t);
    steps := a + [make, Release(2)];
  }
}
