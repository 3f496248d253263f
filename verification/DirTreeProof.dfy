module DirTreeProof {
  // What every step on the directory tree keeps, over every run from the root-only
  // tree, and what follows for unlink's panic and for namex.

  import opened Wrappers
  import opened Directory
  import opened PathWalk
  import opened DirGraph
  import opened DirTree

  lemma ShapeFacts(s: State, d: nat)
    requires s.Shape() && s.IsDir(d)
    ensures DirOk(s.Entries(d)) && Dotted(s.Entries(d), d) && d != 0
    ensures d in s.Graph() && s.Graph()[d] == AsMap(s.Entries(d))
  {
  }

  lemma GraphKeys(s: State, d: nat)
    ensures d in s.Graph() <==> s.IsDir(d)
    ensures s.IsDir(d) ==> s.Graph()[d] == AsMap(s.Entries(d))
  {
  }

  /** One directory's entries change. */
  lemma SetGraph(s: State, u: State, dp: nat, e: Entries)
    requires s.Shape() && s.IsDir(dp) && u == s.(nodes := s.nodes[dp := s.nodes[dp].(node := DirNode(e))])
    requires DirOk(e) && Dotted(e, dp)
    ensures u.Shape() && u.Graph() == s.Graph()[dp := AsMap(e)]
  {
    hide AsMap, DirOk, Dotted;
    forall d | u.IsDir(d) ensures DirOk(u.Entries(d)) && Dotted(u.Entries(d), d) {
      assert d != dp ==> s.IsDir(d) && u.nodes[d] == s.nodes[d];
    }
  }

  lemma LinkGraph(s: State, dp: nat, name: string, i: nat)
    requires s.Shape() && s.IsDir(dp) && NulFree(name) && i != 0 && Trunc(name) !in AsMap(s.Entries(dp))
    ensures s.Link(dp, name, i).Shape()
    ensures dp in s.Graph() && s.Link(dp, name, i).Graph() == WithName(s.Graph(), dp, Trunc(name), i)
    ensures !Dot(Trunc(name))
  {
    ShapeFacts(s, dp);
    hide State.Shape, AsMap, DirOk, Linked, Dotted, State.Graph, Trunc;
    LinkedMap(s.Entries(dp), name, i, dp);
    DottedMap(s.Entries(dp), dp);
    SetGraph(s, s.Link(dp, name, i), dp, Linked(s.Entries(dp), name, i));
  }

  lemma ClearGraph(s: State, dp: nat, t: string)
    requires s.Shape() && s.IsDir(dp) && Named(s.Entries(dp), t) && !Dot(t)
    ensures s.Clear(dp, t).Shape()
    ensures dp in s.Graph() && s.Clear(dp, t).Graph() == WithoutName(s.Graph(), dp, t)
  {
    ShapeFacts(s, dp);
    hide State.Shape, AsMap, DirOk, Cleared, Dotted, State.Graph, Named;
    ClearedMap(s.Entries(dp), t, dp);
    SetGraph(s, s.Clear(dp, t), dp, Cleared(s.Entries(dp), t));
  }

  /** Link counts have no bearing on the graph. */
  lemma CountGraph(s: State, i: nat, n: int)
    requires i in s.nodes
    ensures s.Count(i, n).Graph() == s.Graph() && (s.Shape() ==> s.Count(i, n).Shape())
  {
    hide AsMap, DirOk, Dotted;
    var u := s.Count(i, n);
    if s.Shape() {
      forall d | u.IsDir(d) ensures DirOk(u.Entries(d)) && Dotted(u.Entries(d), d) {
        assert s.IsDir(d);
      }
    }
  }

  /** A new inode that nothing names yet. */
  lemma NewGraph(s: State, u: State, dp: nat, made: Node, i: nat)
    requires s.Shape() && dp != 0 && MayMake(s, dp, made, Some(i)) && u.nodes == s.nodes[i := Inode(made, 1)]
    ensures u.Shape()
    ensures made.DirNode? ==> var m: map<string, nat> := map["." := i, ".." := dp]; u.Graph() == s.Graph()[i := m]
    ensures !made.DirNode? ==> u.Graph() == s.Graph()
  {
    NewEntriesMap(i, dp);
    hide AsMap, DirOk, Dotted, NewEntries;
    forall d | u.IsDir(d) ensures DirOk(u.Entries(d)) && Dotted(u.Entries(d), d) {
      assert d != i ==> s.IsDir(d) && u.nodes[d] == s.nodes[d];
    }
  }

  /** Inode i, which nothing names, is gone. */
  lemma FreedGraph(s: State, u: State, i: nat)
    requires s.Shape() && i != ROOTINO && u.nodes == s.nodes - {i}
    ensures u.Shape() && u.Graph() == s.Graph() - {i}
  {
    hide AsMap, DirOk, Dotted;
    forall d | u.IsDir(d) ensures DirOk(u.Entries(d)) && Dotted(u.Entries(d), d) {
      assert s.IsDir(d);
    }
  }

  // ------------------------------------------------------------------------------ iput

  ghost predicate AlmostInv(s: State, i: nat) {
    s.Shape() && s.Counts() && s.Links() && s.Refs() && s.NoneLost(i)
  }

  lemma DueFacts(s: State, i: nat)
    requires s.Counts() && i in s.nodes && s.nodes[i].nlink == 0
    ensures NamesOf(s.Graph(), i) == {} && i !in s.promised && i != ROOTINO && Nameless(s.Graph(), i)
  {
    NamelessMeans(s.Graph(), i);
    hide NamesOf, Subdirs, State.Graph;
  }

  lemma PutInv(s: State, i: nat)
    requires AlmostInv(s, i)
    ensures s.Put(i).Inv()
  {
    hide State.Shape, State.Counts, State.Links;
    if i in s.nodes && s.nodes[i].nlink == 0 && i !in s.held {
      var u := s.Put(i);
      DueFacts(s, i);
      FreedGraph(s, u, i);
      FreedCounts(s, u, i);
      FreedLinks(s, u, i);
    } else {
      NoneLostAll(s, i);
    }
  }

  lemma NoneLostAll(s: State, i: nat)
    requires s.NoneLost(i) && (i in s.nodes && s.nodes[i].nlink == 0 ==> i in s.held)
    ensures s.NoneLost(0)
  {
  }

  lemma FreedCounts(s: State, u: State, i: nat)
    requires s.Counts() && Nameless(s.Graph(), i) && u == s.(nodes := s.nodes - {i}) && u.Graph() == s.Graph() - {i}
    ensures u.Counts()
  {
    hide NamesOf, Subdirs, State.Graph, Nameless;
    forall x | x in u.nodes ensures u.Due(x) <= s.Due(x) {
      DropDir(s.Graph(), i, x);
    }
    hide State.Due;
  }

  lemma FreedLinks(s: State, u: State, i: nat)
    requires s.Links() && Nameless(s.Graph(), i) && u.nodes == s.nodes - {i} && u.Graph() == s.Graph() - {i}
    requires i != ROOTINO
    ensures u.Links()
  {
    hide State.Graph;
    var g, h := s.Graph(), u.Graph();
    forall d, n | d in h && n in h[d] && !Dot(n) ensures LeadsBack(h, d, h[d][n]) && h[d][n] in u.nodes {
      assert d in g && n in g[d];
    }
  }

  // ------------------------------------------------------------------- references and links

  lemma ReleaseInv(s: State, i: nat)
    requires s.Inv() && s.promised[i] < s.held[i]
    ensures s.(held := s.held - multiset{i}).Put(i).Inv()
  {
    hide State.Inv, AlmostInv, State.Put;
    ReleaseAlmost(s, i);
    PutInv(s.(held := s.held - multiset{i}), i);
  }

  /** One reference less, before iput looks whether it was the last. */
  lemma ReleaseAlmost(s: State, i: nat)
    requires s.Inv() && s.promised[i] < s.held[i]
    ensures AlmostInv(s.(held := s.held - multiset{i}), i)
  {
    hide State.Shape, State.Counts, State.Links;
    var u := s.(held := s.held - multiset{i});
    SameNodes(s, u);
    forall x ensures u.held[x] == s.held[x] - (if x == i then 1 else 0) {
    }
    forall x | x in u.promised ensures !u.IsDir(x) {
      assert x in s.promised && !s.IsDir(x);
    }
    forall x | x in u.nodes && x != i && u.nodes[x].nlink == 0 ensures x in u.held {
      NotZero(s, x);
      assert x in s.held;
    }
  }

  lemma SameNodes(s: State, u: State)
    requires u.nodes == s.nodes && u.promised == s.promised
    ensures u.Graph() == s.Graph() && (s.Shape() ==> u.Shape()) && (s.Counts() ==> u.Counts())
    ensures s.Links() ==> u.Links()
  {
    hide AsMap, NamesOf, Subdirs, DirOk, Dotted;
    assert u.Graph() == s.Graph();
    assert forall d :: u.IsDir(d) == s.IsDir(d);
    hide State.Graph;
    assert forall i :: u.Due(i) == s.Due(i);
  }

  lemma HoldInv(s: State, i: nat)
    requires s.Inv() && i in s.nodes
    ensures s.(held := s.held + multiset{i}).Inv()
  {
    hide State.Shape, State.Counts, State.Links;
    SameNodes(s, s.(held := s.held + multiset{i}));
  }

  /** A link count and what it must cover move together. */
  lemma CountCounts(s: State, u: State, i: nat, n: int)
    requires s.Counts() && i in s.nodes && u.nodes == s.Count(i, n).nodes && u.Graph() == s.Graph()
    requires 0 <= s.nodes[i].nlink + n <= NLINK_MAX
    requires u.promised[i] == s.promised[i] + n && forall x :: x != i ==> u.promised[x] == s.promised[x]
    ensures u.Counts() && u.nodes[i].nlink == s.nodes[i].nlink + n
  {
    hide State.Graph, NamesOf, Subdirs;
    forall x | x in u.nodes ensures u.Due(x) <= u.nodes[x].nlink <= NLINK_MAX {
      assert x in s.nodes && s.Due(x) <= s.nodes[x].nlink;
      assert u.Due(x) == s.Due(x) + (if x == i then n else 0);
    }
  }

  lemma SameGraphLinks(s: State, u: State)
    requires s.Links() && u.Graph() == s.Graph() && s.nodes.Keys <= u.nodes.Keys
    ensures u.Links()
  {
    hide State.Graph, LeadsBack;
    assert forall x :: x in s.nodes ==> x in u.nodes;
  }

  lemma PromiseInv(s: State, ip: nat)
    requires s.Inv() && s.promised[ip] < s.held[ip] && ip in s.nodes && !s.IsDir(ip) && s.nodes[ip].nlink < NLINK_MAX
    ensures s.Count(ip, 1).(promised := s.promised + multiset{ip}).Inv()
  {
    hide State.Shape, State.Counts, State.Links, State.Graph, State.Refs;
    var c := s.Count(ip, 1);
    var u := c.(promised := s.promised + multiset{ip});
    CountGraph(s, ip, 1);
    Unpromised(c, u);
    LinkCount(s, ip);
    RefsMore(s, u, ip);
    CountCounts(s, u, ip, 1);
    SameGraphLinks(s, u);
  }

  /** Shape and graph depend on the nodes alone. */
  lemma Unpromised(c: State, u: State)
    requires u.nodes == c.nodes
    ensures u.Graph() == c.Graph() && (c.Shape() ==> u.Shape())
  {
    hide AsMap, DirOk, Dotted;
    assert forall d :: u.IsDir(d) == c.IsDir(d);
  }

  lemma WithdrawInv(s: State, ip: nat)
    requires s.Inv() && ip in s.promised && ip in s.nodes
    ensures Withdrawn(s, ip).Inv()
  {
    hide State.Shape, State.Counts, State.Links, State.Graph, State.Refs;
    var c, u := s.Count(ip, -1), Withdrawn(s, ip);
    CountGraph(s, ip, -1);
    Unpromised(c, u);
    LinkCount(s, ip);
    RefsFewer(s, u, ip);
    CountCounts(s, u, ip, -1);
    SameGraphLinks(s, u);
  }

  lemma LinkCount(s: State, i: nat)
    requires s.Counts() && i in s.nodes
    ensures s.promised[i] <= s.Due(i) <= s.nodes[i].nlink <= NLINK_MAX
  {
    hide NamesOf, Subdirs, State.Graph;
  }

  lemma RefsMore(s: State, u: State, ip: nat)
    requires s.Refs() && u.held == s.held && u.promised == s.promised + multiset{ip} && s.promised[ip] < s.held[ip]
    requires u.nodes.Keys == s.nodes.Keys && (forall x :: u.IsDir(x) == s.IsDir(x)) && !s.IsDir(ip)
    ensures u.Refs()
  {
    assert forall x :: x in s.nodes ==> x in u.nodes;
  }

  lemma RefsFewer(s: State, u: State, ip: nat)
    requires s.Refs() && u.held == s.held && u.promised == s.promised - multiset{ip}
    requires u.nodes.Keys == s.nodes.Keys && forall x :: u.IsDir(x) == s.IsDir(x)
    ensures u.Refs() && (ip in s.promised ==> ip in s.held)
  {
    assert forall x :: x in s.nodes ==> x in u.nodes;
  }

  // ------------------------------------------------------------------------ names come and go

  /** dirlink's half of sys_link. */
  lemma EnterInv(s: State, ip: nat, dp: nat, name: string)
    requires s.Inv() && ip in s.promised && ip in s.nodes && s.IsDir(dp) && NulFree(name)
    requires Trunc(name) !in AsMap(s.Entries(dp))
    ensures s.Link(dp, name, ip).(promised := s.promised - multiset{ip}).Inv()
  {
    hide State.Shape, State.Counts, State.Links, State.Graph, State.Refs, AsMap, Trunc, WithName, Linked;
    var c := s.Link(dp, name, ip);
    var u := c.(promised := s.promised - multiset{ip});
    NotZero(s, ip);
    LinkGraph(s, dp, name, ip);
    Unpromised(c, u);
    RefsFewer(s, u, ip);
    RefsFacts(s, ip);
    GraphKeys(s, ip);
    GraphKeys(s, dp);
    LinkCount(s, ip);
    NamedCounts(s, u, dp, Trunc(name), ip);
    NamedLinks(s, u, dp, Trunc(name), ip);
  }

  lemma NotZero(s: State, i: nat)
    requires s.Shape() && i in s.nodes
    ensures i != 0 && s.IsDir(ROOTINO)
  {
  }

  lemma RefsFacts(s: State, i: nat)
    requires s.Refs()
    ensures i in s.promised ==> !s.IsDir(i)
    ensures i !in s.nodes ==> i !in s.held && i !in s.promised
  {
  }

  /** A name t for i in dp; if i is a directory, dp's link count went up for its .. */
  lemma NamedCounts(s: State, u: State, dp: nat, t: string, i: nat)
    requires s.Counts() && dp in s.Graph() && t !in s.Graph()[dp] && !Dot(t) && i in s.nodes && dp in s.nodes
    requires u.Graph() == WithName(s.Graph(), dp, t, i) && u.nodes.Keys == s.nodes.Keys
    requires s.Due(i) + 1 - s.promised[i] + u.promised[i] <= s.nodes[i].nlink && i != dp
    requires forall x :: x != i ==> u.promised[x] == s.promised[x]
    requires i in s.Graph() ==> s.nodes[dp].nlink < NLINK_MAX
    requires forall x :: x in s.nodes ==>
      u.nodes[x].nlink == s.nodes[x].nlink + (if x == dp && i in s.Graph() then 1 else 0)
    ensures u.Counts()
  {
    hide State.Graph, NamesOf, Subdirs, WithName;
    forall x | x in u.nodes ensures u.Due(x) <= u.nodes[x].nlink <= NLINK_MAX {
      AddName(s.Graph(), dp, t, i, x);
      assert x in s.nodes && s.Due(x) <= s.nodes[x].nlink <= NLINK_MAX;
    }
  }

  lemma NamedLinks(s: State, u: State, dp: nat, t: string, i: nat)
    requires s.Links() && dp in s.Graph() && t !in s.Graph()[dp] && !Dot(t) && i in u.nodes
    requires s.nodes.Keys <= u.nodes.Keys
    requires u.Graph() == WithName(s.Graph(), dp, t, i) && LeadsBack(s.Graph(), dp, i)
    ensures u.Links()
  {
    hide State.Graph;
    var g, h := s.Graph(), u.Graph();
    forall d, n | d in h && n in h[d] && !Dot(n) ensures LeadsBack(h, d, h[d][n]) && h[d][n] in u.nodes {
      assert (d, n) != (dp, t) ==> n in g[d] && h[d][n] == g[d][n] && g[d][n] in s.nodes;
    }
  }

  /** A new inode before it has a name: nothing leads to it. */
  lemma NewInode(s: State, u: State, dp: nat, made: Node, i: nat)
    requires s.Inv() && s.IsDir(dp) && MayMake(s, dp, made, Some(i))
    requires u == s.(nodes := s.nodes[i := Inode(made, 1)], held := s.held + multiset{i})
    ensures u.Shape() && u.Counts() && u.Links() && u.Refs() && u.NoneLost(0)
    ensures u.Due(i) == 0 && LeadsBack(u.Graph(), dp, i) && u.IsDir(dp) && u.Entries(dp) == s.Entries(dp)
    ensures (i in u.Graph() <==> made.DirNode?) && dp != i
  {
    hide State.Shape, State.Counts, State.Links, State.Graph, State.Refs, AsMap, NewEntries;
    NotZero(s, dp);
    NewGraph(s, u, dp, made, i);
    NothingNamed(s, i);
    GraphKeys(s, i);
    GraphKeys(u, i);
    NewCounts(s, u, i);
    NewLinks(s, u, i);
    NewRefs(s, u, i);
  }

  lemma NothingNamed(s: State, i: nat)
    requires s.Links() && i !in s.nodes
    ensures Nameless(s.Graph(), i) && NamesOf(s.Graph(), i) == {}
  {
    hide State.Graph, LeadsBack;
    NamelessMeans(s.Graph(), i);
  }

  lemma NewCounts(s: State, u: State, i: nat)
    requires s.Counts() && s.Refs() && i !in s.nodes && i != ROOTINO && Nameless(s.Graph(), i)
    requires u.nodes.Keys == s.nodes.Keys + {i} && u.promised == s.promised && u.nodes[i].nlink == 1
    requires forall x :: x in s.nodes ==> u.nodes[x] == s.nodes[x]
    requires i !in s.Graph() && (u.Graph() == s.Graph() || GraphGrew(s.Graph(), u.Graph(), i))
    ensures u.Counts() && u.Due(i) == 0
  {
    hide State.Graph, NamesOf, Subdirs, Nameless;
    assert NamesOf(s.Graph(), i) == {} by { NamelessMeans(s.Graph(), i); }
    assert Subdirs(s.Graph(), i) == {} by { NoSubdirs(s.Graph(), i); }
    assert i !in s.promised by { RefsFacts(s, i); }
    forall x ensures u.Due(x) == s.Due(x) {
      if u.Graph() != s.Graph() { AddDir(s.Graph(), i, u.Graph()[i], x); }
    }
    assert forall x :: x in u.nodes ==> x == i || x in s.nodes;
    hide State.Due;
  }

  lemma NoSubdirs(g: Graph, i: nat)
    requires i !in g
    ensures Subdirs(g, i) == {}
  {
  }

  ghost predicate GraphGrew(g: Graph, h: Graph, i: nat) {
    i in h && h == g[i := h[i]] && forall n :: n in h[i] ==> Dot(n)
  }

  lemma NewLinks(s: State, u: State, i: nat)
    requires s.Links() && u.nodes.Keys == s.nodes.Keys + {i} && i !in s.nodes && i !in s.Graph()
    requires u.Graph() == s.Graph() || GraphGrew(s.Graph(), u.Graph(), i)
    requires Nameless(s.Graph(), i)
    ensures u.Links() && i != ROOTINO
  {
    hide State.Graph;
    var g, h := s.Graph(), u.Graph();
    assert forall x :: x in s.nodes ==> x in u.nodes;
    forall d, n | d in h && n in h[d] && !Dot(n) ensures LeadsBack(h, d, h[d][n]) && h[d][n] in u.nodes {
      assert d in g && g[d] == h[d];
    }
  }

  lemma NewRefs(s: State, u: State, i: nat)
    requires s.Refs() && s.Counts() && s.NoneLost(0) && i !in s.nodes && u.nodes.Keys == s.nodes.Keys + {i}
    requires u.held == s.held + multiset{i}
    requires u.promised == s.promised && u.nodes[i].nlink == 1 && forall x :: x in s.nodes ==> u.nodes[x] == s.nodes[x]
    ensures u.Refs() && u.NoneLost(0)
  {
    hide State.Counts;
    forall x | x in u.promised ensures !u.IsDir(x) {
      RefsFacts(s, x);
    }
    assert forall x :: x in u.nodes <==> x == i || x in s.nodes;
    forall x ensures u.held[x] >= s.held[x] {
    }
  }

  /** create of a name that is not there. */
  lemma MakeInv(s: State, dp: nat, name: string, made: Node, i: nat)
    requires s.Inv() && dp in s.held && s.IsDir(dp) && NulFree(name) && MayMake(s, dp, made, Some(i))
    requires Trunc(name) !in AsMap(s.Entries(dp)) && (made.DirNode? ==> s.nodes[dp].nlink < NLINK_MAX)
    ensures Created(s, dp, name, made, Some(i), true).0.Inv()
  {
    hide State.Shape, State.Counts, State.Links, State.Graph, State.Refs, AsMap, NewEntries, Trunc, WithName, Linked;
    var u := s.(nodes := s.nodes[i := Inode(made, 1)], held := s.held + multiset{i});
    NewInode(s, u, dp, made, i);
    NotZero(u, i);
    LinkGraph(u, dp, name, i);
    var v := u.Link(dp, name, i);
    var w := if made.DirNode? then v.Count(dp, 1) else v;
    CountGraph(v, dp, 1);
    LinkCount(u, dp);
    GraphKeys(u, dp);
    assert w.nodes.Keys == u.nodes.Keys;
    NamedCounts(u, w, dp, Trunc(name), i);
    NamedLinks(u, w, dp, Trunc(name), i);
    SameRefs(u, w);
  }

  lemma SameRefs(u: State, w: State)
    requires u.Refs() && u.NoneLost(0) && w.nodes.Keys == u.nodes.Keys && w.held == u.held && w.promised == u.promised
    requires forall x :: w.IsDir(x) == u.IsDir(x)
    requires forall x :: x in u.nodes ==>
      w.nodes[x].nlink >= u.nodes[x].nlink && (u.nodes[x].nlink >= 0 || w.nodes[x].nlink != 0)
    ensures w.Refs() && w.NoneLost(0)
  {
    assert forall x :: x in u.nodes <==> x in w.nodes;
  }

  // ---------------------------------------------------------------------------------- unlink

  /** The name sys_unlink looks up, in the graph. */
  lemma NameInGraph(s: State, dp: nat, t: string)
    requires s.Shape() && s.IsDir(dp) && Named(s.Entries(dp), t)
    ensures dp in s.Graph() && t in s.Graph()[dp]
    ensures s.Graph()[dp][t] == s.Entries(dp)[IndexOf(s.Entries(dp), t)].inum
  {
    ShapeFacts(s, dp);
    hide State.Shape, State.Graph, AsMap;
    MapHas(s.Entries(dp), t);
  }

  /** What a name leads to is allocated and has a link. */
  lemma NameLeads(s: State, dp: nat, t: string)
    requires s.Counts() && s.Links() && dp in s.Graph() && t in s.Graph()[dp] && !Dot(t)
    ensures var j := s.Graph()[dp][t];
      j in s.nodes && LeadsBack(s.Graph(), dp, j) && s.nodes[j].nlink >= 1 && s.nodes[j].nlink > s.promised[j]
  {
    var g := s.Graph();
    hide State.Graph, NamesOf, Subdirs, LeadsBack;
    NameMember(g, g[dp][t], (dp, t));
    assert |NamesOf(g, g[dp][t])| >= 1;
  }

  /** The name t of dp is gone; its inode's link count went down, and dp's for a directory's .. */
  lemma DroppedCounts(s: State, u: State, dp: nat, t: string, j: nat)
    requires s.Counts() && dp in s.Graph() && t in s.Graph()[dp] && !Dot(t) && j == s.Graph()[dp][t] && j in s.nodes
    requires u.Graph() == WithoutName(s.Graph(), dp, t) && u.nodes.Keys == s.nodes.Keys && u.promised == s.promised
    requires dp in s.nodes && (j in s.Graph() ==> j != dp)
    requires forall x :: x in s.nodes ==>
      u.nodes[x].nlink == s.nodes[x].nlink - (if x == j then 1 else 0) - (if x == dp && j in s.Graph() then 1 else 0)
    ensures u.Counts()
  {
    hide State.Graph, NamesOf, Subdirs, WithoutName;
    forall x | x in u.nodes ensures u.Due(x) <= u.nodes[x].nlink <= NLINK_MAX {
      DropName(s.Graph(), dp, t, x);
      assert x in s.nodes && s.Due(x) <= s.nodes[x].nlink <= NLINK_MAX;
    }
  }

  lemma DroppedLinks(s: State, u: State, dp: nat, t: string)
    requires s.Links() && dp in s.Graph() && !Dot(t) && s.nodes.Keys == u.nodes.Keys
    requires u.Graph() == WithoutName(s.Graph(), dp, t)
    ensures u.Links()
  {
    hide State.Graph;
    var g, h := s.Graph(), u.Graph();
    forall d, n | d in h && n in h[d] && !Dot(n) ensures LeadsBack(h, d, h[d][n]) && h[d][n] in u.nodes {
      assert n in g[d] && h[d][n] == g[d][n] && g[d][n] in s.nodes;
    }
  }

  /** A directory with subdirectories has a link left for each; so has a directory losing one. */
  lemma SubdirCounts(s: State, dp: nat, t: string)
    requires s.Counts() && dp in s.Graph() && dp in s.nodes && t in s.Graph()[dp] && !Dot(t)
    requires s.Graph()[dp][t] in s.Graph()
    ensures s.nodes[dp].nlink >= 1
  {
    hide State.Graph, NamesOf, Subdirs;
    SubMember(s.Graph(), dp, t);
    assert |Subdirs(s.Graph(), dp)| >= 1;
  }

  lemma RemoveInv(s: State, dp: nat, t: string, j: nat)
    requires s.Inv() && dp in s.held && s.IsDir(dp) && Named(s.Entries(dp), t) && !Dot(t)
    requires j == s.Entries(dp)[IndexOf(s.Entries(dp), t)].inum && j in s.nodes
    ensures var u := s.Clear(dp, t);
      var v := if s.IsDir(j) then u.Count(dp, -1) else u;
      AlmostInv(v.Count(j, -1), j)
  {
    hide State.Shape, State.Counts, State.Links, State.Graph, State.Refs, AsMap, WithoutName, Named, Cleared;
    NameInGraph(s, dp, t);
    NameLeads(s, dp, t);
    ClearGraph(s, dp, t);
    var u := s.Clear(dp, t);
    var v := if s.IsDir(j) then u.Count(dp, -1) else u;
    var w := v.Count(j, -1);
    CountGraph(u, dp, -1);
    CountGraph(v, j, -1);
    GraphKeys(s, j);
    GraphKeys(s, dp);
    if s.IsDir(j) { SubdirCounts(s, dp, t); }
    LinkCount(s, j);
    LinkCount(s, dp);
    assert w.nodes.Keys == s.nodes.Keys;
    DroppedCounts(s, w, dp, t, j);
    DroppedLinks(s, w, dp, t);
    RefsStay(s, w);
    assert forall x :: x in w.nodes ==> x in s.nodes;
    assert w.NoneLost(j) by { LostOnlyThere(s, w, dp, j); }
  }

  lemma RefsStay(s: State, u: State)
    requires s.Refs() && u.held == s.held && u.promised == s.promised && u.nodes.Keys == s.nodes.Keys
    requires forall x :: u.IsDir(x) == s.IsDir(x)
    ensures u.Refs()
  {
    assert forall x :: x in s.nodes ==> x in u.nodes;
  }

  lemma LostOnlyThere(s: State, u: State, dp: nat, j: nat)
    requires s.Inv() && u.held == s.held && u.nodes.Keys == s.nodes.Keys && dp in s.held
    requires forall x :: x in s.nodes && x != j && x != dp ==> u.nodes[x].nlink == s.nodes[x].nlink
    ensures u.NoneLost(j)
  {
    hide State.Counts, State.Links, State.Refs, State.Graph;
    assert forall x :: x in u.nodes ==> x in s.nodes;
  }

  // ---------------------------------------------------------------------------- every run

  lemma CreatedInv(s: State, dp: nat, name: string, made: Node, inum: Option<nat>, room: bool)
    requires s.Inv() && AtDir(s, dp, name) && MayMake(s, dp, made, inum)
    ensures Created(s, dp, name, made, inum, room).0.Inv() <==> !CreateWraps(s, dp, name, made, inum, room)
  {
    hide State.Inv, State.Link, AsMap, Trunc, NewEntries;
    var t := Trunc(name);
    if t in AsMap(s.Entries(dp)) {
      if AsMap(s.Entries(dp))[t] in s.nodes { HoldInv(s, AsMap(s.Entries(dp))[t]); }
    } else if inum.Some? && room {
      if made.DirNode? { CountBound(s, dp); }
      if CreateWraps(s, dp, name, made, inum, room) {
        WrappedMake(s, dp, name, made, inum.value);
      } else {
        MakeInv(s, dp, name, made, inum.value);
      }
    }
  }

  lemma CountBound(s: State, i: nat)
    requires s.Inv() && i in s.nodes
    ensures 0 <= s.nodes[i].nlink <= NLINK_MAX
  {
    hide State.Shape, State.Links, State.Refs, State.NoneLost;
    LinkCount(s, i);
  }

  /** A count below 0 covers nothing. */
  lemma NegativeCount(u: State, i: nat)
    requires i in u.nodes && u.nodes[i].nlink < 0
    ensures !u.Inv()
  {
    hide State.Shape, State.Links, State.Refs, State.NoneLost, State.Due;
    if u.Counts() { LinkCount(u, i); }
  }

  lemma WrappedMake(s: State, dp: nat, name: string, made: Node, i: nat)
    requires s.IsDir(dp) && MayMake(s, dp, made, Some(i)) && CreateWraps(s, dp, name, made, Some(i), true)
    ensures !Created(s, dp, name, made, Some(i), true).0.Inv()
  {
    hide State.Inv, AsMap, Trunc, NewEntries, Linked;
    NegativeCount(Created(s, dp, name, made, Some(i), true).0, dp);
  }

  lemma UnlinkedInv(s: State, dp: nat, name: string)
    requires s.Inv() && AtDir(s, dp, name)
    ensures Unlinked(s, dp, name).0.Inv()
  {
    hide State.Inv, State.Put, AsMap, Trunc, Named, EmptyDir, Dot, AlmostInv, Cleared;
    var t := Trunc(name);
    if !Dot(t) && t in AsMap(s.Entries(dp)) && Named(s.Entries(dp), t) {
      var j := s.Entries(dp)[IndexOf(s.Entries(dp), t)].inum;
      if j in s.nodes && s.nodes[j].nlink >= 1 && (s.IsDir(j) ==> EmptyDir(s.Entries(j))) {
        RemoveInv(s, dp, t, j);
        var u := s.Clear(dp, t);
        var v := if s.IsDir(j) then u.Count(dp, -1) else u;
        PutInv(v.Count(j, -1), j);
      }
    }
  }

  lemma PromisedInv(s: State, ip: nat)
    requires s.Inv() && s.promised[ip] < s.held[ip] && ip in s.nodes && !s.IsDir(ip)
    ensures s.Count(ip, 1).(promised := s.promised + multiset{ip}).Inv() <==> s.nodes[ip].nlink < NLINK_MAX
  {
    hide State.Inv;
    CountBound(s, ip);
    if s.nodes[ip].nlink < NLINK_MAX {
      PromiseInv(s, ip);
    } else {
      NegativeCount(s.Count(ip, 1).(promised := s.promised + multiset{ip}), ip);
    }
  }

  /** Every step keeps the invariant, if and only if it does not raise a link count beyond its short. */
  lemma NextInv(s: State, a: Step)
    requires s.Inv() && Enabled(s, a)
    ensures Next(s, a).0.Inv() <==> !Wraps(s, a)
  {
    hide State.Inv, State.Link, State.Count, State.Put, AsMap, Trunc, Created, Unlinked, NewEntries, Withdrawn;
    hide CreateWraps;
    match a
    case Hold(i) => HoldInv(s, i);
    case Release(i) => ReleaseInv(s, i);
    case Create(dp, name, made, inum, room) => CreatedInv(s, dp, name, made, inum, room);
    case Promise(ip) =>
      if !s.IsDir(ip) {
        PromisedInv(s, ip);
        CountBound(s, ip);
      }
    case Enter(ip, dp, name, room) =>
      if Trunc(name) in AsMap(s.Entries(dp)) || !room { WithdrawInv(s, ip); } else { EnterInv(s, ip, dp, name); }
    case Withdraw(ip) => WithdrawInv(s, ip);
    case Unlink(dp, name) => UnlinkedInv(s, dp, name);
  }

  /** t is reached from s by the steps, in this order. */
  ghost predicate Run(s: State, steps: seq<Step>, t: State)
    decreases |steps|
  {
    if steps == [] then t == s else Enabled(s, steps[0]) && Run(Next(s, steps[0]).0, steps[1..], t)
  }

  /** No step of the run raises a link count beyond its short. */
  ghost predicate NoWrap(s: State, steps: seq<Step>)
    decreases |steps|
  {
    steps == [] || (Enabled(s, steps[0]) && !Wraps(s, steps[0]) && NoWrap(Next(s, steps[0]).0, steps[1..]))
  }

  /** A run in which no link count wraps. */
  ghost predicate CleanRun(s: State, steps: seq<Step>, t: State) {
    Run(s, steps, t) && NoWrap(s, steps)
  }

  lemma MkfsInv()
    ensures Mkfs().Inv()
  {
    hide AsMap, NewEntries, State.Graph, State.Shape;
    var s := Mkfs();
    RootGraph();
  }

  lemma RootShape()
    ensures var m: map<string, nat> := map["." := ROOTINO, ".." := ROOTINO]; Mkfs().Graph() == map[ROOTINO := m]
    ensures Mkfs().Shape()
  {
    hide AsMap, NewEntries, DirOk, Dotted;
    NewEntriesMap(ROOTINO, ROOTINO);
  }

  lemma RootGraph()
    ensures var m: map<string, nat> := map["." := ROOTINO, ".." := ROOTINO]; Mkfs().Graph() == map[ROOTINO := m]
    ensures Mkfs().Shape() && Mkfs().Due(ROOTINO) == 1
  {
    hide State.Graph, State.Shape, NewEntries;
    RootShape();
    var g := Mkfs().Graph();
    assert NamesOf(g, ROOTINO) == {} && Subdirs(g, ROOTINO) == {};
  }

  lemma {:induction false} RunKeeps(s: State, steps: seq<Step>, t: State)
    requires s.Inv() && CleanRun(s, steps, t)
    ensures t.Inv()
    decreases |steps|
  {
    hide State.Inv, Next, Enabled, Wraps;
    if steps != [] {
      NextInv(s, steps[0]);
      RunKeeps(Next(s, steps[0]).0, steps[1..], t);
    }
  }

  /** The invariant holds after every run from the root-only tree in which no link count wraps. */
  lemma RunInv(steps: seq<Step>, t: State)
    requires CleanRun(Mkfs(), steps, t)
    ensures t.Inv()
  {
    hide State.Inv, CleanRun;
    MkfsInv();
    RunKeeps(Mkfs(), steps, t);
  }

  lemma ThreeSteps(s: State, steps: seq<Step>, s1: State, s2: State, t: State)
    requires |steps| == 3 && Enabled(s, steps[0]) && !Wraps(s, steps[0]) && s1 == Next(s, steps[0]).0
    requires Enabled(s1, steps[1]) && !Wraps(s1, steps[1]) && s2 == Next(s1, steps[1]).0
    requires Enabled(s2, steps[2]) && !Wraps(s2, steps[2]) && t == Next(s2, steps[2]).0
    ensures CleanRun(s, steps, t)
  {
    hide Enabled, Next, Wraps;
    assert steps[2..][1..] == [] && CleanRun(t, [], t);
    assert CleanRun(s2, steps[2..], t);
    assert steps[1..][1..] == steps[2..];
    assert CleanRun(s1, steps[1..], t);
  }

  lemma TwoSteps(s: State, a: Step, u: State, b: Step, t: State)
    requires Enabled(s, a) && !Wraps(s, a) && u == Next(s, a).0 && Enabled(u, b) && !Wraps(u, b) && t == Next(u, b).0
    ensures CleanRun(s, [a, b], t)
  {
    hide Enabled, Next, Wraps;
    assert [a, b][1..] == [b] && [b][1..] == [] && CleanRun(t, [], t);
    assert CleanRun(u, [b], t);
  }

  lemma {:induction false} RunConcat(s: State, a: seq<Step>, t: State, b: seq<Step>, u: State)
    requires Run(s, a, t) && Run(t, b, u)
    ensures Run(s, a + b, u)
    decreases |a|
  {
    hide Enabled, Next;
    if a == [] {
      assert a + b == b;
    } else {
      RunConcat(Next(s, a[0]).0, a[1..], t, b, u);
      assert (a + b)[1..] == a[1..] + b;
    }
  }

  lemma {:induction false} CleanConcat(s: State, a: seq<Step>, t: State, b: seq<Step>, u: State)
    requires CleanRun(s, a, t) && CleanRun(t, b, u)
    ensures CleanRun(s, a + b, u)
    decreases |a|
  {
    hide Enabled, Next, Wraps;
    if a == [] {
      assert a + b == b;
    } else {
      CleanConcat(Next(s, a[0]).0, a[1..], t, b, u);
      assert (a + b)[1..] == a[1..] + b;
    }
  }

  // --------------------------------------------------------------- names, whatever the counts do

  /** Every directory has unique names and starts with its dots; names in use have nonzero inode numbers. */
  ghost predicate DirsOk(s: State) {
    0 !in s.nodes && forall d :: s.IsDir(d) ==> DirOk(s.Entries(d)) && Dotted(s.Entries(d), d)
  }

  /** One directory's entries change, or it is new. */
  lemma OneDir(s: State, u: State, d: nat)
    requires DirsOk(s) && d != 0 && (u.IsDir(d) ==> DirOk(u.Entries(d)) && Dotted(u.Entries(d), d))
    requires forall x :: x in u.nodes && x != d ==> x in s.nodes && u.nodes[x].node == s.nodes[x].node
    ensures DirsOk(u)
  {
    hide DirOk, Dotted;
    forall x | u.IsDir(x) ensures DirOk(u.Entries(x)) && Dotted(u.Entries(x), x) {
      if x != d { assert s.IsDir(x); }
    }
  }

  /** Counts, references and freed inodes have no bearing on names. */
  lemma FewerNodes(s: State, u: State)
    requires DirsOk(s) && forall x :: x in u.nodes ==> x in s.nodes && u.nodes[x].node == s.nodes[x].node
    ensures DirsOk(u)
  {
    hide DirOk, Dotted;
    forall x | u.IsDir(x) ensures DirOk(u.Entries(x)) && Dotted(u.Entries(x), x) {
      assert s.IsDir(x);
    }
  }

  lemma LinkNames(s: State, dp: nat, name: string, i: nat)
    requires DirsOk(s) && s.IsDir(dp) && NulFree(name) && i != 0 && Trunc(name) !in AsMap(s.Entries(dp))
    ensures DirsOk(s.Link(dp, name, i))
  {
    hide DirOk, Dotted, Linked, AsMap, Trunc;
    LinkedMap(s.Entries(dp), name, i, dp);
    OneDir(s, s.Link(dp, name, i), dp);
  }

  lemma CreatedNames(s: State, dp: nat, name: string, made: Node, inum: Option<nat>, room: bool)
    requires DirsOk(s) && AtDir(s, dp, name) && MayMake(s, dp, made, inum)
    ensures DirsOk(Created(s, dp, name, made, inum, room).0)
  {
    hide DirOk, Dotted, Linked, AsMap, Trunc, NewEntries;
    if Trunc(name) in AsMap(s.Entries(dp)) {
      var j := AsMap(s.Entries(dp))[Trunc(name)];
      FewerNodes(s, s.(held := s.held + multiset{j}));
    } else if inum.Some? && room {
      var i := inum.value;
      NewEntriesMap(i, dp);
      var u := s.(nodes := s.nodes[i := Inode(made, 1)], held := s.held + multiset{i});
      OneDir(s, u, i);
      LinkNames(u, dp, name, i);
      var v := u.Link(dp, name, i);
      FewerNodes(v, v.Count(dp, 1));
    }
  }

  lemma UnlinkedNames(s: State, dp: nat, name: string)
    requires DirsOk(s) && AtDir(s, dp, name)
    ensures DirsOk(Unlinked(s, dp, name).0)
  {
    hide DirOk, Dotted, Cleared, AsMap, Trunc, Named, EmptyDir;
    var t := Trunc(name);
    if !Dot(t) && t in AsMap(s.Entries(dp)) && Named(s.Entries(dp), t) {
      ClearedMap(s.Entries(dp), t, dp);
      OneDir(s, s.Clear(dp, t), dp);
      if Unlinked(s, dp, name).0 != s { FewerNodes(s.Clear(dp, t), Unlinked(s, dp, name).0); }
    }
  }

  /** Every step keeps names unique and the dots first, also one that makes a link count wrap. */
  lemma NextNames(s: State, a: Step)
    requires DirsOk(s) && Enabled(s, a)
    ensures DirsOk(Next(s, a).0)
  {
    hide DirOk, Dotted, Linked, AsMap, Trunc, Created, Unlinked, NewEntries;
    match a
    case Create(dp, name, made, inum, room) => CreatedNames(s, dp, name, made, inum, room);
    case Unlink(dp, name) => UnlinkedNames(s, dp, name);
    case Enter(ip, dp, name, room) =>
      if Trunc(name) in AsMap(s.Entries(dp)) || !room {
        FewerNodes(s, Withdrawn(s, ip));
      } else {
        LinkNames(s, dp, name, ip);
        var u := s.Link(dp, name, ip);
        FewerNodes(u, u.(promised := s.promised - multiset{ip}));
      }
    case Hold(i) => FewerNodes(s, Next(s, a).0);
    case Release(i) => FewerNodes(s, Next(s, a).0);
    case Promise(ip) => FewerNodes(s, Next(s, a).0);
    case Withdraw(ip) => FewerNodes(s, Next(s, a).0);
  }

  lemma MkfsNames()
    ensures DirsOk(Mkfs())
  {
    NewEntriesMap(ROOTINO, ROOTINO);
    hide DirOk, Dotted, NewEntries;
  }

  lemma {:induction false} RunKeepsNames(s: State, steps: seq<Step>, t: State)
    requires DirsOk(s) && Run(s, steps, t)
    ensures DirsOk(t)
    decreases |steps|
  {
    hide DirsOk, Next, Enabled;
    if steps != [] {
      NextNames(s, steps[0]);
      RunKeepsNames(Next(s, steps[0]).0, steps[1..], t);
    }
  }

  /**
    After every run from the root-only tree no directory has two entries in use
    with one name, its first two are its dots, and looking a name up in the map
    is looking it up among the entries.
  */
  lemma RunNames(steps: seq<Step>, t: State, d: nat, name: string)
    requires Run(Mkfs(), steps, t) && t.IsDir(d)
    ensures DirOk(t.Entries(d)) && Dotted(t.Entries(d), d)
    ensures name in AsMap(t.Entries(d)) <==> Named(t.Entries(d), name)
    ensures forall k :: 0 <= k < |t.Entries(d)| && Live(t.Entries(d)[k]) && NameOf(t.Entries(d)[k].name) == name ==>
      name in AsMap(t.Entries(d)) && AsMap(t.Entries(d))[name] == t.Entries(d)[k].inum
  {
    hide AsMap, Run, DirOk, Dotted, NameOf;
    MkfsNames();
    RunKeepsNames(Mkfs(), steps, t);
    MapHas(t.Entries(d), name);
  }

  // ------------------------------------------------------------------------- what follows

  /** dp has the name t, not one of the dots, and if it is a directory that has no names but its dots. */
  ghost predicate Removable(s: State, dp: nat, t: string)
    requires s.IsDir(dp)
  {
    !Dot(t) && t in AsMap(s.Entries(dp)) && NoMoreThanDots(s, AsMap(s.Entries(dp))[t])
  }

  ghost predicate NoMoreThanDots(s: State, j: nat) {
    s.IsDir(j) ==> AsMap(s.Entries(j)).Keys == {".", ".."}
  }

  /**
    sys_unlink's panic "nlink < 1" cannot happen, and it succeeds exactly for a
    name other than the dots whose inode is not a directory with names besides
    its dots.
  */
  lemma UnlinkAnswer(s: State, dp: nat, name: string)
    requires s.Inv() && AtDir(s, dp, name)
    ensures !Unlinked(s, dp, name).1.Panic?
    ensures Unlinked(s, dp, name).1.Ok? <==> Removable(s, dp, Trunc(name))
    ensures Removable(s, dp, Trunc(name)) ==> Unlinked(s, dp, name).1.ip == AsMap(s.Entries(dp))[Trunc(name)]
  {
    hide State.Shape, State.Counts, State.Links, State.Graph, State.Refs, State.Put, Trunc, Dot, DirOk, Dotted, AsMap;
    hide Cleared, Named, EmptyDir, NoMoreThanDots, LeadsBack;
    var t := Trunc(name);
    ShapeFacts(s, dp);
    MapHas(s.Entries(dp), t);
    if !Dot(t) && t in AsMap(s.Entries(dp)) {
      NameInGraph(s, dp, t);
      NameLeads(s, dp, t);
      EmptyInMap(s, AsMap(s.Entries(dp))[t]);
    }
  }

  lemma EmptyInMap(s: State, j: nat)
    requires s.Shape()
    ensures NoMoreThanDots(s, j) <==> (s.IsDir(j) ==> EmptyDir(s.Entries(j)))
  {
    hide AsMap, DirOk, Dotted;
    if s.IsDir(j) { EmptyMeans(s.Entries(j), j); }
  }

  /**
    Every name leads to an allocated inode, except possibly the .. of a directory
    that has no name itself.
  */
  lemma NamesResolve(s: State, d: nat, n: string)
    requires s.Inv() && s.IsDir(d) && n in AsMap(s.Entries(d))
    ensures n == "." ==> AsMap(s.Entries(d))[n] == d
    ensures n != ".." || d == ROOTINO || NamesOf(s.Graph(), d) != {} ==> AsMap(s.Entries(d))[n] in s.nodes
  {
    hide State.Shape, State.Counts, State.Graph, State.Refs, State.Links, AsMap, NamesOf, Dotted, DirOk, LeadsBack;
    ShapeFacts(s, d);
    DottedMap(s.Entries(d), d);
    if n == ".." {
      if d == ROOTINO {
        RootIsThere(s);
      } else if NamesOf(s.Graph(), d) != {} {
        var p :| p in NamesOf(s.Graph(), d);
        NameMember(s.Graph(), d, p);
        ParentIsThere(s, p.0, p.1);
      }
    } else if n != "." {
      NameLeads(s, d, n);
    }
  }

  /** The .. of a directory named in p is p. */
  lemma ParentIsThere(s: State, p: nat, t: string)
    requires s.Inv() && p in s.Graph() && t in s.Graph()[p] && !Dot(t)
    ensures var d := s.Graph()[p][t]; d in s.Graph() ==> ".." in s.Graph()[d] && s.Graph()[d][".."] == p
    ensures p in s.nodes && s.IsDir(p)
  {
    hide State.Shape, State.Counts, State.Graph, State.Refs, State.Links;
    GraphKeys(s, p);
    NameLeads(s, p, t);
  }

  lemma RootIsThere(s: State)
    requires s.Links() && s.Shape()
    ensures ROOTINO in s.Graph() && ".." in s.Graph()[ROOTINO] && s.Graph()[ROOTINO][".."] == ROOTINO
    ensures ROOTINO in s.nodes
  {
    hide State.Graph;
  }

  /** Directory d is k names below the root. */
  ghost predicate Attached(g: Graph, d: nat, k: nat)
    decreases k
  {
    if k == 0 then d == ROOTINO
    else exists p, n :: p in g && n in g[p] && !Dot(n) && g[p][n] == d && Attached(g, p, k - 1)
  }

  /** The .. of an attached directory is attached. */
  lemma AttachedUp(s: State, d: nat, k: nat) returns (k': nat)
    requires s.Inv() && s.IsDir(d) && Attached(s.Graph(), d, k)
    ensures ".." in AsMap(s.Entries(d))
    ensures var p := AsMap(s.Entries(d))[".."]; s.IsDir(p) && Attached(s.Graph(), p, k')
  {
    hide State.Shape, State.Counts, State.Graph, State.Refs, State.Links, AsMap;
    GraphKeys(s, d);
    if k == 0 {
      RootIsThere(s);
      GraphKeys(s, ROOTINO);
      k' := 0;
    } else {
      var g := s.Graph();
      var p, n :| p in g && n in g[p] && !Dot(n) && g[p][n] == d && Attached(g, p, k - 1);
      ParentIsThere(s, p, n);
      k' := k - 1;
    }
  }

  /** A walk that starts at an attached directory never meets ilock's panic. */
  lemma {:induction false} WalkSafe(s: State, ip: nat, k: nat, elems: seq<string>, parent: bool)
    requires s.Inv() && ip in s.nodes && (s.IsDir(ip) ==> Attached(s.Graph(), ip, k))
    ensures Walk(s.Tree(), ip, elems, parent) != Stuck
    decreases |elems|
  {
    hide State.Inv, State.Graph, Attached, AsMap, Trunc;
    if elems != [] && s.IsDir(ip) && !(parent && |elems| == 1) && Trunc(elems[0]) in AsMap(s.Entries(ip)) {
      var j, k' := WalkOne(s, ip, k, Trunc(elems[0]));
      WalkSafe(s, j, k', elems[1..], parent);
    }
  }

  lemma WalkOne(s: State, d: nat, k: nat, t: string) returns (j: nat, k': nat)
    requires s.Inv() && s.IsDir(d) && Attached(s.Graph(), d, k) && t in AsMap(s.Entries(d))
    ensures j == AsMap(s.Entries(d))[t] && j in s.nodes && (s.IsDir(j) ==> Attached(s.Graph(), j, k'))
  {
    hide State.Shape, State.Counts, State.Graph, State.Refs, State.Links, AsMap, Attached;
    j := AsMap(s.Entries(d))[t];
    NamesResolve(s, d, t);
    GraphKeys(s, d);
    if t == "." {
      k' := k;
    } else if t == ".." {
      k' := AttachedUp(s, d, k);
    } else {
      k' := k + 1;
      AttachedDown(s.Graph(), d, k, t);
    }
  }

  lemma AttachedDown(g: Graph, d: nat, k: nat, t: string)
    requires Attached(g, d, k) && d in g && t in g[d] && !Dot(t)
    ensures Attached(g, g[d][t], k + 1)
  {
  }

  /** In a tree that any run without a wrapped count leaves, absolute paths never panic. */
  lemma AbsolutePathsSafe(steps: seq<Step>, s: State, elems: seq<string>, parent: bool)
    requires CleanRun(Mkfs(), steps, s)
    ensures NamesOk(s.Tree()) && Walk(s.Tree(), ROOTINO, elems, parent) != Stuck
  {
    RunInv(steps, s);
    NamesOkFromShape(s);
    NotZero(s, ROOTINO);
    hide State.Inv, Run, NoWrap, Walk;
    WalkSafe(s, ROOTINO, 0, elems, parent);
  }

  lemma NamesOkFromShape(s: State)
    requires s.Shape()
    ensures NamesOk(s.Tree())
  {
    hide DirOk, Dotted;
    forall i | i in s.Tree() && s.Tree()[i].DirNode? ensures DirOk(s.Tree()[i].entries) {
      assert s.IsDir(i);
    }
  }
}
