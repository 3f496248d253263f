module DirTree {
  // The directory tree as create, link, unlink and iput of any processes change it.
  // Every step is one critical section under the locks of the inodes it touches.
  //
  // held counts references to in-memory inodes between steps: current directories,
  // open files, and the result of a namei a system call has not put back yet.
  // promised counts links in the making: sys_link has raised nlink and not yet
  // entered the name. An inode without links and without references is freed.

  import opened Wrappers
  import opened Directory
  import opened PathWalk
  import opened DirGraph

  const NLINK_MAX := 32767

  datatype Inode = Inode(node: Node, nlink: int)

  /** Arithmetic on a short. */
  function Short(n: int): int {
    (n + 32768) % 65536 - 32768
  }

  datatype State = State(nodes: map<nat, Inode>, held: multiset<nat>, promised: multiset<nat>) {
    predicate IsDir(i: nat) {
      i in nodes && nodes[i].node.DirNode?
    }

    function Entries(d: nat): Entries
      requires IsDir(d)
    {
      nodes[d].node.entries
    }

    ghost function Graph(): Graph {
      map d | d in nodes && nodes[d].node.DirNode? :: AsMap(nodes[d].node.entries)
    }

    function Tree(): Tree {
      map i | i in nodes :: nodes[i].node
    }

    /** Directories have unique names and start with . and .., and . is the directory itself. */
    ghost predicate Shape() {
      && 0 !in nodes && IsDir(ROOTINO)
      && (forall d :: IsDir(d) ==> DirOk(Entries(d)) && Dotted(Entries(d), d))
    }

    /** What the link count of i must cover: its names, the .. of its subdirectories, promised links, the root. */
    ghost function Due(i: nat): nat {
      |NamesOf(Graph(), i)| + |Subdirs(Graph(), i)| + promised[i] + (if i == ROOTINO then 1 else 0)
    }

    ghost predicate Counts() {
      forall i :: i in nodes ==> Due(i) <= nodes[i].nlink <= NLINK_MAX
    }

    /** Names lead to allocated inodes, and the .. of a named directory leads back. */
    ghost predicate Links() {
      var g := Graph();
      && (forall d, n :: d in g && n in g[d] && !Dot(n) ==> LeadsBack(g, d, g[d][n]) && g[d][n] in nodes)
      && ROOTINO in g && ".." in g[ROOTINO] && g[ROOTINO][".."] == ROOTINO
    }

    /** References are to allocated inodes; a promised link is to a file and comes with a reference. */
    ghost predicate Refs() {
      && (forall i :: i in held ==> i in nodes)
      && (forall i :: i in promised ==> !IsDir(i))
      && (forall i :: promised[i] <= held[i])
    }

    /** An inode without links is still allocated only because somebody holds it. */
    ghost predicate NoneLost(except: nat) {
      forall i :: i in nodes && i != except && nodes[i].nlink == 0 ==> i in held
    }

    ghost predicate Inv() {
      Shape() && Counts() && Links() && Refs() && NoneLost(0)
    }

    // The changes.

    function Link(dp: nat, name: string, i: nat): State
      requires IsDir(dp)
    {
      this.(nodes := nodes[dp := nodes[dp].(node := DirNode(Linked(Entries(dp), name, i)))])
    }

    ghost function Clear(dp: nat, t: string): State
      requires IsDir(dp) && Named(Entries(dp), t)
    {
      this.(nodes := nodes[dp := nodes[dp].(node := DirNode(Cleared(Entries(dp), t)))])
    }

    function Count(i: nat, n: int): State
      requires i in nodes
    {
      this.(nodes := nodes[i := nodes[i].(nlink := Short(nodes[i].nlink + n))])
    }

    /** The end of iput: the last reference to an inode without links frees it. */
    function Put(i: nat): State {
      if i in nodes && nodes[i].nlink == 0 && i !in held then this.(nodes := nodes - {i}) else this
    }
  }

  /** A name for i in d: i is not the root, and if it is a directory its .. is d. */
  ghost predicate LeadsBack(g: Graph, d: nat, i: nat) {
    && i != ROOTINO && i != 0
    && (i in g ==> i != d && ".." in g[i] && g[i][".."] == d)
  }

  /** mkfs: a root directory. */
  function Mkfs(): State {
    State(map[ROOTINO := Inode(DirNode(NewEntries(ROOTINO, ROOTINO)), 1)], multiset{}, multiset{})
  }

  // ---------------------------------------------------------------------------- the steps

  datatype Step =
    | Hold(i: nat)                                     // iget, idup
    | Release(i: nat)                                  // iput
    | Create(dp: nat, name: string, made: Node, inum: Option<nat>, room: bool)
    | Promise(ip: nat)                                 // sys_link: ip->nlink++
    | Enter(ip: nat, dp: nat, name: string, room: bool)  // sys_link: dirlink
    | Withdraw(ip: nat)                                // sys_link: bad
    | Unlink(dp: nat, name: string)

  datatype Answer = Ok(ip: nat) | Fail | Panic

  /** The caller of a step on a directory holds it. */
  ghost predicate AtDir(s: State, dp: nat, name: string) {
    dp in s.held && s.IsDir(dp) && NulFree(name)
  }

  ghost predicate Enabled(s: State, a: Step) {
    match a
    case Hold(i) => i in s.nodes
    case Release(i) => s.promised[i] < s.held[i]
    case Create(dp, name, made, inum, _) => AtDir(s, dp, name) && MayMake(s, dp, made, inum)
    case Promise(ip) => s.promised[ip] < s.held[ip] && ip in s.nodes
    case Enter(ip, dp, name, _) => ip in s.promised && ip in s.nodes && AtDir(s, dp, name)
    case Withdraw(ip) => ip in s.promised && ip in s.nodes
    case Unlink(dp, name) => AtDir(s, dp, name)
  }

  /** ialloc returns a free inode, or none; a new directory holds its dots. */
  predicate MayMake(s: State, dp: nat, made: Node, inum: Option<nat>) {
    inum.Some? ==>
      && inum.value != 0 && inum.value !in s.nodes
      && (made.DirNode? ==> made.entries == NewEntries(inum.value, dp))
  }

  /** nlink is a short: the step raises one that has reached its maximum. */
  ghost predicate Wraps(s: State, a: Step) {
    match a
    case Promise(ip) => ip in s.nodes && !s.IsDir(ip) && s.nodes[ip].nlink == NLINK_MAX
    case Create(dp, name, made, inum, room) => CreateWraps(s, dp, name, made, inum, room)
    case _ => false
  }

  /** mkdir succeeds in a directory whose link count is at its maximum. */
  ghost predicate CreateWraps(s: State, dp: nat, name: string, made: Node, inum: Option<nat>, room: bool) {
    && s.IsDir(dp) && made.DirNode? && inum.Some? && room
    && Trunc(name) !in AsMap(s.Entries(dp)) && s.nodes[dp].nlink == NLINK_MAX
  }

  ghost function Next(s: State, a: Step): (State, Answer)
    requires Enabled(s, a)
  {
    match a
    case Hold(i) => (s.(held := s.held + multiset{i}), Ok(i))
    case Release(i) => (s.(held := s.held - multiset{i}).Put(i), Ok(i))
    case Create(dp, name, made, inum, room) => Created(s, dp, name, made, inum, room)
    case Promise(ip) =>
      if s.IsDir(ip) then (s, Fail) else (s.Count(ip, 1).(promised := s.promised + multiset{ip}), Ok(ip))
    case Enter(ip, dp, name, room) =>
      if Trunc(name) in AsMap(s.Entries(dp)) || !room then (Withdrawn(s, ip), Fail)
      else (s.Link(dp, name, ip).(promised := s.promised - multiset{ip}), Ok(ip))
    case Withdraw(ip) => (Withdrawn(s, ip), Fail)
    case Unlink(dp, name) => Unlinked(s, dp, name)
  }

  /** The step may be taken in s and leads to t with answer r. */
  ghost predicate Does(s: State, a: Step, t: State, r: Answer) {
    Enabled(s, a) && Next(s, a) == (t, r)
  }

  function Withdrawn(s: State, ip: nat): State
    requires ip in s.nodes
  {
    s.Count(ip, -1).(promised := s.promised - multiset{ip})
  }

  /** create: an existing file may be reused; a new inode is linked, and freed again when that fails. */
  ghost function Created(s: State, dp: nat, name: string, made: Node, inum: Option<nat>, room: bool): (State, Answer)
    requires s.IsDir(dp) && MayMake(s, dp, made, inum)
  {
    var t := Trunc(name);
    if t in AsMap(s.Entries(dp)) then
      var j := AsMap(s.Entries(dp))[t];
      if j !in s.nodes then (s, Panic)
      else if made.FileNode? && !s.IsDir(j) then (s.(held := s.held + multiset{j}), Ok(j))
      else (s, Fail)
    else if inum.None? || !room then (s, Fail)
    else
      var i := inum.value;
      var u := s.(nodes := s.nodes[i := Inode(made, 1)], held := s.held + multiset{i}).Link(dp, name, i);
      (if made.DirNode? then u.Count(dp, 1) else u, Ok(i))
  }

  /** sys_unlink. */
  ghost function Unlinked(s: State, dp: nat, name: string): (State, Answer)
    requires s.IsDir(dp)
  {
    var t := Trunc(name);
    if Dot(t) || t !in AsMap(s.Entries(dp)) || !Named(s.Entries(dp), t) then (s, Fail)
    else
      var j := s.Entries(dp)[IndexOf(s.Entries(dp), t)].inum;
      if j !in s.nodes || s.nodes[j].nlink < 1 then (s, Panic)
      else if s.IsDir(j) && !EmptyDir(s.Entries(j)) then (s, Fail)
      else
        var u := s.Clear(dp, t);
        var v := if s.IsDir(j) then u.Count(dp, -1) else u;
        (v.Count(j, -1).Put(j), Ok(j))
  }

  predicate EmptyDir(d: Entries) {
    forall i :: 2 <= i < |d| ==> !Live(d[i])
  }
}
