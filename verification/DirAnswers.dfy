module DirAnswers {
  // What create, link, unlink and iput answer and change, in terms of the maps that
  // directories are and of the inodes, from any state the tree can be in.

  import opened Wrappers
  import opened Directory
  import opened PathWalk
  import opened DirGraph
  import opened DirTree
  import opened DirTreeProof

  /** The names of directory d. */
  ghost function NamesIn(s: State, d: nat): map<string, nat>
    requires s.IsDir(d)
  {
    AsMap(s.Entries(d))
  }

  /** Inodes other than those in except are as before. */
  ghost predicate OthersKept(s: State, t: State, except: set<nat>) {
    forall i :: i !in except ==> (i in t.nodes <==> i in s.nodes) && (i in s.nodes ==> t.nodes[i] == s.nodes[i])
  }

  /** The kind of an inode: a directory, a file or a device. */
  predicate SameKind(a: Node, b: Node) {
    (a.DirNode? <==> b.DirNode?) && (a.FileNode? <==> b.FileNode?)
  }

  /**
    create of a name that is there: the inode, with one more reference, if and
    only if a file was asked for and it is no directory.
  */
  lemma CreateFound(s: State, dp: nat, name: string, made: Node, inum: Option<nat>, room: bool)
    requires s.Inv() && AtDir(s, dp, name) && MayMake(s, dp, made, inum) && Trunc(name) in NamesIn(s, dp)
    ensures var (u, r), j := Created(s, dp, name, made, inum, room), NamesIn(s, dp)[Trunc(name)];
      && (r == Ok(j) <==> j in s.nodes && made.FileNode? && !s.IsDir(j))
      && (r.Ok? ==> r.ip == j && u == s.(held := s.held[j := s.held[j] + 1]))
      && (r.Fail? <==> j in s.nodes && (!made.FileNode? || s.IsDir(j)))
      && (!r.Ok? ==> u == s)
  {
    hide State.Inv, AsMap, Trunc, NewEntries, Linked;
  }

  /** What a new inode i under the name t of directory dp changes. */
  ghost predicate Entered(s: State, u: State, dp: nat, t: string, i: nat, made: Node) {
    && i !in s.nodes && i in u.nodes && SameKind(u.nodes[i].node, made) && u.nodes[i].nlink == 1
    && s.IsDir(dp) && u.IsDir(dp) && dp != i && NamesIn(u, dp) == NamesIn(s, dp)[t := i]
    && (made.DirNode? ==> u.IsDir(i) && NamesIn(u, i) == map["." := i, ".." := dp])
    && u.nodes[dp].nlink == (if made.DirNode? then Short(s.nodes[dp].nlink + 1) else s.nodes[dp].nlink)
    && OthersKept(s, u, {dp, i}) && u.held == s.held[i := s.held[i] + 1] && u.promised == s.promised
  }

  /**
    create of a name that is not there: a number that was free, of the kind asked
    for and with the name, if and only if there were an inode and room.
  */
  lemma CreateNew(s: State, dp: nat, name: string, made: Node, inum: Option<nat>, room: bool)
    requires s.Inv() && AtDir(s, dp, name) && MayMake(s, dp, made, inum) && Trunc(name) !in NamesIn(s, dp)
    ensures var (u, r) := Created(s, dp, name, made, inum, room);
      && (r.Ok? <==> inum.Some? && room)
      && (r.Ok? ==> Entered(s, u, dp, Trunc(name), r.ip, made))
      && (!r.Ok? ==> r.Fail? && u == s)
  {
    hide State.Inv, AsMap, Trunc, NewEntries, DirOk, Dotted, NulFree;
    if inum.Some? && room {
      var i := inum.value;
      EntriesFacts(s, dp);
      LinkedMap(s.Entries(dp), name, i, dp);
      NewEntriesMap(i, dp);
      hide Linked;
    }
  }

  lemma EntriesFacts(s: State, dp: nat)
    requires s.Inv() && s.IsDir(dp)
    ensures DirOk(s.Entries(dp)) && Dotted(s.Entries(dp), dp) && dp != 0
  {
    hide DirOk, Dotted, AsMap;
  }

  /** sys_link's first half: one more link for anything but a directory. */
  lemma PromiseAnswer(s: State, ip: nat)
    requires s.Inv() && Enabled(s, Promise(ip))
    ensures var (u, r) := Next(s, Promise(ip));
      && (r.Ok? <==> !s.IsDir(ip)) && (!r.Ok? ==> r.Fail? && u == s)
      && (r.Ok? ==> r.ip == ip && ip in u.nodes && u.nodes[ip] == s.nodes[ip].(nlink := Short(s.nodes[ip].nlink + 1)))
      && OthersKept(s, u, {ip}) && u.held == s.held
      && (r.Ok? ==> u.promised == s.promised[ip := s.promised[ip] + 1])
  {
    hide State.Inv;
  }

  /**
    sys_link's second half: the name leads to the inode if and only if it was not
    there and there was room; otherwise the link count is taken back.
  */
  lemma EnterAnswer(s: State, ip: nat, dp: nat, name: string, room: bool)
    requires s.Inv() && Enabled(s, Enter(ip, dp, name, room))
    ensures var (u, r), t := Next(s, Enter(ip, dp, name, room)), Trunc(name);
      && (r.Ok? <==> t !in NamesIn(s, dp) && room) && (!r.Ok? ==> r.Fail?) && u.held == s.held && u.IsDir(dp)
      && u.promised == s.promised[ip := s.promised[ip] - 1]
      && (r.Ok? ==> NamesIn(u, dp) == NamesIn(s, dp)[t := ip] && OthersKept(s, u, {dp})
                    && u.nodes[dp].nlink == s.nodes[dp].nlink)
      && (!r.Ok? ==> OthersKept(s, u, {ip}) && ip in u.nodes
                     && u.nodes[ip] == s.nodes[ip].(nlink := Short(s.nodes[ip].nlink - 1)))
  {
    hide State.Inv, AsMap, Trunc, DirOk, Dotted, NulFree;
    PromisedFile(s, ip, dp);
    EntriesFacts(s, dp);
    if Trunc(name) !in NamesIn(s, dp) { LinkedMap(s.Entries(dp), name, ip, dp); }
    hide Linked;
  }

  lemma PromisedFile(s: State, ip: nat, dp: nat)
    requires s.Inv() && ip in s.promised && s.IsDir(dp)
    ensures !s.IsDir(ip) && ip != dp && ip in s.nodes && ip != 0
  {
    hide State.Counts, State.Links, DirOk, Dotted;
  }

  /** What removing the name t of directory dp, which leads to j, changes. */
  ghost predicate Removed(s: State, u: State, dp: nat, t: string, j: nat) {
    && s.IsDir(dp) && u.IsDir(dp) && j in s.nodes && j != dp
    && NamesIn(u, dp) == NamesIn(s, dp) - {t}
    && u.nodes[dp].nlink == s.nodes[dp].nlink - (if s.IsDir(j) then 1 else 0)
    && (j in u.nodes <==> s.nodes[j].nlink > 1 || j in s.held)
    && (j in u.nodes ==> u.nodes[j] == s.nodes[j].(nlink := s.nodes[j].nlink - 1))
    && OthersKept(s, u, {dp, j}) && u.held == s.held && u.promised == s.promised
  }

  /** unlink removes exactly the name, one link and an inode nobody needs any more, or changes nothing. */
  lemma UnlinkEffect(s: State, dp: nat, name: string)
    requires s.Inv() && AtDir(s, dp, name)
    ensures var (u, r) := Unlinked(s, dp, name);
      if Removable(s, dp, Trunc(name)) then
        r == Ok(NamesIn(s, dp)[Trunc(name)]) && Removed(s, u, dp, Trunc(name), NamesIn(s, dp)[Trunc(name)])
      else r.Fail? && u == s
  {
    hide State.Inv, AsMap, Trunc, DirOk, Dotted, NulFree, Removable, Cleared, Named, Dot, EmptyDir;
    UnlinkAnswer(s, dp, name);
    if Removable(s, dp, Trunc(name)) {
      var t := Trunc(name);
      var j := NamesIn(s, dp)[t];
      RemovableFacts(s, dp, t);
      EntriesFacts(s, dp);
      ClearedMap(s.Entries(dp), t, dp);
    }
  }

  lemma RemovableFacts(s: State, dp: nat, t: string)
    requires s.Inv() && s.IsDir(dp) && Removable(s, dp, t)
    ensures !Dot(t) && t in NamesIn(s, dp) && Named(s.Entries(dp), t)
    ensures var j := NamesIn(s, dp)[t];
      && j in s.nodes && j != dp && 1 <= s.nodes[j].nlink <= NLINK_MAX
      && 0 <= s.nodes[dp].nlink - (if s.IsDir(j) then 1 else 0) && s.nodes[dp].nlink <= NLINK_MAX
  {
    hide State.Shape, State.Counts, State.Links, State.Graph, State.Refs, AsMap, DirOk, Dotted, Named;
    ShapeFacts(s, dp);
    MapHas(s.Entries(dp), t);
    NameInGraph(s, dp, t);
    NameLeads(s, dp, t);
    var j := NamesIn(s, dp)[t];
    CountBound(s, j);
    CountBound(s, dp);
    if s.IsDir(j) { SubdirCounts(s, dp, t); }
  }

  /** The .. of a directory is a link to the directory it is in. */
  lemma SubdirCounts(s: State, d: nat, t: string)
    requires s.Counts() && d in s.nodes && d in s.Graph() && t in s.Graph()[d] && !Dot(t) && s.IsDir(s.Graph()[d][t])
    ensures s.nodes[d].nlink >= 1
  {
    var g := s.Graph();
    GraphKeys(s, g[d][t]);
    hide State.Graph, NamesOf;
    assert t in Subdirs(g, d);
    assert |Subdirs(g, d)| >= 1;
  }

  /** iput frees an inode if and only if that was the last reference and it has no links. */
  lemma ReleaseAnswer(s: State, i: nat)
    requires s.Inv() && Enabled(s, Release(i))
    ensures var (u, _) := Next(s, Release(i));
      && i in s.nodes && u.held == s.held[i := s.held[i] - 1] && OthersKept(s, u, {i})
      && (i !in u.nodes <==> s.held[i] == 1 && s.nodes[i].nlink == 0)
      && (i in u.nodes ==> u.nodes[i] == s.nodes[i])
  {
    hide State.Shape, State.Counts, State.Links;
  }
}
