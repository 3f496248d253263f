/**
  create, the two halves of sys_link, sys_unlink and iput on the inode table. Each
  method does one step of DirTree; room says whether writei can store an entry.
*/
module FileTree {
  import opened Wrappers
  import opened Directory
  import opened PathWalk
  import opened DirGraph
  import opened DirTree
  import opened DirTreeProof

  datatype Kind = Folder | Plain | Special

  /** What ialloc and create make of a new inode. */
  function Made(kind: Kind, i: nat, dp: nat): Node {
    match kind
    case Folder => DirNode(NewEntries(i, dp))
    case Plain => FileNode
    case Special => DeviceNode
  }

  class InodeTable {
    const ninodes: nat
    var nodes: map<nat, Inode>
    var ref: multiset<nat>
    ghost var promised: multiset<nat>

    ghost function Table(): State
      reads this
    {
      State(nodes, ref, promised)
    }

    ghost predicate Valid()
      reads this
    {
      Table().Inv()
    }

    constructor (n: nat)
      ensures Valid() && Table() == Mkfs() && ninodes == n
    {
      ninodes := n;
      nodes := Mkfs().nodes;
      ref, promised := multiset{}, multiset{};
      new;
      hide State.Inv, NewEntries;
      MkfsInv();
    }

    /** No inode is free. */
    predicate Full(nodes: map<nat, Inode>) {
      forall i :: 0 < i < ninodes ==> i in nodes
    }

    /** ialloc: the first free inode number. */
    method Ialloc() returns (r: Option<nat>)
      ensures r.Some? ==> 0 < r.value < ninodes && r.value !in nodes && forall i :: 0 < i < r.value ==> i in nodes
      ensures r.None? ==> Full(nodes)
    {
      var inum := 1;
      while inum < ninodes
        invariant 0 < inum && forall i :: 0 < i < inum ==> i in nodes
      {
        if inum !in nodes {
          return Some(inum);
        }
        inum := inum + 1;
      }
      return None;
    }

    /** iput of one reference. */
    method Iput(i: nat)
      requires Valid() && Enabled(Table(), Release(i))
      modifies this
      ensures Valid() && Does(old(Table()), Release(i), Table(), Ok(i))
    {
      hide State.Inv;
      ReleaseInv(Table(), i);
      ref := ref - multiset{i};
      if i in nodes && nodes[i].nlink == 0 && i !in ref {
        nodes := nodes - {i};
      }
    }

    /** The directory's entries, sound because the table is. */
    lemma EntriesOk(dp: nat)
      requires Valid() && Table().IsDir(dp)
      ensures DirOk(Table().Entries(dp))
    {
      ShapeFacts(Table(), dp);
    }

    /** create: the inode, with a reference for the caller; Panic is ilock's "no type". */
    method Create(dp: nat, name: string, kind: Kind, room: bool) returns (r: Answer, ghost inum: Option<nat>)
      requires Valid() && AtDir(Table(), dp, name)
      modifies this
      ensures var a := Step.Create(dp, name, Made(kind, if inum.Some? then inum.value else 0, dp), inum, room);
        Does(old(Table()), a, Table(), r) && (Valid() <==> !Wraps(old(Table()), a))
      ensures inum.None? && r.Fail? && room ==> Trunc(name) in AsMap(old(nodes[dp].node.entries)) || Full(old(nodes))
    {
      hide State.Inv, AsMap, Trunc, NewEntries, Linked;
      ghost var s := Table();
      EntriesOk(dp);
      inum := None;
      var found := Dirlookup(nodes[dp].node.entries, name);
      if found.Some? {
        CreatedInv(s, dp, name, FileNode, inum, room);
        var j := nodes[dp].node.entries[found.value].inum;
        if j !in nodes {
          return Panic, inum;
        }
        if kind.Plain? && !nodes[j].node.DirNode? {
          ref := ref + multiset{j};
          return Ok(j), inum;
        }
        return Fail, inum;
      }
      var got := Ialloc();
      if got.None? || !room {
        return Fail, inum;
      }
      var i := got.value;
      inum := got;
      CreatedInv(s, dp, name, Made(kind, i, dp), inum, room);
      nodes := nodes[i := Inode(Made(kind, i, dp), 1)];
      ref := ref + multiset{i};
      nodes := nodes[dp := nodes[dp].(node := DirNode(Linked(nodes[dp].node.entries, name, i)))];
      if kind.Folder? {
        nodes := nodes[dp := nodes[dp].(nlink := Short(nodes[dp].nlink + 1))];
      }
      return Ok(i), inum;
    }

    /** sys_link up to the increment of nlink. */
    method LinkStart(ip: nat) returns (r: Answer)
      requires Valid() && Enabled(Table(), Promise(ip))
      modifies this
      ensures Does(old(Table()), Promise(ip), Table(), r)
      ensures Valid() <==> !Wraps(old(Table()), Promise(ip))
    {
      hide State.Inv;
      if nodes[ip].node.DirNode? {
        return Fail;
      }
      PromisedInv(Table(), ip);
      CountBound(Table(), ip);
      nodes := nodes[ip := nodes[ip].(nlink := Short(nodes[ip].nlink + 1))];
      promised := promised + multiset{ip};
      return Ok(ip);
    }

    /** sys_link's dirlink, and its undoing when that fails. */
    method LinkFinish(ip: nat, dp: nat, name: string, room: bool) returns (r: Answer)
      requires Valid() && Enabled(Table(), Enter(ip, dp, name, room))
      modifies this
      ensures Valid() && Does(old(Table()), Enter(ip, dp, name, room), Table(), r)
    {
      hide State.Inv, AsMap, Trunc, Linked;
      EntriesOk(dp);
      NextInv(Table(), Enter(ip, dp, name, room));
      var ret, d := Dirlink(nodes[dp].node.entries, name, ip, room);
      promised := promised - multiset{ip};
      if ret < 0 {
        nodes := nodes[ip := nodes[ip].(nlink := Short(nodes[ip].nlink - 1))];
        return Fail;
      }
      nodes := nodes[dp := nodes[dp].(node := DirNode(d))];
      return Ok(ip);
    }

    /** sys_unlink's search: not for the dots. */
    method FindName(dp: nat, name: string) returns (off: Option<nat>)
      requires Table().IsDir(dp) && DirOk(nodes[dp].node.entries) && NulFree(name)
      ensures off.None? <==> Dot(Trunc(name)) || Trunc(name) !in AsMap(nodes[dp].node.entries)
      ensures off.Some? ==>
        && Named(nodes[dp].node.entries, Trunc(name)) && off.value == IndexOf(nodes[dp].node.entries, Trunc(name))
    {
      hide AsMap, Trunc, Named, DirOk, NameOf;
      PadRoundTrip(".");
      PadRoundTrip("..");
      ShortNames();
      var dot := Namecmp(name, Pad("."));
      var dotdot := Namecmp(name, Pad(".."));
      if dot || dotdot {
        return None;
      }
      off := Dirlookup(nodes[dp].node.entries, name);
      if off.Some? {
        SameIndex(nodes[dp].node.entries, Trunc(name), off.value);
      }
    }

    /** sys_unlink below nameiparent. */
    method Unlink(dp: nat, name: string) returns (r: Answer)
      requires Valid() && AtDir(Table(), dp, name)
      modifies this
      ensures Valid() && Does(old(Table()), Step.Unlink(dp, name), Table(), r) && !r.Panic?
    {
      hide State.Inv, AsMap, Trunc, Named, DirOk, Cleared, NameOf, Removable;
      ghost var s, t := Table(), Trunc(name);
      EntriesOk(dp);
      UnlinkedInv(s, dp, name);
      UnlinkAnswer(s, dp, name);
      var found := FindName(dp, name);
      if found.None? {
        return Fail;
      }
      assert t in AsMap(s.Entries(dp)) && !Dot(t);
      var off := found.value;
      var j := nodes[dp].node.entries[off].inum;
      if j !in nodes || nodes[j].nlink < 1 {
        return Panic;
      }
      if nodes[j].node.DirNode? {
        var empty := IsDirEmpty(nodes[j].node.entries);
        if !empty {
          return Fail;
        }
      }
      ClearedAt(s.Entries(dp), t, off);
      nodes := nodes[dp := nodes[dp].(node := DirNode(nodes[dp].node.entries[off := Dirent(0, Pad([]))]))];
      if nodes[j].node.DirNode? {
        nodes := nodes[dp := nodes[dp].(nlink := Short(nodes[dp].nlink - 1))];
      }
      nodes := nodes[j := nodes[j].(nlink := Short(nodes[j].nlink - 1))];
      if nodes[j].nlink == 0 && j !in ref {
        nodes := nodes - {j};
      }
      return Ok(j);
    }
  }

  lemma ShortNames()
    ensures Trunc(".") == "." && Trunc("..") == ".."
  {
  }

  /** Names are unique, so dirlookup finds the entry. */
  lemma SameIndex(d: Entries, t: string, i: nat)
    requires DirOk(d) && i < |d| && Live(d[i]) && NameOf(d[i].name) == t
    ensures Named(d, t) && IndexOf(d, t) == i
  {
    hide NameOf;
    assert Named(d, t);
    var k := IndexOf(d, t);
    assert !(k < i) && !(i < k);
  }

  lemma ClearedAt(d: Entries, t: string, i: nat)
    requires Named(d, t) && IndexOf(d, t) == i
    ensures Cleared(d, t) == d[i := Dirent(0, Pad([]))]
  {
  }
}
