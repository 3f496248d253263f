/**
  Path names: skipelem and namex. A path is a NUL-free string; a directory tree
  is a map from inode number to directory entries or to something else. refs
  counts the references to in-memory inodes that iget and idup take and iput
  drops.
*/
module PathWalk {
  import opened Wrappers
  import opened Directory

  const ROOTINO := 1

  datatype Node = DirNode(entries: Entries) | FileNode | DeviceNode

  /** The allocated inodes. */
  type Tree = map<nat, Node>

  /** Every directory has unique names. */
  ghost predicate NamesOk(t: Tree) {
    forall i :: i in t && t[i].DirNode? ==> DirOk(t[i].entries)
  }

  /** The length of the first element. */
  function ElemEnd(p: string): (n: nat)
    ensures n <= |p| && (forall i :: 0 <= i < n ==> p[i] != '/') && (n < |p| ==> p[n] == '/')
  {
    if p == [] || p[0] == '/' then 0 else 1 + ElemEnd(p[1..])
  }

  /** The slash-separated elements of a path. */
  function Elems(p: string): seq<string> {
    if p == [] then []
    else if p[0] == '/' then Elems(p[1..])
    else [p[..ElemEnd(p)]] + Elems(p[ElemEnd(p)..])
  }

  lemma {:induction false} SkipSlashes(p: string, i: nat)
    requires i <= |p| && forall j :: 0 <= j < i ==> p[j] == '/'
    ensures Elems(p[i..]) == Elems(p)
    decreases i
  {
    if i > 0 {
      SkipSlashes(p[1..], i - 1);
      assert p[1..][i - 1..] == p[i..];
    } else {
      assert p[0..] == p;
    }
  }

  /** Past the slashes from position i on. */
  method Slashes(p: string, i: nat) returns (j: nat)
    requires i <= |p|
    ensures i <= j <= |p| && (j < |p| ==> p[j] != '/') && Elems(p[j..]) == Elems(p[i..])
  {
    j := i;
    while j < |p| && p[j] == '/'
      invariant i <= j <= |p| && forall k :: i <= k < j ==> p[k] == '/'
    {
      j := j + 1;
    }
    var q := p[i..];
    SkipSlashes(q, j - i);
    assert q[j - i..] == p[j..];
  }

  /** skipelem: None is the null pointer; otherwise the element, cut to DIRSIZ, and the rest of the path. */
  method Skipelem(path: string) returns (r: Option<string>, name: string)
    ensures r.None? <==> Elems(path) == []
    ensures r.Some? ==> name == Trunc(Elems(path)[0]) && Elems(r.value) == Elems(path)[1..]
    ensures r.Some? ==> (r.value == [] <==> |Elems(path)| == 1)
    ensures r.Some? ==> |r.value| < |path| && r.value == path[|path| - |r.value|..]
  {
    hide Elems;
    name := "";
    assert path[0..] == path;
    var i := Slashes(path, 0);
    if i == |path| {
      assert path[i..] == [];
      RestEmpty(path[i..]);
      return None, name;
    }
    var s := i;
    while i < |path| && path[i] != '/'
      invariant s <= i <= |path| && forall k :: s <= k < i ==> path[k] != '/'
      invariant i > s || path[i] != '/'
    {
      i := i + 1;
    }
    FirstElem(path, s, i);
    var len := i - s;
    if len >= DIRSIZ {
      name := path[s..s + DIRSIZ];
      assert name == path[s..i][..DIRSIZ];
    } else {
      name := path[s..i];
    }
    i := Slashes(path, i);
    RestEmpty(path[i..]);
    return Some(path[i..]), name;
  }

  lemma FirstElem(path: string, s: nat, i: nat)
    requires s < i <= |path| && (forall k :: s <= k < i ==> path[k] != '/') && (i < |path| ==> path[i] == '/')
    ensures Elems(path[s..]) == [path[s..i]] + Elems(path[i..])
  {
    var q := path[s..];
    assert forall k :: 0 <= k < i - s ==> q[k] == path[s + k];
    EndIs(q, i - s);
    assert q[..i - s] == path[s..i] && q[i - s..] == path[i..];
  }

  lemma EndIs(q: string, n: nat)
    requires n <= |q| && (forall i :: 0 <= i < n ==> q[i] != '/') && (n < |q| ==> q[n] == '/') && n > 0
    ensures ElemEnd(q) == n && Elems(q) == [q[..n]] + Elems(q[n..])
  {
  }

  lemma RestEmpty(p: string)
    requires p != [] ==> p[0] != '/'
    ensures p == [] <==> Elems(p) == []
  {
  }

  // -------------------------------------------------------------------------- namex

  /**
    Where a walk ends: at an inode (with the last element, for the parent form),
    nowhere, or in ilock's panic "no type" at an inode that is not allocated.
  */
  datatype Way = At(ip: nat, name: string) | Nowhere | Stuck

  /** A fold of lookups over the elements; parent stops one element early. */
  ghost function Walk(t: Tree, ip: nat, elems: seq<string>, parent: bool): Way
    decreases |elems|
  {
    if elems == [] then (if parent then Nowhere else At(ip, ""))
    else if ip !in t then Stuck
    else if !t[ip].DirNode? then Nowhere
    else if parent && |elems| == 1 then At(ip, Trunc(elems[0]))
    else if Trunc(elems[0]) !in AsMap(t[ip].entries) then Nowhere
    else Walk(t, AsMap(t[ip].entries)[Trunc(elems[0])], elems[1..], parent)
  }

  datatype Outcome = EndOfPath | NotFound | AtParent | GoesOn(ip: nat) | Panics

  /** namex's answer is the walk's; None is the panic. */
  predicate Agrees(r: Option<Option<nat>>, name: string, w: Way, parent: bool) {
    match w
    case Stuck => r.None?
    case Nowhere => r == Some(None)
    case At(ip, last) => r == Some(Some(ip)) && (parent ==> name == last)
  }

  class Itable {
    ghost var refs: multiset<nat>

    constructor ()
      ensures refs == multiset{}
    {
      refs := multiset{};
    }

    /** iget, idup */
    method Take(ip: nat)
      modifies this
      ensures refs == old(refs) + multiset{ip}
    {
      refs := refs + multiset{ip};
    }

    /** iput, giving back one reference on top of g. */
    method Drop(ip: nat, ghost g: multiset<nat>)
      requires refs == g + multiset{ip}
      modifies this
      ensures refs == g
    {
      refs := refs - multiset{ip};
    }

    /** One round of namex's loop, holding a reference to ip on top of g. */
    method Round(t: Tree, ip: nat, path: string, nameiparent: bool, ghost g: multiset<nat>)
      returns (k: Outcome, rest: string, name: string)
      requires NamesOk(t) && NulFree(path) && refs == g + multiset{ip}
      modifies this
      ensures k.EndOfPath? ==> Elems(path) == [] && refs == old(refs)
      ensures k.Panics? ==> Walk(t, ip, Elems(path), nameiparent) == Stuck
      ensures k.NotFound? ==> Elems(path) != [] && Walk(t, ip, Elems(path), nameiparent) == Nowhere && refs == g
      ensures k.AtParent? ==> nameiparent && Walk(t, ip, Elems(path), true) == At(ip, name) && refs == old(refs)
      ensures k.GoesOn? ==> NulFree(rest) && |rest| < |path| && refs == g + multiset{k.ip}
      ensures k.GoesOn? ==> Walk(t, ip, Elems(path), nameiparent) == Walk(t, k.ip, Elems(rest), nameiparent)
    {
      hide Walk, Elems, AsMap, Trunc, NamesOk;
      ghost var elems := Elems(path);
      WalkStep(t, ip, elems, nameiparent);
      ElemsNulFree(path);
      var next;
      next, name := Skipelem(path);
      if next.None? {
        return EndOfPath, path, name;
      }
      rest := next.value;
      if ip !in t {
        return Panics, rest, name;
      }
      if !t[ip].DirNode? {
        Drop(ip, g);
        return NotFound, rest, name;
      }
      if nameiparent && rest == [] {
        return AtParent, rest, name;
      }
      NodeOk(t, ip);
      TruncTwice(elems[0]);
      var found := Dirlookup(t[ip].entries, name);
      if found.None? {
        Drop(ip, g);
        return NotFound, rest, name;
      }
      var n := t[ip].entries[found.value].inum;
      Take(n);
      assert refs == g + multiset{n} + multiset{ip};
      Drop(ip, g + multiset{n});
      return GoesOn(n), rest, name;
    }

    /**
      namex from the root or the current directory. Unless ilock panics, every
      reference it does not return is given back.
    */
    method Namex(t: Tree, path: string, cwd: nat, nameiparent: bool) returns (r: Option<Option<nat>>, name: string)
      requires NamesOk(t) && NulFree(path)
      modifies this
      ensures Agrees(r, name, Walk(t, Start(path, cwd), Elems(path), nameiparent), nameiparent)
      ensures r.Some? ==> refs == old(refs) + if r.value.Some? then multiset{r.value.value} else multiset{}
    {
      hide Walk, Elems, NamesOk, NulFree;
      ghost var g := refs;
      var ip := Start(path, cwd);
      Take(ip);
      name := "";
      var rest := path;
      while true
        invariant refs == g + multiset{ip} && NulFree(rest)
        invariant Walk(t, ip, Elems(rest), nameiparent) == Walk(t, Start(path, cwd), Elems(path), nameiparent)
        decreases |rest|
      {
        var k, more, elem := Round(t, ip, rest, nameiparent, g);
        match k
        case EndOfPath => break;
        case Panics => return None, elem;
        case NotFound => return Some(None), elem;
        case AtParent => return Some(Some(ip)), elem;
        case GoesOn(n) => ip, rest, name := n, more, elem;
      }
      WalkStep(t, ip, [], nameiparent);
      if nameiparent {
        Drop(ip, g);
        return Some(None), name;
      }
      return Some(Some(ip)), name;
    }
  }

  /** Where a path starts. */
  function Start(path: string, cwd: nat): nat {
    if path != [] && path[0] == '/' then ROOTINO else cwd
  }

  lemma NodeOk(t: Tree, ip: nat)
    requires NamesOk(t) && ip in t && t[ip].DirNode?
    ensures DirOk(t[ip].entries)
  {
  }

  /** One element of a walk. */
  lemma WalkStep(t: Tree, ip: nat, elems: seq<string>, parent: bool)
    ensures elems == [] ==> Walk(t, ip, elems, parent) == if parent then Nowhere else At(ip, "")
    ensures elems != [] && ip !in t ==> Walk(t, ip, elems, parent) == Stuck
    ensures elems != [] && ip in t && !t[ip].DirNode? ==> Walk(t, ip, elems, parent) == Nowhere
    ensures |elems| == 1 && parent && ip in t && t[ip].DirNode? ==>
      Walk(t, ip, elems, parent) == At(ip, Trunc(elems[0]))
    ensures elems != [] && !(parent && |elems| == 1) && ip in t && t[ip].DirNode? ==>
      Walk(t, ip, elems, parent) ==
        if Trunc(elems[0]) !in AsMap(t[ip].entries) then Nowhere
        else Walk(t, AsMap(t[ip].entries)[Trunc(elems[0])], elems[1..], parent)
  {
  }

  lemma TruncTwice(s: string)
    ensures Trunc(Trunc(s)) == Trunc(s)
  {
  }

  lemma {:induction false} ElemsNulFree(p: string)
    requires NulFree(p)
    ensures forall i :: 0 <= i < |Elems(p)| ==> NulFree(Elems(p)[i]) && NulFree(Trunc(Elems(p)[i]))
    decreases |p|
  {
    if p != [] {
      if p[0] == '/' {
        ElemsNulFree(p[1..]);
      } else {
        ElemsNulFree(p[ElemEnd(p)..]);
        var e := [p[..ElemEnd(p)]];
        assert forall i :: 0 < i < |Elems(p)| ==> Elems(p)[i] == Elems(p[ElemEnd(p)..])[i - 1];
      }
    }
  }
}
