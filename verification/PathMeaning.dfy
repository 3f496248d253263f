module PathMeaning {
  // What a path names: the laws of its elements, and the trail of directories that
  // namex's fold of lookups stands for.

  import opened Wrappers
  import opened Directory
  import opened PathWalk

  /** A path without slashes is one element. */
  lemma ElemsOne(p: string)
    requires p != [] && forall i :: 0 <= i < |p| ==> p[i] != '/'
    ensures Elems(p) == [p] && Elems([]) == []
  {
    EndIs(p, |p|);
    assert p[..|p|] == p && p[|p|..] == [];
  }

  /** A slash separates: the elements of p/q are those of p and those of q. */
  lemma {:induction false} ElemsConcat(p: string, q: string)
    ensures Elems(p + "/" + q) == Elems(p) + Elems(q)
    decreases |p|
  {
    var w := p + "/" + q;
    if p == [] {
      assert w[0] == '/' && w[1..] == q;
    } else if p[0] == '/' {
      ElemsConcat(p[1..], q);
      assert w[1..] == p[1..] + "/" + q;
    } else {
      var n := ElemEnd(p);
      assert w[n] == '/' && forall i :: 0 <= i < n ==> w[i] == p[i];
      EndIs(w, n);
      ElemsConcat(p[n..], q);
      assert w[..n] == p[..n] && w[n..] == p[n..] + "/" + q;
    }
  }

  /** From inode ips[k] the k-th element leads to ips[k + 1]. */
  ghost predicate Trail(t: Tree, ip: nat, elems: seq<string>, ips: seq<nat>) {
    && |ips| == |elems| + 1 && ips[0] == ip
    && forall k :: 0 <= k < |elems| ==> Leads(t, ips[k], elems[k], ips[k + 1])
  }

  ghost predicate Leads(t: Tree, d: nat, name: string, i: nat) {
    && d in t && t[d].DirNode? && Trunc(name) in AsMap(t[d].entries) && AsMap(t[d].entries)[Trunc(name)] == i
  }

  ghost predicate Reaches(t: Tree, ip: nat, elems: seq<string>, i: nat) {
    exists ips :: Trail(t, ip, elems, ips) && ips[|elems|] == i
  }

  /** namei finds inode i if and only if a trail of directories leads there. */
  lemma {:induction false} WalkIff(t: Tree, ip: nat, elems: seq<string>, i: nat)
    ensures Walk(t, ip, elems, false) == At(i, "") <==> Reaches(t, ip, elems, i)
    decreases |elems|
  {
    hide AsMap, Trunc;
    if elems == [] {
      assert Trail(t, ip, elems, [ip]);
    } else {
      WalkStep(t, ip, elems, false);
      hide Walk;
      if Reaches(t, ip, elems, i) {
        var ips :| Trail(t, ip, elems, ips) && ips[|elems|] == i;
        assert Leads(t, ips[0], elems[0], ips[0 + 1]);
        TrailTail(t, ip, elems, ips);
        WalkIff(t, ips[1], elems[1..], i);
        assert Reaches(t, ips[1], elems[1..], i);
      }
      if Walk(t, ip, elems, false) == At(i, "") {
        var j := AsMap(t[ip].entries)[Trunc(elems[0])];
        WalkIff(t, j, elems[1..], i);
        var ips :| Trail(t, j, elems[1..], ips) && ips[|elems[1..]|] == i;
        TrailFrom(t, ip, elems, [ip] + ips);
        assert Reaches(t, ip, elems, i);
      }
    }
  }

  lemma TrailTail(t: Tree, ip: nat, elems: seq<string>, ips: seq<nat>)
    requires elems != [] && Trail(t, ip, elems, ips)
    ensures Trail(t, ips[1], elems[1..], ips[1..]) && ips[1..][|elems[1..]|] == ips[|elems|]
  {
    hide Leads;
    var es, js := elems[1..], ips[1..];
    forall k | 0 <= k < |es| ensures Leads(t, js[k], es[k], js[k + 1]) {
      assert Leads(t, ips[k + 1], elems[k + 1], ips[k + 1 + 1]);
    }
  }

  lemma TrailFrom(t: Tree, ip: nat, elems: seq<string>, ips: seq<nat>)
    requires elems != [] && |ips| == |elems| + 1 && ips[0] == ip && Leads(t, ip, elems[0], ips[1])
    requires Trail(t, ips[1], elems[1..], ips[1..])
    ensures Trail(t, ip, elems, ips)
  {
    hide Leads;
    forall k | 0 <= k < |elems| ensures Leads(t, ips[k], elems[k], ips[k + 1]) {
      if k > 0 { assert Leads(t, ips[1..][k - 1], elems[1..][k - 1], ips[1..][k - 1 + 1]); }
    }
  }

  /** nameiparent finds what namei of all but the last element finds, if that is a directory, and the last element. */
  lemma {:induction false} ParentIff(t: Tree, ip: nat, elems: seq<string>, i: nat, name: string)
    ensures Walk(t, ip, elems, true) == At(i, name) <==>
      && elems != [] && Walk(t, ip, elems[..|elems| - 1], false) == At(i, "") && i in t && t[i].DirNode?
      && name == Trunc(elems[|elems| - 1])
    decreases |elems|
  {
    hide AsMap, Trunc;
    if |elems| > 1 {
      var init := elems[..|elems| - 1];
      WalkStep(t, ip, elems, true);
      WalkStep(t, ip, init, false);
      hide Walk;
      if ip in t && t[ip].DirNode? && Trunc(elems[0]) in AsMap(t[ip].entries) {
        var j := AsMap(t[ip].entries)[Trunc(elems[0])];
        ParentIff(t, j, elems[1..], i, name);
        assert elems[1..][..|elems[1..]| - 1] == init[1..];
      }
    } else if |elems| == 1 {
      assert elems[..0] == [];
    }
  }

  /** A path that begins with a slash is looked up from the root, whatever the current directory. */
  lemma AbsolutePath(t: Tree, p: string, cwd: nat, i: nat)
    ensures Walk(t, Start("/" + p, cwd), Elems("/" + p), false) == At(i, "") <==> Reaches(t, ROOTINO, Elems(p), i)
  {
    assert ("/" + p)[0] == '/' && ("/" + p)[1..] == p;
    WalkIff(t, ROOTINO, Elems(p), i);
  }

  /** Any other path from the current directory. */
  lemma RelativePath(t: Tree, p: string, cwd: nat, i: nat)
    requires p == [] || p[0] != '/'
    ensures Walk(t, Start(p, cwd), Elems(p), false) == At(i, "") <==> Reaches(t, cwd, Elems(p), i)
  {
    WalkIff(t, cwd, Elems(p), i);
  }
}
