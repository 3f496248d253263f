/**
  Directories as a graph: for each allocated directory the map of its names. The
  names that lead to an inode, and those of a directory that are directories, are
  what link counts count.
*/
module DirGraph {
  import opened Sets

  type Graph = map<nat, map<string, nat>>

  predicate Dot(n: string) {
    n == "." || n == ".."
  }

  /** All names of inode i, apart from . and .. */
  ghost function NamesOf(g: Graph, i: nat): set<(nat, string)> {
    set d, n | d in g && n in g[d] && !Dot(n) && g[d][n] == i :: (d, n)
  }

  /** The names in directory d that are directories. */
  ghost function Subdirs(g: Graph, d: nat): set<string> {
    if d in g then set n | n in g[d] && !Dot(n) && g[d][n] in g else {}
  }

  /** Nobody names i. */
  ghost predicate Nameless(g: Graph, i: nat) {
    forall d, n :: d in g && n in g[d] && !Dot(n) ==> g[d][n] != i
  }

  lemma NamelessMeans(g: Graph, i: nat)
    ensures Nameless(g, i) <==> NamesOf(g, i) == {}
  {
    if d, n :| d in g && n in g[d] && !Dot(n) && g[d][n] == i {
      assert (d, n) in NamesOf(g, i);
    }
  }

  ghost function WithName(g: Graph, dp: nat, t: string, i: nat): Graph
    requires dp in g
  {
    var m: map<string, nat> := g[dp][t := i];
    g[dp := m]
  }

  ghost function WithoutName(g: Graph, dp: nat, t: string): Graph
    requires dp in g
  {
    g[dp := g[dp] - {t}]
  }

  lemma NameMember(g: Graph, i: nat, p: (nat, string))
    ensures p in NamesOf(g, i) <==> p.0 in g && p.1 in g[p.0] && !Dot(p.1) && g[p.0][p.1] == i
  {
    assert p == (p.0, p.1);
  }

  /** A new name t for i in directory dp. */
  lemma AddName(g: Graph, dp: nat, t: string, i: nat, x: nat)
    requires dp in g && t !in g[dp] && !Dot(t)
    ensures |NamesOf(WithName(g, dp, t, i), x)| == |NamesOf(g, x)| + (if x == i then 1 else 0)
    ensures |Subdirs(WithName(g, dp, t, i), x)| == |Subdirs(g, x)| + (if x == dp && i in g then 1 else 0)
  {
    hide *;
    NamesAdded(g, dp, t, i, x);
    SubdirsAdded(g, dp, t, i, x);
  }

  lemma SubMember(g: Graph, x: nat, n: string)
    ensures n in Subdirs(g, x) <==> x in g && n in g[x] && !Dot(n) && g[x][n] in g
  {
  }

  lemma SubdirsAdded(g: Graph, dp: nat, t: string, i: nat, x: nat)
    requires dp in g && t !in g[dp] && !Dot(t)
    ensures x == dp ==> t !in Subdirs(g, x)
    ensures Subdirs(WithName(g, dp, t, i), x) == Subdirs(g, x) + (if x == dp && i in g then {t} else {})
  {
    hide Subdirs;
    var g' := WithName(g, dp, t, i);
    SubMember(g, x, t);
    forall n ensures n in Subdirs(g', x) <==> n in Subdirs(g, x) || (x == dp && i in g && n == t) {
      SubMember(g, x, n);
      SubMember(g', x, n);
    }
  }

  lemma NamesAdded(g: Graph, dp: nat, t: string, i: nat, x: nat)
    requires dp in g && t !in g[dp] && !Dot(t)
    ensures (dp, t) !in NamesOf(g, x)
    ensures NamesOf(WithName(g, dp, t, i), x) == NamesOf(g, x) + (if x == i then {(dp, t)} else {})
  {
    hide NamesOf;
    var g' := WithName(g, dp, t, i);
    NameMember(g, x, (dp, t));
    forall p ensures p in NamesOf(g', x) <==> p in NamesOf(g, x) || (x == i && p == (dp, t)) {
      NameMember(g, x, p);
      NameMember(g', x, p);
    }
  }

  /** The name t of dp goes. */
  lemma DropName(g: Graph, dp: nat, t: string, x: nat)
    requires dp in g && t in g[dp] && !Dot(t)
    ensures |NamesOf(WithoutName(g, dp, t), x)| == |NamesOf(g, x)| - (if x == g[dp][t] then 1 else 0)
    ensures |Subdirs(WithoutName(g, dp, t), x)| == |Subdirs(g, x)| - (if x == dp && g[dp][t] in g then 1 else 0)
  {
    hide *;
    NamesDropped(g, dp, t, x);
    SubdirsDropped(g, dp, t, x);
  }

  lemma SubdirsDropped(g: Graph, dp: nat, t: string, x: nat)
    requires dp in g && t in g[dp] && !Dot(t)
    ensures x == dp && g[dp][t] in g ==> t in Subdirs(g, x)
    ensures Subdirs(WithoutName(g, dp, t), x) == Subdirs(g, x) - (if x == dp && g[dp][t] in g then {t} else {})
  {
    hide Subdirs;
    var g' := WithoutName(g, dp, t);
    SubMember(g, x, t);
    forall n ensures n in Subdirs(g', x) <==> n in Subdirs(g, x) && !(x == dp && g[dp][t] in g && n == t) {
      SubMember(g, x, n);
      SubMember(g', x, n);
    }
  }

  lemma NamesDropped(g: Graph, dp: nat, t: string, x: nat)
    requires dp in g && t in g[dp] && !Dot(t)
    ensures (dp, t) in NamesOf(g, x) <==> x == g[dp][t]
    ensures NamesOf(WithoutName(g, dp, t), x) == NamesOf(g, x) - {(dp, t)}
  {
    hide NamesOf;
    var g' := WithoutName(g, dp, t);
    NameMember(g, x, (dp, t));
    forall p ensures p in NamesOf(g', x) <==> p in NamesOf(g, x) && p != (dp, t) {
      NameMember(g, x, p);
      NameMember(g', x, p);
    }
  }

  /** A new directory that holds only dots. */
  lemma AddDir(g: Graph, i: nat, m: map<string, nat>, x: nat)
    requires i !in g && Nameless(g, i) && forall n :: n in m ==> Dot(n)
    ensures NamesOf(g[i := m], x) == NamesOf(g, x) && Subdirs(g[i := m], x) == Subdirs(g, x)
  {
  }

  /** A directory that nobody names goes, with what is in it. */
  lemma DropDir(g: Graph, j: nat, x: nat)
    requires Nameless(g, j)
    ensures NamesOf(g - {j}, x) <= NamesOf(g, x) && |NamesOf(g - {j}, x)| <= |NamesOf(g, x)|
    ensures x != j ==> Subdirs(g - {j}, x) == Subdirs(g, x)
  {
    SubsetSize(NamesOf(g - {j}, x), NamesOf(g, x));
  }
}
