/**
  A page-table tree as nested tables, for freewalk's recursion: which page each
  table is in and which subtree hangs below each of its 512 entries.
*/
module TableTree {
  import opened PageTable

  datatype Sub = Nil | Sub(page: nat, kids: seq<Sub>)

  /** pte & (PTE_R | PTE_W | PTE_X) */
  predicate Rwx(pte: nat) {
    pte / 2 % 8 != 0
  }

  /** Entry pte leads to subtree kid; with no subtree it is invalid or a leaf mapping. */
  predicate Leads(pte: nat, kid: Sub) {
    if kid.Sub? then pte == MakePte(kid.page, 0) else !V(pte) || Rwx(pte)
  }

  /** The tables of s are in memory with these links. */
  ghost predicate Holds(m: Mem, s: Sub) {
    s.Sub? ==>
      && s.page in m.tables && |s.kids| == ENTRIES
      && (forall i :: 0 <= i < ENTRIES ==> Leads(m.tables[s.page][i], s.kids[i]))
      && (forall i :: 0 <= i < ENTRIES ==> Holds(m, s.kids[i]))
  }

  /** No valid leaf entry anywhere below s. */
  ghost predicate NoLeaf(m: Mem, s: Sub) {
    s.Sub? && s.page in m.tables && |s.kids| == ENTRIES ==>
      && (forall i :: 0 <= i < ENTRIES && s.kids[i].Nil? ==> !V(m.tables[s.page][i]))
      && (forall i :: 0 <= i < ENTRIES ==> NoLeaf(m, s.kids[i]))
  }

  ghost predicate NoLeafUpTo(m: Mem, s: Sub, n: nat)
    requires s.Sub? && s.page in m.tables && |s.kids| == ENTRIES
  {
    forall i :: 0 <= i < n <= ENTRIES ==> NoLeaf(m, s.kids[i]) && (s.kids[i].Nil? ==> !V(m.tables[s.page][i]))
  }

  lemma NoLeafFacts(m: Mem, s: Sub, n: nat)
    requires s.Sub? && s.page in m.tables && |s.kids| == ENTRIES && n <= ENTRIES
    ensures NoLeafUpTo(m, s, 0)
    ensures NoLeafUpTo(m, s, ENTRIES) <==> NoLeaf(m, s)
    ensures n < ENTRIES && NoLeaf(m, s) ==> NoLeaf(m, s.kids[n]) && (s.kids[n].Nil? ==> !V(m.tables[s.page][n]))
    ensures n < ENTRIES && NoLeafUpTo(m, s, n) && NoLeaf(m, s.kids[n]) && (s.kids[n].Nil? ==>
      !V(m.tables[s.page][n])) ==>
      NoLeafUpTo(m, s, n + 1)
  {
  }

  lemma HoldsTable(m: Mem, s: Sub)
    requires s.Sub? && Holds(m, s)
    ensures s.page in m.tables && |s.kids| == ENTRIES
  {
  }

  ghost function PagesOf(s: Sub): set<nat>
    decreases s, 0
  {
    if s.Nil? then {} else {s.page} + KidPages(s, |s.kids|)
  }

  /** The pages below the first n entries. */
  ghost function KidPages(s: Sub, n: nat): set<nat>
    requires s.Sub? && n <= |s.kids|
    decreases s, 0, n
  {
    if n == 0 then {} else KidPages(s, n - 1) + PagesOf(s.kids[n - 1])
  }

  /** No page serves twice. */
  ghost predicate Separate(s: Sub) {
    s.Sub? ==>
      && (forall i :: 0 <= i < |s.kids| ==> Separate(s.kids[i]) && s.page !in PagesOf(s.kids[i]))
      && (forall i, j :: 0 <= i < j < |s.kids| ==> PagesOf(s.kids[i]) !! PagesOf(s.kids[j]))
  }

  lemma {:induction false} KidPagesMember(s: Sub, n: nat, p: nat)
    requires s.Sub? && n <= |s.kids|
    ensures p in KidPages(s, n) <==> exists i :: 0 <= i < n && p in PagesOf(s.kids[i])
  {
    if n > 0 { KidPagesMember(s, n - 1, p); }
  }

  /** The pages below entry n are apart from those below earlier and later ones, and from the table itself. */
  lemma KidApart(s: Sub, n: nat)
    requires s.Sub? && Separate(s) && n < |s.kids|
    ensures KidPages(s, n) !! PagesOf(s.kids[n])
    ensures s.page !in PagesOf(s.kids[n])
    ensures s.page !in KidPages(s, n)
  {
    forall p | p in KidPages(s, n) ensures p !in PagesOf(s.kids[n]) && p != s.page {
      KidPagesMember(s, n, p);
    }
  }

  /** A subtree depends on its own pages only. */
  lemma {:induction false} SubFrame(m: Mem, m2: Mem, s: Sub)
    requires Holds(m, s)
    requires forall p :: p in PagesOf(s) && p in m.tables ==> p in m2.tables && m2.tables[p] == m.tables[p]
    ensures Holds(m2, s) && (NoLeaf(m2, s) <==> NoLeaf(m, s))
    decreases s
  {
    if s.Sub? {
      forall i | 0 <= i < ENTRIES ensures Holds(m2, s.kids[i]) && (NoLeaf(m2, s.kids[i]) <==> NoLeaf(m, s.kids[i])) {
        forall p | p in PagesOf(s.kids[i]) ensures p in PagesOf(s) {
          KidPagesMember(s, |s.kids|, p);
        }
        SubFrame(m, m2, s.kids[i]);
      }
    }
  }

  lemma {:induction false} PagesInTables(m: Mem, s: Sub)
    requires Holds(m, s)
    ensures PagesOf(s) <= m.tables.Keys
    decreases s
  {
    if s.Sub? {
      forall p | p in KidPages(s, |s.kids|) ensures p in m.tables {
        KidPagesMember(s, |s.kids|, p);
        var i :| 0 <= i < |s.kids| && p in PagesOf(s.kids[i]);
        PagesInTables(m, s.kids[i]);
      }
    }
  }

  /**
    freewalk's loop at entry n: the subtrees below entries 0 .. n-1 are on the
    free list, the rest of memory is as in m except for this table's own entries.
  */
  ghost predicate Freeing(m: Mem, s: Sub, m2: Mem, n: nat)
    requires s.Sub? && n <= |s.kids|
  {
    && m2.Parted() && m2.Pages() == m.Pages() && m2.frames == m.frames
    && m2.FreeSet() == m.FreeSet() + KidPages(s, n)
    && m2.tables.Keys == m.tables.Keys - KidPages(s, n)
    && s.page in m2.tables && s.page in m.tables
    && (forall p :: p in m2.tables && p != s.page ==> m2.tables[p] == m.tables[p])
    && (forall i :: n <= i < ENTRIES ==> m2.tables[s.page][i] == m.tables[s.page][i])
  }

  /** Subtree s is on the free list, nothing else changed. */
  ghost predicate Freed(m: Mem, s: Sub, m2: Mem) {
    && m2.Parted() && m2.Pages() == m.Pages() && m2.frames == m.frames
    && m2.FreeSet() == m.FreeSet() + PagesOf(s)
    && m2.tables == m.tables - PagesOf(s)
  }

  lemma FreeingStart(m: Mem, s: Sub)
    requires m.Parted() && s.Sub? && s.page in m.tables
    ensures Freeing(m, s, m, 0)
  {
  }

  /** The subtree below entry n is still there. */
  lemma FreeingKid(m: Mem, s: Sub, m2: Mem, n: nat)
    requires s.Sub? && Holds(m, s) && Separate(s) && n < |s.kids| && Freeing(m, s, m2, n)
    ensures Holds(m2, s.kids[n]) && (NoLeaf(m2, s.kids[n]) <==> NoLeaf(m, s.kids[n]))
    ensures m2.tables[s.page][n] == m.tables[s.page][n] && Leads(m.tables[s.page][n], s.kids[n])
  {
    hide Mem.Parted, Mem.Pages, Mem.FreeSet, KidPages, PagesOf;
    KidApart(s, n);
    SubFrame(m, m2, s.kids[n]);
  }

  lemma FreeingTable(m: Mem, s: Sub, m2: Mem, n: nat)
    requires s.Sub? && n <= |s.kids| && Freeing(m, s, m2, n)
    ensures m2.Parted() && s.page in m2.tables && s.page in m.tables
  {
  }

  lemma SeparateKid(s: Sub, n: nat)
    requires s.Sub? && Separate(s) && n < |s.kids|
    ensures Separate(s.kids[n])
  {
  }

  lemma LeadsFacts(pte: nat, kid: Sub)
    requires Leads(pte, kid)
    ensures kid.Sub? <==> V(pte) && !Rwx(pte)
    ensures kid.Sub? ==> Ppn(pte) == kid.page
    ensures kid.Nil? ==> forall m: Mem :: NoLeaf(m, kid)
  {
  }

  lemma FreeingSkip(m: Mem, s: Sub, m2: Mem, n: nat)
    requires s.Sub? && n < |s.kids| && Freeing(m, s, m2, n) && s.kids[n].Nil?
    ensures Freeing(m, s, m2, n + 1)
  {
    hide Mem.Parted, Mem.Pages, Mem.FreeSet;
    assert KidPages(s, n + 1) == KidPages(s, n);
  }

  lemma FreeingNext(m: Mem, s: Sub, m2: Mem, n: nat, m3: Mem)
    requires s.Sub? && Separate(s) && n < |s.kids| <= ENTRIES && Freeing(m, s, m2, n) && Freed(m2, s.kids[n], m3)
    ensures s.page in m3.tables && Freeing(m, s, m3.SetEntry(s.page, n, 0), n + 1)
  {
    KidApart(s, n);
    assert KidPages(s, n + 1) == KidPages(s, n) + PagesOf(s.kids[n]);
    SetEntryParted(m3, s.page, n, 0);
    hide Mem.Parted, Mem.Pages, Mem.FreeSet, KidPages, PagesOf;
    var m4 := m3.SetEntry(s.page, n, 0);
    assert m4.tables.Keys == m3.tables.Keys;
  }

  lemma FreeingDone(m: Mem, s: Sub, m2: Mem)
    requires s.Sub? && Separate(s) && Freeing(m, s, m2, |s.kids|)
    ensures Freed(m, s, m2.DropTable(s.page))
  {
    DropParted(m2, s.page);
    assert PagesOf(s) == {s.page} + KidPages(s, |s.kids|);
    hide Mem.Parted, Mem.Pages, Mem.FreeSet, KidPages, PagesOf;
    var m3 := m2.DropTable(s.page);
    assert m3.tables.Keys == (m.tables - PagesOf(s)).Keys;
    assert forall p :: p in m3.tables ==> m3.tables[p] == m.tables[p];
  }

  // --------------------------------------------------------- the tree of PageTable

  ghost function LowSub(t: Tree, k: nat): Sub {
    if k in t.low then Sub(t.low[k], seq(ENTRIES, _ => Nil)) else Nil
  }

  ghost function MidSub(t: Tree, i: nat): Sub {
    if i in t.mid then Sub(t.mid[i], seq(ENTRIES, j requires 0 <= j => LowSub(t, i * ENTRIES + j))) else Nil
  }

  /** The whole tree. */
  ghost function RootSub(t: Tree): Sub {
    Sub(t.root, seq(ENTRIES, i requires 0 <= i => MidSub(t, i)))
  }

  lemma {:induction false} NoKids(s: Sub, n: nat)
    requires s.Sub? && n <= |s.kids| && forall i :: 0 <= i < n ==> s.kids[i].Nil?
    ensures KidPages(s, n) == {}
  {
    if n > 0 { NoKids(s, n - 1); }
  }

  lemma LowPages(t: Tree, k: nat)
    ensures PagesOf(LowSub(t, k)) == if k in t.low then {t.low[k]} else {}
  {
    if k in t.low { NoKids(LowSub(t, k), ENTRIES); }
  }

  lemma MidPages(t: Tree, i: nat, p: nat)
    requires p in PagesOf(MidSub(t, i))
    ensures i in t.mid
    ensures p == t.mid[i] || exists k :: k in t.low && k / ENTRIES == i && t.low[k] == p
  {
    var s := MidSub(t, i);
    if p != t.mid[i] {
      KidPagesMember(s, ENTRIES, p);
      var j :| 0 <= j < ENTRIES && p in PagesOf(s.kids[j]);
      LowPages(t, i * ENTRIES + j);
      assert (i * ENTRIES + j) / ENTRIES == i;
    }
  }

  lemma MidPagesIn(t: Tree, i: nat, j: nat)
    requires i in t.mid && j < ENTRIES
    ensures t.mid[i] in PagesOf(MidSub(t, i))
    ensures i * ENTRIES + j in t.low ==> t.low[i * ENTRIES + j] in PagesOf(MidSub(t, i))
  {
    var s := MidSub(t, i);
    if i * ENTRIES + j in t.low {
      LowPages(t, i * ENTRIES + j);
      assert s.kids[j] == LowSub(t, i * ENTRIES + j);
      KidPagesMember(s, ENTRIES, t.low[i * ENTRIES + j]);
    }
  }

  lemma RootPages(t: Tree)
    requires t.Shape()
    ensures PagesOf(RootSub(t)) == t.TablePages()
  {
    var s := RootSub(t);
    forall p | p in t.TablePages() ensures p in PagesOf(s) {
      if p in t.mid.Values {
        var i :| i in t.mid && t.mid[i] == p;
        MidPagesIn(t, i, 0);
        assert s.kids[i] == MidSub(t, i);
        KidPagesMember(s, ENTRIES, p);
      } else if p in t.low.Values {
        var k :| k in t.low && t.low[k] == p;
        MidPagesIn(t, k / ENTRIES, k % ENTRIES);
        assert k / ENTRIES * ENTRIES + k % ENTRIES == k;
        assert s.kids[k / ENTRIES] == MidSub(t, k / ENTRIES);
        KidPagesMember(s, ENTRIES, p);
      }
    }
    forall p | p in PagesOf(s) ensures p in t.TablePages() {
      if p != t.root {
        KidPagesMember(s, ENTRIES, p);
        var i :| 0 <= i < ENTRIES && p in PagesOf(s.kids[i]);
        MidPages(t, i, p);
      }
    }
  }

  lemma MidSeparate(t: Tree, i: nat)
    requires t.Distinct()
    ensures Separate(MidSub(t, i))
  {
    var s := MidSub(t, i);
    if s.Sub? {
      forall j | 0 <= j < ENTRIES ensures Separate(s.kids[j]) && s.page !in PagesOf(s.kids[j]) {
        var k := i * ENTRIES + j;
        LowPages(t, k);
        if k in t.low {
          NoKids(s.kids[j], ENTRIES);
          assert t.low[k] in t.low.Values && t.mid[i] in t.mid.Values;
        }
      }
      forall j, l | 0 <= j < l < ENTRIES ensures PagesOf(s.kids[j]) !! PagesOf(s.kids[l]) {
        LowPages(t, i * ENTRIES + j);
        LowPages(t, i * ENTRIES + l);
      }
    }
  }

  lemma MidPagesApart(t: Tree, i: nat, j: nat, p: nat)
    requires t.Distinct() && i != j && p in PagesOf(MidSub(t, i))
    ensures p !in PagesOf(MidSub(t, j))
  {
    MidPages(t, i, p);
    assert t.mid[i] in t.mid.Values && (j in t.mid ==> t.mid[j] in t.mid.Values);
    if p in PagesOf(MidSub(t, j)) {
      MidPages(t, j, p);
    }
  }

  lemma RootSeparate(t: Tree)
    requires t.Distinct()
    ensures Separate(RootSub(t))
  {
    var s := RootSub(t);
    forall i | 0 <= i < ENTRIES ensures Separate(s.kids[i]) && s.page !in PagesOf(s.kids[i]) {
      MidSeparate(t, i);
      if s.page in PagesOf(s.kids[i]) {
        MidPages(t, i, s.page);
      }
    }
    forall i, j | 0 <= i < j < ENTRIES ensures PagesOf(s.kids[i]) !! PagesOf(s.kids[j]) {
      forall p | p in PagesOf(s.kids[i]) ensures p !in PagesOf(s.kids[j]) {
        MidPagesApart(t, i, j, p);
      }
    }
  }

  /** Every leaf entry of the tree is invalid or grants some access. */
  ghost predicate RealLeaves(m: Mem, t: Tree) {
    forall v: nat :: !V(Entry(m, t, v)) || Rwx(Entry(m, t, v))
  }

  /** No valid leaf in the pages served by level-0 table k, or by level-1 table i. */
  ghost predicate NoneIn(m: Mem, t: Tree, k: nat) {
    forall v: nat :: v / SPAN1 == k ==> !V(Entry(m, t, v))
  }

  ghost predicate NoneBelow(m: Mem, t: Tree, i: nat) {
    forall v: nat :: v / SPAN2 == i ==> !V(Entry(m, t, v))
  }

  lemma LowHolds(m: Mem, t: Tree, k: nat)
    requires TreeOk(m, t) && RealLeaves(m, t)
    ensures Holds(m, LowSub(t, k))
    ensures NoLeaf(m, LowSub(t, k)) <==> NoneIn(m, t, k)
  {
    if k in t.low {
      var s := LowSub(t, k);
      forall j | 0 <= j < ENTRIES
        ensures Leads(m.tables[s.page][j], s.kids[j]) && (NoneIn(m, t, k) ==> !V(m.tables[s.page][j]))
      {
        LeafOf(m, t, k, j);
      }
      forall v: nat | v / SPAN1 == k ensures NoLeaf(m, s) ==> !V(Entry(m, t, v)) {
        assert s.kids[v % SPAN1].Nil?;
      }
    }
  }

  lemma LeafOf(m: Mem, t: Tree, k: nat, j: nat)
    requires j < ENTRIES
    ensures (k * ENTRIES + j) / SPAN1 == k
    ensures Entry(m, t, k * ENTRIES + j) == if k in t.low && t.low[k] in m.tables then m.tables[t.low[k]][j] else 0
  {
    assert (k * ENTRIES + j) / SPAN1 == k && (k * ENTRIES + j) % SPAN1 == j;
  }

  lemma MidKid(m: Mem, t: Tree, i: nat, j: nat)
    requires TreeOk(m, t) && RealLeaves(m, t) && i in t.mid && j < ENTRIES
    ensures var s := MidSub(t, i);
      && s.page in m.tables && s.kids[j] == LowSub(t, i * ENTRIES + j)
      && Leads(m.tables[s.page][j], s.kids[j]) && (s.kids[j].Nil? ==> !V(m.tables[s.page][j]))
  {
    var k := i * ENTRIES + j;
    assert MidOk(m, t, i);
    assert Points(m.tables[t.mid[i]][j], k in t.low, if k in t.low then t.low[k] else 0);
  }

  lemma MidHolds(m: Mem, t: Tree, i: nat)
    requires TreeOk(m, t) && RealLeaves(m, t) && i < ENTRIES
    ensures Holds(m, MidSub(t, i))
    ensures NoLeaf(m, MidSub(t, i)) <==> NoneBelow(m, t, i)
  {
    var s := MidSub(t, i);
    hide TreeOk, RealLeaves, NoneIn, NoneBelow, Leads;
    if i in t.mid {
      forall j | 0 <= j < ENTRIES
        ensures s.page in m.tables && Leads(m.tables[s.page][j], s.kids[j]) && Holds(m, s.kids[j])
        ensures s.kids[j].Nil? ==> !V(m.tables[s.page][j])
        ensures NoneIn(m, t, i * ENTRIES + j) <==> NoLeaf(m, s.kids[j])
      {
        MidKid(m, t, i, j);
        LowHolds(m, t, i * ENTRIES + j);
      }
      assert s.page in m.tables by { MidKid(m, t, i, 0); }
      if NoLeaf(m, s) {
        NoneBelowAll(m, t, i);
      }
      if NoneBelow(m, t, i) {
        forall j | 0 <= j < ENTRIES ensures NoLeaf(m, s.kids[j]) {
          NoneBelowIn(m, t, i, j);
        }
      }
    } else {
      NothingBelow(m, t, i);
    }
  }

  lemma NothingBelow(m: Mem, t: Tree, i: nat)
    requires TreeOk(m, t) && i !in t.mid
    ensures NoneBelow(m, t, i)
  {
    forall v: nat | v / SPAN2 == i ensures !V(Entry(m, t, v)) {
      assert v / SPAN1 / ENTRIES == i;
    }
  }

  lemma NoneBelowIn(m: Mem, t: Tree, i: nat, j: nat)
    requires NoneBelow(m, t, i) && j < ENTRIES
    ensures NoneIn(m, t, i * ENTRIES + j)
  {
    forall v: nat | v / SPAN1 == i * ENTRIES + j ensures !V(Entry(m, t, v)) {
      assert v / SPAN2 == i;
    }
  }

  lemma NoneBelowAll(m: Mem, t: Tree, i: nat)
    requires TreeOk(m, t) && RealLeaves(m, t) && i in t.mid && NoLeaf(m, MidSub(t, i))
    ensures NoneBelow(m, t, i)
  {
    forall v: nat | v / SPAN2 == i ensures !V(Entry(m, t, v)) {
      NoLeafAt(m, t, i, v);
    }
  }

  lemma NoLeafAt(m: Mem, t: Tree, i: nat, v: nat)
    requires TreeOk(m, t) && RealLeaves(m, t) && i in t.mid && NoLeaf(m, MidSub(t, i)) && v / SPAN2 == i
    ensures !V(Entry(m, t, v))
  {
    var k, q := v / SPAN1, v % SPAN1;
    var j := k - i * ENTRIES;
    assert 0 <= j < ENTRIES && v == k * ENTRIES + q;
    assert MidOk(m, t, i);
    assert MidSub(t, i).kids[j] == LowSub(t, k);
    LowHolds(m, t, k);
  }

  /** The tree in memory, as freewalk meets it. */
  lemma RootHolds(m: Mem, t: Tree)
    requires TreeOk(m, t) && RealLeaves(m, t)
    ensures Holds(m, RootSub(t))
    ensures NoLeaf(m, RootSub(t)) <==> forall v: nat :: !V(Entry(m, t, v))
  {
    var s := RootSub(t);
    forall i | 0 <= i < ENTRIES
      ensures Leads(m.tables[s.page][i], s.kids[i]) && Holds(m, s.kids[i])
      ensures (NoLeaf(m, s.kids[i]) <==> NoneBelow(m, t, i))
      ensures s.kids[i].Nil? ==> !V(m.tables[s.page][i])
    {
      MidHolds(m, t, i);
      assert Points(m.tables[t.root][i], i in t.mid, if i in t.mid then t.mid[i] else 0);
    }
    NoLeafIff(m, t);
  }

  lemma NoLeafIff(m: Mem, t: Tree)
    requires TreeOk(m, t)
    requires forall i :: 0 <= i < ENTRIES ==> (NoLeaf(m, MidSub(t, i)) <==> NoneBelow(m, t, i))
    ensures NoLeaf(m, RootSub(t)) <==> forall v: nat :: !V(Entry(m, t, v))
  {
    var s := RootSub(t);
  }
}
