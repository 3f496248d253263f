module PageTable {
  // Sv39 page tables as values: physical memory split into page-table pages, data
  // frames and the free list, and a three-level tree of page-table pages described
  // by which page sits where. A page is named by its page number (physical address
  // divided by PGSIZE), a virtual page by its virtual page number.
  //
  // Entry(m, t, v) is the leaf entry the hardware finds for virtual page v, 0 when
  // the walk ends early: the tree as a partial map.

  import opened Blocks

  const PGSIZE := 4096
  const ENTRIES := 512
  const SPAN1 := 512             // virtual pages below one level-1 entry
  const SPAN2 := 262144          // virtual pages below one level-2 entry
  const MAXVPN := 67108864       // MAXVA / PGSIZE
  const MAXVA := 274877906944    // 1 << 38

  const PTE_V := 1
  const PTE_R := 2
  const PTE_W := 4
  const PTE_X := 8
  const PTE_U := 16

  type Table = s: seq<nat> | |s| == ENTRIES witness seq(512, _ => 0)

  function ZeroTable(): Table {
    seq(ENTRIES, _ => 0)
  }

  predicate V(pte: nat) {
    pte % 2 == 1
  }

  /** PTE2PA, as a page number. */
  function Ppn(pte: nat): nat {
    pte / 1024
  }

  function Flags(pte: nat): nat {
    pte % 1024
  }

  /** PA2PTE(pa) | perm | PTE_V */
  function MakePte(ppn: nat, perm: nat): nat {
    ppn * 1024 + (if perm % 2 == 1 then perm else perm + 1)
  }

  lemma MakePteFacts(ppn: nat, perm: nat)
    requires perm < 1024
    ensures V(MakePte(ppn, perm)) && Ppn(MakePte(ppn, perm)) == ppn
    ensures Flags(MakePte(ppn, perm)) == if perm % 2 == 1 then perm else perm + 1
  {
  }

  /** PX(level, va) */
  function PX(level: nat, va: nat): nat
    requires level < 3
  {
    if level == 0 then va / 4096 % 512
    else if level == 1 then va / 2097152 % 512
    else va / 1073741824 % 512
  }

  /** The three indices of a virtual address are the digits of its page number in base 512. */
  lemma PxDigits(va: nat)
    requires va < MAXVA
    ensures va / PGSIZE < MAXVPN
    ensures PX(0, va) == va / PGSIZE % SPAN1
    ensures PX(1, va) == va / PGSIZE / SPAN1 % ENTRIES
    ensures PX(2, va) == va / PGSIZE / SPAN1 / ENTRIES < ENTRIES
  {
  }

  ghost function Elements(s: seq<nat>): set<nat> {
    set p | p in s
  }

  datatype Mem = Mem(tables: map<nat, Table>, frames: map<nat, seq<Byte>>, free: seq<nat>) {
    /** Every page is in exactly one of the three parts. */
    ghost predicate Parted() {
      && tables.Keys !! frames.Keys
      && (forall i :: 0 <= i < |free| ==> free[i] !in tables && free[i] !in frames)
      && (forall i, j :: 0 <= i < j < |free| ==> free[i] != free[j])
    }

    /** The pages kalloc can hand out. */
    ghost function FreeSet(): set<nat> {
      Elements(free)
    }

    /** All the pages there are. */
    ghost function Pages(): set<nat> {
      FreeSet() + tables.Keys + frames.Keys
    }

    function SetEntry(p: nat, i: nat, pte: nat): Mem
      requires p in tables && i < ENTRIES
    {
      this.(tables := tables[p := tables[p][i := pte]])
    }

    /** kalloc and memset: the head of the free list becomes an empty page-table page. */
    function NewTable(): Mem
      requires free != []
    {
      this.(tables := tables[free[0] := ZeroTable()], free := free[1..])
    }

    /** kalloc for a data page. */
    function NewFrame(data: seq<Byte>): Mem
      requires free != []
    {
      this.(frames := frames[free[0] := data], free := free[1..])
    }

    function DropFrame(p: nat): Mem {
      this.(frames := frames - {p}, free := [p] + free)
    }

    function DropTable(p: nat): Mem {
      this.(tables := tables - {p}, free := [p] + free)
    }
  }

  /** kalloc and kfree move one page and keep the partition. */
  lemma AllocParted(m: Mem, data: seq<Byte>)
    requires m.Parted() && m.free != []
    ensures m.NewTable().Parted() && m.NewTable().Pages() == m.Pages()
    ensures m.NewFrame(data).Parted() && m.NewFrame(data).Pages() == m.Pages()
    ensures m.NewTable().FreeSet() == m.FreeSet() - {m.free[0]}
    ensures m.NewFrame(data).FreeSet() == m.FreeSet() - {m.free[0]}
  {
    assert m.free == [m.free[0]] + m.free[1..];
    assert forall p :: p in m.free <==> p == m.free[0] || p in m.free[1..];
    assert forall i :: 0 <= i < |m.free[1..]| ==> m.free[1..][i] == m.free[i + 1];
  }

  lemma DropParted(m: Mem, p: nat)
    requires m.Parted()
    ensures p in m.frames ==> m.DropFrame(p).Parted() && m.DropFrame(p).Pages() == m.Pages()
                              && m.DropFrame(p).FreeSet() == m.FreeSet() + {p}
    ensures p in m.tables ==> m.DropTable(p).Parted() && m.DropTable(p).Pages() == m.Pages()
                              && m.DropTable(p).FreeSet() == m.FreeSet() + {p}
  {
    assert forall q :: q in [p] + m.free <==> q == p || q in m.free;
    if p in m.frames {
      assert p !in m.free;
    }
    if p in m.tables {
      assert p !in m.free;
    }
  }

  // ------------------------------------------------------------------ the tree

  /**
    Which page holds which table: mid[i] serves entry i of the root, low[k]
    serves virtual pages k * 512 .. k * 512 + 511.
  */
  datatype Tree = Tree(root: nat, mid: map<nat, nat>, low: map<nat, nat>) {
    ghost function TablePages(): set<nat> {
      {root} + mid.Values + low.Values
    }

    /** No page serves twice. */
    ghost predicate Distinct() {
      && root !in mid.Values && root !in low.Values && mid.Values !! low.Values
      && (forall i, j :: i in mid && j in mid && i != j ==> mid[i] != mid[j])
      && (forall i, j :: i in low && j in low && i != j ==> low[i] != low[j])
    }

    ghost predicate Shape() {
      && (forall i :: i in mid ==> i < ENTRIES)
      && (forall k :: k in low ==> k < ENTRIES * ENTRIES && k / ENTRIES in mid)
    }
  }

  /** An inner entry that is valid points to the given page; otherwise there is no such page. */
  predicate Points(pte: nat, present: bool, page: nat) {
    if present then pte == MakePte(page, 0) else !V(pte)
  }

  ghost predicate RootOk(m: Mem, t: Tree) {
    t.root in m.tables &&
    forall i :: 0 <= i < ENTRIES ==> Points(m.tables[t.root][i], i in t.mid, if i in t.mid then t.mid[i] else 0)
  }

  ghost predicate MidOk(m: Mem, t: Tree, i: nat)
    requires i in t.mid
  {
    t.mid[i] in m.tables &&
    forall j :: 0 <= j < ENTRIES ==>
      Points(m.tables[t.mid[i]][j], i * ENTRIES + j in t.low,
             if i * ENTRIES + j in t.low then t.low[i * ENTRIES + j] else 0)
  }

  /** The tree in memory m is t. */
  ghost predicate TreeOk(m: Mem, t: Tree) {
    && t.Distinct() && t.Shape()
    && RootOk(m, t)
    && (forall i :: i in t.mid ==> MidOk(m, t, i))
    && (forall k :: k in t.low ==> t.low[k] in m.tables)
  }

  /** The leaf entry for virtual page v. */
  function Entry(m: Mem, t: Tree, v: nat): nat {
    if v / SPAN1 in t.low && t.low[v / SPAN1] in m.tables then m.tables[t.low[v / SPAN1]][v % SPAN1] else 0
  }

  predicate Mapped(m: Mem, t: Tree, v: nat) {
    V(Entry(m, t, v))
  }

  /** t grew into t2: the same tables where t has them. */
  ghost predicate Extends(t: Tree, t2: Tree) {
    && t2.root == t.root
    && (forall i :: i in t.mid ==> i in t2.mid && t2.mid[i] == t.mid[i])
    && (forall k :: k in t.low ==> k in t2.low && t2.low[k] == t.low[k])
  }

  lemma TreePagesInTables(m: Mem, t: Tree)
    requires TreeOk(m, t)
    ensures t.TablePages() <= m.tables.Keys
  {
    forall p | p in t.mid.Values ensures p in m.tables {
      var i :| i in t.mid && t.mid[i] == p;
      assert MidOk(m, t, i);
    }
  }

  /** A tree only depends on its own pages. */
  lemma TreeFrame(m: Mem, m2: Mem, t: Tree)
    requires TreeOk(m, t)
    requires forall p :: p in t.TablePages() ==> p in m.tables && p in m2.tables && m2.tables[p] == m.tables[p]
    ensures TreeOk(m2, t)
    ensures forall v: nat :: Entry(m2, t, v) == Entry(m, t, v)
  {
    hide Points;
    forall i | i in t.mid ensures MidOk(m2, t, i) {
      assert MidOk(m, t, i);
      assert t.mid[i] in t.mid.Values;
    }
    forall k | k in t.low ensures t.low[k] in m2.tables && m2.tables[t.low[k]] == m.tables[t.low[k]] {
      assert t.low[k] in t.low.Values;
    }
  }

  /** A new level-1 table below entry i of the root. */
  ghost function AddMid(m: Mem, t: Tree, i: nat): (Mem, Tree)
    requires m.free != [] && t.root in m.NewTable().tables && i < ENTRIES
  {
    (m.NewTable().SetEntry(t.root, i, MakePte(m.free[0], 0)), t.(mid := t.mid[i := m.free[0]]))
  }

  /** A new level-0 table for virtual pages k * 512 .. */
  ghost function AddLow(m: Mem, t: Tree, k: nat): (Mem, Tree)
    requires m.free != [] && k / ENTRIES in t.mid && t.mid[k / ENTRIES] in m.NewTable().tables
  {
    (m.NewTable().SetEntry(t.mid[k / ENTRIES], k % ENTRIES, MakePte(m.free[0], 0)), t.(low := t.low[k := m.free[0]]))
  }

  /** The head of the free list is new to every tree. */
  lemma FreshPage(m: Mem, t: Tree)
    requires m.Parted() && TreeOk(m, t) && m.free != []
    ensures m.free[0] !in m.tables && m.free[0] !in m.frames && m.free[0] !in t.TablePages()
    ensures t.root in m.tables
  {
    TreePagesInTables(m, t);
  }

  lemma AddMidOk(m: Mem, t: Tree, i: nat)
    requires m.Parted() && TreeOk(m, t) && m.free != [] && i < ENTRIES && i !in t.mid
    ensures t.root in m.NewTable().tables
    ensures var (m2, t2) := AddMid(m, t, i); TreeOk(m2, t2)
  {
    FreshPage(m, t);
    var p := m.free[0];
    var (m2, t2) := AddMid(m, t, i);
    assert t2.Distinct() && t2.Shape();
    assert RootOk(m2, t2);
    forall j | j in t2.mid ensures MidOk(m2, t2, j) {
      if j != i {
        assert MidOk(m, t, j);
        assert t.mid[j] in t.mid.Values;
      } else {
        forall q | 0 <= q < ENTRIES
          ensures Points(m2.tables[p][q], i * ENTRIES + q in t2.low,
                         if i * ENTRIES + q in t2.low then t2.low[i * ENTRIES + q] else 0)
        {
          assert (i * ENTRIES + q) / ENTRIES == i;
        }
      }
    }
    forall k | k in t2.low ensures t2.low[k] in m2.tables {
    }
  }

  lemma AddMidEntries(m: Mem, t: Tree, i: nat, v: nat)
    requires m.Parted() && TreeOk(m, t) && m.free != [] && i < ENTRIES && t.root in m.NewTable().tables
    ensures var (m2, t2) := AddMid(m, t, i); Entry(m2, t2, v) == Entry(m, t, v)
  {
    FreshPage(m, t);
    if v / SPAN1 in t.low {
      assert t.low[v / SPAN1] in t.low.Values;
    }
  }

  lemma AddLowOk(m: Mem, t: Tree, k: nat)
    requires m.Parted() && TreeOk(m, t) && m.free != []
    requires k < ENTRIES * ENTRIES && k / ENTRIES in t.mid && k !in t.low
    ensures t.mid[k / ENTRIES] in m.NewTable().tables
    ensures var (m2, t2) := AddLow(m, t, k); TreeOk(m2, t2)
  {
    FreshPage(m, t);
    var p, i := m.free[0], k / ENTRIES;
    assert MidOk(m, t, i);
    assert t.mid[i] in t.mid.Values;
    var (m2, t2) := AddLow(m, t, k);
    assert t2.Distinct() && t2.Shape();
    assert RootOk(m2, t2);
    forall j | j in t2.mid ensures MidOk(m2, t2, j) {
      assert MidOk(m, t, j);
      assert t.mid[j] in t.mid.Values;
      forall q | 0 <= q < ENTRIES
        ensures Points(m2.tables[t2.mid[j]][q], j * ENTRIES + q in t2.low,
                       if j * ENTRIES + q in t2.low then t2.low[j * ENTRIES + q] else 0)
      {
        assert (j * ENTRIES + q) / ENTRIES == j && (j * ENTRIES + q) % ENTRIES == q;
        assert Points(m.tables[t.mid[j]][q], j * ENTRIES + q in t.low,
                      if j * ENTRIES + q in t.low then t.low[j * ENTRIES + q] else 0);
      }
    }
  }

  lemma AddLowEntries(m: Mem, t: Tree, k: nat, v: nat)
    requires m.Parted() && TreeOk(m, t) && m.free != []
    requires k / ENTRIES in t.mid && k !in t.low && t.mid[k / ENTRIES] in m.NewTable().tables
    ensures var (m2, t2) := AddLow(m, t, k); Entry(m2, t2, v) == Entry(m, t, v)
  {
    FreshPage(m, t);
    assert t.mid[k / ENTRIES] in t.mid.Values;
    if v / SPAN1 in t.low {
      assert t.low[v / SPAN1] in t.low.Values;
    }
  }

  /** Storing a leaf entry changes the translation of its own page only. */
  lemma SetLeafOk(m: Mem, t: Tree, v: nat, pte: nat)
    requires TreeOk(m, t) && v / SPAN1 in t.low
    ensures t.low[v / SPAN1] in m.tables
    ensures var m2 := m.SetEntry(t.low[v / SPAN1], v % SPAN1, pte);
      && TreeOk(m2, t)
      && forall w: nat :: Entry(m2, t, w) == if w == v then pte else Entry(m, t, w)
  {
    var k := v / SPAN1;
    var m2 := m.SetEntry(t.low[k], v % SPAN1, pte);
    assert t.low[k] in t.low.Values;
    forall i | i in t.mid ensures MidOk(m2, t, i) {
      assert MidOk(m, t, i);
      assert t.mid[i] in t.mid.Values;
    }
    forall w: nat ensures Entry(m2, t, w) == if w == v then pte else Entry(m, t, w) {
      if w / SPAN1 in t.low && w / SPAN1 != k {
        assert t.low[w / SPAN1] != t.low[k];
      }
    }
  }

  // ----------------------------------------------------------- walking the tree

  /**
    What an operation on tree t may do to memory: take pages off the free list
    for new tables of the tree, and edit the tree's own tables. Frames and other
    trees stay as they were.
  */
  ghost predicate Grown(m: Mem, t: Tree, m2: Mem, t2: Tree) {
    && m.Parted() && m2.Parted() && TreeOk(m, t) && TreeOk(m2, t2) && Extends(t, t2)
    && m2.Pages() == m.Pages() && m2.frames == m.frames && m2.FreeSet() <= m.FreeSet()
    && t2.TablePages() == t.TablePages() + (m.FreeSet() - m2.FreeSet())
    && (forall p :: p in m.tables && p !in t.TablePages() ==> p in m2.tables && m2.tables[p] == m.tables[p])
  }

  ghost predicate SameEntries(m: Mem, t: Tree, m2: Mem, t2: Tree) {
    forall v: nat :: Entry(m2, t2, v) == Entry(m, t, v)
  }

  /** walk: at most new, all-zero tables; no translation changes. */
  ghost predicate Walked(m: Mem, t: Tree, m2: Mem, t2: Tree) {
    Grown(m, t, m2, t2) && SameEntries(m, t, m2, t2)
  }

  lemma GrownTrans(m: Mem, t: Tree, m2: Mem, t2: Tree, m3: Mem, t3: Tree)
    requires Grown(m, t, m2, t2) && Grown(m2, t2, m3, t3)
    ensures Grown(m, t, m3, t3)
  {
    hide TreeOk, Mem.Pages, Tree.TablePages;
    forall p | p in m.tables && p !in t.TablePages() ensures p in m3.tables && m3.tables[p] == m.tables[p] {
      assert p !in m.FreeSet();
    }
  }

  /** Storing a leaf entry edits the tree's own table. */
  lemma SetLeafGrown(m: Mem, t: Tree, v: nat, pte: nat)
    requires m.Parted() && TreeOk(m, t) && v / SPAN1 in t.low && t.low[v / SPAN1] in m.tables
    ensures Grown(m, t, m.SetEntry(t.low[v / SPAN1], v % SPAN1, pte), t)
  {
    SetLeafOk(m, t, v, pte);
    SetEntryParted(m, t.low[v / SPAN1], v % SPAN1, pte);
    assert t.low[v / SPAN1] in t.low.Values;
    hide TreeOk, Mem.Parted, Mem.Pages, Mem.FreeSet;
  }

  lemma WalkedRefl(m: Mem, t: Tree)
    requires m.Parted() && TreeOk(m, t)
    ensures Walked(m, t, m, t)
  {
  }

  lemma WalkedTrans(m: Mem, t: Tree, m2: Mem, t2: Tree, m3: Mem, t3: Tree)
    requires Walked(m, t, m2, t2) && Walked(m2, t2, m3, t3)
    ensures Walked(m, t, m3, t3)
  {
    GrownTrans(m, t, m2, t2, m3, t3);
    hide Grown, Entry;
  }

  lemma MapInsertValues(f: map<nat, nat>, k: nat, x: nat)
    requires k !in f
    ensures f[k := x].Values == f.Values + {x}
  {
    var g := f[k := x];
    assert g[k] in g.Values;
    forall q | q in f.Values ensures q in g.Values {
      var j :| j in f && f[j] == q;
      assert g[j] == q;
    }
  }

  /** Storing into a table moves no page. */
  lemma SetEntryParted(m: Mem, p: nat, i: nat, pte: nat)
    requires m.Parted() && p in m.tables && i < ENTRIES
    ensures m.SetEntry(p, i, pte).Parted()
    ensures m.SetEntry(p, i, pte).Pages() == m.Pages() && m.SetEntry(p, i, pte).FreeSet() == m.FreeSet()
  {
    assert m.SetEntry(p, i, pte).tables.Keys == m.tables.Keys;
  }

  /** One page taken from the free list and linked below the tree. */
  lemma GrowWalked(m: Mem, t: Tree, m2: Mem, t2: Tree, parent: nat, i: nat, pte: nat)
    requires m.Parted() && TreeOk(m, t) && TreeOk(m2, t2) && Extends(t, t2) && m.free != []
    requires parent in t.TablePages() && parent in m.NewTable().tables && i < ENTRIES
    requires m2 == m.NewTable().SetEntry(parent, i, pte)
    requires t2.TablePages() == t.TablePages() + {m.free[0]}
    requires forall v: nat :: Entry(m2, t2, v) == Entry(m, t, v)
    ensures Walked(m, t, m2, t2)
  {
    hide TreeOk, Entry, Mem.Parted, Mem.Pages, Mem.FreeSet, Tree.TablePages;
    FreshPage(m, t);
    AllocParted(m, []);
    SetEntryParted(m.NewTable(), parent, i, pte);
    assert m.free[0] in m.FreeSet() by { HeadIsFree(m); }
  }

  lemma HeadIsFree(m: Mem)
    requires m.free != []
    ensures m.free[0] in m.FreeSet()
  {
  }

  lemma AddMidWalked(m: Mem, t: Tree, i: nat)
    requires m.Parted() && TreeOk(m, t) && m.free != [] && i < ENTRIES && i !in t.mid
    requires t.root in m.NewTable().tables
    ensures var (m2, t2) := AddMid(m, t, i); Walked(m, t, m2, t2)
  {
    var (m2, t2) := AddMid(m, t, i);
    AddMidOk(m, t, i);
    hide TreeOk, Entry, Walked, Mem.Parted;
    forall v: nat ensures Entry(m2, t2, v) == Entry(m, t, v) {
      AddMidEntries(m, t, i, v);
    }
    MapInsertValues(t.mid, i, m.free[0]);
    assert t2.TablePages() == t.TablePages() + {m.free[0]};
    GrowWalked(m, t, m2, t2, t.root, i, MakePte(m.free[0], 0));
  }

  lemma AddLowWalked(m: Mem, t: Tree, k: nat)
    requires m.Parted() && TreeOk(m, t) && m.free != []
    requires k < ENTRIES * ENTRIES && k / ENTRIES in t.mid && k !in t.low && t.mid[k / ENTRIES] in m.NewTable().tables
    ensures var (m2, t2) := AddLow(m, t, k); Walked(m, t, m2, t2)
  {
    var (m2, t2) := AddLow(m, t, k);
    AddLowOk(m, t, k);
    hide TreeOk, Entry, Walked, Mem.Parted;
    forall v: nat ensures Entry(m2, t2, v) == Entry(m, t, v) {
      AddLowEntries(m, t, k, v);
    }
    MapInsertValues(t.low, k, m.free[0]);
    assert t2.TablePages() == t.TablePages() + {m.free[0]};
    assert t.mid[k / ENTRIES] in t.mid.Values;
    GrowWalked(m, t, m2, t2, t.mid[k / ENTRIES], k % ENTRIES, MakePte(m.free[0], 0));
  }

  lemma RootEntry(m: Mem, t: Tree, i: nat)
    requires TreeOk(m, t) && i < ENTRIES
    ensures t.root in m.tables
    ensures if i in t.mid then V(m.tables[t.root][i]) && Ppn(m.tables[t.root][i]) == t.mid[i]
            else !V(m.tables[t.root][i])
  {
    assert Points(m.tables[t.root][i], i in t.mid, if i in t.mid then t.mid[i] else 0);
    if i in t.mid { MakePteFacts(t.mid[i], 0); }
  }

  lemma MidEntry(m: Mem, t: Tree, k: nat)
    requires TreeOk(m, t) && k / ENTRIES in t.mid
    ensures t.mid[k / ENTRIES] in m.tables
    ensures if k in t.low then V(m.tables[t.mid[k / ENTRIES]][k % ENTRIES])
                               && Ppn(m.tables[t.mid[k / ENTRIES]][k % ENTRIES]) == t.low[k]
            else !V(m.tables[t.mid[k / ENTRIES]][k % ENTRIES])
  {
    var i, j := k / ENTRIES, k % ENTRIES;
    assert k == i * ENTRIES + j;
    assert MidOk(m, t, i);
    assert Points(m.tables[t.mid[i]][j], k in t.low, if k in t.low then t.low[k] else 0);
    if k in t.low { MakePteFacts(t.low[k], 0); }
  }

  lemma GrownFacts(m: Mem, t: Tree, m2: Mem, t2: Tree)
    requires Grown(m, t, m2, t2)
    ensures m.Parted() && m2.Parted() && TreeOk(m, t) && TreeOk(m2, t2) && Extends(t, t2)
    ensures m2.Pages() == m.Pages() && m2.frames == m.frames && m2.FreeSet() <= m.FreeSet()
  {
  }

  /** Virtual pages v .. v + n - 1 map to pages ppn .. with permissions perm; everything else is as in m. */
  ghost predicate RangeMapped(m: Mem, t: Tree, m2: Mem, t2: Tree, v: nat, n: nat, ppn: nat, perm: nat) {
    && Grown(m, t, m2, t2)
    && (forall w: nat :: Entry(m2, t2, w) ==
          if v <= w < v + n then MakePte(ppn + (w - v), perm) else Entry(m, t, w))
  }

  lemma RangeMappedNone(m: Mem, t: Tree, v: nat, ppn: nat, perm: nat)
    requires m.Parted() && TreeOk(m, t)
    ensures RangeMapped(m, t, m, t, v, 0, ppn, perm)
  {
    WalkedRefl(m, t);
  }

  /** walk to the next page and store its entry: the range grows by one. */
  lemma RangeMappedNext(m: Mem, t: Tree, m2: Mem, t2: Tree, m3: Mem, t3: Tree, v: nat, n: nat, ppn: nat, perm: nat)
    requires RangeMapped(m, t, m2, t2, v, n, ppn, perm) && Walked(m2, t2, m3, t3)
    requires (v + n) / SPAN1 in t3.low && t3.low[(v + n) / SPAN1] in m3.tables
    ensures RangeMapped(m, t, m3.SetEntry(t3.low[(v + n) / SPAN1], (v + n) % SPAN1, MakePte(ppn + n, perm)), t3,
                        v, n + 1, ppn, perm)
  {
    GrownFacts(m2, t2, m3, t3);
    SetLeafOk(m3, t3, v + n, MakePte(ppn + n, perm));
    SetLeafGrown(m3, t3, v + n, MakePte(ppn + n, perm));
    var m4 := m3.SetEntry(t3.low[(v + n) / SPAN1], (v + n) % SPAN1, MakePte(ppn + n, perm));
    hide TreeOk, Entry, Grown, MakePte;
    GrownTrans(m, t, m2, t2, m3, t3);
    GrownTrans(m, t, m3, t3, m4, t3);
  }

  lemma RangeMappedWalked(m: Mem, t: Tree, m2: Mem, t2: Tree, m3: Mem, t3: Tree, v: nat, n: nat, ppn: nat, perm: nat)
    requires RangeMapped(m, t, m2, t2, v, n, ppn, perm) && Walked(m2, t2, m3, t3)
    ensures RangeMapped(m, t, m3, t3, v, n, ppn, perm)
  {
    GrownTrans(m, t, m2, t2, m3, t3);
    hide Grown, Entry, MakePte;
  }

  lemma RangeMappedFacts(m: Mem, t: Tree, m2: Mem, t2: Tree, v: nat, n: nat, ppn: nat, perm: nat)
    requires RangeMapped(m, t, m2, t2, v, n, ppn, perm)
    ensures m2.Parted() && TreeOk(m2, t2) && t2.root == t.root
    ensures forall w: nat :: w >= v + n ==> Entry(m2, t2, w) == Entry(m, t, w)
  {
  }

  lemma WalkedFacts(m: Mem, t: Tree, m2: Mem, t2: Tree)
    requires Walked(m, t, m2, t2)
    ensures m2.Parted() && TreeOk(m2, t2) && t2.root == t.root
  {
  }

  /** A table missing from the grown tree was missing before. */
  lemma NotThere(m: Mem, t: Tree, m2: Mem, t2: Tree, i: nat, v: nat)
    requires Walked(m, t, m2, t2) && ((i !in t2.mid && i == v / SPAN1 / ENTRIES) || v / SPAN1 !in t2.low)
    ensures v / SPAN1 !in t.low && Entry(m, t, v) == 0
  {
  }

  lemma LowTable(m: Mem, t: Tree, k: nat)
    requires TreeOk(m, t) && k in t.low
    ensures t.low[k] in m.tables
  {
  }

  // ----------------------------------------------------------------- unmapping

  /** Valid, and not a pointer to a lower table. */
  predicate IsLeaf(pte: nat) {
    V(pte) && Flags(pte) != PTE_V
  }

  ghost function FramesOf(m: Mem, t: Tree, v: nat, n: nat): set<nat> {
    set w | v <= w < v + n :: Ppn(Entry(m, t, w))
  }

  /** Virtual pages v .. v + n - 1 map to different data frames. */
  ghost predicate Unaliased(m: Mem, t: Tree, v: nat, n: nat) {
    && (forall w :: v <= w < v + n ==> Ppn(Entry(m, t, w)) in m.frames)
    && (forall w, x :: v <= w < x < v + n ==> Ppn(Entry(m, t, w)) != Ppn(Entry(m, t, x)))
  }

  /** Those of virtual pages v .. v + n - 1 that are mapped leaves map to different data frames. */
  ghost predicate LeavesApart(m: Mem, t: Tree, v: nat, n: nat) {
    && (forall w :: v <= w < v + n && IsLeaf(Entry(m, t, w)) ==> Ppn(Entry(m, t, w)) in m.frames)
    && (forall w, x :: v <= w < x < v + n && IsLeaf(Entry(m, t, w)) && IsLeaf(Entry(m, t, x)) ==>
         Ppn(Entry(m, t, w)) != Ppn(Entry(m, t, x)))
  }

  /** m2 is m with virtual pages v .. v + n - 1 of tree t unmapped, and their frames freed if asked. */
  ghost predicate RangeUnmapped(m: Mem, t: Tree, m2: Mem, v: nat, n: nat, freed: bool) {
    && m.Parted() && m2.Parted() && TreeOk(m, t) && TreeOk(m2, t) && m2.Pages() == m.Pages()
    && m2.tables.Keys == m.tables.Keys
    && (forall p :: p in m.tables && p !in t.TablePages() ==> m2.tables[p] == m.tables[p])
    && (forall w: nat :: Entry(m2, t, w) == if v <= w < v + n then 0 else Entry(m, t, w))
    && m2.frames == (if freed then m.frames - FramesOf(m, t, v, n) else m.frames)
    && m2.FreeSet() == (if freed then m.FreeSet() + FramesOf(m, t, v, n) else m.FreeSet())
  }

  lemma RangeUnmappedNone(m: Mem, t: Tree, v: nat, freed: bool)
    requires m.Parted() && TreeOk(m, t)
    ensures RangeUnmapped(m, t, m, v, 0, freed)
  {
    assert FramesOf(m, t, v, 0) == {};
  }

  lemma RangeUnmappedFacts(m: Mem, t: Tree, m2: Mem, v: nat, n: nat, freed: bool)
    requires RangeUnmapped(m, t, m2, v, n, freed)
    ensures m2.Parted() && TreeOk(m2, t) && m.Parted() && TreeOk(m, t)
    ensures forall w: nat :: Entry(m2, t, w) == if v <= w < v + n then 0 else Entry(m, t, w)
    ensures m2.Pages() == m.Pages()
    ensures m2.frames == (if freed then m.frames - FramesOf(m, t, v, n) else m.frames)
    ensures m2.FreeSet() == (if freed then m.FreeSet() + FramesOf(m, t, v, n) else m.FreeSet())
  {
  }

  /** kfree of the frame behind page v + n. */
  lemma UnmapFrees(m: Mem, t: Tree, m2: Mem, v: nat, n: nat)
    requires RangeUnmapped(m, t, m2, v, n, true) && Unaliased(m, t, v, n + 1)
    ensures Ppn(Entry(m, t, v + n)) in m2.frames
    ensures FramesOf(m, t, v, n + 1) == FramesOf(m, t, v, n) + {Ppn(Entry(m, t, v + n))}
  {
    var p := Ppn(Entry(m, t, v + n));
    assert p in FramesOf(m, t, v, n + 1);
    assert p !in FramesOf(m, t, v, n);
    forall q | q in FramesOf(m, t, v, n) ensures q in FramesOf(m, t, v, n + 1) {
    }
  }

  /** Dropping a frame is invisible to trees. */
  lemma DropFrameTree(m: Mem, t: Tree, p: nat)
    requires TreeOk(m, t)
    ensures TreeOk(m.DropFrame(p), t)
    ensures forall w: nat :: Entry(m.DropFrame(p), t, w) == Entry(m, t, w)
  {
    TreePagesInTables(m, t);
    TreeFrame(m, m.DropFrame(p), t);
  }

  ghost function Unmapped1(m2: Mem, t: Tree, x: nat, freed: bool): Mem
    requires x / SPAN1 in t.low && t.low[x / SPAN1] in m2.tables
  {
    if freed then m2.DropFrame(Ppn(Entry(m2, t, x))).SetEntry(t.low[x / SPAN1], x % SPAN1, 0)
    else m2.SetEntry(t.low[x / SPAN1], x % SPAN1, 0)
  }

  /** Clearing an entry of the tree and, before that, dropping frame p if it is given. */
  lemma ClearEntry(m2: Mem, t: Tree, x: nat, freed: bool)
    requires m2.Parted() && TreeOk(m2, t) && x / SPAN1 in t.low && t.low[x / SPAN1] in m2.tables
    requires freed ==> Ppn(Entry(m2, t, x)) in m2.frames
    ensures var m4, p := Unmapped1(m2, t, x, freed), Ppn(Entry(m2, t, x));
      && m4.Parted() && TreeOk(m4, t) && m4.Pages() == m2.Pages() && m4.tables.Keys == m2.tables.Keys
      && (forall w: nat :: Entry(m4, t, w) == if w == x then 0 else Entry(m2, t, w))
      && m4.frames == (if freed then m2.frames - {p} else m2.frames)
      && m4.FreeSet() == (if freed then m2.FreeSet() + {p} else m2.FreeSet())
      && (forall q :: q in m2.tables && q !in t.TablePages() ==> m4.tables[q] == m2.tables[q])
  {
    var k := t.low[x / SPAN1];
    assert k in t.low.Values;
    var p := Ppn(Entry(m2, t, x));
    var m3 := if freed then m2.DropFrame(p) else m2;
    if freed {
      DropParted(m2, p);
      DropFrameTree(m2, t, p);
    }
    SetLeafOk(m3, t, x, 0);
    SetEntryParted(m3, k, x % SPAN1, 0);
    var m4 := m3.SetEntry(k, x % SPAN1, 0);
    assert m4 == Unmapped1(m2, t, x, freed);
    hide TreeOk, Entry, Mem.Parted, Mem.Pages, Mem.FreeSet, Unmapped1;
    assert m4.tables.Keys == m2.tables.Keys;
  }

  lemma RangeUnmappedNext(m: Mem, t: Tree, m2: Mem, v: nat, n: nat, freed: bool)
    requires RangeUnmapped(m, t, m2, v, n, freed)
    requires freed ==> Unaliased(m, t, v, n + 1)
    requires (v + n) / SPAN1 in t.low && t.low[(v + n) / SPAN1] in m2.tables
    ensures RangeUnmapped(m, t, Unmapped1(m2, t, v + n, freed), v, n + 1, freed)
  {
    hide TreeOk, Entry, Mem.Parted, Mem.Pages, Mem.FreeSet, FramesOf, Unmapped1, Tree.TablePages, Unaliased, Ppn;
    if freed {
      UnmapFrees(m, t, m2, v, n);
    }
    ClearEntry(m2, t, v + n, freed);
  }

  lemma UnaliasedLeaves(m: Mem, t: Tree, v: nat, n: nat)
    requires Unaliased(m, t, v, n)
    ensures LeavesApart(m, t, v, n)
  {
    hide Entry, Ppn, IsLeaf;
  }

  /** As far as every page is a leaf, nothing is aliased. */
  lemma LeavesUnaliased(m: Mem, t: Tree, v: nat, n: nat, k: nat)
    requires LeavesApart(m, t, v, n) && k <= n && forall w :: v <= w < v + k ==> IsLeaf(Entry(m, t, w))
    ensures Unaliased(m, t, v, k)
  {
    hide Entry, Ppn, IsLeaf;
  }

  lemma LeafIsValid(pte: nat)
    ensures IsLeaf(pte) <==> V(pte) && Flags(pte) != PTE_V
    ensures !IsLeaf(0)
  {
  }

  lemma RangeMappedZero(m: Mem, t: Tree, m2: Mem, t2: Tree, v: nat, ppn: nat, perm: nat)
    requires RangeMapped(m, t, m2, t2, v, 0, ppn, perm)
    ensures Walked(m, t, m2, t2)
  {
  }

  lemma RangeMappedGrown(m: Mem, t: Tree, m2: Mem, t2: Tree, v: nat, n: nat, ppn: nat, perm: nat)
    requires RangeMapped(m, t, m2, t2, v, n, ppn, perm)
    ensures Grown(m, t, m2, t2)
  {
  }
}
