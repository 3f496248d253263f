module BufferCache {
  // bio.c: the buffer cache in front of the disk. Every method is one critical
  // section, so a history of the cache is a sequence of these calls made by any
  // mixture of processes. The wait inside acquiresleep is the guard !locked of
  // AcquireSleep.
  //
  // CacheState is the value of the whole cache together with two ghost views.
  // logical is the flat disk the file system believes in: it changes only when a
  // buffer is logged (bpin, absorption) or written (bwrite). trace records the
  // platter after every single-block write, so that a crash can be placed between
  // any two of them.

  import opened Wrappers
  import opened Blocks
  import opened LruList

  const NBUF := 30

  datatype Buf = Buf(valid: bool, dev: nat, blockno: nat, refcnt: nat, locked: bool, data: Block)

  datatype CacheState = CacheState(
    dev: nat,
    bufs: seq<Buf>,
    disk: Disk,
    trace: seq<Disk>,
    logical: Disk,
    refs: seq<nat>,       // per buffer: bget calls not yet undone by brelse
    pin: map<nat, nat>    // logged block -> the buffer bpin holds for it
  ) {
    predicate Holds(i: nat, blockno: nat)
      requires i < |bufs|
    {
      bufs[i].dev == dev && bufs[i].blockno == blockno
    }

    predicate Pinned(i: nat)
      requires i < |bufs|
    {
      bufs[i].dev == dev && bufs[i].blockno in pin && pin[bufs[i].blockno] == i
    }

    /** A block number has at most one buffer. */
    ghost predicate Unique() {
      forall i, j :: 0 <= i < j < |bufs| && bufs[i].dev == dev && bufs[j].dev == dev
                     ==> bufs[i].blockno != bufs[j].blockno
    }

    /** Reference counts are exactly the holders, the waiters and the log's pin. */
    ghost predicate Counted()
      requires |bufs| == |refs|
    {
      forall i :: 0 <= i < |bufs| ==>
        && bufs[i].refcnt == refs[i] + (if Pinned(i) then 1 else 0)
        && (bufs[i].locked ==> refs[i] > 0)
        && (bufs[i].dev == dev ==> bufs[i].blockno < |disk|)
    }

    /** Only pinned blocks may differ from the disk; an unlocked valid buffer shows logical content. */
    ghost predicate Coherent()
      requires |logical| == |disk|
    {
      && (forall x :: x in pin ==> pin[x] < |bufs| && Holds(pin[x], x) && bufs[pin[x]].valid)
      && (forall x :: 0 <= x < |disk| && x !in pin ==> logical[x] == disk[x])
      && (forall i :: 0 <= i < |bufs| && bufs[i].dev == dev && bufs[i].blockno < |disk|
                      && bufs[i].valid && !bufs[i].locked
                      ==> bufs[i].data == logical[bufs[i].blockno])
    }

    ghost predicate Inv() {
      && dev != 0 && |bufs| == |refs| == NBUF && |logical| == |disk|
      && Unique() && Counted() && Coherent()
    }

    /** No buffer is locked: nobody is in the middle of changing one. */
    ghost predicate Quiet() {
      forall i :: 0 <= i < |bufs| ==> !bufs[i].locked
    }

    /** Block blockno has no buffer, or its buffer is not locked. */
    ghost predicate Available(blockno: nat) {
      forall i :: 0 <= i < |bufs| && Holds(i, blockno) ==> !bufs[i].locked
    }

    /** Buffer i is locked by the caller and shows a block of the device. */
    predicate Held(i: nat) {
      i < |bufs| && bufs[i].locked && bufs[i].valid && bufs[i].dev == dev
    }

    // The transitions.

    function Hit(i: nat): CacheState
      requires i < |bufs| == |refs|
    {
      this.(bufs := bufs[i := bufs[i].(refcnt := bufs[i].refcnt + 1)], refs := refs[i := refs[i] + 1])
    }

    function Recycle(i: nat, blockno: nat): CacheState
      requires i < |bufs| == |refs|
    {
      this.(bufs := bufs[i := bufs[i].(dev := dev, blockno := blockno, valid := false, refcnt := 1)],
            refs := refs[i := refs[i] + 1])
    }

    function Lock(i: nat): CacheState
      requires i < |bufs|
    {
      this.(bufs := bufs[i := bufs[i].(locked := true)])
    }

    /** bread's disk read into a buffer that is not valid yet. */
    function Fill(i: nat): CacheState
      requires i < |bufs| && (!bufs[i].valid ==> bufs[i].blockno < |disk|)
    {
      if bufs[i].valid then this
      else this.(bufs := bufs[i := bufs[i].(data := disk[bufs[i].blockno], valid := true)])
    }

    function SetData(i: nat, data: Block): CacheState
      requires i < |bufs|
    {
      this.(bufs := bufs[i := bufs[i].(data := data)])
    }

    function Bwrite(i: nat): CacheState
      requires i < |bufs| && bufs[i].blockno < |disk| == |logical|
    {
      var d := disk[bufs[i].blockno := bufs[i].data];
      this.(disk := d, logical := logical[bufs[i].blockno := bufs[i].data], trace := trace + [d])
    }

    function Brelse(i: nat): CacheState
      requires i < |bufs| == |refs| && bufs[i].refcnt > 0 && refs[i] > 0
    {
      this.(bufs := bufs[i := bufs[i].(locked := false, refcnt := bufs[i].refcnt - 1)],
            refs := refs[i := refs[i] - 1])
    }

    /** Absorption: the block is pinned already, only its logical content moves on. */
    function Absorb(i: nat): CacheState
      requires i < |bufs| && bufs[i].blockno < |logical|
    {
      this.(logical := logical[bufs[i].blockno := bufs[i].data])
    }

    /** bpin by log_write: from now on the cache owes the disk this content. */
    function Pin(i: nat): CacheState
      requires i < |bufs| && bufs[i].blockno < |logical|
    {
      Absorb(i).(pin := pin[bufs[i].blockno := i],
                 bufs := bufs[i := bufs[i].(refcnt := bufs[i].refcnt + 1)])
    }

    function Bunpin(i: nat): CacheState
      requires i < |bufs| && bufs[i].refcnt > 0
    {
      this.(pin := pin - {bufs[i].blockno}, bufs := bufs[i := bufs[i].(refcnt := bufs[i].refcnt - 1)])
    }
  }

  /** The parts of the invariant that callers need without the whole of it. */
  lemma Sizes(s: CacheState)
    requires s.Inv()
    ensures s.dev != 0 && |s.bufs| == |s.refs| == NBUF && |s.logical| == |s.disk|
  {
  }

  lemma HeldFacts(s: CacheState, i: nat)
    requires s.Inv() && s.Held(i)
    ensures i < NBUF && s.bufs[i].blockno < |s.disk| && s.refs[i] > 0 && s.bufs[i].refcnt > 0
  {
  }

  lemma PinnedFacts(s: CacheState, x: nat, i: nat)
    requires s.Inv() && x in s.pin && i < NBUF && s.Holds(i, x)
    ensures s.pin[x] == i && s.Pinned(i) && s.bufs[i].refcnt > 0
  {
  }

  /** An unlocked valid buffer shows the logical content of its block. */
  lemma ShownFacts(s: CacheState, i: nat, x: nat)
    requires s.Inv() && i < NBUF && s.Holds(i, x) && s.bufs[i].valid && !s.bufs[i].locked
    ensures x < |s.disk| && s.bufs[i].data == s.logical[x]
  {
  }

  lemma UnusedFacts(s: CacheState, i: nat)
    requires s.Inv() && i < NBUF && s.bufs[i].refcnt == 0
    ensures !s.bufs[i].locked
  {
  }

  // What every step keeps.

  lemma HitInv(s: CacheState, i: nat)
    requires s.Inv() && i < NBUF && s.bufs[i].dev == s.dev
    ensures s.Hit(i).Inv()
  {
    assert forall j :: 0 <= j < NBUF ==> s.Hit(i).Pinned(j) == s.Pinned(j);
  }

  /** Recycling never loses logical content: an unreferenced buffer is not pinned. */
  lemma RecycleInv(s: CacheState, i: nat, blockno: nat)
    requires s.Inv() && i < NBUF && s.bufs[i].refcnt == 0 && blockno < |s.disk|
    requires forall j :: 0 <= j < NBUF ==> !s.Holds(j, blockno)
    ensures s.Recycle(i, blockno).Inv()
    ensures s.bufs[i].valid && s.bufs[i].dev == s.dev ==> s.bufs[i].data == s.disk[s.bufs[i].blockno]
  {
    var t := s.Recycle(i, blockno);
    assert blockno !in s.pin;
    assert !s.Pinned(i);
    assert forall j :: 0 <= j < NBUF && j != i ==> t.Pinned(j) == s.Pinned(j);
    assert forall x :: x in t.pin ==> t.pin[x] != i;
    assert forall j :: 0 <= j < NBUF && s.bufs[j].dev == s.dev ==> s.Holds(j, s.bufs[j].blockno);
  }

  lemma LockInv(s: CacheState, i: nat)
    requires s.Inv() && i < NBUF && s.refs[i] > 0
    ensures s.Lock(i).Inv()
  {
    assert forall j :: 0 <= j < NBUF ==> s.Lock(i).Pinned(j) == s.Pinned(j);
  }

  /** bread shows the latest logical content, whether it hits the cache or reads the disk. */
  lemma FillInv(s: CacheState, i: nat)
    requires s.Inv() && i < NBUF && s.bufs[i].dev == s.dev && s.bufs[i].locked
    requires s.bufs[i].valid ==> s.bufs[i].data == s.logical[s.bufs[i].blockno]
    ensures s.Fill(i).Inv()
    ensures s.Fill(i).bufs[i].valid && s.Fill(i).bufs[i].data == s.logical[s.bufs[i].blockno]
  {
    var t := s.Fill(i);
    assert forall j :: 0 <= j < NBUF ==> t.Pinned(j) == s.Pinned(j);
    if !s.bufs[i].valid {
      var x := s.bufs[i].blockno;
      assert x !in s.pin;
    }
  }

  lemma SetDataInv(s: CacheState, i: nat, data: Block)
    requires s.Inv() && i < NBUF && s.bufs[i].locked
    ensures s.SetData(i, data).Inv()
  {
    assert forall j :: 0 <= j < NBUF ==> s.SetData(i, data).Pinned(j) == s.Pinned(j);
  }

  lemma BwriteInv(s: CacheState, i: nat)
    requires s.Inv() && s.Held(i)
    ensures s.Bwrite(i).Inv()
  {
    var t := s.Bwrite(i);
    assert forall j :: 0 <= j < NBUF ==> t.Pinned(j) == s.Pinned(j);
    assert forall j :: 0 <= j < NBUF && j != i && s.bufs[j].dev == s.dev ==> s.bufs[j].blockno != s.bufs[i].blockno;
  }

  /** A released buffer leaves the cache coherent if and only if its changes, if any, were logged or written. */
  lemma BrelseInv(s: CacheState, i: nat)
    requires s.Inv() && s.Held(i)
    ensures s.bufs[i].blockno < |s.logical| && s.refs[i] > 0 && s.bufs[i].refcnt > 0
    ensures s.Brelse(i).Inv() <==> s.bufs[i].data == s.logical[s.bufs[i].blockno]
  {
    assert forall j :: 0 <= j < NBUF ==> s.Brelse(i).Pinned(j) == s.Pinned(j);
  }

  lemma AbsorbInv(s: CacheState, i: nat)
    requires s.Inv() && s.Held(i) && s.bufs[i].blockno in s.pin
    ensures s.Absorb(i).Inv()
  {
    var t := s.Absorb(i);
    assert forall j :: 0 <= j < NBUF ==> t.Pinned(j) == s.Pinned(j);
    assert t.Counted();
    assert forall j :: 0 <= j < NBUF && j != i && s.bufs[j].dev == s.dev ==> s.bufs[j].blockno != s.bufs[i].blockno;
  }

  lemma PinInv(s: CacheState, i: nat)
    requires s.Inv() && s.Held(i) && s.bufs[i].blockno !in s.pin
    ensures s.Pin(i).Inv()
  {
    var t := s.Pin(i);
    var x := s.bufs[i].blockno;
    assert !s.Pinned(i) && t.Pinned(i);
    assert forall j :: 0 <= j < NBUF && j != i && s.bufs[j].dev == s.dev ==> s.bufs[j].blockno != x;
    assert t.Counted() by {
      forall j | 0 <= j < NBUF && j != i ensures t.Pinned(j) == s.Pinned(j) {
      }
    }
  }

  lemma BunpinInv(s: CacheState, i: nat)
    requires s.Inv() && i < NBUF && s.Pinned(i)
    requires s.disk[s.bufs[i].blockno] == s.logical[s.bufs[i].blockno]
    ensures s.Bunpin(i).Inv()
  {
    var t := s.Bunpin(i);
    assert forall j :: 0 <= j < NBUF && j != i && s.bufs[j].dev == s.dev ==> s.bufs[j].blockno != s.bufs[i].blockno;
    assert forall j :: 0 <= j < NBUF && j != i ==> t.Pinned(j) == s.Pinned(j);
    assert !t.Pinned(i);
  }

  class Cache {
    const dev: nat
    const lru: Lru
    var bufs: seq<Buf>
    var disk: Disk
    ghost var trace: seq<Disk>
    ghost var logical: Disk
    ghost var refs: seq<nat>
    ghost var pin: map<nat, nat>

    ghost function Footprint(): set<object> {
      {this, lru, lru.next, lru.prev}
    }

    ghost function State(): CacheState
      reads this
    {
      CacheState(dev, bufs, disk, trace, logical, refs, pin)
    }

    ghost predicate Valid()
      reads Footprint()
    {
      State().Inv() && lru.n == NBUF && lru.Valid()
    }

    /** i is unreferenced, and every buffer used less recently is referenced. */
    ghost predicate LeastRecentUnused(i: nat)
      requires Valid() && i < NBUF
      reads Footprint()
    {
      && bufs[i].refcnt == 0
      && exists k :: 0 <= k < NBUF && lru.order[k] == i
           && forall j :: k < j < NBUF ==> bufs[lru.order[j]].refcnt > 0
    }

    /** binit: all buffers empty, on device 0, in one list. */
    constructor (device: nat, platter: Disk)
      requires device != 0
      ensures Valid() && State().Quiet()
      ensures dev == device && disk == platter && logical == platter && trace == [] && pin == map[]
      ensures fresh(lru) && fresh(lru.next) && fresh(lru.prev)
    {
      dev := device;
      bufs := seq(NBUF, _ => Buf(false, 0, 0, 0, false, ZeroBlock()));
      lru := new Lru(NBUF);
      disk := platter;
      trace := [];
      logical := platter;
      refs := seq(NBUF, _ => 0);
      pin := map[];
    }

    /** bget's forward scan for a cached copy. */
    method Lookup(d: nat, blockno: nat) returns (r: Option<nat>)
      requires Valid()
      ensures r.Some? ==> r.value < NBUF && bufs[r.value].dev == d && bufs[r.value].blockno == blockno
      ensures r.None? ==> forall i :: 0 <= i < NBUF ==> !(bufs[i].dev == d && bufs[i].blockno == blockno)
    {
      assert lru.Linked(lru.At(-1), lru.At(0));
      var b := lru.next[NBUF];
      ghost var k := 0;
      while b != NBUF
        invariant 0 <= k <= NBUF && b == lru.At(k)
        invariant forall j :: 0 <= j < k ==> !(bufs[lru.order[j]].dev == d && bufs[lru.order[j]].blockno == blockno)
        decreases NBUF - k
      {
        if bufs[b].dev == d && bufs[b].blockno == blockno {
          return Some(b);
        }
        assert lru.Linked(lru.At(k), lru.At(k + 1));
        b := lru.next[b];
        k := k + 1;
      }
      forall i | 0 <= i < NBUF ensures !(bufs[i].dev == d && bufs[i].blockno == blockno) {
        assert i in lru.order;
      }
      return None;
    }

    /** bget's backward scan: the least recently used buffer nobody references. */
    method Victim() returns (r: Option<nat>)
      requires Valid()
      ensures r.None? ==> forall i :: 0 <= i < NBUF ==> bufs[i].refcnt > 0
      ensures r.Some? ==> r.value < NBUF && LeastRecentUnused(r.value)
    {
      assert lru.Linked(lru.At(NBUF - 1), lru.At(NBUF));
      var b := lru.prev[NBUF];
      ghost var k := NBUF - 1;
      while b != NBUF
        invariant -1 <= k < NBUF && b == lru.At(k)
        invariant forall j :: k < j < NBUF ==> bufs[lru.order[j]].refcnt > 0
        decreases k + 1
      {
        if bufs[b].refcnt == 0 {
          return Some(b);
        }
        assert lru.Linked(lru.At(k - 1), lru.At(k));
        b := lru.prev[b];
        k := k - 1;
      }
      forall i | 0 <= i < NBUF ensures bufs[i].refcnt > 0 {
        assert i in lru.order;
      }
      return None;
    }

    /** The part of bget under bcache.lock. None is the "no buffers" panic. */
    method Bget(d: nat, blockno: nat) returns (r: Option<nat>)
      requires Valid() && d == dev && blockno < |disk|
      modifies this`refs, this`bufs
      ensures Valid()
      ensures r.None? ==> State() == old(State())
      ensures r.None? ==> forall i :: 0 <= i < NBUF ==> bufs[i].refcnt > 0 && !State().Holds(i, blockno)
      ensures r.Some? ==> r.value < NBUF
      ensures r.Some? && old(State()).Holds(r.value, blockno) ==> State() == old(State()).Hit(r.value)
      ensures r.Some? && !old(State()).Holds(r.value, blockno) ==>
        && State() == old(State()).Recycle(r.value, blockno)
        && (forall i :: 0 <= i < NBUF ==> !old(State()).Holds(i, blockno))
        && old(LeastRecentUnused(r.value))
    {
      hide CacheState.Inv, Lru.Valid;
      ghost var s := State();
      Sizes(s);
      r := Lookup(d, blockno);
      if r.Some? {
        var i := r.value;
        HitInv(s, i);
        refs := refs[i := refs[i] + 1];
        bufs := bufs[i := bufs[i].(refcnt := bufs[i].refcnt + 1)];
      } else {
        r := Victim();
        if r.Some? {
          var i := r.value;
          assert forall j :: 0 <= j < NBUF ==> !s.Holds(j, blockno);
          RecycleInv(s, i, blockno);
          refs := refs[i := refs[i] + 1];
          bufs := bufs[i := bufs[i].(dev := d, blockno := blockno, valid := false, refcnt := 1)];
        }
      }
    }

    /** acquiresleep(&b->lock) at the moment it stops waiting. */
    method AcquireSleep(i: nat)
      requires Valid() && i < NBUF && refs[i] > 0 && !bufs[i].locked
      modifies this`bufs
      ensures Valid() && State() == old(State()).Lock(i)
    {
      hide CacheState.Inv, Lru.Valid;
      Sizes(State());
      LockInv(State(), i);
      bufs := bufs[i := bufs[i].(locked := true)];
      assert State() == old(State()).Lock(i);
    }

    /** bread: a locked buffer with the latest logical content of the block. */
    method Bread(d: nat, blockno: nat) returns (r: Option<nat>)
      requires Valid() && d == dev && blockno < |disk|
      requires State().Available(blockno)
      modifies this`refs, this`bufs
      ensures Valid()
      ensures disk == old(disk) && logical == old(logical) && trace == old(trace) && pin == old(pin)
      ensures r.None? ==> State() == old(State()) && forall i :: 0 <= i < NBUF ==> bufs[i].refcnt > 0
      ensures r.Some? ==>
        && State().Held(r.value) && bufs[r.value].blockno == blockno
        && bufs[r.value].data == logical[blockno]
        && r.value < |old(bufs)| && !old(bufs)[r.value].locked
        && bufs == old(bufs)[r.value := bufs[r.value]]
    {
      hide CacheState.Inv, Lru.Valid;
      ghost var s := State();
      Sizes(s);
      r := Bget(d, blockno);
      if r.Some? {
        var i := r.value;
        if s.Holds(i, blockno) {
          if s.bufs[i].valid { ShownFacts(s, i, blockno); }
        } else {
          UnusedFacts(s, i);
        }
        AcquireSleep(i);
        ghost var t := State();
        FillInv(t, i);
        if !bufs[i].valid {
          bufs := bufs[i := bufs[i].(data := disk[blockno], valid := true)];
        }
        assert State() == t.Fill(i);
      }
    }

    /** The holder overwrites b->data. */
    method SetData(i: nat, data: Block)
      requires Valid() && State().Held(i)
      modifies this`bufs
      ensures Valid() && State() == old(State()).SetData(i, data)
    {
      hide CacheState.Inv, Lru.Valid;
      HeldFacts(State(), i);
      SetDataInv(State(), i, data);
      bufs := bufs[i := bufs[i].(data := data)];
      assert State() == old(State()).SetData(i, data);
    }

    /** bwrite: one atomic block write to the platter. */
    method Bwrite(i: nat)
      requires Valid() && State().Held(i)
      modifies this`disk, this`trace, this`logical
      ensures Valid() && State() == old(State()).Bwrite(i)
    {
      hide CacheState.Inv, Lru.Valid;
      Sizes(State());
      HeldFacts(State(), i);
      BwriteInv(State(), i);
      disk := disk[bufs[i].blockno := bufs[i].data];
      logical := logical[bufs[i].blockno := bufs[i].data];
      trace := trace + [disk];
      assert State() == old(State()).Bwrite(i);
    }

    /** brelse. The cache is coherent afterwards exactly when the buffer carries its logical content again. */
    method Brelse(i: nat)
      requires Valid() && State().Held(i)
      modifies this`refs, this`bufs, lru, lru.next, lru.prev
      ensures State() == old(State()).Brelse(i) && lru.Valid()
      ensures Valid() <==> old(bufs[i].data == logical[bufs[i].blockno])
      ensures bufs[i].refcnt > 0 ==> lru.order == old(lru.order)
      ensures bufs[i].refcnt == 0 ==>
        exists k :: 0 <= k < NBUF && old(lru.order)[k] == i && lru.order == [i] + Without(old(lru.order), k)
    {
      hide CacheState.Inv;
      Sizes(State());
      HeldFacts(State(), i);
      BrelseInv(State(), i);
      refs := refs[i := refs[i] - 1];
      bufs := bufs[i := bufs[i].(locked := false, refcnt := bufs[i].refcnt - 1)];
      assert State() == old(State()).Brelse(i);
      if bufs[i].refcnt == 0 {
        lru.MoveToFront(i);
      }
    }

    /** Ghost step of log_write for a block the transaction already contains. */
    ghost method Absorb(i: nat)
      requires Valid() && State().Held(i) && bufs[i].blockno in pin
      modifies this`logical
      ensures Valid() && State() == old(State()).Absorb(i)
    {
      hide CacheState.Inv, Lru.Valid;
      Sizes(State());
      HeldFacts(State(), i);
      AbsorbInv(State(), i);
      logical := logical[bufs[i].blockno := bufs[i].data];
      assert State() == old(State()).Absorb(i);
    }

    /** bpin, with the block's new content becoming its logical content. */
    method Bpin(i: nat)
      requires Valid() && State().Held(i) && bufs[i].blockno !in pin
      modifies this`pin, this`logical, this`bufs
      ensures Valid() && State() == old(State()).Pin(i)
    {
      hide CacheState.Inv, Lru.Valid;
      Sizes(State());
      HeldFacts(State(), i);
      PinInv(State(), i);
      logical := logical[bufs[i].blockno := bufs[i].data];
      pin := pin[bufs[i].blockno := i];
      bufs := bufs[i := bufs[i].(refcnt := bufs[i].refcnt + 1)];
      assert State() == old(State()).Pin(i);
    }

    /** bunpin, once the block is installed. */
    method Bunpin(i: nat)
      requires Valid() && i < NBUF && State().Pinned(i)
      requires disk[bufs[i].blockno] == logical[bufs[i].blockno]
      modifies this`pin, this`bufs
      ensures Valid() && State() == old(State()).Bunpin(i)
    {
      hide CacheState.Inv, Lru.Valid;
      Sizes(State());
      PinnedFacts(State(), bufs[i].blockno, i);
      BunpinInv(State(), i);
      pin := pin - {bufs[i].blockno};
      bufs := bufs[i := bufs[i].(refcnt := bufs[i].refcnt - 1)];
      assert State() == old(State()).Bunpin(i);
    }
  }
}
