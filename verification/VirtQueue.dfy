module VirtQueue {
  // The driver's and the device's view of the virtqueue of virtio_disk.c, as a
  // value. A request uses a chain of three descriptors; it is in the avail ring,
  // in the device, in the used ring, or complete and waiting to be freed. The
  // counters a, c, u and d are the true counts of entries made available, taken by
  // the device, used, and seen by the driver; the program stores them in 16 bits.

  import opened Wrappers

  const NUM := 8
  const WRAP16 := 65536

  /** The ring slot of an entry, a 16-bit index, and its increment. */
  function Slot(k: nat): (r: nat)
    ensures r < NUM
  {
    k % NUM
  }

  function Wrap(k: nat): nat {
    k % WRAP16
  }

  function Inc(x: nat): nat {
    (x + 1) % WRAP16
  }

  /** What a descriptor points to: disk.ops[i], a buffer's data, or disk.info[i].status. */
  datatype Addr = Zero | Op(i: nat) | Data(b: nat) | Status(i: nat)

  /** write and more are the flags VRING_DESC_F_WRITE (the device writes) and VRING_DESC_F_NEXT. */
  datatype Desc = Desc(addr: Addr, len: nat, write: bool, more: bool, next: nat)

  const BLANK := Desc(Zero, 0, false, false, 0)

  const BSIZE := 1024

  /** struct virtio_blk_req, whose size is 16. */
  datatype Req = Req(write: bool, sector: nat)

  /** b->blockno * (BSIZE / 512), in 32 bits. */
  function Sector(blockno: nat): nat {
    blockno * 2 % 0x1_0000_0000
  }

  /** The three descriptors of a request. */
  function Head(h: nat, d1: nat): Desc {
    Desc(Op(h), 16, false, true, d1)
  }

  function Body(b: nat, write: bool, d2: nat): Desc {
    Desc(Data(b), BSIZE, !write, true, d2)
  }

  function Tail(h: nat): Desc {
    Desc(Status(h), 1, true, false, 0)
  }

  datatype Info = Info(b: Option<nat>, status: nat)

  datatype Phase = Avail(k: nat) | Device | Used(k: nat) | Complete

  /** A call of virtio_disk_rw: the buffer, its block number, and the direction. */
  datatype Rw = Rw(b: nat, blockno: nat, write: bool)

  /** The rest of a chain, what was asked for, and the serial number of the request. */
  datatype Chain = Chain(d1: nat, d2: nat, r: Rw, serial: nat, phase: Phase)

  /** own[i] is the head of the chain descriptor i is in. */
  datatype Queue = Queue(free: seq<bool>, desc: seq<Desc>, ops: seq<Req>, info: seq<Info>, avail: seq<nat>,
                         used: seq<nat>, busy: set<nat>,
                         own: seq<Option<nat>>, chains: map<nat, Chain>, a: nat, c: nat, u: nat, d: nat,
                         serial: nat, returned: seq<nat>)
  {
    predicate Sized() {
      && |free| == NUM && |desc| == NUM && |ops| == NUM && |info| == NUM && |avail| == NUM && |used| == NUM
      && |own| == NUM
    }

    /** Descriptors are free or in exactly one chain. */
    predicate OwnOk(i: nat)
      requires Sized() && i < NUM
    {
      match own[i]
      case None => free[i] && desc[i] == BLANK
      case Some(h) => !free[i] && h in chains && (i == h || i == chains[h].d1 || i == chains[h].d2)
    }

    /** The chain at h is linked head, data, status. */
    predicate ChainOk(h: nat)
      requires Sized() && h in chains
    {
      var t := chains[h];
      && h < NUM && t.d1 < NUM && t.d2 < NUM && h != t.d1 && h != t.d2 && t.d1 != t.d2
      && own[h] == Some(h) && own[t.d1] == Some(h) && own[t.d2] == Some(h)
      && desc[h] == Head(h, t.d1) && desc[t.d1] == Body(t.r.b, t.r.write, t.d2) && desc[t.d2] == Tail(h)
      && ops[h] == Req(t.r.write, Sector(t.r.blockno))
    }

    ghost predicate Partition() {
      && Sized()
      && (forall i :: 0 <= i < NUM ==> OwnOk(i))
      && (forall h :: h in chains ==> ChainOk(h))
    }

    /** Where a request is, and what the rings and the buffer say about it. */
    predicate PhaseOk(h: nat)
      requires Sized() && h in chains && h < NUM
    {
      var t := chains[h];
      && info[h].b == Some(t.r.b) && t.serial < serial
      && match t.phase
         case Avail(k) => c <= k < a && avail[Slot(k)] == h && t.r.b in busy
         case Device => t.r.b in busy
         case Used(k) => d <= k < u && used[Slot(k)] == h && t.r.b in busy && info[h].status == 0
         case Complete => t.r.b !in busy
    }

    /** The entries between the two ends of a ring are requests at that place. */
    ghost predicate Rings() {
      && Sized() && c <= a && d <= u
      && (forall k :: c <= k < a ==> AvailAt(k))
      && (forall k :: d <= k < u ==> UsedAt(k))
      && (forall h :: h in chains ==> h < NUM && PhaseOk(h))
    }

    predicate AvailAt(k: nat)
      requires Sized()
    {
      avail[Slot(k)] in chains && chains[avail[Slot(k)]].phase == Avail(k)
    }

    predicate UsedAt(k: nat)
      requires Sized()
    {
      used[Slot(k)] in chains && chains[used[Slot(k)]].phase == Used(k)
    }

    /** Requests and buffers in flight are different; completions are handed back once. */
    ghost predicate Serials() {
      && (forall h, g :: h in chains && g in chains && h != g ==>
            chains[h].serial != chains[g].serial && chains[h].r.b != chains[g].r.b)
      && (forall h :: h in chains ==> (chains[h].phase.Complete? <==> chains[h].serial in returned))
      && (forall i, j :: 0 <= i < j < |returned| ==> returned[i] != returned[j])
      && (forall i :: 0 <= i < |returned| ==> returned[i] < serial)
    }

    ghost predicate Inv() {
      Partition() && Rings() && Serials()
    }
  }

  // -------------------------------------------------------------- counting requests

  predicate Distinct(s: seq<nat>) {
    forall i, j :: 0 <= i < j < |s| ==> s[i] != s[j]
  }

  /** There are at most n different numbers below n. */
  lemma {:induction false} Pigeonhole(s: seq<nat>, n: nat)
    requires Distinct(s) && forall i :: 0 <= i < |s| ==> s[i] < n
    ensures |s| <= n
    decreases n
  {
    if s != [] {
      assert s[0] < n;
      if i :| 0 <= i < |s| && s[i] == n - 1 {
        var t := s[..i] + s[i + 1..];
        assert forall j :: 0 <= j < |t| ==> t[j] == if j < i then s[j] else s[j + 1];
        Pigeonhole(t, n - 1);
      } else {
        Pigeonhole(s, n - 1);
      }
    }
  }

  lemma FewerThan(s: seq<nat>, n: nat, x: nat)
    requires x < n && Distinct(s) && forall i :: 0 <= i < |s| ==> s[i] < n && s[i] != x
    ensures |s| < n
  {
    var t := s + [x];
    assert forall j :: 0 <= j < |t| ==> t[j] == if j < |s| then s[j] else x;
    Pigeonhole(t, n);
  }

  lemma AvailEntry(q: Queue, k: nat)
    requires q.Inv() && q.c <= k < q.a
    ensures var h := q.avail[Slot(k)]; h < NUM && !q.free[h] && h in q.chains && q.chains[h].phase == Avail(k)
  {
    assert q.AvailAt(k);
    var h := q.avail[Slot(k)];
    assert q.ChainOk(h) && q.OwnOk(h);
  }

  lemma UsedEntry(q: Queue, k: nat)
    requires q.Inv() && q.d <= k < q.u
    ensures var h := q.used[Slot(k)]; h < NUM && !q.free[h] && h in q.chains && q.chains[h].phase == Used(k)
  {
    assert q.UsedAt(k);
    var h := q.used[Slot(k)];
    assert q.ChainOk(h) && q.OwnOk(h);
  }

  lemma HeadBound(q: Queue, x: nat)
    requires q.Inv() && x in q.chains
    ensures x < NUM
  {
    assert q.ChainOk(x);
  }

  lemma InvSized(q: Queue)
    requires q.Inv()
    ensures q.Sized() && q.c <= q.a && q.d <= q.u
  {
  }

  /** While some descriptor is free the avail ring has room for one more entry. */
  lemma AvailRoom(q: Queue, x: nat)
    requires q.Inv() && x < NUM && q.free[x]
    ensures q.a - q.c < NUM
  {
    hide Queue.Inv;
    InvSized(q);
    var s: seq<nat> := seq(q.a - q.c, i requires 0 <= i => q.avail[Slot(q.c + i)]);
    forall i | 0 <= i < |s|
      ensures s[i] < NUM && s[i] != x && s[i] in q.chains && q.chains[s[i]].phase == Avail(q.c + i)
    {
      AvailEntry(q, q.c + i);
    }
    FewerThan(s, NUM, x);
  }

  /** A request in the device leaves room in the used ring. */
  lemma UsedRoom(q: Queue, x: nat)
    requires q.Inv() && x in q.chains && q.chains[x].phase.Device?
    ensures x < NUM && q.u - q.d < NUM
  {
    hide Queue.Inv;
    InvSized(q);
    HeadBound(q, x);
    var s: seq<nat> := seq(q.u - q.d, i requires 0 <= i => q.used[Slot(q.d + i)]);
    forall i | 0 <= i < |s|
      ensures s[i] < NUM && s[i] != x && s[i] in q.chains && q.chains[s[i]].phase == Used(q.d + i)
    {
      UsedEntry(q, q.d + i);
    }
    FewerThan(s, NUM, x);
  }

  /** Entries of a ring that is not overfull are in different slots. */
  lemma RingSlots(lo: nat, k: nat, hi: nat)
    requires lo <= k < hi < lo + NUM
    ensures Slot(k) != Slot(hi)
  {
  }

  lemma Counters16(lo: nat, hi: nat)
    requires lo <= hi <= lo + NUM
    ensures Wrap(lo) == Wrap(hi) <==> lo == hi
  {
  }

  /** Indexing a ring by the 16-bit index is indexing it by the true count. */
  lemma Index16(k: nat)
    ensures Slot(Wrap(k)) == Slot(k) && Inc(Wrap(k)) == Wrap(k + 1)
  {
    assert k == k / WRAP16 * WRAP16 + k % WRAP16;
    assert k == (k / WRAP16 * 8192 + k % WRAP16 / NUM) * NUM + k % WRAP16 % NUM;
  }
}
