/**
  virtio_disk.c: the driver's functions on the queue, and the device as two steps
  that follow section 2.6 of Virtio 1.1. A driver function runs under vdisk_lock,
  so it is one step up to where it sleeps. The ring indices are 16-bit.
*/
module VirtioDisk {
  import opened Wrappers
  import opened VirtQueue
  import opened VirtSteps

  /** What the methods do to the queue. */
  ghost predicate Submitted(q: Queue, q2: Queue, idx: seq<nat>, r: Rw) {
    q.Sized() && |idx| == 3 && Three(q.free, idx[0], idx[1], idx[2]) && q2 == Submit(q, idx[0], idx[1], idx[2], r)
  }

  ghost predicate TookNext(q: Queue, q2: Queue, h: nat) {
    q.Sized() && h == q.avail[Slot(q.c)] && h in q.chains && q2 == Take(q)
  }

  ghost predicate Completed(q: Queue, q2: Queue, h: nat) {
    q.Sized() && h in q.chains && h < NUM && q2 == Finished(q, h)
  }

  ghost predicate Released(q: Queue, q2: Queue, h: nat) {
    q.Sized() && h in q.chains && h < NUM && q.chains[h].d1 < NUM && q.chains[h].d2 < NUM && q2 == Freed(q, h)
  }

  ghost predicate Returned(q: Queue, q2: Queue) {
    q.Sized() && q.used[Slot(q.d)] in q.chains && q2 == Seen(q)
  }

  lemma ReturnedFacts(q: Queue, q2: Queue)
    requires Returned(q, q2)
    ensures q2.d == q.d + 1 && q2.u == q.u && |q2.returned| == |q.returned| + 1
    ensures q2.returned[..|q.returned|] == q.returned
  {
  }

  class Disk {
    var free: seq<bool>
    var desc: seq<Desc>
    var ops: seq<Req>
    var info: seq<Info>
    var avail: seq<nat>
    var availIdx: nat
    var used: seq<nat>
    var devAvailIdx: nat            // how far the device has read the avail ring
    var devUsedIdx: nat             // disk.used->idx
    var usedIdx: nat                // disk.used_idx
    var busy: set<nat>              // buffers with b->disk == 1
    ghost var own: seq<Option<nat>>
    ghost var chains: map<nat, Chain>
    ghost var a: nat
    ghost var c: nat
    ghost var u: nat
    ghost var d: nat
    ghost var serial: nat
    ghost var returned: seq<nat>

    ghost function Q(): Queue
      reads this
    {
      Queue(free, desc, ops, info, avail, used, busy, own, chains, a, c, u, d, serial, returned)
    }

    ghost predicate Valid()
      reads this
    {
      Q().Inv() && availIdx == Wrap(a) && devAvailIdx == Wrap(c) && devUsedIdx == Wrap(u) && usedIdx == Wrap(d)
    }

    constructor ()
      ensures Valid() && chains == map[] && returned == []
    {
      free := seq(NUM, _ => true);
      desc := seq(NUM, _ => BLANK);
      ops := seq(NUM, _ => Req(false, 0));
      info := seq(NUM, _ => Info(None, 0));
      avail := seq(NUM, _ => 0);
      used := seq(NUM, _ => 0);
      availIdx, devAvailIdx, devUsedIdx, usedIdx, busy := 0, 0, 0, 0, {};
      own := seq(NUM, _ => None);
      chains, a, c, u, d, serial, returned := map[], 0, 0, 0, 0, 0, [];
    }

    /** alloc_desc */
    method AllocDesc() returns (i: int)
      requires |free| == NUM
      modifies this`free
      ensures -1 <= i < NUM
      ensures i == -1 ==> free == old(free) && forall j :: 0 <= j < NUM ==> !free[j]
      ensures i >= 0 ==> old(free)[i] && free == old(free)[i := false]
    {
      i := 0;
      while i < NUM
        invariant 0 <= i <= NUM && free == old(free) && forall j :: 0 <= j < i ==> !free[j]
      {
        if free[i] {
          free := free[i := false];
          return;
        }
        i := i + 1;
      }
      return -1;
    }

    /** free_desc; false is one of its two panics. */
    method FreeDesc(i: nat) returns (ok: bool)
      requires |free| == NUM && |desc| == NUM
      modifies this`free, this`desc
      ensures ok == (i < NUM && !old(free)[i])
      ensures ok ==> free == old(free)[i := true] && desc == old(desc)[i := BLANK]
    {
      if i >= NUM || free[i] {
        return false;
      }
      desc := desc[i := BLANK];
      free := free[i := true];
      return true;
    }

    /** alloc3_desc, its three rounds written out: three different free descriptors, or none taken. */
    method Alloc3Desc() returns (ok: bool, idx: seq<nat>)
      requires |free| == NUM && |desc| == NUM && forall i :: 0 <= i < NUM && free[i] ==> desc[i] == BLANK
      modifies this`free, this`desc
      ensures ok ==> |idx| == 3 && Three(old(free), idx[0], idx[1], idx[2])
      ensures ok ==> free == old(free)[idx[0] := false][idx[1] := false][idx[2] := false] && desc == old(desc)
      ensures !ok ==> free == old(free) && desc == old(desc)
      ensures !ok <==> forall x, y, z :: !Three(old(free), x, y, z)
    {
      ghost var f0, d0 := free, desc;
      var x := AllocDesc();
      if x < 0 {
        return false, [];
      }
      ghost var f1 := free;
      var y := AllocDesc();
      if y < 0 {
        var o := FreeDesc(x);
        assert free == f0 && desc == d0;
        return false, [];
      }
      ghost var f2 := free;
      var z := AllocDesc();
      if z < 0 {
        var o := FreeDesc(x);
        var o2 := FreeDesc(y);
        assert free == f0 && desc == d0;
        NoThree(f0, x, y);
        return false, [];
      }
      assert Three(f0, x, y, z);
      return true, [x, y, z];
    }

    /**
      virtio_disk_rw up to its first sleep: with three free descriptors the
      request is handed to the device, otherwise nothing happens and the caller
      sleeps. The buffer is not in flight: its caller holds the buffer's lock.
    */
    method Request(r: Rw) returns (ok: bool, idx: seq<nat>)
      requires Valid() && forall g :: g in chains ==> chains[g].r.b != r.b
      modifies this
      ensures Valid()
      ensures ok ==> Submitted(old(Q()), Q(), idx, r)
      ensures !ok ==> Q() == old(Q()) && forall x, y, z :: !Three(free, x, y, z)
    {
      hide Queue.Inv, Slot, Wrap, Inc, Head, Body, Tail, Sector;
      ghost var q := Q();
      QueueFacts(q);
      ok, idx := Alloc3Desc();
      if !ok {
        return;
      }
      SubmitInv(q, idx[0], idx[1], idx[2], r);
      AlreadyTaken(q, free, idx[0], idx[1], idx[2], r);
      hide Submit;
      Format(idx[0], idx[1], idx[2], r);
    }

    /** The request is made out and handed to the device. */
    method Format(h: nat, d1: nat, d2: nat, r: Rw)
      requires Q().Sized() && h < NUM && d1 < NUM && d2 < NUM && availIdx == Wrap(a)
      requires free == free[h := false][d1 := false][d2 := false]
      modifies this`desc, this`ops, this`info, this`busy, this`avail, this`availIdx, this`own, this`chains, this`a
      modifies this`serial
      ensures Q() == Submit(old(Q()), h, d1, d2, r) && availIdx == Wrap(a)
    {
      hide Slot, Wrap, Inc, Head, Body, Tail, Sector;
      FillIn(h, d1, d2, r);
      Publish(h, d1, d2, r);
    }

    /** The three descriptors, the request header and the driver's record of the request. */
    method FillIn(h: nat, d1: nat, d2: nat, r: Rw)
      requires |desc| == NUM && |ops| == NUM && |info| == NUM && h < NUM && d1 < NUM && d2 < NUM
      modifies this`desc, this`ops, this`info, this`busy
      ensures desc == old(desc)[h := Head(h, d1)][d1 := Body(r.b, r.write, d2)][d2 := Tail(h)]
      ensures ops == old(ops)[h := Req(r.write, Sector(r.blockno))]
      ensures info == old(info)[h := Info(Some(r.b), 255)] && busy == old(busy) + {r.b}
    {
      hide Sector;
      ops := ops[h := Req(r.write, Sector(r.blockno))];
      desc := desc[h := Desc(Op(h), 16, false, true, d1)];
      desc := desc[d1 := Desc(Data(r.b), BSIZE, !r.write, true, d2)];
      info := info[h := info[h].(status := 255)];
      desc := desc[d2 := Desc(Status(h), 1, true, false, 0)];
      info, busy := info[h := info[h].(b := Some(r.b))], busy + {r.b};
    }

    /** The avail entry and its index, which tell the device. */
    method Publish(h: nat, ghost d1: nat, ghost d2: nat, ghost r: Rw)
      requires |avail| == NUM && |own| == NUM && h < NUM && d1 < NUM && d2 < NUM && availIdx == Wrap(a)
      modifies this`avail, this`availIdx, this`own, this`chains, this`a, this`serial
      ensures avail == old(avail)[Slot(old(a)) := h] && availIdx == Wrap(a) && a == old(a) + 1
      ensures own == old(own)[h := Some(h)][d1 := Some(h)][d2 := Some(h)]
      ensures chains == old(chains)[h := Chain(d1, d2, r, old(serial), Avail(old(a)))] && serial == old(serial) + 1
    {
      hide Slot, Wrap, Inc;
      Index16(a);
      avail, availIdx := avail[Slot(availIdx) := h], Inc(availIdx);
      own, chains := own[h := Some(h)][d1 := Some(h)][d2 := Some(h)], chains[h := Chain(d1, d2, r, serial, Avail(a))];
      a, serial := a + 1, serial + 1;
    }

    /** free_chain of a request's three descriptors; false would be a panic of free_desc. */
    method FreeChain(h: nat) returns (ok: bool)
      requires Q().Partition() && h in chains
      modifies this`free, this`desc
      ensures ok
      ensures var t := chains[h];
        && h < NUM && t.d1 < NUM && t.d2 < NUM
        && free == old(free)[h := true][t.d1 := true][t.d2 := true]
        && desc == old(desc)[h := BLANK][t.d1 := BLANK][t.d2 := BLANK]
    {
      ghost var t, f0, e0 := chains[h], free, desc;
      ChainShape(Q(), h);
      hide Queue.Partition;
      var i := h;
      ghost var n := 0;
      while true
        invariant 0 <= n <= 2 && i == (if n == 0 then h else if n == 1 then t.d1 else t.d2)
        invariant free == (if n == 0 then f0 else if n == 1 then f0[h := true] else f0[h := true][t.d1 := true])
        invariant desc == (if n == 0 then e0 else if n == 1 then e0[h := BLANK]
                           else e0[h := BLANK][t.d1 := BLANK])
        decreases 2 - n
      {
        var flag, nxt := desc[i].more, desc[i].next;
        ok := FreeDesc(i);
        if !ok {
          return;
        }
        if flag {
          i := nxt;
          n := n + 1;
        } else {
          break;
        }
      }
      return true;
    }

    /** virtio_disk_rw after its last sleep: the request is complete, the chain is freed. */
    method Finish(h: nat) returns (ok: bool)
      requires Valid() && h in chains && chains[h].phase.Complete?
      modifies this
      ensures ok && Valid()
      ensures Released(old(Q()), Q(), h)
    {
      ghost var q, t := Q(), chains[h];
      hide Queue.Inv, Queue.Partition, Slot, Wrap, Inc, Head, Body, Tail, Sector;
      FreedInv(q, h);
      PartitionOf(q);
      info := info[h := info[h].(b := None)];
      SamePartition(q, Q());
      hide Queue.Sized;
      ok := FreeChain(h);
      own := own[h := None][t.d1 := None][t.d2 := None];
      chains := chains - {h};
      assert Q() == Freed(q, h);
    }

    /** One round of virtio_disk_intr; false would be its status panic. */
    method IntrStep() returns (ok: bool)
      requires Valid() && d < u
      modifies this`busy, this`usedIdx, this`chains, this`d, this`returned
      ensures ok && Valid() && Returned(old(Q()), Q())
    {
      hide Queue.Inv, Slot, Wrap, Inc;
      ghost var q := Q();
      QueueFacts(q);
      Index16(d);
      SeenInv(q);
      var id := used[Slot(usedIdx)];
      if info[id].status != 0 {
        return false;
      }
      var b := info[id].b.value;
      busy := busy - {b};
      usedIdx := Inc(usedIdx);
      ghost var x := chains[id].serial;
      chains := chains[id := chains[id].(phase := Complete)];
      d, returned := d + 1, returned + [x];
      return true;
    }

    /** virtio_disk_intr: the n completions waiting are handed back, each once. */
    method Intr() returns (ok: bool, ghost n: nat)
      requires Valid()
      modifies this`busy, this`usedIdx, this`chains, this`d, this`returned
      ensures ok && Valid() && d == u
      ensures n == u - old(d) && |returned| == |old(returned)| + n && returned[..|old(returned)|] == old(returned)
    {
      hide Queue.Inv, Slot, Wrap, Inc, Returned;
      n := 0;
      UsedWrap(Q());
      while usedIdx != devUsedIdx
        invariant Valid() && d == old(d) + n && d <= u <= d + NUM
        invariant |returned| == |old(returned)| + n && returned[..|old(returned)|] == old(returned)
        decreases u - d
      {
        Counters16(d, u);
        ghost var q := Q();
        ok := IntrStep();
        ReturnedFacts(q, Q());
        n := n + 1;
      }
      Counters16(d, u);
      return true, n;
    }

    /** The device takes a request from the avail ring. */
    method DeviceTake() returns (h: nat)
      requires Valid() && c < a
      modifies this
      ensures Valid() && TookNext(old(Q()), Q(), h)
      ensures h in old(chains) && Asks(Decode(Q(), h), h, old(chains)[h].r)
    {
      hide Queue.Inv, Slot, Wrap, Inc;
      TakeInv(Q());
      InvSized(Q());
      Index16(c);
      h := avail[Slot(devAvailIdx)];
      devAvailIdx := Inc(devAvailIdx);
      chains := chains[h := chains[h].(phase := Device)];
      c := c + 1;
      DeviceFinds(Q(), h);
    }

    /** The device completes a request it has, in any order. */
    method DeviceComplete(h: nat)
      requires Valid() && h in chains && chains[h].phase.Device?
      modifies this
      ensures Valid() && Completed(old(Q()), Q(), h)
    {
      hide Queue.Inv, Slot, Wrap, Inc;
      CompleteInv(Q(), h);
      InvSized(Q());
      Index16(u);
      info := info[h := info[h].(status := 0)];
      used := used[Slot(devUsedIdx) := h];
      devUsedIdx := Inc(devUsedIdx);
      chains := chains[h := chains[h].(phase := Used(u))];
      u := u + 1;
    }
  }

  /** A block request as section 5.2.6 of Virtio 1.1 has it: direction, sector, data, its length, status. */
  datatype Transfer = Transfer(write: bool, sector: nat, b: nat, len: nat, status: nat)

  /** What the device finds when it follows the descriptors from h: a header, data and a status byte. */
  function Decode(q: Queue, h: nat): Option<Transfer>
    requires q.Sized()
  {
    if h >= NUM || q.desc[h].next >= NUM || q.desc[q.desc[h].next].next >= NUM then None
    else
      var e0, e1 := q.desc[h], q.desc[q.desc[h].next];
      var e2 := q.desc[e1.next];
      if !e0.addr.Op? || e0.addr.i >= NUM || e0.len != 16 || e0.write || !e0.more then None
      else if !e1.addr.Data? || !e1.more || e1.write == q.ops[e0.addr.i].write then None
      else if !e2.addr.Status? || e2.len != 1 || !e2.write || e2.more then None
      else Some(Transfer(q.ops[e0.addr.i].write, q.ops[e0.addr.i].sector, e1.addr.b, e1.len, e2.addr.i))
  }

  /** Byte x of the disk is read or written: sectors have 512 bytes. */
  predicate Touches(t: Transfer, x: nat) {
    512 * t.sector <= x < 512 * t.sector + t.len
  }

  /** o is request r with its status at h, about the bytes of block r.blockno and no others. */
  ghost predicate Asks(o: Option<Transfer>, h: nat, r: Rw) {
    && o == Some(Transfer(r.write, Sector(r.blockno), r.b, BSIZE, h))
    && (r.blockno < 0x8000_0000 ==>
         forall x: nat :: Touches(o.value, x) <==> r.blockno * BSIZE <= x < (r.blockno + 1) * BSIZE)
  }

  lemma AsksBlock(h: nat, r: Rw)
    ensures Asks(Some(Transfer(r.write, Sector(r.blockno), r.b, BSIZE, h)), h, r)
  {
  }

  /** Whatever else was submitted and freed meanwhile, the device finds the request that was made. */
  lemma DeviceFinds(q: Queue, h: nat)
    requires q.Inv() && h in q.chains
    ensures q.Sized() && Asks(Decode(q, h), h, q.chains[h].r)
  {
    hide Queue.Inv, Queue.Partition, Asks, Sector;
    PartitionOf(q);
    ChainShape(q, h);
    AsksBlock(h, q.chains[h].r);
  }

  /** Requests in flight for different blocks have no byte of the disk in common. */
  lemma TransfersApart(q: Queue, h: nat, g: nat, x: nat)
    requires q.Inv() && h in q.chains && g in q.chains && q.chains[h].r.blockno != q.chains[g].r.blockno
    requires q.chains[h].r.blockno < 0x8000_0000 && q.chains[g].r.blockno < 0x8000_0000
    ensures q.Sized() && Decode(q, h).Some? && Decode(q, g).Some?
    ensures !(Touches(Decode(q, h).value, x) && Touches(Decode(q, g).value, x))
  {
    hide Queue.Inv, Queue.Sized, Decode, Sector, Touches;
    DeviceFinds(q, h);
    DeviceFinds(q, g);
  }

  lemma QueueFacts(q: Queue)
    requires q.Inv()
    ensures q.Sized() && q.c <= q.a && q.d <= q.u
    ensures forall i :: 0 <= i < NUM && q.free[i] ==> q.desc[i] == BLANK
  {
    forall i | 0 <= i < NUM && q.free[i] ensures q.desc[i] == BLANK {
      assert q.OwnOk(i);
    }
  }

  /** The driver's view of how many completions are waiting survives the wrap. */
  lemma UsedWrap(q: Queue)
    requires q.Inv()
    ensures q.d <= q.u <= q.d + NUM
  {
    hide Queue.Inv, Slot, Wrap, Inc;
    InvSized(q);
    var s: seq<nat> := seq(q.u - q.d, i requires 0 <= i => q.used[Slot(q.d + i)]);
    forall i | 0 <= i < |s| ensures s[i] < NUM && s[i] in q.chains && q.chains[s[i]].phase == Used(q.d + i) {
      UsedEntry(q, q.d + i);
    }
    Pigeonhole(s, NUM);
  }

  lemma ChainShape(q: Queue, h: nat)
    requires q.Partition() && h in q.chains
    ensures var t := q.chains[h];
      && q.Sized() && h < NUM && t.d1 < NUM && t.d2 < NUM && h != t.d1 && h != t.d2 && t.d1 != t.d2
      && !q.free[h] && !q.free[t.d1] && !q.free[t.d2]
      && q.desc[h] == Head(h, t.d1) && q.desc[t.d1] == Body(t.r.b, t.r.write, t.d2) && q.desc[t.d2] == Tail(h)
      && q.ops[h] == Req(t.r.write, Sector(t.r.blockno))
  {
    assert q.ChainOk(h);
    var t := q.chains[h];
    assert q.OwnOk(h) && q.OwnOk(t.d1) && q.OwnOk(t.d2);
  }

  lemma PartitionOf(q: Queue)
    requires q.Inv()
    ensures q.Partition() && q.Sized()
  {
  }

  lemma SamePartition(q: Queue, q2: Queue)
    requires q.Partition() && q2 == q.(info := q2.info) && |q2.info| == NUM
    ensures q2.Partition()
  {
    forall i | 0 <= i < NUM ensures q2.OwnOk(i) { assert q.OwnOk(i); }
    forall h | h in q2.chains ensures q2.ChainOk(h) { assert q.ChainOk(h); }
  }

  /** Submitting takes the descriptors, whether or not they are marked as taken. */
  lemma AlreadyTaken(q: Queue, free: seq<bool>, h: nat, d1: nat, d2: nat, r: Rw)
    requires q.Sized() && h < NUM && d1 < NUM && d2 < NUM && free == q.free[h := false][d1 := false][d2 := false]
    ensures free == free[h := false][d1 := false][d2 := false]
    ensures Submit(q.(free := free), h, d1, d2, r) == Submit(q, h, d1, d2, r)
  {
    hide Head, Body, Tail, Sector, Slot;
  }

  /** x, y and z are different free descriptors. */
  predicate Three(free: seq<bool>, x: nat, y: nat, z: nat) {
    |free| == NUM && x < NUM && y < NUM && z < NUM && x != y && y != z && x != z && free[x] && free[y] && free[z]
  }

  lemma NoThree(free: seq<bool>, x: nat, y: nat)
    requires |free| == NUM && x < NUM && y < NUM && forall j :: 0 <= j < NUM && j != x && j != y ==> !free[j]
    ensures forall p, q, r :: !Three(free, p, q, r)
  {
  }
}
