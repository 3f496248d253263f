module VirtSteps {
  // The steps of driver and device on the queue, and what they keep.

  import opened Wrappers
  import opened VirtQueue

  // --------------------------------------------------------- the driver: a new request

  /** virtio_disk_rw up to the notification: descriptors h, d1, d2 for request r. */
  function Submit(q: Queue, h: nat, d1: nat, d2: nat, r: Rw): Queue
    requires q.Sized() && h < NUM && d1 < NUM && d2 < NUM
  {
    q.(free := q.free[h := false][d1 := false][d2 := false],
       desc := q.desc[h := Head(h, d1)][d1 := Body(r.b, r.write, d2)][d2 := Tail(h)],
       ops := q.ops[h := Req(r.write, Sector(r.blockno))],
       info := q.info[h := Info(Some(r.b), 255)],
       avail := q.avail[Slot(q.a) := h],
       a := q.a + 1,
       busy := q.busy + {r.b},
       own := q.own[h := Some(h)][d1 := Some(h)][d2 := Some(h)],
       chains := q.chains[h := Chain(d1, d2, r, q.serial, Avail(q.a))],
       serial := q.serial + 1)
  }

  ghost predicate CanSubmit(q: Queue, h: nat, d1: nat, d2: nat, r: Rw) {
    && q.Inv() && h < NUM && d1 < NUM && d2 < NUM && h != d1 && h != d2 && d1 != d2
    && q.free[h] && q.free[d1] && q.free[d2]
    && forall g :: g in q.chains ==> q.chains[g].r.b != r.b
  }

  lemma SubmitPartition(q: Queue, h: nat, d1: nat, d2: nat, r: Rw)
    requires q.Partition() && h < NUM && d1 < NUM && d2 < NUM && h != d1 && h != d2 && d1 != d2 && h !in q.chains
    requires q.free[h] && q.free[d1] && q.free[d2]
    ensures Submit(q, h, d1, d2, r).Partition()
  {
    var q2 := Submit(q, h, d1, d2, r);
    assert q.OwnOk(h) && q.OwnOk(d1) && q.OwnOk(d2);
    forall i | 0 <= i < NUM ensures q2.OwnOk(i) {
      assert q.OwnOk(i);
    }
    forall g | g in q2.chains ensures q2.ChainOk(g) {
      if g != h { assert q.ChainOk(g); }
    }
  }

  lemma NewHead(q: Queue, h: nat)
    requires q.Partition() && h < NUM && q.free[h]
    ensures h !in q.chains
  {
    assert q.OwnOk(h);
    assert h in q.chains ==> q.ChainOk(h);
  }

  lemma SubmitRings(q: Queue, h: nat, d1: nat, d2: nat, r: Rw)
    requires CanSubmit(q, h, d1, d2, r)
    ensures Submit(q, h, d1, d2, r).Rings()
  {
    hide Head, Body, Tail, Sector;
    var q2 := Submit(q, h, d1, d2, r);
    AvailRoom(q, h);
    NewHead(q, h);
    hide Queue.Partition, Queue.Serials, Queue.Inv;
    forall k | q2.c <= k < q2.a ensures q2.AvailAt(k) {
      if k < q.a {
        assert q.AvailAt(k);
        RingSlots(q.c, k, q.a);
      }
    }
    forall k | q2.d <= k < q2.u ensures q2.UsedAt(k) {
      assert q.UsedAt(k);
    }
    forall g | g in q2.chains ensures g < NUM && q2.PhaseOk(g) {
      if g != h {
        assert q.PhaseOk(g);
        if q.chains[g].phase.Avail? { RingSlots(q.c, q.chains[g].phase.k, q.a); }
      }
    }
  }

  lemma SubmitSerials(q: Queue, h: nat, d1: nat, d2: nat, r: Rw)
    requires q.Sized() && q.Serials() && h < NUM && d1 < NUM && d2 < NUM && h !in q.chains
    requires forall g :: g in q.chains ==> q.chains[g].r.b != r.b && q.chains[g].serial < q.serial
    ensures Submit(q, h, d1, d2, r).Serials()
  {
  }

  lemma SubmitInv(q: Queue, h: nat, d1: nat, d2: nat, r: Rw)
    requires CanSubmit(q, h, d1, d2, r)
    ensures Submit(q, h, d1, d2, r).Inv()
  {
    hide Queue.Partition, Queue.Rings, Queue.Serials, Submit;
    InvSized(q);
    NewHead(q, h);
    SubmitPartition(q, h, d1, d2, r);
    SubmitRings(q, h, d1, d2, r);
    SerialsBelow(q);
    SubmitSerials(q, h, d1, d2, r);
  }

  lemma SerialsBelow(q: Queue)
    requires q.Inv()
    ensures forall g :: g in q.chains ==> q.chains[g].serial < q.serial
  {
    forall g | g in q.chains ensures q.chains[g].serial < q.serial {
      assert q.PhaseOk(g);
    }
  }

  // ------------------------------------------------------------------------ the device

  function SetPhase(q: Queue, h: nat, p: Phase): Queue
    requires h in q.chains
  {
    q.(chains := q.chains[h := q.chains[h].(phase := p)])
  }

  /** The device takes the next entry of the avail ring. */
  function Take(q: Queue): Queue
    requires q.Sized() && q.avail[Slot(q.c)] in q.chains
  {
    SetPhase(q, q.avail[Slot(q.c)], Device).(c := q.c + 1)
  }

  /** The device finishes request h: status 0 and a used entry. */
  function Finished(q: Queue, h: nat): Queue
    requires q.Sized() && h in q.chains && h < NUM
  {
    SetPhase(q, h, Used(q.u)).(info := q.info[h := q.info[h].(status := 0)], used := q.used[Slot(q.u) := h],
                               u := q.u + 1)
  }

  /** One round of virtio_disk_intr's loop. */
  function Seen(q: Queue): Queue
    requires q.Sized() && q.used[Slot(q.d)] in q.chains
  {
    var h := q.used[Slot(q.d)];
    SetPhase(q, h, Complete).(busy := q.busy - {q.chains[h].r.b}, d := q.d + 1,
                              returned := q.returned + [q.chains[h].serial])
  }

  /** Phases are no part of the partition. */
  lemma PhasePartition(q: Queue, q2: Queue)
    requires q.Partition() && q2.Sized() && q2.free == q.free && q2.desc == q.desc && q2.ops == q.ops
    requires q2.own == q.own && q2.chains.Keys == q.chains.Keys
    requires forall h :: h in q.chains ==> q2.chains[h] == q.chains[h].(phase := q2.chains[h].phase)
    ensures q2.Partition()
  {
    forall i | 0 <= i < NUM ensures q2.OwnOk(i) {
      assert q.OwnOk(i);
    }
    forall h | h in q2.chains ensures q2.ChainOk(h) {
      assert q.ChainOk(h);
    }
  }

  /** A new phase that is not completion. */
  lemma PhaseSerials(q: Queue, q2: Queue, h: nat, p: Phase)
    requires q.Serials() && h in q.chains && !q.chains[h].phase.Complete? && q2.serial == q.serial
    requires q2.returned == q.returned
    requires q2.chains == q.chains[h := q.chains[h].(phase := p)] && !p.Complete?
    ensures q2.Serials()
  {
  }

  lemma TakeRings(q: Queue)
    requires q.Rings() && q.c < q.a
    ensures q.avail[Slot(q.c)] in q.chains && Take(q).Rings()
  {
    assert q.AvailAt(q.c);
    var h, q2 := q.avail[Slot(q.c)], Take(q);
    forall k | q2.c <= k < q2.a ensures q2.AvailAt(k) {
      assert q.AvailAt(k);
    }
    forall k | q2.d <= k < q2.u ensures q2.UsedAt(k) {
      assert q.UsedAt(k);
    }
    forall g | g in q2.chains ensures g < NUM && q2.PhaseOk(g) {
      assert q.PhaseOk(g);
    }
  }

  lemma TakeInv(q: Queue)
    requires q.Inv() && q.c < q.a
    ensures q.avail[Slot(q.c)] in q.chains && Take(q).Inv()
  {
    InvSized(q);
    hide Queue.Partition, Queue.Rings, Queue.Serials;
    AvailEntry(q, q.c);
    TakeRings(q);
    PhasePartition(q, Take(q));
    PhaseSerials(q, Take(q), q.avail[Slot(q.c)], Device);
  }

  lemma CompleteRings(q: Queue, h: nat)
    requires q.Rings() && h in q.chains && h < NUM && q.chains[h].phase.Device? && q.u - q.d < NUM
    ensures Finished(q, h).Rings()
  {
    var q2 := Finished(q, h);
    assert q.PhaseOk(h);
    forall k | q2.c <= k < q2.a ensures q2.AvailAt(k) {
      assert q.AvailAt(k);
    }
    forall k | q2.d <= k < q2.u ensures q2.UsedAt(k) {
      if k < q.u {
        assert q.UsedAt(k);
        RingSlots(q.d, k, q.u);
      }
    }
    forall g | g in q2.chains ensures g < NUM && q2.PhaseOk(g) {
      assert q.PhaseOk(g);
      if q.chains[g].phase.Used? { RingSlots(q.d, q.chains[g].phase.k, q.u); }
    }
  }

  lemma CompleteInv(q: Queue, h: nat)
    requires q.Inv() && h in q.chains && q.chains[h].phase.Device?
    ensures h < NUM && Finished(q, h).Inv()
  {
    InvSized(q);
    hide Queue.Partition, Queue.Rings, Queue.Serials;
    UsedRoom(q, h);
    CompleteRings(q, h);
    PhasePartition(q, Finished(q, h));
    PhaseSerials(q, Finished(q, h), h, Used(q.u));
  }

  lemma SeenRings(q: Queue)
    requires q.Rings() && q.d < q.u
    requires forall h, g :: h in q.chains && g in q.chains && h != g ==> q.chains[h].r.b != q.chains[g].r.b
    ensures var h := q.used[Slot(q.d)];
      h in q.chains && h < NUM && q.info[h].status == 0 && q.info[h].b == Some(q.chains[h].r.b)
    ensures Seen(q).Rings()
  {
    assert q.UsedAt(q.d);
    var h, q2 := q.used[Slot(q.d)], Seen(q);
    assert q.PhaseOk(h);
    forall k | q2.c <= k < q2.a ensures q2.AvailAt(k) {
      assert q.AvailAt(k);
    }
    forall k | q2.d <= k < q2.u ensures q2.UsedAt(k) {
      assert q.UsedAt(k);
    }
    forall g | g in q2.chains ensures g < NUM && q2.PhaseOk(g) {
      assert q.PhaseOk(g);
    }
  }

  lemma DifferentBuffers(q: Queue)
    requires q.Serials()
    ensures forall h, g :: h in q.chains && g in q.chains && h != g ==> q.chains[h].r.b != q.chains[g].r.b
  {
  }

  /** Every completion is a request in flight, is reported without error, and is handed back once. */
  lemma SeenInv(q: Queue)
    requires q.Inv() && q.d < q.u
    ensures var h := q.used[Slot(q.d)];
      h in q.chains && h < NUM && q.info[h].status == 0 && q.info[h].b == Some(q.chains[h].r.b)
    ensures Seen(q).Inv()
  {
    InvSized(q);
    hide Queue.Partition, Queue.Rings, Queue.Serials;
    UsedEntry(q, q.d);
    DifferentBuffers(q);
    SeenRings(q);
    PhasePartition(q, Seen(q));
    SerialsBelow(q);
    SeenSerials(q, q.used[Slot(q.d)]);
  }

  lemma SeenSerials(q: Queue, h: nat)
    requires q.Sized() && q.Serials() && h in q.chains && h == q.used[Slot(q.d)] && q.chains[h].phase.Used?
    requires forall g :: g in q.chains ==> q.chains[g].serial < q.serial
    ensures Seen(q).Serials()
  {
    var q2, x := Seen(q), q.chains[h].serial;
    assert x !in q.returned;
    assert forall i :: 0 <= i < |q.returned| ==> q2.returned[i] == q.returned[i];
    assert forall y :: y in q2.returned <==> y in q.returned || y == x;
    forall g | g in q2.chains ensures q2.chains[g].phase.Complete? <==> q2.chains[g].serial in q2.returned {
    }
  }

  // ---------------------------------------------------- the driver: freeing the chain

  /** info[h].b = 0 and free_chain(h). */
  function Freed(q: Queue, h: nat): Queue
    requires q.Sized() && h in q.chains && h < NUM && q.chains[h].d1 < NUM && q.chains[h].d2 < NUM
  {
    var t := q.chains[h];
    q.(free := q.free[h := true][t.d1 := true][t.d2 := true],
       desc := q.desc[h := BLANK][t.d1 := BLANK][t.d2 := BLANK],
       info := q.info[h := q.info[h].(b := None)],
       own := q.own[h := None][t.d1 := None][t.d2 := None],
       chains := q.chains - {h})
  }

  /** Two chains share no descriptor. */
  lemma Apart(q: Queue, h: nat, g: nat)
    requires q.Partition() && h in q.chains && g in q.chains && g != h
    ensures var x, y := q.chains[h], q.chains[g];
      {h, x.d1, x.d2} !! {g, y.d1, y.d2}
  {
    assert q.ChainOk(h) && q.ChainOk(g);
  }

  lemma FreedPartition(q: Queue, h: nat)
    requires q.Partition() && h in q.chains
    ensures h < NUM && q.chains[h].d1 < NUM && q.chains[h].d2 < NUM && Freed(q, h).Partition()
  {
    assert q.ChainOk(h);
    var q2 := Freed(q, h);
    forall i | 0 <= i < NUM ensures q2.OwnOk(i) {
      assert q.OwnOk(i);
    }
    forall g | g in q2.chains ensures q2.ChainOk(g) {
      assert q.ChainOk(g);
      Apart(q, h, g);
    }
  }

  lemma FreedRings(q: Queue, h: nat)
    requires q.Rings() && h in q.chains && h < NUM && q.chains[h].phase.Complete?
    requires q.chains[h].d1 < NUM && q.chains[h].d2 < NUM
    ensures Freed(q, h).Rings()
  {
    var q2 := Freed(q, h);
    forall k | q2.c <= k < q2.a ensures q2.AvailAt(k) {
      assert q.AvailAt(k);
    }
    forall k | q2.d <= k < q2.u ensures q2.UsedAt(k) {
      assert q.UsedAt(k);
    }
    forall g | g in q2.chains ensures g < NUM && q2.PhaseOk(g) {
      assert q.PhaseOk(g);
    }
  }

  lemma FreedSerials(q: Queue, q2: Queue, h: nat)
    requires q.Serials() && q2.chains == q.chains - {h} && q2.returned == q.returned && q2.serial == q.serial
    ensures q2.Serials()
  {
  }

  lemma FreedInv(q: Queue, h: nat)
    requires q.Inv() && h in q.chains && q.chains[h].phase.Complete?
    ensures h < NUM && q.chains[h].d1 < NUM && q.chains[h].d2 < NUM && Freed(q, h).Inv()
  {
    InvSized(q);
    hide Queue.Partition, Queue.Rings, Queue.Serials;
    FreedPartition(q, h);
    FreedRings(q, h);
    FreedSerials(q, Freed(q, h), h);
  }
}
