module Pipe {
  // pipe.c. A call runs in turns: from taking the pipe's lock (at the start, or on
  // waking up) to releasing it, by returning or by going to sleep. The counters are
  // 32-bit and wrap. put and taken record every byte ever stored in and taken off
  // the ring; readers and writers are who sleeps on nread and nwrite.

  import opened Wrappers
  import opened Blocks

  const PIPESIZE := 512
  const WRAP := 0x1_0000_0000

  datatype Turn = Done | Killed | Asleep

  function Inc(x: nat): nat {
    (x + 1) % WRAP
  }

  /** Wrapping counters name the same ring slots and the same difference as the true counts. */
  lemma Counters(n: nat, w: nat)
    requires n <= w <= n + PIPESIZE
    ensures (w % WRAP == n % WRAP) <==> w == n
    ensures (w % WRAP == (n % WRAP + PIPESIZE) % WRAP) <==> w == n + PIPESIZE
    ensures w % WRAP % PIPESIZE == w % PIPESIZE
    ensures Inc(w % WRAP) == (w + 1) % WRAP
    ensures (w % WRAP + WRAP - n % WRAP) % WRAP == w - n
  {
    assert w == w / WRAP * WRAP + w % WRAP && n == n / WRAP * WRAP + n % WRAP;
    assert w % PIPESIZE == (w / WRAP * (WRAP / PIPESIZE) * PIPESIZE + w % WRAP) % PIPESIZE;
  }

  /** Slots of different bytes in the ring are different. */
  lemma Slots(a: nat, b: nat)
    requires a < b < a + PIPESIZE
    ensures a % PIPESIZE != b % PIPESIZE
  {
  }

  predicate Prefix<T(==)>(a: seq<T>, b: seq<T>) {
    |a| <= |b| && a == b[..|a|]
  }

  /**
    Where a write turn ends: when all bytes are stored, the caller is seen to be
    killed, the ring (with room for space more bytes) is full, or copyin fails.
  */
  predicate WriteEnds(n: nat, copies: nat, kill: Option<nat>, space: int, i: nat, t: Turn) {
    && i <= n && i <= copies && i <= space && (kill.Some? ==> i <= kill.value)
    && match t
       case Killed => i < n && kill == Some(i)
       case Asleep => i < n && kill != Some(i) && i == space
       case Done => i == n || (kill != Some(i) && i < space && i == copies)
  }

  class PipeBuf {
    const data: array<Byte>
    var nread: nat
    var nwrite: nat
    var readopen: bool
    var writeopen: bool
    var readers: set<nat>
    var writers: set<nat>
    ghost var put: seq<Byte>
    ghost var taken: seq<Byte>

    constructor ()
      ensures Valid() && ReadersWait() && fresh(data) && put == taken == [] && readopen && writeopen
      ensures readers == writers == {}
    {
      data := new Byte[PIPESIZE](_ => 0);
      nread, nwrite, readopen, writeopen, readers, writers := 0, 0, true, true, {}, {};
      put, taken := [], [];
    }

    /** The ring holds the bytes put and not yet taken, in order. */
    ghost predicate Ring()
      reads this`nread, this`nwrite, this`put, this`taken, data
    {
      && data.Length == PIPESIZE
      && Prefix(taken, put) && |put| <= |taken| + PIPESIZE
      && nread == |taken| % WRAP && nwrite == |put| % WRAP
      && forall i :: |taken| <= i < |put| ==> data[i % PIPESIZE] == put[i]
    }

    /** A sleeping writer means a full pipe with a reader. */
    ghost predicate Valid()
      reads this, data
    {
      && Ring()
      && (writers != {} ==> |put| == |taken| + PIPESIZE && readopen)
    }

    /** A sleeping reader means an empty pipe with its write end open. */
    ghost predicate ReadersWait()
      reads this
    {
      readers != {} ==> put == taken && writeopen
    }

    /** data[nwrite++ % PIPESIZE] = ch */
    method PutByte(ch: Byte)
      requires Ring() && |put| < |taken| + PIPESIZE
      modifies this`nwrite, this`put, data
      ensures Ring() && put == old(put) + [ch]
    {
      Counters(|taken|, |put|);
      ghost var p := put;
      data[nwrite % PIPESIZE] := ch;
      nwrite := Inc(nwrite);
      put := put + [ch];
      forall i | |taken| <= i < |put| ensures data[i % PIPESIZE] == put[i] {
        if i < |p| { Slots(i, |p|); }
      }
    }

    /** ch = data[nread++ % PIPESIZE] */
    method TakeByte() returns (ch: Byte)
      requires Ring() && |taken| < |put|
      modifies this`nread, this`taken
      ensures Ring() && taken == old(taken) + [ch] && ch == put[|old(taken)|]
    {
      Counters(|taken|, |taken|);
      ch := data[nread % PIPESIZE];
      nread := Inc(nread);
      taken := taken + [ch];
    }

    /** The tests of the code, in terms of the true counts. */
    lemma RingCounts()
      requires Ring()
      ensures nread == nwrite <==> |put| == |taken|
      ensures nwrite == (nread + PIPESIZE) % WRAP <==> |put| == |taken| + PIPESIZE
      ensures |taken| <= |put| <= |taken| + PIPESIZE && (|put| == |taken| ==> put == taken)
      ensures (nwrite + WRAP - nread) % WRAP == |put| - |taken|
    {
      Counters(|taken|, |put|);
    }

    /**
      A turn of pipewrite with the given bytes still to write. copies is how many
      copyin can fetch; the caller is found to be killed once it has stored kill bytes.
    */
    method WriteTurn(who: nat, bytes: seq<Byte>, copies: nat, kill: Option<nat>) returns (t: Turn, i: nat)
      requires Valid()
      modifies this`nwrite, this`put, this`readers, this`writers, data
      ensures Valid()
      ensures i <= |bytes| && put == old(put) + bytes[..i] && taken == old(taken)
      ensures if !readopen then i == 0 && t == (if bytes == [] then Done else Killed)
              else WriteEnds(|bytes|, copies, kill, PIPESIZE - (|old(put)| - |taken|), i, t)
      ensures t.Done? || t.Asleep? ==> readers == {}
      ensures t.Asleep? ==> writers == old(writers) + {who} && |put| == |taken| + PIPESIZE
      ensures !t.Asleep? ==> writers == old(writers)
      ensures t.Killed? ==> readers == old(readers)
      ensures !t.Killed? ==> ReadersWait()
      ensures old(ReadersWait()) ==> (!ReadersWait() <==> t.Killed? && i > 0 && old(readers) != {})
    {
      hide PipeBuf.Ring;
      i := 0;
      RingCounts();
      while i < |bytes|
        invariant 0 <= i <= |bytes| && i <= copies && (kill.Some? ==> i <= kill.value) && (!readopen ==> i == 0)
        invariant Ring() && put == old(put) + bytes[..i]
        invariant i <= PIPESIZE - (|old(put)| - |taken|)
        invariant writers != {} ==> |put| == |taken| + PIPESIZE && readopen
        invariant taken == old(taken) && readers == old(readers) && writers == old(writers)
      {
        if !readopen || (kill.Some? && i >= kill.value) {
          assert i == 0 ==> put == old(put);
          assert i > 0 ==> |put| > |taken|;
          return Killed, i;
        }
        RingCounts();
        if nwrite == (nread + PIPESIZE) % WRAP {
          readers := {};
          writers := writers + {who};
          return Asleep, i;
        } else {
          if i >= copies {
            break;
          }
          PutByte(bytes[i]);
          i := i + 1;
        }
      }
      readers := {};
      return Done, i;
    }

    /**
      A turn of piperead for n bytes, of which copyout can store copies. A byte
      that copyout cannot store has been taken off the ring and is lost.
    */
    method ReadTurn(who: nat, n: nat, copies: nat, killed: bool)
      returns (t: Turn, got: seq<Byte>, ghost lost: seq<Byte>)
      requires Valid()
      modifies this`nread, this`taken, this`readers, this`writers
      ensures Valid() && put == old(put) && taken == old(taken) + got + lost
      ensures t == if put == old(taken) && writeopen then (if killed then Killed else Asleep) else Done
      ensures old(ReadersWait()) ==> ReadersWait()
      ensures t.Asleep? ==> ReadersWait() && readers == old(readers) + {who} && got == lost == []
      ensures t.Killed? ==> got == lost == [] && readers == old(readers)
      ensures t.Done? ==> readers == old(readers) && writers == {}
      ensures t.Done? ==> var avail := |put| - |old(taken)|; var most := if n < avail then n else avail;
        && |got| == (if copies < most then copies else most)
        && |lost| == if copies < most then 1 else 0
      ensures !t.Done? ==> writers == old(writers)
    {
      hide PipeBuf.Ring;
      got, lost := [], [];
      RingCounts();
      assert taken + [] + [] == taken;
      if nread == nwrite && writeopen {
        if killed {
          return Killed, got, lost;
        }
        readers := readers + {who};
        return Asleep, got, lost;
      }
      var i := 0;
      while i < n
        invariant 0 <= i <= n && i <= copies && |got| == i && lost == []
        invariant Ring() && taken == old(taken) + got && |taken| <= |put| && writers == old(writers)
        invariant readers == old(readers)
        invariant put == old(put) && (old(ReadersWait()) ==> readers == {})
      {
        RingCounts();
        if nread == nwrite {
          break;
        }
        var ch := TakeByte();
        RingCounts();
        if i >= copies {
          lost := [ch];
          break;
        }
        got := got + [ch];
        i := i + 1;
      }
      writers := {};
      assert taken == old(taken) + got + lost;
      return Done, got, lost;
    }

    /** pipeclose */
    method Close(writable: bool)
      requires Valid()
      modifies this`readopen, this`writeopen, this`readers, this`writers
      ensures Valid() && (writable || old(ReadersWait()) ==> ReadersWait())
      ensures writable ==> !writeopen && readers == {} && readopen == old(readopen) && writers == old(writers)
      ensures !writable ==> !readopen && writers == {} && writeopen == old(writeopen) && readers == old(readers)
    {
      if writable {
        writeopen := false;
        readers := {};
      } else {
        readopen := false;
        writers := {};
      }
    }
  }

  /**
    Why the killed exit is an exception: a reader waits on an empty pipe, a
    writer stores one of its two bytes, is killed and leaves without wakeup.
    The reader goes on sleeping although the pipe holds a byte.
  */
  method ForgottenReader() returns (p: PipeBuf)
    ensures p.Valid() && !p.ReadersWait() && p.readers != {} && p.put != p.taken && p.readopen && p.writeopen
  {
    p := new PipeBuf();
    var t, got, lost := p.ReadTurn(1, 10, 10, false);
    var i;
    t, i := p.WriteTurn(2, [65, 66], 2, Some(1));
    assert p.put[0] == 65;
  }
}
