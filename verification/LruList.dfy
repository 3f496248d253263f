/**
  The doubly linked list of bio.c: NBUF buffers threaded through prev/next with
  a sentinel head, most recently used first. Buffers are numbered 0..n-1 and the
  sentinel is number n, so the links are two arrays of n + 1 indices.
*/
module LruList {
  /** s without its element at position k. */
  function Without(s: seq<nat>, k: nat): (r: seq<nat>)
    requires k < |s|
  {
    s[..k] + s[k + 1..]
  }

  class Lru {
    const n: nat
    const next: array<nat>
    const prev: array<nat>
    ghost var order: seq<nat>   // buffers from most to least recently used

    ghost predicate Linked(a: nat, b: nat)
      reads next, prev
    {
      && a < next.Length && b < prev.Length
      && next[a] == b && prev[b] == a
    }

    /** The element at position k of the ring; position -1 and |order| are the sentinel. */
    ghost function At(k: int): (r: nat)
      requires -1 <= k <= |order|
      reads this
    {
      if k == -1 || k == |order| then n else order[k]
    }

    /** The links thread exactly the buffers of order, without repetition. */
    ghost predicate Ring()
      reads this, next, prev
    {
      && next.Length == n + 1 && prev.Length == n + 1 && next != prev
      && (forall k :: 0 <= k < |order| ==> order[k] < n)
      && (forall j, k :: 0 <= j < k < |order| ==> order[j] != order[k])
      && (forall k :: -1 <= k < |order| ==> Linked(At(k), At(k + 1)))
    }

    ghost predicate Valid()
      reads this, next, prev
    {
      && Ring()
      && |order| == n
      && (forall b :: 0 <= b < n ==> b in order)
    }

    /** Head insertion of every buffer in turn, as binit does. */
    constructor (size: nat)
      ensures Valid() && n == size
      ensures fresh(next) && fresh(prev)
    {
      n := size;
      next := new nat[size + 1](_ => size);
      prev := new nat[size + 1](_ => size);
      order := [];
      new;
      for b := 0 to size
        modifies next, prev, this
        invariant Ring()
        invariant |order| == b
        invariant forall x :: x in order <==> 0 <= x < b
      {
        InsertFront(b);
      }
    }

    /** b->next = head.next; b->prev = &head; head.next->prev = b; head.next = b */
    method InsertFront(b: nat)
      requires Ring() && b < n && b !in order
      modifies this, next, prev
      ensures Ring()
      ensures order == [b] + old(order)
    {
      assert Linked(At(-1), At(0));
      next[b] := next[n];
      prev[b] := n;
      prev[next[n]] := b;
      next[n] := b;
      order := [b] + order;
      assert Linked(At(-1), At(0)) && Linked(At(0), At(1));
      forall k | 1 <= k < |order| ensures Linked(At(k), At(k + 1)) {
        assert old(Linked(At(k - 1), At(k)));
      }
    }

    /** b->next->prev = b->prev; b->prev->next = b->next */
    method Unlink(b: nat, ghost k: nat)
      requires Ring()
      requires k < |order| && order[k] == b
      modifies this, next, prev
      ensures Ring()
      ensures order == Without(old(order), k)
      ensures b !in order
    {
      assert Linked(At(k - 1), At(k)) && Linked(At(k), At(k + 1));
      prev[next[b]] := prev[b];
      next[prev[b]] := next[b];
      order := Without(order, k);
      forall j | -1 <= j < |order| ensures Linked(At(j), At(j + 1)) {
        ghost var i := if j < k then j else j + 1;
        assert old(Linked(At(i), At(i + 1)));
      }
    }

    /** brelse's relinking: unlink b, then insert it right after the sentinel. */
    method MoveToFront(b: nat)
      requires Valid() && b < n
      modifies this, next, prev
      ensures Valid()
      ensures exists k :: 0 <= k < n && old(order)[k] == b && order == [b] + Without(old(order), k)
    {
      assert b in order;
      ghost var k :| 0 <= k < n && order[k] == b;
      Unlink(b, k);
      InsertFront(b);
      forall x | 0 <= x < n ensures x in order {
        if x != b {
          assert x in old(order);
          var j :| 0 <= j < n && old(order)[j] == x;
          assert x == if j < k then order[j + 1] else order[j];
        }
      }
    }
  }
}
