/**
 The buffer cache of `xv6/bio.c`.  Buffers live in a fixed table and are linked into a ring
 through `prev` and `next`; a pointer is an index into the table and the list head has the
 index one past the last buffer.  Each method is one critical section of `bcache.lock`.
 */
module BufferCache {
  import opened Common
  import opened WriteAheadLog

  datatype Buf = Buf(valid: bool, dirty: bool, dev: int, blockno: int, refcnt: int, data: Block)

  // ----- the ring

  /** Position `k` of the ring: the buffers in order, with the head before and after them. */
  function Node(head: nat, order: seq<nat>, k: int): nat {
    if 0 <= k < |order| then order[k] else head
  }

  ghost predicate DistinctNodes(head: nat, order: seq<nat>) {
    && (forall i | 0 <= i < |order| :: order[i] < head)
    && forall i, j | 0 <= i < j < |order| :: order[i] != order[j]
  }

  /** `next` and `prev` link the head and `order` into one ring. */
  ghost predicate Linked(next: seq<nat>, prev: seq<nat>, head: nat, order: seq<nat>) {
    && |next| == head + 1 && |prev| == head + 1
    && DistinctNodes(head, order)
    && (forall k | -1 <= k < |order| :: next[Node(head, order, k)] == Node(head, order, k + 1))
    && forall k | 0 <= k <= |order| :: prev[Node(head, order, k)] == Node(head, order, k - 1)
  }

  function Without(order: seq<nat>, k: nat): seq<nat>
    requires k < |order|
  {
    order[..k] + order[k + 1..]
  }

  /** The two assignments that take a buffer out of the ring. */
  lemma UnlinkOk(next: seq<nat>, prev: seq<nat>, head: nat, order: seq<nat>, k: nat)
    requires Linked(next, prev, head, order) && k < |order|
    ensures var b := order[k];
            && next[b] <= head && prev[b] <= head
            && Linked(next[prev[b] := next[b]], prev[next[b] := prev[b]], head, Without(order, k))
  {
    var b := order[k];
    var rest := Without(order, k);
    assert next[Node(head, order, k)] == Node(head, order, k + 1);
    assert prev[Node(head, order, k)] == Node(head, order, k - 1);
    var n := next[prev[b] := next[b]];
    var p := prev[next[b] := prev[b]];
    forall j | -1 <= j < |rest| ensures n[Node(head, rest, j)] == Node(head, rest, j + 1) {
      var i := if j < k then j else j + 1;
      assert next[Node(head, order, i)] == Node(head, order, i + 1);
    }
    forall j | 0 <= j <= |rest| ensures p[Node(head, rest, j)] == Node(head, rest, j - 1) {
      var i := if j < k then j else j + 1;
      assert prev[Node(head, order, i)] == Node(head, order, i - 1);
    }
  }

  /** The four assignments that put a buffer right after the head. */
  lemma PushFrontOk(next: seq<nat>, prev: seq<nat>, head: nat, order: seq<nat>, b: nat)
    requires Linked(next, prev, head, order) && b < head && b !in order
    ensures var f := next[head];
            f <= head && Linked(next[b := f][head := b], prev[b := head][f := b], head, [b] + order)
  {
    assert next[Node(head, order, -1)] == Node(head, order, 0);
    var f := next[head];
    var n := next[b := f][head := b];
    var p := prev[b := head][f := b];
    var more := [b] + order;
    forall j | -1 <= j < |more| ensures n[Node(head, more, j)] == Node(head, more, j + 1) {
      if j > 0 {
        assert next[Node(head, order, j - 1)] == Node(head, order, j);
      }
    }
    forall j | 0 <= j <= |more| ensures p[Node(head, more, j)] == Node(head, more, j - 1) {
      if j > 1 {
        assert prev[Node(head, order, j - 1)] == Node(head, order, j - 2);
      }
    }
  }

  // ----- what bget chooses

  predicate Holds(b: Buf, dev: int, blockno: int) {
    b.dev == dev && b.blockno == blockno
  }

  /** A buffer that may be recycled: nobody refers to it and the log has not pinned it. */
  predicate Recyclable(b: Buf) {
    b.refcnt == 0 && !b.dirty
  }

  function Recycled(b: Buf, dev: int, blockno: int): Buf {
    Buf(false, false, dev, blockno, 1, b.data)
  }

  /** The effect of `bget` when it returns buffer `i`. */
  ghost predicate Got(bufs: seq<Buf>, bufs': seq<Buf>, i: nat, dev: int, blockno: int) {
    && i < |bufs|
    && if Holds(bufs[i], dev, blockno) then
         bufs' == bufs[i := bufs[i].(refcnt := bufs[i].refcnt + 1)]
       else
         && (forall j | 0 <= j < |bufs| :: !Holds(bufs[j], dev, blockno))
         && Recyclable(bufs[i])
         && bufs' == bufs[i := Recycled(bufs[i], dev, blockno)]
  }

  /** The ring is sorted by the time of the last release, latest first. */
  ghost predicate Sorted(order: seq<nat>, released: seq<nat>, clock: nat) {
    && |order| == |released|
    && (forall i | 0 <= i < |released| :: i in order)
    && (forall i | 0 <= i < |order| :: order[i] < |released|)
    && (forall i | 0 <= i < |released| :: released[i] < clock)
    && forall i, j | 0 <= i < j < |order| :: released[order[i]] > released[order[j]]
  }

  ghost predicate MovedToFront(order: seq<nat>, order': seq<nat>, b: nat) {
    exists k: nat :: k < |order| && order[k] == b && order' == [b] + Without(order, k)
  }

  lemma MoveToFront(order: seq<nat>, released: seq<nat>, clock: nat, k: nat)
    requires Sorted(order, released, clock) && k < |order|
    ensures order[k] !in Without(order, k)
    ensures Sorted([order[k]] + Without(order, k), released[order[k] := clock], clock + 1)
  {
    var b := order[k];
    var rest := Without(order, k);
    forall i | 0 <= i < |released| ensures i in [b] + rest {
      assert i in order;
      var m :| 0 <= m < |order| && order[m] == i;
      if m < k {
        assert rest[m] == i;
      } else if m > k {
        assert rest[m - 1] == i;
      }
    }
  }

  /** `iderw` on a buffer that is neither valid nor dirty reads the block. */
  function Loaded(b: Buf, d: Disk): Buf {
    if b.valid then b else b.(valid := true, data := Read(d, b.blockno))
  }

  /** `iderw` accepts the block. */
  predicate OnDisk(d: Disk, dev: int, blockno: int) {
    dev == 1 && 0 <= blockno < |d|
  }

  /** The "no buffers" panic of `bget`. */
  ghost predicate NoBuffer(bufs: seq<Buf>, dev: int, blockno: int) {
    forall j | 0 <= j < |bufs| :: !Holds(bufs[j], dev, blockno) && !Recyclable(bufs[j])
  }

  /** No buffer has the contents of the block. */
  ghost predicate NotRead(bufs: seq<Buf>, dev: int, blockno: int) {
    forall j | 0 <= j < |bufs| && Holds(bufs[j], dev, blockno) :: !bufs[j].valid
  }

  /** Some buffer for the block lacks its contents; with one buffer per block this is `NotRead`. */
  ghost predicate Missed(bufs: seq<Buf>, dev: int, blockno: int) {
    NotRead(bufs, dev, blockno) || exists j :: 0 <= j < |bufs| && Holds(bufs[j], dev, blockno) && !bufs[j].valid
  }

  class Cache {
    var bufs: seq<Buf>
    var disk: Disk
    var next: seq<nat>
    var prev: seq<nat>
    ghost var order: seq<nat>       // the ring, most recently released first
    ghost var released: seq<nat>    // for each buffer, the time of its last release
    ghost var clock: nat

    ghost predicate Valid()
      reads this
    {
      && Linked(next, prev, |bufs|, order)
      && |released| == |bufs|
      && Sorted(order, released, clock)
    }

    /** `binit`: link `n` zeroed buffers, the last one first. */
    constructor (n: nat, d: Disk)
      ensures Valid() && |bufs| == n && disk == d
      ensures forall i | 0 <= i < n :: bufs[i] == Buf(false, false, 0, 0, 0, [])
    {
      disk := d;
      bufs := seq(n, _ => Buf(false, false, 0, 0, 0, []));
      next, prev := seq(n + 1, _ => n), seq(n + 1, _ => n);
      order, released, clock := [], seq(n, i => i), n;
      new;
      var b := 0;
      while b < n
        invariant 0 <= b <= n == |bufs| == |released| == clock && disk == d
        invariant Linked(next, prev, n, order)
        invariant |order| == b && forall k | 0 <= k < b :: order[k] == b - 1 - k
        invariant forall i | 0 <= i < n :: bufs[i] == Buf(false, false, 0, 0, 0, [])
        invariant forall i | 0 <= i < n :: released[i] == i
      {
        PushFrontOk(next, prev, n, order, b);
        var f := next[n];
        next := next[b := f];
        prev := prev[b := n];
        prev := prev[f := b];
        next := next[n := b];
        order := [b] + order;
        b := b + 1;
      }
      forall i | 0 <= i < |bufs| ensures i in order {
        assert order[n - 1 - i] == i;
      }
    }

    /**
     `bget`: the buffer that holds the block, or else the recyclable buffer released longest
     ago, re-assigned to the block; `None` is the "no buffers" panic.
     */
    method Bget(dev: int, blockno: int) returns (r: Option<nat>)
      requires Valid()
      modifies this`bufs
      ensures Valid()
      ensures r.Some? ==> Got(old(bufs), bufs, r.value, dev, blockno)
      ensures r.Some? ==>
                var was, now := old(bufs)[r.value], bufs[r.value];
                if was.dev == dev && was.blockno == blockno then now == was.(refcnt := was.refcnt + 1)
                else was.refcnt == 0 && !was.dirty && now == Buf(false, false, dev, blockno, 1, was.data)
      ensures r.Some? && !Holds(old(bufs)[r.value], dev, blockno) ==>
                forall j | 0 <= j < |bufs| && Recyclable(old(bufs)[j]) :: released[r.value] <= released[j]
      ensures r.None? <==> forall j | 0 <= j < |bufs| ::
                !Holds(old(bufs)[j], dev, blockno) && !Recyclable(old(bufs)[j])
      ensures r.None? ==> bufs == old(bufs)
    {
      var head := |bufs|;
      var b := next[head];
      ghost var k := 0;
      assert next[Node(head, order, -1)] == Node(head, order, 0);
      while b != head
        invariant 0 <= k <= |order| && b == Node(head, order, k)
        invariant forall m | 0 <= m < k :: !Holds(bufs[order[m]], dev, blockno)
        decreases |order| - k
      {
        if Holds(bufs[b], dev, blockno) {
          bufs := bufs[b := bufs[b].(refcnt := bufs[b].refcnt + 1)];
          return Some(b);
        }
        assert next[Node(head, order, k)] == Node(head, order, k + 1);
        b := next[b];
        k := k + 1;
      }
      assert forall j | 0 <= j < |bufs| :: !Holds(bufs[j], dev, blockno) by {
        forall j | 0 <= j < |bufs| ensures !Holds(bufs[j], dev, blockno) {
          assert j in order;
        }
      }
      assert prev[Node(head, order, |order|)] == Node(head, order, |order| - 1);
      b := prev[head];
      k := |order| - 1;
      while b != head
        invariant -1 <= k < |order| && b == Node(head, order, k)
        invariant forall m | k < m < |order| :: !Recyclable(bufs[order[m]])
        decreases k
      {
        if Recyclable(bufs[b]) {
          forall j | 0 <= j < |bufs| && Recyclable(bufs[j]) ensures released[b] <= released[j] {
            assert j in order;
          }
          bufs := bufs[b := Recycled(bufs[b], dev, blockno)];
          return Some(b);
        }
        assert prev[Node(head, order, k)] == Node(head, order, k - 1);
        b := prev[b];
        k := k - 1;
      }
      forall j | 0 <= j < |bufs| ensures !Recyclable(bufs[j]) {
        assert j in order;
      }
      r := None;
    }

    /** `bread`: the buffer from `bget`, read from disk unless it is valid; `None` is a panic. */
    method Bread(dev: int, blockno: int) returns (r: Option<nat>)
      requires Valid() && forall j | 0 <= j < |bufs| && bufs[j].dirty :: bufs[j].valid
      modifies this`bufs
      ensures Valid()
      ensures r.Some? ==> exists mid: seq<Buf> :: Got(old(bufs), mid, r.value, dev, blockno)
                            && bufs == mid[r.value := Loaded(mid[r.value], disk)]
      ensures r.Some? ==>
                var was, now := old(bufs)[r.value], bufs[r.value];
                var hit := was.dev == dev && was.blockno == blockno;
                && now.valid && now.dev == dev && now.blockno == blockno && (hit || (was.refcnt == 0 && !was.dirty))
                && now.refcnt == (if hit then was.refcnt + 1 else 1) && now.dirty == (hit && was.dirty)
                && now.data == if hit && was.valid then was.data else Read(disk, blockno)
      ensures NoBuffer(old(bufs), dev, blockno) ==> r.None?
      ensures !OnDisk(disk, dev, blockno) && NotRead(old(bufs), dev, blockno) ==> r.None?
      ensures r.None? ==>
              NoBuffer(old(bufs), dev, blockno) || (!OnDisk(disk, dev, blockno) && Missed(old(bufs), dev, blockno))
    {
      r := Bget(dev, blockno);
      if r.Some? && !bufs[r.value].valid {
        if dev != 1 || !(0 <= blockno < |disk|) {
          return None;
        }
        bufs := bufs[r.value := Loaded(bufs[r.value], disk)];
      }
    }

    /** `bwrite` of a held buffer: one block write, after which the buffer is clean; false is a panic of `iderw`. */
    method Bwrite(i: nat) returns (ok: bool)
      requires Valid() && i < |bufs|
      modifies this`bufs, this`disk
      ensures Valid() && (ok <==> old(bufs)[i].dev == 1 && 0 <= old(bufs)[i].blockno < |old(disk)|)
      ensures disk == if ok then Put(old(disk), bufs[i].blockno, bufs[i].data) else old(disk)
      ensures bufs == old(bufs)[i := old(bufs)[i].(dirty := !ok, valid := ok || old(bufs)[i].valid)]
    {
      bufs := bufs[i := bufs[i].(dirty := true)];
      if bufs[i].dev != 1 || !(0 <= bufs[i].blockno < |disk|) {
        return false;
      }
      disk := Put(disk, bufs[i].blockno, bufs[i].data);
      bufs := bufs[i := bufs[i].(dirty := false, valid := true)];
      ok := true;
    }

    /** `brelse`: drop one reference; the last one moves the buffer to the front of the ring. */
    method Brelse(b: nat)
      requires Valid() && b < |bufs|
      modifies this
      ensures Valid()
      ensures bufs == old(bufs)[b := old(bufs)[b].(refcnt := old(bufs)[b].refcnt - 1)]
      ensures bufs[b].refcnt != 0 ==> order == old(order) && released == old(released) && clock == old(clock)
      ensures bufs[b].refcnt == 0 ==> MovedToFront(old(order), order, b)
      ensures bufs[b].refcnt == 0 ==> released == old(released)[b := old(clock)] && clock == old(clock) + 1
    {
      var head := |bufs|;
      bufs := bufs[b := bufs[b].(refcnt := bufs[b].refcnt - 1)];
      if bufs[b].refcnt == 0 {
        assert b in order;
        ghost var k :| 0 <= k < |order| && order[k] == b;
        MoveToFront(order, released, clock, k);
        Relink(b, head, k);
        released, clock := released[b := clock], clock + 1;
      }
    }

    /** Unlink buffer `b` and link it in after the head. */
    method Relink(b: nat, head: nat, ghost k: nat)
      requires Linked(next, prev, head, order) && k < |order| && order[k] == b < head && b !in Without(order, k)
      modifies this`next, this`prev, this`order
      ensures Linked(next, prev, head, order) && order == [b] + Without(old(order), k)
    {
      UnlinkOk(next, prev, head, order, k);
      prev := prev[next[b] := prev[b]];
      next := next[prev[b] := next[b]];
      order := Without(order, k);
      PushFrontOk(next, prev, head, order, b);
      next := next[b := next[head]];
      prev := prev[b := head];
      prev := prev[next[head] := b];
      next := next[head := b];
      order := [b] + order;
    }
  }
}
