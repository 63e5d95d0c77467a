/**
 The free list of `xv6/umalloc.c` on values.  Addresses count header-sized units.  The list is
 the sequence of free blocks in address order; its first element is `base`, which has size 0.
 */
module FreeList {

  datatype Blk = Blk(addr: nat, size: nat)

  /** A block header in memory. */
  datatype Header = Header(ptr: nat, size: nat)

  function Limit(b: Blk): nat {
    b.addr + b.size
  }

  /** Address order, with a gap between any two blocks: free neighbours have been merged. */
  ghost predicate Ordered(l: seq<Blk>) {
    && 0 < |l| && l[0].size == 0 && 0 < l[0].addr
    && (forall i | 0 < i < |l| :: 0 < l[i].size)
    && forall i, j | 0 <= i < j < |l| :: Limit(l[i]) < l[j].addr
  }

  function Next(l: seq<Blk>, i: nat): nat {
    if i + 1 < |l| then i + 1 else 0
  }

  /** The header of block `i` holds its size and the address of the next block. */
  ghost predicate Link(hdr: map<nat, Header>, l: seq<Blk>, i: nat) {
    i < |l| ==> l[i].addr in hdr && hdr[l[i].addr] == Header(l[Next(l, i)].addr, l[i].size)
  }

  /** The headers in memory link the blocks into one circle. */
  ghost predicate Circle(hdr: map<nat, Header>, l: seq<Blk>) {
    forall i: nat :: Link(hdr, l, i)
  }

  /** Unit `x` belongs to a block of the list. */
  ghost predicate Covers(l: seq<Blk>, x: nat) {
    exists i :: 0 <= i < |l| && l[i].addr <= x < Limit(l[i])
  }

  /** Block `b` lies above `base` and overlaps no block of the list. */
  ghost predicate Apart(l: seq<Blk>, b: Blk) {
    && 0 < b.size && 0 < |l| && l[0].addr < b.addr
    && forall i | 0 <= i < |l| :: Limit(l[i]) <= b.addr || Limit(b) <= l[i].addr
  }

  // ----- lists

  function Add(l: seq<Blk>, k: nat, b: Blk): seq<Blk>
    requires k <= |l|
  {
    l[..k] + [b] + l[k..]
  }

  function Drop(l: seq<Blk>, k: nat): seq<Blk>
    requires k < |l|
  {
    l[..k] + l[k + 1..]
  }

  predicate In(b: Blk, x: nat) {
    b.addr <= x < Limit(b)
  }

  lemma OrderedAdd(l: seq<Blk>, k: nat, b: Blk)
    requires Ordered(l) && 0 < k <= |l| && 0 < b.size
    requires forall i | 0 <= i < k :: Limit(l[i]) < b.addr
    requires forall j | k <= j < |l| :: Limit(b) < l[j].addr
    ensures Ordered(Add(l, k, b))
  {
  }

  lemma OrderedSet(l: seq<Blk>, k: nat, b: Blk)
    requires Ordered(l) && 0 <= k < |l| && (if k == 0 then b == l[0] else 0 < b.size)
    requires forall i | 0 <= i < k :: Limit(l[i]) < b.addr
    requires forall j | k < j < |l| :: Limit(b) < l[j].addr
    ensures Ordered(l[k := b])
  {
  }

  lemma OrderedDrop(l: seq<Blk>, k: nat)
    requires Ordered(l) && 0 < k < |l|
    ensures Ordered(Drop(l, k))
  {
  }

  lemma CoversAdd(l: seq<Blk>, k: nat, b: Blk, x: nat)
    requires k <= |l|
    ensures Covers(Add(l, k, b), x) <==> Covers(l, x) || In(b, x)
  {
    var m := Add(l, k, b);
    assert m[k] == b;
    if Covers(l, x) {
      var i :| 0 <= i < |l| && l[i].addr <= x < Limit(l[i]);
      assert m[if i < k then i else i + 1] == l[i];
    }
    if Covers(m, x) {
      var j :| 0 <= j < |m| && m[j].addr <= x < Limit(m[j]);
      if j != k {
        assert m[j] == l[if j < k then j else j - 1];
      }
    }
  }

  lemma CoversDrop(l: seq<Blk>, k: nat, x: nat)
    requires k < |l|
    ensures Covers(l, x) <==> Covers(Drop(l, k), x) || In(l[k], x)
  {
    assert Add(Drop(l, k), k, l[k]) == l;
    CoversAdd(Drop(l, k), k, l[k], x);
  }

  lemma CoversSet(l: seq<Blk>, k: nat, b: Blk, x: nat)
    requires k < |l|
    ensures Covers(l[k := b], x) <==> Covers(Drop(l, k), x) || In(b, x)
  {
    assert Drop(l[k := b], k) == Drop(l, k);
    CoversDrop(l[k := b], k, x);
  }

  // ----- free

  /** `g` is the last block below address `a`. */
  ghost predicate Gap(l: seq<Blk>, g: nat, a: nat) {
    g < |l| && l[g].addr < a && (g + 1 < |l| ==> a < l[g + 1].addr)
  }

  /** The upper neighbour of a block put after block `g` starts where it ends. */
  predicate Upper(l: seq<Blk>, g: nat, b: Blk) {
    g + 1 < |l| && Limit(b) == l[g + 1].addr
  }

  predicate Lower(l: seq<Blk>, g: nat, b: Blk) {
    g < |l| && Limit(l[g]) == b.addr
  }

  /** The first half of `free`: put `b` after block `g`, merged with its upper neighbour. */
  function MergeUp(l: seq<Blk>, g: nat, b: Blk): (m: seq<Blk>)
    requires g < |l|
    ensures g + 1 < |m|
  {
    if Upper(l, g, b) then l[g + 1 := Blk(b.addr, b.size + l[g + 1].size)] else Add(l, g + 1, b)
  }

  /** The second half: merge block `g + 1` into block `g` if they touch. */
  function MergeDown(m: seq<Blk>, g: nat): (r: seq<Blk>)
    requires g + 1 < |m|
    ensures g < |r|
  {
    if Limit(m[g]) == m[g + 1].addr then Drop(m, g + 1)[g := Blk(m[g].addr, m[g].size + m[g + 1].size)] else m
  }

  function Insert(l: seq<Blk>, g: nat, b: Blk): (r: seq<Blk>)
    requires g < |l|
    ensures g < |r|
  {
    MergeDown(MergeUp(l, g, b), g)
  }

  /** The block that ends up after block `g`. */
  function Merged(l: seq<Blk>, g: nat, b: Blk): Blk {
    if Upper(l, g, b) then Blk(b.addr, b.size + l[g + 1].size) else b
  }

  lemma MergeUpFacts(l: seq<Blk>, g: nat, b: Blk)
    requires Ordered(l) && Gap(l, g, b.addr) && Apart(l, b)
    ensures MergeUp(l, g, b)[g] == l[g] && MergeUp(l, g, b)[g + 1] == Merged(l, g, b)
    ensures Limit(l[g]) <= b.addr
    ensures forall j | g + 1 < j < |MergeUp(l, g, b)| :: Limit(Merged(l, g, b)) < MergeUp(l, g, b)[j].addr
  {
    var m := MergeUp(l, g, b);
    forall j | g + 1 < j < |m| ensures Limit(Merged(l, g, b)) < m[j].addr {
      if !Upper(l, g, b) {
        assert m[j] == l[j - 1];
        assert Limit(l[j - 1]) <= b.addr || Limit(b) <= l[j - 1].addr;
        assert g + 1 < |l| && (j - 1 > g + 1 ==> Limit(l[g + 1]) < l[j - 1].addr);
      }
    }
  }

  lemma InsertOrdered(l: seq<Blk>, g: nat, b: Blk)
    requires Ordered(l) && Gap(l, g, b.addr) && Apart(l, b)
    ensures Ordered(Insert(l, g, b)) && Insert(l, g, b)[0] == l[0]
    ensures Insert(l, g, b)[g].addr == l[g].addr
  {
    var m := MergeUp(l, g, b);
    var c := Merged(l, g, b);
    MergeUpFacts(l, g, b);
    if Lower(l, g, b) {
      InsertLower(l, g, b);
    } else if Upper(l, g, b) {
      OrderedSet(l, g + 1, c);
    } else {
      OrderedAdd(l, g + 1, b);
    }
  }

  lemma InsertLower(l: seq<Blk>, g: nat, b: Blk)
    requires Ordered(l) && Gap(l, g, b.addr) && Apart(l, b) && Lower(l, g, b)
    ensures Ordered(Insert(l, g, b)) && Insert(l, g, b)[0] == l[0]
    ensures Insert(l, g, b)[g].addr == l[g].addr
  {
    MergeUpFacts(l, g, b);
    assert 0 < g;
    if Upper(l, g, b) {
      LowerUpper(l, g, b);
      GrowOverNext(l, g, b);
    } else {
      LowerOnly(l, g, b);
      GrowInPlace(l, g, b);
    }
  }

  lemma LowerUpper(l: seq<Blk>, g: nat, b: Blk)
    requires g < |l| && MergeUp(l, g, b)[g] == l[g] && MergeUp(l, g, b)[g + 1] == Merged(l, g, b)
    requires Lower(l, g, b) && Upper(l, g, b)
    ensures Insert(l, g, b) == Drop(l, g + 1)[g := Blk(l[g].addr, l[g].size + (b.size + l[g + 1].size))]
  {
    assert Drop(MergeUp(l, g, b), g + 1) == Drop(l, g + 1);
  }

  lemma LowerOnly(l: seq<Blk>, g: nat, b: Blk)
    requires g < |l| && MergeUp(l, g, b)[g] == l[g] && MergeUp(l, g, b)[g + 1] == Merged(l, g, b)
    requires Lower(l, g, b) && !Upper(l, g, b)
    ensures Insert(l, g, b) == l[g := Blk(l[g].addr, l[g].size + b.size)]
  {
    assert Drop(MergeUp(l, g, b), g + 1) == l;
  }

  lemma GrowInPlace(l: seq<Blk>, g: nat, b: Blk)
    requires Ordered(l) && Gap(l, g, b.addr) && Apart(l, b) && Lower(l, g, b) && !Upper(l, g, b) && 0 < g
    ensures Ordered(l[g := Blk(l[g].addr, l[g].size + b.size)])
  {
    forall j | g < j < |l| ensures Limit(b) < l[j].addr {
      assert Limit(l[j]) <= b.addr || Limit(b) <= l[j].addr;
      assert j > g + 1 ==> Limit(l[g + 1]) < l[j].addr;
    }
    OrderedSet(l, g, Blk(l[g].addr, l[g].size + b.size));
  }

  lemma GrowOverNext(l: seq<Blk>, g: nat, b: Blk)
    requires Ordered(l) && Lower(l, g, b) && Upper(l, g, b) && 0 < g
    ensures Ordered(Drop(l, g + 1)[g := Blk(l[g].addr, l[g].size + (b.size + l[g + 1].size))])
  {
    var big := Blk(l[g].addr, l[g].size + (b.size + l[g + 1].size));
    var d := Drop(l, g + 1);
    OrderedDrop(l, g + 1);
    assert Limit(big) == Limit(l[g + 1]);
    forall j | g < j < |d| ensures Limit(big) < d[j].addr {
      assert d[j] == l[j + 1];
    }
    OrderedSet(d, g, big);
  }

  /** Freeing adds exactly the units of the block. */
  lemma InsertCovers(l: seq<Blk>, g: nat, b: Blk, x: nat)
    requires g < |l|
    ensures Covers(Insert(l, g, b), x) <==> Covers(l, x) || In(b, x)
  {
    var m := MergeUp(l, g, b);
    if Upper(l, g, b) {
      CoversSet(l, g + 1, m[g + 1], x);
      CoversDrop(l, g + 1, x);
    } else {
      CoversAdd(l, g + 1, b, x);
    }
    if Limit(m[g]) == m[g + 1].addr {
      var big := Blk(m[g].addr, m[g].size + m[g + 1].size);
      CoversSet(Drop(m, g + 1), g, big, x);
      CoversDrop(Drop(m, g + 1), g, x);
      CoversDrop(m, g + 1, x);
    }
  }

  // ----- malloc

  /** Take `n` units off the end of block `k`; a block that fits exactly leaves the list. */
  function Take(l: seq<Blk>, k: nat, n: nat): seq<Blk>
    requires k < |l|
  {
    if l[k].size == n then Drop(l, k) else if n < l[k].size then l[k := Blk(l[k].addr, l[k].size - n)] else l
  }

  /** The block that `malloc` hands out. */
  function Taken(b: Blk, n: nat): Blk
  {
    if n <= b.size then Blk(b.addr + b.size - n, n) else b
  }

  lemma TakeOrdered(l: seq<Blk>, k: nat, n: nat)
    requires Ordered(l) && k < |l| && 0 < n <= l[k].size
    ensures Ordered(Take(l, k, n)) && Take(l, k, n)[0] == l[0] && 0 < k
    ensures Apart(Take(l, k, n), Taken(l[k], n))
  {
    if l[k].size == n {
      OrderedDrop(l, k);
    } else {
      OrderedSet(l, k, Blk(l[k].addr, l[k].size - n));
    }
  }

  /** Allocating splits the units of the list into the taken block and the rest. */
  lemma TakeCovers(l: seq<Blk>, k: nat, n: nat, x: nat)
    requires Ordered(l) && k < |l| && 0 < n <= l[k].size
    ensures Covers(l, x) <==> Covers(Take(l, k, n), x) || In(Taken(l[k], n), x)
    ensures !(Covers(Take(l, k, n), x) && In(Taken(l[k], n), x))
  {
    CoversDrop(l, k, x);
    if l[k].size != n {
      CoversSet(l, k, Blk(l[k].addr, l[k].size - n), x);
    }
    TakeOrdered(l, k, n);
  }
}
