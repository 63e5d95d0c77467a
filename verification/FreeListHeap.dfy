/**
 What every operation of `xv6/umalloc.c` keeps: the headers in memory form one address-ordered
 circle of unmerged free blocks, live blocks overlap nothing, and free and live blocks together
 are exactly the memory obtained from `sbrk`.
 */
module FreeListHeap {
  import opened FreeList
  import opened FreeListLinks

  /** Unit `x` belongs to a block that `malloc` returned and that was not freed since. */
  ghost predicate LiveCovers(live: map<nat, nat>, x: nat) {
    exists a :: a in live && In(Blk(a, live[a]), x)
  }

  /** A live block overlaps no free block, and its header holds its size. */
  ghost predicate LiveOne(hdr: map<nat, Header>, l: seq<Blk>, a: nat, n: nat) {
    Apart(l, Blk(a, n)) && a in hdr && hdr[a].size == n
  }

  predicate Disjoint(a: nat, n: nat, b: nat, m: nat) {
    a + n <= b || b + m <= a
  }

  ghost predicate LiveOk(hdr: map<nat, Header>, l: seq<Blk>, live: map<nat, nat>) {
    && (forall a | a in live :: LiveOne(hdr, l, a, live[a]))
    && forall a, b | a in live && b in live && a != b :: Disjoint(a, live[a], b, live[b])
  }

  /** Free and live blocks together are exactly the units obtained from `sbrk`. */
  ghost predicate Accounts(l: seq<Blk>, live: map<nat, nat>, core: iset<nat>) {
    forall x: nat :: x in core <==> Covers(l, x) || LiveCovers(live, x)
  }

  ghost predicate ListOk(hdr: map<nat, Header>, l: seq<Blk>, base: nat) {
    Ordered(l) && l[0].addr == base && Circle(hdr, l)
  }

  ghost predicate Heap(hdr: map<nat, Header>, l: seq<Blk>, live: map<nat, nat>, core: iset<nat>, base: nat) {
    ListOk(hdr, l, base) && LiveOk(hdr, l, live) && Accounts(l, live, core)
  }

  /** The units of a block. */
  ghost function Span(a: nat, n: nat): iset<nat> {
    iset x: nat | In(Blk(a, n), x)
  }

  // ----- free

  lemma InsertApart(l: seq<Blk>, g: nat, b: Blk, c: Blk)
    requires Ordered(l) && Gap(l, g, b.addr) && Apart(l, b) && Apart(l, c) && Disjoint(b.addr, b.size, c.addr, c.size)
    ensures Apart(Insert(l, g, b), c)
  {
    InsertAlone(l, g, b);
    if Lower(l, g, b) {
      if Upper(l, g, b) {
        ApartDrop(l, g + 1, c);
        ApartSet(Drop(l, g + 1), g, Blk(l[g].addr, l[g].size + (b.size + l[g + 1].size)), c);
      } else {
        ApartSet(l, g, Blk(l[g].addr, l[g].size + b.size), c);
      }
    } else if Upper(l, g, b) {
      ApartSet(l, g + 1, Merged(l, g, b), c);
    } else {
      ApartAdd(l, g + 1, b, c);
    }
  }

  lemma ApartDrop(l: seq<Blk>, k: nat, c: Blk)
    requires Apart(l, c) && 0 < k < |l|
    ensures Apart(Drop(l, k), c)
  {
  }

  lemma ApartSet(l: seq<Blk>, k: nat, b: Blk, c: Blk)
    requires Apart(l, c) && k < |l| && Disjoint(b.addr, b.size, c.addr, c.size) && (k == 0 ==> b.addr == l[0].addr)
    ensures Apart(l[k := b], c)
  {
  }

  lemma ApartAdd(l: seq<Blk>, k: nat, b: Blk, c: Blk)
    requires Apart(l, c) && 0 < k <= |l| && Disjoint(b.addr, b.size, c.addr, c.size)
    ensures Apart(Add(l, k, b), c)
  {
  }

  lemma RelinkedFrame(hdr: map<nat, Header>, p: nat, b: nat, a: nat)
    requires a in hdr && a != p && a != b
    ensures a in Relinked(hdr, p, b) && Relinked(hdr, p, b)[a] == hdr[a]
  {
  }

  lemma NotInList(l: seq<Blk>, b: Blk, i: nat)
    requires Ordered(l) && Apart(l, b) && i < |l|
    ensures l[i].addr != b.addr
  {
    assert Limit(l[i]) <= b.addr || Limit(b) <= l[i].addr;
  }

  lemma FreeLive(hdr: map<nat, Header>, l: seq<Blk>, live: map<nat, nat>, g: nat, b: nat)
    requires Ordered(l) && LiveOk(hdr, l, live) && b in live && Gap(l, g, b)
    ensures LiveOk(Relinked(hdr, l[g].addr, b), Insert(l, g, Blk(b, live[b])), live - {b})
  {
    var h, m := Relinked(hdr, l[g].addr, b), Insert(l, g, Blk(b, live[b]));
    assert LiveOne(hdr, l, b, live[b]);
    forall a | a in live && a != b ensures LiveOne(h, m, a, live[a]) {
      assert LiveOne(hdr, l, a, live[a]);
      assert Disjoint(a, live[a], b, live[b]);
      InsertApart(l, g, Blk(b, live[b]), Blk(a, live[a]));
      NotInList(l, Blk(a, live[a]), g);
      RelinkedFrame(hdr, l[g].addr, b, a);
    }
  }

  lemma LiveCoversDrop(live: map<nat, nat>, b: nat, x: nat)
    requires b in live
    ensures LiveCovers(live, x) <==> LiveCovers(live - {b}, x) || In(Blk(b, live[b]), x)
  {
    if LiveCovers(live, x) {
      var a :| a in live && In(Blk(a, live[a]), x);
      assert a != b ==> a in live - {b};
    }
    if LiveCovers(live - {b}, x) {
      var a :| a in live - {b} && In(Blk(a, (live - {b})[a]), x);
      assert a in live;
    }
  }

  lemma FreeAccounts(l: seq<Blk>, live: map<nat, nat>, core: iset<nat>, g: nat, b: nat)
    requires Accounts(l, live, core) && b in live && g < |l|
    ensures Accounts(Insert(l, g, Blk(b, live[b])), live - {b}, core)
  {
    forall x: nat
      ensures x in core <==> Covers(Insert(l, g, Blk(b, live[b])), x) || LiveCovers(live - {b}, x)
    {
      InsertCovers(l, g, Blk(b, live[b]), x);
      LiveCoversDrop(live, b, x);
    }
  }

  lemma FreeCircle(hdr: map<nat, Header>, l: seq<Blk>, base: nat, g: nat, b: Blk)
    requires ListOk(hdr, l, base) && Gap(l, g, b.addr) && Apart(l, b) && b.addr in hdr && hdr[b.addr].size == b.size
    ensures ListOk(Relinked(hdr, l[g].addr, b.addr), Insert(l, g, b), base)
    ensures Insert(l, g, b)[g].addr == l[g].addr
  {
    InsertCircle(hdr, l, g, b);
    InsertOrdered(l, g, b);
  }

  /** `free` of a live block. */
  lemma FreeHeap(hdr: map<nat, Header>, l: seq<Blk>, live: map<nat, nat>, core: iset<nat>, base: nat, g: nat, b: nat)
    requires Heap(hdr, l, live, core, base) && b in live && Gap(l, g, b)
    ensures Heap(Relinked(hdr, l[g].addr, b), Insert(l, g, Blk(b, live[b])), live - {b}, core, base)
    ensures Insert(l, g, Blk(b, live[b]))[g].addr == l[g].addr
  {
    assert LiveOne(hdr, l, b, live[b]);
    FreeCircle(hdr, l, base, g, Blk(b, live[b]));
    FreeLive(hdr, l, live, g, b);
    FreeAccounts(l, live, core, g, b);
  }

  // ----- malloc

  lemma TakeApart(l: seq<Blk>, k: nat, n: nat, c: Blk)
    requires Ordered(l) && k < |l| && 0 < n <= l[k].size && Apart(l, c)
    ensures Apart(Take(l, k, n), c) && Disjoint(Taken(l[k], n).addr, n, c.addr, c.size)
  {
    assert Limit(l[k]) <= c.addr || Limit(c) <= l[k].addr;
    TakeOrdered(l, k, n);
  }

  lemma UnlinkedFrame(hdr: map<nat, Header>, l: seq<Blk>, k: nat, n: nat, c: Blk)
    requires Ordered(l) && Circle(hdr, l) && 0 < k < |l| && 0 < n <= l[k].size && Apart(l, c) && c.addr in hdr
    ensures var h := Unlinked(hdr, l[k - 1].addr, l[k].addr, n);
            c.addr in h && h[c.addr] == hdr[c.addr]
  {
    CircleAt(hdr, l, k);
    NotInList(l, c, k - 1);
    NotInList(l, c, k);
    TakeApart(l, k, n, c);
  }

  lemma TakeLive(hdr: map<nat, Header>, l: seq<Blk>, live: map<nat, nat>, k: nat, n: nat)
    requires Ordered(l) && Circle(hdr, l) && LiveOk(hdr, l, live) && 0 < k < |l| && 0 < n <= l[k].size
    ensures Taken(l[k], n).addr !in live
    ensures LiveOk(Unlinked(hdr, l[k - 1].addr, l[k].addr, n), Take(l, k, n), live[Taken(l[k], n).addr := n])
  {
    var h, m, q := Unlinked(hdr, l[k - 1].addr, l[k].addr, n), Take(l, k, n), Taken(l[k], n).addr;
    TakeOrdered(l, k, n);
    TakeCircle(hdr, l, k, n);
    assert LiveOne(h, m, q, n);
    forall a | a in live
      ensures LiveOne(h, m, a, live[a]) && a != q && Disjoint(q, n, a, live[a]) && Disjoint(a, live[a], q, n)
    {
      assert LiveOne(hdr, l, a, live[a]);
      TakeApart(l, k, n, Blk(a, live[a]));
      UnlinkedFrame(hdr, l, k, n, Blk(a, live[a]));
    }
  }

  lemma LiveCoversAdd(live: map<nat, nat>, b: nat, n: nat, x: nat)
    requires b !in live
    ensures LiveCovers(live[b := n], x) <==> LiveCovers(live, x) || In(Blk(b, n), x)
  {
    assert live[b := n] - {b} == live;
    LiveCoversDrop(live[b := n], b, x);
  }

  lemma TakeAccounts(l: seq<Blk>, live: map<nat, nat>, core: iset<nat>, k: nat, n: nat)
    requires Ordered(l) && Accounts(l, live, core) && k < |l| && 0 < n <= l[k].size && Taken(l[k], n).addr !in live
    ensures Accounts(Take(l, k, n), live[Taken(l[k], n).addr := n], core)
  {
    var live' := live[Taken(l[k], n).addr := n];
    forall x: nat ensures x in core <==> Covers(Take(l, k, n), x) || LiveCovers(live', x) {
      TakeCovers(l, k, n, x);
      LiveCoversAdd(live, Taken(l[k], n).addr, n, x);
    }
  }

  /** `malloc` of `n` units from block `k`. */
  lemma TakeHeap(hdr: map<nat, Header>, l: seq<Blk>, live: map<nat, nat>, core: iset<nat>, base: nat, k: nat, n: nat)
    requires Heap(hdr, l, live, core, base) && 0 < k < |l| && 0 < n <= l[k].size
    ensures Taken(l[k], n).addr !in live
    ensures Heap(Unlinked(hdr, l[k - 1].addr, l[k].addr, n), Take(l, k, n), live[Taken(l[k], n).addr := n], core, base)
    ensures Take(l, k, n)[k - 1].addr == l[k - 1].addr && k - 1 < |Take(l, k, n)|
  {
    TakeOrdered(l, k, n);
    TakeCircle(hdr, l, k, n);
    TakeLive(hdr, l, live, k, n);
    TakeAccounts(l, live, core, k, n);
  }

  // ----- morecore

  /** Memory that the allocator does not know of. */
  ghost predicate Unknown(core: iset<nat>, base: nat, a: nat, n: nat) {
    base < a && 0 < n && forall x | a <= x < a + n :: x !in core
  }

  lemma UnknownApart(l: seq<Blk>, live: map<nat, nat>, core: iset<nat>, a: nat, n: nat)
    requires Ordered(l) && Accounts(l, live, core) && Unknown(core, l[0].addr, a, n)
    ensures Apart(l, Blk(a, n))
  {
    forall i | 0 <= i < |l| ensures Limit(l[i]) <= a || a + n <= l[i].addr {
      var x := if l[i].addr < a then a else l[i].addr;
      assert x < Limit(l[i]) ==> Covers(l, x);
    }
  }

  lemma UnknownDisjoint(l: seq<Blk>, live: map<nat, nat>, core: iset<nat>, base: nat, a: nat, n: nat, b: nat)
    requires Accounts(l, live, core) && Unknown(core, base, a, n) && b in live && 0 < live[b]
    ensures Disjoint(a, n, b, live[b]) && Disjoint(b, live[b], a, n)
  {
    var x := if b < a then a else b;
    assert In(Blk(b, live[b]), x) ==> LiveCovers(live, x);
  }

  lemma GrowLive(hdr: map<nat, Header>, l: seq<Blk>, live: map<nat, nat>, core: iset<nat>, base: nat, a: nat, h: Header)
    requires Heap(hdr, l, live, core, base) && Unknown(core, base, a, h.size)
    ensures a !in live && LiveOk(hdr[a := h], l, live[a := h.size])
  {
    UnknownApart(l, live, core, a, h.size);
    forall b | b in live
      ensures b != a && LiveOne(hdr[a := h], l, b, live[b])
      ensures Disjoint(a, h.size, b, live[b]) && Disjoint(b, live[b], a, h.size)
    {
      assert LiveOne(hdr, l, b, live[b]);
      UnknownDisjoint(l, live, core, base, a, h.size, b);
    }
    assert LiveOne(hdr[a := h], l, a, h.size);
  }

  /** Memory from `sbrk` with a header in front is a block that can be freed. */
  lemma GrowHeap(hdr: map<nat, Header>, l: seq<Blk>, live: map<nat, nat>, core: iset<nat>, base: nat, a: nat, h: Header)
    requires Heap(hdr, l, live, core, base) && Unknown(core, base, a, h.size)
    ensures a !in live
    ensures Heap(hdr[a := h], l, live[a := h.size], core + Span(a, h.size), base)
  {
    UnknownApart(l, live, core, a, h.size);
    GrowLive(hdr, l, live, core, base, a, h);
    forall i | 0 <= i < |l| ensures l[i].addr != a {
      NotInList(l, Blk(a, h.size), i);
    }
    CircleFrame(hdr, l, a, h);
    var live' := live[a := h.size];
    forall x: nat ensures x in core + Span(a, h.size) <==> Covers(l, x) || LiveCovers(live', x) {
      LiveCoversAdd(live, a, h.size, x);
    }
  }
}
