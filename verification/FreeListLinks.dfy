/** The pointer updates of `free` and `malloc` (`xv6/umalloc.c`) keep the free list one circle. */
module FreeListLinks {
  import opened FreeList

  /** A header, or nothing of interest where no header was written. */
  function At(hdr: map<nat, Header>, a: nat): Header {
    if a in hdr then hdr[a] else Header(0, 0)
  }

  /** `b->s` after the first `if` of `free`, with `p` the predecessor. */
  function LinkUp(hdr: map<nat, Header>, p: nat, b: nat): map<nat, Header> {
    var q := At(hdr, p).ptr;
    if b + At(hdr, b).size == q then hdr[b := Header(At(hdr, q).ptr, At(hdr, b).size + At(hdr, q).size)]
    else hdr[b := Header(q, At(hdr, b).size)]
  }

  /** The second `if` of `free`. */
  function LinkDown(hdr: map<nat, Header>, p: nat, b: nat): map<nat, Header> {
    if p + At(hdr, p).size == b then hdr[p := Header(At(hdr, b).ptr, At(hdr, p).size + At(hdr, b).size)]
    else hdr[p := Header(b, At(hdr, p).size)]
  }

  /** Addresses in the list are distinct. */
  lemma AddrsDiffer(l: seq<Blk>, i: nat, j: nat)
    requires Ordered(l) && i < |l| && j < |l| && l[i].addr == l[j].addr
    ensures i == j
  {
  }

  lemma CircleAt(hdr: map<nat, Header>, l: seq<Blk>, i: nat)
    requires Circle(hdr, l) && i < |l|
    ensures l[i].addr in hdr && hdr[l[i].addr] == Header(l[Next(l, i)].addr, l[i].size) && Next(l, i) < |l|
  {
    assert Link(hdr, l, i);
  }

  /** Linking a new block `b` after block `g`. */
  lemma CircleAdd(hdr: map<nat, Header>, l: seq<Blk>, g: nat, b: Blk)
    requires Ordered(l) && Circle(hdr, l) && g < |l| && forall i | 0 <= i < |l| :: l[i].addr != b.addr
    ensures Circle(hdr[b.addr := Header(l[Next(l, g)].addr, b.size)][l[g].addr := Header(b.addr, l[g].size)],
                   Add(l, g + 1, b))
  {
    var m := Add(l, g + 1, b);
    var h := hdr[b.addr := Header(l[Next(l, g)].addr, b.size)][l[g].addr := Header(b.addr, l[g].size)];
    assert m[g] == l[g] && m[g + 1] == b;
    forall j: nat ensures Link(h, m, j) {
      if j < |m| && j != g && j != g + 1 {
        var i := if j < g then j else j - 1;
        assert m[j] == l[i];
        CircleAt(hdr, l, i);
        assert m[Next(m, j)] == l[Next(l, i)];
      }
    }
  }

  /** Replacing block `k`, at a new address, behind block `k - 1`. */
  lemma CircleMove(hdr: map<nat, Header>, l: seq<Blk>, k: nat, b: Blk)
    requires Ordered(l) && Circle(hdr, l) && 0 < k < |l| && forall i | 0 <= i < |l| :: l[i].addr != b.addr
    ensures Circle(hdr[b.addr := Header(l[Next(l, k)].addr, b.size)][l[k - 1].addr := Header(b.addr, l[k - 1].size)],
                   l[k := b])
  {
    var m := l[k := b];
    var h := hdr[b.addr := Header(l[Next(l, k)].addr, b.size)][l[k - 1].addr := Header(b.addr, l[k - 1].size)];
    forall j: nat ensures Link(h, m, j) {
      if j < |m| && j != k && j != k - 1 {
        CircleAt(hdr, l, j);
      }
    }
  }

  /** Changing the size of block `k`. */
  lemma CircleResize(hdr: map<nat, Header>, l: seq<Blk>, k: nat, n: nat)
    requires Ordered(l) && Circle(hdr, l) && k < |l|
    ensures Circle(hdr[l[k].addr := Header(l[Next(l, k)].addr, n)], l[k := Blk(l[k].addr, n)])
  {
    var m := l[k := Blk(l[k].addr, n)];
    var h := hdr[l[k].addr := Header(l[Next(l, k)].addr, n)];
    forall j: nat ensures Link(h, m, j) {
      if j < |m| && j != k {
        CircleAt(hdr, l, j);
      }
    }
  }

  /** Unlinking block `k`. */
  lemma CircleDrop(hdr: map<nat, Header>, l: seq<Blk>, k: nat)
    requires Ordered(l) && Circle(hdr, l) && 0 < k < |l|
    ensures Circle(hdr[l[k - 1].addr := Header(l[Next(l, k)].addr, l[k - 1].size)], Drop(l, k))
  {
    var m := Drop(l, k);
    var h := hdr[l[k - 1].addr := Header(l[Next(l, k)].addr, l[k - 1].size)];
    forall j: nat ensures Link(h, m, j) {
      if j < |m| {
        var i := if j < k then j else j + 1;
        assert m[j] == l[i];
        CircleAt(hdr, l, i);
        if j != k - 1 {
          assert m[Next(m, j)] == l[Next(l, i)];
        }
      }
    }
  }

  /** A header that is not in the list does not matter. */
  lemma CircleFrame(hdr: map<nat, Header>, l: seq<Blk>, a: nat, h: Header)
    requires Circle(hdr, l) && forall i | 0 <= i < |l| :: l[i].addr != a
    ensures Circle(hdr[a := h], l)
  {
    var hdr' := hdr[a := h];
    forall j: nat ensures Link(hdr', l, j) {
      if j < |l| {
        CircleAt(hdr, l, j);
      }
    }
  }

  // ----- free

  lemma UpperByPointer(hdr: map<nat, Header>, l: seq<Blk>, g: nat, b: Blk)
    requires Ordered(l) && Circle(hdr, l) && Apart(l, b) && g < |l|
    ensures Limit(b) == At(hdr, l[g].addr).ptr <==> Upper(l, g, b)
    ensures At(hdr, l[g].addr) == Header(l[Next(l, g)].addr, l[g].size)
    ensures forall i | 0 <= i < |l| :: l[i].addr != b.addr
  {
    CircleAt(hdr, l, g);
    forall i | 0 <= i < |l| ensures l[i].addr != b.addr {
      assert Limit(l[i]) <= b.addr || Limit(b) <= l[i].addr;
      assert i > 0 ==> 0 < l[i].size;
    }
  }

  /** The headers after `free` of block `b`, whose predecessor is block `g`. */
  function Relinked(hdr: map<nat, Header>, p: nat, b: nat): map<nat, Header> {
    LinkDown(LinkUp(hdr, p, b), p, b)
  }

  lemma InsertAlone(l: seq<Blk>, g: nat, b: Blk)
    requires Ordered(l) && Gap(l, g, b.addr) && Apart(l, b)
    ensures Insert(l, g, b) ==
      if Lower(l, g, b) then
        if Upper(l, g, b) then Drop(l, g + 1)[g := Blk(l[g].addr, l[g].size + (b.size + l[g + 1].size))]
        else l[g := Blk(l[g].addr, l[g].size + b.size)]
      else MergeUp(l, g, b)
  {
    MergeUpFacts(l, g, b);
    if Lower(l, g, b) {
      if Upper(l, g, b) {
        assert Drop(MergeUp(l, g, b), g + 1) == Drop(l, g + 1);
      } else {
        assert Drop(MergeUp(l, g, b), g + 1) == l;
      }
    }
  }

  /** What the two `if`s of `free` store, by the position of the block in the list. */
  lemma RelinkedIs(hdr: map<nat, Header>, l: seq<Blk>, g: nat, b: Blk)
    requires Ordered(l) && Circle(hdr, l) && Apart(l, b) && g < |l|
    requires b.addr in hdr && hdr[b.addr].size == b.size
    ensures var c := Merged(l, g, b);
            var next := l[Next(l, if Upper(l, g, b) then g + 1 else g)].addr;
            Relinked(hdr, l[g].addr, b.addr) ==
            hdr[b.addr := Header(next, c.size)]
               [l[g].addr := if Lower(l, g, b) then Header(next, l[g].size + c.size) else Header(b.addr, l[g].size)]
  {
    UpperByPointer(hdr, l, g, b);
    if Upper(l, g, b) {
      CircleAt(hdr, l, g + 1);
    }
  }

  /** `free` keeps one circle: the list it links is the list with the block inserted and merged. */
  lemma InsertCircle(hdr: map<nat, Header>, l: seq<Blk>, g: nat, b: Blk)
    requires Ordered(l) && Circle(hdr, l) && Gap(l, g, b.addr) && Apart(l, b)
    requires b.addr in hdr && hdr[b.addr].size == b.size
    ensures Circle(Relinked(hdr, l[g].addr, b.addr), Insert(l, g, b))
  {
    UpperByPointer(hdr, l, g, b);
    InsertAlone(l, g, b);
    RelinkedIs(hdr, l, g, b);
    if Lower(l, g, b) {
      CircleLower(hdr, l, g, b);
    } else if Upper(l, g, b) {
      CircleMove(hdr, l, g + 1, Merged(l, g, b));
    } else {
      CircleAdd(hdr, l, g, b);
    }
  }

  lemma CircleLower(hdr: map<nat, Header>, l: seq<Blk>, g: nat, b: Blk)
    requires Ordered(l) && Circle(hdr, l) && g < |l| && forall i | 0 <= i < |l| :: l[i].addr != b.addr
    ensures var c := Merged(l, g, b);
            var up := Upper(l, g, b);
            var next := l[Next(l, if up then g + 1 else g)].addr;
            Circle(hdr[b.addr := Header(next, c.size)][l[g].addr := Header(next, l[g].size + c.size)],
                   (if up then Drop(l, g + 1) else l)[g := Blk(l[g].addr, l[g].size + c.size)])
  {
    var c := Merged(l, g, b);
    if Upper(l, g, b) {
      var next := l[Next(l, g + 1)].addr;
      CircleFrame(hdr, l, b.addr, Header(next, c.size));
      CircleAbsorb(hdr[b.addr := Header(next, c.size)], l, g, l[g].size + c.size);
    } else {
      var next := l[Next(l, g)].addr;
      CircleFrame(hdr, l, b.addr, Header(next, c.size));
      CircleResize(hdr[b.addr := Header(next, c.size)], l, g, l[g].size + c.size);
    }
  }

  /** Unlinking block `g + 1` and resizing block `g`. */
  lemma CircleAbsorb(hdr: map<nat, Header>, l: seq<Blk>, g: nat, n: nat)
    requires Ordered(l) && Circle(hdr, l) && g + 1 < |l|
    ensures Circle(hdr[l[g].addr := Header(l[Next(l, g + 1)].addr, n)], Drop(l, g + 1)[g := Blk(l[g].addr, n)])
  {
    var next := l[Next(l, g + 1)].addr;
    CircleDrop(hdr, l, g + 1);
    OrderedDrop(l, g + 1);
    var d := Drop(l, g + 1);
    var h := hdr[l[g].addr := Header(next, l[g].size)];
    assert d[g] == l[g] && d[Next(d, g)] == l[Next(l, g + 1)];
    CircleResize(h, d, g, n);
    assert h[l[g].addr := Header(next, n)] == hdr[l[g].addr := Header(next, n)];
  }

  // ----- malloc

  /** The headers after `malloc` takes `n` units from `p`, whose predecessor is `prev`. */
  function Unlinked(hdr: map<nat, Header>, prev: nat, p: nat, n: nat): map<nat, Header> {
    var h := At(hdr, p);
    if h.size == n then hdr[prev := Header(h.ptr, At(hdr, prev).size)]
    else if n < h.size then
      var q := p + h.size - n;
      hdr[p := Header(h.ptr, h.size - n)][q := Header(At(hdr, q).ptr, n)]
    else hdr
  }

  /** `malloc` keeps one circle, and the block it returns has the requested size in its header. */
  lemma TakeCircle(hdr: map<nat, Header>, l: seq<Blk>, k: nat, n: nat)
    requires Ordered(l) && Circle(hdr, l) && 0 < k < |l| && 0 < n <= l[k].size
    ensures var h := Unlinked(hdr, l[k - 1].addr, l[k].addr, n);
            && Circle(h, Take(l, k, n))
            && Taken(l[k], n).addr in h && h[Taken(l[k], n).addr].size == n
  {
    CircleAt(hdr, l, k);
    CircleAt(hdr, l, k - 1);
    if l[k].size == n {
      CircleDrop(hdr, l, k);
    } else {
      CircleResize(hdr, l, k, l[k].size - n);
      var m := l[k := Blk(l[k].addr, l[k].size - n)];
      var q := l[k].addr + l[k].size - n;
      forall i | 0 <= i < |m| ensures m[i].addr != q {
        if i < k {
          assert Limit(l[i]) < l[k].addr;
        } else if i > k {
          assert Limit(l[k]) < l[i].addr;
        }
      }
      CircleFrame(hdr[l[k].addr := Header(l[Next(l, k)].addr, l[k].size - n)], m, q, Header(At(hdr, q).ptr, n));
    }
  }
}
