/**
 The allocator of `xv6/umalloc.c`: block headers in memory, `freep`, and the search loops of
 `free` and `malloc`.  Addresses count units of `sizeof(Header)`; a pointer handed to the user
 is one unit past the header.  `sbrk` is a parameter: the memory it would return, or None.
 */
module Umalloc {
  import opened Common
  import opened FreeList
  import opened FreeListLinks
  import opened FreeListHeap

  const HEADER := 8       // sizeof(Header)
  const MINCORE := 4096   // the least morecore asks for

  /** `nunits`: the sum is a 32-bit unsigned integer and may wrap. */
  function Units(nbytes: nat): (n: nat)
    ensures 1 <= n <= WORD32 / HEADER
  {
    (nbytes + HEADER - 1) % WORD32 / HEADER + 1
  }

  /** The units hold the request and its header exactly if the sum does not wrap, and then none is wasted. */
  lemma UnitsCover(nbytes: nat)
    requires nbytes < WORD32
    ensures nbytes + HEADER <= Units(nbytes) * HEADER <==> nbytes <= WORD32 - HEADER
    ensures nbytes <= WORD32 - HEADER ==> Units(nbytes) * HEADER < nbytes + 2 * HEADER
  {
    if nbytes > WORD32 - HEADER {
      assert (nbytes + HEADER - 1) % WORD32 == nbytes + HEADER - 1 - WORD32;
    }
  }

  /** `malloc(0xFFFFFFFF)` asks for a header and no byte behind it. */
  lemma HugeRequestIsEmpty()
    ensures Units(WORD32 - 1) * HEADER == HEADER
  {
    UnitsCover(WORD32 - 1);
  }

  function CoreUnits(n: nat): (m: nat)
    ensures n <= m && 4096 <= m && (m == n || m == 4096)
  {
    if n < MINCORE then MINCORE else n
  }

  /** A 32-bit word as a signed integer. */
  function Signed(w: int): int {
    if w < WORD32 / 2 then w else w - WORD32
  }

  /** The argument of `sbrk` in `morecore`: `nu * sizeof(Header)` in 32 bits, passed as an `int`. */
  function SbrkArgument(nu: nat): int {
    Signed(CoreUnits(nu) * HEADER % WORD32)
  }

  /** `sbrk` is asked for the memory that `morecore` goes on to use exactly if its argument is positive. */
  lemma SbrkArgumentIs(nu: nat)
    requires nu <= WORD32 / HEADER
    ensures SbrkArgument(nu) > 0 <==> SbrkArgument(nu) == CoreUnits(nu) * HEADER
    ensures SbrkArgument(nu) > 0 <==> nu < WORD32 / 2 / HEADER
  {
  }

  /** And that depends on the request: it is at most 2^31 - 16, or so big that its units wrap. */
  lemma SbrkIsAsked(nbytes: nat)
    requires nbytes < WORD32
    ensures SbrkArgument(Units(nbytes)) > 0 <==> nbytes <= WORD32 / 2 - 2 * HEADER || nbytes > WORD32 - HEADER
  {
    SbrkArgumentIs(Units(nbytes));
    UnitsCover(nbytes);
    if nbytes > WORD32 - HEADER {
      assert (nbytes + HEADER - 1) % WORD32 == nbytes + HEADER - 1 - WORD32;
    }
  }

  /** `malloc(0xFFFFFFF8)` calls `sbrk(0)` and takes what it did not get. */
  lemma BigRequestAsksForNothing()
    ensures SbrkArgument(Units(WORD32 - HEADER)) == 0
  {
  }

  /**
   What `malloc` comes to: no memory, a pointer, or a free list with memory that `sbrk` did not give,
   after which nothing is promised.
   */
  datatype Answer = NoMemory | Given(ptr: nat) | Broken

  /** `Heap`, kept folded. */
  ghost predicate Balanced(hdr: map<nat, Header>, l: seq<Blk>, live: map<nat, nat>, core: iset<nat>, base: nat) {
    forall k | Look(k) :: Heap(hdr, l, live, core, base)
  }

  ghost predicate InList(l: seq<Blk>, a: nat) {
    exists f: nat :: f < |l| && l[f].addr == a
  }

  ghost predicate NoFit(l: seq<Blk>, n: nat) {
    forall i | 0 <= i < |l| :: l[i].size < n
  }

  /** What `Valid` says of every unit from `sbrk`: it is in one block, free or live, and in no other. */
  lemma UnitOwnedOnce(hdr: map<nat, Header>, l: seq<Blk>, live: map<nat, nat>, core: iset<nat>, base: nat, x: nat)
    requires Balanced(hdr, l, live, core, base)
    ensures x in core <==> Covers(l, x) || LiveCovers(live, x)
    ensures !(Covers(l, x) && LiveCovers(live, x))
    ensures forall i, j | 0 <= i < |l| && 0 <= j < |l| && In(l[i], x) && In(l[j], x) :: i == j
    ensures forall a, b | a in live && b in live && In(Blk(a, live[a]), x) && In(Blk(b, live[b]), x) :: a == b
  {
    assert Look(0);
    forall a | a in live && In(Blk(a, live[a]), x) ensures !Covers(l, x) {
      assert LiveOne(hdr, l, a, live[a]);
    }
    forall a, b | a in live && b in live && In(Blk(a, live[a]), x) && In(Blk(b, live[b]), x) ensures a == b {
      var n, m := live[a], live[b];
      assert Disjoint(a, n, b, m) || a == b;
    }
  }

  /** Free blocks are in address order, and neighbours never touch. */
  lemma FreeBlocksNeverTouch(hdr: map<nat, Header>, l: seq<Blk>, live: map<nat, nat>, core: iset<nat>, base: nat,
                             i: nat, j: nat)
    requires Balanced(hdr, l, live, core, base) && i < j < |l|
    ensures Limit(l[i]) < l[j].addr && l[0] == Blk(base, 0)
  {
    assert Look(0);
  }

  // ----- what the headers say

  lemma HeaderAt(hdr: map<nat, Header>, l: seq<Blk>, live: map<nat, nat>, core: iset<nat>, base: nat, i: nat)
    requires Balanced(hdr, l, live, core, base) && i < |l|
    ensures Next(l, i) < |l|
    ensures l[i].addr in hdr && hdr[l[i].addr] == Header(l[Next(l, i)].addr, l[i].size)
  {
    assert Look(0);
    CircleAt(hdr, l, i);
  }

  lemma LiveHeader(hdr: map<nat, Header>, l: seq<Blk>, live: map<nat, nat>, core: iset<nat>, base: nat, b: nat)
    requires Balanced(hdr, l, live, core, base) && b in live
    ensures b in hdr && hdr[b].size == live[b]
  {
    assert Look(0);
    assert LiveOne(hdr, l, b, live[b]);
  }

  /** The exit test of the loop in `free`. */
  predicate Between(p: nat, next: nat, b: nat) {
    (b > p && b < next) || (p >= next && (b > p || b < next))
  }

  lemma {:induction false} GapExists(l: seq<Blk>, a: nat, n: nat) returns (g: nat)
    requires 0 < n <= |l| && l[0].addr < a && (forall i | 0 <= i < |l| :: l[i].addr != a)
    requires n == |l| || a < l[n].addr
    ensures Gap(l, g, a)
  {
    if l[n - 1].addr < a {
      g := n - 1;
    } else {
      g := GapExists(l, a, n - 1);
    }
  }

  lemma LiveGap(hdr: map<nat, Header>, l: seq<Blk>, live: map<nat, nat>, core: iset<nat>, base: nat, b: nat)
    returns (g: nat)
    requires Balanced(hdr, l, live, core, base) && b in live
    ensures Gap(l, g, b)
  {
    assert Look(0);
    assert LiveOne(hdr, l, b, live[b]);
    forall i | 0 <= i < |l| ensures l[i].addr != b {
      NotInList(l, Blk(b, live[b]), i);
    }
    g := GapExists(l, b, |l|);
  }

  /** The test holds exactly at the block's place. */
  lemma BetweenIsGap(hdr: map<nat, Header>, l: seq<Blk>, live: map<nat, nat>, core: iset<nat>, base: nat, b: nat,
                     k: nat)
    requires Balanced(hdr, l, live, core, base) && b in live && k < |l|
    ensures Between(l[k].addr, l[Next(l, k)].addr, b) <==> Gap(l, k, b)
  {
    assert Look(0);
    assert LiveOne(hdr, l, b, live[b]);
    if k + 1 < |l| {
      assert Limit(l[k]) < l[k + 1].addr;
    } else {
      assert k > 0 ==> Limit(l[0]) < l[k].addr;
    }
  }

  // ----- going around the circle

  /** How many steps lead from block `k` around the circle to block `g`. */
  function Distance(n: nat, k: nat, g: nat): int {
    if k <= g then g - k else n - k + g
  }

  /** The block `c` steps after block `f`. */
  function Pos(n: nat, f: nat, c: nat): nat {
    if f + c < n then f + c else f + c - n
  }

  /** The blocks one to `c` steps after block `f` are too small. */
  ghost predicate TooSmall(l: seq<Blk>, f: nat, c: nat, n: nat) {
    forall d: nat | 0 < d <= c && Pos(|l|, f, d) < |l| :: l[Pos(|l|, f, d)].size < n
  }

  lemma AllTooSmall(l: seq<Blk>, f: nat, n: nat)
    requires f < |l| && TooSmall(l, f, |l|, n)
    ensures NoFit(l, n)
  {
    forall i | 0 <= i < |l| ensures l[i].size < n {
      var d := if i > f then i - f else i + |l| - f;
      assert Pos(|l|, f, d) == i;
    }
  }

  /**
   Next fit: `a` is `n` units below the end of the first block that is big enough, going around from
   the block after `freep`.
   */
  ghost predicate NextFit(l: seq<Blk>, freep: nat, n: nat, a: nat) {
    exists f: nat, c: nat | f < |l| && c < |l| && l[f].addr == freep && TooSmall(l, f, c, n) ::
      var j := Pos(|l|, f, c + 1); j < |l| && n <= l[j].size && a == l[j].addr + l[j].size - n
  }

  /** One more block looked at. */
  lemma OneSmaller(l: seq<Blk>, f: nat, c: nat, n: nat)
    requires f < |l| && c < |l| && TooSmall(l, f, c, n)
    requires l[Next(l, Pos(|l|, f, c))].size < n
    ensures TooSmall(l, f, c + 1, n)
  {
    assert Next(l, Pos(|l|, f, c)) == Pos(|l|, f, c + 1);
  }

  class Allocator {
    const base: nat
    var hdr: map<nat, Header>
    var freep: nat
    ghost var blocks: seq<Blk>
    ghost var live: map<nat, nat>
    ghost var core: iset<nat>

    ghost predicate Valid()
      reads this
    {
      && 0 < base
      && (freep == 0 ==> blocks == [Blk(base, 0)] && live == map[] && core == iset{})
      && (freep != 0 ==> Balanced(hdr, blocks, live, core, base) && InList(blocks, freep))
    }

    constructor (base: nat)
      requires 0 < base
      ensures Valid() && this.base == base && freep == 0
    {
      this.base := base;
      hdr, freep, blocks, live, core := map[], 0, [Blk(base, 0)], map[], iset{};
    }

    /** The loop of `free`: the block after which `b` belongs. */
    method FindGap(b: nat) returns (p: nat, ghost g: nat)
      requires Valid() && freep != 0 && b in live
      ensures Gap(blocks, g, b) && p == blocks[g].addr
    {
      ghost var k: nat :| k < |blocks| && blocks[k].addr == freep;
      g := LiveGap(hdr, blocks, live, core, base, b);
      p := freep;
      HeaderAt(hdr, blocks, live, core, base, k);
      while !(b > p && b < hdr[p].ptr)
        invariant k < |blocks| && p == blocks[k].addr && p in hdr
        invariant hdr[p].ptr == blocks[Next(blocks, k)].addr
        decreases Distance(|blocks|, k, g)
      {
        BetweenIsGap(hdr, blocks, live, core, base, b, k);
        if p >= hdr[p].ptr && (b > p || b < hdr[p].ptr) {
          break;
        }
        HeaderAt(hdr, blocks, live, core, base, Next(blocks, k));
        p, k := hdr[p].ptr, Next(blocks, k);
      }
      BetweenIsGap(hdr, blocks, live, core, base, b, k);
      g := k;
    }

    /** The two `if`s of `free`. */
    method Relink(p: nat, b: nat)
      requires p in hdr && b in hdr && hdr[p].ptr in hdr
      modifies this`hdr
      ensures hdr == Relinked(old(hdr), p, b)
    {
      if b + hdr[b].size == hdr[p].ptr {
        hdr := hdr[b := Header(hdr[hdr[p].ptr].ptr, hdr[b].size + hdr[hdr[p].ptr].size)];
      } else {
        hdr := hdr[b := Header(hdr[p].ptr, hdr[b].size)];
      }
      if p + hdr[p].size == b {
        hdr := hdr[p := Header(hdr[b].ptr, hdr[p].size + hdr[b].size)];
      } else {
        hdr := hdr[p := Header(b, hdr[p].size)];
      }
    }

    /** `free` of the block whose header is at `b`. */
    method Free(b: nat)
      requires Valid() && b in live
      modifies this`hdr, this`freep, this`blocks, this`live
      ensures Valid() && freep != 0
      ensures live == old(live) - {b}
      ensures exists g: nat :: Gap(old(blocks), g, b) && freep == old(blocks)[g].addr
                && blocks == Insert(old(blocks), g, Blk(b, old(live)[b]))
    {
      ghost var l, n := blocks, live[b];
      LiveHeader(hdr, l, live, core, base, b);
      var p, g := FindGap(b);
      HeaderAt(hdr, l, live, core, base, g);
      HeaderAt(hdr, l, live, core, base, Next(l, g));
      FreeBalanced(hdr, l, live, core, base, g, b);
      Relink(p, b);
      freep := p;
      blocks, live := Insert(l, g, Blk(b, n)), live - {b};
      assert blocks[g].addr == freep;
    }

    /** The `freep == 0` branch of `malloc`. */
    method Start()
      requires Valid() && freep == 0
      modifies this`hdr, this`freep
      ensures Valid() && freep != 0
    {
      hdr := hdr[base := Header(base, 0)];
      freep := base;
      FirstList(hdr, base);
      assert blocks[0].addr == base;
    }

    /**
     `morecore`: make the memory from `sbrk` a block and free it.  It fails exactly if `sbrk` does, and
     breaks the heap exactly if `sbrk` succeeds on an argument that is not positive.
     */
    method Morecore(nu: nat, brk: Option<nat>) returns (r: Answer)
      requires Valid() && freep != 0
      requires brk.Some? && SbrkArgument(nu) > 0 ==> Unknown(core, base, brk.value, CoreUnits(nu))
      modifies this
      ensures r.NoMemory? <==> brk.None?
      ensures r.Broken? <==> brk.Some? && SbrkArgument(nu) <= 0
      ensures !r.Broken? ==> Valid() && freep != 0 && live == old(live)
      ensures r.NoMemory? ==> blocks == old(blocks) && core == old(core) && hdr == old(hdr) && freep == old(freep)
      ensures r.Given? ==> core == old(core) + Span(brk.value, CoreUnits(nu)) && !NoFit(blocks, nu)
    {
      var n := CoreUnits(nu);
      match brk {
        case None =>
          r := NoMemory;
        case Some(p) =>
          if SbrkArgument(nu) <= 0 {
            return Broken;
          }
          var h := Header((if p in hdr then hdr[p].ptr else 0), n);
          ghost var l := blocks;
          GrowBalanced(hdr, l, live, core, base, p, h);
          hdr := hdr[p := h];
          live, core := live[p := n], core + Span(p, n);
          Free(p);
          assert live == old(live);
          InsertFits(l, p, n);
          r := Given(freep);
      }
    }

    /** The exact-fit and tail-end branches of `malloc`. */
    method Unlink(prev: nat, p: nat, n: nat) returns (r: nat)
      requires prev in hdr && p in hdr && n <= hdr[p].size && 0 < p
      modifies this`hdr, this`freep
      ensures hdr == Unlinked(old(hdr), prev, p, n) && freep == prev
      ensures r == p + old(hdr)[p].size - n
    {
      r := p;
      if hdr[p].size == n {
        hdr := hdr[prev := Header(hdr[p].ptr, hdr[prev].size)];
      } else {
        hdr := hdr[p := Header(hdr[p].ptr, hdr[p].size - n)];
        r := p + hdr[p].size;
        hdr := hdr[r := Header((if r in hdr then hdr[r].ptr else 0), n)];
      }
      freep := prev;
    }

    /** `malloc`'s return from block `k`, which fits. */
    method Allot(prev: nat, p: nat, n: nat, ghost k: nat) returns (r: nat)
      requires Valid() && freep != 0 && k + 1 < |blocks| && 0 < n <= blocks[k + 1].size
      requires prev == blocks[k].addr && p == blocks[k + 1].addr
      modifies this`hdr, this`freep, this`blocks, this`live
      ensures Valid() && freep != 0
      ensures r !in old(live) && live == old(live)[r := n] && freep == prev
      ensures r == old(blocks)[k + 1].addr + old(blocks)[k + 1].size - n
      ensures blocks == Take(old(blocks), k + 1, n)
    {
      ghost var l := blocks;
      HeaderAt(hdr, l, live, core, base, k);
      HeaderAt(hdr, l, live, core, base, k + 1);
      FreeBlocksNeverTouch(hdr, l, live, core, base, k, k + 1);
      r := Unlink(prev, p, n);
      TakeBalanced(old(hdr), l, live, core, base, k + 1, n, hdr, Take(l, k + 1, n), r, live[r := n]);
      blocks, live := Take(l, k + 1, n), live[r := n];
    }

    /**
     `malloc`: the address past the header of a new live block.  It asks `sbrk` for memory only if no
     free block fits, and then fails if `sbrk` fails and breaks the heap if `sbrk` was asked for nothing.
     */
    method Malloc(nbytes: nat, brk: Option<nat>) returns (r: Answer)
      requires Valid() && nbytes < WORD32
      requires brk.Some? && SbrkArgument(Units(nbytes)) > 0 ==>
                 Unknown(core, base, brk.value, CoreUnits(Units(nbytes)))
      modifies this
      ensures r.NoMemory? <==> brk.None? && NoFit(old(blocks), Units(nbytes))
      ensures r.Broken? <==> brk.Some? && NoFit(old(blocks), Units(nbytes)) && SbrkArgument(Units(nbytes)) <= 0
      ensures !r.Broken? ==> Valid()
      ensures r.NoMemory? ==> live == old(live) && blocks == old(blocks)
      ensures r.Given? ==> 0 < r.ptr && r.ptr - 1 !in old(live) && live == old(live)[r.ptr - 1 := Units(nbytes)]
      ensures r.Given? && !NoFit(old(blocks), Units(nbytes)) ==>
                NextFit(old(blocks), old(freep), Units(nbytes), r.ptr - 1)
      ensures r.Given? ==> (nbytes + HEADER <= live[r.ptr - 1] * HEADER <==> nbytes <= WORD32 - HEADER)
      ensures !r.Broken? ==>
                core == if brk.Some? && NoFit(old(blocks), Units(nbytes))
                        then old(core) + Span(brk.value, CoreUnits(Units(nbytes))) else old(core)
    {
      UnitsCover(nbytes);
      if freep == 0 {
        Start();
      }
      r := Search(Units(nbytes), brk);
    }

    /** `morecore`, after which the search starts over. */
    method Refill(n: nat, brk: Option<nat>) returns (r: Answer)
      requires Valid() && freep != 0
      requires brk.Some? && SbrkArgument(n) > 0 ==> Unknown(core, base, brk.value, CoreUnits(n))
      modifies this
      ensures r.NoMemory? <==> brk.None?
      ensures r.Broken? <==> brk.Some? && SbrkArgument(n) <= 0
      ensures !r.Broken? ==> Valid() && freep != 0 && live == old(live)
      ensures r.NoMemory? ==> blocks == old(blocks) && core == old(core)
      ensures r.Given? ==> core == old(core) + Span(brk.value, CoreUnits(n)) && !NoFit(blocks, n)
      ensures r.Given? ==> freep in hdr && 0 < |blocks| && Looking(blocks, freep, freep, hdr[freep].ptr, n, 0)
    {
      r := Morecore(n, brk);
      if r.Given? {
        StartLooking(hdr, blocks, live, core, base, freep, n);
      }
    }

    /** The loop of `malloc`. */
    method Search(n: nat, brk: Option<nat>) returns (r: Answer)
      requires Valid() && freep != 0 && 0 < n
      requires brk.Some? && SbrkArgument(n) > 0 ==> Unknown(core, base, brk.value, CoreUnits(n))
      modifies this
      ensures r.NoMemory? <==> brk.None? && NoFit(old(blocks), n)
      ensures r.Broken? <==> brk.Some? && NoFit(old(blocks), n) && SbrkArgument(n) <= 0
      ensures !r.Broken? ==> Valid()
      ensures r.NoMemory? ==> live == old(live) && blocks == old(blocks)
      ensures r.Given? ==> 0 < r.ptr && r.ptr - 1 !in old(live) && live == old(live)[r.ptr - 1 := n]
      ensures r.Given? && !NoFit(old(blocks), n) ==> NextFit(old(blocks), old(freep), n, r.ptr - 1)
      ensures !r.Broken? ==>
                core == if brk.Some? && NoFit(old(blocks), n)
                        then old(core) + Span(brk.value, CoreUnits(n)) else old(core)
    {
      var prev := freep;
      ghost var called := false;
      ghost var c := 0;
      StartLooking(hdr, blocks, live, core, base, freep, n);
      var p := hdr[prev].ptr;
      while true
        invariant Valid() && freep != 0 && live == old(live) && c < |blocks|
        invariant Looking(blocks, freep, prev, p, n, c)
        invariant !called ==> blocks == old(blocks) && core == old(core) && freep == old(freep)
        invariant called ==> brk.Some? && NoFit(old(blocks), n) && !NoFit(blocks, n) && SbrkArgument(n) > 0
        invariant called ==> core == old(core) + Span(brk.value, CoreUnits(n))
        decreases !called, |blocks| - c
      {
        ghost var k := LookHere(hdr, blocks, live, core, base, freep, prev, p, n, c);
        if hdr[p].size >= n {
          var b := Allot(prev, p, n, k);
          return Given(b + 1);
        }
        if p == freep {
          r := Refill(n, brk);
          if !r.Given? {
            return;
          }
          p := freep;
          called := true;
          c := 0;
        } else {
          c := c + 1;
        }
        prev := p;
        p := hdr[p].ptr;
      }
    }
  }

  lemma FreeBalanced(hdr: map<nat, Header>, l: seq<Blk>, live: map<nat, nat>, core: iset<nat>, base: nat, g: nat,
                     b: nat)
    requires Balanced(hdr, l, live, core, base) && b in live && Gap(l, g, b)
    ensures Balanced(Relinked(hdr, l[g].addr, b), Insert(l, g, Blk(b, live[b])), live - {b}, core, base)
    ensures Insert(l, g, Blk(b, live[b]))[g].addr == l[g].addr && 0 < l[g].addr
  {
    assert Look(0);
    FreeHeap(hdr, l, live, core, base, g, b);
    assert g > 0 ==> Limit(l[0]) < l[g].addr;
  }

  lemma TakeBalanced(hdr: map<nat, Header>, l: seq<Blk>, live: map<nat, nat>, core: iset<nat>, base: nat, k: nat,
                     n: nat, hdr': map<nat, Header>, l': seq<Blk>, r: nat, live': map<nat, nat>)
    requires Balanced(hdr, l, live, core, base) && 0 < k < |l| && 0 < n <= l[k].size
    requires hdr' == Unlinked(hdr, l[k - 1].addr, l[k].addr, n) && l' == Take(l, k, n)
    requires r == l[k].addr + l[k].size - n && live' == live[r := n]
    ensures r !in live && Balanced(hdr', l', live', core, base)
    ensures InList(l', l[k - 1].addr) && 0 < l[k - 1].addr < l[k].addr
  {
    assert Look(0);
    TakeHeap(hdr, l, live, core, base, k, n);
    assert l'[k - 1].addr == l[k - 1].addr;
    assert k - 1 > 0 ==> Limit(l[0]) < l[k - 1].addr;
    assert Limit(l[k - 1]) < l[k].addr;
  }

  lemma BackAtStart(hdr: map<nat, Header>, l: seq<Blk>, live: map<nat, nat>, core: iset<nat>, base: nat, f: nat, c: nat)
    requires Balanced(hdr, l, live, core, base) && f < |l| && c < |l|
    ensures Next(l, Pos(|l|, f, c)) == Pos(|l|, f, c + 1) < |l|
    ensures l[Next(l, Pos(|l|, f, c))].addr == l[f].addr <==> c + 1 == |l|
  {
    assert Look(0);
    if l[Pos(|l|, f, c + 1)].addr == l[f].addr {
      AddrsDiffer(l, Pos(|l|, f, c + 1), f);
    }
  }

  ghost predicate LookingFrom(l: seq<Blk>, freep: nat, prev: nat, p: nat, n: nat, c: nat, f: nat) {
    && f < |l| && l[f].addr == freep && c < |l|
    && prev == l[Pos(|l|, f, c)].addr && p == l[Next(l, Pos(|l|, f, c))].addr
    && TooSmall(l, f, c, n)
  }

  /** `malloc` has looked at `c` blocks after `freep`, and looks at `p` next.  Kept folded. */
  ghost predicate Looking(l: seq<Blk>, freep: nat, prev: nat, p: nat, n: nat, c: nat) {
    forall k | Look(k) :: exists f: nat :: LookingFrom(l, freep, prev, p, n, c, f)
  }

  lemma StartLooking(hdr: map<nat, Header>, l: seq<Blk>, live: map<nat, nat>, core: iset<nat>, base: nat, freep: nat,
                     n: nat)
    requires Balanced(hdr, l, live, core, base) && InList(l, freep)
    ensures freep in hdr && 0 < |l| && Looking(l, freep, freep, hdr[freep].ptr, n, 0)
  {
    var f: nat :| f < |l| && l[f].addr == freep;
    HeaderAt(hdr, l, live, core, base, f);
    assert LookingFrom(l, freep, freep, hdr[freep].ptr, n, 0, f);
  }

  /** The block looked at fits and is not `base`, or the search goes on, or it has seen every block. */
  lemma LookHere(hdr: map<nat, Header>, l: seq<Blk>, live: map<nat, nat>, core: iset<nat>, base: nat,
                 freep: nat, prev: nat, p: nat, n: nat, c: nat)
    returns (k: nat)
    requires Balanced(hdr, l, live, core, base) && Looking(l, freep, prev, p, n, c) && 0 < n
    ensures p in hdr
    ensures hdr[p].size >= n ==>
            && k + 1 < |l| && n <= l[k + 1].size && prev == l[k].addr && p == l[k + 1].addr && !NoFit(l, n)
            && NextFit(l, freep, n, l[k + 1].addr + l[k + 1].size - n)
    ensures hdr[p].size < n && p == freep ==> NoFit(l, n)
    ensures hdr[p].size < n && p != freep ==> c + 1 < |l| && Looking(l, freep, p, hdr[p].ptr, n, c + 1)
  {
    assert Look(0);
    var f: nat :| LookingFrom(l, freep, prev, p, n, c, f);
    k := Pos(|l|, f, c);
    HeaderAt(hdr, l, live, core, base, Next(l, k));
    BackAtStart(hdr, l, live, core, base, f, c);
    if hdr[p].size < n {
      OneSmaller(l, f, c, n);
      if p == freep {
        AllTooSmall(l, f, n);
      } else {
        assert LookingFrom(l, freep, p, hdr[p].ptr, n, c + 1, f);
      }
    }
  }

  lemma FirstList(hdr: map<nat, Header>, base: nat)
    requires 0 < base && base in hdr && hdr[base] == Header(base, 0)
    ensures Balanced(hdr, [Blk(base, 0)], map[], iset{}, base)
  {
    var l := [Blk(base, 0)];
    forall i: nat ensures Link(hdr, l, i) {
    }
    assert Heap(hdr, l, map[], iset{}, base);
  }

  lemma GrowBalanced(hdr: map<nat, Header>, l: seq<Blk>, live: map<nat, nat>, core: iset<nat>, base: nat, a: nat,
                     h: Header)
    requires Balanced(hdr, l, live, core, base) && Unknown(core, base, a, h.size)
    ensures a !in live && live[a := h.size] - {a} == live
    ensures Balanced(hdr[a := h], l, live[a := h.size], core + Span(a, h.size), base)
  {
    assert Look(0);
    GrowHeap(hdr, l, live, core, base, a, h);
  }

  /** Wherever a block of `n` units is inserted, a block of at least `n` units results. */
  lemma InsertFits(l: seq<Blk>, a: nat, n: nat)
    ensures forall g: nat | Gap(l, g, a) :: !NoFit(Insert(l, g, Blk(a, n)), n)
  {
    forall g: nat | Gap(l, g, a) ensures !NoFit(Insert(l, g, Blk(a, n)), n) {
      var b := Blk(a, n);
      var m := MergeUp(l, g, b);
      assert m[g + 1].size >= n;
      if Limit(m[g]) == m[g + 1].addr {
        assert Insert(l, g, b)[g].size >= n;
      } else {
        assert Insert(l, g, b)[g + 1].size >= n;
      }
    }
  }
}
