/** How many frames the operations of `xv6/vm.c` take from the free list, tables included. */
module VmCount {
  import opened Common
  import opened PageTables
  import opened FrameList
  import opened VmSpec
  import opened VmSpace

  /** The directory entries of `pd` that have a table. */
  function Dirs(m: Mem, pd: nat): set<nat> {
    var p := PageAt(m, pd);
    set i: nat | i < |p| && Present(p[i])
  }

  /** The directory entries of the `n` pages from page `a`. */
  function Reach(a: nat, n: nat): set<nat> {
    if n == 0 then {} else Reach(a, n - 1) + {(a + n - 1) / ENTRIES}
  }

  /** The tables that the `n` pages from page `a` lack in directory `pd`. */
  function Lacking(m: Mem, pd: nat, a: nat, n: nat): nat {
    |Reach(a, n) - Dirs(m, pd)|
  }

  lemma {:induction false} ReachGrows(a: nat, k: nat, n: nat)
    requires k <= n
    ensures Reach(a, k) <= Reach(a, n)
    ensures k < n ==> (a + k) / ENTRIES in Reach(a, n)
    decreases n
  {
    if k < n {
      ReachGrows(a, k, n - 1);
    }
  }

  /** The numbers from `lo` on, `n` of them. */
  function Span(lo: nat, n: nat): set<nat> {
    if n == 0 then {} else Span(lo, n - 1) + {lo + n - 1}
  }

  lemma {:induction false} SpanMembers(lo: nat, n: nat)
    ensures forall i :: i in Span(lo, n) <==> lo <= i < lo + n
    ensures |Span(lo, n)| == n
  {
    if n > 0 {
      SpanMembers(lo, n - 1);
    }
  }

  /** The entries from the first page's to the last page's. */
  lemma {:induction false} ReachSpan(a: nat, n: nat)
    requires 0 < n
    ensures a / ENTRIES <= (a + n - 1) / ENTRIES
    ensures Reach(a, n) == Span(a / ENTRIES, (a + n - 1) / ENTRIES - a / ENTRIES + 1)
  {
    var lo, hi := a / ENTRIES, (a + n - 1) / ENTRIES;
    if n == 1 {
      assert Reach(a, 0) == {} && Span(lo, 0) == {};
    } else {
      var hi' := (a + n - 2) / ENTRIES;
      ReachSpan(a, n - 1);
      assert hi == hi' || hi == hi' + 1;
      SpanStep(lo, hi' - lo + 1, hi);
    }
  }

  lemma SpanStep(lo: nat, n: nat, e: nat)
    requires lo <= e <= lo + n
    ensures Span(lo, n) + {e} == Span(lo, if e < lo + n then n else n + 1)
  {
    SpanMembers(lo, n);
  }

  lemma {:induction false} ReachAppend(a: nat, n: nat, k: nat)
    ensures Reach(a, n) + Reach(a + n, k) == Reach(a, n + k)
  {
    if k > 0 {
      ReachAppend(a, n, k - 1);
      assert a + n + k - 1 == a + (n + k) - 1;
    }
  }

  /** The tables for `n` pages from page 0. */
  function TablesFor(n: nat): nat {
    (n + ENTRIES - 1) / ENTRIES
  }

  lemma LowReach(n: nat)
    requires n <= USERPAGES
    ensures |Reach(0, n)| == TablesFor(n) && forall i | i in Reach(0, n) :: i < USERDIRS
  {
    if n > 0 {
      ReachSpan(0, n);
      SpanMembers(0, (n - 1) / ENTRIES + 1);
    }
  }

  // ----- what an operation drew from the free list

  /**
   Directory `pd` gained tables for exactly the entries in `s`; of the frames on the free list, as
   many went as there are new tables, and `c` more.  Folded.
   */
  ghost predicate Drew(m: Mem, m': Mem, pd: nat, s: set<nat>, c: nat, n: nat, n': nat) {
    forall k | Peek(k) :: Dirs(m', pd) == Dirs(m, pd) + s && n' + c + |s - Dirs(m, pd)| == n
  }

  lemma Union(x: set<nat>, y: set<nat>)
    ensures |x + y| == |x| + |y - x|
  {
    assert x + y == x + (y - x);
  }

  lemma DrewTables(m: Mem, m': Mem, pd: nat, c: nat, n: nat)
    requires PageAt(m', pd) == PageAt(m, pd)
    ensures Drew(m, m', pd, {}, c, n + c, n)
  {
    assert {} - Dirs(m, pd) == {};
  }

  lemma DrewThen(m: Mem, m1: Mem, m2: Mem, pd: nat, s: set<nat>, c: nat, t: set<nat>, c': nat, n: nat, n1: nat, n2: nat)
    requires Drew(m, m1, pd, s, c, n, n1) && Drew(m1, m2, pd, t, c', n1, n2)
    ensures Drew(m, m2, pd, s + t, c + c', n, n2)
  {
    assert Peek(0);
    var d := Dirs(m, pd);
    Union(d, s);
    Union(d + s, t);
    Union(d, s + t);
    assert d + s + t == d + (s + t);
  }

  /** Frames that leave the free list without becoming tables of `pd`. */
  lemma DrewMore(m: Mem, m1: Mem, m2: Mem, pd: nat, s: set<nat>, c: nat, n: nat, n1: nat, n2: nat, c': nat)
    requires Drew(m, m1, pd, s, c, n, n1) && PageAt(m2, pd) == PageAt(m1, pd) && n1 == n2 + c'
    ensures Drew(m, m2, pd, s, c + c', n, n2)
  {
    assert Peek(0);
  }

  /** walkpgdir taking frame `t` for a new table. */
  lemma WalkDrew(m: Mem, pd: nat, i: nat, t: nat, z: Page, n: nat)
    requires pd < |m| && |m[pd]| == ENTRIES && i < ENTRIES && t != pd && !Present(m[pd][i])
    ensures Drew(m, SetWord(SetPage(m, t, z), pd, i, Entry(t, PTE_W + PTE_U)), pd, {i}, 0, n + 1, n)
  {
    EntryParts(t, PTE_W + PTE_U);
    var m' := SetWord(SetPage(m, t, z), pd, i, Entry(t, PTE_W + PTE_U));
    assert m'[pd] == m[pd][i := Entry(t, PTE_W + PTE_U)];
    assert Dirs(m', pd) == Dirs(m, pd) + {i};
    assert {i} - Dirs(m, pd) == {i};
  }

  /** walkpgdir finding a table. */
  lemma WalkFound(m: Mem, pd: nat, i: nat, n: nat)
    requires pd < |m| && i < |m[pd]| && Present(m[pd][i])
    ensures Drew(m, m, pd, {i}, 0, n, n)
  {
    assert i in Dirs(m, pd);
    assert {i} - Dirs(m, pd) == {};
    assert Dirs(m, pd) + {i} == Dirs(m, pd);
  }

  /** With `k` of `n` pages done, the free list is empty and the next page has no table: too few frames. */
  lemma DrewDry(m: Mem, m': Mem, pd: nat, a: nat, k: nat, n: nat, f: nat)
    requires Drew(m, m', pd, Reach(a, k), 0, f, 0) && k < n && (a + k) / ENTRIES !in Dirs(m', pd)
    ensures !Affords(m, pd, a, n, 0, f)
  {
    assert Peek(0);
    ReachGrows(a, k, n);
    var d := Dirs(m, pd);
    Smaller(Reach(a, k) - d, Reach(a, n) - d, (a + k) / ENTRIES);
  }

  lemma Smaller(x: set<nat>, y: set<nat>, e: nat)
    requires x <= y && e in y && e !in x
    ensures |x| < |y|
  {
    assert y == x + (y - x);
    assert e in y - x;
  }

  lemma DrewEnough(m: Mem, m': Mem, pd: nat, a: nat, n: nat, c: nat, f: nat, f': nat)
    requires Drew(m, m', pd, Reach(a, n), c, f, f')
    ensures Affords(m, pd, a, n, c, f)
  {
    assert Peek(0);
  }

  /** A shorter stretch lacks no more tables. */
  lemma LackingGrows(m: Mem, pd: nat, a: nat, k: nat, n: nat)
    requires k <= n
    ensures Lacking(m, pd, a, k) <= Lacking(m, pd, a, n)
  {
    ReachGrows(a, k, n);
    SubsetSize(Reach(a, k) - Dirs(m, pd), Reach(a, n) - Dirs(m, pd));
  }

  /** What the next page needs after `k` pages and `c` more frames. */
  lemma DrewShort(m: Mem, m': Mem, pd: nat, a: nat, k: nat, n: nat, c: nat, f: nat, f': nat)
    requires Drew(m, m', pd, Reach(a, k), c, f, f') && k < n && f' < 1 + Lacking(m', pd, a + k, 1)
    ensures f < c + 1 + Lacking(m, pd, a, n)
  {
    assert Peek(0);
    LackingGrows(m, pd, a, k + 1, n);
    var d, e := Dirs(m, pd), (a + k) / ENTRIES;
    assert Reach(a + k, 1) == Reach(a + k, 0) + {e} == {e};
    Union(d, Reach(a, k));
    Union(d + Reach(a, k), {e});
    Union(d, Reach(a, k + 1));
    assert d + Reach(a, k) + {e} == d + Reach(a, k + 1);
  }

  /** kalloc, a store into the new frame, then mappages of one page. */
  lemma PageDrew(m0: Mem, m1: Mem, m2: Mem, m3: Mem, pd: nat, lo: nat, k: nat, v: nat, n0: nat, n1: nat, n2: nat,
                 n3: nat)
    requires Drew(m0, m1, pd, Reach(lo, k), k, n0, n1) && v == lo + k && n1 == n2 + 1
    requires PageAt(m2, pd) == PageAt(m1, pd) && Drew(m2, m3, pd, Reach(v, 1), 0, n2, n3)
    ensures Drew(m0, m3, pd, Reach(lo, k + 1), k + 1, n0, n3)
  {
    DrewMore(m0, m1, m2, pd, Reach(lo, k), k, n0, n1, n2, 1);
    DrewThen(m0, m2, m3, pd, Reach(lo, k), k + 1, Reach(v, 1), 0, n0, n2, n3);
    OneReached(v);
    ReachNext(lo, k, v);
  }

  /** `f` frames are enough for the tables of a stretch of pages and `c` more, folded. */
  ghost predicate Affords(m: Mem, pd: nat, a: nat, n: nat, c: nat, f: nat) {
    forall k | Peek(k) :: Lacking(m, pd, a, n) + c <= f
  }

  lemma AffordsMeans(m: Mem, pd: nat, a: nat, n: nat, c: nat, f: nat)
    ensures Affords(m, pd, a, n, c, f) <==> Lacking(m, pd, a, n) + c <= f
  {
    assert Peek(0);
  }

  /** One frame less, and as many less to find. */
  lemma AffordsAfter(m: Mem, m': Mem, pd: nat, a: nat, n: nat, f: nat)
    requires PageAt(m', pd) == PageAt(m, pd)
    ensures Affords(m', pd, a, n, 0, f) <==> Affords(m, pd, a, n, 1, f + 1)
  {
    assert Peek(0);
  }

  lemma NothingAffords(m: Mem, pd: nat, a: nat, n: nat)
    ensures !Affords(m, pd, a, n, 1, 0)
  {
    assert Peek(0);
  }

  lemma ReachNext(a: nat, k: nat, v: nat)
    requires v == a + k
    ensures Reach(a, k + 1) == Reach(a, k) + {v / ENTRIES}
  {
  }

  lemma OneReached(v: nat)
    ensures Reach(v, 1) == {v / ENTRIES}
  {
    assert Reach(v, 0) == {};
  }

  lemma OnePage(v: nat)
    ensures v * PGSIZE / PGSIZE == v && PageCount(v * PGSIZE, PGSIZE) == 1
  {
  }

  /** The frame a page needs, and its table, could not be had: the whole stretch needs more than there was. */
  lemma StretchFails(m: Mem, m': Mem, pd: nat, a: nat, k: nat, n: nat, v: nat, f: nat, f': nat)
    requires Drew(m, m', pd, Reach(a, k), k, f, f') && k < n && v == a + k && !Affords(m', pd, v, 1, 1, f')
    ensures !Affords(m, pd, a, n, n, f)
  {
    AffordsMeans(m', pd, v, 1, 1, f');
    DrewShort(m, m', pd, a, k, n, k, f, f');
    AffordsMeans(m, pd, a, n, n, f);
  }

  // ----- the kernel half

  /** The directory entries that the first `n` rows of kmap reach. */
  function KernelDirs(km: seq<Kmap>, n: nat): set<nat> {
    if n == 0 || n > |km| then {}
    else KernelDirs(km, n - 1) + Reach(km[n - 1].virt / PGSIZE, Size(km[n - 1]) / PGSIZE)
  }

  lemma {:induction false} KernelDirsGrow(km: seq<Kmap>, k: nat, n: nat)
    requires k <= n <= |km|
    ensures KernelDirs(km, k) <= KernelDirs(km, n)
    decreases n
  {
    if k < n {
      KernelDirsGrow(km, k, n - 1);
    }
  }

  /** A new directory has no tables. */
  lemma NoDirs(m: Mem, pd: nat)
    requires pd < |m| && Zero(m[pd])
    ensures Dirs(m, pd) == {}
  {
  }

  lemma RowDrew(m: Mem, m1: Mem, m2: Mem, pd: nat, km: seq<Kmap>, k: nat, n: nat, n1: nat, n2: nat)
    requires k < |km| && Drew(m, m1, pd, KernelDirs(km, k), 0, n, n1)
    requires Drew(m1, m2, pd, Reach(km[k].virt / PGSIZE, Size(km[k]) / PGSIZE), 0, n1, n2)
    ensures Drew(m, m2, pd, KernelDirs(km, k + 1), 0, n, n2)
  {
    DrewThen(m, m1, m2, pd, KernelDirs(km, k), 0, Reach(km[k].virt / PGSIZE, Size(km[k]) / PGSIZE), 0, n, n1, n2);
  }

  lemma RowFails(m: Mem, m1: Mem, pd: nat, km: seq<Kmap>, k: nat, a: nat, c: nat, n: nat, n1: nat)
    requires k < |km| && Drew(m, m1, pd, KernelDirs(km, k), 0, n, n1) && Dirs(m, pd) == {}
    requires a == km[k].virt / PGSIZE && c == Size(km[k]) / PGSIZE && !Affords(m1, pd, a, c, 0, n1)
    ensures n < |KernelDirs(km, |km|)|
  {
    FreshFails(m, m1, pd, KernelDirs(km, k), a, c, n, n1);
    KernelDirsNext(km, k, a, c);
    KernelDirsGrow(km, k + 1, |km|);
    SubsetSize(KernelDirs(km, k + 1), KernelDirs(km, |km|));
  }

  lemma KernelDirsNext(km: seq<Kmap>, k: nat, a: nat, c: nat)
    requires k < |km| && a == km[k].virt / PGSIZE && c == Size(km[k]) / PGSIZE
    ensures KernelDirs(km, k + 1) == KernelDirs(km, k) + Reach(a, c)
  {
  }

  lemma FreshFails(m: Mem, m1: Mem, pd: nat, s: set<nat>, a: nat, c: nat, n: nat, n1: nat)
    requires Drew(m, m1, pd, s, 0, n, n1) && Dirs(m, pd) == {} && !Affords(m1, pd, a, c, 0, n1)
    ensures n < |s + Reach(a, c)|
  {
    assert Peek(0);
    Union(s, Reach(a, c));
    assert s - {} == s && {} + s == s;
  }

  lemma AllRowsDrew(m: Mem, m': Mem, pd: nat, km: seq<Kmap>, n: nat, n': nat)
    requires Drew(m, m', pd, KernelDirs(km, |km|), 0, n, n') && Dirs(m, pd) == {}
    ensures Dirs(m', pd) == KernelDirs(km, |km|) && n == n' + |KernelDirs(km, |km|)|
  {
    assert Peek(0);
    var s := KernelDirs(km, |km|);
    assert s - {} == s && {} + s == s;
  }

  /** The user half of a new address space lacks all its tables. */
  lemma LowLacking(m: Mem, d: nat, km: seq<Kmap>, n: nat)
    requires Dirs(m, d) == KernelDirs(km, |km|) && KmapOk(km) && n <= USERPAGES
    ensures Lacking(m, d, 0, n) == TablesFor(n)
  {
    LowReach(n);
    KernelDirsHigh(km, |km|);
    assert Reach(0, n) - Dirs(m, d) == Reach(0, n);
  }

  lemma {:induction false} KernelDirsHigh(km: seq<Kmap>, n: nat)
    requires KmapOk(km) && n <= |km|
    ensures forall i | i in KernelDirs(km, n) :: i >= USERDIRS
  {
    if n > 0 {
      KernelDirsHigh(km, n - 1);
      ReachHigh(km[n - 1].virt / PGSIZE, Size(km[n - 1]) / PGSIZE);
    }
  }

  lemma {:induction false} ReachHigh(a: nat, n: nat)
    requires a >= USERPAGES
    ensures forall i | i in Reach(a, n) :: i >= USERDIRS
  {
    if n > 0 {
      ReachHigh(a, n - 1);
    }
  }

  /** Stretches of whole tables, one after the other. */
  lemma WholeTables(a: nat, n: nat, b: nat, k: nat)
    requires 0 < n && 0 < k && a + n <= b
    ensures |Reach(ENTRIES * a, ENTRIES * n) + Reach(ENTRIES * b, ENTRIES * k)| == n + k
  {
    WholeSpan(a, n);
    WholeSpan(b, k);
    SpanMembers(a, n);
    SpanMembers(b, k);
    Union(Span(a, n), Span(b, k));
    assert Span(b, k) - Span(a, n) == Span(b, k);
  }

  lemma WholeSpan(a: nat, n: nat)
    requires 0 < n
    ensures Reach(ENTRIES * a, ENTRIES * n) == Span(a, n)
  {
    ReachSpan(ENTRIES * a, ENTRIES * n);
    assert (ENTRIES * a + ENTRIES * n - 1) / ENTRIES == a + n - 1;
  }

  /** Row `k` starts at page `a` and has `n` pages. */
  predicate RowPages(km: seq<Kmap>, k: nat, a: nat, n: nat) {
    k < |km| && km[k].virt / PGSIZE == a && Size(km[k]) / PGSIZE == n
  }

  lemma RowReach(km: seq<Kmap>, k: nat, a: nat, n: nat)
    requires RowPages(km, k, a, n)
    ensures KernelDirs(km, k + 1) == KernelDirs(km, k) + Reach(a, n)
  {
  }

  lemma RowIs(km: seq<Kmap>, k: nat, a: nat, n: nat)
    requires k < |km| && km[k].virt == a * PGSIZE && Size(km[k]) == n * PGSIZE
    ensures RowPages(km, k, a, n)
  {
  }

  /** Rows that follow one another reach what one long row would. */
  lemma FourRows(km: seq<Kmap>, a: nat, n0: nat, a1: nat, n1: nat, a2: nat, n2: nat, b: nat, n3: nat)
    requires |km| == 4 && RowPages(km, 0, a, n0) && RowPages(km, 1, a1, n1) && RowPages(km, 2, a2, n2)
    requires RowPages(km, 3, b, n3) && a1 == a + n0 && a2 == a1 + n1
    ensures KernelDirs(km, 4) == Reach(a, n0 + n1 + n2) + Reach(b, n3)
  {
    RowReach(km, 0, a, n0);
    RowReach(km, 1, a1, n1);
    RowReach(km, 2, a2, n2);
    RowReach(km, 3, b, n3);
    ReachAppend(a, n0, n1);
    ReachAppend(a, n0 + n1, n2);
    FourSets(KernelDirs(km, 1), KernelDirs(km, 2), KernelDirs(km, 3), KernelDirs(km, 4), Reach(a, n0), Reach(a1, n1),
             Reach(a2, n2), Reach(b, n3), Reach(a, n0 + n1), Reach(a, n0 + n1 + n2));
  }

  lemma FourSets(d1: set<nat>, d2: set<nat>, d3: set<nat>, d4: set<nat>, w: set<nat>, x: set<nat>, y: set<nat>,
                 z: set<nat>, wx: set<nat>, wxy: set<nat>)
    requires d1 == {} + w && d2 == d1 + x && d3 == d2 + y && d4 == d3 + z && w + x == wx && wx + y == wxy
    ensures d4 == wxy + z
  {
  }

  /** xv6's own table needs 64 page tables: 56 for physical memory and 8 for devices. */
  lemma KernelTables(data: nat)
    requires DataOk(data)
    ensures |KernelDirs(KernelMap(data), 4)| == 64
  {
    var km, d := KernelMap(data), data / PGSIZE;
    assert Size(km[1]) == data - KERNLINK && Size(km[2]) == KERNBASE + PHYSTOP - data && Size(km[3]) == 0x2000000;
    var a: nat, n: nat, b: nat, k: nat :| a == 512 && n == 56 && b == 1016 && k == 8;
    RowIs(km, 0, ENTRIES * a, 256);
    RowIs(km, 1, ENTRIES * a + 256, d - ENTRIES * a - 256);
    RowIs(km, 2, d, ENTRIES * (a + n) - d);
    RowIs(km, 3, ENTRIES * b, ENTRIES * k);
    FourRows(km, ENTRIES * a, 256, ENTRIES * a + 256, d - ENTRIES * a - 256, d, ENTRIES * (a + n) - d, ENTRIES * b,
             ENTRIES * k);
    WholeTables(a, n, b, k);
  }
}
