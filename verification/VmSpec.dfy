/**
 What the operations of `xv6/vm.c` do to the flat map from page numbers to entries, to the contents
 of data frames and to the roles of frames.
 */
module VmSpec {
  import opened Common
  import opened PageTables
  import opened FrameList

  const USERPAGES := USERDIRS * ENTRIES     // pages below KERNBASE
  const KERNBASE := USERPAGES * PGSIZE

  /** The page number of PGROUNDUP(sz). */
  function PageUp(sz: nat): (v: nat)
    ensures (v - 1) * PGSIZE < sz <= v * PGSIZE
  {
    (sz + PGSIZE - 1) / PGSIZE
  }

  /** The pages that `size` bytes from address `va` touch. */
  function PageCount(va: nat, size: nat): nat
    requires 0 < size
  {
    (va + size - 1) / PGSIZE - va / PGSIZE + 1
  }

  function PageNo(i: nat, j: nat): nat {
    ENTRIES * i + j
  }

  /** Memory, roles of frames, free list and end of memory at one moment. */
  datatype Snapshot = Snapshot(m: Mem, r: Roles, head: nat, free: seq<nat>, end: nat)

  ghost predicate SoundAt(x: Snapshot) {
    Sound(x.m, x.r, x.head, x.free, x.end)
  }

  /** A frame whose contents belong to somebody. */
  predicate Data(c: Role) {
    c == Other || c.User?
  }

  /** Nothing but a free frame that became a table of `pd`. */
  predicate NewTableOnly(c: Role, c': Role, pd: nat) {
    c' == c || (c == Free && c'.Table? && c'.pd == pd)
  }

  // ----- walkpgdir

  /** Every page is mapped as before and all data is as before; `pd` may have more tables. */
  ghost predicate Quiet(m: Mem, r: Roles, m': Mem, r': Roles, pd: nat) {
    && (forall q: nat, i: nat, j: nat | RoleOf(r, q) == Dir && i < ENTRIES && j < ENTRIES ::
          View(m', q, i, j) == View(m, q, i, j))
    && (forall f: nat | Data(RoleOf(r, f)) :: PageAt(m', f) == PageAt(m, f))
    && forall f: nat :: NewTableOnly(RoleOf(r, f), RoleOf(r', f), pd)
  }

  /** walkpgdir taking frame `t` for a new table. */
  lemma WalkQuiet(m: Mem, r: Roles, head: nat, free: seq<nat>, end: nat, pd: nat, i: nat, t: nat, z: Page)
    requires Sound(m, r, head, free, end) && RoleOf(r, pd) == Dir && i < ENTRIES && !Present(Word(m, pd, i))
    requires RoleOf(r, t) == Free && Zero(z)
    ensures Quiet(m, r, SetWord(SetPage(m, t, z), pd, i, Entry(t, PTE_W + PTE_U)), r[t := Table(pd, i)], pd)
  {
    assert Look(0);
    var m1, r1 := SetPage(m, t, z), r[t := Other];
    var m2 := SetWord(m1, pd, i, Entry(t, PTE_W + PTE_U));
    Recolour(m, r, t, Other);
    Store(m, r1, t, z);
    forall q: nat, a: nat, b: nat | RoleOf(r, q) == Dir && a < ENTRIES ensures View(m2, q, a, b) == View(m, q, a, b) {
      StoreView(m, r1, t, z, q, a, b);
      NewTableView(m1, r1, pd, i, t, q, a, b);
    }
  }

  // ----- mappages

  predicate ViewMapped(m: Mem, m': Mem, pd: nat, a: nat, k: nat, f: nat, perm: nat, q: nat, i: nat, j: nat) {
    View(m', q, i, j) ==
    if q == pd && a <= PageNo(i, j) < a + k then Entry(f + PageNo(i, j) - a, perm) else View(m, q, i, j)
  }

  predicate RoleMapped(r: Roles, r': Roles, pd: nat, a: nat, k: nat, f: nat, g: nat) {
    var v := a + g - f;
    if a <= v < a + k && v < USERPAGES then RoleOf(r', g) == User(pd, v / ENTRIES, v % ENTRIES)
    else NewTableOnly(RoleOf(r, g), RoleOf(r', g), pd)
  }

  /**
   The `k` pages from page `a` are mapped to the frames from frame `f`, and no other page changes.
   The frames of user pages change hands; data stays.
   */
  ghost predicate Mapped(m: Mem, r: Roles, m': Mem, r': Roles, pd: nat, a: nat, k: nat, f: nat, perm: nat) {
    && (forall q: nat, i: nat, j: nat | RoleOf(r, q) == Dir && i < ENTRIES && j < ENTRIES ::
          ViewMapped(m, m', pd, a, k, f, perm, q, i, j))
    && (forall g: nat | Data(RoleOf(r, g)) :: PageAt(m', g) == PageAt(m, g))
    && forall g: nat :: RoleMapped(r, r', pd, a, k, f, g)
  }

  /** What mappages asks: unmapped pages, and frames of the caller's for user pages. */
  ghost predicate Mappable(m: Mem, r: Roles, pd: nat, a: nat, n: nat, f: nat) {
    && (forall i: nat, j: nat | i < ENTRIES && j < ENTRIES && a <= PageNo(i, j) < a + n :: View(m, pd, i, j) == 0)
    && forall g: nat | f <= g < f + n && a + g - f < USERPAGES :: RoleOf(r, g) == Other
  }

  lemma MappedNothing(m: Mem, r: Roles, pd: nat, a: nat, f: nat, perm: nat)
    ensures Mapped(m, r, m, r, pd, a, 0, f, perm)
  {
  }

  lemma MappedQuiet(m: Mem, r: Roles, m1: Mem, r1: Roles, m2: Mem, r2: Roles, pd: nat, a: nat, k: nat, f: nat,
                    perm: nat)
    requires Mapped(m, r, m1, r1, pd, a, k, f, perm) && Quiet(m1, r1, m2, r2, pd)
    requires forall g: nat | f <= g < f + k && a + g - f < USERPAGES :: RoleOf(r, g) == Other
    ensures Mapped(m, r, m2, r2, pd, a, k, f, perm)
  {
    forall q: nat, i: nat, j: nat | RoleOf(r, q) == Dir && i < ENTRIES && j < ENTRIES
      ensures ViewMapped(m, m2, pd, a, k, f, perm, q, i, j)
    {
      assert RoleMapped(r, r1, pd, a, k, f, q);
      assert ViewMapped(m, m1, pd, a, k, f, perm, q, i, j);
    }
    forall g: nat ensures RoleMapped(r, r2, pd, a, k, f, g) {
      assert RoleMapped(r, r1, pd, a, k, f, g);
      assert NewTableOnly(RoleOf(r1, g), RoleOf(r2, g), pd);
    }
    forall g: nat | Data(RoleOf(r, g)) ensures PageAt(m2, g) == PageAt(m, g) {
      assert RoleMapped(r, r1, pd, a, k, f, g);
    }
  }

  /** Writing one table entry, on the flat map. */
  ghost predicate Poked(m: Mem, r: Roles, m': Mem, pd: nat, i: nat, j: nat, w: nat) {
    && (forall q: nat, a: nat, b: nat | RoleOf(r, q) == Dir && a < ENTRIES ::
          View(m', q, a, b) == if (q, a, b) == (pd, i, j) then Shown(w) else View(m, q, a, b))
    && forall g: nat | Data(RoleOf(r, g)) :: PageAt(m', g) == PageAt(m, g)
  }

  lemma SetEntryPokes(m: Mem, r: Roles, head: nat, free: seq<nat>, end: nat, pd: nat, i: nat, j: nat, w: nat)
    requires Sound(m, r, head, free, end) && RoleOf(r, pd) == Dir && i < ENTRIES && j < ENTRIES
    requires Present(Word(m, pd, i))
    ensures Poked(m, r, SetWord(m, FrameOf(Word(m, pd, i)), j, w), pd, i, j, w)
  {
    assert Look(0);
    var m' := SetWord(m, FrameOf(Word(m, pd, i)), j, w);
    assert EntryOk(m, r, pd, i);
    forall q: nat, a: nat, b: nat | RoleOf(r, q) == Dir && a < ENTRIES
      ensures View(m', q, a, b) == if (q, a, b) == (pd, i, j) then Shown(w) else View(m, q, a, b)
    {
      SetEntryView(m, r, pd, i, j, w, q, a, b);
    }
  }

  lemma PageParts(v: nat, i: nat, j: nat)
    requires v == PageNo(i, j) && j < ENTRIES
    ensures i == v / ENTRIES && j == v % ENTRIES
  {
  }

  lemma PartsPage(v: nat)
    ensures v == PageNo(v / ENTRIES, v % ENTRIES) && v % ENTRIES < ENTRIES
    ensures v < USERPAGES <==> v / ENTRIES < USERDIRS
    ensures v < ENTRIES * ENTRIES <==> v / ENTRIES < ENTRIES
  {
  }

  function OneMapped(r: Roles, pd: nat, v: nat, f: nat): Roles {
    if v < USERPAGES then r[f := User(pd, v / ENTRIES, v % ENTRIES)] else r
  }

  /** One more page. */
  lemma MappedOneMore(m: Mem, r: Roles, m1: Mem, r1: Roles, m2: Mem, pd: nat, a: nat, k: nat, f: nat, perm: nat)
    requires Mapped(m, r, m1, r1, pd, a, k, f, perm) && a + k < ENTRIES * ENTRIES && perm < PGSIZE
    requires Poked(m1, r1, m2, pd, (a + k) / ENTRIES, (a + k) % ENTRIES, Entry(f + k, perm))
    requires forall g: nat | f <= g <= f + k && a + g - f < USERPAGES :: RoleOf(r, g) == Other
    ensures Mapped(m, r, m2, OneMapped(r1, pd, a + k, f + k), pd, a, k + 1, f, perm)
  {
    var r2, k' := OneMapped(r1, pd, a + k, f + k), k + 1;
    EntryParts(f + k, perm);
    PartsPage(a + k);
    forall q: nat, i: nat, j: nat | RoleOf(r, q) == Dir && i < ENTRIES && j < ENTRIES
      ensures ViewMapped(m, m2, pd, a, k', f, perm, q, i, j)
    {
      assert RoleMapped(r, r1, pd, a, k, f, q);
      assert ViewMapped(m, m1, pd, a, k, f, perm, q, i, j);
      PageParts(PageNo(i, j), i, j);
    }
    forall g: nat ensures RoleMapped(r, r2, pd, a, k', f, g) {
      assert RoleMapped(r, r1, pd, a, k, f, g);
    }
    forall g: nat | Data(RoleOf(r, g)) ensures PageAt(m2, g) == PageAt(m, g) {
      assert RoleMapped(r, r1, pd, a, k, f, g);
    }
  }

  // ----- deallocuvm

  predicate InRange(c: Role, pd: nat, lo: nat, hi: nat) {
    c.User? && c.pd == pd && lo <= PageNo(c.i, c.j) < hi
  }

  predicate ViewRemoved(m: Mem, m': Mem, pd: nat, lo: nat, hi: nat, q: nat, i: nat, j: nat) {
    View(m', q, i, j) == if q == pd && lo <= PageNo(i, j) < hi then 0 else View(m, q, i, j)
  }

  predicate RoleRemoved(r: Roles, r': Roles, pd: nat, lo: nat, hi: nat, g: nat) {
    RoleOf(r', g) == if InRange(RoleOf(r, g), pd, lo, hi) then Free else RoleOf(r, g)
  }

  /** Pages `lo` to `hi` of `pd` are unmapped and their frames free; nothing else changes. */
  ghost predicate Removed(m: Mem, r: Roles, m': Mem, r': Roles, pd: nat, lo: nat, hi: nat) {
    && (forall q: nat, i: nat, j: nat | RoleOf(r, q) == Dir && i < ENTRIES && j < ENTRIES ::
          ViewRemoved(m, m', pd, lo, hi, q, i, j))
    && (forall g: nat | Data(RoleOf(r', g)) :: PageAt(m', g) == PageAt(m, g))
    && forall g: nat :: RoleRemoved(r, r', pd, lo, hi, g)
  }

  ghost predicate Unmapped(m: Mem, pd: nat, lo: nat, hi: nat) {
    forall i: nat, j: nat | i < ENTRIES && j < ENTRIES && lo <= PageNo(i, j) < hi :: View(m, pd, i, j) == 0
  }

  /** Passing over unmapped pages removes them. */
  lemma RemovedPass(m: Mem, r: Roles, m1: Mem, r1: Roles, head: nat, free: seq<nat>, end: nat, pd: nat, lo: nat, v: nat,
                    w: nat, x: nat)
    requires Removed(m, r, m1, r1, pd, lo, v) && Sound(m1, r1, head, free, end) && RoleOf(r, pd) == Dir
    requires lo <= v <= w <= x && Unmapped(m1, pd, v, x)
    ensures Removed(m, r, m1, r1, pd, lo, w)
  {
    assert Look(0);
    forall q: nat, i: nat, j: nat | RoleOf(r, q) == Dir && i < ENTRIES && j < ENTRIES
      ensures ViewRemoved(m, m1, pd, lo, w, q, i, j)
    {
      assert ViewRemoved(m, m1, pd, lo, v, q, i, j);
    }
    forall g: nat ensures RoleRemoved(r, r1, pd, lo, w, g) {
      assert RoleRemoved(r, r1, pd, lo, v, g);
      assert UserOk(m1, r1, g);
    }
  }

  lemma RemovedNothing(m: Mem, r: Roles, pd: nat, lo: nat)
    ensures Removed(m, r, m, r, pd, lo, lo)
  {
  }

  /** A directory entry that is not present: its whole range is unmapped. */
  lemma NoTableUnmapped(m: Mem, pd: nat, v: nat)
    requires !Present(Word(m, pd, v / ENTRIES))
    ensures Unmapped(m, pd, v, PageNo(v / ENTRIES + 1, 0))
    ensures v < PageNo(v / ENTRIES + 1, 0)
  {
    PartsPage(v);
    forall i: nat, j: nat | i < ENTRIES && j < ENTRIES && v <= PageNo(i, j) < PageNo(v / ENTRIES + 1, 0)
      ensures View(m, pd, i, j) == 0
    {
      PageParts(PageNo(i, j), i, j);
      assert i == v / ENTRIES;
    }
  }

  lemma AbsentUnmapped(m: Mem, pd: nat, v: nat)
    requires !Present(View(m, pd, v / ENTRIES, v % ENTRIES))
    ensures Unmapped(m, pd, v, v + 1)
  {
    forall i: nat, j: nat | i < ENTRIES && j < ENTRIES && v <= PageNo(i, j) < v + 1 ensures View(m, pd, i, j) == 0 {
      PageParts(v, i, j);
    }
  }

  /** Removing one more page: its frame is freed, then its entry cleared. */
  lemma RemovedOneMore(m: Mem, r: Roles, m1: Mem, r1: Roles, m2: Mem, head: nat, free: seq<nat>, end: nat, pd: nat,
                       lo: nat, v: nat)
    requires Removed(m, r, m1, r1, pd, lo, v) && Sound(m1, r1, head, free, end) && RoleOf(r, pd) == Dir
    requires lo <= v < USERPAGES && Present(View(m1, pd, v / ENTRIES, v % ENTRIES))
    requires var t, f := FrameOf(Word(m1, pd, v / ENTRIES)), FrameOf(View(m1, pd, v / ENTRIES, v % ENTRIES));
             m2 == SetWord(SetPage(m1, f, Junk(head)), t, v % ENTRIES, 0)
    ensures Removed(m, r, m2, r1[FrameOf(View(m1, pd, v / ENTRIES, v % ENTRIES)) := Free], pd, lo, v + 1)
  {
    var i, j := v / ENTRIES, v % ENTRIES;
    var t, f, w := FrameOf(Word(m1, pd, i)), FrameOf(View(m1, pd, i, j)), v + 1;
    var r2 := r1[f := Free];
    assert RoleRemoved(r, r1, pd, lo, v, pd);
    PartsPage(v);
    UserFrame(m1, r1, head, free, end, pd, i, j);
    RemovedViews(m1, r1, head, free, end, pd, i, j);
    forall q: nat, a: nat, b: nat | RoleOf(r, q) == Dir && a < ENTRIES && b < ENTRIES
      ensures ViewRemoved(m, m2, pd, lo, w, q, a, b)
    {
      assert RoleRemoved(r, r1, pd, lo, v, q);
      assert ViewRemoved(m, m1, pd, lo, v, q, a, b);
      PageParts(PageNo(a, b), a, b);
    }
    forall g: nat ensures RoleRemoved(r, r2, pd, lo, w, g) {
      RemovedRole(m1, r, r1, head, free, end, pd, lo, v, g);
    }
    forall g: nat | Data(RoleOf(r2, g)) ensures PageAt(m2, g) == PageAt(m, g) {
      assert RoleRemoved(r, r1, pd, lo, v, g);
    }
  }

  lemma RemovedRole(m1: Mem, r: Roles, r1: Roles, head: nat, free: seq<nat>, end: nat, pd: nat, lo: nat, v: nat, g: nat)
    requires RoleRemoved(r, r1, pd, lo, v, g) && Sound(m1, r1, head, free, end) && RoleOf(r1, pd) == Dir
    requires lo <= v < USERPAGES && Present(View(m1, pd, v / ENTRIES, v % ENTRIES))
    ensures RoleRemoved(r, r1[FrameOf(View(m1, pd, v / ENTRIES, v % ENTRIES)) := Free], pd, lo, v + 1, g)
  {
    assert Look(0);
    PartsPage(v);
    UserFrame(m1, r1, head, free, end, pd, v / ENTRIES, v % ENTRIES);
    assert UserOk(m1, r1, g);
    match RoleOf(r1, g) {
      case User(q, a, b) =>
        if b < ENTRIES {
          PageParts(PageNo(a, b), a, b);
        }
      case _ =>
    }
  }

  lemma RemovedViews(m: Mem, r: Roles, head: nat, free: seq<nat>, end: nat, pd: nat, i: nat, j: nat)
    requires Sound(m, r, head, free, end) && RoleOf(r, pd) == Dir && i < USERDIRS && j < ENTRIES
    requires Present(View(m, pd, i, j))
    ensures var t, f := FrameOf(Word(m, pd, i)), FrameOf(View(m, pd, i, j));
            var m' := SetWord(SetPage(m, f, Junk(head)), t, j, 0);
            forall q: nat, a: nat, b: nat | RoleOf(r, q) == Dir && a < ENTRIES ::
              View(m', q, a, b) == if (q, a, b) == (pd, i, j) then 0 else View(m, q, a, b)
  {
    assert Look(0);
    var t, f := FrameOf(Word(m, pd, i)), FrameOf(View(m, pd, i, j));
    UserFrame(m, r, head, free, end, pd, i, j);
    var m1 := SetPage(m, f, Junk(head));
    Store(m, r, f, Junk(head));
    forall q: nat, a: nat, b: nat | RoleOf(r, q) == Dir && a < ENTRIES
      ensures View(SetWord(m1, t, j, 0), q, a, b) == if (q, a, b) == (pd, i, j) then 0 else View(m, q, a, b)
    {
      StoreView(m, r, f, Junk(head), q, a, b);
      SetEntryView(m1, r, pd, i, j, 0, q, a, b);
    }
  }
}
