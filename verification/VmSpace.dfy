/** Whole address spaces (`xv6/vm.c`): setupkvm builds one, copyuvm copies one, freevm returns every frame of one. */
module VmSpace {
  import opened Common
  import opened PageTables
  import opened FrameList
  import opened VmSpec

  // ----- freevm

  /** Frame `g` belongs to the address space of directory `pd`. */
  predicate OwnedBy(c: Role, g: nat, pd: nat) {
    g == pd || (c.Table? && c.pd == pd) || (c.User? && c.pd == pd)
  }

  predicate RoleFreed(r: Roles, r': Roles, pd: nat, g: nat) {
    RoleOf(r', g) == if OwnedBy(RoleOf(r, g), g, pd) then Free else RoleOf(r, g)
  }

  /** Every frame of `pd` is free; no other frame changes hands and no other address space changes. */
  ghost predicate Freed(m: Mem, r: Roles, m': Mem, r': Roles, pd: nat) {
    && (forall q: nat, i: nat, j: nat | RoleOf(r, q) == Dir && q != pd && i < ENTRIES && j < ENTRIES ::
          View(m', q, i, j) == View(m, q, i, j))
    && (forall g: nat | Data(RoleOf(r', g)) :: PageAt(m', g) == PageAt(m, g))
    && forall g: nat :: RoleFreed(r, r', pd, g)
  }

  predicate RoleTorn(r: Roles, r': Roles, pd: nat, k: nat, g: nat) {
    RoleOf(r', g) ==
    if g == pd then Doomed
    else if RoleOf(r, g).Table? && RoleOf(r, g).pd == pd && RoleOf(r, g).i < k then Free
    else RoleOf(r, g)
  }

  /** Inside freevm: the tables of the first `k` entries are free. */
  ghost predicate Torn(m: Mem, r: Roles, m': Mem, r': Roles, pd: nat, k: nat) {
    && (forall g: nat :: RoleTorn(r, r', pd, k, g))
    && forall g: nat | RoleOf(r', g) != Free :: PageAt(m', g) == PageAt(m, g)
  }

  lemma NoUserLeft(m: Mem, r: Roles, m1: Mem, r1: Roles, pd: nat)
    requires Removed(m, r, m1, r1, pd, 0, USERPAGES) && RoleOf(r, pd) == Dir
    ensures RoleOf(r1, pd) == Dir
    ensures forall i: nat, j: nat | i < USERDIRS && j < ENTRIES :: !Present(View(m1, pd, i, j))
  {
    assert RoleRemoved(r, r1, pd, 0, USERPAGES, pd);
    forall i: nat, j: nat | i < USERDIRS && j < ENTRIES ensures !Present(View(m1, pd, i, j)) {
      assert ViewRemoved(m, m1, pd, 0, USERPAGES, pd, i, j);
    }
  }

  lemma TornNothing(m: Mem, r: Roles, pd: nat)
    requires RoleOf(r, pd) == Dir
    ensures Torn(m, r, m, r[pd := Doomed], pd, 0)
  {
  }

  /** An entry of the doomed directory that is not present has no table. */
  lemma TornPass(m: Mem, r: Roles, m1: Mem, r1: Roles, head: nat, free: seq<nat>, end: nat, pd: nat, k: nat)
    requires Torn(m, r, m1, r1, pd, k) && Sound(m1, r1, head, free, end) && !Present(Word(m1, pd, k))
    ensures Torn(m, r, m1, r1, pd, k + 1)
  {
    assert Look(0);
    var k' := k + 1;
    forall g: nat ensures RoleTorn(r, r1, pd, k', g) {
      assert RoleTorn(r, r1, pd, k, g);
      assert TableOk(m1, r1, g);
    }
  }

  /** The table of entry `k` is still there when freevm comes to it. */
  lemma TornTable(m: Mem, r: Roles, head: nat, free: seq<nat>, end: nat, m1: Mem, r1: Roles, pd: nat, k: nat)
    requires Sound(m, r, head, free, end) && Torn(m, r, m1, r1, pd, k) && RoleOf(r, pd) == Dir && k < ENTRIES
    ensures PageAt(m1, pd) == PageAt(m, pd) && RoleOf(r1, pd) == Doomed
    ensures Present(Word(m1, pd, k)) ==> RoleOf(r1, FrameOf(Word(m1, pd, k))) == Table(pd, k)
  {
    assert Look(0);
    assert RoleTorn(r, r1, pd, k, pd);
    assert Word(m1, pd, k) == Word(m, pd, k);
    assert EntryOk(m, r, pd, k);
    assert RoleTorn(r, r1, pd, k, FrameOf(Word(m, pd, k)));
  }

  lemma TornOneMore(m: Mem, r: Roles, m1: Mem, r1: Roles, head: nat, free: seq<nat>, end: nat, pd: nat, k: nat, t: nat,
                    p: Page)
    requires Torn(m, r, m1, r1, pd, k) && Sound(m1, r1, head, free, end)
    requires RoleOf(r1, t) == Table(pd, k) && Present(Word(m1, pd, k)) && FrameOf(Word(m1, pd, k)) == t && t != pd
    ensures Torn(m, r, SetPage(m1, t, p), r1[t := Free], pd, k + 1)
  {
    assert Look(0);
    var m2, r2, k' := SetPage(m1, t, p), r1[t := Free], k + 1;
    forall g: nat ensures RoleTorn(r, r2, pd, k', g) {
      assert RoleTorn(r, r1, pd, k, g);
      assert RoleTorn(r, r1, pd, k, t);
      assert TableOk(m1, r1, g);
    }
    forall g: nat | RoleOf(r2, g) != Free ensures PageAt(m2, g) == PageAt(m, g) {
      assert RoleOf(r1, g) != Free;
    }
  }

  /** When all tables are gone, nothing refers to the directory. */
  lemma TornLoose(m: Mem, r: Roles, m1: Mem, r1: Roles, head: nat, free: seq<nat>, end: nat, pd: nat)
    requires Torn(m, r, m1, r1, pd, ENTRIES) && Sound(m1, r1, head, free, end)
    ensures Loose(r1, pd)
  {
    assert Look(0);
    assert RoleTorn(r, r1, pd, ENTRIES, pd);
    forall t | t in r1 ensures r1[t].Table? ==> r1[t].pd != pd {
      assert RoleTorn(r, r1, pd, ENTRIES, t);
      assert TableOk(m1, r1, t);
    }
  }

  lemma FreedAll(m: Mem, r: Roles, m1: Mem, r1: Roles, head: nat, free: seq<nat>, end: nat,
                 m2: Mem, r2: Roles, head2: nat, free2: seq<nat>, pd: nat, p: Page)
    requires Sound(m, r, head, free, end) && Removed(m, r, m1, r1, pd, 0, USERPAGES) && RoleOf(r, pd) == Dir
    requires Torn(m1, r1, m2, r2, pd, ENTRIES) && Sound(m2, r2, head2, free2, end)
    ensures Freed(m, r, SetPage(m2, pd, p), r2[pd := Free], pd)
  {
    assert Look(0);
    var m3, r3 := SetPage(m2, pd, p), r2[pd := Free];
    forall g: nat ensures RoleFreed(r, r3, pd, g) && (Data(RoleOf(r3, g)) ==> PageAt(m3, g) == PageAt(m, g)) {
      FreedRole(m, r, r1, r2, pd, g);
    }
    forall q: nat, i: nat, j: nat | RoleOf(r, q) == Dir && q != pd && i < ENTRIES && j < ENTRIES
      ensures View(m3, q, i, j) == View(m, q, i, j)
    {
      FreedView(m, r, m1, r1, m2, r2, pd, p, q, i, j);
    }
  }

  lemma FreedRole(m: Mem, r: Roles, r1: Roles, r2: Roles, pd: nat, g: nat)
    requires Tree(m, r) && RoleRemoved(r, r1, pd, 0, USERPAGES, g) && RoleTorn(r1, r2, pd, ENTRIES, g)
    ensures RoleFreed(r, r2[pd := Free], pd, g)
  {
    assert TableOk(m, r, g);
    assert UserOk(m, r, g);
  }

  lemma FreedView(m: Mem, r: Roles, m1: Mem, r1: Roles, m2: Mem, r2: Roles, pd: nat, p: Page, q: nat, i: nat, j: nat)
    requires Tree(m2, r2) && Removed(m, r, m1, r1, pd, 0, USERPAGES) && Torn(m1, r1, m2, r2, pd, ENTRIES)
    requires RoleOf(r, q) == Dir && q != pd && i < ENTRIES && j < ENTRIES && RoleOf(r, pd) == Dir
    ensures View(SetPage(m2, pd, p), q, i, j) == View(m, q, i, j)
  {
    assert RoleRemoved(r, r1, pd, 0, USERPAGES, q);
    assert RoleTorn(r1, r2, pd, ENTRIES, q);
    assert ViewRemoved(m, m1, pd, 0, USERPAGES, q, i, j);
    assert EntryOk(m2, r2, q, i);
    assert RoleTorn(r1, r2, pd, ENTRIES, pd);
    assert Word(m2, q, i) == Word(m1, q, i);
  }

  // ----- a directory under construction

  predicate RoleBuilt(r: Roles, r': Roles, d: nat, g: nat) {
    if g == d then RoleOf(r, g) == Free && RoleOf(r', g) == Dir
    else RoleOf(r', g) == RoleOf(r, g) || (RoleOf(r, g) == Free && OwnedBy(RoleOf(r', g), g, d))
  }

  /** `d` and its tables and pages come from free frames; nothing else changes. */
  ghost predicate Built(m: Mem, r: Roles, m': Mem, r': Roles, d: nat) {
    && (forall q: nat, i: nat, j: nat | RoleOf(r, q) == Dir && i < ENTRIES && j < ENTRIES ::
          View(m', q, i, j) == View(m, q, i, j))
    && (forall g: nat | Data(RoleOf(r, g)) :: PageAt(m', g) == PageAt(m, g))
    && forall g: nat :: RoleBuilt(r, r', d, g)
  }

  /** Every frame has the role it had, every page is mapped as it was, all data is as it was. */
  ghost predicate Restored(m: Mem, r: Roles, m': Mem, r': Roles) {
    && (forall q: nat, i: nat, j: nat | RoleOf(r, q) == Dir && i < ENTRIES && j < ENTRIES ::
          View(m', q, i, j) == View(m, q, i, j))
    && (forall g: nat | Data(RoleOf(r, g)) :: PageAt(m', g) == PageAt(m, g))
    && forall g: nat :: RoleOf(r', g) == RoleOf(r, g)
  }

  /** freevm undoes construction: no frame is lost. */
  lemma BuiltThenFreed(m: Mem, r: Roles, head: nat, free: seq<nat>, end: nat, m1: Mem, r1: Roles, m2: Mem, r2: Roles,
                       d: nat)
    requires Sound(m, r, head, free, end) && Built(m, r, m1, r1, d) && Freed(m1, r1, m2, r2, d)
    ensures Restored(m, r, m2, r2)
  {
    assert Look(0);
    assert RoleBuilt(r, r1, d, d);
    forall g: nat ensures RoleOf(r2, g) == RoleOf(r, g) && (Data(RoleOf(r, g)) ==> PageAt(m2, g) == PageAt(m, g)) {
      assert RoleBuilt(r, r1, d, g);
      assert RoleFreed(r1, r2, d, g);
      assert TableOk(m, r, g);
      assert UserOk(m, r, g);
    }
    forall q: nat, i: nat, j: nat | RoleOf(r, q) == Dir && i < ENTRIES && j < ENTRIES
      ensures View(m2, q, i, j) == View(m, q, i, j)
    {
      assert RoleBuilt(r, r1, d, q);
      assert View(m1, q, i, j) == View(m, q, i, j);
    }
  }

  lemma BuiltStart(m: Mem, r: Roles, head: nat, free: seq<nat>, end: nat, d: nat, z: Page)
    requires Sound(m, r, head, free, end) && RoleOf(r, d) == Free && Zero(z)
    ensures Built(m, r, SetPage(m, d, z), r[d := Dir], d)
    ensures forall i: nat, j: nat :: View(SetPage(m, d, z), d, i, j) == 0
  {
    assert Look(0);
    var m' := SetPage(m, d, z);
    forall q: nat, i: nat, j: nat | RoleOf(r, q) == Dir && i < ENTRIES && j < ENTRIES
      ensures View(m', q, i, j) == View(m, q, i, j)
    {
      StoreView(m, r, d, z, q, i, j);
    }
    forall i: nat, j: nat ensures View(m', d, i, j) == 0 {
      assert Word(m', d, i) == 0;
    }
  }

  /** mappages on kernel pages of `d`. */
  lemma BuiltKernel(m: Mem, r: Roles, m1: Mem, r1: Roles, m2: Mem, r2: Roles, d: nat, a: nat, k: nat, f: nat, perm: nat)
    requires Built(m, r, m1, r1, d) && Mapped(m1, r1, m2, r2, d, a, k, f, perm) && a >= USERPAGES
    ensures Built(m, r, m2, r2, d)
  {
    assert RoleBuilt(r, r1, d, d);
    forall g: nat ensures RoleBuilt(r, r2, d, g) && (Data(RoleOf(r, g)) ==> PageAt(m2, g) == PageAt(m, g)) {
      assert RoleBuilt(r, r1, d, g);
      assert RoleMapped(r1, r2, d, a, k, f, g);
    }
    forall q: nat, i: nat, j: nat | RoleOf(r, q) == Dir && i < ENTRIES && j < ENTRIES
      ensures View(m2, q, i, j) == View(m, q, i, j)
    {
      assert RoleBuilt(r, r1, d, q);
      assert ViewMapped(m1, m2, d, a, k, f, perm, q, i, j);
      assert View(m1, q, i, j) == View(m, q, i, j);
    }
  }

  /** kalloc, fill and map one user page of `d`. */
  lemma BuiltUser(m: Mem, r: Roles, x: Snapshot, f: nat, p: Page, m3: Mem, r3: Roles, d: nat, v: nat, perm: nat)
    requires Built(m, r, x.m, x.r, d) && SoundAt(x) && RoleOf(x.r, f) == Free && v < USERPAGES
    requires Mapped(SetPage(x.m, f, p), x.r[f := Other], m3, r3, d, v, 1, f, perm)
    ensures Built(m, r, m3, r3, d)
  {
    assert Look(0);
    var m2, r2 := SetPage(x.m, f, p), x.r[f := Other];
    assert RoleBuilt(r, x.r, d, d) && RoleBuilt(r, x.r, d, f);
    forall g: nat ensures RoleBuilt(r, r3, d, g) && (Data(RoleOf(r, g)) ==> PageAt(m3, g) == PageAt(m, g)) {
      assert RoleBuilt(r, x.r, d, g);
      assert RoleMapped(r2, r3, d, v, 1, f, g);
    }
    forall q: nat, i: nat, j: nat | RoleOf(r, q) == Dir && i < ENTRIES && j < ENTRIES
      ensures View(m3, q, i, j) == View(m, q, i, j)
    {
      assert RoleBuilt(r, x.r, d, q);
      StoreView(x.m, x.r, f, p, q, i, j);
      assert ViewMapped(m2, m3, d, v, 1, f, perm, q, i, j);
      assert View(x.m, q, i, j) == View(m, q, i, j);
    }
  }

  /** kalloc and fill, then mappages fails and the frame is freed. */
  lemma BuiltFailed(m: Mem, r: Roles, x: Snapshot, f: nat, p: Page, y: Snapshot, junk: Page, d: nat, v: nat,
                    perm: nat)
    requires Built(m, r, x.m, x.r, d) && SoundAt(x) && RoleOf(x.r, f) == Free
    requires Mapped(SetPage(x.m, f, p), x.r[f := Other], y.m, y.r, d, v, 0, f, perm) && SoundAt(y)
    ensures RoleOf(y.r, f) == Other && Built(m, r, SetPage(y.m, f, junk), y.r[f := Free], d)
  {
    assert Look(0);
    var m2, r2, m4, r4 := SetPage(x.m, f, p), x.r[f := Other], SetPage(y.m, f, junk), y.r[f := Free];
    assert RoleBuilt(r, x.r, d, d) && RoleBuilt(r, x.r, d, f);
    assert RoleMapped(r2, y.r, d, v, 0, f, f);
    forall g: nat ensures RoleBuilt(r, r4, d, g) && (Data(RoleOf(r, g)) ==> PageAt(m4, g) == PageAt(m, g)) {
      assert RoleBuilt(r, x.r, d, g);
      assert RoleMapped(r2, y.r, d, v, 0, f, g);
    }
    forall q: nat, i: nat, j: nat | RoleOf(r, q) == Dir && i < ENTRIES && j < ENTRIES
      ensures View(m4, q, i, j) == View(m, q, i, j)
    {
      assert RoleBuilt(r, x.r, d, q);
      assert RoleMapped(r2, y.r, d, v, 0, f, q);
      StoreView(x.m, x.r, f, p, q, i, j);
      assert ViewMapped(m2, y.m, d, v, 0, f, perm, q, i, j);
      StoreView(y.m, y.r, f, junk, q, i, j);
      assert View(x.m, q, i, j) == View(m, q, i, j);
    }
  }

  // ----- the kernel half

  const EXTMEM := 0x100000
  const PHYSTOP := 0xE000000
  const DEVSPACE := 0xFE000000
  const KERNLINK := KERNBASE + EXTMEM

  /** A row of kmap. */
  datatype Kmap = Kmap(virt: nat, physStart: nat, physEnd: nat, perm: nat)

  /** `phys_end - phys_start` in 32 bits. */
  function Size(k: Kmap): nat {
    (k.physEnd - k.physStart) % WORD32
  }

  predicate In(k: Kmap, v: nat) {
    k.virt / PGSIZE <= v < k.virt / PGSIZE + Size(k) / PGSIZE
  }

  /** What the first `n` rows map page `v` to. */
  function KernelView(km: seq<Kmap>, n: nat, v: nat): nat {
    if n == 0 || n > |km| then 0
    else if In(km[n - 1], v) then Entry(km[n - 1].physStart / PGSIZE + v - km[n - 1].virt / PGSIZE, km[n - 1].perm)
    else KernelView(km, n - 1, v)
  }

  predicate RowOk(k: Kmap) {
    && k.virt % PGSIZE == 0 && k.physStart % PGSIZE == 0 && Size(k) % PGSIZE == 0
    && KERNBASE <= k.virt && 0 < Size(k) && k.virt + Size(k) <= WORD32 && k.perm < PGSIZE
  }

  predicate Apart(k: Kmap, l: Kmap) {
    k.virt + Size(k) <= l.virt || l.virt + Size(l) <= k.virt
  }

  ghost predicate KmapOk(km: seq<Kmap>) {
    && (forall k | 0 <= k < |km| :: RowOk(km[k]))
    && forall k, l | 0 <= k < l < |km| :: Apart(km[k], km[l])
  }

  /** The table in the source, for a kernel whose data starts at page-aligned address `data`. */
  function KernelMap(data: nat): seq<Kmap> {
    if data < KERNBASE then [] else
    [ Kmap(KERNBASE, 0, EXTMEM, PTE_W),
      Kmap(KERNLINK, EXTMEM, data - KERNBASE, 0),
      Kmap(data, data - KERNBASE, PHYSTOP, PTE_W),
      Kmap(DEVSPACE, DEVSPACE, 0, PTE_W) ]
  }

  /** Where the linker can put `data`. */
  predicate DataOk(data: nat) {
    data % PGSIZE == 0 && KERNLINK < data < KERNBASE + PHYSTOP
  }

  lemma KernelMapOk(data: nat)
    requires DataOk(data)
    ensures KmapOk(KernelMap(data))
  {
    var km := KernelMap(data);
    assert Size(km[3]) == 0x2000000;
    assert Size(km[1]) == data - KERNLINK && Size(km[2]) == KERNBASE + PHYSTOP - data;
    assert RowOk(km[0]) && RowOk(km[1]) && RowOk(km[2]) && RowOk(km[3]);
  }

  ghost predicate KernelViews(m: Mem, d: nat, km: seq<Kmap>, n: nat) {
    forall i: nat, j: nat | i < ENTRIES && j < ENTRIES :: View(m, d, i, j) == KernelView(km, n, PageNo(i, j))
  }

  lemma {:induction false} KernelViewMiss(km: seq<Kmap>, n: nat, v: nat)
    requires n <= |km| && forall k | 0 <= k < n :: !In(km[k], v)
    ensures KernelView(km, n, v) == 0
  {
    if n > 0 {
      KernelViewMiss(km, n - 1, v);
    }
  }

  /** Aligned rows that do not overlap have no page in common. */
  lemma RowsApart(k: Kmap, l: Kmap, v: nat)
    requires RowOk(k) && RowOk(l) && Apart(k, l) && In(k, v)
    ensures !In(l, v)
  {
  }

  /** Each row of the table is mapped as it says, wherever it stands. */
  lemma {:induction false} KernelViewHit(km: seq<Kmap>, n: nat, k: nat, v: nat)
    requires KmapOk(km) && k < n <= |km| && In(km[k], v)
    ensures KernelView(km, n, v) == Entry(km[k].physStart / PGSIZE + v - km[k].virt / PGSIZE, km[k].perm)
  {
    if k < n - 1 {
      RowsApart(km[k], km[n - 1], v);
      KernelViewHit(km, n - 1, k, v);
    }
  }

  /** The kernel table maps no user page. */
  lemma KernelViewUser(km: seq<Kmap>, v: nat)
    requires KmapOk(km) && v < USERPAGES
    ensures KernelView(km, |km|, v) == 0
  {
    KernelViewMiss(km, |km|, v);
  }

  // ----- what the kernel maps

  predicate Writable(e: nat) {
    e / PTE_W % 2 == 1
  }

  predicate UserMay(e: nat) {
    e / PTE_U % 2 == 1
  }

  /**
   The kernel's entry for the page at address `v * PGSIZE`: physical memory from KERNBASE on and the devices from
   DEVSPACE on are mapped, the former at an offset of KERNBASE and the latter where they are.  User code has no access
   to any of it, and the kernel may write all but its text and read-only data.
   */
  predicate KernelPage(data: nat, v: nat, e: nat) {
    var a := v * PGSIZE;
    && (Present(e) <==> KERNBASE <= a < KERNBASE + PHYSTOP || DEVSPACE <= a) && !UserMay(e)
    && (Present(e) ==> FrameOf(e) * PGSIZE == if a < DEVSPACE then a - KERNBASE else a)
    && (Present(e) ==> (Writable(e) <==> !(KERNLINK <= a < data)))
  }

  lemma EntryBits(f: nat)
    ensures !UserMay(Entry(f, 0)) && !Writable(Entry(f, 0)) && Present(Entry(f, 0)) && FrameOf(Entry(f, 0)) == f
    ensures !UserMay(Entry(f, PTE_W)) && Writable(Entry(f, PTE_W)) && Present(Entry(f, PTE_W))
    ensures FrameOf(Entry(f, PTE_W)) == f
  {
    EntryParts(f, 0);
    EntryParts(f, PTE_W);
  }

  /** For every place of `data` the rows of the table are the kernel's pages. */
  lemma KernelMapIs(data: nat, v: nat)
    requires DataOk(data) && v < ENTRIES * ENTRIES
    ensures KernelPage(data, v, KernelView(KernelMap(data), 4, v))
  {
    var km, a := KernelMap(data), v * PGSIZE;
    KernelMapOk(data);
    RowPages(data, v);
    if k: nat :| k < 4 && In(km[k], v) {
      KernelViewHit(km, 4, k, v);
      EntryBits(km[k].physStart / PGSIZE + v - km[k].virt / PGSIZE);
    } else {
      assert !In(km[0], v) && !In(km[1], v) && !In(km[2], v) && !In(km[3], v);
      KernelViewMiss(km, 4, v);
    }
  }

  lemma RowPages(data: nat, v: nat)
    requires DataOk(data) && v < ENTRIES * ENTRIES
    ensures var km, a := KernelMap(data), v * PGSIZE;
            && (In(km[0], v) <==> KERNBASE <= a < KERNLINK) && (In(km[1], v) <==> KERNLINK <= a < data)
            && (In(km[2], v) <==> data <= a < KERNBASE + PHYSTOP) && (In(km[3], v) <==> DEVSPACE <= a)
  {
    var km := KernelMap(data);
    assert Size(km[3]) == 0x2000000 && Size(km[1]) == data - KERNLINK && Size(km[2]) == KERNBASE + PHYSTOP - data;
    assert data == data / PGSIZE * PGSIZE;
  }

  lemma AlignedCount(va: nat, size: nat)
    requires va % PGSIZE == 0 && size % PGSIZE == 0 && 0 < size
    ensures PageCount(va, size) == size / PGSIZE
  {
  }

  /** The pages of a row are unmapped when its turn comes. */
  lemma RowMappable(m: Mem, r: Roles, d: nat, km: seq<Kmap>, n: nat)
    requires KernelViews(m, d, km, n) && KmapOk(km) && n < |km|
    ensures Mappable(m, r, d, km[n].virt / PGSIZE, PageCount(km[n].virt, Size(km[n])), km[n].physStart / PGSIZE)
  {
    var row := km[n];
    AlignedCount(row.virt, Size(row));
    forall i: nat, j: nat | i < ENTRIES && j < ENTRIES && In(row, PageNo(i, j)) ensures View(m, d, i, j) == 0 {
      forall k | 0 <= k < n ensures !In(km[k], PageNo(i, j)) {
        RowsApart(row, km[k], PageNo(i, j));
      }
      KernelViewMiss(km, n, PageNo(i, j));
    }
  }

  lemma RowMapped(m: Mem, r: Roles, m': Mem, r': Roles, d: nat, km: seq<Kmap>, n: nat)
    requires KernelViews(m, d, km, n) && KmapOk(km) && n < |km| && RoleOf(r, d) == Dir
    requires var row := km[n];
             Mapped(m, r, m', r', d, row.virt / PGSIZE, PageCount(row.virt, Size(row)), row.physStart / PGSIZE,
                    row.perm)
    ensures KernelViews(m', d, km, n + 1)
  {
    var row := km[n];
    var a, c, f := row.virt / PGSIZE, PageCount(row.virt, Size(row)), row.physStart / PGSIZE;
    AlignedCount(row.virt, Size(row));
    var n' := n + 1;
    forall i: nat, j: nat | i < ENTRIES && j < ENTRIES ensures View(m', d, i, j) == KernelView(km, n', PageNo(i, j)) {
      assert ViewMapped(m, m', d, a, c, f, row.perm, d, i, j);
      assert View(m, d, i, j) == KernelView(km, n, PageNo(i, j));
    }
  }

  // ----- copyuvm

  /** A copied page: the same flags, and the same contents in a frame that was free. */
  predicate CopyOf(m: Mem, r: Roles, m': Mem, e: nat, e': nat) {
    && Present(e') && Flags(e') == Flags(e)
    && RoleOf(r, FrameOf(e')) == Free && PageAt(m', FrameOf(e')) == PageAt(m, FrameOf(e))
  }

  predicate ViewCopied(m: Mem, r: Roles, m': Mem, pd: nat, d: nat, km: seq<Kmap>, n: nat, i: nat, j: nat) {
    if PageNo(i, j) < n then CopyOf(m, r, m', View(m, pd, i, j), View(m', d, i, j))
    else View(m', d, i, j) == KernelView(km, |km|, PageNo(i, j))
  }

  /** The first `n` pages of `d` are copies of those of `pd`; otherwise `d` has the kernel mappings only. */
  ghost predicate Copied(m: Mem, r: Roles, m': Mem, pd: nat, d: nat, km: seq<Kmap>, n: nat) {
    forall i: nat, j: nat | i < ENTRIES && j < ENTRIES :: ViewCopied(m, r, m', pd, d, km, n, i, j)
  }

  lemma CopiedOneMore(s: Snapshot, x: Snapshot, f: nat, m3: Mem, r3: Roles, pd: nat, d: nat, km: seq<Kmap>, v: nat)
    requires SoundAt(s) && SoundAt(x) && Built(s.m, s.r, x.m, x.r, d)
    requires Copied(s.m, s.r, x.m, pd, d, km, v) && RoleOf(s.r, pd) == Dir && RoleOf(x.r, f) == Free && v < USERPAGES
    requires Present(View(s.m, pd, v / ENTRIES, v % ENTRIES))
    requires var e := View(s.m, pd, v / ENTRIES, v % ENTRIES);
             Mapped(SetPage(x.m, f, PageAt(s.m, FrameOf(e))), x.r[f := Other], m3, r3, d, v, 1, f, Flags(e))
    ensures Copied(s.m, s.r, m3, pd, d, km, v + 1)
  {
    assert RoleBuilt(s.r, x.r, d, d) && RoleBuilt(s.r, x.r, d, f);
    var n := v + 1;
    forall i: nat, j: nat | i < ENTRIES && j < ENTRIES ensures ViewCopied(s.m, s.r, m3, pd, d, km, n, i, j) {
      CopiedView(s.m, s.r, x, f, m3, r3, pd, d, km, v, i, j);
    }
  }

  lemma CopiedView(m: Mem, r: Roles, x: Snapshot, f: nat, m3: Mem, r3: Roles, pd: nat, d: nat, km: seq<Kmap>, v: nat,
                   i: nat, j: nat)
    requires SoundAt(x) && RoleBuilt(r, x.r, d, f) && RoleOf(x.r, d) == Dir && f != d
    requires Copied(m, r, x.m, pd, d, km, v) && RoleOf(r, pd) == Dir && RoleOf(x.r, f) == Free && v < USERPAGES
    requires Present(View(m, pd, v / ENTRIES, v % ENTRIES))
    requires var e := View(m, pd, v / ENTRIES, v % ENTRIES);
             Mapped(SetPage(x.m, f, PageAt(m, FrameOf(e))), x.r[f := Other], m3, r3, d, v, 1, f, Flags(e))
    requires i < ENTRIES && j < ENTRIES
    ensures ViewCopied(m, r, m3, pd, d, km, v + 1, i, j)
  {
    assert Look(0);
    var e := View(m, pd, v / ENTRIES, v % ENTRIES);
    var p := PageAt(m, FrameOf(e));
    var m2, r2 := SetPage(x.m, f, p), x.r[f := Other];
    assert ViewMapped(m2, m3, d, v, 1, f, Flags(e), d, i, j);
    assert ViewCopied(m, r, x.m, pd, d, km, v, i, j);
    StoreView(x.m, x.r, f, p, d, i, j);
    PageParts(PageNo(i, j), i, j);
    if PageNo(i, j) == v {
      EntryParts(f, Flags(e));
      FlagsPresent(e);
      assert PageAt(m3, f) == PageAt(m2, f);
    } else if PageNo(i, j) < v {
      var g := FrameOf(View(x.m, d, i, j));
      assert MappedOk(x.m, x.r, d, i, j);
      assert PageAt(m3, g) == PageAt(m2, g) == PageAt(x.m, g);
    }
  }

  lemma FlagsPresent(e: nat)
    requires Present(e)
    ensures Flags(e) % 2 == 1 && Flags(e) < PGSIZE
  {
  }

  /** What the loop of copyuvm reads in `pd` is what was there before the call. */
  lemma ParentKept(s: Snapshot, m1: Mem, r1: Roles, pd: nat, d: nat, i: nat, j: nat)
    requires SoundAt(s) && Built(s.m, s.r, m1, r1, d) && RoleOf(s.r, pd) == Dir
    requires i < USERDIRS && j < ENTRIES && Present(View(s.m, pd, i, j))
    ensures RoleOf(r1, pd) == Dir && RoleOf(r1, d) == Dir && View(m1, pd, i, j) == View(s.m, pd, i, j)
    ensures var f := FrameOf(View(s.m, pd, i, j)); f in r1 && RoleOf(r1, f).User? && PageAt(m1, f) == PageAt(s.m, f)
  {
    assert RoleBuilt(s.r, r1, d, pd) && RoleBuilt(s.r, r1, d, d);
    UserFrame(s.m, s.r, s.head, s.free, s.end, pd, i, j);
    assert RoleBuilt(s.r, r1, d, FrameOf(View(s.m, pd, i, j)));
  }

  /** The next page of the copy is unmapped. */
  lemma CopyMappable(m: Mem, r: Roles, x: Snapshot, f: nat, p: Page, pd: nat, d: nat, km: seq<Kmap>, v: nat)
    requires Copied(m, r, x.m, pd, d, km, v) && KmapOk(km) && SoundAt(x)
    requires RoleOf(x.r, d) == Dir && RoleOf(x.r, f) == Free && v < USERPAGES
    ensures Mappable(SetPage(x.m, f, p), x.r[f := Other], d, v, 1, f)
  {
    assert Look(0);
    KernelViewUser(km, v);
    forall i: nat, j: nat | i < ENTRIES && j < ENTRIES && v <= PageNo(i, j) < v + 1
      ensures View(SetPage(x.m, f, p), d, i, j) == 0
    {
      StoreView(x.m, x.r, f, p, d, i, j);
      assert ViewCopied(m, r, x.m, pd, d, km, v, i, j);
    }
  }
}
