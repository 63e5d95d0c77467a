/** allocuvm (`xv6/vm.c`): the pages it adds, and that a failed call leaves the mapping as it was. */
module VmGrow {
  import opened Common
  import opened PageTables
  import opened FrameList
  import opened VmSpec

  /** A page from allocuvm: user-writable, zeroed, in a frame that was free. */
  predicate NewPage(r: Roles, m': Mem, e: nat) {
    && Present(e) && Flags(e) == PTE_P + PTE_W + PTE_U
    && RoleOf(r, FrameOf(e)) == Free && Zero(PageAt(m', FrameOf(e)))
  }

  predicate ViewGrown(m: Mem, r: Roles, m': Mem, pd: nat, lo: nat, hi: nat, q: nat, i: nat, j: nat) {
    if q == pd && lo <= PageNo(i, j) < hi then NewPage(r, m', View(m', q, i, j))
    else View(m', q, i, j) == View(m, q, i, j)
  }

  predicate RoleGrown(r: Roles, r': Roles, pd: nat, lo: nat, hi: nat, g: nat) {
    NewTableOnly(RoleOf(r, g), RoleOf(r', g), pd) || (RoleOf(r, g) == Free && InRange(RoleOf(r', g), pd, lo, hi))
  }

  /** Pages `lo` to `hi` of `pd` are new, and no other page changes. */
  ghost predicate Grown(m: Mem, r: Roles, m': Mem, r': Roles, pd: nat, lo: nat, hi: nat) {
    && (forall q: nat, i: nat, j: nat | RoleOf(r, q) == Dir && i < ENTRIES && j < ENTRIES ::
          ViewGrown(m, r, m', pd, lo, hi, q, i, j))
    && (forall g: nat | Data(RoleOf(r, g)) :: PageAt(m', g) == PageAt(m, g))
    && forall g: nat :: RoleGrown(r, r', pd, lo, hi, g)
  }

  lemma GrownNothing(m: Mem, r: Roles, pd: nat, lo: nat)
    ensures Grown(m, r, m, r, pd, lo, lo)
  {
  }

  lemma GrownDir(m: Mem, r: Roles, m1: Mem, r1: Roles, pd: nat, lo: nat, hi: nat)
    requires Grown(m, r, m1, r1, pd, lo, hi) && RoleOf(r, pd) == Dir
    ensures RoleOf(r1, pd) == Dir
  {
    assert RoleGrown(r, r1, pd, lo, hi, pd);
  }

  /** Storing into a free or held frame is not seen in any page. */
  lemma StoreViews(m: Mem, r: Roles, head: nat, free: seq<nat>, end: nat, f: nat, p: Page)
    requires Sound(m, r, head, free, end) && Plain(RoleOf(r, f))
    ensures forall q: nat, i: nat, j: nat | RoleOf(r, q) == Dir && i < ENTRIES ::
              View(SetPage(m, f, p), q, i, j) == View(m, q, i, j)
  {
    assert Look(0);
    var m' := SetPage(m, f, p);
    forall q: nat, i: nat, j: nat | RoleOf(r, q) == Dir && i < ENTRIES ensures View(m', q, i, j) == View(m, q, i, j) {
      StoreView(m, r, f, p, q, i, j);
    }
  }

  /** One more page: kalloc, zero, map. */
  lemma GrownOneMore(m: Mem, r: Roles, x: Snapshot, f: nat, z: Page, m3: Mem, r3: Roles, pd: nat, lo: nat, v: nat)
    requires Grown(m, r, x.m, x.r, pd, lo, v) && SoundAt(x) && RoleOf(r, pd) == Dir
    requires RoleOf(x.r, f) == Free && Zero(z) && f < |x.m| && lo <= v < USERPAGES
    requires Mapped(SetPage(x.m, f, z), x.r[f := Other], m3, r3, pd, v, 1, f, PTE_W + PTE_U)
    ensures Grown(m, r, m3, r3, pd, lo, v + 1)
  {
    var m2, r2, w := SetPage(x.m, f, z), x.r[f := Other], v + 1;
    StoreViews(x.m, x.r, x.head, x.free, x.end, f, z);
    assert RoleGrown(r, x.r, pd, lo, v, f);
    assert RoleGrown(r, x.r, pd, lo, v, pd);
    forall q: nat, i: nat, j: nat | RoleOf(r, q) == Dir && i < ENTRIES && j < ENTRIES
      ensures ViewGrown(m, r, m3, pd, lo, w, q, i, j)
    {
      GrownView(m, r, x, f, z, m3, r3, pd, lo, v, q, i, j);
    }
    forall g: nat ensures RoleGrown(r, r3, pd, lo, w, g) {
      assert RoleGrown(r, x.r, pd, lo, v, g);
      assert RoleMapped(r2, r3, pd, v, 1, f, g);
      PartsPage(v);
    }
    forall g: nat | Data(RoleOf(r, g)) ensures PageAt(m3, g) == PageAt(m, g) {
      assert RoleGrown(r, x.r, pd, lo, v, g);
    }
  }

  lemma GrownView(m: Mem, r: Roles, x: Snapshot, f: nat, z: Page, m3: Mem, r3: Roles, pd: nat, lo: nat, v: nat,
                  q: nat, i: nat, j: nat)
    requires ViewGrown(m, r, x.m, pd, lo, v, q, i, j)
    requires RoleGrown(r, x.r, pd, lo, v, q) && RoleGrown(r, x.r, pd, lo, v, f)
    requires SoundAt(x) && RoleOf(r, q) == Dir && i < ENTRIES && j < ENTRIES
    requires View(SetPage(x.m, f, z), q, i, j) == View(x.m, q, i, j)
    requires RoleOf(x.r, f) == Free && Zero(z) && f < |x.m| && lo <= v < USERPAGES
    requires Mapped(SetPage(x.m, f, z), x.r[f := Other], m3, r3, pd, v, 1, f, PTE_W + PTE_U)
    ensures ViewGrown(m, r, m3, pd, lo, v + 1, q, i, j)
  {
    var m2, r2 := SetPage(x.m, f, z), x.r[f := Other];
    assert ViewMapped(m2, m3, pd, v, 1, f, PTE_W + PTE_U, q, i, j);
    if q == pd && PageNo(i, j) == v {
      EntryParts(f, PTE_W + PTE_U);
      assert PageAt(m3, f) == z;
    } else if q == pd && lo <= PageNo(i, j) < v {
      var g := FrameOf(View(x.m, q, i, j));
      UserFrame(x.m, x.r, x.head, x.free, x.end, q, i, j);
      assert PageAt(m3, g) == PageAt(x.m, g);
    }
  }

  // ----- when it fails

  /** deallocuvm takes back what was added. */
  lemma GrownThenRemoved(m: Mem, r: Roles, m1: Mem, r1: Roles, m2: Mem, r2: Roles, pd: nat, lo: nat, v: nat, hi: nat)
    requires Tree(m, r) && Grown(m, r, m1, r1, pd, lo, v) && Removed(m1, r1, m2, r2, pd, lo, hi)
    requires Unmapped(m, pd, lo, hi) && lo <= v <= hi && RoleOf(r, pd) == Dir
    ensures Quiet(m, r, m2, r2, pd)
  {
    forall q: nat, i: nat, j: nat | RoleOf(r, q) == Dir && i < ENTRIES && j < ENTRIES
      ensures View(m2, q, i, j) == View(m, q, i, j)
    {
      assert RoleGrown(r, r1, pd, lo, v, q);
      assert ViewGrown(m, r, m1, pd, lo, v, q, i, j);
      assert ViewRemoved(m1, m2, pd, lo, hi, q, i, j);
    }
    forall g: nat
      ensures NewTableOnly(RoleOf(r, g), RoleOf(r2, g), pd) && (Data(RoleOf(r, g)) ==> PageAt(m2, g) == PageAt(m, g))
    {
      assert RoleGrown(r, r1, pd, lo, v, g);
      assert RoleRemoved(r1, r2, pd, lo, hi, g);
      assert UserOk(m, r, g);
    }
  }

  lemma MappedZeroIsQuiet(m: Mem, r: Roles, m': Mem, r': Roles, pd: nat, a: nat, f: nat, perm: nat)
    requires Mapped(m, r, m', r', pd, a, 0, f, perm)
    ensures Quiet(m, r, m', r', pd)
  {
    forall q: nat, i: nat, j: nat | RoleOf(r, q) == Dir && i < ENTRIES && j < ENTRIES
      ensures View(m', q, i, j) == View(m, q, i, j)
    {
      assert ViewMapped(m, m', pd, a, 0, f, perm, q, i, j);
    }
    forall g: nat ensures NewTableOnly(RoleOf(r, g), RoleOf(r', g), pd) {
      assert RoleMapped(r, r', pd, a, 0, f, g);
    }
  }

  lemma GrownQuiet(m: Mem, r: Roles, m1: Mem, r1: Roles, m2: Mem, r2: Roles, pd: nat, lo: nat, v: nat)
    requires Grown(m, r, m1, r1, pd, lo, v) && Tree(m1, r1) && Quiet(m1, r1, m2, r2, pd) && v <= USERPAGES
    requires RoleOf(r, pd) == Dir
    ensures Grown(m, r, m2, r2, pd, lo, v)
  {
    forall q: nat, i: nat, j: nat | RoleOf(r, q) == Dir && i < ENTRIES && j < ENTRIES
      ensures ViewGrown(m, r, m2, pd, lo, v, q, i, j)
    {
      assert RoleGrown(r, r1, pd, lo, v, q);
      assert ViewGrown(m, r, m1, pd, lo, v, q, i, j);
      if q == pd && lo <= PageNo(i, j) < v {
        PageParts(PageNo(i, j), i, j);
        assert MappedOk(m1, r1, q, i, j);
      }
    }
    forall g: nat
      ensures RoleGrown(r, r2, pd, lo, v, g) && (Data(RoleOf(r, g)) ==> PageAt(m2, g) == PageAt(m, g))
    {
      assert RoleGrown(r, r1, pd, lo, v, g);
      assert NewTableOnly(RoleOf(r1, g), RoleOf(r2, g), pd);
    }
  }

  /** The frame that was taken for the page that could not be mapped, as if it had been held all along. */
  lemma GrownHolding(m: Mem, r: Roles, m1: Mem, r1: Roles, f: nat, z: Page, pd: nat, lo: nat, v: nat)
    requires Tree(m, r) && Tree(m1, r1) && Grown(m, r, m1, r1, pd, lo, v) && RoleOf(r, pd) == Dir
    requires RoleOf(r1, f) == Free && v <= USERPAGES
    ensures RoleOf(r, f) == Free
    ensures Grown(SetPage(m, f, z), r[f := Other], SetPage(m1, f, z), r1[f := Other], pd, lo, v)
  {
    var m', r', m2, r2 := SetPage(m, f, z), r[f := Other], SetPage(m1, f, z), r1[f := Other];
    assert RoleGrown(r, r1, pd, lo, v, f);
    forall q: nat, i: nat, j: nat | RoleOf(r', q) == Dir && i < ENTRIES && j < ENTRIES
      ensures ViewGrown(m', r', m2, pd, lo, v, q, i, j)
    {
      assert RoleGrown(r, r1, pd, lo, v, q);
      assert ViewGrown(m, r, m1, pd, lo, v, q, i, j);
      StoreView(m, r, f, z, q, i, j);
      StoreView(m1, r1, f, z, q, i, j);
      if q == pd && lo <= PageNo(i, j) < v {
        PageParts(PageNo(i, j), i, j);
        assert MappedOk(m1, r1, q, i, j);
      }
    }
    forall g: nat
      ensures RoleGrown(r', r2, pd, lo, v, g) && (Data(RoleOf(r', g)) ==> PageAt(m2, g) == PageAt(m', g))
    {
      assert RoleGrown(r, r1, pd, lo, v, g);
    }
  }

  /** Holding a frame for a while and giving it back. */
  lemma HeldIsQuiet(m: Mem, r: Roles, f: nat, z: Page, m1: Mem, r1: Roles, p: Page, pd: nat)
    requires Tree(m, r) && Tree(m1, r1) && RoleOf(r, f) == Free
    requires Quiet(SetPage(m, f, z), r[f := Other], m1, r1, pd)
    ensures RoleOf(r1, f) == Other && Quiet(m, r, SetPage(m1, f, p), r1[f := Free], pd)
  {
    var m', r', m2, r2 := SetPage(m, f, z), r[f := Other], SetPage(m1, f, p), r1[f := Free];
    assert NewTableOnly(RoleOf(r', f), RoleOf(r1, f), pd);
    forall q: nat, i: nat, j: nat | RoleOf(r, q) == Dir && i < ENTRIES && j < ENTRIES
      ensures View(m2, q, i, j) == View(m, q, i, j)
    {
      assert NewTableOnly(RoleOf(r', q), RoleOf(r1, q), pd);
      StoreView(m, r, f, z, q, i, j);
      StoreView(m1, r1, f, p, q, i, j);
      assert View(m1, q, i, j) == View(m', q, i, j);
    }
    forall g: nat
      ensures NewTableOnly(RoleOf(r, g), RoleOf(r2, g), pd) && (Data(RoleOf(r, g)) ==> PageAt(m2, g) == PageAt(m, g))
    {
      assert NewTableOnly(RoleOf(r', g), RoleOf(r1, g), pd);
    }
  }

  // ----- the two ways to fail

  lemma GrowthUndone(m: Mem, r: Roles, head: nat, free: seq<nat>, end: nat, m1: Mem, r1: Roles, m2: Mem, r2: Roles,
                     pd: nat, lo: nat, v: nat, hi: nat)
    requires Sound(m, r, head, free, end) && Grown(m, r, m1, r1, pd, lo, v) && Removed(m1, r1, m2, r2, pd, lo, hi)
    requires Unmapped(m, pd, lo, hi) && lo <= v <= hi && RoleOf(r, pd) == Dir
    ensures Quiet(m, r, m2, r2, pd)
  {
    assert Look(0);
    GrownThenRemoved(m, r, m1, r1, m2, r2, pd, lo, v, hi);
  }

  /** Page `v` could not be mapped, and its frame `f` is still held. */
  lemma PageFailed(s: Snapshot, x: Snapshot, f: nat, z: Page, m3: Mem, r3: Roles, pd: nat, lo: nat, v: nat)
    requires SoundAt(s) && SoundAt(x)
    requires Grown(s.m, s.r, x.m, x.r, pd, lo, v) && RoleOf(x.r, f) == Free && RoleOf(s.r, pd) == Dir && |z| == ENTRIES
    requires Mapped(SetPage(x.m, f, z), x.r[f := Other], m3, r3, pd, v, 0, f, PTE_W + PTE_U) && v <= USERPAGES
    ensures RoleOf(s.r, f) == Free && Grown(SetPage(s.m, f, z), s.r[f := Other], m3, r3, pd, lo, v)
  {
    assert Look(0);
    GrownHolding(s.m, s.r, x.m, x.r, f, z, pd, lo, v);
    Held(s.m, s.r, f, z);
    Held(x.m, x.r, f, z);
    MappedZeroIsQuiet(SetPage(x.m, f, z), x.r[f := Other], m3, r3, pd, v, f, PTE_W + PTE_U);
    GrownQuiet(SetPage(s.m, f, z), s.r[f := Other], SetPage(x.m, f, z), x.r[f := Other], m3, r3, pd, lo, v);
  }

  lemma PageUndone(s: Snapshot, f: nat, z: Page, m3: Mem, r3: Roles, x: Snapshot, p: Page, pd: nat, lo: nat, v: nat,
                   hi: nat)
    requires SoundAt(s) && SoundAt(x)
    requires RoleOf(s.r, f) == Free && RoleOf(s.r, pd) == Dir && |z| == ENTRIES
    requires Grown(SetPage(s.m, f, z), s.r[f := Other], m3, r3, pd, lo, v)
    requires Removed(m3, r3, x.m, x.r, pd, lo, hi) && Unmapped(s.m, pd, lo, hi) && lo <= v <= hi
    ensures RoleOf(x.r, f) == Other && Quiet(s.m, s.r, SetPage(x.m, f, p), x.r[f := Free], pd)
  {
    assert Look(0);
    Held(s.m, s.r, f, z);
    HeldUnmapped(s.m, s.r, f, z, pd, lo, hi);
    GrownThenRemoved(SetPage(s.m, f, z), s.r[f := Other], m3, r3, x.m, x.r, pd, lo, v, hi);
    HeldIsQuiet(s.m, s.r, f, z, x.m, x.r, p, pd);
  }

  lemma Held(m: Mem, r: Roles, f: nat, z: Page)
    requires Tree(m, r) && RoleOf(r, f) == Free && |z| == ENTRIES
    ensures Tree(SetPage(m, f, z), r[f := Other])
  {
    Recolour(m, r, f, Other);
    Store(m, r[f := Other], f, z);
  }

  lemma HeldUnmapped(m: Mem, r: Roles, f: nat, z: Page, pd: nat, lo: nat, hi: nat)
    requires Tree(m, r) && RoleOf(r, f) == Free && RoleOf(r, pd) == Dir && Unmapped(m, pd, lo, hi)
    ensures Unmapped(SetPage(m, f, z), pd, lo, hi)
  {
    forall i: nat, j: nat | i < ENTRIES && j < ENTRIES && lo <= PageNo(i, j) < hi
      ensures View(SetPage(m, f, z), pd, i, j) == 0
    {
      StoreView(m, r, f, z, pd, i, j);
    }
  }

  /** The next page is unmapped, so that mappages may map it. */
  lemma NextPageMappable(m: Mem, r: Roles, x: Snapshot, f: nat, z: Page, pd: nat, lo: nat, v: nat, hi: nat)
    requires Grown(m, r, x.m, x.r, pd, lo, v) && SoundAt(x) && Unmapped(m, pd, lo, hi)
    requires RoleOf(r, pd) == Dir && RoleOf(x.r, f) == Free && lo <= v < hi
    ensures RoleOf(x.r[f := Other], pd) == Dir
    ensures Mappable(SetPage(x.m, f, z), x.r[f := Other], pd, v, 1, f)
  {
    assert RoleGrown(r, x.r, pd, lo, v, pd);
    StoreViews(x.m, x.r, x.head, x.free, x.end, f, z);
    forall i: nat, j: nat | i < ENTRIES && j < ENTRIES && v <= PageNo(i, j) < v + 1
      ensures View(SetPage(x.m, f, z), pd, i, j) == 0
    {
      assert ViewGrown(m, r, x.m, pd, lo, v, pd, i, j);
    }
  }
}
