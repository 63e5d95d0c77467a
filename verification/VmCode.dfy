/**
 `xv6/kalloc.c` and `xv6/vm.c` as code over physical memory.  Kernel addresses are page numbers
 here: frame `f` stands for the address `KERNBASE + 4096 * f`, and 0 for the null pointer.
 */
module VmCode {
  import opened Common
  import opened PageTables
  import opened FrameList
  import opened VmCount
  import opened VmSpec
  import opened VmGrow
  import opened VmSpace

  /** A page after `memset(p, 0, PGSIZE)`. */
  function Zeroes(): (p: Page)
    ensures Zero(p)
  {
    seq(ENTRIES, _ => 0)
  }

  /** How mappages ends: all pages mapped, no frame for a table, or the "remap" panic. */
  datatype MapResult = AllMapped | NoFrame | Remap

  class Kernel {
    const end: nat
    var mem: Mem
    var freelist: nat
    ghost var free: seq<nat>
    ghost var role: Roles

    ghost predicate Valid()
      reads this
    {
      Sound(mem, role, freelist, free, end)
    }

    /** Boot: the managed frames are not yet on the free list. */
    constructor (m: Mem, end: nat, ghost managed: set<nat>)
      requires 0 < end && (forall f | f in managed :: end <= f < |m|) && forall f | 0 <= f < |m| :: |m[f]| == ENTRIES
      ensures Valid() && mem == m && this.end == end && free == [] && role == map f | f in managed :: Other
    {
      this.end, mem, freelist, free, role := end, m, 0, [], map f | f in managed :: Other;
      BootSound(m, map f | f in managed :: Other, end);
    }

    /** kalloc. */
    method Kalloc() returns (f: nat)
      requires Valid()
      modifies this`freelist, this`free, this`role
      ensures Valid()
      ensures f == 0 <==> old(free) == []
      ensures f == 0 ==> free == old(free) && role == old(role) && freelist == old(freelist)
      ensures f != 0 ==> RoleOf(old(role), f) == Free && role == old(role)[f := Other]
      ensures f != 0 ==> old(free) == [f] + free && f < |mem| && |mem[f]| == ENTRIES
    {
      Pop(mem, role, freelist, free, end);
      f := freelist;
      if f != 0 {
        freelist := mem[f][0];
        role, free := role[f := Other], free[1..];
      }
    }

    /** The body of kfree: fill the page, link it. */
    method Link(f: nat)
      requires f < |mem| && |mem[f]| == ENTRIES
      modifies this`mem, this`freelist
      ensures mem == SetPage(old(mem), f, Junk(old(freelist))) && freelist == f
    {
      var junk: Page := seq(ENTRIES, _ => JUNK);
      mem := mem[f := junk];
      mem := SetWord(mem, f, 0, freelist);
      assert mem[f] == Junk(freelist);
      freelist := f;
    }

    /** kfree of a frame that nothing refers to; its panic is unreachable. */
    method Kfree(f: nat)
      requires Valid() && Loose(role, f)
      modifies this
      ensures Valid() && mem == SetPage(old(mem), f, Junk(old(freelist)))
      ensures role == old(role)[f := Free] && free == [f] + old(free)
    {
      Push(mem, role, freelist, free, end, f);
      assert !(f < end || f >= |mem|);
      Link(f);
      role, free := role[f := Free], [f] + free;
    }

    /** walkpgdir: the table for directory entry `i`, or 0. */
    method Walk(pd: nat, i: nat, alloc: bool) returns (t: nat)
      requires Valid() && RoleOf(role, pd) == Dir && i < ENTRIES
      modifies this
      ensures Valid() && Quiet(old(mem), old(role), mem, role, pd)
      ensures t == 0 <==> !Present(Word(old(mem), pd, i)) && (!alloc || old(free) == [])
      ensures t == 0 || !alloc ==>
              mem == old(mem) && role == old(role) && free == old(free) && freelist == old(freelist)
      ensures t != 0 ==> Present(Word(mem, pd, i)) && FrameOf(Word(mem, pd, i)) == t && t < |mem| && |mem[t]| == ENTRIES
      ensures t != 0 ==>
                Word(mem, pd, i) ==
                if Present(Word(old(mem), pd, i)) then Word(old(mem), pd, i) else Entry(t, PTE_W + PTE_U)
      ensures Present(Word(old(mem), pd, i)) ==> mem == old(mem) && role == old(role) && free == old(free)
      ensures t != 0 && alloc ==> Drew(old(mem), mem, pd, {i}, 0, |old(free)|, |free|)
      ensures |free| + 1 >= |old(free)|
    {
      DirAt(mem, role, freelist, free, end, pd, i);
      if Present(mem[pd][i]) {
        t := FrameOf(mem[pd][i]);
        WalkFound(mem, pd, i, |free|);
      } else {
        if !alloc {
          return 0;
        }
        t := Kalloc();
        if t == 0 {
          return;
        }
        WalkDrew(mem, pd, i, t, Zeroes(), |free|);
        WalkQuiet(old(mem), old(role), old(freelist), old(free), end, pd, i, t, Zeroes());
        SoundStore(mem, role, freelist, free, end, t, Zeroes());
        mem := mem[t := Zeroes()];
        SoundNewTable(mem, role, freelist, free, end, pd, i, t);
        EntryParts(t, PTE_W + PTE_U);
        mem := SetWord(mem, pd, i, Entry(t, PTE_W + PTE_U));
        role := role[t := Table(pd, i)];
        assert role == old(role)[t := Table(pd, i)];
      }
    }

    /** `*pte = pa | perm | PTE_P` for page `v`, whose table is `t`. */
    method Map(pd: nat, v: nat, t: nat, f: nat, perm: nat)
      requires Valid() && RoleOf(role, pd) == Dir && v < ENTRIES * ENTRIES && perm < PGSIZE
      requires Present(Word(mem, pd, v / ENTRIES)) && FrameOf(Word(mem, pd, v / ENTRIES)) == t
      requires View(mem, pd, v / ENTRIES, v % ENTRIES) == 0 && (v < USERPAGES ==> RoleOf(role, f) == Other)
      modifies this`mem, this`role
      ensures Valid() && role == OneMapped(old(role), pd, v, f)
      ensures Poked(old(mem), old(role), mem, pd, v / ENTRIES, v % ENTRIES, Entry(f, perm))
      ensures PageAt(mem, pd) == PageAt(old(mem), pd)
    {
      DirAt(mem, role, freelist, free, end, pd, v / ENTRIES);
      EntryParts(f, perm);
      PartsPage(v);
      ghost var r' := OneMapped(role, pd, v, f);
      SoundSetEntry(mem, role, freelist, free, end, pd, v / ENTRIES, v % ENTRIES, Entry(f, perm), r');
      SetEntryPokes(mem, role, freelist, free, end, pd, v / ENTRIES, v % ENTRIES, Entry(f, perm));
      mem := SetWord(mem, t, v % ENTRIES, Entry(f, perm));
      role := r';
    }

    /**
     One turn of the loop of mappages up to its test, for page `v`; `m` and `r` are the state before mappages, and `q`
     pages were unmapped then.
     */
    method Probe(ghost m: Mem, ghost r: Roles, pd: nat, ghost a: nat, ghost k: nat, ghost q: nat, ghost pf: nat,
                 v: nat, ghost perm: nat, ghost n0: nat)
      returns (t: nat, taken: bool)
      requires Valid() && RoleOf(r, pd) == Dir && Mappable(m, r, pd, a, q, pf)
      requires k <= q && v == a + k < ENTRIES * ENTRIES && TakenIf(m, pd, k, q, v)
      requires Mapping(m, r, mem, role, pd, a, k, pf, perm, n0, |free|)
      modifies this
      ensures Valid() && |free| + 1 >= |old(free)| && (taken <==> k == q) && (taken ==> t != 0)
      ensures t == 0 || taken ==> free == old(free) && mem == old(mem) && role == old(role)
      ensures t == 0 ==> free == [] && NoTable(mem, pd, v)
      ensures t != 0 && !taken ==> Walked(m, r, mem, role, pd, a, k, pf, perm, n0, |free|)
      ensures t != 0 && !taken ==> RoleOf(role, pd) == Dir && View(mem, pd, v / ENTRIES, v % ENTRIES) == 0
      ensures t != 0 && !taken ==> Present(Word(mem, pd, v / ENTRIES)) && FrameOf(Word(mem, pd, v / ENTRIES)) == t
      ensures t != 0 && !taken && v < USERPAGES ==> RoleOf(role, pf + k) == Other
    {
      ghost var m1, r1, n1 := mem, role, |free|;
      MappingDir(m, r, mem, role, pd, a, k, q, pf, perm, n0, n1);
      if k == q {
        StillTaken(m, r, mem, role, pd, a, k, q, v, pf, perm, n0, n1);
      }
      t := Walk(pd, v / ENTRIES, true);
      if t == 0 {
        NoTableIs(mem, pd, v);
        return t, false;
      }
      if k < q {
        MappingWalked(m, r, m1, r1, mem, role, pd, a, k, q, v, pf, perm, n0, n1, |free|);
      }
      taken := Present(mem[t][v % ENTRIES]);
    }

    /** One turn of the loop of mappages, for page `v`. */
    method MapOne(ghost m: Mem, ghost r: Roles, pd: nat, ghost a: nat, ghost k: nat, ghost q: nat, ghost pf: nat,
                  v: nat, f: nat, perm: nat, ghost n0: nat)
      returns (res: MapResult)
      requires Valid() && RoleOf(r, pd) == Dir && perm < PGSIZE && Mappable(m, r, pd, a, q, pf)
      requires k <= q && v == a + k < ENTRIES * ENTRIES && f == pf + k && TakenIf(m, pd, k, q, v)
      requires Mapping(m, r, mem, role, pd, a, k, pf, perm, n0, |free|)
      modifies this
      ensures Valid() && |free| + 1 >= |old(free)| && (res.Remap? <==> k == q)
      ensures res.AllMapped? ==> Mapping(m, r, mem, role, pd, a, k + 1, pf, perm, n0, |free|)
      ensures !res.AllMapped? ==> free == old(free) && Mapping(m, r, mem, role, pd, a, k, pf, perm, n0, |free|)
      ensures !res.AllMapped? && k < q ==> free == [] && NoTable(mem, pd, v)
    {
      ghost var m1, r1, n1 := mem, role, |free|;
      var t: nat;
      var taken: bool;
      t, taken := Probe(m, r, pd, a, k, q, pf, v, perm, n0);
      if t == 0 || taken {
        MappingSame(m, r, m1, r1, mem, role, pd, a, k, pf, perm, n0, n1, |free|);
        return if t == 0 then NoFrame else Remap;
      }
      ghost var m2, r2 := mem, role;
      Map(pd, v, t, f, perm);
      MappingPoked(m, r, m2, r2, mem, pd, a, k, v, pf, f, perm, n0, |free|, q);
      res := AllMapped;
    }

    /** The loop of mappages, from page `first` to page `last`; the first `q` of these `n` pages are unmapped. */
    method MapLoop(pd: nat, first: nat, last: nat, frame: nat, perm: nat, ghost n: nat, ghost q: nat, ghost stop: nat)
      returns (res: MapResult, ghost k: nat)
      requires Valid() && RoleOf(role, pd) == Dir && perm < PGSIZE && first <= last < ENTRIES * ENTRIES
      requires first + n == last + 1 && q <= n && Mappable(mem, role, pd, first, q, frame)
      requires stop == first + q && TakenUnless(mem, pd, q, n, stop)
      modifies this
      ensures Valid() && k <= q && (res.NoFrame? <==> k < q) && (res.AllMapped? <==> k == n)
      ensures Mapping(old(mem), old(role), mem, role, pd, first, k, frame, perm, |old(free)|, |free|)
      ensures res.NoFrame? ==> free == []
      ensures |free| + k >= |old(free)|
      ensures Suffice(old(mem), pd, first, k, q, |old(free)|)
    {
      var a, f := first, frame;
      ghost var n0 := |free|;
      k := 0;
      MappingStart(mem, role, pd, a, f, perm, n0);
      while true
        invariant Valid() && first + k == a <= last && f == frame + k && |free| + k >= n0 && k <= q
        invariant Mapping(old(mem), old(role), mem, role, pd, first, k, frame, perm, n0, |free|)
        decreases last - a
      {
        TakenNext(old(mem), pd, first, q, n, stop, k, a);
        res := MapOne(old(mem), old(role), pd, first, k, q, frame, a, f, perm, n0);
        if !res.AllMapped? {
          if k < q {
            MappingDry(old(mem), old(role), mem, role, pd, first, k, q, a, frame, perm, n0, |free|);
          } else {
            MappingDone(old(mem), old(role), mem, role, pd, first, k, frame, perm, n0, |free|, q);
          }
          return;
        }
        k := k + 1;
        if a == last {
          break;
        }
        a, f := a + 1, f + 1;
      }
      MappingDone(old(mem), old(role), mem, role, pd, first, k, frame, perm, n0, |free|, q);
    }

    /**
     mappages: `k` of the pages are mapped when it returns.  It stops at the first page that was mapped before, with a
     panic, unless it runs out of frames on the way.
     */
    method Mappages(pd: nat, va: nat, size: nat, pa: nat, perm: nat) returns (res: MapResult, ghost k: nat)
      requires Valid() && RoleOf(role, pd) == Dir && perm < PGSIZE && pa % PGSIZE == 0
      requires 0 < size && va + size <= WORD32
      requires Usable(role, va / PGSIZE, Leading(mem, pd, va / PGSIZE, PageCount(va, size)), pa / PGSIZE)
      modifies this
      ensures Valid() && Mapped(old(mem), old(role), mem, role, pd, va / PGSIZE, k, pa / PGSIZE, perm)
      ensures var n := PageCount(va, size);
              var q := Leading(old(mem), pd, va / PGSIZE, n);
              && (res.NoFrame? <==> !Affords(old(mem), pd, va / PGSIZE, q, 0, |old(free)|))
              && (res.Remap? ==> k == q < n) && (res.AllMapped? ==> k == q == n) && (res.NoFrame? ==> k < q <= n)
      ensures res.NoFrame? ==> free == []
      ensures |free| + k >= |old(free)|
      ensures !res.NoFrame? ==> Drew(old(mem), mem, pd, Reach(va / PGSIZE, k), 0, |old(free)|, |free|)
    {
      ghost var a, n := va / PGSIZE, PageCount(va, size);
      ghost var q := Leading(mem, pd, a, n);
      LeadingIs(mem, role, pd, a, n, pa / PGSIZE);
      res, k := MapLoop(pd, va / PGSIZE, (va + size - 1) / PGSIZE, pa / PGSIZE, perm, n, q, a + q);
      SufficeMeans(old(mem), pd, a, k, q, |old(free)|);
      MappingMeans(old(mem), old(role), mem, role, pd, va / PGSIZE, k, pa / PGSIZE, perm, |old(free)|, |free|);
    }

    /** mappages for one user page. */
    method MapPage(pd: nat, v: nat, f: nat, perm: nat) returns (ok: bool, ghost k: nat)
      requires Valid() && RoleOf(role, pd) == Dir && perm < PGSIZE && v < USERPAGES && Ready(mem, role, pd, v, f)
      modifies this
      ensures Valid() && k == (if ok then 1 else 0)
      ensures Mapping(old(mem), old(role), mem, role, pd, v, k, f, perm, |old(free)|, |free|)
      ensures !ok ==> free == old(free) == []
      ensures |free| + 1 >= |old(free)|
      ensures ok <==> Affords(old(mem), pd, v, 1, 0, |old(free)|)
    {
      OnePage(v);
      ReadyMeans(mem, role, pd, v, f);
      assert TakenUnless(mem, pd, 1, 1, v + 1);
      var res: MapResult;
      res, k := MapLoop(pd, v, v, f, perm, 1, 1, v + 1);
      SufficeMeans(old(mem), pd, v, k, 1, |old(free)|);
      ok := res == AllMapped;
    }

    /** kalloc, then fill the new page. */
    method NewPage(page: Page) returns (f: nat)
      requires Valid() && |page| == ENTRIES
      modifies this
      ensures Valid() && (f == 0 <==> old(free) == [])
      ensures f == 0 ==> mem == old(mem) && role == old(role) && free == old(free) && freelist == old(freelist)
      ensures f != 0 ==> RoleOf(old(role), f) == Free && f < |old(mem)| && |old(free)| == |free| + 1
      ensures f != 0 ==> mem == SetPage(old(mem), f, page) && role == old(role)[f := Other]
    {
      f := Kalloc();
      if f != 0 {
        SoundStore(mem, role, freelist, free, end, f, page);
        mem := mem[f := page];
      }
    }

    /** kfree of the frame of page `v`, then `*pte = 0`. */
    method Unmap(pd: nat, v: nat, t: nat)
      requires Valid() && RoleOf(role, pd) == Dir && v < USERPAGES
      requires Present(Word(mem, pd, v / ENTRIES)) && FrameOf(Word(mem, pd, v / ENTRIES)) == t
      requires Present(View(mem, pd, v / ENTRIES, v % ENTRIES)) && t < |mem| && |mem[t]| == ENTRIES
      modifies this
      ensures Valid()
      ensures var f := FrameOf(View(old(mem), pd, v / ENTRIES, v % ENTRIES));
              && mem == SetWord(SetPage(old(mem), f, Junk(old(freelist))), t, v % ENTRIES, 0)
              && role == old(role)[f := Free]
    {
      PartsPage(v);
      SoundUnmap(mem, role, freelist, free, end, pd, v / ENTRIES, v % ENTRIES);
      var f := FrameOf(mem[t][v % ENTRIES]);
      FrameShape(mem, role, freelist, free, end, f);
      if f == 0 || f < end || f >= |mem| {
        assert false;
      }
      Link(f);
      mem := SetWord(mem, t, v % ENTRIES, 0);
      role, free := role[f := Free], [f] + free;
    }

    /** One turn of the loop of deallocuvm at page `v`; `next` is where the next turn looks. */
    method DropPage(ghost m: Mem, ghost r: Roles, pd: nat, ghost lo: nat, v: nat, ghost hi: nat) returns (next: nat)
      requires Valid() && RoleOf(r, pd) == Dir && lo <= v < hi <= USERPAGES && Dropped(m, r, mem, role, pd, lo, v)
      modifies this
      ensures Valid() && v < next && Dropped(m, r, mem, role, pd, lo, Min(next, hi))
    {
      ghost var m1, r1, head, list := mem, role, freelist, free;
      DroppedMeans(m, r, mem, role, pd, lo, v);
      RemovedDir(m, r, mem, role, pd, lo, v);
      PartsPage(v);
      var t := Walk(pd, v / ENTRIES, false);
      if t == 0 {
        NoTableUnmapped(mem, pd, v);
        next := PageNo(v / ENTRIES + 1, 0);
        RemovedPass(m, r, mem, role, freelist, free, end, pd, lo, v, Min(next, hi), next);
      } else {
        if Present(mem[t][v % ENTRIES]) {
          Unmap(pd, v, t);
          RemovedOneMore(m, r, m1, r1, mem, head, list, end, pd, lo, v);
        } else {
          AbsentUnmapped(mem, pd, v);
          RemovedPass(m, r, mem, role, freelist, free, end, pd, lo, v, v + 1, v + 1);
        }
        next := v + 1;
      }
      DroppedMeans(m, r, mem, role, pd, lo, Min(next, hi));
    }

    /** deallocuvm: unmaps and frees exactly the mapped pages between the two sizes. */
    method Deallocuvm(pd: nat, oldsz: nat, newsz: nat) returns (sz: nat)
      requires Valid() && RoleOf(role, pd) == Dir && oldsz <= KERNBASE
      modifies this
      ensures Valid()
      ensures newsz >= oldsz ==> sz == oldsz && mem == old(mem) && role == old(role) && free == old(free)
      ensures newsz < oldsz ==> sz == newsz
      ensures newsz < oldsz ==> Removed(old(mem), old(role), mem, role, pd, PageUp(newsz), PageUp(oldsz))
    {
      if newsz >= oldsz {
        return oldsz;
      }
      var v := PageUp(newsz);
      ghost var lo, hi := v, PageUp(oldsz);
      RemovedNothing(mem, role, pd, lo);
      DroppedMeans(mem, role, mem, role, pd, lo, lo);
      while v * PGSIZE < oldsz
        invariant Valid() && lo <= v && lo <= hi <= USERPAGES && (hi - 1) * PGSIZE < oldsz <= hi * PGSIZE
        invariant Dropped(old(mem), old(role), mem, role, pd, lo, Min(v, hi))
        decreases oldsz - v * PGSIZE
      {
        v := DropPage(old(mem), old(role), pd, lo, v, hi);
      }
      DroppedMeans(old(mem), old(role), mem, role, pd, lo, Min(v, hi));
      sz := newsz;
    }

    /**
     One turn of the loop of allocuvm: kalloc, zero and map page `v`; `m` and `r` are the state
     before allocuvm.  If mapping fails, the frame is still held.
     */
    method GrowPage(ghost m: Mem, ghost r: Roles, ghost head0: nat, ghost list0: seq<nat>, pd: nat, ghost lo: nat,
                    v: nat, ghost hi: nat, ghost k: nat, ghost n0: nat)
      returns (f: nat, ok: bool)
      requires Valid() && Sound(m, r, head0, list0, end) && RoleOf(r, pd) == Dir && Unmapped(m, pd, lo, hi)
      requires lo <= v < hi <= USERPAGES && v == lo + k
      requires Growing(m, r, mem, role, pd, lo, k, n0, |free|)
      modifies this
      ensures Valid()
      ensures ok ==> |free| + 2 >= |old(free)|
      ensures !ok ==> |old(free)| <= 1
      ensures ok <==> Affords(old(mem), pd, v, 1, 1, |old(free)|)
      ensures ok ==> Growing(m, r, mem, role, pd, lo, k + 1, n0, |free|)
      ensures !ok && f == 0 ==> mem == old(mem) && role == old(role)
      ensures !ok && f != 0 ==>
              RoleOf(r, f) == Free && Grew(SetPage(m, f, Zeroes()), r[f := Other], mem, role, pd, lo, v)
    {
      ghost var s, x := Snapshot(m, r, head0, list0, end), Snapshot(mem, role, freelist, free, end);
      ghost var n1 := |free|;
      f := NewPage(Zeroes());
      if f == 0 {
        NothingAffords(mem, pd, v, 1);
        return f, false;
      }
      GrowReady(m, r, x, f, pd, lo, k, v, hi, n0, n1);
      AffordsAfter(x.m, mem, pd, v, 1, |free|);
      ghost var n2, one := |free|, 0;
      ok, one := MapPage(pd, v, f, PTE_W + PTE_U);
      if ok {
        GrowNext(m, r, x, f, mem, role, pd, lo, k, v, n0, n1, n2, |free|);
      } else {
        GrowStop(s, x, f, mem, role, pd, lo, k, v, n0, n1, n2, |free|);
      }
    }

    /** The loop of allocuvm; if it stops early, frame `f` may still be held. */
    method GrowPages(pd: nat, ghost lo: nat, start: nat, newsz: nat, ghost hi: nat, ghost n: nat)
      returns (v: nat, f: nat, ok: bool)
      requires Valid() && RoleOf(role, pd) == Dir && lo == start && lo + n == hi <= USERPAGES
      requires (hi - 1) * PGSIZE < newsz <= hi * PGSIZE && Unmapped(mem, pd, lo, hi)
      modifies this
      ensures Valid() && lo <= v <= hi
      ensures ok ==> v == hi && Grew(old(mem), old(role), mem, role, pd, lo, v)
      ensures ok <==> Affords(old(mem), pd, lo, n, n, |old(free)|)
      ensures !ok ==> |old(free)| < 2 * n
      ensures !ok && f == 0 ==> Grew(old(mem), old(role), mem, role, pd, lo, v)
      ensures !ok && f != 0 ==>
        && RoleOf(old(role), f) == Free
        && Grew(SetPage(old(mem), f, Zeroes()), old(role)[f := Other], mem, role, pd, lo, v)
    {
      v := start;
      ghost var n0, k := |free|, 0;
      GrowingStart(mem, role, pd, lo, n0);
      while v * PGSIZE < newsz
        invariant Valid() && k <= n && v == lo + k && |free| + 2 * k >= n0
        invariant Growing(old(mem), old(role), mem, role, pd, lo, k, n0, |free|)
        decreases newsz - v * PGSIZE
      {
        ghost var m1, r1, n1 := mem, role, |free|;
        f, ok := GrowPage(old(mem), old(role), old(freelist), old(free), pd, lo, v, hi, k, n0);
        if !ok {
          GrowingFails(old(mem), old(role), m1, r1, pd, lo, k, n, v, n0, n1);
          return;
        }
        v, k := v + 1, k + 1;
      }
      GrowingGrew(old(mem), old(role), mem, role, pd, lo, k, n, v, n0, |free|);
      f, ok := 0, true;
    }

    /**
     allocuvm: the pages between the two sizes are new and zeroed; on failure every page is mapped
     as before.
     */
    method Allocuvm(pd: nat, oldsz: nat, newsz: nat) returns (sz: nat)
      requires Valid() && RoleOf(role, pd) == Dir
      requires oldsz <= newsz < KERNBASE ==> Unmapped(mem, pd, PageUp(oldsz), PageUp(newsz))
      modifies this
      ensures Valid()
      ensures newsz >= KERNBASE ==> sz == 0
      ensures newsz < KERNBASE && newsz < oldsz ==> sz == oldsz
      ensures newsz >= KERNBASE || newsz < oldsz ==> mem == old(mem) && role == old(role) && free == old(free)
      ensures oldsz <= newsz < KERNBASE && Frames(old(mem), pd, PageUp(oldsz), PageUp(newsz)) <= |old(free)| ==>
        sz == newsz && Grown(old(mem), old(role), mem, role, pd, PageUp(oldsz), PageUp(newsz))
      ensures oldsz <= newsz < KERNBASE && Frames(old(mem), pd, PageUp(oldsz), PageUp(newsz)) > |old(free)| ==>
        sz == 0 && Quiet(old(mem), old(role), mem, role, pd) && |old(free)| < 2 * (PageUp(newsz) - PageUp(oldsz))
    {
      if newsz >= KERNBASE {
        return 0;
      }
      if newsz < oldsz {
        return oldsz;
      }
      ghost var lo, hi := PageUp(oldsz), PageUp(newsz);
      ghost var n := hi - lo;
      FramesMeans(mem, pd, lo, hi, n, |free|);
      var v, f, ok := GrowPages(pd, lo, PageUp(oldsz), newsz, hi, n);
      GrewMeans(old(mem), old(role), mem, role, pd, lo, v);
      if ok {
        return newsz;
      }
      ghost var m1, r1 := mem, role;
      if f == 0 {
        GrownDir(old(mem), old(role), mem, role, pd, lo, v);
        var _ := Deallocuvm(pd, newsz, oldsz);
        GrowthUndone(old(mem), old(role), old(freelist), old(free), end, m1, r1, mem, role, pd, lo, v, hi);
      } else {
        GrewMeans(SetPage(old(mem), f, Zeroes()), old(role)[f := Other], mem, role, pd, lo, v);
        GrownDir(SetPage(old(mem), f, Zeroes()), old(role)[f := Other], mem, role, pd, lo, v);
        var _ := Deallocuvm(pd, newsz, oldsz);
        ghost var s := Snapshot(old(mem), old(role), old(freelist), old(free), end);
        ghost var x := Snapshot(mem, role, freelist, free, end);
        PageUndone(s, f, Zeroes(), m1, r1, x, Junk(freelist), pd, lo, v, hi);
        Kfree(f);
      }
      sz := 0;
    }

    /** freerange: every whole page between the two addresses becomes free. */
    method Freerange(vstart: nat, vend: nat)
      requires Valid() && forall f | PageUp(vstart) <= f < vend / PGSIZE :: RoleOf(role, f) == Other
      modifies this
      ensures Valid()
      ensures forall f: nat ::
                RoleOf(role, f) == if PageUp(vstart) <= f < vend / PGSIZE then Free else RoleOf(old(role), f)
      ensures forall f: nat | RoleOf(role, f) != Free :: PageAt(mem, f) == PageAt(old(mem), f)
    {
      var p := PageUp(vstart);
      while p * PGSIZE + PGSIZE <= vend
        invariant Valid() && PageUp(vstart) <= p
        invariant p <= vend / PGSIZE || p == PageUp(vstart)
        invariant forall f: nat :: RoleOf(role, f) == if PageUp(vstart) <= f < p then Free else RoleOf(old(role), f)
        invariant forall f: nat | RoleOf(role, f) != Free :: PageAt(mem, f) == PageAt(old(mem), f)
        decreases vend - p * PGSIZE
      {
        ghost var r1 := role;
        Kfree(p);
        forall f: nat ensures RoleOf(role, f) == if f == p then Free else RoleOf(r1, f) {
        }
        p := p + 1;
      }
    }

    /** freevm: every frame of the address space goes back to the free list, once. */
    method Freevm(pd: nat)
      requires Valid() && RoleOf(role, pd) == Dir
      modifies this
      ensures Valid() && Freed(old(mem), old(role), mem, role, pd)
    {
      var _ := Deallocuvm(pd, KERNBASE, 0);
      ghost var m1, r1, head, list := mem, role, freelist, free;
      NoUserLeft(old(mem), old(role), mem, role, pd);
      SoundDoom(mem, role, freelist, free, end, pd);
      TornNothing(mem, role, pd);
      role := role[pd := Doomed];
      var i := 0;
      while i < ENTRIES
        invariant Valid() && i <= ENTRIES
        invariant Torn(m1, r1, mem, role, pd, i)
      {
        TornTable(m1, r1, head, list, end, mem, role, pd, i);
        FrameShape(mem, role, freelist, free, end, pd);
        if Present(mem[pd][i]) {
          var t := FrameOf(mem[pd][i]);
          TornOneMore(m1, r1, mem, role, freelist, free, end, pd, i, t, Junk(freelist));
          Kfree(t);
        } else {
          TornPass(m1, r1, mem, role, freelist, free, end, pd, i);
        }
        i := i + 1;
      }
      TornLoose(m1, r1, mem, role, freelist, free, end, pd);
      FreedAll(old(mem), old(role), m1, r1, old(freelist), old(free), end, mem, role, freelist, free, pd,
               Junk(freelist));
      Kfree(pd);
    }

    /** mappages for row `k` of kmap. */
    method MapRow(ghost m: Mem, ghost r: Roles, pd: nat, km: seq<Kmap>, k: nat, ghost m0: Mem, ghost n0: nat)
      returns (ok: bool)
      requires Valid() && KmapOk(km) && k < |km|
      requires Rows(m, r, mem, role, pd, km, k, m0, n0, |free|)
      modifies this
      ensures Valid() && (!ok ==> Building(m, r, mem, role, pd))
      ensures ok ==> Rows(m, r, mem, role, pd, km, k + 1, m0, n0, |free|)
      ensures !ok ==> n0 < |KernelDirs(km, |km|)|
    {
      RowsMeans(m, r, mem, role, pd, km, k, m0, n0, |free|);
      ghost var m1, r1, n1 := mem, role, |free|;
      AlignedCount(km[k].virt, Size(km[k]));
      BuiltDir(r, role, m, mem, pd);
      RowMappable(mem, role, pd, km, k);
      MappableLeads(mem, role, pd, km[k].virt / PGSIZE, PageCount(km[k].virt, Size(km[k])), km[k].physStart / PGSIZE);
      var res: MapResult;
      ghost var n;
      res, n := Mappages(pd, km[k].virt, Size(km[k]), km[k].physStart, km[k].perm);
      ok := res == AllMapped;
      BuiltKernel(m, r, m1, r1, mem, role, pd, km[k].virt / PGSIZE, n, km[k].physStart / PGSIZE, km[k].perm);
      if ok {
        RowMapped(m1, r1, mem, role, pd, km, k);
        RowDrew(m0, m1, mem, pd, km, k, n0, n1, |free|);
        RowsFold(m, r, mem, role, pd, km, k + 1, m0, n0, |free|);
      } else {
        BuildingMeans(m, r, mem, role, pd);
        RowFails(m0, m1, pd, km, k, km[k].virt / PGSIZE, Size(km[k]) / PGSIZE, n0, n1);
      }
    }

    /** The start of setupkvm: an empty directory. */
    method NewDir(ghost km: seq<Kmap>) returns (pd: nat)
      requires Valid()
      modifies this
      ensures Valid() && (pd == 0 <==> old(free) == [])
      ensures pd == 0 ==> mem == old(mem) && role == old(role)
      ensures pd != 0 ==> |old(free)| == |free| + 1
      ensures pd != 0 ==> Rows(old(mem), old(role), mem, role, pd, km, 0, mem, |free|, |free|)
    {
      pd := NewPage(Zeroes());
      if pd != 0 {
        BuiltStart(old(mem), old(role), old(freelist), old(free), end, pd, Zeroes());
        SoundNewDir(mem, role, freelist, free, end, pd);
        role := role[pd := Dir];
        assert role == old(role)[pd := Dir];
        RowsStart(old(mem), old(role), mem, role, pd, km, |free|);
      }
    }

    /** setupkvm for any table: a new directory with its mappings, or 0 and every frame where it was. */
    method SetupRows(km: seq<Kmap>) returns (pd: nat)
      requires Valid() && KmapOk(km)
      modifies this
      ensures Valid()
      ensures pd == 0 ==> Restored(old(mem), old(role), mem, role)
      ensures pd != 0 ==> Built(old(mem), old(role), mem, role, pd) && KernelViews(mem, pd, km, |km|)
      ensures pd == 0 <==> |old(free)| < 1 + |KernelDirs(km, |km|)|
      ensures pd != 0 ==> Dirs(mem, pd) == KernelDirs(km, |km|) && |old(free)| == |free| + 1 + |KernelDirs(km, |km|)|
    {
      pd := NewDir(km);
      if pd == 0 {
        return;
      }
      ghost var m0, n0 := mem, |free|;
      var k := 0;
      while k < |km|
        invariant Valid() && k <= |km|
        invariant Rows(old(mem), old(role), mem, role, pd, km, k, m0, n0, |free|)
      {
        var ok := MapRow(old(mem), old(role), pd, km, k, m0, n0);
        if !ok {
          pd := Abandon(old(mem), old(role), old(freelist), old(free), pd);
          return;
        }
        k := k + 1;
      }
      RowsDone(old(mem), old(role), mem, role, pd, km, k, m0, n0, |free|);
    }

    /** setupkvm: the kernel's pages and nothing else, in 65 frames. */
    method Setupkvm(data: nat) returns (pd: nat)
      requires Valid() && DataOk(data)
      modifies this
      ensures Valid()
      ensures pd == 0 <==> |old(free)| < 65
      ensures pd == 0 ==> Restored(old(mem), old(role), mem, role)
      ensures pd != 0 ==> Built(old(mem), old(role), mem, role, pd) && KernelPages(mem, pd, data, 0)
      ensures pd != 0 ==> KernelViews(mem, pd, KernelMap(data), 4) && |old(free)| == |free| + 65
      ensures pd != 0 ==> Dirs(mem, pd) == KernelDirs(KernelMap(data), 4)
    {
      KernelMapOk(data);
      KernelTables(data);
      pd := SetupRows(KernelMap(data));
      if pd != 0 {
        KernelPagesOf(mem, pd, data);
      }
    }

    /** clearpteu: the page stays mapped to its frame, without the user bit. */
    method Clearpteu(pd: nat, v: nat)
      requires Valid() && RoleOf(role, pd) == Dir && v < ENTRIES * ENTRIES && Present(Word(mem, pd, v / ENTRIES))
      modifies this
      ensures Valid() && role == old(role)
      ensures Poked(old(mem), role, mem, pd, v / ENTRIES, v % ENTRIES,
                    WithoutU(View(old(mem), pd, v / ENTRIES, v % ENTRIES)))
    {
      PartsPage(v);
      var t := Walk(pd, v / ENTRIES, false);
      if t == 0 {
        assert false;
      }
      var e := mem[t][v % ENTRIES];
      WithoutUParts(e);
      SoundSetEntry(mem, role, freelist, free, end, pd, v / ENTRIES, v % ENTRIES, WithoutU(e), role);
      SetEntryPokes(mem, role, freelist, free, end, pd, v / ENTRIES, v % ENTRIES, WithoutU(e));
      mem := SetWord(mem, t, v % ENTRIES, WithoutU(e));
    }

    /** One turn of the loop of copyuvm; `m` and `r` are the state before copyuvm. */
    method CopyPage(ghost m: Mem, ghost r: Roles, ghost head0: nat, ghost list0: seq<nat>, pd: nat, d: nat, v: nat,
                    ghost km: seq<Kmap>, ghost n: nat, ghost m0: Mem, ghost n0: nat)
      returns (ok: bool)
      requires Valid() && Sound(m, r, head0, list0, end) && RoleOf(r, pd) == Dir && KmapOk(km)
      requires PagesPresent(m, pd, n) && v < n <= USERPAGES
      requires Copies(m, r, mem, role, pd, d, km, v, m0, n0, |free|)
      modifies this
      ensures Valid() && (!ok ==> Building(m, r, mem, role, d))
      ensures ok ==> Copies(m, r, mem, role, pd, d, km, v + 1, m0, n0, |free|)
      ensures ok <==> Affords(old(mem), d, v, 1, 1, |old(free)|)
    {
      ghost var s, x := Snapshot(m, r, head0, list0, end), Snapshot(mem, role, freelist, free, end);
      ghost var n1 := |free|;
      PagePresent(m, pd, n, v);
      CopyParent(s, mem, role, pd, d, km, v, m0, n0, n1);
      var t := Walk(pd, v / ENTRIES, false);
      if t == 0 || !Present(mem[t][v % ENTRIES]) {
        assert false;
      }
      var e := mem[t][v % ENTRIES];
      FrameShape(mem, role, freelist, free, end, FrameOf(e));
      FlagsPresent(e);
      var page := mem[FrameOf(e)];
      var f := NewPage(page);
      if f == 0 {
        NothingAffords(mem, d, v, 1);
        return false;
      }
      CopyReady(m, r, x, f, page, pd, d, km, v, m0, n0, n1);
      AffordsAfter(x.m, mem, d, v, 1, |free|);
      ghost var n2, one := |free|, 0;
      ok, one := MapPage(d, v, f, Flags(e));
      if ok {
        CopyNext(s, x, f, page, mem, role, pd, d, km, v, e, m0, n0, n1, n2, |free|);
      } else {
        ghost var y := Snapshot(mem, role, freelist, free, end);
        CopyStop(m, r, x, f, page, y, pd, d, km, v, e, m0, n0, n1, n2);
        Kfree(f);
      }
    }

    /** The loop of copyuvm; `m` and `r` are the state before copyuvm, `m0` and `n0` before the loop. */
    method CopyPages(ghost m: Mem, ghost r: Roles, ghost head0: nat, ghost list0: seq<nat>, pd: nat, d: nat, sz: nat,
                     ghost km: seq<Kmap>, ghost n: nat, ghost m0: Mem, ghost n0: nat)
      returns (ok: bool)
      requires Valid() && Sound(m, r, head0, list0, end) && RoleOf(r, pd) == Dir && KmapOk(km)
      requires (n - 1) * PGSIZE < sz <= n * PGSIZE && n <= USERPAGES && PagesPresent(m, pd, n)
      requires Copies(m, r, mem, role, pd, d, km, 0, m0, n0, |free|)
      modifies this
      ensures Valid() && (!ok ==> Building(m, r, mem, role, d))
      ensures ok ==> Copies(m, r, mem, role, pd, d, km, n, m0, n0, |free|)
      ensures ok <==> Affords(m0, d, 0, n, n, n0)
    {
      var v := 0;
      while v * PGSIZE < sz
        invariant Valid() && v <= n
        invariant Copies(m, r, mem, role, pd, d, km, v, m0, n0, |free|)
        decreases sz - v * PGSIZE
      {
        ghost var m1, r1, n1 := mem, role, |free|;
        ok := CopyPage(m, r, head0, list0, pd, d, v, km, n, m0, n0);
        if !ok {
          CopiesFail(m, r, m1, r1, pd, d, km, v, n, m0, n0, n1);
          return;
        }
        v := v + 1;
      }
      CopiesDone(m, r, mem, role, pd, d, km, v, n, m0, n0, |free|);
      ok := true;
    }

    /**
     copyuvm: a new address space whose pages below `sz` are copies, or 0 and every frame where it
     was.  Its panics are unreachable.
     */
    method Copyuvm(pd: nat, sz: nat, data: nat) returns (d: nat)
      requires Valid() && RoleOf(role, pd) == Dir && sz <= KERNBASE && DataOk(data)
      requires PagesPresent(mem, pd, PageUp(sz))
      modifies this
      ensures Valid()
      ensures d == 0 <==> |old(free)| < 65 + PageUp(sz) + TablesFor(PageUp(sz))
      ensures d == 0 ==> Restored(old(mem), old(role), mem, role)
      ensures d != 0 ==> Built(old(mem), old(role), mem, role, d)
      ensures d != 0 ==> Copied(old(mem), old(role), mem, pd, d, KernelMap(data), PageUp(sz))
      ensures d != 0 ==> KernelPages(mem, d, data, PageUp(sz))
    {
      ghost var km := KernelMap(data);
      KernelMapOk(data);
      d := Setupkvm(data);
      if d == 0 {
        return;
      }
      ghost var m0, n0, n := mem, |free|, PageUp(sz);
      CopiesStart(old(mem), old(role), mem, role, pd, d, km, n0);
      LowLacking(m0, d, km, n);
      AffordsMeans(m0, d, 0, n, n, n0);
      var ok := CopyPages(old(mem), old(role), old(freelist), old(free), pd, d, sz, km, n, m0, n0);
      if ok {
        CopiesMeans(old(mem), old(role), mem, role, pd, d, km, n, m0, n0, |free|);
        CopiedKernel(old(mem), old(role), mem, pd, d, data, n);
      } else {
        d := Abandon(old(mem), old(role), old(freelist), old(free), d);
      }
    }

    /** freevm of an unfinished address space: the frames return to where they were. */
    method Abandon(ghost m: Mem, ghost r: Roles, ghost head: nat, ghost list: seq<nat>, d: nat) returns (z: nat)
      requires Valid() && Sound(m, r, head, list, end) && Building(m, r, mem, role, d)
      modifies this
      ensures Valid() && Restored(m, r, mem, role) && z == 0
    {
      ghost var m1, r1 := mem, role;
      BuildingMeans(m, r, mem, role, d);
      BuiltDir(r, role, m, mem, d);
      Freevm(d);
      BuiltThenFreed(m, r, head, list, end, m1, r1, mem, role, d);
      z := 0;
    }
  }

  lemma FrameShape(m: Mem, r: Roles, head: nat, free: seq<nat>, end: nat, f: nat)
    requires Sound(m, r, head, free, end) && f in r
    ensures 0 < end <= f < |m| && |m[f]| == ENTRIES
  {
    assert Look(0);
  }

  /** The frames that the pages from `lo` up to `hi` need: one each, and the tables that `pd` lacks. */
  function Frames(m: Mem, pd: nat, lo: nat, hi: nat): nat {
    if lo <= hi then hi - lo + Lacking(m, pd, lo, hi - lo) else 0
  }

  lemma FramesMeans(m: Mem, pd: nat, lo: nat, hi: nat, n: nat, f: nat)
    requires hi == lo + n
    ensures Frames(m, pd, lo, hi) <= f <==> Affords(m, pd, lo, n, n, f)
  {
    AffordsMeans(m, pd, lo, n, n, f);
  }

  // ----- folded invariants of the loops

  /** `Removed`, folded. */
  ghost predicate Dropped(m: Mem, r: Roles, m': Mem, r': Roles, pd: nat, lo: nat, v: nat) {
    forall l | Look(l) :: Removed(m, r, m', r', pd, lo, v)
  }

  lemma DroppedMeans(m: Mem, r: Roles, m': Mem, r': Roles, pd: nat, lo: nat, v: nat)
    ensures Dropped(m, r, m', r', pd, lo, v) <==> Removed(m, r, m', r', pd, lo, v)
  {
    assert Look(0);
  }

  /** Inside mappages, after `k` pages. */
  ghost predicate Mapping(m: Mem, r: Roles, m': Mem, r': Roles, pd: nat, a: nat, k: nat, f: nat, perm: nat, n0: nat,
                          n: nat)
  {
    forall l | Look(l) :: Mapped(m, r, m', r', pd, a, k, f, perm) && Drew(m, m', pd, Reach(a, k), 0, n0, n)
  }

  lemma MappingFold(m: Mem, r: Roles, m': Mem, r': Roles, pd: nat, a: nat, k: nat, f: nat, perm: nat, n0: nat, n: nat)
    requires Mapped(m, r, m', r', pd, a, k, f, perm) && Drew(m, m', pd, Reach(a, k), 0, n0, n)
    ensures Mapping(m, r, m', r', pd, a, k, f, perm, n0, n)
  {
  }

  lemma MappingMeans(m: Mem, r: Roles, m': Mem, r': Roles, pd: nat, a: nat, k: nat, f: nat, perm: nat, n0: nat, n: nat)
    requires Mapping(m, r, m', r', pd, a, k, f, perm, n0, n)
    ensures Mapped(m, r, m', r', pd, a, k, f, perm) && Drew(m, m', pd, Reach(a, k), 0, n0, n)
  {
    assert Look(0);
  }

  lemma MappingStart(m: Mem, r: Roles, pd: nat, a: nat, f: nat, perm: nat, n: nat)
    ensures Mapping(m, r, m, r, pd, a, 0, f, perm, n, n)
  {
    MappedNothing(m, r, pd, a, f, perm);
    DrewTables(m, m, pd, 0, n);
  }

  /** mappages gets to the end of `q` unmapped pages exactly if there are frames enough for their tables; folded. */
  ghost predicate Suffice(m: Mem, pd: nat, a: nat, k: nat, q: nat, n: nat) {
    forall l | Look(l) :: k == q <==> Affords(m, pd, a, q, 0, n)
  }

  lemma SufficeMeans(m: Mem, pd: nat, a: nat, k: nat, q: nat, n: nat)
    requires Suffice(m, pd, a, k, q, n)
    ensures k == q <==> Affords(m, pd, a, q, 0, n)
  {
    assert Look(0);
  }

  lemma MappingSame(m: Mem, r: Roles, m1: Mem, r1: Roles, m2: Mem, r2: Roles, pd: nat, a: nat, k: nat, f: nat,
                    perm: nat, n0: nat, n1: nat, n2: nat)
    requires Mapping(m, r, m1, r1, pd, a, k, f, perm, n0, n1) && m2 == m1 && r2 == r1 && n2 == n1
    ensures Mapping(m, r, m2, r2, pd, a, k, f, perm, n0, n2)
  {
  }

  lemma MappingDry(m: Mem, r: Roles, m': Mem, r': Roles, pd: nat, a: nat, k: nat, n: nat, v: nat, f: nat, perm: nat,
                   n0: nat, n1: nat)
    requires Mapping(m, r, m', r', pd, a, k, f, perm, n0, n1) && n1 == 0
    requires k < n && v == a + k && NoTable(m', pd, v)
    ensures Suffice(m, pd, a, k, n, n0)
  {
    NoTableMeans(m', pd, v);
    MappingMeans(m, r, m', r', pd, a, k, f, perm, n0, n1);
    DrewDry(m, m', pd, a, k, n, n0);
  }

  lemma MappingDone(m: Mem, r: Roles, m': Mem, r': Roles, pd: nat, a: nat, k: nat, f: nat, perm: nat, n0: nat, n: nat,
                    q: nat)
    requires Mapping(m, r, m', r', pd, a, k, f, perm, n0, n) && k == q
    ensures Suffice(m, pd, a, k, q, n0)
  {
    MappingMeans(m, r, m', r', pd, a, k, f, perm, n0, n);
    DrewEnough(m, m', pd, a, k, 0, n0, n);
  }

  lemma MappingDir(m: Mem, r: Roles, m': Mem, r': Roles, pd: nat, a: nat, k: nat, n: nat, f: nat, perm: nat, n0: nat,
                   n1: nat)
    requires Mapping(m, r, m', r', pd, a, k, f, perm, n0, n1) && RoleOf(r, pd) == Dir && Mappable(m, r, pd, a, n, f)
    requires k <= n
    ensures RoleOf(r', pd) == Dir
  {
    MappingMeans(m, r, m', r', pd, a, k, f, perm, n0, n1);
    StillDir(m, r, m', r', pd, a, k, f, perm);
  }

  /** Directory `pd` has no table for page `v`, folded. */
  ghost predicate NoTable(m: Mem, pd: nat, v: nat) {
    forall l | Look(l) :: v / ENTRIES !in Dirs(m, pd)
  }

  lemma NoTableIs(m: Mem, pd: nat, v: nat)
    requires !Present(Word(m, pd, v / ENTRIES))
    ensures NoTable(m, pd, v)
  {
    NotInDirs(m, pd, v / ENTRIES);
  }

  lemma NoTableMeans(m: Mem, pd: nat, v: nat)
    requires NoTable(m, pd, v)
    ensures v / ENTRIES !in Dirs(m, pd)
  {
    assert Look(0);
  }

  /** Page `v` is mapped, folded. */
  ghost predicate Taken(m: Mem, pd: nat, v: nat) {
    forall l | Look(l) :: Present(View(m, pd, v / ENTRIES, v % ENTRIES))
  }

  /** Page `v`, after `k` pages, is mapped if `q` pages were unmapped; folded. */
  ghost predicate TakenIf(m: Mem, pd: nat, k: nat, q: nat, v: nat) {
    forall l | Look(l) :: k == q ==> Taken(m, pd, v)
  }

  /** Page `v`, after `q` unmapped pages of `n`, is mapped unless these are all; folded. */
  ghost predicate TakenUnless(m: Mem, pd: nat, q: nat, n: nat, v: nat) {
    forall l | Look(l) :: q < n ==> Taken(m, pd, v)
  }

  lemma TakenNext(m: Mem, pd: nat, a: nat, q: nat, n: nat, stop: nat, k: nat, v: nat)
    requires TakenUnless(m, pd, q, n, stop) && stop == a + q && v == a + k && k < n
    ensures TakenIf(m, pd, k, q, v)
  {
    assert Look(0);
  }

  /** A page after those that mappages has mapped is still mapped. */
  lemma StillTaken(m: Mem, r: Roles, m': Mem, r': Roles, pd: nat, a: nat, k: nat, q: nat, v: nat, f: nat, perm: nat,
                   n0: nat, n1: nat)
    requires Mapping(m, r, m', r', pd, a, k, f, perm, n0, n1) && RoleOf(r, pd) == Dir
    requires TakenIf(m, pd, k, q, v) && k == q && v == a + k < ENTRIES * ENTRIES
    ensures Present(View(m', pd, v / ENTRIES, v % ENTRIES)) && Present(Word(m', pd, v / ENTRIES))
  {
    MappingMeans(m, r, m', r', pd, a, k, f, perm, n0, n1);
    assert Look(0);
    PartsPage(v);
    assert ViewMapped(m, m', pd, a, k, f, perm, pd, v / ENTRIES, v % ENTRIES);
  }

  /** How many of the `n` pages from page `a` come before the first that is mapped. */
  ghost function Leading(m: Mem, pd: nat, a: nat, n: nat): (q: nat)
    ensures q <= n
    decreases n
  {
    if n == 0 || Taken(m, pd, a) then 0 else 1 + Leading(m, pd, a + 1, n - 1)
  }

  /** The frames for user pages are the caller's. */
  ghost predicate Usable(r: Roles, a: nat, n: nat, f: nat) {
    forall g: nat | f <= g < f + n && a + g - f < USERPAGES :: RoleOf(r, g) == Other
  }

  lemma LeadingIs(m: Mem, r: Roles, pd: nat, a: nat, n: nat, f: nat)
    requires Usable(r, a, Leading(m, pd, a, n), f)
    ensures var q := Leading(m, pd, a, n); Mappable(m, r, pd, a, q, f) && TakenUnless(m, pd, q, n, a + q)
  {
    LeadingPages(m, pd, a, n);
    var q := Leading(m, pd, a, n);
    forall i: nat, j: nat | i < ENTRIES && j < ENTRIES && a <= PageNo(i, j) < a + q ensures View(m, pd, i, j) == 0 {
      var v := PageNo(i, j);
      assert v / ENTRIES == i && v % ENTRIES == j;
      assert !Taken(m, pd, v);
    }
  }

  lemma {:induction false} LeadingPages(m: Mem, pd: nat, a: nat, n: nat)
    ensures var q := Leading(m, pd, a, n);
            && (forall v: nat | a <= v < a + q :: !Taken(m, pd, v)) && (q < n ==> Taken(m, pd, a + q))
    decreases n
  {
    if n > 0 && !Taken(m, pd, a) {
      LeadingPages(m, pd, a + 1, n - 1);
    }
  }

  lemma {:induction false} MappableLeads(m: Mem, r: Roles, pd: nat, a: nat, n: nat, f: nat)
    requires Mappable(m, r, pd, a, n, f) && a + n <= ENTRIES * ENTRIES
    ensures Leading(m, pd, a, n) == n && Usable(r, a, n, f)
    decreases n
  {
    if n > 0 {
      PartsPage(a);
      assert View(m, pd, a / ENTRIES, a % ENTRIES) == 0;
      assert Look(0);
      MappableLeads(m, r, pd, a + 1, n - 1, f + 1);
    }
  }

  /** Inside mappages, after walkpgdir for page `a + k`. */
  ghost predicate Walked(m: Mem, r: Roles, m': Mem, r': Roles, pd: nat, a: nat, k: nat, f: nat, perm: nat, n0: nat,
                         n: nat)
  {
    forall l | Look(l) :: Mapped(m, r, m', r', pd, a, k, f, perm) && Drew(m, m', pd, Reach(a, k + 1), 0, n0, n)
  }

  lemma WalkedMeans(m: Mem, r: Roles, m': Mem, r': Roles, pd: nat, a: nat, k: nat, f: nat, perm: nat, n0: nat, n: nat)
    requires Walked(m, r, m', r', pd, a, k, f, perm, n0, n)
    ensures Mapped(m, r, m', r', pd, a, k, f, perm) && Drew(m, m', pd, Reach(a, k + 1), 0, n0, n)
  {
    assert Look(0);
  }

  lemma MappingWalked(m: Mem, r: Roles, m1: Mem, r1: Roles, m2: Mem, r2: Roles, pd: nat, a: nat, k: nat, n: nat, v: nat,
                      f: nat, perm: nat, n0: nat, n1: nat, n2: nat)
    requires Mapping(m, r, m1, r1, pd, a, k, f, perm, n0, n1) && Quiet(m1, r1, m2, r2, pd)
    requires RoleOf(r, pd) == Dir && Mappable(m, r, pd, a, n, f) && k < n && v == a + k < ENTRIES * ENTRIES
    requires Drew(m1, m2, pd, {v / ENTRIES}, 0, n1, n2)
    ensures Walked(m, r, m2, r2, pd, a, k, f, perm, n0, n2)
    ensures RoleOf(r2, pd) == Dir && View(m2, pd, v / ENTRIES, v % ENTRIES) == 0
    ensures v < USERPAGES ==> RoleOf(r2, f + k) == Other
  {
    MappingMeans(m, r, m1, r1, pd, a, k, f, perm, n0, n1);
    DrewThen(m, m1, m2, pd, Reach(a, k), 0, {v / ENTRIES}, 0, n0, n1, n2);
    ReachNext(a, k, v);
    MappedQuiet(m, r, m1, r1, m2, r2, pd, a, k, f, perm);
    NextIsUnmapped(m, r, m2, r2, pd, a, k, n, f, perm);
  }

  lemma MappingPoked(m: Mem, r: Roles, m2: Mem, r2: Roles, m3: Mem, pd: nat, a: nat, k: nat, v: nat, pf: nat, f: nat,
                     perm: nat, n0: nat, n: nat, c: nat)
    requires Walked(m, r, m2, r2, pd, a, k, pf, perm, n0, n) && RoleOf(r, pd) == Dir && v == a + k && f == pf + k
    requires Poked(m2, r2, m3, pd, v / ENTRIES, v % ENTRIES, Entry(f, perm)) && PageAt(m3, pd) == PageAt(m2, pd)
    requires v < ENTRIES * ENTRIES && perm < PGSIZE && (v < USERPAGES ==> RoleOf(r2, f) == Other)
    requires Mappable(m, r, pd, a, c, pf) && k < c
    ensures Mapping(m, r, m3, OneMapped(r2, pd, v, f), pd, a, k + 1, pf, perm, n0, n)
  {
    WalkedMeans(m, r, m2, r2, pd, a, k, pf, perm, n0, n);
    MappedOneMore(m, r, m2, r2, m3, pd, a, k, pf, perm);
    DrewMore(m, m2, m3, pd, Reach(a, k + 1), 0, n0, n, n, 0);
    MappingFold(m, r, m3, OneMapped(r2, pd, v, f), pd, a, k + 1, pf, perm, n0, n);
  }

  /** `Grown`, folded. */
  ghost predicate Grew(m: Mem, r: Roles, m': Mem, r': Roles, pd: nat, lo: nat, hi: nat) {
    forall l | Look(l) :: Grown(m, r, m', r', pd, lo, hi)
  }

  lemma GrewMeans(m: Mem, r: Roles, m': Mem, r': Roles, pd: nat, lo: nat, hi: nat)
    ensures Grew(m, r, m', r', pd, lo, hi) <==> Grown(m, r, m', r', pd, lo, hi)
  {
    assert Look(0);
  }

  lemma GrowingGrew(m: Mem, r: Roles, m': Mem, r': Roles, pd: nat, lo: nat, k: nat, n: nat, v: nat, n0: nat, n1: nat)
    requires Growing(m, r, m', r', pd, lo, k, n0, n1) && v == lo + k && k == n
    ensures Grew(m, r, m', r', pd, lo, v) && Affords(m, pd, lo, n, n, n0)
  {
    GrowingMeans(m, r, m', r', pd, lo, k, v, n0, n1);
    DrewEnough(m, m', pd, lo, n, n, n0, n1);
  }

  lemma GrowingFails(m: Mem, r: Roles, m': Mem, r': Roles, pd: nat, lo: nat, k: nat, n: nat, v: nat, n0: nat, n1: nat)
    requires Growing(m, r, m', r', pd, lo, k, n0, n1) && v == lo + k && k < n && !Affords(m', pd, v, 1, 1, n1)
    ensures Grew(m, r, m', r', pd, lo, v) && !Affords(m, pd, lo, n, n, n0)
  {
    GrowingMeans(m, r, m', r', pd, lo, k, v, n0, n1);
    StretchFails(m, m', pd, lo, k, n, v, n0, n1);
  }

  /** Inside allocuvm, after `k` pages. */
  ghost predicate Growing(m: Mem, r: Roles, m': Mem, r': Roles, pd: nat, lo: nat, k: nat, n0: nat, n: nat) {
    forall l | Look(l) :: Grown(m, r, m', r', pd, lo, lo + k) && Drew(m, m', pd, Reach(lo, k), k, n0, n)
  }

  lemma GrowingFold(m: Mem, r: Roles, m': Mem, r': Roles, pd: nat, lo: nat, k: nat, v: nat, n0: nat, n: nat)
    requires Grown(m, r, m', r', pd, lo, v) && Drew(m, m', pd, Reach(lo, k), k, n0, n) && v == lo + k
    ensures Growing(m, r, m', r', pd, lo, k, n0, n)
  {
  }

  lemma GrowingMeans(m: Mem, r: Roles, m': Mem, r': Roles, pd: nat, lo: nat, k: nat, v: nat, n0: nat, n: nat)
    requires Growing(m, r, m', r', pd, lo, k, n0, n) && v == lo + k
    ensures Grown(m, r, m', r', pd, lo, v) && Drew(m, m', pd, Reach(lo, k), k, n0, n)
  {
    GrowingOpen(m, r, m', r', pd, lo, k, n0, n);
    GrownAt(m, r, m', r', pd, lo, lo + k, v);
  }

  lemma GrowingOpen(m: Mem, r: Roles, m': Mem, r': Roles, pd: nat, lo: nat, k: nat, n0: nat, n: nat)
    requires Growing(m, r, m', r', pd, lo, k, n0, n)
    ensures Grown(m, r, m', r', pd, lo, lo + k) && Drew(m, m', pd, Reach(lo, k), k, n0, n)
  {
    assert Look(0);
  }

  lemma GrownAt(m: Mem, r: Roles, m': Mem, r': Roles, pd: nat, lo: nat, a: nat, v: nat)
    requires Grown(m, r, m', r', pd, lo, a) && a == v
    ensures Grown(m, r, m', r', pd, lo, v)
  {
  }

  lemma GrowingStart(m: Mem, r: Roles, pd: nat, lo: nat, n: nat)
    ensures Growing(m, r, m, r, pd, lo, 0, n, n)
  {
    GrownNothing(m, r, pd, lo);
    DrewTables(m, m, pd, 0, n);
  }

  /** `Built`, folded. */
  ghost predicate Building(m: Mem, r: Roles, m': Mem, r': Roles, d: nat) {
    forall l | Look(l) :: Built(m, r, m', r', d)
  }

  lemma BuildingMeans(m: Mem, r: Roles, m': Mem, r': Roles, d: nat)
    ensures Building(m, r, m', r', d) <==> Built(m, r, m', r', d)
  {
    assert Look(0);
  }

  /** `Mappable` for one page, folded. */
  ghost predicate Ready(m: Mem, r: Roles, pd: nat, v: nat, f: nat) {
    forall l | Look(l) :: Mappable(m, r, pd, v, 1, f)
  }

  lemma ReadyMeans(m: Mem, r: Roles, pd: nat, v: nat, f: nat)
    ensures Ready(m, r, pd, v, f) <==> Mappable(m, r, pd, v, 1, f)
  {
    assert Look(0);
  }

  lemma GrowReady(m: Mem, r: Roles, x: Snapshot, f: nat, pd: nat, lo: nat, k: nat, v: nat, hi: nat, n0: nat, n1: nat)
    requires Growing(m, r, x.m, x.r, pd, lo, k, n0, n1) && SoundAt(x) && Unmapped(m, pd, lo, hi)
    requires RoleOf(r, pd) == Dir && RoleOf(x.r, f) == Free && v == lo + k < hi
    ensures RoleOf(x.r[f := Other], pd) == Dir && f != pd
    ensures Ready(SetPage(x.m, f, Zeroes()), x.r[f := Other], pd, v, f)
  {
    GrowingMeans(m, r, x.m, x.r, pd, lo, k, v, n0, n1);
    GrownDir(m, r, x.m, x.r, pd, lo, v);
    NextPageMappable(m, r, x, f, Zeroes(), pd, lo, v, hi);
    ReadyMeans(SetPage(x.m, f, Zeroes()), x.r[f := Other], pd, v, f);
  }

  /** The frames that `k` pages from `lo` drew, folded. */
  ghost predicate Drawing(m: Mem, m': Mem, pd: nat, lo: nat, k: nat, n0: nat, n: nat) {
    forall l | Look(l) :: Drew(m, m', pd, Reach(lo, k), k, n0, n)
  }

  lemma GrowNext(m: Mem, r: Roles, x: Snapshot, f: nat, m3: Mem, r3: Roles, pd: nat, lo: nat, k: nat, v: nat,
                 n0: nat, n1: nat, n2: nat, n3: nat)
    requires Growing(m, r, x.m, x.r, pd, lo, k, n0, n1) && SoundAt(x) && n1 == n2 + 1
    requires RoleOf(r, pd) == Dir && RoleOf(x.r, f) == Free && v == lo + k < USERPAGES && f < |x.m| && f != pd
    requires Mapping(SetPage(x.m, f, Zeroes()), x.r[f := Other], m3, r3, pd, v, 1, f, PTE_W + PTE_U, n2, n3)
    ensures Growing(m, r, m3, r3, pd, lo, k + 1, n0, n3)
  {
    GrowNextPages(m, r, x, f, m3, r3, pd, lo, k, v, n0, n1, n2, n3);
    GrowNextFrames(m, r, x.m, x.r, f, m3, r3, pd, lo, k, v, n0, n1, n2, n3);
    GrowingFromGrew(m, r, m3, r3, pd, lo, k, v, n0, n3);
  }

  lemma GrowNextPages(m: Mem, r: Roles, x: Snapshot, f: nat, m3: Mem, r3: Roles, pd: nat, lo: nat, k: nat, v: nat,
                      n0: nat, n1: nat, n2: nat, n3: nat)
    requires Growing(m, r, x.m, x.r, pd, lo, k, n0, n1) && SoundAt(x)
    requires RoleOf(r, pd) == Dir && RoleOf(x.r, f) == Free && v == lo + k < USERPAGES && f < |x.m|
    requires Mapping(SetPage(x.m, f, Zeroes()), x.r[f := Other], m3, r3, pd, v, 1, f, PTE_W + PTE_U, n2, n3)
    ensures Grew(m, r, m3, r3, pd, lo, v + 1)
  {
    GrowingMeans(m, r, x.m, x.r, pd, lo, k, v, n0, n1);
    MappingMeans(SetPage(x.m, f, Zeroes()), x.r[f := Other], m3, r3, pd, v, 1, f, PTE_W + PTE_U, n2, n3);
    GrownOneMore(m, r, x, f, Zeroes(), m3, r3, pd, lo, v);
    GrewMeans(m, r, m3, r3, pd, lo, v + 1);
  }

  lemma GrowNextFrames(m: Mem, r: Roles, m1: Mem, r1: Roles, f: nat, m3: Mem, r3: Roles, pd: nat, lo: nat, k: nat,
                       v: nat, n0: nat, n1: nat, n2: nat, n3: nat)
    requires Growing(m, r, m1, r1, pd, lo, k, n0, n1) && v == lo + k && n1 == n2 + 1 && f != pd
    requires Mapping(SetPage(m1, f, Zeroes()), r1[f := Other], m3, r3, pd, v, 1, f, PTE_W + PTE_U, n2, n3)
    ensures Drawing(m, m3, pd, lo, k + 1, n0, n3)
  {
    GrowingOpen(m, r, m1, r1, pd, lo, k, n0, n1);
    MappingMeans(SetPage(m1, f, Zeroes()), r1[f := Other], m3, r3, pd, v, 1, f, PTE_W + PTE_U, n2, n3);
    FramesDrawn(m, m1, SetPage(m1, f, Zeroes()), m3, pd, lo, k, v, n0, n1, n2, n3);
  }

  lemma FramesDrawn(m: Mem, m1: Mem, m2: Mem, m3: Mem, pd: nat, lo: nat, k: nat, v: nat, n0: nat, n1: nat, n2: nat,
                    n3: nat)
    requires Drew(m, m1, pd, Reach(lo, k), k, n0, n1) && v == lo + k && n1 == n2 + 1
    requires PageAt(m2, pd) == PageAt(m1, pd) && Drew(m2, m3, pd, Reach(v, 1), 0, n2, n3)
    ensures Drawing(m, m3, pd, lo, k + 1, n0, n3)
  {
    PageDrew(m, m1, m2, m3, pd, lo, k, v, n0, n1, n2, n3);
  }

  lemma GrowingFromGrew(m: Mem, r: Roles, m': Mem, r': Roles, pd: nat, lo: nat, k: nat, v: nat, n0: nat, n: nat)
    requires Grew(m, r, m', r', pd, lo, v + 1) && Drawing(m, m', pd, lo, k + 1, n0, n) && v == lo + k
    ensures Growing(m, r, m', r', pd, lo, k + 1, n0, n)
  {
    GrewMeans(m, r, m', r', pd, lo, v + 1);
    GrownAt(m, r, m', r', pd, lo, v + 1, lo + (k + 1));
  }

  lemma GrowStop(s: Snapshot, x: Snapshot, f: nat, m3: Mem, r3: Roles, pd: nat, lo: nat, k: nat, v: nat, n0: nat,
                 n1: nat, n2: nat, n3: nat)
    requires SoundAt(s) && SoundAt(x)
    requires Growing(s.m, s.r, x.m, x.r, pd, lo, k, n0, n1) && RoleOf(s.r, pd) == Dir && RoleOf(x.r, f) == Free
    requires v == lo + k <= USERPAGES
    requires Mapping(SetPage(x.m, f, Zeroes()), x.r[f := Other], m3, r3, pd, v, 0, f, PTE_W + PTE_U, n2, n3)
    ensures RoleOf(s.r, f) == Free && Grew(SetPage(s.m, f, Zeroes()), s.r[f := Other], m3, r3, pd, lo, v)
  {
    GrowingMeans(s.m, s.r, x.m, x.r, pd, lo, k, v, n0, n1);
    MappingMeans(SetPage(x.m, f, Zeroes()), x.r[f := Other], m3, r3, pd, v, 0, f, PTE_W + PTE_U, n2, n3);
    PageFailed(s, x, f, Zeroes(), m3, r3, pd, lo, v);
    GrewMeans(SetPage(s.m, f, Zeroes()), s.r[f := Other], m3, r3, pd, lo, v);
  }

  /** Inside setupkvm, after `k` rows. */
  ghost predicate Rows(m: Mem, r: Roles, m': Mem, r': Roles, pd: nat, km: seq<Kmap>, k: nat, m0: Mem, n0: nat, n: nat) {
    forall l | Look(l) ::
      && Built(m, r, m', r', pd) && KernelViews(m', pd, km, k)
      && Dirs(m0, pd) == {} && Drew(m0, m', pd, KernelDirs(km, k), 0, n0, n)
  }

  lemma RowsFold(m: Mem, r: Roles, m': Mem, r': Roles, pd: nat, km: seq<Kmap>, k: nat, m0: Mem, n0: nat, n: nat)
    requires Built(m, r, m', r', pd) && KernelViews(m', pd, km, k)
    requires Dirs(m0, pd) == {} && Drew(m0, m', pd, KernelDirs(km, k), 0, n0, n)
    ensures Rows(m, r, m', r', pd, km, k, m0, n0, n)
  {
  }

  lemma RowsMeans(m: Mem, r: Roles, m': Mem, r': Roles, pd: nat, km: seq<Kmap>, k: nat, m0: Mem, n0: nat, n: nat)
    requires Rows(m, r, m', r', pd, km, k, m0, n0, n)
    ensures Built(m, r, m', r', pd) && KernelViews(m', pd, km, k)
    ensures Dirs(m0, pd) == {} && Drew(m0, m', pd, KernelDirs(km, k), 0, n0, n)
  {
    assert Look(0);
  }

  lemma RowsStart(m: Mem, r: Roles, m': Mem, r': Roles, pd: nat, km: seq<Kmap>, n: nat)
    requires Built(m, r, m', r', pd) && pd < |m'| && Zero(m'[pd])
    ensures Rows(m, r, m', r', pd, km, 0, m', n, n)
  {
    NoDirs(m', pd);
    DrewTables(m', m', pd, 0, n);
  }

  lemma RowsDone(m: Mem, r: Roles, m': Mem, r': Roles, pd: nat, km: seq<Kmap>, k: nat, m0: Mem, n0: nat, n: nat)
    requires Rows(m, r, m', r', pd, km, k, m0, n0, n) && k == |km|
    ensures Built(m, r, m', r', pd) && KernelViews(m', pd, km, |km|)
    ensures Dirs(m', pd) == KernelDirs(km, |km|) && n0 == n + |KernelDirs(km, |km|)|
  {
    RowsMeans(m, r, m', r', pd, km, |km|, m0, n0, n);
    AllRowsDrew(m0, m', pd, km, n0, n);
  }

  /** `Copied`, folded. */
  ghost predicate CopiedPages(m: Mem, r: Roles, m': Mem, pd: nat, d: nat, km: seq<Kmap>, v: nat) {
    forall l | Look(l) :: Copied(m, r, m', pd, d, km, v)
  }

  lemma CopiedPagesMeans(m: Mem, r: Roles, m': Mem, pd: nat, d: nat, km: seq<Kmap>, v: nat)
    ensures CopiedPages(m, r, m', pd, d, km, v) <==> Copied(m, r, m', pd, d, km, v)
  {
    assert Look(0);
  }

  /** Inside copyuvm, after `v` pages. */
  ghost predicate Copies(m: Mem, r: Roles, m': Mem, r': Roles, pd: nat, d: nat, km: seq<Kmap>, v: nat, m0: Mem, n0: nat,
                         n: nat)
  {
    Building(m, r, m', r', d) && CopiedPages(m, r, m', pd, d, km, v) && Drew(m0, m', d, Reach(0, v), v, n0, n)
  }

  lemma CopiesMeans(m: Mem, r: Roles, m': Mem, r': Roles, pd: nat, d: nat, km: seq<Kmap>, v: nat, m0: Mem, n0: nat,
                    n: nat)
    requires Copies(m, r, m', r', pd, d, km, v, m0, n0, n)
    ensures Built(m, r, m', r', d) && Copied(m, r, m', pd, d, km, v)
  {
    BuildingMeans(m, r, m', r', d);
    CopiedPagesMeans(m, r, m', pd, d, km, v);
  }

  lemma CopiesDone(m: Mem, r: Roles, m': Mem, r': Roles, pd: nat, d: nat, km: seq<Kmap>, v: nat, n: nat, m0: Mem,
                   n0: nat, n1: nat)
    requires Copies(m, r, m', r', pd, d, km, v, m0, n0, n1) && v == n
    ensures Copies(m, r, m', r', pd, d, km, n, m0, n0, n1) && Affords(m0, d, 0, n, n, n0)
  {
    DrewEnough(m0, m', d, 0, n, n, n0, n1);
  }

  /** The parent's page `v`, which the loop is about to copy. */
  lemma CopyParent(s: Snapshot, m1: Mem, r1: Roles, pd: nat, d: nat, km: seq<Kmap>, v: nat, m0: Mem, n0: nat, n1: nat)
    requires SoundAt(s) && Copies(s.m, s.r, m1, r1, pd, d, km, v, m0, n0, n1) && RoleOf(s.r, pd) == Dir
    requires v < USERPAGES && Present(View(s.m, pd, v / ENTRIES, v % ENTRIES))
    ensures v / ENTRIES < ENTRIES && v % ENTRIES < ENTRIES && RoleOf(r1, pd) == Dir && RoleOf(r1, d) == Dir
    ensures var e := View(s.m, pd, v / ENTRIES, v % ENTRIES);
            && View(m1, pd, v / ENTRIES, v % ENTRIES) == e && FrameOf(e) in r1
            && PageAt(m1, FrameOf(e)) == PageAt(s.m, FrameOf(e))
  {
    CopiesMeans(s.m, s.r, m1, r1, pd, d, km, v, m0, n0, n1);
    PartsPage(v);
    ParentKept(s, m1, r1, pd, d, v / ENTRIES, v % ENTRIES);
  }

  lemma CopyReady(m: Mem, r: Roles, x: Snapshot, f: nat, page: Page, pd: nat, d: nat, km: seq<Kmap>, v: nat, m0: Mem,
                  n0: nat, n1: nat)
    requires Copies(m, r, x.m, x.r, pd, d, km, v, m0, n0, n1) && KmapOk(km) && SoundAt(x)
    requires RoleOf(x.r, d) == Dir && RoleOf(x.r, f) == Free && v < USERPAGES
    ensures Ready(SetPage(x.m, f, page), x.r[f := Other], d, v, f) && f != d
  {
    CopiesMeans(m, r, x.m, x.r, pd, d, km, v, m0, n0, n1);
    CopyMappable(m, r, x, f, page, pd, d, km, v);
    ReadyMeans(SetPage(x.m, f, page), x.r[f := Other], d, v, f);
  }

  lemma CopyNext(s: Snapshot, x: Snapshot, f: nat, page: Page, m3: Mem, r3: Roles, pd: nat, d: nat, km: seq<Kmap>,
                 v: nat, e: nat, m0: Mem, n0: nat, n1: nat, n2: nat, n3: nat)
    requires SoundAt(s) && SoundAt(x) && n1 == n2 + 1 && f != d
    requires Copies(s.m, s.r, x.m, x.r, pd, d, km, v, m0, n0, n1) && RoleOf(s.r, pd) == Dir && RoleOf(x.r, f) == Free
    requires v < USERPAGES && e == View(s.m, pd, v / ENTRIES, v % ENTRIES) && Present(e)
    requires page == PageAt(s.m, FrameOf(e))
    requires Mapping(SetPage(x.m, f, page), x.r[f := Other], m3, r3, d, v, 1, f, Flags(e), n2, n3)
    ensures Copies(s.m, s.r, m3, r3, pd, d, km, v + 1, m0, n0, n3)
  {
    var m2, r2 := SetPage(x.m, f, page), x.r[f := Other];
    MappingMeans(m2, r2, m3, r3, d, v, 1, f, Flags(e), n2, n3);
    CopyNextBuilt(s.m, s.r, x, f, page, m3, r3, d, v, Flags(e));
    CopyNextCopied(s, x, f, page, m3, r3, pd, d, km, v, e);
    PageDrew(m0, x.m, m2, m3, d, 0, v, v, n0, n1, n2, n3);
  }

  lemma CopyNextBuilt(m: Mem, r: Roles, x: Snapshot, f: nat, page: Page, m3: Mem, r3: Roles, d: nat, v: nat,
                      perm: nat)
    requires Building(m, r, x.m, x.r, d) && SoundAt(x) && RoleOf(x.r, f) == Free && v < USERPAGES
    requires Mapped(SetPage(x.m, f, page), x.r[f := Other], m3, r3, d, v, 1, f, perm)
    ensures Building(m, r, m3, r3, d)
  {
    BuildingMeans(m, r, x.m, x.r, d);
    BuiltUser(m, r, x, f, page, m3, r3, d, v, perm);
    BuildingMeans(m, r, m3, r3, d);
  }

  lemma CopyNextCopied(s: Snapshot, x: Snapshot, f: nat, page: Page, m3: Mem, r3: Roles, pd: nat, d: nat,
                       km: seq<Kmap>, v: nat, e: nat)
    requires SoundAt(s) && SoundAt(x) && Building(s.m, s.r, x.m, x.r, d)
    requires CopiedPages(s.m, s.r, x.m, pd, d, km, v) && RoleOf(s.r, pd) == Dir && RoleOf(x.r, f) == Free
    requires v < USERPAGES && e == View(s.m, pd, v / ENTRIES, v % ENTRIES) && Present(e)
    requires page == PageAt(s.m, FrameOf(e))
    requires Mapped(SetPage(x.m, f, page), x.r[f := Other], m3, r3, d, v, 1, f, Flags(e))
    ensures CopiedPages(s.m, s.r, m3, pd, d, km, v + 1)
  {
    BuildingMeans(s.m, s.r, x.m, x.r, d);
    CopiedPagesMeans(s.m, s.r, x.m, pd, d, km, v);
    CopiedOneMore(s, x, f, m3, r3, pd, d, km, v);
    CopiedPagesMeans(s.m, s.r, m3, pd, d, km, v + 1);
  }

  lemma CopyStop(m: Mem, r: Roles, x: Snapshot, f: nat, page: Page, y: Snapshot, pd: nat, d: nat, km: seq<Kmap>,
                 v: nat, e: nat, m0: Mem, n0: nat, n1: nat, n2: nat)
    requires SoundAt(x) && SoundAt(y)
    requires Copies(m, r, x.m, x.r, pd, d, km, v, m0, n0, n1) && RoleOf(x.r, f) == Free
    requires Mapping(SetPage(x.m, f, page), x.r[f := Other], y.m, y.r, d, v, 0, f, Flags(e), n2, |y.free|)
    ensures RoleOf(y.r, f) == Other && Building(m, r, SetPage(y.m, f, Junk(y.head)), y.r[f := Free], d)
  {
    CopiesMeans(m, r, x.m, x.r, pd, d, km, v, m0, n0, n1);
    MappingMeans(SetPage(x.m, f, page), x.r[f := Other], y.m, y.r, d, v, 0, f, Flags(e), n2, |y.free|);
    BuiltFailed(m, r, x, f, page, y, Junk(y.head), d, v, Flags(e));
    BuildingMeans(m, r, SetPage(y.m, f, Junk(y.head)), y.r[f := Free], d);
  }

  lemma CopiesStart(m: Mem, r: Roles, m': Mem, r': Roles, pd: nat, d: nat, km: seq<Kmap>, n: nat)
    requires Built(m, r, m', r', d) && KernelViews(m', d, km, |km|)
    ensures Copies(m, r, m', r', pd, d, km, 0, m', n, n)
  {
    BuildingMeans(m, r, m', r', d);
    CopiedPagesMeans(m, r, m', pd, d, km, 0);
    DrewTables(m', m', d, 0, n);
  }

  lemma CopiesFail(m: Mem, r: Roles, m1: Mem, r1: Roles, pd: nat, d: nat, km: seq<Kmap>, v: nat, n: nat, m0: Mem,
                   n0: nat, n1: nat)
    requires Copies(m, r, m1, r1, pd, d, km, v, m0, n0, n1) && v < n && !Affords(m1, d, v, 1, 1, n1)
    ensures !Affords(m0, d, 0, n, n, n0)
  {
    StretchFails(m0, m1, d, 0, v, n, v, n0, n1);
  }

  lemma PagePresent(m: Mem, pd: nat, n: nat, v: nat)
    requires PagesPresent(m, pd, n) && v < n <= USERPAGES
    ensures Present(View(m, pd, v / ENTRIES, v % ENTRIES))
  {
    assert Look(0);
    PartsPage(v);
  }

  lemma NotInDirs(m: Mem, pd: nat, i: nat)
    requires !Present(Word(m, pd, i))
    ensures i !in Dirs(m, pd)
  {
  }

  lemma RemovedDir(m: Mem, r: Roles, m1: Mem, r1: Roles, pd: nat, lo: nat, v: nat)
    requires Removed(m, r, m1, r1, pd, lo, v) && RoleOf(r, pd) == Dir
    ensures RoleOf(r1, pd) == Dir
  {
    assert RoleRemoved(r, r1, pd, lo, v, pd);
  }

  lemma StillDir(m: Mem, r: Roles, m1: Mem, r1: Roles, pd: nat, a: nat, k: nat, f: nat, perm: nat)
    requires Mapped(m, r, m1, r1, pd, a, k, f, perm) && RoleOf(r, pd) == Dir
    requires forall g: nat | f <= g < f + k && a + g - f < USERPAGES :: RoleOf(r, g) == Other
    ensures RoleOf(r1, pd) == Dir
  {
    assert RoleMapped(r, r1, pd, a, k, f, pd);
  }

  lemma NextIsUnmapped(m: Mem, r: Roles, m1: Mem, r1: Roles, pd: nat, a: nat, k: nat, n: nat, f: nat, perm: nat)
    requires Mapped(m, r, m1, r1, pd, a, k, f, perm) && RoleOf(r, pd) == Dir && Mappable(m, r, pd, a, n, f)
    requires k < n && a + k < ENTRIES * ENTRIES
    ensures RoleOf(r1, pd) == Dir && View(m1, pd, (a + k) / ENTRIES, (a + k) % ENTRIES) == 0
    ensures a + k < USERPAGES ==> RoleOf(r1, f + k) == Other
  {
    StillDir(m, r, m1, r1, pd, a, k, f, perm);
    PartsPage(a + k);
    assert ViewMapped(m, m1, pd, a, k, f, perm, pd, (a + k) / ENTRIES, (a + k) % ENTRIES);
    assert RoleMapped(r, r1, pd, a, k, f, f + k);
  }

  lemma DirAt(m: Mem, r: Roles, head: nat, free: seq<nat>, end: nat, pd: nat, i: nat)
    requires Sound(m, r, head, free, end) && RoleOf(r, pd) == Dir && i < ENTRIES
    ensures pd < |m| && |m[pd]| == ENTRIES
    ensures Present(m[pd][i]) ==>
      var t := FrameOf(m[pd][i]);
      0 < t < |m| && |m[t]| == ENTRIES && RoleOf(r, t) == Table(pd, i)
  {
    assert Look(0);
    assert EntryOk(m, r, pd, i);
  }

  lemma BuiltDir(r: Roles, r1: Roles, m: Mem, m1: Mem, d: nat)
    requires Built(m, r, m1, r1, d)
    ensures RoleOf(r1, d) == Dir
  {
    assert RoleBuilt(r, r1, d, d);
  }

  lemma BootSound(m: Mem, r: Roles, end: nat)
    requires 0 < end && (forall f | f in r :: end <= f < |m| && r[f] == Other)
    requires forall f | 0 <= f < |m| :: |m[f]| == ENTRIES
    ensures Sound(m, r, 0, [], end)
  {
    assert Tree(m, r);
  }

  ghost predicate PagesPresent(m: Mem, pd: nat, n: nat) {
    forall l | Look(l) ::
      forall i: nat, j: nat | i < ENTRIES && j < ENTRIES && PageNo(i, j) < n :: Present(View(m, pd, i, j))
  }

  /** From page `n` on, the directory has the kernel's pages. */
  ghost predicate KernelPages(m: Mem, pd: nat, data: nat, n: nat) {
    forall i: nat, j: nat | i < ENTRIES && j < ENTRIES && n <= PageNo(i, j) ::
      KernelPage(data, PageNo(i, j), View(m, pd, i, j))
  }

  lemma KernelPagesOf(m: Mem, pd: nat, data: nat)
    requires DataOk(data) && KernelViews(m, pd, KernelMap(data), 4)
    ensures KernelPages(m, pd, data, 0)
  {
    forall i: nat, j: nat | i < ENTRIES && j < ENTRIES ensures KernelPage(data, PageNo(i, j), View(m, pd, i, j)) {
      KernelMapIs(data, PageNo(i, j));
      assert View(m, pd, i, j) == KernelView(KernelMap(data), 4, PageNo(i, j));
    }
  }

  lemma CopiedKernel(m: Mem, r: Roles, m': Mem, pd: nat, d: nat, data: nat, n: nat)
    requires DataOk(data) && Copied(m, r, m', pd, d, KernelMap(data), n)
    ensures KernelPages(m', d, data, n)
  {
    forall i: nat, j: nat | i < ENTRIES && j < ENTRIES && n <= PageNo(i, j)
      ensures KernelPage(data, PageNo(i, j), View(m', d, i, j))
    {
      KernelMapIs(data, PageNo(i, j));
      assert ViewCopied(m, r, m', pd, d, KernelMap(data), n, i, j);
    }
  }

  /** `e & ~PTE_U`. */
  function WithoutU(e: nat): nat {
    if e % 8 >= PTE_U then e - PTE_U else e
  }

  /** The user bit is clear and every other bit is as before. */
  lemma WithoutUBits(e: nat)
    ensures WithoutU(e) / 8 == e / 8 && WithoutU(e) % 8 == if e % 8 >= 4 then e % 8 - 4 else e % 8
  {
    var k, r := e / 8, WithoutU(e) - 8 * (e / 8);
    assert e == 8 * k + e % 8;
    Octal(k, r);
  }

  lemma Octal(k: nat, r: nat)
    requires r < 8
    ensures (8 * k + r) / 8 == k && (8 * k + r) % 8 == r
  {
  }

  lemma WithoutUParts(e: nat)
    ensures Present(WithoutU(e)) <==> Present(e)
    ensures FrameOf(WithoutU(e)) == FrameOf(e) && WithoutU(e) % 8 < PTE_U
  {
    WithoutUBits(e);
    FrameOfEighth(e);
    FrameOfEighth(WithoutU(e));
  }

  lemma FrameOfEighth(e: nat)
    ensures e / 8 / 512 == FrameOf(e)
  {
    var f, low := e / PGSIZE, e % PGSIZE;
    assert e == 8 * (512 * f) + low;
    assert e / 8 == 512 * f + low / 8;
  }
}
