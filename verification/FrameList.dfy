/**
 The frame allocator of `xv6/kalloc.c`: free frames are linked through their first word.
 `Machine` joins the free list with the page tables: each managed frame has one role, and it is on
 the free list exactly if that role is `Free`.
 */
module FrameList {
  import opened Common
  import opened PageTables

  const JUNK := 0x01010101   // a word of a page that kfree filled with ones

  function At(free: seq<nat>, k: nat): nat {
    if k < |free| then free[k] else 0
  }

  predicate LinkOk(m: Mem, free: seq<nat>, k: nat) {
    k < |free| ==> Word(m, free[k], 0) == At(free, k + 1)
  }

  ghost predicate Chain(m: Mem, head: nat, free: seq<nat>) {
    head == At(free, 0) && forall k: nat :: LinkOk(m, free, k)
  }

  ghost predicate FreeSet(r: Roles, free: seq<nat>) {
    && (forall f: nat :: RoleOf(r, f) == Free <==> f in free)
    && forall i, j | 0 <= i < j < |free| :: free[i] != free[j]
  }

  ghost predicate Machine(m: Mem, r: Roles, head: nat, free: seq<nat>, end: nat) {
    && Tree(m, r) && Chain(m, head, free) && FreeSet(r, free)
    && 0 < end && forall f | f in r :: end <= f
  }

  /** `Machine`, kept folded. */
  ghost predicate Sound(m: Mem, r: Roles, head: nat, free: seq<nat>, end: nat) {
    forall k | Look(k) :: Machine(m, r, head, free, end)
  }

  /** The page that kfree leaves behind. */
  function Junk(next: nat): Page {
    [next] + seq(ENTRIES - 1, _ => JUNK)
  }

  /** The link is the first word, and every other byte is 1. */
  lemma JunkIs(next: nat, k: nat)
    requires k < ENTRIES
    ensures |Junk(next)| == ENTRIES
    ensures Junk(next)[k] == if k == 0 then next else 1 + 0x100 * (1 + 0x100 * (1 + 0x100 * 1))
  {
  }

  // ----- the free list

  lemma ChainFrame(m: Mem, m': Mem, head: nat, free: seq<nat>)
    requires Chain(m, head, free) && forall f | f in free :: Word(m', f, 0) == Word(m, f, 0)
    ensures Chain(m', head, free)
  {
    forall k: nat ensures LinkOk(m', free, k) {
      assert LinkOk(m, free, k);
    }
  }

  /** kalloc: the head of the list is a free frame, and its first word is the rest of the list. */
  lemma Pop(m: Mem, r: Roles, head: nat, free: seq<nat>, end: nat)
    requires Sound(m, r, head, free, end)
    ensures head == 0 <==> free == []
    ensures head != 0 ==> free[0] == head && RoleOf(r, head) == Free && head < |m| && |m[head]| == ENTRIES
    ensures head != 0 ==> Sound(m, r[head := Other], Word(m, head, 0), free[1..], end)
  {
    assert Look(0);
    if free != [] {
      assert free[0] in free;
      assert RoleOf(r, head) == Free;
      PopChain(m, head, free);
      Recolour(m, r, head, Other);
      PopSet(r, free);
    }
  }

  lemma PopChain(m: Mem, head: nat, free: seq<nat>)
    requires Chain(m, head, free) && free != []
    ensures Chain(m, Word(m, head, 0), free[1..])
  {
    var rest := free[1..];
    assert LinkOk(m, free, 0);
    forall k: nat ensures LinkOk(m, rest, k) {
      assert LinkOk(m, free, k + 1);
    }
  }

  lemma PopSet(r: Roles, free: seq<nat>)
    requires FreeSet(r, free) && free != []
    ensures FreeSet(r[free[0] := Other], free[1..])
  {
    var rest := free[1..];
    forall f: nat ensures RoleOf(r[free[0] := Other], f) == Free <==> f in rest {
      assert f in free <==> f == free[0] || f in rest;
    }
  }

  lemma PushSet(r: Roles, free: seq<nat>, f: nat)
    requires FreeSet(r, free) && RoleOf(r, f) != Free
    ensures FreeSet(r[f := Free], [f] + free)
  {
  }

  lemma PushChain(m: Mem, head: nat, free: seq<nat>, f: nat)
    requires Chain(m, head, free) && f !in free && f < |m|
    ensures Chain(SetPage(m, f, Junk(head)), f, [f] + free)
  {
    var m', free' := SetPage(m, f, Junk(head)), [f] + free;
    forall k: nat ensures LinkOk(m', free', k) {
      if k > 0 {
        assert LinkOk(m, free, k - 1);
      }
    }
  }

  /** kfree of a frame that nothing refers to. */
  lemma Push(m: Mem, r: Roles, head: nat, free: seq<nat>, end: nat, f: nat)
    requires Sound(m, r, head, free, end) && Loose(r, f)
    ensures end <= f < |m| && |m[f]| == ENTRIES
    ensures Sound(SetPage(m, f, Junk(head)), r[f := Free], f, [f] + free, end)
  {
    assert Look(0);
    LetGo(m, r, f);
    Store(m, r[f := Other], f, Junk(head));
    Recolour(SetPage(m, f, Junk(head)), r[f := Other], f, Free);
    assert r[f := Other][f := Free] == r[f := Free];
    PushSet(r, free, f);
    PushChain(m, head, free, f);
  }

  // ----- the changes of PageTables, with the free list

  lemma SoundStore(m: Mem, r: Roles, head: nat, free: seq<nat>, end: nat, f: nat, p: Page)
    requires Sound(m, r, head, free, end) && RoleOf(r, f) == Other && |p| == ENTRIES
    ensures Sound(SetPage(m, f, p), r, head, free, end)
  {
    assert Look(0);
    Store(m, r, f, p);
    ChainFrame(m, SetPage(m, f, p), head, free);
  }

  lemma SoundNewDir(m: Mem, r: Roles, head: nat, free: seq<nat>, end: nat, pd: nat)
    requires Sound(m, r, head, free, end) && RoleOf(r, pd) == Other && Zero(PageAt(m, pd))
    ensures Sound(m, r[pd := Dir], head, free, end)
  {
    assert Look(0);
    NewDir(m, r, pd);
  }

  lemma SoundNewTable(m: Mem, r: Roles, head: nat, free: seq<nat>, end: nat, pd: nat, i: nat, t: nat)
    requires Sound(m, r, head, free, end) && RoleOf(r, pd) == Dir && i < ENTRIES && !Present(Word(m, pd, i))
    requires RoleOf(r, t) == Other && Zero(PageAt(m, t))
    ensures Sound(SetWord(m, pd, i, Entry(t, PTE_W + PTE_U)), r[t := Table(pd, i)], head, free, end)
  {
    assert Look(0);
    NewTable(m, r, pd, i, t);
    ChainFrame(m, SetWord(m, pd, i, Entry(t, PTE_W + PTE_U)), head, free);
  }

  lemma SoundSetEntry(m: Mem, r: Roles, head: nat, free: seq<nat>, end: nat, pd: nat, i: nat, j: nat, w: nat, r': Roles)
    requires Sound(m, r, head, free, end) && RoleOf(r, pd) == Dir && i < ENTRIES && j < ENTRIES
    requires Present(Word(m, pd, i)) && MayWrite(m, r, pd, i, j, w, r')
    ensures Sound(SetWord(m, FrameOf(Word(m, pd, i)), j, w), r', head, free, end)
  {
    assert Look(0);
    assert EntryOk(m, r, pd, i);
    assert MappedOk(m, r, pd, i, j);
    SetEntry(m, r, pd, i, j, w, r');
    ChainFrame(m, SetWord(m, FrameOf(Word(m, pd, i)), j, w), head, free);
    assert FreeSet(r', free);
  }

  /** deallocuvm frees the frame first and clears the entry after. */
  lemma SoundUnmap(m: Mem, r: Roles, head: nat, free: seq<nat>, end: nat, pd: nat, i: nat, j: nat)
    requires Sound(m, r, head, free, end) && RoleOf(r, pd) == Dir && i < USERDIRS && j < ENTRIES
    requires Present(View(m, pd, i, j))
    ensures var t, f := FrameOf(Word(m, pd, i)), FrameOf(View(m, pd, i, j));
            && RoleOf(r, f) == User(pd, i, j) && end <= f < |m| && t != f && f !in free
            && Sound(SetWord(SetPage(m, f, Junk(head)), t, j, 0), r[f := Free], f, [f] + free, end)
  {
    var t, f := FrameOf(Word(m, pd, i)), FrameOf(View(m, pd, i, j));
    assert Present(Word(m, pd, i));
    UserFrame(m, r, head, free, end, pd, i, j);
    var r1 := r[f := Other];
    SoundSetEntry(m, r, head, free, end, pd, i, j, 0, r1);
    Push(SetWord(m, t, j, 0), r1, head, free, end, f);
    assert SetPage(SetWord(m, t, j, 0), f, Junk(head)) == SetWord(SetPage(m, f, Junk(head)), t, j, 0);
    assert r1[f := Free] == r[f := Free];
  }

  lemma UserFrame(m: Mem, r: Roles, head: nat, free: seq<nat>, end: nat, pd: nat, i: nat, j: nat)
    requires Sound(m, r, head, free, end) && RoleOf(r, pd) == Dir && i < USERDIRS && j < ENTRIES
    requires Present(View(m, pd, i, j))
    ensures var t, f := FrameOf(Word(m, pd, i)), FrameOf(View(m, pd, i, j));
            && RoleOf(r, f) == User(pd, i, j) && RoleOf(r, t) == Table(pd, i) && t != f && f !in free
  {
    assert Look(0);
    assert EntryOk(m, r, pd, i);
    assert MappedOk(m, r, pd, i, j);
  }

  lemma SoundDoom(m: Mem, r: Roles, head: nat, free: seq<nat>, end: nat, pd: nat)
    requires Sound(m, r, head, free, end) && RoleOf(r, pd) == Dir
    requires forall i: nat, j: nat | i < USERDIRS && j < ENTRIES :: !Present(View(m, pd, i, j))
    ensures Sound(m, r[pd := Doomed], head, free, end)
  {
    assert Look(0);
    Doom(m, r, pd);
  }

  // ----- what the machine invariant says about frames

  /** No frame is mapped twice below KERNBASE, in one address space or in two. */
  lemma UserFramesAreNotShared(m: Mem, r: Roles, head: nat, free: seq<nat>, end: nat,
                               pd: nat, i: nat, j: nat, q: nat, a: nat, b: nat)
    requires Sound(m, r, head, free, end) && RoleOf(r, pd) == Dir && RoleOf(r, q) == Dir
    requires i < USERDIRS && j < ENTRIES && a < USERDIRS && b < ENTRIES
    requires Present(View(m, pd, i, j)) && Present(View(m, q, a, b))
    requires FrameOf(View(m, pd, i, j)) == FrameOf(View(m, q, a, b))
    ensures (pd, i, j) == (q, a, b)
  {
    UserFrame(m, r, head, free, end, pd, i, j);
    UserFrame(m, r, head, free, end, q, a, b);
  }

  /** A directory entry never points at a free frame, a user page or the table of another entry. */
  lemma TablesAreNotShared(m: Mem, r: Roles, head: nat, free: seq<nat>, end: nat, pd: nat, i: nat, q: nat, a: nat)
    requires Sound(m, r, head, free, end) && RoleOf(r, pd) == Dir && RoleOf(r, q) == Dir && i < ENTRIES && a < ENTRIES
    requires Present(Word(m, pd, i))
    ensures var t := FrameOf(Word(m, pd, i));
            && t !in free && t != q
            && (Present(Word(m, q, a)) && FrameOf(Word(m, q, a)) == t ==> (pd, i) == (q, a))
            && forall j: nat | a < USERDIRS && j < ENTRIES && Present(View(m, q, a, j)) ::
                 FrameOf(View(m, q, a, j)) != t
  {
    assert Look(0);
    assert EntryOk(m, r, pd, i);
    assert EntryOk(m, r, q, a);
    forall j: nat | a < USERDIRS && j < ENTRIES && Present(View(m, q, a, j))
      ensures FrameOf(View(m, q, a, j)) != FrameOf(Word(m, pd, i))
    {
      assert MappedOk(m, r, q, a, j);
    }
  }

  /** The frames on the free list are linked in order, without repetition, and no user page maps one. */
  lemma FreeFramesAreUnused(m: Mem, r: Roles, head: nat, free: seq<nat>, end: nat, k: nat, pd: nat, i: nat, j: nat)
    requires Sound(m, r, head, free, end) && k < |free| && RoleOf(r, pd) == Dir && i < USERDIRS && j < ENTRIES
    ensures end <= free[k] < |m| && m[free[k]] != [] && m[free[k]][0] == At(free, k + 1)
    ensures forall l | 0 <= l < |free| && l != k :: free[l] != free[k]
    ensures free[k] != pd && (Present(View(m, pd, i, j)) ==> FrameOf(View(m, pd, i, j)) != free[k])
  {
    assert Look(0);
    assert free[k] in free && LinkOk(m, free, k);
    assert MappedOk(m, r, pd, i, j);
  }
}
