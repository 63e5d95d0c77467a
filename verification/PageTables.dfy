/**
 Two-level page tables in physical memory (`xv6/vm.c`).  A frame is a page of words; an entry is a
 frame address with flag bits below.  `Role` says what each allocatable frame is used for, and
 `Tree` that the memory agrees: every directory entry, table, user mapping and frame matches.
 Tables are indexed by directory index `i` and table index `j`; the page number is `1024 * i + j`.
 */
module PageTables {

  const PGSIZE := 4096
  const ENTRIES := 1024     // NPDENTRIES and NPTENTRIES
  const USERDIRS := 512     // directory entries below KERNBASE
  const PTE_P := 1
  const PTE_W := 2
  const PTE_U := 4

  type Page = seq<nat>
  type Mem = seq<Page>

  datatype Role =
    | Reserved                        // not managed by the frame allocator
    | Free
    | Other                           // allocated, and owned by a caller
    | Dir
    | Doomed                          // a directory that freevm is taking apart
    | Table(pd: nat, i: nat)          // the page table of entry `i` of directory `pd`
    | User(pd: nat, i: nat, j: nat)   // mapped below KERNBASE in directory `pd`

  type Roles = map<nat, Role>

  function RoleOf(r: Roles, f: nat): Role {
    if f in r then r[f] else Reserved
  }

  // ----- memory

  function PageAt(m: Mem, f: nat): Page {
    if f < |m| then m[f] else []
  }

  function Word(m: Mem, f: nat, i: nat): nat {
    if f < |m| && i < |m[f]| then m[f][i] else 0
  }

  function SetPage(m: Mem, f: nat, p: Page): Mem {
    if f < |m| then m[f := p] else m
  }

  function SetWord(m: Mem, f: nat, i: nat, w: nat): Mem {
    if f < |m| && i < |m[f]| then
      var p: Page := m[f][i := w];
      m[f := p]
    else m
  }

  predicate Zero(p: Page) {
    |p| == ENTRIES && forall i | 0 <= i < |p| :: p[i] == 0
  }

  ghost predicate Shape(m: Mem, r: Roles) {
    && (forall f | f in r :: 0 < f < |m|)
    && forall f | 0 <= f < |m| :: |m[f]| == ENTRIES
  }

  // ----- entries

  predicate Present(e: nat) {
    e % 2 == 1
  }

  function FrameOf(e: nat): nat {
    e / PGSIZE
  }

  function Flags(e: nat): nat {
    e % PGSIZE
  }

  /** `pa | perm | PTE_P`. */
  function Entry(f: nat, perm: nat): nat {
    f * PGSIZE + perm % PGSIZE + if perm % 2 == 1 then 0 else PTE_P
  }

  lemma EntryParts(f: nat, perm: nat)
    requires perm < PGSIZE
    ensures Present(Entry(f, perm)) && FrameOf(Entry(f, perm)) == f
    ensures Flags(Entry(f, perm)) == if perm % 2 == 1 then perm else perm + 1
  {
    var low := if perm % 2 == 1 then perm else perm + 1;
    assert Entry(f, perm) == f * PGSIZE + low;
    Parts(f, low);
    Parity(f, low);
  }

  lemma Parts(f: nat, low: nat)
    requires low < PGSIZE
    ensures (f * PGSIZE + low) / PGSIZE == f && (f * PGSIZE + low) % PGSIZE == low
  {
  }

  lemma Parity(f: nat, low: nat)
    ensures (f * PGSIZE + low) % 2 == low % 2
  {
    assert f * PGSIZE + low == 2 * (f * 2048) + low;
  }

  function Shown(e: nat): nat {
    if Present(e) then e else 0
  }

  /** The flat map: the entry of page `1024 * i + j` if it is mapped, and 0 if not. */
  function View(m: Mem, pd: nat, i: nat, j: nat): nat {
    if Present(Word(m, pd, i)) then Shown(Word(m, FrameOf(Word(m, pd, i)), j)) else 0
  }

  // ----- memory agrees with the roles

  /** A table is where its directory entry points. */
  predicate TableOk(m: Mem, r: Roles, t: nat) {
    match RoleOf(r, t)
    case Table(pd, i) =>
      && i < ENTRIES && (RoleOf(r, pd) == Dir || RoleOf(r, pd) == Doomed)
      && Present(Word(m, pd, i)) && FrameOf(Word(m, pd, i)) == t
    case _ => true
  }

  /** A present directory entry points to its table. */
  predicate EntryOk(m: Mem, r: Roles, pd: nat, i: nat) {
    RoleOf(r, pd) == Dir && i < ENTRIES && Present(Word(m, pd, i)) ==>
      RoleOf(r, FrameOf(Word(m, pd, i))) == Table(pd, i)
  }

  /** A user frame is mapped where its role says. */
  predicate UserOk(m: Mem, r: Roles, f: nat) {
    match RoleOf(r, f)
    case User(pd, i, j) =>
      && i < USERDIRS && j < ENTRIES && RoleOf(r, pd) == Dir
      && Present(View(m, pd, i, j)) && FrameOf(View(m, pd, i, j)) == f
    case _ => true
  }

  /** A page mapped below KERNBASE is a user frame of that page. */
  predicate MappedOk(m: Mem, r: Roles, pd: nat, i: nat, j: nat) {
    RoleOf(r, pd) == Dir && i < USERDIRS && j < ENTRIES && Present(View(m, pd, i, j)) ==>
      RoleOf(r, FrameOf(View(m, pd, i, j))) == User(pd, i, j)
  }

  ghost predicate Tree(m: Mem, r: Roles) {
    && Shape(m, r)
    && (forall t: nat :: TableOk(m, r, t))
    && (forall pd: nat, i: nat :: EntryOk(m, r, pd, i))
    && (forall f: nat :: UserOk(m, r, f))
    && forall pd: nat, i: nat, j: nat :: MappedOk(m, r, pd, i, j)
  }

  // ----- changes that no table sees

  predicate Plain(c: Role) {
    c == Free || c == Other
  }

  /** A frame that is not a table page can take any contents. */
  predicate Leaf(c: Role) {
    Plain(c) || c.User?
  }

  /** Contents of leaves do not matter to the tables. */
  lemma StoreView(m: Mem, r: Roles, f: nat, p: Page, pd: nat, i: nat, j: nat)
    requires Tree(m, r) && Leaf(RoleOf(r, f)) && RoleOf(r, pd) == Dir && i < ENTRIES
    ensures View(SetPage(m, f, p), pd, i, j) == View(m, pd, i, j)
  {
    assert EntryOk(m, r, pd, i);
  }

  lemma Store(m: Mem, r: Roles, f: nat, p: Page)
    requires Tree(m, r) && Leaf(RoleOf(r, f)) && |p| == ENTRIES
    ensures Tree(SetPage(m, f, p), r)
  {
    var m' := SetPage(m, f, p);
    forall t: nat ensures TableOk(m', r, t) {
      assert TableOk(m, r, t);
    }
    forall pd: nat, i: nat ensures EntryOk(m', r, pd, i) {
      assert EntryOk(m, r, pd, i);
    }
    forall g: nat ensures UserOk(m', r, g) {
      assert UserOk(m, r, g);
      match RoleOf(r, g) {
        case User(pd, i, j) => StoreView(m, r, f, p, pd, i, j);
        case _ =>
      }
    }
    forall pd: nat, i: nat, j: nat ensures MappedOk(m', r, pd, i, j) {
      assert MappedOk(m, r, pd, i, j);
      if RoleOf(r, pd) == Dir && i < USERDIRS {
        StoreView(m, r, f, p, pd, i, j);
      }
    }
  }

  /** kalloc and kfree move a frame between the free list and its owner. */
  lemma Recolour(m: Mem, r: Roles, f: nat, c: Role)
    requires Tree(m, r) && Plain(RoleOf(r, f)) && Plain(c)
    ensures Tree(m, r[f := c])
  {
    var r' := r[f := c];
    forall t: nat ensures TableOk(m, r', t) {
      assert TableOk(m, r, t);
    }
    forall pd: nat, i: nat ensures EntryOk(m, r', pd, i) {
      assert EntryOk(m, r, pd, i);
    }
    forall g: nat ensures UserOk(m, r', g) {
      assert UserOk(m, r, g);
    }
    forall pd: nat, i: nat, j: nat ensures MappedOk(m, r', pd, i, j) {
      assert MappedOk(m, r, pd, i, j);
    }
  }

  // ----- new directories and tables

  lemma NewDir(m: Mem, r: Roles, pd: nat)
    requires Tree(m, r) && RoleOf(r, pd) == Other && Zero(PageAt(m, pd))
    ensures Tree(m, r[pd := Dir])
    ensures forall i: nat, j: nat :: View(m, pd, i, j) == 0
  {
    var r' := r[pd := Dir];
    forall t: nat ensures TableOk(m, r', t) {
      assert TableOk(m, r, t);
    }
    forall q: nat, i: nat ensures EntryOk(m, r', q, i) {
      assert EntryOk(m, r, q, i);
    }
    forall g: nat ensures UserOk(m, r', g) {
      assert UserOk(m, r, g);
    }
    forall q: nat, i: nat, j: nat ensures MappedOk(m, r', q, i, j) {
      assert MappedOk(m, r, q, i, j);
    }
  }

  /** Hooking up an empty table leaves every page as it was. */
  lemma NewTableView(m: Mem, r: Roles, pd: nat, i: nat, t: nat, q: nat, a: nat, b: nat)
    requires Tree(m, r) && RoleOf(r, pd) == Dir && i < ENTRIES && !Present(Word(m, pd, i))
    requires RoleOf(r, t) == Other && Zero(PageAt(m, t))
    requires RoleOf(r, q) == Dir && a < ENTRIES
    ensures View(SetWord(m, pd, i, Entry(t, PTE_W + PTE_U)), q, a, b) == View(m, q, a, b)
  {
    EntryParts(t, PTE_W + PTE_U);
    assert EntryOk(m, r, q, a);
    assert (q, a) == (pd, i) ==> Word(m, t, b) == 0;
  }

  lemma NewTable(m: Mem, r: Roles, pd: nat, i: nat, t: nat)
    requires Tree(m, r) && RoleOf(r, pd) == Dir && i < ENTRIES && !Present(Word(m, pd, i))
    requires RoleOf(r, t) == Other && Zero(PageAt(m, t))
    ensures Tree(SetWord(m, pd, i, Entry(t, PTE_W + PTE_U)), r[t := Table(pd, i)])
  {
    var e := Entry(t, PTE_W + PTE_U);
    var m', r' := SetWord(m, pd, i, e), r[t := Table(pd, i)];
    EntryParts(t, PTE_W + PTE_U);
    forall u: nat ensures TableOk(m', r', u) {
      assert TableOk(m, r, u);
    }
    forall q: nat, a: nat ensures EntryOk(m', r', q, a) {
      assert EntryOk(m, r, q, a);
    }
    forall g: nat ensures UserOk(m', r', g) {
      assert UserOk(m, r, g);
      match RoleOf(r, g) {
        case User(q, a, b) => NewTableView(m, r, pd, i, t, q, a, b);
        case _ =>
      }
    }
    forall q: nat, a: nat, b: nat ensures MappedOk(m', r', q, a, b) {
      assert MappedOk(m, r, q, a, b);
      if RoleOf(r, q) == Dir && a < USERDIRS {
        NewTableView(m, r, pd, i, t, q, a, b);
      }
    }
  }

  // ----- table entries

  /** Table `t` is the one for page `(i, j)` of `pd`, and so of no other page. */
  lemma SetEntryView(m: Mem, r: Roles, pd: nat, i: nat, j: nat, w: nat, q: nat, a: nat, b: nat)
    requires Tree(m, r) && RoleOf(r, pd) == Dir && i < ENTRIES && j < ENTRIES && Present(Word(m, pd, i))
    requires RoleOf(r, q) == Dir && a < ENTRIES
    ensures View(SetWord(m, FrameOf(Word(m, pd, i)), j, w), q, a, b) ==
            if (q, a, b) == (pd, i, j) then Shown(w) else View(m, q, a, b)
  {
    assert EntryOk(m, r, pd, i);
    assert EntryOk(m, r, q, a);
  }

  /** What writing an entry must respect: a user page goes from unmapped or back, or keeps its frame. */
  ghost predicate MayWrite(m: Mem, r: Roles, pd: nat, i: nat, j: nat, w: nat, r': Roles) {
    var e := View(m, pd, i, j);
    if i >= USERDIRS then r' == r
    else if Present(e) && Present(w) then FrameOf(w) == FrameOf(e) && r' == r
    else if Present(e) then r' == r[FrameOf(e) := Other]
    else if Present(w) then RoleOf(r, FrameOf(w)) == Other && r' == r[FrameOf(w) := User(pd, i, j)]
    else r' == r
  }

  lemma SetEntry(m: Mem, r: Roles, pd: nat, i: nat, j: nat, w: nat, r': Roles)
    requires Tree(m, r) && RoleOf(r, pd) == Dir && i < ENTRIES && j < ENTRIES && Present(Word(m, pd, i))
    requires MayWrite(m, r, pd, i, j, w, r')
    ensures Tree(SetWord(m, FrameOf(Word(m, pd, i)), j, w), r')
  {
    var t := FrameOf(Word(m, pd, i));
    var m' := SetWord(m, t, j, w);
    assert EntryOk(m, r, pd, i);
    assert MappedOk(m, r, pd, i, j);
    forall u: nat ensures TableOk(m', r', u) {
      assert TableOk(m, r, u);
    }
    forall q: nat, a: nat ensures EntryOk(m', r', q, a) {
      assert EntryOk(m, r, q, a);
    }
    forall g: nat ensures UserOk(m', r', g) {
      SetEntryUser(m, r, pd, i, j, w, r', g);
    }
    forall q: nat, a: nat, b: nat ensures MappedOk(m', r', q, a, b) {
      SetEntryMapped(m, r, pd, i, j, w, r', q, a, b);
    }
  }

  lemma SetEntryUser(m: Mem, r: Roles, pd: nat, i: nat, j: nat, w: nat, r': Roles, g: nat)
    requires Tree(m, r) && RoleOf(r, pd) == Dir && i < ENTRIES && j < ENTRIES && Present(Word(m, pd, i))
    requires MayWrite(m, r, pd, i, j, w, r')
    ensures UserOk(SetWord(m, FrameOf(Word(m, pd, i)), j, w), r', g)
  {
    assert UserOk(m, r, g);
    assert MappedOk(m, r, pd, i, j);
    match RoleOf(r', g) {
      case User(q, a, b) =>
        if a < ENTRIES && RoleOf(r, q) == Dir {
          SetEntryView(m, r, pd, i, j, w, q, a, b);
        }
      case _ =>
    }
  }

  lemma SetEntryMapped(m: Mem, r: Roles, pd: nat, i: nat, j: nat, w: nat, r': Roles, q: nat, a: nat, b: nat)
    requires Tree(m, r) && RoleOf(r, pd) == Dir && i < ENTRIES && j < ENTRIES && Present(Word(m, pd, i))
    requires MayWrite(m, r, pd, i, j, w, r')
    ensures MappedOk(SetWord(m, FrameOf(Word(m, pd, i)), j, w), r', q, a, b)
  {
    assert MappedOk(m, r, q, a, b);
    assert MappedOk(m, r, pd, i, j);
    if RoleOf(r, q) == Dir && a < USERDIRS {
      SetEntryView(m, r, pd, i, j, w, q, a, b);
    }
  }

  // ----- taking a directory apart

  lemma Doom(m: Mem, r: Roles, pd: nat)
    requires Tree(m, r) && RoleOf(r, pd) == Dir
    requires forall i: nat, j: nat | i < USERDIRS && j < ENTRIES :: !Present(View(m, pd, i, j))
    ensures Tree(m, r[pd := Doomed])
  {
    var r' := r[pd := Doomed];
    forall t: nat ensures TableOk(m, r', t) {
      assert TableOk(m, r, t);
    }
    forall q: nat, i: nat ensures EntryOk(m, r', q, i) {
      assert EntryOk(m, r, q, i);
    }
    forall g: nat ensures UserOk(m, r', g) {
      assert UserOk(m, r, g);
    }
    forall q: nat, i: nat, j: nat ensures MappedOk(m, r', q, i, j) {
      assert MappedOk(m, r, q, i, j);
    }
  }

  /** A table of a doomed directory, or a doomed directory without tables, can be let go. */
  predicate Loose(r: Roles, f: nat) {
    match RoleOf(r, f)
    case Other => true
    case Table(pd, _) => RoleOf(r, pd) == Doomed
    case Doomed => forall t | t in r :: r[t].Table? ==> r[t].pd != f
    case _ => false
  }

  lemma LetGo(m: Mem, r: Roles, f: nat)
    requires Tree(m, r) && Loose(r, f)
    ensures Tree(m, r[f := Other])
  {
    var r' := r[f := Other];
    forall t: nat ensures TableOk(m, r', t) {
      assert TableOk(m, r, t);
    }
    forall q: nat, i: nat ensures EntryOk(m, r', q, i) {
      assert EntryOk(m, r, q, i);
    }
    forall g: nat ensures UserOk(m, r', g) {
      assert UserOk(m, r, g);
    }
    forall q: nat, i: nat, j: nat ensures MappedOk(m, r', q, i, j) {
      assert MappedOk(m, r, q, i, j);
    }
  }
}
