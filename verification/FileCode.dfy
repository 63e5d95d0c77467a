/**
 The code of the file layer of `xv6/fs.c`: the loops of `balloc`, `itrunc`, `readi` and
 `writei`, and the in-place updates of the free map, inodes and indirect blocks.
 A `None` result stands for a kernel panic.
 */
module FileCode {
  import opened Common
  import opened DiskFormat
  import opened FileLayer
  import opened FileCalls
  import opened FileSpace
  import opened FileTruncate
  import FileFormat
  import FileLayout

  /** Storing a fresh block number in the indirect block. */
  lemma EntryWritten(sb: Super, s: Fs, o: map<nat, Slot>, i: nat, k: nat, b: nat)
    requires Owned(sb, s, o) && i < |s.inodes| && INDIRECT < k < SLOTS && At(s, Slot(i, INDIRECT)) != 0
    requires At(s, Slot(i, k)) == 0 && DataStart(sb) <= b < sb.size && b !in o
    requires Used(sb, s.disk, b) && Read(s.disk, b) == ZeroBlock()
    ensures var s' := SetEntry(s, i, k, b);
            && Owned(sb, s', o[b := Slot(i, k)]) && SameFiles(s, s')
            && OnlySlot(s, s', Slot(i, k), b) && OnlyInode(sb, s, s', i)
  {
    var s' := SetEntry(s, i, k, b);
    SetEntryShape(sb, s, i, k, b);
    SetEntryAssigned(sb, s, o, i, k, b);
    SetEntryFiles(sb, s, o, i, k, b);
    AssignedOwned(sb, s, s', o, Slot(i, k), b);
    OwnerOf(sb, s, o, Slot(i, INDIRECT));
    forall j | 0 <= j < sb.ninodes ensures InodeAt(sb, s'.disk, j) == InodeAt(sb, s.disk, j) {
      var a := At(s, Slot(i, INDIRECT));
      DataWriteInodes(sb, s, a, SetWord(Read(s.disk, a), k - INDIRECT - 1, b), j);
    }
  }

  /** `n` bytes of a file from offset `off`. */
  function Slice(f: seq<Byte>, off: nat, n: int): seq<Byte> {
    if 0 <= n && off + n <= |f| then f[off..off + n] else []
  }

  lemma SliceAppend(f: seq<Byte>, off: nat, n: nat, m: nat)
    requires off + n + m <= |f|
    ensures Slice(f, off, n) + Slice(f, off + n, m) == Slice(f, off, n + m)
  {
  }

  lemma ReadDone(f: seq<Byte>, off: nat, n: nat, r: nat, dst: seq<Byte>)
    requires off <= |f| && dst == Slice(f, off, r) && r == if off + n > |f| then |f| - off else n
    ensures dst == f[off..Min(off + n, |f|)] && |dst| == r
  {
  }

  /** How much of the current block one round of `readi` or `writei` handles. */
  function Portion(off: nat, left: nat): (m: nat)
    ensures 0 < left ==> 0 < m <= left && off % BSIZE + m <= BSIZE
  {
    if left < BSIZE - off % BSIZE then left else BSIZE - off % BSIZE
  }

  lemma InsideBlock(off: nat, p: nat)
    requires off % BSIZE + p < BSIZE
    ensures (off + p) / BSIZE == off / BSIZE && (off + p) % BSIZE == off % BSIZE + p
  {
  }

  /** The part of a mapped block that one round of `readi` copies. */
  lemma ReadChunk(s: Fs, i: nat, off: nat, step: nat, b: Block)
    requires b == FileBlock(s, i, off / BSIZE) && |b| == BSIZE && off % BSIZE + step <= BSIZE
    requires off + step <= InodeOrEmpty(s, i).size
    ensures Slice(b, off % BSIZE, step) == Slice(Contents(s, i), off, step)
  {
    var x := b[off % BSIZE..off % BSIZE + step];
    var y := Contents(s, i)[off..off + step];
    forall p | 0 <= p < |x| ensures x[p] == y[p] {
      InsideBlock(off, p);
      assert Contents(s, i)[off + p] == FileByte(s, i, off + p);
    }
  }

  /** `bmap` followed by the block write is one round of `writei`. */
  lemma ChunkDone(sb: Super, s: Fs, s1: Fs, o: map<nat, Slot>, i: nat, off: nat, chunk: seq<Byte>, a: nat)
    requires Owned(sb, s1, o) && i < |s.inodes| && off / BSIZE < MAXFILE && off % BSIZE + |chunk| <= BSIZE
    requires Bmapped(sb, s, s1, i, off / BSIZE, a)
    ensures var s2 := ChunkStored(s1, a, off, chunk);
            Owned(sb, s2, o) && ChunkWritten(sb, s, s2, i, off, chunk)
  {
    var bn := off / BSIZE;
    var data := Spliced(Read(s1.disk, a), off % BSIZE, chunk);
    OwnerOf(sb, s1, o, Slot(i, SlotOf(bn)));
    DataWriteOwned(sb, s1, o, i, bn, data);
    ChunkBytes(sb, s1, o, i, off, chunk, a);
    WrittenAfterSame(s, s1, ChunkStored(s1, a, off, chunk), i, off, chunk);
    StoreKeepsSlots(sb, s, s1, o, i, bn, data, a);
  }

  /** Writing the block that `bmap` returned moves no block. */
  lemma StoreKeepsSlots(sb: Super, s: Fs, s1: Fs, o: map<nat, Slot>, i: nat, bn: nat, data: Block, a: nat)
    requires Owned(sb, s1, o) && i < |s.inodes| && bn < MAXFILE && |data| == BSIZE && Bmapped(sb, s, s1, i, bn, a)
    ensures var s2 := s1.(disk := Put(s1.disk, a, data));
            && OnlyInode(sb, s, s2, i) && Filled(s, s2, i, bn)
            && (At(s, Slot(i, SlotOf(bn))) != 0 ==> s2.inodes == s.inodes)
  {
    var s2 := s1.(disk := Put(s1.disk, a, data));
    OwnerOf(sb, s1, o, Slot(i, SlotOf(bn)));
    forall t | IsSlot(s1, t) ensures At(s2, t) == At(s1, t) {
      DataWriteAt(sb, s1, o, i, bn, data, t);
    }
    assert IsSlot(s1, Slot(i, SlotOf(bn))) && IsSlot(s1, Slot(i, INDIRECT));
    forall j | 0 <= j < sb.ninodes ensures InodeAt(sb, s2.disk, j) == InodeAt(sb, s1.disk, j) {
      DataWriteInodes(sb, s1, a, data, j);
    }
  }

  /** The block write of one round of `writei` moves no block. */
  lemma ChunkLog(sb: Super, s: Fs, s1: Fs, o: map<nat, Slot>, i: nat, off: nat, chunk: seq<Byte>, a: nat)
    requires Owned(sb, s1, o) && i < |s1.inodes| && off / BSIZE < MAXFILE && off % BSIZE + |chunk| <= BSIZE
    requires a == At(s1, Slot(i, SlotOf(off / BSIZE))) != 0
    ensures DataStart(sb) <= a
    ensures var s2 := ChunkStored(s1, a, off, chunk);
            && At(s2, Slot(i, SlotOf(off / BSIZE))) == a
            && MapLog(sb, s, s2, i, off / BSIZE) == MapLog(sb, s, s1, i, off / BSIZE)
  {
    var bn := off / BSIZE;
    var data := Spliced(Read(s1.disk, a), off % BSIZE, chunk);
    OwnerOf(sb, s1, o, Slot(i, SlotOf(bn)));
    DataWriteAt(sb, s1, o, i, bn, data, Slot(i, SlotOf(bn)));
    DataWriteAt(sb, s1, o, i, bn, data, Slot(i, INDIRECT));
  }

  // ----- folded forms of the invariants

  /** `Owned`, folded. */
  ghost predicate Owning(sb: Super, s: Fs, o: map<nat, Slot>) {
    forall k | Look(k) :: Owned(sb, s, o)
  }

  /** `Consistent`, folded. */
  ghost predicate Sound(sb: Super, s: Fs, o: map<nat, Slot>) {
    forall k | Look(k) :: Consistent(sb, s, o)
  }

  /** `Writing`, folded. */
  ghost predicate Underway(sb: Super, s0: Fs, s: Fs, i: nat, off: nat, done: seq<Byte>) {
    forall k | Look(k) :: Writing(sb, s0, s, i, off, done)
  }

  /** `ChunkWritten`, folded. */
  ghost predicate OneMore(sb: Super, s: Fs, s': Fs, i: nat, off: nat, chunk: seq<Byte>) {
    forall k | Look(k) :: ChunkWritten(sb, s, s', i, off, chunk)
  }

  /** `bmap` followed by the block write, with all that one round of `writei` promises. */
  lemma ChunkFolded(sb: Super, s: Fs, s1: Fs, o: map<nat, Slot>, i: nat, off: nat, chunk: seq<Byte>, a: nat,
                    logged: set<nat>)
    requires Owning(sb, s1, o) && i < |s.inodes| && off / BSIZE < MAXFILE && off % BSIZE + |chunk| <= BSIZE
    requires Bmapped(sb, s, s1, i, off / BSIZE, a) && Covers(s.disk, s1.disk, logged)
    ensures var s2 := ChunkStored(s1, a, off, chunk);
            && Owning(sb, s2, o) && OneMore(sb, s, s2, i, off, chunk) && |s2.inodes| == |s.inodes|
            && At(s2, Slot(i, SlotOf(off / BSIZE))) == a
            && MapLog(sb, s, s2, i, off / BSIZE) == MapLog(sb, s, s1, i, off / BSIZE)
            && FreeBlocks(sb, s2.disk) == FreeBlocks(sb, s1.disk)
            && Covers(s.disk, s2.disk, logged + {a})
  {
    OwningMeans(sb, s1, o);
    ChunkDone(sb, s, s1, o, i, off, chunk, a);
    ChunkLog(sb, s, s1, o, i, off, chunk, a);
    DataWriteCount(sb, s1, a, Spliced(Read(s1.disk, a), off % BSIZE, chunk));
  }

  /** `FilesOk`, folded. */
  ghost predicate Tidy(sb: Super, s: Fs) {
    forall k | Look(k) :: FilesOk(sb, s)
  }

  /** Slots and file blocks are the same in two states, folded. */
  ghost predicate SameBlocks(s: Fs, s': Fs) {
    forall k | Look(k) :: SameFiles(s, s') && forall t | IsSlot(s, t) :: At(s', t) == At(s, t)
  }

  lemma SoundMeans(sb: Super, s: Fs, o: map<nat, Slot>)
    ensures Sound(sb, s, o) <==> Consistent(sb, s, o)
    ensures Sound(sb, s, o) <==> Owning(sb, s, o) && Tidy(sb, s)
  {
    assert Look(0);
  }

  /** The block of a byte inside the file is mapped. */
  lemma MappedInside(sb: Super, s: Fs, o: map<nat, Slot>, i: nat, off: nat, step: nat)
    requires Sound(sb, s, o) && i < |s.inodes| && 0 < step && off + step <= s.inodes[i].size
    ensures Owning(sb, s, o) && off / BSIZE < MAXFILE && At(s, Slot(i, SlotOf(off / BSIZE))) != 0
    ensures Missing(s, i, off / BSIZE) == 0
    ensures |Read(s.disk, At(s, Slot(i, SlotOf(off / BSIZE))))| == BSIZE
  {
    assert Look(0);
    assert FileOk(s, i);
    OwnerOf(sb, s, o, Slot(i, SlotOf(off / BSIZE)));
  }

  lemma StartWriting(sb: Super, s: Fs, o: map<nat, Slot>, i: nat, off: nat)
    requires Sound(sb, s, o) && i < |s.inodes| && off <= s.inodes[i].size
    ensures Owning(sb, s, o) && Underway(sb, s, s, i, off, [])
  {
    assert Look(0);
    WritingStart(sb, s, o, i, off);
  }

  /**
   A round of `writei` up to `end`, folded: `m` bytes from `cur` inside one block, after `n` bytes that end with
   a block.
   */
  ghost predicate Turn(off: nat, n: nat, cur: nat, m: nat, end: nat) {
    forall k | Look(k) ::
      && cur == off + n && 0 < m && cur % BSIZE + m <= BSIZE && cur + m <= end <= MAXFILE * BSIZE
      && (n == 0 || cur % BSIZE == 0)
  }

  lemma TurnMeans(off: nat, n: nat, cur: nat, m: nat, end: nat)
    requires Turn(off, n, cur, m, end)
    ensures cur == off + n && 0 < m && cur % BSIZE + m <= BSIZE && cur + m <= end <= MAXFILE * BSIZE
    ensures n == 0 || cur % BSIZE == 0
  {
    assert Look(0);
  }

  /** The first `tot` of `n` bytes end with a block, or are all; folded. */
  ghost predicate Stops(off: nat, n: nat, tot: nat) {
    forall k | Look(k) :: tot == 0 || tot == n || (off + tot) % BSIZE == 0
  }

  lemma StopsAtStart(off: nat, n: nat)
    ensures Stops(off, n, 0)
  {
  }

  lemma NextTurn(off: nat, n: nat, tot: nat, cur: nat, m: nat, end: nat, tot': nat)
    requires Stops(off, n, tot) && tot < n && cur == off + tot && m == Portion(cur, n - tot) && tot' == tot + m
    requires end == off + n <= MAXFILE * BSIZE
    ensures Turn(off, tot, cur, m, end) && 0 < m && tot' <= n && Stops(off, n, tot')
    ensures cur / BSIZE < MAXFILE && cur % BSIZE + m <= BSIZE
  {
    assert Look(0);
    assert m == n - tot || (cur + m) % BSIZE == 0;
  }

  lemma KeepWriting(sb: Super, s0: Fs, s: Fs, s': Fs, i: nat, off: nat, done: seq<Byte>, cur: nat, chunk: seq<Byte>,
                    end: nat)
    requires Underway(sb, s0, s, i, off, done) && OneMore(sb, s, s', i, cur, chunk)
    requires Turn(off, |done|, cur, |chunk|, end) && i < |s0.inodes| && off <= s0.inodes[i].size
    ensures Underway(sb, s0, s', i, off, done + chunk)
  {
    assert Look(0);
    WritingStep(sb, s0, s, s', i, off, done, cur, chunk);
  }

  /** There are enough free blocks for block `bn` of inode `i`, folded. */
  ghost predicate Room(sb: Super, s: Fs, i: nat, bn: nat) {
    forall k | Look(k) :: Missing(s, i, bn) <= FreeBlocks(sb, s.disk)
  }

  /** There are enough free blocks for a file of `size` bytes to reach up to `end`, folded. */
  ghost predicate RoomUpTo(sb: Super, s: Fs, size: nat, end: nat) {
    forall k | Look(k) :: Demand(size, end) <= FreeBlocks(sb, s.disk)
  }

  lemma RoomMeans(sb: Super, s: Fs, i: nat, bn: nat)
    ensures Room(sb, s, i, bn) <==> Missing(s, i, bn) <= FreeBlocks(sb, s.disk)
  {
    assert Look(0);
  }

  /** One round of `writei`, the free blocks it took and the blocks it logged. */
  ghost predicate RoundDone(sb: Super, s: Fs, s': Fs, i: nat, off: nat, chunk: seq<Byte>, log: set<nat>, log': set<nat>)
  {
    var bn := off / BSIZE;
    && OneMore(sb, s, s', i, off, chunk)
    && FreeBlocks(sb, s'.disk) == FreeBlocks(sb, s.disk) - Missing(s, i, bn)
    && log' == log + MapLog(sb, s, s', i, bn) + {At(s', Slot(i, SlotOf(bn)))}
    && Covers(s.disk, s'.disk, log')
  }

  ghost predicate Round(sb: Super, s: Fs, s': Fs, i: nat, off: nat, chunk: seq<Byte>, log: set<nat>, log': set<nat>) {
    forall k | Look(k) :: RoundDone(sb, s, s', i, off, chunk, log, log')
  }

  /** The data blocks and the free map blocks that `writei` logged so far. */
  datatype Ledger = Ledger(data: set<nat>, bits: set<nat>)

  /** What the rounds of `writei` so far took, folded. */
  ghost predicate Took(sb: Super, s0: Fs, s: Fs, i: nat, off: nat, n: nat) {
    forall k | Look(k) ::
      FreeBlocks(sb, s.disk) == FreeBlocks(sb, s0.disk) - Demand(InodeOrEmpty(s0, i).size, off + n)
  }

  /** How much the rounds of `writei` so far logged, folded. */
  ghost predicate Handed(s0: Fs, s: Fs, i: nat, off: nat, n: nat, log: set<nat>, log': set<nat>, l: Ledger) {
    forall k | Look(k) ::
      && Sorted(log, log', s, i, l.data, l.bits)
      && |l.data| <= Touched(off, n) && |l.bits| <= Demand(InodeOrEmpty(s0, i).size, off + n)
  }

  /** What the rounds of `writei` so far took and logged. */
  ghost predicate Spending(sb: Super, s0: Fs, s: Fs, i: nat, off: nat, n: nat, log: set<nat>, log': set<nat>, l: Ledger)
  {
    Took(sb, s0, s, i, off, n) && Handed(s0, s, i, off, n, log, log', l) && Covering(s0.disk, s.disk, log')
  }

  ghost predicate Covering(d: Disk, e: Disk, log: set<nat>) {
    forall k | Look(k) :: Covers(d, e, log)
  }

  lemma CoveringMeans(d: Disk, e: Disk, log: set<nat>)
    requires Covering(d, e, log)
    ensures Covers(d, e, log)
  {
    assert Look(0);
  }

  lemma StartSpending(sb: Super, s: Fs, i: nat, off: nat, log: set<nat>)
    requires i < |s.inodes| && off <= s.inodes[i].size
    ensures Spending(sb, s, s, i, off, 0, log, log, Ledger({}, {}))
  {
  }

  /** What `m` more bytes after the first `n` need, and how many blocks they touch; folded. */
  ghost predicate OneRound(size: nat, s: Fs, i: nat, off: nat, n: nat, m: nat) {
    forall k | Look(k) ::
      && Demand(size, off + n + m) == Demand(size, off + n) + Missing(s, i, (off + n) / BSIZE)
      && Touched(off, n + m) == Touched(off, n) + 1
  }

  lemma RoundNumbers(s: Fs, i: nat, size: nat, off: nat, n: nat, cur: nat, m: nat, bn: nat)
    requires Mapped(s, i, Max(size, cur)) && cur == off + n && bn == cur / BSIZE < MAXFILE && off <= size
    requires 0 < m && cur % BSIZE + m <= BSIZE && (n == 0 || cur % BSIZE == 0)
    ensures OneRound(size, s, i, off, n, m)
  {
    MissingIs(s, i, bn, Max(size, cur));
    DemandStep(size, cur, m);
    TouchedStep(off, n, m);
  }

  lemma UnderwayMapped(sb: Super, s0: Fs, s: Fs, i: nat, off: nat, done: seq<Byte>)
    requires Underway(sb, s0, s, i, off, done) && i < |s0.inodes|
    ensures Mapped(s, i, Max(s0.inodes[i].size, off + |done|))
  {
    assert Look(0);
  }

  /** The arithmetic of one round of `writei`. */
  lemma RoundNeeds(sb: Super, s0: Fs, s: Fs, i: nat, off: nat, done: seq<Byte>, cur: nat, m: nat, end: nat)
    requires Underway(sb, s0, s, i, off, done) && Turn(off, |done|, cur, m, end)
    requires i < |s0.inodes| && off <= s0.inodes[i].size
    ensures OneRound(s0.inodes[i].size, s, i, off, |done|, m)
  {
    TurnMeans(off, |done|, cur, m, end);
    UnderwayMapped(sb, s0, s, i, off, done);
    RoundNumbers(s, i, s0.inodes[i].size, off, |done|, cur, m, cur / BSIZE);
  }

  /** A round that finds too few blocks means that the whole write needs too many. */
  lemma NoRoom(sb: Super, s0: Fs, s: Fs, i: nat, off: nat, done: seq<Byte>, cur: nat, m: nat, end: nat, log: set<nat>,
               log': set<nat>, l: Ledger)
    requires i < |s0.inodes| && off <= s0.inodes[i].size && Turn(off, |done|, cur, m, end)
    requires InProgress(sb, s0, s, i, off, done, log, log', l) && !Room(sb, s, i, cur / BSIZE)
    ensures !RoomUpTo(sb, s0, s0.inodes[i].size, end)
  {
    TurnMeans(off, |done|, cur, m, end);
    InProgressMeans(sb, s0, s, i, off, done, log, log', l);
    RoundNeeds(sb, s0, s, i, off, done, cur, m, end);
    NoneLeft(sb, s0, s, i, off, |done|, cur, m, end);
  }

  lemma NoneLeft(sb: Super, s0: Fs, s: Fs, i: nat, off: nat, n: nat, cur: nat, m: nat, end: nat)
    requires i < |s0.inodes| && cur == off + n && cur + m <= end
    requires OneRound(s0.inodes[i].size, s, i, off, n, m)
    requires Took(sb, s0, s, i, off, n) && !Room(sb, s, i, cur / BSIZE)
    ensures !RoomUpTo(sb, s0, s0.inodes[i].size, end)
  {
    DemandGrows(s0.inodes[i].size, cur + m, end);
    assert Look(0);
  }

  lemma KeepSpending(sb: Super, s0: Fs, s: Fs, s': Fs, i: nat, off: nat, done: seq<Byte>, cur: nat, chunk: seq<Byte>,
                     end: nat, log: set<nat>, log1: set<nat>, log2: set<nat>, l: Ledger)
    returns (l': Ledger)
    requires Underway(sb, s0, s, i, off, done) && Turn(off, |done|, cur, |chunk|, end) && cur == off + |done|
    requires i < |s0.inodes| && off <= s0.inodes[i].size
    requires Spending(sb, s0, s, i, off, |done|, log, log1, l) && Round(sb, s, s', i, cur, chunk, log1, log2)
    ensures OneMore(sb, s, s', i, cur, chunk) && Spending(sb, s0, s', i, off, |done| + |chunk|, log, log2, l')
  {
    RoundNeeds(sb, s0, s, i, off, done, cur, |chunk|, end);
    RoundWrites(sb, s, s', i, cur, chunk, log1, log2);
    l' := SpendRound(sb, s0, s, s', i, off, |done|, cur, cur / BSIZE, chunk, log, log1, log2, l);
  }

  lemma SpendRound(sb: Super, s0: Fs, s: Fs, s': Fs, i: nat, off: nat, n: nat, cur: nat, bn: nat, chunk: seq<Byte>,
                   log: set<nat>, log1: set<nat>, log2: set<nat>, l: Ledger)
    returns (l': Ledger)
    requires i < |s0.inodes| && cur == off + n && bn == cur / BSIZE && OneMore(sb, s, s', i, cur, chunk)
    requires OneRound(s0.inodes[i].size, s, i, off, n, |chunk|)
    requires Spending(sb, s0, s, i, off, n, log, log1, l) && Round(sb, s, s', i, cur, chunk, log1, log2)
    ensures Spending(sb, s0, s', i, off, n + |chunk|, log, log2, l')
  {
    l' := NextLedger(sb, s, s', i, bn, l);
    RoundKeepsIndirect(sb, s, s', i, cur, bn, chunk);
    RoundLogs(sb, s, s', i, cur, bn, chunk, log1, log2);
    TookStep(sb, s0, s, s', i, off, n, cur, chunk, log1, log2);
    HandedStep(sb, s0, s, s', i, off, n, bn, |chunk|, log, log1, log2, l, l');
    CoveringStep(sb, s0, s, s', i, cur, chunk, log1, log2);
  }

  /** `writei` after the bytes `done`, folded. */
  ghost predicate InProgress(sb: Super, s0: Fs, s: Fs, i: nat, off: nat, done: seq<Byte>, log: set<nat>, log': set<nat>,
                             l: Ledger)
  {
    forall k | Look(k) ::
      Underway(sb, s0, s, i, off, done) && Spending(sb, s0, s, i, off, |done|, log, log', l)
  }

  lemma InProgressMeans(sb: Super, s0: Fs, s: Fs, i: nat, off: nat, done: seq<Byte>, log: set<nat>, log': set<nat>,
                        l: Ledger)
    requires InProgress(sb, s0, s, i, off, done, log, log', l)
    ensures Underway(sb, s0, s, i, off, done) && Spending(sb, s0, s, i, off, |done|, log, log', l)
  {
    assert Look(0);
  }

  lemma StartGoing(sb: Super, s: Fs, o: map<nat, Slot>, i: nat, off: nat, log: set<nat>)
    requires Sound(sb, s, o) && i < |s.inodes| && off <= s.inodes[i].size
    ensures Owning(sb, s, o) && InProgress(sb, s, s, i, off, [], log, log, Ledger({}, {}))
  {
    StartWriting(sb, s, o, i, off);
    StartSpending(sb, s, i, off, log);
  }

  lemma InProgressFold(sb: Super, s0: Fs, s: Fs, i: nat, off: nat, done: seq<Byte>, n: nat, log: set<nat>,
                       log': set<nat>, l: Ledger)
    requires Underway(sb, s0, s, i, off, done) && n == |done| && Spending(sb, s0, s, i, off, n, log, log', l)
    ensures InProgress(sb, s0, s, i, off, done, log, log', l)
  {
  }

  /** One more round of `writei`. */
  lemma KeepGoing(sb: Super, s0: Fs, s: Fs, s': Fs, i: nat, off: nat, done: seq<Byte>, cur: nat, chunk: seq<Byte>,
                  done': seq<Byte>, end: nat, log: set<nat>, log1: set<nat>, log2: set<nat>, l: Ledger)
    returns (l': Ledger)
    requires i < |s0.inodes| && off <= s0.inodes[i].size && done' == done + chunk
    requires Turn(off, |done|, cur, |chunk|, end) && cur == off + |done|
    requires InProgress(sb, s0, s, i, off, done, log, log1, l) && Round(sb, s, s', i, cur, chunk, log1, log2)
    ensures InProgress(sb, s0, s', i, off, done', log, log2, l')
  {
    InProgressMeans(sb, s0, s, i, off, done, log, log1, l);
    l' := KeepSpending(sb, s0, s, s', i, off, done, cur, chunk, end, log, log1, log2, l);
    KeepWriting(sb, s0, s, s', i, off, done, cur, chunk, end);
    InProgressFold(sb, s0, s', i, off, done + chunk, |done| + |chunk|, log, log2, l');
  }

  lemma ChunkOf(src: seq<Byte>, t: nat, t': nat, done: seq<Byte>, chunk: seq<Byte>, done': seq<Byte>)
    requires t <= t' <= |src| && done == src[..t] && chunk == src[t..t'] && done' == src[..t']
    ensures |done| == t && |chunk| == t' - t && done' == done + chunk
  {
  }

  lemma HadRoom(sb: Super, s0: Fs, s: Fs, i: nat, off: nat, done: seq<Byte>, log: set<nat>, log': set<nat>, l: Ledger)
    requires InProgress(sb, s0, s, i, off, done, log, log', l) && i < |s0.inodes|
    ensures RoomUpTo(sb, s0, s0.inodes[i].size, off + |done|)
  {
    InProgressMeans(sb, s0, s, i, off, done, log, log', l);
    assert Look(0);
  }

  lemma RoundKeepsIndirect(sb: Super, s: Fs, s': Fs, i: nat, off: nat, bn: nat, chunk: seq<Byte>)
    requires OneMore(sb, s, s', i, off, chunk) && bn == off / BSIZE
    ensures KeepsIndirect(s, s', i, bn)
  {
    assert Look(0);
    assert Filled(s, s', i, bn);
  }

  lemma TookStep(sb: Super, s0: Fs, s: Fs, s': Fs, i: nat, off: nat, n: nat, cur: nat, chunk: seq<Byte>,
                 log: set<nat>, log': set<nat>)
    requires i < |s0.inodes| && cur == off + n && OneRound(s0.inodes[i].size, s, i, off, n, |chunk|)
    requires Took(sb, s0, s, i, off, n) && Round(sb, s, s', i, cur, chunk, log, log')
    ensures Took(sb, s0, s', i, off, n + |chunk|)
  {
    assert Look(0);
    assert off + (n + |chunk|) == off + n + |chunk|;
  }

  function NextLedger(sb: Super, s: Fs, s': Fs, i: nat, bn: nat, l: Ledger): Ledger {
    Ledger(l.data + {At(s', Slot(i, SlotOf(bn)))}, l.bits + BitLog(sb, s, s', i, bn))
  }

  lemma HandedStep(sb: Super, s0: Fs, s: Fs, s': Fs, i: nat, off: nat, n: nat, bn: nat, m: nat, log: set<nat>,
                   log1: set<nat>, log2: set<nat>, l: Ledger, l': Ledger)
    requires i < |s0.inodes| && bn == (off + n) / BSIZE && KeepsIndirect(s, s', i, bn)
    requires OneRound(s0.inodes[i].size, s, i, off, n, m) && Handed(s0, s, i, off, n, log, log1, l)
    requires log2 == log1 + MapLog(sb, s, s', i, bn) + {At(s', Slot(i, SlotOf(bn)))}
    requires l' == NextLedger(sb, s, s', i, bn, l)
    ensures Handed(s0, s', i, off, n + m, log, log2, l')
  {
    assert Look(0);
    SortedStep(sb, log, log1, s, s', i, bn, l.data, l.bits);
    assert off + (n + m) == off + n + m;
  }

  lemma RoundLogs(sb: Super, s: Fs, s': Fs, i: nat, off: nat, bn: nat, chunk: seq<Byte>, log: set<nat>, log': set<nat>)
    requires Round(sb, s, s', i, off, chunk, log, log') && bn == off / BSIZE
    ensures log' == log + MapLog(sb, s, s', i, bn) + {At(s', Slot(i, SlotOf(bn)))}
  {
    assert Look(0);
  }

  lemma CoveringStep(sb: Super, s0: Fs, s: Fs, s': Fs, i: nat, off: nat, chunk: seq<Byte>, log: set<nat>,
                     log': set<nat>)
    requires Covering(s0.disk, s.disk, log) && Round(sb, s, s', i, off, chunk, log, log')
    ensures Covering(s0.disk, s'.disk, log')
  {
    assert Look(0);
    CoversTrans(s0.disk, s.disk, s'.disk, log, log');
  }

  lemma RoundWrites(sb: Super, s: Fs, s': Fs, i: nat, off: nat, chunk: seq<Byte>, log: set<nat>, log': set<nat>)
    requires Round(sb, s, s', i, off, chunk, log, log')
    ensures OneMore(sb, s, s', i, off, chunk)
  {
    assert Look(0);
  }

  lemma FinishBlocks(sb: Super, s: Fs, o: map<nat, Slot>, i: nat, end: nat)
    requires Owning(sb, s, o) && i < |s.inodes| && end <= MAXFILE * BSIZE
    ensures Owning(sb, Finished(sb, s, i, end), o) && SameBlocks(s, Finished(sb, s, i, end))
  {
    assert Look(0);
    FinishedBlocks(sb, s, o, i, end);
  }

  lemma FinishTidy(sb: Super, s0: Fs, s: Fs, i: nat, off: nat, src: seq<Byte>, end: nat)
    requires end == off + |src| && i < |s0.inodes| && end <= MAXFILE * BSIZE
    requires Tidy(sb, s0) && Shape(sb, s) && Underway(sb, s0, s, i, off, src)
    requires SameBlocks(s, Finished(sb, s, i, end))
    ensures Tidy(sb, Finished(sb, s, i, end))
  {
    assert Look(0);
    FinishedFiles(sb, s0, s, Finished(sb, s, i, end), i, off, src);
  }

  lemma UnderwayMeans(sb: Super, s0: Fs, s: Fs, i: nat, off: nat, done: seq<Byte>)
    requires Underway(sb, s0, s, i, off, done)
    ensures Writing(sb, s0, s, i, off, done)
  {
    assert Look(0);
  }

  lemma SameBlocksMeans(s: Fs, s': Fs)
    requires SameBlocks(s, s')
    ensures SameFiles(s, s')
  {
    assert Look(0);
  }

  lemma FinishContents(sb: Super, s0: Fs, s: Fs, i: nat, off: nat, src: seq<Byte>, end: nat)
    requires end == off + |src| && i < |s0.inodes| && off <= s0.inodes[i].size && end <= MAXFILE * BSIZE
    requires forall j | 0 <= j < |s0.inodes| :: s0.inodes[j].size <= MAXFILE * BSIZE
    requires Underway(sb, s0, s, i, off, src) && SameBlocks(s, Finished(sb, s, i, end))
    ensures Wrote(s0, Finished(sb, s, i, end), i, off, src)
  {
    UnderwayMeans(sb, s0, s, i, off, src);
    SameBlocksMeans(s, Finished(sb, s, i, end));
    FinishedContents(sb, s0, s, i, off, src, end);
  }

  lemma OwningShape(sb: Super, s: Fs, o: map<nat, Slot>)
    requires Owning(sb, s, o)
    ensures Shape(sb, s)
  {
    assert Look(0);
  }

  lemma TidySizes(sb: Super, s: Fs)
    requires Tidy(sb, s)
    ensures forall j | 0 <= j < |s.inodes| :: s.inodes[j].size <= MAXFILE * BSIZE
  {
    assert Look(0);
    forall j | 0 <= j < |s.inodes| ensures s.inodes[j].size <= MAXFILE * BSIZE {
      assert FileOk(s, j);
    }
  }

  /** Setting the size and updating the inode completes `writei`. */
  lemma FinishWriting(sb: Super, s0: Fs, o0: map<nat, Slot>, s: Fs, o: map<nat, Slot>, s': Fs, i: nat, off: nat,
                      src: seq<Byte>, end: nat)
    requires end == off + |src| && s' == Finished(sb, s, i, end)
    requires i < |s0.inodes| == |s.inodes| && off <= s0.inodes[i].size && end <= MAXFILE * BSIZE
    requires Sound(sb, s0, o0) && Owning(sb, s, o) && Underway(sb, s0, s, i, off, src)
    ensures Sound(sb, s', o) && Wrote(s0, s', i, off, src)
  {
    SoundParts(sb, s0, o0);
    FinishBlocks(sb, s, o, i, end);
    OwningShape(sb, s, o);
    FinishTidy(sb, s0, s, i, off, src, end);
    TidySizes(sb, s0);
    FinishContents(sb, s0, s, i, off, src, end);
    SoundParts(sb, s', o);
  }

  lemma RoomUpToMeans(sb: Super, s: Fs, size: nat, end: nat)
    ensures RoomUpTo(sb, s, size, end) <==> Demand(size, end) <= FreeBlocks(sb, s.disk)
  {
    assert Look(0);
  }

  /** The cost of a whole `writei` in free blocks and in logged blocks. */
  ghost predicate Paid(sb: Super, s0: Fs, s: Fs, i: nat, off: nat, n: nat, log: set<nat>, log': set<nat>) {
    var size := InodeOrEmpty(s0, i).size;
    && FreeBlocks(sb, s.disk) == FreeBlocks(sb, s0.disk) - Demand(size, off + n)
    && Covers(s0.disk, s.disk, log') && |log' - log| <= WriteBudget(size, off, n)
  }

  ghost predicate Charged(sb: Super, s0: Fs, s: Fs, i: nat, off: nat, n: nat, log: set<nat>, log': set<nat>) {
    forall k | Look(k) :: Paid(sb, s0, s, i, off, n, log, log')
  }

  lemma ChargedMeans(sb: Super, s0: Fs, s: Fs, i: nat, off: nat, n: nat, log: set<nat>, log': set<nat>)
    requires Charged(sb, s0, s, i, off, n, log, log') && off <= InodeOrEmpty(s0, i).size
    ensures Paid(sb, s0, s, i, off, n, log, log')
    ensures n <= CHUNK ==> |log' - log| <= MAXOPBLOCKS
  {
    assert Look(0);
    if n <= CHUNK {
      ChunkFits(InodeOrEmpty(s0, i).size, off, n);
    }
  }

  lemma FinishSpending(sb: Super, s0: Fs, s: Fs, o: map<nat, Slot>, s': Fs, i: nat, off: nat, n: nat, end: nat,
                       log: set<nat>, log1: set<nat>, log2: set<nat>, l: Ledger)
    requires Owning(sb, s, o) && i < |s0.inodes| == |s.inodes| && end == off + n
    requires Spending(sb, s0, s, i, off, n, log, log1, l)
    requires s' == Finished(sb, s, i, end) && log2 == log1 + if end > s.inodes[i].size then {InodeBlock(sb, i)} else {}
    ensures Charged(sb, s0, s', i, off, n, log, log2)
  {
    OwningShape(sb, s, o);
    FinishedCount(sb, s, i, end);
    FinishCovers(sb, s0, s, i, end, log1);
    FinishLogs(sb, s0, s, i, off, n, log, log1, log2, l);
    FinishTook(sb, s0, s, i, off, n);
  }

  lemma FinishTook(sb: Super, s0: Fs, s: Fs, i: nat, off: nat, n: nat)
    requires Took(sb, s0, s, i, off, n)
    ensures FreeBlocks(sb, s.disk) == FreeBlocks(sb, s0.disk) - Demand(InodeOrEmpty(s0, i).size, off + n)
  {
    assert Look(0);
  }

  lemma FinishLogs(sb: Super, s0: Fs, s: Fs, i: nat, off: nat, n: nat, log: set<nat>, log1: set<nat>, log2: set<nat>,
                   l: Ledger)
    requires Handed(s0, s, i, off, n, log, log1, l) && (log2 == log1 || log2 == log1 + {InodeBlock(sb, i)})
    ensures |log2 - log| <= WriteBudget(InodeOrEmpty(s0, i).size, off, n)
  {
    assert Look(0);
    SortedEnd(log, log1, s, i, l.data, l.bits, InodeBlock(sb, i));
  }

  lemma FinishCovers(sb: Super, s0: Fs, s: Fs, i: nat, end: nat, log: set<nat>)
    requires Covering(s0.disk, s.disk, log)
    ensures Covers(s0.disk, s.disk, log)
    ensures Covers(s0.disk, Finished(sb, s, i, end).disk, log + {InodeBlock(sb, i)})
  {
    assert Look(0);
  }

  lemma SoundParts(sb: Super, s: Fs, o: map<nat, Slot>)
    ensures Sound(sb, s, o) <==> Owning(sb, s, o) && Tidy(sb, s)
  {
    SoundMeans(sb, s, o);
  }

  // ----- truncation, folded

  /** `Freed`, folded. */
  ghost predicate Freeing(sb: Super, s: Fs, o: map<nat, Slot>, d: Disk, i: nat, n: nat) {
    forall k | Look(k) :: Freed(sb, s, o, d, i, n)
  }

  /** What `itrunc` promises: an empty file, all other files as before, and only its own blocks freed. */
  ghost predicate TruncatedTo(sb: Super, s: Fs, s': Fs, i: nat) {
    && |s'.inodes| == |s.inodes|
    && (forall j | 0 <= j < |s.inodes| :: Contents(s', j) == if j == i then [] else Contents(s, j))
    && forall c | 0 <= c < sb.size :: Used(sb, s'.disk, c) <==>
         Used(sb, s.disk, c) && forall k | 0 <= k < SLOTS :: At(s, Slot(i, k)) == c ==> c == 0
  }

  lemma StartTruncating(sb: Super, s: Fs, o: map<nat, Slot>, i: nat)
    requires Sound(sb, s, o) && i < |s.inodes|
    ensures Owning(sb, s, o) && Freeing(sb, s, o, s.disk, i, 0) && |s.inodes[i].addrs| == NDIRECT + 1
  {
    assert Look(0);
    FreedNothing(sb, s, o, i);
  }

  lemma FreeingStep(sb: Super, s: Fs, o: map<nat, Slot>, d: Disk, i: nat, k: nat, n: nat)
    requires Owning(sb, s, o) && n == Rank(k) && Freeing(sb, s, o, d, i, n) && i < |s.inodes| && k < SLOTS
    ensures var a := At(s, Slot(i, k));
            && (a != 0 ==> Used(sb, d, a) && a < sb.size)
            && Freeing(sb, s, o, if a == 0 then d else SetUsed(sb, d, a, false), i, n + 1)
  {
    assert Look(0);
    FreedStep(sb, s, o, d, i, k);
    if At(s, Slot(i, k)) != 0 {
      StillUsed(sb, s, o, d, i, k);
      OwnerOf(sb, s, o, Slot(i, k));
    }
  }

  /** The indirect block is not changed by freeing blocks. */
  lemma IndirectStays(sb: Super, s: Fs, o: map<nat, Slot>, d: Disk, i: nat, n: nat, a: nat)
    requires Owning(sb, s, o) && Freeing(sb, s, o, d, i, n) && i < |s.inodes|
    requires a == At(s, Slot(i, INDIRECT)) != 0
    ensures Read(d, a) == Read(s.disk, a)
  {
    assert Look(0);
    OwnerOf(sb, s, o, Slot(i, INDIRECT));
  }

  /** Without an indirect block there is nothing more to free. */
  lemma NoEntries(sb: Super, s: Fs, o: map<nat, Slot>, d: Disk, i: nat)
    requires Owning(sb, s, o) && Freeing(sb, s, o, d, i, INDIRECT) && i < |s.inodes| && At(s, Slot(i, INDIRECT)) == 0
    ensures Freeing(sb, s, o, d, i, SLOTS)
  {
    NoEntriesFrom(sb, s, o, d, i, INDIRECT + 1);
    FreeingStep(sb, s, o, d, i, INDIRECT, SLOTS - 1);
  }

  lemma {:induction false} NoEntriesFrom(sb: Super, s: Fs, o: map<nat, Slot>, d: Disk, i: nat, k: nat)
    requires Owning(sb, s, o) && INDIRECT < k <= SLOTS && Freeing(sb, s, o, d, i, k - 1)
    requires i < |s.inodes| && At(s, Slot(i, INDIRECT)) == 0
    ensures Freeing(sb, s, o, d, i, SLOTS - 1)
    decreases SLOTS - k
  {
    if k < SLOTS {
      FreeingStep(sb, s, o, d, i, k, k - 1);
      NoEntriesFrom(sb, s, o, d, i, k + 1);
    }
  }

  lemma EndTruncating(sb: Super, s: Fs, o: map<nat, Slot>, d: Disk, i: nat)
    requires Sound(sb, s, o) && Freeing(sb, s, o, d, i, SLOTS) && i < |s.inodes|
    ensures Sound(sb, Truncated(sb, s, d, i), Remaining(o, i))
    ensures TruncatedTo(sb, s, Truncated(sb, s, d, i), i)
  {
    assert Look(0);
    TruncatedConsistent(sb, s, o, d, i);
    forall j | 0 <= j < |s.inodes|
      ensures Contents(Truncated(sb, s, d, i), j) == if j == i then [] else Contents(s, j)
    {
      TruncatedContents(sb, s, o, d, i, j);
    }
    forall c | 0 <= c < sb.size
      ensures Used(sb, Truncated(sb, s, d, i).disk, c) <==>
              Used(sb, s.disk, c) && forall k | 0 <= k < SLOTS :: At(s, Slot(i, k)) == c ==> c == 0
    {
      TruncatedBits(sb, s, o, d, i, c);
    }
  }

  /** Since disk `d0` and log `log`, only blocks of the free map were changed and logged; folded. */
  ghost predicate Unmapping(sb: Super, d0: Disk, d: Disk, log: set<nat>, log': set<nat>) {
    forall k | Look(k) :: Covers(d0, d, log') && log <= log' <= log + MapBlocks(sb)
  }

  lemma UnmapNothing(sb: Super, d: Disk, log: set<nat>)
    ensures Unmapping(sb, d, d, log, log)
  {
  }

  lemma UnmapStep(sb: Super, d0: Disk, d: Disk, log: set<nat>, log1: set<nat>, b: nat, d': Disk, log2: set<nat>)
    requires Unmapping(sb, d0, d, log, log1) && b < sb.size
    requires d' == SetUsed(sb, d, b, false) && log2 == log1 + {BitBlock(sb, b)}
    ensures Unmapping(sb, d0, d', log, log2)
  {
    assert Look(0);
    BitBlockInMap(sb, b);
  }

  /** The blocks that `itrunc` logs: the free map and the inode. */
  lemma UnmapEnd(sb: Super, d0: Disk, d: Disk, log: set<nat>, log1: set<nat>, i: nat, ip: Inode, d': Disk,
                 log2: set<nat>)
    requires Unmapping(sb, d0, d, log, log1)
    requires d' == PutInode(sb, d, i, ip) && log2 == log1 + {InodeBlock(sb, i)}
    ensures Covers(d0, d', log2) && log2 - log <= MapBlocks(sb) + {InodeBlock(sb, i)}
    ensures |log2 - log| <= MapSize(sb) + 1
    ensures sb.size <= (MAXOPBLOCKS - 1) * BPB ==> |log2 - log| <= MAXOPBLOCKS
  {
    assert Look(0);
    UnmapCount(sb, log2 - log, InodeBlock(sb, i));
  }

  lemma UnmapCount(sb: Super, log: set<nat>, b: nat)
    requires log <= MapBlocks(sb) + {b}
    ensures |log| <= MapSize(sb) + 1 && (sb.size <= (MAXOPBLOCKS - 1) * BPB ==> |log| <= MAXOPBLOCKS)
  {
    RangeIs(sb.bmapstart, MapSize(sb));
    SubsetSize(log, MapBlocks(sb) + {b});
  }

  lemma WroteSize(s: Fs, s': Fs, i: nat, off: nat, src: seq<Byte>)
    requires Wrote(s, s', i, off, src) && i < |s.inodes|
    ensures i < |s'.inodes| && Contents(s', i) == Overwrite(Contents(s, i), off, src)
    ensures |Contents(s', i)| == s'.inodes[i].size
  {
  }

  // ----- whole calls

  lemma WritePerforms(sb: Super, s: Fs, o: map<nat, Slot>, s': Fs, o': map<nat, Slot>, i: nat, off: nat,
                      src: seq<Byte>, trace: seq<Change>)
    requires Sound(sb, s, o) && Sound(sb, s', o') && Leads(s.disk, trace, s'.disk) && i < |s.inodes|
    requires WriteCount(s.inodes[i].size, off, |src|) == -1 ==> s' == s
    requires WriteCount(s.inodes[i].size, off, |src|) != -1 ==> Wrote(s, s', i, off, src)
    ensures Performs(sb, s.disk, Write(i, off, src), trace)
  {
    SoundMeans(sb, s, o);
    SoundMeans(sb, s', o');
    if WriteCount(s.inodes[i].size, off, |src|) != -1 {
      WroteEffect(s, s', i, off, src);
    }
    PerformsIf(sb, s, o, s', o', Write(i, off, src), trace);
  }

  lemma TruncatePerforms(sb: Super, s: Fs, o: map<nat, Slot>, s': Fs, o': map<nat, Slot>, i: nat, trace: seq<Change>)
    requires Sound(sb, s, o) && Sound(sb, s', o') && Leads(s.disk, trace, s'.disk) && i < |s.inodes|
    requires TruncatedTo(sb, s, s', i)
    ensures Performs(sb, s.disk, Truncate(i), trace)
  {
    SoundMeans(sb, s, o);
    SoundMeans(sb, s', o');
    assert FilesOf(s') == Effect(FilesOf(s), Truncate(i));
    PerformsIf(sb, s, o, s', o', Truncate(i), trace);
  }

  // ----- filewrite

  /**
   How many of `n` bytes `filewrite` writes at `off` of a file of `size` bytes: none past the end of the file, and
   none of the first piece of CHUNK bytes that reaches past the longest file.
   */
  function Accepted(size: nat, off: nat, n: nat): (k: nat)
    ensures k <= n
  {
    if off > size || off > MAXFILE * BSIZE then 0
    else if off + n <= MAXFILE * BSIZE then n
    else (MAXFILE * BSIZE - off) / CHUNK * CHUNK
  }

  /** Exactly when a `filewrite` writes everything or nothing: unless whole pieces fit before the end of the file. */
  lemma AllOrNothing(size: nat, off: nat, n: nat)
    requires size <= MAXFILE * BSIZE
    ensures Accepted(size, off, n) == n || Accepted(size, off, n) == 0 <==>
            off > size || off + n <= MAXFILE * BSIZE || MAXFILE * BSIZE - off < CHUNK
  {
    if off <= size && off + n > MAXFILE * BSIZE {
      var room := MAXFILE * BSIZE - off;
      assert CHUNK == 1536 && room / 1536 * 1536 <= room < n;
    }
  }

  /** CHUNK bytes before the end of the longest file, a write of one byte more writes CHUNK bytes and fails. */
  lemma FailedWriteCanWrite()
    ensures var off := MAXFILE * BSIZE - CHUNK; Accepted(off, off, CHUNK + 1) == CHUNK
  {
    assert CHUNK / CHUNK * CHUNK == CHUNK;
  }

  /** The length of the next piece. */
  function Piece(left: nat): (m: nat)
    ensures 0 < left ==> 0 < m <= left && m <= CHUNK
  {
    if left > CHUNK then CHUNK else left
  }

  /** A piece is refused exactly when everything that is accepted is written. */
  lemma PieceAccepted(size: nat, off: nat, n: nat, t: nat, m: nat, top: nat)
    requires t < n && m == Piece(n - t) && t % CHUNK == 0 && off < UINT && size <= MAXFILE * BSIZE
    requires if off > size then t == 0 && top == size else top == Max(size, off + t) && off + t <= MAXFILE * BSIZE
    ensures WriteCount(top, off + t, m) == -1 <==> Accepted(size, off, n) == t
    ensures WriteCount(top, off + t, m) != -1 ==>
              off <= size && t + m <= Accepted(size, off, n) && (t + m == n || (t + m) % CHUNK == 0)
  {
    if off <= size {
      PieceFits(MAXFILE * BSIZE - off, n, t, m);
      OverflowExactly(off + t, m);
    }
  }

  lemma PieceFits(room: nat, n: nat, t: nat, m: nat)
    requires t < n && m == Piece(n - t) && t % CHUNK == 0 && t <= room
    ensures var all := if n <= room then n else room / CHUNK * CHUNK;
            (t + m > room <==> all == t) && (t + m <= room ==> t + m <= all && (t + m == n || (t + m) % CHUNK == 0))
  {
    var q, p := t / CHUNK, room / CHUNK;
    assert CHUNK == 1536 && t == 1536 * q && 1536 * p <= room < 1536 * p + 1536;
    assert q <= p;
    if m == 1536 {
      assert t + m == 1536 * (q + 1);
    }
  }

  /** The demand of two writes in a row. */
  lemma DemandAdds(size: nat, end: nat, end': nat)
    requires end <= end'
    ensures Demand(size, end') == Demand(size, end) + Demand(Max(size, end), end')
  {
    if end > size {
      BlocksForMonotone(size, end);
      BlocksForMonotone(end, end');
    }
  }

  /** Two writes in a row are one. */
  lemma WroteMore(s0: Fs, s: Fs, s': Fs, i: nat, off: nat, done: seq<Byte>, cur: nat, chunk: seq<Byte>)
    requires i < |s0.inodes| && Wrote(s0, s, i, off, done) && Wrote(s, s', i, cur, chunk)
    requires cur == off + |done| && off <= |Contents(s0, i)|
    ensures Wrote(s0, s', i, off, done + chunk)
  {
    OverwriteTwice(Contents(s0, i), off, done, chunk);
  }

  lemma OverwriteTwice(f: seq<Byte>, off: nat, a: seq<Byte>, b: seq<Byte>)
    requires off <= |f|
    ensures Overwrite(Overwrite(f, off, a), off + |a|, b) == Overwrite(f, off, a + b)
  {
  }

  /** `filewrite` after `t` bytes, folded. */
  ghost predicate Written(sb: Super, s0: Fs, s: Fs, i: nat, off: nat, done: seq<Byte>) {
    forall k | Look(k) ::
      var size := InodeOrEmpty(s0, i).size;
      && Wrote(s0, s, i, off, done) && (done == [] ==> s == s0)
      && (done != [] ==> off <= size && FreeBlocks(sb, s.disk) == FreeBlocks(sb, s0.disk) - Demand(size, off + |done|))
  }

  lemma WrittenNothing(sb: Super, s: Fs, i: nat, off: nat, done: seq<Byte>)
    requires i < |s.inodes| && done == []
    ensures Written(sb, s, s, i, off, done)
  {
    assert Overwrite(Contents(s, i), off, []) == Contents(s, i);
  }

  lemma WrittenMeans(sb: Super, s0: Fs, s: Fs, i: nat, off: nat, done: seq<Byte>)
    requires Written(sb, s0, s, i, off, done) && i < |s0.inodes|
    ensures Wrote(s0, s, i, off, done)
    ensures off <= s0.inodes[i].size ==> InodeOrEmpty(s, i).size == Max(s0.inodes[i].size, off + |done|)
    ensures off > s0.inodes[i].size ==> done == [] && InodeOrEmpty(s, i).size == s0.inodes[i].size
    ensures done != [] ==>
              FreeBlocks(sb, s.disk) == FreeBlocks(sb, s0.disk) - Demand(s0.inodes[i].size, off + |done|)
    ensures done == [] ==> s == s0
  {
    assert Look(0);
    assert |Contents(s, i)| == |Overwrite(Contents(s0, i), off, done)|;
  }

  lemma WrittenMore(sb: Super, s0: Fs, s: Fs, s': Fs, i: nat, off: nat, done: seq<Byte>, cur: nat, chunk: seq<Byte>,
                    done': seq<Byte>)
    requires Written(sb, s0, s, i, off, done) && i < |s0.inodes| == |s.inodes| && cur == off + |done|
    requires off <= s0.inodes[i].size && chunk != [] && Wrote(s, s', i, cur, chunk) && done' == done + chunk
    requires FreeBlocks(sb, s'.disk) == FreeBlocks(sb, s.disk) - Demand(s.inodes[i].size, cur + |chunk|)
    ensures Written(sb, s0, s', i, off, done')
  {
    WrittenMeans(sb, s0, s, i, off, done);
    WroteMore(s0, s, s', i, off, done, cur, chunk);
    DemandAdds(s0.inodes[i].size, cur, cur + |chunk|);
    assert off + |done'| == cur + |chunk|;
  }

  /** `all` is how much `filewrite` accepts, folded. */
  ghost predicate Takes(s: Fs, i: nat, off: nat, n: nat, all: nat) {
    forall k | Look(k) :: all == Accepted(InodeOrEmpty(s, i).size, off, n)
  }

  /** There are fewer free blocks than `filewrite` needs for `all` bytes, folded. */
  ghost predicate Refused(sb: Super, s: Fs, i: nat, off: nat, all: nat) {
    forall k | Look(k) :: 0 < all && FreeBlocks(sb, s.disk) < Demand(InodeOrEmpty(s, i).size, off + all)
  }

  lemma TakesMeans(s: Fs, i: nat, off: nat, n: nat, all: nat)
    ensures Takes(s, i, off, n, all) <==> all == Accepted(InodeOrEmpty(s, i).size, off, n)
  {
    assert Look(0);
  }

  lemma RefusedMeans(sb: Super, s: Fs, i: nat, off: nat, all: nat)
    ensures Refused(sb, s, i, off, all) <==>
            0 < all && FreeBlocks(sb, s.disk) < Demand(InodeOrEmpty(s, i).size, off + all)
  {
    assert Look(0);
  }

  /** Only whole pieces were written, folded. */
  ghost predicate Whole(n: nat, t: nat) {
    forall k | Look(k) :: t == n || t % CHUNK == 0
  }

  lemma WholeMeans(n: nat, t: nat)
    ensures Whole(n, t) <==> t == n || t % CHUNK == 0
  {
    assert Look(0);
  }

  /** What is known of the file before the next piece, which ends after `t'` bytes. */
  lemma PieceReady(sb: Super, s0: Fs, s: Fs, o: map<nat, Slot>, i: nat, off: nat, done: seq<Byte>, t: nat, t': nat,
                   n: nat, all: nat)
    requires Sound(sb, s, o) && Written(sb, s0, s, i, off, done) && i < |s0.inodes| == |s.inodes|
    requires t == |done| < n && Whole(n, t) && off < UINT && Takes(s0, i, off, n, all) && t' == t + Piece(n - t)
    ensures off + t < UINT && (WriteCount(s.inodes[i].size, off + t, t' - t) == -1 <==> t == all)
    ensures WriteCount(s.inodes[i].size, off + t, t' - t) != -1 ==>
              off <= s0.inodes[i].size && t' <= all && Whole(n, t')
  {
    WholeMeans(n, t);
    WholeMeans(n, t');
    WrittenMeans(sb, s0, s, i, off, done);
    TakesMeans(s0, i, off, n, all);
    SoundParts(sb, s, o);
    TidySizes(sb, s);
    PieceAccepted(s0.inodes[i].size, off, n, t, t' - t, s.inodes[i].size);
  }

  /** A transaction of `filewrite` that wrote `chunk` or refused it, folded. */
  ghost predicate Transacted(sb: Super, s: Fs, s': Fs, i: nat, off: nat, src: seq<Byte>, r: int, log: set<nat>) {
    forall k | Look(k) ::
      var size := InodeOrEmpty(s, i).size;
      && r == WriteCount(size, off, |src|) && (r == -1 ==> s' == s && log == {})
      && (r != -1 ==> Wrote(s, s', i, off, src))
      && (r != -1 ==> FreeBlocks(sb, s'.disk) == FreeBlocks(sb, s.disk) - Demand(size, off + |src|))
      && (|src| <= CHUNK ==> |log| <= MAXOPBLOCKS)
  }

  lemma TransactedMeans(sb: Super, s: Fs, s': Fs, i: nat, off: nat, src: seq<Byte>, r: int, log: set<nat>)
    requires Transacted(sb, s, s', i, off, src, r, log)
    ensures var size := InodeOrEmpty(s, i).size;
            && r == WriteCount(size, off, |src|) && (r == -1 ==> s' == s && log == {})
            && (r != -1 ==> Wrote(s, s', i, off, src))
            && (r != -1 ==> FreeBlocks(sb, s'.disk) == FreeBlocks(sb, s.disk) - Demand(size, off + |src|))
            && (|src| <= CHUNK ==> |log| <= MAXOPBLOCKS)
  {
    assert Look(0);
  }

  /** There are fewer free blocks than `writei` needs, folded. */
  ghost predicate NoSpace(sb: Super, s: Fs, i: nat, off: nat, n: nat) {
    forall k | Look(k) ::
      var size := InodeOrEmpty(s, i).size;
      WriteCount(size, off, n) != -1 && FreeBlocks(sb, s.disk) < Demand(size, off + n)
  }

  lemma NoSpaceMeans(sb: Super, s: Fs, i: nat, off: nat, n: nat)
    ensures var size := InodeOrEmpty(s, i).size;
            NoSpace(sb, s, i, off, n) <==>
            WriteCount(size, off, n) != -1 && FreeBlocks(sb, s.disk) < Demand(size, off + n)
  {
    assert Look(0);
  }

  /** A piece starts inside the longest file. */
  lemma PieceInside(sb: Super, s0: Fs, s: Fs, o: map<nat, Slot>, i: nat, off: nat, done: seq<Byte>, t: nat, n: nat,
                    all: nat)
    requires Sound(sb, s, o) && Written(sb, s0, s, i, off, done) && i < |s0.inodes| == |s.inodes|
    requires t == |done| < n && Whole(n, t) && off < UINT && Takes(s0, i, off, n, all)
    ensures off + t < UINT
  {
    PieceReady(sb, s0, s, o, i, off, done, t, t + Piece(n - t), n, all);
  }

  /** After one piece. */
  lemma PieceDone(sb: Super, s0: Fs, s: Fs, o: map<nat, Slot>, s': Fs, i: nat, off: nat, done: seq<Byte>, t: nat,
                  cur: nat, chunk: seq<Byte>, n: nat, all: nat, r: int, log: set<nat>, done': seq<Byte>, t': nat)
    requires Sound(sb, s, o) && Written(sb, s0, s, i, off, done) && i < |s0.inodes| == |s.inodes|
    requires t == |done| < n && Whole(n, t) && off < UINT && Takes(s0, i, off, n, all)
    requires cur == off + t && |chunk| == Piece(n - t) && done' == done + chunk && t' == t + |chunk|
    requires Transacted(sb, s, s', i, cur, chunk, r, log)
    ensures |s'.inodes| == |s0.inodes| && |log| <= MAXOPBLOCKS && (r == -1 <==> t == all)
    ensures r == -1 ==> Written(sb, s0, s', i, off, done)
    ensures r != -1 ==> r == |chunk| && t' <= all && Whole(n, t') && Written(sb, s0, s', i, off, done')
  {
    TransactedMeans(sb, s, s', i, cur, chunk, r, log);
    PieceReady(sb, s0, s, o, i, off, done, t, t', n, all);
    if r != -1 {
      WrittenMore(sb, s0, s, s', i, off, done, cur, chunk, done');
    }
  }

  lemma PieceRefused(sb: Super, s0: Fs, s: Fs, o: map<nat, Slot>, i: nat, off: nat, done: seq<Byte>, t: nat, cur: nat,
                     m: nat, n: nat, all: nat)
    requires Sound(sb, s, o) && Written(sb, s0, s, i, off, done) && i < |s0.inodes| == |s.inodes|
    requires t == |done| < n && Whole(n, t) && off < UINT && Takes(s0, i, off, n, all)
    requires cur == off + t && m == Piece(n - t) && NoSpace(sb, s, i, cur, m)
    ensures Refused(sb, s0, i, off, all)
  {
    PieceReady(sb, s0, s, o, i, off, done, t, t + m, n, all);
    NoSpaceMeans(sb, s, i, cur, m);
    PieceShort(sb, s0, s, i, off, done, cur, m, all);
  }

  lemma PieceShort(sb: Super, s0: Fs, s: Fs, i: nat, off: nat, done: seq<Byte>, cur: nat, m: nat, all: nat)
    requires Written(sb, s0, s, i, off, done) && i < |s0.inodes| == |s.inodes| && cur == off + |done| && 0 < m
    requires off <= s0.inodes[i].size && |done| + m <= all
    requires FreeBlocks(sb, s.disk) < Demand(s.inodes[i].size, cur + m)
    ensures Refused(sb, s0, i, off, all)
  {
    WrittenMeans(sb, s0, s, i, off, done);
    DemandAdds(s0.inodes[i].size, cur, cur + m);
    DemandGrows(s0.inodes[i].size, cur + m, off + all);
  }

  /** After the loop of `filewrite`. */
  lemma AllWritten(sb: Super, s0: Fs, s: Fs, i: nat, off: nat, done: seq<Byte>, n: nat, all: nat)
    requires Written(sb, s0, s, i, off, done) && i < |s0.inodes| && Takes(s0, i, off, n, all) && |done| <= all
    requires |done| == n || |done| == all
    ensures |done| == all == Accepted(s0.inodes[i].size, off, n) && Wrote(s0, s, i, off, done)
    ensures all == 0 || FreeBlocks(sb, s0.disk) >= Demand(s0.inodes[i].size, off + all)
  {
    WrittenMeans(sb, s0, s, i, off, done);
    TakesMeans(s0, i, off, n, all);
  }

  /** Two states with the same slots, files and inodes, folded. */
  ghost predicate Alike(sb: Super, s: Fs, s': Fs) {
    forall k | Look(k) ::
      && SameFiles(s, s') && s'.inodes == s.inodes && (forall t | IsSlot(s, t) :: At(s', t) == At(s, t))
      && forall j | 0 <= j < sb.ninodes :: InodeAt(sb, s'.disk, j) == InodeAt(sb, s.disk, j)
  }

  lemma AllocatedAlike(sb: Super, s: Fs, o: map<nat, Slot>, b: nat)
    requires Owned(sb, s, o) && b < sb.size && !Used(sb, s.disk, b)
    ensures Alike(sb, s, s.(disk := Allocated(sb, s.disk, b)))
  {
    AllocatedFiles(sb, s, o, b);
    AllocatedAll(sb, s, o, b);
  }

  lemma AlikeThen(sb: Super, s: Fs, s1: Fs, s': Fs, i: nat, t: Slot, b: nat)
    requires Alike(sb, s, s1) && SameFiles(s1, s') && OnlySlot(s1, s', t, b) && OnlyInode(sb, s1, s', i)
    ensures SameFiles(s, s') && OnlySlot(s, s', t, b) && OnlyInode(sb, s, s', i)
  {
    assert Look(0);
  }

  /** balloc, then the new block's number stored in the indirect block. */
  lemma EntryAllocated(sb: Super, s: Fs, o: map<nat, Slot>, i: nat, k: nat, b: nat)
    requires Owned(sb, s, o) && i < |s.inodes| && INDIRECT < k < SLOTS && At(s, Slot(i, INDIRECT)) != 0
    requires At(s, Slot(i, k)) == 0 && b < sb.size && !Used(sb, s.disk, b)
    ensures var s' := SetEntry(s.(disk := Allocated(sb, s.disk, b)), i, k, b);
            && Owned(sb, s', o[b := Slot(i, k)]) && SameFiles(s, s') && b != 0
            && OnlySlot(s, s', Slot(i, k), b) && OnlyInode(sb, s, s', i)
    ensures |s.inodes[i].addrs| == NDIRECT + 1
  {
    var s1 := s.(disk := Allocated(sb, s.disk, b));
    AllocatedOwned(sb, s, o, b);
    AllocatedAlike(sb, s, o, b);
    AllocatedAt(sb, s, o, b, Slot(i, INDIRECT));
    AllocatedAt(sb, s, o, b, Slot(i, k));
    FreshIsUnowned(sb, s, o, b);
    EntryWritten(sb, s1, o, i, k, b);
    AlikeThen(sb, s, s1, SetEntry(s1, i, k, b), i, Slot(i, k), b);
  }

  /** balloc, then the new block's number stored in the inode. */
  lemma InodeAllocated(sb: Super, s: Fs, o: map<nat, Slot>, i: nat, k: nat, b: nat)
    requires Owned(sb, s, o) && i < |s.inodes| && k <= INDIRECT && At(s, Slot(i, k)) == 0
    requires b < sb.size && !Used(sb, s.disk, b)
    ensures var s' := AssignInode(s.(disk := Allocated(sb, s.disk, b)), i, k, b);
            && Owned(sb, s', o[b := Slot(i, k)]) && SameFiles(s, s') && b != 0
            && OnlySlot(s, s', Slot(i, k), b) && OnlyInode(sb, s, s', i)
    ensures |s.inodes[i].addrs| == NDIRECT + 1
  {
    var s1 := s.(disk := Allocated(sb, s.disk, b));
    AllocatedOwned(sb, s, o, b);
    AllocatedFiles(sb, s, o, b);
    FreshIsUnowned(sb, s, o, b);
    AllocatedAll(sb, s, o, b);
    AssignInodeOk(sb, s1, i, k, b);
    AssignedOwned(sb, s1, AssignInode(s1, i, k, b), o, Slot(i, k), b);
  }

  /** Where `balloc` finds the bit of block `c`, and what taking it does. */
  lemma UsedAt(sb: Super, d: Disk, b: nat, bi: nat, c: nat, m: nat)
    requires b % BPB == 0 && bi < BPB && c == b + bi && m == sb.bmapstart + b / BPB
    ensures Used(sb, d, c) == BlockBit(Read(d, m), bi) && BitBlock(sb, c) == m
    ensures Put(Put(d, m, SetBlockBit(Read(d, m), bi, true)), c, ZeroBlock()) == Allocated(sb, d, c)
  {
    assert c / BPB == b / BPB && c % BPB == bi;
  }

  /** All blocks below `n` are in use, folded. */
  ghost predicate UsedBelow(sb: Super, d: Disk, n: nat) {
    forall k | Look(k) :: forall c: nat | c < n && c < sb.size :: Used(sb, d, c)
  }

  lemma UsedBelowMeans(sb: Super, d: Disk, n: nat)
    requires UsedBelow(sb, d, n)
    ensures forall c | 0 <= c < n && c < sb.size :: Used(sb, d, c)
  {
    assert Look(0);
  }

  lemma UsedBelowNext(sb: Super, d: Disk, n: nat)
    requires UsedBelow(sb, d, n) && Used(sb, d, n)
    ensures UsedBelow(sb, d, n + 1)
  {
    UsedBelowMeans(sb, d, n);
  }

  lemma UsedBelowEnd(sb: Super, d: Disk, n: nat, n': nat)
    requires UsedBelow(sb, d, n) && (n' <= n || sb.size <= n)
    ensures UsedBelow(sb, d, n')
  {
    UsedBelowMeans(sb, d, n);
  }

  // ----- the steps of bmap, folded

  /** Slot `k` of inode `i` was given block `b`: what changed, what it took and what was logged. */
  ghost predicate GivenBlock(sb: Super, s: Fs, s': Fs, i: nat, k: nat, b: nat, log: set<nat>, log': set<nat>,
                             extra: set<nat>)
  {
    && b != 0 && SameFiles(s, s') && OnlySlot(s, s', Slot(i, k), b) && OnlyInode(sb, s, s', i)
    && FreeBlocks(sb, s'.disk) == FreeBlocks(sb, s.disk) - 1
    && log' == log + extra && Covers(s.disk, s'.disk, extra)
  }

  ghost predicate Given(sb: Super, s: Fs, s': Fs, i: nat, k: nat, b: nat, log: set<nat>, log': set<nat>,
                        extra: set<nat>)
  {
    forall l | Look(l) :: GivenBlock(sb, s, s', i, k, b, log, log', extra)
  }

  lemma GivenMeans(sb: Super, s: Fs, s': Fs, i: nat, k: nat, b: nat, log: set<nat>, log': set<nat>, extra: set<nat>)
    requires Given(sb, s, s', i, k, b, log, log', extra)
    ensures GivenBlock(sb, s, s', i, k, b, log, log', extra)
  {
    assert Look(0);
  }

  lemma OwningMeans(sb: Super, s: Fs, o: map<nat, Slot>)
    ensures Owning(sb, s, o) <==> Owned(sb, s, o)
  {
    assert Look(0);
  }

  lemma InodeGiven(sb: Super, s: Fs, o: map<nat, Slot>, i: nat, k: nat, b: nat, log: set<nat>)
    requires Owning(sb, s, o) && i < |s.inodes| && k <= INDIRECT && At(s, Slot(i, k)) == 0
    requires b < sb.size && !Used(sb, s.disk, b)
    ensures var s' := AssignInode(s.(disk := Allocated(sb, s.disk, b)), i, k, b);
            && Owning(sb, s', o[b := Slot(i, k)])
            && Given(sb, s, s', i, k, b, log, log + NewLog(sb, b), NewLog(sb, b))
    ensures |s.inodes[i].addrs| == NDIRECT + 1
  {
    OwningMeans(sb, s, o);
    var s' := AssignInode(s.(disk := Allocated(sb, s.disk, b)), i, k, b);
    InodeAllocated(sb, s, o, i, k, b);
    AllocatedCount(sb, s, o, b);
    AllocatedCovers(sb, s.disk, b);
    OwningMeans(sb, s', o[b := Slot(i, k)]);
    assert GivenBlock(sb, s, s', i, k, b, log, log + NewLog(sb, b), NewLog(sb, b));
  }

  lemma EntryGiven(sb: Super, s: Fs, o: map<nat, Slot>, i: nat, k: nat, b: nat, log: set<nat>)
    requires Owning(sb, s, o) && i < |s.inodes| && INDIRECT < k < SLOTS && At(s, Slot(i, INDIRECT)) != 0
    requires At(s, Slot(i, k)) == 0 && b < sb.size && !Used(sb, s.disk, b)
    ensures var s' := SetEntry(s.(disk := Allocated(sb, s.disk, b)), i, k, b);
            var extra := NewLog(sb, b) + {At(s, Slot(i, INDIRECT))};
            Owning(sb, s', o[b := Slot(i, k)]) && Given(sb, s, s', i, k, b, log, log + extra, extra)
    ensures |s.inodes[i].addrs| == NDIRECT + 1
  {
    OwningMeans(sb, s, o);
    var s1, a := s.(disk := Allocated(sb, s.disk, b)), At(s, Slot(i, INDIRECT));
    var s' := SetEntry(s1, i, k, b);
    EntryAllocated(sb, s, o, i, k, b);
    OwnerOf(sb, s, o, Slot(i, INDIRECT));
    EntryTaken(sb, s, o, a, b, SetWord(Read(s1.disk, a), k - INDIRECT - 1, b));
    OwningMeans(sb, s', o[b := Slot(i, k)]);
    var extra := NewLog(sb, b) + {a};
    assert GivenBlock(sb, s, s', i, k, b, log, log + extra, extra);
  }

  /** `bmap` went from `s` to `s'`: what changed, what it took and what was logged. */
  ghost predicate DidMap(sb: Super, s: Fs, s': Fs, i: nat, bn: nat, a: nat, log: set<nat>, log': set<nat>) {
    && Bmapped(sb, s, s', i, bn, a)
    && FreeBlocks(sb, s'.disk) == FreeBlocks(sb, s.disk) - Missing(s, i, bn)
    && log' == log + MapLog(sb, s, s', i, bn) && Covers(s.disk, s'.disk, log')
  }

  ghost predicate Did(sb: Super, s: Fs, s': Fs, i: nat, bn: nat, a: nat, log: set<nat>, log': set<nat>) {
    forall l | Look(l) :: DidMap(sb, s, s', i, bn, a, log, log')
  }

  lemma DidMeans(sb: Super, s: Fs, s': Fs, i: nat, bn: nat, a: nat, log: set<nat>, log': set<nat>)
    requires Did(sb, s, s', i, bn, a, log, log')
    ensures DidMap(sb, s, s', i, bn, a, log, log')
  {
    assert Look(0);
  }

  lemma DidNothing(sb: Super, s: Fs, i: nat, bn: nat, log: set<nat>)
    requires bn < MAXFILE && At(s, Slot(i, SlotOf(bn))) != 0
    ensures Did(sb, s, s, i, bn, At(s, Slot(i, SlotOf(bn))), log, log) && Missing(s, i, bn) == 0
  {
    BmappedNothing(sb, s, i, bn);
    assert MapLog(sb, s, s, i, bn) == {};
    assert DidMap(sb, s, s, i, bn, At(s, Slot(i, SlotOf(bn))), log, log);
  }

  lemma DidDirect(sb: Super, s: Fs, s': Fs, i: nat, bn: nat, a: nat, log: set<nat>, log': set<nat>)
    requires Given(sb, s, s', i, bn, a, log, log', NewLog(sb, a)) && i < |s.inodes| && bn < NDIRECT
    requires At(s, Slot(i, bn)) == 0
    ensures Did(sb, s, s', i, bn, a, log, log')
  {
    GivenMeans(sb, s, s', i, bn, a, log, log', NewLog(sb, a));
    BmappedOne(sb, s, s', i, bn, a);
    CoversMore(s.disk, s'.disk, NewLog(sb, a), log');
    assert MapLog(sb, s, s', i, bn) == NewLog(sb, a);
    assert DidMap(sb, s, s', i, bn, a, log, log');
  }

  lemma DidEntry(sb: Super, s: Fs, s': Fs, i: nat, bn: nat, a: nat, log: set<nat>, log': set<nat>)
    requires Given(sb, s, s', i, bn + 1, a, log, log', NewLog(sb, a) + {At(s, Slot(i, INDIRECT))})
    requires i < |s.inodes| && NDIRECT <= bn < MAXFILE && At(s, Slot(i, bn + 1)) == 0 && At(s, Slot(i, INDIRECT)) != 0
    ensures Did(sb, s, s', i, bn, a, log, log')
  {
    var extra := NewLog(sb, a) + {At(s, Slot(i, INDIRECT))};
    GivenMeans(sb, s, s', i, bn + 1, a, log, log', extra);
    BmappedOne(sb, s, s', i, bn, a);
    CoversMore(s.disk, s'.disk, extra, log');
    assert IsSlot(s, Slot(i, INDIRECT));
    assert MapLog(sb, s, s', i, bn) == extra;
    assert DidMap(sb, s, s', i, bn, a, log, log');
  }

  /** After the indirect block was allocated. */
  lemma GivenIndirect(sb: Super, s: Fs, s1: Fs, i: nat, bn: nat, x: nat, log: set<nat>, log1: set<nat>)
    requires Given(sb, s, s1, i, INDIRECT, x, log, log1, NewLog(sb, x)) && i < |s.inodes| && NDIRECT <= bn < MAXFILE
    requires At(s, Slot(i, INDIRECT)) == 0
    ensures At(s1, Slot(i, INDIRECT)) != 0 && FreeBlocks(sb, s1.disk) == FreeBlocks(sb, s.disk) - 1
    ensures Missing(s, i, bn) == 2 && Missing(s1, i, bn) == 1
  {
    GivenMeans(sb, s, s1, i, INDIRECT, x, log, log1, NewLog(sb, x));
    assert IsSlot(s, Slot(i, INDIRECT)) && IsSlot(s, Slot(i, bn + 1));
  }

  lemma DidTwo(sb: Super, s: Fs, s1: Fs, s': Fs, i: nat, bn: nat, a: nat, x: nat, log: set<nat>, log1: set<nat>,
               log2: set<nat>)
    requires Given(sb, s, s1, i, INDIRECT, x, log, log1, NewLog(sb, x)) && Did(sb, s1, s', i, bn, a, log1, log2)
    requires i < |s.inodes| && NDIRECT <= bn < MAXFILE && At(s, Slot(i, INDIRECT)) == 0
    ensures Did(sb, s, s', i, bn, a, log, log2)
  {
    GivenIndirect(sb, s, s1, i, bn, x, log, log1);
    GivenMeans(sb, s, s1, i, INDIRECT, x, log, log1, NewLog(sb, x));
    DidMeans(sb, s1, s', i, bn, a, log1, log2);
    BmappedTwo(sb, s, s1, s', i, bn, a, x);
    TwoLogs(sb, s, s1, s', i, bn, x);
    CoversMore(s.disk, s1.disk, NewLog(sb, x), log1);
    CoversTrans(s.disk, s1.disk, s'.disk, log1, log2);
    assert DidMap(sb, s, s', i, bn, a, log, log2);
  }

  lemma TwoLogs(sb: Super, s: Fs, s1: Fs, s': Fs, i: nat, bn: nat, x: nat)
    requires NDIRECT <= bn < MAXFILE && At(s, Slot(i, INDIRECT)) == 0 && At(s1, Slot(i, INDIRECT)) == x != 0
    requires At(s1, Slot(i, SlotOf(bn))) == 0 && At(s', Slot(i, INDIRECT)) == x
    ensures MapLog(sb, s, s', i, bn) == NewLog(sb, x) + MapLog(sb, s1, s', i, bn)
  {
  }

  class FileSystem {
    const sb: Super
    var disk: Disk
    var inodes: seq<Inode>
    ghost var owner: map<nat, Slot>
    ghost var logged: set<nat>         // the blocks passed to log_write
    ghost var start: Disk              // the disk when the call began
    ghost var trace: seq<Change>       // what the call has written since

    ghost function Now(): Fs
      reads this
    {
      Fs(disk, inodes)
    }

    ghost predicate Traced()
      reads this`start, this`trace, this`disk
    {
      Leads(start, trace, disk)
    }

    /** An empty file system on a disk of `n` blocks. */
    constructor (sb: Super, n: nat)
      requires LayoutOk(sb, n)
      ensures this.sb == sb && Now() == FileFormat.EmptyFs(sb, n) && owner == map[] && Sound(sb, Now(), owner)
      ensures logged == {} && Traced()
    {
      this.sb := sb;
      disk, inodes, owner := FileFormat.EmptyFs(sb, n).disk, FileFormat.EmptyFs(sb, n).inodes, map[];
      start, trace, logged := FileFormat.EmptyFs(sb, n).disk, [], {};
      FileFormat.EmptyIsConsistent(sb, n);
      LeadsNowhere(FileFormat.EmptyFs(sb, n).disk);
    }

    /** A changed buffer is passed to `log_write`. */
    method LogPut(b: nat, data: Block)
      requires Traced()
      modifies this`disk, this`logged, this`trace
      ensures Traced() && disk == Put(old(disk), b, data) && logged == old(logged) + {b}
    {
      disk := Put(disk, b, data);
      logged := logged + {b};
      trace := trace + [Change(b, data)];
      LeadsOn(start, old(trace), old(disk), Change(b, data), trace, disk);
    }

    /** The inner loop of `balloc`: the bits of free map block `m`, which start with block `b`. */
    method ScanMap(b: nat, m: nat) returns (r: Option<nat>)
      requires b % BPB == 0 && m == sb.bmapstart + b / BPB && UsedBelow(sb, disk, b)
      requires Traced()
      modifies this`disk, this`logged, this`trace
      ensures Traced()
      ensures r.None? ==> disk == old(disk) && trace == old(trace) && logged == old(logged)
      ensures r.None? ==> UsedBelow(sb, disk, b + BPB)
      ensures r.Some? ==> r.value < sb.size && !Used(sb, old(disk), r.value) && UsedBelow(sb, old(disk), r.value)
      ensures r.Some? ==> disk == Allocated(sb, old(disk), r.value) && logged == old(logged) + NewLog(sb, r.value)
    {
      var bi, c := 0, b;
      while bi < BPB && c < sb.size
        invariant 0 <= bi <= BPB && c == b + bi && disk == old(disk) && trace == old(trace) && logged == old(logged)
        invariant UsedBelow(sb, disk, c)
      {
        UsedAt(sb, disk, b, bi, c, m);
        if !BlockBit(Read(disk, m), bi) {
          LogPut(m, SetBlockBit(Read(disk, m), bi, true));
          LogPut(c, ZeroBlock());
          return Some(c);
        }
        UsedBelowNext(sb, disk, c);
        bi, c := bi + 1, c + 1;
      }
      UsedBelowEnd(sb, disk, c, b + BPB);
      r := None;
    }

    /** `balloc`: the first free block, marked in use and zeroed. */
    method Balloc() returns (r: Option<nat>)
      requires Traced()
      modifies this`disk, this`logged, this`trace
      ensures Traced()
      ensures r.None? ==> forall b | 0 <= b < sb.size :: Used(sb, old(disk), b)
      ensures r.None? ==> disk == old(disk) && trace == old(trace) && logged == old(logged)
      ensures r.Some? ==> r.value < sb.size && !Used(sb, old(disk), r.value)
      ensures r.Some? ==> forall b | 0 <= b < r.value :: Used(sb, old(disk), b)
      ensures r.Some? ==> disk == Allocated(sb, old(disk), r.value)
      ensures r.Some? ==> logged == old(logged) + NewLog(sb, r.value)
    {
      var b := 0;
      while b < sb.size
        invariant b % BPB == 0 && disk == old(disk) && trace == old(trace) && logged == old(logged)
        invariant UsedBelow(sb, disk, b)
      {
        r := ScanMap(b, sb.bmapstart + b / BPB);
        if r.Some? {
          UsedBelowMeans(sb, old(disk), r.value);
          return;
        }
        b := b + BPB;
      }
      UsedBelowMeans(sb, disk, b);
      r := None;
    }

    /** Give slot `k` of inode `i`, which names nothing, a fresh block through the in-memory inode. */
    method AllocInode(i: nat, k: nat) returns (r: Option<nat>)
      requires Owning(sb, Now(), owner) && i < |inodes| && k <= INDIRECT && At(Now(), Slot(i, k)) == 0
      requires Traced()
      modifies this`disk, this`inodes, this`owner, this`logged, this`trace
      ensures Traced()
      ensures r.None? <==> FreeBlocks(sb, old(disk)) == 0
      ensures r.None? ==> Now() == old(Now()) && trace == old(trace) && logged == old(logged)
      ensures r.Some? ==> Owning(sb, Now(), owner) && |inodes| == |old(inodes)|
      ensures r.Some? ==> Given(sb, old(Now()), Now(), i, k, r.value, old(logged), logged, NewLog(sb, r.value))
    {
      ghost var s := Now();
      OwningShape(sb, s, owner);
      CountIsZero(sb, disk);
      r := Balloc();
      if r.Some? {
        var b := r.value;
        ghost var s1 := Now();
        InodeGiven(sb, s, owner, i, k, b, old(logged));
        inodes := inodes[i := inodes[i].(addrs := inodes[i].addrs[k := b])];
        assert Now() == AssignInode(s1, i, k, b);
        owner := owner[b := Slot(i, k)];
      }
    }

    /** Give entry `k - 13` of the indirect block of inode `i` a fresh block. */
    method AllocEntry(i: nat, k: nat) returns (r: Option<nat>)
      requires Owning(sb, Now(), owner) && i < |inodes| && INDIRECT < k < SLOTS
      requires At(Now(), Slot(i, INDIRECT)) != 0 && At(Now(), Slot(i, k)) == 0
      requires Traced()
      modifies this`disk, this`owner, this`logged, this`trace
      ensures Traced()
      ensures r.None? <==> FreeBlocks(sb, old(disk)) == 0
      ensures r.None? ==> Now() == old(Now()) && trace == old(trace) && logged == old(logged)
      ensures r.Some? ==> Owning(sb, Now(), owner)
      ensures r.Some? ==> Given(sb, old(Now()), Now(), i, k, r.value, old(logged), logged,
                                NewLog(sb, r.value) + {At(old(Now()), Slot(i, INDIRECT))})
    {
      ghost var s := Now();
      OwningShape(sb, s, owner);
      CountIsZero(sb, disk);
      r := Balloc();
      if r.Some? {
        var b := r.value;
        ghost var s1 := Now();
        EntryGiven(sb, s, owner, i, k, b, old(logged));
        var a := inodes[i].addrs[INDIRECT];
        LogPut(a, SetWord(Read(disk, a), k - INDIRECT - 1, b));
        assert Now() == SetEntry(s1, i, k, b);
        assert logged == old(logged) + (NewLog(sb, b) + {a});
        owner := owner[b := Slot(i, k)];
      }
    }

    /** `bmap`: the disk block of the nth block of a file, allocated if there is none. */
    method Bmap(i: nat, bn: nat) returns (r: Option<nat>)
      requires Owning(sb, Now(), owner) && i < |inodes|
      requires Traced()
      modifies this`disk, this`inodes, this`owner, this`logged, this`trace
      ensures Traced()
      ensures r.None? <==> bn >= MAXFILE || FreeBlocks(sb, old(disk)) < Missing(old(Now()), i, bn)
      ensures r.Some? ==> Owning(sb, Now(), owner) && Bmapped(sb, old(Now()), Now(), i, bn, r.value)
      ensures bn < MAXFILE && At(old(Now()), Slot(i, SlotOf(bn))) != 0 ==>
                owner == old(owner) && trace == old(trace) && logged == old(logged)
      ensures r.Some? ==> FreeBlocks(sb, disk) == FreeBlocks(sb, old(disk)) - Missing(old(Now()), i, bn)
      ensures r.Some? ==> logged == old(logged) + MapLog(sb, old(Now()), Now(), i, bn)
      ensures r.Some? ==> Covers(old(disk), disk, logged)
    {
      ghost var s := Now();
      OwningShape(sb, s, owner);
      if bn < NDIRECT {
        r := BmapDirect(i, bn);
      } else if bn < MAXFILE {
        r := BmapIndirect(i, bn);
      } else {
        r := None;
      }
      if r.Some? {
        DidMeans(sb, s, Now(), i, bn, r.value, old(logged), logged);
      }
    }

    /** The direct half of `bmap`. */
    method BmapDirect(i: nat, bn: nat) returns (r: Option<nat>)
      requires Owning(sb, Now(), owner) && i < |inodes| && bn < NDIRECT
      requires Traced()
      modifies this`disk, this`inodes, this`owner, this`logged, this`trace
      ensures Traced()
      ensures r.None? <==> FreeBlocks(sb, old(disk)) < Missing(old(Now()), i, bn)
      ensures r.Some? ==> Owning(sb, Now(), owner)
      ensures r.Some? ==> Did(sb, old(Now()), Now(), i, bn, r.value, old(logged), logged)
      ensures At(old(Now()), Slot(i, SlotOf(bn))) != 0 ==>
                owner == old(owner) && trace == old(trace) && logged == old(logged)
    {
      ghost var s := Now();
      OwningShape(sb, s, owner);
      if inodes[i].addrs[bn] == 0 {
        r := AllocInode(i, bn);
        if r.Some? {
          DidDirect(sb, s, Now(), i, bn, r.value, old(logged), logged);
        }
      } else {
        r := Some(inodes[i].addrs[bn]);
        DidNothing(sb, s, i, bn, logged);
      }
    }

    /** The indirect half of `bmap`. */
    method BmapIndirect(i: nat, bn: nat) returns (r: Option<nat>)
      requires Owning(sb, Now(), owner) && i < |inodes| && NDIRECT <= bn < MAXFILE
      requires Traced()
      modifies this`disk, this`inodes, this`owner, this`logged, this`trace
      ensures Traced()
      ensures r.None? <==> FreeBlocks(sb, old(disk)) < Missing(old(Now()), i, bn)
      ensures r.Some? ==> Owning(sb, Now(), owner)
      ensures r.Some? ==> Did(sb, old(Now()), Now(), i, bn, r.value, old(logged), logged)
      ensures At(old(Now()), Slot(i, SlotOf(bn))) != 0 ==>
                owner == old(owner) && trace == old(trace) && logged == old(logged)
    {
      ghost var s := Now();
      OwningShape(sb, s, owner);
      if inodes[i].addrs[INDIRECT] == 0 {
        var a := AllocInode(i, INDIRECT);
        if a.None? {
          return None;
        }
        ghost var s1, log1 := Now(), logged;
        GivenIndirect(sb, s, s1, i, bn, a.value, old(logged), log1);
        r := BmapEntry(i, bn);
        if r.Some? {
          DidTwo(sb, s, s1, Now(), i, bn, r.value, a.value, old(logged), log1, logged);
        }
      } else {
        r := BmapEntry(i, bn);
      }
    }

    method BmapEntry(i: nat, bn: nat) returns (r: Option<nat>)
      requires Owning(sb, Now(), owner) && i < |inodes| && NDIRECT <= bn < MAXFILE
      requires At(Now(), Slot(i, INDIRECT)) != 0
      requires Traced()
      modifies this`disk, this`owner, this`logged, this`trace
      ensures Traced()
      ensures r.None? <==> FreeBlocks(sb, old(disk)) < Missing(old(Now()), i, bn)
      ensures r.Some? ==> Owning(sb, Now(), owner)
      ensures r.Some? ==> Did(sb, old(Now()), Now(), i, bn, r.value, old(logged), logged)
      ensures At(old(Now()), Slot(i, SlotOf(bn))) != 0 ==>
                owner == old(owner) && trace == old(trace) && logged == old(logged)
    {
      ghost var s := Now();
      OwningShape(sb, s, owner);
      var addr := Word(Read(disk, inodes[i].addrs[INDIRECT]), bn - NDIRECT);
      if addr == 0 {
        r := AllocEntry(i, bn + 1);
        if r.Some? {
          DidEntry(sb, s, Now(), i, bn, r.value, old(logged), logged);
        }
      } else {
        r := Some(addr);
        DidNothing(sb, s, i, bn, logged);
      }
    }

    /** Copying words into a block, one by one. */
    static method StoreWords(block: Block, base: nat, ws: seq<nat>) returns (bp: Block)
      ensures bp == PutWords(block, base, ws)
    {
      bp := block;
      var k := 0;
      while k < |ws|
        invariant 0 <= k <= |ws|
        invariant bp == PutWords(block, base, ws[..k])
      {
        bp := SetWord(bp, base + k, ws[k]);
        assert ws[..k + 1][..k] == ws[..k];
        k := k + 1;
      }
      assert ws[..k] == ws;
    }

    /** `iupdate`: copy the in-memory inode to its place on disk, word by word. */
    method Iupdate(i: nat)
      requires i < |inodes|
      requires Traced()
      modifies this`disk, this`logged, this`trace
      ensures Traced()
      ensures disk == PutInode(sb, old(disk), i, inodes[i])
      ensures logged == old(logged) + {InodeBlock(sb, i)}
    {
      var m := InodeBlock(sb, i);
      PutInodeWords(sb, disk, i, inodes[i], m);
      var bp := StoreWords(Read(disk, m), 16 * (i % IPB), InodeWords(inodes[i]));
      LogPut(m, bp);
    }

    /** One round of `readi`: `step` bytes from inside one block. */
    method ReadInside(i: nat, off: nat, step: nat) returns (chunk: seq<Byte>)
      requires Sound(sb, Now(), owner) && i < |inodes|
      requires 0 < step && off % BSIZE + step <= BSIZE && off + step <= inodes[i].size
      requires Traced()
      modifies this`disk, this`inodes, this`owner, this`logged, this`trace
      ensures Traced()
      ensures Sound(sb, Now(), owner)
      ensures Now() == old(Now()) && owner == old(owner) && trace == old(trace) && logged == old(logged)
      ensures chunk == Slice(Contents(old(Now()), i), off, step)
    {
      ghost var s := Now();
      var bn := off / BSIZE;
      MappedInside(sb, s, owner, i, off, step);
      var a := Bmap(i, bn);
      var bp := Read(disk, a.value);
      ReadChunk(s, i, off, step, bp);
      chunk := Slice(bp, off % BSIZE, step);
    }

    /** `readi` of a file: the requested bytes, clipped to the file's size; nothing is allocated. */
    method Readi(i: nat, off: nat, n: nat) returns (r: int, dst: seq<Byte>)
      requires Sound(sb, Now(), owner) && i < |inodes| && off < UINT && n < UINT
      requires Traced()
      modifies this`disk, this`inodes, this`owner, this`logged, this`trace
      ensures Traced()
      ensures Now() == old(Now()) && owner == old(owner) && trace == old(trace) && logged == old(logged)
      ensures var f := Contents(Now(), i);
              && (r == -1 <==> off > |f| || off + n >= UINT)
              && (r != -1 ==> dst == f[off..Min(off + n, |f|)] && r == |dst|)
    {
      var size := inodes[i].size;
      OverflowExactly(off, n);
      if off > size || Overflows(off, n) {
        return -1, [];
      }
      r := if off + n > size then size - off else n;
      ghost var f := Contents(Now(), i);
      dst := [];
      var tot := 0;
      while tot < r
        invariant Traced() && Sound(sb, Now(), owner) && tot <= r
        invariant Now() == old(Now()) && owner == old(owner) && trace == old(trace) && logged == old(logged)
        invariant dst == Slice(f, off, tot)
      {
        var m := Portion(off + tot, r - tot);
        var chunk := ReadInside(i, off + tot, m);
        SliceAppend(f, off, tot, m);
        dst := dst + chunk;
        tot := tot + m;
      }
      ReadDone(f, off, n, r, dst);
    }

    /** One round of `writei`; false stands for running out of blocks. */
    method WriteInside(i: nat, off: nat, chunk: seq<Byte>) returns (ok: bool)
      requires Owning(sb, Now(), owner) && i < |inodes|
      requires off / BSIZE < MAXFILE && off % BSIZE + |chunk| <= BSIZE
      requires Traced()
      modifies this`disk, this`inodes, this`owner, this`logged, this`trace
      ensures Traced()
      ensures ok <==> Room(sb, old(Now()), i, off / BSIZE)
      ensures ok ==> Owning(sb, Now(), owner) && |inodes| == |old(inodes)|
      ensures ok ==> Round(sb, old(Now()), Now(), i, off, chunk, old(logged), logged)
    {
      ghost var s, l := Now(), logged;
      var bn := off / BSIZE;
      var a := Bmap(i, bn);
      RoomMeans(sb, s, i, bn);
      if a.None? {
        return false;
      }
      ghost var s1 := Now();
      ChunkFolded(sb, s, s1, owner, i, off, chunk, a.value, logged);
      LogPut(a.value, Spliced(Read(disk, a.value), off % BSIZE, chunk));
      assert Now() == ChunkStored(s1, a.value, off, chunk);
      ok := true;
    }

    /** One turn of the loop of `writei`, after `tot` bytes. */
    method WriteRound(ghost s0: Fs, ghost log: set<nat>, ghost l: Ledger, i: nat, off: nat, src: seq<Byte>, tot: nat,
                      ghost done: seq<Byte>)
      returns (ok: bool, tot': nat, ghost done': seq<Byte>, ghost l': Ledger)
      requires Owning(sb, Now(), owner) && i < |inodes| == |s0.inodes| && off <= s0.inodes[i].size
      requires tot < |src| && off + |src| <= MAXFILE * BSIZE && Stops(off, |src|, tot)
      requires done == src[..tot] && InProgress(sb, s0, Now(), i, off, done, log, logged, l)
      requires Traced()
      modifies this`disk, this`inodes, this`owner, this`logged, this`trace
      ensures Traced() && tot < tot' <= |src| && Stops(off, |src|, tot') && done' == src[..tot']
      ensures ok ==> Owning(sb, Now(), owner) && |inodes| == |s0.inodes|
      ensures ok ==> InProgress(sb, s0, Now(), i, off, done', log, logged, l')
      ensures !ok ==> !RoomUpTo(sb, s0, s0.inodes[i].size, off + |src|)
    {
      ghost var s, before, end := Now(), logged, off + |src|;
      var cur := off + tot;
      var m := Portion(cur, |src| - tot);
      tot' := tot + m;
      NextTurn(off, |src|, tot, cur, m, end, tot');
      var chunk := src[tot..tot'];
      done' := src[..tot'];
      ChunkOf(src, tot, tot', done, chunk, done');
      ok := WriteInside(i, cur, chunk);
      l' := l;
      if ok {
        l' := KeepGoing(sb, s0, s, Now(), i, off, done, cur, chunk, done', end, log, before, logged, l);
      } else {
        NoRoom(sb, s0, s, i, off, done, cur, m, end, log, before, l);
      }
    }

    /** The loop of `writei`; false stands for running out of blocks. */
    method WriteLoop(i: nat, off: nat, src: seq<Byte>) returns (ok: bool, ghost l: Ledger)
      requires Sound(sb, Now(), owner) && i < |inodes|
      requires off <= inodes[i].size && off + |src| <= MAXFILE * BSIZE
      requires Traced()
      modifies this`disk, this`inodes, this`owner, this`logged, this`trace
      ensures Traced()
      ensures ok <==> RoomUpTo(sb, old(Now()), old(inodes)[i].size, off + |src|)
      ensures ok ==> Owning(sb, Now(), owner) && |inodes| == |old(inodes)|
      ensures ok ==> InProgress(sb, old(Now()), Now(), i, off, src, old(logged), logged, l)
      ensures src == [] ==> Now() == old(Now()) && trace == old(trace) && logged == old(logged)
    {
      ghost var s0, log, done := Now(), logged, src[..0];
      StartGoing(sb, s0, owner, i, off, logged);
      l := Ledger({}, {});
      StopsAtStart(off, |src|);
      var tot := 0;
      while tot < |src|
        invariant Traced() && 0 <= tot <= |src| && |inodes| == |s0.inodes|
        invariant Owning(sb, Now(), owner) && InProgress(sb, s0, Now(), i, off, done, log, logged, l)
        invariant done == src[..tot] && Stops(off, |src|, tot)
        invariant tot == 0 ==> Now() == s0 && trace == old(trace) && logged == old(logged)
      {
        ok, tot, done, l := WriteRound(s0, log, l, i, off, src, tot, done);
        if !ok {
          return;
        }
      }
      assert done == src;
      HadRoom(sb, s0, Now(), i, off, src, log, logged, l);
      ok := true;
    }

    /** The end of `writei`: a file that grew gets its new size, in memory and on disk. */
    method Grow(i: nat, end: nat)
      requires i < |inodes|
      requires Traced()
      modifies this`disk, this`inodes, this`logged, this`trace
      ensures Traced()
      ensures Now() == Finished(sb, old(Now()), i, end)
      ensures logged == old(logged) + if end > old(inodes)[i].size then {InodeBlock(sb, i)} else {}
    {
      if end > inodes[i].size {
        inodes := inodes[i := inodes[i].(size := end)];
        Iupdate(i);
      }
    }

    /** `writei` after its checks; false stands for running out of disk blocks. */
    method WriteAll(i: nat, off: nat, src: seq<Byte>) returns (ok: bool)
      requires Sound(sb, Now(), owner) && i < |inodes|
      requires off <= inodes[i].size && off + |src| <= MAXFILE * BSIZE
      requires Traced()
      modifies this`disk, this`inodes, this`owner, this`logged, this`trace
      ensures Traced()
      ensures ok <==> RoomUpTo(sb, old(Now()), old(inodes)[i].size, off + |src|)
      ensures ok ==> Sound(sb, Now(), owner) && Wrote(old(Now()), Now(), i, off, src)
      ensures ok ==> Charged(sb, old(Now()), Now(), i, off, |src|, old(logged), logged)
    {
      ghost var s0 := Now();
      ghost var l;
      ok, l := WriteLoop(i, off, src);
      if !ok {
        return;
      }
      ghost var s1, before, end := Now(), logged, off + |src|;
      InProgressMeans(sb, s0, s1, i, off, src, old(logged), before, l);
      if |src| > 0 {
        Grow(i, off + |src|);
      }
      assert Now() == Finished(sb, s1, i, end);
      FinishSpending(sb, s0, s1, owner, Now(), i, off, |src|, end, old(logged), before, logged, l);
      FinishWriting(sb, s0, old(owner), s1, owner, Now(), i, off, src, end);
    }

    /** `writei` to a file: `Some(-1)` or `Some(n)`; `None` stands for running out of disk blocks. */
    method Writei(i: nat, off: nat, src: seq<Byte>) returns (r: Option<int>)
      requires Sound(sb, Now(), owner) && i < |inodes| && off < UINT && |src| < UINT
      requires Traced()
      modifies this`disk, this`inodes, this`owner, this`logged, this`trace
      ensures Traced()
      ensures r.Some? ==> Sound(sb, Now(), owner)
      ensures r.Some? ==>
                r.value == if off > old(inodes)[i].size || off + |src| > MAXFILE * BSIZE then -1 else |src|
      ensures r.Some? && r.value == -1 ==> Now() == old(Now()) && owner == old(owner) && logged == old(logged)
      ensures r.Some? && r.value != -1 ==> Wrote(old(Now()), Now(), i, off, src)
      ensures r.None? <==> off <= old(inodes)[i].size && off + |src| <= MAXFILE * BSIZE &&
                           FreeBlocks(sb, old(disk)) < Demand(old(inodes)[i].size, off + |src|)
      ensures r.Some? && r.value != -1 ==>
                FreeBlocks(sb, disk) == FreeBlocks(sb, old(disk)) - Demand(old(inodes)[i].size, off + |src|)
      ensures r.Some? ==> Covers(old(disk), disk, logged)
      ensures r.Some? ==> |logged - old(logged)| <= WriteBudget(old(inodes)[i].size, off, |src|)
      ensures r.Some? && |src| <= CHUNK ==> |logged - old(logged)| <= MAXOPBLOCKS
    {
      var size := inodes[i].size;
      OverflowExactly(off, |src|);
      if off > size || Overflows(off, |src|) || off + |src| > MAXFILE * BSIZE {
        return Some(-1);
      }
      var ok := WriteAll(i, off, src);
      RoomUpToMeans(sb, old(Now()), size, off + |src|);
      if !ok {
        return None;
      }
      ChargedMeans(sb, old(Now()), Now(), i, off, |src|, old(logged), logged);
      r := Some(|src|);
    }

    /** `writei`, then `readi` of the same range: the bytes written are read. */
    method WriteThenRead(i: nat, off: nat, src: seq<Byte>) returns (w: Option<int>, r: int, dst: seq<Byte>)
      requires Sound(sb, Now(), owner) && i < |inodes| && off < UINT && |src| < UINT
      requires Traced()
      modifies this`disk, this`inodes, this`owner, this`logged, this`trace
      ensures Traced()
      ensures w.Some? && w.value != -1 ==> r == |src| && dst == src
    {
      r, dst := -1, [];
      ghost var s := Now();
      w := Writei(i, off, src);
      if w.Some? && w.value != -1 {
        FileLayout.OverwriteReadsBack(Contents(s, i), off, src);
        WroteSize(s, Now(), i, off, src);
        r, dst := Readi(i, off, |src|);
      }
    }

    /** `bfree`; false stands for the "freeing free block" panic. */
    method Bfree(b: nat) returns (ok: bool)
      requires Traced()
      modifies this`disk, this`logged, this`trace
      ensures Traced()
      ensures ok == Used(sb, old(disk), b)
      ensures disk == if ok then SetUsed(sb, old(disk), b, false) else old(disk)
      ensures logged == if ok then old(logged) + {BitBlock(sb, b)} else old(logged)
    {
      var m := sb.bmapstart + b / BPB;
      var bi := b % BPB;
      var bp := Read(disk, m);
      ok := BlockBit(bp, bi);
      if ok {
        LogPut(m, SetBlockBit(bp, bi, false));
      }
    }

    /** Free the block named by slot `k` of inode `i`, if any: it is marked in use, so `bfree` does not panic. */
    method FreeSlot(ghost s: Fs, ghost o: map<nat, Slot>, i: nat, k: nat, a: nat, ghost n: nat, ghost log: set<nat>)
      requires Owning(sb, s, o) && i < |s.inodes| && k < SLOTS && a == At(s, Slot(i, k))
      requires n == Rank(k) && Freeing(sb, s, o, disk, i, n) && Unmapping(sb, s.disk, disk, log, logged)
      requires Traced()
      modifies this`disk, this`logged, this`trace
      ensures Traced()
      ensures Freeing(sb, s, o, disk, i, n + 1) && Unmapping(sb, s.disk, disk, log, logged)
    {
      FreeingStep(sb, s, o, disk, i, k, n);
      if a != 0 {
        var ok := Bfree(a);
        assert ok;
        UnmapStep(sb, s.disk, old(disk), log, old(logged), a, disk, logged);
      }
    }

    /** `itrunc`: the file becomes empty, its blocks become free, and nothing else changes. */
    method Itrunc(i: nat)
      requires Sound(sb, Now(), owner) && i < |inodes|
      requires Traced()
      modifies this`disk, this`inodes, this`owner, this`logged, this`trace
      ensures Traced()
      ensures Sound(sb, Now(), owner)
      ensures owner == Remaining(old(owner), i)
      ensures TruncatedTo(sb, old(Now()), Now(), i)
      ensures inodes == old(inodes)[i := old(inodes)[i].(size := 0, addrs := seq(NDIRECT + 1, _ => 0))]
      ensures Covers(old(disk), disk, logged) && logged - old(logged) <= MapBlocks(sb) + {InodeBlock(sb, i)}
      ensures |logged - old(logged)| <= MapSize(sb) + 1
      ensures sb.size <= (MAXOPBLOCKS - 1) * BPB ==> |logged - old(logged)| <= MAXOPBLOCKS
    {
      ghost var s, o, log := Now(), owner, logged;
      UnmapNothing(sb, disk, log);
      StartTruncating(sb, s, o, i);
      var ip := inodes[i];
      var k := 0;
      while k < NDIRECT
        invariant 0 <= k <= NDIRECT
        invariant Traced() && Freeing(sb, s, o, disk, i, k) && Unmapping(sb, s.disk, disk, log, logged)
        invariant inodes == s.inodes[i := ip] && |ip.addrs| == NDIRECT + 1
        invariant ip == s.inodes[i].(addrs := ip.addrs)
        invariant forall q | 0 <= q <= NDIRECT :: ip.addrs[q] == if q < k then 0 else s.inodes[i].addrs[q]
      {
        FreeSlot(s, o, i, k, ip.addrs[k], k, log);
        ip := ip.(addrs := ip.addrs[k := 0]);
        inodes := inodes[i := ip];
        k := k + 1;
      }
      FreeIndirect(s, o, i, ip.addrs[INDIRECT], log);
      ip := ip.(addrs := ip.addrs[INDIRECT := 0], size := 0);
      assert ip.addrs == Emptied(s.inodes[i]).addrs;
      inodes := inodes[i := ip];
      ghost var d, before := disk, logged;
      Iupdate(i);
      UnmapEnd(sb, s.disk, d, log, before, i, ip, disk, logged);
      EndTruncating(sb, s, o, d, i);
      assert Now() == Truncated(sb, s, d, i);
      owner := Remaining(o, i);
    }

    /** The second half of `itrunc`: the blocks listed in the indirect block, then that block. */
    method FreeIndirect(ghost s: Fs, ghost o: map<nat, Slot>, i: nat, a: nat, ghost log: set<nat>)
      requires Owning(sb, s, o) && i < |s.inodes| && a == At(s, Slot(i, INDIRECT))
      requires Freeing(sb, s, o, disk, i, INDIRECT) && Unmapping(sb, s.disk, disk, log, logged)
      requires Traced()
      modifies this`disk, this`logged, this`trace
      ensures Traced()
      ensures Freeing(sb, s, o, disk, i, SLOTS) && Unmapping(sb, s.disk, disk, log, logged)
    {
      if a != 0 {
        var j := 0;
        ghost var n := INDIRECT;
        while j < NINDIRECT
          invariant 0 <= j <= NINDIRECT && n == INDIRECT + j
          invariant Traced() && Freeing(sb, s, o, disk, i, n) && Unmapping(sb, s.disk, disk, log, logged)
        {
          IndirectStays(sb, s, o, disk, i, n, a);
          FreeSlot(s, o, i, INDIRECT + 1 + j, Word(Read(disk, a), j), n, log);
          j, n := j + 1, n + 1;
        }
        FreeSlot(s, o, i, INDIRECT, a, n, log);
      } else {
        NoEntries(sb, s, o, disk, i);
      }
    }

    // ----- transactions

    /** `begin_op`: nothing is written or logged yet. */
    ghost method BeginOp()
      modifies this`start, this`trace, this`logged
      ensures Traced() && start == disk && trace == [] && logged == {}
    {
      start, trace, logged := disk, [], {};
      LeadsNowhere(disk);
    }

    method Transact(i: nat, off: nat, src: seq<Byte>) returns (r: Option<int>)
      requires Sound(sb, Now(), owner) && i < |inodes| && off < UINT && |src| < UINT
      modifies this`disk, this`inodes, this`owner, this`logged, this`start, this`trace
      ensures r.None? <==> NoSpace(sb, old(Now()), i, off, |src|)
      ensures r.Some? ==> Sound(sb, Now(), owner) && Leads(old(disk), trace, disk) && Covering(old(disk), disk, logged)
      ensures r.Some? ==> Transacted(sb, old(Now()), Now(), i, off, src, r.value, logged)
    {
      ghost var s := Now();
      BeginOp();
      r := Writei(i, off, src);
      NoSpaceMeans(sb, s, i, off, |src|);
      WriteCountIs(s.inodes[i].size, off, |src|);
      assert logged - {} == logged;
    }

    /** One transaction of `filewrite`; `None` stands for running out of disk blocks. */
    method WriteCall(i: nat, off: nat, src: seq<Byte>) returns (r: Option<int>)
      requires Sound(sb, Now(), owner) && i < |inodes| && off < UINT && |src| < UINT
      modifies this`disk, this`inodes, this`owner, this`logged, this`start, this`trace
      ensures r.Some? ==> Sound(sb, Now(), owner) && Performs(sb, old(disk), Write(i, off, src), trace)
      ensures r.Some? ==> Replay(old(disk), trace) == disk && Covers(old(disk), disk, logged)
      ensures r.Some? ==>
                r.value == if off > old(inodes)[i].size || off + |src| > MAXFILE * BSIZE then -1 else |src|
      ensures r.Some? && r.value == -1 ==> Now() == old(Now()) && logged == {}
      ensures r.Some? && r.value != -1 ==> Wrote(old(Now()), Now(), i, off, src)
      ensures r.Some? && r.value != -1 ==>
                FreeBlocks(sb, disk) == FreeBlocks(sb, old(disk)) - Demand(old(inodes)[i].size, off + |src|)
      ensures r.None? <==> off <= old(inodes)[i].size && off + |src| <= MAXFILE * BSIZE &&
                           FreeBlocks(sb, old(disk)) < Demand(old(inodes)[i].size, off + |src|)
      ensures r.Some? && |src| <= CHUNK ==> |logged| <= MAXOPBLOCKS
    {
      ghost var s, o := Now(), owner;
      r := Transact(i, off, src);
      NoSpaceMeans(sb, s, i, off, |src|);
      WriteCountIs(s.inodes[i].size, off, |src|);
      if r.Some? {
        TransactedMeans(sb, s, Now(), i, off, src, r.value, logged);
        LeadsMeans(s.disk, trace, disk);
        CoveringMeans(s.disk, disk, logged);
        WritePerforms(sb, s, o, Now(), owner, i, off, src, trace);
      }
    }

    /** One turn of the loop of `filewrite`, after the bytes `done`. */
    method WritePiece(ghost s0: Fs, i: nat, ghost off: nat, src: seq<Byte>, t: nat, pos: nat, ghost done: seq<Byte>,
                      ghost all: nat)
      returns (r: Option<int>, t': nat, ghost done': seq<Byte>)
      requires Sound(sb, Now(), owner) && i < |inodes| == |s0.inodes| && |src| < UINT && off < UINT
      requires Takes(s0, i, off, |src|, all) && Written(sb, s0, Now(), i, off, done)
      requires t < |src| && Whole(|src|, t) && done == src[..t] && pos == off + t
      modifies this`disk, this`inodes, this`owner, this`logged, this`start, this`trace
      ensures r.None? ==> Refused(sb, s0, i, off, all)
      ensures r.Some? ==> Sound(sb, Now(), owner) && |inodes| == |s0.inodes| && |logged| <= MAXOPBLOCKS
      ensures r.Some? ==> (r.value == -1 <==> t == all)
      ensures r.Some? && r.value == -1 ==> Written(sb, s0, Now(), i, off, done)
      ensures r.Some? && r.value != -1 ==> r.value == t' - t > 0 && t' <= |src| && t' <= all && done' == src[..t']
      ensures r.Some? && r.value != -1 ==> Whole(|src|, t') && Written(sb, s0, Now(), i, off, done')
    {
      t' := t + Piece(|src| - t);
      done' := src[..t'];
      var chunk := src[t..t'];
      ghost var s, o := Now(), owner;
      ChunkOf(src, t, t', done, chunk, done');
      PieceInside(sb, s0, s, o, i, off, done, t, |src|, all);
      r := Transact(i, pos, chunk);
      if r.None? {
        PieceRefused(sb, s0, s, o, i, off, done, t, pos, |chunk|, |src|, all);
      } else {
        PieceDone(sb, s0, s, o, Now(), i, off, done, t, pos, chunk, |src|, all, r.value, logged, done', t');
      }
    }

    /**
     `filewrite` to a file: the bytes that it accepts are written, in transactions that log at most `most` blocks.
     The result is -1 unless it accepts all; `None` stands for running out of disk blocks.
     */
    method Filewrite(i: nat, off: nat, src: seq<Byte>) returns (r: Option<int>, pos: nat, ghost most: nat)
      requires Sound(sb, Now(), owner) && i < |inodes| && off < UINT && |src| < UINT
      modifies this`disk, this`inodes, this`owner, this`logged, this`start, this`trace
      ensures most <= MAXOPBLOCKS && (r.Some? ==> Sound(sb, Now(), owner))
      ensures var n := Accepted(old(inodes)[i].size, off, |src|);
              && (r.None? <==> 0 < n && FreeBlocks(sb, old(disk)) < Demand(old(inodes)[i].size, off + n))
              && (r.Some? ==> pos == off + n && r.value == if n == |src| then n else -1)
              && (r.Some? ==> Wrote(old(Now()), Now(), i, off, src[..n]))
    {
      ghost var s0, all, done := Now(), Accepted(inodes[i].size, off, |src|), src[..0];
      var t := 0;
      pos, most := off, 0;
      WrittenNothing(sb, s0, i, off, done);
      TakesMeans(s0, i, off, |src|, all);
      RefusedMeans(sb, s0, i, off, all);
      WholeMeans(|src|, 0);
      while t < |src|
        invariant 0 <= t <= |src| && Whole(|src|, t) && pos == off + t && most <= MAXOPBLOCKS
        invariant Sound(sb, Now(), owner) && |inodes| == |s0.inodes| && Written(sb, s0, Now(), i, off, done)
        invariant done == src[..t] && t <= all
      {
        var w: Option<int>;
        var t': nat;
        ghost var done';
        w, t', done' := WritePiece(s0, i, off, src, t, pos, done, all);
        if w.None? {
          return None, pos, most;
        }
        most := Max(most, |logged|);
        if w.value < 0 {
          break;
        }
        done := done';
        pos := pos + w.value;
        t := t';
      }
      AllWritten(sb, s0, Now(), i, off, done, |src|, all);
      r := Some(if t == |src| then t else -1);
    }

    /** The truncation in `iput`, in a transaction of its own. */
    method TruncateCall(i: nat)
      requires Sound(sb, Now(), owner) && i < |inodes|
      modifies this`disk, this`inodes, this`owner, this`logged, this`start, this`trace
      ensures Sound(sb, Now(), owner) && Performs(sb, old(disk), Truncate(i), trace)
      ensures Replay(old(disk), trace) == disk && Covers(old(disk), disk, logged)
      ensures TruncatedTo(sb, old(Now()), Now(), i) && |logged| <= MapSize(sb) + 1
      ensures sb.size <= (MAXOPBLOCKS - 1) * BPB ==> |logged| <= MAXOPBLOCKS
    {
      ghost var s, o := Now(), owner;
      BeginOp();
      Itrunc(i);
      LeadsMeans(s.disk, trace, disk);
      TruncatePerforms(sb, s, o, Now(), owner, i, trace);
      assert logged - {} == logged;
    }
  }
}
