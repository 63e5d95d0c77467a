/**
 How many disk blocks a call of `writei` takes from the free map, and how many different blocks
 it hands to the log (`balloc`, `bmap` and `writei` in `xv6/fs.c`, `filewrite` in `xv6/file.c`).
 */
module FileSpace {
  import opened Common
  import opened DiskFormat
  import opened FileLayer

  // ----- counting free blocks

  /** The blocks whose bit in the free map is clear. */
  function FreeSet(sb: Super, d: Disk): set<nat> {
    set b: nat | b < sb.size && !Used(sb, d, b)
  }

  /** The number of free blocks. */
  function FreeBlocks(sb: Super, d: Disk): nat {
    |FreeSet(sb, d)|
  }

  lemma SameCount(sb: Super, d: Disk, e: Disk)
    requires forall c | 0 <= c < sb.size :: Used(sb, e, c) == Used(sb, d, c)
    ensures FreeBlocks(sb, e) == FreeBlocks(sb, d)
  {
    assert FreeSet(sb, e) == FreeSet(sb, d);
  }

  /** There is a free block exactly when the count is not 0. */
  lemma CountIsZero(sb: Super, d: Disk)
    ensures FreeBlocks(sb, d) == 0 <==> forall c | 0 <= c < sb.size :: Used(sb, d, c)
  {
    if FreeBlocks(sb, d) != 0 {
      var c :| c in FreeSet(sb, d);
    } else {
      forall c | 0 <= c < sb.size ensures Used(sb, d, c) {
        assert c !in FreeSet(sb, d);
      }
    }
  }

  /** `balloc` takes one block. */
  lemma AllocatedCount(sb: Super, s: Fs, o: map<nat, Slot>, b: nat)
    requires Owned(sb, s, o) && b < sb.size && !Used(sb, s.disk, b)
    ensures FreeBlocks(sb, Allocated(sb, s.disk, b)) == FreeBlocks(sb, s.disk) - 1
  {
    FreshIsUnowned(sb, s, o, b);
    forall c | 0 <= c < sb.size
      ensures Used(sb, Allocated(sb, s.disk, b), c) == (c == b || Used(sb, s.disk, c))
    {
      AllocatedUsed(sb, s, b, c);
    }
    assert FreeSet(sb, Allocated(sb, s.disk, b)) == FreeSet(sb, s.disk) - {b};
  }

  /** Writing a data block takes none. */
  lemma DataWriteCount(sb: Super, s: Fs, a: nat, data: Block)
    requires Shape(sb, s) && DataStart(sb) <= a
    ensures FreeBlocks(sb, Put(s.disk, a, data)) == FreeBlocks(sb, s.disk)
  {
    var e := Put(s.disk, a, data);
    forall c | 0 <= c < sb.size ensures Used(sb, e, c) == Used(sb, s.disk, c) {
      UsedFrame(sb, s.disk, e, c);
    }
    SameCount(sb, s.disk, e);
  }

  /** `iupdate` takes none. */
  lemma FinishedCount(sb: Super, s: Fs, i: nat, end: nat)
    requires Shape(sb, s) && i < |s.inodes|
    ensures FreeBlocks(sb, Finished(sb, s, i, end).disk) == FreeBlocks(sb, s.disk)
  {
    var e := Finished(sb, s, i, end).disk;
    var ip := s.inodes[i].(size := end);
    forall c | 0 <= c < sb.size ensures Used(sb, e, c) == Used(sb, s.disk, c) {
      PutInodeReads(sb, s, i, ip, sb.bmapstart + c / BPB);
    }
    SameCount(sb, s.disk, e);
  }

  // ----- what bmap and writei need

  /** The blocks `bmap` has to allocate for block `bn` of inode `i`: the block, and the indirect block. */
  function Missing(s: Fs, i: nat, bn: nat): nat {
    (if At(s, Slot(i, SlotOf(bn))) == 0 then 1 else 0) +
    (if bn >= NDIRECT && At(s, Slot(i, INDIRECT)) == 0 then 1 else 0)
  }

  /** The number of blocks that hold `n` bytes. */
  function BlocksFor(n: nat): nat {
    (n + BSIZE - 1) / BSIZE
  }

  /** The blocks a file of `size` bytes lacks to reach up to `end`, an indirect block included. */
  function Demand(size: nat, end: nat): nat {
    if end <= size then 0
    else
      assert BlocksFor(size) <= BlocksFor(end);
      BlocksFor(end) - BlocksFor(size) + if size <= NDIRECT * BSIZE < end then 1 else 0
  }

  lemma BlocksForStep(cur: nat, m: nat)
    requires 0 < m && cur % BSIZE + m <= BSIZE
    ensures BlocksFor(cur + m) == cur / BSIZE + 1
    ensures BlocksFor(cur) == cur / BSIZE + if cur % BSIZE == 0 then 0 else 1
  {
  }

  lemma BlocksForMonotone(m: nat, n: nat)
    requires m <= n
    ensures BlocksFor(m) <= BlocksFor(n)
  {
  }

  /** The blocks of a file that end below `cur / BSIZE`. */
  lemma BlocksForBelow(size: nat, bn: nat)
    ensures BlocksFor(size) <= bn <==> size <= bn * BSIZE
  {
  }

  /** One round of `writei` asks for as many blocks as the demand grows by. */
  lemma DemandStep(size: nat, cur: nat, m: nat)
    requires 0 < m && cur % BSIZE + m <= BSIZE && (cur <= size || cur % BSIZE == 0)
    ensures Demand(size, cur + m) == Demand(size, cur) +
            (if cur / BSIZE * BSIZE < Max(size, cur) then 0 else 1) +
            (if cur / BSIZE >= NDIRECT && Max(size, cur) <= NDIRECT * BSIZE then 1 else 0)
  {
    var bn := cur / BSIZE;
    assert bn * BSIZE <= cur && cur + m <= (bn + 1) * BSIZE;
    BlocksForStep(cur, m);
    BlocksForBelow(size, bn);
    BlocksForBelow(size, bn + 1);
  }

  lemma DemandGrows(size: nat, end: nat, end': nat)
    requires end <= end'
    ensures Demand(size, end) <= Demand(size, end')
  {
    BlocksForMonotone(end, end');
  }

  lemma MissingIs(s: Fs, i: nat, bn: nat, top: nat)
    requires Mapped(s, i, top) && bn < MAXFILE
    ensures Missing(s, i, bn) == (if bn * BSIZE < top then 0 else 1) +
                                 (if bn >= NDIRECT && top <= NDIRECT * BSIZE then 1 else 0)
  {
  }

  // ----- what is handed to the log

  const MAXOPBLOCKS := 10

  /** The most bytes `filewrite` passes to one `writei`. */
  const CHUNK := (MAXOPBLOCKS - 1 - 1 - 2) / 2 * 512

  /** The block of the free map with the bit of block `b`. */
  function BitBlock(sb: Super, b: nat): nat {
    sb.bmapstart + b / BPB
  }

  /** The block of inode `i`. */
  function InodeBlock(sb: Super, i: nat): nat {
    sb.inodestart + i / IPB
  }

  /** The number of blocks of the free map. */
  function MapSize(sb: Super): nat {
    (sb.size + BPB - 1) / BPB
  }

  /** The blocks of the free map. */
  function MapBlocks(sb: Super): set<nat> {
    Range(sb.bmapstart, MapSize(sb))
  }

  function Range(lo: nat, n: nat): set<nat> {
    if n == 0 then {} else Range(lo, n - 1) + {lo + n - 1}
  }

  lemma {:induction false} RangeIs(lo: nat, n: nat)
    ensures |Range(lo, n)| == n && forall m: nat :: m in Range(lo, n) <==> lo <= m < lo + n
  {
    if n > 0 {
      RangeIs(lo, n - 1);
    }
  }

  lemma BitBlockInMap(sb: Super, b: nat)
    requires b < sb.size
    ensures BitBlock(sb, b) in MapBlocks(sb)
  {
    RangeIs(sb.bmapstart, MapSize(sb));
    assert b / BPB <= (sb.size - 1) / BPB;
  }

  lemma PutInodeWords(sb: Super, d: Disk, i: nat, ip: Inode, m: nat)
    requires m == InodeBlock(sb, i)
    ensures PutInode(sb, d, i, ip) == Put(d, m, PutWords(Read(d, m), 16 * (i % IPB), InodeWords(ip)))
  {
  }

  /** What `balloc` logs. */
  function NewLog(sb: Super, b: nat): set<nat> {
    {BitBlock(sb, b), b}
  }

  /** What `bmap` logs, going from `s` to `s'`. */
  function MapLog(sb: Super, s: Fs, s': Fs, i: nat, bn: nat): set<nat> {
    var x := At(s', Slot(i, INDIRECT));
    (if At(s, Slot(i, SlotOf(bn))) != 0 then {}
     else NewLog(sb, At(s', Slot(i, SlotOf(bn)))) + if bn < NDIRECT then {} else {x}) +
    (if bn < NDIRECT || At(s, Slot(i, INDIRECT)) != 0 then {} else NewLog(sb, x))
  }

  /** Only blocks in `logged` differ. */
  ghost predicate Covers(d: Disk, e: Disk, logged: set<nat>) {
    |e| == |d| && forall b: nat | b < |d| && b !in logged :: e[b] == d[b]
  }

  lemma AllocatedCovers(sb: Super, d: Disk, b: nat)
    ensures Covers(d, Allocated(sb, d, b), NewLog(sb, b))
  {
  }

  lemma CoversTrans(d: Disk, d1: Disk, d2: Disk, logged: set<nat>, more: set<nat>)
    requires Covers(d, d1, logged) && Covers(d1, d2, more) && logged <= more
    ensures Covers(d, d2, more)
  {
  }

  lemma CoversMore(d: Disk, e: Disk, logged: set<nat>, more: set<nat>)
    requires Covers(d, e, logged) && logged <= more
    ensures Covers(d, e, more)
  {
  }

  /** `balloc`, then the new block's number stored in the indirect block `a`. */
  lemma EntryTaken(sb: Super, s: Fs, o: map<nat, Slot>, a: nat, b: nat, data: Block)
    requires Owned(sb, s, o) && b < sb.size && !Used(sb, s.disk, b) && DataStart(sb) <= a
    ensures FreeBlocks(sb, Put(Allocated(sb, s.disk, b), a, data)) == FreeBlocks(sb, s.disk) - 1
    ensures Covers(s.disk, Put(Allocated(sb, s.disk, b), a, data), NewLog(sb, b) + {a})
  {
    AllocatedCount(sb, s, o, b);
    AllocatedOwned(sb, s, o, b);
    DataWriteCount(sb, s.(disk := Allocated(sb, s.disk, b)), a, data);
  }

  /** The indirect block of inode `i`, if it has one. */
  function Indirects(s: Fs, i: nat): set<nat> {
    if At(s, Slot(i, INDIRECT)) == 0 then {} else {At(s, Slot(i, INDIRECT))}
  }

  /** What was logged: data blocks, free map blocks and the indirect block. */
  ghost predicate Sorted(before: set<nat>, now: set<nat>, s: Fs, i: nat, data: set<nat>, bits: set<nat>) {
    now <= before + data + bits + Indirects(s, i)
  }

  lemma AtMostTwo(x: set<nat>, a: nat, y: set<nat>)
    ensures |x + {a}| <= |x| + 1
    ensures |x + y| <= |x| + |y|
  {
    assert x + y == x + (y - x);
    assert |y - x| <= |y| by {
      assert y == (y - x) + (y * x);
    }
  }

  /** The free map blocks among what `bmap` logs. */
  function BitLog(sb: Super, s: Fs, s': Fs, i: nat, bn: nat): set<nat> {
    (if At(s, Slot(i, SlotOf(bn))) != 0 then {} else {BitBlock(sb, At(s', Slot(i, SlotOf(bn))))}) +
    (if bn < NDIRECT || At(s, Slot(i, INDIRECT)) != 0 then {} else {BitBlock(sb, At(s', Slot(i, INDIRECT)))})
  }

  /** An indirect block stays, and is there after `bmap` of a block beyond the direct ones. */
  predicate KeepsIndirect(s: Fs, s': Fs, i: nat, bn: nat) {
    Indirects(s, i) <= Indirects(s', i) && (bn < NDIRECT || Indirects(s', i) != {})
  }

  lemma MapLogParts(sb: Super, s: Fs, s': Fs, i: nat, bn: nat)
    requires KeepsIndirect(s, s', i, bn)
    ensures MapLog(sb, s, s', i, bn) <= {At(s', Slot(i, SlotOf(bn)))} + BitLog(sb, s, s', i, bn) + Indirects(s', i)
    ensures Indirects(s, i) <= Indirects(s', i)
    ensures |BitLog(sb, s, s', i, bn)| <= Missing(s, i, bn)
  {
  }

  /** One round of `writei`. */
  lemma SortedStep(sb: Super, before: set<nat>, now: set<nat>, s: Fs, s': Fs, i: nat, bn: nat, data: set<nat>,
                   bits: set<nat>)
    requires Sorted(before, now, s, i, data, bits) && KeepsIndirect(s, s', i, bn)
    ensures var a, more := At(s', Slot(i, SlotOf(bn))), BitLog(sb, s, s', i, bn);
            && Sorted(before, now + MapLog(sb, s, s', i, bn) + {a}, s', i, data + {a}, bits + more)
            && |data + {a}| <= |data| + 1 && |bits + more| <= |bits| + Missing(s, i, bn)
  {
    var a, more := At(s', Slot(i, SlotOf(bn))), BitLog(sb, s, s', i, bn);
    MapLogParts(sb, s, s', i, bn);
    AtMostTwo(data, a, {});
    AtMostTwo(bits, a, more);
  }

  lemma SortedEnd(before: set<nat>, now: set<nat>, s: Fs, i: nat, data: set<nat>, bits: set<nat>, m: nat)
    requires Sorted(before, now, s, i, data, bits)
    ensures |now - before| <= |data| + |bits| + 1
    ensures |now + {m} - before| <= |data| + |bits| + 2
  {
    var all := data + bits + Indirects(s, i);
    AtMostTwo(data, 0, bits);
    AtMostTwo(data + bits, 0, Indirects(s, i));
    AtMostTwo(all, m, {});
    SubsetSize(now - before, all);
    SubsetSize(now + {m} - before, all + {m});
  }

  /** The blocks that a write of `n` bytes at `off` touches. */
  function Touched(off: nat, n: nat): nat {
    if n == 0 then 0
    else
      assert off / BSIZE <= BlocksFor(off + n);
      BlocksFor(off + n) - off / BSIZE
  }

  lemma TouchedStep(off: nat, tot: nat, m: nat)
    requires 0 < m && (off + tot) % BSIZE + m <= BSIZE && (tot == 0 || (off + tot) % BSIZE == 0)
    ensures Touched(off, tot + m) == Touched(off, tot) + 1
  {
    BlocksForStep(off + tot, m);
  }

  /** The blocks one `writei` may log: data, free map, indirect block and inode. */
  function WriteBudget(size: nat, off: nat, n: nat): nat {
    Touched(off, n) + Demand(size, off + n) + 2
  }

  /** A write of the size that `filewrite` chooses fits the log space its transaction reserved. */
  lemma ChunkFits(size: nat, off: nat, n: nat)
    requires off <= size && n <= CHUNK
    ensures WriteBudget(size, off, n) <= MAXOPBLOCKS
  {
    if off + n > size {
      BlocksForMonotone(off, size);
    }
  }
}
