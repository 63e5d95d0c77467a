/**
 Block ownership and file contents (`balloc`, `bfree`, `bmap`, `itrunc`, `readi`, `writei` and
 `iupdate` in `xv6/fs.c`) on values.  The disk is the block store that the log and the buffer
 cache implement; `inodes` are the in-memory inodes, whose on-disk copies sit in inode blocks.
 */
module FileLayer {
  import opened DiskFormat

  type Disk = seq<Block>

  datatype Super = Super(size: nat, nblocks: nat, ninodes: nat, inodestart: nat, bmapstart: nat)

  /** The first data block. */
  function DataStart(sb: Super): int {
    sb.size - sb.nblocks
  }

  datatype Fs = Fs(disk: Disk, inodes: seq<Inode>)

  /** A place that can name a block: addrs[0..12], or entry `k - 13` of the indirect block. */
  datatype Slot = Slot(i: nat, k: nat)

  const SLOTS := 141
  const INDIRECT := 12

  /** A block after `bzero`. */
  function ZeroBlock(): (b: Block)
    ensures |b| == BSIZE && forall i | 0 <= i < BSIZE :: b[i] == 0
  {
    seq(BSIZE, _ => 0)
  }

  function Read(d: Disk, b: int): Block {
    if 0 <= b < |d| then d[b] else []
  }

  function Put(d: Disk, b: int, data: Block): (e: Disk)
    ensures |e| == |d|
  {
    if 0 <= b < |d| then d[b := data] else d
  }

  /** Boot block, super block and log come first, then inode blocks, free map, data blocks. */
  ghost predicate LayoutOk(sb: Super, n: nat) {
    && sb.size <= n && sb.size < UINT
    && 0 < sb.inodestart && sb.inodestart + sb.ninodes / IPB < sb.bmapstart
    && sb.bmapstart + sb.size / BPB < DataStart(sb) <= sb.size
  }

  ghost predicate Shape(sb: Super, s: Fs) {
    && LayoutOk(sb, |s.disk|)
    && (forall b | 0 <= b < |s.disk| :: |s.disk[b]| == BSIZE)
    && |s.inodes| == sb.ninodes
    && forall i | 0 <= i < |s.inodes| :: Fits(s.inodes[i])
  }

  // ----- the free map

  /** The bit of block `b` in the free map: set means in use. */
  predicate Used(sb: Super, d: Disk, b: nat) {
    BlockBit(Read(d, sb.bmapstart + b / BPB), b % BPB)
  }

  function SetUsed(sb: Super, d: Disk, b: nat, v: bool): (e: Disk)
    ensures |e| == |d|
  {
    var m := sb.bmapstart + b / BPB;
    Put(d, m, SetBlockBit(Read(d, m), b % BPB, v))
  }

  lemma UsedSetUsed(sb: Super, s: Fs, b: nat, v: bool, c: nat)
    requires Shape(sb, s) && b < sb.size && c < sb.size
    ensures Used(sb, SetUsed(sb, s.disk, b, v), c) == if c == b then v else Used(sb, s.disk, c)
  {
    var m := sb.bmapstart + b / BPB;
    if c / BPB == b / BPB {
      BlockBitSet(s.disk[m], b % BPB, v, c % BPB);
    }
  }

  // ----- inodes and their blocks

  function InodeAt(sb: Super, d: Disk, i: nat): Inode {
    DecodeInode(Read(d, sb.inodestart + i / IPB), i % IPB)
  }

  function PutInode(sb: Super, d: Disk, i: nat, ip: Inode): (e: Disk)
    ensures |e| == |d|
  {
    var m := sb.inodestart + i / IPB;
    Put(d, m, EncodeInode(Read(d, m), i % IPB, ip))
  }

  /** `iupdate` makes the on-disk inode equal to the in-memory one and moves no other inode. */
  lemma InodeAtPut(sb: Super, s: Fs, i: nat, ip: Inode, j: nat)
    requires Shape(sb, s) && i < sb.ninodes && j < sb.ninodes && Fits(ip)
    ensures InodeAt(sb, PutInode(sb, s.disk, i, ip), j) == if j == i then ip else InodeAt(sb, s.disk, j)
  {
    var m := sb.inodestart + i / IPB;
    if j / IPB == i / IPB {
      InodeRoundTrip(s.disk[m], i % IPB, ip, j % IPB);
    }
  }

  function AddrOf(ip: Inode, k: nat): nat {
    if k < |ip.addrs| then ip.addrs[k] else 0
  }

  /** The block named by slot `k` of an inode, 0 if none. */
  function Addr(d: Disk, ip: Inode, k: nat): nat {
    if k <= INDIRECT then AddrOf(ip, k)
    else if AddrOf(ip, INDIRECT) == 0 then 0
    else Word(Read(d, AddrOf(ip, INDIRECT)), k - INDIRECT - 1)
  }

  function InodeOrEmpty(s: Fs, i: nat): Inode {
    if i < |s.inodes| then s.inodes[i] else Inode(0, 0, 0, 0, 0, [])
  }

  function At(s: Fs, t: Slot): nat {
    Addr(s.disk, InodeOrEmpty(s, t.i), t.k)
  }

  predicate IsSlot(s: Fs, t: Slot) {
    t.i < |s.inodes| && t.k < SLOTS
  }

  /** The slot of file block `bn`. */
  function SlotOf(bn: nat): nat {
    if bn < NDIRECT then bn else bn + 1
  }

  // ----- ownership

  /** Every block named by a slot belongs to that slot only. */
  ghost predicate Named(s: Fs, o: map<nat, Slot>) {
    forall t | IsSlot(s, t) && At(s, t) != 0 :: At(s, t) in o && o[At(s, t)] == t
  }

  /** Every owned block is a data block marked in use and is named by its owner. */
  ghost predicate Marked(sb: Super, s: Fs, o: map<nat, Slot>) {
    && (forall b | b in o ::
          DataStart(sb) <= b < sb.size && Used(sb, s.disk, b) && IsSlot(s, o[b]) && At(s, o[b]) == b)
    && forall b | 0 <= b < DataStart(sb) :: Used(sb, s.disk, b)
  }

  ghost predicate Owned(sb: Super, s: Fs, o: map<nat, Slot>) {
    Shape(sb, s) && Named(s, o) && Marked(sb, s, o)
  }

  /** Two different slots never name the same block. */
  lemma SlotsAreDisjoint(sb: Super, s: Fs, o: map<nat, Slot>, t: Slot, u: Slot)
    requires Owned(sb, s, o) && IsSlot(s, t) && IsSlot(s, u) && At(s, t) == At(s, u) != 0
    ensures t == u
  {
  }

  /** The owner of a named block. */
  lemma OwnerOf(sb: Super, s: Fs, o: map<nat, Slot>, t: Slot)
    requires Owned(sb, s, o) && IsSlot(s, t) && At(s, t) != 0
    ensures At(s, t) in o && o[At(s, t)] == t && DataStart(sb) <= At(s, t) < sb.size <= |s.disk|
    ensures |Read(s.disk, At(s, t))| == BSIZE
  {
  }

  /** The free map only depends on its own blocks. */
  lemma UsedFrame(sb: Super, d: Disk, e: Disk, c: nat)
    requires LayoutOk(sb, |d|) && c < sb.size
    requires forall m | sb.bmapstart <= m < DataStart(sb) :: Read(e, m) == Read(d, m)
    ensures Used(sb, e, c) == Used(sb, d, c)
  {
    assert c / BPB <= sb.size / BPB;
    assert sb.bmapstart <= sb.bmapstart + c / BPB < DataStart(sb);
  }

  /** Ownership only depends on what slots name and on the free map. */
  lemma OwnedFrame(sb: Super, s: Fs, s': Fs, o: map<nat, Slot>)
    requires Owned(sb, s, o) && Shape(sb, s')
    requires forall t | IsSlot(s, t) :: At(s', t) == At(s, t)
    requires forall c | 0 <= c < sb.size :: Used(sb, s.disk, c) ==> Used(sb, s'.disk, c)
    ensures Owned(sb, s', o)
  {
  }

  /** The contents of file block `bn`; an unmapped block reads as zeroes. */
  function FileBlock(s: Fs, i: nat, bn: nat): Block {
    var a := At(s, Slot(i, SlotOf(bn)));
    if a == 0 then ZeroBlock() else Read(s.disk, a)
  }

  lemma FileBlockSize(sb: Super, s: Fs, o: map<nat, Slot>, i: nat, bn: nat)
    requires Owned(sb, s, o) && i < |s.inodes| && bn < MAXFILE
    ensures |FileBlock(s, i, bn)| == BSIZE
  {
    if At(s, Slot(i, SlotOf(bn))) != 0 {
      OwnerOf(sb, s, o, Slot(i, SlotOf(bn)));
    }
  }

  /** Two states in which all files have the same contents at every offset. */
  ghost predicate SameFiles(s: Fs, s': Fs) {
    && |s'.inodes| == |s.inodes|
    && forall i, bn | 0 <= i < |s.inodes| && 0 <= bn < MAXFILE :: FileBlock(s', i, bn) == FileBlock(s, i, bn)
  }

  // ----- balloc on values

  function Allocated(sb: Super, d: Disk, b: nat): (e: Disk)
    ensures |e| == |d|
  {
    Put(SetUsed(sb, d, b, true), b, ZeroBlock())
  }

  lemma AllocatedReads(sb: Super, s: Fs, b: nat, c: int)
    requires Shape(sb, s) && DataStart(sb) <= b < sb.size
    requires c != b && (c < sb.bmapstart || c >= DataStart(sb))
    ensures Read(Allocated(sb, s.disk, b), c) == Read(s.disk, c)
  {
  }

  lemma AllocatedUsed(sb: Super, s: Fs, b: nat, c: nat)
    requires Shape(sb, s) && DataStart(sb) <= b < sb.size && c < sb.size
    ensures Used(sb, Allocated(sb, s.disk, b), c) == (c == b || Used(sb, s.disk, c))
  {
    UsedSetUsed(sb, s, b, true, c);
  }

  lemma AllocatedInode(sb: Super, s: Fs, b: nat, j: nat)
    requires Shape(sb, s) && DataStart(sb) <= b < sb.size && j < sb.ninodes
    ensures InodeAt(sb, Allocated(sb, s.disk, b), j) == InodeAt(sb, s.disk, j)
  {
    AllocatedReads(sb, s, b, sb.inodestart + j / IPB);
  }

  /** A fresh block is nobody's. */
  lemma FreshIsUnowned(sb: Super, s: Fs, o: map<nat, Slot>, b: nat)
    requires Owned(sb, s, o) && b < sb.size && !Used(sb, s.disk, b)
    ensures b !in o && DataStart(sb) <= b
  {
  }

  lemma AllocatedAt(sb: Super, s: Fs, o: map<nat, Slot>, b: nat, t: Slot)
    requires Owned(sb, s, o) && b < sb.size && !Used(sb, s.disk, b) && IsSlot(s, t)
    ensures At(s.(disk := Allocated(sb, s.disk, b)), t) == At(s, t)
  {
    var a := Slot(t.i, INDIRECT);
    FreshIsUnowned(sb, s, o, b);
    if t.k > INDIRECT && At(s, a) != 0 {
      AllocatedReads(sb, s, b, At(s, a));
    }
  }

  /** `balloc` keeps every owner, and every file. */
  lemma AllocatedOwned(sb: Super, s: Fs, o: map<nat, Slot>, b: nat)
    requires Owned(sb, s, o) && b < sb.size && !Used(sb, s.disk, b)
    ensures var s' := s.(disk := Allocated(sb, s.disk, b));
            Owned(sb, s', o) && Used(sb, s'.disk, b) && Read(s'.disk, b) == ZeroBlock()
  {
    var s' := s.(disk := Allocated(sb, s.disk, b));
    FreshIsUnowned(sb, s, o, b);
    forall t | IsSlot(s, t) ensures At(s', t) == At(s, t) {
      AllocatedAt(sb, s, o, b, t);
    }
    forall c | 0 <= c < sb.size ensures Used(sb, s'.disk, c) == (c == b || Used(sb, s.disk, c)) {
      AllocatedUsed(sb, s, b, c);
    }
  }

  lemma AllocatedFiles(sb: Super, s: Fs, o: map<nat, Slot>, b: nat)
    requires Owned(sb, s, o) && b < sb.size && !Used(sb, s.disk, b)
    ensures SameFiles(s, s.(disk := Allocated(sb, s.disk, b)))
  {
    var s' := s.(disk := Allocated(sb, s.disk, b));
    FreshIsUnowned(sb, s, o, b);
    forall i, bn | 0 <= i < |s.inodes| && 0 <= bn < MAXFILE ensures FileBlock(s', i, bn) == FileBlock(s, i, bn) {
      var t := Slot(i, SlotOf(bn));
      AllocatedAt(sb, s, o, b, t);
      if At(s, t) != 0 {
        AllocatedReads(sb, s, b, At(s, t));
      }
    }
  }

  // ----- giving a fresh block to a slot

  /** One slot that named nothing now names `b`; the free map is as before. */
  ghost predicate Assigned(sb: Super, s: Fs, s': Fs, t0: Slot, b: nat) {
    && |s'.inodes| == |s.inodes|
    && (forall t | IsSlot(s, t) :: At(s', t) == if t == t0 then b else At(s, t))
    && forall c | 0 <= c < sb.size :: Used(sb, s'.disk, c) == Used(sb, s.disk, c)
  }

  lemma AssignedOwned(sb: Super, s: Fs, s': Fs, o: map<nat, Slot>, t0: Slot, b: nat)
    requires Owned(sb, s, o) && Shape(sb, s') && IsSlot(s, t0) && At(s, t0) == 0 && Assigned(sb, s, s', t0, b)
    requires b !in o && DataStart(sb) <= b < sb.size && Used(sb, s.disk, b)
    ensures Owned(sb, s', o[b := t0])
  {
    forall t | IsSlot(s', t) && At(s', t) != 0 ensures At(s', t) in o[b := t0] && o[b := t0][At(s', t)] == t {
      AssignedNames(sb, s, s', o, t0, b, t);
    }
    forall c | c in o[b := t0]
      ensures DataStart(sb) <= c < sb.size && Used(sb, s'.disk, c)
      ensures IsSlot(s', o[b := t0][c]) && At(s', o[b := t0][c]) == c
    {
      AssignedMarks(sb, s, s', o, t0, b, c);
    }
  }

  lemma AssignedNames(sb: Super, s: Fs, s': Fs, o: map<nat, Slot>, t0: Slot, b: nat, t: Slot)
    requires Named(s, o) && Assigned(sb, s, s', t0, b) && b !in o && IsSlot(s', t) && At(s', t) != 0
    ensures At(s', t) in o[b := t0] && o[b := t0][At(s', t)] == t
  {
    assert IsSlot(s, t);
  }

  lemma AssignedMarks(sb: Super, s: Fs, s': Fs, o: map<nat, Slot>, t0: Slot, b: nat, c: nat)
    requires Marked(sb, s, o) && IsSlot(s, t0) && At(s, t0) == 0 && Assigned(sb, s, s', t0, b) && c in o[b := t0]
    requires b != 0 && DataStart(sb) <= b < sb.size && Used(sb, s.disk, b) && (b in o ==> c == b)
    requires forall x | x in o :: x != 0
    ensures DataStart(sb) <= c < sb.size && Used(sb, s'.disk, c)
    ensures IsSlot(s', o[b := t0][c]) && At(s', o[b := t0][c]) == c
  {
    if c != b {
      assert IsSlot(s, o[c]) && At(s, o[c]) == c;
    }
  }

  function AssignInode(s: Fs, i: nat, k: nat, b: nat): Fs {
    var ip := InodeOrEmpty(s, i);
    if i < |s.inodes| && k < |ip.addrs| then s.(inodes := s.inodes[i := ip.(addrs := ip.addrs[k := b])]) else s
  }

  lemma WordOfZero(j: int)
    ensures Word(ZeroBlock(), j) == 0
  {
  }

  lemma AssignInodeOk(sb: Super, s: Fs, i: nat, k: nat, b: nat)
    requires Shape(sb, s) && i < |s.inodes| && k <= INDIRECT && At(s, Slot(i, k)) == 0 && b < sb.size && b != 0
    requires Read(s.disk, b) == ZeroBlock()
    ensures var s' := AssignInode(s, i, k, b);
            Shape(sb, s') && Assigned(sb, s, s', Slot(i, k), b) && SameFiles(s, s')
  {
    var s' := AssignInode(s, i, k, b);
    forall t | IsSlot(s, t) ensures At(s', t) == if t == Slot(i, k) then b else At(s, t) {
      if t.i == i && k == INDIRECT && t.k > INDIRECT {
        WordOfZero(t.k - INDIRECT - 1);
      }
    }
    forall j, bn | 0 <= j < |s.inodes| && 0 <= bn < MAXFILE ensures FileBlock(s', j, bn) == FileBlock(s, j, bn) {
      assert IsSlot(s, Slot(j, SlotOf(bn)));
    }
  }

  function SetEntry(s: Fs, i: nat, k: nat, b: nat): Fs {
    var a := At(s, Slot(i, INDIRECT));
    s.(disk := Put(s.disk, a, SetWord(Read(s.disk, a), if k > INDIRECT then k - INDIRECT - 1 else 0, b)))
  }

  lemma SetEntryAt(s: Fs, i: nat, k: nat, b: nat, a: nat, t: Slot)
    requires INDIRECT < k < SLOTS && At(s, Slot(i, INDIRECT)) == a != 0 && b < UINT
    requires a < |s.disk| && |s.disk[a]| == BSIZE
    requires t.i != i ==> At(s, Slot(t.i, INDIRECT)) != a
    ensures At(SetEntry(s, i, k, b), t) == if t == Slot(i, k) then b else At(s, t)
  {
    if t.k > INDIRECT && t.i == i {
      WordSetWord(s.disk[a], k - INDIRECT - 1, b, t.k - INDIRECT - 1);
    }
  }

  /** The indirect block of `i` is not the block of any other slot. */
  lemma IndirectIsPrivate(sb: Super, s: Fs, o: map<nat, Slot>, i: nat, t: Slot)
    requires Owned(sb, s, o) && i < |s.inodes| && At(s, Slot(i, INDIRECT)) != 0
    requires IsSlot(s, t) && t != Slot(i, INDIRECT)
    ensures At(s, t) != At(s, Slot(i, INDIRECT))
  {
    OwnerOf(sb, s, o, Slot(i, INDIRECT));
    if At(s, t) != 0 {
      OwnerOf(sb, s, o, t);
    }
  }

  lemma SetEntryAssigned(sb: Super, s: Fs, o: map<nat, Slot>, i: nat, k: nat, b: nat)
    requires Owned(sb, s, o) && i < |s.inodes| && INDIRECT < k < SLOTS && At(s, Slot(i, INDIRECT)) != 0
    requires b < sb.size
    ensures Assigned(sb, s, SetEntry(s, i, k, b), Slot(i, k), b)
  {
    var s' := SetEntry(s, i, k, b);
    var a := At(s, Slot(i, INDIRECT));
    OwnerOf(sb, s, o, Slot(i, INDIRECT));
    forall t | IsSlot(s, t) ensures At(s', t) == if t == Slot(i, k) then b else At(s, t) {
      if t.i != i {
        IndirectIsPrivate(sb, s, o, i, Slot(t.i, INDIRECT));
      }
      SetEntryAt(s, i, k, b, a, t);
    }
    forall c | 0 <= c < sb.size ensures Used(sb, s'.disk, c) == Used(sb, s.disk, c) {
      UsedFrame(sb, s.disk, s'.disk, c);
    }
  }

  lemma SetEntryShape(sb: Super, s: Fs, i: nat, k: nat, b: nat)
    requires Shape(sb, s)
    ensures Shape(sb, SetEntry(s, i, k, b))
  {
  }

  lemma SetEntryFiles(sb: Super, s: Fs, o: map<nat, Slot>, i: nat, k: nat, b: nat)
    requires Owned(sb, s, o) && i < |s.inodes| && INDIRECT < k < SLOTS && At(s, Slot(i, INDIRECT)) != 0
    requires At(s, Slot(i, k)) == 0 && b < sb.size && b != 0 && b !in o && Read(s.disk, b) == ZeroBlock()
    ensures SameFiles(s, SetEntry(s, i, k, b))
  {
    var s' := SetEntry(s, i, k, b);
    var a := At(s, Slot(i, INDIRECT));
    OwnerOf(sb, s, o, Slot(i, INDIRECT));
    forall j, bn | 0 <= j < |s.inodes| && 0 <= bn < MAXFILE ensures FileBlock(s', j, bn) == FileBlock(s, j, bn) {
      SetEntryFileBlock(sb, s, o, i, k, b, j, bn);
    }
  }

  lemma SetEntryFileBlock(sb: Super, s: Fs, o: map<nat, Slot>, i: nat, k: nat, b: nat, j: nat, bn: nat)
    requires Owned(sb, s, o) && i < |s.inodes| && INDIRECT < k < SLOTS && At(s, Slot(i, INDIRECT)) != 0
    requires At(s, Slot(i, k)) == 0 && b < sb.size && b != 0 && b !in o && Read(s.disk, b) == ZeroBlock()
    requires j < |s.inodes| && bn < MAXFILE
    ensures FileBlock(SetEntry(s, i, k, b), j, bn) == FileBlock(s, j, bn)
  {
    var t := Slot(j, SlotOf(bn));
    OwnerOf(sb, s, o, Slot(i, INDIRECT));
    IndirectIsPrivate(sb, s, o, i, t);
    if j != i {
      IndirectIsPrivate(sb, s, o, i, Slot(j, INDIRECT));
    }
    SetEntryAt(s, i, k, b, At(s, Slot(i, INDIRECT)), t);
  }

  // ----- writing data

  /** Replace the contents of a file's block. */
  lemma DataWriteAt(sb: Super, s: Fs, o: map<nat, Slot>, i: nat, bn: nat, data: Block, t: Slot)
    requires Owned(sb, s, o) && i < |s.inodes| && bn < MAXFILE && At(s, Slot(i, SlotOf(bn))) != 0 && IsSlot(s, t)
    ensures At(s.(disk := Put(s.disk, At(s, Slot(i, SlotOf(bn))), data)), t) == At(s, t)
  {
    var a := At(s, Slot(i, SlotOf(bn)));
    assert o[a] == Slot(i, SlotOf(bn));
    if t.k > INDIRECT && At(s, Slot(t.i, INDIRECT)) != 0 {
      assert o[At(s, Slot(t.i, INDIRECT))] == Slot(t.i, INDIRECT);
    }
  }

  lemma DataWriteOwned(sb: Super, s: Fs, o: map<nat, Slot>, i: nat, bn: nat, data: Block)
    requires Owned(sb, s, o) && i < |s.inodes| && bn < MAXFILE && At(s, Slot(i, SlotOf(bn))) != 0 && |data| == BSIZE
    ensures Owned(sb, s.(disk := Put(s.disk, At(s, Slot(i, SlotOf(bn))), data)), o)
  {
    var a := At(s, Slot(i, SlotOf(bn)));
    var s' := s.(disk := Put(s.disk, a, data));
    OwnerOf(sb, s, o, Slot(i, SlotOf(bn)));
    forall t | IsSlot(s, t) ensures At(s', t) == At(s, t) {
      DataWriteAt(sb, s, o, i, bn, data, t);
    }
    forall c | 0 <= c < sb.size ensures Used(sb, s'.disk, c) == Used(sb, s.disk, c) {
      UsedFrame(sb, s.disk, s'.disk, c);
    }
    OwnedFrame(sb, s, s', o);
  }

  lemma DataWriteFiles(sb: Super, s: Fs, o: map<nat, Slot>, i: nat, bn: nat, data: Block, j: nat, cn: nat)
    requires Owned(sb, s, o) && i < |s.inodes| && bn < MAXFILE && At(s, Slot(i, SlotOf(bn))) != 0
    requires j < |s.inodes| && cn < MAXFILE
    ensures var s' := s.(disk := Put(s.disk, At(s, Slot(i, SlotOf(bn))), data));
            FileBlock(s', j, cn) == if j == i && cn == bn then data else FileBlock(s, j, cn)
  {
    var a := At(s, Slot(i, SlotOf(bn)));
    var t := Slot(j, SlotOf(cn));
    DataWriteAt(sb, s, o, i, bn, data, t);
    assert o[a] == Slot(i, SlotOf(bn));
    if At(s, t) != 0 {
      assert o[At(s, t)] == t;
    }
  }

  /** Writes to data blocks do not reach inode blocks. */
  lemma DataWriteInodes(sb: Super, s: Fs, a: nat, data: Block, j: nat)
    requires Shape(sb, s) && DataStart(sb) <= a && j < sb.ninodes
    ensures InodeAt(sb, Put(s.disk, a, data), j) == InodeAt(sb, s.disk, j)
  {
    assert j / IPB <= sb.ninodes / IPB;
  }

  // ----- iupdate

  lemma PutInodeReads(sb: Super, s: Fs, i: nat, ip: Inode, c: int)
    requires Shape(sb, s) && i < sb.ninodes && c >= sb.bmapstart
    ensures Read(PutInode(sb, s.disk, i, ip), c) == Read(s.disk, c)
  {
    assert i / IPB <= sb.ninodes / IPB;
  }

  /** `iupdate` moves no block and no file. */
  lemma PutInodeOwned(sb: Super, s: Fs, o: map<nat, Slot>, i: nat, ip: Inode)
    requires Owned(sb, s, o) && i < sb.ninodes && Fits(ip)
    ensures var s' := s.(disk := PutInode(sb, s.disk, i, ip));
            && Owned(sb, s', o) && SameFiles(s, s')
            && forall t | IsSlot(s, t) :: At(s', t) == At(s, t)
  {
    var s' := s.(disk := PutInode(sb, s.disk, i, ip));
    forall t | IsSlot(s, t) ensures At(s', t) == At(s, t) {
      PutInodeAt(sb, s, o, i, ip, t);
    }
    forall c | 0 <= c < sb.size ensures Used(sb, s'.disk, c) == Used(sb, s.disk, c) {
      PutInodeReads(sb, s, i, ip, sb.bmapstart + c / BPB);
    }
    OwnedFrame(sb, s, s', o);
    forall j, bn | 0 <= j < |s.inodes| && 0 <= bn < MAXFILE ensures FileBlock(s', j, bn) == FileBlock(s, j, bn) {
      PutInodeBlock(sb, s, o, i, ip, j, bn);
    }
  }

  lemma PutInodeAt(sb: Super, s: Fs, o: map<nat, Slot>, i: nat, ip: Inode, t: Slot)
    requires Owned(sb, s, o) && i < sb.ninodes && IsSlot(s, t)
    ensures At(s.(disk := PutInode(sb, s.disk, i, ip)), t) == At(s, t)
  {
    var x := Slot(t.i, INDIRECT);
    if t.k > INDIRECT && At(s, x) != 0 {
      OwnerOf(sb, s, o, x);
      PutInodeReads(sb, s, i, ip, At(s, x));
    }
  }

  lemma PutInodeBlock(sb: Super, s: Fs, o: map<nat, Slot>, i: nat, ip: Inode, j: nat, bn: nat)
    requires Owned(sb, s, o) && i < sb.ninodes && j < |s.inodes| && bn < MAXFILE
    ensures FileBlock(s.(disk := PutInode(sb, s.disk, i, ip)), j, bn) == FileBlock(s, j, bn)
  {
    var t := Slot(j, SlotOf(bn));
    PutInodeAt(sb, s, o, i, ip, t);
    if At(s, t) != 0 {
      OwnerOf(sb, s, o, t);
      PutInodeReads(sb, s, i, ip, At(s, t));
    }
  }

  // ----- files without holes

  /** Exactly the blocks below offset `top` are mapped, and the indirect block only if it is needed. */
  ghost predicate Mapped(s: Fs, i: nat, top: nat) {
    && (forall bn | 0 <= bn < MAXFILE :: At(s, Slot(i, SlotOf(bn))) != 0 <==> bn * BSIZE < top)
    && (At(s, Slot(i, INDIRECT)) != 0 <==> NDIRECT * BSIZE < top)
  }

  ghost predicate FileOk(s: Fs, i: nat) {
    InodeOrEmpty(s, i).size <= MAXFILE * BSIZE && Mapped(s, i, InodeOrEmpty(s, i).size)
  }

  /** Files have no holes, and on-disk inodes equal those in memory. */
  ghost predicate FilesOk(sb: Super, s: Fs) {
    forall i | 0 <= i < |s.inodes| :: FileOk(s, i) && InodeAt(sb, s.disk, i) == s.inodes[i]
  }

  /** The state between operations. */
  ghost predicate Consistent(sb: Super, s: Fs, o: map<nat, Slot>) {
    Owned(sb, s, o) && FilesOk(sb, s)
  }

  function FileByte(s: Fs, i: nat, off: nat): Byte {
    Get(FileBlock(s, i, off / BSIZE), off % BSIZE)
  }

  /** A file is a byte sequence. */
  ghost function Contents(s: Fs, i: nat): (c: seq<Byte>)
    ensures |c| == InodeOrEmpty(s, i).size
  {
    seq(InodeOrEmpty(s, i).size, off requires 0 <= off < InodeOrEmpty(s, i).size => FileByte(s, i, off))
  }

  lemma SameFilesByte(s: Fs, s': Fs, i: nat, off: nat)
    requires SameFiles(s, s') && i < |s.inodes| && off < MAXFILE * BSIZE
    ensures FileByte(s', i, off) == FileByte(s, i, off)
  {
  }

  lemma SameFilesTrans(s: Fs, s1: Fs, s2: Fs)
    requires SameFiles(s, s1) && SameFiles(s1, s2)
    ensures SameFiles(s, s2)
  {
  }

  // ----- what bmap may change

  /** Slot `t0` now names `b`; every other slot is as before. */
  ghost predicate OnlySlot(s: Fs, s': Fs, t0: Slot, b: nat) {
    && |s'.inodes| == |s.inodes|
    && forall t | IsSlot(s, t) :: At(s', t) == if t == t0 then b else At(s, t)
  }

  /** No inode changes but the block addresses of `i` in memory. */
  ghost predicate OnlyInode(sb: Super, s: Fs, s': Fs, i: nat) {
    && |s'.inodes| == |s.inodes|
    && (forall j | 0 <= j < |s.inodes| && j != i :: s'.inodes[j] == s.inodes[j])
    && (i < |s.inodes| ==> s'.inodes[i] == s.inodes[i].(addrs := s'.inodes[i].addrs))
    && forall j | 0 <= j < sb.ninodes :: InodeAt(sb, s'.disk, j) == InodeAt(sb, s.disk, j)
  }

  lemma AllocatedAll(sb: Super, s: Fs, o: map<nat, Slot>, b: nat)
    requires Owned(sb, s, o) && b < sb.size && !Used(sb, s.disk, b)
    ensures var s' := s.(disk := Allocated(sb, s.disk, b));
            && (forall t | IsSlot(s, t) :: At(s', t) == At(s, t))
            && (forall j | 0 <= j < sb.ninodes :: InodeAt(sb, s'.disk, j) == InodeAt(sb, s.disk, j))
  {
    var s' := s.(disk := Allocated(sb, s.disk, b));
    FreshIsUnowned(sb, s, o, b);
    forall t | IsSlot(s, t) ensures At(s', t) == At(s, t) {
      AllocatedAt(sb, s, o, b, t);
    }
    forall j | 0 <= j < sb.ninodes ensures InodeAt(sb, s'.disk, j) == InodeAt(sb, s.disk, j) {
      AllocatedInode(sb, s, b, j);
    }
  }

  /** Block `bn` of inode `i` is now mapped; only its slot and a missing indirect block were filled. */
  ghost predicate Filled(s: Fs, s': Fs, i: nat, bn: nat) {
    && |s'.inodes| == |s.inodes|
    && At(s', Slot(i, SlotOf(bn))) != 0
    && (At(s, Slot(i, SlotOf(bn))) != 0 ==> At(s', Slot(i, SlotOf(bn))) == At(s, Slot(i, SlotOf(bn))))
    && (forall t | IsSlot(s, t) && t != Slot(i, SlotOf(bn)) && t != Slot(i, INDIRECT) :: At(s', t) == At(s, t))
    && (bn < NDIRECT || At(s, Slot(i, INDIRECT)) != 0 ==> At(s', Slot(i, INDIRECT)) == At(s, Slot(i, INDIRECT)))
    && (bn >= NDIRECT ==> At(s', Slot(i, INDIRECT)) != 0)
  }

  /** `bmap` for block `bn` of inode `i` returned `a`: no file changed, and nothing at all if `bn` was mapped. */
  ghost predicate Bmapped(sb: Super, s: Fs, s': Fs, i: nat, bn: nat, a: nat) {
    && SameFiles(s, s') && OnlyInode(sb, s, s', i) && Filled(s, s', i, bn)
    && At(s', Slot(i, SlotOf(bn))) == a
    && (At(s, Slot(i, SlotOf(bn))) != 0 ==> s' == s)
  }

  lemma BmappedNothing(sb: Super, s: Fs, i: nat, bn: nat)
    requires bn < MAXFILE && At(s, Slot(i, SlotOf(bn))) != 0
    ensures Bmapped(sb, s, s, i, bn, At(s, Slot(i, SlotOf(bn))))
  {
  }

  lemma BmappedOne(sb: Super, s: Fs, s': Fs, i: nat, bn: nat, a: nat)
    requires SameFiles(s, s') && OnlyInode(sb, s, s', i) && bn < MAXFILE && i < |s.inodes|
    requires OnlySlot(s, s', Slot(i, SlotOf(bn)), a) && a != 0 && At(s, Slot(i, SlotOf(bn))) == 0
    requires bn >= NDIRECT ==> At(s, Slot(i, INDIRECT)) != 0
    ensures Bmapped(sb, s, s', i, bn, a)
  {
    assert IsSlot(s, Slot(i, SlotOf(bn))) && IsSlot(s, Slot(i, INDIRECT));
  }

  lemma BmappedTwo(sb: Super, s: Fs, s1: Fs, s': Fs, i: nat, bn: nat, a: nat, a1: nat)
    requires SameFiles(s, s1) && OnlyInode(sb, s, s1, i) && NDIRECT <= bn < MAXFILE && i < |s.inodes|
    requires OnlySlot(s, s1, Slot(i, INDIRECT), a1) && a1 != 0 && At(s, Slot(i, INDIRECT)) == 0
    requires Bmapped(sb, s1, s', i, bn, a)
    ensures Bmapped(sb, s, s', i, bn, a)
  {
    SameFilesTrans(s, s1, s');
    assert At(s, Slot(i, SlotOf(bn))) == 0;
  }

  /** Filling at or before the first unmapped block keeps a file without holes. */
  lemma FilledNoHoles(s: Fs, s': Fs, i: nat, bn: nat, top: nat, top': nat)
    requires Filled(s, s', i, bn) && i < |s.inodes| && Mapped(s, i, top) && bn < MAXFILE
    requires bn * BSIZE <= top <= top' && bn * BSIZE < top' && (top < top' ==> top' <= (bn + 1) * BSIZE)
    ensures Mapped(s', i, top')
  {
    forall cn | 0 <= cn < MAXFILE ensures At(s', Slot(i, SlotOf(cn))) != 0 <==> cn * BSIZE < top' {
      assert IsSlot(s, Slot(i, SlotOf(cn)));
    }
  }

  /** Other files keep their blocks. */
  lemma FilledOthers(s: Fs, s': Fs, i: nat, bn: nat, j: nat, top: nat)
    requires Filled(s, s', i, bn) && j != i && j < |s.inodes| && Mapped(s, j, top)
    ensures Mapped(s', j, top)
  {
    forall cn | 0 <= cn < MAXFILE ensures At(s', Slot(j, SlotOf(cn))) == At(s, Slot(j, SlotOf(cn))) {
      assert IsSlot(s, Slot(j, SlotOf(cn)));
    }
    assert IsSlot(s, Slot(j, INDIRECT));
  }

  // ----- writing

  /** `src` was written at offset `off` of file `i` and no other byte of any file changed. */
  ghost predicate BytesWritten(s: Fs, s': Fs, i: nat, off: nat, src: seq<Byte>) {
    && |s'.inodes| == |s.inodes|
    && (forall p | 0 <= p < MAXFILE * BSIZE ::
          FileByte(s', i, p) == if off <= p < off + |src| then src[p - off] else FileByte(s, i, p))
    && forall j, bn | 0 <= j < |s.inodes| && j != i && 0 <= bn < MAXFILE :: FileBlock(s', j, bn) == FileBlock(s, j, bn)
  }

  /** The block that `writei` logs: `chunk` moved into place. */
  function Spliced(b: Block, at: nat, chunk: seq<Byte>): Block {
    if at + |chunk| <= |b| then b[..at] + chunk + b[at + |chunk|..] else b
  }

  lemma SplicedByte(b: Block, at: nat, chunk: seq<Byte>, p: nat)
    requires at + |chunk| <= |b| && p < |b|
    ensures Get(Spliced(b, at, chunk), p) == if at <= p < at + |chunk| then chunk[p - at] else Get(b, p)
  {
  }

  /** Where an offset falls relative to a chunk that stays inside one block. */
  lemma OffsetInChunk(off: nat, n: nat, p: nat)
    requires off % BSIZE + n <= BSIZE
    ensures off <= p < off + n <==> p / BSIZE == off / BSIZE && off % BSIZE <= p % BSIZE < off % BSIZE + n
    ensures p / BSIZE == off / BSIZE ==> p - off == p % BSIZE - off % BSIZE
  {
  }

  /** The block write in one round of `writei`'s loop, after `bmap` returned `a`. */
  function ChunkStored(s: Fs, a: nat, off: nat, chunk: seq<Byte>): Fs {
    s.(disk := Put(s.disk, a, Spliced(Read(s.disk, a), off % BSIZE, chunk)))
  }

  /** A byte of a block into which a chunk was spliced, by file offset. */
  lemma SplicedOffset(b: Block, c: Block, off: nat, chunk: seq<Byte>, p: nat)
    requires |b| == BSIZE && off % BSIZE + |chunk| <= BSIZE
    requires c == if p / BSIZE == off / BSIZE then Spliced(b, off % BSIZE, chunk) else b
    ensures Get(c, p % BSIZE) == if off <= p < off + |chunk| then chunk[p - off] else Get(b, p % BSIZE)
  {
    OffsetInChunk(off, |chunk|, p);
    SplicedByte(b, off % BSIZE, chunk, p % BSIZE);
  }

  lemma ChunkByte(sb: Super, s: Fs, o: map<nat, Slot>, i: nat, off: nat, chunk: seq<Byte>, a: nat, p: nat)
    requires Owned(sb, s, o) && i < |s.inodes| && off / BSIZE < MAXFILE && off % BSIZE + |chunk| <= BSIZE
    requires At(s, Slot(i, SlotOf(off / BSIZE))) == a != 0 && p < MAXFILE * BSIZE
    ensures FileByte(ChunkStored(s, a, off, chunk), i, p)
         == if off <= p < off + |chunk| then chunk[p - off] else FileByte(s, i, p)
  {
    var bn := off / BSIZE;
    OwnerOf(sb, s, o, Slot(i, SlotOf(bn)));
    var s' := ChunkStored(s, a, off, chunk);
    DataWriteFiles(sb, s, o, i, bn, Spliced(Read(s.disk, a), off % BSIZE, chunk), i, p / BSIZE);
    FileBlockSize(sb, s, o, i, p / BSIZE);
    SplicedOffset(FileBlock(s, i, p / BSIZE), FileBlock(s', i, p / BSIZE), off, chunk, p);
  }

  lemma ChunkBytes(sb: Super, s: Fs, o: map<nat, Slot>, i: nat, off: nat, chunk: seq<Byte>, a: nat)
    requires Owned(sb, s, o) && i < |s.inodes| && off / BSIZE < MAXFILE && off % BSIZE + |chunk| <= BSIZE
    requires At(s, Slot(i, SlotOf(off / BSIZE))) == a != 0
    ensures BytesWritten(s, ChunkStored(s, a, off, chunk), i, off, chunk)
  {
    var s' := ChunkStored(s, a, off, chunk);
    forall p | 0 <= p < MAXFILE * BSIZE
      ensures FileByte(s', i, p) == if off <= p < off + |chunk| then chunk[p - off] else FileByte(s, i, p)
    {
      ChunkByte(sb, s, o, i, off, chunk, a, p);
    }
    forall j, cn | 0 <= j < |s.inodes| && j != i && 0 <= cn < MAXFILE
      ensures FileBlock(s', j, cn) == FileBlock(s, j, cn)
    {
      DataWriteFiles(sb, s, o, i, off / BSIZE, Spliced(Read(s.disk, a), off % BSIZE, chunk), j, cn);
    }
  }

  lemma WrittenAfterSame(s: Fs, s1: Fs, s2: Fs, i: nat, off: nat, src: seq<Byte>)
    requires SameFiles(s, s1) && BytesWritten(s1, s2, i, off, src) && i < |s.inodes|
    ensures BytesWritten(s, s2, i, off, src)
  {
    forall p | 0 <= p < MAXFILE * BSIZE ensures FileByte(s1, i, p) == FileByte(s, i, p) {
      SameFilesByte(s, s1, i, p);
    }
  }

  /** Two adjacent writes are one write. */
  lemma WrittenAppend(s: Fs, s1: Fs, s2: Fs, i: nat, off: nat, a: seq<Byte>, cur: nat, b: seq<Byte>)
    requires BytesWritten(s, s1, i, off, a) && BytesWritten(s1, s2, i, cur, b) && cur == off + |a|
    ensures BytesWritten(s, s2, i, off, a + b)
  {
  }

  /** A file's new contents after writing `src` at `off`. */
  function Overwrite(f: seq<Byte>, off: nat, src: seq<Byte>): seq<Byte> {
    if off <= |f| then f[..off] + src + (if off + |src| < |f| then f[off + |src|..] else []) else f
  }

  /** What a byte-wise write does to the file as a sequence. */
  lemma WrittenContents(s: Fs, s': Fs, i: nat, off: nat, src: seq<Byte>)
    requires BytesWritten(s, s', i, off, src) && i < |s.inodes|
    requires off <= s.inodes[i].size <= MAXFILE * BSIZE && off + |src| <= MAXFILE * BSIZE
    requires s'.inodes[i].size == Max(s.inodes[i].size, off + |src|)
    ensures Contents(s', i) == Overwrite(Contents(s, i), off, src)
  {
    var g := Overwrite(Contents(s, i), off, src);
    forall p | 0 <= p < |g| ensures Contents(s', i)[p] == g[p] {
      assert FileByte(s', i, p) == if off <= p < off + |src| then src[p - off] else FileByte(s, i, p);
    }
  }

  /** Files of which no block and no size changed are the same byte sequence. */
  lemma SameContents(s: Fs, s': Fs, j: nat)
    requires j < |s.inodes| == |s'.inodes| && s'.inodes[j].size == s.inodes[j].size <= MAXFILE * BSIZE
    requires forall bn | 0 <= bn < MAXFILE :: FileBlock(s', j, bn) == FileBlock(s, j, bn)
    ensures Contents(s', j) == Contents(s, j)
  {
  }

  function Max(a: nat, b: nat): nat {
    if a < b then b else a
  }

  /** One round of `writei`: the bytes of `chunk`, all inside block `off / BSIZE`. */
  ghost predicate ChunkWritten(sb: Super, s: Fs, s': Fs, i: nat, off: nat, chunk: seq<Byte>) {
    && BytesWritten(s, s', i, off, chunk) && OnlyInode(sb, s, s', i) && Filled(s, s', i, off / BSIZE)
    && (At(s, Slot(i, SlotOf(off / BSIZE))) != 0 ==> s'.inodes == s.inodes)
  }

  /** The state in the middle of `writei`, after `tot` bytes. */
  ghost predicate Writing(sb: Super, s0: Fs, s: Fs, i: nat, off: nat, done: seq<Byte>) {
    && BytesWritten(s0, s, i, off, done) && OnlyInode(sb, s0, s, i)
    && Mapped(s, i, Max(InodeOrEmpty(s0, i).size, off + |done|))
    && (forall j | 0 <= j < |s0.inodes| && j != i :: Mapped(s, j, s0.inodes[j].size))
    && (off + |done| <= InodeOrEmpty(s0, i).size ==> s.inodes == s0.inodes)
  }

  lemma WritingStart(sb: Super, s: Fs, o: map<nat, Slot>, i: nat, off: nat)
    requires Consistent(sb, s, o) && i < |s.inodes| && off <= s.inodes[i].size
    ensures Writing(sb, s, s, i, off, [])
  {
    FilesMapped(sb, s);
    var none: seq<Byte> := [];
    assert Max(s.inodes[i].size, off + |none|) == s.inodes[i].size;
    NothingWritten(s, i, off, none);
  }

  lemma FilesMapped(sb: Super, s: Fs)
    requires FilesOk(sb, s)
    ensures forall j | 0 <= j < |s.inodes| :: Mapped(s, j, s.inodes[j].size)
  {
    forall j | 0 <= j < |s.inodes| ensures Mapped(s, j, s.inodes[j].size) {
      assert FileOk(s, j);
    }
  }

  lemma NothingWritten(s: Fs, i: nat, off: nat, src: seq<Byte>)
    requires src == []
    ensures BytesWritten(s, s, i, off, src)
  {
  }

  lemma WritingMapped(s: Fs, s': Fs, i: nat, cur: nat, m: nat, size: nat)
    requires Filled(s, s', i, cur / BSIZE) && i < |s.inodes| && Mapped(s, i, Max(size, cur))
    requires 0 < m && cur % BSIZE + m <= BSIZE && cur + m <= MAXFILE * BSIZE && (cur <= size || cur % BSIZE == 0)
    ensures Mapped(s', i, Max(size, cur + m))
    ensures cur + m <= size ==> At(s, Slot(i, SlotOf(cur / BSIZE))) != 0
  {
    var bn := cur / BSIZE;
    assert bn * BSIZE <= cur < (bn + 1) * BSIZE && cur + m <= (bn + 1) * BSIZE;
    FilledNoHoles(s, s', i, bn, Max(size, cur), Max(size, cur + m));
  }

  lemma OnlyInodeTrans(sb: Super, s0: Fs, s: Fs, s': Fs, i: nat)
    requires OnlyInode(sb, s0, s, i) && OnlyInode(sb, s, s', i)
    ensures OnlyInode(sb, s0, s', i)
  {
  }

  lemma WritingStep(sb: Super, s0: Fs, s: Fs, s': Fs, i: nat, off: nat, done: seq<Byte>, cur: nat, chunk: seq<Byte>)
    requires Writing(sb, s0, s, i, off, done) && ChunkWritten(sb, s, s', i, cur, chunk) && cur == off + |done|
    requires i < |s0.inodes| && 0 < |chunk| && cur % BSIZE + |chunk| <= BSIZE
    requires cur + |chunk| <= MAXFILE * BSIZE && off <= s0.inodes[i].size
    requires done == [] || cur % BSIZE == 0
    ensures Writing(sb, s0, s', i, off, done + chunk)
  {
    WrittenAppend(s0, s, s', i, off, done, cur, chunk);
    OnlyInodeTrans(sb, s0, s, s', i);
    StepMapped(s0, s, s', i, cur, |chunk|);
    assert off + |done + chunk| == cur + |chunk|;
  }

  /** The blocks that are mapped after one round of `writei`. */
  lemma StepMapped(s0: Fs, s: Fs, s': Fs, i: nat, cur: nat, m: nat)
    requires Filled(s, s', i, cur / BSIZE) && i < |s0.inodes| == |s.inodes|
    requires Mapped(s, i, Max(s0.inodes[i].size, cur))
    requires forall j | 0 <= j < |s0.inodes| && j != i :: Mapped(s, j, s0.inodes[j].size)
    requires cur <= s0.inodes[i].size ==> s.inodes == s0.inodes
    requires At(s, Slot(i, SlotOf(cur / BSIZE))) != 0 ==> s'.inodes == s.inodes
    requires 0 < m && cur % BSIZE + m <= BSIZE && cur + m <= MAXFILE * BSIZE
    requires cur <= s0.inodes[i].size || cur % BSIZE == 0
    ensures Mapped(s', i, Max(s0.inodes[i].size, cur + m))
    ensures forall j | 0 <= j < |s0.inodes| && j != i :: Mapped(s', j, s0.inodes[j].size)
    ensures cur + m <= s0.inodes[i].size ==> s'.inodes == s0.inodes
  {
    WritingMapped(s, s', i, cur, m, s0.inodes[i].size);
    OthersStayMapped(s0, s, s', i, cur / BSIZE);
  }

  lemma OthersStayMapped(s0: Fs, s: Fs, s': Fs, i: nat, bn: nat)
    requires Filled(s, s', i, bn) && |s.inodes| == |s0.inodes|
    requires forall j | 0 <= j < |s0.inodes| && j != i :: Mapped(s, j, s0.inodes[j].size)
    ensures forall j | 0 <= j < |s0.inodes| && j != i :: Mapped(s', j, s0.inodes[j].size)
  {
    forall j | 0 <= j < |s0.inodes| && j != i ensures Mapped(s', j, s0.inodes[j].size) {
      FilledOthers(s, s', i, bn, j, s0.inodes[j].size);
    }
  }

  /** `writei` after its loop: the new size, and `iupdate` if the file grew. */
  function Finished(sb: Super, s: Fs, i: nat, end: nat): Fs {
    var ip := InodeOrEmpty(s, i);
    if i < |s.inodes| && end > ip.size then
      Fs(PutInode(sb, s.disk, i, ip.(size := end)), s.inodes[i := ip.(size := end)])
    else s
  }

  /** Ownership and block contents do not depend on the size field. */
  lemma Resized(sb: Super, s: Fs, o: map<nat, Slot>, i: nat, size: nat)
    requires Owned(sb, s, o) && i < |s.inodes| && size < UINT
    ensures var s' := s.(inodes := s.inodes[i := s.inodes[i].(size := size)]);
            Owned(sb, s', o) && SameFiles(s, s') && forall t | IsSlot(s, t) :: At(s', t) == At(s, t)
  {
    var s' := s.(inodes := s.inodes[i := s.inodes[i].(size := size)]);
    forall t | IsSlot(s, t) ensures At(s', t) == At(s, t) {
    }
    OwnedFrame(sb, s, s', o);
    forall j, bn | 0 <= j < |s.inodes| && 0 <= bn < MAXFILE ensures FileBlock(s', j, bn) == FileBlock(s, j, bn) {
      assert IsSlot(s, Slot(j, SlotOf(bn)));
    }
  }

  lemma FinishedBlocks(sb: Super, s: Fs, o: map<nat, Slot>, i: nat, end: nat)
    requires Owned(sb, s, o) && i < |s.inodes| && end < UINT
    ensures var s' := Finished(sb, s, i, end);
            Owned(sb, s', o) && SameFiles(s, s') && forall t | IsSlot(s, t) :: At(s', t) == At(s, t)
  {
    var ip := s.inodes[i];
    if end > ip.size {
      var s1 := s.(inodes := s.inodes[i := ip.(size := end)]);
      Resized(sb, s, o, i, end);
      PutInodeOwned(sb, s1, o, i, ip.(size := end));
      SameFilesTrans(s, s1, Finished(sb, s, i, end));
    }
  }

  /** After `writei` every on-disk inode equals the in-memory one, though `iupdate` only ran on growth. */
  lemma FinishedInodes(sb: Super, s0: Fs, s: Fs, i: nat, off: nat, src: seq<Byte>, j: nat)
    requires Shape(sb, s) && Writing(sb, s0, s, i, off, src) && i < |s.inodes| && j < |s.inodes|
    requires InodeAt(sb, s0.disk, j) == s0.inodes[j] && off + |src| < UINT
    ensures var s' := Finished(sb, s, i, off + |src|); InodeAt(sb, s'.disk, j) == s'.inodes[j]
  {
    var ip := s.inodes[i];
    if off + |src| > ip.size {
      InodeAtPut(sb, s, i, ip.(size := off + |src|), j);
    }
  }

  lemma MappedFrame(s: Fs, s': Fs, j: nat, top: nat)
    requires Mapped(s, j, top) && j < |s.inodes| && forall t | IsSlot(s, t) :: At(s', t) == At(s, t)
    ensures Mapped(s', j, top)
  {
    forall bn | 0 <= bn < MAXFILE ensures At(s', Slot(j, SlotOf(bn))) == At(s, Slot(j, SlotOf(bn))) {
      assert IsSlot(s, Slot(j, SlotOf(bn)));
    }
    assert IsSlot(s, Slot(j, INDIRECT));
  }

  lemma FinishedNoHoles(sb: Super, s0: Fs, s: Fs, i: nat, off: nat, src: seq<Byte>, j: nat)
    requires Writing(sb, s0, s, i, off, src) && i < |s.inodes| && j < |s.inodes|
    requires off + |src| <= MAXFILE * BSIZE && s0.inodes[j].size <= MAXFILE * BSIZE
    requires forall t | IsSlot(s, t) :: At(Finished(sb, s, i, off + |src|), t) == At(s, t)
    ensures FileOk(Finished(sb, s, i, off + |src|), j)
  {
    var s' := Finished(sb, s, i, off + |src|);
    var top := if j == i then Max(s0.inodes[i].size, off + |src|) else s0.inodes[j].size;
    assert Mapped(s, j, top);
    MappedFrame(s, s', j, top);
    assert s'.inodes[j].size == top;
  }

  /** The whole of `writei` keeps files without holes and inodes written through. */
  lemma FinishedFiles(sb: Super, s0: Fs, s: Fs, s': Fs, i: nat, off: nat, src: seq<Byte>)
    requires FilesOk(sb, s0) && Shape(sb, s) && Writing(sb, s0, s, i, off, src) && i < |s0.inodes|
    requires off + |src| <= MAXFILE * BSIZE && s' == Finished(sb, s, i, off + |src|)
    requires forall t | IsSlot(s, t) :: At(s', t) == At(s, t)
    ensures FilesOk(sb, s')
  {
    forall j | 0 <= j < |s'.inodes| ensures FileOk(s', j) && InodeAt(sb, s'.disk, j) == s'.inodes[j] {
      FinishedOne(sb, s0, s, i, off, src, j);
    }
  }

  lemma FinishedOne(sb: Super, s0: Fs, s: Fs, i: nat, off: nat, src: seq<Byte>, j: nat)
    requires FilesOk(sb, s0) && Shape(sb, s) && Writing(sb, s0, s, i, off, src)
    requires i < |s0.inodes| && j < |s0.inodes| && off + |src| <= MAXFILE * BSIZE
    requires forall t | IsSlot(s, t) :: At(Finished(sb, s, i, off + |src|), t) == At(s, t)
    ensures var s' := Finished(sb, s, i, off + |src|); FileOk(s', j) && InodeAt(sb, s'.disk, j) == s'.inodes[j]
  {
    assert FileOk(s0, j);
    FinishedNoHoles(sb, s0, s, i, off, src, j);
    FinishedInodes(sb, s0, s, i, off, src, j);
  }

  /** The type, the device numbers and the number of links. */
  predicate SameKind(ip: Inode, ip': Inode) {
    ip'.typ == ip.typ && ip'.major == ip.major && ip'.minor == ip.minor && ip'.nlink == ip.nlink
  }

  /** File `i` was overwritten with `src` at `off`; every other file and the kind of every inode are the same. */
  ghost predicate Wrote(s: Fs, s': Fs, i: nat, off: nat, src: seq<Byte>) {
    && |s'.inodes| == |s.inodes|
    && (forall j | 0 <= j < |s.inodes| :: SameKind(s.inodes[j], s'.inodes[j]))
    && Contents(s', i) == Overwrite(Contents(s, i), off, src)
    && forall j | 0 <= j < |s.inodes| && j != i :: Contents(s', j) == Contents(s, j)
  }

  lemma FinishedContents(sb: Super, s0: Fs, s: Fs, i: nat, off: nat, src: seq<Byte>, end: nat)
    requires Writing(sb, s0, s, i, off, src) && i < |s0.inodes| && end == off + |src|
    requires forall j | 0 <= j < |s0.inodes| :: s0.inodes[j].size <= MAXFILE * BSIZE
    requires off <= s0.inodes[i].size && end <= MAXFILE * BSIZE
    requires SameFiles(s, Finished(sb, s, i, end))
    ensures Wrote(s0, Finished(sb, s, i, end), i, off, src)
  {
    var s' := Finished(sb, s, i, end);
    WrittenBeforeSame(s0, s, s', i, off, src);
    WrittenContents(s0, s', i, off, src);
    forall j | 0 <= j < |s0.inodes| && j != i ensures Contents(s', j) == Contents(s0, j) {
      SameContents(s0, s', j);
    }
  }

  lemma WrittenBeforeSame(s: Fs, s1: Fs, s2: Fs, i: nat, off: nat, src: seq<Byte>)
    requires BytesWritten(s, s1, i, off, src) && SameFiles(s1, s2) && i < |s.inodes|
    ensures BytesWritten(s, s2, i, off, src)
  {
    forall p | 0 <= p < MAXFILE * BSIZE ensures FileByte(s2, i, p) == FileByte(s1, i, p) {
      SameFilesByte(s1, s2, i, p);
    }
  }
}
