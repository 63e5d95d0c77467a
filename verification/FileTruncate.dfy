/** Freeing the blocks of a file (`bfree` and `itrunc` in `xv6/fs.c`), on values. */
module FileTruncate {
  import opened DiskFormat
  import opened FileLayer

  /** The order in which `itrunc` frees the slots of an inode: direct, indirect entries, indirect block. */
  function Rank(k: nat): nat {
    if k < INDIRECT then k else if k == INDIRECT then SLOTS - 1 else k - 1
  }

  /** Block `c` belongs to one of the first `n` slots of inode `i`. */
  ghost predicate Gone(o: map<nat, Slot>, i: nat, n: nat, c: nat) {
    c in o && o[c].i == i && Rank(o[c].k) < n
  }

  /** `d` is the disk of `s` with the blocks of the first `n` slots of inode `i` marked free. */
  ghost predicate Freed(sb: Super, s: Fs, o: map<nat, Slot>, d: Disk, i: nat, n: nat) {
    && |d| == |s.disk|
    && (forall b | 0 <= b < |d| :: |d[b]| == BSIZE)
    && (forall c | c < sb.bmapstart || c >= DataStart(sb) :: Read(d, c) == Read(s.disk, c))
    && forall c | 0 <= c < sb.size :: Used(sb, d, c) <==> Used(sb, s.disk, c) && !Gone(o, i, n, c)
  }

  lemma FreedNothing(sb: Super, s: Fs, o: map<nat, Slot>, i: nat)
    requires Owned(sb, s, o)
    ensures Freed(sb, s, o, s.disk, i, 0)
  {
  }

  lemma OwnerNames(sb: Super, s: Fs, o: map<nat, Slot>, c: nat)
    requires Owned(sb, s, o) && c in o
    ensures At(s, o[c]) == c != 0 && o[c].k < SLOTS
  {
  }

  /** What the next slot adds to the freed blocks. */
  lemma GoneNext(o: map<nat, Slot>, i: nat, k: nat, c: nat, a: nat)
    requires k < SLOTS && (a != 0 ==> a in o && o[a] == Slot(i, k))
    requires c in o ==> o[c].k < SLOTS && (o[c] == Slot(i, k) ==> a == c != 0)
    ensures Gone(o, i, Rank(k) + 1, c) <==> Gone(o, i, Rank(k), c) || (a != 0 && c == a)
  {
  }

  ghost predicate GoneBy(o: map<nat, Slot>, i: nat, n: nat, a: nat) {
    forall c: nat :: Gone(o, i, n + 1, c) <==> Gone(o, i, n, c) || (a != 0 && c == a)
  }

  /** The block of a slot is marked in use when `itrunc` gets to it: "freeing free block" cannot happen. */
  lemma StillUsed(sb: Super, s: Fs, o: map<nat, Slot>, d: Disk, i: nat, k: nat)
    requires Owned(sb, s, o) && Freed(sb, s, o, d, i, Rank(k)) && i < |s.inodes| && k < SLOTS
    requires At(s, Slot(i, k)) != 0
    ensures Used(sb, d, At(s, Slot(i, k)))
  {
    OwnerOf(sb, s, o, Slot(i, k));
  }

  lemma SetUsedReads(sb: Super, d: Disk, b: nat, v: bool, c: int)
    requires LayoutOk(sb, |d|) && b < sb.size && (c < sb.bmapstart || c >= DataStart(sb))
    ensures Read(SetUsed(sb, d, b, v), c) == Read(d, c)
  {
    assert b / BPB <= sb.size / BPB;
  }

  lemma SetUsedShape(sb: Super, d: Disk, b: nat, v: bool)
    requires forall c | 0 <= c < |d| :: |d[c]| == BSIZE
    ensures forall c | 0 <= c < |d| :: |SetUsed(sb, d, b, v)[c]| == BSIZE
  {
  }

  lemma FreedOne(sb: Super, s: Fs, o: map<nat, Slot>, d: Disk, i: nat, n: nat, a: nat)
    requires Shape(sb, s) && Freed(sb, s, o, d, i, n) && GoneBy(o, i, n, a) && 0 < a < sb.size
    ensures Freed(sb, s, o, SetUsed(sb, d, a, false), i, n + 1)
  {
    var e := SetUsed(sb, d, a, false);
    SetUsedShape(sb, d, a, false);
    forall c | c < sb.bmapstart || c >= DataStart(sb) ensures Read(e, c) == Read(s.disk, c) {
      SetUsedReads(sb, d, a, false, c);
    }
    forall c | 0 <= c < sb.size ensures Used(sb, e, c) <==> Used(sb, s.disk, c) && !Gone(o, i, n + 1, c) {
      UsedSetUsed(sb, s.(disk := d), a, false, c);
    }
  }

  lemma GoneStep(sb: Super, s: Fs, o: map<nat, Slot>, i: nat, k: nat, c: nat, a: nat)
    requires Owned(sb, s, o) && i < |s.inodes| && k < SLOTS && a == At(s, Slot(i, k))
    ensures Gone(o, i, Rank(k) + 1, c) <==> Gone(o, i, Rank(k), c) || (a != 0 && c == a)
  {
    if a != 0 {
      OwnerOf(sb, s, o, Slot(i, k));
    }
    if c in o {
      OwnerNames(sb, s, o, c);
    }
    GoneNext(o, i, k, c, a);
  }

  lemma GoneByNext(sb: Super, s: Fs, o: map<nat, Slot>, i: nat, k: nat, a: nat)
    requires Owned(sb, s, o) && i < |s.inodes| && k < SLOTS && a == At(s, Slot(i, k))
    ensures GoneBy(o, i, Rank(k), a)
  {
    var n := Rank(k);
    forall c: nat ensures Gone(o, i, n + 1, c) <==> Gone(o, i, n, c) || (a != 0 && c == a) {
      GoneStep(sb, s, o, i, k, c, a);
    }
  }

  lemma FreedSame(sb: Super, s: Fs, o: map<nat, Slot>, d: Disk, i: nat, n: nat)
    requires Freed(sb, s, o, d, i, n) && GoneBy(o, i, n, 0)
    ensures Freed(sb, s, o, d, i, n + 1)
  {
  }

  /** One step of `itrunc`: free the block of slot `k`, if it names one. */
  lemma FreedStep(sb: Super, s: Fs, o: map<nat, Slot>, d: Disk, i: nat, k: nat)
    requires Owned(sb, s, o) && Freed(sb, s, o, d, i, Rank(k)) && i < |s.inodes| && k < SLOTS
    ensures var a := At(s, Slot(i, k));
            Freed(sb, s, o, if a == 0 then d else SetUsed(sb, d, a, false), i, Rank(k) + 1)
  {
    var a := At(s, Slot(i, k));
    GoneByNext(sb, s, o, i, k, a);
    if a != 0 {
      OwnerOf(sb, s, o, Slot(i, k));
    }
    FreedNext(sb, s, o, d, i, Rank(k), a);
  }

  lemma FreedNext(sb: Super, s: Fs, o: map<nat, Slot>, d: Disk, i: nat, n: nat, a: nat)
    requires Shape(sb, s) && Freed(sb, s, o, d, i, n) && GoneBy(o, i, n, a) && a < sb.size
    ensures Freed(sb, s, o, if a == 0 then d else SetUsed(sb, d, a, false), i, n + 1)
  {
    if a != 0 {
      FreedOne(sb, s, o, d, i, n, a);
    } else {
      FreedSame(sb, s, o, d, i, n);
    }
  }

  // ----- the end of itrunc

  function Emptied(ip: Inode): Inode {
    ip.(size := 0, addrs := seq(NDIRECT + 1, _ => 0))
  }

  /** The state after `itrunc`: blocks free, inode empty, in memory and on disk. */
  function Truncated(sb: Super, s: Fs, d: Disk, i: nat): Fs {
    var ip := Emptied(InodeOrEmpty(s, i));
    if i < |s.inodes| then Fs(PutInode(sb, d, i, ip), s.inodes[i := ip]) else s
  }

  ghost function Remaining(o: map<nat, Slot>, i: nat): map<nat, Slot> {
    map c | c in o && o[c].i != i :: o[c]
  }

  /** Reads of data blocks are as before `itrunc`. */
  lemma TruncatedReads(sb: Super, s: Fs, o: map<nat, Slot>, d: Disk, i: nat, c: int)
    requires Shape(sb, s) && Freed(sb, s, o, d, i, SLOTS) && i < |s.inodes| && c >= DataStart(sb)
    ensures Read(Truncated(sb, s, d, i).disk, c) == Read(s.disk, c)
  {
    PutInodeReads(sb, s.(disk := d), i, Emptied(s.inodes[i]), c);
  }

  lemma TruncatedAt(sb: Super, s: Fs, o: map<nat, Slot>, d: Disk, i: nat, t: Slot)
    requires Owned(sb, s, o) && Freed(sb, s, o, d, i, SLOTS) && i < |s.inodes| && IsSlot(s, t)
    ensures At(Truncated(sb, s, d, i), t) == if t.i == i then 0 else At(s, t)
  {
    if t.i != i && At(s, Slot(t.i, INDIRECT)) != 0 {
      OwnerOf(sb, s, o, Slot(t.i, INDIRECT));
      TruncatedReads(sb, s, o, d, i, At(s, Slot(t.i, INDIRECT)));
    }
  }

  lemma TruncatedUsed(sb: Super, s: Fs, o: map<nat, Slot>, d: Disk, i: nat, c: nat)
    requires Shape(sb, s) && Freed(sb, s, o, d, i, SLOTS) && i < |s.inodes| && c < sb.size
    ensures Used(sb, Truncated(sb, s, d, i).disk, c) == Used(sb, d, c)
  {
    var s1 := s.(disk := d);
    forall m | sb.bmapstart <= m < DataStart(sb) ensures Read(Truncated(sb, s, d, i).disk, m) == Read(d, m) {
      PutInodeReads(sb, s1, i, Emptied(s.inodes[i]), m);
    }
    UsedFrame(sb, d, Truncated(sb, s, d, i).disk, c);
  }

  /** Ownership after `itrunc`: what the inode owned is free, everything else is owned as before. */
  lemma TruncatedOwned(sb: Super, s: Fs, o: map<nat, Slot>, d: Disk, i: nat)
    requires Owned(sb, s, o) && Freed(sb, s, o, d, i, SLOTS) && i < |s.inodes|
    ensures Owned(sb, Truncated(sb, s, d, i), Remaining(o, i))
  {
    var s' := Truncated(sb, s, d, i);
    TruncatedShape(sb, s, o, d, i);
    forall t | IsSlot(s, t) ensures At(s', t) == if t.i == i then 0 else At(s, t) {
      TruncatedAt(sb, s, o, d, i, t);
    }
    forall c | 0 <= c < sb.size ensures Used(sb, s'.disk, c) <==> Used(sb, s.disk, c) && !Gone(o, i, SLOTS, c) {
      TruncatedUsed(sb, s, o, d, i, c);
    }
    OwnedRest(sb, s, s', o, i);
  }

  lemma TruncatedShape(sb: Super, s: Fs, o: map<nat, Slot>, d: Disk, i: nat)
    requires Shape(sb, s) && Freed(sb, s, o, d, i, SLOTS) && i < |s.inodes|
    ensures Shape(sb, Truncated(sb, s, d, i))
  {
  }

  lemma OwnedRest(sb: Super, s: Fs, s': Fs, o: map<nat, Slot>, i: nat)
    requires Owned(sb, s, o) && Shape(sb, s')
    requires forall t | IsSlot(s, t) :: At(s', t) == if t.i == i then 0 else At(s, t)
    requires forall c | 0 <= c < sb.size :: Used(sb, s'.disk, c) <==> Used(sb, s.disk, c) && !Gone(o, i, SLOTS, c)
    ensures Owned(sb, s', Remaining(o, i))
  {
    var o' := Remaining(o, i);
    forall t | IsSlot(s', t) && At(s', t) != 0 ensures At(s', t) in o' && o'[At(s', t)] == t {
      assert At(s, t) in o;
    }
    forall b | b in o'
      ensures DataStart(sb) <= b < sb.size && Used(sb, s'.disk, b) && IsSlot(s', o'[b]) && At(s', o'[b]) == b
    {
      assert b in o && o'[b] == o[b];
    }
    forall b | 0 <= b < DataStart(sb) ensures Used(sb, s'.disk, b) {
      assert Used(sb, s.disk, b);
    }
  }

  /** The other files are untouched. */
  lemma TruncatedBlock(sb: Super, s: Fs, o: map<nat, Slot>, d: Disk, i: nat, j: nat, bn: nat)
    requires Owned(sb, s, o) && Freed(sb, s, o, d, i, SLOTS) && i < |s.inodes|
    requires j < |s.inodes| && j != i && bn < MAXFILE
    ensures FileBlock(Truncated(sb, s, d, i), j, bn) == FileBlock(s, j, bn)
  {
    var t := Slot(j, SlotOf(bn));
    TruncatedAt(sb, s, o, d, i, t);
    if At(s, t) != 0 {
      OwnerOf(sb, s, o, t);
      TruncatedReads(sb, s, o, d, i, At(s, t));
    }
  }

  lemma TruncatedInode(sb: Super, s: Fs, o: map<nat, Slot>, d: Disk, i: nat, j: nat)
    requires Shape(sb, s) && Freed(sb, s, o, d, i, SLOTS) && i < |s.inodes| && j < |s.inodes|
    requires InodeAt(sb, s.disk, j) == s.inodes[j]
    ensures var s' := Truncated(sb, s, d, i); InodeAt(sb, s'.disk, j) == s'.inodes[j]
  {
    InodeAtPut(sb, s.(disk := d), i, Emptied(s.inodes[i]), j);
    assert j / IPB <= sb.ninodes / IPB;
    assert Read(d, sb.inodestart + j / IPB) == Read(s.disk, sb.inodestart + j / IPB);
  }

  lemma TruncatedFile(sb: Super, s: Fs, o: map<nat, Slot>, d: Disk, i: nat, j: nat)
    requires Owned(sb, s, o) && Freed(sb, s, o, d, i, SLOTS) && i < |s.inodes| && j < |s.inodes| && FileOk(s, j)
    ensures FileOk(Truncated(sb, s, d, i), j)
  {
    var s' := Truncated(sb, s, d, i);
    forall bn | 0 <= bn < MAXFILE
      ensures At(s', Slot(j, SlotOf(bn))) == if j == i then 0 else At(s, Slot(j, SlotOf(bn)))
    {
      TruncatedAt(sb, s, o, d, i, Slot(j, SlotOf(bn)));
    }
    TruncatedAt(sb, s, o, d, i, Slot(j, INDIRECT));
  }

  /** The whole of `itrunc`. */
  lemma TruncatedConsistent(sb: Super, s: Fs, o: map<nat, Slot>, d: Disk, i: nat)
    requires Consistent(sb, s, o) && Freed(sb, s, o, d, i, SLOTS) && i < |s.inodes|
    ensures Consistent(sb, Truncated(sb, s, d, i), Remaining(o, i))
  {
    var s' := Truncated(sb, s, d, i);
    TruncatedOwned(sb, s, o, d, i);
    forall j | 0 <= j < |s'.inodes| ensures FileOk(s', j) && InodeAt(sb, s'.disk, j) == s'.inodes[j] {
      assert FileOk(s, j) && InodeAt(sb, s.disk, j) == s.inodes[j];
      TruncatedFile(sb, s, o, d, i, j);
      TruncatedInode(sb, s, o, d, i, j);
    }
  }

  /** The file is empty and the other files are the same byte sequences. */
  lemma TruncatedContents(sb: Super, s: Fs, o: map<nat, Slot>, d: Disk, i: nat, j: nat)
    requires Consistent(sb, s, o) && Freed(sb, s, o, d, i, SLOTS) && i < |s.inodes| && j < |s.inodes|
    ensures Contents(Truncated(sb, s, d, i), j) == if j == i then [] else Contents(s, j)
  {
    var s' := Truncated(sb, s, d, i);
    if j != i {
      assert FileOk(s, j);
      forall bn | 0 <= bn < MAXFILE ensures FileBlock(s', j, bn) == FileBlock(s, j, bn) {
        TruncatedBlock(sb, s, o, d, i, j, bn);
      }
      SameContents(s, s', j);
    }
  }

  /** `itrunc` clears the free-map bits of exactly the inode's own blocks. */
  lemma TruncatedBits(sb: Super, s: Fs, o: map<nat, Slot>, d: Disk, i: nat, c: nat)
    requires Owned(sb, s, o) && Freed(sb, s, o, d, i, SLOTS) && i < |s.inodes| && c < sb.size
    ensures Used(sb, Truncated(sb, s, d, i).disk, c) <==>
            Used(sb, s.disk, c) && forall k | 0 <= k < SLOTS :: At(s, Slot(i, k)) == c ==> c == 0
  {
    TruncatedUsed(sb, s, o, d, i, c);
    if c in o {
      OwnerNames(sb, s, o, c);
      if o[c].i == i {
        assert At(s, Slot(i, o[c].k)) == c;
      }
    }
    forall k | 0 <= k < SLOTS && At(s, Slot(i, k)) == c && c != 0 ensures Gone(o, i, SLOTS, c) {
      OwnerOf(sb, s, o, Slot(i, k));
    }
  }
}
