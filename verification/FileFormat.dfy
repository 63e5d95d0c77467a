/** An empty file system: no file has a block, and exactly the metadata blocks are in use. */
module FileFormat {
  import opened Common
  import opened DiskFormat
  import opened FileLayer

  function NoFile(): Inode {
    Inode(0, 0, 0, 0, 0, seq(NDIRECT + 1, _ => 0))
  }

  /** A zeroed disk with the first `k` blocks marked in use. */
  function Reserved(sb: Super, n: nat, k: nat): (d: Disk)
    ensures |d| == n
  {
    if k == 0 then seq(n, _ => ZeroBlock()) else SetUsed(sb, Reserved(sb, n, k - 1), k - 1, true)
  }

  function EmptyFs(sb: Super, n: nat): Fs {
    Fs(Reserved(sb, n, if DataStart(sb) < 0 then 0 else DataStart(sb)), seq(sb.ninodes, _ => NoFile()))
  }

  lemma ZeroWords(j: int)
    ensures Word(ZeroBlock(), j) == 0
  {
  }

  lemma {:induction false} ZeroBit(k: nat)
    ensures !Bit(0, k)
  {
    if k > 0 {
      ZeroBit(k - 1);
    }
  }

  lemma ZeroInode(j: nat)
    ensures DecodeInode(ZeroBlock(), j) == NoFile()
  {
    forall k | 0 <= k < 16 ensures WordsAt(ZeroBlock(), 16 * j)[k] == 0 {
      ZeroWords(16 * j + k);
    }
    assert WordsAt(ZeroBlock(), 16 * j)[3..] == NoFile().addrs;
  }

  lemma {:induction false} ReservedShape(sb: Super, n: nat, k: nat)
    requires LayoutOk(sb, n)
    ensures Shape(sb, Fs(Reserved(sb, n, k), seq(sb.ninodes, _ => NoFile())))
  {
    if k > 0 {
      ReservedShape(sb, n, k - 1);
    }
  }

  /** Exactly the first `k` blocks are in use.  Kept folded. */
  ghost predicate Marks(sb: Super, d: Disk, k: int) {
    forall x | Look(x) :: forall c: nat | c < sb.size :: Used(sb, d, c) <==> c < k
  }

  lemma MarksNone(sb: Super, n: nat)
    ensures Marks(sb, Reserved(sb, n, 0), 0)
  {
    forall c: nat | c < sb.size ensures Used(sb, Reserved(sb, n, 0), c) <==> c < 0 {
      FreshBit(sb, n, c);
    }
  }

  lemma MarksOneMore(sb: Super, n: nat, k: nat, k': nat)
    requires LayoutOk(sb, n) && k < sb.size && Marks(sb, Reserved(sb, n, k), k) && k' == k + 1
    ensures Marks(sb, Reserved(sb, n, k'), k')
  {
    assert Look(0);
    var d, d' := Reserved(sb, n, k), Reserved(sb, n, k');
    forall c: nat | c < sb.size ensures Used(sb, d', c) <==> c < k' {
      ReservedOne(sb, n, k, c);
      assert Used(sb, d, c) <==> c < k;
    }
  }

  lemma {:induction false} ReservedMarks(sb: Super, n: nat, k: nat)
    requires LayoutOk(sb, n) && k <= sb.size
    ensures Marks(sb, Reserved(sb, n, k), k)
  {
    if k == 0 {
      MarksNone(sb, n);
    } else {
      ReservedMarks(sb, n, k - 1);
      MarksOneMore(sb, n, k - 1, k);
    }
  }

  lemma ReservedOne(sb: Super, n: nat, k: nat, c: nat)
    requires LayoutOk(sb, n) && k < sb.size && c < sb.size
    ensures Used(sb, Reserved(sb, n, k + 1), c) == (c == k || Used(sb, Reserved(sb, n, k), c))
  {
    ReservedShape(sb, n, k);
    UsedSetUsed(sb, Fs(Reserved(sb, n, k), seq(sb.ninodes, _ => NoFile())), k, true, c);
  }

  lemma FreshBit(sb: Super, n: nat, c: nat)
    ensures !Used(sb, Reserved(sb, n, 0), c)
  {
    ZeroBit(c % BPB % 8);
    assert Get(Read(Reserved(sb, n, 0), sb.bmapstart + c / BPB), c % BPB / 8) == 0;
  }

  lemma {:induction false} ReservedReads(sb: Super, n: nat, k: nat, m: nat)
    requires m < sb.bmapstart && m < n
    ensures Read(Reserved(sb, n, k), m) == ZeroBlock()
  {
    if k > 0 {
      ReservedReads(sb, n, k - 1, m);
    }
  }

  lemma NoFileOk(s: Fs, i: nat)
    requires i < |s.inodes| && s.inodes[i] == NoFile()
    ensures FileOk(s, i)
  {
    forall k: nat ensures At(s, Slot(i, k)) == 0 {
      assert AddrOf(NoFile(), k) == 0 && AddrOf(NoFile(), INDIRECT) == 0;
    }
  }

  lemma InodeBlock(sb: Super, n: nat, i: nat)
    requires LayoutOk(sb, n) && i < sb.ninodes
    ensures sb.inodestart + i / IPB < sb.bmapstart && sb.inodestart + i / IPB < n
  {
    assert i / IPB <= sb.ninodes / IPB;
  }

  lemma ZeroInodeAt(sb: Super, d: Disk, i: nat, m: int)
    requires m == sb.inodestart + i / IPB && Read(d, m) == ZeroBlock()
    ensures InodeAt(sb, d, i) == NoFile()
  {
    ZeroInode(i % IPB);
  }

  lemma EmptyFile(sb: Super, n: nat, i: nat)
    requires LayoutOk(sb, n) && i < sb.ninodes
    ensures InodeAt(sb, EmptyFs(sb, n).disk, i) == NoFile()
  {
    var m, k := sb.inodestart + i / IPB, DataStart(sb);
    InodeBlock(sb, n, i);
    ReservedReads(sb, n, k, m);
    assert EmptyFs(sb, n).disk == Reserved(sb, n, k);
    ZeroInodeAt(sb, Reserved(sb, n, k), i, m);
  }

  lemma EmptyOwned(sb: Super, n: nat)
    requires LayoutOk(sb, n)
    ensures Owned(sb, EmptyFs(sb, n), map[])
  {
    ReservedMarks(sb, n, DataStart(sb));
    ReservedShape(sb, n, DataStart(sb));
    assert Look(0);
  }

  /** An empty file system is consistent, on every layout that has room for its metadata. */
  lemma EmptyIsConsistent(sb: Super, n: nat)
    requires LayoutOk(sb, n)
    ensures Consistent(sb, EmptyFs(sb, n), map[]) && Marks(sb, EmptyFs(sb, n).disk, DataStart(sb))
  {
    EmptyOwned(sb, n);
    ReservedMarks(sb, n, DataStart(sb));
    var s := EmptyFs(sb, n);
    forall i | 0 <= i < |s.inodes| ensures FileOk(s, i) && InodeAt(sb, s.disk, i) == s.inodes[i] {
      EmptyFile(sb, n, i);
      NoFileOk(s, i);
    }
  }
}
