/** Where the bytes of inodes, free map and files are on the disk (`xv6/fs.h`), and reading back what was written. */
module FileLayout {
  import opened Common
  import opened DiskFormat
  import opened FileLayer

  /** A little-endian field of two bytes. */
  function Half(b: Block, at: nat): nat {
    Get(b, at) + 256 * Get(b, at + 1)
  }

  /** A little-endian field of four bytes. */
  function Long(b: Block, at: nat): nat {
    Half(b, at) + 65536 * Half(b, at + 2)
  }

  lemma WordHalves(b: Block, j: nat)
    ensures Word(b, j) % 65536 == Half(b, 4 * j) && Word(b, j) / 65536 == Half(b, 4 * j + 2)
    ensures Word(b, j) == Long(b, 4 * j)
  {
  }

  /** The fields of `struct dinode`, by their byte offsets; eight inodes of 64 bytes fill a block. */
  lemma InodeOnDisk(sb: Super, d: Disk, i: nat, k: nat)
    requires k <= NDIRECT
    ensures var ip, b, at := InodeAt(sb, d, i), Read(d, sb.inodestart + i / 8), 64 * (i % 8);
            && ip.typ == Half(b, at) && ip.major == Half(b, at + 2) && ip.minor == Half(b, at + 4)
            && ip.nlink == Half(b, at + 6) && ip.size == Long(b, at + 8)
            && |ip.addrs| == NDIRECT + 1 && ip.addrs[k] == Long(b, at + 12 + 4 * k)
  {
    var b, j := Read(d, sb.inodestart + i / 8), 16 * (i % 8);
    WordHalves(b, j);
    WordHalves(b, j + 1);
    WordHalves(b, j + 2);
    WordHalves(b, j + 3 + k);
    assert WordsAt(b, j)[3..][k] == Word(b, j + 3 + k);
  }

  /** `x >> k`. */
  function ShiftRight(x: nat, k: nat): nat {
    if k == 0 then x else ShiftRight(x, k - 1) / 2
  }

  lemma {:induction false} ShiftFirst(x: nat, k: nat)
    ensures ShiftRight(x / 2, k) == ShiftRight(x, k + 1)
  {
    if k > 0 {
      ShiftFirst(x, k - 1);
    }
  }

  lemma {:induction false} BitIs(x: nat, k: nat)
    ensures Bit(x, k) <==> ShiftRight(x, k) % 2 == 1
  {
    if k > 0 {
      BitIs(x / 2, k - 1);
      ShiftFirst(x, k - 1);
    }
  }

  /** Block `b` is in use exactly if bit `b % 8` of byte `b / 8` of the free map is set. */
  lemma UsedOnDisk(sb: Super, d: Disk, b: nat)
    ensures Used(sb, d, b) <==> ShiftRight(Get(Read(d, sb.bmapstart + b / 4096), b % 4096 / 8), b % 8) % 2 == 1
  {
    assert b % 4096 % 8 == b % 8;
    BitIs(Get(Read(d, sb.bmapstart + b / 4096), b % 4096 / 8), b % 8);
  }

  /** The disk address of the block with byte `p` of a file: one of twelve in the inode, or in the indirect block. */
  function AddressOf(d: Disk, ip: Inode, p: nat): nat {
    var bn := p / BSIZE;
    if |ip.addrs| != NDIRECT + 1 then 0
    else if bn < NDIRECT then ip.addrs[bn]
    else Long(Read(d, ip.addrs[NDIRECT]), 4 * (bn - NDIRECT))
  }

  /** Byte `p` of a file is byte `p % 512` of that block, which is a data block. */
  lemma FileByteOnDisk(sb: Super, s: Fs, o: map<nat, Slot>, i: nat, p: nat)
    requires Consistent(sb, s, o) && i < |s.inodes| && p < |Contents(s, i)|
    ensures var a := AddressOf(s.disk, s.inodes[i], p);
            && DataStart(sb) <= a < sb.size <= |s.disk| && |s.disk[a]| == BSIZE
            && Contents(s, i)[p] == s.disk[a][p % BSIZE]
  {
    var bn := p / BSIZE;
    InsideFile(sb, s, i, p, bn);
    OwnerOf(sb, s, o, Slot(i, SlotOf(bn)));
    AddressIs(s, i, p, bn);
    assert Contents(s, i)[p] == FileByte(s, i, p);
  }

  lemma InsideFile(sb: Super, s: Fs, i: nat, p: nat, bn: nat)
    requires FilesOk(sb, s) && i < |s.inodes| && p < s.inodes[i].size && bn == p / BSIZE
    ensures bn < MAXFILE && At(s, Slot(i, SlotOf(bn))) != 0
  {
    assert FileOk(s, i) && bn < MAXFILE && bn * BSIZE <= p;
  }

  lemma AddressIs(s: Fs, i: nat, p: nat, bn: nat)
    requires i < |s.inodes| && |s.inodes[i].addrs| == NDIRECT + 1 && bn == p / BSIZE
    requires At(s, Slot(i, SlotOf(bn))) != 0
    ensures At(s, Slot(i, SlotOf(bn))) == AddressOf(s.disk, s.inodes[i], p)
  {
    if bn >= NDIRECT {
      WordHalves(Read(s.disk, s.inodes[i].addrs[NDIRECT]), bn - NDIRECT);
    }
  }

  // ----- reading back

  /** A write changes exactly the bytes it names, and the file grows exactly to its end. */
  lemma OverwriteIs(f: seq<Byte>, off: nat, src: seq<Byte>, p: nat)
    requires off <= |f| && p < Max(|f|, off + |src|)
    ensures |Overwrite(f, off, src)| == Max(|f|, off + |src|)
    ensures Overwrite(f, off, src)[p] == if off <= p < off + |src| then src[p - off] else f[p]
  {
  }

  /** What was written at an offset is there. */
  lemma OverwriteReadsBack(f: seq<Byte>, off: nat, src: seq<Byte>)
    requires off <= |f|
    ensures off + |src| <= |Overwrite(f, off, src)| && Overwrite(f, off, src)[off..off + |src|] == src
  {
  }
}
