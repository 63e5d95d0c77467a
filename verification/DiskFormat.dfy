/**
 The bytes of the file system's metadata blocks (`xv6/fs.h`): little-endian words, the bits of
 the free map, and inodes of sixteen words.  Reads and writes outside a block do not occur;
 they are given a harmless value.
 */
module DiskFormat {
  import opened Common

  const BSIZE := 512
  const NDIRECT := 12
  const NINDIRECT := 128
  const MAXFILE := 140
  const BPB := 4096
  const IPB := 8
  const UINT := WORD32

  type Byte = x: int | 0 <= x < 256
  type Block = seq<Byte>

  function Get(b: Block, i: int): Byte {
    if 0 <= i < |b| then b[i] else 0
  }

  // ----- words

  function Word(b: Block, j: int): (w: nat)
    ensures w < UINT
  {
    Get(b, 4 * j) + 256 * Get(b, 4 * j + 1) + 65536 * Get(b, 4 * j + 2) + 16777216 * Get(b, 4 * j + 3)
  }

  function SetWord(b: Block, j: nat, v: nat): (c: Block)
    ensures |c| == |b|
  {
    if 4 * j + 3 < |b|
    then b[4 * j := v % 256][4 * j + 1 := v / 256 % 256][4 * j + 2 := v / 65536 % 256][4 * j + 3 := v / 16777216 % 256]
    else b
  }

  lemma BytesOfWord(v: nat)
    requires v < UINT
    ensures v % 256 + 256 * (v / 256 % 256) + 65536 * (v / 65536 % 256) + 16777216 * (v / 16777216 % 256) == v
  {
    assert v / 65536 == v / 256 / 256;
    assert v / 16777216 == v / 65536 / 256;
  }

  /** A stored word reads back, and the other words stay. */
  lemma WordSetWord(b: Block, j: nat, v: nat, k: int)
    requires |b| == BSIZE && j < NINDIRECT && v < UINT
    ensures Word(SetWord(b, j, v), k) == if k == j then v else Word(b, k)
  {
    BytesOfWord(v);
  }

  // ----- bits

  /** `x & (1 << k)` is not zero. */
  predicate Bit(x: nat, k: nat) {
    if k == 0 then x % 2 == 1 else Bit(x / 2, k - 1)
  }

  /** `x | (1 << k)`, or `x & ~(1 << k)`. */
  function WithBit(x: nat, k: nat, v: bool): nat {
    if k == 0 then x / 2 * 2 + (if v then 1 else 0) else 2 * WithBit(x / 2, k - 1, v) + x % 2
  }

  function Power(n: nat): nat {
    if n == 0 then 1 else 2 * Power(n - 1)
  }

  lemma {:induction false} BitWithBit(x: nat, k: nat, v: bool, m: nat)
    ensures Bit(WithBit(x, k, v), m) == if m == k then v else Bit(x, m)
  {
    if k > 0 && m > 0 {
      BitWithBit(x / 2, k - 1, v, m - 1);
    }
  }

  lemma {:induction false} WithBitBound(x: nat, k: nat, v: bool, n: nat)
    requires x < Power(n) && k < n
    ensures WithBit(x, k, v) < Power(n)
  {
    var p := Power(n - 1);
    assert Power(n) == 2 * p;
    Halved(x, p);
    if k > 0 {
      WithBitBound(x / 2, k - 1, v, n - 1);
    }
  }

  lemma Halved(x: nat, p: nat)
    requires x < 2 * p
    ensures x / 2 < p && x / 2 * 2 + 1 < 2 * p
  {
  }

  function ByteWithBit(x: Byte, k: nat, v: bool): (y: Byte)
    requires k < 8
  {
    assert Power(8) == 256;
    WithBitBound(x, k, v, 8);
    WithBit(x, k, v)
  }

  /** Bit `n` of a block of the free map. */
  predicate BlockBit(b: Block, n: nat) {
    Bit(Get(b, n / 8), n % 8)
  }

  function SetBlockBit(b: Block, n: nat, v: bool): (c: Block)
    ensures |c| == |b|
  {
    if n / 8 < |b| then b[n / 8 := ByteWithBit(b[n / 8], n % 8, v)] else b
  }

  lemma BlockBitSet(b: Block, n: nat, v: bool, m: nat)
    requires |b| == BSIZE && n < BPB
    ensures BlockBit(SetBlockBit(b, n, v), m) == if m == n then v else BlockBit(b, m)
  {
    if m / 8 == n / 8 {
      BitWithBit(b[n / 8], n % 8, v, m % 8);
    }
  }

  // ----- inodes

  /** An inode; `addrs` are the twelve direct blocks and the indirect block. */
  datatype Inode = Inode(typ: nat, major: nat, minor: nat, nlink: nat, size: nat, addrs: seq<nat>)

  ghost predicate Fits(ip: Inode) {
    && ip.typ < 65536 && ip.major < 65536 && ip.minor < 65536 && ip.nlink < 65536 && ip.size < UINT
    && |ip.addrs| == NDIRECT + 1 && forall k | 0 <= k <= NDIRECT :: ip.addrs[k] < UINT
  }

  /** The words of `struct dinode`. */
  function InodeWords(ip: Inode): (ws: seq<nat>)
    ensures |ws| == 3 + |ip.addrs|
  {
    [ip.typ + 65536 * ip.major, ip.minor + 65536 * ip.nlink, ip.size] + ip.addrs
  }

  function PutWords(b: Block, base: nat, ws: seq<nat>): (c: Block)
    ensures |c| == |b|
    decreases |ws|
  {
    if ws == [] then b else SetWord(PutWords(b, base, ws[..|ws| - 1]), base + |ws| - 1, ws[|ws| - 1])
  }

  lemma {:induction false} WordPutWords(b: Block, base: nat, ws: seq<nat>, k: int)
    requires |b| == BSIZE && base + |ws| <= NINDIRECT && forall i | 0 <= i < |ws| :: ws[i] < UINT
    ensures Word(PutWords(b, base, ws), k) == if base <= k < base + |ws| then ws[k - base] else Word(b, k)
    decreases |ws|
  {
    if ws != [] {
      var n := |ws| - 1;
      WordPutWords(b, base, ws[..n], k);
      WordSetWord(PutWords(b, base, ws[..n]), base + n, ws[n], k);
    }
  }

  /** The sixteen words from `base` on. */
  function WordsAt(b: Block, base: nat): (ws: seq<nat>)
    ensures |ws| == 16
  {
    seq<nat>(16, k requires 0 <= k < 16 => Word(b, base + k))
  }

  function InodeOf(ws: seq<nat>): Inode
    requires |ws| == 16
  {
    Inode(ws[0] % 65536, ws[0] / 65536, ws[1] % 65536, ws[1] / 65536, ws[2], ws[3..])
  }

  /** Inode `n` of an inode block, as `ilock` reads it. */
  function DecodeInode(b: Block, n: nat): Inode {
    InodeOf(WordsAt(b, 16 * n))
  }

  /** `iupdate` on inode `n` of an inode block. */
  function EncodeInode(b: Block, n: nat, ip: Inode): (c: Block)
    ensures |c| == |b|
  {
    PutWords(b, 16 * n, InodeWords(ip))
  }

  lemma InodeOfWords(ip: Inode)
    requires Fits(ip)
    ensures InodeOf(InodeWords(ip)) == ip
  {
    assert InodeWords(ip)[3..] == ip.addrs;
  }

  /** An inode reads back from the block it was written to, and its neighbours stay. */
  lemma InodeRoundTrip(b: Block, n: nat, ip: Inode, m: nat)
    requires |b| == BSIZE && n < IPB && m < IPB && Fits(ip)
    ensures DecodeInode(EncodeInode(b, n, ip), m) == if m == n then ip else DecodeInode(b, m)
  {
    var c := EncodeInode(b, n, ip);
    forall k | 0 <= k < 16
      ensures WordsAt(c, 16 * m)[k] == if m == n then InodeWords(ip)[k] else WordsAt(b, 16 * m)[k]
    {
      WordPutWords(b, 16 * n, InodeWords(ip), 16 * m + k);
    }
    if m == n {
      assert WordsAt(c, 16 * m) == InodeWords(ip);
      InodeOfWords(ip);
    } else {
      assert WordsAt(c, 16 * m) == WordsAt(b, 16 * m);
    }
  }
}
