/**
 File system calls as sequences of block writes: what a call does to the files, and what it means
 that a sequence of writes carries out a call.
 */
module FileCalls {
  import opened Common
  import opened DiskFormat
  import opened FileLayer

  // ----- block writes

  /** One change of a block. */
  datatype Change = Change(block: int, data: Block)

  /** The disk after a sequence of changes. */
  function Replay(d: Disk, trace: seq<Change>): (e: Disk)
    ensures |e| == |d|
  {
    if trace == [] then d
    else
      var c := trace[|trace| - 1];
      Put(Replay(d, trace[..|trace| - 1]), c.block, c.data)
  }

  /** The changes `trace` lead from disk `d` to disk `e`.  Kept folded. */
  ghost predicate Leads(d: Disk, trace: seq<Change>, e: Disk) {
    forall k | Look(k) :: Replay(d, trace) == e
  }

  lemma LeadsNowhere(d: Disk)
    ensures Leads(d, [], d)
  {
  }

  lemma LeadsOn(d: Disk, trace: seq<Change>, e: Disk, c: Change, trace': seq<Change>, e': Disk)
    requires Leads(d, trace, e) && trace' == trace + [c] && e' == Put(e, c.block, c.data)
    ensures Leads(d, trace', e')
  {
    assert Look(0);
    assert trace'[..|trace'| - 1] == trace;
  }

  lemma LeadsMeans(d: Disk, trace: seq<Change>, e: Disk)
    requires Leads(d, trace, e)
    ensures Replay(d, trace) == e
  {
    assert Look(0);
  }

  /** The first change first. */
  lemma {:induction false} ReplayFirst(d: Disk, trace: seq<Change>)
    requires trace != []
    ensures Replay(d, trace) == Replay(Put(d, trace[0].block, trace[0].data), trace[1..])
  {
    var n := |trace| - 1;
    if n > 0 {
      ReplayFirst(d, trace[..n]);
      assert trace[..n][1..] == trace[1..][..n - 1];
    }
  }

  // ----- the files of a disk

  /** The contents of all files. */
  type Files = seq<seq<Byte>>

  /** The disk holds a consistent file system with the inodes `inodes` whose files have contents `files`. */
  ghost predicate IsFs(sb: Super, d: Disk, files: Files, inodes: seq<Inode>, o: map<nat, Slot>) {
    && Consistent(sb, Fs(d, inodes), o) && |files| == |inodes|
    && forall i | 0 <= i < |inodes| :: files[i] == Contents(Fs(d, inodes), i)
  }

  ghost predicate Holds(sb: Super, d: Disk, files: Files) {
    exists inodes, o :: IsFs(sb, d, files, inodes, o)
  }

  ghost function FilesOf(s: Fs): Files {
    seq(|s.inodes|, i requires 0 <= i < |s.inodes| => Contents(s, i))
  }

  lemma HoldsFiles(sb: Super, s: Fs, o: map<nat, Slot>)
    requires Consistent(sb, s, o)
    ensures Holds(sb, s.disk, FilesOf(s))
  {
    assert Fs(s.disk, s.inodes) == s;
    assert IsFs(sb, s.disk, FilesOf(s), s.inodes, o);
  }

  /** The blocks determine the files. */
  lemma HoldsOnce(sb: Super, s: Fs, o: map<nat, Slot>, files: Files)
    requires Consistent(sb, s, o) && Holds(sb, s.disk, files)
    ensures files == FilesOf(s)
  {
    var inodes, o' :| IsFs(sb, s.disk, files, inodes, o');
    SameInodes(sb, s, Fs(s.disk, inodes));
    assert Fs(s.disk, inodes) == s;
  }

  lemma SameInodes(sb: Super, s: Fs, s': Fs)
    requires Shape(sb, s) && FilesOk(sb, s) && Shape(sb, s') && FilesOk(sb, s') && s'.disk == s.disk
    ensures s'.inodes == s.inodes
  {
    forall i | 0 <= i < |s.inodes| ensures s'.inodes[i] == s.inodes[i] {
      assert InodeAt(sb, s.disk, i) == s.inodes[i] && InodeAt(sb, s'.disk, i) == s'.inodes[i];
    }
  }

  // ----- calls

  /** One `writei` of `filewrite`, or the `itrunc` of `iput`, inside its transaction. */
  datatype Call = Write(i: nat, off: nat, src: seq<Byte>) | Truncate(i: nat)

  /** `off + n < off` on 32-bit unsigned integers. */
  predicate Overflows(off: nat, n: nat) {
    (off + n) % UINT < off
  }

  lemma OverflowExactly(off: nat, n: nat)
    requires off < UINT && n < UINT
    ensures Overflows(off, n) <==> off + n >= UINT
  {
    if off + n >= UINT {
      assert (off + n) % UINT == off + n - UINT;
    }
  }

  /** What `writei` returns: -1, or the number of bytes asked for. */
  function WriteCount(size: nat, off: nat, n: nat): (r: int) {
    if off > size || Overflows(off, n) || off + n > MAXFILE * BSIZE then -1 else n
  }

  /** The 32-bit test is not needed: what wraps is longer than the longest file. */
  lemma WriteCountIs(size: nat, off: nat, n: nat)
    requires off < UINT && n < UINT
    ensures WriteCount(size, off, n) == if off > size || off + n > MAXFILE * BSIZE then -1 else n
  {
    OverflowExactly(off, n);
  }

  /** What a call does to the files. */
  function Effect(files: Files, c: Call): Files {
    if c.i >= |files| then files
    else match c
      case Write(i, off, src) =>
        if WriteCount(|files[i]|, off, |src|) == -1 then files else files[i := Overwrite(files[i], off, src)]
      case Truncate(i) => files[i := []]
  }

  /** On a consistent disk `d`, these changes lead to a consistent disk, and do to its files what the call does. */
  ghost predicate Performs(sb: Super, d: Disk, c: Call, trace: seq<Change>) {
    forall files | Holds(sb, d, files) :: Holds(sb, Replay(d, trace), Effect(files, c))
  }

  lemma PerformsIf(sb: Super, s: Fs, o: map<nat, Slot>, s': Fs, o': map<nat, Slot>, c: Call, trace: seq<Change>)
    requires Consistent(sb, s, o) && Consistent(sb, s', o') && Leads(s.disk, trace, s'.disk)
    requires FilesOf(s') == Effect(FilesOf(s), c)
    ensures Performs(sb, s.disk, c, trace)
  {
    LeadsMeans(s.disk, trace, s'.disk);
    forall files | Holds(sb, s.disk, files) ensures Holds(sb, Replay(s.disk, trace), Effect(files, c)) {
      HoldsOnce(sb, s, o, files);
      HoldsFiles(sb, s', o');
    }
  }

  /** The files after a write, file by file. */
  lemma WroteEffect(s: Fs, s': Fs, i: nat, off: nat, src: seq<Byte>)
    requires i < |s.inodes| && Wrote(s, s', i, off, src) && WriteCount(s.inodes[i].size, off, |src|) != -1
    ensures FilesOf(s') == Effect(FilesOf(s), Write(i, off, src))
  {
  }
}
