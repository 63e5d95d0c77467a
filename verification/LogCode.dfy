/**
 The code of `xv6/log.c`: the global `log`, its disk writes one block at a time, and the
 loops of `write_log`, `install_trans`, `read_head`, `write_head` and `log_write`.
 `writes` records every `bwrite`, so that a crash at any point is a prefix of it.
 */
module LogCode {
  import opened Common
  import opened WriteAheadLog
  import LogAdmission

  /** What `bread(b)` returns: the buffer if it is pinned, otherwise the disk block. */
  function View(d: Disk, pinned: map<int, Block>, b: int): Block {
    if b in pinned then pinned[b] else Read(d, b)
  }

  ghost predicate PinnedOk(l: Layout, n: nat, pinned: map<int, Block>) {
    forall b | b in pinned :: 0 <= b < n && !InLog(l, b) && |pinned[b]| == l.words
  }

  /** The contents a transaction writes for each logged block. */
  ghost function Contents(d: Disk, pinned: map<int, Block>, lh: seq<int>): (c: seq<Block>)
    ensures |c| == |lh|
  {
    seq(|lh|, i requires 0 <= i < |lh| => View(d, pinned, lh[i]))
  }

  ghost function SetOf(lh: seq<int>): set<int> {
    set b | b in lh
  }

  lemma ContentsOk(l: Layout, d: Disk, pinned: map<int, Block>, lh: seq<int>)
    requires Clean(l, d) && Loggable(l, |d|, lh) && PinnedOk(l, |d|, pinned)
    ensures Transaction(l, d, lh, Contents(d, pinned, lh))
  {
  }

  /** Writing log blocks does not change what the cache holds for the logged blocks. */
  lemma LogView(l: Layout, d: Disk, pinned: map<int, Block>, lh: seq<int>, t: nat)
    requires Clean(l, d) && Loggable(l, |d|, lh) && PinnedOk(l, |d|, pinned) && t < |lh|
    ensures var c := Contents(d, pinned, lh);
            && t < |LogWrites(l, c)| && LogWrites(l, c)[t] == Write(l.start + 1 + t, c[t])
            && View(Apply(d, LogWrites(l, c)[..t]), pinned, lh[t]) == c[t]
  {
    var c := Contents(d, pinned, lh);
    ContentsOk(l, d, pinned, lh);
    LogPrefix(l, d, c, t);
  }

  lemma LogStep(l: Layout, d: Disk, w: seq<Write>, pinned: map<int, Block>, lh: seq<int>, t: nat)
    requires Clean(l, d) && Loggable(l, |d|, lh) && PinnedOk(l, |d|, pinned) && t < |lh|
    ensures var all, b := LogWrites(l, Contents(d, pinned, lh)), l.start + 1 + t;
            && t < |all|
            && var data := View(Apply(d, all[..t]), pinned, lh[t]);
            && w + all[..t + 1] == w + all[..t] + [Write(b, data)]
            && Apply(d, all[..t + 1]) == Put(Apply(d, all[..t]), b, data)
  {
    LogView(l, d, pinned, lh, t);
    ApplyNext(d, w, LogWrites(l, Contents(d, pinned, lh)), t);
  }

  /** Installing does not change the log block that is copied next. */
  lemma InstallStep(l: Layout, d: Disk, pinned: map<int, Block>, t: nat)
    requires HeaderOk(l, d) && PinnedOk(l, |d|, pinned) && t < |Head(l, d)|
    ensures View(Apply(d, Pending(l, d)[..t]), pinned, l.start + 1 + t) == Pending(l, d)[t].data
  {
    assert InLog(l, l.start + 1 + t);
    var b := l.start + 1 + t;
    assert b !in Head(l, d);
    assert b !in Head(l, d)[..t];
    InstallAt(l, d, t, b);
    assert LogBlocks(l, d, |Head(l, d)|)[t] == Read(d, b);
    assert b !in pinned;
    assert Read(Apply(d, Pending(l, d)[..t]), b) == Read(d, b);
    assert Pending(l, d)[t] == Write(Head(l, d)[t], LogBlocks(l, d, |Head(l, d)|)[t]);
  }

  lemma Unpin(pinned: map<int, Block>, lh: seq<int>, t: nat)
    requires t < |lh|
    ensures pinned - SetOf(lh[..t + 1]) == pinned - SetOf(lh[..t]) - {lh[t]}
  {
    assert lh[..t + 1] == lh[..t] + [lh[t]];
  }

  lemma EmptyPrefix<T>(w: seq<T>, ws: seq<T>)
    ensures w + ws[..0] == w && ws[..|ws|] == ws
  {
  }

  /** Installing and then erasing the header is what `Recover` does. */
  lemma RecoverySteps(l: Layout, d: Disk, w: seq<Write>)
    requires HeaderOk(l, d)
    ensures Read(Apply(d, Pending(l, d)), l.start) == Read(d, l.start)
    ensures w + Pending(l, d) + [Write(l.start, EncodeHead(Read(d, l.start), []))] == w + RecoveryWrites(l, d)
    ensures var e := Apply(d, Pending(l, d));
            WellFormed(l, e) && Put(e, l.start, EncodeHead(Read(e, l.start), [])) == Recover(l, d)
  {
    var ws := Pending(l, d);
    InstallPrefix(l, d, |ws|);
    assert ws[..|ws|] == ws;
    assert InLog(l, l.start);
    assert RecoveryWrites(l, d)[..|ws|] == ws;
  }

  /** The contents a disk stands for, as a sequence of blocks. */
  ghost function Logical(l: Layout, d: Disk): (t: Disk) {
    seq(|d|, b requires 0 <= b < |d| => At(l, d, b))
  }

  lemma RecoveredContents(l: Layout, d: Disk)
    requires HeaderOk(l, d)
    ensures Clean(l, Recover(l, d)) && SameHome(l, Recover(l, d), Logical(l, d))
  {
    assert Means(l, d, Logical(l, d));
    RecoveryCompletes(l, d, Logical(l, d));
    CleanMeansItself(l, Recover(l, d), Logical(l, d));
  }

  /** The disk of `commit` right after its first header write. */
  ghost function CommitPoint(l: Layout, d: Disk, lh: seq<int>, c: seq<Block>): (e: Disk)
    ensures |e| == |d|
  {
    Put(Apply(d, LogWrites(l, c)), l.start, EncodeHead(Read(d, l.start), lh))
  }

  lemma CommitHead(l: Layout, d: Disk, lh: seq<int>, c: seq<Block>)
    requires Transaction(l, d, lh, c)
    ensures WellFormed(l, Apply(d, LogWrites(l, c)))
    ensures Read(Apply(d, LogWrites(l, c)), l.start) == Read(d, l.start)
    ensures Means(l, CommitPoint(l, d, lh, c), Overlay(d, lh, c))
    ensures Head(l, CommitPoint(l, d, lh, c)) == lh
    ensures Pending(l, CommitPoint(l, d, lh, c)) == InstallWrites(lh, c)
  {
    LogPrefix(l, d, c, |c|);
    assert LogWrites(l, c)[..|c|] == LogWrites(l, c);
    HeadWriteCommits(l, d, Apply(d, LogWrites(l, c)), lh, c);
    CommittedLogBlocks(l, d, Apply(d, LogWrites(l, c)), lh, c);
  }

  /** The list of writes of `commit`, from its two halves. */
  lemma CommitTrace(l: Layout, d: Disk, lh: seq<int>, c: seq<Block>, w: seq<Write>)
    requires Transaction(l, d, lh, c) && lh != []
    ensures HeaderOk(l, CommitPoint(l, d, lh, c)) && Head(l, CommitPoint(l, d, lh, c)) == lh
    ensures w + CommitFirstHalf(l, d, lh, c) + RecoveryWrites(l, CommitPoint(l, d, lh, c))
         == w + CommitWrites(l, d, lh, c)
  {
    CommitHead(l, d, lh, c);
  }

  lemma CommitResult(l: Layout, d: Disk, lh: seq<int>, c: seq<Block>)
    requires Transaction(l, d, lh, c)
    ensures var e := if lh == [] then d else Recover(l, CommitPoint(l, d, lh, c));
            Clean(l, e) && SameHome(l, e, Overlay(d, lh, c))
  {
    CommitHead(l, d, lh, c);
    RecoveryCompletes(l, CommitPoint(l, d, lh, c), Overlay(d, lh, c));
    CleanMeansItself(l, Recover(l, CommitPoint(l, d, lh, c)), Overlay(d, lh, c));
  }

  /** write_log after `t` blocks.  Kept folded. */
  ghost predicate Copied(l: Layout, d: Disk, w: seq<Write>, pinned: map<int, Block>, lh: seq<int>, t: nat, e: Disk,
                         v: seq<Write>)
  {
    forall k | Look(k) ::
      var all := LogWrites(l, Contents(d, pinned, lh));
      t <= |all| && e == Apply(d, all[..t]) && v == w + all[..t]
  }

  lemma CopiedNone(l: Layout, d: Disk, w: seq<Write>, pinned: map<int, Block>, lh: seq<int>)
    ensures Copied(l, d, w, pinned, lh, 0, d, w)
  {
    EmptyPrefix(w, LogWrites(l, Contents(d, pinned, lh)));
  }

  lemma CopiedNext(l: Layout, d: Disk, w: seq<Write>, pinned: map<int, Block>, lh: seq<int>, t: nat, e: Disk,
                   v: seq<Write>, t': nat, e': Disk, v': seq<Write>)
    requires Clean(l, d) && Loggable(l, |d|, lh) && PinnedOk(l, |d|, pinned) && t < |lh|
    requires Copied(l, d, w, pinned, lh, t, e, v) && t' == t + 1
    requires var b, data := l.start + 1 + t, View(e, pinned, lh[t]);
             e' == Put(e, b, data) && v' == v + [Write(b, data)]
    ensures Copied(l, d, w, pinned, lh, t', e', v')
  {
    assert Look(0);
    LogStep(l, d, w, pinned, lh, t);
  }

  lemma LogUnpinned(l: Layout, n: nat, pinned: map<int, Block>, lh: seq<int>, t: nat)
    requires Loggable(l, n, lh) && PinnedOk(l, n, pinned) && t < |lh|
    ensures pinned - {l.start + 1 + t} == pinned
  {
    assert InLog(l, l.start + 1 + t);
  }

  lemma CopiedAll(l: Layout, d: Disk, w: seq<Write>, pinned: map<int, Block>, lh: seq<int>, e: Disk, v: seq<Write>)
    requires Copied(l, d, w, pinned, lh, |lh|, e, v)
    ensures var all := LogWrites(l, Contents(d, pinned, lh)); e == Apply(d, all) && v == w + all
  {
    assert Look(0);
    EmptyPrefix(w, LogWrites(l, Contents(d, pinned, lh)));
  }

  /** install_trans after `t` blocks.  Kept folded. */
  ghost predicate Installed(l: Layout, d: Disk, w: seq<Write>, t: nat, e: Disk, v: seq<Write>) {
    forall k | Look(k) :: t <= |Pending(l, d)| && e == Apply(d, Pending(l, d)[..t]) && v == w + Pending(l, d)[..t]
  }

  lemma InstalledNone(l: Layout, d: Disk, w: seq<Write>)
    ensures Installed(l, d, w, 0, d, w)
  {
    EmptyPrefix(w, Pending(l, d));
  }

  lemma InstalledNext(l: Layout, d: Disk, w: seq<Write>, pinned: map<int, Block>, t: nat, e: Disk, v: seq<Write>,
                      t': nat, e': Disk, v': seq<Write>)
    requires HeaderOk(l, d) && PinnedOk(l, |d|, pinned) && t < |Head(l, d)| && Installed(l, d, w, t, e, v)
    requires var b, data := Head(l, d)[t], View(e, pinned, l.start + 1 + t);
             t' == t + 1 && e' == Put(e, b, data) && v' == v + [Write(b, data)]
    ensures Installed(l, d, w, t', e', v')
  {
    assert Look(0);
    InstallStep(l, d, pinned, t);
    ApplyNext(d, w, Pending(l, d), t);
  }

  lemma InstalledAll(l: Layout, d: Disk, w: seq<Write>, e: Disk, v: seq<Write>)
    requires Installed(l, d, w, |Head(l, d)|, e, v)
    ensures e == Apply(d, Pending(l, d)) && v == w + Pending(l, d)
  {
    assert Look(0);
    EmptyPrefix(w, Pending(l, d));
  }

  lemma CommitFacts(l: Layout, d: Disk, pinned: map<int, Block>, lh: seq<int>, w: seq<Write>)
    requires Clean(l, d) && Loggable(l, |d|, lh) && PinnedOk(l, |d|, pinned)
    ensures var c := Contents(d, pinned, lh);
            var p := CommitPoint(l, d, lh, c);
            if lh == [] then w + CommitWrites(l, d, lh, c) == w && SameHome(l, d, Overlay(d, lh, c))
            else
              && HeaderOk(l, p) && Head(l, p) == lh && |p| == |d| == |Recover(l, p)|
              && w + CommitFirstHalf(l, d, lh, c) + RecoveryWrites(l, p) == w + CommitWrites(l, d, lh, c)
              && Clean(l, Recover(l, p)) && SameHome(l, Recover(l, p), Overlay(d, lh, c))
  {
    var c := Contents(d, pinned, lh);
    ContentsOk(l, d, pinned, lh);
    CommitResult(l, d, lh, c);
    if lh == [] {
      assert w + [] == w;
    } else {
      CommitTrace(l, d, lh, c, w);
    }
  }

  /** Every block outside the log area holds its buffer if it was logged, and what it held otherwise. */
  ghost predicate Written(l: Layout, d: Disk, pinned: map<int, Block>, lh: seq<int>, e: Disk) {
    |e| == |d| && forall b | 0 <= b < |d| && !InLog(l, b) :: e[b] == if b in lh && b in pinned then pinned[b] else d[b]
  }

  lemma CommitIsWritten(l: Layout, d: Disk, pinned: map<int, Block>, lh: seq<int>, e: Disk)
    requires SameHome(l, e, Overlay(d, lh, Contents(d, pinned, lh)))
    ensures Written(l, d, pinned, lh, e)
  {
    var c := Contents(d, pinned, lh);
    forall b | 0 <= b < |d| && !InLog(l, b) ensures e[b] == if b in lh && b in pinned then pinned[b] else d[b] {
      assert Overlay(d, lh, c)[b] == if b in lh then Read(c, Find(lh, b)) else d[b];
    }
  }

  /** Block `j` of the log is back in the place that word `j` of the header names; `e` keeps the rest of `d`. */
  ghost predicate Replayed(l: Layout, d: Disk, e: Disk)
    requires HeaderOk(l, d)
  {
    var h := d[l.start];
    && |e| == |d|
    && (forall j | 1 <= j <= h[0] :: 0 <= h[j] < |d| && !InLog(l, h[j]) && e[h[j]] == d[l.start + j])
    && (forall b | 0 <= b < |d| && !InLog(l, b) && b !in h[1..1 + h[0]] :: e[b] == d[b])
  }

  lemma RecoveryReplays(l: Layout, d: Disk, e: Disk)
    requires HeaderOk(l, d) && SameHome(l, e, Logical(l, d))
    ensures Replayed(l, d, e)
  {
    var h, lh := d[l.start], Head(l, d);
    forall j | 1 <= j <= h[0] ensures 0 <= h[j] < |d| && !InLog(l, h[j]) && e[h[j]] == d[l.start + j] {
      assert h[j] == lh[j - 1];
      FindDistinct(lh, j - 1);
      assert Logical(l, d)[h[j]] == At(l, d, h[j]);
    }
    forall b | 0 <= b < |d| && !InLog(l, b) && b !in h[1..1 + h[0]] ensures e[b] == d[b] {
      assert Logical(l, d)[b] == At(l, d, b);
    }
  }

  class Log {
    const l: Layout
    const maxOp: nat                   // MAXOPBLOCKS
    var disk: Disk
    var pinned: map<int, Block>        // buffers with B_DIRTY set by log_write
    var lh: seq<int>                   // log.lh.block[..log.lh.n]
    var outstanding: int
    var committing: bool
    ghost var writes: seq<Write>

    ghost predicate Valid()
      reads this
    {
      WellFormed(l, disk) && Loggable(l, |disk|, lh) && PinnedOk(l, |disk|, pinned)
    }

    /** The parameters of the admission machine. */
    function Admission(): LogAdmission.Params {
      LogAdmission.Params(maxOp, l.capacity, l.size)
    }

    /** The log counters are those of state `s` of the admission machine. */
    ghost predicate Agrees(s: LogAdmission.State)
      reads this
    {
      s.lh == lh && s.outstanding == outstanding && s.committing == committing
    }

    constructor (l: Layout, maxOp: nat, d: Disk)
      requires WellFormed(l, d)
      ensures Valid() && this.l == l && this.maxOp == maxOp && disk == d && lh == [] && pinned == map[]
      ensures outstanding == 0 && !committing && writes == []
    {
      this.l, this.maxOp := l, maxOp;
      disk, pinned, lh, outstanding, committing, writes := d, map[], [], 0, false, [];
    }

    /** `bwrite`: one atomic block write. */
    method Bwrite(b: int, data: Block)
      modifies this`disk, this`pinned, this`writes
      ensures disk == Put(old(disk), b, data)
      ensures pinned == old(pinned) - {b}
      ensures writes == old(writes) + [Write(b, data)]
    {
      disk := Put(disk, b, data);
      pinned := pinned - {b};
      writes := writes + [Write(b, data)];
    }

    /** Copy modified blocks from the cache to the log. */
    method WriteLog()
      requires Valid() && Clean(l, disk)
      modifies this`disk, this`pinned, this`writes
      ensures pinned == old(pinned)
      ensures writes == old(writes) + LogWrites(l, Contents(old(disk), old(pinned), lh))
      ensures disk == Apply(old(disk), LogWrites(l, Contents(old(disk), old(pinned), lh)))
    {
      ghost var d, w := disk, writes;
      CopiedNone(l, d, w, pinned, lh);
      var tail := 0;
      while tail < |lh|
        invariant 0 <= tail <= |lh|
        invariant pinned == old(pinned)
        invariant Copied(l, d, w, pinned, lh, tail, disk, writes)
      {
        ghost var e, v := disk, writes;
        LogUnpinned(l, |d|, pinned, lh, tail);
        Bwrite(l.start + 1 + tail, View(disk, pinned, lh[tail]));
        tail := tail + 1;
        CopiedNext(l, d, w, pinned, lh, tail - 1, e, v, tail, disk, writes);
      }
      CopiedAll(l, d, w, pinned, lh, disk, writes);
    }

    /** Write the in-memory header to disk: the count, the block numbers, nothing else. */
    method WriteHead()
      requires WellFormed(l, disk) && |lh| <= l.capacity && PinnedOk(l, |disk|, pinned)
      modifies this`disk, this`pinned, this`writes
      ensures pinned == old(pinned)
      ensures disk == Put(old(disk), l.start, EncodeHead(Read(old(disk), l.start), lh))
      ensures writes == old(writes) + [Write(l.start, EncodeHead(Read(old(disk), l.start), lh))]
    {
      var hb := disk[l.start][0 := |lh|];
      var i := 0;
      while i < |lh|
        invariant 0 <= i <= |lh|
        invariant hb == [|lh|] + lh[..i] + disk[l.start][i + 1..]
      {
        hb := hb[i + 1 := lh[i]];
        i := i + 1;
      }
      assert hb == EncodeHead(Read(disk, l.start), lh);
      assert InLog(l, l.start);
      Bwrite(l.start, hb);
    }

    /** Copy committed blocks from the log to their home location. */
    method InstallTrans()
      requires HeaderOk(l, disk) && PinnedOk(l, |disk|, pinned) && lh == Head(l, disk)
      modifies this`disk, this`pinned, this`writes
      ensures pinned == old(pinned) - SetOf(lh)
      ensures writes == old(writes) + Pending(l, old(disk))
      ensures disk == Apply(old(disk), Pending(l, old(disk)))
    {
      ghost var d, w := disk, writes;
      EmptyPrefix(lh, lh);
      InstalledNone(l, d, w);
      var tail := 0;
      while tail < |lh|
        invariant 0 <= tail <= |lh|
        invariant pinned == old(pinned) - SetOf(lh[..tail])
        invariant Installed(l, d, w, tail, disk, writes)
      {
        ghost var e, v, p := disk, writes, pinned;
        Unpin(old(pinned), lh, tail);
        Bwrite(lh[tail], View(disk, pinned, l.start + 1 + tail));
        tail := tail + 1;
        InstalledNext(l, d, w, p, tail - 1, e, v, tail, disk, writes);
      }
      InstalledAll(l, d, w, disk, writes);
    }

    /** Read the log header from disk into the in-memory header. */
    method ReadHead()
      requires HeaderOk(l, disk)
      modifies this`lh
      ensures lh == Head(l, disk)
    {
      var hb := disk[l.start];
      var n := hb[0];
      lh := [];
      var i := 0;
      while i < n
        invariant 0 <= i <= n
        invariant lh == hb[1..1 + i]
      {
        lh := lh + [hb[1 + i]];
        i := i + 1;
      }
    }

    /** The common end of `commit` and `recover_from_log`: install, then erase the header. */
    method InstallAndErase()
      requires HeaderOk(l, disk) && PinnedOk(l, |disk|, pinned) && lh == Head(l, disk)
      modifies this`disk, this`pinned, this`writes, this`lh
      ensures lh == [] && pinned == old(pinned) - SetOf(old(lh))
      ensures writes == old(writes) + RecoveryWrites(l, old(disk))
      ensures disk == Recover(l, old(disk))
    {
      ghost var d := disk;
      InstallTrans();
      lh := [];
      RecoverySteps(l, d, old(writes));
      WriteHead();
    }

    /** Replay the log after a crash; the cache is empty at that point. */
    method RecoverFromLog()
      requires HeaderOk(l, disk) && pinned == map[]
      modifies this`disk, this`pinned, this`writes, this`lh
      ensures Valid() && Clean(l, disk) && lh == [] && pinned == map[]
      ensures writes == old(writes) + RecoveryWrites(l, old(disk))
      ensures disk == Recover(l, old(disk)) && SameHome(l, disk, Logical(l, old(disk)))
      ensures Replayed(l, old(disk), disk)
    {
      RecoveredContents(l, disk);
      RecoveryReplays(l, disk, Recover(l, disk));
      ReadHead();
      InstallAndErase();
    }

    /** The first half of `commit`: log blocks, then the header. */
    method LogTransaction()
      requires Valid() && Clean(l, disk)
      modifies this`disk, this`pinned, this`writes
      ensures var c := Contents(old(disk), old(pinned), lh);
              && pinned == old(pinned)
              && writes == old(writes) + CommitFirstHalf(l, old(disk), lh, c)
              && disk == CommitPoint(l, old(disk), lh, c)
    {
      ContentsOk(l, disk, pinned, lh);
      CommitHead(l, disk, lh, Contents(disk, pinned, lh));
      WriteLog();
      WriteHead();
    }

    /** Commit the transaction: its writes are exactly those whose crashes CrashAtomicity covers. */
    method Commit()
      requires Valid() && Clean(l, disk)
      modifies this`disk, this`pinned, this`writes, this`lh
      ensures Valid() && Clean(l, disk) && lh == []
      ensures writes == old(writes) + CommitWrites(l, old(disk), old(lh), Contents(old(disk), old(pinned), old(lh)))
      ensures SameHome(l, disk, Overlay(old(disk), old(lh), Contents(old(disk), old(pinned), old(lh))))
      ensures Written(l, old(disk), old(pinned), old(lh), disk)
      ensures pinned == old(pinned) - SetOf(old(lh))
    {
      CommitFacts(l, disk, pinned, lh, writes);
      if |lh| > 0 {
        LogTransaction();
        InstallAndErase();
      }
      CommitIsWritten(l, old(disk), old(pinned), old(lh), disk);
    }

    /** `log_write` of block `b`, whose buffer now holds `data`; false stands for a panic. */
    method LogWrite(b: int, data: Block) returns (ok: bool)
      requires Valid() && 0 <= b < |disk| && !InLog(l, b) && |data| == l.words
      modifies this`lh, this`pinned
      ensures Valid()
      ensures ok == (old(|lh|) < l.capacity && old(|lh|) < l.size - 1 && outstanding >= 1)
      ensures lh == if ok && b !in old(lh) then old(lh) + [b] else old(lh)
      ensures pinned == if ok then old(pinned)[b := data] else old(pinned)
      ensures forall s: LogAdmission.State, p: nat | old(Agrees(s)) && LogAdmission.MayLog(Admission(), s, p, b) ::
                var o := LogAdmission.LogSteps(Admission(), s, p, b);
                if ok then o.Next? && Agrees(o.s) else o.Panic?
    {
      if |lh| >= l.capacity || |lh| >= l.size - 1 || outstanding < 1 {
        return false;
      }
      var i := 0;
      while i < |lh| && lh[i] != b
        invariant 0 <= i <= |lh|
        invariant b !in lh[..i]
      {
        i := i + 1;
      }
      if i == |lh| {
        lh := lh + [b];
      }
      pinned := pinned[b := data];
      ok := true;
    }

    /** One pass of the loop in `begin_op`; false means the caller goes to sleep on `&log`. */
    method BeginOp() returns (admitted: bool)
      modifies this`outstanding
      ensures admitted <==> !committing && |lh| + (old(outstanding) + 1) * maxOp <= l.capacity
      ensures outstanding == if admitted then old(outstanding) + 1 else old(outstanding)
      ensures forall s: LogAdmission.State, p: nat | old(Agrees(s)) && LogAdmission.MayBegin(s, p) ::
                var o := LogAdmission.Step(Admission(), s, LogAdmission.Begin(p));
                o.Next? && Agrees(o.s) && (admitted <==> o.s.procs[p].InOp?)
    {
      if committing || |lh| + (outstanding + 1) * maxOp > l.capacity {
        admitted := false;
      } else {
        outstanding := outstanding + 1;
        admitted := true;
      }
    }

    /** All of `end_op`: the last operation out commits, under `committing`, with the lock released. */
    method EndOp() returns (committed: bool)
      requires Valid() && Clean(l, disk) && outstanding >= 1 && !committing
      modifies this
      ensures Valid() && Clean(l, disk) && !committing
      ensures outstanding == old(outstanding) - 1 && committed == (outstanding == 0)
      ensures committed ==> lh == []
      ensures committed ==>
                writes == old(writes) + CommitWrites(l, old(disk), old(lh), Contents(old(disk), old(pinned), old(lh)))
      ensures committed ==>
                SameHome(l, disk, Overlay(old(disk), old(lh), Contents(old(disk), old(pinned), old(lh))))
      ensures committed ==> Written(l, old(disk), old(pinned), old(lh), disk)
      ensures !committed ==> lh == old(lh) && pinned == old(pinned) && disk == old(disk) && writes == old(writes)
      ensures forall s: LogAdmission.State, p: nat | old(Agrees(s)) && LogAdmission.Inside(s, p) ::
                var o := LogAdmission.EndSteps(Admission(), s, p);
                o.Next? && Agrees(o.s) && o.s.procs[p].Idle?
    {
      outstanding := outstanding - 1;
      committed := outstanding == 0;
      if committed {
        committing := true;
        Commit();
        committing := false;
      }
    }
  }
}
