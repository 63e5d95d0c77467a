/**
 The redo log of `xv6/log.c`, at the grain of single block writes.

 A disk is a sequence of blocks and a block a sequence of machine words, so that the
 log header (`n` followed by `block[0..n]`) sits inside an ordinary block.  A commit and
 a recovery are lists of block writes; a crash keeps a prefix of such a list.

 Reads and writes outside the disk do not occur in well-formed states; the helpers below
 give them a harmless value so that they need no preconditions.
 */
module WriteAheadLog {
  import opened Common

  type Block = seq<int>
  type Disk = seq<Block>

  /** `log.start`, `log.size`, `LOGSIZE` and the number of words in a block. */
  datatype Layout = Layout(start: nat, size: nat, capacity: nat, words: nat)

  /** One `bwrite`. */
  datatype Write = Write(bno: int, data: Block)

  function Read(d: Disk, b: int): Block {
    if 0 <= b < |d| then d[b] else []
  }

  function Put(d: Disk, b: int, data: Block): (e: Disk)
    ensures |e| == |d|
  {
    if 0 <= b < |d| then d[b := data] else d
  }

  predicate InLog(l: Layout, b: int) {
    l.start <= b < l.start + l.size
  }

  ghost predicate WellFormed(l: Layout, d: Disk) {
    && 0 < l.size
    && l.start + l.size <= |d|
    && l.capacity + 1 < l.words
    && forall b | 0 <= b < |d| :: |d[b]| == l.words
  }

  /** Block numbers a transaction may log: distinct home blocks of a disk of `n` blocks that fit the log. */
  ghost predicate Loggable(l: Layout, n: nat, lh: seq<int>) {
    && |lh| <= l.capacity
    && |lh| < l.size
    && Distinct(lh)
    && forall i | 0 <= i < |lh| :: 0 <= lh[i] < n && !InLog(l, lh[i])
  }

  /** The block numbers in the header on disk. */
  function Head(l: Layout, d: Disk): (lh: seq<int>) {
    var h := Read(d, l.start);
    if 0 < |h| && 0 <= h[0] < |h| then h[1..1 + h[0]] else []
  }

  /** The header block on disk lists a loggable set of blocks. */
  ghost predicate HeaderOk(l: Layout, d: Disk) {
    && WellFormed(l, d)
    && 0 <= d[l.start][0] <= l.capacity
    && Loggable(l, |d|, Head(l, d))
  }

  /** The header on disk describes no transaction. */
  ghost predicate Clean(l: Layout, d: Disk) {
    WellFormed(l, d) && d[l.start][0] == 0
  }

  // ----- block writes

  ghost function Apply(d: Disk, ws: seq<Write>): (e: Disk)
    ensures |e| == |d|
  {
    if ws == [] then d
    else
      var w := ws[|ws| - 1];
      Put(Apply(d, ws[..|ws| - 1]), w.bno, w.data)
  }

  /** `write_head` overwrites the count and the first entries, and keeps the rest of the block. */
  function EncodeHead(blk: Block, lh: seq<int>): (b: Block)
    ensures |b| == |blk|
  {
    if |lh| < |blk| then [|lh|] + lh + blk[|lh| + 1..] else blk
  }

  /** The writes of `write_log`. */
  ghost function LogWrites(l: Layout, contents: seq<Block>): (ws: seq<Write>)
    ensures |ws| == |contents|
  {
    seq(|contents|, i requires 0 <= i < |contents| => Write(l.start + 1 + i, contents[i]))
  }

  /** The writes of `install_trans`. */
  ghost function InstallWrites(lh: seq<int>, contents: seq<Block>): (ws: seq<Write>)
    ensures |ws| == |lh|
  {
    seq(|lh|, i requires 0 <= i < |lh| => Write(lh[i], Read(contents, i)))
  }

  /** The writes of `commit`; `contents[i]` is what the cache holds for block `lh[i]`. */
  ghost function CommitWrites(l: Layout, d: Disk, lh: seq<int>, contents: seq<Block>): seq<Write> {
    if lh == [] then []
    else
      var head := EncodeHead(Read(d, l.start), lh);
      LogWrites(l, contents) + [Write(l.start, head)]
      + InstallWrites(lh, contents) + [Write(l.start, EncodeHead(head, []))]
  }

  /** The first `n` data blocks of the log. */
  ghost function LogBlocks(l: Layout, d: Disk, n: nat): (c: seq<Block>)
    ensures |c| == n
  {
    seq(n, i requires 0 <= i < n => Read(d, l.start + 1 + i))
  }

  /** The install writes of a recovery on disk `d`. */
  ghost function Pending(l: Layout, d: Disk): (ws: seq<Write>)
    ensures |ws| == |Head(l, d)|
  {
    InstallWrites(Head(l, d), LogBlocks(l, d, |Head(l, d)|))
  }

  /** The writes of `recover_from_log` on disk `d`. */
  ghost function RecoveryWrites(l: Layout, d: Disk): (ws: seq<Write>)
    ensures |ws| == |Head(l, d)| + 1
  {
    Pending(l, d) + [Write(l.start, EncodeHead(Read(d, l.start), []))]
  }

  // ----- what a disk means

  /** A position of `b` in `lh`. */
  ghost function Find(lh: seq<int>, b: int): (i: nat)
    ensures b in lh ==> i < |lh| && lh[i] == b
  {
    if b in lh then var i: nat :| i < |lh| && lh[i] == b; i else 0
  }

  /** `d` with block `lh[i]` replaced by `contents[i]`. */
  ghost function Overlay(d: Disk, lh: seq<int>, contents: seq<Block>): (e: Disk)
    ensures |e| == |d|
  {
    seq(|d|, b requires 0 <= b < |d| => if b in lh then Read(contents, Find(lh, b)) else d[b])
  }

  /** What block `b` stands for: a transaction in the header counts as installed. */
  ghost function At(l: Layout, d: Disk, b: int): Block {
    if b in Head(l, d) then Read(d, l.start + 1 + Find(Head(l, d), b)) else Read(d, b)
  }

  /** The home blocks of disk `d` stand for the contents `t`. */
  ghost predicate Means(l: Layout, d: Disk, t: Disk) {
    && HeaderOk(l, d) && |t| == |d|
    && forall b | 0 <= b < |d| && !InLog(l, b) :: At(l, d, b) == t[b]
  }

  /** Agreement on every block outside the log area. */
  ghost predicate SameHome(l: Layout, d: Disk, e: Disk) {
    |d| == |e| && forall b | 0 <= b < |d| && !InLog(l, b) :: d[b] == e[b]
  }

  lemma CleanMeansItself(l: Layout, d: Disk, t: Disk)
    requires Clean(l, d)
    ensures Means(l, d, t) <==> SameHome(l, d, t)
  {
    assert Head(l, d) == [];
    if Means(l, d, t) {
      forall b | 0 <= b < |d| && !InLog(l, b) ensures d[b] == t[b] {
        assert At(l, d, b) == t[b];
      }
    }
  }

  /** One more write of a list. */
  lemma ApplyNext(d: Disk, before: seq<Write>, ws: seq<Write>, t: nat)
    requires t < |ws|
    ensures before + ws[..t + 1] == before + ws[..t] + [ws[t]]
    ensures Apply(d, ws[..t + 1]) == Put(Apply(d, ws[..t]), ws[t].bno, ws[t].data)
  {
    assert ws[..t + 1] == ws[..t] + [ws[t]];
    assert ws[..t + 1][..t] == ws[..t];
  }

  lemma {:induction false} ApplyAppend(d: Disk, vs: seq<Write>, ws: seq<Write>)
    ensures Apply(d, vs + ws) == Apply(Apply(d, vs), ws)
  {
    if ws == [] {
      assert vs + ws == vs;
    } else {
      var k := |ws| - 1;
      ApplyAppend(d, vs, ws[..k]);
      assert (vs + ws)[..|vs + ws| - 1] == vs + ws[..k];
    }
  }

  // ----- installing

  /** `e` differs from `d` only in home blocks that already hold their logged contents. */
  ghost predicate Between(l: Layout, d: Disk, e: Disk) {
    && WellFormed(l, e) && |e| == |d|
    && (forall b | 0 <= b < |d| && InLog(l, b) :: e[b] == d[b])
    && forall b | 0 <= b < |d| && !InLog(l, b) :: e[b] == d[b] || e[b] == At(l, d, b)
  }

  lemma BetweenMeansTheSame(l: Layout, d: Disk, e: Disk, t: Disk)
    requires Means(l, d, t) && Between(l, d, e)
    ensures Means(l, e, t) && Head(l, e) == Head(l, d)
  {
    assert InLog(l, l.start);
    assert e[l.start] == d[l.start];
    var lh := Head(l, d);
    forall b | 0 <= b < |d| && !InLog(l, b) ensures At(l, e, b) == t[b] {
      assert At(l, d, b) == t[b];
      if b in lh {
        assert InLog(l, l.start + 1 + Find(lh, b));
      }
    }
  }

  lemma FindDistinct(lh: seq<int>, i: nat)
    requires Distinct(lh) && i < |lh|
    ensures Find(lh, lh[i]) == i
  {
  }

  /** The first `k` writes of `install_trans` replace the first `k` blocks of `lh` and no other. */
  lemma {:induction false} InstallEffect(d: Disk, lh: seq<int>, c: seq<Block>, k: nat, b: int)
    requires Distinct(lh) && k <= |lh| && 0 <= b < |d|
    ensures Read(Apply(d, InstallWrites(lh, c)[..k]), b)
         == if b in lh[..k] then Read(c, Find(lh, b)) else Read(d, b)
  {
    if k > 0 {
      InstallEffect(d, lh, c, k - 1, b);
      ApplyNext(d, [], InstallWrites(lh, c), k - 1);
      assert lh[..k] == lh[..k - 1] + [lh[k - 1]];
      FindDistinct(lh, k - 1);
    }
  }

  /** The first `k` blocks of the transaction in the header of `d` are installed in `e`. */
  ghost predicate Home(l: Layout, d: Disk, e: Disk, k: nat) {
    forall b | b in Head(l, d)[..Min(k, |Head(l, d)|)] :: Read(e, b) == At(l, d, b)
  }

  /** What block `b` holds after `k` install writes. */
  lemma InstallAt(l: Layout, d: Disk, k: nat, b: int)
    requires HeaderOk(l, d) && k <= |Head(l, d)| && 0 <= b < |d|
    ensures var e := Apply(d, Pending(l, d)[..k]);
            && e[b] == (if b in Head(l, d)[..k] then At(l, d, b) else d[b])
            && |e[b]| == l.words
  {
    InstallEffect(d, Head(l, d), LogBlocks(l, d, |Head(l, d)|), k, b);
  }

  /** Installing `k` blocks of the transaction in the header brings those home and moves nothing else. */
  lemma InstallPrefix(l: Layout, d: Disk, k: nat)
    requires HeaderOk(l, d) && k <= |Pending(l, d)|
    ensures var e := Apply(d, Pending(l, d)[..k]);
            Between(l, d, e) && Home(l, d, e, k)
  {
    var e := Apply(d, Pending(l, d)[..k]);
    forall b | 0 <= b < |d|
      ensures e[b] == (if b in Head(l, d)[..k] then At(l, d, b) else d[b]) && |e[b]| == l.words
    {
      InstallAt(l, d, k, b);
    }
    forall b | 0 <= b < |d| && InLog(l, b) ensures b !in Head(l, d) {
    }
  }

  /** Erasing the header keeps the meaning once every block is home. */
  lemma EraseIsSilent(l: Layout, d: Disk, e: Disk, t: Disk)
    requires Means(l, d, t) && Between(l, d, e) && Home(l, d, e, |Head(l, d)|)
    ensures var f := Put(e, l.start, EncodeHead(Read(d, l.start), []));
            Clean(l, f) && Means(l, f, t)
  {
    var f := Put(e, l.start, EncodeHead(Read(d, l.start), []));
    assert InLog(l, l.start);
    forall b | 0 <= b < |d| && !InLog(l, b) ensures f[b] == t[b] {
      assert At(l, d, b) == t[b];
    }
    CleanMeansItself(l, f, t);
  }

  lemma RecoveryCompletes(l: Layout, d: Disk, t: Disk)
    requires Means(l, d, t)
    ensures var e := Apply(d, RecoveryWrites(l, d));
            Clean(l, e) && Means(l, e, t)
  {
    var inst := Pending(l, d);
    InstallPrefix(l, d, |inst|);
    assert inst[..|inst|] == inst;
    assert RecoveryWrites(l, d)[..|inst|] == inst;
    EraseIsSilent(l, d, Apply(d, inst), t);
  }

  /** A crash after any number of recovery writes keeps the meaning; finishing also erases the log. */
  lemma RecoveryPrefix(l: Layout, d: Disk, t: Disk, k: nat)
    requires Means(l, d, t) && k <= |RecoveryWrites(l, d)|
    ensures var e := Apply(d, RecoveryWrites(l, d)[..k]);
            Means(l, e, t) && (k == |RecoveryWrites(l, d)| ==> Clean(l, e))
  {
    var all := RecoveryWrites(l, d);
    if k < |all| {
      InstallPrefix(l, d, k);
      assert all[..k] == Pending(l, d)[..k];
      BetweenMeansTheSame(l, d, Apply(d, all[..k]), t);
    } else {
      RecoveryCompletes(l, d, t);
      assert all[..k] == all;
    }
  }

  // ----- crashes

  /** Recovery stopped after `k` of its writes (or completed, when `k` is large enough). */
  ghost function Interrupted(l: Layout, d: Disk, k: nat): (e: Disk)
    ensures |e| == |d|
  {
    var all := RecoveryWrites(l, d);
    Apply(d, all[..Min(k, |all|)])
  }

  /** Recovery attempts that crash after `crashes[0]`, `crashes[1]`, ... writes. */
  ghost function AfterCrashes(l: Layout, d: Disk, crashes: seq<nat>): (e: Disk)
    ensures |e| == |d|
    decreases |crashes|
  {
    if crashes == [] then d else AfterCrashes(l, Interrupted(l, d, crashes[0]), crashes[1..])
  }

  lemma {:induction false} AfterCrashesMeansTheSame(l: Layout, d: Disk, t: Disk, crashes: seq<nat>)
    requires Means(l, d, t)
    ensures Means(l, AfterCrashes(l, d, crashes), t)
    decreases |crashes|
  {
    if crashes != [] {
      RecoveryPrefix(l, d, t, Min(crashes[0], |RecoveryWrites(l, d)|));
      AfterCrashesMeansTheSame(l, Interrupted(l, d, crashes[0]), t, crashes[1..]);
    }
  }

  /** A completed recovery. */
  ghost function Recover(l: Layout, d: Disk): (e: Disk)
    ensures |e| == |d|
  {
    Apply(d, RecoveryWrites(l, d))
  }

  // ----- prefixes of commit

  /** The disk `e` in the middle of `write_log`: still clean, and holding `k` blocks of the transaction. */
  ghost predicate Logged(l: Layout, d: Disk, e: Disk, contents: seq<Block>, k: nat) {
    && Clean(l, e) && SameHome(l, e, d) && Read(e, l.start) == Read(d, l.start)
    && forall i | 0 <= i < k && i < |contents| :: Read(e, l.start + 1 + i) == contents[i]
  }

  lemma {:induction false} LogPrefix(l: Layout, d: Disk, contents: seq<Block>, k: nat)
    requires Clean(l, d) && |contents| < l.size && k <= |contents|
    requires forall i | 0 <= i < |contents| :: |contents[i]| == l.words
    ensures Logged(l, d, Apply(d, LogWrites(l, contents)[..k]), contents, k)
  {
    if k > 0 {
      LogPrefix(l, d, contents, k - 1);
      LogApplied(l, d, contents, k - 1);
      LogNext(l, d, Apply(d, LogWrites(l, contents)[..k - 1]), contents, k - 1);
    }
  }

  lemma LogApplied(l: Layout, d: Disk, contents: seq<Block>, k: nat)
    requires k < |contents|
    ensures Apply(d, LogWrites(l, contents)[..k + 1]) ==
            Put(Apply(d, LogWrites(l, contents)[..k]), l.start + 1 + k, contents[k])
  {
    ApplyNext(d, [], LogWrites(l, contents), k);
  }

  lemma LogNext(l: Layout, d: Disk, e: Disk, contents: seq<Block>, k: nat)
    requires Clean(l, d) && Logged(l, d, e, contents, k) && k < |contents| < l.size && |contents[k]| == l.words
    ensures Logged(l, d, Put(e, l.start + 1 + k, contents[k]), contents, k + 1)
  {
  }

  /** `commit` is about to write `contents` for the blocks `lh`. */
  ghost predicate Transaction(l: Layout, d: Disk, lh: seq<int>, contents: seq<Block>) {
    && Clean(l, d) && Loggable(l, |d|, lh) && |contents| == |lh|
    && forall i | 0 <= i < |contents| :: |contents[i]| == l.words
  }

  /** Reading back a header that `write_head` wrote. */
  lemma HeadRoundTrip(l: Layout, d: Disk, g: Disk, lh: seq<int>)
    requires WellFormed(l, d) && WellFormed(l, g) && |g| == |d| && Loggable(l, |d|, lh)
    ensures var e := Put(g, l.start, EncodeHead(Read(d, l.start), lh));
            HeaderOk(l, e) && Head(l, e) == lh
  {
    var h := EncodeHead(Read(d, l.start), lh);
    assert h[1..1 + |lh|] == lh;
  }

  lemma CommittedLogBlocks(l: Layout, d: Disk, g: Disk, lh: seq<int>, contents: seq<Block>)
    requires Transaction(l, d, lh, contents) && Logged(l, d, g, contents, |lh|)
    ensures var e := Put(g, l.start, EncodeHead(Read(d, l.start), lh));
            && LogBlocks(l, e, |lh|) == contents
            && forall i | 0 <= i < |lh| :: Read(e, l.start + 1 + i) == contents[i]
  {
    var e := Put(g, l.start, EncodeHead(Read(d, l.start), lh));
    forall i | 0 <= i < |lh| ensures Read(e, l.start + 1 + i) == contents[i] {
      assert Read(g, l.start + 1 + i) == contents[i];
    }
  }

  /** The header write is the commit point: it turns the meaning into "after" in one step. */
  lemma HeadWriteCommits(l: Layout, d: Disk, g: Disk, lh: seq<int>, contents: seq<Block>)
    requires Transaction(l, d, lh, contents) && Logged(l, d, g, contents, |lh|)
    ensures var e := Put(g, l.start, EncodeHead(Read(d, l.start), lh));
            Means(l, e, Overlay(d, lh, contents)) && Head(l, e) == lh
  {
    var e := Put(g, l.start, EncodeHead(Read(d, l.start), lh));
    HeadRoundTrip(l, d, g, lh);
    CommittedLogBlocks(l, d, g, lh, contents);
    forall b | 0 <= b < |d| && !InLog(l, b) ensures At(l, e, b) == Overlay(d, lh, contents)[b] {
      assert b != l.start;
    }
  }

  /** The writes of `commit` up to and including the first header write. */
  ghost function CommitFirstHalf(l: Layout, d: Disk, lh: seq<int>, contents: seq<Block>): (ws: seq<Write>)
    ensures |ws| == |contents| + 1
  {
    LogWrites(l, contents) + [Write(l.start, EncodeHead(Read(d, l.start), lh))]
  }

  /** Once the header is written, the rest of `commit` does exactly what a recovery would do. */
  lemma CommittedDisk(l: Layout, d: Disk, lh: seq<int>, contents: seq<Block>)
    requires Transaction(l, d, lh, contents)
    ensures var ws := CommitFirstHalf(l, d, lh, contents);
            && Means(l, Apply(d, ws), Overlay(d, lh, contents))
            && Head(l, Apply(d, ws)) == lh
            && (lh != [] ==> CommitWrites(l, d, lh, contents) == ws + RecoveryWrites(l, Apply(d, ws)))
  {
    var logw := LogWrites(l, contents);
    var ws := CommitFirstHalf(l, d, lh, contents);
    assert logw[..|contents|] == logw && ws[..|ws| - 1] == logw;
    LogPrefix(l, d, contents, |contents|);
    HeadWriteCommits(l, d, Apply(d, logw), lh, contents);
    CommittedLogBlocks(l, d, Apply(d, logw), lh, contents);
  }

  /** The meaning of the disk after the first `k` writes of a commit. */
  lemma CommitPrefix(l: Layout, d: Disk, lh: seq<int>, contents: seq<Block>, k: nat)
    requires Transaction(l, d, lh, contents)
    requires k <= |CommitWrites(l, d, lh, contents)|
    ensures var all := CommitWrites(l, d, lh, contents);
            && Means(l, Apply(d, all[..k]), if k <= |lh| then d else Overlay(d, lh, contents))
            && (k == |all| ==> Clean(l, Apply(d, all[..k])))
  {
    if k <= |lh| {
      BeforeCommitPoint(l, d, lh, contents, k);
    } else {
      AfterCommitPoint(l, d, lh, contents, k);
    }
  }

  lemma BeforeCommitPoint(l: Layout, d: Disk, lh: seq<int>, contents: seq<Block>, k: nat)
    requires Transaction(l, d, lh, contents) && k <= |lh| && k <= |CommitWrites(l, d, lh, contents)|
    ensures var all := CommitWrites(l, d, lh, contents);
            Means(l, Apply(d, all[..k]), d) && (k == |all| ==> Clean(l, Apply(d, all[..k])))
  {
    var all := CommitWrites(l, d, lh, contents);
    LogPrefix(l, d, contents, k);
    assert all[..k] == LogWrites(l, contents)[..k];
    CleanMeansItself(l, Apply(d, all[..k]), d);
  }

  lemma AfterCommitPoint(l: Layout, d: Disk, lh: seq<int>, contents: seq<Block>, k: nat)
    requires Transaction(l, d, lh, contents) && |lh| < k <= |CommitWrites(l, d, lh, contents)|
    ensures var all := CommitWrites(l, d, lh, contents);
            && Means(l, Apply(d, all[..k]), Overlay(d, lh, contents))
            && (k == |all| ==> Clean(l, Apply(d, all[..k])))
  {
    var ws := CommitFirstHalf(l, d, lh, contents);
    var e := Apply(d, ws);
    CommittedDisk(l, d, lh, contents);
    AfterwardsRecovers(l, d, ws, Overlay(d, lh, contents), k);
  }

  /** Writes that leave a disk meaning `t`, followed by a part of its recovery. */
  lemma AfterwardsRecovers(l: Layout, d: Disk, ws: seq<Write>, t: Disk, k: nat)
    requires Means(l, Apply(d, ws), t) && |ws| <= k <= |ws| + |RecoveryWrites(l, Apply(d, ws))|
    ensures var all := ws + RecoveryWrites(l, Apply(d, ws));
            Means(l, Apply(d, all[..k]), t) && (k == |all| ==> Clean(l, Apply(d, all[..k])))
  {
    var r := RecoveryWrites(l, Apply(d, ws));
    RecoveryPrefix(l, Apply(d, ws), t, k - |ws|);
    PrefixApplied(d, ws, r, k);
  }

  lemma PrefixApplied(d: Disk, ws: seq<Write>, r: seq<Write>, k: nat)
    requires |ws| <= k <= |ws| + |r|
    ensures Apply(d, (ws + r)[..k]) == Apply(Apply(d, ws), r[..k - |ws|])
  {
    assert (ws + r)[..k] == ws + r[..k - |ws|];
    ApplyAppend(d, ws, r[..k - |ws|]);
  }

  /**
   Crash atomicity.  Stop `commit` after any `k` of its block writes, let any number of
   recoveries crash after any number of their own writes, then let one recovery finish:
   every home block is as before the transaction when the header write was not reached,
   and every home block is as after it once the header was written.
   */
  lemma CrashAtomicity(l: Layout, d: Disk, lh: seq<int>, contents: seq<Block>, k: nat, crashes: seq<nat>)
    requires Transaction(l, d, lh, contents)
    requires k <= |CommitWrites(l, d, lh, contents)|
    ensures var stopped := Apply(d, CommitWrites(l, d, lh, contents)[..k]);
            var e := Recover(l, AfterCrashes(l, stopped, crashes));
            Clean(l, e) && SameHome(l, e, if k <= |lh| then d else Overlay(d, lh, contents))
  {
    var t := if k <= |lh| then d else Overlay(d, lh, contents);
    var stopped := Apply(d, CommitWrites(l, d, lh, contents)[..k]);
    CommitPrefix(l, d, lh, contents, k);
    AfterCrashesMeansTheSame(l, stopped, t, crashes);
    RecoveryCompletes(l, AfterCrashes(l, stopped, crashes), t);
    CleanMeansItself(l, Recover(l, AfterCrashes(l, stopped, crashes)), t);
  }

  // ----- whole histories

  /**
   One transaction of a history: its blocks, how many of its disk writes happened, and the
   points at which later recoveries crashed.  Writes beyond the last mean "no crash".
   */
  datatype Attempt = Attempt(lh: seq<int>, contents: seq<Block>, done: nat, crashes: seq<nat>)

  ghost predicate AttemptOk(l: Layout, n: nat, a: Attempt) {
    && Loggable(l, n, a.lh) && |a.contents| == |a.lh|
    && forall i | 0 <= i < |a.contents| :: |a.contents[i]| == l.words
  }

  /** Run one attempt and recover. */
  ghost function RunAttempt(l: Layout, d: Disk, a: Attempt): (e: Disk)
    ensures |e| == |d|
  {
    var all := CommitWrites(l, d, a.lh, a.contents);
    Recover(l, AfterCrashes(l, Apply(d, all[..Min(a.done, |all|)]), a.crashes))
  }

  ghost function RunHistory(l: Layout, d: Disk, h: seq<Attempt>): (e: Disk)
    ensures |e| == |d|
    decreases |h|
  {
    if h == [] then d else RunHistory(l, RunAttempt(l, d, h[0]), h[1..])
  }

  /** An attempt as a user of the file system sees it: all of it happens or none. */
  ghost function AtomicAttempt(d: Disk, a: Attempt): (e: Disk)
    ensures |e| == |d|
  {
    if a.done <= |a.lh| then d else Overlay(d, a.lh, a.contents)
  }

  ghost function AtomicHistory(d: Disk, h: seq<Attempt>): (e: Disk)
    ensures |e| == |d|
    decreases |h|
  {
    if h == [] then d else AtomicHistory(AtomicAttempt(d, h[0]), h[1..])
  }

  lemma {:induction false} AtomicHistoryHome(l: Layout, d: Disk, e: Disk, h: seq<Attempt>)
    requires SameHome(l, d, e)
    ensures SameHome(l, AtomicHistory(d, h), AtomicHistory(e, h))
    decreases |h|
  {
    if h != [] {
      AtomicHistoryHome(l, AtomicAttempt(d, h[0]), AtomicAttempt(e, h[0]), h[1..]);
    }
  }

  lemma AttemptIsAtomic(l: Layout, d: Disk, a: Attempt)
    requires Clean(l, d) && AttemptOk(l, |d|, a)
    ensures Clean(l, RunAttempt(l, d, a)) && SameHome(l, RunAttempt(l, d, a), AtomicAttempt(d, a))
  {
    var all := CommitWrites(l, d, a.lh, a.contents);
    CrashAtomicity(l, d, a.lh, a.contents, Min(a.done, |all|), a.crashes);
  }

  /** Any run of transactions, crashes and crashing recoveries equals its all-or-nothing run. */
  lemma {:induction false} HistoryIsAtomic(l: Layout, d: Disk, h: seq<Attempt>)
    requires Clean(l, d) && forall i | 0 <= i < |h| :: AttemptOk(l, |d|, h[i])
    ensures Clean(l, RunHistory(l, d, h))
    ensures SameHome(l, RunHistory(l, d, h), AtomicHistory(d, h))
    decreases |h|
  {
    if h != [] {
      AttemptIsAtomic(l, d, h[0]);
      var d1 := RunAttempt(l, d, h[0]);
      HistoryIsAtomic(l, d1, h[1..]);
      AtomicHistoryHome(l, d1, AtomicAttempt(d, h[0]), h[1..]);
    }
  }
}
