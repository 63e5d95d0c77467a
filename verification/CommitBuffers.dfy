/**
 Buffers during a commit (`bget` in `xv6/bio.c`, `write_log` in `xv6/log.c`).  Every block listed in
 the log header is pinned in the cache until it is installed, while `write_log` needs a buffer for
 each log block.  This module says exactly when `bget` finds none, which is its "no buffers" panic.
 */
module CommitBuffers {
  import opened Common
  import opened WriteAheadLog
  import opened BufferCache
  import opened BlockStore

  /** Buffer `i` holds block `b` and waits for it to be installed. */
  predicate Waits(s: State, i: nat, b: int) {
    i < |s.bufs| && Holds(s.bufs[i], ROOTDEV, b) && s.bufs[i].dirty
  }

  ghost predicate Pinned(s: State, b: int) {
    exists i: nat :: Waits(s, i, b)
  }

  /** The number of header blocks that are already installed. */
  function Installed(p: Phase): nat {
    if p.Installing? then p.k else 0
  }

  /** Header blocks are pinned until they are installed, and nothing else is. */
  ghost predicate HeaderPinned(s: State) {
    && (forall j: nat | Installed(s.phase) <= j < |s.lh| :: Pinned(s, s.lh[j]))
    && forall i: nat | i < |s.bufs| && s.bufs[i].dirty :: s.bufs[i].dev == ROOTDEV
  }

  /** The steps that clean the buffer of block `b`. */
  predicate Cleans(l: Layout, s: State, a: Action, b: int) {
    match a
    case CopyToLog(t, u) => InLog(l, b)
    case WriteHeader(t) => InLog(l, b)
    case EraseHeader(t) => InLog(l, b)
    case Install(t, u) => s.phase.Installing? && s.phase.k < |s.lh| && b == s.lh[s.phase.k]
    case _ => false
  }

  lemma WriteThroughWaits(s: State, t: nat, data: Block, i: nat, b: int)
    requires Waits(s, i, b) && BlockOf(s, t) != b
    ensures Waits(WriteThrough(s, t, data), i, b)
  {
  }

  /** A pinned buffer stays until a step cleans it. */
  lemma StaysPinned(l: Layout, s: State, a: Action, i: nat, b: int)
    requires Inv(l, s) && Enabled(l, s, a) && Waits(s, i, b) && !Cleans(l, s, a, b)
    ensures Waits(Step(l, s, a), i, b)
  {
    match a
    case CopyToLog(t, u) => WriteThroughWaits(s, t, BufOf(s, u).data, i, b);
    case WriteHeader(t) => WriteThroughWaits(s, t, EncodeHead(BufOf(s, t).data, s.lh), i, b);
    case EraseHeader(t) => WriteThroughWaits(s, t, EncodeHead(BufOf(s, t).data, []), i, b);
    case Install(t, u) => WriteThroughWaits(s, u, BufOf(s, t).data, i, b);
    case _ =>
  }

  /** No step makes a buffer of another device dirty. */
  lemma DirtyDevice(l: Layout, s: State, a: Action, i: nat)
    requires Enabled(l, s, a) && HeaderPinned(s) && i < |Step(l, s, a).bufs| && Step(l, s, a).bufs[i].dirty
    ensures Step(l, s, a).bufs[i].dev == ROOTDEV
  {
  }

  lemma StepKeepsPinned(l: Layout, s: State, a: Action)
    requires Inv(l, s) && Enabled(l, s, a) && HeaderPinned(s)
    ensures HeaderPinned(Step(l, s, a))
  {
    var s' := Step(l, s, a);
    forall j: nat | Installed(s'.phase) <= j < |s'.lh| ensures Pinned(s', s'.lh[j]) {
      PinnedAfter(l, s, a, j);
    }
    forall i: nat | i < |s'.bufs| && s'.bufs[i].dirty ensures s'.bufs[i].dev == ROOTDEV {
      DirtyDevice(l, s, a, i);
    }
  }

  lemma PinnedAfter(l: Layout, s: State, a: Action, j: nat)
    requires Inv(l, s) && Enabled(l, s, a) && HeaderPinned(s)
    requires Installed(Step(l, s, a).phase) <= j < |Step(l, s, a).lh|
    ensures Pinned(Step(l, s, a), Step(l, s, a).lh[j])
  {
    var s' := Step(l, s, a);
    var b := s'.lh[j];
    if a.LogWrite? && b == BlockOf(s, a.t) {
      assert Waits(s', s.refs[a.t].buf, b);
    } else {
      assert j < |s.lh| && s.lh[j] == b;
      var i: nat :| Waits(s, i, b);
      StaysPinned(l, s, a, i, b);
    }
  }

  lemma {:induction false} RunKeepsPinned(l: Layout, s: State, run: seq<Action>, e: State)
    requires Inv(l, s) && HeaderPinned(s) && Run(l, s, run, e)
    ensures Inv(l, e) && HeaderPinned(e)
    decreases |run|
  {
    if run != [] {
      StepKeepsInv(l, s, run[0]);
      StepKeepsPinned(l, s, run[0]);
      RunKeepsPinned(l, Step(l, s, run[0]), run[1..], e);
    }
  }

  // ----- counting buffers

  function Indices(n: nat): (r: set<nat>)
    ensures |r| == n && forall i :: i in r <==> 0 <= i < n
  {
    if n == 0 then {} else Indices(n - 1) + {n - 1}
  }

  /** The pinned buffers. */
  function Dirty(s: State): set<nat> {
    set i: nat | i < |s.bufs| && s.bufs[i].dirty
  }

  /** The buffers that are in use but not pinned. */
  function Busy(s: State): set<nat> {
    set i: nat | i < |s.bufs| && !s.bufs[i].dirty && s.bufs[i].refcnt > 0
  }

  /** A buffer of `d` waits for block `b`. */
  ghost predicate Within(s: State, d: set<nat>, b: int) {
    exists i: nat :: i in d && Waits(s, i, b)
  }

  /** The buffers that wait for header blocks `lo` to `k - 1`. */
  lemma {:induction false} WaitingFor(s: State, lo: nat, k: nat) returns (d: set<nat>)
    requires Distinct(s.lh) && lo <= k <= |s.lh| && forall j: nat | lo <= j < k :: Pinned(s, s.lh[j])
    ensures |d| == k - lo
    ensures forall i | i in d :: i < |s.bufs| && s.bufs[i].dirty
    ensures forall i, j | i in d && k <= j < |s.lh| :: s.bufs[i].blockno != s.lh[j]
    ensures forall j: nat | lo <= j < k :: Within(s, d, s.lh[j])
    decreases k
  {
    if k == lo {
      d := {};
    } else {
      var e := WaitingFor(s, lo, k - 1);
      var i: nat :| Waits(s, i, s.lh[k - 1]);
      d := e + {i};
      forall j: nat | lo <= j < k ensures Within(s, d, s.lh[j]) {
        if j < k - 1 {
          var i': nat :| i' in e && Waits(s, i', s.lh[j]);
          assert i' in d;
        }
      }
    }
  }

  /** A dirty buffer holds a header block that is not yet installed. */
  lemma DirtyListed(l: Layout, s: State, i: nat) returns (j: nat)
    requires Inv(l, s) && HeaderPinned(s) && i < |s.bufs| && s.bufs[i].dirty
    ensures Installed(s.phase) <= j < |s.lh| && s.lh[j] == s.bufs[i].blockno
  {
    assert s.bufs[i].blockno in s.lh;
    j :| j < |s.lh| && s.lh[j] == s.bufs[i].blockno;
  }

  /** There are as many pinned buffers as header blocks that are not yet installed. */
  lemma PinnedCount(l: Layout, s: State)
    requires Inv(l, s) && HeaderPinned(s)
    ensures Installed(s.phase) <= |s.lh| && |Dirty(s)| == |s.lh| - Installed(s.phase)
  {
    var lo := Installed(s.phase);
    var d := WaitingFor(s, lo, |s.lh|);
    forall i | i in Dirty(s) ensures i in d {
      var j := DirtyListed(l, s, i);
      assert Within(s, d, s.lh[j]);
      var i': nat :| i' in d && Waits(s, i', s.lh[j]);
      assert s.bufs[i'].blockno == s.bufs[i].blockno;
    }
    assert d == Dirty(s);
  }

  lemma Full(x: set<nat>, n: nat)
    requires x <= Indices(n)
    ensures |x| == n <==> x == Indices(n)
  {
    var y := Indices(n) - x;
    assert Indices(n) == x + y;
    assert |x + y| == |x| + |y|;
  }

  /** `bget` finds no buffer for block `b`. */
  ghost predicate NoBuffers(l: Layout, s: State, t: nat, b: int) {
    forall i: nat :: !Enabled(l, s, Get(t, b, i))
  }

  lemma NoBuffersMeans(l: Layout, s: State, t: nat, b: int)
    requires t < |s.refs| && s.refs[t].Free? && 0 <= b < |s.disk|
    requires forall i: nat | i < |s.bufs| :: s.bufs[i].refcnt >= 0
    ensures NoBuffers(l, s, t, b) <==>
            && (forall i: nat | i < |s.bufs| :: !Holds(s.bufs[i], ROOTDEV, b))
            && Dirty(s) + Busy(s) == Indices(|s.bufs|)
  {
    if NoBuffers(l, s, t, b) {
      forall i: nat | i < |s.bufs| ensures !Holds(s.bufs[i], ROOTDEV, b) {
        assert !Enabled(l, s, Get(t, b, i));
      }
      forall i: nat | i < |s.bufs| ensures i in Dirty(s) + Busy(s) {
        assert !Enabled(l, s, Get(t, b, i));
      }
    } else {
      var i: nat :| Enabled(l, s, Get(t, b, i));
      if !Holds(s.bufs[i], ROOTDEV, b) {
        assert i in Indices(|s.bufs|) && i !in Dirty(s) + Busy(s);
      }
    }
  }

  /**
   In every reachable state, `bget` of a block panics exactly when the block is not cached, and the
   header blocks still to be installed and the buffers in use fill the cache.
   */
  lemma NoBuffersExactly(l: Layout, n: nat, m: nat, d: Disk, run: seq<Action>, s: State, t: nat, b: int)
    requires Clean(l, d) && Run(l, Init(n, m, d), run, s)
    requires t < |s.refs| && s.refs[t].Free? && 0 <= b < |s.disk|
    ensures NoBuffers(l, s, t, b) <==>
            && (forall i: nat | i < |s.bufs| :: !Holds(s.bufs[i], ROOTDEV, b))
            && |s.lh| - Installed(s.phase) + |Busy(s)| == |s.bufs|
  {
    InitOk(l, n, m, d);
    RunKeepsPinned(l, Init(n, m, d), run, s);
    NoBuffersMeans(l, s, t, b);
    PinnedCount(l, s);
    assert |Dirty(s) + Busy(s)| == |Dirty(s)| + |Busy(s)|;
    Full(Dirty(s) + Busy(s), |s.bufs|);
  }

  /**
   With nothing in use, `write_log`, `write_head` and `install_trans` cannot get a buffer for a block of
   the log exactly when the header blocks still to be installed fill the cache.
   */
  lemma CommitPanicsExactly(l: Layout, n: nat, m: nat, d: Disk, run: seq<Action>, s: State, t: nat, b: int)
    requires Clean(l, d) && Run(l, Init(n, m, d), run, s)
    requires t < |s.refs| && InLog(l, b) && forall u | 0 <= u < |s.refs| :: s.refs[u].Free?
    ensures NoBuffers(l, s, t, b) <==> |s.lh| - Installed(s.phase) == |s.bufs|
  {
    InitOk(l, n, m, d);
    RunKeepsPinned(l, Init(n, m, d), run, s);
    NothingBusy(l, s);
    NoBuffersExactly(l, n, m, d, run, s, t, b);
    if |s.lh| - Installed(s.phase) == |s.bufs| {
      FullOfHeader(l, s, b);
    }
  }

  lemma FullOfHeader(l: Layout, s: State, b: int)
    requires Inv(l, s) && HeaderPinned(s) && InLog(l, b) && |s.lh| - Installed(s.phase) == |s.bufs|
    ensures forall i: nat | i < |s.bufs| :: !Holds(s.bufs[i], ROOTDEV, b)
  {
    PinnedCount(l, s);
    Full(Dirty(s), |s.bufs|);
    forall i: nat | i < |s.bufs| ensures !Holds(s.bufs[i], ROOTDEV, b) {
      assert i in Dirty(s);
    }
  }

  lemma NothingBusy(l: Layout, s: State)
    requires RefsOk(s) && forall u | 0 <= u < |s.refs| :: s.refs[u].Free?
    ensures Busy(s) == {}
  {
    forall i: nat | i < |s.bufs| ensures s.bufs[i].refcnt == 0 {
      CountNone(s.refs, i);
    }
  }

  lemma {:induction false} CountNone(refs: seq<Slot>, i: nat)
    requires forall u | 0 <= u < |refs| :: refs[u].Free?
    ensures Count(refs, i) == 0
  {
    if refs != [] {
      CountNone(refs[1..], i);
    }
  }

  // ----- a run that ends in the panic

  function Clear(): Buf {
    Buf(false, false, 0, 0, 0, [])
  }

  /** The cache with blocks `h` to `h + k - 1` read, logged and released. */
  function Cached(n: nat, d: Disk, h: nat, k: nat): seq<Buf> {
    seq(n, i => if i < k then Buf(true, true, ROOTDEV, h + i, 0, Read(d, h + i)) else Clear())
  }

  /** A buffer that somebody reads block `b` with. */
  function InUse(d: Disk, b: int): Buf {
    Buf(true, false, ROOTDEV, b, 1, Read(d, b))
  }

  function Listed(h: nat, k: nat): seq<int> {
    seq(k, i => h + i)
  }

  function Logged(n: nat, d: Disk, h: nat, k: nat): State {
    State(Cached(n, d, h, k), [Free, Free], d, Listed(h, k), Open, d, d)
  }

  /** Blocks `h` to `h + n - 1` are home blocks. */
  ghost predicate Home(l: Layout, d: Disk, h: nat, n: nat) {
    h + n <= |d| && forall b | h <= b < h + n :: !InLog(l, b)
  }

  lemma RunCons(l: Layout, s: State, a: Action, run: seq<Action>, e: State)
    requires Enabled(l, s, a) && Run(l, Step(l, s, a), run, e)
    ensures Run(l, s, [a] + run, e)
  {
    assert ([a] + run)[1..] == run;
  }

  lemma ConsAppend(run: seq<Action>, more: seq<Action>)
    requires run != []
    ensures [run[0]] + (run[1..] + more) == run + more
  {
  }

  lemma {:induction false} RunAppend(l: Layout, s: State, run: seq<Action>, m: State, more: seq<Action>, e: State)
    requires Run(l, s, run, m) && Run(l, m, more, e)
    ensures Run(l, s, run + more, e)
    decreases |run|
  {
    if run == [] {
      assert run + more == more;
    } else {
      RunAppend(l, Step(l, s, run[0]), run[1..], m, more, e);
      RunCons(l, s, run[0], run[1..] + more, e);
      ConsAppend(run, more);
    }
  }

  lemma One(l: Layout, s: State, a: Action, e: State)
    requires Enabled(l, s, a) && Step(l, s, a) == e
    ensures Run(l, s, [a], e)
  {
    RunCons(l, s, a, [], e);
  }

  /** `bread` of a block that is not cached, into buffer `k`. */
  lemma ReadBlock(l: Layout, n: nat, d: Disk, h: nat, k: nat) returns (run: seq<Action>, e: State)
    requires k < n && Home(l, d, h, n)
    ensures Run(l, Logged(n, d, h, k), run, e)
    ensures e == Logged(n, d, h, k).(bufs := Cached(n, d, h, k)[k := InUse(d, h + k)],
                                     refs := [Held(k, true, false), Free])
  {
    var s := Logged(n, d, h, k);
    var a0, a1, a2 := Get(0, h + k, k), Lock(0), Load(0);
    var s1 := Step(l, s, a0);
    var s2 := Step(l, s1, a1);
    assert s1.bufs[k] == Recycled(Clear(), ROOTDEV, h + k);
    One(l, s, a0, s1);
    One(l, s1, a1, s2);
    One(l, s2, a2, Step(l, s2, a2));
    RunAppend(l, s, [a0], s1, [a1], s2);
    e := Step(l, s2, a2);
    run := [a0] + [a1] + [a2];
    RunAppend(l, s, [a0] + [a1], s2, [a2], e);
    assert e.refs == [Held(k, true, false), Free];
  }

  /** One more block is read, logged and released. */
  lemma LogOne(l: Layout, n: nat, d: Disk, h: nat, k: nat) returns (run: seq<Action>)
    requires k < n && Home(l, d, h, n) && k < l.capacity && k < l.size - 1
    ensures Run(l, Logged(n, d, h, k), run, Logged(n, d, h, k + 1))
  {
    var s := Logged(n, d, h, k);
    var first, s3 := ReadBlock(l, n, d, h, k);
    var s4 := Step(l, s3, LogWrite(0));
    assert h + k !in s3.lh;
    assert s4.lh == Listed(h, k + 1);
    One(l, s3, LogWrite(0), s4);
    var s5 := Step(l, s4, Release(0));
    One(l, s4, Release(0), s5);
    assert s5.bufs == Cached(n, d, h, k + 1);
    assert s5.refs == [Free, Free];
    RunAppend(l, s, first, s3, [LogWrite(0)], s4);
    run := first + [LogWrite(0)] + [Release(0)];
    RunAppend(l, s, first + [LogWrite(0)], s4, [Release(0)], s5);
  }

  lemma {:induction false} LogMany(l: Layout, n: nat, d: Disk, h: nat, k: nat) returns (run: seq<Action>)
    requires k <= n && Home(l, d, h, n) && k <= l.capacity && k < l.size
    ensures Run(l, Logged(n, d, h, 0), run, Logged(n, d, h, k))
  {
    if k == 0 {
      run := [];
    } else {
      var first := LogMany(l, n, d, h, k - 1);
      var last := LogOne(l, n, d, h, k - 1);
      run := first + last;
      RunAppend(l, Logged(n, d, h, 0), first, Logged(n, d, h, k - 1), last, Logged(n, d, h, k));
    }
  }

  /**
   With `n` buffers and a log that takes `n - 1` blocks, as in xv6 (NBUF is 30, and a log of 30 blocks
   takes 29), a reader that holds one more block while `n - 1` logged blocks commit leaves no buffer
   for the first log block.
   */
  lemma CommitCanPanic(l: Layout, n: nat, d: Disk, h: nat) returns (run: seq<Action>, s: State)
    requires Clean(l, d) && 1 < n && Home(l, d, h, n) && n - 1 <= l.capacity && n - 1 < l.size
    ensures Run(l, Init(n, 2, d), run, s) && s.phase == Logging(0) && NoBuffers(l, s, 1, l.start + 1)
  {
    NothingLogged(n, d, h);
    var many := LogMany(l, n, d, h, n - 1);
    var reader, s2 := ReadBlock(l, n, d, h, n - 1);
    RunAppend(l, Init(n, 2, d), many, Logged(n, d, h, n - 1), reader, s2);
    s := s2.(phase := Logging(0));
    StartsCommit(l, n, d, h, s2);
    run := many + reader + [StartCommit];
    RunAppend(l, Init(n, 2, d), many + reader, s2, [StartCommit], s);
    ReaderFills(l, n, d, h, s);
  }

  lemma StartsCommit(l: Layout, n: nat, d: Disk, h: nat, s: State)
    requires 1 < n && s.phase.Open? && s.lh == Listed(h, n - 1) && |s.refs| == 2
    requires s.refs[0] == Held(n - 1, true, false) && s.refs[1].Free?
    ensures Run(l, s, [StartCommit], s.(phase := Logging(0)))
  {
    assert s.lh[0] == h;
    One(l, s, StartCommit, s.(phase := Logging(0)));
  }

  lemma NothingLogged(n: nat, d: Disk, h: nat)
    ensures Init(n, 2, d) == Logged(n, d, h, 0)
  {
    var x, y := Init(n, 2, d).bufs, Cached(n, d, h, 0);
    forall i | 0 <= i < n ensures x[i] == y[i] {
      assert x[i] == Clear() && y[i] == Clear();
    }
    assert x == y;
    assert Init(n, 2, d).refs == [Free, Free];
    assert |Listed(h, 0)| == 0;
  }

  lemma ReaderFills(l: Layout, n: nat, d: Disk, h: nat, s: State)
    requires 1 < n <= l.size && Home(l, d, h, n)
    requires s.bufs == Cached(n, d, h, n - 1)[n - 1 := InUse(d, h + (n - 1))]
    ensures NoBuffers(l, s, 1, l.start + 1)
  {
    assert InLog(l, l.start + 1);
    forall i: nat | i < n ensures s.bufs[i].blockno == h + i && !Recyclable(s.bufs[i]) {
    }
    FullCache(l, s, n, h, l.start + 1);
  }

  lemma FullCache(l: Layout, s: State, n: nat, h: nat, b: int)
    requires |s.bufs| == n && !(h <= b < h + n)
    requires forall i: nat | i < n :: s.bufs[i].blockno == h + i && !Recyclable(s.bufs[i])
    ensures NoBuffers(l, s, 1, b)
  {
  }

  /** With nothing in use, a log area no bigger than the cache keeps the commit safe. */
  lemma CommitAloneIsSafe(l: Layout, n: nat, m: nat, d: Disk, run: seq<Action>, s: State, t: nat, b: int)
    requires Clean(l, d) && Run(l, Init(n, m, d), run, s) && l.size <= |s.bufs|
    requires t < |s.refs| && InLog(l, b) && forall u | 0 <= u < |s.refs| :: s.refs[u].Free?
    ensures !NoBuffers(l, s, t, b)
  {
    InitOk(l, n, m, d);
    RunKeepsInv(l, Init(n, m, d), run, s);
    CommitPanicsExactly(l, n, m, d, run, s, t, b);
  }

  // ----- a run that ends in the panic of install_trans

  ghost predicate Goes(l: Layout, s: State, e: State) {
    exists run :: Run(l, s, run, e)
  }

  lemma GoesOn(l: Layout, s: State, m: State, a: Action, e: State)
    requires Goes(l, s, m) && Enabled(l, m, a) && Step(l, m, a) == e
    ensures Goes(l, s, e)
  {
    var run :| Run(l, s, run, m);
    One(l, m, a, e);
    RunAppend(l, s, run, m, [a], e);
  }

  /** Inside the first half of a commit of blocks `h` to `h + n - 2`: only the last buffer is free for log blocks. */
  ghost predicate Tight(l: Layout, s: State, n: nat, h: nat) {
    && 1 < n == |s.bufs| && n <= l.size && n - 1 <= l.capacity
    && s.refs == [Free, Free] && |s.lh| == n - 1
    && (forall i: nat | i < n - 1 :: Entry(s, h, i))
    && Recyclable(s.bufs[n - 1]) && l.start + l.size <= |s.disk| && h + n <= |s.disk|
    && forall b | h <= b < h + n :: !InLog(l, b)
  }

  /** Header entry `i` is block `h + i`, pinned in buffer `i`. */
  predicate Entry(s: State, h: nat, i: nat) {
    i < |s.lh| && s.lh[i] == h + i && PinnedFor(s, i, h + i)
  }

  predicate PinnedFor(s: State, i: nat, b: int) {
    i < |s.bufs| && Waits(s, i, b) && s.bufs[i].valid && s.bufs[i].refcnt == 0
  }

  /** The spare buffer may hold a log block that was written, but neither the header nor a later one. */
  predicate Passed(l: Layout, s: State, k: nat) {
    0 < |s.bufs| && var b := s.bufs[|s.bufs| - 1]; b.dev == ROOTDEV ==> l.start < b.blockno <= l.start + k
  }

  /** `bread` of log block `b` into the spare buffer. */
  lemma ReadSpare(l: Layout, s0: State, s: State, n: nat, h: nat, b: int) returns (e: State)
    requires Goes(l, s0, s) && Tight(l, s, n, h) && InLog(l, b) && !Holds(s.bufs[n - 1], ROOTDEV, b)
    ensures Goes(l, s0, e)
    ensures e == s.(bufs := s.bufs[n - 1 := InUse(s.disk, b)], refs := [Held(n - 1, true, false), Free])
  {
    forall j | 0 <= j < n ensures !Holds(s.bufs[j], ROOTDEV, b) {
      assert j < n - 1 ==> Entry(s, h, j);
    }
    var s1, s2 := Step(l, s, Get(0, b, n - 1)), Step(l, Step(l, s, Get(0, b, n - 1)), Lock(0));
    GoesOn(l, s0, s, Get(0, b, n - 1), s1);
    GoesOn(l, s0, s1, Lock(0), s2);
    e := Step(l, s2, Load(0));
    GoesOn(l, s0, s2, Load(0), e);
    assert e.refs == [Held(n - 1, true, false), Free];
  }

  /** `bread` of the home block in buffer `k`, which is cached. */
  lemma ReadHome(l: Layout, s0: State, s: State, k: nat, b: int) returns (e: State)
    requires Goes(l, s0, s) && |s.refs| == 2 && s.refs[0].Held? && s.refs[1].Free? && s.refs[0].buf != k
    requires PinnedFor(s, k, b) && 0 <= b < |s.disk|
    ensures Goes(l, s0, e)
    ensures e == s.(bufs := s.bufs[k := s.bufs[k].(refcnt := 1)], refs := [s.refs[0], Held(k, true, false)])
  {
    var s1 := Step(l, s, Get(1, b, k));
    GoesOn(l, s0, s, Get(1, b, k), s1);
    e := Step(l, s1, Lock(1));
    GoesOn(l, s0, s1, Lock(1), e);
    assert e.refs == [s.refs[0], Held(k, true, false)];
  }

  lemma StillTight(l: Layout, s: State, e: State, n: nat, h: nat)
    requires Tight(l, s, n, h) && |e.bufs| == n && e.refs == [Free, Free] && e.lh == s.lh && |e.disk| == |s.disk|
    requires e.bufs[..n - 1] == s.bufs[..n - 1] && Recyclable(e.bufs[n - 1])
    ensures Tight(l, e, n, h)
  {
    forall i: nat | i < n - 1 ensures Entry(e, h, i) {
      assert Entry(s, h, i);
      assert e.bufs[..n - 1][i] == s.bufs[..n - 1][i];
    }
  }

  /** One round of `write_log`, once both blocks are read. */
  lemma CopyRound(l: Layout, s0: State, s: State, n: nat, k: nat, b: int) returns (e: State)
    requires Goes(l, s0, s) && |s.bufs| == n && k < n - 1 && s.refs == [Held(n - 1, true, false), Held(k, true, false)]
    requires s.phase == Logging(k) && k < |s.lh| && Holds(s.bufs[k], ROOTDEV, s.lh[k]) && s.bufs[k].valid
    requires b == l.start + 1 + k && s.bufs[n - 1] == InUse(s.disk, b) && s.bufs[k].refcnt == 1
    ensures Goes(l, s0, e) && e.phase == Logging(k + 1) && e.refs == [Free, Free] && e.lh == s.lh
    ensures e.bufs == s.bufs[k := s.bufs[k].(refcnt := 0)][n - 1 := Buf(true, false, ROOTDEV, b, 0, s.bufs[k].data)]
    ensures |e.disk| == |s.disk|
  {
    var s1 := Step(l, s, CopyToLog(0, 1));
    GoesOn(l, s0, s, CopyToLog(0, 1), s1);
    assert s1.bufs == s.bufs[n - 1 := Buf(true, false, ROOTDEV, b, 1, s.bufs[k].data)];
    e := ReleaseBoth(l, s0, s1, n, k);
  }

  lemma ReleaseBoth(l: Layout, s0: State, s: State, n: nat, k: nat) returns (e: State)
    requires Goes(l, s0, s) && |s.bufs| == n && k < n - 1 && s.refs == [Held(n - 1, true, false), Held(k, true, false)]
    requires s.bufs[n - 1].refcnt == s.bufs[k].refcnt == 1
    ensures Goes(l, s0, e) && e.refs == [Free, Free] && e.lh == s.lh && e.phase == s.phase && e.disk == s.disk
    ensures e.bufs == s.bufs[k := s.bufs[k].(refcnt := 0)][n - 1 := s.bufs[n - 1].(refcnt := 0)]
  {
    var s1 := ReleaseOne(l, s0, s, 0);
    e := ReleaseOne(l, s0, s1, 1);
    assert e.refs == [Free, Free];
    SwapUpdates(s.bufs, n - 1, k, s.bufs[n - 1].(refcnt := 0), s.bufs[k].(refcnt := 0));
  }

  lemma SwapUpdates(bufs: seq<Buf>, i: nat, j: nat, x: Buf, y: Buf)
    requires i < |bufs| && j < |bufs| && i != j
    ensures bufs[i := x][j := y] == bufs[j := y][i := x]
  {
  }

  lemma ReleaseOne(l: Layout, s0: State, s: State, t: nat) returns (e: State)
    requires Goes(l, s0, s) && t < |s.refs| && s.refs[t].Held? && s.refs[t].locked && !s.refs[t].modified
    requires s.refs[t].buf < |s.bufs|
    ensures Goes(l, s0, e)
    ensures var i := s.refs[t].buf;
            e == s.(bufs := s.bufs[i := s.bufs[i].(refcnt := s.bufs[i].refcnt - 1)], refs := s.refs[t := Free])
  {
    e := Step(l, s, Release(t));
    GoesOn(l, s0, s, Release(t), e);
  }

  /** One round of `write_log`. */
  lemma CopyOne(l: Layout, s0: State, s: State, n: nat, h: nat, k: nat) returns (e: State)
    requires Goes(l, s0, s) && Tight(l, s, n, h) && Passed(l, s, k) && s.phase == Logging(k) && k < n - 1
    ensures Goes(l, s0, e) && Tight(l, e, n, h) && Passed(l, e, k + 1) && e.phase == Logging(k + 1)
  {
    var b := l.start + 1 + k;
    var s1 := ReadSpare(l, s0, s, n, h, b);
    assert Entry(s, h, k);
    var s2 := ReadHome(l, s0, s1, k, h + k);
    e := CopyRound(l, s0, s2, n, k, b);
    assert e.bufs[..n - 1] == s.bufs[..n - 1];
    StillTight(l, s, e, n, h);
  }

  lemma {:induction false} CopyAll(l: Layout, s0: State, s: State, n: nat, h: nat, k: nat) returns (e: State)
    requires Goes(l, s0, s) && Tight(l, s, n, h) && Passed(l, s, k) && s.phase == Logging(k) && k <= n - 1
    ensures Goes(l, s0, e) && Tight(l, e, n, h) && Passed(l, e, n - 1) && e.phase == Logging(n - 1)
    decreases n - k
  {
    if k == n - 1 {
      e := s;
    } else {
      var m := CopyOne(l, s0, s, n, h, k);
      e := CopyAll(l, s0, m, n, h, k + 1);
    }
  }

  /** The header write. */
  lemma HeaderOut(l: Layout, s0: State, s: State, n: nat, h: nat) returns (e: State)
    requires Goes(l, s0, s) && Tight(l, s, n, h) && Passed(l, s, n - 1) && s.phase == Logging(n - 1)
    ensures Goes(l, s0, e) && Tight(l, e, n, h) && e.phase == Installing(0)
    ensures e.bufs[n - 1].dev == ROOTDEV ==> e.bufs[n - 1].blockno == l.start
  {
    var s1 := ReadSpare(l, s0, s, n, h, l.start);
    var s2 := Step(l, s1, WriteHeader(0));
    GoesOn(l, s0, s1, WriteHeader(0), s2);
    e := Step(l, s2, Release(0));
    GoesOn(l, s0, s2, Release(0), e);
    assert e.refs == [Free, Free];
    StillTight(l, s, e, n, h);
  }

  /** A reader then takes the spare buffer. */
  lemma ReaderTakes(l: Layout, s0: State, s: State, n: nat, h: nat) returns (e: State)
    requires Goes(l, s0, s) && Tight(l, s, n, h) && s.phase == Installing(0)
    requires s.bufs[n - 1].dev == ROOTDEV ==> s.bufs[n - 1].blockno == l.start
    ensures Goes(l, s0, e) && e.phase == Installing(0) && |e.refs| == 2 && e.refs[1].Free?
    ensures NoBuffers(l, e, 1, l.start + 1)
  {
    var b := h + (n - 1);
    assert !InLog(l, b) && InLog(l, l.start) && InLog(l, l.start + 1);
    forall j | 0 <= j < n ensures !Holds(s.bufs[j], ROOTDEV, b) {
      assert j < n - 1 ==> Entry(s, h, j);
    }
    e := Step(l, s, Get(0, b, n - 1));
    GoesOn(l, s0, s, Get(0, b, n - 1), e);
    forall i: nat | i < n ensures e.bufs[i].blockno == h + i && !Recyclable(e.bufs[i]) {
      assert i < n - 1 ==> Entry(s, h, i);
    }
    FullCache(l, e, n, h, l.start + 1);
  }

  /**
   The second half of a commit can panic too: with the same sizes, a reader that takes the last buffer
   after the header write leaves none for the first log block that `install_trans` reads.
   */
  lemma InstallCanPanic(l: Layout, n: nat, d: Disk, h: nat) returns (s: State)
    requires Clean(l, d) && 1 < n && Home(l, d, h, n) && n - 1 <= l.capacity && n <= l.size
    ensures Goes(l, Init(n, 2, d), s) && s.phase == Installing(0) && |s.refs| == 2 && s.refs[1].Free?
    ensures NoBuffers(l, s, 1, l.start + 1)
  {
    NothingLogged(n, d, h);
    var many := LogMany(l, n, d, h, n - 1);
    var s0, s1 := Init(n, 2, d), Logged(n, d, h, n - 1);
    assert Goes(l, s0, s1);
    var s2 := s1.(phase := Logging(0));
    assert s1.lh[0] == h;
    GoesOn(l, s0, s1, StartCommit, s2);
    LoggedIsTight(l, n, d, h, s2);
    var s3 := CopyAll(l, s0, s2, n, h, 0);
    var s4 := HeaderOut(l, s0, s3, n, h);
    s := ReaderTakes(l, s0, s4, n, h);
  }

  lemma LoggedIsTight(l: Layout, n: nat, d: Disk, h: nat, s: State)
    requires 1 < n && WellFormed(l, d) && Home(l, d, h, n) && n - 1 <= l.capacity && n <= l.size
    requires s == Logged(n, d, h, n - 1).(phase := Logging(0))
    ensures Tight(l, s, n, h) && Passed(l, s, 0)
  {
    assert s.bufs[n - 1] == Clear();
    forall i: nat | i < n - 1 ensures Entry(s, h, i) {
    }
  }
}
