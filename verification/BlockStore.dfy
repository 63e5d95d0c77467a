/**
 The buffer cache and the log together, under any interleaving of their users.

 A reference is one `bget` in progress: it names a buffer, may hold its sleep lock and may have
 changed its data.  `store` is the abstract block store, the latest contents of every block;
 `committed` is what the last header write made durable.  Each action is one atomic step of
 `xv6/bio.c` or `xv6/log.c`; the commit is split at every block write.
 */
module BlockStore {
  import opened WriteAheadLog
  import opened BufferCache
  import LogAdmission

  const ROOTDEV := 1

  datatype Slot = Free | Held(buf: nat, locked: bool, modified: bool)

  /** No commit, `write_log` about to write log block `k`, or `install_trans` about to install block `k`. */
  datatype Phase = Open | Logging(k: nat) | Installing(k: nat)

  datatype State = State(
    bufs: seq<Buf>, refs: seq<Slot>, disk: Disk, lh: seq<int>, phase: Phase,
    store: Disk, committed: Disk)

  datatype Action =
    | Get(t: nat, b: int, i: nat)       // bget(ROOTDEV, b) returns buffer i
    | Lock(t: nat)                      // acquiresleep in bget
    | Load(t: nat)                      // iderw in bread
    | Modify(t: nat, data: Block)       // the holder changes b->data inside an operation
    | LogWrite(t: nat)
    | Release(t: nat)                   // brelse
    | StartCommit
    | CopyToLog(t: nat, u: nat)         // one round of write_log: t the log block, u the home block
    | WriteHeader(t: nat)
    | Install(t: nat, u: nat)           // one round of install_trans: t the log block, u the home block
    | EraseHeader(t: nat)

  /** Reference `t` holds the lock of a valid buffer for block `b`. */
  predicate Holding(s: State, t: nat, b: int) {
    && t < |s.refs| && s.refs[t].Held? && s.refs[t].locked
    && s.refs[t].buf < |s.bufs|
    && Holds(s.bufs[s.refs[t].buf], ROOTDEV, b) && s.bufs[s.refs[t].buf].valid
  }

  /** The block of the buffer that reference `t` is about. */
  function BlockOf(s: State, t: nat): int {
    if t < |s.refs| && s.refs[t].Held? && s.refs[t].buf < |s.bufs| then s.bufs[s.refs[t].buf].blockno else -1
  }

  ghost predicate Locked(s: State, i: nat) {
    exists t :: 0 <= t < |s.refs| && s.refs[t].Held? && s.refs[t].buf == i && s.refs[t].locked
  }

  ghost predicate NothingModified(s: State) {
    forall t | 0 <= t < |s.refs| :: s.refs[t].Held? ==> !s.refs[t].modified
  }

  function SetBuf(s: State, t: nat, b: Buf): State {
    if t < |s.refs| && s.refs[t].Held? && s.refs[t].buf < |s.bufs|
    then s.(bufs := s.bufs[s.refs[t].buf := b]) else s
  }

  function BufOf(s: State, t: nat): Buf {
    if t < |s.refs| && s.refs[t].Held? && s.refs[t].buf < |s.bufs|
    then s.bufs[s.refs[t].buf] else Buf(false, false, 0, 0, 0, [])
  }

  /** `bwrite` of the buffer of `t` with new contents: buffer, disk and store agree afterwards. */
  function WriteThrough(s: State, t: nat, data: Block): State {
    var b := BlockOf(s, t);
    SetBuf(s, t, BufOf(s, t).(data := data, dirty := false))
      .(disk := Put(s.disk, b, data), store := Put(s.store, b, data))
  }

  /**
   The header has room for `b`.  This is not what `log_write` tests, because its test runs before it
   takes `log.lock`; `AppendHasRoom` says when every append has room.
   */
  predicate Room(l: Layout, lh: seq<int>, b: int) {
    |LogAdmission.Absorb(lh, b)| <= l.capacity && |LogAdmission.Absorb(lh, b)| < l.size
  }

  ghost predicate Enabled(l: Layout, s: State, a: Action) {
    match a
    case Get(t, b, i) =>
      && t < |s.refs| && s.refs[t].Free? && 0 <= b < |s.disk| && i < |s.bufs|
      && (Holds(s.bufs[i], ROOTDEV, b)
          || (Recyclable(s.bufs[i]) && forall j | 0 <= j < |s.bufs| :: !Holds(s.bufs[j], ROOTDEV, b)))
    case Lock(t) =>
      t < |s.refs| && s.refs[t].Held? && !Locked(s, s.refs[t].buf)
    case Load(t) =>
      t < |s.refs| && s.refs[t].Held? && s.refs[t].locked && s.refs[t].buf < |s.bufs| && !BufOf(s, t).valid
    case Modify(t, data) =>
      Holding(s, t, BlockOf(s, t)) && !InLog(l, BlockOf(s, t)) && s.phase.Open? && |data| == l.words
    case LogWrite(t) =>
      && Holding(s, t, BlockOf(s, t)) && !InLog(l, BlockOf(s, t)) && s.phase.Open?
      && Room(l, s.lh, BlockOf(s, t))
    case Release(t) =>
      t < |s.refs| && s.refs[t].Held? && s.refs[t].locked && !s.refs[t].modified
    case StartCommit =>
      s.phase.Open? && s.lh != [] && NothingModified(s)
    case CopyToLog(t, u) =>
      && s.phase.Logging? && s.phase.k < |s.lh|
      && Holding(s, t, l.start + 1 + s.phase.k) && Holding(s, u, s.lh[s.phase.k])
    case WriteHeader(t) =>
      s.phase == Logging(|s.lh|) && Holding(s, t, l.start)
    case Install(t, u) =>
      && s.phase.Installing? && s.phase.k < |s.lh|
      && Holding(s, t, l.start + 1 + s.phase.k) && Holding(s, u, s.lh[s.phase.k])
    case EraseHeader(t) =>
      s.phase == Installing(|s.lh|) && Holding(s, t, l.start)
  }

  function Step(l: Layout, s: State, a: Action): State {
    match a
    case Get(t, b, i) =>
      if t < |s.refs| && i < |s.bufs| then
        s.(refs := s.refs[t := Held(i, false, false)],
           bufs := s.bufs[i := if Holds(s.bufs[i], ROOTDEV, b) then s.bufs[i].(refcnt := s.bufs[i].refcnt + 1)
                               else Recycled(s.bufs[i], ROOTDEV, b)])
      else s
    case Lock(t) =>
      if t < |s.refs| && s.refs[t].Held? then s.(refs := s.refs[t := s.refs[t].(locked := true)]) else s
    case Load(t) =>
      SetBuf(s, t, Loaded(BufOf(s, t), s.disk))
    case Modify(t, data) =>
      var s1 := SetBuf(s, t, BufOf(s, t).(data := data)).(store := Put(s.store, BlockOf(s, t), data));
      if t < |s.refs| && s.refs[t].Held? then s1.(refs := s1.refs[t := s1.refs[t].(modified := true)]) else s
    case LogWrite(t) =>
      var s1 := SetBuf(s, t, BufOf(s, t).(dirty := true)).(lh := LogAdmission.Absorb(s.lh, BlockOf(s, t)));
      if t < |s.refs| && s.refs[t].Held? then s1.(refs := s1.refs[t := s1.refs[t].(modified := false)]) else s
    case Release(t) =>
      var s1 := SetBuf(s, t, BufOf(s, t).(refcnt := BufOf(s, t).refcnt - 1));
      if t < |s.refs| then s1.(refs := s1.refs[t := Free]) else s
    case StartCommit =>
      s.(phase := Logging(0))
    case CopyToLog(t, u) =>
      if s.phase.Logging? then WriteThrough(s, t, BufOf(s, u).data).(phase := Logging(s.phase.k + 1)) else s
    case WriteHeader(t) =>
      WriteThrough(s, t, EncodeHead(BufOf(s, t).data, s.lh)).(phase := Installing(0), committed := s.store)
    case Install(t, u) =>
      if s.phase.Installing? then WriteThrough(s, u, BufOf(s, t).data).(phase := Installing(s.phase.k + 1)) else s
    case EraseHeader(t) =>
      WriteThrough(s, t, EncodeHead(BufOf(s, t).data, [])).(phase := Open, lh := [])
  }

  // ----- the invariant

  function CountOne(r: Slot, i: nat): nat {
    if r.Held? && r.buf == i then 1 else 0
  }

  /** How many references name buffer `i`. */
  function Count(refs: seq<Slot>, i: nat): nat {
    if refs == [] then 0 else CountOne(refs[0], i) + Count(refs[1..], i)
  }

  lemma {:induction false} CountUpdate(refs: seq<Slot>, t: nat, r: Slot, i: nat)
    requires t < |refs|
    ensures Count(refs[t := r], i) == Count(refs, i) - CountOne(refs[t], i) + CountOne(r, i)
  {
    if t == 0 {
      assert refs[t := r][1..] == refs[1..];
    } else {
      CountUpdate(refs[1..], t - 1, r, i);
      assert refs[t := r][1..] == refs[1..][t - 1 := r];
    }
  }

  lemma {:induction false} CountPositive(refs: seq<Slot>, t: nat)
    requires t < |refs| && refs[t].Held?
    ensures Count(refs, refs[t].buf) >= 1
  {
    if t > 0 {
      CountPositive(refs[1..], t - 1);
    }
  }

  ghost predicate Shape(l: Layout, s: State) {
    && WellFormed(l, s.disk) && WellFormed(l, s.store)
    && |s.store| == |s.disk| == |s.committed|
    && Loggable(l, |s.disk|, s.lh)
  }

  /** At most one buffer per block of the disk. */
  ghost predicate Unique(s: State) {
    && (forall i | 0 <= i < |s.bufs| && s.bufs[i].dev == ROOTDEV :: 0 <= s.bufs[i].blockno < |s.disk|)
    && forall i, j | 0 <= i < j < |s.bufs| && s.bufs[i].dev == ROOTDEV && s.bufs[j].dev == ROOTDEV ::
         s.bufs[i].blockno != s.bufs[j].blockno
  }

  /** References are counted, refer to disk buffers, and exclude each other. */
  ghost predicate RefsOk(s: State) {
    && (forall i | 0 <= i < |s.bufs| :: s.bufs[i].refcnt == Count(s.refs, i))
    && (forall t | 0 <= t < |s.refs| && s.refs[t].Held? ::
          && s.refs[t].buf < |s.bufs| && s.bufs[s.refs[t].buf].dev == ROOTDEV
          && (s.refs[t].modified ==> s.refs[t].locked && s.bufs[s.refs[t].buf].valid
                                     && s.phase.Open?))
    && forall t, u | 0 <= t < u < |s.refs| && s.refs[t].Held? && s.refs[u].Held? && s.refs[t].buf == s.refs[u].buf ::
         !(s.refs[t].locked && s.refs[u].locked)
  }

  /** A valid buffer holds the latest contents; a dirty one is valid and listed in the log header. */
  ghost predicate CacheOk(l: Layout, s: State) {
    forall i | 0 <= i < |s.bufs| && s.bufs[i].dev == ROOTDEV ::
      && (s.bufs[i].valid ==> s.bufs[i].data == Read(s.store, s.bufs[i].blockno))
      && (s.bufs[i].dirty ==> s.bufs[i].valid && s.bufs[i].blockno in s.lh)
  }

  /** Buffer `i` carries contents for block `b` that the disk does not have yet, and cannot be recycled. */
  ghost predicate Pins(s: State, i: nat, b: int) {
    && i < |s.bufs| && Holds(s.bufs[i], ROOTDEV, b) && s.bufs[i].valid
    && (s.bufs[i].dirty || exists t :: 0 <= t < |s.refs| && s.refs[t].Held? && s.refs[t].buf == i && s.refs[t].modified)
  }

  /** Whatever the disk lacks is in a pinned buffer, and is a home block. */
  ghost predicate NothingLost(l: Layout, s: State) {
    forall b | 0 <= b < |s.disk| && Read(s.disk, b) != Read(s.store, b) ::
      !InLog(l, b) && exists i: nat :: Pins(s, i, b)
  }

  /** Log blocks already written by the commit in progress. */
  ghost predicate LoggedUpTo(l: Layout, s: State, k: nat) {
    forall j | 0 <= j < k && j < |s.lh| :: Read(s.disk, l.start + 1 + j) == Read(s.store, s.lh[j])
  }

  /** The disk, as recovery would read it, stands for the committed contents. */
  ghost predicate PhaseOk(l: Layout, s: State) {
    match s.phase
    case Open => Clean(l, s.disk) && SameHome(l, s.disk, s.committed)
    case Logging(k) =>
      && Clean(l, s.disk) && SameHome(l, s.disk, s.committed)
      && k <= |s.lh| && s.lh != [] && LoggedUpTo(l, s, k)
    case Installing(k) => InstallOk(l, s, k)
  }

  /** The header is on disk, the log is complete, and the first `k` blocks are home. */
  ghost predicate InstallOk(l: Layout, s: State, k: nat) {
    && HeaderOk(l, s.disk) && Head(l, s.disk) == s.lh && SameHome(l, s.store, s.committed)
    && k <= |s.lh| && LoggedUpTo(l, s, |s.lh|)
    && (forall j | 0 <= j < k :: Read(s.disk, s.lh[j]) == Read(s.store, s.lh[j]))
    && (forall i | 0 <= i < |s.bufs| && s.bufs[i].dev == ROOTDEV && s.bufs[i].dirty ::
          s.bufs[i].blockno !in s.lh[..k])
  }

  ghost predicate Inv(l: Layout, s: State) {
    Shape(l, s) && Unique(s) && RefsOk(s) && CacheOk(l, s) && NothingLost(l, s) && PhaseOk(l, s)
  }

  // ----- steps on references and buffers

  lemma NoRefs(s: State, i: nat)
    requires RefsOk(s) && i < |s.bufs| && s.bufs[i].refcnt == 0
    ensures forall t | 0 <= t < |s.refs| && s.refs[t].Held? :: s.refs[t].buf != i
  {
    forall t | 0 <= t < |s.refs| && s.refs[t].Held? ensures s.refs[t].buf != i {
      CountPositive(s.refs, t);
    }
  }

  lemma GetRefs(l: Layout, s: State, t: nat, b: int, i: nat)
    requires RefsOk(s) && Enabled(l, s, Get(t, b, i))
    ensures RefsOk(Step(l, s, Get(t, b, i)))
  {
    var s' := Step(l, s, Get(t, b, i));
    forall j | 0 <= j < |s'.bufs| ensures s'.bufs[j].refcnt == Count(s'.refs, j) {
      CountUpdate(s.refs, t, Held(i, false, false), j);
    }
    if s.bufs[i].refcnt == 0 {
      NoRefs(s, i);
    }
  }

  lemma PinsKept(s: State, s': State, j: nat, b: int)
    requires Pins(s, j, b) && j < |s'.bufs|
    requires s'.bufs[j].dev == s.bufs[j].dev && s'.bufs[j].blockno == s.bufs[j].blockno
    requires s'.bufs[j].valid && s'.bufs[j].dirty == s.bufs[j].dirty
    requires |s'.refs| == |s.refs|
    requires forall t | 0 <= t < |s.refs| && s.refs[t].Held? && s.refs[t].modified && s.refs[t].buf == j ::
               s'.refs[t].Held? && s'.refs[t].modified && s'.refs[t].buf == j
    ensures Pins(s', j, b)
  {
    if !s.bufs[j].dirty {
      var t :| 0 <= t < |s.refs| && s.refs[t].Held? && s.refs[t].buf == j && s.refs[t].modified;
      assert s'.refs[t].Held? && s'.refs[t].buf == j && s'.refs[t].modified;
    }
  }

  lemma GetCache(l: Layout, s: State, t: nat, b: int, i: nat)
    requires Inv(l, s) && Enabled(l, s, Get(t, b, i))
    ensures var s' := Step(l, s, Get(t, b, i)); Unique(s') && CacheOk(l, s') && NothingLost(l, s')
  {
    var s' := Step(l, s, Get(t, b, i));
    if Recyclable(s.bufs[i]) {
      NoRefs(s, i);
    }
    forall c | 0 <= c < |s'.disk| && Read(s'.disk, c) != Read(s'.store, c)
      ensures !InLog(l, c) && exists j: nat :: Pins(s', j, c)
    {
      var j: nat :| Pins(s, j, c);
      PinsKept(s, s', j, c);
    }
  }

  lemma GetKeepsInv(l: Layout, s: State, t: nat, b: int, i: nat)
    requires Inv(l, s) && Enabled(l, s, Get(t, b, i))
    ensures Inv(l, Step(l, s, Get(t, b, i)))
  {
    GetRefs(l, s, t, b, i);
    GetCache(l, s, t, b, i);
  }

  lemma LockKeepsInv(l: Layout, s: State, t: nat)
    requires Inv(l, s) && Enabled(l, s, Lock(t))
    ensures Inv(l, Step(l, s, Lock(t)))
  {
    var s' := Step(l, s, Lock(t));
    forall j | 0 <= j < |s'.bufs| ensures s'.bufs[j].refcnt == Count(s'.refs, j) {
      CountUpdate(s.refs, t, s'.refs[t], j);
    }
    forall c | 0 <= c < |s'.disk| && Read(s'.disk, c) != Read(s'.store, c)
      ensures !InLog(l, c) && exists j: nat :: Pins(s', j, c)
    {
      var j: nat :| Pins(s, j, c);
      PinsKept(s, s', j, c);
    }
  }

  /** The buffer that `bread` fills from disk gets the latest contents. */
  lemma LoadReadsStore(l: Layout, s: State, t: nat)
    requires Inv(l, s) && Enabled(l, s, Load(t))
    ensures Read(s.disk, BlockOf(s, t)) == Read(s.store, BlockOf(s, t))
  {
    var b := BlockOf(s, t);
    forall j: nat ensures !Pins(s, j, b) {
    }
  }

  lemma LoadKeepsInv(l: Layout, s: State, t: nat)
    requires Inv(l, s) && Enabled(l, s, Load(t))
    ensures Inv(l, Step(l, s, Load(t)))
  {
    var s' := Step(l, s, Load(t));
    LoadReadsStore(l, s, t);
    forall c | 0 <= c < |s'.disk| && Read(s'.disk, c) != Read(s'.store, c)
      ensures !InLog(l, c) && exists j: nat :: Pins(s', j, c)
    {
      var j: nat :| Pins(s, j, c);
      PinsKept(s, s', j, c);
    }
  }

  lemma ReleaseRefs(l: Layout, s: State, t: nat)
    requires RefsOk(s) && Enabled(l, s, Release(t))
    ensures RefsOk(Step(l, s, Release(t)))
  {
    var s' := Step(l, s, Release(t));
    forall j | 0 <= j < |s'.bufs| ensures s'.bufs[j].refcnt == Count(s'.refs, j) {
      CountUpdate(s.refs, t, Free, j);
    }
  }

  lemma ReleaseLosesNothing(l: Layout, s: State, t: nat)
    requires NothingLost(l, s) && RefsOk(s) && Enabled(l, s, Release(t))
    ensures NothingLost(l, Step(l, s, Release(t)))
  {
    var s' := Step(l, s, Release(t));
    forall c | 0 <= c < |s'.disk| && Read(s'.disk, c) != Read(s'.store, c)
      ensures !InLog(l, c) && exists j: nat :: Pins(s', j, c)
    {
      var j: nat :| Pins(s, j, c);
      PinsKept(s, s', j, c);
    }
  }

  lemma ReleaseKeepsInv(l: Layout, s: State, t: nat)
    requires Inv(l, s) && Enabled(l, s, Release(t))
    ensures Inv(l, Step(l, s, Release(t)))
  {
    ReleaseRefs(l, s, t);
    ReleaseLosesNothing(l, s, t);
  }

  lemma ModifyLosesNothing(l: Layout, s: State, t: nat, data: Block)
    requires Inv(l, s) && Enabled(l, s, Modify(t, data))
    ensures NothingLost(l, Step(l, s, Modify(t, data)))
  {
    var s' := Step(l, s, Modify(t, data));
    forall c | 0 <= c < |s'.disk| && Read(s'.disk, c) != Read(s'.store, c)
      ensures !InLog(l, c) && exists j: nat :: Pins(s', j, c)
    {
      if c == BlockOf(s, t) {
        assert s'.refs[t].modified;
        assert Pins(s', s.refs[t].buf, c);
      } else {
        assert Read(s.disk, c) != Read(s.store, c);
        var j: nat :| Pins(s, j, c);
        PinsKept(s, s', j, c);
      }
    }
  }

  lemma ModifyKeepsInv(l: Layout, s: State, t: nat, data: Block)
    requires Inv(l, s) && Enabled(l, s, Modify(t, data))
    ensures Inv(l, Step(l, s, Modify(t, data)))
  {
    ModifyLosesNothing(l, s, t, data);
    ModifyRefs(l, s, t, data);
  }

  lemma ModifyRefs(l: Layout, s: State, t: nat, data: Block)
    requires RefsOk(s) && Enabled(l, s, Modify(t, data))
    ensures RefsOk(Step(l, s, Modify(t, data)))
  {
    var s' := Step(l, s, Modify(t, data));
    forall j | 0 <= j < |s'.bufs| ensures s'.bufs[j].refcnt == Count(s'.refs, j) {
      CountUpdate(s.refs, t, s'.refs[t], j);
    }
  }

  lemma AbsorbLoggable(l: Layout, n: nat, lh: seq<int>, b: int)
    requires Loggable(l, n, lh) && Room(l, lh, b) && 0 <= b < n && !InLog(l, b)
    ensures Loggable(l, n, LogAdmission.Absorb(lh, b))
  {
  }

  lemma LogWriteKeepsInv(l: Layout, s: State, t: nat)
    requires Inv(l, s) && Enabled(l, s, LogWrite(t))
    ensures Inv(l, Step(l, s, LogWrite(t)))
  {
    var s' := Step(l, s, LogWrite(t));
    AbsorbLoggable(l, |s.disk|, s.lh, BlockOf(s, t));
    LogWriteLosesNothing(l, s, t);
    assert RefsOk(s') by {
      forall j | 0 <= j < |s'.bufs| ensures s'.bufs[j].refcnt == Count(s'.refs, j) {
        CountUpdate(s.refs, t, s'.refs[t], j);
      }
    }
  }

  lemma LogWriteLosesNothing(l: Layout, s: State, t: nat)
    requires Inv(l, s) && Enabled(l, s, LogWrite(t))
    ensures NothingLost(l, Step(l, s, LogWrite(t)))
  {
    var s' := Step(l, s, LogWrite(t));
    forall c | 0 <= c < |s'.disk| && Read(s'.disk, c) != Read(s'.store, c)
      ensures !InLog(l, c) && exists j: nat :: Pins(s', j, c)
    {
      var j: nat :| Pins(s, j, c);
      if j == s.refs[t].buf {
        assert Pins(s', j, c);
      } else {
        PinsKept(s, s', j, c);
      }
    }
  }

  lemma StartCommitKeepsInv(l: Layout, s: State)
    requires Inv(l, s) && Enabled(l, s, StartCommit)
    ensures Inv(l, Step(l, s, StartCommit))
  {
    var s' := Step(l, s, StartCommit);
    forall c | 0 <= c < |s'.disk| && Read(s'.disk, c) != Read(s'.store, c)
      ensures !InLog(l, c) && exists j: nat :: Pins(s', j, c)
    {
      var j: nat :| Pins(s, j, c);
      PinsKept(s, s', j, c);
    }
  }

  // ----- the steps of a commit

  /** A write through the cache keeps everything but the phase. */
  lemma WriteThroughKeeps(l: Layout, s: State, t: nat, b: int, data: Block, s': State)
    requires Inv(l, s) && !s.phase.Open? && Holding(s, t, b) && |data| == l.words
    requires var w := WriteThrough(s, t, data); s' == w.(phase := s'.phase, committed := s'.committed)
    requires |s'.committed| == |s.disk| && !s'.phase.Open?
    ensures Shape(l, s') && Unique(s') && RefsOk(s') && CacheOk(l, s') && NothingLost(l, s')
  {
    forall c | 0 <= c < |s'.disk| && Read(s'.disk, c) != Read(s'.store, c)
      ensures !InLog(l, c) && exists j: nat :: Pins(s', j, c)
    {
      assert c != b && Read(s.disk, c) != Read(s.store, c);
      var j: nat :| Pins(s, j, c);
      PinsKept(s, s', j, c);
    }
  }

  /** A log block is never ahead of the disk. */
  lemma LogIsOnDisk(l: Layout, s: State, t: nat, b: int)
    requires Inv(l, s) && Holding(s, t, b) && InLog(l, b)
    ensures BufOf(s, t).data == Read(s.disk, b) && 0 <= b < |s.disk|
  {
  }

  lemma CopyToLogPhase(l: Layout, s: State, t: nat, u: nat)
    requires Inv(l, s) && Enabled(l, s, CopyToLog(t, u))
    ensures PhaseOk(l, Step(l, s, CopyToLog(t, u)))
  {
    var s' := Step(l, s, CopyToLog(t, u));
    var k := s.phase.k;
    assert BlockOf(s, t) == l.start + 1 + k && InLog(l, l.start + 1 + k);
    forall j: nat | j < k + 1 ensures Read(s'.disk, l.start + 1 + j) == Read(s'.store, s'.lh[j]) {
      CopiedBlock(l, s, t, u, j);
    }
  }

  lemma CopiedBlock(l: Layout, s: State, t: nat, u: nat, j: nat)
    requires Shape(l, s) && CacheOk(l, s) && Enabled(l, s, CopyToLog(t, u)) && j <= s.phase.k
    requires LoggedUpTo(l, s, s.phase.k)
    ensures var s' := Step(l, s, CopyToLog(t, u)); Read(s'.disk, l.start + 1 + j) == Read(s'.store, s'.lh[j])
  {
    assert BlockOf(s, t) == l.start + 1 + s.phase.k && !InLog(l, s.lh[j]);
  }

  lemma CopyToLogKeepsInv(l: Layout, s: State, t: nat, u: nat)
    requires Inv(l, s) && Enabled(l, s, CopyToLog(t, u))
    ensures Inv(l, Step(l, s, CopyToLog(t, u)))
  {
    CopyToLogPhase(l, s, t, u);
    var k := s.phase.k;
    assert |BufOf(s, u).data| == l.words by {
      assert BufOf(s, u).data == Read(s.store, s.lh[k]);
    }
    WriteThroughKeeps(l, s, t, l.start + 1 + k, BufOf(s, u).data, Step(l, s, CopyToLog(t, u)));
  }

  lemma WriteHeaderKeepsInv(l: Layout, s: State, t: nat)
    requires Inv(l, s) && Enabled(l, s, WriteHeader(t))
    ensures Inv(l, Step(l, s, WriteHeader(t)))
  {
    assert InLog(l, l.start);
    LogIsOnDisk(l, s, t, l.start);
    WriteThroughKeeps(l, s, t, l.start, EncodeHead(BufOf(s, t).data, s.lh), Step(l, s, WriteHeader(t)));
    HeaderPhase(l, s, t);
  }

  lemma HeaderPhase(l: Layout, s: State, t: nat)
    requires Inv(l, s) && Enabled(l, s, WriteHeader(t))
    ensures InstallOk(l, Step(l, s, WriteHeader(t)), 0)
  {
    var s' := Step(l, s, WriteHeader(t));
    assert InLog(l, l.start) && BlockOf(s, t) == l.start;
    LogIsOnDisk(l, s, t, l.start);
    HeadRoundTrip(l, s.disk, s.disk, s.lh);
    assert s'.disk == Put(s.disk, l.start, EncodeHead(Read(s.disk, l.start), s.lh));
  }

  lemma InstallCopies(l: Layout, s: State, t: nat, u: nat)
    requires Inv(l, s) && Enabled(l, s, Install(t, u))
    ensures BufOf(s, t).data == Read(s.store, s.lh[s.phase.k])
    ensures |BufOf(s, t).data| == l.words
  {
    assert InLog(l, l.start + 1 + s.phase.k);
    LogIsOnDisk(l, s, t, l.start + 1 + s.phase.k);
    assert 0 <= s.lh[s.phase.k] < |s.disk|;
  }

  lemma InstallPhase(l: Layout, s: State, t: nat, u: nat)
    requires Inv(l, s) && Enabled(l, s, Install(t, u))
    ensures PhaseOk(l, Step(l, s, Install(t, u)))
  {
    var s' := Step(l, s, Install(t, u));
    var k := s.phase.k;
    InstallLog(l, s, t, u);
    forall j | 0 <= j < k + 1 ensures Read(s'.disk, s.lh[j]) == Read(s'.store, s.lh[j]) {
      InstallHome(l, s, t, u, j);
    }
    forall i | 0 <= i < |s'.bufs| && s'.bufs[i].dev == ROOTDEV && s'.bufs[i].dirty
      ensures s'.bufs[i].blockno !in s.lh[..k + 1]
    {
      InstallClean(l, s, t, u, i);
    }
    assert InstallOk(l, s', k + 1);
  }

  lemma InstallHome(l: Layout, s: State, t: nat, u: nat, j: nat)
    requires Inv(l, s) && Enabled(l, s, Install(t, u)) && j <= s.phase.k
    ensures var s' := Step(l, s, Install(t, u)); Read(s'.disk, s.lh[j]) == Read(s'.store, s.lh[j])
  {
    InstallCopies(l, s, t, u);
    assert !InLog(l, s.lh[s.phase.k]) && BlockOf(s, u) == s.lh[s.phase.k];
  }

  /** Installing changes neither the log nor the header. */
  lemma InstallLog(l: Layout, s: State, t: nat, u: nat)
    requires Inv(l, s) && Enabled(l, s, Install(t, u))
    ensures var s' := Step(l, s, Install(t, u));
            && s'.store == s.store && s'.committed == s.committed && s'.lh == s.lh
            && s'.phase == Installing(s.phase.k + 1)
            && HeaderOk(l, s'.disk) && Head(l, s'.disk) == s.lh && LoggedUpTo(l, s', |s.lh|)
  {
    InstallCopies(l, s, t, u);
    HomeWrite(l, s, s.lh[s.phase.k], Read(s.store, s.lh[s.phase.k]));
  }

  lemma HomeWrite(l: Layout, s: State, b: int, data: Block)
    requires WellFormed(l, s.disk) && HeaderOk(l, s.disk) && LoggedUpTo(l, s, |s.lh|) && Loggable(l, |s.disk|, s.lh)
    requires 0 <= b < |s.disk| && !InLog(l, b) && |data| == l.words
    ensures var s' := s.(disk := Put(s.disk, b, data));
            HeaderOk(l, s'.disk) && Head(l, s'.disk) == Head(l, s.disk) && LoggedUpTo(l, s', |s.lh|)
  {
    assert InLog(l, l.start);
    assert Put(s.disk, b, data)[l.start] == s.disk[l.start];
    forall j | 0 <= j < |s.lh| ensures Read(Put(s.disk, b, data), l.start + 1 + j) == Read(s.store, s.lh[j]) {
      assert InLog(l, l.start + 1 + j);
    }
  }

  /** A buffer that is still dirty holds a block that is not yet installed. */
  lemma InstallClean(l: Layout, s: State, t: nat, u: nat, i: nat)
    requires Inv(l, s) && Enabled(l, s, Install(t, u)) && i < |s.bufs|
    requires var b := Step(l, s, Install(t, u)).bufs[i]; b.dev == ROOTDEV && b.dirty
    ensures Step(l, s, Install(t, u)).bufs[i].blockno !in s.lh[..s.phase.k + 1]
  {
    var k := s.phase.k;
    assert s.lh[..k + 1] == s.lh[..k] + [s.lh[k]];
  }

  lemma InstallKeepsInv(l: Layout, s: State, t: nat, u: nat)
    requires Inv(l, s) && Enabled(l, s, Install(t, u))
    ensures Inv(l, Step(l, s, Install(t, u)))
  {
    InstallPhase(l, s, t, u);
    InstallCopies(l, s, t, u);
    WriteThroughKeeps(l, s, u, s.lh[s.phase.k], BufOf(s, t).data, Step(l, s, Install(t, u)));
  }

  /** Once everything is installed, the disk has all of the store. */
  lemma AllInstalled(l: Layout, s: State)
    requires Inv(l, s) && s.phase == Installing(|s.lh|)
    ensures SameHome(l, s.disk, s.store)
    ensures forall i | 0 <= i < |s.bufs| && s.bufs[i].dev == ROOTDEV :: !s.bufs[i].dirty
  {
    assert s.lh[..|s.lh|] == s.lh;
    forall b | 0 <= b < |s.disk| && !InLog(l, b) ensures s.disk[b] == s.store[b] {
      assert Read(s.disk, b) == Read(s.store, b);
    }
  }

  lemma EraseHeaderKeepsInv(l: Layout, s: State, t: nat)
    requires Inv(l, s) && Enabled(l, s, EraseHeader(t))
    ensures Inv(l, Step(l, s, EraseHeader(t)))
  {
    var s' := Step(l, s, EraseHeader(t));
    var s1 := s'.(phase := s.phase, lh := s.lh);
    assert InLog(l, l.start);
    LogIsOnDisk(l, s, t, l.start);
    AllInstalled(l, s);
    WriteThroughKeeps(l, s, t, l.start, EncodeHead(BufOf(s, t).data, []), s1);
    forall c | 0 <= c < |s'.disk| ensures Read(s'.disk, c) == Read(s'.store, c) {
    }
  }

  // ----- the theorems

  lemma CommitWritesNothingNew(l: Layout, s: State, a: Action, b: int)
    requires Inv(l, s) && Enabled(l, s, a) && 0 <= b < |s.disk| && !InLog(l, b)
    requires a.CopyToLog? || a.WriteHeader? || a.Install? || a.EraseHeader?
    ensures Read(Step(l, s, a).store, b) == Read(s.store, b)
  {
    match a {
      case Install(t, u) => InstallCopies(l, s, t, u);
      case CopyToLog(t, _) => assert InLog(l, l.start + 1 + s.phase.k);
      case WriteHeader(_) => assert InLog(l, l.start);
      case EraseHeader(_) => assert InLog(l, l.start);
    }
  }

  /** What a block outside the log holds changes only when a process writes into its buffer. */
  lemma OnlyModifyWrites(l: Layout, s: State, a: Action, b: int)
    requires Inv(l, s) && Enabled(l, s, a) && 0 <= b < |s.disk| && !InLog(l, b)
    ensures Read(Step(l, s, a).store, b) == if a.Modify? && BlockOf(s, a.t) == b then a.data else Read(s.store, b)
    ensures Step(l, s, a).committed == if a.WriteHeader? then s.store else s.committed
  {
    if a.CopyToLog? || a.WriteHeader? || a.Install? || a.EraseHeader? {
      CommitWritesNothingNew(l, s, a, b);
    }
  }

  lemma StepKeepsInv(l: Layout, s: State, a: Action)
    requires Inv(l, s) && Enabled(l, s, a)
    ensures Inv(l, Step(l, s, a))
  {
    match a
    case Get(t, b, i) => GetKeepsInv(l, s, t, b, i);
    case Lock(t) => LockKeepsInv(l, s, t);
    case Load(t) => LoadKeepsInv(l, s, t);
    case Modify(t, data) => ModifyKeepsInv(l, s, t, data);
    case LogWrite(t) => LogWriteKeepsInv(l, s, t);
    case Release(t) => ReleaseKeepsInv(l, s, t);
    case StartCommit => StartCommitKeepsInv(l, s);
    case CopyToLog(t, u) => CopyToLogKeepsInv(l, s, t, u);
    case WriteHeader(t) => WriteHeaderKeepsInv(l, s, t);
    case Install(t, u) => InstallKeepsInv(l, s, t, u);
    case EraseHeader(t) => EraseHeaderKeepsInv(l, s, t);
  }

  /** The machine after boot on a clean disk: `n` zeroed buffers, room for `m` references. */
  function Init(n: nat, m: nat, d: Disk): State {
    State(seq(n, _ => Buf(false, false, 0, 0, 0, [])), seq(m, _ => Free), d, [], Open, d, d)
  }

  ghost predicate Run(l: Layout, s: State, run: seq<Action>, e: State)
    decreases |run|
  {
    if run == [] then e == s
    else Enabled(l, s, run[0]) && Run(l, Step(l, s, run[0]), run[1..], e)
  }

  lemma {:induction false} NoCounts(m: nat, i: nat)
    ensures Count(seq(m, _ => Free), i) == 0
  {
    if m > 0 {
      NoCounts(m - 1, i);
      assert seq(m, _ => Free)[1..] == seq(m - 1, _ => Free);
    }
  }

  lemma InitOk(l: Layout, n: nat, m: nat, d: Disk)
    requires Clean(l, d)
    ensures Inv(l, Init(n, m, d))
  {
    forall i | 0 <= i < n ensures Count(Init(n, m, d).refs, i) == 0 {
      NoCounts(m, i);
    }
  }

  lemma {:induction false} RunKeepsInv(l: Layout, s: State, run: seq<Action>, e: State)
    requires Inv(l, s) && Run(l, s, run, e)
    ensures Inv(l, e)
    decreases |run|
  {
    if run != [] {
      StepKeepsInv(l, s, run[0]);
      RunKeepsInv(l, Step(l, s, run[0]), run[1..], e);
    }
  }

  /** In every reachable state, whoever holds a block reads its latest contents. */
  lemma BreadReturnsLatest(l: Layout, n: nat, m: nat, d: Disk, run: seq<Action>, s: State, t: nat, b: int)
    requires Clean(l, d) && Run(l, Init(n, m, d), run, s) && Holding(s, t, b)
    ensures BufOf(s, t).data == Read(s.store, b)
  {
    InitOk(l, n, m, d);
    RunKeepsInv(l, Init(n, m, d), run, s);
  }

  /** In every reachable state, two buffers never hold the same block of a real device. */
  lemma OneBufferPerBlock(l: Layout, n: nat, m: nat, d: Disk, run: seq<Action>, s: State, i: nat, j: nat)
    requires Clean(l, d) && Run(l, Init(n, m, d), run, s)
    requires i < |s.bufs| && j < |s.bufs| && s.bufs[i].dev == s.bufs[j].dev == ROOTDEV
    requires s.bufs[i].blockno == s.bufs[j].blockno
    ensures i == j
  {
    InitOk(l, n, m, d);
    RunKeepsInv(l, Init(n, m, d), run, s);
  }

  /** In every reachable state, contents that are not on disk are in a buffer that `bget` does not recycle. */
  lemma UnwrittenIsCached(l: Layout, n: nat, m: nat, d: Disk, run: seq<Action>, s: State, b: int)
    requires Clean(l, d) && Run(l, Init(n, m, d), run, s)
    requires 0 <= b < |s.disk| && Read(s.disk, b) != Read(s.store, b)
    ensures exists j: nat :: Pins(s, j, b) && !Recyclable(s.bufs[j])
  {
    InitOk(l, n, m, d);
    RunKeepsInv(l, Init(n, m, d), run, s);
    var j: nat :| Pins(s, j, b);
    if !s.bufs[j].dirty {
      var t :| 0 <= t < |s.refs| && s.refs[t].Held? && s.refs[t].buf == j && s.refs[t].modified;
      CountPositive(s.refs, t);
    }
    assert !Recyclable(s.bufs[j]);
  }

  lemma DiskMeansCommitted(l: Layout, s: State)
    requires Inv(l, s)
    ensures Means(l, s.disk, s.committed)
  {
    if !s.phase.Installing? {
      CleanMeansItself(l, s.disk, s.committed);
    } else {
      forall b | 0 <= b < |s.disk| && !InLog(l, b) ensures At(l, s.disk, b) == s.committed[b] {
        if b in s.lh {
          var j := Find(s.lh, b);
          assert Read(s.disk, l.start + 1 + j) == Read(s.store, s.lh[j]);
        } else {
          assert Read(s.disk, b) == Read(s.store, b);
        }
      }
    }
  }

  /**
   No uncommitted contents reach a home block: a crash in any reachable state, followed by
   recoveries that may crash themselves, restores exactly the contents of the last commit.
   */
  lemma CrashAnywhere(l: Layout, n: nat, m: nat, d: Disk, run: seq<Action>, s: State, crashes: seq<nat>)
    requires Clean(l, d) && Run(l, Init(n, m, d), run, s)
    ensures var e := Recover(l, AfterCrashes(l, s.disk, crashes));
            Clean(l, e) && SameHome(l, e, s.committed)
  {
    InitOk(l, n, m, d);
    RunKeepsInv(l, Init(n, m, d), run, s);
    DiskMeansCommitted(l, s);
    AfterCrashesMeansTheSame(l, s.disk, s.committed, crashes);
    RecoveryCompletes(l, AfterCrashes(l, s.disk, crashes), s.committed);
    CleanMeansItself(l, Recover(l, AfterCrashes(l, s.disk, crashes)), s.committed);
  }

  lemma MeansOnce(l: Layout, d: Disk, t: Disk, u: Disk)
    requires Means(l, d, t) && SameHome(l, t, u) && |u| == |t|
    ensures Means(l, d, u)
  {
  }

  /**
   What is durable is what recovery would read from the disk.  No step changes it but the header
   write of a commit, which takes over the whole store at once.
   */
  lemma CommitPoint(l: Layout, s: State, a: Action, t: Disk)
    requires Inv(l, s) && Enabled(l, s, a) && Means(l, s.disk, t)
    ensures !a.WriteHeader? ==> Means(l, Step(l, s, a).disk, t)
    ensures a.WriteHeader? ==> Means(l, Step(l, s, a).disk, s.store)
  {
    var s' := Step(l, s, a);
    StepKeepsInv(l, s, a);
    DiskMeansCommitted(l, s);
    DiskMeansCommitted(l, s');
    assert s'.committed == if a.WriteHeader? then s.store else s.committed;
    if !a.WriteHeader? {
      MeansOnce(l, s'.disk, s.committed, t);
    }
  }

  /** The `Get` step is exactly what `bget` does to the buffers. */
  lemma GetIsBget(l: Layout, s: State, t: nat, b: int, i: nat, bufs': seq<Buf>)
    requires t < |s.refs| && s.refs[t].Free? && 0 <= b < |s.disk|
    ensures Got(s.bufs, bufs', i, ROOTDEV, b) <==>
            Enabled(l, s, Get(t, b, i)) && Step(l, s, Get(t, b, i)).bufs == bufs'
  {
  }

  /**
   Every append has room when the log area is bigger than LOGSIZE, or when operations run one at a
   time: in every run of the admission machine, whoever is past the tests of `log_write`.
   */
  lemma AppendHasRoom(l: Layout, maxOp: nat, n: nat, run: seq<LogAdmission.Action>, p: nat)
    requires 0 < maxOp <= l.capacity && 0 < l.size && (l.size > l.capacity || 2 * maxOp > l.capacity || l.size == 1)
    requires LogAdmission.Run(LogAdmission.Params(maxOp, l.capacity, l.size), LogAdmission.Init(n), run).Next?
    requires var s := LogAdmission.Run(LogAdmission.Params(maxOp, l.capacity, l.size), LogAdmission.Init(n), run).s;
             p < |s.procs| && s.procs[p].Writing?
    ensures var s := LogAdmission.Run(LogAdmission.Params(maxOp, l.capacity, l.size), LogAdmission.Init(n), run).s;
            Room(l, s.lh, s.procs[p].b)
  {
    var c := LogAdmission.Params(maxOp, l.capacity, l.size);
    var more := run + [LogAdmission.LogAppend(p)];
    assert more[..|run|] == run;
    var t := LogAdmission.Run(c, LogAdmission.Init(n), more).s;
    LogAdmission.HeaderFitsRun(c, n, more);
    LogAdmission.AdmissionSafe(c, n, more);
    LogAdmission.SparesOk(c, t);
    LogAdmission.UnusedNonNegative(c, t.procs);
  }

  /** A header of `l.size` blocks makes `write_log` write the block after the log area. */
  lemma OverrunLeavesLog(l: Layout, k: nat)
    ensures InLog(l, l.start + 1 + k) <==> k + 1 < l.size
  {
  }
}
