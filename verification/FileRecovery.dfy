/**
 The file layer on top of the log: what a crash leaves of the file system.  The block store of
 `BlockStore` holds words, the file layer bytes; `Bytes` is the little-endian layout of the machine.
 `CrashKeepsCalls` is about file system calls that run one after the other; `CrashKeepsFiles` is about
 every run whose commits find a consistent file system.
 */
module FileRecovery {
  import opened Common
  import opened DiskFormat
  import opened FileLayer
  import opened FileCalls
  import FileFormat
  import W = WriteAheadLog
  import S = BlockStore

  // ----- words and bytes

  /** Byte `j` of a 32-bit word. */
  function ByteOf(w: int, j: int): Byte {
    if j == 0 then w % 256
    else if j == 1 then w / 256 % 256
    else if j == 2 then w / 65536 % 256
    else w / 16777216 % 256
  }

  function Bytes(b: W.Block): (r: Block)
    ensures |r| == 4 * |b|
  {
    seq(4 * |b|, k requires 0 <= k < 4 * |b| => ByteOf(b[k / 4], k % 4))
  }

  /** The file layer reads the words that the log writes. */
  lemma WordOfBytes(b: W.Block, j: nat)
    requires j < |b| && |b| * 4 == BSIZE && 0 <= b[j] < UINT
    ensures Word(Bytes(b), j) == b[j]
  {
    FourBytes(b[j]);
    var r := Bytes(b);
    assert (4 * j) / 4 == j && (4 * j + 1) / 4 == j && (4 * j + 2) / 4 == j && (4 * j + 3) / 4 == j;
    assert r[4 * j] == ByteOf(b[j], 0) && r[4 * j + 1] == ByteOf(b[j], 1);
    assert r[4 * j + 2] == ByteOf(b[j], 2) && r[4 * j + 3] == ByteOf(b[j], 3);
  }

  lemma FourBytes(w: int)
    requires 0 <= w < UINT
    ensures w == ByteOf(w, 0) + 256 * ByteOf(w, 1) + 65536 * ByteOf(w, 2) + 16777216 * ByteOf(w, 3)
  {
    var a := w / 256;
    var b := a / 256;
    assert w / 65536 == b && w / 16777216 == b / 256;
  }

  function FileDisk(d: W.Disk): (r: Disk)
    ensures |r| == |d|
  {
    seq(|d|, b requires 0 <= b < |d| => Bytes(d[b]))
  }

  // ----- the file system does not see the log area

  /** The log area lies before the inode blocks, and blocks have the same size. */
  predicate LogFirst(l: W.Layout, sb: Super) {
    l.start + l.size <= sb.inodestart && 4 * l.words == BSIZE
  }

  /** Two disks that agree from the inode blocks on. */
  ghost predicate SameFrom(sb: Super, d: Disk, e: Disk) {
    |e| == |d| && (forall b | 0 <= b < |e| :: |e[b]| == BSIZE) && forall b | sb.inodestart <= b < |d| :: e[b] == d[b]
  }

  lemma FrameAt(sb: Super, s: Fs, e: Disk, o: map<nat, Slot>, t: Slot)
    requires Owned(sb, s, o) && SameFrom(sb, s.disk, e) && IsSlot(s, t)
    ensures At(s.(disk := e), t) == At(s, t)
  {
    var x := Slot(t.i, INDIRECT);
    if t.k > INDIRECT && At(s, x) != 0 {
      OwnerOf(sb, s, o, x);
    }
  }

  lemma FrameUsed(sb: Super, s: Fs, e: Disk, c: nat)
    requires Shape(sb, s) && SameFrom(sb, s.disk, e) && c < sb.size
    ensures Used(sb, e, c) == Used(sb, s.disk, c)
  {
    UsedFrame(sb, s.disk, e, c);
  }

  lemma FrameInode(sb: Super, s: Fs, e: Disk, i: nat)
    requires Shape(sb, s) && SameFrom(sb, s.disk, e) && i < sb.ninodes
    ensures InodeAt(sb, e, i) == InodeAt(sb, s.disk, i)
  {
    assert i / IPB <= sb.ninodes / IPB;
  }

  lemma FrameBlock(sb: Super, s: Fs, e: Disk, o: map<nat, Slot>, i: nat, bn: nat)
    requires Owned(sb, s, o) && SameFrom(sb, s.disk, e) && i < |s.inodes| && bn < MAXFILE
    ensures FileBlock(s.(disk := e), i, bn) == FileBlock(s, i, bn)
  {
    var t := Slot(i, SlotOf(bn));
    FrameAt(sb, s, e, o, t);
    if At(s, t) != 0 {
      OwnerOf(sb, s, o, t);
    }
  }

  lemma FrameMapped(sb: Super, s: Fs, e: Disk, o: map<nat, Slot>, i: nat)
    requires Owned(sb, s, o) && SameFrom(sb, s.disk, e) && i < |s.inodes| && FileOk(s, i)
    ensures FileOk(s.(disk := e), i)
  {
    var s' := s.(disk := e);
    forall bn | 0 <= bn < MAXFILE ensures At(s', Slot(i, SlotOf(bn))) == At(s, Slot(i, SlotOf(bn))) {
      FrameAt(sb, s, e, o, Slot(i, SlotOf(bn)));
    }
    FrameAt(sb, s, e, o, Slot(i, INDIRECT));
  }

  /** A consistent file system stays consistent, with the same files. */
  lemma FrameConsistent(sb: Super, s: Fs, e: Disk, o: map<nat, Slot>)
    requires Consistent(sb, s, o) && SameFrom(sb, s.disk, e)
    ensures Consistent(sb, s.(disk := e), o) && SameFiles(s, s.(disk := e))
  {
    var s' := s.(disk := e);
    FrameOwned(sb, s, e, o);
    forall i | 0 <= i < |s.inodes| ensures FileOk(s', i) && InodeAt(sb, e, i) == s.inodes[i] {
      FrameMapped(sb, s, e, o, i);
      FrameInode(sb, s, e, i);
    }
    forall i, bn | 0 <= i < |s.inodes| && 0 <= bn < MAXFILE ensures FileBlock(s', i, bn) == FileBlock(s, i, bn) {
      FrameBlock(sb, s, e, o, i, bn);
    }
  }

  lemma FrameOwned(sb: Super, s: Fs, e: Disk, o: map<nat, Slot>)
    requires Owned(sb, s, o) && SameFrom(sb, s.disk, e)
    ensures Owned(sb, s.(disk := e), o)
  {
    var s' := s.(disk := e);
    forall t | IsSlot(s, t) ensures At(s', t) == At(s, t) {
      FrameAt(sb, s, e, o, t);
    }
    forall c | 0 <= c < sb.size ensures Used(sb, e, c) == Used(sb, s.disk, c) {
      FrameUsed(sb, s, e, c);
    }
    OwnedFrame(sb, s, s', o);
  }

  // ----- the file system on a disk of the log

  function On(d: W.Disk, inodes: seq<Inode>): Fs {
    Fs(FileDisk(d), inodes)
  }

  lemma SameHomeFrom(l: W.Layout, sb: Super, d: W.Disk, e: W.Disk)
    requires LogFirst(l, sb) && W.SameHome(l, d, e) && forall b | 0 <= b < |e| :: |e[b]| == l.words
    ensures SameFrom(sb, FileDisk(d), FileDisk(e))
  {
  }

  /** Only home blocks matter. */
  lemma HomeHolds(l: W.Layout, sb: Super, d: W.Disk, e: W.Disk, files: Files)
    requires LogFirst(l, sb) && W.SameHome(l, d, e) && Holds(sb, FileDisk(d), files)
    requires forall b | 0 <= b < |e| :: |e[b]| == l.words
    ensures Holds(sb, FileDisk(e), files)
  {
    var inodes, o :| IsFs(sb, FileDisk(d), files, inodes, o);
    SameHomeFrom(l, sb, d, e);
    FrameConsistent(sb, On(d, inodes), FileDisk(e), o);
    assert On(d, inodes).(disk := FileDisk(e)) == On(e, inodes);
    forall i | 0 <= i < |inodes| ensures files[i] == Contents(On(e, inodes), i) {
      SameSizeContents(On(d, inodes), On(e, inodes), i);
    }
    assert IsFs(sb, FileDisk(e), files, inodes, o);
  }

  lemma SameSizeContents(s: Fs, s': Fs, i: nat)
    requires SameFiles(s, s') && i < |s.inodes| && s'.inodes == s.inodes && s.inodes[i].size <= MAXFILE * BSIZE
    ensures Contents(s', i) == Contents(s, i)
  {
    forall p | 0 <= p < s.inodes[i].size ensures FileByte(s', i, p) == FileByte(s, i, p) {
      SameFilesByte(s, s', i, p);
    }
  }

  // ----- runs

  /**
   A commit starts only when all file system calls inside it are finished, so that the store is a
   consistent file system again; `files` lists the files that each commit finds.
   */
  ghost predicate Disciplined(l: W.Layout, sb: Super, s: S.State, run: seq<S.Action>, files: seq<Files>)
    decreases |run|
  {
    if run == [] then true
    else if run[0].StartCommit? then
      && files != [] && Holds(sb, FileDisk(s.store), files[0])
      && Disciplined(l, sb, S.Step(l, s, run[0]), run[1..], files[1..])
    else Disciplined(l, sb, S.Step(l, s, run[0]), run[1..], files)
  }

  /** The files that a crash after the run leaves: those of the last commit that wrote its header. */
  function Survivors(run: seq<S.Action>, files: seq<Files>, now: Files, next: Files): Files
    decreases |run|
  {
    if run == [] then now
    else if run[0].StartCommit? then
      if files == [] then now else Survivors(run[1..], files[1..], now, files[0])
    else if run[0].WriteHeader? then Survivors(run[1..], files, next, next)
    else Survivors(run[1..], files, now, next)
  }

  /** `now` is durable, and a commit in progress is about to make `next` durable. */
  ghost predicate Durable(sb: Super, s: S.State, now: Files, next: Files) {
    Holds(sb, FileDisk(s.committed), now) && (s.phase.Logging? ==> Holds(sb, FileDisk(s.store), next))
  }

  /** While log blocks are written, no home block of the store changes. */
  lemma LoggingKeepsStore(l: W.Layout, s: S.State, a: S.Action)
    requires S.Inv(l, s) && S.Enabled(l, s, a) && s.phase.Logging?
    ensures W.SameHome(l, s.store, S.Step(l, s, a).store)
  {
  }

  lemma Committed(l: W.Layout, s: S.State, a: S.Action)
    ensures S.Step(l, s, a).committed == if a.WriteHeader? then s.store else s.committed
  {
  }

  lemma StepKeepsFiles(l: W.Layout, sb: Super, s: S.State, a: S.Action, now: Files, next: Files)
    requires LogFirst(l, sb) && S.Inv(l, s) && S.Enabled(l, s, a) && Durable(sb, s, now, next) && !a.StartCommit?
    ensures S.Inv(l, S.Step(l, s, a))
    ensures Durable(sb, S.Step(l, s, a), if a.WriteHeader? then next else now, next)
  {
    var s' := S.Step(l, s, a);
    S.StepKeepsInv(l, s, a);
    Committed(l, s, a);
    if s'.phase.Logging? {
      StillLogging(l, s, a);
      LoggingKeepsStore(l, s, a);
      HomeHolds(l, sb, s.store, s'.store, next);
    }
  }

  lemma StillLogging(l: W.Layout, s: S.State, a: S.Action)
    requires S.Enabled(l, s, a) && S.Step(l, s, a).phase.Logging? && !a.StartCommit?
    ensures s.phase.Logging?
  {
  }

  lemma {:induction false} RunKeepsFiles(l: W.Layout, sb: Super, s: S.State, run: seq<S.Action>, e: S.State,
                                         files: seq<Files>, now: Files, next: Files)
    requires LogFirst(l, sb) && S.Inv(l, s) && Durable(sb, s, now, next) && S.Run(l, s, run, e)
    requires Disciplined(l, sb, s, run, files)
    ensures Holds(sb, FileDisk(e.committed), Survivors(run, files, now, next))
    decreases |run|
  {
    if run != [] {
      var a, s' := run[0], S.Step(l, s, run[0]);
      if a.StartCommit? {
        S.StepKeepsInv(l, s, a);
        RunKeepsFiles(l, sb, s', run[1..], e, files[1..], now, files[0]);
      } else {
        StepKeepsFiles(l, sb, s, a, now, next);
        RunKeepsFiles(l, sb, s', run[1..], e, files, if a.WriteHeader? then next else now, next);
      }
    }
  }

  /**
   A crash in any reachable state, followed by recoveries that may crash themselves, leaves a
   consistent file system with exactly the files of the last commit that wrote its header.
   */
  lemma CrashKeepsFiles(l: W.Layout, sb: Super, n: nat, m: nat, d: W.Disk, run: seq<S.Action>, s: S.State,
                        first: Files, files: seq<Files>, crashes: seq<nat>)
    requires LogFirst(l, sb) && W.Clean(l, d) && Holds(sb, FileDisk(d), first) && S.Run(l, S.Init(n, m, d), run, s)
    requires Disciplined(l, sb, S.Init(n, m, d), run, files)
    ensures Holds(sb, FileDisk(W.Recover(l, W.AfterCrashes(l, s.disk, crashes))), Survivors(run, files, first, first))
  {
    S.InitOk(l, n, m, d);
    RunKeepsFiles(l, sb, S.Init(n, m, d), run, s, files, first, first);
    S.CrashAnywhere(l, n, m, d, run, s, crashes);
    HomeHolds(l, sb, s.committed, W.Recover(l, W.AfterCrashes(l, s.disk, crashes)),
              Survivors(run, files, first, first));
  }

  // ----- calls one after the other

  /** A call, and the changes of blocks that it makes. */
  datatype Job = Job(call: Call, writes: seq<W.Write>)

  function Changes(ws: seq<W.Write>): seq<Change> {
    seq(|ws|, k requires 0 <= k < |ws| => Change(ws[k].bno, Bytes(ws[k].data)))
  }

  function Writes(jobs: seq<Job>, k: nat): seq<W.Write> {
    if k < |jobs| then jobs[k].writes else []
  }

  /**
   The changes of blocks in the run are those of the calls `jobs`, from number `begun` on, one call after the other;
   `rest` is what the current call still has to change.  No call is in progress when a commit starts.
   */
  ghost predicate Serial(l: W.Layout, sb: Super, s: S.State, run: seq<S.Action>, jobs: seq<Job>, begun: nat,
                         rest: seq<W.Write>)
    decreases |run|
  {
    if run == [] then true
    else
      var s' := S.Step(l, s, run[0]);
      if run[0].Modify? then
        if rest == [] then
          && begun < |jobs| && Begins(jobs[begun].writes, S.BlockOf(s, run[0].t), run[0].data)
          && Performs(sb, FileDisk(s.store), jobs[begun].call, Changes(jobs[begun].writes))
          && Serial(l, sb, s', run[1..], jobs, begun + 1, jobs[begun].writes[1..])
        else
          && Begins(rest, S.BlockOf(s, run[0].t), run[0].data)
          && Serial(l, sb, s', run[1..], jobs, begun, rest[1..])
      else (run[0].StartCommit? ==> rest == []) && Serial(l, sb, s', run[1..], jobs, begun, rest)
  }

  predicate Begins(ws: seq<W.Write>, b: int, data: W.Block) {
    ws != [] && ws[0] == W.Write(b, data)
  }

  /** The files after the first `k` calls. */
  function After(first: Files, jobs: seq<Job>, k: nat): Files {
    if k == 0 then first
    else if k <= |jobs| then Effect(After(first, jobs, k - 1), jobs[k - 1].call)
    else After(first, jobs, k - 1)
  }

  /**
   How many calls survive a crash after the run, if `begun` calls have begun, `now` are durable and a commit in
   progress has found `next`: those that the last commit found that wrote its header.
   */
  function Durably(run: seq<S.Action>, jobs: seq<Job>, begun: nat, left: nat, now: nat, next: nat): nat
    decreases |run|
  {
    if run == [] then now
    else match run[0]
      case Modify(_, _) =>
        if left > 0 then Durably(run[1..], jobs, begun, left - 1, now, next)
        else
          var n := |Writes(jobs, begun)|;
          Durably(run[1..], jobs, begun + 1, if n > 0 then n - 1 else 0, now, next)
      case StartCommit => Durably(run[1..], jobs, begun, left, now, begun)
      case WriteHeader(_) => Durably(run[1..], jobs, begun, left, next, next)
      case _ => Durably(run[1..], jobs, begun, left, now, next)
  }

  /** Finishing the current call leads to these files. */
  ghost predicate Ending(sb: Super, s: S.State, rest: seq<W.Write>, files: Files) {
    && Holds(sb, Replay(FileDisk(s.store), Changes(rest)), files)
    && (rest != [] ==> s.phase.Open?)
  }

  lemma ModifyStore(l: W.Layout, s: S.State, t: nat, data: W.Block)
    requires S.Enabled(l, s, S.Modify(t, data))
    ensures var s' := S.Step(l, s, S.Modify(t, data));
            s'.store == W.Put(s.store, S.BlockOf(s, t), data) && s'.phase == s.phase && s.phase.Open?
  {
  }

  lemma PutBytes(d: W.Disk, b: int, data: W.Block)
    ensures FileDisk(W.Put(d, b, data)) == Put(FileDisk(d), b, Bytes(data))
  {
  }

  /** One change of the current call. */
  lemma ChangeOne(l: W.Layout, sb: Super, s: S.State, t: nat, data: W.Block, ws: seq<W.Write>, files: Files)
    requires S.Enabled(l, s, S.Modify(t, data)) && Begins(ws, S.BlockOf(s, t), data)
    requires Holds(sb, Replay(FileDisk(s.store), Changes(ws)), files)
    ensures Ending(sb, S.Step(l, s, S.Modify(t, data)), ws[1..], files)
  {
    var b := S.BlockOf(s, t);
    ModifyStore(l, s, t, data);
    PutBytes(s.store, b, data);
    ReplayFirst(FileDisk(s.store), Changes(ws));
    assert Changes(ws)[1..] == Changes(ws[1..]);
  }

  /** Other steps keep the home blocks of the store; those outside a commit keep the store. */
  lemma OthersKeepStore(l: W.Layout, s: S.State, a: S.Action)
    requires S.Inv(l, s) && S.Enabled(l, s, a) && !a.Modify?
    ensures s.phase.Open? ==> S.Step(l, s, a).store == s.store
    ensures W.SameHome(l, s.store, S.Step(l, s, a).store)
  {
    if a.Install? {
      InstallKeepsStore(l, s, a.t, a.u);
    }
  }

  lemma InstallKeepsStore(l: W.Layout, s: S.State, t: nat, u: nat)
    requires S.Inv(l, s) && S.Enabled(l, s, S.Install(t, u))
    ensures W.SameHome(l, s.store, S.Step(l, s, S.Install(t, u)).store)
  {
    var k := s.phase.k;
    assert W.InLog(l, l.start + 1 + k);
    assert W.Read(s.disk, l.start + 1 + k) == W.Read(s.store, l.start + 1 + k);
    assert S.BufOf(s, t).data == W.Read(s.store, s.lh[k]);
  }

  lemma OthersKeepEnding(l: W.Layout, sb: Super, s: S.State, a: S.Action, rest: seq<W.Write>, files: Files)
    requires LogFirst(l, sb) && S.Inv(l, s) && S.Enabled(l, s, a) && !a.Modify? && Ending(sb, s, rest, files)
    requires a.StartCommit? ==> rest == []
    ensures S.Inv(l, S.Step(l, s, a)) && Ending(sb, S.Step(l, s, a), rest, files)
  {
    var s' := S.Step(l, s, a);
    S.StepKeepsInv(l, s, a);
    OthersKeepStore(l, s, a);
    if rest == [] {
      HomeHolds(l, sb, s.store, s'.store, files);
    } else {
      StaysOpen(l, s, a);
    }
  }

  lemma StaysOpen(l: W.Layout, s: S.State, a: S.Action)
    requires S.Enabled(l, s, a) && s.phase.Open? && !a.StartCommit?
    ensures S.Step(l, s, a).phase.Open?
  {
  }

  /** The current call leads to `files`, `now` is durable, and a commit in progress has found `next`; folded. */
  ghost predicate Fine(l: W.Layout, sb: Super, s: S.State, rest: seq<W.Write>, files: Files, now: Files, next: Files) {
    forall k | Look(k) :: S.Inv(l, s) && Ending(sb, s, rest, files) && Durable(sb, s, now, next)
  }

  /** A run of calls, folded. */
  ghost predicate InSeries(l: W.Layout, sb: Super, s: S.State, run: seq<S.Action>, e: S.State, jobs: seq<Job>,
                           begun: nat, rest: seq<W.Write>)
  {
    forall k | Look(k) :: S.Run(l, s, run, e) && Serial(l, sb, s, run, jobs, begun, rest)
  }

  /** One step, folded. */
  ghost predicate Moves(l: W.Layout, s: S.State, a: S.Action, s': S.State) {
    forall k | Look(k) :: S.Enabled(l, s, a) && s' == S.Step(l, s, a)
  }

  lemma ModifyKeeps(l: W.Layout, sb: Super, s: S.State, a: S.Action, rest: seq<W.Write>, before: Files,
                    ws: seq<W.Write>, files: Files, now: Files, next: Files, s': S.State)
    requires LogFirst(l, sb) && a.Modify? && Begins(ws, S.BlockOf(s, a.t), a.data)
    requires Moves(l, s, a, s') && Fine(l, sb, s, rest, before, now, next)
    requires Holds(sb, Replay(FileDisk(s.store), Changes(ws)), files)
    ensures Fine(l, sb, s', ws[1..], files, now, next)
  {
    assert Look(0);
    ChangeOne(l, sb, s, a.t, a.data, ws, files);
    StepKeepsFiles(l, sb, s, a, now, next);
  }

  lemma OthersKeep(l: W.Layout, sb: Super, s: S.State, a: S.Action, rest: seq<W.Write>, files: Files, now: Files,
                   next: Files, now': Files, next': Files, s': S.State)
    requires LogFirst(l, sb) && !a.Modify? && Moves(l, s, a, s') && Fine(l, sb, s, rest, files, now, next)
    requires now' == (if a.WriteHeader? then next else now) && next' == (if a.StartCommit? then files else next)
    requires a.StartCommit? ==> rest == []
    ensures Fine(l, sb, s', rest, files, now', next')
  {
    assert Look(0);
    OthersKeepEnding(l, sb, s, a, rest, files);
    if a.StartCommit? {
      assert Changes(rest) == [];
    } else {
      StepKeepsFiles(l, sb, s, a, now, next);
    }
  }

  /** The next change belongs to the current call, or to the next one. */
  lemma NextChange(l: W.Layout, sb: Super, s: S.State, run: seq<S.Action>, e: S.State, jobs: seq<Job>, begun: nat,
                   rest: seq<W.Write>)
    returns (s': S.State, n: nat, ws: seq<W.Write>)
    requires run != [] && run[0].Modify? && InSeries(l, sb, s, run, e, jobs, begun, rest)
    ensures Begins(ws, S.BlockOf(s, run[0].t), run[0].data)
    ensures Moves(l, s, run[0], s') && InSeries(l, sb, s', run[1..], e, jobs, n, ws[1..])
    ensures if rest == [] then n == begun + 1 && ws == Writes(jobs, begun) else n == begun && ws == rest
    ensures rest == [] ==> begun < |jobs| && Performs(sb, FileDisk(s.store), jobs[begun].call, Changes(ws))
  {
    assert Look(0);
    s', n, ws := S.Step(l, s, run[0]), begun, rest;
    if rest == [] {
      n, ws := begun + 1, jobs[begun].writes;
    }
  }

  lemma ChangeLeads(l: W.Layout, sb: Super, s: S.State, first: Files, jobs: seq<Job>, begun: nat, rest: seq<W.Write>,
                    n: nat, ws: seq<W.Write>, now: Files, next: Files)
    requires Fine(l, sb, s, rest, After(first, jobs, begun), now, next)
    requires if rest == [] then n == begun + 1 && begun < |jobs| else n == begun && ws == rest
    requires rest == [] ==> Performs(sb, FileDisk(s.store), jobs[begun].call, Changes(ws))
    ensures Holds(sb, Replay(FileDisk(s.store), Changes(ws)), After(first, jobs, n))
  {
    FineMeans(l, sb, s, rest, After(first, jobs, begun), now, next);
    if rest == [] {
      assert Changes(rest) == [];
    }
  }

  lemma FineMeans(l: W.Layout, sb: Super, s: S.State, rest: seq<W.Write>, files: Files, now: Files, next: Files)
    requires Fine(l, sb, s, rest, files, now, next)
    ensures Holds(sb, Replay(FileDisk(s.store), Changes(rest)), files)
  {
    assert Look(0);
  }

  lemma NextOther(l: W.Layout, sb: Super, s: S.State, run: seq<S.Action>, e: S.State, jobs: seq<Job>, begun: nat,
                  rest: seq<W.Write>)
    returns (s': S.State)
    requires run != [] && !run[0].Modify? && InSeries(l, sb, s, run, e, jobs, begun, rest)
    ensures Moves(l, s, run[0], s') && InSeries(l, sb, s', run[1..], e, jobs, begun, rest)
    ensures run[0].StartCommit? ==> rest == []
  {
    assert Look(0);
    s' := S.Step(l, s, run[0]);
  }

  lemma DurablyModify(run: seq<S.Action>, jobs: seq<Job>, begun: nat, left: nat, now: nat, next: nat)
    requires run != [] && run[0].Modify? && (left == 0 ==> Writes(jobs, begun) != [])
    ensures Durably(run, jobs, begun, left, now, next) ==
            if left > 0 then Durably(run[1..], jobs, begun, left - 1, now, next)
            else Durably(run[1..], jobs, begun + 1, |Writes(jobs, begun)| - 1, now, next)
  {
  }

  lemma NothingNext(l: W.Layout, sb: Super, s: S.State, e: S.State, jobs: seq<Job>, begun: nat, rest: seq<W.Write>,
                    files: Files, now: Files, next: Files)
    requires InSeries(l, sb, s, [], e, jobs, begun, rest) && Fine(l, sb, s, rest, files, now, next)
    ensures Holds(sb, FileDisk(e.committed), now)
  {
    assert Look(0);
  }

  /** In every run of calls, the committed blocks hold the files after the calls that count as durable. */
  lemma {:induction false} RunKeepsCalls(l: W.Layout, sb: Super, s: S.State, run: seq<S.Action>, e: S.State,
                                         first: Files, jobs: seq<Job>, begun: nat, rest: seq<W.Write>, now: nat,
                                         next: nat)
    requires LogFirst(l, sb) && InSeries(l, sb, s, run, e, jobs, begun, rest)
    requires Fine(l, sb, s, rest, After(first, jobs, begun), After(first, jobs, now), After(first, jobs, next))
    ensures Holds(sb, FileDisk(e.committed), After(first, jobs, Durably(run, jobs, begun, |rest|, now, next)))
    decreases |run|
  {
    var files, f, g := After(first, jobs, begun), After(first, jobs, now), After(first, jobs, next);
    if run == [] {
      NothingNext(l, sb, s, e, jobs, begun, rest, files, f, g);
    } else if run[0].Modify? {
      var s', n, ws := NextChange(l, sb, s, run, e, jobs, begun, rest);
      ChangeLeads(l, sb, s, first, jobs, begun, rest, n, ws, f, g);
      ModifyKeeps(l, sb, s, run[0], rest, files, ws, After(first, jobs, n), f, g, s');
      DurablyModify(run, jobs, begun, |rest|, now, next);
      RunKeepsCalls(l, sb, s', run[1..], e, first, jobs, n, ws[1..], now, next);
    } else {
      var s' := NextOther(l, sb, s, run, e, jobs, begun, rest);
      var now' := if run[0].WriteHeader? then next else now;
      var next' := if run[0].StartCommit? then begun else next;
      OthersKeep(l, sb, s, run[0], rest, files, f, g, After(first, jobs, now'), After(first, jobs, next'), s');
      RunKeepsCalls(l, sb, s', run[1..], e, first, jobs, begun, rest, now', next');
    }
  }

  /**
   File system calls that run one after the other: a crash in any reachable state, followed by recoveries that may
   crash themselves, leaves a consistent file system whose files are those after the first calls, up to the last
   commit that wrote its header.
   */
  lemma CrashKeepsCalls(l: W.Layout, sb: Super, n: nat, m: nat, d: W.Disk, run: seq<S.Action>, s: S.State,
                        first: Files, jobs: seq<Job>, crashes: seq<nat>)
    requires LogFirst(l, sb) && W.Clean(l, d) && Holds(sb, FileDisk(d), first) && S.Run(l, S.Init(n, m, d), run, s)
    requires Serial(l, sb, S.Init(n, m, d), run, jobs, 0, [])
    ensures Holds(sb, FileDisk(W.Recover(l, W.AfterCrashes(l, s.disk, crashes))),
                  After(first, jobs, Durably(run, jobs, 0, 0, 0, 0)))
  {
    S.InitOk(l, n, m, d);
    assert Changes([]) == [];
    RunKeepsCalls(l, sb, S.Init(n, m, d), run, s, first, jobs, 0, [], 0, 0);
    S.CrashAnywhere(l, n, m, d, run, s, crashes);
    HomeHolds(l, sb, s.committed, W.Recover(l, W.AfterCrashes(l, s.disk, crashes)),
              After(first, jobs, Durably(run, jobs, 0, 0, 0, 0)));
  }

  // ----- a disk to start from

  function WordsOf(b: Block): (w: W.Block)
    ensures |w| == |b| / 4
  {
    seq(|b| / 4, j requires 0 <= j < |b| / 4 => Word(b, j))
  }

  lemma WordBytes(x: Byte, y: Byte, z: Byte, w: Byte)
    ensures var v := x + 256 * y + 65536 * z + 16777216 * w;
            ByteOf(v, 0) == x && ByteOf(v, 1) == y && ByteOf(v, 2) == z && ByteOf(v, 3) == w
  {
    var v := x + 256 * y + 65536 * z + 16777216 * w;
    assert v / 256 == y + 256 * z + 65536 * w;
    assert v / 65536 == z + 256 * w;
    assert v / 16777216 == w;
  }

  /** Every block of bytes is the layout of a block of words. */
  lemma BytesOfWords(b: Block)
    requires |b| % 4 == 0
    ensures Bytes(WordsOf(b)) == b
  {
    forall k | 0 <= k < |b| ensures Bytes(WordsOf(b))[k] == b[k] {
      var j := k / 4;
      WordBytes(b[4 * j], b[4 * j + 1], b[4 * j + 2], b[4 * j + 3]);
    }
  }

  /** The changes of a call, as the block store sees them. */
  function WritesOf(trace: seq<Change>): seq<W.Write> {
    seq(|trace|, k requires 0 <= k < |trace| => W.Write(trace[k].block, WordsOf(trace[k].data)))
  }

  lemma ChangesOfWrites(trace: seq<Change>)
    requires forall k | 0 <= k < |trace| :: |trace[k].data| % 4 == 0
    ensures Changes(WritesOf(trace)) == trace
  {
    forall k | 0 <= k < |trace| ensures Changes(WritesOf(trace))[k] == trace[k] {
      BytesOfWords(trace[k].data);
    }
  }

  function Formatted(sb: Super, n: nat): W.Disk {
    var d := FileFormat.EmptyFs(sb, n).disk;
    seq(|d|, b requires 0 <= b < |d| => WordsOf(d[b]))
  }

  function NoFiles(n: nat): Files {
    seq(n, _ => [])
  }

  lemma FormattedBlock(sb: Super, n: nat, b: nat)
    requires LayoutOk(sb, n) && b < n
    ensures |Formatted(sb, n)| == n && |Formatted(sb, n)[b]| == BSIZE / 4
    ensures FileDisk(Formatted(sb, n))[b] == FileFormat.EmptyFs(sb, n).disk[b]
  {
    var s := FileFormat.EmptyFs(sb, n);
    FileFormat.EmptyIsConsistent(sb, n);
    assert Formatted(sb, n)[b] == WordsOf(s.disk[b]);
    BytesOfWords(s.disk[b]);
  }

  lemma FormattedBytes(sb: Super, n: nat)
    requires LayoutOk(sb, n)
    ensures FileDisk(Formatted(sb, n)) == FileFormat.EmptyFs(sb, n).disk
  {
    forall b | 0 <= b < n ensures FileDisk(Formatted(sb, n))[b] == FileFormat.EmptyFs(sb, n).disk[b] {
      FormattedBlock(sb, n, b);
    }
  }

  lemma FormattedHolds(sb: Super, n: nat)
    requires LayoutOk(sb, n)
    ensures Holds(sb, FileDisk(Formatted(sb, n)), NoFiles(sb.ninodes))
  {
    var s := FileFormat.EmptyFs(sb, n);
    FileFormat.EmptyIsConsistent(sb, n);
    FormattedBytes(sb, n);
    HoldsFiles(sb, s, map[]);
    assert FilesOf(s) == NoFiles(sb.ninodes);
  }

  /** A formatted disk is clean and holds empty files, on every layout that has room for its metadata. */
  lemma FormattedIsClean(l: W.Layout, sb: Super, n: nat)
    requires LogFirst(l, sb) && LayoutOk(sb, n) && 0 < l.size && l.capacity + 1 < l.words
    ensures W.Clean(l, Formatted(sb, n)) && Holds(sb, FileDisk(Formatted(sb, n)), NoFiles(sb.ninodes))
  {
    forall b | 0 <= b < n ensures |Formatted(sb, n)[b]| == l.words {
      FormattedBlock(sb, n, b);
    }
    FileFormat.ReservedReads(sb, n, DataStart(sb), l.start);
    assert Formatted(sb, n)[l.start] == WordsOf(ZeroBlock());
    FormattedHolds(sb, n);
  }
}
