/**
 The pipe of `xv6/pipe.c`.  A step is what one process does while it holds the pipe's lock: a
 pipewrite or piperead until it returns or sleeps, or a pipeclose.  The counters are 32-bit and
 wrap around; the ring's size divides 2^32, as PIPESIZE does.
 */
module PipeRing {
  import opened Common

  const PIPESIZE := 512

  /** `readers` and `writers`: somebody sleeps on `nread`, on `nwrite`. */
  datatype Pipe = Pipe(data: seq<int>, nread: nat, nwrite: nat, readopen: bool, writeopen: bool,
                       readers: bool, writers: bool)

  predicate SizeOk(n: nat) {
    0 < n < WORD32 && WORD32 % n == 0
  }

  lemma PipeSizeOk()
    ensures SizeOk(PIPESIZE)
  {
  }

  predicate Full(s: Pipe) {
    s.nwrite == (s.nread + |s.data|) % WORD32
  }

  predicate Empty(s: Pipe) {
    s.nread == s.nwrite
  }

  /** `x % n`, total. */
  function Mod(x: nat, n: nat): (m: nat)
    ensures n > 0 ==> m < n && m == x % n
  {
    if n == 0 then 0 else x % n
  }

  /** `p->data[p->nwrite++ % PIPESIZE] = b`. */
  function Store(s: Pipe, b: int): Pipe {
    if |s.data| == 0 then s
    else s.(data := s.data[Mod(s.nwrite, |s.data|) := b], nwrite := (s.nwrite + 1) % WORD32)
  }

  function Head(s: Pipe): int {
    if |s.data| == 0 then 0 else s.data[Mod(s.nread, |s.data|)]
  }

  /** `p->data[p->nread++ % PIPESIZE]` taken. */
  function Fetch(s: Pipe): Pipe {
    s.(nread := (s.nread + 1) % WORD32)
  }

  // ----- the two system calls

  datatype Outcome = Done(count: nat) | Failed | Asleep(i: nat) | Got(bytes: seq<int>)

  /** pipewrite from byte `i` on, holding the lock; with the number of bytes it has stored when it stops. */
  function Write(s: Pipe, addr: seq<int>, i: nat, killed: bool): (Pipe, Outcome, nat)
    decreases |addr| - i
  {
    if i >= |addr| then (s.(readers := false), Done(|addr|), i)
    else if Full(s) then
      if !s.readopen || killed then (s, Failed, i) else (s.(readers := false, writers := true), Asleep(i), i)
    else Write(Store(s, addr[i]), addr, i + 1, killed)
  }

  /** The copy loop of piperead. */
  function Copy(s: Pipe, n: nat): (Pipe, seq<int>)
    decreases n
  {
    if n == 0 || Empty(s) then (s, [])
    else
      var (s', bytes) := Copy(Fetch(s), n - 1);
      (s', [Head(s)] + bytes)
  }

  /** One turn of that loop, after `bytes`. */
  lemma CopyTurn(s: Pipe, n: nat, bytes: seq<int>)
    ensures n > 0 && !Empty(s) ==>
      && Copy(s, n).0 == Copy(Fetch(s), n - 1).0
      && bytes + Copy(s, n).1 == bytes + [Head(s)] + Copy(Fetch(s), n - 1).1
    ensures n == 0 || Empty(s) ==> Copy(s, n).0 == s && bytes + Copy(s, n).1 == bytes
  {
  }

  function Read(s: Pipe, n: nat, killed: bool): (Pipe, Outcome) {
    if Empty(s) && s.writeopen then
      if killed then (s, Failed) else (s.(readers := true), Asleep(0))
    else
      var (s', bytes) := Copy(s, n);
      (s'.(writers := false), Got(bytes))
  }

  function Close(s: Pipe, writable: bool): Pipe {
    if writable then s.(writeopen := false, readers := false) else s.(readopen := false, writers := false)
  }

  // ----- what the ring holds

  /** Slot `k` of the stream is in the ring. */
  predicate SlotOk(s: Pipe, stored: seq<int>, k: nat) {
    k < |stored| && Mod(k, |s.data|) < |s.data| ==> s.data[Mod(k, |s.data|)] == stored[k]
  }

  /**
   `stored` are all bytes written so far and the first `f` of them have been read: the counters are
   these numbers in 32 bits, at most a ring full is unread, and the ring holds exactly that.
   */
  ghost predicate Stream(s: Pipe, stored: seq<int>, f: nat) {
    && SizeOk(|s.data|) && f <= |stored| <= f + |s.data|
    && s.nwrite == |stored| % WORD32 && s.nread == f % WORD32
    && forall k: nat | f <= k :: SlotOk(s, stored, k)
  }

  // ----- arithmetic of the counters

  lemma {:induction false} ModAdd(n: nat, a: nat, b: nat)
    requires 0 < n
    ensures (n * a + b) % n == b % n
  {
    if a > 0 {
      ModAdd(n, a - 1, b);
      assert n * a + b == n + (n * (a - 1) + b);
      ModOnce(n, n * (a - 1) + b);
    }
  }

  lemma ModOnce(n: nat, x: nat)
    requires 0 < n
    ensures (n + x) % n == x % n
  {
    var a, r := x / n, x % n;
    assert n + x == n * (a + 1) + r;
    ModUnique(n, a + 1, r, n + x);
  }

  lemma ModUnique(n: nat, q: int, r: nat, y: nat)
    requires 0 < n && r < n && y == n * q + r
    ensures y % n == r
  {
    var p, t := y / n, y % n;
    assert y == n * p + t;
    assert n * (p - q) == r - t;
    Multiple(n, p - q);
    Multiple(n, q - p);
  }

  /** Indexing by the wrapped counter is indexing by the true one. */
  lemma WrappedIndex(x: nat, n: nat)
    requires SizeOk(n)
    ensures (x % WORD32) % n == x % n
  {
    var q, k := WORD32 / n, x / WORD32;
    assert WORD32 == n * q;
    assert x == WORD32 * k + x % WORD32;
    assert WORD32 * k == n * (q * k);
    ModAdd(n, q * k, x % WORD32);
  }

  lemma DifferentSlots(k: nat, l: nat, n: nat)
    requires 0 < n && k < l < k + n
    ensures k % n != l % n
  {
    var a, b := k / n, l / n;
    if k % n == l % n {
      assert k == n * a + k % n && l == n * b + l % n;
      assert l - k == n * (b - a);
      Multiple(n, b - a);
    }
  }

  lemma Multiple(n: nat, d: int)
    requires 0 < n
    ensures n * d <= 0 || n * d >= n
    ensures n * d == 0 <==> d == 0
  {
  }

  lemma WrapNext(x: nat)
    ensures (x % WORD32 + 1) % WORD32 == (x + 1) % WORD32
  {
  }

  lemma WrapAdd(x: nat, n: nat)
    ensures (x % WORD32 + n) % WORD32 == (x + n) % WORD32
  {
  }

  /** Two stream positions less than 2^32 apart have different counters. */
  lemma WrapDistinct(x: nat, y: nat)
    requires x <= y < x + WORD32
    ensures x % WORD32 == y % WORD32 <==> x == y
  {
  }

  lemma WrapDifference(x: nat, y: nat)
    requires x <= y < x + WORD32
    ensures (y % WORD32 - x % WORD32) % WORD32 == y - x
  {
  }

  /** The tests for full and empty see the true number of unread bytes. */
  lemma CountsAreTrue(s: Pipe, stored: seq<int>, f: nat)
    requires Stream(s, stored, f)
    ensures Empty(s) <==> |stored| == f
    ensures Full(s) <==> |stored| == f + |s.data|
    ensures (s.nwrite - s.nread) % WORD32 == |stored| - f
  {
    WrapDistinct(f, |stored|);
    WrapAdd(f, |s.data|);
    WrapDistinct(|stored|, f + |s.data|);
    WrapDifference(f, |stored|);
  }

  // ----- every step keeps the stream

  lemma StoreStream(s: Pipe, stored: seq<int>, f: nat, b: int)
    requires Stream(s, stored, f) && !Full(s)
    ensures Stream(Store(s, b), stored + [b], f)
  {
    var n, s', stored' := |s.data|, Store(s, b), stored + [b];
    CountsAreTrue(s, stored, f);
    WrappedIndex(|stored|, n);
    WrapNext(|stored|);
    forall k: nat | f <= k ensures SlotOk(s', stored', k) {
      assert SlotOk(s, stored, k);
      if k < |stored| {
        DifferentSlots(k, |stored|, n);
      }
    }
  }

  lemma FetchStream(s: Pipe, stored: seq<int>, f: nat)
    requires Stream(s, stored, f) && !Empty(s)
    ensures f < |stored| && Head(s) == stored[f] && Stream(Fetch(s), stored, f + 1)
  {
    CountsAreTrue(s, stored, f);
    WrappedIndex(f, |s.data|);
    WrapNext(f);
    assert SlotOk(s, stored, f);
    forall k: nat | f + 1 <= k ensures SlotOk(Fetch(s), stored, k) {
      assert SlotOk(s, stored, k);
    }
  }

  /** pipewrite stores as many bytes as fit, in order, and stops exactly when all are stored or the ring is full. */
  lemma {:induction false} WriteStream(s: Pipe, stored: seq<int>, f: nat, addr: seq<int>, i: nat, killed: bool)
    requires Stream(s, stored, f) && i <= |addr|
    ensures var m := Min(|addr|, i + |s.data| - (|stored| - f));
            var (s', out, j) := Write(s, addr, i, killed);
            && i <= m == j && Stream(s', stored + addr[i..m], f)
            && out == (if m == |addr| then Done(m) else if !s.readopen || killed then Failed else Asleep(m))
    decreases |addr| - i
  {
    CountsAreTrue(s, stored, f);
    if i < |addr| && !Full(s) {
      StoreStream(s, stored, f, addr[i]);
      WriteStream(Store(s, addr[i]), stored + [addr[i]], f, addr, i + 1, killed);
      var m := Min(|addr|, i + |s.data| - (|stored| - f));
      assert stored + [addr[i]] + addr[i + 1..m] == stored + addr[i..m];
    } else {
      assert stored + addr[i..i] == stored;
      SameStream(s, s.(readers := false), stored, f);
      SameStream(s, s.(readers := false, writers := true), stored, f);
    }
  }

  lemma SameStream(s: Pipe, s': Pipe, stored: seq<int>, f: nat)
    requires Stream(s, stored, f) && s'.data == s.data && s'.nread == s.nread && s'.nwrite == s.nwrite
    ensures Stream(s', stored, f)
  {
    forall k: nat | f <= k ensures SlotOk(s', stored, k) {
      assert SlotOk(s, stored, k);
    }
  }

  /** The copy loop takes the oldest unread bytes, in order. */
  lemma {:induction false} CopyStream(s: Pipe, stored: seq<int>, f: nat, n: nat)
    requires Stream(s, stored, f)
    ensures var c := Min(n, |stored| - f);
            Copy(s, n).1 == stored[f..f + c] && Stream(Copy(s, n).0, stored, f + c)
    decreases n
  {
    CountsAreTrue(s, stored, f);
    if n > 0 && !Empty(s) {
      FetchStream(s, stored, f);
      CopyStream(Fetch(s), stored, f + 1, n - 1);
      var c := Min(n, |stored| - f);
      assert stored[f..f + c] == [stored[f]] + stored[f + 1..f + c];
    }
  }

  /**
   piperead gives up or sleeps exactly if nothing is unread and the write end is open, and takes the
   oldest unread bytes otherwise.  Only a sleep adds a reader; only a read that takes wakes the writers.
   */
  lemma ReadStream(s: Pipe, stored: seq<int>, f: nat, n: nat, killed: bool)
    requires Stream(s, stored, f)
    ensures var (s', out) := Read(s, n, killed);
            var c := Min(n, |stored| - f);
            && out == (if |stored| == f && s.writeopen then (if killed then Failed else Asleep(0))
                       else Got(stored[f..f + c]))
            && Stream(s', stored, if out.Got? then f + c else f)
            && s'.readopen == s.readopen && s'.writeopen == s.writeopen
            && s'.readers == (s.readers || (|stored| == f && s.writeopen && !killed))
            && s'.writers == (s.writers && |stored| == f && s.writeopen)
  {
    CountsAreTrue(s, stored, f);
    CopyStream(s, stored, f, n);
    CopyFlags(s, n);
    SameStream(s, s.(readers := true), stored, f);
    SameStream(Copy(s, n).0, Copy(s, n).0.(writers := false), stored, f + Min(n, |stored| - f));
  }

  /** pipeclose shuts one end and wakes those who sleep at the other; the bytes stay. */
  lemma CloseShuts(s: Pipe, stored: seq<int>, f: nat)
    requires Stream(s, stored, f)
    ensures var s' := Close(s, true);
            && !s'.writeopen && s'.readopen == s.readopen && !s'.readers && s'.writers == s.writers
            && Stream(s', stored, f)
    ensures var s' := Close(s, false);
            && !s'.readopen && s'.writeopen == s.writeopen && !s'.writers && s'.readers == s.readers
            && Stream(s', stored, f)
  {
    SameStream(s, Close(s, true), stored, f);
    SameStream(s, Close(s, false), stored, f);
  }

  /** What a read does to a pipe, whatever went through it before: said without the code. */
  ghost predicate ReadsOldest(s: Pipe, s': Pipe, out: Outcome, n: nat, killed: bool) {
    forall stored, f: nat | Stream(s, stored, f) ::
      && out == (if |stored| == f && s.writeopen then (if killed then Failed else Asleep(0))
                 else Got(stored[f..Min(f + n, |stored|)]))
      && Stream(s', stored, if out.Got? then Min(f + n, |stored|) else f)
  }

  /** What a write does to it. */
  ghost predicate WritesWhatFits(s: Pipe, s': Pipe, out: Outcome, addr: seq<int>, i: nat, j: nat, killed: bool) {
    forall stored, f: nat | Stream(s, stored, f) ::
      && i <= j == Min(|addr|, i + |s.data| - (|stored| - f)) && Stream(s', stored + addr[i..j], f)
      && out == (if j == |addr| then Done(j) else if !s.readopen || killed then Failed else Asleep(j))
  }

  lemma ReadIsOldest(s: Pipe, n: nat, killed: bool)
    ensures ReadsOldest(s, Read(s, n, killed).0, Read(s, n, killed).1, n, killed)
  {
    forall stored, f: nat | Stream(s, stored, f) {
      ReadStream(s, stored, f, n, killed);
    }
  }

  lemma WriteIsWhatFits(s: Pipe, addr: seq<int>, i: nat, killed: bool)
    requires i <= |addr|
    ensures var (s', out, j) := Write(s, addr, i, killed); WritesWhatFits(s, s', out, addr, i, j, killed)
  {
    forall stored, f: nat | Stream(s, stored, f) {
      WriteStream(s, stored, f, addr, i, killed);
    }
  }

  // ----- runs

  datatype Action =
    | DoWrite(addr: seq<int>, i: nat, killed: bool)
    | DoRead(n: nat, killed: bool)
    | DoClose(writable: bool)

  /** A pipe with all bytes ever stored in it and all bytes ever read from it. */
  datatype History = History(pipe: Pipe, stored: seq<int>, fetched: seq<int>)

  function Step(h: History, a: Action): History {
    match a
    case DoWrite(addr, i, killed) =>
      var (s', _, j) := Write(h.pipe, addr, i, killed);
      h.(pipe := s', stored := h.stored + if i <= j <= |addr| then addr[i..j] else [])
    case DoRead(n, killed) =>
      var (s', out) := Read(h.pipe, n, killed);
      h.(pipe := s', fetched := h.fetched + if out.Got? then out.bytes else [])
    case DoClose(writable) => h.(pipe := Close(h.pipe, writable))
  }

  function Run(h: History, actions: seq<Action>): History
    decreases actions
  {
    if actions == [] then h else Run(Step(h, actions[0]), actions[1..])
  }

  ghost predicate Fifo(h: History) {
    && |h.fetched| <= |h.stored| && h.fetched == h.stored[..|h.fetched|]
    && Stream(h.pipe, h.stored, |h.fetched|)
  }

  lemma WriteKeepsFifo(h: History, addr: seq<int>, i: nat, killed: bool)
    requires Fifo(h)
    ensures Fifo(Step(h, DoWrite(addr, i, killed)))
  {
    var f := |h.fetched|;
    if i <= |addr| {
      WriteStream(h.pipe, h.stored, f, addr, i, killed);
      var more := addr[i..Write(h.pipe, addr, i, killed).2];
      assert (h.stored + more)[..f] == h.stored[..f];
    } else {
      assert h.stored + [] == h.stored;
      SameStream(h.pipe, h.pipe.(readers := false), h.stored, f);
    }
  }

  lemma ReadKeepsFifo(h: History, n: nat, killed: bool)
    requires Fifo(h)
    ensures Fifo(Step(h, DoRead(n, killed)))
  {
    var f := |h.fetched|;
    ReadStream(h.pipe, h.stored, f, n, killed);
    var c := Min(n, |h.stored| - f);
    assert h.stored[..f] + h.stored[f..f + c] == h.stored[..f + c];
    assert h.fetched + [] == h.fetched;
  }

  lemma StepKeepsFifo(h: History, a: Action)
    requires Fifo(h)
    ensures Fifo(Step(h, a)) && h.fetched <= Step(h, a).fetched && h.stored <= Step(h, a).stored
  {
    match a {
      case DoWrite(addr, i, killed) => WriteKeepsFifo(h, addr, i, killed);
      case DoRead(n, killed) => ReadKeepsFifo(h, n, killed);
      case DoClose(writable) => SameStream(h.pipe, Close(h.pipe, writable), h.stored, |h.fetched|);
    }
  }

  /** pipealloc. */
  function NewPipe(data: seq<int>): Pipe {
    Pipe(data, 0, 0, true, true, false, false)
  }

  /**
   After any interleaving of writers, readers and closes, the bytes read are a prefix of the bytes
   stored, and the counters' difference is the number of unread bytes, at most the ring's size.
   */
  lemma {:induction false} PipeIsFifo(h: History, actions: seq<Action>)
    requires Fifo(h)
    ensures var h' := Run(h, actions);
            && |h'.fetched| <= |h'.stored| && h'.fetched == h'.stored[..|h'.fetched|]
            && (h'.pipe.nwrite - h'.pipe.nread) % WORD32 == |h'.stored| - |h'.fetched| <= |h'.pipe.data|
            && h.fetched <= h'.fetched && h.stored <= h'.stored
    decreases actions
  {
    if actions == [] {
      CountsAreTrue(h.pipe, h.stored, |h.fetched|);
    } else {
      StepKeepsFifo(h, actions[0]);
      PipeIsFifo(Step(h, actions[0]), actions[1..]);
    }
  }

  lemma NewPipeIsFifo(data: seq<int>)
    requires SizeOk(|data|)
    ensures Fifo(History(NewPipe(data), [], []))
  {
  }

  // ----- ends

  lemma StepEnds(h: History, a: Action)
    requires Fifo(h)
    ensures Step(h, a).pipe.readopen == (h.pipe.readopen && a != DoClose(false))
    ensures Step(h, a).pipe.writeopen == (h.pipe.writeopen && a != DoClose(true))
  {
    match a {
      case DoWrite(addr, i, killed) => WriteFlags(h.pipe, addr, i, killed);
      case DoRead(n, killed) => ReadStream(h.pipe, h.stored, |h.fetched|, n, killed);
      case DoClose(_) => CloseShuts(h.pipe, h.stored, |h.fetched|);
    }
  }

  /** An end is open exactly until somebody closes it. */
  lemma {:induction false} EndsStayShut(h: History, actions: seq<Action>)
    requires Fifo(h)
    ensures Fifo(Run(h, actions))
    ensures Run(h, actions).pipe.readopen == (h.pipe.readopen && DoClose(false) !in actions)
    ensures Run(h, actions).pipe.writeopen == (h.pipe.writeopen && DoClose(true) !in actions)
    decreases actions
  {
    if actions != [] {
      StepKeepsFifo(h, actions[0]);
      StepEnds(h, actions[0]);
      EndsStayShut(Step(h, actions[0]), actions[1..]);
    }
  }

  /** Once the write end is closed, a reader takes what is left and then sees the end of the file; it never sleeps. */
  lemma EndOfFile(h: History, actions: seq<Action>, n: nat, killed: bool)
    requires Fifo(h) && DoClose(true) in actions
    ensures var h' := Run(h, actions);
            var f := |h'.fetched|;
            && f <= |h'.stored|
            && Read(h'.pipe, n, killed).1 == Got(h'.stored[f..Min(f + n, |h'.stored|)])
  {
    var h' := Run(h, actions);
    EndsStayShut(h, actions);
    ReadStream(h'.pipe, h'.stored, |h'.fetched|, n, killed);
  }

  /** Once the read end is closed, a writer stores what fits and fails if something is left over; it never sleeps. */
  lemma BrokenPipe(h: History, actions: seq<Action>, addr: seq<int>, killed: bool)
    requires Fifo(h) && DoClose(false) in actions
    ensures var h' := Run(h, actions);
            Write(h'.pipe, addr, 0, killed).1
            == if |addr| + |h'.stored| - |h'.fetched| <= |h'.pipe.data| then Done(|addr|) else Failed
  {
    var h' := Run(h, actions);
    EndsStayShut(h, actions);
    WriteStream(h'.pipe, h'.stored, |h'.fetched|, addr, 0, killed);
  }

  // ----- wakeups

  /** Readers sleep only while there is nothing to read, and writers only while there is no room. */
  predicate ReadersOk(s: Pipe) {
    s.readers ==> Empty(s) && s.writeopen
  }

  predicate WritersOk(s: Pipe) {
    s.writers ==> Full(s) && s.readopen
  }

  lemma {:induction false} WriteFlags(s: Pipe, addr: seq<int>, i: nat, killed: bool)
    ensures var (s', out, _) := Write(s, addr, i, killed);
            && s'.readopen == s.readopen && s'.writeopen == s.writeopen
            && s'.readers == (s.readers && out.Failed?)
            && s'.writers == (s.writers || out.Asleep?)
            && (out.Failed? || out.Asleep? ==> Full(s')) && (out.Asleep? ==> s.readopen)
    decreases |addr| - i
  {
    if i < |addr| && !Full(s) {
      WriteFlags(Store(s, addr[i]), addr, i + 1, killed);
    }
  }

  lemma {:induction false} CopyFlags(s: Pipe, n: nat)
    ensures var s' := Copy(s, n).0;
            && s'.readopen == s.readopen && s'.writeopen == s.writeopen
            && s'.readers == s.readers && s'.writers == s.writers
    decreases n
  {
    if n > 0 && !Empty(s) {
      CopyFlags(Fetch(s), n - 1);
    }
  }

  /**
   A pipewrite leaves a reader asleep beside unread bytes exactly if one was asleep, the call has
   more bytes than the ring holds, and it gives up: that path returns without a wakeup.
   */
  lemma WriteWakesReaders(s: Pipe, stored: seq<int>, f: nat, addr: seq<int>, i: nat, killed: bool)
    requires Stream(s, stored, f) && i <= |addr| && ReadersOk(s)
    ensures ReadersOk(Write(s, addr, i, killed).0) <==>
            !(s.readers && |addr| - i > |s.data| && (!s.readopen || killed))
  {
    CountsAreTrue(s, stored, f);
    WriteStream(s, stored, f, addr, i, killed);
    WriteFlags(s, addr, i, killed);
    var (s', out, j) := Write(s, addr, i, killed);
    CountsAreTrue(s', stored + addr[i..j], f);
  }

  /**
   From a new pipe: a reader sleeps, then a writer of more than PIPESIZE bytes that was killed fills
   the ring and returns, and the reader stays asleep beside PIPESIZE unread bytes.
   */
  lemma ReaderCanMissAWakeup(data: seq<int>, addr: seq<int>)
    requires |data| == PIPESIZE < |addr|
    ensures var h := Run(History(NewPipe(data), [], []), [DoRead(1, false), DoWrite(addr, 0, true)]);
            h.pipe.readers && h.pipe.readopen && h.pipe.writeopen && h.fetched == [] && h.stored == addr[..PIPESIZE]
    ensures !ReadersOk(Run(History(NewPipe(data), [], []), [DoRead(1, false), DoWrite(addr, 0, true)]).pipe)
  {
    var h := History(NewPipe(data), [], []);
    PipeSizeOk();
    NewPipeIsFifo(data);
    var h1 := Step(h, DoRead(1, false));
    StepKeepsFifo(h, DoRead(1, false));
    assert h1.pipe == h.pipe.(readers := true) && h1.stored == [] && h1.fetched == [];
    WriteWakesReaders(h1.pipe, [], 0, addr, 0, true);
    WriteStream(h1.pipe, [], 0, addr, 0, true);
    WriteFlags(h1.pipe, addr, 0, true);
    var h2 := Step(h1, DoWrite(addr, 0, true));
    assert [] + addr[0..PIPESIZE] == addr[..PIPESIZE];
    RunTwo(h, DoRead(1, false), DoWrite(addr, 0, true));
  }

  lemma RunTwo(h: History, a: Action, b: Action)
    ensures Run(h, [a, b]) == Step(Step(h, a), b)
  {
    var t := Step(h, a);
    assert [a, b][1..] == [b] && [b][1..] == [];
    assert Run(t, [b]) == Run(Step(t, b), []);
  }

  lemma StepKeepsWriters(h: History, a: Action)
    requires Fifo(h) && WritersOk(h.pipe)
    ensures WritersOk(Step(h, a).pipe)
  {
    var s, f := h.pipe, |h.fetched|;
    CountsAreTrue(s, h.stored, f);
    match a {
      case DoWrite(addr, i, killed) =>
        WriteFlags(s, addr, i, killed);
        if i <= |addr| {
          WriteStream(s, h.stored, f, addr, i, killed);
          var (s', _, j) := Write(s, addr, i, killed);
          CountsAreTrue(s', h.stored + addr[i..j], f);
        }
      case DoRead(_, _) =>
      case DoClose(_) =>
    }
  }

  lemma {:induction false} WritersNeverMissAWakeup(h: History, actions: seq<Action>)
    requires Fifo(h) && WritersOk(h.pipe)
    ensures WritersOk(Run(h, actions).pipe)
    decreases actions
  {
    if actions != [] {
      StepKeepsFifo(h, actions[0]);
      StepKeepsWriters(h, actions[0]);
      WritersNeverMissAWakeup(Step(h, actions[0]), actions[1..]);
    }
  }

  lemma ReadKeepsReaders(s: Pipe, n: nat, killed: bool)
    requires ReadersOk(s)
    ensures ReadersOk(Read(s, n, killed).0)
  {
    CopyFlags(s, n);
    if Empty(s) {
      assert Copy(s, n).0 == s;
    }
  }
}
