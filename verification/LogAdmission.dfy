/**
 Admission to the log (`begin_op`, `end_op`, `log_write` in `xv6/log.c`) as a machine over
 any number of processes.  An action is one critical section of `log.lock`, except that the tests
 at the start of `log_write`, which run before it takes the lock, are an action of their own.
 `sleep` and `wakeup` on `&log` act on whole critical sections (the SleepLock module justifies this).
 */
module LogAdmission {
  import opened Common

  /** `MAXOPBLOCKS`, `LOGSIZE` and `log.size`. */
  datatype Params = Params(maxOp: nat, capacity: nat, size: nat)

  /** Where a process is: outside, asleep in `begin_op`, woken there, inside an operation that has
      logged some blocks, inside `log_write` of block `b` past its tests, or running `commit`. */
  datatype Phase =
    | Idle | Asleep | Woken | InOp(logged: set<int>) | Writing(logged: set<int>, b: int) | Committer

  datatype State = State(lh: seq<int>, outstanding: int, committing: bool, procs: seq<Phase>)

  datatype Action =
    | Begin(p: nat)              // one pass of the loop in begin_op
    | LogTest(p: nat, b: int)    // the tests of log_write, without the lock
    | LogAppend(p: nat)          // the rest of log_write
    | End(p: nat)                // first critical section of end_op
    | Erase(p: nat)              // commit() sets lh.n to 0
    | EndCommit(p: nat)          // second critical section of end_op
    | Kill(p: nat)               // kill() makes a sleeper runnable

  datatype Outcome = Next(s: State) | Panic | Disabled

  function WakeAll(procs: seq<Phase>): (r: seq<Phase>)
    ensures |r| == |procs|
    ensures forall i | 0 <= i < |procs| :: r[i] == if procs[i].Asleep? then Woken else procs[i]
  {
    if procs == [] then [] else [if procs[0].Asleep? then Woken else procs[0]] + WakeAll(procs[1..])
  }

  predicate MustWait(c: Params, s: State) {
    s.committing || |s.lh| + (s.outstanding + 1) * c.maxOp > c.capacity
  }

  /** Log absorption: a block already in the header is not added again. */
  function Absorb(lh: seq<int>, b: int): seq<int> {
    if b in lh then lh else lh + [b]
  }

  function Step(c: Params, s: State, a: Action): Outcome {
    if a.p >= |s.procs| then Disabled
    else
      var ph := s.procs[a.p];
      match a
      case Begin(p) =>
        if !(ph.Idle? || ph.Woken?) then Disabled
        else if MustWait(c, s) then Next(s.(procs := s.procs[p := Asleep]))
        else Next(s.(procs := s.procs[p := InOp({})], outstanding := s.outstanding + 1))
      case LogTest(p, b) =>
        if !ph.InOp? || |ph.logged + {b}| > c.maxOp then Disabled
        else if |s.lh| >= c.capacity || |s.lh| >= c.size - 1 || s.outstanding < 1 then Panic
        else Next(s.(procs := s.procs[p := Writing(ph.logged, b)]))
      case LogAppend(p) =>
        if !ph.Writing? then Disabled
        else Next(s.(lh := Absorb(s.lh, ph.b), procs := s.procs[p := InOp(ph.logged + {ph.b})]))
      case End(p) =>
        if !ph.InOp? then Disabled
        else if s.committing then Panic
        else if s.outstanding - 1 == 0 then
          Next(s.(outstanding := 0, committing := true, procs := s.procs[p := Committer]))
        else
          Next(s.(outstanding := s.outstanding - 1, procs := WakeAll(s.procs[p := Idle])))
      case Erase(p) =>
        if !ph.Committer? then Disabled else Next(s.(lh := []))
      case EndCommit(p) =>
        if !ph.Committer? || s.lh != [] then Disabled
        else Next(s.(committing := false, procs := WakeAll(s.procs[p := Idle])))
      case Kill(p) =>
        if !ph.Asleep? then Disabled else Next(s.(procs := s.procs[p := Woken]))
  }

  // ----- what the calls do, field by field

  /** begin_op admits exactly if no commit runs and every operation's worst case still fits; otherwise it sleeps. */
  lemma BeginAdmits(c: Params, s: State, p: nat)
    requires p < |s.procs| && (s.procs[p].Idle? || s.procs[p].Woken?)
    ensures var o := Step(c, s, Begin(p));
            && o.Next? && o.s.lh == s.lh && o.s.committing == s.committing
            && (if !s.committing && |s.lh| + s.outstanding * c.maxOp + c.maxOp <= c.capacity
                then o.s.procs == s.procs[p := InOp({})] && o.s.outstanding == s.outstanding + 1
                else o.s.procs == s.procs[p := Asleep] && o.s.outstanding == s.outstanding)
  {
    assert (s.outstanding + 1) * c.maxOp == s.outstanding * c.maxOp + c.maxOp;
  }

  /** The last end_op starts a commit; any other one leaves nobody asleep. */
  lemma EndWakes(c: Params, s: State, p: nat)
    requires p < |s.procs| && s.procs[p].InOp? && !s.committing
    ensures var o := Step(c, s, End(p));
            && o.Next? && o.s.lh == s.lh && o.s.outstanding == s.outstanding - 1
            && (if s.outstanding == 1 then o.s.committing && o.s.procs == s.procs[p := Committer]
                else
                  && !o.s.committing && |o.s.procs| == |s.procs| && o.s.procs[p] == Idle
                  && forall q | 0 <= q < |s.procs| && q != p ::
                       o.s.procs[q] == if s.procs[q] == Asleep then Woken else s.procs[q])
  {
  }

  /** The end of a commit lets operations in again, and leaves nobody asleep. */
  lemma EndCommitWakes(c: Params, s: State, p: nat)
    requires p < |s.procs| && s.procs[p].Committer? && s.lh == []
    ensures var o := Step(c, s, EndCommit(p));
            && o.Next? && o.s.lh == [] && o.s.outstanding == s.outstanding && !o.s.committing
            && |o.s.procs| == |s.procs| && o.s.procs[p] == Idle
            && forall q | 0 <= q < |s.procs| && q != p ::
                 o.s.procs[q] == if s.procs[q] == Asleep then Woken else s.procs[q]
  {
  }

  /** A log_write past its tests adds its block once. */
  lemma AppendAbsorbs(c: Params, s: State, p: nat)
    requires p < |s.procs| && s.procs[p].Writing?
    ensures var o, b := Step(c, s, LogAppend(p)), s.procs[p].b;
            && o.Next? && o.s == s.(lh := o.s.lh, procs := s.procs[p := InOp(s.procs[p].logged + {b})])
            && b in o.s.lh && s.lh <= o.s.lh && (b in s.lh ==> o.s.lh == s.lh) && (b !in s.lh ==> o.s.lh == s.lh + [b])
  {
  }

  // ----- whole calls

  predicate MayBegin(s: State, p: nat) {
    p < |s.procs| && (s.procs[p].Idle? || s.procs[p].Woken?)
  }

  predicate Inside(s: State, p: nat) {
    p < |s.procs| && s.procs[p].InOp?
  }

  predicate MayLog(c: Params, s: State, p: nat, b: int) {
    Inside(s, p) && |s.procs[p].logged + {b}| <= c.maxOp
  }

  /** Both steps of `log_write` by process `p`, with nobody in between. */
  function LogSteps(c: Params, s: State, p: nat, b: int): Outcome {
    var o := Step(c, s, LogTest(p, b));
    if o.Next? then Step(c, o.s, LogAppend(p)) else o
  }

  /** All steps of `end_op` by process `p`, with nobody in between. */
  function EndSteps(c: Params, s: State, p: nat): Outcome {
    var o := Step(c, s, End(p));
    if !o.Next? || !o.s.committing then o
    else
      var e := Step(c, o.s, Erase(p));
      if e.Next? then Step(c, e.s, EndCommit(p)) else e
  }

  /** After a whole end_op, whether or not it commits, nobody sleeps on `&log`. */
  lemma EndOpLeavesNoSleeper(c: Params, s: State, p: nat)
    requires Inside(s, p) && !s.committing
    ensures var o := EndSteps(c, s, p);
            && o.Next? && o.s.outstanding == s.outstanding - 1 && !o.s.committing
            && (s.outstanding == 1 ==> o.s.lh == [])
            && forall q | 0 <= q < |o.s.procs| :: !o.s.procs[q].Asleep?
  {
    var t := Step(c, s, End(p)).s;
    EndWakes(c, s, p);
    if s.outstanding == 1 {
      EndCommitWakes(c, t.(lh := []), p);
    }
  }

  // ----- reservations

  /** Inside an operation. */
  predicate Running(ph: Phase) {
    ph.InOp? || ph.Writing?
  }

  function Used(ph: Phase): nat {
    if Running(ph) then 1 else 0
  }

  /** How many processes are inside an operation. */
  function Operations(procs: seq<Phase>): nat {
    if procs == [] then 0 else Used(procs[0]) + Operations(procs[1..])
  }

  function Spare(c: Params, ph: Phase): int {
    if Running(ph) then c.maxOp - |ph.logged| else 0
  }

  /** Blocks that running operations may still log. */
  function Unused(c: Params, procs: seq<Phase>): int {
    if procs == [] then 0 else Spare(c, procs[0]) + Unused(c, procs[1..])
  }

  lemma {:induction false} CountUpdate(c: Params, procs: seq<Phase>, p: nat, ph: Phase)
    requires p < |procs|
    ensures Operations(procs[p := ph]) == Operations(procs) - Used(procs[p]) + Used(ph)
    ensures Unused(c, procs[p := ph]) == Unused(c, procs) - Spare(c, procs[p]) + Spare(c, ph)
  {
    if p == 0 {
      assert procs[p := ph][1..] == procs[1..];
    } else {
      CountUpdate(c, procs[1..], p - 1, ph);
      assert procs[p := ph][1..] == procs[1..][p - 1 := ph];
    }
  }

  lemma {:induction false} CountWake(c: Params, procs: seq<Phase>)
    ensures Operations(WakeAll(procs)) == Operations(procs)
    ensures Unused(c, WakeAll(procs)) == Unused(c, procs)
  {
    if procs != [] {
      CountWake(c, procs[1..]);
      assert WakeAll(procs)[1..] == WakeAll(procs[1..]);
    }
  }

  lemma {:induction false} CountBounds(c: Params, procs: seq<Phase>, p: nat)
    requires p < |procs|
    requires forall i | 0 <= i < |procs| :: Spare(c, procs[i]) >= 0
    ensures Operations(procs) >= Used(procs[p])
    ensures Unused(c, procs) >= Spare(c, procs[p])
  {
    UnusedNonNegative(c, procs[1..]);
    if p > 0 {
      CountBounds(c, procs[1..], p - 1);
    }
  }

  lemma {:induction false} UnusedNonNegative(c: Params, procs: seq<Phase>)
    requires forall i | 0 <= i < |procs| :: Spare(c, procs[i]) >= 0
    ensures Unused(c, procs) >= 0
  {
    if procs != [] {
      UnusedNonNegative(c, procs[1..]);
    }
  }

  lemma {:induction false} UnusedAtMost(c: Params, procs: seq<Phase>)
    ensures Unused(c, procs) <= Operations(procs) * c.maxOp
  {
    if procs != [] {
      UnusedAtMost(c, procs[1..]);
      assert (Used(procs[0]) + Operations(procs[1..])) * c.maxOp
          == Used(procs[0]) * c.maxOp + Operations(procs[1..]) * c.maxOp;
    }
  }

  // ----- the invariant

  ghost predicate PhaseOk(c: Params, lh: seq<int>, ph: Phase) {
    && (Running(ph) ==> |ph.logged| <= c.maxOp && forall b | b in ph.logged :: b in lh)
    && (ph.Writing? ==> |ph.logged + {ph.b}| <= c.maxOp)
  }

  /** The reservation invariant: logged blocks plus unused reservations fit the log. */
  ghost predicate Reserved(c: Params, s: State) {
    |s.lh| + Unused(c, s.procs) <= c.capacity
  }

  /** `committing` marks exactly one process inside `commit`. */
  ghost predicate CommitExclusive(s: State) {
    && (s.committing ==> s.outstanding == 0)
    && (s.committing <==> exists p :: 0 <= p < |s.procs| && s.procs[p].Committer?)
    && forall p, q | 0 <= p < q < |s.procs| :: !(s.procs[p].Committer? && s.procs[q].Committer?)
  }

  /** No lost wakeup: whoever sleeps on `&log` has somebody who will wake it. */
  ghost predicate SleepersCovered(s: State) {
    forall p | 0 <= p < |s.procs| && s.procs[p].Asleep? :: s.committing || s.outstanding > 0
  }

  /** Between transactions the log is empty. */
  ghost predicate Quiet(s: State) {
    s.outstanding == 0 && !s.committing ==> s.lh == []
  }

  ghost predicate Inv(c: Params, s: State) {
    && s.outstanding == Operations(s.procs)
    && Distinct(s.lh)
    && (forall p | 0 <= p < |s.procs| :: PhaseOk(c, s.lh, s.procs[p]))
    && Reserved(c, s)
    && CommitExclusive(s)
    && SleepersCovered(s)
    && Quiet(s)
  }

  function Init(n: nat): State {
    State([], 0, false, seq(n, _ => Idle))
  }

  lemma {:induction false} InitCounts(c: Params, n: nat)
    ensures Operations(seq(n, _ => Idle)) == 0 && Unused(c, seq(n, _ => Idle)) == 0
  {
    if n > 0 {
      InitCounts(c, n - 1);
      var s := seq(n, _ => Idle);
      assert s[1..] == seq(n - 1, _ => Idle);
    }
  }

  lemma InitOk(c: Params, n: nat)
    ensures Inv(c, Init(n))
  {
    InitCounts(c, n);
  }

  lemma BeginKeepsInv(c: Params, s: State, p: nat)
    requires Inv(c, s) && c.maxOp <= c.capacity && Step(c, s, Begin(p)).Next?
    ensures Inv(c, Step(c, s, Begin(p)).s)
  {
    var t := Step(c, s, Begin(p)).s;
    BeginReserves(c, s, p);
    forall q | 0 <= q < |t.procs| ensures PhaseOk(c, t.lh, t.procs[q]) {
      assert PhaseOk(c, s.lh, s.procs[q]);
    }
    if s.committing {
      var q :| 0 <= q < |s.procs| && s.procs[q].Committer?;
      assert t.procs[q].Committer?;
    }
  }

  lemma BeginReserves(c: Params, s: State, p: nat)
    requires s.outstanding == Operations(s.procs) && Reserved(c, s) && Step(c, s, Begin(p)).Next?
    ensures var t := Step(c, s, Begin(p)).s; t.outstanding == Operations(t.procs) && Reserved(c, t)
  {
    CountUpdate(c, s.procs, p, Step(c, s, Begin(p)).s.procs[p]);
    UnusedAtMost(c, s.procs);
    assert (s.outstanding + 1) * c.maxOp == s.outstanding * c.maxOp + c.maxOp;
  }

  lemma SetGrowth(logged: set<int>, b: int)
    ensures |logged + {b}| == if b in logged then |logged| else |logged| + 1
  {
    if b in logged {
      assert logged + {b} == logged;
    }
  }

  lemma LogTestKeepsInv(c: Params, s: State, p: nat, b: int)
    requires Inv(c, s) && Step(c, s, LogTest(p, b)).Next?
    ensures Inv(c, Step(c, s, LogTest(p, b)).s)
  {
    var t := Step(c, s, LogTest(p, b)).s;
    CountUpdate(c, s.procs, p, t.procs[p]);
    RunningImpliesOpen(c, s, p);
    assert PhaseOk(c, s.lh, s.procs[p]);
    forall q | 0 <= q < |t.procs| ensures PhaseOk(c, t.lh, t.procs[q]) {
      assert PhaseOk(c, s.lh, s.procs[q]);
    }
  }

  lemma LogAppendKeepsInv(c: Params, s: State, p: nat)
    requires Inv(c, s) && Step(c, s, LogAppend(p)).Next?
    ensures Inv(c, Step(c, s, LogAppend(p)).s)
  {
    var t := Step(c, s, LogAppend(p)).s;
    CountUpdate(c, s.procs, p, t.procs[p]);
    SetGrowth(s.procs[p].logged, s.procs[p].b);
    RunningImpliesOpen(c, s, p);
    assert PhaseOk(c, s.lh, s.procs[p]);
    forall q | 0 <= q < |t.procs| ensures PhaseOk(c, t.lh, t.procs[q]) {
      assert PhaseOk(c, s.lh, s.procs[q]);
    }
  }

  lemma RunningImpliesOpen(c: Params, s: State, p: nat)
    requires Inv(c, s) && p < |s.procs| && Running(s.procs[p])
    ensures s.outstanding >= 1 && !s.committing
  {
    SparesOk(c, s);
    CountBounds(c, s.procs, p);
  }

  lemma SparesOk(c: Params, s: State)
    requires Inv(c, s)
    ensures forall i | 0 <= i < |s.procs| :: Spare(c, s.procs[i]) >= 0
  {
    forall i | 0 <= i < |s.procs| ensures Spare(c, s.procs[i]) >= 0 {
      assert PhaseOk(c, s.lh, s.procs[i]);
    }
  }

  lemma EndKeepsInv(c: Params, s: State, p: nat)
    requires Inv(c, s) && Step(c, s, End(p)).Next?
    ensures Inv(c, Step(c, s, End(p)).s)
  {
    var t := Step(c, s, End(p)).s;
    RunningImpliesOpen(c, s, p);
    assert PhaseOk(c, s.lh, s.procs[p]);
    if s.outstanding == 1 {
      CountUpdate(c, s.procs, p, Committer);
      assert t.procs[p].Committer?;
    } else {
      CountUpdate(c, s.procs, p, Idle);
      CountWake(c, s.procs[p := Idle]);
    }
  }

  lemma EraseKeepsInv(c: Params, s: State, p: nat)
    requires Inv(c, s) && Step(c, s, Erase(p)).Next?
    ensures Inv(c, Step(c, s, Erase(p)).s)
  {
    NoOperationDuringCommit(c, s, p);
  }

  lemma NoOperationDuringCommit(c: Params, s: State, p: nat)
    requires Inv(c, s) && p < |s.procs| && s.procs[p].Committer?
    ensures forall q | 0 <= q < |s.procs| :: !Running(s.procs[q])
  {
    forall q | 0 <= q < |s.procs| ensures !Running(s.procs[q]) {
      if Running(s.procs[q]) {
        RunningImpliesOpen(c, s, q);
      }
    }
  }

  lemma EndCommitKeepsInv(c: Params, s: State, p: nat)
    requires Inv(c, s) && Step(c, s, EndCommit(p)).Next?
    ensures Inv(c, Step(c, s, EndCommit(p)).s)
  {
    CountUpdate(c, s.procs, p, Idle);
    CountWake(c, s.procs[p := Idle]);
    NoOperationDuringCommit(c, s, p);
  }

  lemma KillKeepsInv(c: Params, s: State, p: nat)
    requires Inv(c, s) && Step(c, s, Kill(p)).Next?
    ensures Inv(c, Step(c, s, Kill(p)).s)
  {
    var t := Step(c, s, Kill(p)).s;
    CountUpdate(c, s.procs, p, Woken);
    if s.committing {
      var q :| 0 <= q < |s.procs| && s.procs[q].Committer?;
      assert t.procs[q].Committer?;
    }
  }

  lemma StepKeepsInv(c: Params, s: State, a: Action)
    requires Inv(c, s) && c.maxOp <= c.capacity && Step(c, s, a).Next?
    ensures Inv(c, Step(c, s, a).s)
  {
    match a
    case Begin(p) => BeginKeepsInv(c, s, p);
    case LogTest(p, b) => LogTestKeepsInv(c, s, p, b);
    case LogAppend(p) => LogAppendKeepsInv(c, s, p);
    case End(p) => EndKeepsInv(c, s, p);
    case Erase(p) => EraseKeepsInv(c, s, p);
    case EndCommit(p) => EndCommitKeepsInv(c, s, p);
    case Kill(p) => KillKeepsInv(c, s, p);
  }

  // ----- runs

  function Run(c: Params, s: State, run: seq<Action>): Outcome
    decreases |run|
  {
    if run == [] then Next(s)
    else
      var o := Run(c, s, run[..|run| - 1]);
      if o.Next? then Step(c, o.s, run[|run| - 1]) else o
  }

  /** Every state any run of any number of processes reaches satisfies the invariant. */
  lemma {:induction false} AdmissionSafe(c: Params, n: nat, run: seq<Action>)
    requires c.maxOp <= c.capacity && Run(c, Init(n), run).Next?
    ensures Inv(c, Run(c, Init(n), run).s)
    decreases |run|
  {
    if run == [] {
      InitOk(c, n);
    } else {
      var k := |run| - 1;
      AdmissionSafe(c, n, run[..k]);
      StepKeepsInv(c, Run(c, Init(n), run[..k]).s, run[k]);
    }
  }

  // ----- panics

  /** The `log.committing` panic of `end_op` is unreachable. */
  lemma EndNeverPanics(c: Params, n: nat, run: seq<Action>, p: nat)
    requires c.maxOp <= c.capacity && Run(c, Init(n), run).Next?
    ensures !Step(c, Run(c, Init(n), run).s, End(p)).Panic?
  {
    var s := Run(c, Init(n), run).s;
    AdmissionSafe(c, n, run);
    if p < |s.procs| && s.procs[p].InOp? {
      RunningImpliesOpen(c, s, p);
    }
  }

  /**
   When the tests of `log_write` panic in an operation within its budget: only for a block the
   operation has logged before while the log is exactly full, or because `log.size` leaves
   less room than `LOGSIZE`.  The "outside of trans" panic never happens.
   */
  lemma LogWritePanics(c: Params, n: nat, run: seq<Action>, p: nat, b: int)
    requires c.maxOp <= c.capacity && Run(c, Init(n), run).Next?
    requires !Step(c, Run(c, Init(n), run).s, LogTest(p, b)).Disabled?
    ensures var s := Run(c, Init(n), run).s;
            Step(c, s, LogTest(p, b)).Panic? <==>
            (b in s.procs[p].logged && |s.lh| == c.capacity) || |s.lh| + 1 >= c.size
  {
    var s := Run(c, Init(n), run).s;
    AdmissionSafe(c, n, run);
    RunningImpliesOpen(c, s, p);
    SparesOk(c, s);
    CountBounds(c, s.procs, p);
    SetGrowth(s.procs[p].logged, b);
  }

  // ----- the panics of log_write are reachable

  function Interval(lo: int, hi: int): (r: set<int>)
    requires lo <= hi
    ensures |r| == hi - lo && forall b :: b in r <==> lo <= b < hi
    decreases hi - lo
  {
    if lo == hi then {} else Interval(lo, hi - 1) + {hi - 1}
  }

  function UpTo(n: nat): (r: seq<int>)
    ensures |r| == n && forall b :: b in r ==> b < n
  {
    if n == 0 then [] else UpTo(n - 1) + [n - 1]
  }

  /** `m` blocks are logged; the operation of `k`, one of `n` running ones, logged those from `lo` on. */
  ghost predicate Filling(s: State, n: nat, k: nat, lo: nat, m: nat) {
    && k < n && |s.procs| == n && lo <= m
    && s.outstanding == n && !s.committing
    && s.lh == UpTo(m)
    && (forall p | k < p < n :: s.procs[p] == InOp({}))
    && s.procs[k] == InOp(Interval(lo, m))
  }

  ghost predicate Reach(c: Params, n: nat, s: State) {
    exists run :: Run(c, Init(n), run) == Next(s)
  }

  lemma ReachStep(c: Params, n: nat, s: State, a: Action)
    requires Reach(c, n, s) && Step(c, s, a).Next?
    ensures Reach(c, n, Step(c, s, a).s)
  {
    var run :| Run(c, Init(n), run) == Next(s);
    assert (run + [a])[..|run|] == run;
    assert Run(c, Init(n), run + [a]) == Step(c, s, a);
  }

  /** `m` of `n` processes have started an operation. */
  ghost predicate Started(s: State, n: nat, m: nat) {
    && s.lh == [] && s.outstanding == m && !s.committing && |s.procs| == n
    && forall p | 0 <= p < n :: s.procs[p] == if p < m then InOp({}) else Idle
  }

  lemma StartOne(c: Params, s: State, n: nat, m: nat)
    requires Started(s, n, m) && m < n && (m + 1) * c.maxOp <= c.capacity
    ensures Step(c, s, Begin(m)).Next? && Started(Step(c, s, Begin(m)).s, n, m + 1)
  {
  }

  lemma Scale(a: nat, b: nat, m: nat)
    requires a <= b
    ensures a * m <= b * m
  {
  }

  lemma {:induction false} StartUp(c: Params, n: nat, m: nat) returns (s: State)
    requires m <= n && n * c.maxOp <= c.capacity
    ensures Reach(c, n, s) && Started(s, n, m)
  {
    if m == 0 {
      s := Init(n);
      assert Run(c, Init(n), []) == Next(s);
    } else {
      s := StartUp(c, n, m - 1);
      Scale(m, n, c.maxOp);
      StartOne(c, s, n, m - 1);
      ReachStep(c, n, s, Begin(m - 1));
      s := Step(c, s, Begin(m - 1)).s;
    }
  }

  /** Operation `k` logs fresh blocks until `m` are logged. */
  lemma {:induction false} FillOperation(c: Params, n: nat, s: State, k: nat, lo: nat, m: nat, goal: nat)
    returns (t: State)
    requires Reach(c, n, s) && Filling(s, n, k, lo, m) && m <= goal <= lo + c.maxOp
    requires goal <= c.capacity && goal + 1 <= c.size
    ensures Reach(c, n, t) && Filling(t, n, k, lo, goal)
    decreases goal - m
  {
    if m == goal {
      t := s;
    } else {
      FillOne(c, n, s, k, lo, m);
      var s1 := Step(c, s, LogTest(k, m)).s;
      ReachStep(c, n, s, LogTest(k, m));
      ReachStep(c, n, s1, LogAppend(k));
      t := FillOperation(c, n, Step(c, s1, LogAppend(k)).s, k, lo, m + 1, goal);
    }
  }

  lemma FillOne(c: Params, n: nat, s: State, k: nat, lo: nat, m: nat)
    requires Filling(s, n, k, lo, m) && m < lo + c.maxOp && m < c.capacity && m + 1 < c.size
    ensures Step(c, s, LogTest(k, m)).Next? && LogSteps(c, s, k, m).Next?
    ensures Filling(LogSteps(c, s, k, m).s, n, k, lo, m + 1)
  {
    assert Interval(lo, m) + {m} == Interval(lo, m + 1);
    assert m !in s.lh;
  }

  /** All of `k` operations use up their budget, and operation `k` starts to log. */
  lemma {:induction false} FillLog(c: Params, n: nat, k: nat, m: nat) returns (s: State)
    requires k < n && n * c.maxOp <= c.capacity && m == k * c.maxOp && m + 1 <= c.size
    ensures Reach(c, n, s) && Filling(s, n, k, m, m)
  {
    if k == 0 {
      s := StartUp(c, n, n);
    } else {
      assert k * c.maxOp == (k - 1) * c.maxOp + c.maxOp;
      assert k * c.maxOp <= n * c.maxOp;
      var s0 := FillLog(c, n, k - 1, m - c.maxOp);
      s := FillOperation(c, n, s0, k - 1, m - c.maxOp, m - c.maxOp, m);
    }
  }

  ghost predicate PanicReachable(c: Params, s: State, p: nat, b: int, again: bool) {
    && Reach(c, 3, s) && p < |s.procs| && s.procs[p].InOp?
    && (b in s.procs[p].logged <==> again)
    && Step(c, s, LogTest(p, b)).Panic?
  }

  /** With LOGSIZE = 3 * MAXOPBLOCKS and a big enough log area, re-logging a block can panic. */
  lemma RewriteCanPanic(c: Params)
    requires 0 < c.maxOp && c.capacity == 3 * c.maxOp && c.size > c.capacity
    ensures exists s: State, b: int :: PanicReachable(c, s, 2, b, true)
  {
    var s := FillLog(c, 3, 2, 2 * c.maxOp);
    s := FillOperation(c, 3, s, 2, 2 * c.maxOp, 2 * c.maxOp, 3 * c.maxOp);
    var b := 2 * c.maxOp;
    SetGrowth(s.procs[2].logged, b);
    assert PanicReachable(c, s, 2, b, true);
  }

  /** With the log.size = LOGSIZE that mkfs writes, even a first write within the budget can panic. */
  lemma FirstWriteCanPanic(c: Params)
    requires 0 < c.maxOp && c.capacity == 3 * c.maxOp && c.size == c.capacity
    ensures exists s: State, b: int :: PanicReachable(c, s, 2, b, false)
  {
    var s := FillLog(c, 3, 2, 2 * c.maxOp);
    s := FillOperation(c, 3, s, 2, 2 * c.maxOp, 2 * c.maxOp, 3 * c.maxOp - 1);
    var b := 3 * c.maxOp - 1;
    SetGrowth(s.procs[2].logged, b);
    assert PanicReachable(c, s, 2, b, false);
  }

  // ----- the header can outgrow the log area

  /** In every run of any number of processes the header leaves room for itself in the log area. */
  ghost predicate NeverOverruns(c: Params) {
    forall n: nat, run | Run(c, Init(n), run).Next? :: |Run(c, Init(n), run).s.lh| < c.size
  }

  /** One operation at a time, and it appends right after its test. */
  ghost predicate Alone(c: Params, s: State) {
    && Inv(c, s) && s.outstanding <= 1 && |s.lh| < c.size
    && forall p | 0 <= p < |s.procs| && s.procs[p].Writing? :: |s.lh| < c.size - 1
  }

  lemma {:induction false} TwoRunning(procs: seq<Phase>, p: nat, q: nat)
    requires p < q < |procs| && Running(procs[p]) && Running(procs[q])
    ensures Operations(procs) >= 2
  {
    if p == 0 {
      OneRunning(procs[1..], q - 1);
    } else {
      TwoRunning(procs[1..], p - 1, q - 1);
    }
  }

  lemma {:induction false} OneRunning(procs: seq<Phase>, p: nat)
    requires p < |procs| && Running(procs[p])
    ensures Operations(procs) >= 1
  {
    if p > 0 {
      OneRunning(procs[1..], p - 1);
    }
  }

  lemma OnlyOne(s: State, p: nat, q: nat)
    requires s.outstanding == Operations(s.procs) <= 1 && p < |s.procs| && q < |s.procs|
    requires Running(s.procs[p]) && Running(s.procs[q])
    ensures p == q
  {
    if p < q {
      TwoRunning(s.procs, p, q);
    } else if q < p {
      TwoRunning(s.procs, q, p);
    }
  }

  /** A log too small for two operations admits one at a time. */
  lemma BeginsAlone(c: Params, s: State, p: nat)
    requires Inv(c, s) && c.capacity < 2 * c.maxOp && s.outstanding <= 1 && Step(c, s, Begin(p)).Next?
    ensures Step(c, s, Begin(p)).s.outstanding <= 1
  {
  }

  lemma AloneStep(c: Params, s: State, a: Action)
    requires Alone(c, s) && c.maxOp <= c.capacity < 2 * c.maxOp && Step(c, s, a).Next?
    ensures Alone(c, Step(c, s, a).s)
  {
    var t := Step(c, s, a).s;
    StepKeepsInv(c, s, a);
    if a.Begin? {
      BeginsAlone(c, s, a.p);
    }
    forall q | 0 <= q < |t.procs| && t.procs[q].Writing? ensures |t.lh| < c.size - 1 {
      if a.LogAppend? {
        OnlyOne(s, a.p, q);
      }
    }
  }

  lemma {:induction false} AloneRun(c: Params, n: nat, run: seq<Action>)
    requires 0 < c.size && c.maxOp <= c.capacity < 2 * c.maxOp && Run(c, Init(n), run).Next?
    ensures Alone(c, Run(c, Init(n), run).s)
    decreases |run|
  {
    if run == [] {
      InitOk(c, n);
    } else {
      var k := |run| - 1;
      AloneRun(c, n, run[..k]);
      AloneStep(c, Run(c, Init(n), run[..k]).s, run[k]);
    }
  }

  /** With a log area of one block every test panics. */
  lemma {:induction false} NothingLogged(c: Params, n: nat, run: seq<Action>)
    requires c.size == 1 && Run(c, Init(n), run).Next?
    ensures NobodyLogs(Run(c, Init(n), run).s)
    decreases |run|
  {
    if run != [] {
      NothingLogged(c, n, run[..|run| - 1]);
      StillNobodyLogs(c, Run(c, Init(n), run[..|run| - 1]).s, run[|run| - 1]);
    }
  }

  ghost predicate NobodyLogs(s: State) {
    s.lh == [] && forall p | 0 <= p < |s.procs| :: !s.procs[p].Writing?
  }

  lemma StillNobodyLogs(c: Params, s: State, a: Action)
    requires c.size == 1 && NobodyLogs(s) && Step(c, s, a).Next?
    ensures NobodyLogs(Step(c, s, a).s)
  {
  }

  /** Process 0 has begun and process 1 is outside; `t` blocks are logged. */
  ghost predicate Waiting(s: State, t: nat) {
    s.lh == UpTo(t) && s.outstanding == 1 && !s.committing && s.procs == [InOp({}), Idle]
  }

  /** Process 1 logs one block in an operation of its own. */
  lemma LogInPassing(c: Params, s: State, t: nat) returns (e: State)
    requires Reach(c, 2, s) && Waiting(s, t) && 0 < c.maxOp && t + 2 * c.maxOp <= c.capacity && t < c.size - 1
    ensures Reach(c, 2, e) && Waiting(e, t + 1)
  {
    var s1 := Step(c, s, Begin(1)).s;
    ReachStep(c, 2, s, Begin(1));
    SetGrowth({}, t);
    var s2 := Step(c, s1, LogTest(1, t)).s;
    ReachStep(c, 2, s1, LogTest(1, t));
    var s3 := Step(c, s2, LogAppend(1)).s;
    ReachStep(c, 2, s2, LogAppend(1));
    assert t !in s.lh;
    e := Step(c, s3, End(1)).s;
    ReachStep(c, 2, s3, End(1));
    assert e.procs == [InOp({}), Idle];
  }

  lemma {:induction false} LogUpTo(c: Params, t: nat) returns (s: State)
    requires 0 < c.maxOp && 2 * c.maxOp <= c.capacity && t < c.size && t + 2 * c.maxOp <= c.capacity
    ensures Reach(c, 2, s) && Waiting(s, t)
  {
    if t == 0 {
      assert Run(c, Init(2), []) == Next(Init(2));
      s := Step(c, Init(2), Begin(0)).s;
      ReachStep(c, 2, Init(2), Begin(0));
      assert s.procs == [InOp({}), Idle];
    } else {
      var e := LogUpTo(c, t - 1);
      s := LogInPassing(c, e, t - 1);
    }
  }

  /** Both processes are inside operations; process 1 logged blocks `lo` to `mid - 1`, process 0 `mid` to `hi - 1`. */
  ghost predicate Both(s: State, lo: nat, mid: nat, hi: nat) {
    && lo <= mid <= hi && s.lh == UpTo(hi) && s.outstanding == 2 && !s.committing && |s.procs| == 2
    && s.procs[0] == InOp(Interval(mid, hi)) && s.procs[1] == InOp(Interval(lo, mid))
  }

  lemma IntervalNext(lo: int, hi: int)
    requires lo <= hi
    ensures Interval(lo, hi) + {hi} == Interval(lo, hi + 1) && Interval(hi, hi) == {}
  {
  }

  lemma {:induction false} LogFirst(c: Params, s: State, lo: nat, mid: nat) returns (e: State)
    requires Reach(c, 2, s) && Both(s, lo, lo, lo) && lo <= mid <= lo + c.maxOp && mid <= c.capacity && mid < c.size
    ensures Reach(c, 2, e) && Both(e, lo, mid, mid)
    decreases mid
  {
    if mid == lo {
      e := s;
    } else {
      var k := mid - 1;
      var m := LogFirst(c, s, lo, k);
      e := LogNext(c, m, 1, k);
      IntervalNext(lo, k);
      IntervalNext(k, k);
      IntervalNext(mid, mid);
    }
  }

  lemma {:induction false} LogSecond(c: Params, s: State, lo: nat, mid: nat, hi: nat) returns (e: State)
    requires Reach(c, 2, s) && Both(s, lo, mid, mid) && mid <= hi <= mid + c.maxOp && hi <= c.capacity && hi < c.size
    ensures Reach(c, 2, e) && Both(e, lo, mid, hi)
    decreases hi
  {
    if hi == mid {
      e := s;
    } else {
      var k := hi - 1;
      var m := LogSecond(c, s, lo, mid, k);
      e := LogNext(c, m, 0, k);
      IntervalNext(mid, k);
    }
  }

  /** Process `p` logs the fresh block `m`. */
  lemma LogNext(c: Params, s: State, p: nat, m: nat) returns (e: State)
    requires Reach(c, 2, s) && s.lh == UpTo(m) && s.outstanding == 2 && p < |s.procs| == 2 && s.procs[p].InOp?
    requires m !in s.procs[p].logged && |s.procs[p].logged| < c.maxOp && m < c.capacity && m < c.size - 1
    ensures Reach(c, 2, e)
    ensures e == s.(lh := UpTo(m + 1), procs := s.procs[p := InOp(s.procs[p].logged + {m})])
  {
    SetGrowth(s.procs[p].logged, m);
    var s1 := Step(c, s, LogTest(p, m)).s;
    ReachStep(c, 2, s, LogTest(p, m));
    e := Step(c, s1, LogAppend(p)).s;
    ReachStep(c, 2, s1, LogAppend(p));
    assert m !in s.lh;
  }

  /** Two calls test when there is room for one, and both append. */
  lemma RaceBothTests(c: Params, s: State, lo: nat, mid: nat, m: nat) returns (e: State)
    requires Reach(c, 2, s) && Both(s, lo, mid, m) && mid < lo + c.maxOp && m < mid + c.maxOp
    requires m == c.size - 2 && c.size <= c.capacity
    ensures Reach(c, 2, e) && |e.lh| == c.size
  {
    SetGrowth(s.procs[0].logged, m);
    SetGrowth(s.procs[1].logged, m + 1);
    var s1 := Step(c, s, LogTest(0, m)).s;
    ReachStep(c, 2, s, LogTest(0, m));
    var s2 := Step(c, s1, LogTest(1, m + 1)).s;
    ReachStep(c, 2, s1, LogTest(1, m + 1));
    e := RaceBothAppends(c, s2, m);
  }

  lemma RaceBothAppends(c: Params, s: State, m: nat) returns (e: State)
    requires Reach(c, 2, s) && s.lh == UpTo(m) && |s.procs| == 2
    requires s.procs[0].Writing? && s.procs[1].Writing? && s.procs[0].b == m && s.procs[1].b == m + 1
    ensures Reach(c, 2, e) && |e.lh| == m + 2
  {
    var s1 := Step(c, s, LogAppend(0)).s;
    ReachStep(c, 2, s, LogAppend(0));
    assert m !in s.lh && m + 1 !in s.lh;
    e := Step(c, s1, LogAppend(1)).s;
    ReachStep(c, 2, s1, LogAppend(1));
  }

  /** Whenever two operations fit the log and `log.size` is at most LOGSIZE, the header reaches `log.size` blocks. */
  lemma OverrunReachable(c: Params) returns (s: State)
    requires 0 < c.maxOp && 2 * c.maxOp <= c.capacity && 2 <= c.size <= c.capacity
    ensures Reach(c, 2, s) && |s.lh| == c.size
  {
    var goal, most := c.size - 2, c.capacity - 2 * c.maxOp;
    var lo := Min(goal, most);
    var mid := Min(goal, lo + c.maxOp - 1);
    var s0 := LogUpTo(c, lo);
    var s1 := Step(c, s0, Begin(1)).s;
    ReachStep(c, 2, s0, Begin(1));
    var s2 := LogFirst(c, s1, lo, mid);
    var s3 := LogSecond(c, s2, lo, mid, goal);
    s := RaceBothTests(c, s3, lo, mid, goal);
  }

  /**
   Exactly when the header always fits the log area: the area is bigger than LOGSIZE, or so few blocks
   are reserved that operations run one at a time, or nothing can be logged at all.
   */
  lemma HeaderFits(c: Params)
    requires 0 < c.maxOp <= c.capacity && 0 < c.size
    ensures NeverOverruns(c) <==> c.size > c.capacity || 2 * c.maxOp > c.capacity || c.size == 1
  {
    if c.size > c.capacity || 2 * c.maxOp > c.capacity || c.size == 1 {
      forall n: nat, run | Run(c, Init(n), run).Next? ensures |Run(c, Init(n), run).s.lh| < c.size {
        HeaderFitsRun(c, n, run);
      }
    } else {
      var s := OverrunReachable(c);
      var run :| Run(c, Init(2), run) == Next(s);
    }
  }

  lemma HeaderFitsRun(c: Params, n: nat, run: seq<Action>)
    requires c.maxOp <= c.capacity && 0 < c.size && Run(c, Init(n), run).Next?
    requires c.size > c.capacity || 2 * c.maxOp > c.capacity || c.size == 1
    ensures |Run(c, Init(n), run).s.lh| < c.size
  {
    if c.size == 1 {
      NothingLogged(c, n, run);
    } else if c.size > c.capacity {
      AdmissionSafe(c, n, run);
      SparesOk(c, Run(c, Init(n), run).s);
      UnusedNonNegative(c, Run(c, Init(n), run).s.procs);
    } else {
      AloneRun(c, n, run);
    }
  }

  /** With the sizes of xv6, three operations of MAXOPBLOCKS and the log.size = LOGSIZE of mkfs, it does not. */
  lemma MkfsLogOverruns(c: Params)
    requires 0 < c.maxOp && c.capacity == 3 * c.maxOp && c.size == c.capacity
    ensures !NeverOverruns(c)
  {
    HeaderFits(c);
  }
}
