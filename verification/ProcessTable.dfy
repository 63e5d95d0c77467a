/**
 The process table of `xv6/proc.c` as a machine over any number of CPUs and processes.

 A step is what one CPU does between two points at which `ptable.lock` changes hands or is
 given up; `fork` is split at its unlocked writes to the new slot.  `swtch` hands the lock
 from a process to its CPU's scheduler and back, so the lock records which of the two holds it.
 */
module ProcessTable {
  import opened Common

  datatype ProcState = UNUSED | EMBRYO | SLEEPING | RUNNABLE | RUNNING | ZOMBIE

  /** A sleep channel: none, the address of a process slot (used by `wait`), or any other address. */
  datatype Chan = NoChan | ProcChan(p: nat) | Address(a: int)

  /** The kernel code a process is in when it calls `sched`: `wait`, `sleep`, or `yield`/`forkret`. */
  datatype Resume = Plain | InSleep | InWait

  /**
   `kstack` says whether the pointer is non-zero, `pgdir` whether the process owns a page table:
   `wait` frees it without clearing the pointer.  `forking` is the slot `fork` is filling.
   */
  datatype Proc = Proc(
    state: ProcState, pid: int, parent: Option<nat>, chan: Chan, killed: bool,
    kstack: bool, pgdir: bool, resume: Resume, forking: Option<nat>)

  datatype Lock = Free | SchedHolds(c: nat) | ProcHolds(c: nat)

  /** `proc` is `c->proc`; `inProc` says that the CPU executes that process and not its scheduler. */
  datatype Cpu = Cpu(proc: Option<nat>, inProc: bool)

  datatype State = State(procs: seq<Proc>, cpus: seq<Cpu>, lock: Lock, init: nat, nextpid: int)

  datatype Action =
    | SchedAcquire(c: nat)                    // scheduler: acquire
    | SchedRun(c: nat, p: nat)                // scheduler: pick p, swtch to it
    | SchedBack(c: nat)                       // scheduler: c->proc = 0 after swtch back
    | SchedRelease(c: nat)                    // scheduler: release
    | Resumed(c: nat)                         // forkret, or the end of yield or sleep
    | Yield(c: nat)
    | Sleep(c: nat, chan: int)
    | Wakeup(chan: int)
    | ForkAlloc(c: nat, np: nat)              // allocproc: EMBRYO
    | ForkNoStack(c: nat)                     // kalloc failed
    | ForkStack(c: nat)
    | ForkNoMemory(c: nat)                    // copyuvm failed
    | ForkCopy(c: nat)                        // pgdir and parent
    | ForkFinish(c: nat)                      // RUNNABLE
    | Exit(c: nat)
    | WaitReap(c: nat, q: nat)                // wait finds a zombie child
    | WaitFail(c: nat)                        // wait has no children, or was killed
    | WaitSleep(c: nat)
    | Kill(p: nat)

  // ----- whole-table updates, as the loops of proc.c compute them

  function Wake(p: Proc, chan: Chan): Proc {
    if p.state == SLEEPING && p.chan == chan then p.(state := RUNNABLE) else p
  }

  /** `wakeup1`. */
  function Wakeup1(procs: seq<Proc>, chan: Chan): (r: seq<Proc>)
    ensures |r| == |procs|
  {
    seq(|procs|, i requires 0 <= i < |procs| => Wake(procs[i], chan))
  }

  predicate ChildOf(procs: seq<Proc>, q: nat, p: nat) {
    q < |procs| && procs[q].parent == Some(p)
  }

  ghost predicate HasKids(procs: seq<Proc>, p: nat) {
    exists q :: 0 <= q < |procs| && ChildOf(procs, q, p)
  }

  ghost predicate HasZombie(procs: seq<Proc>, p: nat) {
    exists q :: 0 <= q < |procs| && ChildOf(procs, q, p) && procs[q].state == ZOMBIE
  }

  /** The loop of `exit` that passes abandoned children to init. */
  ghost function Reparent(procs: seq<Proc>, p: nat, init: nat): (r: seq<Proc>)
    ensures |r| == |procs|
  {
    var moved := seq(|procs|, i requires 0 <= i < |procs| =>
      if procs[i].parent == Some(p) then procs[i].(parent := Some(init)) else procs[i]);
    if HasZombie(procs, p) then Wakeup1(moved, ProcChan(init)) else moved
  }

  /** The critical section of `exit` up to `sched`. */
  ghost function ExitTable(procs: seq<Proc>, p: nat, init: nat): (r: seq<Proc>)
    ensures |r| == |procs|
  {
    if p >= |procs| then procs
    else
      var woken := if procs[p].parent.Some? then Wakeup1(procs, ProcChan(procs[p].parent.value)) else procs;
      var moved := Reparent(woken, p, init);
      moved[p := moved[p].(state := ZOMBIE)]
  }

  /** `wait` gives a zombie's slot back. */
  function Reaped(p: Proc): Proc {
    p.(state := UNUSED, pid := 0, parent := None, killed := false, kstack := false, pgdir := false)
  }

  /** `kill` marks the process and wakes it from sleep. */
  function Killed(p: Proc): Proc {
    p.(killed := true, state := if p.state == SLEEPING then RUNNABLE else p.state)
  }

  // ----- steps

  function Current(s: State, c: nat): nat {
    if c < |s.cpus| && s.cpus[c].proc.Some? then s.cpus[c].proc.value else |s.procs|
  }

  function SetProc(s: State, p: nat, x: Proc): State {
    if p < |s.procs| then s.(procs := s.procs[p := x]) else s
  }

  function Get(s: State, p: nat): Proc {
    if p < |s.procs| then s.procs[p] else Proc(UNUSED, 0, None, NoChan, false, false, false, Plain, None)
  }

  function SetCpu(s: State, c: nat, x: Cpu): State {
    if c < |s.cpus| then s.(cpus := s.cpus[c := x]) else s
  }

  /** CPU `c` executes a process that does not hold `ptable.lock`. */
  predicate Executing(s: State, c: nat) {
    c < |s.cpus| && s.cpus[c].inProc && s.lock != ProcHolds(c)
  }

  /** The slot that the process on CPU `c` is forking into. */
  function NewSlot(s: State, c: nat): nat {
    var f := Get(s, Current(s, c)).forking;
    if f.Some? then f.value else |s.procs|
  }

  predicate Forking(s: State, c: nat) {
    Executing(s, c) && Get(s, Current(s, c)).forking.Some?
  }

  /** The process on `c` is at the top of the loop in `wait`, with `ptable.lock`. */
  predicate InWaitLoop(s: State, c: nat) {
    && c < |s.cpus| && s.cpus[c].inProc && Get(s, Current(s, c)).forking.None?
    && (s.lock == Free || (s.lock == ProcHolds(c) && Get(s, Current(s, c)).resume == InWait))
  }

  ghost predicate Enabled(s: State, a: Action) {
    match a
    case SchedAcquire(c) => c < |s.cpus| && !s.cpus[c].inProc && s.lock == Free
    case SchedRun(c, p) =>
      && c < |s.cpus| && s.lock == SchedHolds(c) && s.cpus[c].proc == None
      && p < |s.procs| && s.procs[p].state == RUNNABLE
    case SchedBack(c) => c < |s.cpus| && s.lock == SchedHolds(c) && s.cpus[c].proc != None
    case SchedRelease(c) => c < |s.cpus| && s.lock == SchedHolds(c) && s.cpus[c].proc == None
    case Resumed(c) => c < |s.cpus| && s.lock == ProcHolds(c) && Get(s, Current(s, c)).resume != InWait
    case Yield(c) => Executing(s, c) && s.lock == Free
    case Sleep(c, _) => Executing(s, c) && s.lock == Free
    case Wakeup(_) => s.lock == Free
    case ForkAlloc(c, np) =>
      && Executing(s, c) && s.lock == Free && Get(s, Current(s, c)).forking.None?
      && np < |s.procs| && s.procs[np].state == UNUSED
    case ForkNoStack(c) => Forking(s, c) && !Get(s, NewSlot(s, c)).kstack
    case ForkStack(c) => Forking(s, c) && !Get(s, NewSlot(s, c)).kstack
    case ForkNoMemory(c) => Forking(s, c) && Get(s, NewSlot(s, c)).kstack && !Get(s, NewSlot(s, c)).pgdir
    case ForkCopy(c) => Forking(s, c) && Get(s, NewSlot(s, c)).kstack && !Get(s, NewSlot(s, c)).pgdir
    case ForkFinish(c) => Forking(s, c) && s.lock == Free && Get(s, NewSlot(s, c)).pgdir
    case Exit(c) =>
      && Executing(s, c) && s.lock == Free && Get(s, Current(s, c)).forking.None?
      && Current(s, c) != s.init
    case WaitReap(c, q) =>
      InWaitLoop(s, c) && ChildOf(s.procs, q, Current(s, c)) && s.procs[q].state == ZOMBIE
    case WaitFail(c) =>
      && InWaitLoop(s, c) && !HasZombie(s.procs, Current(s, c))
      && (!HasKids(s.procs, Current(s, c)) || Get(s, Current(s, c)).killed)
    case WaitSleep(c) =>
      && InWaitLoop(s, c) && !HasZombie(s.procs, Current(s, c))
      && HasKids(s.procs, Current(s, c)) && !Get(s, Current(s, c)).killed
    case Kill(p) => s.lock == Free && p < |s.procs|
  }

  /** The current process enters `sched`: its CPU goes back to the scheduler, which now has the lock. */
  function Switch(s: State, c: nat, x: Proc): State {
    SetCpu(SetProc(s, Current(s, c), x), c, Cpu(Some(Current(s, c)), false)).(lock := SchedHolds(c))
  }

  /** The end of a call of `wait`: the lock is released. */
  function WaitReturn(s: State, c: nat): State {
    SetProc(s, Current(s, c), Get(s, Current(s, c)).(chan := NoChan, resume := Plain)).(lock := Free)
  }

  ghost function Step(s: State, a: Action): State {
    match a
    case SchedAcquire(c) => s.(lock := SchedHolds(c))
    case SchedRun(c, p) =>
      SetCpu(SetProc(s, p, Get(s, p).(state := RUNNING)), c, Cpu(Some(p), true)).(lock := ProcHolds(c))
    case SchedBack(c) => SetCpu(s, c, Cpu(None, false))
    case SchedRelease(c) => s.(lock := Free)
    case Resumed(c) =>
      var p := Get(s, Current(s, c));
      SetProc(s, Current(s, c), p.(chan := if p.resume == InSleep then NoChan else p.chan, resume := Plain))
        .(lock := Free)
    case Yield(c) => Switch(s, c, Get(s, Current(s, c)).(state := RUNNABLE, resume := Plain))
    case Sleep(c, chan) =>
      Switch(s, c, Get(s, Current(s, c)).(state := SLEEPING, chan := Address(chan), resume := InSleep))
    case Wakeup(chan) => s.(procs := Wakeup1(s.procs, Address(chan)))
    case ForkAlloc(c, np) =>
      var s1 := SetProc(s, np, Get(s, np).(state := EMBRYO, pid := s.nextpid)).(nextpid := s.nextpid + 1);
      SetProc(s1, Current(s, c), Get(s1, Current(s, c)).(forking := Some(np)))
    case ForkNoStack(c) => EndFork(s, c, Get(s, NewSlot(s, c)).(state := UNUSED))
    case ForkStack(c) => SetProc(s, NewSlot(s, c), Get(s, NewSlot(s, c)).(kstack := true))
    case ForkNoMemory(c) => EndFork(s, c, Get(s, NewSlot(s, c)).(state := UNUSED, kstack := false))
    case ForkCopy(c) =>
      SetProc(s, NewSlot(s, c), Get(s, NewSlot(s, c)).(pgdir := true, parent := Some(Current(s, c))))
    case ForkFinish(c) =>
      EndFork(s, c, Get(s, NewSlot(s, c)).(state := RUNNABLE, resume := Plain))
    case Exit(c) =>
      var s1 := s.(procs := ExitTable(s.procs, Current(s, c), s.init));
      Switch(s1, c, Get(s1, Current(s, c)))
    case WaitReap(c, q) => WaitReturn(SetProc(s, q, Reaped(Get(s, q))), c)
    case WaitFail(c) => WaitReturn(s, c)
    case WaitSleep(c) =>
      Switch(s, c, Get(s, Current(s, c)).(state := SLEEPING, chan := ProcChan(Current(s, c)), resume := InWait))
    case Kill(p) =>
      SetProc(s, p, Killed(Get(s, p)))
  }

  /** `fork` leaves the new slot in its final state and returns. */
  function EndFork(s: State, c: nat, x: Proc): State {
    var s1 := SetProc(s, NewSlot(s, c), x);
    SetProc(s1, Current(s, c), Get(s1, Current(s, c)).(forking := None))
  }

  // ----- the invariant

  ghost predicate CpuOk(s: State, c: nat) {
    c < |s.cpus| ==>
      var cpu := s.cpus[c];
      && (cpu.proc.Some? ==> cpu.proc.value < |s.procs|)
      && (cpu.inProc ==> cpu.proc.Some? && Get(s, Current(s, c)).state == RUNNING)
      && (!cpu.inProc && cpu.proc.Some? ==> s.lock == SchedHolds(c) && Get(s, Current(s, c)).state != RUNNING)
      && (s.lock == ProcHolds(c) ==> cpu.inProc)
      && (s.lock == SchedHolds(c) ==> !cpu.inProc)
  }

  /** CPUs and RUNNING processes correspond one to one; a CPU without the lock has no stale process. */
  ghost predicate CpusOk(s: State) {
    && (forall c | 0 <= c < |s.cpus| :: CpuOk(s, c))
    && (forall c, d | 0 <= c < d < |s.cpus| && s.cpus[c].proc.Some? && s.cpus[d].proc.Some? ::
          s.cpus[c].proc != s.cpus[d].proc)
    && (forall p | 0 <= p < |s.procs| && s.procs[p].state == RUNNING ::
          exists c :: 0 <= c < |s.cpus| && s.cpus[c].proc == Some(p))
  }

  predicate Alive(p: Proc) {
    p.state == SLEEPING || p.state == RUNNABLE || p.state == RUNNING
  }

  /** Parents are alive and other processes, and unused slots have none. */
  ghost predicate ParentsOk(s: State) {
    && s.init < |s.procs| && Alive(s.procs[s.init]) && s.procs[s.init].parent == None
    && forall q | 0 <= q < |s.procs| ::
         && (s.procs[q].state == UNUSED ==> s.procs[q].parent == None)
         && (s.procs[q].parent.Some? ==> s.procs[q].parent.value != q && Alive(Get(s, s.procs[q].parent.value)))
  }

  /** A process asleep in `wait` sleeps on itself and has no zombie to collect. */
  ghost predicate WaitersOk(s: State) {
    forall p | 0 <= p < |s.procs| && s.procs[p].state == SLEEPING && s.procs[p].resume == InWait ::
      s.procs[p].chan == ProcChan(p) && !HasZombie(s.procs, p)
  }

  /** `fork` in progress owns its EMBRYO slot. */
  ghost predicate ForksOk(s: State) {
    && (forall p | 0 <= p < |s.procs| && s.procs[p].forking.Some? ::
          var np := s.procs[p].forking.value;
          && Alive(s.procs[p]) && np < |s.procs| && s.procs[np].state == EMBRYO
          && (s.procs[np].parent == if s.procs[np].pgdir then Some(p) else None)
          && (s.procs[np].pgdir ==> s.procs[np].kstack))
    && forall p, q | 0 <= p < q < |s.procs| && s.procs[p].forking.Some? && s.procs[q].forking.Some? ::
         s.procs[p].forking != s.procs[q].forking
  }

  /** Live and zombie processes have a kernel stack and a page table; unused slots have neither. */
  ghost predicate ResourcesOk(s: State) {
    forall p | 0 <= p < |s.procs| ::
      && (Alive(s.procs[p]) || s.procs[p].state == ZOMBIE ==> s.procs[p].kstack && s.procs[p].pgdir)
      && (s.procs[p].state == UNUSED ==> !s.procs[p].kstack && !s.procs[p].pgdir)
  }

  ghost predicate PidsOk(s: State) {
    && 0 < s.nextpid
    && (forall p | 0 <= p < |s.procs| && s.procs[p].state != UNUSED :: 0 < s.procs[p].pid < s.nextpid)
    && forall p, q | 0 <= p < q < |s.procs| && s.procs[p].state != UNUSED && s.procs[q].state != UNUSED ::
         s.procs[p].pid != s.procs[q].pid
  }

  ghost predicate Inv(s: State) {
    CpusOk(s) && ParentsOk(s) && WaitersOk(s) && ForksOk(s) && ResourcesOk(s) && PidsOk(s)
  }

  // ----- frames

  predicate Waiting(p: Proc) {
    p.state == SLEEPING && p.resume == InWait
  }

  /** A change that keeps who the process is and whether it is alive, and puts nobody to sleep in `wait`. */
  predicate Benign(p: Proc, q: Proc) {
    && q.pid == p.pid && q.parent == p.parent && q.kstack == p.kstack && q.pgdir == p.pgdir && q.forking == p.forking
    && Alive(q) == Alive(p) && (!Alive(p) ==> q.state == p.state)
    && (Waiting(q) ==> Waiting(p) && q.chan == p.chan)
  }

  ghost predicate AllBenign(s: State, s': State) {
    && |s'.procs| == |s.procs| && s'.init == s.init && s'.nextpid == s.nextpid
    && forall p | 0 <= p < |s.procs| :: Benign(s.procs[p], s'.procs[p])
  }

  lemma ZombieFrame(procs: seq<Proc>, procs': seq<Proc>, p: nat)
    requires |procs'| == |procs| && !HasZombie(procs, p)
    requires forall q | 0 <= q < |procs| && procs'[q].state == ZOMBIE && procs'[q].parent == Some(p) ::
               procs[q].state == ZOMBIE && procs[q].parent == Some(p)
    ensures !HasZombie(procs', p)
  {
    assert forall q | 0 <= q < |procs| && ChildOf(procs', q, p) :: ChildOf(procs, q, p) || procs'[q].state != ZOMBIE;
  }

  /** Everything but the CPUs. */
  ghost predicate TableOk(s: State) {
    ParentsOk(s) && WaitersOk(s) && ForksOk(s) && ResourcesOk(s) && PidsOk(s)
  }

  lemma BenignKeepsTable(s: State, s': State)
    requires TableOk(s) && AllBenign(s, s')
    ensures TableOk(s')
  {
    BenignKeepsParents(s, s');
    BenignKeepsWaiters(s, s');
    BenignKeepsForks(s, s');
  }

  lemma BenignKeepsParents(s: State, s': State)
    requires ParentsOk(s) && ResourcesOk(s) && PidsOk(s) && AllBenign(s, s')
    ensures ParentsOk(s') && ResourcesOk(s') && PidsOk(s')
  {
    assert Benign(s.procs[s.init], s'.procs[s.init]);
    forall q | 0 <= q < |s.procs| && s'.procs[q].parent.Some? ensures Alive(Get(s', s'.procs[q].parent.value)) {
      assert Benign(s.procs[q], s'.procs[q]);
      var r := s.procs[q].parent.value;
      assert Alive(Get(s, r));
      assert Benign(s.procs[r], s'.procs[r]);
    }
  }

  lemma BenignKeepsWaiters(s: State, s': State)
    requires WaitersOk(s) && AllBenign(s, s')
    ensures WaitersOk(s')
  {
    forall p | 0 <= p < |s'.procs| && Waiting(s'.procs[p])
      ensures s'.procs[p].chan == ProcChan(p) && !HasZombie(s'.procs, p)
    {
      assert Benign(s.procs[p], s'.procs[p]);
      ZombieFrame(s.procs, s'.procs, p);
    }
  }

  lemma BenignKeepsForks(s: State, s': State)
    requires ForksOk(s) && AllBenign(s, s')
    ensures ForksOk(s')
  {
    forall p | 0 <= p < |s.procs| ensures s'.procs[p].forking == s.procs[p].forking {
      assert Benign(s.procs[p], s'.procs[p]);
    }
  }

  /** The CPUs, when neither they nor the set of RUNNING processes change. */
  lemma CpusFrame(s: State, s': State)
    requires CpusOk(s) && |s'.procs| == |s.procs| && s'.cpus == s.cpus && s'.lock == s.lock
    requires forall p | 0 <= p < |s.procs| :: s.procs[p].state == RUNNING <==> s'.procs[p].state == RUNNING
    ensures CpusOk(s')
  {
    forall c | 0 <= c < |s'.cpus| ensures CpuOk(s', c) {
      assert CpuOk(s, c);
    }
    forall p | 0 <= p < |s'.procs| && s'.procs[p].state == RUNNING
      ensures exists c :: 0 <= c < |s'.cpus| && s'.cpus[c].proc == Some(p)
    {
      var c :| 0 <= c < |s.cpus| && s.cpus[c].proc == Some(p);
      assert s'.cpus[c].proc == Some(p);
    }
  }

  /** A lock passes to or from CPU `c`, whose process pointer is consistent with that. */
  lemma LockFrame(s: State, lock: Lock, c: nat)
    requires CpusOk(s) && c < |s.cpus|
    requires s.lock == Free || s.lock == SchedHolds(c) || s.lock == ProcHolds(c)
    requires lock == Free || lock == SchedHolds(c) || lock == ProcHolds(c)
    requires lock == ProcHolds(c) ==> s.cpus[c].inProc
    requires lock == SchedHolds(c) ==> !s.cpus[c].inProc
    requires s.cpus[c].inProc || s.cpus[c].proc == None
    ensures CpusOk(s.(lock := lock))
  {
    var s' := s.(lock := lock);
    forall d | 0 <= d < |s'.cpus| ensures CpuOk(s', d) {
      assert CpuOk(s, d);
    }
    forall p | 0 <= p < |s'.procs| && s'.procs[p].state == RUNNING
      ensures exists c :: 0 <= c < |s'.cpus| && s'.cpus[c].proc == Some(p)
    {
      var d :| 0 <= d < |s.cpus| && s.cpus[d].proc == Some(p);
      assert s'.cpus[d].proc == Some(p);
    }
  }

  /** The current process leaves RUNNING and enters `sched`. */
  lemma SwitchCpus(s: State, c: nat, x: Proc)
    requires CpusOk(s) && c < |s.cpus| && s.cpus[c].inProc && (s.lock == Free || s.lock == ProcHolds(c))
    requires x.state != RUNNING
    ensures CpusOk(Switch(s, c, x))
  {
    assert CpuOk(s, c);
    var s' := Switch(s, c, x);
    forall d | 0 <= d < |s'.cpus| ensures CpuOk(s', d) {
      assert CpuOk(s, d);
    }
    forall p | 0 <= p < |s'.procs| && s'.procs[p].state == RUNNING
      ensures exists d :: 0 <= d < |s'.cpus| && s'.cpus[d].proc == Some(p)
    {
      var d :| 0 <= d < |s.cpus| && s.cpus[d].proc == Some(p);
      assert s'.cpus[d].proc == Some(p);
    }
  }

  // ----- scheduler steps

  lemma SchedAcquireKeepsInv(s: State, c: nat)
    requires Inv(s) && Enabled(s, SchedAcquire(c))
    ensures Inv(Step(s, SchedAcquire(c)))
  {
    assert CpuOk(s, c);
    LockFrame(s, SchedHolds(c), c);
    BenignKeepsTable(s, Step(s, SchedAcquire(c)));
  }

  lemma SchedRunKeepsInv(s: State, c: nat, p: nat)
    requires Inv(s) && Enabled(s, SchedRun(c, p))
    ensures Inv(Step(s, SchedRun(c, p)))
  {
    var s' := Step(s, SchedRun(c, p));
    BenignKeepsTable(s, s');
    forall d | 0 <= d < |s'.cpus| ensures CpuOk(s', d) {
      assert CpuOk(s, d);
    }
    forall q | 0 <= q < |s'.procs| && s'.procs[q].state == RUNNING
      ensures exists d :: 0 <= d < |s'.cpus| && s'.cpus[d].proc == Some(q)
    {
      if q == p {
        assert s'.cpus[c].proc == Some(q);
      } else {
        var d :| 0 <= d < |s.cpus| && s.cpus[d].proc == Some(q);
        assert s'.cpus[d].proc == Some(q);
      }
    }
    forall d | 0 <= d < |s.cpus| && s.cpus[d].proc.Some? ensures s.cpus[d].proc != Some(p) {
      assert CpuOk(s, d);
    }
  }

  lemma SchedBackKeepsInv(s: State, c: nat)
    requires Inv(s) && Enabled(s, SchedBack(c))
    ensures Inv(Step(s, SchedBack(c)))
  {
    var s' := Step(s, SchedBack(c));
    BenignKeepsTable(s, s');
    assert CpuOk(s, c);
    forall d | 0 <= d < |s'.cpus| ensures CpuOk(s', d) {
      assert CpuOk(s, d);
    }
    forall q | 0 <= q < |s'.procs| && s'.procs[q].state == RUNNING
      ensures exists d :: 0 <= d < |s'.cpus| && s'.cpus[d].proc == Some(q)
    {
      var d :| 0 <= d < |s.cpus| && s.cpus[d].proc == Some(q);
      assert s'.cpus[d].proc == Some(q);
    }
  }

  lemma SchedReleaseKeepsInv(s: State, c: nat)
    requires Inv(s) && Enabled(s, SchedRelease(c))
    ensures Inv(Step(s, SchedRelease(c)))
  {
    LockFrame(s, Free, c);
    BenignKeepsTable(s, Step(s, SchedRelease(c)));
  }

  lemma ResumedKeepsInv(s: State, c: nat)
    requires Inv(s) && Enabled(s, Resumed(c))
    ensures Inv(Step(s, Resumed(c)))
  {
    var s' := Step(s, Resumed(c));
    assert CpuOk(s, c);
    BenignKeepsTable(s, s');
    CpusFrame(s, s'.(lock := s.lock));
    LockFrame(s'.(lock := s.lock), Free, c);
  }

  lemma YieldKeepsInv(s: State, c: nat)
    requires Inv(s) && Enabled(s, Yield(c))
    ensures Inv(Step(s, Yield(c)))
  {
    assert CpuOk(s, c);
    SwitchCpus(s, c, Get(s, Current(s, c)).(state := RUNNABLE, resume := Plain));
    BenignKeepsTable(s, Step(s, Yield(c)));
  }

  lemma SleepKeepsInv(s: State, c: nat, chan: int)
    requires Inv(s) && Enabled(s, Sleep(c, chan))
    ensures Inv(Step(s, Sleep(c, chan)))
  {
    assert CpuOk(s, c);
    SwitchCpus(s, c, Get(s, Current(s, c)).(state := SLEEPING, chan := Address(chan), resume := InSleep));
    BenignKeepsTable(s, Step(s, Sleep(c, chan)));
  }

  lemma WakeupKeepsInv(s: State, chan: int)
    requires Inv(s) && Enabled(s, Wakeup(chan))
    ensures Inv(Step(s, Wakeup(chan)))
  {
    CpusFrame(s, Step(s, Wakeup(chan)));
    BenignKeepsTable(s, Step(s, Wakeup(chan)));
  }

  lemma KillKeepsInv(s: State, p: nat)
    requires Inv(s) && Enabled(s, Kill(p))
    ensures Inv(Step(s, Kill(p)))
  {
    CpusFrame(s, Step(s, Kill(p)));
    BenignKeepsTable(s, Step(s, Kill(p)));
  }

  // ----- fork

  /** A step of `fork` by `p` changes only the new slot `np`, which is nobody's parent, and `p`'s `forking`. */
  ghost predicate ForkChange(s: State, s': State, p: nat, np: nat) {
    && |s'.procs| == |s.procs| && s'.init == s.init
    && p < |s.procs| && np < |s.procs| && p != np
    && (forall q | 0 <= q < |s.procs| && q != p && q != np :: s'.procs[q] == s.procs[q])
    && s'.procs[p] == s.procs[p].(forking := s'.procs[p].forking)
    && Alive(s.procs[p])
    && (if s.procs[p].forking.Some? then s.procs[p].forking == Some(np) else s.procs[np].state == UNUSED)
  }

  lemma ForkKeepsFamily(s: State, s': State, p: nat, np: nat)
    requires ParentsOk(s) && WaitersOk(s) && ForksOk(s) && ForkChange(s, s', p, np)
    requires s'.procs[np].state in {UNUSED, EMBRYO, RUNNABLE}
    requires s'.procs[np].parent == None || (s'.procs[np].parent == Some(p) && s'.procs[np].state != UNUSED)
    ensures ParentsOk(s') && WaitersOk(s')
  {
    assert !Alive(s.procs[np]) && s.procs[np].state != ZOMBIE;
    forall q | 0 <= q < |s'.procs| && Waiting(s'.procs[q])
      ensures s'.procs[q].chan == ProcChan(q) && !HasZombie(s'.procs, q)
    {
      ZombieFrame(s.procs, s'.procs, q);
    }
    forall q | 0 <= q < |s'.procs| && s'.procs[q].parent.Some? ensures Alive(Get(s', s'.procs[q].parent.value)) {
      if q != np {
        assert Alive(Get(s, s.procs[q].parent.value));
      }
    }
  }

  lemma ForkKeepsSlots(s: State, s': State, p: nat, np: nat)
    requires ForksOk(s) && ForkChange(s, s', p, np)
    requires s'.procs[p].forking == None || s'.procs[p].forking == Some(np)
    requires s'.procs[p].forking == Some(np) ==>
               && s'.procs[np].state == EMBRYO && (s'.procs[np].pgdir ==> s'.procs[np].kstack)
               && s'.procs[np].parent == if s'.procs[np].pgdir then Some(p) else None
    requires s'.procs[np].forking == None
    ensures ForksOk(s')
  {
    forall q | 0 <= q < |s.procs| && q != p && s.procs[q].forking.Some? ensures s.procs[q].forking != Some(np) {
      assert s.procs[np].state != UNUSED || s.procs[q].forking.value != np;
    }
  }

  lemma NotForking(s: State, np: nat)
    requires ForksOk(s) && np < |s.procs| && !Alive(s.procs[np])
    ensures s.procs[np].forking == None
  {
  }

  /** The slot that a running `fork` fills. */
  lemma NewSlotFacts(s: State, c: nat)
    requires Inv(s) && Forking(s, c)
    ensures var p, np := Current(s, c), NewSlot(s, c);
            && p < |s.procs| && np < |s.procs| && p != np
            && s.procs[p].state == RUNNING && s.procs[p].forking == Some(np)
            && s.procs[np].state == EMBRYO && s.procs[np].forking == None
            && (s.procs[np].parent == if s.procs[np].pgdir then Some(p) else None)
            && (s.procs[np].pgdir ==> s.procs[np].kstack)
  {
    assert CpuOk(s, c);
    NotForking(s, NewSlot(s, c));
  }

  lemma ForkAllocKeepsInv(s: State, c: nat, np: nat)
    requires Inv(s) && Enabled(s, ForkAlloc(c, np))
    ensures Inv(Step(s, ForkAlloc(c, np)))
  {
    var s' := Step(s, ForkAlloc(c, np));
    var p := Current(s, c);
    assert CpuOk(s, c);
    NotForking(s, np);
    CpusFrame(s, s');
    assert ForkChange(s, s', p, np);
    ForkKeepsFamily(s, s', p, np);
    ForkKeepsSlots(s, s', p, np);
  }

  lemma ForkNoStackKeepsInv(s: State, c: nat)
    requires Inv(s) && Enabled(s, ForkNoStack(c))
    ensures Inv(Step(s, ForkNoStack(c)))
  {
    var s' := Step(s, ForkNoStack(c));
    var p, np := Current(s, c), NewSlot(s, c);
    NewSlotFacts(s, c);
    CpusFrame(s, s');
    ForkKeepsFamily(s, s', p, np);
    ForkKeepsSlots(s, s', p, np);
  }

  lemma ForkStackKeepsInv(s: State, c: nat)
    requires Inv(s) && Enabled(s, ForkStack(c))
    ensures Inv(Step(s, ForkStack(c)))
  {
    var s' := Step(s, ForkStack(c));
    var p, np := Current(s, c), NewSlot(s, c);
    NewSlotFacts(s, c);
    CpusFrame(s, s');
    ForkKeepsFamily(s, s', p, np);
    ForkKeepsSlots(s, s', p, np);
  }

  lemma ForkNoMemoryKeepsInv(s: State, c: nat)
    requires Inv(s) && Enabled(s, ForkNoMemory(c))
    ensures Inv(Step(s, ForkNoMemory(c)))
  {
    var s' := Step(s, ForkNoMemory(c));
    var p, np := Current(s, c), NewSlot(s, c);
    NewSlotFacts(s, c);
    CpusFrame(s, s');
    ForkKeepsFamily(s, s', p, np);
    ForkKeepsSlots(s, s', p, np);
  }

  lemma ForkCopyKeepsInv(s: State, c: nat)
    requires Inv(s) && Enabled(s, ForkCopy(c))
    ensures Inv(Step(s, ForkCopy(c)))
  {
    var s' := Step(s, ForkCopy(c));
    var p, np := Current(s, c), NewSlot(s, c);
    NewSlotFacts(s, c);
    CpusFrame(s, s');
    ForkKeepsFamily(s, s', p, np);
    ForkKeepsSlots(s, s', p, np);
  }

  lemma ForkFinishKeepsInv(s: State, c: nat)
    requires Inv(s) && Enabled(s, ForkFinish(c))
    ensures Inv(Step(s, ForkFinish(c)))
  {
    var s' := Step(s, ForkFinish(c));
    var p, np := Current(s, c), NewSlot(s, c);
    NewSlotFacts(s, c);
    CpusFrame(s, s');
    ForkKeepsFamily(s, s', p, np);
    ForkKeepsSlots(s, s', p, np);
  }

  // ----- exit

  /** The table when `exit` is about to mark `p` a zombie. */
  ghost function Abandoned(procs: seq<Proc>, p: nat, init: nat): (r: seq<Proc>)
    ensures |r| == |procs|
  {
    if p >= |procs| then procs
    else
      Reparent(if procs[p].parent.Some? then Wakeup1(procs, ProcChan(procs[p].parent.value)) else procs, p, init)
  }

  lemma ZombiesSleepOn(procs: seq<Proc>, chan: Chan, p: nat)
    ensures HasZombie(Wakeup1(procs, chan), p) <==> HasZombie(procs, p)
  {
    var w := Wakeup1(procs, chan);
    if HasZombie(procs, p) {
      var q :| 0 <= q < |procs| && ChildOf(procs, q, p) && procs[q].state == ZOMBIE;
      assert ChildOf(w, q, p) && w[q].state == ZOMBIE;
    }
    if HasZombie(w, p) {
      var q :| 0 <= q < |w| && ChildOf(w, q, p) && w[q].state == ZOMBIE;
      assert ChildOf(procs, q, p) && procs[q].state == ZOMBIE;
    }
  }

  predicate WakeOrSame(p: Proc, q: Proc) {
    q == p || (p.state == SLEEPING && q == p.(state := RUNNABLE))
  }

  /** One slot after the loops of `exit`: perhaps woken, perhaps given to init. */
  lemma AbandonedAt(procs: seq<Proc>, p: nat, init: nat, i: nat)
    requires p < |procs| && i < |procs|
    ensures var q := Abandoned(procs, p, init)[i];
            && WakeOrSame(procs[i], q.(parent := procs[i].parent))
            && q.parent == (if procs[i].parent == Some(p) then Some(init) else procs[i].parent)
            && (q.state == SLEEPING && procs[p].parent.Some? ==> procs[i].chan != ProcChan(procs[p].parent.value))
            && (q.state == SLEEPING && HasZombie(procs, p) ==> procs[i].chan != ProcChan(init))
  {
    if procs[p].parent.Some? {
      ZombiesSleepOn(procs, ProcChan(procs[p].parent.value), p);
    }
  }

  lemma ExitWaiters(s: State, p: nat, s': State)
    requires TableOk(s) && p < |s.procs| && s.procs[p].state == RUNNING && p != s.init
    requires |s'.procs| == |s.procs| && s'.procs[p].state == ZOMBIE && s'.procs[p].parent == s.procs[p].parent
    requires s'.procs == Abandoned(s.procs, p, s.init)[p := s'.procs[p]]
    ensures WaitersOk(s')
  {
    forall q | 0 <= q < |s'.procs| && Waiting(s'.procs[q])
      ensures s'.procs[q].chan == ProcChan(q) && !HasZombie(s'.procs, q)
    {
      AbandonedAt(s.procs, p, s.init, q);
      if HasZombie(s'.procs, q) {
        var z :| 0 <= z < |s'.procs| && ChildOf(s'.procs, z, q) && s'.procs[z].state == ZOMBIE;
        if z != p {
          AbandonedAt(s.procs, p, s.init, z);
          assert s.procs[z].state == ZOMBIE;
          if s.procs[z].parent == Some(p) {
            assert ChildOf(s.procs, z, p);
          } else {
            assert ChildOf(s.procs, z, q);
          }
        }
      }
    }
  }

  /** What `exit` of `p` may do to a slot: wake it, and give it to init if it was a child of `p`. */
  ghost predicate ExitChange(s: State, s': State, p: nat) {
    && |s'.procs| == |s.procs| && s'.init == s.init && s'.nextpid == s.nextpid && p < |s.procs|
    && s'.procs[p] == s.procs[p].(state := ZOMBIE)
    && forall i | 0 <= i < |s.procs| && i != p ::
         && WakeOrSame(s.procs[i], s'.procs[i].(parent := s.procs[i].parent))
         && s'.procs[i].parent == (if s.procs[i].parent == Some(p) then Some(s.init) else s.procs[i].parent)
  }

  lemma ExitParents(s: State, p: nat, s': State)
    requires ParentsOk(s) && p < |s.procs| && Alive(s.procs[p]) && p != s.init && ExitChange(s, s', p)
    ensures ParentsOk(s')
  {
    forall q | 0 <= q < |s'.procs| && s'.procs[q].parent.Some?
      ensures s'.procs[q].parent.value != q && Alive(Get(s', s'.procs[q].parent.value))
    {
      assert Alive(Get(s, s.procs[q].parent.value));
    }
  }

  lemma ExitForks(s: State, p: nat, s': State)
    requires ForksOk(s) && p < |s.procs| && Alive(s.procs[p]) && ExitChange(s, s', p)
    requires s.procs[p].forking == None
    ensures ForksOk(s')
  {
    forall q | 0 <= q < |s.procs| && s'.procs[q].forking.Some?
      ensures var np := s'.procs[q].forking.value;
              && Alive(s'.procs[q]) && np < |s'.procs| && s'.procs[np].state == EMBRYO
              && (s'.procs[np].parent == if s'.procs[np].pgdir then Some(q) else None)
              && (s'.procs[np].pgdir ==> s'.procs[np].kstack)
    {
      assert q != p;
      assert s.procs[q].forking == s'.procs[q].forking;
    }
    forall q | 0 <= q < |s.procs| ensures s'.procs[q].forking == s.procs[q].forking {
    }
  }

  lemma ExitResources(s: State, p: nat, s': State)
    requires ResourcesOk(s) && PidsOk(s) && p < |s.procs| && Alive(s.procs[p]) && ExitChange(s, s', p)
    ensures ResourcesOk(s') && PidsOk(s')
  {
  }

  lemma ExitKeepsInv(s: State, c: nat)
    requires Inv(s) && Enabled(s, Exit(c))
    ensures Inv(Step(s, Exit(c)))
  {
    var s' := Step(s, Exit(c));
    var p := Current(s, c);
    assert CpuOk(s, c);
    var moved := Abandoned(s.procs, p, s.init);
    AbandonedAt(s.procs, p, s.init, p);
    assert moved[p] == s.procs[p];
    assert s'.procs == moved[p := s'.procs[p]];
    ExitWaiters(s, p, s');
    forall i | 0 <= i < |s.procs| && i != p
      ensures WakeOrSame(s.procs[i], s'.procs[i].(parent := s.procs[i].parent))
      ensures s'.procs[i].parent == (if s.procs[i].parent == Some(p) then Some(s.init) else s.procs[i].parent)
    {
      AbandonedAt(s.procs, p, s.init, i);
    }
    ExitParents(s, p, s');
    ExitForks(s, p, s');
    ExitResources(s, p, s');
    ExitCpus(s, c);
  }

  lemma ExitCpus(s: State, c: nat)
    requires CpusOk(s) && Enabled(s, Exit(c))
    ensures CpusOk(Step(s, Exit(c)))
  {
    var p := Current(s, c);
    assert CpuOk(s, c);
    var moved := Abandoned(s.procs, p, s.init);
    forall i | 0 <= i < |s.procs| ensures moved[i].state == RUNNING <==> s.procs[i].state == RUNNING {
      AbandonedAt(s.procs, p, s.init, i);
    }
    var s1 := s.(procs := moved);
    CpusFrame(s, s1);
    SwitchCpus(s1, c, moved[p].(state := ZOMBIE));
    assert Step(s, Exit(c)) == Switch(s1, c, moved[p].(state := ZOMBIE));
  }

  // ----- wait

  lemma WaitReturnKeepsInv(s: State, c: nat)
    requires Inv(s) && c < |s.cpus| && s.cpus[c].inProc && (s.lock == Free || s.lock == ProcHolds(c))
    ensures Inv(WaitReturn(s, c))
  {
    var s' := WaitReturn(s, c);
    assert CpuOk(s, c);
    BenignKeepsTable(s, s');
    CpusFrame(s, s'.(lock := s.lock));
    LockFrame(s'.(lock := s.lock), Free, c);
  }

  lemma ReapKeepsTable(s: State, q: nat)
    requires TableOk(s) && q < |s.procs| && s.procs[q].state == ZOMBIE
    ensures TableOk(SetProc(s, q, Reaped(Get(s, q))))
  {
    var s' := SetProc(s, q, Reaped(Get(s, q)));
    NotForking(s, q);
    forall p | 0 <= p < |s'.procs| && Waiting(s'.procs[p])
      ensures s'.procs[p].chan == ProcChan(p) && !HasZombie(s'.procs, p)
    {
      ZombieFrame(s.procs, s'.procs, p);
    }
    forall r | 0 <= r < |s'.procs| && s'.procs[r].parent.Some?
      ensures s'.procs[r].parent.value != r && Alive(Get(s', s'.procs[r].parent.value))
    {
      assert Alive(Get(s, s.procs[r].parent.value));
    }
  }

  lemma WaitReapKeepsInv(s: State, c: nat, q: nat)
    requires Inv(s) && Enabled(s, WaitReap(c, q))
    ensures Inv(Step(s, WaitReap(c, q)))
  {
    var s1 := SetProc(s, q, Reaped(Get(s, q)));
    ReapKeepsTable(s, q);
    CpusFrame(s, s1);
    WaitReturnKeepsInv(s1, c);
  }

  lemma WaitFailKeepsInv(s: State, c: nat)
    requires Inv(s) && Enabled(s, WaitFail(c))
    ensures Inv(Step(s, WaitFail(c)))
  {
    WaitReturnKeepsInv(s, c);
  }

  lemma WaitSleepKeepsInv(s: State, c: nat)
    requires Inv(s) && Enabled(s, WaitSleep(c))
    ensures Inv(Step(s, WaitSleep(c)))
  {
    var s' := Step(s, WaitSleep(c));
    var p := Current(s, c);
    assert CpuOk(s, c);
    var x := s.procs[p].(state := SLEEPING, chan := ProcChan(p), resume := InWait);
    SwitchCpus(s, c, x);
    var s0 := SetProc(s, p, x.(resume := Plain));
    BenignKeepsTable(s, s0);
    WaitSleepTable(s, s0, p, x, s');
  }

  lemma WaitSleepTable(s: State, s0: State, p: nat, x: Proc, s': State)
    requires p < |s.procs| && !HasZombie(s.procs, p) && x.state == SLEEPING && x.chan == ProcChan(p)
    requires x.parent == s.procs[p].parent && s0 == SetProc(s, p, x.(resume := Plain)) && TableOk(s0)
    requires s'.procs == s.procs[p := x] && s'.init == s.init && s'.nextpid == s.nextpid
    ensures TableOk(s')
  {
    forall q | 0 <= q < |s'.procs| && Waiting(s'.procs[q])
      ensures s'.procs[q].chan == ProcChan(q) && !HasZombie(s'.procs, q)
    {
      if q == p {
        ZombieFrame(s.procs, s'.procs, q);
      } else {
        ZombieFrame(s0.procs, s'.procs, q);
      }
    }
    ResumeIrrelevant(s0, s', p);
  }

  /** Only WaitersOk looks at `resume`. */
  lemma ResumeIrrelevant(s: State, s': State, p: nat)
    requires ParentsOk(s) && ForksOk(s) && ResourcesOk(s) && PidsOk(s) && p < |s.procs|
    requires |s'.procs| == |s.procs| && s'.init == s.init && s'.nextpid == s.nextpid
    requires forall q | 0 <= q < |s.procs| :: s'.procs[q].(resume := s.procs[q].resume) == s.procs[q]
    ensures ParentsOk(s') && ForksOk(s') && ResourcesOk(s') && PidsOk(s')
  {
    assert s'.procs[s.init].(resume := s.procs[s.init].resume) == s.procs[s.init];
    forall q | 0 <= q < |s.procs| && s'.procs[q].parent.Some?
      ensures s'.procs[q].parent.value != q && Alive(Get(s', s'.procs[q].parent.value))
    {
      assert Alive(Get(s, s.procs[q].parent.value));
    }
    forall q | 0 <= q < |s.procs| ensures s'.procs[q].forking == s.procs[q].forking {
    }
  }

  // ----- runs

  lemma StepKeepsInv(s: State, a: Action)
    requires Inv(s) && Enabled(s, a)
    ensures Inv(Step(s, a))
  {
    match a
    case SchedAcquire(c) => SchedAcquireKeepsInv(s, c);
    case SchedRun(c, p) => SchedRunKeepsInv(s, c, p);
    case SchedBack(c) => SchedBackKeepsInv(s, c);
    case SchedRelease(c) => SchedReleaseKeepsInv(s, c);
    case Resumed(c) => ResumedKeepsInv(s, c);
    case Yield(c) => YieldKeepsInv(s, c);
    case Sleep(c, chan) => SleepKeepsInv(s, c, chan);
    case Wakeup(chan) => WakeupKeepsInv(s, chan);
    case ForkAlloc(c, np) => ForkAllocKeepsInv(s, c, np);
    case ForkNoStack(c) => ForkNoStackKeepsInv(s, c);
    case ForkStack(c) => ForkStackKeepsInv(s, c);
    case ForkNoMemory(c) => ForkNoMemoryKeepsInv(s, c);
    case ForkCopy(c) => ForkCopyKeepsInv(s, c);
    case ForkFinish(c) => ForkFinishKeepsInv(s, c);
    case Exit(c) => ExitKeepsInv(s, c);
    case WaitReap(c, q) => WaitReapKeepsInv(s, c, q);
    case WaitFail(c) => WaitFailKeepsInv(s, c);
    case WaitSleep(c) => WaitSleepKeepsInv(s, c);
    case Kill(p) => KillKeepsInv(s, p);
  }

  /** After `userinit`: slot 0 is init and RUNNABLE, every other slot is free, no CPU runs a process. */
  function Init(nproc: nat, ncpu: nat): State {
    State(
      seq(nproc, i => if i == 0 then Proc(RUNNABLE, 1, None, NoChan, false, true, true, Plain, None)
                      else Proc(UNUSED, 0, None, NoChan, false, false, false, Plain, None)),
      seq(ncpu, _ => Cpu(None, false)), Free, 0, 2)
  }

  ghost predicate Run(s: State, run: seq<Action>, e: State)
    decreases |run|
  {
    if run == [] then e == s else Enabled(s, run[0]) && Run(Step(s, run[0]), run[1..], e)
  }

  lemma {:induction false} RunKeepsInv(s: State, run: seq<Action>, e: State)
    requires Inv(s) && Run(s, run, e)
    ensures Inv(e)
    decreases |run|
  {
    if run != [] {
      StepKeepsInv(s, run[0]);
      RunKeepsInv(Step(s, run[0]), run[1..], e);
    }
  }

  ghost predicate Reachable(s: State) {
    exists nproc: nat, ncpu: nat, run: seq<Action> :: 0 < nproc && Run(Init(nproc, ncpu), run, s)
  }

  lemma ReachableInv(s: State)
    requires Reachable(s)
    ensures Inv(s)
  {
    var nproc: nat, ncpu: nat, run: seq<Action> :| 0 < nproc && Run(Init(nproc, ncpu), run, s);
    RunKeepsInv(Init(nproc, ncpu), run, s);
  }

  /**
   Lifecycle safety: whenever `ptable.lock` is free, a process is RUNNING exactly when it is
   the current process of some CPU, that CPU is unique, and no CPU has a zombie.
   */
  lemma RunningIsOnOneCpu(s: State, p: nat)
    requires Reachable(s) && s.lock == Free && p < |s.procs|
    ensures s.procs[p].state == RUNNING <==> exists c :: 0 <= c < |s.cpus| && s.cpus[c].proc == Some(p)
    ensures forall c, d | 0 <= c < |s.cpus| && 0 <= d < |s.cpus|
              && s.cpus[c].proc == Some(p) && s.cpus[d].proc == Some(p) :: c == d
    ensures s.procs[p].state == ZOMBIE ==> forall c | 0 <= c < |s.cpus| :: s.cpus[c].proc != Some(p)
  {
    ReachableInv(s);
    forall c | 0 <= c < |s.cpus| && s.cpus[c].proc == Some(p) ensures s.procs[p].state == RUNNING {
      assert CpuOk(s, c);
    }
  }

  /** `wait` frees the kernel stack of a process that no CPU is on, even one still inside `sched`. */
  lemma ReapedStackIsUnused(s: State, c: nat, q: nat, d: nat)
    requires Reachable(s) && Enabled(s, WaitReap(c, q)) && d < |s.cpus|
    ensures s.cpus[d].proc != Some(q)
  {
    ReachableInv(s);
    assert CpuOk(s, d);
    assert CpuOk(s, c);
  }

  /** Every process has a parent that is neither a zombie nor a free slot. */
  lemma ParentsAreAlive(s: State, q: nat)
    requires Reachable(s) && q < |s.procs| && s.procs[q].parent.Some?
    ensures s.procs[q].parent.value < |s.procs|
    ensures s.procs[s.procs[q].parent.value].state != ZOMBIE && s.procs[s.procs[q].parent.value].state != UNUSED
  {
    ReachableInv(s);
  }

  /** No lost wakeup in `wait`: a parent asleep there has no zombie child. */
  lemma NoWaiterWithZombie(s: State, p: nat, q: nat)
    requires Reachable(s) && p < |s.procs| && Waiting(s.procs[p]) && ChildOf(s.procs, q, p)
    ensures s.procs[q].state != ZOMBIE
  {
    ReachableInv(s);
  }

  /** `switchuvm` never panics: the scheduler only runs processes with a kernel stack and page table. */
  lemma ScheduledHasStack(s: State, c: nat, p: nat)
    requires Reachable(s) && Enabled(s, SchedRun(c, p))
    ensures s.procs[p].kstack && s.procs[p].pgdir
  {
    ReachableInv(s);
  }
}
