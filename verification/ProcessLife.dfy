/**
 The life of a process in the machine of `ProcessTable`: which step changes which field of a slot, and to what,
 and what follows for whole runs.
 */
module ProcessLife {
  import opened Common
  import opened ProcessTable

  /** Step `a` is one of the process in slot `p`, which runs on the CPU that takes it. */
  predicate ByProcess(s: State, a: Action, p: nat) {
    !a.Wakeup? && !a.Kill? && a.c < |s.cpus| && s.cpus[a.c].proc == Some(p)
  }

  /** Step `a` belongs to a `fork` that fills slot `p`. */
  predicate ForksInto(s: State, a: Action, p: nat) {
    && (a.ForkNoStack? || a.ForkStack? || a.ForkNoMemory? || a.ForkCopy? || a.ForkFinish?)
    && Get(s, Current(s, a.c)).forking == Some(p)
  }

  /**
   Step `a` ends the sleep of the process in slot `p`: a wakeup on its channel, a kill, or an exit of its child or,
   if it is init, of a process that leaves it a zombie.
   */
  ghost predicate Wakes(s: State, a: Action, p: nat) {
    var chan := Get(s, p).chan;
    match a
    case Wakeup(ch) => chan == Address(ch)
    case Kill(q) => q == p
    case Exit(c) =>
      var q := Current(s, c);
      || (Get(s, q).parent.Some? && chan == ProcChan(Get(s, q).parent.value))
      || (HasZombie(s.procs, q) && chan == ProcChan(s.init))
    case _ => false
  }

  // ----- exit, slot by slot

  /** What the critical section of `exit` does to the table, field by field. */
  lemma ExitFields(procs: seq<Proc>, p: nat, init: nat, i: nat)
    requires p < |procs| && i < |procs|
    ensures var x, x' := procs[i], ExitTable(procs, p, init)[i];
            && x'.parent == (if x.parent == Some(p) then Some(init) else x.parent)
            && x' == x.(state := x'.state, parent := x'.parent)
            && (i == p ==> x'.state == ZOMBIE)
            && (i != p ==>
                  x'.state ==
                  if x.state == SLEEPING && ((procs[p].parent.Some? && x.chan == ProcChan(procs[p].parent.value))
                                             || (HasZombie(procs, p) && x.chan == ProcChan(init)))
                  then RUNNABLE else x.state)
  {
    if procs[p].parent.Some? {
      ZombiesSleepOn(procs, ProcChan(procs[p].parent.value), p);
    }
  }

  /** `exit` makes a zombie that keeps its pid and its parent, and gives its children to init. */
  lemma ExitMakesZombie(s: State, c: nat, i: nat)
    requires Inv(s) && Enabled(s, Exit(c)) && i < |s.procs|
    ensures var p, s' := Current(s, c), Step(s, Exit(c));
            && p < |s.procs| == |s'.procs| && s.procs[p].state == RUNNING
            && s'.procs[p] == s.procs[p].(state := ZOMBIE)
            && (i != p ==>
                  s'.procs[i] == s.procs[i].(
                    state := if s.procs[i].state == SLEEPING && Wakes(s, Exit(c), i) then RUNNABLE
                             else s.procs[i].state,
                    parent := if s.procs[i].parent == Some(p) then Some(s.init) else s.procs[i].parent))
  {
    assert CpuOk(s, c);
    ExitFields(s.procs, Current(s, c), s.init, Current(s, c));
    ExitFields(s.procs, Current(s, c), s.init, i);
  }

  // ----- one step

  /** The life cycle: the only steps that change the state of a slot, and what they change it to. */
  lemma StateAfter(s: State, a: Action, p: nat)
    requires Inv(s) && Enabled(s, a) && p < |s.procs|
    ensures |Step(s, a).procs| == |s.procs|
    ensures var x, x' := s.procs[p].state, Step(s, a).procs[p].state;
            match x
            case UNUSED => x' == if a.ForkAlloc? && a.np == p then EMBRYO else UNUSED
            case EMBRYO =>
              x' == if ForksInto(s, a, p) && a.ForkFinish? then RUNNABLE
                    else if ForksInto(s, a, p) && (a.ForkNoStack? || a.ForkNoMemory?) then UNUSED
                    else EMBRYO
            case SLEEPING => x' == if Wakes(s, a, p) then RUNNABLE else SLEEPING
            case RUNNABLE => x' == if a.SchedRun? && a.p == p then RUNNING else RUNNABLE
            case RUNNING =>
              x' == if ByProcess(s, a, p) && a.Yield? then RUNNABLE
                    else if ByProcess(s, a, p) && (a.Sleep? || a.WaitSleep?) then SLEEPING
                    else if ByProcess(s, a, p) && a.Exit? then ZOMBIE
                    else RUNNING
            case ZOMBIE => x' == if a.WaitReap? && a.q == p then UNUSED else ZOMBIE
  {
    if a.Exit? {
      ExitMakesZombie(s, a.c, p);
    } else if a.ForkAlloc? || a.ForkNoStack? || a.ForkStack? || a.ForkNoMemory? || a.ForkCopy? || a.ForkFinish? {
      ForkStates(s, a, p);
    } else if a.Wakeup? || a.Kill? {
      WakeStates(s, a, p);
    } else {
      CallStates(s, a, p);
    }
  }

  lemma WakeStates(s: State, a: Action, p: nat)
    requires Enabled(s, a) && p < |s.procs| && (a.Wakeup? || a.Kill?)
    ensures |Step(s, a).procs| == |s.procs|
    ensures Step(s, a).procs[p].state ==
            if s.procs[p].state == SLEEPING && Wakes(s, a, p) then RUNNABLE else s.procs[p].state
  {
  }

  predicate SchedOrWait(a: Action) {
    || a.SchedAcquire? || a.SchedRun? || a.SchedBack? || a.SchedRelease? || a.Resumed? || a.Yield? || a.Sleep?
    || a.WaitReap? || a.WaitFail? || a.WaitSleep?
  }

  lemma CallStates(s: State, a: Action, p: nat)
    requires Inv(s) && Enabled(s, a) && p < |s.procs| && SchedOrWait(a)
    ensures |Step(s, a).procs| == |s.procs|
    ensures Step(s, a).procs[p].state ==
            if a.SchedRun? && a.p == p then RUNNING
            else if a.WaitReap? && a.q == p then UNUSED
            else if ByProcess(s, a, p) && a.Yield? then RUNNABLE
            else if ByProcess(s, a, p) && (a.Sleep? || a.WaitSleep?) then SLEEPING
            else s.procs[p].state
    ensures a.SchedRun? && a.p == p ==> s.procs[p].state == RUNNABLE
    ensures a.WaitReap? && a.q == p ==> s.procs[p].state == ZOMBIE
    ensures ByProcess(s, a, p) && (a.Yield? || a.Sleep? || a.WaitSleep?) ==> s.procs[p].state == RUNNING
  {
    assert CpuOk(s, a.c);
  }

  lemma ForkStates(s: State, a: Action, p: nat)
    requires Inv(s) && Enabled(s, a) && p < |s.procs|
    requires a.ForkAlloc? || a.ForkNoStack? || a.ForkStack? || a.ForkNoMemory? || a.ForkCopy? || a.ForkFinish?
    ensures |Step(s, a).procs| == |s.procs|
    ensures Step(s, a).procs[p].state ==
            if a.ForkAlloc? && a.np == p then EMBRYO
            else if ForksInto(s, a, p) && a.ForkFinish? then RUNNABLE
            else if ForksInto(s, a, p) && (a.ForkNoStack? || a.ForkNoMemory?) then UNUSED
            else s.procs[p].state
    ensures ForksInto(s, a, p) ==> s.procs[p].state == EMBRYO
  {
    assert CpuOk(s, a.c);
    if !a.ForkAlloc? {
      NewSlotFacts(s, a.c);
    }
  }

  /** Who a process is: the only steps that change pid, parent, kill mark, kernel stack and page table of a slot. */
  lemma IdentityAfter(s: State, a: Action, p: nat)
    requires Inv(s) && Enabled(s, a) && p < |s.procs|
    ensures |Step(s, a).procs| == |s.procs| && Step(s, a).init == s.init
    ensures var x, x' := s.procs[p], Step(s, a).procs[p];
            var reaped := a.WaitReap? && a.q == p;
            && x'.pid == (if a.ForkAlloc? && a.np == p then s.nextpid else if reaped then 0 else x.pid)
            && x'.killed == ((x.killed && !reaped) || (a.Kill? && a.p == p))
            && x'.kstack == (if reaped || (ForksInto(s, a, p) && a.ForkNoMemory?) then false
                             else x.kstack || (ForksInto(s, a, p) && a.ForkStack?))
            && x'.pgdir == ((x.pgdir || (ForksInto(s, a, p) && a.ForkCopy?)) && !reaped)
    ensures Step(s, a).nextpid == s.nextpid + (if a.ForkAlloc? then 1 else 0)
  {
    if a.Exit? {
      ExitMakesZombie(s, a.c, p);
    } else if a.ForkAlloc? || a.ForkNoStack? || a.ForkStack? || a.ForkNoMemory? || a.ForkCopy? || a.ForkFinish? {
      ForkIdentity(s, a, p);
    } else if a.Wakeup? || a.Kill? {
      WakeIdentity(s, a, p);
    } else {
      CallIdentity(s, a, p);
    }
  }

  lemma WakeIdentity(s: State, a: Action, p: nat)
    requires Enabled(s, a) && p < |s.procs| && (a.Wakeup? || a.Kill?)
    ensures |Step(s, a).procs| == |s.procs| && Step(s, a).init == s.init && Step(s, a).nextpid == s.nextpid
    ensures var x, x' := s.procs[p], Step(s, a).procs[p];
            x' == x.(state := x'.state, killed := x.killed || (a.Kill? && a.p == p))
  {
  }

  lemma CallIdentity(s: State, a: Action, p: nat)
    requires Inv(s) && Enabled(s, a) && p < |s.procs| && SchedOrWait(a)
    ensures |Step(s, a).procs| == |s.procs| && Step(s, a).init == s.init && Step(s, a).nextpid == s.nextpid
    ensures var x, x' := s.procs[p], Step(s, a).procs[p];
            if a.WaitReap? && a.q == p then x'.pid == 0 && x'.parent == None && !x'.killed && !x'.kstack && !x'.pgdir
            else x' == x.(state := x'.state, chan := x'.chan, resume := x'.resume)
    ensures s.procs[p].state != RUNNING ==> Step(s, a).procs[p].chan == s.procs[p].chan
  {
    assert CpuOk(s, a.c);
  }

  lemma ForkIdentity(s: State, a: Action, p: nat)
    requires Inv(s) && Enabled(s, a) && p < |s.procs|
    requires a.ForkAlloc? || a.ForkNoStack? || a.ForkStack? || a.ForkNoMemory? || a.ForkCopy? || a.ForkFinish?
    ensures |Step(s, a).procs| == |s.procs|
    ensures var x, x' := s.procs[p], Step(s, a).procs[p];
            && x'.pid == (if a.ForkAlloc? && a.np == p then s.nextpid else x.pid) && x'.killed == x.killed
            && x'.kstack == (if ForksInto(s, a, p) && a.ForkNoMemory? then false
                             else x.kstack || (ForksInto(s, a, p) && a.ForkStack?))
            && x'.pgdir == (x.pgdir || (ForksInto(s, a, p) && a.ForkCopy?))
            && x'.parent == (if ForksInto(s, a, p) && a.ForkCopy? then Some(Current(s, a.c)) else x.parent)
  {
    assert CpuOk(s, a.c);
    if !a.ForkAlloc? {
      NewSlotFacts(s, a.c);
    }
  }

  /** The parent of a slot: the process that forked it, then init if that process exits first. */
  lemma ParentAfter(s: State, a: Action, p: nat)
    requires Inv(s) && Enabled(s, a) && p < |s.procs|
    ensures |Step(s, a).procs| == |s.procs|
    ensures Step(s, a).procs[p].parent ==
            if ForksInto(s, a, p) && a.ForkCopy? then Some(Current(s, a.c))
            else if a.WaitReap? && a.q == p then None
            else if a.Exit? && s.procs[p].parent == Some(Current(s, a.c)) then Some(s.init)
            else s.procs[p].parent
  {
    if a.Exit? {
      ExitMakesZombie(s, a.c, p);
      assert CpuOk(s, a.c);
      NotOwnParent(s, Current(s, a.c));
    } else if a.ForkAlloc? || a.ForkNoStack? || a.ForkStack? || a.ForkNoMemory? || a.ForkCopy? || a.ForkFinish? {
      ForkIdentity(s, a, p);
    } else if a.Wakeup? || a.Kill? {
      WakeIdentity(s, a, p);
    } else {
      CallIdentity(s, a, p);
    }
  }

  lemma NotOwnParent(s: State, p: nat)
    requires Inv(s) && p < |s.procs|
    ensures s.procs[p].parent != Some(p)
  {
  }

  /** What a process sleeps on: the argument of `sleep`, or itself in `wait`, until it runs again. */
  lemma ChannelAfter(s: State, a: Action, p: nat)
    requires Inv(s) && Enabled(s, a) && p < |s.procs| && s.procs[p].state != RUNNING
    ensures |Step(s, a).procs| == |s.procs| && Step(s, a).procs[p].chan == s.procs[p].chan
  {
    if a.Exit? {
      ExitMakesZombie(s, a.c, p);
    } else if a.ForkAlloc? || a.ForkNoStack? || a.ForkStack? || a.ForkNoMemory? || a.ForkCopy? || a.ForkFinish? {
      ForkChannel(s, a, p);
    } else if a.Wakeup? || a.Kill? {
      WakeIdentity(s, a, p);
    } else {
      CallIdentity(s, a, p);
    }
  }

  lemma ForkChannel(s: State, a: Action, p: nat)
    requires Inv(s) && Enabled(s, a) && p < |s.procs|
    requires a.ForkAlloc? || a.ForkNoStack? || a.ForkStack? || a.ForkNoMemory? || a.ForkCopy? || a.ForkFinish?
    ensures |Step(s, a).procs| == |s.procs| && Step(s, a).procs[p].chan == s.procs[p].chan
  {
    assert CpuOk(s, a.c);
    if !a.ForkAlloc? {
      NewSlotFacts(s, a.c);
    }
  }

  // ----- sleep and wakeup

  /** `sleep` puts the caller to sleep on the channel. */
  lemma SleepSleeps(s: State, c: nat, chan: int)
    requires Inv(s) && Enabled(s, Sleep(c, chan))
    ensures var p, s' := Current(s, c), Step(s, Sleep(c, chan));
            && p < |s.procs| == |s'.procs| && s.procs[p].state == RUNNING
            && s'.procs[p].state == SLEEPING && s'.procs[p].chan == Address(chan)
  {
    assert CpuOk(s, c);
  }

  /** After a wakeup nobody sleeps on the channel, and nobody else has changed. */
  lemma WakeupWakes(s: State, chan: int, p: nat)
    requires Enabled(s, Wakeup(chan)) && p < |s.procs|
    ensures var x, s' := s.procs[p], Step(s, Wakeup(chan));
            && |s'.procs| == |s.procs| && s' == s.(procs := s'.procs)
            && !(s'.procs[p].state == SLEEPING && s'.procs[p].chan == Address(chan))
            && s'.procs[p] == if x.state == SLEEPING && x.chan == Address(chan) then x.(state := RUNNABLE) else x
  {
  }

  /** The run wakes nobody who sleeps on `chan`, and does not kill `p`. */
  predicate Undisturbed(run: seq<Action>, chan: int, p: nat) {
    forall i | 0 <= i < |run| :: run[i] != Wakeup(chan) && run[i] != Kill(p)
  }

  /** A sleeper sleeps on, and is not scheduled, in every run up to a wakeup on its channel or a kill. */
  lemma {:induction false} SleepsUntilWoken(s: State, run: seq<Action>, e: State, chan: int, p: nat)
    requires Inv(s) && Run(s, run, e) && p < |s.procs| && Undisturbed(run, chan, p)
    requires s.procs[p].state == SLEEPING && s.procs[p].chan == Address(chan)
    ensures p < |e.procs| && e.procs[p].state == SLEEPING && e.procs[p].chan == Address(chan)
    ensures forall i | 0 <= i < |run| :: !(run[i].SchedRun? && run[i].p == p)
    decreases |run|
  {
    if run != [] {
      var a, rest := run[0], run[1..];
      SleepStep(s, a, p, chan, Step(s, a));
      SleepsUntilWoken(Step(s, a), rest, e, chan, p);
      forall i | 0 <= i < |run| ensures !(run[i].SchedRun? && run[i].p == p) {
        assert i > 0 ==> run[i] == rest[i - 1];
      }
    }
  }

  lemma SleepStep(s: State, a: Action, p: nat, chan: int, s': State)
    requires Inv(s) && Enabled(s, a) && p < |s.procs|
    requires s.procs[p].state == SLEEPING && s.procs[p].chan == Address(chan)
    requires a != Wakeup(chan) && a != Kill(p) && s' == Step(s, a)
    ensures Inv(s') && |s'.procs| == |s.procs| && !(a.SchedRun? && a.p == p)
    ensures s'.procs[p].state == SLEEPING && s'.procs[p].chan == Address(chan)
  {
    StateAfter(s, a, p);
    ChannelAfter(s, a, p);
    StepKeepsInv(s, a);
  }

  // ----- zombies

  /** The run does not collect the process in slot `p`. */
  predicate NotReaped(run: seq<Action>, p: nat) {
    forall i | 0 <= i < |run| :: !(run[i].WaitReap? && run[i].q == p)
  }

  /**
   A zombie stays one with the same pid, is never scheduled, and keeps its parent unless init inherits it, in every
   run up to the `wait` that collects it.
   */
  lemma {:induction false} ZombieStays(s: State, run: seq<Action>, e: State, p: nat)
    requires Inv(s) && Run(s, run, e) && p < |s.procs| && s.procs[p].state == ZOMBIE && NotReaped(run, p)
    ensures Inv(e) && p < |e.procs| && e.init == s.init
    ensures e.procs[p].state == ZOMBIE && e.procs[p].pid == s.procs[p].pid
    ensures e.procs[p].parent == s.procs[p].parent || e.procs[p].parent == Some(s.init)
    ensures forall i | 0 <= i < |run| :: !(run[i].SchedRun? && run[i].p == p)
    decreases |run|
  {
    if run != [] {
      var a, rest := run[0], run[1..];
      ZombieStep(s, a, p, Step(s, a));
      ZombieStays(Step(s, a), rest, e, p);
      forall i | 0 <= i < |run| ensures !(run[i].SchedRun? && run[i].p == p) {
        assert i > 0 ==> run[i] == rest[i - 1];
      }
    }
  }

  lemma ZombieStep(s: State, a: Action, p: nat, s': State)
    requires Inv(s) && Enabled(s, a) && p < |s.procs| && s.procs[p].state == ZOMBIE && !(a.WaitReap? && a.q == p)
    requires s' == Step(s, a)
    ensures Inv(s') && |s'.procs| == |s.procs| && s'.init == s.init && !(a.SchedRun? && a.p == p)
    ensures s'.procs[p].state == ZOMBIE && s'.procs[p].pid == s.procs[p].pid
    ensures s'.procs[p].parent == s.procs[p].parent || s'.procs[p].parent == Some(s.init)
  {
    StateAfter(s, a, p);
    IdentityAfter(s, a, p);
    ZombieParent(s, a, p);
    StepKeepsInv(s, a);
  }

  lemma ZombieParent(s: State, a: Action, p: nat)
    requires Inv(s) && Enabled(s, a) && p < |s.procs| && s.procs[p].state == ZOMBIE && !(a.WaitReap? && a.q == p)
    ensures |Step(s, a).procs| == |s.procs|
    ensures Step(s, a).procs[p].parent == s.procs[p].parent || Step(s, a).procs[p].parent == Some(s.init)
  {
    ParentAfter(s, a, p);
    if a.ForkCopy? {
      ForkStates(s, a, p);
    }
  }

  /**
   `exit` is for good: from then on the process never runs again, and the `wait` that collects it is called by its
   parent or by init and returns the pid that it had.
   */
  lemma ExitIsForGood(s: State, c: nat, run: seq<Action>, e: State, d: nat)
    requires Inv(s) && Enabled(s, Exit(c)) && Run(Step(s, Exit(c)), run, e) && NotReaped(run, Current(s, c))
    ensures var p := Current(s, c);
            && p < |s.procs| && p < |e.procs| && e.procs[p].state == ZOMBIE && e.procs[p].pid == s.procs[p].pid
            && (forall i | 0 <= i < |run| :: !(run[i].SchedRun? && run[i].p == p))
            && (Enabled(e, WaitReap(d, p)) ==> Some(Current(e, d)) == s.procs[p].parent || Current(e, d) == s.init)
  {
    assert CpuOk(s, c);
    var p, s' := Current(s, c), Step(s, Exit(c));
    ExitMakesZombie(s, c, p);
    StepKeepsInv(s, Exit(c));
    ZombieStays(s', run, e, p);
    if Enabled(e, WaitReap(d, p)) {
      CollectedByParent(e, d, p);
    }
  }

  lemma CollectedByParent(s: State, c: nat, q: nat)
    requires Enabled(s, WaitReap(c, q))
    ensures q < |s.procs| && s.procs[q].parent == Some(Current(s, c))
  {
  }

  /** `wait` gives the slot back: unused, with no pid, parent, mark, kernel stack or page table. */
  lemma ReapFrees(s: State, c: nat, q: nat)
    requires Inv(s) && Enabled(s, WaitReap(c, q))
    ensures q < |s.procs| == |Step(s, WaitReap(c, q)).procs|
    ensures var x := Step(s, WaitReap(c, q)).procs[q];
            x.state == UNUSED && x.pid == 0 && x.parent == None && !x.killed && !x.kstack && !x.pgdir
  {
    StateAfter(s, WaitReap(c, q), q);
    IdentityAfter(s, WaitReap(c, q), q);
    ParentAfter(s, WaitReap(c, q), q);
  }
}
