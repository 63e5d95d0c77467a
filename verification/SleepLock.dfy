/**
 Sleep locks (`xv6/sleeplock.c`) over `sleep` and `wakeup` (`xv6/proc.c`), one acquire or
 release of a spinlock at a time, for any number of processes and any interleaving.

 `lk` is the spinlock inside the sleep lock and `pt` is `ptable.lock`; `-1` is any process or
 CPU that uses `ptable.lock` for something else.
 */
module SleepLock {
  import opened Common

  /** Where a process is in `acquiresleep` (with `sleep` inside it) or `releasesleep`. */
  datatype Pc =
    | Idle
    | WantLk          // acquiresleep: acquire(&lk->lk)
    | Testing         // has lk: while (lk->locked)
    | SleepWantPt     // has lk: sleep, acquire(&ptable.lock)
    | SleepHasBoth    // has lk and pt: release(lk)
    | SleepMark       // has pt: p->chan = chan; p->state = SLEEPING
    | SleepSched      // SLEEPING, pt not yet released by the scheduler
    | Asleep          // SLEEPING
    | Woken           // RUNNABLE again
    | Resumed         // scheduled, has pt: p->chan = 0; release(&ptable.lock)
    | Holding         // owns the sleep lock
    | RelWantLk       // releasesleep: acquire(&lk->lk)
    | RelClear        // has lk: lk->locked = 0
    | RelWantPt       // has lk: wakeup, acquire(&ptable.lock)
    | RelWake         // has lk and pt: wakeup1
    | RelDropPt       // has lk and pt: release(&ptable.lock)
    | RelDropLk       // has lk: release(&lk->lk)
    | Gap             // only in the early-release variant: has neither lock, not yet SLEEPING

  datatype State = State(locked: bool, owner: int, lk: Option<int>, pt: Option<int>, pcs: seq<Pc>, pids: seq<int>)

  datatype Action =
    | Move(p: nat)        // the next instruction of process p
    | TakePt | DropPt     // somebody else uses ptable.lock
    | Kill(p: nat)        // kill() makes a sleeper runnable

  function WakeAll(pcs: seq<Pc>): (r: seq<Pc>)
    ensures |r| == |pcs|
  {
    seq(|pcs|, i requires 0 <= i < |pcs| => if pcs[i] == Asleep then Woken else pcs[i])
  }

  /**
   The next instruction of `p`, or None while it has to wait for a spinlock.  With `early`,
   `sleep` releases `lk` before it takes `ptable.lock` (which the source does not do).
   */
  function Next(early: bool, s: State, p: nat): Option<State>
    requires p < |s.pcs| == |s.pids|
  {
    match s.pcs[p]
    case Idle => Some(s.(pcs := s.pcs[p := WantLk]))
    case WantLk => if s.lk.None? then Some(s.(lk := Some(p), pcs := s.pcs[p := Testing])) else None
    case Testing =>
      if s.locked then Some(s.(pcs := s.pcs[p := SleepWantPt]))
      else Some(s.(locked := true, owner := s.pids[p], lk := None, pcs := s.pcs[p := Holding]))
    case SleepWantPt =>
      if early then Some(s.(lk := None, pcs := s.pcs[p := Gap]))
      else if s.pt.None? then Some(s.(pt := Some(p), pcs := s.pcs[p := SleepHasBoth])) else None
    case Gap => if s.pt.None? then Some(s.(pt := Some(p), pcs := s.pcs[p := SleepMark])) else None
    case SleepHasBoth => Some(s.(lk := None, pcs := s.pcs[p := SleepMark]))
    case SleepMark => Some(s.(pcs := s.pcs[p := SleepSched]))
    case SleepSched => Some(s.(pt := None, pcs := s.pcs[p := Asleep]))
    case Asleep => None
    case Woken => if s.pt.None? then Some(s.(pt := Some(p), pcs := s.pcs[p := Resumed])) else None
    case Resumed => Some(s.(pt := None, pcs := s.pcs[p := WantLk]))
    case Holding => Some(s.(pcs := s.pcs[p := RelWantLk]))
    case RelWantLk => if s.lk.None? then Some(s.(lk := Some(p), pcs := s.pcs[p := RelClear])) else None
    case RelClear => Some(s.(locked := false, owner := 0, pcs := s.pcs[p := RelWantPt]))
    case RelWantPt => if s.pt.None? then Some(s.(pt := Some(p), pcs := s.pcs[p := RelWake])) else None
    case RelWake => Some(s.(pcs := WakeAll(s.pcs)[p := RelDropPt]))
    case RelDropPt => Some(s.(pt := None, pcs := s.pcs[p := RelDropLk]))
    case RelDropLk => Some(s.(lk := None, pcs := s.pcs[p := Idle]))
  }

  function Step(early: bool, s: State, a: Action): Option<State> {
    match a
    case Move(p) => if p < |s.pcs| == |s.pids| then Next(early, s, p) else None
    case TakePt => if s.pt.None? then Some(s.(pt := Some(-1))) else None
    case DropPt => if s.pt == Some(-1) then Some(s.(pt := None)) else None
    case Kill(p) =>
      if p < |s.pcs| && s.pcs[p] == Asleep && s.pt.None? then Some(s.(pcs := s.pcs[p := Woken])) else None
  }

  // ----- what a call does

  /** Inside acquiresleep. */
  predicate Acquiring(pc: Pc) {
    pc.WantLk? || pc.Testing? || pc.SleepWantPt? || pc.SleepHasBoth? || pc.SleepMark? || pc.SleepSched?
    || pc.Asleep? || pc.Woken? || pc.Resumed?
  }

  /** Inside releasesleep. */
  predicate Releasing(pc: Pc) {
    pc.RelWantLk? || pc.RelClear? || pc.RelWantPt? || pc.RelWake? || pc.RelDropPt? || pc.RelDropLk?
  }

  /** Nobody moves another process, except that a sleeper is woken. */
  lemma OnlyMoves(s: State, a: Action, p: nat)
    requires p < |s.pcs| == |s.pids| && Step(false, s, a).Some?
    ensures var s' := Step(false, s, a).value;
            && |s'.pcs| == |s.pcs| && s'.pids == s.pids
            && (s'.pcs[p] != s.pcs[p] ==> a == Move(p) || (s.pcs[p] == Asleep && s'.pcs[p] == Woken))
  {
  }

  /** acquiresleep returns only as the owner of a lock that was free; until then it stays inside. */
  lemma AcquireReturns(s: State, a: Action, p: nat)
    requires p < |s.pcs| == |s.pids| && Acquiring(s.pcs[p]) && Step(false, s, a).Some?
    ensures var s' := Step(false, s, a).value;
            && |s'.pcs| == |s.pcs| && s'.pids == s.pids
            && (Acquiring(s'.pcs[p])
                || (s'.pcs[p] == Holding && !s.locked && s'.locked && s'.owner == s.pids[p]))
  {
    OnlyMoves(s, a, p);
  }

  /** releasesleep clears the lock, and returns at its end. */
  lemma ReleaseReturns(s: State, a: Action, p: nat)
    requires p < |s.pcs| == |s.pids| && (s.pcs[p] == Holding || Releasing(s.pcs[p])) && Step(false, s, a).Some?
    ensures var s' := Step(false, s, a).value;
            && |s'.pcs| == |s.pcs|
            && (s'.pcs[p] == s.pcs[p] || Releasing(s'.pcs[p]) || (s.pcs[p] == RelDropLk && s'.pcs[p] == Idle))
            && (s.pcs[p] == Holding ==> s'.pcs[p] == Holding || s'.pcs[p] == RelWantLk)
            && (s.pcs[p] == RelClear && s'.pcs[p] != RelClear ==> !s'.locked && s'.owner == 0)
  {
    OnlyMoves(s, a, p);
  }

  /** A sleeper wakes exactly when somebody's release reaches its wakeup, or when it is killed. */
  lemma SleeperWakes(s: State, a: Action, p: nat)
    requires p < |s.pcs| == |s.pids| && s.pcs[p] == Asleep && Step(false, s, a).Some?
    ensures var s' := Step(false, s, a).value;
            && |s'.pcs| == |s.pcs|
            && s'.pcs[p] == if a == Kill(p) || (a.Move? && s.pcs[a.p] == RelWake) then Woken else Asleep
  {
  }

  // ----- the invariant

  predicate HasLk(pc: Pc) {
    pc.Testing? || pc.SleepWantPt? || pc.SleepHasBoth? || pc.RelClear? || pc.RelWantPt? || pc.RelWake?
    || pc.RelDropPt? || pc.RelDropLk?
  }

  predicate HasPt(pc: Pc) {
    pc.SleepHasBoth? || pc.SleepMark? || pc.SleepSched? || pc.Resumed? || pc.RelWake? || pc.RelDropPt?
  }

  /** The process owns the sleep lock. */
  predicate Owns(pc: Pc) {
    pc.Holding? || pc.RelWantLk? || pc.RelClear?
  }

  /** The process has let go of `lk` in order to sleep and has not been woken. */
  predicate Sleeper(pc: Pc) {
    pc.SleepMark? || pc.SleepSched? || pc.Asleep?
  }

  /** The process is between clearing `locked` and waking the sleepers. */
  predicate AboutToWake(pc: Pc) {
    pc.RelWantPt? || pc.RelWake?
  }

  /** What process `p` does with the spinlocks agrees with who holds them. */
  predicate SpinAt(s: State, p: nat) {
    && p < |s.pcs| && s.pcs[p] != Gap
    && (HasLk(s.pcs[p]) <==> s.lk == Some(p))
    && (HasPt(s.pcs[p]) <==> s.pt == Some(p))
  }

  /** Spinlocks are held by the processes whose code says so. */
  ghost predicate SpinOk(s: State) {
    && |s.pids| == |s.pcs|
    && forall p: nat {:trigger SpinAt(s, p)} {:trigger s.pcs[p]} | p < |s.pcs| :: SpinAt(s, p)
  }

  /** `locked` is set exactly while one process owns the lock, and `pid` names it. */
  ghost predicate OwnerOk(s: State) {
    && |s.pids| == |s.pcs|
    && (forall p | 0 <= p < |s.pcs| && Owns(s.pcs[p]) :: s.locked && s.owner == s.pids[p])
    && (forall p, q | 0 <= p < q < |s.pcs| :: !(Owns(s.pcs[p]) && Owns(s.pcs[q])))
    && (s.locked ==> exists p :: 0 <= p < |s.pcs| && Owns(s.pcs[p]))
    && (forall p | 0 <= p < |s.pcs| && (s.pcs[p].SleepWantPt? || s.pcs[p].SleepHasBoth?) :: s.locked)
  }

  /** Whoever sleeps is covered by an owner, or by a release that has not reached its wakeup. */
  ghost predicate CoveredOk(s: State) {
    forall p | 0 <= p < |s.pcs| && Sleeper(s.pcs[p]) ::
      s.locked || exists q :: 0 <= q < |s.pcs| && AboutToWake(s.pcs[q])
  }

  ghost predicate Inv(s: State) {
    SpinOk(s) && OwnerOk(s) && CoveredOk(s)
  }

  lemma MoveSpin(s: State, p: nat)
    requires SpinOk(s) && p < |s.pcs| && Next(false, s, p).Some?
    ensures SpinOk(Next(false, s, p).value)
  {
    var s' := Next(false, s, p).value;
    forall q: nat | q < |s.pcs| ensures SpinAt(s', q) {
      MoveSpinAt(s, p, q);
    }
    assert forall q: nat | q < |s'.pcs| :: SpinAt(s', q);
  }

  lemma MoveSpinAt(s: State, p: nat, q: nat)
    requires SpinOk(s) && p < |s.pcs| && q < |s.pcs| && Next(false, s, p).Some?
    ensures SpinAt(Next(false, s, p).value, q) && |Next(false, s, p).value.pcs| == |s.pcs|
  {
    assert SpinAt(s, p) && SpinAt(s, q);
  }

  /** `locked` is set exactly while some process owns the lock. */
  lemma MoveLocked(s: State, p: nat)
    requires SpinOk(s) && OwnerOk(s) && p < |s.pcs| && Next(false, s, p).Some?
    ensures var s' := Next(false, s, p).value;
            s'.locked ==> exists q :: 0 <= q < |s'.pcs| && Owns(s'.pcs[q])
  {
    var s' := Next(false, s, p).value;
    if s'.locked {
      if s.pcs[p].Testing? && !s.locked {
        assert Owns(s'.pcs[p]);
      } else {
        var q :| 0 <= q < |s.pcs| && Owns(s.pcs[q]);
        assert Owns(s'.pcs[q]);
      }
    }
  }

  lemma MoveOwner(s: State, p: nat)
    requires SpinOk(s) && OwnerOk(s) && p < |s.pcs| && Next(false, s, p).Some?
    ensures OwnerOk(Next(false, s, p).value)
  {
    var s' := Next(false, s, p).value;
    MoveLocked(s, p);
    forall q | 0 <= q < |s'.pcs| && Owns(s'.pcs[q]) ensures s'.locked && s'.owner == s'.pids[q] {
      MoveOwnerIs(s, p, q);
    }
    forall q, r | 0 <= q < r < |s'.pcs| ensures !(Owns(s'.pcs[q]) && Owns(s'.pcs[r])) {
      MoveOwnerOnce(s, p, q, r);
    }
  }

  lemma MoveOwnerIs(s: State, p: nat, q: nat)
    requires SpinOk(s) && OwnerOk(s) && p < |s.pcs| && Next(false, s, p).Some?
    requires q < |s.pcs| && Owns(Next(false, s, p).value.pcs[q])
    ensures var s' := Next(false, s, p).value; s'.locked && s'.owner == s'.pids[q]
  {
    if q != p {
      assert Owns(s.pcs[q]);
    }
  }

  lemma MoveOwnerOnce(s: State, p: nat, q: nat, r: nat)
    requires SpinOk(s) && OwnerOk(s) && p < |s.pcs| && Next(false, s, p).Some? && q < r < |s.pcs|
    ensures var s' := Next(false, s, p).value; !(Owns(s'.pcs[q]) && Owns(s'.pcs[r]))
  {
    assert !(Owns(s.pcs[q]) && Owns(s.pcs[r]));
  }

  lemma MoveCovered(s: State, p: nat)
    requires Inv(s) && p < |s.pcs| && Next(false, s, p).Some?
    ensures CoveredOk(Next(false, s, p).value)
  {
    var s' := Next(false, s, p).value;
    forall r | 0 <= r < |s'.pcs| && Sleeper(s'.pcs[r])
      ensures s'.locked || exists q :: 0 <= q < |s'.pcs| && AboutToWake(s'.pcs[q])
    {
      if s.pcs[p].RelClear? {
        assert AboutToWake(s'.pcs[p]);
      } else if !s'.locked && !s.pcs[p].SleepHasBoth? {
        assert Sleeper(s.pcs[r]);
        var q :| 0 <= q < |s.pcs| && AboutToWake(s.pcs[q]);
        assert AboutToWake(s'.pcs[q]);
      }
    }
  }

  lemma KillKeepsInv(s: State, p: nat)
    requires Inv(s) && Step(false, s, Kill(p)).Some?
    ensures Inv(Step(false, s, Kill(p)).value)
  {
    var s' := Step(false, s, Kill(p)).value;
    forall q: nat | q < |s'.pcs| ensures SpinAt(s', q) {
      assert SpinAt(s, q);
    }
    if s.locked {
      var q :| 0 <= q < |s.pcs| && Owns(s.pcs[q]);
      assert Owns(s'.pcs[q]);
    }
    forall r | 0 <= r < |s'.pcs| && Sleeper(s'.pcs[r])
      ensures s'.locked || exists q :: 0 <= q < |s'.pcs| && AboutToWake(s'.pcs[q])
    {
      if !s.locked {
        assert Sleeper(s.pcs[r]);
        var q :| 0 <= q < |s.pcs| && AboutToWake(s.pcs[q]);
        assert AboutToWake(s'.pcs[q]);
      }
    }
  }

  lemma StepKeepsInv(s: State, a: Action)
    requires Inv(s) && Step(false, s, a).Some?
    ensures Inv(Step(false, s, a).value)
  {
    match a
    case Move(p) =>
      MoveSpin(s, p);
      MoveOwner(s, p);
      MoveCovered(s, p);
    case Kill(p) =>
      KillKeepsInv(s, p);
    case TakePt =>
    case DropPt =>
  }

  // ----- runs

  function Init(pids: seq<int>): State {
    State(false, 0, None, None, seq(|pids|, _ => Idle), pids)
  }

  ghost predicate Run(early: bool, s: State, run: seq<Action>, e: State)
    decreases |run|
  {
    if run == [] then e == s
    else Step(early, s, run[0]).Some? && Run(early, Step(early, s, run[0]).value, run[1..], e)
  }

  lemma {:induction false} RunKeepsInv(s: State, run: seq<Action>, e: State)
    requires Inv(s) && Run(false, s, run, e)
    ensures Inv(e)
    decreases |run|
  {
    if run != [] {
      StepKeepsInv(s, run[0]);
      RunKeepsInv(Step(false, s, run[0]).value, run[1..], e);
    }
  }

  /** In every run, a process that has left acquiresleep has owned the lock on the way. */
  lemma {:induction false} AcquireEndsHolding(s: State, run: seq<Action>, e: State, p: nat)
    returns (k: nat, m: State)
    requires Run(false, s, run, e) && p < |s.pcs| == |s.pids| && Acquiring(s.pcs[p])
    requires p < |e.pcs| ==> !Acquiring(e.pcs[p])
    ensures k <= |run| && Run(false, s, run[..k], m) && Run(false, m, run[k..], e)
    ensures p < |m.pcs| && m.pcs[p] == Holding && m.locked && m.owner == s.pids[p]
    decreases |run|
  {
    var s' := Step(false, s, run[0]).value;
    AcquireReturns(s, run[0], p);
    if s'.pcs[p] == Holding {
      k, m := 1, s';
      assert run[..1] == [run[0]];
      assert [run[0]][1..] == [];
      assert Run(false, s', [], s');
    } else {
      k, m := AcquireEndsHolding(s', run[1..], e, p);
      assert run[..k + 1][1..] == run[1..][..k] && run[k + 1..] == run[1..][k..];
      k := k + 1;
    }
  }

  /** Mutual exclusion: in every run, at most one process owns the sleep lock. */
  lemma MutualExclusion(pids: seq<int>, run: seq<Action>, s: State, p: nat, q: nat)
    requires Run(false, Init(pids), run, s)
    requires p < |s.pcs| && q < |s.pcs| && Owns(s.pcs[p]) && Owns(s.pcs[q])
    ensures p == q
  {
    RunKeepsInv(Init(pids), run, s);
  }

  /** No lost wakeup: while `lk` is free, a process that is SLEEPING on the lock sleeps because it is held. */
  lemma NoLostWakeup(pids: seq<int>, run: seq<Action>, s: State, p: nat)
    requires Run(false, Init(pids), run, s)
    requires s.lk.None? && p < |s.pcs| && (s.pcs[p].Asleep? || s.pcs[p].SleepSched?)
    ensures s.locked && exists q :: 0 <= q < |s.pcs| && Owns(s.pcs[q])
  {
    RunKeepsInv(Init(pids), run, s);
    assert Sleeper(s.pcs[p]);
  }

  /** `holdingsleep`, as computed under `lk`. */
  predicate HoldingSleep(s: State, p: nat) {
    p < |s.pids| && s.locked && s.owner == s.pids[p]
  }

  /** With distinct pids, `holdingsleep` answers whether the caller owns the lock. */
  lemma HoldingSleepIsOwnership(pids: seq<int>, run: seq<Action>, s: State, p: nat)
    requires Run(false, Init(pids), run, s) && p < |s.pcs|
    requires forall i, j | 0 <= i < j < |s.pids| :: s.pids[i] != s.pids[j]
    ensures HoldingSleep(s, p) <==> Owns(s.pcs[p])
  {
    RunKeepsInv(Init(pids), run, s);
    if HoldingSleep(s, p) {
      var q :| 0 <= q < |s.pcs| && Owns(s.pcs[q]);
      assert s.pids[q] == s.pids[p];
    }
  }

  // ----- why the order of the two locks matters

  /** A state that the early-release variant reaches with two processes. */
  ghost predicate Reached(s: State) {
    exists run :: Run(true, Init([1, 2]), run, s)
  }

  lemma {:induction false} RunAppend(early: bool, s: State, run: seq<Action>, m: State, a: Action)
    requires Run(early, s, run, m) && Step(early, m, a).Some?
    ensures Run(early, s, run + [a], Step(early, m, a).value)
    decreases |run|
  {
    if run == [] {
      assert run + [a] == [a];
    } else {
      RunAppend(early, Step(early, s, run[0]).value, run[1..], m, a);
      assert (run + [a])[1..] == run[1..] + [a];
    }
  }

  lemma Go(s: State, a: Action, t: State)
    requires Reached(s) && Step(true, s, a).Some? && |s.pcs| == |t.pcs| == 2
    requires var n := Step(true, s, a).value;
             n.(pcs := t.pcs) == t && |n.pcs| == 2 && n.pcs[0] == t.pcs[0] && n.pcs[1] == t.pcs[1]
    ensures Reached(t)
  {
    assert Step(true, s, a).value.pcs == t.pcs;
    var run :| Run(true, Init([1, 2]), run, s);
    RunAppend(true, Init([1, 2]), run, s, a);
  }

  function Two(locked: bool, owner: int, lk: Option<int>, pt: Option<int>, pc0: Pc, pc1: Pc): State {
    State(locked, owner, lk, pt, [pc0, pc1], [1, 2])
  }

  lemma LosingRunWants()
    ensures Reached(Two(false, 0, None, None, WantLk, Idle))
  {
    assert Init([1, 2]) == Two(false, 0, None, None, Idle, Idle);
    assert Run(true, Init([1, 2]), [], Init([1, 2]));
    Go(Two(false, 0, None, None, Idle, Idle), Move(0), Two(false, 0, None, None, WantLk, Idle));
  }

  /** Process 0 takes the lock. */
  lemma LosingRunStarts()
    ensures Reached(Two(true, 1, None, None, Holding, Idle))
  {
    LosingRunWants();
    Go(Two(false, 0, None, None, WantLk, Idle), Move(0), Two(false, 0, Some(0), None, Testing, Idle));
    Go(Two(false, 0, Some(0), None, Testing, Idle), Move(0), Two(true, 1, None, None, Holding, Idle));
  }

  /** Then process 1 finds it taken and lets go of `lk`. */
  lemma LosingRunSleeps()
    ensures Reached(Two(true, 1, None, None, Holding, Gap))
  {
    LosingRunTests();
    Go(Two(true, 1, Some(1), None, Holding, Testing), Move(1), Two(true, 1, Some(1), None, Holding, SleepWantPt));
    Go(Two(true, 1, Some(1), None, Holding, SleepWantPt), Move(1), Two(true, 1, None, None, Holding, Gap));
  }

  lemma LosingRunTests()
    ensures Reached(Two(true, 1, Some(1), None, Holding, Testing))
  {
    LosingRunStarts();
    Go(Two(true, 1, None, None, Holding, Idle), Move(1), Two(true, 1, None, None, Holding, WantLk));
    Go(Two(true, 1, None, None, Holding, WantLk), Move(1), Two(true, 1, Some(1), None, Holding, Testing));
  }

  /** Process 0 clears the lock and is about to wake the sleepers. */
  lemma LosingRunClears()
    ensures Reached(Two(false, 0, Some(0), Some(0), RelWake, Gap))
  {
    LosingRunUnlocks();
    Go(Two(true, 1, Some(0), None, RelClear, Gap), Move(0), Two(false, 0, Some(0), None, RelWantPt, Gap));
    Go(Two(false, 0, Some(0), None, RelWantPt, Gap), Move(0), Two(false, 0, Some(0), Some(0), RelWake, Gap));
  }

  lemma LosingRunUnlocks()
    ensures Reached(Two(true, 1, Some(0), None, RelClear, Gap))
  {
    LosingRunSleeps();
    Go(Two(true, 1, None, None, Holding, Gap), Move(0), Two(true, 1, None, None, RelWantLk, Gap));
    Go(Two(true, 1, None, None, RelWantLk, Gap), Move(0), Two(true, 1, Some(0), None, RelClear, Gap));
  }

  /** It finds nobody asleep and finishes its release. */
  lemma LosingRunWakes()
    ensures Reached(Two(false, 0, Some(0), Some(0), RelDropPt, Gap))
  {
    LosingRunClears();
    Go(Two(false, 0, Some(0), Some(0), RelWake, Gap), Move(0), Two(false, 0, Some(0), Some(0), RelDropPt, Gap));
  }

  lemma LosingRunReleases()
    ensures Reached(Two(false, 0, None, None, Idle, Gap))
  {
    LosingRunWakes();
    Go(Two(false, 0, Some(0), Some(0), RelDropPt, Gap), Move(0), Two(false, 0, Some(0), None, RelDropLk, Gap));
    Go(Two(false, 0, Some(0), None, RelDropLk, Gap), Move(0), Two(false, 0, None, None, Idle, Gap));
  }

  lemma LosingRunMarks()
    ensures Reached(Two(false, 0, None, Some(1), Idle, SleepMark))
  {
    LosingRunReleases();
    Go(Two(false, 0, None, None, Idle, Gap), Move(1), Two(false, 0, None, Some(1), Idle, SleepMark));
  }

  /**
   If `sleep` released `lk` before taking `ptable.lock`, a wakeup could get lost: a run ends
   with both spinlocks free, the lock not held, and process 1 asleep with nobody to wake it.
   */
  lemma EarlyReleaseLosesWakeup()
    ensures Reached(Two(false, 0, None, None, Idle, Asleep))
  {
    LosingRunMarks();
    Go(Two(false, 0, None, Some(1), Idle, SleepMark), Move(1), Two(false, 0, None, Some(1), Idle, SleepSched));
    Go(Two(false, 0, None, Some(1), Idle, SleepSched), Move(1), Two(false, 0, None, None, Idle, Asleep));
  }
}
