/**
 The scanning loops of `xv6/proc.c`, run with `ptable.lock` held.  Each is shown to compute
 the table update that the corresponding step of the ProcessTable machine uses.
 */
module ProcCode {
  import opened Common
  import opened ProcessTable
  import ProcessLife

  datatype WaitResult = Collected(pid: int, slot: nat) | Nothing | MustSleep

  /** Some child of `cur` among the first `n` slots is a zombie. */
  ghost predicate ZombieBefore(procs: seq<Proc>, cur: nat, n: nat) {
    exists q :: 0 <= q < n && ChildOf(procs, q, cur) && procs[q].state == ZOMBIE
  }

  /** A slot in the middle of `exit`'s loop, with the first `n` slots done. */
  ghost function MovedSlot(procs: seq<Proc>, cur: nat, init: nat, n: nat, i: nat): Proc
    requires i < |procs|
  {
    var x := if i < n && procs[i].parent == Some(cur) then procs[i].(parent := Some(init)) else procs[i];
    if ZombieBefore(procs, cur, n) then Wake(x, ProcChan(init)) else x
  }

  ghost predicate Moved(procs: seq<Proc>, cur: nat, init: nat, n: nat, procs': seq<Proc>) {
    |procs'| == |procs| && forall i | 0 <= i < |procs| :: procs'[i] == MovedSlot(procs, cur, init, n, i)
  }

  lemma MovedNext(procs: seq<Proc>, cur: nat, init: nat, n: nat, procs': seq<Proc>)
    requires n < |procs| && Moved(procs, cur, init, n, procs')
    ensures var p := procs'[n];
            Moved(procs, cur, init, n + 1,
                  if p.parent != Some(cur) then procs'
                  else if p.state == ZOMBIE then Wakeup1(procs'[n := p.(parent := Some(init))], ProcChan(init))
                  else procs'[n := p.(parent := Some(init))])
  {
    assert procs'[n] == MovedSlot(procs, cur, init, n, n);
    assert procs'[n].parent == procs[n].parent && (procs'[n].state == ZOMBIE <==> procs[n].state == ZOMBIE);
    if procs[n].parent == Some(cur) && procs[n].state == ZOMBIE {
      assert ChildOf(procs, n, cur);
      assert ZombieBefore(procs, cur, n + 1);
    } else {
      ZombieBeforeNext(procs, cur, n);
    }
  }

  lemma ZombieBeforeNext(procs: seq<Proc>, cur: nat, n: nat)
    requires n < |procs| && !(procs[n].parent == Some(cur) && procs[n].state == ZOMBIE)
    ensures ZombieBefore(procs, cur, n + 1) <==> ZombieBefore(procs, cur, n)
  {
    if ZombieBefore(procs, cur, n + 1) {
      var q :| 0 <= q < n + 1 && ChildOf(procs, q, cur) && procs[q].state == ZOMBIE;
      assert q != n;
    }
  }

  lemma MovedAll(procs: seq<Proc>, cur: nat, init: nat, procs': seq<Proc>)
    requires Moved(procs, cur, init, |procs|, procs')
    ensures procs' == Reparent(procs, cur, init)
  {
    assert ZombieBefore(procs, cur, |procs|) <==> HasZombie(procs, cur);
    forall i | 0 <= i < |procs| ensures procs'[i] == Reparent(procs, cur, init)[i] {
      assert procs'[i] == MovedSlot(procs, cur, init, |procs|, i);
    }
  }

  /** `exit` of `cur` wakes the sleepers on this channel. */
  ghost predicate ExitWakes(procs: seq<Proc>, cur: nat, init: nat, chan: Chan)
    requires cur < |procs|
  {
    || (procs[cur].parent.Some? && chan == ProcChan(procs[cur].parent.value))
    || (HasZombie(procs, cur) && chan == ProcChan(init))
  }

  /** Slot `i` after `exit` of `cur`. */
  ghost predicate ExitedSlot(procs: seq<Proc>, cur: nat, init: nat, i: nat, x: Proc)
    requires cur < |procs| && i < |procs|
  {
    && x == procs[i].(state := x.state, parent := x.parent)
    && x.parent == (if procs[i].parent == Some(cur) then Some(init) else procs[i].parent)
    && (i == cur ==> x.state == ZOMBIE)
    && (i != cur ==>
          x.state == if procs[i].state == SLEEPING && ExitWakes(procs, cur, init, procs[i].chan) then RUNNABLE
                     else procs[i].state)
  }

  class Ptable {
    var procs: seq<Proc>
    var nextpid: int
    const init: nat

    constructor (n: nat, init: nat)
      ensures |procs| == n && nextpid == 1 && this.init == init
      ensures forall i | 0 <= i < n ::
                procs[i] == Proc(UNUSED, 0, None, NoChan, false, false, false, Plain, None)
    {
      procs := seq(n, _ => Proc(UNUSED, 0, None, NoChan, false, false, false, Plain, None));
      nextpid, this.init := 1, init;
    }

    /** `wakeup1`: make everybody who sleeps on `chan` runnable, and nobody else. */
    method WakeupChannel(chan: Chan)
      modifies this`procs
      ensures procs == Wakeup1(old(procs), chan)
      ensures forall i | 0 <= i < |procs| :: !(procs[i].state == SLEEPING && procs[i].chan == chan)
      ensures forall i | 0 <= i < |procs| ::
                procs[i] == old(procs)[i] ||
                (old(procs)[i].state == SLEEPING && old(procs)[i].chan == chan &&
                 procs[i] == old(procs)[i].(state := RUNNABLE))
    {
      var p := 0;
      while p < |procs|
        invariant 0 <= p <= |procs| == |old(procs)|
        invariant forall i | 0 <= i < p :: procs[i] == Wake(old(procs)[i], chan)
        invariant forall i | p <= i < |procs| :: procs[i] == old(procs)[i]
      {
        if procs[p].state == SLEEPING && procs[p].chan == chan {
          procs := procs[p := procs[p].(state := RUNNABLE)];
        }
        p := p + 1;
      }
    }

    /** `allocproc` up to its release: the first unused slot becomes an EMBRYO with a new pid. */
    method AllocProc() returns (r: Option<nat>)
      modifies this`procs, this`nextpid
      ensures r.None? <==> forall i | 0 <= i < |old(procs)| :: old(procs)[i].state != UNUSED
      ensures r.None? ==> procs == old(procs) && nextpid == old(nextpid)
      ensures r.Some? ==>
                && r.value < |old(procs)| && old(procs)[r.value].state == UNUSED
                && (forall i | 0 <= i < r.value :: old(procs)[i].state != UNUSED)
                && procs == old(procs)[r.value := old(procs)[r.value].(state := EMBRYO, pid := old(nextpid))]
                && nextpid == old(nextpid) + 1
    {
      var p := 0;
      while p < |procs|
        invariant 0 <= p <= |procs|
        invariant forall i | 0 <= i < p :: procs[i].state != UNUSED
      {
        if procs[p].state == UNUSED {
          procs := procs[p := procs[p].(state := EMBRYO, pid := nextpid)];
          nextpid := nextpid + 1;
          return Some(p);
        }
        p := p + 1;
      }
      r := None;
    }

    /**
     `exit` between acquire and `sched`: the caller becomes a zombie, its children become those of init, and exactly
     its parent, and init if it gets a zombie, are woken from `wait`.
     */
    method Exit(cur: nat)
      requires cur < |procs|
      modifies this`procs
      ensures procs == ExitTable(old(procs), cur, init) && procs[cur].state == ZOMBIE
      ensures forall i | 0 <= i < |procs| ::
                procs[i] == old(procs)[i].(state := procs[i].state, parent := procs[i].parent)
      ensures forall i | 0 <= i < |procs| ::
                procs[i].parent == if old(procs)[i].parent == Some(cur) then Some(init) else old(procs)[i].parent
      ensures forall i | 0 <= i < |procs| && i != cur ::
                procs[i].state ==
                if old(procs)[i].state == SLEEPING && ExitWakes(old(procs), cur, init, old(procs)[i].chan) then RUNNABLE
                else old(procs)[i].state
    {
      if procs[cur].parent.Some? {
        WakeupChannel(ProcChan(procs[cur].parent.value));
      }
      ghost var woken := procs;
      var p := 0;
      assert !ZombieBefore(woken, cur, 0);
      while p < |procs|
        invariant 0 <= p <= |procs| == |woken|
        invariant Moved(woken, cur, init, p, procs)
      {
        MovedNext(woken, cur, init, p, procs);
        if procs[p].parent == Some(cur) {
          var zombie := procs[p].state == ZOMBIE;
          procs := procs[p := procs[p].(parent := Some(init))];
          if zombie {
            WakeupChannel(ProcChan(init));
          }
        }
        p := p + 1;
      }
      MovedAll(woken, cur, init, procs);
      procs := procs[cur := procs[cur].(state := ZOMBIE)];
      forall i | 0 <= i < |procs| ensures ExitedSlot(old(procs), cur, init, i, procs[i]) {
        ProcessLife.ExitFields(old(procs), cur, init, i);
      }
    }

    /** One pass of the loop in `wait`: collect the first zombie child, give up, or go to sleep. */
    method WaitScan(cur: nat) returns (r: WaitResult)
      requires cur < |procs|
      modifies this`procs
      ensures r.Collected? <==> HasZombie(old(procs), cur)
      ensures r.Collected? ==>
                && r.slot < |old(procs)| && ChildOf(old(procs), r.slot, cur) && old(procs)[r.slot].state == ZOMBIE
                && (forall q | 0 <= q < r.slot :: !(ChildOf(old(procs), q, cur) && old(procs)[q].state == ZOMBIE))
                && r.pid == old(procs)[r.slot].pid
                && procs == old(procs)[r.slot := Reaped(old(procs)[r.slot])]
                && procs[r.slot].state == UNUSED && procs[r.slot].pid == 0 && procs[r.slot].parent == None
                && !procs[r.slot].killed && !procs[r.slot].kstack && !procs[r.slot].pgdir
      ensures !r.Collected? ==> procs == old(procs)
      ensures !r.Collected? ==> (r.Nothing? <==> !HasKids(old(procs), cur) || old(procs)[cur].killed)
    {
      var havekids := false;
      var p := 0;
      while p < |procs|
        invariant 0 <= p <= |procs|
        invariant forall q | 0 <= q < p :: !(ChildOf(procs, q, cur) && procs[q].state == ZOMBIE)
        invariant havekids <==> exists q :: 0 <= q < p && ChildOf(procs, q, cur)
      {
        if procs[p].parent == Some(cur) {
          assert ChildOf(procs, p, cur);
          havekids := true;
          if procs[p].state == ZOMBIE {
            r := Collected(procs[p].pid, p);
            procs := procs[p := Reaped(procs[p])];
            return;
          }
        }
        p := p + 1;
      }
      r := if !havekids || procs[cur].killed then Nothing else MustSleep;
    }

    /** `kill`: the first slot with this pid is marked, and woken if it sleeps. */
    method Kill(pid: int) returns (found: bool)
      modifies this`procs
      ensures found <==> exists i :: 0 <= i < |old(procs)| && old(procs)[i].pid == pid
      ensures !found ==> procs == old(procs)
      ensures found ==> exists i :: 0 <= i < |old(procs)| && old(procs)[i].pid == pid
                          && (forall j | 0 <= j < i :: old(procs)[j].pid != pid)
                          && procs == old(procs)[i := Killed(old(procs)[i])] && procs[i].killed
                          && procs[i].state ==
                             (if old(procs)[i].state == SLEEPING then RUNNABLE else old(procs)[i].state)
    {
      var p := 0;
      while p < |procs|
        invariant 0 <= p <= |procs|
        invariant forall j | 0 <= j < p :: procs[j].pid != pid
      {
        if procs[p].pid == pid {
          procs := procs[p := procs[p].(killed := true)];
          if procs[p].state == SLEEPING {
            procs := procs[p := procs[p].(state := RUNNABLE)];
          }
          return true;
        }
        p := p + 1;
      }
      found := false;
    }

    /** The scheduler's loop from slot `from`: the next RUNNABLE slot becomes RUNNING. */
    method PickNext(from: nat) returns (r: Option<nat>)
      requires from <= |procs|
      modifies this`procs
      ensures r.None? <==> forall i | from <= i < |old(procs)| :: old(procs)[i].state != RUNNABLE
      ensures r.None? ==> procs == old(procs)
      ensures r.Some? ==>
                && from <= r.value < |old(procs)| && old(procs)[r.value].state == RUNNABLE
                && (forall i | from <= i < r.value :: old(procs)[i].state != RUNNABLE)
                && procs == old(procs)[r.value := old(procs)[r.value].(state := RUNNING)]
    {
      var p := from;
      while p < |procs|
        invariant from <= p <= |procs|
        invariant forall i | from <= i < p :: procs[i].state != RUNNABLE
      {
        if procs[p].state == RUNNABLE {
          procs := procs[p := procs[p].(state := RUNNING)];
          return Some(p);
        }
        p := p + 1;
      }
      r := None;
    }
  }
}
