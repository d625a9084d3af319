/** proc.c: the scans of the process table, each made while ptable.lock is held, shown to do what the
    steps of ProcTable say. */
module ProcScans {
  import opened Blocks
  import opened ProcTable

  /** A process on the way through exit's loop: with init's sleepers woken, and with its parent changed. */
  function Half(x: Proc, p: nat, init: nat, moved: bool, woke: bool): Proc {
    var y := if woke && x.state.SLEEPING? && x.chan == OnProc(init) then x.(state := RUNNABLE) else x;
    if moved && y.parent == Some(p) then y.(parent := Some(init)) else y
  }

  /** Waking changes no zombie and no parent. */
  lemma {:induction false} WokenZombies(procs: seq<Proc>, ch: Chan, p: nat, k: nat)
    requires k <= |procs|
    ensures FirstZombie(Woken(procs, ch), p, k) == FirstZombie(procs, p, k)
    decreases |procs| - k
  {
    if k < |procs| {
      WokenZombies(procs, ch, p, k + 1);
    }
  }

  /** The scan finds the first zombie child, if it has passed it. */
  lemma FirstZombieBy(procs: seq<Proc>, p: nat, k: nat)
    requires k < |procs|
    ensures FirstZombie(procs, p, 0) < k + 1 <==> FirstZombie(procs, p, 0) < k || ZombieChild(procs, p, k)
  {
    var f := FirstZombie(procs, p, 0);
    assert f > k ==> !ZombieChild(procs, p, k);
  }

  lemma HalfIsReparented(w: seq<Proc>, u: seq<Proc>, p: nat, init: nat, woke: bool, i: nat)
    requires i < |w| == |u| && u == if woke then Woken(w, OnProc(init)) else w
    ensures Half(w[i], p, init, true, woke) == Reparented(u, p, init)[i]
  {
  }

  /** What the loop has made of the table when it is through. */
  lemma ExitDone(procs: seq<Proc>, p: nat, init: nat, q: nat, w: seq<Proc>, after: seq<Proc>)
    requires p < |procs| == |after| && procs[p].parent == Some(q) && w == Woken(procs, OnProc(q))
    requires forall i: nat | i < |after| :: after[i] == Half(w[i], p, init, true, FirstZombie(procs, p, 0) < |procs|)
    ensures after[p := after[p].(state := ZOMBIE)] == Exited(procs, p, init)
  {
    var woke := FirstZombie(procs, p, 0) < |procs|;
    var u := if woke then Woken(w, OnProc(init)) else w;
    hide Half, Woken, Reparented, FirstZombie;
    forall i: nat | i < |after| ensures after[i] == Reparented(u, p, init)[i] {
      HalfIsReparented(w, u, p, init, woke, i);
    }
    assert after == Reparented(u, p, init);
  }

  class Ptable {
    const proc: array<Proc>
    const initproc: nat
    var nextpid: int
    ghost var doing: seq<Doing>
    ghost var exited: set<int>
    ghost var reaped: set<int>

    ghost function Table(): State
      reads this, proc
    {
      State(proc[..], doing, initproc, nextpid, exited, reaped)
    }

    ghost predicate Valid()
      reads this, proc
    {
      Inv(Table())
    }

    /** userinit */
    constructor (n: nat)
      requires n > 0
      ensures Table() == Boot(n) && Valid() && fresh(proc)
      ensures proc.Length == n && proc[0] == Proc(RUNNABLE, 1, None, NoChan, false) && nextpid == 2 && initproc == 0
      ensures forall i | 1 <= i < n :: proc[i] == Proc(UNUSED, 0, None, NoChan, false)
    {
      proc := new Proc[n](i => if i == 0 then Proc(RUNNABLE, 1, None, NoChan, false) else EMPTY);
      initproc, nextpid, doing, exited, reaped := 0, 2, seq(n, i => Free), {}, {};
      new;
      assert proc[..] == Boot(n).procs;
      BootInv(n);
    }

    method Wakeup1(ch: Chan)
      modifies proc
      ensures proc[..] == Woken(old(proc[..]), ch)
    {
      ghost var before := proc[..];
      var i := 0;
      while i < proc.Length
        invariant 0 <= i <= proc.Length
        invariant forall j: nat | j < i :: proc[j] == Woken(before, ch)[j]
        invariant forall j: nat | i <= j < proc.Length :: proc[j] == before[j]
      {
        if proc[i].state.SLEEPING? && proc[i].chan == ch {
          proc[i] := proc[i].(state := RUNNABLE);
        }
        i := i + 1;
      }
    }

    /** allocproc, up to where it gives up the lock. */
    method Allocproc(p: nat) returns (np: nat, found: bool)
      requires Valid() && Enabled(Table(), Alloc(p))
      modifies proc, this`nextpid, this`doing
      ensures Valid() && Table() == Next(old(Table()), Alloc(p))
      ensures found <==> exists j: nat :: j < proc.Length && old(proc[j].state).UNUSED?
      ensures found ==> np < proc.Length && proc[np].state.EMBRYO? && proc[np].pid == old(nextpid)
    {
      ghost var s := Table();
      StepInv(s, Alloc(p));
      np, found := 0, false;
      while np < proc.Length
        invariant 0 <= np <= proc.Length && FirstUnused(proc[..], np) == FirstUnused(proc[..], 0)
        invariant forall j: nat | j < np :: !proc[j].state.UNUSED?
      {
        if proc[np].state.UNUSED? {
          found := true;
          ghost var before := proc[..];
          proc[np] := proc[np].(state := EMBRYO, pid := nextpid);
          assert proc[..] == before[np := before[np].(state := EMBRYO, pid := nextpid)];
          nextpid := nextpid + 1;
          doing := doing[p := Forking(np)];
          return;
        }
        np := np + 1;
      }
    }

    /** exit, from where it takes the lock. */
    method Exit(p: nat)
      requires Valid() && Enabled(Table(), Step.Exit(p))
      modifies proc, this`exited
      ensures old(proc[p].parent.Some?) && Valid() && Table() == Next(old(Table()), Step.Exit(p))
      ensures forall j: nat | j < proc.Length ::
              ExitAt(old(proc[..]), proc[..], p, old(proc[p].parent.value), initproc, j)
    {
      ghost var s, before := Table(), proc[..];
      StepInv(s, Step.Exit(p));
      var q := proc[p].parent.value;
      Wakeup1(OnProc(q));
      ghost var w := proc[..];
      assert w == Woken(before, OnProc(q));
      WokenZombies(before, OnProc(q), p, 0);
      hide Woken, Inv, FirstZombie;
      var k := 0;
      while k < proc.Length
        invariant 0 <= k <= proc.Length && exited == s.exited
        invariant forall i: nat | i < proc.Length :: proc[i] == Half(w[i], p, initproc, i < k, FirstZombie(w, p, 0) < k)
      {
        FirstZombieBy(w, p, k);
        ReparentAt(p, k, w);
        k := k + 1;
      }
      ExitDone(before, p, initproc, q, w, proc[..]);
      ghost var after := proc[..];
      proc[p] := proc[p].(state := ZOMBIE);
      assert proc[..] == after[p := after[p].(state := ZOMBIE)];
      exited := exited + {before[p].pid};
      hide Exited;
      forall j: nat | j < proc.Length ensures ExitAt(before, proc[..], p, q, initproc, j) {
        ExitedIs(before, p, initproc, j);
      }
    }

    /** One round of exit's loop. */
    method ReparentAt(p: nat, k: nat, ghost w: seq<Proc>)
      requires k < proc.Length == |w| && p < |w|
      requires forall i: nat | i < proc.Length :: proc[i] == Half(w[i], p, initproc, i < k, FirstZombie(w, p, 0) < k)
      requires FirstZombie(w, p, 0) < k + 1 <==> FirstZombie(w, p, 0) < k || ZombieChild(w, p, k)
      modifies proc
      ensures forall i: nat | i < proc.Length ::
              proc[i] == Half(w[i], p, initproc, i < k + 1, FirstZombie(w, p, 0) < k + 1)
    {
      hide FirstZombie;
      if proc[k].parent == Some(p) {
        proc[k] := proc[k].(parent := Some(initproc));
        if proc[k].state.ZOMBIE? {
          ghost var before := proc[..];
          Wakeup1(OnProc(initproc));
          assert forall i: nat | i < proc.Length :: proc[i] == Woken(before, OnProc(initproc))[i];
        }
      }
    }

    /** kill */
    method Kill(pid: int) returns (r: int)
      requires Valid()
      modifies proc
      ensures Valid() && Table() == Next(old(Table()), Step.Kill(pid))
      ensures r == if exists j: nat :: j < proc.Length && old(proc[j].pid) == pid then 0 else -1
      ensures r == -1 ==> proc[..] == old(proc[..])
      ensures r == 0 ==> exists j: nat ::
                j < proc.Length && old(proc[j].pid) == pid && (forall k: nat | k < j :: old(proc[k].pid) != pid)
                && proc[..] == old(proc[..])[j := proc[j]] && proc[j].killed
                && proc[j].state == (if old(proc[j].state.SLEEPING?) then RUNNABLE else old(proc[j].state))
    {
      ghost var s := Table();
      StepInv(s, Step.Kill(pid));
      hide Inv;
      var i := 0;
      while i < proc.Length
        invariant 0 <= i <= proc.Length && proc[..] == s.procs && FirstPid(s.procs, pid, i) == FirstPid(s.procs, pid, 0)
        invariant forall j: nat | j < i :: s.procs[j].pid != pid
      {
        if proc[i].pid == pid {
          proc[i] := proc[i].(killed := true);
          if proc[i].state.SLEEPING? {
            proc[i] := proc[i].(state := RUNNABLE);
          }
          assert proc[..] == s.procs[i := Marked(s.procs[i])];
          return 0;
        }
        i := i + 1;
      }
      r := -1;
    }

    /** wait, from the moment it holds the lock to the moment it returns or sleeps: the pid of a zombie
        child, which is reaped, or -1 without children or when killed, or asleep. */
    method Wait(p: nat) returns (r: int, asleep: bool)
      requires Valid() && Enabled(Table(), Step.Wait(p))
      modifies proc, this`doing, this`reaped
      ensures Valid() && Table() == Next(old(Table()), Step.Wait(p))
      ensures asleep <==> proc[p].state.SLEEPING?
      ensures !asleep && r != -1 ==> r in old(exited) && r !in old(reaped) && reaped == old(reaped) + {r}
      ensures !asleep && r == -1 ==> reaped == old(reaped)
      ensures asleep <==> NoZombieChild(old(Table()), p) && !Childless(old(Table()), p) && !old(proc[p].killed)
      ensures !asleep && r == -1 <==>
              NoZombieChild(old(Table()), p) && (Childless(old(Table()), p) || old(proc[p].killed))
      ensures !asleep && r != -1 ==> exists c: nat ::
                && FirstDead(old(Table()), p, c) && old(proc[c].pid) == r
                && proc[c] == Proc(UNUSED, 0, None, NoChan, false)
    {
      hide Inv, SlotInv, NoZombieChild, Childless, FirstDead;
      ghost var s := Table();
      StepInv(s, Step.Wait(p));
      NotOwnParent(s, p);
      ScanIs(s, p);
      asleep := false;
      proc[p] := proc[p].(state := RUNNING, chan := NoChan);
      ghost var procs := proc[..];
      assert procs == s.procs[p := s.procs[p].(state := RUNNING, chan := NoChan)];
      var havekids, i := false, 0;
      while i < proc.Length
        invariant 0 <= i <= proc.Length && proc[..] == procs
        invariant FirstZombie(procs, p, i) == FirstZombie(procs, p, 0)
        invariant havekids <==> exists j: nat :: j < i && procs[j].parent == Some(p)
      {
        if proc[i].parent == Some(p) {
          havekids := true;
          if proc[i].state.ZOMBIE? {
            r := proc[i].pid;
            assert ZombieChild(procs, p, i) && Scan(procs, p) == Reaped(i);
            ReapsFresh(s, Step.Wait(p), r);
            PidPositive(s, r);
            assert proc[p].state.RUNNING? && i != p;
            proc[i] := EMPTY;
            assert proc[..] == procs[i := EMPTY];
            doing := doing[p := Free];
            reaped := reaped + {r};
            return;
          }
        }
        i := i + 1;
      }
      assert havekids <==> HasKids(procs, p);
      if !havekids || proc[p].killed {
        doing := doing[p := Free];
        r := -1;
        return;
      }
      proc[p] := proc[p].(chan := OnProc(p), state := SLEEPING);
      assert proc[..] == procs[p := procs[p].(state := SLEEPING, chan := OnProc(p))];
      doing := doing[p := Waiting];
      r, asleep := 0, true;
    }
  }

  lemma NotOwnParent(s: State, p: nat)
    requires Inv(s) && p < |s.procs|
    ensures s.procs[p].parent != Some(p)
  {
    assert SlotInv(s, p);
  }

  lemma PidPositive(s: State, pid: int)
    requires Inv(s) && pid in s.exited
    ensures pid > 0
  {
  }
}
