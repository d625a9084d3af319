/** proc.c at the granularity of ptable.lock: what fork, exit, wait, kill, sleep and wakeup do to the
    process table while they hold the lock, in any order, and what fork does without it. */
module ProcTable {
  import opened Blocks

  datatype ProcState = UNUSED | EMBRYO | SLEEPING | RUNNABLE | RUNNING | ZOMBIE

  /** What a process sleeps on: the process whose wait it is in, or anything else. */
  datatype Chan = NoChan | OnProc(i: nat) | Other(c: int)

  datatype Proc = Proc(state: ProcState, pid: int, parent: Option<nat>, chan: Chan, killed: bool)

  /** Where a process is between two of its steps: in the middle of fork with a new slot, asleep in
      wait, or at neither. */
  datatype Doing = Free | Forking(np: nat) | Waiting

  /** The table, with the pids that have exited and those that have been reaped. */
  datatype State = State(procs: seq<Proc>, doing: seq<Doing>, init: nat, nextpid: int, exited: set<int>,
    reaped: set<int>)

  datatype Step =
    | Alloc(p: nat)
    | ForkFails(p: nat)
    | SetParent(p: nat)
    | ForkDone(p: nat)
    | Exit(p: nat)
    | Wait(p: nat)
    | Kill(pid: int)
    | Sleep(p: nat, c: int)
    | Wakeup(c: int)
    | Run(p: nat)
    | Yield(p: nat)
    | Trap(p: nat)

  predicate Live(st: ProcState) {
    st.SLEEPING? || st.RUNNABLE? || st.RUNNING?
  }

  /** The first slot from k on whose process satisfies `what`; the number of slots if there is none. */
  function FirstUnused(procs: seq<Proc>, k: nat): (r: nat)
    requires k <= |procs|
    ensures k <= r <= |procs| && (r < |procs| ==> procs[r].state.UNUSED?) &&
            forall j | k <= j < r :: !procs[j].state.UNUSED?
    decreases |procs| - k
  {
    if k == |procs| || procs[k].state.UNUSED? then k else FirstUnused(procs, k + 1)
  }

  function FirstPid(procs: seq<Proc>, pid: int, k: nat): (r: nat)
    requires k <= |procs|
    ensures k <= r <= |procs| && (r < |procs| ==> procs[r].pid == pid) && forall j | k <= j < r :: procs[j].pid != pid
    decreases |procs| - k
  {
    if k == |procs| || procs[k].pid == pid then k else FirstPid(procs, pid, k + 1)
  }

  predicate ZombieChild(procs: seq<Proc>, p: nat, c: nat)
    requires c < |procs|
  {
    procs[c].parent == Some(p) && procs[c].state.ZOMBIE?
  }

  function FirstZombie(procs: seq<Proc>, p: nat, k: nat): (r: nat)
    requires k <= |procs|
    ensures k <= r <= |procs| && (r < |procs| ==> ZombieChild(procs, p, r)) &&
            forall j: nat | k <= j < r :: !ZombieChild(procs, p, j)
    decreases |procs| - k
  {
    if k == |procs| || ZombieChild(procs, p, k) then k else FirstZombie(procs, p, k + 1)
  }

  predicate HasKids(procs: seq<Proc>, p: nat) {
    exists c: nat :: c < |procs| && procs[c].parent == Some(p)
  }

  /** wakeup1 */
  function Woken(procs: seq<Proc>, ch: Chan): (r: seq<Proc>)
    ensures |r| == |procs|
    ensures forall i: nat | i < |r| :: r[i] == if procs[i].state.SLEEPING? && procs[i].chan == ch then
            procs[i].(state := RUNNABLE) else procs[i]
  {
    seq(|procs|, i requires 0 <= i < |procs| =>
      if procs[i].state.SLEEPING? && procs[i].chan == ch then procs[i].(state := RUNNABLE) else procs[i])
  }

  /** exit's loop passes the children of p to init. */
  function Reparented(procs: seq<Proc>, p: nat, init: nat): (r: seq<Proc>)
    ensures |r| == |procs|
    ensures forall i: nat | i < |r| :: r[i] == if procs[i].parent == Some(p) then procs[i].(parent := Some(init))
            else procs[i]
  {
    seq(|procs|, i requires 0 <= i < |procs| => if procs[i].parent == Some(p) then procs[i].(parent := Some(init))
      else procs[i])
  }

  /** exit: the parent is woken, the children go to init, which is woken if one of them is a zombie. */
  function Exited(procs: seq<Proc>, p: nat, init: nat): (r: seq<Proc>)
    requires p < |procs| && procs[p].parent.Some?
    ensures |r| == |procs|
  {
    var w := Woken(procs, OnProc(procs[p].parent.value));
    var v := Reparented(if FirstZombie(procs, p, 0) < |procs| then Woken(w, OnProc(init)) else w, p, init);
    v[p := v[p].(state := ZOMBIE)]
  }

  datatype WaitResult = Reaped(c: nat) | Minus1 | Sleeps

  /** What one scan of wait comes to. */
  function Scan(procs: seq<Proc>, p: nat): WaitResult
    requires p < |procs|
  {
    var c := FirstZombie(procs, p, 0);
    if c < |procs| then Reaped(c) else if !HasKids(procs, p) || procs[p].killed then Minus1 else Sleeps
  }

  /** A reaped slot. */
  const EMPTY: Proc := Proc(UNUSED, 0, None, NoChan, false)

  predicate At(s: State, p: nat, st: ProcState, d: Doing) {
    p < |s.procs| == |s.doing| && s.procs[p].state == st && s.doing[p] == d
  }

  predicate Enabled(s: State, step: Step) {
    match step
    case Alloc(p) => At(s, p, RUNNING, Free)
    case ForkFails(p) => p < |s.procs| == |s.doing| && s.procs[p].state.RUNNING? && s.doing[p].Forking? &&
      s.doing[p].np < |s.procs| && s.procs[s.doing[p].np].parent.None?
    case SetParent(p) => p < |s.procs| == |s.doing| && s.procs[p].state.RUNNING? && s.doing[p].Forking? &&
      s.doing[p].np < |s.procs| && s.procs[s.doing[p].np].parent.None?
    case ForkDone(p) => p < |s.procs| == |s.doing| && s.procs[p].state.RUNNING? && s.doing[p].Forking? &&
      s.doing[p].np < |s.procs| && s.procs[s.doing[p].np].parent.Some?
    case Exit(p) => At(s, p, RUNNING, Free) && p != s.init
    case Wait(p) => At(s, p, RUNNING, Free) || At(s, p, RUNNABLE, Waiting)
    case Kill(pid) => true
    case Sleep(p, c) => p < |s.procs| == |s.doing| && s.procs[p].state.RUNNING?
    case Wakeup(c) => true
    case Run(p) => p < |s.procs| == |s.doing| && s.procs[p].state.RUNNABLE? && !s.doing[p].Waiting?
    case Yield(p) => p < |s.procs| == |s.doing| && s.procs[p].state.RUNNING?
    case Trap(p) => p < |s.procs| == |s.doing| && s.procs[p].state.RUNNING?
  }

  /** allocproc's critical section; a full table leaves everything as it is. The killed flag of the
      slot is not reset. */
  function DoAlloc(s: State, p: nat): State
    requires Enabled(s, Alloc(p))
  {
    var np := FirstUnused(s.procs, 0);
    if np == |s.procs| then s
    else s.(procs := s.procs[np := s.procs[np].(state := EMBRYO, pid := s.nextpid)],
      doing := s.doing[p := Forking(np)], nextpid := s.nextpid + 1)
  }

  function DoExit(s: State, p: nat): State
    requires Enabled(s, Exit(p)) && s.procs[p].parent.Some?
  {
    s.(procs := Exited(s.procs, p, s.init), exited := s.exited + {s.procs[p].pid})
  }

  /** wait, from the moment it holds ptable.lock to the moment it gives it up. */
  function DoWait(s: State, p: nat): State
    requires Enabled(s, Wait(p))
  {
    var procs := s.procs[p := s.procs[p].(state := RUNNING, chan := NoChan)];
    match Scan(procs, p)
    case Reaped(c) => s.(procs := procs[c := EMPTY], doing := s.doing[p := Free], reaped := s.reaped + {procs[c].pid})
    case Minus1 => s.(procs := procs, doing := s.doing[p := Free])
    case Sleeps => s.(procs := procs[p := procs[p].(state := SLEEPING, chan := OnProc(p))],
      doing := s.doing[p := Waiting])
  }

  /** A process marked as killed, and awake. */
  function Marked(x: Proc): Proc {
    x.(killed := true, state := if x.state.SLEEPING? then RUNNABLE else x.state)
  }

  function DoKill(s: State, pid: int): State {
    var i := FirstPid(s.procs, pid, 0);
    if i == |s.procs| then s
    else s.(procs := s.procs[i := Marked(s.procs[i])])
  }

  function Next(s: State, step: Step): State
    requires Enabled(s, step) && (step.Exit? ==> s.procs[step.p].parent.Some?)
  {
    match step
    case Alloc(p) => DoAlloc(s, p)
    case ForkFails(p) => s.(procs := s.procs[s.doing[p].np := s.procs[s.doing[p].np].(state := UNUSED)],
      doing := s.doing[p := Free])
    case SetParent(p) => s.(procs := s.procs[s.doing[p].np := s.procs[s.doing[p].np].(parent := Some(p))])
    case ForkDone(p) => s.(procs := s.procs[s.doing[p].np := s.procs[s.doing[p].np].(state := RUNNABLE)],
      doing := s.doing[p := Free])
    case Exit(p) => DoExit(s, p)
    case Wait(p) => DoWait(s, p)
    case Kill(pid) => DoKill(s, pid)
    case Sleep(p, c) => s.(procs := s.procs[p := s.procs[p].(state := SLEEPING, chan := Other(c))])
    case Wakeup(c) => s.(procs := Woken(s.procs, Other(c)))
    case Run(p) => s.(procs := s.procs[p := s.procs[p].(state := RUNNING, chan := NoChan)])
    case Yield(p) => s.(procs := s.procs[p := s.procs[p].(state := RUNNABLE)])
    case Trap(p) => s.(procs := s.procs[p := s.procs[p].(killed := true)])
  }

  // ---- the invariant ----

  /** Every recorded parent is a process that lives, neither unused nor a zombie. */
  ghost predicate ParentOk(s: State, i: nat)
    requires i < |s.procs|
  {
    s.procs[i].parent.Some? ==> s.procs[i].parent.value < |s.procs| && Live(s.procs[s.procs[i].parent.value].state)
  }

  /** Who must have a parent, and who is in the middle of something. */
  ghost predicate SlotOk(s: State, i: nat)
    requires i < |s.procs| == |s.doing|
  {
    var x := s.procs[i];
    && (x.state.UNUSED? ==> x.parent.None?) && x.parent != Some(i)
    && (!Live(x.state) ==> s.doing[i].Free?)
    && (x.state.ZOMBIE? ==> i != s.init)
    && ((x.state.ZOMBIE? || Live(x.state)) && i != s.init ==> x.parent.Some?)
    && (i == s.init ==> Live(x.state) && x.parent.None?)
    && (x.state.EMBRYO? && x.parent.Some? ==> x.parent.value < |s.doing| && s.doing[x.parent.value] == Forking(i))
  }

  /** A fork in progress has an embryo of its own. */
  ghost predicate ForkOk(s: State, i: nat)
    requires i < |s.procs| == |s.doing|
  {
    s.doing[i].Forking? ==>
      && s.doing[i].np < |s.procs| && s.procs[s.doing[i].np].state.EMBRYO?
      && (s.procs[s.doing[i].np].parent.None? || s.procs[s.doing[i].np].parent == Some(i))
      && forall j: nat | j < |s.doing| && s.doing[j] == s.doing[i] :: j == i
  }

  /** Only wait sleeps on a process, and on the caller's own. */
  ghost predicate ChanOk(s: State, i: nat)
    requires i < |s.procs| == |s.doing|
  {
    var x := s.procs[i];
    && (x.state.SLEEPING? ==> (x.chan.OnProc? <==> s.doing[i].Waiting?) && (x.chan.OnProc? ==> x.chan.i == i))
    && (s.doing[i].Waiting? ==> x.state.SLEEPING? || x.state.RUNNABLE?)
  }

  /** No lost wakeup: a process asleep in wait has a child, no zombie child, and is not killed. */
  ghost predicate NoLostWakeup(s: State, i: nat)
    requires i < |s.procs| == |s.doing|
  {
    s.procs[i].state.SLEEPING? && s.doing[i].Waiting? ==>
      && !s.procs[i].killed && HasKids(s.procs, i)
      && forall c: nat | c < |s.procs| :: !ZombieChild(s.procs, i, c)
  }

  /** Pids in use are distinct and not yet reaped; those of zombies are the ones exited. */
  ghost predicate PidOk(s: State, i: nat)
    requires i < |s.procs|
  {
    !s.procs[i].state.UNUSED? ==>
      && 0 < s.procs[i].pid < s.nextpid && s.procs[i].pid !in s.reaped
      && (s.procs[i].pid in s.exited <==> s.procs[i].state.ZOMBIE?)
      && forall j: nat | j < |s.procs| && !s.procs[j].state.UNUSED? && s.procs[j].pid == s.procs[i].pid :: j == i
  }

  ghost predicate SlotInv(s: State, i: nat)
    requires i < |s.procs| == |s.doing|
  {
    ParentOk(s, i) && SlotOk(s, i) && ForkOk(s, i) && ChanOk(s, i) && NoLostWakeup(s, i) && PidOk(s, i)
  }

  ghost predicate Inv(s: State) {
    && |s.procs| == |s.doing| && s.init < |s.procs| && 0 < s.nextpid
    && s.reaped <= s.exited && (forall x | x in s.exited :: 0 < x < s.nextpid)
    && forall i: nat | i < |s.procs| :: SlotInv(s, i)
  }

  /** userinit's table. */
  function Boot(n: nat): State
    requires n > 0
  {
    State(seq(n, i => EMPTY)[0 := Proc(RUNNABLE, 1, None, NoChan, false)], seq(n, i => Free), 0, 2, {}, {})
  }

  lemma BootInv(n: nat)
    requires n > 0
    ensures Inv(Boot(n))
  {
  }

  // ---- every step keeps it ----

  /** A process that keeps its children and gains no zombie child. */
  ghost predicate KidsKept(procs: seq<Proc>, procs': seq<Proc>, i: nat) {
    && |procs| == |procs'|
    && (forall c: nat | c < |procs| && procs[c].parent == Some(i) :: procs'[c].parent == Some(i))
    && forall c: nat | c < |procs| && ZombieChild(procs', i, c) :: ZombieChild(procs, i, c)
  }

  lemma StillWaits(procs: seq<Proc>, procs': seq<Proc>, i: nat)
    requires KidsKept(procs, procs', i)
    ensures HasKids(procs, i) ==> HasKids(procs', i)
    ensures (forall c: nat | c < |procs| :: !ZombieChild(procs, i, c)) ==>
            forall c: nat | c < |procs| :: !ZombieChild(procs', i, c)
  {
    if HasKids(procs, i) {
      var c: nat :| c < |procs| && procs[c].parent == Some(i);
      assert procs'[c].parent == Some(i);
    }
  }

  /** A step after which parents and zombies are as before. */
  ghost predicate SameFamily(procs: seq<Proc>, procs': seq<Proc>) {
    |procs| == |procs'| &&
      forall c: nat | c < |procs| ::
        procs'[c].parent == procs[c].parent && (procs'[c].state.ZOMBIE? <==> procs[c].state.ZOMBIE?)
  }

  lemma SameFamilyKeeps(procs: seq<Proc>, procs': seq<Proc>, i: nat)
    requires SameFamily(procs, procs')
    ensures KidsKept(procs, procs', i)
  {
  }

  lemma SleepInv(s: State, p: nat, c: int)
    requires Inv(s) && Enabled(s, Sleep(p, c))
    ensures Inv(Next(s, Sleep(p, c)))
  {
    hide HasKids, ZombieChild, KidsKept;
    var s' := Next(s, Sleep(p, c));
    assert SlotInv(s, p);
    forall i: nat | i < |s'.procs| ensures SlotInv(s', i) {
      assert SlotInv(s, i);
      SameFamilyKeeps(s.procs, s'.procs, i);
      StillWaits(s.procs, s'.procs, i);
    }
  }

  lemma RunInv(s: State, p: nat)
    requires Inv(s) && Enabled(s, Run(p))
    ensures Inv(Next(s, Run(p)))
  {
    hide HasKids, ZombieChild, KidsKept;
    var s' := Next(s, Run(p));
    assert SlotInv(s, p);
    forall i: nat | i < |s'.procs| ensures SlotInv(s', i) {
      assert SlotInv(s, i);
      SameFamilyKeeps(s.procs, s'.procs, i);
      StillWaits(s.procs, s'.procs, i);
    }
  }

  lemma YieldInv(s: State, p: nat)
    requires Inv(s) && Enabled(s, Yield(p))
    ensures Inv(Next(s, Yield(p)))
  {
    hide HasKids, ZombieChild, KidsKept;
    var s' := Next(s, Yield(p));
    assert SlotInv(s, p);
    forall i: nat | i < |s'.procs| ensures SlotInv(s', i) {
      assert SlotInv(s, i);
      SameFamilyKeeps(s.procs, s'.procs, i);
      StillWaits(s.procs, s'.procs, i);
    }
  }

  lemma TrapInv(s: State, p: nat)
    requires Inv(s) && Enabled(s, Trap(p))
    ensures Inv(Next(s, Trap(p)))
  {
    hide HasKids, ZombieChild, KidsKept;
    var s' := Next(s, Trap(p));
    assert SlotInv(s, p);
    forall i: nat | i < |s'.procs| ensures SlotInv(s', i) {
      assert SlotInv(s, i);
      SameFamilyKeeps(s.procs, s'.procs, i);
      StillWaits(s.procs, s'.procs, i);
    }
  }

  lemma ForkFailsInv(s: State, p: nat)
    requires Inv(s) && Enabled(s, ForkFails(p))
    ensures Inv(Next(s, ForkFails(p)))
  {
    hide HasKids, ZombieChild, KidsKept;
    var s' := Next(s, ForkFails(p));
    assert SlotInv(s, p) && SlotInv(s, s.doing[p].np);
    forall i: nat | i < |s'.procs| ensures SlotInv(s', i) {
      assert SlotInv(s, i);
      SameFamilyKeeps(s.procs, s'.procs, i);
      StillWaits(s.procs, s'.procs, i);
    }
  }

  lemma ForkDoneInv(s: State, p: nat)
    requires Inv(s) && Enabled(s, ForkDone(p))
    ensures Inv(Next(s, ForkDone(p)))
  {
    hide HasKids, ZombieChild, KidsKept;
    var s' := Next(s, ForkDone(p));
    assert SlotInv(s, p) && SlotInv(s, s.doing[p].np);
    forall i: nat | i < |s'.procs| ensures SlotInv(s', i) {
      assert SlotInv(s, i);
      SameFamilyKeeps(s.procs, s'.procs, i);
      StillWaits(s.procs, s'.procs, i);
    }
  }

  lemma KillInv(s: State, pid: int)
    requires Inv(s)
    ensures Inv(DoKill(s, pid))
  {
    hide SlotInv, FirstPid;
    var k := FirstPid(s.procs, pid, 0);
    if k < |s.procs| {
      forall i: nat | i < |s.procs| ensures SlotInv(DoKill(s, pid), i) {
        KillSlot(s, k, DoKill(s, pid), i);
      }
    }
  }

  lemma KillSlot(s: State, k: nat, s': State, i: nat)
    requires Inv(s) && k < |s.procs| && i < |s.procs|
    requires s' == s.(procs := s.procs[k := Marked(s.procs[k])])
    ensures SlotInv(s', i)
  {
    hide HasKids, ZombieChild, KidsKept;
    assert SlotInv(s, k) && SlotInv(s, i);
    SameFamilyKeeps(s.procs, s'.procs, i);
    StillWaits(s.procs, s'.procs, i);
  }

  lemma WakeupInv(s: State, c: int)
    requires Inv(s)
    ensures Inv(Next(s, Wakeup(c)))
  {
    hide HasKids, ZombieChild, KidsKept, Woken;
    var s' := Next(s, Wakeup(c));
    forall i: nat | i < |s'.procs| ensures SlotInv(s', i) {
      assert SlotInv(s, i);
      SameFamilyKeeps(s.procs, s'.procs, i);
      StillWaits(s.procs, s'.procs, i);
    }
  }

  /** The new slot was unused, so nobody's parent and nobody's child. */
  lemma AllocSlot(s: State, p: nat, np: nat, s': State, i: nat)
    requires Inv(s) && At(s, p, RUNNING, Free) && np < |s.procs| && s.procs[np].state.UNUSED? && i < |s.procs|
    requires s' == s.(procs := s.procs[np := s.procs[np].(state := EMBRYO, pid := s.nextpid)],
             doing := s.doing[p := Forking(np)], nextpid := s.nextpid + 1)
    requires
      forall j: nat | j < |s.procs| ::
        s.doing[j] != Forking(np) && (!s.procs[j].state.UNUSED? ==> s.procs[j].pid < s.nextpid)
    ensures SlotInv(s', i)
  {
    hide HasKids, ZombieChild, KidsKept;
    assert SlotInv(s, i) && SlotInv(s, p) && SlotInv(s, np);
    SameFamilyKeeps(s.procs, s'.procs, i);
    StillWaits(s.procs, s'.procs, i);
  }

  lemma AllocInv(s: State, p: nat)
    requires Inv(s) && Enabled(s, Alloc(p))
    ensures Inv(Next(s, Alloc(p)))
  {
    var s' := Next(s, Alloc(p));
    var np := FirstUnused(s.procs, 0);
    if np < |s.procs| {
      forall j: nat | j < |s.procs|
        ensures s.doing[j] != Forking(np) && (!s.procs[j].state.UNUSED? ==> s.procs[j].pid < s.nextpid) {
        assert SlotInv(s, j);
      }
      hide SlotInv, FirstUnused;
      forall i: nat | i < |s'.procs| ensures SlotInv(s', i) {
        AllocSlot(s, p, np, s', i);
      }
    }
  }

  /** A child is named whose parent slot was free. */
  lemma SetParentKeeps(s: State, p: nat, s': State, i: nat)
    requires p < |s.procs| == |s.doing| && s.doing[p].Forking? && s.doing[p].np < |s.procs| &&
             s.procs[s.doing[p].np].state.EMBRYO?
    requires s.procs[s.doing[p].np].parent.None? &&
             s'.procs == s.procs[s.doing[p].np := s.procs[s.doing[p].np].(parent := Some(p))]
    ensures KidsKept(s.procs, s'.procs, i)
  {
  }

  lemma SetParentInv(s: State, p: nat)
    requires Inv(s) && Enabled(s, SetParent(p))
    ensures Inv(Next(s, SetParent(p)))
  {
    hide HasKids, ZombieChild, KidsKept;
    var s' := Next(s, SetParent(p));
    assert SlotInv(s, p) && SlotInv(s, s.doing[p].np);
    forall i: nat | i < |s'.procs| ensures SlotInv(s', i) {
      assert SlotInv(s, i);
      SetParentKeeps(s, p, s', i);
      StillWaits(s.procs, s'.procs, i);
    }
  }

  /** What exit's wakeups and reparenting come to for process j. */
  ghost predicate ExitAt(procs: seq<Proc>, procs': seq<Proc>, p: nat, q: nat, init: nat, j: nat)
    requires j < |procs| == |procs'|
  {
    var x, y := procs[j], procs'[j];
    && y.pid == x.pid && y.killed == x.killed && y.chan == x.chan
    && y.parent == (if x.parent == Some(p) then Some(init) else x.parent)
    && y.state == if j == p then ZOMBIE else if x.state.SLEEPING? && ExitWakes(procs, p, q, init, x.chan) then RUNNABLE
         else x.state
  }

  /** exit of a child of q wakes those asleep on q, and on init if it inherits a zombie. */
  predicate ExitWakes(procs: seq<Proc>, p: nat, q: nat, init: nat, ch: Chan) {
    ch == OnProc(q) || (ch == OnProc(init) && exists c: nat :: c < |procs| && ZombieChild(procs, p, c))
  }

  lemma ExitedIs(procs: seq<Proc>, p: nat, init: nat, j: nat)
    requires p < |procs| && procs[p].parent.Some? && j < |procs|
    ensures ExitAt(procs, Exited(procs, p, init), p, procs[p].parent.value, init, j)
  {
    var z := FirstZombie(procs, p, 0);
    assert z < |procs| ==> ZombieChild(procs, p, z);
  }

  /** Nobody asleep in wait misses the exit: the parent and, if need be, init are awake. */
  lemma ExitNoLoss(procs: seq<Proc>, procs': seq<Proc>, p: nat, q: nat, init: nat, i: nat)
    requires |procs| == |procs'| && p < |procs| && i < |procs| && i != p && procs[p].parent == Some(q) && q != p
    requires (forall j: nat | j < |procs| :: ExitAt(procs, procs', p, q, init, j)) && procs'[i].state.SLEEPING? &&
             procs'[i].chan == OnProc(i)
    requires HasKids(procs, i) && forall c: nat | c < |procs| :: !ZombieChild(procs, i, c)
    ensures HasKids(procs', i) && forall c: nat | c < |procs| :: !ZombieChild(procs', i, c)
  {
    var k: nat :| k < |procs| && procs[k].parent == Some(i);
    assert ExitAt(procs, procs', p, q, init, k) && procs'[k].parent == Some(i);
    assert ExitAt(procs, procs', p, q, init, i);
    forall c: nat | c < |procs| ensures !ZombieChild(procs', i, c) {
      assert ExitAt(procs, procs', p, q, init, c) && !ZombieChild(procs, i, c);
      assert !ExitWakes(procs, p, q, init, OnProc(i));
      assert ZombieChild(procs, p, c) ==> i != init;
    }
  }

  lemma ExitSlot(s: State, s': State, p: nat, q: nat, i: nat)
    requires Inv(s) && Enabled(s, Exit(p)) && s.procs[p].parent == Some(q) && q != p && q < |s.procs|
    requires s' == s.(procs := s'.procs, exited := s.exited + {s.procs[p].pid}) && |s'.procs| == |s.procs| &&
             i < |s.procs|
    requires forall j: nat | j < |s.procs| :: ExitAt(s.procs, s'.procs, p, q, s.init, j)
    ensures SlotInv(s', i)
  {
    hide HasKids, ZombieChild;
    assert SlotInv(s, i) && SlotInv(s, p) && SlotInv(s, s.init);
    assert ExitAt(s.procs, s'.procs, p, q, s.init, i) && ExitAt(s.procs, s'.procs, p, q, s.init, s.init);
    assert s.procs[i].parent.Some? && s.procs[i].parent.value < |s.procs| ==>
      ExitAt(s.procs, s'.procs, p, q, s.init, s.procs[i].parent.value);
    if s.doing[i].Forking? {
      var np := s.doing[i].np;
      assert SlotInv(s, np) && ExitAt(s.procs, s'.procs, p, q, s.init, np);
    }
    if s'.procs[i].state.SLEEPING? && s'.doing[i].Waiting? {
      ExitNoLoss(s.procs, s'.procs, p, q, s.init, i);
    }
    forall j: nat | j < |s.procs|
      ensures s'.procs[j].pid == s.procs[j].pid && (s'.procs[j].state.UNUSED? <==> s.procs[j].state.UNUSED?) {
      assert ExitAt(s.procs, s'.procs, p, q, s.init, j);
    }
  }

  lemma ExitInv(s: State, p: nat)
    requires Inv(s) && Enabled(s, Exit(p))
    ensures s.procs[p].parent.Some? && Inv(Next(s, Exit(p)))
  {
    assert SlotInv(s, p);
    var s' := Next(s, Exit(p));
    forall j: nat | j < |s.procs| ensures ExitAt(s.procs, s'.procs, p, s.procs[p].parent.value, s.init, j) {
      ExitedIs(s.procs, p, s.init, j);
    }
    hide ExitAt, Exited, SlotInv;
    forall i: nat | i < |s'.procs| ensures SlotInv(s', i) {
      ExitSlot(s, s', p, s.procs[p].parent.value, i);
    }
  }

  lemma ReapInv(s: State, s1: State, p: nat, c: nat)
    requires Inv(s1) && p < |s1.procs| && s1.procs[p].state.RUNNING? && s1.doing[p].Free? && c < |s1.procs| &&
             ZombieChild(s1.procs, p, c)
    requires s == s1.(procs := s1.procs[c := EMPTY], reaped := s1.reaped + {s1.procs[c].pid})
    ensures Inv(s) && s1.procs[c].pid !in s1.reaped
  {
    assert SlotInv(s1, c) && SlotInv(s1, p);
    forall i: nat | i < |s.procs| ensures SlotInv(s, i) {
      assert SlotInv(s1, i);
      if i != p {
        assert KidsKept(s1.procs, s.procs, i);
        StillWaits(s1.procs, s.procs, i);
      }
      hide HasKids, ZombieChild, KidsKept;
    }
  }

  /** wait's caller runs again, before it scans. */
  lemma ResumeInv(s: State, p: nat, s1: State)
    requires Inv(s) && Enabled(s, Wait(p))
    requires s1 == s.(procs := s.procs[p := s.procs[p].(state := RUNNING, chan := NoChan)], doing := s.doing[p := Free])
    ensures Inv(s1)
  {
    hide SlotInv;
    forall i: nat | i < |s1.procs| ensures SlotInv(s1, i) {
      ResumeSlot(s, p, s1, i);
    }
  }

  lemma ResumeSlot(s: State, p: nat, s1: State, i: nat)
    requires Inv(s) && Enabled(s, Wait(p)) && i < |s1.procs|
    requires s1 == s.(procs := s.procs[p := s.procs[p].(state := RUNNING, chan := NoChan)], doing := s.doing[p := Free])
    ensures SlotInv(s1, i)
  {
    hide HasKids, ZombieChild, KidsKept;
    assert SlotInv(s, p) && SlotInv(s, i);
    SameFamilyKeeps(s.procs, s1.procs, i);
    StillWaits(s.procs, s1.procs, i);
  }

  lemma GoToSleepInv(s1: State, p: nat, s: State)
    requires Inv(s1) && p < |s1.procs| && s1.procs[p].state.RUNNING? && s1.doing[p].Free? && Scan(s1.procs, p).Sleeps?
    requires s == s1.(procs := s1.procs[p := s1.procs[p].(state := SLEEPING, chan := OnProc(p))],
             doing := s1.doing[p := Waiting])
    ensures Inv(s)
  {
    hide HasKids, ZombieChild, KidsKept, FirstZombie;
    assert SlotInv(s1, p);
    forall i: nat | i < |s.procs| ensures SlotInv(s, i) {
      assert SlotInv(s1, i);
      SameFamilyKeeps(s1.procs, s.procs, i);
      StillWaits(s1.procs, s.procs, i);
    }
  }

  lemma WaitInv(s: State, p: nat)
    requires Inv(s) && Enabled(s, Wait(p))
    ensures Inv(Next(s, Wait(p)))
  {
    var procs := s.procs[p := s.procs[p].(state := RUNNING, chan := NoChan)];
    var s1 := s.(procs := procs, doing := s.doing[p := Free]);
    ResumeInv(s, p, s1);
    var s' := Next(s, Wait(p));
    match Scan(procs, p)
    case Reaped(c) =>
      ReapInv(s', s1, p, c);
    case Minus1 =>
    case Sleeps =>
      assert s1.doing[p := Waiting] == s.doing[p := Waiting];
      GoToSleepInv(s1, p, s');
  }

  lemma StepInv(s: State, step: Step)
    requires Inv(s) && Enabled(s, step)
    ensures step.Exit? ==> s.procs[step.p].parent.Some?
    ensures Inv(Next(s, step))
  {
    match step
    case Alloc(p) => AllocInv(s, p);
    case ForkFails(p) => ForkFailsInv(s, p);
    case SetParent(p) => SetParentInv(s, p);
    case ForkDone(p) => ForkDoneInv(s, p);
    case Exit(p) => ExitInv(s, p);
    case Wait(p) => WaitInv(s, p);
    case Kill(pid) => KillInv(s, pid);
    case Sleep(p, c) => SleepInv(s, p, c);
    case Wakeup(c) => WakeupInv(s, c);
    case Run(p) => RunInv(s, p);
    case Yield(p) => YieldInv(s, p);
    case Trap(p) => TrapInv(s, p);
  }

  // ---- over all interleavings ----

  /** ss are the states a run goes through, one after each of its steps. */
  ghost predicate IsRun(ss: seq<State>, steps: seq<Step>) {
    && |ss| == |steps| + 1
    && forall i: nat | i < |steps| :: Follows(ss[i], steps[i], ss[i + 1])
  }

  ghost predicate Follows(s: State, step: Step, s': State) {
    Enabled(s, step) && (step.Exit? ==> s.procs[step.p].parent.Some?) && s' == Next(s, step)
  }

  lemma {:induction false} InvAlways(n: nat, ss: seq<State>, steps: seq<Step>, i: nat)
    requires n > 0 && IsRun(ss, steps) && ss[0] == Boot(n) && i < |ss|
    ensures Inv(ss[i])
  {
    if i == 0 {
      BootInv(n);
    } else {
      InvAlways(n, ss, steps, i - 1);
      assert Follows(ss[i - 1], steps[i - 1], ss[i]);
      StepInv(ss[i - 1], steps[i - 1]);
    }
  }

  /** No wakeup is lost: whenever the lock is free, a process asleep in wait has a child, no zombie
      child, and has not been killed. */
  lemma NoLostWakeups(n: nat, ss: seq<State>, steps: seq<Step>, i: nat, p: nat)
    requires n > 0 && IsRun(ss, steps) && ss[0] == Boot(n) && i < |ss| && p < |ss[i].procs|
    requires ss[i].procs[p].state.SLEEPING? && ss[i].procs[p].chan == OnProc(p)
    ensures !ss[i].procs[p].killed
    ensures exists c: nat :: c < |ss[i].procs| && ss[i].procs[c].parent == Some(p)
    ensures forall c: nat | c < |ss[i].procs| && ss[i].procs[c].parent == Some(p) :: !ss[i].procs[c].state.ZOMBIE?
  {
    InvAlways(n, ss, steps, i);
    var s := ss[i];
    assert SlotInv(s, p) && HasKids(s.procs, p);
    forall c: nat | c < |s.procs| && s.procs[c].parent == Some(p) ensures !s.procs[c].state.ZOMBIE? {
      assert !ZombieChild(s.procs, p, c);
    }
  }

  /** Every recorded parent is alive. */
  lemma ParentsLive(n: nat, ss: seq<State>, steps: seq<Step>, i: nat, c: nat)
    requires n > 0 && IsRun(ss, steps) && ss[0] == Boot(n) && i < |ss| && c < |ss[i].procs| &&
             ss[i].procs[c].parent.Some?
    ensures var p := ss[i].procs[c].parent.value;
      p < |ss[i].procs| && p != c && !ss[i].procs[p].state.UNUSED? && !ss[i].procs[p].state.ZOMBIE? &&
        !ss[i].procs[p].state.EMBRYO?
  {
    InvAlways(n, ss, steps, i);
    assert SlotInv(ss[i], c);
  }

  // ---- what wait, exit and kill do, slot by slot ----

  predicate NoZombieChild(s: State, p: nat) {
    forall c: nat | c < |s.procs| && s.procs[c].parent == Some(p) :: !s.procs[c].state.ZOMBIE?
  }

  predicate Childless(s: State, p: nat) {
    forall c: nat | c < |s.procs| :: s.procs[c].parent != Some(p)
  }

  /** c is the first slot that holds a zombie child of p. */
  predicate FirstDead(s: State, p: nat, c: nat) {
    && c < |s.procs| && s.procs[c].parent == Some(p) && s.procs[c].state.ZOMBIE?
    && forall j: nat | j < c && s.procs[j].parent == Some(p) :: !s.procs[j].state.ZOMBIE?
  }

  lemma ScanIs(s: State, p: nat)
    requires p < |s.procs| && Enabled(s, Wait(p)) && s.procs[p].parent != Some(p)
    ensures var r := Scan(s.procs[p := s.procs[p].(state := RUNNING, chan := NoChan)], p);
      && (r.Minus1? <==> NoZombieChild(s, p) && (Childless(s, p) || s.procs[p].killed))
      && (r.Sleeps? <==> NoZombieChild(s, p) && !Childless(s, p) && !s.procs[p].killed)
      && (r.Reaped? ==> FirstDead(s, p, r.c) && r.c != p)
  {
    var procs := s.procs[p := s.procs[p].(state := RUNNING, chan := NoChan)];
    DeadIs(s, procs, p);
    if !Childless(s, p) {
      var c: nat :| c < |s.procs| && s.procs[c].parent == Some(p);
      assert procs[c].parent == Some(p);
    }
  }

  lemma DeadIs(s: State, procs: seq<Proc>, p: nat)
    requires SameFamily(s.procs, procs)
    ensures var z := FirstZombie(procs, p, 0);
            if z < |procs| then FirstDead(s, p, z) && !NoZombieChild(s, p) else NoZombieChild(s, p)
  {
    var z := FirstZombie(procs, p, 0);
    if z < |procs| {
      assert ZombieChild(procs, p, z);
      forall j: nat | j < z && s.procs[j].parent == Some(p) ensures !s.procs[j].state.ZOMBIE? {
        assert !ZombieChild(procs, p, j);
      }
    } else {
      forall c: nat | c < |s.procs| && s.procs[c].parent == Some(p) ensures !s.procs[c].state.ZOMBIE? {
        assert !ZombieChild(procs, p, c);
      }
    }
  }

  /** wait goes back to sleep exactly when p has a child, no zombie child and has not been killed; it
      returns -1 exactly when there is no zombie child and p is childless or killed; otherwise it
      empties the first slot with a zombie child and its pid counts as reaped. Nothing else changes. */
  lemma WaitDoes(n: nat, ss: seq<State>, steps: seq<Step>, i: nat, p: nat)
    requires n > 0 && IsRun(ss, steps) && ss[0] == Boot(n) && i < |steps| && steps[i] == Wait(p)
    ensures var s, s' := ss[i], ss[i + 1];
      && p < |s.procs| == |s.doing|
      && var running := s.procs[p := s.procs[p].(state := RUNNING, chan := NoChan)];
         if exists c: nat :: FirstDead(s, p, c) then
           exists c: nat :: FirstDead(s, p, c) && c != p
             && s' == s.(procs := running[c := Proc(UNUSED, 0, None, NoChan, false)], doing := s.doing[p := Free],
                         reaped := s.reaped + {s.procs[c].pid})
         else if Childless(s, p) || s.procs[p].killed then s' == s.(procs := running, doing := s.doing[p := Free])
         else s' == s.(procs := s.procs[p := s.procs[p].(state := SLEEPING, chan := OnProc(p))],
                       doing := s.doing[p := Waiting])
    ensures (exists c: nat :: FirstDead(ss[i], p, c)) <==> !NoZombieChild(ss[i], p)
  {
    var s := ss[i];
    InvAlways(n, ss, steps, i);
    assert Follows(s, steps[i], ss[i + 1]) && SlotInv(s, p);
    hide IsRun, SlotInv, Inv, Boot;
    ScanIs(s, p);
    SomeDead(s, p);
    hide Scan, NoZombieChild;
    var running := s.procs[p := s.procs[p].(state := RUNNING, chan := NoChan)];
    assert running[p := running[p].(state := SLEEPING, chan := OnProc(p))] ==
           s.procs[p := s.procs[p].(state := SLEEPING, chan := OnProc(p))];
  }

  lemma SomeDead(s: State, p: nat)
    ensures (exists c: nat :: FirstDead(s, p, c)) <==> !NoZombieChild(s, p)
  {
    DeadIs(s, s.procs, p);
  }

  /** This step is a wait that finds a zombie child with this pid. */
  ghost predicate Reaps(s: State, step: Step, pid: int) {
    step.Wait? && Enabled(s, step) && exists c: nat :: FirstDead(s, step.p, c) && s.procs[c].pid == pid
  }

  lemma OneFirst(s: State, p: nat, c: nat, d: nat)
    requires FirstDead(s, p, c) && FirstDead(s, p, d)
    ensures c == d
  {
  }

  /** What is reaped had exited and not been reaped before. */
  lemma ReapsFresh(s: State, step: Step, pid: int)
    requires Inv(s) && Reaps(s, step, pid)
    ensures pid in s.exited && pid !in s.reaped && Next(s, step).reaped == s.reaped + {pid}
  {
    var p := step.p;
    assert SlotInv(s, p);
    var c: nat :| FirstDead(s, p, c) && s.procs[c].pid == pid;
    assert SlotInv(s, c);
    hide Inv, SlotInv;
    ScanIs(s, p);
    SomeDead(s, p);
    hide Scan, NoZombieChild, Childless;
    OneFirst(s, p, c, Scan(s.procs[p := s.procs[p].(state := RUNNING, chan := NoChan)], p).c);
  }

  lemma {:induction false} ReapedStays(n: nat, ss: seq<State>, steps: seq<Step>, i: nat, j: nat, pid: int)
    requires n > 0 && IsRun(ss, steps) && ss[0] == Boot(n) && i <= j < |ss| && pid in ss[i].reaped
    ensures pid in ss[j].reaped
  {
    if i < j {
      ReapedStays(n, ss, steps, i, j - 1, pid);
      assert Follows(ss[j - 1], steps[j - 1], ss[j]);
    }
  }

  /** Each exited child is reaped at most once. */
  lemma ReapedOnce(n: nat, ss: seq<State>, steps: seq<Step>, i: nat, j: nat, pid: int)
    requires n > 0 && IsRun(ss, steps) && ss[0] == Boot(n) && i < j < |steps|
    requires Reaps(ss[i], steps[i], pid)
    ensures !Reaps(ss[j], steps[j], pid)
  {
    InvAlways(n, ss, steps, i);
    InvAlways(n, ss, steps, j);
    assert Follows(ss[i], steps[i], ss[i + 1]);
    ReapsFresh(ss[i], steps[i], pid);
    ReapedStays(n, ss, steps, i + 1, j, pid);
    if Reaps(ss[j], steps[j], pid) {
      ReapsFresh(ss[j], steps[j], pid);
    }
  }

  /** fork gets the first unused slot and a pid that no process has had before, or, if and only if no
      slot is unused, nothing. */
  lemma AllocDoes(n: nat, ss: seq<State>, steps: seq<Step>, i: nat, p: nat)
    requires n > 0 && IsRun(ss, steps) && ss[0] == Boot(n) && i < |steps| && steps[i] == Alloc(p)
    ensures p < |ss[i].doing| && |ss[i + 1].doing| == |ss[i].doing|
    ensures ss[i + 1].doing[p].Forking? <==> exists j: nat :: j < |ss[i].procs| && ss[i].procs[j].state.UNUSED?
    ensures !ss[i + 1].doing[p].Forking? ==> ss[i + 1] == ss[i]
    ensures ss[i + 1].doing[p].Forking? ==>
      var s, np := ss[i], ss[i + 1].doing[p].np;
      && np < |s.procs| && s.procs[np].state.UNUSED? && (forall j: nat | j < np :: !s.procs[j].state.UNUSED?)
      && ss[i + 1].procs == s.procs[np := s.procs[np].(state := EMBRYO, pid := ss[i + 1].procs[np].pid)]
      && (forall j: nat | j < |s.procs| :: s.procs[j].pid < ss[i + 1].procs[np].pid)
      && forall x | x in s.exited :: x < ss[i + 1].procs[np].pid
  {
    InvAlways(n, ss, steps, i);
    PidsAlways(n, ss, steps, i);
    assert Follows(ss[i], steps[i], ss[i + 1]);
    hide SlotInv;
  }

  /** The rest of fork: the new slot, an embryo without a parent, either becomes unused again, or is
      given its parent and then becomes runnable; nothing else changes. */
  lemma ForkDoes(n: nat, ss: seq<State>, steps: seq<Step>, i: nat, p: nat)
    requires n > 0 && IsRun(ss, steps) && ss[0] == Boot(n) && i < |steps|
    requires steps[i] == ForkFails(p) || steps[i] == SetParent(p) || steps[i] == ForkDone(p)
    ensures p < |ss[i].doing| && ss[i].doing[p].Forking? && ss[i].doing[p].np < |ss[i].procs|
    ensures var s, np := ss[i], ss[i].doing[p].np; var x := s.procs[np];
            && x.state.EMBRYO?
            && (steps[i].ForkFails? ==>
                  && x.parent.None?
                  && ss[i + 1] == s.(procs := s.procs[np := Proc(UNUSED, x.pid, None, x.chan, x.killed)],
                                     doing := s.doing[p := Free]))
            && (steps[i].SetParent? ==>
                  && x.parent.None?
                  && ss[i + 1] == s.(procs := s.procs[np := Proc(EMBRYO, x.pid, Some(p), x.chan, x.killed)]))
            && (steps[i].ForkDone? ==>
                  && x.parent == Some(p)
                  && ss[i + 1] == s.(procs := s.procs[np := Proc(RUNNABLE, x.pid, Some(p), x.chan, x.killed)],
                                     doing := s.doing[p := Free]))
  {
    InvAlways(n, ss, steps, i);
    assert Follows(ss[i], steps[i], ss[i + 1]) && SlotInv(ss[i], p);
  }

  /** What the steps around the calls change, of one process: sleep, wakeup of everybody on a channel,
      the scheduler's switch to it and back, and a trap that kills it. */
  lemma OthersDo(s: State, s': State, step: Step, i: nat)
    requires Follows(s, step, s') && i < |s.procs|
    requires step.Sleep? || step.Wakeup? || step.Run? || step.Yield? || step.Trap?
    ensures s' == s.(procs := s'.procs) && |s'.procs| == |s.procs|
    ensures var x, y := s.procs[i], s'.procs[i];
            && y.pid == x.pid && y.parent == x.parent
            && y.killed == (x.killed || step == Trap(i))
            && y.chan == (match step
                          case Sleep(p, c) => if p == i then Other(c) else x.chan
                          case Run(p) => if p == i then NoChan else x.chan
                          case _ => x.chan)
            && y.state == (match step
                           case Sleep(p, _) => if p == i then SLEEPING else x.state
                           case Wakeup(c) => if x.state.SLEEPING? && x.chan == Other(c) then RUNNABLE else x.state
                           case Run(p) => if p == i then RUNNING else x.state
                           case Yield(p) => if p == i then RUNNABLE else x.state
                           case _ => x.state)
  {
  }

  /** In every run a process that is not asleep can go on: from user mode into any call, from wait when
      it has been woken, and through the parts of fork; and anybody can be killed at any time. */
  lemma WhoCanStep(n: nat, ss: seq<State>, steps: seq<Step>, i: nat, p: nat)
    requires n > 0 && IsRun(ss, steps) && ss[0] == Boot(n) && i < |ss| && p < |ss[i].procs|
    ensures p < |ss[i].doing|
    ensures var s, x, d := ss[i], ss[i].procs[p], ss[i].doing[p];
            && (x.state.RUNNING? && d.Free? ==>
                  Enabled(s, Alloc(p)) && Enabled(s, Wait(p)) && (p != 0 ==> Enabled(s, Exit(p))))
            && (x.state.RUNNABLE? ==> Enabled(s, if d.Waiting? then Wait(p) else Run(p)))
            && (x.state.RUNNING? && d.Forking? ==>
                  d.np < |s.procs| &&
                  if s.procs[d.np].parent.None? then Enabled(s, ForkFails(p)) && Enabled(s, SetParent(p))
                  else Enabled(s, ForkDone(p)))
            && (x.state.RUNNING? ==> !d.Waiting? && Enabled(s, Yield(p)) && Enabled(s, Trap(p)))
    ensures forall c: int :: Enabled(ss[i], Kill(c)) && Enabled(ss[i], Wakeup(c))
    ensures forall c: int :: ss[i].procs[p].state.RUNNING? ==> Enabled(ss[i], Sleep(p, c))
  {
    InitIsFirst(n, ss, steps, i);
    InvAlways(n, ss, steps, i);
    assert SlotInv(ss[i], p);
  }

  /** exit makes p a zombie, gives its children to init, and wakes those asleep on its parent and, if
      init inherits a zombie, those asleep on init, and nobody else. */
  lemma ExitDoes(n: nat, ss: seq<State>, steps: seq<Step>, i: nat, p: nat, j: nat)
    requires n > 0 && IsRun(ss, steps) && ss[0] == Boot(n) && i < |steps| && steps[i] == Exit(p) && j < |ss[i].procs|
    ensures p < |ss[i].procs| && ss[i].procs[p].parent.Some? && |ss[i + 1].procs| == |ss[i].procs|
    ensures var x, q := ss[i].procs[j], ss[i].procs[p].parent.value;
            var woken := x.state.SLEEPING? &&
                  (x.chan == OnProc(q) ||
                    (x.chan == OnProc(0) &&
                      exists c: nat ::
                        c < |ss[i].procs| && ss[i].procs[c].parent == Some(p) && ss[i].procs[c].state.ZOMBIE?));
            ss[i + 1].procs[j] == Proc(if j == p then ZOMBIE else if woken then RUNNABLE else x.state, x.pid,
              if x.parent == Some(p) then Some(0) else x.parent, x.chan, x.killed)
    ensures ss[i + 1].exited == ss[i].exited + {ss[i].procs[p].pid}
  {
    InitIsFirst(n, ss, steps, i);
    var s := ss[i];
    assert Follows(s, steps[i], ss[i + 1]);
    hide IsRun, Exited;
    ExitedIs(s.procs, p, s.init, j);
    if c: nat :| c < |s.procs| && s.procs[c].parent == Some(p) && s.procs[c].state.ZOMBIE? {
      assert ZombieChild(s.procs, p, c);
    }
  }

  lemma {:induction false} InitIsFirst(n: nat, ss: seq<State>, steps: seq<Step>, i: nat)
    requires n > 0 && IsRun(ss, steps) && ss[0] == Boot(n) && i < |ss|
    ensures ss[i].init == 0
  {
    if i > 0 {
      InitIsFirst(n, ss, steps, i - 1);
      assert Follows(ss[i - 1], steps[i - 1], ss[i]);
      hide Exited, Scan, FirstUnused;
    }
  }

  // ---- kill ----

  /** Pids are below the next one, and no two slots share one but 0, not even slots left unused by a
      fork that failed, which keep theirs. */
  ghost predicate PidsInv(s: State) {
    && 0 < s.nextpid && (forall i: nat | i < |s.procs| :: 0 <= s.procs[i].pid < s.nextpid)
    && forall i: nat, j: nat | i < j < |s.procs| && s.procs[i].pid == s.procs[j].pid :: s.procs[i].pid == 0
  }

  predicate SamePids(procs: seq<Proc>, procs': seq<Proc>) {
    |procs'| == |procs| && forall i: nat | i < |procs| :: procs'[i].pid == procs[i].pid
  }

  /** Pids are given by allocproc and taken back by wait, and by nothing else. */
  lemma StepPids(s: State, step: Step)
    requires PidsInv(s) && Enabled(s, step) && (step.Exit? ==> s.procs[step.p].parent.Some?)
    ensures PidsInv(Next(s, step))
  {
    var s' := Next(s, step);
    match step
    case Alloc(p) =>
    case Wait(p) => WaitPids(s, p);
    case Exit(p) => ExitPids(s.procs, p, s.init);
    case _ => assert SamePids(s.procs, s'.procs) && s'.nextpid == s.nextpid;
  }

  lemma WaitPids(s: State, p: nat)
    requires PidsInv(s) && Enabled(s, Wait(p))
    ensures PidsInv(DoWait(s, p))
  {
    hide HasKids, ZombieChild;
    var procs := s.procs[p := s.procs[p].(state := RUNNING, chan := NoChan)];
    assert SamePids(s.procs, procs);
  }

  lemma ExitPids(procs: seq<Proc>, p: nat, init: nat)
    requires p < |procs| && procs[p].parent.Some?
    ensures SamePids(procs, Exited(procs, p, init))
  {
    hide FirstZombie;
  }

  lemma {:induction false} PidsAlways(n: nat, ss: seq<State>, steps: seq<Step>, i: nat)
    requires n > 0 && IsRun(ss, steps) && ss[0] == Boot(n) && i < |ss|
    ensures PidsInv(ss[i])
  {
    if i > 0 {
      PidsAlways(n, ss, steps, i - 1);
      assert Follows(ss[i - 1], steps[i - 1], ss[i]);
      hide PidsInv, Next, Enabled;
      StepPids(ss[i - 1], steps[i - 1]);
    }
  }

  /** kill with the pid of a process in use marks that process, wakes it if it sleeps, on whatever it
      sleeps, and changes nothing else. */
  lemma KillReaches(n: nat, ss: seq<State>, steps: seq<Step>, t: nat, i: nat)
    requires n > 0 && IsRun(ss, steps) && ss[0] == Boot(n) && t < |ss| && i < |ss[t].procs|
    requires !ss[t].procs[i].state.UNUSED?
    ensures var x := ss[t].procs[i];
            Next(ss[t], Kill(x.pid)) == ss[t].(procs := ss[t].procs[i :=
              Proc(if x.state.SLEEPING? then RUNNABLE else x.state, x.pid, x.parent, x.chan, true)])
  {
    var s := ss[t];
    InvAlways(n, ss, steps, t);
    PidsAlways(n, ss, steps, t);
    assert SlotInv(s, i);
    hide Inv, SlotInv;
    var k := FirstPid(s.procs, s.procs[i].pid, 0);
    assert k == i;
  }

  /** kill with this pid changes a slot that is not in use. */
  ghost predicate HitsUnused(s: State, pid: int) {
    exists k: nat :: k < |s.procs| && s.procs[k].state.UNUSED? && Next(s, Kill(pid)).procs[k] != s.procs[k]
  }

  /** No process has this pid, and the first slot that still has it is not marked yet. */
  ghost predicate Stale(s: State, pid: int) {
    && (forall i: nat | i < |s.procs| && s.procs[i].pid == pid :: s.procs[i].state.UNUSED?)
    && exists k: nat :: k < |s.procs| && s.procs[k].pid == pid && !s.procs[k].killed &&
         forall j: nat | j < k :: s.procs[j].pid != pid
  }

  /** kill marks a slot that is not in use if and only if its pid is nobody's, and some unmarked slot
      is the first to have it. For a pid other than 0 that is the slot of a fork that failed with it. */
  lemma KillHits(n: nat, ss: seq<State>, steps: seq<Step>, t: nat, pid: int)
    requires n > 0 && IsRun(ss, steps) && ss[0] == Boot(n) && t < |ss|
    ensures HitsUnused(ss[t], pid) <==> Stale(ss[t], pid)
    ensures pid != 0 ==>
      (Stale(ss[t], pid) <==> exists k: nat ::
         k < |ss[t].procs| && ss[t].procs[k].state.UNUSED? && ss[t].procs[k].pid == pid && !ss[t].procs[k].killed)
  {
    var s := ss[t];
    PidsAlways(n, ss, steps, t);
    var i := FirstPid(s.procs, pid, 0);
    if i < |s.procs| && !s.procs[i].state.UNUSED? {
      KillReaches(n, ss, steps, t, i);
    }
    UsedPids(n, ss, steps, t, pid);
    hide IsRun;
    if HitsUnused(s, pid) {
      assert i < |s.procs| && s.procs[i].state.UNUSED? && !s.procs[i].killed;
    }
    if Stale(s, pid) {
      assert DoKill(s, pid).procs[i].killed;
    }
  }

  /** Where one slot with a pid is not in use, none with it is. */
  lemma UsedPids(n: nat, ss: seq<State>, steps: seq<Step>, t: nat, pid: int)
    requires n > 0 && IsRun(ss, steps) && ss[0] == Boot(n) && t < |ss|
    ensures forall i: nat, j: nat | i < |ss[t].procs| && j < |ss[t].procs| &&
            ss[t].procs[i].pid == ss[t].procs[j].pid ::
              ss[t].procs[i].state.UNUSED? <==> ss[t].procs[j].state.UNUSED?
  {
    InvAlways(n, ss, steps, t);
    PidsAlways(n, ss, steps, t);
    hide IsRun;
    var s := ss[t];
    forall i: nat | i < |s.procs| ensures !s.procs[i].state.UNUSED? ==> s.procs[i].pid > 0 {
      assert SlotInv(s, i);
    }
    hide Inv;
  }

  /** The mark outlives the slot's next allocation: kill(0) succeeds on a fresh table, and the next
      process forked is born killed. */
  lemma KillZero(n: nat)
    requires n > 1
    ensures var s := Next(Boot(n), Run(0));
      && FirstPid(s.procs, 0, 0) == 1
      && var t := Next(s, Kill(0));
         Enabled(t, Alloc(0)) &&
           var u := Next(t, Alloc(0)); u.procs[1].state.EMBRYO? && u.procs[1].pid == 2 && u.procs[1].killed
  {
    var s := Next(Boot(n), Run(0));
    assert s.procs[0].pid == 1 && s.procs[1].pid == 0;
    assert FirstPid(s.procs, 0, 1) == 1 && FirstPid(s.procs, 0, 0) == 1;
    var t := Next(s, Kill(0));
    assert t.procs[0].state == RUNNING && t.procs[1].state == UNUSED;
    assert FirstUnused(t.procs, 1) == 1 && FirstUnused(t.procs, 0) == 1;
  }
}
