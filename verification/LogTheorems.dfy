/** What the log and cache guarantee over every run: any number of processes, any
    interleaving of critical sections, any number of crashes at any point. */
module LogTheorems {
  import opened Blocks
  import opened LogFormat
  import opened LogInvariant
  import opened LogSystem
  import opened Params
  import opened Sets

  ghost predicate IsRun(c: Config, states: seq<State>, steps: seq<Step>)
    requires c.Valid()
  {
    && |states| == |steps| + 1
    && Starts(c, states[0])
    && forall i | 0 <= i < |steps| :: Enabled(c, states[i], steps[i]) && states[i + 1] == Next(c, states[i], steps[i])
  }

  ghost predicate Reachable(c: Config, s: State)
    requires c.Valid()
  {
    exists states: seq<State>, steps: seq<Step> :: IsRun(c, states, steps) && states[|steps|] == s
  }

  lemma RunStarts(c: Config, states: seq<State>, steps: seq<Step>)
    requires c.Valid() && IsRun(c, states, steps)
    ensures |states| == |steps| + 1 && Starts(c, states[0])
  {
  }

  /** Operations and locks are in order in every run, whatever the size of the log area. */
  lemma {:induction false} RunOps(c: Config, states: seq<State>, steps: seq<Step>, i: nat)
    requires c.Valid() && IsRun(c, states, steps) && i < |states|
    ensures InvOps(c, states[i]) && InvHeld(c, states[i])
  {
    hide *;
    RunStarts(c, states, steps);
    if i == 0 {
      InitInv(c, states[0]);
      InvParts(c, states[0]);
    } else {
      RunOps(c, states, steps, i - 1);
      RunStep(c, states, steps, i - 1);
      OpsStep(c, states[i - 1], steps[i - 1]);
      HeldStep(c, states[i - 1], steps[i - 1]);
    }
  }

  /** And with an ample log area the whole invariant holds in every run. */
  lemma {:induction false} RunInv(c: Config, states: seq<State>, steps: seq<Step>, i: nat)
    requires c.Valid() && c.g.Ample() && IsRun(c, states, steps) && i < |states|
    ensures Inv(c, states[i])
  {
    hide *;
    RunStarts(c, states, steps);
    if i == 0 {
      InitInv(c, states[0]);
    } else {
      RunInv(c, states, steps, i - 1);
      RunStep(c, states, steps, i - 1);
      RunOps(c, states, steps, i - 1);
      if steps[i - 1].Append? {
        StepFits(c, states[i - 1], steps[i - 1]);
      }
      StepInv(c, states[i - 1], steps[i - 1]);
    }
  }

  lemma ReachableOps(c: Config, s: State)
    requires c.Valid() && Reachable(c, s)
    ensures InvOps(c, s) && InvHeld(c, s)
  {
    hide InvOps, InvHeld;
    var states: seq<State>, steps: seq<Step> :| IsRun(c, states, steps) && states[|steps|] == s;
    RunOps(c, states, steps, |steps|);
  }

  lemma ReachableInv(c: Config, s: State)
    requires c.Valid() && c.g.Ample() && Reachable(c, s)
    ensures Inv(c, s)
  {
    var states: seq<State>, steps: seq<Step> :| IsRun(c, states, steps) && states[|steps|] == s;
    RunInv(c, states, steps, |steps|);
  }

  lemma ReachableStep(c: Config, s: State, step: Step)
    requires c.Valid() && Reachable(c, s) && Enabled(c, s, step)
    ensures Reachable(c, Next(c, s, step))
  {
    hide Enabled, Next, Init;
    var states: seq<State>, steps: seq<Step> :| IsRun(c, states, steps) && states[|steps|] == s;
    RunGrows(c, states, steps, step);
  }

  lemma RunGrows(c: Config, states: seq<State>, steps: seq<Step>, step: Step)
    requires c.Valid() && IsRun(c, states, steps) && Enabled(c, states[|steps|], step)
    ensures Reachable(c, Next(c, states[|steps|], step))
  {
    hide Enabled, Next, Init;
    var s := states[|steps|];
    var states', steps' := states + [Next(c, s, step)], steps + [step];
    assert
      forall i | 0 <= i < |steps'| ::
        Enabled(c, states'[i], steps'[i]) && states'[i + 1] == Next(c, states'[i], steps'[i]);
    assert IsRun(c, states', steps') && states'[|steps'|] == Next(c, s, step);
  }

  // ---- the cache is transparent ----

  /** bread returns what an uncached store would: a buffer that is filled and not being
      modified holds the block as the history left it, and so does the disk block a fill
      would read. */
  lemma BreadIsTransparent(c: Config, s: State, b: nat)
    requires c.Valid() && c.g.Ample() && Reachable(c, s) && !s.booting && c.g.Home(b)
    ensures b in s.cache && s.cache[b].valid && !s.cache[b].touched ==> s.cache[b].data == Apply(c.init, s.history)[b]
    ensures b !in s.cache || !s.cache[b].valid ==> b < |s.disk| && s.disk[b] == Apply(c.init, s.history)[b]
  {
    ReachableInv(c, s);
  }

  lemma LoggedAreDirty(c: Config, s: State)
    requires c.Valid() && c.g.Ample() && Reachable(c, s) && !s.booting && (s.phase.Idle? || s.phase.WriteLog?)
    ensures forall j | 0 <= j < |s.lh| :: s.lh[j] in s.cache && s.cache[s.lh[j]].dirty
    ensures forall b | b in s.cache && s.cache[b].dirty :: b in s.lh
    ensures |s.cache| <= NBUF && NoRepeats(s.lh)
  {
    hide InvDisk;
    ReachableInv(c, s);
    assert forall j | 0 <= j < |s.lh| :: Pinned(s, s.lh[j]);
  }

  /** A logged block stays cached, and cannot be recycled, until it is installed. */
  lemma LoggedIsNeverRecycled(c: Config, s: State, j: nat, p: Pid, b: nat)
    requires c.Valid() && c.g.Ample() && Reachable(c, s) && !s.booting && (s.phase.Idle? || s.phase.WriteLog?) &&
             j < |s.lh|
    ensures s.lh[j] in s.cache && !CanGet(c, s, p, b, Some(s.lh[j]))
  {
    LoggedAreDirty(c, s);
  }

  /** When the header is about to be written the log holds the latest contents of every
      logged block. */
  lemma LogHoldsLatest(c: Config, s: State, j: nat)
    requires c.Valid() && c.g.Ample() && Reachable(c, s) && s.phase == WriteLog(|s.lh|) && j < |s.lh|
    ensures c.g.start + 1 + j < |s.disk| && c.g.Home(s.lh[j])
    ensures s.disk[c.g.start + 1 + j] == Apply(c.init, s.history)[s.lh[j]]
  {
    ReachableInv(c, s);
    hide InvCache, Reachable;
    CopiesAreLatest(c, s, j);
  }

  lemma CopiesAreLatest(c: Config, s: State, j: nat)
    requires c.Valid() && InvLog(c, s) && InvDisk(c, s) && s.phase == WriteLog(|s.lh|) && j < |s.lh|
    ensures c.g.Home(s.lh[j]) && s.disk[c.g.start + 1 + j] == Apply(c.init, s.history)[s.lh[j]]
  {
    hide Apply, Open, Reserved, WordAt, ReadHeader, LogicalAt;
  }

  // ---- group commit ----

  /** A commit runs alone: no operation is in progress, none can start, nothing can be
      logged, not even by a process that has passed log_write's tests before. The panics in
      end_op and log_write are unreachable for a process that keeps to begin_op/end_op, whoever
      has passed the tests can append, and what has been committed consists of whole operations. */
  lemma GroupCommit(c: Config, s: State)
    requires c.Valid() && Reachable(c, s)
    ensures s.outstanding == |s.ops|
    ensures s.committing ==> s.outstanding == 0
    ensures s.committing ==> forall p :: !CanBeginOp(s, p) && !CanEndOp(s, p) && !CanAppend(s, p)
    ensures s.committing ==> forall p, b :: !CanLogTest(c, s, p, b)
    ensures forall p | p in s.ops :: !s.committing && s.outstanding >= 1
    ensures forall p | p in s.passed :: CanAppend(s, p)
    ensures s.committed <= |s.history| && Open(s.history[..s.committed]) == {}
  {
    ReachableOps(c, s);
    hide Open, Reserved, Reachable;
    forall p | p in s.passed ensures CanAppend(s, p) {
      assert Admitted(c, s, p);
    }
    forall p | p in s.ops ensures s.outstanding >= 1 {
      assert |s.ops| == |s.ops - {p}| + 1;
    }
  }

  /** The end of a commit leaves the log empty and nothing outstanding, so that whoever waits in
      begin_op then passes the reservation test. */
  lemma CommitAdmits(c: Config, s: State, p: Pid)
    requires c.Valid() && Reachable(c, s) && CanFinishCommit(s)
    ensures CanBeginOp(Next(c, s, FinishCommit), p)
  {
    ReachableOps(c, s);
  }

  // ---- the last end_op commits ----

  lemma {:induction false} RunWrites(c: Config, states: seq<State>, steps: seq<Step>, i: nat)
    requires c.Valid() && IsRun(c, states, steps) && i < |states|
    ensures InvWrites(states[i])
  {
    hide InvOps, InvHeld, Enabled, Next, Bootable;
    RunStarts(c, states, steps);
    if i > 0 {
      RunWrites(c, states, steps, i - 1);
      RunOps(c, states, steps, i - 1);
      RunStep(c, states, steps, i - 1);
      hide *;
      WritesStep(c, states[i - 1], steps[i - 1]);
    }
  }

  /** The end_op after which nobody is in an operation starts a commit of everything logged, and no
      other does; nothing else changes. */
  lemma EndOpCommits(c: Config, s: State, p: Pid)
    requires c.Valid() && Reachable(c, s) && Enabled(c, s, EndOp(p))
    ensures var s' := Next(c, s, EndOp(p));
            && s'.ops == s.ops - {p} && (s'.committing <==> s.ops.Keys == {p})
            && (s'.committing ==> s'.phase == WriteLog(0) && s'.agent == p)
            && (!s'.committing ==> s'.phase == s.phase == Idle)
            && s'.lh == s.lh && s'.disk == s.disk && s'.cache == s.cache && s'.committed == s.committed
  {
    ReachableOps(c, s);
    hide Reachable, Open, Reserved, NoRepeats, InvHeld;
    assert |s.ops - {p}| == |s.ops| - 1;
    assert (s.ops - {p}).Keys == s.ops.Keys - {p};
    assert s.ops - {p} == map[] <==> s.ops.Keys == {p};
  }

  /** A commit of an empty log is over before it writes anything. */
  lemma EmptyCommit(c: Config, s: State)
    requires c.Valid() && Reachable(c, s) && s.committing && s.lh == [] && s.phase == WriteLog(0)
    ensures Enabled(c, s, FinishCommit) && !Enabled(c, s, CopyToLog) && !Enabled(c, s, WriteHead)
    ensures !Enabled(c, s, InstallOne) && !Enabled(c, s, ClearHead)
  {
    hide Reachable, WordAt, WriteHeader;
  }

  /** With nobody in an operation and no commit under way the log is empty and no write is left
      that has not been committed, whatever the size of the log area. */
  lemma QuietIsCommitted(c: Config, s: State)
    requires c.Valid() && Reachable(c, s) && !s.booting && !s.committing && s.outstanding == 0
    ensures s.lh == [] && s.committed <= |s.history|
    ensures forall i | s.committed <= i < |s.history| :: !s.history[i].Wrote?
    ensures Apply(c.init, s.history[..s.committed]) == Apply(c.init, s.history)
  {
    ReachableOps(c, s);
    var states: seq<State>, steps: seq<Step> :| IsRun(c, states, steps) && states[|steps|] == s;
    RunWrites(c, states, steps, |steps|);
    hide IsRun, Reachable, Open, Reserved, InvHeld;
    ApplyQuiet(c.init, s.history, s.committed);
  }

  lemma {:induction false} ApplyQuiet(init: seq<Block>, h: seq<Event>, n: nat)
    requires n <= |h| && forall i | n <= i < |h| :: !h[i].Wrote?
    ensures Apply(init, h[..n]) == Apply(init, h)
  {
    if n == |h| {
      assert h[..n] == h;
    } else {
      var k := |h| - 1;
      ApplyQuiet(init, h[..k], n);
      assert h[..k][..n] == h[..n];
    }
  }

  /** Then every logged write of the history is on disk, in its place. */
  lemma QuietIsDurable(c: Config, s: State, b: nat)
    requires c.Valid() && c.g.Ample() && Reachable(c, s) && c.g.Home(b)
    requires !s.booting && !s.committing && s.outstanding == 0
    ensures b < |s.disk| == |c.init| && s.disk[b] == Apply(c.init, s.history)[b]
  {
    QuietIsCommitted(c, s);
    ReachableInv(c, s);
    hide Reachable, InvCache, InvHeld, Apply, ReadHeader, WordAt;
  }

  /** And a crash at that moment loses none of them, however often recovery crashes. */
  lemma QuietSurvivesCrash(c: Config, states: seq<State>, steps: seq<Step>, k: nat, m: nat, b: nat)
    requires c.Valid() && c.g.Ample() && IsRun(c, states, steps) && k < m < |states| && steps[k].Crash? && c.g.Home(b)
    requires !states[k].booting && !states[k].committing && states[k].outstanding == 0
    requires (forall i | k < i < m :: states[i].booting) && !states[m].booting
    ensures b < |states[m].disk| == |c.init| && states[m].disk[b] == Apply(c.init, states[k].history)[b]
  {
    RunReaches(c, states, steps, k);
    QuietIsCommitted(c, states[k]);
    RecoveryRestoresCommitted(c, states, steps, k, m, b);
    hide IsRun, Reachable, Apply;
  }

  // ---- what can happen when ----

  /** The machine may crash at any moment, recovery included: the disk stays, memory is gone. */
  lemma CrashAnywhere(c: Config, s: State, p: Pid)
    requires c.Valid() && Reachable(c, s)
    ensures Enabled(c, s, Crash(p)) && s.committed <= |s.history|
    ensures var s' := Next(c, s, Crash(p));
            && s'.booting && s'.disk == s.disk && s'.cache == map[] && s'.lh == [] && s'.ops == map[]
            && s'.history == s.history[..s.committed]
  {
    hide Reachable, Open, Reserved, NoRepeats, InvHeld, CanGet, CanCopyToLog, CanWriteHead, CanInstall, CanClearHead;
    ReachableOps(c, s);
  }

  /** A cached block can be referenced by everybody who has no reference yet, and its sleep-lock taken
      by every user when nobody has it; who has passed log_write's tests can append; and an operation
      can end unless it is inside log_write or holds a change that has not been logged. */
  lemma WhoCanGoOn(c: Config, s: State, p: Pid, b: nat)
    requires c.Valid() && Reachable(c, s) && !s.booting && b < c.g.size
    ensures b in s.cache ==> (Enabled(c, s, Get(p, b, None)) <==> p !in s.cache[b].users)
    ensures b in s.cache ==> (Enabled(c, s, Lock(p, b)) <==> p in s.cache[b].users && s.cache[b].holder == None)
    ensures Enabled(c, s, Append(p)) <==> p in s.passed
    ensures Enabled(c, s, EndOp(p)) <==>
              && p in s.ops && p !in s.passed
              && !exists d :: d in s.cache && s.cache[d].holder == Some(p) && s.cache[d].touched
  {
    hide Reachable, Open, Reserved, CanCopyToLog, CanWriteHead, CanInstall, CanClearHead;
    GroupCommit(c, s);
  }

  // ---- reservation ----

  /** begin_op lets a process in exactly when no commit is under way and the log has room for the
      blocks it holds and MAXOPBLOCKS for everybody inside, the newcomer included. */
  lemma AdmissionIs(c: Config, s: State, p: Pid)
    requires c.Valid() && Reachable(c, s) && !s.booting && p !in s.ops
    ensures Enabled(c, s, BeginOp(p)) <==> !s.committing && |s.lh| + (|s.ops| + 1) * MAXOPBLOCKS <= LOGSIZE
    ensures |s.ops| * MAXOPBLOCKS <= LOGSIZE
  {
    ReachableOps(c, s);
  }

  /** The header in memory never overflows, and its entries are distinct home blocks. */
  lemma ReservationHolds(c: Config, s: State)
    requires c.Valid() && Reachable(c, s) && !s.booting
    ensures |s.lh| + Reserved(s.ops) <= LOGSIZE && Reserved(s.ops) >= 0
    ensures NoRepeats(s.lh) && forall b | b in s.lh :: c.g.Home(b)
  {
    ReachableOps(c, s);
    ReservedNonNegative(s.ops);
  }

  /** An operation within its budget that logs a fresh block never meets the LOGSIZE guard;
      it panics exactly when the on-disk log is too small for what is already logged. */
  lemma FreshBlockFits(c: Config, s: State, p: Pid, b: nat)
    requires c.Valid() && Reachable(c, s) && p in s.ops && b !in s.lh && s.ops[p] < MAXOPBLOCKS
    ensures |s.lh| < LOGSIZE
    ensures LogWritePanics(c, s) <==> |s.lh| >= c.g.nlog - 1
    ensures c.g.nlog > LOGSIZE ==> !LogWritePanics(c, s)
  {
    ReachableOps(c, s);
    GroupCommit(c, s);
    hide Open, Reachable;
    ReservedSplit(s.ops, p);
    ReservedNonNegative(s.ops - {p});
  }

  /** An absorbed write needs no room, but meets the same tests. */
  lemma AbsorptionPanics(c: Config, s: State, p: Pid, b: nat)
    requires c.Valid() && Reachable(c, s) && p in s.ops && b in s.lh
    ensures LogWritePanics(c, s) <==> |s.lh| == LOGSIZE || |s.lh| >= c.g.nlog - 1
  {
    ReachableOps(c, s);
    ReservedNonNegative(s.ops);
    GroupCommit(c, s);
  }

  /** Between the tests and the append others may append. In an ample log area that makes no
      difference: the log still fits it, but for the one case in which it has as many blocks as
      there are buffers and the area has no more. */
  lemma AppendFits(c: Config, s: State, p: Pid)
    requires c.Valid() && c.g.Ample() && Reachable(c, s) && CanAppend(s, p)
    ensures var n := |Next(c, s, Append(p)).lh|; n < c.g.nlog || n == c.g.nlog == LOGSIZE
  {
    ReachableOps(c, s);
    StepFits(c, s, Append(p));
    AppendOps(c, s, p);
    ReservedNonNegative(DoAppend(s, p).ops);
    hide Reachable, Open, Reserved;
  }

  // ---- buffers ----

  function ReferencedBlocks(s: State): set<nat> {
    set b | b in s.cache && s.cache[b].users != {}
  }

  /** The logged blocks that are not installed yet. */
  function PinnedBlocks(s: State): set<nat> {
    if s.booting then {}
    else if s.phase.Install? && s.phase.i <= |s.lh| then Elements(s.lh[s.phase.i..])
    else Elements(s.lh)
  }

  lemma PinnedBlocksAre(c: Config, s: State)
    requires Inv(c, s)
    ensures forall b: nat :: b in PinnedBlocks(s) <==> Pinned(s, b)
    ensures forall b | b in PinnedBlocks(s) :: b in s.cache && s.cache[b].dirty
    ensures forall b | b in s.cache && s.cache[b].dirty :: b in PinnedBlocks(s)
  {
    hide InvDisk, Open, Reserved;
    forall b: nat ensures b in PinnedBlocks(s) <==> Pinned(s, b) {
      if s.phase.Install? && Pinned(s, b) {
        var j :| 0 <= j < |s.lh| && s.lh[j] == b && s.phase.i <= j;
        assert s.lh[s.phase.i..][j - s.phase.i] == b;
      }
    }
  }

  /** The blocks whose buffers bget may not recycle. */
  function BusyBlocks(s: State): set<nat> {
    PinnedBlocks(s) + ReferencedBlocks(s)
  }

  lemma BusyBlocksAre(c: Config, s: State)
    requires Inv(c, s)
    ensures BusyBlocks(s) <= s.cache.Keys && |s.cache| <= NBUF
    ensures forall b | b in s.cache :: b in BusyBlocks(s) <==> s.cache[b].users != {} || s.cache[b].dirty
  {
    PinnedBlocksAre(c, s);
    hide InvLog, InvDisk, PinnedBlocks, LineOk;
  }

  lemma SpareLine(c: Config, s: State, p: Pid, b: nat, busy: set<nat>)
    requires busy <= s.cache.Keys && |s.cache| <= NBUF
    requires forall v | v in s.cache :: v in busy <==> s.cache[v].users != {} || s.cache[v].dirty
    requires (s.booting ==> p == s.agent) && b < c.g.size && b !in s.cache
    ensures (exists victim :: CanGet(c, s, p, b, victim)) <==> |busy| < NBUF
  {
    assert |s.cache.Keys| == |s.cache|;
    SubsetSize(busy, s.cache.Keys);
    ProperSubsetSize(busy, s.cache.Keys);
    if |s.cache| < NBUF {
      assert CanGet(c, s, p, b, None);
    } else if |busy| < NBUF {
      var v :| v in s.cache.Keys && v !in busy;
      assert CanGet(c, s, p, b, Some(v));
    }
  }

  /** bget of a block that is not cached finds a buffer if and only if the blocks that are pinned
      or referenced are fewer than the buffers; otherwise it panics. */
  lemma BgetFindsBuffer(c: Config, s: State, p: Pid, b: nat)
    requires c.Valid() && c.g.Ample() && Reachable(c, s) && (s.booting ==> p == s.agent)
    requires b < c.g.size && b !in s.cache
    ensures (exists victim :: CanGet(c, s, p, b, victim)) <==> |PinnedBlocks(s) + ReferencedBlocks(s)| < NBUF
  {
    ReachableInv(c, s);
    hide Reachable, Inv, PinnedBlocks, ReferencedBlocks;
    BusyBlocksAre(c, s);
    SpareLine(c, s, p, b, BusyBlocks(s));
  }

  /** LOGSIZE == NBUF: a full log leaves no buffer at all until it is installed. */
  lemma FullLogExhaustsCache(c: Config, s: State, p: Pid, b: nat, victim: Option<nat>)
    requires c.Valid() && c.g.Ample() && Reachable(c, s) && !s.booting && (s.phase.Idle? || s.phase.WriteLog?)
    requires |s.lh| == NBUF && b !in s.cache
    ensures !CanGet(c, s, p, b, victim)
  {
    LoggedAreDirty(c, s);
    ElementsSize(s.lh);
    SubsetSize(Elements(s.lh), PinnedBlocks(s) + ReferencedBlocks(s));
    if b < c.g.size {
      BgetFindsBuffer(c, s, p, b);
    }
  }

  /** A log of NBUF blocks that has not been written to disk. */
  predicate Stuck(s: State) {
    !s.booting && (s.phase.Idle? || s.phase.WriteLog?) && |s.lh| == NBUF
  }

  /** Its blocks fill the cache, so that no log block can be read in, nor the header. */
  lemma StuckStep(c: Config, s: State, step: Step)
    requires c.Valid() && c.g.Ample() && Reachable(c, s) && Stuck(s) && Enabled(c, s, step) && !step.Crash?
    ensures var s' := Next(c, s, step);
            Stuck(s') && s'.lh == s.lh && s'.committed == s.committed && (s.committing ==> s'.committing)
  {
    hide Reachable, Enabled, Next;
    StuckLines(c, s);
    StuckAgent(c, s, step);
    StuckOthers(c, s, step);
  }

  lemma StuckLines(c: Config, s: State)
    requires c.Valid() && c.g.Ample() && Reachable(c, s) && Stuck(s)
    ensures c.g.nlog >= 2 && (s.phase == Idle || s.phase == WriteLog(0))
    ensures forall b | b in s.cache :: b in s.lh && c.g.Home(b)
  {
    hide Reachable, InvCache, InvDisk, InvHeld, InvOps;
    ReachableInv(c, s);
    LoggedAreDirty(c, s);
    ReservationHolds(c, s);
    ElementsSize(s.lh);
    assert Elements(s.lh) <= s.cache.Keys && |s.cache.Keys| == |s.cache|;
    SubsetSize(Elements(s.lh), s.cache.Keys);
    ProperSubsetSize(Elements(s.lh), s.cache.Keys);
    forall b | b in s.cache ensures b in s.lh && c.g.Home(b) {
      assert b in s.cache.Keys;
    }
  }

  /** The committing process gets no log block, and not the header. */
  lemma StuckAgent(c: Config, s: State, step: Step)
    requires c.Valid() && Stuck(s) && Enabled(c, s, step) && forall b | b in s.cache :: c.g.Home(b)
    requires c.g.nlog >= 2 && (s.phase == Idle || s.phase == WriteLog(0))
    ensures !step.CopyToLog? && !step.WriteHead? && !step.InstallOne? && !step.ClearHead? && !step.FinishCommit? &&
            !step.ReadLogHead? && !step.FinishBoot?
  {
  }

  lemma StuckOthers(c: Config, s: State, step: Step)
    requires Stuck(s) && Enabled(c, s, step) && !step.Crash? && forall b | b in s.cache :: b in s.lh
    requires !step.CopyToLog? && !step.WriteHead? && !step.InstallOne? && !step.ClearHead? && !step.FinishCommit? &&
             !step.ReadLogHead? && !step.FinishBoot?
    ensures var s' := Next(c, s, step);
            Stuck(s') && s'.lh == s.lh && s'.committed == s.committed && (s.committing ==> s'.committing)
  {
    hide CanCopyToLog, CanWriteHead, CanInstall, CanClearHead, CanReadHead, CanFinishCommit;
  }

  /** Once the log is full it is never committed: short of a crash, every run keeps it full and
      commits nothing. */
  lemma {:induction false} FullLogNeverCommits(c: Config, states: seq<State>, steps: seq<Step>, j: nat, k: nat)
    requires c.Valid() && c.g.Ample() && IsRun(c, states, steps) && j <= k < |states| && Stuck(states[j])
    requires forall i | j <= i < k :: !steps[i].Crash?
    ensures Stuck(states[k]) && states[k].lh == states[j].lh && states[k].committed == states[j].committed
  {
    hide *;
    if j < k {
      FullLogNeverCommits(c, states, steps, j, k - 1);
      RunReaches(c, states, steps, k - 1);
      RunStep(c, states, steps, k - 1);
      StuckStep(c, states[k - 1], steps[k - 1]);
    }
  }

  lemma RunReaches(c: Config, states: seq<State>, steps: seq<Step>, i: nat)
    requires c.Valid() && IsRun(c, states, steps) && i < |states|
    ensures |states| == |steps| + 1 && Reachable(c, states[i])
  {
    hide Starts, Enabled, Next;
    assert IsRun(c, states[..i + 1], steps[..i]) && states[..i + 1][|steps[..i]|] == states[i];
  }

  // ---- crash atomicity ----

  /** At every moment of every run, what the log and the disk mean together is the effect of
      the committed part of the history. */
  lemma DiskMeansCommitted(c: Config, s: State, b: nat)
    requires c.Valid() && c.g.Ample() && Reachable(c, s) && c.g.Home(b)
    ensures |s.disk| == c.g.size && |DiskHeader(c, s.disk)| < c.g.nlog && s.committed <= |s.history|
    ensures LogicalAt(c.g, s.disk, DiskHeader(c, s.disk), b) == Apply(c.init, s.history[..s.committed])[b]
  {
    ReachableInv(c, s);
  }

  lemma RunStep(c: Config, states: seq<State>, steps: seq<Step>, i: nat)
    requires c.Valid() && IsRun(c, states, steps) && i < |steps|
    ensures Enabled(c, states[i], steps[i]) && states[i + 1] == Next(c, states[i], steps[i])
  {
  }

  lemma BootingKeepsHistory(c: Config, s: State, step: Step)
    requires Inv(c, s) && s.booting && Enabled(c, s, step)
    ensures var s' := Next(c, s, step);
            s'.history == s.history && s'.committed == s.committed == |s.history| && (!s'.booting ==> s'.phase == Idle)
  {
    hide InvCache, InvDisk;
    assert s.history[..|s.history|] == s.history;
  }

  lemma CrashKeepsCommitted(c: Config, s: State, step: Step)
    requires Inv(c, s) && step.Crash? && Enabled(c, s, step)
    ensures var s' := Next(c, s, step);
            s.committed <= |s.history| && s'.history == s.history[..s.committed] && s'.committed == s.committed &&
              s'.booting
  {
    hide InvCache, InvDisk;
  }

  lemma UpMeansHistoryOnDisk(c: Config, s: State, b: nat)
    requires Inv(c, s) && s.phase == Idle && s.committed == |s.history| && c.g.Home(b)
    ensures b < |s.disk| == |c.init| && s.disk[b] == Apply(c.init, s.history)[b]
  {
    assert s.history[..|s.history|] == s.history;
  }

  /** From the crash on, while the machine is booting, the history is what was committed. */
  lemma {:induction false} BootingRun(c: Config, states: seq<State>, steps: seq<Step>, k: nat, i: nat)
    requires c.Valid() && c.g.Ample() && IsRun(c, states, steps) && k < i < |states| && steps[k].Crash?
    requires forall n | k < n < i :: states[n].booting
    ensures states[k].committed <= |states[k].history|
    ensures states[i].history == states[k].history[..states[k].committed] && states[i].committed == states[k].committed
    ensures !states[i].booting ==> states[i].phase == Idle
  {
    var j := i - 1;
    RunInv(c, states, steps, j);
    RunStep(c, states, steps, j);
    hide IsRun, Inv, Enabled, Next;
    if j == k {
      CrashKeepsCommitted(c, states[k], steps[k]);
    } else {
      BootingRun(c, states, steps, k, j);
      BootingKeepsHistory(c, states[j], steps[j]);
    }
  }

  /** However often recovery itself crashes, the first one that completes leaves every home
      block on disk with the contents committed at the original crash. */
  lemma RecoveryRestoresCommitted(c: Config, states: seq<State>, steps: seq<Step>, k: nat, m: nat, b: nat)
    requires c.Valid() && c.g.Ample() && IsRun(c, states, steps) && k < m < |states| && steps[k].Crash? && c.g.Home(b)
    requires forall i | k < i < m :: states[i].booting
    requires !states[m].booting
    ensures states[k].committed <= |states[k].history| && b < |states[m].disk| == |c.init|
    ensures states[m].disk[b] == Apply(c.init, states[k].history[..states[k].committed])[b]
    ensures states[m].history == states[k].history[..states[k].committed]
  {
    BootingRun(c, states, steps, k, m);
    RunInv(c, states, steps, m);
    hide IsRun, Inv;
    UpMeansHistoryOnDisk(c, states[m], b);
  }

  /** initlog on any disk with a well-formed log, and however often it crashes: the first time that it
      completes, every home block is as the log on that disk says. */
  lemma FirstRecovery(c: Config, states: seq<State>, steps: seq<Step>, m: nat, b: nat)
    requires c.Valid() && c.g.Ample() && IsRun(c, states, steps) && m < |states| && c.g.Home(b)
    requires (forall i | 0 <= i < m :: states[i].booting) && 0 < m && !states[m].booting
    ensures |states[0].disk| == |states[m].disk| == c.g.size && |DiskHeader(c, states[0].disk)| < c.g.nlog
    ensures states[m].disk[b] == LogicalAt(c.g, states[0].disk, DiskHeader(c, states[0].disk), b)
  {
    StillBooting(c, states, steps, m);
    RunInv(c, states, steps, m);
    RunInv(c, states, steps, 0);
    DiskMeans(c, states[0], b);
    UpMeansHistoryOnDisk(c, states[m], b);
    hide IsRun, Inv, LogicalAt, DiskHeader;
  }

  lemma DiskMeans(c: Config, s: State, b: nat)
    requires Inv(c, s) && c.g.Home(b)
    ensures |s.disk| == c.g.size && |DiskHeader(c, s.disk)| < c.g.nlog && s.committed <= |s.history|
    ensures LogicalAt(c.g, s.disk, DiskHeader(c, s.disk), b) == Apply(c.init, s.history[..s.committed])[b]
  {
  }

  lemma {:induction false} StillBooting(c: Config, states: seq<State>, steps: seq<Step>, i: nat)
    requires c.Valid() && c.g.Ample() && IsRun(c, states, steps) && i < |states|
    requires forall n | 0 <= n < i :: states[n].booting
    requires i == 0 ==> states[0].booting
    ensures states[i].history == [] && states[i].committed == 0 && (!states[i].booting ==> states[i].phase == Idle)
  {
    if i > 0 {
      var j := i - 1;
      StillBooting(c, states, steps, j);
      RunInv(c, states, steps, j);
      RunStep(c, states, steps, j);
      hide IsRun, Inv, Enabled, Next;
      BootingKeepsHistory(c, states[j], steps[j]);
    }
  }

  /** While a commit is under way the history stands still, and the commit point moves to
      its end exactly at the header write. */
  lemma CommitStep(c: Config, s: State, step: Step)
    requires Inv(c, s) && s.committing && Enabled(c, s, step) && Next(c, s, step).committing
    ensures var s' := Next(c, s, step);
            s'.history == s.history && s'.committed == if step == WriteHead then |s.history| else s.committed
  {
    hide InvCache, InvDisk;
  }

  predicate HeaderWritten(steps: seq<Step>, j: nat, k: nat)
    requires j <= k <= |steps|
  {
    exists i | j <= i < k :: steps[i] == WriteHead
  }

  lemma {:induction false} CommitRun(c: Config, states: seq<State>, steps: seq<Step>, j: nat, k: nat)
    requires c.Valid() && c.g.Ample() && IsRun(c, states, steps) && j <= k < |states|
    requires forall i | j <= i <= k :: states[i].committing
    ensures states[k].history == states[j].history
    ensures states[k].committed == if HeaderWritten(steps, j, k) then |states[j].history| else states[j].committed
  {
    hide IsRun, Inv, Enabled, Next, Starts, Init;
    RunStarts(c, states, steps);
    if j < k {
      CommitRun(c, states, steps, j, k - 1);
      RunInv(c, states, steps, k - 1);
      RunStep(c, states, steps, k - 1);
      CommitStep(c, states[k - 1], steps[k - 1]);
      HeaderWrittenSplit(steps, j, k - 1);
    }
  }

  lemma HeaderWrittenSplit(steps: seq<Step>, j: nat, k: nat)
    requires j <= k < |steps|
    ensures HeaderWritten(steps, j, k + 1) == (HeaderWritten(steps, j, k) || steps[k] == WriteHead)
  {
  }

  /** Crash atomicity. A commit is in progress at step j and the machine crashes at step k,
      before the commit is over; recovery may crash again any number of times and is over at
      m. Then the home blocks are all new if the header reached the disk between j and k,
      and all as they were committed before otherwise. */
  lemma CrashAtomicity(c: Config, states: seq<State>, steps: seq<Step>, j: nat, k: nat, m: nat, b: nat)
    requires c.Valid() && c.g.Ample() && IsRun(c, states, steps) && j <= k < m < |states| && c.g.Home(b)
    requires forall i | j <= i <= k :: states[i].committing
    requires steps[k].Crash? && (forall i | k < i < m :: states[i].booting) && !states[m].booting
    ensures states[j].committed <= |states[j].history| && b < |states[m].disk| == |c.init|
    ensures states[m].disk[b] ==
              if HeaderWritten(steps, j, k) then Apply(c.init, states[j].history)[b]
              else Apply(c.init, states[j].history[..states[j].committed])[b]
  {
    CommitRun(c, states, steps, j, k);
    RecoveryRestoresCommitted(c, states, steps, k, m, b);
    RunInv(c, states, steps, j);
    var h := states[j].history;
    assert h[..|h|] == h;
    hide IsRun, Apply, InvCache, InvDisk;
  }
}
