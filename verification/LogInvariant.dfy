/** Every step of the log and the cache keeps their invariant. Who is in an operation and who
    holds what is kept whatever the size of the log area (OpsStep, HeldStep); what the disk means
    is kept as long as the log fits it (StepInv), which an ample one always does (StepFits). */
module LogInvariant {
  import opened Blocks
  import opened LogFormat
  import opened LogSystem
  import opened Params
  import opened Sets

  lemma InitInv(c: Config, s: State)
    requires c.Valid() && Starts(c, s)
    ensures Inv(c, s)
  {
    hide ReadHeader, WordAt, LastIndex;
    assert Reserved(s.ops) == 0;
    assert forall x: nat :: !Pinned(s, x);
  }

  // ---- operations and locks, for every size of the log area ----

  lemma HistoryGrows(c: Config, s: State, e: Event)
    requires s.committed <= |s.history|
    ensures (s.history + [e])[..s.committed] == s.history[..s.committed]
    ensures e.Begin? ==> Open(s.history + [e]) == Open(s.history) + {e.p}
    ensures e.End? ==> Open(s.history + [e]) == Open(s.history) - {e.p}
    ensures e.Wrote? ==> Open(s.history + [e]) == Open(s.history)
  {
    Extend(c.init, s.history, e);
  }

  lemma BeginOpOps(c: Config, s: State, p: Pid)
    requires InvOps(c, s) && CanBeginOp(s, p)
    ensures InvOps(c, DoBeginOp(s, p))
  {
    hide Reserved, Open, NoRepeats;
    HistoryGrows(c, s, Begin(p));
    ReservedBegin(s.ops, p);
  }

  lemma EndOpOps(c: Config, s: State, p: Pid)
    requires InvOps(c, s) && CanEndOp(s, p)
    ensures InvOps(c, DoEndOp(s, p))
  {
    hide Reserved, Open, NoRepeats;
    HistoryGrows(c, s, End(p));
    ReservedEnd(s.ops, p);
  }

  lemma Absorbed(g: Geometry, h: seq<nat>, b: nat)
    requires NoRepeats(h) && g.Entries(h) && g.Home(b)
    ensures |Absorb(h, b)| <= LOGSIZE ==> g.Entries(Absorb(h, b))
    ensures NoRepeats(Absorb(h, b)) && |Absorb(h, b)| == |h| + if b in h then 0 else 1
    ensures forall x :: x in Absorb(h, b) <==> x in h || x == b
  {
    assert b !in h ==> (h + [b])[|h|] == b;
  }

  lemma AppendOps(c: Config, s: State, p: Pid)
    requires InvOps(c, s) && InvHeld(c, s) && CanAppend(s, p)
    ensures InvOps(c, DoAppend(s, p)) && !s.booting && !s.committing
  {
    hide Reserved, Open, NoRepeats, Absorb;
    var b := s.passed[p];
    assert Admitted(c, s, p);
    Absorbed(c.g, s.lh, b);
    HistoryGrows(c, s, Wrote(p, b, s.cache[b].data));
    ReservedUpdate(s.ops, p, s.ops[p] + if b in s.lh then 0 else 1);
    var ops := s.ops[p := s.ops[p] + if b in s.lh then 0 else 1];
    assert ops.Keys == s.ops.Keys;
    ReservedNonNegative(ops);
  }

  lemma CrashOps(c: Config, s: State, p: Pid)
    requires InvOps(c, s)
    ensures InvOps(c, DoCrash(s, p))
  {
    var s' := DoCrash(s, p);
    assert s'.history[..s'.committed] == s'.history;
  }

  lemma OpsStep(c: Config, s: State, step: Step)
    requires c.Valid() && InvOps(c, s) && InvHeld(c, s) && Enabled(c, s, step)
    ensures InvOps(c, Next(c, s, step))
  {
    hide Reserved, Open, NoRepeats, InvOps, InvHeld;
    match step
    case BeginOp(p) => BeginOpOps(c, s, p);
    case EndOp(p) => EndOpOps(c, s, p);
    case Append(p) => AppendOps(c, s, p);
    case Crash(p) => CrashOps(c, s, p);
    case Get(_, _, _) => BufferOps(c, s, step);
    case Lock(_, _) => BufferOps(c, s, step);
    case Fill(_, _) => BufferOps(c, s, step);
    case Modify(_, _, _) => BufferOps(c, s, step);
    case LogTest(_, _) => BufferOps(c, s, step);
    case Unlock(_, _) => BufferOps(c, s, step);
    case Put(_, _) => BufferOps(c, s, step);
    case _ => AgentOps(c, s, step);
  }

  lemma BufferOps(c: Config, s: State, step: Step)
    requires InvOps(c, s) && Enabled(c, s, step)
    requires step.Get? || step.Lock? || step.Fill? || step.Modify? || step.LogTest? || step.Unlock? || step.Put?
    ensures InvOps(c, Next(c, s, step))
  {
    var s' := Next(c, s, step);
    assert s' == s.(cache := s'.cache, passed := s'.passed);
    hide Reserved, Open, NoRepeats, Enabled, Next;
  }

  /** The steps of the committing or recovering process. */
  lemma AgentOps(c: Config, s: State, step: Step)
    requires InvOps(c, s) && Enabled(c, s, step)
    requires step.CopyToLog? || step.WriteHead? || step.InstallOne? || step.ClearHead? || step.FinishCommit? ||
             step.ReadLogHead? || step.FinishBoot?
    ensures InvOps(c, Next(c, s, step))
  {
    hide Reserved, Open, NoRepeats, WriteHeader, ReadHeader, WordAt;
    assert s.history[..|s.history|] == s.history;
    EmptyReserved();
  }

  lemma EmptyReserved()
    ensures Reserved(map[]) == 0 && NoRepeats<nat>([])
  {
  }

  lemma AppendHeld(c: Config, s: State, p: Pid)
    requires InvHeld(c, s) && CanAppend(s, p)
    ensures InvHeld(c, DoAppend(s, p))
  {
    var s' := DoAppend(s, p);
    forall q | q in s'.passed ensures Admitted(c, s', q) {
      assert Admitted(c, s, q);
    }
  }

  lemma BufferHeld(c: Config, s: State, step: Step)
    requires InvHeld(c, s) && Enabled(c, s, step)
    requires step.Lock? || step.Fill? || step.Modify? || step.LogTest? || step.Unlock? || step.Put?
    ensures InvHeld(c, Next(c, s, step))
  {
    var s' := Next(c, s, step);
    forall q | q in s'.passed ensures Admitted(c, s', q) {
      assert q in s.passed ==> Admitted(c, s, q);
    }
  }

  lemma GetHeld(c: Config, s: State, p: Pid, b: nat, victim: Option<nat>)
    requires InvHeld(c, s) && CanGet(c, s, p, b, victim)
    ensures InvHeld(c, DoGet(s, p, b, victim))
  {
    var s' := DoGet(s, p, b, victim);
    forall q | q in s'.passed ensures Admitted(c, s', q) {
      assert Admitted(c, s, q);
    }
  }

  lemma OpsHeld(c: Config, s: State, step: Step)
    requires InvHeld(c, s) && Enabled(c, s, step) && (step.BeginOp? || step.EndOp?)
    ensures InvHeld(c, Next(c, s, step))
  {
    hide Open;
    var s' := Next(c, s, step);
    forall q | q in s'.passed ensures Admitted(c, s', q) {
      assert Admitted(c, s, q);
    }
  }

  /** Nobody has passed the tests while a commit or a recovery is under way. */
  lemma NonePassed(c: Config, s: State)
    requires InvHeld(c, s) && s.ops == map[]
    ensures s.passed == map[]
  {
    assert forall p | p in s.passed :: Admitted(c, s, p);
  }

  lemma AgentHeld(c: Config, s: State, step: Step)
    requires InvOps(c, s) && InvHeld(c, s) && Enabled(c, s, step)
    requires step.CopyToLog? || step.WriteHead? || step.InstallOne? || step.ClearHead? || step.FinishCommit? ||
             step.ReadLogHead? || step.FinishBoot? || step.Crash?
    ensures InvHeld(c, Next(c, s, step))
  {
    hide Reserved, Open, NoRepeats, WriteHeader, ReadHeader, WordAt;
    if !step.Crash? {
      NonePassed(c, s);
    }
    hide Geometry.Entries;
  }

  lemma HeldStep(c: Config, s: State, step: Step)
    requires c.Valid() && InvOps(c, s) && InvHeld(c, s) && Enabled(c, s, step)
    ensures InvHeld(c, Next(c, s, step))
  {
    hide InvOps, InvHeld;
    match step
    case BeginOp(_) => OpsHeld(c, s, step);
    case EndOp(_) => OpsHeld(c, s, step);
    case Append(p) => AppendHeld(c, s, p);
    case Get(p, b, victim) => GetHeld(c, s, p, b, victim);
    case Lock(_, _) => BufferHeld(c, s, step);
    case Fill(_, _) => BufferHeld(c, s, step);
    case Modify(_, _, _) => BufferHeld(c, s, step);
    case LogTest(_, _) => BufferHeld(c, s, step);
    case Unlock(_, _) => BufferHeld(c, s, step);
    case Put(_, _) => BufferHeld(c, s, step);
    case _ => AgentHeld(c, s, step);
  }

  lemma WritesStep(c: Config, s: State, step: Step)
    requires InvOps(c, s) && InvWrites(s) && Enabled(c, s, step)
    ensures InvWrites(Next(c, s, step))
  {
    hide Reserved, Open, NoRepeats, WriteHeader, ReadHeader, WordAt, Geometry.Entries;
  }

  // ---- buffers ----

  /** The log and disk invariants do not look at the cache, nor at who has passed the tests. */
  lemma CacheFrame(c: Config, s: State, s': State)
    requires c.Valid() && InvLog(c, s) && InvDisk(c, s) && s' == s.(cache := s'.cache, passed := s'.passed)
    ensures InvLog(c, s') && InvDisk(c, s')
  {
    hide WordAt, ReadHeader, LogicalAt, Apply, Open, Reserved, NoRepeats;
  }

  lemma InvParts(c: Config, s: State)
    requires Inv(c, s)
    ensures c.Valid() && InvOps(c, s) && InvHeld(c, s) && InvLog(c, s) && c.g.Entries(s.lh)
    ensures |s.disk| == |s.store| == c.g.size && s.committed <= |s.history| && InvCache(c, s) && InvDisk(c, s)
  {
  }

  /** Operations, locks and passed tests stay in order in every step. */
  lemma InvPeople(c: Config, s: State, step: Step)
    requires Inv(c, s) && Enabled(c, s, step)
    ensures InvOps(c, Next(c, s, step)) && InvHeld(c, Next(c, s, step))
  {
    hide *;
    InvParts(c, s);
    OpsStep(c, s, step);
    HeldStep(c, s, step);
  }

  lemma SetLineLines(c: Config, s: State, b: nat, l: Line)
    requires |s.disk| == |s.store| == c.g.size && InvCache(c, s) && b in s.cache && LineOk(c, s, b, l)
    ensures InvCache(c, SetLine(s, b, l))
  {
    var s' := SetLine(s, b, l);
    assert forall x: nat :: Pinned(s', x) == Pinned(s, x);
    hide Pinned;
    assert s'.cache.Keys == s.cache.Keys;
    assert |s'.cache.Keys| == |s'.cache|;
  }

  /** What a step does to one buffer leaves it in order. */
  lemma StepLine(c: Config, s: State, step: Step)
    requires |s.disk| == |s.store| == c.g.size && InvCache(c, s) && Enabled(c, s, step)
    requires step.Lock? || step.Fill? || step.Modify? || step.Unlock? || step.Put?
    ensures step.b in s.cache && step.b in Next(c, s, step).cache &&
            LineOk(c, s, step.b, Next(c, s, step).cache[step.b])
  {
    hide Pinned;
  }

  /** Reference counting, sleep-locks, filling from disk, and log_write's tests. */
  lemma BufferStepInv(c: Config, s: State, step: Step)
    requires Inv(c, s) && Enabled(c, s, step)
    requires step.Lock? || step.Fill? || step.Modify? || step.Unlock? || step.Put? || step.LogTest?
    ensures Inv(c, Next(c, s, step))
  {
    hide InvLog, InvDisk, InvHeld, InvCache, InvOps;
    var s' := Next(c, s, step);
    InvParts(c, s);
    InvPeople(c, s, step);
    CacheFrame(c, s, s');
    if step.LogTest? {
      LinesFrame(c, s, s');
    } else {
      StepLine(c, s, step);
      SetLineLines(c, s, step.b, s'.cache[step.b]);
    }
  }

  /** Recycling an unreferenced, clean buffer loses nothing. */
  lemma EvictLines(c: Config, s: State, v: nat)
    requires |s.disk| == |s.store| == c.g.size && InvCache(c, s) && v in s.cache && !s.cache[v].dirty
    ensures InvCache(c, s.(cache := s.cache - {v})) && |s.cache - {v}| < NBUF
  {
    assert forall x: nat :: Pinned(s.(cache := s.cache - {v}), x) == Pinned(s, x);
    assert |s.cache - {v}| == |s.cache| - 1;
  }

  lemma InsertLines(c: Config, s: State, b: nat, l: Line)
    requires |s.disk| == |s.store| == c.g.size && InvCache(c, s) && b !in s.cache && b < c.g.size && |s.cache| < NBUF
    requires !l.valid && !l.dirty && l.holder == None && !l.touched
    ensures InvCache(c, SetLine(s, b, l))
  {
    assert forall x: nat :: Pinned(SetLine(s, b, l), x) == Pinned(s, x);
  }

  lemma GetLines(c: Config, s: State, p: Pid, b: nat, victim: Option<nat>)
    requires |s.disk| == |s.store| == c.g.size && InvCache(c, s) && CanGet(c, s, p, b, victim)
    ensures InvCache(c, DoGet(s, p, b, victim))
  {
    var l := DoGet(s, p, b, victim).cache[b];
    if b in s.cache {
      assert LineOk(c, s, b, s.cache[b]);
      hide InvCache;
      SetLineLines(c, s, b, l);
    } else if victim.Some? {
      EvictLines(c, s, victim.value);
      hide InvCache;
      InsertLines(c, s.(cache := s.cache - {victim.value}), b, l);
    } else {
      hide InvCache;
      InsertLines(c, s, b, l);
    }
  }

  lemma GetInv(c: Config, s: State, p: Pid, b: nat, victim: Option<nat>)
    requires Inv(c, s) && CanGet(c, s, p, b, victim)
    ensures Inv(c, DoGet(s, p, b, victim))
  {
    hide InvLog, InvDisk, InvHeld, InvCache, InvOps;
    InvParts(c, s);
    InvPeople(c, s, Get(p, b, victim));
    GetLines(c, s, p, b, victim);
    CacheFrame(c, s, DoGet(s, p, b, victim));
  }

  // ---- operations ----

  /** An event that writes nothing changes nothing of what the log means. */
  lemma HistoryFrame(c: Config, s: State, s': State, e: Event)
    requires c.Valid() && |s.disk| == |s.store| == c.g.size && s.committed <= |s.history| && c.g.Entries(s.lh)
    requires InvDisk(c, s) && !s.booting && s.phase == Idle && !e.Wrote?
    requires s' == s.(history := s.history + [e], ops := s'.ops, outstanding := s'.outstanding,
                      committing := s'.committing, phase := s'.phase, agent := s'.agent)
    requires s'.phase == Idle || s'.phase == WriteLog(0)
    ensures InvDisk(c, s')
  {
    Extend(c.init, s.history, e);
    assert s'.history[..s.committed] == s.history[..s.committed];
  }

  /** Processes may come and go as long as none leaves while it holds a modified buffer. */
  lemma LinesFrame(c: Config, s: State, s': State)
    requires |s.disk| == |s.store| == c.g.size && InvCache(c, s)
    requires s'.disk == s.disk && s'.store == s.store && s'.cache == s.cache && s'.booting == s.booting
    requires s'.lh == s.lh || s.booting
    requires s'.phase == s.phase || (!s.phase.Install? && !s'.phase.Install?) || s.booting
    requires forall b | b in s.cache && s.cache[b].touched && s.cache[b].holder.Some? ::
               s.cache[b].holder.value in s.ops ==> s.cache[b].holder.value in s'.ops
    ensures InvCache(c, s')
  {
    assert forall b: nat :: Pinned(s', b) == Pinned(s, b);
  }

  lemma BeginOpInv(c: Config, s: State, p: Pid)
    requires Inv(c, s) && CanBeginOp(s, p)
    ensures Inv(c, DoBeginOp(s, p))
  {
    hide InvDisk, InvCache, InvHeld, Reserved, Open, NoRepeats;
    var s' := DoBeginOp(s, p);
    InvPeople(c, s, BeginOp(p));
    HistoryFrame(c, s, s', Begin(p));
    LinesFrame(c, s, s');
  }

  lemma EndOpInv(c: Config, s: State, p: Pid)
    requires Inv(c, s) && CanEndOp(s, p)
    ensures Inv(c, DoEndOp(s, p))
  {
    hide InvDisk, InvCache, InvHeld, Reserved, Open, NoRepeats;
    var s' := DoEndOp(s, p);
    InvPeople(c, s, EndOp(p));
    HistoryFrame(c, s, s', End(p));
    LinesFrame(c, s, s');
  }

  lemma PinnedAfterAbsorb(s: State, s': State, b: nat)
    requires s'.booting == s.booting == false && s'.phase == s.phase == Idle && s'.lh == Absorb(s.lh, b)
    ensures forall x: nat :: Pinned(s', x) == (Pinned(s, x) || x == b)
  {
    forall x: nat ensures Pinned(s', x) == (Pinned(s, x) || x == b) {
      if Pinned(s, x) {
        var j :| 0 <= j < |s.lh| && s.lh[j] == x;
        assert s'.lh[j] == x;
      }
      if x == b {
        var j :| 0 <= j < |s'.lh| && s'.lh[j] == x;
      }
    }
  }

  lemma AppendLines(c: Config, s: State, b: nat, s': State)
    requires |s.disk| == |s.store| == c.g.size && InvCache(c, s)
    requires b in s.cache && s.cache[b].valid
    requires s' == SetLine(s, b, s.cache[b].(dirty := true, touched := false))
                   .(store := s.store[b := s.cache[b].data], lh := s'.lh, ops := s'.ops, passed := s'.passed,
                     history := s'.history)
    requires s.ops.Keys == s'.ops.Keys
    requires forall x: nat :: Pinned(s', x) == (Pinned(s, x) || x == b)
    ensures InvCache(c, s')
  {
    hide Pinned;
    assert s'.cache.Keys == s.cache.Keys;
    assert |s'.cache.Keys| == |s.cache.Keys|;
  }

  lemma AppendDisk(c: Config, s: State, e: Event, s': State)
    requires c.Valid() && |s.disk| == |s.store| == c.g.size && s.committed <= |s.history| && c.g.Entries(s.lh)
    requires InvDisk(c, s) && s.phase == Idle && !s.booting && e.Wrote? && e.b < c.g.size && c.g.Entries(s'.lh)
    requires s' == s.(store := s.store[e.b := e.data], history := s.history + [e], lh := s'.lh, ops := s'.ops,
                      passed := s'.passed, cache := s'.cache)
    ensures InvDisk(c, s')
  {
    HistoryGrows(c, s, e);
    Extend(c.init, s.history, e);
    hide Apply, WordAt, ReadHeader, LogicalAt;
  }

  /** log_write's append keeps the invariant as long as the log still fits its area, or is full. */
  lemma AppendInv(c: Config, s: State, p: Pid)
    requires Inv(c, s) && CanAppend(s, p) && Fits(c, DoAppend(s, p))
    ensures Inv(c, DoAppend(s, p))
  {
    hide InvCache, InvDisk, Reserved, Open, NoRepeats;
    var s' := DoAppend(s, p);
    var b := s.passed[p];
    InvPeople(c, s, Append(p));
    AppendOps(c, s, p);
    hide InvHeld;
    PinnedAfterAbsorb(s, s', b);
    assert s'.ops.Keys == s.ops.Keys;
    hide Absorb;
    AppendLines(c, s, b, s');
    AppendDisk(c, s, Wrote(p, b, s.cache[b].data), s');
  }

  // ---- the committing or recovering process ----

  /** bwrite of a buffer whose block is not pinned afterwards. */
  lemma WriteThroughLines(c: Config, s: State, b: nat, data: Block, s': State)
    requires |s.disk| == |s.store| == c.g.size && InvCache(c, s) && s.ops == map[]
    requires b in s.cache && s.cache[b].valid
    requires s' == WriteThrough(s, b, data).(phase := s'.phase, lh := s'.lh, committed := s'.committed)
    requires forall x: nat :: Pinned(s', x) == (Pinned(s, x) && x != b)
    ensures InvCache(c, s')
  {
    hide Pinned;
    assert s'.cache.Keys == s.cache.Keys;
    assert |s'.cache.Keys| == |s.cache.Keys|;
  }

  /** Writing a log block beyond the header's reach changes no logical contents. */
  lemma CopyToLogDisk(c: Config, s: State, data: Block, s': State)
    requires c.Valid() && InvLog(c, s) && InvDisk(c, s) && s.phase.WriteLog? && s.phase.i < |s.lh| && !s.booting
    requires |s.lh| < c.g.nlog
    requires data == s.store[s.lh[s.phase.i]]
    requires var b := c.g.start + 1 + s.phase.i;
             s' == s.(disk := s.disk[b := data], store := s.store[b := data], cache := s'.cache,
               phase := WriteLog(s.phase.i + 1))
    ensures InvDisk(c, s')
  {
    hide Apply, WordAt, ReadHeader, Open, Reserved;
  }

  /** With no operation in progress every held buffer shows the store's contents. */
  lemma HeldData(c: Config, s: State, p: Pid, b: nat)
    requires |s.disk| == |s.store| == c.g.size && InvCache(c, s) && s.ops == map[] && Holds(s, p, b)
    ensures b < c.g.size && s.cache[b].data == s.store[b]
  {
  }

  /** The log invariant across a step of the committing or recovering process. */
  lemma CommitFrame(c: Config, s: State, s': State)
    requires InvLog(c, s) && InvOps(c, s') && 1 <= c.g.nlog && |s.lh| < NBUF
    requires s'.lh == s.lh || s'.lh == []
    requires s'.phase.WriteLog? || s'.phase.Install? ==> s'.phase.i <= |s'.lh|
    ensures InvLog(c, s')
  {
    EmptyReserved();
    hide InvOps;
  }

  /** A log of NBUF blocks leaves no buffer for anything else. */
  lemma FullCacheIsLogged(c: Config, s: State)
    requires |s.disk| == |s.store| == c.g.size && InvCache(c, s) && c.g.Entries(s.lh) && NoRepeats(s.lh)
    requires |s.lh| == NBUF && !s.booting && (s.phase.Idle? || s.phase.WriteLog?)
    ensures forall b | b in s.cache :: b in s.lh
  {
    forall j | 0 <= j < |s.lh| ensures s.lh[j] in s.cache {
      assert Pinned(s, s.lh[j]);
    }
    ElementsSize(s.lh);
    assert |s.cache.Keys| == |s.cache|;
    hide InvCache, NoRepeats;
    SubsetSize(Elements(s.lh), s.cache.Keys);
    ProperSubsetSize(Elements(s.lh), s.cache.Keys);
    forall b | b in s.cache ensures b in s.lh {
      assert b in s.cache.Keys;
    }
  }

  /** So a copy is made, or the header written, only for a log that is not full. */
  lemma CopyHasRoom(c: Config, s: State)
    requires Inv(c, s) && (CanCopyToLog(c, s) || CanWriteHead(c, s))
    ensures |s.lh| < c.g.nlog && |s.lh| < NBUF
  {
    hide InvHeld, InvDisk, Reserved, Open, InvCache, WriteHeader, ReadHeader, WordAt;
    if |s.lh| == NBUF {
      FullCacheIsLogged(c, s);
    }
  }

  lemma LogBlockNotPinned(c: Config, s: State, b: nat)
    requires c.g.Entries(s.lh) && !c.g.Home(b)
    ensures !Pinned(s, b)
  {
  }

  lemma PinnedFrame(s: State, s': State)
    requires s'.booting == s.booting && s'.lh == s.lh
    requires (s.phase.WriteLog? && (s'.phase.WriteLog? || s'.phase == Install(0)))
    ensures forall x: nat :: Pinned(s', x) == Pinned(s, x)
  {
  }

  lemma CopyToLogLines(c: Config, s: State)
    requires c.Valid() && InvLog(c, s) && InvCache(c, s) && CanCopyToLog(c, s) && |s.lh| < c.g.nlog
    ensures s.cache[s.lh[s.phase.i]].data == s.store[s.lh[s.phase.i]]
    ensures InvCache(c, DoCopyToLog(c, s))
  {
    var s' := DoCopyToLog(c, s);
    var b := c.g.start + 1 + s.phase.i;
    var from := s.lh[s.phase.i];
    HeldData(c, s, s.agent, from);
    LogBlockNotPinned(c, s, b);
    hide InvLog, InvCache;
    PinnedFrame(s, s');
    hide Pinned;
    WriteThroughLines(c, s, b, s.cache[from].data, s');
  }

  lemma CopyToLogInv(c: Config, s: State)
    requires Inv(c, s) && CanCopyToLog(c, s)
    ensures Inv(c, DoCopyToLog(c, s))
  {
    hide InvCache, InvDisk, InvHeld, InvOps;
    CopyHasRoom(c, s);
    InvParts(c, s);
    InvPeople(c, s, CopyToLog);
    CopyToLogLines(c, s);
    var s' := DoCopyToLog(c, s);
    CommitFrame(c, s, s');
    CopyToLogDisk(c, s, s.cache[s.lh[s.phase.i]].data, s');
  }

  /** The header write is the commit point: afterwards the log means the current store. */
  lemma WriteHeadDisk(c: Config, s: State, hb: Block, s': State)
    requires c.Valid() && InvLog(c, s) && InvDisk(c, s) && s.phase.WriteLog? && s.phase.i == |s.lh| && !s.booting
    requires |s.lh| < c.g.nlog && |s.lh| < NBUF
    requires forall b: nat | c.g.Home(b) && b !in s.lh :: s.disk[b] == s.store[b]
    requires WordAt(hb, 0) == |s.lh| && ReadHeader(hb) == s.lh
    requires s' == s.(disk := s.disk[c.g.start := hb], store := s.store[c.g.start := hb], cache := s'.cache,
                      phase := Install(0), committed := |s.history|)
    ensures InvDisk(c, s')
  {
    hide Apply, Open, Reserved, ReadHeader, WordAt;
    assert s.history[..|s.history|] == s.history;
    forall b: nat | c.g.Home(b)
      ensures LogicalAt(c.g, s'.disk, s.lh, b) == s'.store[b]
    {
      var k := LastIndex(s.lh, b);
    }
  }

  lemma UnloggedOnDisk(c: Config, s: State)
    requires |s.disk| == |s.store| == c.g.size && InvCache(c, s)
    ensures forall b: nat | c.g.Home(b) && b !in s.lh :: s.disk[b] == s.store[b]
  {
  }

  lemma WriteHeadInv(c: Config, s: State)
    requires Inv(c, s) && CanWriteHead(c, s)
    ensures Inv(c, DoWriteHead(c, s))
  {
    hide InvDisk, WriteHeader, ReadHeader, WordAt, InvCache, InvHeld, InvOps, Pinned;
    CopyHasRoom(c, s);
    InvParts(c, s);
    InvPeople(c, s, WriteHead);
    var s' := DoWriteHead(c, s);
    var b := c.g.start;
    var hb := WriteHeader(s.cache[b].data, s.lh);
    CommitFrame(c, s, s');
    LogBlockNotPinned(c, s, b);
    PinnedFrame(s, s');
    HeaderRoundTrip(s.cache[b].data, s.lh);
    UnloggedOnDisk(c, s);
    WriteHeadDisk(c, s, hb, s');
    WriteThroughLines(c, s, b, hb, s');
  }

  lemma InstallDisk(c: Config, s: State, data: Block, s': State)
    requires c.Valid() && InvLog(c, s) && InvDisk(c, s) && s.phase.Install? && s.phase.i < |s.lh|
    requires data == s.disk[c.g.start + 1 + s.phase.i]
    requires var b := s.lh[s.phase.i];
             s' == s.(disk := s.disk[b := data], store := s.store[b := data], cache := s'.cache,
               phase := Install(s.phase.i + 1))
    ensures InvDisk(c, s')
  {
    hide Apply, WordAt, ReadHeader, Open, Reserved, LastIndex;
    InstalledLogical(c.g, s.disk, s.lh, s.phase.i);
    assert s.history[..|s.history|] == s.history;
  }

  /** A log copy written home changes nothing in what the log and the disk mean. */
  lemma InstalledLogical(g: Geometry, d: seq<Block>, h: seq<nat>, i: nat)
    requires g.Valid() && |d| == g.size && g.WfHeader(h) && NoRepeats(h) && i < |h|
    ensures forall b: nat | g.Home(b) :: LogicalAt(g, d[h[i] := d[g.start + 1 + i]], h, b) == LogicalAt(g, d, h, b)
  {
  }

  /** A log block that is held is as on disk. */
  lemma CopyOnDisk(c: Config, s: State, from: nat)
    requires c.Valid() && InvLog(c, s) && InvCache(c, s) && s.ops == map[] && Holds(s, s.agent, from) && !c.g.Home(from)
    ensures from < |s.disk| && s.cache[from].data == s.disk[from]
  {
    HeldData(c, s, s.agent, from);
    LogBlockNotPinned(c, s, from);
  }

  lemma InstallLines(c: Config, s: State)
    requires c.Valid() && InvLog(c, s) && InvCache(c, s) && CanInstall(c, s)
    ensures s.cache[c.g.start + 1 + s.phase.i].data == s.disk[c.g.start + 1 + s.phase.i]
    ensures InvCache(c, DoInstall(c, s))
  {
    hide InvCache, Pinned;
    var s' := DoInstall(c, s);
    var from := c.g.start + 1 + s.phase.i;
    CopyOnDisk(c, s, from);
    PinnedAfterInstall(s, s');
    WriteThroughLines(c, s, s.lh[s.phase.i], s.cache[from].data, s');
  }

  lemma InstallInv(c: Config, s: State)
    requires Inv(c, s) && CanInstall(c, s)
    ensures Inv(c, DoInstall(c, s))
  {
    hide InvCache, InvDisk, InvHeld, InvOps, NoRepeats;
    InvParts(c, s);
    InvPeople(c, s, InstallOne);
    InstallLines(c, s);
    var data := s.cache[c.g.start + 1 + s.phase.i].data;
    var s' := DoInstall(c, s);
    CommitFrame(c, s, s');
    InstallDisk(c, s, data, s');
  }

  lemma PinnedAfterInstall(s: State, s': State)
    requires s.phase.Install? && s.phase.i < |s.lh| && NoRepeats(s.lh)
    requires s'.phase == Install(s.phase.i + 1) && s'.lh == s.lh && s'.booting == s.booting
    ensures forall x: nat :: Pinned(s', x) == (Pinned(s, x) && x != s.lh[s.phase.i])
  {
  }

  lemma ClearHeadDisk(c: Config, s: State, hb: Block, s': State)
    requires c.Valid() && InvLog(c, s) && InvDisk(c, s) && s.phase.Install? && s.phase.i == |s.lh|
    requires WordAt(hb, 0) == 0 && ReadHeader(hb) == []
    requires s' == s.(disk := s.disk[c.g.start := hb], store := s.store[c.g.start := hb], cache := s'.cache,
             phase := Cleared, lh := [])
    ensures InvDisk(c, s')
  {
    hide Apply, Open, Reserved, ReadHeader, WordAt;
    forall b: nat | c.g.Home(b)
      ensures s'.disk[b] == LogicalAt(c.g, s.disk, s.lh, b)
    {
      var k := LastIndex(s.lh, b);
    }
  }

  lemma NonePinned(s: State, s': State)
    requires s.phase == Install(|s.lh|) && s'.lh == []
    ensures forall x: nat :: !Pinned(s, x) && !Pinned(s', x)
  {
  }

  lemma ClearHeadInv(c: Config, s: State)
    requires Inv(c, s) && CanClearHead(c, s)
    ensures Inv(c, DoClearHead(c, s))
  {
    hide InvDisk, InvCache, InvHeld, InvOps, WriteHeader, ReadHeader, WordAt, Pinned, NoRepeats;
    var s' := DoClearHead(c, s);
    var b := c.g.start;
    var hb := WriteHeader(s.cache[b].data, []);
    InvParts(c, s);
    InvPeople(c, s, ClearHead);
    CommitFrame(c, s, s');
    NonePinned(s, s');
    HeaderRoundTrip(s.cache[b].data, []);
    ClearHeadDisk(c, s, hb, s');
    WriteThroughLines(c, s, b, hb, s');
  }

  lemma CrashInv(c: Config, s: State, p: Pid)
    requires Inv(c, s)
    ensures s.committed <= |s.history| && Inv(c, DoCrash(s, p))
  {
    hide InvHeld, InvCache, InvDisk, Apply, Open, Reserved;
    var s' := DoCrash(s, p);
    InvPeople(c, s, Crash(p));
    EmptyReserved();
    CrashDisk(c, s, s');
    CrashLines(c, s, s');
  }

  lemma CrashLines(c: Config, s: State, s': State)
    requires |s.disk| == c.g.size && s'.disk == s'.store == s.disk && s'.cache == map[] && s'.booting
    ensures InvCache(c, s')
  {
  }

  lemma CrashDisk(c: Config, s: State, s': State)
    requires c.Valid() && InvLog(c, s) && InvDisk(c, s)
    requires s' == State(s.disk, map[], [], 0, false, true, ReadHead, s'.agent, map[], map[], s.disk,
                         s.history[..s.committed], s.committed)
    ensures InvDisk(c, s')
  {
    assert s'.history[..s.committed] == s'.history;
    hide Apply, WordAt, ReadHeader, LogicalAt, Open, Reserved;
  }

  lemma ReadLogHeadDisk(c: Config, s: State, s': State)
    requires c.Valid() && InvLog(c, s) && InvDisk(c, s) && s.phase.ReadHead?
    requires s' == s.(lh := ReadHeader(s.disk[c.g.start]), phase := Install(0))
    ensures InvDisk(c, s') && c.g.WfHeader(s'.lh) && NoRepeats(s'.lh) && |s'.lh| < NBUF
  {
    hide Apply, WordAt, ReadHeader, LogicalAt, Open, Reserved;
  }

  lemma ReadLogHeadInv(c: Config, s: State)
    requires Inv(c, s) && CanReadHead(c, s)
    ensures Inv(c, DoReadHead(c, s))
  {
    var s' := DoReadHead(c, s);
    HeldData(c, s, s.agent, c.g.start);
    LogBlockNotPinned(c, s, c.g.start);
    assert s.disk[c.g.start] == s.store[c.g.start];
    hide InvCache, Pinned;
    InvPeople(c, s, ReadLogHead);
    ReadLogHeadDisk(c, s, s');
    LinesFrame(c, s, s');
    hide InvDisk, InvOps, InvHeld;
  }

  lemma FinishInv(c: Config, s: State, step: Step)
    requires Inv(c, s) && Enabled(c, s, step) && (step.FinishCommit? || step.FinishBoot?)
    ensures Inv(c, Next(c, s, step))
  {
    hide Apply, WordAt, ReadHeader, Open, Reserved, InvHeld, InvCache, NoRepeats;
    var s' := Next(c, s, step);
    InvParts(c, s);
    InvPeople(c, s, step);
    EmptyReserved();
    assert s.history[..|s.history|] == s.history;
    FinishLines(c, s, s');
  }

  lemma FinishLines(c: Config, s: State, s': State)
    requires |s.disk| == |s.store| == c.g.size && InvCache(c, s) && s.lh == []
    requires s' == s.(committing := s'.committing, booting := s'.booting, phase := s'.phase)
    ensures InvCache(c, s') && forall b: nat | b < c.g.size :: s.disk[b] == s.store[b]
  {
    assert forall x: nat :: !Pinned(s', x) && !Pinned(s, x);
    hide Pinned;
  }

  lemma StepInv(c: Config, s: State, step: Step)
    requires Inv(c, s) && Enabled(c, s, step) && (step.Append? ==> Fits(c, Next(c, s, step)))
    ensures Inv(c, Next(c, s, step))
  {
    hide Inv, Fits;
    match step
    case BeginOp(p) => BeginOpInv(c, s, p);
    case EndOp(p) => EndOpInv(c, s, p);
    case Get(p, b, victim) => GetInv(c, s, p, b, victim);
    case Lock(_, _) => BufferStepInv(c, s, step);
    case Fill(_, _) => BufferStepInv(c, s, step);
    case Modify(_, _, _) => BufferStepInv(c, s, step);
    case LogTest(_, _) => BufferStepInv(c, s, step);
    case Append(p) => AppendInv(c, s, p);
    case Unlock(_, _) => BufferStepInv(c, s, step);
    case Put(_, _) => BufferStepInv(c, s, step);
    case CopyToLog => CopyToLogInv(c, s);
    case WriteHead => WriteHeadInv(c, s);
    case InstallOne => InstallInv(c, s);
    case ClearHead => ClearHeadInv(c, s);
    case FinishCommit => FinishInv(c, s, step);
    case Crash(p) => CrashInv(c, s, p);
    case ReadLogHead => ReadLogHeadInv(c, s);
    case FinishBoot => FinishInv(c, s, step);
  }

  /** In an ample log area whatever log_write appends fits, though it tests before it locks: a new
      block is paid for by the reservation, not by the tests. */
  lemma StepFits(c: Config, s: State, step: Step)
    requires c.Valid() && c.g.Ample() && InvOps(c, s) && InvHeld(c, s) && Enabled(c, s, step) && step.Append?
    ensures Fits(c, Next(c, s, step))
  {
    hide Reserved, Open, NoRepeats, Absorb;
    assert Admitted(c, s, step.p);
    AppendOps(c, s, step.p);
    var s' := DoAppend(s, step.p);
    ReservedNonNegative(s'.ops);
  }
}
