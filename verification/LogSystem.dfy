/** The log and the buffer cache under concurrency and crashes: every critical section
    of log.c and bio.c is one atomic step, any number of processes interleave, and the
    machine may crash between any two steps, recovery included. */
module LogSystem {
  import opened Blocks
  import opened LogFormat
  import opened Params
  import opened Sets

  type Pid = nat

  /** One cached block. `users` are the processes holding a reference (refcnt is their
      number), `holder` the one that has the sleep-lock, `touched` that the holder has
      changed the data and not yet called log_write. */
  datatype Line = Line(valid: bool, dirty: bool, users: set<Pid>, holder: Option<Pid>, touched: bool, data: Block)

  /** What operations have done so far; the specification's view of the run. */
  datatype Event = Begin(p: Pid) | Wrote(p: Pid, b: nat, data: Block) | End(p: Pid)

  /** Where the committing (or recovering) process is. */
  datatype Phase = Idle | WriteLog(i: nat) | ReadHead | Install(i: nat) | Cleared

  /** `ops` maps each process between begin_op and end_op to the number of block numbers
      it has added to the log, `passed` each process that log_write's tests have let through
      and that has not appended yet to its block. `store` is what an uncached block store
      would hold; `history[..committed]` is what has reached the commit point. */
  datatype State = State(
    disk: seq<Block>, cache: map<nat, Line>,
    lh: seq<nat>, outstanding: int, committing: bool,
    booting: bool, phase: Phase, agent: Pid,
    ops: map<Pid, nat>, passed: map<Pid, nat>, store: seq<Block>, history: seq<Event>, committed: nat)

  datatype Config = Config(g: Geometry, init: seq<Block>) {
    predicate Valid() {
      g.Valid() && |init| == g.size && WordAt(init[g.start], 0) == 0
    }
  }

  datatype Step =
    | BeginOp(p: Pid)
    | EndOp(p: Pid)
    | Get(p: Pid, b: nat, victim: Option<nat>)
    | Lock(p: Pid, b: nat)
    | Fill(p: Pid, b: nat)
    | Modify(p: Pid, b: nat, data: Block)
    | LogTest(p: Pid, b: nat)
    | Append(p: Pid)
    | Unlock(p: Pid, b: nat)
    | Put(p: Pid, b: nat)
    | CopyToLog
    | WriteHead
    | InstallOne
    | ClearHead
    | FinishCommit
    | Crash(p: Pid)
    | ReadLogHead
    | FinishBoot

  // ---- the specification's reading of a history ----

  function Apply(init: seq<Block>, h: seq<Event>): (d: seq<Block>)
    ensures |d| == |init|
  {
    if h == [] then init
    else
      var d := Apply(init, h[..|h| - 1]);
      match h[|h| - 1]
      case Wrote(_, b, data) => if b < |d| then d[b := data] else d
      case _ => d
  }

  /** Processes that have begun and not ended. */
  function Open(h: seq<Event>): set<Pid> {
    if h == [] then {}
    else
      match h[|h| - 1]
      case Begin(p) => Open(h[..|h| - 1]) + {p}
      case End(p) => Open(h[..|h| - 1]) - {p}
      case Wrote(_, _, _) => Open(h[..|h| - 1])
  }

  lemma Extend(init: seq<Block>, h: seq<Event>, e: Event)
    ensures var d := Apply(init, h);
            Apply(init, h + [e]) == match e case Wrote(_, b, data) => if b < |d| then d[b := data] else d case _ => d
    ensures Open(h + [e]) == match e case Begin(p) => Open(h) + {p} case End(p) => Open(h) - {p} case _ => Open(h)
  {
    assert (h + [e])[..|h|] == h;
  }

  // ---- reservation ----

  /** Log slots still reserved for the operations in progress. */
  ghost function Reserved(ops: map<Pid, nat>): int {
    if ops == map[] then 0
    else
      var p :| p in ops;
      MAXOPBLOCKS - ops[p] + Reserved(ops - {p})
  }

  lemma {:induction false} ReservedSplit(ops: map<Pid, nat>, p: Pid)
    requires p in ops
    ensures Reserved(ops) == MAXOPBLOCKS - ops[p] + Reserved(ops - {p})
    decreases |ops|
  {
    var q :| q in ops && Reserved(ops) == MAXOPBLOCKS - ops[q] + Reserved(ops - {q});
    if q != p {
      ReservedSplit(ops - {q}, p);
      ReservedSplit(ops - {p}, q);
      assert ops - {q} - {p} == ops - {p} - {q};
    }
  }

  lemma {:induction false} ReservedNonNegative(ops: map<Pid, nat>)
    requires forall p | p in ops :: ops[p] <= MAXOPBLOCKS
    ensures Reserved(ops) >= 0
    decreases |ops|
  {
    if ops != map[] {
      var q :| q in ops && Reserved(ops) == MAXOPBLOCKS - ops[q] + Reserved(ops - {q});
      ReservedNonNegative(ops - {q});
    }
  }

  lemma {:induction false} ReservedAtMost(ops: map<Pid, nat>)
    ensures Reserved(ops) <= |ops| * MAXOPBLOCKS
    decreases |ops|
  {
    if ops != map[] {
      var q :| q in ops && Reserved(ops) == MAXOPBLOCKS - ops[q] + Reserved(ops - {q});
      ReservedAtMost(ops - {q});
    }
  }

  /** begin_op reserves MAXOPBLOCKS slots, and no more than outstanding * MAXOPBLOCKS were reserved. */
  lemma ReservedBegin(ops: map<Pid, nat>, p: Pid)
    requires p !in ops
    ensures Reserved(ops[p := 0]) == MAXOPBLOCKS + Reserved(ops) <= MAXOPBLOCKS + |ops| * MAXOPBLOCKS
    ensures |ops[p := 0]| == |ops| + 1
  {
    ReservedSplit(ops[p := 0], p);
    assert ops[p := 0] - {p} == ops;
    ReservedAtMost(ops);
  }

  lemma ReservedUpdate(ops: map<Pid, nat>, p: Pid, n: nat)
    requires p in ops
    ensures Reserved(ops[p := n]) == Reserved(ops) + ops[p] - n
    ensures |ops[p := n]| == |ops|
  {
    ReservedSplit(ops[p := n], p);
    ReservedSplit(ops, p);
    assert ops[p := n] - {p} == ops - {p};
    assert ops[p := n].Keys == ops.Keys;
  }

  lemma ReservedEnd(ops: map<Pid, nat>, p: Pid)
    requires p in ops && ops[p] <= MAXOPBLOCKS
    ensures Reserved(ops - {p}) <= Reserved(ops)
    ensures |ops - {p}| == |ops| - 1
  {
    ReservedSplit(ops, p);
  }

  // ---- steps ----

  function Init(c: Config): State
    requires c.Valid()
  {
    State(c.init, map[], [], 0, false, false, Idle, 0, map[], map[], c.init, [], 0)
  }

  /** p has the sleep-lock of b's buffer and the buffer holds the block's contents. */
  predicate Holds(s: State, p: Pid, b: nat) {
    b in s.cache && s.cache[b].holder == Some(p) && s.cache[b].valid
  }

  /** The two panics at the top of log_write. */
  predicate LogWritePanics(c: Config, s: State) {
    |s.lh| >= LOGSIZE || |s.lh| >= c.g.nlog - 1 || s.outstanding < 1
  }

  /** begin_op's two reasons to sleep. */
  predicate MustWait(s: State) {
    s.committing || |s.lh| + (s.outstanding + 1) * MAXOPBLOCKS > LOGSIZE
  }

  // Guards: the source's own conditions, the sleep-locks, and the calling convention
  // (modify only inside an operation and only home blocks; call log_write before
  // releasing what was modified; add at most MAXOPBLOCKS blocks per operation). A process
  // between log_write's tests and its append leaves its buffer and its operation alone.

  predicate CanBeginOp(s: State, p: Pid) {
    !s.booting && p !in s.ops && !MustWait(s)
  }

  function DoBeginOp(s: State, p: Pid): State {
    s.(outstanding := s.outstanding + 1, ops := s.ops[p := 0], history := s.history + [Begin(p)])
  }

  predicate CanEndOp(s: State, p: Pid) {
    p in s.ops && p !in s.passed && forall b | b in s.cache && s.cache[b].touched :: s.cache[b].holder != Some(p)
  }

  /** The first critical section of end_op. */
  function DoEndOp(s: State, p: Pid): State {
    var s1 := s.(outstanding := s.outstanding - 1, ops := s.ops - {p}, history := s.history + [End(p)]);
    if s1.outstanding == 0 then s1.(committing := true, phase := WriteLog(0), agent := p) else s1
  }

  predicate CanGet(c: Config, s: State, p: Pid, b: nat, victim: Option<nat>) {
    && (s.booting ==> p == s.agent)
    && b < c.g.size
    && (b in s.cache ==> p !in s.cache[b].users && victim == None)
    && (b !in s.cache ==>
          match victim
          case None => |s.cache| < NBUF
          case Some(v) => v in s.cache && s.cache[v].users == {} && !s.cache[v].dirty)
  }

  /** bget's critical section; recycling takes some unreferenced clean buffer. */
  function DoGet(s: State, p: Pid, b: nat, victim: Option<nat>): State {
    if b in s.cache then SetLine(s, b, s.cache[b].(users := s.cache[b].users + {p}))
    else
      var kept := match victim case None => s.cache case Some(v) => s.cache - {v};
      s.(cache := kept[b := Line(false, false, {p}, None, false, ZeroBlock())])
  }

  /** A call of log_write that the convention allows. */
  predicate MayLogWrite(c: Config, s: State, p: Pid, b: nat) {
    && Holds(s, p, b) && p in s.ops && p !in s.passed && c.g.Home(b)
    && (b !in s.lh ==> s.ops[p] < MAXOPBLOCKS)
  }

  /** log_write's tests, made before log.lock is taken. */
  predicate CanLogTest(c: Config, s: State, p: Pid, b: nat) {
    MayLogWrite(c, s, p, b) && !LogWritePanics(c, s)
  }

  predicate CanAppend(s: State, p: Pid) {
    p in s.passed && p in s.ops && Holds(s, p, s.passed[p]) && s.passed[p] < |s.store|
  }

  /** log_write's critical section, whatever the log holds by now. */
  function DoAppend(s: State, p: Pid): State
    requires CanAppend(s, p)
  {
    var b := s.passed[p];
    var l := s.cache[b];
    SetLine(s, b, l.(dirty := true, touched := false))
      .(lh := Absorb(s.lh, b), ops := s.ops[p := s.ops[p] + if b in s.lh then 0 else 1], passed := s.passed - {p},
        store := s.store[b := l.data], history := s.history + [Wrote(p, b, l.data)])
  }

  predicate CanCopyToLog(c: Config, s: State) {
    && s.phase.WriteLog? && s.phase.i < |s.lh|
    && c.g.start + 1 + s.phase.i < |s.disk| == |s.store|
    && Holds(s, s.agent, c.g.start + 1 + s.phase.i) && Holds(s, s.agent, s.lh[s.phase.i])
  }

  /** One iteration of write_log. */
  function DoCopyToLog(c: Config, s: State): State
    requires CanCopyToLog(c, s)
  {
    WriteThrough(s, c.g.start + 1 + s.phase.i, s.cache[s.lh[s.phase.i]].data).(phase := WriteLog(s.phase.i + 1))
  }

  predicate CanWriteHead(c: Config, s: State) {
    && s.phase.WriteLog? && s.phase.i == |s.lh| > 0 && Holds(s, s.agent, c.g.start)
    && c.g.start < |s.disk| == |s.store| && c.g.Valid() && c.g.Entries(s.lh)
  }

  function DoWriteHead(c: Config, s: State): State
    requires CanWriteHead(c, s)
  {
    WriteThrough(s, c.g.start, WriteHeader(s.cache[c.g.start].data, s.lh)).(phase := Install(0),
      committed := |s.history|)
  }

  predicate CanInstall(c: Config, s: State) {
    && s.phase.Install? && s.phase.i < |s.lh| && s.lh[s.phase.i] < |s.disk| == |s.store|
    && Holds(s, s.agent, c.g.start + 1 + s.phase.i) && Holds(s, s.agent, s.lh[s.phase.i])
  }

  /** One iteration of install_trans. */
  function DoInstall(c: Config, s: State): State
    requires CanInstall(c, s)
  {
    WriteThrough(s, s.lh[s.phase.i], s.cache[c.g.start + 1 + s.phase.i].data).(phase := Install(s.phase.i + 1))
  }

  predicate CanClearHead(c: Config, s: State) {
    s.phase.Install? && s.phase.i == |s.lh| && Holds(s, s.agent, c.g.start) && c.g.start < |s.disk| == |s.store|
  }

  function DoClearHead(c: Config, s: State): State
    requires CanClearHead(c, s)
  {
    WriteThrough(s, c.g.start, WriteHeader(s.cache[c.g.start].data, [])).(lh := [], phase := Cleared)
  }

  /** Memory is lost; the disk is what it was. The specification forgets what had not
      reached the commit point. */
  function DoCrash(s: State, p: Pid): State
    requires s.committed <= |s.history|
  {
    State(s.disk, map[], [], 0, false, true, ReadHead, p, map[], map[], s.disk, s.history[..s.committed], s.committed)
  }

  predicate CanReadHead(c: Config, s: State) {
    s.phase.ReadHead? && Holds(s, s.agent, c.g.start) && WordAt(s.cache[c.g.start].data, 0) < WORDS
  }

  function DoReadHead(c: Config, s: State): State
    requires CanReadHead(c, s)
  {
    s.(lh := ReadHeader(s.cache[c.g.start].data), phase := Install(0))
  }

  predicate CanFinishCommit(s: State) {
    s.committing && (s.phase == Cleared || (s.phase == WriteLog(0) && s.lh == []))
  }

  predicate Enabled(c: Config, s: State, step: Step) {
    match step
    case BeginOp(p) => CanBeginOp(s, p)
    case EndOp(p) => CanEndOp(s, p)
    case Get(p, b, victim) => CanGet(c, s, p, b, victim)
    case Lock(p, b) => b in s.cache && p in s.cache[b].users && s.cache[b].holder == None
    case Fill(p, b) => b in s.cache && s.cache[b].holder == Some(p) && !s.cache[b].valid && b < |s.disk|
    case Modify(p, b, data) => Holds(s, p, b) && p in s.ops && p !in s.passed && c.g.Home(b)
    case LogTest(p, b) => CanLogTest(c, s, p, b)
    case Append(p) => CanAppend(s, p)
    case Unlock(p, b) => b in s.cache && s.cache[b].holder == Some(p) && p !in s.passed && !s.cache[b].touched
    case Put(p, b) => b in s.cache && p in s.cache[b].users && s.cache[b].holder != Some(p)
    case CopyToLog => CanCopyToLog(c, s)
    case WriteHead => CanWriteHead(c, s)
    case InstallOne => CanInstall(c, s)
    case ClearHead => CanClearHead(c, s)
    case FinishCommit => CanFinishCommit(s)
    case Crash(p) => s.committed <= |s.history|
    case ReadLogHead => CanReadHead(c, s)
    case FinishBoot => s.booting && s.phase == Cleared
  }

  function Next(c: Config, s: State, step: Step): State
    requires Enabled(c, s, step)
  {
    match step
    case BeginOp(p) => DoBeginOp(s, p)
    case EndOp(p) => DoEndOp(s, p)
    case Get(p, b, victim) => DoGet(s, p, b, victim)
    case Lock(p, b) => SetLine(s, b, s.cache[b].(holder := Some(p)))
    case Fill(p, b) => SetLine(s, b, s.cache[b].(valid := true, data := s.disk[b]))
    case Modify(p, b, data) => SetLine(s, b, s.cache[b].(data := data, touched := true))
    case LogTest(p, b) => s.(passed := s.passed[p := b])
    case Append(p) => DoAppend(s, p)
    case Unlock(p, b) => SetLine(s, b, s.cache[b].(holder := None))
    case Put(p, b) => SetLine(s, b, s.cache[b].(users := s.cache[b].users - {p}))
    case CopyToLog => DoCopyToLog(c, s)
    case WriteHead => DoWriteHead(c, s)
    case InstallOne => DoInstall(c, s)
    case ClearHead => DoClearHead(c, s)
    case FinishCommit => s.(committing := false, phase := Idle)
    case Crash(p) => DoCrash(s, p)
    case ReadLogHead => DoReadHead(c, s)
    case FinishBoot => s.(booting := false, phase := Idle)
  }

  function SetLine(s: State, b: nat, l: Line): State {
    s.(cache := s.cache[b := l])
  }

  /** log_write's scan: an already logged block is absorbed. */
  function Absorb(h: seq<nat>, b: nat): seq<nat> {
    if b in h then h else h + [b]
  }

  /** Replace a held buffer's data and bwrite it: the block reaches the disk and the
      buffer is clean. */
  function WriteThrough(s: State, b: nat, data: Block): State
    requires b in s.cache && b < |s.disk| == |s.store|
  {
    SetLine(s, b, s.cache[b].(data := data, dirty := false)).(disk := s.disk[b := data], store := s.store[b := data])
  }

  // ---- invariants ----

  // InvOps and InvHeld hold whatever the size of the log area, the rest for an ample one.

  /** Who is in an operation, and what it may still log. */
  ghost predicate InvOps(c: Config, s: State) {
    && |s.disk| == |s.store| == c.g.size
    && s.committed <= |s.history|
    && Open(s.history) == s.ops.Keys && Open(s.history[..s.committed]) == {}
    && s.outstanding == |s.ops| && |s.ops| * MAXOPBLOCKS <= LOGSIZE
    && (s.committing || s.booting ==> s.ops == map[])
    && (s.booting ==> !s.committing && !s.phase.Idle? && !s.phase.WriteLog? && s.committed == |s.history|)
    && (!s.booting ==> (s.committing <==> s.phase != Idle) && s.phase != ReadHead)
    && (s.phase == Cleared || s.phase == ReadHead ==> s.lh == [])
    && (s.ops == map[] && !s.booting && !s.committing ==> s.lh == [])
    && (forall p | p in s.ops :: s.ops[p] <= MAXOPBLOCKS)
    && (!s.booting ==> c.g.Entries(s.lh) && NoRepeats(s.lh) && |s.lh| + Reserved(s.ops) <= LOGSIZE)
  }

  /** Sleep-locks are held by users, and whoever has passed log_write's tests can append. */
  predicate InvHeld(c: Config, s: State) {
    && (forall b | b in s.cache && s.cache[b].holder.Some? :: s.cache[b].holder.value in s.cache[b].users)
    && (forall p | p in s.passed :: Admitted(c, s, p))
  }

  /** What is not committed yet is in the log. */
  predicate InvWrites(s: State) {
    && (s.booting || s.phase.Install? || s.phase.Cleared? ==> s.committed == |s.history|)
    && forall i | 0 <= s.committed <= i < |s.history| && s.history[i].Wrote? :: s.history[i].b in s.lh
  }

  predicate Admitted(c: Config, s: State, p: Pid)
    requires p in s.passed
  {
    && p in s.ops && Holds(s, p, s.passed[p]) && c.g.Home(s.passed[p]) && c.g.nlog >= 2
    && (s.passed[p] !in s.lh ==> s.ops[p] < MAXOPBLOCKS)
  }

  /** The log fits its area; or it holds NBUF blocks, whose buffers are then all there are, and no
      copy has been made. */
  predicate Fits(c: Config, s: State) {
    && (|s.lh| < c.g.nlog || |s.lh| == NBUF)
    && (|s.lh| == NBUF ==> c.g.nlog >= 2 && !s.booting && (s.phase == Idle || s.phase == WriteLog(0)))
  }

  ghost predicate InvLog(c: Config, s: State) {
    && InvOps(c, s)
    && c.g.Entries(s.lh) && NoRepeats(s.lh) && Fits(c, s)
    && (s.phase.WriteLog? || s.phase.Install? ==> s.phase.i <= |s.lh|)
  }

  /** Blocks that are pinned: logged, and not yet installed. */
  predicate Pinned(s: State, b: nat) {
    !s.booting && exists j | 0 <= j < |s.lh| :: s.lh[j] == b && (s.phase.Install? ==> s.phase.i <= j)
  }

  predicate LineOk(c: Config, s: State, b: nat, l: Line)
    requires b < |s.store|
  {
    && (l.valid && !l.touched ==> l.data == s.store[b])
    && (l.touched ==> l.valid && l.holder.Some? && l.holder.value in s.ops && c.g.Home(b))
    && (l.holder.Some? ==> l.holder.value in l.users)
    && (l.dirty ==> l.valid)
    && (l.dirty <==> Pinned(s, b))
  }

  ghost predicate InvCache(c: Config, s: State)
    requires |s.disk| == |s.store| == c.g.size
  {
    && (forall b | b in s.cache :: b < c.g.size && LineOk(c, s, b, s.cache[b]))
    && |s.cache| <= NBUF
    && (forall b: nat | b < c.g.size && Pinned(s, b) :: b in s.cache)
    && (forall b: nat | b < c.g.size && !Pinned(s, b) :: s.disk[b] == s.store[b])
  }

  /** The header on disk, once it is known to be decodable. */
  function DiskHeader(c: Config, d: seq<Block>): seq<nat>
    requires c.g.Valid() && |d| == c.g.size
  {
    if WordAt(d[c.g.start], 0) < WORDS then ReadHeader(d[c.g.start]) else []
  }

  /** A disk that initlog can be run on: its log is well formed, and replayed makes the disk c.init. */
  ghost predicate Bootable(c: Config, d: seq<Block>) {
    && c.Valid() && |d| == c.g.size && WordAt(d[c.g.start], 0) < WORDS
    && var h := DiskHeader(c, d);
       && c.g.WfHeader(h) && NoRepeats(h) && |h| < NBUF
       && forall b: nat | c.g.Home(b) :: LogicalAt(c.g, d, h, b) == c.init[b]
  }

  /** Where a run starts: at initlog on such a disk, or, its log being empty, after it. */
  ghost predicate Starts(c: Config, s: State)
    requires c.Valid()
  {
    || s == Init(c)
    || (Bootable(c, s.disk) &&
        s == State(s.disk, map[], [], 0, false, true, ReadHead, 0, map[], map[], s.disk, [], 0))
  }

  /** The specification's contents at the last commit point. */
  function Durable(c: Config, s: State): seq<Block>
    requires s.committed <= |s.history|
  {
    Apply(c.init, s.history[..s.committed])
  }

  /** The log copies written so far hold the current contents of the blocks they stand for. */
  predicate CopiesOk(c: Config, s: State, n: nat)
    requires c.Valid() && |s.disk| == |s.store| == c.g.size && c.g.Entries(s.lh) && n < c.g.nlog
  {
    forall j | 0 <= j < n && j < |s.lh| :: s.disk[c.g.start + 1 + j] == s.store[s.lh[j]]
  }

  ghost predicate InvDisk(c: Config, s: State)
    requires c.Valid() && |s.disk| == |s.store| == c.g.size && s.committed <= |s.history| && c.g.Entries(s.lh)
  {
    var h := DiskHeader(c, s.disk);
    && WordAt(s.disk[c.g.start], 0) < WORDS
    && c.g.WfHeader(h) && NoRepeats(h) && |h| < NBUF
    && (s.phase.Idle? || s.phase.WriteLog? || s.phase.Cleared? ==> h == [])
    && (s.phase.Install? ==> h == s.lh)
    && (s.phase.WriteLog? ==> s.phase.i < c.g.nlog && CopiesOk(c, s, s.phase.i))
    && (s.phase.Install? ==> forall j | 0 <= j < s.phase.i && j < |s.lh| ::
          s.disk[s.lh[j]] == s.disk[c.g.start + 1 + j])
    && (s.phase.Install? || s.phase.Cleared? ==> s.committed == |s.history|)
    && (forall b: nat | c.g.Home(b) :: LogicalAt(c.g, s.disk, h, b) == Durable(c, s)[b])
    && (!s.booting ==> forall b: nat | c.g.Home(b) :: s.store[b] == Apply(c.init, s.history)[b])
  }

  ghost predicate Inv(c: Config, s: State) {
    c.Valid() && InvLog(c, s) && InvHeld(c, s) && InvCache(c, s) && InvDisk(c, s)
  }
}
