/** What log_write's two size tests do to operations that keep to their budget, and bget to a full
    cache: runs that reach the panics, for every size of the log area; and, since the tests are made
    before log.lock is taken, runs that get past them and leave more in the log than they allow. */
module LogGuard {
  import opened Blocks
  import opened LogFormat
  import opened LogSystem
  import opened LogTheorems
  import opened Params
  import opened Sets

  /** Three operations that have logged n blocks between them: the first one ten, the other two nine
      each, then those one more each. */
  function Ops(n: nat): map<Pid, nat> {
    map[0 := if n < 10 then n else 10,
        1 := if n < 10 then 0 else if n < 19 then n - 10 else if n <= 28 then 9 else 10,
        2 := if n < 19 then 0 else if n < 28 then n - 19 else if n <= 29 then 9 else n - 20]
  }

  /** Whose turn it is after n blocks. */
  function Turn(n: nat): Pid {
    if n < 10 then 0 else if n < 19 then 1 else if n < 28 then 2 else if n == 28 then 1 else 2
  }

  lemma OpsNext(n: nat)
    requires n < LOGSIZE
    ensures forall p | p in Ops(n) :: Ops(n)[p] <= MAXOPBLOCKS
    ensures Turn(n) in Ops(n) && Ops(n)[Turn(n)] < MAXOPBLOCKS
    ensures Ops(n + 1) == Ops(n)[Turn(n) := Ops(n)[Turn(n)] + 1]
    ensures n <= 28 ==> Ops(n)[1] < MAXOPBLOCKS && Ops(n)[2] < MAXOPBLOCKS
  {
  }

  /** Three operations are open, nobody holds anything, nothing has been committed. */
  predicate Quiet(s: State) {
    && !s.booting && !s.committing && s.phase == Idle && s.outstanding == 3 && s.committed == 0 && s.passed == map[]
    && s.ops.Keys == {0, 1, 2}
    && forall b | b in s.cache :: Resting(s.cache[b])
  }

  predicate Resting(l: Line) {
    l.valid && l.dirty && l.users == {} && l.holder == None && !l.touched
  }

  ghost predicate Logged(c: Config, s: State, bs: seq<nat>)
    requires c.Valid()
  {
    Reachable(c, s) && Quiet(s) && s.lh == bs && s.cache.Keys == Elements(bs) && s.disk == c.init
  }

  lemma ReachInit(c: Config)
    requires c.Valid()
    ensures Reachable(c, Init(c))
  {
    var states, steps: seq<Step> := [Init(c)], [];
    assert IsRun(c, states, steps) && states[|steps|] == Init(c);
  }

  lemma ReachThreeOps(c: Config) returns (s: State)
    requires c.Valid()
    ensures Logged(c, s, []) && s.ops == Ops(0)
  {
    hide Reachable;
    ReachInit(c);
    s := Init(c);
    ReachableStep(c, s, BeginOp(0));
    s := DoBeginOp(s, 0);
    ReachableStep(c, s, BeginOp(1));
    s := DoBeginOp(s, 1);
    ReachableStep(c, s, BeginOp(2));
    s := DoBeginOp(s, 2);
  }

  // ---- bread, log_write, brelse ----

  lemma ReachTwo(c: Config, s: State, x: Step, y: Step)
    requires c.Valid() && Reachable(c, s) && Enabled(c, s, x) && Enabled(c, Next(c, s, x), y)
    ensures Reachable(c, Next(c, Next(c, s, x), y))
  {
    hide *;
    ReachableStep(c, s, x);
    ReachableStep(c, Next(c, s, x), y);
  }

  lemma DiskSize(c: Config, s: State)
    requires c.Valid() && Reachable(c, s)
    ensures |s.disk| == |s.store| == c.g.size
  {
    ReachableOps(c, s);
    hide Reachable;
  }

  /** p has just read in b, which nobody else uses. */
  predicate Fresh(s: State, p: Pid, b: nat) {
    Holds(s, p, b) && !s.cache[b].touched && !s.cache[b].dirty && s.cache[b].users == {p}
  }

  lemma ReachHeld(c: Config, s: State, p: Pid, b: nat) returns (s': State)
    requires c.Valid() && Reachable(c, s) && !s.booting && b !in s.cache && |s.cache| < NBUF && c.g.Home(b)
    ensures Reachable(c, s') && Fresh(s', p, b) && s' == s.(cache := s.cache[b := s'.cache[b]])
  {
    DiskSize(c, s);
    hide Reachable;
    ReachableStep(c, s, Get(p, b, None));
    var t := DoGet(s, p, b, None);
    ReachTwo(c, t, Lock(p, b), Fill(p, b));
    s' := Next(c, Next(c, t, Lock(p, b)), Fill(p, b));
  }

  /** The tests let p through, with a block that is not logged yet. */
  predicate LetThrough(c: Config, s: State, p: Pid, b: nat) {
    p in s.ops && p !in s.passed && s.ops[p] < MAXOPBLOCKS && b !in s.lh && c.g.Home(b) && !LogWritePanics(c, s)
  }

  /** The state after p has appended to a block that was not logged. */
  function Appended(s: State, p: Pid, b: nat, l: Line): State
    requires p in s.ops && b < |s.store|
  {
    s.(cache := s.cache[b := l], lh := s.lh + [b], ops := s.ops[p := s.ops[p] + 1], passed := s.passed - {p},
       store := s.store[b := l.data], history := s.history + [Wrote(p, b, l.data)])
  }

  lemma ReachAppended(c: Config, s: State, p: Pid, b: nat) returns (s': State)
    requires c.Valid() && Reachable(c, s) && p in s.passed && s.passed[p] == b && p in s.ops && b !in s.lh
    requires Holds(s, p, b) && s.cache[b].users == {p} && b < |s.store|
    ensures Reachable(c, s')
    ensures var l := s.cache[b]; s' == Appended(s, p, b, Line(true, true, {}, None, false, l.data))
  {
    hide Reachable;
    ReachableStep(c, s, Append(p));
    var t := DoAppend(s, p);
    assert {p} - {p} == {};
    ReachTwo(c, t, Unlock(p, b), Put(p, b));
    s' := Next(c, Next(c, t, Unlock(p, b)), Put(p, b));
  }

  /** The whole of bread, log_write and brelse. */
  lemma ReachLogged(c: Config, s: State, p: Pid, b: nat) returns (s': State)
    requires c.Valid() && Reachable(c, s) && Fresh(s, p, b) && LetThrough(c, s, p, b)
    ensures Reachable(c, s')
    ensures b < |s.store| && s' == Appended(s, p, b, Line(true, true, {}, None, false, s.cache[b].data))
  {
    DiskSize(c, s);
    hide Reachable;
    ReachableStep(c, s, LogTest(p, b));
    var t := s.(passed := s.passed[p := b]);
    s' := ReachAppended(c, t, p, b);
    assert s.passed[p := b] - {p} == s.passed;
  }

  lemma CacheSize(s: State, bs: seq<nat>, b: nat)
    requires s.cache.Keys == Elements(bs) && b !in bs
    ensures |s.cache| <= |bs| && b !in s.cache && Elements(bs) + {b} == Elements(bs + [b])
  {
    ElementsSize(bs);
    assert |s.cache.Keys| == |s.cache|;
    assert b !in Elements(bs);
  }

  lemma ReachOneMore(c: Config, s: State, bs: seq<nat>, b: nat) returns (s': State)
    requires c.Valid() && Logged(c, s, bs) && s.ops == Ops(|bs|)
    requires b !in bs && |bs| < LOGSIZE && |bs| < c.g.nlog - 1 && c.g.Home(b)
    ensures Logged(c, s', bs + [b]) && s'.ops == Ops(|bs| + 1)
  {
    hide Reachable, Elements, Ops, Turn, Quiet, Fresh;
    QuietFacts(s, |bs|);
    CacheSize(s, bs, b);
    var p := Turn(|bs|);
    var s1 := ReachHeld(c, s, p, b);
    s' := ReachLogged(c, s1, p, b);
    StillQuiet(s, p, b, s1.cache[b], s');
  }

  lemma QuietFacts(s: State, n: nat)
    requires Quiet(s) && s.ops == Ops(n) && n < LOGSIZE
    ensures !s.booting && s.outstanding == 3 && s.passed == map[] && s.ops.Keys == {0, 1, 2}
    ensures Turn(n) in s.ops && s.ops[Turn(n)] < MAXOPBLOCKS && Ops(n + 1) == s.ops[Turn(n) := s.ops[Turn(n)] + 1]
  {
    OpsNext(n);
  }

  /** What an append leaves: one more block in the log, and nobody holding anything. */
  lemma StillQuiet(s: State, p: Pid, b: nat, l: Line, s': State)
    requires Quiet(s) && p in s.ops && b < |s.store|
    requires s' == Appended(s.(cache := s.cache[b := l]), p, b, Line(true, true, {}, None, false, l.data))
    ensures Quiet(s') && s'.cache.Keys == s.cache.Keys + {b} && s'.disk == s.disk
  {
    assert s'.ops.Keys == s.ops.Keys;
    assert s'.passed == map[];
  }

  lemma {:induction false} ReachManyLogged(c: Config, bs: seq<nat>) returns (s: State)
    requires c.Valid() && NoRepeats(bs) && |bs| < c.g.nlog && |bs| <= LOGSIZE
    requires forall i | 0 <= i < |bs| :: c.g.Home(bs[i])
    ensures Logged(c, s, bs) && s.ops == Ops(|bs|)
  {
    if bs == [] {
      s := ReachThreeOps(c);
    } else {
      var n := |bs| - 1;
      s := ReachManyLogged(c, bs[..n]);
      hide Logged, Ops;
      assert bs[n] !in bs[..n];
      assert bs[..n] + [bs[n]] == bs;
      s := ReachOneMore(c, s, bs[..n], bs[n]);
    }
  }

  // ---- log_write's panics ----

  /** With a log no larger than LOGSIZE, which is what mkfs lays out, and enough home blocks,
      some reachable state has an operation inside its budget, holding a fresh block, whose
      log_write panics. With FreshBlockFits: the guard is harmless if and only if
      nlog > LOGSIZE. */
  lemma SmallLogPanics(c: Config, bs: seq<nat>) returns (s: State, p: Pid)
    requires c.Valid() && c.g.nlog <= LOGSIZE && |bs| == c.g.nlog && NoRepeats(bs)
    requires forall i | 0 <= i < |bs| :: c.g.Home(bs[i])
    ensures Reachable(c, s) && LogWritePanics(c, s) && MayLogWrite(c, s, p, bs[|bs| - 1]) && bs[|bs| - 1] !in s.lh
  {
    var n := |bs| - 1;
    s := ReachManyLogged(c, bs[..n]);
    assert bs[n] !in bs[..n];
    CacheSize(s, bs[..n], bs[n]);
    OpsNext(n);
    hide Reachable, Elements, Ops, Turn;
    p := Turn(n);
    s := ReachHeld(c, s, p, bs[n]);
  }

  /** A block in the cache that nobody has referenced, locked by p. */
  lemma ReachLocked(c: Config, s: State, p: Pid, b: nat) returns (s': State)
    requires c.Valid() && Reachable(c, s) && !s.booting && b in s.cache && b < c.g.size && s.cache[b].users == {}
    requires s.cache[b].holder == None && s.cache[b].valid
    ensures Reachable(c, s') && Holds(s', p, b) && s' == s.(cache := s.cache[b := s'.cache[b]])
  {
    hide Reachable;
    ReachTwo(c, s, Get(p, b, None), Lock(p, b));
    s' := Next(c, Next(c, s, Get(p, b, None)), Lock(p, b));
  }

  /** The size tests come before absorption. With the log as full as either test allows it to
      become, a process inside an operation that holds a block which is logged already meets the
      panic, although the block needs no room. */
  lemma FullLogPanicsOnAbsorption(c: Config, bs: seq<nat>, p: Pid, b: nat) returns (s: State)
    requires c.Valid() && |bs| == (if c.g.nlog > LOGSIZE then LOGSIZE else c.g.nlog - 1) && NoRepeats(bs)
    requires (forall i | 0 <= i < |bs| :: c.g.Home(bs[i])) && p < 3 && b in bs
    ensures Reachable(c, s) && s.lh == bs && b in s.lh && MayLogWrite(c, s, p, b) && LogWritePanics(c, s)
  {
    s := ReachManyLogged(c, bs);
    assert b in Elements(bs);
    hide Reachable, Elements, Ops;
    s := ReachLocked(c, s, p, b);
  }

  // ---- more in the log than the tests allow ----

  lemma BothPass(c: Config, s: State, p: Pid, x: nat, q: Pid, y: nat)
    requires c.Valid() && Reachable(c, s) && p != q && Holds(s, p, x) && Holds(s, q, y)
    requires LetThrough(c, s, p, x) && LetThrough(c, s, q, y) && s.passed == map[]
    ensures Reachable(c, s.(passed := map[p := x, q := y]))
  {
    hide Reachable;
    ReachTwo(c, s, LogTest(p, x), LogTest(q, y));
    assert s.passed[p := x][q := y] == map[p := x, q := y];
  }

  /** What reading in x and y has changed. */
  predicate BothRead(s: State, x: nat, y: nat, s': State) {
    x in s'.cache && y in s'.cache && s' == s.(cache := s.cache[x := s'.cache[x]][y := s'.cache[y]])
  }

  /** And what their appends have. */
  predicate BothAppended(s: State, p: Pid, x: nat, q: Pid, y: nat, s': State)
    requires p in s.ops && q in s.ops && y in s.cache
  {
    && x in s'.cache && y in s'.cache && Resting(s'.cache[x]) && Resting(s'.cache[y])
    && s'.cache[y].data == s.cache[y].data && s'.ops == s.ops[p := s.ops[p] + 1][q := s.ops[q] + 1]
    && s'.lh == s.lh + [x, y] && s'.passed == map[]
    && s' == s.(cache := s.cache[x := s'.cache[x]][y := s'.cache[y]], lh := s'.lh, ops := s'.ops, passed := s'.passed,
                store := s'.store, history := s'.history)
  }

  /** p and q are inside operations with budget left, each holding a fresh block, and room for one
      is all that the tests see: both are let through, and both append. */
  lemma BothAppend(c: Config, s: State, p: Pid, x: nat, q: Pid, y: nat) returns (s': State)
    requires c.Valid() && Reachable(c, s) && p != q && x != y && Fresh(s, p, x) && Holds(s, q, y)
    requires s.cache[y].users == {q} && LetThrough(c, s, p, x) && LetThrough(c, s, q, y) && s.passed == map[]
    ensures Reachable(c, s') && BothAppended(s, p, x, q, y, s')
  {
    hide Reachable;
    DiskSize(c, s);
    BothPass(c, s, p, x, q, y);
    var t := s.(passed := map[p := x, q := y]);
    var u := ReachAppended(c, t, p, x);
    assert t.passed - {p} == map[q := y];
    s' := ReachAppended(c, u, q, y);
    assert s.lh + [x] + [y] == s.lh + [x, y];
    assert u.passed - {q} == map[];
  }

  lemma ReachModified(c: Config, s: State, p: Pid, b: nat, data: Block) returns (s': State)
    requires c.Valid() && Reachable(c, s) && !s.booting && b !in s.cache && |s.cache| < NBUF && c.g.Home(b)
    requires p in s.ops && p !in s.passed
    ensures Reachable(c, s') && Holds(s', p, b) && s'.cache[b].users == {p} && s'.cache[b].data == data
    ensures s' == s.(cache := s.cache[b := s'.cache[b]])
  {
    hide Reachable;
    var t := ReachHeld(c, s, p, b);
    ReachableStep(c, t, Modify(p, b, data));
    s' := Next(c, t, Modify(p, b, data));
  }

  /** Processes 1 and 2 each hold a fresh block, the second with these data. */
  lemma ReachBothHeld(c: Config, s: State, x: nat, y: nat, data: Block) returns (s': State)
    requires c.Valid() && Reachable(c, s) && !s.booting && 2 in s.ops && s.passed == map[]
    requires x !in s.cache && y !in s.cache && x != y && |s.cache| + 2 <= NBUF && c.g.Home(x) && c.g.Home(y)
    ensures Reachable(c, s') && Fresh(s', 1, x) && Holds(s', 2, y) && s'.cache[y].users == {2}
    ensures s'.cache[y].data == data && BothRead(s, x, y, s')
  {
    hide Reachable;
    var t := ReachHeld(c, s, 1, x);
    assert |t.cache| == |s.cache| + 1;
    s' := ReachModified(c, t, 2, y, data);
  }

  lemma QuietAgain(c: Config, s: State, t: State, x: nat, y: nat, s': State)
    requires Quiet(s) && WithinBudget(s) && LetThrough(c, s, 1, x) && LetThrough(c, s, 2, y)
    requires BothRead(s, x, y, t) && BothAppended(t, 1, x, 2, y, s')
    ensures Quiet(s') && WithinBudget(s') && s'.lh == s.lh + [x, y] && s'.cache.Keys == s.cache.Keys + {x} + {y}
    ensures s'.cache[y].data == t.cache[y].data && s'.disk == s.disk
  {
    assert s'.ops.Keys == s.ops.Keys;
  }

  lemma ReachTwoMore(c: Config, s: State, x: nat, y: nat, data: Block) returns (s': State)
    requires c.Valid() && Reachable(c, s) && Quiet(s) && LetThrough(c, s, 1, x) && LetThrough(c, s, 2, y)
    requires x !in s.cache && y !in s.cache && x != y && |s.cache| + 2 <= NBUF
    requires WithinBudget(s)
    ensures Reachable(c, s') && Quiet(s') && WithinBudget(s')
    ensures s'.lh == s.lh + [x, y] && s'.cache.Keys == s.cache.Keys + {x} + {y} && s'.cache[y].data == data
    ensures s'.disk == s.disk
  {
    hide Reachable, Quiet, LetThrough, BothRead, BothAppended, WithinBudget, Holds;
    LetThroughFacts(c, s, x, y);
    var t := ReachBothHeld(c, s, x, y, data);
    SameRoom(c, s, x, y, t);
    s' := BothAppend(c, t, 1, x, 2, y);
    QuietAgain(c, s, t, x, y, s');
  }

  predicate WithinBudget(s: State) {
    forall p | p in s.ops :: s.ops[p] <= MAXOPBLOCKS
  }

  lemma LetThroughFacts(c: Config, s: State, x: nat, y: nat)
    requires Quiet(s) && LetThrough(c, s, 1, x) && LetThrough(c, s, 2, y)
    ensures !s.booting && 1 in s.ops && 2 in s.ops && s.passed == map[] && c.g.Home(x) && c.g.Home(y)
  {
  }

  /** So in every log area of two to LOGSIZE blocks, operations within their budgets fill more of
      the log than there is room for: one block more than the tests allow, which is as many as the
      area has, with its header. */
  lemma ReachOverrun(c: Config, bs: seq<nat>, x: nat, y: nat, data: Block) returns (s: State)
    requires c.Valid() && 2 <= c.g.nlog <= LOGSIZE && |bs| == c.g.nlog - 2 && NoRepeats(bs + [x, y])
    requires (forall i | 0 <= i < |bs| :: c.g.Home(bs[i])) && c.g.Home(x) && c.g.Home(y)
    ensures Logged(c, s, bs + [x, y]) && s.cache[y].data == data && WithinBudget(s)
  {
    LastTwo(bs, x, y);
    var s0 := ReachManyLogged(c, bs);
    OpsNext(|bs|);
    hide Reachable, Elements, Ops, NoRepeats, Quiet;
    QuietOps(s0);
    assert WithinBudget(s0);
    hide WithinBudget;
    CacheSize(s0, bs, x);
    CacheSize(s0, bs, y);
    RoomForOne(c, s0, 1, x);
    RoomForOne(c, s0, 2, y);
    hide LetThrough;
    s := ReachTwoMore(c, s0, x, y, data);
  }

  lemma RoomForOne(c: Config, s: State, p: Pid, b: nat)
    requires Quiet(s) && p in s.ops && s.ops[p] < MAXOPBLOCKS && b !in s.lh && c.g.Home(b)
    requires |s.lh| < c.g.nlog - 1 && |s.lh| < LOGSIZE
    ensures LetThrough(c, s, p, b)
  {
  }

  lemma SameRoom(c: Config, s: State, x: nat, y: nat, t: State)
    requires BothRead(s, x, y, t)
    ensures t.lh == s.lh && t.ops == s.ops && t.passed == s.passed
    ensures forall p, b :: LetThrough(c, s, p, b) ==> LetThrough(c, t, p, b)
  {
  }

  lemma LastTwo(bs: seq<nat>, x: nat, y: nat)
    requires NoRepeats(bs + [x, y])
    ensures NoRepeats(bs) && x !in bs && y !in bs && x != y && Elements(bs + [x, y]) == Elements(bs) + {x} + {y}
  {
    var h := bs + [x, y];
    assert h[|bs|] == x && h[|bs| + 1] == y && forall i | 0 <= i < |bs| :: h[i] == bs[i];
  }

  lemma QuietOps(s: State)
    requires Quiet(s)
    ensures !s.booting && s.ops.Keys == {0, 1, 2} && s.passed == map[] && s.outstanding == 3
  {
  }

  // ---- bget's panic ----

  /** The blocks bs logged, and hs held by p. */
  ghost predicate LoggedAndHeld(c: Config, s: State, bs: seq<nat>, hs: seq<nat>, p: Pid)
    requires c.Valid()
  {
    && Reachable(c, s) && !s.booting && s.phase == Idle && s.lh == bs && p in s.ops
    && s.cache.Keys == Elements(bs + hs) && (forall b | b in bs :: b in s.cache && s.cache[b].dirty)
    && forall b | b in hs :: Holds(s, p, b) && p in s.cache[b].users
  }

  lemma OneMoreHeld(c: Config, s: State, bs: seq<nat>, hs: seq<nat>, p: Pid, b: nat) returns (s': State)
    requires c.Valid() && LoggedAndHeld(c, s, bs, hs, p) && b !in bs + hs && |bs + hs| < NBUF && c.g.Home(b)
    ensures LoggedAndHeld(c, s', bs, hs + [b], p)
  {
    CacheSize(s, bs + hs, b);
    hide Reachable, Elements;
    s' := ReachHeld(c, s, p, b);
    assert bs + (hs + [b]) == bs + hs + [b];
    StillHeld(s, bs, hs, p, b, s');
  }

  lemma StillHeld(s: State, bs: seq<nat>, hs: seq<nat>, p: Pid, b: nat, s': State)
    requires (forall x | x in bs :: x in s.cache && s.cache[x].dirty) && b !in s.cache && Fresh(s', p, b)
    requires (forall x | x in hs :: Holds(s, p, x) && p in s.cache[x].users) &&
             s' == s.(cache := s.cache[b := s'.cache[b]])
    ensures forall x | x in bs :: x in s'.cache && s'.cache[x].dirty
    ensures forall x | x in hs + [b] :: Holds(s', p, x) && p in s'.cache[x].users
  {
  }

  lemma NoneHeld(c: Config, s: State, bs: seq<nat>, p: Pid)
    requires c.Valid() && Logged(c, s, bs) && p < 3
    ensures LoggedAndHeld(c, s, bs, [], p)
  {
    assert bs + [] == bs;
    forall b | b in bs ensures b in s.cache && s.cache[b].dirty {
      assert b in Elements(bs);
    }
    hide Reachable, Elements;
  }

  lemma {:induction false} ReachManyHeld(c: Config, bs: seq<nat>, hs: seq<nat>, p: Pid) returns (s: State)
    requires c.Valid() && NoRepeats(bs + hs) && |bs| < c.g.nlog && |bs| <= LOGSIZE && |bs + hs| <= NBUF && p < 3
    requires forall i | 0 <= i < |bs + hs| :: c.g.Home((bs + hs)[i])
    ensures LoggedAndHeld(c, s, bs, hs, p)
  {
    assert forall i | 0 <= i < |bs| :: bs[i] == (bs + hs)[i];
    hide LoggedAndHeld, Logged;
    if hs == [] {
      s := ReachManyLogged(c, bs);
      NoneHeld(c, s, bs, p);
    } else {
      var n := |hs| - 1;
      var done, b := bs + hs[..n], hs[n];
      assert hs == hs[..n] + [b];
      assert (bs + hs)[|done|] == b && forall i | 0 <= i < |done| :: done[i] == (bs + hs)[i];
      s := ReachManyHeld(c, bs, hs[..n], p);
      s := OneMoreHeld(c, s, bs, hs[..n], p, b);
    }
  }

  /** However the buffers are divided between blocks that are logged and blocks that a process
      inside an operation holds, there are reachable states in which that process's next bget
      panics. With the log area mkfs makes, 29 logged blocks and one held are enough. */
  lemma BgetPanics(c: Config, bs: seq<nat>, hs: seq<nat>, p: Pid, b: nat) returns (s: State)
    requires c.Valid() && NoRepeats(bs + hs) && |bs| < c.g.nlog && |bs + hs| == NBUF
    requires (forall i | 0 <= i < |bs + hs| :: c.g.Home((bs + hs)[i])) && b < c.g.size && b !in bs + hs && p < 3
    ensures Reachable(c, s) && p in s.ops && s.lh == bs && (forall x | x in hs :: Holds(s, p, x))
    ensures b !in s.cache && forall victim :: !CanGet(c, s, p, b, victim)
  {
    s := ReachManyHeld(c, bs, hs, p);
    CacheSize(s, bs + hs, b);
    ElementsSize(bs + hs);
    assert |s.cache.Keys| == |s.cache|;
    hide Reachable;
    forall v | v in s.cache ensures s.cache[v].users != {} || s.cache[v].dirty {
      assert v in Elements(bs + hs);
    }
  }

  /** So with room for a full log it is reached, and no run gets out of it but by a crash
      (FullLogNeverCommits). */
  lemma LargeLogSticks(c: Config, bs: seq<nat>) returns (s: State)
    requires c.Valid() && c.g.nlog > LOGSIZE && |bs| == LOGSIZE && NoRepeats(bs)
    requires forall i | 0 <= i < |bs| :: c.g.Home(bs[i])
    ensures Reachable(c, s) && Stuck(s) && s.lh == bs && WithinBudget(s)
  {
    s := ReachManyLogged(c, bs);
  }

  /** And with as much room as mkfs leaves it is reached past the tests. */
  lemma MkfsLogSticks(c: Config, bs: seq<nat>) returns (s: State)
    requires c.Valid() && c.g.nlog == LOGSIZE && |bs| == LOGSIZE && NoRepeats(bs)
    requires forall i | 0 <= i < |bs| :: c.g.Home(bs[i])
    ensures Reachable(c, s) && Stuck(s) && s.lh == bs && WithinBudget(s)
  {
    var n := |bs| - 2;
    assert bs[..n] + [bs[n], bs[n + 1]] == bs;
    hide Reachable, Elements, NoRepeats;
    s := ReachOverrun(c, bs[..n], bs[n], bs[n + 1], ZeroBlock());
  }
}
