/** What a commit, or a recovery, can still do. From every reachable state in which one is under way
    some continuation without a crash completes it, whoever holds which buffers, unless the log has
    as many blocks as there are buffers; then none does. */
module LogProgress {
  import opened Blocks
  import opened LogFormat
  import opened LogInvariant
  import opened LogSystem
  import opened LogTheorems
  import opened Params
  import opened Sets

  // ---- continuations ----

  ghost predicate Path(c: Config, states: seq<State>, steps: seq<Step>) {
    && |states| == |steps| + 1
    && forall i | 0 <= i < |steps| ::
         !steps[i].Crash? && Enabled(c, states[i], steps[i]) && states[i + 1] == Next(c, states[i], steps[i])
  }

  /** Some steps, none of them a crash, lead from s to t. */
  ghost predicate Continues(c: Config, s: State, t: State) {
    exists states: seq<State>, steps: seq<Step> ::
      Path(c, states, steps) && states[0] == s && states[|steps|] == t
  }

  lemma Stays(c: Config, s: State)
    ensures Continues(c, s, s)
  {
    var states, steps: seq<Step> := [s], [];
    assert Path(c, states, steps) && states[0] == s && states[|steps|] == s;
  }

  lemma GoesOn(c: Config, s: State, t: State, step: Step)
    requires Continues(c, s, t) && Enabled(c, t, step) && !step.Crash?
    ensures Continues(c, s, Next(c, t, step))
  {
    hide Enabled, Next;
    var states: seq<State>, steps: seq<Step> :|
      Path(c, states, steps) && states[0] == s && states[|steps|] == t;
    var states', steps' := states + [Next(c, t, step)], steps + [step];
    assert Path(c, states', steps') && states'[0] == s && states'[|steps'|] == Next(c, t, step);
  }

  lemma {:induction false} PathReaches(c: Config, states: seq<State>, steps: seq<Step>, k: nat)
    requires c.Valid() && Path(c, states, steps) && Reachable(c, states[0]) && k < |states|
    ensures Reachable(c, states[k])
  {
    hide Reachable, Enabled, Next;
    if k > 0 {
      PathReaches(c, states, steps, k - 1);
      assert !steps[k - 1].Crash?;
      ReachableStep(c, states[k - 1], steps[k - 1]);
    }
  }

  lemma Reaches(c: Config, s: State, t: State)
    requires c.Valid() && Reachable(c, s) && Continues(c, s, t)
    ensures Reachable(c, t)
  {
    var states: seq<State>, steps: seq<Step> :|
      Path(c, states, steps) && states[0] == s && states[|steps|] == t;
    hide Reachable, Path;
    PathReaches(c, states, steps, |steps|);
  }

  // ---- everybody lets go ----

  function Using(s: State, b: nat, users: set<Pid>): State
    requires b in s.cache
  {
    SetLine(s, b, s.cache[b].(users := users))
  }

  lemma UsingTwice(s: State, b: nat, u: set<Pid>, v: set<Pid>)
    requires b in s.cache
    ensures Using(Using(s, b, u), b, v) == Using(s, b, v) && Using(s, b, s.cache[b].users) == s
  {
    assert s.cache[b := s.cache[b].(users := u)][b := s.cache[b].(users := v)] == s.cache[b := s.cache[b].(users := v)];
    assert s.cache[b := s.cache[b]] == s.cache;
  }

  lemma PutOne(c: Config, s0: State, s: State, b: nat, p: Pid)
    requires Continues(c, s0, s) && b in s.cache && s.cache[b].holder == None && p in s.cache[b].users
    ensures Continues(c, s0, Using(s, b, s.cache[b].users - {p}))
  {
    hide Continues;
    GoesOn(c, s0, s, Put(p, b));
  }

  lemma {:induction false} DropUsers(c: Config, s0: State, s: State, b: nat)
    requires Continues(c, s0, s) && b in s.cache && s.cache[b].holder == None
    ensures Continues(c, s0, Using(s, b, {}))
    decreases |s.cache[b].users|
  {
    hide Continues;
    var users := s.cache[b].users;
    UsingTwice(s, b, {}, {});
    if users != {} {
      var p :| p in users;
      PutOne(c, s0, s, b, p);
      UsingTwice(s, b, users - {p}, {});
      DropUsers(c, s0, Using(s, b, users - {p}), b);
    }
  }

  function LetGo(l: Line): Line {
    l.(holder := None, users := {})
  }

  lemma ReleaseLine(c: Config, s0: State, s: State, b: nat) returns (s': State)
    requires Continues(c, s0, s) && s.passed == map[] && b in s.cache && !s.cache[b].touched
    ensures Continues(c, s0, s') && s' == s.(cache := s.cache[b := LetGo(s.cache[b])])
  {
    hide Continues;
    var t := s;
    if s.cache[b].holder.Some? {
      var p := s.cache[b].holder.value;
      GoesOn(c, s0, s, Unlock(p, b));
      t := Next(c, s, Unlock(p, b));
    }
    DropUsers(c, s0, t, b);
    s' := Using(t, b, {});
    assert t.cache[b := LetGo(s.cache[b])] == s.cache[b := LetGo(s.cache[b])];
  }

  /** Every block whose buffer is in use; the others look as if they had been let go. */
  function InUse(s: State): set<nat> {
    set b | b in s.cache && s.cache[b] != LetGo(s.cache[b])
  }

  lemma {:induction false} ReleaseAll(c: Config, s0: State, s: State) returns (s': State)
    requires Continues(c, s0, s) && s.passed == map[] && forall b | b in s.cache :: !s.cache[b].touched
    ensures Continues(c, s0, s') && s' == s.(cache := s'.cache) && s'.cache.Keys == s.cache.Keys
    ensures forall b | b in s.cache :: s'.cache[b] == LetGo(s.cache[b])
    decreases InUse(s)
  {
    hide Continues;
    if InUse(s) == {} {
      s' := s;
      forall b | b in s.cache ensures s.cache[b] == LetGo(s.cache[b]) {
        assert b !in InUse(s);
      }
    } else {
      var b :| b in InUse(s);
      var t := ReleaseLine(c, s0, s, b);
      assert t.cache.Keys == s.cache.Keys;
      assert InUse(t) == InUse(s) - {b};
      s' := ReleaseAll(c, s0, t);
    }
  }

  // ---- bread and brelse of the agent ----

  /** Nobody uses a buffer, only logged blocks are dirty, and they leave a buffer over. */
  predicate Calm(c: Config, s: State) {
    && s.passed == map[] && |s.disk| == |s.store| == c.g.size
    && |s.cache| <= NBUF && |s.lh| < NBUF
    && forall b | b in s.cache :: CalmLine(s, b, s.cache[b])
  }

  predicate CalmLine(s: State, b: nat, l: Line) {
    l.users == {} && l.holder == None && !l.touched && (l.dirty ==> l.valid && b in s.lh)
  }

  /** The line of a block that the agent has just got by bread. */
  function ReadLine(s: State, b: nat): Line
    requires b < |s.disk|
  {
    var data := if b in s.cache && s.cache[b].valid then s.cache[b].data else s.disk[b];
    Line(true, b in s.cache && s.cache[b].dirty, {s.agent}, Some(s.agent), false, data)
  }

  predicate Free(l: Line) {
    l.users == {} && !l.dirty
  }

  /** A buffer can be found for b. */
  predicate Found(s: State, b: nat) {
    b in s.cache || |s.cache| < NBUF || exists v | v in s.cache :: Free(s.cache[v])
  }

  /** bread recycles at most a free buffer, and touches no other. */
  ghost predicate HasRead(s: State, b: nat, s': State)
    requires b < |s.disk|
  {
    && s' == s.(cache := s'.cache) && b in s'.cache && s'.cache[b] == ReadLine(s, b)
    && (forall x | x in s'.cache && x != b :: x in s.cache && s'.cache[x] == s.cache[x])
    && (forall x | x in s.cache && !Free(s.cache[x]) :: x in s'.cache)
    && |s'.cache| <= NBUF
  }

  lemma GetBuffer(c: Config, s: State, b: nat) returns (victim: Option<nat>)
    requires Found(s, b) && b < c.g.size && |s.cache| <= NBUF
    requires b in s.cache ==> s.cache[b].users == {}
    ensures CanGet(c, s, s.agent, b, victim)
    ensures var s' := DoGet(s, s.agent, b, victim);
            && s' == s.(cache := s'.cache) && b in s'.cache && s'.cache[b].users == {s.agent}
            && (if b in s.cache then s'.cache[b] == s.cache[b].(users := {s.agent})
                else s'.cache[b] == Line(false, false, {s.agent}, None, false, ZeroBlock()))
            && (forall x | x in s'.cache && x != b :: x in s.cache && s'.cache[x] == s.cache[x])
            && (forall x | x in s.cache && !Free(s.cache[x]) :: x in s'.cache)
            && |s'.cache| <= NBUF
  {
    victim := None;
    if b !in s.cache && |s.cache| >= NBUF {
      var v :| v in s.cache && Free(s.cache[v]);
      victim := Some(v);
      assert |s.cache - {v}| == |s.cache| - 1;
    } else if b in s.cache {
      assert (s.cache[b := s.cache[b].(users := {s.agent})]).Keys == s.cache.Keys;
      assert |s.cache[b := s.cache[b].(users := {s.agent})].Keys| == |s.cache.Keys|;
      assert {} + {s.agent} == {s.agent};
    }
  }

  lemma LockAndFill(c: Config, s0: State, s: State, b: nat) returns (s': State)
    requires Continues(c, s0, s) && b in s.cache && s.cache[b].holder == None && b < |s.disk|
    requires s.cache[b].users == {s.agent} && !s.cache[b].touched
    ensures Continues(c, s0, s') && s' == s.(cache := s.cache[b := ReadLine(s, b)])
  {
    hide Continues;
    GoesOn(c, s0, s, Lock(s.agent, b));
    s' := Next(c, s, Lock(s.agent, b));
    if !s.cache[b].valid {
      GoesOn(c, s0, s', Fill(s.agent, b));
      s' := Next(c, s', Fill(s.agent, b));
    }
    assert s'.cache == s.cache[b := s'.cache[b]];
  }

  lemma Bread(c: Config, s0: State, s: State, b: nat) returns (s': State)
    requires Continues(c, s0, s) && Found(s, b) && b < c.g.size == |s.disk| && |s.cache| <= NBUF
    requires b in s.cache ==> s.cache[b].users == {} && s.cache[b].holder == None && !s.cache[b].touched
    ensures Continues(c, s0, s') && HasRead(s, b, s')
  {
    hide Continues, Found;
    var victim := GetBuffer(c, s, b);
    GoesOn(c, s0, s, Get(s.agent, b, victim));
    var t := DoGet(s, s.agent, b, victim);
    hide DoGet, CanGet, Enabled, Next;
    s' := LockAndFill(c, s0, t, b);
    assert s'.cache.Keys == t.cache.Keys;
    assert |s'.cache.Keys| == |t.cache.Keys|;
  }

  /** The agent holds b's buffer, alone. */
  predicate Grips(s: State, b: nat) {
    b in s.cache && s.cache[b].valid && s.cache[b].users == {s.agent} && s.cache[b].holder == Some(s.agent) &&
    !s.cache[b].touched
  }

  lemma Brelse(c: Config, s0: State, s: State, b: nat) returns (s': State)
    requires Continues(c, s0, s) && s.passed == map[] && Grips(s, b)
    ensures Continues(c, s0, s') && s' == s.(cache := s.cache[b := LetGo(s.cache[b])])
  {
    s' := ReleaseLine(c, s0, s, b);
  }

  lemma CalmFound(c: Config, s: State, b: nat)
    requires Calm(c, s)
    ensures Found(s, b)
  {
    if b !in s.cache && |s.cache| == NBUF {
      ElementsSize(s.lh);
      assert |s.cache.Keys| == |s.cache|;
      if s.cache.Keys <= Elements(s.lh) {
        SubsetSize(s.cache.Keys, Elements(s.lh));
      }
      var v :| v in s.cache.Keys && v !in Elements(s.lh);
      assert CalmLine(s, v, s.cache[v]);
      assert Free(s.cache[v]);
    }
  }

  /** Both buffers of a round are at hand: the second one is dirty, or none is. */
  predicate AtHand(s: State, b: nat) {
    (b in s.cache && s.cache[b].dirty) || forall x | x in s.cache :: !s.cache[x].dirty
  }

  lemma SecondFound(c: Config, s: State, a: nat, s1: State, b: nat)
    requires Calm(c, s) && a < |s.disk| && HasRead(s, a, s1) && AtHand(s, b) && a != b
    ensures Found(s1, b)
  {
    if b !in s1.cache && |s1.cache| == NBUF {
      assert |s1.cache.Keys| == |s1.cache|;
      if s1.cache.Keys <= {a} {
        SubsetSize(s1.cache.Keys, {a});
      }
      var v :| v in s1.cache.Keys && v != a;
      assert CalmLine(s, v, s.cache[v]) && Free(s1.cache[v]);
    }
  }

  /** The two breads of a round of write_log or install_trans. */
  ghost predicate HasBoth(s: State, a: nat, b: nat, s': State)
    requires a < |s.disk|
  {
    && s' == s.(cache := s'.cache) && Grips(s', a) && Grips(s', b)
    && s'.cache[a] == ReadLine(s, a)
    && s'.cache[b].dirty == (b in s.cache && s.cache[b].dirty)
    && (b in s.cache && s.cache[b].dirty ==> s'.cache[b].data == s.cache[b].data)
    && (forall x | x in s'.cache && x != a && x != b :: x in s.cache && s'.cache[x] == s.cache[x])
    && (forall x | x in s.cache && !Free(s.cache[x]) :: x in s'.cache)
    && |s'.cache| <= NBUF
  }

  lemma BreadTwo(c: Config, s0: State, s: State, a: nat, b: nat) returns (s': State)
    requires Continues(c, s0, s) && Calm(c, s) && a < c.g.size && b < c.g.size && a != b && AtHand(s, b)
    ensures Continues(c, s0, s') && HasBoth(s, a, b, s')
  {
    hide Continues, Found;
    CalmFound(c, s, a);
    assert a in s.cache ==> CalmLine(s, a, s.cache[a]);
    assert b in s.cache ==> CalmLine(s, b, s.cache[b]);
    var s1 := Bread(c, s0, s, a);
    SecondFound(c, s, a, s1, b);
    s' := Bread(c, s0, s1, b);
    ReadBoth(c, s, a, s1, b, s');
  }

  lemma ReadBoth(c: Config, s: State, a: nat, s1: State, b: nat, s2: State)
    requires Calm(c, s) && a < c.g.size && b < c.g.size && a != b && HasRead(s, a, s1) && HasRead(s1, b, s2)
    ensures HasBoth(s, a, b, s2)
  {
    assert !Free(s1.cache[a]);
    assert b in s.cache ==> CalmLine(s, b, s.cache[b]);
    hide Calm;
  }

  /** The bwrite of a round, and both brelses: the cache is calm again, and of the dirty lines only
      that of the block written has changed. */
  ghost predicate RoundDone(s: State, to: nat, data: Block, s': State)
    requires to < |s.disk| == |s.store|
  {
    && s' == s.(cache := s'.cache, disk := s.disk[to := data], store := s.store[to := data], phase := s'.phase)
    && (forall x | x in s.cache && s.cache[x].dirty && x != to :: x in s'.cache && s'.cache[x] == s.cache[x])
    && (forall x | x in s'.cache && s'.cache[x].dirty :: x != to && x in s.cache && s.cache[x].dirty)
  }

  lemma RoundLines(c: Config, s: State, s2: State, a: nat, b: nat, to: nat, data: Block, s': State)
    requires Calm(c, s) && a < c.g.size && b < c.g.size && a != b && HasBoth(s, a, b, s2) && (to == a || to == b)
    requires var w := s2.cache[to := s2.cache[to].(data := data, dirty := false)];
             s' == s.(cache := w[a := LetGo(w[a])][b := LetGo(w[b])],
                      disk := s.disk[to := data], store := s.store[to := data], phase := s'.phase)
    ensures Calm(c, s') && RoundDone(s, to, data, s')
  {
    assert s'.cache.Keys == s2.cache.Keys;
    assert |s'.cache.Keys| == |s2.cache.Keys|;
    RoundCalm(c, s, s2, a, b, to, data, s');
    RoundDirty(c, s, s2, a, b, to, data, s');
    hide CalmLine, HasBoth;
  }

  lemma RoundDirty(c: Config, s: State, s2: State, a: nat, b: nat, to: nat, data: Block, s': State)
    requires Calm(c, s) && a < c.g.size && b < c.g.size && a != b && HasBoth(s, a, b, s2) && (to == a || to == b)
    requires var w := s2.cache[to := s2.cache[to].(data := data, dirty := false)];
             s'.cache == w[a := LetGo(w[a])][b := LetGo(w[b])]
    ensures forall x | x in s.cache && s.cache[x].dirty && x != to :: x in s'.cache && s'.cache[x] == s.cache[x]
    ensures forall x | x in s'.cache && s'.cache[x].dirty :: x != to && x in s.cache && s.cache[x].dirty
  {
    forall x | x in s.cache && s.cache[x].dirty && x != to ensures x in s'.cache && s'.cache[x] == s.cache[x] {
      assert CalmLine(s, x, s.cache[x]) && !Free(s.cache[x]);
    }
  }

  lemma RoundCalm(c: Config, s: State, s2: State, a: nat, b: nat, to: nat, data: Block, s': State)
    requires Calm(c, s) && a < c.g.size && b < c.g.size && a != b && HasBoth(s, a, b, s2) && (to == a || to == b)
    requires s'.lh == s.lh && var w := s2.cache[to := s2.cache[to].(data := data, dirty := false)];
             s'.cache == w[a := LetGo(w[a])][b := LetGo(w[b])]
    ensures forall x | x in s'.cache :: CalmLine(s', x, s'.cache[x])
  {
    forall x | x in s'.cache ensures CalmLine(s', x, s'.cache[x]) {
      assert x in s.cache ==> CalmLine(s, x, s.cache[x]);
    }
  }

  lemma BrelseTwo(c: Config, s0: State, s: State, a: nat, b: nat) returns (s': State)
    requires Continues(c, s0, s) && s.passed == map[] && Grips(s, a) && Grips(s, b) && a != b
    ensures Continues(c, s0, s')
    ensures s' == s.(cache := s.cache[a := LetGo(s.cache[a])][b := LetGo(s.cache[b])])
  {
    hide Continues;
    var t := Brelse(c, s0, s, a);
    s' := Brelse(c, s0, t, b);
  }

  // ---- write_log ----

  lemma CopyRound(c: Config, s0: State, s: State) returns (s': State)
    requires Continues(c, s0, s) && Calm(c, s) && s.phase.WriteLog? && s.phase.i < |s.lh|
    requires var to, from := c.g.start + 1 + s.phase.i, s.lh[s.phase.i];
             to < c.g.size && to !in s.lh && from < c.g.size && from in s.cache && s.cache[from].dirty
    ensures Continues(c, s0, s') && Calm(c, s') && s'.phase == WriteLog(s.phase.i + 1)
    ensures RoundDone(s, c.g.start + 1 + s.phase.i, s.cache[s.lh[s.phase.i]].data, s')
  {
    hide Continues, Calm, RoundDone;
    var to, from := c.g.start + 1 + s.phase.i, s.lh[s.phase.i];
    assert from in s.lh;
    CalmFacts(c, s);
    var s2 := BreadTwo(c, s0, s, to, from);
    GoesOn(c, s0, s2, CopyToLog);
    var s3 := DoCopyToLog(c, s2);
    s' := BrelseTwo(c, s0, s3, to, from);
    RoundLines(c, s, s2, to, from, to, s.cache[from].data, s');
  }

  lemma CalmFacts(c: Config, s: State)
    requires Calm(c, s)
    ensures s.passed == map[] && |s.disk| == |s.store| == c.g.size && |s.lh| < NBUF && |s.cache| <= NBUF
  {
  }

  /** The copies from i on are made in blocks that are not logged themselves. */
  predicate CopiesApart(c: Config, s: State) {
    c.g.start + |s.lh| < c.g.size && forall x | x in s.lh :: !(c.g.start < x <= c.g.start + |s.lh|)
  }

  /** The logged blocks from i on are in the cache, dirty. */
  predicate LoadedFrom(s: State, i: nat) {
    forall j | i <= j < |s.lh| :: s.lh[j] in s.cache && s.cache[s.lh[j]].dirty
  }

  /** What a step of the agent leaves alone. */
  predicate SameRun(s: State, s': State) {
    s'.history == s.history && s'.committing == s.committing && s'.booting == s.booting && s'.agent == s.agent &&
    s'.ops == s.ops && s'.outstanding == s.outstanding
  }

  lemma {:induction false} CopyAll(c: Config, s0: State, s: State) returns (s': State)
    requires Continues(c, s0, s) && Calm(c, s) && s.phase.WriteLog? && s.phase.i <= |s.lh|
    requires c.g.Entries(s.lh) && CopiesApart(c, s) && LoadedFrom(s, 0)
    ensures Continues(c, s0, s') && Calm(c, s') && s'.phase == WriteLog(|s.lh|) && s'.lh == s.lh && LoadedFrom(s', 0)
    ensures SameRun(s, s') && s'.committed == s.committed
    ensures |s'.disk| == |s.disk| == c.g.size && s'.disk[c.g.start] == s.disk[c.g.start]
    ensures s.phase.i < |s.lh| ==> s'.disk[c.g.start + |s.lh|] == s.cache[s.lh[|s.lh| - 1]].data
    ensures s.phase.i == |s.lh| ==> s' == s
    decreases |s.lh| - s.phase.i
  {
    hide Continues, Calm;
    CalmFacts(c, s);
    if s.phase.i == |s.lh| {
      s' := s;
    } else {
      assert s.lh[s.phase.i] in s.lh;
      var t := CopyRound(c, s0, s);
      forall j | 0 <= j < |s.lh| ensures s.lh[j] in t.cache && t.cache[s.lh[j]] == s.cache[s.lh[j]] {
        assert s.lh[j] in s.lh;
      }
      s' := CopyAll(c, s0, t);
    }
  }

  // ---- write_head, install_trans, the clearing of the header ----

  /** What holds of the agent's work from the commit point on. */
  predicate Installing(c: Config, s: State) {
    && s.phase.Install? && s.phase.i <= |s.lh| && s.committed == |s.history| && c.g.Entries(s.lh) && NoRepeats(s.lh)
    && |s.lh| < c.g.nlog && c.g.Valid()
    && (if s.booting then forall x | x in s.cache :: !s.cache[x].dirty else LoadedFrom(s, s.phase.i))
    && forall x | x in s.cache && s.cache[x].dirty :: LoggedFrom(s.lh, s.phase.i, x)
  }

  predicate LoggedFrom(h: seq<nat>, i: nat, x: nat) {
    exists j | i <= j < |h| :: h[j] == x
  }

  /** One bwrite of a block that is not logged, and its brelse. */
  lemma OneLine(c: Config, s: State, b: nat, s1: State, l: Line, s': State)
    requires Calm(c, s) && b < c.g.size && HasRead(s, b, s1) && b !in s.lh
    requires l == ReadLine(s, b).(data := l.data, dirty := false)
    requires s'.cache == s1.cache[b := LetGo(l)] && s'.passed == s.passed && (s'.lh == s.lh || s'.lh == [])
    requires |s'.disk| == |s'.store| == c.g.size && (s'.lh == [] ==> forall x | x in s.cache :: !s.cache[x].dirty)
    ensures Calm(c, s')
    ensures forall x | x in s.cache && s.cache[x].dirty :: x in s'.cache && s'.cache[x] == s.cache[x]
    ensures forall x | x in s'.cache && s'.cache[x].dirty :: x in s.cache && s.cache[x].dirty
  {
    assert s'.cache.Keys == s1.cache.Keys;
    assert |s'.cache.Keys| == |s1.cache.Keys|;
    forall x | x in s.cache && s.cache[x].dirty ensures x in s'.cache && s'.cache[x] == s.cache[x] {
      assert CalmLine(s, x, s.cache[x]) && !Free(s.cache[x]);
    }
    forall x | x in s'.cache ensures CalmLine(s', x, s'.cache[x]) {
      assert x in s.cache ==> CalmLine(s, x, s.cache[x]);
    }
  }

  lemma HeadRound(c: Config, s0: State, s: State) returns (s': State)
    requires Continues(c, s0, s) && Calm(c, s) && s.phase == WriteLog(|s.lh|) && s.lh != [] && LoadedFrom(s, 0)
    requires c.g.Valid() && c.g.Entries(s.lh) && NoRepeats(s.lh) && |s.lh| < c.g.nlog && !s.booting
    ensures Continues(c, s0, s') && Calm(c, s') && Installing(c, s') && SameRun(s, s')
  {
    hide Continues, Calm, WriteHeader, NoRepeats, Installing, LoadedFrom;
    CalmFacts(c, s);
    CalmFound(c, s, c.g.start);
    CalmLineOf(c, s, c.g.start);
    var s1 := Bread(c, s0, s, c.g.start);
    GoesOn(c, s0, s1, WriteHead);
    var s2 := DoWriteHead(c, s1);
    s' := Brelse(c, s0, s2, c.g.start);
    OneLine(c, s, c.g.start, s1, s2.cache[c.g.start], s');
    HeadLeft(c, s, s');
  }

  lemma HeadLeft(c: Config, s: State, s': State)
    requires Calm(c, s) && LoadedFrom(s, 0) && !s.booting && !s'.booting && s'.lh == s.lh
    requires c.g.Valid() && c.g.Entries(s.lh) && NoRepeats(s.lh) && |s.lh| < c.g.nlog
    requires s'.phase == Install(0) && s'.committed == |s'.history|
    requires forall x | x in s.cache && s.cache[x].dirty :: x in s'.cache && s'.cache[x] == s.cache[x]
    requires forall x | x in s'.cache && s'.cache[x].dirty :: x in s.cache && s.cache[x].dirty
    ensures Installing(c, s')
  {
    hide NoRepeats;
    forall x | x in s'.cache && s'.cache[x].dirty ensures LoggedFrom(s.lh, 0, x) {
      CalmLineOf(c, s, x);
      var j :| 0 <= j < |s.lh| && s.lh[j] == x;
    }
  }

  lemma CalmLineOf(c: Config, s: State, b: nat)
    requires Calm(c, s)
    ensures b in s.cache ==> CalmLine(s, b, s.cache[b])
  {
  }

  lemma InstallingFacts(c: Config, s: State)
    requires Installing(c, s) && s.phase.i < |s.lh|
    ensures s.phase.Install? && c.g.start + 1 + s.phase.i < c.g.size && s.lh[s.phase.i] < c.g.size
    ensures c.g.start + 1 + s.phase.i != s.lh[s.phase.i] && AtHand(s, s.lh[s.phase.i])
  {
  }

  lemma InstallRound(c: Config, s0: State, s: State) returns (s': State)
    requires Continues(c, s0, s) && Calm(c, s) && Installing(c, s) && s.phase.i < |s.lh|
    ensures Continues(c, s0, s') && Calm(c, s') && Installing(c, s') && SameRun(s, s')
    ensures s'.phase == Install(s.phase.i + 1) && s'.lh == s.lh
  {
    hide Continues, Calm, Installing, RoundDone;
    CalmFacts(c, s);
    InstallingFacts(c, s);
    var from, to := c.g.start + 1 + s.phase.i, s.lh[s.phase.i];
    var s2 := BreadTwo(c, s0, s, from, to);
    s' := InstallHeld(c, s0, s2, from, to);
    RoundLines(c, s, s2, from, to, to, s2.cache[from].data, s');
    InstallLeft(c, s, s2.cache[from].data, s');
  }

  /** After the bwrite of a round and both brelses. */
  function AfterRound(s: State, from: nat, to: nat): State
    requires from in s.cache && to in s.cache && to < |s.disk| == |s.store|
  {
    var data := s.cache[from].data;
    var w := s.cache[to := s.cache[to].(data := data, dirty := false)];
    s.(cache := w[from := LetGo(w[from])][to := LetGo(w[to])],
       disk := s.disk[to := data], store := s.store[to := data])
  }

  lemma InstallHeld(c: Config, s0: State, s: State, from: nat, to: nat) returns (s': State)
    requires Continues(c, s0, s) && s.passed == map[] && s.phase.Install? && s.phase.i < |s.lh|
    requires from == c.g.start + 1 + s.phase.i && to == s.lh[s.phase.i] && from != to
    requires from < |s.disk| && to < |s.disk| == |s.store| && Grips(s, from) && Grips(s, to)
    ensures Continues(c, s0, s') && s' == AfterRound(s, from, to).(phase := Install(s.phase.i + 1))
  {
    hide Continues;
    GoesOn(c, s0, s, InstallOne);
    s' := BrelseTwo(c, s0, DoInstall(c, s), from, to);
  }

  lemma InstallLeft(c: Config, s: State, data: Block, s': State)
    requires Installing(c, s) && s.phase.i < |s.lh| && s.lh[s.phase.i] < |s.disk| == |s.store|
    requires RoundDone(s, s.lh[s.phase.i], data, s') && s'.phase == Install(s.phase.i + 1)
    ensures Installing(c, s')
  {
    forall x | x in s'.cache && s'.cache[x].dirty ensures LoggedFrom(s.lh, s.phase.i + 1, x) {
      assert LoggedFrom(s.lh, s.phase.i, x);
    }
  }

  lemma {:induction false} InstallAll(c: Config, s0: State, s: State) returns (s': State)
    requires Continues(c, s0, s) && Calm(c, s) && Installing(c, s)
    ensures Continues(c, s0, s') && Calm(c, s') && Installing(c, s') && SameRun(s, s')
    ensures s'.phase == Install(|s.lh|) && s'.lh == s.lh
    ensures s.lh == [] ==> s' == s
    decreases |s.lh| - s.phase.i
  {
    hide Continues, Calm;
    if s.phase.i == |s.lh| {
      s' := s;
    } else {
      var t := InstallRound(c, s0, s);
      s' := InstallAll(c, s0, t);
    }
  }

  lemma ClearRound(c: Config, s0: State, s: State) returns (s': State)
    requires Continues(c, s0, s) && Calm(c, s) && Installing(c, s) && s.phase.i == |s.lh|
    ensures Continues(c, s0, s') && s'.phase == Cleared && s'.lh == [] && SameRun(s, s') && s'.committed == s.committed
    ensures |s'.disk| == |s.disk| == c.g.size && WordAt(s'.disk[c.g.start], 0) == 0
    ensures forall b | 0 <= b < |s.disk| && b != c.g.start :: s'.disk[b] == s.disk[b]
  {
    hide Continues, Calm, WriteHeader, WordAt;
    CalmFacts(c, s);
    CalmFound(c, s, c.g.start);
    CalmLineOf(c, s, c.g.start);
    var s1 := Bread(c, s0, s, c.g.start);
    GoesOn(c, s0, s1, ClearHead);
    HeaderRoundTrip(s1.cache[c.g.start].data, []);
    var s2 := DoClearHead(c, s1);
    s' := Brelse(c, s0, s2, c.g.start);
  }

  /** What is left to do once the header is written, or has been read in by recovery. */
  lemma FinishFrom(c: Config, s0: State, s: State) returns (s': State)
    requires Continues(c, s0, s) && Calm(c, s) && Installing(c, s) && s.committing != s.booting
    ensures Continues(c, s0, s') && s'.phase == Idle && s'.lh == [] && s'.history == s.history
    ensures s'.committed == |s.history| && !s'.committing && !s'.booting
    ensures |s'.disk| == c.g.size && WordAt(s'.disk[c.g.start], 0) == 0
    ensures s.lh == [] ==>
      |s.disk| == c.g.size && forall b | 0 <= b < |s.disk| && b != c.g.start :: s'.disk[b] == s.disk[b]
  {
    hide Continues, Calm, WordAt;
    var t := InstallAll(c, s0, s);
    var u := ClearRound(c, s0, t);
    var last := if s.committing then FinishCommit else FinishBoot;
    GoesOn(c, s0, u, last);
    s' := Next(c, u, last);
  }

  // ---- a commit can be completed if and only if the log leaves a buffer over ----

  /** In a reachable state with a commit or a recovery under way everybody can let go. */
  lemma CalmDown(c: Config, s: State) returns (s': State)
    requires Inv(c, s) && (s.committing || s.booting) && |s.lh| < NBUF
    ensures Continues(c, s, s') && Calm(c, s') && s' == s.(cache := s'.cache) && SameContents(s, s')
  {
    hide Continues, Inv;
    NobodyInside(c, s);
    Stays(c, s);
    s' := ReleaseAll(c, s, s);
    LetGoCalm(c, s, s');
  }

  predicate SameContents(s: State, s': State) {
    && s'.cache.Keys == s.cache.Keys
    && forall b | b in s.cache ::
         var l, l' := s.cache[b], s'.cache[b]; l'.dirty == l.dirty && l'.valid == l.valid && l'.data == l.data
  }

  lemma NobodyInside(c: Config, s: State)
    requires Inv(c, s) && (s.committing || s.booting)
    ensures s.passed == map[] && forall b | b in s.cache :: !s.cache[b].touched
  {
    hide InvDisk;
    assert forall p | p in s.passed :: Admitted(c, s, p);
    forall b | b in s.cache ensures !s.cache[b].touched {
      assert LineOk(c, s, b, s.cache[b]);
    }
  }

  lemma LetGoCalm(c: Config, s: State, s': State)
    requires Inv(c, s) && s.passed == map[] && |s.lh| < NBUF && (forall b | b in s.cache :: !s.cache[b].touched)
    requires s' == s.(cache := s'.cache) && s'.cache.Keys == s.cache.Keys
    requires forall b | b in s.cache :: s'.cache[b] == LetGo(s.cache[b])
    ensures Calm(c, s')
  {
    InvParts(c, s);
    hide InvLog, InvDisk, InvHeld, InvOps;
    assert |s'.cache.Keys| == |s.cache.Keys|;
    forall b | b in s'.cache ensures CalmLine(s', b, s'.cache[b]) {
      assert LineOk(c, s, b, s.cache[b]);
    }
  }

  /** The logged blocks not installed yet are in the cache, dirty. */
  lemma PinnedLines(c: Config, s: State)
    requires Inv(c, s) && s.committing
    ensures s.phase.WriteLog? ==> LoadedFrom(s, 0)
    ensures s.phase.Install? ==> LoadedFrom(s, s.phase.i)
  {
    hide InvDisk;
    forall j | 0 <= j < |s.lh| && (s.phase.Install? ==> s.phase.i <= j)
      ensures s.lh[j] in s.cache && s.cache[s.lh[j]].dirty
    {
      assert Pinned(s, s.lh[j]) && s.lh[j] < c.g.size;
    }
  }

  lemma InstallingIs(c: Config, s: State)
    requires Inv(c, s) && (s.committing || s.booting) && s.phase.Install?
    ensures Installing(c, s)
  {
    InvParts(c, s);
    if s.committing {
      PinnedLines(c, s);
    }
    hide InvOps, InvHeld, NoRepeats, ReadHeader, WordAt, LogicalAt, Apply;
    forall x | x in s.cache && s.cache[x].dirty ensures LoggedFrom(s.lh, s.phase.i, x) && !s.booting {
      assert LineOk(c, s, x, s.cache[x]);
      assert Pinned(s, x);
    }
  }

  lemma InstallingStays(c: Config, s: State, s': State)
    requires Installing(c, s) && SameContents(s, s') && s' == s.(cache := s'.cache)
    ensures Installing(c, s')
  {
    hide NoRepeats;
    forall x | x in s'.cache && s'.cache[x].dirty ensures LoggedFrom(s.lh, s.phase.i, x) {
      assert x in s.cache && s.cache[x].dirty;
    }
  }

  /** Before the commit point: the copies are made, the header written, the blocks installed. */
  lemma CommitFromLog(c: Config, s0: State, s: State) returns (s': State)
    requires Continues(c, s0, s) && Calm(c, s) && s.phase.WriteLog? && s.phase.i <= |s.lh| && s.lh != []
    requires c.g.Valid() && c.g.Entries(s.lh) && NoRepeats(s.lh) && |s.lh| < c.g.nlog && LoadedFrom(s, 0)
    requires s.committing && !s.booting
    ensures Continues(c, s0, s') && !s'.committing && !s'.booting && s'.history == s.history && s'.lh == []
    ensures s'.committed == |s.history|
  {
    hide Continues, Calm, NoRepeats, LoadedFrom, Installing;
    var t := CopyAll(c, s0, s);
    var u := HeadRound(c, s0, t);
    s' := FinishFrom(c, s0, u);
  }

  lemma CommitCanComplete(c: Config, s: State) returns (s': State)
    requires Inv(c, s) && s.committing && |s.lh| < NBUF
    ensures Continues(c, s, s') && !s'.committing && !s'.booting && s'.history == s.history && s'.lh == []
    ensures s'.committed == if s.lh == [] && s.phase == WriteLog(0) then s.committed else |s.history|
  {
    hide Continues, Calm, NoRepeats, LoadedFrom, Installing, InvDisk, InvCache, InvHeld, Reserved, Open;
    if s.phase == Cleared || (s.phase == WriteLog(0) && s.lh == []) {
      Stays(c, s);
      GoesOn(c, s, s, FinishCommit);
      s' := Next(c, s, FinishCommit);
      ClearedIsCommitted(c, s);
    } else {
      var t := CalmDown(c, s);
      if s.phase.WriteLog? {
        PinnedLines(c, s);
        LoadedStays(s, t);
        s' := CommitFromLog(c, s, t);
      } else {
        InstallingIs(c, s);
        InstallingStays(c, s, t);
        s' := FinishFrom(c, s, t);
      }
    }
  }

  lemma ClearedIsCommitted(c: Config, s: State)
    requires Inv(c, s)
    ensures s.phase == Cleared ==> s.committed == |s.history|
  {
  }

  lemma LoadedStays(s: State, s': State)
    requires LoadedFrom(s, 0) && SameContents(s, s') && s'.lh == s.lh
    ensures LoadedFrom(s', 0)
  {
  }

  lemma {:induction false} StuckPath(c: Config, states: seq<State>, steps: seq<Step>, k: nat)
    requires c.Valid() && c.g.Ample() && Path(c, states, steps) && Reachable(c, states[0]) && k < |states|
    requires Stuck(states[0]) && states[0].committing
    ensures Stuck(states[k]) && states[k].committing
  {
    hide Reachable, Enabled, Next, Stuck;
    if k > 0 {
      StuckPath(c, states, steps, k - 1);
      PathReaches(c, states, steps, k - 1);
      assert !steps[k - 1].Crash?;
      StuckStep(c, states[k - 1], steps[k - 1]);
    }
  }

  ghost predicate CanBeCompleted(c: Config, s: State) {
    exists t :: Continues(c, s, t) && !t.committing
  }

  /** A commit under way can be completed without a crash if and only if the log holds fewer blocks
      than there are buffers. */
  lemma CommitCompletes(c: Config, s: State)
    requires c.Valid() && c.g.Ample() && Reachable(c, s) && s.committing
    ensures CanBeCompleted(c, s) <==> |s.lh| < NBUF
  {
    ReachableInv(c, s);
    if |s.lh| < NBUF {
      hide Reachable, Continues, Inv;
      var t := CommitCanComplete(c, s);
    } else {
      assert Stuck(s);
      if t :| Continues(c, s, t) && !t.committing {
        hide Inv, Reachable, Stuck;
        var states: seq<State>, steps: seq<Step> :|
          Path(c, states, steps) && states[0] == s && states[|steps|] == t;
        StuckPath(c, states, steps, |steps|);
      }
    }
  }

  /** And then what has been logged is committed. */
  lemma CommitCommits(c: Config, s: State) returns (t: State)
    requires c.Valid() && c.g.Ample() && Reachable(c, s) && s.committing && 0 < |s.lh| < NBUF
    ensures Continues(c, s, t) && Reachable(c, t) && !t.committing && t.lh == []
    ensures t.history == s.history && t.committed == |s.history|
  {
    ReachableInv(c, s);
    hide Reachable, Continues, Inv;
    t := CommitCanComplete(c, s);
    Reaches(c, s, t);
  }

  // ---- and so whatever has been logged can be brought to disk ----

  lemma Chain(c: Config, s: State, t: State, u: State)
    requires Continues(c, s, t) && Continues(c, t, u)
    ensures Continues(c, s, u)
  {
    hide Enabled, Next;
    var xs: seq<State>, steps: seq<Step> :| Path(c, xs, steps) && xs[0] == s && xs[|steps|] == t;
    var ys: seq<State>, more: seq<Step> :| Path(c, ys, more) && ys[0] == t && ys[|more|] == u;
    var zs, all := xs + ys[1..], steps + more;
    forall i | 0 <= i < |all|
      ensures !all[i].Crash? && Enabled(c, zs[i], all[i]) && zs[i + 1] == Next(c, zs[i], all[i])
    {
      var j := i - |steps|;
      assert if j < 0 then all[i] == steps[i] else all[i] == more[j];
      if j < 0 {
        assert !steps[i].Crash? && zs[i] == xs[i] && zs[i + 1] == xs[i + 1];
      } else {
        assert !more[j].Crash? && zs[i] == ys[j] && zs[i + 1] == ys[j + 1];
      }
    }
    assert Path(c, zs, all) && zs[0] == s && zs[|all|] == u;
  }

  /** No buffer holds a change that has not been logged, and nobody is inside log_write. */
  predicate AllLogged(s: State) {
    s.passed == map[] && forall b | b in s.cache :: !s.cache[b].touched
  }

  /** The processes in an operation end it one after the other. */
  lemma {:induction false} EndAll(c: Config, s0: State, s: State) returns (t: State)
    requires c.Valid() && Reachable(c, s) && Continues(c, s0, s) && !s.booting && AllLogged(s)
    ensures Continues(c, s0, t) && Reachable(c, t) && !t.booting && t.ops == map[] && t.lh == s.lh
    ensures Apply(c.init, t.history) == Apply(c.init, s.history)
    decreases |s.ops|
  {
    hide Reachable, Continues;
    t := s;
    if s.ops != map[] {
      var p :| p in s.ops;
      EndOpCommits(c, s, p);
      Extend(c.init, s.history, End(p));
      GoesOn(c, s0, s, EndOp(p));
      ReachableStep(c, s, EndOp(p));
      hide Apply, Open;
      t := EndAll(c, s0, Next(c, s, EndOp(p)));
    }
  }

  /** From every reachable state in which all changes have been logged, and the log leaves a buffer
      over, the operations can end and every write made so far reach its place on disk. */
  lemma LoggedCanBeDurable(c: Config, s: State) returns (t: State)
    requires c.Valid() && c.g.Ample() && Reachable(c, s) && !s.booting && AllLogged(s) && |s.lh| < NBUF
    ensures Continues(c, s, t) && !t.booting && !t.committing && t.ops == map[] && |t.disk| == |c.init|
    ensures forall b: nat | c.g.Home(b) :: b < |c.init| && t.disk[b] == Apply(c.init, s.history)[b]
  {
    hide Reachable, Continues, Apply;
    Stays(c, s);
    var u := EndAll(c, s, s);
    ReachableInv(c, u);
    hide Inv;
    t := u;
    if u.committing {
      t := CommitCanComplete(c, u);
      Chain(c, s, u, t);
      Reaches(c, u, t);
    }
    NobodyIn(c, u, t);
    forall b: nat | c.g.Home(b) ensures b < |t.disk| == |c.init| && t.disk[b] == Apply(c.init, s.history)[b] {
      QuietIsDurable(c, t, b);
    }
    ReachableOps(c, t);
  }

  /** Who is in an operation can be read off the history. */
  lemma NobodyIn(c: Config, u: State, t: State)
    requires c.Valid() && Reachable(c, u) && Reachable(c, t) && t.history == u.history && u.ops == map[]
    ensures t.ops == map[] && t.outstanding == 0
  {
    ReachableOps(c, u);
    ReachableOps(c, t);
    hide Reachable, Open, Reserved, InvHeld;
  }

  // ---- a recovery always can ----

  lemma ReadHeadRound(c: Config, s0: State, s: State) returns (s': State)
    requires Continues(c, s0, s) && Calm(c, s) && s.booting && s.phase == ReadHead && s.committed == |s.history|
    requires c.g.Valid() && (forall x | x in s.cache :: !s.cache[x].dirty)
    requires var l := ReadLine(s, c.g.start);
             WordAt(l.data, 0) < WORDS && c.g.WfHeader(ReadHeader(l.data)) && NoRepeats(ReadHeader(l.data)) &&
             |ReadHeader(l.data)| < NBUF
    ensures Continues(c, s0, s') && Calm(c, s') && Installing(c, s') && SameRun(s, s')
    ensures s'.disk == s.disk && s'.lh == ReadHeader(ReadLine(s, c.g.start).data)
  {
    hide Continues, Calm, NoRepeats, ReadHeader, WordAt;
    CalmFacts(c, s);
    CalmFound(c, s, c.g.start);
    CalmLineOf(c, s, c.g.start);
    var s1 := Bread(c, s0, s, c.g.start);
    GoesOn(c, s0, s1, ReadLogHead);
    var s2 := DoReadHead(c, s1);
    s' := Brelse(c, s0, s2, c.g.start);
    BootCalm(c, s, s1, s');
  }

  lemma BootCalm(c: Config, s: State, s1: State, s': State)
    requires Calm(c, s) && (forall x | x in s.cache :: !s.cache[x].dirty) && c.g.start < |s.disk|
    requires HasRead(s, c.g.start, s1) && |s'.lh| < NBUF && s'.disk == s.disk && s'.store == s.store
    requires s'.passed == s.passed && s'.cache == s1.cache[c.g.start := LetGo(s1.cache[c.g.start])]
    ensures Calm(c, s') && forall x | x in s'.cache :: !s'.cache[x].dirty
  {
    assert s'.cache.Keys == s1.cache.Keys;
    assert |s'.cache.Keys| == |s1.cache.Keys|;
    forall x | x in s'.cache ensures CalmLine(s', x, s'.cache[x]) && !s'.cache[x].dirty {
      assert x in s.cache ==> CalmLine(s, x, s.cache[x]);
    }
  }

  /** What recovery reads is the header on disk. */
  lemma HeaderToRead(c: Config, s: State)
    requires Inv(c, s) && s.booting && s.phase == ReadHead
    ensures c.g.start < |s.disk| && ReadLine(s, c.g.start).data == s.disk[c.g.start]
    ensures var h := s.disk[c.g.start];
            WordAt(h, 0) < WORDS && c.g.WfHeader(ReadHeader(h)) && NoRepeats(ReadHeader(h)) && |ReadHeader(h)| < NBUF
    ensures s.committed == |s.history| && forall x | x in s.cache :: !s.cache[x].dirty
  {
    hide WordAt, ReadHeader, LogicalAt, Apply, NoRepeats;
    assert !Pinned(s, c.g.start);
    forall x | x in s.cache ensures !s.cache[x].dirty {
      assert LineOk(c, s, x, s.cache[x]);
    }
  }

  lemma BootDown(c: Config, s: State) returns (t: State)
    requires Inv(c, s) && s.booting && s.phase != Cleared
    ensures Continues(c, s, t) && Calm(c, t) && Installing(c, t) && SameRun(s, t)
  {
    InvParts(c, s);
    hide Continues, Calm, Installing, NoRepeats, InvDisk, InvCache, InvHeld, Inv, Reserved, Open, ReadHeader, WordAt;
    t := CalmDown(c, s);
    if s.phase == ReadHead {
      HeaderToRead(c, s);
      t := ReadHeadRound(c, s, t);
    } else {
      InstallingIs(c, s);
      InstallingStays(c, s, t);
    }
  }

  /** From every reachable state in which the machine is recovering, recovery can be completed. */
  lemma RecoveryCompletes(c: Config, s: State) returns (t: State)
    requires c.Valid() && c.g.Ample() && Reachable(c, s) && s.booting
    ensures Continues(c, s, t) && Reachable(c, t) && !t.booting && t.phase == Idle && t.lh == []
    ensures t.history == s.history && t.committed == |s.history|
  {
    hide Reachable, Continues, Calm, Installing, NoRepeats, InvDisk, InvCache, InvHeld, Reserved, Open;
    ReachableInv(c, s);
    if s.phase == Cleared {
      Stays(c, s);
      GoesOn(c, s, s, FinishBoot);
      t := Next(c, s, FinishBoot);
    } else {
      t := BootDown(c, s);
      t := FinishFrom(c, s, t);
    }
    Reaches(c, s, t);
  }
}
