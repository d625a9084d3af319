/** Which log areas are safe. log_write's tests come before log.lock, so that in an area of two to
    LOGSIZE blocks more is logged than fits it. With as many blocks as LOGSIZE, which is what mkfs
    makes, that is more than there are buffers to commit with, and no harm is done to the disk; with
    fewer, a commit writes over the block behind the area before it has written the header. */
module LogOverrun {
  import opened Blocks
  import opened LogFormat
  import opened LogGuard
  import opened LogInvariant
  import opened LogProgress
  import opened LogSystem
  import opened LogTheorems
  import opened Params
  import opened Sets

  /** Enough blocks outside the log to fill it. */
  predicate Plenty(g: Geometry, hs: seq<nat>) {
    |hs| == g.nlog && NoRepeats(hs) && forall i | 0 <= i < |hs| :: g.Home(hs[i])
  }

  /** The log always has room for what is logged, its header included, if and only if it has more
      than LOGSIZE blocks, or one, in which nothing can be logged. */
  lemma LogHasRoom(c: Config, hs: seq<nat>)
    requires c.Valid() && Plenty(c.g, hs)
    ensures (forall s | Reachable(c, s) :: |s.lh| < c.g.nlog) <==> c.g.nlog == 1 || c.g.nlog > LOGSIZE
  {
    if c.g.nlog == 1 || c.g.nlog > LOGSIZE {
      forall s | Reachable(c, s) ensures |s.lh| < c.g.nlog {
        ReachableInv(c, s);
      }
    } else {
      var n := |hs| - 2;
      assert hs[..n] + [hs[n], hs[n + 1]] == hs;
      hide Reachable, Elements, NoRepeats;
      var s := ReachOverrun(c, hs[..n], hs[n], hs[n + 1], ZeroBlock());
    }
  }

  // ---- the block behind a small log area ----

  lemma ReachCommit(c: Config, s: State, bs: seq<nat>) returns (s': State)
    requires c.Valid() && Logged(c, s, bs)
    ensures Reachable(c, s') && s' == s.(outstanding := 0, committing := true, phase := WriteLog(0), agent := 2,
                                         ops := map[], history := s'.history)
  {
    hide Reachable, Elements;
    ReachableStep(c, s, EndOp(0));
    var s1 := DoEndOp(s, 0);
    ReachableStep(c, s1, EndOp(1));
    var s2 := DoEndOp(s1, 1);
    ReachableStep(c, s2, EndOp(2));
    s' := DoEndOp(s2, 2);
    assert s'.ops == map[];
  }

  /** A commit of a log that has overrun its area can make all its copies. */
  lemma ReachCopied(c: Config, s: State, bs: seq<nat>) returns (s': State)
    requires c.Valid() && Logged(c, s, bs) && 0 < |bs| < NBUF && c.g.Entries(bs) && c.g.start + |bs| < c.g.size
    requires forall b | b in bs :: !(c.g.start < b <= c.g.start + |bs|)
    ensures Reachable(c, s') && s'.committed == 0 && !s'.booting && |s'.disk| == c.g.size
    ensures s'.disk[c.g.start] == c.init[c.g.start] && s'.disk[c.g.start + |bs|] == s.cache[bs[|bs| - 1]].data
  {
    hide Reachable, Continues, NoRepeats, Elements, Calm, Quiet, LoadedFrom;
    var t := ReachCommit(c, s, bs);
    RestingCalm(c, s, bs, t);
    Stays(c, t);
    s' := CopyAll(c, t, t);
    CalmFacts(c, s');
    Reaches(c, t, s');
  }

  lemma RestingCalm(c: Config, s: State, bs: seq<nat>, t: State)
    requires c.Valid() && Logged(c, s, bs) && 0 < |bs| < NBUF && Reachable(c, t)
    requires t == s.(outstanding := 0, committing := true, phase := WriteLog(0), agent := 2,
                     ops := map[], history := t.history)
    ensures Calm(c, t) && LoadedFrom(t, 0) && t.committed == 0 && !t.booting && bs[|bs| - 1] in s.cache
  {
    DiskSize(c, t);
    ElementsSize(bs);
    assert |s.cache.Keys| == |s.cache|;
    hide Reachable;
    forall j | 0 <= j < |bs| ensures bs[j] in s.cache {
      assert bs[j] in Elements(bs);
    }
  }

  /** A crash then, and a recovery from it, which finds the header of before. */
  lemma ReachRecovered(c: Config, s: State) returns (s': State)
    requires c.Valid() && Reachable(c, s) && s.committed == 0 && |s.disk| == c.g.size
    requires s.disk[c.g.start] == c.init[c.g.start]
    ensures Reachable(c, s') && !s'.booting && s'.phase == Idle && s'.history == [] && s'.committed == 0
    ensures |s'.disk| == c.g.size && WordAt(s'.disk[c.g.start], 0) == 0
    ensures forall b | 0 <= b < c.g.size && b != c.g.start :: s'.disk[b] == s.disk[b]
  {
    ReachableStep(c, s, Crash(0));
    var t := DoCrash(s, 0);
    hide Reachable, Continues;
    assert Calm(c, t);
    Stays(c, t);
    hide Calm, WordAt;
    assert ReadHeader(c.init[c.g.start]) == [];
    var u := ReadHeadRound(c, t, t);
    s' := FinishFrom(c, t, u);
    Reaches(c, t, s');
  }

  /** In a log area of two blocks or more, but fewer than LOGSIZE, operations that keep to their
      budgets make a commit write whatever they like over the block behind the area: here nothing
      has ever been committed, the machine has crashed and recovered, and that block is changed. */
  lemma SmallLogLosesBlock(c: Config, bs: seq<nat>, x: nat, y: nat, data: Block) returns (s: State)
    requires c.Valid() && 2 <= c.g.nlog < LOGSIZE && Plenty(c.g, bs + [x, y])
    requires c.g.start + c.g.nlog < c.g.size && c.g.start + c.g.nlog !in bs + [x, y]
    ensures Reachable(c, s) && !s.booting && s.phase == Idle && s.history == [] && s.committed == 0
    ensures |s.disk| == c.g.size && s.disk[c.g.start + c.g.nlog] == data && WordAt(s.disk[c.g.start], 0) == 0
  {
    hide Reachable, NoRepeats, Elements;
    var hs := bs + [x, y];
    assert hs[|bs|] == x && hs[|bs| + 1] == y && forall i | 0 <= i < |bs| :: hs[i] == bs[i];
    var s0 := ReachOverrun(c, bs, x, y, data);
    assert forall b | b in hs :: c.g.Home(b);
    var s1 := ReachCopied(c, s0, hs);
    s := ReachRecovered(c, s1);
  }

  /** What DiskMeansCommitted states. */
  predicate MeansCommitted(c: Config, s: State, b: nat)
    requires c.Valid() && b < c.g.size
  {
    && |s.disk| == c.g.size && |DiskHeader(c, s.disk)| < c.g.nlog && s.committed <= |s.history|
    && LogicalAt(c.g, s.disk, DiskHeader(c, s.disk), b) == Apply(c.init, s.history[..s.committed])[b]
  }

  /** The disk means what has been committed, in every run, if and only if the log area has LOGSIZE
      blocks or more, or one. */
  lemma DiskSafe(c: Config, hs: seq<nat>)
    requires c.Valid() && Plenty(c.g, hs) && c.g.start + c.g.nlog < c.g.size && c.g.start + c.g.nlog !in hs
    ensures (forall s, b: nat | Reachable(c, s) && c.g.Home(b) :: MeansCommitted(c, s, b)) <==> c.g.Ample()
  {
    if c.g.Ample() {
      forall s, b: nat | Reachable(c, s) && c.g.Home(b) ensures MeansCommitted(c, s, b) {
        DiskMeansCommitted(c, s, b);
      }
    } else {
      var n := |hs| - 2;
      assert hs[..n] + [hs[n], hs[n + 1]] == hs;
      var b := c.g.start + c.g.nlog;
      var data := Other(c.init[b]);
      hide Reachable, Plenty;
      var s := SmallLogLosesBlock(c, hs[..n], hs[n], hs[n + 1], data);
      NothingCommitted(c, s, b);
    }
  }

  function Other(b: Block): (r: Block)
    ensures r != b
  {
    PutWord(b, 0, (WordAt(b, 0) + 1) % WORDS)
  }

  /** With nothing committed and an empty header the disk means what it holds. */
  lemma NothingCommitted(c: Config, s: State, b: nat)
    requires c.Valid() && Reachable(c, s) && s.history == [] && s.committed == 0 && b < c.g.size && |s.disk| == c.g.size
    requires WordAt(s.disk[c.g.start], 0) == 0 && s.disk[b] != c.init[b]
    ensures !MeansCommitted(c, s, b)
  {
  }
}
