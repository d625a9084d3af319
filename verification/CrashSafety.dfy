/** The file system over the log: what a crash leaves behind is a file system again, with the files
    as whole system calls left them. */
module CrashSafety {
  import opened Blocks
  import opened FileContents
  import opened FileLayout
  import opened FileSystem
  import opened InodeCodec
  import opened LogFormat
  import opened LogSystem
  import opened LogTheorems
  import opened OpenFile
  import opened Reservation
  import opened Writes

  /** The log lies before the inodes, as mkfs puts it. */
  predicate LaidOut(g: Geometry, sb: Super) {
    g.Valid() && sb.Valid() && g.size == sb.size && g.start + g.nlog <= sb.inodestart
  }

  datatype View = View(owner: map<nat, Place>, files: seq<seq<byte>>)

  /** Whenever no operation is open, the store holds the files of views[j], j events into the history. */
  ghost predicate Whole(c: Config, sb: Super, n: nat, h: seq<Event>, views: seq<View>) {
    |views| == |h| + 1 && forall j | 0 <= j <= |h| && Open(h[..j]) == {} :: MountableAt(c, sb, n, h, views, j)
  }

  ghost predicate MountableAt(c: Config, sb: Super, n: nat, h: seq<Event>, views: seq<View>, j: nat)
    requires j <= |h| && j < |views|
  {
    Mountable(sb, Apply(c.init, h[..j]), n, views[j].owner, views[j].files)
  }

  /** And between two calls, whoever is inside an operation, it holds those of the last. */
  ghost predicate Settled(c: Config, sb: Super, n: nat, h: seq<Event>, views: seq<View>) {
    Whole(c, sb, n, h, views) && MountableAt(c, sb, n, h, views, |h|)
  }

  lemma NothingYet(c: Config, sb: Super, n: nat, v: View)
    requires Mountable(sb, c.init, n, v.owner, v.files)
    ensures Settled(c, sb, n, [], [v])
  {
    var h: seq<Event> := [];
    assert h[..0] == [];
    assert MountableAt(c, sb, n, h, [v], 0);
  }

  /** A longer history, with no moment between in which nobody is inside an operation. */
  lemma WholeGrows(c: Config, sb: Super, n: nat, h: seq<Event>, views: seq<View>, g: seq<Event>, vs: seq<View>)
    requires Whole(c, sb, n, h, views) && h <= g && views <= vs && |vs| == |g| + 1
    requires MountableAt(c, sb, n, g, vs, |g|) && forall j | |h| < j < |g| :: Open(g[..j]) != {}
    ensures Settled(c, sb, n, g, vs)
  {
    hide Apply, Open, Mountable;
    forall j | 0 <= j <= |g| && Open(g[..j]) == {} ensures MountableAt(c, sb, n, g, vs, j) {
      if j <= |h| {
        assert g[..j] == h[..j] && vs[j] == views[j];
        assert MountableAt(c, sb, n, h, views, j);
      }
    }
  }

  /** begin_op and end_op change nothing in the store, so that calls may share a transaction. */
  lemma BracketGrows(c: Config, sb: Super, n: nat, h: seq<Event>, views: seq<View>, e: Event, v: View)
    requires Whole(c, sb, n, h, views) && !e.Wrote? && Mountable(sb, Apply(c.init, h), n, v.owner, v.files)
    ensures Settled(c, sb, n, h + [e], views + [v]) && Apply(c.init, h + [e]) == Apply(c.init, h)
  {
    var g, vs := h + [e], views + [v];
    Extend(c.init, h, e);
    assert g[..|g|] == g && vs[|g|] == v;
    hide Apply, Open, Mountable;
    assert MountableAt(c, sb, n, g, vs, |g|);
    WholeGrows(c, sb, n, h, views, g, vs);
  }

  /** What p logs in one call. */
  function Events(p: Pid, ws: seq<Write>): (h: seq<Event>)
    ensures |h| == |ws|
  {
    seq(|ws|, i requires 0 <= i < |ws| => Wrote(p, ws[i].b, ws[i].data))
  }

  lemma {:induction false} EventsReplay(init: seq<Block>, h: seq<Event>, p: Pid, ws: seq<Write>)
    ensures Apply(init, h + Events(p, ws)) == Replay(Apply(init, h), ws)
    ensures Open(h + Events(p, ws)) == Open(h)
  {
    var g := h + Events(p, ws);
    if ws == [] {
      assert g == h;
    } else {
      var t := ws[..|ws| - 1];
      EventsReplay(init, h, p, t);
      assert g[..|g| - 1] == h + Events(p, t);
    }
  }

  /** The same view, n times. */
  function Times(v: View, n: nat): (r: seq<View>)
    ensures |r| == n
  {
    seq(n, _ => v)
  }

  lemma InsideCall(h: seq<Event>, p: Pid, ws: seq<Write>, j: nat)
    requires |h| <= j <= |h| + |ws|
    ensures Open((h + Events(p, ws))[..j]) == Open(h)
  {
    assert (h + Events(p, ws))[..j] == h + Events(p, ws[..j - |h|]);
    EventsReplay([], h, p, ws[..j - |h|]);
  }

  /** One call of a process that is inside an operation, whoever else is. What it logs makes the
      store a file system with the files of v. */
  lemma CallGrows(c: Config, sb: Super, n: nat, h: seq<Event>, views: seq<View>, p: Pid, ws: seq<Write>, v: View)
    requires Settled(c, sb, n, h, views) && p in Open(h) && ws != []
    requires Mountable(sb, Replay(Apply(c.init, h), ws), n, v.owner, v.files)
    ensures Settled(c, sb, n, h + Events(p, ws), views + Times(v, |ws|)) && Open(h + Events(p, ws)) == Open(h)
  {
    hide Apply, Open, Mountable, Replay, Events;
    var g, vs := h + Events(p, ws), views + Times(v, |ws|);
    EventsReplay(c.init, h, p, ws);
    assert g[..|g|] == g && vs[|g|] == v;
    assert MountableAt(c, sb, n, g, vs, |g|);
    hide MountableAt;
    forall j | |h| < j < |g| ensures Open(g[..j]) != {} {
      InsideCall(h, p, ws, j);
    }
    WholeGrows(c, sb, n, h, views, g, vs);
  }

  /** FileSystem's methods do what CallGrows asks for: at rest, what has been logged since begin_op
      makes the store a file system again. */
  lemma MethodGrows(c: Config, h: seq<Event>, views: seq<View>, p: Pid, fs: FileSystem)
    requires fs.Ok() && fs.base == Apply(c.init, h) && fs.writes != []
    requires Settled(c, fs.sb, |fs.ino|, h, views) && p in Open(h)
    ensures Settled(c, fs.sb, |fs.ino|, h + Events(p, fs.writes), views + Times(View(fs.owner, fs.files), |fs.writes|))
    ensures fs.store == Apply(c.init, h + Events(p, fs.writes))
  {
    fs.Remountable();
    fs.OkRecorded();
    hide *;
    EventsReplay(c.init, h, p, fs.writes);
    CallGrows(c, fs.sb, |fs.ino|, h, views, p, fs.writes, View(fs.owner, fs.files));
  }

  /** Blocks from the inodes on are all a file system reads. */
  lemma SameFiles(sb: Super, s0: seq<Block>, s1: seq<Block>, n: nat, owner: map<nat, Place>, files: seq<seq<byte>>)
    requires Mountable(sb, s0, n, owner, files) && |s1| == |s0| &&
             forall b: nat | sb.inodestart <= b < sb.size :: s1[b] == s0[b]
    ensures Mountable(sb, s1, n, owner, files)
  {
    SameInodesRead(sb, s0, s1, n);
    var ino := DiskInodes(sb, s0, n);
    hide DiskInode;
    SameMap(sb, s0, s1, sb.Meta() + owner.Keys);
    hide Bits;
    SameTables(sb, s0, s1, ino, owner);
    SameDataShows(sb, s0, s1, ino, owner, files);
    hide Owned, ShowAll;
  }

  lemma SameInodesRead(sb: Super, s0: seq<Block>, s1: seq<Block>, n: nat)
    requires sb.Valid() && |s1| == |s0| == sb.size && n <= sb.ninodes &&
             forall b: nat | sb.inodestart <= b < sb.size :: s1[b] == s0[b]
    ensures DiskInodes(sb, s1, n) == DiskInodes(sb, s0, n)
  {
    forall i | 0 <= i < n ensures DiskInode(sb, s1, i) == DiskInode(sb, s0, i) {
      sb.Regions(i, 0);
    }
  }

  lemma SameMap(sb: Super, s0: seq<Block>, s1: seq<Block>, used: set<nat>)
    requires sb.Valid() && |s1| == |s0| == sb.size && Bits(sb, s0, used) &&
             forall b: nat | sb.inodestart <= b < sb.size :: s1[b] == s0[b]
    ensures Bits(sb, s1, used)
  {
    forall b: nat | b < sb.size ensures s1[sb.MapBlock(b)] == s0[sb.MapBlock(b)] {
      sb.Regions(0, b);
    }
    hide BitAt;
  }

  /** Crash anywhere, then any number of times in recovery: the disk that the first complete recovery
      leaves can be mounted, with the files after the operations committed before the crash, all of
      them whole. */
  lemma RecoveredFiles(c: Config, sb: Super, n: nat, states: seq<State>, steps: seq<Step>, k: nat, m: nat,
                       views: seq<View>)
    requires c.Valid() && c.g.Ample() && LaidOut(c.g, sb) && IsRun(c, states, steps) && k < m < |states| &&
             steps[k].Crash?
    requires (forall i | k < i < m :: states[i].booting) && !states[m].booting
    requires Whole(c, sb, n, states[k].history, views)
    ensures var j := states[k].committed;
      && j <= |states[k].history| && Open(states[k].history[..j]) == {}
      && Mountable(sb, states[m].disk, n, views[j].owner, views[j].files)
  {
    RunReaches(c, states, steps, k);
    GroupCommit(c, states[k]);
    var j := states[k].committed;
    var s0 := Apply(c.init, states[k].history[..j]);
    assert MountableAt(c, sb, n, states[k].history, views, j);
    forall b: nat | sb.inodestart <= b < sb.size ensures b < |states[m].disk| == |s0| && states[m].disk[b] == s0[b] {
      RecoveryRestoresCommitted(c, states, steps, k, m, b);
    }
    RecoveryRestoresCommitted(c, states, steps, k, m, sb.inodestart);
    hide Apply, Open, Reachable, IsRun, Mountable;
    SameFiles(sb, s0, states[m].disk, n, views[j].owner, views[j].files);
  }

  // ---- filewrite ----

  /** What filewrite's transactions add to the history: an operation of p for each. */
  function Calls(p: Pid, brackets: seq<seq<Write>>): seq<Event> {
    if brackets == [] then []
    else
      var m := |brackets| - 1;
      Calls(p, brackets[..m]) + [Begin(p)] + Events(p, brackets[m]) + [End(p)]
  }

  function ViewOf(a: Stage): View {
    View(a.owner, a.files)
  }

  /** And what the store holds then. */
  function CallViews(stages: seq<Stage>, brackets: seq<seq<Write>>): seq<View>
    requires |stages| == |brackets| + 1
  {
    if brackets == [] then []
    else
      var m := |brackets| - 1;
      CallViews(stages[..m + 1], brackets[..m]) + [ViewOf(stages[m])] +
      Times(ViewOf(stages[m + 1]), |brackets[m]|) + [ViewOf(stages[m + 1])]
  }

  /** The stages are file systems, and the transactions lead from one to the next. */
  ghost predicate Chain(sb: Super, n: nat, stages: seq<Stage>, brackets: seq<seq<Write>>) {
    && |stages| == |brackets| + 1
    && (forall x | 0 <= x < |stages| :: Mountable(sb, stages[x].store, n, stages[x].owner, stages[x].files))
    && (forall x | 0 <= x < |brackets| :: stages[x + 1].store == Replay(stages[x].store, brackets[x]))
  }

  lemma BracketedChain(sb: Super, n: nat, i: nat, off: nat, src: seq<byte>, w: nat, f0: seq<seq<byte>>,
                       stages: seq<Stage>, brackets: seq<seq<Write>>)
    requires i < |f0| && w <= |src| && Bracketed(sb, n, i, off, src, w, f0, stages, brackets)
    ensures Chain(sb, n, stages, brackets)
  {
    hide Mountable, WrittenBlocks, Touched, Replay, Written;
    forall x | 0 <= x < |stages| ensures Mountable(sb, stages[x].store, n, stages[x].owner, stages[x].files) {
      assert StageOk(sb, n, i, off, src, w, f0, x, stages[x]);
    }
    forall x | 0 <= x < |brackets| ensures stages[x + 1].store == Replay(stages[x].store, brackets[x]) {
      assert LeadsAt(sb, i, off, w, stages[x], brackets[x], x, stages[x + 1]);
    }
  }

  /** One operation with one transaction. */
  lemma OperationGrows(c: Config, sb: Super, n: nat, h: seq<Event>, views: seq<View>, p: Pid, a: Stage, ws: seq<Write>,
                       b: Stage)
    requires Settled(c, sb, n, h, views) && Open(h) == {} && Apply(c.init, h) == a.store &&
             b.store == Replay(a.store, ws)
    requires Mountable(sb, a.store, n, a.owner, a.files) && Mountable(sb, b.store, n, b.owner, b.files)
    ensures var g := h + [Begin(p)] + Events(p, ws) + [End(p)];
            var vs := views + [ViewOf(a)] + Times(ViewOf(b), |ws|) + [ViewOf(b)];
            Settled(c, sb, n, g, vs) && Open(g) == {} && Apply(c.init, g) == b.store
  {
    Extend(c.init, h, Begin(p));
    var g1, v1 := h + [Begin(p)], views + [ViewOf(a)];
    EventsReplay(c.init, g1, p, ws);
    Extend(c.init, g1 + Events(p, ws), End(p));
    BracketGrows(c, sb, n, h, views, Begin(p), ViewOf(a));
    hide Apply, Open, Mountable, Replay, Settled, Events;
    var g2, v2 := g1 + Events(p, ws), v1 + Times(ViewOf(b), |ws|);
    if ws == [] {
      assert g2 == g1 && v2 == v1;
    } else {
      CallGrows(c, sb, n, g1, v1, p, ws, ViewOf(b));
    }
    SettledWhole(c, sb, n, g2, v2);
    BracketGrows(c, sb, n, g2, v2, End(p), ViewOf(b));
  }

  lemma SettledWhole(c: Config, sb: Super, n: nat, h: seq<Event>, views: seq<View>)
    requires Settled(c, sb, n, h, views)
    ensures Whole(c, sb, n, h, views)
  {
  }

  lemma {:induction false} ChainGrows(c: Config, sb: Super, n: nat, h: seq<Event>, views: seq<View>, p: Pid,
                                      stages: seq<Stage>, brackets: seq<seq<Write>>)
    requires Settled(c, sb, n, h, views) && Open(h) == {} && Chain(sb, n, stages, brackets)
    requires Apply(c.init, h) == stages[0].store
    ensures var g := h + Calls(p, brackets);
            && Settled(c, sb, n, g, views + CallViews(stages, brackets)) && Open(g) == {}
            && Apply(c.init, g) == stages[|brackets|].store
  {
    hide Apply, Open, Mountable, Replay, Settled;
    if brackets == [] {
      assert h + Calls(p, brackets) == h && views + CallViews(stages, brackets) == views;
    } else {
      var m := |brackets| - 1;
      ChainGrows(c, sb, n, h, views, p, stages[..m + 1], brackets[..m]);
      var g, vs := h + Calls(p, brackets[..m]), views + CallViews(stages[..m + 1], brackets[..m]);
      OperationGrows(c, sb, n, g, vs, p, stages[m], brackets[m], stages[m + 1]);
      CallsOne(h, views, p, stages, brackets);
    }
  }

  lemma CallsOne(h: seq<Event>, views: seq<View>, p: Pid, stages: seq<Stage>, brackets: seq<seq<Write>>)
    requires |stages| == |brackets| + 1 && brackets != []
    ensures var m := |brackets| - 1;
            var g, vs := h + Calls(p, brackets[..m]), views + CallViews(stages[..m + 1], brackets[..m]);
            && h + Calls(p, brackets) == g + [Begin(p)] + Events(p, brackets[m]) + [End(p)]
            && views + CallViews(stages, brackets) ==
                 vs + [ViewOf(stages[m])] + Times(ViewOf(stages[m + 1]), |brackets[m]|) + [ViewOf(stages[m + 1])]
  {
  }

  /** Every view is that of a stage. */
  lemma {:induction false} ViewsAreStages(stages: seq<Stage>, brackets: seq<seq<Write>>, j: nat) returns (x: nat)
    requires |stages| == |brackets| + 1 && j < |CallViews(stages, brackets)|
    ensures x < |stages| && CallViews(stages, brackets)[j] == ViewOf(stages[x])
  {
    var m := |brackets| - 1;
    var before := CallViews(stages[..m + 1], brackets[..m]);
    if j < |before| {
      x := ViewsAreStages(stages[..m + 1], brackets[..m], j);
    } else if j == |before| {
      x := m;
    } else {
      x := m + 1;
    }
  }

  lemma WholePrefix(c: Config, sb: Super, n: nat, g: seq<Event>, vs: seq<View>, h: seq<Event>)
    requires Whole(c, sb, n, g, vs) && h <= g
    ensures Whole(c, sb, n, h, vs[..|h| + 1])
  {
    hide Apply, Open, Mountable;
    forall j | 0 <= j <= |h| && Open(h[..j]) == {} ensures MountableAt(c, sb, n, h, vs[..|h| + 1], j) {
      assert h[..j] == g[..j];
      assert MountableAt(c, sb, n, g, vs, j);
    }
  }

  /** A crash at any point of a filewrite that nobody else's calls interleave with, and any number of
      crashes in recovery: the disk that is left holds the file with a number of whole chunks of the
      bytes written, every other file as before, and can be mounted. */
  lemma CrashInFilewrite(c: Config, sb: Super, n: nat, states: seq<State>, steps: seq<Step>, k: nat, m: nat,
                         h: seq<Event>, views: seq<View>, p: Pid, i: nat, off: nat, src: seq<byte>, w: nat,
                         stages: seq<Stage>, brackets: seq<seq<Write>>)
    returns (x: nat, owner: Owner)
    requires c.Valid() && c.g.Ample() && LaidOut(c.g, sb) && IsRun(c, states, steps) && k < m < |states|
    requires steps[k].Crash? && (forall y | k < y < m :: states[y].booting) && !states[m].booting
    requires Settled(c, sb, n, h, views) && Open(h) == {} && |stages| == |brackets| + 1
    requires Apply(c.init, h) == stages[0].store && views[|h|] == ViewOf(stages[0])
    requires i < |stages[0].files| && w <= |src|
    requires Bracketed(sb, n, i, off, src, w, stages[0].files, stages, brackets)
    requires states[k].history <= h + Calls(p, brackets) && |h| <= states[k].committed
    ensures x <= |brackets|
    ensures Mountable(sb, states[m].disk, n, owner, Written(stages[0].files, i, off, src[..Reached(x, w)]))
  {
    hide Mountable, Apply, Open, Reachable, IsRun, Settled, Whole, Bracketed, Calls, CallViews, Chain;
    BracketedChain(sb, n, i, off, src, w, stages[0].files, stages, brackets);
    ChainGrows(c, sb, n, h, views, p, stages, brackets);
    var g, vs := h + Calls(p, brackets), views + CallViews(stages, brackets);
    SettledWhole(c, sb, n, g, vs);
    SettledSize(c, sb, n, h, views);
    SettledSize(c, sb, n, g, vs);
    WholePrefix(c, sb, n, g, vs, states[k].history);
    RecoveredFiles(c, sb, n, states, steps, k, m, vs[..|states[k].history| + 1]);
    x := StageOfView(h, views, stages, brackets, states[k].committed);
    owner := stages[x].owner;
    StageIs(sb, n, i, off, src, w, stages, brackets, x);
  }

  lemma StageOfView(h: seq<Event>, views: seq<View>, stages: seq<Stage>, brackets: seq<seq<Write>>, j: nat)
    returns (x: nat)
    requires |views| == |h| + 1 && |stages| == |brackets| + 1 && views[|h|] == ViewOf(stages[0])
    requires |h| <= j < |views + CallViews(stages, brackets)|
    ensures x < |stages| && (views + CallViews(stages, brackets))[j] == ViewOf(stages[x])
  {
    x := 0;
    if j > |h| {
      x := ViewsAreStages(stages, brackets, j - |h| - 1);
    }
  }

  lemma StageIs(sb: Super, n: nat, i: nat, off: nat, src: seq<byte>, w: nat, stages: seq<Stage>,
                brackets: seq<seq<Write>>, x: nat)
    requires x < |stages| == |brackets| + 1 && i < |stages[0].files| && w <= |src|
    requires Bracketed(sb, n, i, off, src, w, stages[0].files, stages, brackets)
    ensures stages[x].files == Written(stages[0].files, i, off, src[..Reached(x, w)])
  {
    hide Mountable;
    assert StageOk(sb, n, i, off, src, w, stages[0].files, x, stages[x]);
  }

  lemma SettledSize(c: Config, sb: Super, n: nat, h: seq<Event>, views: seq<View>)
    requires Settled(c, sb, n, h, views)
    ensures |views| == |h| + 1
  {
  }
}
