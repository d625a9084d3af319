/** master_astar: A* with a closed set, where entries of states already closed are dropped when
    they come out of the heap. */
module AStar {
  import opened Blocks
  import opened Crossing

  datatype Entry = Entry(f: int, g: int, parent: Option<State>, state: State)

  /** Python's order on the heap's tuples. */
  predicate LessState(a: State, b: State) {
    a.m < b.m || (a.m == b.m && (a.c < b.c || (a.c == b.c && a.boat < b.boat)))
  }

  predicate LessParent(a: Option<State>, b: Option<State>) {
    a.Some? && b.Some? && LessState(a.value, b.value)
  }

  predicate Less(a: Entry, b: Entry) {
    a.f < b.f || (a.f == b.f && (a.g < b.g || (a.g == b.g &&
      (LessParent(a.parent, b.parent) || (a.parent == b.parent && LessState(a.state, b.state))))))
  }

  /** heappop: the least entry, which is removed. */
  method HeapPop(open: seq<Entry>) returns (e: Entry, rest: seq<Entry>)
    requires |open| > 0
    ensures e in open && |rest| == |open| - 1
    ensures forall x | x in open :: !Less(x, e)
    ensures forall x :: x in open <==> x == e || x in rest
  {
    var k, i := 0, 1;
    while i < |open|
      invariant 0 <= k < i <= |open|
      invariant forall j | 0 <= j < i :: !Less(open[j], open[k])
    {
      if Less(open[i], open[k]) {
        LessTrans(open, i, k);
        k := i;
      }
      i := i + 1;
    }
    e, rest := open[k], open[..k] + open[k + 1..];
    assert open == open[..k] + [open[k]] + open[k + 1..];
  }

  lemma LessTrans(open: seq<Entry>, i: nat, k: nat)
    requires i < |open| && k < i && Less(open[i], open[k]) && forall j | 0 <= j < i :: !Less(open[j], open[k])
    ensures forall j | 0 <= j <= i :: !Less(open[j], open[i])
  {
  }

  /** What a search from init has done: the states in closed have their cost in g, and how they
      were reached in parents. */
  datatype Search = Search(init: State, maxM: int, maxC: int, h: State -> int)

  /** A state was reached from its parent, at its parent's cost and the crossing's. */
  ghost predicate Reached(S: Search, g: map<State, int>, parent: Option<State>, s: State, cost: int) {
    if parent.None? then s == S.init && cost == 0
    else
      parent.value in g && Crosses(parent.value, s, S.maxM, S.maxC) &&
      cost == g[parent.value] + Gstar(parent.value, s)
  }

  /** No path from init to s costs less. */
  ghost predicate Minimal(S: Search, s: State, cost: int) {
    forall p | PathTo(p, S.init, s, S.maxM, S.maxC) :: cost <= Cost(p)
  }

  ghost predicate Known(S: Search, g: map<State, int>, parents: map<State, Option<State>>, s: State) {
    s in g && s in parents && g[s] >= 0 && Reached(S, g, parents[s], s, g[s]) && Minimal(S, s, g[s])
  }

  ghost predicate EntryOk(S: Search, g: map<State, int>, e: Entry) {
    Reached(S, g, e.parent, e.state, e.g) && e.f == e.g + S.h(e.state)
  }

  /** A state is closed, or some entry offers it at that cost or less. */
  ghost predicate Offered(open: seq<Entry>, closed: set<State>, s: State, cost: int) {
    s in closed || exists e :: e in open && e.state == s && e.g <= cost
  }

  ghost predicate Frontier(S: Search, open: seq<Entry>, closed: set<State>, g: map<State, int>) {
    && Offered(open, closed, S.init, 0)
    && forall s, t | s in closed && s in g && Crosses(s, t, S.maxM, S.maxC) ::
         Offered(open, closed, t, g[s] + Gstar(s, t))
  }

  /** The states a search can come to: finitely many. */
  ghost function Universe(S: Search): set<State> {
    {S.init}
    + (set m, c | 0 <= m <= S.maxM && 0 <= c <= S.maxC && Fits(m, c, S.maxM, S.maxC) :: State(m, c, S.init.boat))
    + (set m, c | 0 <= m <= S.maxM && 0 <= c <= S.maxC && Fits(m, c, S.maxM, S.maxC) :: State(m, c, 1 - S.init.boat))
  }

  predicate Fits(m: int, c: int, maxM: int, maxC: int) {
    0 <= m <= maxM && 0 <= c <= maxC
  }

  /** The invariant of the search, but for the frontier. */
  ghost predicate Base(S: Search, open: seq<Entry>, closed: set<State>, parents: map<State, Option<State>>,
                       g: map<State, int>) {
    && closed == g.Keys == parents.Keys && closed <= Universe(S)
    && (forall s | s in closed :: Known(S, g, parents, s))
    && (forall e | e in open :: EntryOk(S, g, e))
  }

  ghost predicate Inv(S: Search, open: seq<Entry>, closed: set<State>, parents: map<State, Option<State>>,
                      g: map<State, int>) {
    Base(S, open, closed, parents, g) && Frontier(S, open, closed, g)
  }

  // ---- the first entry of a state is the best ----

  /** Where a path leaves the closed set. */
  lemma {:induction false} Leaves(p: seq<State>, closed: set<State>) returns (k: nat)
    requires |p| > 0 && p[|p| - 1] !in closed
    ensures k < |p| && p[k] !in closed && (k > 0 ==> p[k - 1] in closed)
  {
    k := |p| - 1;
    while k > 0 && p[k - 1] !in closed
      invariant k < |p| && p[k] !in closed
    {
      k := k - 1;
    }
  }

  /** The step by which a path leaves the closed set is offered at what the path costs so far. */
  lemma LeavingCost(S: Search, closed: set<State>, parents: map<State, Option<State>>, g: map<State, int>,
                    p: seq<State>, k: nat)
    requires (forall s | s in closed :: Known(S, g, parents, s)) && Path(p, S.maxM, S.maxC) && p[0] == S.init &&
             0 < k < |p| && p[k - 1] in closed
    ensures p[k - 1] in g && Crosses(p[k - 1], p[k], S.maxM, S.maxC)
    ensures g[p[k - 1]] + Gstar(p[k - 1], p[k]) <= Cost(p[..k + 1])
  {
    var s, q := p[k - 1], p[..k];
    Prefix(p, k - 1, S.maxM, S.maxC);
    assert Known(S, g, parents, s) && PathTo(q, S.init, s, S.maxM, S.maxC);
    assert g[s] <= Cost(q);
    assert Step(p, k - 1, S.maxM, S.maxC);
    hide Known, Crosses, Gstar, Path, PathTo;
    var r := p[..k + 1];
    assert r[..|r| - 1] == q && r[|r| - 2] == s && r[|r| - 1] == p[k];
  }

  /** Some entry is no dearer than what any path to a state not yet closed costs, plus what h says. */
  lemma BestOffer(S: Search, open: seq<Entry>, closed: set<State>, parents: map<State, Option<State>>,
                  g: map<State, int>, p: seq<State>)
    returns (e: Entry)
    requires Inv(S, open, closed, parents, g) && Consistent(S.h, S.maxM, S.maxC)
    requires Path(p, S.maxM, S.maxC) && p[0] == S.init && p[|p| - 1] !in closed
    ensures e in open && e.f <= Cost(p) + S.h(p[|p| - 1])
  {
    var k := Leaves(p, closed);
    DropsSlowly(p, k, S.h, S.maxM, S.maxC);
    var cost := if k == 0 then 0 else g[p[k - 1]] + Gstar(p[k - 1], p[k]);
    if k > 0 {
      LeavingCost(S, closed, parents, g, p, k);
    } else {
      assert Cost(p[..1]) == 0;
    }
    hide Known, Crosses, Path, Cost, Gstar, Consistent;
    assert Offered(open, closed, p[k], cost);
    e :| e in open && e.state == p[k] && e.g <= cost;
    assert EntryOk(S, g, e);
  }

  /** The first entry to come out for a state has the state's least cost. */
  lemma PoppedIsMinimal(S: Search, open: seq<Entry>, closed: set<State>, parents: map<State, Option<State>>,
                        g: map<State, int>, e: Entry)
    requires Inv(S, open, closed, parents, g) && Consistent(S.h, S.maxM, S.maxC)
    requires e in open && e.state !in closed && forall x | x in open :: !Less(x, e)
    ensures Minimal(S, e.state, e.g)
  {
    assert EntryOk(S, g, e);
    forall p | PathTo(p, S.init, e.state, S.maxM, S.maxC) ensures e.g <= Cost(p) {
      var x := BestOffer(S, open, closed, parents, g, p);
      assert !Less(x, e);
    }
  }

  lemma NothingLeft(S: Search, closed: set<State>, g: map<State, int>, s: State, t: State)
    requires Frontier(S, [], closed, g)
    ensures S.init in closed
    ensures s in closed && s in g && Crosses(s, t, S.maxM, S.maxC) ==> t in closed
  {
    hide Crosses, Gstar;
    assert Offered([], closed, S.init, 0);
    assert s in closed && s in g && Crosses(s, t, S.maxM, S.maxC) ==> Offered([], closed, t, g[s] + Gstar(s, t));
  }

  /** With nothing left to look at, what can be reached has been closed. */
  lemma {:induction false} ReachedIsClosed(S: Search, closed: set<State>, g: map<State, int>, p: seq<State>)
    requires Frontier(S, [], closed, g) && closed == g.Keys && Path(p, S.maxM, S.maxC) && p[0] == S.init
    ensures p[|p| - 1] in closed
    decreases |p|
  {
    if |p| == 1 {
      NothingLeft(S, closed, g, S.init, S.init);
    } else {
      var q, s, t := p[..|p| - 1], p[|p| - 2], p[|p| - 1];
      Prefix(p, |p| - 2, S.maxM, S.maxC);
      assert Step(p, |p| - 2, S.maxM, S.maxC);
      ReachedIsClosed(S, closed, g, q);
      NothingLeft(S, closed, g, s, t);
    }
  }

  // ---- steps of the search ----

  lemma CrossingStaysInUniverse(S: Search, s: State, t: State)
    requires s in Universe(S) && Crosses(s, t, S.maxM, S.maxC)
    ensures t in Universe(S)
  {
    assert t == State(t.m, t.c, t.boat) && Fits(t.m, t.c, S.maxM, S.maxC);
    assert s.boat == S.init.boat || s.boat == 1 - S.init.boat;
  }

  lemma EntryInUniverse(S: Search, open: seq<Entry>, closed: set<State>, parents: map<State, Option<State>>,
                        g: map<State, int>, e: Entry)
    requires Base(S, open, closed, parents, g) && e in open
    ensures e.state in Universe(S)
  {
    assert EntryOk(S, g, e);
    if e.parent.Some? {
      CrossingStaysInUniverse(S, e.parent.value, e.state);
    }
  }

  /** An entry for a closed state can be dropped. */
  lemma Dropped(S: Search, open: seq<Entry>, rest: seq<Entry>, closed: set<State>, parents: map<State, Option<State>>,
                g: map<State, int>, e: Entry)
    requires Inv(S, open, closed, parents, g) && e.state in closed
    requires forall x :: x in open <==> x == e || x in rest
    ensures Inv(S, rest, closed, parents, g)
  {
    hide Known, Crosses, EntryOk, Universe, Gstar;
    OfferedStill(open, rest, closed, closed, S.init, 0, e);
    forall s, t | s in closed && s in g && Crosses(s, t, S.maxM, S.maxC)
      ensures Offered(rest, closed, t, g[s] + Gstar(s, t)) {
      OfferedStill(open, rest, closed, closed, t, g[s] + Gstar(s, t), e);
    }
  }

  lemma OfferedStill(open: seq<Entry>, rest: seq<Entry>, closed: set<State>, closed': set<State>, s: State, cost: int,
                     e: Entry)
    requires Offered(open, closed, s, cost) && closed <= closed' && e.state in closed' &&
             forall x :: x in open <==> x == e || x in rest
    ensures Offered(rest, closed', s, cost)
  {
  }

  /** The frontier, but for the neighbours of s that are not yet in `done`. */
  ghost predicate FrontierBut(S: Search, open: seq<Entry>, closed: set<State>, g: map<State, int>, s: State,
                              done: seq<State>) {
    && Offered(open, closed, S.init, 0)
    && forall x, t | x in closed && x in g && Crosses(x, t, S.maxM, S.maxC) && (x == s ==> t in done) ::
         Offered(open, closed, t, g[x] + Gstar(x, t))
  }

  lemma KnownStill(S: Search, g: map<State, int>, parents: map<State, Option<State>>, x: State, s: State, cost: int,
                   parent: Option<State>)
    requires Known(S, g, parents, x) && s !in g
    ensures Known(S, g[s := cost], parents[s := parent], x)
  {
    hide Minimal, Crosses;
  }

  lemma KnownNow(S: Search, closed: set<State>, parents: map<State, Option<State>>, g: map<State, int>, e: Entry)
    requires (forall s | s in closed :: Known(S, g, parents, s)) && closed == g.Keys && e.state !in closed
    requires EntryOk(S, g, e) && Minimal(S, e.state, e.g)
    ensures Known(S, g[e.state := e.g], parents[e.state := e.parent], e.state)
  {
    assert e.parent.Some? ==> Known(S, g, parents, e.parent.value);
    hide Minimal, Crosses;
  }

  lemma EntryStill(S: Search, g: map<State, int>, x: Entry, s: State, cost: int)
    requires EntryOk(S, g, x) && s !in g
    ensures EntryOk(S, g[s := cost], x)
  {
    hide Crosses, Gstar;
  }

  lemma BaseClosed(S: Search, open: seq<Entry>, rest: seq<Entry>, closed: set<State>,
                   parents: map<State, Option<State>>, g: map<State, int>, e: Entry)
    requires Base(S, open, closed, parents, g) && e in open && e.state !in closed && Minimal(S, e.state, e.g)
    requires forall x :: x in open <==> x == e || x in rest
    ensures Base(S, rest, closed + {e.state}, parents[e.state := e.parent], g[e.state := e.g])
  {
    hide Minimal, Crosses, Gstar, Known, Universe, EntryOk;
    var s := e.state;
    EntryInUniverse(S, open, closed, parents, g, e);
    KnownNow(S, closed, parents, g, e);
    forall x | x in closed ensures Known(S, g[s := e.g], parents[s := e.parent], x) {
      KnownStill(S, g, parents, x, s, e.g, e.parent);
    }
    forall x | x in rest ensures EntryOk(S, g[s := e.g], x) {
      EntryStill(S, g, x, s, e.g);
    }
  }

  lemma FrontierAfter(S: Search, open: seq<Entry>, rest: seq<Entry>, closed: set<State>, g: map<State, int>, e: Entry)
    requires Frontier(S, open, closed, g) && e.state !in closed && closed == g.Keys &&
             forall x :: x in open <==> x == e || x in rest
    ensures FrontierBut(S, rest, closed + {e.state}, g[e.state := e.g], e.state, [])
  {
    hide Crosses, Gstar;
    var closed' := closed + {e.state};
    OfferedStill(open, rest, closed, closed', S.init, 0, e);
    forall x, t | x in closed && x in g && Crosses(x, t, S.maxM, S.maxC)
      ensures Offered(rest, closed', t, g[x] + Gstar(x, t)) {
      OfferedStill(open, rest, closed, closed', t, g[x] + Gstar(x, t), e);
    }
  }

  /** A state is closed with its least cost. */
  lemma Closed(S: Search, open: seq<Entry>, rest: seq<Entry>, closed: set<State>, parents: map<State, Option<State>>,
               g: map<State, int>, e: Entry)
    requires Inv(S, open, closed, parents, g) && Consistent(S.h, S.maxM, S.maxC) && e in open && e.state !in closed
    requires (forall x | x in open :: !Less(x, e)) && forall x :: x in open <==> x == e || x in rest
    ensures Base(S, rest, closed + {e.state}, parents[e.state := e.parent], g[e.state := e.g])
    ensures FrontierBut(S, rest, closed + {e.state}, g[e.state := e.g], e.state, [])
  {
    PoppedIsMinimal(S, open, closed, parents, g, e);
    hide Minimal, Known, Universe, EntryOk, Less, Frontier, FrontierBut;
    FrontierAfter(S, open, rest, closed, g, e);
    BaseClosed(S, open, rest, closed, parents, g, e);
  }

  /** One neighbour t of s looked at: offered, unless it is closed already. */
  lemma Looked(S: Search, open: seq<Entry>, open': seq<Entry>, closed: set<State>, parents: map<State, Option<State>>,
               g: map<State, int>, s: State, done: seq<State>, t: State)
    requires Base(S, open, closed, parents, g) && FrontierBut(S, open, closed, g, s, done) && s in g &&
             Crosses(s, t, S.maxM, S.maxC)
    requires open' == if t in closed then open
             else open + [Entry(g[s] + Gstar(s, t) + S.h(t), g[s] + Gstar(s, t), Some(s), t)]
    ensures Base(S, open', closed, parents, g) && FrontierBut(S, open', closed, g, s, done + [t])
  {
    hide Crosses, Gstar, Known, Universe;
    forall u, cost | Offered(open, closed, u, cost) ensures Offered(open', closed, u, cost) {
    }
    assert Offered(open', closed, t, g[s] + Gstar(s, t)) by {
      if t !in closed {
        assert Entry(g[s] + Gstar(s, t) + S.h(t), g[s] + Gstar(s, t), Some(s), t) in open';
      }
    }
  }

  lemma AllLooked(S: Search, open: seq<Entry>, closed: set<State>, g: map<State, int>, s: State, done: seq<State>)
    requires FrontierBut(S, open, closed, g, s, done) && forall t :: Crosses(s, t, S.maxM, S.maxC) ==> t in done
    ensures Frontier(S, open, closed, g)
  {
    hide Crosses, Gstar;
  }

  // ---- the search ----

  /** parents followed back from the goal: the path that was found, at the goal's cost. */
  method Rebuild(S: Search, parents: map<State, Option<State>>, goal: State, ghost closed: set<State>,
                 ghost g: map<State, int>) returns (r: seq<State>)
    requires closed == g.Keys == parents.Keys && goal in closed && forall s | s in closed :: Known(S, g, parents, s)
    ensures PathTo(r, S.init, goal, S.maxM, S.maxC) && Cost(r) == g[goal]
  {
    var current := goal;
    r := [goal];
    while parents[current].Some?
      invariant current in closed && PathTo(r, current, goal, S.maxM, S.maxC) && Cost(r) == g[goal] - g[current] &&
                g[current] >= 0
      decreases g[current]
    {
      assert Known(S, g, parents, current);
      var parent := parents[current].value;
      assert Known(S, g, parents, parent);
      CrossingCost(parent, current, S.maxM, S.maxC);
      PrependPath(parent, r, S.maxM, S.maxC);
      r := [parent] + r;
      current := parent;
    }
    assert Known(S, g, parents, current);
  }

  /** The neighbours of s put in the heap, but for those already closed. */
  method Expand(S: Search, open: seq<Entry>, closed: set<State>, s: State, gs: int,
                ghost parents: map<State, Option<State>>, ghost g: map<State, int>)
    returns (open': seq<Entry>)
    requires Base(S, open, closed, parents, g) && FrontierBut(S, open, closed, g, s, []) && s in g && g[s] == gs
    ensures Inv(S, open', closed, parents, g)
  {
    var next := GetNeighbours(s, S.maxM, S.maxC);
    open' := open;
    var i := 0;
    hide Base, FrontierBut, Crosses, Gstar;
    while i < |next|
      invariant 0 <= i <= |next| && Base(S, open', closed, parents, g) && FrontierBut(S, open', closed, g, s, next[..i])
    {
      var t := next[i];
      ghost var before := open';
      assert t in next;
      if t !in closed {
        open' := open' + [Entry(gs + Gstar(s, t) + S.h(t), gs + Gstar(s, t), Some(s), t)];
      }
      Looked(S, before, open', closed, parents, g, s, next[..i], t);
      assert next[..i] + [t] == next[..i + 1];
      i := i + 1;
    }
    assert next[..i] == next;
    AllLooked(S, open', closed, g, s, next);
  }

  /** master_astar: it ends; it returns a cheapest legal sequence of crossings from init to goal if
      there is any such sequence, and [] if there is none. */
  method MasterAstar(init: State, goal: State, maxM: int, maxC: int, h: State -> int)
    returns (r: seq<State>, monotone: bool)
    requires Consistent(h, maxM, maxC)
    ensures r == [] <==> !exists p :: PathTo(p, init, goal, maxM, maxC)
    ensures r != [] ==> PathTo(r, init, goal, maxM, maxC)
    ensures forall i | 1 <= i < |r| :: Legal(r[i], maxM, maxC)
    ensures forall p | PathTo(p, init, goal, maxM, maxC) :: Cost(r) <= Cost(p)
    ensures monotone
  {
    monotone := true;
    var S := Search(init, maxM, maxC, h);
    var closed: set<State>, parents: map<State, Option<State>> := {}, map[];
    ghost var g: map<State, int> := map[];
    var open := [Entry(h(init), 0, None, init)];
    assert open[0] in open;
    assert Inv(S, open, closed, parents, g);
    hide Inv, Base, Frontier, Known, Universe;
    while open != []
      invariant Inv(S, open, closed, parents, g) && closed <= Universe(S) && goal !in closed
      decreases |Universe(S) - closed|, |open|
    {
      var e, rest := HeapPop(open);
      if e.state in closed {
        Dropped(S, open, rest, closed, parents, g, e);
        open := rest;
        continue;
      }
      Closed(S, open, rest, closed, parents, g, e);
      ShrinksBy(Universe(S), closed, e.state, S, open, parents, g, e);
      closed := closed + {e.state};
      parents := parents[e.state := e.parent];
      g := g[e.state := e.g];
      if e.state == goal {
        AllKnown(S, rest, closed, parents, g);
        r := Rebuild(S, parents, goal, closed, g);
        BestIsMinimal(S, g, parents, goal);
        PathIsLegal(r, maxM, maxC);
        return;
      }
      open := Expand(S, rest, closed, e.state, e.g, parents, g);
    }
    NoWay(S, closed, parents, g, goal);
    r := [];
  }

  lemma ShrinksBy(u: set<State>, closed: set<State>, s: State, S: Search, open: seq<Entry>,
                  parents: map<State, Option<State>>, g: map<State, int>, e: Entry)
    requires Inv(S, open, closed, parents, g) && e in open && e.state == s && s !in closed && u == Universe(S)
    ensures s in u && |u - (closed + {s})| < |u - closed|
  {
    EntryInUniverse(S, open, closed, parents, g, e);
    hide Universe, Known, EntryOk;
    assert u - closed == (u - (closed + {s})) + {s};
  }

  lemma AllKnown(S: Search, open: seq<Entry>, closed: set<State>, parents: map<State, Option<State>>,
                 g: map<State, int>)
    requires Base(S, open, closed, parents, g)
    ensures closed == g.Keys == parents.Keys && forall s | s in closed :: Known(S, g, parents, s)
  {
  }

  lemma BestIsMinimal(S: Search, g: map<State, int>, parents: map<State, Option<State>>, s: State)
    requires Known(S, g, parents, s)
    ensures s in g && forall p | PathTo(p, S.init, s, S.maxM, S.maxC) :: g[s] <= Cost(p)
  {
  }

  lemma NoWay(S: Search, closed: set<State>, parents: map<State, Option<State>>, g: map<State, int>, goal: State)
    requires Inv(S, [], closed, parents, g) && goal !in closed
    ensures !exists p :: PathTo(p, S.init, goal, S.maxM, S.maxC)
  {
    forall p ensures !PathTo(p, S.init, goal, S.maxM, S.maxC) {
      if PathTo(p, S.init, goal, S.maxM, S.maxC) {
        ReachedIsClosed(S, closed, g, p);
      }
    }
  }

  method AstarH1(init: State, goal: State, maxM: int, maxC: int) returns (r: seq<State>, monotone: bool)
    ensures r == [] <==> !exists p :: PathTo(p, init, goal, maxM, maxC)
    ensures r != [] ==> PathTo(r, init, goal, maxM, maxC)
    ensures forall i | 1 <= i < |r| :: Legal(r[i], maxM, maxC)
    ensures forall p | PathTo(p, init, goal, maxM, maxC) :: Cost(r) <= Cost(p)
  {
    AllConsistent(maxM, maxC);
    r, monotone := MasterAstar(init, goal, maxM, maxC, H1);
  }

  method AstarH2(init: State, goal: State, maxM: int, maxC: int) returns (r: seq<State>, monotone: bool)
    ensures r == [] <==> !exists p :: PathTo(p, init, goal, maxM, maxC)
    ensures r != [] ==> PathTo(r, init, goal, maxM, maxC)
    ensures forall i | 1 <= i < |r| :: Legal(r[i], maxM, maxC)
    ensures forall p | PathTo(p, init, goal, maxM, maxC) :: Cost(r) <= Cost(p)
  {
    AllConsistent(maxM, maxC);
    r, monotone := MasterAstar(init, goal, maxM, maxC, H2);
  }

  method AstarH3(init: State, goal: State, maxM: int, maxC: int) returns (r: seq<State>, monotone: bool)
    ensures r == [] <==> !exists p :: PathTo(p, init, goal, maxM, maxC)
    ensures r != [] ==> PathTo(r, init, goal, maxM, maxC)
    ensures forall i | 1 <= i < |r| :: Legal(r[i], maxM, maxC)
    ensures forall p | PathTo(p, init, goal, maxM, maxC) :: Cost(r) <= Cost(p)
  {
    AllConsistent(maxM, maxC);
    r, monotone := MasterAstar(init, goal, maxM, maxC, H3);
  }
}
