/** Missionaries and cannibals: the states, the crossings between them and what they cost. */
module Crossing {
  /** People on the left bank, and the bank the boat is at: 1 is left. */
  datatype State = State(m: int, c: int, boat: int)

  predicate CheckValid(s: State, maxM: int, maxC: int) {
    && maxC <= maxM
    && 0 <= s.m <= maxM && 0 <= s.c <= maxC
    && !((s.m > 0 && s.m < s.c) || (maxM - s.m > 0 && maxM - s.m < maxC - s.c))
  }

  const MOVES: seq<(int, int)> := [(0, 1), (1, 0), (1, 1), (0, 2), (2, 0)]

  /** The state after a boat with dm missionaries and dc cannibals has crossed. */
  function Moved(s: State, dm: int, dc: int): State {
    if s.boat == 1 then State(s.m - dm, s.c - dc, 1 - s.boat) else State(s.m + dm, s.c + dc, 1 - s.boat)
  }

  /** The missionaries on a bank are safe. */
  predicate Safe(missionaries: int, cannibals: int) {
    missionaries == 0 || missionaries >= cannibals
  }

  /** Everybody is on one of the banks, and the missionaries are safe on both. */
  predicate Legal(s: State, maxM: int, maxC: int) {
    0 <= s.m <= maxM && 0 <= s.c <= maxC && Safe(s.m, s.c) && Safe(maxM - s.m, maxC - s.c)
  }

  /** dm missionaries and dc cannibals, one or two people, cross with the boat. */
  predicate OneLoad(s: State, t: State, dm: int, dc: int) {
    && 0 <= dm && 0 <= dc && 1 <= dm + dc <= 2 && t.boat == 1 - s.boat
    && if s.boat == 1 then s.m - dm == t.m && s.c - dc == t.c else s.m + dm == t.m && s.c + dc == t.c
  }

  /** What the search takes for a crossing: with more cannibals than missionaries there is none. */
  ghost predicate Crosses(s: State, t: State, maxM: int, maxC: int) {
    maxC <= maxM && Legal(t, maxM, maxC) && exists dm, dc :: OneLoad(s, t, dm, dc)
  }

  /** check_valid rejects every state when there are more cannibals than missionaries, and the states
      that are not legal otherwise. */
  lemma CheckValidIs(s: State, maxM: int, maxC: int)
    ensures CheckValid(s, maxM, maxC) <==> maxC <= maxM && Legal(s, maxM, maxC)
  {
  }

  /** The two banks are alike. */
  lemma Mirror(s: State, maxM: int, maxC: int)
    ensures CheckValid(s, maxM, maxC) <==> CheckValid(State(maxM - s.m, maxC - s.c, 1 - s.boat), maxM, maxC)
  {
  }

  function Abs(x: int): int {
    if x < 0 then -x else x
  }

  function Gstar(s: State, t: State): int {
    Abs(s.m - t.m) + Abs(s.c - t.c)
  }

  function H1(s: State): int {
    s.m + s.c
  }

  function H2(s: State): int {
    s.m
  }

  function H3(s: State): int {
    s.c
  }

  /** The monotone restriction. */
  ghost predicate Consistent(h: State -> int, maxM: int, maxC: int) {
    forall s, t | Crosses(s, t, maxM, maxC) :: h(s) <= Gstar(s, t) + h(t)
  }

  lemma AllConsistent(maxM: int, maxC: int)
    ensures Consistent(H1, maxM, maxC) && Consistent(H2, maxM, maxC) && Consistent(H3, maxM, maxC)
  {
  }

  /** h1 drops by all who leave the left bank, h2 by the missionaries, h3 by the cannibals; when the
      left bank is empty all three are 0. */
  lemma HeuristicsCount(s: State, t: State, dm: int, dc: int)
    requires OneLoad(s, t, dm, dc)
    ensures Gstar(s, t) == dm + dc
    ensures var left := if s.boat == 1 then 1 else -1;
            H1(s) - H1(t) == left * (dm + dc) && H2(s) - H2(t) == left * dm && H3(s) - H3(t) == left * dc
    ensures s.m == s.c == 0 ==> H1(s) == H2(s) == H3(s) == 0
  {
  }

  /** What crosses is what it costs. */
  lemma CrossingCost(s: State, t: State, maxM: int, maxC: int)
    requires Crosses(s, t, maxM, maxC)
    ensures 1 <= Gstar(s, t) <= 2
  {
  }

  method GetNeighbours(s: State, maxM: int, maxC: int) returns (r: seq<State>)
    ensures forall t :: t in r <==> Crosses(s, t, maxM, maxC)
  {
    r := [];
    var k := 0;
    while k < |MOVES|
      invariant 0 <= k <= |MOVES|
      invariant
        forall t :: t in r <==>
          CheckValid(t, maxM, maxC) && exists j :: 0 <= j < k && t == Moved(s, MOVES[j].0, MOVES[j].1)
    {
      var t := Moved(s, MOVES[k].0, MOVES[k].1);
      if CheckValid(t, maxM, maxC) {
        r := r + [t];
      }
      k := k + 1;
    }
    forall t ensures t in r <==> Crosses(s, t, maxM, maxC) {
      EveryLoad(s, t);
      CheckValidIs(t, maxM, maxC);
    }
  }

  /** The five moves are all the loads of one or two people. */
  lemma EveryLoad(s: State, t: State)
    ensures (exists j :: 0 <= j < |MOVES| && t == Moved(s, MOVES[j].0, MOVES[j].1)) <==>
       exists dm, dc :: OneLoad(s, t, dm, dc)
  {
    if dm, dc :| OneLoad(s, t, dm, dc) {
      var j := if dm == 0 then (if dc == 1 then 0 else 3) else if dc == 0 then (if dm == 1 then 1 else 4) else 2;
      assert MOVES[j] == (dm, dc);
    }
    if j :| 0 <= j < |MOVES| && t == Moved(s, MOVES[j].0, MOVES[j].1) {
      assert OneLoad(s, t, MOVES[j].0, MOVES[j].1);
    }
  }

  // ---- paths ----

  ghost predicate Path(p: seq<State>, maxM: int, maxC: int) {
    |p| > 0 && forall i | 0 <= i < |p| - 1 :: Step(p, i, maxM, maxC)
  }

  ghost predicate Step(p: seq<State>, i: int, maxM: int, maxC: int)
    requires 0 <= i < |p| - 1
  {
    Crosses(p[i], p[i + 1], maxM, maxC)
  }

  ghost predicate PathTo(p: seq<State>, s: State, t: State, maxM: int, maxC: int) {
    Path(p, maxM, maxC) && p[0] == s && p[|p| - 1] == t
  }

  /** After each crossing the missionaries are safe on both banks. */
  lemma PathIsLegal(p: seq<State>, maxM: int, maxC: int)
    requires Path(p, maxM, maxC)
    ensures forall i | 1 <= i < |p| :: Legal(p[i], maxM, maxC)
  {
    forall i | 1 <= i < |p| ensures Legal(p[i], maxM, maxC) {
      assert Step(p, i - 1, maxM, maxC);
    }
  }

  function Cost(p: seq<State>): int {
    if |p| <= 1 then 0 else Cost(p[..|p| - 1]) + Gstar(p[|p| - 2], p[|p| - 1])
  }

  lemma Prefix(p: seq<State>, k: int, maxM: int, maxC: int)
    requires Path(p, maxM, maxC) && 0 <= k < |p|
    ensures Path(p[..k + 1], maxM, maxC)
  {
    var q := p[..k + 1];
    forall i | 0 <= i < |q| - 1 ensures Step(q, i, maxM, maxC) {
      assert Step(p, i, maxM, maxC);
    }
  }

  /** A consistent h drops along a path by no more than the path costs. */
  lemma {:induction false} DropsSlowly(p: seq<State>, k: int, h: State -> int, maxM: int, maxC: int)
    requires Path(p, maxM, maxC) && Consistent(h, maxM, maxC) && 0 <= k < |p|
    ensures Cost(p[..k + 1]) + h(p[k]) <= Cost(p) + h(p[|p| - 1])
  {
    if k == |p| - 1 {
      assert p[..k + 1] == p;
    } else {
      var q := p[..|p| - 1];
      Prefix(p, |p| - 2, maxM, maxC);
      DropsSlowly(q, k, h, maxM, maxC);
      assert q[..k + 1] == p[..k + 1];
      assert Step(p, |p| - 2, maxM, maxC);
    }
  }

  lemma {:induction false} PrependPath(s: State, p: seq<State>, maxM: int, maxC: int)
    requires Path(p, maxM, maxC) && Crosses(s, p[0], maxM, maxC)
    ensures Path([s] + p, maxM, maxC) && Cost([s] + p) == Gstar(s, p[0]) + Cost(p)
  {
    var q := [s] + p;
    forall i | 0 <= i < |q| - 1 ensures Step(q, i, maxM, maxC) {
      assert i > 0 ==> Step(p, i - 1, maxM, maxC);
    }
    PrependCost(s, p);
  }

  lemma {:induction false} PrependCost(s: State, p: seq<State>)
    requires |p| > 0
    ensures Cost([s] + p) == Gstar(s, p[0]) + Cost(p)
  {
    var q := [s] + p;
    if |p| == 1 {
      assert q[..1] == [s];
    } else {
      var p' := p[..|p| - 1];
      PrependCost(s, p');
      assert q[..|q| - 1] == [s] + p';
    }
  }
}
