/** When everybody can be brought across, and what the three searches then find. */
module Puzzle {
  import opened AStar
  import opened Crossing

  // ---- plans ----

  ghost predicate Leads(s: State, t: State, maxM: int, maxC: int) {
    exists p :: PathTo(p, s, t, maxM, maxC)
  }

  lemma Arrived(s: State, maxM: int, maxC: int)
    ensures Leads(s, s, maxM, maxC)
  {
    assert PathTo([s], s, s, maxM, maxC);
  }

  /** A crossing with dm missionaries and dc cannibals, then the rest of the plan. */
  lemma Go(s: State, t: State, dm: int, dc: int, u: State, maxM: int, maxC: int)
    requires OneLoad(s, t, dm, dc) && maxC <= maxM && Legal(t, maxM, maxC) && Leads(t, u, maxM, maxC)
    ensures Leads(s, u, maxM, maxC)
  {
    assert Crosses(s, t, maxM, maxC);
    hide Crosses, OneLoad, Legal;
    var p :| PathTo(p, t, u, maxM, maxC);
    PrependPath(s, p, maxM, maxC);
    assert PathTo([s] + p, s, u, maxM, maxC);
  }

  const OVER: State := State(0, 0, 0)

  /** With all cannibals across, the missionaries follow. */
  lemma {:induction false} Ferry(m: int, maxM: int, maxC: int)
    requires 0 <= maxC < maxM && 1 <= m <= maxM - maxC
    ensures Leads(State(m, 0, 1), OVER, maxM, maxC)
    decreases m
  {
    if m <= 2 {
      Arrived(OVER, maxM, maxC);
      Go(State(m, 0, 1), OVER, m, 0, OVER, maxM, maxC);
    } else {
      Ferry(m - 1, maxM, maxC);
      Go(State(m - 2, 0, 0), State(m - 1, 0, 1), 1, 0, OVER, maxM, maxC);
      Go(State(m, 0, 1), State(m - 2, 0, 0), 2, 0, OVER, maxM, maxC);
    }
  }

  /** With more missionaries than cannibals, one of each is brought across in four crossings, and so
      on until no cannibal is left. */
  lemma {:induction false} Shuttle(c: int, maxM: int, maxC: int)
    requires 0 <= c <= maxC < maxM
    ensures Leads(State(maxM - maxC + c, c, 1), OVER, maxM, maxC)
    decreases c
  {
    var m := maxM - maxC + c;
    if c == 0 {
      Ferry(m, maxM, maxC);
    } else {
      Shuttle(c - 1, maxM, maxC);
      Go(State(m - 2, c - 1, 0), State(m - 1, c - 1, 1), 1, 0, OVER, maxM, maxC);
      Go(State(m - 1, c, 1), State(m - 2, c - 1, 0), 1, 1, OVER, maxM, maxC);
      Go(State(m - 1, c - 1, 0), State(m - 1, c, 1), 0, 1, OVER, maxM, maxC);
      Go(State(m, c, 1), State(m - 1, c - 1, 0), 1, 1, OVER, maxM, maxC);
    }
  }

  lemma Two()
    ensures Leads(State(2, 2, 1), OVER, 2, 2)
  {
    Arrived(OVER, 2, 2);
    Go(State(1, 1, 1), OVER, 1, 1, OVER, 2, 2);
    Go(State(0, 1, 0), State(1, 1, 1), 1, 0, OVER, 2, 2);
    Go(State(2, 1, 1), State(0, 1, 0), 2, 0, OVER, 2, 2);
    Go(State(1, 1, 0), State(2, 1, 1), 1, 0, OVER, 2, 2);
    Go(State(2, 2, 1), State(1, 1, 0), 1, 1, OVER, 2, 2);
  }

  lemma Three()
    ensures Leads(State(3, 3, 1), OVER, 3, 3)
  {
    Arrived(OVER, 3, 3);
    Go(State(0, 2, 1), OVER, 0, 2, OVER, 3, 3);
    Go(State(0, 1, 0), State(0, 2, 1), 0, 1, OVER, 3, 3);
    Go(State(0, 3, 1), State(0, 1, 0), 0, 2, OVER, 3, 3);
    Go(State(0, 2, 0), State(0, 3, 1), 0, 1, OVER, 3, 3);
    Go(State(2, 2, 1), State(0, 2, 0), 2, 0, OVER, 3, 3);
    Go(State(1, 1, 0), State(2, 2, 1), 1, 1, OVER, 3, 3);
    Go(State(3, 1, 1), State(1, 1, 0), 2, 0, OVER, 3, 3);
    Go(State(3, 0, 0), State(3, 1, 1), 0, 1, OVER, 3, 3);
    Go(State(3, 2, 1), State(3, 0, 0), 0, 2, OVER, 3, 3);
    Go(State(3, 1, 0), State(3, 2, 1), 0, 1, OVER, 3, 3);
    Go(State(3, 3, 1), State(3, 1, 0), 0, 2, OVER, 3, 3);
  }

  // ---- and when there is none ----

  /** All that four or more of each can come to. */
  predicate Caught(s: State, n: int) {
    s.m == n || (s.m == s.c == n - 1) || (s.m == s.c == n - 2 && s.boat == 0)
  }

  lemma StillCaught(s: State, t: State, n: int)
    requires n >= 4 && (s.boat == 0 || s.boat == 1) && Caught(s, n) && Crosses(s, t, n, n)
    ensures Caught(t, n) && (t.boat == 0 || t.boat == 1)
  {
  }

  lemma {:induction false} AllCaught(p: seq<State>, n: int)
    requires n >= 4 && Path(p, n, n) && p[0] == State(n, n, 1)
    ensures var s := p[|p| - 1]; Caught(s, n) && (s.boat == 0 || s.boat == 1)
    decreases |p|
  {
    if |p| > 1 {
      Prefix(p, |p| - 2, n, n);
      assert Step(p, |p| - 2, n, n);
      AllCaught(p[..|p| - 1], n);
      hide Path, Crosses;
      StillCaught(p[|p| - 2], p[|p| - 1], n);
    }
  }

  /** A plan starts with a crossing. */
  lemma FirstCrossing(s: State, u: State, maxM: int, maxC: int) returns (t: State)
    requires Leads(s, u, maxM, maxC) && s != u
    ensures Crosses(s, t, maxM, maxC)
  {
    hide Crosses;
    var p :| PathTo(p, s, u, maxM, maxC);
    assert Step(p, 0, maxM, maxC);
    t := p[1];
  }

  /** Everybody can be brought across if and only if there are more missionaries than cannibals, or
      one, two or three of each. */
  lemma Solvable(maxM: int, maxC: int)
    ensures Leads(State(maxM, maxC, 1), OVER, maxM, maxC) <==>
            0 <= maxC < maxM || 1 <= maxM == maxC <= 3
  {
    var init := State(maxM, maxC, 1);
    if 0 <= maxC < maxM {
      Shuttle(maxC, maxM, maxC);
    } else if 1 <= maxM == maxC <= 3 {
      Two();
      Three();
      Arrived(OVER, 1, 1);
      Go(State(1, 1, 1), OVER, 1, 1, OVER, 1, 1);
    } else if Leads(init, OVER, maxM, maxC) {
      var t := FirstCrossing(init, OVER, maxM, maxC);
      assert maxM == maxC >= 4;
      var p :| PathTo(p, init, OVER, maxM, maxC);
      AllCaught(p, maxM);
    }
  }

  // ---- the searches ----

  /** The body of main's loop: the initial state is checked, and if it passes all three searches are made. */
  method Solve(maxM: int, maxC: int)
    returns (valid: bool, path1: seq<State>, path2: seq<State>, path3: seq<State>, monotone: bool)
    ensures valid <==> 0 <= maxC <= maxM
    ensures !valid ==> path1 == path2 == path3 == []
    ensures path1 == [] <==> !(0 <= maxC < maxM || 1 <= maxM == maxC <= 3)
    ensures (path1 == [] <==> path2 == []) && (path1 == [] <==> path3 == [])
    ensures Cost(path1) == Cost(path2) == Cost(path3)
  {
    var init := State(maxM, maxC, 1);
    path1, path2, path3, monotone := [], [], [], true;
    valid := CheckValid(init, maxM, maxC);
    if !valid {
      return;
    }
    Solvable(maxM, maxC);
    path1, monotone := AstarH1(init, OVER, maxM, maxC);
    path2, monotone := AstarH2(init, OVER, maxM, maxC);
    path3, monotone := AstarH3(init, OVER, maxM, maxC);
  }
}
