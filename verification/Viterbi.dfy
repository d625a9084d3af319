/** get_POS_tags: the Viterbi tagger, with probabilities as reals. Tags are their indices. */
module Viterbi {
  function Mul(a: real, b: real): (r: real)
    ensures a >= 0.0 && b >= 0.0 ==> r >= 0.0
  {
    a * b
  }

  lemma Monotone(a: real, x: real, y: real)
    requires a >= 0.0 && x <= y
    ensures Mul(a, x) <= Mul(a, y)
  {
    assert a * (y - x) >= 0.0;
  }

  /** Transition, start and end probabilities, emission probabilities of the words seen in training,
      and how often each tag was seen. */
  datatype Model = Model(n: nat, start: seq<real>, trans: seq<seq<real>>, end: seq<real>,
                         words: map<string, map<nat, real>>, total: seq<int>)
  {
    ghost predicate Valid() {
      && 0 < n == |start| == |trans| == |end| == |total|
      && (forall t | 0 <= t < n :: start[t] >= 0.0 && end[t] >= 0.0 && total[t] + |words| > 0)
      && (forall t2 | 0 <= t2 < n :: |trans[t2]| == n)
      && (forall t2, t | 0 <= t2 < n && 0 <= t < n :: trans[t2][t] >= 0.0)
      && (forall w | w in words :: forall t | t in words[w] :: words[w][t] >= 0.0)
    }

    /** The emission probability of an unseen word. */
    function Smoothed(t: nat): (r: real)
      requires Valid() && t < n
      ensures r > 0.0
    {
      1.0 / (total[t] + |words|) as real
    }

    function Emit(w: string, t: nat): (r: real)
      requires Valid() && t < n
      ensures r >= 0.0
    {
      if w in words && t in words[w] then words[w][t] else Smoothed(t)
    }

    /** The emission of a sentence's last word; in an empty sentence the lookup fails as it does for
        an unseen word. */
    function LastEmit(s: seq<string>, t: nat): (r: real)
      requires Valid() && t < n
      ensures r >= 0.0
    {
      if s == [] then Smoothed(t) else Emit(s[|s| - 1], t)
    }

    /** The factor of going from tag t, which emits w, to tag t2. */
    function Edge(w: string, t: nat, t2: nat): (r: real)
      requires Valid() && t < n && t2 < n
      ensures r >= 0.0
    {
      Mul(trans[t2][t], Emit(w, t))
    }

    predicate Tags(q: seq<nat>) {
      forall i | 0 <= i < |q| :: q[i] < n
    }

    /** The probability of a tag sequence so far: start, transitions, and emissions of all words but the
        last tag's. */
    function Prefix(s: seq<string>, q: seq<nat>): (r: real)
      requires Valid() && Tags(q) && 0 < |q| <= |s| + 1
      ensures r >= 0.0
    {
      if |q| == 1 then start[q[0]]
      else
        Mul(Edge(s[|q| - 2], q[|q| - 2], q[|q| - 1]), Prefix(s, q[..|q| - 1]))
    }

    /** What ends a tag sequence. */
    function Last(s: seq<string>, t: nat): (r: real)
      requires Valid() && t < n
      ensures r >= 0.0
    {
      Mul(end[t], LastEmit(s, t))
    }

    /** The start, transition, emission and end product of a whole tag sequence. */
    function Score(s: seq<string>, q: seq<nat>): (r: real)
      requires Valid() && Tags(q) && 0 < |q| <= |s| + 1
      ensures r >= 0.0
    {
      Mul(Last(s, q[|q| - 1]), Prefix(s, q))
    }
  }

  /** Tags a sentence gets. */
  function Length(s: seq<string>): (l: nat) {
    if s == [] then 1 else |s|
  }

  datatype Best = Best(path: seq<nat>, prob: real)

  /** b is the likeliest way to tag the first k + 1 places that ends in tag t. */
  ghost predicate BestTo(m: Model, s: seq<string>, k: nat, t: nat, b: Best)
    requires m.Valid()
  {
    && k <= |s| && |b.path| == k + 1 && m.Tags(b.path) && b.path[k] == t && b.prob == m.Prefix(s, b.path)
    && forall q: seq<nat> | |q| == k + 1 && m.Tags(q) && q[k] == t :: m.Prefix(s, q) <= b.prob
  }

  ghost predicate AllBest(m: Model, s: seq<string>, k: nat, primary: seq<Best>)
    requires m.Valid()
  {
    |primary| == m.n && forall t | 0 <= t < m.n :: BestTo(m, s, k, t, primary[t])
  }

  lemma PrefixStep(m: Model, s: seq<string>, p: seq<nat>, t2: nat)
    requires m.Valid() && m.Tags(p) && 0 < |p| <= |s| && t2 < m.n
    ensures m.Tags(p + [t2]) && m.Prefix(s, p + [t2]) == Mul(m.Edge(s[|p| - 1], p[|p| - 1], t2), m.Prefix(s, p))
  {
    hide Mul, Model.Edge;
    var q := p + [t2];
    assert q[..|q| - 1] == p;
  }

  /** Any way to tag t2 next is no likelier than the best way to the tag before it allows. */
  lemma NoBetter(m: Model, s: seq<string>, k: nat, primary: seq<Best>, q: seq<nat>, t: nat, t2: nat)
    requires m.Valid() && AllBest(m, s, k, primary) && k < |s| && t2 < m.n && t < m.n
    requires |q| == k + 2 && m.Tags(q) && q[k + 1] == t2 && q[k] == t
    ensures m.Prefix(s, q) <= Mul(m.Edge(s[k], t, t2), primary[t].prob)
  {
    hide Mul, Model.Edge, Model.Prefix, Model.Valid;
    var p := q[..k + 1];
    assert p + [t2] == q && |p| == k + 1 && p[k] == t;
    assert BestTo(m, s, k, t, primary[t]);
    assert m.Tags(p);
    PrefixStep(m, s, p, t2);
    Monotone(m.Edge(s[k], t, t2), m.Prefix(s, p), primary[t].prob);
  }

  /** The recurrence: the likeliest way to tag t2 comes from the tag where this product is largest. */
  lemma Recurrence(m: Model, s: seq<string>, k: nat, primary: seq<Best>, t2: nat, from: nat, prob: real)
    requires m.Valid() && AllBest(m, s, k, primary) && k < |s| && t2 < m.n && from < m.n
    requires prob == Mul(m.Edge(s[k], from, t2), primary[from].prob)
    requires forall t: nat | t < m.n :: Mul(m.Edge(s[k], t, t2), primary[t].prob) <= prob
    ensures BestTo(m, s, k + 1, t2, Best(primary[from].path + [t2], prob))
  {
    var b := primary[from];
    assert BestTo(m, s, k, from, b);
    PrefixStep(m, s, b.path, t2);
    hide Mul, Model.Prefix, Model.Edge;
    forall q: seq<nat> | |q| == k + 2 && m.Tags(q) && q[k + 1] == t2 ensures m.Prefix(s, q) <= prob {
      NoBetter(m, s, k, primary, q, q[k], t2);
      assert q[k] < m.n;
    }
  }

  lemma MulAssoc(a: real, b: real, c: real)
    ensures Mul(Mul(a, b), c) == Mul(Mul(c, a), b)
  {
  }

  lemma OverIsTimes(a: real, d: real)
    requires d > 0.0
    ensures a * 1.0 / d == a * (1.0 / d)
  {
  }

  /** The product in the loop over words, with the fallback for words unseen. */
  method Product(m: Model, w: string, t: nat, t2: nat, prob: real) returns (x: real)
    requires m.Valid() && t < m.n && t2 < m.n
    ensures x == Mul(m.Edge(w, t, t2), prob)
  {
    if w in m.words && t in m.words[w] {
      x := m.trans[t2][t] * m.words[w][t] * prob;
    } else {
      var d := (m.total[t] + |m.words|) as real;
      OverIsTimes(m.trans[t2][t], d);
      x := m.trans[t2][t] * 1.0 / d * prob;
    }
  }

  /** The product for the last word. */
  method LastProduct(m: Model, s: seq<string>, t: nat, prob: real) returns (x: real)
    requires m.Valid() && t < m.n
    ensures x == Mul(m.Last(s, t), prob)
  {
    if s != [] && s[|s| - 1] in m.words && t in m.words[s[|s| - 1]] {
      x := prob * m.end[t] * m.words[s[|s| - 1]][t];
      MulAssoc(m.end[t], m.words[s[|s| - 1]][t], prob);
    } else {
      var d := (m.total[t] + |m.words|) as real;
      OverIsTimes(prob * m.end[t], d);
      x := prob * m.end[t] * 1.0 / d;
      MulAssoc(m.end[t], m.Smoothed(t), prob);
    }
  }

  /** temp_prob, for the word w. */
  method Fill(m: Model, w: string, primary: seq<Best>, temp: array2<real>)
    requires m.Valid() && |primary| == m.n && temp.Length0 == m.n && temp.Length1 == m.n
    modifies temp
    ensures forall t, t2 | 0 <= t < m.n && 0 <= t2 < m.n :: temp[t, t2] == Mul(m.Edge(w, t, t2), primary[t].prob)
  {
    hide Model.Edge, Mul;
    var t: nat := 0;
    while t < m.n
      invariant t <= m.n
      invariant forall u, t2 | 0 <= u < t && 0 <= t2 < m.n :: temp[u, t2] == Mul(m.Edge(w, u, t2), primary[u].prob)
    {
      var t2: nat := 0;
      while t2 < m.n
        invariant t2 <= m.n
        invariant forall u, v | 0 <= u < t && 0 <= v < m.n :: temp[u, v] == Mul(m.Edge(w, u, v), primary[u].prob)
        invariant forall v | 0 <= v < t2 :: temp[t, v] == Mul(m.Edge(w, t, v), primary[t].prob)
      {
        temp[t, t2] := Product(m, w, t, t2, primary[t].prob);
        t2 := t2 + 1;
      }
      t := t + 1;
    }
  }

  /** max and argmax of a column: the first row of largest value. */
  method ColumnMax(temp: array2<real>, col: nat) returns (row: nat)
    requires 0 < temp.Length0 && col < temp.Length1
    ensures row < temp.Length0
    ensures forall u | 0 <= u < temp.Length0 :: temp[u, col] <= temp[row, col]
    ensures forall u | 0 <= u < row :: temp[u, col] < temp[row, col]
  {
    row := 0;
    var u: nat := 1;
    while u < temp.Length0
      invariant row < u <= temp.Length0
      invariant forall x | 0 <= x < u :: temp[x, col] <= temp[row, col]
      invariant forall x | 0 <= x < row :: temp[x, col] < temp[row, col]
    {
      if temp[u, col] > temp[row, col] {
        row := u;
      }
      u := u + 1;
    }
  }

  ghost predicate IsTemp(m: Model, w: string, primary: seq<Best>, temp: array2<real>)
    requires m.Valid() && |primary| == m.n && temp.Length0 == m.n && temp.Length1 == m.n
    reads temp
  {
    forall t, t2 | 0 <= t < m.n && 0 <= t2 < m.n :: temp[t, t2] == Mul(m.Edge(w, t, t2), primary[t].prob)
  }

  /** The best way to tag t2 next. */
  method NextTag(m: Model, s: seq<string>, k: nat, primary: seq<Best>, temp: array2<real>, t2: nat) returns (b: Best)
    requires m.Valid() && AllBest(m, s, k, primary) && k < |s| && temp.Length0 == m.n && temp.Length1 == m.n && t2 < m.n
    requires IsTemp(m, s[k], primary, temp)
    ensures BestTo(m, s, k + 1, t2, b)
  {
    hide Model.Edge, Mul;
    var from := ColumnMax(temp, t2);
    forall t: nat | t < m.n ensures Mul(m.Edge(s[k], t, t2), primary[t].prob) <= temp[from, t2] {
      assert temp[t, t2] == Mul(m.Edge(s[k], t, t2), primary[t].prob);
    }
    Recurrence(m, s, k, primary, t2, from, temp[from, t2]);
    b := Best(primary[from].path + [t2], temp[from, t2]);
  }

  /** temp_list: the best ways to every tag next. */
  method NextTags(m: Model, s: seq<string>, k: nat, primary: seq<Best>, temp: array2<real>) returns (next: seq<Best>)
    requires m.Valid() && AllBest(m, s, k, primary) && k < |s| && temp.Length0 == m.n && temp.Length1 == m.n
    requires IsTemp(m, s[k], primary, temp)
    ensures AllBest(m, s, k + 1, next)
  {
    next := [];
    var t2: nat := 0;
    hide Model.Edge, Mul, AllBest, BestTo, IsTemp;
    while t2 < m.n
      invariant t2 <= m.n && |next| == t2
      invariant forall t | 0 <= t < t2 :: BestTo(m, s, k + 1, t, next[t])
    {
      var b := NextTag(m, s, k, primary, temp, t2);
      next := next + [b];
      t2 := t2 + 1;
    }
    Collected(m, s, k + 1, next);
  }

  /** One word: from the best ways to tag k + 1 places to the best ways to tag k + 2. */
  method NextWord(m: Model, s: seq<string>, k: nat, primary: seq<Best>, temp: array2<real>) returns (next: seq<Best>)
    requires m.Valid() && AllBest(m, s, k, primary) && k < |s| && temp.Length0 == m.n && temp.Length1 == m.n
    modifies temp
    ensures AllBest(m, s, k + 1, next)
  {
    Fill(m, s[k], primary, temp);
    assert IsTemp(m, s[k], primary, temp);
    hide Model.Edge, Mul, AllBest, BestTo, IsTemp;
    next := NextTags(m, s, k, primary, temp);
  }

  lemma SizeOf(m: Model, s: seq<string>, k: nat, primary: seq<Best>)
    requires m.Valid() && AllBest(m, s, k, primary)
    ensures |primary| == m.n
  {
  }

  lemma Collected(m: Model, s: seq<string>, k: nat, next: seq<Best>)
    requires m.Valid() && |next| == m.n && forall t | 0 <= t < m.n :: BestTo(m, s, k, t, next[t])
    ensures AllBest(m, s, k, next)
  {
  }

  /** Among all tag sequences, none scores more than what the best ways to each last tag lead to. */
  lemma NoneScoresMore(m: Model, s: seq<string>, primary: seq<Best>, q: seq<nat>)
    requires m.Valid() && AllBest(m, s, Length(s) - 1, primary) && m.Tags(q) && |q| == Length(s)
    ensures m.Score(s, q) <= Mul(m.Last(s, q[|q| - 1]), primary[q[|q| - 1]].prob)
  {
    hide Model.Last, Model.Prefix, Mul;
    var t := q[|q| - 1];
    assert BestTo(m, s, Length(s) - 1, t, primary[t]);
    Monotone(m.Last(s, t), m.Prefix(s, q), primary[t].prob);
  }

  lemma ItsScore(m: Model, s: seq<string>, primary: seq<Best>, t: nat)
    requires m.Valid() && AllBest(m, s, Length(s) - 1, primary) && t < m.n
    ensures var r := primary[t].path;
      |r| == Length(s) && m.Tags(r) && r[|r| - 1] == t && m.Score(s, r) == Mul(m.Last(s, t), primary[t].prob)
  {
    hide Model.Last, Model.Prefix, Mul;
    assert BestTo(m, s, Length(s) - 1, t, primary[t]);
  }

  lemma FirstBest(m: Model, s: seq<string>, primary: seq<Best>)
    requires m.Valid() && |primary| == m.n && forall t: nat | t < m.n :: primary[t] == Best([t], m.start[t])
    ensures AllBest(m, s, 0, primary)
  {
    hide Mul;
  }

  /** get_POS_tags: a tag for every word (one tag for an empty sentence), and no other tag sequence of
      that length has a larger start, transition, emission and end product, nor as large a one with an
      earlier last tag. */
  method GetPosTags(m: Model, s: seq<string>) returns (r: seq<nat>)
    requires m.Valid()
    ensures |r| == Length(s) && m.Tags(r)
    ensures forall q: seq<nat> | |q| == Length(s) && m.Tags(q) :: m.Score(s, q) <= m.Score(s, r)
    ensures forall q: seq<nat> | |q| == Length(s) && m.Tags(q) && q[|q| - 1] < r[|r| - 1] ::
              m.Score(s, q) < m.Score(s, r)
  {
    hide Model.Prefix, Model.Last, Model.Score, Mul, AllBest;
    var primary: seq<Best> := seq(m.n, t requires 0 <= t < m.n => Best([t], m.start[t]));
    var temp := new real[m.n, m.n]((i, j) => 0.0);
    FirstBest(m, s, primary);
    var k := 0;
    while k + 1 < |s|
      invariant k == 0 || k < |s|
      invariant AllBest(m, s, k, primary)
    {
      primary := NextWord(m, s, k, primary, temp);
      k := k + 1;
    }
    r := Select(m, s, primary);
  }

  /** The last loop: the first tag sequence of largest score among the best ways to each last tag. */
  method Select(m: Model, s: seq<string>, primary: seq<Best>) returns (r: seq<nat>)
    requires m.Valid() && AllBest(m, s, Length(s) - 1, primary)
    ensures |r| == Length(s) && m.Tags(r)
    ensures forall q: seq<nat> | |q| == Length(s) && m.Tags(q) :: m.Score(s, q) <= m.Score(s, r)
    ensures forall q: seq<nat> | |q| == Length(s) && m.Tags(q) && q[|q| - 1] < r[|r| - 1] ::
              m.Score(s, q) < m.Score(s, r)
  {
    hide Model.Prefix, Model.Last, Model.Score, Mul, AllBest, Model.Valid;
    SizeOf(m, s, Length(s) - 1, primary);
    SomeTag(m);
    var max, best := -1.0, 0;
    var i: nat := 0;
    while i < m.n
      invariant i <= m.n && (i > 0 ==> best < i && max == Mul(m.Last(s, best), primary[best].prob)) &&
                (i == 0 ==> max == -1.0)
      invariant forall t: nat | t < i :: Mul(m.Last(s, t), primary[t].prob) <= max
      invariant forall t: nat | t < i && t < best :: Mul(m.Last(s, t), primary[t].prob) < max
    {
      ItsScore(m, s, primary, i);
      ScoreNonneg(m, s, primary[i].path);
      var prob := LastProduct(m, s, i, primary[i].prob);
      if prob > max {
        max, best := prob, i;
      }
      i := i + 1;
    }
    ItsScore(m, s, primary, best);
    r := primary[best].path;
    forall q: seq<nat> | |q| == Length(s) && m.Tags(q) ensures m.Score(s, q) <= m.Score(s, r) {
      NoneScoresMore(m, s, primary, q);
      assert q[|q| - 1] < m.n;
    }
    forall q: seq<nat> | |q| == Length(s) && m.Tags(q) && q[|q| - 1] < r[|r| - 1]
      ensures m.Score(s, q) < m.Score(s, r)
    {
      NoneScoresMore(m, s, primary, q);
      assert q[|q| - 1] < m.n;
    }
  }

  lemma SomeTag(m: Model)
    requires m.Valid()
    ensures m.n > 0
  {
  }

  lemma ScoreNonneg(m: Model, s: seq<string>, q: seq<nat>)
    requires m.Valid() && m.Tags(q) && 0 < |q| <= |s| + 1
    ensures m.Score(s, q) >= 0.0
  {
  }
}
