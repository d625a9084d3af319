/** make_word_given_tag: how often each word was seen with each tag, and the smoothed
    probabilities made of it. Words are given in lower case, tags as numbers. */
module Emissions {
  import opened Sets

  datatype Token = Token(word: string, tag: int)

  type Counts = map<string, map<int, int>>

  /** How often w occurs with tag t. */
  function Seen(tokens: seq<Token>, w: string, t: int): nat {
    if tokens == [] then 0
    else
      var last := tokens[|tokens| - 1];
      Seen(tokens[..|tokens| - 1], w, t) + if last == Token(w, t) then 1 else 0
  }

  predicate Occurs(tokens: seq<Token>, w: string) {
    exists i :: 0 <= i < |tokens| && tokens[i].word == w
  }

  /** The tag of the first occurrence of w. */
  function FirstTag(tokens: seq<Token>, w: string): int
    requires Occurs(tokens, w)
  {
    if tokens[0].word == w then tokens[0].tag else FirstTag(tokens[1..], w)
  }

  function Zeros(tags: seq<int>): (r: map<int, int>)
    ensures r.Keys == set t | t in tags
    ensures forall t | t in r :: r[t] == 0
  {
    map t | t in tags :: 0
  }

  /** What the counting loop arrives at for w and t: the first occurrence of a word is counted for the
      last of all tags, because the loop that sets up the word's row reuses the name of its tag. */
  function Counted(tokens: seq<Token>, tags: seq<int>, w: string, t: int): int
    requires Occurs(tokens, w) && |tags| > 0
  {
    Seen(tokens, w, t) - (if t == FirstTag(tokens, w) then 1 else 0) + (if t == tags[|tags| - 1] then 1 else 0)
  }

  lemma {:induction false} FirstTagMore(tokens: seq<Token>, x: Token, w: string)
    requires Occurs(tokens, w)
    ensures Occurs(tokens + [x], w) && FirstTag(tokens + [x], w) == FirstTag(tokens, w)
  {
    var more := tokens + [x];
    var i :| 0 <= i < |tokens| && tokens[i].word == w;
    assert more[i].word == w;
    if tokens[0].word != w {
      assert tokens[1..][i - 1].word == w;
      FirstTagMore(tokens[1..], x, w);
      assert more[1..] == tokens[1..] + [x];
    }
  }

  lemma {:induction false} FirstTagNew(tokens: seq<Token>, x: Token)
    requires !Occurs(tokens, x.word)
    ensures Occurs(tokens + [x], x.word) && FirstTag(tokens + [x], x.word) == x.tag
  {
    var more := tokens + [x];
    assert more[|tokens|].word == x.word;
    if tokens != [] {
      assert tokens[0].word != x.word;
      forall i | 0 <= i < |tokens[1..]| ensures tokens[1..][i].word != x.word {
        assert tokens[1..][i] == tokens[i + 1];
      }
      FirstTagNew(tokens[1..], x);
      assert more[1..] == tokens[1..] + [x];
    }
  }

  lemma SeenMore(tokens: seq<Token>, x: Token, w: string, t: int)
    ensures Seen(tokens + [x], w, t) == Seen(tokens, w, t) + if x == Token(w, t) then 1 else 0
  {
    assert (tokens + [x])[..|tokens|] == tokens;
  }

  lemma {:induction false} NeverSeen(tokens: seq<Token>, w: string, t: int)
    requires !Occurs(tokens, w)
    ensures Seen(tokens, w, t) == 0
  {
    if tokens != [] {
      var rest := tokens[..|tokens| - 1];
      assert tokens[|tokens| - 1].word != w;
      forall i | 0 <= i < |rest| ensures rest[i].word != w {
        assert rest[i] == tokens[i];
      }
      NeverSeen(rest, w, t);
    }
  }

  /** The dictionary after the tokens have been counted. */
  ghost predicate IsCount(tokens: seq<Token>, tags: seq<int>, c: Counts)
    requires |tags| > 0
  {
    && (forall w :: w in c <==> Occurs(tokens, w))
    && forall w | w in c :: forall t | t in tags :: t in c[w] && c[w][t] == Counted(tokens, tags, w, t)
  }

  /** `words` are the dictionary's keys, each once. */
  ghost predicate AreKeys(words: seq<string>, c: Counts) {
    NoRepeats(words) && forall w :: w in words <==> w in c
  }

  lemma KeyAdded(words: seq<string>, c: Counts, w: string, row: map<int, int>)
    requires AreKeys(words, c)
    ensures AreKeys(if w in c then words else words + [w], c[w := row])
  {
  }

  /** The counting loop; `words` are the keys in the order they were entered. */
  method CountWords(tokens: seq<Token>, tags: seq<int>) returns (c: Counts, words: seq<string>)
    requires |tags| > 0 && forall x | x in tokens :: x.tag in tags
    ensures forall w :: w in c <==> Occurs(tokens, w)
    ensures forall w | w in c :: forall t | t in tags :: t in c[w] && c[w][t] == Counted(tokens, tags, w, t)
    ensures NoRepeats(words) && forall w :: w in words <==> w in c
  {
    c, words := map[], [];
    var i := 0;
    while i < |tokens|
      invariant 0 <= i <= |tokens| && IsCount(tokens[..i], tags, c) && AreKeys(words, c)
    {
      assert tokens[i] in tokens && tokens[..i] + [tokens[i]] == tokens[..i + 1];
      c, words := CountOne(tokens[..i], tokens[i], tags, c, words);
      i := i + 1;
    }
    assert tokens[..i] == tokens;
  }

  method CountOne(ghost tokens: seq<Token>, x: Token, tags: seq<int>, c: Counts, words: seq<string>)
    returns (c': Counts, words': seq<string>)
    requires |tags| > 0 && x.tag in tags && IsCount(tokens, tags, c) && AreKeys(words, c)
    ensures IsCount(tokens + [x], tags, c') && AreKeys(words', c')
  {
    var word, tag := x.word, x.tag;
    c', words' := c, words;
    if word !in c' {
      c', words' := c'[word := Zeros(tags)], words' + [word];
      tag := tags[|tags| - 1];
    }
    c' := c'[word := c'[word][tag := c'[word][tag] + 1]];
    KeyAdded(words, c, word, c'[word]);
    CountedMore(tokens, x, tags, c, c');
    hide Occurs, Counted, AreKeys;
  }

  lemma CountedMore(tokens: seq<Token>, x: Token, tags: seq<int>, c: Counts, c': Counts)
    requires |tags| > 0 && x.tag in tags && IsCount(tokens, tags, c)
    requires c' == if x.word in c then c[x.word := c[x.word][x.tag := c[x.word][x.tag] + 1]]
                   else c[x.word := Zeros(tags)[tags[|tags| - 1] := 1]]
    ensures IsCount(tokens + [x], tags, c')
  {
    var more := tokens + [x];
    forall w ensures w in c' <==> Occurs(more, w) {
      if w == x.word {
        assert more[|tokens|].word == w;
      } else if Occurs(tokens, w) {
        FirstTagMore(tokens, x, w);
      } else {
        assert forall i | 0 <= i < |more| :: more[i].word != w;
      }
    }
    forall w | w in c' ensures forall t | t in tags :: t in c'[w] && c'[w][t] == Counted(more, tags, w, t) {
      if w in c {
        FirstTagMore(tokens, x, w);
      } else {
        FirstTagNew(tokens, x);
      }
      forall t | t in tags ensures t in c'[w] && c'[w][t] == Counted(more, tags, w, t) {
        SeenMore(tokens, x, w, t);
        if w !in c {
          NeverSeen(tokens, w, t);
        }
      }
    }
  }

  /** The counts of a word are what was seen exactly when its first occurrence had the tag that comes
      last in the list of tags. */
  lemma CountsRight(tokens: seq<Token>, tags: seq<int>, w: string)
    requires |tags| > 0 && Occurs(tokens, w) && forall x | x in tokens :: x.tag in tags
    ensures (forall t | t in tags :: Counted(tokens, tags, w, t) == Seen(tokens, w, t)) <==>
            FirstTag(tokens, w) == tags[|tags| - 1]
  {
    var last := tags[|tags| - 1];
    assert last in tags;
    if FirstTag(tokens, w) != last {
      assert Counted(tokens, tags, w, last) == Seen(tokens, w, last) + 1;
    }
  }

  /** One noun seen once is counted as a verb. */
  lemma CountsWrong()
    ensures var tokens, tags := [Token("dog", 1)], [1, 2];
      Occurs(tokens, "dog") && Seen(tokens, "dog", 1) == 1 && Counted(tokens, tags, "dog", 1) == 0 &&
        Counted(tokens, tags, "dog", 2) == 1
  {
    var tokens := [Token("dog", 1)];
    assert tokens[0].word == "dog";
    assert tokens[..0] == [];
    assert Seen([], "dog", 1) == 0 && Seen([], "dog", 2) == 0;
    assert Seen(tokens, "dog", 2) == 0;
  }

  // ---- smoothing ----

  function Sum(c: seq<int>): int {
    if c == [] then 0 else Sum(c[..|c| - 1]) + c[|c| - 1]
  }

  function Total(p: seq<real>): real {
    if p == [] then 0.0 else Total(p[..|p| - 1]) + p[|p| - 1]
  }

  /** Add-one smoothing of the counts of one tag, over the whole vocabulary. */
  function Smooth(c: seq<int>, total: int, i: nat): real
    requires i < |c| && total + |c| > 0
  {
    (c[i] + 1) as real / (total + |c|) as real
  }

  lemma {:induction false} TotalOf(c: seq<int>, d: real, p: seq<real>)
    requires d > 0.0 && |p| == |c| && forall i | 0 <= i < |c| :: p[i] == (c[i] + 1) as real / d
    ensures Total(p) == (Sum(c) + |c|) as real / d
  {
    if c != [] {
      var n := |c| - 1;
      TotalOf(c[..n], d, p[..n]);
      AddOver((Sum(c[..n]) + n) as real, (c[n] + 1) as real, d);
    }
  }

  lemma AddOver(a: real, b: real, d: real)
    requires d > 0.0
    ensures a / d + b / d == (a + b) / d
  {
  }

  lemma Ratios(a: real, d: real)
    requires d > 0.0
    ensures d / d == 1.0 && (a > 0.0 ==> a / d > 0.0)
  {
  }

  lemma {:induction false} SumNonneg(c: seq<int>)
    requires forall i | 0 <= i < |c| :: c[i] >= 0
    ensures Sum(c) >= 0
  {
    if c != [] {
      SumNonneg(c[..|c| - 1]);
    }
  }

  /** The smoothed values of one tag over the whole vocabulary are positive and add up to one. */
  lemma Normalized(c: seq<int>, p: seq<real>)
    requires c != [] && (forall i | 0 <= i < |c| :: c[i] >= 0) && |p| == |c| && Sum(c) >= 0
    requires forall i: nat | i < |c| :: p[i] == Smooth(c, Sum(c), i)
    ensures Total(p) == 1.0 && forall i | 0 <= i < |p| :: p[i] > 0.0
  {
    var d := (Sum(c) + |c|) as real;
    assert forall i: nat | i < |c| :: p[i] == (c[i] + 1) as real / d;
    hide Smooth, Sum, Total;
    TotalOf(c, d, p);
    Ratios(1.0, d);
    forall i | 0 <= i < |p| ensures p[i] > 0.0 {
      Ratios((c[i] + 1) as real, d);
    }
  }

  type Probabilities = map<string, map<int, real>>

  predicate Has(p: Probabilities, w: string, t: int) {
    w in p && t in p[w]
  }

  function Column(c: Counts, words: seq<string>, t: int): (r: seq<int>)
    requires forall w | w in words :: w in c && t in c[w]
    ensures |r| == |words|
  {
    seq(|words|, i requires 0 <= i < |words| => c[words[i]][t])
  }

  function Emitted(p: Probabilities, words: seq<string>, t: int): (r: seq<real>)
    requires forall w | w in words :: w in p && t in p[w]
    ensures |r| == |words|
  {
    seq(|words|, i requires 0 <= i < |words| => p[words[i]][t])
  }

  /** The total of a tag. */
  method SumColumn(c: Counts, words: seq<string>, t: int) returns (total: int)
    requires forall w | w in words :: w in c && t in c[w]
    ensures total == Sum(Column(c, words, t))
  {
    total := 0;
    for i := 0 to |words|
      invariant total == Sum(Column(c, words[..i], t))
    {
      assert Column(c, words[..i + 1], t) == Column(c, words[..i], t) + [c[words[i]][t]];
      total := total + c[words[i]][t];
    }
    assert words[..|words|] == words;
  }

  /** The inner loop: the tag's column is smoothed, all other columns stay. */
  method SmoothTag(c: Counts, words: seq<string>, t: int, total: int, p: Probabilities) returns (p': Probabilities)
    requires NoRepeats(words) && (forall w | w in words :: w in c && t in c[w]) && total >= 0
    ensures
      forall i: nat | i < |words| :: Has(p', words[i], t) && p'[words[i]][t] == Smooth(Column(c, words, t), total, i)
    ensures forall w, u | u != t && Has(p, w, u) :: Has(p', w, u) && p'[w][u] == p[w][u]
  {
    p' := p;
    var i := 0;
    while i < |words|
      invariant 0 <= i <= |words|
      invariant
        forall k: nat | k < i :: Has(p', words[k], t) && p'[words[k]][t] == Smooth(Column(c, words, t), total, k)
      invariant forall w, u | u != t && Has(p, w, u) :: Has(p', w, u) && p'[w][u] == p[w][u]
    {
      var w := words[i];
      var row := if w in p' then p'[w] else map[];
      p' := p'[w := row[t := (c[w][t] + 1) as real / (total + |words|) as real]];
      i := i + 1;
    }
  }

  lemma CountedNonneg(tokens: seq<Token>, tags: seq<int>, w: string, t: int)
    requires Occurs(tokens, w) && |tags| > 0
    ensures Counted(tokens, tags, w, t) >= 0
  {
    FirstSeen(tokens, w);
  }

  lemma {:induction false} FirstSeen(tokens: seq<Token>, w: string)
    requires Occurs(tokens, w)
    ensures Seen(tokens, w, FirstTag(tokens, w)) > 0
  {
    var n := |tokens| - 1;
    var rest, last := tokens[..n], tokens[n];
    assert rest + [last] == tokens;
    SeenMore(rest, last, w, FirstTag(tokens, w));
    if Occurs(rest, w) {
      FirstTagMore(rest, last, w);
      FirstSeen(rest, w);
    } else {
      assert last.word == w by {
        var i :| 0 <= i < |tokens| && tokens[i].word == w;
        assert i < n ==> rest[i].word == w;
      }
      FirstTagNew(rest, last);
    }
  }

  /** What is known of tag t once its column has been smoothed. */
  ghost predicate Smoothed(tokens: seq<Token>, tags: seq<int>, words: seq<string>, p: Probabilities,
                           total: map<int, int>, t: int)
    requires |tags| > 0
  {
    && t in total && total[t] >= 0
    && (forall w | w in words :: Has(p, w, t))
    && (forall w | w in words && Occurs(tokens, w) ::
          p[w][t] == (Counted(tokens, tags, w, t) + 1) as real / (total[t] + |words|) as real > 0.0)
    && (words != [] ==> Total(Emitted(p, words, t)) == 1.0)
  }

  lemma TagSmoothed(tokens: seq<Token>, tags: seq<int>, c: Counts, words: seq<string>, p: Probabilities,
                    total: map<int, int>, t: int)
    requires t in tags && (
      forall w | w in words :: Occurs(tokens, w) && w in c && t in c[w] && c[w][t] == Counted(tokens, tags, w, t))
    requires t in total && total[t] == Sum(Column(c, words, t)) >= 0
    requires
      forall i: nat | i < |words| :: Has(p, words[i], t) && p[words[i]][t] == Smooth(Column(c, words, t), total[t], i)
    ensures Smoothed(tokens, tags, words, p, total, t)
  {
    if words != [] {
      forall w | w in words ensures c[w][t] >= 0 {
        CountedNonneg(tokens, tags, w, t);
      }
      Normalized(Column(c, words, t), Emitted(p, words, t));
      forall w | w in words ensures p[w][t] == (Counted(tokens, tags, w, t) + 1) as real / (total[t] +
        |words|) as real > 0.0 {
        var i: nat :| i < |words| && words[i] == w;
        assert Emitted(p, words, t)[i] > 0.0;
      }
    }
  }

  lemma ColumnNonneg(tokens: seq<Token>, tags: seq<int>, c: Counts, words: seq<string>, t: int)
    requires t in tags && (
      forall w | w in words :: Occurs(tokens, w) && w in c && t in c[w] && c[w][t] == Counted(tokens, tags, w, t))
    ensures Sum(Column(c, words, t)) >= 0
  {
    forall w | w in words ensures c[w][t] >= 0 {
      CountedNonneg(tokens, tags, w, t);
    }
    SumNonneg(Column(c, words, t));
  }

  lemma StaysSmoothed(tokens: seq<Token>, tags: seq<int>, words: seq<string>, p: Probabilities, total: map<int, int>,
                      t: int,
                      p': Probabilities, x: int, v: int)
    requires |tags| > 0 && Smoothed(tokens, tags, words, p, total, t) && t != x
    requires forall w | Has(p, w, t) :: Has(p', w, t) && p'[w][t] == p[w][t]
    ensures Smoothed(tokens, tags, words, p', total[x := v], t)
  {
    assert Emitted(p', words, t) == Emitted(p, words, t);
  }

  /** make_word_given_tag: for every tag the emission probabilities of the words seen are positive and
      add up to one, whatever the counts are. */
  method MakeWordGivenTag(tokens: seq<Token>, tags: seq<int>)
    returns (words: seq<string>, p: Probabilities, total: map<int, int>)
    requires |tags| > 0 && NoRepeats(tags) && forall x | x in tokens :: x.tag in tags
    ensures NoRepeats(words) && forall w :: w in words <==> Occurs(tokens, w)
    ensures forall t | t in tags :: Smoothed(tokens, tags, words, p, total, t)
  {
    hide Smoothed, Smooth, Column, Emitted, Sum, Total, Counted, Occurs;
    var c;
    c, words := CountWords(tokens, tags);
    p, total := map[], map[];
    var i := 0;
    while i < |tags|
      invariant 0 <= i <= |tags| && forall k | 0 <= k < i :: Smoothed(tokens, tags, words, p, total, tags[k])
    {
      var t := tags[i];
      ghost var p0, total0 := p, total;
      var sum := SumColumn(c, words, t);
      ColumnNonneg(tokens, tags, c, words, t);
      total := total[t := sum];
      p := SmoothTag(c, words, t, sum, p);
      TagSmoothed(tokens, tags, c, words, p, total, t);
      forall k | 0 <= k < i ensures Smoothed(tokens, tags, words, p, total, tags[k]) {
        StaysSmoothed(tokens, tags, words, p0, total0, tags[k], p, t, sum);
      }
      i := i + 1;
    }
  }
}
