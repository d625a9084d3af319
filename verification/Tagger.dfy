/** What the tagger uses as emission probabilities, and what it maximizes, in terms of the counts. */
module Tagger {
  import opened Emissions
  import opened Sets
  import opened Viterbi

  /** m holds what make_word_given_tag has made of the tokens; index[k] is the k-th tag. */
  ghost predicate Trained(m: Model, tokens: seq<Token>, tags: seq<int>, index: seq<int>, words: seq<string>,
                          p: Probabilities, total: map<int, int>)
  {
    && |tags| > 0 && |index| == m.n && NoRepeats(words)
    && (forall w :: w in words <==> Occurs(tokens, w)) && (forall w :: w in m.words <==> w in words)
    && (forall t | t in tags :: Emissions.Smoothed(tokens, tags, words, p, total, t))
    && forall k: nat | k < m.n ::
         && index[k] in tags && index[k] in total && |m.total| == m.n && m.total[k] == total[index[k]]
         && forall w | w in words ::
              Has(p, w, index[k]) && w in m.words && k in m.words[w] && m.words[w][k] == p[w][index[k]]
  }

  /** How often the trained counts say that w was seen with tag t; 0 for a word never seen. */
  function CountOf(tokens: seq<Token>, tags: seq<int>, w: string, t: int): int
    requires |tags| > 0
  {
    if Occurs(tokens, w) then Counted(tokens, tags, w, t) else 0
  }

  lemma SameVocabulary(m: Model, tokens: seq<Token>, tags: seq<int>, index: seq<int>, words: seq<string>,
                       p: Probabilities, total: map<int, int>)
    requires Trained(m, tokens, tags, index, words, p, total)
    ensures |m.words| == |words|
  {
    ElementsSize(words);
    assert m.words.Keys == Elements(words);
    assert |m.words.Keys| == |m.words|;
  }

  /** Every word, seen in training or not, is emitted with the add-one smoothed probability of its
      count over the same vocabulary. */
  lemma EmissionIsSmoothed(m: Model, tokens: seq<Token>, tags: seq<int>, index: seq<int>, words: seq<string>,
                           p: Probabilities, total: map<int, int>, w: string, k: nat)
    requires m.Valid() && Trained(m, tokens, tags, index, words, p, total) && k < m.n
    ensures total[index[k]] + |words| > 0
    ensures m.Emit(w, k) == (CountOf(tokens, tags, w, index[k]) + 1) as real / (total[index[k]] + |words|) as real
  {
    SameVocabulary(m, tokens, tags, index, words, p, total);
    hide Counted, Occurs, Total, Emitted, NoRepeats;
    assert Emissions.Smoothed(tokens, tags, words, p, total, index[k]);
  }

  // ---- the score ----

  function Times(xs: seq<real>): real {
    if xs == [] then 1.0 else Mul(Times(xs[..|xs| - 1]), xs[|xs| - 1])
  }

  /** What place i of a tagged sentence contributes: its word given its tag, and what comes next given
      its tag, the end of the sentence included. */
  function Place(m: Model, s: seq<string>, q: seq<nat>, i: nat): real
    requires m.Valid() && m.Tags(q) && i < |q| == |s|
  {
    Mul(m.Emit(s[i], q[i]), if i + 1 < |q| then m.trans[q[i + 1]][q[i]] else m.end[q[i]])
  }

  function Places(m: Model, s: seq<string>, q: seq<nat>, n: nat): (xs: seq<real>)
    requires m.Valid() && m.Tags(q) && n <= |q| == |s|
    ensures |xs| == n
  {
    seq(n, i requires 0 <= i < n => Place(m, s, q, i))
  }

  lemma TimesNext(m: Model, s: seq<string>, q: seq<nat>, n: nat)
    requires m.Valid() && m.Tags(q) && 0 < n <= |q| == |s|
    ensures Times(Places(m, s, q, n)) == Mul(Times(Places(m, s, q, n - 1)), Place(m, s, q, n - 1))
  {
    hide Mul, Place, Model.Valid;
    assert Places(m, s, q, n)[..n - 1] == Places(m, s, q, n - 1);
  }

  lemma Regroup(a: real, b: real, x: real, c: real)
    ensures Mul(Mul(a, b), Mul(x, c)) == Mul(x, Mul(c, Mul(b, a)))
  {
  }

  lemma {:induction false} PrefixIsProduct(m: Model, s: seq<string>, q: seq<nat>, n: nat)
    requires m.Valid() && m.Tags(q) && n < |q| == |s|
    ensures m.Prefix(s, q[..n + 1]) == Mul(m.start[q[0]], Times(Places(m, s, q, n)))
  {
    if n == 0 {
      assert Times([]) == 1.0;
    } else {
      PrefixIsProduct(m, s, q, n - 1);
      var p := q[..n];
      assert p + [q[n]] == q[..n + 1];
      hide Mul, Model.Prefix, Times;
      PrefixStep(m, s, p, q[n]);
      TimesNext(m, s, q, n);
      Regroup(m.trans[q[n]][q[n - 1]], m.Emit(s[n - 1], q[n - 1]), m.start[q[0]], Times(Places(m, s, q, n - 1)));
    }
  }

  /** The score of a tagged sentence is the probability of its first tag at the start times what each
      place contributes. */
  lemma ScoreIsProduct(m: Model, s: seq<string>, q: seq<nat>)
    requires m.Valid() && m.Tags(q) && 0 < |q| == |s|
    ensures m.Score(s, q) == Mul(m.start[q[0]], Times(Places(m, s, q, |q|)))
  {
    hide Mul, Model.Prefix, Times;
    var n := |q| - 1;
    PrefixIsProduct(m, s, q, n);
    assert q[..n + 1] == q;
    TimesNext(m, s, q, |q|);
    Regroup(m.end[q[n]], m.Emit(s[n], q[n]), m.start[q[0]], Times(Places(m, s, q, n)));
  }
}
