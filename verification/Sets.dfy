/** Sizes of finite sets and of sequences without repeats. */
module Sets {
  predicate NoRepeats<T(==)>(s: seq<T>) {
    forall i, j | 0 <= i < j < |s| :: s[i] != s[j]
  }

  function Elements<T(==)>(s: seq<T>): set<T> {
    set x | x in s
  }

  lemma {:induction false} ElementsSize<T>(s: seq<T>)
    ensures |Elements(s)| <= |s|
    ensures NoRepeats(s) ==> |Elements(s)| == |s|
  {
    if s != [] {
      var t := s[..|s| - 1];
      ElementsSize(t);
      assert Elements(s) == Elements(t) + {s[|s| - 1]};
    }
  }

  lemma {:induction false} SubsetSize<T>(a: set<T>, b: set<T>)
    requires a <= b
    ensures |a| <= |b|
  {
    if a != {} {
      var x :| x in a;
      SubsetSize(a - {x}, b - {x});
    }
  }

  lemma ProperSubsetSize<T>(a: set<T>, b: set<T>)
    requires a <= b
    ensures |a| == |b| <==> a == b
  {
    if x :| x in b && x !in a {
      SubsetSize(a + {x}, b);
    }
  }
}
