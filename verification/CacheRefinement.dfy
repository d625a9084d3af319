/** bio.c's list of buffers, on values, implements the buffer steps of the concurrent
    system: bget is a Get step for some victim, and panics only when no Get step exists;
    brelse is an Unlock step followed by a Put step. */
module CacheRefinement {
  import opened Blocks
  import opened LogFormat
  import opened LogSystem
  import opened CacheSpec
  import opened Params

  /** An entry stands for a line: same flags and contents, as many references as users. */
  predicate Same(x: Entry, l: Line) {
    && x.valid == l.valid && x.dirty == l.dirty && x.refcnt == |l.users| && x.locked == l.holder.Some?
    && (x.valid ==> x.data == l.data)
    && (l.holder.Some? ==> l.holder.value in l.users)
  }

  /** The list e holds exactly the lines of `cache`; buffers of no device are idle. */
  ghost predicate Represents(e: Entries, cache: map<nat, Line>) {
    && |e| == NBUF
    && OneBufferPerBlock(e)
    && (forall i | 0 <= i < |e| && e[i].dev == ROOTDEV :: e[i].blockno in cache && Same(e[i], cache[e[i].blockno]))
    && (forall i | 0 <= i < |e| && e[i].dev != ROOTDEV :: e[i].Spare() && !e[i].locked)
    && (forall b | b in cache :: Find(e, ROOTDEV, b) >= 0)
  }

  /** The device blocks among the first n buffers. */
  function RootKeys(e: Entries, n: nat): set<nat>
    requires n <= |e|
  {
    if n == 0 then {} else RootKeys(e, n - 1) + if e[n - 1].dev == ROOTDEV then {e[n - 1].blockno} else {}
  }

  lemma {:induction false} RootKeysAre(e: Entries, n: nat, b: nat)
    requires n <= |e|
    ensures b in RootKeys(e, n) <==> exists i | 0 <= i < n :: e[i].Is(ROOTDEV, b)
  {
    if n > 0 {
      RootKeysAre(e, n - 1, b);
      if e[n - 1].Is(ROOTDEV, b) {
        assert b in RootKeys(e, n);
      }
    }
  }

  predicate OneBufferPerBlock(e: Entries) {
    forall i, j | 0 <= i < j < |e| && e[i].dev == e[j].dev == ROOTDEV :: e[i].blockno != e[j].blockno
  }

  lemma {:induction false} CountRootKeys(e: Entries, n: nat)
    requires OneBufferPerBlock(e) && n <= |e|
    ensures |RootKeys(e, n)| <= n
    ensures |RootKeys(e, n)| == n <==> forall i | 0 <= i < n :: e[i].dev == ROOTDEV
  {
    if n > 0 {
      CountRootKeys(e, n - 1);
      if e[n - 1].dev == ROOTDEV {
        RootKeysAre(e, n - 1, e[n - 1].blockno);
        assert e[n - 1].blockno !in RootKeys(e, n - 1);
      }
    }
  }

  /** The cache is full exactly when every buffer belongs to the device. */
  lemma FullCache(e: Entries, cache: map<nat, Line>)
    requires Represents(e, cache)
    ensures |cache| <= NBUF
    ensures |cache| == NBUF <==> forall i | 0 <= i < |e| :: e[i].dev == ROOTDEV
  {
    CountRootKeys(e, |e|);
    forall b ensures b in RootKeys(e, |e|) <==> b in cache {
      RootKeysAre(e, |e|, b);
      if b in cache {
        assert e[Find(e, ROOTDEV, b)].Is(ROOTDEV, b);
      }
    }
    assert RootKeys(e, |e|) == cache.Keys;
    assert |cache.Keys| == |cache|;
  }

  /** A further reference to a cached block. */
  lemma ReferenceRefines(s: State, e: Entries, p: Pid, b: nat)
    requires Represents(e, s.cache) && b in s.cache && p !in s.cache[b].users
    ensures Find(e, ROOTDEV, b) >= 0 && Bget(e, ROOTDEV, b).Some?
    ensures Represents(Bget(e, ROOTDEV, b).value.entries, DoGet(s, p, b, None).cache)
  {
    hide Find;
    var i := Find(e, ROOTDEV, b);
    Updated(e, s.cache, i, e[i].(refcnt := e[i].refcnt + 1), s.cache[b].(users := s.cache[b].users + {p}));
  }

  /** Changing one buffer and its line alike. */
  lemma Updated(e: Entries, cache: map<nat, Line>, i: nat, x: Entry, l: Line)
    requires Represents(e, cache) && i < |e| && e[i].dev == ROOTDEV && x.Is(ROOTDEV, e[i].blockno) && Same(x, l)
    ensures Represents(e[i := x], cache[x.blockno := l])
  {
    hide Find, Same;
    var e', cache' := e[i := x], cache[x.blockno := l];
    forall b | b in cache' ensures Find(e', ROOTDEV, b) >= 0 {
      FindsAt(e', Find(e, ROOTDEV, b), b);
    }
  }

  /** Recycling a buffer for a block that is not cached. */
  lemma Recycled(e: Entries, cache: map<nat, Line>, i: nat, x: Entry, l: Line)
    requires Represents(e, cache) && i < |e| && e[i].Spare() && x.dev == ROOTDEV && x.blockno !in cache && Same(x, l)
    ensures Represents(e[i := x], (if e[i].dev == ROOTDEV then cache - {e[i].blockno} else cache)[x.blockno := l])
  {
    hide Find, Same;
    var e', cache' := e[i := x], (if e[i].dev == ROOTDEV then cache - {e[i].blockno} else cache)[x.blockno := l];
    forall b | b in cache' ensures Find(e', ROOTDEV, b) >= 0 {
      FindsAt(e', if b == x.blockno then i else Find(e, ROOTDEV, b), b);
    }
  }

  lemma FindsAt(e: Entries, j: nat, b: nat)
    requires j < |e| && e[j].Is(ROOTDEV, b)
    ensures Find(e, ROOTDEV, b) >= 0
  {
  }

  lemma NotCached(e: Entries, cache: map<nat, Line>, b: nat)
    requires Represents(e, cache)
    ensures Find(e, ROOTDEV, b) >= 0 <==> b in cache
  {
  }

  /** The recycled buffer is one a Get step may take. */
  lemma RecycleRefines(c: Config, s: State, e: Entries, p: Pid, b: nat) returns (v: Option<nat>)
    requires Represents(e, s.cache) && (s.booting ==> p == s.agent) && b < c.g.size && b !in s.cache && Victim(e) >= 0
    ensures CanGet(c, s, p, b, v) && Bget(e, ROOTDEV, b).Some?
    ensures Represents(Bget(e, ROOTDEV, b).value.entries, DoGet(s, p, b, v).cache)
  {
    var i := Victim(e);
    var x := e[i];
    FullCache(e, s.cache);
    NotCached(e, s.cache, b);
    v := if x.dev == ROOTDEV then Some(x.blockno) else None;
    assert x.dev == ROOTDEV ==> s.cache[x.blockno].users == {};
    var l := Line(false, false, {p}, None, false, ZeroBlock());
    assert !x.locked;
    Recycled(e, s.cache, i, Entry(ROOTDEV, b, false, false, 1, x.locked, x.data), l);
  }

  /** bget finds a buffer if and only if some Get step is enabled, and does what it does. */
  lemma BgetRefinesGet(c: Config, s: State, e: Entries, p: Pid, b: nat)
    requires Represents(e, s.cache) && (s.booting ==> p == s.agent) && b < c.g.size
    requires b in s.cache ==> p !in s.cache[b].users
    ensures Bget(e, ROOTDEV, b) == None ==> forall v :: !CanGet(c, s, p, b, v)
    ensures Bget(e, ROOTDEV, b).Some? ==>
              exists v :: CanGet(c, s, p, b, v) &&
                Represents(Bget(e, ROOTDEV, b).value.entries, DoGet(s, p, b, v).cache)
  {
    NotCached(e, s.cache, b);
    if b in s.cache {
      ReferenceRefines(s, e, p, b);
      assert CanGet(c, s, p, b, None);
    } else if Victim(e) >= 0 {
      var v := RecycleRefines(c, s, e, p, b);
    } else {
      FullCache(e, s.cache);
      forall w | w in s.cache ensures s.cache[w].users != {} || s.cache[w].dirty {
        assert !e[Find(e, ROOTDEV, w)].Spare();
      }
    }
  }

  lemma UnlockPut(c: Config, s: State, p: Pid, b: nat)
    requires Enabled(c, s, Unlock(p, b)) && p in s.cache[b].users
    ensures var s1 := Next(c, s, Unlock(p, b)); var l := s.cache[b].(holder := None, users := s.cache[b].users - {p});
            Enabled(c, s1, Put(p, b)) && Next(c, s1, Put(p, b)).cache == s.cache[b := l] &&
              |s.cache[b].users| == |l.users| + 1
  {
    assert s.cache[b].users == (s.cache[b].users - {p}) + {p};
  }

  /** brelse is Unlock followed by Put. */
  lemma BrelseRefinesUnlockPut(c: Config, s: State, e: Entries, p: Pid, b: nat)
    requires Represents(e, s.cache) && Enabled(c, s, Unlock(p, b)) && Find(e, ROOTDEV, b) >= 0
    ensures var i := Find(e, ROOTDEV, b); var s1 := Next(c, s, Unlock(p, b));
            e[i].refcnt > 0 && Enabled(c, s1, Put(p, b)) && Represents(Brelse(e, i), Next(c, s1, Put(p, b)).cache)
  {
    var i := Find(e, ROOTDEV, b);
    UnlockPut(c, s, p, b);
    hide Enabled, Next;
    var l := s.cache[b].(holder := None, users := s.cache[b].users - {p});
    var x := e[i].(locked := false, refcnt := e[i].refcnt - 1);
    Updated(e, s.cache, i, x, l);
    hide Represents;
    if x.refcnt == 0 {
      Moves(e[i := x], s.cache[b := l], i);
      assert Brelse(e, i) == MoveToFront(e[i := x], i);
    }
  }

  /** The order of the list does not matter to what it represents. */
  lemma Moves(e: Entries, cache: map<nat, Line>, i: nat)
    requires Represents(e, cache) && i < |e|
    ensures Represents(MoveToFront(e, i), cache)
  {
    var e' := MoveToFront(e, i);
    MovedIndex(e, i);
    forall b | b in cache ensures Find(e', ROOTDEV, b) >= 0 {
      assert e'[Moved(i, Find(e, ROOTDEV, b))].Is(ROOTDEV, b);
    }
    forall j, k | 0 <= j < k < |e'| && e'[j].dev == e'[k].dev == ROOTDEV
      ensures e'[j].blockno != e'[k].blockno
    {
      var j0, k0 := Origin(i, j), Origin(i, k);
      assert j0 < k0 || k0 < j0;
    }
    hide MoveToFront, Moved, Origin, Find, Same;
  }
}
