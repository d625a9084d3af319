/** umalloc.c. Addresses count 8-byte header units; memory maps an address to the header
    stored there. */
module Umalloc {
  import opened Blocks
  import opened FreeList

  /** malloc's block size in units, header included; the sum in it wraps in 32 bits. */
  function Nunits(nbytes: uint32): (n: nat)
    ensures 0 < n <= 0x2000_0000
  {
    (nbytes + 7) % 0x1_0000_0000 / 8 + 1
  }

  /** The block is large enough unless that sum wraps. */
  lemma LargeEnough(nbytes: uint32)
    ensures 8 * (Nunits(nbytes) - 1) >= nbytes <==> nbytes <= 0xFFFF_FFF8
  {
    if nbytes > 0xFFFF_FFF8 {
      assert (nbytes + 7) % 0x1_0000_0000 == nbytes - 0xFFFF_FFF9;
    }
  }

  /** What morecore asks sbrk for, in units. */
  function Core(nu: nat): nat {
    if nu < 4096 then 4096 else nu
  }

  /** The argument of sbrk: a product of 32-bit unsigned numbers, passed as a signed one. */
  function SbrkArgument(nu: nat): int {
    var bytes := nu * 8 % 0x1_0000_0000;
    if bytes < 0x8000_0000 then bytes else bytes - 0x1_0000_0000
  }

  /** How many bytes a process has gained when sbrk(n) succeeds. */
  function Gained(n: int): nat {
    if n > 0 then n else 0
  }

  /** When sbrk succeeds, morecore has the whole block it goes on to free if and only if malloc was
      asked for at most 2^31 - 16 bytes, or for so many that the block size has wrapped. */
  lemma MorecoreGetsBlock(nbytes: uint32)
    ensures var nu := Core(Nunits(nbytes));
      Gained(SbrkArgument(nu)) >= 8 * nu <==> nbytes <= 0x7FFF_FFF0 || nbytes > 0xFFFF_FFF8
  {
    var n := Nunits(nbytes);
    if nbytes > 0xFFFF_FFF8 {
      assert (nbytes + 7) % 0x1_0000_0000 == nbytes - 0xFFFF_FFF9;
    } else if nbytes > 0x7FFF_FFF0 {
      assert 0x1000_0000 <= n <= 0x2000_0000;
    } else {
      assert n < 0x1000_0000;
    }
  }

  /** So the fresh region that Morecore and Malloc are promised is one sbrk can have granted. */
  lemma FreshIsGained(base: int, own: map<int, int>, hp: int, nu: nat)
    requires base > 0 && FreshRegion(base, own, hp, nu)
    ensures SbrkArgument(nu) == 8 * nu == Gained(SbrkArgument(nu))
  {
  }

  /** Every unit of a block live both before and after is still its unit, with what was stored in it. */
  ghost predicate Kept(mem0: Memory, blocks0: map<int, int>, own0: map<int, int>, mem: Memory, blocks: map<int, int>,
                       own: map<int, int>, live: set<int>) {
    && (forall b | b in live :: b in blocks0 && b in blocks && blocks[b] == blocks0[b])
    && forall u | u in own0 && own0[u] in live :: u in own && own[u] == own0[u] && u in mem0 && u in mem &&
         mem[u] == mem0[u]
  }

  /** Some free block has n units. */
  ghost predicate Fits(blocks: map<int, int>, live: set<int>, n: int) {
    exists b :: b in blocks && b !in live && blocks[b] >= n
  }

  /** free's loop stops where the block belongs and nowhere else. */
  lemma Stops(base: int, mem: Memory, nodes: seq<int>, bp: int, j: nat, k: nat)
    requires Ring(base, mem, nodes, 0, 0) && Spot(nodes, bp, k) && base < bp && bp !in nodes && j < |nodes|
    ensures nodes[j] in mem
    ensures var p, ptr := nodes[j], mem[nodes[j]].ptr;
      ((bp > p && bp < ptr) || (p >= ptr && (bp > p || bp < ptr))) <==> j == k
  {
    assert Node(mem, nodes, j);
    if j < k {
      NotAfter(nodes, j + 1, k);
    }
    assert nodes[j] in nodes;
    assert j > 0 ==> nodes[0] < nodes[j];
    assert k + 1 < j ==> nodes[k + 1] < nodes[j];
  }

  lemma NotAfter(nodes: seq<int>, j: nat, k: nat)
    requires Increasing(nodes) && j <= k < |nodes|
    ensures nodes[j] <= nodes[k]
  {
  }

  lemma KeptTrans(m0: Memory, b0: map<int, int>, o0: map<int, int>, m1: Memory, b1: map<int, int>, o1: map<int, int>,
                  m2: Memory, b2: map<int, int>, o2: map<int, int>, live: set<int>)
    requires Kept(m0, b0, o0, m1, b1, o1, live) && Kept(m1, b1, o1, m2, b2, o2, live)
    ensures Kept(m0, b0, o0, m2, b2, o2, live)
  {
  }

  lemma KeptByLink(base: int, mem: Memory, nodes: seq<int>, blocks: map<int, int>, live: set<int>, own: map<int, int>,
                   k: nat, bp: int)
    requires Sound(base, mem, nodes, blocks, live, own, 0, 0) && k < |nodes| && nodes[k] in mem && bp in live &&
             bp in mem
    ensures Kept(mem, blocks, own, Linked(mem, nodes, k, bp), blocks, own, live - {bp})
  {
    BlockIsOwn(blocks, own, bp);
    if k > 0 {
      NodeIsBlock(base, mem, nodes, blocks, live, own, 0, 0, k);
    }
  }

  lemma KeptByJoin(base: int, mem: Memory, nodes: seq<int>, blocks: map<int, int>, live: set<int>, own: map<int, int>,
                   lo: nat, hi: nat, k: nat,
                   p: int, q: int)
    requires Sound(base, mem, nodes, blocks, live, own, lo, hi) && 1 <= k < |nodes| - 1 && p == nodes[k] &&
             q == nodes[k + 1] && p in mem && q in mem
    ensures p in blocks && q in blocks
    ensures Kept(mem, blocks, own, Joined(mem, nodes, k), (blocks - {q})[p := blocks[p] + blocks[q]], Moved(own, q, p),
            live)
  {
    NodeIsBlock(base, mem, nodes, blocks, live, own, lo, hi, k);
    NodeIsBlock(base, mem, nodes, blocks, live, own, lo, hi, k + 1);
  }

  /** free's first join: bp before the node after p, or one with it. */
  function Upper(mem: Memory, p: int, bp: int): Memory
    requires p in mem && bp in mem && mem[p].ptr in mem
  {
    var q := mem[p].ptr;
    mem[bp := if bp + mem[bp].size == q then Header(mem[q].ptr, mem[bp].size + mem[q].size)
      else Header(q, mem[bp].size)]
  }

  /** The second: bp after p, or one with it. */
  function Lower(mem: Memory, p: int, bp: int): Memory
    requires p in mem && bp in mem
  {
    mem[p := if p + mem[p].size == bp then Header(mem[bp].ptr, mem[p].size + mem[bp].size) else Header(bp, mem[p].size)]
  }

  /** Both links set, nothing joined. */
  function BothLinked(mem: Memory, p: int, bp: int): Memory
    requires p in mem && bp in mem
  {
    mem[bp := Header(mem[p].ptr, mem[bp].size)][p := Header(bp, mem[p].size)]
  }

  /** Memory between free's two joins, with p already pointing to bp. */
  function AfterUpper(mem: Memory, p: int, bp: int): Memory
    requires p in mem && bp in mem && mem[p].ptr in mem
  {
    Upper(mem, p, bp)[p := Header(bp, mem[p].size)]
  }

  lemma UpperIs(mem: Memory, p: int, bp: int, q: int, l: Memory)
    requires p in mem && bp in mem && p != bp && q == mem[p].ptr && q in mem && l == BothLinked(mem, p, bp)
    ensures bp in l && l[bp].size == mem[bp].size
    ensures bp + mem[bp].size != q ==> l == AfterUpper(mem, p, bp)
    ensures bp + mem[bp].size == q && q != p && q != bp ==>
      q in l && l[bp := Header(l[q].ptr, l[bp].size + l[q].size)] == AfterUpper(mem, p, bp)
  {
  }

  lemma LowerIs(mem: Memory, p: int, bp: int, mA: Memory)
    requires p in mem && bp in mem && p != bp && mem[p].ptr in mem && mA == AfterUpper(mem, p, bp)
    ensures var m1 := Upper(mem, p, bp);
      && p in m1 && bp in m1 && m1[p] == mem[p] && p in mA && bp in mA && mA[p].size == mem[p].size
      && (p + mem[p].size != bp ==> Lower(m1, p, bp) == mA)
      && (p + mem[p].size == bp ==> Lower(m1, p, bp) == mA[p := Header(mA[bp].ptr, mA[p].size + mA[bp].size)])
  {
  }

  lemma LinkedIn(base: int, mem: Memory, nodes: seq<int>, blocks: map<int, int>, live: set<int>, own: map<int, int>,
                 bp: int, k: nat, p: int, q: int)
    requires Sound(base, mem, nodes, blocks, live, own, 0, 0) && Spot(nodes, bp, k) && bp in live && p == nodes[k] &&
             p in mem && q == mem[p].ptr
    ensures bp in mem && q in mem && p != bp && bp in blocks && blocks[bp] == mem[bp].size
    ensures Linked(mem, nodes, k, bp) == BothLinked(mem, p, bp)
    ensures bp + mem[bp].size == q ==>
      k + 2 < |nodes| + 1 && q == nodes[k + 1] && q in blocks && blocks[q] > 0 && q != p && q != bp
    ensures k + 1 < |nodes| ==> q == nodes[k + 1]
  {
    Between(base, mem, nodes, blocks, live, own, bp, k);
    assert Node(mem, nodes, k);
    assert Node(mem, nodes, if k + 1 == |nodes| then 0 else k + 1);
    if k + 1 < |nodes| {
      NodeIsBlock(base, mem, nodes, blocks, live, own, 0, 0, k + 1);
    }
  }

  /** A join within the list, with what it keeps. */
  lemma MovedKeys(own: map<int, int>, q: int, p: int)
    ensures Moved(own, q, p).Keys == own.Keys
  {
  }

  lemma JoinKept(base: int, mem: Memory, nodes: seq<int>, blocks: map<int, int>, live: set<int>, own: map<int, int>,
                 k: nat, lo: nat, hi: nat, p: int, q: int, m: Memory)
    returns (n: seq<int>, b: map<int, int>, o: map<int, int>)
    requires Sound(base, mem, nodes, blocks, live, own, lo, hi) && hi == k + 1 && 1 <= k < |nodes| - 1 &&
             p == nodes[k] && q == nodes[k + 1]
    requires p in mem && p + mem[p].size == q && q in mem &&
             m == mem[p := Header(mem[q].ptr, mem[p].size + mem[q].size)]
    ensures Sound(base, m, n, b, live, o, lo, k) && |n| == |nodes| - 1 && n[k] == p && n[k - 1] == nodes[k - 1]
    ensures o.Keys == own.Keys && Kept(mem, blocks, own, m, b, o, live)
    ensures p in blocks && q in blocks && p in b && b[p] == blocks[p] + blocks[q] && blocks[p] > 0 && blocks[q] > 0
  {
    hide Sound, Kept, RemoveAt, Covers, Moved;
    NodeIsBlock(base, mem, nodes, blocks, live, own, lo, hi, k);
    NodeIsBlock(base, mem, nodes, blocks, live, own, lo, hi, k + 1);
    Join(base, mem, nodes, blocks, live, own, k, lo, hi, p, q);
    KeptByJoin(base, mem, nodes, blocks, live, own, lo, hi, k, p, q);
    MovedKeys(own, q, p);
    n, b, o := RemoveAt(nodes, k + 1), (blocks - {q})[p := blocks[p] + blocks[q]], Moved(own, q, p);
  }

  /** bp linked in at k, the two positions around it still to be looked at. */
  ghost predicate FreeLink(base: int, mem: Memory, nodes: seq<int>, blocks: map<int, int>, live: set<int>,
                           own: map<int, int>, bp: int, k: nat, p: int,
                           m: Memory, n: seq<int>)
  {
    && Sound(base, m, n, blocks, live - {bp}, own, k, k + 2) && k + 1 < |n| && n[k] == p && n[k + 1] == bp && p in m &&
         bp in m
    && Kept(mem, blocks, own, m, blocks, own, live - {bp}) && bp in blocks && p != bp
  }

  lemma FreedLink(base: int, mem: Memory, nodes: seq<int>, blocks: map<int, int>, live: set<int>, own: map<int, int>,
                  bp: int, k: nat, p: int, q: int)
    returns (m: Memory, n: seq<int>)
    requires Sound(base, mem, nodes, blocks, live, own, 0, 0) && Spot(nodes, bp, k) && bp in live && p == nodes[k] &&
             p in mem && q == mem[p].ptr
    ensures bp in mem && q in mem && m == BothLinked(mem, p, bp)
    ensures FreeLink(base, mem, nodes, blocks, live, own, bp, k, p, m, n)
    ensures bp + mem[bp].size == q <==> k + 2 < |n| && bp + m[bp].size == n[k + 2]
    ensures k + 2 < |n| ==> n[k + 2] == q
    ensures bp + mem[bp].size == q ==> q != p && q != bp
  {
    LinkedIn(base, mem, nodes, blocks, live, own, bp, k, p, q);
    Link(base, mem, nodes, blocks, live, own, k, bp);
    KeptByLink(base, mem, nodes, blocks, live, own, k, bp);
    hide Sound, Kept, Spot, Linked;
    m, n := Linked(mem, nodes, k, bp), InsertAt(nodes, k + 1, bp);
  }

  /** The list and the blocks after free's first join. */
  ghost predicate HalfFreed(base: int, mem: Memory, blocks: map<int, int>, live: set<int>, own: map<int, int>, bp: int,
                            k: nat, p: int,
                            m: Memory, n: seq<int>, b: map<int, int>, o: map<int, int>)
  {
    && Sound(base, m, n, b, live - {bp}, o, k, k + 1) && k + 1 < |n| && n[k] == p && n[k + 1] == bp
    && o.Keys == own.Keys && Kept(mem, blocks, own, m, b, o, live - {bp})
    && bp in blocks && bp in b && b[bp] >= blocks[bp]
  }

  /** The first join in the list that has bp linked in. */
  lemma FreedJoin(base: int, mem: Memory, nodes: seq<int>, blocks: map<int, int>, live: set<int>, own: map<int, int>,
                  bp: int, k: nat, p: int,
                  m1: Memory, n1: seq<int>, q: int, m: Memory)
    returns (n: seq<int>, b: map<int, int>, o: map<int, int>)
    requires FreeLink(base, mem, nodes, blocks, live, own, bp, k, p, m1, n1) && k + 2 < |n1| && q == n1[k + 2] &&
             bp + m1[bp].size == q
    requires q in m1 && m == m1[bp := Header(m1[q].ptr, m1[bp].size + m1[q].size)]
    ensures HalfFreed(base, mem, blocks, live, own, bp, k, p, m, n, b, o)
  {
    hide Sound, Kept;
    var k1, hi := k + 1, k + 2;
    n, b, o := JoinKept(base, m1, n1, blocks, live - {bp}, own, k1, k, hi, bp, q, m);
    KeptTrans(mem, blocks, own, m1, blocks, own, m, b, o, live - {bp});
  }

  /** free's first join: bp is linked in at k, and joined with the node above if they touch. */
  lemma FreedUpper(base: int, mem: Memory, nodes: seq<int>, blocks: map<int, int>, live: set<int>, own: map<int, int>,
                   bp: int, k: nat, p: int, m: Memory)
    returns (n: seq<int>, b: map<int, int>, o: map<int, int>)
    requires Sound(base, mem, nodes, blocks, live, own, 0, 0) && Spot(nodes, bp, k) && bp in live && p == nodes[k] &&
             p in mem
    requires bp in mem && mem[p].ptr in mem && m == AfterUpper(mem, p, bp)
    ensures p != bp && HalfFreed(base, mem, blocks, live, own, bp, k, p, m, n, b, o)
  {
    assert k < |nodes|;
    var m1, n1 := FreedLink(base, mem, nodes, blocks, live, own, bp, k, p, mem[p].ptr);
    UpperIs(mem, p, bp, mem[p].ptr, m1);
    hide Sound, Kept, Spot, Upper, BothLinked, AfterUpper;
    if bp + mem[bp].size == mem[p].ptr {
      n, b, o := FreedJoin(base, mem, nodes, blocks, live, own, bp, k, p, m1, n1, mem[p].ptr, m);
    } else {
      var k1, hi := k + 1, k + 2;
      NarrowSound(base, m1, n1, blocks, live - {bp}, own, k1, k, hi);
      n, b, o := n1, blocks, own;
    }
  }

  /** Where a block freed at k ends up: at node x, as part of a block at least as large. */
  ghost predicate Landed(blocks: map<int, int>, bp: int, nodes: seq<int>, blocks': map<int, int>, k: nat, x: nat) {
    (x == k || x == k + 1) && x < |nodes| && bp in blocks && nodes[x] in blocks' && blocks'[nodes[x]] >= blocks[bp]
  }

  /** free: after both joins. bp's units now belong to the block at nodes[k] or to the next one. */
  lemma Freed(base: int, mem: Memory, nodes: seq<int>, blocks: map<int, int>, live: set<int>, own: map<int, int>,
              bp: int, k: nat, p: int, m: Memory)
    returns (n: seq<int>, b: map<int, int>, o: map<int, int>, x: nat)
    requires Sound(base, mem, nodes, blocks, live, own, 0, 0) && Spot(nodes, bp, k) && bp in live && p == nodes[k] &&
             p in mem && bp in mem && mem[p].ptr in mem
    requires p in Upper(mem, p, bp) && bp in Upper(mem, p, bp) && m == Lower(Upper(mem, p, bp), p, bp)
    ensures Sound(base, m, n, b, live - {bp}, o, 0, 0) && k < |n| && n[k] == p
    ensures o.Keys == own.Keys && Kept(mem, blocks, own, m, b, o, live - {bp})
    ensures Landed(blocks, bp, n, b, k, x)
  {
    var mA := AfterUpper(mem, p, bp);
    var nA, bA, oA := FreedUpper(base, mem, nodes, blocks, live, own, bp, k, p, mA);
    LowerIs(mem, p, bp, mA);
    assert p + mem[p].size == bp ==> k >= 1;
    hide Sound, Kept, Spot, Upper, Lower, AfterUpper;
    var k1, l1 := k + 1, live - {bp};
    if p + mem[p].size == bp {
      n, b, o := JoinKept(base, mA, nA, bA, l1, oA, k, k, k1, p, bp, m);
      KeptTrans(mem, blocks, own, mA, bA, oA, m, b, o, l1);
      x := k;
    } else {
      NarrowSound(base, mA, nA, bA, l1, oA, k, k, k1);
      n, b, o, x := nA, bA, oA, k1;
    }
    WindowClosed(base, m, n, b, l1, o, k);
  }

  // ---- the walk of malloc ----

  /** Steps from the position after j. */
  lemma StepsNext(n: nat, j: nat, x: nat)
    requires j < n && x < n
    ensures var j' := if j + 1 == n then 0 else j + 1;
      j' < n && Steps(n, j', x) == if x == j then n - 1 else Steps(n, j, x) - 1
  {
  }

  /** The walk began after position f, where freep points, is at j, and met no block of n units. */
  ghost predicate Passed(mem: Memory, nodes: seq<int>, f: nat, j: nat, n: int) {
    f < |nodes| && j < |nodes| &&
    forall x: nat | x < |nodes| && Steps(|nodes|, j, x) > Steps(|nodes|, j, f) :: nodes[x] in mem &&
      mem[nodes[x]].size < n
  }

  lemma PassedNext(mem: Memory, nodes: seq<int>, f: nat, j: nat, n: int)
    requires Passed(mem, nodes, f, j, n) && nodes[j] in mem && mem[nodes[j]].size < n && j != f
    ensures Passed(mem, nodes, f, if j + 1 == |nodes| then 0 else j + 1, n)
  {
    var j' := if j + 1 == |nodes| then 0 else j + 1;
    StepsNext(|nodes|, j, f);
    forall x: nat | x < |nodes| && Steps(|nodes|, j', x) > Steps(|nodes|, j', f)
      ensures nodes[x] in mem && mem[nodes[x]].size < n {
      StepsNext(|nodes|, j, x);
    }
  }

  /** After a whole lap no free block is large enough. */
  lemma PassedAll(base: int, mem: Memory, nodes: seq<int>, blocks: map<int, int>, live: set<int>, own: map<int, int>,
                  f: nat, n: int)
    requires Sound(base, mem, nodes, blocks, live, own, 0, 0) && Passed(mem, nodes, f, f, n) && nodes[f] in mem &&
             mem[nodes[f]].size < n
    ensures !Fits(blocks, live, n)
  {
    forall b | b in blocks && b !in live ensures blocks[b] < n {
      var x: nat :| x < |nodes| && nodes[x] == b;
      if x != f {
        assert Steps(|nodes|, f, x) > 0;
      }
    }
  }

  lemma BaseMapped(base: int, mem: Memory, nodes: seq<int>, blocks: map<int, int>, live: set<int>, own: map<int, int>)
    requires Sound(base, mem, nodes, blocks, live, own, 0, 0)
    ensures base in mem
  {
  }

  lemma LiveBlock(base: int, mem: Memory, nodes: seq<int>, blocks: map<int, int>, live: set<int>, own: map<int, int>,
                  bp: int)
    requires Sound(base, mem, nodes, blocks, live, own, 0, 0) && bp in live
    ensures base < bp && bp !in nodes && bp in mem
  {
    BlockIsOwn(blocks, own, bp);
  }

  lemma NodeMapped(base: int, mem: Memory, nodes: seq<int>, blocks: map<int, int>, live: set<int>, own: map<int, int>,
                   k: nat)
    requires Sound(base, mem, nodes, blocks, live, own, 0, 0) && k < |nodes|
    ensures nodes[k] in mem && mem[nodes[k]].ptr in mem && mem[nodes[k]].ptr == Next(nodes, k) && base <= nodes[k] &&
            nodes[k] in nodes
  {
    assert Node(mem, nodes, k) && Node(mem, nodes, if k + 1 == |nodes| then 0 else k + 1);
    assert k > 0 ==> nodes[0] < nodes[k];
  }

  /** A block just handed out: n units that no live block had. */
  ghost predicate HandedOut(live0: set<int>, own0: map<int, int>, blocks: map<int, int>, own: map<int, int>, b: int,
                            n: int) {
    && b !in live0 && b in blocks && blocks[b] == n && Covers(own, b, n)
    && forall u | b <= u < b + n && u in own0 :: own0[u] !in live0
  }

  lemma TakenWhole(base: int, mem: Memory, nodes: seq<int>, blocks: map<int, int>, live: set<int>, own: map<int, int>,
                   j: nat, p: int, n: int, m: Memory)
    requires Sound(base, mem, nodes, blocks, live, own, 0, 0) && 1 <= j < |nodes| && p == nodes[j] && p in mem &&
             mem[p].size == n && nodes[j - 1] in mem
    requires m == Unlinked(mem, nodes, j)
    ensures Sound(base, m, RemoveAt(nodes, j), blocks, live + {p}, own, 0, 0)
    ensures Kept(mem, blocks, own, m, blocks, own, live) && HandedOut(live, own, blocks, own, p, n)
  {
    hide Ring;
    Unlink(base, mem, nodes, blocks, live, own, j);
    NodeIsBlock(base, mem, nodes, blocks, live, own, 0, 0, j);
    if j > 1 {
      NodeIsBlock(base, mem, nodes, blocks, live, own, 0, 0, j - 1);
    }
  }

  lemma TakenTail(base: int, mem: Memory, nodes: seq<int>, blocks: map<int, int>, live: set<int>, own: map<int, int>,
                  j: nat, p: int, n: int, s: int, b: int,
                  m': Memory, b': map<int, int>, o': map<int, int>)
    requires Sound(base, mem, nodes, blocks, live, own, 0, 0) && 1 <= j < |nodes| && p == nodes[j] && p in mem
    requires 0 < n && 0 < s && n + s == mem[p].size && b == p + s && b in mem
    requires m' == Split(mem, p, n, s) && b' == blocks[p := s][b := n] && o' == SplitOwn(own, p, b)
    ensures Sound(base, m', nodes, b', live + {b}, o', 0, 0)
    ensures o'.Keys == own.Keys && Kept(mem, blocks, own, m', b', o', live) && HandedOut(live, own, b', o', b, n)
  {
    SplitOff(base, mem, nodes, blocks, live, own, j, n, s, p, b, m', b', o');
    NodeIsBlock(base, mem, nodes, blocks, live, own, 0, 0, j);
    assert live <= blocks.Keys && forall u | u in own :: u in mem;
    hide Sound, SplitOwn, Split, Kept, HandedOut;
    KeptBySplit(mem, blocks, live, own, p, n, s, b, m', b', o');
  }

  lemma KeptBySplit(mem: Memory, blocks: map<int, int>, live: set<int>, own: map<int, int>, p: int, n: int, s: int,
                    b: int,
                    m': Memory, b': map<int, int>, o': map<int, int>)
    requires p in blocks && p !in live && live <= blocks.Keys && Covers(own, p, blocks[p]) && p in mem && b in mem &&
             b !in blocks
    requires 0 < n && 0 < s && n + s == blocks[p] && b == p + s && forall u | u in own :: u in mem
    requires m' == Split(mem, p, n, s) && b' == blocks[p := s][b := n] && o' == SplitOwn(own, p, b)
    ensures o'.Keys == own.Keys && Kept(mem, blocks, own, m', b', o', live) && HandedOut(live, own, b', o', b, n)
  {
  }

  function Region(hp: int, nu: nat): set<int> {
    set u: int | hp <= u < hp + nu && Within(u, hp, nu)
  }

  lemma Grew(base: int, mem: Memory, nodes: seq<int>, blocks: map<int, int>, live: set<int>, own: map<int, int>,
             hp: int, nu: nat,
             m': Memory, b': map<int, int>, o': map<int, int>)
    requires Sound(base, mem, nodes, blocks, live, own, 0, 0) && FreshRegion(base, own, hp, nu)
    requires m' == Grown(mem, hp, nu) && b' == blocks[hp := nu] && o' == GrownOwn(own, hp, nu)
    ensures Sound(base, m', nodes, b', live + {hp}, o', 0, 0) && hp !in live && b'[hp] == nu
    ensures o'.Keys == own.Keys + Region(hp, nu) && Kept(mem, blocks, own, m', b', o', live)
  {
    hide Ring, Tiled;
    Grow(base, mem, nodes, blocks, live, own, hp, nu);
  }

  /** Where malloc's walk stands: p is node j and prevp the one before it, freep is node f. Before
      morecore no node since f was large enough; afterwards node d is, and comes no later than f. */
  ghost predicate Walk(mem: Memory, nodes: seq<int>, freep: int, n: int, prevp: int, p: int, j: nat, f: nat, d: nat,
                       grown: bool) {
    && j < |nodes| && p == nodes[j] && prevp == nodes[if j == 0 then |nodes| - 1 else j - 1]
    && f < |nodes| && nodes[f] == freep
    && if grown then d < |nodes| && nodes[d] in mem && mem[nodes[d]].size >= n &&
         Steps(|nodes|, j, d) <= Steps(|nodes|, j, f)
       else Passed(mem, nodes, f, j, n)
  }

  /** Node j has n units, and no node from the one after node f up to it has. */
  ghost predicate FirstFrom(mem: Memory, nodes: seq<int>, f: nat, j: nat, n: int) {
    && j < |nodes| && f < |nodes| && nodes[j] in mem && mem[nodes[j]].size >= n
    && Passed(mem, nodes, f, j, n)
  }

  /** Node j is the next fit: the first node after freep that has n units. */
  ghost predicate NextAt(mem: Memory, nodes: seq<int>, freep: int, n: int, j: nat) {
    exists f: nat :: FirstFrom(mem, nodes, f, j, n) && nodes[f] == freep
  }

  /** b is the tail of n units of node j: the node has given it up, or has left the list if it had no
      more, and the next search starts behind the node before. The last arguments are the new state. */
  ghost predicate Cut(mem: Memory, nodes: seq<int>, j: nat, n: int, b: int, mem': Memory, nodes': seq<int>, freep': int)
  {
    && 1 <= j < |nodes| && nodes[j] in mem && mem[nodes[j]].size >= n && freep' == nodes[j - 1]
    && b == nodes[j] + mem[nodes[j]].size - n
    && if mem[nodes[j]].size == n then nodes' == nodes[..j] + nodes[j + 1..]
       else nodes' == nodes && nodes[j] in mem' && mem'[nodes[j]].size == mem[nodes[j]].size - n
  }

  /** b was cut from the next fit. */
  ghost predicate NextFit(mem: Memory, nodes: seq<int>, freep: int, n: int, b: int, mem': Memory, nodes': seq<int>,
                          freep': int) {
    exists j: nat :: NextAt(mem, nodes, freep, n, j) && Cut(mem, nodes, j, n, b, mem', nodes', freep')
  }

  /** freep points to the node before the one that b was cut from, which ends where b begins, or, when
      b was a whole node, to the node before b, which ends before b begins. */
  ghost predicate Rests(mem: Memory, nodes: seq<int>, freep: int, b: int) {
    exists k: nat :: RestsAt(mem, nodes, freep, b, k)
  }

  ghost predicate RestsAt(mem: Memory, nodes: seq<int>, freep: int, b: int, k: nat) {
    && k < |nodes| && nodes[k] == freep && freep in mem
    && ((k + 1 < |nodes| && nodes[k + 1] in mem && nodes[k + 1] + mem[nodes[k + 1]].size == b) ||
        (freep + mem[freep].size < b && (k + 1 < |nodes| ==> b < nodes[k + 1])))
  }

  lemma CutRests(base: int, mem: Memory, nodes: seq<int>, blocks: map<int, int>, live: set<int>, own: map<int, int>,
                 j: nat, n: int, b: int, mem': Memory, nodes': seq<int>, freep': int)
    requires Sound(base, mem, nodes, blocks, live, own, 0, 0) && Cut(mem, nodes, j, n, b, mem', nodes', freep')
    requires freep' in mem && freep' in mem' && mem'[freep'].size == mem[freep'].size
    ensures Rests(mem', nodes', freep', b)
  {
    assert Gap(mem, nodes, j - 1, 0, 0);
    assert RestsAt(mem', nodes', freep', b, j - 1);
  }

  /** How far the walk has to go. */
  ghost function Left(nodes: seq<int>, j: nat, f: nat, d: nat, grown: bool): nat
    requires j < |nodes| && f < |nodes| && (grown ==> d < |nodes|)
  {
    Steps(|nodes|, j, if grown then d else f)
  }

  /** It begins right after freep. */
  lemma WalkBegins(base: int, mem: Memory, nodes: seq<int>, blocks: map<int, int>, live: set<int>, own: map<int, int>,
                   freep: int, n: int, f: nat, d: nat, grown: bool)
    requires Sound(base, mem, nodes, blocks, live, own, 0, 0) && f < |nodes| && nodes[f] == freep
    requires grown ==> d < |nodes| && nodes[d] in mem && mem[nodes[d]].size >= n
    ensures freep in mem && Walk(mem, nodes, freep, n, freep, mem[freep].ptr, if f + 1 == |nodes| then 0
            else f + 1, f, d, grown)
  {
    NodeMapped(base, mem, nodes, blocks, live, own, f);
    StepsNext(|nodes|, f, f);
    if grown {
      StepsNext(|nodes|, f, d);
    } else {
      var j := if f + 1 == |nodes| then 0 else f + 1;
      assert forall x: nat | x < |nodes| :: Steps(|nodes|, j, x) <= |nodes| - 1;
    }
  }

  /** A step past a node that is too small and not the last one to look at. */
  lemma WalkNext(base: int, mem: Memory, nodes: seq<int>, blocks: map<int, int>, live: set<int>, own: map<int, int>,
                 freep: int, n: int,
                 prevp: int, p: int, j: nat, f: nat, d: nat, grown: bool, j': nat)
    requires Sound(base, mem, nodes, blocks, live, own, 0, 0) && Walk(mem, nodes, freep, n, prevp, p, j, f, d, grown)
    requires p in mem && mem[p].size < n && p != freep && j' == if j + 1 == |nodes| then 0 else j + 1
    ensures Walk(mem, nodes, freep, n, p, mem[p].ptr, j', f, d, grown) &&
            Left(nodes, j', f, d, grown) < Left(nodes, j, f, d, grown)
  {
    NodeMapped(base, mem, nodes, blocks, live, own, j);
    StepsNext(|nodes|, j, f);
    if grown {
      StepsNext(|nodes|, j, d);
    } else {
      PassedNext(mem, nodes, f, j, n);
    }
  }

  /** At freep without a fit: a whole lap has been made, before morecore, and nothing fits. */
  lemma WalkEnds(base: int, mem: Memory, nodes: seq<int>, blocks: map<int, int>, live: set<int>, own: map<int, int>,
                 freep: int, n: int,
                 prevp: int, p: int, j: nat, f: nat, d: nat, grown: bool)
    requires Sound(base, mem, nodes, blocks, live, own, 0, 0) && Walk(mem, nodes, freep, n, prevp, p, j, f, d, grown)
    requires p in mem && mem[p].size < n && p == freep
    ensures !grown && !Fits(blocks, live, n)
  {
    assert j == f;
    if !grown {
      PassedAll(base, mem, nodes, blocks, live, own, f, n);
    }
  }

  /** A node of at least one unit is a free block, and not the first. */
  lemma WalkFits(base: int, mem: Memory, nodes: seq<int>, blocks: map<int, int>, live: set<int>, own: map<int, int>,
                 freep: int, n: int,
                 prevp: int, p: int, j: nat, f: nat, d: nat, grown: bool)
    requires Sound(base, mem, nodes, blocks, live, own, 0, 0) && Walk(mem, nodes, freep, n, prevp, p, j, f, d, grown)
    requires p in mem && mem[p].size >= n > 0
    ensures j >= 1 && prevp == nodes[j - 1] && Fits(blocks, live, n)
    ensures !grown ==> NextAt(mem, nodes, freep, n, j)
  {
    assert !grown ==> FirstFrom(mem, nodes, f, j, n);
    if j >= 1 {
      NodeIsBlock(base, mem, nodes, blocks, live, own, 0, 0, j);
    }
  }

  lemma HandedTrans(m0: Memory, b0: map<int, int>, o0: map<int, int>, m1: Memory, b1: map<int, int>, o1: map<int, int>,
                    live: set<int>,
                    blocks: map<int, int>, own: map<int, int>, b: int, n: int)
    requires Kept(m0, b0, o0, m1, b1, o1, live) && HandedOut(live, o1, blocks, own, b, n)
    ensures HandedOut(live, o0, blocks, own, b, n)
  {
  }

  /** The node a block belongs after is the last one below it. */
  lemma GreatestBelow(nodes: seq<int>, bp: int, k: nat)
    requires Increasing(nodes) && Spot(nodes, bp, k)
    ensures k < |nodes| && nodes[k] in nodes && nodes[k] < bp && forall q | q in nodes && q < bp :: q <= nodes[k]
  {
    forall q | q in nodes && q < bp ensures q <= nodes[k] {
      var j: nat :| j < |nodes| && nodes[j] == q;
      if j <= k {
        NotAfter(nodes, j, k);
      }
    }
  }

  /** Node j is the next fit for n units and has `more` over. */
  ghost predicate RoomAt(mem: Memory, nodes: seq<int>, freep: int, n: nat, more: nat, j: nat) {
    NextAt(mem, nodes, freep, n, j) && j < |nodes| && nodes[j] in mem && mem[nodes[j]].size >= n + more
  }

  lemma NodeFits(base: int, mem: Memory, nodes: seq<int>, blocks: map<int, int>, live: set<int>, own: map<int, int>,
                 freep: int, j: nat, n: nat, more: nat)
    requires Sound(base, mem, nodes, blocks, live, own, 0, 0) && RoomAt(mem, nodes, freep, n, more, j) && n > 0
    ensures 1 <= j && Increasing(nodes) && Fits(blocks, live, n)
  {
    if j > 0 {
      NodeIsBlock(base, mem, nodes, blocks, live, own, 0, 0, j);
    }
  }

  /** There is only one next fit. */
  lemma OneNext(mem: Memory, nodes: seq<int>, freep: int, n: int, j: nat, k: nat)
    requires Increasing(nodes) && NextAt(mem, nodes, freep, n, j) && NextAt(mem, nodes, freep, n, k)
    ensures j == k
  {
    var f: nat :| FirstFrom(mem, nodes, f, j, n) && nodes[f] == freep;
    var g: nat :| FirstFrom(mem, nodes, g, k, n) && nodes[g] == freep;
    assert f == g;
  }

  /** b was cut from node j, and the next search from there starts with node j. */
  lemma SameNode(mem: Memory, nodes: seq<int>, freep: int, n: int, j: nat, b: int, mem': Memory, nodes': seq<int>,
                 freep': int)
    requires Increasing(nodes) && NextAt(mem, nodes, freep, n, j)
    requires NextFit(mem, nodes, freep, n, b, mem', nodes', freep')
    ensures Cut(mem, nodes, j, n, b, mem', nodes', freep')
  {
    var k: nat :| NextAt(mem, nodes, freep, n, k) && Cut(mem, nodes, k, n, b, mem', nodes', freep');
    OneNext(mem, nodes, freep, n, j, k);
  }

  /** Node j has been cut, and has room for another piece: it is the next fit for that. */
  lemma HasRoom(base: int, m0: Memory, n0: seq<int>, f0: int, mem: Memory, nodes: seq<int>, freep: int,
                blocks: map<int, int>, live: set<int>, own: map<int, int>, n: nat, more: nat, j: nat, b: int)
    requires Increasing(n0) && RoomAt(m0, n0, f0, n, more, j) && NextFit(m0, n0, f0, n, b, mem, nodes, freep)
    requires Sound(base, mem, nodes, blocks, live, own, 0, 0) && more > 0
    ensures NextAt(mem, nodes, freep, more, j) && Fits(blocks, live, more)
  {
    SameNode(m0, n0, f0, n, j, b, mem, nodes, freep);
    assert FirstFrom(mem, nodes, j - 1, j, more);
    NodeFits(base, mem, nodes, blocks, live, own, freep, j, more, 0);
  }

  lemma CutTwice(m0: Memory, n0: seq<int>, f0: int, n: nat, more: nat, j: nat, b: int,
                 m1: Memory, n1: seq<int>, f1: int, c: int, m2: Memory, n2: seq<int>, f2: int)
    requires Increasing(n0) && RoomAt(m0, n0, f0, n, more, j) && NextFit(m0, n0, f0, n, b, m1, n1, f1) && more > 0
    requires NextAt(m1, n1, f1, more, j) && NextFit(m1, n1, f1, more, c, m2, n2, f2)
    ensures c == b - more
  {
    hide NextAt, NextFit, Increasing;
    SameNode(m0, n0, f0, n, j, b, m1, n1, f1);
    SameNode(m1, n1, f1, more, j, c, m2, n2, f2);
  }

  class Heap {
    const base: int
    /** 0 until the first malloc. */
    var freep: int
    var mem: Memory
    ghost var nodes: seq<int>
    ghost var blocks: map<int, int>
    ghost var live: set<int>
    ghost var own: map<int, int>

    constructor (base: int)
      requires base > 0
      ensures this.base == base && Valid() && live == {} && own == map[]
    {
      this.base, freep, mem := base, 0, map[base := Header(0, 0)];
      nodes, blocks, live, own := [], map[], {}, map[];
    }

    ghost predicate Valid()
      reads this
    {
      && base > 0 && base in mem
      && if freep == 0 then blocks == map[] && live == {} && own == map[]
         else freep in nodes && Sound(base, mem, nodes, blocks, live, own, 0, 0)
    }

    lemma ValidIs()
      requires freep != 0
      ensures Valid() <==> base > 0 && base in mem && freep in nodes && Sound(base, mem, nodes, blocks, live, own, 0, 0)
    {
    }

    /** free's loop: it stops, and p is the one node after which bp belongs. */
    method Search(bp: int) returns (p: int, ghost k: nat)
      requires Valid() && freep != 0 && base < bp && bp !in nodes
      ensures Spot(nodes, bp, k) && k < |nodes| && p == nodes[k] && forall m: nat | Spot(nodes, bp, m) :: m == k
      ensures p in nodes && p < bp && forall q | q in nodes && q < bp :: q <= p
    {
      p := freep;
      ghost var j: nat :| j < |nodes| && nodes[j] == p;
      k := SpotExists(nodes, bp);
      GreatestBelow(nodes, bp, k);
      Stops(base, mem, nodes, bp, j, k);
      while !(bp > p && bp < mem[p].ptr)
        invariant j < |nodes| && p == nodes[j] && p in mem
        invariant ((bp > p && bp < mem[p].ptr) || (p >= mem[p].ptr && (bp > p || bp < mem[p].ptr))) <==> j == k
        decreases Steps(|nodes|, j, k)
      {
        if p >= mem[p].ptr && (bp > p || bp < mem[p].ptr) {
          break;
        }
        assert Node(mem, nodes, j);
        StepsNext(|nodes|, j, k);
        p := mem[p].ptr;
        j := if j + 1 == |nodes| then 0 else j + 1;
        Stops(base, mem, nodes, bp, j, k);
      }
    }

    /** What free does once it has found p: the block joined with its neighbours if it touches them. */
    method Insert(p: int, bp: int)
      requires p in mem && bp in mem && mem[p].ptr in mem && p != bp
      modifies this`mem
      ensures p in Upper(old(mem), p, bp) && bp in Upper(old(mem), p, bp) && mem == Lower(Upper(old(mem), p, bp), p, bp)
    {
      ghost var m0 := mem;
      if bp + mem[bp].size == mem[p].ptr {
        mem := mem[bp := Header(mem[mem[p].ptr].ptr, mem[bp].size + mem[mem[p].ptr].size)];
      } else {
        mem := mem[bp := Header(mem[p].ptr, mem[bp].size)];
      }
      assert mem == Upper(m0, p, bp);
      if p + mem[p].size == bp {
        mem := mem[p := Header(mem[bp].ptr, mem[p].size + mem[bp].size)];
      } else {
        mem := mem[p := Header(bp, mem[p].size)];
      }
    }

    /** free: the block is free again, the list is coalesced again, and no other live block, nor
        anything stored in one, has changed. The block's units are now in the node freep points
        to, or in the next. */
    method Free(ap: int) returns (ghost k: nat, ghost x: nat)
      requires Valid() && freep != 0 && ap - 1 in live
      modifies this
      ensures Valid() && freep != 0 && live == old(live) - {ap - 1} && own.Keys == old(own.Keys)
      ensures Kept(old(mem), old(blocks), old(own), mem, blocks, own, live)
      ensures k < |nodes| && nodes[k] == freep && Landed(old(blocks), ap - 1, nodes, blocks, k, x)
      ensures freep in old(nodes) && freep < ap - 1 && forall q | q in old(nodes) && q < ap - 1 :: q <= freep
    {
      hide *;
      var bp := ap - 1;
      ValidIs();
      LiveBlock(base, mem, nodes, blocks, live, own, bp);
      var p;
      p, k := Search(bp);
      assert k < |nodes| && p != bp by {
        assert p in nodes;
      }
      NodeMapped(base, mem, nodes, blocks, live, own, k);
      ghost var m0 := mem;
      Insert(p, bp);
      ghost var n, b, o;
      n, b, o, x := Freed(base, m0, nodes, blocks, live, own, bp, k, p, mem);
      freep := p;
      nodes, blocks, own, live := n, b, o, live - {bp};
      assert nodes[k] in nodes;
      BaseMapped(base, mem, n, b, live, o);
      ValidIs();
    }

    method CutTail(p: int, n: int) returns (b: int)
      requires p in mem && p + mem[p].size - n in mem && n < mem[p].size
      modifies this`mem
      ensures b == p + old(mem)[p].size - n && mem == Split(old(mem), p, n, b - p)
    {
      mem := mem[p := Header(mem[p].ptr, mem[p].size - n)];
      b := p + mem[p].size;
      mem := mem[b := Header(mem[b].ptr, n)];
    }

    method TakeWhole(prevp: int, p: int, ghost j: nat)
      requires Valid() && freep != 0 && 1 <= j < |nodes| && nodes[j] == p && nodes[j - 1] == prevp && p in mem &&
               prevp in mem
      modifies this
      ensures Valid() && freep == prevp && live == old(live) + {p} && own == old(own)
      ensures Kept(old(mem), old(blocks), old(own), mem, blocks, own, old(live)) &&
              HandedOut(old(live), old(own), blocks, own, p, old(mem)[p].size)
      ensures Cut(old(mem), old(nodes), j, old(mem)[p].size, p, mem, nodes, freep)
      ensures freep in old(mem) && freep in mem && mem[freep].size == old(mem)[freep].size
    {
      hide Sound, Kept, HandedOut, RemoveAt, Valid, Cut;
      ValidIs();
      ghost var m0 := mem;
      NodeMapped(base, mem, nodes, blocks, live, own, j - 1);
      mem := mem[prevp := Header(mem[p].ptr, mem[prevp].size)];
      freep := prevp;
      TakenWhole(base, m0, nodes, blocks, live, own, j, p, m0[p].size, mem);
      assert RemoveAt(nodes, j)[j - 1] == prevp;
      BaseMapped(base, mem, RemoveAt(nodes, j), blocks, live + {p}, own);
      CutWhole(m0, nodes, j, mem);
      nodes, live := RemoveAt(nodes, j), live + {p};
      ValidIs();
    }

    method TakeTail(prevp: int, p: int, n: int, ghost j: nat) returns (b: int)
      requires Valid() && freep != 0 && 1 <= j < |nodes| && nodes[j] == p && nodes[j - 1] == prevp && p in mem &&
               0 < n < mem[p].size
      modifies this
      ensures Valid() && freep == prevp && live == old(live) + {b} && own.Keys == old(own.Keys) && b > 0
      ensures b == p + old(mem)[p].size - n
      ensures Kept(old(mem), old(blocks), old(own), mem, blocks, own, old(live)) &&
              HandedOut(old(live), old(own), blocks, own, b, n)
      ensures Cut(old(mem), old(nodes), j, n, b, mem, nodes, freep)
      ensures freep in old(mem) && freep in mem && mem[freep].size == old(mem)[freep].size
    {
      hide *;
      ValidIs();
      ghost var m0, s := mem, mem[p].size - n;
      CutMapped(base, mem, nodes, blocks, live, own, j, s);
      NodeMapped(base, mem, nodes, blocks, live, own, j);
      NodeMapped(base, mem, nodes, blocks, live, own, j - 1);
      b := CutTail(p, n);
      freep := prevp;
      ghost var b', o' := blocks[p := s][b := n], SplitOwn(own, p, b);
      TakenTail(base, m0, nodes, blocks, live, own, j, p, n, s, b, mem, b', o');
      BaseMapped(base, mem, nodes, b', live + {b}, o');
      blocks, own, live := b', o', live + {b};
      ValidIs();
      CutTailIs(base, m0, nodes, old(blocks), old(live), old(own), j, n, s, b, mem);
    }

    /** malloc's choice of p, a node after prevp with at least n units: all of it, or its tail. */
    method Take(prevp: int, p: int, n: int, ghost j: nat) returns (b: int)
      requires Valid() && freep != 0 && 1 <= j < |nodes| && nodes[j] == p && nodes[j - 1] == prevp && 0 < n
      requires p in mem && n <= mem[p].size
      modifies this
      ensures Valid() && freep == prevp && freep != 0 && live == old(live) + {b} && own.Keys == old(own.Keys) && b > 0
      ensures b == p + old(mem)[p].size - n
      ensures Kept(old(mem), old(blocks), old(own), mem, blocks, own, old(live)) &&
              HandedOut(old(live), old(own), blocks, own, b, n)
      ensures Cut(old(mem), old(nodes), j, n, b, mem, nodes, freep) && Rests(mem, nodes, freep, b)
    {
      ghost var m0, n0, b0, l0, o0 := mem, nodes, blocks, live, own;
      NodeMapped(base, mem, nodes, blocks, live, own, j);
      NodeMapped(base, mem, nodes, blocks, live, own, j - 1);
      assert base > 0;
      hide *;
      if mem[p].size == n {
        TakeWhole(prevp, p, j);
        b := p;
      } else {
        b := TakeTail(prevp, p, n, j);
      }
      CutRests(base, m0, n0, b0, l0, o0, j, n, b, mem, nodes, freep);
    }

    /** The region sbrk returned, as one block not yet free. */
    method AddRegion(hp: int, n: nat)
      requires Valid() && freep != 0 && FreshRegion(base, own, hp, n)
      modifies this`mem, this`blocks, this`own, this`live
      ensures Valid() && hp !in old(live) && live == old(live) + {hp} && own.Keys == old(own.Keys) + Region(hp, n)
      ensures Kept(old(mem), old(blocks), old(own), mem, blocks, own, old(live)) && hp in blocks && blocks[hp] == n
    {
      ghost var m', b', o' := Grown(mem, hp, n), blocks[hp := n], GrownOwn(own, hp, n);
      Grew(base, mem, nodes, blocks, live, own, hp, n, m', b', o');
      BaseMapped(base, m', nodes, b', live + {hp}, o');
      hide Sound, Kept, GrownOwn, Region;
      mem := Grown(mem, hp, n);
      blocks, own, live := b', o', live + {hp};
    }

    /** morecore, given what sbrk returns: the list has a block of nu units, at the node freep points
        to or at the next. */
    method Morecore(nu: nat, sbrk: Option<int>) returns (p: int, ghost k: nat, ghost x: nat)
      requires Valid() && freep != 0 && (sbrk.Some? ==> FreshRegion(base, own, sbrk.value, Core(nu)))
      modifies this
      ensures Valid() && freep != 0 && live == old(live)
      ensures sbrk.None? ==>
        p == 0 && freep == old(freep) && mem == old(mem) && nodes == old(nodes) && blocks == old(blocks) &&
        own == old(own)
      ensures sbrk.Some? ==> p == freep && own.Keys == old(own.Keys) + Region(sbrk.value, Core(nu))
      ensures Kept(old(mem), old(blocks), old(own), mem, blocks, own, live)
      ensures sbrk.Some? ==>
        k < |nodes| && nodes[k] == freep && (x == k || x == k + 1) && x < |nodes| && nodes[x] in mem &&
        mem[nodes[x]].size >= nu
    {
      k, x := 0, 0;
      if sbrk.None? {
        KeptAll(base, mem, nodes, blocks, live, own);
        return 0, 0, 0;
      }
      var hp := sbrk.value;
      var n := if nu < 4096 then 4096 else nu;
      assert base > 0 && hp > base && n == Core(nu);
      ghost var m0, b0, o0, l0 := mem, blocks, own, live;
      hide Sound, Kept, Landed, Region, Core, FreshRegion;
      AddRegion(hp, n);
      ghost var m1, b1, o1 := mem, blocks, own;
      k, x := Free(hp + 1);
      assert live == l0;
      KeptTrans(m0, b0, o0, m1, b1, o1, mem, blocks, own, live);
      LandedAt(base, mem, nodes, b1, blocks, live, own, hp, k, x);
      p := freep;
    }

    /** The first malloc's empty list. */
    method Init()
      requires Valid() && freep == 0
      modifies this
      ensures Valid() && freep == base && blocks == map[] && live == {} && own == map[] && nodes == [base]
    {
      mem := mem[base := Header(base, 0)];
      freep := base;
      nodes := [base];
      assert nodes[0] in nodes;
      assert Node(mem, nodes, 0) && Gap(mem, nodes, 0, 0, 0);
    }

    /** malloc, given what sbrk would return. It fails exactly when no free block is large enough and
        sbrk fails; it asks for memory exactly when no free block is large enough, and then once. What
        it hands out is a block of the size asked for that nobody had: the tail of the next fit if there
        was one. No live block, nor anything stored in one, has changed. */
    method Malloc(nbytes: uint32, sbrk: Option<int>) returns (r: int)
      requires Valid() && (sbrk.Some? ==> FreshRegion(base, own, sbrk.value, Core(Nunits(nbytes))))
      modifies this
      ensures Valid() && freep != 0
      ensures r == 0 <==> sbrk.None? && !Fits(old(blocks), old(live), Nunits(nbytes))
      ensures r == 0 ==> live == old(live) && own == old(own) && blocks == old(blocks)
      ensures r == 0 && old(freep) != 0 ==> freep == old(freep) && mem == old(mem)
      ensures r != 0 ==>
        live == old(live) + {r - 1} && HandedOut(old(live), old(own), blocks, own, r - 1, Nunits(nbytes))
      ensures Fits(old(blocks), old(live), Nunits(nbytes)) ==>
              NextFit(old(mem), old(nodes), old(freep), Nunits(nbytes), r - 1, mem, nodes, freep)
      ensures r != 0 ==> Rests(mem, nodes, freep, r - 1)
      ensures own.Keys == old(own.Keys) +
        if sbrk.Some? && !Fits(old(blocks), old(live), Nunits(nbytes)) then Region(sbrk.value, Core(Nunits(nbytes)))
          else {}
      ensures Kept(old(mem), old(blocks), old(own), mem, blocks, own, old(live))
    {
      var nunits := (nbytes + 7) % 0x1_0000_0000 / 8 + 1;
      ghost var m0, b0, o0, l0 := mem, blocks, own, live;
      if freep == 0 {
        Init();
      }
      r := Scan(nunits, sbrk);
    }

    /** Two calls in a row: while the block that the first cuts its piece from has room, the second
        cuts its own right below it. */
    method MallocTwice(a: uint32, b: uint32) returns (r: int, s: int)
      requires Valid() && freep != 0
      modifies this
      ensures Valid() && freep != 0
      ensures (exists j :: RoomAt(old(mem), old(nodes), old(freep), Nunits(a), Nunits(b), j)) ==>
              r != 0 && s == r - Nunits(b)
    {
      hide *;
      ghost var m0, n0, f0 := mem, nodes, freep;
      ghost var room := exists j :: RoomAt(m0, n0, f0, Nunits(a), Nunits(b), j);
      ghost var j: nat :| room ==> RoomAt(m0, n0, f0, Nunits(a), Nunits(b), j);
      ValidIs();
      if room {
        NodeFits(base, mem, nodes, blocks, live, own, f0, j, Nunits(a), Nunits(b));
      }
      r := Malloc(a, None);
      ValidIs();
      if room {
        HasRoom(base, m0, n0, f0, mem, nodes, freep, blocks, live, own, Nunits(a), Nunits(b), j, r - 1);
      }
      ghost var m1, n1, f1 := mem, nodes, freep;
      s := Malloc(b, None);
      if room {
        CutTwice(m0, n0, f0, Nunits(a), Nunits(b), j, r - 1, m1, n1, f1, s - 1, mem, nodes, freep);
      }
    }

    /** malloc's loop, from the node after freep. */
    method Scan(n: nat, sbrk: Option<int>) returns (r: int)
      requires Valid() && freep != 0 && n > 0 && (sbrk.Some? ==> FreshRegion(base, own, sbrk.value, Core(n)))
      modifies this
      ensures Valid() && freep != 0
      ensures r == 0 <==> sbrk.None? && !Fits(old(blocks), old(live), n)
      ensures r == 0 ==> live == old(live) && own == old(own) && blocks == old(blocks)
      ensures r == 0 ==> freep == old(freep) && mem == old(mem)
      ensures r != 0 ==> live == old(live) + {r - 1} && HandedOut(old(live), old(own), blocks, own, r - 1, n)
      ensures Fits(old(blocks), old(live), n) ==>
              NextFit(old(mem), old(nodes), old(freep), n, r - 1, mem, nodes, freep)
      ensures r != 0 ==> Rests(mem, nodes, freep, r - 1)
      ensures own.Keys == old(own.Keys) + if sbrk.Some? && !Fits(old(blocks), old(live), n) then
              Region(sbrk.value, Core(n)) else {}
      ensures Kept(old(mem), old(blocks), old(own), mem, blocks, own, old(live))
    {
      ghost var m0, b0, o0, l0 := mem, blocks, own, live;
      ghost var n0, fp0 := nodes, freep;
      hide *;
      ValidIs();
      var prevp := freep;
      ghost var f: nat :| f < |nodes| && nodes[f] == freep;
      ghost var j: nat, d: nat, grown := if f + 1 == |nodes| then 0 else f + 1, f, false;
      Begins(n, sbrk, f);
      var p := mem[prevp].ptr;
      while true
        invariant Scanning(n, sbrk, prevp, p, j, f, d, grown, m0, b0, o0, l0, n0, fp0)
        invariant j < |nodes| && f < |nodes| && (grown ==> d < |nodes|)
        decreases !grown, Left(nodes, j, f, d, grown)
      {
        Standing(n, sbrk, prevp, p, j, f, d, grown, m0, b0, o0, l0, n0, fp0);
        if mem[p].size >= n {
          r := Found(n, sbrk, prevp, p, j, f, d, grown, m0, b0, o0, l0, n0, fp0);
          return;
        }
        if p == freep {
          p, j, f, d := Refill(n, sbrk, prevp, p, j, f, d, grown, m0, b0, o0, l0, n0, fp0);
          if p == 0 {
            return 0;
          }
          grown := true;
        } else {
          ghost var j' := if j + 1 == |nodes| then 0 else j + 1;
          Advance(n, sbrk, prevp, p, j, f, d, grown, j', m0, b0, o0, l0, n0, fp0);
          j := j';
        }
        prevp := p;
        p := mem[p].ptr;
      }
    }

    /** The loop's invariant; the last arguments are the state it began in. */
    ghost predicate Scanning(n: nat, sbrk: Option<int>, prevp: int, p: int, j: nat, f: nat, d: nat, grown: bool,
                             m0: Memory, b0: map<int, int>, o0: map<int, int>, l0: set<int>, n0: seq<int>, fp0: int)
      reads this
    {
      && Valid() && freep != 0 && live == l0 && Walk(mem, nodes, freep, n, prevp, p, j, f, d, grown)
      && Kept(m0, b0, o0, mem, blocks, own, l0) &&
           (sbrk.Some? ==> !grown ==> FreshRegion(base, own, sbrk.value, Core(n)))
      && (!grown ==> mem == m0 && blocks == b0 && own == o0 && nodes == n0 && freep == fp0)
      && (grown ==> sbrk.Some? && !Fits(b0, l0, n) && own.Keys == o0.Keys + Region(sbrk.value, Core(n)))
    }

    lemma Begins(n: nat, sbrk: Option<int>, f: nat)
      requires Valid() && freep != 0 && f < |nodes| && nodes[f] == freep &&
               (sbrk.Some? ==> FreshRegion(base, own, sbrk.value, Core(n)))
      ensures freep in mem
      ensures Scanning(n, sbrk, freep, mem[freep].ptr, if f + 1 == |nodes| then 0
              else f + 1, f, f, false, mem, blocks, own, live, nodes, freep)
    {
      WalkBegins(base, mem, nodes, blocks, live, own, freep, n, f, f, false);
      KeptAll(base, mem, nodes, blocks, live, own);
    }

    lemma Standing(n: nat, sbrk: Option<int>, prevp: int, p: int, j: nat, f: nat, d: nat, grown: bool,
                   m0: Memory, b0: map<int, int>, o0: map<int, int>, l0: set<int>, n0: seq<int>, fp0: int)
      requires Scanning(n, sbrk, prevp, p, j, f, d, grown, m0, b0, o0, l0, n0, fp0)
      ensures p in mem && j < |nodes| && f < |nodes| && (grown ==> d < |nodes|)
    {
      WalkAt(base, mem, nodes, blocks, live, own, freep, n, prevp, p, j, f, d, grown);
    }

    lemma Advance(n: nat, sbrk: Option<int>, prevp: int, p: int, j: nat, f: nat, d: nat, grown: bool, j': nat,
                  m0: Memory, b0: map<int, int>, o0: map<int, int>, l0: set<int>, n0: seq<int>, fp0: int)
      requires Scanning(n, sbrk, prevp, p, j, f, d, grown, m0, b0, o0, l0, n0, fp0)
      requires p in mem && mem[p].size < n && p != freep && j < |nodes| && f < |nodes| && (grown ==> d < |nodes|)
      requires j' == if j + 1 == |nodes| then 0 else j + 1
      ensures Scanning(n, sbrk, p, mem[p].ptr, j', f, d, grown, m0, b0, o0, l0, n0, fp0)
      ensures Left(nodes, j', f, d, grown) < Left(nodes, j, f, d, grown)
    {
      WalkNext(base, mem, nodes, blocks, live, own, freep, n, prevp, p, j, f, d, grown, j');
      hide Sound, Kept, Walk, Fits, Region, Left, FreshRegion, Core;
    }

    /** At a node that is large enough: it can be taken, and before morecore it is the next fit. */
    lemma AtFit(n: nat, sbrk: Option<int>, prevp: int, p: int, j: nat, f: nat, d: nat, grown: bool,
                m0: Memory, b0: map<int, int>, o0: map<int, int>, l0: set<int>, n0: seq<int>, fp0: int)
      requires Scanning(n, sbrk, prevp, p, j, f, d, grown, m0, b0, o0, l0, n0, fp0) && p in mem && mem[p].size >= n > 0
      ensures Valid() && freep != 0 && 1 <= j < |nodes| && nodes[j] == p && nodes[j - 1] == prevp
      ensures live == l0 && Kept(m0, b0, o0, mem, blocks, own, l0)
      ensures own.Keys == o0.Keys + (if grown then Region(sbrk.value, Core(n)) else {})
      ensures (grown <==> !Fits(b0, l0, n)) && (grown ==> sbrk.Some?)
      ensures !grown ==> mem == m0 && nodes == n0 && NextAt(m0, n0, fp0, n, j)
    {
      WalkFits(base, mem, nodes, blocks, live, own, freep, n, prevp, p, j, f, d, grown);
      WalkAt(base, mem, nodes, blocks, live, own, freep, n, prevp, p, j, f, d, grown);
      hide Sound, Kept, Walk, Fits, Region, Core, NextAt;
    }

    method Found(n: nat, sbrk: Option<int>, prevp: int, p: int, ghost j: nat, ghost f: nat, ghost d: nat,
                 ghost grown: bool,
                 ghost m0: Memory, ghost b0: map<int, int>, ghost o0: map<int, int>, ghost l0: set<int>,
                   ghost n0: seq<int>, ghost fp0: int) returns (r: int)
      requires Scanning(n, sbrk, prevp, p, j, f, d, grown, m0, b0, o0, l0, n0, fp0) && p in mem && mem[p].size >= n > 0
      modifies this
      ensures Valid() && freep != 0 && r != 0 && live == l0 + {r - 1} && HandedOut(l0, o0, blocks, own, r - 1, n)
      ensures own.Keys == o0.Keys + (if grown then Region(sbrk.value, Core(n)) else {})
      ensures (grown <==> !Fits(b0, l0, n)) && (grown ==> sbrk.Some?)
      ensures !grown ==> NextFit(m0, n0, fp0, n, r - 1, mem, nodes, freep)
      ensures Rests(mem, nodes, freep, r - 1)
      ensures Kept(m0, b0, o0, mem, blocks, own, l0)
    {
      hide *;
      AtFit(n, sbrk, prevp, p, j, f, d, grown, m0, b0, o0, l0, n0, fp0);
      ghost var m1, b1, o1 := mem, blocks, own;
      var b := Take(prevp, p, n, j);
      KeptTrans(m0, b0, o0, m1, b1, o1, mem, blocks, own, l0);
      HandedTrans(m0, b0, o0, m1, b1, o1, l0, blocks, own, b, n);
      r := b + 1;
      if !grown {
        FromNextFit(m0, n0, fp0, n, j, b, mem, nodes, freep);
      }
    }

    method Refill(n: nat, sbrk: Option<int>, prevp: int, p0: int, ghost j0: nat, ghost f0: nat, ghost d0: nat,
                  ghost grown: bool,
                  ghost m0: Memory, ghost b0: map<int, int>, ghost o0: map<int, int>, ghost l0: set<int>,
                    ghost n0: seq<int>, ghost fp0: int)
      returns (p: int, ghost j: nat, ghost f: nat, ghost d: nat)
      requires Scanning(n, sbrk, prevp, p0, j0, f0, d0, grown, m0, b0, o0, l0, n0, fp0) && p0 in mem &&
               mem[p0].size < n && p0 == freep
      modifies this
      ensures !grown && !Fits(b0, l0, n) && Valid() && freep != 0
      ensures p == 0 <==> sbrk.None?
      ensures p == 0 ==> live == l0 && own == o0 && blocks == b0 && Kept(m0, b0, o0, mem, blocks, own, l0)
      ensures p == 0 ==> freep == fp0 && mem == m0
      ensures p != 0 ==>
        p in mem && Scanning(n, sbrk, p, mem[p].ptr, j, f, d, true, m0, b0, o0, l0, n0, fp0) && j < |nodes| &&
        f < |nodes| && d < |nodes|
    {
      WalkEnds(base, mem, nodes, blocks, live, own, freep, n, prevp, p0, j0, f0, d0, grown);
      ghost var m1, b1, o1 := mem, blocks, own;
      hide Sound, Kept, Walk, Fits, Region, FreshRegion, Core;
      p, f, d := Morecore(n, sbrk);
      KeptTrans(m0, b0, o0, m1, b1, o1, mem, blocks, own, l0);
      j := 0;
      if p != 0 {
        WalkBegins(base, mem, nodes, blocks, live, own, freep, n, f, d, true);
        j := if f + 1 == |nodes| then 0 else f + 1;
      }
    }
  }

  lemma FromNextFit(mem: Memory, nodes: seq<int>, freep: int, n: int, j: nat, b: int, mem': Memory, nodes': seq<int>,
                    freep': int)
    requires NextAt(mem, nodes, freep, n, j) && Cut(mem, nodes, j, n, b, mem', nodes', freep')
    ensures NextFit(mem, nodes, freep, n, b, mem', nodes', freep')
  {
  }

  lemma CutWhole(mem: Memory, nodes: seq<int>, j: nat, mem': Memory)
    requires 1 <= j < |nodes| && nodes[j] in mem
    ensures Cut(mem, nodes, j, mem[nodes[j]].size, nodes[j], mem', RemoveAt(nodes, j), nodes[j - 1])
  {
  }

  lemma CutTailIs(base: int, mem: Memory, nodes: seq<int>, blocks: map<int, int>, live: set<int>, own: map<int, int>,
                  j: nat, n: nat, s: nat, b: int, mem': Memory)
    requires Sound(base, mem, nodes, blocks, live, own, 0, 0)
    requires 1 <= j < |nodes| && nodes[j] in mem && nodes[j - 1] in mem
    requires 0 < n && 0 < s && n + s == mem[nodes[j]].size && b == nodes[j] + s && b in mem
    requires mem' == Split(mem, nodes[j], n, s)
    ensures Cut(mem, nodes, j, n, b, mem', nodes, nodes[j - 1])
    ensures nodes[j - 1] in mem' && mem'[nodes[j - 1]].size == mem[nodes[j - 1]].size
  {
  }

  lemma WalkAt(base: int, mem: Memory, nodes: seq<int>, blocks: map<int, int>, live: set<int>, own: map<int, int>,
               freep: int, n: int,
               prevp: int, p: int, j: nat, f: nat, d: nat, grown: bool)
    requires Sound(base, mem, nodes, blocks, live, own, 0, 0) && Walk(mem, nodes, freep, n, prevp, p, j, f, d, grown)
    ensures p in mem && j < |nodes| && p == nodes[j] && f < |nodes| && nodes[f] == freep && (grown ==> d < |nodes|)
  {
    NodeMapped(base, mem, nodes, blocks, live, own, j);
  }

  lemma KeptAll(base: int, mem: Memory, nodes: seq<int>, blocks: map<int, int>, live: set<int>, own: map<int, int>)
    requires Sound(base, mem, nodes, blocks, live, own, 0, 0)
    ensures Kept(mem, blocks, own, mem, blocks, own, live)
  {
  }

  lemma LandedAt(base: int, mem: Memory, nodes: seq<int>, blocks0: map<int, int>, blocks: map<int, int>,
                 live: set<int>, own: map<int, int>, bp: int, k: nat, x: nat)
    requires Sound(base, mem, nodes, blocks, live, own, 0, 0) && Landed(blocks0, bp, nodes, blocks, k, x)
    ensures (x == k || x == k + 1) && x < |nodes| && nodes[x] in mem && bp in blocks0 &&
            mem[nodes[x]].size >= blocks0[bp]
  {
  }
}
