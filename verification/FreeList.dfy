/** The allocator's memory, in units of one 8-byte header: a circular free list in address
    order, and which block every unit obtained from the kernel belongs to. */
module FreeList {
  /** User addresses end here: 0x80000000 bytes. */
  const LIMIT: nat := 0x1000_0000

  datatype Header = Header(ptr: int, size: int)

  type Memory = map<int, Header>

  function Next(nodes: seq<int>, k: nat): int
    requires k < |nodes|
  {
    nodes[if k + 1 == |nodes| then 0 else k + 1]
  }

  ghost predicate Node(mem: Memory, nodes: seq<int>, k: nat)
    requires k < |nodes|
  {
    nodes[k] in mem && mem[nodes[k]].ptr == Next(nodes, k) && (k > 0 ==> mem[nodes[k]].size > 0)
  }

  /** Node k ends before the next one in address order, if there is one, and with a gap unless k
      is among the positions from lo to hi. */
  ghost predicate Gap(mem: Memory, nodes: seq<int>, k: nat, lo: nat, hi: nat)
    requires k < |nodes|
  {
    nodes[k] in mem && (k + 1 < |nodes| ==>
      nodes[k] + mem[nodes[k]].size + (if lo <= k < hi then 0 else 1) <= nodes[k + 1])
  }

  ghost predicate Increasing(nodes: seq<int>) {
    forall j, k | 0 <= j < k < |nodes| :: nodes[j] < nodes[k]
  }

  /** The free list is circular from base, which has size 0, and strictly increasing in address
      up to its end. Blocks do not overlap, and outside positions lo to hi no block touches the
      next: the list is fully coalesced when lo == hi. */
  ghost predicate Ring(base: int, mem: Memory, nodes: seq<int>, lo: nat, hi: nat) {
    && 0 < |nodes| && nodes[0] == base && base in mem && mem[base].size == 0
    && Increasing(nodes)
    && (forall k: nat | k < |nodes| :: Node(mem, nodes, k))
    && (forall k: nat | k < |nodes| :: Gap(mem, nodes, k, lo, hi))
  }

  ghost predicate Covers(own: map<int, int>, b: int, n: int) {
    forall u | b <= u < b + n :: u in own && own[u] == b
  }

  /** A unit belongs to a block it lies in. */
  ghost predicate Inside(blocks: map<int, int>, own: map<int, int>) {
    forall u | u in own :: own[u] in blocks && own[u] <= u < own[u] + blocks[own[u]]
  }

  /** The units of a block belong to it. */
  ghost predicate Covered(blocks: map<int, int>, own: map<int, int>) {
    forall b | b in blocks :: blocks[b] > 0 && Covers(own, b, blocks[b])
  }

  /** Every unit belongs to exactly one block, and blocks consist of such units. */
  ghost predicate Tiled(blocks: map<int, int>, own: map<int, int>) {
    Inside(blocks, own) && Covered(blocks, own)
  }

  /** The blocks that are not live are those in the list, and headers hold their sizes. */
  ghost predicate Listed(base: int, mem: Memory, nodes: seq<int>, blocks: map<int, int>, live: set<int>) {
    && live <= blocks.Keys
    && (forall b | b in nodes && b != base :: b in blocks && b !in live)
    && (forall b | b in blocks && b !in live :: b in nodes && b != base)
    && (forall b | b in blocks :: b in mem && mem[b].size == blocks[b])
  }

  ghost predicate InUserSpace(base: int, mem: Memory, own: map<int, int>) {
    forall u | u in own :: base < u < LIMIT && u in mem
  }

  /** The allocator's invariant: the list, and the blocks it and its users divide all the units
      obtained from the kernel into. */
  ghost predicate Sound(base: int, mem: Memory, nodes: seq<int>, blocks: map<int, int>, live: set<int>,
                        own: map<int, int>, lo: nat, hi: nat) {
    Ring(base, mem, nodes, lo, hi) && Tiled(blocks, own) && Listed(base, mem, nodes, blocks, live) &&
      InUserSpace(base, mem, own)
  }

  /** Where a block at bp belongs: after nodes[k] and before the next node, if any. */
  ghost predicate Spot(nodes: seq<int>, bp: int, k: nat) {
    k < |nodes| && nodes[k] < bp && (k + 1 < |nodes| ==> bp < nodes[k + 1])
  }

  /** Steps along the ring from position j to position k. */
  function Steps(n: nat, j: nat, k: nat): nat
    requires j < n && k < n
  {
    if j <= k then k - j else k + n - j
  }

  lemma SpotUnique(nodes: seq<int>, bp: int, k: nat, m: nat)
    requires Increasing(nodes) && Spot(nodes, bp, k) && Spot(nodes, bp, m)
    ensures m == k
  {
  }

  /** There is exactly one place for a block above base. */
  lemma SpotExists(nodes: seq<int>, bp: int) returns (k: nat)
    requires 0 < |nodes| && nodes[0] < bp && bp !in nodes
    requires Increasing(nodes)
    ensures Spot(nodes, bp, k) && forall m: nat | Spot(nodes, bp, m) :: m == k
  {
    k := 0;
    while k + 1 < |nodes| && nodes[k + 1] < bp
      invariant k < |nodes| && nodes[k] < bp
    {
      k := k + 1;
    }
    forall m: nat | Spot(nodes, bp, m) ensures m == k {
      SpotUnique(nodes, bp, k, m);
    }
  }

  // ---- free ----

  function InsertAt(s: seq<int>, k: nat, b: int): (r: seq<int>)
    requires k <= |s|
    ensures |r| == |s| + 1 && r[k] == b
    ensures forall x: nat | x < k :: r[x] == s[x]
    ensures forall x: nat | k < x <= |s| :: r[x] == s[x - 1]
    ensures forall b' :: b' in r <==> b' in s || b' == b
  {
    assert s == s[..k] + s[k..];
    s[..k] + [b] + s[k..]
  }

  function RemoveAt(s: seq<int>, k: nat): (r: seq<int>)
    requires k < |s|
    ensures |r| == |s| - 1
    ensures forall x: nat | x < k :: r[x] == s[x]
    ensures forall x: nat | k <= x < |r| :: r[x] == s[x + 1]
    ensures forall b' | b' in r :: b' in s
    ensures forall b' | b' in s && b' != s[k] :: b' in r
  {
    assert s == s[..k] + [s[k]] + s[k + 1..];
    s[..k] + s[k + 1..]
  }

  lemma NodeIsBlock(base: int, mem: Memory, nodes: seq<int>, blocks: map<int, int>, live: set<int>, own: map<int, int>,
                    lo: nat, hi: nat, k: nat)
    requires Sound(base, mem, nodes, blocks, live, own, lo, hi) && 1 <= k < |nodes|
    ensures nodes[k] in blocks && nodes[k] !in live && nodes[k] in mem && mem[nodes[k]].size == blocks[nodes[k]] > 0
    ensures Covers(own, nodes[k], blocks[nodes[k]]) && nodes[k] in own && own[nodes[k]] == nodes[k]
    ensures base < nodes[k]
  {
    assert nodes[k] in nodes && nodes[0] < nodes[k];
    assert Covers(own, nodes[k], blocks[nodes[k]]);
  }

  /** A live block lies between its neighbours in the list. */
  lemma Between(base: int, mem: Memory, nodes: seq<int>, blocks: map<int, int>, live: set<int>, own: map<int, int>,
                bp: int, k: nat)
    requires Sound(base, mem, nodes, blocks, live, own, 0, 0) && bp in live && Spot(nodes, bp, k)
    ensures nodes[k] in mem && bp in mem && mem[bp].size > 0 && bp !in nodes && base < bp
    ensures nodes[k] + mem[nodes[k]].size <= bp && (k + 1 < |nodes| ==> bp + mem[bp].size <= nodes[k + 1])
  {
    assert Covers(own, bp, blocks[bp]);
    assert bp in own && own[bp] == bp;
    assert Node(mem, nodes, k);
    if k > 0 {
      NodeIsBlock(base, mem, nodes, blocks, live, own, 0, 0, k);
    }
    if k + 1 < |nodes| {
      NodeIsBlock(base, mem, nodes, blocks, live, own, 0, 0, k + 1);
    }
  }

  /** bp linked in after nodes[k], no merging yet. */
  function Linked(mem: Memory, nodes: seq<int>, k: nat, bp: int): Memory
    requires k < |nodes| && nodes[k] in mem && bp in mem
  {
    mem[bp := Header(Next(nodes, k), mem[bp].size)][nodes[k] := Header(bp, mem[nodes[k]].size)]
  }

  lemma InsertIncreasing(nodes: seq<int>, k: nat, bp: int)
    requires Increasing(nodes) && Spot(nodes, bp, k) && bp !in nodes
    ensures Increasing(InsertAt(nodes, k + 1, bp))
  {
    var n' := InsertAt(nodes, k + 1, bp);
    forall i, j | 0 <= i < j < |n'| ensures n'[i] < n'[j] {
      var i', j' := if i <= k then i else i - 1, if j <= k then j else j - 1;
      assert i' < j' ==> nodes[i'] < nodes[j'];
      assert i' <= k ==> nodes[i'] <= nodes[k];
      assert j' > k ==> nodes[k + 1] <= nodes[j'];
    }
  }

  lemma LinkedNode(base: int, mem: Memory, nodes: seq<int>, k: nat, bp: int, x: nat)
    requires Ring(base, mem, nodes, 0, 0) && Spot(nodes, bp, k) && bp in mem && mem[bp].size > 0 && bp !in nodes &&
             nodes[k] in mem
    requires nodes[k] + mem[nodes[k]].size <= bp && (k + 1 < |nodes| ==> bp + mem[bp].size <= nodes[k + 1]) &&
             x <= |nodes|
    ensures Node(Linked(mem, nodes, k, bp), InsertAt(nodes, k + 1, bp), x) &&
            Gap(Linked(mem, nodes, k, bp), InsertAt(nodes, k + 1, bp), x, k, k + 2)
  {
    if x <= k {
      assert Node(mem, nodes, x) && Gap(mem, nodes, x, 0, 0);
    } else if x > k + 1 {
      assert Node(mem, nodes, x - 1) && Gap(mem, nodes, x - 1, 0, 0);
    }
  }

  lemma LinkRing(base: int, mem: Memory, nodes: seq<int>, k: nat, bp: int)
    requires Ring(base, mem, nodes, 0, 0) && Spot(nodes, bp, k) && bp in mem && mem[bp].size > 0 && bp !in nodes &&
             nodes[k] in mem
    requires nodes[k] + mem[nodes[k]].size <= bp && (k + 1 < |nodes| ==> bp + mem[bp].size <= nodes[k + 1])
    ensures Ring(base, Linked(mem, nodes, k, bp), InsertAt(nodes, k + 1, bp), k, k + 2)
  {
    hide Node, Gap, Increasing;
    var m', n' := Linked(mem, nodes, k, bp), InsertAt(nodes, k + 1, bp);
    assert nodes[0] in nodes && n'[0] == base && m'[base].size == 0;
    InsertIncreasing(nodes, k, bp);
    var hi := k + 2;
    forall x: nat | x < |n'| ensures Node(m', n', x) && Gap(m', n', x, k, hi) {
      LinkedNode(base, mem, nodes, k, bp, x);
    }
  }

  /** Node k + 1 joined to node k, which it touches. */
  function Joined(mem: Memory, nodes: seq<int>, k: nat): Memory
    requires k + 1 < |nodes| && nodes[k] in mem && nodes[k + 1] in mem
  {
    mem[nodes[k] := Header(mem[nodes[k + 1]].ptr, mem[nodes[k]].size + mem[nodes[k + 1]].size)]
  }

  lemma JoinRing(base: int, mem: Memory, nodes: seq<int>, k: nat, lo: nat, hi: nat)
    requires Ring(base, mem, nodes, lo, hi) && hi == k + 1 && 1 <= k < |nodes| - 1 && nodes[k] in mem &&
             nodes[k] + mem[nodes[k]].size == nodes[k + 1]
    ensures nodes[k + 1] in mem && Ring(base, Joined(mem, nodes, k), RemoveAt(nodes, k + 1), lo, k)
  {
    assert Node(mem, nodes, k) && Node(mem, nodes, k + 1) && Gap(mem, nodes, k + 1, lo, hi);
    var m', n' := Joined(mem, nodes, k), RemoveAt(nodes, k + 1);
    forall x: nat | x < |n'| ensures Node(m', n', x) && Gap(m', n', x, lo, k) {
      if x < k {
        assert Node(mem, nodes, x) && Gap(mem, nodes, x, lo, hi);
      } else if x > k {
        assert Node(mem, nodes, x + 1) && Gap(mem, nodes, x + 1, lo, hi);
      }
    }
  }

  lemma LinkListed(base: int, mem: Memory, nodes: seq<int>, blocks: map<int, int>, live: set<int>, k: nat, bp: int)
    requires Listed(base, mem, nodes, blocks, live) && bp in live && bp != base && k < |nodes| && nodes[k] in mem &&
             bp in mem
    ensures Listed(base, Linked(mem, nodes, k, bp), InsertAt(nodes, k + 1, bp), blocks, live - {bp})
  {
    hide InsertAt;
  }

  lemma Link(base: int, mem: Memory, nodes: seq<int>, blocks: map<int, int>, live: set<int>, own: map<int, int>,
             k: nat, bp: int)
    requires Sound(base, mem, nodes, blocks, live, own, 0, 0) && Spot(nodes, bp, k) && bp in live
    ensures nodes[k] in mem && bp in mem
    ensures Sound(base, Linked(mem, nodes, k, bp), InsertAt(nodes, k + 1, bp), blocks, live - {bp}, own, k, k + 2)
  {
    Between(base, mem, nodes, blocks, live, own, bp, k);
    LinkRing(base, mem, nodes, k, bp);
    LinkListed(base, mem, nodes, blocks, live, k, bp);
    hide Ring, Tiled, Listed, InsertAt;
  }

  /** The units of block b moved to block b'. */
  function Moved(own: map<int, int>, b: int, b': int): map<int, int> {
    map u | u in own :: if own[u] == b then b' else own[u]
  }

  lemma JoinTiled(blocks: map<int, int>, own: map<int, int>, p: int, q: int)
    requires Tiled(blocks, own) && p in blocks && q in blocks && p + blocks[p] == q
    ensures Tiled((blocks - {q})[p := blocks[p] + blocks[q]], Moved(own, q, p))
  {
    var b', o' := (blocks - {q})[p := blocks[p] + blocks[q]], Moved(own, q, p);
    forall b | b in b' ensures Covers(o', b, b'[b]) {
      assert Covers(own, b, blocks[b]) && Covers(own, q, blocks[q]);
    }
  }

  /** Outside position k the nodes differ from node k. */
  lemma Removed(nodes: seq<int>, k: nat)
    requires Increasing(nodes) && k < |nodes|
    ensures nodes[k] !in RemoveAt(nodes, k)
  {
    var r := RemoveAt(nodes, k);
    forall x: nat | x < |r| ensures r[x] != nodes[k] {
      assert r[x] == nodes[if x < k then x else x + 1];
    }
  }

  lemma JoinListed(base: int, mem: Memory, nodes: seq<int>, blocks: map<int, int>, live: set<int>, k: nat)
    requires Listed(base, mem, nodes, blocks, live) && k + 1 < |nodes| && nodes[k] in mem && nodes[k + 1] in mem
    requires nodes[k] in blocks && nodes[k + 1] in blocks && nodes[k + 1] !in RemoveAt(nodes, k + 1) &&
             nodes[k + 1] !in live
    requires nodes[k] != nodes[k + 1]
    ensures Listed(base, Joined(mem, nodes, k), RemoveAt(nodes, k + 1),
                   (blocks - {nodes[k + 1]})[nodes[k] := blocks[nodes[k]] + blocks[nodes[k + 1]]], live)
  {
    hide RemoveAt;
    assert nodes[k] in nodes && nodes[k + 1] in nodes;
  }

  lemma Join(base: int, mem: Memory, nodes: seq<int>, blocks: map<int, int>, live: set<int>, own: map<int, int>,
             k: nat, lo: nat, hi: nat,
             p: int, q: int)
    requires Sound(base, mem, nodes, blocks, live, own, lo, hi) && hi == k + 1 && 1 <= k < |nodes| - 1 &&
             p == nodes[k] && q == nodes[k + 1]
    requires p in mem && p + mem[p].size == q
    ensures q in mem && p in blocks && q in blocks
    ensures Sound(base, Joined(mem, nodes, k), RemoveAt(nodes, k + 1), (blocks - {q})[p := blocks[p] + blocks[q]],
            live, Moved(own, q, p), lo, k)
  {
    NodeIsBlock(base, mem, nodes, blocks, live, own, lo, hi, k);
    NodeIsBlock(base, mem, nodes, blocks, live, own, lo, hi, k + 1);
    assert p < q && Increasing(nodes);
    hide Ring, Tiled, Listed, RemoveAt, Increasing, Covers;
    JoinRing(base, mem, nodes, k, lo, hi);
    JoinTiled(blocks, own, p, q);
    Removed(nodes, k + 1);
    JoinListed(base, mem, nodes, blocks, live, k);
    assert InUserSpace(base, Joined(mem, nodes, k), Moved(own, q, p));
  }

  // ---- malloc ----

  /** Node k, an exact fit, taken out of the list. */
  function Unlinked(mem: Memory, nodes: seq<int>, k: nat): Memory
    requires 1 <= k < |nodes| && nodes[k - 1] in mem && nodes[k] in mem
  {
    mem[nodes[k - 1] := Header(mem[nodes[k]].ptr, mem[nodes[k - 1]].size)]
  }

  lemma UnlinkRing(base: int, mem: Memory, nodes: seq<int>, k: nat)
    requires Ring(base, mem, nodes, 0, 0) && 1 <= k < |nodes|
    ensures nodes[k - 1] in mem && nodes[k] in mem && Ring(base, Unlinked(mem, nodes, k), RemoveAt(nodes, k), 0, 0)
  {
    assert Node(mem, nodes, k - 1) && Node(mem, nodes, k) && Gap(mem, nodes, k - 1, 0, 0);
    var m', n' := Unlinked(mem, nodes, k), RemoveAt(nodes, k);
    forall x: nat | x < |n'| ensures Node(m', n', x) && Gap(m', n', x, 0, 0) {
      if x < k {
        assert Node(mem, nodes, x) && Gap(mem, nodes, x, 0, 0);
      } else {
        assert Node(mem, nodes, x + 1) && Gap(mem, nodes, x + 1, 0, 0);
      }
    }
  }

  lemma UnlinkListed(base: int, mem: Memory, nodes: seq<int>, blocks: map<int, int>, live: set<int>, k: nat)
    requires Listed(base, mem, nodes, blocks, live) && 1 <= k < |nodes| && nodes[k - 1] in mem && nodes[k] in mem
    requires nodes[k] in blocks && nodes[k] !in RemoveAt(nodes, k) && (nodes[k - 1] in blocks || nodes[k - 1] == base)
    ensures Listed(base, Unlinked(mem, nodes, k), RemoveAt(nodes, k), blocks, live + {nodes[k]})
  {
    hide RemoveAt;
  }

  lemma Unlink(base: int, mem: Memory, nodes: seq<int>, blocks: map<int, int>, live: set<int>, own: map<int, int>,
               k: nat)
    requires Sound(base, mem, nodes, blocks, live, own, 0, 0) && 1 <= k < |nodes|
    ensures nodes[k - 1] in mem && nodes[k] in mem
    ensures Sound(base, Unlinked(mem, nodes, k), RemoveAt(nodes, k), blocks, live + {nodes[k]}, own, 0, 0)
  {
    NodeIsBlock(base, mem, nodes, blocks, live, own, 0, 0, k);
    if k > 1 {
      NodeIsBlock(base, mem, nodes, blocks, live, own, 0, 0, k - 1);
    }
    UnlinkRing(base, mem, nodes, k);
    Removed(nodes, k);
    UnlinkListed(base, mem, nodes, blocks, live, k);
    hide Ring, Tiled, Listed, RemoveAt;
  }

  /** The last n units of block b split off. */
  function Split(mem: Memory, b: int, n: int, s: int): Memory
    requires b in mem && b + s in mem
  {
    mem[b := Header(mem[b].ptr, s)][b + s := Header(mem[b + s].ptr, n)]
  }

  function SplitOwn(own: map<int, int>, b: int, at: int): map<int, int> {
    map u | u in own :: if own[u] == b && u >= at then at else own[u]
  }

  lemma SplitRing(base: int, mem: Memory, nodes: seq<int>, k: nat, n: int, s: int)
    requires Ring(base, mem, nodes, 0, 0) && 1 <= k < |nodes| && nodes[k] in mem
    requires 0 < n && 0 < s && n + s == mem[nodes[k]].size && nodes[k] + s in mem
    ensures Ring(base, Split(mem, nodes[k], n, s), nodes, 0, 0) && nodes[k] + s !in nodes
  {
    var b := nodes[k] + s;
    var m' := Split(mem, nodes[k], n, s);
    assert Gap(mem, nodes, k, 0, 0);
    forall x: nat | x < |nodes| ensures nodes[x] != b && Node(m', nodes, x) && Gap(m', nodes, x, 0, 0) {
      assert Node(mem, nodes, x) && Gap(mem, nodes, x, 0, 0);
      assert x > k ==> nodes[k + 1] <= nodes[x];
    }
  }

  lemma SplitTiled(blocks: map<int, int>, own: map<int, int>, p: int, n: int, s: int, at: int)
    requires Tiled(blocks, own) && p in blocks && 0 < n && 0 < s && n + s == blocks[p] && at == p + s
    ensures at in own && at !in blocks && Tiled(blocks[p := s][at := n], SplitOwn(own, p, at))
  {
    assert at in own && own[at] == p by {
      assert Covers(own, p, blocks[p]);
    }
    assert at !in blocks by {
      if at in blocks {
        BlockIsOwn(blocks, own, at);
      }
    }
    var b', o' := blocks[p := s][at := n], SplitOwn(own, p, at);
    assert Inside(b', o') by {
      hide Covered;
    }
    assert Covered(b', o') by {
      hide Inside;
      forall b | b in b' ensures b'[b] > 0 && Covers(o', b, b'[b]) {
        assert Covers(own, if b == at then p else b, blocks[if b == at then p else b]);
      }
    }
  }

  lemma BlockIsOwn(blocks: map<int, int>, own: map<int, int>, b: int)
    requires Tiled(blocks, own) && b in blocks
    ensures b in own && own[b] == b
  {
    assert Covers(own, b, blocks[b]);
  }

  lemma SplitListed(base: int, mem: Memory, nodes: seq<int>, blocks: map<int, int>, live: set<int>, p: int, n: int,
                    s: int)
    requires Listed(base, mem, nodes, blocks, live) && p in blocks && p !in live && 0 < n && 0 < s && n + s == blocks[p]
    requires p in mem && mem[p].size == blocks[p] && p + s in mem && p + s !in blocks && p + s !in nodes &&
             p + s != base
    ensures Listed(base, Split(mem, p, n, s), nodes, blocks[p := s][p + s := n], live + {p + s})
  {
  }

  lemma SplitOff(base: int, mem: Memory, nodes: seq<int>, blocks: map<int, int>, live: set<int>, own: map<int, int>,
                 k: nat, n: int, s: int,
                 p: int, at: int, m': Memory, b': map<int, int>, o': map<int, int>)
    requires Sound(base, mem, nodes, blocks, live, own, 0, 0) && 1 <= k < |nodes| && p == nodes[k] && p in mem
    requires 0 < n && 0 < s && n + s == mem[p].size && at == p + s && at in mem
    requires m' == Split(mem, p, n, s) && b' == blocks[p := s][at := n] && o' == SplitOwn(own, p, at)
    ensures at in own && at !in blocks && Sound(base, m', nodes, b', live + {at}, o', 0, 0)
  {
    NodeIsBlock(base, mem, nodes, blocks, live, own, 0, 0, k);
    SplitTiled(blocks, own, p, n, s, at);
    SplitRing(base, mem, nodes, k, n, s);
    SplitListed(base, mem, nodes, blocks, live, p, n, s);
    assert InUserSpace(base, m', o');
    hide Ring, Tiled, Listed, Split, SplitOwn, InUserSpace;
  }

  /** The unit where node k would be cut. */
  lemma CutMapped(base: int, mem: Memory, nodes: seq<int>, blocks: map<int, int>, live: set<int>, own: map<int, int>,
                  k: nat, s: int)
    requires Sound(base, mem, nodes, blocks, live, own, 0, 0) && 1 <= k < |nodes| && nodes[k] in mem &&
             0 < s < mem[nodes[k]].size
    ensures nodes[k] + s in mem
  {
    NodeIsBlock(base, mem, nodes, blocks, live, own, 0, 0, k);
  }

  // ---- morecore ----

  /** nu units at hp, none of which anybody had. */
  ghost predicate FreshRegion(base: int, own: map<int, int>, hp: int, nu: nat) {
    base < hp && 0 < nu && hp + nu <= LIMIT && forall u | hp <= u < hp + nu :: u !in own
  }

  predicate Within(u: int, hp: int, nu: nat) {
    hp <= u < hp + nu
  }

  /** The kernel's zeroed pages, with the header of one block covering them. */
  function Grown(mem: Memory, hp: int, nu: nat): Memory {
    (mem + map u: int | hp <= u < hp + nu && Within(u, hp, nu) :: Header(0, 0))[hp := Header(0, nu)]
  }

  function GrownOwn(own: map<int, int>, hp: int, nu: nat): map<int, int> {
    own + map u: int | hp <= u < hp + nu && Within(u, hp, nu) :: hp
  }

  lemma GrowTiled(blocks: map<int, int>, own: map<int, int>, base: int, hp: int, nu: nat)
    requires Tiled(blocks, own) && FreshRegion(base, own, hp, nu)
    ensures hp !in blocks && Tiled(blocks[hp := nu], GrownOwn(own, hp, nu))
  {
    assert hp in blocks ==> Covers(own, hp, blocks[hp]);
    var b', o' := blocks[hp := nu], GrownOwn(own, hp, nu);
    forall b | b in b' ensures Covers(o', b, b'[b]) {
      assert b in blocks ==> Covers(own, b, blocks[b]);
      assert b == hp ==> forall u | hp <= u < hp + nu :: Within(u, hp, nu);
    }
  }

  lemma GrowRing(base: int, mem: Memory, nodes: seq<int>, hp: int, nu: nat)
    requires Ring(base, mem, nodes, 0, 0) && forall x: nat | x < |nodes| :: !Within(nodes[x], hp, nu)
    requires nu > 0
    ensures Ring(base, Grown(mem, hp, nu), nodes, 0, 0)
  {
    var m' := Grown(mem, hp, nu);
    assert nodes[0] == base;
    assert Within(hp, hp, nu);
    forall x: nat | x < |nodes| ensures Node(m', nodes, x) && Gap(m', nodes, x, 0, 0) {
      assert Node(mem, nodes, x) && Gap(mem, nodes, x, 0, 0);
    }
  }

  lemma GrowListed(base: int, mem: Memory, nodes: seq<int>, blocks: map<int, int>, live: set<int>, hp: int, nu: nat)
    requires Listed(base, mem, nodes, blocks, live) && hp !in blocks && hp !in nodes && hp != base && nu > 0
    requires forall b | b in blocks :: !Within(b, hp, nu)
    ensures Listed(base, Grown(mem, hp, nu), nodes, blocks[hp := nu], live + {hp})
  {
  }

  /** The region enters as one live block, which morecore then frees. */
  lemma Grow(base: int, mem: Memory, nodes: seq<int>, blocks: map<int, int>, live: set<int>, own: map<int, int>,
             hp: int, nu: nat)
    requires Sound(base, mem, nodes, blocks, live, own, 0, 0) && FreshRegion(base, own, hp, nu)
    ensures hp !in blocks
    ensures Sound(base, Grown(mem, hp, nu), nodes, blocks[hp := nu], live + {hp}, GrownOwn(own, hp, nu), 0, 0)
  {
    GrowTiled(blocks, own, base, hp, nu);
    forall x: nat | x < |nodes| ensures !Within(nodes[x], hp, nu) {
      if x > 0 {
        NodeIsBlock(base, mem, nodes, blocks, live, own, 0, 0, x);
      }
    }
    assert hp !in nodes by {
      assert Within(hp, hp, nu);
    }
    forall b | b in blocks ensures !Within(b, hp, nu) {
      BlockIsOwn(blocks, own, b);
    }
    GrowRing(base, mem, nodes, hp, nu);
    GrowListed(base, mem, nodes, blocks, live, hp, nu);
    hide Ring, Tiled, Listed;
  }

  /** Once the two touching positions turn out to have a gap, the list is coalesced there too. */
  lemma Narrow(base: int, mem: Memory, nodes: seq<int>, k: nat, lo: nat, hi: nat)
    requires Ring(base, mem, nodes, lo, hi) && hi == k + 1 && k < |nodes|
    requires nodes[k] in mem && (k + 1 < |nodes| ==> nodes[k] + mem[nodes[k]].size != nodes[k + 1])
    ensures Ring(base, mem, nodes, lo, k)
  {
    forall x: nat | x < |nodes| ensures Gap(mem, nodes, x, lo, k) {
      assert Gap(mem, nodes, x, lo, hi);
    }
  }

  lemma NarrowSound(base: int, mem: Memory, nodes: seq<int>, blocks: map<int, int>, live: set<int>, own: map<int, int>,
                    k: nat, lo: nat, hi: nat)
    requires Sound(base, mem, nodes, blocks, live, own, lo, hi) && hi == k + 1 && k < |nodes|
    requires nodes[k] in mem && (k + 1 < |nodes| ==> nodes[k] + mem[nodes[k]].size != nodes[k + 1])
    ensures Sound(base, mem, nodes, blocks, live, own, lo, k)
  {
    Narrow(base, mem, nodes, k, lo, hi);
  }

  /** An empty range of positions excuses nothing, wherever it is. */
  lemma WindowClosed(base: int, mem: Memory, nodes: seq<int>, blocks: map<int, int>, live: set<int>,
                     own: map<int, int>, k: nat)
    requires Sound(base, mem, nodes, blocks, live, own, k, k)
    ensures Sound(base, mem, nodes, blocks, live, own, 0, 0)
  {
    hide Tiled, Listed;
    forall x: nat | x < |nodes| ensures Gap(mem, nodes, x, 0, 0) {
      assert Gap(mem, nodes, x, k, k);
    }
  }

  // ---- conservation ----

  /** Units in the blocks of s at addresses below n. */
  function Units(blocks: map<int, int>, s: set<int>, n: nat): int
    requires s <= blocks.Keys
  {
    if n == 0 then 0 else Units(blocks, s, n - 1) + if n - 1 in s then blocks[n - 1] else 0
  }

  function Run(b: int, n: nat): (r: set<int>)
    ensures |r| == n && forall u :: u in r <==> b <= u < b + n
  {
    if n == 0 then {} else Run(b, n - 1) + {b + n - 1}
  }

  /** The units that belong to blocks of s at addresses below n. */
  ghost function UnitsOf(own: map<int, int>, s: set<int>, n: nat): set<int> {
    set u | u in own && own[u] in s && 0 <= own[u] < n
  }

  lemma OneBlock(blocks: map<int, int>, own: map<int, int>, s: set<int>, b: nat)
    requires Tiled(blocks, own) && b in blocks && b in s
    ensures |UnitsOf(own, s, b + 1)| == |UnitsOf(own, s, b)| + blocks[b]
  {
    var a, z, r := UnitsOf(own, s, b), UnitsOf(own, s, b + 1), Run(b, blocks[b]);
    assert Covers(own, b, blocks[b]);
    assert forall u | u in z :: u in a || u in r;
    assert forall u | u in r :: u in z && u !in a;
    hide Tiled, UnitsOf, Covers;
    assert forall u | u in a :: u in z by {
      SubUnits(own, s, b);
    }
    assert z == a + r;
  }

  lemma SubUnits(own: map<int, int>, s: set<int>, b: nat)
    ensures UnitsOf(own, s, b) <= UnitsOf(own, s, b + 1)
  {
  }

  /** They are as many as the sizes of those blocks say. */
  lemma {:induction false} UnitsOwned(blocks: map<int, int>, own: map<int, int>, s: set<int>, n: nat)
    requires Tiled(blocks, own) && s <= blocks.Keys
    ensures Units(blocks, s, n) == |UnitsOf(own, s, n)|
  {
    if n == 0 {
      assert UnitsOf(own, s, n) == {};
    } else {
      UnitsOwned(blocks, own, s, n - 1);
      var b := n - 1;
      if b in s {
        OneBlock(blocks, own, s, b);
      } else {
        assert UnitsOf(own, s, n) == UnitsOf(own, s, b);
      }
    }
  }

  /** Live units and free units together are the units obtained. */
  lemma Conservation(base: int, mem: Memory, nodes: seq<int>, blocks: map<int, int>, live: set<int>, own: map<int, int>)
    requires Sound(base, mem, nodes, blocks, live, own, 0, 0) && base >= 0
    ensures live <= blocks.Keys && Units(blocks, live, LIMIT) + Units(blocks, blocks.Keys - live, LIMIT) == |own.Keys|
  {
    UnitsOwned(blocks, own, live, LIMIT);
    UnitsOwned(blocks, own, blocks.Keys - live, LIMIT);
    var a, b := UnitsOf(own, live, LIMIT), UnitsOf(own, blocks.Keys - live, LIMIT);
    assert a !! b;
    forall u | u in own ensures u in a + b {
      BlockIsOwn(blocks, own, own[u]);
    }
    hide Ring, Listed, Tiled, InUserSpace;
    assert a + b == own.Keys;
  }
}
