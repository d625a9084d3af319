/** log.c as it runs without interference: the methods of the log over the buffer cache,
    with every disk state they pass through recorded in the disk's trace. */
module Log {
  import opened Blocks
  import opened LogFormat
  import opened BufferCache
  import opened Params
  import opened Sets
  import Spec = CacheSpec

  /** Disk d, log included, means home contents f: a completed recovery would leave f. */
  ghost predicate Means(g: Geometry, d: seq<Block>, f: seq<Block>) {
    && g.Valid() && |d| == |f| == g.size
    && WordAt(d[g.start], 0) < WORDS
    && var h := ReadHeader(d[g.start]);
       g.WfHeader(h) && NoRepeats(h) && forall b: nat | g.Home(b) :: LogicalAt(g, d, h, b) == f[b]
  }

  /** Disk d means f, and its header lists h. */
  ghost predicate Logs(g: Geometry, d: seq<Block>, f: seq<Block>, h: seq<nat>) {
    Means(g, d, f) && ReadHeader(d[g.start]) == h
  }

  /** The trace t0 has grown to t1, and every disk state since means f. */
  ghost predicate AllMean(g: Geometry, t0: seq<seq<Block>>, t1: seq<seq<Block>>, f: seq<Block>) {
    t0 <= t1 && forall t | |t0| <= t < |t1| :: Means(g, t1[t], f)
  }

  lemma AllMeanStart(g: Geometry, t0: seq<seq<Block>>, f: seq<Block>)
    ensures AllMean(g, t0, t0, f)
  {
  }

  lemma LogsMeans(g: Geometry, d: seq<Block>, f: seq<Block>, h: seq<nat>)
    requires Logs(g, d, f, h)
    ensures Means(g, d, f)
  {
  }

  lemma AllMeanStep(g: Geometry, t0: seq<seq<Block>>, t1: seq<seq<Block>>, d: seq<Block>, f: seq<Block>)
    requires AllMean(g, t0, t1, f)
    ensures Means(g, d, f) ==> AllMean(g, t0, t1 + [d], f)
  {
    hide Means;
  }

  /** d is d0 with the first k logged blocks of v copied into the log. */
  ghost predicate InLog(g: Geometry, d0: seq<Block>, d: seq<Block>, h: seq<nat>, v: seq<Block>, k: nat) {
    && g.Valid() && |d0| == |d| == |v| == g.size && g.WfHeader(h)
    && (forall j | 0 <= j < k && j < |h| :: d[g.start + 1 + j] == v[h[j]])
    && forall b: nat | g.Home(b) || b == g.start :: d[b] == d0[b]
  }

  lemma EntryCopied(g: Geometry, d0: seq<Block>, d: seq<Block>, h: seq<nat>, v: seq<Block>, k: nat)
    requires InLog(g, d0, d, h, v, k) && k < |h|
    ensures InLog(g, d0, d[g.start + 1 + k := v[h[k]]], h, v, k + 1) && d[g.start] == d0[g.start]
  {
  }

  /** bread of a log block and of a home block, held together. */
  method BreadPair(c: Cache, logBlock: nat, home: nat) returns (l: Buf?, h: Buf?)
    requires c.Ok() && logBlock < |c.disk.blocks| && home < |c.disk.blocks| && logBlock != home && c.held == {}
    modifies c`held, c.objs, c.disk
    ensures c.disk.blocks == old(c.disk.blocks) && c.disk.trace == old(c.disk.trace)
    ensures l != null && h != null ==> c.Ok() && c.Held(l) && c.Held(h) && c.Releasable(l) && c.Releasable(h)
    ensures l != null && h != null ==>
      l != h && l.blockno == logBlock && h.blockno == home && c.held == {logBlock, home}
    ensures l != null && h != null ==> l.data == c.view[logBlock] && h.data == c.view[home]
    ensures l == null || h == null ==> c.Exhausted()
  {
    h := null;
    hide Cache.Ok, Cache.Exhausted;
    l := c.Bread(logBlock);
    if l != null {
      h := c.Bread(home);
    }
  }

  /** memmove, bwrite and the two brelse. */
  method Transfer(c: Cache, src: Buf, dst: Buf)
    requires c.Ok() && c.Held(src) && c.Held(dst) && src.blockno != dst.blockno && c.Releasable(src)
    modifies c, c.objs, c.disk
    ensures c.Ok() && old(dst.blockno) < |old(c.disk.blocks)| == |old(c.view)|
    ensures c.disk.blocks == old(c.disk.blocks)[old(dst.blockno) := old(src.data)]
    ensures c.disk.trace == old(c.disk.trace) + [c.disk.blocks]
    ensures c.view == old(c.view)[old(dst.blockno) := old(src.data)]
    ensures c.pins == old(c.pins) - {old(dst.blockno)}
    ensures c.held == old(c.held) - {old(src.blockno)} - {old(dst.blockno)}
  {
    hide Cache.Ok;
    c.SetData(dst, src.data);
    c.Bwrite(dst);
    c.Brelse(src);
    c.Brelse(dst);
  }

  /** New contents, bwrite and brelse of a held buffer. */
  method WriteBack(c: Cache, buf: Buf, data: Block)
    requires c.Ok() && c.Held(buf)
    modifies c, c.objs, c.disk
    ensures c.Ok() && old(buf.blockno) < |old(c.disk.blocks)| == |old(c.view)|
    ensures c.disk.blocks == old(c.disk.blocks)[old(buf.blockno) := data]
    ensures c.disk.trace == old(c.disk.trace) + [c.disk.blocks]
    ensures c.view == old(c.view)[old(buf.blockno) := data]
    ensures c.pins == old(c.pins) - {old(buf.blockno)} && c.held == old(c.held) - {old(buf.blockno)}
  {
    hide Cache.Ok;
    c.SetData(buf, data);
    c.Bwrite(buf);
    c.Brelse(buf);
  }

  /** Copy one block's contents over another's, through the cache: bread both (the log block
      first), memmove, bwrite the destination, brelse source and destination. The bodies of
      write_log and install_trans. False means bget found no buffer, which is a panic. */
  method CopyBlock(c: Cache, logBlock: nat, home: nat, toLog: bool) returns (ok: bool)
    requires c.Ok() && logBlock < |c.disk.blocks| && home < |c.disk.blocks| && logBlock != home && c.held == {}
    modifies c, c.objs, c.disk
    ensures !ok ==> c.disk.blocks == old(c.disk.blocks) && c.disk.trace == old(c.disk.trace) && c.Exhausted()
    ensures var src, dst := if toLog then home else logBlock, if toLog then logBlock else home;
      ok ==>
        && c.Ok() && c.held == {} && c.pins == old(c.pins) - {dst}
        && c.disk.blocks == old(c.disk.blocks)[dst := old(c.view)[src]] &&
             c.view == old(c.view)[dst := old(c.view)[src]]
        && c.disk.trace == old(c.disk.trace) + [c.disk.blocks]
  {
    hide Cache.Ok, Cache.Exhausted;
    var l, h := BreadPair(c, logBlock, home);
    ok := l != null && h != null;
    if ok {
      if toLog {
        Transfer(c, h, l);
      } else {
        Transfer(c, l, h);
      }
    }
  }

  /** Block numbers from position k on. */
  ghost function Rest(h: seq<nat>, k: nat): set<nat>
    decreases |h| - k
  {
    if k >= |h| then {} else {h[k]} + Rest(h, k + 1)
  }

  lemma {:induction false} RestAll(h: seq<nat>, k: nat)
    requires k <= |h|
    ensures forall j | k <= j < |h| :: h[j] in Rest(h, k)
    decreases |h| - k
  {
    if k < |h| {
      RestAll(h, k + 1);
    }
  }

  // ---- what single block writes do to the meaning of the disk ----

  /** With an empty header, log blocks mean nothing. */
  lemma LogBlockMeansNothing(g: Geometry, d: seq<Block>, f: seq<Block>, j: nat, data: Block)
    requires Means(g, d, f) && WordAt(d[g.start], 0) == 0 && g.start + 1 + j < g.start + g.nlog
    ensures Means(g, d[g.start + 1 + j := data], f)
  {
    hide ReadHeader, WordAt;
  }

  /** Writing the header of a log whose copies are in place switches the meaning at once. */
  lemma HeaderSwitchesMeaning(g: Geometry, d: seq<Block>, h: seq<nat>, hb: Block, f: seq<Block>)
    requires g.Valid() && |d| == |f| == g.size && g.WfHeader(h) && NoRepeats(h)
    requires WordAt(hb, 0) == |h| && ReadHeader(hb) == h
    requires forall j | 0 <= j < |h| :: d[g.start + 1 + j] == f[h[j]]
    requires forall b: nat | g.Home(b) && b !in h :: d[b] == f[b]
    ensures Means(g, d[g.start := hb], f)
  {
    hide ReadHeader, WordAt;
  }

  /** Installing one logged copy leaves the meaning alone. */
  lemma InstallKeepsMeaning(g: Geometry, d: seq<Block>, f: seq<Block>, h: seq<nat>, j: nat)
    requires Logs(g, d, f, h) && j < |h|
    ensures g.start + 1 + j < |d| && h[j] < |d| && Logs(g, d[h[j] := d[g.start + 1 + j]], f, h)
  {
    hide ReadHeader, WordAt;
  }

  /** Once every copy is installed, the header may go. */
  lemma ClearKeepsMeaning(g: Geometry, d: seq<Block>, f: seq<Block>, hb: Block)
    requires Means(g, d, f) && WordAt(hb, 0) == 0
    requires
      forall j | 0 <= j < |ReadHeader(d[g.start])| ::
        ReadHeader(d[g.start])[j] < |d| && d[ReadHeader(d[g.start])[j]] == d[g.start + 1 + j]
    ensures Means(g, d[g.start := hb], f)
    ensures forall b: nat | g.Home(b) :: d[b] == f[b]
  {
    assert ReadHeader(hb) == [];
    hide ReadHeader, WordAt;
    var h := ReadHeader(d[g.start]);
    forall b: nat | g.Home(b) ensures d[b] == f[b] {
      var k := LastIndex(h, b);
    }
  }

  lemma ClearMeans(g: Geometry, d: seq<Block>, h: seq<nat>, f: seq<Block>, hb: Block)
    requires Logs(g, d, f, h) && Installed(g, d, h, |h|) && WordAt(hb, 0) == 0
    ensures Means(g, d[g.start := hb], f)
  {
    ClearKeepsMeaning(g, d, f, hb);
    hide Means;
  }

  lemma HeadMeans(g: Geometry, d0: seq<Block>, d: seq<Block>, h: seq<nat>, v: seq<Block>, hb: Block)
    requires InLog(g, d0, d, h, v, |h|) && NoRepeats(h)
    requires forall b: nat | g.Home(b) && b !in h :: d0[b] == v[b]
    requires WordAt(hb, 0) == |h| && ReadHeader(hb) == h
    ensures Logs(g, d[g.start := hb], v, h)
  {
    HeaderSwitchesMeaning(g, d, h, hb, v);
    hide Means;
  }

  lemma HeaderDecodes(g: Geometry, d: seq<Block>, f: seq<Block>)
    requires Means(g, d, f)
    ensures g.Valid() && |d| == g.size && WordAt(d[g.start], 0) < WORDS
    ensures g.WfHeader(ReadHeader(d[g.start])) && NoRepeats(ReadHeader(d[g.start]))
  {
  }

  /** The first k logged copies are at home. */
  ghost predicate Installed(g: Geometry, d: seq<Block>, h: seq<nat>, k: nat) {
    && g.Valid() && |d| == g.size && g.WfHeader(h)
    && forall j | 0 <= j < k && j < |h| :: d[h[j]] == d[g.start + 1 + j]
  }

  lemma InstallStep(g: Geometry, d: seq<Block>, h: seq<nat>, k: nat)
    requires Installed(g, d, h, k) && NoRepeats(h) && k < |h|
    ensures Installed(g, d[h[k] := d[g.start + 1 + k]], h, k + 1)
    ensures d[h[k] := d[g.start + 1 + k]][g.start] == d[g.start]
  {
  }

  lemma InLogFits(g: Geometry, d0: seq<Block>, d: seq<Block>, h: seq<nat>, v: seq<Block>, k: nat)
    requires InLog(g, d0, d, h, v, k)
    ensures |d| == |v| == g.size && forall j | 0 <= j < |h| :: h[j] < |v| && g.start + 1 + j < |d|
  {
  }

  lemma LogsFit(g: Geometry, d: seq<Block>, f: seq<Block>, h: seq<nat>)
    requires Logs(g, d, f, h)
    ensures Installed(g, d, h, 0) && |d| == g.size && forall j | 0 <= j < |h| :: h[j] < |d| && g.start + 1 + j < |d|
  {
  }

  lemma EmptyHeaderMeans(g: Geometry, d: seq<Block>, f: seq<Block>)
    requires Means(g, d, f) && WordAt(d[g.start], 0) == 0
    ensures forall b: nat | g.Home(b) :: d[b] == f[b]
  {
  }

  class Log {
    const cache: Cache
    const disk: Disk
    const g: Geometry
    /** Counted by begin_op and end_op, which LogSystem has as steps. */
    var outstanding: int
    var n: nat
    const block: array<nat>

    constructor (cache: Cache, g: Geometry)
      requires g.Valid()
      ensures Shape() && n == 0 && outstanding == 0
      ensures this.cache == cache && this.disk == cache.disk && this.g == g && fresh(block)
    {
      this.cache, this.disk, this.g := cache, cache.disk, g;
      outstanding, n := 0, 0;
      block := new nat[LOGSIZE];
    }

    ghost predicate Shape()
      reads this, block
    {
      block.Length == LOGSIZE && n <= LOGSIZE && g.Valid() && g.WfHeader(block[..n]) && NoRepeats(block[..n])
    }

    ghost function Header(): seq<nat>
      requires Shape()
      reads this, block
    {
      block[..n]
    }

    /** Nobody else is using the cache; exactly the home blocks in p are pinned. */
    ghost predicate Quiet(p: set<nat>)
      reads cache, cache.ring, disk
    {
      && cache.disk == disk && cache.Ok() && |disk.blocks| == g.size
      && cache.held == {} && cache.pins == p && forall b | b in p :: g.Home(b)
    }

    /** Through the cache, home blocks read as in v. */
    ghost predicate Shows(v: seq<Block>)
      reads cache
    {
      |cache.view| == |v| == g.size && forall b: nat | g.Home(b) :: cache.view[b] == v[b]
    }

    /** One iteration of write_log. */
    method CopyToLog(tail: nat, ghost f: seq<Block>, ghost v: seq<Block>, ghost p: set<nat>) returns (ok: bool)
      requires Shape() && Quiet(p) && tail < n && Shows(v)
      requires Means(g, disk.blocks, f) && WordAt(disk.blocks[g.start], 0) == 0
      modifies cache, cache.objs, disk
      ensures !ok ==> disk.trace == old(disk.trace) && cache.Exhausted()
      ensures ok ==> Quiet(p) && Shows(v) && Means(g, disk.blocks, f)
      ensures ok ==> disk.blocks == old(disk.blocks)[g.start + 1 + tail := v[block[tail]]]
      ensures ok ==> disk.trace == old(disk.trace) + [disk.blocks]
    {
      hide Means, Cache.Ok, Cache.Exhausted, WordAt, ReadHeader, NoRepeats;
      LogBlockMeansNothing(g, disk.blocks, f, tail, v[block[tail]]);
      ok := CopyBlock(cache, g.start + tail + 1, block[tail], true);
    }

    lemma LogBegins(f: seq<Block>, v: seq<Block>)
      requires Shape() && Shows(v) && Means(g, disk.blocks, f)
      ensures InLog(g, disk.blocks, disk.blocks, Header(), v, 0) && AllMean(g, disk.trace, disk.trace, f)
      ensures |Header()| == n &&
        forall j | 0 <= j < n :: g.start + 1 + j < |disk.blocks| && Header()[j] < |v| && Header()[j] == block[j]
    {
    }

    /** write_log: copy every logged block from the cache to the log. */
    method WriteLog(ghost f: seq<Block>, ghost v: seq<Block>, ghost p: set<nat>) returns (ok: bool)
      requires Shape() && Quiet(p) && Shows(v)
      requires Means(g, disk.blocks, f) && WordAt(disk.blocks[g.start], 0) == 0
      modifies cache, cache.objs, disk
      ensures AllMean(g, old(disk.trace), disk.trace, f) && |disk.trace| <= |old(disk.trace)| + n
      ensures ok ==> Quiet(p) && Shows(v) && |disk.trace| == |old(disk.trace)| + n
      ensures ok ==> InLog(g, old(disk.blocks), disk.blocks, Header(), v, n)
      ensures !ok ==> cache.Exhausted()
    {
      hide *;
      ghost var t0, d0, h := disk.trace, disk.blocks, Header();
      LogBegins(f, v);
      for tail := 0 to n
        invariant Quiet(p) && Shows(v) && Means(g, disk.blocks, f) && InLog(g, d0, disk.blocks, h, v, tail)
        invariant |disk.trace| == |t0| + tail && AllMean(g, t0, disk.trace, f) && |h| == n
      {
        InLogFits(g, d0, disk.blocks, h, v, tail);
        ghost var data := v[h[tail]];
        ghost var d := disk.blocks[g.start + 1 + tail := data];
        EntryCopied(g, d0, disk.blocks, h, v, tail);
        AllMeanStep(g, t0, disk.trace, d, f);
        ok := CopyToLog(tail, f, v, p);
        if !ok {
          return;
        }
      }
      ok := true;
    }

    /** The loop of write_head. */
    method HeaderBlock(data: Block) returns (hb: Block)
      requires Shape()
      ensures hb == WriteHeader(data, Header())
    {
      hb := PutWord(data, 0, n);
      for i := 0 to n
        invariant hb == PutEntries(PutWord(data, 0, n), block[..i])
      {
        assert block[..i + 1][..i] == block[..i];
        hb := PutWord(hb, 1 + i, block[i]);
      }
    }

    /** write_head: the count and the block numbers go into the header block. */
    method WriteHead(ghost v: seq<Block>, ghost p: set<nat>) returns (ok: bool)
      requires Shape() && Quiet(p) && Shows(v)
      modifies cache, cache.objs, disk
      ensures !ok ==> disk.trace == old(disk.trace) && cache.Exhausted()
      ensures ok ==> Quiet(p) && Shows(v) && disk.trace == old(disk.trace) + [disk.blocks]
      ensures ok ==> disk.blocks == old(disk.blocks)[g.start := disk.blocks[g.start]]
      ensures ok ==> WordAt(disk.blocks[g.start], 0) == n && ReadHeader(disk.blocks[g.start]) == Header()
    {
      hide Cache.Ok, Cache.Exhausted, NoRepeats, ReadHeader, WordAt;
      var buf := cache.Bread(g.start);
      if buf == null {
        return false;
      }
      var hb := HeaderBlock(buf.data);
      HeaderRoundTrip(buf.data, Header());
      hide WriteHeader;
      WriteBack(cache, buf, hb);
      ok := true;
    }

    /** The loop of read_head. */
    method Decode(data: Block)
      requires block.Length == LOGSIZE && g.Valid() && WordAt(data, 0) < WORDS
      requires g.WfHeader(ReadHeader(data)) && NoRepeats(ReadHeader(data))
      modifies this`n, block
      ensures Shape() && Header() == ReadHeader(data)
    {
      ghost var h := ReadHeader(data);
      n := WordAt(data, 0);
      for i := 0 to n
        modifies block
        invariant forall j | 0 <= j < i :: block[j] == h[j]
      {
        block[i] := WordAt(data, 1 + i);
      }
      assert block[..n] == h;
    }

    /** A block that is neither pinned nor held reads as it is on disk. */
    lemma CleanBlock(b: nat, p: set<nat>)
      requires Quiet(p) && b < g.size && b !in p
      ensures cache.view[b] == disk.blocks[b]
    {
      Spec.CleanView(cache.Entries(), disk.blocks, b);
    }

    /** Only the header block's buffer is held, and it shows the header on disk. */
    ghost predicate HoldsHeader(buf: Buf, p: set<nat>)
      reads cache, cache.ring, disk, buf
    {
      && cache.disk == disk && cache.Ok() && cache.held == {g.start} && cache.Held(buf) && cache.Releasable(buf)
      && buf.blockno == g.start < |disk.blocks| == g.size && buf.data == disk.blocks[g.start]
      && cache.pins == p && forall b | b in p :: g.Home(b)
    }

    method BreadHeader(ghost p: set<nat>) returns (buf: Buf?)
      requires g.Valid() && Quiet(p)
      modifies cache`held, cache.objs, disk
      ensures disk.blocks == old(disk.blocks) && disk.trace == old(disk.trace)
      ensures buf != null ==> HoldsHeader(buf, p)
      ensures buf == null ==> cache.Exhausted()
    {
      hide Cache.Ok, Cache.Exhausted;
      CleanBlock(g.start, p);
      buf := cache.Bread(g.start);
    }

    method BrelseHeader(buf: Buf, ghost p: set<nat>)
      requires HoldsHeader(buf, p)
      modifies cache, cache.objs
      ensures Quiet(p)
    {
      hide Cache.Ok;
      cache.Brelse(buf);
    }

    /** read_head: the count and the block numbers come out of the header block. */
    method ReadHead(ghost f: seq<Block>, ghost p: set<nat>) returns (ok: bool)
      requires block.Length == LOGSIZE && Quiet(p) && Means(g, disk.blocks, f)
      modifies this`n, block, cache, cache.objs, disk
      ensures disk.blocks == old(disk.blocks) && disk.trace == old(disk.trace)
      ensures ok ==> Shape() && Quiet(p) && Logs(g, disk.blocks, f, Header())
      ensures !ok ==> cache.Exhausted()
    {
      hide Quiet, NoRepeats, ReadHeader, WordAt, Means, Cache.Ok, Cache.Exhausted;
      HeaderDecodes(g, disk.blocks, f);
      var buf := BreadHeader(p);
      ok := buf != null;
      if ok {
        assert buf.data == disk.blocks[g.start];
        Decode(buf.data);
        BrelseHeader(buf, p);
      }
    }

    /** One iteration of install_trans. */
    method InstallOne(tail: nat, ghost f: seq<Block>, ghost p: set<nat>) returns (ok: bool)
      requires Shape() && Quiet(p) && tail < n && |disk.blocks| == g.size && Logs(g, disk.blocks, f, Header())
      modifies cache, cache.objs, disk
      ensures !ok ==> disk.trace == old(disk.trace) && cache.Exhausted()
      ensures ok ==> disk.blocks == old(disk.blocks)[block[tail] := old(disk.blocks[g.start + 1 + tail])]
      ensures ok ==> Quiet(p - {block[tail]}) && Logs(g, disk.blocks, f, Header())
      ensures ok ==> disk.trace == old(disk.trace) + [disk.blocks]
    {
      hide Means, Logs, Cache.Ok, Cache.Exhausted, WordAt, ReadHeader, NoRepeats;
      CleanBlock(g.start + 1 + tail, p);
      InstallKeepsMeaning(g, disk.blocks, f, Header(), tail);
      assert block[tail] < g.size && g.Home(block[tail]);
      ok := CopyBlock(cache, g.start + tail + 1, block[tail], false);
    }

    /** install_trans: copy every logged block home. */
    method InstallTrans(ghost f: seq<Block>, ghost pins: set<nat>) returns (ok: bool)
      requires Shape() && Quiet(pins) && pins <= Rest(Header(), 0) && Logs(g, disk.blocks, f, Header())
      modifies cache, cache.objs, disk
      ensures AllMean(g, old(disk.trace), disk.trace, f)
      ensures ok ==> Quiet({}) && |disk.trace| == |old(disk.trace)| + n
      ensures ok ==> Logs(g, disk.blocks, f, Header()) && Installed(g, disk.blocks, Header(), n)
      ensures !ok ==> cache.Exhausted()
    {
      hide Quiet, Means, WordAt, ReadHeader, NoRepeats, LogicalAt, Cache.Ok, Cache.Exhausted, AllMean, Installed;
      ghost var t0, p, h := disk.trace, pins, Header();
      LogsFit(g, disk.blocks, f, h);
      AllMeanStart(g, t0, f);
      for tail := 0 to n
        invariant Quiet(p) && p <= Rest(h, tail) && Logs(g, disk.blocks, f, h) && Installed(g, disk.blocks, h, tail)
        invariant |disk.trace| == |t0| + tail && AllMean(g, t0, disk.trace, f)
      {
        LogsFit(g, disk.blocks, f, h);
        ghost var d := disk.blocks[h[tail] := disk.blocks[g.start + 1 + tail]];
        InstallStep(g, disk.blocks, h, tail);
        AllMeanStep(g, t0, disk.trace, d, f);
        ok := InstallOne(tail, f, p);
        if !ok {
          return;
        }
        p := p - {h[tail]};
      }
      assert p == {};
      ok := true;
    }

    /** install_trans, then the empty header. */
    method InstallAndClear(ghost f: seq<Block>, ghost pins: set<nat>) returns (ok: bool)
      requires Shape() && Quiet(pins) && pins <= Rest(Header(), 0) && Logs(g, disk.blocks, f, Header())
      modifies this`n, cache, cache.objs, disk
      ensures AllMean(g, old(disk.trace), disk.trace, f)
      ensures ok ==> Shape() && n == 0 && Quiet({}) && Means(g, disk.blocks, f) && WordAt(disk.blocks[g.start], 0) == 0
      ensures ok ==> |disk.trace| == |old(disk.trace)| + old(n) + 1
      ensures !ok ==> cache.Exhausted()
    {
      hide Cache.Exhausted;
      ok := InstallTrans(f, pins);
      if ok {
        hide Cache.Ok;
        ghost var d, trace := disk.blocks, disk.trace;
        ghost var h := Header();
        n := 0;
        ok := WriteHead(cache.view, {});
        if ok {
          ClearMeans(g, d, h, f, disk.blocks[g.start]);
          AllMeanStep(g, old(disk.trace), trace, disk.blocks, f);
        }
      }
    }

    /** write_log, then the header: the commit point is the last write. */
    method LogAndHead(ghost f: seq<Block>, ghost v: seq<Block>, ghost p: set<nat>) returns (ok: bool)
      requires Shape() && Quiet(p) && Shows(v) && p == (set b | b in block[..n])
      requires Means(g, disk.blocks, f) && WordAt(disk.blocks[g.start], 0) == 0
      modifies cache, cache.objs, disk
      ensures !ok ==> AllMean(g, old(disk.trace), disk.trace, f) && |disk.trace| <= |old(disk.trace)| + n
      ensures ok ==> Quiet(p) && Logs(g, disk.blocks, v, Header()) && |disk.trace| == |old(disk.trace)| + n + 1
      ensures ok ==>
        disk.trace[|disk.trace| - 1] == disk.blocks &&
        AllMean(g, old(disk.trace), disk.trace[..|disk.trace| - 1], f)
      ensures !ok ==> cache.Exhausted()
    {
      hide Cache.Exhausted;
      ghost var d0 := disk.blocks;
      UnpinnedOnDisk(v, p);
      ok := WriteLog(f, v, p);
      if ok {
        ghost var d, trace := disk.blocks, disk.trace;
        ok := WriteHead(v, p);
        if ok {
          HeadMeans(g, d0, d, Header(), v, disk.blocks[g.start]);
          assert disk.trace[..|disk.trace| - 1] == trace;
        }
      }
    }

    lemma UnpinnedOnDisk(v: seq<Block>, p: set<nat>)
      requires Shape() && Quiet(p) && Shows(v) && p == (set b | b in block[..n])
      ensures forall b: nat | g.Home(b) && b !in Header() :: disk.blocks[b] == v[b]
    {
      forall b: nat | g.Home(b) && b !in Header() ensures disk.blocks[b] == v[b] {
        CleanBlock(b, p);
      }
    }

    /** The trace t0 has grown to t1; the states up to position `at` mean f, the later ones v. */
    ghost predicate SwitchesAt(t0: seq<seq<Block>>, t1: seq<seq<Block>>, at: nat, f: seq<Block>, v: seq<Block>) {
      t0 <= t1 && forall t | |t0| <= t < |t1| :: Means(g, t1[t], if t < at then f else v)
    }

    lemma Switches(t0: seq<seq<Block>>, t1: seq<seq<Block>>, t2: seq<seq<Block>>, f: seq<Block>, v: seq<Block>)
      requires 0 < |t1| && AllMean(g, t0, t1[..|t1| - 1], f) && Means(g, t1[|t1| - 1], v) && AllMean(g, t1, t2, v)
      ensures SwitchesAt(t0, t2, |t1| - 1, f, v)
    {
      hide Means;
      forall t | |t0| <= t < |t2| ensures Means(g, t2[t], if t < |t1| - 1 then f else v) {
        if t < |t1| {
          assert t2[t] == t1[t];
        }
        if t < |t1| - 1 {
          assert t2[t] == t1[..|t1| - 1][t];
        }
      }
    }

    lemma NoSwitch(t0: seq<seq<Block>>, t1: seq<seq<Block>>, at: nat, f: seq<Block>, v: seq<Block>)
      requires AllMean(g, t0, t1, f) && |t1| <= at
      ensures SwitchesAt(t0, t1, at, f, v)
    {
      hide Means;
    }

    /** commit of a nonempty transaction. */
    method CommitLogged(ghost f: seq<Block>, ghost v: seq<Block>, ghost p: set<nat>) returns (ok: bool)
      requires Shape() && Quiet(p) && Shows(v) && p == (set b | b in block[..n]) && p <= Rest(Header(), 0)
      requires Means(g, disk.blocks, f) && WordAt(disk.blocks[g.start], 0) == 0
      modifies this`n, cache, cache.objs, disk
      ensures SwitchesAt(old(disk.trace), disk.trace, |old(disk.trace)| + old(n), f, v)
      ensures ok ==> Shape() && n == 0 && Quiet({}) && Means(g, disk.blocks, v) && WordAt(disk.blocks[g.start], 0) == 0
      ensures ok ==> |disk.trace| == |old(disk.trace)| + 2 * (old(n) + 1)
      ensures !ok ==> cache.Exhausted()
    {
      hide Quiet, Shows, Means, Logs, AllMean, SwitchesAt, NoRepeats, WordAt, Cache.Ok, Cache.Exhausted;
      ghost var t0 := disk.trace;
      ok := LogAndHead(f, v, p);
      if !ok {
        NoSwitch(t0, disk.trace, |t0| + n, f, v);
        return;
      }
      ghost var t1 := disk.trace;
      LogsMeans(g, disk.blocks, v, Header());
      ok := InstallAndClear(v, p);
      Switches(t0, t1, disk.trace, f, v);
    }

    /** commit. Wherever the machine stops, by a crash or by bget's panic, the disk means the
        home contents it meant before (f) or the cached ones (v): f until the n log copies are
        written, v from the header write on. An empty transaction writes nothing, and any other every
        block twice and the header twice. */
    method Commit(ghost f: seq<Block>, ghost v: seq<Block>) returns (ok: bool)
      requires Shape() && Quiet(set b | b in block[..n]) && Shows(v)
      requires Means(g, disk.blocks, f) && WordAt(disk.blocks[g.start], 0) == 0
      modifies this`n, cache, cache.objs, disk
      ensures SwitchesAt(old(disk.trace), disk.trace, |old(disk.trace)| + old(n), f, v)
      ensures ok ==> Shape() && n == 0 && Quiet({}) && WordAt(disk.blocks[g.start], 0) == 0
      ensures ok ==> |disk.blocks| == |v| && forall b: nat | g.Home(b) :: disk.blocks[b] == v[b]
      ensures ok ==> |disk.trace| == |old(disk.trace)| + if old(n) == 0 then 0 else 2 * (old(n) + 1)
      ensures !ok ==> old(n) > 0 && cache.Exhausted()
    {
      hide Cache.Exhausted;
      ghost var p := set b | b in block[..n];
      RestAll(Header(), 0);
      UnpinnedOnDisk(v, p);
      hide Quiet, Shows, Means, AllMean, SwitchesAt, NoRepeats;
      ok := true;
      if n > 0 {
        ok := CommitLogged(f, v, p);
        if ok {
          EmptyHeaderMeans(g, disk.blocks, v);
        }
      } else {
        AllMeanStart(g, disk.trace, f);
        NoSwitch(disk.trace, disk.trace, |disk.trace|, f, v);
      }
    }

    /** recover_from_log. Every disk state on the way means what the disk meant at the start,
        so it does not matter where recovery itself stops; when it gets to the end the home
        blocks on disk are that meaning. */
    method Recover(ghost f: seq<Block>) returns (ok: bool)
      requires block.Length == LOGSIZE && Quiet({}) && Means(g, disk.blocks, f)
      modifies this`n, block, cache, cache.objs, disk
      ensures AllMean(g, old(disk.trace), disk.trace, f)
      ensures ok ==> Shape() && n == 0 && Quiet({}) && WordAt(disk.blocks[g.start], 0) == 0
      ensures ok ==> |disk.blocks| == |f| && forall b: nat | g.Home(b) :: disk.blocks[b] == f[b]
      ensures !ok ==> cache.Exhausted()
    {
      hide Cache.Exhausted;
      ok := ReadHead(f, {});
      if ok {
        ok := InstallAndClear(f, {});
        if ok {
          EmptyHeaderMeans(g, disk.blocks, f);
        }
      }
    }

    /** log_write: the block number joins the header unless it is there already, and the
        buffer is pinned. Its panics are preconditions. */
    method LogWrite(b: Buf)
      requires Shape() && cache.disk == disk && cache.Ok() && cache.Held(b) && |disk.blocks| == g.size &&
               g.Home(b.blockno)
      requires n < LOGSIZE && n < g.nlog - 1 && outstanding >= 1
      modifies this`n, block, cache`pins, b`dirty
      ensures Shape() && cache.Ok() && cache.Held(b) && cache.Releasable(b)
      ensures Header() == if b.blockno in old(Header()) then old(Header()) else old(Header()) + [b.blockno]
      ensures cache.pins == old(cache.pins) + {b.blockno}
    {
      hide Cache.Ok;
      ghost var h := Header();
      var i := 0;
      while i < n && block[i] != b.blockno
        invariant 0 <= i <= n && b.blockno !in block[..i]
      {
        i := i + 1;
      }
      block[i] := b.blockno;
      if i == n {
        n := n + 1;
        assert block[..n] == h + [b.blockno];
      } else {
        assert block[..n] == h;
      }
      cache.MarkDirty(b);
    }
  }
}
