/** What bio.c computes, on values: the buffers in list order, most recently released
    first, and what each operation does to them. */
module CacheSpec {
  import opened Blocks
  import opened Params

  datatype Entry = Entry(dev: nat, blockno: nat, valid: bool, dirty: bool, refcnt: nat, locked: bool, data: Block) {
    predicate Is(dev: nat, b: nat) {
      this.dev == dev && this.blockno == b
    }

    /** May be recycled. */
    predicate Spare() {
      refcnt == 0 && !dirty
    }
  }

  type Entries = seq<Entry>

  /** bget's first scan: the first buffer for the block, from the front. */
  function Find(e: Entries, dev: nat, b: nat): (r: int)
    ensures -1 <= r < |e|
    ensures r >= 0 ==> e[r].Is(dev, b)
    ensures forall i | 0 <= i < |e| && (r < 0 || i < r) :: !e[i].Is(dev, b)
  {
    if e == [] then -1
    else if Find(e[..|e| - 1], dev, b) >= 0 then Find(e[..|e| - 1], dev, b)
    else if e[|e| - 1].Is(dev, b) then |e| - 1 else -1
  }

  /** bget's second scan: the last recyclable buffer, from the back. */
  function Victim(e: Entries): (r: int)
    ensures -1 <= r < |e|
    ensures r >= 0 ==> e[r].Spare()
    ensures forall i | r < i < |e| :: !e[i].Spare()
  {
    if e == [] then -1
    else if e[|e| - 1].Spare() then |e| - 1
    else Victim(e[..|e| - 1])
  }

  datatype Got = Got(i: nat, entries: Entries)

  /** bget's critical section; None is its panic. */
  function Bget(e: Entries, dev: nat, b: nat): (r: Option<Got>)
    ensures r.Some? ==> r.value.i < |e| == |r.value.entries|
  {
    var i := Find(e, dev, b);
    if i >= 0 then Some(Got(i, e[i := e[i].(refcnt := e[i].refcnt + 1)]))
    else
      var v := Victim(e);
      if v < 0 then None
      else Some(Got(v, e[v := Entry(dev, b, false, false, 1, e[v].locked, e[v].data)]))
  }

  /** brelse: unlock, drop the reference, and on the last one move to the front. */
  function Brelse(e: Entries, i: nat): Entries
    requires i < |e| && e[i].refcnt > 0
  {
    var x := e[i].(locked := false, refcnt := e[i].refcnt - 1);
    if x.refcnt == 0 then [x] + e[..i] + e[i + 1..] else e[i := x]
  }

  // ---- what the cache means ----

  /** No two buffers of a real device hold the same block; buffers that are neither locked
      nor waiting for the log agree with the disk. */
  ghost predicate Coherent(e: Entries, d: seq<Block>) {
    && (forall i, j | 0 <= i < j < |e| && e[i].dev == e[j].dev == ROOTDEV :: e[i].blockno != e[j].blockno)
    && forall i | 0 <= i < |e| :: EntryOk(e[i], d)
  }

  predicate EntryOk(x: Entry, d: seq<Block>) {
    && (x.dev == ROOTDEV ==> x.blockno < |d|)
    && (x.dirty ==> x.valid && x.dev == ROOTDEV)
    && (x.locked ==> x.refcnt > 0 && x.dev == ROOTDEV)
    && (x.valid && !x.dirty && !x.locked && x.dev == ROOTDEV ==> x.data == d[x.blockno])
  }

  /** What bread of block b returns. */
  function View(e: Entries, d: seq<Block>, b: nat): Block
    requires b < |d|
  {
    var i := Find(e, ROOTDEV, b);
    if i >= 0 && e[i].valid then e[i].data else d[b]
  }

  /** The log has modified block b and it is not yet on disk. */
  predicate DirtyAt(e: Entries, b: nat) {
    var i := Find(e, ROOTDEV, b);
    i >= 0 && e[i].dirty
  }

  predicate LockedAt(e: Entries, b: nat) {
    var i := Find(e, ROOTDEV, b);
    i >= 0 && e[i].locked
  }

  lemma FindIs(e: Entries, d: seq<Block>, i: nat)
    requires Coherent(e, d) && i < |e| && e[i].dev == ROOTDEV
    ensures Find(e, ROOTDEV, e[i].blockno) == i
  {
    var b := e[i].blockno;
    var r := Find(e, ROOTDEV, b);
    assert e[i].Is(ROOTDEV, b);
  }

  /** Changing one buffer that stays with its block, or takes on a block nobody caches. */
  lemma Replace(e: Entries, d: seq<Block>, i: nat, x: Entry)
    requires Coherent(e, d) && i < |e| && x.dev == ROOTDEV && EntryOk(x, d)
    requires e[i].Is(ROOTDEV, x.blockno) || Find(e, ROOTDEV, x.blockno) < 0
    ensures Coherent(e[i := x], d)
    ensures Find(e[i := x], ROOTDEV, x.blockno) == i
    ensures forall b | b != x.blockno && !e[i].Is(ROOTDEV, b) :: Find(e[i := x], ROOTDEV, b) == Find(e, ROOTDEV, b)
    ensures !e[i].Is(ROOTDEV, x.blockno) && e[i].dev == ROOTDEV ==> Find(e[i := x], ROOTDEV, e[i].blockno) < 0
  {
    var e' := e[i := x];
    assert Coherent(e', d) by {
      forall j, k | 0 <= j < k < |e'| && e'[j].dev == e'[k].dev == ROOTDEV
        ensures e'[j].blockno != e'[k].blockno
      {
        if j == i || k == i {
          assert e[i].Is(ROOTDEV, x.blockno) || forall n | 0 <= n < |e| :: !e[n].Is(ROOTDEV, x.blockno);
        }
      }
    }
    FindIs(e', d, i);
    forall b | b != x.blockno && !e[i].Is(ROOTDEV, b)
      ensures Find(e', ROOTDEV, b) == Find(e, ROOTDEV, b)
    {
      var r, r' := Find(e, ROOTDEV, b), Find(e', ROOTDEV, b);
      assert forall n | 0 <= n < |e| :: e[n].Is(ROOTDEV, b) == e'[n].Is(ROOTDEV, b);
    }
    if e[i].dev == ROOTDEV && e[i].blockno != x.blockno {
      var b := e[i].blockno;
      if Find(e', ROOTDEV, b) >= 0 {
        FindIs(e, d, i);
        assert false;
      }
    }
  }

  /** bread: bget, take the sleep-lock, fill from disk if need be. */
  function Bread(e: Entries, d: seq<Block>, b: nat): (r: Option<Got>)
    requires b < |d|
    ensures r.Some? ==> r.value.i < |e| == |r.value.entries|
  {
    match Bget(e, ROOTDEV, b)
    case None => None
    case Some(Got(i, e1)) =>
      var x := e1[i];
      Some(Got(i, e1[i := x.(locked := true, valid := true, data := if x.valid then x.data else d[b])]))
  }

  /** A block that is neither pinned nor in anybody's hands reads as it is on disk. */
  lemma CleanView(e: Entries, d: seq<Block>, b: nat)
    requires Coherent(e, d) && b < |d| && !LockedAt(e, b) && !DirtyAt(e, b)
    ensures View(e, d, b) == d[b]
  {
  }

  lemma BgetGives(e: Entries, d: seq<Block>, b: nat)
    requires Coherent(e, d) && !LockedAt(e, b) && Bget(e, ROOTDEV, b).Some?
    ensures var Got(i, e1) := Bget(e, ROOTDEV, b).value;
            e1[i].Is(ROOTDEV, b) && !e1[i].locked && !e[i].locked && (e1[i].dirty ==> e1[i].valid)
  {
  }

  /** bread fails only for want of a buffer. */
  lemma BreadFails(e: Entries, d: seq<Block>, b: nat)
    requires b < |d| && Bread(e, d, b) == None
    ensures forall x | x in e :: !x.Spare()
  {
    hide Find;
  }

  /** bread returns the block's contents, locked, and changes no block's contents, whichever
      buffer it recycles. */
  lemma BreadKeeps(e: Entries, d: seq<Block>, b: nat)
    requires Coherent(e, d) && b < |d| && !LockedAt(e, b) && Bread(e, d, b).Some?
    ensures var Got(i, e') := Bread(e, d, b).value;
      && Coherent(e', d)
      && e'[i] == Entry(ROOTDEV, b, true, DirtyAt(e, b), e'[i].refcnt, true, View(e, d, b))
      && e' == e[i := e'[i]] && !e[i].locked
      && (forall c: nat | c < |d| :: View(e', d, c) == View(e, d, c))
      && (forall c: nat :: DirtyAt(e', c) == DirtyAt(e, c) && LockedAt(e', c) == (LockedAt(e, c) || c == b))
  {
    var Got(i, e') := Bread(e, d, b).value;
    assert e' == e[i := e'[i]];
    Replace(e, d, i, e'[i]);
    if e[i].dev == ROOTDEV {
      FindIs(e, d, i);
    }
    hide Coherent, Bget, Find;
    forall c: nat ensures DirtyAt(e', c) == DirtyAt(e, c) && LockedAt(e', c) == (LockedAt(e, c) || c == b)
      ensures c < |d| ==> View(e', d, c) == View(e, d, c)
    {
    }
  }

  /** The holder of a buffer changes its contents. */
  lemma SetDataKeeps(e: Entries, d: seq<Block>, i: nat, data: Block)
    requires Coherent(e, d) && i < |e| && e[i].dev == ROOTDEV && e[i].locked && e[i].valid
    ensures var e' := e[i := e[i].(data := data)];
      && Coherent(e', d)
      && (forall c: nat | c < |d| :: View(e', d, c) == if c == e[i].blockno then data else View(e, d, c))
      && (forall c: nat :: DirtyAt(e', c) == DirtyAt(e, c) && LockedAt(e', c) == LockedAt(e, c))
  {
    Replace(e, d, i, e[i].(data := data));
    FindIs(e, d, i);
    hide Coherent, Find;
  }

  /** log_write pins a buffer. */
  lemma MarkDirtyKeeps(e: Entries, d: seq<Block>, i: nat)
    requires Coherent(e, d) && i < |e| && e[i].dev == ROOTDEV && e[i].locked && e[i].valid
    ensures var e' := e[i := e[i].(dirty := true)];
      && Coherent(e', d)
      && (forall c: nat | c < |d| :: View(e', d, c) == View(e, d, c))
      && (forall c: nat :: DirtyAt(e', c) == (DirtyAt(e, c) || c == e[i].blockno) && LockedAt(e', c) == LockedAt(e, c))
  {
    Replace(e, d, i, e[i].(dirty := true));
    FindIs(e, d, i);
    hide Coherent, Find;
  }

  lemma OthersKeep(e: Entries, d: seq<Block>, i: nat, data: Block)
    requires Coherent(e, d) && i < |e| && e[i].dev == ROOTDEV && e[i].locked
    ensures Coherent(e, d[e[i].blockno := data])
  {
  }

  /** bwrite puts the buffer's contents on disk; the block is no longer pinned. */
  lemma WriteKeeps(e: Entries, d: seq<Block>, i: nat)
    requires Coherent(e, d) && i < |e| && e[i].dev == ROOTDEV && e[i].locked && e[i].valid
    ensures var e', d' := e[i := e[i].(dirty := false)], d[e[i].blockno := e[i].data];
      && Coherent(e', d')
      && (forall c: nat | c < |d| :: View(e', d', c) == View(e, d, c))
      && (forall c: nat :: DirtyAt(e', c) == (DirtyAt(e, c) && c != e[i].blockno) && LockedAt(e', c) == LockedAt(e, c))
  {
    var d' := d[e[i].blockno := e[i].data];
    OthersKeep(e, d, i, e[i].data);
    Replace(e, d', i, e[i].(dirty := false));
    FindIs(e, d, i);
    hide Coherent, Find;
  }

  function MoveToFront(e: Entries, i: nat): Entries
    requires i < |e|
  {
    [e[i]] + e[..i] + e[i + 1..]
  }

  /** Where MoveToFront puts the buffer at index j. */
  function Moved(i: nat, j: nat): nat {
    if j == i then 0 else if j < i then j + 1 else j
  }

  /** Where the buffer at index k of MoveToFront came from. */
  function Origin(i: nat, k: nat): nat {
    if k == 0 then i else if k <= i then k - 1 else k
  }

  lemma MovedIndex(e: Entries, i: nat)
    requires i < |e|
    ensures |MoveToFront(e, i)| == |e|
    ensures forall k | 0 <= k < |e| :: MoveToFront(e, i)[k] == e[Origin(i, k)]
    ensures forall k | 0 <= k < |e| :: Origin(i, k) < |e| && Moved(i, Origin(i, k)) == k && Origin(i, Moved(i, k)) == k
  {
  }

  lemma MoveCoherent(e: Entries, d: seq<Block>, i: nat)
    requires Coherent(e, d) && i < |e|
    ensures Coherent(MoveToFront(e, i), d)
  {
    var e' := MoveToFront(e, i);
    MovedIndex(e, i);
    forall j, k | 0 <= j < k < |e'| && e'[j].dev == e'[k].dev == ROOTDEV
      ensures e'[j].blockno != e'[k].blockno
    {
      var j0, k0 := Origin(i, j), Origin(i, k);
      assert j0 != k0;
      assert j0 < k0 || k0 < j0;
    }
    hide MoveToFront, Moved, Origin;
  }

  lemma MoveKeeps(e: Entries, d: seq<Block>, i: nat, c: nat)
    requires Coherent(e, d) && i < |e|
    ensures var j := Find(e, ROOTDEV, c); Find(MoveToFront(e, i), ROOTDEV, c) == if j < 0 then -1 else Moved(i, j)
  {
    var e' := MoveToFront(e, i);
    var j, k := Find(e, ROOTDEV, c), Find(e', ROOTDEV, c);
    MovedIndex(e, i);
    MoveCoherent(e, d, i);
    if j >= 0 {
      assert e'[Moved(i, j)] == e[j];
      FindIs(e', d, Moved(i, j));
    } else if k >= 0 {
      assert false;
    }
  }

  /** Moving a buffer to the front changes nothing but the order. */
  lemma MoveShows(e: Entries, d: seq<Block>, i: nat)
    requires Coherent(e, d) && i < |e|
    ensures var e' := MoveToFront(e, i);
      && Coherent(e', d)
      && (forall c: nat | c < |d| :: View(e', d, c) == View(e, d, c))
      && (forall c: nat :: DirtyAt(e', c) == DirtyAt(e, c) && LockedAt(e', c) == LockedAt(e, c))
  {
    var e' := MoveToFront(e, i);
    MoveCoherent(e, d, i);
    MovedIndex(e, i);
    forall c: nat ensures var j := Find(e, ROOTDEV, c); Find(e', ROOTDEV, c) == if j < 0 then -1 else Moved(i, j) {
      MoveKeeps(e, d, i, c);
    }
    hide MoveToFront, Coherent, Find, Origin;
  }

  /** Unlocking a buffer that is dirty or as on disk. */
  lemma DropKeeps(e: Entries, d: seq<Block>, i: nat)
    requires Coherent(e, d) && i < |e| && e[i].dev == ROOTDEV && e[i].locked && e[i].valid && e[i].refcnt > 0
    requires e[i].dirty || e[i].data == d[e[i].blockno]
    ensures var e' := e[i := e[i].(locked := false, refcnt := e[i].refcnt - 1)];
      && Coherent(e', d)
      && (forall c: nat | c < |d| :: View(e', d, c) == View(e, d, c))
      && (forall c: nat :: DirtyAt(e', c) == DirtyAt(e, c) && LockedAt(e', c) == (LockedAt(e, c) && c != e[i].blockno))
  {
    Replace(e, d, i, e[i].(locked := false, refcnt := e[i].refcnt - 1));
    FindIs(e, d, i);
    hide Coherent, Find;
  }

  /** brelse changes no block's contents; the holder must have logged or written what it changed. */
  lemma BrelseKeeps(e: Entries, d: seq<Block>, i: nat)
    requires Coherent(e, d) && i < |e| && e[i].dev == ROOTDEV && e[i].locked && e[i].valid
    requires e[i].dirty || e[i].data == d[e[i].blockno]
    requires e[i].refcnt > 0
    ensures var e' := Brelse(e, i);
      && Coherent(e', d)
      && (forall c: nat | c < |d| :: View(e', d, c) == View(e, d, c))
      && (forall c: nat :: DirtyAt(e', c) == DirtyAt(e, c) && LockedAt(e', c) == (LockedAt(e, c) && c != e[i].blockno))
  {
    hide Coherent, View, DirtyAt, LockedAt;
    var x := e[i].(locked := false, refcnt := e[i].refcnt - 1);
    DropKeeps(e, d, i);
    if x.refcnt == 0 {
      MoveShows(e[i := x], d, i);
      assert Brelse(e, i) == MoveToFront(e[i := x], i);
    }
  }

  // ---- what brelse does to the order, and what bget makes of it ----

  /** Giving up the last reference puts the buffer first and leaves the others in their order;
      giving up another one moves nothing. */
  lemma BrelseOrder(e: Entries, i: nat)
    requires i < |e| && e[i].refcnt > 0
    ensures var e' := Brelse(e, i); var x := e[i].(locked := false, refcnt := e[i].refcnt - 1);
            && |e'| == |e|
            && (e[i].refcnt > 1 ==> e' == e[i := x])
            && (e[i].refcnt == 1 ==>
                  && e'[0] == x
                  && (forall j | 0 <= j < i :: e'[j + 1] == e[j])
                  && forall j | i < j < |e| :: e'[j] == e[j])
  {
  }

  /** How many buffers may be recycled. */
  function Spares(e: Entries): nat {
    if e == [] then 0 else Spares(e[..|e| - 1]) + if e[|e| - 1].Spare() then 1 else 0
  }

  lemma {:induction false} SparesUpdate(e: Entries, j: nat, x: Entry)
    requires j < |e|
    ensures Spares(e) - 1 <= Spares(e[j := x])
    ensures !e[j].Spare() ==> Spares(e) <= Spares(e[j := x])
  {
    var last := |e| - 1;
    if j < last {
      SparesUpdate(e[..last], j, x);
      assert e[j := x][..last] == e[..last][j := x];
    } else {
      assert e[j := x][..last] == e[..last];
    }
  }

  lemma {:induction false} SomeSpare(e: Entries) returns (j: nat)
    requires Spares(e) > 0
    ensures j < |e| && e[j].Spare()
  {
    if e[|e| - 1].Spare() {
      j := |e| - 1;
    } else {
      j := SomeSpare(e[..|e| - 1]);
    }
  }

  /** bget of several blocks of a device one after the other, none of them released. */
  function BgetAll(e: Entries, dev: nat, bs: seq<nat>): Option<Entries>
    decreases |bs|
  {
    if bs == [] then Some(e)
    else
      match Bget(e, dev, bs[0])
      case None => None
      case Some(g) => BgetAll(g.entries, dev, bs[1..])
  }

  lemma BgetSpares(e: Entries, dev: nat, b: nat)
    requires |e| > 0 && Spares(e[1..]) > 0
    ensures Bget(e, dev, b).Some?
    ensures var e' := Bget(e, dev, b).value.entries;
            |e'| == |e| && e'[0].Is(e[0].dev, e[0].blockno) && Spares(e[1..]) - 1 <= Spares(e'[1..])
  {
    var j := SomeSpare(e[1..]);
    assert e[j + 1].Spare();
    var Got(i, e') := Bget(e, dev, b).value;
    assert e' == e[i := e'[i]];
    if i == 0 {
      assert e'[1..] == e[1..];
    } else {
      SparesUpdate(e[1..], i - 1, e'[i]);
      assert e'[1..] == e[1..][i - 1 := e'[i]];
    }
    hide Spares;
  }

  lemma {:induction false} FrontSurvives(e: Entries, dev: nat, bs: seq<nat>)
    requires |e| > 0 && |bs| <= Spares(e[1..])
    ensures BgetAll(e, dev, bs).Some?
    ensures var e' := BgetAll(e, dev, bs).value; |e'| == |e| && e'[0].Is(e[0].dev, e[0].blockno)
    decreases |bs|
  {
    if bs != [] {
      BgetSpares(e, dev, bs[0]);
      hide Bget, Spares;
      FrontSurvives(Bget(e, dev, bs[0]).value.entries, dev, bs[1..]);
    }
  }

  /** The least recently released buffers go first: a block whose last reference has just been given
      up is still cached after as many further bgets as there were other buffers to recycle. */
  lemma ReleasedSurvives(e: Entries, i: nat, dev: nat, bs: seq<nat>)
    requires i < |e| && e[i].refcnt == 1 && |bs| <= Spares(e[..i] + e[i + 1..])
    ensures BgetAll(Brelse(e, i), dev, bs).Some?
    ensures Find(BgetAll(Brelse(e, i), dev, bs).value, e[i].dev, e[i].blockno) >= 0
  {
    assert Brelse(e, i)[1..] == e[..i] + e[i + 1..];
    hide Spares, BgetAll;
    FrontSurvives(Brelse(e, i), dev, bs);
  }

  // ---- the same, against an uncached store ----

  /** Reading through the cache gives `view`; exactly `pins` are pinned and `held` locked. */
  ghost predicate Agrees(e: Entries, d: seq<Block>, view: seq<Block>, pins: set<nat>, held: set<nat>) {
    && Coherent(e, d) && |view| == |d|
    && (forall c: nat | c < |d| :: View(e, d, c) == view[c])
    && (forall c: nat :: DirtyAt(e, c) <==> c in pins)
    && (forall c: nat :: LockedAt(e, c) <==> c in held)
  }

  lemma BreadAgrees(e: Entries, d: seq<Block>, b: nat, view: seq<Block>, pins: set<nat>, held: set<nat>)
    requires Agrees(e, d, view, pins, held) && b < |d| && b !in held && Bread(e, d, b).Some?
    ensures var Got(i, e') := Bread(e, d, b).value;
      && Agrees(e', d, view, pins, held + {b})
      && e'[i] == Entry(ROOTDEV, b, true, b in pins, e'[i].refcnt, true, view[b]) && e'[i].refcnt > 0
      && e' == e[i := e'[i]] && !e[i].locked && (b in pins || view[b] == d[b])
  {
    BreadKeeps(e, d, b);
    if !DirtyAt(e, b) {
      CleanView(e, d, b);
    }
    assert Bread(e, d, b).value.entries[Bread(e, d, b).value.i].refcnt > 0;
    hide Coherent, View, DirtyAt, LockedAt, Bread;
  }

  lemma SetDataAgrees(e: Entries, d: seq<Block>, i: nat, data: Block, view: seq<Block>, pins: set<nat>, held: set<nat>)
    requires Agrees(e, d, view, pins, held) && i < |e| && e[i].dev == ROOTDEV && e[i].locked && e[i].valid
    ensures e[i].blockno < |view|
    ensures Agrees(e[i := e[i].(data := data)], d, view[e[i].blockno := data], pins, held)
  {
    SetDataKeeps(e, d, i, data);
    assert EntryOk(e[i], d);
    hide Coherent, View, DirtyAt, LockedAt;
  }

  lemma MarkDirtyAgrees(e: Entries, d: seq<Block>, i: nat, view: seq<Block>, pins: set<nat>, held: set<nat>)
    requires Agrees(e, d, view, pins, held) && i < |e| && e[i].dev == ROOTDEV && e[i].locked && e[i].valid
    ensures Agrees(e[i := e[i].(dirty := true)], d, view, pins + {e[i].blockno}, held)
  {
    MarkDirtyKeeps(e, d, i);
    hide Coherent, View, DirtyAt, LockedAt;
  }

  lemma WriteAgrees(e: Entries, d: seq<Block>, i: nat, view: seq<Block>, pins: set<nat>, held: set<nat>)
    requires Agrees(e, d, view, pins, held) && i < |e| && e[i].dev == ROOTDEV && e[i].locked && e[i].valid
    ensures e[i].blockno < |d|
    ensures Agrees(e[i := e[i].(dirty := false)], d[e[i].blockno := e[i].data], view, pins - {e[i].blockno}, held)
  {
    WriteKeeps(e, d, i);
    assert EntryOk(e[i], d);
    hide Coherent, View, DirtyAt, LockedAt;
  }

  lemma BrelseAgrees(e: Entries, d: seq<Block>, i: nat, view: seq<Block>, pins: set<nat>, held: set<nat>)
    requires Agrees(e, d, view, pins, held) && i < |e| && e[i].dev == ROOTDEV && e[i].locked && e[i].valid
    requires e[i].dirty || (e[i].blockno < |d| && e[i].data == d[e[i].blockno])
    requires e[i].refcnt > 0
    ensures Agrees(Brelse(e, i), d, view, pins, held - {e[i].blockno})
  {
    assert EntryOk(e[i], d);
    BrelseKeeps(e, d, i);
    hide Coherent, View, DirtyAt, LockedAt, Brelse;
  }
}
