/** bio.c: the buffer cache as a circular doubly linked list of buffers threaded through
    a sentinel, over the synchronous disk of memide.c. */
module BufferCache {
  import opened Blocks
  import opened Params
  import opened Sets
  import Spec = CacheSpec

  /** A disk whose blocks are written one at a time; `trace` records every state it has been in. */
  class Disk {
    var blocks: seq<Block>
    ghost var trace: seq<seq<Block>>

    constructor (image: seq<Block>)
      ensures blocks == image && trace == []
    {
      blocks := image;
      trace := [];
    }

    method Write(b: nat, data: Block)
      requires b < |blocks|
      modifies this
      ensures blocks == old(blocks)[b := data] && trace == old(trace) + [blocks]
    {
      blocks := blocks[b := data];
      trace := trace + [blocks];
    }
  }

  class Buf {
    var dev: nat
    var blockno: nat
    var valid: bool
    var dirty: bool
    var refcnt: nat
    var locked: bool
    var data: Block
    var prev: Buf?
    var next: Buf?
    ghost var released: nat // when it was last put at the head of the list

    ghost predicate Blank()
      reads `dev, `refcnt, `valid, `dirty, `locked
    {
      dev == 0 && refcnt == 0 && !valid && !dirty && !locked
    }

    ghost function Snap(): Spec.Entry
      reads this
    {
      Spec.Entry(dev, blockno, valid, dirty, refcnt, locked, data)
    }

    constructor ()
      ensures Blank() && blockno == 0 && prev == null && next == null
    {
      dev, blockno, valid, dirty, refcnt, locked, data := 0, 0, false, false, 0, false, ZeroBlock();
      prev, next := null, null;
    }
  }

  /** ring[0] is the sentinel; the others follow through `next`, most recently released first. */
  ghost predicate Linked(ring: seq<Buf>)
    reads ring`prev, ring`next
  {
    && |ring| > 0
    && (forall i | 0 <= i < |ring| - 1 :: ring[i].next == ring[i + 1] && ring[i + 1].prev == ring[i])
    && ring[|ring| - 1].next == ring[0] && ring[0].prev == ring[|ring| - 1]
  }

  function Without(ring: seq<Buf>, k: nat): seq<Buf>
    requires 1 <= k < |ring|
  {
    ring[..k] + ring[k + 1..]
  }

  function AtFront(ring: seq<Buf>, b: Buf): seq<Buf>
    requires |ring| > 0
  {
    [ring[0], b] + ring[1..]
  }

  lemma AtFrontElements(ring: seq<Buf>, b: Buf)
    requires |ring| > 0
    ensures |AtFront(ring, b)| == |ring| + 1
    ensures forall x :: x in AtFront(ring, b) <==> x in ring || x == b
  {
    assert ring == [ring[0]] + ring[1..];
  }

  lemma AtFrontKeeps(ring: seq<Buf>, b: Buf)
    requires |ring| > 0 && NoRepeats(ring) && b !in ring
    ensures NoRepeats(AtFront(ring, b)) && AtFront(ring, b)[0] == ring[0]
  {
  }

  lemma WithoutKeeps(ring: seq<Buf>, k: nat)
    requires 1 <= k < |ring| && NoRepeats(ring)
    ensures NoRepeats(Without(ring, k)) && Without(ring, k)[0] == ring[0] && ring[k] !in Without(ring, k)
    ensures forall x | x in Without(ring, k) :: x in ring
  {
  }

  method Unlink(b: Buf, ghost ring: seq<Buf>, ghost k: nat)
    requires Linked(ring) && NoRepeats(ring) && 1 <= k < |ring| && ring[k] == b
    modifies ring`prev, ring`next
    ensures Linked(Without(ring, k))
  {
    assert ring[k - 1].next == ring[k - 1 + 1] && ring[k - 1 + 1].prev == ring[k - 1];
    assert b.prev == ring[k - 1] && b.next == if k + 1 < |ring| then ring[k + 1] else ring[0];
    b.next.prev := b.prev;
    b.prev.next := b.next;
  }

  method LinkFront(head: Buf, b: Buf, ghost ring: seq<Buf>)
    requires Linked(ring) && NoRepeats(ring) && ring[0] == head && b !in ring
    modifies ring`prev, ring`next, b`prev, b`next
    ensures Linked(AtFront(ring, b))
  {
    assert head.next == if |ring| > 1 then ring[1] else head;
    b.next := head.next;
    b.prev := head;
    head.next.prev := b;
    head.next := b;
    ghost var r := AtFront(ring, b);
    assert forall i | 2 <= i < |r| :: r[i] == ring[i - 1];
  }

  /** The buffers behind the sentinel, as values. */
  ghost function Snaps(ring: seq<Buf>): (e: Spec.Entries)
    requires |ring| > 0
    reads ring
    ensures |e| == |ring| - 1
    ensures forall i | 0 <= i < |e| :: e[i] == ring[i + 1].Snap()
  {
    seq(|ring| - 1, i requires 0 <= i < |ring| - 1 reads ring => ring[i + 1].Snap())
  }

  lemma SnapsMoved(ring: seq<Buf>, k: nat)
    requires k + 1 < |ring|
    ensures Snaps(AtFront(Without(ring, k + 1), ring[k + 1])) == Spec.MoveToFront(Snaps(ring), k)
  {
  }

  lemma MovedElements(ring: seq<Buf>, k: nat)
    requires k + 1 < |ring|
    ensures forall x :: x in AtFront(Without(ring, k + 1), ring[k + 1]) <==> x in ring
  {
    AtFrontElements(Without(ring, k + 1), ring[k + 1]);
    assert ring == ring[..k + 1] + [ring[k + 1]] + ring[k + 2..];
  }

  twostate lemma SnapsSame(ring: seq<Buf>)
    requires |ring| > 0 && forall x: Buf | x in ring :: x.Snap() == old(x.Snap())
    ensures Snaps(ring) == old(Snaps(ring))
  {
  }

  /** The list runs from the most to the least recently released buffer. */
  ghost predicate ByRelease(ring: seq<Buf>, clock: nat)
    reads ring`released
  {
    && (forall i, j | 1 <= i < j < |ring| :: ring[i].released > ring[j].released)
    && forall i | 1 <= i < |ring| :: ring[i].released < clock
  }

  lemma ByReleaseAtFront(ring: seq<Buf>, b: Buf, clock: nat)
    requires |ring| > 0 && ByRelease(ring, clock) && b.released == clock
    ensures ByRelease(AtFront(ring, b), clock + 1)
  {
    var r := AtFront(ring, b);
    assert forall i | 2 <= i < |r| :: r[i] == ring[i - 1];
  }

  /** b stands right behind the sentinel, and the others in the order they had. */
  ghost predicate MovedToFront(was: seq<Buf>, ring: seq<Buf>, b: Buf) {
    exists k :: 1 <= k < |was| && was[k] == b && ring == [was[0], b] + was[1..k] + was[k + 1..]
  }

  lemma MovedToFrontIs(was: seq<Buf>, k: nat)
    requires 1 <= k < |was|
    ensures MovedToFront(was, AtFront(Without(was, k), was[k]), was[k])
  {
    assert AtFront(Without(was, k), was[k]) == [was[0], was[k]] + was[1..k] + was[k + 1..];
  }

  lemma ByReleaseWithout(ring: seq<Buf>, k: nat, clock: nat)
    requires 1 <= k < |ring| && ByRelease(ring, clock)
    ensures ByRelease(Without(ring, k), clock)
  {
  }

  class Cache {
    const disk: Disk
    const head: Buf
    const buf: seq<Buf>
    ghost const objs: set<Buf> // head and the elements of buf
    ghost var ring: seq<Buf>
    ghost var clock: nat
    ghost var view: seq<Block>
    ghost var pins: set<nat>
    ghost var held: set<nat>

    ghost predicate Ring()
      reads this`ring, this`clock, ring`prev, ring`next, ring`released
    {
      && |ring| > 0 && ring[0] == head
      && (forall b | b in ring :: b in objs)
      && Linked(ring) && NoRepeats(ring) && ByRelease(ring, clock)
    }

    ghost predicate Valid()
      reads this`ring, this`clock, ring`prev, ring`next, ring`released
    {
      Ring() && |ring| == NBUF + 1 && forall b | b in objs :: b in ring
    }

    ghost function Entries(): Spec.Entries
      requires |ring| > 0
      reads this`ring, ring
    {
      Snaps(ring)
    }

    /** Every buffer is referenced or pinned. */
    ghost predicate Exhausted()
      reads this`ring, ring
    {
      |ring| > 0 && forall e | e in Entries() :: !e.Spare()
    }

    method LinkReleased(b: Buf)
      requires Ring() && b !in ring && b in objs
      modifies objs`prev, objs`next, b`released
      ensures Linked(AtFront(ring, b)) && ByRelease(AtFront(ring, b), clock + 1)
    {
      hide Linked, AtFront, NoRepeats;
      LinkFront(head, b, ring);
      b.released := clock;
      ByReleaseAtFront(ring, b, clock);
    }

    /** Link b in at the head of the list, as the most recently released buffer. */
    method Push(b: Buf)
      requires Ring() && b !in ring && b in objs
      modifies this`ring, this`clock, objs`prev, objs`next, b`released
      ensures Ring() && ring == AtFront(old(ring), b)
    {
      AtFrontElements(ring, b);
      assert forall x | x in AtFront(ring, b) :: x in objs;
      AtFrontKeeps(ring, b);
      hide AtFront, Linked, NoRepeats, ByRelease;
      LinkReleased(b);
      clock := clock + 1;
      ring := AtFront(ring, b);
    }

    /** Take the k-th buffer out of the list. */
    method Remove(b: Buf, ghost k: nat)
      requires Ring() && 1 <= k < |ring| && ring[k] == b
      modifies this`ring, objs`prev, objs`next
      ensures Ring() && ring == Without(old(ring), k) && b !in ring
    {
      hide Linked, NoRepeats, ByRelease;
      WithoutKeeps(ring, k);
      ByReleaseWithout(ring, k, clock);
      Unlink(b, ring, k);
      ring := Without(ring, k);
    }

    /** binit: the buffers are linked in behind the sentinel one after the other. */
    constructor (disk: Disk)
      ensures Valid() && fresh(objs) && this.disk == disk
      ensures forall b | b in objs && b != head :: b.Blank()
    {
      this.disk := disk;
      var h := new Buf();
      head := h;
      var bs: seq<Buf> := [];
      for n := 0 to NBUF
        invariant |bs| == n && fresh(bs) && NoRepeats(bs) && h !in bs
        invariant forall b | b in bs :: b.Blank()
      {
        var b := new Buf();
        bs := bs + [b];
      }
      buf := bs;
      objs := {h} + set b | b in bs;
      new;
      Binit();
    }

    method Binit()
      requires |buf| == NBUF && NoRepeats(buf) && head !in buf
      requires forall b :: b in objs <==> b == head || b in buf
      modifies this`ring, this`clock, objs`prev, objs`next, objs`released
      ensures Valid()
    {
      head.prev := head;
      head.next := head;
      ring := [head];
      clock := 0;
      assert Ring();
      hide Linked, ByRelease, AtFront;
      for n := 0 to NBUF
        invariant |ring| == n + 1 && Ring()
        invariant forall b :: b in ring <==> b == head || b in buf[..n]
      {
        assert buf[n] !in buf[..n];
        hide Ring, NoRepeats;
        BinitStep(n);
      }
      assert buf[..NBUF] == buf;
    }

    method BinitStep(n: nat)
      requires Ring() && n < |buf| && buf[n] in objs && buf[n] !in ring
      requires forall b :: b in ring <==> b == head || b in buf[..n]
      modifies this`ring, this`clock, objs`prev, objs`next, objs`released
      ensures Ring() && |ring| == |old(ring)| + 1
      ensures forall b :: b in ring <==> b == head || b in buf[..n + 1]
    {
      assert buf[..n + 1] == buf[..n] + [buf[n]];
      AtFrontElements(ring, buf[n]);
      hide AtFront, Ring;
      Push(buf[n]);
    }

    /** The entry of the k-th buffer after a change to that buffer alone. */
    twostate lemma OneChanged(k: nat)
      requires |old(ring)| > 0 && ring == old(ring) && k + 1 < |ring| && Ring()
      requires forall b: Buf | b in old(ring) && b != ring[k + 1] :: b.Snap() == old(b.Snap())
      ensures Entries() == old(Entries())[k := ring[k + 1].Snap()]
    {
    }

    twostate lemma OthersUnchanged(k: nat)
      requires |old(ring)| > 0 && ring == old(ring) && k + 1 < |ring| && ring[0] == head && Valid()
      requires Entries() == old(Entries())[k := Entries()[k]]
      ensures forall x: Buf | x in objs && x != ring[k + 1] && x != head :: x.Snap() == old(x.Snap())
    {
      forall x: Buf | x in objs && x != ring[k + 1] && x != head
        ensures x.Snap() == old(x.Snap())
      {
        var i :| 0 <= i < |ring| && ring[i] == x;
        assert Entries()[i - 1] == x.Snap() && old(Entries())[i - 1] == old(x.Snap());
      }
    }

    ghost predicate At(b: Buf, k: nat)
      reads this`ring, this`clock, ring`prev, ring`next, ring`released
    {
      Valid() && k < NBUF && ring[k + 1] == b && b in objs && b != head
    }

    /** bget's first loop, along `next`. */
    method Lookup(dev: nat, blockno: nat) returns (b: Buf?, ghost i: int)
      requires Valid()
      ensures i == Spec.Find(Entries(), dev, blockno)
      ensures if i < 0 then b == null else b != null && At(b, i)
      ensures b == null ==> forall x: Buf | x in objs && x != head :: x.dev != dev || x.blockno != blockno
      ensures b != null ==> b in objs && b.dev == dev && b.blockno == blockno
    {
      var p := head.next;
      i := 0;
      while p != head
        invariant 0 <= i <= NBUF && p == if i < NBUF then ring[i + 1] else head
        invariant forall j | 0 <= j < i :: !Entries()[j].Is(dev, blockno)
        decreases NBUF - i
      {
        assert Entries()[i] == p.Snap();
        if p.dev == dev && p.blockno == blockno {
          return p, i;
        }
        assert ring[i + 1].next == if i + 1 < NBUF then ring[i + 1 + 1] else head;
        p := p.next;
        i := i + 1;
      }
      forall x: Buf | x in objs && x != head ensures x.dev != dev || x.blockno != blockno {
        var m: nat :| m < |ring| && ring[m] == x;
        assert Entries()[m - 1] == x.Snap();
      }
      return null, -1;
    }

    /** bget's second loop, along `prev`: the buffer found is the least recently released one
        that is neither referenced nor pinned. */
    method Recyclable() returns (b: Buf?, ghost i: int)
      requires Valid()
      ensures i == Spec.Victim(Entries())
      ensures if i < 0 then b == null else b != null && At(b, i)
      ensures b != null ==> b.refcnt == 0 && !b.dirty
      ensures b != null ==> forall k | 1 <= k < |ring| && ring[k].refcnt == 0 && !ring[k].dirty ::
              b.released <= ring[k].released
      ensures b == null ==> forall k | 1 <= k < |ring| :: ring[k].refcnt > 0 || ring[k].dirty
    {
      var p := head.prev;
      i := NBUF - 1;
      while p != head
        invariant -1 <= i < NBUF && p == ring[i + 1]
        invariant forall j | i < j < NBUF :: !Entries()[j].Spare()
        decreases i
      {
        assert Entries()[i] == p.Snap();
        if p.refcnt == 0 && !p.dirty {
          b := p;
          forall k | 1 <= k < |ring| && ring[k].refcnt == 0 && !ring[k].dirty ensures b.released <= ring[k].released {
            assert Entries()[k - 1].Spare();
          }
          return;
        }
        assert ring[i + 1].prev == ring[i];
        p := p.prev;
        i := i - 1;
      }
      b, i := null, -1;
      forall k | 1 <= k < |ring| ensures ring[k].refcnt > 0 || ring[k].dirty {
        assert !Entries()[k - 1].Spare();
      }
    }

    method Reference(b: Buf, ghost k: nat)
      requires At(b, k)
      modifies b`refcnt
      ensures At(b, k) && Entries() == old(Entries())[k := old(b.Snap()).(refcnt := old(b.refcnt) + 1)]
    {
      hide Ring;
      b.refcnt := b.refcnt + 1;
      OneChanged(k);
    }

    method Recycle(b: Buf, ghost k: nat, dev: nat, blockno: nat)
      requires At(b, k)
      modifies b`dev, b`blockno, b`valid, b`dirty, b`refcnt
      ensures At(b, k) && Entries() == old(Entries())[k := Spec.Entry(dev, blockno, false, false, 1, b.locked, b.data)]
    {
      hide Ring;
      b.dev := dev;
      b.blockno := blockno;
      b.valid, b.dirty := false, false;
      b.refcnt := 1;
      OneChanged(k);
    }

    /** bget's critical section; null is its panic. */
    method Bget(dev: nat, blockno: nat) returns (b: Buf?, ghost k: nat)
      requires Valid()
      modifies objs`dev, objs`blockno, objs`valid, objs`dirty, objs`refcnt
      ensures Valid() && (b != null ==> At(b, k))
      ensures match Spec.Bget(old(Entries()), dev, blockno)
              case None => b == null && Entries() == old(Entries())
              case Some(g) => b != null && k == g.i && Entries() == g.entries
    {
      hide Ring, Snaps, Spec.Find, Spec.Victim;
      k := 0;
      ghost var i;
      b, i := Lookup(dev, blockno);
      if b != null {
        k := i;
        Reference(b, k);
      } else {
        b, i := Recyclable();
        if b != null {
          k := i;
          Recycle(b, k, dev, blockno);
        }
      }
    }

    // ---- the cache as a block store ----

    /** Reading block c gives view[c], the blocks in `pins` are waiting for the log, the blocks
        in `held` are in somebody's hands. */
    ghost predicate Ok()
      reads this, ring, disk
      ensures Ok() ==> |view| == |disk.blocks|
    {
      Valid() && Spec.Agrees(Entries(), disk.blocks, view, pins, held)
    }

    /** The caller has b's sleep-lock and may look at its data. */
    ghost predicate Held(b: Buf)
      reads this`ring, b`dev, b`locked, b`valid, b`refcnt
    {
      b in objs && b != head && b.dev == ROOTDEV && b.locked && b.valid && b.refcnt > 0
    }

    lemma HeldIndex(b: Buf) returns (k: nat)
      requires Valid() && Held(b)
      ensures At(b, k) && Entries()[k] == b.Snap()
    {
      var i :| 0 <= i < |ring| && ring[i] == b;
      k := i - 1;
    }

    /** iderw: write a dirty buffer, else fill an empty one. Its panics are preconditions. */
    method Iderw(b: Buf)
      requires b.locked && !(b.valid && !b.dirty) && b.dev == ROOTDEV && b.blockno < |disk.blocks|
      modifies b`dirty, b`valid, b`data, disk
      ensures b.valid && !b.dirty
      ensures old(b.dirty) ==> b.data == old(b.data) && disk.blocks == old(disk.blocks)[b.blockno := b.data]
                               && disk.trace == old(disk.trace) + [disk.blocks]
      ensures !old(b.dirty) ==>
        disk.blocks == old(disk.blocks) && b.data == disk.blocks[b.blockno] && disk.trace == old(disk.trace)
    {
      if b.dirty {
        b.dirty := false;
        disk.Write(b.blockno, b.data);
      } else {
        b.data := disk.blocks[b.blockno];
      }
      b.valid := true;
    }

    /** Take the sleep-lock and fill the buffer, the part of bread after bget. */
    method LockAndFill(b: Buf, ghost k: nat)
      requires At(b, k) && b.dev == ROOTDEV && b.blockno < |disk.blocks| && !b.locked && (b.dirty ==> b.valid)
      modifies b`locked, b`valid, b`dirty, b`data, disk
      ensures At(b, k) && disk.blocks == old(disk.blocks) && disk.trace == old(disk.trace)
      ensures Entries() == old(Entries())[k := old(b.Snap()).(locked := true, valid := true,
                             data := if old(b.valid) then old(b.data) else disk.blocks[old(b.blockno)])]
    {
      hide Ring;
      b.locked := true;
      if !b.valid {
        Iderw(b);
      }
      OneChanged(k);
    }

    /** bget, then lock and fill, exactly as on values. */
    method BreadEntry(blockno: nat) returns (b: Buf?, ghost k: nat)
      requires Ok() && blockno < |disk.blocks| && blockno !in held
      modifies objs`dev, objs`blockno, objs`valid, objs`dirty, objs`refcnt, objs`locked, objs`data, disk
      ensures Valid() && disk.blocks == old(disk.blocks) && disk.trace == old(disk.trace)
      ensures match Spec.Bread(old(Entries()), disk.blocks, blockno)
              case None => b == null && Entries() == old(Entries())
              case Some(g) => b != null && k == g.i && At(b, k) && Entries() == g.entries && !old(b.locked)
    {
      ghost var e, d := Entries(), disk.blocks;
      b, k := Bget(ROOTDEV, blockno);
      hide Ring;
      if b != null {
        Spec.BgetGives(e, d, blockno);
        assert Entries()[k] == b.Snap() && e[k] == old(b.Snap());
        hide Spec.Coherent, Spec.View, Spec.DirtyAt, Spec.LockedAt, Spec.Find, Spec.Bget;
        LockAndFill(b, k);
      }
    }

    /** What brelse asks of its caller: every change was logged or written. */
    ghost predicate Releasable(b: Buf)
      reads b`dirty, b`blockno, b`data, disk
    {
      b.dirty || (b.blockno < |disk.blocks| && b.data == disk.blocks[b.blockno])
    }

    lemma HeadFirst()
      requires Valid()
      ensures |ring| == NBUF + 1 && ring[0] == head
    {
    }

    /** bread, with the position of the buffer. */
    method BreadAt(blockno: nat) returns (b: Buf?, ghost k: nat)
      requires Ok() && blockno < |disk.blocks| && blockno !in held
      modifies objs, disk
      ensures Valid() && disk.blocks == old(disk.blocks) && disk.trace == old(disk.trace)
      ensures if b == null then Entries() == old(Entries()) && Exhausted()
              else
                && At(b, k) && Spec.Agrees(Entries(), disk.blocks, view, pins, held + {blockno})
                && Entries() == old(Entries())[k := Entries()[k]] && !old(b.locked) && Held(b) && Releasable(b)
                && b.blockno == blockno && b.data == view[blockno]
    {
      hide Ring, Spec.Agrees, Spec.Find, Spec.Victim, Spec.Bget;
      ghost var e, d := Entries(), disk.blocks;
      b, k := BreadEntry(blockno);
      if b == null {
        Spec.BreadFails(e, d, blockno);
      } else {
        Spec.BreadAgrees(e, d, blockno, view, pins, held);
        assert Entries()[k] == b.Snap();
      }
    }

    /** bread. It fails only when every buffer is referenced or pinned. */
    method Bread(blockno: nat) returns (b: Buf?)
      requires Ok() && blockno < |disk.blocks| && blockno !in held
      modifies this`held, objs, disk
      ensures Ok() && disk.blocks == old(disk.blocks) && disk.trace == old(disk.trace)
      ensures b == null ==> held == old(held) && Exhausted()
      ensures b != null ==> held == old(held) + {blockno} && Held(b) && Releasable(b) && !old(b.locked)
      ensures b != null ==> b.blockno == blockno && b.data == view[blockno]
      ensures b != null ==> forall x: Buf | x in objs && x != b && x != head :: x.Snap() == old(x.Snap())
    {
      hide Ring, Spec.Agrees, Snaps, Held, Releasable, Exhausted;
      ghost var k;
      HeadFirst();
      b, k := BreadAt(blockno);
      if b != null {
        OthersUnchanged(k);
        held := held + {blockno};
      }
    }

    /** The holder overwrites the buffer (the memmove of write_log and install_trans). */
    method SetData(b: Buf, data: Block)
      requires Ok() && Held(b)
      modifies this`view, b`data
      ensures Ok() && Held(b) && b.data == data
      ensures b.blockno < |old(view)| && view == old(view)[b.blockno := data]
    {
      hide Ring, Spec.Agrees, Snaps;
      ghost var k := HeldIndex(b);
      Spec.SetDataAgrees(Entries(), disk.blocks, k, data, view, pins, held);
      b.data := data;
      OneChanged(k);
      view := view[b.blockno := data];
    }

    /** The pinning half of log_write. */
    method MarkDirty(b: Buf)
      requires Ok() && Held(b)
      modifies this`pins, b`dirty
      ensures Ok() && Held(b) && Releasable(b) && pins == old(pins) + {b.blockno}
    {
      hide Ring, Spec.Agrees, Snaps;
      ghost var k := HeldIndex(b);
      Spec.MarkDirtyAgrees(Entries(), disk.blocks, k, view, pins, held);
      b.dirty := true;
      OneChanged(k);
      pins := pins + {b.blockno};
    }

    /** bwrite: the block reaches the disk and is no longer pinned. */
    method Bwrite(b: Buf)
      requires Ok() && Held(b)
      modifies this`pins, b`dirty, b`valid, b`data, disk
      ensures Ok() && Held(b) && b.data == old(b.data) && Releasable(b)
      ensures b.blockno < |old(disk.blocks)| && disk.blocks == old(disk.blocks)[b.blockno := b.data]
      ensures disk.trace == old(disk.trace) + [disk.blocks]
      ensures pins == old(pins) - {b.blockno}
    {
      hide Ring, Spec.Agrees, Snaps;
      ghost var k := HeldIndex(b);
      Spec.WriteAgrees(Entries(), disk.blocks, k, view, pins, held);
      WriteEntry(b, k);
      pins := pins - {b.blockno};
    }

    method WriteEntry(b: Buf, ghost k: nat)
      requires At(b, k) && b.locked && b.valid && b.dev == ROOTDEV && b.blockno < |disk.blocks|
      modifies b`dirty, b`valid, b`data, disk
      ensures At(b, k) && b.valid && b.data == old(b.data) && !b.dirty
      ensures disk.blocks == old(disk.blocks)[b.blockno := b.data] && disk.trace == old(disk.trace) + [disk.blocks]
      ensures Entries() == old(Entries())[k := old(b.Snap()).(dirty := false)]
    {
      hide Ring;
      b.dirty := true;
      Iderw(b);
      OneChanged(k);
    }

    method Drop(b: Buf, ghost k: nat)
      requires At(b, k) && b.refcnt > 0
      modifies b`locked, b`refcnt
      ensures At(b, k) && !b.locked && b.refcnt == old(b.refcnt) - 1
      ensures Entries() == old(Entries())[k := old(b.Snap()).(locked := false, refcnt := old(b.refcnt) - 1)]
    {
      hide Ring;
      b.locked := false;
      b.refcnt := b.refcnt - 1;
      OneChanged(k);
    }

    /** The relinking at the end of brelse. */
    method Relink(b: Buf, ghost k: nat)
      requires At(b, k)
      modifies this`ring, this`clock, objs`prev, objs`next, b`released
      ensures Valid() && ring == AtFront(Without(old(ring), k + 1), b)
      ensures MovedToFront(old(ring), ring, b)
    {
      MovedToFrontIs(ring, k + 1);
      MovedElements(ring, k);
      AtFrontElements(Without(ring, k + 1), b);
      WithoutKeeps(ring, k + 1);
      assert |Without(ring, k + 1)| == |ring| - 1;
      hide AtFront, Without;
      Remove(b, k + 1);
      Push(b);
      hide Ring;
    }

    method MoveToFront(b: Buf, ghost k: nat)
      requires At(b, k)
      modifies this`ring, this`clock, objs`prev, objs`next, b`released
      ensures Valid() && Entries() == Spec.MoveToFront(old(Entries()), k) && MovedToFront(old(ring), ring, b)
    {
      hide Ring, AtFront, Without, Spec.MoveToFront, MovedToFront;
      HeadFirst();
      MovedElements(ring, k);
      Relink(b, k);
      SnapsMoved(old(ring), k);
      SnapsSame(old(ring));
    }

    /** brelse, exactly as on values: on the last reference the buffer moves to the front. */
    method BrelseEntry(b: Buf, ghost k: nat)
      requires At(b, k) && b.refcnt > 0
      modifies this`ring, this`clock, objs`prev, objs`next, b`released, b`locked, b`refcnt
      ensures Valid() && Entries() == Spec.Brelse(old(Entries()), k)
      ensures !b.locked && b.refcnt == old(b.refcnt) - 1
      ensures old(b.refcnt) > 1 ==> ring == old(ring) && b.released == old(b.released)
      ensures old(b.refcnt) == 1 ==> MovedToFront(old(ring), ring, b)
    {
      hide MovedToFront;
      assert Entries()[k] == b.Snap();
      Drop(b, k);
      hide Ring;
      if b.refcnt == 0 {
        MoveToFront(b, k);
      }
    }

    lemma FrontIsLatest(was: seq<Buf>, b: Buf)
      requires Valid() && MovedToFront(was, ring, b)
      ensures head.next == b && forall x | x in objs && x != head && x != b :: x.released < b.released
    {
      assert ring[1] == b && ring[0] == head;
    }

    /** brelse of a buffer that was not changed, or was logged or written. Giving up the last
        reference makes it the most recently released one, right behind the sentinel, and leaves
        the others in their order; giving up another one moves nothing. */
    method Brelse(b: Buf)
      requires Ok() && Held(b) && Releasable(b)
      modifies this`ring, this`clock, this`held, objs`prev, objs`next, b`released, b`locked, b`refcnt
      ensures Ok() && held == old(held) - {b.blockno}
      ensures !b.locked && b.refcnt == old(b.refcnt) - 1
      ensures old(b.refcnt) > 1 ==> ring == old(ring) && b.released == old(b.released)
      ensures old(b.refcnt) == 1 ==> MovedToFront(old(ring), ring, b) && head.next == b
      ensures old(b.refcnt) == 1 ==> forall x | x in objs && x != head && x != b :: x.released < b.released
    {
      hide Ring, Snaps, Spec.Agrees, Spec.Brelse, MovedToFront;
      ghost var k := HeldIndex(b);
      Spec.BrelseAgrees(Entries(), disk.blocks, k, view, pins, held);
      BrelseEntry(b, k);
      if b.refcnt == 0 {
        FrontIsLatest(old(ring), b);
      }
      held := held - {b.blockno};
    }
  }
}
