/** Which blocks a write to a file logs, read off the blocks its file owned before (o0) and owns
    after (o), and how many these can be. */
module Reservation {
  import opened Blocks
  import opened FileLayout
  import opened FileContents
  import opened Sets

  type Owner = map<nat, Place>

  /** No block of o0 has moved. */
  ghost predicate Extends(o0: Owner, o: Owner) {
    forall b | b in o0 :: b in o && o[b] == o0[b]
  }

  function Fresh(o0: Owner, o: Owner): set<nat> {
    set b | b in o && b !in o0
  }

  /** The blocks of the free map that mark the fresh blocks. */
  function FreshMaps(sb: Super, o0: Owner, o: Owner): set<nat> {
    set b | b in Fresh(o0, o) :: sb.MapBlock(b)
  }

  function TableOf(o: Owner, i: nat): set<nat> {
    set b | b in o && o[b] == Place(i, TABLE)
  }

  /** A block has been entered in a table, or a table is new. */
  predicate TableWritten(o0: Owner, o: Owner) {
    exists b :: b in o && b !in o0 && o[b].k >= NDIRECT
  }

  /** What allocation for inode i logs: the fresh blocks, which balloc zeroes, their bits, and the
      table if it has a new entry. */
  function Taken(sb: Super, o0: Owner, o: Owner, i: nat): set<nat> {
    Fresh(o0, o) + FreshMaps(sb, o0, o) + if TableWritten(o0, o) then TableOf(o, i) else {}
  }

  /** The data blocks of file i from block `first` on. */
  function Data(o: Owner, i: nat, first: nat, count: nat): set<nat> {
    set b | b in o && o[b].i == i && first <= o[b].k < first + count
  }

  predicate HasBlock(o: Owner, i: nat, k: nat) {
    exists b :: b in o && o[b] == Place(i, k)
  }

  /** No data block below n is free. */
  ghost predicate OwnedBelow(sb: Super, o: Owner, n: nat) {
    forall x: nat | sb.datastart <= x < n :: x in o
  }

  /** The fresh blocks were the lowest free ones. */
  ghost predicate FirstFit(sb: Super, o0: Owner, o: Owner) {
    forall b | b in o && b !in o0 :: OwnedBelow(sb, o, b)
  }

  /** Allocation for inode i has logged l, having found l0 logged, and has taken the lowest free
      blocks. */
  ghost predicate Allocated(sb: Super, o0: Owner, o: Owner, i: nat, l0: set<nat>, l: set<nat>) {
    l == l0 + Taken(sb, o0, o, i) && FirstFit(sb, o0, o)
  }

  lemma FirstFitTrans(sb: Super, o0: Owner, o1: Owner, o2: Owner)
    requires Extends(o0, o1) && Extends(o1, o2) && FirstFit(sb, o0, o1) && FirstFit(sb, o1, o2)
    ensures FirstFit(sb, o0, o2)
  {
    forall b | b in o2 && b !in o0 ensures OwnedBelow(sb, o2, b) {
      if b in o1 {
        assert OwnedBelow(sb, o1, b);
      }
    }
  }

  lemma TakenNone(sb: Super, o: Owner, i: nat)
    ensures Taken(sb, o, o, i) == {}
  {
  }

  lemma AllocatedNone(sb: Super, o: Owner, i: nat, l: set<nat>)
    ensures Allocated(sb, o, o, i, l, l)
  {
    TakenNone(sb, o, i);
  }

  /** The lowest free block, for slot k. */
  lemma AllocatedOne(sb: Super, o: Owner, i: nat, k: nat, b: nat, l: set<nat>)
    requires b !in o && OwnedBelow(sb, o, b)
    ensures var o' := o[b := Place(i, k)];
            Allocated(sb, o, o', i, l, l + {b, sb.MapBlock(b)} + if k >= NDIRECT then TableOf(o', i) else {})
  {
    TakenOne(sb, o, i, k, b);
    hide Taken;
    var o' := o[b := Place(i, k)];
    assert OwnedBelow(sb, o', b);
  }

  lemma AllocatedTrans(sb: Super, o0: Owner, o1: Owner, o2: Owner, i: nat, l0: set<nat>, l1: set<nat>, l2: set<nat>)
    requires Extends(o0, o1) && Extends(o1, o2) && Allocated(sb, o0, o1, i, l0, l1) && Allocated(sb, o1, o2, i, l1, l2)
    ensures Allocated(sb, o0, o2, i, l0, l2)
  {
    TakenTrans(sb, o0, o1, o2, i);
    FirstFitTrans(sb, o0, o1, o2);
    hide Taken, Extends, FirstFit;
  }

  lemma TakenOne(sb: Super, o: Owner, i: nat, k: nat, b: nat)
    requires b !in o
    ensures var o' := o[b := Place(i, k)];
      Extends(o, o') && Fresh(o, o') == {b} &&
        Taken(sb, o, o', i) == {b, sb.MapBlock(b)} + if k >= NDIRECT then TableOf(o', i) else {}
  {
    var o' := o[b := Place(i, k)];
    assert Fresh(o, o') == {b};
    assert k >= NDIRECT ==> TableWritten(o, o') by {
      assert b in o' && b !in o;
    }
    hide TableOf;
  }

  lemma TakenTrans(sb: Super, o0: Owner, o1: Owner, o2: Owner, i: nat)
    requires Extends(o0, o1) && Extends(o1, o2)
    ensures Extends(o0, o2) && Fresh(o0, o2) == Fresh(o0, o1) + Fresh(o1, o2)
    ensures Taken(sb, o0, o2, i) == Taken(sb, o0, o1, i) + Taken(sb, o1, o2, i)
  {
    assert Fresh(o0, o2) == Fresh(o0, o1) + Fresh(o1, o2);
    assert FreshMaps(sb, o0, o2) == FreshMaps(sb, o0, o1) + FreshMaps(sb, o1, o2);
    TablesTrans(o0, o1, o2, i);
    hide Fresh, FreshMaps, TableOf, TableWritten;
  }

  lemma TablesTrans(o0: Owner, o1: Owner, o2: Owner, i: nat)
    requires Extends(o0, o1) && Extends(o1, o2)
    ensures TableWritten(o0, o2) == (TableWritten(o0, o1) || TableWritten(o1, o2))
    ensures TableOf(o1, i) <= TableOf(o2, i)
    ensures !TableWritten(o1, o2) ==> TableOf(o1, i) == TableOf(o2, i)
  {
    if TableWritten(o0, o1) {
      var b :| b in o1 && b !in o0 && o1[b].k >= NDIRECT;
      assert b in o2 && b !in o0 && o2[b].k >= NDIRECT;
    }
    if TableWritten(o1, o2) {
      var b :| b in o2 && b !in o1 && o2[b].k >= NDIRECT;
      assert b in o2 && b !in o0;
    }
  }

  /** The fresh blocks are inode i's: blocks of the part written, or its table. */
  ghost predicate FreshAt(o0: Owner, o: Owner, i: nat, first: nat, count: nat) {
    forall b | b in o && b !in o0 :: o[b].i == i && (first <= o[b].k < first + count || o[b].k == TABLE)
  }

  /** The blocks that n bytes written at offset off of inode i's file have logged: those touched, and
      what allocation logs. */
  function WrittenBlocks(sb: Super, o0: Owner, o: Owner, i: nat, off: nat, n: nat): set<nat> {
    Data(o, i, off / BSIZE, Spanned(off, n)) + Taken(sb, o0, o, i)
  }

  /** The fresh blocks are those of the part written, or the table; a block that the write begins in
      the middle of was there before. */
  ghost predicate Fills(o0: Owner, o: Owner, i: nat, off: nat, n: nat) {
    && FreshAt(o0, o, i, off / BSIZE, Spanned(off, n))
    && (off % BSIZE != 0 ==> HasBlock(o0, i, off / BSIZE))
  }

  /** Exactly what a write at offset off of inode i's file has logged after n bytes, beyond l0: the
      blocks touched and what allocation logs. */
  ghost predicate Account(sb: Super, l0: set<nat>, logged: set<nat>, o0: Owner, o: Owner, i: nat, off: nat, n: nat) {
    && Extends(o0, o) && Fills(o0, o, i, off, n) && FirstFit(sb, o0, o)
    && logged == l0 + WrittenBlocks(sb, o0, o, i, off, n)
  }

  lemma AccountBegins(sb: Super, l0: set<nat>, o: Owner, i: nat, off: nat)
    requires off % BSIZE != 0 ==> HasBlock(o, i, off / BSIZE)
    ensures Account(sb, l0, l0, o, o, i, off, 0)
  {
    TakenNone(sb, o, i);
  }

  /** One block further, which is a. */
  lemma AccountMore(sb: Super, l0: set<nat>, l1: set<nat>, o0: Owner, o1: Owner, i: nat, off: nat, n: nat, m: nat,
                    bn: nat, a: nat, l2: set<nat>, o2: Owner)
    requires Account(sb, l0, l1, o0, o1, i, off, n) && Extends(o1, o2) && FirstFit(sb, o1, o2)
    requires bn == off / BSIZE + Spanned(off, n) < TABLE && Spanned(off, n + m) == Spanned(off, n) + 1
    requires forall b | b in o2 && b !in o1 :: o2[b] == Place(i, bn) || o2[b] == Place(i, TABLE)
    requires a in o2 && o2[a] == Place(i, bn) && forall b | b in o2 && o2[b] == Place(i, bn) :: b == a
    requires l2 == l1 + {a} + Taken(sb, o1, o2, i)
    ensures Account(sb, l0, l2, o0, o2, i, off, n + m)
  {
    hide Taken, Spanned, Data, HasBlock, Extends, FreshAt, Fresh, FirstFit;
    TakenTrans(sb, o0, o1, o2, i);
    FirstFitTrans(sb, o0, o1, o2);
    DataMore(o0, o1, i, off / BSIZE, Spanned(off, n), a, o2);
  }

  lemma DataMore(o0: Owner, o1: Owner, i: nat, first: nat, count: nat, a: nat, o2: Owner)
    requires Extends(o1, o2) && FreshAt(o0, o1, i, first, count) && first + count < TABLE
    requires forall b | b in o2 && b !in o1 :: o2[b] == Place(i, first + count) || o2[b] == Place(i, TABLE)
    requires a in o2 && o2[a] == Place(i, first + count) &&
             forall b | b in o2 && o2[b] == Place(i, first + count) :: b == a
    ensures FreshAt(o0, o2, i, first, count + 1) && Data(o2, i, first, count + 1) == Data(o1, i, first, count) + {a}
  {
  }

  /** No two blocks in one place. */
  lemma {:induction false} DataSize(sb: Super, store: seq<Block>, ino: seq<Inode>, o: Owner, i: nat, first: nat,
                                    count: nat)
    requires Owned(sb, store, ino, o) && i < |ino| && first + count <= TABLE + 1
    ensures |Data(o, i, first, count)| <= count
  {
    if count == 0 {
      assert Data(o, i, first, 0) == {};
    } else {
      DataSize(sb, store, ino, o, i, first, count - 1);
      var s := Slot(store, ino[i], first + count - 1);
      hide Slot;
      SubsetSize(Data(o, i, first, count), Data(o, i, first, count - 1) + {s});
    }
  }

  lemma TableSize(sb: Super, store: seq<Block>, ino: seq<Inode>, o: Owner, i: nat)
    requires Owned(sb, store, ino, o) && i < |ino|
    ensures |TableOf(o, i)| <= 1
  {
    DataSize(sb, store, ino, o, i, TABLE, 1);
    assert TableOf(o, i) == Data(o, i, TABLE, 1);
  }

  /** At most one fresh block for each block touched, but for a first one that was there, and one
      for the table. */
  lemma FreshSize(sb: Super, store: seq<Block>, ino: seq<Inode>, l0: set<nat>, l: set<nat>, o0: Owner, o: Owner,
                  i: nat, off: nat, n: nat)
    requires Owned(sb, store, ino, o) && i < |ino| && Account(sb, l0, l, o0, o, i, off, n) &&
             off / BSIZE + Spanned(off, n) <= TABLE
    ensures |Fresh(o0, o)| <= Unmapped(off, n) + if TableOf(o, i) <= o0.Keys then 0 else 1
  {
    var skip := if off % BSIZE != 0 && n > 0 then 1 else 0;
    var first, count := off / BSIZE + skip, Spanned(off, n) - skip;
    assert count == Unmapped(off, n);
    DataSize(sb, store, ino, o, i, first, count);
    TableSize(sb, store, ino, o, i);
    var table := TableOf(o, i) - o0.Keys;
    FreshInData(sb, store, ino, o0, o, i, off, n, first, count);
    hide Slot, Owned, Spanned, Unmapped, Data, Fresh, TableOf;
    SubsetSize(table, TableOf(o, i));
    SubsetSize(Fresh(o0, o), Data(o, i, first, count) + table);
  }

  lemma FreshInData(sb: Super, store: seq<Block>, ino: seq<Inode>, o0: Owner, o: Owner, i: nat, off: nat, n: nat,
                    first: nat, count: nat)
    requires Owned(sb, store, ino, o) && Extends(o0, o) && FreshAt(o0, o, i, off / BSIZE, Spanned(off, n))
    requires off % BSIZE != 0 ==> HasBlock(o0, i, off / BSIZE)
    requires first == off / BSIZE + (if off % BSIZE != 0 && n > 0 then 1 else 0) &&
             first + count == off / BSIZE + Spanned(off, n)
    ensures Fresh(o0, o) <= Data(o, i, first, count) + (TableOf(o, i) - o0.Keys)
  {
    hide Slot, Spanned;
    assert forall b | b in Fresh(o0, o) && o[b].k != TABLE :: first <= o[b].k;
  }

  /** Blocks of the free map that mark data blocks. */
  function DataMaps(sb: Super): nat
    requires sb.Valid() && sb.datastart < sb.size
  {
    (sb.size - 1) / BPB - sb.datastart / BPB + 1
  }

  lemma {:induction false} RangeSize(lo: nat, n: nat, s: set<nat>)
    requires forall x | x in s :: lo <= x < lo + n
    ensures |s| <= n
  {
    if n > 0 {
      RangeSize(lo, n - 1, s - {lo + n - 1});
      SubsetSize(s, s - {lo + n - 1} + {lo + n - 1});
    } else {
      assert s == {};
    }
  }

  lemma {:induction false} ImageSize(sb: Super, s: set<nat>)
    ensures |set b | b in s :: sb.MapBlock(b)| <= |s|
  {
    if s != {} {
      var x :| x in s;
      ImageSize(sb, s - {x});
      SubsetSize(set b | b in s :: sb.MapBlock(b), (set b | b in s - {x} :: sb.MapBlock(b)) + {sb.MapBlock(x)});
    }
  }

  lemma FreshMapsSize(sb: Super, store: seq<Block>, ino: seq<Inode>, o0: Owner, o: Owner)
    requires Owned(sb, store, ino, o)
    ensures |FreshMaps(sb, o0, o)| <= |Fresh(o0, o)|
    ensures sb.datastart < sb.size ==> |FreshMaps(sb, o0, o)| <= DataMaps(sb)
  {
    ImageSize(sb, Fresh(o0, o));
    if sb.datastart < sb.size {
      hide Slot;
      forall x | x in FreshMaps(sb, o0, o)
        ensures sb.datastart / BPB + sb.bmapstart <= x < sb.datastart / BPB + sb.bmapstart + DataMaps(sb)
      {
        var b :| b in Fresh(o0, o) && x == sb.MapBlock(b);
        assert sb.datastart / BPB <= b / BPB <= (sb.size - 1) / BPB;
      }
      RangeSize(sb.datastart / BPB + sb.bmapstart, DataMaps(sb), FreshMaps(sb, o0, o));
    }
  }

  function Min(a: nat, b: nat): nat {
    if a < b then a else b
  }

  /** The most blocks that writing n bytes at offset o logs: the blocks touched; a block of the free
      map for each that may be missing and for the table, as far as there are that many; the table
      and the inode's block. */
  function WriteCost(sb: Super, o: nat, n: nat): nat
    requires sb.Valid()
  {
    Spanned(o, n) + (if sb.datastart < sb.size then Min(Unmapped(o, n) + 1, DataMaps(sb)) else 0) + 2
  }

  lemma FourSizes(s: set<nat>, a: set<nat>, b: set<nat>, c: set<nat>, d: set<nat>)
    requires s <= a + b + c + d
    ensures |s| <= |a| + |b| + |c| + |d|
  {
    SubsetSize(s, a + b + c + d);
  }

  lemma WriteCosts(sb: Super, store: seq<Block>, ino: seq<Inode>, l0: set<nat>, l: set<nat>, o0: Owner, o: Owner,
                   i: nat, off: nat, n: nat, inode: set<nat>)
    requires Owned(sb, store, ino, o) && i < |ino| && Account(sb, l0, l, o0, o, i, off, n) &&
             off / BSIZE + Spanned(off, n) <= TABLE
    requires |inode| <= 1
    ensures |l + inode - l0| <= WriteCost(sb, off, n)
  {
    hide Owned, Slot, Data, TableOf, Fresh, FreshMaps, Account, Spanned, Unmapped, DataMaps;
    var first, count := off / BSIZE, Spanned(off, n);
    DataSize(sb, store, ino, o, i, first, count);
    TableSize(sb, store, ino, o, i);
    FreshSize(sb, store, ino, l0, l, o0, o, i, off, n);
    FreshMapsSize(sb, store, ino, o0, o);
    Parts(sb, l0, l, o0, o, i, off, n);
    if sb.datastart >= sb.size {
      NoDataNoMaps(sb, store, ino, o0, o);
    }
    FourSizes(l + inode - l0, Data(o, i, first, count), FreshMaps(sb, o0, o), TableOf(o, i), inode);
  }

  lemma Parts(sb: Super, l0: set<nat>, l: set<nat>, o0: Owner, o: Owner, i: nat, off: nat, n: nat)
    requires Account(sb, l0, l, o0, o, i, off, n)
    ensures l - l0 <= Data(o, i, off / BSIZE, Spanned(off, n)) + FreshMaps(sb, o0, o) + TableOf(o, i)
  {
    assert Fresh(o0, o) <= Data(o, i, off / BSIZE, Spanned(off, n)) + TableOf(o, i);
    hide Spanned, FreshMaps, TableWritten, Fresh, Data, TableOf;
  }

  lemma NoDataNoMaps(sb: Super, store: seq<Block>, ino: seq<Inode>, o0: Owner, o: Owner)
    requires Owned(sb, store, ino, o) && sb.datastart >= sb.size
    ensures FreshMaps(sb, o0, o) == {}
  {
    hide Slot;
    assert o == map[];
  }
}
