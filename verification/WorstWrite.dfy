/** How tight filewrite's chunk is: writing one byte more than a chunk can log more blocks than are
    reserved if and only if the disk is wide enough, which says how many of its data blocks its
    files can fill. */
module WorstWrite {
  import opened Blocks
  import opened FileLayout
  import opened FileContents
  import opened FileSystem
  import opened InodeCodec
  import opened OpenFile
  import opened Params
  import opened Reservation
  import opened Sets
  import opened WorstDisk
  import opened Writes

  // ---- only on a wide disk ----

  /** The blocks of inode j. */
  function BlocksOf(o: Owner, j: nat): set<nat> {
    set b | b in o && o[b].i == j
  }

  lemma BlocksOfSize(sb: Super, store: seq<Block>, ino: seq<Inode>, o: Owner, j: nat)
    requires Owned(sb, store, ino, o) && j < |ino|
    ensures |BlocksOf(o, j)| <= LARGEST
  {
    DataSize(sb, store, ino, o, j, 0, TABLE + 1);
    hide Slot;
    assert BlocksOf(o, j) == Data(o, j, 0, TABLE + 1);
  }

  function BlocksBelow(o: Owner, m: nat): set<nat> {
    set b | b in o && o[b].i < m
  }

  /** All inodes together, one of which has so many. */
  lemma {:induction false} AllSize(sb: Super, store: seq<Block>, ino: seq<Inode>, o: Owner, i: nat, m: nat)
    requires Owned(sb, store, ino, o) && i < |ino| && m <= |ino|
    ensures |BlocksBelow(o, m)| <= LARGEST * m - if i < m then LARGEST - |BlocksOf(o, i)| else 0
  {
    hide Owned;
    if m == 0 {
      assert BlocksBelow(o, 0) == {};
    } else {
      AllSize(sb, store, ino, o, i, m - 1);
      BlocksOfSize(sb, store, ino, o, m - 1);
      assert BlocksBelow(o, m) == BlocksBelow(o, m - 1) + BlocksOf(o, m - 1);
      UnionSize(BlocksBelow(o, m - 1), BlocksOf(o, m - 1));
      assert LARGEST * m == LARGEST * (m - 1) + LARGEST;
      hide BlocksBelow, BlocksOf;
    }
  }

  lemma UnionSize(a: set<nat>, b: set<nat>)
    ensures |a + b| <= |a| + |b|
  {
  }

  /** A table that the write has allocated: the inode has no blocks but direct ones, those written,
      and the table. */
  lemma NewTableSize(sb: Super, s0: seq<Block>, ino0: seq<Inode>, o0: Owner, s1: seq<Block>, ino1: seq<Inode>,
                     o1: Owner,
                     i: nat, off: nat, n: nat)
    requires Owned(sb, s0, ino0, o0) && Owned(sb, s1, ino1, o1) && i < |ino0| == |ino1| && Extends(o0, o1)
    requires Fills(o0, o1, i, off, n) && !(TableOf(o1, i) <= o0.Keys) && off / BSIZE + Spanned(off, n) <= TABLE
    ensures |BlocksOf(o1, i)| <= NDIRECT + Spanned(off, n) + 1
  {
    DataSize(sb, s1, ino1, o1, i, 0, NDIRECT);
    DataSize(sb, s1, ino1, o1, i, off / BSIZE, Spanned(off, n));
    TableSize(sb, s1, ino1, o1, i);
    NoEntries(sb, s0, ino0, o0, i, o1);
    hide Owned, Spanned;
    var direct, span := Data(o1, i, 0, NDIRECT), Data(o1, i, off / BSIZE, Spanned(off, n));
    assert BlocksOf(o1, i) <= direct + span + TableOf(o1, i);
    SubsetSize(BlocksOf(o1, i), direct + span + TableOf(o1, i));
  }

  lemma NoEntries(sb: Super, s0: seq<Block>, ino0: seq<Inode>, o0: Owner, i: nat, o1: Owner)
    requires Owned(sb, s0, ino0, o0) && i < |ino0| && Extends(o0, o1) && !(TableOf(o1, i) <= o0.Keys)
    requires forall b, c | b in TableOf(o1, i) && c in TableOf(o1, i) :: b == c
    ensures forall b | b in o0 && o0[b].i == i :: o0[b].k < NDIRECT
  {
    hide WordAt;
    var t := Slot(s0, ino0[i], TABLE);
    assert t != 0 ==> t in TableOf(o1, i) && TableOf(o1, i) <= o0.Keys;
    assert t == 0;
    forall b | b in o0 && o0[b].i == i ensures o0[b].k < NDIRECT {
      assert Slot(s0, ino0[i], o0[b].k) == b;
    }
  }

  /** Eleven blocks logged are five in five blocks of the free map, one of them a new table. */
  lemma FiveFresh(sb: Super, s1: seq<Block>, ino1: seq<Inode>, o0: Owner, o1: Owner, i: nat, off: nat, inode: set<nat>)
    requires Owned(sb, s1, ino1, o1) && i < |ino1| && Extends(o0, o1) && FirstFit(sb, o0, o1)
    requires Fills(o0, o1, i, off, CHUNK + 1) && off / BSIZE + Spanned(off, CHUNK + 1) <= TABLE && |inode| <= 1
    requires |WrittenBlocks(sb, o0, o1, i, off, CHUNK + 1) + inode| > MAXOPBLOCKS
    ensures |FreshMaps(sb, o0, o1)| >= 5 && !(TableOf(o1, i) <= o0.Keys) && Spanned(off, CHUNK + 1) <= 4
  {
    hide Owned, Data, TableOf, Fresh, FreshMaps, Spanned, Unmapped, WrittenBlocks, DataMaps, FirstFit, Fills;
    var n, l := CHUNK + 1, WrittenBlocks(sb, o0, o1, i, off, CHUNK + 1);
    assert {} + l == l && l - {} == l && l + inode - {} == l + inode;
    SpanMost(off);
    DataSize(sb, s1, ino1, o1, i, off / BSIZE, Spanned(off, n));
    TableSize(sb, s1, ino1, o1, i);
    FreshSize(sb, s1, ino1, {}, l, o0, o1, i, off, n);
    FreshMapsSize(sb, s1, ino1, o0, o1);
    Parts(sb, {}, l, o0, o1, i, off, n);
    FourSizes(l + inode, Data(o1, i, off / BSIZE, Spanned(off, n)), FreshMaps(sb, o0, o1), TableOf(o1, i), inode);
  }

  lemma SpanMost(off: nat)
    ensures Unmapped(off, CHUNK + 1) <= Spanned(off, CHUNK + 1) <= 4
  {
  }

  /** One of five different blocks of the free map marks blocks past the first of the fifth. */
  lemma FarFresh(sb: Super, s1: seq<Block>, ino1: seq<Inode>, o0: Owner, o1: Owner) returns (b: nat)
    requires Owned(sb, s1, ino1, o1) && |FreshMaps(sb, o0, o1)| >= 5
    ensures b in o1 && b !in o0 && First(sb, 4) <= b < sb.size && sb.datastart < sb.size && DataMaps(sb) >= 5
  {
    hide Slot;
    var m := sb.datastart / BPB + sb.bmapstart;
    if forall x | x in FreshMaps(sb, o0, o1) :: m <= x < m + 4 {
      RangeSize(m, 4, FreshMaps(sb, o0, o1));
    }
    var x :| x in FreshMaps(sb, o0, o1) && !(m <= x < m + 4);
    b :| b in Fresh(o0, o1) && x == sb.MapBlock(b);
    assert sb.datastart / BPB <= b / BPB;
  }

  /** A write of one byte more than a chunk that logs more than is reserved is on a wide disk. */
  lemma OnlyWide(sb: Super, s0: seq<Block>, ino0: seq<Inode>, o0: Owner, s1: seq<Block>, ino1: seq<Inode>, o1: Owner,
                 i: nat, off: nat, inode: set<nat>)
    requires Owned(sb, s0, ino0, o0) && Owned(sb, s1, ino1, o1) && i < |ino0| == |ino1| && Extends(o0, o1)
    requires FirstFit(sb, o0, o1) && Fills(o0, o1, i, off, CHUNK + 1)
    requires off / BSIZE + Spanned(off, CHUNK + 1) <= TABLE && |inode| <= 1
    requires |WrittenBlocks(sb, o0, o1, i, off, CHUNK + 1) + inode| > MAXOPBLOCKS
    ensures Wide(sb)
  {
    hide Slot, BlocksOf, FreshMaps, TableOf, Spanned, WrittenBlocks, Fills, FirstFit, Extends, DataMaps, OwnedBelow;
    FiveFresh(sb, s1, ino1, o0, o1, i, off, inode);
    var b := FarFresh(sb, s1, ino1, o0, o1);
    NewTableSize(sb, s0, ino0, o0, s1, ino1, o1, i, off, CHUNK + 1);
    AllSize(sb, s1, ino1, o1, i, |ino1|);
    FitsBelow(sb, o0, o1, b);
    assert BlocksBelow(o1, |ino1|) == o1.Keys;
    Crowded(sb, o1, b, |ino1|);
  }

  lemma FitsBelow(sb: Super, o0: Owner, o1: Owner, b: nat)
    requires FirstFit(sb, o0, o1) && b in o1 && b !in o0
    ensures OwnedBelow(sb, o1, b)
  {
  }

  lemma Crowded(sb: Super, o: Owner, b: nat, n: nat)
    requires sb.Valid() && sb.datastart < sb.size && DataMaps(sb) >= 5 && n <= sb.ninodes
    requires b in o && First(sb, 4) <= b && OwnedBelow(sb, o, b) && |o.Keys| <= LARGEST * n - (LARGEST - 17)
    ensures Wide(sb)
  {
    assert sb.datastart <= First(sb, 4);
    hide DataMaps, First;
    RangeExact(sb.datastart, First(sb, 4) - sb.datastart + 1, o.Keys);
  }

  /** So on any other disk one byte more fits every transaction, whatever the file and the offset. */
  method OneByteMore(fs: FileSystem, i: nat, src: seq<byte>, off: uint32) returns (r: IoResult)
    requires fs.Ok() && i < |fs.ino| && !fs.ino[i].Device() && |src| == CHUNK + 1
    modifies fs
    ensures r.Count? ==> i < |old(fs.files)| && off <= |old(fs.files)[i]|
    ensures r.Count? ==> fs.Ok() && fs.files == old(fs.files)[i := Splice(old(fs.files)[i], off, src)]
    ensures r.Count? && !Wide(fs.sb) ==> |fs.logged| <= MAXOPBLOCKS
  {
    hide *;
    LengthFits();
    fs.BeginOp();
    OkOwned(fs);
    fs.OkIs();
    ghost var s0, ino0, o0, f0 := fs.store, fs.ino, fs.owner, fs.files;
    r := fs.Writei(i, src, off);
    if r.Count? {
      OkOwned(fs);
      fs.OkIs();
      ghost var inode := if |fs.files[i]| > |f0[i]| then {fs.sb.InodeBlock(i)} else {};
      WithinFile(off);
      assert fs.logged == WrittenBlocks(fs.sb, o0, fs.owner, i, off, CHUNK + 1) + inode;
      if |fs.logged| > MAXOPBLOCKS {
        OnlyWide(fs.sb, s0, ino0, o0, fs.store, fs.ino, fs.owner, i, off, inode);
      }
    }
  }

  lemma LengthFits()
    ensures CHUNK + 1 < 0x1_0000_0000
  {
  }

  lemma WithinFile(off: nat)
    ensures off + CHUNK + 1 <= MAXFILE * BSIZE ==> off / BSIZE + Spanned(off, CHUNK + 1) <= TABLE
  {
    if off + CHUNK + 1 <= MAXFILE * BSIZE {
      SpanFits(off, CHUNK + 1);
    }
  }

  lemma OkOwned(fs: FileSystem)
    requires fs.Ok()
    ensures Owned(fs.sb, fs.store, fs.ino, fs.owner)
  {
  }

  // ---- and on every wide disk ----

  const START: nat := 12 * BSIZE

  lemma GrownInPlace(sb: Super, store: seq<Block>, ino: seq<Inode>, o: map<nat, Place>, t: nat, c: seq<byte>, k: nat)
    requires Owned(sb, store, ino, o) && t < |ino| && Shows(store, ino[t], c) && |c| == START + CHUNK + 1 &&
             12 <= k < 16
    ensures InPlace(sb, store, ino, o, t, k) && InPlace(sb, store, ino, o, t, TABLE)
  {
    assert k * BSIZE / BSIZE == k;
    ShownSlot(sb, store, ino, o, t, c, k * BSIZE);
    hide WordAt;
  }

  /** The blocks 12 to 15 of file t. */
  function Grew(sb: Super, store: seq<Block>, ino: seq<Inode>, t: nat): set<nat>
    requires t < |ino| && |ino[t].addrs| == NDIRECT + 1 && ino[t].addrs[NDIRECT] < |store|
  {
    {Slot(store, ino[t], 12), Slot(store, ino[t], 13), Slot(store, ino[t], 14), Slot(store, ino[t], 15)}
  }

  ghost predicate InPlace(sb: Super, store: seq<Block>, ino: seq<Inode>, o: map<nat, Place>, t: nat, k: nat)
    requires Owned(sb, store, ino, o) && t < |ino| && k <= TABLE
  {
    Slot(store, ino[t], k) in o && o[Slot(store, ino[t], k)] == Place(t, k)
  }

  lemma DistinctFive(o: map<nat, Place>, a: nat, b: nat, c: nat, d: nat, e: nat)
    requires a in o && b in o && c in o && d in o && e in o
    requires o[a].k == 12 && o[b].k == 13 && o[c].k == 14 && o[d].k == 15 && o[e].k == TABLE
    ensures |{a, b, c, d} + {e}| == 5
  {
  }

  lemma FreeFiveSize(sb: Super)
    requires Wide(sb)
    ensures |FreeFive(sb)| == 5 && forall b | b in FreeFive(sb) :: sb.datastart <= b <= First(sb, 4) < sb.size
    ensures forall b | b in FreeFive(sb) :: b !in WorstOwner(sb)
  {
    FiveBlocks(sb);
    hide PlaceOf;
  }

  /** The write allocates exactly the blocks in the places 12 to 15 and the table. */
  lemma FreshAre(sb: Super, store: seq<Block>, ino: seq<Inode>, o: Owner, t: nat, c: seq<byte>)
    requires Wide(sb) && Owned(sb, store, ino, o) && t == Fillers(sb) < |ino| && Extends(WorstOwner(sb), o)
    requires Fills(WorstOwner(sb), o, t, START, CHUNK + 1) && Shows(store, ino[t], c) && |c| == START + CHUNK + 1
    ensures Fresh(WorstOwner(sb), o) == Grew(sb, store, ino, t) + {Slot(store, ino[t], TABLE)}
    ensures |Fresh(WorstOwner(sb), o)| == 5
    ensures forall k | 12 <= k < 16 || k == TABLE :: InPlace(sb, store, ino, o, t, k)
  {
    SpanFour();
    forall k | 12 <= k < 16 ensures InPlace(sb, store, ino, o, t, k) && InPlace(sb, store, ino, o, t, TABLE) {
      GrownInPlace(sb, store, ino, o, t, c, k);
    }
    assert InPlace(sb, store, ino, o, t, 12) && InPlace(sb, store, ino, o, t, 13) &&
      InPlace(sb, store, ino, o, t, 14) && InPlace(sb, store, ino, o, t, 15);
    DistinctFive(o, Slot(store, ino[t], 12), Slot(store, ino[t], 13), Slot(store, ino[t], 14), Slot(store, ino[t], 15),
                 Slot(store, ino[t], TABLE));
    FreshInPlaces(sb, store, ino, o, t);
  }

  lemma FreshInPlaces(sb: Super, store: seq<Block>, ino: seq<Inode>, o: Owner, t: nat)
    requires Wide(sb) && Owned(sb, store, ino, o) && t == Fillers(sb) < |ino| && Extends(WorstOwner(sb), o)
    requires FreshAt(WorstOwner(sb), o, t, 12, 4)
    requires forall k | 12 <= k < 16 || k == TABLE :: InPlace(sb, store, ino, o, t, k)
    ensures Fresh(WorstOwner(sb), o) == Grew(sb, store, ino, t) + {Slot(store, ino[t], TABLE)}
  {
    hide Slot, PlaceOf, Fillers, Wide, WorstOwner;
    var taken := Fresh(WorstOwner(sb), o);
    forall k | 12 <= k < 16 || k == TABLE ensures Slot(store, ino[t], k) in taken {
      assert InPlace(sb, store, ino, o, t, k);
      NotOwnedYet(sb, o, t, Slot(store, ino[t], k));
    }
    assert {Slot(store, ino[t], 12), Slot(store, ino[t], 13), Slot(store, ino[t], 14),
      Slot(store, ino[t], 15)} <= taken;
    forall b | b in taken ensures b in Grew(sb, store, ino, t) + {Slot(store, ino[t], TABLE)} {
      assert Slot(store, ino[t], o[b].k) == b;
    }
  }

  lemma NotOwnedYet(sb: Super, o: Owner, t: nat, b: nat)
    requires Wide(sb) && t == Fillers(sb) && Extends(WorstOwner(sb), o) && b in o && o[b].i == t && o[b].k >= NDIRECT
    ensures b !in WorstOwner(sb)
  {
    hide PlaceOf, FreeFive;
  }

  /** And they are the five lowest free ones. */
  lemma LowestFive(sb: Super, o: Owner)
    requires Wide(sb) && Extends(WorstOwner(sb), o) && FirstFit(sb, WorstOwner(sb), o) &&
             |Fresh(WorstOwner(sb), o)| == 5
    requires forall b | b in o :: sb.datastart <= b < sb.size
    ensures Fresh(WorstOwner(sb), o) == FreeFive(sb)
  {
    hide FreeFive, PlaceOf, First, Wide;
    var taken := Fresh(WorstOwner(sb), o);
    FreeFiveSize(sb);
    forall f | f in FreeFive(sb) ensures f in o {
      if f !in o {
        forall b | b in taken ensures b in FreeFive(sb) - {f} {
          assert OwnedBelow(sb, o, b);
        }
        SubsetSize(taken, FreeFive(sb) - {f});
        assert false;
      }
    }
    assert FreeFive(sb) <= taken;
    ProperSubsetSize(FreeFive(sb), taken);
  }

  /** The blocks of the free map for the five. */
  function Maps(sb: Super): set<nat> {
    var m := sb.MapBlock(sb.datastart);
    {m, m + 1, m + 2, m + 3, m + 4}
  }

  lemma FiveMaps(sb: Super)
    requires Wide(sb)
    ensures (set b | b in FreeFive(sb) :: sb.MapBlock(b)) == Maps(sb)
    ensures |Maps(sb)| == 5 && forall b | b in Maps(sb) :: sb.bmapstart <= b < sb.datastart
  {
    hide First, Super.MapBlock;
    FiveBlocks(sb);
    sb.Regions(0, sb.datastart);
    sb.Regions(0, First(sb, 4));
    ImageOfFive(sb, sb.datastart, First(sb, 1), First(sb, 2), First(sb, 3), First(sb, 4));
  }

  lemma ImageOfFive(sb: Super, a: nat, b: nat, c: nat, d: nat, e: nat)
    ensures (set x | x in {a, b, c, d, e} :: sb.MapBlock(x)) == {sb.MapBlock(a), sb.MapBlock(b), sb.MapBlock(c),
            sb.MapBlock(d), sb.MapBlock(e)}
  {
    var m := set x | x in {a, b, c, d, e} :: sb.MapBlock(x);
    assert sb.MapBlock(a) in m && sb.MapBlock(b) in m && sb.MapBlock(c) in m && sb.MapBlock(d) in m &&
      sb.MapBlock(e) in m;
  }

  lemma ElevenBlocks(sb: Super, i: nat)
    requires Wide(sb) && i < sb.ninodes
    ensures |FreeFive(sb) + Maps(sb) + {sb.InodeBlock(i)}| == MAXOPBLOCKS + 1
  {
    hide FreeFive, Maps;
    FiveMaps(sb);
    FreeFiveSize(sb);
    sb.Regions(i, 0);
    SumSize(FreeFive(sb), Maps(sb), sb.InodeBlock(i));
  }

  lemma SumSize(a: set<nat>, b: set<nat>, x: nat)
    requires a !! b && x !in a + b
    ensures |a + b + {x}| == |a| + |b| + 1
  {
  }

  lemma SpanFour()
    ensures START / BSIZE == 12 && Spanned(START, CHUNK + 1) == Unmapped(START, CHUNK + 1) == 4
    ensures START + CHUNK + 1 <= MAXFILE * BSIZE && CHUNK + 1 < 0x1_0000_0000
  {
  }

  lemma WrittenAre(sb: Super, store: seq<Block>, ino: seq<Inode>, o: Owner, t: nat)
    requires Wide(sb) && Owned(sb, store, ino, o) && t < |ino| && Extends(WorstOwner(sb), o)
    requires Fresh(WorstOwner(sb), o) == FreeFive(sb) == Grew(sb, store, ino, t) + {Slot(store, ino[t], TABLE)}
    requires forall k | 12 <= k < 16 || k == TABLE :: InPlace(sb, store, ino, o, t, k)
    ensures WrittenBlocks(sb, WorstOwner(sb), o, t, START, CHUNK + 1) == FreeFive(sb) + Maps(sb)
  {
    DataAre(sb, store, ino, o, t);
    FiveMaps(sb);
    SpanFour();
    hide Slot, Fresh, TableOf, Data, TableWritten, Spanned, FreeFive, Maps, WorstOwner, Grew, Owned, Extends, InPlace;
  }

  lemma DataAre(sb: Super, store: seq<Block>, ino: seq<Inode>, o: Owner, t: nat)
    requires Wide(sb) && Owned(sb, store, ino, o) && t < |ino|
    requires Fresh(WorstOwner(sb), o) == FreeFive(sb) == Grew(sb, store, ino, t) + {Slot(store, ino[t], TABLE)}
    requires forall k | 12 <= k < 16 || k == TABLE :: InPlace(sb, store, ino, o, t, k)
    ensures Data(o, t, 12, 4) == Grew(sb, store, ino, t) && TableOf(o, t) == {Slot(store, ino[t], TABLE)}
    ensures TableWritten(WorstOwner(sb), o)
  {
    hide Slot, PlaceOf, FreeFive, WorstOwner;
    assert InPlace(sb, store, ino, o, t, 12) && InPlace(sb, store, ino, o, t, 13) &&
      InPlace(sb, store, ino, o, t, 14) && InPlace(sb, store, ino, o, t, 15);
    var b := Slot(store, ino[t], TABLE);
    assert InPlace(sb, store, ino, o, t, TABLE);
    assert b in Fresh(WorstOwner(sb), o);
    assert b in o && b !in WorstOwner(sb) && o[b].k >= NDIRECT;
  }

  /** File t of twelve blocks grows by four, and gets its table: eleven blocks are logged. */
  lemma WorstLogs(sb: Super, store: seq<Block>, ino: seq<Inode>, o: Owner, t: nat, c: seq<byte>, logged: set<nat>)
    requires Wide(sb) && Owned(sb, store, ino, o) && t == Fillers(sb) < |ino| && Extends(WorstOwner(sb), o)
    requires FirstFit(sb, WorstOwner(sb), o) && Fills(WorstOwner(sb), o, t, START, CHUNK + 1)
    requires Shows(store, ino[t], c) && |c| == START + CHUNK + 1
    requires logged == WrittenBlocks(sb, WorstOwner(sb), o, t, START, CHUNK + 1) + {sb.InodeBlock(t)}
    ensures |logged| == MAXOPBLOCKS + 1
  {
    FreshAre(sb, store, ino, o, t, c);
    assert forall b | b in o :: sb.datastart <= b < sb.size;
    assert t < sb.ninodes;
    hide Slot, Shows, Data, Taken, FreeFive, Maps, Grew, Extends, Fills, FirstFit, WorstOwner, Fresh, Owned;
    LowestFive(sb, o);
    WrittenAre(sb, store, ino, o, t);
    ElevenBlocks(sb, t);
  }

  /** The bound is attained: on any disk that is wide enough, a file system in which writing one byte
      more than a chunk, at the end of a file of twelve blocks, logs more blocks than are reserved. */
  method ChunkAndOne(sb: Super, s: seq<byte>)
    returns (fs: FileSystem, r: IoResult, t: nat, store: seq<Block>, owner: Owner, files: seq<seq<byte>>)
    requires Wide(sb) && |s| == CHUNK + 1
    ensures t < |files| && Mountable(sb, store, |files|, owner, files) && |files[t]| == START
    ensures fs.sb == sb && fs.Ok() && r == IoResult.Count(|s|) && |fs.ino| == |files|
    ensures fs.files == files[t := Splice(files[t], START, s)] && fs.store == Replay(store, fs.writes)
    ensures fs.logged == Touched(fs.writes) == WrittenBlocks(sb, owner, fs.owner, t, START, CHUNK + 1) +
            {sb.InodeBlock(t)}
    ensures |Touched(fs.writes)| == MAXOPBLOCKS + 1
  {
    hide *;
    WorstOwned(sb);
    WorstShown(sb);
    WorstReady(sb);
    SpanFour();
    var ino := WorstInodes(sb);
    owner, files, t := WorstOwner(sb), Zeros(ino), Fillers(sb);
    store := MakeDisk(sb, WorstStore(sb), ino, owner, files);
    fs := new FileSystem.Mount(sb, store, |ino|, owner, files);
    fs.SizeIs(t);
    r := fs.Writei(t, s, START);
    if r.Panicked? {
      EnoughFree(sb);
      assert false;
    }
    SpliceSize(Zeros(ino)[t], START, s);
    OkShows(fs, t);
    WorstLogs(sb, fs.store, fs.ino, fs.owner, t, fs.files[t], fs.logged);
  }

  lemma WorstReady(sb: Super)
    requires Wide(sb)
    ensures sb.Valid() && |WorstInodes(sb)| == |Zeros(WorstInodes(sb))| == Fillers(sb) + 1 <= sb.ninodes
    ensures !WorstInodes(sb)[Fillers(sb)].Device() && |Zeros(WorstInodes(sb))[Fillers(sb)]| == START
    ensures forall b: nat | b < sb.datastart :: WorstStore(sb)[b] == ZeroBlock()
  {
    EnoughInodes(sb);
    FiveBlocks(sb);
    hide Others, PlaceOf;
  }

  lemma EnoughFree(sb: Super)
    requires Wide(sb)
    ensures |Free(sb, sb.Meta() + WorstOwner(sb).Keys)| >= 5
  {
    FreeFiveSize(sb);
    hide PlaceOf, FreeFive, WorstOwner;
    SubsetSize(FreeFive(sb), Free(sb, sb.Meta() + WorstOwner(sb).Keys));
  }

  lemma OkShows(fs: FileSystem, i: nat)
    requires fs.Ok() && i < |fs.ino|
    ensures Owned(fs.sb, fs.store, fs.ino, fs.owner) && |fs.files| == |fs.ino| &&
            Shows(fs.store, fs.ino[i], fs.files[i])
    ensures fs.store == Replay(fs.base, fs.writes) && fs.logged == Touched(fs.writes)
  {
  }
}
