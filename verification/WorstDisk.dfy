/** Disks on which a write of one byte more than filewrite's chunk logs most: the free blocks lie in
    five blocks of the free map, and the blocks in between are filled with files. */
module WorstDisk {
  import opened Blocks
  import opened FileLayout
  import opened FileContents
  import opened FileSystem
  import opened InodeCodec
  import opened Reservation
  import opened Sets

  // ---- a disk from its inodes ----

  lemma {:induction false} ZeroBit(k: nat)
    ensures !TestBit(0, k)
  {
    if k > 0 {
      ZeroBit(k - 1);
    }
  }

  function Upto(used: set<nat>, k: nat): set<nat> {
    set b | b in used && b < k
  }

  /** Only blocks from lo to hi differ. */
  ghost predicate OnlyBetween(s0: seq<Block>, s1: seq<Block>, lo: nat, hi: nat) {
    |s1| == |s0| && forall b | 0 <= b < |s0| && !(lo <= b < hi) :: s1[b] == s0[b]
  }

  /** A free map with the blocks of `used` marked. */
  method MakeMap(sb: Super, s0: seq<Block>, used: set<nat>, k: nat) returns (s: seq<Block>)
    requires sb.Valid() && |s0| == sb.size && Bits(sb, s0, {}) && k <= sb.size
    ensures OnlyBetween(s0, s, sb.bmapstart, sb.datastart) && |s| == sb.size && Bits(sb, s, Upto(used, k))
  {
    hide Bits, PutBit;
    if k == 0 {
      s := s0;
      assert Upto(used, 0) == {};
    } else {
      s := MakeMap(sb, s0, used, k - 1);
      if k - 1 in used {
        assert Upto(used, k) == Upto(used, k - 1) + {k - 1};
        BitsAfterPut(sb, s, Upto(used, k - 1), k - 1, true);
        sb.Regions(0, k - 1);
        s := s[sb.MapBlock(k - 1) := PutBit(s[sb.MapBlock(k - 1)], (k - 1) % BPB, true)];
      } else {
        assert Upto(used, k) == Upto(used, k - 1);
      }
    }
  }

  /** Inode blocks with the first k of ino on them. */
  method MakeInodes(sb: Super, s0: seq<Block>, ino: seq<Inode>, k: nat) returns (s: seq<Block>)
    requires sb.Valid() && |s0| == sb.size && k <= |ino| <= sb.ninodes &&
             forall i | 0 <= i < |ino| :: |ino[i].addrs| == NDIRECT + 1
    ensures OnlyBetween(s0, s, sb.inodestart, sb.bmapstart) && |s| == sb.size &&
            forall j | 0 <= j < k :: DiskInode(sb, s, j) == ino[j]
  {
    if k == 0 {
      s := s0;
    } else {
      var s1 := MakeInodes(sb, s0, ino, k - 1);
      sb.Regions(k - 1, 0);
      s := Updated(sb, s1, k - 1, ino[k - 1]);
      forall j | 0 <= j < k ensures DiskInode(sb, s, j) == ino[j] {
        UpdateRoundTrip(sb, s1, k - 1, ino[k - 1], j);
      }
      hide DiskInode, PutWords;
    }
  }

  lemma BlankMap(sb: Super, s0: seq<Block>)
    requires sb.Valid() && |s0| == sb.size && forall b: nat | b < sb.datastart :: s0[b] == ZeroBlock()
    ensures Bits(sb, s0, {})
  {
    forall b: nat | b < sb.size ensures !BitAt(s0[sb.MapBlock(b)], b % BPB) {
      sb.Regions(0, b);
      ZeroBit(b % BPB % 8);
    }
  }

  lemma SameBits(sb: Super, s0: seq<Block>, s1: seq<Block>, used: set<nat>)
    requires sb.Valid() && |s0| == |s1| == sb.size && Bits(sb, s0, used) &&
             OnlyBetween(s0, s1, sb.inodestart, sb.bmapstart)
    ensures Bits(sb, s1, used)
  {
    forall b: nat | b < sb.size ensures s1[sb.MapBlock(b)] == s0[sb.MapBlock(b)] {
      sb.Regions(0, b);
    }
    hide BitAt;
  }

  /** Files of nothing but zeros. */
  function Zeros(ino: seq<Inode>): seq<seq<byte>> {
    seq(|ino|, i requires 0 <= i < |ino| => seq(ino[i].size, _ => 0))
  }

  /** A disk that can be mounted, from its inodes and the blocks they own. */
  method MakeDisk(sb: Super, s0: seq<Block>, ino: seq<Inode>, owner: Owner, ghost files: seq<seq<byte>>)
    returns (store: seq<Block>)
    requires Owned(sb, s0, ino, owner) && ShowAll(s0, ino, files) && Sizes(ino, files)
    requires forall b: nat | b < sb.datastart :: s0[b] == ZeroBlock()
    ensures Mountable(sb, store, |ino|, owner, files) && DiskInodes(sb, store, |ino|) == ino
  {
    hide Slot, ShowAll, Bits, DiskInode;
    var used := sb.Meta() + owner.Keys;
    BlankMap(sb, s0);
    var s1 := MakeMap(sb, s0, used, sb.size);
    assert Upto(used, sb.size) == used;
    store := MakeInodes(sb, s1, ino, |ino|);
    SameBits(sb, s1, store, used);
    assert DiskInodes(sb, store, |ino|) == ino;
    SameTables(sb, s0, store, ino, owner);
    SameDataShows(sb, s0, store, ino, owner, files);
    hide Owned, Sizes;
  }

  // ---- the worst state ----

  /** The blocks from lo to hi that are not in x, in order. */
  function Rest(lo: nat, hi: nat, x: set<nat>): (r: seq<nat>)
    requires lo <= hi
    ensures forall b | b in r :: lo <= b < hi && b !in x
    ensures NoRepeats(r)
    ensures forall b: nat | lo <= b < hi && b !in x :: b in r
    decreases hi - lo
  {
    if lo == hi then []
    else
      var r := Rest(lo, hi - 1, x);
      assert hi - 1 !in r;
      if hi - 1 in x then r else r + [hi - 1]
  }

  lemma RestSize(lo: nat, hi: nat, x: set<nat>)
    requires lo <= hi && forall b | b in x :: lo <= b < hi
    ensures |Rest(lo, hi, x)| + |x| <= hi - lo
  {
    var r := Rest(lo, hi, x);
    ElementsSize(r);
    assert Elements(r) !! x;
    RangeSize(lo, hi - lo, Elements(r) + x);
  }

  function IndexOf(l: seq<nat>, b: nat): (i: nat)
    requires b in l
    ensures i < |l| && l[i] == b
  {
    if l[0] == b then 0 else 1 + IndexOf(l[1..], b)
  }

  /** The most blocks a file can have, its table included. */
  const LARGEST: nat := MAXFILE + 1

  /** The first block of the free map's n-th block after the one that marks the first data block. */
  function First(sb: Super, n: nat): nat {
    (sb.datastart / BPB + n) * BPB
  }

  /** The disk's data blocks are marked in at least five blocks of the free map, and the data blocks up
      to the first that the fifth one marks, four of them aside, fit into its files: one of twelve
      blocks, and all others as large as files can be. */
  predicate Wide(sb: Super) {
    && sb.Valid() && sb.datastart < sb.size && DataMaps(sb) >= 5
    && First(sb, 4) - sb.datastart - 4 <= LARGEST * (sb.ninodes as int - 1) + 12
  }

  /** Five free blocks, each marked in a block of the free map of its own. */
  function FreeFive(sb: Super): set<nat> {
    {sb.datastart, First(sb, 1), First(sb, 2), First(sb, 3), First(sb, 4)}
  }

  lemma FiveBlocks(sb: Super)
    requires Wide(sb)
    ensures sb.datastart < First(sb, 1) && First(sb, 4) < sb.size
    ensures First(sb, 1) + 12 < First(sb, 2) < First(sb, 3) < First(sb, 4)
    ensures sb.MapBlock(sb.datastart) == sb.datastart / BPB + sb.bmapstart
    ensures sb.MapBlock(First(sb, 1)) == sb.MapBlock(sb.datastart) + 1
    ensures sb.MapBlock(First(sb, 2)) == sb.MapBlock(sb.datastart) + 2
    ensures sb.MapBlock(First(sb, 3)) == sb.MapBlock(sb.datastart) + 3
    ensures sb.MapBlock(First(sb, 4)) == sb.MapBlock(sb.datastart) + 4
  {
  }

  /** The file that will be written has these twelve blocks. */
  predicate Twelve(sb: Super, b: nat) {
    First(sb, 1) < b <= First(sb, 1) + 12
  }

  /** What the other files have to be filled with. */
  function Others(sb: Super): (l: seq<nat>)
    requires Wide(sb)
    ensures NoRepeats(l) && forall b | b in l :: b < 0x1_0000_0000
  {
    FiveBlocks(sb);
    Rest(sb.datastart, First(sb, 4), Apart(sb))
  }

  /** Blocks before the fifth free one that are free, or the written file's. */
  function Apart(sb: Super): set<nat> {
    FreeFour(sb) + NextTwelve(sb)
  }

  function FreeFour(sb: Super): set<nat> {
    {sb.datastart, First(sb, 1), First(sb, 2), First(sb, 3)}
  }

  function NextTwelve(sb: Super): set<nat> {
    set b: nat | b <= First(sb, 1) + 12 && Twelve(sb, b)
  }

  lemma OthersAre(sb: Super)
    requires Wide(sb)
    ensures
      forall b: nat :: b in Others(sb) <==> sb.datastart <= b < First(sb, 4) && b !in FreeFive(sb) && !Twelve(sb, b)
  {
    FiveBlocks(sb);
  }

  lemma OthersFit(sb: Super)
    requires Wide(sb)
    ensures |Others(sb)| <= LARGEST * (sb.ninodes - 1)
  {
    hide Rest, Apart, First;
    FiveBlocks(sb);
    SixteenApart(sb);
    RestSize(sb.datastart, First(sb, 4), Apart(sb));
  }

  lemma SixteenApart(sb: Super)
    requires Wide(sb)
    ensures |Apart(sb)| >= 16 && forall b | b in Apart(sb) :: sb.datastart <= b < First(sb, 4)
  {
    FiveBlocks(sb);
    hide First;
    RangeExact(First(sb, 1) + 1, 12, NextTwelve(sb));
    DisjointSize(FreeFour(sb), NextTwelve(sb));
  }

  lemma DisjointSize(a: set<nat>, b: set<nat>)
    requires a !! b
    ensures |a + b| == |a| + |b|
  {
  }

  /** A set that has a whole range. */
  lemma {:induction false} RangeExact(lo: nat, n: nat, s: set<nat>)
    requires forall x: nat | lo <= x < lo + n :: x in s
    ensures |s| >= n
  {
    if n > 0 {
      RangeExact(lo, n - 1, s - {lo + n - 1});
    }
  }

  function Fillers(sb: Super): nat
    requires Wide(sb)
  {
    (|Others(sb)| + LARGEST - 1) / LARGEST
  }

  /** How many blocks filler j has. */
  function Size(sb: Super, j: nat): (n: nat)
    requires Wide(sb) && j < Fillers(sb)
    ensures 0 < n <= LARGEST && LARGEST * j + n <= |Others(sb)| && (n < LARGEST ==> LARGEST * j + n == |Others(sb)|)
  {
    if |Others(sb)| - LARGEST * j < LARGEST then |Others(sb)| - LARGEST * j else LARGEST
  }

  /** The slots of a file in the order in which it gets them: twelve direct ones, the table, and those
      in the table. */
  function SlotOf(r: nat): (k: nat)
    requires r < LARGEST
    ensures k <= TABLE && RankOf(k) == r
  {
    if r < NDIRECT then r else if r == NDIRECT then TABLE else r - 1
  }

  function RankOf(k: nat): nat {
    if k < NDIRECT then k else if k == TABLE then NDIRECT else k + 1
  }

  /** The block in slot k of inode j, 0 if there is none. */
  function BlockAt(sb: Super, j: nat, k: nat): uint32
    requires Wide(sb) && j <= Fillers(sb) && k <= TABLE
  {
    FiveBlocks(sb);
    if j == Fillers(sb) then if k < NDIRECT then First(sb, 1) + 1 + k else 0
    else if RankOf(k) < Size(sb, j) then
      assert Others(sb)[LARGEST * j + RankOf(k)] in Others(sb);
      Others(sb)[LARGEST * j + RankOf(k)]
    else 0
  }

  /** Its data blocks. */
  function Length(sb: Super, j: nat): (n: nat)
    requires Wide(sb) && j <= Fillers(sb)
    ensures n <= MAXFILE
  {
    if j == Fillers(sb) then 12 else if Size(sb, j) <= NDIRECT then Size(sb, j) else Size(sb, j) - 1
  }

  function Addrs(sb: Super, j: nat): (a: seq<uint32>)
    requires Wide(sb) && j <= Fillers(sb)
    ensures |a| == NDIRECT + 1 && a[NDIRECT] == BlockAt(sb, j, TABLE)
    ensures forall k | 0 <= k < NDIRECT :: a[k] == BlockAt(sb, j, k)
  {
    seq<uint32>(NDIRECT + 1, k requires 0 <= k < NDIRECT + 1 => BlockAt(sb, j, if k < NDIRECT then k else TABLE))
  }

  function WorstInodes(sb: Super): (ino: seq<Inode>)
    requires Wide(sb)
    ensures |ino| == Fillers(sb) + 1
  {
    seq(Fillers(sb) + 1, j requires 0 <= j <= Fillers(sb) => Inode(2, 0x1_0000, Length(sb, j) * BSIZE, Addrs(sb, j)))
  }

  function Table(sb: Super, j: nat): (t: Block)
    requires Wide(sb) && j <= Fillers(sb)
    ensures forall m: nat | m < NINDIRECT :: WordAt(t, m) == BlockAt(sb, j, NDIRECT + m)
  {
    PutWords(ZeroBlock(), 0, seq<uint32>(NINDIRECT, m requires 0 <= m < NINDIRECT => BlockAt(sb, j, NDIRECT + m)))
  }

  function PlaceOf(sb: Super, b: nat): (p: Place)
    requires Wide(sb) && sb.datastart <= b < First(sb, 4) && b !in FreeFive(sb)
    ensures p.i <= Fillers(sb) && p.k <= TABLE && BlockAt(sb, p.i, p.k) == b
    ensures p.i == Fillers(sb) ==> p.k < NDIRECT
  {
    FiveBlocks(sb);
    OthersAre(sb);
    if Twelve(sb, b) then Place(Fillers(sb), b - First(sb, 1) - 1)
    else
      var x := IndexOf(Others(sb), b);
      IndexPlaced(sb, x);
      Place(x / LARGEST, SlotOf(x % LARGEST))
  }

  lemma IndexPlaced(sb: Super, x: nat)
    requires Wide(sb) && x < |Others(sb)|
    ensures x / LARGEST < Fillers(sb) && BlockAt(sb, x / LARGEST, SlotOf(x % LARGEST)) == Others(sb)[x]
  {
    hide Others;
    var j, r := x / LARGEST, x % LARGEST;
    assert x == LARGEST * j + r;
    assert j < Fillers(sb) && r < Size(sb, j);
  }

  /** A block stands in no other place. */
  lemma OnePlace(sb: Super, j: nat, k: nat)
    requires Wide(sb) && j <= Fillers(sb) && k <= TABLE && BlockAt(sb, j, k) != 0
    ensures var b := BlockAt(sb, j, k);
            sb.datastart <= b < First(sb, 4) && b !in FreeFive(sb) && PlaceOf(sb, b) == Place(j, k)
  {
    FiveBlocks(sb);
    OthersAre(sb);
    if j < Fillers(sb) {
      FillerPlace(sb, j, k);
    }
    hide Others, First;
  }

  lemma FillerPlace(sb: Super, j: nat, k: nat)
    requires Wide(sb) && j < Fillers(sb) && k <= TABLE && BlockAt(sb, j, k) != 0
    ensures var b, l := BlockAt(sb, j, k), Others(sb);
            b in l && IndexOf(l, b) / LARGEST == j && SlotOf(IndexOf(l, b) % LARGEST) == k
  {
    hide Others, First, IndexOf;
    var l, b := Others(sb), BlockAt(sb, j, k);
    var x := LARGEST * j + RankOf(k);
    assert l[x] == b && b in l;
    var y := IndexOf(l, b);
    assert l[y] == l[x] && y == x;
    Quotient(j, RankOf(k));
  }

  lemma Quotient(j: nat, r: nat)
    requires r < LARGEST
    ensures (LARGEST * j + r) / LARGEST == j && (LARGEST * j + r) % LARGEST == r
  {
  }

  function WorstOwner(sb: Super): (o: Owner)
    requires Wide(sb)
    ensures forall b :: b in o <==> sb.datastart <= b < First(sb, 4) && b !in FreeFive(sb)
    ensures forall b | b in o :: o[b] == PlaceOf(sb, b)
  {
    map b: nat | sb.datastart <= b < First(sb, 4) && b !in FreeFive(sb) :: PlaceOf(sb, b)
  }

  /** The tables, on a disk of zeros. */
  function WorstStore(sb: Super): (s: seq<Block>)
    requires Wide(sb)
    ensures |s| == sb.size
    ensures forall b: nat | b < sb.size :: s[b] ==
              if b in WorstOwner(sb) && PlaceOf(sb, b).k == TABLE then Table(sb, PlaceOf(sb, b).i) else ZeroBlock()
  {
    seq(sb.size, b requires 0 <= b < sb.size =>
      if b in WorstOwner(sb) && PlaceOf(sb, b).k == TABLE then Table(sb, PlaceOf(sb, b).i) else ZeroBlock())
  }

  lemma WorstSlot(sb: Super, j: nat, k: nat)
    requires Wide(sb) && j <= Fillers(sb) && k <= TABLE
    ensures InodeOk(sb, WorstInodes(sb)[j]) && Slot(WorstStore(sb), WorstInodes(sb)[j], k) == BlockAt(sb, j, k)
  {
    FiveBlocks(sb);
    var t := BlockAt(sb, j, TABLE);
    if t != 0 {
      OnePlace(sb, j, TABLE);
    }
    hide Others, FreeFive, First, WordAt, PlaceOf;
    assert WorstInodes(sb)[j].addrs[NDIRECT] == t;
    if t == 0 && NDIRECT <= k < TABLE {
      NoTable(sb, j, k);
    }
  }

  lemma NoTable(sb: Super, j: nat, k: nat)
    requires Wide(sb) && j <= Fillers(sb) && NDIRECT <= k < TABLE && BlockAt(sb, j, TABLE) == 0
    ensures BlockAt(sb, j, k) == 0
  {
    FiveBlocks(sb);
    OthersAre(sb);
    if j < Fillers(sb) && RankOf(TABLE) < Size(sb, j) {
      assert Others(sb)[LARGEST * j + NDIRECT] in Others(sb);
    }
  }

  /** Inode j shows its blocks in its slots. */
  predicate Placed(sb: Super, j: nat)
    requires Wide(sb) && j <= Fillers(sb)
  {
    && InodeOk(sb, WorstInodes(sb)[j])
    && forall k | 0 <= k <= TABLE :: Slot(WorstStore(sb), WorstInodes(sb)[j], k) == BlockAt(sb, j, k)
  }

  lemma WorstPlaced(sb: Super, j: nat)
    requires Wide(sb) && j <= Fillers(sb)
    ensures Placed(sb, j)
  {
    hide BlockAt, WorstInodes, WorstStore, Fillers, Slot;
    WorstSlot(sb, j, 0);
    forall k | 0 <= k <= TABLE ensures Slot(WorstStore(sb), WorstInodes(sb)[j], k) == BlockAt(sb, j, k) {
      WorstSlot(sb, j, k);
    }
  }

  lemma EnoughInodes(sb: Super)
    requires Wide(sb)
    ensures Fillers(sb) + 1 <= sb.ninodes
  {
    OthersFit(sb);
  }

  lemma SlotsOwned(sb: Super, j: nat)
    requires Wide(sb) && j <= Fillers(sb)
    ensures InodeOk(sb, WorstInodes(sb)[j])
    ensures forall k | 0 <= k <= TABLE ::
              var b := Slot(WorstStore(sb), WorstInodes(sb)[j], k);
              b == BlockAt(sb, j, k) && (b != 0 ==> b in WorstOwner(sb) && WorstOwner(sb)[b] == Place(j, k))
  {
    hide BlockAt, WorstInodes, WorstStore, Fillers, Slot, PlaceOf, FreeFive, First, WorstOwner, Wide;
    WorstPlaced(sb, j);
    forall k | 0 <= k <= TABLE && BlockAt(sb, j, k) != 0
      ensures BlockAt(sb, j, k) in WorstOwner(sb) && WorstOwner(sb)[BlockAt(sb, j, k)] == Place(j, k)
    {
      OnePlace(sb, j, k);
    }
  }

  lemma WorstOwned(sb: Super)
    requires Wide(sb)
    ensures Owned(sb, WorstStore(sb), WorstInodes(sb), WorstOwner(sb))
  {
    hide BlockAt, WorstInodes, WorstStore, Fillers, Slot, PlaceOf, FreeFive, First, WorstOwner;
    FiveBlocks(sb);
    EnoughInodes(sb);
    var store, ino, owner := WorstStore(sb), WorstInodes(sb), WorstOwner(sb);
    forall j | 0 <= j < |ino|
      ensures InodeOk(sb, ino[j])
      ensures forall k | 0 <= k <= TABLE :: Slot(store, ino[j], k) == BlockAt(sb, j, k)
      ensures forall k | 0 <= k <= TABLE && Slot(store, ino[j], k) != 0 ::
                Slot(store, ino[j], k) in owner && owner[Slot(store, ino[j], k)] == Place(j, k)
    {
      SlotsOwned(sb, j);
    }
  }

  /** No file has a hole. */
  lemma WorstFull(sb: Super, j: nat, k: nat)
    requires Wide(sb) && j <= Fillers(sb) && k < Length(sb, j)
    ensures BlockAt(sb, j, k) != 0
  {
    FiveBlocks(sb);
    if j < Fillers(sb) {
      assert Others(sb)[LARGEST * j + RankOf(k)] in Others(sb);
    }
  }

  lemma WorstShown(sb: Super)
    requires Wide(sb)
    ensures ShowAll(WorstStore(sb), WorstInodes(sb), Zeros(WorstInodes(sb)))
    ensures Sizes(WorstInodes(sb), Zeros(WorstInodes(sb)))
  {
    var store, ino := WorstStore(sb), WorstInodes(sb);
    hide Shows;
    forall j | 0 <= j < |ino| ensures Shows(store, ino[j], Zeros(ino)[j]) {
      ZerosShown(sb, j);
    }
  }

  lemma ZerosShown(sb: Super, j: nat)
    requires Wide(sb) && j <= Fillers(sb)
    ensures Shows(WorstStore(sb), WorstInodes(sb)[j], Zeros(WorstInodes(sb))[j])
  {
    hide Others, FreeFive, First, BlockAt, PlaceOf, Slot, WorstOwner, WorstStore;
    var store, ip := WorstStore(sb), WorstInodes(sb)[j];
    WorstSlot(sb, j, 0);
    forall x: nat | x < ip.size
      ensures var b := Slot(store, ip, x / BSIZE); b != 0 && b < |store| && store[b][x % BSIZE] == 0
    {
      var k := x / BSIZE;
      assert k < Length(sb, j);
      WorstSlot(sb, j, k);
      WorstFull(sb, j, k);
      OnePlace(sb, j, k);
      FiveBlocks(sb);
    }
  }
}
