/** Which disk blocks belong to which file: the free map and the direct, indirect and
    table slots of every inode. */
module FileLayout {
  import opened Blocks

  const NDIRECT: nat := 12
  const NINDIRECT: nat := 128
  const MAXFILE: nat := 140
  /** The slot number given to the indirect table, after those of the 140 data blocks. */
  const TABLE: nat := 140
  const IPB: nat := 8

  /** Disk layout: inode blocks, free map, data blocks, as the superblock lays them out. */
  datatype Super = Super(size: nat, ninodes: nat, inodestart: nat, bmapstart: nat, datastart: nat) {
    predicate Valid() {
      && 2 <= inodestart && inodestart + (ninodes + 7) / IPB <= bmapstart
      && bmapstart + (size + 4095) / BPB <= datastart <= size < 0x1_0000_0000
    }

    /** Every block that is not for file contents or tables. */
    function Meta(): set<nat> {
      set b: nat | b < datastart && IsMeta(b)
    }

    predicate IsMeta(b: nat) {
      b < datastart
    }

    /** IBLOCK */
    function InodeBlock(i: nat): nat {
      i / IPB + inodestart
    }

    /** BBLOCK */
    function MapBlock(b: nat): nat {
      b / BPB + bmapstart
    }

    /** The blocks of the free map. */
    function Map(): set<nat> {
      set b: nat | b < size :: MapBlock(b)
    }

    lemma Regions(i: nat, b: nat)
      requires Valid()
      ensures i < ninodes ==> inodestart <= InodeBlock(i) < bmapstart
      ensures b < size ==> bmapstart <= MapBlock(b) < datastart
    {
    }
  }

  /** An inode: two words of type, device and link count, the size, 12 direct block numbers
      and the number of the indirect table. */
  datatype Inode = Inode(head0: uint32, head1: uint32, size: uint32, addrs: seq<uint32>) {
    /** T_DEV, the type being the low half of the first word. */
    predicate Device() {
      head0 % 0x1_0000 == 3
    }
  }

  predicate InodeOk(sb: Super, ip: Inode) {
    |ip.addrs| == NDIRECT + 1 && ip.addrs[NDIRECT] < sb.size && ip.size <= MAXFILE * BSIZE
  }

  /** The block in slot k of an inode, 0 if there is none. */
  function Slot(store: seq<Block>, ip: Inode, k: nat): nat
    requires |ip.addrs| == NDIRECT + 1 && ip.addrs[NDIRECT] < |store| && k <= TABLE
  {
    if k < NDIRECT then ip.addrs[k]
    else if k == TABLE then ip.addrs[NDIRECT]
    else if ip.addrs[NDIRECT] == 0 then 0
    else WordAt(store[ip.addrs[NDIRECT]], k - NDIRECT)
  }

  lemma DirectSlot(store: seq<Block>, ip: Inode, k: nat)
    requires |ip.addrs| == NDIRECT + 1 && ip.addrs[NDIRECT] < |store| && k < NDIRECT
    ensures Slot(store, ip, k) == ip.addrs[k]
  {
  }

  /** With a table, its words are the slots after the direct ones. */
  lemma SlotOfTable(store: seq<Block>, ip: Inode, j: nat)
    requires |ip.addrs| == NDIRECT + 1 && 0 < ip.addrs[NDIRECT] < |store| && j < NINDIRECT
    ensures Slot(store, ip, NDIRECT + j) == WordAt(store[ip.addrs[NDIRECT]], j) &&
            Slot(store, ip, TABLE) == ip.addrs[NDIRECT]
  {
  }

  datatype Place = Place(i: nat, k: nat)

  /** Every block in a slot of an inode is a data block and stands in no other slot of any
      inode: `owner` tells which one. */
  ghost predicate Owned(sb: Super, store: seq<Block>, ino: seq<Inode>, owner: map<nat, Place>) {
    && sb.Valid() && |store| == sb.size && |ino| <= sb.ninodes
    && (forall i | 0 <= i < |ino| :: InodeOk(sb, ino[i]))
    && (forall i, k | 0 <= i < |ino| && 0 <= k <= TABLE ::
          Slot(store, ino[i], k) != 0 ==>
            Slot(store, ino[i], k) in owner && owner[Slot(store, ino[i], k)] == Place(i, k))
    && (forall b | b in owner ::
          && sb.datastart <= b < sb.size && owner[b].i < |ino| && owner[b].k <= TABLE
          && Slot(store, ino[owner[b].i], owner[b].k) == b)
  }

  /** The free map marks exactly the blocks in `used`. */
  ghost predicate Bits(sb: Super, store: seq<Block>, used: set<nat>)
    requires sb.Valid() && |store| == sb.size
  {
    && (forall b: nat | b < sb.size :: BitAt(store[sb.MapBlock(b)], b % BPB) <==> b in used)
    && forall b | b in used :: b < sb.size
  }

  /** On disk block b's mark is bit b % 8 of byte b / 8 of the free map, 512 bytes of it to a block. */
  lemma MapBits(sb: Super, store: seq<Block>, used: set<nat>, b: nat)
    requires sb.Valid() && |store| == sb.size && Bits(sb, store, used) && b < sb.size
    ensures Pow2(b % 8) > 0 && sb.bmapstart + b / 4096 < |store|
    ensures b in used <==> store[sb.bmapstart + b / 4096][b / 8 % 512] / Pow2(b % 8) % 2 == 1
  {
    hide TestBit, Pow2;
    sb.Regions(0, b);
    BitPlace(b);
    BitIs(store[sb.bmapstart + b / 4096][b / 8 % 512], b % 8);
  }

  lemma BitPlace(b: nat)
    ensures b % 4096 / 8 == b / 8 % 512 && b % 4096 % 8 == b % 8
  {
    var q, r := b / 4096, b % 4096;
    assert b / 8 == 512 * q + r / 8;
  }

  // ---- no sharing ----

  /** No block is in two slots, of one inode or of two. */
  lemma SlotsDistinct(sb: Super, store: seq<Block>, ino: seq<Inode>, owner: map<nat, Place>, i: nat, k: nat, j: nat,
                      l: nat)
    requires Owned(sb, store, ino, owner) && i < |ino| && j < |ino| && k <= TABLE && l <= TABLE && (i, k) != (j, l)
    requires Slot(store, ino[i], k) != 0
    ensures Slot(store, ino[i], k) != Slot(store, ino[j], l)
  {
    hide Slot;
    assert Slot(store, ino[i], k) in owner;
  }

  // ---- changes that keep ownership ----

  /** Ownership depends on the store through the indirect tables alone. */
  lemma SameTables(sb: Super, store: seq<Block>, store2: seq<Block>, ino: seq<Inode>, owner: map<nat, Place>)
    requires Owned(sb, store, ino, owner) && |store2| == sb.size
    requires forall b | b in owner && owner[b].k == TABLE :: store2[b] == store[b]
    ensures forall i, k | 0 <= i < |ino| && 0 <= k <= TABLE :: Slot(store2, ino[i], k) == Slot(store, ino[i], k)
    ensures Owned(sb, store2, ino, owner)
  {
    forall i, k | 0 <= i < |ino| && 0 <= k <= TABLE
      ensures Slot(store2, ino[i], k) == Slot(store, ino[i], k)
    {
      hide WordAt;
      assert Slot(store, ino[i], TABLE) == ino[i].addrs[NDIRECT];
    }
    hide Slot;
    assert forall x | x in owner ::
      Slot(store2, ino[owner[x].i], owner[x].k) == Slot(store, ino[owner[x].i], owner[x].k);
    forall i, k | 0 <= i < |ino| && 0 <= k <= TABLE && Slot(store2, ino[i], k) != 0
      ensures Slot(store2, ino[i], k) in owner && owner[Slot(store2, ino[i], k)] == Place(i, k)
    {
      assert Slot(store2, ino[i], k) == Slot(store, ino[i], k);
    }
  }

  /** A fresh block put into an empty slot of inode i; `store2` and `ip` show it there and
      nothing else changed. */
  lemma AddBlock(sb: Super, store: seq<Block>, ino: seq<Inode>, owner: map<nat, Place>,
                 store2: seq<Block>, ip: Inode, i: nat, k: nat, b: nat)
    requires Owned(sb, store, ino, owner) && i < |ino| && k <= TABLE && Slot(store, ino[i], k) == 0
    requires sb.datastart <= b < sb.size && b !in owner
    requires |store2| == sb.size && InodeOk(sb, ip) && Slot(store2, ip, k) == b
    requires forall l | 0 <= l <= TABLE && l != k :: Slot(store2, ip, l) == Slot(store, ino[i], l)
    requires forall j, l | 0 <= j < |ino| && j != i && 0 <= l <= TABLE ::
             Slot(store2, ino[j], l) == Slot(store, ino[j], l)
    ensures Owned(sb, store2, ino[i := ip], owner[b := Place(i, k)])
  {
    hide Slot;
    var ino', owner' := ino[i := ip], owner[b := Place(i, k)];
    forall j, l | 0 <= j < |ino'| && 0 <= l <= TABLE && Slot(store2, ino'[j], l) != 0
      ensures Slot(store2, ino'[j], l) in owner' && owner'[Slot(store2, ino'[j], l)] == Place(j, l)
    {
      if (j, l) != (i, k) {
        assert Slot(store2, ino'[j], l) == Slot(store, ino[j], l);
      }
    }
    forall x | x in owner'
      ensures sb.datastart <= x < sb.size && owner'[x].i < |ino| && owner'[x].k <= TABLE &&
              Slot(store2, ino'[owner'[x].i], owner'[x].k) == x
    {
    }
  }

  lemma AddDirect(sb: Super, store: seq<Block>, ino: seq<Inode>, owner: map<nat, Place>, i: nat, k: nat, b: nat)
    requires Owned(sb, store, ino, owner) && i < |ino| && k < NDIRECT && Slot(store, ino[i], k) == 0
    requires sb.datastart <= b < sb.size && b !in owner
    ensures Owned(sb, store, ino[i := ino[i].(addrs := ino[i].addrs[k := b])], owner[b := Place(i, k)])
  {
    AddBlock(sb, store, ino, owner, store, ino[i].(addrs := ino[i].addrs[k := b]), i, k, b);
  }

  /** A fresh table must read as all zero, which is why balloc zeroes. */
  lemma AddTable(sb: Super, store: seq<Block>, ino: seq<Inode>, owner: map<nat, Place>, i: nat, b: nat)
    requires Owned(sb, store, ino, owner) && i < |ino| && ino[i].addrs[NDIRECT] == 0
    requires sb.datastart <= b < sb.size && b !in owner && store[b] == ZeroBlock()
    ensures Owned(sb, store, ino[i := ino[i].(addrs := ino[i].addrs[NDIRECT := b])], owner[b := Place(i, TABLE)])
  {
    var ip := ino[i].(addrs := ino[i].addrs[NDIRECT := b]);
    forall l | 0 <= l <= TABLE && l != TABLE ensures Slot(store, ip, l) == Slot(store, ino[i], l) {
      if l >= NDIRECT {
        ZeroWords(l - NDIRECT);
      }
    }
    AddBlock(sb, store, ino, owner, store, ip, i, TABLE, b);
  }

  lemma AddEntry(sb: Super, store: seq<Block>, ino: seq<Inode>, owner: map<nat, Place>, i: nat, k: nat, b: nat)
    requires Owned(sb, store, ino, owner) && i < |ino| && NDIRECT <= k < TABLE && ino[i].addrs[NDIRECT] != 0
    requires Slot(store, ino[i], k) == 0 && sb.datastart <= b < sb.size && b !in owner
    ensures var t := ino[i].addrs[NDIRECT];
            Owned(sb, store[t := PutWord(store[t], k - NDIRECT, b)], ino, owner[b := Place(i, k)])
  {
    var t := ino[i].addrs[NDIRECT];
    var store2 := store[t := PutWord(store[t], k - NDIRECT, b)];
    hide WordAt, PutWord;
    forall j, l | 0 <= j < |ino| && j != i && 0 <= l <= TABLE
      ensures Slot(store2, ino[j], l) == Slot(store, ino[j], l)
    {
      if ino[j].addrs[NDIRECT] != 0 {
        assert Slot(store, ino[j], TABLE) != Slot(store, ino[i], TABLE) by {
          SlotsDistinct(sb, store, ino, owner, j, TABLE, i, TABLE);
        }
      }
    }
    forall l | 0 <= l <= TABLE && l != k ensures Slot(store2, ino[i], l) == Slot(store, ino[i], l) {
    }
    assert ino[i := ino[i]] == ino;
    AddBlock(sb, store, ino, owner, store2, ino[i], i, k, b);
  }

  /** What bmap may do: at most fill slot bn of inode i (and give inode i a table). Every other
      data slot, every block of file contents and every other inode stays as it is. */
  ghost predicate Grown(sb: Super, s0: seq<Block>, ino0: seq<Inode>, o0: map<nat, Place>,
                        s1: seq<Block>, ino1: seq<Inode>, o1: map<nat, Place>, i: nat, bn: nat)
  {
    && Owned(sb, s0, ino0, o0) && Owned(sb, s1, ino1, o1) && i < |ino0| == |ino1| && bn <= TABLE
    && ino1 == ino0[i := ino0[i].(addrs := ino1[i].addrs)]
    && (forall j, k | 0 <= j < |ino0| && 0 <= k < TABLE && (j, k) != (i, bn) ::
         Slot(s1, ino1[j], k) == Slot(s0, ino0[j], k))
    && (forall b | b in o0 && o0[b].k != TABLE :: s1[b] == s0[b])
    && (forall b | b in o0 :: b in o1 && o1[b] == o0[b])
    && (Slot(s0, ino0[i], TABLE) != 0 ==> Slot(s1, ino1[i], TABLE) == Slot(s0, ino0[i], TABLE))
    && (Slot(s0, ino0[i], bn) != 0 ==> Slot(s1, ino1[i], bn) == Slot(s0, ino0[i], bn))
    && (forall b: nat | b < sb.bmapstart :: s1[b] == s0[b])
  }

  lemma GrowDirect(sb: Super, s0: seq<Block>, s1: seq<Block>, ino: seq<Inode>, owner: map<nat, Place>, i: nat, k: nat,
                   b: nat)
    requires Owned(sb, s0, ino, owner) && i < |ino| && k < NDIRECT && Slot(s0, ino[i], k) == 0
    requires |s1| == sb.size && (forall x: nat | x in owner || x < sb.bmapstart :: s1[x] == s0[x]) &&
             sb.datastart <= b < sb.size && b !in owner
    ensures var ip := ino[i].(addrs := ino[i].addrs[k := b]);
      && Owned(sb, s1, ino[i := ip], owner[b := Place(i, k)])
      && Grown(sb, s0, ino, owner, s1, ino[i := ip], owner[b := Place(i, k)], i, k) && Slot(s1, ip, k) == b
  {
    SameTables(sb, s0, s1, ino, owner);
    AddDirect(sb, s1, ino, owner, i, k, b);
    var ip := ino[i].(addrs := ino[i].addrs[k := b]);
    forall l | 0 <= l < TABLE && l != k ensures Slot(s1, ip, l) == Slot(s0, ino[i], l) {
      assert Slot(s1, ip, l) == Slot(s1, ino[i], l);
    }
    hide Slot, Owned;
  }

  lemma GrowTable(sb: Super, s0: seq<Block>, s1: seq<Block>, ino: seq<Inode>, owner: map<nat, Place>, i: nat, b: nat)
    requires Owned(sb, s0, ino, owner) && i < |ino| && ino[i].addrs[NDIRECT] == 0
    requires |s1| == sb.size && (forall x: nat | x in owner || x < sb.bmapstart :: s1[x] == s0[x]) &&
             sb.datastart <= b < sb.size && b !in owner
    requires s1[b] == ZeroBlock()
    ensures var ip := ino[i].(addrs := ino[i].addrs[NDIRECT := b]);
      && Owned(sb, s1, ino[i := ip], owner[b := Place(i, TABLE)])
      && Grown(sb, s0, ino, owner, s1, ino[i := ip], owner[b := Place(i, TABLE)], i, TABLE) && Slot(s1, ip, TABLE) == b
  {
    SameTables(sb, s0, s1, ino, owner);
    AddTable(sb, s1, ino, owner, i, b);
    var ip := ino[i].(addrs := ino[i].addrs[NDIRECT := b]);
    forall l | 0 <= l < TABLE ensures Slot(s1, ip, l) == Slot(s0, ino[i], l) {
      if l >= NDIRECT {
        ZeroWords(l - NDIRECT);
      }
    }
    hide Slot, Owned;
  }

  lemma GrowEntry(sb: Super, s0: seq<Block>, s1: seq<Block>, ino: seq<Inode>, owner: map<nat, Place>, i: nat, k: nat,
                  b: nat)
    requires Owned(sb, s0, ino, owner) && i < |ino| && NDIRECT <= k < TABLE && ino[i].addrs[NDIRECT] != 0
    requires Slot(s0, ino[i], k) == 0
    requires |s1| == sb.size && (forall x: nat | x in owner || x < sb.bmapstart :: s1[x] == s0[x]) &&
             sb.datastart <= b < sb.size && b !in owner
    ensures var t := ino[i].addrs[NDIRECT];
      var s2, o2 := s1[t := PutWord(s0[t], k - NDIRECT, b)], owner[b := Place(i, k)];
      Owned(sb, s2, ino, o2) && Grown(sb, s0, ino, owner, s2, ino, o2, i, k) && Slot(s2, ino[i], k) == b &&
        s2[b] == s1[b]
  {
    var t := ino[i].addrs[NDIRECT];
    assert Slot(s0, ino[i], TABLE) == t;
    SameTables(sb, s0, s1, ino, owner);
    AddEntry(sb, s1, ino, owner, i, k, b);
    hide WordAt, PutWord;
    assert ino[i := ino[i].(addrs := ino[i].addrs)] == ino;
    var s2 := s1[t := PutWord(s0[t], k - NDIRECT, b)];
    forall j, l | 0 <= j < |ino| && 0 <= l < TABLE && (j, l) != (i, k)
      ensures Slot(s2, ino[j], l) == Slot(s0, ino[j], l)
    {
      EntrySlots(sb, s1, ino, owner, i, k, b, j, l);
    }
    hide Slot, Owned;
  }

  /** Filling one table entry moves no other slot. */
  lemma EntrySlots(sb: Super, store: seq<Block>, ino: seq<Inode>, owner: map<nat, Place>, i: nat, k: nat, b: nat,
                   j: nat, l: nat)
    requires Owned(sb, store, ino, owner) && i < |ino| && NDIRECT <= k < TABLE && ino[i].addrs[NDIRECT] != 0
    requires b < 0x1_0000_0000 && j < |ino| && l <= TABLE && (j, l) != (i, k)
    ensures var t := ino[i].addrs[NDIRECT];
            Slot(store[t := PutWord(store[t], k - NDIRECT, b)], ino[j], l) == Slot(store, ino[j], l)
  {
    if j != i && ino[j].addrs[NDIRECT] != 0 {
      SlotsDistinct(sb, store, ino, owner, j, TABLE, i, TABLE);
    }
    hide WordAt, PutWord;
  }

  lemma TableIsData(sb: Super, store: seq<Block>, ino: seq<Inode>, owner: map<nat, Place>, i: nat)
    requires Owned(sb, store, ino, owner) && i < |ino| && ino[i].addrs[NDIRECT] != 0
    ensures var t := ino[i].addrs[NDIRECT]; sb.datastart <= t < sb.size && t in owner && owner[t] == Place(i, TABLE)
  {
    assert Slot(store, ino[i], TABLE) == ino[i].addrs[NDIRECT];
  }

  lemma GrownRefl(sb: Super, store: seq<Block>, ino: seq<Inode>, owner: map<nat, Place>, i: nat, bn: nat)
    requires Owned(sb, store, ino, owner) && i < |ino| && bn <= TABLE
    ensures Grown(sb, store, ino, owner, store, ino, owner, i, bn)
  {
    hide Slot;
  }

  /** Filling slot `at` of inode i leaves another data slot bn of it, and the table, readable as before. */
  lemma GrownSlots(sb: Super, s0: seq<Block>, ino0: seq<Inode>, o0: map<nat, Place>, s1: seq<Block>, ino1: seq<Inode>,
                   o1: map<nat, Place>,
                   i: nat, at: nat, bn: nat)
    requires Grown(sb, s0, ino0, o0, s1, ino1, o1, i, at) && bn < TABLE && bn != at
    ensures Owned(sb, s0, ino0, o0) && Owned(sb, s1, ino1, o1) && i < |ino0| == |ino1|
    ensures Slot(s1, ino1[i], bn) == Slot(s0, ino0[i], bn)
    ensures Slot(s1, ino1[i], TABLE) == ino1[i].addrs[NDIRECT]
    ensures bn >= NDIRECT && Slot(s0, ino0[i], bn) != 0 ==> Slot(s0, ino0[i], TABLE) != 0
  {
    hide WordAt;
  }

  lemma GrownBasics(sb: Super, s0: seq<Block>, ino0: seq<Inode>, o0: map<nat, Place>, s1: seq<Block>, ino1: seq<Inode>,
                    o1: map<nat, Place>, i: nat, bn: nat)
    requires Grown(sb, s0, ino0, o0, s1, ino1, o1, i, bn)
    ensures Owned(sb, s0, ino0, o0) && Owned(sb, s1, ino1, o1) && i < |ino0| == |ino1|
    ensures ino1 == ino0[i := ino0[i].(addrs := ino1[i].addrs)]
    ensures forall b: nat | b < sb.bmapstart :: s1[b] == s0[b]
    ensures Slot(s0, ino0[i], TABLE) != 0 ==> Slot(s1, ino1[i], TABLE) == Slot(s0, ino0[i], TABLE)
  {
  }

  /** The blocks bmap has added are the one asked for and the table. */
  lemma GrownFresh(sb: Super, s0: seq<Block>, ino0: seq<Inode>, o0: map<nat, Place>, s1: seq<Block>, ino1: seq<Inode>,
                   o1: map<nat, Place>, i: nat, bn: nat)
    requires Grown(sb, s0, ino0, o0, s1, ino1, o1, i, bn)
    ensures forall b | b in o1 && b !in o0 :: o1[b] == Place(i, bn) || o1[b] == Place(i, TABLE)
  {
    hide WordAt;
    forall b | b in o1 && b !in o0 && o1[b].k == TABLE ensures o1[b].i == i {
      assert Slot(s1, ino1[o1[b].i], TABLE) == b;
    }
    hide Slot;
  }

  lemma OwnedInode(sb: Super, store: seq<Block>, ino: seq<Inode>, owner: map<nat, Place>, i: nat)
    requires Owned(sb, store, ino, owner) && i < |ino|
    ensures |ino[i].addrs| == NDIRECT + 1 && ino[i].addrs[NDIRECT] < |store| == sb.size
  {
  }

  lemma TableFirst(sb: Super, store: seq<Block>, ino: seq<Inode>, owner: map<nat, Place>, i: nat, k: nat)
    requires Owned(sb, store, ino, owner) && i < |ino| && NDIRECT <= k < TABLE
    ensures Slot(store, ino[i], TABLE) == 0 ==> Slot(store, ino[i], k) == 0
  {
  }

  lemma OneAt(sb: Super, store: seq<Block>, ino: seq<Inode>, owner: map<nat, Place>, i: nat, k: nat, b: nat)
    requires Owned(sb, store, ino, owner) && i < |ino| && k <= TABLE && b == Slot(store, ino[i], k) != 0
    ensures b in owner && owner[b] == Place(i, k) && forall x | x in owner && owner[x] == Place(i, k) :: x == b
  {
    hide Slot;
  }

  lemma GrownTrans(sb: Super, s0: seq<Block>, ino0: seq<Inode>, o0: map<nat, Place>, s1: seq<Block>, ino1: seq<Inode>,
                   o1: map<nat, Place>,
                   s2: seq<Block>, ino2: seq<Inode>, o2: map<nat, Place>, i: nat, bn: nat)
    requires Grown(sb, s0, ino0, o0, s1, ino1, o1, i, TABLE) && Grown(sb, s1, ino1, o1, s2, ino2, o2, i, bn)
    ensures Grown(sb, s0, ino0, o0, s2, ino2, o2, i, bn)
    ensures Slot(s1, ino1[i], TABLE) != 0 ==> Slot(s2, ino2[i], TABLE) == Slot(s1, ino1[i], TABLE)
  {
    hide Slot;
    forall j, k | 0 <= j < |ino0| && 0 <= k < TABLE && (j, k) != (i, bn)
      ensures Slot(s2, ino2[j], k) == Slot(s0, ino0[j], k)
    {
      assert Slot(s1, ino1[j], k) == Slot(s0, ino0[j], k);
    }
  }

  /** The blocks of inode i in slots before k. */
  ghost function Below(owner: map<nat, Place>, i: nat, k: nat): set<nat> {
    set b | b in owner && owner[b].i == i && owner[b].k < k
  }

  /** The one block, if any, between Below(k) and Below(k + 1): that of slot k. */
  lemma BelowNext(sb: Super, store: seq<Block>, ino: seq<Inode>, owner: map<nat, Place>, i: nat, k: nat)
    requires Owned(sb, store, ino, owner) && i < |ino| && k <= TABLE
    ensures var b := Slot(store, ino[i], k);
      && (b != 0 ==>
           b in owner && b !in Below(owner, i, k) && sb.datastart <= b &&
           Below(owner, i, k + 1) == Below(owner, i, k) + {b})
      && (b == 0 ==> Below(owner, i, k + 1) == Below(owner, i, k))
  {
    hide Slot;
  }

  /** Without a table there is nothing past the direct blocks. */
  lemma BelowNoTable(sb: Super, store: seq<Block>, ino: seq<Inode>, owner: map<nat, Place>, i: nat)
    requires Owned(sb, store, ino, owner) && i < |ino| && ino[i].addrs[NDIRECT] == 0
    ensures Below(owner, i, NDIRECT) == Below(owner, i, TABLE + 1)
  {
    assert forall k | NDIRECT <= k <= TABLE :: Slot(store, ino[i], k) == 0;
    hide Slot;
    assert forall b | b in owner && owner[b].i == i :: owner[b].k < NDIRECT;
  }

  /** What itrunc leaves of the ownership map. */
  ghost function Without(owner: map<nat, Place>, i: nat): map<nat, Place> {
    map b | b in owner && owner[b].i != i :: owner[b]
  }

  lemma BelowAll(sb: Super, store: seq<Block>, ino: seq<Inode>, owner: map<nat, Place>, i: nat)
    requires Owned(sb, store, ino, owner)
    ensures owner.Keys - Below(owner, i, TABLE + 1) == Without(owner, i).Keys
  {
    hide Slot;
    assert forall b | b in owner :: owner[b].k <= TABLE;
  }

  /** With inode i emptied and the data blocks as they were, what is left is owned as before. */
  lemma Emptied(sb: Super, s0: seq<Block>, ino: seq<Inode>, owner: map<nat, Place>, s1: seq<Block>, i: nat, ip: Inode)
    requires Owned(sb, s0, ino, owner) && i < |ino| && |s1| == sb.size
    requires forall b: nat | sb.datastart <= b < sb.size :: s1[b] == s0[b]
    requires ip.addrs == seq(NDIRECT + 1, _ => 0) && ip.size <= MAXFILE * BSIZE
    ensures Owned(sb, s1, ino[i := ip], Without(owner, i))
  {
    SameTables(sb, s0, s1, ino, owner);
    var ino1, owner1 := ino[i := ip], Without(owner, i);
    assert forall k | 0 <= k <= TABLE :: Slot(s1, ip, k) == 0;
    hide Slot;
    forall j, k | 0 <= j < |ino1| && 0 <= k <= TABLE && Slot(s1, ino1[j], k) != 0
      ensures Slot(s1, ino1[j], k) in owner1 && owner1[Slot(s1, ino1[j], k)] == Place(j, k)
    {
      assert Slot(s1, ino[j], k) == Slot(s0, ino[j], k);
    }
    forall b | b in owner1
      ensures sb.datastart <= b < sb.size && owner1[b].i < |ino1| && owner1[b].k <= TABLE &&
              Slot(s1, ino1[owner1[b].i], owner1[b].k) == b
    {
      assert owner1[b] == owner[b] && ino1[owner[b].i] == ino[owner[b].i];
    }
  }
}
