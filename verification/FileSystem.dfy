/** fs.c over the transparent block store that the log and the buffer cache provide:
    bread returns store[b], log_write replaces it and records the block number. */
module FileSystem {
  import opened Blocks
  import opened FileLayout
  import opened FileContents
  import opened InodeCodec
  import opened Reservation
  import opened Sets
  import opened Writes

  lemma BitsAfterPut(sb: Super, store: seq<Block>, used: set<nat>, r: nat, on: bool)
    requires sb.Valid() && |store| == sb.size && Bits(sb, store, used) && r < sb.size
    ensures sb.MapBlock(r) < sb.size
    ensures Bits(sb, store[sb.MapBlock(r) := PutBit(store[sb.MapBlock(r)], r % BPB, on)], if on then used + {r}
            else used - {r})
  {
    var m := sb.MapBlock(r);
    var s' := store[m := PutBit(store[m], r % BPB, on)];
    hide BitAt, PutBit;
    forall b: nat | b < sb.size
      ensures BitAt(s'[sb.MapBlock(b)], b % BPB) <==> if on then b in used + {r} else b in used - {r}
    {
      if sb.MapBlock(b) == m && b % BPB == r % BPB {
        assert b == r;
      }
    }
  }

  lemma BitsAfterWrite(sb: Super, store: seq<Block>, used: set<nat>, c: nat, data: Block)
    requires sb.Valid() && |store| == sb.size && Bits(sb, store, used) && c < sb.size
    requires c < sb.bmapstart || sb.datastart <= c
    ensures Bits(sb, store[c := data], used)
  {
    hide BitAt;
  }

  /** The first n bytes of src have been copied to offset off of file i. */
  ghost predicate Copied(files0: seq<seq<byte>>, i: nat, off: nat, src: seq<byte>, n: nat, files: seq<seq<byte>>) {
    && i < |files0| && off <= |files0[i]| && n <= |src|
    && files == files0[i := Splice(files0[i], off, src[..n])]
  }

  /** A write at offset off has got to byte tot of src, which ends a block unless it begins or ends src. */
  ghost predicate Behind(i: nat, src: seq<byte>, off: nat, tot: nat, files0: seq<seq<byte>>, ino0: seq<Inode>,
                         files: seq<seq<byte>>, ino: seq<Inode>) {
    && i < |ino| == |ino0| && tot <= |src| && (tot == 0 || tot == |src| || (off + tot) % BSIZE == 0)
    && Copied(files0, i, off, src, tot, files)
    && ino == ino0[i := ino0[i].(addrs := ino[i].addrs)] && (off + |src| <= |files0[i]| ==> ino == ino0)
  }

  lemma BehindLess(i: nat, src: seq<byte>, off: nat, tot: nat, m: nat, files0: seq<seq<byte>>, ino0: seq<Inode>,
                   f1: seq<seq<byte>>, ino1: seq<Inode>,
                   files: seq<seq<byte>>, ino: seq<Inode>)
    requires Behind(i, src, off, tot, files0, ino0, f1, ino1) && tot < |src| && m == Piece(off + tot, |src| - tot) &&
             |f1| == |ino1| == |ino|
    requires off + tot <= |f1[i]| && files == f1[i := Splice(f1[i], off + tot, src[tot..tot + m])]
    requires ino == ino1[i := ino1[i].(addrs := ino[i].addrs)] && (off + tot < |f1[i]| ==> ino == ino1)
    ensures Behind(i, src, off, tot + m, files0, ino0, files, ino)
  {
    SpanStep(off, tot, |src|);
    CopiedMore(files0, i, off, src, tot, m, f1);
    hide Splice, Spanned, Unmapped, Piece, Copied;
  }

  lemma CopiedMore(files0: seq<seq<byte>>, i: nat, off: nat, src: seq<byte>, n: nat, m: nat, files: seq<seq<byte>>)
    requires Copied(files0, i, off, src, n, files) && n + m <= |src|
    ensures |files| == |files0| && off + n <= |files[i]| && |files0[i]| <= |files[i]|
    ensures Copied(files0, i, off, src, n + m, files[i := Splice(files[i], off + n, src[n..n + m])])
  {
    SpliceMore(files0, i, off, src, n, n + m);
  }

  lemma CopiedAll(files0: seq<seq<byte>>, i: nat, off: nat, src: seq<byte>, files: seq<seq<byte>>)
    requires Copied(files0, i, off, src, |src|, files)
    ensures files == files0[i := Splice(files0[i], off, src)]
  {
    assert src[..|src|] == src;
  }

  ghost predicate IsSlice(c: seq<byte>, a: nat, b: nat, d: seq<byte>) {
    a <= b <= |c| && d == c[a..b]
  }

  lemma JoinSlices(c: seq<byte>, a: nat, b: nat, e: nat, d: seq<byte>, d': seq<byte>)
    requires IsSlice(c, a, b, d) && IsSlice(c, b, e, d')
    ensures IsSlice(c, a, e, d + d')
  {
  }

  /** The next piece of src, after the first a bytes. */
  lemma SpliceMore(files: seq<seq<byte>>, i: nat, off: nat, src: seq<byte>, a: nat, b: nat)
    requires i < |files| && off <= |files[i]| && a <= b <= |src|
    ensures var f := files[i := Splice(files[i], off, src[..a])];
            f[i := Splice(f[i], off + a, src[a..b])] == files[i := Splice(files[i], off, src[..b])]
  {
    SpliceTwice(files[i], off, src[..a], src[a..b]);
    assert src[..a] + src[a..b] == src[..b];
  }

  lemma SpliceSize(c: seq<byte>, o: nat, s: seq<byte>)
    requires o <= |c|
    ensures |Splice(c, o, s)| == if o + |s| < |c| then |c| else o + |s|
  {
  }

  /** What a call returns: a byte count, -1, or no return at all (balloc's panic). */
  datatype IoResult = Count(n: nat) | Failed | Panicked

  /** An inode says how long its file is. */
  ghost predicate Sizes(ino: seq<Inode>, files: seq<seq<byte>>) {
    |files| == |ino| && forall j | 0 <= j < |ino| :: |files[j]| == ino[j].size
  }

  /** Direct block numbers with the first k set to 0. */
  function Cleared(addrs: seq<uint32>, k: nat): seq<uint32> {
    seq(|addrs|, x requires 0 <= x < |addrs| => if x < k then 0 else addrs[x])
  }

  /** Inode i with its first k block numbers cleared. */
  function WithCleared(ino: seq<Inode>, i: nat, k: nat): (r: seq<Inode>)
    requires i < |ino|
    ensures |r| == |ino|
  {
    ino[i := ino[i].(addrs := Cleared(ino[i].addrs, k))]
  }

  lemma ClearedNext(ino0: seq<Inode>, i: nat, k: nat)
    requires i < |ino0| && k < |ino0[i].addrs|
    ensures var ino := WithCleared(ino0, i, k);
      && |ino[i].addrs| == |ino0[i].addrs| && ino[i].addrs[k] == ino0[i].addrs[k]
      && WithCleared(ino0, i, k + 1) == if ino0[i].addrs[k] == 0 then ino
           else ino[i := ino[i].(addrs := ino[i].addrs[k := 0])]
  {
    var c := Cleared(ino0[i].addrs, k);
    assert c[k := 0] == Cleared(ino0[i].addrs, k + 1);
    if ino0[i].addrs[k] == 0 {
      assert c[k := 0] == c;
    }
  }

  /** No block before n is free. */
  ghost predicate UsedBelow(used: set<nat>, n: nat) {
    forall b: nat | b < n :: b in used
  }

  /** No block is free. */
  ghost predicate Full(sb: Super, used: set<nat>) {
    UsedBelow(used, sb.size)
  }

  /** The free blocks. */
  ghost function Free(sb: Super, used: set<nat>): set<nat> {
    set b: nat | b < sb.size && b !in used
  }

  /** Less than n blocks were free, and now none is. */
  ghost predicate Short(sb: Super, used0: set<nat>, used: set<nat>, n: nat) {
    Full(sb, used) && used0 <= used && |used - used0| < n
  }

  lemma ShortOfFree(sb: Super, used0: set<nat>, used: set<nat>, n: nat)
    requires Short(sb, used0, used, n)
    ensures Full(sb, used) && |Free(sb, used0)| < n
  {
    assert Free(sb, used0) <= used - used0;
    SubsetSize(Free(sb, used0), used - used0);
  }

  /** Everything but the free map is as in s0. */
  ghost predicate OnlyMap(sb: Super, s0: seq<Block>, s1: seq<Block>) {
    |s1| == |s0| == sb.size && forall x: nat | x < sb.size && !(sb.bmapstart <= x < sb.datastart) :: s1[x] == s0[x]
  }

  lemma GrownExtends(sb: Super, s0: seq<Block>, ino0: seq<Inode>, o0: map<nat, Place>, s1: seq<Block>,
                     ino1: seq<Inode>, o1: map<nat, Place>, i: nat, bn: nat)
    requires Grown(sb, s0, ino0, o0, s1, ino1, o1, i, bn)
    ensures Extends(o0, o1) && o1.Keys == o0.Keys + Fresh(o0, o1)
  {
  }

  lemma GrownTwice(sb: Super, s0: seq<Block>, ino0: seq<Inode>, o0: map<nat, Place>, s1: seq<Block>, ino1: seq<Inode>,
                   o1: map<nat, Place>,
                   s2: seq<Block>, ino2: seq<Inode>, o2: map<nat, Place>, i: nat, bn: nat)
    requires Grown(sb, s0, ino0, o0, s1, ino1, o1, i, TABLE) && Grown(sb, s1, ino1, o1, s2, ino2, o2, i, bn)
    ensures Grown(sb, s0, ino0, o0, s2, ino2, o2, i, bn)
    ensures forall l0, l1, l2 | Allocated(sb, o0, o1, i, l0, l1) && Allocated(sb, o1, o2, i, l1, l2) ::
              Allocated(sb, o0, o2, i, l0, l2)
  {
    GrownTrans(sb, s0, ino0, o0, s1, ino1, o1, s2, ino2, o2, i, bn);
    GrownExtends(sb, s0, ino0, o0, s1, ino1, o1, i, TABLE);
    GrownExtends(sb, s1, ino1, o1, s2, ino2, o2, i, bn);
    hide *;
    forall l0, l1, l2 | Allocated(sb, o0, o1, i, l0, l1) && Allocated(sb, o1, o2, i, l1, l2)
      ensures Allocated(sb, o0, o2, i, l0, l2)
    {
      AllocatedTrans(sb, o0, o1, o2, i, l0, l1, l2);
    }
  }

  lemma NoneShort(sb: Super, used: set<nat>, n: nat)
    requires Full(sb, used) && n > 0
    ensures Short(sb, used, used, n)
  {
    assert used - used == {};
  }

  /** bmap's entry finds no block after the table has taken one, or none. */
  lemma OneShort(sb: Super, used0: set<nat>, used: set<nat>, t: nat, took: bool)
    requires Full(sb, used) && used == if took then used0 + {t} else used0
    ensures Short(sb, used0, used, if took then 2 else 1)
  {
    if took {
      assert used - used0 <= {t};
      SubsetSize(used - used0, {t});
    } else {
      assert used - used0 == {};
    }
  }

  lemma OnlyMapTrans(sb: Super, s0: seq<Block>, s1: seq<Block>, s2: seq<Block>)
    requires OnlyMap(sb, s0, s1) && OnlyMap(sb, s1, s2)
    ensures OnlyMap(sb, s0, s2)
  {
  }

  /** itrunc once its blocks are freed and the inode is empty, but for writing the inode back. */
  lemma Truncated(sb: Super, s0: seq<Block>, ino: seq<Inode>, owner: map<nat, Place>, files: seq<seq<byte>>,
                  s1: seq<Block>, i: nat, ip: Inode)
    requires Owned(sb, s0, ino, owner) && ShowAll(s0, ino, files) && Synced(sb, s0, ino) && i < |ino| &&
             OnlyMap(sb, s0, s1)
    requires ip.addrs == seq(NDIRECT + 1, _ => 0) && ip.size <= MAXFILE * BSIZE
    ensures Owned(sb, s1, ino[i := ip], Without(owner, i)) && ShowAll(s1, ino[i := ip], files[i := []]) &&
            Synced(sb, s1, ino)
    ensures |files| == |ino|
    ensures sb.Meta() + (owner.Keys - Below(owner, i, TABLE + 1)) == sb.Meta() + Without(owner, i).Keys
    ensures sb.Meta() + (owner.Keys - Below(owner, i, TABLE + 1)) == sb.Meta() +
            owner.Keys - (set b | b in owner && owner[b].i == i)
  {
    Emptied(sb, s0, ino, owner, s1, i, ip);
    EmptiedShowAll(sb, s0, ino, owner, files, s1, i, ip);
    BelowAll(sb, s0, ino, owner, i);
    SyncedFrame(sb, s0, s1, ino);
    hide Slot, DiskInode;
    assert forall b | b in owner :: b !in sb.Meta();
  }

  /** The disk holds n inodes with these files, a hole-free layout and an exact free map. */
  ghost predicate Mountable(sb: Super, store: seq<Block>, n: nat, owner: map<nat, Place>, files: seq<seq<byte>>) {
    && sb.Valid() && |store| == sb.size && n <= sb.ninodes
    && var ino := DiskInodes(sb, store, n);
       Owned(sb, store, ino, owner) && Bits(sb, store, sb.Meta() + owner.Keys) && ShowAll(store, ino, files) &&
         Sizes(ino, files)
  }

  class FileSystem {
    const sb: Super
    var store: seq<Block>
    var ino: seq<Inode>
    ghost var owner: map<nat, Place>
    ghost var used: set<nat>
    ghost var logged: set<nat>
    ghost var base: seq<Block>
    ghost var writes: seq<Write>
    ghost var files: seq<seq<byte>>

    /** An existing file system of n inodes with a hole-free, bitmap-exact layout, read from disk. */
    constructor Mount(sb: Super, store: seq<Block>, n: nat, ghost owner: map<nat, Place>, ghost files: seq<seq<byte>>)
      requires Mountable(sb, store, n, owner, files)
      ensures this.sb == sb && this.store == store && ino == DiskInodes(sb, store, n) && this.files == files &&
              this.owner == owner && Ok()
      ensures logged == {} && used == sb.Meta() + owner.Keys && base == store && writes == []
    {
      this.sb, this.store, this.ino := sb, store, DiskInodes(sb, store, n);
      this.owner, this.used, this.logged, this.files := owner, sb.Meta() + owner.Keys, {}, files;
      base, writes := store, [];
      new;
      hide Owned, Bits, ShowAll, DiskInode;
    }

    /** What has been logged since the operation began, in `writes`, makes `base` the store, and
        `logged` are the blocks it touches. */
    ghost predicate Recorded()
      reads this`base, this`writes, this`store, this`logged
    {
      store == Replay(base, writes) && logged == Touched(writes)
    }

    /** The free map is exact, up to the blocks in `used`, which include all metadata. */
    ghost predicate MapOk()
      reads this
    {
      sb.Valid() && |store| == sb.size && Bits(sb, store, used) && sb.Meta() <= used && Recorded()
    }

    method LogWrite(b: nat, data: Block)
      requires b < |store|
      modifies this`store, this`logged, this`writes
      ensures store == old(store)[b := data] && logged == old(logged) + {b}
      ensures writes == old(writes) + [Write(b, data)] && (old(Recorded()) ==> Recorded())
    {
      if Recorded() {
        ReplayOne(base, writes, b, data);
      }
      store := store[b := data];
      logged := logged + {b};
      writes := writes + [Write(b, data)];
    }

    /** begin_op, as far as one operation is concerned: it has logged nothing yet. */
    ghost method BeginOp()
      modifies this`logged, this`writes, this`base
      ensures logged == {} && writes == [] && base == store && (old(Ok()) ==> Ok())
    {
      hide Bits, Owned, ShowAll, Synced, Sizes;
      logged, base, writes := {}, store, [];
    }

    /** One block of the free map: the first clear bit at or after b, if this block has one. */
    method ScanMapBlock(b: nat) returns (bi: nat, found: bool)
      requires MapOk() && b % BPB == 0 && b < sb.size && UsedBelow(used, b)
      ensures bi <= BPB && b + bi <= sb.size && UsedBelow(used, b + bi)
      ensures if found then bi < BPB && b + bi < sb.size && b + bi !in used else bi == BPB || b + bi == sb.size
    {
      sb.Regions(0, b);
      var bp := store[sb.MapBlock(b)];
      bi := 0;
      found := false;
      hide BitAt;
      while bi < BPB && b + bi < sb.size
        invariant bi <= BPB && b + bi <= sb.size && UsedBelow(used, b + bi)
      {
        assert sb.MapBlock(b + bi) == sb.MapBlock(b) && (b + bi) % BPB == bi;
        if !BitAt(bp, bi) {
          found := true;
          return;
        }
        bi := bi + 1;
      }
    }

    /** balloc: the lowest free block, marked and zeroed; 0 stands for its panic. */
    method Balloc() returns (r: nat)
      requires MapOk()
      modifies this`store, this`used, this`logged, this`writes
      ensures MapOk()
      ensures r == 0 ==> store == old(store) && used == old(used) && logged == old(logged) && Full(sb, used)
      ensures r != 0 ==>
        sb.datastart <= r < sb.size && r !in old(used) && used == old(used) + {r} && UsedBelow(old(used), r)
      ensures r != 0 ==> logged == old(logged) + {sb.MapBlock(r), r} && store[r] == ZeroBlock()
      ensures r != 0 ==> forall b: nat | b < sb.size && b != r && b != sb.MapBlock(r) :: store[b] == old(store)[b]
    {
      var b := 0;
      hide Bits;
      assert UsedBelow(used, 0) && Full(sb, used) == UsedBelow(used, sb.size);
      hide UsedBelow, Full;
      while b < sb.size
        invariant b % BPB == 0 && UsedBelow(used, if b < sb.size then b else sb.size)
        invariant MapOk() && store == old(store) && used == old(used) && logged == old(logged)
      {
        var bi, found := ScanMapBlock(b);
        if found {
          r := b + bi;
          assert r !in sb.Meta();
          Mark(r, bi);
          return;
        }
        b := b + BPB;
      }
      return 0;
    }

    /** Mark block r in the map and zero it (bzero). */
    method Mark(r: nat, bi: nat)
      requires MapOk() && r < sb.size && r !in used && bi == r % BPB
      modifies this`store, this`used, this`logged, this`writes
      ensures MapOk() && used == old(used) + {r} && logged == old(logged) + {sb.MapBlock(r), r} &&
              store[r] == ZeroBlock()
      ensures forall b: nat | b < sb.size && b != r && b != sb.MapBlock(r) :: store[b] == old(store)[b]
    {
      hide Bits, BitAt, PutBit, Recorded;
      sb.Regions(0, r);
      BitsAfterPut(sb, store, used, r, true);
      LogWrite(sb.MapBlock(r), PutBit(store[sb.MapBlock(r)], bi, true));
      used := used + {r};
      BitsAfterWrite(sb, store, used, r, ZeroBlock());
      LogWrite(r, ZeroBlock());
    }

    lemma UsedInside(b: nat)
      requires MapOk() && b in used
      ensures b < sb.size
    {
    }

    /** bfree; its panic ("freeing free block") is the precondition. */
    method Bfree(b: nat)
      requires MapOk() && b in used && sb.datastart <= b
      modifies this`store, this`used, this`logged, this`writes
      ensures MapOk() && used == old(used) - {b} && logged == old(logged) + {sb.MapBlock(b)}
      ensures forall x: nat | x < sb.size && x != sb.MapBlock(b) :: store[x] == old(store)[x]
    {
      UsedInside(b);
      hide Bits, BitAt, PutBit, Recorded;
      sb.Regions(0, b);
      BitsAfterPut(sb, store, used, b, false);
      LogWrite(sb.MapBlock(b), PutBit(store[sb.MapBlock(b)], b % BPB, false));
      used := used - {b};
    }

    /** The file system invariant: no sharing, and the free map is metadata plus owned blocks. */
    ghost predicate Valid()
      reads this
    {
      MapOk() && Owned(sb, store, ino, owner) && used == sb.Meta() + owner.Keys
    }

    lemma ValidOwned()
      ensures Valid() <==> MapOk() && Owned(sb, store, ino, owner) && used == sb.Meta() + owner.Keys
      ensures MapOk() ==> sb.Valid() && |store| == sb.size && Bits(sb, store, used)
    {
    }

    /** The block in slot k of inode i. */
    ghost function At(i: nat, k: nat): nat
      requires Owned(sb, store, ino, owner) && i < |ino| && k <= TABLE
      reads this
    {
      Slot(store, ino[i], k)
    }

    /** balloc moves no block of any file. */
    method BallocOwned() returns (r: nat)
      requires Valid()
      modifies this`store, this`used, this`logged, this`writes
      ensures r != 0 ==> MapOk() && Owned(sb, store, ino, owner) && r !in owner && sb.datastart <= r < sb.size
      ensures r != 0 ==>
        store[r] == ZeroBlock() && forall b: nat | b in owner || b < sb.bmapstart :: store[b] == old(store)[b]
      ensures r != 0 ==> used == sb.Meta() + owner.Keys + {r} && OwnedBelow(sb, owner, r)
      ensures r != 0 ==> logged == old(logged) + {sb.MapBlock(r), r}
      ensures r != 0 ==> forall i, k | 0 <= i < |ino| && 0 <= k <= TABLE ::
              Slot(store, ino[i], k) == Slot(old(store), ino[i], k)
      ensures r == 0 ==> Full(sb, used) && used == old(used)
    {
      hide Bits, Slot;
      r := Balloc();
      if r != 0 {
        sb.Regions(0, r);
        SameTables(sb, old(store), store, ino, owner);
      }
    }

    /** bmap of a direct block. */
    method BmapDirect(i: nat, bn: nat) returns (addr: nat)
      requires Valid() && i < |ino| && bn < NDIRECT
      modifies this`store, this`ino, this`owner, this`used, this`logged, this`writes
      ensures addr != 0 ==>
        Valid() && Grown(sb, old(store), old(ino), old(owner), store, ino, owner, i, bn) && At(i, bn) == addr
      ensures old(At(i, bn)) != 0 ==>
        addr != 0 && store == old(store) && ino == old(ino) && owner == old(owner) && logged == old(logged)
      ensures addr != 0 && old(At(i, bn)) == 0 ==> store[addr] == ZeroBlock()
      ensures addr != 0 ==> Allocated(sb, old(owner), owner, i, old(logged), logged)
      ensures addr == 0 ==> Full(sb, used) && used == old(used)
    {
      addr := ino[i].addrs[bn];
      AllocatedNone(sb, owner, i, logged);
      if addr == 0 {
        hide Bits, Allocated;
        addr := BallocOwned();
        if addr != 0 {
          AllocatedOne(sb, owner, i, bn, addr, old(logged));
          GrowDirect(sb, old(store), store, ino, owner, i, bn, addr);
          hide Owned, Slot, Grown;
          ino := ino[i := ino[i].(addrs := ino[i].addrs[bn := addr])];
          owner := owner[addr := Place(i, bn)];
          assert MapOk();
          assert used == sb.Meta() + owner.Keys;
        }
      }
    }

    /** The first half of bmap's indirect case: the table, allocated if need be. */
    method Table(i: nat) returns (t: nat)
      requires Valid() && i < |ino|
      modifies this`store, this`ino, this`owner, this`used, this`logged, this`writes
      ensures t != 0 ==>
        Valid() && Grown(sb, old(store), old(ino), old(owner), store, ino, owner, i, TABLE) && At(i, TABLE) == t
      ensures old(At(i, TABLE)) != 0 ==>
        t != 0 && store == old(store) && ino == old(ino) && owner == old(owner) && logged == old(logged)
      ensures t != 0 ==> Allocated(sb, old(owner), owner, i, old(logged), logged)
      ensures t != 0 ==> used == if old(At(i, TABLE)) == 0 then old(used) + {t} else old(used)
      ensures t == 0 ==> Full(sb, used) && used == old(used)
    {
      t := ino[i].addrs[NDIRECT];
      AllocatedNone(sb, owner, i, logged);
      if t == 0 {
        hide Bits, Allocated, Recorded;
        t := BallocOwned();
        if t != 0 {
          AllocatedOne(sb, owner, i, TABLE, t, old(logged));
          GrowTable(sb, old(store), store, ino, owner, i, t);
          hide Owned, Slot, Grown;
          ino := ino[i := ino[i].(addrs := ino[i].addrs[NDIRECT := t])];
          owner := owner[t := Place(i, TABLE)];
          assert MapOk();
          assert used == sb.Meta() + owner.Keys;
          OneAt(sb, store, ino, owner, i, TABLE, t);
          assert TableOf(owner, i) == {t};
        }
      }
    }

    /** Enter the fresh block addr in inode i's table; s0 is the store before it was allocated. */
    method EnterBlock(i: nat, bn: nat, addr: nat, bp: Block, ghost s0: seq<Block>)
      requires MapOk() && Owned(sb, s0, ino, owner) && i < |ino| && NDIRECT <= bn < TABLE && ino[i].addrs[NDIRECT] != 0
      requires Slot(s0, ino[i], bn) == 0 && bp == s0[ino[i].addrs[NDIRECT]] &&
               (forall x: nat | x in owner || x < sb.bmapstart :: store[x] == s0[x])
      requires sb.datastart <= addr < sb.size && addr !in owner
      requires used == sb.Meta() + owner.Keys + {addr}
      modifies this`store, this`owner, this`logged, this`writes
      ensures MapOk() && Owned(sb, store, ino, owner) && used == sb.Meta() + owner.Keys
      ensures Grown(sb, s0, ino, old(owner), store, ino, owner, i, bn) && At(i, bn) == addr &&
              owner == old(owner)[addr := Place(i, bn)]
      ensures logged == old(logged) + {ino[i].addrs[NDIRECT]} && store[addr] == old(store)[addr]
    {
      hide Bits, WordAt, PutWord, Slot, Grown, Owned;
      OwnedInode(sb, s0, ino, owner, i);
      var t := ino[i].addrs[NDIRECT];
      TableIsData(sb, s0, ino, owner, i);
      GrowEntry(sb, s0, store, ino, owner, i, bn, addr);
      BitsAfterWrite(sb, store, used, t, PutWord(bp, bn - NDIRECT, addr));
      LogWrite(t, PutWord(bp, bn - NDIRECT, addr));
      owner := owner[addr := Place(i, bn)];
    }

    /** Allocate a block and enter it in inode i's table. */
    method NewEntry(i: nat, bn: nat) returns (addr: nat)
      requires Valid() && i < |ino| && NDIRECT <= bn < TABLE && ino[i].addrs[NDIRECT] != 0 && At(i, bn) == 0
      modifies this`store, this`owner, this`used, this`logged, this`writes
      ensures addr != 0 ==> MapOk() && Owned(sb, store, ino, owner) && used == sb.Meta() + owner.Keys
      ensures addr != 0 ==> Grown(sb, old(store), ino, old(owner), store, ino, owner, i, bn) && At(i, bn) == addr
      ensures addr != 0 ==> Allocated(sb, old(owner), owner, i, old(logged), logged) && store[addr] == ZeroBlock()
      ensures addr == 0 ==> Full(sb, used) && used == old(used)
    {
      hide Bits, WordAt, PutWord, Slot, Grown, Allocated, Recorded, OwnedBelow;
      var bp := store[ino[i].addrs[NDIRECT]];
      TableIs(i);
      addr := BallocOwned();
      if addr != 0 {
        AllocatedOne(sb, owner, i, bn, addr, old(logged));
        EnterBlock(i, bn, addr, bp, old(store));
        TableIs(i);
        assert logged == old(logged) + {addr, sb.MapBlock(addr)} + TableOf(owner, i);
      }
    }

    lemma TableIs(i: nat)
      requires Owned(sb, store, ino, owner) && i < |ino| && ino[i].addrs[NDIRECT] != 0
      ensures TableOf(owner, i) == {ino[i].addrs[NDIRECT]} && At(i, TABLE) == ino[i].addrs[NDIRECT]
    {
      OneAt(sb, store, ino, owner, i, TABLE, ino[i].addrs[NDIRECT]);
    }

    /** The second half of bmap's indirect case: entry bn - NDIRECT of the table. */
    method Entry(i: nat, bn: nat) returns (addr: nat)
      requires Valid() && i < |ino| && NDIRECT <= bn < TABLE && ino[i].addrs[NDIRECT] != 0
      modifies this`store, this`owner, this`used, this`logged, this`writes
      ensures addr != 0 ==>
        Valid() && Grown(sb, old(store), old(ino), old(owner), store, ino, owner, i, bn) && At(i, bn) == addr
      ensures old(At(i, bn)) != 0 ==> addr != 0 && store == old(store) && owner == old(owner) && logged == old(logged)
      ensures addr != 0 && old(At(i, bn)) == 0 ==> store[addr] == ZeroBlock()
      ensures addr != 0 ==> Allocated(sb, old(owner), owner, i, old(logged), logged)
      ensures addr == 0 ==> Full(sb, used) && used == old(used)
    {
      addr := WordAt(store[ino[i].addrs[NDIRECT]], bn - NDIRECT);
      if addr == 0 {
        hide Bits, WordAt, Grown, Allocated;
        addr := NewEntry(i, bn);
      } else {
        AllocatedNone(sb, owner, i, logged);
        GrownRefl(sb, store, ino, owner, i, bn);
      }
    }

    /** Blocks bmap(i, bn) has to allocate. */
    ghost function Missing(i: nat, bn: nat): nat
      requires Owned(sb, store, ino, owner) && i < |ino| && bn < MAXFILE
      reads this
    {
      (if At(i, bn) == 0 then 1 else 0) + (if bn >= NDIRECT && At(i, TABLE) == 0 then 1 else 0)
    }

    /** bmap, by the way the slot is reached. */
    method BmapIndirect(i: nat, bn: nat) returns (addr: nat)
      requires Valid() && i < |ino| && NDIRECT <= bn < MAXFILE
      modifies this`store, this`ino, this`owner, this`used, this`logged, this`writes
      ensures addr != 0 ==>
        Valid() && Grown(sb, old(store), old(ino), old(owner), store, ino, owner, i, bn) && At(i, bn) == addr
      ensures old(At(i, bn)) != 0 ==>
        addr != 0 && store == old(store) && ino == old(ino) && owner == old(owner) && logged == old(logged)
      ensures addr != 0 && old(At(i, bn)) == 0 ==> store[addr] == ZeroBlock()
      ensures addr != 0 ==> Allocated(sb, old(owner), owner, i, old(logged), logged)
      ensures addr == 0 ==> Short(sb, old(used), used, old(Missing(i, bn)))
    {
      hide Bits, Slot, Owned, Grown, Allocated, Short, Full, Valid, MapOk;
      ValidOwned();
      var t := Table(i);
      if t == 0 {
        TableFirst(sb, old(store), old(ino), old(owner), i, bn);
        NoneShort(sb, used, old(Missing(i, bn)));
        return 0;
      }
      GrownSlots(sb, old(store), old(ino), old(owner), store, ino, owner, i, TABLE, bn);
      ghost var s1, ino1, o1, u1 := store, ino, owner, used;
      ghost var missing := old(Missing(i, bn));
      addr := Entry(i, bn);
      if addr == 0 {
        OneShort(sb, old(used), used, t, old(At(i, TABLE)) == 0);
      } else {
        GrownTwice(sb, old(store), old(ino), old(owner), s1, ino1, o1, store, ino, owner, i, bn);
      }
    }

    /** bmap: the block in slot bn of inode i, allocated if the slot is empty; 0 stands for balloc's
        panic, when there are fewer free blocks than it has to allocate. */
    method Bmap(i: nat, bn: nat) returns (addr: nat)
      requires Valid() && i < |ino| && bn < MAXFILE
      modifies this`store, this`ino, this`owner, this`used, this`logged, this`writes
      ensures addr != 0 ==>
        Valid() && Grown(sb, old(store), old(ino), old(owner), store, ino, owner, i, bn) && At(i, bn) == addr
      ensures old(At(i, bn)) != 0 ==>
        addr != 0 && store == old(store) && ino == old(ino) && owner == old(owner) && logged == old(logged)
      ensures addr != 0 && old(At(i, bn)) == 0 ==> store[addr] == ZeroBlock()
      ensures addr != 0 ==> Allocated(sb, old(owner), owner, i, old(logged), logged)
      ensures addr == 0 ==> Short(sb, old(used), used, old(Missing(i, bn)))
    {
      if bn < NDIRECT {
        hide Bits, Grown, Owned, Allocated;
        addr := BmapDirect(i, bn);
        assert addr == 0 ==> used - old(used) == {};
      } else {
        hide Bits, Grown, Slot, Allocated;
        addr := BmapIndirect(i, bn);
      }
    }

    lemma ShownNow(i: nat)
      requires ShowAll(store, ino, files) && i < |ino|
      ensures |files| == |ino| && Shows(store, ino[i], files[i])
    {
    }

    /** memmove into the mapped block and log_write. */
    method PutData(i: nat, o: nat, s: seq<byte>, addr: nat)
      requires Valid() && ShowAll(store, ino, files) && i < |ino| && o <= |files[i]|
      requires o % BSIZE + |s| <= BSIZE && |s| > 0 && o / BSIZE < TABLE && addr == At(i, o / BSIZE) != 0
      modifies this`store, this`logged, this`writes, this`files
      ensures Valid() && ShowAll(store, ino, files) && files == old(files)[i := Splice(old(files)[i], o, s)]
      ensures logged == old(logged) + {addr} && SameInodes(sb, old(store), store)
    {
      hide Bits, Slot, Overlay, Owned, Splice;
      WrittenShowAll(sb, store, ino, owner, files, i, o, s, addr);
      assert i < |files|;
      hide ShowAll;
      BitsAfterWrite(sb, store, used, addr, Overlay(store[addr], o % BSIZE, s));
      LogWrite(addr, Overlay(store[addr], o % BSIZE, s));
      files := files[i := Splice(files[i], o, s)];
    }

    /** bread, memmove, log_write of writei's loop body, for a piece s that lies in one block. */
    method WriteBlock(i: nat, o: nat, s: seq<byte>) returns (ok: bool, ghost a: nat)
      requires Valid() && ShowAll(store, ino, files) && i < |ino| && o <= |files[i]|
      requires o % BSIZE + |s| <= BSIZE && |s| > 0 && o / BSIZE < MAXFILE
      modifies this`store, this`ino, this`owner, this`used, this`logged, this`files, this`writes
      ensures ok ==> Valid() && ShowAll(store, ino, files) && files == old(files)[i := Splice(old(files)[i], o, s)]
      ensures ok ==> |ino| == |old(ino)| && ino == old(ino)[i := old(ino)[i].(addrs := ino[i].addrs)]
      ensures ok ==> SameInodes(sb, old(store), store)
      ensures ok ==> logged == old(logged) + {a} + Taken(sb, old(owner), owner, i) && FirstFit(sb, old(owner), owner)
      ensures ok ==> Extends(old(owner), owner) && a in owner && owner[a] == Place(i, o / BSIZE)
      ensures ok ==>
        forall b | b in owner && b !in old(owner) :: owner[b] == Place(i, o / BSIZE) || owner[b] == Place(i, TABLE)
      ensures ok ==> forall b | b in owner && owner[b] == Place(i, o / BSIZE) :: b == a
      ensures ok && old(At(i, o / BSIZE)) != 0 ==> ino == old(ino)
      ensures o < |old(files)[i]| || o % BSIZE != 0 ==> old(At(i, o / BSIZE)) != 0
      ensures !ok ==> Short(sb, old(used), used, old(Missing(i, o / BSIZE)))
    {
      hide Bits, Grown, Slot, Taken, FirstFit, Short, ShowAll, Owned, Splice, Extends, Valid, MapOk, Shows;
      ValidOwned();
      ShownNow(i);
      var addr;
      if o < |files[i]| || o % BSIZE != 0 {
        ShownMeansMapped(store, ino[i], files[i], o);
      }
      addr := Bmap(i, o / BSIZE);
      a, ok := addr, addr != 0;
      if ok {
        GrownBasics(sb, old(store), old(ino), old(owner), store, ino, owner, i, o / BSIZE);
        GrownExtends(sb, old(store), old(ino), old(owner), store, ino, owner, i, o / BSIZE);
        GrownFresh(sb, old(store), old(ino), old(owner), store, ino, owner, i, o / BSIZE);
        OneAt(sb, store, ino, owner, i, o / BSIZE, a);
        MappedShowAll(sb, old(store), old(ino), old(owner), store, ino, owner, i, o / BSIZE, files);
        PutData(i, o, s, addr);
      }
    }

    /** iupdate: the inode block gets the inode as it is in memory. */
    method Iupdate(i: nat, ghost ino0: seq<Inode>)
      requires Valid() && ShowAll(store, ino, files) && i < |ino|
      requires Synced(sb, store, ino0) && |ino0| == |ino| && forall j | 0 <= j < |ino| && j != i :: ino[j] == ino0[j]
      modifies this`store, this`logged, this`writes
      ensures Valid() && ShowAll(store, ino, files) && Synced(sb, store, ino) &&
              logged == old(logged) + {sb.InodeBlock(i)}
      ensures var b := sb.inodestart + i / 8;
              && b < |old(store)| && |ino[i].addrs| == 13 && store == old(store)[b := store[b]]
              && HoldsInode(old(store)[b], store[b], 16 * (i % 8), ino[i])
    {
      hide Recorded, Bits, Owned, ShowAll, DiskInode, PutWords, Encode, InodeOk, HoldsInode;
      InodeShape(i);
      sb.Regions(i, 0);
      var b := sb.InodeBlock(i);
      var data := PutWords(store[b], i % IPB * INODEWORDS, Encode(ino[i]));
      UpdateSyncs(i, ino0, b, data);
      EncodeIs(store[b], i % IPB * INODEWORDS, ino[i]);
      MetaWriteShowAll(sb, store, ino, owner, files, b, data);
      BitsAfterWrite(sb, store, used, b, data);
      LogWrite(b, data);
    }

    lemma InodeShape(i: nat)
      requires Valid() && i < |ino|
      ensures |ino[i].addrs| == NDIRECT + 1 && i < sb.ninodes
    {
    }

    lemma UpdateSyncs(i: nat, ino0: seq<Inode>, b: nat, data: Block)
      requires Valid() && i < |ino| && |ino[i].addrs| == NDIRECT + 1 && b == sb.InodeBlock(i) < |store|
      requires data == PutWords(store[b], i % IPB * INODEWORDS, Encode(ino[i]))
      requires Synced(sb, store, ino0) && |ino0| == |ino| && forall j | 0 <= j < |ino| && j != i :: ino[j] == ino0[j]
      ensures Synced(sb, store[b := data], ino)
    {
      hide Bits, Owned, DiskInode, PutWords, Encode, Recorded;
      assert store[b := data] == Updated(sb, store, i, ino[i]);
      forall j | 0 <= j < |ino| ensures DiskInode(sb, store[b := data], j) == ino[j] {
        UpdateRoundTrip(sb, store, i, ino[i], j);
      }
    }

    /** writei's loop invariant, tot bytes into src; the ghost arguments are the state it began in. */
    ghost predicate Progress(i: nat, src: seq<byte>, off: nat, tot: nat, files0: seq<seq<byte>>, ino0: seq<Inode>,
                             s0: seq<Block>,
                             l0: set<nat>, o0: map<nat, Place>)
      reads this
    {
      && Valid() && ShowAll(store, ino, files) && SameInodes(sb, s0, store)
      && Behind(i, src, off, tot, files0, ino0, files, ino)
      && Account(sb, l0, logged, o0, owner, i, off, tot)
    }

    /** What bmap has to allocate for offset o. */
    ghost predicate Needs(i: nat, o: nat, missing: nat)
      reads this
    {
      Owned(sb, store, ino, owner) && i < |ino| && o / BSIZE < MAXFILE && missing == Missing(i, o / BSIZE)
    }

    /** One round of writei's loop: the piece s, n bytes into a write at offset off. */
    method WriteStep(i: nat, off: nat, n: nat, ghost m: nat, s: seq<byte>, ghost s0: seq<Block>, ghost l0: set<nat>,
                     ghost o0: map<nat, Place>, ghost missing: nat)
      returns (ok: bool)
      requires Valid() && ShowAll(store, ino, files) && i < |ino| && off + n <= |files[i]| && IsNext(off, n, m) &&
               |s| == m
      requires SameInodes(sb, s0, store) && Account(sb, l0, logged, o0, owner, i, off, n) && Needs(i, off + n, missing)
      modifies this`store, this`ino, this`owner, this`used, this`logged, this`files, this`writes
      ensures ok ==>
        Valid() && ShowAll(store, ino, files) && files == old(files)[i := Splice(old(files)[i], off + n, s)]
      ensures ok ==> |ino| == |old(ino)| && ino == old(ino)[i := old(ino)[i].(addrs := ino[i].addrs)]
      ensures ok ==> SameInodes(sb, s0, store) && Account(sb, l0, logged, o0, owner, i, off, n + m)
      ensures ok && off + n < |old(files)[i]| ==> ino == old(ino)
      ensures !ok ==> Short(sb, old(used), used, missing)
    {
      var o := off + n;
      ghost var l1, o1 := logged, owner;
      ghost var a;
      hide Bits, Slot, Splice, ShowAll, Owned, Account, Taken, FirstFit, Spanned, Extends, Short;
      ok, a := WriteBlock(i, o, s);
      if ok {
        AccountMore(sb, l0, l1, o0, o1, i, off, n, |s|, o / BSIZE, a, logged, owner);
      }
    }

    /** If this round runs out of blocks, then fewer were free than the whole write may need. */
    lemma ShortSoFar(i: nat, off: nat, n: nat, m: nat, total: nat, l0: set<nat>, o0: map<nat, Place>)
      returns (missing: nat)
      requires Valid() && i < |ino| && Account(sb, l0, logged, o0, owner, i, off, n) &&
               (n == 0 || (off + n) % BSIZE == 0)
      requires IsNext(off, n, m) && n + m <= total && ((off + n) % BSIZE != 0 ==> At(i, (off + n) / BSIZE) != 0)
      ensures sb.Meta() + o0.Keys <= used && |used - (sb.Meta() + o0.Keys)| + missing <= Unmapped(off, total) + 1
      ensures Needs(i, off + n, missing)
    {
      missing := Missing(i, (off + n) / BSIZE);
      FreshSize(sb, store, ino, l0, logged, o0, owner, i, off, n);
      NoTableMissing(i, o0);
      NeedNow(off, n, m, total);
      assert used - (sb.Meta() + o0.Keys) <= Fresh(o0, owner);
      SubsetSize(used - (sb.Meta() + o0.Keys), Fresh(o0, owner));
      hide Slot, Fresh, TableOf, Spanned, Unmapped, Bits;
    }

    static lemma NeedNow(off: nat, n: nat, m: nat, total: nat)
      requires IsNext(off, n, m) && n + m <= total && (n == 0 || (off + n) % BSIZE == 0)
      ensures Unmapped(off, n) + (if (off + n) % BSIZE == 0 then 1 else 0) <= Unmapped(off, total)
    {
      UnmappedGrows(off, n + m, total);
    }

    lemma NoTableMissing(i: nat, o0: map<nat, Place>)
      requires Owned(sb, store, ino, owner) && i < |ino|
      ensures At(i, TABLE) == 0 ==> TableOf(owner, i) <= o0.Keys
    {
    }

    lemma ShortThen(used0: set<nat>, used1: set<nat>, used2: set<nat>, missing: nat, n: nat)
      requires used0 <= used1 && |used1 - used0| + missing <= n && Short(sb, used1, used2, missing)
      ensures Short(sb, used0, used2, n)
    {
      SubsetSize(used2 - used0, (used1 - used0) + (used2 - used1));
    }

    /** The round at byte tot. */
    method WriteNext(i: nat, src: seq<byte>, off: nat, tot: nat, ghost files0: seq<seq<byte>>, ghost ino0: seq<Inode>,
                     ghost s0: seq<Block>,
                     ghost l0: set<nat>, ghost o0: map<nat, Place>)
      returns (ok: bool, m: nat)
      requires Progress(i, src, off, tot, files0, ino0, s0, l0, o0) && tot < |src| && off + |src| <= MAXFILE * BSIZE
      modifies this`store, this`ino, this`owner, this`used, this`logged, this`files, this`writes
      ensures ok ==> 0 < m <= |src| - tot && Progress(i, src, off, tot + m, files0, ino0, s0, l0, o0)
      ensures !ok ==> Short(sb, sb.Meta() + o0.Keys, used, Unmapped(off, |src|) + 1)
    {
      hide *;
      m := Piece(off + tot, |src| - tot);
      ghost var u1, f1, ino1 := used, files, ino;
      ghost var missing := NextFits(i, src, off, tot, m, files0, ino0, s0, l0, o0);
      var s := src[tot..tot + m];
      ok := WriteStep(i, off, tot, m, s, s0, l0, o0, missing);
      if ok {
        BehindLess(i, src, off, tot, m, files0, ino0, f1, ino1, files, ino);
        Advanced(i, src, off, tot + m, files0, ino0, s0, l0, o0);
      } else {
        ShortThen(sb.Meta() + o0.Keys, u1, used, missing, Unmapped(off, |src|) + 1);
      }
    }

    /** The next piece lies in one block; `missing` is what bmap has to allocate for it. */
    lemma NextFits(i: nat, src: seq<byte>, off: nat, tot: nat, m: nat, files0: seq<seq<byte>>, ino0: seq<Inode>,
                   s0: seq<Block>, l0: set<nat>, o0: map<nat, Place>)
      returns (missing: nat)
      requires Progress(i, src, off, tot, files0, ino0, s0, l0, o0) && tot < |src| && off + |src| <= MAXFILE * BSIZE
      requires m == Piece(off + tot, |src| - tot)
      ensures Valid() && ShowAll(store, ino, files) && i < |ino| == |files| && off + tot <= |files[i]|
      ensures 0 < m <= |src| - tot && IsNext(off, tot, m) && Needs(i, off + tot, missing)
      ensures SameInodes(sb, s0, store) && Account(sb, l0, logged, o0, owner, i, off, tot)
      ensures Behind(i, src, off, tot, files0, ino0, files, ino)
      ensures sb.Meta() + o0.Keys <= used && |used - (sb.Meta() + o0.Keys)| + missing <= Unmapped(off, |src|) + 1
    {
      hide Valid, MapOk, Bits, Progress, Behind, Owned, ShowAll, Shows, Account, Spanned, Unmapped, SameInodes, Splice,
        Copied, Missing, Piece, Slot;
      PieceFits(i, src, off, tot, files0, ino0, s0, l0, o0);
      NextPiece(off, tot, |src|);
      missing := ShortSoFar(i, off, tot, m, |src|, l0, o0);
    }

    lemma PieceFits(i: nat, src: seq<byte>, off: nat, tot: nat, files0: seq<seq<byte>>, ino0: seq<Inode>,
                    s0: seq<Block>, l0: set<nat>, o0: map<nat, Place>)
      requires Progress(i, src, off, tot, files0, ino0, s0, l0, o0) && tot < |src| && off + |src| <= MAXFILE * BSIZE
      ensures Valid() && ShowAll(store, ino, files) && i < |ino| == |files| && off + tot <= |files[i]| &&
              Owned(sb, store, ino, owner)
      ensures SameInodes(sb, s0, store) && Account(sb, l0, logged, o0, owner, i, off, tot) &&
              (tot == 0 || (off + tot) % BSIZE == 0)
      ensures (off + tot) / BSIZE < MAXFILE && ((off + tot) % BSIZE != 0 ==> At(i, (off + tot) / BSIZE) != 0)
      ensures Behind(i, src, off, tot, files0, ino0, files, ino)
    {
      CopiedMore(files0, i, off, src, tot, 0, files);
      if (off + tot) % BSIZE != 0 {
        ShownMeansMapped(store, ino[i], files[i], off + tot);
      }
      hide Owned, Shows, Bits, Slot, Splice, SameInodes, Account;
    }

    lemma Advanced(i: nat, src: seq<byte>, off: nat, tot: nat, files0: seq<seq<byte>>, ino0: seq<Inode>,
                   s0: seq<Block>, l0: set<nat>, o0: map<nat, Place>)
      requires Valid() && ShowAll(store, ino, files) && SameInodes(sb, s0, store) &&
               Behind(i, src, off, tot, files0, ino0, files, ino)
      requires Account(sb, l0, logged, o0, owner, i, off, tot)
      ensures Progress(i, src, off, tot, files0, ino0, s0, l0, o0)
    {
    }

    /** writei's loop. */
    method WriteLoop(i: nat, src: seq<byte>, off: nat) returns (ok: bool, o: nat)
      requires Valid() && ShowAll(store, ino, files) && i < |ino| && off <= |files[i]| && off + |src| <= MAXFILE * BSIZE
      modifies this`store, this`ino, this`owner, this`used, this`logged, this`files, this`writes
      ensures ok ==>
        o == off + |src| && Progress(i, src, off, |src|, old(files), old(ino), old(store), old(logged), old(owner))
      ensures !ok ==> Short(sb, old(used), used, Unmapped(off, |src|) + 1)
    {
      hide *;
      var tot := 0;
      o, ok := off, true;
      ghost var files0, s0, ino0, l0, o0 := files, store, ino, logged, owner;
      Begins(i, src, off);
      while tot < |src|
        invariant tot <= |src| && o == off + tot && Progress(i, src, off, tot, files0, ino0, s0, l0, o0)
      {
        var m;
        ok, m := WriteNext(i, src, off, tot, files0, ino0, s0, l0, o0);
        if !ok {
          return;
        }
        tot, o := tot + m, o + m;
      }
    }

    lemma Begins(i: nat, src: seq<byte>, off: nat)
      requires Valid() && ShowAll(store, ino, files) && i < |ino| && off <= |files[i]|
      ensures Progress(i, src, off, 0, files, ino, store, logged, owner) && used == sb.Meta() + owner.Keys
    {
      hide Bits, Slot, Owned, Account, Shows, ShowAll, Splice;
      ShownNow(i);
      SpliceNothing(files[i], off);
      if off % BSIZE != 0 {
        ShownMeansMapped(store, ino[i], files[i], off);
        OneAt(sb, store, ino, owner, i, off / BSIZE, At(i, off / BSIZE));
      }
      AccountBegins(sb, logged, owner, i, off);
    }

    /** At rest: every file is shown by its inode, as long as the inode says, and every inode in
        memory is as it is on disk. */
    ghost predicate Ok()
      reads this
    {
      Valid() && ShowAll(store, ino, files) && Synced(sb, store, ino) && Sizes(ino, files)
    }

    /** writei's tail: the file has grown to o bytes. */
    method Extend(i: nat, o: uint32, ghost ino0: seq<Inode>)
      requires Valid() && ShowAll(store, ino, files) && i < |ino| && o <= MAXFILE * BSIZE
      requires Synced(sb, store, ino0) && |ino0| == |ino| && forall j | 0 <= j < |ino| && j != i :: ino[j] == ino0[j]
      modifies this`store, this`ino, this`logged, this`writes
      ensures Valid() && ShowAll(store, ino, files) && Synced(sb, store, ino) &&
              logged == old(logged) + {sb.InodeBlock(i)}
      ensures ino == old(ino)[i := old(ino)[i].(size := o)]
    {
      HeaderKeeps(sb, store, ino, owner, files, i, ino[i].(size := o));
      hide Bits, Owned, ShowAll, DiskInode;
      ino := ino[i := ino[i].(size := o)];
      Iupdate(i, ino0);
    }

    /** At rest the disk can be mounted again, with the same files. */
    lemma Remountable()
      requires Ok()
      ensures Mountable(sb, store, |ino|, owner, files)
    {
      hide Owned, Bits, ShowAll, Sizes, DiskInode;
      assert DiskInodes(sb, store, |ino|) == ino;
    }

    lemma OkRecorded()
      requires Ok()
      ensures store == Replay(base, writes) && logged == Touched(writes)
    {
      hide Owned, Bits, ShowAll, Sizes, Synced;
    }

    lemma OkIs()
      ensures Ok() <==> Valid() && ShowAll(store, ino, files) && Synced(sb, store, ino) && Sizes(ino, files)
      ensures Ok() ==> |store| == sb.size && |files| == |ino| && used == sb.Meta() + owner.Keys
    {
    }

    /** After writei's loop; inode0 is the inode as the loop found it. */
    lemma Looped(i: nat, src: seq<byte>, off: nat, files0: seq<seq<byte>>, ino0: seq<Inode>, s0: seq<Block>,
                 l0: set<nat>, o0: map<nat, Place>)
      requires Progress(i, src, off, |src|, files0, ino0, s0, l0, o0) && Synced(sb, s0, ino0) && Sizes(ino0, files0)
      requires off + |src| <= MAXFILE * BSIZE
      ensures Valid() && ShowAll(store, ino, files) && Synced(sb, store, ino0) &&
              i < |ino| == |ino0| == |files| == |files0|
      ensures off <= |files0[i]| && files == files0[i := Splice(files0[i], off, src)]
      ensures ino == ino0[i := ino0[i].(addrs := ino[i].addrs)] && (off + |src| <= |files0[i]| ==> ino == ino0)
      ensures Extends(o0, owner) && logged == l0 + WrittenBlocks(sb, o0, owner, i, off, |src|)
      ensures FirstFit(sb, o0, owner) && Fills(o0, owner, i, off, |src|)
      ensures forall inode: set<nat> | |inode| <= 1 :: |logged + inode - l0| <= WriteCost(sb, off, |src|)
    {
      SpanFits(off, |src|);
      CopiedAll(files0, i, off, src, files);
      SyncedFrame(sb, s0, store, ino0);
      hide ShowAll, DiskInode, Bits, Slot, Spanned, WrittenBlocks, WriteCost, Splice;
      forall inode: set<nat> | |inode| <= 1 ensures |logged + inode - l0| <= WriteCost(sb, off, |src|) {
        WriteCosts(sb, store, ino, l0, logged, o0, owner, i, off, |src|, inode);
      }
    }

    lemma Rests(i: nat, o: nat, files0: seq<seq<byte>>, ino0: seq<Inode>)
      requires Valid() && ShowAll(store, ino, files) && Synced(sb, store, ino) && Sizes(ino0, files0)
      requires i < |ino| == |ino0| == |files| == |files0| && files == files0[i := files[i]] && ino == ino0[i := ino[i]]
      requires ino[i].size == |files[i]|
      ensures Ok()
    {
      hide Valid, ShowAll, Synced;
    }

    /** writei's loop and what follows it. */
    method WriteAll(i: nat, src: seq<byte>, off: uint32) returns (r: IoResult)
      requires Ok() && i < |ino| == |files| && off <= |files[i]| && off + |src| <= MAXFILE * BSIZE &&
               |src| < 0x1_0000_0000
      modifies this`store, this`ino, this`owner, this`used, this`logged, this`files, this`writes
      ensures !r.Failed? && (r.Count? ==>
        Ok() && r.n == |src| && files == old(files)[i := Splice(old(files)[i], off, src)])
      ensures r.Count? ==>
        |ino| == |old(ino)| && ino == old(ino)[i := old(ino)[i].(addrs := ino[i].addrs, size := ino[i].size)]
      ensures r.Count? ==>
        Extends(old(owner), owner) &&
        logged == old(logged) + WrittenBlocks(sb, old(owner), owner, i, off, |src|) +
        if |files[i]| > |old(files)[i]| then {sb.InodeBlock(i)} else {}
      ensures r.Count? ==> FirstFit(sb, old(owner), owner) && Fills(old(owner), owner, i, off, |src|)
      ensures r.Count? ==> |logged - old(logged)| <= WriteCost(sb, off, |src|)
      ensures r.Panicked? ==> Full(sb, used) && |Free(sb, old(used))| <= Unmapped(off, |src|)
    {
      hide *;
      OkIs();
      ghost var f0, ino0, l0 := files, ino, logged;
      SizeIs(i);
      var ok, o := WriteLoop(i, src, off);
      if !ok {
        ShortOfFree(sb, old(used), used, Unmapped(off, |src|) + 1);
        return Panicked;
      }
      Looped(i, src, off, f0, ino0, old(store), l0, old(owner));
      ghost var inode := {};
      if |src| > 0 && o > ino[i].size {
        inode := {sb.InodeBlock(i)};
        assert o <= MAXFILE * BSIZE < 0x1_0000_0000 by {
          MaxSize();
        }
        Extend(i, o, ino0);
      }
      SpliceSize(f0[i], off, src);
      Rests(i, o, f0, ino0);
      assert l0 + WrittenBlocks(sb, old(owner), owner, i, off, |src|) + {} == l0 + WrittenBlocks(sb, old(owner), owner,
        i, off, |src|);
      assert |inode| <= 1;
      r := Count(|src|);
    }

    static lemma MaxSize()
      ensures MAXFILE * BSIZE < 0x1_0000_0000
    {
    }

    lemma SizeIs(i: nat)
      requires Ok() && i < |ino|
      ensures |files| == |ino| && ino[i].size == |files[i]|
    {
    }

    /** writei. The blocks it logs are, besides the inode's if the file grows: those touched, and for
        each that it allocates a block of the free map, and the table if that has a new entry. It
        panics only if fewer blocks are free than it may have to allocate. */
    method Writei(i: nat, src: seq<byte>, off: uint32) returns (r: IoResult)
      requires Ok() && i < |ino| && !ino[i].Device() && |src| < 0x1_0000_0000
      modifies this`store, this`ino, this`owner, this`used, this`logged, this`files, this`writes
      ensures r.Failed? <==> off > |old(files)[i]| || off + |src| > MAXFILE * BSIZE
      ensures r.Failed? ==> Ok() && store == old(store) && ino == old(ino) && files == old(files)
      ensures r.Failed? ==> owner == old(owner) && logged == old(logged)
      ensures r.Count? ==> Ok() && r.n == |src| && files == old(files)[i := Splice(old(files)[i], off, src)]
      ensures r.Count? ==>
        |ino| == |old(ino)| && ino == old(ino)[i := old(ino)[i].(addrs := ino[i].addrs, size := ino[i].size)]
      ensures r.Count? ==>
        Extends(old(owner), owner) &&
        logged == old(logged) + WrittenBlocks(sb, old(owner), owner, i, off, |src|) +
        if |files[i]| > |old(files)[i]| then {sb.InodeBlock(i)} else {}
      ensures r.Count? ==> FirstFit(sb, old(owner), owner) && Fills(old(owner), owner, i, off, |src|)
      ensures r.Count? ==> |logged - old(logged)| <= WriteCost(sb, off, |src|)
      ensures r.Panicked? ==> Full(sb, used) && |Free(sb, old(used))| <= Unmapped(off, |src|)
    {
      var n := |src|;
      if off > ino[i].size || (off + n) % 0x1_0000_0000 < off {
        return Failed;
      }
      if (off + n) % 0x1_0000_0000 > MAXFILE * BSIZE {
        return Failed;
      }
      hide *;
      r := WriteAll(i, src, off);
    }

    /** One round of readi's loop. */
    method ReadBlock(i: nat, o: nat, m: nat) returns (data: seq<byte>)
      requires Valid() && ShowAll(store, ino, files) && i < |ino| && o + m <= |files[i]| && 0 < m &&
               o % BSIZE + m <= BSIZE
      modifies this`store, this`ino, this`owner, this`used, this`logged, this`files, this`writes
      ensures Valid() && store == old(store) && ino == old(ino) && files == old(files) && logged == old(logged)
      ensures IsSlice(files[i], o, o + m, data)
    {
      ReadsShown(store, ino[i], files[i], o, m);
      assert Shows(store, ino[i], files[i]);
      hide Bits, Slot, Grown, Shows, ShowAll;
      var a := Bmap(i, o / BSIZE);
      data := store[a][o % BSIZE..o % BSIZE + m];
    }

    /** readi's loop. */
    method ReadLoop(i: nat, off: nat, n: nat) returns (dst: seq<byte>)
      requires Valid() && ShowAll(store, ino, files) && i < |ino| && off + n <= |files[i]|
      modifies this`store, this`ino, this`owner, this`used, this`logged, this`files, this`writes
      ensures Valid() && store == old(store) && ino == old(ino) && files == old(files) && logged == old(logged)
      ensures IsSlice(files[i], off, off + n, dst)
    {
      dst := [];
      var tot, o := 0, off;
      ghost var f := files;
      assert i < |f| && IsSlice(f[i], off, o, dst);
      hide Valid, ShowAll, IsSlice, Piece;
      while tot < n
        invariant tot <= n && o == off + tot && Valid()
        invariant store == old(store) && ino == old(ino) && files == f && logged == old(logged)
        invariant IsSlice(f[i], off, o, dst)
      {
        var m := Piece(o, n - tot);
        var data := ReadBlock(i, o, m);
        JoinSlices(f[i], off, o, o + m, dst, data);
        dst := dst + data;
        tot, o := tot + m, o + m;
      }
    }

    /** readi: the bytes of the file from off on, and the file system as it was. It cannot run
        out of blocks, because bmap finds every block it asks for. */
    method Readi(i: nat, off: uint32, n: uint32) returns (r: IoResult, dst: seq<byte>)
      requires Ok() && i < |ino| && !ino[i].Device()
      modifies this`store, this`ino, this`owner, this`used, this`logged, this`files, this`writes
      ensures Ok() && store == old(store) && ino == old(ino) && files == old(files) && logged == old(logged)
      ensures !r.Panicked? && (r.Failed? <==> off > |files[i]| || off + n >= 0x1_0000_0000)
      ensures r.Count? ==>
        r.n == (if off + n > |files[i]| then |files[i]| - off else n) && dst == files[i][off..off + r.n]
    {
      hide Valid, ShowAll, Synced;
      if off > ino[i].size || (off + n) % 0x1_0000_0000 < off {
        return Failed, [];
      }
      var n' := if off + n > ino[i].size then ino[i].size - off else n;
      r := Count(n');
      dst := ReadLoop(i, off, n');
    }

    /** One step of itrunc: free the block that stood in slot k, if any. That the block is marked
        used, so that bfree cannot panic, is proved at the call. */
    method FreeSlot(i: nat, k: nat, b: nat, ghost s0: seq<Block>, ghost ino0: seq<Inode>)
      requires MapOk() && Owned(sb, s0, ino0, owner) && i < |ino0| && k <= TABLE && b == Slot(s0, ino0[i], k)
      requires used == sb.Meta() + (owner.Keys - Below(owner, i, k))
      modifies this`store, this`used, this`logged, this`writes
      ensures MapOk() && used == sb.Meta() + (owner.Keys - Below(owner, i, k + 1))
      ensures OnlyMap(sb, old(store), store) && logged <= old(logged) + sb.Map()
    {
      BelowNext(sb, s0, ino0, owner, i, k);
      hide Bits, Slot, Owned, Below;
      if b != 0 {
        sb.Regions(0, b);
        assert b !in sb.Meta();
        Bfree(b);
      }
    }

    lemma FreeBegins(i: nat)
      requires Valid() && i < |ino|
      ensures WithCleared(ino, i, 0) == ino && used == sb.Meta() + (owner.Keys - Below(owner, i, 0)) &&
              OnlyMap(sb, store, store)
      ensures MapOk() && Owned(sb, store, ino, owner) && |ino[i].addrs| == NDIRECT + 1 &&
              ino[i].addrs[NDIRECT] < |store|
    {
      assert Cleared(ino[i].addrs, 0) == ino[i].addrs;
      assert owner.Keys - Below(owner, i, 0) == owner.Keys;
    }

    /** itrunc's loop over the direct blocks. */
    method FreeDirect(i: nat)
      requires Valid() && i < |ino|
      modifies this`store, this`ino, this`used, this`logged, this`writes
      ensures MapOk() && used == sb.Meta() + (owner.Keys - Below(owner, i, NDIRECT)) && OnlyMap(sb, old(store), store)
      ensures logged <= old(logged) + sb.Map() && ino == WithCleared(old(ino), i, NDIRECT)
    {
      hide Bits, Below, WithCleared, Owned, Slot, OnlyMap, Valid;
      var k := 0;
      ghost var s0, ino0, l0 := store, ino, logged;
      FreeBegins(i);
      while k < NDIRECT
        invariant k <= NDIRECT && MapOk() && used == sb.Meta() + (owner.Keys - Below(owner, i, k)) &&
                  OnlyMap(sb, s0, store)
        invariant logged <= l0 + sb.Map() && ino == WithCleared(ino0, i, k)
      {
        ClearedNext(ino0, i, k);
        DirectSlot(s0, ino0[i], k);
        var b := ino[i].addrs[k];
        ghost var s1 := store;
        FreeSlot(i, k, b, s0, ino0);
        OnlyMapTrans(sb, s0, s1, store);
        if b != 0 {
          ino := ino[i := ino[i].(addrs := ino[i].addrs[k := 0])];
        }
        k := k + 1;
      }
    }

    /** itrunc's second part: the blocks in the table, then the table. */
    method FreeIndirect(i: nat, ghost s0: seq<Block>, ghost ino0: seq<Inode>)
      requires MapOk() && Owned(sb, s0, ino0, owner) && i < |ino0| == |ino| && OnlyMap(sb, s0, store)
      requires |ino[i].addrs| == NDIRECT + 1 && ino[i].addrs[NDIRECT] == ino0[i].addrs[NDIRECT]
      requires used == sb.Meta() + (owner.Keys - Below(owner, i, NDIRECT))
      modifies this`store, this`ino, this`used, this`logged, this`writes
      ensures MapOk() && used == sb.Meta() + (owner.Keys - Below(owner, i, TABLE + 1)) && OnlyMap(sb, s0, store)
      ensures logged <= old(logged) + sb.Map() &&
              ino == old(ino)[i := old(ino)[i].(addrs := old(ino)[i].addrs[NDIRECT := 0])]
    {
      var t := ino[i].addrs[NDIRECT];
      ghost var l0 := logged;
      hide Bits, Below, Slot;
      if t != 0 {
        TableIsData(sb, s0, ino0, owner, i);
        var a := store[t];
        var j := 0;
        while j < NINDIRECT
          invariant j <= NINDIRECT && MapOk() && used == sb.Meta() + (owner.Keys - Below(owner, i, NDIRECT + j)) &&
                    OnlyMap(sb, s0, store)
          invariant logged <= l0 + sb.Map() && ino == old(ino)
        {
          SlotOfTable(s0, ino0[i], j);
          FreeSlot(i, NDIRECT + j, WordAt(a, j), s0, ino0);
          j := j + 1;
        }
        SlotOfTable(s0, ino0[i], 0);
        FreeSlot(i, TABLE, t, s0, ino0);
        ino := ino[i := ino[i].(addrs := ino[i].addrs[NDIRECT := 0])];
      } else {
        BelowNoTable(sb, s0, ino0, owner, i);
        assert ino[i].addrs[NDIRECT := 0] == ino[i].addrs;
      }
    }

    /** All of itrunc's calls of bfree. */
    method FreeBlocks(i: nat)
      requires Valid() && i < |ino|
      modifies this`store, this`ino, this`used, this`logged, this`writes
      ensures MapOk() && used == sb.Meta() + (owner.Keys - Below(owner, i, TABLE + 1)) && OnlyMap(sb, old(store), store)
      ensures logged <= old(logged) + sb.Map()
      ensures |ino| == |old(ino)| && ino == old(ino)[i := old(ino)[i].(addrs := seq(NDIRECT + 1, _ => 0))]
    {
      hide Slot, Bits, Below, OnlyMap, Owned, Recorded;
      ghost var s0, ino0 := store, ino;
      FreeBegins(i);
      FreeDirect(i);
      FreeIndirect(i, s0, ino0);
      assert ino[i].addrs == seq(NDIRECT + 1, _ => 0);
    }

    /** itrunc: frees exactly the blocks inode i owned; its file is empty and every other file as
        it was. It logs the inode's block and blocks of the free map. */
    method Itrunc(i: nat)
      requires Ok() && i < |ino|
      modifies this`store, this`ino, this`owner, this`used, this`logged, this`files, this`writes
      ensures Ok() && files == old(files)[i := []] && ino == old(ino)[i := ino[i]] &&
              ino[i].head0 == old(ino)[i].head0 && ino[i].head1 == old(ino)[i].head1
      ensures used == old(used) - (set b | b in old(owner) && old(owner)[b].i == i)
      ensures owner == Without(old(owner), i) && logged <= old(logged) + sb.Map() + {sb.InodeBlock(i)}
    {
      hide Slot, DiskInode, Bits, Below, Without, ShowAll, Synced, OnlyMap, Owned, Recorded, InodeOk;
      ghost var s0, ino0 := store, ino;
      FreeBlocks(i);
      var ip := ino[i].(size := 0);
      Truncated(sb, s0, ino0, owner, files, store, i, ip);
      assert ino[i := ip] == ino0[i := ip];
      ino := ino[i := ip];
      owner := Without(owner, i);
      files := files[i := []];
      Iupdate(i, ino0);
    }
  }
}
