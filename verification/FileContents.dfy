/** A file as the byte sequence its readers see, and what block writes do to it. */
module FileContents {
  import opened Blocks
  import opened FileLayout

  /** Inode ip has a block for every byte of c, and the bytes are c: no holes. */
  ghost predicate Shows(store: seq<Block>, ip: Inode, c: seq<byte>) {
    && |ip.addrs| == NDIRECT + 1 && ip.addrs[NDIRECT] < |store| && |c| <= MAXFILE * BSIZE
    && forall x: nat | x < |c| ::
         var b := Slot(store, ip, x / BSIZE);
         b != 0 && b < |store| && store[b][x % BSIZE] == c[x]
  }

  /** c with s written at offset o, extended if s reaches past its end. */
  function Splice(c: seq<byte>, o: nat, s: seq<byte>): (r: seq<byte>)
    requires o <= |c|
    ensures |r| == if o + |s| < |c| then |c| else o + |s|
    ensures forall x: nat | x < |r| :: r[x] == if o <= x < o + |s| then s[x - o] else c[x]
  {
    c[..o] + s + if o + |s| < |c| then c[o + |s|..] else []
  }

  lemma SpliceNothing(c: seq<byte>, o: nat)
    requires o <= |c|
    ensures Splice(c, o, []) == c
  {
  }

  /** Writing piece by piece is writing at once. */
  lemma SpliceTwice(c: seq<byte>, o: nat, s: seq<byte>, t: seq<byte>)
    requires o <= |c|
    ensures Splice(Splice(c, o, s), o + |s|, t) == Splice(c, o, s + t)
  {
  }

  /** A byte of a data slot lies in a block with that owner. */
  lemma ShownSlot(sb: Super, store: seq<Block>, ino: seq<Inode>, owner: map<nat, Place>, j: nat, c: seq<byte>, x: nat)
    requires Owned(sb, store, ino, owner) && j < |ino| && Shows(store, ino[j], c) && x < |c|
    ensures x / BSIZE < TABLE
    ensures var b := Slot(store, ino[j], x / BSIZE); b in owner && owner[b] == Place(j, x / BSIZE)
  {
    hide Slot;
  }

  /** bmap changes the contents of no file. */
  lemma GrownShows(sb: Super, s0: seq<Block>, ino0: seq<Inode>, o0: map<nat, Place>, s1: seq<Block>, ino1: seq<Inode>,
                   o1: map<nat, Place>,
                   i: nat, bn: nat, j: nat, c: seq<byte>)
    requires Grown(sb, s0, ino0, o0, s1, ino1, o1, i, bn) && j < |ino0| && Shows(s0, ino0[j], c)
    ensures Shows(s1, ino1[j], c)
  {
    hide Slot;
    forall x: nat | x < |c|
      ensures var b := Slot(s1, ino1[j], x / BSIZE); b != 0 && b < |s1| && s1[b][x % BSIZE] == c[x]
    {
      ShownSlot(sb, s0, ino0, o0, j, c, x);
    }
  }

  /** The contents of a block after m bytes of s are copied in at p. */
  function Overlay(data: Block, p: nat, s: seq<byte>): Block
    requires p + |s| <= BSIZE
  {
    data[..p] + s + data[p + |s|..]
  }

  /** Writing to the block in slot bn of inode i leaves every other file as it was. */
  lemma WriteShowsOthers(sb: Super, store: seq<Block>, ino: seq<Inode>, owner: map<nat, Place>, i: nat, bn: nat,
                         data: Block, j: nat, c: seq<byte>)
    requires Owned(sb, store, ino, owner) && i < |ino| && bn < TABLE && Slot(store, ino[i], bn) != 0
    requires j < |ino| && j != i && Shows(store, ino[j], c)
    ensures Slot(store, ino[i], bn) < |store| && Shows(store[Slot(store, ino[i], bn) := data], ino[j], c)
  {
    var a := Slot(store, ino[i], bn);
    var s1 := store[a := data];
    SameTables(sb, store, s1, ino, owner);
    forall x: nat | x < |c|
      ensures var b := Slot(s1, ino[j], x / BSIZE); b != 0 && b < |s1| && s1[b][x % BSIZE] == c[x]
    {
      ShownSlot(sb, store, ino, owner, j, c, x);
    }
  }

  /** Writing s at offset o of file i, within one block that has just been mapped: the file
      shows the spliced contents. A block that was fresh starts at o. */
  lemma WriteShowsSplice(sb: Super, store: seq<Block>, ino: seq<Inode>, owner: map<nat, Place>, i: nat, o: nat,
                         s: seq<byte>, c: seq<byte>)
    requires Owned(sb, store, ino, owner) && i < |ino| && Shows(store, ino[i], c) && o <= |c|
    requires o % BSIZE + |s| <= BSIZE && |s| > 0 && o / BSIZE < TABLE && Slot(store, ino[i], o / BSIZE) != 0
    ensures var a := Slot(store, ino[i], o / BSIZE);
      a < |store| && Shows(store[a := Overlay(store[a], o % BSIZE, s)], ino[i], Splice(c, o, s))
  {
    var a := Slot(store, ino[i], o / BSIZE);
    var s1 := store[a := Overlay(store[a], o % BSIZE, s)];
    SameTables(sb, store, s1, ino, owner);
    hide Slot, Owned;
    var r := Splice(c, o, s);
    forall x: nat | x < |r|
      ensures var b := Slot(s1, ino[i], x / BSIZE); b != 0 && b < |s1| && s1[b][x % BSIZE] == r[x]
    {
      if x / BSIZE == o / BSIZE {
        assert x - o == x % BSIZE - o % BSIZE;
      } else {
        assert x < |c| && r[x] == c[x];
        ShownSlot(sb, store, ino, owner, i, c, x);
        SlotsDistinct(sb, store, ino, owner, i, x / BSIZE, i, o / BSIZE);
      }
    }
  }

  /** Every inode shows its file. */
  ghost predicate ShowAll(store: seq<Block>, ino: seq<Inode>, files: seq<seq<byte>>) {
    |files| == |ino| && forall j | 0 <= j < |ino| :: Shows(store, ino[j], files[j])
  }

  /** The files are what the data blocks and the tables among them say. */
  lemma SameDataShows(sb: Super, s0: seq<Block>, s1: seq<Block>, ino: seq<Inode>, owner: map<nat, Place>,
                      files: seq<seq<byte>>)
    requires Owned(sb, s0, ino, owner) && ShowAll(s0, ino, files) && |s1| == |s0|
    requires forall b: nat | sb.datastart <= b < sb.size :: s1[b] == s0[b]
    requires forall i, k | 0 <= i < |ino| && 0 <= k <= TABLE :: Slot(s1, ino[i], k) == Slot(s0, ino[i], k)
    ensures ShowAll(s1, ino, files)
  {
    forall i | 0 <= i < |ino| ensures Shows(s1, ino[i], files[i]) {
      assert Shows(s0, ino[i], files[i]);
      forall x: nat | x < |files[i]|
        ensures var b := Slot(s1, ino[i], x / BSIZE); b != 0 && b < |s1| && s1[b][x % BSIZE] == files[i][x]
      {
        ShownSlot(sb, s0, ino, owner, i, files[i], x);
        hide Slot;
      }
    }
  }

  lemma MappedShowAll(sb: Super, s0: seq<Block>, ino0: seq<Inode>, o0: map<nat, Place>, s1: seq<Block>,
                      ino1: seq<Inode>, o1: map<nat, Place>,
                      i: nat, bn: nat, files: seq<seq<byte>>)
    requires Grown(sb, s0, ino0, o0, s1, ino1, o1, i, bn) && ShowAll(s0, ino0, files)
    ensures ShowAll(s1, ino1, files)
  {
    forall j | 0 <= j < |ino0| ensures Shows(s1, ino1[j], files[j]) {
      GrownShows(sb, s0, ino0, o0, s1, ino1, o1, i, bn, j, files[j]);
    }
  }

  lemma WrittenShowAll(sb: Super, store: seq<Block>, ino: seq<Inode>, owner: map<nat, Place>, files: seq<seq<byte>>,
                       i: nat, o: nat, s: seq<byte>, addr: nat)
    requires Owned(sb, store, ino, owner) && ShowAll(store, ino, files) && i < |ino| && o <= |files[i]|
    requires o % BSIZE + |s| <= BSIZE && |s| > 0 && o / BSIZE < TABLE && addr == Slot(store, ino[i], o / BSIZE) != 0
    ensures sb.datastart <= addr < sb.size
    ensures var s1 := store[addr := Overlay(store[addr], o % BSIZE, s)];
            Owned(sb, s1, ino, owner) && ShowAll(s1, ino, files[i := Splice(files[i], o, s)])
  {
    assert addr in owner && owner[addr] == Place(i, o / BSIZE) by {
      hide Slot;
    }
    var s1, f1 := store[addr := Overlay(store[addr], o % BSIZE, s)], files[i := Splice(files[i], o, s)];
    SameTables(sb, store, s1, ino, owner);
    hide Slot;
    forall j | 0 <= j < |ino| ensures Shows(s1, ino[j], f1[j]) {
      if j == i {
        WriteShowsSplice(sb, store, ino, owner, i, o, s, files[i]);
      } else {
        WriteShowsOthers(sb, store, ino, owner, i, o / BSIZE, Overlay(store[addr], o % BSIZE, s), j, files[j]);
      }
    }
  }

  /** A shown byte has its block. */
  lemma ShownMeansMapped(store: seq<Block>, ip: Inode, c: seq<byte>, o: nat)
    requires Shows(store, ip, c) && o <= |c| && (o < |c| || o % BSIZE != 0) && o / BSIZE < TABLE
    ensures Slot(store, ip, o / BSIZE) != 0
  {
    hide Slot;
    if o == |c| {
      assert (o - 1) / BSIZE == o / BSIZE;
    }
  }

  /** What a reader of part of one block gets. */
  lemma ReadsShown(store: seq<Block>, ip: Inode, c: seq<byte>, o: nat, m: nat)
    requires Shows(store, ip, c) && 0 < m && o + m <= |c| && o % BSIZE + m <= BSIZE && o / BSIZE < TABLE
    ensures var b := Slot(store, ip, o / BSIZE); 0 < b < |store| && store[b][o % BSIZE..o % BSIZE + m] == c[o..o + m]
  {
    hide Slot;
    var b := Slot(store, ip, o / BSIZE);
    assert 0 < b < |store| by {
      assert c[o] == store[b][o % BSIZE];
    }
    var d := store[b][o % BSIZE..o % BSIZE + m];
    forall k | 0 <= k < m ensures d[k] == c[o..o + m][k] {
      assert (o + k) / BSIZE == o / BSIZE && (o + k) % BSIZE == o % BSIZE + k;
    }
  }

  /** Writing outside the data region changes neither ownership nor contents. */
  lemma MetaWriteShowAll(sb: Super, store: seq<Block>, ino: seq<Inode>, owner: map<nat, Place>, files: seq<seq<byte>>,
                         b: nat, data: Block)
    requires Owned(sb, store, ino, owner) && ShowAll(store, ino, files) && b < sb.datastart
    ensures Owned(sb, store[b := data], ino, owner) && ShowAll(store[b := data], ino, files)
  {
    var s1 := store[b := data];
    SameTables(sb, store, s1, ino, owner);
    hide Slot;
    forall j | 0 <= j < |ino| ensures Shows(s1, ino[j], files[j]) {
      forall x: nat | x < |files[j]|
        ensures var a := Slot(s1, ino[j], x / BSIZE); a != 0 && a < |s1| && s1[a][x % BSIZE] == files[j][x]
      {
        ShownSlot(sb, store, ino, owner, j, files[j], x);
      }
    }
  }

  /** Truncation empties file i and leaves every other as it was. */
  lemma EmptiedShowAll(sb: Super, s0: seq<Block>, ino: seq<Inode>, owner: map<nat, Place>, files: seq<seq<byte>>,
                       s1: seq<Block>, i: nat, ip: Inode)
    requires Owned(sb, s0, ino, owner) && ShowAll(s0, ino, files) && i < |ino| && |s1| == sb.size
    requires forall b: nat | sb.datastart <= b < sb.size :: s1[b] == s0[b]
    requires ip.addrs == seq(NDIRECT + 1, _ => 0)
    ensures ShowAll(s1, ino[i := ip], files[i := []])
  {
    SameTables(sb, s0, s1, ino, owner);
    hide Slot;
    forall j | 0 <= j < |ino| && j != i ensures Shows(s1, ino[j], files[j]) {
      forall x: nat | x < |files[j]|
        ensures var a := Slot(s1, ino[j], x / BSIZE); a != 0 && a < |s1| && s1[a][x % BSIZE] == files[j][x]
      {
        ShownSlot(sb, s0, ino, owner, j, files[j], x);
      }
    }
  }

  /** Size and header words matter neither to ownership nor to what is shown. */
  lemma HeaderKeeps(sb: Super, store: seq<Block>, ino: seq<Inode>, owner: map<nat, Place>, files: seq<seq<byte>>,
                    i: nat, ip: Inode)
    requires Owned(sb, store, ino, owner) && ShowAll(store, ino, files) && i < |ino| && ip.addrs == ino[i].addrs &&
             ip.size <= MAXFILE * BSIZE
    ensures Owned(sb, store, ino[i := ip], owner) && ShowAll(store, ino[i := ip], files)
  {
    var ino1 := ino[i := ip];
    assert forall j, k | 0 <= j < |ino| && 0 <= k <= TABLE :: Slot(store, ino1[j], k) == Slot(store, ino[j], k);
    hide Slot;
    forall j, k | 0 <= j < |ino1| && 0 <= k <= TABLE && Slot(store, ino1[j], k) != 0
      ensures Slot(store, ino1[j], k) in owner && owner[Slot(store, ino1[j], k)] == Place(j, k)
    {
      assert Slot(store, ino1[j], k) == Slot(store, ino[j], k);
    }
    assert forall x | x in owner ::
      Slot(store, ino1[owner[x].i], owner[x].k) == Slot(store, ino[owner[x].i], owner[x].k);
    forall j | 0 <= j < |ino1| ensures Shows(store, ino1[j], files[j]) {
      assert Shows(store, ino[j], files[j]);
    }
  }

  /** Blocks that n bytes at offset o touch. */
  function Spanned(o: nat, n: nat): nat {
    if n == 0 then 0 else (o + n - 1) / BSIZE - o / BSIZE + 1
  }

  /** At most that many of them are beyond the present end of a file of at least o bytes: one
      that starts in the middle of a block finds that block mapped. */
  function Unmapped(o: nat, n: nat): nat {
    if o % BSIZE != 0 && n > 0 then Spanned(o, n) - 1 else Spanned(o, n)
  }

  /** The size of readi's and writei's next piece: up to the end of the block, or what is left. */
  function Piece(o: nat, left: nat): (m: nat)
    requires left > 0
    ensures 0 < m <= left && o % BSIZE + m <= BSIZE
  {
    if left < BSIZE - o % BSIZE then left else BSIZE - o % BSIZE
  }

  /** writei's next piece lies in one block, the one after those already touched. */
  lemma SpanStep(off: nat, tot: nat, n: nat)
    requires tot < n && (tot == 0 || (off + tot) % BSIZE == 0)
    ensures var o := off + tot; var m := Piece(o, n - tot);
      && (tot + m == n || (o + m) % BSIZE == 0)
      && o / BSIZE == off / BSIZE + Spanned(off, tot)
      && Spanned(off, tot + m) == Spanned(off, tot) + 1
      && Unmapped(off, tot + m) == Unmapped(off, tot) + if o % BSIZE == 0 then 1 else 0
  {
    if tot > 0 {
      assert (off + tot - 1) / BSIZE == (off + tot) / BSIZE - 1;
    }
  }

  /** The m bytes after the first tot of a write at offset off lie in one block, which is the next. */
  predicate IsNext(off: nat, tot: nat, m: nat) {
    var o := off + tot;
    && 0 < m && o % BSIZE + m <= BSIZE && o / BSIZE < MAXFILE
    && o / BSIZE == off / BSIZE + Spanned(off, tot) && Spanned(off, tot + m) == Spanned(off, tot) + 1
  }

  lemma NextPiece(off: nat, tot: nat, n: nat)
    requires tot < n && (tot == 0 || (off + tot) % BSIZE == 0) && off + n <= MAXFILE * BSIZE
    ensures IsNext(off, tot, Piece(off + tot, n - tot))
  {
    SpanStep(off, tot, n);
  }

  lemma UnmappedGrows(off: nat, a: nat, b: nat)
    requires 0 < a <= b
    ensures Unmapped(off, a) <= Unmapped(off, b)
  {
    assert (off + a - 1) / BSIZE <= (off + b - 1) / BSIZE;
  }

  lemma SpanFits(off: nat, n: nat)
    requires off + n <= MAXFILE * BSIZE
    ensures off / BSIZE + Spanned(off, n) <= TABLE
  {
  }
}
