/** file.c: an open inode file, whose writes are cut into transactions that fit the log. */
module OpenFile {
  import opened Blocks
  import opened FileLayout
  import opened FileContents
  import opened FileSystem
  import opened InodeCodec
  import opened Reservation
  import opened Params
  import opened Writes

  /** max in filewrite, in bytes. */
  const CHUNK: nat := (MAXOPBLOCKS - 1 - 1 - 2) / 2 * 512

  /** A transaction of that many bytes fits its reservation at every offset, on every disk. */
  lemma ChunkFits(sb: Super, o: nat, m: nat)
    requires sb.Valid() && m <= CHUNK
    ensures WriteCost(sb, o, m) <= MAXOPBLOCKS
  {
    if m > 0 {
      assert (o + m - 1) / BSIZE <= (o + CHUNK - 1) / BSIZE <= o / BSIZE + 3;
      if o % BSIZE == 0 {
        assert (o + CHUNK - 1) / BSIZE == o / BSIZE + 2;
      }
    }
  }

  /** One byte more than a chunk, at offset o, is sure to fit. */
  predicate OneMoreFits(sb: Super, o: nat)
    requires sb.Valid()
  {
    WriteCost(sb, o, CHUNK + 1) <= MAXOPBLOCKS
  }

  /** One byte more is sure to fit everywhere if and only if four blocks of the free map, or fewer,
      mark the data blocks. */
  lemma ChunkIsTight(sb: Super)
    requires sb.Valid() && sb.datastart < sb.size
    ensures (forall o: nat :: OneMoreFits(sb, o)) <==> DataMaps(sb) <= 4
  {
    if DataMaps(sb) <= 4 {
      forall o: nat ensures OneMoreFits(sb, o) {
        assert (o + CHUNK) / BSIZE <= o / BSIZE + 3;
      }
    } else {
      assert !OneMoreFits(sb, 0);
    }
  }

  /** How much of n bytes filewrite gets into a file of `size` bytes at offset off: all of it, or
      the whole chunks that end within the largest file. */
  function Accepted(off: nat, size: nat, n: nat): (w: nat)
    ensures w <= n
  {
    if off > size then 0
    else if off + n <= MAXFILE * BSIZE then n
    else if off > MAXFILE * BSIZE then 0
    else
      var w := (MAXFILE * BSIZE - off) / CHUNK * CHUNK;
      assert w <= MAXFILE * BSIZE - off;
      w
  }

  /** The files after s is written at offset off of file i; a gap is not written across. */
  function Written(files: seq<seq<byte>>, i: nat, off: nat, s: seq<byte>): seq<seq<byte>>
    requires i < |files|
  {
    if off > |files[i]| then files else files[i := Splice(files[i], off, s)]
  }

  /** A whole number of chunks. */
  predicate Whole(k: nat) {
    k % CHUNK == 0
  }

  /** filewrite stops at k: whole chunks are in, and the next is refused. */
  predicate Stops(off: nat, size: nat, n: nat, k: nat) {
    && Whole(k) && k < n
    && if off > size then k == 0 else off + k <= MAXFILE * BSIZE < off + if n - k > CHUNK then k + CHUNK else n
  }

  /** After k bytes of src: the files, and the offset that has moved along. */
  ghost predicate Wrote(f0: seq<seq<byte>>, i: nat, off0: nat, src: seq<byte>, f: seq<seq<byte>>, off: nat, k: nat) {
    && i < |f0| && |f0[i]| <= MAXFILE * BSIZE && k <= |src| && off == off0 + k && f == Written(f0, i, off0, src[..k])
    && (k > 0 ==> off0 <= |f0[i]| && off <= MAXFILE * BSIZE)
  }

  lemma WroteNothing(files: seq<seq<byte>>, i: nat, off: nat, src: seq<byte>)
    requires i < |files| && |files[i]| <= MAXFILE * BSIZE
    ensures Wrote(files, i, off, src, files, off, 0)
  {
    if off <= |files[i]| {
      SpliceNothing(files[i], off);
    }
  }

  lemma WroteMore(f0: seq<seq<byte>>, i: nat, off0: nat, src: seq<byte>, f: seq<seq<byte>>, off: nat, k: nat, m: nat)
    requires Wrote(f0, i, off0, src, f, off, k) && i < |f| && 0 < m && k + m <= |src|
    requires off <= |f[i]| && off + m <= MAXFILE * BSIZE
    ensures Wrote(f0, i, off0, src, f[i := Splice(f[i], off, src[k..k + m])], off + m, k + m)
  {
    assert k == 0 ==> src[..k] == [] && (off0 <= |f0[i]| ==> f == f0) by {
      if k == 0 && off0 <= |f0[i]| {
        SpliceNothing(f0[i], off0);
      }
    }
    SpliceMore(f0, i, off0, src, k, k + m);
  }

  lemma WroteStops(f0: seq<seq<byte>>, i: nat, off0: nat, src: seq<byte>, f: seq<seq<byte>>, off: nat, k: nat)
    requires Wrote(f0, i, off0, src, f, off, k) && i < |f| && Whole(k) && k < |src|
    requires off > |f[i]| || off + (if |src| - k > CHUNK then CHUNK else |src| - k) > MAXFILE * BSIZE
    ensures Stops(off0, |f0[i]|, |src|, k)
  {
    if k == 0 && off0 <= |f0[i]| {
      SpliceNothing(f0[i], off0);
      assert src[..0] == [];
    }
  }

  lemma AcceptedPart(off: nat, size: nat, n: nat, k: nat)
    requires Stops(off, size, n, k)
    ensures Accepted(off, size, n) == k
  {
  }

  lemma AcceptedAll(off: nat, size: nat, n: nat)
    requires n > 0 ==> off <= size && off + n <= MAXFILE * BSIZE
    requires size <= MAXFILE * BSIZE
    ensures Accepted(off, size, n) == n
  {
  }

  lemma WroteOffset(f0: seq<seq<byte>>, i: nat, off0: nat, src: seq<byte>, f: seq<seq<byte>>, off: nat, k: nat)
    requires Wrote(f0, i, off0, src, f, off, k)
    ensures off == off0 + k
  {
  }

  lemma WroteFiles(f0: seq<seq<byte>>, i: nat, off0: nat, src: seq<byte>, f: seq<seq<byte>>, off: nat, k: nat)
    requires Wrote(f0, i, off0, src, f, off, k)
    ensures i < |f0| && k <= |src| && f == Written(f0, i, off0, src[..k])
  {
  }

  lemma ChunksCounted(k: nat, k': nat, n: nat)
    requires Whole(k) && k < n && (k' == k || k' == if n - k > CHUNK then k + CHUNK else n)
    ensures k' > k ==>
      if k' == n then k / CHUNK + 1 == (n + CHUNK - 1) / CHUNK else Whole(k') && k' / CHUNK == k / CHUNK + 1
    ensures k' == k ==> k / CHUNK + 1 == Tried(n, k)
  {
    Quotients(k, n);
    assert CHUNK == 1536;
  }

  lemma Quotients(k: nat, n: nat)
    requires k % 1536 == 0 && k < n
    ensures (k + 1536) / 1536 == k / 1536 + 1 && (k + 1536) % 1536 == 0
    ensures n <= k + 1536 ==> (n + 1536 - 1) / 1536 == k / 1536 + 1
  {
  }

  lemma ChunkPositive()
    ensures CHUNK > 0
  {
  }

  /** At byte k of n, after so many transactions: the chunks written have been counted. */
  predicate Counted(k: nat, n: nat, brackets: nat) {
    if k == n then brackets == Tried(n, n) else Whole(k) && brackets == k / CHUNK
  }

  lemma CountedWhole(k: nat, n: nat, brackets: nat)
    requires Counted(k, n, brackets) && k < n
    ensures Whole(k) && brackets == k / CHUNK
  {
  }

  lemma CountedMore(k: nat, k': nat, n: nat, brackets: nat)
    requires Counted(k, n, brackets) && k < n && (k' == k || k' == if n - k > CHUNK then k + CHUNK else n)
    ensures if k' == k then brackets + 1 == Tried(n, k) else Counted(k', n, brackets + 1)
  {
    ChunksCounted(k, k', n);
  }

  lemma CountedAll(n: nat, brackets: nat)
    requires Counted(n, n, brackets)
    ensures brackets == Tried(n, n)
  {
  }

  lemma NoneTouched(ws: seq<Write>)
    requires Touched(ws) == {}
    ensures ws == []
  {
    assert ws != [] ==> ws[0].b in Touched(ws);
  }

  lemma NoneWritten(sb: Super, o: Owner, i: nat, off: nat)
    ensures WrittenBlocks(sb, o, o, i, off, 0) == {}
  {
    TakenNone(sb, o, i);
  }

  /** The file system between two transactions. */
  datatype Stage = Stage(store: seq<Block>, owner: Owner, files: seq<seq<byte>>)

  /** A transaction that wrote m bytes at offset off of file i led from a to b: its writes, which fit
      the reservation, and are to the blocks touched, to those that allocating them takes, and to the
      inode's if the file has grown. */
  ghost predicate Leads(sb: Super, i: nat, off: nat, m: nat, a: Stage, ws: seq<Write>, b: Stage)
    requires i < |a.files| && i < |b.files|
  {
    && b.store == Replay(a.store, ws) && |Touched(ws)| <= MAXOPBLOCKS
    && Touched(ws) == WrittenBlocks(sb, a.owner, b.owner, i, off, m) +
                      if |b.files[i]| > |a.files[i]| then {sb.InodeBlock(i)} else {}
  }

  /** How far a write of w bytes has got after x chunks. */
  function Reached(x: nat, w: nat): nat {
    if x * CHUNK < w then x * CHUNK else w
  }

  /** After x transactions the disk holds a file system with just the first x chunks written. */
  ghost predicate StageOk(sb: Super, n: nat, i: nat, off: nat, src: seq<byte>, w: nat, f0: seq<seq<byte>>, x: nat,
                          a: Stage)
    requires i < |f0| && w <= |src|
  {
    Mountable(sb, a.store, n, a.owner, a.files) && a.files == Written(f0, i, off, src[..Reached(x, w)])
  }

  ghost predicate LeadsAt(sb: Super, i: nat, off: nat, w: nat, a: Stage, ws: seq<Write>, x: nat, b: Stage) {
    && i < |a.files| && i < |b.files|
    && Leads(sb, i, off + Reached(x, w), Reached(x + 1, w) - Reached(x, w), a, ws, b)
  }

  /** w bytes of src went into file i at offset off in these transactions, with these stages before,
      between and after them. */
  ghost predicate Bracketed(sb: Super, n: nat, i: nat, off: nat, src: seq<byte>, w: nat, f0: seq<seq<byte>>,
                            stages: seq<Stage>, brackets: seq<seq<Write>>)
    requires i < |f0| && w <= |src|
  {
    && |stages| == |brackets| + 1
    && (forall x | 0 <= x < |stages| :: StageOk(sb, n, i, off, src, w, f0, x, stages[x]))
    && (forall x | 0 <= x < |brackets| :: LeadsAt(sb, i, off, w, stages[x], brackets[x], x, stages[x + 1]))
  }

  /** One transaction for each chunk, and one for a chunk that is refused. */
  function Tried(n: nat, w: nat): nat {
    if w == n then (n + CHUNK - 1) / CHUNK else w / CHUNK + 1
  }

  lemma ReachedGrows(x: nat, k: nat, k': nat)
    requires Whole(k) && k <= k' <= k + CHUNK
    ensures x * CHUNK <= k ==> Reached(x, k') == Reached(x, k) == x * CHUNK
    ensures Reached(k / CHUNK + 1, k') == k'
  {
  }

  lemma BracketedBegins(sb: Super, n: nat, i: nat, off: nat, src: seq<byte>, a: Stage)
    requires i < |a.files| && Mountable(sb, a.store, n, a.owner, a.files)
    ensures Bracketed(sb, n, i, off, src, 0, a.files, [a], [])
  {
    hide Mountable;
    if off <= |a.files[i]| {
      SpliceNothing(a.files[i], off);
    }
    assert src[..0] == [];
  }

  /** One transaction more, from byte k to byte k'. */
  lemma BracketedMore(sb: Super, n: nat, i: nat, off: nat, src: seq<byte>, k: nat, k': nat, f0: seq<seq<byte>>,
                      stages: seq<Stage>, brackets: seq<seq<Write>>, ws: seq<Write>, b: Stage)
    requires i < |f0| && k <= k' <= |src| && Bracketed(sb, n, i, off, src, k, f0, stages, brackets)
    requires Whole(k) && |brackets| == k / CHUNK && k' <= k + CHUNK
    requires Mountable(sb, b.store, n, b.owner, b.files) && b.files == Written(f0, i, off, src[..k'])
    requires i < |stages[|brackets|].files| && i < |b.files| && Leads(sb, i, off + k, k' - k, stages[|brackets|], ws, b)
    ensures Bracketed(sb, n, i, off, src, k', f0, stages + [b], brackets + [ws])
  {
    hide Mountable, Leads, Written, Whole, Reached;
    var stages', brackets', m := stages + [b], brackets + [ws], |brackets|;
    ReachedAll(k, k');
    forall x | 0 <= x < |stages'| ensures StageOk(sb, n, i, off, src, k', f0, x, stages'[x]) {
      assert x <= m ==> StageOk(sb, n, i, off, src, k, f0, x, stages[x]);
    }
    forall x | 0 <= x < |brackets'| ensures LeadsAt(sb, i, off, k', stages'[x], brackets'[x], x, stages'[x + 1]) {
      assert x < m ==> LeadsAt(sb, i, off, k, stages[x], brackets[x], x, stages[x + 1]);
    }
  }

  lemma ReachedAll(k: nat, k': nat)
    requires Whole(k) && k <= k' <= k + CHUNK
    ensures forall x: nat | x <= k / CHUNK :: Reached(x, k') == Reached(x, k)
    ensures Reached(k / CHUNK + 1, k') == k' && Reached(k / CHUNK, k') == k
  {
    forall x: nat | x <= k / CHUNK ensures Reached(x, k') == Reached(x, k) {
      ReachedGrows(x, k, k');
    }
    ReachedGrows(k / CHUNK, k, k');
  }

  class File {
    const fs: FileSystem
    const i: nat
    const readable: bool
    const writable: bool
    var off: nat

    constructor (fs: FileSystem, i: nat, readable: bool, writable: bool)
      requires fs.Ok() && i < |fs.ino| && !fs.ino[i].Device()
      ensures this.fs == fs && this.i == i && this.readable == readable && this.writable == writable && off == 0 &&
              Valid()
    {
      this.fs, this.i, this.readable, this.writable, off := fs, i, readable, writable, 0;
    }

    ghost predicate Valid()
      reads this, fs
    {
      fs.Ok() && i < |fs.ino| && !fs.ino[i].Device() && off < 0x1_0000_0000
    }

    /** fileread */
    method Fileread(n: uint32) returns (r: IoResult, dst: seq<byte>)
      requires Valid()
      modifies this`off, fs
      ensures Valid() && fs.files == old(fs.files) && fs.logged == old(fs.logged) && !r.Panicked?
      ensures r.Failed? <==> !readable || old(off) > |fs.files[i]| || old(off) + n >= 0x1_0000_0000
      ensures r.Failed? ==> off == old(off)
      ensures r.Count? ==> r.n == if old(off) + n > |fs.files[i]| then |fs.files[i]| - old(off) else n
      ensures r.Count? ==> off == old(off) + r.n && dst == fs.files[i][old(off)..off]
    {
      if !readable {
        return Failed, [];
      }
      hide *;
      r, dst := fs.Readi(i, off, n);
      if r.Count? && r.n > 0 {
        off := off + r.n;
      }
    }

    lemma OkDisk()
      requires Valid()
      ensures fs.sb.Valid()
    {
    }

    ghost function Now(): Stage
      reads fs
    {
      Stage(fs.store, fs.owner, fs.files)
    }

    lemma NowIs()
      ensures Now() == Stage(fs.store, fs.owner, fs.files)
    {
    }

    lemma OkFacts()
      requires Valid()
      ensures i < |fs.files| == |fs.ino| && Mountable(fs.sb, fs.store, |fs.ino|, fs.owner, fs.files)
      ensures fs.store == Replay(fs.base, fs.writes) && fs.logged == Touched(fs.writes)
    {
      fs.Remountable();
      hide Mountable, Owned, Bits, ShowAll, Synced;
    }

    /** One bracket of filewrite's loop: at most MAXOPBLOCKS blocks logged. */
    method WriteChunk(s: seq<byte>) returns (r: IoResult)
      requires Valid() && 0 < |s| <= CHUNK
      modifies this`off, fs
      ensures r.Failed? <==> old(off) > |old(fs.files)[i]| || old(off) + |s| > MAXFILE * BSIZE
      ensures r.Failed? ==> Valid() && off == old(off) && Now() == old(Now()) && fs.writes == []
      ensures r.Count? ==> Valid() && r.n == |s| && off == old(off) + |s|
      ensures r.Count? ==> fs.files == old(fs.files)[i := Splice(old(fs.files)[i], old(off), s)]
      ensures !r.Panicked? ==> i < |old(fs.files)| == |fs.files| && |fs.ino| == old(|fs.ino|)
      ensures !r.Panicked? ==> Leads(fs.sb, i, old(off), if r.Count? then |s| else 0, old(Now()), fs.writes, Now())
      ensures !r.Panicked? ==> Mountable(fs.sb, fs.store, |fs.ino|, fs.owner, fs.files)
      ensures r.Panicked? ==> Full(fs.sb, fs.used)
    {
      hide FileSystem.Ok, WriteCost, Full, Splice, Free, WrittenBlocks, Extends, Unmapped, Mountable, Replay, Touched;
      OkDisk();
      OkFacts();
      ChunkFits(fs.sb, off, |s|);
      ghost var a := Now();
      fs.BeginOp();
      r := fs.Writei(i, s, off);
      assert fs.logged - {} == fs.logged;
      if r.Count? && r.n > 0 {
        off := off + r.n;
      }
      if !r.Panicked? {
        OkFacts();
      }
      if r.Failed? {
        NoneTouched(fs.writes);
        NoneWritten(fs.sb, a.owner, i, old(off));
      }
    }

    /** The bracket at byte k of src, in a write that began with files f0 and offset off0. */
    method NextChunk(src: seq<byte>, k: nat, ghost f0: seq<seq<byte>>, ghost off0: nat) returns (r: IoResult, k': nat)
      requires Valid() && Wrote(f0, i, off0, src, fs.files, off, k) && Whole(k) && k < |src|
      modifies this`off, fs
      ensures !r.Panicked? ==>
        Valid() && Wrote(f0, i, off0, src, fs.files, off, k') && i < |old(fs.files)| == |fs.files|
      ensures !r.Panicked? ==> k <= k' <= k + CHUNK && k' <= |src| && |fs.ino| == old(|fs.ino|)
      ensures !r.Panicked? ==> Leads(fs.sb, i, off0 + k, k' - k, old(Now()), fs.writes, Now())
      ensures !r.Panicked? ==> Mountable(fs.sb, fs.store, |fs.ino|, fs.owner, fs.files)
      ensures r.Failed? ==> k' == k && Stops(off0, |f0[i]|, |src|, k)
      ensures r.Count? ==> k < k' && k' == if |src| - k > CHUNK then k + CHUNK else |src|
      ensures r.Panicked? ==> Full(fs.sb, fs.used)
    {
      hide *;
      ChunkPositive();
      var n1 := if |src| - k > CHUNK then CHUNK else |src| - k;
      ghost var f1, off1 := fs.files, off;
      k' := k;
      WroteOffset(f0, i, off0, src, f1, off1, k);
      NowIs();
      r := WriteChunk(src[k..k + n1]);
      NowIs();
      if r.Failed? {
        WroteStops(f0, i, off0, src, f1, off1, k);
      } else if r.Count? {
        WroteMore(f0, i, off0, src, f1, off1, k, n1);
        k' := k + n1;
      }
    }

    /** filewrite's loop, up to the end or to the first chunk refused. */
    method WriteChunks(src: seq<byte>)
      returns (r: IoResult, k: nat, ghost stages: seq<Stage>, ghost brackets: seq<seq<Write>>)
      requires Valid()
      modifies this`off, fs
      ensures !r.Panicked? ==> Valid() && Wrote(old(fs.files), i, old(off), src, fs.files, off, k)
      ensures r.Failed? ==> Stops(old(off), |old(fs.files)[i]|, |src|, k)
      ensures r.Count? ==> r.n == |src| == k
      ensures k <= |src| && i < |old(fs.files)|
      ensures Bracketed(fs.sb, old(|fs.ino|), i, old(off), src, k, old(fs.files), stages, brackets) &&
              stages[0] == old(Now())
      ensures !r.Panicked? ==> |brackets| == Tried(|src|, k) && stages[|brackets|] == Now()
      ensures r.Panicked? ==> Full(fs.sb, fs.used)
    {
      hide *;
      brackets, k, r := [], 0, Count(|src|);
      ghost var f0, off0, n := fs.files, off, |fs.ino|;
      stages := Starts(src);
      while k < |src|
        invariant k <= |src| && Valid() && Wrote(f0, i, off0, src, fs.files, off, k) && |fs.ino| == n
        invariant r == Count(|src|) && Bracketed(fs.sb, n, i, off0, src, k, f0, stages, brackets)
        invariant |stages| == |brackets| + 1 && stages[|brackets|] == Now() && stages[0] == old(Now())
        invariant Counted(k, |src|, |brackets|)
      {
        var q, k0;
        k0 := k;
        CountedWhole(k0, |src|, |brackets|);
        NowIs();
        q, k := NextChunk(src, k0, f0, off0);
        if q.Panicked? {
          k, r := k0, q;
          return;
        }
        NowIs();
        WroteFiles(f0, i, off0, src, fs.files, off, k);
        CountedMore(k0, k, |src|, |brackets|);
        BracketedMore(fs.sb, n, i, off0, src, k0, k, f0, stages, brackets, fs.writes, Now());
        stages, brackets := stages + [Now()], brackets + [fs.writes];
        if q.Failed? {
          r := q;
          return;
        }
      }
      CountedAll(k, |brackets|);
    }

    /** Nothing is written yet. */
    lemma Starts(src: seq<byte>) returns (stages: seq<Stage>)
      requires Valid()
      ensures i < |fs.files| && Wrote(fs.files, i, off, src, fs.files, off, 0) && stages == [Now()]
      ensures Bracketed(fs.sb, |fs.ino|, i, off, src, 0, fs.files, stages, []) && Counted(0, |src|, 0)
    {
      hide Mountable, Bracketed, Wrote;
      stages := [Now()];
      OkFacts();
      LargestFile();
      WroteNothing(fs.files, i, off, src);
      BracketedBegins(fs.sb, |fs.ino|, i, off, src, Now());
    }

    lemma LargestFile()
      requires Valid()
      ensures |fs.files[i]| <= MAXFILE * BSIZE
    {
      fs.SizeIs(i);
    }

    /** filewrite. It writes chunk by chunk, in transactions whose writes are `brackets`; `stages` are
        the file systems before, between and after them. The panic on a short writei is
        unreachable. */
    method Filewrite(src: seq<byte>) returns (r: IoResult, ghost stages: seq<Stage>, ghost brackets: seq<seq<Write>>)
      requires Valid()
      modifies this`off, fs
      ensures !writable ==> r.Failed? && off == old(off) && Now() == old(Now()) && brackets == []
      ensures var w := Accepted(old(off), |old(fs.files)[i]|, |src|);
        writable && !r.Panicked? ==>
          && r == (if w == |src| then Count(|src|) else Failed) && off == old(off) + w
          && Valid() && fs.files == Written(old(fs.files), i, old(off), src[..w])
          && Bracketed(fs.sb, |fs.ino|, i, old(off), src, w, old(fs.files), stages, brackets)
          && |brackets| == Tried(|src|, w) && stages[0] == old(Now()) && stages[|brackets|] == Now()
      ensures r.Panicked? ==> Full(fs.sb, fs.used) && exists k | 0 <= k <= |src| ::
          Bracketed(fs.sb, old(|fs.ino|), i, old(off), src, k, old(fs.files), stages, brackets) &&
            stages[0] == old(Now())
    {
      if !writable {
        return Failed, [Now()], [];
      }
      ghost var size := |fs.files[i]|;
      var k;
      hide Valid, Written, Accepted, Full, Bracketed, Wrote;
      r, k, stages, brackets := WriteChunks(src);
      if r.Failed? {
        AcceptedPart(old(off), size, |src|, k);
      } else if r.Count? {
        AcceptedAll(old(off), size, |src|);
      }
    }
  }
}
