/** The on-disk redo log: a header block holding a count and that many home block
    numbers, followed by the logged copies. `LogicalAt` is what the log means: the
    contents a completed recovery would give every home block. */
module LogFormat {
  import opened Blocks
  import opened Params

  /** The disk block numbers the log layer may touch: the log occupies
      [start, start + nlog), every other block below size is a home block. */
  datatype Geometry = Geometry(start: nat, nlog: nat, size: nat) {
    predicate Valid() {
      1 <= nlog && start + nlog <= size < 0x1_0000_0000
    }

    predicate Home(b: nat) {
      b < size && !(start <= b < start + nlog)
    }

    /** Block numbers that may stand in a log header. */
    predicate Entries(h: seq<nat>) {
      |h| <= LOGSIZE && forall i | 0 <= i < |h| :: Home(h[i])
    }

    /** A header whose copies lie within the log area. */
    predicate WfHeader(h: seq<nat>) {
      Entries(h) && |h| < nlog
    }

    /** The log areas that log_write's tests keep from being overrun: those as large as the
        header, and the one in which nothing can be logged at all. */
    predicate Ample() {
      nlog == 1 || nlog >= LOGSIZE
    }
  }

  /** The word-by-word decoding read_head performs. */
  function ReadHeader(b: Block): (h: seq<nat>)
    requires WordAt(b, 0) < WORDS
    ensures |h| == WordAt(b, 0)
  {
    seq(WordAt(b, 0), i requires 0 <= i < WordAt(b, 0) => WordAt(b, 1 + i))
  }

  /** The loop of write_head: words past the count keep whatever the block held. */
  function PutEntries(b: Block, h: seq<nat>): (r: Block)
    requires |h| <= LOGSIZE
    requires forall i | 0 <= i < |h| :: h[i] < 0x1_0000_0000
    ensures WordAt(r, 0) == WordAt(b, 0)
    ensures forall i | 0 <= i < |h| :: WordAt(r, 1 + i) == h[i]
  {
    if h == [] then b else PutWord(PutEntries(b, h[..|h| - 1]), |h|, h[|h| - 1])
  }

  function WriteHeader(b: Block, h: seq<nat>): (r: Block)
    requires |h| <= LOGSIZE
    requires forall i | 0 <= i < |h| :: h[i] < 0x1_0000_0000
  {
    PutEntries(PutWord(b, 0, |h|), h)
  }

  /** Encoding then decoding gives the header back, whatever the block held before. */
  lemma HeaderRoundTrip(b: Block, h: seq<nat>)
    requires |h| <= LOGSIZE
    requires forall i | 0 <= i < |h| :: h[i] < 0x1_0000_0000
    ensures WordAt(WriteHeader(b, h), 0) == |h| && forall i | 0 <= i < |h| :: WordAt(WriteHeader(b, h), 1 + i) == h[i]
    ensures ReadHeader(WriteHeader(b, h)) == h
  {
    var r := ReadHeader(WriteHeader(b, h));
    assert forall i | 0 <= i < |h| :: r[i] == h[i];
  }

  /** Position of the last entry for block b, or -1: the copy that a replay leaves in place. */
  function LastIndex(h: seq<nat>, b: nat): (r: int)
    ensures -1 <= r < |h|
    ensures r >= 0 ==> h[r] == b
    ensures forall i | r < i < |h| :: h[i] != b
  {
    if h == [] then -1
    else if h[|h| - 1] == b then |h| - 1
    else LastIndex(h[..|h| - 1], b)
  }

  /** Contents of block b once log h has been replayed over disk d. */
  function LogicalAt(g: Geometry, d: seq<Block>, h: seq<nat>, b: nat): Block
    requires g.Valid() && |d| == g.size && |h| < g.nlog && b < g.size
  {
    var k := LastIndex(h, b);
    if k < 0 then d[b] else d[g.start + 1 + k]
  }
}
