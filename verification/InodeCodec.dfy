/** The on-disk inode: 16 words of an inode block, 8 inodes to a block. */
module InodeCodec {
  import opened Blocks
  import opened FileLayout

  const INODEWORDS: nat := 16

  function Encode(ip: Inode): (w: seq<uint32>)
    requires |ip.addrs| == NDIRECT + 1
    ensures |w| == INODEWORDS
  {
    [ip.head0, ip.head1, ip.size] + ip.addrs
  }

  function PutWords(b: Block, at: nat, w: seq<uint32>): (r: Block)
    requires at + |w| <= WORDS
    ensures forall k: nat | k < WORDS :: WordAt(r, k) == if at <= k < at + |w| then w[k - at] else WordAt(b, k)
  {
    if w == [] then b else PutWord(PutWords(b, at, w[..|w| - 1]), at + |w| - 1, w[|w| - 1])
  }

  function GetWords(b: Block, at: nat, n: nat): (w: seq<uint32>)
    requires at + n <= WORDS
    ensures |w| == n && forall k | 0 <= k < n :: w[k] == WordAt(b, at + k)
  {
    if n == 0 then [] else GetWords(b, at, n - 1) + [WordAt(b, at + n - 1)]
  }

  /** The copy of inode i on disk. */
  function DiskInode(sb: Super, store: seq<Block>, i: nat): Inode
    requires sb.Valid() && |store| == sb.size && i < sb.ninodes
  {
    sb.Regions(i, 0);
    var b := store[sb.InodeBlock(i)];
    var at := i % IPB * INODEWORDS;
    Inode(WordAt(b, at), WordAt(b, at + 1), WordAt(b, at + 2), GetWords(b, at + 3, NDIRECT + 1))
  }

  function DiskInodes(sb: Super, store: seq<Block>, n: nat): (ino: seq<Inode>)
    requires sb.Valid() && |store| == sb.size && n <= sb.ninodes
    ensures |ino| == n && forall i | 0 <= i < n :: ino[i] == DiskInode(sb, store, i)
  {
    seq(n, i requires 0 <= i < n => DiskInode(sb, store, i))
  }

  /** Every inode in memory is as it is on disk. */
  ghost predicate Synced(sb: Super, store: seq<Block>, ino: seq<Inode>) {
    && sb.Valid() && |store| == sb.size && |ino| <= sb.ninodes
    && forall i | 0 <= i < |ino| :: DiskInode(sb, store, i) == ino[i]
  }

  /** iupdate's block: inode i's words replaced. */
  function Updated(sb: Super, store: seq<Block>, i: nat, ip: Inode): (r: seq<Block>)
    requires sb.Valid() && |store| == sb.size && i < sb.ninodes && |ip.addrs| == NDIRECT + 1
    ensures |r| == |store|
  {
    sb.Regions(i, 0);
    var b := sb.InodeBlock(i);
    store[b := PutWords(store[b], i % IPB * INODEWORDS, Encode(ip))]
  }

  /** Sixteen words of an inode block from `at` on: type and major number, minor number and link count,
      size, twelve direct block numbers and the table's. The others are as in b0. */
  ghost predicate HoldsInode(b0: Block, b1: Block, at: nat, ip: Inode)
    requires |ip.addrs| == 13 && at + 16 <= WORDS
  {
    && WordAt(b1, at) == ip.head0 && WordAt(b1, at + 1) == ip.head1 && WordAt(b1, at + 2) == ip.size
    && (forall k: nat | k < 13 :: WordAt(b1, at + 3 + k) == ip.addrs[k])
    && forall k: nat | k < WORDS && !(at <= k < at + 16) :: WordAt(b1, k) == WordAt(b0, k)
  }

  lemma EncodeIs(b0: Block, at: nat, ip: Inode)
    requires |ip.addrs| == 13 && at + 16 <= WORDS
    ensures HoldsInode(b0, PutWords(b0, at, Encode(ip)), at, ip)
  {
    hide WordAt, PutWord;
  }

  /** Inode i is the one at 16 * (i % 8) in its block, and no other block changes. */
  lemma UpdatedWords(sb: Super, store: seq<Block>, i: nat, ip: Inode)
    requires sb.Valid() && |store| == sb.size && i < sb.ninodes && |ip.addrs| == NDIRECT + 1
    ensures var b, s := sb.inodestart + i / 8, Updated(sb, store, i, ip);
            && b < |store| == |s| && HoldsInode(store[b], s[b], 16 * (i % 8), ip)
            && forall c: nat | c < |store| && c != b :: s[c] == store[c]
  {
    sb.Regions(i, 0);
    hide HoldsInode, Encode, WordAt, PutWord;
    EncodeIs(store[sb.InodeBlock(i)], 16 * (i % 8), ip);
  }

  /** iupdate is read back as written and disturbs no other inode. */
  lemma UpdateRoundTrip(sb: Super, store: seq<Block>, i: nat, ip: Inode, j: nat)
    requires sb.Valid() && |store| == sb.size && i < sb.ninodes && |ip.addrs| == NDIRECT + 1 && j < sb.ninodes
    ensures DiskInode(sb, Updated(sb, store, i, ip), j) == if j == i then ip else DiskInode(sb, store, j)
  {
    hide WordAt, PutWord;
    sb.Regions(j, 0);
    if j == i {
      assert DiskInode(sb, Updated(sb, store, i, ip), j).addrs == ip.addrs;
    } else if sb.InodeBlock(j) == sb.InodeBlock(i) {
      assert j % IPB != i % IPB;
      assert DiskInode(sb, Updated(sb, store, i, ip), j).addrs == DiskInode(sb, store, j).addrs;
    }
  }

  /** Nothing before the free map differs. */
  ghost predicate SameInodes(sb: Super, s0: seq<Block>, s1: seq<Block>) {
    |s1| == |s0| == sb.size && sb.Valid() && forall b: nat | b < sb.bmapstart :: s1[b] == s0[b]
  }

  lemma SyncedFrame(sb: Super, s0: seq<Block>, s1: seq<Block>, ino: seq<Inode>)
    requires Synced(sb, s0, ino) && SameInodes(sb, s0, s1)
    ensures Synced(sb, s1, ino)
  {
    forall i | 0 <= i < |ino| ensures DiskInode(sb, s1, i) == DiskInode(sb, s0, i) {
      sb.Regions(i, 0);
    }
  }
}
