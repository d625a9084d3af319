/** The sizes of param.h. */
module Params {
  const ROOTDEV: nat := 1
  const MAXOPBLOCKS: nat := 10
  const LOGSIZE: nat := 3 * MAXOPBLOCKS
  const NBUF: nat := 3 * MAXOPBLOCKS
}
