/** Sequences of block writes, as log_write records them, and what they leave in a store. */
module Writes {
  import opened Blocks

  datatype Write = Write(b: nat, data: Block)

  function Replay(s: seq<Block>, ws: seq<Write>): (r: seq<Block>)
    ensures |r| == |s|
  {
    if ws == [] then s
    else
      var r, w := Replay(s, ws[..|ws| - 1]), ws[|ws| - 1];
      if w.b < |r| then r[w.b := w.data] else r
  }

  /** The blocks written. */
  function Touched(ws: seq<Write>): set<nat> {
    set w | w in ws :: w.b
  }

  lemma ReplayOne(s: seq<Block>, ws: seq<Write>, b: nat, data: Block)
    requires b < |s|
    ensures Replay(s, ws + [Write(b, data)]) == Replay(s, ws)[b := data]
    ensures Touched(ws + [Write(b, data)]) == Touched(ws) + {b}
  {
    var w := Write(b, data);
    assert (ws + [w])[..|ws|] == ws;
    forall x ensures x in Touched(ws + [w]) <==> x in Touched(ws) + {b} {
      if x == b {
        assert (ws + [w])[|ws|] == w;
      } else if x in Touched(ws) {
        var v :| v in ws && v.b == x;
        assert v in ws + [w];
      }
    }
  }
}
