/** pipe.c: a ring of 512 bytes with two counters that wrap at 2^32. A step of pipewrite or
    piperead is what it does between taking the pipe's lock and sleeping or returning; steps of
    any number of readers and writers may follow each other in any order. */
module Pipe {
  import opened Blocks

  const PIPESIZE: nat := 512
  const WRAP: nat := 0x1_0000_0000

  datatype Outcome = Done(n: nat) | Slept | Failed

  /** What the ring and its counters mean: `accepted` are all bytes ever written, `delivered` all ever read. */
  ghost predicate Ring(data: seq<byte>, nread: int, nwrite: int, accepted: seq<byte>, delivered: seq<byte>) {
    && |data| == PIPESIZE && delivered <= accepted && |accepted| <= |delivered| + PIPESIZE
    && nread == |delivered| % WRAP && nwrite == |accepted| % WRAP
    && forall k: nat | |delivered| <= k < |accepted| :: data[k % PIPESIZE] == accepted[k]
  }

  /** Bytes in flight are the difference of the counters, however often they have wrapped; and the
      tests for full and empty say what they should. */
  lemma InFlight(data: seq<byte>, nread: int, nwrite: int, accepted: seq<byte>, delivered: seq<byte>)
    requires Ring(data, nread, nwrite, accepted, delivered)
    ensures (nwrite - nread) % WRAP == |accepted| - |delivered| <= PIPESIZE == |data|
    ensures nwrite == (nread + PIPESIZE) % WRAP <==> |accepted| - |delivered| == PIPESIZE
    ensures nread == nwrite <==> accepted == delivered
  {
    Differ(|accepted|, |delivered|);
    if |accepted| == |delivered| {
      assert accepted == delivered;
    }
  }

  lemma Differ(a: nat, d: nat)
    requires d <= a <= d + PIPESIZE
    ensures (a % WRAP - d % WRAP) % WRAP == a - d
    ensures a % WRAP == (d % WRAP + PIPESIZE) % WRAP <==> a - d == PIPESIZE
    ensures a % WRAP == d % WRAP <==> a == d
  {
    var qa, qd := a / WRAP, d / WRAP;
    assert a == qa * WRAP + a % WRAP && d == qd * WRAP + d % WRAP;
    assert qa == qd || qa == qd + 1;
  }

  /** The counter wraps at a multiple of the ring's size. */
  lemma SamePlace(k: nat)
    ensures k % WRAP % PIPESIZE == k % PIPESIZE
  {
    var q := k / WRAP;
    assert k == PIPESIZE * (q * (WRAP / PIPESIZE)) + k % WRAP;
    Multiple(q * (WRAP / PIPESIZE), k % WRAP);
  }

  lemma Multiple(q: int, r: int)
    ensures (PIPESIZE * q + r) % PIPESIZE == r % PIPESIZE
  {
  }

  lemma PlacesDiffer(j: nat, k: nat)
    requires j < k < j + PIPESIZE
    ensures j % PIPESIZE != k % PIPESIZE
  {
  }

  lemma NextCount(k: nat)
    ensures (k % WRAP + 1) % WRAP == (k + 1) % WRAP
  {
  }

  lemma Accept(data: seq<byte>, nread: int, nwrite: int, accepted: seq<byte>, delivered: seq<byte>, b: byte)
    requires Ring(data, nread, nwrite, accepted, delivered) && |accepted| < |delivered| + PIPESIZE
    ensures 0 <= nwrite % PIPESIZE < PIPESIZE
    ensures Ring(data[nwrite % PIPESIZE := b], nread, (nwrite + 1) % WRAP, accepted + [b], delivered)
  {
    var a := |accepted|;
    SamePlace(a);
    NextCount(a);
    var data', accepted' := data[nwrite % PIPESIZE := b], accepted + [b];
    assert delivered <= accepted';
    forall k: nat | |delivered| <= k < |accepted'| ensures data'[k % PIPESIZE] == accepted'[k] {
      if k < a {
        PlacesDiffer(k, a);
      }
    }
  }

  lemma Deliver(data: seq<byte>, nread: int, nwrite: int, accepted: seq<byte>, delivered: seq<byte>)
    requires Ring(data, nread, nwrite, accepted, delivered) && accepted != delivered
    ensures |delivered| < |accepted| && 0 <= nread % PIPESIZE < PIPESIZE &&
            data[nread % PIPESIZE] == accepted[|delivered|]
    ensures Ring(data, (nread + 1) % WRAP, nwrite, accepted, delivered + [accepted[|delivered|]])
  {
    assert |delivered| == |accepted| ==> accepted == delivered;
    SamePlace(|delivered|);
    NextCount(|delivered|);
  }

  // ---- who sleeps, and who is woken ----

  /** The bytes in flight, which ends are open, and who sleeps on nread and on nwrite. */
  datatype Waits = Waits(bytes: nat, readopen: bool, writeopen: bool, readers: set<nat>, writers: set<nat>)

  /** What a writer with n bytes left, or a reader, does between two sleeps; an end closed for good; and
      a sleeper killed. */
  datatype Step =
    | Writes(p: nat, n: nat, killed: bool)
    | Reads(p: nat, want: int, killed: bool)
    | Closes(writable: bool)
    | Killed(p: nat)

  function Next(w: Waits, step: Step): Waits
    requires w.bytes <= PIPESIZE
  {
    match step
    case Writes(p, n, killed) =>
      if n <= PIPESIZE - w.bytes then w.(bytes := w.bytes + n, readers := {})
      else if !w.readopen || killed then w.(bytes := PIPESIZE)
      else w.(bytes := PIPESIZE, readers := {}, writers := w.writers + {p})
    case Reads(p, n, killed) =>
      if w.bytes == 0 && w.writeopen then (if killed then w else w.(readers := w.readers + {p}))
      else w.(bytes := w.bytes - (if n < 0 then 0 else if n < w.bytes then n else w.bytes), writers := {})
    case Closes(writable) =>
      if writable then w.(writeopen := false, readers := {}) else w.(readopen := false, writers := {})
    case Killed(p) => w.(readers := w.readers - {p}, writers := w.writers - {p})
  }

  /** Who sleeps does nothing; an end is closed when the last process that has it lets go of it. */
  predicate Enabled(w: Waits, step: Step) {
    match step
    case Writes(p, _, _) => p !in w.readers && p !in w.writers && w.writeopen
    case Reads(p, _, _) => p !in w.readers && p !in w.writers && w.readopen
    case Closes(writable) => if writable then w.writers == {} else w.readers == {}
    case Killed(_) => true
  }

  /** Nobody sleeps who could go on: readers sleep on an empty pipe that may still be written, writers
      on a full one that may still be read. */
  predicate Rested(w: Waits) {
    && w.bytes <= PIPESIZE
    && (w.readers != {} ==> w.bytes == 0 && w.writeopen && w.readopen)
    && (w.writers != {} ==> w.bytes == PIPESIZE && w.readopen && w.writeopen)
  }

  /** A killed writer fills the pipe, has bytes left, and returns: it wakes no reader. */
  predicate GivesUp(w: Waits, step: Step) {
    step.Writes? && step.killed && w.bytes < PIPESIZE < w.bytes + step.n && w.readers != {}
  }

  lemma RestedStep(w: Waits, step: Step)
    requires Rested(w) && Enabled(w, step)
    ensures Rested(Next(w, step)) <==> !GivesUp(w, step)
  {
  }

  ghost predicate IsRun(ws: seq<Waits>, steps: seq<Step>) {
    && |ws| == |steps| + 1 && ws[0] == Waits(0, true, true, {}, {})
    && forall i | 0 <= i < |steps| ::
         ws[i].bytes <= PIPESIZE && Enabled(ws[i], steps[i]) && ws[i + 1] == Next(ws[i], steps[i])
  }

  ghost predicate AllRested(ws: seq<Waits>, k: nat)
    requires k < |ws|
  {
    forall i | 0 <= i <= k :: Rested(ws[i])
  }

  ghost predicate NoneGivesUp(ws: seq<Waits>, steps: seq<Step>, k: nat)
    requires k <= |steps| <= |ws|
  {
    forall i | 0 <= i < k :: !GivesUp(ws[i], steps[i])
  }

  /** No wakeup is lost in a run, however many readers and writers there are, if and only if no killed
      writer gives up in the middle of a write that has filled the pipe while a reader sleeps. */
  lemma {:induction false} NoLostWakeups(ws: seq<Waits>, steps: seq<Step>, k: nat)
    requires IsRun(ws, steps) && k <= |steps|
    ensures AllRested(ws, k) <==> NoneGivesUp(ws, steps, k)
  {
    if k > 0 {
      NoLostWakeups(ws, steps, k - 1);
      assert Enabled(ws[k - 1], steps[k - 1]) && ws[k] == Next(ws[k - 1], steps[k - 1]);
      hide IsRun, Next, Enabled;
      assert AllRested(ws, k) <==> AllRested(ws, k - 1) && Rested(ws[k]);
      assert NoneGivesUp(ws, steps, k) <==> NoneGivesUp(ws, steps, k - 1) && !GivesUp(ws[k - 1], steps[k - 1]);
      if Rested(ws[k - 1]) {
        RestedStep(ws[k - 1], steps[k - 1]);
      }
    }
  }

  /** A killed process does not stay asleep, and nobody else is woken for it. */
  lemma KilledWakes(w: Waits, p: nat)
    requires w.bytes <= PIPESIZE
    ensures Enabled(w, Killed(p))
    ensures var w' := Next(w, Killed(p));
            && w' == w.(readers := w'.readers, writers := w'.writers) && p !in w'.readers && p !in w'.writers
            && forall q | q != p :: (q in w'.readers <==> q in w.readers) && (q in w'.writers <==> q in w.writers)
  {
  }

  /** It happens: a reader sleeps, a killed writer writes a byte more than the pipe holds, and the reader
      sleeps on although there are bytes for it. */
  lemma ForgottenReader(reader: nat, writer: nat, n: int)
    requires reader != writer
    ensures var w0 := Waits(0, true, true, {}, {});
            var w1 := Next(w0, Reads(reader, n, false));
            var w2 := Next(w1, Writes(writer, PIPESIZE + 1, true));
            IsRun([w0, w1, w2], [Reads(reader, n, false), Writes(writer, PIPESIZE + 1, true)]) &&
              reader in w2.readers && w2.bytes == PIPESIZE
  {
  }

  class Pipe {
    const data: array<byte>
    var nread: uint32
    var nwrite: uint32
    var readopen: bool
    var writeopen: bool
    ghost var accepted: seq<byte>
    ghost var delivered: seq<byte>
    ghost var readers: set<nat> // asleep on nread
    ghost var writers: set<nat> // asleep on nwrite

    ghost predicate Valid()
      reads this, data
    {
      Ring(data[..], nread, nwrite, accepted, delivered)
    }

    ghost function Waiting(): Waits
      requires Valid()
      reads this, data
    {
      Waits(|accepted| - |delivered|, readopen, writeopen, readers, writers)
    }

    /** pipealloc */
    constructor ()
      ensures Valid() && fresh(data) && accepted == delivered == [] && readopen && writeopen
      ensures Waiting() == Waits(0, true, true, {}, {})
    {
      data := new byte[PIPESIZE](_ => 0);
      nread, nwrite, readopen, writeopen := 0, 0, true, true;
      accepted, delivered := [], [];
      readers, writers := {}, {};
    }

    /** pipeclose */
    method Close(writable: bool)
      requires Valid()
      modifies this`readopen, this`writeopen, this`readers, this`writers
      ensures Valid() && writeopen == (old(writeopen) && !writable) && readopen == (old(readopen) && writable)
      ensures Waiting() == Next(old(Waiting()), Closes(writable))
    {
      if writable {
        writeopen := false;
        readers := {};
      } else {
        readopen := false;
        writers := {};
      }
    }

    /** A step of pipewrite, from byte i on, by a process p that is killed or not: it writes until all
        is written or the pipe is full, and then fails if nobody reads any more or sleeps. */
    method Write(addr: seq<byte>, i: nat, killed: bool, ghost p: nat) returns (r: Outcome, j: nat)
      requires Valid() && i <= |addr|
      modifies this`nwrite, this`accepted, this`readers, this`writers, data
      ensures Valid() && Waiting() == Next(old(Waiting()), Writes(p, |addr| - i, killed))
      ensures i <= j <= |addr| && accepted == old(accepted) + addr[i..j] && delivered == old(delivered)
      ensures j < |addr| ==> |accepted| == |delivered| + PIPESIZE
      ensures r == if j == |addr| then Done(|addr|) else if !readopen || killed then Failed else Slept
      ensures readers == if r.Failed? then old(readers) else {}
      ensures writers == if r.Slept? then old(writers) + {p} else old(writers)
    {
      j := i;
      InFlight(data[..], nread, nwrite, accepted, delivered);
      hide Ring;
      while j < |addr|
        invariant i <= j <= |addr| && Valid() && accepted == old(accepted) + addr[i..j] && delivered == old(delivered)
        invariant 0 <= |accepted| - |delivered| <= PIPESIZE && readers == old(readers) && writers == old(writers)
      {
        InFlight(data[..], nread, nwrite, accepted, delivered);
        if nwrite == (nread + PIPESIZE) % WRAP {
          if !readopen || killed {
            r := Failed;
          } else {
            readers, writers, r := {}, writers + {p}, Slept;
          }
          return;
        }
        Accept(data[..], nread, nwrite, accepted, delivered, addr[j]);
        ghost var d := data[..];
        data[nwrite % PIPESIZE] := addr[j];
        assert data[..] == d[nwrite % PIPESIZE := addr[j]];
        nwrite := (nwrite + 1) % WRAP;
        accepted := accepted + [addr[j]];
        assert addr[i..j] + [addr[j]] == addr[i..j + 1];
        j := j + 1;
      }
      readers := {};
      r := Done(|addr|);
    }

    /** A step of piperead for n bytes. When the pipe is empty and somebody may still write it sleeps,
        or fails if killed; otherwise it returns the next bytes, as many as there are up to n. */
    method Read(n: int, killed: bool, ghost p: nat) returns (r: Outcome, bytes: seq<byte>)
      requires Valid()
      modifies this`nread, this`delivered, this`readers, this`writers
      ensures Valid() && Waiting() == Next(old(Waiting()), Reads(p, n, killed))
      ensures accepted == old(accepted) && delivered == old(delivered) + bytes
      ensures r == if old(delivered == accepted) && writeopen then (if killed then Failed else Slept) else Done(|bytes|)
      ensures r.Done? ==> |bytes| == if n < 0 then 0 else if n < old(|accepted| - |delivered|) then n
              else old(|accepted| - |delivered|)
      ensures !r.Done? ==> bytes == []
      ensures writers == if r.Done? then {} else old(writers)
      ensures readers == if r.Slept? then old(readers) + {p} else old(readers)
    {
      bytes := [];
      InFlight(data[..], nread, nwrite, accepted, delivered);
      if nread == nwrite && writeopen {
        if killed {
          r := Failed;
        } else {
          readers, r := readers + {p}, Slept;
        }
        return;
      }
      assert delivered <= accepted;
      hide Ring;
      var i := 0;
      while i < n
        invariant 0 <= i && i == |bytes| && (if n >= 0 then i <= n else i == 0) && Valid() &&
                  accepted == old(accepted) && delivered == old(delivered) + bytes
        invariant |delivered| <= |accepted| && readers == old(readers) && writers == old(writers)
      {
        InFlight(data[..], nread, nwrite, accepted, delivered);
        if nread == nwrite {
          break;
        }
        Deliver(data[..], nread, nwrite, accepted, delivered);
        bytes := bytes + [data[nread % PIPESIZE]];
        delivered := delivered + [accepted[|delivered|]];
        nread := (nread + 1) % WRAP;
        i := i + 1;
      }
      writers := {};
      r := Done(i);
    }
  }
}
