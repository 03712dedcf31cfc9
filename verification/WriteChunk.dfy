/**
 write_chunk of the PAL sink: handing one chunk to pal_stream_write, which in compressed mode may
 take less than it is given. Positions are relative to the start of the chunk, so a delivered chunk
 of n bytes should read 0, 1, ..., n-1. The code moves its write address, which it has already advanced,
 by the total written so far, and credits only the last write: both are modelled as they are.
*/
module WriteChunk {

  const U64 := 0x1_0000_0000_0000_0000

  /** What one pass through the loop meets: PAL's answer, no stream handle, or close_output set. */
  datatype Attempt = Wrote(rc: int) | NoHandle | CloseSeen

  /** Why the loop ended; `Blocked` if it is still waiting for PAL when the attempts run out. */
  datatype Ending = Consumed | WriteError | HandleMissing | Closed | Blocked

  /** The byte counts that PAL accepted, in order, when `remaining` bytes are left to write. */
  function Writes(compressed: bool, remaining: int, attempts: seq<Attempt>): seq<nat> {
    if attempts == [] || !attempts[0].Wrote? || attempts[0].rc < 0 then []
    else
      var rc := attempts[0].rc;
      [rc] + if compressed && rc < remaining then Writes(compressed, remaining - rc, attempts[1..]) else []
  }

  function EndingOf(compressed: bool, remaining: int, attempts: seq<Attempt>): Ending {
    if attempts == [] then Blocked
    else
      match attempts[0]
      case CloseSeen => Closed
      case NoHandle => HandleMissing
      case Wrote(rc) =>
        if rc < 0 then WriteError
        else if compressed && rc < remaining then EndingOf(compressed, remaining - rc, attempts[1..])
        else Consumed
  }

  /** One pass of the loop, seen from the attempts that are left. */
  lemma Unroll(compressed: bool, remaining: int, attempts: seq<Attempt>, i: nat)
    requires i < |attempts|
    ensures var writes := Writes(compressed, remaining, attempts[i..]);
            match attempts[i]
            case Wrote(rc) =>
              if rc < 0 then writes == []
              else if compressed && rc < remaining then
                writes == [rc] + Writes(compressed, remaining - rc, attempts[i + 1..])
              else writes == [rc]
            case _ => writes == []
    ensures var ending := EndingOf(compressed, remaining, attempts[i..]);
            attempts[i].Wrote? && attempts[i].rc >= 0 && compressed && attempts[i].rc < remaining ==>
              ending == EndingOf(compressed, remaining - attempts[i].rc, attempts[i + 1..])
  {
    assert attempts[i..][1..] == attempts[i + 1..];
  }

  function Total(ws: seq<nat>): nat {
    if ws == [] then 0 else Total(ws[..|ws| - 1]) + ws[|ws| - 1]
  }

  /** The sum of the running totals w0, w0 + w1, ... of the writes. */
  function SumOfTotals(ws: seq<nat>): nat {
    if ws == [] then 0 else SumOfTotals(ws[..|ws| - 1]) + Total(ws)
  }

  function Range(from: int, count: nat): (r: seq<int>)
    ensures |r| == count
  {
    seq(count, i => from + i)
  }

  /** The positions that reach PAL if each write starts at the sum of the earlier running totals. */
  function Delivered(ws: seq<nat>): seq<int> {
    if ws == [] then []
    else Delivered(ws[..|ws| - 1]) + Range(SumOfTotals(ws[..|ws| - 1]), ws[|ws| - 1])
  }

  lemma Reassociate(ws: seq<nat>, w: nat, rest: seq<nat>)
    ensures ws + ([w] + rest) == (ws + [w]) + rest
  {
  }

  lemma SnocTotal(ws: seq<nat>, w: nat)
    ensures Total(ws + [w]) == Total(ws) + w
  {
    assert (ws + [w])[..|ws|] == ws;
  }

  lemma Snoc(ws: seq<nat>, w: nat)
    ensures Total(ws + [w]) == Total(ws) + w
    ensures SumOfTotals(ws + [w]) == SumOfTotals(ws) + Total(ws + [w])
    ensures Delivered(ws + [w]) == Delivered(ws) + Range(SumOfTotals(ws), w)
  {
    assert (ws + [w])[..|ws|] == ws;
  }

  /** What the loop adds to bytes_written: its last return code, and only on its way out. */
  function Credit(compressed: bool, remaining: int, attempts: seq<Attempt>): int {
    match EndingOf(compressed, remaining, attempts)
    case Consumed => Last(Writes(compressed, remaining, attempts))
    case HandleMissing => -1
    case _ => 0
  }

  function Last(ws: seq<nat>): nat {
    if ws == [] then 0 else ws[|ws| - 1]
  }

  /** Where the loop is after the short writes `written`: what it still has to do, and where from. */
  ghost predicate AfterShortWrites(compressed: bool, n: nat, attempts: seq<Attempt>, i: nat, size: int,
                                   written: seq<nat>)
  {
    && i <= |attempts|
    && Writes(compressed, n, attempts) == written + Writes(compressed, size, attempts[i..])
    && EndingOf(compressed, n, attempts) == EndingOf(compressed, size, attempts[i..])
    && size == n - Total(written)
  }

  lemma LoopEnds(compressed: bool, n: nat, attempts: seq<Attempt>, i: nat, size: int, written: seq<nat>)
    requires AfterShortWrites(compressed, n, attempts, i, size, written)
    requires i == |attempts| || !attempts[i].Wrote? || attempts[i].rc < 0
    ensures Writes(compressed, n, attempts) == written
    ensures EndingOf(compressed, n, attempts) ==
              if i == |attempts| then Blocked
              else if attempts[i].CloseSeen? then Closed
              else if attempts[i].NoHandle? then HandleMissing
              else WriteError
    ensures Credit(compressed, n, attempts) == if i < |attempts| && attempts[i].NoHandle? then -1 else 0
  {
    assert written + [] == written;
  }

  lemma LoopWritesShort(compressed: bool, n: nat, attempts: seq<Attempt>, i: nat, size: int, written: seq<nat>, rc: nat)
    requires AfterShortWrites(compressed, n, attempts, i, size, written)
    requires i < |attempts| && attempts[i] == Wrote(rc) && compressed && rc < size
    ensures AfterShortWrites(compressed, n, attempts, i + 1, size - rc, written + [rc])
  {
    Unroll(compressed, size, attempts, i);
    SnocTotal(written, rc);
    Reassociate(written, rc, Writes(compressed, size - rc, attempts[i + 1..]));
  }

  lemma LoopWritesLast(compressed: bool, n: nat, attempts: seq<Attempt>, i: nat, size: int, written: seq<nat>, rc: nat)
    requires AfterShortWrites(compressed, n, attempts, i, size, written)
    requires i < |attempts| && attempts[i] == Wrote(rc) && !(compressed && rc < size)
    ensures Writes(compressed, n, attempts) == written + [rc] && EndingOf(compressed, n, attempts) == Consumed
    ensures Credit(compressed, n, attempts) == rc
  {
    Unroll(compressed, size, attempts, i);
  }

  /** The same value as 64-bit words. */
  predicate SameWord(a: int, b: int) {
    (a - b) % U64 == 0
  }

  /** Adding an int to a uint64_t. */
  function Add64(a: nat, b: int): (r: nat)
    ensures r < U64 && SameWord(r, a + b)
    ensures 0 <= a + b < U64 ==> r == a + b
  {
    assert a + b == U64 * ((a + b) / U64) + (a + b) % U64;
    (a + b) % U64
  }

  lemma WordOf(a: nat, b: int)
    requires a < U64 && SameWord(a, b)
    ensures a == b % U64
  {
    var k := (a - b) / U64;
    assert a - b == U64 * k;
    assert b == U64 * (0 - k) + a;
  }

  lemma SameWordSum(a: int, b: int, c: int, n: int)
    requires SameWord(a, b) && SameWord(c, a + n)
    ensures SameWord(c, b + n)
  {
    var k, l := (a - b) / U64, (c - a - n) / U64;
    assert a - b == U64 * k && c - a - n == U64 * l;
    assert c - (b + n) == U64 * (k + l);
  }

  class SinkWriter {
    var compressed: bool
    var bytesWritten: nat
    var mutexHeld: bool

    constructor (compressed: bool)
      ensures this.compressed == compressed && bytesWritten == 0 && !mutexHeld
    {
      this.compressed := compressed;
      bytesWritten := 0;
      mutexHeld := false;
    }

    /**
     The loop of write_chunk. `delivered` lists the positions handed to PAL. A write error leaves
     the mutex locked; every other way out releases it.
    */
    method Write(n: nat, attempts: seq<Attempt>) returns (delivered: seq<int>, ending: Ending)
      requires !mutexHeld && bytesWritten < U64
      modifies this
      ensures compressed == old(compressed)
      ensures delivered == Delivered(Writes(compressed, n, attempts))
      ensures ending == EndingOf(compressed, n, attempts)
      ensures mutexHeld <==> ending == WriteError
      ensures bytesWritten == Add64(old(bytesWritten), Credit(compressed, n, attempts))
    {
      var size, position, i := n as int, 0, 0;
      ghost var written: seq<nat> := [];
      delivered := [];
      while i < |attempts|
        invariant 0 <= i <= |attempts| && !mutexHeld
        invariant compressed == old(compressed) && bytesWritten == old(bytesWritten)
        invariant AfterShortWrites(compressed, n, attempts, i, size, written)
        invariant position == SumOfTotals(written) && delivered == Delivered(written)
      {
        var attempt := attempts[i];
        if !attempt.Wrote? || attempt.rc < 0 {
          LoopEnds(compressed, n, attempts, i, size, written);
        }
        if attempt.CloseSeen? {
          return delivered, Closed;
        }
        mutexHeld := true;
        if attempt.Wrote? && attempt.rc < 0 {
          return delivered, WriteError;
        }
        mutexHeld := false;
        if attempt.NoHandle? {
          bytesWritten := Add64(bytesWritten, -1);
          return delivered, HandleMissing;
        }
        var rc: nat := attempt.rc;
        Snoc(written, rc);
        delivered := delivered + Range(position, rc);
        if compressed && rc < size {
          LoopWritesShort(compressed, n, attempts, i, size, written, rc);
          size := size - rc;
          position := position + n - size;
          i := i + 1;
          written := written + [rc];
        } else {
          LoopWritesLast(compressed, n, attempts, i, size, written, rc);
          bytesWritten := Add64(bytesWritten, rc);
          return delivered, Consumed;
        }
      }
      LoopEnds(compressed, n, attempts, i, size, written);
      ending := Blocked;
    }
  }

  // ---------------------------------------------------------------------------
  // When the chunk arrives

  lemma {:induction false} DeliveredLength(ws: seq<nat>)
    ensures |Delivered(ws)| == Total(ws)
  {
    if ws != [] {
      DeliveredLength(ws[..|ws| - 1]);
    }
  }

  predicate AllZero(ws: seq<nat>) {
    forall i :: 0 <= i < |ws| ==> ws[i] == 0
  }

  lemma {:induction false} ZeroTotals(ws: seq<nat>)
    ensures Total(ws) == 0 <==> AllZero(ws)
    ensures SumOfTotals(ws) == 0 <==> AllZero(ws)
  {
    if ws != [] {
      ZeroTotals(ws[..|ws| - 1]);
    }
  }

  lemma {:induction false} NothingDelivered(ws: seq<nat>)
    requires AllZero(ws)
    ensures Delivered(ws) == []
  {
    DeliveredLength(ws);
    ZeroTotals(ws);
  }

  lemma WholeIfNothingEarly(early: seq<nat>, w: nat, last: nat)
    requires AllZero(early)
    ensures Delivered(early + [w] + [last]) == Range(0, Total(early + [w] + [last]))
  {
    NothingDelivered(early);
    ZeroTotals(early);
    Snoc(early, w);
    Snoc(early + [w], last);
  }

  /** Otherwise the last write starts too far on, by the sum of the running totals in `early`. */
  lemma ShiftedIfSomethingEarly(early: seq<nat>, w: nat, last: nat)
    requires !AllZero(early) && last > 0
    ensures Delivered(early + [w] + [last]) != Range(0, Total(early + [w] + [last]))
  {
    var front := early + [w];
    var ws := front + [last];
    ZeroTotals(early);
    Snoc(early, w);
    Snoc(front, last);
    DeliveredLength(front);
    assert Delivered(ws)[Total(ws) - 1] == Range(SumOfTotals(front), last)[last - 1];
    assert Range(0, Total(ws))[Total(ws) - 1] == Total(ws) - 1;
  }

  lemma SplitLastTwo(ws: seq<nat>)
    requires |ws| >= 2
    ensures ws == ws[..|ws| - 2] + [ws[|ws| - 2]] + [ws[|ws| - 1]]
  {
  }

  lemma OneWrite(w: nat)
    ensures Delivered([w]) == Range(0, Total([w]))
  {
    Snoc([], w);
    assert [] + [w] == [w];
  }

  /** What PAL receives is the chunk, in order, if and only if all writes but the last two took nothing. */
  lemma DeliveredInOrderIff(ws: seq<nat>)
    requires ws != [] && Last(ws) > 0
    ensures Delivered(ws) == Range(0, Total(ws)) <==> |ws| == 1 || AllZero(ws[..|ws| - 2])
  {
    hide Delivered, Total, Range;
    if |ws| == 1 {
      OneWrite(ws[0]);
      assert ws == [ws[0]];
    } else {
      SplitLastTwo(ws);
      var early, w, last := ws[..|ws| - 2], ws[|ws| - 2], ws[|ws| - 1];
      if AllZero(early) {
        WholeIfNothingEarly(early, w, last);
      } else {
        ShiftedIfSomethingEarly(early, w, last);
      }
    }
  }

  lemma {:induction false} PrependTotal(w: nat, ws: seq<nat>)
    ensures Total([w] + ws) == w + Total(ws)
  {
    if ws == [] {
      assert [w] + ws == [w];
      assert Total([w]) == Total([w][..0]) + w;
    } else {
      var all := [w] + ws;
      assert all[..|all| - 1] == [w] + ws[..|ws| - 1];
      PrependTotal(w, ws[..|ws| - 1]);
    }
  }

  /** A compressed chunk is left only with the write that takes the rest, which is not nothing. */
  lemma {:induction false} ConsumedTakesAll(remaining: nat, attempts: seq<Attempt>)
    requires remaining > 0 && EndingOf(true, remaining, attempts) == Consumed
    requires Total(Writes(true, remaining, attempts)) <= remaining
    ensures var ws := Writes(true, remaining, attempts);
            ws != [] && Last(ws) > 0 && Total(ws) == remaining
    decreases |attempts|
  {
    var rc := attempts[0].rc;
    if rc < remaining {
      PrependTotal(rc, Writes(true, remaining - rc, attempts[1..]));
      ConsumedTakesAll(remaining - rc, attempts[1..]);
    } else {
      assert Writes(true, remaining, attempts) == [rc];
      PrependTotal(rc, []);
    }
  }

  /**
   A compressed chunk that the loop regards as consumed reached PAL whole and in order exactly if
   no nonzero short write preceded the last one, and was fully credited exactly if there was none.
  */
  lemma {:induction false} CompressedChunk(n: nat, attempts: seq<Attempt>)
    requires n > 0 && EndingOf(true, n, attempts) == Consumed
    requires Total(Writes(true, n, attempts)) <= n  // PAL takes no more than it is given
    ensures var ws := Writes(true, n, attempts);
            && |ws| >= 1
            && (Delivered(ws) == Range(0, n) <==> |ws| == 1 || AllZero(ws[..|ws| - 2]))
            && (Credit(true, n, attempts) == n <==> AllZero(ws[..|ws| - 1]))
  {
    var ws := Writes(true, n, attempts);
    ConsumedTakesAll(n, attempts);
    DeliveredInOrderIff(ws);
    ZeroTotals(ws[..|ws| - 1]);
  }

  /** A PCM chunk gets one write: what that takes is delivered and credited, the rest is dropped. */
  lemma {:induction false} PcmChunk(n: nat, attempts: seq<Attempt>)
    requires EndingOf(false, n, attempts) == Consumed
    ensures var ws := Writes(false, n, attempts);
            && |ws| == 1 && Delivered(ws) == Range(0, ws[0]) && Credit(false, n, attempts) == ws[0]
            && (Delivered(ws) == Range(0, n) <==> ws[0] == n)
  {
    var ws := Writes(false, n, attempts);
    assert ws[..0] == [] && Delivered(ws) == [] + Range(0, ws[0]);
    assert |Range(0, n)| == n;
  }

  /** While every write takes at least a byte, the loop needs no more passes than the chunk has bytes. */
  lemma {:induction false} ProgressEndsTheLoop(compressed: bool, n: nat, attempts: seq<Attempt>)
    requires n > 0 && |attempts| >= n
    requires forall i :: 0 <= i < |attempts| ==> attempts[i].Wrote? && attempts[i].rc > 0
    ensures EndingOf(compressed, n, attempts) == Consumed
    decreases n
  {
    if compressed && attempts[0].rc < n {
      ProgressEndsTheLoop(compressed, n - attempts[0].rc, attempts[1..]);
    }
  }

  /** Where each write would start if the offset were the length minus what remains. */
  function DeliveredByRemainder(ws: seq<nat>): seq<int> {
    if ws == [] then []
    else DeliveredByRemainder(ws[..|ws| - 1]) + Range(Total(ws[..|ws| - 1]), ws[|ws| - 1])
  }

  /** With that offset every sequence of short writes delivers the chunk in order. */
  lemma {:induction false} RemainderOffsetIsAlwaysRight(ws: seq<nat>)
    ensures DeliveredByRemainder(ws) == Range(0, Total(ws))
  {
    if ws != [] {
      RemainderOffsetIsAlwaysRight(ws[..|ws| - 1]);
    }
  }
}
