/**
 The Bluetooth playback client: stream_write_cb hands the input to libpulse in whole frames and
 carries a partial frame over to the next callback. libpulse decides how much each callback may
 write and whether a call fails.
*/
module PlaybackClient {
  import opened FrameArithmetic

  type Bytes = seq<bv8>

  const INT_MAX := 0x7FFF_FFFF

  /** What libpulse does in one callback: it is not ready, refuses a buffer, or grants one. */
  datatype Event = NotReady | BeginFails | Granted(size: nat, writeOk: bool)

  /** What the globals amount to, plus everything written to the stream so far. */
  datatype Playback = Playback(
    pending: Bytes,
    partial: Bytes,
    written: Bytes,
    streamOpen: bool,
    writeDone: bool,
    quit: bool)

  function Min(a: nat, b: nat): nat {
    if a < b then a else b
  }

  /** The libpulse buffer after the cached partial frame and the next input were copied into it. */
  function Filled(p: Playback, size: nat): Bytes
    requires |p.partial| <= size
  {
    p.partial + p.pending[..Min(|p.pending|, size - |p.partial|)]
  }

  predicate Allowed(p: Playback, e: Event) {
    e.Granted? ==> |p.partial| <= e.size <= INT_MAX
  }

  /** What one callback does. */
  function Callback(p: Playback, frame: nat, e: Event): Playback
    requires frame > 0 && Allowed(p, e)
  {
    if !p.streamOpen then p
    else
      match e
      case NotReady => p
      case BeginFails => p.(quit := true)
      case Granted(size, writeOk) =>
        var data := Filled(p, size);
        var taken := |data| - |p.partial|;
        if taken == 0 then p.(streamOpen := false, writeDone := true)
        else
          var aligned := Align(|data|, frame);
          var q := p.(pending := p.pending[taken..], partial := data[aligned..]);
          if aligned > 0 && !writeOk then q.(quit := true)
          else q.(written := p.written + data[..aligned], writeDone := p.writeDone || q.pending == [])
  }

  class Client {
    const frameSize: nat
    const partialBuffer: array<bv8>
    var input: Bytes
    var position: nat
    var remaining: nat
    var partialLength: nat
    var streamOpen: bool
    var writeDone: bool
    var quit: bool
    ghost var written: Bytes

    ghost predicate Valid()
      reads this, partialBuffer
    {
      && frameSize > 0 && partialBuffer.Length == frameSize
      && position + remaining == |input|
      && partialLength < frameSize
    }

    ghost function View(): Playback
      requires Valid()
      reads this, partialBuffer
    {
      Playback(input[position..], partialBuffer[..partialLength], written, streamOpen, writeDone, quit)
    }

    constructor (frameSize: nat, buffer: Bytes)
      requires frameSize > 0
      ensures Valid() && fresh(partialBuffer) && this.frameSize == frameSize
      ensures View() == Playback(buffer, [], [], true, false, false)
    {
      this.frameSize := frameSize;
      partialBuffer := new bv8[frameSize];
      input, position, remaining := buffer, 0, |buffer|;
      partialLength := 0;
      streamOpen, writeDone, quit := true, false, false;
      written := [];
    }

    method CachePartial(rest: Bytes)
      requires |rest| < frameSize == partialBuffer.Length
      modifies this`partialLength, partialBuffer
      ensures partialLength == |rest| && partialBuffer[..partialLength] == rest
    {
      partialLength := |rest|;
      forall i | 0 <= i < partialLength {
        partialBuffer[i] := rest[i];
      }
    }

    /** stream_write_cb */
    method StreamWriteCallback(e: Event)
      requires Valid() && Allowed(View(), e)
      modifies this, partialBuffer
      ensures Valid() && input == old(input)
      ensures View() == Callback(old(View()), frameSize, e)
    {
      if !streamOpen || e.NotReady? {
        return;
      }
      if e.BeginFails? {
        quit := true;
        return;
      }
      WriteGranted(e.size, e.writeOk);
    }

    /** Cache what is left of a whole frame, and write the rest if there is any. */
    method WriteFrames(data: Bytes, writeOk: bool) returns (ok: bool)
      requires frameSize > 0 && partialBuffer.Length == frameSize
      modifies this`partialLength, this`written, this`quit, partialBuffer
      ensures var aligned := Align(|data|, frameSize); var fails := aligned > 0 && !writeOk;
        && partialLength < frameSize && partialBuffer[..partialLength] == data[aligned..]
        && written == (if fails then old(written) else old(written) + data[..aligned])
        && quit == (old(quit) || fails) && ok == !fails
    {
      var writeBytes := Align(|data|, frameSize);
      CachePartial(data[writeBytes..]);
      if writeBytes > 0 && !writeOk {
        quit := true;
        return false;
      }
      written := written + data[..writeBytes];
      ok := true;
    }

    /** The callback once libpulse has granted a buffer. */
    method WriteGranted(size: nat, writeOk: bool)
      requires Valid() && streamOpen && Allowed(View(), Granted(size, writeOk))
      modifies this, partialBuffer
      ensures Valid() && input == old(input)
      ensures View() == Callback(old(View()), frameSize, Granted(size, writeOk))
    {
      var avail := if remaining <= size - partialLength then remaining else size - partialLength;
      if avail == 0 {
        assert Filled(old(View()), size) == old(View()).partial;
        streamOpen, writeDone := false, true;
        return;
      }
      assert input[position + avail..] == old(View()).pending[avail..];
      var data := partialBuffer[..partialLength] + input[position..position + avail];
      assert data == Filled(old(View()), size);
      hide Align, Filled;
      position := position + avail;
      remaining := remaining - avail;
      var ok := WriteFrames(data, writeOk);
      if ok && remaining == 0 {
        writeDone := true;
      }
    }
  }

  // ---------------------------------------------------------------------------
  // Conservation

  /** No byte of the input is lost, repeated or reordered, and writes and cache are as they should. */
  ghost predicate Conserved(p: Playback, frame: nat, input: Bytes)
    requires frame > 0
  {
    && p.written + p.partial + p.pending == input
    && |p.written| % frame == 0
    && |p.partial| < frame
    && (!p.streamOpen ==> p.pending == [])
    && (p.writeDone ==> p.pending == [])
  }

  /** libpulse hands out at least a frame and takes what it is given. */
  predicate Cooperative(e: Event, frame: nat) {
    e.Granted? ==> frame <= e.size <= INT_MAX && e.writeOk
  }

  /** A grant with input pending, in its parts. */
  lemma GrantParts(p: Playback, frame: nat, size: nat)
    requires frame > 0 && p.streamOpen && p.pending != [] && |p.partial| < size <= INT_MAX
    ensures var data := Filled(p, size); var taken := |data| - |p.partial|; var aligned := Align(|data|, frame);
            var q := Callback(p, frame, Granted(size, true));
      && 0 < taken <= |p.pending| && data == p.partial + p.pending[..taken]
      && q.pending == p.pending[taken..] && q.partial == data[aligned..] && q.written == p.written + data[..aligned]
      && q.streamOpen && (q.writeDone ==> p.writeDone || q.pending == [])
  {
    hide Align;
  }

  /** The data moves on, in whole frames, and nothing is dropped. */
  lemma GrantConserves(p: Playback, frame: nat, size: nat, input: Bytes)
    requires frame > 0 && Conserved(p, frame, input) && frame <= size <= INT_MAX
    requires p.streamOpen && p.pending != []
    ensures var q := Callback(p, frame, Granted(size, true)); Conserved(q, frame, input) && |q.pending| < |p.pending|
  {
    hide Callback, Filled, Align;
    var q := Callback(p, frame, Granted(size, true));
    var data := Filled(p, size);
    var taken := |data| - |p.partial|;
    var aligned := Align(|data|, frame);
    GrantParts(p, frame, size);
    SumOfMultiples(|p.written|, aligned, frame);
    assert q.written + q.partial == p.written + data;
    assert p.pending == p.pending[..taken] + p.pending[taken..];
  }

  lemma CallbackConserves(p: Playback, frame: nat, e: Event, input: Bytes)
    requires frame > 0 && Conserved(p, frame, input) && Cooperative(e, frame)
    ensures Conserved(Callback(p, frame, e), frame, input)
    ensures p.streamOpen && e.Granted? && p.pending != [] ==> |Callback(p, frame, e).pending| < |p.pending|
  {
    if p.streamOpen && e.Granted? && p.pending != [] {
      hide Callback, Conserved, Filled;
      GrantConserves(p, frame, e.size, input);
    } else {
      hide Align;
    }
  }

  predicate AllCooperative(events: seq<Event>, frame: nat) {
    forall i :: 0 <= i < |events| ==> Cooperative(events[i], frame)
  }

  function Play(p: Playback, frame: nat, events: seq<Event>): Playback
    requires frame > 0 && |p.partial| < frame
    requires AllCooperative(events, frame)
    decreases |events|
  {
    if events == [] then p
    else
      assert Cooperative(events[0], frame);
      Play(Callback(p, frame, events[0]), frame, events[1..])
  }

  function Grants(events: seq<Event>): nat {
    if events == [] then 0 else (if events[0].Granted? then 1 else 0) + Grants(events[1..])
  }

  lemma {:induction false} PlayConserves(p: Playback, frame: nat, events: seq<Event>, input: Bytes)
    requires frame > 0 && Conserved(p, frame, input)
    requires AllCooperative(events, frame)
    ensures Conserved(Play(p, frame, events), frame, input)
    ensures |Play(p, frame, events).pending| == 0 || |Play(p, frame, events).pending| + Grants(events) <= |p.pending|
    decreases |events|
  {
    if events != [] {
      CallbackConserves(p, frame, events[0], input);
      PlayConserves(Callback(p, frame, events[0]), frame, events[1..], input);
    }
  }

  lemma {:induction false} WholeFramesAreWritten(p: Playback, frame: nat, input: Bytes)
    requires frame > 0 && Conserved(p, frame, input) && p.pending == []
    ensures p.written == input[..Align(|input|, frame)] && p.partial == input[Align(|input|, frame)..]
  {
    var aligned := Align(|input|, frame);
    var w := |p.written|;
    assert |input| == w + |p.partial|;
    assert w == frame * (w / frame);
    QuotientIs(|input|, frame, w / frame);
    assert input[..w] == p.written && input[w..] == p.partial;
  }

  /**
   For every input, frame size and sequence of callbacks: what was written followed by the cached
   partial frame is the consumed prefix of the input, in whole frames; and once libpulse has
   granted as many buffers as the input has bytes, exactly the whole frames have been written.
  */
  lemma {:induction false} PlaybackConservation(input: Bytes, frame: nat, events: seq<Event>)
    requires frame > 0 && AllCooperative(events, frame)
    ensures var p := Play(Playback(input, [], [], true, false, false), frame, events);
            && Conserved(p, frame, input)
            && (p.pending == [] || Grants(events) < |input|)
            && (p.pending == [] ==> p.written == input[..Align(|input|, frame)])
  {
    var p := Playback(input, [], [], true, false, false);
    assert [] + [] + input == input;
    PlayConserves(p, frame, events, input);
    var q := Play(p, frame, events);
    if q.pending == [] {
      WholeFramesAreWritten(q, frame, input);
    }
  }

  /** A grant ends the stream with input still pending exactly if the cached partial frame fills it. */
  lemma DrainsEarlyExactlyIf(p: Playback, frame: nat, e: Event)
    requires frame > 0 && Allowed(p, e) && p.streamOpen && e.Granted? && p.pending != []
    ensures !Callback(p, frame, e).streamOpen <==> e.size == |p.partial|
  {
  }

  /** A failing write drops what it was given: the aligned bytes are in none of the three places. */
  lemma FailedWriteLengths(p: Playback, frame: nat, size: nat)
    requires frame > 0 && p.streamOpen && |p.partial| <= size <= INT_MAX
    ensures var q := Callback(p, frame, Granted(size, false));
            var aligned := Align(|Filled(p, size)|, frame);
            aligned > 0 && |p.partial| < frame ==>
              |q.written| + |q.partial| + |q.pending| == |p.written| + |p.partial| + |p.pending| - aligned
  {
    var data := Filled(p, size);
    var taken := |data| - |p.partial|;
    var aligned := Align(|data|, frame);
    if aligned > 0 && |p.partial| < frame {
      if |data| < frame {
        LessThanAFrame(|data|, frame);
      }
      assert taken > 0;
      var q := p.(pending := p.pending[taken..], partial := data[aligned..], quit := true);
      assert Callback(p, frame, Granted(size, false)) == q;
      hide Callback, Filled, Align;
    }
  }

  /** When pa_stream_write fails, the input stays accounted for exactly if there was no whole frame to write. */
  lemma FailedWriteConservesExactlyIf(p: Playback, frame: nat, size: nat, input: Bytes)
    requires frame > 0 && Conserved(p, frame, input) && p.streamOpen && frame <= size <= INT_MAX
    ensures Conserved(Callback(p, frame, Granted(size, false)), frame, input)
            <==> Align(|Filled(p, size)|, frame) == 0
  {
    var q := Callback(p, frame, Granted(size, false));
    var aligned := Align(|Filled(p, size)|, frame);
    if aligned == 0 {
      assert q == Callback(p, frame, Granted(size, true));
      hide Callback, Filled;
      CallbackConserves(p, frame, Granted(size, true), input);
    } else {
      FailedWriteLengths(p, frame, size);
      hide Callback, Filled;
      assert |input| == |p.written| + |p.partial| + |p.pending|;
    }
  }

  // ---------------------------------------------------------------------------
  // Whatever libpulse does

  predicate ValidRun(p: Playback, frame: nat, events: seq<Event>)
    requires frame > 0
    decreases |events|
  {
    events == [] || (Allowed(p, events[0]) && ValidRun(Callback(p, frame, events[0]), frame, events[1..]))
  }

  function After(p: Playback, frame: nat, events: seq<Event>): Playback
    requires frame > 0 && ValidRun(p, frame, events)
    decreases |events|
  {
    if events == [] then p else After(Callback(p, frame, events[0]), frame, events[1..])
  }

  /** A buffer is refused, or the write of at least one whole frame fails. */
  predicate Fails(p: Playback, frame: nat, e: Event)
    requires Allowed(p, e)
  {
    p.streamOpen &&
    (e.BeginFails? || (e.Granted? && !e.writeOk && |p.partial| + Min(|p.pending|, e.size - |p.partial|) >= frame))
  }

  /** A buffer is granted to which no input can be added. */
  predicate Ends(p: Playback, e: Event) {
    p.streamOpen && e.Granted? && (p.pending == [] || e.size == |p.partial|)
  }

  /** A buffer is granted that takes all of the input left, and its write does not fail. */
  predicate TakesAll(p: Playback, frame: nat, e: Event)
    requires Allowed(p, e)
  {
    p.streamOpen && e.Granted? && |p.pending| <= e.size - |p.partial| && !Fails(p, frame, e)
  }

  predicate EverFails(p: Playback, frame: nat, events: seq<Event>)
    requires frame > 0 && ValidRun(p, frame, events)
    decreases |events|
  {
    events != [] && (Fails(p, frame, events[0]) || EverFails(Callback(p, frame, events[0]), frame, events[1..]))
  }

  predicate EverEnds(p: Playback, frame: nat, events: seq<Event>)
    requires frame > 0 && ValidRun(p, frame, events)
    decreases |events|
  {
    events != [] && (Ends(p, events[0]) || EverEnds(Callback(p, frame, events[0]), frame, events[1..]))
  }

  predicate EverTakesAll(p: Playback, frame: nat, events: seq<Event>)
    requires frame > 0 && ValidRun(p, frame, events)
    decreases |events|
  {
    events != [] && (TakesAll(p, frame, events[0]) || EverTakesAll(Callback(p, frame, events[0]), frame, events[1..]))
  }

  /** The whole frames of what a granted buffer was filled with. */
  function Handed(p: Playback, frame: nat, e: Event): Bytes
    requires frame > 0 && Allowed(p, e)
  {
    if p.streamOpen && e.Granted? && !Ends(p, e) then Filled(p, e.size)[..Align(|Filled(p, e.size)|, frame)] else []
  }

  /** All that was handed to pa_stream_write, or all of which the write did not fail. */
  function AllHanded(p: Playback, frame: nat, events: seq<Event>, onlyWritten: bool): Bytes
    requires frame > 0 && ValidRun(p, frame, events)
    decreases |events|
  {
    if events == [] then []
    else
      (if onlyWritten && Fails(p, frame, events[0]) then [] else Handed(p, frame, events[0]))
      + AllHanded(Callback(p, frame, events[0]), frame, events[1..], onlyWritten)
  }

  lemma CallbackFlags(p: Playback, frame: nat, e: Event)
    requires frame > 0 && |p.partial| < frame && Allowed(p, e)
    ensures var q := Callback(p, frame, e);
      && |q.partial| < frame
      && (q.quit <==> p.quit || Fails(p, frame, e))
      && (q.streamOpen <==> p.streamOpen && !Ends(p, e))
      && (q.writeDone <==> p.writeDone || Ends(p, e) || TakesAll(p, frame, e))
  {
    if p.streamOpen && e.Granted? {
      FailsExactlyIf(p, frame, e);
      hide Align;
    }
  }

  /** What the client still has of the input. */
  function Kept(p: Playback): Bytes {
    p.partial + p.pending
  }

  lemma FilledFrom(p: Playback, size: nat)
    requires |p.partial| <= size
    ensures var taken := |Filled(p, size)| - |p.partial|;
      0 <= taken <= |p.pending| && Filled(p, size) + p.pending[taken..] == Kept(p)
  {
    var taken := |Filled(p, size)| - |p.partial|;
    assert p.pending == p.pending[..taken] + p.pending[taken..];
  }

  lemma Regroup(data: Bytes, n: nat, rest: Bytes)
    requires n <= |data|
    ensures data[..n] + (data[n..] + rest) == data + rest
  {
    assert data[..n] + data[n..] == data;
  }

  /** A grant that there is room and input for. */
  lemma GrantMoves(p: Playback, frame: nat, e: Event)
    requires frame > 0 && Allowed(p, e) && p.streamOpen && e.Granted? && !Ends(p, e)
    ensures var data := Filled(p, e.size); var aligned := Align(|data|, frame); var q := Callback(p, frame, e);
      && |data| - |p.partial| <= |p.pending|
      && Kept(q) == data[aligned..] + p.pending[|data| - |p.partial|..]
      && q.written == p.written + (if aligned > 0 && !e.writeOk then [] else data[..aligned])
      && Handed(p, frame, e) == data[..aligned]
  {
    hide Align;
  }

  lemma FailsExactlyIf(p: Playback, frame: nat, e: Event)
    requires frame > 0 && |p.partial| < frame && Allowed(p, e) && p.streamOpen && e.Granted?
    ensures Fails(p, frame, e) <==> Align(|Filled(p, e.size)|, frame) > 0 && !e.writeOk
  {
    var n := |Filled(p, e.size)|;
    if n < frame {
      LessThanAFrame(n, frame);
    }
    hide Align;
  }

  lemma GrantKeeps(p: Playback, frame: nat, e: Event)
    requires frame > 0 && |p.partial| < frame && Allowed(p, e) && p.streamOpen && e.Granted? && !Ends(p, e)
    ensures var q := Callback(p, frame, e);
      && Handed(p, frame, e) + Kept(q) == Kept(p)
      && q.written == p.written + if Fails(p, frame, e) then [] else Handed(p, frame, e)
  {
    hide Callback, Handed, Fails, Ends, Align, Filled, Kept;
    var data := Filled(p, e.size);
    GrantMoves(p, frame, e);
    FailsExactlyIf(p, frame, e);
    FilledFrom(p, e.size);
    Regroup(data, Align(|data|, frame), p.pending[|data| - |p.partial|..]);
  }

  lemma CallbackMoves(p: Playback, frame: nat, e: Event)
    requires frame > 0 && |p.partial| < frame && Allowed(p, e)
    ensures var q := Callback(p, frame, e);
      && Handed(p, frame, e) + Kept(q) == Kept(p)
      && q.written == p.written + if Fails(p, frame, e) then [] else Handed(p, frame, e)
  {
    if p.streamOpen && e.Granted? && !Ends(p, e) {
      GrantKeeps(p, frame, e);
      hide Callback, Handed, Fails, Kept;
    } else {
      assert [] + Kept(p) == Kept(p);
      assert Kept(Callback(p, frame, e)) == Kept(p) && Handed(p, frame, e) == [];
      hide Align, Filled;
    }
  }

  lemma {:induction false} RunFlags(p: Playback, frame: nat, events: seq<Event>)
    requires frame > 0 && |p.partial| < frame && ValidRun(p, frame, events)
    ensures var q := After(p, frame, events);
      && (q.quit <==> p.quit || EverFails(p, frame, events))
      && (q.streamOpen <==> p.streamOpen && !EverEnds(p, frame, events))
      && (q.writeDone <==> p.writeDone || EverEnds(p, frame, events) || EverTakesAll(p, frame, events))
    decreases |events|
  {
    if events != [] {
      CallbackFlags(p, frame, events[0]);
      hide Callback, Fails, Ends, TakesAll, Allowed;
      RunFlags(Callback(p, frame, events[0]), frame, events[1..]);
    }
  }

  lemma {:induction false} RunMoves(p: Playback, frame: nat, events: seq<Event>)
    requires frame > 0 && |p.partial| < frame && ValidRun(p, frame, events)
    ensures var q := After(p, frame, events);
      && AllHanded(p, frame, events, false) + Kept(q) == Kept(p)
      && q.written == p.written + AllHanded(p, frame, events, true)
    decreases |events|
  {
    hide Callback, Fails, Ends, TakesAll, Allowed, Handed, Kept;
    if events == [] {
      assert [] + Kept(p) == Kept(p);
    } else {
      var q := Callback(p, frame, events[0]);
      CallbackFlags(p, frame, events[0]);
      CallbackMoves(p, frame, events[0]);
      RunMoves(q, frame, events[1..]);
      var rest := AllHanded(q, frame, events[1..], false);
      assert Handed(p, frame, events[0]) + rest + Kept(After(p, frame, events)) ==
             Handed(p, frame, events[0]) + (rest + Kept(After(p, frame, events)));
    }
  }

  /**
   For every input and whatever libpulse does: the input is what was handed to it, in order and once each, then
   the cached partial frame and what is pending; what was written is that less the writes that failed.
  */
  lemma EveryByteIsHandedOnce(input: Bytes, frame: nat, events: seq<Event>)
    requires frame > 0 && ValidRun(Playback(input, [], [], true, false, false), frame, events)
    ensures var p := Playback(input, [], [], true, false, false);
            var q := After(p, frame, events);
      && AllHanded(p, frame, events, false) + Kept(q) == input
      && q.written == AllHanded(p, frame, events, true)
  {
    var p := Playback(input, [], [], true, false, false);
    RunMoves(p, frame, events);
    assert Kept(p) == input;
    assert [] + AllHanded(p, frame, events, true) == AllHanded(p, frame, events, true);
    hide Kept, AllHanded, After, ValidRun;
  }

  /**
   And the client is told to quit exactly if a buffer was refused or the write of a whole frame failed; the stream
   is given up exactly if a grant had no room or no input; and the writing counts as done exactly then, or once
   a grant has taken the last of the input.
  */
  lemma FlagsSay(input: Bytes, frame: nat, events: seq<Event>)
    requires frame > 0 && ValidRun(Playback(input, [], [], true, false, false), frame, events)
    ensures var p := Playback(input, [], [], true, false, false);
            var q := After(p, frame, events);
      && (q.quit <==> EverFails(p, frame, events))
      && (!q.streamOpen <==> EverEnds(p, frame, events))
      && (q.writeDone <==> EverEnds(p, frame, events) || EverTakesAll(p, frame, events))
  {
    RunFlags(Playback(input, [], [], true, false, false), frame, events);
  }
}
