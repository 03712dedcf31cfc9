/** PAL's streams, as its callers see them: those opened and not yet closed, and whether each is started. */
module PalStreams {

  datatype Pal = Pal(streams: map<nat, bool>, next: nat)

  ghost predicate Valid(p: Pal) {
    forall h :: h in p.streams ==> h < p.next
  }

  /** The stream opened gets the handle `p.next`. */
  function Opened(p: Pal): Pal {
    Pal(p.streams[p.next := false], p.next + 1)
  }

  function Set(p: Pal, h: nat, started: bool): Pal {
    Pal(if h in p.streams then p.streams[h := started] else p.streams, p.next)
  }

  /** Closing is counted when asked for, whatever code it returns. */
  function Closed(p: Pal, h: nat): Pal {
    Pal(p.streams - {h}, p.next)
  }

  predicate Playing(p: Pal, h: nat) {
    h in p.streams && p.streams[h]
  }

  lemma OpenedKeeps(p: Pal)
    requires Valid(p)
    ensures Valid(Opened(p)) && p.next !in p.streams
  {
  }
}

/**
 The hands-free pair of loopback streams: receive (Bluetooth to speaker) and transmit (microphone to
 Bluetooth), acquired one after the other and given back when a later step fails.
*/
module Hfp {
  import opened PalStreams
  import opened Wrappers

  datatype BtSco = BtSco(running: bool, rx: Option<nat>, tx: Option<nat>, rate: nat)

  /** What the loopback configuration gives: all four ports, and the rate of the receive input port. */
  datatype Ports = Ports(present: bool, rxRate: nat)

  /** Return codes of the PAL calls, in the order the code makes them. */
  datatype StartCodes = StartCodes(params: int, rxOpen: int, rxStart: int, txOpen: int, txStart: int)

  datatype StopCodes = StopCodes(rxStop: int, rxClose: int, txStop: int, txClose: int)

  const EINVAL := 22
  const E_FAILURE := -1

  datatype Outcome = Outcome(sco: BtSco, pal: Pal, rc: int)

  function WithoutRx(b: BtSco): BtSco {
    b.(rx := None)
  }

  function WithoutStreams(b: BtSco): BtSco {
    b.(rx := None, tx := None)
  }

  /** With the receive stream `rx` open and started. */
  function StartTx(b: BtSco, p: Pal, rx: nat, o: StartCodes): Outcome {
    if o.txOpen != 0 then Outcome(WithoutStreams(b), Closed(Set(p, rx, false), rx), o.txOpen)
    else
      var tx := p.next;
      if o.txStart != 0 then
        Outcome(WithoutStreams(b), Closed(Set(Closed(Opened(p), tx), rx, false), rx), o.txStart)
      else Outcome(BtSco(true, Some(rx), Some(tx), b.rate), Set(Opened(p), tx, true), 0)
  }

  function StartHfp(b: BtSco, p: Pal, ports: Ports, o: StartCodes): Outcome {
    if !ports.present then Outcome(b, p, -EINVAL)
    else if b.rate != ports.rxRate && o.params != 0 then Outcome(b, p, o.params)
    else if o.rxOpen != 0 then Outcome(WithoutRx(b), p, o.rxOpen)
    else
      var rx := p.next;
      if o.rxStart != 0 then Outcome(WithoutRx(b), Closed(Opened(p), rx), o.rxStart)
      else StartTx(b, Set(Opened(p), rx, true), rx, o)
  }

  function StopTx(b: BtSco, p: Pal, o: StopCodes): Outcome {
    if b.tx.None? then Outcome(b, p, 0)
    else
      var tx := b.tx.value;
      if o.txStop != 0 then Outcome(b, p, o.txStop)
      else if o.txClose != 0 then Outcome(b, Closed(Set(p, tx, false), tx), o.txClose)
      else Outcome(b.(tx := None), Closed(Set(p, tx, false), tx), 0)
  }

  function StopHfp(b: BtSco, p: Pal, o: StopCodes): Outcome {
    if !b.running then Outcome(b, p, E_FAILURE)
    else
      var s := b.(running := false);
      if s.rx.None? then StopTx(s, p, o)
      else
        var rx := s.rx.value;
        if o.rxStop != 0 then Outcome(s, p, o.rxStop)
        else if o.rxClose != 0 then Outcome(s, Closed(Set(p, rx, false), rx), o.rxClose)
        else StopTx(s.(rx := None), Closed(Set(p, rx, false), rx), o)
  }

  // ---------------------------------------------------------------------------
  // All or nothing

  predicate AllSucceed(b: BtSco, ports: Ports, o: StartCodes) {
    && ports.present && (b.rate != ports.rxRate ==> o.params == 0)
    && o.rxOpen == 0 && o.rxStart == 0 && o.txOpen == 0 && o.txStart == 0
  }

  lemma OpenThenClose(p: Pal)
    requires Valid(p)
    ensures Closed(Opened(p), p.next).streams == p.streams
    ensures Closed(Set(Opened(p), p.next, true), p.next).streams == p.streams
  {
    assert p.next !in p.streams;
  }

  lemma SetThenClose(p: Pal, h: nat, started: bool)
    ensures Closed(Set(p, h, started), h) == Closed(p, h)
  {
    assert Closed(Set(p, h, started), h).streams == Closed(p, h).streams;
  }

  lemma StartTxIsAllOrNothing(b: BtSco, p: Pal, rx: nat, o: StartCodes)
    requires Valid(p) && Playing(p, rx)
    ensures var r := StartTx(b, p, rx, o);
      if o.txOpen == 0 && o.txStart == 0
      then r.rc == 0 && r.sco == BtSco(true, Some(rx), Some(p.next), b.rate)
        && r.pal.streams == p.streams[p.next := true]
      else r.rc != 0 && r.sco == WithoutStreams(b) && r.pal.streams == p.streams - {rx}
  {
    SetThenClose(p, rx, false);
    OpenThenClose(p);
    var q := Closed(Opened(p), p.next);
    SetThenClose(q, rx, false);
    assert Closed(q, rx).streams == p.streams - {rx};
    assert Set(Opened(p), p.next, true).streams == p.streams[p.next := true];
    hide Closed, Set;
  }

  /**
   Either every step succeeded, the code is 0 and exactly two new streams are open and playing, held as
   receive and transmit; or some step failed, the code is not 0, and PAL has the streams it had before.
  */
  lemma StartIsAllOrNothing(b: BtSco, p: Pal, ports: Ports, o: StartCodes)
    requires Valid(p)
    ensures var r := StartHfp(b, p, ports, o);
      if AllSucceed(b, ports, o)
      then r.rc == 0 && r.sco == BtSco(true, Some(p.next), Some(p.next + 1), b.rate)
        && r.pal.streams == p.streams[p.next := true][p.next + 1 := true]
        && p.next !in p.streams && p.next + 1 !in p.streams
      else r.rc != 0 && r.pal.streams == p.streams && r.sco.running == b.running
  {
    OpenedKeeps(p);
    OpenThenClose(p);
    if ports.present && (b.rate != ports.rxRate ==> o.params == 0) && o.rxOpen == 0 && o.rxStart == 0 {
      var q := Set(Opened(p), p.next, true);
      assert q.streams == p.streams[p.next := true];
      assert q.streams - {p.next} == p.streams;
      StartTxIsAllOrNothing(b, q, p.next, o);
      hide StartTx;
    }
  }

  predicate BothPlaying(b: BtSco, p: Pal) {
    && b.rx.Some? && b.tx.Some? && b.rx != b.tx
    && Playing(p, b.rx.value) && Playing(p, b.tx.value)
  }

  /** Stopping what plays closes both streams exactly if nothing fails before the last close. */
  lemma StopClosesBothExactlyIf(b: BtSco, p: Pal, o: StopCodes)
    requires b.running && BothPlaying(b, p)
    ensures var r := StopHfp(b, p, o);
      && !r.sco.running
      && (r.pal.streams == p.streams - {b.rx.value, b.tx.value} <==> o.rxStop == 0 && o.rxClose == 0 && o.txStop == 0)
      && (r.rc == 0 <==> o == StopCodes(0, 0, 0, 0))
      && (r.rc == 0 ==> r.sco == BtSco(false, None, None, b.rate))
  {
    var rx, tx := b.rx.value, b.tx.value;
    SetThenClose(p, rx, false);
    var q := Closed(p, rx);
    SetThenClose(q, tx, false);
    assert tx in q.streams && tx in p.streams && tx !in Closed(q, tx).streams && rx !in q.streams;
    assert Closed(q, tx).streams == p.streams - {rx, tx};
    hide Closed, Set;
  }

  /** The streams of the pair that a stop leaves open: what came after the first failing call, its close not made. */
  function LeftByStop(b: BtSco, o: StopCodes): set<nat>
    requires b.rx.Some? && b.tx.Some?
  {
    if o.rxStop != 0 then {b.rx.value, b.tx.value}
    else if o.rxClose != 0 || o.txStop != 0 then {b.tx.value}
    else {}
  }

  lemma StopLeavesExactly(b: BtSco, p: Pal, o: StopCodes)
    requires b.running && BothPlaying(b, p)
    ensures StopHfp(b, p, o).pal.streams.Keys == p.streams.Keys - {b.rx.value, b.tx.value} + LeftByStop(b, o)
  {
    var rx, tx := b.rx.value, b.tx.value;
    SetThenClose(p, rx, false);
    var q := Closed(p, rx);
    SetThenClose(q, tx, false);
    assert rx in p.streams && tx in p.streams;
    assert q.streams.Keys == p.streams.Keys - {rx};
    assert Closed(q, tx).streams.Keys == p.streams.Keys - {rx} - {tx};
    hide Closed, Set;
  }

  /** The code of the first of two calls to fail, or 0. */
  function FirstOf(a: int, b: int): int {
    if a != 0 then a else b
  }

  /** A start returns the code of the first call to fail, and keeps no handle of a stream it has closed. */
  lemma StartReports(b: BtSco, p: Pal, ports: Ports, o: StartCodes)
    ensures var r := StartHfp(b, p, ports, o);
      && r.rc == (if !ports.present then -22
                  else FirstOf(if b.rate != ports.rxRate then o.params else 0,
                               FirstOf(o.rxOpen, FirstOf(o.rxStart, FirstOf(o.txOpen, o.txStart)))))
      && (r.rc == 0 ==> r.sco == BtSco(true, Some(p.next), Some(p.next + 1), b.rate))
      && (r.rc != 0 ==>
            r.sco == if !ports.present || (b.rate != ports.rxRate && o.params != 0) then b
                     else if o.rxOpen != 0 || o.rxStart != 0 then b.(rx := None)
                     else b.(rx := None, tx := None))
  {
    hide Closed;
  }

  /**
   Stopping what plays returns the code of the first call to fail; a stream's handle is forgotten only once its stop
   and its close have both succeeded. Stopping what does not run fails and does nothing.
  */
  lemma StopReports(b: BtSco, p: Pal, o: StopCodes)
    requires b.running ==> BothPlaying(b, p)
    ensures var r := StopHfp(b, p, o);
      if b.running then
        && r.rc == FirstOf(o.rxStop, FirstOf(o.rxClose, FirstOf(o.txStop, o.txClose)))
        && !r.sco.running && r.sco.rate == b.rate
        && r.sco.rx == (if o.rxStop == 0 && o.rxClose == 0 then None else b.rx)
        && r.sco.tx == (if o == StopCodes(0, 0, 0, 0) then None else b.tx)
      else r == Outcome(b, p, -1)
  {
    hide Closed, Set;
  }

  /** A start and a clean stop leave PAL with the streams it had. */
  lemma StopUndoesStart(b: BtSco, p: Pal, ports: Ports, o: StartCodes, e: StopCodes)
    requires Valid(p) && AllSucceed(b, ports, o)
    ensures var started := StartHfp(b, p, ports, o);
      StopHfp(started.sco, started.pal, e).pal.streams == p.streams <==>
      e.rxStop == 0 && e.rxClose == 0 && e.txStop == 0
  {
    StartIsAllOrNothing(b, p, ports, o);
    var r := StartHfp(b, p, ports, o);
    assert BothPlaying(r.sco, r.pal);
    StopClosesBothExactlyIf(r.sco, r.pal, e);
    assert r.pal.streams - {p.next, p.next + 1} == p.streams;
    hide StartHfp, StopHfp;
  }

  /** Streams other than the pair are left alone. */
  lemma OthersUntouched(b: BtSco, p: Pal, ports: Ports, o: StartCodes, e: StopCodes, h: nat)
    requires Valid(p) && Playing(p, h)
    ensures Playing(StartHfp(b, p, ports, o).pal, h)
    ensures b.rx != Some(h) && b.tx != Some(h) ==> Playing(StopHfp(b, p, e).pal, h)
  {
    StartIsAllOrNothing(b, p, ports, o);
    hide StartHfp;
  }

  lemma StaysValid(b: BtSco, p: Pal, ports: Ports, o: StartCodes, e: StopCodes)
    requires Valid(p)
    ensures Valid(StartHfp(b, p, ports, o).pal) && Valid(StopHfp(b, p, e).pal)
  {
  }

  // ---------------------------------------------------------------------------
  // The device as the source keeps it

  class Device {
    var running: bool
    var rx: Option<nat>
    var tx: Option<nat>
    var rate: nat

    function View(): BtSco
      reads this
    {
      BtSco(running, rx, tx, rate)
    }

    constructor (initialRate: nat)
      ensures View() == BtSco(false, None, None, initialRate)
    {
      running, rx, tx, rate := false, None, None, initialRate;
    }

    method Start(pal: Pal, ports: Ports, o: StartCodes) returns (after: Pal, rc: int)
      modifies this
      ensures Outcome(View(), after, rc) == StartHfp(old(View()), pal, ports, o)
    {
      hide Opened, Closed, Set;
      after := pal;
      if !ports.present {
        return after, -EINVAL;
      }
      if rate != ports.rxRate {
        rc := o.params;
        if rc != 0 {
          return;
        }
      }
      rc := o.rxOpen;
      if rc != 0 {
        rx := None;
        return;
      }
      rx := Some(after.next);
      after := Opened(after);
      rc := o.rxStart;
      if rc != 0 {
        after := Closed(after, rx.value);
        rx := None;
        return;
      }
      after := Set(after, rx.value, true);
      rc := o.txOpen;
      if rc != 0 {
        tx := None;
        after := Closed(Set(after, rx.value, false), rx.value);
        rx := None;
        return;
      }
      tx := Some(after.next);
      after := Opened(after);
      rc := o.txStart;
      if rc != 0 {
        after := Closed(after, tx.value);
        after := Closed(Set(after, rx.value, false), rx.value);
        tx := None;
        rx := None;
        return;
      }
      after := Set(after, tx.value, true);
      running := true;
    }

    method Stop(pal: Pal, o: StopCodes) returns (after: Pal, rc: int)
      modifies this
      ensures Outcome(View(), after, rc) == StopHfp(old(View()), pal, o)
    {
      hide Opened, Closed, Set;
      after, rc := pal, 0;
      if !running {
        return after, E_FAILURE;
      }
      running := false;
      if rx.Some? {
        rc := o.rxStop;
        if rc != 0 {
          return;
        }
        after := Closed(Set(after, rx.value, false), rx.value);
        rc := o.rxClose;
        if rc != 0 {
          return;
        }
        rx := None;
      }
      if tx.Some? {
        rc := o.txStop;
        if rc != 0 {
          return;
        }
        after := Closed(Set(after, tx.value, false), tx.value);
        rc := o.txClose;
        if rc != 0 {
          return;
        }
        tx := None;
      }
    }
  }
}
