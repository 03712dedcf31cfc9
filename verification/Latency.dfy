/**
 How long the data handed to a sink will take to play: bytes written less bytes already rendered, where
 the rendered bytes are worked out from PAL's session time, moved on (or back) by the difference between
 the hardware clock and the clock value stamped on the session time. All in unsigned 64-bit arithmetic,
 with the difference read as a signed number. The byte/time conversions are PulseAudio's, with floor
 division.
*/
module Latency {

  const WORD: nat := 0x1_0000_0000_0000_0000
  const HALF: nat := 0x8000_0000_0000_0000
  const SECOND: nat := 1000000

  type Word = x: nat | x < 0x1_0000_0000_0000_0000

  datatype SampleSpec = SampleSpec(rate: nat, frame: nat)

  predicate ValidSpec(ss: SampleSpec) {
    ss.rate > 0 && ss.frame > 0
  }

  function Wrap(x: int): (r: nat)
    ensures r < WORD
    ensures 0 <= x < WORD ==> r == x
  {
    x % WORD
  }

  function Signed(x: nat): int {
    if x < HALF then x else x - WORD
  }

  /** pa_usec_to_bytes and pa_bytes_to_usec, each product wrapped to 64 bits. */
  function UsecToBytes64(t: nat, ss: SampleSpec): nat {
    Wrap((Wrap(t * ss.rate) / SECOND) * ss.frame)
  }

  function BytesToUsec64(b: nat, ss: SampleSpec): nat
    requires ValidSpec(ss)
  {
    Wrap((b / ss.frame) * SECOND) / ss.rate
  }

  /** What pal_get_timestamp gives: the clock value at which the session time was taken, both in microseconds. */
  datatype Stamp = NoStamp | Stamp(clock: Word, session: Word)

  /** The division of C, towards zero. */
  function TruncatedDivide(x: int, d: nat): int
    requires d > 0
  {
    if x >= 0 then x / d else 0 - (0 - x) / d
  }

  /** The hardware clock counts 19.2 ticks a microsecond; the counter is read, and multiplied, as a signed word. */
  function Clock64(ticks: Word): nat {
    Wrap(TruncatedDivide(Signed(Wrap(Signed(ticks) * 10)), 192))
  }

  function Clock(ticks: nat): nat {
    ticks * 10 / 192
  }

  /** The branches of the source, on 64-bit words. */
  function Rendered64(clock: Word, session: Word, now: nat, ss: SampleSpec): nat {
    if clock > now then
      var future := clock - now;
      if future < session then UsecToBytes64(session - future, ss) else 0
    else UsecToBytes64(Wrap(session + Wrap(now - clock)), ss)
  }

  method GetLatency(written: Word, stamp: Stamp, ticks: Word, ss: SampleSpec) returns (latency: int)
    requires ValidSpec(ss)
    ensures latency == Latency64(written, stamp, ticks, ss)
  {
    if stamp.NoStamp? {
      latency := Signed(BytesToUsec64(written, ss));
    } else {
      var now := Clock64(ticks);
      var rendered := 0;
      if stamp.clock > now {
        var future := stamp.clock - now;
        if future < stamp.session {
          rendered := UsecToBytes64(stamp.session - future, ss);
        }
      } else {
        rendered := UsecToBytes64(Wrap(stamp.session + Wrap(now - stamp.clock)), ss);
      }
      var delta := Signed(Wrap(written - rendered));
      if delta <= 0 {
        return 0;
      }
      latency := Signed(BytesToUsec64(delta, ss));
    }
    if latency < 0 {
      latency := 0;
    }
  }

  function Latency64(written: Word, stamp: Stamp, ticks: Word, ss: SampleSpec): (latency: int)
    requires ValidSpec(ss)
    ensures latency >= 0
  {
    var unchecked :=
      match stamp
      case NoStamp => Signed(BytesToUsec64(written, ss))
      case Stamp(clock, session) =>
        var delta := Signed(Wrap(written - Rendered64(clock, session, Clock64(ticks), ss)));
        if delta <= 0 then 0 else Signed(BytesToUsec64(delta, ss));
    if unchecked < 0 then 0 else unchecked
  }

  // ---------------------------------------------------------------------------
  // What it is meant to compute

  function UsecToBytes(t: nat, ss: SampleSpec): nat {
    t * ss.rate / SECOND * ss.frame
  }

  function BytesToUsec(b: nat, ss: SampleSpec): nat
    requires ValidSpec(ss)
  {
    b / ss.frame * SECOND / ss.rate
  }

  function NotBelowZero(x: int): nat {
    if x < 0 then 0 else x
  }

  function IdealLatency(written: Word, stamp: Stamp, ticks: Word, ss: SampleSpec): nat
    requires ValidSpec(ss)
  {
    match stamp
    case NoStamp => BytesToUsec(written, ss)
    case Stamp(clock, session) =>
      BytesToUsec(NotBelowZero(written - UsecToBytes(NotBelowZero(session + Clock(ticks) - clock), ss)), ss)
  }

  /** No 64-bit overflow: time and byte counts, and the products taken of them, stay in range. */
  predicate InRange(written: Word, stamp: Stamp, ticks: Word, ss: SampleSpec)
    requires ValidSpec(ss)
  {
    && written < HALF && written / ss.frame * SECOND < HALF
    && (stamp.Stamp? ==>
          var played := NotBelowZero(stamp.session + Clock(ticks) - stamp.clock);
          ticks * 10 < HALF && played < WORD && played * ss.rate < WORD && UsecToBytes(played, ss) < HALF)
  }

  lemma TimesMonotone(a: nat, b: nat, c: nat)
    requires a <= b
    ensures a * c <= b * c
  {
  }

  lemma OverMonotone(a: nat, b: nat, d: nat)
    requires a <= b && d > 0
    ensures a / d <= b / d
  {
    if a / d > b / d {
      TimesMonotone(b / d + 1, a / d, d);
    }
  }

  lemma OverShrinks(a: nat, d: nat)
    requires d > 0
    ensures a / d <= a
  {
    if a / d > a {
      TimesMonotone(1, d, a / d);
    }
  }

  lemma UsecToBytesMonotone(t: nat, u: nat, ss: SampleSpec)
    requires t <= u
    ensures UsecToBytes(t, ss) <= UsecToBytes(u, ss)
  {
    TimesMonotone(t, u, ss.rate);
    OverMonotone(t * ss.rate, u * ss.rate, SECOND);
    TimesMonotone(t * ss.rate / SECOND, u * ss.rate / SECOND, ss.frame);
  }

  lemma BytesToUsecMonotone(b: nat, c: nat, ss: SampleSpec)
    requires ValidSpec(ss) && b <= c
    ensures BytesToUsec(b, ss) <= BytesToUsec(c, ss)
  {
    OverMonotone(b, c, ss.frame);
    OverMonotone(b / ss.frame * SECOND, c / ss.frame * SECOND, ss.rate);
  }

  /** Within range the two directions agree with their 64-bit forms. */
  lemma BytesToUsecFits(b: nat, c: nat, ss: SampleSpec)
    requires ValidSpec(ss) && b <= c && c / ss.frame * SECOND < HALF
    ensures BytesToUsec64(b, ss) == BytesToUsec(b, ss) < HALF
    ensures Signed(BytesToUsec64(b, ss)) == BytesToUsec(b, ss)
  {
    OverMonotone(b, c, ss.frame);
    OverShrinks(b / ss.frame * SECOND, ss.rate);
  }

  /** The branching code on wrapped words computes the plain formula. */
  lemma LatencyRefines(written: Word, stamp: Stamp, ticks: Word, ss: SampleSpec)
    requires ValidSpec(ss) && InRange(written, stamp, ticks, ss)
    ensures Latency64(written, stamp, ticks, ss) == IdealLatency(written, stamp, ticks, ss)
  {
    if stamp.Stamp? {
      ClockFits(ticks);
    }
    NoBytesTakeNoTime(ss);
    hide Wrap, Signed, Clock64, BytesToUsec, BytesToUsec64, UsecToBytes, Rendered64, Clock;
    BytesToUsecFits(written, written, ss);
    match stamp
    case NoStamp =>
    case Stamp(clock, session) =>
      RenderedRefines(clock, session, Clock(ticks), ss);
      var rendered := Rendered64(clock, session, Clock(ticks), ss);
      var delta := written - rendered;
      WrapSigned(delta);
      if delta > 0 {
        BytesToUsecFits(delta, written, ss);
      }
  }

  lemma ClockFits(ticks: Word)
    requires ticks * 10 < HALF
    ensures Clock64(ticks) == Clock(ticks) < WORD
  {
    assert Signed(ticks) == ticks;
    WrapSigned(ticks * 10);
    assert Wrap(ticks * 10 / 192) == ticks * 10 / 192;
  }

  lemma QuotientBounds(y: nat, d: nat)
    requires d > 0
    ensures y / d * d <= y < y / d * d + d
  {
    assert y == y / d * d + y % d;
  }

  lemma NegativeTimes(q: nat, d: nat)
    ensures (0 - q) * d == 0 - q * d
  {
  }

  /** The division of C: the remainder is smaller than the divisor and has the sign of the dividend. */
  lemma TruncatedDivideIs(x: int, d: nat)
    requires d > 0
    ensures var q := TruncatedDivide(x, d);
      if x >= 0 then q >= 0 && q * d <= x < q * d + d else q <= 0 && q * d - d < x <= q * d
  {
    var y: nat := if x >= 0 then x else 0 - x;
    var q: nat := y / d;
    QuotientBounds(y, d);
    NegativeTimes(q, d);
    assert TruncatedDivide(x, d) == if x >= 0 then q else 0 - q;
    hide TruncatedDivide;
  }

  /** The clock is converted rightly exactly as long as ten times the ticks are a positive signed word. */
  lemma ClockIsExactExactlyIf(ticks: Word)
    ensures Clock64(ticks) == Clock(ticks) <==> ticks * 10 < HALF
  {
    if ticks * 10 < HALF {
      ClockFits(ticks);
    } else {
      var k := ticks * 10 / WORD;
      var w := ticks * 10 % WORD;
      assert ticks * 10 == k * WORD + w && 0 <= k < 10;
      SameWrap(ticks);
      if w >= HALF {
        assert Clock64(ticks) == Wrap(0 - (WORD - w) / 192) && (WORD - w) / 192 <= HALF / 192;
      } else {
        assert k >= 1 && Clock64(ticks) == w / 192;
      }
    }
  }

  lemma SameWrap(ticks: Word)
    ensures Wrap(Signed(ticks) * 10) == ticks * 10 % WORD
  {
    if ticks >= HALF {
      assert Signed(ticks) * 10 == ticks * 10 - 10 * WORD;
    }
  }

  lemma NoBytesTakeNoTime(ss: SampleSpec)
    requires ValidSpec(ss)
    ensures BytesToUsec(0, ss) == 0
  {
    assert 0 / ss.frame == 0;
    assert 0 / ss.rate == 0;
  }

  lemma WrapSigned(x: int)
    requires 0 - HALF < x < HALF
    ensures Signed(Wrap(x)) == x
    ensures x >= 0 ==> Signed(x) == x
  {
    if x < 0 {
      assert x + WORD == Wrap(x + WORD);
    }
  }

  lemma RenderedRefines(clock: Word, session: Word, now: nat, ss: SampleSpec)
    requires var played := NotBelowZero(session + now - clock);
      now < WORD && played < WORD && played * ss.rate < WORD && UsecToBytes(played, ss) < HALF
    ensures Rendered64(clock, session, now, ss) == UsecToBytes(NotBelowZero(session + now - clock), ss)
  {
    var played := NotBelowZero(session + now - clock);
    UsecToBytesFits(played, ss);
    NothingTakesNoBytes(ss);
    hide UsecToBytes, UsecToBytes64;
  }

  lemma UsecToBytesFits(t: nat, ss: SampleSpec)
    requires t * ss.rate < WORD && UsecToBytes(t, ss) < HALF
    ensures UsecToBytes64(t, ss) == UsecToBytes(t, ss)
  {
    assert Wrap(t * ss.rate) == t * ss.rate;
  }

  lemma NothingTakesNoBytes(ss: SampleSpec)
    ensures UsecToBytes(0, ss) == 0
  {
    assert 0 * ss.rate == 0;
    assert 0 / SECOND == 0;
  }

  /** As time passes the latency only falls. */
  lemma LatencyFallsWithTime(written: Word, stamp: Stamp, ticks: Word, later: Word, ss: SampleSpec)
    requires ValidSpec(ss) && ticks <= later
    requires InRange(written, stamp, ticks, ss) && InRange(written, stamp, later, ss)
    ensures Latency64(written, stamp, later, ss) <= Latency64(written, stamp, ticks, ss)
  {
    LatencyRefines(written, stamp, ticks, ss);
    LatencyRefines(written, stamp, later, ss);
    if stamp.Stamp? {
      OverMonotone(ticks * 10, later * 10, 192);
      var before := NotBelowZero(stamp.session + Clock(ticks) - stamp.clock);
      var after := NotBelowZero(stamp.session + Clock(later) - stamp.clock);
      UsecToBytesMonotone(before, after, ss);
      BytesToUsecMonotone(NotBelowZero(written - UsecToBytes(after, ss)),
                          NotBelowZero(written - UsecToBytes(before, ss)), ss);
    }
  }

  /** It is never negative and never more than the playing time of everything written. */
  lemma LatencyIsBounded(written: Word, stamp: Stamp, ticks: Word, ss: SampleSpec)
    requires ValidSpec(ss) && InRange(written, stamp, ticks, ss)
    ensures 0 <= Latency64(written, stamp, ticks, ss) <= BytesToUsec(written, ss)
  {
    LatencyRefines(written, stamp, ticks, ss);
    if stamp.Stamp? {
      var rendered := UsecToBytes(NotBelowZero(stamp.session + Clock(ticks) - stamp.clock), ss);
      BytesToUsecMonotone(NotBelowZero(written - rendered), written, ss);
    }
  }

  /** Up to a rate of one frame a microsecond, it is 0 exactly when less than one whole frame is left to render. */
  lemma LatencyIsZeroExactlyWhenPlayedOut(written: Word, clock: Word, session: Word, ticks: Word, ss: SampleSpec)
    requires ValidSpec(ss) && ss.rate <= SECOND && InRange(written, Stamp(clock, session), ticks, ss)
    ensures Latency64(written, Stamp(clock, session), ticks, ss) == 0 <==>
            written < UsecToBytes(NotBelowZero(session + Clock(ticks) - clock), ss) + ss.frame
  {
    LatencyRefines(written, Stamp(clock, session), ticks, ss);
    var left := NotBelowZero(written - UsecToBytes(NotBelowZero(session + Clock(ticks) - clock), ss));
    ZeroUsecExactlyIf(left, ss);
    hide UsecToBytes, BytesToUsec, Latency64, Clock, InRange;
  }

  lemma ZeroUsecExactlyIf(b: nat, ss: SampleSpec)
    requires ValidSpec(ss) && ss.rate <= SECOND
    ensures BytesToUsec(b, ss) == 0 <==> b < ss.frame
  {
    if b >= ss.frame {
      OverMonotone(ss.frame, b, ss.frame);
      OverMonotone(ss.rate, b / ss.frame * SECOND, ss.rate);
    } else {
      OverMonotone(0, SECOND, ss.rate);
      assert b / ss.frame == 0;
    }
  }
}
