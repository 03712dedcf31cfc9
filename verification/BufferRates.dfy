/**
 Buffer sizes and sample rates of sinks and sources. A buffer holds a duration that depends on the stream
 type; its size is worked out with a 32-bit product, widened to 64 bits only by the last factor, and cut
 to whole frames. A requested rate is replaced by the nearest supported one.
*/
module BufferRates {
  import opened FrameArithmetic

  const WORD32: nat := 0x1_0000_0000

  // ---------------------------------------------------------------------------
  // Buffer size

  datatype StreamType = DeepBuffer | LowLatency | OtherStream

  datatype Side = SinkSide | SourceSide

  /** Milliseconds. The source's low-latency case runs on into the default, which does nothing. */
  function Duration(side: Side, t: StreamType): nat {
    match t
    case DeepBuffer => 20
    case LowLatency => 5
    case OtherStream => 25
  }

  datatype Spec = Spec(rate: nat, channels: nat, sampleSize: nat)

  /** What a pa_sample_spec can hold: a 32-bit rate, at most 255 channels, samples of 1 to 4 bytes. */
  predicate ValidSpec(s: Spec) {
    0 < s.rate < WORD32 && 0 < s.channels < 256 && 0 < s.sampleSize <= 4
  }

  function FrameSize(s: Spec): nat {
    s.sampleSize * s.channels
  }

  /** rate * duration * channels on 32-bit words. */
  function Product32(s: Spec, ms: nat): nat {
    s.rate * ms % WORD32 * s.channels % WORD32
  }

  function BufferSize(s: Spec, side: Side, t: StreamType): nat
    requires ValidSpec(s)
  {
    Align(Product32(s, Duration(side, t)) * s.sampleSize / 1000, FrameSize(s))
  }

  /** Whole frames in the duration. */
  function FramesIn(s: Spec, ms: nat): nat {
    s.rate * ms / 1000
  }

  lemma WrapsOrNot(x: nat)
    ensures x % WORD32 == if x < WORD32 then x else x % WORD32
    ensures x >= WORD32 ==> x % WORD32 <= x - WORD32
  {
    assert x == WORD32 * (x / WORD32) + x % WORD32;
  }

  lemma LessTimes(a: nat, b: nat, c: nat)
    requires a <= b
    ensures a * c <= b * c
  {
  }

  lemma ProductWraps(s: Spec, ms: nat)
    requires s.channels > 0
    ensures s.rate * ms * s.channels < WORD32 ==> Product32(s, ms) == s.rate * ms * s.channels
    ensures s.rate * ms * s.channels >= WORD32 ==> Product32(s, ms) <= s.rate * ms * s.channels - WORD32
  {
    var x := s.rate * ms;
    LessTimes(1, s.channels, x);
    WrapsOrNot(x);
    WrapsOrNot(x % WORD32 * s.channels);
    if x >= WORD32 {
      LessTimes(x % WORD32, x - WORD32, s.channels);
      LessTimes(1, s.channels, WORD32);
      assert (x - WORD32) * s.channels == x * s.channels - WORD32 * s.channels;
    }
  }

  /** Frames in the aligned buffer when the 32-bit product is `w`: the two floors are one. */
  lemma FramesOfProduct(w: nat, channels: nat, sampleSize: nat)
    requires channels > 0 && sampleSize > 0
    ensures sampleSize * channels > 0
    ensures w * sampleSize / 1000 / (sampleSize * channels) == w / (1000 * channels)
  {
    DivideTwice(w * sampleSize, 1000, sampleSize * channels);
    assert 1000 * (sampleSize * channels) == 1000 * channels * sampleSize;
    CancelFactor(w, 1000 * channels, sampleSize);
  }

  lemma FewerByOne(w: nat, x: nat, d: nat)
    requires d > 0 && w + d <= x
    ensures w / d < x / d
  {
    NextMultiple(x / d, w / d + 1, d);
    assert d * (w / d) + w % d == w && d * (x / d) + x % d == x;
    assert d * (w / d + 1) == d * (w / d) + d;
  }

  lemma SizeInFrames(s: Spec, side: Side, t: StreamType)
    requires ValidSpec(s)
    ensures FrameSize(s) > 0
    ensures BufferSize(s, side, t) == FrameSize(s) * (Product32(s, Duration(side, t)) / (1000 * s.channels))
  {
    FramesOfProduct(Product32(s, Duration(side, t)), s.channels, s.sampleSize);
    hide Product32, Duration;
  }

  lemma FramesInProduct(s: Spec, ms: nat)
    requires s.channels > 0
    ensures FramesIn(s, ms) == s.rate * ms * s.channels / (1000 * s.channels)
  {
    CancelFactor(s.rate * ms, 1000, s.channels);
  }

  lemma FactorKeepsOrder(f: nat, a: nat, b: nat)
    requires f > 0
    ensures a < b ==> f * a < f * b
  {
    NextMultiple(a, b, f);
  }

  /**
   The buffer holds exactly the whole frames of its duration if and only if the product fits 32 bits;
   otherwise it is smaller.
  */
  lemma BufferHoldsItsDurationExactlyIf(s: Spec, side: Side, t: StreamType)
    requires ValidSpec(s)
    ensures var ms := Duration(side, t); var ideal := FrameSize(s) * FramesIn(s, ms);
      && (BufferSize(s, side, t) == ideal <==> s.rate * ms * s.channels < WORD32)
      && BufferSize(s, side, t) <= ideal
  {
    var ms := Duration(side, t);
    SizeInFrames(s, side, t);
    FramesInProduct(s, ms);
    ProductWraps(s, ms);
    hide Product32, Duration, BufferSize, FramesIn, FrameSize;
    var x, w := s.rate * ms * s.channels, Product32(s, ms);
    if x >= WORD32 {
      FewerByOne(w, x, 1000 * s.channels);
      FactorKeepsOrder(FrameSize(s), w / (1000 * s.channels), FramesIn(s, ms));
    }
  }

  // ---------------------------------------------------------------------------
  // Nearest rate

  const RATES: seq<nat> :=
    [8000, 11025, 16000, 22050, 32000, 44100, 48000, 88200, 96000, 176400, 192000, 352800, 384000]

  const DEFAULT_RATE: nat := 48000

  /** The greatest supported rate not above the request; the default for a request below them all. */
  ghost predicate IsNearest(rate: nat, nearest: nat) {
    if rate < RATES[0] then nearest == DEFAULT_RATE
    else nearest in RATES && nearest <= rate && forall k :: 0 <= k < |RATES| && RATES[k] <= rate ==> RATES[k] <= nearest
  }

  lemma RatesAscend(j: nat, k: nat)
    requires j <= k < |RATES|
    ensures RATES[j] <= RATES[k]
  {
  }

  method FindNearestRate(rate: nat) returns (nearest: nat)
    ensures IsNearest(rate, nearest)
  {
    nearest := DEFAULT_RATE;
    var i := 0;
    while i < |RATES|
      invariant 0 <= i <= |RATES|
      invariant i == 0 || rate < RATES[0] ==> nearest == DEFAULT_RATE
      invariant i > 0 && rate >= RATES[0] ==> nearest in RATES && nearest <= rate
      invariant i > 0 && rate >= RATES[0] ==> forall k :: 0 <= k < i && RATES[k] <= rate ==> RATES[k] <= nearest
    {
      RatesAscend(0, i);
      if rate == RATES[i] {
        nearest := rate;
        break;
      } else if rate > RATES[i] {
        nearest := RATES[i];
        forall k | 0 <= k < i
          ensures RATES[k] <= RATES[i]
        {
          RatesAscend(k, i);
        }
      }
      i := i + 1;
    }
  }

  /** There is one nearest rate; it is supported, it is its own nearest rate, and the search is monotone. */
  lemma NearestRateLaws(rate: nat, other: nat, n: nat, m: nat)
    requires IsNearest(rate, n) && IsNearest(other, m)
    ensures n in RATES
    ensures rate == other ==> n == m
    ensures n == other ==> n == m
    ensures n == rate <==> rate in RATES
    ensures RATES[0] <= rate <= other ==> n <= m
  {
    assert RATES[6] == DEFAULT_RATE;
    forall k: nat | k < |RATES|
      ensures RATES[0] <= RATES[k]
    {
      RatesAscend(0, k);
    }
  }

  /** For every supported rate and up to 32 channels nothing wraps, and the buffer holds at least one frame. */
  lemma SupportedBuffersAreExact(s: Spec, side: Side, t: StreamType)
    requires ValidSpec(s) && s.rate in RATES && s.channels <= 32
    ensures BufferSize(s, side, t) == FrameSize(s) * FramesIn(s, Duration(side, t)) > 0
  {
    var ms := Duration(side, t);
    assert 8000 <= s.rate <= 384000;
    LessTimes(s.rate, 384000, ms);
    LessTimes(8000, s.rate, ms);
    assert 40000 <= s.rate * ms <= 9600000;
    LessTimes(s.rate * ms, 9600000, s.channels);
    LessTimes(s.channels, 32, 9600000);
    BufferHoldsItsDurationExactlyIf(s, side, t);
    LessTimes(1, FramesIn(s, ms), FrameSize(s));
  }
}
