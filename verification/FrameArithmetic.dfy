/** Whole frames in a byte count, by floor division. */
module FrameArithmetic {

  lemma {:induction false} NextMultiple(a: nat, b: nat, frame: nat)
    ensures a < b ==> frame * b >= frame * a + frame
  {
    if a + 1 < b {
      NextMultiple(a, b - 1, frame);
    }
  }

  lemma QuotientIs(n: nat, frame: nat, q: nat)
    requires frame > 0 && frame * q <= n < frame * q + frame
    ensures n / frame == q && n % frame == n - frame * q
  {
    assert n == frame * (n / frame) + n % frame;
    NextMultiple(n / frame, q, frame);
    NextMultiple(q, n / frame, frame);
  }

  /** pa_frame_align */
  function Align(length: nat, frame: nat): (r: nat)
    requires frame > 0
    ensures r <= length && length - r < frame && r % frame == 0
  {
    assert length == frame * (length / frame) + length % frame;
    QuotientIs(frame * (length / frame), frame, length / frame);
    frame * (length / frame)
  }

  lemma LessThanAFrame(length: nat, frame: nat)
    requires length < frame
    ensures Align(length, frame) == 0
  {
    QuotientIs(length, frame, 0);
  }

  lemma SumOfMultiples(a: nat, b: nat, frame: nat)
    requires frame > 0 && a % frame == 0 && b % frame == 0
    ensures (a + b) % frame == 0
  {
    assert a == frame * (a / frame) && b == frame * (b / frame);
    assert a + b == frame * (a / frame + b / frame);
    QuotientIs(a + b, frame, a / frame + b / frame);
  }

  lemma Regroup(b: nat, c: nat, q: nat, t: nat)
    ensures b * (c * q + t) == b * c * q + b * t
  {
    assert b * (c * q) == b * c * q;
  }

  /** A remainder of a remainder, or of a scaled division, is still less than the whole divisor. */
  lemma QuotientOfParts(a: nat, d: nat, q: nat, low: nat)
    requires d > 0 && a == d * q + low && low < d
    ensures a / d == q
  {
    QuotientIs(a, d, q);
  }

  lemma Scaled(b: nat, c: nat, m: nat, q: nat, t: nat)
    requires m == c * q + t
    ensures b * m == b * c * q + b * t
  {
    Regroup(b, c, q, t);
  }

  lemma RemaindersFit(b: nat, c: nat, t: nat, r: nat)
    requires t < c && r < b
    ensures b * t + r < b * c
  {
    NextMultiple(t, c, b);
  }

  lemma DivideTwice(a: nat, b: nat, c: nat)
    requires b > 0 && c > 0
    ensures b * c > 0 && a / b / c == a / (b * c)
  {
    var m, r := a / b, a % b;
    var q, t := m / c, m % c;
    Scaled(b, c, m, q, t);
    RemaindersFit(b, c, t, r);
    assert a == b * c * q + (b * t + r);
    QuotientOfParts(a, b * c, q, b * t + r);
  }

  lemma CancelFactor(a: nat, b: nat, s: nat)
    requires b > 0 && s > 0
    ensures b * s > 0 && (a * s) / (b * s) == a / b
  {
    var q, r := a / b, a % b;
    Scaled(s, b, a, q, r);
    RemaindersFit(s, b, r, 0);
    assert a * s == b * s * q + s * r;
    QuotientOfParts(a * s, b * s, q, s * r);
  }
}
