/** Per-token integer quantisation and the power-of-two group quantiser, over exact reals. */
module IntQuant {
  import opened Sums
  import opened Fp4

  /** Round to nearest, halves to even. */
  function Round(x: real): (r: int)
    ensures Abs(r as real - x) <= 0.5
    ensures Abs(r as real - x) == 0.5 ==> r % 2 == 0
  {
    var f := x.Floor;
    var d := x - f as real;
    if d < 0.5 then f else if d > 0.5 then f + 1 else if f % 2 == 0 then f else f + 1
  }

  function RowMin(row: seq<real>): (m: real)
    requires row != []
    ensures m in row && forall i :: 0 <= i < |row| ==> m <= row[i]
  {
    var n := |row| - 1;
    if n == 0 then row[0] else
      var m := RowMin(row[..n]);
      if row[n] < m then row[n] else m
  }

  function RowMax(row: seq<real>): (m: real)
    requires row != []
    ensures m in row && forall i :: 0 <= i < |row| ==> row[i] <= m
  {
    var n := |row| - 1;
    if n == 0 then row[0] else
      var m := RowMax(row[..n]);
      if m < row[n] then row[n] else m
  }

  function Power(n: nat): (p: int)
    ensures p >= 1 && (n >= 1 ==> p % 2 == 0)
  {
    if n == 0 then 1 else 2 * Power(n - 1)
  }

  /** Code range for a bit width. */
  function QMin(symmetric: bool, bits: nat): int
    requires bits >= 2
  {
    if symmetric then -Power(bits - 1) else 0
  }

  function QMax(symmetric: bool, bits: nat): (q: int)
    requires bits >= 2
    ensures q >= 1 && q % 2 == 1
  {
    if symmetric then Power(bits - 1) - 1 else Power(bits) - 1
  }

  const MIN_SCALE: real := 0.00001

  function RowScale(row: seq<real>, symmetric: bool, bits: nat): (s: real)
    requires row != [] && bits >= 2
    ensures s >= MIN_SCALE
  {
    var lo, hi := RowMin(row), RowMax(row);
    var span := if symmetric then Max(Abs(lo), Abs(hi)) else hi - lo;
    Max(span / QMax(symmetric, bits) as real, MIN_SCALE)
  }

  function ZeroPoint(row: seq<real>, symmetric: bool, bits: nat): int
    requires row != [] && bits >= 2
  {
    if symmetric then 0 else -Round(RowMin(row) / RowScale(row, symmetric, bits))
  }

  function ClampInt(x: int, lo: int, hi: int): int
  {
    if x < lo then lo else if x > hi then hi else x
  }

  /** The code before it is stored. */
  function Clamped(row: seq<real>, symmetric: bool, bits: nat, i: nat): int
    requires row != [] && bits >= 2 && i < |row|
  {
    ClampInt(Round(row[i] / RowScale(row, symmetric, bits) + ZeroPoint(row, symmetric, bits) as real),
             QMin(symmetric, bits), QMax(symmetric, bits))
  }

  /** The cast to int8 or uint8, which keeps the low eight bits. */
  function Store(q: int, symmetric: bool): int
  {
    if symmetric then (q + 128) % 256 - 128 else q % 256
  }

  function Quantised(row: seq<real>, symmetric: bool, bits: nat, i: nat): int
    requires row != [] && bits >= 2 && i < |row|
  {
    Store(Clamped(row, symmetric, bits, i), symmetric)
  }

  lemma SpanFits(x: real, s: real, n: real)
    requires s > 0.0 && n > 0.0 && s >= x / n && x >= 0.0
    ensures 0.0 <= x / s <= n
  {
    var q := x / n;
    assert q * n == x;
    Times(q, s, n);
    InRange(x, s, n);
    var r := x / s;
    assert r * s == x;
    if r < 0.0 { Times(r, 0.0, s); }
  }

  /** Symmetric codes stay in [-qmax, qmax] before any clamping. */
  lemma SymmetricRange(row: seq<real>, bits: nat, i: nat)
    requires row != [] && bits >= 2 && i < |row|
    ensures Abs(row[i] / RowScale(row, true, bits)) <= QMax(true, bits) as real
  {
    hide Power;
    var lo, hi, s, n := RowMin(row), RowMax(row), RowScale(row, true, bits), QMax(true, bits) as real;
    Bounded(row[i], Max(Abs(lo), Abs(hi)), s, n);
  }

  lemma Bounded(x: real, m: real, s: real, n: real)
    requires s > 0.0 && n > 0.0 && Abs(x) <= m && s >= m / n
    ensures Abs(x / s) <= n
  {
    var q := m / n;
    assert q * n == m;
    Times(q, s, n);
    InRange(x, s, n);
  }

  /** Asymmetric codes exceed [0, qmax] by at most a half before clamping. */
  lemma AsymmetricRange(row: seq<real>, bits: nat, i: nat)
    requires row != [] && bits >= 2 && i < |row|
    ensures var q := row[i] / RowScale(row, false, bits) + ZeroPoint(row, false, bits) as real;
      -0.5 <= q <= QMax(false, bits) as real + 0.5
  {
    hide Power;
    var lo, hi, s, n := RowMin(row), RowMax(row), RowScale(row, false, bits), QMax(false, bits) as real;
    SpanFits(hi - lo, s, n);
    Ordered(lo, row[i], hi, s);
    assert (hi - lo) / s == hi / s - lo / s by { Difference(hi, lo, s); }
  }

  lemma Ordered(a: real, b: real, c: real, s: real)
    requires a <= b <= c && s > 0.0
    ensures a / s <= b / s <= c / s
  {
    var p, q, r := a / s, b / s, c / s;
    assert p * s == a && q * s == b && r * s == c;
    if p > q { Times(q, p, s); Cancel(p, q, s); }
    if q > r { Times(r, q, s); Cancel(q, r, s); }
  }

  lemma Difference(x: real, y: real, s: real)
    requires s > 0.0
    ensures (x - y) / s == x / s - y / s
  {
  }

  /** The clamp costs nothing: the code is within a half of the exact quotient, and in
      symmetric mode the most negative code is never produced. */
  lemma CodeError(row: seq<real>, symmetric: bool, bits: nat, i: nat)
    requires row != [] && bits >= 2 && i < |row|
    ensures Abs(Clamped(row, symmetric, bits, i) as real
                - (row[i] / RowScale(row, symmetric, bits) + ZeroPoint(row, symmetric, bits) as real)) <= 0.5
    ensures QMin(symmetric, bits) <= Clamped(row, symmetric, bits, i) <= QMax(symmetric, bits)
    ensures symmetric ==> Clamped(row, symmetric, bits, i) > QMin(symmetric, bits)
  {
    hide RowScale, Power;
    if symmetric { SymmetricRange(row, bits, i); } else { AsymmetricRange(row, bits, i); }
    var y := row[i] / RowScale(row, symmetric, bits) + ZeroPoint(row, symmetric, bits) as real;
    hide ZeroPoint, Round;
    RoundInside(y, QMax(symmetric, bits), symmetric);
  }

  lemma RoundInside(y: real, q: int, symmetric: bool)
    requires q >= 1 && q % 2 == 1
    requires if symmetric then Abs(y) <= q as real else -0.5 <= y <= q as real + 0.5
    ensures symmetric ==> -q <= Round(y) <= q
    ensures !symmetric ==> Abs(ClampInt(Round(y), 0, q) as real - y) <= 0.5
  {
    hide Round;
    var r := Round(y);
    if r < 0 && !symmetric { assert r as real <= -1.0; }
    if r > q { assert r as real >= q as real + 1.0; }
  }

  lemma {:induction false} PowerMono(m: nat, n: nat)
    requires m <= n
    ensures Power(m) <= Power(n)
  {
    if m < n { PowerMono(m, n - 1); }
  }

  lemma {:induction false} PowerBig(n: nat)
    requires n >= 8
    ensures Power(n) % 256 == 0 && Power(n) >= 256
  {
    hide Power;
    PowerEight();
    if n > 8 {
      PowerBig(n - 1);
      PowerNext(n);
      var k := Power(n - 1) / 256;
      assert Power(n) == 256 * (2 * k);
    }
  }

  lemma PowerEight()
    ensures Power(7) == 128 && Power(8) == 256
  {
    assert Power(3) == 8;
    assert Power(6) == 8 * Power(3);
  }

  /** Up to eight bits every code can be stored as it is. */
  lemma StoreExact(row: seq<real>, symmetric: bool, bits: nat, i: nat)
    requires row != [] && 2 <= bits <= 8 && i < |row|
    ensures Quantised(row, symmetric, bits, i) == Clamped(row, symmetric, bits, i)
  {
    hide Clamped, Power, RowScale, ZeroPoint;
    CodeError(row, symmetric, bits, i);
    PowerEight();
    PowerMono(bits, 8);
    PowerMono(bits - 1, 7);
  }

  ghost predicate Accurate(row: seq<real>, symmetric: bool, bits: nat, i: nat)
    requires row != [] && bits >= 2 && i < |row|
  {
    var s := RowScale(row, symmetric, bits);
    Abs((Quantised(row, symmetric, bits, i) - ZeroPoint(row, symmetric, bits)) as real * s - row[i]) <= s / 2.0
  }

  /** Reconstruction is off by at most half a scale step, in both modes, for every row and every
      bit width that the storage type has. */
  lemma ReconstructionError(row: seq<real>, symmetric: bool, bits: nat, i: nat)
    requires row != [] && 2 <= bits <= 8 && i < |row|
    ensures Accurate(row, symmetric, bits, i)
  {
    hide RowScale, Quantised, Clamped, ZeroPoint, Power, Round;
    CodeError(row, symmetric, bits, i);
    StoreExact(row, symmetric, bits, i);
    var s := RowScale(row, symmetric, bits);
    ScaleError((Quantised(row, symmetric, bits, i) - ZeroPoint(row, symmetric, bits)) as real, row[i], s);
  }

  // ---- the scale ----------------------------------------------------------

  /** What the codes have to span: the largest magnitude, or the distance from the least element to
      the largest. */
  ghost predicate IsSpan(row: seq<real>, symmetric: bool, span: real)
  {
    if symmetric then
      (forall i :: 0 <= i < |row| ==> Abs(row[i]) <= span) && exists i :: 0 <= i < |row| && Abs(row[i]) == span
    else
      && (forall i, j :: 0 <= i < |row| && 0 <= j < |row| ==> row[j] - row[i] <= span)
      && exists i, j :: 0 <= i < |row| && 0 <= j < |row| && row[j] - row[i] == span
  }

  lemma SpanOf(row: seq<real>, symmetric: bool) returns (span: real)
    requires row != []
    ensures IsSpan(row, symmetric, span) && span >= 0.0
    ensures forall bits: nat :: bits >= 2 ==>
      RowScale(row, symmetric, bits) == Max(span / QMax(symmetric, bits) as real, MIN_SCALE)
  {
    hide Power;
    var lo, hi := RowMin(row), RowMax(row);
    var i :| 0 <= i < |row| && row[i] == lo;
    var j :| 0 <= j < |row| && row[j] == hi;
    span := if symmetric then Max(Abs(lo), Abs(hi)) else hi - lo;
    assert if symmetric then Abs(row[i]) == span || Abs(row[j]) == span else row[j] - row[i] == span;
  }

  lemma OneSpan(row: seq<real>, symmetric: bool, a: real, b: real)
    requires IsSpan(row, symmetric, a) && IsSpan(row, symmetric, b)
    ensures a == b
  {
    if symmetric {
      var i :| 0 <= i < |row| && Abs(row[i]) == a;
      var j :| 0 <= j < |row| && Abs(row[j]) == b;
    } else {
      var i, j :| 0 <= i < |row| && 0 <= j < |row| && row[j] - row[i] == a;
      var k, l :| 0 <= k < |row| && 0 <= l < |row| && row[l] - row[k] == b;
    }
  }

  /** The step is as small as it can be: qmax steps are exactly the span, unless that is less than
      qmax hundred-thousandths, and then the step is 0.00001. */
  lemma ScaleIs(row: seq<real>, symmetric: bool, bits: nat, span: real)
    requires row != [] && bits >= 2 && IsSpan(row, symmetric, span)
    ensures var n := QMax(symmetric, bits) as real;
      RowScale(row, symmetric, bits) * n == Max(span, n * 0.00001)
  {
    hide Power, RowScale, IsSpan, QMax;
    var s := SpanOf(row, symmetric);
    OneSpan(row, symmetric, s, span);
    LargerQuotient(span, QMax(symmetric, bits) as real, 0.00001);
  }

  lemma LargerQuotient(x: real, n: real, least: real)
    requires n > 0.0
    ensures Max(x / n, least) * n == Max(x, n * least)
  {
    var q := x / n;
    assert q * n == x;
    if q < least { Times(q, least, n); } else { Times(least, q, n); }
  }

  /** The error of every element in absolute terms. */
  lemma AbsoluteError(row: seq<real>, symmetric: bool, bits: nat, i: nat, span: real)
    requires row != [] && 2 <= bits <= 8 && i < |row| && IsSpan(row, symmetric, span)
    ensures var n := QMax(symmetric, bits) as real;
      var back := (Quantised(row, symmetric, bits, i) - ZeroPoint(row, symmetric, bits)) as real
                  * RowScale(row, symmetric, bits);
      2.0 * n * Abs(back - row[i]) <= Max(span, n * 0.00001)
  {
    hide RowScale, Quantised, ZeroPoint, QMax, IsSpan;
    ReconstructionError(row, symmetric, bits, i);
    ScaleIs(row, symmetric, bits, span);
    var n, s := QMax(symmetric, bits) as real, RowScale(row, symmetric, bits);
    var back := (Quantised(row, symmetric, bits, i) - ZeroPoint(row, symmetric, bits)) as real * s;
    Times(Abs(back - row[i]), s / 2.0, n);
  }

  /** In symmetric mode an element of the largest magnitude gets the largest code or its negation,
      unless the whole row is below the least step. */
  lemma LargestCode(row: seq<real>, bits: nat, i: nat)
    requires row != [] && bits >= 2 && i < |row| && IsSpan(row, true, Abs(row[i]))
    requires Abs(row[i]) >= QMax(true, bits) as real * 0.00001
    ensures Clamped(row, true, bits, i) == if row[i] < 0.0 then -QMax(true, bits) else QMax(true, bits)
  {
    hide Power, RowScale, QMax, IsSpan, Round;
    ScaleIs(row, true, bits, Abs(row[i]));
    CodeRange(true, bits);
    var n, s := QMax(true, bits), RowScale(row, true, bits);
    Exactly(row[i], s, if row[i] < 0.0 then -n else n);
  }

  /** In asymmetric mode a least element gets code 0. */
  lemma LeastCode(row: seq<real>, bits: nat, i: nat)
    requires row != [] && bits >= 2 && i < |row| && forall j :: 0 <= j < |row| ==> row[i] <= row[j]
    ensures Clamped(row, false, bits, i) == 0
  {
    hide Power, RowScale, QMax, Round;
    assert RowMin(row) == row[i];
    hide RowMin;
    var q := row[i] / RowScale(row, false, bits);
    CodeRange(false, bits);
    RoundNearZero(q - Round(q) as real);
    assert q + (-Round(q)) as real == q - Round(q) as real;
  }

  lemma Exactly(x: real, s: real, n: int)
    requires s > 0.0 && x == n as real * s
    ensures Round(x / s + 0 as real) == n
  {
    var q := x / s;
    assert q * s == x;
    if q < n as real { Cancel(n as real, q, s); }
    if q > n as real { Cancel(q, n as real, s); }
  }

  lemma RoundNearZero(x: real)
    requires Abs(x) <= 0.5
    ensures Round(x) == 0
  {
  }

  /** The row whose largest code is the largest of the bit width. */
  function FullRow(symmetric: bool, bits: nat): seq<real>
    requires bits >= 2
  {
    [if symmetric then QMax(true, bits) as real else 0.0, QMax(symmetric, bits) as real]
  }

  lemma OfTwo(a: real, b: real)
    requires a <= b
    ensures RowMin([a, b]) == a && RowMax([a, b]) == b
  {
    assert [a, b][..1] == [a];
    assert RowMin([a]) == a && RowMax([a]) == a;
  }

  lemma WholeQuotient(n: real)
    requires n > 0.0
    ensures n / n == 1.0
  {
  }

  lemma FullScale(symmetric: bool, bits: nat)
    requires bits >= 2
    ensures RowScale(FullRow(symmetric, bits), symmetric, bits) == 1.0 &&
      ZeroPoint(FullRow(symmetric, bits), symmetric, bits) == 0
  {
    var row, n := FullRow(symmetric, bits), QMax(symmetric, bits) as real;
    OfTwo(row[0], row[1]);
    hide Power, RowMin, RowMax, QMax;
    assert row == [row[0], row[1]];
    WholeQuotient(n);
  }

  lemma FullCode(symmetric: bool, bits: nat)
    requires bits >= 2
    ensures Clamped(FullRow(symmetric, bits), symmetric, bits, 1) == QMax(symmetric, bits)
  {
    hide RowScale, ZeroPoint, Power, QMax;
    var row, n := FullRow(symmetric, bits), QMax(symmetric, bits);
    FullScale(symmetric, bits);
    assert row[1] / 1.0 + 0 as real == n as real;
    assert Round(n as real) == n;
    CodeRange(symmetric, bits);
  }

  /** There are 2^bits codes. */
  lemma CodeRange(symmetric: bool, bits: nat)
    requires bits >= 2
    ensures QMax(symmetric, bits) - QMin(symmetric, bits) + 1 == Power(bits)
    ensures QMin(symmetric, bits) == if symmetric then -QMax(symmetric, bits) - 1 else 0
  {
  }

  /** Above eight bits the largest code is stored as -1 or 255. */
  lemma TooWide(symmetric: bool, bits: nat)
    requires bits > 8
    ensures Quantised(FullRow(symmetric, bits), symmetric, bits, 1) == (if symmetric then -1 else 255)
    ensures !Accurate(FullRow(symmetric, bits), symmetric, bits, 1)
  {
    hide RowScale, ZeroPoint, Power, Clamped;
    FullScale(symmetric, bits);
    FullCode(symmetric, bits);
    PowerBig(bits);
    PowerBig(bits - 1);
    var n := QMax(symmetric, bits);
    assert if symmetric then n >= 255 else n >= 511 by {
      if !symmetric { assert Power(bits) == 2 * Power(bits - 1) by { PowerNext(bits); } }
    }
  }

  lemma PowerNext(n: nat)
    requires n > 0
    ensures Power(n) == 2 * Power(n - 1)
  {
  }

  /** The largest value of a nine-bit row comes back as its negated scale. */
  lemma NineBits()
    ensures FullRow(true, 9) == [255.0, 255.0]
    ensures RowScale([255.0, 255.0], true, 9) == 1.0 && Quantised([255.0, 255.0], true, 9, 1) == -1
  {
    PowerEight();
    FullScale(true, 9);
    TooWide(true, 9);
  }

  /** All rows are reconstructed within half a step if and only if the codes fit the storage type. */
  lemma AccurateIff(symmetric: bool, bits: nat)
    requires bits >= 2
    ensures (forall row: seq<real>, i: nat :: row != [] && i < |row| ==> Accurate(row, symmetric, bits, i)) <==>
      bits <= 8
  {
    hide Accurate;
    if bits <= 8 {
      forall row: seq<real>, i: nat | row != [] && i < |row| ensures Accurate(row, symmetric, bits, i) {
        ReconstructionError(row, symmetric, bits, i);
      }
    } else {
      TooWide(symmetric, bits);
    }
  }

  lemma ScaleError(q: real, x: real, s: real)
    requires s > 0.0 && Abs(q - x / s) <= 0.5
    ensures Abs(q * s - x) <= s / 2.0
  {
    var y := x / s;
    assert y * s == x;
    assert q * s - x == (q - y) * s;
    Times(q - y, 0.5, s);
    Times(-0.5, q - y, s);
  }

  /** The zero point is stored as int32. It fits if and only if the row minimum is less than
      2^31 - 1/2 scale steps from zero; a constant row far from zero breaks that, because the
      floor of the scale then sets the step. */
  lemma ZeroPointFitsIff(row: seq<real>, bits: nat)
    requires row != [] && bits >= 2
    ensures -0x7FFF_FFFF <= ZeroPoint(row, false, bits) <= 0x7FFF_FFFF <==>
            Abs(RowMin(row)) < 2147483647.5 * RowScale(row, false, bits)
  {
    hide RowScale, RowMin;
    var x, s := RowMin(row), RowScale(row, false, bits);
    QuotientBelow(x, s, 2147483647.5);
    RoundFits(x / s);
  }

  lemma QuotientBelow(x: real, s: real, m: real)
    requires s > 0.0
    ensures Abs(x / s) < m <==> Abs(x) < m * s
  {
    var q := x / s;
    assert q * s == x;
    if Abs(x) < m * s {
      if q >= m { Times(m, q, s); }
      if -q >= m { Times(m, -q, s); }
    } else {
      if x >= m * s { Cancel(m, q, s); } else { Cancel(m, -q, s); }
    }
  }

  lemma RoundFits(y: real)
    ensures -0x7FFF_FFFF <= Round(y) <= 0x7FFF_FFFF <==> Abs(y) < 2147483647.5
  {
    var r := Round(y);
    if r > 0x7FFF_FFFF { assert r as real >= 2147483648.0; }
    if r < -0x7FFF_FFFF { assert r as real <= -2147483648.0; }
    if -0x7FFF_FFFF <= r <= 0x7FFF_FFFF {
      assert -2147483647.0 <= r as real <= 2147483647.0;
    }
  }

  lemma ZeroPointCanOverflow()
    ensures ZeroPoint([-1000000000.0], false, 8) > 0x7FFF_FFFF
  {
    var row := [-1000000000.0];
    assert RowMin(row) == RowMax(row) == -1000000000.0;
    assert RowScale(row, false, 8) == MIN_SCALE;
    assert -1000000000.0 / MIN_SCALE == -100000000000000.0;
  }

  // ---- the group quantiser ------------------------------------------------

  const FP8_MAX: real := 448.0
  const EPS: real := 0.0000000001

  function GroupMax(group: seq<real>): (m: real)
    ensures m >= EPS && forall i :: 0 <= i < |group| ==> Abs(group[i]) <= m
    ensures m == 0.0000000001 || exists i :: 0 <= i < |group| && m == Abs(group[i])
  {
    if group == [] then EPS else Max(GroupMax(group[..|group| - 1]), Abs(group[|group| - 1]))
  }

  /** p is 2^ceil(log2(s)). */
  ghost predicate IsPowerAbove(p: real, s: real)
  {
    exists e: int :: p == Pow2(e) && Pow2(e - 1) < s <= Pow2(e)
  }

  lemma {:induction false} Pow2Large(n: nat)
    ensures Pow2(n) >= n as real + 1.0
  {
    if n > 0 {
      Pow2Large(n - 1);
      Pow2Step(n - 1);
    }
  }

  lemma {:induction false} Pow2Inverse(n: nat, m: int)
    requires m + n == 0
    ensures Pow2(m) * Pow2(n) == 1.0
  {
    if n > 0 {
      Pow2Inverse(n - 1, m + 1);
      Pow2Step(n - 1);
      Pow2Step(m);
      Halved(Pow2(m), Pow2(n - 1), Pow2(m + 1), Pow2(n));
    }
  }

  lemma Halved(a: real, b: real, c: real, d: real)
    requires c == 2.0 * a && d == 2.0 * b && c * b == 1.0
    ensures a * d == 1.0
  {
  }

  lemma {:induction false} PowerBetween(s: real, lo: int, hi: int) returns (p: real)
    requires lo < hi && Pow2(lo) < s <= Pow2(hi)
    ensures IsPowerAbove(p, s)
    decreases hi - lo
  {
    hide Pow2;
    if s <= Pow2(hi - 1) { p := PowerBetween(s, lo, hi - 1); } else { p := Pow2(hi); }
  }

  /** Every positive scale has a power of two above it in this sense, and only one. */
  lemma SomePower(s: real) returns (p: real)
    requires s > 0.0
    ensures IsPowerAbove(p, s) && forall q :: IsPowerAbove(q, s) ==> q == p
  {
    hide Pow2;
    var n, t := s.Floor + 1, 1.0 / s;
    var m := t.Floor + 1;
    assert t * s == 1.0;
    if t < 0.0 { Times(t, 0.0, s); }
    Pow2Large(n);
    Pow2Large(m);
    Pow2Inverse(m, -m);
    BelowInverse(Pow2(-m), Pow2(m), t, s);
    if -m >= n { Pow2Mono(n - 1, -m); Pow2Mono(-m, -m + 1); }
    p := PowerBetween(s, -m, n);
    forall q | IsPowerAbove(q, s) ensures q == p { OnePower(p, q, s); }
  }

  lemma BelowInverse(a: real, b: real, t: real, s: real)
    requires a * b == 1.0 && t * s == 1.0 && b > t && s > 0.0 && a > 0.0 && t >= 0.0
    ensures a < s
  {
    Less(t, b, s);
    if a >= s { Times(s, a, b); }
  }

  lemma Less(x: real, y: real, h: real)
    requires h > 0.0 && x < y
    ensures x * h < y * h
  {
  }

  lemma OnePower(p: real, q: real, s: real)
    requires IsPowerAbove(p, s) && IsPowerAbove(q, s)
    ensures p == q
  {
    hide Pow2;
    var d :| p == Pow2(d) && Pow2(d - 1) < s <= Pow2(d);
    var e :| q == Pow2(e) && Pow2(e - 1) < s <= Pow2(e);
    if d < e { if d < e - 1 { Pow2Mono(d, e - 1); } }
    if e < d { if e < d - 1 { Pow2Mono(e, d - 1); } }
  }

  lemma PowerAbove(p: real, s: real)
    requires IsPowerAbove(p, s)
    ensures 0.0 < s <= p < 2.0 * s
  {
    hide Pow2;
    var e :| p == Pow2(e) && Pow2(e - 1) < s <= Pow2(e);
    Pow2Step(e - 1);
  }

  /** With or without rounding the scale up to a power of two, the clamp to the FP8 range
      changes no element; and the rounded scale is less than twice the exact one. */
  lemma GroupClampInactive(group: seq<real>, p: real, i: nat)
    requires i < |group| && (p == GroupMax(group) / FP8_MAX || IsPowerAbove(p, GroupMax(group) / FP8_MAX))
    ensures 0.0 < GroupMax(group) <= 448.0 * p < 2.0 * GroupMax(group)
    ensures Clamp(group[i] / p, -448.0, 448.0) == group[i] / p
  {
    hide IsPowerAbove, GroupMax;
    var m := GroupMax(group);
    if p != m / FP8_MAX { PowerAbove(p, m / FP8_MAX); }
    assert Abs(group[i]) <= m <= FP8_MAX * p;
    InRange(group[i], p, FP8_MAX);
  }
}
