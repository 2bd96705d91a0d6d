/** One-time keys: sixteen random draws, each written in base 36 (server.js `generateKey`). */
module KeyGen {

  const CHUNKS := 16
  const KEY_LENGTH := 64

  type Draw = d: real | 0.0 <= d < 1.0
  /** The sixteen values of `Math.random()` one key consumes. */
  type Draws = ds: seq<Draw> | |ds| == CHUNKS witness seq(CHUNKS, _ => 0.0)

  type Digit = n: nat | n < 36

  function DigitChar(d: Digit): char {
    if d < 10 then ('0' as int + d) as char else ('a' as int + d - 10) as char
  }

  /** `toString(36)` on a non-negative integer. */
  function Base36(n: nat): string {
    if n < 36 then [DigitChar(n)] else Base36(n / 36) + [DigitChar(n % 36)]
  }

  /** Between 1 and 2 a double is a multiple of 1 / DOUBLES (IEEE 754, binary64). */
  const DOUBLES := 4503599627370496.0
  /** Half the distance between two of them. */
  const HALF_STEP := 0.5 / DOUBLES
  /** A chunk is this many steps. */
  const STEPS := 68719476736

  /** To the nearest integer, a tie to the even one (section 4.3.1 of IEEE 754). */
  function Nearest(x: real): int {
    var n := x.Floor;
    if x - n as real < 0.5 || (x - n as real == 0.5 && n % 2 == 0) then n else n + 1
  }

  /** `Math.floor((1 + Math.random()) * 0x10000)`: the sum is rounded to a double, the product is exact. */
  function Chunk(d: Draw): nat {
    Nearest((1.0 + d) * DOUBLES) / STEPS
  }

  /** The part of a draw that reaches the key: sixteen bits of it, after rounding. */
  function Bits(d: Draw): nat {
    ((d + HALF_STEP) * 65536.0).Floor
  }

  function KeyFrom(ds: seq<Draw>): string {
    if ds == [] then "" else KeyFrom(ds[..|ds| - 1]) + Base36(Chunk(ds[|ds| - 1]))
  }

  /** The accumulating loop of `generateKey`. */
  method GenerateKey(draws: Draws) returns (key: string)
    ensures key == KeyFrom(draws)
  {
    key := "";
    for i := 0 to CHUNKS
      invariant key == KeyFrom(draws[..i])
    {
      assert draws[..i + 1][..i] == draws[..i];
      key := key + Base36(Chunk(draws[i]));
    }
    assert draws[..CHUNKS] == draws;
  }

  predicate KeyChar(c: char) {
    '0' <= c <= '9' || 'a' <= c <= 'z'
  }

  /** 64 lower-case alphanumeric characters. */
  predicate WellFormedKey(key: string) {
    |key| == KEY_LENGTH && forall k :: 0 <= k < |key| ==> KeyChar(key[k])
  }

  /** The fixed-width form of a four-digit number, digit by digit. */
  lemma FourDigits(n: nat)
    requires 46656 <= n < 1679616
    ensures Base36(n) == [DigitChar(n / 46656), DigitChar(n / 1296 % 36), DigitChar(n / 36 % 36), DigitChar(n % 36)]
  {
    var a, b, c := n / 36, n / 36 / 36, n / 36 / 36 / 36;
    assert b == n / 1296 && c == n / 46656;
    assert c < 36 && 36 <= b && 36 <= a;
    assert Base36(c) == [DigitChar(c)];
    assert Base36(b) == Base36(c) + [DigitChar(b % 36)];
    assert Base36(a) == Base36(b) + [DigitChar(a % 36)];
    assert Base36(n) == Base36(a) + [DigitChar(n % 36)];
  }

  lemma DigitCharInjective(a: Digit, b: Digit)
    ensures DigitChar(a) == DigitChar(b) ==> a == b
  {
    if a < 10 && b >= 10 { assert DigitChar(a) <= '9' < 'a' <= DigitChar(b); }
    if b < 10 && a >= 10 { assert DigitChar(b) <= '9' < 'a' <= DigitChar(a); }
  }

  lemma FloorOfQuotient(z: real, q: int)
    requires q == z.Floor / STEPS
    ensures (z / STEPS as real).Floor == q
  {
    assert q as real * STEPS as real <= z.Floor as real <= z;
    assert z.Floor + 1 <= (q + 1) * STEPS;
    assert z < (z.Floor + 1) as real <= ((q + 1) * STEPS) as real;
  }

  /** Rounding to even cannot carry a sum across a chunk's border that adding half a step does not carry it across. */
  lemma NearestSteps(y: real)
    ensures Nearest(y) / STEPS == (y + 0.5).Floor / STEPS
  {
    var n := y.Floor;
    if y - n as real == 0.5 && n % 2 == 0 {
      assert (y + 0.5).Floor == n + 1;
      assert n / STEPS == (n + 1) / STEPS;
    } else {
      assert (y + 0.5).Floor == Nearest(y);
    }
  }

  /** A chunk is 65536 and the draw's bits. */
  lemma ChunkBits(d: Draw)
    ensures Chunk(d) == 65536 + Bits(d)
  {
    var y := (1.0 + d) * DOUBLES;
    NearestSteps(y);
    FloorOfQuotient(y + 0.5, (y + 0.5).Floor / STEPS);
    assert (y + 0.5) / STEPS as real == 65536.0 + (d + HALF_STEP) * 65536.0;
  }

  /** Each chunk has exactly four base-36 digits, whatever the draw.  It exceeds sixteen bits only for the
      draws that are rounded up to 1, which among doubles is the largest one below 1. */
  lemma ChunkRange(d: Draw)
    ensures 65536 <= Chunk(d) <= 131072
    ensures Chunk(d) == 131072 <==> d >= 1.0 - HALF_STEP
    ensures |Base36(Chunk(d))| == 4
  {
    ChunkBits(d);
    FourDigits(Chunk(d));
  }

  /** For a draw that `1 + d` represents exactly, the bits are the first sixteen of the draw. */
  lemma BitsExact(d: Draw, m: nat)
    requires d == m as real / DOUBLES
    ensures Bits(d) == (d * 65536.0).Floor == m / STEPS < 65536
  {
    FloorOfQuotient(m as real, m / STEPS);
    FloorOfQuotient(m as real + 0.5, m / STEPS);
    assert m as real / STEPS as real == d * 65536.0;
    assert (m as real + 0.5) / STEPS as real == (d + HALF_STEP) * 65536.0;
  }

  /** Four digits determine the number they write. */
  lemma Base36Injective(m: nat, n: nat)
    requires 46656 <= m < 1679616 && 46656 <= n < 1679616
    requires Base36(m) == Base36(n)
    ensures m == n
  {
    FourDigits(m);
    FourDigits(n);
    assert Base36(m)[0] == Base36(n)[0] && Base36(m)[1] == Base36(n)[1]
        && Base36(m)[2] == Base36(n)[2] && Base36(m)[3] == Base36(n)[3];
    DigitCharInjective(m / 46656, n / 46656);
    DigitCharInjective(m / 1296 % 36, n / 1296 % 36);
    DigitCharInjective(m / 36 % 36, n / 36 % 36);
    DigitCharInjective(m % 36, n % 36);
    FromDigits(m);
    FromDigits(n);
  }

  lemma FromDigits(n: nat)
    ensures n == n / 46656 * 46656 + n / 1296 % 36 * 1296 + n / 36 % 36 * 36 + n % 36
  {
    var a, b := n / 36, n / 1296;
    assert b == a / 36 && n / 46656 == b / 36;
    assert n == a * 36 + n % 36 && a == b * 36 + a % 36 && b == b / 36 * 36 + b % 36;
  }

  /** A key is always 64 lower-case alphanumeric characters. */
  lemma {:induction false} KeyShape(ds: seq<Draw>)
    ensures |KeyFrom(ds)| == 4 * |ds|
    ensures forall k :: 0 <= k < |KeyFrom(ds)| ==> KeyChar(KeyFrom(ds)[k])
  {
    if ds == [] {
    } else {
      var d := ds[|ds| - 1];
      KeyShape(ds[..|ds| - 1]);
      ChunkRange(d);
      FourDigits(Chunk(d));
    }
  }

  lemma KeyWidth(ds: Draws)
    ensures WellFormedKey(KeyFrom(ds))
  {
    KeyShape(ds);
  }

  lemma ChunkInjective(x: Draw, y: Draw)
    ensures |Base36(Chunk(x))| == |Base36(Chunk(y))| == 4
    ensures Base36(Chunk(x)) == Base36(Chunk(y)) <==> Bits(x) == Bits(y)
  {
    ChunkRange(x);
    ChunkRange(y);
    ChunkBits(x);
    ChunkBits(y);
    if Base36(Chunk(x)) == Base36(Chunk(y)) { Base36Injective(Chunk(x), Chunk(y)); }
  }

  /** Two draws of the same length give the same key exactly when they agree on the bits of every chunk. */
  lemma {:induction false} KeyInjective(a: seq<Draw>, b: seq<Draw>)
    requires |a| == |b|
    ensures KeyFrom(a) == KeyFrom(b) <==> forall k :: 0 <= k < |a| ==> Bits(a[k]) == Bits(b[k])
  {
    if a == [] {
    } else {
      var n := |a| - 1;
      var x, y := a[..n], b[..n];
      KeyInjective(x, y);
      KeyShape(x);
      KeyShape(y);
      ChunkInjective(a[n], b[n]);
      var ca, cb := Base36(Chunk(a[n])), Base36(Chunk(b[n]));
      assert KeyFrom(a) == KeyFrom(x) + ca && KeyFrom(b) == KeyFrom(y) + cb;
      if KeyFrom(a) == KeyFrom(b) {
        assert KeyFrom(a)[..4 * n] == KeyFrom(x) && KeyFrom(b)[..4 * n] == KeyFrom(y);
        assert KeyFrom(a)[4 * n..] == ca && KeyFrom(b)[4 * n..] == cb;
        forall k | 0 <= k < |a| ensures Bits(a[k]) == Bits(b[k]) {
          if k < n { assert x[k] == a[k] && y[k] == b[k]; }
        }
      }
    }
  }
}
