/** Byte strings: little-endian integers (`to_le_bytes` / `from_le_bytes`) and the
    UTF-8 encoding that `String::into_bytes` exposes. */
module Bytes {
  import opened Ints

  type byte = u8

  function Pow256(k: nat): (r: nat)
    ensures r > 0
  {
    if k == 0 then 1 else 256 * Pow256(k - 1)
  }

  /** `n.to_le_bytes()` for a `k`-byte integer: least significant byte first. */
  function LE(n: nat, k: nat): (r: seq<byte>)
    ensures |r| == k
  {
    if k == 0 then [] else [(n % 256) as byte] + LE(n / 256, k - 1)
  }

  /** `from_le_bytes`: the value of a little-endian byte string. */
  function FromLE(b: seq<byte>): (r: nat)
    ensures r < Pow256(|b|)
  {
    if |b| == 0 then 0 else b[0] + 256 * FromLE(b[1..])
  }

  /** The `k` bytes hold `n` truncated to `k` bytes, as an `as u32` cast before
      `to_le_bytes` would leave it. */
  lemma {:induction false} LEValue(n: nat, k: nat)
    ensures FromLE(LE(n, k)) == n % Pow256(k)
  {
    if k > 0 {
      var r := LE(n, k);
      assert r[1..] == LE(n / 256, k - 1);
      LEValue(n / 256, k - 1);
      TruncateStep(n, Pow256(k - 1));
    }
  }

  /** Reading back a little-endian encoding gives the number, whenever it fits. */
  lemma LERoundTrip(n: nat, k: nat)
    requires n < Pow256(k)
    ensures FromLE(LE(n, k)) == n
  {
    LEValue(n, k);
    DivModUnique(n, Pow256(k), 0, n);
  }

  /** Truncating to one more byte keeps the low byte and truncates the rest. */
  lemma TruncateStep(n: nat, p: nat)
    requires p > 0
    ensures n % (256 * p) == n % 256 + 256 * ((n / 256) % p)
  {
    var q := n / 256;
    var t, s := q / p, q % p;
    assert n == 256 * q + n % 256;
    assert q == p * t + s;
    assert 256 * q == (256 * p) * t + 256 * s;
    assert s + 1 <= p;
    MulLe(256, s + 1, p);
    DivModUnique(n, 256 * p, t, 256 * s + n % 256);
  }

  lemma MulLe(d: nat, a: nat, b: nat)
    requires a <= b
    ensures d * a <= d * b
  {
  }

  /** Euclidean division has one quotient and one remainder. */
  lemma DivModUnique(n: nat, d: nat, t: nat, m: nat)
    requires d > 0 && m < d && n == d * t + m
    ensures n / d == t && n % d == m
  {
    var q := n / d;
    assert n == d * q + n % d;
    if q < t {
      MulLe(d, q + 1, t);
      assert false;
    } else if q > t {
      MulLe(d, t + 1, q);
      assert false;
    }
  }

  // ---------------------------------------------------------------- UTF-8

  /** The UTF-8 encoding of one scalar value (section 3 of RFC 3629). */
  function Utf8Char(c: char): (r: seq<byte>)
    ensures 1 <= |r| <= 4
    ensures |r| == 1 <==> c as int < 0x80
    ensures |r| == 1 ==> r[0] == c as int
  {
    var n := c as int;
    if n < 0x80 then [n as byte]
    else if n < 0x800 then [(0xC0 + n / 64) as byte, (0x80 + n % 64) as byte]
    else if n < 0x10000 then
      [(0xE0 + n / 4096) as byte, (0x80 + (n / 64) % 64) as byte, (0x80 + n % 64) as byte]
    else
      [(0xF0 + n / 262144) as byte, (0x80 + (n / 4096) % 64) as byte,
       (0x80 + (n / 64) % 64) as byte, (0x80 + n % 64) as byte]
  }

  /** `String::into_bytes`: the UTF-8 encoding of every character, in order. */
  function Utf8(s: string): (r: seq<byte>)
    ensures |r| >= |s|
  {
    if |s| == 0 then [] else Utf8(s[..|s| - 1]) + Utf8Char(s[|s| - 1])
  }

  /** Encoding distributes over concatenation, so a string built piece by piece
      encodes piece by piece. */
  lemma {:induction false} Utf8Append(a: string, b: string)
    ensures Utf8(a + b) == Utf8(a) + Utf8(b)
    decreases |b|
  {
    if |b| == 0 {
      assert a + b == a;
    } else {
      var b', last := b[..|b| - 1], b[|b| - 1];
      assert (a + b)[..|a + b| - 1] == a + b' && (a + b)[|a + b| - 1] == last;
      assert Utf8(a + b) == Utf8(a + b') + Utf8Char(last);
      assert Utf8(b) == Utf8(b') + Utf8Char(last);
      Utf8Append(a, b');
      AppendAssoc(Utf8(a), Utf8(b'), Utf8Char(last));
    }
  }

  /** Concatenation is associative. The solver knows this; the one instance
      `Utf8Append` needs is handed to it here, since searching for it costs that
      proof ten times as much. */
  lemma AppendAssoc(x: seq<byte>, y: seq<byte>, z: seq<byte>)
    ensures x + y + z == x + (y + z)
  {
  }

  predicate IsAscii(s: string)
  {
    forall i :: 0 <= i < |s| ==> s[i] as int < 0x80
  }

  /** An ASCII string encodes to one byte per character, each its code point. */
  lemma {:induction false} Utf8Ascii(s: string)
    requires IsAscii(s)
    ensures |Utf8(s)| == |s|
    ensures forall i :: 0 <= i < |s| ==> Utf8(s)[i] == s[i] as int
  {
    if |s| > 0 {
      Utf8Ascii(s[..|s| - 1]);
    }
  }
}
