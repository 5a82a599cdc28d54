/** Raw bytes, and the little-endian two's-complement image that `memcpy` gives an `int32_t`. */
module Bytes {

  datatype Option<+T> = None | Some(value: T)

  function Min(x: int, y: int): int {
    if x <= y then x else y
  }

  function Max(x: int, y: int): int {
    if x >= y then x else y
  }

  type byte = b: int | 0 <= b < 256

  type Palabra = s: seq<byte> | |s| == 4 witness [0, 0, 0, 0]

  const MODULUS := 0x1_0000_0000

  predicate IsInt32(x: int) {
    -0x8000_0000 <= x < 0x8000_0000
  }

  /** The four bytes of an int32_t; an integer outside the type wraps around first. */
  function Encode(x: int): (s: seq<byte>)
    ensures |s| == 4
  {
    var q0 := x % MODULUS;
    var q1 := q0 / 256;
    var q2 := q1 / 256;
    [q0 % 256, q1 % 256, q2 % 256, q2 / 256]
  }

  function Unsigned(s: seq<byte>): int
    requires |s| == 4
  {
    s[0] as int + 0x100 * s[1] as int + 0x1_0000 * s[2] as int + 0x100_0000 * s[3] as int
  }

  function Decode(s: seq<byte>): (x: int)
    requires |s| == 4
    ensures IsInt32(x)
  {
    var u := Unsigned(s);
    if u < 0x8000_0000 then u else u - MODULUS
  }

  /** The bytes bring an integer back exactly when it fits the type. */
  lemma DecodeEncode(x: int)
    ensures Decode(Encode(x)) == x <==> IsInt32(x)
  {
    assert Unsigned(Encode(x)) == x % MODULUS;
  }

  lemma Digit(low: int, high: int)
    requires 0 <= low < 256
    ensures (low + 256 * high) / 256 == high && (low + 256 * high) % 256 == low
  {
  }

  lemma EncodeDecode(s: seq<byte>)
    requires |s| == 4
    ensures Encode(Decode(s)) == s
  {
    var q2 := s[2] as int + 256 * s[3] as int;
    var q1 := s[1] as int + 256 * q2;
    var q0 := s[0] as int + 256 * q1;
    assert Decode(s) % MODULUS == q0;
    Digit(s[2], s[3]);
    Digit(s[1], q2);
    Digit(s[0], q1);
  }

  /** `s` with the bytes `b` copied over it from position `off` on. */
  function Splice(s: seq<byte>, off: nat, b: seq<byte>): (r: seq<byte>)
    requires off + |b| <= |s|
    ensures |r| == |s|
  {
    seq(|s|, i requires 0 <= i < |s| => if off <= i < off + |b| then b[i - off] else s[i])
  }

  /** A copy that reaches the end of the buffer. */
  lemma SpliceTail(s: seq<byte>, off: nat, b: seq<byte>)
    requires off + |b| == |s|
    ensures Splice(s, off, b) == s[..off] + b
  {
  }

  /** What was copied is there, and what it does not overlap is as it was. */
  lemma SpliceRead(s: seq<byte>, off: nat, b: seq<byte>, lo: nat, n: nat)
    requires off + |b| <= |s| && lo + n <= |s|
    ensures lo == off && n == |b| ==> Splice(s, off, b)[lo..lo + n] == b
    ensures lo + n <= off || off + |b| <= lo ==> Splice(s, off, b)[lo..lo + n] == s[lo..lo + n]
  {
  }

  lemma SliceOfSlice(s: seq<byte>, a: nat, b: nat, i: nat, j: nat)
    requires a <= b <= |s| && i <= j <= b - a
    ensures s[a..b][i..j] == s[a + i..a + j]
  {
    var x, y := s[a..b][i..j], s[a + i..a + j];
    forall k | 0 <= k < |x|
      ensures x[k] == y[k]
    {
      assert x[k] == s[a..b][i + k] == s[a + (i + k)];
    }
  }

  /** `memcpy(&stream[off], b, |b|)` on a heap buffer. */
  method Memcpy(stream: array<byte>, off: nat, b: seq<byte>)
    requires off + |b| <= stream.Length
    modifies stream
    ensures stream[..] == Splice(old(stream[..]), off, b)
  {
    forall k | 0 <= k < |b| {
      stream[off + k] := b[k];
    }
  }
}
