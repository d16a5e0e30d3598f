/** Little-endian numbers and edits of a byte buffer in place. */
module Bytes {
  import opened Values

  type Byte = b: int | 0 <= b < 256

  type Blob = seq<Byte>

  function Power(k: nat): (p: nat)
    ensures p > 0
  {
    if k == 0 then 1 else 256 * Power(k - 1)
  }

  /** The k low bytes of n, least significant first. */
  function ToLe(n: nat, k: nat): (s: Blob)
    ensures |s| == k
  {
    if k == 0 then [] else [n % 256] + ToLe(n / 256, k - 1)
  }

  function FromLe(s: Blob): nat {
    if s == [] then 0 else s[0] + 256 * FromLe(s[1..])
  }

  lemma {:induction false} LeRoundTrip(n: nat, k: nat)
    requires n < Power(k)
    ensures FromLe(ToLe(n, k)) == n
  {
    if k > 0 {
      LeRoundTrip(n / 256, k - 1);
      assert ToLe(n, k)[1..] == ToLe(n / 256, k - 1);
    }
  }

  lemma PowerValues()
    ensures Power(1) == 0x100 && Power(4) == 0x1_0000_0000 && Power(8) == 0x1_0000_0000_0000_0000
  {
    assert Power(2) == 256 * Power(1) && Power(3) == 256 * Power(2);
    assert Power(5) == 256 * Power(4) && Power(6) == 256 * Power(5) && Power(7) == 256 * Power(6);
  }

  // ----- signed numbers

  predicate FitsInt32(n: int) {
    -0x8000_0000 <= n < 0x8000_0000
  }

  /** `pack('<i')`. */
  function Int32(n: int): (s: Blob)
    requires FitsInt32(n)
    ensures |s| == 4
  {
    ToLe(if n < 0 then n + 0x1_0000_0000 else n, 4)
  }

  /** `unpack('<i')`. */
  function UnInt32(s: Blob): int
    requires |s| == 4
  {
    var n := FromLe(s);
    if n < 0x8000_0000 then n else n - 0x1_0000_0000
  }

  lemma Int32RoundTrip(n: int)
    requires FitsInt32(n)
    ensures UnInt32(Int32(n)) == n
  {
    PowerValues();
    LeRoundTrip(if n < 0 then n + 0x1_0000_0000 else n, 4);
  }

  predicate FitsInt64(n: int) {
    -0x8000_0000_0000_0000 <= n < 0x8000_0000_0000_0000
  }

  /** `pack('<q')`. */
  function Int64(n: int): (s: Blob)
    requires FitsInt64(n)
    ensures |s| == 8
  {
    ToLe(if n < 0 then n + 0x1_0000_0000_0000_0000 else n, 8)
  }

  /** `unpack('<q')`. */
  function UnInt64(s: Blob): int
    requires |s| == 8
  {
    var n := FromLe(s);
    if n < 0x8000_0000_0000_0000 then n else n - 0x1_0000_0000_0000_0000
  }

  lemma Int64RoundTrip(n: int)
    requires FitsInt64(n)
    ensures UnInt64(Int64(n)) == n
  {
    PowerValues();
    LeRoundTrip(if n < 0 then n + 0x1_0000_0000_0000_0000 else n, 8);
  }

  lemma {:induction false} FromLeBounded(s: Blob)
    ensures FromLe(s) < Power(|s|)
  {
    if s != [] {
      FromLeBounded(s[1..]);
    }
  }

  /** The numbers that fit are exactly those four, or eight, bytes can stand for. */
  lemma FitsExactly(n: int)
    ensures FitsInt32(n) <==> exists s: Blob :: |s| == 4 && UnInt32(s) == n
    ensures FitsInt64(n) <==> exists s: Blob :: |s| == 8 && UnInt64(s) == n
  {
    PowerValues();
    if FitsInt32(n) {
      Int32RoundTrip(n);
      assert |Int32(n)| == 4;
    }
    if FitsInt64(n) {
      Int64RoundTrip(n);
      assert |Int64(n)| == 8;
    }
    forall s: Blob | |s| == 4 ensures FitsInt32(UnInt32(s)) {
      FromLeBounded(s);
    }
    forall s: Blob | |s| == 8 ensures FitsInt64(UnInt64(s)) {
      FromLeBounded(s);
    }
  }

  // ----- edits in place

  lemma Assoc(a: Blob, b: Blob, c: Blob)
    ensures a + b + c == a + (b + c)
  {
  }

  /** `buffer[at : at + len(x)] = x`, over a part of the same length. */
  method Overwrite(s: Blob, at: nat, x: Blob, ghost a: Blob, ghost b: Blob, ghost c: Blob) returns (r: Blob)
    requires s == a + b + c && at == |a| && |x| == |b|
    ensures r == a + x + c
  {
    r := s[..at] + x + s[at + |x|..];
    assert s[..at] == a && s[at + |x|..] == c;
  }

  /** The same just behind a prefix of the buffer, which grows by zeros if need be. */
  method WriteBehind(s: Blob, at: nat, x: Blob, ghost a: Blob) returns (r: Blob, ghost rest: Blob)
    requires a <= s && at == |a|
    ensures a + x <= r && r == a + x + rest
  {
    r := s;
    if |r| < at + |x| {
      r := r + seq(at + |x| - |r|, i => 0);
    }
    assert r[..at] == a;
    rest := r[at + |x|..];
    r := r[..at] + x + r[at + |x|..];
  }

  // ----- cursors

  /** `BinaryReader`: a cursor over a buffer. */
  class BinaryReader {
    const data: Blob
    var pos: nat

    constructor (data: Blob)
      ensures this.data == data && pos == 0
    {
      this.data, pos := data, 0;
    }

    /** `read_int32`; it fails at the end of the buffer. */
    method ReadInt32() returns (r: Option<int>)
      modifies this
      ensures r.Some? <==> old(pos) + 4 <= |data|
      ensures r.Some? ==> r.value == UnInt32(data[old(pos)..old(pos) + 4]) && pos == old(pos) + 4
    {
      if pos + 4 > |data| {
        return None;
      }
      r := Some(UnInt32(data[pos..pos + 4]));
      pos := pos + 4;
    }

    /** `read_bytes`: as many as there are. */
    method ReadBytes(n: nat) returns (r: Blob)
      modifies this
      ensures pos == old(pos) + n
      ensures old(pos) + n <= |data| ==> r == data[old(pos)..old(pos) + n]
    {
      var from := if pos <= |data| then pos else |data|;
      var to := if pos + n <= |data| then pos + n else |data|;
      r := data[from..to];
      pos := pos + n;
    }

    /** The next n bytes of a buffer that holds them. */
    method Take(n: nat, ghost b: Blob, ghost rest: Blob) returns (r: Blob)
      requires pos <= |data| && data[pos..] == b + rest && n == |b|
      modifies this
      ensures r == b && pos <= |data| && data[pos..] == rest
    {
      assert data[pos..pos + n] == data[pos..][..n] && data[pos + n..] == data[pos..][n..];
      r := ReadBytes(n);
    }

    /** A length and that many bytes; it fails on a length that is cut off or negative. */
    method ReadSized() returns (r: Option<Blob>)
      modifies this
      ensures forall b, rest :: FitsInt32(|b|) && old(pos) <= |data| && data[old(pos)..] == Int32(|b|) + b + rest ==>
                r == Some(b) && pos == old(pos) + 4 + |b| && data[pos..] == rest
    {
      ghost var start := pos;
      var n := ReadInt32();
      forall b, rest: Blob | FitsInt32(|b|) && start <= |data| && data[start..] == Int32(|b|) + b + rest
        ensures n == Some(|b|) && data[start + 4..start + 4 + |b|] == b && data[start + 4 + |b|..] == rest
      {
        SizedAt(data, start, b, rest);
      }
      if n.None? || n.value < 0 {
        return None;
      }
      var b := ReadBytes(n.value);
      return Some(b);
    }
  }

  lemma SizedAt(data: Blob, start: nat, b: Blob, rest: Blob)
    requires FitsInt32(|b|) && start <= |data| && data[start..] == Int32(|b|) + b + rest
    ensures start + 4 + |b| <= |data|
    ensures UnInt32(data[start..start + 4]) == |b|
    ensures data[start + 4..start + 4 + |b|] == b && data[start + 4 + |b|..] == rest
  {
    var d := data[start..];
    assert data[start..start + 4] == d[..4] == Int32(|b|);
    Int32RoundTrip(|b|);
    assert data[start + 4..start + 4 + |b|] == d[4..4 + |b|] == b;
    assert data[start + 4 + |b|..] == d[4 + |b|..] == rest;
  }
}
