/** Fixed-width integers, the little- and big-endian layouts the files and packets use,
    and the two file operations (`pread`, `pwrite`) on a file kept as a byte sequence. */
module Bytes {
  type byte = x: int | 0 <= x < 0x100
  type uint16 = x: int | 0 <= x < 0x1_0000
  type uint32 = x: int | 0 <= x < 0x1_0000_0000
  type uint64 = x: int | 0 <= x < 0x1_0000_0000_0000_0000
  type int64 = x: int | -0x8000_0000_0000_0000 <= x < 0x8000_0000_0000_0000

  const TWO_32: int := 0x1_0000_0000
  const TWO_64: int := 0x1_0000_0000_0000_0000

  datatype Option<+T> = None | Some(value: T) {
    function UnwrapOr(default: T): T { if Some? then value else default }
  }

  function Min(a: int, b: int): int { if a < b then a else b }

  function Max(a: int, b: int): int { if a < b then b else a }

  function Pow256(n: nat): (r: nat)
    ensures r > 0
  {
    if n == 0 then 1 else 256 * Pow256(n - 1)
  }

  /** The `n` low bytes of `x`, least significant first. */
  function LittleEndian(x: nat, n: nat): (b: seq<byte>)
    ensures |b| == n
  {
    if n == 0 then [] else [x % 256] + LittleEndian(x / 256, n - 1)
  }

  function FromLittleEndian(b: seq<byte>): nat {
    if b == [] then 0 else b[0] + 256 * FromLittleEndian(b[1..])
  }

  /** The `n` low bytes of `x`, most significant first. */
  function BigEndian(x: nat, n: nat): (b: seq<byte>)
    ensures |b| == n
  {
    if n == 0 then [] else BigEndian(x / 256, n - 1) + [x % 256]
  }

  function FromBigEndian(b: seq<byte>): nat {
    if b == [] then 0 else 256 * FromBigEndian(b[..|b| - 1]) + b[|b| - 1]
  }

  /** Reading back `n` bytes gives the value modulo 256^n: what an unsigned cast keeps. */
  lemma {:induction false} LittleEndianRoundTrip(x: nat, n: nat)
    ensures x < Pow256(n) ==> FromLittleEndian(LittleEndian(x, n)) == x
  {
    if n > 0 {
      LittleEndianRoundTrip(x / 256, n - 1);
      assert LittleEndian(x, n)[1..] == LittleEndian(x / 256, n - 1);
    }
  }

  lemma {:induction false} BigEndianRoundTrip(x: nat, n: nat)
    ensures x < Pow256(n) ==> FromBigEndian(BigEndian(x, n)) == x
  {
    if n > 0 {
      BigEndianRoundTrip(x / 256, n - 1);
      var b := BigEndian(x, n);
      assert b[..|b| - 1] == BigEndian(x / 256, n - 1);
    }
  }

  /** The weight of each byte: least significant first, and most significant first. */
  lemma {:induction false} FourBytes(b: seq<byte>)
    requires |b| == 4
    ensures var d: seq<int> := b;
            && FromLittleEndian(b) == d[0] + 0x100 * d[1] + 0x1_0000 * d[2] + 0x100_0000 * d[3]
            && FromBigEndian(b) == 0x100_0000 * d[0] + 0x1_0000 * d[1] + 0x100 * d[2] + d[3]
  {
    assert b[1..] == [b[1], b[2], b[3]] && [b[1], b[2], b[3]][1..] == [b[2], b[3]] && [b[2], b[3]][1..] == [b[3]];
    assert b[..3] == [b[0], b[1], b[2]] && [b[0], b[1], b[2]][..2] == [b[0], b[1]] && [b[0], b[1]][..1] == [b[0]];
    assert FromLittleEndian([b[3]]) == b[3] && FromBigEndian([b[0]]) == b[0];
    assert FromLittleEndian([b[2], b[3]]) == b[2] + 256 * FromLittleEndian([b[3]]);
    assert FromBigEndian([b[0], b[1]]) == 256 * FromBigEndian([b[0]]) + b[1];
    assert FromLittleEndian([b[1], b[2], b[3]]) == b[1] + 256 * FromLittleEndian([b[2], b[3]]);
    assert FromBigEndian([b[0], b[1], b[2]]) == 256 * FromBigEndian([b[0], b[1]]) + b[2];
  }

  lemma {:induction false} FromLittleEndianBound(b: seq<byte>)
    ensures FromLittleEndian(b) < Pow256(|b|)
  {
    if b != [] { FromLittleEndianBound(b[1..]); }
  }

  lemma {:induction false} FromBigEndianBound(b: seq<byte>)
    ensures FromBigEndian(b) < Pow256(|b|)
  {
    if b != [] { FromBigEndianBound(b[..|b| - 1]); }
  }

  lemma {:induction false} Widths()
    ensures Pow256(2) == 0x1_0000 && Pow256(4) == TWO_32 && Pow256(8) == TWO_64
  {
    assert Pow256(4) == 256 * 256 * Pow256(2);
    assert Pow256(8) == 256 * 256 * 256 * 256 * Pow256(4);
  }

  /** A signed stamp as the unsigned word it is stored as, and back. */
  function Unsigned(x: int64): (w: uint64) { if x < 0 then x + TWO_64 else x }

  function Signed(w: uint64): (x: int64) { if w < 0x8000_0000_0000_0000 then w else w - TWO_64 }

  lemma {:induction false} SliceOfSlice<T>(s: seq<T>, a: nat, b: nat, i: nat, j: nat)
    requires a <= b <= |s| && i <= j <= b - a
    ensures s[a..b][i..j] == s[a + i..a + j]
  {
    var inner, outer := s[a..b][i..j], s[a + i..a + j];
    assert |inner| == |outer|;
    forall k | 0 <= k < |outer|
      ensures inner[k] == outer[k]
    {
      assert s[a..b][i + k] == s[a + i + k];
    }
  }

  /** `data` holds `field` at `pos`. */
  predicate Holds(data: seq<byte>, pos: nat, field: seq<byte>) {
    pos + |field| <= |data| && data[pos..pos + |field|] == field
  }

  /** A field in two parts is held part by part. */
  lemma {:induction false} HoldsParts(data: seq<byte>, pos: nat, a: seq<byte>, b: seq<byte>)
    requires Holds(data, pos, a + b)
    ensures Holds(data, pos, a) && Holds(data, pos + |a|, b)
  {
    SliceOfSlice(data, pos, pos + |a + b|, 0, |a|);
    SliceOfSlice(data, pos, pos + |a + b|, |a|, |a + b|);
    assert (a + b)[0..|a|] == a && (a + b)[|a|..|a + b|] == b;
  }

  lemma {:induction false} HoldsWhole(data: seq<byte>)
    ensures Holds(data, 0, data)
  {
  }

  /** A file after `pwrite(data, off)`: a gap before `off` reads as zeros. */
  function WriteAt(file: seq<byte>, off: nat, data: seq<byte>): (r: seq<byte>)
    ensures |r| == if data == [] then |file| else Max(|file|, off + |data|)
    ensures forall p :: 0 <= p < |r| ==>
              r[p] == if off <= p < off + |data| then data[p - off]
                      else if p < |file| then file[p] else 0
  {
    if data == [] then file
    else seq(Max(|file|, off + |data|), (p: int) requires 0 <= p =>
             if off <= p < off + |data| then data[p - off]
             else if p < |file| then file[p] else 0)
  }

  /** The bytes of `file` in [lo, hi), as `pread` returns them: short at the end of the file. */
  function ReadAt(file: seq<byte>, lo: nat, hi: int): (r: seq<byte>) {
    if lo >= hi || lo >= |file| then [] else file[lo..Min(hi, |file|)]
  }
}
