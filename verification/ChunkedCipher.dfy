/** pkg/crypto/symmetric.go: chunked encryption over an abstract AEAD that adds 28 bytes to each chunk. */
module ChunkedCiphers {
  import opened Bytes

  const BLOCK_SIZE: int := 0x2_0000  // 128 KiB
  const OVERHEAD: int := 28  // 12-byte nonce, 16-byte MAC

  /** Encrypt under one key, by the nonce drawn for the call, and Decrypt under the same key. */
  datatype Aead = Aead(seal: (nat, seq<byte>) -> seq<byte>, open: seq<byte> -> Option<seq<byte>>)

  ghost predicate Correct(aead: Aead) {
    forall nonce, plain :: |aead.seal(nonce, plain)| == |plain| + OVERHEAD && aead.open(aead.seal(nonce, plain)) == Some(plain)
  }

  function EncryptedSize(plainSize: nat): (n: nat) {
    var last := plainSize % 0x2_0000;
    plainSize / 0x2_0000 * 0x2_001C + if last > 0 then last + 28 else 0
  }

  function DecryptedSize(cipherSize: nat): (n: Option<nat>) {
    if cipherSize < 28 then None
    else
      var remaining := cipherSize % 0x2_001C;
      if remaining == 0 then Some(cipherSize / 0x2_001C * 0x2_0000)
      else if remaining < 28 then None
      else Some(cipherSize / 0x2_001C * 0x2_0000 + (remaining - 28))
  }

  /** The sizes are inverse, except for the empty file, whose size no ciphertext has. */
  lemma {:induction false} SizesInverse(n: nat)
    ensures DecryptedSize(EncryptedSize(n)) == Some(n) <==> n > 0
  {
    var full, last := n / 0x2_0000, n % 0x2_0000;
    if last > 0 {
      assert EncryptedSize(n) == full * 0x2_001C + (last + 28);
    } else {
      assert EncryptedSize(n) == full * 0x2_001C;
    }
  }

  /** The chunks of a plaintext, each sealed, in order; chunk `i` with nonce `nonces(i)`. */
  function Sealed(aead: Aead, plain: seq<byte>, nonces: nat -> nat, i: nat): (c: seq<byte>)
    decreases |plain|
  {
    if plain == [] then []
    else
      var n := Min(BLOCK_SIZE, |plain|);
      aead.seal(nonces(i), plain[..n]) + Sealed(aead, plain[n..], nonces, i + 1)
  }

  /** What DecryptChunked writes for a ciphertext, None once a chunk does not open. */
  function Opened(aead: Aead, cipher: seq<byte>): (p: Option<seq<byte>>)
    decreases |cipher|
  {
    if cipher == [] then Some([])
    else
      var n := Min(BLOCK_SIZE + OVERHEAD, |cipher|);
      var chunk, rest := aead.open(cipher[..n]), Opened(aead, cipher[n..]);
      if chunk.None? || rest.None? then None else Some(chunk.value + rest.value)
  }

  /** Decryption of what encryption wrote is the plaintext, for every length. */
  lemma {:induction false} OpenedSealed(aead: Aead, plain: seq<byte>, nonces: nat -> nat, i: nat)
    requires Correct(aead)
    ensures Opened(aead, Sealed(aead, plain, nonces, i)) == Some(plain)
    decreases |plain|
  {
    if plain != [] {
      var n := Min(BLOCK_SIZE, |plain|);
      var chunk, rest := aead.seal(nonces(i), plain[..n]), Sealed(aead, plain[n..], nonces, i + 1);
      OpenedSealed(aead, plain[n..], nonces, i + 1);
      SealedNonEmpty(aead, plain[n..], nonces, i + 1);
      var cipher := chunk + rest;
      assert Min(BLOCK_SIZE + OVERHEAD, |cipher|) == |chunk|;
      assert cipher[..|chunk|] == chunk && cipher[|chunk|..] == rest;
      assert plain == plain[..n] + plain[n..];
    }
  }

  /** Block `k` of a plaintext. */
  function PlainBlock(plain: seq<byte>, k: nat): (b: seq<byte>)
    requires k * 0x2_0000 <= |plain|
  {
    plain[k * 0x2_0000..Min((k + 1) * 0x2_0000, |plain|)]
  }

  lemma {:induction false} LaterBlock(plain: seq<byte>, k: nat)
    requires 0 < k && k * 0x2_0000 < |plain|
    ensures PlainBlock(plain[0x2_0000..], k - 1) == PlainBlock(plain, k)
  {
    SliceOfSlice(plain, 0x2_0000, |plain|, (k - 1) * 0x2_0000, Min(k * 0x2_0000, |plain| - 0x2_0000));
  }

  /** Block `k` of the output is block `k` of the plaintext, sealed with a nonce of its own. */
  lemma {:induction false} SealedBlock(aead: Aead, plain: seq<byte>, nonces: nat -> nat, i: nat, k: nat)
    requires Correct(aead) && k * 0x2_0000 < |plain|
    ensures Holds(Sealed(aead, plain, nonces, i), k * 0x2_001C, aead.seal(nonces(i + k), PlainBlock(plain, k)))
    decreases k
  {
    hide PlainBlock, Holds;
    var n := Min(BLOCK_SIZE, |plain|);
    var first, rest := aead.seal(nonces(i), plain[..n]), Sealed(aead, plain[n..], nonces, i + 1);
    if k == 0 {
      FirstBlock(plain);
      HoldsWhole(first + rest);
      HoldsParts(first + rest, 0, first, rest);
    } else {
      assert n == 0x2_0000 && |first| == 0x2_001C;
      SealedBlock(aead, plain[n..], nonces, i + 1, k - 1);
      LaterBlock(plain, k);
      HoldsBehind(first, rest, (k - 1) * 0x2_001C, aead.seal(nonces(i + k), PlainBlock(plain, k)));
    }
  }

  lemma {:induction false} FirstBlock(plain: seq<byte>)
    ensures PlainBlock(plain, 0) == plain[..Min(BLOCK_SIZE, |plain|)]
  {
  }

  lemma {:induction false} HoldsBehind(front: seq<byte>, data: seq<byte>, pos: nat, field: seq<byte>)
    requires Holds(data, pos, field)
    ensures Holds(front + data, |front| + pos, field)
  {
    assert (front + data)[|front| + pos..|front| + pos + |field|] == data[pos..pos + |field|];
  }

  lemma {:induction false} SealedNonEmpty(aead: Aead, plain: seq<byte>, nonces: nat -> nat, i: nat)
    requires Correct(aead)
    ensures Sealed(aead, plain, nonces, i) == [] <==> plain == []
  {
  }

  /** The output is exactly as long as EncryptedSize says. */
  lemma {:induction false} SealedLength(aead: Aead, plain: seq<byte>, nonces: nat -> nat, i: nat)
    requires Correct(aead)
    ensures |Sealed(aead, plain, nonces, i)| == EncryptedSize(|plain|)
    decreases |plain|
  {
    if plain != [] {
      var n := Min(BLOCK_SIZE, |plain|);
      SealedLength(aead, plain[n..], nonces, i + 1);
      OneBlockMore(|plain|);
    }
  }

  lemma {:induction false} OneBlockMore(n: nat)
    ensures 0 < n < 0x2_0000 ==> EncryptedSize(n) == n + 28
    ensures n >= 0x2_0000 ==> EncryptedSize(n) == 0x2_001C + EncryptedSize(n - 0x2_0000)
  {
  }

  /** The whole blocks of a stream that ended early. */
  function WholeBlocks(n: nat): (m: nat)
    ensures m <= n
  {
    n / 0x2_0000 * 0x2_0000
  }

  /** io.ReadFull from position `pos` of a stream: as much as was asked for, nothing at the end (io.EOF), or a part
      and an error. */
  method ReadFull(stream: seq<byte>, pos: nat, want: nat) returns (data: seq<byte>, short: bool)
    requires pos <= |stream|
    ensures data == stream[pos..Min(pos + want, |stream|)]
    ensures short <==> 0 < |data| < want
  {
    data := stream[pos..Min(pos + want, |stream|)];
    short := 0 < |data| < want;
  }

  /** EncryptChunked. A stream that is too short is an error, unless it ends on a block boundary: then what there is
      is encrypted and no error is reported. */
  method EncryptChunked(aead: Aead, stream: seq<byte>, plainSize: nat, nonces: nat -> nat)
    returns (out: seq<byte>, ok: bool)
    ensures |stream| >= plainSize ==> ok && out == Sealed(aead, stream[..plainSize], nonces, 0)
    ensures |stream| < plainSize ==> (ok <==> |stream| == WholeBlocks(|stream|))
    ensures |stream| < plainSize ==> out == Sealed(aead, stream[..WholeBlocks(|stream|)], nonces, 0)
  {
    ghost var target := if |stream| >= plainSize then plainSize else WholeBlocks(|stream|);
    out, ok := [], true;
    var total: nat, i: nat := 0, 0;
    assert stream[0..target] == stream[..target];
    while total < plainSize
      invariant total <= target && (total == WholeBlocks(total) || total == plainSize)
      invariant Sealed(aead, stream[..target], nonces, 0) == out + Sealed(aead, stream[total..target], nonces, i)
      decreases plainSize - total
    {
      var chunk, short := ReadFull(stream, total, Min(BLOCK_SIZE, plainSize - total));
      BlocksLeft(|stream|, plainSize, total);
      if short {
        ok := false;
        break;
      }
      if chunk == [] {
        break;
      }
      SealedStep(aead, stream, total, target, |chunk|, nonces, i, out);
      out := out + aead.seal(nonces(i), chunk);
      total, i := total + |chunk|, i + 1;
    }
    assert stream[total..target] == [];
  }

  lemma {:induction false} SealedStep(aead: Aead, stream: seq<byte>, total: nat, target: nat, n: nat, nonces: nat -> nat,
                                      i: nat, out: seq<byte>)
    requires total < target <= |stream| && n == Min(BLOCK_SIZE, target - total)
    ensures out + Sealed(aead, stream[total..target], nonces, i) ==
            out + aead.seal(nonces(i), stream[total..total + n]) + Sealed(aead, stream[total + n..target], nonces, i + 1)
  {
    var left := stream[total..target];
    assert left[..n] == stream[total..total + n] && left[n..] == stream[total + n..target];
  }

  /** How far a read from a block boundary gets. */
  lemma {:induction false} BlocksLeft(length: nat, plainSize: nat, total: nat)
    requires total == WholeBlocks(total) && total < plainSize && total <= length
    ensures var n := Min(total + Min(BLOCK_SIZE, plainSize - total), length) - total;
            var target := if length >= plainSize then plainSize else WholeBlocks(length);
            && (n == Min(BLOCK_SIZE, plainSize - total) ==>
                  n == Min(BLOCK_SIZE, target - total) && (total + n == WholeBlocks(total + n) || total + n == plainSize))
            && (n < Min(BLOCK_SIZE, plainSize - total) ==> length < plainSize && target == total)
            && (n == 0 ==> length == total)
  {
  }

  /** The whole sealed blocks of a stream that ended early. */
  function WholeSealed(n: nat): (m: nat)
    ensures m <= n
  {
    n / 0x2_001C * 0x2_001C
  }

  /** DecryptChunked: every chunk opened in order, or an error at the first that does not open or is cut short. A
      stream that ends early on a chunk boundary is no error. */
  method DecryptChunked(aead: Aead, stream: seq<byte>, cipherSize: nat) returns (out: seq<byte>, ok: bool)
    ensures |stream| >= cipherSize ==> (ok <==> Opened(aead, stream[..cipherSize]).Some?)
    ensures |stream| >= cipherSize && ok ==> Opened(aead, stream[..cipherSize]) == Some(out)
    ensures |stream| < cipherSize ==> (ok <==> |stream| == WholeSealed(|stream|) && Opened(aead, stream).Some?)
    ensures |stream| < cipherSize && ok ==> Opened(aead, stream) == Some(out)
  {
    ghost var target := if |stream| >= cipherSize then cipherSize else WholeSealed(|stream|);
    out, ok := [], true;
    var total: nat := 0;
    assert stream[0..target] == stream[..target];
    assert stream[..|stream|] == stream;
    while total < cipherSize
      invariant total <= target && (total == WholeSealed(total) || total == cipherSize)
      invariant Opened(aead, stream[..target]) == After(out, Opened(aead, stream[total..target]))
      decreases cipherSize - total
    {
      var chunk, short := ReadFull(stream, total, Min(BLOCK_SIZE + OVERHEAD, cipherSize - total));
      SealedLeft(|stream|, cipherSize, total);
      if chunk == [] {
        break;
      }
      if short {
        return out, false;
      }
      OpenedStep(aead, stream, total, target, |chunk|, out);
      var plain := aead.open(chunk);
      if plain.None? {
        OpenedPrefix(aead, stream, target);
        return out, false;
      }
      out := out + plain.value;
      total := total + |chunk|;
    }
    assert stream[total..target] == [];
  }

  lemma {:induction false} OpenedPrefix(aead: Aead, stream: seq<byte>, target: nat)
    requires target <= |stream|
    ensures target == |stream| ==> stream[..target] == stream
  {
  }

  lemma {:induction false} SealedLeft(length: nat, cipherSize: nat, total: nat)
    requires total == WholeSealed(total) && total < cipherSize && total <= length
    ensures var n := Min(total + Min(0x2_001C, cipherSize - total), length) - total;
            var target := if length >= cipherSize then cipherSize else WholeSealed(length);
            && (n == Min(0x2_001C, cipherSize - total) ==>
                  n == Min(0x2_001C, target - total) && (total + n == WholeSealed(total + n) || total + n == cipherSize))
            && (0 < n < Min(0x2_001C, cipherSize - total) ==> length < cipherSize && length != target)
            && (n == 0 ==> length == total == target < cipherSize)
  {
  }

  /** What is written so far and what the rest opens to. */
  function After(out: seq<byte>, rest: Option<seq<byte>>): (p: Option<seq<byte>>)
    ensures rest == Some([]) ==> p == Some(out)
    ensures out == [] ==> p == rest
  {
    if rest.None? then None
    else
      var p := out + rest.value;
      assert (rest.value == [] ==> p == out) && (out == [] ==> p == rest.value);
      Some(p)
  }

  lemma {:induction false} OpenedStep(aead: Aead, stream: seq<byte>, total: nat, end: nat, n: nat, out: seq<byte>)
    requires total < end <= |stream| && n == Min(BLOCK_SIZE + OVERHEAD, end - total)
    ensures var chunk := aead.open(stream[total..total + n]);
            After(out, Opened(aead, stream[total..end])) ==
            if chunk.None? then None else After(out + chunk.value, Opened(aead, stream[total + n..end]))
  {
    var left := stream[total..end];
    assert left[..n] == stream[total..total + n] && left[n..] == stream[total + n..end];
    var chunk, rest := aead.open(left[..n]), Opened(aead, left[n..]);
    if chunk.Some? && rest.Some? { assert out + (chunk.value + rest.value) == (out + chunk.value) + rest.value; }
  }
}
