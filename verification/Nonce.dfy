/** pkg/crypto/symmetric.go and ratchet.go: the AEAD nonces of one direction, a 4-byte prefix, a 2-byte epoch and a
    6-byte counter, both packed in one 64-bit word. */
module Nonces {
  import opened Bytes

  /** The low 48 bits, and the rest. */
  function Counter(state: uint64): (c: nat) { state % 0x1_0000_0000_0000 }

  function Epoch(state: uint64): (e: uint16) { state / 0x1_0000_0000_0000 }

  function Packed(epoch: uint16): (state: uint64) { epoch * 0x1_0000_0000_0000 }

  /** atomic.Uint64.Add(1). */
  function Bumped(state: uint64): (s: uint64) { (state + 1) % TWO_64 }

  function NonceOf(prefix: uint32, state: uint64): (n: seq<byte>)
    ensures |n| == 12
  {
    BigEndian(prefix, 4) + BigEndian(state, 8)
  }

  /** ratchetSalt: the HKDF salt of one direction and epoch. */
  function RatchetSalt(prefix: uint32, epoch: uint16): (s: seq<byte>)
    ensures |s| == 6
  {
    BigEndian(prefix, 4) + BigEndian(epoch, 2)
  }

  // ---------- layout ----------

  /** `x` without its `b` low bytes. */
  function High(x: nat, b: nat): (h: nat) { if b == 0 then x else High(x / 256, b - 1) }

  lemma {:induction false} BigEndianSplit(x: nat, a: nat, b: nat)
    ensures BigEndian(x, a + b) == BigEndian(High(x, b), a) + BigEndian(x, b)
  {
    if b > 0 { BigEndianSplit(x / 256, a, b - 1); }
  }

  lemma {:induction false} HighOfState(x: nat)
    ensures High(x, 6) == x / 0x1_0000_0000_0000
  {
    var y := x / 256 / 256;
    var z := y / 256 / 256;
    assert High(x, 6) == High(x / 256, 5) == High(y, 4) == High(y / 256, 3) == High(z, 2);
    assert High(z, 2) == High(z / 256, 1) == z / 256 / 256;
    assert y == x / 0x1_0000 && z == x / 0x1_0000_0000;
  }

  /** The salt and the wire agree: the first six bytes of a nonce are the ratchet salt of its direction and epoch. */
  lemma {:induction false} NonceStartsWithSalt(prefix: uint32, state: uint64)
    ensures NonceOf(prefix, state)[..6] == RatchetSalt(prefix, Epoch(state))
  {
    BigEndianSplit(state, 2, 6);
    HighOfState(state);
    var p, e, c := BigEndian(prefix, 4), BigEndian(Epoch(state), 2), BigEndian(state, 6);
    assert NonceOf(prefix, state) == (p + e) + c;
  }

  /** The nonce reads back as its prefix and its state, most significant byte first. */
  lemma {:induction false} NonceReadsBack(prefix: uint32, state: uint64)
    ensures FromBigEndian(NonceOf(prefix, state)[..4]) == prefix && FromBigEndian(NonceOf(prefix, state)[4..]) == state
  {
    var n := NonceOf(prefix, state);
    assert n[..4] == BigEndian(prefix, 4) && n[4..] == BigEndian(state, 8);
    Widths();
    BigEndianRoundTrip(prefix, 4);
    BigEndianRoundTrip(state, 8);
  }

  /** A nonce names its direction and its state. */
  lemma {:induction false} NonceInjective(prefix: uint32, prefix': uint32, state: uint64, state': uint64)
    requires NonceOf(prefix, state) == NonceOf(prefix', state')
    ensures prefix == prefix' && state == state'
  {
    NonceReadsBack(prefix, state);
    NonceReadsBack(prefix', state');
  }

  // ---------- runs ----------

  datatype Call = Next | SetEpoch(epoch: uint16)

  /** A generator and the states of the nonces it gave out; `failed` once Next reported the overflow. */
  datatype Run = Run(state: uint64, given: seq<uint64>, failed: bool)

  function After(r: Run, c: Call): (s: Run) {
    match c
    case SetEpoch(e) => r.(state := Packed(e))
    case Next =>
      var s := Bumped(r.state);
      if Counter(s) == 0 then r.(state := s, failed := true) else r.(state := s, given := r.given + [s])
  }

  function AfterAll(r: Run, calls: seq<Call>): (s: Run)
    decreases |calls|
  {
    if calls == [] then r else AfterAll(After(r, calls[0]), calls[1..])
  }

  /** Every SetEpoch raises the epoch, and no call follows the first overflow. */
  predicate Proper(r: Run, calls: seq<Call>)
    decreases |calls|
  {
    calls != [] ==>
      && !r.failed && (calls[0].SetEpoch? ==> calls[0].epoch > Epoch(r.state))
      && Proper(After(r, calls[0]), calls[1..])
  }

  /** The states given out rise, and none is above the present one. */
  ghost predicate Rising(r: Run) {
    && (forall i, j :: 0 <= i < j < |r.given| ==> r.given[i] < r.given[j])
    && (forall i :: 0 <= i < |r.given| ==> r.given[i] <= r.state)
  }

  lemma {:induction false} AfterRises(r: Run, c: Call)
    requires Rising(r) && !r.failed && (c.SetEpoch? ==> c.epoch > Epoch(r.state))
    ensures !After(r, c).failed ==> Rising(After(r, c))
    ensures After(r, c).failed ==> After(r, c).given == r.given
  {
  }

  lemma {:induction false} RunRises(r: Run, calls: seq<Call>)
    requires Rising(r) && Proper(r, calls)
    ensures forall i, j :: 0 <= i < j < |AfterAll(r, calls).given| ==> AfterAll(r, calls).given[i] < AfterAll(r, calls).given[j]
    decreases |calls|
  {
    if calls != [] {
      AfterRises(r, calls[0]);
      var next := After(r, calls[0]);
      if next.failed {
        assert calls[1..] == [];
      } else {
        RunRises(next, calls[1..]);
      }
    }
  }

  /** Over any run with rising epochs, up to the first overflow, no nonce repeats. */
  lemma {:induction false} NoncesDistinct(prefix: uint32, calls: seq<Call>, i: nat, j: nat)
    requires Proper(Run(0, [], false), calls)
    requires i < j < |AfterAll(Run(0, [], false), calls).given|
    ensures var given := AfterAll(Run(0, [], false), calls).given;
            NonceOf(prefix, given[i]) != NonceOf(prefix, given[j])
  {
    RunRises(Run(0, [], false), calls);
    var given := AfterAll(Run(0, [], false), calls).given;
    if NonceOf(prefix, given[i]) == NonceOf(prefix, given[j]) { NonceInjective(prefix, prefix, given[i], given[j]); }
  }

  /** Two directions never share a nonce, whatever they did. */
  lemma {:induction false} DirectionsDisjoint(prefix: uint32, prefix': uint32, state: uint64, state': uint64)
    requires prefix != prefix'
    ensures NonceOf(prefix, state) != NonceOf(prefix', state')
  {
    if NonceOf(prefix, state) == NonceOf(prefix', state') { NonceInjective(prefix, prefix', state, state'); }
  }

  function Nexts(n: nat): (calls: seq<Call>)
    ensures |calls| == n
  {
    seq(n, _ => Next)
  }

  lemma {:induction false} BumpBelow(state: uint64)
    requires Counter(state) + 1 < 0x1_0000_0000_0000
    ensures state + 1 < TWO_64 && Bumped(state) == state + 1 && Counter(state + 1) == Counter(state) + 1
    ensures Counter(state) >= 0
  {
  }

  /** From counter `c` of an epoch, `n` more calls that stay below 2^48 give the next `n` states. */
  lemma {:induction false} NextsGive(r: Run, n: nat)
    requires !r.failed && Counter(r.state) + n < 0x1_0000_0000_0000
    ensures var s := AfterAll(r, Nexts(n));
            && !s.failed && s.state == r.state + n && |s.given| == |r.given| + n
            && forall j :: |r.given| <= j < |s.given| ==> s.given[j] == r.state + (j - |r.given|) + 1
    ensures forall i :: 0 <= i < |r.given| ==> AfterAll(r, Nexts(n)).given[i] == r.given[i]
    decreases n
  {
    hide Counter, Bumped;
    if n > 0 {
      assert Nexts(n)[0] == Next && Nexts(n)[1..] == Nexts(n - 1);
      BumpBelow(r.state);
      var next := After(r, Next);
      assert next.state == r.state + 1 && next.given == r.given + [r.state + 1];
      NextsGive(next, n - 1);
      assert AfterAll(r, Nexts(n)) == AfterAll(next, Nexts(n - 1));
    }
  }

  /** After SetEpoch exactly 2^48 - 1 calls succeed, each under that epoch, and the next one fails. */
  lemma {:induction false} EpochHolds(epoch: uint16, given: seq<uint64>)
    ensures var start := Run(Packed(epoch), given, false);
            var full := AfterAll(start, Nexts(0xFFFF_FFFF_FFFF));
            && !full.failed && |full.given| == |given| + 0xFFFF_FFFF_FFFF
            && (forall i :: |given| <= i < |full.given| ==> Epoch(full.given[i]) == epoch)
            && After(full, Next).failed && After(full, Next).given == full.given
  {
    var start := Run(Packed(epoch), given, false);
    hide AfterAll;
    NextsGive(start, 0xFFFF_FFFF_FFFF);
    var full := AfterAll(start, Nexts(0xFFFF_FFFF_FFFF));
    forall i | |given| <= i < |full.given|
      ensures Epoch(full.given[i]) == epoch
    {
      assert full.given[i] == Packed(epoch) + (i - |given|) + 1;
    }
  }

  /** The overflow leaves the state in the next epoch: a caller that goes on is given nonces of an epoch that was
      never installed, the very ones SetEpoch to it gives again. */
  lemma {:induction false} OverflowCarries(epoch: uint16)
    requires epoch < 0xFFFF
    ensures var over := After(Run(Packed(epoch) + 0xFFFF_FFFF_FFFF, [], false), Next);
            && over.failed && over.state == Packed(epoch + 1)
            && After(over, Next).given == After(After(over, SetEpoch(epoch + 1)), Next).given == [Packed(epoch + 1) + 1]
  {
  }

  // ---------- the generator ----------

  class NonceGenerator {
    const prefix: uint32
    var state: uint64

    constructor (p: uint32)
      ensures prefix == p && state == 0
    {
      prefix, state := p, 0;
    }

    /** Next: the nonce of the bumped state, or the overflow error. */
    method Next() returns (nonce: Option<seq<byte>>)
      modifies this`state
      ensures state == Bumped(old(state))
      ensures nonce == if Counter(state) == 0 then None else Some(NonceOf(prefix, state))
      ensures nonce.Some? ==> Epoch(state) == Epoch(old(state)) && Counter(state) == Counter(old(state)) + 1
      ensures nonce.Some? ==> nonce.value[..6] == RatchetSalt(prefix, Epoch(old(state)))
    {
      state := (state + 1) % TWO_64;
      if state % 0x1_0000_0000_0000 == 0 {
        return None;
      }
      NonceStartsWithSalt(prefix, state);
      nonce := Some(BigEndian(prefix, 4) + BigEndian(state, 8));
    }

    method SetEpoch(epoch: uint16)
      modifies this`state
      ensures state == Packed(epoch) && Counter(state) == 0 && Epoch(state) == epoch
    {
      state := epoch * 0x1_0000_0000_0000;
    }
  }
}
