/**
 Ledger-style Ed25519 key derivation: little-endian carry arithmetic over byte
 arrays, the clamped master key, and the hardened derivation loop.
 */
module Recover {
  import opened Wrappers

  newtype u8 = x: int | 0 <= x < 0x100
  newtype u16 = x: int | 0 <= x < 0x1_0000
  newtype u32 = x: int | 0 <= x < 0x1_0000_0000

  // ---------------------------------------------------------------------
  // Little-endian values
  // ---------------------------------------------------------------------

  /** The number a little-endian byte string stands for. */
  function Val(s: seq<u8>): nat {
    if s == [] then 0 else s[0] as nat + 256 * Val(s[1..])
  }

  function Pow256(n: nat): (p: nat)
    ensures p > 0
  {
    if n == 0 then 1 else 256 * Pow256(n - 1)
  }

  /** The low `n` bytes of `v`. */
  function LowBytes(v: nat, n: nat): (s: seq<u8>)
    ensures |s| == n
  {
    if n == 0 then [] else [(v % 256) as u8] + LowBytes(v / 256, n - 1)
  }

  lemma Distributes(v: nat, p: nat, w: nat)
    ensures 256 * (v + p * w) == 256 * v + (256 * p) * w
    ensures p * w == w * p && (256 * p) * w == w * (256 * p)
  {
  }

  lemma {:induction false} ValSnoc(s: seq<u8>, x: u8)
    ensures Val(s + [x]) == Val(s) + x as nat * Pow256(|s|)
  {
    if s == [] {
      assert Val([x]) == x as nat + 256 * Val([]);
    } else {
      assert (s + [x])[1..] == s[1..] + [x];
      ValSnoc(s[1..], x);
      Distributes(Val(s[1..]), Pow256(|s| - 1), x as nat);
    }
  }

  lemma {:induction false} ValAppend(s: seq<u8>, t: seq<u8>)
    ensures Val(s + t) == Val(s) + Pow256(|s|) * Val(t)
  {
    if s == [] {
      assert s + t == t;
    } else {
      assert (s + t)[1..] == s[1..] + t;
      ValAppend(s[1..], t);
      Distributes(Val(s[1..]), Pow256(|s| - 1), Val(t));
    }
  }

  lemma {:induction false} ValBound(s: seq<u8>)
    ensures Val(s) < Pow256(|s|)
  {
    if s != [] {
      ValBound(s[1..]);
    }
  }

  /** Byte strings of one length are numbers below a power of 256, one for one. */
  lemma {:induction false} LowBytesOfVal(s: seq<u8>)
    ensures LowBytes(Val(s), |s|) == s
  {
    if s != [] {
      LowBytesOfVal(s[1..]);
      assert Val(s) % 256 == s[0] as nat && Val(s) / 256 == Val(s[1..]);
    }
  }

  lemma {:induction false} ValOfLowBytes(v: nat, n: nat)
    ensures Val(LowBytes(v, n)) == v % Pow256(n)
  {
    if n > 0 {
      ValOfLowBytes(v / 256, n - 1);
      ModStep(v, Pow256(n - 1));
    }
  }

  lemma ModStep(v: nat, p: nat)
    requires p > 0
    ensures v % (256 * p) == v % 256 + 256 * ((v / 256) % p)
  {
    var q, r := v / 256 / p, v / 256 % p;
    assert v / 256 == q * p + r;
    var low := v % 256 + 256 * r;
    assert v == q * (256 * p) + low;
    assert 0 <= low < 256 * p;
    ModUnique(v, 256 * p, q, low);
  }

  lemma NonzeroMultiple(d: int, m: nat)
    requires d != 0
    ensures d * m >= m || d * m <= -(m as int)
  {
    if d > 0 {
      assert (d - 1) * m >= 0;
    } else {
      assert (-d - 1) * m >= 0;
    }
  }

  lemma ModUnique(v: nat, m: nat, q: nat, r: nat)
    requires m > 0 && r < m && v == q * m + r
    ensures v % m == r
  {
    var d := v / m - q;
    assert d * m == r - v % m by {
      assert v == (v / m) * m + v % m;
      assert (v / m - q) * m == (v / m) * m - q * m;
    }
    if d != 0 {
      NonzeroMultiple(d, m);
    }
  }

  /** The bytes of a sum, from its digits and the carry that is dropped. */
  lemma DroppedCarry(out: seq<u8>, carry: nat, v: nat)
    requires Val(out) + carry * Pow256(|out|) == v
    ensures out == LowBytes(v, |out|)
  {
    ValBound(out);
    ModUnique(v, Pow256(|out|), carry, Val(out));
    ValOfLowBytes(v, |out|);
    LowBytesOfVal(out);
    LowBytesOfVal(LowBytes(v, |out|));
  }

  lemma CarryArithmetic(p: nat, x: nat, y: nat, carry: nat, digit: nat, carry': nat)
    requires digit + 256 * carry' == x + y + carry
    ensures digit * p + carry' * (256 * p) == x * p + y * p + carry * p
  {
    calc {
      digit * p + carry' * (256 * p);
      (digit + 256 * carry') * p;
      (x + y + carry) * p;
      x * p + y * p + carry * p;
    }
  }

  lemma ValUpTo(s: seq<u8>, i: nat)
    requires i < |s|
    ensures Val(s[..i + 1]) == Val(s[..i]) + s[i] as nat * Pow256(i)
  {
    ValSnoc(s[..i], s[i]);
    assert s[..i + 1] == s[..i] + [s[i]];
  }

  lemma CarryStep(out: seq<u8>, a: seq<u8>, b: seq<u8>, i: nat, carry: nat, carry': nat)
    requires i < |a| && i < |b| && i < |out|
    requires Val(out[..i]) + carry * Pow256(i) == Val(a[..i]) + Val(b[..i])
    requires out[i] as nat + 256 * carry' == a[i] as nat + b[i] as nat + carry
    ensures Val(out[..i + 1]) + carry' * Pow256(i + 1) == Val(a[..i + 1]) + Val(b[..i + 1])
  {
    ValUpTo(out, i);
    ValUpTo(a, i);
    ValUpTo(b, i);
    CarryArithmetic(Pow256(i), a[i] as nat, b[i] as nat, carry, out[i] as nat, carry');
  }

  // ---------------------------------------------------------------------
  // The in-place additions
  // ---------------------------------------------------------------------

  /** `out` becomes the sum of two 32-byte scalars modulo 2^256. */
  method AddScalar(out: array<u8>, a: seq<u8>, b: seq<u8>)
    requires out.Length == 32 && |a| == 32 && |b| == 32
    modifies out
    ensures out[..] == LowBytes(Val(a) + Val(b), 32)
  {
    var carry: u16 := 0;
    for i := 0 to 32
      invariant carry <= 1
      invariant Val(out[..i]) + carry as nat * Pow256(i) == Val(a[..i]) + Val(b[..i])
    {
      var sum := a[i] as u16 + b[i] as u16 + carry;
      ghost var before := out[..i];
      out[i] := (sum % 256) as u8;
      assert out[..i] == before;
      CarryStep(out[..], a, b, i, carry as nat, (sum / 256) as nat);
      assert out[..][..i] == before && out[..][..i + 1] == out[..i + 1];
      carry := sum / 256;
    }
    assert a[..32] == a && b[..32] == b && out[..32] == out[..];
    DroppedCarry(out[..], carry as nat, Val(a) + Val(b));
  }

  lemma {:induction false} ZerosVal(n: nat)
    ensures Val(seq(n, _ => 0 as u8)) == 0
  {
    if n > 0 {
      assert seq(n, _ => 0 as u8)[1..] == seq(n - 1, _ => 0 as u8);
      ZerosVal(n - 1);
    }
  }

  lemma {:induction false} PowAdd(m: nat, n: nat)
    ensures Pow256(m + n) == Pow256(m) * Pow256(n)
  {
    if m > 0 {
      PowAdd(m - 1, n);
      calc {
        256 * (Pow256(m - 1) * Pow256(n));
        (256 * Pow256(m - 1)) * Pow256(n);
      }
    }
  }

  lemma SmallPowers()
    ensures Pow256(2) == 0x1_0000 && Pow256(4) == 0x1_0000_0000
  {
  }

  const TWO_224 := 0x1_00000000_00000000_00000000_00000000_00000000_00000000_00000000
  const TWO_240 := 0x1_0000_00000000_00000000_00000000_00000000_00000000_00000000_00000000
  const TWO_256 := 0x1_00000000_00000000_00000000_00000000_00000000_00000000_00000000_00000000

  /** Large literals the bounds speak of. */
  lemma Powers()
    ensures Pow256(28) == TWO_224
    ensures Pow256(30) == TWO_240
    ensures Pow256(32) == TWO_256
  {
    hide Pow256;
    SmallPowers();
    PowAdd(4, 4);
    PowAdd(8, 8);
    PowAdd(16, 8);
    PowAdd(24, 4);
    PowAdd(28, 2);
    PowAdd(28, 4);
  }

  /** `out` becomes 8 * b + a modulo 2^256, for a 28-byte `b`; the doublings never overflow. */
  method AddScalarMul8(out: array<u8>, b: seq<u8>, a: seq<u8>)
    requires out.Length == 32 && |b| == 28 && |a| == 32
    modifies out
    ensures out[..] == LowBytes(8 * Val(b) + Val(a), 32)
  {
    hide Val, Pow256, LowBytes;
    var tmp := new u8[32](i requires 0 <= i < 32 => if i < 28 then b[i] else 0);
    assert tmp[..] == b + seq(4, _ => 0 as u8);
    ZeroExtended(b, tmp[..]);
    ghost var v := Val(b);
    for k := 0 to 3
      invariant Val(tmp[..]) == if k == 0 then v else if k == 1 then 2 * v else if k == 2 then 4 * v else 8 * v
    {
      var tmp2 := new u8[32];
      AddScalar(tmp2, tmp[..], tmp[..]);
      ghost var sum := Val(tmp[..]) + Val(tmp[..]);
      NoCarryOut(sum);
      ghost var doubled := tmp2[..];
      forall i | 0 <= i < 32 {
        tmp[i] := tmp2[i];
      }
      assert tmp[..] == doubled;
    }
    AddScalar(out, tmp[..], a);
  }

  lemma ZeroExtended(b: seq<u8>, s: seq<u8>)
    requires |b| == 28 && s == b + seq(4, _ => 0 as u8)
    ensures Val(s) == Val(b) < TWO_224
  {
    Powers();
    ValBound(b);
    ValAppend(b, seq(4, _ => 0 as u8));
    ZerosVal(4);
  }

  lemma NoCarryOut(v: nat)
    requires v < TWO_256
    ensures Val(LowBytes(v, 32)) == v
  {
    hide *;
    Powers();
    ValOfLowBytes(v, 32);
    ModUnique(v, TWO_256, 0, v);
  }

  // ---------------------------------------------------------------------
  // Derivation
  // ---------------------------------------------------------------------

  /** An HMAC-SHA512 output. */
  type Digest = s: seq<u8> | |s| == 64 witness seq(64, _ => 0)

  type ChainCode = s: seq<u8> | |s| == 32 witness seq(32, _ => 0)

  datatype ExtendedPrivateKey = ExtendedPrivateKey(key: Digest, chainCode: ChainCode)

  const HARDENED: u32 := 0x8000_0000

  function Message(prefix: u8, key: Digest, index: u32): seq<u8> {
    [prefix] + key + LowBytes(index as nat, 4)
  }

  /** One derivation step, on numbers: 8 * ZL is added to kL and ZR to kR, modulo 2^256. */
  function Child(hmac: (seq<u8>, seq<u8>) -> Digest, x: ExtendedPrivateKey, index: u32): ExtendedPrivateKey {
    var z := hmac(x.chainCode, Message(0, x.key, index));
    var kL := LowBytes(8 * Val(z[..28]) + Val(x.key[..32]), 32);
    var kR := LowBytes(Val(z[32..]) + Val(x.key[32..]), 32);
    ExtendedPrivateKey(kL + kR, hmac(x.chainCode, Message(1, x.key, index))[32..])
  }

  datatype Panic = NotHardened

  /** A fold of single steps; an index that is not hardened aborts the derivation. */
  function Derived(hmac: (seq<u8>, seq<u8>) -> Digest, x: ExtendedPrivateKey, path: seq<u32>)
    : Result<ExtendedPrivateKey, Panic>
    decreases path
  {
    if path == [] then Ok(x)
    else if path[0] < HARDENED then Err(NotHardened)
    else Derived(hmac, Child(hmac, x, path[0]), path[1..])
  }

  method WriteMessage(tmp: array<u8>, prefix: u8, key: array<u8>, index: u32)
    requires tmp.Length == 69 && key.Length == 64 && tmp != key
    modifies tmp
    ensures tmp[..] == Message(prefix, key[..], index)
  {
    tmp[0] := prefix;
    forall i | 0 <= i < 64 {
      tmp[1 + i] := key[i];
    }
    tmp[65] := (index % 256) as u8;
    tmp[66] := (index / 256 % 256) as u8;
    tmp[67] := (index / 0x1_0000 % 256) as u8;
    tmp[68] := (index / 0x100_0000 % 256) as u8;
    IndexBytes(index);
    assert tmp[1..65] == key[..];
    assert tmp[65..] == LowBytes(index as nat, 4);
    assert tmp[..] == tmp[..1] + tmp[1..65] + tmp[65..];
  }

  lemma IndexBytes(index: u32)
    ensures LowBytes(index as nat, 4) ==
            [(index % 256) as u8, (index / 256 % 256) as u8, (index / 0x1_0000 % 256) as u8,
                (index / 0x100_0000 % 256) as u8]
  {
    var v := index as nat;
    assert v / 256 / 256 == v / 0x1_0000 && v / 0x1_0000 / 256 == v / 0x100_0000;
    assert LowBytes(v / 0x100_0000, 1) == [(v / 0x100_0000 % 256) as u8];
    assert LowBytes(v / 0x1_0000, 2) == [(v / 0x1_0000 % 256) as u8] + LowBytes(v / 0x100_0000, 1);
    assert LowBytes(v / 256, 3) == [(v / 256 % 256) as u8] + LowBytes(v / 0x1_0000, 2);
  }

  /** The loop over the path, which keeps the key, the chain code and the message in reused buffers. */
  method DeriveHardened(hmac: (seq<u8>, seq<u8>) -> Digest, parent: ExtendedPrivateKey, path: seq<u32>)
    returns (r: Result<ExtendedPrivateKey, Panic>)
    ensures r == Derived(hmac, parent, path)
  {
    hide Val, LowBytes, Message;
    var key := new u8[64](i requires 0 <= i < 64 => parent.key[i]);
    var chainCode: ChainCode := parent.chainCode;
    var tmp := new u8[69];
    assert key[..] == parent.key && path[0..] == path;
    for n := 0 to |path|
      invariant Derived(hmac, ExtendedPrivateKey(key[..], chainCode), path[n..]) == Derived(hmac, parent, path)
    {
      assert path[n..][0] == path[n] && path[n..][1..] == path[n + 1..];
      if path[n] < HARDENED {
        return Err(NotHardened);
      }
      chainCode := Step(hmac, key, chainCode, tmp, path[n]);
    }
    return Ok(ExtendedPrivateKey(key[..], chainCode));
  }

  /** The body of the derivation loop: one level, in place. */
  method Step(hmac: (seq<u8>, seq<u8>) -> Digest, key: array<u8>, chainCode: ChainCode, tmp: array<u8>, index: u32)
    returns (newChain: ChainCode)
    requires key.Length == 64 && tmp.Length == 69 && tmp != key
    modifies key, tmp
    ensures ExtendedPrivateKey(key[..], newChain) == Child(hmac, ExtendedPrivateKey(old(key[..]), chainCode), index)
  {
    hide Val, LowBytes, Message;
    WriteMessage(tmp, 0, key, index);
    var z := hmac(chainCode, tmp[..]);
    var kl := new u8[32];
    AddScalarMul8(kl, z[..28], key[..32]);
    var kr := new u8[32];
    AddScalar(kr, z[32..], key[32..]);
    WriteMessage(tmp, 1, key, index);
    newChain := hmac(chainCode, tmp[..])[32..];
    assert key[..][..32] == key[..32] && key[..][32..] == key[32..];
    forall i | 0 <= i < 64 {
      key[i] := if i < 32 then kl[i] else kr[i - 32];
    }
    assert key[..] == kl[..] + kr[..];
  }

  /** Deriving a concatenated path is deriving its parts one after the other. */
  lemma {:induction false} DeriveAppend(hmac: (seq<u8>, seq<u8>) -> Digest, x: ExtendedPrivateKey, p: seq<u32>,
          q: seq<u32>)
    ensures Derived(hmac, x, p + q) ==
            match Derived(hmac, x, p)
            case Err(e) => Err(e)
            case Ok(y) => Derived(hmac, y, q)
    decreases p
  {
    if p == [] {
      assert p + q == q;
    } else {
      assert (p + q)[1..] == p[1..] + q;
      if p[0] >= HARDENED {
        DeriveAppend(hmac, Child(hmac, x, p[0]), p[1..], q);
      }
    }
  }

  /** The 69 bytes an HMAC is taken of: a prefix, the key, and the index in little-endian order. */
  ghost predicate IsMessage(m: seq<u8>, prefix: u8, key: Digest, index: u32) {
    |m| == 69 && m[0] == prefix && (forall i | 0 <= i < 64 :: m[1 + i] == key[i]) && Val(m[65..]) == index as nat
  }

  lemma MessageIs(m: seq<u8>, prefix: u8, key: Digest, index: u32)
    ensures IsMessage(m, prefix, key, index) <==> m == Message(prefix, key, index)
  {
    var s := Message(prefix, key, index);
    SmallPowers();
    assert s[65..] == LowBytes(index as nat, 4);
    ValOfLowBytes(index as nat, 4);
    assert IsMessage(s, prefix, key, index) by { hide LowBytes, Val; }
    if IsMessage(m, prefix, key, index) {
      LowBytesOfVal(m[65..]);
      hide Val, LowBytes;
      assert m == m[..1] + m[1..65] + m[65..] && m[1..65] == key;
    }
  }

  lemma ValOfSum(a: seq<u8>, v: nat)
    requires |a| == 32 && a == LowBytes(v, 32)
    ensures Val(a) == v % TWO_256
  {
    hide *;
    Powers();
    ValOfLowBytes(v, 32);
  }

  /**
   One level, on bytes and numbers: the new chain code is the upper half of the HMAC of `m1`; eight
   times the first 28 bytes of the HMAC of `m0` is added to kL and its upper half to kR, each modulo
   2^256.
   */
  ghost predicate OneLevelDown(hmac: (seq<u8>, seq<u8>) -> Digest, x: ExtendedPrivateKey, y: ExtendedPrivateKey,
          m0: seq<u8>, m1: seq<u8>) {
    var z := hmac(x.chainCode, m0);
    && (forall i | 0 <= i < 32 :: y.chainCode[i] == hmac(x.chainCode, m1)[32 + i])
    && Val(y.key[..32]) == (Val(x.key[..32]) + 8 * Val(z[..28])) % TWO_256
    && Val(y.key[32..]) == (Val(x.key[32..]) + Val(z[32..])) % TWO_256
  }

  lemma ChildIsOneLevel(hmac: (seq<u8>, seq<u8>) -> Digest, x: ExtendedPrivateKey, index: u32)
    ensures OneLevelDown(hmac, x, Child(hmac, x, index), Message(0, x.key, index), Message(1, x.key, index))
  {
    hide Message, Val, LowBytes;
    var z, y := hmac(x.chainCode, Message(0, x.key, index)), Child(hmac, x, index);
    ValOfSum(y.key[..32], 8 * Val(z[..28]) + Val(x.key[..32]));
    ValOfSum(y.key[32..], Val(z[32..]) + Val(x.key[32..]));
  }

  lemma DerivedOne(hmac: (seq<u8>, seq<u8>) -> Digest, x: ExtendedPrivateKey, index: u32)
    ensures Derived(hmac, x, [index]) == if index < HARDENED then Err(NotHardened) else Ok(Child(hmac, x, index))
  {
    hide Child;
    assert [index][1..] == [];
  }

  /**
   Whatever has been derived, one more index goes one level down, with the messages of that index
   and the key so far; an index below 2^31 aborts.
   */
  lemma DeriveOneMore(hmac: (seq<u8>, seq<u8>) -> Digest, parent: ExtendedPrivateKey, path: seq<u32>, index: u32,
          m0: seq<u8>, m1: seq<u8>)
    requires Derived(hmac, parent, path).Ok?
    requires IsMessage(m0, 0, Derived(hmac, parent, path).value.key, index)
    requires IsMessage(m1, 1, Derived(hmac, parent, path).value.key, index)
    ensures var x, r := Derived(hmac, parent, path).value, Derived(hmac, parent, path + [index]);
            (r.Ok? <==> index >= 0x8000_0000) && (r.Ok? ==> OneLevelDown(hmac, x, r.value, m0, m1))
  {
    var x := Derived(hmac, parent, path).value;
    MessageIs(m0, 0, x.key, index);
    MessageIs(m1, 1, x.key, index);
    hide *;
    DeriveAppend(hmac, parent, path, [index]);
    DerivedOne(hmac, x, index);
    ChildIsOneLevel(hmac, x, index);
  }

  /** A derivation succeeds if and only if all indices are hardened, and an empty path gives back the key. */
  lemma {:induction false} DerivedOkIff(hmac: (seq<u8>, seq<u8>) -> Digest, x: ExtendedPrivateKey, path: seq<u32>)
    ensures Derived(hmac, x, path).Ok? <==> forall i | 0 <= i < |path| :: path[i] >= 0x8000_0000
    ensures path == [] ==> Derived(hmac, x, path) == Ok(x)
    decreases path
  {
    hide Child;
    if path != [] && path[0] >= HARDENED {
      DerivedOkIff(hmac, Child(hmac, x, path[0]), path[1..]);
      assert forall i | 0 < i < |path| :: path[i] == path[1..][i - 1];
    }
  }

  // ---------------------------------------------------------------------
  // The master key and the scalar bound
  // ---------------------------------------------------------------------

  function Scalar(x: ExtendedPrivateKey): nat {
    Val(x.key[..32])
  }

  const TWO_227 := 0x8_00000000_00000000_00000000_00000000_00000000_00000000_00000000
  const TWO_253 := 0x20000000_00000000_00000000_00000000_00000000_00000000_00000000_00000000
  const TWO_254 := 0x40000000_00000000_00000000_00000000_00000000_00000000_00000000_00000000
  const TWO_255 := 0x80000000_00000000_00000000_00000000_00000000_00000000_00000000_00000000

  /** The HMAC iterated `n` times on its own output, as the retry loop does. */
  function Retried(hmac: (seq<u8>, seq<u8>) -> Digest, sk: seq<u8>, i: Digest, n: nat): Digest {
    if n == 0 then i else hmac(sk, Retried(hmac, sk, i, n - 1))
  }

  predicate ThirdHighestBit(i: Digest) {
    (i[31] as bv8 & 0x20) != 0
  }

  /**
   The master key from the HMAC of the seed. `retries` bounds the retry loop: its exit condition
   holds after at most that many rounds.
   */
  method LedgerMaster(hmac: (seq<u8>, seq<u8>) -> Digest, chainMac: (seq<u8>, seq<u8>) -> ChainCode, sk: seq<u8>,
          seed: seq<u8>,
                      ghost retries: nat)
    returns (x: ExtendedPrivateKey, ghost rounds: nat)
    requires !ThirdHighestBit(Retried(hmac, sk, hmac(sk, seed), retries))
    ensures x.chainCode == chainMac(sk, [1] + seed)
    ensures rounds <= retries && x.key == Clamped(Retried(hmac, sk, hmac(sk, seed), rounds))
    ensures OnlyClamped(Retried(hmac, sk, hmac(sk, seed), rounds), x.key)
    ensures !ThirdHighestBit(Retried(hmac, sk, hmac(sk, seed), rounds))
    ensures forall m :: 0 <= m < rounds ==> ThirdHighestBit(Retried(hmac, sk, hmac(sk, seed), m))
    ensures MasterScalar(Scalar(x))
  {
    hide ThirdHighestBit, Val, MasterScalar, ClampedLow, ClampedHigh, OnlyClamped;
    var raw := hmac(sk, seed);
    rounds := 0;
    while ThirdHighestBit(raw)
      invariant rounds <= retries && raw == Retried(hmac, sk, hmac(sk, seed), rounds)
      invariant forall m :: 0 <= m < rounds ==> ThirdHighestBit(Retried(hmac, sk, hmac(sk, seed), m))
      decreases retries - rounds
    {
      raw := hmac(sk, raw);
      rounds := rounds + 1;
    }
    var key := new u8[64](i requires 0 <= i < 64 => raw[i]);
    key[0] := ClampedLow(key[0]);
    key[31] := ClampedHigh(key[31]);
    assert key[..] == Clamped(raw);
    ClampedScalar(raw);
    ClampedBytes(raw);
    x := ExtendedPrivateKey(key[..], chainMac(sk, [1] + seed));
  }

  function ClampedLow(b: u8): u8 {
    (b as bv8 & 0xF8) as u8
  }

  function ClampedHigh(b: u8): u8 {
    (((b as bv8) & 0x7F) | 0x40) as u8
  }

  /** Clamping as in section 5.1.5 of RFC 8032. */
  function Clamped(i: Digest): Digest {
    i[0 := ClampedLow(i[0])][31 := ClampedHigh(i[31])]
  }

  /** Three low bits are cleared, the two high ones read 01, and every other bit is left alone. */
  predicate OnlyClamped(raw: Digest, key: Digest) {
    && key[0] as bv8 & 7 == 0 && key[0] as bv8 >> 3 == raw[0] as bv8 >> 3
    && key[31] as bv8 >> 6 == 1 && key[31] as bv8 & 0x3F == raw[31] as bv8 & 0x3F
    && forall i | 0 <= i < 64 && i != 0 && i != 31 :: key[i] == raw[i]
  }

  lemma ClampedBytes(raw: Digest)
    ensures OnlyClamped(raw, Clamped(raw))
  {
    LowBitsCleared(raw[0]);
    HighBitsSet(raw[31]);
    hide ClampedLow, ClampedHigh;
  }

  lemma LowBitsCleared(b: u8)
    ensures ClampedLow(b) as bv8 & 7 == 0 && ClampedLow(b) as bv8 >> 3 == b as bv8 >> 3
  {
  }

  lemma HighBitsSet(b: u8)
    ensures ClampedHigh(b) as bv8 >> 6 == 1 && ClampedHigh(b) as bv8 & 0x3F == b as bv8 & 0x3F
  {
  }

  predicate MasterScalar(k: nat) {
    k % 8 == 0 && TWO_254 <= k < TWO_254 + TWO_253
  }

  lemma LowBits(b: u8)
    ensures ClampedLow(b) % 8 == 0
  {
  }

  lemma HighBits(b: u8)
    requires (b as bv8 & 0x20) == 0
    ensures 0x40 <= ClampedHigh(b) < 0x60
  {
  }

  /** With bit 0x20 of byte 31 clear, clamping leaves a multiple of 8 in [2^254, 2^254 + 2^253). */
  lemma ClampedScalar(i: Digest)
    requires !ThirdHighestBit(i)
    ensures MasterScalar(Val(Clamped(i)[..32]))
  {
    LowBits(i[0]);
    HighBits(i[31]);
    TopAndBottom(Clamped(i)[..32]);
  }

  /** A 32-byte value from its lowest and highest byte and what lies between. */
  lemma TopAndBottom(k: seq<u8>)
    requires |k| == 32 && k[0] % 8 == 0 && 0x40 <= k[31] < 0x60
    ensures MasterScalar(Val(k))
  {
    Powers();
    var middle := k[1..31];
    assert k[1..] == middle + [k[31]];
    ValSnoc(middle, k[31]);
    ValBound(middle);
    assert Val(k) == k[0] as nat + 256 * Val(k[1..]);
  }

  /** One step below 2^255 adds a multiple of 8 under 2^227 and drops no carry. */
  lemma ChildScalar(hmac: (seq<u8>, seq<u8>) -> Digest, x: ExtendedPrivateKey, index: u32)
    requires Scalar(x) < TWO_255
    ensures var z := hmac(x.chainCode, Message(0, x.key, index));
            Scalar(Child(hmac, x, index)) == Scalar(x) + 8 * Val(z[..28]) < Scalar(x) + TWO_227
  {
    var z := hmac(x.chainCode, Message(0, x.key, index));
    hide Val, Pow256, LowBytes, Message;
    Powers();
    ValBound(z[..28]);
    var v := 8 * Val(z[..28]) + Val(x.key[..32]);
    NoCarryOut(v);
    assert Child(hmac, x, index).key[..32] == LowBytes(v, 32);
  }

  lemma {:induction false} DescendantScalar(hmac: (seq<u8>, seq<u8>) -> Digest, x: ExtendedPrivateKey,
          path: seq<u32>, bound: nat)
    requires Scalar(x) < bound && bound + |path| * TWO_227 <= TWO_255
    requires Derived(hmac, x, path).Ok?
    ensures var k := Scalar(Derived(hmac, x, path).value);
            Scalar(x) <= k < bound + |path| * TWO_227 && (k - Scalar(x)) % 8 == 0
    decreases path
  {
    hide Scalar, Val, Message, Child;
    if path != [] {
      var child := Child(hmac, x, path[0]);
      ChildScalar(hmac, x, path[0]);
      OneLevel(|path|);
      DescendantScalar(hmac, child, path[1..], bound + TWO_227);
      var k := Scalar(Derived(hmac, x, path).value);
      assert k - Scalar(x) == (k - Scalar(child)) + (Scalar(child) - Scalar(x));
    }
  }

  lemma OneLevel(n: nat)
    requires n > 0
    ensures n * TWO_227 == TWO_227 + (n - 1) * TWO_227
    ensures (n - 1) * TWO_227 >= 0
  {
  }

  /** At most 2^26 levels below a clamped master, the scalar is a multiple of 8 in [2^254, 2^255). */
  lemma ScalarBound(hmac: (seq<u8>, seq<u8>) -> Digest, master: ExtendedPrivateKey, path: seq<u32>)
    requires MasterScalar(Scalar(master)) && |path| <= 0x400_0000
    requires Derived(hmac, master, path).Ok?
    ensures var k := Scalar(Derived(hmac, master, path).value);
            k % 8 == 0 && TWO_254 <= k < TWO_255
  {
    hide Derived, Scalar;
    DescendantScalar(hmac, master, path, TWO_254 + TWO_253);
  }
}
