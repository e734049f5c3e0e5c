/** X25519 public keys (section 5 of RFC 7748) as the control plane derives them. */
module X25519 {
  import opened Wrappers
  import opened Base64
  import opened Modular
  import opened Curve

  const KEY_BYTES := 32
  const P := 0x7fffffffffffffffffffffffffffffffffffffffffffffffffffffffffffffed

  const TWO_248 := 0x100000000000000000000000000000000000000000000000000000000000000
  const TWO_251 := 0x800000000000000000000000000000000000000000000000000000000000000
  const TWO_254 := 0x4000000000000000000000000000000000000000000000000000000000000000

  // ---- little-endian integers

  function FromLittleEndian(b: seq<Byte>): (n: nat) {
    if b == [] then 0 else b[0] + 256 * FromLittleEndian(b[1..])
  }

  function ToLittleEndian(n: nat, length: nat): (b: seq<Byte>)
    ensures |b| == length
  {
    if length == 0 then [] else [n % 256] + ToLittleEndian(n / 256, length - 1)
  }

  lemma {:induction false} FromTo(n: nat, length: nat)
    requires n < Pow(256, length)
    ensures FromLittleEndian(ToLittleEndian(n, length)) == n
  {
    if length == 0 {
    } else {
      assert n / 256 < Pow(256, length - 1);
      FromTo(n / 256, length - 1);
      assert ([n % 256] + ToLittleEndian(n / 256, length - 1))[1..] == ToLittleEndian(n / 256, length - 1);
    }
  }

  lemma {:induction false} FromBound(b: seq<Byte>)
    ensures FromLittleEndian(b) < Pow(256, |b|)
  {
    if b == [] {
    } else {
      FromBound(b[1..]);
    }
  }

  lemma {:induction false} FromLast(b: seq<Byte>)
    requires b != []
    ensures FromLittleEndian(b) == FromLittleEndian(b[..|b| - 1]) + Pow(256, |b| - 1) * b[|b| - 1]
  {
    if |b| <= 1 {
    } else {
      FromLast(b[1..]);
      var init, last, w := b[..|b| - 1], b[|b| - 1], Pow(256, |b| - 2);
      var rest := b[1..];
      assert rest[..|rest| - 1] == init[1..] && rest[|rest| - 1] == last && init[0] == b[0];
      assert FromLittleEndian(rest) == FromLittleEndian(init[1..]) + w * last;
      assert FromLittleEndian(b) == b[0] + 256 * FromLittleEndian(rest);
      assert FromLittleEndian(init) == b[0] + 256 * FromLittleEndian(init[1..]);
      assert 256 * (w * last) == (256 * w) * last;
    }
  }

  // ---- keys

  datatype InvalidKey = InvalidKey

  function ValidateKey(value: string): Result<string, InvalidKey> {
    match Decode(value, Standard, true)
    case Err(_) => Err(InvalidKey)
    case Ok(raw) => if |raw| == KEY_BYTES then Ok(value) else Err(InvalidKey)
  }

  /** Validation does not rewrite a key. */
  lemma ValidKeyIsUnchanged(key: string)
    ensures ValidateKey(key).Ok? ==> ValidateKey(key) == Ok(key)
  {
  }

  function KeyBytes(key: string): (raw: seq<Byte>)
    requires ValidateKey(key).Ok?
    ensures |raw| == KEY_BYTES
  {
    Decode(key, Standard, true).value
  }

  /** & 248 on the first byte, & 127 and | 64 on the last. */
  function Clamp(raw: seq<Byte>): (scalar: seq<Byte>)
    requires |raw| == KEY_BYTES
    ensures |scalar| == KEY_BYTES
  {
    raw[0 := raw[0] - raw[0] % 8][31 := 64 + raw[31] % 64]
  }

  lemma HighByte(b: seq<Byte>, n: nat)
    requires |b| == n + 1
    ensures FromLittleEndian(b) == FromLittleEndian(b[..n]) + Pow(256, n) * b[n] && FromLittleEndian(b[..n]) < Pow(256, n)
  {
    FromLast(b);
    FromBound(b[..n]);
  }

  lemma HighByteWeight(n: nat)
    requires n == 31
    ensures Pow(256, n) == TWO_248
  {
    PowSquare(256, 15);
    PowSquare(0x1_0000, 7);
    PowSquare(0x1_0000_0000, 3);
    assert Pow(0x1_0000_0000_0000_0000, 3) == 0x1_0000_0000_0000_0000 * (0x1_0000_0000_0000_0000 * 0x1_0000_0000_0000_0000);
    assert Pow(0x1_0000_0000, 7) == 0x1_0000_0000 * Pow(0x1_0000_0000, 6);
    assert Pow(0x1_0000, 15) == 0x1_0000 * Pow(0x1_0000, 14);
    assert Pow(256, 31) == 256 * Pow(256, 30);
  }

  lemma ClampedParts(raw: seq<Byte>) returns (low: nat, j: nat)
    requires |raw| == KEY_BYTES
    ensures FromLittleEndian(Clamp(raw)) == low + TWO_248 * (64 + j)
    ensures low % 8 == 0 && low < TWO_248 && j < 64
  {
    var s := Clamp(raw);
    low, j := FromLittleEndian(s[..31]), s[31] - 64;
    HighByte(s, 31);
    HighByteWeight(31);
    assert s[..31][0] % 8 == 0;
  }

  /** Clamped scalars are 2^254 + 8k with k below 2^251. */
  lemma ClampedScalar(raw: seq<Byte>) returns (k: nat)
    requires |raw| == KEY_BYTES
    ensures FromLittleEndian(Clamp(raw)) == TWO_254 + 8 * k && k < TWO_251
  {
    var low, j := ClampedParts(raw);
    k := low / 8 + (TWO_248 / 8) * j;
  }

  /** The low byte of a little-endian integer decides its remainder, and what is above it is a multiple of 256. */
  lemma LowByte(b: seq<Byte>, c: Byte)
    requires b != []
    ensures FromLittleEndian(b) % 8 == b[0] % 8
    ensures FromLittleEndian(b[0 := c]) == FromLittleEndian(b) - b[0] + c
  {
    assert b[0 := c][1..] == b[1..];
  }

  /** As a number, the clamped key keeps bits 3 to 253 and has bit 254 set: all other bits are cleared. */
  lemma ClampedNumber(raw: seq<Byte>)
    requires |raw| == KEY_BYTES
    ensures var n := FromLittleEndian(raw); FromLittleEndian(Clamp(raw)) == TWO_254 + n % TWO_254 - n % 8
  {
    var s, low, high := Clamp(raw), raw[..31], raw[31];
    HighByteWeight(31);
    HighByte(raw, 31);
    HighByte(s, 31);
    LowByte(low, raw[0] - raw[0] % 8);
    LowByte(raw, 0);
    assert s[..31] == low[0 := raw[0] - raw[0] % 8];
    var n, m := FromLittleEndian(raw), FromLittleEndian(low);
    assert n == m + TWO_248 * (high % 64) + TWO_254 * (high / 64);
    DivisionIsUnique(n, high / 64, m + TWO_248 * (high % 64), TWO_254);
  }

  /** The modulus is 2^255 - 19, the bit that clamping sets has weight 2^254, and the base point has u = 9 (section 4.1 of RFC 7748). */
  lemma ConstantsAreThoseOfTheCurve()
    ensures P == Pow(2, 255) - 19 && TWO_254 == Pow(2, 254)
    ensures Multiple(0) == Point(1, 0) && Multiple(1) == Point(9, 1) && A == 486662
  {
    PowSquare(2, 127);
    PowSquare(4, 63);
    PowSquare(16, 31);
    HighByteWeight(31);
    assert Pow(16, 63) == 16 * Pow(16, 62);
    assert Pow(4, 127) == 4 * Pow(4, 126);
    assert Pow(2, 255) == 2 * Pow(2, 254);
  }

  lemma ClampIsIdempotent(raw: seq<Byte>)
    requires |raw| == KEY_BYTES
    ensures Clamp(Clamp(raw)) == Clamp(raw)
  {
    var s := Clamp(raw);
    assert s[0] % 8 == 0 && 64 + s[31] % 64 == s[31];
  }

  // ---- the ladder over the bits of a scalar

  function ShiftRight(n: nat, k: nat): nat {
    if k == 0 then n else ShiftRight(n, k - 1) / 2
  }

  lemma {:induction false} ShiftVanishes(n: nat, k: nat, j: nat)
    requires n < Pow(2, k + j)
    ensures ShiftRight(n, k) < Pow(2, j)
  {
    if k == 0 {
    } else {
      ShiftVanishes(n, k - 1, j + 1);
    }
  }

  lemma TopBitWeight(n: nat)
    requires n == 255
    ensures Pow(2, n) == 2 * TWO_254
  {
    HighByteWeight(31);
    PowSquare(2, 127);
    PowSquare(4, 63);
    PowSquare(16, 31);
    assert Pow(16, 63) == 16 * Pow(16, 62);
    assert Pow(4, 127) == 4 * Pow(4, 126);
    assert Pow(2, 255) == 2 * Pow(2, 254);
  }

  datatype Ladder = Ladder(p2: Point, p3: Point, swap: int)

  /** The pending exchange is settled against the next bit, then the round runs and the bit becomes pending. */
  function LadderStep(s: Ladder, bit: int): Ladder {
    var (q2, q3) := if s.swap != bit then (s.p3, s.p2) else (s.p2, s.p3);
    var (r2, r3) := LadderRound(q2, q3, P);
    Ladder(r2, r3, bit)
  }

  /** The ladder after the bits at positions length-1 down to position. */
  function LadderDown(value: nat, length: nat, position: nat): Ladder
    decreases length - position
  {
    if position >= length then Ladder(Point(1, 0), Point(BASE_U, 1), 0)
    else LadderStep(LadderDown(value, length, position + 1), ShiftRight(value, position) % 2)
  }

  function Settled(s: Ladder): Point {
    if s.swap != 0 then s.p3 else s.p2
  }

  const INVERSE_OF_36 := 0x51c71c71c71c71c71c71c71c71c71c71c71c71c71c71c71c71c71c71c71c71bb

  lemma ThirtySixIsUnit()
    ensures Inverse(36, INVERSE_OF_36, P)
  {
    assert 36 * INVERSE_OF_36 == 23 * P + 1;
  }

  /** For scalars of any length: the bits consumed so far, read as n, leave multiples n and n+1. */
  lemma {:induction false} LadderTracks(value: nat, length: nat, position: nat)
    requires ShiftRight(value, length) == 0 && position <= length
    ensures var s := LadderDown(value, length, position);
            Tracks(s.p2, s.p3, s.swap, ShiftRight(value, position), P)
    decreases length - position
  {
    if position == length {
      SimilarRefl(Point(1, 0), P);
      SimilarRefl(Point(BASE_U, 1), P);
      assert Multiple(0) == Point(1, 0) && Multiple(1) == Point(BASE_U, 1);
    } else {
      LadderTracks(value, length, position + 1);
      var s := LadderDown(value, length, position + 1);
      var n, bit := ShiftRight(value, position + 1), ShiftRight(value, position) % 2;
      ThirtySixIsUnit();
      RoundTracks(s.p2, s.p3, s.swap, n, bit, INVERSE_OF_36, P);
      assert ShiftRight(value, position) == 2 * n + bit;
    }
  }

  /** The deferred-swap ladder computes the scalar multiple of the base point. */
  lemma LadderComputesMultiple(value: nat, length: nat)
    requires ShiftRight(value, length) == 0
    ensures Similar(Settled(LadderDown(value, length, 0)), Multiple(value), P)
  {
    LadderTracks(value, length, 0);
  }

  // ---- the derivation

  function PublicU(scalar: nat): (u: int) {
    var q := Settled(LadderDown(scalar, 255, 0));
    Divide(q.x, q.z, P)
  }

  function Scalar(key: string): nat
    requires ValidateKey(key).Ok?
  {
    FromLittleEndian(Clamp(KeyBytes(key)))
  }

  lemma PublicUFits(scalar: nat)
    ensures 0 <= PublicU(scalar) < P && P < Pow(256, KEY_BYTES)
  {
    HighByteWeight(31);
    assert Pow(256, 32) == 256 * Pow(256, 31);
  }

  lemma ScalarHasNoHigherBits(key: string)
    requires ValidateKey(key).Ok?
    ensures ShiftRight(Scalar(key), 255) == 0
  {
    var k := ClampedScalar(KeyBytes(key));
    TopBitWeight(255);
    ShiftVanishes(Scalar(key), 255, 0);
  }

  function PublicKeyText(key: string): string
    requires ValidateKey(key).Ok?
  {
    PublicUFits(Scalar(key));
    Encode(ToLittleEndian(PublicU(Scalar(key)), KEY_BYTES), Standard)
  }

  /**
   * With 2^255 - 19 prime, the derived key text decodes to the affine coordinate of the multiple of the base point whose
   * factor has bits 3 to 253 of the given key, and bit 254.
   */
  lemma PublicKeyIsMultiple(key: string)
    requires ValidateKey(key).Ok? && Prime(P)
    ensures var n := FromLittleEndian(KeyBytes(key));
            var m := Multiple(TWO_254 + n % TWO_254 - n % 8);
            var text := PublicKeyText(key);
            ValidateKey(text).Ok? && FromLittleEndian(KeyBytes(text)) == Divide(m.x, m.z, P)
  {
    hide ValidateKey, KeyBytes, PublicKeyText, Clamp, Divide, PublicU, Prime;
    DerivedKeyIsValid(key);
    ClampedNumber(KeyBytes(key));
    ScalarIsMultiplied(key);
  }

  lemma ScalarIsMultiplied(key: string)
    requires ValidateKey(key).Ok? && Prime(P)
    ensures var m := Multiple(Scalar(key)); PublicU(Scalar(key)) == Divide(m.x, m.z, P)
  {
    var n := Scalar(key);
    ScalarHasNoHigherBits(key);
    LadderComputesMultiple(n, 255);
    SimilarPointsDivideAlike(Settled(LadderDown(n, 255, 0)), Multiple(n), P);
  }

  /** Derived keys are accepted by the key validator and decode to the coordinate they were made from. */
  lemma DerivedKeyIsValid(key: string)
    requires ValidateKey(key).Ok?
    ensures var text := PublicKeyText(key);
            && |text| == 44
            && ValidateKey(text) == Ok(text)
            && FromLittleEndian(KeyBytes(text)) == PublicU(Scalar(key))
  {
    hide PublicU, Scalar, ValidateKey, KeyBytes;
    PublicUFits(Scalar(key));
    EncodedIsKey(PublicU(Scalar(key)), KEY_BYTES);
  }

  lemma EncodedIsKey(u: nat, length: nat)
    requires length == KEY_BYTES && u < Pow(256, length)
    ensures var text := Encode(ToLittleEndian(u, length), Standard);
            && |text| == 44
            && ValidateKey(text) == Ok(text)
            && FromLittleEndian(KeyBytes(text)) == u
  {
    hide ValidateKey, KeyBytes;
    EncodedBytes(ToLittleEndian(u, length));
    FromTo(u, length);
  }

  lemma EncodedBytes(raw: seq<Byte>)
    requires |raw| == KEY_BYTES
    ensures var text := Encode(raw, Standard); |text| == 44 && ValidateKey(text) == Ok(text) && KeyBytes(text) == raw
  {
    hide Decode;
    EncodeShape(raw, Standard);
    DecodeEncode(raw, Standard, true);
  }

  /** Bits that clamping discards do not reach the public key. */
  lemma ClampedKeysAgree(key: string, key': string)
    requires ValidateKey(key).Ok? && ValidateKey(key').Ok?
    requires KeyBytes(key') == Clamp(KeyBytes(key))
    ensures PublicKeyText(key') == PublicKeyText(key)
  {
    ClampIsIdempotent(KeyBytes(key));
  }

  /** The loop as written: five locals, bits from position 254 down, the exchange deferred to the next round. */
  method MontgomeryLadder(value: nat) returns (x_2: int, z_2: int)
    ensures Point(x_2, z_2) == Settled(LadderDown(value, 255, 0))
  {
    hide LadderRound;
    var x_1 := BASE_U;
    var x_3, z_3, swap := x_1, 1, 0;
    x_2, z_2 := 1, 0;
    var position := 255;
    while position > 0
      invariant 0 <= position <= 255
      invariant Ladder(Point(x_2, z_2), Point(x_3, z_3), swap) == LadderDown(value, 255, position)
      invariant 0 <= swap <= 1
    {
      position := position - 1;
      var bit := ShiftRight(value, position) % 2;
      swap := (swap + bit) % 2;
      if swap != 0 {
        x_2, x_3, z_2, z_3 := x_3, x_2, z_3, z_2;
      }
      swap := bit;
      x_2, z_2, x_3, z_3 := Round(x_2, z_2, x_3, z_3, x_1);
    }
    if swap != 0 {
      x_2, x_3, z_2, z_3 := x_3, x_2, z_3, z_2;
    }
  }

  /** The body of the loop after the conditional exchange. */
  method Round(x2: int, z2: int, x3: int, z3: int, x_1: int) returns (x_2: int, z_2: int, x_3: int, z_3: int)
    requires x_1 == BASE_U
    ensures (Point(x_2, z_2), Point(x_3, z_3)) == LadderRound(Point(x2, z2), Point(x3, z3), P)
  {
    x_2, z_2, x_3, z_3 := x2, z2, x3, z3;
    var a, aa := (x_2 + z_2) % P, (x_2 + z_2) * (x_2 + z_2) % P;
    var b, bb := (x_2 - z_2) % P, (x_2 - z_2) * (x_2 - z_2) % P;
    var e, c, d := (aa - bb) % P, (x_3 + z_3) % P, (x_3 - z_3) % P;
    var da, cb := d * a % P, c * b % P;
    x_3, z_3 := (da + cb) * (da + cb) % P, x_1 * ((da - cb) * (da - cb)) % P;
    x_2, z_2 := aa * bb % P, e * (aa + 121665 * e) % P;
  }

  /** Clamping in place. */
  method ClampInPlace(scalar: array<Byte>)
    requires scalar.Length == KEY_BYTES
    modifies scalar
    ensures scalar[..] == Clamp(old(scalar[..]))
  {
    scalar[0] := scalar[0] - scalar[0] % 8;
    scalar[31] := scalar[31] % 128;
    scalar[31] := scalar[31] % 64 + 64;
  }

  /** The derivation as written: validate, clamp a byte array in place, run the ladder, divide, encode. */
  method PublicKey(privateKey: string) returns (r: Result<string, InvalidKey>)
    ensures r == if ValidateKey(privateKey).Ok? then Ok(PublicKeyText(privateKey)) else Err(InvalidKey)
  {
    hide ValidateKey, KeyBytes, Clamp;
    if ValidateKey(privateKey).Err? {
      return Err(InvalidKey);
    }
    var raw := KeyBytes(privateKey);
    var scalar := new Byte[KEY_BYTES](i requires 0 <= i < KEY_BYTES => raw[i]);
    assert scalar[..] == raw;
    ClampInPlace(scalar);
    var value := FromLittleEndian(scalar[..]);
    var x_2, z_2 := MontgomeryLadder(value);
    var result := x_2 * PowMod(z_2, P - 2, P) % P;
    PublicUFits(value);
    r := Ok(Encode(ToLittleEndian(result, KEY_BYTES), Standard));
  }
}
