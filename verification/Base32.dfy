/**
  The key encoder (services/api/src/auth/api-key-store.ts): base32 out of a 32-bit
  register that is never masked, against section 6 of RFC 4648.
*/
module Base32 {
  import opened Base

  const ALPHABET := "abcdefghijklmnopqrstuvwxyz234567"
  const KEY_PREFIX := "lw_"

  type Byte = n: nat | n < 256 witness 0
  type Digit = n: nat | n < 32 witness 0

  const REGISTER: nat := 0x1_0000_0000

  function Pow2(n: nat): (p: nat)
    ensures p > 0
  {
    if n == 0 then 1 else 2 * Pow2(n - 1)
  }

  /** The register after shifting a byte in: what is shifted out of 32 bits is lost. */
  function ShiftIn(buffer: nat, byte: Byte): nat { (buffer * 256 + byte) % REGISTER }

  /** The five bits above the `low` lowest. */
  function Extract(buffer: nat, low: nat): Digit { buffer / Pow2(low) % 32 }

  /** The number that bytes spell, and that digits spell. */
  function ByteValue(bytes: seq<Byte>): nat {
    if bytes == [] then 0 else ByteValue(bytes[..|bytes| - 1]) * 256 + bytes[|bytes| - 1]
  }

  function DigitValue(digits: seq<Digit>): nat {
    if digits == [] then 0 else DigitValue(digits[..|digits| - 1]) * 32 + digits[|digits| - 1]
  }

  lemma {:induction false} Pow2Add(a: nat, b: nat)
    ensures Pow2(a + b) == Pow2(a) * Pow2(b)
  {
    if a > 0 {
      Pow2Add(a - 1, b);
      Doubled(Pow2(a - 1), Pow2(b));
      assert Pow2(a) == 2 * Pow2(a - 1) && Pow2(a + b) == 2 * Pow2(a - 1 + b);
    } else {
      assert Pow2(a) == 1;
    }
  }

  lemma Doubled(p: nat, q: nat)
    ensures 2 * (p * q) == (2 * p) * q
  {
  }

  lemma SmallPowers()
    ensures Pow2(5) == 32 && Pow2(8) == 256 && Pow2(24) == 0x100_0000
  {
    Pow2Add(8, 8);
    Pow2Add(8, 16);
  }

  /** Pending bits survive the overflow of the register. */
  lemma ShiftKeepsPending(buffer: nat, byte: Byte, bits: nat)
    requires bits < 5
    ensures ShiftIn(buffer, byte) % Pow2(bits + 8) == buffer % Pow2(bits) * 256 + byte
    ensures Pow2(bits + 8) == 256 * Pow2(bits)
  {
    SmallPowers();
    Pow2Add(bits, 8);
    Pow2Add(bits, 24 - bits);
    var p, k := Pow2(bits), Pow2(24 - bits);
    ShiftKeeps(buffer, byte, p, k);
  }

  lemma ShiftKeeps(buffer: nat, byte: Byte, p: nat, k: nat)
    requires p > 0 && p * k * 256 == REGISTER
    ensures ShiftIn(buffer, byte) % (256 * p) == buffer % p * 256 + byte
  {
    var x := buffer * 256 + byte;
    ShiftedBits(buffer, byte, p, x);
    OverflowIsMultiple(x, p, k, 256 * p);
  }

  lemma ShiftedBits(buffer: nat, byte: Byte, p: nat, x: nat)
    requires p > 0 && x == buffer * 256 + byte
    ensures x % (256 * p) == buffer % p * 256 + byte
  {
    Divided(buffer, p);
    Regroup(buffer / p, buffer % p, byte, p);
    Division(x, 256 * p, buffer / p, buffer % p * 256 + byte);
  }

  /** What the register loses is a multiple of the pending part. */
  lemma OverflowIsMultiple(x: nat, p: nat, k: nat, m: nat)
    requires p > 0 && p * k * 256 == REGISTER && m == 256 * p
    ensures x % REGISTER % m == x % m
  {
    var a, y := x / REGISTER, x % REGISTER;
    Divided(x, REGISTER);
    Divided(y, m);
    Multiple(a, k, p, y / m, y % m);
    Division(x, m, a * k + y / m, y % m);
  }

  lemma Divided(x: nat, m: nat)
    requires m > 0
    ensures x == x / m * m + x % m && x % m < m
  {
  }

  lemma Regroup(q: nat, r: nat, byte: Byte, p: nat)
    requires r < p
    ensures (q * p + r) * 256 + byte == q * (256 * p) + (r * 256 + byte) && r * 256 + byte < 256 * p
  {
  }

  lemma Multiple(a: nat, k: nat, p: nat, b: nat, z: nat)
    requires p * k * 256 == REGISTER
    ensures a * REGISTER + (b * (256 * p) + z) == (a * k + b) * (256 * p) + z
  {
    assert a * (p * k * 256) == (a * k) * (256 * p);
  }

  /** A digit is the top of the pending bits. */
  lemma ExtractIsTop(buffer: nat, bits: nat)
    requires bits >= 5
    ensures buffer % Pow2(bits) == Extract(buffer, bits - 5) * Pow2(bits - 5) + buffer % Pow2(bits - 5)
    ensures Pow2(bits) == 32 * Pow2(bits - 5)
  {
    SmallPowers();
    Pow2Add(5, bits - 5);
    TopOf(buffer, Pow2(bits - 5));
  }

  lemma TopOf(buffer: nat, p: nat)
    requires p > 0
    ensures buffer % (32 * p) == buffer / p % 32 * p + buffer % p
  {
    var q := buffer / p;
    Divided(buffer, p);
    Divided(q, 32);
    TopGroup(q / 32, q % 32, buffer % p, p);
    Division(buffer, 32 * p, q / 32, q % 32 * p + buffer % p);
  }

  lemma TopGroup(c: nat, d: nat, r: nat, p: nat)
    requires d < 32 && r < p
    ensures (c * 32 + d) * p + r == c * (32 * p) + (d * p + r) && d * p + r < 32 * p
  {
    assert d * p <= 31 * p;
  }

  // -------------------------------------------------------------- digits and values

  /** The last `n` digits of a number. */
  function DigitsOf(v: nat, n: nat): (d: seq<Digit>)
    ensures |d| == n
  {
    if n == 0 then [] else DigitsOf(v / 32, n - 1) + [v % 32]
  }

  function BytesOf(v: nat, n: nat): (b: seq<Byte>)
    ensures |b| == n
  {
    if n == 0 then [] else BytesOf(v / 256, n - 1) + [v % 256]
  }

  lemma {:induction false} DigitsOfValue(d: seq<Digit>)
    ensures DigitsOf(DigitValue(d), |d|) == d
  {
    if d != [] {
      DigitsOfValue(d[..|d| - 1]);
      Division(DigitValue(d), 32, DigitValue(d[..|d| - 1]), d[|d| - 1]);
      assert d == d[..|d| - 1] + [d[|d| - 1]];
    }
  }

  lemma {:induction false} BytesOfValue(b: seq<Byte>)
    ensures BytesOf(ByteValue(b), |b|) == b
  {
    if b != [] {
      BytesOfValue(b[..|b| - 1]);
      Division(ByteValue(b), 256, ByteValue(b[..|b| - 1]), b[|b| - 1]);
      assert b == b[..|b| - 1] + [b[|b| - 1]];
    }
  }

  /** A power more on both sides of a sum. */
  lemma Shifted(v: nat, p: nat, x: nat, last: nat, m: nat)
    ensures (v * p + x) * m + last == v * (p * m) + (x * m + last)
  {
  }

  lemma {:induction false} DigitValueConcat(a: seq<Digit>, b: seq<Digit>)
    ensures DigitValue(a + b) == DigitValue(a) * Pow2(5 * |b|) + DigitValue(b)
  {
    if b == [] {
      assert a + b == a;
    } else {
      var most, last := b[..|b| - 1], b[|b| - 1];
      DigitValueConcat(a, most);
      assert (a + b)[..|a + b| - 1] == a + most;
      DigitPower(|most|);
      Shifted(DigitValue(a), Pow2(5 * |most|), DigitValue(most), last, 32);
    }
  }

  lemma DigitPower(n: nat)
    ensures Pow2(5 * (n + 1)) == Pow2(5 * n) * 32
  {
    Pow2Add(5 * n, 5);
    SmallPowers();
  }

  lemma {:induction false} ByteValueConcat(a: seq<Byte>, b: seq<Byte>)
    ensures ByteValue(a + b) == ByteValue(a) * Pow2(8 * |b|) + ByteValue(b)
  {
    if b == [] {
      assert a + b == a;
    } else {
      var most, last := b[..|b| - 1], b[|b| - 1];
      ByteValueConcat(a, most);
      assert (a + b)[..|a + b| - 1] == a + most;
      BytePower(|most|);
      Shifted(ByteValue(a), Pow2(8 * |most|), ByteValue(most), last, 256);
    }
  }

  lemma BytePower(n: nat)
    ensures Pow2(8 * (n + 1)) == Pow2(8 * n) * 256
  {
    Pow2Add(8 * n, 8);
    SmallPowers();
  }

  lemma {:induction false} DigitsHoldValue(v: nat, n: nat)
    requires v < Pow2(5 * n)
    ensures DigitValue(DigitsOf(v, n)) == v
  {
    if n > 0 {
      Pow2Add(5, 5 * (n - 1));
      SmallPowers();
      QuotientIsBelow(v, Pow2(5 * (n - 1)));
      DigitsHoldValue(v / 32, n - 1);
      assert DigitsOf(v, n)[..n - 1] == DigitsOf(v / 32, n - 1);
    }
  }

  lemma QuotientIsBelow(v: nat, p: nat)
    requires v < 32 * p
    ensures v / 32 < p
  {
  }

  lemma {:induction false} ByteValueIsBounded(b: seq<Byte>)
    ensures ByteValue(b) < Pow2(8 * |b|)
  {
    if b != [] {
      ByteValueIsBounded(b[..|b| - 1]);
      Pow2Add(8, 8 * (|b| - 1));
      SmallPowers();
    }
  }

  // ------------------------------------------------------------------- the encoder

  function Quotient(v: nat, p: nat): nat
    requires p > 0
  {
    v / p
  }

  /** What the encoder makes of bytes: all their bits five at a time, but for the last
      few that do not fill a digit. */
  function Encoded(bytes: seq<Byte>): seq<Digit> {
    DigitsOf(Quotient(ByteValue(bytes), Pow2(8 * |bytes| % 5)), 8 * |bytes| / 5)
  }

  function Text(digits: seq<Digit>): string {
    if digits == [] then [] else Text(digits[..|digits| - 1]) + [ALPHABET[digits[|digits| - 1]]]
  }

  /** The number that the digits written and the lowest `bits` bits of the register
      spell. */
  ghost function Spelt(digits: seq<Digit>, bits: nat, buffer: nat): nat {
    if bits == 0 then DigitValue(digits) else 2 * Spelt(digits, bits - 1, buffer / 2) + buffer % 2
  }

  lemma {:induction false} SpeltIs(digits: seq<Digit>, bits: nat, buffer: nat)
    ensures Spelt(digits, bits, buffer) == DigitValue(digits) * Pow2(bits) + buffer % Pow2(bits)
  {
    if bits > 0 {
      SpeltIs(digits, bits - 1, buffer / 2);
      LowBit(buffer, Pow2(bits - 1));
      Twice(DigitValue(digits), Pow2(bits - 1), buffer / 2 % Pow2(bits - 1), buffer % 2);
    }
  }

  lemma Twice(v: nat, p: nat, x: nat, bit: nat)
    ensures 2 * (v * p + x) + bit == v * (2 * p) + (2 * x + bit)
  {
  }

  lemma LowBit(buffer: nat, p: nat)
    requires p > 0
    ensures buffer % (2 * p) == 2 * (buffer / 2 % p) + buffer % 2
  {
    var h, bit := buffer / 2, buffer % 2;
    Divided(h, p);
    Twice(h / p, p, h % p, bit);
    Division(buffer, 2 * p, h / p, 2 * (h % p) + bit);
  }

  lemma ByteIsPending(digits: seq<Digit>, bits: nat, buffer: nat, byte: Byte)
    requires bits < 5
    ensures Spelt(digits, bits + 8, ShiftIn(buffer, byte)) == Spelt(digits, bits, buffer) * 256 + byte
  {
    SpeltIs(digits, bits, buffer);
    SpeltIs(digits, bits + 8, ShiftIn(buffer, byte));
    ShiftKeepsPending(buffer, byte, bits);
    Shifted(DigitValue(digits), Pow2(bits), buffer % Pow2(bits), byte, 256);
  }

  lemma DigitIsWritten(digits: seq<Digit>, bits: nat, buffer: nat)
    requires bits >= 5
    ensures Spelt(digits + [Extract(buffer, bits - 5)], bits - 5, buffer) == Spelt(digits, bits, buffer)
  {
    var idx := Extract(buffer, bits - 5);
    assert (digits + [idx])[..|digits|] == digits;
    SpeltIs(digits, bits, buffer);
    SpeltIs(digits + [idx], bits - 5, buffer);
    ExtractIsTop(buffer, bits);
    Narrow(DigitValue(digits), idx, Pow2(bits - 5), buffer % Pow2(bits - 5));
  }

  lemma Narrow(v: nat, idx: Digit, p: nat, pending: nat)
    ensures v * (32 * p) + (idx * p + pending) == (v * 32 + idx) * p + pending
  {
  }

  lemma WrittenIsEncoded(bytes: seq<Byte>, digits: seq<Digit>, bits: nat, buffer: nat)
    requires bits < 5 && 5 * |digits| + bits == 8 * |bytes| && ByteValue(bytes) == Spelt(digits, bits, buffer)
    ensures Encoded(bytes) == digits
  {
    SpeltIs(digits, bits, buffer);
    assert Pow2(bits) > 0;
    Division(ByteValue(bytes), Pow2(bits), DigitValue(digits), buffer % Pow2(bits));
    DigitsOfValue(digits);
    EncodedIs(bytes, bits, |digits|, DigitValue(digits));
  }

  lemma EncodedIs(bytes: seq<Byte>, bits: nat, n: nat, v: nat)
    requires bits < 5 && 5 * n + bits == 8 * |bytes| && v == ByteValue(bytes) / Pow2(bits)
    ensures Encoded(bytes) == DigitsOf(v, n)
  {
    assert 8 * |bytes| % 5 == bits && 8 * |bytes| / 5 == n;
  }

  lemma NextByte(bytes: seq<Byte>, i: nat)
    requires i < |bytes|
    ensures ByteValue(bytes[..i + 1]) == ByteValue(bytes[..i]) * 256 + bytes[i]
  {
    assert bytes[..i + 1][..i] == bytes[..i];
  }

  /** The rolling buffer. Its low `bits` bits are always the input bits not yet
      written, although older bits pile up above them and overflow. */
  method GenerateKey(bytes: seq<Byte>) returns (key: string)
    ensures key == KEY_PREFIX + Text(Encoded(bytes))
  {
    var out := "";
    ghost var digits: seq<Digit> := [];
    var bits, buffer: nat := 0, 0;
    for i := 0 to |bytes|
      invariant bits < 5 && buffer < REGISTER && 5 * |digits| + bits == 8 * i && out == Text(digits)
      invariant ByteValue(bytes[..i]) == Spelt(digits, bits, buffer)
    {
      NextByte(bytes, i);
      ByteIsPending(digits, bits, buffer, bytes[i]);
      buffer := ShiftIn(buffer, bytes[i]);
      bits := bits + 8;
      ghost var spelt := ByteValue(bytes[..i + 1]);
      while bits >= 5
        invariant bits <= 12 && 5 * |digits| + bits == 8 * (i + 1) && out == Text(digits)
        invariant spelt == Spelt(digits, bits, buffer)
      {
        var idx := Extract(buffer, bits - 5);
        DigitIsWritten(digits, bits, buffer);
        assert (digits + [idx])[..|digits|] == digits;
        digits := digits + [idx];
        out := out + [ALPHABET[idx]];
        bits := bits - 5;
      }
    }
    assert bytes[..|bytes|] == bytes;
    WrittenIsEncoded(bytes, digits, bits, buffer);
    key := KEY_PREFIX + out;
  }

  // ------------------------------------------------------------------- RFC 4648

  /** Section 6: each group of 40 bits is eight groups of five. */
  function Rfc(bytes: seq<Byte>): seq<Digit>
    requires |bytes| % 5 == 0
  {
    if bytes == [] then []
    else Rfc(bytes[..|bytes| - 5]) + DigitsOf(ByteValue(bytes[|bytes| - 5..]), 8)
  }

  lemma {:induction false} RfcHoldsValue(bytes: seq<Byte>)
    requires |bytes| % 5 == 0
    ensures DigitValue(Rfc(bytes)) == ByteValue(bytes) && |Rfc(bytes)| == 8 * |bytes| / 5
  {
    if bytes != [] {
      var most, group := bytes[..|bytes| - 5], bytes[|bytes| - 5..];
      RfcHoldsValue(most);
      ByteValueIsBounded(group);
      DigitsHoldValue(ByteValue(group), 8);
      DigitValueConcat(Rfc(most), DigitsOf(ByteValue(group), 8));
      ByteValueConcat(most, group);
      assert bytes == most + group;
    }
  }

  /** On whole groups (the 20 bytes of a key are four) the encoder is that of the RFC. */
  lemma EncodedIsRfc(bytes: seq<Byte>)
    requires |bytes| % 5 == 0
    ensures Encoded(bytes) == Rfc(bytes)
    ensures |bytes| == 20 ==> |Encoded(bytes)| == 32
  {
    var n := |bytes| / 5;
    WholeGroups(|bytes|, n);
    RfcHoldsValue(bytes);
    DigitsOfValue(Rfc(bytes));
    Divided(ByteValue(bytes), 1);
  }

  lemma WholeGroups(length: nat, n: nat)
    requires length == 5 * n
    ensures 8 * length % 5 == 0 && 8 * length / 5 == 8 * n && Pow2(8 * length % 5) == 1
  {
    Division(8 * length, 5, 8 * n, 0);
  }

  // -------------------------------------------------------------------- decoding

  /** The RFC's table, in lower case: letters are 0 to 25, and 2 to 7 are 26 to 31. */
  function DigitOf(c: char): nat {
    if 'a' <= c <= 'z' then c as nat - 'a' as nat else if '2' <= c <= '7' then c as nat - '2' as nat + 26 else 0
  }

  function FromText(text: string): seq<nat> {
    if text == [] then [] else FromText(text[..|text| - 1]) + [DigitOf(text[|text| - 1])]
  }

  lemma AlphabetIsTable(d: Digit)
    ensures DigitOf(ALPHABET[d]) == d
  {
  }

  lemma {:induction false} TextReadsBack(digits: seq<Digit>)
    ensures FromText(Text(digits)) == digits && |Text(digits)| == |digits|
  {
    if digits != [] {
      var most, last := digits[..|digits| - 1], digits[|digits| - 1];
      TextReadsBack(most);
      AlphabetIsTable(last);
      assert Text(digits)[..|Text(digits)| - 1] == Text(most);
    }
  }

  /** A key tells its bytes exactly when they fill whole groups: then the value that
      its digits spell has them, and otherwise two keys of that length coincide. */
  lemma DecodesIffWhole(n: nat)
    ensures (forall a: seq<Byte>, b: seq<Byte> ::
               |a| == n && |b| == n && Text(Encoded(a)) == Text(Encoded(b)) ==> a == b)
            <==> n % 5 == 0
  {
    if n % 5 == 0 {
      forall a: seq<Byte>, b: seq<Byte> | |a| == n && |b| == n && Text(Encoded(a)) == Text(Encoded(b)) ensures a == b {
        TextReadsBack(Encoded(a));
        TextReadsBack(Encoded(b));
        Decodes(a);
        Decodes(b);
      }
    } else {
      var a, b := LastBitIsLost(n);
    }
  }

  function Zeros(n: nat): (z: seq<Byte>)
    ensures |z| == n && ByteValue(z) == 0
  {
    if n == 0 then [] else
      assert (Zeros(n - 1) + [0])[..n - 1] == Zeros(n - 1);
      Zeros(n - 1) + [0]
  }

  lemma LastBitIsLost(n: nat) returns (a: seq<Byte>, b: seq<Byte>)
    requires n % 5 != 0
    ensures |a| == n && |b| == n && a != b && Encoded(a) == Encoded(b)
  {
    a, b := Zeros(n - 1) + [0], Zeros(n - 1) + [1];
    assert a[..n - 1] == Zeros(n - 1) && b[..n - 1] == Zeros(n - 1) && a[n - 1] != b[n - 1];
    assert ByteValue(a) == 0 && ByteValue(b) == 1;
    var rest := 8 * n % 5;
    LastBitDropped(n, rest);
  }

  lemma LastBitDropped(n: nat, rest: nat)
    requires n % 5 != 0 && rest == 8 * n % 5
    ensures 0 / Pow2(rest) == 0 && 1 / Pow2(rest) == 0
  {
    var p := Pow2(rest);
    assert p == 2 * Pow2(rest - 1);
    Division(1, p, 0, 1);
    Division(0, p, 0, 0);
  }

  /** The round trip: the digits of whole groups spell the number of the bytes. */
  lemma Decodes(bytes: seq<Byte>)
    requires |bytes| % 5 == 0
    ensures BytesOf(DigitValue(Encoded(bytes)), |bytes|) == bytes
  {
    EncodedIsRfc(bytes);
    RfcHoldsValue(bytes);
    BytesOfValue(bytes);
  }
}
