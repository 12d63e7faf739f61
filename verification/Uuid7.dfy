/** UUIDv7 (section 5.7 of RFC 9562): packing, layout, and the order the time prefix gives. */
module Uuid7 {
  const TWO32: nat := 0x1_0000_0000
  const TWO48: nat := 0x1_0000_0000_0000

  // ---------- Packing ----------

  type Byte = x: nat | x < 256

  function ByteAt(x: nat): Byte {
    x % 256
  }

  /** JavaScript's `&` and `|` on small non-negative numbers. */
  function BitAnd(x: nat, y: nat): nat {
    if x == 0 || y == 0 then 0 else 2 * BitAnd(x / 2, y / 2) + (if x % 2 == 1 && y % 2 == 1 then 1 else 0)
  }

  function BitOr(x: nat, y: nat): nat
    decreases x + y
  {
    if x == 0 then y else if y == 0 then x
    else 2 * BitOr(x / 2, y / 2) + (if x % 2 == 1 || y % 2 == 1 then 1 else 0)
  }

  /** `y` shifted left by `k` bits. */
  function Shift(y: nat, k: nat): nat {
    if k == 0 then y else 2 * Shift(y, k - 1)
  }

  lemma ShiftByFourOrSix(y: nat)
    ensures Shift(y, 4) == 16 * y && Shift(y, 6) == 64 * y
  {
    assert Shift(y, 2) == 2 * Shift(y, 1);
  }

  /** A mask of `k` ones keeps the low `k` bits. */
  lemma {:induction false} AndKeeps(q: nat, r: nat, k: nat)
    requires r < Shift(1, k)
    ensures BitAnd(Shift(q, k) + r, Shift(1, k) - 1) == r
    decreases k
  {
    if k != 0 {
      AndKeeps(q, r / 2, k - 1);
      var x, y := Shift(q, k) + r, Shift(1, k) - 1;
      assert x / 2 == Shift(q, k - 1) + r / 2 && x % 2 == r % 2 && y / 2 == Shift(1, k - 1) - 1 && y % 2 == 1;
    }
  }

  /** Bits that do not overlap are added. */
  lemma {:induction false} OrAdds(x: nat, y: nat, k: nat)
    requires x < Shift(1, k)
    ensures BitOr(x, Shift(y, k)) == x + Shift(y, k)
    decreases k
  {
    if k != 0 { OrAdds(x / 2, y, k - 1); }
  }

  lemma LowHalf(b: Byte)
    ensures BitOr(BitAnd(b, 0x0f), 0x70) == 0x70 + b % 16
  {
    assert BitAnd(b, 0x0f) == b % 16 by {
      ShiftByFourOrSix(1);
      ShiftByFourOrSix(b / 16);
      AndKeeps(b / 16, b % 16, 4);
    }
    ShiftByFourOrSix(1);
    ShiftByFourOrSix(7);
    OrAdds(b % 16, 7, 4);
  }

  lemma LowSixBits(b: Byte)
    ensures BitOr(BitAnd(b, 0x3f), 0x80) == 0x80 + b % 64
  {
    assert BitAnd(b, 0x3f) == b % 64 by {
      ShiftByFourOrSix(1);
      ShiftByFourOrSix(b / 64);
      AndKeeps(b / 64, b % 64, 6);
    }
    ShiftByFourOrSix(1);
    ShiftByFourOrSix(2);
    OrAdds(b % 64, 2, 6);
  }

  /** Version 7 in the high half of byte 6, the low half kept. */
  function SetVersion(b: Byte): (r: Byte)
    ensures r == 0x70 + b % 16
  {
    LowHalf(b);
    BitOr(BitAnd(b, 0x0f), 0x70)
  }

  /** Variant 10 in the two high bits of byte 8, the rest kept. */
  function SetVariant(b: Byte): (r: Byte)
    ensures r == 0x80 + b % 64
  {
    LowSixBits(b);
    BitOr(BitAnd(b, 0x3f), 0x80)
  }

  /** The high part of the time in four bytes, which keep 32 bits of it, then the low 16 bits, then random bytes under masks. */
  function Pack(now: nat, random: seq<Byte>): (b: seq<Byte>)
    requires |random| == 16
    ensures |b| == 16
  {
    var hi := (now / 0x10000) % TWO32;
    var lo := now % 0x10000;
    [ByteAt(hi / 0x1000000), ByteAt(hi / 0x10000), ByteAt(hi / 0x100), ByteAt(hi), ByteAt(lo / 0x100), ByteAt(lo),
     SetVersion(random[6]), random[7], SetVariant(random[8])] + random[9..]
  }

  function HexDigit(n: nat): char
    requires n < 16
  {
    "0123456789abcdef"[n]
  }

  function HexByte(b: Byte): (s: string)
    ensures |s| == 2
  {
    [HexDigit(b / 16), HexDigit(b % 16)]
  }

  function Hex(b: seq<Byte>): (s: string)
    ensures |s| == 2 * |b|
    decreases |b|
  {
    if b == [] then "" else HexByte(b[0]) + Hex(b[1..])
  }

  function Dashed(hex: string): (s: string)
    requires |hex| == 32
    ensures |s| == 36
  {
    hex[..8] + "-" + hex[8..12] + "-" + hex[12..16] + "-" + hex[16..20] + "-" + hex[20..]
  }

  function Uuid(now: nat, random: seq<Byte>): string
    requires |random| == 16
  {
    Dashed(Hex(Pack(now, random)))
  }

  /** The generator; `random` is what the random source put into the buffer. */
  method Uuidv7(now: nat, random: seq<Byte>) returns (s: string)
    requires |random| == 16
    ensures s == Uuid(now, random)
  {
    var bytes := new Byte[16](i requires 0 <= i < 16 => random[i]);
    assert bytes[..] == random;
    Fill(bytes, now);
    var hex := HexString(bytes);
    s := hex[..8] + "-" + hex[8..12] + "-" + hex[12..16] + "-" + hex[16..20] + "-" + hex[20..];
  }

  /** Writes the time and the masks over the random bytes, in place. */
  method Fill(bytes: array<Byte>, now: nat)
    requires bytes.Length == 16
    modifies bytes
    ensures bytes[..] == Pack(now, old(bytes[..]))
  {
    SetUint32(bytes, 0, now / 0x10000);
    SetUint16(bytes, 4, now % 0x10000);
    bytes[6] := SetVersion(bytes[6]);
    bytes[8] := SetVariant(bytes[8]);
    ghost var want := Pack(now, old(bytes[..]));
    forall i | 0 <= i < 16 ensures bytes[i] == want[i] {
      if i >= 9 { assert want[i] == old(bytes[..])[9..][i - 9]; }
    }
  }

  method HexString(bytes: array<Byte>) returns (hex: string)
    ensures hex == Hex(bytes[..])
  {
    hex := "";
    var i := 0;
    while i < bytes.Length
      invariant 0 <= i <= bytes.Length
      invariant hex + Hex(bytes[i..]) == Hex(bytes[..])
    {
      assert bytes[i..][1..] == bytes[i + 1..];
      hex := hex + HexByte(bytes[i]);
      i := i + 1;
    }
    assert bytes[i..] == [];
  }

  /** A value modulo 2^32 in four bytes, most significant first. */
  method SetUint32(a: array<Byte>, at: nat, v: nat)
    requires at + 4 <= a.Length
    modifies a
    ensures var w := v % TWO32;
            && a[at] == ByteAt(w / 0x100_0000) && a[at + 1] == ByteAt(w / 0x1_0000)
            && a[at + 2] == ByteAt(w / 0x100) && a[at + 3] == ByteAt(w)
    ensures forall i | 0 <= i < a.Length && !(at <= i < at + 4) :: a[i] == old(a[i])
  {
    var w := v % TWO32;
    a[at], a[at + 1], a[at + 2], a[at + 3] := ByteAt(w / 0x100_0000), ByteAt(w / 0x1_0000), ByteAt(w / 0x100), ByteAt(w);
  }

  method SetUint16(a: array<Byte>, at: nat, v: nat)
    requires at + 2 <= a.Length && v < 0x10000
    modifies a
    ensures a[at] == ByteAt(v / 0x100) && a[at + 1] == ByteAt(v)
    ensures forall i | 0 <= i < a.Length && !(at <= i < at + 2) :: a[i] == old(a[i])
  {
    a[at], a[at + 1] := ByteAt(v / 0x100), ByteAt(v);
  }

  // ---------- The time prefix ----------

  /** `x` in `n` hexadecimal digits, most significant first. */
  function Digits(x: nat, n: nat): (s: string)
    ensures |s| == n
    decreases n
  {
    if n == 0 then "" else Digits(x / 16, n - 1) + [HexDigit(x % 16)]
  }

  function Pow16(n: nat): nat {
    if n == 0 then 1 else 16 * Pow16(n - 1)
  }

  /** The value of a hexadecimal digit; other characters count as 0. */
  function DigitValue(c: char): nat {
    if '0' <= c <= '9' then (c as int) - ('0' as int)
    else if 'a' <= c <= 'f' then (c as int) - ('a' as int) + 10
    else 0
  }

  lemma DigitOfHex(n: nat)
    requires n < 16
    ensures DigitValue(HexDigit(n)) == n
  {
  }

  function Value(s: string): nat {
    if s == "" then 0 else 16 * Value(s[..|s| - 1]) + DigitValue(s[|s| - 1])
  }

  lemma {:induction false} DigitsValue(x: nat, n: nat)
    requires x < Pow16(n)
    ensures Value(Digits(x, n)) == x
    decreases n
  {
    if n != 0 {
      DigitsValue(x / 16, n - 1);
      DigitOfHex(x % 16);
    }
  }

  /** The strings first differ at `k`, where the first has the smaller character. */
  ghost predicate LessAt(a: string, b: string, k: nat) {
    k < |a| && k < |b| && a[..k] == b[..k] && a[k] < b[k]
  }

  lemma {:induction false} DigitsOrder(x: nat, y: nat, n: nat) returns (k: nat)
    requires x < y < Pow16(n)
    ensures LessAt(Digits(x, n), Digits(y, n), k)
    decreases n
  {
    if x / 16 < y / 16 {
      k := DigitsOrder(x / 16, y / 16, n - 1);
    } else {
      k := n - 1;
      assert x / 16 == y / 16 && x % 16 < y % 16;
    }
  }

  lemma ByteDigits(x: nat, n: nat)
    ensures Digits(x, n + 2) == Digits(x / 256, n) + HexByte(ByteAt(x))
  {
    assert (x / 16) / 16 == x / 256 && (x % 256) / 16 == (x / 16) % 16 && (x % 256) % 16 == x % 16;
  }

  lemma {:induction false} HexAppend(a: seq<Byte>, b: seq<Byte>)
    ensures Hex(a + b) == Hex(a) + Hex(b)
    decreases |a|
  {
    if a == [] {
      assert a + b == b;
    } else {
      assert (a + b)[1..] == a[1..] + b;
      HexAppend(a[1..], b);
    }
  }

  /** The bytes of `x`, most significant first. */
  function BigEndian(x: nat, n: nat): (b: seq<Byte>)
    ensures |b| == n
  {
    if n == 0 then [] else BigEndian(x / 256, n - 1) + [ByteAt(x)]
  }

  lemma {:induction false} BigEndianDigits(x: nat, n: nat)
    ensures Hex(BigEndian(x, n)) == Digits(x, 2 * n)
    decreases n
  {
    if n != 0 {
      BigEndianDigits(x / 256, n - 1);
      HexAppend(BigEndian(x / 256, n - 1), [ByteAt(x)]);
      ByteDigits(x, 2 * (n - 1));
    }
  }

  lemma FourBytes(x: nat)
    ensures BigEndian(x, 4) == [ByteAt(x / 0x100_0000), ByteAt(x / 0x1_0000), ByteAt(x / 0x100), ByteAt(x)]
  {
    assert x / 0x1_0000 / 256 == x / 0x100_0000 && x / 0x100 / 256 == x / 0x1_0000;
    assert BigEndian(x / 0x100, 3) == BigEndian(x / 0x1_0000, 2) + [ByteAt(x / 0x100)];
  }

  lemma TimeHalves(now: nat)
    ensures (now % TWO48) / 0x10000 == (now / 0x10000) % TWO32
    ensures (now % TWO48) % 0x10000 == now % 0x10000
  {
  }

  lemma LowBytes(x: nat)
    ensures x / 256 / 256 == x / 0x10000
    ensures ByteAt(x / 256) == ByteAt((x % 0x10000) / 0x100) && ByteAt(x) == ByteAt(x % 0x10000)
  {
  }

  lemma SixBytes(x: nat)
    ensures BigEndian(x, 6) == BigEndian(x / 0x10000, 4) + [ByteAt((x % 0x10000) / 0x100), ByteAt(x % 0x10000)]
  {
    LowBytes(x);
    assert BigEndian(x, 6) == BigEndian(x / 256, 5) + [ByteAt(x)];
    assert BigEndian(x / 256, 5) == BigEndian(x / 256 / 256, 4) + [ByteAt(x / 256)];
  }

  /** Writing a 48-bit number as 32 high and 16 low bits is writing it big-endian in six bytes. */
  lemma TimeBytes(now: nat, random: seq<Byte>)
    requires |random| == 16
    ensures Pack(now, random)[..6] == BigEndian(now % TWO48, 6)
  {
    TimeHalves(now);
    SixBytes(now % TWO48);
    FourBytes((now / 0x10000) % TWO32);
  }

  /** The first twelve digits are the timestamp modulo 2^48. */
  lemma TimePrefix(now: nat, random: seq<Byte>)
    requires |random| == 16
    ensures Hex(Pack(now, random))[..12] == Digits(now % TWO48, 12)
  {
    var p := Pack(now, random);
    TimeBytes(now, random);
    assert p == p[..6] + p[6..];
    HexAppend(p[..6], p[6..]);
    BigEndianDigits(now % TWO48, 6);
  }

  // ---------- What the generator promises ----------

  /** The number written in the time fields of a UUID string. */
  function TimeOf(s: string): nat
    requires |s| == 36
  {
    Value(s[..8] + s[9..13])
  }

  lemma TimeFields(hex: string)
    requires |hex| == 32
    ensures Dashed(hex)[..8] + Dashed(hex)[9..13] == hex[..12]
  {
  }

  /** The time fields give the timestamp back modulo 2^48. */
  lemma TimeFieldsHold(now: nat, random: seq<Byte>)
    requires |random| == 16
    ensures TimeOf(Uuid(now, random)) == now % TWO48
  {
    var hex := Hex(Pack(now, random));
    TimePrefix(now, random);
    TimeFields(hex);
    TimeValue(hex, now % TWO48);
  }

  lemma TimeValue(hex: string, x: nat)
    requires |hex| == 32 && x < TWO48 && hex[..12] == Digits(x, 12)
    ensures Value(hex[..12]) == x
  {
    DigitsValue(x, 12);
  }

  /** The timestamp itself can be read back exactly when it is below 2^48. */
  lemma TimestampRecoverable(now: nat, random: seq<Byte>)
    requires |random| == 16
    ensures TimeOf(Uuid(now, random)) == now <==> now < TWO48
  {
    TimeFieldsHold(now, random);
    BelowModulus(now);
  }

  lemma BelowModulus(x: nat)
    ensures x % TWO48 == x <==> x < TWO48
  {
  }

  lemma DigitsOfTime(now: nat, later: nat) returns (k: nat)
    requires now < later < TWO48
    ensures LessAt(Digits(now, 12), Digits(later, 12), k)
  {
    k := DigitsOrder(now, later, 12);
  }

  lemma PrefixOrder(h1: string, h2: string, now: nat, later: nat) returns (k: nat)
    requires |h1| == 32 && |h2| == 32 && now < later < TWO48
    requires h1[..12] == Digits(now, 12) && h2[..12] == Digits(later, 12)
    ensures LessAt(Dashed(h1), Dashed(h2), k)
  {
    var d := DigitsOfTime(now, later);
    assert h1[..d] == h1[..12][..d] && h2[..d] == h2[..12][..d];
    k := DashedOrder(h1, h2, d);
  }

  /** A smaller timestamp gives a lexicographically smaller string, whatever the random bytes. */
  lemma TimeOrdersStrings(now: nat, later: nat, r1: seq<Byte>, r2: seq<Byte>) returns (k: nat)
    requires |r1| == 16 && |r2| == 16 && now < later < TWO48
    ensures LessAt(Uuid(now, r1), Uuid(later, r2), k)
  {
    TimePrefix(now, r1);
    TimePrefix(later, r2);
    BelowModulus(now);
    BelowModulus(later);
    k := PrefixOrder(Hex(Pack(now, r1)), Hex(Pack(later, r2)), now, later);
  }

  /** Where the digit `i` of the 32 stands among the dashes. */
  function Place(i: nat): nat {
    if i < 8 then i else if i < 12 then i + 1 else if i < 16 then i + 2 else if i < 20 then i + 3 else i + 4
  }

  lemma DashedAt(h: string, i: nat)
    requires |h| == 32 && i < 32
    ensures Dashed(h)[Place(i)] == h[i]
  {
    if 8 <= i < 12 { assert h[8..12][i - 8] == h[i]; }
    else if 12 <= i < 16 { assert h[12..16][i - 12] == h[i]; }
    else if 16 <= i < 20 { assert h[16..20][i - 16] == h[i]; }
    else if 20 <= i { assert h[20..][i - 20] == h[i]; }
  }

  lemma DashesAt(h: string)
    requires |h| == 32
    ensures Dashed(h)[8] == Dashed(h)[13] == Dashed(h)[18] == Dashed(h)[23] == '-'
  {
  }

  /** Before the thirteenth digit, equal digits make equal characters. */
  lemma SameSoFar(h1: string, h2: string, d: nat, i: nat)
    requires |h1| == 32 && |h2| == 32 && d < 12 && i < Place(d)
    requires forall j | 0 <= j < d :: h1[j] == h2[j]
    ensures Dashed(h1)[i] == Dashed(h2)[i]
  {
    if i == 8 {
      DashesAt(h1);
      DashesAt(h2);
    } else {
      var j := if i < 8 then i else i - 1;
      DashedAt(h1, j);
      DashedAt(h2, j);
    }
  }

  /** Dashes stand at fixed places, so they do not disturb the order of the time digits. */
  lemma DashedOrder(h1: string, h2: string, d: nat) returns (k: nat)
    requires |h1| == 32 && |h2| == 32 && d < 12 && LessAt(h1, h2, d)
    ensures LessAt(Dashed(h1), Dashed(h2), k)
  {
    k := Place(d);
    DashedAt(h1, d);
    DashedAt(h2, d);
    forall j | 0 <= j < d ensures h1[j] == h2[j] { assert h1[j] == h1[..d][j] && h2[j] == h2[..d][j]; }
    forall i | 0 <= i < k ensures Dashed(h1)[i] == Dashed(h2)[i] { SameSoFar(h1, h2, d, i); }
  }

  /** Lengths, dashes, version 7 and variant 10 stand where sections 4.1 and 4.2 of RFC 9562 put them. */
  lemma Layout(now: nat, random: seq<Byte>)
    requires |random| == 16
    ensures var s := Uuid(now, random);
            && |s| == 36
            && s[8] == s[13] == s[18] == s[23] == '-'
            && s[14] == '7'
            && s[19] in "89ab"
  {
    var p := Pack(now, random);
    HexAt(p, 6);
    HexAt(p, 8);
    DashesAt(Hex(p));
    DashedAt(Hex(p), 12);
    DashedAt(Hex(p), 16);
  }

  lemma {:induction false} HexAt(b: seq<Byte>, i: nat)
    requires i < |b|
    ensures Hex(b)[2 * i] == HexByte(b[i])[0] && Hex(b)[2 * i + 1] == HexByte(b[i])[1]
    decreases i
  {
    if i != 0 { HexAt(b[1..], i - 1); }
  }

  /**
   Only the six masked bits are lost: two UUIDs are equal exactly when the times and the other
   74 random bits are.
   */
  lemma UuidsDiffer(now: nat, later: nat, r1: seq<Byte>, r2: seq<Byte>)
    requires |r1| == 16 && |r2| == 16 && now < TWO48 && later < TWO48
    ensures Uuid(now, r1) == Uuid(later, r2) <==>
            (now == later && r1[6] % 16 == r2[6] % 16 && r1[7] == r2[7] && r1[8] % 64 == r2[8] % 64 && r1[9..] == r2[9..])
  {
    var p1, p2 := Pack(now, r1), Pack(later, r2);
    if Uuid(now, r1) == Uuid(later, r2) {
      TimestampRecoverable(now, r1);
      TimestampRecoverable(later, r2);
      Undash(Hex(p1), Hex(p2));
      HexInjective(p1, p2);
      assert p1[9..] == r1[9..] && p2[9..] == r2[9..];
    }
  }

  lemma Undash(h1: string, h2: string)
    requires |h1| == 32 && |h2| == 32 && Dashed(h1) == Dashed(h2)
    ensures h1 == h2
  {
    forall i | 0 <= i < 32 ensures h1[i] == h2[i] {
      DashedAt(h1, i);
      DashedAt(h2, i);
    }
  }

  lemma HexInjective(a: seq<Byte>, b: seq<Byte>)
    requires |a| == |b| && Hex(a) == Hex(b)
    ensures a == b
  {
    forall i | 0 <= i < |a| ensures a[i] == b[i] {
      HexAt(a, i);
      HexAt(b, i);
      ByteOfHex(a[i]);
      ByteOfHex(b[i]);
    }
  }

  lemma ByteOfHex(b: Byte)
    ensures b == 16 * DigitValue(HexByte(b)[0]) + DigitValue(HexByte(b)[1])
  {
    DigitOfHex(b / 16);
    DigitOfHex(b % 16);
  }
}
