/**
 * java.util.UUID as the control plane uses it: function and instance
 * identifiers are UUIDs, rendered with toString() into Redis keys, queue
 * payloads, file-system paths and container names, read back with
 * UUID.fromString, and hashed with hashCode() to pick a request queue.
 */
module Uuids {
  import opened Common

  const TWO_16: nat := 0x1_0000
  const TWO_32: nat := 0x1_0000_0000
  const TWO_48: nat := 0x1_0000_0000_0000

  type U64 = x: int | 0 <= x < 0x1_0000_0000_0000_0000

  /** The most and least significant 64 bits of a UUID, read as unsigned numbers. */
  datatype Uuid = Uuid(msb: U64, lsb: U64)

  function Pow16(n: nat): (p: nat)
    ensures p > 0
  {
    if n == 0 then 1 else 16 * Pow16(n - 1)
  }

  lemma Pow16Values()
    ensures Pow16(4) == TWO_16 && Pow16(8) == TWO_32 && Pow16(12) == TWO_48
  {
    assert Pow16(2) == 256;
    assert Pow16(4) == 65536;
    assert Pow16(6) == 0x100_0000;
    assert Pow16(8) == 0x1_0000_0000;
    assert Pow16(10) == 0x100_0000_0000;
  }

  /** The `n` lower-case hexadecimal digits of `x` modulo 16^n, most significant first. */
  function HexOf(x: nat, n: nat): (s: string)
    ensures |s| == n
    ensures forall i :: 0 <= i < n ==> IsLowerHex(s[i])
  {
    if n == 0 then "" else HexOf(x / 16, n - 1) + [HexDigit(x % 16)]
  }

  predicate AllHex(s: string) {
    forall i :: 0 <= i < |s| ==> IsHex(s[i])
  }

  /** The value of a string of hexadecimal digits (Long.parseLong(s, 16) without a sign). */
  function ParseHex(s: string): (v: nat)
    requires AllHex(s)
    ensures v < Pow16(|s|)
  {
    if |s| == 0 then 0 else 16 * ParseHex(s[..|s| - 1]) + HexValue(s[|s| - 1])
  }

  lemma MulAtLeast(a: nat, k: int)
    requires k >= 1
    ensures a * k >= a
  {
  }

  /** Quotient and remainder are unique. */
  lemma ModUnique(x: nat, m: nat, q: nat, r: nat)
    requires m > 0 && x == m * q + r && r < m
    ensures x % m == r && x / m == q
  {
    var q0, r0 := x / m, x % m;
    assert x == m * q0 + r0 && 0 <= r0 < m;
    if q0 < q {
      assert m * q == m * q0 + m * (q - q0);
      MulAtLeast(m, q - q0);
      assert false;
    } else if q0 > q {
      assert m * q0 == m * q + m * (q0 - q);
      MulAtLeast(m, q0 - q);
      assert false;
    }
  }

  lemma MulBelow(a: nat, k: nat, b: nat)
    requires k < b
    ensures a * k <= a * b - a
  {
    assert a * b == a * k + a * (b - k);
    MulAtLeast(a, b - k);
  }

  lemma Combine(x: int, a: int, b: int, y: int, q: int, ry: int, rx: int)
    requires x == a * y + rx && y == b * q + ry
    ensures x == (a * b) * q + (a * ry + rx)
  {
    assert a * y == a * (b * q) + a * ry;
  }

  /** Splitting a remainder modulo a*b into a digit modulo a and a remainder of x/a modulo b. */
  lemma ModSplit(x: nat, a: nat, b: nat)
    requires a > 0 && b > 0
    ensures x % (a * b) == a * ((x / a) % b) + x % a
  {
    var y, rx := x / a, x % a;
    var q, ry := y / b, y % b;
    Combine(x, a, b, y, q, ry, rx);
    MulBelow(a, ry, b);
    ModUnique(x, a * b, q, a * ry + rx);
  }

  /** Reading back `n` hexadecimal digits of `x` gives `x` modulo 16^n. */
  lemma {:induction false} ParseHexOf(x: nat, n: nat)
    ensures AllHex(HexOf(x, n)) && ParseHex(HexOf(x, n)) == x % Pow16(n)
  {
    if n > 0 {
      ParseHexOf(x / 16, n - 1);
      var s := HexOf(x, n);
      assert s[..|s| - 1] == HexOf(x / 16, n - 1);
      HexValueOfDigit(x % 16);
      ModSplit(x, 16, Pow16(n - 1));
    }
  }

  predicate IsDashPosition(i: int) {
    i == 8 || i == 13 || i == 18 || i == 23
  }

  /** The canonical 8-4-4-4-12 layout: dashes at 8, 13, 18 and 23 and hexadecimal digits elsewhere. */
  predicate CanonicalLayout(s: string) {
    |s| == 36 && forall i :: 0 <= i < 36 ==> if IsDashPosition(i) then s[i] == '-' else IsHex(s[i])
  }

  /** UUID.toString: five groups of lower-case hexadecimal digits separated by dashes. */
  function ToString(u: Uuid): (s: string)
    ensures CanonicalLayout(s)
    ensures forall i :: 0 <= i < |s| ==> IsLowerHex(s[i]) || s[i] == '-'
  {
    HexOf(u.msb / TWO_32, 8) + "-" + HexOf(u.msb / TWO_16, 4) + "-" + HexOf(u.msb, 4) + "-"
    + HexOf(u.lsb / TWO_48, 4) + "-" + HexOf(u.lsb, 12)
  }

  lemma JoinBounds(hi: nat, mid: nat, lo: nat)
    requires hi < TWO_32 && mid < TWO_16 && lo < TWO_16
    ensures hi * TWO_32 + mid * TWO_16 + lo < 0x1_0000_0000_0000_0000
  {
    assert mid * TWO_16 <= (TWO_16 - 1) * TWO_16;
    assert hi * TWO_32 <= (TWO_32 - 1) * TWO_32;
  }

  lemma JoinBoundsLow(hi: nat, lo: nat)
    requires hi < TWO_16 && lo < TWO_48
    ensures hi * TWO_48 + lo < 0x1_0000_0000_0000_0000
  {
    assert hi * TWO_48 <= (TWO_16 - 1) * TWO_48;
  }

  /** UUID.fromString on the canonical layout; hexadecimal digits of either case are accepted. */
  function Parse(s: string): (r: Option<Uuid>)
    ensures r.Some? <==> CanonicalLayout(s)
  {
    if !CanonicalLayout(s) then None
    else
      assert AllHex(s[0..8]) && AllHex(s[9..13]) && AllHex(s[14..18]) && AllHex(s[19..23]) && AllHex(s[24..36]);
      Pow16Values();
      var hi, mid, lo := ParseHex(s[0..8]), ParseHex(s[9..13]), ParseHex(s[14..18]);
      var top, bottom := ParseHex(s[19..23]), ParseHex(s[24..36]);
      JoinBounds(hi, mid, lo);
      JoinBoundsLow(top, bottom);
      Some(Uuid(hi * TWO_32 + mid * TWO_16 + lo, top * TWO_48 + bottom))
  }

  lemma MsbRoundTrip(m: U64)
    ensures (m / TWO_32) % TWO_32 * TWO_32 + (m / TWO_16) % TWO_16 * TWO_16 + m % TWO_16 == m
  {
    ModSplit(m, TWO_16, TWO_16);
    assert m / TWO_32 < TWO_32;
    assert (m / TWO_32) % TWO_32 == m / TWO_32;
  }

  lemma LsbRoundTrip(l: U64)
    ensures (l / TWO_48) % TWO_16 * TWO_48 + l % TWO_48 == l
  {
    assert l / TWO_48 < TWO_16;
    assert (l / TWO_48) % TWO_16 == l / TWO_48;
  }

  lemma MsbFromDigits(m: U64)
    ensures ParseHex(HexOf(m / TWO_32, 8)) * TWO_32 + ParseHex(HexOf(m / TWO_16, 4)) * TWO_16
            + ParseHex(HexOf(m, 4)) == m
  {
    Pow16Values();
    ParseHexOf(m / TWO_32, 8);
    ParseHexOf(m / TWO_16, 4);
    ParseHexOf(m, 4);
    MsbRoundTrip(m);
  }

  lemma LsbFromDigits(l: U64)
    ensures ParseHex(HexOf(l / TWO_48, 4)) * TWO_48 + ParseHex(HexOf(l, 12)) == l
  {
    Pow16Values();
    ParseHexOf(l / TWO_48, 4);
    ParseHexOf(l, 12);
    LsbRoundTrip(l);
  }

  lemma ToStringGroups(u: Uuid)
    ensures ToString(u)[0..8] == HexOf(u.msb / TWO_32, 8)
    ensures ToString(u)[9..13] == HexOf(u.msb / TWO_16, 4)
    ensures ToString(u)[14..18] == HexOf(u.msb, 4)
    ensures ToString(u)[19..23] == HexOf(u.lsb / TWO_48, 4)
    ensures ToString(u)[24..36] == HexOf(u.lsb, 12)
  {
  }

  lemma ParseGroups(s: string)
    requires CanonicalLayout(s)
    ensures AllHex(s[0..8]) && AllHex(s[9..13]) && AllHex(s[14..18]) && AllHex(s[19..23]) && AllHex(s[24..36])
    ensures Parse(s).Some?
    ensures Parse(s).value.msb == ParseHex(s[0..8]) * TWO_32 + ParseHex(s[9..13]) * TWO_16 + ParseHex(s[14..18])
    ensures Parse(s).value.lsb == ParseHex(s[19..23]) * TWO_48 + ParseHex(s[24..36])
  {
  }

  /** UUID.fromString reads back what UUID.toString wrote. */
  lemma ParseToString(u: Uuid)
    ensures Parse(ToString(u)) == Some(u)
  {
    ToStringGroups(u);
    ParseGroups(ToString(u));
    MsbFromDigits(u.msb);
    LsbFromDigits(u.lsb);
  }

  /** Distinct UUIDs have distinct string forms. */
  lemma ToStringInjective(u: Uuid, v: Uuid)
    requires ToString(u) == ToString(v)
    ensures u == v
  {
    ParseToString(u);
    ParseToString(v);
  }

  /** The string form never contains the given character unless it is a hexadecimal digit or '-'. */
  lemma ToStringAvoids(u: Uuid, c: char)
    requires !IsLowerHex(c) && c != '-'
    ensures forall i :: 0 <= i < |ToString(u)| ==> ToString(u)[i] != c
  {
  }

  /**
   * UUID.hashCode: the exclusive-or of the two halves of msb ^ lsb, read as a
   * signed 32-bit int.
   */
  function HashCode(u: Uuid): (h: Int32)
  {
    var hilo := (u.msb as bv64) ^ (u.lsb as bv64);
    var folded := ((hilo >> 32) ^ hilo) & 0xFFFF_FFFF;
    Wrap32(folded as int)
  }
}
