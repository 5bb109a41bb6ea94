/**
 * Shared vocabulary: optional values and results, Java's 32-bit integers and
 * their arithmetic, and the handful of java.lang.String operations the
 * control plane relies on (startsWith, contains, split, replace, isBlank,
 * Integer.toString), each stated over Dafny strings.
 */
module Common {

  datatype Option<T> = None | Some(value: T)

  datatype Result<T, E> = Ok(value: T) | Err(error: E)

  // ---------------------------------------------------------------------
  // Java int arithmetic
  // ---------------------------------------------------------------------

  const INT_MIN: int := -0x8000_0000
  const INT_MAX: int := 0x7fff_ffff

  type Int32 = x: int | -0x8000_0000 <= x <= 0x7fff_ffff

  /** Two's-complement wrap-around of a mathematical integer into an int. */
  function Wrap32(x: int): (r: Int32)
    ensures (r - x) % 0x1_0000_0000 == 0
    ensures INT_MIN <= x <= INT_MAX ==> r == x
  {
    var m := x % 0x1_0000_0000;
    if m <= INT_MAX then m else m - 0x1_0000_0000
  }

  /** Math.abs on an int: the absolute value, except that Integer.MIN_VALUE stays negative. */
  function JavaAbs(x: Int32): (r: Int32)
    ensures x == INT_MIN ==> r == INT_MIN
    ensures x != INT_MIN ==> r >= 0 && (r == x || r == -x)
  {
    if x == INT_MIN then x else if x < 0 then -x else x
  }

  /** Java's `%`: the remainder takes the sign of the dividend. */
  function JavaRem(a: int, b: int): (r: int)
    requires b > 0
    ensures (a - r) % b == 0
    ensures -b < r < b
    ensures a >= 0 ==> r >= 0
    ensures a <= 0 ==> r <= 0
  {
    if a >= 0 then
      assert a - a % b == b * (a / b);
      MultipleMod(b, a / b);
      a % b
    else
      assert a + (-a) % b == b * -((-a) / b);
      MultipleMod(b, -((-a) / b));
      -((-a) % b)
  }

  lemma MultipleMod(b: int, k: int)
    requires b > 0
    ensures (b * k) % b == 0
  {
    var m := k - (b * k) / b;
    assert b * m == (b * k) % b;
  }

  /** Java's `/` on integers: the quotient is truncated toward zero. */
  function JavaDiv(a: int, b: int): (q: int)
    requires b > 0
    ensures a == b * q + JavaRem(a, b)
    ensures a >= 0 ==> q >= 0
    ensures a <= 0 ==> q <= 0
  {
    if a >= 0 then a / b else -((-a) / b)
  }

  // ---------------------------------------------------------------------
  // Strings
  // ---------------------------------------------------------------------

  /** String.startsWith. */
  predicate StartsWith(s: string, prefix: string) {
    prefix <= s
  }

  predicate OccursAt(s: string, sub: string, i: nat) {
    i + |sub| <= |s| && s[i..i + |sub|] == sub
  }

  /** String.contains. */
  predicate Contains(s: string, sub: string) {
    exists i :: 0 <= i <= |s| && OccursAt(s, sub, i)
  }

  /** A string containing `sub` still contains it after text is added on either side. */
  lemma ContainsExtended(s: string, sub: string, before: string, after: string)
    requires Contains(s, sub)
    ensures Contains(before + s + after, sub)
  {
    var i :| 0 <= i <= |s| && OccursAt(s, sub, i);
    var t := before + s + after;
    assert t[|before| + i..|before| + i + |sub|] == s[i..i + |sub|];
    assert OccursAt(t, sub, |before| + i);
  }

  /** Character.isWhitespace. */
  predicate IsJavaWhitespace(c: char) {
    c == ' ' || ('\t' <= c <= '\r') || ('\U{1C}' <= c <= '\U{1F}')
    || c == '\U{1680}' || ('\U{2000}' <= c <= '\U{200A}' && c != '\U{2007}')
    || c == '\U{2028}' || c == '\U{2029}' || c == '\U{205F}' || c == '\U{3000}'
  }

  /** String.isBlank: empty, or white space only. */
  predicate IsBlank(s: string) {
    forall i :: 0 <= i < |s| ==> IsJavaWhitespace(s[i])
  }

  // ----- String.replace(target, "") -------------------------------------

  /**
   * String.replace(target, ""): every occurrence of `target`, found left to
   * right without overlapping, is removed.
   */
  function RemoveAll(s: string, target: string): (r: string)
    requires |target| > 0
    ensures |r| <= |s|
    decreases |s|
  {
    if |s| < |target| then s
    else if s[..|target|] == target then RemoveAll(s[|target|..], target)
    else [s[0]] + RemoveAll(s[1..], target)
  }

  /** Removing a single character keeps exactly the characters different from it. */
  lemma {:induction false} RemoveAllChar(s: string, c: char)
    ensures forall i :: 0 <= i < |RemoveAll(s, [c])| ==> RemoveAll(s, [c])[i] != c
    ensures |s| == |RemoveAll(s, [c])| + multiset(s)[c]
    decreases |s|
  {
    if |s| == 0 {
    } else {
      RemoveAllChar(s[1..], c);
      assert s == [s[0]] + s[1..];
      if s[..1] == [c] {
        assert s[0] == c;
      } else {
        assert s[0] != c;
      }
    }
  }

  /** Removing a character that does not occur leaves the string unchanged. */
  lemma {:induction false} RemoveAllAbsent(s: string, c: char)
    requires forall i :: 0 <= i < |s| ==> s[i] != c
    ensures RemoveAll(s, [c]) == s
    decreases |s|
  {
    if |s| > 0 {
      RemoveAllAbsent(s[1..], c);
      assert s[..1] != [c] by { assert s[..1][0] == s[0]; }
      assert s == [s[0]] + s[1..];
    }
  }

  /** Removal distributes over concatenation when the target is one character. */
  lemma {:induction false} RemoveAllCharAppend(a: string, b: string, c: char)
    ensures RemoveAll(a + b, [c]) == RemoveAll(a, [c]) + RemoveAll(b, [c])
    decreases |a|
  {
    if |a| > 0 {
      RemoveAllCharAppend(a[1..], b, c);
      assert (a + b)[1..] == a[1..] + b;
      assert (a + b)[..1] == a[..1];
    } else {
      assert a + b == b;
    }
  }

  // ----- String.split(String) --------------------------------------------

  /** Free of the ':' that separates the fields of composite keys. */
  predicate ColonFree(s: string) {
    forall i :: 0 <= i < |s| ==> s[i] != ':'
  }

  /** Splits on every occurrence of `sep`, keeping empty fields. */
  function SplitFields(s: string, sep: char): (r: seq<string>)
    ensures |r| >= 1
    ensures forall k :: 0 <= k < |r| ==> forall j :: 0 <= j < |r[k]| ==> r[k][j] != sep
  {
    if |s| == 0 then [""]
    else
      var rest := SplitFields(s[1..], sep);
      if s[0] == sep then [""] + rest
      else [[s[0]] + rest[0]] + rest[1..]
  }

  function DropTrailingEmpty(fields: seq<string>): (r: seq<string>)
    ensures |r| <= |fields| && r == fields[..|r|]
    ensures |r| > 0 ==> r[|r| - 1] != ""
    ensures forall k :: |r| <= k < |fields| ==> fields[k] == ""
  {
    if |fields| == 0 then []
    else if fields[|fields| - 1] == "" then DropTrailingEmpty(fields[..|fields| - 1])
    else fields
  }

  /**
   * String.split with a one-character separator: trailing empty strings are
   * dropped, and a string without the separator (even the empty string)
   * yields itself as the only element.
   */
  function JavaSplit(s: string, sep: char): (r: seq<string>)
    ensures forall k :: 0 <= k < |r| ==> forall j :: 0 <= j < |r[k]| ==> r[k][j] != sep
    ensures |r| > 0 && r[|r| - 1] == "" ==> s == "" && r == [""]
  {
    if forall i :: 0 <= i < |s| ==> s[i] != sep then [s]
    else DropTrailingEmpty(SplitFields(s, sep))
  }

  /** The fields joined back with the separator between them. */
  function JoinFields(fields: seq<string>, sep: char): string {
    if |fields| == 0 then ""
    else if |fields| == 1 then fields[0]
    else fields[0] + [sep] + JoinFields(fields[1..], sep)
  }

  function Seps(sep: char, n: nat): (r: string)
    ensures |r| == n && forall i :: 0 <= i < n ==> r[i] == sep
  {
    seq(n, _ => sep)
  }

  /** Joining the fields SplitFields produces gives back the input. */
  lemma {:induction false} SplitFieldsJoin(s: string, sep: char)
    ensures JoinFields(SplitFields(s, sep), sep) == s
    decreases |s|
  {
    if |s| > 0 {
      var rest := SplitFields(s[1..], sep);
      SplitFieldsJoin(s[1..], sep);
      if s[0] == sep {
        assert JoinFields([""] + rest, sep) == "" + [sep] + JoinFields(rest, sep);
      } else if |rest| == 1 {
        assert JoinFields([[s[0]] + rest[0]] + rest[1..], sep) == [s[0]] + rest[0];
      } else {
        assert ([[s[0]] + rest[0]] + rest[1..])[1..] == rest[1..];
        assert JoinFields(rest, sep) == rest[0] + [sep] + JoinFields(rest[1..], sep);
      }
      assert [s[0]] + s[1..] == s;
    }
  }

  /** Trailing empty fields contribute only their separators to the join. */
  lemma {:induction false} JoinTrailingEmpty(fields: seq<string>, k: nat, sep: char)
    requires k <= |fields|
    requires forall j :: k <= j < |fields| ==> fields[j] == ""
    ensures k > 0 ==> JoinFields(fields, sep) == JoinFields(fields[..k], sep) + Seps(sep, |fields| - k)
    ensures k == 0 && |fields| > 0 ==> JoinFields(fields, sep) == Seps(sep, |fields| - 1)
    decreases |fields|
  {
    if |fields| >= 2 {
      var tail := fields[1..];
      if k == 0 {
        JoinTrailingEmpty(tail, 0, sep);
        assert fields[0] == "";
        assert JoinFields(fields, sep) == [sep] + Seps(sep, |tail| - 1);
      } else if k == 1 {
        JoinTrailingEmpty(tail, 0, sep);
        assert JoinFields(fields[..k], sep) == fields[0];
        assert [sep] + Seps(sep, |tail| - 1) == Seps(sep, |fields| - 1);
      } else if k < |fields| {
        JoinTrailingEmpty(tail, k - 1, sep);
        assert fields[..k][1..] == tail[..k - 1];
        assert JoinFields(fields[..k], sep) == fields[0] + [sep] + JoinFields(tail[..k - 1], sep);
      } else {
        assert fields[..k] == fields;
      }
    } else if |fields| == 1 && k == 1 {
      assert fields[..k] == fields;
    }
  }

  /**
   * String.split drops only separators: the input is the joined fields
   * followed by the separators of the dropped trailing empty fields.
   */
  lemma JavaSplitJoin(s: string, sep: char)
    ensures |JoinFields(JavaSplit(s, sep), sep)| <= |s|
    ensures s == JoinFields(JavaSplit(s, sep), sep) + Seps(sep, |s| - |JoinFields(JavaSplit(s, sep), sep)|)
  {
    if exists i :: 0 <= i < |s| && s[i] == sep {
      assert JavaSplit(s, sep) == DropTrailingEmpty(SplitFields(s, sep));
      TrimmedJoin(s, sep);
    } else {
      assert JavaSplit(s, sep) == [s];
      assert JoinFields([s], sep) == s;
    }
  }

  /** Dropping the trailing empty fields of a split drops only separators from the join. */
  lemma TrimmedJoin(s: string, sep: char)
    ensures var j := JoinFields(DropTrailingEmpty(SplitFields(s, sep)), sep);
            |j| <= |s| && s == j + Seps(sep, |s| - |j|)
  {
    var fields := SplitFields(s, sep);
    var r := DropTrailingEmpty(fields);
    var j := JoinFields(r, sep);
    SplitFieldsJoin(s, sep);
    JoinTrailingEmpty(fields, |r|, sep);
    if |r| == 0 {
      assert j == "";
      assert s == Seps(sep, |fields| - 1);
      assert j + Seps(sep, |s|) == Seps(sep, |s|);
    } else {
      assert fields[..|r|] == r;
      var k := |fields| - |r|;
      assert s == j + Seps(sep, k);
      assert k == |s| - |j|;
    }
  }

  /** A field free of the separator, followed by the separator, is split off as the first field. */
  lemma {:induction false} SplitFieldsHead(a: string, sep: char, rest: string)
    requires forall i :: 0 <= i < |a| ==> a[i] != sep
    ensures SplitFields(a + [sep] + rest, sep) == [a] + SplitFields(rest, sep)
    decreases |a|
  {
    if |a| == 0 {
      assert ([] + [sep] + rest)[1..] == rest;
    } else {
      SplitFieldsHead(a[1..], sep, rest);
      assert (a + [sep] + rest)[1..] == a[1..] + [sep] + rest;
      assert [a[0]] + a[1..] == a;
    }
  }

  /** A string free of the separator is a single field. */
  lemma {:induction false} SplitFieldsNone(a: string, sep: char)
    requires forall i :: 0 <= i < |a| ==> a[i] != sep
    ensures SplitFields(a, sep) == [a]
    decreases |a|
  {
    if |a| > 0 {
      SplitFieldsNone(a[1..], sep);
      assert [a[0]] + a[1..] == a;
    }
  }

  // ---------------------------------------------------------------------
  // Integer.toString
  // ---------------------------------------------------------------------

  predicate IsDigit(c: char) {
    '0' <= c <= '9'
  }

  predicate AllDigits(s: string) {
    forall i :: 0 <= i < |s| ==> IsDigit(s[i])
  }

  function DigitChar(d: nat): (c: char)
    requires d < 10
    ensures IsDigit(c) && c as int - '0' as int == d
  {
    ('0' as int + d) as char
  }

  /** Decimal digits of a natural number, most significant first, without leading zeros. */
  function NatToString(n: nat): (s: string)
    ensures |s| >= 1 && AllDigits(s)
    ensures n >= 10 ==> s[0] != '0'
  {
    if n < 10 then [DigitChar(n)] else NatToString(n / 10) + [DigitChar(n % 10)]
  }

  /** The value of a string of decimal digits. */
  function DigitsValue(s: string): nat
    requires AllDigits(s)
  {
    if |s| == 0 then 0 else 10 * DigitsValue(s[..|s| - 1]) + (s[|s| - 1] as int - '0' as int)
  }

  /** Reading back the decimal digits of a number gives the number. */
  lemma {:induction false} DigitsValueOfNatToString(n: nat)
    ensures DigitsValue(NatToString(n)) == n
  {
    if n >= 10 {
      DigitsValueOfNatToString(n / 10);
      var s := NatToString(n);
      assert s[..|s| - 1] == NatToString(n / 10);
    }
  }

  lemma NatToStringInjective(a: nat, b: nat)
    requires NatToString(a) == NatToString(b)
    ensures a == b
  {
    DigitsValueOfNatToString(a);
    DigitsValueOfNatToString(b);
  }

  /** Integer.toString: a leading '-' for negative values. */
  function IntToString(i: int): (s: string)
    ensures |s| >= 1
    ensures i >= 0 <==> AllDigits(s)
    ensures i < 0 <==> s[0] == '-'
  {
    if i >= 0 then NatToString(i)
    else
      var s := "-" + NatToString(-i);
      assert !IsDigit(s[0]);
      s
  }

  lemma IntToStringInjective(a: int, b: int)
    requires IntToString(a) == IntToString(b)
    ensures a == b
  {
    if a >= 0 && b >= 0 {
      NatToStringInjective(a, b);
    } else if a < 0 && b < 0 {
      assert IntToString(a)[1..] == NatToString(-a);
      assert IntToString(b)[1..] == NatToString(-b);
      NatToStringInjective(-a, -b);
    } else {
      assert false;
    }
  }

  /** Long.parseLong: an optional sign, at least one decimal digit, within the long range. */
  function ParseLong(s: string): (r: Option<int>)
    ensures r.Some? ==> -0x8000_0000_0000_0000 <= r.value <= 0x7fff_ffff_ffff_ffff
  {
    if |s| == 0 then None
    else
      var negative := s[0] == '-';
      var digits := if s[0] == '-' || s[0] == '+' then s[1..] else s;
      if |digits| == 0 || !AllDigits(digits) then None
      else
        var v: int := if negative then 0 - DigitsValue(digits) as int else DigitsValue(digits);
        if -0x8000_0000_0000_0000 <= v <= 0x7fff_ffff_ffff_ffff then Some(v) else None
  }

  /** Long.toString and Long.parseLong are inverse on the long range. */
  lemma ParseLongOfIntToString(i: int)
    requires -0x8000_0000_0000_0000 <= i <= 0x7fff_ffff_ffff_ffff
    ensures ParseLong(IntToString(i)) == Some(i)
  {
    if i >= 0 {
      DigitsValueOfNatToString(i);
      assert NatToString(i)[0] != '-';
    } else {
      DigitsValueOfNatToString(-i);
      assert IntToString(i)[1..] == NatToString(-i);
    }
  }

  // ---------------------------------------------------------------------
  // Hexadecimal digits
  // ---------------------------------------------------------------------

  predicate IsLowerHex(c: char) {
    '0' <= c <= '9' || 'a' <= c <= 'f'
  }

  predicate IsHex(c: char) {
    '0' <= c <= '9' || 'a' <= c <= 'f' || 'A' <= c <= 'F'
  }

  /** The lower-case hexadecimal digit of a value below 16. */
  function HexDigit(v: nat): (c: char)
    requires v < 16
    ensures IsLowerHex(c)
  {
    if v < 10 then ('0' as int + v) as char else ('a' as int + v - 10) as char
  }

  /** The value of a hexadecimal digit of either case. */
  function HexValue(c: char): (v: nat)
    requires IsHex(c)
    ensures v < 16
  {
    if '0' <= c <= '9' then c as int - '0' as int
    else if 'a' <= c <= 'f' then c as int - 'a' as int + 10
    else c as int - 'A' as int + 10
  }

  lemma HexValueOfDigit(v: nat)
    requires v < 16
    ensures HexValue(HexDigit(v)) == v
  {
  }

  // ---------------------------------------------------------------------
  // Runtimes
  // ---------------------------------------------------------------------

  /** The function runtimes, shared by the registry and the provisioner. */
  datatype Runtime = Java17 | Java21 | Python310 | Python311 | Node18 | Node20

  /** Enum.name(). */
  function RuntimeName(r: Runtime): string {
    match r
    case Java17 => "JAVA_17"
    case Java21 => "JAVA_21"
    case Python310 => "PYTHON_3_10"
    case Python311 => "PYTHON_3_11"
    case Node18 => "NODE_18"
    case Node20 => "NODE_20"
  }
}
