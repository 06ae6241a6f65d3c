/** The two pieces of JavaScript number semantics the pages rely on: the remainder
    operator `%`, which truncates toward zero, and `parseInt(text) || 0`. */
module JsNumber {
  import opened Wrappers

  /** JavaScript's `a % n` for a positive divisor: the sign of the result follows the
      dividend, so a negative `a` gives a remainder in (-n, 0]. */
  function Remainder(a: int, n: int): (r: int)
    requires n > 0
    ensures 0 <= a ==> r == a % n
    ensures a < 0 ==> -n < r <= 0 && (a - r) % n == 0
  {
    if a < 0 then
      var q, m := (-a) / n, (-a) % n;
      assert a + m == -(n * q);
      MultipleMod(q, n);
      -m
    else a % n
  }

  /** A multiple of `n` leaves no remainder. */
  lemma MultipleMod(q: int, n: int)
    requires n > 0
    ensures (-(n * q)) % n == 0
  {
    var x := -(n * q);
    var d, m := x / n, x % n;
    var e := d + q;
    assert n * e == -m by {
      assert x == n * d + m;
      assert n * e == n * d + n * q;
    }
    MultipleBounds(n, e);
  }

  /** A non-zero multiple of `n` is at least `n` away from zero. */
  lemma MultipleBounds(n: int, e: int)
    requires n > 0
    ensures e >= 1 ==> n * e >= n
    ensures e <= -1 ==> n * e <= -n
  {
    if e >= 1 {
      assert n * e == n * (e - 1) + n;
      assert n * (e - 1) >= 0;
    } else if e <= -1 {
      assert n * e == n * (e + 1) - n;
      assert n * (e + 1) <= 0;
    }
  }

  /** The characters JavaScript's `parseInt` skips before the number: white space
      and line terminators. */
  predicate IsSpace(c: char) {
    c == ' ' || c == '\t' || c == '\n' || c == '\r' || c == '\U{000B}' || c == '\U{000C}'
    || c == '\U{00A0}' || c == '\U{FEFF}' || c == '\U{1680}' || ('\U{2000}' <= c <= '\U{200A}')
    || c == '\U{2028}' || c == '\U{2029}' || c == '\U{202F}' || c == '\U{205F}' || c == '\U{3000}'
  }

  function TrimStart(s: string): (r: string)
    ensures |r| <= |s| && r == s[|s| - |r|..]
    ensures |r| > 0 ==> !IsSpace(r[0])
  {
    if |s| > 0 && IsSpace(s[0]) then TrimStart(s[1..]) else s
  }

  /** The value of `c` as a digit in base `radix` (10 or 16), if it is one. */
  function DigitValue(c: char, radix: nat): Option<nat> {
    if '0' <= c <= '9' && (c as int - '0' as int) < radix then Some(c as int - '0' as int)
    else if radix == 16 && 'a' <= c <= 'f' then Some(c as int - 'a' as int + 10)
    else if radix == 16 && 'A' <= c <= 'F' then Some(c as int - 'A' as int + 10)
    else None
  }

  /** The longest prefix of `s` made of digits of base `radix`. */
  function DigitPrefix(s: string, radix: nat): (r: string)
    ensures |r| <= |s| && r == s[..|r|]
    ensures forall i :: 0 <= i < |r| ==> DigitValue(r[i], radix).Some?
  {
    if |s| > 0 && DigitValue(s[0], radix).Some? then [s[0]] + DigitPrefix(s[1..], radix) else []
  }

  /** The value of a string of digits, most significant first. */
  function DigitsValue(ds: string, radix: nat): nat
    requires forall i :: 0 <= i < |ds| ==> DigitValue(ds[i], radix).Some?
  {
    if ds == [] then 0
    else DigitsValue(ds[..|ds| - 1], radix) * radix + DigitValue(ds[|ds| - 1], radix).value
  }

  /** JavaScript's `parseInt(s)` with no radix argument; `None` is `NaN`. Leading white
      space is skipped, one sign is read, a "0x"/"0X" prefix selects base 16, and the
      longest run of digits that follows is the number. */
  function ParseInt(s: string): Option<int> {
    ParseSigned(TrimStart(s))
  }

  function ParseSigned(t: string): Option<int> {
    if |t| > 0 && t[0] == '-' then
      match ParseUnsigned(t[1..])
      case None => None
      case Some(n) => Some(-n)
    else if |t| > 0 && t[0] == '+' then ParseUnsigned(t[1..])
    else ParseUnsigned(t)
  }

  function ParseUnsigned(u: string): Option<int> {
    var hex := |u| >= 2 && u[0] == '0' && (u[1] == 'x' || u[1] == 'X');
    var radix := if hex then 16 else 10;
    var ds := DigitPrefix(if hex then u[2..] else u, radix);
    if ds == [] then None else Some(DigitsValue(ds, radix))
  }

  /** `parseInt(s) || 0`: `NaN` (and zero) fall back to 0. */
  function ParseIntOrZero(s: string): int {
    ParseInt(s).GetOr(0)
  }

  /** The decimal text of `n`, as `String(n)` renders an integer. */
  function DecimalDigits(n: nat): (r: string)
    ensures |r| > 0
    ensures forall i :: 0 <= i < |r| ==> '0' <= r[i] <= '9'
  {
    if n < 10 then [('0' as int + n) as char]
    else DecimalDigits(n / 10) + [('0' as int + n % 10) as char]
  }

  function Decimal(n: int): string {
    if n < 0 then "-" + DecimalDigits(-n) else DecimalDigits(n)
  }

  /** The digits `String(n)` writes are read back as `n`. */
  lemma {:induction false} DecimalDigitsValue(n: nat)
    ensures DigitsValue(DecimalDigits(n), 10) == n
  {
    var ds := DecimalDigits(n);
    DigitOf(n % 10);
    if n >= 10 {
      var init := DecimalDigits(n / 10);
      DecimalDigitsValue(n / 10);
      assert ds[..|ds| - 1] == init;
      assert DigitsValue(ds, 10) == (n / 10) * 10 + n % 10;
    } else {
      assert ds[..|ds| - 1] == [];
    }
  }

  lemma DigitOf(d: nat)
    requires d < 10
    ensures DigitValue(('0' as int + d) as char, 10) == Some(d)
  {
  }

  lemma {:induction false} AllDigitsPrefix(ds: string)
    requires forall i :: 0 <= i < |ds| ==> '0' <= ds[i] <= '9'
    ensures DigitPrefix(ds, 10) == ds
  {
    if |ds| > 0 {
      AllDigitsPrefix(ds[1..]);
    }
  }

  lemma DecimalUnsigned(m: nat)
    ensures ParseUnsigned(DecimalDigits(m)) == Some(m)
  {
    var ds := DecimalDigits(m);
    DecimalDigitsValue(m);
    AllDigitsPrefix(ds);
    assert !(|ds| >= 2 && ds[0] == '0' && (ds[1] == 'x' || ds[1] == 'X'));
  }

  /** Reading back the text a number field shows gives the number: `parseInt(String(n)) || 0 == n`. */
  lemma ParseDecimal(n: int)
    ensures ParseIntOrZero(Decimal(n)) == n
  {
    var m := if n < 0 then -n else n;
    DecimalUnsigned(m);
    var ds := DecimalDigits(m);
    if n < 0 {
      var t := "-" + ds;
      NotSpace(t[0]);
      assert t[1..] == ds;
      assert ParseSigned(t) == Some(n);
    } else {
      NotSpace(ds[0]);
      assert ParseSigned(ds) == Some(n);
    }
  }

  lemma NotSpace(c: char)
    requires c == '-' || '0' <= c <= '9'
    ensures !IsSpace(c)
  {
  }
}
