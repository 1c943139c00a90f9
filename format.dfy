/**
 * Python's integer formatting as used in f-strings: `f"{n}"` (decimal) and
 * `f"{n:,}"` (decimal with a comma between groups of three digits).
 */
module Format {

  predicate IsDigit(c: char) {
    '0' <= c <= '9'
  }

  predicate AllDigits(s: string) {
    forall k :: 0 <= k < |s| ==> IsDigit(s[k])
  }

  function Digit(d: nat): (c: char)
    requires d < 10
    ensures IsDigit(c) && c as int - '0' as int == d
  {
    ('0' as int + d) as char
  }

  /** `f"{n}"` for a non-negative integer: no leading zero except for 0 itself. */
  function Decimal(n: nat): (r: string)
    ensures |r| > 0 && AllDigits(r)
    ensures |r| > 1 ==> r[0] != '0'
  {
    if n < 10 then [Digit(n)] else Decimal(n / 10) + [Digit(n % 10)]
  }

  /** The value of a string of decimal digits. */
  function ValueOf(s: string): nat
    requires AllDigits(s)
  {
    if s == [] then 0 else 10 * ValueOf(s[..|s| - 1]) + (s[|s| - 1] as int - '0' as int)
  }

  /** Reading back a formatted number gives the number. */
  lemma {:induction false} DecimalRoundTrip(n: nat)
    ensures ValueOf(Decimal(n)) == n
  {
    if n >= 10 {
      DecimalRoundTrip(n / 10);
      var r := Decimal(n);
      assert r[..|r| - 1] == Decimal(n / 10);
    }
  }

  /** `f"{i}"` for any integer. */
  function IntStr(i: int): (r: string)
    ensures i >= 0 ==> r == Decimal(i)
    ensures i < 0 ==> r == "-" + Decimal(-i)
  {
    if i < 0 then "-" + Decimal(-i) else Decimal(i)
  }

  /** The three digits of `m`, with leading zeros. */
  function Pad3(m: nat): (r: string)
    requires m < 1000
    ensures |r| == 3 && AllDigits(r)
  {
    [Digit(m / 100), Digit(m / 10 % 10), Digit(m % 10)]
  }

  /** `f"{n:,}"` */
  function Grouped(n: nat): string {
    if n < 1000 then Decimal(n) else Grouped(n / 1000) + "," + Pad3(n % 1000)
  }

  /** `s.replace(',', '')` */
  function DropCommas(s: string): (r: string)
    ensures |r| <= |s|
  {
    if s == [] then "" else (if s[0] == ',' then "" else [s[0]]) + DropCommas(s[1..])
  }

  lemma {:induction false} DropCommasAppend(a: string, b: string)
    ensures DropCommas(a + b) == DropCommas(a) + DropCommas(b)
    decreases |a|
  {
    if a != [] {
      assert (a + b)[1..] == a[1..] + b;
      DropCommasAppend(a[1..], b);
    } else {
      assert a + b == b;
    }
  }

  lemma DropCommasOfDigits(s: string)
    requires AllDigits(s)
    ensures DropCommas(s) == s
  {
    if s != [] {
      DropCommasOfDigits(s[1..]);
      assert s == [s[0]] + s[1..];
    }
  }

  /** The last three digits of a number of at least four digits. */
  lemma DecimalSplit3(n: nat)
    requires n >= 1000
    ensures Decimal(n) == Decimal(n / 1000) + Pad3(n % 1000)
  {
    var q, m := n / 1000, n % 1000;
    assert n == 1000 * q + m;
    assert n / 10 == 100 * q + m / 10;
    assert n / 100 == 10 * q + m / 100;
    assert (n / 10) / 10 == n / 100;
    assert (n / 100) / 10 == q;
    assert (n / 10) % 10 == m / 10 % 10;
    assert (n / 100) % 10 == m / 100;
    assert n % 10 == m % 10;
    assert Decimal(n) == Decimal(n / 10) + [Digit(n % 10)];
    assert Decimal(n / 10) == Decimal(n / 100) + [Digit(n / 10 % 10)];
    assert Decimal(n / 100) == Decimal(q) + [Digit(n / 100 % 10)];
  }

  /** Removing the group separators from `f"{n:,}"` gives `f"{n}"`. */
  lemma {:induction false} GroupedIsDecimal(n: nat)
    ensures DropCommas(Grouped(n)) == Decimal(n)
  {
    if n < 1000 {
      DropCommasOfDigits(Decimal(n));
    } else {
      GroupedIsDecimal(n / 1000);
      DropCommasAppend(Grouped(n / 1000) + ",", Pad3(n % 1000));
      DropCommasAppend(Grouped(n / 1000), ",");
      DropCommasOfDigits(Pad3(n % 1000));
      DecimalSplit3(n);
    }
  }
}
