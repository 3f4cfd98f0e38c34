/**
 * The duration formatter `to_pretty_str` of the timing helper (2_part1.cpp:13-30),
 * together with the decimal rendering, zero padding and parsing it is specified by.
 *
 * The formatter is called with the `long long` microsecond count of a timer, so
 * its argument is modelled as an `int`. Its five branches compare `n` against
 * the double literals 1e4, 1e6, 1e9 and 1e12; each of these and each of them
 * minus one is an exactly representable double, so every comparison agrees
 * with the integer comparison written below.
 */
module PrettyFormat {
  import opened Options

  /**
   * The text that the output stream, set to precision 3, writes for the
   * floating-point quotient n / 10^e (the million, billion and trillion
   * branches). That rendering belongs to the C++ library, so it is a
   * parameter of the formatter.
   */
  type ScaledText = (int, nat) -> string

  const PlainLimit: int := 10000
  const GroupedLimit: int := 1000000
  const MillionLimit: int := 1000000000
  const BillionLimit: int := 1000000000000

  predicate IsDigit(c: char) {
    '0' <= c <= '9'
  }

  predicate AllDigits(s: string) {
    forall i :: 0 <= i < |s| ==> IsDigit(s[i])
  }

  function DigitValue(c: char): (d: nat)
    requires IsDigit(c)
    ensures d < 10
  {
    c as int - '0' as int
  }

  function DigitChar(d: nat): (c: char)
    requires d < 10
    ensures IsDigit(c) && DigitValue(c) == d
  {
    ('0' as int + d) as char
  }

  function Pow10(k: nat): (p: nat)
    ensures p >= 1
  {
    if k == 0 then 1 else 10 * Pow10(k - 1)
  }

  /** The digits of `n`, most significant first, without leading zeros. */
  function NatDigits(n: nat): (s: string)
    ensures 1 <= |s| && AllDigits(s)
    ensures s[0] == '0' ==> n == 0
    decreases n
  {
    if n < 10 then [DigitChar(n)] else NatDigits(n / 10) + [DigitChar(n % 10)]
  }

  /** What `operator<<` writes for an integer: precision does not apply to integers. */
  function Decimal(n: int): string {
    if n < 0 then "-" + NatDigits(-n) else NatDigits(n)
  }

  /** The value of a string of decimal digits (the empty string reads as 0). */
  function ParseDigits(s: string): nat
    requires AllDigits(s)
    decreases |s|
  {
    if s == [] then 0 else ParseDigits(s[..|s| - 1]) * 10 + DigitValue(s[|s| - 1])
  }

  /** Reads an optionally negative decimal integer; anything else is None. */
  function ParseInt(s: string): Option<int> {
    if |s| > 1 && s[0] == '-' && AllDigits(s[1..]) then var v: int := ParseDigits(s[1..]); Some(-v)
    else if |s| > 0 && AllDigits(s) then Some(ParseDigits(s))
    else None
  }

  function Repeat(c: char, k: nat): (s: string)
    ensures |s| == k && forall i :: 0 <= i < k ==> s[i] == c
  {
    if k == 0 then [] else [c] + Repeat(c, k - 1)
  }

  /** What `std::setw(w) << std::setfill(c)` does to the next item: pad on the left, never truncate. */
  function PadLeft(s: string, w: nat, c: char): (r: string)
    ensures |s| <= w ==> |r| == w
    ensures |s| > w ==> r == s
    ensures |r| >= |s| && r[|r| - |s|..] == s
    ensures forall i :: 0 <= i < |r| - |s| ==> r[i] == c
  {
    if |s| < w then Repeat(c, w - |s|) + s else s
  }

  /** `s` with every occurrence of `c` deleted. */
  function Without(s: string, c: char): (r: string)
    ensures c !in r
    decreases |s|
  {
    if s == [] then []
    else if s[0] == c then Without(s[1..], c)
    else [s[0]] + Without(s[1..], c)
  }

  /** The thousands `q`, a comma, then the remainder `m` zero-padded to width 3. */
  function Grouped(q: int, m: int): string {
    Decimal(q) + "," + PadLeft(Decimal(m), 3, '0')
  }

  /** to_pretty_str (2_part1.cpp:13-30). */
  function ToPrettyStr(n: int, scaled: ScaledText): string {
    if n < PlainLimit then Decimal(n)
    else if n < GroupedLimit then
      // `n / 1000` on a positive long long, then std::floor: the integer quotient.
      var thousands := n / 1000;
      Grouped(thousands, n - 1000 * thousands)
    else if n < MillionLimit then scaled(n, 6) + " million"
    else if n < BillionLimit then scaled(n, 9) + " billion"
    else scaled(n, 12) + " trillion"
  }

  // ---------------------------------------------------------------------------
  // Decimal rendering and parsing

  /** Parsing the digits of `n` gives `n` back. */
  lemma {:induction false} ParseNatDigits(n: nat)
    ensures ParseDigits(NatDigits(n)) == n
    decreases n
  {
    var s := NatDigits(n);
    if n >= 10 {
      ParseNatDigits(n / 10);
      assert s[..|s| - 1] == NatDigits(n / 10);
    }
  }

  /** Decimal and ParseInt are inverse: every integer reads back from its rendering. */
  lemma DecimalRoundTrip(n: int)
    ensures ParseInt(Decimal(n)) == Some(n)
  {
    var s := Decimal(n);
    if n < 0 {
      assert s[1..] == NatDigits(-n);
      ParseNatDigits(-n);
    } else {
      ParseNatDigits(n);
    }
  }

  /** A rendering holds only digits and, for a negative number, one leading minus sign. */
  lemma DecimalCharacters(n: int)
    ensures var s := Decimal(n);
      |s| >= 1 && (n < 0 <==> s[0] == '-') &&
      (0 <= n ==> AllDigits(s)) &&
      (n < 0 ==> AllDigits(s[1..])) &&
      ',' !in s
  {
    var s := Decimal(n);
    if n < 0 {
      assert s[1..] == NatDigits(-n);
      assert forall i :: 1 <= i < |s| ==> s[i] == NatDigits(-n)[i - 1];
    }
  }

  /** The number of digits of `n` is at most `k` exactly when `n < 10^k`. */
  lemma {:induction false} NatDigitsLength(n: nat, k: nat)
    requires k >= 1
    ensures |NatDigits(n)| <= k <==> n < Pow10(k)
    decreases n
  {
    if n >= 10 {
      if k == 1 {
        assert Pow10(1) == 10;
      } else {
        NatDigitsLength(n / 10, k - 1);
        assert Pow10(k) == 10 * Pow10(k - 1);
        assert n / 10 < Pow10(k - 1) <==> n < 10 * Pow10(k - 1);
      }
    } else {
      assert Pow10(k) == 10 * Pow10(k - 1);
    }
  }

  /** Appending digits shifts the value of the prefix by the length of the suffix. */
  lemma {:induction false} ParseDigitsAppend(a: string, b: string)
    requires AllDigits(a) && AllDigits(b)
    ensures AllDigits(a + b)
    ensures ParseDigits(a + b) == ParseDigits(a) * Pow10(|b|) + ParseDigits(b)
    decreases |b|
  {
    if b == [] {
      assert a + b == a;
    } else {
      var b' := b[..|b| - 1];
      var d := DigitValue(b[|b| - 1]);
      ParseDigitsAppend(a, b');
      assert (a + b)[..|a + b| - 1] == a + b';
      var pa, pb, p := ParseDigits(a), ParseDigits(b'), Pow10(|b'|);
      assert ParseDigits(a + b) == (pa * p + pb) * 10 + d;
      assert ParseDigits(b) == pb * 10 + d;
      assert Pow10(|b|) == p * 10;
      assert (pa * p) * 10 == pa * (p * 10) by { ShiftByTen(pa, p); }
    }
  }

  /** Shifting a product by one more decimal place. */
  lemma ShiftByTen(x: int, y: int)
    ensures (x * y) * 10 == x * (y * 10)
  {
  }

  /** Leading zeros do not change the value. */
  lemma {:induction false} ParseZeroPadded(k: nat, s: string)
    requires AllDigits(s)
    ensures AllDigits(Repeat('0', k) + s)
    ensures ParseDigits(Repeat('0', k) + s) == ParseDigits(s)
    decreases k
  {
    if k > 0 {
      ParseZeroPadded(k - 1, s);
      var z := Repeat('0', k);
      assert z == ['0'] + Repeat('0', k - 1);
      assert z + s == ['0'] + (Repeat('0', k - 1) + s);
      var rest := Repeat('0', k - 1) + s;
      ParseDigitsAppend(['0'], rest);
      assert ['0'][..0] == [];
      assert DigitValue('0') == 0;
      assert ParseDigits(['0']) == 0;
      assert ParseDigits(['0'] + rest) == ParseDigits(rest);
    } else {
      assert Repeat('0', k) + s == s;
    }
  }

  /** Deleting a character distributes over concatenation. */
  lemma {:induction false} WithoutAppend(a: string, b: string, c: char)
    ensures Without(a + b, c) == Without(a, c) + Without(b, c)
    decreases |a|
  {
    if a != [] {
      WithoutAppend(a[1..], b, c);
      assert (a + b)[1..] == a[1..] + b;
    } else {
      assert a + b == b;
    }
  }

  /** Deleting a character that does not occur changes nothing. */
  lemma {:induction false} WithoutAbsent(s: string, c: char)
    requires c !in s
    ensures Without(s, c) == s
    decreases |s|
  {
    if s != [] {
      WithoutAbsent(s[1..], c);
      assert s == [s[0]] + s[1..];
    }
  }

  /** Zero-padding the digits of m < 1000 to width 3 gives exactly three digits worth m. */
  lemma Pad3(m: nat)
    requires m < 1000
    ensures var p := PadLeft(NatDigits(m), 3, '0');
      |p| == 3 && AllDigits(p) && ParseDigits(p) == m
  {
    var d := NatDigits(m);
    NatDigitsLength(m, 3);
    assert Pow10(3) == 1000;
    var p := PadLeft(d, 3, '0');
    assert p == Repeat('0', 3 - |d|) + d;
    ParseZeroPadded(3 - |d|, d);
    ParseNatDigits(m);
  }

  // ---------------------------------------------------------------------------
  // The branches of to_pretty_str

  /**
   * Below 10,000 (negative values included) the result is the plain decimal
   * rendering: it reads back as `n`, holds no comma and no unit, has no
   * leading zero (after the minus sign of a negative value) unless `n` is 0,
   * and a non-negative value has at most four digits.
   */
  lemma PlainBranch(n: int, scaled: ScaledText)
    requires n < PlainLimit
    ensures var r := ToPrettyStr(n, scaled);
      |r| >= 1 && ParseInt(r) == Some(n) && ',' !in r && ' ' !in r &&
      (0 <= n ==> AllDigits(r) && |r| <= 4 && (r[0] == '0' ==> n == 0)) &&
      (n < 0 ==> |r| >= 2 && r[1] != '0')
  {
    var r := ToPrettyStr(n, scaled);
    assert r == Decimal(n);
    DecimalRoundTrip(n);
    DecimalCharacters(n);
    if 0 <= n {
      assert r == NatDigits(n);
      NatDigitsLength(n, 4);
      assert Pow10(4) == 10000;
    } else {
      var digits := NatDigits(-n);
      assert r == "-" + digits;
      assert r[1] == digits[0];
      assert r[0] == '-' && forall i :: 1 <= i < |r| ==> r[i] == r[1..][i - 1];
    }
  }

  /** Where the two digit groups of `hi + "," + lo` sit, for lo three long. */
  lemma GroupedLayout(hi: string, lo: string)
    requires 1 <= |hi| && |lo| == 3
    ensures var r := hi + "," + lo;
      |r| == |hi| + 4 && r[|r| - 4] == ',' && r[..|r| - 4] == hi && r[|r| - 3..] == lo && r[0] == hi[0]
  {
    var r := hi + "," + lo;
    assert r[..|r| - 4] == hi;
    assert r[|r| - 3..] == lo;
  }

  /** Deleting the comma from `hi + "," + lo` joins the two digit groups. */
  lemma GroupedWithout(hi: string, lo: string)
    requires AllDigits(hi) && AllDigits(lo)
    ensures Without(hi + "," + lo, ',') == hi + lo
  {
    assert ',' !in hi by { assert !IsDigit(','); }
    assert ',' !in lo by { assert !IsDigit(','); }
    WithoutAppend(hi + ",", lo, ',');
    WithoutAppend(hi, ",", ',');
    assert Without(",", ',') == [];
    WithoutAbsent(hi, ',');
    WithoutAbsent(lo, ',');
  }

  /** The thousands q take two or three digits. */
  lemma ThousandsWidth(q: nat)
    requires 10 <= q <= 999
    ensures 2 <= |NatDigits(q)| <= 3
  {
    NatDigitsLength(q, 3);
    NatDigitsLength(q, 1);
    assert Pow10(3) == 1000 && Pow10(1) == 10;
  }

  /** ParseDigitsAppend for a suffix of three digits. */
  lemma ParseDigitsAppend3(a: string, b: string)
    requires AllDigits(a) && AllDigits(b) && |b| == 3
    ensures AllDigits(a + b)
    ensures ParseDigits(a + b) == ParseDigits(a) * 1000 + ParseDigits(b)
  {
    ParseDigitsAppend(a, b);
    assert Pow10(3) == 1000;
  }

  /** A non-empty digit string reads as its value. */
  lemma ParseIntOfDigits(s: string)
    requires |s| > 0 && AllDigits(s)
    ensures ParseInt(s) == Some(ParseDigits(s))
  {
    assert IsDigit(s[0]);
  }

  /** Digit groups hi and lo (three long) worth q and m read, joined, as q * 1000 + m. */
  lemma GroupedValue(hi: string, lo: string, q: nat, m: nat)
    requires |hi| > 0 && AllDigits(hi) && ParseDigits(hi) == q
    requires |lo| == 3 && AllDigits(lo) && ParseDigits(lo) == m
    ensures AllDigits(hi + lo) && ParseInt(hi + lo) == Some(q * 1000 + m)
  {
    ParseDigitsAppend3(hi, lo);
    ParseIntOfDigits(hi + lo);
  }

  /**
   * Thousands q of two or three digits and a remainder m below 1000 give six
   * or seven characters with the comma fourth from the end, no leading zero,
   * and digit groups worth q and m.
   */
  lemma GroupedParts(r: string, q: nat, m: nat)
    requires 10 <= q <= 999 && m < 1000 && r == Grouped(q, m)
    ensures 6 <= |r| <= 7 && r[|r| - 4] == ',' &&
      AllDigits(r[..|r| - 4]) && AllDigits(r[|r| - 3..]) &&
      r[0] != '0' &&
      ParseDigits(r[..|r| - 4]) == q &&
      ParseDigits(r[|r| - 3..]) == m
  {
    var hi, lo := NatDigits(q), PadLeft(NatDigits(m), 3, '0');
    assert Grouped(q, m) == hi + "," + lo;
    assert 2 <= |hi| <= 3 by { ThousandsWidth(q); }
    assert |lo| == 3 && AllDigits(lo) && ParseDigits(lo) == m by { Pad3(m); }
    assert ParseDigits(hi) == q by { ParseNatDigits(q); }
    GroupedLayout(hi, lo);
  }

  /** Deleting the comma from the grouped text reads back as q * 1000 + m. */
  lemma GroupedReadsBack(r: string, n: int, q: nat, m: nat)
    requires 10 <= q <= 999 && m < 1000 && n == q * 1000 + m && r == Grouped(q, m)
    ensures ParseInt(Without(r, ',')) == Some(n)
  {
    var hi, lo := NatDigits(q), PadLeft(NatDigits(m), 3, '0');
    assert Grouped(q, m) == hi + "," + lo;
    assert 2 <= |hi| <= 3 by { ThousandsWidth(q); }
    assert |lo| == 3 && AllDigits(lo) && ParseDigits(lo) == m by { Pad3(m); }
    assert Without(Grouped(q, m), ',') == hi + lo by { GroupedWithout(hi, lo); }
    assert ParseDigits(hi) == q by { ParseNatDigits(q); }
    GroupedValue(hi, lo, q, m);
  }

  /** In the grouped range the text is Grouped of the quotient and remainder by 1000. */
  lemma GroupedText(n: int, scaled: ScaledText)
    requires PlainLimit <= n < GroupedLimit
    ensures ToPrettyStr(n, scaled) == Grouped(n / 1000, n % 1000)
  {
    assert n - 1000 * (n / 1000) == n % 1000;
  }

  /**
   * From 10,000 to 999,999 the result is the thousands, a comma and exactly
   * three zero-padded digits of the remainder: six or seven characters, no
   * leading zero, and digit groups worth n / 1000 and n % 1000.
   */
  lemma GroupedBranch(n: int, scaled: ScaledText)
    requires PlainLimit <= n < GroupedLimit
    ensures var r := ToPrettyStr(n, scaled);
      6 <= |r| <= 7 && r[|r| - 4] == ',' &&
      AllDigits(r[..|r| - 4]) && AllDigits(r[|r| - 3..]) &&
      r[0] != '0' &&
      ParseDigits(r[..|r| - 4]) == n / 1000 &&
      ParseDigits(r[|r| - 3..]) == n % 1000
  {
    GroupedParts(ToPrettyStr(n, scaled), n / 1000, n % 1000);
  }

  /** In the grouped range, deleting the comma reads back as `n`. */
  lemma GroupedBranchReadsBack(n: int, scaled: ScaledText)
    requires PlainLimit <= n < GroupedLimit
    ensures ParseInt(Without(ToPrettyStr(n, scaled), ',')) == Some(n)
  {
    GroupedReadsBack(ToPrettyStr(n, scaled), n, n / 1000, n % 1000);
  }

  /** The unit suffix of the floating-point branches, chosen by strict comparisons. */
  function Suffix(n: int): string
    requires n >= GroupedLimit
  {
    if n < MillionLimit then " million" else if n < BillionLimit then " billion" else " trillion"
  }

  /** The power of ten that n is divided by in the floating-point branches. */
  function Exponent(n: int): nat
    requires n >= GroupedLimit
  {
    if n < MillionLimit then 6 else if n < BillionLimit then 9 else 12
  }

  /**
   * From 1,000,000 on the result is the stream's rendering of n / 10^e followed
   * by a unit that names e: million for [10^6, 10^9), billion for [10^9, 10^12),
   * trillion above.
   */
  lemma ScaledBranch(n: int, scaled: ScaledText)
    requires n >= GroupedLimit
    ensures var r := ToPrettyStr(n, scaled);
      var u := Suffix(n);
      |r| >= |u| && r[|r| - |u|..] == u && r[..|r| - |u|] == scaled(n, Exponent(n))
    ensures Suffix(n) == " million" <==> n < MillionLimit
    ensures Suffix(n) == " billion" <==> MillionLimit <= n < BillionLimit
    ensures Suffix(n) == " trillion" <==> BillionLimit <= n
    ensures Exponent(n) == 6 <==> n < MillionLimit
    ensures Exponent(n) == 9 <==> MillionLimit <= n < BillionLimit
    ensures Exponent(n) == 12 <==> BillionLimit <= n
  {
    var r := ToPrettyStr(n, scaled);
    var u := Suffix(n);
    var t := scaled(n, Exponent(n));
    assert r == t + u;
    assert r[|r| - |u|..] == u;
    assert r[..|r| - |u|] == t;
  }

  /** A text with a character that is neither a digit nor a leading minus does not read as an integer. */
  lemma NotAnInteger(s: string, i: nat)
    requires i < |s| && !IsDigit(s[i]) && s[i] != '-'
    ensures ParseInt(s) == None
  {
    if |s| > 1 && s[0] == '-' {
      assert i >= 1 && s[1..][i - 1] == s[i];
    }
  }

  /**
   * The branches are told apart by their text: the result reads back as a
   * plain integer exactly when n is below 10,000.
   */
  lemma PlainExactlyBelowLimit(n: int, scaled: ScaledText)
    ensures ParseInt(ToPrettyStr(n, scaled)).Some? <==> n < PlainLimit
  {
    var r := ToPrettyStr(n, scaled);
    if n < PlainLimit {
      PlainBranch(n, scaled);
    } else if n < GroupedLimit {
      GroupedBranch(n, scaled);
      NotAnInteger(r, |r| - 4);
    } else {
      ScaledBranch(n, scaled);
      var u := Suffix(n);
      assert r[|r| - |u|] == u[0] == ' ';
      NotAnInteger(r, |r| - |u|);
    }
  }

  /** The thresholds are strict: each power of ten starts the next branch. */
  lemma Thresholds(scaled: ScaledText)
    ensures ToPrettyStr(9999, scaled) == "9999"
    ensures ToPrettyStr(-42, scaled) == "-42"
    ensures ToPrettyStr(1000000, scaled) == scaled(1000000, 6) + " million"
    ensures ToPrettyStr(999999999, scaled) == scaled(999999999, 6) + " million"
    ensures ToPrettyStr(1000000000, scaled) == scaled(1000000000, 9) + " billion"
    ensures ToPrettyStr(999999999999, scaled) == scaled(999999999999, 9) + " billion"
    ensures ToPrettyStr(1000000000000, scaled) == scaled(1000000000000, 12) + " trillion"
  {
    assert NatDigits(999) == "999";
    assert NatDigits(9999) == NatDigits(999) + "9";
    assert NatDigits(4) == "4";
    assert NatDigits(42) == NatDigits(4) + "2";
  }

  /** 12005 is 12 thousands and 5: "12,005". */
  lemma GroupedExample12005()
    ensures 12005 / 1000 == 12 && 12005 % 1000 == 5
    ensures Grouped(12, 5) == "12,005"
  {
    assert NatDigits(12) == "12" by { assert NatDigits(12) == NatDigits(1) + [DigitChar(2)]; }
    assert PadLeft(NatDigits(5), 3, '0') == "005";
  }

  /** 10000, the first grouped value, is "10,000". */
  lemma GroupedExample10000()
    ensures 10000 / 1000 == 10 && 10000 % 1000 == 0
    ensures Grouped(10, 0) == "10,000"
  {
    assert NatDigits(10) == "10" by { assert NatDigits(10) == NatDigits(1) + [DigitChar(0)]; }
    assert PadLeft(NatDigits(0), 3, '0') == "000";
  }

  /** 999999, the last grouped value, is "999,999". */
  lemma GroupedExample999999()
    ensures 999999 / 1000 == 999 && 999999 % 1000 == 999
    ensures Grouped(999, 999) == "999,999"
  {
    assert NatDigits(999) == "999" by {
      assert NatDigits(99) == NatDigits(9) + [DigitChar(9)];
      assert NatDigits(999) == NatDigits(99) + [DigitChar(9)];
    }
  }
}
