/** Text as the services trim and split it. */
module Text {
  import opened Wrappers

  /** The characters of Unicode's White_Space property. */
  predicate IsSpace(c: char) {
    || '\U{0009}' <= c <= '\U{000D}' || c == ' ' || c == '\U{0085}' || c == '\U{00A0}' || c == '\U{1680}'
    || '\U{2000}' <= c <= '\U{200A}' || c == '\U{2028}' || c == '\U{2029}' || c == '\U{202F}' || c == '\U{205F}'
    || c == '\U{3000}'
  }

  function TrimStart(s: string): string {
    if s != "" && IsSpace(s[0]) then TrimStart(s[1..]) else s
  }

  function TrimEnd(s: string): string {
    if s != "" && IsSpace(s[|s| - 1]) then TrimEnd(s[..|s| - 1]) else s
  }

  function Trim(s: string): string {
    TrimEnd(TrimStart(s))
  }

  predicate StartsWith(s: string, prefix: string) {
    |prefix| <= |s| && s[..|prefix|] == prefix
  }

  /** The text before the first separator. */
  function Before(s: string, sep: char): string {
    if s == "" || s[0] == sep then "" else [s[0]] + Before(s[1..], sep)
  }

  /** The second field of a text split at a separator; None if there is no separator. */
  function SecondField(s: string, sep: char): Option<string> {
    if |Before(s, sep)| >= |s| then None else Some(Before(s[|Before(s, sep)| + 1..], sep))
  }

  predicate IsDigit(c: char) {
    '0' <= c <= '9'
  }

  function DigitValue(c: char): nat
    requires IsDigit(c)
  {
    c as int - '0' as int
  }

  function Digits(s: string): nat
    requires forall c <- s :: IsDigit(c)
  {
    if s == "" then 0 else assert IsDigit(s[|s| - 1]); Digits(s[..|s| - 1]) * 10 + DigitValue(s[|s| - 1])
  }

  const TWO_64: nat := 0x1_0000_0000_0000_0000

  /** A decimal number of 64 bits, with an optional plus sign. */
  function ParseU64(s: string): Option<nat> {
    var digits := if s != "" && s[0] == '+' then s[1..] else s;
    if digits == "" || exists c <- digits :: !IsDigit(c) then None
    else if Digits(digits) >= TWO_64 then None
    else Some(Digits(digits))
  }

  // ---- what these functions read ----------------------------------------

  predicate AllSpace(s: string) {
    forall c <- s :: IsSpace(c)
  }

  /** A text that neither begins nor ends with white space. */
  predicate Tight(s: string) {
    s != "" ==> !IsSpace(s[0]) && !IsSpace(s[|s| - 1])
  }

  /** Trimming finds the tight text between white space. */
  lemma TrimOf(a: string, core: string, b: string)
    requires AllSpace(a) && AllSpace(b) && Tight(core)
    ensures Trim(a + core + b) == core
  {
    SkipStart(a, core + b);
    assert a + core + b == a + (core + b);
    if core == "" {
      assert core + b == b;
      SkipStart(b, "");
      assert b + "" == b;
    } else {
      assert TrimStart(core + b) == core + b;
      SkipEnd(core, b);
      assert TrimEnd(core) == core;
    }
  }

  /** Every text is a tight one between white space. */
  lemma {:induction false} TrimSplits(s: string) returns (a: string, b: string)
    ensures AllSpace(a) && AllSpace(b) && Tight(Trim(s)) && s == a + Trim(s) + b
    decreases |s|
  {
    if s != "" && IsSpace(s[0]) {
      a, b := TrimSplits(s[1..]);
      assert s == [s[0]] + s[1..] == [s[0]] + a + Trim(s) + b;
      a := [s[0]] + a;
    } else {
      a := "";
      b := EndSplits(s);
    }
  }

  lemma {:induction false} EndSplits(s: string) returns (b: string)
    requires s != "" ==> !IsSpace(s[0])
    ensures AllSpace(b) && Tight(TrimEnd(s)) && s == TrimEnd(s) + b
    decreases |s|
  {
    if s != "" && IsSpace(s[|s| - 1]) {
      b := EndSplits(s[..|s| - 1]);
      assert s == s[..|s| - 1] + [s[|s| - 1]] == TrimEnd(s) + (b + [s[|s| - 1]]);
      b := b + [s[|s| - 1]];
    } else {
      b := "";
    }
  }

  lemma {:induction false} SkipStart(a: string, rest: string)
    requires AllSpace(a)
    ensures TrimStart(a + rest) == TrimStart(rest)
  {
    if a == "" {
      assert a + rest == rest;
    } else {
      assert (a + rest)[0] == a[0] && a[0] in a && (a + rest)[1..] == a[1..] + rest;
      SkipStart(a[1..], rest);
    }
  }

  lemma {:induction false} SkipEnd(rest: string, b: string)
    requires AllSpace(b)
    ensures TrimEnd(rest + b) == TrimEnd(rest)
    decreases |b|
  {
    if b == "" {
      assert rest + b == rest;
    } else {
      assert b[|b| - 1] in b && (rest + b)[..|rest + b| - 1] == rest + b[..|b| - 1];
      SkipEnd(rest, b[..|b| - 1]);
    }
  }

  lemma {:induction false} BeforeOf(a: string, sep: char, b: string)
    requires sep !in a && (b == "" || b[0] == sep)
    ensures Before(a + b, sep) == a
  {
    if a == "" {
      assert a + b == b;
    } else {
      assert (a + b)[1..] == a[1..] + b;
      BeforeOf(a[1..], sep, b);
    }
  }

  lemma {:induction false} BeforeSplits(s: string, sep: char) returns (rest: string)
    ensures s == Before(s, sep) + rest && (rest == "" || rest[0] == sep)
  {
    if s == "" || s[0] == sep {
      rest := s;
    } else {
      rest := BeforeSplits(s[1..], sep);
      assert s == [s[0]] + s[1..];
    }
  }

  /** The second field is what stands between the first two separators, or after the only one. */
  lemma SecondFieldOf(a: string, field: string, sep: char, rest: string)
    requires sep !in a && sep !in field && (rest == "" || rest[0] == sep)
    ensures SecondField(a + [sep] + field + rest, sep) == Some(field)
  {
    var s := a + [sep] + field + rest;
    assert s == a + ([sep] + field + rest);
    BeforeOf(a, sep, [sep] + field + rest);
    assert s[|a| + 1..] == field + rest;
    BeforeOf(field, sep, rest);
  }

  /** A number in decimal digits. */
  function Decimal(n: nat): (s: string)
    ensures s != "" && forall c <- s :: IsDigit(c)
  {
    (if n < 10 then "" else Decimal(n / 10)) + [(n % 10 + '0' as int) as char]
  }

  function Zeros(k: nat): (s: string)
    ensures forall c <- s :: IsDigit(c)
  {
    seq(k, _ => '0')
  }

  lemma {:induction false} DigitsOfDecimal(k: nat, n: nat)
    ensures Digits(Zeros(k) + Decimal(n)) == n
    decreases n, k
  {
    var s := Zeros(k) + Decimal(n);
    if n >= 10 {
      assert s[..|s| - 1] == Zeros(k) + Decimal(n / 10);
      DigitsOfDecimal(k, n / 10);
    } else {
      assert s[..|s| - 1] == Zeros(k);
      ZerosAreNothing(k);
    }
  }

  lemma {:induction false} ZerosAreNothing(k: nat)
    ensures Digits(Zeros(k)) == 0
  {
    if k > 0 {
      assert Zeros(k)[..k - 1] == Zeros(k - 1);
      ZerosAreNothing(k - 1);
    }
  }

  lemma OneMoreDigit(k: nat, n: nat, c: char) returns (z: nat)
    requires IsDigit(c)
    ensures Zeros(k) + Decimal(n) + [c] == Zeros(z) + Decimal(10 * n + DigitValue(c))
  {
    var d := DigitValue(c);
    assert d < 10 && [(d + '0' as int) as char] == [c];
    if n == 0 {
      assert Decimal(d) == "" + [c] && Decimal(0) == "" + ['0'];
      z := k + 1;
      assert Zeros(k) + Decimal(n) + [c] == Zeros(k + 1) + Decimal(d);
    } else {
      z := k;
      assert (10 * n + d) / 10 == n && (10 * n + d) % 10 == d;
      assert Decimal(10 * n + d) == Decimal(n) + [c];
      assert Zeros(k) + Decimal(n) + [c] == Zeros(k) + (Decimal(n) + [c]);
    }
  }

  lemma OneDigit(c: char)
    requires IsDigit(c)
    ensures [c] == Zeros(0) + Decimal(DigitValue(c))
  {
    var d := DigitValue(c);
    assert d < 10 && [(d + '0' as int) as char] == [c];
    assert Decimal(d) == "" + [c];
  }

  /** Every text of digits is a number in decimal after some zeros. */
  lemma {:induction false} DigitsAreDecimal(s: string) returns (k: nat)
    requires s != "" && forall c <- s :: IsDigit(c)
    ensures s == Zeros(k) + Decimal(Digits(s))
  {
    var init, last := s[..|s| - 1], s[|s| - 1];
    assert IsDigit(last) && s == init + [last];
    if init == "" {
      OneDigit(last);
      k := 0;
      assert s == [last] && Digits(s) == DigitValue(last);
    } else {
      var z := DigitsAreDecimal(init);
      k := OneMoreDigit(z, Digits(init), last);
    }
  }

  /** Exactly the decimal numbers below 2^64 are read, after an optional plus sign and zeros. */
  lemma ParseU64Iff(s: string, n: nat)
    ensures ParseU64(s) == Some(n) <==>
      n < 0x1_0000_0000_0000_0000 && exists k :: s == Zeros(k) + Decimal(n) || s == "+" + (Zeros(k) + Decimal(n))
  {
    if ParseU64(s) == Some(n) {
      var digits := if s[0] == '+' then s[1..] else s;
      var k := DigitsAreDecimal(digits);
      assert digits == Zeros(k) + Decimal(n) && (s == digits || s == "+" + digits);
    }
    forall k | s == Zeros(k) + Decimal(n) || s == "+" + (Zeros(k) + Decimal(n))
      ensures n < 0x1_0000_0000_0000_0000 ==> ParseU64(s) == Some(n)
    {
      ParsePadded(s, k, n);
    }
  }

  lemma ParsePadded(s: string, k: nat, n: nat)
    requires s == Zeros(k) + Decimal(n) || s == "+" + (Zeros(k) + Decimal(n))
    ensures n < 0x1_0000_0000_0000_0000 ==> ParseU64(s) == Some(n)
  {
    var digits := Zeros(k) + Decimal(n);
    DigitsOfDecimal(k, n);
    DigitsAreTight(digits);
    assert digits == if s[0] == '+' then s[1..] else s;
  }

  lemma DigitsAreTight(s: string)
    requires s != "" && forall c <- s :: IsDigit(c)
    ensures Tight(s) && ':' !in s && s[0] != '+'
  {
    assert IsDigit(s[0]) && IsDigit(s[|s| - 1]);
  }

  lemma ParseDigits(s: string)
    requires s != "" && forall c <- s :: IsDigit(c)
    ensures ParseU64(s) == if Digits(s) < 0x1_0000_0000_0000_0000 then Some(Digits(s)) else None
  {
    DigitsAreTight(s);
  }

  /** A number in decimal is read back if it fits into 64 bits. */
  lemma ParseDecimal(n: nat)
    ensures Tight(Decimal(n)) && ':' !in Decimal(n)
    ensures ParseU64(Decimal(n)) == if n < 0x1_0000_0000_0000_0000 then Some(n) else None
  {
    var s := Decimal(n);
    DigitsAreTight(s);
    ParseDigits(s);
    assert s == Zeros(0) + s;
    DigitsOfDecimal(0, n);
  }
}
