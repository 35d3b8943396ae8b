/** Machine integers and their decimal form, as the server parses and prints them. */
module Numbers {
  import opened Options

  const I64_MIN := -0x8000_0000_0000_0000
  const I64_MAX := 0x7fff_ffff_ffff_ffff
  const TWO_64 := 0x1_0000_0000_0000_0000

  predicate IsI64(n: int) {
    I64_MIN <= n <= I64_MAX
  }

  /** Rust's `n as i32` on an `i64`: the low 32 bits, read as a signed number. */
  function AsI32(n: int): (r: int)
    ensures -0x8000_0000 <= r < 0x8000_0000 && (r - n) % 0x1_0000_0000 == 0
  {
    (n + 0x8000_0000) % 0x1_0000_0000 - 0x8000_0000
  }

  function Digit(d: nat): char
    requires d < 10
  {
    "0123456789"[d]
  }

  function DigitValue(c: char): Option<nat> {
    if '0' <= c <= '9' then Some(c as int - '0' as int) else None
  }

  function Digits(n: nat): (s: string)
    ensures s != "" && forall c :: c in s ==> '0' <= c <= '9'
  {
    if n < 10 then [Digit(n)] else Digits(n / 10) + [Digit(n % 10)]
  }

  /** Rust's `format!("{n}")`. */
  function Decimal(n: int): string {
    if n < 0 then "-" + Digits(-n) else Digits(n)
  }

  function ParseDigits(s: string): Option<nat> {
    if s == "" then None
    else
      var last := DigitValue(s[|s| - 1]);
      if last.None? then None
      else if |s| == 1 then last
      else
        var front := ParseDigits(s[..|s| - 1]);
        if front.None? then None else Some(front.value * 10 + last.value)
  }

  /** An optionally signed decimal number of any size. */
  function ParseInt(s: string): Option<int> {
    if s == "" then None
    else
      var n := ParseDigits(if s[0] == '-' || s[0] == '+' then s[1..] else s);
      if n.None? then None else Some(if s[0] == '-' then -(n.value as int) else n.value)
  }

  /** Rust's `s.parse::<i64>().ok()`: a number out of range does not parse. */
  function ParseI64(s: string): (r: Option<int>)
    ensures r.Some? ==> IsI64(r.value)
  {
    var n := ParseInt(s);
    if n.Some? && IsI64(n.value) then n else None
  }

  lemma {:induction false} ParseDigitsOfDigits(n: nat)
    ensures ParseDigits(Digits(n)) == Some(n)
  {
    var s := Digits(n);
    if n >= 10 {
      ParseDigitsOfDigits(n / 10);
      assert s[..|s| - 1] == Digits(n / 10);
      assert s[|s| - 1] == Digit(n % 10);
    }
  }

  /** Printing then parsing gives the number back. */
  lemma ParseDecimal(n: int)
    ensures ParseInt(Decimal(n)) == Some(n)
    ensures IsI64(n) ==> ParseI64(Decimal(n)) == Some(n)
  {
    var s, size := Decimal(n), if n < 0 then -n else n;
    ParseDigitsOfDigits(size);
    assert n < 0 ==> s[0] == '-' && s[1..] == Digits(size);
    assert n >= 0 ==> s[0] in s && '0' <= s[0];
  }

  lemma DecimalHasNoColon(n: int)
    ensures ':' !in Decimal(n)
  {
  }

  lemma DecimalInjective(m: int, n: int)
    requires Decimal(m) == Decimal(n)
    ensures m == n
  {
    ParseDecimal(m);
    ParseDecimal(n);
  }

  /** Two parts joined by a colon determine both parts, when the first has no colon. */
  lemma {:induction false} ColonSplits(a: string, b: string, c: string, d: string)
    requires ':' !in a && ':' !in c
    requires a + ":" + b == c + ":" + d
    ensures a == c && b == d
  {
    var s := a + ":" + b;
    assert s[|a|] == ':' && s[|c|] == ':';
    assert a == s[..|a|] && c == s[..|c|];
    assert b == s[|a| + 1..] && d == s[|c| + 1..];
  }
}
