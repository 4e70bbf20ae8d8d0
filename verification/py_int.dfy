/** Python's `str()` on an integer: optional minus sign, then the decimal
    digits with no leading zero. Only its length is used by the kwargs
    builder (`len(str(max_value))`). */
module PyInt {

  /** 10 raised to `k`. */
  function Pow10(k: nat): (p: nat)
    ensures p >= 1
  {
    if k == 0 then 1 else 10 * Pow10(k - 1)
  }

  /** The character of a decimal digit. */
  function DigitChar(d: nat): (c: char)
    requires d < 10
    ensures '0' <= c <= '9'
    ensures DigitValue(c) == d
  {
    ('0' as int + d) as char
  }

  /** The value of a decimal digit character. */
  function DigitValue(c: char): nat
  {
    if '0' <= c <= '9' then (c as int - '0' as int) as nat else 0
  }

  /** The decimal digits of `n`, most significant first. */
  function Digits(n: nat): (s: string)
    ensures |s| >= 1
    ensures forall i :: 0 <= i < |s| ==> '0' <= s[i] <= '9'
    decreases n
  {
    if n < 10 then [DigitChar(n)] else Digits(n / 10) + [DigitChar(n % 10)]
  }

  /** `str(n)` for an integer `n`. */
  function Str(n: int): (s: string)
    ensures |s| >= 1
    ensures (s[0] == '-') <==> n < 0
  {
    if n < 0 then "-" + Digits(-n) else Digits(n)
  }

  /** Reads a string of decimal digits back into a number. */
  function ParseDigits(s: string): nat
  {
    if |s| == 0 then 0 else 10 * ParseDigits(s[..|s| - 1]) + DigitValue(s[|s| - 1])
  }

  /** Reads `str(n)` back. */
  function Parse(s: string): int
  {
    if |s| > 0 && s[0] == '-' then -(ParseDigits(s[1..]) as int) else ParseDigits(s)
  }

  /** The digit string has exactly as many characters as the number has
      decimal places: `n` lies below 10^len, and at or above 10^(len-1)
      unless it is a single digit. */
  lemma {:induction false} DigitsLengthBounds(n: nat)
    ensures n < Pow10(|Digits(n)|)
    ensures |Digits(n)| > 1 ==> Pow10(|Digits(n)| - 1) <= n
    ensures n > 0 ==> Digits(n)[0] != '0'
    decreases n
  {
    if n >= 10 {
      DigitsLengthBounds(n / 10);
    } else {
    }
  }

  /** The bounds above determine the length: any `k` with
      10^(k-1) <= n < 10^k is the length of `str(n)` for positive `n`. */
  lemma DigitsLengthUnique(n: nat, k: nat)
    requires k >= 1
    requires n < Pow10(k)
    requires k > 1 ==> Pow10(k - 1) <= n
    ensures |Digits(n)| == k
  {
    DigitsLengthBounds(n);
    var len := |Digits(n)|;
    if len < k {
      Pow10Monotone(len, k - 1);
    } else if len > k {
      Pow10Monotone(k, len - 1);
    }
  }

  lemma {:induction false} Pow10Monotone(a: nat, b: nat)
    requires a <= b
    ensures Pow10(a) <= Pow10(b)
    decreases b
  {
    if a < b {
      Pow10Monotone(a, b - 1);
    }
  }

  /** The length of `str(n)`: the sign, then one character per decimal place. */
  lemma StrLength(n: int, k: nat)
    requires k >= 1
    requires (if n < 0 then -n else n) < Pow10(k)
    requires k > 1 ==> Pow10(k - 1) <= (if n < 0 then -n else n)
    ensures |Str(n)| == (if n < 0 then k + 1 else k)
  {
    DigitsLengthUnique(if n < 0 then -n else n, k);
  }

  /** Parsing the digits of `n` gives `n` back. */
  lemma {:induction false} DigitsRoundTrip(n: nat)
    ensures ParseDigits(Digits(n)) == n
    decreases n
  {
    var s := Digits(n);
    if n >= 10 {
      DigitsRoundTrip(n / 10);
    } else {
      assert s == [DigitChar(n)];
      assert s[..|s| - 1] == [];
    }
  }

  /** `int(str(n)) == n`. */
  lemma StrRoundTrip(n: int)
    ensures Parse(Str(n)) == n
  {
    if n < 0 {
      var s := Str(n);
      DigitsRoundTrip(-n);
    } else {
      DigitsRoundTrip(n);
    }
  }
}
