/** Decimal integer text: Go's `strconv.Atoi` on a 64-bit platform, and the
    decimal formatting the page template uses for label indices. */
module Decimal {
  import opened Wrappers

  /** Range of Go's `int` on a 64-bit platform. */
  const MinInt: int := -0x8000_0000_0000_0000
  const MaxInt: int := 0x7FFF_FFFF_FFFF_FFFF

  predicate IsDigit(c: char) {
    '0' <= c <= '9'
  }

  predicate AllDigits(s: string) {
    forall i :: 0 <= i < |s| ==> IsDigit(s[i])
  }

  function DigitValue(c: char): nat
    requires IsDigit(c)
  {
    c as int - '0' as int
  }

  function DigitChar(d: nat): (c: char)
    requires d < 10
    ensures IsDigit(c) && DigitValue(c) == d
  {
    ('0' as int + d) as char
  }

  /** The value of a digit string, most significant digit first. */
  function DigitsValue(s: string): nat
    requires AllDigits(s)
  {
    if |s| == 0 then 0 else DigitsValue(s[..|s| - 1]) * 10 + DigitValue(s[|s| - 1])
  }

  /** The text after an optional leading `+` or `-`. */
  function Unsigned(s: string): (d: string)
    ensures |d| <= |s|
  {
    if |s| > 0 && (s[0] == '+' || s[0] == '-') then s[1..] else s
  }

  /** `strconv.Atoi`: an optional `+` or `-`, then one or more ASCII digits,
      whose value must fit in a 64-bit `int`. Anything else is an error. */
  function Atoi(s: string): (r: Option<int>)
    ensures r.Some? ==> |s| > 0 && MinInt <= r.value <= MaxInt
    ensures r.Some? ==> forall i :: 0 < i < |s| ==> IsDigit(s[i])
    ensures r.Some? ==> IsDigit(s[0]) || s[0] == '+' || s[0] == '-'
    ensures r.Some? && s[0] == '-' ==> r.value <= 0
    ensures r.Some? && s[0] != '-' ==> r.value >= 0
    ensures r.Some? ==> |Unsigned(s)| > 0 && AllDigits(Unsigned(s))
    ensures r.Some? ==> (if s[0] == '-' then -r.value else r.value) == DigitsValue(Unsigned(s)) as int
    ensures |Unsigned(s)| > 0 && AllDigits(Unsigned(s)) ==>
      (r.Some? <==> DigitsValue(Unsigned(s)) as int <= (if s[0] == '-' then -MinInt else MaxInt))
  {
    if |s| == 0 then None
    else
      var digits := Unsigned(s);
      if |digits| == 0 || !AllDigits(digits) then None
      else
        var v: int := if s[0] == '-' then -(DigitsValue(digits) as int) else DigitsValue(digits);
        if MinInt <= v <= MaxInt then Some(v) else None
  }

  /** Shortest decimal digits of a natural number. */
  function NatDigits(n: nat): (s: string)
    ensures |s| > 0 && AllDigits(s)
    ensures |s| > 1 ==> s[0] != '0'
  {
    if n < 10 then [DigitChar(n)] else NatDigits(n / 10) + [DigitChar(n % 10)]
  }

  /** Decimal formatting of an integer, as `strconv.Itoa` and the template's
      `{{.Index}}` produce it. */
  function Itoa(n: int): (s: string)
    ensures |s| > 0
    ensures n < 0 <==> s[0] == '-'
  {
    if n < 0 then "-" + NatDigits(-n) else NatDigits(n)
  }

  lemma {:induction false} NatDigitsValue(n: nat)
    ensures DigitsValue(NatDigits(n)) == n
  {
    if n >= 10 {
      var s := NatDigits(n);
      assert s[..|s| - 1] == NatDigits(n / 10);
      NatDigitsValue(n / 10);
    }
  }

  /** Reading back a formatted integer gives the integer when it fits in
      an `int`, and an error (not a clamped value) when it does not. */
  lemma AtoiItoa(n: int)
    ensures Atoi(Itoa(n)) == if MinInt <= n <= MaxInt then Some(n) else None
  {
    if n < 0 {
      assert Itoa(n)[1..] == NatDigits(-n);
      NatDigitsValue(-n);
    } else {
      NatDigitsValue(n);
    }
  }

  function Zeros(n: nat): (z: string)
    ensures |z| == n && AllDigits(z)
    ensures forall i :: 0 <= i < n ==> z[i] == '0'
  {
    seq(n, _ => '0')
  }

  /** Leading zeros do not change the value of a digit string. */
  lemma {:induction false} LeadingZerosValue(z: nat, d: string)
    requires AllDigits(d)
    ensures AllDigits(Zeros(z) + d) && DigitsValue(Zeros(z) + d) == DigitsValue(d)
    decreases |d|, z
  {
    var s := Zeros(z) + d;
    assert AllDigits(s) by {
      forall i | 0 <= i < |s|
        ensures IsDigit(s[i])
      {
        if i < z {
          assert s[i] == Zeros(z)[i];
        } else {
          assert s[i] == d[i - z];
        }
      }
    }
    if |d| > 0 {
      var init := d[..|d| - 1];
      assert s[..|s| - 1] == Zeros(z) + init;
      LeadingZerosValue(z, init);
    } else if z > 0 {
      assert s == Zeros(z);
      assert s[..|s| - 1] == Zeros(z - 1) + [];
      LeadingZerosValue(z - 1, []);
    }
  }

  /** A `+` sign or leading zeros in front of a number's digits read as the
      number itself, and a `-` sign as its negation, exactly as its canonical
      decimal form does: `007` and `+7` are 7, `-007` is -7. */
  lemma AtoiPadded(sign: string, z: nat, n: nat)
    requires sign == "" || sign == "+" || sign == "-"
    ensures Atoi(sign + Zeros(z) + NatDigits(n)) == Atoi(Itoa(if sign == "-" then -(n as int) else n))
  {
    var s := sign + Zeros(z) + NatDigits(n);
    var m: int := if sign == "-" then -(n as int) else n;
    UnsignedPadded(sign, z, NatDigits(n));
    LeadingZerosValue(z, NatDigits(n));
    NatDigitsValue(n);
    AtoiOfValue(s, m);
    AtoiItoa(m);
  }

  /** Signed text whose digits are worth `|m|` reads as `m`, when it fits. */
  lemma AtoiOfValue(s: string, m: int)
    requires |s| > 0 && |Unsigned(s)| > 0 && AllDigits(Unsigned(s))
    requires (s[0] == '-' <==> m < 0) || m == 0
    requires DigitsValue(Unsigned(s)) as int == if m < 0 then -m else m
    ensures Atoi(s) == if MinInt <= m <= MaxInt then Some(m) else None
  {
  }

  lemma UnsignedPadded(sign: string, z: nat, d: string)
    requires sign == "" || sign == "+" || sign == "-"
    requires |d| > 0 && AllDigits(d)
    ensures var s := sign + Zeros(z) + d;
      && |s| > 0 && Unsigned(s) == Zeros(z) + d && (s[0] == '-' <==> sign == "-")
  {
    var s := sign + Zeros(z) + d;
    if sign == "" {
      assert s == Zeros(z) + d;
      if z > 0 {
        assert s[0] == Zeros(z)[0];
      } else {
        assert s[0] == d[0];
      }
    } else {
      assert s[0] == sign[0];
      assert s[1..] == Zeros(z) + d;
    }
  }

  /** Surrounding whitespace and an empty sign are syntax errors. */
  lemma AtoiRejectsMalformed()
    ensures Atoi("") == None && Atoi("+") == None && Atoi("-") == None
    ensures Atoi(" 1") == None && Atoi("1 ") == None && Atoi("1_0") == None
    ensures Atoi("-0") == Some(0) && Atoi("+07") == Some(7)
  {
    assert "07"[..1] == "0";
  }
}
