/** Decimal printing and reading of integers: `strconv.FormatInt(id, 10)`, the
    `%d` verb and `strconv.Atoi`. */
module Decimals {
  import opened Bytes

  predicate IsDigit(c: Byte) {
    '0' <= c <= '9'
  }

  predicate AllDigits(s: Text) {
    forall i | 0 <= i < |s| :: IsDigit(s[i])
  }

  function Digit(d: nat): (c: Byte)
    requires d < 10
    ensures IsDigit(c) && c as int - '0' as int == d
  {
    ('0' as int + d) as char
  }

  function Decimal(n: nat): (s: Text)
    ensures s != "" && AllDigits(s)
  {
    if n < 10 then [Digit(n)] else Decimal(n / 10) + [Digit(n % 10)]
  }

  function DigitsValue(s: Text): nat
    requires AllDigits(s)
  {
    if s == "" then 0
    else 10 * DigitsValue(s[..|s| - 1]) + (s[|s| - 1] as int - '0' as int)
  }

  /** `strconv.Atoi` on unbounded integers: an optional sign and at least one
      digit, nothing else. */
  function Atoi(s: Text): Option<int> {
    var digits := if s != "" && (s[0] == '+' || s[0] == '-') then s[1..] else s;
    if digits == "" || !AllDigits(digits) then None
    else if s[0] == '-' then Some(0 - DigitsValue(digits) as int)
    else Some(DigitsValue(digits))
  }

  lemma {:induction false} DigitsValueDecimal(n: nat)
    ensures DigitsValue(Decimal(n)) == n
  {
    var s := Decimal(n);
    if n < 10 {
      assert s[..|s| - 1] == "";
    } else {
      assert s[..|s| - 1] == Decimal(n / 10);
      DigitsValueDecimal(n / 10);
    }
  }

  /** Reading back what was printed gives the number. */
  lemma AtoiDecimal(n: nat)
    ensures Atoi(Decimal(n)) == Some(n)
  {
    assert IsDigit(Decimal(n)[0]);
    DigitsValueDecimal(n);
  }

  /** Two ids never share a key of the pending table. */
  lemma DecimalInjective(m: nat, n: nat)
    requires Decimal(m) == Decimal(n)
    ensures m == n
  {
    DigitsValueDecimal(m);
    DigitsValueDecimal(n);
  }

  // -------------------------------------------------------------- the spelling

  /** A printed number has only digits, and no zero in front unless it is zero. */
  lemma {:induction false} DecimalCanonical(n: nat)
    ensures forall i | 0 <= i < |Decimal(n)| :: Decimal(n)[i] in "0123456789"
    ensures if n == 0 then Decimal(n) == "0" else Decimal(n)[0] != '0'
  {
    if n >= 10 {
      DecimalCanonical(n / 10);
    }
    forall i | 0 <= i < |Decimal(n)| ensures Decimal(n)[i] in "0123456789" {
      DigitListed(Decimal(n)[i]);
    }
  }

  lemma DigitListed(c: Byte)
    ensures IsDigit(c) <==> c in "0123456789"
  {
    if IsDigit(c) {
      assert "0123456789"[c as int - 48] == c;
    }
  }

  function Zeros(k: nat): Text {
    seq(k, _ => '0')
  }

  lemma ValueNext(s: Text, c: Byte)
    requires AllDigits(s) && IsDigit(c)
    ensures AllDigits(s + [c]) && DigitsValue(s + [c]) == 10 * DigitsValue(s) + (c as int - 48)
  {
    assert (s + [c])[..|s|] == s;
  }

  lemma {:induction false} ZerosBefore(k: nat, n: nat)
    ensures AllDigits(Zeros(k) + Decimal(n)) && DigitsValue(Zeros(k) + Decimal(n)) == n
    decreases n, k
  {
    if n >= 10 {
      ZerosBefore(k, n / 10);
      assert Zeros(k) + Decimal(n) == Zeros(k) + Decimal(n / 10) + [Digit(n % 10)];
      ValueNext(Zeros(k) + Decimal(n / 10), Digit(n % 10));
    } else {
      ZerosValue(k);
      ValueNext(Zeros(k), Digit(n));
    }
  }

  lemma {:induction false} ZerosValue(k: nat)
    ensures AllDigits(Zeros(k)) && DigitsValue(Zeros(k)) == 0
  {
    if k > 0 {
      ZerosValue(k - 1);
      assert Zeros(k) == Zeros(k - 1) + ['0'];
      ValueNext(Zeros(k - 1), '0');
    }
  }

  /** Digits are the printed form of their value with some zeros in front. */
  lemma {:induction false} DigitsSpelled(s: Text) returns (k: nat)
    requires s != "" && AllDigits(s)
    ensures s == Zeros(k) + Decimal(DigitsValue(s))
  {
    var front, c := s[..|s| - 1], s[|s| - 1];
    assert s == front + [c];
    var d: nat := c as int - 48;
    assert Digit(d) == c;
    if front == "" {
      k := 0;
      assert Zeros(0) + Decimal(d) == [c];
    } else {
      k := DigitsSpelled(front);
      var m := DigitsValue(front);
      NextSpelled(k, m, d);
      k := if m == 0 then k + 1 else k;
    }
  }

  lemma NextSpelled(k: nat, m: nat, d: nat)
    requires d < 10
    ensures Zeros(k) + Decimal(m) + [Digit(d)] == Zeros(if m == 0 then k + 1 else k) + Decimal(10 * m + d)
  {
    if m == 0 {
      assert Zeros(k) + "0" == Zeros(k + 1);
    } else {
      assert Decimal(10 * m + d) == Decimal(m) + [Digit(d)];
    }
  }

  predicate Sign(sign: Text) {
    sign == "" || sign == "+" || sign == "-"
  }

  function Signed(sign: Text, n: nat): int {
    if sign == "-" then 0 - n as int else n
  }

  /** What reads as a number, and as which: an optional sign, any number of zeros and a
      printed number, and nothing else. */
  lemma AtoiIff(s: Text, v: int)
    ensures Atoi(s) == Some(v) <==>
            exists sign, k, n :: Sign(sign) && s == sign + (Zeros(k) + Decimal(n)) && v == Signed(sign, n)
  {
    if Atoi(s) == Some(v) {
      AtoiSpelled(s, v);
    }
    if sign, k, n :| Sign(sign) && s == sign + (Zeros(k) + Decimal(n)) && v == Signed(sign, n) {
      SpelledAtoi(sign, k, n);
    }
  }

  lemma AtoiSpelled(s: Text, v: int)
    requires Atoi(s) == Some(v)
    ensures exists sign, k, n :: Sign(sign) && s == sign + (Zeros(k) + Decimal(n)) && v == Signed(sign, n)
  {
    var sign := if s[0] == '+' || s[0] == '-' then s[..1] else "";
    var digits := s[|sign|..];
    assert s == sign + digits;
    var k := DigitsSpelled(digits);
    assert Sign(sign);
    assert v == Signed(sign, DigitsValue(digits));
  }

  lemma AtoiSigned(sign: Text, digits: Text)
    requires Sign(sign) && digits != "" && AllDigits(digits)
    ensures Atoi(sign + digits) == Some(Signed(sign, DigitsValue(digits)))
  {
    assert IsDigit(digits[0]);
    if sign == "" {
      assert sign + digits == digits;
    } else {
      assert (sign + digits)[1..] == digits;
    }
  }

  lemma SpelledAtoi(sign: Text, k: nat, n: nat)
    requires Sign(sign)
    ensures Atoi(sign + (Zeros(k) + Decimal(n))) == Some(Signed(sign, n))
  {
    ZerosBefore(k, n);
    AtoiSigned(sign, Zeros(k) + Decimal(n));
  }
}
