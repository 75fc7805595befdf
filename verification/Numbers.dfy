/** Decimal text of numbers, as the stream operators and `atoi` treat it. */
module Numbers {

  predicate IsDigit(c: char) {
    '0' <= c <= '9'
  }

  lemma Digits()
    ensures forall c :: IsDigit(c) <==> c in "0123456789"
  {
    forall c | IsDigit(c) ensures c in "0123456789" {
      var digits := "0123456789";
      assert c == digits[c as int - '0' as int];
    }
  }

  predicate AllDigits(s: string) {
    forall i :: 0 <= i < |s| ==> IsDigit(s[i])
  }

  function Digit(d: nat): (c: char)
    requires d < 10
    ensures IsDigit(c) && c as int - '0' as int == d
  {
    ('0' as int + d) as char
  }

  function Decimal(n: nat): string {
    if n < 10 then [Digit(n)] else Decimal(n / 10) + [Digit(n % 10)]
  }

  /** `atoi` of a string of digits. */
  function Value(s: string): nat
    requires AllDigits(s)
  {
    if s == "" then 0 else 10 * Value(s[..|s| - 1]) + (s[|s| - 1] as int - '0' as int)
  }

  lemma {:induction false} ValueOfDecimal(n: nat)
    ensures Decimal(n) != "" && AllDigits(Decimal(n)) && Value(Decimal(n)) == n
  {
    if n >= 10 {
      ValueOfDecimal(n / 10);
      assert Decimal(n)[..|Decimal(n)| - 1] == Decimal(n / 10);
    } else {
      assert Decimal(n)[..0] == "";
    }
  }

  lemma DecimalInjective(m: nat, n: nat)
    requires Decimal(m) == Decimal(n)
    ensures m == n
  {
    ValueOfDecimal(m);
    ValueOfDecimal(n);
  }

  function Power10(k: nat): nat {
    if k == 0 then 1 else 10 * Power10(k - 1)
  }

  lemma {:induction false} DecimalLength(n: nat, k: nat)
    requires k > 0 && n < Power10(k)
    ensures |Decimal(n)| <= k
  {
    if n >= 10 { DecimalLength(n / 10, k - 1); }
  }

  /** Digits count by their place, the first one most, and no number is written with a needless zero. */
  lemma {:induction false} PlaceValue(a: string, b: string)
    requires AllDigits(a) && AllDigits(b)
    ensures AllDigits(a + b) && Value(a + b) == Value(a) * Power10(|b|) + Value(b)
    decreases |b|
  {
    if b == "" {
      assert a + b == a;
    } else {
      var front, c := b[..|b| - 1], b[|b| - 1];
      PlaceValue(a, front);
      assert (a + b)[..|a + b| - 1] == a + front;
      assert Value(a) * (10 * Power10(|front|)) == 10 * (Value(a) * Power10(|front|));
    }
  }

  lemma {:induction false} NoLeadingZero(n: nat)
    ensures Decimal(n)[0] == '0' <==> n == 0
  {
    ValueOfDecimal(n);
    if n >= 10 { NoLeadingZero(n / 10); }
  }

  /** `setw(3)` with fill character '0'. */
  function Pad3(n: nat): string {
    var s := Decimal(n);
    if |s| == 1 then "00" + s else if |s| == 2 then "0" + s else s
  }

  lemma {:induction false} LeadingZero(s: string)
    requires AllDigits(s)
    ensures AllDigits("0" + s) && Value("0" + s) == Value(s)
  {
    if s == "" {
      assert ("0" + s)[..0] == "";
    } else {
      LeadingZero(s[..|s| - 1]);
      assert ("0" + s)[..|s|] == "0" + s[..|s| - 1];
    }
  }

  lemma ValueOfPad3(n: nat)
    requires n < 1000
    ensures |Pad3(n)| == 3 && AllDigits(Pad3(n)) && Value(Pad3(n)) == n
  {
    var s := Decimal(n);
    ValueOfDecimal(n);
    assert Power10(3) == 1000;
    DecimalLength(n, 3);
    LeadingZero(s);
    LeadingZero("0" + s);
    assert "0" + ("0" + s) == "00" + s;
  }
}
