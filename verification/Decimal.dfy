/** `strconv.Itoa` and `strconv.Atoi` on a 64-bit `int`. */
module Decimal {
  import opened Wrappers

  const MAX_INT := 0x7FFF_FFFF_FFFF_FFFF
  const MIN_INT := -0x8000_0000_0000_0000

  predicate IsInt(n: int) { MIN_INT <= n <= MAX_INT }

  function Digits(n: nat): string {
    if n < 10 then ['0' + n as char] else Digits(n / 10) + ['0' + (n % 10) as char]
  }

  function Itoa(n: int): string {
    if n < 0 then "-" + Digits(-n) else Digits(n)
  }

  predicate AllDigits(s: string) {
    forall k :: 0 <= k < |s| ==> '0' <= s[k] <= '9'
  }

  function Value(s: string): nat
    requires AllDigits(s)
  {
    if s == "" then 0 else Value(s[..|s| - 1]) * 10 + (s[|s| - 1] as int - '0' as int)
  }

  /** One optional sign, then at least one digit and nothing else, and in range. */
  function Atoi(s: string): Option<int> {
    var signed := s != "" && (s[0] == '-' || s[0] == '+');
    var digits := if signed then s[1..] else s;
    if digits == "" || !AllDigits(digits) then None
    else
      var n: int := if s[0] == '-' then 0 - Value(digits) else Value(digits);
      if IsInt(n) then Some(n) else None
  }

  function Pow10(k: nat): nat {
    if k == 0 then 1 else 10 * Pow10(k - 1)
  }

  lemma TimesTen(a: nat, p: nat, b: nat, d: nat)
    ensures (a * p + b) * 10 + d == a * (10 * p) + (b * 10 + d)
  {}

  /** Each digit counts ten times as much as the one after it. */
  lemma {:induction false} ValueConcat(a: string, b: string)
    requires AllDigits(a) && AllDigits(b)
    ensures AllDigits(a + b) && Value(a + b) == Value(a) * Pow10(|b|) + Value(b)
    decreases |b|
  {
    if b == "" {
      assert a + b == a;
    } else {
      var before := b[..|b| - 1];
      assert (a + b)[..|a + b| - 1] == a + before;
      ValueConcat(a, before);
      TimesTen(Value(a), Pow10(|before|), Value(before), b[|b| - 1] as int - '0' as int);
    }
  }

  lemma {:induction false} DigitsValue(n: nat)
    ensures Digits(n) != "" && AllDigits(Digits(n)) && Value(Digits(n)) == n
    ensures Digits(n)[0] == '0' ==> n == 0
    ensures Digits(n)[0] != '-' && Digits(n)[0] != '+'
  {
    if n >= 10 {
      DigitsValue(n / 10);
      var last := ['0' + (n % 10) as char];
      assert (Digits(n / 10) + last)[..|Digits(n)| - 1] == Digits(n / 10);
    }
  }

  predicate IsSign(sign: string) { sign == "-" || sign == "+" || sign == "" }

  lemma ParseSigned(sign: string, d: string)
    requires d != "" && AllDigits(d) && IsSign(sign)
    ensures var n: int := if sign == "-" then 0 - Value(d) else Value(d);
            Atoi(sign + d) == if IsInt(n) then Some(n) else None
  {
    if sign == "" {
      assert sign + d == d && '0' <= d[0] <= '9';
    } else {
      assert (sign + d)[0] == sign[0] && (sign + d)[1..] == d;
    }
  }

  /** A text that parses is an optional sign and digits. */
  lemma ParsedShape(s: string) returns (sign: string, d: string)
    requires Atoi(s).Some?
    ensures s == sign + d && d != "" && AllDigits(d) && IsSign(sign)
  {
    var signed := s[0] == '-' || s[0] == '+';
    sign, d := if signed then [s[0]] else "", if signed then s[1..] else s;
  }

  predicate AllZeros(s: string) { forall k :: 0 <= k < |s| ==> s[k] == '0' }

  lemma {:induction false} ZerosValue(zeros: string, d: string)
    requires AllZeros(zeros) && AllDigits(d)
    ensures AllDigits(zeros + d) && Value(zeros + d) == Value(d)
    decreases |zeros|
  {
    if zeros == "" {
      assert zeros + d == d;
    } else {
      var fewer := zeros[..|zeros| - 1];
      ZerosValue(fewer, "0" + d);
      assert fewer + ("0" + d) == zeros + d;
      ValueConcat("0", d);
      assert "0"[..0] == "";
    }
  }

  /** Digits are the digits of their value behind some zeros. */
  lemma {:induction false} DigitsOfValue(s: string) returns (zeros: string)
    requires s != "" && AllDigits(s)
    ensures AllZeros(zeros) && s == zeros + Digits(Value(s))
    decreases |s|
  {
    var before, last := s[..|s| - 1], s[|s| - 1];
    assert s == before + [last];
    if before == "" {
      zeros := "";
    } else {
      zeros := DigitsOfValue(before);
      if Value(before) == 0 { zeros := zeros + "0"; }
    }
  }

  /** `s` writes `n` in decimal: an optional sign, any number of zeros, and the digits of `n`. */
  ghost predicate Writes(s: string, sign: string, zeros: string, n: int) {
    && s == sign + zeros + Digits(if n < 0 then -n else n) && AllZeros(zeros)
    && IsSign(sign) && (n < 0 ==> sign == "-") && (n > 0 ==> sign != "-")
  }

  /** A text parses exactly when it writes a number of 64 bits, and as that number. */
  lemma AtoiExactly(s: string, n: int)
    ensures Atoi(s) == Some(n) <==>
            -9223372036854775808 <= n <= 9223372036854775807 && exists sign, zeros :: Writes(s, sign, zeros, n)
  {
    if Atoi(s) == Some(n) { ParsedIsWritten(s, n); }
    if IsInt(n) {
      forall sign, zeros | Writes(s, sign, zeros, n) ensures Atoi(s) == Some(n) { WrittenParses(s, sign, zeros, n); }
    }
  }

  lemma ParsedIsWritten(s: string, n: int)
    requires Atoi(s) == Some(n)
    ensures exists sign, zeros :: Writes(s, sign, zeros, n)
  {
    var sign, d := ParsedShape(s);
    ParseSigned(sign, d);
    var zeros := DigitsOfValue(d);
    SignedWrites(s, sign, zeros, Value(d), n);
  }

  lemma SignedWrites(s: string, sign: string, zeros: string, v: nat, n: int)
    requires s == sign + (zeros + Digits(v)) && AllZeros(zeros) && IsSign(sign)
    requires n == if sign == "-" then 0 - v else v
    ensures Writes(s, sign, zeros, n)
  {
    assert s == sign + zeros + Digits(v);
  }

  lemma Joined(s: string, a: string, b: string, c: string)
    requires s == a + b + c
    ensures s == a + (b + c)
  {}

  lemma WrittenParses(s: string, sign: string, zeros: string, n: int)
    requires IsInt(n) && Writes(s, sign, zeros, n)
    ensures Atoi(s) == Some(n)
  {
    var v := if n < 0 then -n else n;
    Joined(s, sign, zeros, Digits(v));
    DigitsValue(v);
    ZerosValue(zeros, Digits(v));
    ParseSigned(sign, zeros + Digits(v));
  }

  /** Printing then parsing any machine integer gives it back. */
  lemma RoundTrip(n: int)
    requires IsInt(n)
    ensures Atoi(Itoa(n)) == Some(n) && Writes(Itoa(n), if n < 0 then "-" else "", "", n)
  {
    DigitsValue(if n < 0 then -n else n);
    assert Itoa(n) == (if n < 0 then "-" else "") + "" + Digits(if n < 0 then -n else n);
    if n < 0 { ParseSigned("-", Digits(-n)); } else { ParseSigned("", Digits(n)); assert "" + Digits(n) == Digits(n); }
  }
}
