/** Decimal numbers as text, and the byte order in which the database compares
    text. */
module Text {

  predicate IsDigit(c: char) { '0' <= c <= '9' }

  predicate AllDigits(s: string) { forall i :: 0 <= i < |s| ==> IsDigit(s[i]) }

  function DigitChar(d: int): (c: char)
    requires 0 <= d < 10
    ensures IsDigit(c)
  {
    d as char + '0'
  }

  function DigitValue(c: char): (d: int)
    requires IsDigit(c)
    ensures 0 <= d < 10 && DigitChar(d) == c
  {
    (c - '0') as int
  }

  /** Lexicographic order, the order of `<` and `BETWEEN` on stored text. */
  predicate TextLess(a: string, b: string) {
    b != [] && (a == [] || a[0] < b[0] || (a[0] == b[0] && TextLess(a[1..], b[1..])))
  }

  function Pow10(w: nat): (p: int)
    ensures p >= 1
  {
    if w == 0 then 1 else 10 * Pow10(w - 1)
  }

  /** `n` in exactly `w` digits, zero-padded. */
  function Digits(n: nat, w: nat): (s: string)
    ensures |s| == w && AllDigits(s)
  {
    if w == 0 then "" else Digits(n / 10, w - 1) + [DigitChar(n % 10)]
  }

  function ValueOf(s: string): (n: nat)
    requires AllDigits(s)
  {
    if s == "" then 0 else 10 * ValueOf(s[..|s| - 1]) + DigitValue(s[|s| - 1])
  }

  lemma {:induction false} ValueOfDigits(n: nat, w: nat)
    requires n < Pow10(w)
    ensures ValueOf(Digits(n, w)) == n
  {
    if w > 0 {
      ValueOfDigits(n / 10, w - 1);
      assert Digits(n, w)[..w - 1] == Digits(n / 10, w - 1);
    }
  }

  lemma {:induction false} DigitsOfValue(s: string)
    requires AllDigits(s)
    ensures ValueOf(s) < Pow10(|s|) && Digits(ValueOf(s), |s|) == s
  {
    if s != "" {
      DigitsOfValue(s[..|s| - 1]);
    }
  }

  /** Texts that start with fields of one width compare field by field. */
  lemma {:induction false} FieldwiseOrder(a: string, b: string, restA: string, restB: string)
    requires |a| == |b|
    ensures TextLess(a + restA, b + restB) <==> TextLess(a, b) || (a == b && TextLess(restA, restB))
  {
    if a == [] {
      assert a + restA == restA && b + restB == restB;
    } else {
      assert (a + restA)[1..] == a[1..] + restA && (b + restB)[1..] == b[1..] + restB;
      assert a[0] == b[0] && a[1..] == b[1..] <==> a == b by {
        assert a == [a[0]] + a[1..] && b == [b[0]] + b[1..];
      }
      FieldwiseOrder(a[1..], b[1..], restA, restB);
    }
  }

  /** Zero-padded numbers compare as text exactly as they compare as numbers. */
  lemma {:induction false} DigitsOrder(n: nat, m: nat, w: nat)
    requires n < Pow10(w) && m < Pow10(w)
    ensures TextLess(Digits(n, w), Digits(m, w)) <==> n < m
    ensures Digits(n, w) == Digits(m, w) <==> n == m
  {
    ValueOfDigits(n, w);
    ValueOfDigits(m, w);
    if w > 0 {
      DigitsOrder(n / 10, m / 10, w - 1);
      FieldwiseOrder(Digits(n / 10, w - 1), Digits(m / 10, w - 1), [DigitChar(n % 10)], [DigitChar(m % 10)]);
      assert TextLess([DigitChar(n % 10)], [DigitChar(m % 10)]) <==> n % 10 < m % 10;
    }
  }

  /** Texts with equal separators after fields of one width. */
  lemma SeparatedOrder(a: string, b: string, sep: char, restA: string, restB: string)
    requires |a| == |b|
    ensures TextLess(a + [sep] + restA, b + [sep] + restB) <==>
              TextLess(a, b) || (a == b && TextLess(restA, restB))
  {
    assert a + [sep] + restA == a + ([sep] + restA) && b + [sep] + restB == b + ([sep] + restB);
    FieldwiseOrder(a, b, [sep] + restA, [sep] + restB);
    FieldwiseOrder([sep], [sep], restA, restB);
    LessIsIrreflexive([sep]);
  }

  lemma {:induction false} LessIsIrreflexive(a: string)
    ensures !TextLess(a, a)
  {
    if a != [] { LessIsIrreflexive(a[1..]); }
  }

  // ---- unpadded numbers ----

  /** `n` with no leading zeros. */
  function Decimal(n: nat): (s: string)
    ensures s != "" && AllDigits(s)
  {
    if n < 10 then [DigitChar(n)] else Decimal(n / 10) + [DigitChar(n % 10)]
  }

  lemma {:induction false} ValueOfDecimal(n: nat)
    ensures ValueOf(Decimal(n)) == n
  {
    if n >= 10 {
      ValueOfDecimal(n / 10);
      assert Decimal(n)[..|Decimal(n)| - 1] == Decimal(n / 10);
    }
  }

  lemma DecimalIsInjective(n: nat, m: nat)
    requires Decimal(n) == Decimal(m)
    ensures n == m
  {
    ValueOfDecimal(n);
    ValueOfDecimal(m);
  }

  /** A separator that the first fields do not contain splits a text in one way. */
  lemma {:induction false} SplitsOnce(a: string, b: string, sep: char, restA: string, restB: string)
    requires a + [sep] + restA == b + [sep] + restB
    requires sep !in a && sep !in b
    ensures a == b && restA == restB
  {
    HeadOf(a, sep, restA);
    HeadOf(b, sep, restB);
    if a != [] {
      SplitsOnce(a[1..], b[1..], sep, restA, restB);
      assert a == [a[0]] + a[1..] && b == [b[0]] + b[1..];
    }
  }

  lemma HeadOf(a: string, sep: char, rest: string)
    requires sep !in a
    ensures var x := a + [sep] + rest;
            && (x[0] == sep <==> a == [])
            && x[1..] == (if a == [] then rest else a[1..] + [sep] + rest)
            && (a != [] ==> x[0] == a[0])
  {
    var x := a + [sep] + rest;
    if a == [] {
      assert x == [sep] + rest;
    } else {
      assert a[0] in a;
      assert x[1..] == a[1..] + [sep] + rest;
    }
  }

  // ---- trimming ----

  /** ASCII white space. */
  predicate IsSpace(c: char) {
    c == ' ' || 9 <= c as int <= 13
  }

  function TrimStart(s: string): (r: string)
    ensures |r| <= |s|
    ensures r != "" ==> !IsSpace(r[0])
  {
    if s != "" && IsSpace(s[0]) then TrimStart(s[1..]) else s
  }

  function TrimEnd(s: string): (r: string)
    ensures r <= s
    ensures r != "" ==> !IsSpace(r[|r| - 1])
  {
    if s != "" && IsSpace(s[|s| - 1]) then TrimEnd(s[..|s| - 1]) else s
  }

  function Trim(s: string): string {
    TrimEnd(TrimStart(s))
  }

  lemma TrimmedIsFixed(s: string)
    requires s == "" || (!IsSpace(s[0]) && !IsSpace(s[|s| - 1]))
    ensures Trim(s) == s
  {
  }

  predicate IsBlank(s: string) {
    forall i :: 0 <= i < |s| ==> s[i] in {' ', '\t', '\n', 11 as char, 12 as char, '\r'}
  }

  lemma {:induction false} TrimStartIs(s: string)
    ensures exists front :: IsBlank(front) && s == front + TrimStart(s)
  {
    if s != "" && IsSpace(s[0]) {
      TrimStartIs(s[1..]);
      var front :| IsBlank(front) && s[1..] == front + TrimStart(s[1..]);
      assert IsBlank([s[0]] + front) && s == [s[0]] + front + TrimStart(s);
    } else {
      assert IsBlank("") && s == "" + TrimStart(s);
    }
  }

  lemma {:induction false} TrimEndIs(s: string)
    ensures exists back :: IsBlank(back) && s == TrimEnd(s) + back
  {
    if s != "" && IsSpace(s[|s| - 1]) {
      var init := s[..|s| - 1];
      TrimEndIs(init);
      var back :| IsBlank(back) && init == TrimEnd(init) + back;
      assert IsBlank(back + [s[|s| - 1]]) && s == TrimEnd(s) + (back + [s[|s| - 1]]);
    } else {
      assert IsBlank("") && s == TrimEnd(s) + "";
    }
  }

  /** Trimming takes just the white space at both ends. */
  lemma TrimIs(s: string)
    ensures exists front, back :: IsBlank(front) && IsBlank(back) && s == front + Trim(s) + back
    ensures Trim(s) != "" ==> !IsBlank(Trim(s)[..1]) && !IsBlank(Trim(s)[|Trim(s)| - 1..])
  {
    TrimStartIs(s);
    var t := TrimStart(s);
    TrimEndIs(t);
    var front :| IsBlank(front) && s == front + t;
    var back :| IsBlank(back) && t == TrimEnd(t) + back;
    assert s == front + Trim(s) + back;
    if Trim(s) != "" {
      assert Trim(s)[0] == t[0];
      var first, last := Trim(s)[..1], Trim(s)[|Trim(s)| - 1..];
      assert first[0] == Trim(s)[0] && last[0] == Trim(s)[|Trim(s)| - 1];
    }
  }
}
