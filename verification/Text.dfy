/** Trimming and reading the texts of requests, as the standard library does it. */
module Text {
  import opened Common

  // ---------- trimming ----------

  predicate IsSpace(c: char) {
    var n := c as int;
    9 <= n <= 13 || n in {0x20, 0x85, 0xA0, 0x1680, 0x2028, 0x2029, 0x202F, 0x205F, 0x3000} || 0x2000 <= n <= 0x200A
  }

  function TrimLeft(s: string): string {
    if s != [] && IsSpace(s[0]) then TrimLeft(s[1..]) else s
  }

  function TrimRight(s: string): string {
    if s != [] && IsSpace(s[|s| - 1]) then TrimRight(s[..|s| - 1]) else s
  }

  function Trimmed(s: string): string {
    TrimRight(TrimLeft(s))
  }

  lemma {:induction false} TrimRightKeepsStart(s: string)
    requires s == [] || !IsSpace(s[0])
    ensures TrimRight(s) == [] || (TrimRight(s)[0] == s[0] && s != [])
  {
    if s != [] && IsSpace(s[|s| - 1]) {
      TrimRightKeepsStart(s[..|s| - 1]);
    }
  }

  lemma {:induction false} TrimLeftEnds(s: string)
    ensures TrimLeft(s) == [] || !IsSpace(TrimLeft(s)[0])
  {
    if s != [] && IsSpace(s[0]) {
      TrimLeftEnds(s[1..]);
    }
  }

  lemma {:induction false} TrimRightEnds(s: string)
    ensures TrimRight(s) == [] || !IsSpace(TrimRight(s)[|TrimRight(s)| - 1])
  {
    if s != [] && IsSpace(s[|s| - 1]) {
      TrimRightEnds(s[..|s| - 1]);
    }
  }

  lemma TrimmedTwice(s: string)
    ensures Trimmed(Trimmed(s)) == Trimmed(s)
  {
    TrimLeftEnds(s);
    TrimRightKeepsStart(TrimLeft(s));
    TrimRightEnds(TrimLeft(s));
  }

  /** Of the first 256 characters these are space. */
  lemma LatinSpaces(c: char)
    requires c as int < 256
    ensures IsSpace(c) <==> c in "\t\n\U{0B}\U{0C}\r \U{85}\U{A0}"
  {
  }

  // ---------- whole numbers ----------

  predicate IsDigit(c: char) {
    '0' <= c <= '9'
  }

  predicate AllDigits(s: string) {
    forall i :: 0 <= i < |s| ==> IsDigit(s[i])
  }

  function DigitsValue(s: string): nat
    requires AllDigits(s)
  {
    if s == "" then 0 else 10 * DigitsValue(s[..|s| - 1]) + (s[|s| - 1] as int - '0' as int)
  }

  predicate IsInt(n: int) {
    -MAX_INT - 1 <= n <= MAX_INT
  }

  function IntOrNone(n: int): Option<int> {
    if IsInt(n) then Some(n) else None
  }

  /** An optional sign and decimal digits, within 64 bits; anything else is an error. */
  function Atoi(s: string): Option<int> {
    var signed := s != "" && (s[0] == '-' || s[0] == '+');
    var digits := if signed then s[1..] else s;
    if digits == "" || !AllDigits(digits) then None
    else
      var size: int := DigitsValue(digits);
      var n := if signed && s[0] == '-' then -size else size;
      IntOrNone(n)
  }

  function Digit(d: nat): char
    requires d < 10
  {
    '0' + d as char
  }

  function Digits(n: nat): (s: string)
    ensures s != "" && AllDigits(s)
  {
    if n < 10 then [Digit(n)] else Digits(n / 10) + [Digit(n % 10)]
  }

  function Decimal(n: int): string {
    if n < 0 then "-" + Digits(-n) else Digits(n)
  }

  lemma DigitIsNoSpace(c: char)
    requires IsDigit(c) || c == '-'
    ensures !IsSpace(c)
  {
  }

  lemma DecimalIsTrimmed(n: int)
    ensures Trimmed(Decimal(n)) == Decimal(n) != ""
  {
    var s := Decimal(n);
    assert IsDigit(s[0]) || s[0] == '-';
    assert IsDigit(s[|s| - 1]);
    DigitIsNoSpace(s[0]);
    DigitIsNoSpace(s[|s| - 1]);
  }

  lemma {:induction false} DigitsRead(n: nat)
    ensures DigitsValue(Digits(n)) == n
  {
    if n < 10 {
      assert Digits(n)[..0] == "";
    } else {
      DigitsRead(n / 10);
      assert Digits(n)[..|Digits(n)| - 1] == Digits(n / 10);
    }
  }

  lemma UnsignedRead(digits: string)
    requires digits != "" && AllDigits(digits)
    ensures Atoi(digits) == IntOrNone(DigitsValue(digits))
  {
    hide DigitsValue;
    assert IsDigit(digits[0]);
  }

  lemma NegativeRead(digits: string)
    requires digits != "" && AllDigits(digits)
    ensures Atoi("-" + digits) == IntOrNone(-(DigitsValue(digits) as int))
  {
    hide DigitsValue;
    assert ("-" + digits)[1..] == digits;
  }

  /** A plus sign in front of a number changes nothing. */
  lemma PlusRead(n: nat)
    ensures Atoi("+" + Decimal(n)) == Atoi(Decimal(n)) == IntOrNone(n)
  {
    DigitsRead(n);
    UnsignedRead(Digits(n));
    hide DigitsValue, Digits;
    assert ("+" + Digits(n))[1..] == Digits(n);
  }

  /** The decimal text of a number reads back as that number exactly when 64 bits hold it. */
  lemma DecimalRead(n: int)
    ensures Atoi(Decimal(n)) == IntOrNone(n)
  {
    hide Atoi, Digits, DigitsValue;
    if n < 0 {
      DigitsRead(-n);
      NegativeRead(Digits(-n));
    } else {
      DigitsRead(n);
      UnsignedRead(Digits(n));
    }
  }

  lemma DecimalInjective(m: int, n: int)
    requires Decimal(m) == Decimal(n)
    ensures m == n
  {
    hide Digits, DigitsValue;
    var a, b := Digits(if m < 0 then -m else m), Digits(if n < 0 then -n else n);
    DigitsRead(if m < 0 then -m else m);
    DigitsRead(if n < 0 then -n else n);
    assert IsDigit(a[0]) && IsDigit(b[0]);
    assert ("-" + a)[1..] == a && ("-" + b)[1..] == b;
  }
}
