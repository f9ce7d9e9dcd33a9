/** Decimal text for identifier suffixes: Python's `int(text)` on a string
    (base 10) and `f"{n}"` for a natural number, with the round trip between them. */
module PyInt {
  import opened Base

  /** The characters `int()` drops around a literal: the ASCII space, tab,
      line feed, vertical tab, form feed and carriage return, and the
      white-space characters beyond ASCII. The ASCII separators U+001C to
      U+001F are not among them. */
  predicate IsSpace(c: char)
  {
    c == ' ' || 9 <= c as int <= 13 || c as int == 0x85 || c as int == 0xA0
    || c as int == 0x1680 || 0x2000 <= c as int <= 0x200A || c as int == 0x2028 || c as int == 0x2029
    || c as int == 0x202F || c as int == 0x205F || c as int == 0x3000
  }

  predicate IsDigit(c: char)
  {
    '0' <= c <= '9'
  }

  function DigitValue(c: char): nat
  {
    if IsDigit(c) then c as int - '0' as int else 0
  }

  function DigitChar(d: nat): (c: char)
    requires d < 10
    ensures IsDigit(c) && DigitValue(c) == d
  {
    ('0' as int + d) as char
  }

  function StripLeft(s: string): string
  {
    if s != [] && IsSpace(s[0]) then StripLeft(s[1..]) else s
  }

  function StripRight(s: string): string
  {
    if s != [] && IsSpace(s[|s| - 1]) then StripRight(s[..|s| - 1]) else s
  }

  /** The digit part of an integer literal as `int()` accepts it: digits, where a
      single `_` may separate two digits. */
  predicate DigitGroups(s: string)
  {
    && s != []
    && IsDigit(s[0]) && IsDigit(s[|s| - 1])
    && (forall i :: 0 <= i < |s| ==> IsDigit(s[i]) || s[i] == '_')
    && (forall i :: 0 < i < |s| ==> s[i - 1] == '_' ==> s[i] != '_')
  }

  /** The value of the digits of `s`, underscores skipped. */
  function DigitsValue(s: string): nat
  {
    if s == [] then 0
    else if s[|s| - 1] == '_' then DigitsValue(s[..|s| - 1])
    else DigitsValue(s[..|s| - 1]) * 10 + DigitValue(s[|s| - 1])
  }

  /** `int(s)`: `None` stands for the `ValueError` it raises. Leading and
      trailing white space are dropped, then one optional sign is read. */
  function ParseInt(s: string): (r: Option<int>)
    ensures StripRight(StripLeft(s)) == [] ==> r.None?
    ensures DigitGroups(s) ==> r == Some(DigitsValue(s))
    ensures DigitGroups(StripRight(StripLeft(s))) ==> r == Some(DigitsValue(StripRight(StripLeft(s))))
    ensures s != [] && s[0] == '-' && DigitGroups(s[1..]) ==> r == Some(-(DigitsValue(s[1..]) as int))
  {
    var t := StripRight(StripLeft(s));
    if t != [] && (t[0] == '+' || t[0] == '-') then
      if DigitGroups(t[1..]) then
        var v: int := DigitsValue(t[1..]);
        Some(if t[0] == '-' then -v else v)
      else None
    else if DigitGroups(t) then Some(DigitsValue(t))
    else None
  }

  /** `str(n)` for a natural number: no sign, no leading zero. */
  function Decimal(n: nat): (r: string)
    ensures r != [] && forall i :: 0 <= i < |r| ==> IsDigit(r[i])
    ensures r[0] != '0' || n == 0
  {
    if n < 10 then [DigitChar(n)] else Decimal(n / 10) + [DigitChar(n % 10)]
  }

  lemma {:induction false} DecimalValue(n: nat)
    ensures DigitsValue(Decimal(n)) == n
  {
    var r := Decimal(n);
    if n < 10 {
      assert r[..|r| - 1] == [];
    } else {
      assert r[..|r| - 1] == Decimal(n / 10);
      DecimalValue(n / 10);
    }
  }

  /** Printing a natural number and reading it back with `int()` gives the number. */
  lemma {:induction false} ParseDecimal(n: nat)
    ensures ParseInt(Decimal(n)) == Some(n)
  {
    var r := Decimal(n);
    assert IsDigit(r[0]) && IsDigit(r[|r| - 1]);
    assert !IsSpace(r[0]) && !IsSpace(r[|r| - 1]);
    assert StripLeft(r) == r;
    assert StripRight(r) == r;
    assert r[0] != '+' && r[0] != '-';
    assert DigitGroups(r);
    DecimalValue(n);
  }

  /** Distinct numbers print differently. */
  lemma DecimalInjective(m: nat, n: nat)
    requires Decimal(m) == Decimal(n)
    ensures m == n
  {
    ParseDecimal(m);
    ParseDecimal(n);
  }
}
