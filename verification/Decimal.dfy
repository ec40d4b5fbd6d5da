/** Decimal text of integers: `str(n)` and the reading of it by `int(text)` over ASCII digits. */
module Decimal {
  import opened Wrappers
  import opened Text

  predicate IsDigit(c: char) {
    '0' <= c <= '9'
  }

  function DigitChar(d: nat): (c: char)
    requires d < 10
    ensures IsDigit(c) && c as int - '0' as int == d
  {
    '0' + d as char
  }

  function Digits(n: nat): (s: string)
    ensures s != "" && forall c | c in s :: IsDigit(c)
  {
    if n < 10 then [DigitChar(n)] else Digits(n / 10) + [DigitChar(n % 10)]
  }

  /** `str(n)`. */
  function IntText(n: int): string {
    if n < 0 then "-" + Digits(-n) else Digits(n)
  }

  /** Digits with single underscores allowed between them, as `int` accepts. */
  function DigitsValue(s: string): Option<nat>
    decreases |s|
  {
    if s == "" || !IsDigit(Last(s)) then None
    else
      var d := Last(s) as int - '0' as int;
      if |s| == 1 then Some(d)
      else
        var init := Init(s);
        match DigitsValue(if Last(init) == '_' then Init(init) else init)
        case Some(v) => Some(10 * v + d)
        case None => None
  }

  /** `int(text)`, with None for the ValueError. */
  function ParseInt(text: string): Option<int> {
    var t := Strip(text, PythonSpace);
    if t == "" then None
    else
      var signed := t[0] == '-' || t[0] == '+';
      match DigitsValue(if signed then t[1..] else t)
      case Some(v) =>
        var value: int := v;
        Some(if t[0] == '-' then -value else value)
      case None => None
  }

  lemma {:induction false} DigitsValueInverts(n: nat)
    ensures DigitsValue(Digits(n)) == Some(n)
  {
    if n >= 10 {
      DigitsValueInverts(n / 10);
      var s := Digits(n);
      assert Init(s) == Digits(n / 10);
      assert Last(Init(s)) in Digits(n / 10);
    }
  }

  /** Reading the text of an integer gives that integer back. */
  lemma ParseIntText(n: int)
    ensures ParseInt(IntText(n)) == Some(n)
  {
    var t := IntText(n);
    var m: nat := if n < 0 then -n else n;
    DigitsValueInverts(m);
    IntTextStripped(n);
    StripStripped(t, PythonSpace);
    if n < 0 {
      assert t[1..] == Digits(m);
    } else {
      assert t[0] in Digits(m);
    }
  }

  lemma IntTextStripped(n: int)
    ensures Stripped(IntText(n), PythonSpace)
    ensures forall c | c in IntText(n) :: IsDigit(c) || c == '-'
  {
    var t := IntText(n);
    assert Last(t) in Digits(if n < 0 then -n else n);
    assert t[0] == '-' || t[0] in Digits(n);
  }

  /** Different integers have different texts. */
  lemma IntTextInjective(m: int, n: int)
    ensures IntText(m) == IntText(n) ==> m == n
  {
    ParseIntText(m);
    ParseIntText(n);
  }
}
