/** The text-to-number coercion the business rules rely on
    (`pd.to_numeric(..., errors='coerce')` on one text cell): a partial parse
    of a decimal literal, failing on everything else, the empty string
    included. */
module Numeric {
  import opened Wrappers

  predicate IsDigit(c: char)
  {
    '0' <= c <= '9'
  }

  predicate AllDigits(s: string)
  {
    forall i :: 0 <= i < |s| ==> IsDigit(s[i])
  }

  predicate HasDigit(s: string)
  {
    exists i :: 0 <= i < |s| && IsDigit(s[i])
  }

  function DigitValue(c: char): (d: nat)
    requires IsDigit(c)
    ensures d < 10
  {
    c as int - '0' as int
  }

  function DigitChar(d: nat): (c: char)
    requires d < 10
    ensures IsDigit(c) && DigitValue(c) == d
  {
    ('0' as int + d) as char
  }

  /** The value of a string of decimal digits, most significant first. */
  function DigitsValue(s: string): nat
    requires AllDigits(s)
    decreases |s|
  {
    if s == [] then 0 else DigitsValue(s[..|s| - 1]) * 10 + DigitValue(s[|s| - 1])
  }

  function Pow10(k: nat): (r: nat)
    ensures r >= 1
  {
    if k == 0 then 1 else 10 * Pow10(k - 1)
  }

  /** Position of the first '.' in `s`, or `|s|` when there is none. */
  function DotIndex(s: string): (i: nat)
    ensures i <= |s|
    ensures i < |s| ==> s[i] == '.'
    ensures forall j :: 0 <= j < i ==> s[j] != '.'
    decreases |s|
  {
    if s == [] then 0
    else if s[0] == '.' then 0
    else 1 + DotIndex(s[1..])
  }

  /** The value of the literal with whole digits `w` and fractional digits `f`. */
  function LiteralValue(w: string, f: string): (v: real)
    requires AllDigits(w) && AllDigits(f)
    ensures v >= 0.0
  {
    DigitsValue(w) as real + DigitsValue(f) as real / Pow10(|f|) as real
  }

  /** Whole digits, then a '.' and the fractional digits when `dot` holds. */
  function Literal(w: string, dot: bool, f: string): string
  {
    w + (if dot then "." + f else "")
  }

  /** An unsigned decimal literal: digits, optionally a '.' and more digits,
      with at least one digit in all ("5", "5.", ".5", "12.25"). */
  function ParseUnsigned(s: string): (r: Option<real>)
    ensures r.Some? ==> r.value >= 0.0
    ensures r.Some? ==> HasDigit(s)
  {
    var dot := DotIndex(s);
    var whole := s[..dot];
    var frac := if dot < |s| then s[dot + 1..] else [];
    if AllDigits(whole) && AllDigits(frac) && |whole| + |frac| > 0 then
      assert HasDigit(s) by {
        if |whole| > 0 { assert IsDigit(s[0]); } else { assert IsDigit(s[dot + 1]); }
      }
      Some(LiteralValue(whole, frac))
    else
      None
  }

  /** A text cell read as a number: an optional sign before an unsigned
      literal. Text without any digit never parses. */
  function ParseNumber(s: string): (r: Option<real>)
    ensures r.Some? ==> HasDigit(s)
    ensures s == [] ==> r == None
  {
    if s != [] && (s[0] == '-' || s[0] == '+') then
      match ParseUnsigned(s[1..])
      case None => None
      case Some(v) => Some(if s[0] == '-' then -v else v)
    else
      ParseUnsigned(s)
  }

  /** The decimal rendering of a natural number, as a spreadsheet shows it. */
  function ShowNat(n: nat): (s: string)
    decreases n
  {
    if n < 10 then [DigitChar(n)] else ShowNat(n / 10) + [DigitChar(n % 10)]
  }

  function ShowInt(i: int): (s: string)
  {
    if i < 0 then ['-'] + ShowNat(-i) else ShowNat(i)
  }

  lemma {:induction false} ShowNatDigits(n: nat)
    ensures |ShowNat(n)| > 0 && AllDigits(ShowNat(n))
    ensures DigitsValue(ShowNat(n)) == n
    decreases n
  {
    var s := ShowNat(n);
    if n >= 10 {
      ShowNatDigits(n / 10);
      var p := ShowNat(n / 10);
      assert s[..|s| - 1] == p;
    }
  }

  /** Every integer written out in decimal parses back to itself: a cell
      holding the text of a whole number coerces to that number. */
  lemma {:induction false} ParseShowInt(i: int)
    ensures ParseNumber(ShowInt(i)) == Some(i as real)
  {
    var m: nat := if i < 0 then -i else i;
    var d := ShowNat(m);
    ShowNatDigits(m);
    assert DotIndex(d) == |d| by {
      assert forall j :: 0 <= j < |d| ==> d[j] != '.';
    }
    assert d[..|d|] == d;
    assert ParseUnsigned(d) == Some(m as real);
    if i < 0 {
      assert ShowInt(i)[1..] == d;
    } else {
      assert IsDigit(d[0]);
    }
  }

  /** A digit string contains no dot. */
  lemma NoDotIn(w: string)
    requires AllDigits(w)
    ensures forall j :: 0 <= j < |w| ==> w[j] != '.'
  {
  }

  lemma ParseUnsignedLiteral(w: string, dot: bool, f: string)
    requires AllDigits(w) && AllDigits(f) && |w| + |f| > 0
    requires !dot ==> f == ""
    ensures ParseUnsigned(Literal(w, dot, f)) == Some(LiteralValue(w, f))
  {
    var u := Literal(w, dot, f);
    NoDotIn(w);
    assert forall j :: 0 <= j < |w| ==> u[j] == w[j];
    assert DotIndex(u) == |w| by {
      if dot {
        assert u[|w|] == '.';
      }
    }
    assert u[..|w|] == w;
    if dot {
      assert u[|w| + 1..] == f;
    } else {
      assert u == w;
    }
  }

  /** Every decimal literal parses to its value: an optional sign, the whole
      digits `w`, and when `dot` holds a '.' and the fractional digits `f`
      ("9.5" is 9.5, "-.5" is -0.5, "5." is 5). */
  lemma {:induction false} ParseDecimal(sign: string, w: string, dot: bool, f: string)
    requires sign == "" || sign == "-" || sign == "+"
    requires AllDigits(w) && AllDigits(f) && |w| + |f| > 0
    requires !dot ==> f == ""
    ensures ParseNumber(sign + Literal(w, dot, f)) ==
            Some(if sign == "-" then -LiteralValue(w, f) else LiteralValue(w, f))
  {
    var u := Literal(w, dot, f);
    ParseUnsignedLiteral(w, dot, f);
    if sign == "" {
      assert sign + u == u;
      assert u[0] != '-' && u[0] != '+' by {
        if |w| > 0 { assert u[0] == w[0]; }
      }
    } else {
      ParseSigned(sign[0], u);
      assert sign == [sign[0]];
    }
  }

  /** A sign in front of an unsigned literal negates it or keeps it. */
  lemma ParseSigned(c: char, u: string)
    requires c == '-' || c == '+'
    requires ParseUnsigned(u).Some?
    ensures ParseNumber([c] + u) == Some(if c == '-' then -ParseUnsigned(u).value else ParseUnsigned(u).value)
  {
    assert ([c] + u)[1..] == u;
  }

  /** An unsigned literal that parses has digits everywhere except at its
      one '.'. */
  lemma UnsignedShape(s: string)
    requires ParseUnsigned(s).Some?
    ensures forall i :: 0 <= i < |s| ==> IsDigit(s[i]) || (s[i] == '.' && i == DotIndex(s))
  {
    var dot := DotIndex(s);
    var frac := if dot < |s| then s[dot + 1..] else [];
    forall i | 0 <= i < |s|
      ensures IsDigit(s[i]) || (s[i] == '.' && i == dot)
    {
      if i < dot {
        assert s[i] == s[..dot][i];
      } else if i > dot {
        assert s[i] == frac[i - dot - 1];
      }
    }
  }

  /** Text that parses is a literal and nothing more: besides a leading sign
      it holds only digits and at most one '.' ("12abc", "1.2.3" and "1e3"
      are rejected). */
  lemma ParseNumberShape(s: string)
    requires ParseNumber(s).Some?
    ensures forall i :: 0 <= i < |s| ==> IsDigit(s[i]) || s[i] == '.' || (i == 0 && (s[i] == '-' || s[i] == '+'))
    ensures forall i, j :: 0 <= i < j < |s| && s[i] == '.' ==> s[j] != '.'
  {
    if s != [] && (s[0] == '-' || s[0] == '+') {
      var t := s[1..];
      UnsignedShape(t);
      assert forall i :: 1 <= i < |s| ==> s[i] == t[i - 1];
    } else {
      UnsignedShape(s);
    }
  }
}
