/** Column-name normalisation of the converter: every header is stripped of
    surrounding whitespace, lower-cased, and has its spaces turned into
    underscores, in that order. */
module Headers {

  /** Python's `str.isspace`: the characters `str.strip()` removes. */
  predicate IsSpace(c: char)
  {
    || c == ' '
    || '\t' <= c <= '\r'
    || '\U{1C}' <= c <= '\U{1F}'
    || c == '\U{85}' || c == '\U{A0}' || c == '\U{1680}'
    || '\U{2000}' <= c <= '\U{200A}'
    || c == '\U{2028}' || c == '\U{2029}' || c == '\U{202F}'
    || c == '\U{205F}' || c == '\U{3000}'
  }

  /** Drops leading whitespace: the result is a suffix of `s`, only
      whitespace was dropped, and it does not start with whitespace. */
  function TrimLeft(s: string): (r: string)
    ensures |r| <= |s| && r == s[|s| - |r|..]
    ensures forall i :: 0 <= i < |s| - |r| ==> IsSpace(s[i])
    ensures r == [] || !IsSpace(r[0])
    decreases |s|
  {
    if s != [] && IsSpace(s[0]) then TrimLeft(s[1..]) else s
  }

  /** Drops trailing whitespace: the result is a prefix of `s`, only
      whitespace was dropped, and it does not end with whitespace. */
  function TrimRight(s: string): (r: string)
    ensures |r| <= |s| && r == s[..|r|]
    ensures forall i :: |r| <= i < |s| ==> IsSpace(s[i])
    ensures r == [] || !IsSpace(r[|r| - 1])
    decreases |s|
  {
    if s != [] && IsSpace(s[|s| - 1]) then TrimRight(s[..|s| - 1]) else s
  }

  /** Where `str.strip()` starts keeping characters. */
  function StripStart(s: string): (lo: nat)
    ensures lo <= |s|
  {
    |s| - |TrimLeft(s)|
  }

  /** `str.strip()`: a contiguous slice of `s` with whitespace on neither end,
      everything cut away being whitespace. */
  function Strip(s: string): (r: string)
    ensures StripStart(s) + |r| <= |s| && r == s[StripStart(s)..StripStart(s) + |r|]
    ensures forall i :: 0 <= i < StripStart(s) ==> IsSpace(s[i])
    ensures forall i :: StripStart(s) + |r| <= i < |s| ==> IsSpace(s[i])
    ensures r == [] || (!IsSpace(r[0]) && !IsSpace(r[|r| - 1]))
  {
    TrimRight(TrimLeft(s))
  }

  /** `str.lower()` on one character, for the ASCII letters. */
  function LowerChar(c: char): (d: char)
    ensures 'A' <= c <= 'Z' ==> 'a' <= d <= 'z' && d as int == c as int + 32
    ensures !('A' <= c <= 'Z') ==> d == c
  {
    if 'A' <= c <= 'Z' then (c as int + 32) as char else c
  }

  /** `str.lower()`, character by character. */
  function Lower(s: string): string
    decreases |s|
  {
    if s == [] then [] else [LowerChar(s[0])] + Lower(s[1..])
  }

  lemma {:induction false} LowerChars(s: string)
    ensures |Lower(s)| == |s| && forall i :: 0 <= i < |s| ==> Lower(s)[i] == LowerChar(s[i])
    decreases |s|
  {
    if s != [] {
      LowerChars(s[1..]);
    }
  }

  /** `str.replace(' ', '_')`. */
  function Underscore(s: string): string
    decreases |s|
  {
    if s == [] then [] else [if s[0] == ' ' then '_' else s[0]] + Underscore(s[1..])
  }

  lemma {:induction false} UnderscoreChars(s: string)
    ensures |Underscore(s)| == |s|
    ensures forall i :: 0 <= i < |s| ==> Underscore(s)[i] == if s[i] == ' ' then '_' else s[i]
    decreases |s|
  {
    if s != [] {
      UnderscoreChars(s[1..]);
    }
  }

  /** The header normalisation of `clean_headers`. */
  function Normalize(name: string): string
  {
    Underscore(Lower(Strip(name)))
  }

  /** A normalised name has no space left in it. */
  lemma NormalizeNoSpace(name: string)
    ensures ' ' !in Normalize(name)
    ensures |Normalize(name)| <= |name|
  {
    var l := Lower(Strip(name));
    LowerChars(Strip(name));
    UnderscoreChars(l);
  }

  lemma StripKeepsTrimmed(s: string)
    requires s == [] || (!IsSpace(s[0]) && !IsSpace(s[|s| - 1]))
    ensures Strip(s) == s
  {
    assert TrimLeft(s) == s;
  }

  lemma LowerKeepsLower(s: string)
    requires forall i :: 0 <= i < |s| ==> !('A' <= s[i] <= 'Z')
    ensures Lower(s) == s
  {
    LowerChars(s);
  }

  lemma UnderscoreKeepsNoSpace(s: string)
    requires ' ' !in s
    ensures Underscore(s) == s
  {
    UnderscoreChars(s);
  }

  lemma LowerUnderscoreKeepEnds(s: string)
    requires s != [] && !IsSpace(s[0]) && !IsSpace(s[|s| - 1])
    ensures var n := Underscore(Lower(s)); |n| == |s| && !IsSpace(n[0]) && !IsSpace(n[|n| - 1])
    ensures forall i :: 0 <= i < |s| ==> !('A' <= Underscore(Lower(s))[i] <= 'Z')
  {
    LowerChars(s);
    UnderscoreChars(Lower(s));
  }

  /** A normalised header is already in normal form: cleaning headers twice
      gives the same names as cleaning them once. */
  lemma {:induction false} NormalizeIdempotent(name: string)
    ensures Normalize(Normalize(name)) == Normalize(name)
  {
    var n := Normalize(name);
    var st := Strip(name);
    if st != [] {
      LowerUnderscoreKeepEnds(st);
    }
    NormalizeNoSpace(name);
    StripKeepsTrimmed(n);
    LowerKeepsLower(n);
    UnderscoreKeepsNoSpace(n);
  }

  /** Names whose normal forms never collide: cleaning cannot merge columns. */
  predicate NormalizeInjective(names: set<string>)
  {
    forall a, b :: a in names && b in names && Normalize(a) == Normalize(b) ==> a == b
  }
}
