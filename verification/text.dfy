/**
 * The pieces of Python's text handling the test explorer relies on: `str(n)` for an
 * integer, `int(field)`, `str.split()` with no separator and `" ".join(...)`.
 */
module Text {
  import opened Wrappers

  /** Python's `str.isspace()` for one character */
  predicate IsSpace(c: char) {
    || c == ' '
    || ('\t' <= c <= '\r')
    || ('\U{1C}' <= c <= '\U{1F}')
    || c == '\U{85}' || c == '\U{A0}' || c == '\U{1680}'
    || ('\U{2000}' <= c <= '\U{200A}')
    || c == '\U{2028}' || c == '\U{2029}' || c == '\U{202F}' || c == '\U{205F}'
    || c == '\U{3000}'
  }

  predicate NoSpace(w: string) {
    forall i :: 0 <= i < |w| ==> !IsSpace(w[i])
  }

  /** The longest whitespace-free prefix of `s` */
  function LeadingWord(s: string): (w: string)
    ensures w <= s && NoSpace(w)
    ensures |w| < |s| ==> IsSpace(s[|w|])
  {
    if |s| == 0 || IsSpace(s[0]) then "" else [s[0]] + LeadingWord(s[1..])
  }

  /** Python's `s.split()`: the maximal runs of non-whitespace characters, in order */
  function Split(s: string): (ws: seq<string>)
    ensures forall i :: 0 <= i < |ws| ==> ws[i] != "" && NoSpace(ws[i])
    decreases |s|
  {
    if |s| == 0 then []
    else if IsSpace(s[0]) then Split(s[1..])
    else
      var w := LeadingWord(s);
      [w] + Split(s[|w|..])
  }

  /** The words' lengths added up */
  function TotalLength(ws: seq<string>): nat {
    if |ws| == 0 then 0 else |ws[0]| + TotalLength(ws[1..])
  }

  /** Python's `" ".join(ws)`: the words in order, one space between neighbours */
  function JoinSpaced(ws: seq<string>): (r: string)
    ensures ws == [] ==> r == ""
    ensures |ws| == 1 ==> r == ws[0]
    ensures |ws| > 0 ==> |r| == TotalLength(ws) + |ws| - 1
  {
    if |ws| == 0 then ""
    else if |ws| == 1 then ws[0]
    else ws[0] + " " + JoinSpaced(ws[1..])
  }

  lemma {:induction false} LeadingWordOfWord(w: string, rest: string)
    requires NoSpace(w)
    requires rest == "" || IsSpace(rest[0])
    ensures LeadingWord(w + rest) == w
    decreases |w|
  {
    if |w| == 0 {
      assert w + rest == rest;
    } else {
      assert (w + rest)[0] == w[0];
      assert (w + rest)[1..] == w[1..] + rest;
      LeadingWordOfWord(w[1..], rest);
    }
  }

  /** A word followed by whitespace or nothing is split off whole. */
  lemma SplitWordThen(w: string, rest: string)
    requires w != "" && NoSpace(w)
    requires rest == "" || IsSpace(rest[0])
    ensures Split(w + rest) == [w] + Split(rest)
  {
    LeadingWordOfWord(w, rest);
    assert (w + rest)[0] == w[0];
    assert (w + rest)[|w|..] == rest;
  }

  /** Splitting a space-joined list of non-empty, whitespace-free words gives the words back. */
  lemma {:induction false} SplitJoinSpaced(ws: seq<string>)
    requires forall i :: 0 <= i < |ws| ==> ws[i] != "" && NoSpace(ws[i])
    ensures Split(JoinSpaced(ws)) == ws
  {
    if |ws| == 1 {
      SplitWordThen(ws[0], "");
      assert ws[0] + "" == ws[0];
    } else if |ws| > 1 {
      var rest := JoinSpaced(ws[1..]);
      assert JoinSpaced(ws) == ws[0] + (" " + rest);
      SplitWordThen(ws[0], " " + rest);
      assert (" " + rest)[1..] == rest;
      SplitJoinSpaced(ws[1..]);
      assert ws == [ws[0]] + ws[1..];
    }
  }

  predicate IsDigit(c: char) {
    '0' <= c <= '9'
  }

  function DigitChar(d: nat): (c: char)
    requires d < 10
    ensures IsDigit(c)
  {
    ('0' as int + d) as char
  }

  function DigitValue(c: char): (d: nat)
    requires IsDigit(c)
    ensures d < 10 && DigitChar(d) == c
  {
    c as int - '0' as int
  }

  predicate AllDigits(s: string) {
    forall i :: 0 <= i < |s| ==> IsDigit(s[i])
  }

  /** Python's `str(n)` for a non-negative integer: its decimal digits, most significant first */
  function NatString(n: nat): (s: string)
    ensures s != "" && AllDigits(s)
  {
    if n < 10 then [DigitChar(n)] else NatString(n / 10) + [DigitChar(n % 10)]
  }

  /** Python's `str(t)`: a leading minus sign for a negative integer */
  function IntString(t: int): (s: string)
    ensures s != "" && NoSpace(s)
    ensures t < 0 <==> s[0] == '-'
  {
    if t < 0 then "-" + NatString(-t) else NatString(t)
  }

  /** The number a string of decimal digits denotes */
  function DigitsValue(s: string): nat
    requires AllDigits(s)
  {
    if |s| == 0 then 0 else 10 * DigitsValue(s[..|s| - 1]) + DigitValue(s[|s| - 1])
  }

  /** The body of an integer literal as Python's `int()` reads it: digits, with single underscores between digits */
  predicate IsNumeral(b: string) {
    && |b| > 0
    && IsDigit(b[0])
    && IsDigit(b[|b| - 1])
    && (forall i :: 0 <= i < |b| ==> IsDigit(b[i]) || b[i] == '_')
    && (forall i :: 0 < i < |b| ==> b[i] == '_' ==> b[i - 1] != '_')
  }

  function DropUnderscores(b: string): (d: string)
    requires forall i :: 0 <= i < |b| ==> IsDigit(b[i]) || b[i] == '_'
    ensures AllDigits(d)
  {
    if |b| == 0 then "" else (if b[0] == '_' then "" else [b[0]]) + DropUnderscores(b[1..])
  }

  /**
   * Python's `int(f)` on a field `str.split()` produced: an optional sign, then decimal digits
   * with single underscores between them; `None` where `int()` raises ValueError
   */
  function ParseInt(f: string): (r: Option<int>)
    ensures r.Some? ==> f != "" && NoSpace(f)
    ensures r.Some? && r.value < 0 ==> f[0] == '-'
    ensures f != "" && AllDigits(f) ==> r.Some? && r.value >= 0
  {
    var signed := |f| > 0 && (f[0] == '-' || f[0] == '+');
    var body := if signed then f[1..] else f;
    if IsNumeral(body) then
      var v: int := DigitsValue(DropUnderscores(body));
      Some(if signed && f[0] == '-' then -v else v)
    else None
  }

  /** `[int(f) for f in fs]`, which fails as soon as one field fails */
  function ParseFields(fs: seq<string>): (r: Option<seq<int>>)
    ensures r.Some? <==> forall i :: 0 <= i < |fs| ==> ParseInt(fs[i]).Some?
    ensures r.Some? ==> |r.value| == |fs|
    ensures r.Some? ==> forall i :: 0 <= i < |fs| ==> r.value[i] == ParseInt(fs[i]).value
  {
    if |fs| == 0 then Some([])
    else
      match (ParseInt(fs[0]), ParseFields(fs[1..]))
      case (Some(v), Some(vs)) => Some([v] + vs)
      case _ => None
  }

  /** `[int(f) for f in text.split()]` */
  function Parse(text: string): Option<seq<int>> {
    ParseFields(Split(text))
  }

  /** `[str(t) for t in ts]` */
  function IntStrings(ts: seq<int>): (ss: seq<string>)
    ensures |ss| == |ts|
  {
    seq(|ts|, i requires 0 <= i < |ts| => IntString(ts[i]))
  }

  /** Python's `" ".join(str(t) for t in ts)` */
  function JoinTokens(ts: seq<int>): string {
    JoinSpaced(IntStrings(ts))
  }

  lemma DropUnderscoresOfDigits(s: string)
    requires AllDigits(s)
    ensures DropUnderscores(s) == s
  {
  }

  lemma {:induction false} DigitsValueOfNatString(n: nat)
    ensures DigitsValue(NatString(n)) == n
  {
    if n >= 10 {
      var s := NatString(n);
      assert s[..|s| - 1] == NatString(n / 10);
      DigitsValueOfNatString(n / 10);
    }
  }

  /** The digits of `str(n)` form a numeral without underscores whose value is `n`. */
  lemma NatStringNumeral(n: nat)
    ensures IsNumeral(NatString(n))
    ensures DigitsValue(DropUnderscores(NatString(n))) == n
  {
    var f := NatString(n);
    assert IsDigit(f[0]) && IsDigit(f[|f| - 1]);
    DropUnderscoresOfDigits(f);
    DigitsValueOfNatString(n);
  }

  /** `int(str(n)) == n` for a non-negative `n` */
  lemma ParseNatString(n: nat)
    ensures ParseInt(NatString(n)) == Some(n)
  {
    NatStringNumeral(n);
    assert IsDigit(NatString(n)[0]);
  }

  /** `int("-" + str(n)) == -n` */
  lemma ParseNegatedNatString(n: nat)
    ensures ParseInt("-" + NatString(n)) == Some(-(n as int))
  {
    var f := "-" + NatString(n);
    NatStringNumeral(n);
    assert f[0] == '-';
    assert f[1..] == NatString(n);
  }

  /** `int(str(t)) == t` */
  lemma ParseIntString(t: int)
    ensures ParseInt(IntString(t)) == Some(t)
  {
    if t < 0 {
      ParseNegatedNatString(-t);
    } else {
      ParseNatString(t);
    }
  }

  /** Re-reading the space-joined decimal forms of a token list gives the tokens back. */
  lemma ParseJoinTokens(ts: seq<int>)
    ensures Parse(JoinTokens(ts)) == Some(ts)
  {
    var ss := IntStrings(ts);
    SplitJoinSpaced(ss);
    forall i | 0 <= i < |ts|
      ensures ParseInt(ss[i]) == Some(ts[i])
    {
      ParseIntString(ts[i]);
    }
    var r := ParseFields(ss);
    assert r.Some?;
    assert r.value == ts;
  }
}
