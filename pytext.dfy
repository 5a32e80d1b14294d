/**
 * The parts of Python's text handling that the command handlers of bot.py rely on:
 * `str.isspace`, `str.split(maxsplit=k)` with no separator, `int(s)` on a string and
 * `f"{n}"` on an integer.
 */
module PyText {
  import opened Wrappers

  /** Python's `str.isspace()` on one character. */
  predicate IsSpace(c: char) {
    || c == ' '
    || '\t' <= c <= '\r'
    || '\U{001C}' <= c <= '\U{001F}'
    || c == '\U{0085}' || c == '\U{00A0}' || c == '\U{1680}'
    || '\U{2000}' <= c <= '\U{200A}'
    || c == '\U{2028}' || c == '\U{2029}' || c == '\U{202F}' || c == '\U{205F}' || c == '\U{3000}'
  }

  predicate AllSpace(s: string) {
    forall i :: 0 <= i < |s| ==> IsSpace(s[i])
  }

  predicate NoSpace(s: string) {
    forall i :: 0 <= i < |s| ==> !IsSpace(s[i])
  }

  /** A non-empty run of non-whitespace characters: what `split()` yields as a token. */
  predicate Word(s: string) {
    s != [] && NoSpace(s)
  }

  /** Empty, or starts with a character that is not whitespace. */
  predicate NoLeadingSpace(s: string) {
    s == [] || !IsSpace(s[0])
  }

  /** Drops the leading whitespace of `s`. */
  function SkipSpace(s: string): (r: string)
    ensures |r| <= |s|
    ensures NoLeadingSpace(r)
  {
    if s != [] && IsSpace(s[0]) then SkipSpace(s[1..]) else s
  }

  /** What `SkipSpace` drops is whitespace, and what it keeps is the rest of `s`. */
  lemma {:induction false} SkipSpaceDropsSpace(s: string)
    ensures var r := SkipSpace(s); s == s[..|s| - |r|] + r && AllSpace(s[..|s| - |r|])
  {
    if s != [] && IsSpace(s[0]) {
      SkipSpaceDropsSpace(s[1..]);
      var r := SkipSpace(s);
      assert s[1..][..|s| - 1 - |r|] == s[1..|s| - |r|];
    }
  }

  /** The longest prefix of `s` without whitespace. */
  function TakeWord(s: string): (w: string)
    ensures |w| <= |s|
    ensures NoSpace(w)
    ensures |w| == |s| || IsSpace(s[|w|])
  {
    if s != [] && !IsSpace(s[0]) then [s[0]] + TakeWord(s[1..]) else []
  }

  /**
   * The whitespace that `int()` skips around a numeral. CPython turns non-ASCII whitespace
   * into spaces and then skips only `" \t\n\v\f\r"`, so this is `str.isspace` without the
   * four ASCII separators U+001C to U+001F, which `int()` rejects.
   */
  predicate IsIntSpace(c: char) {
    IsSpace(c) && !('\U{001C}' <= c <= '\U{001F}')
  }

  predicate AllIntSpace(s: string) {
    forall i :: 0 <= i < |s| ==> IsIntSpace(s[i])
  }

  /** Drops the leading whitespace that `int()` skips. */
  function SkipIntSpace(s: string): (r: string)
    ensures |r| <= |s|
    ensures r == [] || !IsIntSpace(r[0])
  {
    if s != [] && IsIntSpace(s[0]) then SkipIntSpace(s[1..]) else s
  }

  /** Drops the trailing whitespace that `int()` skips. */
  function TrimIntSpace(s: string): (r: string)
    ensures |r| <= |s|
    ensures r == [] || !IsIntSpace(r[|r| - 1])
  {
    if s != [] && IsIntSpace(s[|s| - 1]) then TrimIntSpace(s[..|s| - 1]) else s
  }

  /** What `TrimIntSpace` drops is whitespace, and what it keeps is the start of `s`. */
  lemma {:induction false} TrimIntSpaceDropsSpace(s: string)
    ensures var r := TrimIntSpace(s); s == r + s[|r|..] && AllIntSpace(s[|r|..])
  {
    if s != [] && IsIntSpace(s[|s| - 1]) {
      var p := s[..|s| - 1];
      TrimIntSpaceDropsSpace(p);
      var r := TrimIntSpace(s);
      assert s == p + [s[|s| - 1]];
      assert s[|r|..] == p[|r|..] + [s[|s| - 1]];
    }
  }

  /** The numeral that `int()` reads: the text without the whitespace around it. */
  function IntStrip(s: string): string {
    TrimIntSpace(SkipIntSpace(s))
  }

  /**
   * Python's `s.split(maxsplit=k)`: at most `k` whitespace-free tokens, then the rest of
   * the text, its leading whitespace dropped and its trailing whitespace kept.
   */
  function Split(s: string, maxsplit: nat): (parts: seq<string>)
    ensures |parts| <= maxsplit + 1
    ensures forall i :: 0 <= i < |parts| ==> parts[i] != [] && !IsSpace(parts[i][0])
    ensures forall i :: 0 <= i < |parts| && i < maxsplit ==> NoSpace(parts[i])
    decreases |s|
  {
    var t := SkipSpace(s);
    if t == [] then []
    else if maxsplit == 0 then [t]
    else
      var w := TakeWord(t);
      [w] + Split(t[|w|..], maxsplit - 1)
  }

  lemma {:induction false} SkipSpaceOver(ws: string, t: string)
    requires AllSpace(ws) && NoLeadingSpace(t)
    ensures SkipSpace(ws + t) == t
  {
    if ws != [] {
      assert (ws + t)[1..] == ws[1..] + t;
      SkipSpaceOver(ws[1..], t);
    }
  }

  lemma {:induction false} TakeWordOf(w: string, t: string)
    requires NoSpace(w) && (t == [] || IsSpace(t[0]))
    ensures TakeWord(w + t) == w
  {
    if w != [] {
      assert (w + t)[1..] == w[1..] + t;
      TakeWordOf(w[1..], t);
    }
  }

  lemma {:induction false} SkipIntSpaceOver(ws: string, t: string)
    requires AllIntSpace(ws) && (t == [] || !IsIntSpace(t[0]))
    ensures SkipIntSpace(ws + t) == t
  {
    if ws != [] {
      assert (ws + t)[1..] == ws[1..] + t;
      SkipIntSpaceOver(ws[1..], t);
    }
  }

  lemma {:induction false} TrimIntSpaceOver(s: string, ws: string)
    requires AllIntSpace(ws) && (s == [] || !IsIntSpace(s[|s| - 1]))
    ensures TrimIntSpace(s + ws) == s
  {
    if ws != [] {
      var n := |ws|;
      assert (s + ws)[..|s + ws| - 1] == s + ws[..n - 1];
      TrimIntSpaceOver(s, ws[..n - 1]);
    } else {
      assert s + ws == s;
    }
  }

  /** Text made only of whitespace splits into no parts at all. */
  lemma SplitBlank(ws: string, maxsplit: nat)
    requires AllSpace(ws)
    ensures Split(ws, maxsplit) == []
  {
    SkipSpaceOver(ws, []);
    assert ws + [] == ws;
  }

  /** With splits left, a leading word becomes a part of its own and splitting goes on after it. */
  lemma SplitWord(ws: string, w: string, t: string, maxsplit: nat)
    requires maxsplit > 0
    requires AllSpace(ws) && Word(w) && (t == [] || IsSpace(t[0]))
    ensures Split(ws + w + t, maxsplit) == [w] + Split(t, maxsplit - 1)
  {
    assert ws + w + t == ws + (w + t);
    SkipSpaceOver(ws, w + t);
    TakeWordOf(w, t);
    assert (w + t)[|w|..] == t;
  }

  /** With no splits left, the remainder after leading whitespace is the last part, whole. */
  lemma SplitRest(ws: string, t: string)
    requires AllSpace(ws) && t != [] && !IsSpace(t[0])
    ensures Split(ws + t, 0) == [t]
  {
    SkipSpaceOver(ws, t);
  }

  predicate IsDigit(c: char) {
    '0' <= c <= '9'
  }

  function DigitValue(c: char): (d: nat)
    requires IsDigit(c)
    ensures d < 10
  {
    (c as int) - ('0' as int)
  }

  function DigitChar(d: nat): (c: char)
    requires d < 10
    ensures IsDigit(c) && DigitValue(c) == d
  {
    ('0' as int + d) as char
  }

  /** The decimal digits of `n`, most significant first, as `f"{n}"` writes them. */
  function NatToString(n: nat): (s: string)
    ensures s != []
    ensures forall i :: 0 <= i < |s| ==> IsDigit(s[i])
  {
    if n < 10 then [DigitChar(n)] else NatToString(n / 10) + [DigitChar(n % 10)]
  }

  /** `f"{n}"` for a Python int: a minus sign before the digits of a negative number. */
  function IntToString(n: int): (s: string)
    ensures s != [] && !IsSpace(s[0]) && !IsSpace(s[|s| - 1])
    ensures forall i :: 0 <= i < |s| ==> IsDigit(s[i]) || (i == 0 && s[i] == '-')
    ensures s[0] == '-' <==> n < 0
  {
    if n < 0 then "-" + NatToString(-n) else NatToString(n)
  }

  /**
   * The digit part that `int()` accepts in base 10 (ASCII digits): digits, where a single
   * underscore may stand between two digits.
   */
  predicate DigitRun(s: string) {
    s != [] && forall i :: 0 <= i < |s| ==> DigitOrJoin(s, i)
  }

  /** Position `i` of `s` holds a digit, or an underscore with a digit on either side. */
  predicate DigitOrJoin(s: string, i: nat)
    requires i < |s|
  {
    || IsDigit(s[i])
    || (s[i] == '_' && 0 < i < |s| - 1 && IsDigit(s[i - 1]) && IsDigit(s[i + 1]))
  }

  /** The number that the digits of `s` denote, underscores skipped. */
  function DigitsValue(s: string): nat {
    if s == [] then 0
    else if IsDigit(s[|s| - 1]) then 10 * DigitsValue(s[..|s| - 1]) + DigitValue(s[|s| - 1])
    else DigitsValue(s[..|s| - 1])
  }

  /** Python's `int(s)` on a string, for ASCII digits: surrounding whitespace, one sign, digits. */
  function ParseInt(s: string): Option<int> {
    var t := IntStrip(s);
    var signed := t != [] && (t[0] == '-' || t[0] == '+');
    var digits := if signed then t[1..] else t;
    var magnitude: int := DigitsValue(digits);
    if !DigitRun(digits) then None
    else if signed && t[0] == '-' then Some(-magnitude)
    else Some(magnitude)
  }

  lemma {:induction false} NatToStringValue(n: nat)
    ensures DigitRun(NatToString(n)) && DigitsValue(NatToString(n)) == n
  {
    var s := NatToString(n);
    if n >= 10 {
      NatToStringValue(n / 10);
      assert s[..|s| - 1] == NatToString(n / 10);
    }
  }

  lemma StripAround(ws: string, s: string, ws': string)
    requires AllIntSpace(ws) && AllIntSpace(ws') && s != [] && !IsIntSpace(s[0]) && !IsIntSpace(s[|s| - 1])
    ensures IntStrip(ws + s + ws') == s
  {
    assert ws + s + ws' == ws + (s + ws');
    SkipIntSpaceOver(ws, s + ws');
    TrimIntSpaceOver(s, ws');
  }

  lemma IntToStringDigits(n: int)
    ensures var s := IntToString(n);
      && (n < 0 ==> s[0] == '-' && DigitRun(s[1..]) && DigitsValue(s[1..]) == -n)
      && (n >= 0 ==> IsDigit(s[0]) && DigitRun(s) && DigitsValue(s) == n)
  {
    var s := IntToString(n);
    if n < 0 {
      NatToStringValue(-n);
      assert s[1..] == NatToString(-n);
    } else {
      NatToStringValue(n);
    }
  }

  /** `int()` reads back what `f"{n}"` wrote, whatever whitespace surrounds it. */
  lemma ParseIntOfString(ws: string, n: int, ws': string)
    requires AllIntSpace(ws) && AllIntSpace(ws')
    ensures ParseInt(ws + IntToString(n) + ws') == Some(n)
  {
    StripAround(ws, IntToString(n), ws');
    IntToStringDigits(n);
  }

  /**
   * `int()` refuses a numeral followed by one of the separators U+001C to U+001F, although
   * `str.isspace` holds for them and `split()` treats them as whitespace.
   */
  lemma IntRefusesSeparator(n: int, c: char)
    requires '\U{001C}' <= c <= '\U{001F}'
    ensures IsSpace(c) && ParseInt(IntToString(n) + [c]) == None
  {
    var s := IntToString(n);
    var u := s + [c];
    NumeralKept(u);
    var digits := if u[0] == '-' || u[0] == '+' then u[1..] else u;
    NoDigitRunEndingIn(digits, c);
  }

  /** Text that starts and ends with something other than whitespace is its own numeral. */
  lemma NumeralKept(u: string)
    requires u != [] && !IsIntSpace(u[0]) && !IsIntSpace(u[|u| - 1])
    ensures IntStrip(u) == u
  {
    SkipIntSpaceOver([], u);
    assert [] + u == u;
    TrimIntSpaceOver(u, []);
    assert u + [] == u;
  }

  lemma NoDigitRunEndingIn(d: string, c: char)
    requires d != [] && d[|d| - 1] == c && !IsDigit(c) && c != '_'
    ensures !DigitRun(d)
  {
    assert !DigitOrJoin(d, |d| - 1);
  }
}
