/** Python string operations the installer relies on: `str.isspace`, `strip`,
    `split()` (on runs of whitespace), `split(sep)`, `in` (substring),
    `replace`, slicing with a possibly negative bound, and `str(int)`. */
module Text {

  /** Python's `str.isspace` for one character. */
  predicate IsSpace(c: char) {
    c == ' ' || ('\t' <= c <= '\r') || ('\U{1C}' <= c <= '\U{1F}')
    || c == '\U{85}' || c == '\U{A0}' || c == '\U{1680}'
    || ('\U{2000}' <= c <= '\U{200A}') || c == '\U{2028}' || c == '\U{2029}'
    || c == '\U{202F}' || c == '\U{205F}' || c == '\U{3000}'
  }

  predicate NoSpace(s: string) {
    forall i :: 0 <= i < |s| ==> !IsSpace(s[i])
  }

  predicate AllSpace(s: string) {
    forall i :: 0 <= i < |s| ==> IsSpace(s[i])
  }

  predicate NoChar(s: string, c: char) {
    forall i :: 0 <= i < |s| ==> s[i] != c
  }

  /** `s.lstrip()`. */
  function TrimLeft(s: string): (r: string)
    ensures |r| <= |s|
  {
    if s != [] && IsSpace(s[0]) then TrimLeft(s[1..]) else s
  }

  /** `s.rstrip()`. */
  function TrimRight(s: string): (r: string)
    ensures |r| <= |s|
  {
    if s != [] && IsSpace(s[|s| - 1]) then TrimRight(s[..|s| - 1]) else s
  }

  /** `lstrip` drops the leading whitespace and nothing else. */
  lemma {:induction false} TrimLeftShape(s: string)
    ensures var r := TrimLeft(s);
      && r == s[|s| - |r|..] && AllSpace(s[..|s| - |r|]) && (r == [] || !IsSpace(r[0]))
    decreases |s|
  {
    if s != [] && IsSpace(s[0]) {
      TrimLeftShape(s[1..]);
      var r := TrimLeft(s);
      var k := |s| - |r|;
      assert r == s[1..][|s| - 1 - |r|..];
      assert s[1..][|s| - 1 - |r|..] == s[k..];
      assert AllSpace(s[1..][..k - 1]);
      forall j | 0 <= j < k
        ensures IsSpace(s[..k][j])
      {
        assert s[..k][j] == s[j];
        if j > 0 {
          assert s[1..][..k - 1][j - 1] == s[j];
        }
      }
    } else {
      assert s[..0] == [];
    }
  }

  /** `rstrip` drops the trailing whitespace and nothing else. */
  lemma {:induction false} TrimRightShape(s: string)
    ensures var r := TrimRight(s);
      && r == s[..|r|] && AllSpace(s[|r|..]) && (r == [] || !IsSpace(r[|r| - 1]))
    decreases |s|
  {
    if s != [] && IsSpace(s[|s| - 1]) {
      var p := s[..|s| - 1];
      TrimRightShape(p);
      var r := TrimRight(s);
      assert r == p[..|r|];
      assert p[..|r|] == s[..|r|];
      forall j | |r| <= j < |s|
        ensures IsSpace(s[j])
      {
        if j < |s| - 1 {
          assert s[j] == p[|r|..][j - |r|];
        }
      }
      assert forall j :: 0 <= j < |s[|r|..]| ==> s[|r|..][j] == s[|r| + j];
    } else {
      assert s[|s|..] == [];
    }
  }

  /** `s.strip()`. */
  function Strip(s: string): (r: string)
  {
    TrimRight(TrimLeft(s))
  }

  /** `Strip(s)` is the infix of `s` that starts after the leading whitespace, with only
      whitespace on both sides of it, and it neither starts nor ends with whitespace. */
  lemma StripShape(s: string)
    ensures var r := Strip(s); var i := |s| - |TrimLeft(s)|;
      && i + |r| <= |s| && r == s[i..i + |r|]
      && AllSpace(s[..i]) && AllSpace(s[i + |r|..])
    ensures var r := Strip(s); r == [] || (!IsSpace(r[0]) && !IsSpace(r[|r| - 1]))
  {
    StripInfix(s);
    StripEnds(s);
  }

  lemma StripInfix(s: string)
    ensures var r := Strip(s); var i := |s| - |TrimLeft(s)|;
      && i + |r| <= |s| && r == s[i..i + |r|]
      && AllSpace(s[..i]) && AllSpace(s[i + |r|..])
  {
    var l := TrimLeft(s);
    var r := TrimRight(l);
    var i := |s| - |l|;
    TrimLeftShape(s);
    TrimRightShape(l);
    assert l == s[i..];
    assert r == l[..|r|];
    assert l[..|r|] == s[i..i + |r|];
    assert s[i + |r|..] == l[|r|..];
  }

  lemma StripEnds(s: string)
    ensures var r := Strip(s); r == [] || (!IsSpace(r[0]) && !IsSpace(r[|r| - 1]))
  {
    var l := TrimLeft(s);
    var r := TrimRight(l);
    TrimLeftShape(s);
    TrimRightShape(l);
    if r != [] {
      assert r[0] == l[0];
    }
  }

  /** Stripping a string that neither starts nor ends with whitespace changes nothing. */
  lemma StripClean(s: string)
    requires s == [] || (!IsSpace(s[0]) && !IsSpace(s[|s| - 1]))
    ensures Strip(s) == s
  {
  }

  /** The longest prefix of `s` without whitespace. */
  function TakeWord(s: string): (w: string)
    ensures |w| <= |s|
  {
    if s == [] || IsSpace(s[0]) then [] else [s[0]] + TakeWord(s[1..])
  }

  /** The word taken is a prefix without whitespace, followed by whitespace or the end. */
  lemma {:induction false} TakeWordShape(s: string)
    ensures var w := TakeWord(s);
      && w == s[..|w|] && NoSpace(w) && (|w| == |s| || IsSpace(s[|w|]))
    decreases |s|
  {
    if s != [] && !IsSpace(s[0]) {
      TakeWordShape(s[1..]);
      var w := TakeWord(s);
      var v := TakeWord(s[1..]);
      assert w == [s[0]] + v;
      assert w[1..] == v;
      assert s[1..][..|v|] == s[1..|w|];
      forall j | 0 <= j < |w|
        ensures !IsSpace(w[j])
      {
        if j > 0 {
          assert w[j] == v[j - 1];
        }
      }
      if |w| < |s| {
        assert s[|w|] == s[1..][|v|];
      }
    }
  }

  /** Python's `s.split()` with no separator: the maximal runs of non-whitespace, in order. */
  function SplitWs(s: string): seq<string>
    decreases |s|
  {
    if s == [] then []
    else if IsSpace(s[0]) then SplitWs(s[1..])
    else
      var w := TakeWord(s);
      [w] + SplitWs(s[|w|..])
  }

  /** Every field of `split()` is a non-empty run of non-whitespace. */
  lemma {:induction false} SplitWsFields(s: string)
    ensures forall k :: 0 <= k < |SplitWs(s)| ==> SplitWs(s)[k] != [] && NoSpace(SplitWs(s)[k])
    decreases |s|
  {
    if s != [] {
      if IsSpace(s[0]) {
        SplitWsFields(s[1..]);
      } else {
        var w := TakeWord(s);
        TakeWordShape(s);
        var rest := SplitWs(s[|w|..]);
        SplitWsFields(s[|w|..]);
        var r := SplitWs(s);
        assert r == [w] + rest;
        forall k | 0 <= k < |r|
          ensures r[k] != [] && NoSpace(r[k])
        {
          if k > 0 {
            assert r[k] == rest[k - 1];
          }
        }
      }
    }
  }

  lemma {:induction false} SplitWsAllSpace(s: string)
    requires AllSpace(s)
    ensures SplitWs(s) == []
    decreases |s|
  {
    if s != [] {
      SplitWsAllSpace(s[1..]);
    }
  }

  lemma {:induction false} TakeWordAll(w: string)
    requires NoSpace(w)
    ensures TakeWord(w) == w
  {
    if w != [] {
      TakeWordAll(w[1..]);
      assert [w[0]] + w[1..] == w;
    }
  }

  /** A single word splits into itself. */
  lemma SplitWsSingle(w: string)
    requires w != [] && NoSpace(w)
    ensures SplitWs(w) == [w]
  {
    TakeWordAll(w);
    assert w[|w|..] == [];
  }

  /** Leading whitespace does not change `split()`. */
  lemma SplitWsSkip(s: string)
    requires s != [] && IsSpace(s[0])
    ensures SplitWs(s) == SplitWs(s[1..])
  {
  }

  lemma {:induction false} TakeWordStops(w: string, rest: string)
    requires NoSpace(w) && rest != [] && IsSpace(rest[0])
    ensures TakeWord(w + rest) == w
  {
    if w != [] {
      assert (w + rest)[1..] == w[1..] + rest;
      TakeWordStops(w[1..], rest);
    } else {
      assert w + rest == rest;
    }
  }

  /** A word followed by whitespace is the first field of `split()`. */
  lemma SplitWsWord(w: string, rest: string)
    requires w != [] && NoSpace(w) && rest != [] && IsSpace(rest[0])
    ensures SplitWs(w + rest) == [w] + SplitWs(rest)
  {
    var s := w + rest;
    assert s[0] == w[0];
    TakeWordStops(w, rest);
    assert s[|w|..] == rest;
  }

  /** Python's `s.split(sep)` for a one-character separator: always at least one field,
      empty fields kept, and no field contains the separator. */
  function SplitOn(s: string, sep: char): (r: seq<string>)
    ensures |r| >= 1
    ensures forall k :: 0 <= k < |r| ==> NoChar(r[k], sep)
  {
    if s == [] then [[]]
    else
      var rest := SplitOn(s[1..], sep);
      if s[0] == sep then [[]] + rest else [[s[0]] + rest[0]] + rest[1..]
  }

  lemma {:induction false} SplitOnNone(s: string, sep: char)
    requires NoChar(s, sep)
    ensures SplitOn(s, sep) == [s]
  {
    if s != [] {
      SplitOnNone(s[1..], sep);
      assert [s[0]] + s[1..] == s;
    }
  }

  /** Splitting `a + sep + b` where `a` has no separator: `a` is the first field. */
  lemma {:induction false} SplitOnField(a: string, sep: char, b: string)
    requires NoChar(a, sep)
    ensures SplitOn(a + [sep] + b, sep) == [a] + SplitOn(b, sep)
  {
    if a == [] {
      assert a + [sep] + b == [sep] + b;
      assert ([sep] + b)[1..] == b;
    } else {
      var s := a + [sep] + b;
      assert s[1..] == a[1..] + [sep] + b;
      SplitOnField(a[1..], sep, b);
      assert [a[0]] + a[1..] == a;
    }
  }

  /** Newline-terminated lines joined into one text, as a file is written. */
  function Lines(ls: seq<string>): string {
    if ls == [] then [] else ls[0] + "\n" + Lines(ls[1..])
  }

  /** Splitting a text of newline-terminated lines at '\n' gives the lines back, followed by
      the empty field after the last newline. */
  lemma {:induction false} SplitLines(ls: seq<string>)
    requires forall k :: 0 <= k < |ls| ==> NoChar(ls[k], '\n')
    ensures SplitOn(Lines(ls), '\n') == ls + [[]]
  {
    if ls != [] {
      SplitLines(ls[1..]);
      SplitOnField(ls[0], '\n', Lines(ls[1..]));
      assert [ls[0]] + (ls[1..] + [[]]) == ls + [[]];
    }
  }

  lemma {:induction false} LinesAppend(a: seq<string>, b: seq<string>)
    ensures Lines(a + b) == Lines(a) + Lines(b)
    decreases |a|
  {
    if a == [] {
      assert a + b == b;
    } else {
      var ab := a + b;
      assert ab[0] == a[0] && ab[1..] == a[1..] + b;
      LinesAppend(a[1..], b);
    }
  }

  /** The index-th field of `s.split(sep)` (Python's `s.split(sep)[0]` for index 0). */
  function FirstField(s: string, sep: char): (r: string)
    ensures |r| <= |s| && NoChar(r, sep) && r == s[..|r|]
    ensures |r| == |s| || s[|r|] == sep
  {
    if s == [] || s[0] == sep then [] else [s[0]] + FirstField(s[1..], sep)
  }

  lemma {:induction false} FirstFieldIsSplit(s: string, sep: char)
    ensures SplitOn(s, sep)[0] == FirstField(s, sep)
  {
    if s != [] && s[0] != sep {
      FirstFieldIsSplit(s[1..], sep);
      assert SplitOn(s, sep)[0] == [s[0]] + SplitOn(s[1..], sep)[0];
    }
  }

  predicate StartsWith(s: string, p: string) {
    |p| <= |s| && s[..|p|] == p
  }

  /** Python's `sub in s`. */
  predicate Contains(s: string, sub: string)
    decreases |s|
  {
    StartsWith(s, sub) || (s != [] && Contains(s[1..], sub))
  }

  /** An occurrence at a known offset is found by `in`. */
  lemma {:induction false} ContainsAt(s: string, i: nat, sub: string)
    requires i + |sub| <= |s| && s[i..i + |sub|] == sub
    ensures Contains(s, sub)
  {
    if i > 0 {
      assert s[1..][i - 1..i - 1 + |sub|] == s[i..i + |sub|];
      ContainsAt(s[1..], i - 1, sub);
    }
  }

  lemma ContainsInfix(a: string, sub: string, b: string)
    ensures Contains(a + sub + b, sub)
  {
    var s := a + sub + b;
    assert s[|a|..|a| + |sub|] == sub;
    ContainsAt(s, |a|, sub);
  }

  /** Python's `s.replace(pat, rep)`: left to right, non-overlapping. */
  function Replace(s: string, pat: string, rep: string): (r: string)
    requires pat != []
    decreases |s|
  {
    if |s| < |pat| then s
    else if s[..|pat|] == pat then rep + Replace(s[|pat|..], pat, rep)
    else [s[0]] + Replace(s[1..], pat, rep)
  }

  /** Replacing a pattern that does not occur leaves the text unchanged. */
  lemma {:induction false} ReplaceAbsent(s: string, pat: string, rep: string)
    requires pat != [] && !Contains(s, pat)
    ensures Replace(s, pat, rep) == s
  {
    if |s| >= |pat| {
      assert !StartsWith(s, pat);
      ReplaceAbsent(s[1..], pat, rep);
      assert [s[0]] + s[1..] == s;
    }
  }

  /** A prefix in which no occurrence of the pattern starts is copied unchanged. */
  lemma {:induction false} ReplaceSkip(a: string, t: string, pat: string, rep: string)
    requires pat != []
    requires forall i :: 0 <= i < |a| ==> !StartsWith((a + t)[i..], pat)
    ensures Replace(a + t, pat, rep) == a + Replace(t, pat, rep)
    decreases |a|
  {
    if a != [] {
      var s := a + t;
      assert s[0..] == s;
      assert s[1..] == a[1..] + t;
      forall i | 0 <= i < |a[1..]|
        ensures !StartsWith((a[1..] + t)[i..], pat)
      {
        assert (a[1..] + t)[i..] == s[i + 1..];
      }
      ReplaceSkip(a[1..], t, pat, rep);
      assert [a[0]] + a[1..] == a;
    } else {
      assert a + t == t;
    }
  }

  /** A pattern without a newline that does not occur in `a` cannot start inside `a` when
      `a` ends with a newline, whatever follows it. */
  lemma NoStartBeforeLine(a: string, pat: string, t: string)
    requires pat != [] && NoChar(pat, '\n')
    requires a == [] || a[|a| - 1] == '\n'
    requires !Contains(a, pat)
    ensures forall i :: 0 <= i < |a| ==> !StartsWith((a + t)[i..], pat)
  {
    forall i | 0 <= i < |a|
      ensures !StartsWith((a + t)[i..], pat)
    {
      var w := (a + t)[i..];
      if i + |pat| <= |a| {
        assert w[..|pat|] == a[i..i + |pat|];
        if a[i..i + |pat|] == pat {
          ContainsAt(a, i, pat);
        }
      } else {
        var k := |a| - 1 - i;
        assert w[k] == '\n';
        if |pat| <= |w| {
          assert w[..|pat|][k] != pat[k];
        }
      }
    }
  }

  /** An occurrence at the front is replaced, and the scan goes on after it. */
  lemma ReplaceLead(pat: string, t: string, rep: string)
    requires pat != []
    ensures Replace(pat + t, pat, rep) == rep + Replace(t, pat, rep)
  {
    var s := pat + t;
    assert s[..|pat|] == pat && s[|pat|..] == t;
  }

  /** The line holding just the pattern is replaced, and what follows it does not hold it. */
  lemma ReplaceLeadLine(pat: string, rep: string, b: string)
    requires pat != [] && pat[0] != '\n'
    requires !Contains(b, pat)
    ensures Replace(pat + ("\n" + b), pat, rep) == rep + ("\n" + b)
  {
    var nb := "\n" + b;
    ReplaceLead(pat, nb, rep);
    assert !Contains(nb, pat) by {
      assert !StartsWith(nb, pat) by {
        if |pat| <= |nb| { assert nb[..|pat|][0] != pat[0]; }
      }
      assert nb[1..] == b;
    }
    ReplaceAbsent(nb, pat, rep);
  }

  /** A line's text regrouped around its end: `a + x + "\n" + b` as `a + (x + ("\n" + b))`. */
  lemma LineRegroup(a: string, x: string, b: string)
    ensures a + x + "\n" + b == a + (x + ("\n" + b))
  {
  }

  /** Whole lines that do not hold a newline-free pattern pass through `replace` untouched. */
  lemma ReplaceAfterLines(a: string, t: string, pat: string, rep: string)
    requires pat != [] && NoChar(pat, '\n')
    requires a == [] || a[|a| - 1] == '\n'
    requires !Contains(a, pat)
    ensures Replace(a + t, pat, rep) == a + Replace(t, pat, rep)
  {
    NoStartBeforeLine(a, pat, t);
    ReplaceSkip(a, t, pat, rep);
  }

  /** Replacing a newline-free pattern that fills one line, in a text where no other line
      holds it, changes that line alone. */
  lemma ReplaceLine(a: string, pat: string, rep: string, b: string)
    requires pat != [] && pat[0] != '\n' && NoChar(pat, '\n')
    requires a == [] || a[|a| - 1] == '\n'
    requires !Contains(a, pat) && !Contains(b, pat)
    ensures Replace(a + (pat + ("\n" + b)), pat, rep) == a + (rep + ("\n" + b))
  {
    ReplaceAfterLines(a, pat + ("\n" + b), pat, rep);
    ReplaceLeadLine(pat, rep, b);
  }

  /** A pattern that starts with a character absent from the text does not occur in it. */
  lemma {:induction false} AbsentLead(s: string, pat: string)
    requires pat != [] && NoChar(s, pat[0])
    ensures !Contains(s, pat)
  {
    if s != [] {
      assert s[0] != pat[0];
      assert !StartsWith(s, pat) by {
        if |pat| <= |s| { assert s[..|pat|][0] != pat[0]; }
      }
      AbsentLead(s[1..], pat);
    }
  }

  /** Python's `s[:n]`, where a negative `n` counts from the end. */
  function PyPrefix(s: string, n: int): (r: string)
    ensures |r| <= |s| && r == s[..|r|]
    ensures n >= 0 ==> |r| == if n <= |s| then n else |s|
    ensures n < 0 ==> |r| == if |s| + n >= 0 then |s| + n else 0
  {
    if n >= 0 then (if n <= |s| then s[..n] else s)
    else if |s| + n >= 0 then s[..|s| + n] else []
  }

  function Digit(d: nat): char
    requires d < 10
  {
    "0123456789"[d]
  }

  /** Python's `str(n)` for a natural number. */
  function NatToString(n: nat): (r: string)
    ensures r != []
    ensures forall k :: 0 <= k < |r| ==> '0' <= r[k] <= '9'
  {
    if n < 10 then [Digit(n)] else NatToString(n / 10) + [Digit(n % 10)]
  }

  // ---------------------------------------------------------------- repr of a string

  /** A lower-case hexadecimal digit, as `repr` writes it in a `\xhh` escape. */
  function HexDigit(d: nat): (c: char)
    requires d < 16
    ensures HexValue(c) == d
  {
    if d < 10 then ('0' as int + d) as char else ('a' as int + d - 10) as char
  }

  /** The value of a lower-case hexadecimal digit (0 for any other character). */
  function HexValue(c: char): nat {
    if '0' <= c <= '9' then c as int - '0' as int
    else if 'a' <= c <= 'f' then c as int - 'a' as int + 10
    else 0
  }

  /** The quote `repr` puts around a string: `"` when the text holds `'` and no `"`, and `'`
      otherwise. */
  function ReprQuote(s: string): (q: char)
    ensures q == '"' <==> ('\'' in s && '"' !in s)
    ensures q == '\'' || q == '"'
  {
    if '\'' in s && '"' !in s then '"' else '\''
  }

  /** How `repr` writes one character inside quotes `q`: the backslash and the quote are
      escaped, tab, newline and carriage return get their letter escapes, the other control
      characters and DEL a `\xhh` escape, and everything else stands as itself. */
  function ReprChar(c: char, q: char): string {
    if c == '\\' || c == q then ['\\', c]
    else if c == '\t' then "\\t"
    else if c == '\n' then "\\n"
    else if c == '\r' then "\\r"
    else if c < ' ' || c as int == 127 then ControlEscape(c as int)
    else [c]
  }

  /** `\xhh`, the escape `repr` writes for a control character. */
  function ControlEscape(n: nat): string
    requires n < 32 || n == 127
  {
    var hi := if n < 16 then 0 else if n < 32 then 1 else 7;
    ['\\', 'x', HexDigit(hi), HexDigit(n - 16 * hi)]
  }

  function ReprBody(s: string, q: char): string
    decreases |s|
  {
    if s == [] then [] else ReprChar(s[0], q) + ReprBody(s[1..], q)
  }

  /** Python's `repr(s)` for a string, as `str()` of a dict shows each text value. */
  function PyRepr(s: string): string {
    var q := ReprQuote(s);
    [q] + ReprBody(s, q) + [q]
  }

  /** Reading a string literal's body back, as Python's parser does for the escapes `repr`
      writes. */
  function Unescape(t: string): string
    decreases |t|
  {
    if t == [] then []
    else if t[0] == '\\' && |t| >= 2 then
      if t[1] == 't' then ['\t'] + Unescape(t[2..])
      else if t[1] == 'n' then ['\n'] + Unescape(t[2..])
      else if t[1] == 'r' then ['\r'] + Unescape(t[2..])
      else if t[1] == 'x' && |t| >= 4 then [(HexValue(t[2]) * 16 + HexValue(t[3])) as char] + Unescape(t[4..])
      else [t[1]] + Unescape(t[2..])
    else [t[0]] + Unescape(t[1..])
  }

  lemma UnescapeChar(c: char, q: char, rest: string)
    requires q == '\'' || q == '"'
    ensures Unescape(ReprChar(c, q) + rest) == [c] + Unescape(rest)
  {
    var t := ReprChar(c, q) + rest;
    if c == '\\' || c == q {
      assert t[2..] == rest;
    } else if c == '\t' || c == '\n' || c == '\r' {
      assert t[2..] == rest;
    } else if c < ' ' || c as int == 127 {
      var n := c as int;
      var hi := if n < 16 then 0 else if n < 32 then 1 else 7;
      assert t[2..4] == [HexDigit(hi), HexDigit(n - 16 * hi)];
      assert HexValue(t[2]) * 16 + HexValue(t[3]) == n;
      assert t[4..] == rest;
    } else {
      assert t[1..] == rest;
    }
  }

  /** The body `repr` writes reads back as the string. */
  lemma {:induction false} UnescapeReprBody(s: string, q: char)
    requires q == '\'' || q == '"'
    ensures Unescape(ReprBody(s, q)) == s
    decreases |s|
  {
    if s != [] {
      UnescapeChar(s[0], q, ReprBody(s[1..], q));
      UnescapeReprBody(s[1..], q);
      assert [s[0]] + s[1..] == s;
    }
  }

  /** `repr` can be read back: inside its quotes, which `ReprQuote` chooses, the text
      unescapes to the string itself. So two different strings never print alike. */
  lemma PyReprReadsBack(s: string)
    ensures var r := PyRepr(s);
      && |r| >= 2 && r[0] == r[|r| - 1] == ReprQuote(s)
      && Unescape(r[1..|r| - 1]) == s
  {
    var q := ReprQuote(s);
    var r := PyRepr(s);
    assert r[1..|r| - 1] == ReprBody(s, q);
    UnescapeReprBody(s, q);
  }

  /** Printable ASCII without a quote or a backslash: the text `repr` leaves as it is. */
  predicate ReprPlain(s: string) {
    forall k :: 0 <= k < |s| ==> ' ' <= s[k] <= '~' && s[k] != '\'' && s[k] != '"' && s[k] != '\\'
  }

  /** Printable ASCII text without a quote or a backslash stands between single quotes as it is. */
  lemma PyReprPlain(s: string)
    requires ReprPlain(s)
    ensures PyRepr(s) == "'" + s + "'"
  {
    assert ReprQuote(s) == '\'';
    PlainBody(s, '\'');
  }

  lemma {:induction false} PlainBody(s: string, q: char)
    requires forall k :: 0 <= k < |s| ==> ' ' <= s[k] <= '~' && s[k] != q && s[k] != '\\'
    ensures ReprBody(s, q) == s
    decreases |s|
  {
    if s != [] {
      PlainBody(s[1..], q);
      assert [s[0]] + s[1..] == s;
    }
  }

  /** Printable ASCII text holding `'` but no `"` or backslash goes between double quotes,
      its `'` unescaped. */
  lemma PyReprDoubleQuoted(s: string)
    requires forall k :: 0 <= k < |s| ==> ' ' <= s[k] <= '~' && s[k] != '"' && s[k] != '\\'
    requires '\'' in s
    ensures PyRepr(s) == "\"" + s + "\""
  {
    assert ReprQuote(s) == '"';
    PlainBody(s, '"');
  }

  lemma PyReprApostrophe()
    ensures PyRepr("en_US'x") == "\"en_US'x\""
  {
    var s := "en_US'x";
    assert s[5] == '\'';
    PyReprDoubleQuoted(s);
  }

  /** A backslash is doubled. */
  lemma PyReprBackslash()
    ensures PyRepr("a\\b") == "'a\\\\b'"
  {
    var s := "a\\b";
    assert ReprQuote(s) == '\'';
    assert s[1..] == "\\b" && s[1..][1..] == "b";
    assert ReprBody("b", '\'') == "b" by { PlainBody("b", '\''); }
    assert ReprBody(s, '\'') == "a" + ("\\\\" + "b");
  }
}
