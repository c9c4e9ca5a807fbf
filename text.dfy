/** Plain-text operations the scripts borrow from Python's `str`: `strip`, `replace`,
    `split('\n')`, `'\n'.join`, `splitlines`, `int(...)` and the zero-padded decimal
    formatting of `f"{n:02d}"`. */
module TextUtil {
  import opened Wrappers

  // ---------------------------------------------------------------------------
  // Whitespace and strip
  // ---------------------------------------------------------------------------

  /** Python's `str.isspace` for one character. */
  predicate IsSpace(c: char) {
    c == ' ' || ('\t' <= c <= '\r') || ('\U{1C}' <= c <= '\U{1F}') || c == '\U{85}' || c == '\U{A0}'
    || c == '\U{1680}' || ('\U{2000}' <= c <= '\U{200A}') || c == '\U{2028}' || c == '\U{2029}'
    || c == '\U{202F}' || c == '\U{205F}' || c == '\U{3000}'
  }

  /** `s.lstrip()`. */
  function StripLeft(s: string): string {
    if s != [] && IsSpace(s[0]) then StripLeft(s[1..]) else s
  }

  /** `s.rstrip()`. */
  function StripRight(s: string): string {
    if s != [] && IsSpace(s[|s| - 1]) then StripRight(s[..|s| - 1]) else s
  }

  /** `lstrip` cuts a run of leading whitespace and nothing else, and what is left
      does not start with whitespace. */
  lemma {:induction false} StripLeftShape(s: string)
    ensures |StripLeft(s)| <= |s| && StripLeft(s) == s[|s| - |StripLeft(s)|..]
    ensures StripLeft(s) == [] || !IsSpace(StripLeft(s)[0])
    ensures forall i :: 0 <= i < |s| - |StripLeft(s)| ==> IsSpace(s[i])
  {
    if s != [] && IsSpace(s[0]) {
      var t := s[1..];
      StripLeftShape(t);
      assert StripLeft(s) == StripLeft(t);
      assert t[|t| - |StripLeft(t)|..] == s[|s| - |StripLeft(s)|..];
      forall i | 0 <= i < |s| - |StripLeft(s)| ensures IsSpace(s[i]) {
        if i > 0 {
          assert s[i] == t[i - 1];
        }
      }
    }
  }

  /** `rstrip` cuts a run of trailing whitespace and nothing else, and what is left
      does not end with whitespace. */
  lemma {:induction false} StripRightShape(s: string)
    ensures |StripRight(s)| <= |s| && StripRight(s) == s[..|StripRight(s)|]
    ensures StripRight(s) == [] || !IsSpace(StripRight(s)[|StripRight(s)| - 1])
    ensures forall i :: |StripRight(s)| <= i < |s| ==> IsSpace(s[i])
  {
    if s != [] && IsSpace(s[|s| - 1]) {
      var t := s[..|s| - 1];
      StripRightShape(t);
      assert StripRight(s) == StripRight(t);
      assert t[..|StripRight(t)|] == s[..|StripRight(s)|];
      forall i | |StripRight(s)| <= i < |s| ensures IsSpace(s[i]) {
        if i < |s| - 1 {
          assert s[i] == t[i];
        }
      }
    }
  }

  /** `s.strip()`. */
  function Strip(s: string): string {
    StripRight(StripLeft(s))
  }

  /** Where the stripped text begins inside `s`. */
  function StripOffset(s: string): nat {
    StripLeftShape(s);
    |s| - |StripLeft(s)|
  }

  predicate IsStripped(s: string) {
    s == [] || (!IsSpace(s[0]) && !IsSpace(s[|s| - 1]))
  }

  /** The strip of `s` is the infix of `s` that starts at `StripOffset(s)`, everything
      cut at either end is whitespace, and the result neither begins nor ends with
      whitespace. */
  lemma StripShape(s: string)
    ensures |Strip(s)| <= |s| && IsStripped(Strip(s))
    ensures StripOffset(s) + |Strip(s)| <= |s| && Strip(s) == s[StripOffset(s)..StripOffset(s) + |Strip(s)|]
    ensures forall i :: 0 <= i < StripOffset(s) ==> IsSpace(s[i])
    ensures forall i :: StripOffset(s) + |Strip(s)| <= i < |s| ==> IsSpace(s[i])
  {
    StripLeftShape(s);
    StripRightShape(StripLeft(s));
    var l := StripLeft(s);
    var r := Strip(s);
    if r != [] {
      assert r[0] == l[0];
    }
    forall i | StripOffset(s) + |r| <= i < |s| ensures IsSpace(s[i]) {
      assert s[i] == l[i - StripOffset(s)];
    }
  }

  /** A string with no whitespace at either end is its own strip. */
  lemma StripStripped(s: string)
    requires IsStripped(s)
    ensures Strip(s) == s
  {
  }

  /** Stripping twice is stripping once. */
  lemma StripIdempotent(s: string)
    ensures Strip(Strip(s)) == Strip(s)
  {
    StripShape(s);
    StripStripped(Strip(s));
  }

  /** A string is all whitespace exactly when its strip is empty. */
  lemma StripEmptyIffBlank(s: string)
    ensures Strip(s) == [] <==> forall i :: 0 <= i < |s| ==> IsSpace(s[i])
  {
    StripShape(s);
    if Strip(s) != [] {
      assert Strip(s)[0] == s[StripOffset(s)];
    }
  }

  // ---------------------------------------------------------------------------
  // Occurrences and replace
  // ---------------------------------------------------------------------------

  predicate OccursAt(s: string, pat: string, i: int) {
    0 <= i && i + |pat| <= |s| && s[i..i + |pat|] == pat
  }

  predicate Contains(s: string, pat: string) {
    exists i :: 0 <= i <= |s| && OccursAt(s, pat, i)
  }

  /** `s.replace(pat, rep)`: occurrences are replaced from left to right and do not
      overlap; an empty `pat` puts `rep` before every character and at the end. */
  function Replace(s: string, pat: string, rep: string): (r: string)
    ensures rep == [] ==> |r| <= |s|
    decreases |s|
  {
    if pat == [] then
      (if s == [] then rep else rep + [s[0]] + Replace(s[1..], pat, rep))
    else if |s| < |pat| then s
    else if s[..|pat|] == pat then rep + Replace(s[|pat|..], pat, rep)
    else [s[0]] + Replace(s[1..], pat, rep)
  }

  /** Replacing a pattern that does not occur changes nothing. */
  lemma {:induction false} ReplaceAbsent(s: string, pat: string, rep: string)
    requires pat != [] && !Contains(s, pat)
    ensures Replace(s, pat, rep) == s
    decreases |s|
  {
    if |s| >= |pat| {
      assert !OccursAt(s, pat, 0);
      assert s[..|pat|] != pat;
      if !Contains(s[1..], pat) {
        ReplaceAbsent(s[1..], pat, rep);
        assert [s[0]] + s[1..] == s;
      } else {
        var i :| 0 <= i <= |s[1..]| && OccursAt(s[1..], pat, i);
        assert s[i + 1..i + 1 + |pat|] == s[1..][i..i + |pat|];
        assert OccursAt(s, pat, i + 1);
      }
    }
  }

  /** A prefix that does not contain the pattern's first character is copied
      through unchanged. */
  lemma {:induction false} ReplaceSkipsPrefix(pre: string, s: string, pat: string, rep: string)
    requires pat != [] && pat[0] !in pre
    ensures Replace(pre + s, pat, rep) == pre + Replace(s, pat, rep)
    decreases |pre|
  {
    if pre == [] {
      assert pre + s == s;
    } else {
      var t := pre + s;
      var rs := Replace(s, pat, rep);
      assert t[0] == pre[0] && t[1..] == pre[1..] + s;
      ReplaceSkipsPrefix(pre[1..], s, pat, rep);
      if |t| < |pat| {
        assert Replace(t, pat, rep) == t;
        assert rs == s;
      } else {
        assert t[..|pat|] != pat by {
          assert t[..|pat|][0] == pre[0];
        }
        assert Replace(t, pat, rep) == [pre[0]] + Replace(t[1..], pat, rep);
        assert [pre[0]] + (pre[1..] + rs) == pre + rs;
      }
    }
  }

  /** When a single marked placeholder sits between text that cannot start a match,
      replacing it splices in the value: the shape of `str.format` on a template
      with one named field. */
  lemma ReplaceSplice(pre: string, pat: string, post: string, rep: string)
    requires pat != [] && pat[0] !in pre && pat[0] !in post
    ensures Replace(pre + pat + post, pat, rep) == pre + rep + post
  {
    var tail := pat + post;
    assert pre + pat + post == pre + tail;
    ReplaceSkipsPrefix(pre, tail, pat, rep);
    assert tail[..|pat|] == pat && tail[|pat|..] == post;
    assert Replace(tail, pat, rep) == rep + Replace(post, pat, rep);
    ReplaceSkipsPrefix(post, [], pat, rep);
    assert post + [] == post;
  }

  /** `s.count(c)` for one character. */
  function CountChar(s: string, c: char): (n: nat)
    ensures n <= |s|
    ensures n == 0 <==> c !in s
  {
    if s == [] then 0 else (if s[0] == c then 1 else 0) + CountChar(s[1..], c)
  }

  lemma {:induction false} CountCharAppend(a: string, b: string, c: char)
    ensures CountChar(a + b, c) == CountChar(a, c) + CountChar(b, c)
    decreases |a|
  {
    if a == [] {
      assert a + b == b;
    } else {
      assert (a + b)[1..] == a[1..] + b;
      CountCharAppend(a[1..], b, c);
    }
  }

  // ---------------------------------------------------------------------------
  // split('\n') and '\n'.join
  // ---------------------------------------------------------------------------

  /** `s.split(sep)` for a one-character separator: always at least one piece,
      and no piece contains the separator. */
  function Split(s: string, sep: char): (r: seq<string>)
    ensures |r| >= 1
    ensures forall i :: 0 <= i < |r| ==> sep !in r[i]
  {
    if s == [] then [[]]
    else if s[0] == sep then [[]] + Split(s[1..], sep)
    else
      var rest := Split(s[1..], sep);
      [[s[0]] + rest[0]] + rest[1..]
  }

  /** `sep.join(lines)`. */
  function Join(lines: seq<string>, sep: string): string
  {
    if lines == [] then []
    else if |lines| == 1 then lines[0]
    else lines[0] + sep + Join(lines[1..], sep)
  }

  /** Joining two non-empty runs of lines puts one separator between them. */
  lemma {:induction false} JoinAppend(a: seq<string>, b: seq<string>, sep: string)
    requires a != [] && b != []
    ensures Join(a + b, sep) == Join(a, sep) + sep + Join(b, sep)
    decreases |a|
  {
    if |a| == 1 {
      assert (a + b)[1..] == b;
    } else {
      assert (a + b)[1..] == a[1..] + b;
      JoinAppend(a[1..], b, sep);
    }
  }

  /** Splitting a joined text on the same separator returns the lines, as long as
      no line holds the separator: the line count survives the round trip. */
  lemma {:induction false} SplitJoin(lines: seq<string>, sep: char)
    requires lines != []
    requires forall i :: 0 <= i < |lines| ==> sep !in lines[i]
    ensures Split(Join(lines, [sep]), sep) == lines
    decreases |lines|
  {
    if |lines| == 1 {
      SplitNoSeparator(lines[0], sep);
    } else {
      SplitJoin(lines[1..], sep);
      SplitPrefix(lines[0], Join(lines[1..], [sep]), sep);
      assert [lines[0]] + lines[1..] == lines;
    }
  }

  /** A text without the separator is one piece. */
  lemma {:induction false} SplitNoSeparator(s: string, sep: char)
    requires sep !in s
    ensures Split(s, sep) == [s]
  {
    if s != [] {
      assert s[0] != sep;
      assert sep !in s[1..];
      SplitNoSeparator(s[1..], sep);
      assert [s[0]] + s[1..] == s;
    }
  }

  /** A separator-free head followed by a separator starts a new piece. */
  lemma {:induction false} SplitPrefix(head: string, tail: string, sep: char)
    requires sep !in head
    ensures Split(head + [sep] + tail, sep) == [head] + Split(tail, sep)
    decreases |head|
  {
    var s := head + [sep] + tail;
    if head == [] {
      assert s[1..] == tail;
    } else {
      assert s[1..] == head[1..] + [sep] + tail;
      SplitPrefix(head[1..], tail, sep);
      assert [head[0]] + head[1..] == head;
    }
  }

  /** Joining the pieces of a split gives the text back. */
  lemma {:induction false} JoinSplit(s: string, sep: char)
    ensures Join(Split(s, sep), [sep]) == s
  {
    if s != [] {
      JoinSplit(s[1..], sep);
      var rest := Split(s[1..], sep);
      if s[0] == sep {
        assert Split(s, sep) == [[]] + rest;
      } else {
        if |rest| == 1 {
        } else {
          assert Join(rest, [sep]) == rest[0] + [sep] + Join(rest[1..], [sep]);
          var r := Split(s, sep);
          assert r[1..] == rest[1..];
        }
      }
    }
  }

  // ---------------------------------------------------------------------------
  // splitlines
  // ---------------------------------------------------------------------------

  /** The characters `str.splitlines` breaks on. */
  predicate IsLineBreak(c: char) {
    ('\n' <= c <= '\r') || ('\U{1C}' <= c <= '\U{1E}') || c == '\U{85}' || c == '\U{2028}' || c == '\U{2029}'
  }

  predicate NoLineBreak(s: string) {
    forall i :: 0 <= i < |s| ==> !IsLineBreak(s[i])
  }

  /** `s.splitlines()`: `"\r\n"` counts as one break, a trailing break does not
      start an extra empty line, and the empty text has no lines. */
  function SplitLines(s: string): (r: seq<string>)
    ensures forall i :: 0 <= i < |r| ==> NoLineBreak(r[i])
    decreases |s|
  {
    if s == [] then []
    else if IsLineBreak(s[0]) then
      var skip := if s[0] == '\r' && |s| > 1 && s[1] == '\n' then 2 else 1;
      [[]] + SplitLines(s[skip..])
    else
      var rest := SplitLines(s[1..]);
      if rest == [] then [[s[0]]]
      else [[s[0]] + rest[0]] + rest[1..]
  }

  /** Lines without breaks, joined by `"\n"`, split back into the same lines when
      the last one is not empty. */
  lemma {:induction false} SplitLinesJoin(lines: seq<string>)
    requires forall i :: 0 <= i < |lines| ==> NoLineBreak(lines[i])
    requires lines != [] ==> lines[|lines| - 1] != []
    ensures SplitLines(Join(lines, "\n")) == lines
    decreases |lines|
  {
    if lines == [] {
    } else if |lines| == 1 {
      SplitLinesNoBreak(lines[0]);
    } else {
      SplitLinesJoin(lines[1..]);
      var tail := Join(lines[1..], "\n");
      assert tail != [] by { JoinLastNonEmpty(lines[1..]); }
      SplitLinesHead(lines[0], tail);
      assert [lines[0]] + lines[1..] == lines;
    }
  }

  lemma {:induction false} JoinLastNonEmpty(lines: seq<string>)
    requires lines != [] && lines[|lines| - 1] != []
    ensures Join(lines, "\n") != []
    decreases |lines|
  {
    if |lines| > 1 {
      JoinLastNonEmpty(lines[1..]);
    }
  }

  lemma {:induction false} SplitLinesNoBreak(s: string)
    requires s != [] && NoLineBreak(s)
    ensures SplitLines(s) == [s]
    decreases |s|
  {
    assert !IsLineBreak(s[0]);
    if |s| == 1 {
      assert s == [s[0]];
    } else {
      assert NoLineBreak(s[1..]) by {
        forall i | 0 <= i < |s[1..]| ensures !IsLineBreak(s[1..][i]) { assert s[1..][i] == s[i + 1]; }
      }
      SplitLinesNoBreak(s[1..]);
      assert [s[0]] + s[1..] == s;
    }
  }

  lemma {:induction false} SplitLinesHead(head: string, tail: string)
    requires NoLineBreak(head) && tail != []
    ensures SplitLines(head + "\n" + tail) == [head] + SplitLines(tail)
    decreases |head|
  {
    var s := head + "\n" + tail;
    if head == [] {
      assert s[1..] == tail;
    } else {
      assert s[1..] == head[1..] + "\n" + tail;
      SplitLinesHead(head[1..], tail);
      assert [head[0]] + head[1..] == head;
    }
  }

  // ---------------------------------------------------------------------------
  // Decimal digits: f"{n}", f"{n:02d}" and int(...)
  // ---------------------------------------------------------------------------

  predicate IsDigit(c: char) { '0' <= c <= '9' }

  predicate AllDigits(s: string) {
    forall i :: 0 <= i < |s| ==> IsDigit(s[i])
  }

  function DigitChar(d: nat): (c: char)
    requires d < 10
    ensures IsDigit(c)
  {
    ('0' as int + d) as char
  }

  /** The value of a run of decimal digits (the empty run is 0). */
  function DigitsValue(s: string): nat
    requires AllDigits(s)
  {
    if s == [] then 0 else DigitsValue(s[..|s| - 1]) * 10 + (s[|s| - 1] as int - '0' as int)
  }

  /** `str(n)` for a natural number. */
  function NatToString(n: nat): (r: string)
    ensures r != [] && AllDigits(r)
  {
    if n < 10 then [DigitChar(n)] else NatToString(n / 10) + [DigitChar(n % 10)]
  }

  function Pow10(k: nat): (r: nat)
    ensures r >= 1
  {
    if k == 0 then 1 else 10 * Pow10(k - 1)
  }

  /** `str(n)` reads back as `n`. */
  lemma {:induction false} NatToStringValue(n: nat)
    ensures DigitsValue(NatToString(n)) == n
  {
    if n >= 10 {
      NatToStringValue(n / 10);
      var s := NatToString(n);
      assert s[..|s| - 1] == NatToString(n / 10);
    }
  }

  /** A number below `10^k` has at most `k` digits. */
  lemma {:induction false} NatToStringLength(n: nat, k: nat)
    requires 1 <= k && n < Pow10(k)
    ensures |NatToString(n)| <= k
  {
    if n >= 10 {
      NatToStringLength(n / 10, k - 1);
    }
  }

  function Zeros(k: nat): (r: string)
    ensures |r| == k && AllDigits(r)
  {
    if k == 0 then [] else "0" + Zeros(k - 1)
  }

  /** `f"{n:0{width}d}"`: the decimal digits of `n`, padded on the left with zeros to
      at least `width` characters. */
  function ZeroPad(n: nat, width: nat): (r: string)
    ensures AllDigits(r) && |r| >= width && |r| >= 1
  {
    var d := NatToString(n);
    if |d| >= width then d else Zeros(width - |d|) + d
  }

  /** Leading zeros do not change the value of a run of digits. */
  lemma {:induction false} LeadingZerosValue(k: nat, s: string)
    requires AllDigits(s)
    ensures DigitsValue(Zeros(k) + s) == DigitsValue(s)
    decreases |s|
  {
    if s == [] {
      ZerosValue(k);
      assert Zeros(k) + s == Zeros(k);
    } else {
      var t := Zeros(k) + s;
      assert t[..|t| - 1] == Zeros(k) + s[..|s| - 1];
      LeadingZerosValue(k, s[..|s| - 1]);
    }
  }

  lemma {:induction false} ZerosValue(k: nat)
    ensures DigitsValue(Zeros(k)) == 0
  {
    if k > 0 {
      var z := Zeros(k);
      assert z[..|z| - 1] == Zeros(k - 1) by {
        if k > 1 {
          assert z[..|z| - 1] == "0" + Zeros(k - 1)[..k - 2];
          ZerosSplit(k - 1);
        }
      }
      ZerosValue(k - 1);
    }
  }

  lemma {:induction false} ZerosSplit(k: nat)
    requires k >= 1
    ensures Zeros(k) == Zeros(k - 1) + "0"
  {
    if k > 1 {
      ZerosSplit(k - 1);
    }
  }

  /** Zero padding reads back as the padded number, and a number below `10^width`
      takes exactly `width` characters. */
  lemma ZeroPadValue(n: nat, width: nat)
    ensures DigitsValue(ZeroPad(n, width)) == n
    ensures 1 <= width && n < Pow10(width) ==> |ZeroPad(n, width)| == width
  {
    NatToStringValue(n);
    var d := NatToString(n);
    if |d| < width {
      LeadingZerosValue(width - |d|, d);
      assert ZeroPad(n, width) == Zeros(width - |d|) + d;
    } else {
      assert ZeroPad(n, width) == d;
      if 1 <= width && n < Pow10(width) {
        NatToStringLength(n, width);
      }
    }
  }

  /** A run of digits is its own strip. */
  lemma DigitsStripped(s: string)
    ensures AllDigits(s) ==> Strip(s) == s
  {
    if AllDigits(s) && s != [] {
      assert !IsSpace(s[0]) && !IsSpace(s[|s| - 1]);
      StripStripped(s);
    }
  }

  /** Python's `int(s)` on a decimal text: surrounding whitespace is allowed, then an
      optional sign and at least one ASCII digit; anything else raises, which is
      `None`. */
  function ParseInt(s: string): (r: Option<int>)
    ensures AllDigits(s) && s != [] ==> r == Some(DigitsValue(s))
    ensures var t := Strip(s);
      && (t != [] && AllDigits(t) ==> r == Some(DigitsValue(t)))
      && (|t| >= 2 && t[0] == '+' && AllDigits(t[1..]) ==> r == Some(DigitsValue(t[1..])))
      && (|t| >= 2 && t[0] == '-' && AllDigits(t[1..]) ==> r == Some(0 - DigitsValue(t[1..])))
      && (r.Some? <==> (t != [] && AllDigits(t)) || (|t| >= 2 && (t[0] == '+' || t[0] == '-') && AllDigits(t[1..])))
  {
    if AllDigits(s) && s != [] then
      // a run of digits has nothing to strip
      DigitsStripped(s);
      Some(DigitsValue(s))
    else
      var t := Strip(s);
      if t != [] && AllDigits(t) then Some(DigitsValue(t))
    else if |t| >= 2 && t[0] == '+' && AllDigits(t[1..]) then Some(DigitsValue(t[1..]))
    else if |t| >= 2 && t[0] == '-' && AllDigits(t[1..]) then Some(0 - DigitsValue(t[1..]) as int)
    else None
  }

  predicate AllSpace(s: string) {
    forall i :: 0 <= i < |s| ==> IsSpace(s[i])
  }

  /** A signed run of digits between whitespace reads back as its value. */
  lemma ParseIntReadsBack(lead: string, sign: string, digits: string, trail: string)
    requires AllSpace(lead) && AllSpace(trail)
    requires sign == "" || sign == "+" || sign == "-"
    requires digits != [] && AllDigits(digits)
    ensures ParseInt(lead + sign + digits + trail)
         == Some(if sign == "-" then 0 - DigitsValue(digits) else DigitsValue(digits))
  {
    var x := sign + digits;
    SignedDigitsStrip(lead, sign, digits, trail);
    if sign == "" {
      assert x == digits;
    } else {
      assert |x| >= 2 && x[0] == sign[0] && x[1..] == digits;
    }
  }

  lemma SignedDigitsStrip(lead: string, sign: string, digits: string, trail: string)
    requires AllSpace(lead) && AllSpace(trail)
    requires sign == "" || sign == "+" || sign == "-"
    requires digits != [] && AllDigits(digits)
    ensures Strip(lead + sign + digits + trail) == sign + digits
  {
    var x := sign + digits;
    assert lead + sign + digits + trail == lead + x + trail;
    assert x[|x| - 1] == digits[|digits| - 1];
    assert x[0] == if sign == "" then digits[0] else sign[0];
    StripSpacesAround(lead, x, trail);
  }

  /** Whitespace around a text with no whitespace at either end is what `strip`
      cuts. */
  lemma StripSpacesAround(lead: string, x: string, trail: string)
    requires AllSpace(lead) && AllSpace(trail) && x != [] && IsStripped(x)
    ensures Strip(lead + x + trail) == x
  {
    assert lead + x + trail == lead + (x + trail);
    StripLeftSpaces(lead, x + trail);
    StripRightSpaces(x, trail);
  }

  lemma {:induction false} StripLeftSpaces(lead: string, y: string)
    requires AllSpace(lead) && y != [] && !IsSpace(y[0])
    ensures StripLeft(lead + y) == y
    decreases |lead|
  {
    if lead == [] {
      assert lead + y == y;
    } else {
      assert (lead + y)[1..] == lead[1..] + y;
      StripLeftSpaces(lead[1..], y);
    }
  }

  lemma {:induction false} StripRightSpaces(x: string, trail: string)
    requires AllSpace(trail) && x != [] && !IsSpace(x[|x| - 1])
    ensures StripRight(x + trail) == x
    decreases |trail|
  {
    if trail == [] {
      assert x + trail == x;
    } else {
      var u := x + trail;
      assert u[..|u| - 1] == x + trail[..|trail| - 1];
      StripRightSpaces(x, trail[..|trail| - 1]);
    }
  }
}
