/** SRT timestamps `HH:MM:SS,mmm`, over integer milliseconds.

    `format_srt_time` (identical in the colab and the local transcriber) and
    `seconds_to_srt_time` (segmenter) write a time; `srt_time_to_seconds`
    (segmenter) reads one back. */
module SrtTime {
  import opened Wrappers
  import opened TextUtil

  /** The four fields of a time: whole hours, then minutes, seconds and milliseconds
      of the hour. */
  function Hours(ms: nat): nat { ms / 3600000 }
  function Minutes(ms: nat): nat { (ms % 3600000) / 60000 }
  function Seconds(ms: nat): nat { (ms % 60000) / 1000 }
  function Millis(ms: nat): nat { ms % 1000 }

  /** The time of an hour, minute, second and millisecond field. */
  function TimeOf(h: int, m: int, s: int, x: int): int {
    h * 3600000 + m * 60000 + s * 1000 + x
  }

  /** The fields are in range and add back up to the time. */
  lemma FieldsRecompose(ms: nat)
    ensures Minutes(ms) < 60 && Seconds(ms) < 60 && Millis(ms) < 1000
    ensures TimeOf(Hours(ms), Minutes(ms), Seconds(ms), Millis(ms)) == ms
  {
    var h, r := ms / 3600000, ms % 3600000;
    var m, r2 := r / 60000, r % 60000;
    var s, x := r2 / 1000, r2 % 1000;
    DivMod(ms, h * 60 + m, r2, 60000);
    DivMod(ms, (h * 60 + m) * 60 + s, x, 1000);
  }

  /** Division with remainder is unique. */
  lemma DivMod(a: int, q: int, r: int, d: int)
    requires 0 < d && 0 <= r < d && a == q * d + r
    ensures a / d == q && a % d == r
  {
    var k := a / d - q;
    assert k * d == r - a % d;
    MulBound(k, d);
  }

  lemma MulBound(k: int, d: int)
    requires 0 < d
    ensures k >= 1 ==> k * d >= d
    ensures k <= -1 ==> k * d <= -d
  {
  }

  /** `format_srt_time`: `f"{h:02d}:{m:02d}:{s:02d},{ms:03d}"`. */
  function FormatSrtTime(ms: nat): (r: string)
    ensures |r| >= 12
  {
    Assemble(ZeroPad(Hours(ms), 2), ZeroPad(Minutes(ms), 2), ZeroPad(Seconds(ms), 2), ZeroPad(Millis(ms), 3))
  }

  /** `r` is `HH..:MM:SS,mmm` with hours of at least two digits, exactly two digits
      of minutes below 60, two of seconds below 60 and three of milliseconds below
      1000, and its fields add up to `ms`. */
  predicate IsSrtTimeOf(r: string, ms: nat) {
    var k := |r| - 10;
    && k >= 2 && AllDigits(r[..k]) && r[k] == ':' && AllDigits(r[k + 1..k + 3]) && r[k + 3] == ':'
    && AllDigits(r[k + 4..k + 6]) && r[k + 6] == ',' && AllDigits(r[k + 7..])
    && DigitsValue(r[k + 1..k + 3]) < 60 && DigitsValue(r[k + 4..k + 6]) < 60
    && DigitsValue(r[k + 7..]) < 1000
    && TimeOf(DigitsValue(r[..k]), DigitsValue(r[k + 1..k + 3]), DigitsValue(r[k + 4..k + 6]),
              DigitsValue(r[k + 7..])) == ms
  }

  /** The written time has the SRT shape and its fields read back as the time. */
  lemma FormatSrtTimeFields(ms: nat)
    ensures IsSrtTimeOf(FormatSrtTime(ms), ms)
  {
    FieldsRecompose(ms);
    ZeroPadValue(Hours(ms), 2);
    ZeroPadValue(Minutes(ms), 2);
    ZeroPadValue(Seconds(ms), 2);
    ZeroPadValue(Millis(ms), 3);
    AssembledIsSrtTime(ZeroPad(Hours(ms), 2), ZeroPad(Minutes(ms), 2), ZeroPad(Seconds(ms), 2),
                       ZeroPad(Millis(ms), 3), ms);
  }

  /** Four digit runs of the right widths and ranges, adding up to `ms`, assemble
      into a time of `ms`. */
  lemma AssembledIsSrtTime(hh: string, mm: string, ss: string, xx: string, ms: nat)
    requires AllDigits(hh) && AllDigits(mm) && AllDigits(ss) && AllDigits(xx)
    requires |hh| >= 2 && |mm| == 2 && |ss| == 2 && |xx| == 3
    requires DigitsValue(mm) < 60 && DigitsValue(ss) < 60 && DigitsValue(xx) < 1000
    requires TimeOf(DigitsValue(hh), DigitsValue(mm), DigitsValue(ss), DigitsValue(xx)) == ms
    ensures IsSrtTimeOf(Assemble(hh, mm, ss, xx), ms)
  {
    AssembledShape(hh, mm, ss, xx);
  }

  /** The text `hh:mm:ss,xxx` assembled from four digit runs. */
  function Assemble(hh: string, mm: string, ss: string, xx: string): string {
    hh + ":" + mm + ":" + ss + "," + xx
  }

  /** Where the fields of an assembled time sit. */
  lemma AssembledShape(hh: string, mm: string, ss: string, xx: string)
    requires AllDigits(hh) && AllDigits(mm) && AllDigits(ss) && AllDigits(xx)
    requires |hh| >= 2 && |mm| == 2 && |ss| == 2 && |xx| == 3
    ensures var r := Assemble(hh, mm, ss, xx); var k := |r| - 10;
      k == |hh| && r[..k] == hh && r[k] == ':' && r[k + 1..k + 3] == mm && r[k + 3] == ':'
      && r[k + 4..k + 6] == ss && r[k + 6] == ',' && r[k + 7..] == xx
  {
    var r := Assemble(hh, mm, ss, xx);
    var k := |hh|;
    assert r == hh + (":" + (mm + (":" + (ss + ("," + xx)))));
    var r1 := r[k + 1..];
    assert r1 == mm + (":" + (ss + ("," + xx)));
    assert r[k + 1..k + 3] == r1[..2];
    var r2 := r[k + 4..];
    assert r2 == ss + ("," + xx);
    assert r[k + 4..k + 6] == r2[..2];
  }

  /** `srt_time_to_seconds` on an assembled time reads each field as a number. */
  lemma ParseAssembled(hh: string, mm: string, ss: string, xx: string)
    requires AllDigits(hh) && AllDigits(mm) && AllDigits(ss) && AllDigits(xx)
    requires hh != [] && mm != [] && ss != [] && xx != []
    ensures SrtTimeToMs(Assemble(hh, mm, ss, xx))
            == Some(TimeOf(DigitsValue(hh), DigitsValue(mm), DigitsValue(ss), DigitsValue(xx)))
  {
    var t := Assemble(hh, mm, ss, xx);
    DigitsNoColon(hh);
    DigitsNoColon(mm);
    DigitsNoColon(ss);
    DigitsNoColon(xx);
    AssembledCounts(hh, mm, ss, xx);
    AssembledSplits(hh, mm, ss, xx);
    var parts := Split(t, ',');
    var hms := Split(parts[0], ':');
    assert hms == [hh, mm, ss] && parts[1] == xx;
    assert SrtTimeToMs(t) == Combine(ParseInt(hh), ParseInt(mm), ParseInt(ss), ParseInt(xx));
  }

  predicate NoMarks(s: string) { ':' !in s && ',' !in s }

  lemma AssembledCounts(hh: string, mm: string, ss: string, xx: string)
    requires NoMarks(hh) && NoMarks(mm) && NoMarks(ss) && NoMarks(xx)
    ensures var t := Assemble(hh, mm, ss, xx); t != [] && CountChar(t, ':') == 2 && ',' in t
  {
    var t := Assemble(hh, mm, ss, xx);
    var p5 := "," + xx;
    var p4 := ss + p5;
    var p3 := ":" + p4;
    var p2 := mm + p3;
    var p1 := ":" + p2;
    assert t == hh + p1;
    CountCharAppend(",", xx, ':');
    assert CountChar(p5, ':') == 0;
    CountCharAppend(ss, p5, ':');
    assert CountChar(p4, ':') == 0;
    CountCharAppend(":", p4, ':');
    assert CountChar(p3, ':') == 1;
    CountCharAppend(mm, p3, ':');
    assert CountChar(p2, ':') == 1;
    CountCharAppend(":", p2, ':');
    assert CountChar(p1, ':') == 2;
    CountCharAppend(hh, p1, ':');
    assert t[|hh| + |p1| - |p5|] == p5[0] == ',';
  }

  lemma AssembledSplits(hh: string, mm: string, ss: string, xx: string)
    requires NoMarks(hh) && NoMarks(mm) && NoMarks(ss) && NoMarks(xx)
    ensures var t := Assemble(hh, mm, ss, xx);
      Split(t, ',') == [hh + ":" + mm + ":" + ss, xx]
      && Split(hh + ":" + mm + ":" + ss, ':') == [hh, mm, ss]
  {
    HeadHasNoComma(hh, mm, ss);
    TwoPieces(hh + ":" + mm + ":" + ss, xx, ',');
    assert Assemble(hh, mm, ss, xx) == (hh + ":" + mm + ":" + ss) + [','] + xx;
    TwoPieces(mm, ss, ':');
    ThreePieces(hh, mm, ss);
  }

  lemma TwoPieces(a: string, b: string, sep: char)
    requires sep !in a && sep !in b
    ensures Split(a + [sep] + b, sep) == [a, b]
  {
    SplitPrefix(a, b, sep);
    SplitNoSeparator(b, sep);
  }

  lemma ThreePieces(hh: string, mm: string, ss: string)
    requires ':' !in hh && Split(mm + ":" + ss, ':') == [mm, ss]
    ensures Split(hh + ":" + mm + ":" + ss, ':') == [hh, mm, ss]
  {
    SplitPrefix(hh, mm + ":" + ss, ':');
    assert hh + [':'] + (mm + ":" + ss) == hh + ":" + mm + ":" + ss;
  }

  lemma HeadHasNoComma(hh: string, mm: string, ss: string)
    requires NoMarks(hh) && NoMarks(mm) && NoMarks(ss)
    ensures ',' !in hh + ":" + mm + ":" + ss
  {
    var head := hh + ":" + mm + ":" + ss;
    forall i | 0 <= i < |head| ensures head[i] != ',' {
      if i < |hh| { assert head[i] == hh[i]; }
      else if i == |hh| { }
      else if i < |hh| + 1 + |mm| { assert head[i] == mm[i - |hh| - 1]; }
      else if i == |hh| + 1 + |mm| { }
      else { assert head[i] == ss[i - |hh| - 2 - |mm|]; }
    }
  }

  /** `srt_time_to_seconds`, in milliseconds. An empty text, one without exactly two
      `':'` or without a `','` gives 0. Otherwise the text is cut at `','` and its first
      piece at `':'`, and the hour, minute, second and millisecond fields go through
      `int(...)`; a missing field or a field `int` rejects raises, which is `None`. */
  function SrtTimeToMs(t: string): (r: Option<int>)
    ensures t == [] || CountChar(t, ':') != 2 || ',' !in t ==> r == Some(0)
  {
    if t == [] || CountChar(t, ':') != 2 || ',' !in t then Some(0)
    else
      var parts := Split(t, ',');
      var hms := Split(parts[0], ':');
      if |parts| < 2 || |hms| < 3 then None
      else
        Combine(ParseInt(hms[0]), ParseInt(hms[1]), ParseInt(hms[2]), ParseInt(parts[1]))
  }

  /** The time of four parsed fields, or `None` when any of them failed. */
  function Combine(h: Option<int>, m: Option<int>, s: Option<int>, x: Option<int>): Option<int> {
    if h.Some? && m.Some? && s.Some? && x.Some? then
      Some(TimeOf(h.value, m.value, s.value, x.value))
    else None
  }

  /** `seconds_to_srt_time`: a negative time is written as 0, any other as
      `format_srt_time` writes it. */
  function SecondsToSrtTime(ms: int): (r: string)
    ensures r == FormatSrtTime(if ms < 0 then 0 else ms)
  {
    var t: nat := if ms < 0 then 0 else ms;
    Assemble(ZeroPad(Hours(t), 2), ZeroPad(Minutes(t), 2), ZeroPad(Seconds(t), 2), ZeroPad(Millis(t), 3))
  }

  /** Reading a written time gives the time back. */
  lemma FormatThenParse(ms: nat)
    ensures SrtTimeToMs(FormatSrtTime(ms)) == Some(ms)
  {
    var hh, mm, ss, xx := ZeroPad(Hours(ms), 2), ZeroPad(Minutes(ms), 2), ZeroPad(Seconds(ms), 2), ZeroPad(Millis(ms), 3);
    assert FormatSrtTime(ms) == Assemble(hh, mm, ss, xx);
    ZeroPadValue(Hours(ms), 2);
    ZeroPadValue(Minutes(ms), 2);
    ZeroPadValue(Seconds(ms), 2);
    ZeroPadValue(Millis(ms), 3);
    ParseAssembled(hh, mm, ss, xx);
    FieldsRecompose(ms);
  }

  lemma DigitsNoColon(s: string)
    requires AllDigits(s)
    ensures NoMarks(s)
  {
  }

  /** The fixed-width form `DD:DD:DD,DDD` that the SRT block reader accepts. */
  predicate IsTimeText(t: string) {
    && |t| == 12 && AllDigits(t[..2]) && t[2] == ':' && AllDigits(t[3..5]) && t[5] == ':'
    && AllDigits(t[6..8]) && t[8] == ',' && AllDigits(t[9..])
  }

  /** Below 100 hours a written time has exactly the fixed-width form. */
  lemma FormatSrtTimeWidth(ms: nat)
    requires Hours(ms) < 100
    ensures IsTimeText(FormatSrtTime(ms))
  {
    var hh, mm, ss, xx := ZeroPad(Hours(ms), 2), ZeroPad(Minutes(ms), 2), ZeroPad(Seconds(ms), 2), ZeroPad(Millis(ms), 3);
    assert Pow10(2) == 100 && Pow10(3) == 1000;
    FieldsRecompose(ms);
    ZeroPadValue(Hours(ms), 2);
    ZeroPadValue(Minutes(ms), 2);
    ZeroPadValue(Seconds(ms), 2);
    ZeroPadValue(Millis(ms), 3);
    AssembledShape(hh, mm, ss, xx);
  }

  /** A fixed-width time holds no newline. */
  lemma TimeTextNoNewline(t: string)
    requires IsTimeText(t)
    ensures '\n' !in t
  {
    forall i | 0 <= i < 12 ensures t[i] != '\n' {
      if i < 2 { assert t[i] == t[..2][i]; }
      else if 3 <= i < 5 { assert t[i] == t[3..5][i - 3]; }
      else if 6 <= i < 8 { assert t[i] == t[6..8][i - 6]; }
      else if 9 <= i { assert t[i] == t[9..][i - 9]; }
    }
  }

  /** A time written by `seconds_to_srt_time` reads back as the time, with a negative
      time read back as 0. */
  lemma SecondsToSrtTimeRoundTrip(ms: int)
    ensures SrtTimeToMs(SecondsToSrtTime(ms)) == Some(if ms < 0 then 0 else ms)
  {
    FormatThenParse(if ms < 0 then 0 else ms);
  }
}
