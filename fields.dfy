/**
 * The string and number rules the entity schemas attach to single fields:
 * the `HH:mm` time pattern, the hex colour pattern, the GUID grammar and the
 * positive-integer date.
 */
module Fields {
  import opened JsonValues

  predicate IsDigit(c: char) { '0' <= c <= '9' }

  predicate IsHexDigit(c: char) { '0' <= c <= '9' || 'a' <= c <= 'f' || 'A' <= c <= 'F' }

  /** The hour alternatives `0[0-9]|1[0-9]|2[0-3]|[0-9]` of the `HH:mm` pattern. */
  predicate IsHourText(h: string) {
    || (|h| == 2 && h[0] == '0' && IsDigit(h[1]))
    || (|h| == 2 && h[0] == '1' && IsDigit(h[1]))
    || (|h| == 2 && h[0] == '2' && '0' <= h[1] <= '3')
    || (|h| == 1 && IsDigit(h[0]))
  }

  /** The minute part `[0-5][0-9]` of the `HH:mm` pattern. */
  predicate IsMinuteText(m: string) {
    |m| == 2 && '0' <= m[0] <= '5' && IsDigit(m[1])
  }

  /**
   * The anchored pattern `^(0[0-9]|1[0-9]|2[0-3]|[0-9]):[0-5][0-9]$`: the whole
   * string is an hour text, a colon and a minute text.
   */
  predicate IsTimeOfDay(s: string) {
    exists k :: 0 < k < |s| && s[k] == ':' && IsHourText(s[..k]) && IsMinuteText(s[k + 1..])
  }

  /** `n` as exactly two digits, as a clock shows minutes. */
  function TwoDigits(n: nat): (s: string)
    requires n < 100
    ensures |s| == 2 && IsDigit(s[0]) && IsDigit(s[1])
  {
    [DigitChar(n / 10), DigitChar(n % 10)]
  }

  /** The text of the clock time `h:m`, with the hour zero-padded to two digits or not. */
  function ClockText(h: nat, m: nat, padded: bool): string
    requires h < 100 && m < 100 && (padded || h < 10)
  {
    (if padded then TwoDigits(h) else [DigitChar(h)]) + ":" + TwoDigits(m)
  }

  /** The colon of an accepted time sits three characters from the end. */
  lemma TimeOfDayParts(s: string)
    requires IsTimeOfDay(s)
    ensures |s| == 4 || |s| == 5
    ensures s[|s| - 3] == ':' && IsHourText(s[..|s| - 3]) && IsMinuteText(s[|s| - 2..])
  {
    var k :| 0 < k < |s| && s[k] == ':' && IsHourText(s[..k]) && IsMinuteText(s[k + 1..]);
  }

  /** The hour a time-of-day text names. */
  function HourOf(s: string): nat
    requires IsTimeOfDay(s)
  {
    TimeOfDayParts(s);
    if |s| == 5 then 10 * DigitValue(s[0]) + DigitValue(s[1]) else DigitValue(s[0])
  }

  /** The minute a time-of-day text names. */
  function MinuteOf(s: string): nat
    requires IsTimeOfDay(s)
  {
    TimeOfDayParts(s);
    10 * DigitValue(s[|s| - 2]) + DigitValue(s[|s| - 1])
  }

  lemma DigitCharOfValue(c: char)
    requires IsDigit(c)
    ensures DigitChar(DigitValue(c)) == c
  {
  }

  /**
   * Every accepted time names an hour 0 to 23 and a minute 0 to 59, written
   * with a two-digit hour (`07:05`, `17:05`) or a one-digit one (`7:05`).
   */
  lemma TimeOfDaySound(s: string)
    requires IsTimeOfDay(s)
    ensures HourOf(s) < 24 && MinuteOf(s) < 60
    ensures |s| == 5 || (|s| == 4 && HourOf(s) < 10)
    ensures s == ClockText(HourOf(s), MinuteOf(s), |s| == 5)
  {
    TimeOfDayBounds(s);
    TimeOfDayText(s);
  }

  lemma TimeOfDayBounds(s: string)
    requires IsTimeOfDay(s)
    ensures HourOf(s) < 24 && MinuteOf(s) < 60
    ensures |s| == 5 || (|s| == 4 && HourOf(s) < 10)
  {
    TimeOfDayParts(s);
  }

  lemma TimeOfDayText(s: string)
    requires IsTimeOfDay(s)
    ensures HourOf(s) < 100 && MinuteOf(s) < 100 && (|s| == 5 || HourOf(s) < 10)
    ensures s == ClockText(HourOf(s), MinuteOf(s), |s| == 5)
  {
    TimeOfDayParts(s);
    var n := |s|;
    MinuteDigits(s);
    HourDigits(s);
    assert s == s[..n - 3] + ":" + s[n - 2..];
  }

  /** The last two characters of an accepted time are its minute, written back. */
  lemma MinuteDigits(s: string)
    requires IsTimeOfDay(s)
    ensures |s| >= 2 && MinuteOf(s) < 100 && TwoDigits(MinuteOf(s)) == s[|s| - 2..]
  {
    TimeOfDayParts(s);
    var n := |s|;
    TwoDigitsText(s[n - 2], s[n - 1]);
    assert s[n - 2..] == [s[n - 2], s[n - 1]];
  }

  /** The characters before the colon of an accepted time are its hour, written back. */
  lemma HourDigits(s: string)
    requires IsTimeOfDay(s)
    ensures (|s| == 4 || |s| == 5) && HourOf(s) < 100
    ensures |s| == 5 ==> TwoDigits(HourOf(s)) == s[..2]
    ensures |s| == 4 ==> HourOf(s) < 10 && [DigitChar(HourOf(s))] == s[..1]
  {
    TimeOfDayParts(s);
    if |s| == 5 {
      TwoDigitsText(s[0], s[1]);
      assert s[..2] == [s[0], s[1]];
    } else {
      DigitCharOfValue(s[0]);
      assert s[..1] == [s[0]];
    }
  }

  /** Two digits read as a number and written back with `TwoDigits` are the same two digits. */
  lemma TwoDigitsText(c0: char, c1: char)
    requires IsDigit(c0) && IsDigit(c1)
    ensures TwoDigits(10 * DigitValue(c0) + DigitValue(c1)) == [c0, c1]
  {
    var a, b := DigitValue(c0), DigitValue(c1);
    DivTen(a, b);
    assert TwoDigits(10 * a + b) == [DigitChar(a), DigitChar(b)];
    DigitCharOfValue(c0);
    DigitCharOfValue(c1);
  }

  /** The tens and the units of a two-digit number. */
  lemma DivTen(a: nat, b: nat)
    requires a < 10 && b < 10
    ensures (10 * a + b) / 10 == a && (10 * a + b) % 10 == b
  {
  }

  /** Conversely, every clock time from 0:00 to 23:59 is accepted, with or without a padded hour. */
  lemma TimeOfDayComplete(h: nat, m: nat, padded: bool)
    requires h < 24 && m < 60 && (padded || h < 10)
    ensures IsTimeOfDay(ClockText(h, m, padded))
  {
    var s := ClockText(h, m, padded);
    var k := if padded then 2 else 1;
    assert s[k] == ':';
    assert s[k + 1..] == TwoDigits(m);
    assert s[..k] == if padded then TwoDigits(h) else [DigitChar(h)];
  }

  /** A run of exactly `n` hex digits, `[A-Fa-f0-9]{n}`. */
  predicate IsHexRun(d: string, n: nat) {
    |d| == n && forall i :: 0 <= i < n ==> IsHexDigit(d[i])
  }

  /** The anchored pattern `^#([A-Fa-f0-9]{6}|[A-Fa-f0-9]{3})$`. */
  predicate IsHexColor(s: string) {
    |s| > 0 && s[0] == '#' && (IsHexRun(s[1..], 6) || IsHexRun(s[1..], 3))
  }

  function LowerChar(c: char): char {
    if 'A' <= c <= 'Z' then (c as int + 32) as char else c
  }

  function Lower(s: string): (t: string)
    ensures |t| == |s| && forall i :: 0 <= i < |s| ==> t[i] == LowerChar(s[i])
  {
    seq(|s|, i requires 0 <= i < |s| => LowerChar(s[i]))
  }

  /** The colour pattern ignores letter case: `#ABC` is accepted exactly when `#abc` is. */
  lemma HexColorIgnoresCase(s: string)
    ensures IsHexColor(s) <==> IsHexColor(Lower(s))
  {
    var t := Lower(s);
    if |s| > 0 {
      assert forall i :: 1 <= i < |s| ==> (IsHexDigit(s[i]) <==> IsHexDigit(t[i]));
      assert forall i :: 0 <= i < |s| - 1 ==> s[1..][i] == s[i + 1] && t[1..][i] == t[i + 1];
    }
  }

  /** An accepted colour is `#` and then three or six hex digits, and nothing else is accepted. */
  lemma HexColorShape(s: string)
    ensures IsHexColor(s) <==>
      (|s| == 4 || |s| == 7) && s[0] == '#' && forall i :: 1 <= i < |s| ==> IsHexDigit(s[i])
  {
    if |s| > 0 {
      assert forall i :: 0 <= i < |s| - 1 ==> s[1..][i] == s[i + 1];
    }
  }

  /** The opening brackets `.uuid()` allows around a GUID. */
  predicate IsOpenBracket(c: char) { c == '{' || c == '[' || c == '(' }

  /** The partner of an opening bracket. */
  function CloseOf(c: char): char {
    if c == '{' then '}' else if c == '[' then ']' else ')'
  }

  /** What may stand before a GUID: one opening bracket, or nothing. */
  predicate IsOpener(open: string) {
    open == [] || (|open| == 1 && IsOpenBracket(open[0]))
  }

  /** The bracket that must close a GUID opened by `open`; nothing closes an unbracketed one. */
  function Closer(open: string): string {
    if open == [] then [] else [CloseOf(open[0])]
  }

  /** The lengths of the five hex groups of a GUID. */
  const GuidGroups: seq<nat> := [8, 4, 4, 4, 12]

  /** The separators a GUID may use: none, a hyphen or a colon. */
  predicate IsSeparator(sep: string) { sep == [] || sep == ['-'] || sep == [':'] }

  /** Whether `s` opens with the separator, where a separator may stand. */
  predicate Skips(s: string, sep: string, first: bool) {
    !first && sep != [] && |s| > 0 && s[0] == sep[0]
  }

  /** `s` past the optional separator before a group. */
  function After(s: string, sep: string, first: bool): string {
    if Skips(s, sep, first) then s[1..] else s
  }

  /**
   * Hex groups of the lengths `lens`, in order. Every group but the first may
   * be preceded by `sep`, the separator the GUID committed to after its first
   * group; a later separator is optional but, when present, must be that one.
   */
  predicate Groups(s: string, sep: string, lens: seq<nat>, first: bool)
    decreases |lens|
  {
    if lens == [] then s == []
    else
      var t := After(s, sep, first);
      |t| >= lens[0] && IsHexRun(t[..lens[0]], lens[0]) && Groups(t[lens[0]..], sep, lens[1..], false)
  }

  /** The separator a GUID body commits to after its first eight digits: a hyphen, a colon or none. */
  function SeparatorOf(b: string): string {
    if |b| > 8 && (b[8] == '-' || b[8] == ':') then [b[8]] else []
  }

  predicate IsGuidBody(b: string) {
    Groups(b, SeparatorOf(b), GuidGroups, true)
  }

  /**
   * `Joi.string().uuid()` with no version given: 32 hex digits of either case
   * in groups of 8-4-4-4-12. A hyphen or a colon may follow the first group;
   * each later group may be preceded by that same separator, and no other.
   * The whole may be wrapped in `{}`, `[]` or `()`, and the brackets must pair.
   */
  predicate IsGuid(s: string) {
    if |s| > 0 && IsOpenBracket(s[0]) then
      |s| >= 2 && s[|s| - 1] == CloseOf(s[0]) && IsGuidBody(s[1..|s| - 1])
    else IsGuidBody(s)
  }

  /**
   * A GUID spelled out part by part: its opening bracket (or none), its
   * separator (or none), which groups the separator precedes, and the five
   * groups of hex digits. This is the reference reading of `IsGuid`.
   */
  datatype GuidText = GuidText(open: string, sep: string, marks: seq<bool>, groups: seq<string>)

  predicate WellFormed(g: GuidText) {
    && IsOpener(g.open)
    && IsSeparator(g.sep)
    && |g.marks| == 5 && !g.marks[0] && (g.sep != [] ==> g.marks[1])
    && |g.groups| == 5
    && forall i :: 0 <= i < 5 ==> IsHexRun(g.groups[i], GuidGroups[i])
  }

  /** The groups in order, each preceded by `sep` where its mark is set. */
  function Chain(sep: string, marks: seq<bool>, groups: seq<string>): string
    requires |marks| == |groups|
  {
    if groups == [] then ""
    else (if marks[0] then sep else "") + groups[0] + Chain(sep, marks[1..], groups[1..])
  }

  function Render(g: GuidText): string
    requires |g.marks| == |g.groups|
  {
    g.open + Chain(g.sep, g.marks, g.groups) + Closer(g.open)
  }

  /** A group written with or without its separator is read back past that separator. */
  lemma AfterMark(sep: string, mark: bool, group: string, rest: string, first: bool)
    requires IsSeparator(sep) && |group| > 0 && IsHexDigit(group[0])
    requires first ==> !mark
    ensures After((if mark then sep else "") + group + rest, sep, first) == group + rest
  {
    var s := (if mark then sep else "") + group + rest;
    if mark && sep != [] {
      assert s == [sep[0]] + (group + rest);
    } else {
      assert s == group + rest;
      assert s[0] == group[0];
    }
  }

  lemma {:induction false} ChainParses(sep: string, marks: seq<bool>, groups: seq<string>, lens: seq<nat>, first: bool)
    requires IsSeparator(sep)
    requires |marks| == |groups| == |lens|
    requires forall i :: 0 <= i < |lens| ==> lens[i] > 0 && IsHexRun(groups[i], lens[i])
    requires first && |marks| > 0 ==> !marks[0]
    ensures Groups(Chain(sep, marks, groups), sep, lens, first)
    decreases |lens|
  {
    if groups != [] {
      ChainParses(sep, marks[1..], groups[1..], lens[1..], false);
      var g, rest := groups[0], Chain(sep, marks[1..], groups[1..]);
      assert IsHexRun(g, lens[0]) && lens[0] > 0;
      AfterMark(sep, marks[0], g, rest, first);
      var t := g + rest;
      assert t[..lens[0]] == g;
      assert t[lens[0]..] == rest;
    }
  }

  /** Reads the groups back: which groups a separator precedes, and their digits. */
  ghost function {:induction false} Split(s: string, sep: string, lens: seq<nat>, first: bool): (r: (seq<bool>, seq<string>))
    requires IsSeparator(sep)
    requires Groups(s, sep, lens, first)
    ensures |r.0| == |r.1| == |lens|
    ensures forall i :: 0 <= i < |lens| ==> IsHexRun(r.1[i], lens[i])
    ensures |lens| > 0 ==> (r.0[0] <==> Skips(s, sep, first))
    ensures Chain(sep, r.0, r.1) == s
    decreases |lens|
  {
    if lens == [] then ([], [])
    else
      var t := After(s, sep, first);
      var rest := Split(t[lens[0]..], sep, lens[1..], false);
      SplitStep(s, sep, first, lens[0], rest.0, rest.1);
      ([Skips(s, sep, first)] + rest.0, [t[..lens[0]]] + rest.1)
  }

  lemma SplitStep(s: string, sep: string, first: bool, n: nat, marks: seq<bool>, groups: seq<string>)
    requires IsSeparator(sep) && |After(s, sep, first)| >= n
    requires |marks| == |groups| && Chain(sep, marks, groups) == After(s, sep, first)[n..]
    ensures var t := After(s, sep, first);
      Chain(sep, [Skips(s, sep, first)] + marks, [t[..n]] + groups) == s
  {
    SplitJoin(sep, Skips(s, sep, first), After(s, sep, first), n, marks, groups);
    SkipsBack(s, sep, first);
  }

  /** A group cut from the front of `t`, followed by a chain of the rest, gives back `t`. */
  lemma SplitJoin(sep: string, k: bool, t: string, n: nat, marks: seq<bool>, groups: seq<string>)
    requires |t| >= n && |marks| == |groups| && Chain(sep, marks, groups) == t[n..]
    ensures Chain(sep, [k] + marks, [t[..n]] + groups) == (if k then sep else "") + t
  {
    var lead := if k then sep else "";
    ChainCons(sep, k, t[..n], marks, groups);
    assert t[..n] + t[n..] == t;
    assert lead + t[..n] + t[n..] == lead + (t[..n] + t[n..]);
  }

  /** One more group in front of a chain. */
  lemma ChainCons(sep: string, k: bool, x: string, marks: seq<bool>, groups: seq<string>)
    requires |marks| == |groups|
    ensures Chain(sep, [k] + marks, [x] + groups) == (if k then sep else "") + x + Chain(sep, marks, groups)
  {
    assert ([k] + marks)[1..] == marks && ([x] + groups)[1..] == groups;
  }

  /** Putting back the separator a group skipped gives the text it was skipped from. */
  lemma SkipsBack(s: string, sep: string, first: bool)
    requires IsSeparator(sep)
    ensures (if Skips(s, sep, first) then sep else "") + After(s, sep, first) == s
  {
    if Skips(s, sep, first) {
      assert s == [s[0]] + s[1..];
    }
  }

  /** A well-formed body commits, after its first group, to the separator it was written with. */
  lemma BodySeparator(g: GuidText)
    requires WellFormed(g)
    ensures SeparatorOf(Chain(g.sep, g.marks, g.groups)) == g.sep
    ensures IsHexDigit(Chain(g.sep, g.marks, g.groups)[0])
  {
    var g0, g1 := g.groups[0], g.groups[1];
    assert IsHexRun(g0, 8) && IsHexRun(g1, 4);
    var gap := if g.marks[1] then g.sep else "";
    var tail := Chain(g.sep, g.marks[2..], g.groups[2..]);
    assert g.marks[1..][1..] == g.marks[2..] && g.groups[1..][1..] == g.groups[2..];
    var body := g0 + (gap + g1 + tail);
    assert Chain(g.sep, g.marks, g.groups) == body;
    assert body[0] == g0[0];
    assert body[8] == (gap + g1 + tail)[0];
  }

  /** A well-formed body is accepted. */
  lemma BodyAccepted(g: GuidText)
    requires WellFormed(g)
    ensures IsGuidBody(Chain(g.sep, g.marks, g.groups))
  {
    ChainParses(g.sep, g.marks, g.groups, GuidGroups, true);
    BodySeparator(g);
  }

  /** An accepted body, bare or in a pair of brackets, is accepted. */
  lemma WrapAccepted(open: string, body: string)
    requires IsOpener(open) && IsGuidBody(body) && |body| > 0 && IsHexDigit(body[0])
    ensures IsGuid(open + body + Closer(open))
  {
    var s := open + body + Closer(open);
    if open == "" {
      assert s == body;
    } else {
      assert s[0] == open[0];
      assert s[1..|s| - 1] == body;
    }
  }

  /** Every well-formed GUID text is accepted. */
  lemma GuidAccepted(g: GuidText)
    requires WellFormed(g)
    ensures IsGuid(Render(g))
  {
    BodyAccepted(g);
    BodySeparator(g);
    WrapAccepted(g.open, Chain(g.sep, g.marks, g.groups));
  }

  /** The marks read back from a body: none before the first group, and the separator before the second when there is one. */
  lemma BodyMarks(body: string)
    requires IsGuidBody(body)
    ensures var r := Split(body, SeparatorOf(body), GuidGroups, true);
      !r.0[0] && (SeparatorOf(body) != [] ==> r.0[1])
  {
    var sep := SeparatorOf(body);
    assert After(body, sep, true) == body;
    var rest := Split(body[8..], sep, GuidGroups[1..], false);
    assert Split(body, sep, GuidGroups, true).0 == [false] + rest.0;
    if sep != [] {
      assert body[8..][0] == body[8];
      assert Skips(body[8..], sep, false);
    }
  }

  /** An accepted string is its bracket, if any, around an accepted body. */
  lemma Unwrap(s: string) returns (open: string, body: string)
    requires IsGuid(s)
    ensures IsOpener(open) && IsGuidBody(body) && s == open + body + Closer(open)
  {
    if |s| > 0 && IsOpenBracket(s[0]) {
      open, body := s[..1], s[1..|s| - 1];
      Bracketed(s);
    } else {
      open, body := [], s;
    }
  }

  lemma Bracketed(s: string)
    requires |s| >= 2 && IsOpenBracket(s[0]) && s[|s| - 1] == CloseOf(s[0])
    ensures IsOpener(s[..1]) && s == s[..1] + s[1..|s| - 1] + Closer(s[..1])
  {
    assert s == s[..1] + s[1..|s| - 1] + s[|s| - 1..];
  }

  /** Conversely, every accepted string is a well-formed GUID text. */
  lemma GuidParsed(s: string)
    requires IsGuid(s)
    ensures exists g :: WellFormed(g) && Render(g) == s
  {
    var open, body := Unwrap(s);
    var g := BodyParsed(open, body);
  }

  /** An accepted body, with its brackets if any, is the rendering of a well-formed GUID text. */
  lemma BodyParsed(open: string, body: string) returns (g: GuidText)
    requires IsOpener(open) && IsGuidBody(body)
    ensures WellFormed(g) && Render(g) == open + body + Closer(open)
  {
    var sep := SeparatorOf(body);
    var r := Split(body, sep, GuidGroups, true);
    BodyMarks(body);
    g := GuidText(open, sep, r.0, r.1);
    assert Chain(sep, r.0, r.1) == body;
  }

  /** 32 digits in the usual 8-4-4-4-12 hyphenated layout. */
  function Hyphenated(d: string): string
    requires |d| == 32
  {
    d[..8] + "-" + d[8..12] + "-" + d[12..16] + "-" + d[16..20] + "-" + d[20..]
  }

  /**
   * The usual hyphenated layout is accepted, and so is the same text in
   * braces, which a check of the hyphenated layout alone would refuse.
   */
  lemma HyphenatedAccepted(d: string)
    requires IsHexRun(d, 32)
    ensures IsGuid(Hyphenated(d)) && IsGuid(['{'] + Hyphenated(d) + ['}'])
  {
    var g := HyphenatedText(d);
    GuidAccepted(g);
    GuidAccepted(g.(open := ['{']));
  }

  /** The parts of the hyphenated layout. */
  lemma HyphenatedText(d: string) returns (g: GuidText)
    requires IsHexRun(d, 32)
    ensures WellFormed(g) && g.open == "" && Render(g) == Hyphenated(d)
  {
    var groups := [d[..8], d[8..12], d[12..16], d[16..20], d[20..]];
    var marks := [false, true, true, true, true];
    g := GuidText("", "-", marks, groups);
    assert WellFormed(g) by {
      forall i | 0 <= i < 5
        ensures IsHexRun(groups[i], GuidGroups[i])
      {
      }
    }
    HyphenatedChain(d, marks, groups);
  }

  lemma HyphenatedChain(d: string, marks: seq<bool>, groups: seq<string>)
    requires |d| == 32
    requires marks == [false, true, true, true, true]
    requires groups == [d[..8], d[8..12], d[12..16], d[16..20], d[20..]]
    ensures Chain("-", marks, groups) == Hyphenated(d)
  {
    assert Chain("-", marks[4..], groups[4..]) == "-" + d[20..] by {
      assert Chain("-", marks[5..], groups[5..]) == "";
    }
    var t3 := "-" + d[16..20] + "-" + d[20..];
    assert Chain("-", marks[3..], groups[3..]) == t3 by {
      assert marks[3..][1..] == marks[4..] && groups[3..][1..] == groups[4..];
    }
    var t2 := "-" + d[12..16] + t3;
    assert Chain("-", marks[2..], groups[2..]) == t2 by {
      assert marks[2..][1..] == marks[3..] && groups[2..][1..] == groups[3..];
    }
    assert Chain("-", marks[1..], groups[1..]) == "-" + d[8..12] + t2 by {
      assert marks[1..][1..] == marks[2..] && groups[1..][1..] == groups[2..];
    }
  }

  /** `Number.MAX_SAFE_INTEGER`, 2^53 - 1. */
  const MAX_SAFE: real := 9007199254740991.0

  /**
   * Joi's `number.unsafe` bound: without `unsafe()`, a number above
   * `Number.MAX_SAFE_INTEGER` or below its negation is refused.
   */
  predicate IsSafeNumber(x: real) {
    -MAX_SAFE <= x <= MAX_SAFE
  }

  /** `Joi.number().integer().positive()`: a safe, whole, positive number. */
  predicate IsPositiveInteger(x: real) {
    IsSafeNumber(x) && x > 0.0 && x.Floor as real == x
  }
}
