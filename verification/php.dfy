/**
 * The handful of PHP runtime behaviours the credit-card payment method relies on:
 * values stored in Magento's additional-information array and their truthiness,
 * `explode` on a one-character delimiter, `preg_split('/\r\n|[\r\n]/', ...)`,
 * the `(int)` cast of a string, `substr($s, -4)`, and decimal digit strings.
 */
module Php {

  datatype Option<+T> = None | Some(value: T)

  /** A PHP value as it is kept in a payment's additional-information array. */
  datatype Value =
    | Null
    | Bool(b: bool)
    | Int(i: int)
    | Str(s: string)
    | Decimal(text: string)  // a PHP float, kept as the decimal text the gateway sent

  /** A payment's additional-information array: values under string keys. */
  type Bag = map<string, Value>

  predicate IsDigit(c: char) { '0' <= c <= '9' }

  predicate AllDigits(s: string) { forall k :: 0 <= k < |s| ==> IsDigit(s[k]) }

  /** PHP's truthiness of a string: only "" and "0" are false. */
  predicate StrTruthy(s: string) { s != "" && s != "0" }

  /** PHP's truthiness of a value; a float is true when one of its digits is not zero. */
  predicate Truthy(v: Value) {
    match v
    case Null => false
    case Bool(b) => b
    case Int(i) => i != 0
    case Str(s) => StrTruthy(s)
    case Decimal(t) => exists k :: 0 <= k < |t| && '1' <= t[k] <= '9'
  }

  /** A string that may be missing (PHP null or false) becomes a stored value. */
  function OptionValue(s: Option<string>): (v: Value)
    ensures s.None? <==> v == Null
    ensures s.Some? ==> v == Str(s.value)
  {
    match s
    case None => Null
    case Some(t) => Str(t)
  }

  /** `implode($glue, $parts)`: the inverse partner of the two splitting functions below. */
  function Implode(glue: string, parts: seq<string>): string
    decreases |parts|
  {
    if |parts| == 0 then ""
    else if |parts| == 1 then parts[0]
    else parts[0] + glue + Implode(glue, parts[1..])
  }

  /** Index of the first occurrence of `c` in `s`, or `|s|` when there is none. */
  function FirstIndexOf(c: char, s: string): (i: nat)
    ensures i <= |s|
    ensures i < |s| ==> s[i] == c
    ensures forall j :: 0 <= j < i ==> s[j] != c
    decreases |s|
  {
    if |s| == 0 then 0
    else if s[0] == c then 0
    else 1 + FirstIndexOf(c, s[1..])
  }

  /**
   * `explode($sep, $s)` for a one-character delimiter: one more part than there are
   * delimiters, no part holds the delimiter, and gluing the parts back gives `s`.
   */
  function Explode(sep: char, s: string): (parts: seq<string>)
    ensures |parts| == multiset(s)[sep] + 1
    ensures forall k :: 0 <= k < |parts| ==> sep !in parts[k]
    ensures Implode([sep], parts) == s
    decreases |s|
  {
    var i := FirstIndexOf(sep, s);
    if i == |s| then
      assert sep !in s;
      [s]
    else
      var rest := Explode(sep, s[i + 1..]);
      assert s == s[..i] + [sep] + s[i + 1..];
      assert sep !in s[..i];
      [s[..i]] + rest
  }

  /** Splitting the glued parts gives the parts back, when no part holds the delimiter. */
  lemma {:induction false} ExplodeImplode(sep: char, parts: seq<string>)
    requires |parts| >= 1
    requires forall k :: 0 <= k < |parts| ==> sep !in parts[k]
    ensures Explode(sep, Implode([sep], parts)) == parts
    decreases |parts|
  {
    if |parts| > 1 {
      var s := Implode([sep], parts);
      var tail := Implode([sep], parts[1..]);
      assert s == parts[0] + [sep] + tail;
      var i := FirstIndexOf(sep, s);
      assert s[|parts[0]|] == sep;
      assert i == |parts[0]|;
      assert s[..i] == parts[0];
      assert s[i + 1..] == tail;
      ExplodeImplode(sep, parts[1..]);
      assert parts == [parts[0]] + parts[1..];
    } else {
      assert sep !in parts[0];
    }
  }

  predicate IsLineBreak(c: char) { c == '\r' || c == '\n' }

  predicate NoLineBreak(s: string) { forall k :: 0 <= k < |s| ==> !IsLineBreak(s[k]) }

  /** Index of the first carriage return or line feed in `s`, or `|s|` when there is none. */
  function FirstBreak(s: string): (i: nat)
    ensures i <= |s|
    ensures i < |s| ==> IsLineBreak(s[i])
    ensures forall j :: 0 <= j < i ==> !IsLineBreak(s[j])
    decreases |s|
  {
    if |s| == 0 then 0
    else if IsLineBreak(s[0]) then 0
    else 1 + FirstBreak(s[1..])
  }

  /** The pattern `\r\n|[\r\n]` tries the two-character break first. */
  function BreakWidth(s: string, i: nat): (w: nat)
    requires i < |s|
    ensures 1 <= w <= 2 && i + w <= |s|
  {
    if s[i] == '\r' && i + 1 < |s| && s[i + 1] == '\n' then 2 else 1
  }

  /** The line endings a configuration text area may hold. */
  predicate IsLineEnding(glue: string) { glue == "\n" || glue == "\r" || glue == "\r\n" }

  /** The lines with the ending that followed each of them in between: `lines[0] + ends[0] + lines[1] + ...`. */
  function Interleave(lines: seq<string>, ends: seq<string>): string
    requires |lines| >= 1 && |ends| == |lines| - 1
    decreases |lines|
  {
    if |lines| == 1 then lines[0]
    else lines[0] + ends[0] + Interleave(lines[1..], ends[1..])
  }

  /**
   * A split of a text into lines and line endings as `\r\n|[\r\n]` matches it: break-free
   * lines, one ending fewer than lines, and a lone `\r` never directly followed by `\n`
   * (the pattern would have taken the two as one ending).
   */
  predicate Separated(lines: seq<string>, ends: seq<string>) {
    && |lines| >= 1 && |ends| == |lines| - 1
    && (forall k :: 0 <= k < |lines| ==> NoLineBreak(lines[k]))
    && (forall k :: 0 <= k < |ends| ==> IsLineEnding(ends[k]))
    && (forall k :: 0 <= k < |ends| - 1 && ends[k] == "\r" && lines[k + 1] == "" ==> ends[k + 1] != "\n")
  }

  /** The line endings `preg_split('/\r\n|[\r\n]/', $s)` consumes, in order. */
  function LineEndings(s: string): seq<string>
    decreases |s|
  {
    var i := FirstBreak(s);
    if i == |s| then []
    else [s[i..i + BreakWidth(s, i)]] + LineEndings(s[i + BreakWidth(s, i)..])
  }

  /**
   * `preg_split('/\r\n|[\r\n]/', $s)`: the lines of `s`, whichever of the three line
   * endings separates them, mixed or not. The lines and the endings consumed between them
   * put back together give `s` again.
   */
  function SplitLines(s: string): (lines: seq<string>)
    ensures Separated(lines, LineEndings(s))
    ensures Interleave(lines, LineEndings(s)) == s
    decreases |s|
  {
    var i := FirstBreak(s);
    if i == |s| then [s]
    else
      var w := BreakWidth(s, i);
      SplitStep(s, i, w, SplitLines(s[i + w..]), LineEndings(s[i + w..]));
      [s[..i]] + SplitLines(s[i + w..])
  }

  /** The first line and the ending after it, put in front of the split of the rest. */
  lemma SplitStep(s: string, i: nat, w: nat, lines: seq<string>, ends: seq<string>)
    requires i == FirstBreak(s) < |s| && w == BreakWidth(s, i)
    requires Separated(lines, ends) && Interleave(lines, ends) == s[i + w..]
    ensures Separated([s[..i]] + lines, [s[i..i + w]] + ends)
    ensures Interleave([s[..i]] + lines, [s[i..i + w]] + ends) == s
  {
    var rest := s[i + w..];
    assert IsLineEnding(s[i..i + w]) by {
      if w == 1 { assert s[i..i + w] == [s[i]]; }
    }
    assert w == 1 && s[i] == '\r' && |rest| > 0 ==> rest[0] != '\n';
    SeparatedCons(s[..i], s[i..i + w], lines, ends);
    assert ([s[..i]] + lines)[1..] == lines;
    assert ([s[i..i + w]] + ends)[1..] == ends;
    assert s == s[..i] + s[i..i + w] + rest;
  }

  /** One more break-free line and ending in front of a split keep it a split. */
  lemma SeparatedCons(line: string, end: string, lines: seq<string>, ends: seq<string>)
    requires NoLineBreak(line) && IsLineEnding(end) && Separated(lines, ends)
    requires end == "\r" && |Interleave(lines, ends)| > 0 ==> Interleave(lines, ends)[0] != '\n'
    ensures Separated([line] + lines, [end] + ends)
  {
    var L, E := [line] + lines, [end] + ends;
    forall k | 0 <= k < |L| ensures NoLineBreak(L[k]) {
      if k > 0 { assert L[k] == lines[k - 1]; }
    }
    forall k | 0 <= k < |E| ensures IsLineEnding(E[k]) {
      if k > 0 { assert E[k] == ends[k - 1]; }
    }
    forall k | 0 <= k < |E| - 1 && E[k] == "\r" && L[k + 1] == ""
      ensures E[k + 1] != "\n"
    {
      if k == 0 {
        assert L[1] == lines[0] && E[1] == ends[0];
        assert Interleave(lines, ends) == ends[0] + Interleave(lines[1..], ends[1..]);
      } else {
        assert E[k] == ends[k - 1] && L[k + 1] == lines[k] && E[k + 1] == ends[k];
      }
    }
  }

  /**
   * Lines put together with any endings, mixed as they come, split back into exactly
   * those lines and endings: the split is the only one the pattern allows.
   */
  lemma {:induction false} SplitLinesUnique(lines: seq<string>, ends: seq<string>)
    requires Separated(lines, ends)
    ensures SplitLines(Interleave(lines, ends)) == lines
    ensures LineEndings(Interleave(lines, ends)) == ends
    decreases |lines|
  {
    if |lines| == 1 {
      SingleLine(lines[0]);
    } else {
      SeparatedTail(lines, ends);
      SplitLinesUnique(lines[1..], ends[1..]);
      UniqueStep(lines, ends);
    }
  }

  /** A text without a line break is one line, with no ending. */
  lemma SingleLine(line: string)
    requires NoLineBreak(line)
    ensures SplitLines(line) == [line] && LineEndings(line) == []
  {
    assert FirstBreak(line) == |line|;
  }

  /** The first line and ending come off first, and the rest splits as the tail of the lists. */
  lemma UniqueStep(lines: seq<string>, ends: seq<string>)
    requires Separated(lines, ends) && |lines| >= 2
    requires var tail := Interleave(lines[1..], ends[1..]);
             && (ends[0] == "\r" && |tail| > 0 ==> tail[0] != '\n')
             && SplitLines(tail) == lines[1..] && LineEndings(tail) == ends[1..]
    ensures SplitLines(Interleave(lines, ends)) == lines
    ensures LineEndings(Interleave(lines, ends)) == ends
  {
    var tail := Interleave(lines[1..], ends[1..]);
    assert Interleave(lines, ends) == lines[0] + ends[0] + tail;
    HeadSplit(lines[0], ends[0], tail);
    assert lines == [lines[0]] + lines[1..];
    assert ends == [ends[0]] + ends[1..];
  }

  /** A break-free line and a whole ending in front: the split takes them off first. */
  lemma HeadSplit(line: string, end: string, tail: string)
    requires NoLineBreak(line) && IsLineEnding(end)
    requires end == "\r" && |tail| > 0 ==> tail[0] != '\n'
    ensures SplitLines(line + end + tail) == [line] + SplitLines(tail)
    ensures LineEndings(line + end + tail) == [end] + LineEndings(tail)
  {
    var s := line + end + tail;
    BreakAfterLine(line, end, tail);
    var i := |line|;
    assert s[..i] == line;
    assert s[i..i + |end|] == end;
    assert s[i + |end|..] == tail;
  }

  /** Dropping the first line and ending of a split leaves a split, and what follows a lone `\r` is no line feed. */
  lemma SeparatedTail(lines: seq<string>, ends: seq<string>)
    requires Separated(lines, ends) && |lines| >= 2
    ensures Separated(lines[1..], ends[1..])
    ensures var tail := Interleave(lines[1..], ends[1..]);
            ends[0] == "\r" && |tail| > 0 ==> tail[0] != '\n'
  {
    forall k | 0 <= k < |ends| - 2 && ends[1..][k] == "\r" && lines[1..][k + 1] == ""
      ensures ends[1..][k + 1] != "\n"
    {
      assert ends[k + 1] == "\r" && lines[k + 2] == "";
    }
    var tail := Interleave(lines[1..], ends[1..]);
    if ends[0] == "\r" && |tail| > 0 {
      if |lines[1]| > 0 {
        assert tail[0] == lines[1][0];
      } else {
        assert |lines| > 2;
        assert tail == ends[1] + Interleave(lines[2..], ends[2..]);
        assert tail[0] == ends[1][0];
      }
    }
  }

  /** A setting saved with Windows, Unix and old Mac line endings mixed, blank line included. */
  lemma SplitMixedEndings()
    ensures SplitLines("a\r\nb\n\rc") == ["a", "b", "", "c"]
  {
    var lines, ends := ["a", "b", "", "c"], ["\r\n", "\n", "\r"];
    assert Separated(lines, ends);
    assert Interleave(lines, ends) == "a\r\nb\n\rc" by {
      assert Interleave(lines[3..], ends[3..]) == "c";
    }
    SplitLinesUnique(lines, ends);
  }

  /** Lines written one per row, with any one of the three line endings, split back into those lines. */
  lemma {:induction false} SplitLinesImplode(glue: string, lines: seq<string>)
    requires IsLineEnding(glue)
    requires |lines| >= 1
    requires forall k :: 0 <= k < |lines| ==> NoLineBreak(lines[k])
    ensures SplitLines(Implode(glue, lines)) == lines
    decreases |lines|
  {
    if |lines| > 1 {
      var tail := Implode(glue, lines[1..]);
      assert Implode(glue, lines) == lines[0] + glue + tail;
      ImplodeNoLeadingFeed(glue, lines[1..]);
      HeadSplit(lines[0], glue, tail);
      SplitLinesImplode(glue, lines[1..]);
      assert lines == [lines[0]] + lines[1..];
    } else {
      assert FirstBreak(Implode(glue, lines)) == |Implode(glue, lines)|;
    }
  }

  /** Glued lines joined by carriage returns never start with a line feed. */
  lemma ImplodeNoLeadingFeed(glue: string, lines: seq<string>)
    requires IsLineEnding(glue)
    requires |lines| >= 1
    requires forall k :: 0 <= k < |lines| ==> NoLineBreak(lines[k])
    ensures glue == "\r" && |Implode(glue, lines)| > 0 ==> Implode(glue, lines)[0] != '\n'
  {
  }

  /** A break-free line followed by a line ending: the split happens right after the line, over the whole ending. */
  lemma BreakAfterLine(line: string, glue: string, tail: string)
    requires NoLineBreak(line) && IsLineEnding(glue)
    requires glue == "\r" && |tail| > 0 ==> tail[0] != '\n'
    ensures FirstBreak(line + glue + tail) == |line|
    ensures BreakWidth(line + glue + tail, |line|) == |glue|
  {
    var s := line + glue + tail;
    var i := FirstBreak(s);
    assert s[|line|] == glue[0];
    if glue == "\r" && |tail| > 0 {
      assert s[|line| + 1] == tail[0];
    }
  }

  function DigitChar(d: nat): (c: char)
    requires d < 10
    ensures IsDigit(c) && c as int - '0' as int == d
  {
    ('0' as int + d) as char
  }

  /** The decimal text PHP writes for a non-negative integer: no sign, no leading zeros. */
  function Digits(n: nat): (s: string)
    ensures |s| >= 1 && AllDigits(s)
    ensures (s[0] == '0') == (n == 0)
    ensures n == 0 ==> s == "0"
    decreases n
  {
    if n < 10 then [DigitChar(n)]
    else Digits(n / 10) + [DigitChar(n % 10)]
  }

  /** The number a string of decimal digits denotes. */
  function DigitsValue(s: string): nat
    requires AllDigits(s)
    decreases |s|
  {
    if |s| == 0 then 0
    else DigitsValue(s[..|s| - 1]) * 10 + (s[|s| - 1] as int - '0' as int)
  }

  /** Reading back the decimal text of `n` gives `n`. */
  lemma {:induction false} DigitsRoundTrip(n: nat)
    ensures DigitsValue(Digits(n)) == n
    decreases n
  {
    if n >= 10 {
      var s := Digits(n);
      assert s[..|s| - 1] == Digits(n / 10);
      DigitsRoundTrip(n / 10);
    }
  }

  /** Index of the first character of `s` that is not a decimal digit, or `|s|`. */
  function DigitRun(s: string): (i: nat)
    ensures i <= |s| && AllDigits(s[..i])
    ensures i < |s| ==> !IsDigit(s[i])
    ensures AllDigits(s) ==> i == |s|
    decreases |s|
  {
    if |s| == 0 || !IsDigit(s[0]) then 0
    else 1 + DigitRun(s[1..])
  }

  /** The whitespace PHP skips in front of a numeric string. */
  predicate IsPhpSpace(c: char) { c == ' ' || c == '\t' || c == '\n' || c == '\r' || c == '\U{000B}' || c == '\U{000C}' }

  function SkipSpace(s: string): (t: string)
    ensures |t| <= |s| && t == s[|s| - |t|..]
    ensures |t| > 0 ==> !IsPhpSpace(t[0])
    decreases |s|
  {
    if |s| > 0 && IsPhpSpace(s[0]) then SkipSpace(s[1..]) else s
  }

  /**
   * `(int)$s`: leading whitespace, an optional sign and the longest run of digits
   * that follows; a string without such a run casts to 0.
   */
  function IntCast(s: string): (r: int)
    ensures AllDigits(s) ==> r == DigitsValue(s)
  {
    var t := SkipSpace(s);
    if |t| > 0 && (t[0] == '-' || t[0] == '+') then
      var run := t[1..][..DigitRun(t[1..])];
      if t[0] == '-' then -(DigitsValue(run) as int) else DigitsValue(run)
    else
      assert AllDigits(s) ==> t == s && t[..DigitRun(t)] == s;
      DigitsValue(t[..DigitRun(t)])
  }

  /** Casting the decimal text of `n`, followed by anything that is not a digit, gives `n`. */
  lemma IntCastDigits(n: nat, tail: string)
    requires |tail| == 0 || !IsDigit(tail[0])
    ensures IntCast(Digits(n) + tail) == n
  {
    var d := Digits(n);
    var s := d + tail;
    assert s[0] == d[0];
    IntCastOfDigitStart(s);
    DigitRunOfPrefix(d, tail);
    assert s[..|d|] == d;
    DigitsRoundTrip(n);
  }

  /** A string that starts with a digit casts to the number its leading digits denote. */
  lemma IntCastOfDigitStart(s: string)
    requires |s| > 0 && IsDigit(s[0])
    ensures IntCast(s) == DigitsValue(s[..DigitRun(s)])
  {
    assert !IsPhpSpace(s[0]);
    assert SkipSpace(s) == s;
  }

  lemma {:induction false} DigitRunOfPrefix(d: string, tail: string)
    requires AllDigits(d)
    requires |tail| == 0 || !IsDigit(tail[0])
    ensures DigitRun(d + tail) == |d|
    decreases |d|
  {
    if |d| > 0 {
      assert (d + tail)[1..] == d[1..] + tail;
      DigitRunOfPrefix(d[1..], tail);
    }
  }

  /** `substr($s, -4)`: the last four characters, or the whole string when it is shorter. */
  function LastFour(s: string): (r: string)
    ensures |r| == if |s| < 4 then |s| else 4
    ensures s == s[..|s| - |r|] + r
  {
    if |s| >= 4 then s[|s| - 4..] else s
  }
}
