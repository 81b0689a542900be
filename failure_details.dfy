/** `extractFailureDetails`: splitting Jest's failure text into a message and
    a stack trace, with the two regular expressions written out as scans. */
module FailureDetails {
  import opened Wrappers
  import opened Strings
  import opened JestResults

  const Esc: char := '\U{1B}'

  /** The `message` and `trace` properties `extractFailureDetails` returns; each may be absent. */
  datatype FailureParts = FailureParts(message: Option<string>, trace: Option<string>)

  // ---------------------------------------------------------------------
  // The stack-frame pattern /^\s{4}at/mu

  /** `^` under the `m` flag: the start of the text, or just after a line terminator. */
  predicate AtLineStart(s: string, p: int) {
    p == 0 || (0 < p <= |s| && IsLineTerminator(s[p - 1]))
  }

  /** The pattern matches at `p`: a line start, then any four whitespace
      characters (line terminators included), then `at`. */
  predicate FrameAt(s: string, p: int) {
    && 0 <= p && p + 6 <= |s| && AtLineStart(s, p)
    && IsWhitespace(s[p]) && IsWhitespace(s[p + 1]) && IsWhitespace(s[p + 2]) && IsWhitespace(s[p + 3])
    && s[p + 4] == 'a' && s[p + 5] == 't'
  }

  /** `p` is where `match` reports its match: the leftmost position the pattern matches at. */
  predicate IsFirstFrame(s: string, p: int) {
    FrameAt(s, p) && forall q :: 0 <= q < p ==> !FrameAt(s, q)
  }

  /** The regular-expression search, trying each start position from `from` on. */
  function FindFrameFrom(s: string, from: nat): (m: Option<nat>)
    requires from <= |s|
    ensures m.Some? ==> from <= m.value < |s| && FrameAt(s, m.value)
    ensures forall q :: from <= q && (m.None? || q < m.value) ==> !FrameAt(s, q)
    decreases |s| - from
  {
    if from == |s| then None
    else if FrameAt(s, from) then Some(from)
    else FindFrameFrom(s, from + 1)
  }

  /** `match?.index`: the first frame line, or `undefined` when there is none. */
  function FirstFrame(s: string): (m: Option<nat>)
    ensures m.Some? ==> IsFirstFrame(s, m.value)
    ensures m.None? ==> forall q :: !FrameAt(s, q)
  {
    FindFrameFrom(s, 0)
  }

  // ---------------------------------------------------------------------
  // The colour-code pattern /\x1b\[\d+m/gmu

  predicate IsDigit(ch: char) {
    '0' <= ch <= '9'
  }

  /** One match of the colour-code pattern: ESC, `[`, one or more digits, `m`. */
  predicate IsColorCode(t: string) {
    && |t| >= 4 && t[0] == Esc && t[1] == '[' && t[|t| - 1] == 'm'
    && forall k :: 2 <= k < |t| - 1 ==> IsDigit(t[k])
  }

  /** The number of digits in `s` from position `i` on (the greedy `\d+`). */
  function DigitRun(s: string, i: nat): (n: nat)
    requires i <= |s|
    ensures i + n <= |s|
    ensures forall k :: i <= k < i + n ==> IsDigit(s[k])
    ensures i + n < |s| ==> !IsDigit(s[i + n])
    decreases |s| - i
  {
    if i < |s| && IsDigit(s[i]) then 1 + DigitRun(s, i + 1) else 0
  }

  /** The length of the colour code the pattern matches at the start of `s`,
      or 0 when it does not match there. */
  function ColorCodeLength(s: string): (n: nat)
    ensures n <= |s|
    ensures n > 0 ==> s[0] == Esc && IsColorCode(s[..n])
  {
    if |s| >= 2 && s[0] == Esc && s[1] == '[' then
      var d := DigitRun(s, 2);
      if d > 0 && 2 + d < |s| && s[2 + d] == 'm' then 3 + d else 0
    else 0
  }

  /** The match at the start is the only colour code that is a prefix of `s`. */
  lemma ColorCodeLengthUnique(s: string, m: nat)
    requires m <= |s| && IsColorCode(s[..m])
    ensures ColorCodeLength(s) == m
  {
    var t := s[..m];
    assert s[0] == t[0] && s[1] == t[1] && s[m - 1] == t[m - 1];
    assert forall k :: 2 <= k < m - 1 ==> IsDigit(s[k]) by {
      forall k | 2 <= k < m - 1 ensures IsDigit(s[k]) { assert s[k] == t[k]; }
    }
    var d := DigitRun(s, 2);
    assert !IsDigit(s[m - 1]);
    assert d == m - 3;
  }

  /** `s.replace(colorCodesPattern, '')`: scanning left to right, each colour
      code found is dropped and the scan resumes right after it; every other
      character is kept. */
  function StripColorCodes(s: string): (r: string)
    ensures |r| <= |s|
    decreases |s|
  {
    if |s| == 0 then ""
    else
      var n := ColorCodeLength(s);
      if n > 0 then StripColorCodes(s[n..]) else [s[0]] + StripColorCodes(s[1..])
  }

  /** Text without ESC characters is left as it is. */
  lemma StripColorCodesPlainText(s: string)
    requires Esc !in s
    ensures StripColorCodes(s) == s
  {
    assert s + "" == s;
    StripColorCodesKeepsPlainPrefix(s, "");
  }

  /** A colour code at the start is dropped. */
  lemma StripColorCodesDropsLeadingCode(code: string, u: string)
    requires IsColorCode(code)
    ensures StripColorCodes(code + u) == StripColorCodes(u)
  {
    var s := code + u;
    assert s[..|code|] == code;
    ColorCodeLengthUnique(s, |code|);
    assert s[|code|..] == u;
  }

  /** A character that starts no colour code is kept: any character but ESC,
      and also an ESC not followed by `[`, one or more digits and `m`. */
  lemma StripColorCodesKeepsPlain(ch: char, s: string)
    requires ColorCodeLength([ch] + s) == 0
    ensures StripColorCodes([ch] + s) == [ch] + StripColorCodes(s)
  {
    assert ([ch] + s)[1..] == s;
  }

  /** Only ESC `[` digits `m` is stripped: an SGR sequence with several
      parameters, such as bold red, stays as it is. */
  lemma StripColorCodesKeepsCompoundSequence()
    ensures StripColorCodes([Esc, '[', '1', ';', '3', '1', 'm']) == [Esc, '[', '1', ';', '3', '1', 'm']
  {
    var s := [Esc, '[', '1', ';', '3', '1', 'm'];
    assert DigitRun(s, 3) == 0;
    assert ColorCodeLength(s) == 0;
    assert s == [Esc] + s[1..];
    StripColorCodesKeepsPlain(Esc, s[1..]);
    StripColorCodesPlainText(s[1..]);
  }

  /** A prefix without ESC characters is kept as it is. */
  lemma {:induction false} StripColorCodesKeepsPlainPrefix(t: string, rest: string)
    requires Esc !in t
    ensures StripColorCodes(t + rest) == t + StripColorCodes(rest)
  {
    if |t| == 0 {
      assert t + rest == rest;
    } else {
      assert t + rest == [t[0]] + (t[1..] + rest);
      assert ColorCodeLength([t[0]] + (t[1..] + rest)) == 0;
      StripColorCodesKeepsPlain(t[0], t[1..] + rest);
      StripColorCodesKeepsPlainPrefix(t[1..], rest);
      assert [t[0]] + (t[1..] + StripColorCodes(rest)) == t + StripColorCodes(rest);
    }
  }

  /** Plain text before a colour code is kept and the code itself is dropped. */
  lemma StripColorCodesDropsCode(t: string, code: string, u: string)
    requires Esc !in t
    requires IsColorCode(code)
    ensures StripColorCodes(t + code + u) == t + StripColorCodes(u)
  {
    var rest := code + u;
    assert t + code + u == t + rest;
    StripColorCodesKeepsPlainPrefix(t, rest);
    StripColorCodesDropsLeadingCode(code, u);
    calc {
      StripColorCodes(t + code + u);
      StripColorCodes(t + rest);
      t + StripColorCodes(rest);
      t + StripColorCodes(u);
    }
  }

  /** Where every ESC character starts a colour code, no ESC is left. */
  lemma {:induction false} StripColorCodesRemovesEsc(s: string)
    requires forall k :: 0 <= k < |s| && s[k] == Esc ==> ColorCodeLength(s[k..]) > 0
    ensures Esc !in StripColorCodes(s)
    decreases |s|
  {
    if |s| > 0 {
      var n := ColorCodeLength(s);
      var i := if n > 0 then n else 1;
      assert s[0] == Esc ==> ColorCodeLength(s[0..]) > 0;
      assert s[0..] == s;
      forall k | 0 <= k < |s[i..]| && s[i..][k] == Esc
        ensures ColorCodeLength(s[i..][k..]) > 0
      {
        assert s[i..][k..] == s[i + k..];
      }
      StripColorCodesRemovesEsc(s[i..]);
    }
  }

  /** The replacement is a single pass: removing one code can join the text
      around it into a new code, which stays. With digits `d` and `e`,
      ESC `[` ESC `[` d `m` e `m` becomes ESC `[` e `m`. */
  lemma StripColorCodesSinglePass(d: char, e: char)
    requires IsDigit(d) && IsDigit(e)
    ensures StripColorCodes([Esc, '[', Esc, '[', d, 'm', e, 'm']) == [Esc, '[', e, 'm']
  {
    var code := [Esc, '[', d, 'm'];
    var tail := [e, 'm'];
    var s2 := code + tail;
    var s1 := ['['] + s2;
    assert IsColorCode(code);
    StripColorCodesDropsLeadingCode(code, tail);
    StripColorCodesPlainText(tail);
    assert StripColorCodes(s2) == tail;
    assert ColorCodeLength(s1) == 0;
    StripColorCodesKeepsPlain('[', s2);
    assert StripColorCodes(s1) == ['['] + tail;
    assert DigitRun([Esc] + s1, 2) == 0;
    assert ColorCodeLength([Esc] + s1) == 0;
    StripColorCodesKeepsPlain(Esc, s1);
    assert [Esc] + s1 == [Esc, '[', Esc, '[', d, 'm', e, 'm'];
  }




  // ---------------------------------------------------------------------
  // Trace normalisation

  function TrimAll(lines: seq<string>): (r: seq<string>)
    ensures |r| == |lines|
    ensures forall k :: 0 <= k < |r| ==> r[k] == Trim(lines[k])
  {
    seq(|lines|, k requires 0 <= k < |lines| => Trim(lines[k]))
  }

  /** `.split('\n').map((line) => line.trim()).join('\n')` */
  function TrimLines(s: string): string
  {
    Join(TrimAll(Split(s, '\n')), "\n")
  }

  /** The lines of a normalised trace are exactly the trimmed lines of the input. */
  lemma TrimLinesLines(s: string)
    ensures Split(TrimLines(s), '\n') == TrimAll(Split(s, '\n'))
  {
    var lines := TrimAll(Split(s, '\n'));
    forall k | 0 <= k < |lines| ensures '\n' !in lines[k] {
      TrimKeepsFree(Split(s, '\n')[k], '\n');
    }
    SplitJoin(lines, '\n');
  }

  /** Trimming a line that starts with four whitespace characters and `at` leaves it starting with `at`. */
  lemma TrimFrameLine(line: string)
    requires |line| >= 6
    requires forall k :: 0 <= k < 4 ==> IsWhitespace(line[k])
    requires line[4] == 'a' && line[5] == 't'
    ensures |Trim(line)| >= 2 && Trim(line)[..2] == "at"
  {
    assert LeadingWhitespace(line) == 4;
    var r := Trim(line);
    assert r == line[4..4 + |r|];
  }

  /** A normalised trace starts with the first line, trimmed. */
  lemma TrimLinesStartsWithFirstLine(t: string)
    ensures |Trim(Split(t, '\n')[0])| <= |TrimLines(t)|
    ensures TrimLines(t)[..|Trim(Split(t, '\n')[0])|] == Trim(Split(t, '\n')[0])
  {
    var trimmed := TrimAll(Split(t, '\n'));
    JoinStartsWithFirst(trimmed, "\n");
  }

  /** When the four whitespace characters of the frame line hold no line feed,
      the normalised trace starts with the `at` of that frame. */
  lemma TraceStartsWithAt(s: string, p: int)
    requires FrameAt(s, p)
    requires '\n' !in s[p..p + 4]
    ensures |TrimLines(s[p..])| >= 2 && TrimLines(s[p..])[..2] == "at"
  {
    var t := s[p..];
    var a := t[..6];
    assert '\n' !in a by {
      forall k | 0 <= k < 4 ensures a[k] != '\n' {
        assert a[k] == s[p..p + 4][k];
      }
    }
    assert t == a + t[6..];
    SplitPrefix(a, t[6..], '\n');
    var line := Split(t, '\n')[0];
    assert line == a + Split(t[6..], '\n')[0];
    assert forall k :: 0 <= k < 6 ==> line[k] == s[p + k];
    TrimFrameLine(line);
    TrimLinesStartsWithFirstLine(t);
  }

  // ---------------------------------------------------------------------
  // extractFailureDetails

  /** Nothing unless the raw status is `failed` and failure messages exist.
      Then the messages are joined with LF; the message is the text before the
      first frame line with colour codes removed, the trace the text from that
      line on with every line trimmed; with no frame line both come from the
      whole text. When `failureDetails` is present the trace is instead the
      raw messages joined with CR LF. */
  function ExtractFailureDetails(c: TestCase): (r: FailureParts)
    ensures r.message.Some? <==> c.status == "failed" && c.failureMessages.Some?
    ensures r.trace.Some? <==> r.message.Some?
    ensures r.message.Some? ==>
      var joined := Join(c.failureMessages.value, "\n");
      && (forall p :: IsFirstFrame(joined, p) ==>
            && r.message.value == StripColorCodes(joined[..p])
            && (!c.hasFailureDetails ==> r.trace.value == TrimLines(joined[p..])))
      && ((forall q :: !FrameAt(joined, q)) ==>
            && r.message.value == StripColorCodes(joined)
            && (!c.hasFailureDetails ==> r.trace.value == TrimLines(joined)))
      && (c.hasFailureDetails ==> r.trace.value == Join(c.failureMessages.value, "\r\n"))
  {
    if c.status == "failed" && c.failureMessages.Some? then
      var joined := Join(c.failureMessages.value, "\n");
      var index := FirstFrame(joined);
      var message := StripColorCodes(joined[..index.GetOr(|joined|)]);
      var trace := TrimLines(joined[index.GetOr(0)..]);
      assert index.None? ==> joined[..|joined|] == joined && joined[0..] == joined;
      FailureParts(Some(message), Some(if c.hasFailureDetails then Join(c.failureMessages.value, "\r\n") else trace))
    else
      FailureParts(None, None)
  }

  /** For a failed case without `failureDetails` whose first frame line's
      indentation holds no line feed, the reported trace begins with `at`. */
  lemma FailedTraceStartsWithAt(c: TestCase, p: nat)
    requires c.status == "failed" && c.failureMessages.Some? && !c.hasFailureDetails
    requires IsFirstFrame(Join(c.failureMessages.value, "\n"), p)
    requires '\n' !in Join(c.failureMessages.value, "\n")[p..p + 4]
    ensures ExtractFailureDetails(c).trace.Some?
    ensures |ExtractFailureDetails(c).trace.value| >= 2 && ExtractFailureDetails(c).trace.value[..2] == "at"
  {
    TraceStartsWithAt(Join(c.failureMessages.value, "\n"), p);
  }

  /** Failure text without colour codes gives as message exactly the text
      before the first frame line, or the whole text when there is none. */
  lemma PlainFailureMessage(c: TestCase)
    requires c.status == "failed" && c.failureMessages.Some?
    requires Esc !in Join(c.failureMessages.value, "\n")
    ensures ExtractFailureDetails(c).message.Some?
    ensures var joined := Join(c.failureMessages.value, "\n");
      && (forall p :: IsFirstFrame(joined, p) ==> ExtractFailureDetails(c).message.value == joined[..p])
      && ((forall q :: !FrameAt(joined, q)) ==> ExtractFailureDetails(c).message.value == joined)
  {
    var joined := Join(c.failureMessages.value, "\n");
    StripColorCodesPlainText(joined);
    forall p | IsFirstFrame(joined, p) ensures ExtractFailureDetails(c).message.value == joined[..p] {
      assert Esc !in joined[..p] by {
        forall k | 0 <= k < p ensures joined[..p][k] != Esc { assert joined[..p][k] == joined[k]; }
      }
      StripColorCodesPlainText(joined[..p]);
    }
  }
}
