/** Line folding (`foldLine`, `unfoldLines` in src/calendar-ical.ts): section 3.1 of RFC 5545. */
module ICalFold {
  import opened Text

  const CRLF: string := "\r\n"
  const MAX_LINE := 75

  /** The chunks of at most 74 characters that follow the first physical line. */
  function Continuations(s: string): (parts: seq<string>)
    ensures forall i | 0 <= i < |parts| :: 1 < |parts[i]| <= MAX_LINE && parts[i][0] == ' '
    decreases |s|
  {
    if s == [] then []
    else
      var n := ChunkSize(s);
      [" " + s[..n]] + Continuations(s[n..])
  }

  function ChunkSize(s: string): (n: nat)
    requires s != []
    ensures 0 < n <= |s|
  {
    if |s| < MAX_LINE - 1 then |s| else MAX_LINE - 1
  }

  /** The physical lines of a content line; none is longer than 75 characters, and exactly
      the first one lacks the leading space. */
  function PhysicalLines(line: string): (parts: seq<string>)
    ensures |parts| > 0
    ensures forall i | 0 <= i < |parts| :: |parts[i]| <= MAX_LINE
    ensures parts[0] == if |line| <= MAX_LINE then line else line[..MAX_LINE]
    ensures forall i | 0 < i < |parts| :: parts[i] != [] && parts[i][0] == ' '
  {
    if |line| <= MAX_LINE then [line]
    else [line[..MAX_LINE]] + Continuations(line[MAX_LINE..])
  }

  function Folded(line: string): string {
    Join(PhysicalLines(line), CRLF)
  }

  method FoldLine(line: string) returns (r: string)
    ensures r == Folded(line)
  {
    if |line| <= MAX_LINE {
      return line;
    }
    var parts := [line[..MAX_LINE]];
    var remaining := line[MAX_LINE..];
    while |remaining| > 0
      invariant parts + Continuations(remaining) == PhysicalLines(line)
    {
      var n := ChunkSize(remaining);
      assert parts + Continuations(remaining) == parts + [" " + remaining[..n]] + Continuations(remaining[n..]);
      parts := parts + [" " + remaining[..n]];
      remaining := remaining[n..];
    }
    assert parts + [] == parts;
    r := Join(parts, CRLF);
  }

  /** Line ends become single line feeds, and the text is cut there. */
  function RawLines(text: string): seq<string> {
    Split(ReplaceChar(ReplacePair(text, '\r', {'\n'}, "\n"), '\r', "\n"), '\n')
  }

  predicate IsContinuation(line: string) {
    line != [] && (line[0] == ' ' || line[0] == '\t')
  }

  /** One raw line either extends the last logical line or starts a new one. */
  function Absorb(result: seq<string>, line: string): seq<string> {
    if IsContinuation(line) && |result| > 0
    then result[|result| - 1 := result[|result| - 1] + line[1..]]
    else result + [line]
  }

  function AbsorbAll(result: seq<string>, raw: seq<string>): seq<string>
    decreases |raw|
  {
    if raw == [] then result else AbsorbAll(Absorb(result, raw[0]), raw[1..])
  }

  function NonEmpty(lines: seq<string>): (r: seq<string>)
    ensures forall i | 0 <= i < |r| :: r[i] != []
  {
    if lines == [] then []
    else (if lines[0] == [] then [] else [lines[0]]) + NonEmpty(lines[1..])
  }

  function Unfolded(text: string): seq<string> {
    NonEmpty(AbsorbAll([], RawLines(text)))
  }

  method UnfoldLines(text: string) returns (r: seq<string>)
    ensures r == Unfolded(text)
  {
    var raw := RawLines(text);
    var result: seq<string> := [];
    for i := 0 to |raw|
      invariant AbsorbAll(result, raw[i..]) == AbsorbAll([], raw)
    {
      var line := raw[i];
      assert raw[i..][1..] == raw[i + 1..];
      if IsContinuation(line) && |result| > 0 {
        result := result[|result| - 1 := result[|result| - 1] + line[1..]];
      } else {
        result := result + [line];
      }
    }
    r := NonEmpty(result);
  }

  // ---------- unfolding undoes folding ----------

  /** A content line as the exporter writes it: one line, not empty, not starting blank. */
  predicate ContentLine(line: string) {
    line != [] && !IsContinuation(line) && '\r' !in line && '\n' !in line
  }

  /** Every string followed by `end`. */
  function Terminated(lines: seq<string>, end: string): string {
    if lines == [] then [] else lines[0] + end + Terminated(lines[1..], end)
  }

  /** The file of the given content lines: each folded and ended by CRLF. */
  function Rendered(lines: seq<string>): string {
    if lines == [] then [] else Folded(lines[0]) + CRLF + Rendered(lines[1..])
  }

  function AllPhysical(lines: seq<string>): seq<string> {
    if lines == [] then [] else PhysicalLines(lines[0]) + AllPhysical(lines[1..])
  }

  predicate OneLine(s: string) {
    '\r' !in s && '\n' !in s
  }

  predicate AllOneLine(lines: seq<string>) {
    forall i | 0 <= i < |lines| :: OneLine(lines[i])
  }

  predicate AllContentLines(lines: seq<string>) {
    forall i | 0 <= i < |lines| :: ContentLine(lines[i])
  }

  lemma {:induction false} TerminatedAppend(a: seq<string>, b: seq<string>, end: string)
    ensures Terminated(a + b, end) == Terminated(a, end) + Terminated(b, end)
  {
    if a == [] {
      assert a + b == b;
    } else {
      assert (a + b)[1..] == a[1..] + b;
      TerminatedAppend(a[1..], b, end);
    }
  }

  lemma {:induction false} JoinTerminated(parts: seq<string>, end: string)
    requires |parts| > 0
    ensures Join(parts, end) + end == Terminated(parts, end)
  {
    if |parts| > 1 {
      JoinTerminated(parts[1..], end);
      assert Join(parts, end) + end == parts[0] + end + (Join(parts[1..], end) + end);
    } else {
      assert Terminated(parts[1..], end) == [];
    }
  }

  lemma {:induction false} RenderedTerminated(lines: seq<string>)
    ensures Rendered(lines) == Terminated(AllPhysical(lines), CRLF)
  {
    if lines != [] {
      RenderedTerminated(lines[1..]);
      JoinTerminated(PhysicalLines(lines[0]), CRLF);
      TerminatedAppend(PhysicalLines(lines[0]), AllPhysical(lines[1..]), CRLF);
    }
  }

  lemma {:induction false} ContinuationsOneLine(s: string)
    requires OneLine(s)
    ensures AllOneLine(Continuations(s))
    decreases |s|
  {
    if s != [] {
      ContinuationsOneLine(s[ChunkSize(s)..]);
    }
  }

  lemma {:induction false} PhysicalOneLine(lines: seq<string>)
    requires AllOneLine(lines)
    ensures AllOneLine(AllPhysical(lines))
  {
    if lines != [] {
      PhysicalOneLine(lines[1..]);
      if |lines[0]| > MAX_LINE {
        ContinuationsOneLine(lines[0][MAX_LINE..]);
      }
    }
  }

  /** The replacement of CRLF by LF acts on one terminated line at a time. */
  lemma ReplacePairFirst(s: string, a: char, bs: set<char>, r: string)
    requires |s| >= 2
    ensures ReplacePair(s, a, bs, r)
         == if s[0] == a && s[1] in bs then r + ReplacePair(s[2..], a, bs, r)
            else [s[0]] + ReplacePair(s[1..], a, bs, r)
  {
  }

  lemma {:induction false} CrlfReplaced(p: string, rest: string)
    requires '\r' !in p
    ensures ReplacePair(p + CRLF + rest, '\r', {'\n'}, "\n") == p + "\n" + ReplacePair(rest, '\r', {'\n'}, "\n")
  {
    hide ReplacePair;
    var s := p + CRLF + rest;
    if p == [] {
      assert s == CRLF + rest;
      assert s[2..] == rest;
      ReplacePairFirst(s, '\r', {'\n'}, "\n");
    } else {
      assert s[1..] == p[1..] + CRLF + rest;
      CrlfReplaced(p[1..], rest);
      ReplacePairFirst(s, '\r', {'\n'}, "\n");
      assert [p[0]] + p[1..] == p;
    }
  }

  lemma {:induction false} CrlfAllReplaced(lines: seq<string>)
    requires AllOneLine(lines)
    ensures ReplacePair(Terminated(lines, CRLF), '\r', {'\n'}, "\n") == Terminated(lines, "\n")
    ensures '\r' !in Terminated(lines, "\n")
  {
    if lines != [] {
      CrlfReplaced(lines[0], Terminated(lines[1..], CRLF));
      CrlfAllReplaced(lines[1..]);
    }
  }

  lemma SplitEmpty(c: char)
    ensures Split("", c) == [""]
  {
  }

  lemma {:induction false} SplitTerminated(lines: seq<string>)
    requires AllOneLine(lines)
    ensures Split(Terminated(lines, "\n"), '\n') == lines + [""]
  {
    hide Split;
    if lines != [] {
      SplitAt(lines[0], '\n', Terminated(lines[1..], "\n"));
      SplitTerminated(lines[1..]);
      assert lines == [lines[0]] + lines[1..];
    } else {
      SplitEmpty('\n');
    }
  }

  lemma RawLinesTerminated(lines: seq<string>)
    requires AllOneLine(lines)
    ensures RawLines(Terminated(lines, CRLF)) == lines + [""]
  {
    CrlfAllReplaced(lines);
    ReplaceCharAbsent(Terminated(lines, "\n"), '\r', "\n");
    SplitTerminated(lines);
  }

  lemma {:induction false} AbsorbContinuations(result: seq<string>, last: string, s: string, rest: seq<string>)
    ensures AbsorbAll(result + [last], Continuations(s) + rest) == AbsorbAll(result + [last + s], rest)
    decreases |s|
  {
    if s == [] {
      assert last + s == last;
      assert Continuations(s) + rest == rest;
    } else {
      var n := ChunkSize(s);
      var chunk := " " + s[..n];
      var raw := Continuations(s) + rest;
      assert Continuations(s) == [chunk] + Continuations(s[n..]);
      assert raw[0] == chunk;
      assert raw[1..] == Continuations(s[n..]) + rest;
      assert chunk[1..] == s[..n];
      assert Absorb(result + [last], chunk) == result + [last + s[..n]];
      AbsorbContinuations(result, last + s[..n], s[n..], rest);
      assert last + s[..n] + s[n..] == last + s;
    }
  }

  /** Unfolding the physical lines of one content line yields that line. */
  lemma AbsorbOne(result: seq<string>, line: string, rest: seq<string>)
    requires ContentLine(line)
    ensures AbsorbAll(result, PhysicalLines(line) + rest) == AbsorbAll(result + [line], rest)
  {
    var raw := PhysicalLines(line) + rest;
    assert Absorb(result, raw[0]) == result + [raw[0]];
    if |line| <= MAX_LINE {
      assert raw[1..] == rest;
    } else {
      assert raw[1..] == Continuations(line[MAX_LINE..]) + rest;
      AbsorbContinuations(result, line[..MAX_LINE], line[MAX_LINE..], rest);
      assert line[..MAX_LINE] + line[MAX_LINE..] == line;
    }
  }

  lemma Associative(a: seq<string>, b: seq<string>, c: seq<string>)
    ensures a + b + c == a + (b + c)
  {
  }

  lemma {:induction false} AbsorbLines(result: seq<string>, lines: seq<string>, rest: seq<string>)
    requires AllContentLines(lines)
    ensures AbsorbAll(result, AllPhysical(lines) + rest) == AbsorbAll(result + lines, rest)
    decreases |lines|
  {
    if lines == [] {
      assert result + lines == result;
      assert AllPhysical(lines) + rest == rest;
    } else {
      var line, others := lines[0], AllPhysical(lines[1..]);
      assert AllPhysical(lines) + rest == PhysicalLines(line) + (others + rest) by {
        Associative(PhysicalLines(line), others, rest);
      }
      AbsorbOne(result, line, others + rest);
      AbsorbLines(result + [line], lines[1..], rest);
      Associative(result, [line], lines[1..]);
      assert [line] + lines[1..] == lines;
    }
  }

  /** Main result: unfolding the rendered file gives back its content lines. */
  lemma UnfoldRendered(lines: seq<string>)
    requires AllContentLines(lines)
    ensures Unfolded(Rendered(lines)) == lines
  {
    RenderedTerminated(lines);
    PhysicalOneLine(lines);
    RawLinesTerminated(AllPhysical(lines));
    AbsorbLines([], lines, [""]);
    assert [] + lines == lines;
    assert AbsorbAll(lines, [""]) == lines + [""];
    NonEmptySnoc(lines);
  }

  lemma {:induction false} NonEmptySnoc(lines: seq<string>)
    requires AllContentLines(lines)
    ensures NonEmpty(lines + [""]) == lines
  {
    if lines == [] {
      assert NonEmpty([""][1..]) == [];
    } else {
      assert (lines + [""])[1..] == lines[1..] + [""];
      NonEmptySnoc(lines[1..]);
    }
  }
}
