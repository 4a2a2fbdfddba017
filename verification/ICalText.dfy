/** Escaping of TEXT values (`escapeText`, `unescapeText` in src/calendar-ical.ts):
    section 3.3.11 of RFC 5545, as four global replacements in each direction. */
module ICalText {
  import opened Text

  const BACKSLASH: char := '\\'
  const LF: char := '\n'
  const LETTER_N: set<char> := {'n', 'N'}

  function EscapeText(text: string): string {
    var s1 := ReplaceChar(text, BACKSLASH, "\\\\");
    var s2 := ReplaceChar(s1, ';', "\\;");
    var s3 := ReplaceChar(s2, ',', "\\,");
    ReplaceChar(s3, LF, "\\n")
  }

  function UnescapeText(text: string): string {
    var s1 := ReplacePair(text, BACKSLASH, LETTER_N, "\n");
    var s2 := ReplacePair(s1, BACKSLASH, {','}, ",");
    var s3 := ReplacePair(s2, BACKSLASH, {';'}, ";");
    ReplacePair(s3, BACKSLASH, {BACKSLASH}, "\\")
  }

  /** Whether position `i` holds an 'n' or 'N' directly after a backslash. */
  predicate Fragile(s: string, i: nat)
    requires i < |s|
  {
    i > 0 && s[i - 1] == BACKSLASH && s[i] in LETTER_N
  }

  /** No backslash is directly followed by 'n' or 'N'. */
  predicate Lossless(s: string) {
    forall i | 0 <= i < |s| :: !Fragile(s, i)
  }

  /** What an export followed by an import turns a text into: every 'n' or 'N' directly
      after a backslash has become a line feed, and nothing else has changed. */
  function Damaged(s: string): (d: string)
    ensures |d| == |s|
    ensures forall i | 0 <= i < |s| :: d[i] == if Fragile(s, i) then LF else s[i]
  {
    seq(|s|, i requires 0 <= i < |s| => if Fragile(s, i) then LF else s[i])
  }

  // ---------- the escaper, one character at a time ----------

  function EscapeChar(c: char): string {
    if c == BACKSLASH then "\\\\"
    else if c == ';' then "\\;"
    else if c == ',' then "\\,"
    else if c == LF then "\\n"
    else [c]
  }

  function EscapeEach(s: string): string {
    if s == [] then [] else EscapeChar(s[0]) + EscapeEach(s[1..])
  }

  lemma {:induction false} ReplaceCharAppend(a: string, b: string, c: char, r: string)
    ensures ReplaceChar(a + b, c, r) == ReplaceChar(a, c, r) + ReplaceChar(b, c, r)
  {
    if a == [] {
      assert a + b == b;
    } else {
      assert (a + b)[1..] == a[1..] + b;
      ReplaceCharAppend(a[1..], b, c, r);
    }
  }

  lemma {:induction false} EscapeTextEach(s: string)
    ensures EscapeText(s) == EscapeEach(s)
  {
    if s != [] {
      EscapeTextEach(s[1..]);
      assert s == [s[0]] + s[1..];
      EscapeTextAppend([s[0]], s[1..]);
      EscapeOneChar(s[0]);
    }
  }

  lemma {:induction false} EscapeTextAppend(a: string, b: string)
    ensures EscapeText(a + b) == EscapeText(a) + EscapeText(b)
  {
    var a1, b1 := ReplaceChar(a, BACKSLASH, "\\\\"), ReplaceChar(b, BACKSLASH, "\\\\");
    ReplaceCharAppend(a, b, BACKSLASH, "\\\\");
    var a2, b2 := ReplaceChar(a1, ';', "\\;"), ReplaceChar(b1, ';', "\\;");
    ReplaceCharAppend(a1, b1, ';', "\\;");
    var a3, b3 := ReplaceChar(a2, ',', "\\,"), ReplaceChar(b2, ',', "\\,");
    ReplaceCharAppend(a2, b2, ',', "\\,");
    ReplaceCharAppend(a3, b3, LF, "\\n");
  }

  lemma ReplaceOne(c: char, x: char, r: string)
    ensures ReplaceChar([x], c, r) == if x == c then r else [x]
  {
    assert ReplaceChar([x][1..], c, r) == [];
  }

  lemma ReplaceTwo(c: char, x: char, y: char, r: string)
    ensures ReplaceChar([x, y], c, r) == (if x == c then r else [x]) + (if y == c then r else [y])
  {
    assert [x, y][1..] == [y];
    ReplaceOne(c, y, r);
  }

  lemma EscapeOneChar(c: char)
    ensures EscapeText([c]) == EscapeChar(c)
  {
    ReplaceOne(BACKSLASH, c, "\\\\");
    ReplaceOne(';', c, "\\;");
    ReplaceOne(',', c, "\\,");
    ReplaceOne(LF, c, "\\n");
    if c == BACKSLASH {
      ReplaceTwo(';', BACKSLASH, BACKSLASH, "\\;");
      ReplaceTwo(',', BACKSLASH, BACKSLASH, "\\,");
      ReplaceTwo(LF, BACKSLASH, BACKSLASH, "\\n");
    } else if c == ';' {
      ReplaceTwo(',', BACKSLASH, ';', "\\,");
      ReplaceTwo(LF, BACKSLASH, ';', "\\n");
    } else if c == ',' {
      ReplaceTwo(LF, BACKSLASH, ',', "\\n");
    }
  }

  // ---------- the unescaper, one replacement at a time ----------

  /** The text after the first replacement of `UnescapeText`; `semi` and `comma` say
      whether ';' and ',' still carry their backslash. */
  function Partial(s: string, semi: bool, comma: bool): (p: string)
    ensures semi && p != [] ==> p[0] != ';'
    ensures comma && p != [] ==> p[0] != ','
  {
    if s == [] then []
    else if s[0] == BACKSLASH && |s| > 1 && s[1] in LETTER_N then "\\\n" + Partial(s[2..], semi, comma)
    else if s[0] == BACKSLASH then "\\\\" + Partial(s[1..], semi, comma)
    else if s[0] == ';' && semi then "\\;" + Partial(s[1..], semi, comma)
    else if s[0] == ',' && comma then "\\," + Partial(s[1..], semi, comma)
    else [s[0]] + Partial(s[1..], semi, comma)
  }

  lemma ReplacePairSkip(x: char, t: string, bs: set<char>, r: string)
    requires x != BACKSLASH || t == [] || t[0] !in bs
    ensures ReplacePair([x] + t, BACKSLASH, bs, r) == [x] + ReplacePair(t, BACKSLASH, bs, r)
  {
    assert ([x] + t)[1..] == t;
  }

  lemma ReplacePairHit(x: char, t: string, bs: set<char>, r: string)
    requires x in bs
    ensures ReplacePair([BACKSLASH, x] + t, BACKSLASH, bs, r) == r + ReplacePair(t, BACKSLASH, bs, r)
  {
    assert ([BACKSLASH, x] + t)[2..] == t;
  }

  /** Two characters that the replacement leaves alone. */
  lemma ReplacePairSkip2(x: char, y: char, t: string, bs: set<char>, r: string)
    requires y !in bs
    requires y != BACKSLASH || t == [] || t[0] !in bs
    ensures ReplacePair([x, y] + t, BACKSLASH, bs, r) == [x, y] + ReplacePair(t, BACKSLASH, bs, r)
  {
    assert [x, y] + t == [x] + ([y] + t);
    ReplacePairSkip(x, [y] + t, bs, r);
    ReplacePairSkip(y, t, bs, r);
  }

  lemma EscapeStep(s: string)
    requires s != []
    ensures EscapeEach(s) == EscapeChar(s[0]) + EscapeEach(s[1..])
  {
  }

  lemma EscapeEachBackslashLetter(s: string)
    requires |s| > 1 && s[0] == BACKSLASH && s[1] in LETTER_N
    ensures EscapeEach(s) == [BACKSLASH] + ([BACKSLASH, s[1]] + EscapeEach(s[2..]))
  {
    hide EscapeEach;
    EscapeStep(s);
    EscapeStep(s[1..]);
    assert s[1..][1..] == s[2..];
    assert EscapeChar(s[1]) == [s[1]];
    TwoAndOne(BACKSLASH, BACKSLASH, s[1], EscapeEach(s[2..]));
  }

  lemma TwoAndOne(a: char, b: char, c: char, rest: string)
    ensures [a] + ([b, c] + rest) == [a, b] + ([c] + rest)
  {
  }

  /** One escaped character that is not a backslash before 'n' or 'N'. */
  lemma NewlineStep(c: char, rest: string)
    requires c == BACKSLASH ==> rest == [] || rest[0] !in LETTER_N
    ensures ReplacePair(EscapeChar(c) + rest, BACKSLASH, LETTER_N, "\n")
         == (if c == LF then "\n" else EscapeChar(c)) + ReplacePair(rest, BACKSLASH, LETTER_N, "\n")
  {
    if c == BACKSLASH || c == ';' || c == ',' {
      ReplacePairSkip2(BACKSLASH, c, rest, LETTER_N, "\n");
    } else if c == LF {
      ReplacePairHit('n', rest, LETTER_N, "\n");
    } else {
      ReplacePairSkip(c, rest, LETTER_N, "\n");
    }
  }

  /** A backslash before 'n' or 'N': its second copy is taken together with the letter. */
  lemma NewlinePair(s: string)
    requires |s| > 1 && s[0] == BACKSLASH && s[1] in LETTER_N
    ensures ReplacePair(EscapeEach(s), BACKSLASH, LETTER_N, "\n")
         == "\\\n" + ReplacePair(EscapeEach(s[2..]), BACKSLASH, LETTER_N, "\n")
  {
    hide ReplacePair, EscapeEach;
    var rest := EscapeEach(s[2..]);
    EscapeEachBackslashLetter(s);
    ReplacePairSkip(BACKSLASH, [BACKSLASH, s[1]] + rest, LETTER_N, "\n");
    ReplacePairHit(s[1], rest, LETTER_N, "\n");
  }

  lemma {:induction false} NewlinesRestored(s: string)
    ensures ReplacePair(EscapeEach(s), BACKSLASH, LETTER_N, "\n") == Partial(s, true, true)
  {
    hide ReplacePair;
    if s == [] {
      ReplacePairAbsent("", BACKSLASH, LETTER_N, "\n");
    } else if s[0] == BACKSLASH && |s| > 1 && s[1] in LETTER_N {
      NewlinesRestored(s[2..]);
      NewlinePair(s);
    } else {
      NewlinesRestored(s[1..]);
      NewlineStep(s[0], EscapeEach(s[1..]));
    }
  }

  /** The second and the third replacement, for `c` being ',' and then ';'. */
  lemma {:induction false} SeparatorRestored(s: string, c: char)
    requires c == ',' || c == ';'
    ensures ReplacePair(Partial(s, true, c == ','), BACKSLASH, {c}, [c]) == Partial(s, c == ',', false)
  {
    var comma := c == ',';
    if s == [] {
    } else if s[0] == BACKSLASH && |s| > 1 && s[1] in LETTER_N {
      SeparatorRestored(s[2..], c);
      ReplacePairSkip2(BACKSLASH, LF, Partial(s[2..], true, comma), {c}, [c]);
    } else {
      var rest := Partial(s[1..], true, comma);
      SeparatorRestored(s[1..], c);
      if s[0] == BACKSLASH {
        ReplacePairSkip2(BACKSLASH, BACKSLASH, rest, {c}, [c]);
      } else if s[0] == c {
        ReplacePairHit(c, rest, {c}, [c]);
      } else if s[0] == ';' {
        ReplacePairSkip2(BACKSLASH, ';', rest, {c}, [c]);
      } else {
        ReplacePairSkip(s[0], rest, {c}, [c]);
      }
    }
  }

  lemma {:induction false} BackslashesRestored(s: string)
    ensures ReplacePair(Partial(s, false, false), BACKSLASH, {BACKSLASH}, "\\") == Damaged(s)
  {
    if s != [] {
      var rest := Partial(s[1..], false, false);
      BackslashesRestored(s[1..]);
      if s[0] == BACKSLASH && |s| > 1 && s[1] in LETTER_N {
        BackslashesRestored(s[2..]);
        ReplacePairSkip2(BACKSLASH, LF, Partial(s[2..], false, false), {BACKSLASH}, "\\");
      } else if s[0] == BACKSLASH {
        ReplacePairHit(BACKSLASH, rest, {BACKSLASH}, "\\");
      } else {
        ReplacePairSkip(s[0], rest, {BACKSLASH}, "\\");
      }
    }
  }

  // ---------- main results ----------

  /** For every text, unescaping the escaped text gives exactly the damaged text. */
  lemma UnescapeEscape(s: string)
    ensures UnescapeText(EscapeText(s)) == Damaged(s)
  {
    EscapeTextEach(s);
    NewlinesRestored(s);
    SeparatorRestored(s, ',');
    SeparatorRestored(s, ';');
    BackslashesRestored(s);
  }

  /** The round trip is the identity on exactly the lossless texts. */
  lemma RoundTripIffLossless(s: string)
    ensures UnescapeText(EscapeText(s)) == s <==> Lossless(s)
  {
    UnescapeEscape(s);
    if !Lossless(s) {
      var i :| 0 <= i < |s| && Fragile(s, i);
      assert Damaged(s)[i] == LF != s[i];
    }
  }

  /** An escaped text holds no line feed, and a carriage return, ':' or ';' only if the text does. */
  lemma {:induction false} EscapedCharacters(s: string)
    ensures LF !in EscapeText(s)
    ensures '\r' !in s ==> '\r' !in EscapeText(s)
    ensures ':' !in s ==> ':' !in EscapeText(s)
    ensures ';' !in s ==> ';' !in EscapeText(s)
    ensures ',' !in s ==> ',' !in EscapeText(s)
  {
    EscapeTextEach(s);
    if s != [] {
      EscapedCharacters(s[1..]);
      EscapeTextEach(s[1..]);
    }
  }
}
