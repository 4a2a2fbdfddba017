/** The string operations of JavaScript that the calendar and compliance code is
    built from: global replacement, `split`, `join`, `indexOf`, decimal printing. */
module Text {

  /** Replaces every occurrence of the character `c` by the string `r`. */
  function ReplaceChar(s: string, c: char, r: string): string {
    if s == [] then []
    else (if s[0] == c then r else [s[0]]) + ReplaceChar(s[1..], c, r)
  }

  /** Replaces, left to right and without rescanning, every occurrence of `a` followed
      by one of the characters in `bs` by the string `r`. */
  function ReplacePair(s: string, a: char, bs: set<char>, r: string): string {
    if |s| < 2 then s
    else if s[0] == a && s[1] in bs then r + ReplacePair(s[2..], a, bs, r)
    else [s[0]] + ReplacePair(s[1..], a, bs, r)
  }

  /** The index of the first `c` in `s`, or -1. */
  function IndexOf(s: string, c: char): (i: int)
    ensures -1 <= i < |s|
    ensures i >= 0 ==> s[i] == c && c !in s[..i]
    ensures i < 0 ==> c !in s
  {
    if s == [] then -1
    else if s[0] == c then 0
    else
      var k := IndexOf(s[1..], c);
      if k < 0 then -1 else k + 1
  }

  /** Splits `s` at every `c`; the result is never empty. */
  function Split(s: string, c: char): (parts: seq<string>)
    ensures |parts| > 0
    ensures c !in s ==> parts == [s]
  {
    if s == [] then [[]]
    else if s[0] == c then [[]] + Split(s[1..], c)
    else
      var rest := Split(s[1..], c);
      assert s == [s[0]] + s[1..];
      [[s[0]] + rest[0]] + rest[1..]
  }

  function Join(parts: seq<string>, sep: string): string {
    if parts == [] then []
    else if |parts| == 1 then parts[0]
    else parts[0] + sep + Join(parts[1..], sep)
  }

  lemma {:induction false} IndexOfAt(before: string, c: char, after: string)
    requires c !in before
    ensures IndexOf(before + [c] + after, c) == |before|
  {
    var s := before + [c] + after;
    if before == [] {
      assert s[0] == c;
    } else {
      assert s[1..] == before[1..] + [c] + after;
      IndexOfAt(before[1..], c, after);
    }
  }

  lemma {:induction false} SplitAt(before: string, c: char, after: string)
    requires c !in before
    ensures Split(before + [c] + after, c) == [before] + Split(after, c)
  {
    var s := before + [c] + after;
    if before == [] {
      assert s[1..] == after;
    } else {
      assert s[1..] == before[1..] + [c] + after;
      SplitAt(before[1..], c, after);
      assert [before[0]] + before[1..] == before;
    }
  }

  /** Splitting undoes joining when no part holds the separator. */
  lemma {:induction false} SplitJoin(parts: seq<string>, c: char)
    requires |parts| > 0
    requires forall p <- parts :: c !in p
    ensures Split(Join(parts, [c]), c) == parts
  {
    if |parts| == 1 {
    } else {
      SplitAt(parts[0], c, Join(parts[1..], [c]));
      SplitJoin(parts[1..], c);
    }
  }

  lemma {:induction false} JoinSnoc(parts: seq<string>, last: string, sep: string)
    requires |parts| > 0
    ensures Join(parts + [last], sep) == Join(parts, sep) + sep + last
  {
    if |parts| == 1 {
      assert (parts + [last])[1..] == [last];
    } else {
      assert (parts + [last])[1..] == parts[1..] + [last];
      JoinSnoc(parts[1..], last, sep);
    }
  }

  lemma {:induction false} ReplaceCharAbsent(s: string, c: char, r: string)
    requires c !in s
    ensures ReplaceChar(s, c, r) == s
  {
    if s != [] {
      ReplaceCharAbsent(s[1..], c, r);
    }
  }

  lemma {:induction false} ReplacePairAbsent(s: string, a: char, bs: set<char>, r: string)
    requires a !in s
    ensures ReplacePair(s, a, bs, r) == s
  {
    if |s| >= 2 {
      ReplacePairAbsent(s[1..], a, bs, r);
    }
  }

  // ---------- decimal numbers ----------

  const DIGITS: string := "0123456789"

  predicate IsDigit(c: char) {
    '0' <= c <= '9'
  }

  function DigitValue(c: char): (d: nat)
    requires IsDigit(c)
    ensures d < 10 && DIGITS[d] == c
  {
    (c as int) - ('0' as int)
  }

  function Decimal(n: nat): (s: string)
    ensures |s| > 0 && forall c <- s :: IsDigit(c)
  {
    if n < 10 then [DIGITS[n]] else Decimal(n / 10) + [DIGITS[n % 10]]
  }

  function ParseDecimal(s: string): nat
    requires forall c <- s :: IsDigit(c)
  {
    if s == [] then 0
    else 10 * ParseDecimal(s[..|s| - 1]) + DigitValue(s[|s| - 1])
  }

  lemma {:induction false} ParseDecimalInverse(n: nat)
    ensures ParseDecimal(Decimal(n)) == n
  {
    var s := Decimal(n);
    if n >= 10 {
      ParseDecimalInverse(n / 10);
      assert s[..|s| - 1] == Decimal(n / 10);
    } else {
      assert s[..0] == [];
    }
  }

  function PrintInt(n: int): (s: string)
    ensures forall c <- s :: IsDigit(c) || c == '-'
  {
    if n < 0 then "-" + Decimal(-n) else Decimal(n)
  }

  lemma PrintIntInjective(m: int, n: int)
    requires PrintInt(m) == PrintInt(n)
    ensures m == n
  {
    ParseDecimalInverse(if m < 0 then -m else m);
    ParseDecimalInverse(if n < 0 then -n else n);
    assert n < 0 ==> PrintInt(n)[0] == '-' && PrintInt(n)[1..] == Decimal(-n);
    assert m < 0 ==> PrintInt(m)[0] == '-' && PrintInt(m)[1..] == Decimal(-m);
    assert n >= 0 ==> PrintInt(n)[0] in Decimal(n);
    assert m >= 0 ==> PrintInt(m)[0] in Decimal(m);
  }

  // ---------- letter case ----------

  function UpperChar(c: char): char {
    if 'a' <= c <= 'z' then ((c as int) - 32) as char else c
  }

  function LowerChar(c: char): char {
    if 'A' <= c <= 'Z' then ((c as int) + 32) as char else c
  }

  /** Case mapping of ASCII letters. */
  function Upper(s: string): (u: string)
    ensures |u| == |s| && forall i | 0 <= i < |s| :: u[i] == UpperChar(s[i])
  {
    seq(|s|, i requires 0 <= i < |s| => UpperChar(s[i]))
  }

  function Lower(s: string): (u: string)
    ensures |u| == |s| && forall i | 0 <= i < |s| :: u[i] == LowerChar(s[i])
  {
    seq(|s|, i requires 0 <= i < |s| => LowerChar(s[i]))
  }

  // ---------- white space ----------

  /** White space and line terminators of ECMAScript. */
  predicate IsBlank(c: char) {
    c in {' ', '\t', '\n', '\r', '\U{0b}', '\U{0c}', '\U{a0}', '\U{feff}', '\U{1680}', '\U{2028}', '\U{2029}',
          '\U{202f}', '\U{205f}', '\U{3000}'} || '\U{2000}' <= c <= '\U{200a}'
  }

  function TrimStart(s: string): string {
    if s != [] && IsBlank(s[0]) then TrimStart(s[1..]) else s
  }

  function TrimEnd(s: string): string {
    if s != [] && IsBlank(s[|s| - 1]) then TrimEnd(s[..|s| - 1]) else s
  }

  function Trim(s: string): string {
    TrimEnd(TrimStart(s))
  }

  predicate Blank(s: string) {
    forall i | 0 <= i < |s| :: IsBlank(s[i])
  }

  lemma {:induction false} TrimStartCuts(s: string)
    ensures var r := TrimStart(s);
            |r| <= |s| && r == s[|s| - |r|..] && Blank(s[..|s| - |r|]) && (r != [] ==> !IsBlank(r[0]))
  {
    hide IsBlank;
    if s != [] && IsBlank(s[0]) {
      TrimStartCuts(s[1..]);
    }
  }

  lemma {:induction false} TrimEndCuts(s: string)
    ensures var r := TrimEnd(s);
            |r| <= |s| && r == s[..|r|] && Blank(s[|r|..]) && (r != [] ==> !IsBlank(r[|r| - 1]))
  {
    hide IsBlank;
    if s != [] && IsBlank(s[|s| - 1]) {
      TrimEndCuts(s[..|s| - 1]);
    }
  }

  /** Trimming cuts off blanks at both ends and leaves none there; nothing is left exactly of a blank text. */
  lemma TrimCuts(s: string)
    ensures exists a: nat, b: nat :: a <= b <= |s| && Trim(s) == s[a..b] && Blank(s[..a]) && Blank(s[b..])
    ensures Trim(s) != [] ==> !IsBlank(Trim(s)[0]) && !IsBlank(Trim(s)[|Trim(s)| - 1])
    ensures Trim(s) == [] <==> Blank(s)
  {
    hide IsBlank;
    var front := TrimStart(s);
    TrimStartCuts(s);
    TrimEndCuts(front);
    var a := |s| - |front|;
    var b := a + |Trim(s)|;
    assert Trim(s) == s[a..b];
    assert s[b..] == front[|Trim(s)|..];
    assert s == s[..a] + front;
    if Trim(s) == [] {
      assert s == s[..a] + s[b..];
    } else {
      assert Trim(s)[0] == s[a];
    }
  }
}
