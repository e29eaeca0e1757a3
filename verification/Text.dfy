/** Strings as sequences of characters, with the few Python string operations the models need. */
module Text {
  predicate IsSpace(c: char) {
    c == ' ' || c == '\t' || c == '\n' || c == '\r' || c == '\U{000B}' || c == '\U{000C}'
  }

  predicate IsDigit(c: char) {
    '0' <= c <= '9'
  }

  /** The regular expression class \w. */
  predicate IsWord(c: char) {
    'a' <= c <= 'z' || 'A' <= c <= 'Z' || IsDigit(c) || c == '_'
  }

  function Replace(s: string, from: char, to: char): string {
    seq(|s|, i requires 0 <= i < |s| => if s[i] == from then to else s[i])
  }

  function LowerChar(c: char): char {
    if 'A' <= c <= 'Z' then (c as int + 32) as char else c
  }

  function ToLower(s: string): string {
    seq(|s|, i requires 0 <= i < |s| => LowerChar(s[i]))
  }

  // ---------------------------------------------------------------- Stripping

  function StripLeft(s: string): string {
    if s != "" && IsSpace(s[0]) then StripLeft(s[1..]) else s
  }

  function StripRight(s: string): string {
    if s != "" && IsSpace(s[|s| - 1]) then StripRight(s[..|s| - 1]) else s
  }

  function Strip(s: string): string {
    StripRight(StripLeft(s))
  }

  lemma StripOfTight(s: string)
    requires s != "" ==> !IsSpace(s[0]) && !IsSpace(s[|s| - 1])
    ensures Strip(s) == s
  {
  }

  lemma StripRightOfCons(c: char, s: string)
    ensures StripRight([c] + s) ==
            if StripRight(s) == "" then (if IsSpace(c) then "" else [c]) else [c] + StripRight(s)
  {
    var all := [c] + s;
    if s != "" && IsSpace(s[|s| - 1]) {
      assert all[..|all| - 1] == [c] + s[..|s| - 1];
      StripRightOfCons(c, s[..|s| - 1]);
    } else if s == "" {
      assert all[..0] == "";
    }
  }

  lemma {:induction false} StripsCommute(s: string)
    ensures StripLeft(StripRight(s)) == StripRight(StripLeft(s))
  {
    if s != "" {
      assert s == [s[0]] + s[1..];
      StripRightOfCons(s[0], s[1..]);
      if IsSpace(s[0]) {
        StripsCommute(s[1..]);
        if StripRight(s[1..]) != "" { assert StripRight(s)[1..] == StripRight(s[1..]); }
      }
    }
  }

  lemma {:induction false} StripRightTwice(s: string)
    ensures StripRight(StripRight(s)) == StripRight(s)
  {
    if s != "" && IsSpace(s[|s| - 1]) { StripRightTwice(s[..|s| - 1]); }
  }

  /** Text that ends tight shields what precedes it. */
  lemma {:induction false} StripRightBehind(s: string, t: string)
    requires s != "" && !IsSpace(s[|s| - 1])
    ensures StripRight(s + t) == s + StripRight(t)
  {
    if t == "" {
      assert s + t == s;
    } else if IsSpace(t[|t| - 1]) {
      assert (s + t)[..|s + t| - 1] == s + t[..|t| - 1];
      StripRightBehind(s, t[..|t| - 1]);
    }
  }

  lemma {:induction false} StripLeftPart(s: string, c: char)
    requires c in StripLeft(s)
    ensures c in s
  {
    if s != "" && IsSpace(s[0]) { StripLeftPart(s[1..], c); }
  }

  lemma {:induction false} StripRightPart(s: string, c: char)
    requires c in StripRight(s)
    ensures c in s
  {
    if s != "" && IsSpace(s[|s| - 1]) { StripRightPart(s[..|s| - 1], c); }
  }

  lemma StripPart(s: string, c: char)
    requires c in Strip(s)
    ensures c in s
  {
    StripRightPart(StripLeft(s), c);
    StripLeftPart(s, c);
  }

  // ---------------------------------------------------------------- Runs of characters

  /** How many leading characters satisfy `p`. */
  function Span(s: string, p: char -> bool): (n: nat)
    ensures n <= |s|
    ensures forall i :: 0 <= i < n ==> p(s[i])
    ensures n < |s| ==> !p(s[n])
  {
    if s == "" || !p(s[0]) then 0 else 1 + Span(s[1..], p)
  }

  lemma {:induction false} SpanIs(s: string, p: char -> bool, n: nat)
    requires n <= |s| && (forall i :: 0 <= i < n ==> p(s[i])) && (n < |s| ==> !p(s[n]))
    ensures Span(s, p) == n
  {
    if n > 0 { SpanIs(s[1..], p, n - 1); }
  }

  // ---------------------------------------------------------------- Lines

  function Split(s: string, sep: char): (r: seq<string>)
    ensures r != []
  {
    if s == "" then [""]
    else
      var rest := Split(s[1..], sep);
      if s[0] == sep then [""] + rest else [[s[0]] + rest[0]] + rest[1..]
  }

  function Join(lines: seq<string>, sep: char): string {
    if lines == [] then ""
    else if |lines| == 1 then lines[0]
    else lines[0] + [sep] + Join(lines[1..], sep)
  }

  predicate Apart(lines: seq<string>, sep: char) {
    forall i :: 0 <= i < |lines| ==> sep !in lines[i]
  }

  lemma {:induction false} SplitIsApart(s: string, sep: char)
    ensures Apart(Split(s, sep), sep)
  {
    if s != "" { SplitIsApart(s[1..], sep); }
  }

  lemma {:induction false} JoinOfSplit(s: string, sep: char)
    ensures Join(Split(s, sep), sep) == s
  {
    if s != "" {
      JoinOfSplit(s[1..], sep);
      var rest, all := Split(s[1..], sep), Split(s, sep);
      if s[0] == sep {
        assert all[1..] == rest;
      } else if |rest| > 1 {
        assert all[1..] == rest[1..];
      }
    }
  }

  lemma {:induction false} SplitOfWord(s: string, sep: char)
    requires sep !in s
    ensures Split(s, sep) == [s]
  {
    if s != "" {
      SplitOfWord(s[1..], sep);
      assert [s[0]] + s[1..] == s;
    }
  }

  lemma {:induction false} SplitOfCons(s: string, sep: char, rest: string)
    requires sep !in s
    ensures Split(s + [sep] + rest, sep) == [s] + Split(rest, sep)
  {
    if s == "" {
      assert (s + [sep] + rest)[1..] == rest;
    } else {
      SplitOfCons(s[1..], sep, rest);
      assert [s[0]] + s[1..] == s;
      assert (s + [sep] + rest)[1..] == s[1..] + [sep] + rest;
    }
  }

  lemma {:induction false} SplitOfJoin(lines: seq<string>, sep: char)
    requires lines != [] && Apart(lines, sep)
    ensures Split(Join(lines, sep), sep) == lines
  {
    if |lines| == 1 {
      SplitOfWord(lines[0], sep);
    } else {
      SplitOfJoin(lines[1..], sep);
      SplitOfCons(lines[0], sep, Join(lines[1..], sep));
    }
  }

  lemma {:induction false} SplitOfEnd(s: string, sep: char)
    ensures Split(s + [sep], sep) == Split(s, sep) + [""]
  {
    if s == "" {
      assert s + [sep] == [sep] && [sep][1..] == "";
    } else {
      SplitOfEnd(s[1..], sep);
      assert (s + [sep])[1..] == s[1..] + [sep];
    }
  }

  lemma {:induction false} JoinOfAppend(lines: seq<string>, line: string, sep: char)
    requires lines != []
    ensures Join(lines + [line], sep) == Join(lines, sep) + [sep] + line
  {
    if |lines| > 1 {
      JoinOfAppend(lines[1..], line, sep);
      assert (lines + [line])[1..] == lines[1..] + [line];
    }
  }

  // ---------------------------------------------------------------- Decimal numbers

  const DIGITS := "0123456789"

  function Decimal(n: nat): (s: string)
    ensures s != "" && forall i :: 0 <= i < |s| ==> IsDigit(s[i])
  {
    if n < 10 then [DIGITS[n]] else Decimal(n / 10) + [DIGITS[n % 10]]
  }

  function DigitValue(c: char): nat
    requires IsDigit(c)
  {
    c as int - '0' as int
  }

  function ParseDecimal(s: string): nat
    requires forall i :: 0 <= i < |s| ==> IsDigit(s[i])
  {
    if s == "" then 0 else ParseDecimal(s[..|s| - 1]) * 10 + DigitValue(s[|s| - 1])
  }

  lemma {:induction false} ParseOfDecimal(n: nat)
    ensures ParseDecimal(Decimal(n)) == n
  {
    if n >= 10 {
      ParseOfDecimal(n / 10);
      assert Decimal(n)[..|Decimal(n)| - 1] == Decimal(n / 10);
    } else {
      assert Decimal(n)[..0] == "";
    }
  }
}
