// The lines of an accessibility snapshot: Playwright's own, the ones printed with refs, and how
// each is read. The two regular expressions are spelled out as runs of characters; every group is followed by
// a character its class excludes, so no backtracking is lost.
module SnapshotLines {
  import opened Wrappers
  import opened Text

  /** Reads `\s+"([^"]*)"`: the name and what follows it. */
  function QuotedName(s: string): Option<(string, string)> {
    var n := Span(s, IsSpace);
    if n == 0 || n == |s| || s[n] != '"' then None
    else
      var rest := s[n + 1..];
      var m := Span(rest, (c: char) => c != '"');
      if m == |rest| then None else Some((rest[..m], rest[m + 1..]))
  }

  /** Where the role starts after `\s*-\s*`. */
  function RoleStart(line: string): (start: Option<nat>)
    ensures start.Some? ==> start.value <= |line|
  {
    var n := Span(line, IsSpace);
    if n == |line| || line[n] != '-' then None else Some(n + 1 + Span(line[n + 1..], IsSpace))
  }

  // ---------------------------------------------------------------- Playwright's lines

  datatype AriaLine = AriaLine(prefix: string, role: string, name: Option<string>, suffix: string)

  function ParseAria(line: string): Option<AriaLine> {
    var start := RoleStart(line);
    if start.None? then None
    else
      var rest := line[start.value..];
      var n := Span(rest, IsWord);
      if n == 0 then None
      else match QuotedName(rest[n..])
        case Some((name, suffix)) => Some(AriaLine(line[..start.value], rest[..n], Some(name), suffix))
        case None => Some(AriaLine(line[..start.value], rest[..n], None, rest[n..]))
  }

  predicate IsRole(role: string) {
    role != "" && forall i :: 0 <= i < |role| ==> IsWord(role[i])
  }

  /** White space, a dash and white space. */
  predicate IsPrefix(prefix: string) {
    RoleStart(prefix) == Some(|prefix|)
  }

  lemma PrefixIsRead(prefix: string, rest: string)
    requires IsPrefix(prefix) && (rest != "" ==> !IsSpace(rest[0]))
    ensures RoleStart(prefix + rest) == Some(|prefix|)
  {
    var line, n := prefix + rest, Span(prefix, IsSpace);
    assert line[n] == prefix[n] == '-' && forall i :: 0 <= i < n ==> line[i] == prefix[i];
    SpanIs(line, IsSpace, n);
    var before := prefix[n + 1..];
    assert line[n + 1..] == before + rest;
    SpanIs(before + rest, IsSpace, |before|);
  }

  lemma RoleStartEndsAPrefix(line: string)
    ensures RoleStart(line).Some? ==> IsPrefix(line[..RoleStart(line).value])
  {
    if RoleStart(line).Some? {
      var n, prefix := Span(line, IsSpace), line[..RoleStart(line).value];
      SpanIs(prefix, IsSpace, n);
      assert prefix[n + 1..] == line[n + 1..][..|prefix| - n - 1];
      SpanIs(prefix[n + 1..], IsSpace, |prefix| - n - 1);
    }
  }

  /** What is known of a parsed line: its prefix ends where a role may start, its role is a word, its name has no
      quote, and none of its parts has a character the line has not. */
  lemma ParsedParts(line: string)
    ensures ParseAria(line).Some? ==>
      var parsed := ParseAria(line).value;
      && IsPrefix(parsed.prefix) && IsRole(parsed.role)
      && (parsed.name.Some? ==> '"' !in parsed.name.value)
      && (forall c :: c in parsed.prefix + parsed.role + parsed.name.GetOr("") + parsed.suffix ==> c in line)
  {
    var start := RoleStart(line);
    if start.None? { return; }
    var rest := line[start.value..];
    var n := Span(rest, IsWord);
    ParsedRole(line);
    RoleStartEndsAPrefix(line);
    QuotedNameParts(rest[n..]);
    CutsArePart(line, start.value);
    CutsArePart(rest, n);
  }

  lemma CutsArePart(s: string, n: nat)
    requires n <= |s|
    ensures forall c :: c in s[..n] || c in s[n..] ==> c in s
  {
  }

  lemma ParsedRole(line: string)
    ensures ParseAria(line).Some? ==> IsRole(ParseAria(line).value.role)
  {
  }

  lemma QuotedNameParts(s: string)
    ensures QuotedName(s).Some? ==>
      '"' !in QuotedName(s).value.0 && forall c :: c in QuotedName(s).value.0 || c in QuotedName(s).value.1 ==> c in s
  {
  }

  // ---------------------------------------------------------------- Lines with refs

  /** `[ref=...]` at the start of `s`. */
  function RefAt(s: string): Option<string> {
    if !("[ref=" <= s) then None
    else
      var n := Span(s[5..], (c: char) => c != ']');
      if n == 0 || 5 + n == |s| then None else Some(s[5..5 + n])
  }

  /** `[nth=...]` at the start of `s`. */
  function NthAt(s: string): Option<nat> {
    if !("[nth=" <= s) then None
    else
      var n := Span(s[5..], IsDigit);
      if n == 0 || 5 + n == |s| || s[5 + n] != ']' then None else Some(ParseDecimal(s[5..5 + n]))
  }

  function FindRef(s: string): Option<string> {
    if s == "" then None else if RefAt(s).Some? then RefAt(s) else FindRef(s[1..])
  }

  function FindNth(s: string): Option<nat> {
    if s == "" then None else if NthAt(s).Some? then NthAt(s) else FindNth(s[1..])
  }

  datatype AiLine = AiLine(role: string, name: Option<string>, ref: string, nth: Option<nat>)

  predicate IsRoleChar(c: char) {
    !IsSpace(c) && c != '"' && c != '[' && c != ']'
  }

  function ParseAi(line: string): Option<AiLine> {
    var start := RoleStart(line);
    if start.None? then None
    else
      var rest := line[start.value..];
      var n := Span(rest, IsRoleChar);
      if n == 0 || rest[0] == '/' then None else ParseAfterRole(rest[..n], rest[n..])
  }

  function ParseAfterRole(role: string, tail: string): Option<AiLine> {
    var (name, suffix) := match QuotedName(tail)
      case Some((name, suffix)) => (Some(name), suffix)
      case None => (None, tail);
    match FindRef(suffix)
    case Some(ref) => Some(AiLine(role, name, Strip(ref), FindNth(suffix)))
    case None => None
  }

  // ---------------------------------------------------------------- Printing

  /** An absent or empty name is not printed. */
  function PrintName(name: Option<string>): string {
    if name.Some? && name.value != "" then " \"" + name.value + "\"" else ""
  }

  function PrintRef(ref: string): string {
    " [ref=" + ref + "]"
  }

  function PrintNth(nth: nat): string {
    if nth > 0 then " [nth=" + Decimal(nth) + "]" else ""
  }

  function PrintLine(prefix: string, role: string, name: Option<string>, ref: string, nth: nat, suffix: string): string {
    prefix + (role + (PrintName(name) + (PrintRef(ref) + (PrintNth(nth) + suffix))))
  }

  // ---------------------------------------------------------------- Reading what was printed

  lemma {:induction false} FindNthSkips(s: string, rest: string)
    requires '[' !in s
    ensures FindNth(s + rest) == FindNth(rest)
  {
    if s == "" {
      assert s + rest == rest;
    } else {
      assert (s + rest)[0] == s[0];
      assert (s + rest)[1..] == s[1..] + rest;
      FindNthSkips(s[1..], rest);
    }
  }

  lemma MarkerShape(tag: string, body: string, rest: string)
    requires |tag| == 5
    ensures var s := tag + (body + ("]" + rest));
      && (" " + tag + body + "]") + rest == " " + s
      && tag <= s && s[5..] == body + ("]" + rest)
      && s[5..][..|body|] == body && s[5..5 + |body|] == body && s[5 + |body|] == ']'
  {
    var s := tag + (body + ("]" + rest));
    assert s[5..] == body + ("]" + rest);
    assert s[5..5 + |body|] == s[5..][..|body|];
  }

  lemma RefAtMark(ref: string, rest: string)
    requires ref != "" && ']' !in ref
    ensures RefAt("[ref=" + (ref + ("]" + rest))) == Some(ref)
  {
    var after := "[ref=" + (ref + ("]" + rest));
    MarkerShape("[ref=", ref, rest);
    SpanIs(after[5..], (c: char) => c != ']', |ref|);
  }

  lemma RefIsFound(ref: string, rest: string)
    requires ref != "" && ']' !in ref
    ensures FindRef(PrintRef(ref) + rest) == Some(ref)
  {
    var after := "[ref=" + (ref + ("]" + rest));
    RefAtMark(ref, rest);
    assert " [ref=" == " " + "[ref=";
    BlankAndMark("[ref=", ref, rest);
    assert (" " + after)[1..] == after;
    assert RefAt(" " + after) == None;
  }

  /** The blank before a mark. */
  lemma BlankAndMark(tag: string, body: string, rest: string)
    requires |tag| == 5
    ensures ((" " + tag) + body + "]") + rest == " " + (tag + (body + ("]" + rest)))
  {
    MarkerShape(tag, body, rest);
  }

  lemma NthAtMark(nth: nat, rest: string)
    ensures NthAt("[nth=" + (Decimal(nth) + ("]" + rest))) == Some(nth)
  {
    var body := Decimal(nth);
    var after := "[nth=" + (body + ("]" + rest));
    MarkerShape("[nth=", body, rest);
    SpanIs(after[5..], IsDigit, |body|);
    ParseOfDecimal(nth);
  }

  lemma NthIsFound(nth: nat, rest: string)
    requires nth > 0
    ensures FindNth(PrintNth(nth) + rest) == Some(nth)
  {
    NthAtMark(nth, rest);
    MarkIsFound(Decimal(nth), nth, rest);
  }

  lemma MarkIsFound(body: string, nth: nat, rest: string)
    requires NthAt("[nth=" + (body + ("]" + rest))) == Some(nth)
    ensures FindNth((" [nth=" + body + "]") + rest) == Some(nth)
  {
    var after := "[nth=" + (body + ("]" + rest));
    FindNthHere(after);
    FindNthSkips(" ", after);
    assert " [nth=" == " " + "[nth=";
    BlankAndMark("[nth=", body, rest);
  }

  lemma FindNthHere(s: string)
    requires NthAt(s).Some?
    ensures FindNth(s) == NthAt(s)
  {
  }

  /** The ref printed before it does not hide the index, or make one up. */
  lemma NthBehindRef(ref: string, rest: string)
    requires '[' !in ref
    ensures FindNth(PrintRef(ref) + rest) == FindNth(rest)
  {
    var s := PrintRef(ref) + rest;
    assert s[0] == ' ' && s[1] == '[' && s[2] == 'r';
    assert !("[nth=" <= s) && !("[nth=" <= s[1..]);
    assert s[1..][1..] == ("ref=" + ref + "]") + rest;
    FindNthSkips("ref=" + ref + "]", rest);
  }

  /** The name a printed line shows. */
  function Shown(name: Option<string>): Option<string> {
    if name.GetOr("") == "" then None else name
  }

  lemma QuotedNameIsRead(name: Option<string>, rest: string)
    requires name.Some? ==> '"' !in name.value
    requires |rest| > 1 && rest[0] == ' ' && rest[1] == '['
    ensures QuotedName(PrintName(name) + rest) ==
            if Shown(name).Some? then Some((name.value, rest)) else None
  {
    var s := PrintName(name) + rest;
    SpanIs(s, IsSpace, 1);
    if Shown(name).Some? {
      var inner := name.value + ("\"" + rest);
      assert s == " \"" + inner;
      assert s[2..] == inner;
      SpanIs(inner, (c: char) => c != '"', |name.value|);
      assert inner[..|name.value|] == name.value;
      assert inner[|name.value| + 1..] == rest;
    }
  }

  lemma RoleIsRead(prefix: string, role: string, tail: string)
    requires IsPrefix(prefix) && IsRole(role) && tail != "" && tail[0] == ' '
    ensures ParseAi(prefix + (role + tail)) == ParseAfterRole(role, tail)
  {
    var rest := role + tail;
    assert rest[0] == role[0];
    PrefixIsRead(prefix, rest);
    assert (prefix + rest)[|prefix|..] == rest;
    SpanIs(rest, IsRoleChar, |role|);
    assert rest[..|role|] == role && rest[|role|..] == tail;
  }

  function ReadNth(nth: nat, suffix: string): Option<nat> {
    if nth > 0 then Some(nth) else FindNth(suffix)
  }

  lemma MarksAreRead(ref: string, nth: nat, suffix: string)
    requires ref != "" && '[' !in ref && ']' !in ref
    ensures var marks := PrintRef(ref) + (PrintNth(nth) + suffix);
      && FindRef(marks) == Some(ref)
      && FindNth(marks) == ReadNth(nth, suffix)
      && |marks| > 1 && marks[0] == ' ' && marks[1] == '['
  {
    RefIsFound(ref, PrintNth(nth) + suffix);
    NthBehindRef(ref, PrintNth(nth) + suffix);
    if nth > 0 { NthIsFound(nth, suffix); } else { assert PrintNth(nth) + suffix == suffix; }
  }

  /** Every printed line is read: same role, the name it shows, its ref, and the printed index or
      else whatever index its suffix seems to carry. */
  lemma PrintedLineIsRead(prefix: string, role: string, name: Option<string>, ref: string, nth: nat, suffix: string)
    requires IsPrefix(prefix) && IsRole(role)
    requires name.Some? ==> '"' !in name.value
    requires ref != "" && '[' !in ref && ']' !in ref && Strip(ref) == ref
    ensures ParseAi(PrintLine(prefix, role, name, ref, nth, suffix)) ==
            Some(AiLine(role, Shown(name), ref, ReadNth(nth, suffix)))
  {
    var marks := PrintRef(ref) + (PrintNth(nth) + suffix);
    var tail := PrintName(name) + marks;
    MarksAreRead(ref, nth, suffix);
    QuotedNameIsRead(name, marks);
    if Shown(name).None? { assert tail == marks; }
    RoleIsRead(prefix, role, tail);
  }
}
