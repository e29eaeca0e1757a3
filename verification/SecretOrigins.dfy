/** Where each secret of the stack comes from, which lines of the project go, and what a run says of both. */
module SecretOrigins {
  import opened Wrappers
  import opened Text
  import opened StackSecrets
  import opened StackSecretsTheorems
  import opened ProjectFile

  // ---------------------------------------------------------------- One line, with blanks around it

  lemma StripLastBlank(s: string)
    requires s != "" && IsSpace(s[|s| - 1])
    ensures Strip(s) == Strip(s[..|s| - 1])
  {
    StripsCommute(s);
    StripsCommute(s[..|s| - 1]);
  }

  lemma FirstBlank(line: string)
    requires line != "" && IsSpace(line[0])
    ensures Key(line) == Key(line[1..]) && After(line) == After(line[1..])
  {
    var rest := line[1..];
    var n := Span(rest, (c: char) => c != '=');
    SpanIs(line, (c: char) => c != '=', n + 1);
    assert line[..n + 1] == [line[0]] + rest[..n];
    assert line[..n + 1][1..] == rest[..n];
    if n < |rest| { assert line[n + 2..] == rest[n + 1..]; }
  }

  lemma LastBlank(line: string)
    requires line != "" && IsSpace(line[|line| - 1])
    ensures var init := line[..|line| - 1]; Key(line) == Key(init) && Unquote(After(line)) == Unquote(After(init))
  {
    var init := line[..|line| - 1];
    var n := Span(init, (c: char) => c != '=');
    if n < |init| {
      SpanIs(line, (c: char) => c != '=', n);
      assert line[..n] == init[..n];
      assert After(line)[..|After(line)| - 1] == After(init);
      StripLastBlank(After(line));
    } else {
      SpanIs(line, (c: char) => c != '=', |line|);
      assert line[..|line|] == line && init[..n] == init;
      StripLastBlank(line);
    }
  }

  lemma {:induction false} LeftBlanks(line: string)
    ensures Key(line) == Key(StripLeft(line)) && After(line) == After(StripLeft(line))
    ensures '=' in line <==> '=' in StripLeft(line)
  {
    if line != "" && IsSpace(line[0]) {
      FirstBlank(line);
      LeftBlanks(line[1..]);
      assert line == [line[0]] + line[1..];
    }
  }

  lemma {:induction false} RightBlanks(line: string)
    ensures Key(line) == Key(StripRight(line)) && Unquote(After(line)) == Unquote(After(StripRight(line)))
    ensures '=' in line <==> '=' in StripRight(line)
  {
    if line != "" && IsSpace(line[|line| - 1]) {
      LastBlank(line);
      RightBlanks(line[..|line| - 1]);
      assert line == line[..|line| - 1] + [line[|line| - 1]];
    }
  }

  lemma CommentsBegin(line: string)
    ensures IsComment(Strip(line)) <==> IsComment(StripLeft(line))
  {
    var s := StripLeft(line);
    if s != "" && !IsSpace(s[0]) { StripRightKeepsHead(s); }
    LeftIsTight(line);
  }

  lemma {:induction false} LeftIsTight(s: string)
    ensures StripLeft(s) != "" ==> !IsSpace(StripLeft(s)[0])
  {
    if s != "" && IsSpace(s[0]) { LeftIsTight(s[1..]); }
  }

  /** What the reader finds on a line is what the lines of the project are sorted by. */
  lemma LineIsEntry(line: string)
    ensures Entry(line) ==
            if '=' in line && !IsComment(StripLeft(line)) then Some((Key(line), Unquote(After(line)))) else None
  {
    LeftBlanks(line);
    RightBlanks(StripLeft(line));
    CommentsBegin(line);
  }

  lemma ValuesNeedASign(line: string)
    requires Unquote(After(line)) != ""
    ensures '=' in line
  {
  }

  predicate IsEdge(c: char) {
    !IsSpace(c) && c != '"' && c != '\''
  }

  /** A value that no reader takes anything from: tight, and without quotes at either end. */
  predicate IsBare(v: string) {
    v != "" && IsEdge(v[0]) && IsEdge(v[|v| - 1])
  }

  lemma CharsComeOff(v: string, c: char)
    requires v != "" && v[0] != c && v[|v| - 1] != c
    ensures StripChar([c] + v + [c], c) == v == StripChar(v, c)
  {
    var quoted := [c] + v + [c];
    assert quoted[1..] == v + [c] && (v + [c])[..|v + [c]| - 1] == v;
    assert StripCharLeft(v + [c], c) == v + [c];
    assert StripCharRight(v, c) == v;
  }

  /** Quotes around a value come off, double ones first and then single ones within; double ones within single ones stay. */
  lemma QuotesComeOff(v: string)
    requires IsBare(v)
    ensures Unquote(v) == v && Unquote("\"" + v + "\"") == v && Unquote("'" + v + "'") == v
    ensures Unquote("\"" + ("'" + v + "'") + "\"") == v
    ensures Unquote("'" + ("\"" + v + "\"") + "'") == "\"" + v + "\""
  {
    var single, double := "'" + v + "'", "\"" + v + "\"";
    StripOfTight(v);
    StripOfTight(single);
    StripOfTight(double);
    StripOfTight("\"" + single + "\"");
    StripOfTight("'" + double + "'");
    CharsComeOff(v, '"');
    CharsComeOff(v, '\'');
    CharsComeOff(single, '"');
    CharsComeOff(double, '\'');
    assert StripChar("'" + double + "'", '"') == "'" + double + "'";
  }

  // ---------------------------------------------------------------- The secrets

  lemma {:induction false} ChosenIs(w: World, stack: map<string, string>, project: map<string, string>, names: seq<string>, i: nat)
    requires i < |names| && forall j, k :: 0 <= j < k < |names| ==> names[j] != names[k]
    ensures Get(Chosen(w, stack, project, names), names[i]) ==
            if Get(stack, names[i]) != "" then Get(stack, names[i]) else NewSecret(w, project, names[i])
  {
    var n := |names| - 1;
    if i < n { ChosenIs(w, stack, project, names[..n], i); } else { ChosenIgnoresOthers(w, stack, project, names[..n], names[n]); }
  }

  /** The note that a missing secret is due. */
  function Due(w: World, stack: map<string, string>, project: map<string, string>, name: string): seq<Note> {
    if Get(stack, name) != "" then []
    else if Get(project, name) != "" && Get(project, name) != PLACEHOLDER then [Moved(name)]
    else if Get(project, name) == "" && Get(w.env, name) != "" && Get(w.env, name) != PLACEHOLDER then [Moved(name)]
    else [Generated(name)]
  }

  function AllDue(w: World, stack: map<string, string>, project: map<string, string>, names: seq<string>): seq<Note> {
    if names == [] then []
    else AllDue(w, stack, project, names[..|names| - 1]) + Due(w, stack, project, names[|names| - 1])
  }

  lemma LastNoteIsDue(w: World, stack: map<string, string>, project: map<string, string>, names: seq<string>, n: nat)
    requires |names| == n + 1 && Get(Chosen(w, stack, project, names[..n]), names[n]) == Get(stack, names[n])
    ensures ChoiceNotes(w, stack, project, names) == ChoiceNotes(w, stack, project, names[..n]) + Due(w, stack, project, names[n])
  {
  }

  lemma {:induction false} NotesAreDue(w: World, stack: map<string, string>, project: map<string, string>, names: seq<string>)
    requires forall j, k :: 0 <= j < k < |names| ==> names[j] != names[k]
    ensures ChoiceNotes(w, stack, project, names) == AllDue(w, stack, project, names)
  {
    if names != [] {
      var n := |names| - 1;
      NotesAreDue(w, stack, project, names[..n]);
      ChosenIgnoresOthers(w, stack, project, names[..n], names[n]);
      LastNoteIsDue(w, stack, project, names, n);
    }
  }

  /** A secret the stack lacks is the project's if that has a real value for it; the environment's if the project has
      none and the environment a real one; and drawn anew in every other case. The value shipped as a placeholder
      is not real, and one in the project hides what the environment has. A secret the stack has is kept. */
  lemma SecretsComeFrom(w: World, project: Option<string>, stack: Option<string>, name: string)
    requires name in STACK_SECRETS
    ensures var kept, mine, theirs := Get(ReadEnv(stack), name), Get(ReadEnv(project), name), Get(w.env, name);
      Get(SecretsOf(w, project, stack), name) ==
      if kept != "" then kept
      else if mine != "" && mine != PLACEHOLDER then mine
      else if mine == "" && theirs != "" && theirs != PLACEHOLDER then theirs
      else w.generate(name)
  {
    var i :| 0 <= i < |STACK_SECRETS| && STACK_SECRETS[i] == name;
    NamesDiffer();
    ChosenIs(w, ReadEnv(stack), ReadEnv(project), STACK_SECRETS, i);
  }

  // ---------------------------------------------------------------- The notes

  lemma {:induction false} RemovalsAre(secrets: map<string, string>, lines: seq<string>, note: Note)
    ensures note in Removals(secrets, lines) <==>
            note.Removed? && exists line :: line in lines && Goes(secrets, line) && Key(line) == note.name
  {
    if lines != [] {
      var init, last := lines[..|lines| - 1], lines[|lines| - 1];
      RemovalsAre(secrets, init, note);
      assert lines == init + [last];
    }
  }

  lemma {:induction false} ConflictsAre(secrets: map<string, string>, lines: seq<string>, note: Note)
    ensures note in Conflicts(secrets, lines) <==>
            note.Conflict? && exists line :: line in lines && IsBrokerLine(line) && !Goes(secrets, line) && Key(line) == note.name
  {
    if lines != [] {
      var init, last := lines[..|lines| - 1], lines[|lines| - 1];
      ConflictsAre(secrets, init, note);
      assert lines == init + [last];
    }
  }

  lemma {:induction false} DueAre(w: World, stack: map<string, string>, project: map<string, string>, names: seq<string>, note: Note)
    ensures note in AllDue(w, stack, project, names) <==> note.name in names && note in Due(w, stack, project, note.name)
  {
    if names != [] {
      var init, last := names[..|names| - 1], names[|names| - 1];
      DueAre(w, stack, project, init, note);
      assert names == init + [last];
    }
  }

  /** An uncommented line that gives a broker-only key this value. */
  predicate BrokerLine(line: string, name: string, value: string) {
    Key(line) == name && Unquote(After(line)) == value && name in BROKER_ONLY && !IsComment(StripLeft(line))
  }

  /** A run says exactly what it did: which missing secrets it adopted and which it drew, which keys went from the
      project, and which stay there with another value. */
  lemma NotesTell(w: World, project: Option<string>, stack: Option<string>, note: Note)
    ensures var name, secret := note.name, Get(SecretsOf(w, project, stack), note.name);
      var mine, theirs := Get(ReadEnv(project), name), Get(w.env, name);
      note in NotesOf(w, project, stack) <==>
      match note
      case Moved(_) =>
        && name in STACK_SECRETS && Get(ReadEnv(stack), name) == ""
        && (if mine != "" then mine != PLACEHOLDER else theirs != "" && theirs != PLACEHOLDER)
      case Generated(_) =>
        && name in STACK_SECRETS && Get(ReadEnv(stack), name) == ""
        && (if mine != "" then mine == PLACEHOLDER else theirs == "" || theirs == PLACEHOLDER)
      case Removed(_) =>
        exists line :: line in LinesOf(project) && (BrokerLine(line, name, secret) || BrokerLine(line, name, PLACEHOLDER))
      case Conflict(_) =>
        exists line :: line in LinesOf(project) && BrokerLine(line, name, Unquote(After(line)))
                       && Unquote(After(line)) != secret && Unquote(After(line)) != PLACEHOLDER
  {
    var secrets := SecretsOf(w, project, stack);
    NamesDiffer();
    NotesAreDue(w, ReadEnv(stack), ReadEnv(project), STACK_SECRETS);
    DueAre(w, ReadEnv(stack), ReadEnv(project), STACK_SECRETS, note);
    RemovalsAre(secrets, LinesOf(project), note);
    ConflictsAre(secrets, LinesOf(project), note);
  }

  // ---------------------------------------------------------------- The lines

  /** A broker-only line is gone after the run if and only if its value is the stack's new secret or the placeholder. */
  lemma BrokerLinesGoExactly(w: World, project: Option<string>, stack: Option<string>, line: string, value: string)
    requires GoodWorld(w) && line in LinesOf(project) && BrokerLine(line, Key(line), value)
    ensures var secrets := SecretsOf(w, project, stack);
      line !in SplitLines(ProjectText(w, secrets, LinesOf(project))) <==>
      value == Get(secrets, Key(line)) || value == PLACEHOLDER
  {
    var secrets, lines := SecretsOf(w, project, stack), LinesOf(project);
    AllSecretsAreOneLine(w, project, stack);
    FileLinesApart(project);
    NewProjectLines(w, secrets, lines);
    var a, b := TrimShape(Final(w, secrets, lines));
    if Goes(secrets, line) {
      if line in Final(w, secrets, lines) { FinalLine(w, secrets, lines, line); }
    } else {
      NamesDiffer();
      EmptyHasNoKey();
      KeptLines(secrets, lines, line);
      var kept := Kept(secrets, lines);
      var i :| 0 <= i < |kept| && kept[i] == line;
      assert Final(w, secrets, lines)[i] == Follow(secrets, line) == line;
    }
  }

  /** Every line that gives the key a value is this one. */
  predicate OnlyLine(lines: seq<string>, line: string) {
    line in lines && forall other :: other in lines && Key(other) == Key(line) && !IsComment(StripLeft(other)) ==> other == line
  }

  lemma {:induction false} OnlyLineIsRead(lines: seq<string>, line: string)
    requires OnlyLine(lines, line) && !IsComment(StripLeft(line)) && '=' in line
    ensures Get(ReadLines(lines), Key(line)) == Unquote(After(line))
  {
    var init, last := lines[..|lines| - 1], lines[|lines| - 1];
    assert lines == init + [last];
    LineIsEntry(last);
    if last != line { OnlyLineIsRead(init, line); }
  }

  /** A key that the stack lacks and one broker-only line of the project gives a real value is adopted: its value is
      the stack's secret, the line is gone, and the run notes it as moved and removed, without a conflict. */
  lemma AdoptedLinesGo(w: World, project: Option<string>, stack: Option<string>, line: string, value: string)
    requires GoodWorld(w) && OnlyLine(LinesOf(project), line) && BrokerLine(line, Key(line), value)
    requires Get(ReadEnv(stack), Key(line)) == "" && value != "" && value != PLACEHOLDER
    ensures var name, secrets, notes := Key(line), SecretsOf(w, project, stack), NotesOf(w, project, stack);
      && Get(secrets, name) == value
      && line !in SplitLines(ProjectText(w, secrets, LinesOf(project)))
      && Moved(name) in notes && Generated(name) !in notes && Removed(name) in notes && Conflict(name) !in notes
  {
    var name := Key(line);
    NamesDiffer();
    FileLinesApart(project);
    ValuesNeedASign(line);
    OnlyLineIsRead(LinesOf(project), line);
    SecretsComeFrom(w, project, stack, name);
    BrokerLinesGoExactly(w, project, stack, line, value);
    NotesTell(w, project, stack, Moved(name));
    NotesTell(w, project, stack, Generated(name));
    NotesTell(w, project, stack, Removed(name));
    NotesTell(w, project, stack, Conflict(name));
  }

  /** Agents find the gateway in the file a run leaves: its key is the stack's on every line that gives it, and each
      address is there, the usual one if the project gave none. */
  lemma GatewayIsReachable(w: World, project: Option<string>, stack: Option<string>)
    requires GoodWorld(w)
    ensures var secrets := SecretsOf(w, project, stack);
      var lines := SplitLines(ProjectText(w, secrets, LinesOf(project)));
      && (exists line :: line in lines && Key(line) == "NEXUS_GATEWAY_API_KEY")
      && (forall line :: line in lines && Key(line) == "NEXUS_GATEWAY_API_KEY" ==>
            line == "NEXUS_GATEWAY_API_KEY" + "=" + Get(secrets, "NEXUS_GATEWAY_API_KEY"))
      && (forall line :: line in lines && Key(line) == "NEXUS_GATEWAY_URL" ==>
            || line in LinesOf(project)
            || line == "NEXUS_GATEWAY_URL" + "=" +
                 ("http://localhost:" + if "NEXUS_GATEWAY_PORT" in w.env then w.env["NEXUS_GATEWAY_PORT"] else "8090"))
      && (exists line :: line in lines && Key(line) == "NEXUS_GATEWAY_URL")
      && (forall line :: line in lines && Key(line) == "NEXUS_RETURN_URL" ==>
            line in LinesOf(project) || line == "NEXUS_RETURN_URL" + "=" + "http://localhost:8000/oauth/callback")
      && (exists line :: line in lines && Key(line) == "NEXUS_RETURN_URL")
  {
    var secrets, lines := SecretsOf(w, project, stack), LinesOf(project);
    var final := Final(w, secrets, lines);
    AllSecretsAreOneLine(w, project, stack);
    FileLinesApart(project);
    NewProjectLines(w, secrets, lines);
    WantedStay(w, secrets, lines);
    WantedLines(w, secrets);
    NamesDiffer();
    var a, b := TrimShape(final);
    forall line | line in Trimmed(final)
      ensures Key(line) == API_KEY ==> line == SecretLine(secrets, API_KEY)
      ensures Key(line) == URL_KEY ==> line in lines || line == UrlLine(w)
      ensures Key(line) == RETURN_KEY ==> line in lines || line == RETURN_LINE
    {
      assert line in final;
      FinalLine(w, secrets, lines, line);
    }
    assert Wanted(API_KEY) && Wanted(URL_KEY) && Wanted(RETURN_KEY);
  }
}
