/** The project file after a run, line by line, and after a second one. */
module ProjectFile {
  import opened Wrappers
  import opened Text
  import opened StackSecrets
  import opened StackSecretsTheorems

  // ---------------------------------------------------------------- Blank lines at the edges

  function TrimFront(lines: seq<string>): seq<string> {
    if lines != [] && lines[0] == "" then TrimFront(lines[1..]) else lines
  }

  function TrimBack(lines: seq<string>): seq<string> {
    if lines != [] && lines[|lines| - 1] == "" then TrimBack(lines[..|lines| - 1]) else lines
  }

  /** The lines without the empty ones at either end. */
  function Trimmed(lines: seq<string>): seq<string> {
    TrimBack(TrimFront(lines))
  }

  lemma {:induction false} StripJoinFront(lines: seq<string>)
    requires Apart(lines, '\n')
    ensures StripCharLeft(Join(lines, '\n'), '\n') == Join(TrimFront(lines), '\n')
  {
    if lines != [] && lines[0] == "" {
      StripJoinFront(lines[1..]);
      if |lines| > 1 { assert Join(lines, '\n')[1..] == Join(lines[1..], '\n'); }
    } else if lines != [] {
      assert Join(lines, '\n')[0] == lines[0][0];
    }
  }

  lemma {:induction false} JoinEnds(lines: seq<string>)
    requires lines != [] && lines[|lines| - 1] != ""
    ensures Join(lines, '\n') != ""
    ensures Join(lines, '\n')[|Join(lines, '\n')| - 1] == lines[|lines| - 1][|lines[|lines| - 1]| - 1]
  {
    if |lines| > 1 { JoinEnds(lines[1..]); }
  }

  lemma {:induction false} StripJoinBack(lines: seq<string>)
    requires Apart(lines, '\n')
    ensures StripCharRight(Join(lines, '\n'), '\n') == Join(TrimBack(lines), '\n')
  {
    if lines != [] {
      var n := |lines| - 1;
      if lines[n] == "" {
        StripJoinBack(lines[..n]);
        if n > 0 {
          assert lines == lines[..n] + [""];
          JoinOfAppend(lines[..n], "", '\n');
          assert Join(lines, '\n') == Join(lines[..n], '\n') + ['\n'];
        }
      } else {
        JoinEnds(lines);
      }
    }
  }

  lemma {:induction false} TrimFrontShape(lines: seq<string>) returns (n: nat)
    ensures n <= |lines| && TrimFront(lines) == lines[n..] && forall i :: 0 <= i < n ==> lines[i] == ""
  {
    n := 0;
    if lines != [] && lines[0] == "" {
      n := TrimFrontShape(lines[1..]);
      n := n + 1;
    }
  }

  lemma {:induction false} TrimBackShape(lines: seq<string>) returns (n: nat)
    ensures n <= |lines| && TrimBack(lines) == lines[..n] && forall i :: n <= i < |lines| ==> lines[i] == ""
  {
    n := |lines|;
    if lines != [] && lines[|lines| - 1] == "" {
      n := TrimBackShape(lines[..|lines| - 1]);
    }
  }

  /** Trimming cuts empty lines off both ends and leaves a line that is not empty at each. */
  lemma TrimShape(lines: seq<string>) returns (a: nat, b: nat)
    ensures a <= b <= |lines| && Trimmed(lines) == lines[a..b]
    ensures forall i :: 0 <= i < a || b <= i < |lines| ==> lines[i] == ""
    ensures forall line :: line in lines && line != "" ==> line in Trimmed(lines)
    ensures Trimmed(Trimmed(lines)) == Trimmed(lines)
  {
    a := TrimFrontShape(lines);
    var n := TrimBackShape(lines[a..]);
    b := a + n;
    assert lines[a..][..n] == lines[a..b];
    forall line | line in lines && line != "" ensures line in Trimmed(lines) {
      var i :| 0 <= i < |lines| && lines[i] == line;
      assert a <= i && lines[a..][i - a] == line;
      assert Trimmed(lines)[i - a] == line;
    }
    TrimEnds(lines);
  }

  lemma {:induction false} TrimBackEnds(lines: seq<string>)
    ensures var t := TrimBack(lines); t != [] ==> t[|t| - 1] != "" && t[0] == lines[0]
  {
    if lines != [] && lines[|lines| - 1] == "" { TrimBackEnds(lines[..|lines| - 1]); }
  }

  lemma {:induction false} TrimFrontEnds(lines: seq<string>)
    ensures var t := TrimFront(lines); t != [] ==> t[0] != ""
  {
    if lines != [] && lines[0] == "" { TrimFrontEnds(lines[1..]); }
  }

  lemma TrimEnds(lines: seq<string>)
    ensures Trimmed(Trimmed(lines)) == Trimmed(lines)
  {
    TrimFrontEnds(lines);
    TrimBackEnds(TrimFront(lines));
  }

  // ---------------------------------------------------------------- What the new file holds

  lemma MissingLines(w: World, secrets: map<string, string>, present: set<string>, line: string)
    requires line in Missing(w, secrets, present)
    ensures line == UrlLine(w) || line == RETURN_LINE || line == SecretLine(secrets, API_KEY)
  {
  }

  lemma {:induction false} KeptLines(secrets: map<string, string>, lines: seq<string>, line: string)
    ensures line in Kept(secrets, lines) <==> line in lines && !Goes(secrets, line)
  {
    if lines != [] {
      var n := |lines| - 1;
      KeptLines(secrets, lines[..n], line);
      assert lines == lines[..n] + [lines[n]];
    }
  }

  lemma WantedLines(w: World, secrets: map<string, string>)
    ensures Key(UrlLine(w)) == URL_KEY && Key(RETURN_LINE) == RETURN_KEY
    ensures Key(SecretLine(secrets, API_KEY)) == API_KEY
  {
    NamesAreNames();
    NamesDiffer();
    PairParts(URL_KEY, "http://localhost:" + if PORT in w.env then w.env[PORT] else "8090");
    PairParts(RETURN_KEY, "http://localhost:8000/oauth/callback");
    PairParts(API_KEY, Get(secrets, API_KEY));
  }

  /** Where a line of the new file comes from. */
  lemma FinalLine(w: World, secrets: map<string, string>, lines: seq<string>, line: string)
    requires line in Final(w, secrets, lines)
    ensures !Goes(secrets, line) && Follow(secrets, line) == line
    ensures line in lines || line == UrlLine(w) || line == RETURN_LINE || line == SecretLine(secrets, API_KEY)
  {
    WantedLines(w, secrets);
    NamesDiffer();
    var kept := Kept(secrets, lines);
    if line in Followed(secrets, kept) {
      var i :| 0 <= i < |kept| && Followed(secrets, kept)[i] == line;
      assert kept[i] in kept;
      KeptLines(secrets, lines, kept[i]);
    } else {
      MissingLines(w, secrets, KeysOf(kept), line);
    }
  }

  predicate Wanted(key: string) {
    key == URL_KEY || key == RETURN_KEY || key == API_KEY
  }

  lemma WantedAreThere(w: World, secrets: map<string, string>, lines: seq<string>, key: string)
    requires Wanted(key)
    ensures exists line :: line in Final(w, secrets, lines) && Key(line) == key
  {
    var kept := Kept(secrets, lines);
    WantedLines(w, secrets);
    if key in KeysOf(kept) {
      var line :| line in kept && Key(line) == key;
      var i :| 0 <= i < |kept| && kept[i] == line;
      assert Followed(secrets, kept)[i] == Follow(secrets, line);
      assert Final(w, secrets, lines)[i] == Follow(secrets, line);
    } else {
      var line := if key == URL_KEY then UrlLine(w) else if key == RETURN_KEY then RETURN_LINE else SecretLine(secrets, API_KEY);
      assert line in Missing(w, secrets, KeysOf(kept));
    }
  }

  lemma FinalIsApart(w: World, secrets: map<string, string>, lines: seq<string>)
    requires GoodWorld(w) && OneLineSecrets(secrets) && Apart(lines, '\n')
    ensures Apart(Final(w, secrets, lines), '\n')
  {
    NamesDiffer();
    NamesAreNames();
    assert PORT in STACK_SECRETS + [PORT];
    assert OneLine(UrlLine(w)) by { assert OneLine(Get(w.env, PORT)); }
    assert OneLine(RETURN_LINE) by {
      assert OneLine("http://localhost:8000/oauth/callback");
      assert OneLine(RETURN_KEY);
    }
    assert OneLine(SecretLine(secrets, API_KEY));
    var final := Final(w, secrets, lines);
    forall i | 0 <= i < |final| ensures '\n' !in final[i] {
      assert final[i] in final;
      FinalLine(w, secrets, lines, final[i]);
    }
  }

  /** The new project file is exactly the kept lines, in order, the gateway key following the stack,
      with the wanted lines it lacked behind them, and no empty line at either end. */
  lemma NewProjectLines(w: World, secrets: map<string, string>, lines: seq<string>)
    requires GoodWorld(w) && OneLineSecrets(secrets) && Apart(lines, '\n')
    ensures var final := Final(w, secrets, lines);
      && Trimmed(final) != []
      && ProjectText(w, secrets, lines) == Join(Trimmed(final), '\n') + "\n"
      && SplitLines(ProjectText(w, secrets, lines)) == Trimmed(final)
      && Apart(Trimmed(final), '\n')
  {
    var final := Final(w, secrets, lines);
    FinalIsApart(w, secrets, lines);
    var a, b := TrimShape(final);
    var n := TrimFrontShape(final);
    StripJoinFront(final);
    StripJoinBack(TrimFront(final));
    WantedAreThere(w, secrets, lines, API_KEY);
    var line :| line in final && Key(line) == API_KEY;
    EmptyHasNoKey();
    NamesDiffer();
    LinesOfJoined(Trimmed(final));
  }

  lemma EmptyHasNoKey()
    ensures Key("") == ""
  {
  }

  // ---------------------------------------------------------------- Nothing is lost

  lemma KeptStep(secrets: map<string, string>, lines: seq<string>)
    requires lines != []
    ensures Kept(secrets, lines[..|lines| - 1]) <= Kept(secrets, lines)
    ensures !Goes(secrets, lines[|lines| - 1]) ==>
              Kept(secrets, lines) == Kept(secrets, lines[..|lines| - 1]) + [lines[|lines| - 1]]
  {
  }

  /** A line that stays has its place behind those before it that stay. */
  lemma {:induction false} KeptAt(secrets: map<string, string>, lines: seq<string>, i: nat)
    requires i < |lines| && !Goes(secrets, lines[i])
    ensures |Kept(secrets, lines[..i])| < |Kept(secrets, lines)|
    ensures Kept(secrets, lines)[|Kept(secrets, lines[..i])|] == lines[i]
  {
    var init := lines[..|lines| - 1];
    KeptStep(secrets, lines);
    if i < |init| {
      KeptAt(secrets, init, i);
      assert init[..i] == lines[..i];
    } else {
      assert init == lines[..i];
    }
  }

  lemma {:induction false} KeptGrows(secrets: map<string, string>, lines: seq<string>, i: nat, j: nat)
    requires i < j <= |lines| && !Goes(secrets, lines[i])
    ensures |Kept(secrets, lines[..i])| < |Kept(secrets, lines[..j])|
  {
    KeptAt(secrets, lines[..j], i);
    assert lines[..j][..i] == lines[..i];
  }

  /** Lines that do not go survive in order: each has its own place in the new lines, later lines later
      places, with its own text unless it is the gateway key. */
  lemma SurvivorsKeepOrder(w: World, secrets: map<string, string>, lines: seq<string>, i: nat, j: nat)
    requires i < j < |lines| && !Goes(secrets, lines[i]) && !Goes(secrets, lines[j])
    ensures var p, q := |Kept(secrets, lines[..i])|, |Kept(secrets, lines[..j])|;
      var final := Final(w, secrets, lines);
      && p < q < |final|
      && final[p] == Follow(secrets, lines[i]) && final[q] == Follow(secrets, lines[j])
  {
    KeptAt(secrets, lines, i);
    KeptAt(secrets, lines, j);
    KeptGrows(secrets, lines, i, j);
  }

  /** Nothing is lost: every broker-only line of the project is still there after the run, or held the
      shipped placeholder, or its value is what reading the new stack file gives, provided the reader leaves
      that value alone; and the value of a line that went for no other reason survives only then. */
  lemma NothingIsLost(header: seq<string>, w: World, project: Option<string>, stack: Option<string>, line: string)
    requires IsHeader(header)
    requires GoodWorld(w) && line in LinesOf(project) && IsBrokerLine(line)
    ensures var secrets := SecretsOf(w, project, stack);
      var value := Unquote(After(line));
      var newStack := ReadEnv(Some(StackText(header, secrets)));
      || line in SplitLines(ProjectText(w, secrets, LinesOf(project)))
      || value == PLACEHOLDER
      || (value == Get(secrets, Key(line)) && (Get(newStack, Key(line)) == value <==> Stable(value)))
  {
    var secrets := SecretsOf(w, project, stack);
    AllSecretsAreOneLine(w, project, stack);
    FileLinesApart(project);
    NamesDiffer();
    if Goes(secrets, line) {
      StackFileIsRead(header, secrets, Key(line));
    } else {
      KeptLines(secrets, LinesOf(project), line);
      var kept := Kept(secrets, LinesOf(project));
      var i :| 0 <= i < |kept| && kept[i] == line;
      assert Final(w, secrets, LinesOf(project))[i] == Follow(secrets, line) == line;
      NewProjectLines(w, secrets, LinesOf(project));
      var a, b := TrimShape(Final(w, secrets, LinesOf(project)));
      EmptyHasNoKey();
    }
  }

  // ---------------------------------------------------------------- Running it again

  /** Two tables give the same secrets. */
  predicate Agree(secrets: map<string, string>, again: map<string, string>) {
    forall name :: name in STACK_SECRETS ==> Get(secrets, name) == Get(again, name)
  }

  lemma AgreeOnLines(secrets: map<string, string>, again: map<string, string>, line: string)
    requires Agree(secrets, again)
    ensures Goes(secrets, line) == Goes(again, line)
    ensures Follow(secrets, line) == Follow(again, line)
  {
    NamesDiffer();
  }

  lemma {:induction false} NothingGoes(secrets: map<string, string>, lines: seq<string>)
    requires forall line :: line in lines ==> !Goes(secrets, line)
    ensures Kept(secrets, lines) == lines && Removals(secrets, lines) == []
  {
    if lines != [] {
      var n := |lines| - 1;
      assert lines[n] in lines;
      NothingGoes(secrets, lines[..n]);
    }
  }

  lemma {:induction false} AgreeOnConflicts(secrets: map<string, string>, again: map<string, string>, lines: seq<string>)
    requires Agree(secrets, again)
    ensures Conflicts(secrets, lines) == Conflicts(again, lines)
  {
    if lines != [] {
      AgreeOnConflicts(secrets, again, lines[..|lines| - 1]);
      AgreeOnLines(secrets, again, lines[|lines| - 1]);
    }
  }

  lemma {:induction false} ConflictsOfConcat(secrets: map<string, string>, a: seq<string>, b: seq<string>)
    ensures Conflicts(secrets, a + b) == Conflicts(secrets, a) + Conflicts(secrets, b)
  {
    if b == [] {
      assert a + b == a;
    } else {
      var n := |b| - 1;
      ConflictsOfConcat(secrets, a, b[..n]);
      assert (a + b)[..|a + b| - 1] == a + b[..n];
    }
  }

  lemma {:induction false} NoConflicts(secrets: map<string, string>, lines: seq<string>)
    requires forall line :: line in lines ==> !IsBrokerLine(line)
    ensures Conflicts(secrets, lines) == []
  {
    if lines != [] {
      assert lines[|lines| - 1] in lines;
      NoConflicts(secrets, lines[..|lines| - 1]);
    }
  }

  lemma {:induction false} ConflictsOfKept(secrets: map<string, string>, lines: seq<string>)
    ensures Conflicts(secrets, Kept(secrets, lines)) == Conflicts(secrets, lines)
  {
    if lines != [] {
      var init, last := lines[..|lines| - 1], lines[|lines| - 1];
      ConflictsOfKept(secrets, init);
      if !Goes(secrets, last) {
        assert (Kept(secrets, init) + [last])[..|Kept(secrets, init)|] == Kept(secrets, init);
      }
    }
  }

  lemma {:induction false} ConflictsOfFollowed(secrets: map<string, string>, lines: seq<string>)
    ensures Conflicts(secrets, Followed(secrets, lines)) == Conflicts(secrets, lines)
  {
    if lines != [] {
      var n := |lines| - 1;
      ConflictsOfFollowed(secrets, lines[..n]);
      assert Followed(secrets, lines)[..n] == Followed(secrets, lines[..n]);
      FollowKeepsConflicts(secrets, lines[n]);
    }
  }

  lemma FollowKeepsConflicts(secrets: map<string, string>, line: string)
    ensures Key(Follow(secrets, line)) == Key(line)
    ensures IsBrokerLine(Follow(secrets, line)) == IsBrokerLine(line)
    ensures Goes(secrets, Follow(secrets, line)) == Goes(secrets, line)
  {
    NamesAreNames();
    NamesDiffer();
    PairParts(API_KEY, Get(secrets, API_KEY));
  }

  lemma ConflictsOfFinal(w: World, secrets: map<string, string>, lines: seq<string>)
    ensures Conflicts(secrets, Final(w, secrets, lines)) == Conflicts(secrets, lines)
  {
    var kept := Kept(secrets, lines);
    var missing := Missing(w, secrets, KeysOf(kept));
    WantedLines(w, secrets);
    NamesDiffer();
    forall line | line in missing ensures !IsBrokerLine(line) {
      MissingLines(w, secrets, KeysOf(kept), line);
    }
    NoConflicts(secrets, missing);
    ConflictsOfConcat(secrets, Followed(secrets, kept), missing);
    ConflictsOfFollowed(secrets, kept);
    ConflictsOfKept(secrets, lines);
  }

  lemma ConflictsOfTrimmed(secrets: map<string, string>, lines: seq<string>)
    ensures Conflicts(secrets, Trimmed(lines)) == Conflicts(secrets, lines)
  {
    var a, b := TrimShape(lines);
    EmptyHasNoKey();
    NamesDiffer();
    NoConflicts(secrets, lines[..a]);
    NoConflicts(secrets, lines[b..]);
    assert lines == lines[..a] + (lines[a..b] + lines[b..]);
    ConflictsOfConcat(secrets, lines[..a], lines[a..b] + lines[b..]);
    ConflictsOfConcat(secrets, lines[a..b], lines[b..]);
  }

  /** The same keys conflict, in the same order, in the file a run leaves behind. */
  lemma ConflictsStay(w: World, secrets: map<string, string>, lines: seq<string>)
    ensures Conflicts(secrets, Trimmed(Final(w, secrets, lines))) == Conflicts(secrets, lines)
  {
    ConflictsOfTrimmed(secrets, Final(w, secrets, lines));
    ConflictsOfFinal(w, secrets, lines);
  }

  lemma WantedStay(w: World, secrets: map<string, string>, lines: seq<string>)
    ensures forall key :: Wanted(key) ==> key in KeysOf(Trimmed(Final(w, secrets, lines)))
  {
    var final := Final(w, secrets, lines);
    var a, b := TrimShape(final);
    EmptyHasNoKey();
    forall key | Wanted(key) ensures key in KeysOf(Trimmed(final)) {
      WantedAreThere(w, secrets, lines, key);
      var line :| line in final && Key(line) == key;
      assert line in Trimmed(final);
    }
  }

  /** A second pass over the lines of the new project file leaves them as they are. */
  lemma LinesStay(w: World, again: World, secrets: map<string, string>, same: map<string, string>, lines: seq<string>)
    requires Agree(secrets, same)
    ensures var left := Trimmed(Final(w, secrets, lines));
      && Final(again, same, left) == left
      && Removals(same, left) == []
      && Conflicts(same, left) == Conflicts(secrets, lines)
  {
    var final := Final(w, secrets, lines);
    var left := Trimmed(final);
    var a, b := TrimShape(final);
    forall line | line in left ensures !Goes(same, line) && Follow(same, line) == line {
      var i :| 0 <= i < |left| && left[i] == line;
      assert final[a + i] == line;
      FinalLine(w, secrets, lines, line);
      AgreeOnLines(secrets, same, line);
    }
    NothingGoes(same, left);
    assert Followed(same, left) == left;
    WantedStay(w, secrets, lines);
    assert Missing(again, same, KeysOf(left)) == [];
    ConflictsStay(w, secrets, lines);
    AgreeOnConflicts(secrets, same, left);
  }

  lemma {:induction false} NothingToChoose(w: World, stack: map<string, string>, project: map<string, string>, names: seq<string>)
    requires forall name :: name in names ==> Get(stack, name) != ""
    ensures Chosen(w, stack, project, names) == stack && ChoiceNotes(w, stack, project, names) == []
  {
    if names != [] {
      assert names[|names| - 1] in names;
      NothingToChoose(w, stack, project, names[..|names| - 1]);
    }
  }

  /** Every secret the run wrote is one the reader leaves alone. */
  predicate AllStable(secrets: map<string, string>) {
    forall name :: name in STACK_SECRETS ==> Stable(Get(secrets, name))
  }

  /** What the second run reads as secrets is what the first one wrote. */
  lemma SecretsStay(header: seq<string>, w: World, again: World, project: Option<string>, stack: Option<string>, project': Option<string>)
    requires IsHeader(header)
    requires GoodWorld(w) && AllStable(SecretsOf(w, project, stack))
    ensures var secrets := SecretsOf(w, project, stack);
      var stack' := Some(StackText(header, secrets));
      && Agree(secrets, SecretsOf(again, project', stack'))
      && ChoiceNotes(again, ReadEnv(stack'), ReadEnv(project'), STACK_SECRETS) == []
  {
    var secrets := SecretsOf(w, project, stack);
    var stack' := Some(StackText(header, secrets));
    AllSecretsAreOneLine(w, project, stack);
    forall name | name in STACK_SECRETS
      ensures Get(ReadEnv(stack'), name) == Get(secrets, name) != ""
    {
      SecretsAreGood(w, project, stack, name);
      StackFileIsRead(header, secrets, name);
    }
    NothingToChoose(again, ReadEnv(stack'), ReadEnv(project'), STACK_SECRETS);
  }

  /** The project text a run left is left by the next. */
  lemma ProjectStays(w: World, again: World, secrets: map<string, string>, same: map<string, string>, lines: seq<string>)
    requires GoodWorld(w) && OneLineSecrets(secrets) && Apart(lines, '\n') && Agree(secrets, same)
    ensures var text := ProjectText(w, secrets, lines);
      && ProjectText(again, same, SplitLines(text)) == text
      && Removals(same, SplitLines(text)) == []
      && Conflicts(same, SplitLines(text)) == Conflicts(secrets, lines)
  {
    NewProjectLines(w, secrets, lines);
    LinesStay(w, again, secrets, same, lines);
    TrimEnds(Final(w, secrets, lines));
    SameText(again, same, Trimmed(Final(w, secrets, lines)));
  }

  /** With stable secrets a second run, whatever the environment has become, leaves both files exactly
      as they are, and has nothing to say but the conflicts of the first. */
  lemma SecondRunChangesNothing(header: seq<string>, w: World, again: World, project: Option<string>, stack: Option<string>)
    requires IsHeader(header)
    requires GoodWorld(w) && AllStable(SecretsOf(w, project, stack))
    ensures var secrets := SecretsOf(w, project, stack);
      var project', stack' := Some(ProjectText(w, secrets, LinesOf(project))), Some(StackText(header, secrets));
      var secrets' := SecretsOf(again, project', stack');
      && Some(ProjectText(again, secrets', LinesOf(project'))) == project'
      && Some(StackText(header, secrets')) == stack'
      && NotesOf(again, project', stack') == Conflicts(secrets, LinesOf(project))
  {
    var secrets := SecretsOf(w, project, stack);
    var project', stack' := Some(ProjectText(w, secrets, LinesOf(project))), Some(StackText(header, secrets));
    var same := SecretsOf(again, project', stack');
    AllSecretsAreOneLine(w, project, stack);
    FileLinesApart(project);
    SecretsStay(header, w, again, project, stack, project');
    ProjectStays(w, again, secrets, same, LinesOf(project));
    SameStack(header, secrets, same);
  }

  lemma SameText(w: World, secrets: map<string, string>, left: seq<string>)
    requires Final(w, secrets, left) == left && Apart(left, '\n') && Trimmed(left) == left
    ensures ProjectText(w, secrets, left) == Join(left, '\n') + "\n"
  {
    StripJoinFront(left);
    var n := TrimFrontShape(left);
    StripJoinBack(TrimFront(left));
  }

  lemma SameStack(header: seq<string>, secrets: map<string, string>, same: map<string, string>)
    requires Agree(secrets, same)
    ensures StackText(header, same) == StackText(header, secrets)
  {
    forall i | 0 <= i < |STACK_SECRETS|
      ensures SecretLine(same, STACK_SECRETS[i]) == SecretLine(secrets, STACK_SECRETS[i])
    {
      assert STACK_SECRETS[i] in STACK_SECRETS;
    }
    assert SecretLines(same, STACK_SECRETS) == SecretLines(secrets, STACK_SECRETS);
  }

  lemma StackTextTells(header: seq<string>, secrets: map<string, string>, same: map<string, string>, i: nat)
    requires IsHeader(header)
    requires OneLineSecrets(secrets) && OneLineSecrets(same) && i < |STACK_SECRETS|
    requires StackText(header, secrets) == StackText(header, same)
    ensures Get(secrets, STACK_SECRETS[i]) == Get(same, STACK_SECRETS[i])
  {
    StackLinesApart(header, secrets);
    StackLinesApart(header, same);
    LinesOfJoined(StackLines(header, secrets));
    LinesOfJoined(StackLines(header, same));
    var name := STACK_SECRETS[i];
    assert StackLines(header, secrets)[|header| + i] == SecretLine(secrets, name);
    assert StackLines(header, same)[|header| + i] == SecretLine(same, name);
    assert SecretLine(secrets, name)[|name| + 1..] == Get(secrets, name);
    assert SecretLine(same, name)[|name| + 1..] == Get(same, name);
  }

  /** Stability is not a convenience: if the reader does not leave some secret alone, the second run
      changes the stack file or makes up for that secret again. */
  lemma SecondRunNeedsStableSecrets(header: seq<string>, w: World, again: World, project: Option<string>, stack: Option<string>, i: nat)
    requires IsHeader(header)
    requires GoodWorld(w) && GoodWorld(again) && i < |STACK_SECRETS|
    requires !Stable(Get(SecretsOf(w, project, stack), STACK_SECRETS[i]))
    ensures var secrets := SecretsOf(w, project, stack);
      var project', stack' := Some(ProjectText(w, secrets, LinesOf(project))), Some(StackText(header, secrets));
      var secrets' := SecretsOf(again, project', stack');
      StackText(header, secrets') != StackText(header, secrets) || Get(ReadEnv(stack'), STACK_SECRETS[i]) == ""
  {
    var name := STACK_SECRETS[i];
    assert name in STACK_SECRETS;
    var secrets := SecretsOf(w, project, stack);
    var project', stack' := Some(ProjectText(w, secrets, LinesOf(project))), Some(StackText(header, secrets));
    var secrets' := SecretsOf(again, project', stack');
    AllSecretsAreOneLine(w, project, stack);
    StackFileIsRead(header, secrets, name);
    if StackText(header, secrets') == StackText(header, secrets) && Get(ReadEnv(stack'), name) != "" {
      SecretsAreGood(again, project', stack', name);
      AllSecretsAreOneLine(again, project', stack');
      StackTextTells(header, secrets, secrets', i);
      assert false;
    }
  }

  lemma LastIsNoted(w: World, stack: map<string, string>, project: map<string, string>, names: seq<string>, note: Note)
    requires names != [] && Get(Chosen(w, stack, project, names[..|names| - 1]), names[|names| - 1]) == ""
    requires note == if Adopts(w, project, names[|names| - 1]) then Moved(names[|names| - 1]) else Generated(names[|names| - 1])
    ensures ChoiceNotes(w, stack, project, names) == ChoiceNotes(w, stack, project, names[..|names| - 1]) + [note]
  {
  }

  lemma EarlierIsNoted(w: World, stack: map<string, string>, project: map<string, string>, names: seq<string>, note: Note)
    requires names != [] && note in ChoiceNotes(w, stack, project, names[..|names| - 1])
    ensures note in ChoiceNotes(w, stack, project, names)
  {
  }

  lemma {:induction false} MissingIsNoted(w: World, stack: map<string, string>, project: map<string, string>,
                                          names: seq<string>, i: nat) returns (note: Note)
    requires i < |names| && Get(stack, names[i]) == "" && forall j, k :: 0 <= j < k < |names| ==> names[j] != names[k]
    ensures note in ChoiceNotes(w, stack, project, names) && !note.Conflict?
  {
    var n := |names| - 1;
    var init := names[..n];
    if i < n {
      note := MissingIsNoted(w, stack, project, init, i);
      EarlierIsNoted(w, stack, project, names, note);
    } else {
      assert names[n] !in init;
      ChosenIgnoresOthers(w, stack, project, init, names[n]);
      note := if Adopts(w, project, names[n]) then Moved(names[n]) else Generated(names[n]);
      LastIsNoted(w, stack, project, names, note);
    }
  }

  lemma {:induction false} OnlyConflicts(secrets: map<string, string>, lines: seq<string>)
    ensures forall note :: note in Conflicts(secrets, lines) ==> note.Conflict?
  {
    if lines != [] { OnlyConflicts(secrets, lines[..|lines| - 1]); }
  }

  /** A second run leaves both files as they are and notes only the conflicts again, if and only if every
      secret the first one wrote is stable. */
  lemma SecondRunIsSilentExactly(header: seq<string>, w: World, again: World, project: Option<string>, stack: Option<string>)
    requires IsHeader(header)
    requires GoodWorld(w) && GoodWorld(again)
    ensures var secrets := SecretsOf(w, project, stack);
      var project', stack' := Some(ProjectText(w, secrets, LinesOf(project))), Some(StackText(header, secrets));
      var secrets' := SecretsOf(again, project', stack');
      AllStable(secrets) <==>
        && Some(ProjectText(again, secrets', LinesOf(project'))) == project'
        && Some(StackText(header, secrets')) == stack'
        && NotesOf(again, project', stack') == Conflicts(secrets, LinesOf(project))
  {
    var secrets := SecretsOf(w, project, stack);
    var project', stack' := Some(ProjectText(w, secrets, LinesOf(project))), Some(StackText(header, secrets));
    if AllStable(secrets) {
      SecondRunChangesNothing(header, w, again, project, stack);
    } else {
      var i :| 0 <= i < |STACK_SECRETS| && !Stable(Get(secrets, STACK_SECRETS[i]));
      SecondRunNeedsStableSecrets(header, w, again, project, stack, i);
      OnlyConflicts(secrets, LinesOf(project));
      if Get(ReadEnv(stack'), STACK_SECRETS[i]) == "" {
        NamesDiffer();
        var note := MissingIsNoted(again, ReadEnv(stack'), ReadEnv(project'), STACK_SECRETS, i);
        assert note in NotesOf(again, project', stack');
      }
    }
  }

  /** A secret quoted with blanks inside is not stable: it is read as ` k ` from the project, written so
      to the stack file, and read as `k` from there, while the line it came from is gone. */
  lemma QuotedBlanksAreNotStable()
    ensures Unquote("\" k \"") == " k " && Unquote(" k ") == "k" && !Stable(" k ")
  {
    StripOfTight("\" k \"");
    var quoted := "\" k \"";
    assert quoted[1..] == " k \"" && " k \""[..3] == " k ";
    assert StripCharLeft(" k \"", '"') == " k \"";
    assert StripCharRight(" k ", '"') == " k ";
    assert StripCharRight(" k \"", '"') == " k ";
    assert " k "[1..] == "k " && "k "[..1] == "k";
    assert StripRight("k") == "k" && StripRight("k ") == "k";
  }
}
