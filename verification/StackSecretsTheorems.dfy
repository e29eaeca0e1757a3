/** What a run of the secret migration keeps, and what a second run changes. */
module StackSecretsTheorems {
  import opened Wrappers
  import opened Text
  import opened StackSecrets

  predicate OneLine(s: string) {
    '\n' !in s
  }

  /** The reader gives the value back as it stands. */
  predicate Stable(value: string) {
    Unquote(value) == value
  }

  /** The environment and the generator give single lines, and a generated secret is not empty. */
  predicate GoodWorld(w: World) {
    && (forall name :: name in STACK_SECRETS + [PORT] ==> OneLine(Get(w.env, name)))
    && (forall name :: name in STACK_SECRETS ==> OneLine(w.generate(name)) && w.generate(name) != "")
  }

  // ---------------------------------------------------------------- Names

  /** A name that a `name=value` line is read back under. */
  predicate IsName(name: string) {
    && name != "" && '=' !in name && '\n' !in name && name[0] != '#'
    && !IsSpace(name[0]) && !IsSpace(name[|name| - 1])
  }

  lemma NamesAreNames()
    ensures forall name :: name in STACK_SECRETS ==> IsName(name)
    ensures IsName(URL_KEY) && IsName(RETURN_KEY)
  {
  }

  lemma NamesDiffer()
    ensures forall i, j :: 0 <= i < j < |STACK_SECRETS| ==> STACK_SECRETS[i] != STACK_SECRETS[j]
    ensures API_KEY !in BROKER_ONLY && URL_KEY !in BROKER_ONLY && RETURN_KEY !in BROKER_ONLY && "" !in BROKER_ONLY
    ensures API_KEY != URL_KEY && API_KEY != RETURN_KEY && API_KEY in STACK_SECRETS
    ensures forall name :: name in BROKER_ONLY ==> name in STACK_SECRETS
  {
    assert STACK_SECRETS[0][6] == 'E' && STACK_SECRETS[1][6] == 'S' && STACK_SECRETS[2][6] == 'B' && STACK_SECRETS[3][6] == 'G';
    assert BROKER_ONLY[0] == STACK_SECRETS[0] && BROKER_ONLY[1] == STACK_SECRETS[1] && BROKER_ONLY[2] == STACK_SECRETS[2];
    assert API_KEY[6] == 'G' && URL_KEY[6] == 'G' && RETURN_KEY[6] == 'R';
    assert BROKER_ONLY[0][6] == 'E' && BROKER_ONLY[1][6] == 'S' && BROKER_ONLY[2][6] == 'B';
    assert |API_KEY| == 21 && |URL_KEY| == 17 && |RETURN_KEY| == 16;
    assert API_KEY == STACK_SECRETS[3];
  }

  // ---------------------------------------------------------------- One line, written and read

  lemma PairParts(name: string, value: string)
    requires IsName(name)
    ensures var line := name + "=" + value;
      && Before(line) == name && After(line) == value && Key(line) == name
  {
    var line := name + "=" + value;
    SpanIs(line, (c: char) => c != '=', |name|);
    assert line[..|name|] == name && line[|name| + 1..] == value;
    StripOfTight(name);
  }

  lemma PairIsRead(name: string, value: string)
    requires IsName(name)
    ensures Entry(name + "=" + value) == Some((name, Unquote(value)))
  {
    var line := name + "=" + value;
    var front := name + "=";
    assert StripLeft(line) == line;
    StripRightBehind(front, value);
    assert Strip(line) == name + "=" + StripRight(value);
    PairParts(name, StripRight(value));
    StripsCommute(value);
    StripRightTwice(StripLeft(value));
    assert Strip(StripRight(value)) == Strip(value);
    assert Strip(line)[|name|] == '=';
    assert Strip(line)[0] == name[0];
  }

  lemma {:induction false} StripCharPart(s: string, x: char, c: char)
    requires c in StripChar(s, x)
    ensures c in s
  {
    StripCharRightPart(StripCharLeft(s, x), x, c);
    StripCharLeftPart(s, x, c);
  }

  lemma {:induction false} StripCharLeftPart(s: string, x: char, c: char)
    requires c in StripCharLeft(s, x)
    ensures c in s
  {
    if s != "" && s[0] == x { StripCharLeftPart(s[1..], x, c); }
  }

  lemma {:induction false} StripCharRightPart(s: string, x: char, c: char)
    requires c in StripCharRight(s, x)
    ensures c in s
  {
    if s != "" && s[|s| - 1] == x { StripCharRightPart(s[..|s| - 1], x, c); }
  }

  lemma ValueIsPart(line: string, c: char)
    requires Entry(line).Some? && c in Entry(line).value.1
    ensures c in line
  {
    var after := After(Strip(line));
    StripCharPart(StripChar(Strip(after), '"'), '\'', c);
    StripCharPart(Strip(after), '"', c);
    StripPart(after, c);
    StripPart(line, c);
  }

  // ---------------------------------------------------------------- The stack file

  lemma CommentsAreSilent(line: string)
    requires line != "" && line[0] == '#'
    ensures Entry(line) == None
  {
    StripRightKeepsHead(line);
  }

  lemma {:induction false} StripRightKeepsHead(s: string)
    requires s != "" && !IsSpace(s[0])
    ensures StripRight(s) != "" && StripRight(s)[0] == s[0]
  {
    if IsSpace(s[|s| - 1]) { StripRightKeepsHead(s[..|s| - 1]); }
  }

  lemma {:induction false} HeaderIsSilent(header: seq<string>)
    requires IsHeader(header)
    ensures ReadLines(header) == map[]
  {
    if header != [] {
      assert header[|header| - 1] in header;
      CommentsAreSilent(header[|header| - 1]);
      HeaderIsSilent(header[..|header| - 1]);
    }
  }

  /** What reading the names back gives. */
  ghost predicate ReadsNames(m: map<string, string>, secrets: map<string, string>, names: seq<string>) {
    && (forall name :: name in m <==> name in names)
    && (forall name :: name in names ==> m[name] == Unquote(Get(secrets, name)))
  }

  lemma ReadOneMore(lines: seq<string>, line: string, key: string, value: string)
    requires Entry(line) == Some((key, value))
    ensures ReadLines(lines + [line]) == ReadLines(lines)[key := value]
  {
    assert (lines + [line])[..|lines|] == lines;
  }

  lemma ReadsOneMore(m: map<string, string>, secrets: map<string, string>, names: seq<string>, n: nat)
    requires |names| == n + 1 && ReadsNames(m, secrets, names[..n])
    ensures ReadsNames(m[names[n] := Unquote(Get(secrets, names[n]))], secrets, names)
  {
    assert names == names[..n] + [names[n]];
  }

  lemma OneMoreSecretLine(header: seq<string>, secrets: map<string, string>, names: seq<string>, n: nat)
    requires |names| == n + 1
    ensures header + SecretLines(secrets, names) ==
            header + SecretLines(secrets, names[..n]) + [SecretLine(secrets, names[n])]
  {
    assert SecretLines(secrets, names) == SecretLines(secrets, names[..n]) + [SecretLine(secrets, names[n])];
  }

  lemma {:induction false} SecretLinesAreRead(header: seq<string>, secrets: map<string, string>, names: seq<string>)
    requires IsHeader(header) && forall name :: name in names ==> IsName(name)
    ensures ReadsNames(ReadLines(header + SecretLines(secrets, names)), secrets, names)
  {
    if names == [] {
      HeaderIsSilent(header);
      assert header + SecretLines(secrets, names) == header;
    } else {
      var n := |names| - 1;
      var before := header + SecretLines(secrets, names[..n]);
      SecretLinesAreRead(header, secrets, names[..n]);
      OneMoreSecretLine(header, secrets, names, n);
      assert names[n] in names;
      PairIsRead(names[n], Get(secrets, names[n]));
      ReadOneMore(before, SecretLine(secrets, names[n]), names[n], Unquote(Get(secrets, names[n])));
      ReadsOneMore(ReadLines(before), secrets, names, n);
    }
  }

  lemma LinesOfJoined(lines: seq<string>)
    requires lines != [] && Apart(lines, '\n')
    ensures SplitLines(Join(lines, '\n') + "\n") == lines
  {
    SplitOfEnd(Join(lines, '\n'), '\n');
    SplitOfJoin(lines, '\n');
    var all := lines + [""];
    assert all[|all| - 1] == "" && all[..|all| - 1] == lines;
  }

  predicate OneLineSecrets(secrets: map<string, string>) {
    forall name :: name in STACK_SECRETS ==> OneLine(Get(secrets, name))
  }

  lemma SecretLinesAreApart(secrets: map<string, string>, names: seq<string>)
    requires forall name :: name in names ==> IsName(name) && OneLine(Get(secrets, name))
    ensures Apart(SecretLines(secrets, names), '\n')
  {
    forall i | 0 <= i < |names| ensures '\n' !in SecretLines(secrets, names)[i] {
      assert names[i] in names;
      assert SecretLines(secrets, names)[i] == names[i] + "=" + Get(secrets, names[i]);
    }
  }

  lemma StackLinesApart(header: seq<string>, secrets: map<string, string>)
    requires IsHeader(header) && OneLineSecrets(secrets)
    ensures Apart(StackLines(header, secrets), '\n')
  {
    NamesAreNames();
    SecretLinesAreApart(secrets, STACK_SECRETS);
  }

  /** Reading the stack file gives every secret as the reader strips it, so it is kept exactly
      when stripping leaves it alone. */
  lemma StackFileIsRead(header: seq<string>, secrets: map<string, string>, name: string)
    requires IsHeader(header) && OneLineSecrets(secrets) && name in STACK_SECRETS
    ensures Get(ReadEnv(Some(StackText(header, secrets))), name) == Unquote(Get(secrets, name))
    ensures Get(ReadEnv(Some(StackText(header, secrets))), name) == Get(secrets, name) <==> Stable(Get(secrets, name))
  {
    StackLinesApart(header, secrets);
    LinesOfJoined(StackLines(header, secrets));
    NamesAreNames();
    SecretLinesAreRead(header, secrets, STACK_SECRETS);
  }

  // ---------------------------------------------------------------- The chosen secrets

  lemma {:induction false} ReadValuesAreOneLine(lines: seq<string>, name: string)
    requires Apart(lines, '\n')
    ensures OneLine(Get(ReadLines(lines), name))
  {
    if lines != [] {
      var n := |lines| - 1;
      ReadValuesAreOneLine(lines[..n], name);
      if Entry(lines[n]).Some? && '\n' in Entry(lines[n]).value.1 {
        ValueIsPart(lines[n], '\n');
      }
    }
  }

  lemma FileLinesApart(file: Option<string>)
    ensures Apart(LinesOf(file), '\n')
    ensures ReadEnv(file) == ReadLines(LinesOf(file))
  {
    if file.Some? { SplitIsApart(file.value, '\n'); }
  }

  lemma {:induction false} ChosenAreGood(w: World, stack: map<string, string>, project: map<string, string>,
                                         names: seq<string>, name: string)
    requires Get(stack, name) != "" || name in names
    requires w.generate(name) != "" && OneLine(w.generate(name)) && OneLine(Get(w.env, name))
    requires OneLine(Get(stack, name)) && OneLine(Get(project, name))
    ensures var chosen := Get(Chosen(w, stack, project, names), name);
      && chosen != "" && OneLine(chosen)
      && (Get(stack, name) != "" ==> chosen == Get(stack, name))
  {
    if names != [] {
      var n := |names| - 1;
      if Get(stack, name) != "" || name in names[..n] {
        ChosenAreGood(w, stack, project, names[..n], name);
      } else {
        assert names[n] == name;
        ChosenIgnoresOthers(w, stack, project, names[..n], name);
      }
    }
  }

  /** After a run every secret is there, on one line, and one the stack already had is unchanged. */
  lemma SecretsAreGood(w: World, project: Option<string>, stack: Option<string>, name: string)
    requires GoodWorld(w) && name in STACK_SECRETS
    ensures var secret := Get(SecretsOf(w, project, stack), name);
      && secret != "" && OneLine(secret)
      && (Get(ReadEnv(stack), name) != "" ==> secret == Get(ReadEnv(stack), name))
  {
    FileLinesApart(project);
    FileLinesApart(stack);
    ReadValuesAreOneLine(LinesOf(project), name);
    ReadValuesAreOneLine(LinesOf(stack), name);
    ChosenAreGood(w, ReadEnv(stack), ReadEnv(project), STACK_SECRETS, name);
  }

  lemma AllSecretsAreOneLine(w: World, project: Option<string>, stack: Option<string>)
    requires GoodWorld(w)
    ensures OneLineSecrets(SecretsOf(w, project, stack))
  {
    forall name | name in STACK_SECRETS ensures OneLine(Get(SecretsOf(w, project, stack), name)) {
      SecretsAreGood(w, project, stack, name);
    }
  }
}
