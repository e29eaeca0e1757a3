// Moving the broker's secrets out of a project's .env.
//
// Both files are texts. The stack file holds the four secrets and nothing else; the project file keeps its
// lines, except that a broker-only secret goes when the stack file has the same value.
module StackSecrets {
  import opened Wrappers
  import opened Text

  const STACK_SECRETS: seq<string> :=
    ["NEXUS_ENCRYPTION_KEY", "NEXUS_STATE_KEY", "NEXUS_BROKER_API_KEY", "NEXUS_GATEWAY_API_KEY"]

  const BROKER_ONLY: seq<string> := ["NEXUS_ENCRYPTION_KEY", "NEXUS_STATE_KEY", "NEXUS_BROKER_API_KEY"]

  const API_KEY := "NEXUS_GATEWAY_API_KEY"
  const PLACEHOLDER := "dev-broker-api-key-change-in-prod"

  /** The comment lines the stack file begins with. */
  predicate IsHeader(header: seq<string>) {
    forall line :: line in header ==> line != "" && line[0] == '#' && '\n' !in line
  }

  // ---------------------------------------------------------------- Lines

  /** The lines of a text; the newline that ends it starts no other. */
  function SplitLines(text: string): seq<string> {
    var lines := Split(text, '\n');
    if lines[|lines| - 1] == "" then lines[..|lines| - 1] else lines
  }

  function StripCharLeft(s: string, c: char): string {
    if s != "" && s[0] == c then StripCharLeft(s[1..], c) else s
  }

  function StripCharRight(s: string, c: char): string {
    if s != "" && s[|s| - 1] == c then StripCharRight(s[..|s| - 1], c) else s
  }

  function StripChar(s: string, c: char): string {
    StripCharRight(StripCharLeft(s, c), c)
  }

  function Before(line: string): string {
    line[..Span(line, (c: char) => c != '=')]
  }

  function After(line: string): string {
    var n := Span(line, (c: char) => c != '=');
    if n == |line| then "" else line[n + 1..]
  }

  function Key(line: string): string {
    Strip(Before(line))
  }

  /** How a value is read: without surrounding blanks, then double quotes, then single ones. */
  function Unquote(value: string): string {
    StripChar(StripChar(Strip(value), '"'), '\'')
  }

  predicate IsComment(line: string) {
    "#" <= line
  }

  // ---------------------------------------------------------------- Reading an env file

  function Entry(line: string): Option<(string, string)> {
    var stripped := Strip(line);
    if stripped == "" || IsComment(stripped) || '=' !in stripped then None
    else Some((Key(stripped), Unquote(After(stripped))))
  }

  function ReadLines(lines: seq<string>): map<string, string> {
    if lines == [] then map[]
    else
      var before := ReadLines(lines[..|lines| - 1]);
      match Entry(lines[|lines| - 1])
      case Some((key, value)) => before[key := value]
      case None => before
  }

  function ReadEnv(file: Option<string>): map<string, string> {
    if file.None? then map[] else ReadLines(SplitLines(file.value))
  }

  method ReadEnvFile(file: Option<string>) returns (values: map<string, string>)
    ensures values == ReadEnv(file)
  {
    values := map[];
    if file.None? { return; }
    var lines := SplitLines(file.value);
    for i := 0 to |lines|
      invariant values == ReadLines(lines[..i])
    {
      assert lines[..i + 1][..i] == lines[..i];
      var line := Strip(lines[i]);
      if line == "" || IsComment(line) || '=' !in line { continue; }
      values := values[Key(line) := Unquote(After(line))];
    }
    assert lines[..|lines|] == lines;
  }

  function Get(m: map<string, string>, name: string): string {
    if name in m then m[name] else ""
  }

  // ---------------------------------------------------------------- Choosing the secrets

  datatype Note = Moved(name: string) | Generated(name: string) | Removed(name: string) | Conflict(name: string)

  /** What a run reads besides the two files. */
  datatype World = World(env: map<string, string>, generate: string -> string)

  /** A secret an older setup left in the project file or the environment. */
  function Legacy(w: World, project: map<string, string>, name: string): string {
    if Get(project, name) != "" then Get(project, name) else Get(w.env, name)
  }

  predicate Adopts(w: World, project: map<string, string>, name: string) {
    Legacy(w, project, name) != "" && Legacy(w, project, name) != PLACEHOLDER
  }

  function NewSecret(w: World, project: map<string, string>, name: string): string {
    if Adopts(w, project, name) then Legacy(w, project, name) else w.generate(name)
  }

  /** A secret the stack has is kept; a missing one is adopted or generated. */
  function Chosen(w: World, stack: map<string, string>, project: map<string, string>, names: seq<string>): map<string, string> {
    if names == [] then stack
    else
      var last, before := names[|names| - 1], Chosen(w, stack, project, names[..|names| - 1]);
      if Get(before, last) != "" then before else before[last := NewSecret(w, project, last)]
  }

  function ChoiceNotes(w: World, stack: map<string, string>, project: map<string, string>, names: seq<string>): seq<Note> {
    if names == [] then []
    else
      var last, before := names[|names| - 1], names[..|names| - 1];
      ChoiceNotes(w, stack, project, before) +
      if Get(Chosen(w, stack, project, before), last) != "" then []
      else if Adopts(w, project, last) then [Moved(last)] else [Generated(last)]
  }

  function SecretLine(secrets: map<string, string>, name: string): string {
    name + "=" + Get(secrets, name)
  }

  function SecretLines(secrets: map<string, string>, names: seq<string>): (r: seq<string>)
    ensures |r| == |names|
  {
    seq(|names|, i requires 0 <= i < |names| => SecretLine(secrets, names[i]))
  }

  function StackLines(header: seq<string>, secrets: map<string, string>): seq<string> {
    header + SecretLines(secrets, STACK_SECRETS)
  }

  function StackText(header: seq<string>, secrets: map<string, string>): string {
    Join(StackLines(header, secrets), '\n') + "\n"
  }

  // ---------------------------------------------------------------- The project's lines

  predicate IsBrokerLine(line: string) {
    Key(line) in BROKER_ONLY && !IsComment(StripLeft(line))
  }

  /** A broker-only line that may go: the stack holds its value, or it is the shipped placeholder. */
  predicate Goes(secrets: map<string, string>, line: string) {
    IsBrokerLine(line) && (Unquote(After(line)) == Get(secrets, Key(line)) || Unquote(After(line)) == PLACEHOLDER)
  }

  function Kept(secrets: map<string, string>, lines: seq<string>): seq<string> {
    if lines == [] then []
    else
      var before, last := Kept(secrets, lines[..|lines| - 1]), lines[|lines| - 1];
      if Goes(secrets, last) then before else before + [last]
  }

  function Removals(secrets: map<string, string>, lines: seq<string>): seq<Note> {
    if lines == [] then []
    else
      var before, last := Removals(secrets, lines[..|lines| - 1]), lines[|lines| - 1];
      if Goes(secrets, last) then before + [Removed(Key(last))] else before
  }

  function Conflicts(secrets: map<string, string>, lines: seq<string>): seq<Note> {
    if lines == [] then []
    else
      var before, last := Conflicts(secrets, lines[..|lines| - 1]), lines[|lines| - 1];
      if IsBrokerLine(last) && !Goes(secrets, last) then before + [Conflict(Key(last))] else before
  }

  function KeysOf(lines: seq<string>): set<string> {
    set line | line in lines :: Key(line)
  }

  /** The gateway key of the project always follows the stack's. */
  function Follow(secrets: map<string, string>, line: string): string {
    if Key(line) == API_KEY then SecretLine(secrets, API_KEY) else line
  }

  function Followed(secrets: map<string, string>, lines: seq<string>): (r: seq<string>)
    ensures |r| == |lines|
  {
    seq(|lines|, i requires 0 <= i < |lines| => Follow(secrets, lines[i]))
  }

  const URL_KEY := "NEXUS_GATEWAY_URL"
  const RETURN_KEY := "NEXUS_RETURN_URL"
  const PORT := "NEXUS_GATEWAY_PORT"

  function UrlLine(w: World): string {
    URL_KEY + "=" + ("http://localhost:" + if PORT in w.env then w.env[PORT] else "8090")
  }

  const RETURN_LINE := RETURN_KEY + "=" + "http://localhost:8000/oauth/callback"

  function Missing(w: World, secrets: map<string, string>, present: set<string>): seq<string> {
    (if URL_KEY in present then [] else [UrlLine(w)]) +
    (if RETURN_KEY in present then [] else [RETURN_LINE]) +
    (if API_KEY in present then [] else [SecretLine(secrets, API_KEY)])
  }

  function Final(w: World, secrets: map<string, string>, lines: seq<string>): seq<string> {
    Followed(secrets, Kept(secrets, lines)) + Missing(w, secrets, KeysOf(Kept(secrets, lines)))
  }

  function ProjectText(w: World, secrets: map<string, string>, lines: seq<string>): string {
    StripChar(Join(Final(w, secrets, lines), '\n'), '\n') + "\n"
  }

  // ---------------------------------------------------------------- The whole run

  function LinesOf(file: Option<string>): seq<string> {
    if file.None? then [] else SplitLines(file.value)
  }

  function SecretsOf(w: World, project: Option<string>, stack: Option<string>): map<string, string> {
    Chosen(w, ReadEnv(stack), ReadEnv(project), STACK_SECRETS)
  }

  function NotesOf(w: World, project: Option<string>, stack: Option<string>): seq<Note> {
    var secrets := SecretsOf(w, project, stack);
    ChoiceNotes(w, ReadEnv(stack), ReadEnv(project), STACK_SECRETS)
    + Removals(secrets, LinesOf(project)) + Conflicts(secrets, LinesOf(project))
  }

  class EnvFiles {
    const header: seq<string>
    var project: Option<string>
    var stack: Option<string>

    constructor (header: seq<string>, project: Option<string>, stack: Option<string>)
      ensures this.header == header && this.project == project && this.stack == stack
    {
      this.header, this.project, this.stack := header, project, stack;
    }

    method EnsureStackSecrets(w: World) returns (secrets: map<string, string>, notes: seq<Note>)
      modifies this
      ensures secrets == SecretsOf(w, old(project), old(stack))
      ensures notes == NotesOf(w, old(project), old(stack))
      ensures stack == Some(StackText(header, secrets))
      ensures project == Some(ProjectText(w, secrets, LinesOf(old(project))))
      ensures forall name ::
                name in STACK_SECRETS && Get(ReadEnv(old(stack)), name) == "" && IsReal(Get(ReadEnv(old(project)), name)) ==>
                  Get(secrets, name) == Get(ReadEnv(old(project)), name)
    {
      secrets, notes := ChooseSecrets(w);
      var lines := if project.None? then [] else SplitLines(project.value);
      stack := Some(StackText(header, secrets));
      var kept, removed, conflicting := SortLines(secrets, lines);
      var present := KeysOf(kept);
      kept := FollowLines(secrets, kept);
      kept := kept + Missing(w, secrets, present);
      var newText := StripChar(Join(kept, '\n'), '\n') + "\n";
      if project != Some(newText) {
        project := Some(newText);
      }
      notes := notes + removed + conflicting;
    }

    method ChooseSecrets(w: World) returns (secrets: map<string, string>, notes: seq<Note>)
      ensures secrets == SecretsOf(w, project, stack)
      ensures notes == ChoiceNotes(w, ReadEnv(stack), ReadEnv(project), STACK_SECRETS)
      ensures forall name :: name in STACK_SECRETS && Get(ReadEnv(stack), name) == "" && IsReal(Get(ReadEnv(project), name)) ==>
                Get(secrets, name) == Get(ReadEnv(project), name)
    {
      var stackValues := ReadEnvFile(stack);
      var projectValues := ReadEnvFile(project);
      secrets, notes := CompleteSecrets(w, stackValues, projectValues, STACK_SECRETS);
    }
  }

  lemma {:induction false} ChosenIgnoresOthers(w: World, stack: map<string, string>, project: map<string, string>,
                                               names: seq<string>, name: string)
    requires name !in names
    ensures Get(Chosen(w, stack, project, names), name) == Get(stack, name)
  {
    if names != [] { ChosenIgnoresOthers(w, stack, project, names[..|names| - 1], name); }
  }

  /** A value worth adopting: there, and not the one shipped as a placeholder. */
  predicate IsReal(value: string) {
    value != "" && value != PLACEHOLDER
  }

  lemma {:induction false} RealOnesAreAdopted(w: World, stack: map<string, string>, project: map<string, string>,
                                              names: seq<string>, name: string)
    requires name in names && Get(stack, name) == "" && IsReal(Get(project, name))
    ensures Get(Chosen(w, stack, project, names), name) == Get(project, name)
  {
    var n := |names| - 1;
    if name in names[..n] {
      RealOnesAreAdopted(w, stack, project, names[..n], name);
    } else {
      assert names[n] == name;
      ChosenIgnoresOthers(w, stack, project, names[..n], name);
    }
  }

  lemma ChoiceStep(w: World, stack: map<string, string>, project: map<string, string>, names: seq<string>, i: nat)
    requires i < |names|
    ensures var before := Chosen(w, stack, project, names[..i]);
      && Chosen(w, stack, project, names[..i + 1]) ==
         (if Get(before, names[i]) != "" then before else before[names[i] := NewSecret(w, project, names[i])])
      && ChoiceNotes(w, stack, project, names[..i + 1]) ==
         ChoiceNotes(w, stack, project, names[..i]) +
         (if Get(before, names[i]) != "" then []
          else if Adopts(w, project, names[i]) then [Moved(names[i])] else [Generated(names[i])])
  {
    assert names[..i + 1][..i] == names[..i];
  }

  method CompleteSecrets(w: World, stack: map<string, string>, project: map<string, string>, names: seq<string>)
    returns (secrets: map<string, string>, notes: seq<Note>)
    ensures secrets == Chosen(w, stack, project, names)
    ensures notes == ChoiceNotes(w, stack, project, names)
    ensures forall name :: name in names && Get(stack, name) == "" && IsReal(Get(project, name)) ==>
              Get(secrets, name) == Get(project, name)
  {
    secrets, notes := stack, [];
    for i := 0 to |names|
      invariant secrets == Chosen(w, stack, project, names[..i])
      invariant notes == ChoiceNotes(w, stack, project, names[..i])
    {
      ChoiceStep(w, stack, project, names, i);
      var name := names[i];
      if Get(secrets, name) != "" { continue; }
      if Adopts(w, project, name) {
        secrets := secrets[name := Legacy(w, project, name)];
        notes := notes + [Moved(name)];
      } else {
        secrets := secrets[name := w.generate(name)];
        notes := notes + [Generated(name)];
      }
    }
    assert names[..|names|] == names;
    forall name | name in names && Get(stack, name) == "" && IsReal(Get(project, name))
      ensures Get(secrets, name) == Get(project, name)
    {
      RealOnesAreAdopted(w, stack, project, names, name);
    }
  }

  method SortLines(secrets: map<string, string>, lines: seq<string>)
    returns (kept: seq<string>, removed: seq<Note>, conflicting: seq<Note>)
    ensures kept == Kept(secrets, lines)
    ensures removed == Removals(secrets, lines) && conflicting == Conflicts(secrets, lines)
  {
    kept, removed, conflicting := [], [], [];
    for i := 0 to |lines|
      invariant kept == Kept(secrets, lines[..i])
      invariant removed == Removals(secrets, lines[..i]) && conflicting == Conflicts(secrets, lines[..i])
    {
      assert lines[..i + 1][..i] == lines[..i];
      var line := lines[i];
      if IsBrokerLine(line) {
        var value := Unquote(After(line));
        if value == Get(secrets, Key(line)) || value == PLACEHOLDER {
          removed := removed + [Removed(Key(line))];
          continue;
        }
        conflicting := conflicting + [Conflict(Key(line))];
      }
      kept := kept + [line];
    }
    assert lines[..|lines|] == lines;
  }

  method FollowLines(secrets: map<string, string>, lines: seq<string>) returns (followed: seq<string>)
    ensures followed == Followed(secrets, lines)
  {
    followed := lines;
    for i := 0 to |lines|
      invariant |followed| == |lines|
      invariant forall k :: 0 <= k < i ==> followed[k] == Follow(secrets, lines[k])
      invariant forall k :: i <= k < |lines| ==> followed[k] == lines[k]
    {
      if Key(followed[i]) == API_KEY {
        followed := followed[i := SecretLine(secrets, API_KEY)];
      }
    }
  }
}
