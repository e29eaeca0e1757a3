/** Building a role snapshot: which lines get a ref, how refs are numbered, and how they are read back. */
module RoleSnapshot {
  import opened Wrappers
  import opened Text
  import opened SnapshotLines
  import opened CompactTree

  const INTERACTIVE_ROLES: set<string> := {
    "button", "link", "textbox", "checkbox", "radio", "combobox",
    "listbox", "menuitem", "menuitemcheckbox", "menuitemradio",
    "option", "searchbox", "slider", "spinbutton", "switch", "tab", "treeitem"
  }

  const CONTENT_ROLES: set<string> := {
    "heading", "cell", "gridcell", "columnheader", "rowheader",
    "listitem", "article", "region", "main", "navigation"
  }

  const STRUCTURAL_ROLES: set<string> := {
    "generic", "group", "list", "table", "row", "rowgroup",
    "grid", "treegrid", "menu", "menubar", "toolbar", "tablist",
    "tree", "directory", "document", "application", "presentation", "none"
  }

  datatype Options = Options(
    interactiveOnly: bool, maxDepth: Option<nat>, compact: bool, maxNameLength: Option<nat>)

  const DEFAULTS := Options(false, None, false, None)

  datatype RoleRef = RoleRef(role: string, name: Option<string>, nth: Option<nat>)

  datatype Snapshot = Snapshot(text: string, refs: map<string, RoleRef>)

  function KeyOf(role: string, name: Option<string>): string {
    role + ":" + name.GetOr("")
  }

  function RefName(k: nat): string {
    "e" + Decimal(k + 1)
  }

  const ELLIPSIS := '\U{2026}'

  function Truncate(name: Option<string>, maxLength: Option<nat>): Option<string> {
    if name.GetOr("") == "" || maxLength.GetOr(0) == 0 || |name.value| <= maxLength.value then name
    else Some(StripRight(name.value[..maxLength.value]) + [ELLIPSIS])
  }

  // ---------------------------------------------------------------- What becomes of a line

  datatype Item = Item(prefix: string, role: string, name: Option<string>, suffix: string)

  datatype Choice = Skip | Plain(text: string) | Give(item: Item)

  predicate ShouldHaveRef(role: string, name: Option<string>) {
    role in INTERACTIVE_ROLES || (role in CONTENT_ROLES && name.GetOr("") != "")
  }

  function Choose(line: string, opt: Options): Choice {
    if opt.maxDepth.Some? && Indent(line) > opt.maxDepth.value then Skip
    else match ParseAria(line)
      case None => if opt.interactiveOnly then Skip else Plain(line)
      case Some(parsed) => if opt.interactiveOnly then ChooseFlat(parsed) else ChooseInTree(line, parsed, opt)
  }

  /** The flat list has interactive elements only. */
  function ChooseFlat(parsed: AriaLine): Choice {
    var AriaLine(_, role, name, suffix) := parsed;
    if ToLower(role) in INTERACTIVE_ROLES then Give(Item("- ", role, name, if '[' in suffix then suffix else ""))
    else Skip
  }

  function ChooseInTree(line: string, parsed: AriaLine, opt: Options): Choice {
    var AriaLine(prefix, role, name, suffix) := parsed;
    if opt.compact && ToLower(role) in STRUCTURAL_ROLES && name.GetOr("") == "" then Skip
    else if ShouldHaveRef(ToLower(role), name) then Give(Item(prefix, role, name, suffix))
    else if Truncate(name, opt.maxNameLength) != name then
      Plain(prefix + role + PrintName(Truncate(name, opt.maxNameLength)) + suffix)
    else Plain(line)
  }

  // ---------------------------------------------------------------- The whole snapshot

  /** The lines that get a ref, in order. */
  function Items(lines: seq<string>, opt: Options): seq<Item> {
    if lines == [] then []
    else
      var before := Items(lines[..|lines| - 1], opt);
      match Choose(lines[|lines| - 1], opt) case Give(item) => before + [item] case _ => before
  }

  function ItemKey(item: Item): string {
    KeyOf(ToLower(item.role), item.name)
  }

  function Count(items: seq<Item>, key: string): nat {
    if items == [] then 0
    else Count(items[..|items| - 1], key) + if ItemKey(items[|items| - 1]) == key then 1 else 0
  }

  function PrintItem(item: Item, before: seq<Item>, opt: Options): string {
    PrintLine(item.prefix, item.role, Truncate(item.name, opt.maxNameLength), RefName(|before|),
              Count(before, ItemKey(item)), item.suffix)
  }

  function Printed(lines: seq<string>, opt: Options): seq<string> {
    if lines == [] then []
    else
      var init := lines[..|lines| - 1];
      match Choose(lines[|lines| - 1], opt)
      case Skip => Printed(init, opt)
      case Plain(text) => Printed(init, opt) + [text]
      case Give(item) => Printed(init, opt) + [PrintItem(item, Items(init, opt), opt)]
  }

  /** The refs as they are first recorded, each with its index among its equals. */
  function RawRefs(items: seq<Item>): map<string, RoleRef> {
    if items == [] then map[]
    else
      var before, item := items[..|items| - 1], items[|items| - 1];
      RawRefs(before)[RefName(|before|) :=
        RoleRef(ToLower(item.role), item.name, Some(Count(before, ItemKey(item))))]
  }

  /** The index goes where it would not tell anything apart. */
  function Disambiguated(refs: map<string, RoleRef>, duplicates: iset<string>): map<string, RoleRef> {
    map ref | ref in refs ::
      if KeyOf(refs[ref].role, refs[ref].name) in duplicates then refs[ref] else refs[ref].(nth := None)
  }

  ghost function Duplicates(items: seq<Item>): iset<string> {
    iset key: string | Count(items, key) > 1
  }

  ghost function Refs(items: seq<Item>): map<string, RoleRef> {
    Disambiguated(RawRefs(items), Duplicates(items))
  }

  const NOTHING := "(no interactive elements)"
  const EMPTY := "(empty)"

  function TextOf(printed: seq<string>, opt: Options): string {
    if opt.interactiveOnly then if printed != [] then Join(printed, '\n') else NOTHING
    else
      var tree := if printed != [] then Join(printed, '\n') else EMPTY;
      if opt.compact then CompactText(tree) else tree
  }

  ghost function AriaSnapshot(text: string, opt: Options): Snapshot {
    var lines := Split(text, '\n');
    Snapshot(TextOf(Printed(lines, opt), opt), Refs(Items(lines, opt)))
  }

  // ---------------------------------------------------------------- Reading refs that are already there

  predicate Wanted(line: string, opt: Options) {
    && ParseAi(line).Some?
    && !(opt.interactiveOnly && ToLower(ParseAi(line).value.role) !in INTERACTIVE_ROLES)
    && !(opt.maxDepth.Some? && Indent(line) > opt.maxDepth.value)
  }

  function AiItems(lines: seq<string>, opt: Options): seq<AiLine> {
    if lines == [] then []
    else
      var before, line := AiItems(lines[..|lines| - 1], opt), lines[|lines| - 1];
      if Wanted(line, opt) then before + [ParseAi(line).value] else before
  }

  function AiLines(lines: seq<string>, opt: Options): seq<string> {
    if lines == [] then []
    else
      var before, line := AiLines(lines[..|lines| - 1], opt), lines[|lines| - 1];
      if Wanted(line, opt) then before + [line] else before
  }

  function AiKey(item: AiLine): string {
    KeyOf(ToLower(item.role), item.name)
  }

  function AiCount(items: seq<AiLine>, key: string): nat {
    if items == [] then 0
    else AiCount(items[..|items| - 1], key) + if AiKey(items[|items| - 1]) == key then 1 else 0
  }

  /** Lines with this key that carry no index of their own. */
  function Unindexed(items: seq<AiLine>, key: string): nat {
    if items == [] then 0
    else
      Unindexed(items[..|items| - 1], key) +
      if AiKey(items[|items| - 1]) == key && items[|items| - 1].nth.None? then 1 else 0
  }

  function RawAiRefs(items: seq<AiLine>): map<string, RoleRef> {
    if items == [] then map[]
    else
      var before, item := items[..|items| - 1], items[|items| - 1];
      RawAiRefs(before)[item.ref :=
        RoleRef(ToLower(item.role), item.name, Some(item.nth.GetOr(Unindexed(before, AiKey(item)))))]
  }

  ghost function AiDuplicates(items: seq<AiLine>): iset<string> {
    iset key: string | AiCount(items, key) > 1
  }

  ghost function AiSnapshot(text: string, opt: Options): Snapshot {
    var lines := Split(text, '\n');
    var kept := AiLines(lines, opt);
    var tree := if kept != [] then Join(kept, '\n') else NOTHING;
    Snapshot(if opt.compact then CompactText(tree) else tree,
             Disambiguated(RawAiRefs(AiItems(lines, opt)), AiDuplicates(AiItems(lines, opt))))
  }

  // ---------------------------------------------------------------- The builders

  function CountIn(m: map<string, nat>, key: string): nat {
    if key in m then m[key] else 0
  }

  function ListIn(m: map<string, seq<string>>, key: string): seq<string> {
    if key in m then m[key] else []
  }

  class RoleNameTracker {
    var counts: map<string, nat>
    var refsByKey: map<string, seq<string>>

    constructor ()
      ensures counts == map[] && refsByKey == map[]
    {
      counts, refsByKey := map[], map[];
    }

    method GetNextIndex(role: string, name: Option<string>) returns (index: nat)
      modifies `counts
      ensures index == CountIn(old(counts), KeyOf(role, name))
      ensures counts == old(counts)[KeyOf(role, name) := index + 1]
    {
      var key := KeyOf(role, name);
      index := CountIn(counts, key);
      counts := counts[key := index + 1];
    }

    method TrackRef(role: string, name: Option<string>, ref: string)
      modifies `refsByKey
      ensures refsByKey ==
              old(refsByKey)[KeyOf(role, name) := ListIn(old(refsByKey), KeyOf(role, name)) + [ref]]
    {
      var key := KeyOf(role, name);
      if key !in refsByKey {
        refsByKey := refsByKey[key := []];
      }
      refsByKey := refsByKey[key := refsByKey[key] + [ref]];
    }

    function DuplicateKeys(): set<string>
      reads this
    {
      set key | key in refsByKey && |refsByKey[key]| > 1
    }
  }

  /** Clears, one by one, the indices that tell nothing apart. */
  method RemoveNthFromNonDuplicates(refs: map<string, RoleRef>, duplicates: set<string>)
    returns (cleared: map<string, RoleRef>)
    ensures cleared == Disambiguated(refs, iset key | key in duplicates)
  {
    cleared := refs;
    var rest := refs.Keys;
    while rest != {}
      invariant rest <= refs.Keys && cleared.Keys == refs.Keys
      invariant forall ref :: ref in refs ==>
                  cleared[ref] == if ref in rest || KeyOf(refs[ref].role, refs[ref].name) in duplicates
                                  then refs[ref] else refs[ref].(nth := None)
      decreases |rest|
    {
      var ref :| ref in rest;
      var data := cleared[ref];
      if KeyOf(data.role, data.name) !in duplicates {
        cleared := cleared[ref := data.(nth := None)];
      }
      rest := rest - {ref};
    }
  }

  /** The tracker counts the items so far and lists as many refs. */
  ghost predicate Tracks(counts: map<string, nat>, lists: map<string, seq<string>>, items: seq<Item>) {
    forall key :: CountIn(counts, key) == Count(items, key) == |ListIn(lists, key)|
  }

  lemma TrackOneMore(counts: map<string, nat>, lists: map<string, seq<string>>, items: seq<Item>, item: Item, ref: string)
    requires Tracks(counts, lists, items)
    ensures var key := ItemKey(item);
      Tracks(counts[key := CountIn(counts, key) + 1], lists[key := ListIn(lists, key) + [ref]], items + [item])
  {
    var counts', lists' := counts[ItemKey(item) := CountIn(counts, ItemKey(item)) + 1],
                           lists[ItemKey(item) := ListIn(lists, ItemKey(item)) + [ref]];
    assert (items + [item])[..|items|] == items;
    forall key ensures CountIn(counts', key) == Count(items + [item], key) == |ListIn(lists', key)| {
      assert CountIn(counts, key) == Count(items, key) == |ListIn(lists, key)|;
    }
  }

  lemma TrackedDuplicates(counts: map<string, nat>, lists: map<string, seq<string>>, items: seq<Item>, keys: set<string>)
    requires Tracks(counts, lists, items)
    requires forall key :: key in keys <==> key in lists && |lists[key]| > 1
    ensures (iset key | key in keys) == Duplicates(items)
  {
    forall key ensures key in keys <==> Count(items, key) > 1 {
      assert CountIn(counts, key) == Count(items, key) == |ListIn(lists, key)|;
    }
  }

  lemma RefsOneMore(items: seq<Item>, item: Item)
    ensures RawRefs(items + [item]) ==
            RawRefs(items)[RefName(|items|) := RoleRef(ToLower(item.role), item.name, Some(Count(items, ItemKey(item))))]
  {
    assert (items + [item])[..|items|] == items;
  }

  lemma OneMoreLine(lines: seq<string>, i: nat)
    requires i < |lines|
    ensures lines[..i + 1] != [] && lines[..i + 1][..i] == lines[..i] && lines[..i + 1][i] == lines[i]
  {
  }

  method BuildRoleSnapshotFromAria(text: string, opt: Options) returns (result: Snapshot)
    ensures result == AriaSnapshot(text, opt)
  {
    var lines := Split(text, '\n');
    var refs, resultLines := CollectFromAria(lines, opt);
    if opt.interactiveOnly {
      result := Snapshot(if resultLines != [] then Join(resultLines, '\n') else NOTHING, refs);
    } else {
      var tree := if resultLines != [] then Join(resultLines, '\n') else EMPTY;
      if opt.compact { tree := Compact(tree); }
      result := Snapshot(tree, refs);
    }
  }

  /** What one line adds to the items and to the printed lines. */
  lemma AriaStep(lines: seq<string>, i: nat, opt: Options)
    requires i < |lines|
    ensures var items, printed := Items(lines[..i], opt), Printed(lines[..i], opt);
      match Choose(lines[i], opt)
      case Skip => Items(lines[..i + 1], opt) == items && Printed(lines[..i + 1], opt) == printed
      case Plain(text) => Items(lines[..i + 1], opt) == items && Printed(lines[..i + 1], opt) == printed + [text]
      case Give(item) =>
        && Items(lines[..i + 1], opt) == items + [item]
        && Printed(lines[..i + 1], opt) == printed + [PrintItem(item, items, opt)]
  {
    OneMoreLine(lines, i);
  }

  /** Counts one more item and tracks its ref; the index is the number of equals before it. */
  method Record(tracker: RoleNameTracker, item: Item, ref: string, ghost items: seq<Item>) returns (nth: nat)
    requires Tracks(tracker.counts, tracker.refsByKey, items)
    modifies tracker
    ensures nth == Count(items, ItemKey(item))
    ensures Tracks(tracker.counts, tracker.refsByKey, items + [item])
  {
    TrackOneMore(tracker.counts, tracker.refsByKey, items, item, ref);
    assert CountIn(tracker.counts, ItemKey(item)) == Count(items, ItemKey(item));
    nth := tracker.GetNextIndex(ToLower(item.role), item.name);
    tracker.TrackRef(ToLower(item.role), item.name, ref);
  }

  method CollectFromAria(lines: seq<string>, opt: Options)
    returns (refs: map<string, RoleRef>, resultLines: seq<string>)
    ensures refs == Refs(Items(lines, opt)) && resultLines == Printed(lines, opt)
  {
    refs, resultLines := map[], [];
    var tracker := new RoleNameTracker();
    var counter := 0;
    ghost var items: seq<Item> := [];
    for i := 0 to |lines|
      invariant items == Items(lines[..i], opt) && counter == |items|
      invariant resultLines == Printed(lines[..i], opt)
      invariant refs == RawRefs(items)
      invariant Tracks(tracker.counts, tracker.refsByKey, items)
    {
      AriaStep(lines, i, opt);
      match Choose(lines[i], opt) {
        case Skip =>
        case Plain(line) =>
          resultLines := resultLines + [line];
        case Give(item) =>
          counter := counter + 1;
          var ref := "e" + Decimal(counter);
          var nth := Record(tracker, item, ref, items);
          RefsOneMore(items, item);
          refs := refs[ref := RoleRef(ToLower(item.role), item.name, Some(nth))];
          resultLines := resultLines +
            [PrintLine(item.prefix, item.role, Truncate(item.name, opt.maxNameLength), ref, nth, item.suffix)];
          items := items + [item];
      }
    }
    assert lines[..|lines|] == lines;
    TrackedDuplicates(tracker.counts, tracker.refsByKey, items, tracker.DuplicateKeys());
    refs := RemoveNthFromNonDuplicates(refs, tracker.DuplicateKeys());
  }

  ghost predicate AiTracks(counts: map<string, nat>, lists: map<string, seq<string>>, items: seq<AiLine>) {
    forall key :: CountIn(counts, key) == Unindexed(items, key) && |ListIn(lists, key)| == AiCount(items, key)
  }

  lemma AiTrackOneMore(counts: map<string, nat>, lists: map<string, seq<string>>, items: seq<AiLine>, item: AiLine)
    requires AiTracks(counts, lists, items)
    ensures var key := AiKey(item);
      AiTracks(if item.nth.None? then counts[key := CountIn(counts, key) + 1] else counts,
               lists[key := ListIn(lists, key) + [item.ref]], items + [item])
  {
    var at := AiKey(item);
    var counts' := if item.nth.None? then counts[at := CountIn(counts, at) + 1] else counts;
    var lists' := lists[at := ListIn(lists, at) + [item.ref]];
    assert (items + [item])[..|items|] == items;
    forall key
      ensures CountIn(counts', key) == Unindexed(items + [item], key)
      ensures |ListIn(lists', key)| == AiCount(items + [item], key)
    {
      assert CountIn(counts, key) == Unindexed(items, key) && |ListIn(lists, key)| == AiCount(items, key);
    }
  }

  lemma AiTrackedDuplicates(counts: map<string, nat>, lists: map<string, seq<string>>, items: seq<AiLine>, keys: set<string>)
    requires AiTracks(counts, lists, items)
    requires forall key :: key in keys <==> key in lists && |lists[key]| > 1
    ensures (iset key | key in keys) == AiDuplicates(items)
  {
    forall key ensures key in keys <==> AiCount(items, key) > 1 {
      assert |ListIn(lists, key)| == AiCount(items, key);
    }
  }

  lemma AiRefsOneMore(items: seq<AiLine>, item: AiLine)
    ensures RawAiRefs(items + [item]) ==
            RawAiRefs(items)[item.ref :=
              RoleRef(ToLower(item.role), item.name, Some(item.nth.GetOr(Unindexed(items, AiKey(item)))))]
  {
    assert (items + [item])[..|items|] == items;
  }

  method BuildRoleSnapshotFromAi(text: string, opt: Options) returns (result: Snapshot)
    ensures result == AiSnapshot(text, opt)
  {
    var lines := Split(text, '\n');
    var refs, resultLines := CollectFromAi(lines, opt);
    var snapshot := if resultLines != [] then Join(resultLines, '\n') else NOTHING;
    if opt.compact { snapshot := Compact(snapshot); }
    result := Snapshot(snapshot, refs);
  }

  lemma AiStep(lines: seq<string>, i: nat, opt: Options)
    requires i < |lines|
    ensures var items, kept := AiItems(lines[..i], opt), AiLines(lines[..i], opt);
      if Wanted(lines[i], opt) then
        && AiItems(lines[..i + 1], opt) == items + [ParseAi(lines[i]).value]
        && AiLines(lines[..i + 1], opt) == kept + [lines[i]]
      else AiItems(lines[..i + 1], opt) == items && AiLines(lines[..i + 1], opt) == kept
  {
    OneMoreLine(lines, i);
  }

  /** Counts an item that carries no index, and tracks its ref in any case. */
  method RecordAi(tracker: RoleNameTracker, item: AiLine, ghost items: seq<AiLine>) returns (nth: nat)
    requires AiTracks(tracker.counts, tracker.refsByKey, items)
    modifies tracker
    ensures nth == item.nth.GetOr(Unindexed(items, AiKey(item)))
    ensures AiTracks(tracker.counts, tracker.refsByKey, items + [item])
  {
    AiTrackOneMore(tracker.counts, tracker.refsByKey, items, item);
    assert CountIn(tracker.counts, AiKey(item)) == Unindexed(items, AiKey(item));
    nth := item.nth.GetOr(0);
    if item.nth.None? {
      nth := tracker.GetNextIndex(ToLower(item.role), item.name);
    }
    tracker.TrackRef(ToLower(item.role), item.name, item.ref);
  }

  method CollectFromAi(lines: seq<string>, opt: Options)
    returns (refs: map<string, RoleRef>, resultLines: seq<string>)
    ensures refs == Disambiguated(RawAiRefs(AiItems(lines, opt)), AiDuplicates(AiItems(lines, opt)))
    ensures resultLines == AiLines(lines, opt)
  {
    refs, resultLines := map[], [];
    var tracker := new RoleNameTracker();
    ghost var items: seq<AiLine> := [];
    for i := 0 to |lines|
      invariant items == AiItems(lines[..i], opt) && resultLines == AiLines(lines[..i], opt)
      invariant refs == RawAiRefs(items)
      invariant AiTracks(tracker.counts, tracker.refsByKey, items)
    {
      AiStep(lines, i, opt);
      var parsed := ParseAi(lines[i]);
      if parsed.None? { continue; }
      var item := parsed.value;
      if opt.interactiveOnly && ToLower(item.role) !in INTERACTIVE_ROLES { continue; }
      if opt.maxDepth.Some? && Indent(lines[i]) > opt.maxDepth.value { continue; }
      var nth := RecordAi(tracker, item, items);
      AiRefsOneMore(items, item);
      refs := refs[item.ref := RoleRef(ToLower(item.role), item.name, Some(nth))];
      resultLines := resultLines + [lines[i]];
      items := items + [item];
    }
    assert lines[..|lines|] == lines;
    AiTrackedDuplicates(tracker.counts, tracker.refsByKey, items, tracker.DuplicateKeys());
    refs := RemoveNthFromNonDuplicates(refs, tracker.DuplicateKeys());
  }
}
