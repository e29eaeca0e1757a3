/** Reading a printed snapshot gives back the refs it was printed with, and exactly when. */
module SnapshotRoundTrip {
  import opened Wrappers
  import opened Text
  import opened SnapshotLines
  import opened CompactTree
  import opened RoleSnapshot

  // ---------------------------------------------------------------- Items and the lines they come from

  lemma {:induction false} ItemsComeFromLines(lines: seq<string>, opt: Options)
    ensures forall item :: item in Items(lines, opt) ==> exists line :: line in lines && Choose(line, opt) == Give(item)
  {
    if lines != [] {
      var init, last := lines[..|lines| - 1], lines[|lines| - 1];
      ItemsComeFromLines(init, opt);
      forall item | item in Items(lines, opt) ensures exists line :: line in lines && Choose(line, opt) == Give(item) {
        assert item in Items(init, opt) || Choose(last, opt) == Give(item);
      }
    }
  }

  /** An item is printed where a role may start; its role is a word, its name has no quotes, and nothing of it is
      spread over lines. */
  predicate IsPlainItem(item: Item) {
    && IsPrefix(item.prefix) && IsRole(item.role) && '"' !in item.name.GetOr("")
    && '\n' !in item.prefix && '\n' !in item.role && '\n' !in item.name.GetOr("") && '\n' !in item.suffix
  }

  lemma ParsedIsPlain(line: string)
    requires '\n' !in line && ParseAria(line).Some?
    ensures var AriaLine(prefix, role, name, suffix) := ParseAria(line).value; IsPlainItem(Item(prefix, role, name, suffix))
  {
    ParsedParts(line);
    var parsed := ParseAria(line).value;
    var all := parsed.prefix + parsed.role + parsed.name.GetOr("") + parsed.suffix;
    assert forall c :: c in parsed.prefix || c in parsed.role || c in parsed.name.GetOr("") || c in parsed.suffix ==> c in all;
  }

  lemma ShortenedIsOneLine(parsed: Item, maxLength: Option<nat>)
    requires IsPlainItem(parsed)
    ensures '\n' !in parsed.prefix + parsed.role + PrintName(Truncate(parsed.name, maxLength)) + parsed.suffix
  {
    TruncatedParts(parsed.name, maxLength);
    assert '\n' !in PrintName(Truncate(parsed.name, maxLength));
  }

  lemma DashIsAPrefix()
    ensures IsPrefix("- ")
  {
    SpanIs("- ", IsSpace, 0);
    SpanIs("- "[1..], IsSpace, 1);
  }

  /** What a line becomes is on one line, and an item of it is plain. */
  lemma ChosenIsPlain(line: string, opt: Options)
    requires '\n' !in line
    ensures match Choose(line, opt)
      case Skip => true
      case Plain(text) => '\n' !in text
      case Give(item) => IsPlainItem(item)
  {
    if ParseAria(line).Some? {
      ParsedIsPlain(line);
      var AriaLine(prefix, role, name, suffix) := ParseAria(line).value;
      DashIsAPrefix();
      ShortenedIsOneLine(Item(prefix, role, name, suffix), opt.maxNameLength);
    }
  }

  // ---------------------------------------------------------------- What is read

  function ShownName(item: Item, opt: Options): Option<string> {
    Shown(Truncate(item.name, opt.maxNameLength))
  }

  /** What reading the printed items gives. */
  function ReadItems(items: seq<Item>, opt: Options): seq<AiLine> {
    if items == [] then []
    else
      var before, item := items[..|items| - 1], items[|items| - 1];
      ReadItems(before, opt) + [ReadItem(item, before, opt)]
  }

  function ReadItem(item: Item, before: seq<Item>, opt: Options): AiLine {
    AiLine(item.role, ShownName(item, opt), RefName(|before|),
           ReadNth(Count(before, ItemKey(item)), item.suffix))
  }

  lemma RefNamesAreTight(k: nat)
    ensures var ref := RefName(k); ref != "" && '[' !in ref && ']' !in ref && '\n' !in ref && Strip(ref) == ref
  {
    var ref := RefName(k);
    forall i | 0 <= i < |ref| ensures ref[i] == 'e' || IsDigit(ref[i]) {
    }
    StripOfTight(ref);
  }

  lemma DecimalsDiffer(m: nat, n: nat)
    requires Decimal(m) == Decimal(n)
    ensures m == n
  {
    ParseOfDecimal(m);
    ParseOfDecimal(n);
  }

  lemma RefNamesDiffer(j: nat, k: nat)
    requires RefName(j) == RefName(k)
    ensures j == k
  {
    var d, e := Decimal(j + 1), Decimal(k + 1);
    assert d == ("e" + d)[1..] && e == ("e" + e)[1..];
    DecimalsDiffer(j + 1, k + 1);
  }

  lemma TruncatedParts(name: Option<string>, maxLength: Option<nat>)
    requires '"' !in name.GetOr("") && '\n' !in name.GetOr("")
    ensures var t := Truncate(name, maxLength); t.Some? ==> '"' !in t.value && '\n' !in t.value
  {
    if Truncate(name, maxLength) != name {
      StripRightIsPrefix(name.value[..maxLength.value]);
    }
  }

  lemma {:induction false} StripRightIsPrefix(s: string)
    ensures StripRight(s) <= s
  {
    if s != "" && IsSpace(s[|s| - 1]) { StripRightIsPrefix(s[..|s| - 1]); }
  }

  lemma PrintedItemIsRead(item: Item, before: seq<Item>, opt: Options)
    requires IsPlainItem(item)
    ensures ParseAi(PrintItem(item, before, opt)) == Some(ReadItem(item, before, opt))
  {
    RefNamesAreTight(|before|);
    TruncatedParts(item.name, opt.maxNameLength);
    PrintedLineIsRead(item.prefix, item.role, Truncate(item.name, opt.maxNameLength), RefName(|before|),
                      Count(before, ItemKey(item)), item.suffix);
  }

  lemma PrintedItemIsOneLine(item: Item, before: seq<Item>, opt: Options)
    requires IsPlainItem(item)
    ensures '\n' !in PrintItem(item, before, opt)
  {
    RefNamesAreTight(|before|);
    TruncatedParts(item.name, opt.maxNameLength);
    var shown := Truncate(item.name, opt.maxNameLength);
    var nth := Count(before, ItemKey(item));
    assert '\n' !in PrintName(shown);
    assert '\n' !in PrintRef(RefName(|before|));
    assert '\n' !in Decimal(nth);
    assert '\n' !in PrintNth(nth);
  }

  lemma ByDefaultAllAreWanted(line: string)
    ensures Wanted(line, DEFAULTS) <==> ParseAi(line).Some?
  {
  }

  lemma ReadOneMore(lines: seq<string>, line: string)
    ensures AiItems(lines + [line], DEFAULTS) ==
            AiItems(lines, DEFAULTS) + match ParseAi(line) case Some(item) => [item] case None => []
  {
    assert (lines + [line])[..|lines|] == lines;
    ByDefaultAllAreWanted(line);
  }

  /** No line printed without a ref of the snapshot's own reads as if it had one. A flat list has no such lines. */
  predicate OthersShowNoRef(lines: seq<string>, opt: Options) {
    forall line :: line in lines && Choose(line, opt).Plain? ==> ParseAi(Choose(line, opt).text).None?
  }

  lemma FlatShowsNoOther(lines: seq<string>, opt: Options)
    requires opt.interactiveOnly
    ensures OthersShowNoRef(lines, opt)
  {
  }

  lemma {:induction false} PrintedIsApart(lines: seq<string>, opt: Options)
    requires Apart(lines, '\n')
    ensures Apart(Printed(lines, opt), '\n')
  {
    if lines != [] {
      var init, last := lines[..|lines| - 1], lines[|lines| - 1];
      PrintedIsApart(init, opt);
      ChosenIsPlain(last, opt);
      if Choose(last, opt).Give? { PrintedItemIsOneLine(Choose(last, opt).item, Items(init, opt), opt); }
    }
  }

  /** The printed lines are read as the items they show. */
  lemma {:induction false} PrintedIsRead(lines: seq<string>, opt: Options)
    requires Apart(lines, '\n') && OthersShowNoRef(lines, opt)
    ensures AiItems(Printed(lines, opt), DEFAULTS) == ReadItems(Items(lines, opt), opt)
  {
    if lines != [] {
      var init, last := lines[..|lines| - 1], lines[|lines| - 1];
      PrintedIsRead(init, opt);
      ChosenIsPlain(last, opt);
      match Choose(last, opt) {
        case Skip =>
        case Plain(text) => ReadOneMore(Printed(init, opt), text);
        case Give(item) =>
          var before := Items(init, opt);
          PrintedItemIsRead(item, before, opt);
          ReadOneMore(Printed(init, opt), PrintItem(item, before, opt));
          assert (before + [item])[..|before|] == before;
      }
    }
  }

  // ---------------------------------------------------------------- Compacting drops no ref

  lemma {:induction false} HasSubBehind(s: string, n: nat, sub: string)
    requires n <= |s| && HasSub(s[n..], sub)
    ensures HasSub(s, sub)
  {
    if n > 0 { HasSubBehind(s[1..], n - 1, sub); } else { assert s[0..] == s; }
  }

  lemma {:induction false} FoundRefIsThere(s: string)
    requires FindRef(s).Some?
    ensures HasRef(s)
  {
    if RefAt(s).None? { FoundRefIsThere(s[1..]); }
  }

  lemma NamedHasRef(tail: string)
    requires QuotedName(tail).Some? && FindRef(QuotedName(tail).value.1).Some?
    ensures HasRef(tail)
  {
    var k := Span(tail, IsSpace);
    var inner := tail[k + 1..];
    var m := Span(inner, (c: char) => c != '"');
    FoundRefIsThere(inner[m + 1..]);
    HasSubBehind(inner, m + 1, "[ref=");
    HasSubBehind(tail, k + 1, "[ref=");
  }

  lemma AfterRoleHasRef(role: string, tail: string)
    requires ParseAfterRole(role, tail).Some?
    ensures HasRef(tail)
  {
    if QuotedName(tail).Some? { NamedHasRef(tail); } else { FoundRefIsThere(tail); }
  }

  lemma ReadLineHasRef(line: string)
    requires ParseAi(line).Some?
    ensures HasRef(line)
  {
    var start := RoleStart(line).value;
    var rest := line[start..];
    var n := Span(rest, IsRoleChar);
    AfterRoleHasRef(rest[..n], rest[n..]);
    HasSubBehind(rest, n, "[ref=");
    HasSubBehind(line, start, "[ref=");
  }

  lemma {:induction false} ReadsTogether(lines: seq<string>, more: seq<string>)
    ensures AiItems(lines + more, DEFAULTS) == AiItems(lines, DEFAULTS) + AiItems(more, DEFAULTS)
  {
    if more == [] {
      assert lines + more == lines;
    } else {
      var init, last := more[..|more| - 1], more[|more| - 1];
      ReadsTogether(lines, init);
      assert lines + more == (lines + init) + [last] && more == init + [last];
      ReadOneMore(lines + init, last);
      ReadOneMore(init, last);
    }
  }

  lemma {:induction false} PickKeepsRefs(lines: seq<string>, wanted: nat -> bool, i: nat)
    requires i <= |lines| && forall n :: 0 <= n < |lines| && !wanted(n) ==> ParseAi(lines[n]).None?
    ensures AiItems(Pick(lines, wanted, i), DEFAULTS) == AiItems(lines[i..], DEFAULTS)
    ensures Apart(lines, '\n') ==> Apart(Pick(lines, wanted, i), '\n')
    decreases |lines| - i
  {
    if i < |lines| {
      PickKeepsRefs(lines, wanted, i + 1);
      assert lines[i..] == [lines[i]] + lines[i + 1..];
      ReadsTogether([lines[i]], lines[i + 1..]);
      ReadsTogether(if wanted(i) then [lines[i]] else [], Pick(lines, wanted, i + 1));
      ByDefaultAllAreWanted(lines[i]);
    }
  }

  lemma CompactKeepsRefs(tree: string)
    ensures AiItems(Split(CompactText(tree), '\n'), DEFAULTS) == AiItems(Split(tree, '\n'), DEFAULTS)
  {
    var lines := Split(tree, '\n');
    SplitIsApart(tree, '\n');
    forall n | 0 <= n < |lines| && !Kept(lines, n) ensures ParseAi(lines[n]).None? {
      if ParseAi(lines[n]).Some? { ReadLineHasRef(lines[n]); }
    }
    PickKeepsRefs(lines, (i: nat) => i < |lines| && Kept(lines, i), 0);
    var kept := Compacted(lines);
    assert lines[0..] == lines;
    if kept == [] {
      ReadOneMore([], "");
      assert [] + [""] == [""];
    } else {
      SplitOfJoin(kept, '\n');
    }
  }

  // ---------------------------------------------------------------- The whole text

  lemma NoticeIsNotRead(notice: string)
    requires notice != "" && notice[0] == '(' && '\n' !in notice
    ensures AiItems(Split(notice, '\n'), DEFAULTS) == []
  {
    SplitOfWord(notice, '\n');
    SpanIs(notice, IsSpace, 0);
    assert RoleStart(notice) == None;
    ReadOneMore([], notice);
    assert [] + [notice] == [notice];
  }

  /** A notice stands for no lines. */
  lemma LinesOrNotice(printed: seq<string>, notice: string)
    requires Apart(printed, '\n') && notice != "" && notice[0] == '(' && '\n' !in notice
    ensures var text := if printed != [] then Join(printed, '\n') else notice;
      AiItems(Split(text, '\n'), DEFAULTS) == AiItems(printed, DEFAULTS)
  {
    if printed == [] { NoticeIsNotRead(notice); } else { SplitOfJoin(printed, '\n'); }
  }

  lemma WholeTextIsRead(printed: seq<string>, opt: Options)
    requires Apart(printed, '\n')
    ensures AiItems(Split(TextOf(printed, opt), '\n'), DEFAULTS) == AiItems(printed, DEFAULTS)
  {
    if opt.interactiveOnly {
      LinesOrNotice(printed, NOTHING);
    } else {
      LinesOrNotice(printed, EMPTY);
      CompactKeepsRefs(if printed != [] then Join(printed, '\n') else EMPTY);
    }
  }

  /** From any page text and for any options: the printed text reads as the items it was printed from, if no
      line printed without a ref reads as if it had one. */
  lemma PrintedTextIsRead(text: string, opt: Options)
    requires OthersShowNoRef(Split(text, '\n'), opt)
    ensures AiItems(Split(AriaSnapshot(text, opt).text, '\n'), DEFAULTS) == ReadItems(Items(Split(text, '\n'), opt), opt)
  {
    SplitIsApart(text, '\n');
    PrintedIsApart(Split(text, '\n'), opt);
    PrintedIsRead(Split(text, '\n'), opt);
    WholeTextIsRead(Printed(Split(text, '\n'), opt), opt);
  }

  // ---------------------------------------------------------------- When the refs agree

  predicate NameIsShown(item: Item, opt: Options) {
    item.name != Some("") && Truncate(item.name, opt.maxNameLength) == item.name
  }

  /** The first of several equals must not look as if it carried another index than its own. */
  predicate IndexIsRead(items: seq<Item>, k: nat)
    requires k < |items|
  {
    Count(items, ItemKey(items[k])) > 1 && Count(items[..k], ItemKey(items[k])) == 0 ==>
      FindNth(items[k].suffix).GetOr(0) == 0
  }

  predicate ReadsBack(items: seq<Item>, opt: Options, k: nat)
    requires k < |items|
  {
    NameIsShown(items[k], opt) && IndexIsRead(items, k)
  }

  /** No name is empty or cut, and no first of several equals carries a suffix that reads as another index. */
  predicate EveryItemReadsBack(items: seq<Item>, opt: Options) {
    forall k :: 0 <= k < |items| ==> ReadsBack(items, opt, k)
  }

  lemma {:induction false} RawRefsAt(items: seq<Item>, k: nat)
    requires k < |items|
    ensures RefName(k) in RawRefs(items)
    ensures RawRefs(items)[RefName(k)] ==
            RoleRef(ToLower(items[k].role), items[k].name, Some(Count(items[..k], ItemKey(items[k]))))
  {
    var n := |items| - 1;
    if k < n {
      RawRefsAt(items[..n], k);
      assert items[..n][..k] == items[..k];
      if RefName(k) == RefName(n) { RefNamesDiffer(k, n); }
    }
  }

  predicate IsRefUpTo(n: nat, ref: string) {
    exists k :: 0 <= k < n && RefName(k) == ref
  }

  lemma NamesUpTo(n: nat, ref: string)
    ensures IsRefUpTo(n + 1, ref) <==> IsRefUpTo(n, ref) || ref == RefName(n)
  {
  }

  lemma {:induction false} RawRefsKeys(items: seq<Item>, ref: string)
    ensures ref in RawRefs(items) <==> IsRefUpTo(|items|, ref)
  {
    if items != [] {
      var n := |items| - 1;
      RawRefsKeys(items[..n], ref);
      LastKey(items);
      NamesUpTo(n, ref);
    }
  }

  lemma LastKey(items: seq<Item>)
    requires items != []
    ensures RawRefs(items).Keys == RawRefs(items[..|items| - 1]).Keys + {RefName(|items| - 1)}
  {
  }

  lemma {:induction false} ReadLength(items: seq<Item>, opt: Options)
    ensures |ReadItems(items, opt)| == |items|
  {
    if items != [] { ReadLength(items[..|items| - 1], opt); }
  }

  lemma {:induction false} ReadTake(items: seq<Item>, opt: Options, k: nat)
    requires k <= |items|
    ensures |ReadItems(items, opt)| == |items|
    ensures ReadItems(items, opt)[..k] == ReadItems(items[..k], opt)
  {
    ReadLength(items, opt);
    if k == |items| {
      assert items[..k] == items;
    } else {
      var before := items[..|items| - 1];
      ReadTake(before, opt, k);
      assert before[..k] == items[..k];
      assert ReadItems(items, opt) == ReadItems(before, opt) + [ReadItem(items[|items| - 1], before, opt)];
    }
  }

  lemma ReadAt(items: seq<Item>, opt: Options, k: nat)
    requires k < |items|
    ensures |ReadItems(items, opt)| == |items|
    ensures ReadItems(items, opt)[k] == ReadItem(items[k], items[..k], opt)
  {
    ReadTake(items, opt, k + 1);
    ReadLength(items[..k], opt);
    assert items[..k + 1][..k] == items[..k];
    assert ReadItems(items, opt)[k] == ReadItems(items, opt)[..k + 1][k];
  }

  lemma ReadRefs(items: seq<Item>, opt: Options)
    ensures |ReadItems(items, opt)| == |items|
    ensures forall j :: 0 <= j < |items| ==> ReadItems(items, opt)[j].ref == RefName(j)
  {
    ReadTake(items, opt, 0);
    forall j | 0 <= j < |items| ensures ReadItems(items, opt)[j].ref == RefName(j) { ReadAt(items, opt, j); }
  }

  lemma {:induction false} RawAiRefsAt(read: seq<AiLine>, k: nat)
    requires k < |read| && forall j :: 0 <= j < |read| ==> read[j].ref == RefName(j)
    ensures RefName(k) in RawAiRefs(read)
    ensures RawAiRefs(read)[RefName(k)] ==
            RoleRef(ToLower(read[k].role), read[k].name, Some(read[k].nth.GetOr(Unindexed(read[..k], AiKey(read[k])))))
  {
    var n := |read| - 1;
    if k < n {
      RawAiRefsAt(read[..n], k);
      assert read[..n][..k] == read[..k];
      if RefName(k) == RefName(n) { RefNamesDiffer(k, n); }
    }
  }

  lemma {:induction false} RawAiRefsKeys(read: seq<AiLine>, ref: string)
    requires forall j :: 0 <= j < |read| ==> read[j].ref == RefName(j)
    ensures ref in RawAiRefs(read) <==> IsRefUpTo(|read|, ref)
  {
    if read != [] {
      var n := |read| - 1;
      RawAiRefsKeys(read[..n], ref);
      LastAiKey(read);
      NamesUpTo(n, ref);
    }
  }

  lemma LastAiKey(read: seq<AiLine>)
    requires read != []
    ensures RawAiRefs(read).Keys == RawAiRefs(read[..|read| - 1]).Keys + {read[|read| - 1].ref}
  {
  }

  /** With every name shown, the keys read are the keys printed. */
  lemma {:induction false} SameCounts(items: seq<Item>, opt: Options, key: string)
    requires forall item :: item in items ==> NameIsShown(item, opt)
    ensures AiCount(ReadItems(items, opt), key) == Count(items, key)
    ensures Unindexed(ReadItems(items, opt), key) <= Count(items, key)
  {
    if items != [] {
      var n := |items| - 1;
      assert items[n] in items;
      SameCounts(items[..n], opt, key);
      var read := ReadItems(items, opt);
      assert read[..|read| - 1] == ReadItems(items[..n], opt);
    }
  }

  ghost function ReadBack(items: seq<Item>, opt: Options): map<string, RoleRef> {
    Disambiguated(RawAiRefs(ReadItems(items, opt)), AiDuplicates(ReadItems(items, opt)))
  }

  lemma RefsAt(items: seq<Item>, k: nat)
    requires k < |items|
    ensures var key := ItemKey(items[k]);
      && RefName(k) in Refs(items)
      && Refs(items)[RefName(k)] ==
         RoleRef(ToLower(items[k].role), items[k].name,
                 if Count(items, key) > 1 then Some(Count(items[..k], key)) else None)
  {
    RawRefsAt(items, k);
  }

  lemma ReadBackAt(items: seq<Item>, opt: Options, k: nat)
    requires k < |items|
    ensures var read, item := ReadItems(items, opt), items[k];
      var key := KeyOf(ToLower(item.role), ShownName(item, opt));
      var nth := ReadNth(Count(items[..k], ItemKey(item)), item.suffix);
      && RefName(k) in ReadBack(items, opt)
      && ReadBack(items, opt)[RefName(k)] ==
         RoleRef(ToLower(item.role), ShownName(item, opt),
                 if AiCount(read, key) > 1 then Some(nth.GetOr(Unindexed(ReadItems(items[..k], opt), key))) else None)
  {
    var read := ReadItems(items, opt);
    ReadRefs(items, opt);
    ReadAt(items, opt, k);
    ReadTake(items, opt, k);
    RawAiRefsAt(read, k);
  }

  /** With every name shown, the index read is the one printed, or else what the suffix and the unindexed equals
      before it make of it. */
  lemma ShownRefIsRead(items: seq<Item>, opt: Options, k: nat)
    requires k < |items| && forall item :: item in items ==> NameIsShown(item, opt)
    ensures var item, key := items[k], ItemKey(items[k]);
      var before := Count(items[..k], key);
      && RefName(k) in ReadBack(items, opt)
      && ReadBack(items, opt)[RefName(k)] ==
         RoleRef(ToLower(item.role), item.name,
                 if Count(items, key) > 1 then Some(ReadNth(before, item.suffix).GetOr(Unindexed(ReadItems(items[..k], opt), key)))
                 else None)
      && Unindexed(ReadItems(items[..k], opt), key) <= before
  {
    assert items[k] in items;
    assert ShownName(items[k], opt) == items[k].name;
    ReadBackAt(items, opt, k);
    SameCounts(items, opt, ItemKey(items[k]));
    SameCounts(items[..k], opt, ItemKey(items[k]));
  }

  lemma ShownRefsAgree(items: seq<Item>, opt: Options, k: nat)
    requires k < |items| && forall item :: item in items ==> NameIsShown(item, opt)
    ensures RefName(k) in Refs(items) && RefName(k) in ReadBack(items, opt)
    ensures Refs(items)[RefName(k)] == ReadBack(items, opt)[RefName(k)] <==> IndexIsRead(items, k)
  {
    RefsAt(items, k);
    ShownRefIsRead(items, opt, k);
  }

  lemma HiddenNamesAreLost(items: seq<Item>, opt: Options, k: nat)
    requires k < |items| && !NameIsShown(items[k], opt)
    ensures Refs(items) != ReadBack(items, opt)
  {
    RefsAt(items, k);
    ReadBackAt(items, opt, k);
    assert Refs(items)[RefName(k)].name != ReadBack(items, opt)[RefName(k)].name;
  }

  lemma AllReadBack(items: seq<Item>, opt: Options)
    requires forall k :: 0 <= k < |items| ==> ReadsBack(items, opt, k)
    ensures Refs(items) == ReadBack(items, opt)
  {
    forall item | item in items ensures NameIsShown(item, opt) {
      var k :| 0 <= k < |items| && items[k] == item;
      assert ReadsBack(items, opt, k);
    }
    ReadRefs(items, opt);
    forall ref ensures ref in Refs(items) <==> ref in ReadBack(items, opt) {
      RawRefsKeys(items, ref);
      RawAiRefsKeys(ReadItems(items, opt), ref);
    }
    forall ref | ref in Refs(items) ensures Refs(items)[ref] == ReadBack(items, opt)[ref] {
      RawRefsKeys(items, ref);
      var k :| 0 <= k < |items| && RefName(k) == ref;
      assert ReadsBack(items, opt, k);
      ShownRefsAgree(items, opt, k);
    }
  }

  lemma OneDoesNotReadBack(items: seq<Item>, opt: Options, k: nat)
    requires k < |items| && !ReadsBack(items, opt, k)
    ensures Refs(items) != ReadBack(items, opt)
  {
    if j :| 0 <= j < |items| && !NameIsShown(items[j], opt) {
      HiddenNamesAreLost(items, opt, j);
    } else {
      ShownRefsAgree(items, opt, k);
    }
  }

  /** Printing and parsing undo each other: whatever the options, if no other line reads as if it had a ref,
      reading the printed text gives back every ref with its role, name and index exactly when no name is empty or
      cut, and no first of several equals carries a suffix that reads as another index. In an interactive-only
      snapshot there are no other lines. */
  lemma PrintedSnapshotReadsBack(text: string, opt: Options)
    requires opt.interactiveOnly || OthersShowNoRef(Split(text, '\n'), opt)
    ensures AiSnapshot(AriaSnapshot(text, opt).text, DEFAULTS).refs == AriaSnapshot(text, opt).refs <==>
            EveryItemReadsBack(Items(Split(text, '\n'), opt), opt)
  {
    var items := Items(Split(text, '\n'), opt);
    if opt.interactiveOnly { FlatShowsNoOther(Split(text, '\n'), opt); }
    PrintedTextIsRead(text, opt);
    assert AiSnapshot(AriaSnapshot(text, opt).text, DEFAULTS).refs == ReadBack(items, opt);
    if k :| 0 <= k < |items| && !ReadsBack(items, opt, k) {
      OneDoesNotReadBack(items, opt, k);
    } else {
      AllReadBack(items, opt);
    }
  }

  // ---------------------------------------------------------------- Refs that other lines show

  lemma {:induction false} PlainIsPrinted(lines: seq<string>, opt: Options, line: string)
    requires line in lines && Choose(line, opt).Plain?
    ensures Choose(line, opt).text in Printed(lines, opt)
  {
    var init := lines[..|lines| - 1];
    if line in init { PlainIsPrinted(init, opt, line); } else { assert line == lines[|lines| - 1]; }
  }

  lemma {:induction false} ReadLinesAreItems(lines: seq<string>, line: string)
    requires line in lines && ParseAi(line).Some?
    ensures ParseAi(line).value in AiItems(lines, DEFAULTS)
  {
    var init := lines[..|lines| - 1];
    ByDefaultAllAreWanted(line);
    if line in init { ReadLinesAreItems(init, line); } else { assert line == lines[|lines| - 1]; }
  }

  lemma {:induction false} ReadRefsAreRecorded(read: seq<AiLine>, item: AiLine)
    requires item in read
    ensures item.ref in RawAiRefs(read)
  {
    var before := read[..|read| - 1];
    LastAiKey(read);
    if item in before { ReadRefsAreRecorded(before, item); } else { assert item == read[|read| - 1]; }
  }

  /** The condition on the other lines is needed: one that reads with a ref the snapshot did not give out is read
      back as an element of its own. */
  lemma StrangeRefsAreRead(text: string, opt: Options, line: string)
    requires line in Split(text, '\n') && Choose(line, opt).Plain? && ParseAi(Choose(line, opt).text).Some?
    requires !IsRefUpTo(|Items(Split(text, '\n'), opt)|, ParseAi(Choose(line, opt).text).value.ref)
    ensures AiSnapshot(AriaSnapshot(text, opt).text, DEFAULTS).refs != AriaSnapshot(text, opt).refs
  {
    var lines, shown := Split(text, '\n'), Choose(line, opt).text;
    var printed := Printed(lines, opt);
    SplitIsApart(text, '\n');
    PrintedIsApart(lines, opt);
    WholeTextIsRead(printed, opt);
    PlainIsPrinted(lines, opt, line);
    ReadLinesAreItems(printed, shown);
    ReadRefsAreRecorded(AiItems(printed, DEFAULTS), ParseAi(shown).value);
    RawRefsKeys(Items(lines, opt), ParseAi(shown).value.ref);
    assert ParseAi(shown).value.ref in AiSnapshot(AriaSnapshot(text, opt).text, DEFAULTS).refs;
    assert ParseAi(shown).value.ref !in AriaSnapshot(text, opt).refs;
  }
}
