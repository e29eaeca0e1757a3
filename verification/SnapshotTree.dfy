/** A printed snapshot follows its page line by line: what each line shows, and how deep it stands. */
module SnapshotTree {
  import opened Wrappers
  import opened Text
  import opened CompactTree
  import opened SnapshotLines
  import opened RoleSnapshot
  import opened SnapshotRoundTrip
  import opened RefLocators

  // ---------------------------------------------------------------- Which page line a printed line comes from

  /** The page lines that are printed, in order. */
  function Sources(lines: seq<string>, opt: Options): seq<nat> {
    if lines == [] then []
    else
      var before := Sources(lines[..|lines| - 1], opt);
      if Choose(lines[|lines| - 1], opt).Skip? then before else before + [|lines| - 1]
  }

  lemma {:induction false} SourcesAre(lines: seq<string>, opt: Options)
    ensures |Sources(lines, opt)| == |Printed(lines, opt)|
    ensures forall p :: 0 <= p < |Sources(lines, opt)| ==> Sources(lines, opt)[p] < |lines|
    ensures forall p, q :: 0 <= p < q < |Sources(lines, opt)| ==> Sources(lines, opt)[p] < Sources(lines, opt)[q]
  {
    if lines != [] { SourcesAre(lines[..|lines| - 1], opt); }
  }

  lemma PrintedStep(lines: seq<string>, opt: Options)
    requires lines != []
    ensures var init, last := lines[..|lines| - 1], lines[|lines| - 1];
      Printed(lines, opt) ==
      match Choose(last, opt)
      case Skip => Printed(init, opt)
      case Plain(text) => Printed(init, opt) + [text]
      case Give(item) => Printed(init, opt) + [PrintItem(item, Items(init, opt), opt)]
  {
  }

  /** What line `n` adds is printed behind what the lines before it print. */
  lemma {:induction false} PrintedAt(lines: seq<string>, opt: Options, n: nat)
    requires n < |lines| && !Choose(lines[n], opt).Skip?
    ensures var at := |Printed(lines[..n], opt)|;
      && at < |Printed(lines, opt)| && at < |Sources(lines, opt)| && Sources(lines, opt)[at] == n
      && Printed(lines, opt)[at] ==
         match Choose(lines[n], opt)
         case Plain(text) => text
         case Give(item) => PrintItem(item, Items(lines[..n], opt), opt)
         case Skip => ""
  {
    var init := lines[..|lines| - 1];
    SourcesAre(init, opt);
    PrintedStep(lines, opt);
    if n < |init| {
      PrintedAt(init, opt, n);
      assert init[..n] == lines[..n];
    } else {
      assert init == lines[..n];
    }
  }

  lemma SourcesPrint(lines: seq<string>, opt: Options, p: nat)
    requires p < |Sources(lines, opt)|
    ensures Sources(lines, opt)[p] < |lines|
    ensures var n := Sources(lines, opt)[p]; !Choose(lines[n], opt).Skip? && |Printed(lines[..n], opt)| == p
  {
    SourcesAre(lines, opt);
    SourceIsChosen(lines, opt, p);
    var n := Sources(lines, opt)[p];
    PrintedAt(lines, opt, n);
    var at := |Printed(lines[..n], opt)|;
    assert !(at < p) && !(p < at);
  }

  lemma {:induction false} SourceIsChosen(lines: seq<string>, opt: Options, p: nat)
    requires p < |Sources(lines, opt)|
    ensures Sources(lines, opt)[p] < |lines| && !Choose(lines[Sources(lines, opt)[p]], opt).Skip?
  {
    var init := lines[..|lines| - 1];
    if p < |Sources(init, opt)| { SourceIsChosen(init, opt, p); }
  }

  // ---------------------------------------------------------------- What a page line says

  lemma QuoteIsFound(name: string, suffix: string)
    requires '"' !in name
    ensures QuotedName(" \"" + name + "\"" + suffix) == Some((name, suffix))
  {
    var s, inner := " \"" + name + "\"" + suffix, name + ("\"" + suffix);
    SpanIs(s, IsSpace, 1);
    assert s[2..] == inner;
    SpanIs(inner, (c: char) => c != '"', |name|);
    assert inner[..|name|] == name && inner[|name| + 1..] == suffix;
  }

  /** A page line with a role and a quoted name behind a blank is read as its parts. */
  lemma NamedLinesParse(prefix: string, role: string, name: string, suffix: string)
    requires IsPrefix(prefix) && IsRole(role) && '"' !in name
    ensures ParseAria(prefix + (role + (" \"" + name + "\"" + suffix))) == Some(AriaLine(prefix, role, Some(name), suffix))
  {
    var tail := " \"" + name + "\"" + suffix;
    RoleAndTail(prefix, role, tail);
    QuoteIsFound(name, suffix);
  }

  /** One without a name, and with anything but a word behind its role, has none, and keeps what follows. */
  lemma UnnamedLinesParse(prefix: string, role: string, suffix: string)
    requires IsPrefix(prefix) && IsRole(role) && (suffix != "" ==> !IsWord(suffix[0]))
    requires suffix == "" || !IsSpace(suffix[0]) || '"' !in suffix
    ensures ParseAria(prefix + (role + suffix)) == Some(AriaLine(prefix, role, None, suffix))
  {
    RoleAndTail(prefix, role, suffix);
    assert forall i :: 0 <= i < |suffix| && '"' !in suffix ==> suffix[i] != '"';
  }

  lemma RoleAndTail(prefix: string, role: string, tail: string)
    requires IsPrefix(prefix) && IsRole(role) && (tail != "" ==> !IsWord(tail[0]))
    ensures ParseAria(prefix + (role + tail)) ==
            match QuotedName(tail)
            case Some((name, suffix)) => Some(AriaLine(prefix, role, Some(name), suffix))
            case None => Some(AriaLine(prefix, role, None, tail))
  {
    var rest := role + tail;
    assert rest[0] == role[0] && IsWord(role[0]);
    PrefixIsRead(prefix, rest);
    assert (prefix + rest)[|prefix|..] == rest && (prefix + rest)[..|prefix|] == prefix;
    SpanIs(rest, IsWord, |role|);
    assert rest[..|role|] == role && rest[|role|..] == tail;
  }

  /** A line that does not begin with a dash behind its blanks shows no element. */
  lemma OtherLinesDoNotParse(line: string)
    requires var n := Span(line, IsSpace); n < |line| ==> line[n] != '-'
    ensures ParseAria(line) == None && ParseAi(line) == None
  {
  }

  /** A name is shown whole unless it is longer than the limit; then as much of its front as fits, without blanks at
      the end, and three dots in one. */
  lemma LongNamesAreCut(name: Option<string>, max: Option<nat>)
    ensures var shown := Truncate(name, max);
      if name.Some? && max.Some? && 0 < max.value < |name.value| then
        && shown.Some? && shown.value == StripRight(name.value[..max.value]) + ['\U{2026}']
        && |shown.value| <= max.value + 1
      else shown == name
  {
    if name.Some? && max.Some? && 0 < max.value < |name.value| { StripRightIsPrefix(name.value[..max.value]); }
  }

  // ---------------------------------------------------------------- What a line shows

  /** The ref and the index that the k-th item is printed with. */
  function Marks(items: seq<Item>, k: nat): string
    requires k < |items|
  {
    " [ref=" + RefName(k) + "]" +
    var nth := Count(items[..k], ItemKey(items[k])); if nth > 0 then " [nth=" + Decimal(nth) + "]" else ""
  }

  /** An element that a tree leaves out: a wrapper without a name, in a compact one. */
  predicate IsBareWrapper(line: string, opt: Options) {
    opt.compact && ParseAria(line).Some?
    && ToLower(ParseAria(line).value.role) in STRUCTURAL_ROLES && ParseAria(line).value.name.GetOr("") == ""
  }

  lemma TreeChoices(line: string, opt: Options)
    requires !opt.interactiveOnly
    ensures Choose(line, opt).Skip? <==> !WithinDepth(line, opt) || IsBareWrapper(line, opt)
    ensures !Choose(line, opt).Skip? && ParseAria(line).None? ==> Choose(line, opt) == Plain(line)
    ensures !Choose(line, opt).Skip? && ParseAria(line).Some? ==>
      var AriaLine(prefix, role, name, suffix) := ParseAria(line).value;
      if GetsRef(ElementOf(ParseAria(line).value), opt) then Choose(line, opt) == Give(Item(prefix, role, name, suffix))
      else Choose(line, opt) ==
           Plain(if Truncate(name, opt.maxNameLength) == name then line
                 else prefix + role + PrintName(Truncate(name, opt.maxNameLength)) + suffix)
  {
  }

  lemma ItemAtLine(lines: seq<string>, opt: Options, n: nat, item: Item)
    requires n < |lines| && Choose(lines[n], opt) == Give(item)
    ensures var k := |Items(lines[..n], opt)|;
      k < |Items(lines, opt)| && Items(lines, opt)[k] == item && Items(lines, opt)[..k] == Items(lines[..n], opt)
  {
    ItemsGrow(lines, opt, n + 1);
    assert lines[..n + 1][..n] == lines[..n];
  }

  lemma {:induction false} ItemsGrow(lines: seq<string>, opt: Options, n: nat)
    requires n <= |lines|
    ensures Items(lines[..n], opt) <= Items(lines, opt)
  {
    if n == |lines| {
      assert lines[..n] == lines;
    } else {
      var init := lines[..|lines| - 1];
      ItemsGrow(init, opt, n);
      assert init[..n] == lines[..n];
    }
  }

  lemma PrintedWithMarks(items: seq<Item>, k: nat, opt: Options)
    requires k < |items|
    ensures var Item(prefix, role, name, suffix) := items[k];
      PrintItem(items[k], items[..k], opt) ==
      prefix + role + PrintName(Truncate(name, opt.maxNameLength)) + Marks(items, k) + suffix
  {
    var Item(prefix, role, name, suffix) := items[k];
    var shown, ref := PrintName(Truncate(name, opt.maxNameLength)), PrintRef(RefName(k));
    var nth := PrintNth(Count(items[..k], ItemKey(items[k])));
    assert Marks(items, k) == ref + nth;
    assert prefix + (role + (shown + (ref + (nth + suffix)))) == prefix + role + shown + (ref + nth) + suffix;
  }

  /** A tree shows its page line by line: a line that is too deep, and in a compact tree a wrapper without a name, is
      left out; an element that gets a ref shows its own prefix, role and suffix around its shown name and the marks;
      any other line is shown as it is, but for a name that is too long. */
  lemma TreeFollowsThePage(lines: seq<string>, opt: Options, n: nat)
    requires !opt.interactiveOnly && n < |lines|
    ensures var at, k, line := |Printed(lines[..n], opt)|, |Items(lines[..n], opt)|, lines[n];
      if !WithinDepth(line, opt) || IsBareWrapper(line, opt) then
        Printed(lines[..n + 1], opt) == Printed(lines[..n], opt)
      else
        && at < |Printed(lines, opt)|
        && match ParseAria(line)
           case None => Printed(lines, opt)[at] == line
           case Some(parsed) =>
             var AriaLine(prefix, role, name, suffix) := parsed;
             var front := prefix + role + PrintName(Truncate(name, opt.maxNameLength));
             if GetsRef(ElementOf(parsed), opt) then
               k < |Items(lines, opt)| && Printed(lines, opt)[at] == front + Marks(Items(lines, opt), k) + suffix
             else Printed(lines, opt)[at] == if Truncate(name, opt.maxNameLength) == name then line else front + suffix
  {
    TreeChoices(lines[n], opt);
    if Choose(lines[n], opt).Skip? {
      PrintedStep(lines[..n + 1], opt);
      assert lines[..n + 1][..n] == lines[..n];
    } else {
      PrintedAt(lines, opt, n);
      if Choose(lines[n], opt).Give? {
        ItemAtLine(lines, opt, n, Choose(lines[n], opt).item);
        PrintedWithMarks(Items(lines, opt), |Items(lines[..n], opt)|, opt);
      }
    }
  }

  lemma ItemLineParses(lines: seq<string>, opt: Options, k: nat)
    requires k < |Items(lines, opt)|
    ensures k < |ItemLines(lines, opt)| && ItemLines(lines, opt)[k] < |lines|
    ensures var n := ItemLines(lines, opt)[k];
      && ParseAria(lines[n]).Some? && !Choose(lines[n], opt).Skip? && |Items(lines[..n], opt)| == k
      && (!opt.interactiveOnly ==> GetsRef(ElementOf(ParseAria(lines[n]).value), opt))
  {
    ItemLinesAre(lines, opt);
    assert IsLineOf(lines, opt, k, ItemLines(lines, opt)[k]);
  }

  lemma MarksGoIn(line: string, front: string, marks: string, suffix: string)
    requires line == front + suffix
    ensures exists i :: 0 <= i <= |line| && front + marks + suffix == line[..i] + marks + line[i..]
  {
    assert line[..|front|] == front && line[|front|..] == suffix;
  }

  /** The flat list shows its elements one below the other, each with a suffix only if that has a bracket. */
  lemma FlatListShowsElements(lines: seq<string>, opt: Options, k: nat)
    requires opt.interactiveOnly && k < |Items(lines, opt)|
    ensures k < |Printed(lines, opt)| && k < |ItemLines(lines, opt)| && ItemLines(lines, opt)[k] < |lines|
    ensures var n := ItemLines(lines, opt)[k];
      && ParseAria(lines[n]).Some?
      && var AriaLine(_, role, name, suffix) := ParseAria(lines[n]).value;
      && ToLower(role) in INTERACTIVE_ROLES
      && Printed(lines, opt)[k] ==
         "- " + role + PrintName(Truncate(name, opt.maxNameLength)) + Marks(Items(lines, opt), k) +
         if '[' in suffix then suffix else ""
  {
    ItemLineParses(lines, opt, k);
    var n := ItemLines(lines, opt)[k];
    FlatPrintsItems(lines[..n], opt);
    PrintedAt(lines, opt, n);
    ItemAtLine(lines, opt, n, Choose(lines[n], opt).item);
    PrintedWithMarks(Items(lines, opt), k, opt);
  }

  lemma {:induction false} FlatPrintsItems(lines: seq<string>, opt: Options)
    requires opt.interactiveOnly
    ensures |Printed(lines, opt)| == |Items(lines, opt)|
  {
    if lines != [] { FlatPrintsItems(lines[..|lines| - 1], opt); }
  }

  // ---------------------------------------------------------------- How deep a line stands

  lemma SamePrefixSameIndent(prefix: string, a: string, b: string)
    requires IsPrefix(prefix)
    ensures Indent(prefix + a) == Indent(prefix + b)
  {
    PrefixIndents(prefix, a);
    PrefixIndents(prefix, b);
  }

  lemma PrefixIndents(prefix: string, rest: string)
    requires IsPrefix(prefix)
    ensures Span(prefix + rest, IsSpace) == Span(prefix, IsSpace)
  {
    var n := Span(prefix, IsSpace);
    assert (prefix + rest)[n] == prefix[n] && forall i :: 0 <= i < n ==> (prefix + rest)[i] == prefix[i];
    SpanIs(prefix + rest, IsSpace, n);
  }

  lemma ParsedBegins(line: string)
    requires ParseAria(line).Some?
    ensures IsPrefix(ParseAria(line).value.prefix) && ParseAria(line).value.prefix <= line
  {
    RoleStartEndsAPrefix(line);
  }

  lemma Regroup(a: string, b: string, c: string, d: string)
    ensures a + b + c + d == a + (b + c + d)
  {
  }

  lemma SamePrefixSameDepth(prefix: string, middle: string, suffix: string, line: string)
    requires IsPrefix(prefix) && prefix <= line
    ensures Indent(prefix + middle + suffix) == Indent(line)
  {
    var rest := line[|prefix|..];
    assert line == prefix + rest;
    assert prefix + middle + suffix == prefix + (middle + suffix);
    SamePrefixSameIndent(prefix, middle + suffix, rest);
  }

  /** A line that begins with the parts of a page line, whatever is put in behind them, stands as deep. */
  lemma PartsStandAsDeep(line: string, prefix: string, role: string, shown: string, marks: string, suffix: string)
    requires IsPrefix(prefix) && prefix <= line
    ensures Indent(prefix + role + shown + marks + suffix) == Indent(line) == Indent(prefix + role + shown + suffix)
  {
    Regroup(prefix, role, shown, marks);
    SamePrefixSameDepth(prefix, role + shown + marks, suffix, line);
    assert prefix + role + shown == prefix + (role + shown);
    SamePrefixSameDepth(prefix, role + shown, suffix, line);
  }

  lemma PrintedStandsAsDeep(lines: seq<string>, opt: Options, n: nat)
    requires !opt.interactiveOnly && n < |lines| && WithinDepth(lines[n], opt) && !IsBareWrapper(lines[n], opt)
    ensures |Printed(lines[..n], opt)| < |Printed(lines, opt)|
    ensures Indent(Printed(lines, opt)[|Printed(lines[..n], opt)|]) == Indent(lines[n])
  {
    TreeFollowsThePage(lines, opt, n);
    if ParseAria(lines[n]).Some? {
      var AriaLine(prefix, role, name, suffix) := ParseAria(lines[n]).value;
      var k := |Items(lines[..n], opt)|;
      ParsedBegins(lines[n]);
      PartsStandAsDeep(lines[n], prefix, role, PrintName(Truncate(name, opt.maxNameLength)),
                       if k < |Items(lines, opt)| then Marks(Items(lines, opt), k) else "", suffix);
    }
  }

  /** A tree stands as its page does: each printed line is as deep as the page line it comes from. */
  lemma TreesKeepTheirShape(lines: seq<string>, opt: Options, p: nat)
    requires !opt.interactiveOnly && p < |Printed(lines, opt)|
    ensures p < |Sources(lines, opt)| && Sources(lines, opt)[p] < |lines|
    ensures Indent(Printed(lines, opt)[p]) == Indent(lines[Sources(lines, opt)[p]])
  {
    SourcesAre(lines, opt);
    SourcesPrint(lines, opt, p);
    TreeChoices(lines[Sources(lines, opt)[p]], opt);
    PrintedStandsAsDeep(lines, opt, Sources(lines, opt)[p]);
  }

  /** In a tree, a ref is put into the line of its element: the printed line stands as deep as the page line, begins
      with its prefix and role and ends with its suffix; and if the whole name is shown, as the page writes it, it is
      that line with the marks put in behind the name and nothing else. */
  lemma RefLinesAreTheirPageLines(lines: seq<string>, opt: Options, k: nat)
    requires !opt.interactiveOnly && k < |Items(lines, opt)|
    ensures k < |ItemLines(lines, opt)| && ItemLines(lines, opt)[k] < |lines|
    ensures var n := ItemLines(lines, opt)[k];
      var at := |Printed(lines[..n], opt)|;
      && ParseAria(lines[n]).Some? && at < |Printed(lines, opt)|
      && var AriaLine(prefix, role, name, suffix) := ParseAria(lines[n]).value;
      && Printed(lines, opt)[at] ==
         prefix + role + PrintName(Truncate(name, opt.maxNameLength)) + Marks(Items(lines, opt), k) + suffix
      && Indent(Printed(lines, opt)[at]) == Indent(lines[n])
      && (Truncate(name, opt.maxNameLength) == name && lines[n] == prefix + role + PrintName(name) + suffix ==>
            exists i :: 0 <= i <= |lines[n]| && Printed(lines, opt)[at] == lines[n][..i] + Marks(Items(lines, opt), k) + lines[n][i..])
  {
    ItemLineParses(lines, opt, k);
    var n := ItemLines(lines, opt)[k];
    TreeChoices(lines[n], opt);
    TreeFollowsThePage(lines, opt, n);
    var at := |Printed(lines[..n], opt)|;
    var AriaLine(prefix, role, name, suffix) := ParseAria(lines[n]).value;
    ParsedBegins(lines[n]);
    PartsStandAsDeep(lines[n], prefix, role, PrintName(Truncate(name, opt.maxNameLength)), Marks(Items(lines, opt), k), suffix);
    if Truncate(name, opt.maxNameLength) == name && lines[n] == prefix + role + PrintName(name) + suffix {
      MarksGoIn(lines[n], prefix + role + PrintName(name), Marks(Items(lines, opt), k), suffix);
    }
  }

  lemma {:induction false} RefIsInside(front: string, rest: string)
    ensures HasRef(front + ("[ref=" + rest))
  {
    var s := front + ("[ref=" + rest);
    if front == "" {
      assert s == "[ref=" + rest;
      assert "[ref=" <= s;
    } else {
      assert s[1..] == front[1..] + ("[ref=" + rest);
      RefIsInside(front[1..], rest);
    }
  }

  lemma MarkedLinesHaveRefs(front: string, items: seq<Item>, k: nat, suffix: string)
    requires k < |items|
    ensures HasRef(front + Marks(items, k) + suffix)
  {
    var nth := Count(items[..k], ItemKey(items[k]));
    var tail := if nth > 0 then " [nth=" + Decimal(nth) + "]" else "";
    assert " [ref=" == " " + "[ref=";
    assert front + Marks(items, k) + suffix == (front + " ") + ("[ref=" + (RefName(k) + "]" + tail + suffix));
    RefIsInside(front + " ", RefName(k) + "]" + tail + suffix);
  }

  lemma RefLineHasRef(lines: seq<string>, opt: Options, k: nat)
    requires !opt.interactiveOnly && k < |Items(lines, opt)|
    ensures k < |ItemLines(lines, opt)| && ItemLines(lines, opt)[k] < |lines|
    ensures var at := |Printed(lines[..ItemLines(lines, opt)[k]], opt)|;
      at < |Printed(lines, opt)| && HasRef(Printed(lines, opt)[at])
  {
    RefLinesAreTheirPageLines(lines, opt, k);
    var AriaLine(prefix, role, name, suffix) := ParseAria(lines[ItemLines(lines, opt)[k]]).value;
    MarkedLinesHaveRefs(prefix + role + PrintName(Truncate(name, opt.maxNameLength)), Items(lines, opt), k, suffix);
  }

  /** What lies below a line on the page lies below it in print. */
  lemma BelowStaysBelow(lines: seq<string>, opt: Options, a: nat, b: nat)
    requires !opt.interactiveOnly && a < |Sources(lines, opt)| && b < |Sources(lines, opt)|
    requires Below(lines, Sources(lines, opt)[a], Sources(lines, opt)[b])
    ensures Below(Printed(lines, opt), a, b)
  {
    SourcesAre(lines, opt);
    TreesKeepTheirShape(lines, opt, a);
    var from := Sources(lines, opt);
    assert a < b;
    forall q | a < q <= b ensures Indent(Printed(lines, opt)[q]) > Indent(Printed(lines, opt)[a]) {
      TreesKeepTheirShape(lines, opt, q);
      assert from[a] < from[q] <= from[b];
    }
  }

  /** What stands above a ref on the page stays above it: compacting keeps every printed line below which, on the
      page, an element with a ref lies. */
  lemma ParentsOfRefsStay(lines: seq<string>, opt: Options, a: nat, k: nat)
    requires !opt.interactiveOnly && k < |Items(lines, opt)| && k < |ItemLines(lines, opt)|
    requires a < |Sources(lines, opt)| && Below(lines, Sources(lines, opt)[a], ItemLines(lines, opt)[k])
    ensures a < |Printed(lines, opt)| && Kept(Printed(lines, opt), a)
  {
    var n := ItemLines(lines, opt)[k];
    SourcesAre(lines, opt);
    ItemLineParses(lines, opt, k);
    PrintedAt(lines, opt, n);
    var b := |Printed(lines[..n], opt)|;
    BelowStaysBelow(lines, opt, a, b);
    RefLineHasRef(lines, opt, k);
    LeadsThere(Printed(lines, opt), a, b);
  }

  lemma LeadsThere(printed: seq<string>, a: nat, b: nat)
    requires Below(printed, a, b) && HasRef(printed[b])
    ensures Kept(printed, a)
  {
  }

  /** The text is the printed lines, one below the other; of a compact tree, those that compacting keeps. */
  lemma TextIsThePrintedLines(text: string, opt: Options)
    ensures var printed := Printed(Split(text, '\n'), opt);
      var shown := if opt.compact && !opt.interactiveOnly then Compacted(printed) else printed;
      printed != [] && shown != [] ==> Split(AriaSnapshot(text, opt).text, '\n') == shown
  {
    var printed := Printed(Split(text, '\n'), opt);
    SplitIsApart(text, '\n');
    PrintedIsApart(Split(text, '\n'), opt);
    if printed != [] {
      SplitOfJoin(printed, '\n');
      var ns := CompactKeepsExactly(printed);
      if Compacted(printed) != [] { SplitOfJoin(Compacted(printed), '\n'); }
    }
  }

  // ---------------------------------------------------------------- Reading refs that are there

  /** A line the reader keeps: it carries a ref, and is interactive or within the depth where that is asked for. */
  predicate IsRead(line: string, opt: Options) {
    && ParseAi(line).Some?
    && (opt.interactiveOnly ==> ToLower(ParseAi(line).value.role) in INTERACTIVE_ROLES)
    && (opt.maxDepth.Some? ==> Indent(line) <= opt.maxDepth.value)
  }

  /** These lines, by number, are the ones to read, and these elements are read from them. */
  ghost predicate ReadsFrom(lines: seq<string>, wanted: string -> bool, parse: string -> Option<AiLine>,
                            ns: seq<nat>, kept: seq<string>, items: seq<AiLine>) {
    && (forall n: nat :: n in ns <==> n < |lines| && wanted(lines[n]))
    && (forall i, j :: 0 <= i < j < |ns| ==> ns[i] < ns[j])
    && |kept| == |items| == |ns|
    && forall i :: 0 <= i < |ns| ==> ns[i] < |lines| && kept[i] == lines[ns[i]] && parse(kept[i]) == Some(items[i])
  }

  lemma ReadsOneMore(init: seq<string>, last: string, wanted: string -> bool, parse: string -> Option<AiLine>,
                     ns: seq<nat>, kept: seq<string>, items: seq<AiLine>)
    requires ReadsFrom(init, wanted, parse, ns, kept, items)
    ensures wanted(last) && parse(last).Some? ==>
              ReadsFrom(init + [last], wanted, parse, ns + [|init|], kept + [last], items + [parse(last).value])
    ensures !wanted(last) ==> ReadsFrom(init + [last], wanted, parse, ns, kept, items)
  {
    var lines := init + [last];
    assert lines[|init|] == last && forall n :: 0 <= n < |init| ==> lines[n] == init[n];
  }

  lemma ReaderStep(init: seq<string>, last: string, opt: Options)
    ensures AiLines(init + [last], opt) == AiLines(init, opt) + if IsRead(last, opt) then [last] else []
    ensures AiItems(init + [last], opt) == AiItems(init, opt) + if IsRead(last, opt) then [ParseAi(last).value] else []
  {
    assert (init + [last])[..|init|] == init;
    WantedIsRead(last, opt);
  }

  lemma WantedIsRead(line: string, opt: Options)
    ensures Wanted(line, opt) <==> IsRead(line, opt)
  {
  }

  /** The reader keeps exactly the lines with a ref that the options admit, as they are and in order, and reads one
      element from each. */
  lemma {:induction false} ReaderKeepsExactly(lines: seq<string>, opt: Options) returns (ns: seq<nat>)
    ensures ReadsFrom(lines, line => IsRead(line, opt), ParseAi, ns, AiLines(lines, opt), AiItems(lines, opt))
  {
    ns := [];
    if lines != [] {
      var init, last := lines[..|lines| - 1], lines[|lines| - 1];
      ns := ReaderKeepsExactly(init, opt);
      assert lines == init + [last];
      ReadsOneMore(init, last, line => IsRead(line, opt), ParseAi, ns, AiLines(init, opt), AiItems(init, opt));
      ReaderStep(init, last, opt);
      if IsRead(last, opt) { ns := ns + [|init|]; }
    }
  }

  lemma {:induction false} ReadLinesAreApart(lines: seq<string>, opt: Options)
    requires Apart(lines, '\n')
    ensures Apart(AiLines(lines, opt), '\n')
  {
    if lines != [] {
      ReadLinesAreApart(lines[..|lines| - 1], opt);
      assert '\n' !in lines[|lines| - 1];
    }
  }

  /** The reader's text is the lines it kept, or, of a compact one, those that compacting keeps. */
  lemma TextIsTheReadLines(text: string, opt: Options)
    ensures var kept := AiLines(Split(text, '\n'), opt);
      var shown := if opt.compact then Compacted(kept) else kept;
      kept != [] && shown != [] ==> Split(AiSnapshot(text, opt).text, '\n') == shown
  {
    var kept := AiLines(Split(text, '\n'), opt);
    SplitIsApart(text, '\n');
    ReadLinesAreApart(Split(text, '\n'), opt);
    if kept != [] {
      SplitOfJoin(kept, '\n');
      var ns := CompactKeepsExactly(kept);
      if Compacted(kept) != [] { SplitOfJoin(Compacted(kept), '\n'); }
    }
  }

  /** The earlier elements with this key that carry no index of their own. */
  function UnindexedAt(items: seq<AiLine>, key: string): set<nat> {
    set j: nat | j < |items| && AiKey(items[j]) == key && items[j].nth.None?
  }

  lemma {:induction false} UnindexedAreCounted(items: seq<AiLine>, key: string)
    ensures Unindexed(items, key) == |UnindexedAt(items, key)|
  {
    if items != [] {
      var n := |items| - 1;
      UnindexedAreCounted(items[..n], key);
      var before := UnindexedAt(items[..n], key);
      assert UnindexedAt(items, key) == if AiKey(items[n]) == key && items[n].nth.None? then before + {n} else before;
    }
  }

  lemma {:induction false} AiCountsAre(items: seq<AiLine>, key: string)
    ensures AiCount(items, key) == |set j: nat | j < |items| && AiKey(items[j]) == key|
  {
    if items != [] {
      var n := |items| - 1;
      AiCountsAre(items[..n], key);
      var before := set j: nat | j < n && AiKey(items[..n][j]) == key;
      assert (set j: nat | j < |items| && AiKey(items[j]) == key) == if AiKey(items[n]) == key then before + {n} else before;
    }
  }

  lemma {:induction false} LastRefIsRecorded(read: seq<AiLine>, k: nat)
    requires k < |read| && forall j :: k < j < |read| ==> read[j].ref != read[k].ref
    ensures read[k].ref in RawAiRefs(read)
    ensures RawAiRefs(read)[read[k].ref] ==
            RoleRef(ToLower(read[k].role), read[k].name, Some(read[k].nth.GetOr(Unindexed(read[..k], AiKey(read[k])))))
  {
    var n := |read| - 1;
    if k < n {
      LastRefIsRecorded(read[..n], k);
      assert read[..n][..k] == read[..k];
    }
  }

  /** A ref is recorded with the role and name of the last line that carries it, and with an index exactly if another
      line has the same role and name: its own, or else the number of these before it that have none. */
  lemma ReadRefsTell(text: string, opt: Options, k: nat)
    requires var read := AiItems(Split(text, '\n'), opt); k < |read| && forall j :: k < j < |read| ==> read[j].ref != read[k].ref
    ensures var read, refs := AiItems(Split(text, '\n'), opt), AiSnapshot(text, opt).refs;
      var alike := set j: nat | j < |read| && AiKey(read[j]) == AiKey(read[k]);
      && read[k].ref in refs
      && refs[read[k].ref] ==
         RoleRef(ToLower(read[k].role), read[k].name,
                 if |alike| <= 1 then None
                 else if read[k].nth.Some? then read[k].nth
                 else Some(|UnindexedAt(read[..k], AiKey(read[k]))|))
  {
    var read := AiItems(Split(text, '\n'), opt);
    LastRefIsRecorded(read, k);
    AiCountsAre(read, AiKey(read[k]));
    UnindexedAreCounted(read[..k], AiKey(read[k]));
  }
}
