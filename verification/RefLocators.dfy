/** A ref handed out by a snapshot finds, on the same page, the element it was handed out for. */
module RefLocators {
  import opened Wrappers
  import opened Text
  import opened CompactTree
  import opened SnapshotLines
  import opened RoleSnapshot
  import opened SnapshotRoundTrip

  /** An element of the page, as its accessibility snapshot names it. */
  datatype Element = Element(role: string, name: string)

  function ElementOf(line: AriaLine): Element {
    Element(ToLower(line.role), line.name.GetOr(""))
  }

  /** The elements of the page in document order: the lines of its snapshot. */
  function Page(lines: seq<string>): seq<Element> {
    if lines == [] then []
    else
      var before := Page(lines[..|lines| - 1]);
      match ParseAria(lines[|lines| - 1]) case Some(line) => before + [ElementOf(line)] case None => before
  }

  // ---------------------------------------------------------------- Locators

  datatype Locator = Locator(role: string, name: Option<string>, nth: Option<nat>)

  predicate Matches(locator: Locator, element: Element) {
    element.role == locator.role && (locator.name.Some? ==> element.name == locator.name.value)
  }

  /** The elements with the role, and the exact name if one is asked for, in document order. */
  function Matching(page: seq<Element>, locator: Locator): seq<nat> {
    if page == [] then []
    else
      var before := Matching(page[..|page| - 1], locator);
      if Matches(locator, page[|page| - 1]) then before + [|page| - 1] else before
  }

  /** What the locator resolves to. */
  function Resolve(page: seq<Element>, locator: Locator): seq<nat> {
    var all := Matching(page, locator);
    if locator.nth.None? then all
    else if locator.nth.value < |all| then [all[locator.nth.value]]
    else []
  }

  function Normalized(ref: string): string {
    if "@" <= ref then ref[1..] else if "ref=" <= ref then ref[4..] else ref
  }

  /** The stored refs of the page turned into a locator; none for a ref the snapshot did not give. */
  function RefLocator(refs: map<string, RoleRef>, ref: string): Option<Locator> {
    if Normalized(ref) !in refs then None
    else
      var info := refs[Normalized(ref)];
      Some(Locator(info.role,
                   if info.name.GetOr("") != "" then info.name else None,
                   if info.nth.GetOr(0) > 0 then info.nth else None))
  }

  // ---------------------------------------------------------------- Which elements get a ref

  predicate GetsRef(e: Element, opt: Options) {
    if opt.interactiveOnly then e.role in INTERACTIVE_ROLES
    else
      && !(opt.compact && e.role in STRUCTURAL_ROLES && e.name == "")
      && (e.role in INTERACTIVE_ROLES || (e.role in CONTENT_ROLES && e.name != ""))
  }

  /** The elements a ref is handed out for, in the order the refs are numbered. */
  function Issued(page: seq<Element>, opt: Options): seq<nat> {
    if page == [] then []
    else
      var before := Issued(page[..|page| - 1], opt);
      if GetsRef(page[|page| - 1], opt) then before + [|page| - 1] else before
  }

  function ItemElement(item: Item): Element {
    Element(ToLower(item.role), item.name.GetOr(""))
  }

  function Elements(items: seq<Item>): seq<Element> {
    seq(|items|, k requires 0 <= k < |items| => ItemElement(items[k]))
  }

  predicate WithinDepth(line: string, opt: Options) {
    opt.maxDepth.None? || Indent(line) <= opt.maxDepth.value
  }

  lemma ChoiceFollowsElement(line: string, opt: Options)
    requires WithinDepth(line, opt)
    ensures Choose(line, opt).Give? <==> ParseAria(line).Some? && GetsRef(ElementOf(ParseAria(line).value), opt)
    ensures Choose(line, opt).Give? ==> ItemElement(Choose(line, opt).item) == ElementOf(ParseAria(line).value)
  {
    if ParseAria(line).Some? {
      if opt.interactiveOnly { FlatChoice(ParseAria(line).value, opt); } else { TreeChoice(line, ParseAria(line).value, opt); }
    }
  }

  lemma FlatChoice(parsed: AriaLine, opt: Options)
    requires opt.interactiveOnly
    ensures ChooseFlat(parsed).Give? <==> GetsRef(ElementOf(parsed), opt)
    ensures ChooseFlat(parsed).Give? ==> ItemElement(ChooseFlat(parsed).item) == ElementOf(parsed)
  {
  }

  lemma TreeChoice(line: string, parsed: AriaLine, opt: Options)
    requires !opt.interactiveOnly
    ensures ChooseInTree(line, parsed, opt).Give? <==> GetsRef(ElementOf(parsed), opt)
    ensures ChooseInTree(line, parsed, opt).Give? ==> ItemElement(ChooseInTree(line, parsed, opt).item) == ElementOf(parsed)
  {
  }

  lemma DeepLinesAreSkipped(line: string, opt: Options)
    requires !WithinDepth(line, opt)
    ensures Choose(line, opt) == Skip
  {
  }

  function IssuedElements(page: seq<Element>, opt: Options): seq<Element> {
    if page == [] then []
    else
      var before, last := IssuedElements(page[..|page| - 1], opt), page[|page| - 1];
      if GetsRef(last, opt) then before + [last] else before
  }

  /** The items of a snapshot are the elements a ref is handed out for. */
  lemma {:induction false} ItemsAreIssued(lines: seq<string>, opt: Options)
    requires opt.maxDepth.None?
    ensures Elements(Items(lines, opt)) == IssuedElements(Page(lines), opt)
  {
    if lines != [] {
      var init, last := lines[..|lines| - 1], lines[|lines| - 1];
      ItemsAreIssued(init, opt);
      ChoiceFollowsElement(last, opt);
      if Choose(last, opt).Give? { ElementsOneMore(Items(init, opt), Choose(last, opt).item); }
      if ParseAria(last).Some? { IssuedOneMore(Page(init), ElementOf(ParseAria(last).value), opt); }
    }
  }

  lemma ElementsOneMore(items: seq<Item>, item: Item)
    ensures Elements(items + [item]) == Elements(items) + [ItemElement(item)]
  {
  }

  lemma IssuedOneMore(page: seq<Element>, e: Element, opt: Options)
    ensures IssuedElements(page + [e], opt) == IssuedElements(page, opt) + if GetsRef(e, opt) then [e] else []
  {
    assert (page + [e])[..|page|] == page;
  }

  lemma {:induction false} IssuedAt(page: seq<Element>, opt: Options, k: nat)
    requires k < |IssuedElements(page, opt)|
    ensures |Issued(page, opt)| == |IssuedElements(page, opt)|
    ensures Issued(page, opt)[k] < |page| && page[Issued(page, opt)[k]] == IssuedElements(page, opt)[k]
    ensures IssuedElements(page, opt)[..k] == IssuedElements(page[..Issued(page, opt)[k]], opt)
  {
    var init := page[..|page| - 1];
    IssuedLength(page, opt);
    IssuedLength(init, opt);
    if k < |IssuedElements(init, opt)| {
      IssuedAt(init, opt, k);
      assert init[..Issued(init, opt)[k]] == page[..Issued(init, opt)[k]];
    } else {
      assert page[..|page| - 1] == init;
    }
  }

  lemma {:induction false} IssuedLength(page: seq<Element>, opt: Options)
    ensures |Issued(page, opt)| == |IssuedElements(page, opt)|
  {
    if page != [] { IssuedLength(page[..|page| - 1], opt); }
  }

  // ---------------------------------------------------------------- Counting equals

  function Occurrences(page: seq<Element>, e: Element): nat {
    if page == [] then 0
    else Occurrences(page[..|page| - 1], e) + if page[|page| - 1] == e then 1 else 0
  }

  function ByName(e: Element): Locator {
    Locator(e.role, Some(e.name), None)
  }

  /** An element stands, among its equals, at the number of equals before it. */
  lemma {:induction false} PlaceAmongEquals(page: seq<Element>, e: Element)
    ensures |Matching(page, ByName(e))| == Occurrences(page, e)
    ensures forall i :: 0 <= i < |page| && page[i] == e ==>
              Occurrences(page[..i], e) < Occurrences(page, e)
              && Matching(page, ByName(e))[Occurrences(page[..i], e)] == i
  {
    if page != [] {
      var init := page[..|page| - 1];
      PlaceAmongEquals(init, e);
      forall i | 0 <= i < |page| && page[i] == e
        ensures Occurrences(page[..i], e) < Occurrences(page, e)
        ensures Matching(page, ByName(e))[Occurrences(page[..i], e)] == i
      {
        if i < |init| { assert page[..i] == init[..i]; } else { assert page[..i] == init; }
      }
    }
  }

  lemma {:induction false} MatchingAreEquals(page: seq<Element>, e: Element)
    ensures forall i :: i in Matching(page, ByName(e)) <==> 0 <= i < |page| && page[i] == e
  {
    if page != [] { MatchingAreEquals(page[..|page| - 1], e); }
  }

  /** Equals get a ref together or not at all. */
  lemma {:induction false} EqualsAreIssuedTogether(page: seq<Element>, opt: Options, e: Element)
    requires GetsRef(e, opt)
    ensures Occurrences(IssuedElements(page, opt), e) == Occurrences(page, e)
  {
    if page != [] {
      var init := page[..|page| - 1];
      EqualsAreIssuedTogether(init, opt, e);
      var before, all := IssuedElements(init, opt), IssuedElements(page, opt);
      if all != before { assert all[..|all| - 1] == before; }
    }
  }

  lemma NoColonInRoles(role: string)
    requires IsRole(role)
    ensures forall i :: 0 <= i < |role| ==> ToLower(role)[i] != ':'
  {
    forall i | 0 <= i < |role| ensures ToLower(role)[i] != ':' { assert IsWord(role[i]); }
  }

  /** A role is a word, so `role:name` tells role and name. */
  lemma KeysTellElements(a: Item, b: Item)
    requires IsRole(a.role) && IsRole(b.role)
    ensures ItemKey(a) == ItemKey(b) <==> ItemElement(a) == ItemElement(b)
  {
    var x, y := ToLower(a.role), ToLower(b.role);
    NoColonInRoles(a.role);
    NoColonInRoles(b.role);
    SpanIs(ItemKey(a), (c: char) => c != ':', |x|);
    SpanIs(ItemKey(b), (c: char) => c != ':', |y|);
    assert ItemKey(a)[..|x|] == x && ItemKey(b)[..|y|] == y;
    assert ItemKey(a)[|x| + 1..] == a.name.GetOr("") && ItemKey(b)[|y| + 1..] == b.name.GetOr("");
  }

  lemma {:induction false} CountsAreOccurrences(items: seq<Item>, item: Item)
    requires IsRole(item.role) && forall x :: x in items ==> IsRole(x.role)
    ensures Count(items, ItemKey(item)) == Occurrences(Elements(items), ItemElement(item))
  {
    if items != [] {
      var n := |items| - 1;
      CountsAreOccurrences(items[..n], item);
      assert items[n] in items;
      KeysTellElements(items[n], item);
      assert Elements(items)[..n] == Elements(items[..n]);
    }
  }

  lemma ItemRoles(lines: seq<string>, opt: Options)
    ensures forall item :: item in Items(lines, opt) ==> IsRole(item.role)
  {
    forall item | item in Items(lines, opt) ensures IsRole(item.role) {
      ItemsComeFromLines(lines, opt);
      var line :| line in lines && Choose(line, opt) == Give(item);
      ChosenRole(line, opt);
    }
  }

  lemma ChosenRole(line: string, opt: Options)
    requires Choose(line, opt).Give?
    ensures IsRole(Choose(line, opt).item.role)
  {
    ParsedRole(line);
  }

  /** What is recorded for the k-th ref, counted on the page itself. */
  lemma RefCountsEquals(lines: seq<string>, opt: Options, k: nat)
    requires opt.maxDepth.None? && k < |Items(lines, opt)|
    ensures var items, page := Items(lines, opt), Page(lines);
      var e := ItemElement(items[k]);
      && k < |Issued(page, opt)| && Issued(page, opt)[k] < |page| && page[Issued(page, opt)[k]] == e
      && Count(items, ItemKey(items[k])) == Occurrences(page, e)
      && Count(items[..k], ItemKey(items[k])) == Occurrences(page[..Issued(page, opt)[k]], e)
  {
    var items, page := Items(lines, opt), Page(lines);
    var e := ItemElement(items[k]);
    ItemRoles(lines, opt);
    assert items[k] in items;
    CountsAreOccurrences(items, items[k]);
    CountsAreOccurrences(items[..k], items[k]);
    ItemsAreIssued(lines, opt);
    IssuedAt(page, opt, k);
    assert Elements(items)[..k] == Elements(items[..k]);
    IssuedGetRefs(page, opt, k);
    EqualsAreIssuedTogether(page, opt, e);
    EqualsAreIssuedTogether(page[..Issued(page, opt)[k]], opt, e);
  }

  lemma {:induction false} IssuedGetRefs(page: seq<Element>, opt: Options, k: nat)
    requires k < |IssuedElements(page, opt)|
    ensures GetsRef(IssuedElements(page, opt)[k], opt)
  {
    var init := page[..|page| - 1];
    if k < |IssuedElements(init, opt)| { IssuedGetRefs(init, opt, k); }
  }

  lemma RefNamesAreNormal(k: nat)
    ensures Normalized(RefName(k)) == RefName(k) && Normalized("@" + RefName(k)) == RefName(k)
    ensures Normalized("ref=" + RefName(k)) == RefName(k)
  {
    var ref := RefName(k);
    assert ref[0] == 'e' && "@"[0] == '@' && "ref="[0] == 'r';
    assert !("@" <= ref) && !("ref=" <= ref);
    assert ("@" + ref)[1..] == ref;
    assert ("ref=" + ref)[0] == 'r';
    assert !("@" <= "ref=" + ref);
    assert ("ref=" + ref)[4..] == ref;
  }

  // ---------------------------------------------------------------- Where items come from

  /** The lines that got a ref. */
  function ItemLines(lines: seq<string>, opt: Options): seq<nat> {
    if lines == [] then []
    else
      var before := ItemLines(lines[..|lines| - 1], opt);
      if Choose(lines[|lines| - 1], opt).Give? then before + [|lines| - 1] else before
  }

  /** Line `n` is the one that item `k` came from. */
  predicate IsLineOf(lines: seq<string>, opt: Options, k: nat, n: nat) {
    && k < |Items(lines, opt)| && n < |lines|
    && Choose(lines[n], opt) == Give(Items(lines, opt)[k]) && Items(lines[..n], opt) == Items(lines, opt)[..k]
  }

  lemma {:induction false} ItemLinesAre(lines: seq<string>, opt: Options)
    ensures |ItemLines(lines, opt)| == |Items(lines, opt)|
    ensures forall k: nat :: k < |Items(lines, opt)| ==> IsLineOf(lines, opt, k, ItemLines(lines, opt)[k])
  {
    if lines != [] {
      var last := |lines| - 1;
      var init := lines[..last];
      ItemLinesAre(init, opt);
      ItemLinesLength(lines, opt);
      forall k: nat | k < |Items(lines, opt)| ensures IsLineOf(lines, opt, k, ItemLines(lines, opt)[k]) {
        if k < |Items(init, opt)| {
          assert IsLineOf(init, opt, k, ItemLines(init, opt)[k]);
          assert init[..ItemLines(init, opt)[k]] == lines[..ItemLines(init, opt)[k]];
        }
      }
    }
  }

  lemma {:induction false} ItemLinesLength(lines: seq<string>, opt: Options)
    ensures |ItemLines(lines, opt)| == |Items(lines, opt)|
  {
    if lines != [] { ItemLinesLength(lines[..|lines| - 1], opt); }
  }

  /** The place, on the page, of the element on line `n`. */
  function PlaceOf(lines: seq<string>, n: nat): nat
    requires n <= |lines|
  {
    |Page(lines[..n])|
  }

  lemma PageGrows(lines: seq<string>)
    requires lines != []
    ensures Page(lines[..|lines| - 1]) <= Page(lines)
    ensures ParseAria(lines[|lines| - 1]).Some? ==>
              Page(lines) == Page(lines[..|lines| - 1]) + [ElementOf(ParseAria(lines[|lines| - 1]).value)]
  {
  }

  lemma {:induction false} PageTakes(lines: seq<string>, n: nat)
    requires n <= |lines|
    ensures Page(lines[..n]) <= Page(lines)
  {
    if n == |lines| {
      assert lines[..n] == lines;
    } else {
      var init := lines[..|lines| - 1];
      PageTakes(init, n);
      assert init[..n] == lines[..n];
      PageGrows(lines);
    }
  }

  lemma PageAt(lines: seq<string>, n: nat)
    requires n < |lines| && ParseAria(lines[n]).Some?
    ensures var page, at := Page(lines), PlaceOf(lines, n);
      at < |page| && page[at] == ElementOf(ParseAria(lines[n]).value) && page[..at] == Page(lines[..n])
  {
    PageStep(lines[..n], lines[n]);
    assert lines[..n] + [lines[n]] == lines[..n + 1];
    PageTakes(lines, n + 1);
  }

  /** The line shows an element like `e` and lies below the depth limit. */
  predicate Hides(line: string, opt: Options, e: Element) {
    ParseAria(line).Some? && ElementOf(ParseAria(line).value) == e && !WithinDepth(line, opt)
  }

  predicate HidesEqual(lines: seq<string>, opt: Options, e: Element) {
    exists line :: line in lines && Hides(line, opt, e)
  }

  lemma HidesOneMore(lines: seq<string>, last: string, opt: Options, e: Element)
    ensures HidesEqual(lines + [last], opt, e) <==> HidesEqual(lines, opt, e) || Hides(last, opt, e)
  {
    if HidesEqual(lines, opt, e) {
      var line :| line in lines && Hides(line, opt, e);
      assert line in lines + [last];
    }
    if Hides(last, opt, e) { assert last in lines + [last]; }
  }

  /** The equals of the item's element on the page that are not counted. */
  function Missed(lines: seq<string>, opt: Options, item: Item): int {
    Occurrences(Page(lines), ItemElement(item)) - Count(Items(lines, opt), ItemKey(item))
  }

  /** A line is missed exactly if it shows an equal below the depth limit. */
  lemma LineCounts(init: seq<string>, last: string, opt: Options, item: Item)
    requires IsRole(item.role) && GetsRef(ItemElement(item), opt)
    ensures Missed(init + [last], opt, item) ==
            Missed(init, opt, item) + if Hides(last, opt, ItemElement(item)) then 1 else 0
  {
    if ParseAria(last).Some? {
      PageStep(init, last);
      OccursOnceMore(Page(init), ElementOf(ParseAria(last).value), ItemElement(item));
    } else {
      PageSkips(init, last);
    }
    if WithinDepth(last, opt) { ChoiceFollowsElement(last, opt); } else { DeepLinesAreSkipped(last, opt); }
    if Choose(last, opt).Give? {
      ItemsStep(init, last, opt);
      ChosenRole(last, opt);
      KeysTellElements(Choose(last, opt).item, item);
      CountsOnceMore(Items(init, opt), Choose(last, opt).item, ItemKey(item));
    } else {
      ItemsSkip(init, last, opt);
    }
  }

  lemma PageSkips(init: seq<string>, last: string)
    requires ParseAria(last).None?
    ensures Page(init + [last]) == Page(init)
  {
    assert (init + [last])[..|init|] == init;
  }

  lemma ItemsSkip(init: seq<string>, last: string, opt: Options)
    requires !Choose(last, opt).Give?
    ensures Items(init + [last], opt) == Items(init, opt)
  {
    assert (init + [last])[..|init|] == init;
  }

  lemma OccursOnceMore(page: seq<Element>, last: Element, e: Element)
    ensures Occurrences(page + [last], e) == Occurrences(page, e) + if last == e then 1 else 0
  {
    assert (page + [last])[..|page|] == page;
  }

  lemma CountsOnceMore(items: seq<Item>, last: Item, key: string)
    ensures Count(items + [last], key) == Count(items, key) + if ItemKey(last) == key then 1 else 0
  {
    assert (items + [last])[..|items|] == items;
  }

  /** Refs count the elements of the page, short of the equals that the depth limit hides. */
  lemma {:induction false} CountsMissTheHidden(lines: seq<string>, opt: Options, item: Item)
    requires IsRole(item.role) && GetsRef(ItemElement(item), opt)
    ensures Missed(lines, opt, item) >= 0
    ensures Missed(lines, opt, item) == 0 <==> !HidesEqual(lines, opt, ItemElement(item))
    decreases |lines|
  {
    if lines != [] {
      var init, last := lines[..|lines| - 1], lines[|lines| - 1];
      assert lines == init + [last];
      CountsMissTheHidden(init, opt, item);
      LineCounts(init, last, opt, item);
      HidesOneMore(init, last, opt, ItemElement(item));
    }
  }

  lemma {:induction false} CountTake(items: seq<Item>, key: string, k: nat)
    requires k < |items| && ItemKey(items[k]) == key
    ensures Count(items[..k], key) < Count(items, key)
  {
    var n := |items| - 1;
    if k < n {
      CountTake(items[..n], key, k);
      assert items[..n][..k] == items[..k];
    }
  }

  predicate Rises(places: seq<nat>, end: nat) {
    (forall i :: 0 <= i < |places| ==> places[i] < end) && forall i, j :: 0 <= i < j < |places| ==> places[i] < places[j]
  }

  lemma {:induction false} MatchingRises(page: seq<Element>, locator: Locator)
    ensures Rises(Matching(page, locator), |page|)
  {
    if page != [] {
      var n := |page| - 1;
      MatchingRises(page[..n], locator);
      assert Rises(Matching(page[..n], locator), n);
      assert page[..|page| - 1] == page[..n];
    }
  }

  lemma {:induction false} IssuedWhere(page: seq<Element>, opt: Options, i: nat)
    requires i < |page| && GetsRef(page[i], opt)
    ensures |IssuedElements(page[..i], opt)| < |Issued(page, opt)|
    ensures Issued(page, opt)[|IssuedElements(page[..i], opt)|] == i
  {
    var init := page[..|page| - 1];
    IssuedLength(init, opt);
    if i < |init| {
      IssuedWhere(init, opt, i);
      assert init[..i] == page[..i];
    } else {
      assert init == page[..i];
    }
  }

  // ---------------------------------------------------------------- Refs find their elements

  /** What an index resolves to, among the equals of the element at `at`. */
  lemma IndexResolves(page: seq<Element>, e: Element, at: nat, locator: Locator)
    requires at < |page| && page[at] == e
    requires locator.role == e.role && locator.name == Some(e.name)
    requires locator.nth.Some? ==> 0 < locator.nth.value <= Occurrences(page[..at], e)
    ensures var found, c := Resolve(page, locator), locator.nth.GetOr(0);
      && (found != [] && found[0] == at <==> c == Occurrences(page[..at], e))
      && (c == 0 ==> |found| == Occurrences(page, e) && forall i :: i in found <==> 0 <= i < |page| && page[i] == e)
      && (c > 0 ==> |found| == 1)
  {
    PlaceAmongEquals(page, e);
    MatchingAreEquals(page, e);
    MatchingIgnoresNth(page, locator, ByName(e));
    MatchingRises(page, ByName(e));
    var all, place := Matching(page, locator), Occurrences(page[..at], e);
    assert all[place] == at && place < |all|;
    assert forall j :: 0 <= j < |all| && j != place ==> all[j] != at;
  }

  /** The first element found is the one the ref was handed out for, and whatever else is found is like it. */
  ghost predicate FindsIt(page: seq<Element>, e: Element, at: nat, found: seq<nat>) {
    && (found == [at] || (found != [] && found[0] == at && forall i :: i in found <==> 0 <= i < |page| && page[i] == e))
    && (found == [at] <==> Occurrences(page, e) == 1 || (at < |page| && Occurrences(page[..at], e) > 0))
  }

  lemma LocatorOfRef(refs: map<string, RoleRef>, ref: string, info: RoleRef)
    requires Normalized(ref) in refs && refs[Normalized(ref)] == info && info.name.GetOr("") != ""
    ensures RefLocator(refs, ref) == Some(Locator(info.role, info.name, if info.nth.GetOr(0) > 0 then info.nth else None))
  {
  }

  lemma RefsOfText(text: string, opt: Options)
    ensures AriaSnapshot(text, opt).refs == Refs(Items(Split(text, '\n'), opt))
  {
  }

  lemma LocatorOfItem(items: seq<Item>, k: nat, ref: string)
    requires k < |items| && items[k].name.GetOr("") != ""
    requires ref == RefName(k) || ref == "@" + RefName(k) || ref == "ref=" + RefName(k)
    ensures var e, before := ItemElement(items[k]), Count(items[..k], ItemKey(items[k]));
      RefLocator(Refs(items), ref) == Some(Locator(e.role, Some(e.name), if before > 0 then Some(before) else None))
  {
    RefNamesAreNormal(k);
    RefsAt(items, k);
    LocatorOfRef(Refs(items), ref, Refs(items)[RefName(k)]);
    CountTake(items, ItemKey(items[k]), k);
  }

  /** Whatever the options, the ref of a named element resolves, in any of its three spellings, on the page the
      snapshot was taken from, to that element first, if and only if no element like it stands before it on a line
      below the depth limit. Then it resolves to exactly that element, or, for the first of several equals, to all
      of them. With no depth limit nothing is hidden, and the element is the k-th that gets a ref at all. */
  lemma RefFindsItsElement(text: string, opt: Options, k: nat, ref: string)
    requires k < |Items(Split(text, '\n'), opt)| && Items(Split(text, '\n'), opt)[k].name.GetOr("") != ""
    requires ref == RefName(k) || ref == "@" + RefName(k) || ref == "ref=" + RefName(k)
    ensures var lines := Split(text, '\n');
      var page, e := Page(lines), ItemElement(Items(lines, opt)[k]);
      var locator := RefLocator(AriaSnapshot(text, opt).refs, ref);
      && k < |ItemLines(lines, opt)| && ItemLines(lines, opt)[k] < |lines|
      && var n := ItemLines(lines, opt)[k];
      && var at := PlaceOf(lines, n);
      && at < |page| && page[at] == e && locator.Some?
      && var found := Resolve(page, locator.value);
      && (found != [] && found[0] == at <==> !HidesEqual(lines[..n], opt, e))
      && (!HidesEqual(lines[..n], opt, e) ==> FindsIt(page, e, at, found))
      && (opt.maxDepth.None? ==>
            !HidesEqual(lines[..n], opt, e) && k < |Issued(page, opt)| && Issued(page, opt)[k] == at)
  {
    var lines := Split(text, '\n');
    var items, page := Items(lines, opt), Page(lines);
    var item, e := items[k], ItemElement(items[k]);
    ItemLinesAre(lines, opt);
    var n := ItemLines(lines, opt)[k];
    assert IsLineOf(lines, opt, k, n);
    ItemPlace(lines, opt, n, item);
    var at := PlaceOf(lines, n);
    CountsMissTheHidden(lines[..n], opt, item);
    RefsOfText(text, opt);
    LocatorOfItem(items, k, ref);
    IndexResolves(page, e, at, RefLocator(Refs(items), ref).value);
    PlaceAmongEquals(page, e);
    if opt.maxDepth.None? {
      ItemsAreIssued(lines[..n], opt);
      IssuedWhere(page, opt, at);
    }
  }

  lemma ItemPlace(lines: seq<string>, opt: Options, n: nat, item: Item)
    requires n < |lines| && Choose(lines[n], opt) == Give(item)
    ensures IsRole(item.role) && GetsRef(ItemElement(item), opt)
    ensures var page, at := Page(lines), PlaceOf(lines, n);
      at < |page| && page[at] == ItemElement(item) && page[..at] == Page(lines[..n])
  {
    if !WithinDepth(lines[n], opt) { DeepLinesAreSkipped(lines[n], opt); }
    ChoiceFollowsElement(lines[n], opt);
    ChosenRole(lines[n], opt);
    PageAt(lines, n);
  }

  lemma {:induction false} MatchingIgnoresNth(page: seq<Element>, a: Locator, b: Locator)
    requires a.role == b.role && a.name == b.name
    ensures Matching(page, a) == Matching(page, b)
  {
    if page != [] { MatchingIgnoresNth(page[..|page| - 1], a, b); }
  }

  /** A ref that the snapshot did not hand out is refused. */
  lemma UnknownRefsAreRefused(text: string, opt: Options, ref: string)
    requires forall k :: 0 <= k < |Items(Split(text, '\n'), opt)| ==> Normalized(ref) != RefName(k)
    ensures RefLocator(AriaSnapshot(text, opt).refs, ref) == None
  {
    RawRefsKeys(Items(Split(text, '\n'), opt), Normalized(ref));
  }

  // ---------------------------------------------------------------- Why no depth limit

  const BUTTON := "- button" + " \"x\""

  lemma BodyStarts(pad: string, body: string)
    requires (forall c :: c in pad ==> IsSpace(c)) && |body| > 2
    requires body[0] == '-' && body[1] == ' ' && !IsSpace(body[2])
    ensures Span(pad + body, IsSpace) == |pad|
    ensures RoleStart(pad + body) == Some(|pad| + 2)
  {
    var line := pad + body;
    assert line[..|pad|] == pad && line[|pad|] == '-';
    forall i | 0 <= i < |pad| ensures IsSpace(line[i]) { assert pad[i] in pad; }
    SpanIs(line, IsSpace, |pad|);
    assert line[|pad| + 1..] == body[1..];
    SpanIs(body[1..], IsSpace, 1);
  }

  lemma XIsQuoted()
    ensures QuotedName(" \"x\"") == Some(("x", ""))
  {
    var s := " \"x\"";
    SpanIs(s, IsSpace, 1);
    assert s[2..] == "x\"";
    SpanIs("x\"", (c: char) => c != '"', 1);
    assert "x\""[..1] == "x" && "x\""[2..] == "";
  }

  lemma ButtonIsParsed(pad: string)
    requires forall c :: c in pad ==> IsSpace(c)
    ensures ParseAria(pad + BUTTON) == Some(AriaLine(pad + "- ", "button", Some("x"), ""))
  {
    BodyStarts(pad, BUTTON);
    XIsQuoted();
    var line := pad + BUTTON;
    var rest := line[|pad| + 2..];
    assert rest == BUTTON[2..] == "button" + " \"x\"";
    assert rest[6] == ' ';
    SpanIs(rest, IsWord, 6);
    assert rest[..6] == "button" && rest[6..] == " \"x\"";
    assert line[..|pad| + 2] == pad + "- ";
  }

  const SHALLOW := Options(true, Some(0), false, None)
  const ITEM := Item("- ", "button", Some("x"), "")
  const ELEMENT := Element("button", "x")

  lemma FlatButton(prefix: string)
    ensures ChooseFlat(AriaLine(prefix, "button", Some("x"), "")) == Give(ITEM)
    ensures ElementOf(AriaLine(prefix, "button", Some("x"), "")) == ELEMENT
  {
    assert ToLower("button") == "button";
  }

  lemma ShallowLine(line: string)
    ensures ParseAria(line).Some? ==>
            Choose(line, SHALLOW) == if Span(line, IsSpace) >= 2 then Skip else ChooseFlat(ParseAria(line).value)
  {
  }

  lemma ButtonLine(pad: string)
    requires forall c :: c in pad ==> IsSpace(c)
    ensures Choose(pad + BUTTON, SHALLOW) == if |pad| >= 2 then Skip else Give(ITEM)
    ensures ParseAria(pad + BUTTON).Some? && ElementOf(ParseAria(pad + BUTTON).value) == ELEMENT
  {
    BodyStarts(pad, BUTTON);
    ButtonIsParsed(pad);
    FlatButton(pad + "- ");
    ShallowLine(pad + BUTTON);
  }

  lemma ItemsStep(lines: seq<string>, line: string, opt: Options)
    ensures Choose(line, opt) == Skip ==> Items(lines + [line], opt) == Items(lines, opt)
    ensures Choose(line, opt).Give? ==> Items(lines + [line], opt) == Items(lines, opt) + [Choose(line, opt).item]
  {
    assert (lines + [line])[..|lines|] == lines;
  }

  lemma PageStep(lines: seq<string>, line: string)
    ensures ParseAria(line).Some? ==> Page(lines + [line]) == Page(lines) + [ElementOf(ParseAria(line).value)]
  {
    assert (lines + [line])[..|lines|] == lines;
  }

  lemma TwoLines(a: string, b: string)
    requires Choose(a, SHALLOW) == Skip && Choose(b, SHALLOW) == Give(ITEM)
    requires ParseAria(a).Some? && ElementOf(ParseAria(a).value) == ELEMENT
    requires ParseAria(b).Some? && ElementOf(ParseAria(b).value) == ELEMENT
    ensures Items([a, b], SHALLOW) == [ITEM] && Page([a, b]) == [ELEMENT, ELEMENT]
  {
    ItemsStep([], a, SHALLOW);
    ItemsStep([a], b, SHALLOW);
    PageStep([], a);
    PageStep([a], b);
    assert [] + [a] == [a] && [a] + [b] == [a, b];
  }

  lemma BothMatch(locator: Locator)
    requires locator == Locator("button", Some("x"), None)
    ensures Resolve([ELEMENT, ELEMENT], locator) == [0, 1]
  {
    assert [ELEMENT, ELEMENT][..1] == [ELEMENT] && [ELEMENT][..0] == [];
    assert Matching([ELEMENT], locator) == [0];
  }

  /** With a depth limit the indices count the shown lines only: of two equal buttons, the deeper one hidden,
      the ref of the shown one resolves to both, the hidden one first. */
  lemma DepthLimitMisleads()
    ensures var lines := ["  " + BUTTON, BUTTON];
      var locator := RefLocator(Refs(Items(lines, SHALLOW)), RefName(0));
      && Choose(lines[0], SHALLOW) == Skip && Choose(lines[1], SHALLOW) == Give(ITEM)
      && Items(lines, SHALLOW) == [ITEM]
      && locator.Some? && Resolve(Page(lines), locator.value) == [0, 1]
  {
    ButtonLine("  ");
    ButtonLine("");
    assert "" + BUTTON == BUTTON;
    TwoLines("  " + BUTTON, BUTTON);
    RefsAt([ITEM], 0);
    RefNamesAreNormal(0);
    assert Count([ITEM], ItemKey(ITEM)) == 1 by { assert [ITEM][..0] == []; }
    assert ToLower("button") == "button";
    BothMatch(RefLocator(Refs([ITEM]), RefName(0)).value);
  }
}
