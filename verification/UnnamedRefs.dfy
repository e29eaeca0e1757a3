/** The refs of elements without a name: when a role and an index alone find the element. */
module UnnamedRefs {
  import opened Wrappers
  import opened Text
  import opened CompactTree
  import opened SnapshotLines
  import opened RoleSnapshot
  import opened SnapshotRoundTrip
  import opened RefLocators

  function ByRole(role: string): Locator {
    Locator(role, None, None)
  }

  /** How many elements of the page have the role, under any name. */
  function OfRole(page: seq<Element>, role: string): nat {
    if page == [] then 0
    else OfRole(page[..|page| - 1], role) + if page[|page| - 1].role == role then 1 else 0
  }

  /** An element stands, among those of its role, at the number of these before it. */
  lemma {:induction false} PlaceInRole(page: seq<Element>, role: string)
    ensures |Matching(page, ByRole(role))| == OfRole(page, role)
    ensures forall i :: 0 <= i < |page| && page[i].role == role ==>
              OfRole(page[..i], role) < OfRole(page, role) && Matching(page, ByRole(role))[OfRole(page[..i], role)] == i
  {
    if page != [] {
      var init := page[..|page| - 1];
      PlaceInRole(init, role);
      forall i | 0 <= i < |page| && page[i].role == role
        ensures OfRole(page[..i], role) < OfRole(page, role) && Matching(page, ByRole(role))[OfRole(page[..i], role)] == i
      {
        if i < |init| { assert page[..i] == init[..i]; } else { assert page[..i] == init; }
      }
    }
  }

  /** The line shows an element of the role that the index of an unnamed one does not count: it has a name, or lies
      below the depth limit. */
  predicate Misleads(line: string, opt: Options, role: string) {
    && ParseAria(line).Some? && ElementOf(ParseAria(line).value).role == role
    && (ElementOf(ParseAria(line).value).name != "" || !WithinDepth(line, opt))
  }

  predicate IsMisled(lines: seq<string>, opt: Options, role: string) {
    exists line :: line in lines && Misleads(line, opt, role)
  }

  /** The elements of the item's role on the page that its index does not count. */
  function Uncounted(lines: seq<string>, opt: Options, item: Item): int {
    OfRole(Page(lines), ItemElement(item).role) - Count(Items(lines, opt), ItemKey(item))
  }

  lemma RoleOnceMore(page: seq<Element>, last: Element, role: string)
    ensures OfRole(page + [last], role) == OfRole(page, role) + if last.role == role then 1 else 0
  {
    assert (page + [last])[..|page|] == page;
  }

  lemma LineUncounted(init: seq<string>, last: string, opt: Options, item: Item)
    requires IsRole(item.role) && item.name.GetOr("") == "" && GetsRef(ItemElement(item), opt)
    ensures Uncounted(init + [last], opt, item) ==
            Uncounted(init, opt, item) + if Misleads(last, opt, ItemElement(item).role) then 1 else 0
  {
    if ParseAria(last).Some? {
      PageStep(init, last);
      RoleOnceMore(Page(init), ElementOf(ParseAria(last).value), ItemElement(item).role);
    } else {
      PageSkips(init, last);
    }
    if WithinDepth(last, opt) { ChoiceFollowsElement(last, opt); } else { DeepLinesAreSkipped(last, opt); }
    if Choose(last, opt).Give? {
      ItemsStep(init, last, opt);
      ChosenRole(last, opt);
      KeysTellElements(Choose(last, opt).item, item);
      CountsOnceMore(Items(init, opt), Choose(last, opt).item, ItemKey(item));
    } else {
      ItemsSkip(init, last, opt);
    }
  }

  lemma MisledOnceMore(init: seq<string>, last: string, opt: Options, role: string)
    ensures IsMisled(init + [last], opt, role) <==> IsMisled(init, opt, role) || Misleads(last, opt, role)
  {
    if IsMisled(init, opt, role) {
      var line :| line in init && Misleads(line, opt, role);
      assert line in init + [last];
    }
    if Misleads(last, opt, role) { assert last in init + [last]; }
  }

  lemma {:induction false} IndexCountsItsRole(lines: seq<string>, opt: Options, item: Item)
    requires IsRole(item.role) && item.name.GetOr("") == "" && GetsRef(ItemElement(item), opt)
    ensures Uncounted(lines, opt, item) >= 0
    ensures Uncounted(lines, opt, item) == 0 <==> !IsMisled(lines, opt, ItemElement(item).role)
    decreases |lines|
  {
    if lines != [] {
      var init, last := lines[..|lines| - 1], lines[|lines| - 1];
      assert lines == init + [last];
      IndexCountsItsRole(init, opt, item);
      LineUncounted(init, last, opt, item);
      MisledOnceMore(init, last, opt, ItemElement(item).role);
    }
  }

  lemma LocatorOfUnnamed(items: seq<Item>, k: nat, ref: string)
    requires k < |items| && items[k].name.GetOr("") == ""
    requires ref == RefName(k) || ref == "@" + RefName(k) || ref == "ref=" + RefName(k)
    ensures var before := Count(items[..k], ItemKey(items[k]));
      RefLocator(Refs(items), ref) == Some(Locator(ItemElement(items[k]).role, None, if before > 0 then Some(before) else None))
  {
    RefNamesAreNormal(k);
    RefsAt(items, k);
    CountTake(items, ItemKey(items[k]), k);
  }

  lemma IndexInRole(page: seq<Element>, at: nat, locator: Locator)
    requires at < |page| && page[at].role == locator.role && locator.name == None
    requires locator.nth.Some? ==> 0 < locator.nth.value <= OfRole(page[..at], locator.role)
    ensures var found := Resolve(page, locator);
      found != [] && found[0] == at <==> locator.nth.GetOr(0) == OfRole(page[..at], locator.role)
  {
    PlaceInRole(page, locator.role);
    MatchingIgnoresNth(page, locator, ByRole(locator.role));
    MatchingRises(page, ByRole(locator.role));
    var all, place := Matching(page, locator), OfRole(page[..at], locator.role);
    assert all[place] == at && forall j :: 0 <= j < |all| && j != place ==> all[j] != at;
  }

  /** The ref of an element without a name is looked up by its role and an index among the unnamed. Whatever the
      options, and in any spelling, it resolves to its element first if and only if no element of that role stands
      before it that has a name or lies below the depth limit. */
  lemma UnnamedRefFindsItsElement(text: string, opt: Options, k: nat, ref: string)
    requires k < |Items(Split(text, '\n'), opt)| && Items(Split(text, '\n'), opt)[k].name.GetOr("") == ""
    requires ref == RefName(k) || ref == "@" + RefName(k) || ref == "ref=" + RefName(k)
    ensures var lines := Split(text, '\n');
      var page, e := Page(lines), ItemElement(Items(lines, opt)[k]);
      var locator := RefLocator(AriaSnapshot(text, opt).refs, ref);
      && k < |ItemLines(lines, opt)| && ItemLines(lines, opt)[k] < |lines|
      && var n := ItemLines(lines, opt)[k];
      && var at := PlaceOf(lines, n);
      && at < |page| && page[at] == e && locator.Some?
      && var found := Resolve(page, locator.value);
      (found != [] && found[0] == at <==> !IsMisled(lines[..n], opt, e.role))
  {
    var lines := Split(text, '\n');
    var items, page := Items(lines, opt), Page(lines);
    var item, e := items[k], ItemElement(items[k]);
    ItemLinesAre(lines, opt);
    var n := ItemLines(lines, opt)[k];
    assert IsLineOf(lines, opt, k, n);
    ItemPlace(lines, opt, n, item);
    IndexCountsItsRole(lines[..n], opt, item);
    RefsOfText(text, opt);
    LocatorOfUnnamed(items, k, ref);
    IndexInRole(page, PlaceOf(lines, n), RefLocator(Refs(items), ref).value);
  }

  const FLAT := Options(true, None, false, None)
  const BARE := "- " + "button"
  const UNNAMED := Item("- ", "button", None, "")

  lemma BareIsParsed(prefix: string, role: string)
    requires IsPrefix(prefix) && IsRole(role)
    ensures ParseAria(prefix + role) == Some(AriaLine(prefix, role, None, ""))
  {
    PrefixIsRead(prefix, role);
    assert (prefix + role)[|prefix|..] == role && (prefix + role)[..|prefix|] == prefix;
    SpanIs(role, IsWord, |role|);
    assert role[..|role|] == role && role[|role|..] == "";
    assert QuotedName("") == None;
  }

  lemma FlatLine(line: string, parsed: AriaLine)
    requires ParseAria(line) == Some(parsed)
    ensures Choose(line, FLAT) == ChooseFlat(parsed)
  {
  }

  lemma FlatBareButton()
    ensures ChooseFlat(AriaLine("- ", "button", None, "")) == Give(UNNAMED)
    ensures ElementOf(AriaLine("- ", "button", None, "")) == Element("button", "")
  {
    assert ToLower("button") == "button";
  }

  lemma BareButton()
    ensures Choose(BARE, FLAT) == Give(UNNAMED)
    ensures ParseAria(BARE).Some? && ElementOf(ParseAria(BARE).value) == Element("button", "")
  {
    DashIsAPrefix();
    BareIsParsed("- ", "button");
    FlatLine(BARE, AriaLine("- ", "button", None, ""));
    FlatBareButton();
  }

  lemma NamedButton()
    ensures Choose(BUTTON, FLAT) == Give(ITEM)
    ensures ParseAria(BUTTON).Some? && ElementOf(ParseAria(BUTTON).value) == ELEMENT
  {
    ButtonIsParsed("");
    assert "" + BUTTON == BUTTON && "" + "- " == "- ";
    FlatLine(BUTTON, AriaLine("- ", "button", Some("x"), ""));
    FlatButton("- ");
  }

  lemma TwoShown(a: string, b: string, opt: Options, x: Item, y: Item)
    requires Choose(a, opt) == Give(x) && Choose(b, opt) == Give(y) && ParseAria(a).Some? && ParseAria(b).Some?
    ensures Items([a, b], opt) == [x, y]
    ensures Page([a, b]) == [ElementOf(ParseAria(a).value), ElementOf(ParseAria(b).value)]
  {
    ItemsStep([], a, opt);
    ItemsStep([a], b, opt);
    PageStep([], a);
    PageStep([a], b);
    assert [] + [a] == [a] && [a] + [b] == [a, b];
  }

  /** It happens: of a button with a name and one without behind it, the second's ref resolves to both, the named
      one first. */
  lemma ANamedOneMisleads()
    ensures var lines := [BUTTON, BARE];
      var locator := RefLocator(Refs(Items(lines, FLAT)), RefName(1));
      && Items(lines, FLAT) == [ITEM, UNNAMED] && Page(lines) == [ELEMENT, Element("button", "")]
      && locator.Some? && Resolve(Page(lines), locator.value) == [0, 1]
  {
    NamedButton();
    BareButton();
    TwoShown(BUTTON, BARE, FLAT, ITEM, UNNAMED);
    NoneBefore();
    LocatorOfUnnamed([ITEM, UNNAMED], 1, RefName(1));
    BothAreButtons();
  }

  lemma NoneBefore()
    ensures Count([ITEM, UNNAMED][..1], ItemKey(UNNAMED)) == 0 && ItemElement(UNNAMED).role == "button"
  {
    assert [ITEM, UNNAMED][..1] == [ITEM] && [ITEM][..0] == [];
    assert ToLower("button") == "button";
    assert ItemKey(ITEM) == "button:" + "x" && ItemKey(UNNAMED) == "button:" + "";
    assert |ItemKey(ITEM)| != |ItemKey(UNNAMED)|;
  }

  lemma BothAreButtons()
    ensures Resolve([ELEMENT, Element("button", "")], ByRole("button")) == [0, 1]
  {
    var page := [ELEMENT, Element("button", "")];
    assert page[..1] == [ELEMENT] && [ELEMENT][..0] == [];
    assert Matching([ELEMENT], ByRole("button")) == [0];
  }
}
