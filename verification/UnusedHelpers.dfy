/** Dropping the private helpers that nothing refers to any more. */
module UnusedHelpers {
  import opened Wrappers

  /** A top-level statement: its name if it defines one, and the names it mentions. */
  datatype Statement = Statement(name: Option<string>, isFunction: bool, mentions: set<string>)

  type Body = seq<Statement>

  function Functions(body: Body): set<string> {
    set s | s in body && s.isFunction && s.name.Some? :: s.name.value
  }

  predicate Refers(t: Statement, name: string) {
    name in t.mentions && t.name != Some(name)
  }

  predicate Referenced(body: Body, name: string) {
    exists t :: t in body && Refers(t, name)
  }

  predicate IsPrivate(name: string) {
    name != "" && name[0] == '_'
  }

  function Orphans(body: Body, keep: string): set<string> {
    set n | n in Functions(body) && IsPrivate(n) && n != keep && !Referenced(body, n)
  }

  predicate NamedIn(s: Statement, names: set<string>) {
    s.name.Some? && s.name.value in names
  }

  function Without(body: Body, names: set<string>): (r: Body)
    ensures forall s :: s in r <==> s in body && !NamedIn(s, names)
    ensures |r| <= |body|
    ensures (exists s :: s in body && NamedIn(s, names)) ==> |r| < |body|
  {
    if body == [] then []
    else if NamedIn(body[0], names) then Without(body[1..], names)
    else [body[0]] + Without(body[1..], names)
  }

  lemma OrphansShrink(body: Body, keep: string)
    requires Orphans(body, keep) != {}
    ensures |Without(body, Orphans(body, keep))| < |body|
  {
    var n :| n in Orphans(body, keep);
    var s :| s in body && s.isFunction && s.name == Some(n);
    assert NamedIn(s, Orphans(body, keep));
  }

  /** What is left when no orphan remains. */
  function Settled(body: Body, keep: string): Body
    decreases |body|
  {
    if Orphans(body, keep) == {} then body
    else
      OrphansShrink(body, keep);
      Settled(Without(body, Orphans(body, keep)), keep)
  }

  method DropUnusedHelpers(body: Body, keep: string) returns (kept: Body)
    ensures kept == Settled(body, keep)
  {
    kept := body;
    while Orphans(kept, keep) != {}
      invariant Settled(kept, keep) == Settled(body, keep)
      decreases |kept|
    {
      OrphansShrink(kept, keep);
      kept := Without(kept, Orphans(kept, keep));
    }
  }

  // ---------------------------------------------------------------- What is left

  predicate IsHelper(s: Statement, keep: string) {
    s.isFunction && s.name.Some? && IsPrivate(s.name.value) && s.name.value != keep
  }

  /** Every private helper is named by another statement that stays. */
  predicate Supported(stay: set<Statement>, keep: string) {
    forall s :: s in stay && IsHelper(s, keep) ==> exists t :: t in stay && Refers(t, s.name.value)
  }

  function Members(body: Body): set<Statement> {
    set s | s in body
  }

  /** A function shares its name with functions only. */
  predicate NoClash(body: Body) {
    forall s, t :: s in body && t in body && s.isFunction && s.name.Some? && t.name == s.name ==> t.isFunction
  }

  lemma {:induction false} SettledIsWithout(body: Body, keep: string) returns (dropped: set<string>)
    ensures Settled(body, keep) == Without(body, dropped)
    ensures forall n :: n in dropped ==> n in Functions(body) && IsPrivate(n) && n != keep
    decreases |body|
  {
    if Orphans(body, keep) == {} {
      dropped := {};
      WithoutNothing(body);
    } else {
      OrphansShrink(body, keep);
      var more := SettledIsWithout(Without(body, Orphans(body, keep)), keep);
      dropped := Orphans(body, keep) + more;
      WithoutTwice(body, Orphans(body, keep), more);
    }
  }

  lemma {:induction false} WithoutNothing(body: Body)
    ensures Without(body, {}) == body
  {
    if body != [] { WithoutNothing(body[1..]); }
  }

  lemma {:induction false} WithoutTwice(body: Body, first: set<string>, second: set<string>)
    ensures Without(Without(body, first), second) == Without(body, first + second)
  {
    if body != [] {
      WithoutTwice(body[1..], first, second);
      if !NamedIn(body[0], first) {
        assert Without(body, first)[1..] == Without(body[1..], first);
      }
    }
  }

  /** Some part of the body whose private helpers are all named from within it holds the statement. */
  ghost predicate Supportable(body: Body, keep: string, s: Statement) {
    exists stay: set<Statement> :: s in stay && stay <= Members(body) && Supported(stay, keep)
  }

  /** A helper that shares its name with something other than a function can be supported. */
  ghost predicate ClashesAreSupportable(body: Body, keep: string) {
    forall s, t :: s in body && t in body && IsHelper(s, keep) && !t.isFunction && t.name == s.name ==>
      Supportable(body, keep, s)
  }

  ghost predicate Firm(body: Body, keep: string, s: Statement) {
    s in body && (!s.isFunction || Supportable(body, keep, s))
  }

  lemma FirmAreNoOrphans(body: Body, left: Body, keep: string, s: Statement)
    requires ClashesAreSupportable(body, keep) && Firm(body, keep, s)
    requires forall t :: t in left ==> t in body
    requires forall t :: Firm(body, keep, t) ==> t in left
    ensures !NamedIn(s, Orphans(left, keep))
  {
    if s.name.Some? && s.name.value in Functions(left) && IsPrivate(s.name.value) && s.name.value != keep {
      var helper :| helper in left && helper.isFunction && helper.name == s.name;
      var named := if s.isFunction then s else helper;
      var stay: set<Statement> :| named in stay && stay <= Members(body) && Supported(stay, keep);
      var t :| t in stay && Refers(t, named.name.value);
      assert t in Members(body) && Firm(body, keep, t);
      assert Referenced(left, s.name.value);
    }
  }

  /** If clashes can be supported, supportable statements and those that are not functions never leave. */
  lemma {:induction false} FirmStay(body: Body, left: Body, keep: string)
    requires ClashesAreSupportable(body, keep)
    requires forall t :: t in left ==> t in body
    requires forall t :: Firm(body, keep, t) ==> t in left
    ensures forall t :: Firm(body, keep, t) ==> t in Settled(left, keep)
    decreases |left|
  {
    if Orphans(left, keep) != {} {
      OrphansShrink(left, keep);
      forall t | Firm(body, keep, t) ensures !NamedIn(t, Orphans(left, keep)) { FirmAreNoOrphans(body, left, keep, t); }
      FirmStay(body, Without(left, Orphans(left, keep)), keep);
    }
  }

  lemma {:induction false} SettledHasNoOrphan(body: Body, keep: string)
    ensures Orphans(Settled(body, keep), keep) == {}
    decreases |body|
  {
    if Orphans(body, keep) != {} {
      OrphansShrink(body, keep);
      SettledHasNoOrphan(Without(body, Orphans(body, keep)), keep);
    }
  }

  lemma {:induction false} NothingDroppedIsNamed(body: Body, keep: string, t: Statement, name: string)
    requires t in Settled(body, keep) && name in t.mentions && name in Functions(body)
    ensures t in body && name in Functions(Settled(body, keep))
    decreases |body|
  {
    var orphans := Orphans(body, keep);
    if orphans != {} {
      OrphansShrink(body, keep);
      var dropped := SettledIsWithout(Without(body, orphans), keep);
      assert t in Without(body, orphans);
      if name in orphans {
        assert Refers(t, name);
        assert false;
      }
      var s :| s in body && s.isFunction && s.name == Some(name);
      assert s in Without(body, orphans);
      NothingDroppedIsNamed(Without(body, orphans), keep, t, name);
    }
  }

  /** Every part of the body whose private helpers are all named from within it is left. */
  ghost predicate IsGreatest(body: Body, keep: string) {
    forall stay: set<Statement> :: stay <= Members(body) && Supported(stay, keep) ==> stay <= Members(Settled(body, keep))
  }

  lemma SettledIsSupported(body: Body, keep: string)
    ensures Supported(Members(Settled(body, keep)), keep)
  {
    SettledHasNoOrphan(body, keep);
    var left := Settled(body, keep);
    forall s | s in left && IsHelper(s, keep) ensures exists t :: t in Members(left) && Refers(t, s.name.value) {
      assert s.name.value in Functions(left) && s.name.value !in Orphans(left, keep);
      var t :| t in left && Refers(t, s.name.value);
      assert t in Members(left);
    }
  }

  /** A helper that cannot be supported goes, and takes what shares its name with it. */
  lemma UnsupportableTakesMore(body: Body, keep: string, s: Statement, t: Statement)
    requires s in body && t in body && IsHelper(s, keep) && !t.isFunction && t.name == s.name
    requires !Supportable(body, keep, s)
    ensures t !in Settled(body, keep)
  {
    var dropped := SettledIsWithout(body, keep);
    SettledIsSupported(body, keep);
    assert Members(Settled(body, keep)) <= Members(body);
  }

  lemma GreatestExactly(body: Body, keep: string)
    ensures IsGreatest(body, keep) <==> ClashesAreSupportable(body, keep)
  {
    if ClashesAreSupportable(body, keep) {
      FirmStay(body, body, keep);
      forall stay: set<Statement>, s | stay <= Members(body) && Supported(stay, keep) && s in stay
        ensures s in Members(Settled(body, keep))
      {
        assert s in Members(body) && Firm(body, keep, s);
      }
    } else {
      var s, t :| s in body && t in body && IsHelper(s, keep) && !t.isFunction && t.name == s.name && !Supportable(body, keep, s);
      UnsupportableTakesMore(body, keep, s, t);
      assert {t} <= Members(body) && Supported({t}, keep);
      assert !({t} <= Members(Settled(body, keep))) by { assert t in {t}; }
    }
  }

  /** What is left is a part of the body in which every private helper but the kept one is named by another
      statement that stays; it keeps its order, only private helpers go, and nothing that stays names a function
      that went. It is the largest such part if and only if every private helper that shares its name with something
      other than a function is in one, and so whenever functions share their names with functions only. */
  lemma SettledIsGreatest(body: Body, keep: string) returns (dropped: set<string>)
    ensures Settled(body, keep) == Without(body, dropped)
    ensures forall n :: n in dropped ==> n in Functions(body) && n != "" && n[0] == '_' && n != keep
    ensures Supported(Members(Settled(body, keep)), keep)
    ensures IsGreatest(body, keep) <==>
            forall s, t :: s in body && t in body && IsHelper(s, keep) && !t.isFunction && t.name == s.name ==>
              exists stay: set<Statement> :: s in stay && stay <= Members(body) && Supported(stay, keep)
    ensures NoClash(body) ==> IsGreatest(body, keep)
    ensures forall t, name :: t in Settled(body, keep) && name in t.mentions && name in Functions(body) ==>
              name in Functions(Settled(body, keep))
  {
    dropped := SettledIsWithout(body, keep);
    SettledIsSupported(body, keep);
    GreatestExactly(body, keep);
    forall s, t | s in body && t in body && IsHelper(s, keep) && !t.isFunction && t.name == s.name
      ensures Supportable(body, keep, s) <==>
              exists stay: set<Statement> :: s in stay && stay <= Members(body) && Supported(stay, keep)
    {
    }
    forall t, name | t in Settled(body, keep) && name in t.mentions && name in Functions(body)
      ensures name in Functions(Settled(body, keep))
    {
      NothingDroppedIsNamed(body, keep, t, name);
    }
  }

  /** A clash can take more: a class that shares its name with an orphan goes with it, although keeping the
      class alone would be fine. */
  lemma AClashTakesMore(keep: string)
    ensures var helper, other := Statement(Some("_x"), true, {}), Statement(Some("_x"), false, {});
      keep != "_x" ==> Settled([helper, other], keep) == [] && Supported({other}, keep)
  {
    var body := [Statement(Some("_x"), true, {}), Statement(Some("_x"), false, {})];
    if keep != "_x" {
      assert Functions(body) == {"_x"} by { assert body[0] in body; }
      assert Orphans(body, keep) == {"_x"};
      assert Without(body, {"_x"}) == [];
    }
  }

  /** Naming oneself is no support: a private helper that only calls itself goes. */
  lemma CallingOneselfIsNotEnough(keep: string)
    ensures keep != "_x" ==> Settled([Statement(Some("_x"), true, {"_x"})], keep) == []
  {
    var body := [Statement(Some("_x"), true, {"_x"})];
    if keep != "_x" {
      assert Functions(body) == {"_x"} by { assert body[0] in body; }
      assert Orphans(body, keep) == {"_x"};
      assert Without(body, {"_x"}) == [];
    }
  }
}
