/** Pruning a snapshot tree to the lines that lead to a ref. */
module CompactTree {
  import opened Text

  function HasSub(s: string, sub: string): bool {
    sub <= s || (s != "" && HasSub(s[1..], sub))
  }

  predicate HasRef(line: string) {
    HasSub(line, "[ref=")
  }

  predicate EndsWithColon(s: string) {
    s != "" && s[|s| - 1] == ':'
  }

  /** Content after a colon on the same line. */
  predicate IsInline(line: string) {
    ':' in line && !EndsWithColon(StripRight(line))
  }

  /** Two spaces are one level. */
  function Indent(line: string): nat {
    Span(line, IsSpace) / 2
  }

  // ---------------------------------------------------------------- The forest

  /** Read as an indentation forest, line `j` lies below line `i`. */
  predicate Below(lines: seq<string>, i: nat, j: nat) {
    i < j < |lines| && forall k :: i < k <= j ==> Indent(lines[k]) > Indent(lines[i])
  }

  predicate LeadsToRef(lines: seq<string>, i: nat) {
    exists j :: i < j < |lines| && Below(lines, i, j) && HasRef(lines[j])
  }

  predicate Kept(lines: seq<string>, i: nat)
    requires i < |lines|
  {
    HasRef(lines[i]) || IsInline(lines[i]) || LeadsToRef(lines, i)
  }

  /** The lines from line `i` on that are wanted, in order. */
  function Pick(lines: seq<string>, wanted: nat -> bool, i: nat): seq<string>
    requires i <= |lines|
    decreases |lines| - i
  {
    if i == |lines| then []
    else (if wanted(i) then [lines[i]] else []) + Pick(lines, wanted, i + 1)
  }

  function Compacted(lines: seq<string>): seq<string> {
    Pick(lines, (i: nat) => i < |lines| && Kept(lines, i), 0)
  }

  function CompactText(tree: string): string {
    Join(Compacted(Split(tree, '\n')), '\n')
  }

  // ---------------------------------------------------------------- The pass

  method Compact(tree: string) returns (text: string)
    ensures text == CompactText(tree)
  {
    var lines := Split(tree, '\n');
    var result := CompactLines(lines);
    text := Join(result, '\n');
  }

  method CompactLines(lines: seq<string>) returns (result: seq<string>)
    ensures result == Compacted(lines)
  {
    ghost var wanted := (n: nat) => n < |lines| && Kept(lines, n);
    result := [];
    var i := 0;
    while i < |lines|
      invariant 0 <= i <= |lines|
      invariant result + Pick(lines, wanted, i) == Pick(lines, wanted, 0)
    {
      var keep := HasRef(lines[i]) || IsInline(lines[i]);
      if !keep {
        keep := SearchBelow(lines, i);
      }
      assert keep == wanted(i);
      PickStep(lines, wanted, i, result);
      if keep {
        result := result + [lines[i]];
      }
      i := i + 1;
    }
    assert result + [] == result;
  }

  lemma PickStep(lines: seq<string>, wanted: nat -> bool, i: nat, before: seq<string>)
    requires i < |lines|
    ensures before + Pick(lines, wanted, i) == (if wanted(i) then before + [lines[i]] else before) + Pick(lines, wanted, i + 1)
  {
  }

  method SearchBelow(lines: seq<string>, i: nat) returns (found: bool)
    requires i < |lines|
    ensures found == LeadsToRef(lines, i)
  {
    found := false;
    var j := i + 1;
    while j < |lines|
      invariant i < j <= |lines|
      invariant forall k :: i < k < j ==> Indent(lines[k]) > Indent(lines[i]) && !HasRef(lines[k])
    {
      if Indent(lines[j]) <= Indent(lines[i]) {
        return;
      }
      if HasRef(lines[j]) {
        assert Below(lines, i, j);
        return true;
      }
      j := j + 1;
    }
  }

  // ---------------------------------------------------------------- What is kept

  /** The numbers of the wanted lines from line `i` on. */
  function Numbers(lines: seq<string>, wanted: nat -> bool, i: nat): seq<nat>
    requires i <= |lines|
    decreases |lines| - i
  {
    if i == |lines| then []
    else (if wanted(i) then [i] else []) + Numbers(lines, wanted, i + 1)
  }

  predicate Increasing(ns: seq<nat>) {
    forall a, b :: 0 <= a < b < |ns| ==> ns[a] < ns[b]
  }

  lemma {:induction false} NumbersAreExact(lines: seq<string>, wanted: nat -> bool, i: nat)
    requires i <= |lines|
    ensures var ns := Numbers(lines, wanted, i);
      Increasing(ns) && forall n: nat :: n in ns <==> i <= n < |lines| && wanted(n)
    decreases |lines| - i
  {
    if i < |lines| {
      NumbersAreExact(lines, wanted, i + 1);
      var rest, ns := Numbers(lines, wanted, i + 1), Numbers(lines, wanted, i);
      assert forall a :: 0 <= a < |rest| ==> rest[a] in rest;
      if wanted(i) {
        assert ns[1..] == rest;
        forall a, b | 0 <= a < b < |ns| ensures ns[a] < ns[b] { assert ns[b] == rest[b - 1]; }
      } else {
        assert ns == rest;
      }
    }
  }

  lemma {:induction false} PickFollowsNumbers(lines: seq<string>, wanted: nat -> bool, i: nat)
    requires i <= |lines|
    ensures var ns := Numbers(lines, wanted, i);
      && |Pick(lines, wanted, i)| == |ns|
      && forall a :: 0 <= a < |ns| ==> ns[a] < |lines| && Pick(lines, wanted, i)[a] == lines[ns[a]]
    decreases |lines| - i
  {
    if i < |lines| { PickFollowsNumbers(lines, wanted, i + 1); }
  }

  lemma {:induction false} PickOfEverything(lines: seq<string>, wanted: nat -> bool, i: nat)
    requires i <= |lines| && forall n: nat :: i <= n < |lines| ==> wanted(n)
    ensures Pick(lines, wanted, i) == lines[i..]
    decreases |lines| - i
  {
    if i < |lines| { PickOfEverything(lines, wanted, i + 1); }
  }

  /** The result is the sub-list of exactly the ref lines, the lines with inline content and the lines
      above a ref line; any other line is gone. */
  lemma CompactKeepsExactly(lines: seq<string>) returns (ns: seq<nat>)
    ensures Increasing(ns)
    ensures forall n: nat :: n in ns <==> n < |lines| && Kept(lines, n)
    ensures forall n: nat :: n < |lines| ==>
              (Kept(lines, n) <==>
               || HasSub(lines[n], "[ref=")
               || (':' in lines[n] && !EndsWithColon(StripRight(lines[n])))
               || exists j :: n < j < |lines| && HasSub(lines[j], "[ref=") && Below(lines, n, j))
    ensures |Compacted(lines)| == |ns|
    ensures forall a :: 0 <= a < |ns| ==> ns[a] < |lines| && Compacted(lines)[a] == lines[ns[a]]
  {
    var wanted := (i: nat) => i < |lines| && Kept(lines, i);
    NumbersAreExact(lines, wanted, 0);
    PickFollowsNumbers(lines, wanted, 0);
    ns := Numbers(lines, wanted, 0);
  }

  // ---------------------------------------------------------------- Compacting again

  /** Among the kept lines, a line that led to a ref still does. */
  lemma StillLeadsToRef(lines: seq<string>, kept: seq<string>, ns: seq<nat>, a: nat)
    requires Increasing(ns) && |kept| == |ns| && a < |ns|
    requires forall n: nat :: n in ns <==> n < |lines| && Kept(lines, n)
    requires forall b :: 0 <= b < |ns| ==> ns[b] < |lines| && kept[b] == lines[ns[b]]
    requires LeadsToRef(lines, ns[a])
    ensures LeadsToRef(kept, a)
  {
    var j :| ns[a] < j < |lines| && Below(lines, ns[a], j) && HasRef(lines[j]);
    assert Kept(lines, j) && j in ns;
    var b :| 0 <= b < |ns| && ns[b] == j;
    assert a < b;
    assert Below(kept, a, b);
  }

  lemma CompactedAgain(lines: seq<string>)
    ensures Compacted(Compacted(lines)) == Compacted(lines)
  {
    var ns := CompactKeepsExactly(lines);
    var kept := Compacted(lines);
    forall a | 0 <= a < |kept| ensures Kept(kept, a) {
      assert ns[a] in ns && Kept(lines, ns[a]);
      if LeadsToRef(lines, ns[a]) { StillLeadsToRef(lines, kept, ns, a); }
    }
    PickOfEverything(kept, (i: nat) => i < |kept| && Kept(kept, i), 0);
  }

  /** Compacting is idempotent, on any text. */
  lemma CompactIsIdempotent(tree: string)
    ensures CompactText(CompactText(tree)) == CompactText(tree)
  {
    var lines := Split(tree, '\n');
    var kept := Compacted(lines);
    SplitIsApart(tree, '\n');
    var ns := CompactKeepsExactly(lines);
    CompactedAgain(lines);
    if kept == [] {
      assert Split("", '\n') == [""];
      assert !LeadsToRef([""], 0);
      assert !Kept([""], 0);
      assert Pick([""], (i: nat) => i < 1 && Kept([""], i), 1) == [];
      assert Compacted([""]) == [];
    } else {
      SplitOfJoin(kept, '\n');
    }
  }
}
