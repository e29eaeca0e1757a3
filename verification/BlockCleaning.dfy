/** Cleaning whole blocks: folded branches are spliced in, what follows a return or a raise goes. */
module BlockCleaning {
  import opened Wrappers
  import opened ConditionFolding
  import opened Text

  type Block = seq<Stmt>

  /** Statements of which only the `if` tests may read the credential. */
  datatype Stmt =
    | Do(k: nat)                                     // an assignment, a call, any simple statement
    | Pass
    | Return(k: nat)
    | Raise(k: nat)
    | Break
    | Continue
    | If(test: Expr, body: Block, orelse: Block)
    | Loop(k: nat, body: Block, orelse: Block)       // while and for
    | With(k: nat, body: Block)
    | Try(k: nat, body: Block, handlers: seq<Handler>, orelse: Block, finalbody: Block)

  datatype Handler = Handler(body: Block)

  // ---------------------------------------------------------------- Meaning

  datatype Out =
    | Fell(s: Store)
    | Returned(v: Value, s: Store)
    | Raised(v: Value, s: Store)
    | Broke(s: Store)
    | Continued(s: Store)
    | Unfinished                    // more turns of a loop than were allowed

  datatype World = World(o: Oracle, c: Credential)

  /** `fuel` bounds the turns of every loop; what is proved holds for every bound. */
  function Exec(w: World, st: Stmt, s: Store, fuel: nat): Out
    decreases fuel, st, 1
  {
    match st
    case Do(k) =>
      (match w.o(k, [], s) case Gives(_, s') => Fell(s') case Throws(v, s') => Raised(v, s'))
    case Pass => Fell(s)
    case Return(k) =>
      (match w.o(k, [], s) case Gives(v, s') => Returned(v, s') case Throws(v, s') => Raised(v, s'))
    case Raise(k) =>
      (match w.o(k, [], s) case Gives(v, s') => Raised(v, s') case Throws(v, s') => Raised(v, s'))
    case Break => Broke(s)
    case Continue => Continued(s)
    case If(test, body, orelse) =>
      (match Judge(w.o, w.c, test, s)
       case Holds(b, s') => if b then Run(w, body, s', fuel) else Run(w, orelse, s', fuel)
       case Fails(v, s') => Raised(v, s'))
    case Loop(k, body, orelse) =>
      (match w.o(k, [], s)
       case Throws(v, s') => Raised(v, s')
       case Gives(v, s') =>
         if !Truthy(v) then Run(w, orelse, s', fuel)
         else match Run(w, body, s', fuel)
           case Broke(s'') => Fell(s'')
           case Fell(s'') => if fuel == 0 then Unfinished else Exec(w, st, s'', fuel - 1)
           case Continued(s'') => if fuel == 0 then Unfinished else Exec(w, st, s'', fuel - 1)
           case out => out)
    case With(k, body) =>
      (match w.o(k, [], s)
       case Throws(v, s') => Raised(v, s')
       case Gives(_, s') => Leave(w, k, Run(w, body, s', fuel)))
    case Try(k, body, handlers, orelse, finalbody) =>
      var out := match Run(w, body, s, fuel)
        case Fell(s') => Run(w, orelse, s', fuel)
        case Raised(v, s') =>
          (match w.o(k, [v], s')
           case Gives(NumV(i), s'') =>
             if 0 <= i < |handlers| then Run(w, handlers[i].body, s'', fuel) else Raised(v, s'')
           case Gives(_, s'') => Raised(v, s'')
           case Throws(v', s'') => Raised(v', s''))
        case out => out;
      Finally(out, if out.Unfinished? then Fell(s) else Run(w, finalbody, out.s, fuel))
  }

  function Run(w: World, b: Block, s: Store, fuel: nat): Out
    decreases fuel, b, 0
  {
    if b == [] then Fell(s)
    else match Exec(w, b[0], s, fuel)
      case Fell(s') => Run(w, b[1..], s', fuel)
      case out => out
  }

  /** Leaving a `with` tells its context manager how the body ended; it may swallow an exception. */
  function Leave(w: World, k: nat, out: Out): Out {
    if out.Unfinished? then out
    else match w.o(k, [if out.Raised? then out.v else NoneV], out.s)
      case Throws(v, s') => Raised(v, s')
      case Gives(v, s') => if out.Raised? && Truthy(v) then Fell(s') else out.(s := s')
  }

  /** The `finally` block's own way of ending wins, unless it just falls through. */
  function Finally(out: Out, last: Out): Out {
    if out.Unfinished? then out
    else if last.Fell? then out.(s := last.s)
    else last
  }

  // ---------------------------------------------------------------- The pass

  predicate Ends(st: Stmt) {
    st.Return? || st.Raise?
  }

  predicate EndsBlock(b: Block) {
    b != [] && Ends(b[|b| - 1])
  }

  function OrPass(b: Block): Block {
    if b == [] then [Pass] else b
  }

  function Clean(st: Stmt): Block
    decreases st, 1
  {
    match st
    case If(test, body, orelse) =>
      (match StaticTruth(Rewrite(test))
       case Some(true) => CleanBlock(body)
       case Some(false) => CleanBlock(orelse)
       case None => [If(Rewrite(test), OrPass(CleanBlock(body)), CleanBlock(orelse))])
    case Loop(k, body, orelse) => [Loop(k, OrPass(CleanBlock(body)), CleanBlock(orelse))]
    case With(k, body) => [With(k, OrPass(CleanBlock(body)))]
    case Try(k, body, handlers, orelse, finalbody) =>
      [Try(k, OrPass(CleanBlock(body)), CleanHandlers(handlers), CleanBlock(orelse), CleanBlock(finalbody))]
    case _ => [st]
  }

  function CleanBlock(b: Block): Block
    decreases b, 0
  {
    if b == [] then []
    else
      var c := Clean(b[0]);
      if EndsBlock(c) then c else c + CleanBlock(b[1..])
  }

  function CleanHandlers(handlers: seq<Handler>): (r: seq<Handler>)
    ensures |r| == |handlers|
    decreases handlers, 0
  {
    if handlers == [] then [] else [Handler(OrPass(CleanBlock(handlers[0].body)))] + CleanHandlers(handlers[1..])
  }

  /** The pass as it is written: one list, extended statement by statement. */
  method CleanBlockLoop(statements: Block) returns (cleaned: Block)
    ensures cleaned == CleanBlock(statements) && Lean(cleaned)
    decreases statements, 0
  {
    CleanedIsLean(statements);
    cleaned := [];
    var i := 0;
    while i < |statements|
      invariant 0 <= i <= |statements|
      invariant CleanBlock(statements) == cleaned + CleanBlock(statements[i..])
      invariant !EndsBlock(cleaned)
      decreases |statements| - i
    {
      var result := CleanNode(statements[i]);
      assert statements[i..][0] == statements[i] && statements[i..][1..] == statements[i + 1..];
      ghost var before := cleaned;
      cleaned := cleaned + result;
      if result != [] { assert cleaned[|cleaned| - 1] == result[|result| - 1]; } else { assert cleaned == before; }
      if cleaned != [] && Ends(cleaned[|cleaned| - 1]) {
        assert EndsBlock(result) && CleanBlock(statements[i..]) == result;
        return;
      }
      assert cleaned + CleanBlock(statements[i + 1..]) == before + (result + CleanBlock(statements[i + 1..]));
      i := i + 1;
    }
    assert statements[i..] == [] && cleaned + [] == cleaned;
  }

  method CleanNode(node: Stmt) returns (result: Block)
    ensures result == Clean(node)
    decreases node, 1
  {
    match node {
      case If(test, body, orelse) =>
        var rewritten := Rewrite(test);
        var truth := StaticTruth(rewritten);
        if truth == Some(true) {
          result := CleanBlockLoop(body);
        } else if truth == Some(false) {
          result := CleanBlockLoop(orelse);
        } else {
          var newBody := CleanBlockLoop(body);
          var newOrelse := CleanBlockLoop(orelse);
          result := [If(rewritten, OrPass(newBody), newOrelse)];
        }
      case Loop(k, body, orelse) =>
        var newBody := CleanBlockLoop(body);
        var newOrelse := CleanBlockLoop(orelse);
        result := [Loop(k, OrPass(newBody), newOrelse)];
      case With(k, body) =>
        var newBody := CleanBlockLoop(body);
        result := [With(k, OrPass(newBody))];
      case Try(k, body, handlers, orelse, finalbody) =>
        var newBody := CleanBlockLoop(body);
        var newOrelse := CleanBlockLoop(orelse);
        var newFinal := CleanBlockLoop(finalbody);
        var newHandlers := [];
        var i := 0;
        while i < |handlers|
          invariant 0 <= i <= |handlers|
          invariant CleanHandlers(handlers) == newHandlers + CleanHandlers(handlers[i..])
          decreases |handlers| - i
        {
          var handler := CleanBlockLoop(handlers[i].body);
          assert handlers[i..][1..] == handlers[i + 1..];
          newHandlers := newHandlers + [Handler(OrPass(handler))];
          i := i + 1;
        }
        assert handlers[i..] == [] && newHandlers + [] == newHandlers;
        result := [Try(k, OrPass(newBody), newHandlers, newOrelse, newFinal)];
      case _ =>
        result := [node];
    }
  }

  // ---------------------------------------------------------------- The theorem

  /** A test the pass may rewrite: read for its truth, present, and, if it is decided, with nothing
      to lose: no operator comes before the decision, or its operators only look. */
  ghost predicate TestFits(w: World, test: Expr) {
    && Direct(test)
    && Present(w.c, test)
    && (StaticTruth(Rewrite(test)).Some? ==> WalkOf(Rewrite(test)).Decides? || Calm(w.o, test))
  }

  ghost predicate Fits(w: World, st: Stmt) {
    match st
    case If(test, body, orelse) => TestFits(w, test) && BlockFits(w, body) && BlockFits(w, orelse)
    case Loop(_, body, orelse) => BlockFits(w, body) && BlockFits(w, orelse)
    case With(_, body) => BlockFits(w, body)
    case Try(_, body, handlers, orelse, finalbody) =>
      && BlockFits(w, body) && BlockFits(w, orelse) && BlockFits(w, finalbody)
      && forall h :: h in handlers ==> BlockFits(w, h.body)
    case _ => true
  }

  ghost predicate BlockFits(w: World, b: Block) {
    forall st :: st in b ==> Fits(w, st)
  }

  lemma {:induction false} RunConcat(w: World, a: Block, b: Block, s: Store, fuel: nat)
    ensures Run(w, a + b, s, fuel) ==
            match Run(w, a, s, fuel) case Fell(s') => Run(w, b, s', fuel) case out => out
    decreases |a|
  {
    if a == [] {
      assert a + b == b;
    } else {
      assert (a + b)[0] == a[0] && (a + b)[1..] == a[1..] + b;
      if Exec(w, a[0], s, fuel).Fell? { RunConcat(w, a[1..], b, Exec(w, a[0], s, fuel).s, fuel); }
    }
  }

  lemma {:induction false} EndedBlocksDoNotFall(w: World, b: Block, s: Store, fuel: nat)
    requires EndsBlock(b)
    ensures !Run(w, b, s, fuel).Fell?
    decreases |b|
  {
    if |b| > 1 && Exec(w, b[0], s, fuel).Fell? {
      EndedBlocksDoNotFall(w, b[1..], Exec(w, b[0], s, fuel).s, fuel);
    }
  }

  lemma RunOne(w: World, st: Stmt, s: Store, fuel: nat)
    ensures Run(w, [st], s, fuel) == Exec(w, st, s, fuel)
  {
    assert [st][1..] == [];
  }

  lemma OrPassRuns(w: World, b: Block, s: Store, fuel: nat)
    ensures Run(w, OrPass(b), s, fuel) == Run(w, b, s, fuel)
  {
    RunOne(w, Pass, s, fuel);
  }

  /** A decided test that fits has the decided truth and no effect. */
  lemma DecidedTestsAreQuiet(w: World, test: Expr, s: Store)
    requires TestFits(w, test) && StaticTruth(Rewrite(test)).Some?
    ensures Judge(w.o, w.c, test, s) == Holds(StaticTruth(Rewrite(test)).value, s)
  {
    RewriteKeepsTests(w.o, w.c, test, s);
    if WalkOf(Rewrite(test)).Decides? {
      WalkDecides(w.o, w.c, Rewrite(test), s);
    } else {
      CalmTestsAreQuiet(w.o, w.c, test, s);
    }
    StaticTruthIsSound(w.o, w.c, Rewrite(test), s);
  }

  /** Cleaning keeps meaning: for every block that fits, from every store and with every bound on its
      loops, the cleaned block ends the same way, with the same value and the same store. */
  lemma {:induction false} CleaningKeepsBlocks(w: World, b: Block, s: Store, fuel: nat)
    requires BlockFits(w, b)
    ensures Run(w, CleanBlock(b), s, fuel) == Run(w, b, s, fuel)
    decreases fuel, b, 0
  {
    if b != [] {
      var c, rest := Clean(b[0]), b[1..];
      CleaningKeepsStatements(w, b[0], s, fuel);
      if EndsBlock(c) {
        EndedBlocksDoNotFall(w, c, s, fuel);
      } else {
        RunConcat(w, c, CleanBlock(rest), s, fuel);
        if Exec(w, b[0], s, fuel).Fell? {
          CleaningKeepsBlocks(w, rest, Exec(w, b[0], s, fuel).s, fuel);
        }
      }
    }
  }

  lemma {:induction false} CleaningKeepsStatements(w: World, st: Stmt, s: Store, fuel: nat)
    requires Fits(w, st)
    ensures Run(w, Clean(st), s, fuel) == Exec(w, st, s, fuel)
    decreases fuel, st, 1
  {
    match st {
      case If(test, body, orelse) => CleaningKeepsIf(w, st, s, fuel);
      case Loop(k, body, orelse) => CleaningKeepsLoop(w, st, s, fuel);
      case With(k, body) =>
        RunOne(w, Clean(st)[0], s, fuel);
        if w.o(k, [], s).Gives? {
          var s' := w.o(k, [], s).s;
          CleaningKeepsBlocks(w, body, s', fuel);
          OrPassRuns(w, CleanBlock(body), s', fuel);
        }
      case Try(_, _, _, _, _) => CleaningKeepsTry(w, st, s, fuel);
      case _ => RunOne(w, st, s, fuel);
    }
  }

  lemma {:induction false} CleaningKeepsIf(w: World, st: Stmt, s: Store, fuel: nat)
    requires st.If? && Fits(w, st)
    ensures Run(w, Clean(st), s, fuel) == Exec(w, st, s, fuel)
    decreases fuel, st, 0
  {
    var verdict := Judge(w.o, w.c, st.test, s);
    if StaticTruth(Rewrite(st.test)).Some? {
      DecidedTestsAreQuiet(w, st.test, s);
      if verdict.b { CleaningKeepsBlocks(w, st.body, s, fuel); } else { CleaningKeepsBlocks(w, st.orelse, s, fuel); }
    } else {
      RunOne(w, Clean(st)[0], s, fuel);
      RewriteKeepsTests(w.o, w.c, st.test, s);
      if verdict.Holds? {
        CleaningKeepsBlocks(w, st.body, verdict.s, fuel);
        CleaningKeepsBlocks(w, st.orelse, verdict.s, fuel);
        OrPassRuns(w, CleanBlock(st.body), verdict.s, fuel);
      }
    }
  }

  lemma {:induction false} CleaningKeepsLoop(w: World, st: Stmt, s: Store, fuel: nat)
    requires st.Loop? && Fits(w, st)
    ensures Run(w, Clean(st), s, fuel) == Exec(w, st, s, fuel)
    decreases fuel, st, 0
  {
    var c := Clean(st)[0];
    RunOne(w, c, s, fuel);
    var turn := w.o(st.k, [], s);
    if turn.Gives? {
      if !Truthy(turn.v) {
        CleaningKeepsBlocks(w, st.orelse, turn.s, fuel);
      } else {
        CleaningKeepsBlocks(w, st.body, turn.s, fuel);
        OrPassRuns(w, CleanBlock(st.body), turn.s, fuel);
        var out := Run(w, st.body, turn.s, fuel);
        if fuel > 0 && (out.Fell? || out.Continued?) {
          CleaningKeepsLoop(w, st, out.s, fuel - 1);
          RunOne(w, c, out.s, fuel - 1);
        }
      }
    }
  }

  lemma {:induction false} HandlersAreCleaned(handlers: seq<Handler>, i: nat)
    requires i < |handlers|
    ensures CleanHandlers(handlers)[i] == Handler(OrPass(CleanBlock(handlers[i].body)))
    decreases |handlers|
  {
    if i > 0 { HandlersAreCleaned(handlers[1..], i - 1); }
  }

  lemma {:induction false} CleaningKeepsTry(w: World, st: Stmt, s: Store, fuel: nat)
    requires st.Try? && Fits(w, st)
    ensures Run(w, Clean(st), s, fuel) == Exec(w, st, s, fuel)
    decreases fuel, st, 0
  {
    RunOne(w, Clean(st)[0], s, fuel);
    CleaningKeepsBlocks(w, st.body, s, fuel);
    OrPassRuns(w, CleanBlock(st.body), s, fuel);
    var first := Run(w, st.body, s, fuel);
    var out := first;
    if first.Fell? {
      CleaningKeepsBlocks(w, st.orelse, first.s, fuel);
      out := Run(w, st.orelse, first.s, fuel);
    } else if first.Raised? {
      var pick := w.o(st.k, [first.v], first.s);
      out := Raised(if pick.Throws? then pick.v else first.v, pick.s);
      if pick.Gives? && pick.v.NumV? && 0 <= pick.v.n < |st.handlers| {
        var i := pick.v.n;
        HandlersAreCleaned(st.handlers, i);
        assert st.handlers[i] in st.handlers;
        CleaningKeepsBlocks(w, st.handlers[i].body, pick.s, fuel);
        OrPassRuns(w, CleanBlock(st.handlers[i].body), pick.s, fuel);
        out := Run(w, st.handlers[i].body, pick.s, fuel);
      }
    }
    if !out.Unfinished? { CleaningKeepsBlocks(w, st.finalbody, out.s, fuel); }
  }

  // ---------------------------------------------------------------- What is left

  /** Nothing is left for the pass to do: nothing follows a return or a raise, no test reads the credential or has
      its truth settled by its constants, and no block that needs a statement is empty. */
  predicate Lean(b: Block)
    decreases b, 0
  {
    && (forall i :: 0 <= i < |b| - 1 ==> !b[i].Return? && !b[i].Raise?)
    && forall st :: st in b ==> LeanStmt(st)
  }

  predicate LeanStmt(st: Stmt)
    decreases st, 1
  {
    match st
    case If(test, body, orelse) =>
      Free(test) && MayBe(test, true) && MayBe(test, false) && body != [] && Lean(body) && Lean(orelse)
    case Loop(_, body, orelse) => body != [] && Lean(body) && Lean(orelse)
    case With(_, body) => body != [] && Lean(body)
    case Try(_, body, handlers, orelse, finalbody) =>
      && body != [] && Lean(body) && Lean(orelse) && Lean(finalbody)
      && forall h :: h in handlers ==> h.body != [] && Lean(h.body)
    case _ => true
  }

  lemma LeanTogether(a: Block, b: Block)
    requires Lean(a) && Lean(b) && !EndsBlock(a)
    ensures Lean(a + b)
  {
    forall i | 0 <= i < |a + b| - 1 ensures !(a + b)[i].Return? && !(a + b)[i].Raise? {
      if i < |a| { assert (a + b)[i] == a[i]; } else { assert (a + b)[i] == b[i - |a|]; }
    }
  }

  lemma OrPassIsLean(b: Block)
    requires Lean(b)
    ensures Lean(OrPass(b)) && OrPass(b) != []
  {
  }

  /** Whatever the block, the pass leaves no statement behind a return or a raise, no read in a test and no test that
      could be decided, at any depth. */
  lemma {:induction false} CleanedIsLean(b: Block)
    ensures Lean(CleanBlock(b))
    decreases b, 0
  {
    if b != [] {
      CleanedStatementIsLean(b[0]);
      CleanedIsLean(b[1..]);
      if !EndsBlock(Clean(b[0])) { LeanTogether(Clean(b[0]), CleanBlock(b[1..])); }
    }
  }

  lemma {:induction false} CleanedStatementIsLean(st: Stmt)
    ensures Lean(Clean(st))
    decreases st, 1
  {
    match st {
      case If(test, body, orelse) =>
        CleanedIsLean(body);
        CleanedIsLean(orelse);
        OrPassIsLean(CleanBlock(body));
        RewriteFrees(test);
        DecidedExactly(Rewrite(test), true);
        DecidedExactly(Rewrite(test), false);
      case Loop(_, body, orelse) =>
        CleanedIsLean(body);
        CleanedIsLean(orelse);
        OrPassIsLean(CleanBlock(body));
      case With(_, body) =>
        CleanedIsLean(body);
        OrPassIsLean(CleanBlock(body));
      case Try(_, body, handlers, orelse, finalbody) => CleanedTryIsLean(st);
      case _ =>
    }
  }

  lemma {:induction false} CleanedTryIsLean(st: Stmt)
    requires st.Try?
    ensures Lean(Clean(st))
    decreases st, 0
  {
    var handlers := CleanHandlers(st.handlers);
    CleanedIsLean(st.body);
    CleanedIsLean(st.orelse);
    CleanedIsLean(st.finalbody);
    OrPassIsLean(CleanBlock(st.body));
    forall i | 0 <= i < |handlers| ensures handlers[i].body != [] && Lean(handlers[i].body) {
      HandlersAreCleaned(st.handlers, i);
      assert st.handlers[i] in st.handlers;
      CleanedIsLean(st.handlers[i].body);
      OrPassIsLean(CleanBlock(st.handlers[i].body));
    }
  }

  /** A block is left as it is exactly when there is nothing to do. */
  lemma LeanBlocksStay(b: Block)
    ensures CleanBlock(b) == b <==> Lean(b)
  {
    CleanedIsLean(b);
    if Lean(b) { LeanStays(b); }
  }

  lemma {:induction false} LeanStays(b: Block)
    requires Lean(b)
    ensures CleanBlock(b) == b
    decreases b, 0
  {
    if b != [] {
      LeanStatementStays(b[0]);
      forall i | 0 <= i < |b[1..]| - 1 ensures !b[1..][i].Return? && !b[1..][i].Raise? { assert b[1..][i] == b[i + 1]; }
      LeanStays(b[1..]);
      if EndsBlock([b[0]]) { assert b == [b[0]]; }
      assert b == [b[0]] + b[1..];
    }
  }

  lemma {:induction false} LeanStatementStays(st: Stmt)
    requires LeanStmt(st)
    ensures Clean(st) == [st]
    decreases st, 1
  {
    match st {
      case If(test, body, orelse) =>
        LeanStays(body);
        LeanStays(orelse);
        FreeStays(test);
        DecidedExactly(test, true);
        DecidedExactly(test, false);
      case Loop(_, body, orelse) =>
        LeanStays(body);
        LeanStays(orelse);
      case With(_, body) => LeanStays(body);
      case Try(_, body, handlers, orelse, finalbody) =>
        LeanStays(body);
        LeanStays(orelse);
        LeanStays(finalbody);
        LeanHandlersStay(handlers);
      case _ =>
    }
  }

  lemma {:induction false} LeanHandlersStay(handlers: seq<Handler>)
    requires forall h :: h in handlers ==> h.body != [] && Lean(h.body)
    ensures CleanHandlers(handlers) == handlers
    decreases handlers, 0
  {
    if handlers != [] {
      assert handlers[0] in handlers;
      LeanStays(handlers[0].body);
      LeanHandlersStay(handlers[1..]);
    }
  }

  /** Cleaning is done in one go. */
  lemma CleaningIsIdempotent(b: Block)
    ensures CleanBlock(CleanBlock(b)) == CleanBlock(b)
  {
    CleanedIsLean(b);
    LeanStays(CleanBlock(b));
  }

  // ---------------------------------------------------------------- Where meaning is not kept

  /** `if check() and not auth_info: ...` is decided although `check` runs first: when `check` raises,
      the original raises and the cleaned block does not. */
  lemma FoldingDropsAnEffect(c: Credential, s: Store, fuel: nat)
    requires c != map[]
    ensures var st := If(And([Op(1, []), Not(Bare)]), [Pass], []);
      var w := World(REFUSES, c);
      Run(w, [st], s, fuel) == Raised(NoneV, s) && Run(w, CleanBlock([st]), s, fuel) == Fell(s)
  {
    var test := And([Op(1, []), Not(Bare)]);
    var st := If(test, [Pass], []);
    RunOne(World(REFUSES, c), st, s, fuel);
    assert EvalAll(REFUSES, c, [], s) == GiveAll([], s);
    assert Eval(REFUSES, c, Op(1, []), s) == Throws(NoneV, s);
    assert RewriteAll([Not(Bare)]) == [Not(Const(BoolV(true)))];
    assert Rewrite(test) == And([Op(1, []), Not(Const(BoolV(true)))]);
    assert Truths([Not(Const(BoolV(true)))]) == [Some(false)];
    assert Truths([Op(1, []), Not(Const(BoolV(true)))]) == [None, Some(false)];
    assert StaticTruth(Rewrite(test)) == Some(false);
    assert CleanBlock([st]) == [];
  }

  /** A constant, or a read of the credential itself. */
  predicate IsLeaf(e: Expr) {
    e.Const? || (e.Read? && IsCredential(e.field))
  }

  function LeafValue(c: Credential, e: Expr): Value {
    match e
    case Const(v) => v
    case Read(field) => if field in c then c[field] else NoneV
    case _ => NoneV
  }

  function LeafValues(c: Credential, es: seq<Expr>): seq<Value> {
    if es == [] then [] else [LeafValue(c, es[0])] + LeafValues(c, es[1..])
  }

  lemma {:induction false} LeavesGiveTheirValues(o: Oracle, c: Credential, es: seq<Expr>, s: Store)
    requires forall e :: e in es ==> IsLeaf(e)
    ensures EvalAll(o, c, es, s) == GiveAll(LeafValues(c, es), s)
  {
    if es != [] {
      assert IsLeaf(es[0]);
      LeavesGiveTheirValues(o, c, es[1..], s);
    }
  }

  lemma {:induction false} LeavesStayLeaves(es: seq<Expr>)
    requires forall e :: e in es ==> IsLeaf(e)
    ensures forall e :: e in RewriteAll(es) ==> IsLeaf(e)
  {
    if es != [] {
      assert IsLeaf(es[0]);
      LeavesStayLeaves(es[1..]);
      assert RewriteAll(es) == [Rewrite(es[0])] + RewriteAll(es[1..]);
    }
  }

  lemma {:induction false} ValuesStayIfTrue(c: Credential, es: seq<Expr>)
    requires forall e :: e in es ==> IsLeaf(e)
    ensures LeafValues(c, RewriteAll(es)) == LeafValues(c, es) <==>
            forall e :: e in es && e.Read? ==> LeafValue(c, e) == BoolV(true)
  {
    if es != [] {
      var was, now := LeafValues(c, es), LeafValues(c, RewriteAll(es));
      assert RewriteAll(es)[1..] == RewriteAll(es[1..]);
      ValuesStayIfTrue(c, es[1..]);
      assert IsLeaf(es[0]) && now[0] == LeafValue(c, Rewrite(es[0]));
      assert was == [was[0]] + was[1..] && now == [now[0]] + now[1..];
      assert es == [es[0]] + es[1..];
    }
  }

  /** An operator over constants and reads of the credential is kept by the rewrite, whatever the operator does,
      if and only if every field it is given holds nothing but `True`: a credential that is compared or passed on
      is not kept. */
  lemma OperatorsOnReadsAreKeptExactly(c: Credential, k: nat, args: seq<Expr>)
    requires forall e :: e in args ==> IsLeaf(e)
    ensures (forall o: Oracle, s: Store :: Judge(o, c, Rewrite(Op(k, args)), s) == Judge(o, c, Op(k, args), s)) <==>
            forall e :: e in args && e.Read? ==> LeafValue(c, e) == BoolV(true)
  {
    var was, now := LeafValues(c, args), LeafValues(c, RewriteAll(args));
    LeavesStayLeaves(args);
    ValuesStayIfTrue(c, args);
    forall o: Oracle, s: Store
      ensures Judge(o, c, Op(k, args), s) == AsVerdict(o(k, was, s))
      ensures Judge(o, c, Rewrite(Op(k, args)), s) == AsVerdict(o(k, now, s))
    {
      LeavesGiveTheirValues(o, c, args, s);
      LeavesGiveTheirValues(o, c, RewriteAll(args), s);
    }
    if was != now {
      var tells: Oracle := (k, vs, s) => Gives(BoolV(vs == was), s);
      assert Judge(tells, c, Op(k, args), map[]) == Holds(true, map[]);
      assert Judge(tells, c, Rewrite(Op(k, args)), map[]) == Holds(false, map[]);
    }
  }

  function Compare(k: nat, vs: seq<Value>, s: Store): Result {
    Gives(BoolV(|vs| == 2 && vs[0] == vs[1]), s)
  }

  lemma ComparesTwo(c: Credential, a: Expr, b: Expr, x: Value, y: Value, s: Store)
    requires Eval(Compare, c, a, s) == Gives(x, s) && Eval(Compare, c, b, s) == Gives(y, s)
    ensures Judge(Compare, c, Op(1, [a, b]), s) == Holds(x == y, s)
  {
    assert [a, b][1..] == [b];
    assert EvalAll(Compare, c, [b], s) == GiveAll([y], s);
    assert EvalAll(Compare, c, [a, b], s) == GiveAll([x, y], s);
  }

  /** `auth_info["token"] == x` compares the credential; its rewrite compares `True`. */
  lemma IndirectReadsChange(token: string, s: Store)
    ensures var test := Op(1, [Read("token"), Const(StrV(token))]);
      var c: Credential := map["token" := StrV(token)];
      Judge(Compare, c, test, s) == Holds(true, s) && Judge(Compare, c, Rewrite(test), s) == Holds(false, s)
  {
    var c: Credential := map["token" := StrV(token)];
    var args := [Read("token"), Const(StrV(token))];
    assert ToLower("token") == "token";
    assert args[1..] == [Const(StrV(token))];
    assert RewriteAll(args[1..]) == [Const(StrV(token))];
    assert RewriteAll(args) == [Const(BoolV(true)), Const(StrV(token))];
    ComparesTwo(c, args[0], args[1], StrV(token), StrV(token), s);
    ComparesTwo(c, Const(BoolV(true)), args[1], BoolV(true), StrV(token), s);
  }
}
