// Folding credential checks out of an atom.
//
// The migrator rewrites every `if` test so that a credential read is true, decides the test if it can,
// splices the surviving branch in place of the `if`, and drops what follows a return or
// a raise. Expressions and statements that do not mention the credential are opaque here: an oracle
// says what they compute, change and raise.
module ConditionFolding {
  import opened Wrappers
  import opened Text

  datatype Value = NoneV | BoolV(b: bool) | NumV(n: int) | StrV(s: string) | ObjV(id: nat, truthy: bool)

  predicate Truthy(v: Value) {
    match v
    case NoneV => false
    case BoolV(b) => b
    case NumV(n) => n != 0
    case StrV(s) => s != ""
    case ObjV(_, t) => t
  }

  type Store = map<string, Value>

  datatype Result = Gives(v: Value, s: Store) | Throws(v: Value, s: Store)

  /** What an operator makes of its arguments and the store. */
  type Oracle = (nat, seq<Value>, Store) -> Result

  datatype Expr =
    | Const(v: Value)
    | Read(field: string)              // auth_info["field"] or auth_info.get("field")
    | Bare                             // auth_info itself
    | Op(k: nat, args: seq<Expr>)      // anything else, applied to its parts; a dict display with a read of the
                                       // credential in it is not such an `Op`: its entry is pruned before the rewrite
    | Not(e: Expr)
    | And(es: seq<Expr>)
    | Or(es: seq<Expr>)

  const CREDENTIAL_FIELDS: set<string> := {
    "access_token", "refresh_token", "api_key", "api_token", "apikey", "token",
    "api_secret", "secret", "password", "username", "client_id", "client_secret",
    "session_token", "private_token", "key", "auth_token", "bearer"
  }

  predicate IsCredential(field: string) {
    ToLower(field) in CREDENTIAL_FIELDS
  }

  /** The operator a `get` on something that is not `auth_info` any more is. */
  const GET := 0

  // ---------------------------------------------------------------- Meaning of expressions

  type Credential = map<string, Value>

  datatype Results = GiveAll(vs: seq<Value>, s: Store) | ThrowOne(v: Value, s: Store)

  function Eval(o: Oracle, c: Credential, e: Expr, s: Store): Result
    decreases e, 1
  {
    match e
    case Const(v) => Gives(v, s)
    case Read(field) => Gives(if field in c then c[field] else NoneV, s)
    case Bare => Gives(ObjV(0, c != map[]), s)
    case Op(k, args) =>
      (match EvalAll(o, c, args, s)
       case GiveAll(vs, s') => o(k, vs, s')
       case ThrowOne(v, s') => Throws(v, s'))
    case Not(e) =>
      (match Eval(o, c, e, s)
       case Gives(v, s') => Gives(BoolV(!Truthy(v)), s')
       case Throws(v, s') => Throws(v, s'))
    case And(es) => EvalUntil(o, c, es, false, s)
    case Or(es) => EvalUntil(o, c, es, true, s)
  }

  function EvalAll(o: Oracle, c: Credential, es: seq<Expr>, s: Store): Results
    decreases es, 0
  {
    if es == [] then GiveAll([], s)
    else match Eval(o, c, es[0], s)
      case Throws(v, s') => ThrowOne(v, s')
      case Gives(v, s') =>
        match EvalAll(o, c, es[1..], s')
        case ThrowOne(w, s'') => ThrowOne(w, s'')
        case GiveAll(vs, s'') => GiveAll([v] + vs, s'')
  }

  /** `and` stops at the first false operand, `or` at the first true one. */
  function EvalUntil(o: Oracle, c: Credential, es: seq<Expr>, stop: bool, s: Store): Result
    decreases es, 0
  {
    if es == [] then Gives(BoolV(!stop), s)
    else match Eval(o, c, es[0], s)
      case Throws(v, s') => Throws(v, s')
      case Gives(v, s') =>
        if Truthy(v) == stop || |es| == 1 then Gives(v, s') else EvalUntil(o, c, es[1..], stop, s')
  }

  /** A test only matters for its truth, its effect and what it raises. */
  datatype Verdict = Holds(b: bool, s: Store) | Fails(v: Value, s: Store)

  function AsVerdict(r: Result): Verdict {
    match r
    case Gives(v, s) => Holds(Truthy(v), s)
    case Throws(v, s) => Fails(v, s)
  }

  function Judge(o: Oracle, c: Credential, e: Expr, s: Store): Verdict {
    AsVerdict(Eval(o, c, e, s))
  }

  // ---------------------------------------------------------------- The rewrite

  /** The test with every read of the credential taken as true, whatever it compares or passes on. */
  function Rewrite(e: Expr): Expr {
    match e
    case Const(_) => e
    case Read(field) =>
      if IsCredential(field) then Const(BoolV(true))
      else Op(GET, [Const(BoolV(true)), Const(StrV(field))])
    case Bare => Const(BoolV(true))
    case Op(k, args) => Op(k, RewriteAll(args))
    case Not(e) => Not(Rewrite(e))
    case And(es) => And(RewriteAll(es))
    case Or(es) => Or(RewriteAll(es))
  }

  function RewriteAll(es: seq<Expr>): (r: seq<Expr>)
    ensures |r| == |es|
  {
    if es == [] then [] else [Rewrite(es[0])] + RewriteAll(es[1..])
  }

  /** The truth of a test as far as its constants settle it. */
  function StaticTruth(e: Expr): Option<bool> {
    match e
    case Const(v) => Some(Truthy(v))
    case Not(e) => (match StaticTruth(e) case Some(b) => Some(!b) case None => None)
    case And(es) => if Some(false) in Truths(es) then Some(false) else if AllAre(Truths(es), true) then Some(true) else None
    case Or(es) => if Some(true) in Truths(es) then Some(true) else if AllAre(Truths(es), false) then Some(false) else None
    case _ => None
  }

  function Truths(es: seq<Expr>): seq<Option<bool>> {
    if es == [] then [] else [StaticTruth(es[0])] + Truths(es[1..])
  }

  predicate AllAre(ts: seq<Option<bool>>, b: bool) {
    forall t :: t in ts ==> t == Some(b)
  }

  // ---------------------------------------------------------------- When the rewrite is read as meant

  /** The credential is read for its truth only, and only its own fields are read. */
  predicate Direct(e: Expr) {
    match e
    case Read(field) => IsCredential(field)
    case Op(_, args) => forall a :: a in args ==> Steady(a)
    case Not(e) => Direct(e)
    case And(es) => forall a :: a in es ==> Direct(a)
    case Or(es) => forall a :: a in es ==> Direct(a)
    case _ => true
  }

  /** An operand whose value does not depend on more of the credential than a truth: `not` makes one of any test
      that reads directly, and operators may be given such operands. */
  predicate Steady(e: Expr) {
    match e
    case Const(_) => true
    case Op(_, args) => forall a :: a in args ==> Steady(a)
    case Not(e) => Direct(e)
    case And(es) => forall a :: a in es ==> Steady(a)
    case Or(es) => forall a :: a in es ==> Steady(a)
    case _ => false
  }

  /** Whatever the test reads of the credential is there. */
  predicate Present(c: Credential, e: Expr) {
    match e
    case Read(field) => field in c && Truthy(c[field])
    case Bare => c != map[]
    case Op(_, args) => forall a :: a in args ==> Present(c, a)
    case Not(e) => Present(c, e)
    case And(es) => forall a :: a in es ==> Present(c, a)
    case Or(es) => forall a :: a in es ==> Present(c, a)
    case Const(_) => true
  }

  /** A rewritten test that is read as meant has the truth, the effect and the exceptions it had. */
  lemma {:induction false} RewriteKeepsTests(o: Oracle, c: Credential, e: Expr, s: Store)
    requires Direct(e) && Present(c, e)
    ensures Judge(o, c, Rewrite(e), s) == Judge(o, c, e, s)
    decreases e, 2
  {
    match e {
      case Op(_, args) => RewriteKeepsArguments(o, c, args, s);
      case Not(e) => RewriteKeepsTests(o, c, e, s);
      case And(es) => RewriteKeepsOperands(o, c, es, false, s);
      case Or(es) => RewriteKeepsOperands(o, c, es, true, s);
      case _ =>
    }
  }

  lemma {:induction false} RewriteKeepsOperands(o: Oracle, c: Credential, es: seq<Expr>, stop: bool, s: Store)
    requires forall a :: a in es ==> Direct(a) && Present(c, a)
    ensures AsVerdict(EvalUntil(o, c, RewriteAll(es), stop, s)) == AsVerdict(EvalUntil(o, c, es, stop, s))
    decreases es, 0
  {
    if es != [] {
      RewriteKeepsTests(o, c, es[0], s);
      assert RewriteAll(es)[1..] == RewriteAll(es[1..]);
      if Eval(o, c, es[0], s).Gives? {
        RewriteKeepsOperands(o, c, es[1..], stop, Eval(o, c, es[0], s).s);
      }
    }
  }

  /** A rewritten operand has the very value it had. */
  lemma {:induction false} RewriteKeepsValues(o: Oracle, c: Credential, e: Expr, s: Store)
    requires Steady(e) && Present(c, e)
    ensures Eval(o, c, Rewrite(e), s) == Eval(o, c, e, s)
    decreases e, 1
  {
    match e {
      case Op(_, args) => RewriteKeepsArguments(o, c, args, s);
      case Not(e) => RewriteKeepsTests(o, c, e, s);
      case And(es) => RewriteKeepsSteady(o, c, es, false, s);
      case Or(es) => RewriteKeepsSteady(o, c, es, true, s);
      case Const(_) =>
    }
  }

  lemma {:induction false} RewriteKeepsArguments(o: Oracle, c: Credential, es: seq<Expr>, s: Store)
    requires forall a :: a in es ==> Steady(a) && Present(c, a)
    ensures EvalAll(o, c, RewriteAll(es), s) == EvalAll(o, c, es, s)
    decreases es, 0
  {
    if es != [] {
      RewriteKeepsValues(o, c, es[0], s);
      assert RewriteAll(es)[1..] == RewriteAll(es[1..]);
      if Eval(o, c, es[0], s).Gives? { RewriteKeepsArguments(o, c, es[1..], Eval(o, c, es[0], s).s); }
    }
  }

  lemma {:induction false} RewriteKeepsSteady(o: Oracle, c: Credential, es: seq<Expr>, stop: bool, s: Store)
    requires forall a :: a in es ==> Steady(a) && Present(c, a)
    ensures EvalUntil(o, c, RewriteAll(es), stop, s) == EvalUntil(o, c, es, stop, s)
    decreases es, 0
  {
    if es != [] {
      RewriteKeepsValues(o, c, es[0], s);
      assert RewriteAll(es)[1..] == RewriteAll(es[1..]);
      if Eval(o, c, es[0], s).Gives? { RewriteKeepsSteady(o, c, es[1..], stop, Eval(o, c, es[0], s).s); }
    }
  }

  // ---------------------------------------------------------------- Deciding a test

  /** Three-valued evaluation is sound: a decided test, if it evaluates at all, has that truth,
      whatever its undecided operands compute or change. */
  lemma {:induction false} StaticTruthIsSound(o: Oracle, c: Credential, e: Expr, s: Store)
    requires StaticTruth(e).Some? && Judge(o, c, e, s).Holds?
    ensures Judge(o, c, e, s).b == StaticTruth(e).value
    decreases e, 1
  {
    match e {
      case Not(e) => StaticTruthIsSound(o, c, e, s);
      case And(es) => TruthsAreSound(o, c, es, false, s);
      case Or(es) => TruthsAreSound(o, c, es, true, s);
      case Const(_) =>
    }
  }

  lemma {:induction false} TruthsAreSound(o: Oracle, c: Credential, es: seq<Expr>, stop: bool, s: Store)
    requires EvalUntil(o, c, es, stop, s).Gives?
    ensures Some(stop) in Truths(es) ==> Truthy(EvalUntil(o, c, es, stop, s).v) == stop
    ensures AllAre(Truths(es), !stop) ==> Truthy(EvalUntil(o, c, es, stop, s).v) == !stop
    decreases es, 0
  {
    if es != [] {
      var r := Eval(o, c, es[0], s);
      if StaticTruth(es[0]).Some? { StaticTruthIsSound(o, c, es[0], s); }
      assert Truths(es)[0] == StaticTruth(es[0]) && Truths(es)[1..] == Truths(es[1..]);
      assert forall t :: t in Truths(es) <==> t == StaticTruth(es[0]) || t in Truths(es[1..]);
      assert StaticTruth(es[0]) in Truths(es);
      if |es| == 1 {
        assert es[1..] == [] && Truths(es) == [StaticTruth(es[0])];
      } else if Truthy(r.v) != stop {
        TruthsAreSound(o, c, es[1..], stop, r.s);
      }
    }
  }

  /** How far a test gets before it meets an operator. */
  datatype Walk = Decides(b: bool) | Meets

  function WalkOf(e: Expr): Walk {
    match e
    case Const(v) => Decides(Truthy(v))
    case Not(e) => (match WalkOf(e) case Decides(b) => Decides(!b) case Meets => Meets)
    case And(es) => WalkUntil(es, false)
    case Or(es) => WalkUntil(es, true)
    case _ => Meets
  }

  function WalkUntil(es: seq<Expr>, stop: bool): Walk {
    if es == [] then Decides(!stop)
    else match WalkOf(es[0])
      case Meets => Meets
      case Decides(b) => if b == stop then Decides(b) else WalkUntil(es[1..], stop)
  }

  lemma {:induction false} WalkDecides(o: Oracle, c: Credential, e: Expr, s: Store)
    requires WalkOf(e).Decides?
    ensures Judge(o, c, e, s) == Holds(WalkOf(e).b, s)
    decreases e, 1
  {
    match e {
      case Not(e) => WalkDecides(o, c, e, s);
      case And(es) => WalkUntilDecides(o, c, es, false, s);
      case Or(es) => WalkUntilDecides(o, c, es, true, s);
      case Const(_) =>
    }
  }

  lemma {:induction false} WalkUntilDecides(o: Oracle, c: Credential, es: seq<Expr>, stop: bool, s: Store)
    requires WalkUntil(es, stop).Decides?
    ensures AsVerdict(EvalUntil(o, c, es, stop, s)) == Holds(WalkUntil(es, stop).b, s)
    decreases es, 0
  {
    if es != [] {
      WalkDecides(o, c, es[0], s);
      if WalkOf(es[0]).b != stop { WalkUntilDecides(o, c, es[1..], stop, s); }
    }
  }

  /** The oracle whose operators all raise. */
  const REFUSES: Oracle := (k, vs, s) => Throws(NoneV, s)

  lemma {:induction false} WalkMeets(c: Credential, e: Expr, s: Store)
    requires WalkOf(e).Meets? && AfterRewrite(e)
    ensures Judge(REFUSES, c, e, s).Fails?
    decreases e, 1
  {
    match e {
      case Not(e) => WalkMeets(c, e, s);
      case And(es) => WalkUntilMeets(c, es, false, s);
      case Or(es) => WalkUntilMeets(c, es, true, s);
      case Op(_, args) =>
    }
  }

  lemma {:induction false} WalkUntilMeets(c: Credential, es: seq<Expr>, stop: bool, s: Store)
    requires WalkUntil(es, stop).Meets? && forall a :: a in es ==> AfterRewrite(a)
    ensures EvalUntil(REFUSES, c, es, stop, s).Throws?
    decreases es, 0
  {
    if WalkOf(es[0]).Meets? {
      WalkMeets(c, es[0], s);
    } else {
      WalkDecides(REFUSES, c, es[0], s);
      WalkUntilMeets(c, es[1..], stop, s);
    }
  }

  // ---------------------------------------------------------------- What is decided

  /** Whether the test may come out as `b` when each of its operators may come out either way. */
  predicate MayBe(e: Expr, b: bool)
    decreases e, 1
  {
    match e
    case Const(v) => Truthy(v) == b
    case Not(e) => MayBe(e, !b)
    case And(es) => if b then AllMayBe(es, true) else OneMayBe(es, false)
    case Or(es) => if b then OneMayBe(es, true) else AllMayBe(es, false)
    case _ => true
  }

  predicate AllMayBe(es: seq<Expr>, b: bool)
    decreases es, 0
  {
    es == [] || (MayBe(es[0], b) && AllMayBe(es[1..], b))
  }

  predicate OneMayBe(es: seq<Expr>, b: bool)
    decreases es, 0
  {
    es != [] && (MayBe(es[0], b) || OneMayBe(es[1..], b))
  }

  /** A test is decided exactly when its constants leave it one truth. */
  lemma {:induction false} DecidedExactly(e: Expr, b: bool)
    ensures StaticTruth(e) == Some(b) <==> !MayBe(e, !b)
    ensures MayBe(e, true) || MayBe(e, false)
    decreases e, 1
  {
    match e {
      case Not(e) => DecidedExactly(e, !b);
      case And(es) => OperandsDecided(es, true); OperandsDecided(es, false);
      case Or(es) => OperandsDecided(es, true); OperandsDecided(es, false);
      case _ =>
    }
  }

  lemma {:induction false} OperandsDecided(es: seq<Expr>, b: bool)
    ensures Some(b) in Truths(es) <==> !AllMayBe(es, !b)
    ensures AllAre(Truths(es), b) <==> !OneMayBe(es, !b)
    ensures AllMayBe(es, b) || OneMayBe(es, !b)
    decreases es, 0
  {
    if es != [] {
      DecidedExactly(es[0], b);
      OperandsDecided(es[1..], b);
      assert Truths(es) == [StaticTruth(es[0])] + Truths(es[1..]);
      assert forall t :: t in Truths(es) <==> t == StaticTruth(es[0]) || t in Truths(es[1..]);
      assert StaticTruth(es[0]) in Truths(es);
    }
  }

  /** A test that may come out either way meets an operator before anything decides it. */
  lemma OpenTestsMeet(e: Expr)
    requires MayBe(e, true) && MayBe(e, false)
    ensures WalkOf(e).Meets?
  {
    WalksGoOneWay(e);
  }

  lemma {:induction false} WalksGoOneWay(e: Expr)
    ensures WalkOf(e).Decides? ==> !MayBe(e, !WalkOf(e).b)
    decreases e, 1
  {
    match e {
      case Not(e) => WalksGoOneWay(e);
      case And(es) => WalkUntilGoesOneWay(es, false);
      case Or(es) => WalkUntilGoesOneWay(es, true);
      case _ =>
    }
  }

  lemma {:induction false} WalkUntilGoesOneWay(es: seq<Expr>, stop: bool)
    ensures WalkUntil(es, stop) == Decides(stop) ==> !AllMayBe(es, !stop)
    ensures WalkUntil(es, stop) == Decides(!stop) ==> !OneMayBe(es, stop)
    decreases es, 0
  {
    if es != [] {
      WalksGoOneWay(es[0]);
      WalkUntilGoesOneWay(es[1..], stop);
    }
  }

  /** No part of the expression reads the credential. */
  predicate Free(e: Expr) {
    match e
    case Const(_) => true
    case Op(_, args) => forall a :: a in args ==> Free(a)
    case Not(e) => Free(e)
    case And(es) => forall a :: a in es ==> Free(a)
    case Or(es) => forall a :: a in es ==> Free(a)
    case _ => false
  }

  /** The rewrite leaves no read anywhere. */
  lemma {:induction false} RewriteFrees(e: Expr)
    ensures Free(Rewrite(e))
    decreases e, 1
  {
    match e {
      case Op(_, args) => RewriteFreesAll(args);
      case Not(e) => RewriteFrees(e);
      case And(es) => RewriteFreesAll(es);
      case Or(es) => RewriteFreesAll(es);
      case _ =>
    }
  }

  lemma {:induction false} RewriteFreesAll(es: seq<Expr>)
    ensures forall a :: a in RewriteAll(es) ==> Free(a)
    decreases es, 0
  {
    if es != [] {
      RewriteFrees(es[0]);
      RewriteFreesAll(es[1..]);
    }
  }

  /** The rewrite changes nothing that reads nothing. */
  lemma {:induction false} FreeStays(e: Expr)
    requires Free(e)
    ensures Rewrite(e) == e
    decreases e, 1
  {
    match e {
      case Op(_, args) => FreeStayAll(args);
      case Not(e) => FreeStays(e);
      case And(es) => FreeStayAll(es);
      case Or(es) => FreeStayAll(es);
      case _ =>
    }
  }

  lemma {:induction false} FreeStayAll(es: seq<Expr>)
    requires forall a :: a in es ==> Free(a)
    ensures RewriteAll(es) == es
    decreases es, 0
  {
    if es != [] {
      assert es[0] in es;
      FreeStays(es[0]);
      FreeStayAll(es[1..]);
    }
  }

  /** A test of one read is decided exactly if the field is a credential's, in capitals or not; a field that is
      not may come out either way. */
  lemma ReadsAreDecidedExactly(field: string)
    ensures ToLower(field) in CREDENTIAL_FIELDS ==> StaticTruth(Rewrite(Read(field))) == Some(true)
    ensures ToLower(field) !in CREDENTIAL_FIELDS ==> MayBe(Rewrite(Read(field)), true) && MayBe(Rewrite(Read(field)), false)
    ensures StaticTruth(Rewrite(Bare)) == Some(true)
  {
  }

  /** No read is left outside an operator. */
  predicate AfterRewrite(e: Expr) {
    match e
    case Read(_) => false
    case Bare => false
    case Not(e) => AfterRewrite(e)
    case And(es) => forall a :: a in es ==> AfterRewrite(a)
    case Or(es) => forall a :: a in es ==> AfterRewrite(a)
    case _ => true
  }

  lemma {:induction false} NoReadIsLeft(e: Expr)
    ensures AfterRewrite(Rewrite(e))
    decreases e, 1
  {
    match e {
      case Not(e) => NoReadIsLeft(e);
      case And(es) => NoReadIsLeftIn(es);
      case Or(es) => NoReadIsLeftIn(es);
      case _ =>
    }
  }

  lemma {:induction false} NoReadIsLeftIn(es: seq<Expr>)
    ensures forall a :: a in RewriteAll(es) ==> AfterRewrite(a)
    decreases es, 0
  {
    if es != [] {
      NoReadIsLeft(es[0]);
      NoReadIsLeftIn(es[1..]);
    }
  }

  /** Replacing a decided test by its truth is right for every behaviour of the operators exactly
      when no operator is evaluated before the decision. */
  lemma FoldingIsExact(c: Credential, e: Expr, b: bool)
    requires AfterRewrite(e) && StaticTruth(e) == Some(b)
    ensures (forall o: Oracle, s: Store :: Judge(o, c, e, s) == Holds(b, s)) <==> WalkOf(e) == Decides(b)
  {
    if WalkOf(e).Decides? {
      forall o: Oracle, s: Store ensures Judge(o, c, e, s) == Holds(b, s) {
        WalkDecides(o, c, e, s);
        StaticTruthIsSound(o, c, e, s);
      }
      WalkDecides(REFUSES, c, e, map[]);
    } else {
      WalkMeets(c, e, map[]);
    }
  }

  /** The operators of the test raise nothing and change nothing. */
  ghost predicate Calm(o: Oracle, e: Expr) {
    match e
    case Op(k, args) => CalmOp(o, k) && forall a :: a in args ==> Calm(o, a)
    case Not(e) => Calm(o, e)
    case And(es) => forall a :: a in es ==> Calm(o, a)
    case Or(es) => forall a :: a in es ==> Calm(o, a)
    case _ => true
  }

  ghost predicate CalmOp(o: Oracle, k: nat) {
    forall vs, s :: o(k, vs, s).Gives? && o(k, vs, s).s == s
  }

  lemma {:induction false} CalmTestsAreQuiet(o: Oracle, c: Credential, e: Expr, s: Store)
    requires Calm(o, e)
    ensures Eval(o, c, e, s).Gives? && Eval(o, c, e, s).s == s
    decreases e, 1
  {
    match e {
      case Op(k, args) => CalmArgumentsAreQuiet(o, c, args, s);
      case Not(e) => CalmTestsAreQuiet(o, c, e, s);
      case And(es) => CalmOperandsAreQuiet(o, c, es, false, s);
      case Or(es) => CalmOperandsAreQuiet(o, c, es, true, s);
      case _ =>
    }
  }

  lemma {:induction false} CalmArgumentsAreQuiet(o: Oracle, c: Credential, es: seq<Expr>, s: Store)
    requires forall a :: a in es ==> Calm(o, a)
    ensures EvalAll(o, c, es, s).GiveAll? && EvalAll(o, c, es, s).s == s
    decreases es, 0
  {
    if es != [] {
      CalmTestsAreQuiet(o, c, es[0], s);
      CalmArgumentsAreQuiet(o, c, es[1..], s);
    }
  }

  lemma {:induction false} CalmOperandsAreQuiet(o: Oracle, c: Credential, es: seq<Expr>, stop: bool, s: Store)
    requires forall a :: a in es ==> Calm(o, a)
    ensures EvalUntil(o, c, es, stop, s).Gives? && EvalUntil(o, c, es, stop, s).s == s
    decreases es, 0
  {
    if es != [] {
      CalmTestsAreQuiet(o, c, es[0], s);
      CalmOperandsAreQuiet(o, c, es[1..], stop, s);
    }
  }
}
