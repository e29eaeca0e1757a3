// Index and lists of one account, over runs in which its calls take turns.
//
// Links and unlinks of the account wait for every other call on it; sign-ins may overlap each other, and
// everything else (other accounts, removals, registrations, codes) interleaves freely. Over every such run
// index and lists agree on the account at rest if and only if no link was overtaken by the removal of the
// person it takes the account from.
module IdentityTurns {
  import opened Wrappers
  import opened IdentityProtocol
  import opened IdentityInvariant
  import opened IdentityTheorems
  import opened Identities
  import opened IdentityLists

  // ---------------------------------------------------------------- Whose turn it is

  /** A link or an unlink of the account in progress. */
  predicate Rewrites(p: Proc, ref: Ref) {
    if p.Updating? then
      || p.change == AddAccount(ref) || p.change == DropAccount(ref)
      || (p.next.ThenSetAccount? && RefOf(p.next.a) == ref) || (p.next.ThenLinked? && RefOf(p.next.a) == ref)
    else InRewrite(p) && RefOf(p.a) == ref
  }

  /** A sign-in of the account in progress. */
  predicate SignsIn(p: Proc, ref: Ref) {
    if p.Updating? then p.next.ThenResolved? && RefOf(p.next.a) == ref else InSignIn(p) && RefOf(p.a) == ref
  }

  predicate Concerns(p: Proc, ref: Ref) {
    Rewrites(p, ref) || SignsIn(p, ref)
  }

  /** While a link or an unlink of the account runs, no other call on it does. */
  ghost predicate TakesTurns(s: State, ref: Ref) {
    forall pid, other ::
      (pid in s.procs && other in s.procs && Rewrites(s.procs[pid], ref) && Concerns(s.procs[other], ref)) ==> pid == other
  }

  ghost predicate InTurn(s: State, acts: seq<Action>, ref: Ref)
    requires Legal(s, acts)
    decreases |acts|
  {
    TakesTurns(s, ref) && (acts == [] || InTurn(Act(s, acts[0]), acts[1..], ref))
  }

  ghost predicate Resting(s: State, ref: Ref) {
    forall pid :: pid in s.procs ==> !Concerns(s.procs[pid], ref)
  }

  /** A link has pointed the account at its new person, and finds the former one removed when it reads the
      record to take the account off the list. */
  predicate Overtaken(db: Db, p: Proc, ref: Ref) {
    && p.Updating? && p.stage.Reading? && p.change == DropAccount(ref)
    && !p.allowRemoved && p.next.ThenLinked? && RecordOf(db, p.id).removed
  }

  predicate NeverOvertaken(s: State, acts: seq<Action>, ref: Ref)
    requires Legal(s, acts)
    decreases |acts|
  {
    acts == [] ||
    (&& (acts[0].Step? ==> !Overtaken(s.db, s.procs[acts[0].pid], ref))
     && NeverOvertaken(Act(s, acts[0]), acts[1..], ref))
  }

  /** Index and lists agree on the account. */
  ghost predicate Mirrored(db: Db, ref: Ref) {
    forall id :: AccountOf(db, ref) == Some(id) <==> Lists(db, id, ref)
  }

  // ---------------------------------------------------------------- Between two calls, and within one

  /** The candidate an operation holds for the account. */
  function Offer(p: Proc, ref: Ref): Option<Id> {
    if SignsIn(p, ref) then Held(p) else None
  }

  ghost predicate Offers(procs: map<nat, Proc>, pid: nat, ref: Ref, id: Id) {
    pid in procs && Offer(procs[pid], ref) == Some(id)
  }

  ghost predicate Offered(procs: map<nat, Proc>, ref: Ref, id: Id) {
    exists pid :: Offers(procs, pid, ref, id)
  }

  /** While no link or unlink runs, the account is listed by its person and by the candidates held for it. */
  ghost predicate Tidy(s: State, ref: Ref) {
    forall id :: Lists(s.db, id, ref) <==> AccountOf(s.db, ref) == Some(id) || Offered(s.procs, ref, id)
  }

  ghost predicate ListedBy(db: Db, ref: Ref, one: Option<Id>, other: Option<Id>) {
    forall id :: Lists(db, id, ref) <==> one == Some(id) || other == Some(id)
  }

  /** What the store says of the account at each point of its one link or unlink. */
  ghost predicate Stands(db: Db, p: Proc, ref: Ref) {
    match p
    case LinkPreviousPerson(_, id, holder) => Mirrored(db, ref) && AccountOf(db, ref) == Some(holder) && holder != id
    case LinkSet(_, id, _, previous) => AccountOf(db, ref) == previous && ListedBy(db, ref, previous, Some(id))
    case LinkLog(_, id, _, previous) => AccountOf(db, ref) == Some(id) && ListedBy(db, ref, previous, Some(id))
    case UnlinkDelete(_, id) => Mirrored(db, ref) && AccountOf(db, ref) == Some(id)
    case UnlinkLog(_, id) => AccountOf(db, ref) == None && ListedBy(db, ref, Some(id), None)
    case Updating(_, id, change, allow, next) => UpdateStands(db, id, change, allow, next, ref)
    case _ => Mirrored(db, ref)
  }

  ghost predicate UpdateStands(db: Db, id: Id, change: Change, allow: bool, next: Next, ref: Ref) {
    match next
    case ThenSetAccount(a, previous) =>
      change == AddAccount(ref) && !allow && RefOf(a) == ref && Mirrored(db, ref) && AccountOf(db, ref) == previous
    case ThenLinked(a, person, _) =>
      && change == DropAccount(ref) && !allow && RefOf(a) == ref && AccountOf(db, ref) == Some(person) && id != person
      && ListedBy(db, ref, Some(id), Some(person))
    case ThenUnlinked => change == DropAccount(ref) && allow && AccountOf(db, ref) == None && ListedBy(db, ref, Some(id), None)
    case _ => false
  }

  /** No link or unlink of the account is in progress. */
  ghost predicate Unwritten(s: State, ref: Ref) {
    forall pid :: pid in s.procs ==> !Rewrites(s.procs[pid], ref)
  }

  ghost predicate Orderly(s: State, ref: Ref) {
    && (forall pid :: pid in s.procs && Rewrites(s.procs[pid], ref) ==> Stands(s.db, s.procs[pid], ref))
    && (Unwritten(s, ref) ==> Tidy(s, ref))
  }

  // ---------------------------------------------------------------- One command of the link or the unlink

  lemma OwnUpdate(db: Db, h: History, p: Proc, draw: string, ref: Ref)
    requires p.Updating? && h.published <= db.people.Keys && ProcOk(db, h, p)
    requires Rewrites(p, ref) && Stands(db, p, ref) && !Overtaken(db, p, ref)
    ensures var (w, p') := Exec(db, p, draw);
      if Rewrites(p', ref) then Stands(ApplyWrite(db, w), p', ref) else p'.Done? && Mirrored(ApplyWrite(db, w), ref)
  {
  }

  lemma OwnReads(db: Db, p: Proc, draw: string, ref: Ref)
    requires p.Redeem? || p.LinkTarget? || p.LinkPrevious? || p.LinkPreviousPerson? || p.UnlinkLookup?
    requires RefOf(p.a) == ref && Stands(db, p, ref)
    ensures var (w, p') := Exec(db, p, draw);
      if Rewrites(p', ref) then Stands(ApplyWrite(db, w), p', ref) else p'.Done? && Mirrored(ApplyWrite(db, w), ref)
  {
    var db' := ApplyWrite(db, Exec(db, p, draw).0);
    assert db'.accounts == db.accounts && db'.people == db.people;
    assert Mirrored(db', ref);
  }

  lemma OwnWrites(db: Db, p: Proc, draw: string, ref: Ref)
    requires p.LinkSet? || p.LinkLog? || p.UnlinkDelete? || p.UnlinkLog?
    requires RefOf(p.a) == ref && Stands(db, p, ref)
    ensures var (w, p') := Exec(db, p, draw);
      if Rewrites(p', ref) then Stands(ApplyWrite(db, w), p', ref) else p'.Done? && Mirrored(ApplyWrite(db, w), ref)
  {
  }

  lemma OwnCommand(db: Db, h: History, p: Proc, draw: string, ref: Ref)
    requires DbOk(db, h) && ProcOk(db, h, p) && Rewrites(p, ref) && Stands(db, p, ref) && !Overtaken(db, p, ref)
    ensures var (w, p') := Exec(db, p, draw);
      if Rewrites(p', ref) then Stands(ApplyWrite(db, w), p', ref) else p'.Done? && Mirrored(ApplyWrite(db, w), ref)
  {
    if p.Updating? {
      OwnUpdate(db, h, p, draw, ref);
    } else if p.LinkSet? || p.LinkLog? || p.UnlinkDelete? || p.UnlinkLog? {
      OwnWrites(db, p, draw, ref);
    } else {
      OwnReads(db, p, draw, ref);
    }
  }

  // ---------------------------------------------------------------- One command of anything else

  /** What a command of an operation that does not rewrite the account does to its entry and its lists. */
  ghost predicate Spares(db: Db, p: Proc, w: Write, p': Proc, ref: Ref) {
    var mine, after := Offer(p, ref), Offer(p', ref);
    match w
    case PutCandidate(id, rec) => mine == None && after == if ref in rec.accounts then Some(id) else None
    case PutRegistered(_, rec) => rec.accounts == {} && mine == after == None
    case Overwrite(id, rec) => (ref in rec.accounts <==> Lists(db, id, ref)) && mine == after == None
    case Discard(id) => after == None && mine == if Lists(db, id, ref) then Some(id) else None
    case ClaimAccount(claimed, id) => after == None && mine == if claimed == ref then Some(id) else None
    case MoveAccount(moved, _) => moved != ref && mine == after == None
    case DropAccountKey(dropped) => dropped != ref && mine == after == None
    case _ => after == mine
  }

  lemma UpdateConcerns(db: Db, p: Proc, draw: string, ref: Ref)
    requires p.Updating?
    ensures Concerns(Exec(db, p, draw).1, ref) ==> Concerns(p, ref)
    ensures Rewrites(Exec(db, p, draw).1, ref) ==> Rewrites(p, ref)
  {
  }

  lemma SignInConcerns(db: Db, p: Proc, draw: string, ref: Ref)
    requires InSignIn(p)
    ensures Concerns(Exec(db, p, draw).1, ref) ==> SignsIn(p, ref)
    ensures !Rewrites(Exec(db, p, draw).1, ref)
  {
  }

  lemma RewriteConcerns(db: Db, p: Proc, draw: string, ref: Ref)
    requires InRewrite(p)
    ensures Concerns(Exec(db, p, draw).1, ref) ==> Rewrites(p, ref)
  {
  }

  /** An operation never turns to another account, nor from a sign-in to a link. */
  lemma ExecConcerns(db: Db, p: Proc, draw: string, ref: Ref)
    ensures Concerns(Exec(db, p, draw).1, ref) ==> Concerns(p, ref)
    ensures Rewrites(Exec(db, p, draw).1, ref) ==> Rewrites(p, ref)
  {
    if p.Updating? {
      UpdateConcerns(db, p, draw, ref);
    } else if InSignIn(p) {
      SignInConcerns(db, p, draw, ref);
    } else if InRewrite(p) {
      RewriteConcerns(db, p, draw, ref);
    }
  }

  lemma UpdateSpares(db: Db, h: History, p: Proc, draw: string, ref: Ref)
    requires p.Updating? && h.published <= db.people.Keys && ProcOk(db, h, p) && !Rewrites(p, ref)
    ensures var (w, p') := Exec(db, p, draw); Spares(db, p, w, p', ref)
  {
  }

  lemma SignInSpares(db: Db, h: History, p: Proc, draw: string, ref: Ref)
    requires InSignIn(p)
    requires Knows(db, h, p)
    ensures var (w, p') := Exec(db, p, draw); Spares(db, p, w, p', ref)
  {
  }

  lemma RewriteSpares(db: Db, p: Proc, draw: string, ref: Ref)
    requires InRewrite(p) && !Rewrites(p, ref)
    ensures var (w, p') := Exec(db, p, draw); Spares(db, p, w, p', ref)
  {
  }

  lemma PersonCallSpares(db: Db, p: Proc, draw: string, ref: Ref)
    requires !p.Updating? && !InSignIn(p) && !InRewrite(p)
    ensures var (w, p') := Exec(db, p, draw); Spares(db, p, w, p', ref)
  {
  }

  lemma ExecSpares(db: Db, h: History, p: Proc, draw: string, ref: Ref)
    requires h.published <= db.people.Keys && ProcOk(db, h, p) && Knows(db, h, p) && !Rewrites(p, ref)
    ensures var (w, p') := Exec(db, p, draw); Spares(db, p, w, p', ref)
  {
    if p.Updating? {
      UpdateSpares(db, h, p, draw, ref);
    } else if InSignIn(p) {
      SignInSpares(db, h, p, draw, ref);
    } else if InRewrite(p) {
      RewriteSpares(db, p, draw, ref);
    } else {
      PersonCallSpares(db, p, draw, ref);
    }
  }

  lemma SparedListing(db: Db, h: History, p: Proc, w: Write, p': Proc, ref: Ref, id: Id, others: bool)
    requires DbOk(db, h) && WriteOk(db, h, w) && Spares(db, p, w, p', ref)
    requires Lists(db, id, ref) <==> AccountOf(db, ref) == Some(id) || Offer(p, ref) == Some(id) || others
    requires others || Offer(p, ref) == Some(id) ==> id !in h.published
    requires others ==> id in db.people && Offer(p, ref) != Some(id)
    ensures var db' := ApplyWrite(db, w);
      Lists(db', id, ref) <==> AccountOf(db', ref) == Some(id) || Offer(p', ref) == Some(id) || others
  {
  }

  lemma SparedEntry(db: Db, h: History, p: Proc, w: Write, p': Proc, ref: Ref)
    requires WriteOk(db, h, w) && Spares(db, p, w, p', ref) && Offer(p, ref) == Offer(p', ref) == None
    ensures AccountOf(ApplyWrite(db, w), ref) == AccountOf(db, ref)
    ensures forall id :: Lists(ApplyWrite(db, w), id, ref) <==> Lists(db, id, ref)
  {
  }

  lemma StandsOn(db: Db, db': Db, p: Proc, ref: Ref)
    requires Stands(db, p, ref) && AccountOf(db', ref) == AccountOf(db, ref)
    requires forall id :: Lists(db', id, ref) <==> Lists(db, id, ref)
    ensures Stands(db', p, ref)
  {
  }

  lemma OfferedAfter(procs: map<nat, Proc>, pid: nat, p': Proc, ref: Ref, id: Id)
    requires pid in procs
    ensures Offered(procs, ref, id) <==> Offer(procs[pid], ref) == Some(id) || Offered(procs - {pid}, ref, id)
    ensures Offered(procs[pid := p'], ref, id) <==> Offer(p', ref) == Some(id) || Offered(procs - {pid}, ref, id)
  {
    var others, procs' := procs - {pid}, procs[pid := p'];
    if q :| Offers(others, q, ref, id) { assert Offers(procs, q, ref, id) && Offers(procs', q, ref, id); }
    if q :| Offers(procs, q, ref, id) { assert q != pid ==> Offers(others, q, ref, id); }
    if q :| Offers(procs', q, ref, id) { assert q != pid ==> Offers(others, q, ref, id); }
    assert Offer(procs[pid], ref) == Some(id) ==> Offers(procs, pid, ref, id);
    assert Offer(p', ref) == Some(id) ==> Offers(procs', pid, ref, id);
  }

  lemma OffersAreHeld(s: State, pid: nat, ref: Ref, id: Id)
    requires CandidatesOk(s) && pid in s.procs
    ensures Offer(s.procs[pid], ref) == Some(id) ==> id !in s.h.published && !Offered(s.procs - {pid}, ref, id)
    ensures Offered(s.procs - {pid}, ref, id) ==> id !in s.h.published && id in s.db.people
  {
    if q :| Offers(s.procs - {pid}, q, ref, id) {
      assert Holds(s.procs, q, id);
      assert Offer(s.procs[pid], ref) == Some(id) ==> Holds(s.procs, pid, id);
    }
    assert Offer(s.procs[pid], ref) == Some(id) ==> Holds(s.procs, pid, id);
  }

  // ---------------------------------------------------------------- One step of a run

  ghost predicate Good(s: State, ref: Ref) {
    Inv(s) && ListsOk(s) && TakesTurns(s, ref) && Orderly(s, ref)
  }

  lemma RewriterSteps(s: State, pid: nat, draw: string, ref: Ref)
    requires Good(s, ref) && Allowed(s, Step(pid, draw)) && Rewrites(s.procs[pid], ref)
    requires !Overtaken(s.db, s.procs[pid], ref)
    ensures Orderly(Act(s, Step(pid, draw)), ref)
  {
    var s' := Act(s, Step(pid, draw));
    OwnCommand(s.db, s.h, s.procs[pid], draw, ref);
    forall q | q in s'.procs && q != pid ensures !Concerns(s'.procs[q], ref) {
    }
    if !Rewrites(s'.procs[pid], ref) {
      forall id ensures !Offered(s'.procs, ref, id) {
        forall q ensures !Offers(s'.procs, q, ref, id) {
        }
      }
    }
  }

  lemma OtherSteps(s: State, pid: nat, draw: string, ref: Ref)
    requires Good(s, ref) && Allowed(s, Step(pid, draw)) && !Rewrites(s.procs[pid], ref)
    ensures Orderly(Act(s, Step(pid, draw)), ref)
  {
    var p, s' := s.procs[pid], Act(s, Step(pid, draw));
    var (w, p') := Exec(s.db, p, draw);
    if Held(p).Some? { assert Holds(s.procs, pid, Held(p).value); }
    ExecWritesOk(s.db, s.h, p, draw);
    ExecSpares(s.db, s.h, p, draw, ref);
    ExecConcerns(s.db, p, draw, ref);
    if Unwritten(s, ref) {
      forall id ensures Lists(s'.db, id, ref) <==> AccountOf(s'.db, ref) == Some(id) || Offered(s'.procs, ref, id) {
        OfferedAfter(s.procs, pid, p', ref, id);
        OffersAreHeld(s, pid, ref, id);
        SparedListing(s.db, s.h, p, w, p', ref, id, Offered(s.procs - {pid}, ref, id));
      }
    } else {
      assert !Concerns(p, ref) && !Concerns(p', ref);
      SparedEntry(s.db, s.h, p, w, p', ref);
      forall q | q in s'.procs && Rewrites(s'.procs[q], ref) ensures Stands(s'.db, s'.procs[q], ref) {
        StandsOn(s.db, s'.db, s.procs[q], ref);
      }
      assert !Unwritten(s', ref) by {
        if Unwritten(s', ref) {
          forall q | q in s.procs ensures !Rewrites(s.procs[q], ref) { assert q == pid || s'.procs[q] == s.procs[q]; }
        }
      }
    }
  }

  lemma StartIsOrderly(s: State, pid: nat, op: Proc, ref: Ref)
    requires Good(s, ref) && Allowed(s, Start(pid, op)) && TakesTurns(Act(s, Start(pid, op)), ref)
    ensures Orderly(Act(s, Start(pid, op)), ref)
  {
    var s' := Act(s, Start(pid, op));
    forall id ensures Offered(s'.procs, ref, id) <==> Offered(s.procs, ref, id) {
      if q :| Offers(s.procs, q, ref, id) { assert Offers(s'.procs, q, ref, id); }
      if q :| Offers(s'.procs, q, ref, id) { assert Offers(s.procs, q, ref, id); }
    }
    if Rewrites(op, ref) {
      assert s'.procs[pid] == op;
      forall q | q in s.procs ensures !Concerns(s.procs[q], ref) { assert s'.procs[q] == s.procs[q]; }
      forall id ensures !Offered(s.procs, ref, id) { }
      assert Mirrored(s.db, ref);
    } else if Unwritten(s', ref) {
      forall q | q in s.procs ensures !Rewrites(s.procs[q], ref) { assert s'.procs[q] == s.procs[q]; }
    }
  }

  lemma ActStaysGood(s: State, act: Action, ref: Ref)
    requires Good(s, ref) && Allowed(s, act) && TakesTurns(Act(s, act), ref)
    requires act.Step? ==> !Overtaken(s.db, s.procs[act.pid], ref)
    ensures Good(Act(s, act), ref)
  {
    ActKeepsInv(s, act);
    ActKeepsLists(s, act);
    match act {
      case Start(pid, op) => StartIsOrderly(s, pid, op, ref);
      case Step(pid, draw) =>
        if Rewrites(s.procs[pid], ref) { RewriterSteps(s, pid, draw, ref); } else { OtherSteps(s, pid, draw, ref); }
      case Expire(code) =>
        forall pid | pid in s.procs && Rewrites(s.procs[pid], ref) ensures Stands(Act(s, act).db, s.procs[pid], ref) {
          StandsOn(s.db, Act(s, act).db, s.procs[pid], ref);
        }
    }
  }

  // ---------------------------------------------------------------- A removed person who is left with the account

  /** The operation neither is nor will be about to take the account from the person, or to give it to them. */
  predicate Misses(p: Proc, ref: Ref, holder: Id) {
    match p
    case LinkPrevious(a, id) => RefOf(a) == ref ==> id != holder
    case LinkPreviousPerson(a, id, previous) => RefOf(a) == ref ==> id != holder && previous != holder
    case LinkSet(a, id, _, previous) => RefOf(a) == ref ==> id != holder && previous != Some(holder)
    case LinkLog(a, id, _, previous) => RefOf(a) == ref ==> id != holder && previous != Some(holder)
    case UnlinkDelete(a, id) => RefOf(a) == ref ==> id != holder
    case UnlinkLog(a, id) => RefOf(a) == ref ==> id != holder
    case Updating(_, id, change, _, next) =>
      && (change == AddAccount(ref) || change == DropAccount(ref) ==> id != holder)
      && (next.ThenSetAccount? && RefOf(next.a) == ref ==> id != holder && next.previous != Some(holder))
    case _ => true
  }

  ghost predicate Left(db: Db, h: History, ref: Ref, holder: Id) {
    && holder in h.published && RecordOf(db, holder).removed
    && Lists(db, holder, ref) && AccountOf(db, ref) != Some(holder)
  }

  ghost predicate Stuck(s: State, ref: Ref, holder: Id) {
    && Left(s.db, s.h, ref, holder)
    && forall pid :: pid in s.procs ==> Misses(s.procs[pid], ref, holder)
  }

  lemma UpdateLeaves(db: Db, h: History, p: Proc, draw: string, ref: Ref, holder: Id)
    requires p.Updating? && h.published <= db.people.Keys && ProcOk(db, h, p)
    requires Left(db, h, ref, holder) && Misses(p, ref, holder)
    ensures var (w, p') := Exec(db, p, draw);
      Lists(ApplyWrite(db, w), holder, ref) && AccountOf(ApplyWrite(db, w), ref) != Some(holder) && Misses(p', ref, holder)
  {
  }

  lemma RewriteLeaves(db: Db, h: History, p: Proc, draw: string, ref: Ref, holder: Id)
    requires InRewrite(p) && Left(db, h, ref, holder) && Misses(p, ref, holder)
    ensures var (w, p') := Exec(db, p, draw);
      Lists(ApplyWrite(db, w), holder, ref) && AccountOf(ApplyWrite(db, w), ref) != Some(holder) && Misses(p', ref, holder)
  {
  }

  lemma CallLeaves(db: Db, h: History, p: Proc, draw: string, ref: Ref, holder: Id)
    requires !p.Updating? && !InRewrite(p) && h.published <= db.people.Keys && Ready(db, h, p)
    requires Left(db, h, ref, holder)
    ensures var (w, p') := Exec(db, p, draw);
      Lists(ApplyWrite(db, w), holder, ref) && AccountOf(ApplyWrite(db, w), ref) != Some(holder) && Misses(p', ref, holder)
  {
  }

  lemma ExecLeaves(db: Db, h: History, p: Proc, draw: string, ref: Ref, holder: Id)
    requires h.published <= db.people.Keys && ProcOk(db, h, p) && Ready(db, h, p)
    requires Left(db, h, ref, holder) && Misses(p, ref, holder)
    ensures var (w, p') := Exec(db, p, draw);
      Lists(ApplyWrite(db, w), holder, ref) && AccountOf(ApplyWrite(db, w), ref) != Some(holder) && Misses(p', ref, holder)
  {
    if p.Updating? {
      UpdateLeaves(db, h, p, draw, ref, holder);
    } else if InRewrite(p) {
      RewriteLeaves(db, h, p, draw, ref, holder);
    } else {
      CallLeaves(db, h, p, draw, ref, holder);
    }
  }

  lemma ActLeaves(s: State, act: Action, ref: Ref, holder: Id)
    requires Inv(s) && Allowed(s, act) && Stuck(s, ref, holder)
    ensures Stuck(Act(s, act), ref, holder)
  {
    ActKeepsRemoval(s, act, holder);
    if act.Step? {
      var p := s.procs[act.pid];
      if Held(p).Some? { assert Holds(s.procs, act.pid, Held(p).value); }
      ExecLeaves(s.db, s.h, p, act.draw, ref, holder);
    }
  }

  lemma {:induction false} StuckForGood(s: State, acts: seq<Action>, ref: Ref, holder: Id)
    requires Inv(s) && Legal(s, acts) && Stuck(s, ref, holder)
    ensures !Mirrored(Run(s, acts).db, ref)
    decreases |acts|
  {
    if acts == [] {
      assert Lists(s.db, holder, ref);
    } else {
      ActKeepsInv(s, acts[0]);
      ActLeaves(s, acts[0], ref, holder);
      StuckForGood(Act(s, acts[0]), acts[1..], ref, holder);
    }
  }

  lemma OvertakenIsStuck(s: State, pid: nat, draw: string, ref: Ref)
    requires Good(s, ref) && Allowed(s, Step(pid, draw)) && Overtaken(s.db, s.procs[pid], ref)
    ensures Stuck(Act(s, Step(pid, draw)), ref, s.procs[pid].id)
  {
    var s', holder := Act(s, Step(pid, draw)), s.procs[pid].id;
    assert Rewrites(s.procs[pid], ref) && Stands(s.db, s.procs[pid], ref) && ProcOk(s.db, s.h, s.procs[pid]);
    assert Lists(s.db, holder, ref);
    forall q | q in s'.procs ensures Misses(s'.procs[q], ref, holder) {
      if q != pid { assert !Concerns(s.procs[q], ref); }
    }
  }

  // ---------------------------------------------------------------- The exact condition

  lemma RestingIsMirrored(s: State, ref: Ref)
    requires Orderly(s, ref) && Resting(s, ref)
    ensures Mirrored(s.db, ref)
  {
    forall id ensures !Offered(s.procs, ref, id) { }
  }

  lemma {:induction false} TurnsDecide(s: State, acts: seq<Action>, ref: Ref)
    requires Good(s, ref) && Legal(s, acts) && InTurn(s, acts, ref) && Resting(Run(s, acts), ref)
    ensures Mirrored(Run(s, acts).db, ref) <==> NeverOvertaken(s, acts, ref)
    decreases |acts|
  {
    if acts == [] {
      RestingIsMirrored(s, ref);
    } else {
      var act := acts[0];
      if act.Step? && Overtaken(s.db, s.procs[act.pid], ref) {
        ActKeepsInv(s, act);
        OvertakenIsStuck(s, act.pid, act.draw, ref);
        StuckForGood(Act(s, act), acts[1..], ref, s.procs[act.pid].id);
      } else {
        ActStaysGood(s, act, ref);
        TurnsDecide(Act(s, act), acts[1..], ref);
      }
    }
  }

  /** In every run in which the links and unlinks of an account wait for its other calls, whatever else
      interleaves: once no call on the account is in progress, it resolves to a person exactly when it is in that
      person's list, if and only if no link found the former person removed when it came to shorten their list. */
  lemma TurnsMirrorExactly(acts: seq<Action>, ref: Ref)
    requires Legal(EMPTY, acts) && InTurn(EMPTY, acts, ref) && Resting(Run(EMPTY, acts), ref)
    ensures (forall id :: AccountOf(Run(EMPTY, acts).db, ref) == Some(id) <==> Lists(Run(EMPTY, acts).db, id, ref)) <==>
            NeverOvertaken(EMPTY, acts, ref)
  {
    EmptyIsOk();
    TurnsDecide(EMPTY, acts, ref);
  }

  // ---------------------------------------------------------------- A link that is overtaken

  /** Nobody but `pid` is called on the account in this stretch of a run. */
  predicate OnlyCalls(acts: seq<Action>, pid: nat, ref: Ref) {
    forall act :: act in acts && act.Start? && Concerns(act.op, ref) ==> act.pid == pid
  }

  ghost predicate OnlyRuns(s: State, pid: nat, ref: Ref) {
    forall other :: other in s.procs && Concerns(s.procs[other], ref) ==> other == pid
  }

  lemma {:induction false} OneCallTakesTurns(s: State, acts: seq<Action>, pid: nat, ref: Ref)
    requires Legal(s, acts) && OnlyRuns(s, pid, ref) && OnlyCalls(acts, pid, ref)
    ensures InTurn(s, acts, ref)
    decreases |acts|
  {
    if acts != [] {
      if acts[0].Step? { ExecConcerns(s.db, s.procs[acts[0].pid], acts[0].draw, ref); }
      assert acts[0] in acts;
      forall act | act in acts[1..] && act.Start? && Concerns(act.op, ref) ensures act.pid == pid { assert act in acts; }
      OneCallTakesTurns(Act(s, acts[0]), acts[1..], pid, ref);
    }
  }

  lemma {:induction false} TurnsChain(s: State, acts: seq<Action>, mid: State, more: seq<Action>, to: State, ref: Ref)
    requires Leads(s, acts, mid) && InTurn(s, acts, ref) && Leads(mid, more, to) && InTurn(mid, more, ref)
    ensures Leads(s, acts + more, to) && InTurn(s, acts + more, ref)
    decreases |acts|
  {
    Chain(s, acts, mid, more, to);
    if acts == [] {
      assert acts + more == more;
    } else {
      TurnsChain(Act(s, acts[0]), acts[1..], mid, more, to, ref);
      assert (acts + more)[1..] == acts[1..] + more;
    }
  }

  /** The link, up to its first update. */
  lemma LinkBegins(s: State, l: nat, a: Account, target: Id, code: Code) returns (acts: seq<Action>, to: State)
    requires l !in s.procs && code in s.db.links && s.db.links[code] == target && !RecordOf(s.db, target).removed
    requires var previous := AccountOf(s.db, RefOf(a));
      previous.Some? ==> previous.value != target && !RecordOf(s.db, previous.value).removed
    ensures Leads(s, acts, to) && s.h.published <= to.h.published && OnlyCalls(acts, l, RefOf(a))
    ensures to.db == ApplyWrite(s.db, TakeCode(code))
    ensures to.procs == s.procs[l := AddTo(a, target, AccountOf(s.db, RefOf(a)))]
  {
    var previous, taken := AccountOf(s.db, RefOf(a)), ApplyWrite(s.db, TakeCode(code));
    var begun, waiting := Act(s, Start(l, Redeem(a, code))), AddTo(a, target, previous);
    AloneStays(taken, waiting);
    if previous.Some? { AloneStep(taken, LinkPreviousPerson(a, target, previous.value), "", taken, waiting); }
    AloneStep(taken, LinkPrevious(a, target), "", taken, waiting);
    AloneStep(taken, LinkTarget(a, target), "", taken, waiting);
    AloneStep(s.db, Redeem(a, code), "", taken, waiting);
    acts, to := RunsAlone(begun, l, taken, waiting);
    Prepend(s, to, Start(l, Redeem(a, code)), acts);
    acts := [Start(l, Redeem(a, code))] + acts;
  }

  /** The account set and the link logged, but the former person's list not shortened. */
  function Pointed(db: Db, a: Account, target: Id, holder: Id): Db {
    ApplyWrite(ApplyWrite(db, MoveAccount(RefOf(a), target)), Append(AccountLinked(target, RefOf(a), Some(holder))))
  }

  lemma AloneForgives(db: Db, id: Id, change: Change, a: Account, person: Id, name: string)
    requires RecordOf(db, id).removed
    ensures Alone(db, Updating(Watching, id, change, false, ThenLinked(a, person, name)), db, Done(Joined(a, person, name)))
  {
    var p' := Done(Joined(a, person, name));
    AloneStays(db, p');
    AloneStep(db, Updating(Reading(Revision(db, id)), id, change, false, ThenLinked(a, person, name)), "", db, p');
    AloneStep(db, Updating(Watching, id, change, false, ThenLinked(a, person, name)), "", db, p');
  }

  lemma AloneEndsOvertaken(db: Db, a: Account, target: Id, name: string, holder: Id)
    requires holder != target && RecordOf(db, holder).removed
    ensures Alone(db, LinkSet(a, target, name, Some(holder)), Pointed(db, a, target, holder), Done(Joined(a, target, name)))
  {
    var moved := ApplyWrite(db, MoveAccount(RefOf(a), target));
    var db', p' := Pointed(db, a, target, holder), Done(Joined(a, target, name));
    AloneForgives(db', holder, DropAccount(RefOf(a)), a, target, name);
    AloneStep(moved, LinkLog(a, target, name, Some(holder)), "", db', p');
    AloneStep(db, LinkSet(a, target, name, Some(holder)), "", db', p');
  }

  lemma PointedIsListed(db: Db, a: Account, target: Id, holder: Id)
    requires Lists(db, holder, RefOf(a)) && holder != target
    ensures var db' := Pointed(Updated(db, target, AddAccount(RefOf(a))), a, target, holder);
      AccountOf(db', RefOf(a)) == Some(target) && Lists(db', holder, RefOf(a))
  {
  }

  /** The rest of the link, after the person it takes the account from was removed. */
  lemma OvertakenEnds(s: State, l: nat, a: Account, target: Id, holder: Id)
      returns (acts: seq<Action>, to: State, out: Outcome)
    requires l in s.procs && s.procs[l] == AddTo(a, target, Some(holder)) && holder != target
    requires !RecordOf(s.db, target).removed && RecordOf(s.db, holder).removed && Lists(s.db, holder, RefOf(a))
    ensures Leads(s, acts, to) && OnlySteps(acts) && to.procs == s.procs[l := Done(out)]
    ensures AccountOf(to.db, RefOf(a)) == Some(target) && Lists(to.db, holder, RefOf(a))
  {
    var name, added := Or(RecordOf(s.db, target).name, a.name), Updated(s.db, target, AddAccount(RefOf(a)));
    var db' := Pointed(added, a, target, holder);
    out := Joined(a, target, name);
    AloneEndsOvertaken(added, a, target, name, holder);
    AloneUpdate(s.db, target, AddAccount(RefOf(a)), false, ThenSetAccount(a, Some(holder)), db', Done(out));
    acts, to := RunsAlone(s, l, db', Done(out));
    PointedIsListed(s.db, a, target, holder);
  }

  lemma RemovedStaysListed(db: Db, holder: Id, target: Id, ref: Ref)
    requires holder != target && Lists(db, holder, ref)
    ensures var db' := Serve(db, Removing(holder), []).0;
      RecordOf(db', holder).removed && Lists(db', holder, ref) && RecordOf(db', target) == RecordOf(db, target)
  {
  }

  lemma OnlyCallsTogether(acts: seq<Action>, more: seq<Action>, pid: nat, ref: Ref)
    requires OnlyCalls(acts, pid, ref) && OnlyCalls(more, pid, ref)
    ensures OnlyCalls(acts + more, pid, ref)
  {
  }

  /** A removal, from call to return. */
  lemma RemovalRuns(s: State, d: nat, holder: Id, target: Id, ref: Ref, l: nat) returns (acts: seq<Action>, to: State)
    requires d !in s.procs && holder in s.h.published && holder != target && Lists(s.db, holder, ref)
    ensures Leads(s, acts, to) && OnlyCalls(acts, l, ref) && to.procs == s.procs[d := Done(Finished)]
    ensures RecordOf(to.db, holder).removed && Lists(to.db, holder, ref) && RecordOf(to.db, target) == RecordOf(s.db, target)
  {
    RemovedStaysListed(s.db, holder, target, ref);
    acts, to := CallRuns(s, d, Removing(holder), []);
  }

  lemma QuietOneTakesTurns(s: State, acts: seq<Action>, pid: nat, ref: Ref)
    requires Quiet(s) && Legal(s, acts) && OnlyCalls(acts, pid, ref)
    ensures InTurn(s, acts, ref)
  {
    OneCallTakesTurns(s, acts, pid, ref);
  }

  /** In every such state: if the account's person is deprovisioned after a link has read their record, and the link
      then goes on, everything has returned, no two calls on the account overlapped, and yet the removed person has
      the account on their list although it stands for someone else. */
  lemma RemovalCanLeaveAListing(s: State, a: Account, holder: Id, target: Id, code: Code, l: nat, d: nat)
      returns (acts: seq<Action>)
    requires MayRace(s, a, holder, target, code) && l != d && l !in s.procs && d !in s.procs
    requires holder in s.h.published && Lists(s.db, holder, RefOf(a))
    ensures Legal(s, acts) && Quiet(Run(s, acts)) && InTurn(s, acts, RefOf(a))
    ensures AccountOf(Run(s, acts).db, RefOf(a)) == Some(target) && Lists(Run(s, acts).db, holder, RefOf(a))
  {
    var first, waiting := LinkBegins(s, l, a, target, code);
    var more, removed := RemovalRuns(waiting, d, holder, target, RefOf(a), l);
    var rest, to, out := OvertakenEnds(removed, l, a, target, holder);
    Chain(s, first, waiting, more, removed);
    Chain(s, first + more, removed, rest, to);
    OnlyCallsTogether(first, more, l, RefOf(a));
    OnlyCallsTogether(first + more, rest, l, RefOf(a));
    acts := first + more + rest;
    QuietOneTakesTurns(s, acts, l, RefOf(a));
  }

  lemma PreparingTakesTurns(acts: seq<Action>, ref: Ref)
    requires Legal(EMPTY, acts) && OthersPrepare(acts, 0)
    ensures InTurn(EMPTY, acts, ref)
  {
    OneCallTakesTurns(EMPTY, acts, 0, ref);
  }

  /** From the empty store: calls on the account take turns, everything has returned, and the account stands for
      one person and is on the list of another, who was removed. */
  lemma ARemovedPersonIsLeft(a: Account, target: Id, code: Code) returns (acts: seq<Action>)
    requires BaseId(a).Some? && target != BaseId(a).value
    ensures Legal(EMPTY, acts) && Quiet(Run(EMPTY, acts)) && InTurn(EMPTY, acts, RefOf(a))
    ensures AccountOf(Run(EMPTY, acts).db, RefOf(a)) == Some(target)
    ensures Lists(Run(EMPTY, acts).db, BaseId(a).value, RefOf(a))
  {
    var first := ARaceIsReached(a, target, code);
    var s := Run(EMPTY, first);
    NothingLeftBehind(first);
    PreparingTakesTurns(first, RefOf(a));
    var more := RemovalCanLeaveAListing(s, a, BaseId(a).value, target, code, 3, 4);
    TurnsChain(EMPTY, first, s, more, Run(s, more), RefOf(a));
    acts := first + more;
  }

  // ---------------------------------------------------------------- A link that is overlapped by a first sign-in

  /** The rest of a link that found no entry. */
  lemma AloneJoinsNew(db: Db, a: Account, target: Id)
    requires !RecordOf(db, target).removed
    ensures Alone(db, AddTo(a, target, None), Moved(Updated(db, target, AddAccount(RefOf(a))), a, target, None),
                  Done(Joined(a, target, Or(RecordOf(db, target).name, a.name))))
  {
    var name, added := Or(RecordOf(db, target).name, a.name), Updated(db, target, AddAccount(RefOf(a)));
    AloneMoves(added, a, target, name, None);
    AloneUpdate(db, target, AddAccount(RefOf(a)), false, ThenSetAccount(a, None), Moved(added, a, target, None),
                Done(Joined(a, target, name)));
  }

  lemma {:induction false} SameFirstFree(db: Db, other: Db, base: Id, candidate: Id, draws: seq<string>)
    requires db.people == other.people
    ensures FirstFree(db, base, candidate, draws) == FirstFree(other, base, candidate, draws)
    decreases |draws|
  {
    if candidate in db.people && draws != [] { SameFirstFree(db, other, base, base + "." + draws[0], draws[1..]); }
  }

  lemma BothAreListed(db: Db, a: Account, id: Id, target: Id)
    requires id !in db.people && target in db.people && !RecordOf(db, target).removed
    ensures var signed := Resolving(Provisioned(db, a, id), a, id).0;
      var after := Moved(Updated(signed, target, AddAccount(RefOf(a))), a, target, None);
      && !RecordOf(signed, target).removed && RecordOf(signed, target) == RecordOf(db, target)
      && AccountOf(after, RefOf(a)) == Some(target) && Lists(after, target, RefOf(a)) && Lists(after, id, RefOf(a))
  {
  }

  /** Sign-ins must wait too: if an account first signs in after a link has found it without an entry, and the link
      then goes on, everything has returned and the account is on the lists of two people. */
  lemma SignInCanLeaveAListing(s: State, a: Account, target: Id, code: Code, draws: seq<string>, l: nat, u: nat)
      returns (acts: seq<Action>, id: Id)
    requires Quiet(s) && l != u && l !in s.procs && u !in s.procs && RefOf(a) !in s.db.accounts
    requires code in s.db.links && s.db.links[code] == target && target in s.db.people && !s.db.people[target].removed
    requires BaseId(a).Some? && FindsAnId(s.db, Lookup(a, true), draws)
    ensures Legal(s, acts) && Quiet(Run(s, acts)) && id != target
    ensures AccountOf(Run(s, acts).db, RefOf(a)) == Some(target)
    ensures Lists(Run(s, acts).db, target, RefOf(a)) && Lists(Run(s, acts).db, id, RefOf(a))
  {
    var first, waiting := LinkBegins(s, l, a, target, code);
    SameFirstFree(s.db, waiting.db, BaseId(a).value, BaseId(a).value, draws);
    id := FirstFree(s.db, BaseId(a).value, BaseId(a).value, draws).value;
    var more, signed := CallRuns(waiting, u, Lookup(a, true), draws);
    BothAreListed(waiting.db, a, id, target);
    AloneJoinsNew(signed.db, a, target);
    var rest, to := RunsAlone(signed, l, Moved(Updated(signed.db, target, AddAccount(RefOf(a))), a, target, None),
                              Done(Joined(a, target, Or(RecordOf(signed.db, target).name, a.name))));
    Chain(s, first, waiting, more, signed);
    Chain(s, first + more, signed, rest, to);
    acts := first + more + rest;
  }
}
