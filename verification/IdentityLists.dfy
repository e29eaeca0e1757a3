/** Index and lists under interleaving: what agrees once everything has returned, and what need not. */
module IdentityLists {
  import opened Wrappers
  import opened IdentityProtocol
  import opened IdentityInvariant
  import opened IdentityTheorems
  import opened Identities

  // ---------------------------------------------------------------- What every command keeps

  predicate ListsOnly(db: Db, id: Id, ref: Ref) {
    id in db.people && db.people[id].accounts == {ref}
  }

  /** What an operation knows of the lists at each of its await points. */
  ghost predicate Knows(db: Db, h: History, p: Proc) {
    match p
    case Publish(a, candidate) => ListsOnly(db, candidate, RefOf(a))
    case Withdraw(a, candidate) => ListsOnly(db, candidate, RefOf(a))
    case LinkLog(a, _, _, _) => RefOf(a) in h.disturbed
    case UnlinkLog(a, _) => RefOf(a) in h.disturbed
    case Updating(_, _, change, _, next) =>
      && (change.DropAccount? ==> change.ref in h.disturbed)
      && (change.AddAccount? ==> next.ThenSetAccount? && RefOf(next.a) == change.ref)
    case _ => true
  }

  /** The account is on the list of a person whom its entry does not name, on this operation's account: a
      candidate it holds, or the target of a link that has yet to set the entry. */
  predicate Explains(p: Proc, ref: Ref, id: Id) {
    match p
    case Publish(a, candidate) => RefOf(a) == ref && candidate == id
    case Withdraw(a, candidate) => RefOf(a) == ref && candidate == id
    case LinkSet(a, target, _, _) => RefOf(a) == ref && target == id
    case _ => false
  }

  ghost predicate ExplainedBy(procs: map<nat, Proc>, pid: nat, ref: Ref, id: Id) {
    pid in procs && Explains(procs[pid], ref, id)
  }

  ghost predicate Explained(procs: map<nat, Proc>, ref: Ref, id: Id) {
    exists pid :: ExplainedBy(procs, pid, ref, id)
  }

  ghost predicate ListOk(s: State, ref: Ref, id: Id) {
    ref !in s.h.disturbed ==>
      && (AccountOf(s.db, ref) == Some(id) ==> Lists(s.db, id, ref))
      && (Lists(s.db, id, ref) ==> AccountOf(s.db, ref) == Some(id) || Explained(s.procs, ref, id))
  }

  ghost predicate ListsOk(s: State) {
    && (forall pid :: pid in s.procs ==> Knows(s.db, s.h, s.procs[pid]))
    && (forall ref, id :: ListOk(s, ref, id))
  }

  /** How a command changes lists, and what it leaves its operation to explain. */
  ghost predicate Follows(db: Db, h: History, p: Proc, w: Write, p': Proc) {
    match w
    case PutCandidate(id, rec) =>
      !Explaining(p) && forall ref :: ref in rec.accounts ==> Explains(p', ref, id)
    case PutRegistered(_, rec) => !Explaining(p) && rec.accounts == {}
    case Overwrite(id, rec) =>
      && (forall ref :: ref in rec.accounts && !Lists(db, id, ref) ==> Explains(p', ref, id))
      && (forall ref :: Lists(db, id, ref) && ref !in rec.accounts ==> ref in h.disturbed)
      && !Explaining(p)
    case Discard(id) => forall ref, other :: Explains(p, ref, other) ==> other == id
    case ClaimAccount(claimed, id) =>
      && Lists(db, id, claimed) && claimed !in db.accounts
      && forall ref, other :: Explains(p, ref, other) ==> ref == claimed && other == id
    case MoveAccount(moved, _) => forall ref, other :: Explains(p, ref, other) ==> ref == moved
    case _ => forall ref, id :: Explains(p, ref, id) ==> Explains(p', ref, id)
  }

  predicate Explaining(p: Proc) {
    p.Publish? || p.Withdraw? || p.LinkSet?
  }

  lemma ExecFollows(db: Db, h: History, p: Proc, draw: string)
    requires h.published <= db.people.Keys && ProcOk(db, h, p) && Knows(db, h, p)
    ensures Follows(db, h, p, Exec(db, p, draw).0, Exec(db, p, draw).1)
  {
    if p.Updating? { UpdateFollows(db, h, p, draw); }
  }

  lemma UpdateFollows(db: Db, h: History, p: Proc, draw: string)
    requires p.Updating? && h.published <= db.people.Keys && ProcOk(db, h, p) && Knows(db, h, p)
    ensures Follows(db, h, p, Exec(db, p, draw).0, Exec(db, p, draw).1)
  {
  }

  lemma ExecLearns(db: Db, h: History, p: Proc, draw: string)
    requires Knows(db, h, p)
    ensures var (w, p') := Exec(db, p, draw); Knows(ApplyWrite(db, w), Note(h, w), p')
  {
  }

  /** A command leaves the candidates of others, and what others know, alone. */
  lemma OthersKnow(s: State, pid: nat, w: Write, q: nat)
    requires CandidatesOk(s) && pid in s.procs && q in s.procs && q != pid && Knows(s.db, s.h, s.procs[q])
    requires WriteOk(s.db, s.h, w) && (w.Discard? ==> Held(s.procs[pid]) == Some(w.id))
    ensures Knows(ApplyWrite(s.db, w), Note(s.h, w), s.procs[q])
  {
    if Held(s.procs[q]).Some? { assert Holds(s.procs, q, Held(s.procs[q]).value); }
    if w.Discard? { assert Holds(s.procs, pid, w.id); }
  }

  lemma StillExplained(procs: map<nat, Proc>, pid: nat, p': Proc, ref: Ref, id: Id)
    requires pid in procs && Explained(procs, ref, id) && (Explains(procs[pid], ref, id) ==> Explains(p', ref, id))
    ensures Explained(procs[pid := p'], ref, id)
  {
    var q :| ExplainedBy(procs, q, ref, id);
    assert ExplainedBy(procs[pid := p'], q, ref, id);
  }

  lemma IndexFollows(s: State, pid: nat, w: Write, p': Proc, ref: Ref, id: Id)
    requires pid in s.procs && ListOk(s, ref, id) && Follows(s.db, s.h, s.procs[pid], w, p') && WriteOk(s.db, s.h, w)
    requires ref in s.db.accounts ==> s.db.accounts[ref] in s.h.published
    ensures ref !in Note(s.h, w).disturbed && AccountOf(ApplyWrite(s.db, w), ref) == Some(id) ==>
              Lists(ApplyWrite(s.db, w), id, ref)
  {
  }

  /** Where a listed account comes from: the list had it, or the command put it there. */
  lemma ListingFollows(db: Db, h: History, p: Proc, w: Write, p': Proc, ref: Ref, id: Id)
    requires Follows(db, h, p, w, p') && ref !in Note(h, w).disturbed && Lists(ApplyWrite(db, w), id, ref)
    ensures ref !in h.disturbed
    ensures Lists(db, id, ref) || Explains(p', ref, id)
    ensures AccountOf(db, ref) == Some(id) ==> AccountOf(ApplyWrite(db, w), ref) == Some(id)
    ensures Explains(p, ref, id) ==> Explains(p', ref, id) || AccountOf(ApplyWrite(db, w), ref) == Some(id)
  {
  }

  lemma ListFollows(s: State, pid: nat, w: Write, p': Proc, ref: Ref, id: Id)
    requires pid in s.procs && ListOk(s, ref, id) && Follows(s.db, s.h, s.procs[pid], w, p')
    requires ref !in Note(s.h, w).disturbed && Lists(ApplyWrite(s.db, w), id, ref)
    ensures AccountOf(ApplyWrite(s.db, w), ref) == Some(id) || Explained(s.procs[pid := p'], ref, id)
  {
    ListingFollows(s.db, s.h, s.procs[pid], w, p', ref, id);
    if Explains(p', ref, id) {
      assert ExplainedBy(s.procs[pid := p'], pid, ref, id);
    } else if AccountOf(ApplyWrite(s.db, w), ref) != Some(id) {
      StillExplained(s.procs, pid, p', ref, id);
    }
  }

  lemma StepKeepsLists(s: State, pid: nat, draw: string)
    requires Inv(s) && ListsOk(s) && Allowed(s, Step(pid, draw))
    ensures ListsOk(Act(s, Step(pid, draw)))
  {
    var p := s.procs[pid];
    if Held(p).Some? { assert Holds(s.procs, pid, Held(p).value); }
    ExecWritesOk(s.db, s.h, p, draw);
    ExecCandidates(s.db, p, draw);
    ExecFollows(s.db, s.h, p, draw);
    ExecLearns(s.db, s.h, p, draw);
    var (w, p') := Exec(s.db, p, draw);
    forall q | q in s.procs && q != pid ensures Knows(ApplyWrite(s.db, w), Note(s.h, w), s.procs[q]) {
      OthersKnow(s, pid, w, q);
    }
    forall ref, id ensures ListOk(Act(s, Step(pid, draw)), ref, id) {
      assert ListOk(s, ref, id);
      IndexFollows(s, pid, w, p', ref, id);
      if ref !in Note(s.h, w).disturbed && Lists(ApplyWrite(s.db, w), id, ref) { ListFollows(s, pid, w, p', ref, id); }
    }
  }

  lemma StartKeepsLists(s: State, pid: nat, op: Proc)
    requires ListsOk(s) && Allowed(s, Start(pid, op))
    ensures ListsOk(Act(s, Start(pid, op)))
  {
    var s' := Act(s, Start(pid, op));
    forall ref, id ensures ListOk(s', ref, id) {
      assert ListOk(s, ref, id);
      if q :| ExplainedBy(s.procs, q, ref, id) { assert ExplainedBy(s'.procs, q, ref, id); }
    }
  }

  lemma ActKeepsLists(s: State, act: Action)
    requires Inv(s) && ListsOk(s) && Allowed(s, act)
    ensures ListsOk(Act(s, act))
  {
    match act {
      case Start(pid, op) => StartKeepsLists(s, pid, op);
      case Step(pid, draw) => StepKeepsLists(s, pid, draw);
      case Expire(code) =>
        forall ref, id ensures ListOk(Act(s, act), ref, id) { assert ListOk(s, ref, id); }
    }
  }

  lemma {:induction false} RunKeepsLists(s: State, acts: seq<Action>)
    requires Inv(s) && ListsOk(s) && Legal(s, acts)
    ensures ListsOk(Run(s, acts))
    decreases |acts|
  {
    if acts != [] {
      ActKeepsInv(s, acts[0]);
      ActKeepsLists(s, acts[0]);
      RunKeepsLists(Act(s, acts[0]), acts[1..]);
    }
  }

  /** However sign-ins, registrations, removals, links and unlinks interleave: once everything has returned,
      an account whose entry no link or unlink rewrote resolves to a person exactly when it is in that
      person's list. */
  lemma UntouchedAccountsMirrorPeople(acts: seq<Action>, ref: Ref, id: Id)
    requires Legal(EMPTY, acts) && Quiet(Run(EMPTY, acts)) && ref !in Run(EMPTY, acts).h.disturbed
    ensures AccountOf(Run(EMPTY, acts).db, ref) == Some(id) <==> Lists(Run(EMPTY, acts).db, id, ref)
  {
    EmptyIsOk();
    RunKeepsLists(EMPTY, acts);
    assert ListOk(Run(EMPTY, acts), ref, id);
  }

  // ---------------------------------------------------------------- Where they part for good

  lemma NeverRegisters(db: Db, p: Proc, draw: string)
    requires !p.RegisterClaim?
    ensures !Exec(db, p, draw).1.RegisterClaim?
  {
  }

  /** A stretch of a run in which nobody calls anything. */
  predicate OnlySteps(acts: seq<Action>) {
    forall act :: act in acts ==> act.Step?
  }

  /** What an operation does alone, it does in a run while the others wait. */
  lemma {:induction false} SoloRuns(s: State, pid: nat, draws: seq<string>) returns (acts: seq<Action>, to: State)
    requires pid in s.procs && !s.procs[pid].RegisterClaim?
    ensures Leads(s, acts, to) && s.h.published <= to.h.published && OnlySteps(acts)
    ensures var (db', p') := Solo(s.db, s.procs[pid], draws); to.db == db' && to.procs == s.procs[pid := p']
    decreases |draws|
  {
    if draws == [] {
      acts, to := [], s;
      assert s.procs[pid := s.procs[pid]] == s.procs;
    } else if s.procs[pid].Done? {
      acts, to := SoloRuns(s, pid, draws[1..]);
    } else {
      var next := Act(s, Step(pid, draws[0]));
      NeverRegisters(s.db, s.procs[pid], draws[0]);
      acts, to := SoloRuns(next, pid, draws[1..]);
      Prepend(s, to, Step(pid, draws[0]), acts);
      acts := [Step(pid, draws[0])] + acts;
    }
  }

  lemma RunsAlone(s: State, pid: nat, db': Db, p': Proc) returns (acts: seq<Action>, to: State)
    requires pid in s.procs && !s.procs[pid].RegisterClaim? && Alone(s.db, s.procs[pid], db', p')
    ensures Leads(s, acts, to) && s.h.published <= to.h.published && OnlySteps(acts) && to.db == db' && to.procs == s.procs[pid := p']
  {
    var draws :| Solo(s.db, s.procs[pid], draws) == (db', p');
    acts, to := SoloRuns(s, pid, draws);
  }

  /** A whole call, started and left alone. */
  lemma CallRuns(s: State, pid: nat, op: Proc, draws: seq<string>) returns (acts: seq<Action>, to: State)
    requires pid !in s.procs && IsCall(s.h, op) && IsOperation(op) && !op.RegisterClaim? && FindsAnId(s.db, op, draws)
    ensures Leads(s, acts, to) && s.h.published <= to.h.published
    ensures forall act :: act in acts ==> act == Start(pid, op) || act.Step?
    ensures var (db', out) := Serve(s.db, op, draws); to.db == db' && to.procs == s.procs[pid := Done(out)]
  {
    AloneServes(s.db, op, draws);
    var begun := Act(s, Start(pid, op));
    var (db', out) := Serve(s.db, op, draws);
    acts, to := RunsAlone(begun, pid, db', Done(out));
    Prepend(s, to, Start(pid, op), acts);
    acts := [Start(pid, op)] + acts;
  }

  /** Everything has returned; the account is an active person's, and a code for another one is out. */
  predicate MayRace(s: State, a: Account, holder: Id, target: Id, code: Code) {
    && Quiet(s) && AccountOf(s.db, RefOf(a)) == Some(holder) && holder != target
    && code in s.db.links && s.db.links[code] == target
    && !RecordOf(s.db, holder).removed && !RecordOf(s.db, target).removed
  }

  lemma LinkedIsListed(db: Db, a: Account, target: Id)
    ensures Lists(Linked(db, a, target), target, RefOf(a))
  {
    var added := Updated(db, target, AddAccount(RefOf(a)));
    assert RefOf(a) in RecordOf(added, target).accounts;
  }

  lemma UnlinkedElsewhere(db: Db, a: Account, holder: Id, target: Id)
    requires Lists(db, target, RefOf(a)) && holder != target
    ensures RefOf(a) !in Unlinked(db, a, holder).accounts && Lists(Unlinked(db, a, holder), target, RefOf(a))
  {
  }

  /** The link, while the unlink waits. */
  lemma LinkRuns(s: State, l: nat, a: Account, holder: Id, target: Id, code: Code)
      returns (acts: seq<Action>, to: State, out: Outcome)
    requires l !in s.procs && AccountOf(s.db, RefOf(a)) == Some(holder)
    requires code in s.db.links && s.db.links[code] == target
    requires !RecordOf(s.db, holder).removed && !RecordOf(s.db, target).removed
    ensures Leads(s, acts, to) && to.procs == s.procs[l := Done(out)]
    ensures to.db == Linked(ApplyWrite(s.db, TakeCode(code)), a, target)
  {
    acts, to := CallRuns(s, l, Redeem(a, code), []);
    assert MayLink(ApplyWrite(s.db, TakeCode(code)), a, target);
    out := Serve(s.db, Redeem(a, code), []).1;
  }

  /** The rest of the unlink. */
  lemma UnlinkEnds(s: State, u: nat, a: Account, holder: Id) returns (acts: seq<Action>, to: State)
    requires u in s.procs && s.procs[u] == UnlinkDelete(a, holder)
    ensures Leads(s, acts, to) && to.db == Unlinked(s.db, a, holder) && to.procs == s.procs[u := Done(Finished)]
  {
    AloneUnlinks(s.db, a, holder);
    acts, to := RunsAlone(s, u, Unlinked(s.db, a, holder), Done(Finished));
  }

  lemma UnlinkReads(s: State, u: nat, a: Account, holder: Id, more: seq<Action>, to: State) returns (acts: seq<Action>)
    requires u !in s.procs && AccountOf(s.db, RefOf(a)) == Some(holder)
    requires Leads(s.(procs := s.procs[u := UnlinkDelete(a, holder)]), more, to)
    ensures Leads(s, acts, to)
  {
    var begun := Act(s, Start(u, UnlinkLookup(a)));
    assert After(begun, u, Nothing, UnlinkDelete(a, holder)) == s.(procs := s.procs[u := UnlinkDelete(a, holder)]);
    Does(begun, u, "", Nothing, UnlinkDelete(a, holder), more, to);
    Prepend(s, to, Start(u, UnlinkLookup(a)), [Step(u, "")] + more);
    acts := [Start(u, UnlinkLookup(a))] + ([Step(u, "")] + more);
  }

  /** In every such state: if `unlink` reads the entry, a link then moves the account and returns, and only then
      `unlink` goes on, everything has returned, and yet the account has no entry and is on the list of the person
      it was linked to. */
  lemma UnlinkCanLeaveAListing(s: State, a: Account, holder: Id, target: Id, code: Code, u: nat, l: nat)
      returns (acts: seq<Action>)
    requires MayRace(s, a, holder, target, code) && u != l && u !in s.procs && l !in s.procs
    ensures Legal(s, acts) && Quiet(Run(s, acts))
    ensures RefOf(a) !in Run(s, acts).db.accounts && Lists(Run(s, acts).db, target, RefOf(a))
  {
    var read := s.(procs := s.procs[u := UnlinkDelete(a, holder)]);
    var more, linked, out := LinkRuns(read, l, a, holder, target, code);
    var rest, to := UnlinkEnds(linked, u, a, holder);
    Chain(read, more, linked, rest, to);
    acts := UnlinkReads(s, u, a, holder, more + rest, to);
    assert to.procs == s.procs[u := UnlinkDelete(a, holder)][l := Done(out)][u := Done(Finished)];
    LinkedIsListed(ApplyWrite(s.db, TakeCode(code)), a, target);
    UnlinkedElsewhere(linked.db, a, holder, target);
  }

  /** Beside the calls of `pid`, only registrations and requests for codes start in this stretch of a run. */
  predicate OthersPrepare(acts: seq<Action>, pid: nat) {
    forall act :: act in acts && act.Start? && act.pid != pid ==> act.op.RegisterClaim? || act.op.BeginRead?
  }

  lemma RegisterRuns(s: State, pid: nat, id: Id) returns (acts: seq<Action>, to: State)
    requires pid !in s.procs && id !in s.db.people
    ensures Leads(s, acts, to) && id in to.h.published && to.procs == s.procs[pid := Done(Finished)]
    ensures OthersPrepare(acts, 0)
    ensures to.db.accounts == s.db.accounts && to.db.people == s.db.people[id := Record("", None, false, {})]
  {
    var begun := Act(s, Start(pid, RegisterClaim(id, "")));
    var put := Act(begun, Step(pid, ""));
    var logged := After(put, pid, Append(PersonRegistered(id)), Done(Finished));
    Does(put, pid, "", Append(PersonRegistered(id)), Done(Finished), [], logged);
    Prepend(begun, logged, Step(pid, ""), [Step(pid, "")] + []);
    Prepend(s, logged, Start(pid, RegisterClaim(id, "")), [Step(pid, "")] + ([Step(pid, "")] + []));
    acts, to := [Start(pid, RegisterClaim(id, ""))] + ([Step(pid, "")] + ([Step(pid, "")] + [])), logged;
  }

  lemma SignInRuns(a: Account) returns (acts: seq<Action>, to: State, out: Outcome)
    requires BaseId(a).Some?
    ensures Leads(EMPTY, acts, to) && OthersPrepare(acts, 0) && to.procs == map[0 := Done(out)]
    ensures to.db == Provisioned(EMPTY_DB, a, BaseId(a).value)
  {
    assert FirstFree(EMPTY_DB, BaseId(a).value, BaseId(a).value, []) == Some(BaseId(a).value);
    acts, to := CallRuns(EMPTY, 0, Lookup(a, true), []);
    out := Serve(EMPTY_DB, Lookup(a, true), []).1;
  }

  lemma CodeRuns(s: State, pid: nat, target: Id, code: Code) returns (acts: seq<Action>, to: State)
    requires pid !in s.procs && target in s.h.published && !RecordOf(s.db, target).removed
    ensures Leads(s, acts, to) && OthersPrepare(acts, 0) && to.procs == s.procs[pid := Done(Finished)]
    ensures to.db == ApplyWrite(s.db, SaveCode(code, target))
  {
    acts, to := CallRuns(s, pid, BeginRead(target, code), []);
  }

  lemma KnownAndCoded(db: Db, a: Account, holder: Id, target: Id, code: Code, to: Db)
    requires target != holder && db.accounts == Provisioned(EMPTY_DB, a, holder).accounts
    requires db.people == Provisioned(EMPTY_DB, a, holder).people[target := Record("", None, false, {})]
    requires to == ApplyWrite(db, SaveCode(code, target))
    ensures AccountOf(to, RefOf(a)) == Some(holder) && code in to.links && to.links[code] == target
    ensures !RecordOf(to, holder).removed && !RecordOf(to, target).removed && Lists(to, holder, RefOf(a))
  {
  }

  /** Such a state is reached: a sign-in, a registration and a code. */
  lemma ARaceIsReached(a: Account, target: Id, code: Code) returns (acts: seq<Action>)
    requires BaseId(a).Some? && target != BaseId(a).value
    ensures Legal(EMPTY, acts) && MayRace(Run(EMPTY, acts), a, BaseId(a).value, target, code)
    ensures Lists(Run(EMPTY, acts).db, BaseId(a).value, RefOf(a)) && OthersPrepare(acts, 0)
    ensures 3 !in Run(EMPTY, acts).procs && 4 !in Run(EMPTY, acts).procs
  {
    var first, signed, out := SignInRuns(a);
    var more, known := RegisterRuns(signed, 1, target);
    var rest, to := CodeRuns(known, 2, target, code);
    KnownAndCoded(known.db, a, BaseId(a).value, target, code, to.db);
    assert to.procs == map[0 := Done(out), 1 := Done(Finished), 2 := Done(Finished)];
    Chain(EMPTY, first, signed, more, known);
    Chain(EMPTY, first + more, known, rest, to);
    acts := first + more + rest;
  }

  /** From the empty store: everything has returned, and an account without an entry is on a list. */
  lemma AListingIsLeft(a: Account, target: Id, code: Code) returns (acts: seq<Action>)
    requires BaseId(a).Some? && target != BaseId(a).value
    ensures Legal(EMPTY, acts) && Quiet(Run(EMPTY, acts))
    ensures RefOf(a) !in Run(EMPTY, acts).db.accounts && Lists(Run(EMPTY, acts).db, target, RefOf(a))
  {
    var first := ARaceIsReached(a, target, code);
    var s := Run(EMPTY, first);
    var more := UnlinkCanLeaveAListing(s, a, BaseId(a).value, target, code, 3, 4);
    Chain(EMPTY, first, s, more, Run(s, more));
    acts := first + more;
  }
}
