/** What the identity protocol guarantees over every run of interleaved operations. */
module IdentityTheorems {
  import opened Wrappers
  import opened IdentityProtocol
  import opened IdentityInvariant

  // ---------------------------------------------------------------- Removal

  lemma ActKeepsRemoval(s: State, act: Action, id: Id)
    requires Inv(s) && Allowed(s, act)
    requires id in s.h.published && RecordOf(s.db, id).removed
    ensures id in Act(s, act).h.published
    ensures Supersedes(RecordOf(s.db, id), RecordOf(Act(s, act).db, id))
  {
    if act.Step? {
      var p := s.procs[act.pid];
      if Held(p).Some? { assert Holds(s.procs, act.pid, Held(p).value); }
      ExecOk(s.db, s.h, p, act.draw);
    }
  }

  lemma {:induction false} RemovalLasts(s: State, acts: seq<Action>, id: Id)
    requires Inv(s) && Legal(s, acts)
    requires id in s.h.published && RecordOf(s.db, id).removed
    ensures Supersedes(RecordOf(s.db, id), RecordOf(Run(s, acts).db, id))
    decreases |acts|
  {
    if acts != [] {
      ActKeepsInv(s, acts[0]);
      ActKeepsRemoval(s, acts[0], id);
      RemovalLasts(Act(s, acts[0]), acts[1..], id);
    }
  }

  /** Removal is permanent: between any two points of any run, a published person who is removed at
      the first is removed at the second, under the same name and with no account they had not. */
  lemma RemovalIsPermanent(first: seq<Action>, rest: seq<Action>, id: Id)
    requires Legal(EMPTY, first) && Legal(Run(EMPTY, first), rest)
    requires var s := Run(EMPTY, first); id in s.h.published && RecordOf(s.db, id).removed
    ensures var s, s' := Run(EMPTY, first), Run(Run(EMPTY, first), rest);
      && id in s'.db.people
      && s'.db.people[id].removed
      && s'.db.people[id].name == RecordOf(s.db, id).name
      && s'.db.people[id].accounts <= RecordOf(s.db, id).accounts
  {
    EmptyIsOk();
    RunKeepsInv(EMPTY, first);
    RemovalLasts(Run(EMPTY, first), rest, id);
  }

  /** A sign-in that succeeds does so at an instant when its person is recorded and active. */
  lemma OnlyActivePeopleResolve(acts: seq<Action>, pid: nat, draw: string)
    requires Legal(EMPTY, acts) && Allowed(Run(EMPTY, acts), Step(pid, draw))
    requires var p := Act(Run(EMPTY, acts), Step(pid, draw)).procs[pid]; p.Done? && p.outcome.Resolved?
    ensures var s := Run(EMPTY, acts);
      var id := Act(s, Step(pid, draw)).procs[pid].outcome.id;
      id in s.db.people && !s.db.people[id].removed
  {
    EmptyIsOk();
    RunKeepsInv(EMPTY, acts);
    assert ProcOk(Run(EMPTY, acts).db, Run(EMPTY, acts).h, Run(EMPTY, acts).procs[pid]);
  }

  // ---------------------------------------------------------------- First sight

  lemma ResolvedStandsFor(acts: seq<Action>, p: nat)
    requires Legal(EMPTY, acts)
    requires var s := Run(EMPTY, acts); p in s.procs && s.procs[p].Done? && s.procs[p].outcome.Resolved?
    ensures var s := Run(EMPTY, acts);
      var Resolved(a, id, _) := s.procs[p].outcome;
      id in s.db.people && (RefOf(a) !in s.h.disturbed ==> AccountOf(s.db, RefOf(a)) == Some(id))
  {
    EmptyIsOk();
    RunKeepsInv(EMPTY, acts);
    var s := Run(EMPTY, acts);
    assert ProcOk(s.db, s.h, s.procs[p]);
  }

  /** However many sign-ins race on one account, all that return name the person the account
      stands for, as long as no link or unlink has rewritten that account. */
  lemma FirstSightAgrees(acts: seq<Action>, p: nat, q: nat)
    requires Legal(EMPTY, acts)
    requires var s := Run(EMPTY, acts);
      && p in s.procs && s.procs[p].Done? && s.procs[p].outcome.Resolved?
      && q in s.procs && s.procs[q].Done? && s.procs[q].outcome.Resolved?
      && RefOf(s.procs[p].outcome.a) == RefOf(s.procs[q].outcome.a)
      && RefOf(s.procs[p].outcome.a) !in s.h.disturbed
    ensures var s := Run(EMPTY, acts);
      var ref := RefOf(s.procs[p].outcome.a);
      && s.procs[p].outcome.id == s.procs[q].outcome.id
      && AccountOf(s.db, ref) == Some(s.procs[p].outcome.id)
      && s.procs[p].outcome.id in s.db.people
  {
    ResolvedStandsFor(acts, p);
    ResolvedStandsFor(acts, q);
  }

  /** Once everything has returned, an account that resolves and was never rewritten was announced
      exactly once, under the id it resolves to; an account that does not resolve never was. */
  lemma AnnouncedOnce(acts: seq<Action>, ref: Ref)
    requires Legal(EMPTY, acts) && Quiet(Run(EMPTY, acts))
    requires ref !in Run(EMPTY, acts).h.disturbed
    ensures var db := Run(EMPTY, acts).db;
      && CountAdded(db.log, ref) == (if ref in db.accounts then 1 else 0)
      && forall i :: 0 <= i < |db.log| && db.log[i].PersonAdded? && db.log[i].ref == ref ==>
           AccountOf(db, ref) == Some(db.log[i].id)
  {
    EmptyIsOk();
    RunKeepsInv(EMPTY, acts);
    var s := Run(EMPTY, acts);
    assert OneAdded(s, ref);
    assert AboutToLog(s.procs, ref) == {};
    forall i | 0 <= i < |s.db.log| && s.db.log[i].PersonAdded? && s.db.log[i].ref == ref
      ensures AccountOf(s.db, ref) == Some(s.db.log[i].id)
    {
      assert EntryOk(s.db, s.h, s.db.log[i]);
    }
  }

  /** A candidate that lost leaves nothing: once everything has returned, the recorded people are
      exactly the published ones. At any time, every account stands for a recorded person. */
  lemma NothingLeftBehind(acts: seq<Action>)
    requires Legal(EMPTY, acts)
    ensures var s := Run(EMPTY, acts);
      && (Quiet(s) ==> s.db.people.Keys == s.h.published)
      && (forall ref :: ref in s.db.accounts ==> s.db.accounts[ref] in s.db.people)
  {
    EmptyIsOk();
    RunKeepsInv(EMPTY, acts);
    var s := Run(EMPTY, acts);
    if Quiet(s) {
      forall id | id in s.db.people ensures id in s.h.published {
        assert !IsHeld(s.procs, id);
      }
    }
  }

  /** Two accounts share a person only if a link for one of them is in the log, or about to be,
      even when both asked for the same first id. */
  lemma SharingTakesALink(acts: seq<Action>, ref: Ref, other: Ref)
    requires Legal(EMPTY, acts)
    requires var db := Run(EMPTY, acts).db;
      ref != other && ref in db.accounts && other in db.accounts && db.accounts[ref] == db.accounts[other]
    ensures var s := Run(EMPTY, acts);
      LinkLogged(s, ref, s.db.accounts[ref]) || LinkLogged(s, other, s.db.accounts[other])
  {
    EmptyIsOk();
    RunKeepsInv(EMPTY, acts);
    var s := Run(EMPTY, acts);
    assert Justified(s.h, ref, s.db.accounts[ref]) && Justified(s.h, other, s.db.accounts[other]);
  }

  /** A code is redeemed at most as often as it was given out; drawn afresh, at most once. */
  lemma CodesArePaidFor(acts: seq<Action>, code: Code)
    requires Legal(EMPTY, acts)
    ensures Times(Run(EMPTY, acts).h.redeemed, code) <= Times(Run(EMPTY, acts).h.issued, code)
  {
    EmptyIsOk();
    RunKeepsInv(EMPTY, acts);
    assert CodeBudget(Run(EMPTY, acts).db, Run(EMPTY, acts).h, code);
  }

  /** A sign-in finds its account gone only if an unlink has deleted the entry, and `register` always
      finds the record that stopped it. */
  lemma OnlyUnlinkLosesALookup(acts: seq<Action>, pid: nat)
    requires Legal(EMPTY, acts) && pid in Run(EMPTY, acts).procs && Run(EMPTY, acts).procs[pid].Done?
    ensures var s := Run(EMPTY, acts);
      && (s.procs[pid].outcome.Lost? ==> RefOf(s.procs[pid].outcome.a) in s.h.dropped)
      && !s.procs[pid].outcome.NoRecord?
  {
    EmptyIsOk();
    RunKeepsInv(EMPTY, acts);
    assert ProcOk(Run(EMPTY, acts).db, Run(EMPTY, acts).h, Run(EMPTY, acts).procs[pid]);
  }

  /** The loser of a race for an account ends without an id if and only if, when it looks again, the last
      write to the account's entry was an unlink's deletion: neither a claim nor a link came after it. */
  lemma LostExactlyWhenUnlinked(acts: seq<Action>, pid: nat, draw: string)
    requires Legal(EMPTY, acts) && pid in Run(EMPTY, acts).procs && Run(EMPTY, acts).procs[pid].Reread?
    ensures var s := Run(EMPTY, acts);
      var a := s.procs[pid].a;
      Act(s, Step(pid, draw)).procs[pid] == Done(Lost(a)) <==> RefOf(a) in s.h.gone
  {
    EmptyIsOk();
    RunKeepsInv(EMPTY, acts);
    assert ProcOk(Run(EMPTY, acts).db, Run(EMPTY, acts).h, Run(EMPTY, acts).procs[pid]);
  }

  /** Action `i` of a run from `s` is an unlink deleting the account's entry. */
  predicate DeletesAt(s: State, acts: seq<Action>, i: nat, ref: Ref)
    requires Legal(s, acts)
    decreases |acts|
  {
    && i < |acts|
    && if i > 0 then DeletesAt(Act(s, acts[0]), acts[1..], i - 1, ref)
       else acts[0].Step? && s.procs[acts[0].pid].UnlinkDelete? && RefOf(s.procs[acts[0].pid].a) == ref
  }

  /** Whatever else runs, an account with an entry at one point and none at a later one has been unlinked
      in between. */
  lemma {:induction false} EntriesGoByUnlinkOnly(s: State, acts: seq<Action>, ref: Ref) returns (i: nat)
    requires Legal(s, acts) && ref in s.db.accounts && ref !in Run(s, acts).db.accounts
    ensures DeletesAt(s, acts, i, ref)
    decreases |acts|
  {
    var next := Act(s, acts[0]);
    if ref in next.db.accounts {
      i := EntriesGoByUnlinkOnly(next, acts[1..], ref);
      i := i + 1;
    } else {
      i := 0;
    }
  }

  ghost predicate Leads(s: State, acts: seq<Action>, to: State) {
    Legal(s, acts) && Run(s, acts) == to
  }

  lemma Prepend(s: State, to: State, act: Action, acts: seq<Action>)
    requires Allowed(s, act) && Leads(Act(s, act), acts, to)
    ensures Leads(s, [act] + acts, to)
  {
    assert ([act] + acts)[1..] == acts;
  }

  lemma {:induction false} Chain(s: State, acts: seq<Action>, mid: State, more: seq<Action>, to: State)
    requires Leads(s, acts, mid) && Leads(mid, more, to)
    ensures Leads(s, acts + more, to)
    decreases |acts|
  {
    if acts == [] {
      assert acts + more == more;
    } else {
      Chain(Act(s, acts[0]), acts[1..], mid, more, to);
      Prepend(s, to, acts[0], acts[1..] + more);
      assert [acts[0]] + (acts[1..] + more) == acts + more;
    }
  }

  predicate Racing(s: State, a: Account, mine: Id, other: Id) {
    && RefOf(a) !in s.db.accounts
    && s.procs == map[0 := Publish(a, other), 1 := Publish(a, mine), 2 := UnlinkLookup(a)]
  }

  /** One command, with its outcome spelled out. */
  lemma Does(s: State, pid: nat, draw: string, w: Write, p: Proc, acts: seq<Action>, to: State)
    requires pid in s.procs && !s.procs[pid].Done? && !s.procs[pid].RegisterClaim?
    requires Exec(s.db, s.procs[pid], draw) == (w, p)
    requires Leads(State(ApplyWrite(s.db, w), Note(s.h, w), s.procs[pid := p]), acts, to)
    ensures Leads(s, [Step(pid, draw)] + acts, to)
  {
    Prepend(s, to, Step(pid, draw), acts);
  }

  function After(s: State, pid: nat, w: Write, p: Proc): State {
    State(ApplyWrite(s.db, w), Note(s.h, w), s.procs[pid := p])
  }

  lemma BothPutACandidate(a: Account, draw: string) returns (acts: seq<Action>, s: State)
    requires BaseId(a).Some?
    ensures Leads(EMPTY, acts, s) && Racing(s, a, BaseId(a).value + "." + draw, BaseId(a).value)
  {
    var base := BaseId(a).value;
    var mine := base + "." + draw;
    assert |mine| > |base|;
    var s1 := EMPTY.(procs := map[0 := Lookup(a, true)]);
    var s2 := EMPTY.(procs := s1.procs[1 := Lookup(a, true)]);
    var s3 := EMPTY.(procs := s2.procs[2 := UnlinkLookup(a)]);
    var s4 := After(s3, 0, Nothing, Claim(a, base, base));
    var s5 := After(s4, 1, Nothing, Claim(a, base, base));
    var s6 := After(s5, 0, PutCandidate(base, FreshRecord(a)), Publish(a, base));
    var s7 := After(s6, 1, Nothing, Claim(a, base, mine));
    s := After(s7, 1, PutCandidate(mine, FreshRecord(a)), Publish(a, mine));
    acts := [];
    Does(s7, 1, "", PutCandidate(mine, FreshRecord(a)), Publish(a, mine), acts, s);
    acts := [Step(1, "")] + acts;
    Does(s6, 1, draw, Nothing, Claim(a, base, mine), acts, s);
    acts := [Step(1, draw)] + acts;
    Does(s5, 0, "", PutCandidate(base, FreshRecord(a)), Publish(a, base), acts, s);
    acts := [Step(0, "")] + acts;
    Does(s4, 1, "", Nothing, Claim(a, base, base), acts, s);
    acts := [Step(1, "")] + acts;
    Does(s3, 0, "", Nothing, Claim(a, base, base), acts, s);
    acts := [Step(0, "")] + acts;
    Prepend(s2, s, Start(2, UnlinkLookup(a)), acts);
    acts := [Start(2, UnlinkLookup(a))] + acts;
    Prepend(s1, s, Start(1, Lookup(a, true)), acts);
    acts := [Start(1, Lookup(a, true))] + acts;
    Prepend(EMPTY, s, Start(0, Lookup(a, true)), acts);
    acts := [Start(0, Lookup(a, true))] + acts;
  }

  predicate Beaten(s: State, a: Account, mine: Id, other: Id) {
    && 1 in s.procs && s.procs[1] == Withdraw(a, mine)
    && 2 in s.procs && s.procs[2] == UnlinkDelete(a, other)
  }

  lemma OneIsBeaten(s0: State, a: Account, mine: Id, other: Id) returns (acts: seq<Action>, s: State)
    requires Racing(s0, a, mine, other)
    ensures Leads(s0, acts, s) && Beaten(s, a, mine, other)
  {
    var s1 := After(s0, 0, ClaimAccount(RefOf(a), other), LogAdded(a, other));
    var s2 := After(s1, 1, Nothing, Withdraw(a, mine));
    s := After(s2, 2, Nothing, UnlinkDelete(a, other));
    acts := [];
    Does(s2, 2, "", Nothing, UnlinkDelete(a, other), acts, s);
    acts := [Step(2, "")] + acts;
    Does(s1, 1, "", Nothing, Withdraw(a, mine), acts, s);
    acts := [Step(1, "")] + acts;
    Does(s0, 0, "", ClaimAccount(RefOf(a), other), LogAdded(a, other), acts, s);
    acts := [Step(0, "")] + acts;
  }

  lemma BeatenAndUnlinked(s0: State, a: Account, mine: Id, other: Id) returns (acts: seq<Action>, s: State)
    requires Beaten(s0, a, mine, other)
    ensures Leads(s0, acts, s) && 1 in s.procs && s.procs[1] == Done(Lost(a))
  {
    var s1 := After(s0, 2, DropAccountKey(RefOf(a)), UnlinkLog(a, other));
    var s2 := After(s1, 1, Discard(mine), Reread(a));
    s := After(s2, 1, Nothing, Done(Lost(a)));
    acts := [];
    Does(s2, 1, "", Nothing, Done(Lost(a)), acts, s);
    acts := [Step(1, "")] + acts;
    Does(s1, 1, "", Discard(mine), Reread(a), acts, s);
    acts := [Step(1, "")] + acts;
    Does(s0, 2, "", DropAccountKey(RefOf(a)), UnlinkLog(a, other), acts, s);
    acts := [Step(2, "")] + acts;
  }

  /** The exception is real: the second of two first sign-ins loses the race for its account, the
      account is unlinked before it looks again, and it is left without an id. */
  lemma UnlinkCanLoseALookup(a: Account, draw: string) returns (acts: seq<Action>)
    requires BaseId(a).Some?
    ensures Legal(EMPTY, acts) && 1 in Run(EMPTY, acts).procs
    ensures Run(EMPTY, acts).procs[1] == Done(Lost(a))
  {
    var first, mid := BothPutACandidate(a, draw);
    var more, beaten := OneIsBeaten(mid, a, BaseId(a).value + "." + draw, BaseId(a).value);
    var rest, s := BeatenAndUnlinked(beaten, a, BaseId(a).value + "." + draw, BaseId(a).value);
    Chain(EMPTY, first, mid, more, beaten);
    Chain(EMPTY, first + more, beaten, rest, s);
    acts := first + more + rest;
  }

  /** Why a removal may only be asked for a published id: one made on a candidate that then loses is
      withdrawn with it, and the id reads as active again. */
  lemma RemovingACandidateIsUndone(db: Db, a: Account, candidate: Id)
    requires candidate in db.people
    ensures var removed := ApplyWrite(db, Overwrite(candidate, Changed(MarkRemoved, db.people[candidate])));
      && RecordOf(removed, candidate).removed
      && !RecordOf(ApplyWrite(removed, Exec(removed, Withdraw(a, candidate), "").0), candidate).removed
  {
  }

  // ---------------------------------------------------------------- Account references

  /** `issuer|subject` tells the accounts of these issuers apart. */
  ghost predicate RefsIdentify(issuers: iset<string>) {
    forall a: Account, b: Account ::
      (a.issuer in issuers && b.issuer in issuers && RefOf(a) == RefOf(b)) ==>
        a.issuer == b.issuer && a.subject == b.subject
  }

  /** No issuer goes on, after a bar, from where another ends. */
  ghost predicate BarsApart(issuers: iset<string>) {
    forall p, q :: p in issuers && q in issuers ==> !(q + "|" <= p)
  }

  lemma LongerIssuerGoesOn(a: Account, b: Account)
    requires RefOf(a) == RefOf(b) && |a.issuer| > |b.issuer|
    ensures b.issuer + "|" <= a.issuer
  {
    var s, n := RefOf(a), |b.issuer|;
    assert s[..n + 1] == b.issuer + "|";
    assert s[..|a.issuer|] == a.issuer;
    assert a.issuer[..n + 1] == s[..n + 1];
  }

  lemma SameIssuerSameSubject(a: Account, b: Account)
    requires RefOf(a) == RefOf(b) && |a.issuer| == |b.issuer|
    ensures a.issuer == b.issuer && a.subject == b.subject
  {
    var n := |a.issuer|;
    assert RefOf(a)[..n] == a.issuer && RefOf(b)[..n] == b.issuer;
    assert RefOf(a)[n + 1..] == a.subject && RefOf(b)[n + 1..] == b.subject;
  }

  /** References tell the accounts of a set of issuers apart if and only if no issuer is another with a bar
      and more behind it; issuers without bars are such. */
  lemma RefsIdentifyExactly(issuers: iset<string>)
    ensures RefsIdentify(issuers) <==> BarsApart(issuers)
    ensures (forall p :: p in issuers ==> '|' !in p) ==> BarsApart(issuers)
  {
    if BarsApart(issuers) {
      forall a: Account, b: Account | a.issuer in issuers && b.issuer in issuers && RefOf(a) == RefOf(b)
        ensures a.issuer == b.issuer && a.subject == b.subject
      {
        if |a.issuer| > |b.issuer| { LongerIssuerGoesOn(a, b); }
        if |a.issuer| < |b.issuer| { LongerIssuerGoesOn(b, a); }
        SameIssuerSameSubject(a, b);
      }
    }
    forall p, q | p in issuers && q in issuers && q + "|" <= p
      ensures !RefsIdentify(issuers) && '|' in p
    {
      var rest := p[|q| + 1..];
      assert p == q + "|" + rest && p[|q|] == '|';
      var a, b := Account(p, "s", ""), Account(q, rest + "|" + "s", "");
      assert RefOf(a) == RefOf(b);
    }
  }

  /** With a bar in an issuer two different accounts are one, and share a person without a link. */
  lemma RefsCanCoincide(name: string)
    ensures RefOf(Account("a|b", "c", name)) == RefOf(Account("a", "b|c", name))
  {
    assert "a|b" + "|" + "c" == "a|b|c" == "a" + "|" + "b|c";
  }
}
