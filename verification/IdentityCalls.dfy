/** What each call of the identity store leaves behind, field by field, and what no call does uninvited. */
module IdentityCalls {
  import opened Wrappers
  import opened Text
  import opened IdentityProtocol
  import opened IdentityInvariant
  import opened IdentityTheorems
  import opened Identities

  // ---------------------------------------------------------------- Nobody is added uninvited

  /** Somebody signed in with the account and asked for a person to be made if there is none. */
  predicate IsInvited(acts: seq<Action>, ref: Ref) {
    exists act :: act in acts && act.Start? && act.op.Lookup? && act.op.autoProvision && RefOf(act.op.a) == ref
  }

  predicate Provisions(p: Proc, ref: Ref) {
    ((p.Lookup? && p.autoProvision) || p.Claim? || p.Publish? || p.LogAdded?) && RefOf(p.a) == ref
  }

  /** No trace of a person made for the account: no record, no owner, no entry of the log. */
  ghost predicate Unmade(db: Db, h: History, ref: Ref) {
    && (forall id :: id in db.people ==> db.people[id].namedBy != Some(ref))
    && (forall id :: id in h.owner ==> h.owner[id] != ref)
    && CountAdded(db.log, ref) == 0
  }

  ghost predicate Uninvited(s: State, ref: Ref) {
    Unmade(s.db, s.h, ref) && forall pid :: pid in s.procs ==> !Provisions(s.procs[pid], ref)
  }

  /** What a command of an operation that provisions nobody for the account writes. */
  predicate MakesNone(db: Db, w: Write, ref: Ref) {
    match w
    case PutCandidate(_, rec) => rec.namedBy != Some(ref)
    case PutRegistered(_, rec) => rec.namedBy != Some(ref)
    case Overwrite(id, rec) => rec.namedBy == RecordOf(db, id).namedBy
    case ClaimAccount(claimed, _) => claimed != ref
    case Append(entry) => Adds(entry, ref) == 0
    case _ => true
  }

  lemma UpdateMakesNone(db: Db, h: History, p: Proc, draw: string, ref: Ref)
    requires p.Updating? && h.published <= db.people.Keys && ProcOk(db, h, p)
    ensures MakesNone(db, Exec(db, p, draw).0, ref) && !Provisions(Exec(db, p, draw).1, ref)
  {
  }

  lemma ExecMakesNone(db: Db, h: History, p: Proc, draw: string, ref: Ref)
    requires h.published <= db.people.Keys && ProcOk(db, h, p) && !Provisions(p, ref)
    ensures MakesNone(db, Exec(db, p, draw).0, ref) && !Provisions(Exec(db, p, draw).1, ref)
  {
    if p.Updating? { UpdateMakesNone(db, h, p, draw, ref); }
  }

  lemma WriteMakesNone(db: Db, h: History, w: Write, ref: Ref)
    requires Unmade(db, h, ref) && MakesNone(db, w, ref)
    ensures Unmade(ApplyWrite(db, w), Note(h, w), ref)
  {
    LogAfter(db, w, ref);
  }

  lemma ActMakesNone(s: State, act: Action, ref: Ref)
    requires Inv(s) && Allowed(s, act) && Uninvited(s, ref)
    requires act.Start? ==> !Provisions(act.op, ref)
    ensures Uninvited(Act(s, act), ref)
  {
    if act.Step? {
      ExecMakesNone(s.db, s.h, s.procs[act.pid], act.draw, ref);
      WriteMakesNone(s.db, s.h, Exec(s.db, s.procs[act.pid], act.draw).0, ref);
    }
  }

  lemma {:induction false} RunMakesNone(s: State, acts: seq<Action>, ref: Ref)
    requires Inv(s) && Legal(s, acts) && Uninvited(s, ref) && !IsInvited(acts, ref)
    ensures Uninvited(Run(s, acts), ref)
    decreases |acts|
  {
    if acts != [] {
      assert acts[0] in acts;
      ActKeepsInv(s, acts[0]);
      ActMakesNone(s, acts[0], ref);
      RunMakesNone(Act(s, acts[0]), acts[1..], ref);
    }
  }

  /** Whatever else happens: if nobody signed in with the account asking for a person to be made, none was. No record
      is named after it, the log adds no one for it, and if it has an entry at all, a link wrote it. */
  lemma NobodyIsAddedUninvited(acts: seq<Action>, ref: Ref)
    requires Legal(EMPTY, acts) && !IsInvited(acts, ref)
    ensures var s := Run(EMPTY, acts);
      && CountAdded(s.db.log, ref) == 0
      && (forall id :: id in s.db.people ==> s.db.people[id].namedBy != Some(ref))
      && (ref in s.db.accounts ==> (ref, s.db.accounts[ref]) in s.h.joined)
  {
    EmptyIsOk();
    RunKeepsInv(EMPTY, acts);
    RunMakesNone(EMPTY, acts, ref);
    var s := Run(EMPTY, acts);
    assert ref in s.db.accounts ==> Justified(s.h, ref, s.db.accounts[ref]);
  }

  /** A sign-in that may not make a person and finds no entry is refused there and then, in any state, and writes
      nothing. */
  lemma UnknownAccountsAreRefused(s: State, pid: nat, draw: string, a: Account)
    requires pid in s.procs && s.procs[pid] == Lookup(a, false) && RefOf(a) !in s.db.accounts
    ensures var s' := Act(s, Step(pid, draw)); s'.db == s.db && s'.h == s.h && s'.procs == s.procs[pid := Done(Refused)]
  {
  }

  // ---------------------------------------------------------------- Ids

  predicate IsPlain(s: string) {
    s != "" && (forall c :: c in s ==> c != '/' && c != '{' && c != '}') && !IsSpace(s[0]) && !IsSpace(s[|s| - 1])
  }

  /** A person is asked for under the account's issuer and subject with a dot between; a derived id never holds a
      slash or a brace and is never blank. */
  lemma BaseIds(a: Account)
    ensures IsPlain(a.issuer) && IsPlain(a.subject) ==> BaseId(a) == Some(a.issuer + "." + a.subject)
    ensures BaseId(a).Some? ==> var id := BaseId(a).value; id != "" && '/' !in id && '{' !in id && '}' !in id
    ensures BaseId(a).None? <==>
            Strip(Replace(a.issuer + "." + a.subject, '/', '.')) == "" || '{' in a.issuer + a.subject || '}' in a.issuer + a.subject
  {
    var whole := a.issuer + "." + a.subject;
    var replaced := Replace(whole, '/', '.');
    NoSlashIsLeft(replaced);
    if IsPlain(a.issuer) && IsPlain(a.subject) {
      forall i | 0 <= i < |whole| ensures whole[i] != '/' {
        assert whole[i] in a.issuer || whole[i] == '.' || whole[i] in a.subject;
      }
      assert replaced == whole;
      StripOfTight(whole);
    }
    BracesStay(whole, '{');
    BracesStay(whole, '}');
    assert forall c :: c in whole <==> c in a.issuer || c == '.' || c in a.subject;
    assert forall c :: c in a.issuer + a.subject <==> c in a.issuer || c in a.subject;
  }

  lemma NoSlashIsLeft(replaced: string)
    requires '/' !in replaced
    ensures '/' !in Strip(replaced)
  {
    if '/' in Strip(replaced) { StripPart(replaced, '/'); }
  }

  lemma BracesStay(whole: string, c: char)
    requires c == '{' || c == '}'
    ensures c in Strip(Replace(whole, '/', '.')) <==> c in whole
  {
    var replaced := Replace(whole, '/', '.');
    if c in Strip(replaced) {
      StripPart(replaced, c);
      var i :| 0 <= i < |replaced| && replaced[i] == c;
      assert whole[i] == c;
    }
    if i :| 0 <= i < |whole| && whole[i] == c {
      assert replaced[i] == c;
      StripKeeps(replaced, c);
    }
  }

  lemma {:induction false} StripLeftKeeps(s: string, c: char)
    requires c in s && !IsSpace(c)
    ensures c in StripLeft(s)
  {
    if IsSpace(s[0]) {
      assert s == [s[0]] + s[1..];
      StripLeftKeeps(s[1..], c);
    }
  }

  lemma {:induction false} StripRightKeeps(s: string, c: char)
    requires c in s && !IsSpace(c)
    ensures c in StripRight(s)
  {
    var n := |s| - 1;
    if IsSpace(s[n]) {
      assert s == s[..n] + [s[n]];
      StripRightKeeps(s[..n], c);
    }
  }

  lemma StripKeeps(s: string, c: char)
    requires c in s && !IsSpace(c)
    ensures c in Strip(s)
  {
    StripLeftKeeps(s, c);
    StripRightKeeps(StripLeft(s), c);
  }

  lemma {:induction false} FreeIdsExtend(db: Db, base: Id, candidate: Id, draws: seq<string>)
    requires FirstFree(db, base, candidate, draws).Some? && base <= candidate
    ensures base <= FirstFree(db, base, candidate, draws).value
    ensures candidate !in db.people ==> FirstFree(db, base, candidate, draws) == Some(candidate)
    decreases |draws|
  {
    if candidate in db.people { FreeIdsExtend(db, base, base + "." + draws[0], draws[1..]); }
  }

  // ---------------------------------------------------------------- What each whole call does

  /** A sign-in of an account with an entry: refused if its person was removed; else that person, whose record changes
      only in its name, and only if the account gave it and now gives another. */
  lemma KnownAccountsSignIn(db: Db, a: Account, auto: bool, draws: seq<string>)
    requires RefOf(a) in db.accounts
    ensures var (after, out) := Serve(db, Lookup(a, auto), draws);
      var id := db.accounts[RefOf(a)];
      var rec := RecordOf(db, id);
      && after.accounts == db.accounts && after.links == db.links && after.log == db.log
      && if rec.removed then out == Refused && after.people == db.people
         else if a.name != "" && a.name != rec.name && rec.namedBy == Some(RefOf(a)) then
           out == Resolved(a, id, a.name) && after.people == db.people[id := rec.(name := a.name)]
         else out == Resolved(a, id, if rec.name != "" then rec.name else a.name) && after.people == db.people
  {
  }

  /** A sign-in of an account without an entry: refused, and nothing written, if no person may be made for it or it
      gives no id; else one new person, named and listed after it, under its own id if that is free, the entry and one
      line of the log. */
  lemma NewAccountsSignIn(db: Db, a: Account, auto: bool, draws: seq<string>)
    requires RefOf(a) !in db.accounts && FindsAnId(db, Lookup(a, auto), draws)
    ensures var (after, out) := Serve(db, Lookup(a, auto), draws);
      var ref := RefOf(a);
      if !auto || BaseId(a).None? then out == Refused && after == db
      else
        && out.Resolved? && out == Resolved(a, out.id, a.name)
        && out.id !in db.people && BaseId(a).value <= out.id
        && (BaseId(a).value !in db.people ==> out.id == BaseId(a).value)
        && after.accounts == db.accounts[ref := out.id]
        && after.people == db.people[out.id := Record(a.name, Some(ref), false, {ref})]
        && after.log == db.log + [PersonAdded(out.id, ref)] && after.links == db.links
  {
    if auto && BaseId(a).Some? { FreeIdsExtend(db, BaseId(a).value, BaseId(a).value, draws); }
  }

  /** A redeemed code is gone whatever follows. A link is refused if either side was removed; else the account's entry
      names the person, whose list gains it, whoever had it loses it from theirs, and the log says from whom it came. */
  lemma LinksMove(db: Db, a: Account, code: Code)
    requires code in db.links
    ensures var (after, out) := Serve(db, Redeem(a, code), []);
      var id, ref, previous := db.links[code], RefOf(a), AccountOf(db, RefOf(a));
      var rec := RecordOf(db, id);
      && after.links == db.links - {code}
      && if rec.removed || (previous.Some? && previous.value != id && RecordOf(db, previous.value).removed) then
           out == Refused && after == db.(links := db.links - {code})
         else
           && out == Joined(a, id, if rec.name != "" then rec.name else a.name)
           && after.accounts == db.accounts[ref := id]
           && after.log == db.log + [AccountLinked(id, ref, previous)]
  {
  }

  lemma LinkedRecords(db: Db, a: Account, id: Id, other: Id)
    requires MayLink(db, a, id)
    ensures var ref, rec, after := RefOf(a), RecordOf(db, other), Linked(db, a, id);
      && (other in after.people <==> other in db.people || other == id || AccountOf(db, ref) == Some(other))
      && RecordOf(after, other) ==
         if other == id then rec.(accounts := rec.accounts + {ref})
         else if AccountOf(db, ref) == Some(other) then rec.(accounts := rec.accounts - {ref})
         else rec
  {
  }

  lemma LinksMoveLists(db: Db, a: Account, code: Code, other: Id)
    requires code in db.links && Serve(db, Redeem(a, code), []).1.Joined?
    ensures var after := Serve(db, Redeem(a, code), []).0;
      var id, ref, rec := db.links[code], RefOf(a), RecordOf(db, other);
      && (other in after.people <==> other in db.people || other == id || AccountOf(db, ref) == Some(other))
      && RecordOf(after, other) ==
         if other == id then rec.(accounts := rec.accounts + {ref})
         else if AccountOf(db, ref) == Some(other) then rec.(accounts := rec.accounts - {ref})
         else rec
  {
    var taken := ApplyWrite(db, TakeCode(code));
    assert taken.people == db.people && taken.accounts == db.accounts;
    LinkedRecords(taken, a, db.links[code], other);
  }

  lemma UnknownCodesAreRefused(db: Db, a: Account, code: Code)
    requires code !in db.links
    ensures Serve(db, Redeem(a, code), []) == (db, Refused)
  {
  }

  /** An unlinked account has no entry and is off the list of whoever had it, removed or not; nothing else changes
      but the log. */
  lemma UnlinksDrop(db: Db, a: Account, other: Id)
    ensures var (after, out) := Serve(db, UnlinkLookup(a), []);
      var ref, rec := RefOf(a), RecordOf(db, other);
      && out == Finished && after.links == db.links
      && if ref !in db.accounts then after == db
         else
           && after.accounts == db.accounts - {ref}
           && after.log == db.log + [AccountUnlinked(db.accounts[ref], ref)]
           && RecordOf(after, other) == if other == db.accounts[ref] then rec.(accounts := rec.accounts - {ref}) else rec
  {
  }

  /** Registering records and logs an id that is new, leaves a known one as it is, and refuses a removed one. */
  lemma RegistrationsRecord(db: Db, id: Id, name: string)
    ensures var (after, out) := Serve(db, RegisterClaim(id, name), []);
      && after.accounts == db.accounts && after.links == db.links
      && if id in db.people then after == db && out == (if db.people[id].removed then Refused else Finished)
         else
           && out == Finished && after.people == db.people[id := Record(name, None, false, {})]
           && after.log == db.log + [PersonRegistered(id)]
  {
  }

  /** A code is given for anyone who was not removed, and is all that changes. */
  lemma CodesAreGiven(db: Db, id: Id, code: Code)
    ensures Serve(db, BeginRead(id, code), []) ==
            if RecordOf(db, id).removed then (db, Refused) else (db.(links := db.links[code := id]), Finished)
  {
  }

  /** Removing marks the record and logs it; accounts, lists and names stay. */
  lemma RemovalsMark(db: Db, id: Id)
    ensures var (after, out) := Serve(db, Removing(id), []);
      && out == Finished && after.accounts == db.accounts && after.links == db.links
      && after.people == db.people[id := RecordOf(db, id).(removed := true)]
      && after.log == db.log + [PersonRemoved(id)]
  {
  }

  // ---------------------------------------------------------------- What interference does

  /** A provisioner that finds the account taken withdraws its candidate and resolves to the winner's person. */
  lemma LosersFollowTheWinner(db: Db, a: Account, candidate: Id)
    requires RefOf(a) in db.accounts && candidate in db.people && candidate != db.accounts[RefOf(a)]
    ensures var left := ApplyWrite(db, Discard(candidate));
      var (db', out) := Serve(left, Lookup(a, true), []);
      candidate !in left.people && Alone(db, Publish(a, candidate), db', Done(out))
  {
    var left := ApplyWrite(db, Discard(candidate));
    var (db', out) := Serve(left, Lookup(a, true), []);
    AloneResolves(left, a, db.accounts[RefOf(a)]);
    AloneStep(left, Reread(a), "", db', Done(out));
    AloneStep(db, Withdraw(a, candidate), "", db', Done(out));
    AloneStep(db, Publish(a, candidate), "", db', Done(out));
  }

  /** No update is lost and none overwrites what it has not read: one whose record was written since it was watched
      starts over, and left alone applies its change to the record as it is by then. */
  lemma OvertakenUpdatesStartOver(db: Db, id: Id, seen: nat, stale: Record, change: Change, allow: bool, next: Next)
    requires Revision(db, id) != seen && (RecordOf(db, id).removed ==> allow)
    ensures Alone(db, Updating(Committing(seen, stale), id, change, allow, next),
                  Updated(db, id, change), AfterUpdate(next, id, Changed(change, RecordOf(db, id))))
  {
    var db', p' := Updated(db, id, change), AfterUpdate(next, id, Changed(change, RecordOf(db, id)));
    AloneStays(db', p');
    AloneUpdate(db, id, change, allow, next, db', p');
    AloneStep(db, Updating(Committing(seen, stale), id, change, allow, next), "", db', p');
  }

  /** An update of someone removed by then writes nothing: it is refused, or, at the end of a link, forgiven. */
  lemma RemovedPeopleAreNotUpdated(db: Db, id: Id, seen: nat, stale: Record, change: Change, next: Next)
    requires Revision(db, id) != seen && RecordOf(db, id).removed
    ensures Alone(db, Updating(Committing(seen, stale), id, change, false, next), db,
                  match next case ThenLinked(a, person, name) => Done(Joined(a, person, name)) case _ => Done(Refused))
  {
    var p' := match next case ThenLinked(a, person, name) => Done(Joined(a, person, name)) case _ => Done(Refused);
    AloneStays(db, p');
    AloneStep(db, Updating(Reading(Revision(db, id)), id, change, false, next), "", db, p');
    AloneStep(db, Updating(Watching, id, change, false, next), "", db, p');
    AloneStep(db, Updating(Committing(seen, stale), id, change, false, next), "", db, p');
  }
}
