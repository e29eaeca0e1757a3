// The same operations run one after another.
//
// `Serve` says what a whole call does to the store when nothing interferes. The class follows the
// source method by method and is proved to do exactly that; `AloneServes` proves that the
// concurrent protocol, left alone, does it too. After any number of completed calls
// the account index and the account lists of the people are inverse to each other.
module Identities {
  import opened Wrappers
  import opened IdentityProtocol

  /** The first id that is free: the one derived from the account, else one with a random suffix. */
  function FirstFree(db: Db, base: Id, candidate: Id, draws: seq<string>): (id: Option<Id>)
    ensures id.Some? ==> id.value !in db.people
    decreases |draws|
  {
    if candidate !in db.people then Some(candidate)
    else if draws == [] then None
    else FirstFree(db, base, base + "." + draws[0], draws[1..])
  }

  /** A sign-in that must create a person eventually draws a free id. */
  predicate FindsAnId(db: Db, call: Proc, draws: seq<string>) {
    call.Lookup? && RefOf(call.a) !in db.accounts && BaseId(call.a).Some? ==>
      FirstFree(db, BaseId(call.a).value, BaseId(call.a).value, draws).Some?
  }

  predicate IsOperation(p: Proc) {
    p.Lookup? || p.Redeem? || p.UnlinkLookup? || p.RegisterClaim? || p.BeginRead? ||
    (p.Updating? && p == Removing(p.id))
  }

  function Updated(db: Db, id: Id, change: Change): Db {
    ApplyWrite(db, Overwrite(id, Changed(change, RecordOf(db, id))))
  }

  function Provisioned(db: Db, a: Account, id: Id): Db {
    var put := ApplyWrite(db, PutCandidate(id, FreshRecord(a)));
    ApplyWrite(ApplyWrite(put, ClaimAccount(RefOf(a), id)), Append(PersonAdded(id, RefOf(a))))
  }

  function Resolving(db: Db, a: Account, id: Id): (Db, Outcome) {
    var rec := RecordOf(db, id);
    if rec.removed then (db, Refused)
    else if Renames(a, rec) then (Updated(db, id, Rename(a.name)), Resolved(a, id, a.name))
    else (db, Resolved(a, id, Or(rec.name, a.name)))
  }

  /** Pointing `a` at `id` and taking it off the list of whoever had it. */
  function Moved(db: Db, a: Account, id: Id, previous: Option<Id>): Db {
    var moved := ApplyWrite(db, MoveAccount(RefOf(a), id));
    var logged := ApplyWrite(moved, Append(AccountLinked(id, RefOf(a), previous)));
    if previous.Some? && previous.value != id then Updated(logged, previous.value, DropAccount(RefOf(a)))
    else logged
  }

  /** Making `a` the person `id`, who is active, once the code has been taken. */
  function Linked(db: Db, a: Account, id: Id): Db {
    Moved(Updated(db, id, AddAccount(RefOf(a))), a, id, AccountOf(db, RefOf(a)))
  }

  predicate MayLink(db: Db, a: Account, id: Id) {
    && !RecordOf(db, id).removed
    && var previous := AccountOf(db, RefOf(a));
       previous.Some? && previous.value != id ==> !RecordOf(db, previous.value).removed
  }

  function Unlinked(db: Db, a: Account, id: Id): Db {
    var dropped := ApplyWrite(db, DropAccountKey(RefOf(a)));
    var logged := ApplyWrite(dropped, Append(AccountUnlinked(id, RefOf(a))));
    Updated(logged, id, DropAccount(RefOf(a)))
  }

  /** What a whole call does when it runs alone. */
  function Serve(db: Db, call: Proc, draws: seq<string>): (Db, Outcome)
    requires IsOperation(call) && FindsAnId(db, call, draws)
  {
    match call
    case Lookup(a, auto) =>
      if RefOf(a) in db.accounts then Resolving(db, a, db.accounts[RefOf(a)])
      else if !auto || BaseId(a).None? then (db, Refused)
      else
        var id := FirstFree(db, BaseId(a).value, BaseId(a).value, draws).value;
        Resolving(Provisioned(db, a, id), a, id)
    case Redeem(a, code) =>
      if code !in db.links then (db, Refused)
      else
        var id, taken := db.links[code], ApplyWrite(db, TakeCode(code));
        if !MayLink(taken, a, id) then (taken, Refused)
        else (Linked(taken, a, id), Joined(a, id, Or(RecordOf(taken, id).name, a.name)))
    case UnlinkLookup(a) =>
      (if RefOf(a) in db.accounts then Unlinked(db, a, db.accounts[RefOf(a)]) else db, Finished)
    case RegisterClaim(id, name) =>
      if id in db.people then (db, if db.people[id].removed then Refused else Finished)
      else
        var put := ApplyWrite(db, PutRegistered(id, Record(name, None, false, {})));
        (ApplyWrite(put, Append(PersonRegistered(id))), Finished)
    case BeginRead(id, code) =>
      if RecordOf(db, id).removed then (db, Refused) else (ApplyWrite(db, SaveCode(code, id)), Finished)
    case Updating(_, id, _, _, _) =>
      (ApplyWrite(Updated(db, id, MarkRemoved), Append(PersonRemoved(id))), Finished)
    case _ => (db, Refused)
  }

  // ---------------------------------------------------------------- Left alone, the protocol serves

  function Solo(db: Db, p: Proc, draws: seq<string>): (Db, Proc)
    decreases |draws|
  {
    if draws == [] then (db, p)
    else
      var (w, p') := Exec(db, p, draws[0]);
      Solo(ApplyWrite(db, w), p', draws[1..])
  }

  /** Running alone takes the operation from the one point to the other. */
  ghost predicate Alone(db: Db, p: Proc, db': Db, p': Proc) {
    exists draws :: Solo(db, p, draws) == (db', p')
  }

  lemma AloneStays(db: Db, p: Proc)
    ensures Alone(db, p, db, p)
  {
    assert Solo(db, p, []) == (db, p);
  }

  lemma AloneStep(db: Db, p: Proc, draw: string, db': Db, p': Proc)
    requires Alone(ApplyWrite(db, Exec(db, p, draw).0), Exec(db, p, draw).1, db', p')
    ensures Alone(db, p, db', p')
  {
    var draws :| Solo(ApplyWrite(db, Exec(db, p, draw).0), Exec(db, p, draw).1, draws) == (db', p');
    assert ([draw] + draws)[1..] == draws;
    assert Solo(db, p, [draw] + draws) == (db', p');
  }

  lemma AloneUpdate(db: Db, id: Id, change: Change, allow: bool, next: Next, db': Db, p': Proc)
    requires RecordOf(db, id).removed ==> allow
    requires Alone(Updated(db, id, change), AfterUpdate(next, id, Changed(change, RecordOf(db, id))), db', p')
    ensures Alone(db, Updating(Watching, id, change, allow, next), db', p')
  {
    var seen, rec := Revision(db, id), RecordOf(db, id);
    AloneStep(db, Updating(Committing(seen, rec), id, change, allow, next), "", db', p');
    AloneStep(db, Updating(Reading(seen), id, change, allow, next), "", db', p');
    AloneStep(db, Updating(Watching, id, change, allow, next), "", db', p');
  }

  lemma AloneResolves(db: Db, a: Account, id: Id)
    ensures Alone(db, ReadPerson(a, id), Resolving(db, a, id).0, Done(Resolving(db, a, id).1))
  {
    var (db', out) := Resolving(db, a, id);
    AloneStays(db', Done(out));
    if !RecordOf(db, id).removed && Renames(a, RecordOf(db, id)) {
      AloneUpdate(db, id, Rename(a.name), false, ThenResolved(a), db', Done(out));
    }
    AloneStep(db, ReadPerson(a, id), "", db', Done(out));
  }

  lemma {:induction false} AloneClaims(db: Db, a: Account, base: Id, candidate: Id, draws: seq<string>)
    requires RefOf(a) !in db.accounts && FirstFree(db, base, candidate, draws).Some?
    ensures var id := FirstFree(db, base, candidate, draws).value;
      var (db', out) := Resolving(Provisioned(db, a, id), a, id);
      Alone(db, Claim(a, base, candidate), db', Done(out))
    decreases |draws|
  {
    var id := FirstFree(db, base, candidate, draws).value;
    var (db', out) := Resolving(Provisioned(db, a, id), a, id);
    if candidate in db.people {
      AloneClaims(db, a, base, base + "." + draws[0], draws[1..]);
      AloneStep(db, Claim(a, base, candidate), draws[0], db', Done(out));
    } else {
      var put := ApplyWrite(db, PutCandidate(id, FreshRecord(a)));
      AloneResolves(Provisioned(db, a, id), a, id);
      AloneStep(ApplyWrite(put, ClaimAccount(RefOf(a), id)), LogAdded(a, id), "", db', Done(out));
      AloneStep(put, Publish(a, id), "", db', Done(out));
      AloneStep(db, Claim(a, base, candidate), "", db', Done(out));
    }
  }

  lemma AloneMoves(db: Db, a: Account, id: Id, name: string, previous: Option<Id>)
    requires previous.Some? && previous.value != id ==>
      !RecordOf(ApplyWrite(ApplyWrite(db, MoveAccount(RefOf(a), id)), Append(AccountLinked(id, RefOf(a), previous))), previous.value).removed
    ensures Alone(db, LinkSet(a, id, name, previous), Moved(db, a, id, previous), Done(Joined(a, id, name)))
  {
    var ref := RefOf(a);
    var db', p' := Moved(db, a, id, previous), Done(Joined(a, id, name));
    var moved := ApplyWrite(db, MoveAccount(ref, id));
    var logged := ApplyWrite(moved, Append(AccountLinked(id, ref, previous)));
    AloneStays(db', p');
    if previous.Some? && previous.value != id {
      AloneUpdate(logged, previous.value, DropAccount(ref), false, ThenLinked(a, id, name), db', p');
    }
    AloneStep(moved, LinkLog(a, id, name, previous), "", db', p');
    AloneStep(db, LinkSet(a, id, name, previous), "", db', p');
  }

  lemma AloneJoins(db: Db, a: Account, id: Id)
    requires MayLink(db, a, id)
    ensures Alone(db, Updating(Watching, id, AddAccount(RefOf(a)), false, ThenSetAccount(a, AccountOf(db, RefOf(a)))),
                  Linked(db, a, id), Done(Joined(a, id, Or(RecordOf(db, id).name, a.name))))
  {
    var previous := AccountOf(db, RefOf(a));
    var name := Or(RecordOf(db, id).name, a.name);
    AloneMoves(Updated(db, id, AddAccount(RefOf(a))), a, id, name, previous);
    AloneUpdate(db, id, AddAccount(RefOf(a)), false, ThenSetAccount(a, previous), Linked(db, a, id), Done(Joined(a, id, name)));
  }

  lemma AloneLinks(db: Db, a: Account, id: Id)
    requires MayLink(db, a, id)
    ensures Alone(db, LinkTarget(a, id), Linked(db, a, id), Done(Joined(a, id, Or(RecordOf(db, id).name, a.name))))
  {
    var previous := AccountOf(db, RefOf(a));
    var name := Or(RecordOf(db, id).name, a.name);
    var db', p' := Linked(db, a, id), Done(Joined(a, id, name));
    AloneJoins(db, a, id);
    if previous.Some? && previous.value != id {
      AloneStep(db, LinkPreviousPerson(a, id, previous.value), "", db', p');
    }
    AloneStep(db, LinkPrevious(a, id), "", db', p');
    AloneStep(db, LinkTarget(a, id), "", db', p');
  }

  lemma AloneRefusesALink(db: Db, a: Account, id: Id)
    requires !MayLink(db, a, id)
    ensures Alone(db, LinkTarget(a, id), db, Done(Refused))
  {
    AloneStays(db, Done(Refused));
    if !RecordOf(db, id).removed {
      AloneStep(db, LinkPreviousPerson(a, id, db.accounts[RefOf(a)]), "", db, Done(Refused));
      AloneStep(db, LinkPrevious(a, id), "", db, Done(Refused));
    }
    AloneStep(db, LinkTarget(a, id), "", db, Done(Refused));
  }

  lemma AloneUnlinks(db: Db, a: Account, id: Id)
    ensures Alone(db, UnlinkDelete(a, id), Unlinked(db, a, id), Done(Finished))
  {
    var dropped := ApplyWrite(db, DropAccountKey(RefOf(a)));
    var logged := ApplyWrite(dropped, Append(AccountUnlinked(id, RefOf(a))));
    var db', p' := Unlinked(db, a, id), Done(Finished);
    AloneStays(db', p');
    AloneUpdate(logged, id, DropAccount(RefOf(a)), true, ThenUnlinked, db', p');
    AloneStep(dropped, UnlinkLog(a, id), "", db', p');
    AloneStep(db, UnlinkDelete(a, id), "", db', p');
  }

  lemma AloneSignsIn(db: Db, a: Account, auto: bool, draws: seq<string>)
    requires FindsAnId(db, Lookup(a, auto), draws)
    ensures var (db', out) := Serve(db, Lookup(a, auto), draws); Alone(db, Lookup(a, auto), db', Done(out))
  {
    var (db', out) := Serve(db, Lookup(a, auto), draws);
    if RefOf(a) in db.accounts {
      AloneResolves(db, a, db.accounts[RefOf(a)]);
    } else if auto && BaseId(a).Some? {
      AloneClaims(db, a, BaseId(a).value, BaseId(a).value, draws);
    } else {
      AloneStays(db', Done(out));
    }
    AloneStep(db, Lookup(a, auto), "", db', Done(out));
  }

  lemma AloneRedeems(db: Db, a: Account, code: Code)
    ensures var (db', out) := Serve(db, Redeem(a, code), []); Alone(db, Redeem(a, code), db', Done(out))
  {
    var (db', out) := Serve(db, Redeem(a, code), []);
    if code in db.links {
      var id, taken := db.links[code], ApplyWrite(db, TakeCode(code));
      if MayLink(taken, a, id) { AloneLinks(taken, a, id); } else { AloneRefusesALink(taken, a, id); }
    } else {
      AloneStays(db', Done(out));
    }
    AloneStep(db, Redeem(a, code), "", db', Done(out));
  }

  lemma AloneUnlinksAccount(db: Db, a: Account)
    ensures var (db', out) := Serve(db, UnlinkLookup(a), []); Alone(db, UnlinkLookup(a), db', Done(out))
  {
    var (db', out) := Serve(db, UnlinkLookup(a), []);
    if RefOf(a) in db.accounts { AloneUnlinks(db, a, db.accounts[RefOf(a)]); } else { AloneStays(db', Done(out)); }
    AloneStep(db, UnlinkLookup(a), "", db', Done(out));
  }

  lemma AloneRegisters(db: Db, id: Id, name: string)
    ensures var (db', out) := Serve(db, RegisterClaim(id, name), []); Alone(db, RegisterClaim(id, name), db', Done(out))
  {
    var (db', out) := Serve(db, RegisterClaim(id, name), []);
    AloneStays(db', Done(out));
    if id in db.people {
      AloneStep(db, RegisterRead(id), "", db', Done(out));
    } else {
      AloneStep(ApplyWrite(db, PutRegistered(id, Record(name, None, false, {}))), RegisterLog(id), "", db', Done(out));
    }
    AloneStep(db, RegisterClaim(id, name), "", db', Done(out));
  }

  lemma AloneGivesACode(db: Db, id: Id, code: Code)
    ensures var (db', out) := Serve(db, BeginRead(id, code), []); Alone(db, BeginRead(id, code), db', Done(out))
  {
    var (db', out) := Serve(db, BeginRead(id, code), []);
    AloneStays(db', Done(out));
    if !RecordOf(db, id).removed { AloneStep(db, BeginSave(id, code), "", db', Done(out)); }
    AloneStep(db, BeginRead(id, code), "", db', Done(out));
  }

  lemma AloneRemoves(db: Db, id: Id)
    ensures var (db', out) := Serve(db, Removing(id), []); Alone(db, Removing(id), db', Done(out))
  {
    var (db', out) := Serve(db, Removing(id), []);
    AloneStays(db', Done(out));
    AloneStep(Updated(db, id, MarkRemoved), LogRemoved(id), "", db', Done(out));
    AloneUpdate(db, id, MarkRemoved, true, ThenLogRemoved, db', Done(out));
  }

  /** Without interference the protocol's steps add up to `Serve`, for every call and every store. */
  lemma AloneServes(db: Db, call: Proc, draws: seq<string>)
    requires IsOperation(call) && FindsAnId(db, call, draws)
    ensures Alone(db, call, Serve(db, call, draws).0, Done(Serve(db, call, draws).1))
  {
    match call {
      case Lookup(a, auto) => AloneSignsIn(db, a, auto, draws);
      case Redeem(a, code) => AloneRedeems(db, a, code);
      case UnlinkLookup(a) => AloneUnlinksAccount(db, a);
      case RegisterClaim(id, name) => AloneRegisters(db, id, name);
      case BeginRead(id, code) => AloneGivesACode(db, id, code);
      case Updating(_, id, _, _, _) => AloneRemoves(db, id);
    }
  }

  // ---------------------------------------------------------------- Accounts and people mirror each other

  ghost predicate Mirror(db: Db) {
    && (forall ref :: ref in db.accounts ==>
          db.accounts[ref] in db.people && ref in db.people[db.accounts[ref]].accounts)
    && (forall id, ref :: id in db.people && ref in db.people[id].accounts ==>
          ref in db.accounts && db.accounts[ref] == id)
  }

  lemma ProvisionKeepsMirror(db: Db, a: Account, id: Id)
    requires Mirror(db) && RefOf(a) !in db.accounts && id !in db.people
    ensures Mirror(Provisioned(db, a, id)) && !Renames(a, RecordOf(Provisioned(db, a, id), id))
  {
  }

  /** The list of a person after a link to `id` that took the account from `previous`. */
  function ListAfterLink(db: Db, ref: Ref, id: Id, other: Id): set<Ref> {
    if other == id then RecordOf(db, other).accounts + {ref}
    else if AccountOf(db, ref) == Some(other) then RecordOf(db, other).accounts - {ref}
    else RecordOf(db, other).accounts
  }

  lemma LinkedLists(db: Db, a: Account, id: Id, other: Id)
    ensures Linked(db, a, id).accounts == db.accounts[RefOf(a) := id]
    ensures RecordOf(Linked(db, a, id), other).accounts == ListAfterLink(db, RefOf(a), id, other)
    ensures Mirror(db) ==> (other in Linked(db, a, id).people <==> other in db.people || other == id)
  {
  }

  lemma MirrorMoves(db: Db, after: Db, ref: Ref, id: Id)
    requires Mirror(db) && after.accounts == db.accounts[ref := id]
    requires forall other :: other in after.people <==> other in db.people || other == id
    requires forall other :: other in after.people ==> after.people[other].accounts == ListAfterLink(db, ref, id, other)
    ensures Mirror(after)
  {
  }

  lemma LinkKeepsMirror(db: Db, a: Account, id: Id)
    requires Mirror(db)
    ensures Mirror(Linked(db, a, id))
  {
    var after := Linked(db, a, id);
    forall other
      ensures other in after.people <==> other in db.people || other == id
      ensures other in after.people ==> after.people[other].accounts == ListAfterLink(db, RefOf(a), id, other)
    {
      LinkedLists(db, a, id, other);
    }
    LinkedLists(db, a, id, id);
    MirrorMoves(db, after, RefOf(a), id);
  }

  lemma UnlinkKeepsMirror(db: Db, a: Account)
    requires Mirror(db) && RefOf(a) in db.accounts
    ensures Mirror(Unlinked(db, a, db.accounts[RefOf(a)]))
  {
    var after := Unlinked(db, a, db.accounts[RefOf(a)]);
    assert after.accounts == db.accounts - {RefOf(a)};
    assert after.people.Keys == db.people.Keys;
    forall id | id in db.people
      ensures after.people[id].accounts ==
              if id == db.accounts[RefOf(a)] then db.people[id].accounts - {RefOf(a)} else db.people[id].accounts
    {
    }
  }

  lemma ResolveKeepsMirror(db: Db, a: Account, id: Id)
    requires Mirror(db)
    ensures Mirror(Resolving(db, a, id).0) && db.people.Keys <= Resolving(db, a, id).0.people.Keys
  {
  }

  lemma SignInKeepsMirror(db: Db, a: Account, auto: bool, draws: seq<string>)
    requires FindsAnId(db, Lookup(a, auto), draws) && Mirror(db)
    ensures Mirror(Serve(db, Lookup(a, auto), draws).0)
    ensures db.people.Keys <= Serve(db, Lookup(a, auto), draws).0.people.Keys
  {
    if RefOf(a) in db.accounts {
      ResolveKeepsMirror(db, a, db.accounts[RefOf(a)]);
    } else if auto && BaseId(a).Some? {
      var id := FirstFree(db, BaseId(a).value, BaseId(a).value, draws).value;
      ProvisionKeepsMirror(db, a, id);
      ResolveKeepsMirror(Provisioned(db, a, id), a, id);
    }
  }

  lemma RedeemKeepsMirror(db: Db, a: Account, code: Code)
    requires Mirror(db)
    ensures Mirror(Serve(db, Redeem(a, code), []).0)
    ensures db.people.Keys <= Serve(db, Redeem(a, code), []).0.people.Keys
  {
    if code in db.links {
      var taken := ApplyWrite(db, TakeCode(code));
      assert Mirror(taken) && taken.people == db.people;
      LinkKeepsMirror(taken, a, db.links[code]);
    }
  }

  lemma RegisterKeepsMirror(db: Db, id: Id, name: string)
    requires Mirror(db)
    ensures Mirror(Serve(db, RegisterClaim(id, name), []).0)
    ensures db.people.Keys <= Serve(db, RegisterClaim(id, name), []).0.people.Keys
  {
  }

  lemma RemovalKeepsMirror(db: Db, id: Id)
    requires Mirror(db)
    ensures Mirror(Serve(db, Removing(id), []).0)
    ensures db.people.Keys <= Serve(db, Removing(id), []).0.people.Keys
  {
  }

  lemma ServeKeepsMirror(db: Db, call: Proc, draws: seq<string>)
    requires IsOperation(call) && FindsAnId(db, call, draws) && Mirror(db)
    ensures Mirror(Serve(db, call, draws).0)
    ensures db.people.Keys <= Serve(db, call, draws).0.people.Keys
  {
    if call.Lookup? {
      SignInKeepsMirror(db, call.a, call.autoProvision, draws);
    } else if call.UnlinkLookup? {
      if RefOf(call.a) in db.accounts { UnlinkKeepsMirror(db, call.a); }
    } else {
      assert Serve(db, call, draws) == Serve(db, call, []);
      if call.Redeem? { RedeemKeepsMirror(db, call.a, call.code); }
      if call.RegisterClaim? { RegisterKeepsMirror(db, call.id, call.name); }
      if call.Updating? { RemovalKeepsMirror(db, call.id); }
    }
  }

  datatype Call = Call(op: Proc, draws: seq<string>)

  predicate Servable(db: Db, calls: seq<Call>)
    decreases |calls|
  {
    calls == [] ||
    (&& IsOperation(calls[0].op) && FindsAnId(db, calls[0].op, calls[0].draws)
     && Servable(Serve(db, calls[0].op, calls[0].draws).0, calls[1..]))
  }

  function ServeAll(db: Db, calls: seq<Call>): Db
    requires Servable(db, calls)
    decreases |calls|
  {
    if calls == [] then db else ServeAll(Serve(db, calls[0].op, calls[0].draws).0, calls[1..])
  }

  lemma {:induction false} ServeAllKeepsMirror(db: Db, calls: seq<Call>)
    requires Mirror(db) && Servable(db, calls)
    ensures Mirror(ServeAll(db, calls)) && db.people.Keys <= ServeAll(db, calls).people.Keys
    decreases |calls|
  {
    if calls != [] {
      ServeKeepsMirror(db, calls[0].op, calls[0].draws);
      ServeAllKeepsMirror(Serve(db, calls[0].op, calls[0].draws).0, calls[1..]);
    }
  }

  predicate Lists(db: Db, id: Id, ref: Ref) {
    id in db.people && ref in db.people[id].accounts
  }

  /** After any sequence of completed calls an account resolves to a person exactly when it is in that
      person's list, so it is in at most one list. */
  lemma AccountsMirrorPeople(calls: seq<Call>, ref: Ref, id: Id)
    requires Servable(EMPTY_DB, calls)
    ensures var db := ServeAll(EMPTY_DB, calls);
      && (AccountOf(db, ref) == Some(id) <==> Lists(db, id, ref))
      && (forall other :: Lists(db, other, ref) && Lists(db, id, ref) ==> other == id)
  {
    ServeAllKeepsMirror(EMPTY_DB, calls);
  }

  /** An account without an entry becomes a person under an id that nobody recorded has. */
  lemma NewAccountsAreNewPeople(db: Db, a: Account, draws: seq<string>)
    requires Mirror(db) && RefOf(a) !in db.accounts
    requires BaseId(a).Some? && FindsAnId(db, Lookup(a, true), draws)
    ensures var (after, out) := Serve(db, Lookup(a, true), draws);
      && out.Resolved? && out.id !in db.people
      && AccountOf(after, RefOf(a)) == Some(out.id)
      && RecordOf(after, out.id) == FreshRecord(a)
  {
    ProvisionKeepsMirror(db, a, FirstFree(db, BaseId(a).value, BaseId(a).value, draws).value);
  }

  /** An account that was unlinked, and that nothing has linked since, comes back as an id no person
      recorded before or since has held. */
  lemma ComesBackAsSomeoneNew(db: Db, a: Account, between: seq<Call>, draws: seq<string>)
    requires Mirror(db) && Servable(Serve(db, UnlinkLookup(a), []).0, between)
    requires var now := ServeAll(Serve(db, UnlinkLookup(a), []).0, between);
      RefOf(a) !in now.accounts && BaseId(a).Some? && FindsAnId(now, Lookup(a, true), draws)
    ensures var now := ServeAll(Serve(db, UnlinkLookup(a), []).0, between);
      var out := Serve(now, Lookup(a, true), draws).1;
      out.Resolved? && out.id !in db.people && out.id !in now.people
  {
    ServeKeepsMirror(db, UnlinkLookup(a), []);
    ServeAllKeepsMirror(Serve(db, UnlinkLookup(a), []).0, between);
    NewAccountsAreNewPeople(ServeAll(Serve(db, UnlinkLookup(a), []).0, between), a, draws);
  }

  // ---------------------------------------------------------------- The class

  class Identities {
    var db: Db

    constructor ()
      ensures db == EMPTY_DB && Mirror(db)
    {
      db := EMPTY_DB;
    }

    method PersonFor(a: Account, autoProvision: bool, draws: seq<string>) returns (out: Outcome)
      requires FindsAnId(db, Lookup(a, autoProvision), draws)
      modifies this
      ensures (db, out) == Serve(old(db), Lookup(a, autoProvision), draws)
      ensures RefOf(a) !in old(db).accounts && !autoProvision ==> out == Refused && db == old(db)
    {
      var id := AccountOf(db, RefOf(a));
      if id.None? {
        if !autoProvision { return Refused; }
        id := Provision(a, draws);
        if id.None? { return Refused; }
      }
      var rec := RecordOf(db, id.value);
      if rec.removed { return Refused; }
      if Renames(a, rec) {
        var updated := Update(id.value, Rename(a.name), false);
        return Resolved(a, id.value, a.name);
      }
      return Resolved(a, id.value, Or(rec.name, a.name));
    }

    method Provision(a: Account, draws: seq<string>) returns (id: Option<Id>)
      requires BaseId(a).Some? ==> FirstFree(db, BaseId(a).value, BaseId(a).value, draws).Some?
      modifies this
      ensures BaseId(a).None? ==> id == None && db == old(db)
      ensures BaseId(a).Some? && RefOf(a) !in old(db).accounts ==>
                && id == FirstFree(old(db), BaseId(a).value, BaseId(a).value, draws)
                && db == Provisioned(old(db), a, id.value)
      ensures BaseId(a).Some? && RefOf(a) in old(db).accounts ==>
                && id == AccountOf(old(db), RefOf(a))
                && db.people == old(db).people && db.accounts == old(db).accounts
                && db.links == old(db).links && db.log == old(db).log
    {
      if BaseId(a).None? { return None; }
      var base := BaseId(a).value;
      var candidate, drawn := base, 0;
      while candidate in db.people
        invariant drawn <= |draws| && db == old(db)
        invariant FirstFree(db, base, base, draws) == FirstFree(db, base, candidate, draws[drawn..])
        decreases |draws| - drawn
      {
        candidate, drawn := base + "." + draws[drawn], drawn + 1;
      }
      db := ApplyWrite(db, PutCandidate(candidate, FreshRecord(a)));
      if RefOf(a) !in db.accounts {
        db := ApplyWrite(db, ClaimAccount(RefOf(a), candidate));
        db := ApplyWrite(db, Append(PersonAdded(candidate, RefOf(a))));
        return Some(candidate);
      }
      db := ApplyWrite(db, Discard(candidate));
      return AccountOf(db, RefOf(a));
    }

    /** The changed record, or none if the person was removed and the change is not allowed then. */
    method Update(id: Id, change: Change, allowRemoved: bool) returns (updated: Option<Record>)
      modifies this
      ensures RecordOf(old(db), id).removed && !allowRemoved ==> updated == None && db == old(db)
      ensures !RecordOf(old(db), id).removed || allowRemoved ==>
                && updated == Some(Changed(change, RecordOf(old(db), id)))
                && db == Updated(old(db), id, change)
    {
      updated := None;
      while updated.None?
        invariant updated.None? ==> db == old(db)
        invariant updated.Some? ==>
          && (!RecordOf(old(db), id).removed || allowRemoved)
          && updated.value == Changed(change, RecordOf(old(db), id))
          && db == Updated(old(db), id, change)
        decreases updated.None?
      {
        var seen := Revision(db, id);
        var rec := RecordOf(db, id);
        if rec.removed && !allowRemoved { return; }
        if Revision(db, id) == seen {
          updated := Some(Changed(change, rec));
          db := ApplyWrite(db, Overwrite(id, updated.value));
        }
      }
    }

    method Register(id: Id, name: string) returns (out: Outcome)
      modifies this
      ensures (db, out) == Serve(old(db), RegisterClaim(id, name), [])
    {
      if id in db.people {
        return if db.people[id].removed then Refused else Finished;
      }
      db := ApplyWrite(db, PutRegistered(id, Record(name, None, false, {})));
      db := ApplyWrite(db, Append(PersonRegistered(id)));
      return Finished;
    }

    method BeginLink(id: Id, code: Code) returns (out: Outcome)
      modifies this
      ensures (db, out) == Serve(old(db), BeginRead(id, code), [])
    {
      if RecordOf(db, id).removed { return Refused; }
      db := ApplyWrite(db, SaveCode(code, id));
      return Finished;
    }

    method CompleteLink(a: Account, code: Code) returns (out: Outcome)
      modifies this
      ensures (db, out) == Serve(old(db), Redeem(a, code), [])
    {
      if code !in db.links { return Refused; }
      var id := db.links[code];
      db := ApplyWrite(db, TakeCode(code));
      if RecordOf(db, id).removed { return Refused; }
      var previous := AccountOf(db, RefOf(a));
      if previous.Some? && previous.value != id && RecordOf(db, previous.value).removed { return Refused; }
      out := LinkTo(a, id, previous);
    }

    /** The end of `complete_link`, once the code and both people have been checked. */
    method LinkTo(a: Account, id: Id, previous: Option<Id>) returns (out: Outcome)
      requires MayLink(db, a, id) && previous == AccountOf(db, RefOf(a))
      modifies this
      ensures db == Linked(old(db), a, id)
      ensures out == Joined(a, id, Or(RecordOf(old(db), id).name, a.name))
    {
      var updated := Update(id, AddAccount(RefOf(a)), false);
      ghost var added := db;
      db := ApplyWrite(db, MoveAccount(RefOf(a), id));
      db := ApplyWrite(db, Append(AccountLinked(id, RefOf(a), previous)));
      if previous.Some? && previous.value != id {
        var ignored := Update(previous.value, DropAccount(RefOf(a)), false);
      }
      assert db == Moved(added, a, id, previous);
      return Joined(a, id, Or(updated.value.name, a.name));
    }

    method Unlink(a: Account) returns (out: Outcome)
      modifies this
      ensures (db, out) == Serve(old(db), UnlinkLookup(a), [])
    {
      if RefOf(a) !in db.accounts { return Finished; }
      var id := db.accounts[RefOf(a)];
      db := ApplyWrite(db, DropAccountKey(RefOf(a)));
      db := ApplyWrite(db, Append(AccountUnlinked(id, RefOf(a))));
      var updated := Update(id, DropAccount(RefOf(a)), true);
      return Finished;
    }

    method Deprovision(id: Id) returns (out: Outcome)
      modifies this
      ensures (db, out) == Serve(old(db), Removing(id), [])
    {
      var updated := Update(id, MarkRemoved, true);
      db := ApplyWrite(db, Append(PersonRemoved(id)));
      return Finished;
    }
  }
}
