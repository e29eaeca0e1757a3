// The accounts and people of one tenant: sign-ins, links and removals as a protocol over one shared Redis.
//
// One tenant is modelled: every key starts with the tenant in braces, so tenants never meet.
// The keys of a tenant fall into four families (accounts, people, link codes and the log),
// kept here as three maps and a sequence. Every command of Redis is one atomic step and performs
// at most one write; `Exec` says what each operation does next, and `Act` interleaves any
// number of operations. A WATCH is a revision number: every write to a person's key raises it, and a
// commit goes through only if it is still the one that was seen.
module IdentityProtocol {
  import opened Wrappers
  import opened Text

  type Ref = string
  type Id = string
  type Code = string

  datatype Account = Account(issuer: string, subject: string, name: string)

  function RefOf(a: Account): Ref {
    a.issuer + "|" + a.subject
  }

  /** The id a new account asks for first; none if it may not be used as an id. */
  function BaseId(a: Account): Option<Id> {
    var id := Strip(Replace(a.issuer + "." + a.subject, '/', '.'));
    if id == "" || '{' in id || '}' in id then None else Some(id)
  }

  datatype Record = Record(name: string, namedBy: Option<Ref>, removed: bool, accounts: set<Ref>)

  /** What a missing record reads as. */
  const UNKNOWN := Record("", None, false, {})

  datatype Entry =
    | PersonAdded(id: Id, ref: Ref)
    | PersonRegistered(id: Id)
    | AccountLinked(id: Id, ref: Ref, previously: Option<Id>)
    | AccountUnlinked(id: Id, ref: Ref)
    | PersonRemoved(id: Id)

  // ---------------------------------------------------------------- Redis

  datatype Db = Db(
    accounts: map<Ref, Id>,
    people: map<Id, Record>,
    revisions: map<Id, nat>,
    links: map<Code, Id>,
    log: seq<Entry>)

  const EMPTY_DB := Db(map[], map[], map[], map[], [])

  function RecordOf(db: Db, id: Id): Record {
    if id in db.people then db.people[id] else UNKNOWN
  }

  function Revision(db: Db, id: Id): nat {
    if id in db.revisions then db.revisions[id] else 0
  }

  function AccountOf(db: Db, ref: Ref): Option<Id> {
    if ref in db.accounts then Some(db.accounts[ref]) else None
  }

  /** The one write a command performs. */
  datatype Write =
    | Nothing
    | PutCandidate(id: Id, rec: Record)   // SET NX of a person by a provisioner
    | PutRegistered(id: Id, rec: Record)  // SET NX of a person by `register`
    | Overwrite(id: Id, rec: Record)      // EXEC of an update
    | Discard(id: Id)                     // DELETE of a losing candidate
    | ClaimAccount(ref: Ref, id: Id)      // SET NX of an account
    | MoveAccount(ref: Ref, id: Id)       // SET of an account
    | DropAccountKey(ref: Ref)            // DELETE of an account
    | SaveCode(code: Code, id: Id)        // SET of a link code
    | TakeCode(code: Code)                // GETDEL of a link code
    | Append(entry: Entry)                // XADD

  function Touch(db: Db, id: Id): map<Id, nat> {
    db.revisions[id := Revision(db, id) + 1]
  }

  function ApplyWrite(db: Db, w: Write): Db {
    match w
    case Nothing => db
    case PutCandidate(id, rec) => db.(people := db.people[id := rec], revisions := Touch(db, id))
    case PutRegistered(id, rec) => db.(people := db.people[id := rec], revisions := Touch(db, id))
    case Overwrite(id, rec) => db.(people := db.people[id := rec], revisions := Touch(db, id))
    case Discard(id) => db.(people := db.people - {id}, revisions := Touch(db, id))
    case ClaimAccount(ref, id) => db.(accounts := db.accounts[ref := id])
    case MoveAccount(ref, id) => db.(accounts := db.accounts[ref := id])
    case DropAccountKey(ref) => db.(accounts := db.accounts - {ref})
    case SaveCode(code, id) => db.(links := db.links[code := id])
    case TakeCode(code) => db.(links := db.links - {code})
    case Append(entry) => db.(log := db.log + [entry])
  }

  // ---------------------------------------------------------------- Operations

  datatype Change = Rename(name: string) | AddAccount(ref: Ref) | DropAccount(ref: Ref) | MarkRemoved

  function Changed(change: Change, rec: Record): Record {
    var updated := match change
      case Rename(name) => rec.(name := name)
      case AddAccount(ref) => rec.(accounts := rec.accounts + {ref})
      case DropAccount(ref) => rec.(accounts := rec.accounts - {ref})
      case MarkRemoved => rec.(removed := true);
    if rec.removed then updated.(removed := true) else updated
  }

  datatype Stage =
    | Watching                               // about to WATCH
    | Reading(seen: nat)                     // about to GET
    | Committing(seen: nat, rec: Record)     // about to MULTI / SET / EXEC

  /** What follows a committed update. */
  datatype Next =
    | ThenResolved(a: Account)
    | ThenSetAccount(a: Account, previous: Option<Id>)
    | ThenLinked(a: Account, person: Id, name: string)
    | ThenUnlinked
    | ThenLogRemoved

  datatype Outcome =
    | Resolved(a: Account, id: Id, name: string)  // a person from `person_for`
    | Joined(a: Account, id: Id, name: string)    // a person from `complete_link`
    | Finished
    | Refused                                     // IdentityError
    | Lost(a: Account)                            // `person_for` re-read its account and found nothing
    | NoRecord                                    // `register` re-read its record and found nothing

  /** An operation in progress, named after the command it is about to issue. */
  datatype Proc =
    | Lookup(a: Account, autoProvision: bool)
    | Claim(a: Account, base: Id, candidate: Id)
    | Publish(a: Account, candidate: Id)
    | LogAdded(a: Account, id: Id)
    | Withdraw(a: Account, candidate: Id)
    | Reread(a: Account)
    | ReadPerson(a: Account, id: Id)
    | Redeem(a: Account, code: Code)
    | LinkTarget(a: Account, id: Id)
    | LinkPrevious(a: Account, id: Id)
    | LinkPreviousPerson(a: Account, id: Id, holder: Id)
    | LinkSet(a: Account, id: Id, name: string, previous: Option<Id>)
    | LinkLog(a: Account, id: Id, name: string, previous: Option<Id>)
    | UnlinkLookup(a: Account)
    | UnlinkDelete(a: Account, id: Id)
    | UnlinkLog(a: Account, id: Id)
    | RegisterClaim(id: Id, name: string)
    | RegisterRead(id: Id)
    | RegisterLog(id: Id)
    | BeginRead(id: Id, code: Code)
    | BeginSave(id: Id, code: Code)
    | LogRemoved(id: Id)
    | Updating(stage: Stage, id: Id, change: Change, allowRemoved: bool, next: Next)
    | Done(outcome: Outcome)

  /** A point of a sign-in, other than in the update that ends it. */
  predicate InSignIn(p: Proc) {
    p.Lookup? || p.Claim? || p.Publish? || p.LogAdded? || p.Withdraw? || p.Reread? || p.ReadPerson?
  }

  /** A point of a link or an unlink, other than in its updates. */
  predicate InRewrite(p: Proc) {
    || p.Redeem? || p.LinkTarget? || p.LinkPrevious? || p.LinkPreviousPerson? || p.LinkSet? || p.LinkLog?
    || p.UnlinkLookup? || p.UnlinkDelete? || p.UnlinkLog?
  }

  function FreshRecord(a: Account): Record {
    Record(a.name, Some(RefOf(a)), false, {RefOf(a)})
  }

  function Or(name: string, default: string): string {
    if name != "" then name else default
  }

  function AddTo(a: Account, id: Id, previous: Option<Id>): Proc {
    Updating(Watching, id, AddAccount(RefOf(a)), false, ThenSetAccount(a, previous))
  }

  function Removing(id: Id): Proc {
    Updating(Watching, id, MarkRemoved, true, ThenLogRemoved)
  }

  function AfterUpdate(next: Next, id: Id, updated: Record): Proc {
    match next
    case ThenResolved(a) => Done(Resolved(a, id, a.name))
    case ThenSetAccount(a, previous) => LinkSet(a, id, Or(updated.name, a.name), previous)
    case ThenLinked(a, person, name) => Done(Joined(a, person, name))
    case ThenUnlinked => Done(Finished)
    case ThenLogRemoved => LogRemoved(id)
  }

  /** An update of a removed person raises; only the last update of a link is forgiven. */
  function AfterRefusal(next: Next): Proc {
    if next.ThenLinked? then Done(Joined(next.a, next.person, next.name)) else Done(Refused)
  }

  /** Whether the name of a resolved person follows the account. */
  predicate Renames(a: Account, rec: Record) {
    a.name != "" && rec.name != a.name && rec.namedBy == Some(RefOf(a))
  }

  /** The next command of an operation: its write, and where the operation goes from there.
      `draw` is the random suffix, used only when a candidate id was taken. */
  function Exec(db: Db, p: Proc, draw: string): (Write, Proc) {
    match p
    case Lookup(a, auto) =>
      if RefOf(a) in db.accounts then (Nothing, ReadPerson(a, db.accounts[RefOf(a)]))
      else if !auto || BaseId(a).None? then (Nothing, Done(Refused))
      else (Nothing, Claim(a, BaseId(a).value, BaseId(a).value))
    case Claim(a, base, candidate) =>
      if candidate in db.people then (Nothing, Claim(a, base, base + "." + draw))
      else (PutCandidate(candidate, FreshRecord(a)), Publish(a, candidate))
    case Publish(a, candidate) =>
      if RefOf(a) in db.accounts then (Nothing, Withdraw(a, candidate))
      else (ClaimAccount(RefOf(a), candidate), LogAdded(a, candidate))
    case LogAdded(a, id) => (Append(PersonAdded(id, RefOf(a))), ReadPerson(a, id))
    case Withdraw(a, candidate) => (Discard(candidate), Reread(a))
    case Reread(a) =>
      if RefOf(a) in db.accounts then (Nothing, ReadPerson(a, db.accounts[RefOf(a)]))
      else (Nothing, Done(Lost(a)))
    case ReadPerson(a, id) =>
      var rec := RecordOf(db, id);
      if rec.removed then (Nothing, Done(Refused))
      else if Renames(a, rec) then
        (Nothing, Updating(Watching, id, Rename(a.name), false, ThenResolved(a)))
      else (Nothing, Done(Resolved(a, id, Or(rec.name, a.name))))
    case Redeem(a, code) =>
      if code in db.links then (TakeCode(code), LinkTarget(a, db.links[code]))
      else (Nothing, Done(Refused))
    case LinkTarget(a, id) =>
      (Nothing, if RecordOf(db, id).removed then Done(Refused) else LinkPrevious(a, id))
    case LinkPrevious(a, id) =>
      var previous := AccountOf(db, RefOf(a));
      if previous.Some? && previous.value != id then (Nothing, LinkPreviousPerson(a, id, previous.value))
      else (Nothing, AddTo(a, id, previous))
    case LinkPreviousPerson(a, id, holder) =>
      (Nothing, if RecordOf(db, holder).removed then Done(Refused) else AddTo(a, id, Some(holder)))
    case LinkSet(a, id, name, previous) => (MoveAccount(RefOf(a), id), LinkLog(a, id, name, previous))
    case LinkLog(a, id, name, previous) =>
      (Append(AccountLinked(id, RefOf(a), previous)),
       if previous.Some? && previous.value != id then
         Updating(Watching, previous.value, DropAccount(RefOf(a)), false, ThenLinked(a, id, name))
       else Done(Joined(a, id, name)))
    case UnlinkLookup(a) =>
      if RefOf(a) in db.accounts then (Nothing, UnlinkDelete(a, db.accounts[RefOf(a)]))
      else (Nothing, Done(Finished))
    case UnlinkDelete(a, id) => (DropAccountKey(RefOf(a)), UnlinkLog(a, id))
    case UnlinkLog(a, id) =>
      (Append(AccountUnlinked(id, RefOf(a))),
       Updating(Watching, id, DropAccount(RefOf(a)), true, ThenUnlinked))
    case RegisterClaim(id, name) =>
      if id in db.people then (Nothing, RegisterRead(id))
      else (PutRegistered(id, Record(name, None, false, {})), RegisterLog(id))
    case RegisterRead(id) =>
      (Nothing, Done(if id !in db.people then NoRecord
                     else if db.people[id].removed then Refused else Finished))
    case RegisterLog(id) => (Append(PersonRegistered(id)), Done(Finished))
    case BeginRead(id, code) =>
      (Nothing, if RecordOf(db, id).removed then Done(Refused) else BeginSave(id, code))
    case BeginSave(id, code) => (SaveCode(code, id), Done(Finished))
    case LogRemoved(id) => (Append(PersonRemoved(id)), Done(Finished))
    case Updating(Watching, id, change, allow, next) =>
      (Nothing, Updating(Reading(Revision(db, id)), id, change, allow, next))
    case Updating(Reading(seen), id, change, allow, next) =>
      var rec := RecordOf(db, id);
      (Nothing, if rec.removed && !allow then AfterRefusal(next)
                else Updating(Committing(seen, rec), id, change, allow, next))
    case Updating(Committing(seen, rec), id, change, allow, next) =>
      if Revision(db, id) != seen then (Nothing, Updating(Watching, id, change, allow, next))
      else (Overwrite(id, Changed(change, rec)), AfterUpdate(next, id, Changed(change, rec)))
    case Done(_) => (Nothing, p)
  }

  // ---------------------------------------------------------------- Interleavings

  /** What has happened so far, kept beside the store to state the theorems with. */
  datatype History = History(
    published: set<Id>,        // ids registered, or claimed by an account
    owner: map<Id, Ref>,       // the account an id was provisioned for
    joined: set<(Ref, Id)>,    // links that were written
    disturbed: set<Ref>,       // accounts whose entry a link or an unlink has rewritten
    dropped: set<Ref>,         // accounts whose entry an unlink has deleted
    gone: set<Ref>,            // accounts whose entry was last written by an unlink's deletion
    issued: map<Code, nat>,    // how often a code was given out
    redeemed: map<Code, nat>)  // how often a code was taken

  function Times(m: map<Code, nat>, code: Code): nat {
    if code in m then m[code] else 0
  }

  function Note(h: History, w: Write): History {
    match w
    case PutRegistered(id, _) => h.(published := h.published + {id})
    case ClaimAccount(ref, id) =>
      h.(published := h.published + {id}, owner := h.owner[id := ref], gone := h.gone - {ref})
    case MoveAccount(ref, id) =>
      h.(joined := h.joined + {(ref, id)}, disturbed := h.disturbed + {ref}, gone := h.gone - {ref})
    case DropAccountKey(ref) =>
      h.(disturbed := h.disturbed + {ref}, dropped := h.dropped + {ref}, gone := h.gone + {ref})
    case SaveCode(code, _) => h.(issued := h.issued[code := Times(h.issued, code) + 1])
    case TakeCode(code) => h.(redeemed := h.redeemed[code := Times(h.redeemed, code) + 1])
    case _ => h
  }

  datatype State = State(db: Db, h: History, procs: map<nat, Proc>)

  const EMPTY := State(EMPTY_DB, History({}, map[], {}, {}, {}, {}, map[], map[]), map[])

  datatype Action =
    | Start(pid: nat, op: Proc)       // somebody calls an operation
    | Step(pid: nat, draw: string)    // an operation issues its next command
    | Expire(code: Code)              // a link code runs out

  /** The calls the class offers. A removal and a link code are only asked for a published id. */
  predicate IsCall(h: History, p: Proc) {
    match p
    case Lookup(_, _) => true
    case Redeem(_, _) => true
    case UnlinkLookup(_) => true
    case RegisterClaim(_, _) => true
    case BeginRead(id, _) => id in h.published
    case Updating(_, id, _, _, _) => p == Removing(id) && id in h.published
    case _ => false
  }

  /** An application does not register an id that a provisioner holds but has not published. */
  predicate RegistersItsOwn(s: State, p: Proc) {
    p.RegisterClaim? ==> p.id in s.db.people ==> p.id in s.h.published
  }

  predicate Allowed(s: State, act: Action) {
    match act
    case Start(pid, op) => pid !in s.procs && IsCall(s.h, op)
    case Step(pid, _) => pid in s.procs && !s.procs[pid].Done? && RegistersItsOwn(s, s.procs[pid])
    case Expire(code) => code in s.db.links
  }

  function Act(s: State, act: Action): State
    requires Allowed(s, act)
  {
    match act
    case Start(pid, op) => s.(procs := s.procs[pid := op])
    case Step(pid, draw) =>
      var (w, p) := Exec(s.db, s.procs[pid], draw);
      State(ApplyWrite(s.db, w), Note(s.h, w), s.procs[pid := p])
    case Expire(code) => s.(db := s.db.(links := s.db.links - {code}))
  }

  predicate Legal(s: State, acts: seq<Action>)
    decreases |acts|
  {
    acts == [] || (Allowed(s, acts[0]) && Legal(Act(s, acts[0]), acts[1..]))
  }

  /** The state after a whole run. */
  function Run(s: State, acts: seq<Action>): State
    requires Legal(s, acts)
    decreases |acts|
  {
    if acts == [] then s else Run(Act(s, acts[0]), acts[1..])
  }

  predicate Quiet(s: State) {
    forall pid :: pid in s.procs ==> s.procs[pid].Done?
  }
}
