/** What every interleaving of the identity operations keeps, one command at a time. */
module IdentityInvariant {
  import opened Wrappers
  import opened IdentityProtocol

  /** The account resolves to `id`, and will until a link or an unlink rewrites its entry. */
  ghost predicate Agrees(db: Db, h: History, ref: Ref, id: Id) {
    ref in h.disturbed || (ref in db.accounts && db.accounts[ref] == id)
  }

  ghost predicate StageOk(db: Db, id: Id, stage: Stage) {
    match stage
    case Watching => true
    case Reading(seen) => seen <= Revision(db, id)
    case Committing(seen, rec) =>
      seen <= Revision(db, id) && (seen == Revision(db, id) ==> RecordOf(db, id) == rec)
  }

  /** Only dropping an account and removing may be written over a removed record. */
  ghost predicate ChangeOk(stage: Stage, change: Change, allowRemoved: bool) {
    && (allowRemoved ==> change.DropAccount? || change.MarkRemoved?)
    && (stage.Committing? && stage.rec.removed ==> allowRemoved)
  }

  ghost predicate NextOk(db: Db, h: History, id: Id, change: Change, next: Next) {
    match next
    case ThenResolved(a) => change.Rename? && Agrees(db, h, RefOf(a), id)
    case ThenSetAccount(_, previous) => previous.Some? ==> previous.value in h.published
    case _ => true
  }

  ghost predicate OutcomeOk(db: Db, h: History, out: Outcome) {
    match out
    case Resolved(a, id, _) => id in h.published && Agrees(db, h, RefOf(a), id)
    case Lost(a) => RefOf(a) in h.dropped
    case NoRecord => false
    case _ => true
  }

  /** What an operation knows at each of its await points. */
  ghost predicate ProcOk(db: Db, h: History, p: Proc)
    requires h.published <= db.people.Keys
  {
    match p
    case Withdraw(a, _) => RefOf(a) in db.accounts || RefOf(a) in h.gone
    case Reread(a) => RefOf(a) in db.accounts || RefOf(a) in h.gone
    case LogAdded(a, id) => id in h.published && id in h.owner && h.owner[id] == RefOf(a) && Agrees(db, h, RefOf(a), id)
    case ReadPerson(a, id) => id in h.published && Agrees(db, h, RefOf(a), id)
    case LinkTarget(_, id) => id in h.published
    case LinkPrevious(_, id) => id in h.published
    case LinkPreviousPerson(_, id, holder) => id in h.published && holder in h.published
    case LinkSet(_, id, _, previous) =>
      id in h.published && (previous.Some? ==> previous.value in h.published)
    case LinkLog(a, id, _, previous) =>
      id in h.published && (previous.Some? ==> previous.value in h.published)
    case UnlinkDelete(_, id) => id in h.published
    case UnlinkLog(_, id) => id in h.published
    case RegisterRead(id) => id in h.published
    case RegisterLog(id) => id in h.published
    case BeginRead(id, _) => id in h.published
    case BeginSave(id, _) => id in h.published
    case LogRemoved(id) => id in h.published
    case Updating(stage, id, change, allow, next) =>
      id in h.published && StageOk(db, id, stage) && ChangeOk(stage, change, allow) && NextOk(db, h, id, change, next)
    case Done(out) => OutcomeOk(db, h, out)
    case _ => true
  }

  /** The unpublished candidate a provisioner holds. */
  function Held(p: Proc): Option<Id> {
    match p
    case Publish(_, candidate) => Some(candidate)
    case Withdraw(_, candidate) => Some(candidate)
    case _ => None
  }

  ghost predicate Holds(procs: map<nat, Proc>, pid: nat, id: Id) {
    pid in procs && Held(procs[pid]) == Some(id)
  }

  // ---------------------------------------------------------------- The store

  ghost predicate DbOk(db: Db, h: History) {
    && h.published <= db.people.Keys
    && h.owner.Keys <= h.published
    && (forall ref :: ref in db.accounts ==> db.accounts[ref] in h.published)
    && (forall code :: code in db.links ==> db.links[code] in h.published)
    && db.accounts.Keys !! h.gone && h.gone <= h.dropped <= h.disturbed
    && (forall ref :: ref in db.accounts ==> Justified(h, ref, db.accounts[ref]))
    && (forall code :: CodeBudget(db, h, code))
    && (forall i :: 0 <= i < |db.log| ==> EntryOk(db, h, db.log[i]))
  }

  /** An account stands for the person it was provisioned as, or one a link made it. */
  ghost predicate Justified(h: History, ref: Ref, id: Id) {
    (ref, id) in h.joined || (id in h.owner && h.owner[id] == ref)
  }

  /** Every redemption, and the chance of one more, was paid for by giving the code out. */
  ghost predicate CodeBudget(db: Db, h: History, code: Code) {
    Times(h.redeemed, code) + (if code in db.links then 1 else 0) <= Times(h.issued, code)
  }

  ghost predicate EntryOk(db: Db, h: History, entry: Entry) {
    entry.PersonAdded? ==>
      entry.id in h.owner && h.owner[entry.id] == entry.ref && Agrees(db, h, entry.ref, entry.id)
  }

  /** Once removed, a record stays removed, keeps its name and gains no account. */
  predicate Supersedes(before: Record, after: Record) {
    before.removed ==> after.removed && after.name == before.name && after.accounts <= before.accounts
  }

  /** When a write keeps the store in order. */
  ghost predicate WriteOk(db: Db, h: History, w: Write) {
    match w
    case Nothing => true
    case PutCandidate(id, rec) => id !in db.people && !rec.removed
    case PutRegistered(id, rec) => id !in db.people
    case Overwrite(id, rec) => id in h.published && Supersedes(RecordOf(db, id), rec)
    case Discard(id) => id !in h.published
    case ClaimAccount(ref, id) => ref !in db.accounts && id in db.people && id !in h.published
    case MoveAccount(ref, id) => id in h.published
    case DropAccountKey(ref) => true
    case SaveCode(code, id) => id in h.published
    case TakeCode(code) => code in db.links
    case Append(entry) => EntryOk(db, h, entry)
  }

  lemma WriteKeepsDb(db: Db, h: History, w: Write)
    requires DbOk(db, h) && WriteOk(db, h, w)
    ensures DbOk(ApplyWrite(db, w), Note(h, w))
  {
    var db', h' := ApplyWrite(db, w), Note(h, w);
    forall code ensures CodeBudget(db', h', code) {
      assert CodeBudget(db, h, code);
    }
    forall i | 0 <= i < |db'.log| ensures EntryOk(db', h', db'.log[i]) {
      if i < |db.log| { assert EntryOk(db, h, db.log[i]); }
    }
  }

  /** Facts an operation carries across an await survive any other operation's command. */
  lemma WriteKeepsProc(db: Db, h: History, w: Write, q: Proc)
    requires DbOk(db, h) && WriteOk(db, h, w) && ProcOk(db, h, q)
    ensures DbOk(ApplyWrite(db, w), Note(h, w))
    ensures ProcOk(ApplyWrite(db, w), Note(h, w), q)
  {
    WriteKeepsDb(db, h, w);
  }

  /** An operation may issue its next command: a candidate it holds is still its own, and
      an application registers no id a provisioner holds. */
  ghost predicate Ready(db: Db, h: History, p: Proc) {
    && (p.RegisterClaim? ==> p.id in db.people ==> p.id in h.published)
    && (Held(p).Some? ==> Held(p).value in db.people && Held(p).value !in h.published)
  }

  lemma ExecWritesOk(db: Db, h: History, p: Proc, draw: string)
    requires DbOk(db, h) && ProcOk(db, h, p) && Ready(db, h, p)
    ensures WriteOk(db, h, Exec(db, p, draw).0)
  {
  }

  lemma ExecKnows(db: Db, h: History, p: Proc, draw: string)
    requires DbOk(db, h) && ProcOk(db, h, p) && Ready(db, h, p)
    requires var w := Exec(db, p, draw).0; WriteOk(db, h, w) && DbOk(ApplyWrite(db, w), Note(h, w))
    ensures ProcOk(ApplyWrite(db, Exec(db, p, draw).0), Note(h, Exec(db, p, draw).0), Exec(db, p, draw).1)
  {
    if p.Updating? {
      UpdateKnows(db, h, p, draw);
    } else if InRewrite(p) {
      RewriteKnows(db, h, p, draw);
    } else {
      CallKnows(db, h, p, draw);
    }
  }

  lemma RewriteKnows(db: Db, h: History, p: Proc, draw: string)
    requires InRewrite(p)
    requires DbOk(db, h) && ProcOk(db, h, p) && Ready(db, h, p)
    requires var w := Exec(db, p, draw).0; WriteOk(db, h, w) && DbOk(ApplyWrite(db, w), Note(h, w))
    ensures ProcOk(ApplyWrite(db, Exec(db, p, draw).0), Note(h, Exec(db, p, draw).0), Exec(db, p, draw).1)
  {
  }

  lemma CallKnows(db: Db, h: History, p: Proc, draw: string)
    requires !p.Updating? && !InRewrite(p)
    requires DbOk(db, h) && ProcOk(db, h, p) && Ready(db, h, p)
    requires var w := Exec(db, p, draw).0; WriteOk(db, h, w) && DbOk(ApplyWrite(db, w), Note(h, w))
    ensures ProcOk(ApplyWrite(db, Exec(db, p, draw).0), Note(h, Exec(db, p, draw).0), Exec(db, p, draw).1)
  {
  }

  lemma UpdateKnows(db: Db, h: History, p: Proc, draw: string)
    requires p.Updating? && h.published <= db.people.Keys && ProcOk(db, h, p)
    requires var w := Exec(db, p, draw).0; Note(h, w).published <= ApplyWrite(db, w).people.Keys
    ensures ProcOk(ApplyWrite(db, Exec(db, p, draw).0), Note(h, Exec(db, p, draw).0), Exec(db, p, draw).1)
  {
  }

  /** What the next command of an operation does is in order, and so is what it knows afterwards. */
  lemma ExecOk(db: Db, h: History, p: Proc, draw: string)
    requires DbOk(db, h) && ProcOk(db, h, p) && Ready(db, h, p)
    ensures var (w, p') := Exec(db, p, draw);
      WriteOk(db, h, w) && DbOk(ApplyWrite(db, w), Note(h, w)) && ProcOk(ApplyWrite(db, w), Note(h, w), p')
  {
    ExecWritesOk(db, h, p, draw);
    WriteKeepsDb(db, h, Exec(db, p, draw).0);
    ExecKnows(db, h, p, draw);
  }

  // ---------------------------------------------------------------- The whole state

  /** Held candidates are recorded, unpublished and held by one operation each;
      every record is published or held. */
  ghost predicate CandidatesOk(s: State) {
    && (forall pid, id :: Holds(s.procs, pid, id) ==> id in s.db.people && id !in s.h.published)
    && (forall pid, other, id :: Holds(s.procs, pid, id) && Holds(s.procs, other, id) ==> pid == other)
    && (forall id :: id in s.db.people ==> id in s.h.published || IsHeld(s.procs, id))
  }

  ghost predicate IsHeld(procs: map<nat, Proc>, id: Id) {
    exists pid :: Holds(procs, pid, id)
  }

  function Adds(entry: Entry, ref: Ref): nat {
    if entry.PersonAdded? && entry.ref == ref then 1 else 0
  }

  /** How many times the log says a person was added for an account. */
  function CountAdded(log: seq<Entry>, ref: Ref): nat {
    if log == [] then 0 else CountAdded(log[..|log| - 1], ref) + Adds(log[|log| - 1], ref)
  }

  /** The operations that have claimed the account and not yet said so in the log. */
  function AboutToLog(procs: map<nat, Proc>, ref: Ref): set<nat> {
    set pid | pid in procs && procs[pid].LogAdded? && RefOf(procs[pid].a) == ref
  }

  ghost predicate OneAdded(s: State, ref: Ref) {
    ref !in s.h.disturbed ==>
      |AboutToLog(s.procs, ref)| + CountAdded(s.db.log, ref) == if ref in s.db.accounts then 1 else 0
  }

  ghost predicate LinkLogged(s: State, ref: Ref, id: Id) {
    || (exists i :: 0 <= i < |s.db.log| && IsLink(s.db.log[i], ref, id))
    || (exists pid :: AboutToLogLink(s.procs, pid, ref, id))
  }

  predicate IsLink(entry: Entry, ref: Ref, id: Id) {
    entry.AccountLinked? && entry.ref == ref && entry.id == id
  }

  predicate AboutToLogLink(procs: map<nat, Proc>, pid: nat, ref: Ref, id: Id) {
    pid in procs && procs[pid].LinkLog? && RefOf(procs[pid].a) == ref && procs[pid].id == id
  }

  ghost predicate ProcsOk(s: State)
    requires s.h.published <= s.db.people.Keys
  {
    forall pid :: pid in s.procs ==> ProcOk(s.db, s.h, s.procs[pid])
  }

  ghost predicate Inv(s: State) {
    && DbOk(s.db, s.h)
    && ProcsOk(s)
    && CandidatesOk(s)
    && (forall ref :: OneAdded(s, ref))
    && (forall ref, id :: (ref, id) in s.h.joined ==> LinkLogged(s, ref, id))
  }

  lemma EmptyIsOk()
    ensures Inv(EMPTY)
  {
    forall ref ensures OneAdded(EMPTY, ref) {
      assert AboutToLog(EMPTY.procs, ref) == {};
    }
  }

  lemma StepKeepsProcs(s: State, pid: nat, draw: string)
    requires Inv(s) && Allowed(s, Step(pid, draw))
    ensures var s' := Act(s, Step(pid, draw)); DbOk(s'.db, s'.h) && ProcsOk(s')
  {
    var s' := Act(s, Step(pid, draw));
    var w := Exec(s.db, s.procs[pid], draw).0;
    if Held(s.procs[pid]).Some? { assert Holds(s.procs, pid, Held(s.procs[pid]).value); }
    ExecOk(s.db, s.h, s.procs[pid], draw);
    forall q | q in s'.procs ensures ProcOk(s'.db, s'.h, s'.procs[q]) {
      if q != pid { WriteKeepsProc(s.db, s.h, w, s.procs[q]); }
    }
  }

  /** What a command does to the candidate its operation holds, from the write alone. */
  predicate HeldFollows(held: Option<Id>, w: Write, holds: Option<Id>) {
    match w
    case PutCandidate(id, _) => held == None && holds == Some(id)
    case ClaimAccount(_, id) => held == Some(id) && holds == None
    case Discard(id) => held == Some(id) && holds == None
    case _ => holds == held
  }

  lemma ExecCandidates(db: Db, p: Proc, draw: string)
    ensures HeldFollows(Held(p), Exec(db, p, draw).0, Held(Exec(db, p, draw).1))
  {
  }

  lemma OthersHoldOn(procs: map<nat, Proc>, pid: nat, p': Proc)
    ensures forall q, id :: Holds(procs[pid := p'], q, id) <==> if q == pid then Held(p') == Some(id) else Holds(procs, q, id)
  {
    forall q, id
      ensures Holds(procs[pid := p'], q, id) <==> if q == pid then Held(p') == Some(id) else Holds(procs, q, id)
    {
    }
  }

  lemma HoldsFollow(s: State, pid: nat, w: Write, p': Proc)
    requires CandidatesOk(s) && pid in s.procs && WriteOk(s.db, s.h, w) && HeldFollows(Held(s.procs[pid]), w, Held(p'))
    requires s.h.published <= s.db.people.Keys
    ensures var procs', db', h' := s.procs[pid := p'], ApplyWrite(s.db, w), Note(s.h, w);
      && (forall q, id :: Holds(procs', q, id) ==> id in db'.people && id !in h'.published)
      && (forall q, r, id :: Holds(procs', q, id) && Holds(procs', r, id) ==> q == r)
  {
    var procs', db', h' := s.procs[pid := p'], ApplyWrite(s.db, w), Note(s.h, w);
    OthersHoldOn(s.procs, pid, p');
    if Held(s.procs[pid]).Some? { assert Holds(s.procs, pid, Held(s.procs[pid]).value); }
    forall q, id | Holds(procs', q, id) ensures id in db'.people && id !in h'.published {
      if q != pid || Held(s.procs[pid]) == Held(p') { assert Holds(s.procs, q, id); }
    }
    forall q, r, id | Holds(procs', q, id) && Holds(procs', r, id) ensures q == r {
      if q != pid { assert Holds(s.procs, q, id); }
      if r != pid { assert Holds(s.procs, r, id); }
      if Held(s.procs[pid]) == Held(p') { assert Held(p') == Some(id) ==> Holds(s.procs, pid, id); }
    }
  }

  lemma RecordsAreOwned(s: State, pid: nat, w: Write, p': Proc, id: Id)
    requires CandidatesOk(s) && pid in s.procs && HeldFollows(Held(s.procs[pid]), w, Held(p'))
    requires w.Overwrite? ==> w.id in s.h.published
    requires id in ApplyWrite(s.db, w).people
    ensures id in Note(s.h, w).published || IsHeld(s.procs[pid := p'], id)
  {
    var procs' := s.procs[pid := p'];
    OthersHoldOn(s.procs, pid, p');
    if Held(p') == Some(id) {
      assert Holds(procs', pid, id);
    } else if id in s.db.people && id !in s.h.published {
      var q :| Holds(s.procs, q, id);
      assert q != pid ==> Holds(procs', q, id);
    }
  }

  lemma StepKeepsCandidates(s: State, pid: nat, draw: string)
    requires Inv(s) && Allowed(s, Step(pid, draw))
    ensures CandidatesOk(Act(s, Step(pid, draw)))
  {
    var p := s.procs[pid];
    if Held(p).Some? { assert Holds(s.procs, pid, Held(p).value); }
    ExecWritesOk(s.db, s.h, p, draw);
    ExecCandidates(s.db, p, draw);
    var (w, p') := Exec(s.db, p, draw);
    HoldsFollow(s, pid, w, p');
    forall id | id in ApplyWrite(s.db, w).people ensures id in Note(s.h, w).published || IsHeld(s.procs[pid := p'], id) {
      RecordsAreOwned(s, pid, w, p', id);
    }
  }

  predicate Logging(p: Proc, ref: Ref) {
    p.LogAdded? && RefOf(p.a) == ref
  }

  /** Which write makes an operation owe a log entry for the account, and which settles it. */
  predicate OwingFollows(db: Db, owed: bool, w: Write, owes: bool, ref: Ref) {
    match w
    case ClaimAccount(claimed, _) => claimed !in db.accounts && !owed && owes == (claimed == ref)
    case Append(entry) => owed == (Adds(entry, ref) == 1) && !owes
    case _ => !owed && !owes
  }

  lemma ExecOwing(db: Db, p: Proc, draw: string, ref: Ref)
    ensures OwingFollows(db, Logging(p, ref), Exec(db, p, draw).0, Logging(Exec(db, p, draw).1, ref), ref)
  {
  }

  /** A claim makes one operation owe a log entry, and writing that entry settles it. */
  lemma ExecOwes(db: Db, h: History, p: Proc, draw: string, ref: Ref)
    requires ref !in Note(h, Exec(db, p, draw).0).disturbed
    ensures var (w, p') := Exec(db, p, draw);
      && ref !in h.disturbed
      && (if ref in ApplyWrite(db, w).accounts then 1 else 0) - (if ref in db.accounts then 1 else 0)
         == (if Logging(p', ref) then 1 else 0)
      && (if Logging(p, ref) then 1 else 0) == (if w.Append? then Adds(w.entry, ref) else 0)
      && !(Logging(p, ref) && Logging(p', ref))
  {
    ExecOwing(db, p, draw, ref);
    var (w, p') := Exec(db, p, draw);
    OwingCounts(db, h, Logging(p, ref), w, Logging(p', ref), ref);
  }

  lemma OwingCounts(db: Db, h: History, owed: bool, w: Write, owes: bool, ref: Ref)
    requires OwingFollows(db, owed, w, owes, ref) && ref !in Note(h, w).disturbed
    ensures ref !in h.disturbed && !(owed && owes)
    ensures (if ref in ApplyWrite(db, w).accounts then 1 else 0) - (if ref in db.accounts then 1 else 0) == if owes then 1 else 0
    ensures (if owed then 1 else 0) == if w.Append? then Adds(w.entry, ref) else 0
  {
  }

  lemma CountAfter(log: seq<Entry>, entry: Entry, ref: Ref)
    ensures CountAdded(log + [entry], ref) == CountAdded(log, ref) + Adds(entry, ref)
  {
    assert (log + [entry])[..|log|] == log;
  }

  lemma AboutToLogAfter(procs: map<nat, Proc>, pid: nat, p: Proc, ref: Ref)
    requires pid in procs && !(Logging(procs[pid], ref) && Logging(p, ref))
    ensures |AboutToLog(procs[pid := p], ref)| ==
            |AboutToLog(procs, ref)| + (if Logging(p, ref) then 1 else 0)
            - (if Logging(procs[pid], ref) then 1 else 0)
  {
    var before, after := AboutToLog(procs, ref), AboutToLog(procs[pid := p], ref);
    assert pid in before <==> Logging(procs[pid], ref);
    if Logging(p, ref) {
      assert after == before + {pid};
    } else {
      assert after == before - {pid};
    }
  }

  lemma LogAfter(db: Db, w: Write, ref: Ref)
    ensures CountAdded(ApplyWrite(db, w).log, ref) ==
            CountAdded(db.log, ref) + (if w.Append? then Adds(w.entry, ref) else 0)
  {
    if w.Append? { CountAfter(db.log, w.entry, ref); }
  }

  lemma CountsAgree(s: State, pid: nat, w: Write, p: Proc, s': State, ref: Ref)
    requires pid in s.procs && OneAdded(s, ref)
    requires s' == State(ApplyWrite(s.db, w), Note(s.h, w), s.procs[pid := p])
    requires ref !in s'.h.disturbed ==>
      && ref !in s.h.disturbed
      && (if ref in s'.db.accounts then 1 else 0) - (if ref in s.db.accounts then 1 else 0)
         == (if Logging(p, ref) then 1 else 0)
      && (if Logging(s.procs[pid], ref) then 1 else 0) == (if w.Append? then Adds(w.entry, ref) else 0)
      && !(Logging(s.procs[pid], ref) && Logging(p, ref))
    ensures OneAdded(s', ref)
  {
    if ref !in s'.h.disturbed {
      AboutToLogAfter(s.procs, pid, p, ref);
      LogAfter(s.db, w, ref);
    }
  }

  lemma StepKeepsCount(s: State, pid: nat, draw: string, ref: Ref)
    requires Inv(s) && Allowed(s, Step(pid, draw))
    ensures OneAdded(Act(s, Step(pid, draw)), ref)
  {
    var (w, p) := Exec(s.db, s.procs[pid], draw);
    if ref !in Note(s.h, w).disturbed { ExecOwes(s.db, s.h, s.procs[pid], draw, ref); }
    CountsAgree(s, pid, w, p, Act(s, Step(pid, draw)), ref);
  }

  lemma JoiningOwesALink(s: State, pid: nat, draw: string, ref: Ref, id: Id)
    requires Allowed(s, Step(pid, draw))
    requires (ref, id) in Act(s, Step(pid, draw)).h.joined && (ref, id) !in s.h.joined
    ensures AboutToLogLink(Act(s, Step(pid, draw)).procs, pid, ref, id)
  {
  }

  lemma StepKeepsLinkLog(s: State, pid: nat, draw: string, ref: Ref, id: Id)
    requires Inv(s) && Allowed(s, Step(pid, draw))
    requires (ref, id) in Act(s, Step(pid, draw)).h.joined
    ensures LinkLogged(Act(s, Step(pid, draw)), ref, id)
  {
    var s' := Act(s, Step(pid, draw));
    if (ref, id) !in s.h.joined {
      JoiningOwesALink(s, pid, draw, ref, id);
    } else if i :| 0 <= i < |s.db.log| && IsLink(s.db.log[i], ref, id) {
      assert s'.db.log[i] == s.db.log[i];
    } else {
      var q :| AboutToLogLink(s.procs, q, ref, id);
      if q == pid {
        assert IsLink(s'.db.log[|s.db.log|], ref, id);
      } else {
        assert AboutToLogLink(s'.procs, q, ref, id);
      }
    }
  }

  lemma StartKeepsInv(s: State, pid: nat, op: Proc)
    requires Inv(s) && Allowed(s, Start(pid, op))
    ensures Inv(Act(s, Start(pid, op)))
  {
    var s' := Act(s, Start(pid, op));
    assert Held(op) == None;
    forall q, id ensures Holds(s'.procs, q, id) == Holds(s.procs, q, id) {
    }
    forall id | IsHeld(s.procs, id) ensures IsHeld(s'.procs, id) {
      var q :| Holds(s.procs, q, id);
      assert Holds(s'.procs, q, id);
    }
    forall ref ensures OneAdded(s', ref) {
      assert OneAdded(s, ref);
      assert AboutToLog(s'.procs, ref) == AboutToLog(s.procs, ref);
    }
    forall ref, id | (ref, id) in s.h.joined ensures LinkLogged(s', ref, id) {
      if q :| AboutToLogLink(s.procs, q, ref, id) { assert AboutToLogLink(s'.procs, q, ref, id); }
    }
  }

  lemma ActKeepsInv(s: State, act: Action)
    requires Inv(s) && Allowed(s, act)
    ensures Inv(Act(s, act))
  {
    match act {
      case Start(pid, op) => StartKeepsInv(s, pid, op);
      case Step(pid, draw) =>
        StepKeepsProcs(s, pid, draw);
        StepKeepsCandidates(s, pid, draw);
        forall ref ensures OneAdded(Act(s, act), ref) { StepKeepsCount(s, pid, draw, ref); }
        forall ref, id | (ref, id) in Act(s, act).h.joined ensures LinkLogged(Act(s, act), ref, id) {
          StepKeepsLinkLog(s, pid, draw, ref, id);
        }
      case Expire(code) =>
        var s' := Act(s, act);
        forall c ensures CodeBudget(s'.db, s'.h, c) { assert CodeBudget(s.db, s.h, c); }
        forall ref ensures OneAdded(s', ref) { assert OneAdded(s, ref); }
        forall i | 0 <= i < |s'.db.log| ensures EntryOk(s'.db, s'.h, s'.db.log[i]) {
          assert EntryOk(s.db, s.h, s.db.log[i]);
        }
        forall ref, id | (ref, id) in s'.h.joined ensures LinkLogged(s', ref, id) {
          assert LinkLogged(s, ref, id);
        }
    }
  }

  lemma {:induction false} RunKeepsInv(s: State, acts: seq<Action>)
    requires Inv(s) && Legal(s, acts)
    ensures Inv(Run(s, acts))
    decreases |acts|
  {
    if acts != [] {
      ActKeepsInv(s, acts[0]);
      RunKeepsInv(Act(s, acts[0]), acts[1..]);
    }
  }
}
