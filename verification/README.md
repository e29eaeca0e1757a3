# Verified models of the JarvisCore runtime

JarvisCore runs agents that act for people: it knows who an account belongs to, resolves that person's
credentials, drives a browser for them, and migrates older code and configuration to its own form. This project
models the parts of it where the order of steps, the exact text or the exact set matters, and proves what each
is relied on for.

* **Who people are** (`IdentityProtocol`, `IdentityInvariant`, `IdentityTheorems`, `Identities`,
  `IdentityCalls`, `IdentityLists`, `IdentityTurns`). Accounts, people, link codes and removals in one shared Redis. Every Redis command is one atomic step; any number of
  operations interleave, and a WATCH/MULTI/EXEC commit fails when the watched record changed. The theorems hold
  for every interleaving. The class `Identities` is the source's class run without interference, and the protocol
  left alone is proved to do the same.
* **The atom migrator** (`ConditionFolding`, `BlockCleaning`, `AsyncClosure`, `UnusedHelpers`). A compiler pass
  that folds credential checks out of Python functions, with an evaluator to say what "the same meaning" is, and
  the two fixpoints that decide which helpers become async and which helpers go.
* **Browser snapshots** (`SnapshotLines`, `RoleSnapshot`, `SnapshotRoundTrip`, `SnapshotTree`, `RefLocators`,
  `UnnamedRefs`, `CompactTree`).
  Numbering elements, printing and reading the same lines, finding an element from its ref, pruning the tree.
* **Secret files** (`StackSecrets`, `StackSecretsTheorems`, `ProjectFile`, `SecretOrigins`). Moving the broker's secrets from one
  env file to another, on the texts of the two files.
* **Small protocols**: charging once when replies are lost (`RetryLedger`), waiting for a consent
  (`ConsentPolling`), matching DevTools replies to calls (`ReplyCorrelation`), nested principals (`Principals`),
  connections per person (`ConnectionManager`, `ConnectionTheorems`), the browser's traffic log and the contracts
  made from it (`TrafficCapture`, `CaptureTheorems`, `ContractSynthesis`).

Objects that the source changes in place are classes whose methods are proved against functions on values; the
theorems are about those functions, and say independently of them what each call leaves behind. Strings are sequences of characters (`Text`); `Wrappers` holds `Option`.

Where the code does not meet a property as one would first state it, the project has the input that shows it and the
exact condition under which it does:

* Reads of the credential that are compared or passed on are kept by the rewrite exactly if they read `True`
  (`OperatorsOnReadsAreKeptExactly`).
* Folding a decided test drops whatever its operands do before the decision (`FoldingDropsAnEffect`); it is right
  for every behaviour of the operators exactly when none is evaluated before the decision (`FoldingIsExact`).
* Printed refs read back, whatever the options, exactly when no name is empty or cut and no suffix reads as another
  index (`PrintedSnapshotReadsBack`), as long as no line without a ref reads as if it had one
  (`StrangeRefsAreRead`).
* A secret survives the stack file exactly when the reader's stripping leaves it alone (`StackFileIsRead`,
  `QuotedBlanksAreNotStable`), and a second run changes and says nothing new exactly then
  (`SecondRunIsSilentExactly`).
* The ref of a named element finds it exactly when no equal element stands before it on a line below the depth limit
  (`RefFindsItsElement`, `DepthLimitMisleads`); that of an unnamed one exactly when no element of its role before it
  has a name or lies below the limit (`UnnamedRefFindsItsElement`, `ANamedOneMisleads`).
* Dropping unused helpers leaves the largest self-supporting part exactly when every private helper that shares its
  name with something other than a function is in some self-supporting part (`SettledIsGreatest`, `AClashTakesMore`).
* Handles tell people and providers apart exactly when no provider's name ends with a colon and another's name
  (`HandlesIdentifyExactly`).
* A forgotten or withdrawn connection is asked for again before anything is served for it exactly when no fetch for
  it was in flight (`ForgettingHoldsUnlessInFlight`, `WithdrawingHoldsUnlessInFlight`, `VanishingHoldsUnlessInFlight`).
* A reply reaches its call exactly if it is the first with the call's id and the receive loop still reads
  (`FuturesHoldFirstReplies`, `AReplyIsLost`).
* A sign-in that lost the race for its account ends without an id exactly when the last write to the account's entry
  was an unlink's deletion (`LostExactlyWhenUnlinked`, `UnlinkCanLoseALookup`).
* If the links and unlinks of an account wait for its other calls, index and lists agree on it whenever none of its
  calls is in progress, exactly when no link found the former person removed as it came to shorten their list
  (`TurnsMirrorExactly`, `RemovalCanLeaveAListing`). If they do not wait, an unlink that a link overtakes, or a link
  that a first sign-in overtakes, can leave them apart (`UnlinkCanLeaveAListing`, `SignInCanLeaveAListing`).
* `issuer|subject` tells accounts apart exactly when no issuer in use is another one with a bar and more behind it
  (`RefsIdentifyExactly`, `RefsCanCoincide`).

## Model

| member | source | states |
|---|---|---|
| IdentityTheorems.RemovalIsPermanent | jarviscore/auth/people.py:149-189 | Between any two points of any interleaved run, a published person who is removed at the first is removed at the second, under the same name and with no new account. |
| IdentityTheorems.OnlyActivePeopleResolve | jarviscore/auth/people.py:128-147 | A sign-in that succeeds does so at an instant when its person is recorded and not removed. |
| IdentityTheorems.FirstSightAgrees | jarviscore/auth/people.py:128-164 | However many sign-ins race on one account that no link or unlink rewrote, all that return name the one recorded person the account stands for. |
| IdentityTheorems.AnnouncedOnce | jarviscore/auth/people.py:157-164 | Once all calls have returned, such an account was logged as added exactly once, under the id it resolves to; an account without an entry never was. |
| IdentityTheorems.NothingLeftBehind | jarviscore/auth/people.py:157-164 | A losing candidate leaves no record: once all calls have returned the records are exactly the published ids; at all times each account points at a recorded person. |
| IdentityTheorems.SharingTakesALink | jarviscore/auth/people.py:232-256 | Two accounts share a person only if a link for one of them is logged or about to be, even when both asked for the same first id. |
| IdentityTheorems.CodesArePaidFor | jarviscore/auth/people.py:224-236 | In every run, a code is redeemed at most as often as it was given out. |
| IdentityTheorems.OnlyUnlinkLosesALookup | jarviscore/auth/people.py:160-164 | A provisioner's re-read comes back empty only if an unlink has deleted the entry; `register` always finds the record that stopped it. |
| IdentityTheorems.LostExactlyWhenUnlinked | jarviscore/auth/people.py:160-164 | In every run, the loser of a race ends without an id if and only if, when it looks again, the last write to the account's entry was an unlink's deletion. |
| IdentityTheorems.EntriesGoByUnlinkOnly | jarviscore/auth/people.py:261-268 | Along any run, an account with an entry at one point and none at a later one has been unlinked in between. |
| IdentityTheorems.UnlinkCanLoseALookup | jarviscore/auth/people.py:137-147 | It happens, for every account that may be provisioned: a run of two first sign-ins and one unlink after which one sign-in has no id. |
| IdentityTheorems.RefsIdentifyExactly | jarviscore/auth/people.py:94-96 | For every set of issuers, references tell their accounts apart if and only if no issuer is another one with a bar and more behind it; issuers without bars qualify. |
| IdentityTheorems.RefsCanCoincide | jarviscore/auth/people.py:94-96 | With a bar in an issuer two different accounts have one reference. |
| IdentityInvariant.RunKeepsInv | jarviscore/auth/people.py:128-281 | The invariant behind these theorems (what the store, every operation at each of its awaits, every candidate and every count satisfy) is kept by every run. |
| IdentityInvariant.ExecOk | jarviscore/auth/people.py:128-281 | The next command of any operation at any of its awaits writes only what keeps the store in order, and leaves the operation knowing what its next command needs. |
| IdentityInvariant.WriteKeepsProc | jarviscore/auth/people.py:166-189 | What one operation carries across an await survives every command of the others; so a commit that goes through overwrites the record it read. |
| IdentityCalls.NobodyIsAddedUninvited | jarviscore/auth/people.py:128-164 | In every run in which nobody signs in with an account asking for a person to be made, none is: no record is named after it, the log adds no one for it, and it has an entry only if a link wrote it. |
| IdentityCalls.UnknownAccountsAreRefused | jarviscore/auth/people.py:137-139 | In any state, a sign-in that may not make a person and finds no entry is refused, with nothing written. |
| IdentityCalls.KnownAccountsSignIn | jarviscore/auth/people.py:136-147 | A known account's sign-in is refused if its person was removed, else names that person; only the name may change, only if the account gave it and gives another now. |
| IdentityCalls.NewAccountsSignIn | jarviscore/auth/people.py:137-164 | An unknown account's makes one person, named and listed after it, under its own id if free, with the entry and one line of the log; or is refused and writes nothing if it may not, or gives no id. |
| IdentityCalls.BaseIds | jarviscore/auth/people.py:149-150 | The id asked for is issuer, dot and subject; none is derived if that is blank or holds a brace, and slashes become dots. |
| IdentityCalls.LinksMove | jarviscore/auth/people.py:232-256 | A redeemed code goes whatever follows; the link is refused if either side was removed, else moves the entry and logs from whom. |
| IdentityCalls.LinksMoveLists | jarviscore/auth/people.py:244-254 | After it the person's list has the account, the former person's has not, and no other record changed. |
| IdentityCalls.UnlinksDrop | jarviscore/auth/people.py:261-270 | Unlinking drops entry and listing, logs it, and changes nothing else; without an entry nothing at all. |
| IdentityCalls.RegistrationsRecord | jarviscore/auth/people.py:210-220 | A new id is recorded and logged; a known one is left, a removed one refused. |
| IdentityCalls.CodesAreGiven | jarviscore/auth/people.py:224-230 | Exactly a code is stored, unless the person was removed. |
| IdentityCalls.RemovalsMark | jarviscore/auth/people.py:272-281 | The record is marked and the removal logged; accounts, lists and names stay. |
| IdentityCalls.LosersFollowTheWinner | jarviscore/auth/people.py:157-164 | A provisioner that finds the account taken withdraws its candidate and resolves to the winner's person. |
| IdentityCalls.OvertakenUpdatesStartOver | jarviscore/auth/people.py:166-189 | An update whose record was written since it was watched starts over and applies its change to the record as it is by then. |
| IdentityCalls.RemovedPeopleAreNotUpdated | jarviscore/auth/people.py:173-178 | An update of someone removed in between writes nothing; it is refused, or at the end of a link forgiven. |
| Identities.AloneServes | jarviscore/auth/people.py:128-281 | The commands of an operation that is not interfered with add up to the whole call, for every store and every outcome. |
| Identities.AccountsMirrorPeople | jarviscore/auth/people.py:149-164 | After any sequence of calls one after another, an account resolves to a person exactly when it is in that person's list, hence in one list at most. |
| IdentityTurns.TurnsMirrorExactly | jarviscore/auth/people.py:232-281 | In every run in which the links and unlinks of an account wait for its other calls, while sign-ins overlap each other and all else interleaves: once no call on the account is in progress, it resolves to a person exactly when it is in that person's list, if and only if no link found the former person removed when it read their record to shorten the list. |
| IdentityTurns.ActStaysGood | jarviscore/auth/people.py:128-281 | At every point of such a run the entry and all lists of the account are what the one link or unlink in progress has left them, await by await; without one, the account is listed by its person and by the candidates held for it. |
| IdentityTurns.StuckForGood | jarviscore/auth/people.py:249-254 | A removed person left with an account that resolves elsewhere keeps it on their list for the rest of every run, whatever overlaps then. |
| IdentityTurns.RemovalCanLeaveAListing | jarviscore/auth/people.py:249-254 | From every state at rest with an active, listed account and a code for someone else: the account's person is deprovisioned behind a link's check, no two calls on the account overlap, everything has returned, and the removed person still lists the account. |
| IdentityTurns.ARemovedPersonIsLeft | jarviscore/auth/people.py:224-281 | Such a run from the empty store, for every account that may be provisioned. |
| IdentityTurns.SignInCanLeaveAListing | jarviscore/auth/people.py:149-254 | An account's first sign-in after a link found it without an entry: everything has returned, and two people list the account. |
| IdentityLists.UntouchedAccountsMirrorPeople | jarviscore/auth/people.py:128-281 | However the calls on an account overlap, refused links included: once all have returned and none of them rewrote its entry for a link or an unlink, it resolves to a person exactly when it is in that person's list. |
| IdentityLists.RunKeepsLists | jarviscore/auth/people.py:128-281 | At every point of every run, such an account is on a list besides the one its entry names only as a candidate still held or as the target of a link about to set the entry. |
| IdentityLists.UnlinkCanLeaveAListing | jarviscore/auth/people.py:261-270 | From every state at rest with an active account and a code for someone else: an unlink that has read the entry, a link that overtakes it, and then everything has returned with the account on a list and without an entry. |
| IdentityLists.AListingIsLeft | jarviscore/auth/people.py:224-270 | Such a run from the empty store, for every account that may be provisioned. |
| Identities.ServeKeepsMirror | jarviscore/auth/people.py:128-281 | Every completed call keeps index and lists inverse to each other, and forgets no person. |
| Identities.ComesBackAsSomeoneNew | jarviscore/auth/people.py:155-164 | An unlinked account, not linked again, comes back as an id that nobody recorded before or since has held. |
| Identities.FirstFree | jarviscore/auth/people.py:154-158 | The id that provisioning settles on is one no record has. |
| Identities.Identities.PersonFor | jarviscore/auth/people.py:128-147 | The method changes the store and answers as the whole call does, which `KnownAccountsSignIn` and `NewAccountsSignIn` spell out; with no entry and `auto_provision` off it is refused and writes nothing. |
| Identities.Identities.Provision | jarviscore/auth/people.py:149-164 | The loop takes the first free id, records it and publishes the account, unless the account is known: then the store is as it was. |
| Identities.Identities.Update | jarviscore/auth/people.py:166-189 | The changed record replaces the one that was there; a removed person's is refused unless allowed, and stays removed. |
| Identities.Identities.Register | jarviscore/auth/people.py:210-220 | A new id is recorded and logged; a known one is left alone, a removed one refused. |
| Identities.Identities.BeginLink | jarviscore/auth/people.py:224-230 | A code is stored for the person unless they are removed. |
| Identities.Identities.CompleteLink | jarviscore/auth/people.py:232-256 | The code is used up whatever follows; the account moves to the person, in index, both lists and log, unless either side is removed. |
| Identities.Identities.Unlink | jarviscore/auth/people.py:261-270 | The account's entry goes, and the account leaves the list of whoever had it, removed or not. |
| Identities.Identities.Deprovision | jarviscore/auth/people.py:272-281 | The record is marked removed and that is logged; accounts stay tied to it. |
| ConditionFolding.RewriteKeepsTests | scripts/migrate_atoms.py:208-228 | A test that reads the credential only for its truth, under `not` inside operators as well, and only what is there, keeps its truth, its effects and its exceptions when the reads become `True`. |
| ConditionFolding.RewriteKeepsValues | scripts/migrate_atoms.py:208-228 | An operand that depends on the credential through such truths only keeps its very value. |
| ConditionFolding.StaticTruthIsSound | scripts/migrate_atoms.py:231-247 | A decided test that evaluates without raising has the decided truth, whatever its undecided operands compute. |
| ConditionFolding.TruthsAreSound | scripts/migrate_atoms.py:238-246 | The same for the operand lists of `and` and `or`, evaluated with short circuit. |
| ConditionFolding.DecidedExactly | scripts/migrate_atoms.py:231-247 | A test is decided if and only if it comes out one way however each of its operators may come out. |
| ConditionFolding.ReadsAreDecidedExactly | scripts/migrate_atoms.py:188-227 | A test of one field is decided exactly if the field is a credential's, whatever its capitals. |
| ConditionFolding.RewriteFrees | scripts/migrate_atoms.py:208-228 | The rewrite leaves no read of the credential anywhere in a test. |
| ConditionFolding.FoldingIsExact | scripts/migrate_atoms.py:363-367 | Replacing a decided test by its truth is right for every behaviour of the operators if and only if no operator is evaluated before the decision. |
| ConditionFolding.CalmTestsAreQuiet | scripts/migrate_atoms.py:363-367 | A test whose operators neither raise nor change anything has no effect to lose. |
| BlockCleaning.CleaningKeepsBlocks | scripts/migrate_atoms.py:321-380 | For every block whose tests fit, from every store and with every loop bound, the cleaned block ends the same way with the same value and the same store. |
| BlockCleaning.CleaningKeepsIf | scripts/migrate_atoms.py:358-370 | An `if` folded to a branch, or kept with cleaned branches, does what it did. |
| BlockCleaning.CleaningKeepsLoop | scripts/migrate_atoms.py:371-380 | Loops with cleaned bodies run as before, `break`, `continue` and `else` included. |
| BlockCleaning.CleaningKeepsTry | scripts/migrate_atoms.py:371-380 | `try` with cleaned parts catches, re-raises and finishes as before. |
| BlockCleaning.DecidedTestsAreQuiet | scripts/migrate_atoms.py:361-367 | A decided test that fits has the decided truth and changes nothing. |
| BlockCleaning.CleanBlockLoop | scripts/migrate_atoms.py:321-332 | The growing list of the pass is the recursive definition, and lean: nothing follows a return or a raise, and no test is left that reads the credential or could be decided, at any depth. |
| BlockCleaning.CleanNode | scripts/migrate_atoms.py:358-380 | The node-by-node pass gives the statements that the definition gives. |
| BlockCleaning.CleanedIsLean | scripts/migrate_atoms.py:321-380 | For every block, the cleaned one has no statement behind a return or a raise, no read in a test, only tests that may come out either way, and no empty body, at any depth. |
| BlockCleaning.LeanBlocksStay | scripts/migrate_atoms.py:321-380 | A block is left exactly as it is if and only if it is lean. |
| BlockCleaning.CleaningIsIdempotent | scripts/migrate_atoms.py:321-380 | Cleaning again changes nothing. |
| BlockCleaning.FoldingDropsAnEffect | scripts/migrate_atoms.py:240-242 | A block that raises is cleaned to one that falls through, because the raising operand stood before the decision. |
| BlockCleaning.OperatorsOnReadsAreKeptExactly | scripts/migrate_atoms.py:211-223 | An operator given constants and reads of the credential is kept, whatever the operator does, if and only if each of those reads gives `True`. |
| BlockCleaning.IndirectReadsChange | scripts/migrate_atoms.py:211-223 | So a test that compares the credential is changed by the rewrite. |
| AsyncClosure.Spread | scripts/migrate_atoms.py:567-578 | The loop ends with exactly the names that have a call path, through helpers, to a request helper, within one round per other helper and one more. |
| AsyncClosure.Round | scripts/migrate_atoms.py:570-578 | A round adds only names with a call path, adds one if any is missing, and otherwise shows the set closed under calling. |
| AsyncClosure.ReachingIsLeast | scripts/migrate_atoms.py:567-578 | That set is the least that holds the request helpers and is closed under calling. |
| UnusedHelpers.SettledIsGreatest | scripts/migrate_atoms.py:498-513 | What is left is a part of the body in which every private helper but the kept one is named by another statement that stays; only private helpers go, order stays, no survivor names a dropped function. It is the largest such part if and only if, in the body given, every private helper that shares its name with something other than a function is in some such part; so whenever functions share names with functions only. |
| UnusedHelpers.DropUnusedHelpers | scripts/migrate_atoms.py:498-513 | The loop ends, because the body shrinks each time, with the body in which no orphan is left. |
| UnusedHelpers.NothingDroppedIsNamed | scripts/migrate_atoms.py:502-513 | With or without name clashes, a function that a survivor names survives. |
| UnusedHelpers.AClashTakesMore | scripts/migrate_atoms.py:513-513 | A clash can take more: a class that shares its name with an orphan goes with it. |
| UnusedHelpers.CallingOneselfIsNotEnough | scripts/migrate_atoms.py:502-513 | A private helper that only calls itself goes. |
| SnapshotLines.ParsedParts | jarviscore/browser/snapshot.py:88-104 | A parsed line has a word as role, a name without quotes, and no character it did not have. |
| SnapshotLines.PrintedLineIsRead | jarviscore/browser/snapshot.py:107-124 | A printed line reads back as its role, its shown name, its ref, and its printed index or else the one its suffix carries. |
| SnapshotLines.NthBehindRef | jarviscore/browser/snapshot.py:118-123 | The ref printed in front neither hides an index nor makes one up. |
| RoleSnapshot.BuildRoleSnapshotFromAria | jarviscore/browser/snapshot.py:177-304 | The builder's text and refs are those of the definition, of which `TreeFollowsThePage`, `FlatListShowsElements` and `RefCountsEquals` say what they show of the page. |
| RoleSnapshot.CollectFromAria | jarviscore/browser/snapshot.py:198-295 | The loop with its tracker and counter numbers the refs and prints the lines so. |
| RoleSnapshot.BuildRoleSnapshotFromAi | jarviscore/browser/snapshot.py:307-346 | The reader keeps exactly the wanted lines and records each with the index it carries, or the number of equals before it that carry none. |
| RoleSnapshot.CollectFromAi | jarviscore/browser/snapshot.py:319-338 | The loop with its tracker does that. |
| RoleSnapshot.RemoveNthFromNonDuplicates | jarviscore/browser/snapshot.py:127-133 | Clearing indices one by one leaves them exactly on refs whose role and name occur twice. |
| RoleSnapshot.RoleNameTracker.GetNextIndex | jarviscore/browser/snapshot.py:66-70 | The index is how often the role and name were asked for before, and other keys are untouched. |
| RoleSnapshot.RoleNameTracker.TrackRef | jarviscore/browser/snapshot.py:72-76 | The ref is appended to its key's list, and other keys are untouched. |
| SnapshotRoundTrip.PrintedSnapshotReadsBack | jarviscore/browser/snapshot.py:198-304 | Whatever the options, flat, tree or compact: if no line printed without a ref reads as if it had one (a flat list has none), reading the text gives back every ref with role, name and index if and only if no name is empty or cut and no first of several equals has a suffix that reads as another index. |
| SnapshotRoundTrip.PrintedTextIsRead | jarviscore/browser/snapshot.py:198-304 | From any page text and for any options, the printed text reads as the items it was printed from, in order, if no other line reads as if it had a ref. |
| SnapshotRoundTrip.StrangeRefsAreRead | jarviscore/browser/snapshot.py:107-124 | The condition is needed: another line that reads with a ref the snapshot did not give out makes the refs differ. |
| SnapshotRoundTrip.CompactKeepsRefs | jarviscore/browser/snapshot.py:136-167 | Pruning a tree drops no line that reads with a ref, and reads the same afterwards. |
| SnapshotRoundTrip.ShownRefsAgree | jarviscore/browser/snapshot.py:307-346 | With all names shown, a ref agrees with what is read exactly when its index is read as it was. |
| SnapshotRoundTrip.HiddenNamesAreLost | jarviscore/browser/snapshot.py:222-225 | An empty or cut name does not come back. |
| SnapshotRoundTrip.RefNamesDiffer | jarviscore/browser/snapshot.py:193-195 | Different numbers give different refs. |
| SnapshotTree.TreeFollowsThePage | jarviscore/browser/snapshot.py:240-302 | A tree shows its page line by line: too deep lines and, if compact, nameless wrappers are left out; an element with a ref shows its own prefix, role and suffix around its name and the marks; any other line is as on the page, but for a name that is too long. |
| SnapshotTree.RefLinesAreTheirPageLines | jarviscore/browser/snapshot.py:262-291 | The line of a ref begins with the prefix and role of its page line, ends with its suffix and stands as deep; with the whole name shown it is that line with the marks put in and nothing else. |
| SnapshotTree.TreesKeepTheirShape | jarviscore/browser/snapshot.py:240-302 | Every printed line stands as deep as the page line it comes from. |
| SnapshotTree.ParentsOfRefsStay | jarviscore/browser/snapshot.py:136-302 | A printed line below which, on the page, an element with a ref lies survives compacting. |
| SnapshotTree.FlatListShowsElements | jarviscore/browser/snapshot.py:198-236 | The k-th line of a flat list shows role, name and marks of the k-th interactive element, and its suffix if that has a bracket. |
| SnapshotTree.NamedLinesParse | jarviscore/browser/snapshot.py:88-104 | A page line with a role and a quoted name is read as its prefix, role, name and suffix. |
| SnapshotTree.UnnamedLinesParse | jarviscore/browser/snapshot.py:88-104 | One without a name has none and keeps what follows its role. |
| SnapshotTree.LongNamesAreCut | jarviscore/browser/snapshot.py:170-174 | A name is shown whole unless it is longer than the limit; then its front, without blanks at the end, and an ellipsis. |
| SnapshotTree.TextIsThePrintedLines | jarviscore/browser/snapshot.py:227-302 | The text is the printed lines; of a compact tree, those that compacting keeps. |
| SnapshotTree.ReaderKeepsExactly | jarviscore/browser/snapshot.py:319-338 | The reader keeps exactly the lines with a ref that are interactive and within the depth where asked for, and reads one element from each. |
| SnapshotTree.ReadRefsTell | jarviscore/browser/snapshot.py:333-341 | A ref is recorded with role and name, and with an index exactly if another line has the same: its own, or the number of these before it without one. |
| RefLocators.RefFindsItsElement | jarviscore/browser/session.py:763-802 | With any options, the ref of a named element, in any of its three spellings, resolves on its page to that element first if and only if no equal element stands before it on a line below the depth limit; then to exactly that element, or, for the first of several equals, to all of them. With no depth limit nothing is hidden. |
| RefLocators.UnknownRefsAreRefused | jarviscore/browser/session.py:770-783 | A ref the snapshot did not give is refused. |
| RefLocators.DepthLimitMisleads | jarviscore/browser/snapshot.py:202-220 | The other case happens: of two equal buttons, the deeper one hidden, the ref of the shown one resolves to the hidden one first. |
| RefLocators.CountsMissTheHidden | jarviscore/browser/snapshot.py:202-234 | With any options, refs count an element's equals on the page, all of them if and only if none lies below the depth limit. |
| RefLocators.RefCountsEquals | jarviscore/browser/snapshot.py:197-234 | With no depth limit, what is recorded for a ref is its element's number among its equals on the page, although refs are counted over chosen lines only. |
| RefLocators.KeysTellElements | jarviscore/browser/snapshot.py:63-64 | `role:name` is the same exactly for the same role and name, since a role is a word. |
| RefLocators.ItemsAreIssued | jarviscore/browser/snapshot.py:198-295 | With no depth limit, interactive-only, compact or neither, the lines that get a ref are the elements that should, in page order. |
| UnnamedRefs.UnnamedRefFindsItsElement | jarviscore/browser/session.py:786-802 | With any options, the ref of an unnamed element resolves to it first if and only if no element of its role before it has a name or lies below the depth limit. |
| UnnamedRefs.ANamedOneMisleads | jarviscore/browser/session.py:793-800 | The other case happens: behind a named button, the unnamed one's ref resolves to the named one first. |
| CompactTree.CompactKeepsExactly | jarviscore/browser/snapshot.py:136-167 | The result is, in order, exactly the ref lines, the lines with inline content and the lines with a ref line below them in the indentation forest. |
| CompactTree.CompactIsIdempotent | jarviscore/browser/snapshot.py:136-167 | Compacting a compacted text changes nothing. |
| CompactTree.CompactLines | jarviscore/browser/snapshot.py:141-165 | The loop over the lines gives those lines. |
| CompactTree.SearchBelow | jarviscore/browser/snapshot.py:153-162 | The inner loop, which stops at the first line that is not deeper, finds a ref exactly if a line below has one. |
| StackSecretsTheorems.PairIsRead | jarviscore/cli/nexus.py:106-116 | A `name=value` line reads as the name with the stripped value, even if the value has an equals sign. |
| StackSecretsTheorems.StackFileIsRead | jarviscore/cli/nexus.py:164-170 | Each secret of the written stack file reads back as stripping leaves it; unchanged if and only if stripping leaves it alone. |
| StackSecretsTheorems.SecretsAreGood | jarviscore/cli/nexus.py:153-162 | After a run every secret is there on one line, and one the stack had is unchanged. |
| ProjectFile.NewProjectLines | jarviscore/cli/nexus.py:172-200 | The new project file reads as the kept lines in order, the gateway key following the stack, the wanted lines it lacked behind, no empty line at either end. |
| ProjectFile.SurvivorsKeepOrder | jarviscore/cli/nexus.py:174-183 | Lines that do not go keep their order and, but for the gateway key, their text. |
| ProjectFile.NothingIsLost | jarviscore/cli/nexus.py:177-183 | A broker-only line is still there, or was the placeholder, or its value is the stack's secret, which reads back from the new stack file exactly if it is stable. |
| ProjectFile.SecondRunChangesNothing | jarviscore/cli/nexus.py:137-209 | With stable secrets a second run, in any environment, leaves both files as they are and notes only the conflicts again. |
| ProjectFile.SecondRunIsSilentExactly | jarviscore/cli/nexus.py:137-209 | A second run leaves both files as they are and notes only the conflicts again if and only if every secret the first wrote is one that stripping leaves alone. |
| ProjectFile.SecondRunNeedsStableSecrets | jarviscore/cli/nexus.py:153-170 | With an unstable secret the second run changes the stack file or must make up for that secret. |
| ProjectFile.ConflictsStay | jarviscore/cli/nexus.py:182-183 | The same keys conflict, in the same order, in the file a run leaves. |
| ProjectFile.QuotedBlanksAreNotStable | jarviscore/cli/nexus.py:115-115 | A value quoted with blanks inside is read, written and read again as two different values. |
| SecretOrigins.SecretsComeFrom | jarviscore/cli/nexus.py:153-162 | Each secret is the stack's; else the project's real value; else, if the project has none, the environment's real value; else a new one. |
| SecretOrigins.NotesTell | jarviscore/cli/nexus.py:153-209 | The notes say exactly which secrets were adopted, which drawn, which keys went from the project and which stay in conflict. |
| SecretOrigins.BrokerLinesGoExactly | jarviscore/cli/nexus.py:172-183 | A broker-only line is gone after the run if and only if its value is the stack's secret or the placeholder. |
| SecretOrigins.AdoptedLinesGo | jarviscore/cli/nexus.py:137-209 | The one line that gives a key the stack lacks a real value is adopted and removed, and noted so, without a conflict. |
| SecretOrigins.LineIsEntry | jarviscore/cli/nexus.py:106-115 | The value a line is read as is the one the lines are sorted by, blanks around it or not. |
| SecretOrigins.QuotesComeOff | jarviscore/cli/nexus.py:115-115 | Quotes around a value come off, double ones first. |
| SecretOrigins.GatewayIsReachable | jarviscore/cli/nexus.py:185-195 | The project file a run leaves has the stack's gateway key on every line for it, and both addresses, the usual ones if it had none. |
| StackSecrets.ReadEnvFile | jarviscore/cli/nexus.py:106-116 | The loop reads the last value of each name; a missing file reads as nothing. |
| StackSecrets.EnvFiles.EnsureStackSecrets | jarviscore/cli/nexus.py:137-209 | Both files, the secrets and the notes after the call, in terms of both files before it; every secret the stack lacks and the project really has is adopted. |
| StackSecrets.CompleteSecrets | jarviscore/cli/nexus.py:153-162 | The loop keeps what the stack has, adopts every real value of the project, and goes by the definition that `SecretsComeFrom` spells out for the rest. |
| StackSecrets.SortLines | jarviscore/cli/nexus.py:172-183 | The loop splits the lines into kept, removed and conflicting. |
| StackSecrets.FollowLines | jarviscore/cli/nexus.py:190-193 | Exactly the gateway key lines are rewritten in place. |
| RetryLedger.AtMostOneChargePerKey | examples/p2p_lost_reply_retry.py:68-92 | Over every interleaving of arrivals, retries, timeouts and lost replies, charge numbers are consecutive, no key is charged twice, and a key's charge was asked for, amount and all. |
| RetryLedger.RepliesAgree | examples/p2p_lost_reply_retry.py:75-92 | Every reply for a key, delivered or lost, is the one booked charge. |
| RetryLedger.PaidOnce | examples/p2p_lost_reply_retry.py:106-111 | A caller that paid with a key, at the first try or the second, paid exactly once, and was told of that charge. |
| RetryLedger.WithoutAKeyTwice | examples/p2p_lost_reply_retry.py:77-78 | Without a key a lost reply makes the customer pay twice. |
| RetryLedger.TwoTriesAtMost | examples/p2p_lost_reply_retry.py:106-111 | Over every run a caller sends two requests at most, the second with the same payload. |
| RetryLedger.RunKeepsInv | examples/p2p_lost_reply_retry.py:68-111 | Along every run from a state that satisfies the invariant behind these theorems, the invariant holds, the ledger only grows and a recorded result stays. |
| ConsentPolling.WaitForCompletion | jarviscore/auth/oauth_flow.py:163-227 | The loop ends with the first poll that decides: ACTIVE, REVOKED or EXPIRED, or a FAILED that stood unbroken for the grace period, checks that raised aside; else with a timeout after the least number of polls that fills it. |
| ConsentPolling.VerdictIsUnique | jarviscore/auth/oauth_flow.py:163-227 | Statuses, timeout, interval and grace period leave one answer and one number of polls. |
| ConsentPolling.RunDecides | jarviscore/auth/oauth_flow.py:205-218 | The one remembered instant decides whether some unbroken run of FAILED has stood for the grace period. |
| ConsentPolling.FirstFailedStartsTheRun | jarviscore/auth/oauth_flow.py:187-218 | What the loop remembers is the start of the longest run of FAILED answers, which errors neither break nor restart. |
| ReplyCorrelation.PendingAreUnanswered | jarviscore/browser/cdp.py:74-103 | While the loop reads, the pending ids are exactly those sent and not answered since, under any interleaving of frames. |
| ReplyCorrelation.FuturesHoldFirstReplies | jarviscore/browser/cdp.py:88-103 | Under any interleaving and whether or not the loop lives, a call's future holds what the first frame with its id says if the loop still read then; any other call waits. |
| ReplyCorrelation.FramesCarryTheirId | jarviscore/browser/cdp.py:94-96 | A frame is for the id it carries; a JSON `true` or `false` counts as 1 or 0. |
| ReplyCorrelation.NothingIsHeardAfterTheEnd | jarviscore/browser/cdp.py:88-103 | Once a frame has ended the loop no future changes any more: calls in flight, and calls sent later, wait for ever. |
| ReplyCorrelation.AReplyIsLost | jarviscore/browser/cdp.py:88-94 | It happens: a frame without fields, and then the reply to a call that goes on waiting. |
| ReplyCorrelation.CompletedOnce | jarviscore/browser/cdp.py:97-103 | A completed future is never completed again or changed. |
| ReplyCorrelation.ReadingUntilKilled | jarviscore/browser/cdp.py:88-103 | The loop reads on exactly as long as no frame is JSON without fields or answers a pending call with an error that is not an object. |
| ReplyCorrelation.IdsAreCounted | jarviscore/browser/cdp.py:78-86 | Ids count the calls, and a pending id has a waiting future. |
| ReplyCorrelation.CdpSocket.Send | jarviscore/browser/cdp.py:78-86 | The call takes the next id and waits under it. |
| ReplyCorrelation.CdpSocket.Receive | jarviscore/browser/cdp.py:88-103 | One turn of the loop: drop noise, complete the pending future, or end the loop. |
| Principals.Context.Perform | jarviscore/auth/principal.py:93-144 | For every nesting of scopes, and every way out of it, setting and resetting the variables does what handing the principal down would: the variables end as they were, every look-up saw its own scope's principal, every kept record brings back its principal. |
| Principals.Context.EnterActFor | jarviscore/auth/principal.py:111-139 | Entering sets the named principal whole, or narrows the mandate, or raises before setting anything; undoing its tokens gives the former triple. |
| Principals.Context.EnterRecord | jarviscore/auth/principal.py:93-103 | Entering sets exactly what the record says, None where it says nothing; undoing its tokens gives the former triple. |
| Principals.Context.Restore | jarviscore/auth/principal.py:140-144 | The `finally` loop resets the tokens, last first. |
| Principals.RecordsReinstate | jarviscore/auth/principal.py:81-103 | A record brings back the triple it was taken of; it is None exactly when nothing was set. |
| Principals.NamingReplacesThePrincipal | jarviscore/auth/principal.py:120-137 | Work in a scope that names someone is the same whoever is outside, and no look-up in it, however deep, shows the outer person with their scopes, or the outer mandate, unless the work or a kept record gives them again. |
| Principals.MandatesAreGiven | jarviscore/auth/principal.py:120-139 | Every mandate seen in any nesting is the outer one, a kept record's, or one that a scope around the look-up delegated. |
| Principals.ScopesStayWithTheirPerson | jarviscore/auth/principal.py:120-137 | No look-up in any nesting shows a person with scopes that were not given together with that person. |
| Principals.NarrowingKeepsThePerson | jarviscore/auth/principal.py:120-139 | Scopes that name nobody change at most the mandate, and only to one they delegate. |
| Principals.NarrowingHidesTheMandate | jarviscore/auth/principal.py:138-139 | Work under a delegated mandate is the same whatever mandate is outside, and no look-up in it shows that one unless the work or a kept record gives it. |
| Principals.EmptyScopesAreTransparent | jarviscore/auth/principal.py:120-139 | A scope given neither a person nor a mandate changes nothing. |
| Principals.NamedScopesShow | jarviscore/auth/principal.py:126-137 | Right inside a scope that names someone, their key, the given mandate and grant or else the `OnBehalfOf`'s own are seen. |
| Principals.UnclearScopesRaise | jarviscore/auth/principal.py:126-133 | A scope that cannot tell who is meant, or read the grant, raises before its work. |
| Principals.RecordsHideThePrincipal | jarviscore/auth/principal.py:93-108 | Work in a reinstated record is the same whoever is outside; a record of nothing shows nobody. |
| Principals.KeptWorkIsWorkThere | jarviscore/auth/principal.py:81-108 | Work in a kept record is work where it was kept. |
| ConnectionManager.HandlesIdentifyExactly | jarviscore/auth/manager.py:198-205 | Handles tell person and provider apart if and only if no provider ends with a colon and another provider's name; names without colons qualify. |
| ConnectionManager.AuthenticationManager.ForgetStrategy | jarviscore/auth/manager.py:160-163 | Exactly the cached credentials of the connection go, whoever they were for. |
| ConnectionManager.AuthenticationManager.TakeBack | jarviscore/auth/manager.py:147-156 | The loops take the handle from everyone who holds it and mark exactly those. |
| ConnectionManager.AuthenticationManager.ConnectionNeedsAttention | jarviscore/auth/manager.py:147-158 | Both at once, nothing else changed. |
| ConnectionManager.AuthenticationManager.DiscoverAnswered | jarviscore/auth/manager.py:190-208 | With an active connection the pair's handle is held and written down and the pair needs no attention; else nothing changes. |
| ConnectionManager.AuthenticationManager.AuthenticateAnswered | jarviscore/auth/manager.py:285-301 | Only a completed consent changes anything: the connection is held and the pair needs no attention. |
| ConnectionManager.AuthenticationManager.Resolve | jarviscore/auth/manager.py:386-403 | A usable cached credential of this connection and person is served; else the discovered pair, or the connection, is asked for. |
| ConnectionManager.AuthenticationManager.ResolveAnswered | jarviscore/auth/manager.py:392-405 | The credential is cached under the pair with the time of the answer; a vanished connection is withdrawn instead. |
| ConnectionTheorems.NeverBothConnectedAndWithdrawn | jarviscore/auth/manager.py:136-208 | At every await point of every run, no provider is connected and needing attention for one person, and each discovered handle is its pair's. |
| ConnectionTheorems.ResolvingAsksForItsPair | jarviscore/auth/manager.py:392-395 | At any later point of any run, resolving a handle that discovery handed out asks for exactly the person and provider it was found for, or serves from the cache. |
| ConnectionTheorems.ServedCredentialsAreTheirOwn | jarviscore/auth/manager.py:386-405 | A credential served from the cache is the last one fetched for this connection and this person, less than the time to live ago, not past its expiry, and not forgotten or withdrawn since. |
| ConnectionTheorems.ServedExactly | jarviscore/auth/manager.py:386-405 | It is served if and only if that holds. |
| ConnectionTheorems.OthersAreAskedForByName | jarviscore/auth/manager.py:392-403 | A connection that no discovery handed out is asked for under its own name. |
| ConnectionTheorems.ConnectionsAreHeldExactly | jarviscore/auth/manager.py:147-208 | Over every run, a person holds a connection for a provider if and only if it is the last they were given, by a discovery or a consent, and was not withdrawn since. |
| ConnectionTheorems.AttentionIsNeededExactly | jarviscore/auth/manager.py:147-208 | A provider needs attention for a person if and only if what they held was withdrawn and nothing connected it since. |
| ConnectionTheorems.HeldConnectionsAreHanded | jarviscore/auth/manager.py:190-199 | Whoever holds a connection is handed it; else the gateway is asked for that very pair, or the owner's consent. |
| ConnectionTheorems.ForgettingHoldsUnlessInFlight | jarviscore/auth/manager.py:160-163 | After forgetting, nothing is served for the connection before it is asked for again, if and only if no fetch for it was in flight, or credentials live for no time. |
| ConnectionTheorems.WithdrawingHoldsUnlessInFlight | jarviscore/auth/manager.py:147-158 | The same for a withdrawn connection: the answer to a fetch in flight is cached and served after the withdrawal. |
| ConnectionTheorems.VanishingHoldsUnlessInFlight | jarviscore/auth/manager.py:392-400 | The same for a connection that the gateway no longer knows, for the other fetches in flight. |
| TrafficCapture.BrowserTrafficCapture.AddRequest | jarviscore/browser/capture.py:112-137 | Below the cap the redacted event is appended and the index sends its id to it; at the cap nothing changes. |
| TrafficCapture.BrowserTrafficCapture.AddResponse | jarviscore/browser/capture.py:139-159 | Exactly the latest event with the id is answered, in the log as well, and the index still holds the latest event of every id. |
| TrafficCapture.BrowserTrafficCapture.AddFailure | jarviscore/browser/capture.py:161-165 | Exactly the latest event with the id gets the error, and the index stays right. |
| TrafficCapture.BrowserTrafficCapture.Summary | jarviscore/browser/capture.py:167-175 | The counted events are those that were ok, and ok and failed add up to the events. |
| TrafficCapture.Latest | jarviscore/browser/capture.py:147-147 | The place is the last one in the log with the id, and there is none if no event has it. |
| TrafficCapture.LogsAreCapped | jarviscore/browser/capture.py:123-124 | No recording grows past its cap. |
| TrafficCapture.NamedHeadersAreNeverRecorded | jarviscore/browser/capture.py:58-68 | In no recording does an event hold the value of a header the configuration names, whatever its capitals. |
| TrafficCapture.RequestsStay | jarviscore/browser/capture.py:112-165 | A recorded event keeps its place and what it says of its request, whatever follows. |
| TrafficCapture.ResponsesLandOnTheirLatestRequest | jarviscore/browser/capture.py:147-149 | A response, or a failure, lands on an event exactly if that event's request is the latest recorded one with its id. |
| CaptureTheorems.EventsTellTheirLastResponse | jarviscore/browser/capture.py:147-155 | Each event tells the last response that landed on it: status, success, every header but the values of the named ones, and the content type they give; and none if none did. |
| CaptureTheorems.EventsHoldTheirLastText | jarviscore/browser/capture.py:156-159 | Each event holds the body of the last response with text, whole or its front up to the limit and flagged; a later one without text leaves it. |
| CaptureTheorems.EventsTellTheirLastFailure | jarviscore/browser/capture.py:161-165 | Each event tells the error of the last failure, or that the request failed if it gave none. |
| CaptureTheorems.RequestsAreToldAsMade | jarviscore/browser/capture.py:112-137 | A recorded event tells its request for good: id, method, url, body if bodies are kept, and every header but the values of the named ones. |
| CaptureTheorems.TextIs | jarviscore/browser/capture.py:85-92 | Text is JSON, XML, a form or anything of type text, in whatever capitals. |
| TrafficCapture.DroppedRequestsLoseTheirResponse | jarviscore/browser/capture.py:123-124 | At the cap, the response to a dropped request overwrites the earlier event with its id. |
| ContractSynthesis.SynthesizeContracts | jarviscore/browser/capture.py:190-210 | The contracts are, by first appearance of method and endpoint, exactly those of the earliest best event of each that are confident enough. |
| ContractSynthesis.SynthesisIsDecided | jarviscore/browser/capture.py:190-210 | The traffic decides the list, which has at most one contract for a method and endpoint. |
| ContractSynthesis.PickBest | jarviscore/browser/capture.py:218-230 | The event picked is the earliest of those than which none shows more of success and JSON, or as much and a body besides. |
| ContractSynthesis.BestInLog | jarviscore/browser/capture.py:191-201 | The best of a group is the earliest best event of the whole log with that method and endpoint. |
| ContractSynthesis.GroupEvents | jarviscore/browser/capture.py:191-197 | The loop groups exactly the events with a method and a url, keys in order of first appearance. |
| ContractSynthesis.ContractOf | jarviscore/browser/capture.py:332-340 | Confidence lies between 40 and 90; the clamp at 95 is never reached. |
| ContractSynthesis.ContractsTell | jarviscore/browser/capture.py:318-340 | Success, a schema and a request body each raise the confidence, and each combination has its own; the schema is what the body shows. |
| ContractSynthesis.CallsAreCovered | jarviscore/browser/capture.py:190-210 | Every contract is of a recorded call with a method and a url, and with a low enough bar every such call has one. |
| ContractSynthesis.KeysTell | jarviscore/browser/capture.py:191-196 | Calls go together by method, in capitals, and url without its query. |

## Left out

Identities:

- One tenant is modelled: every key begins with the tenant, so tenants share none. Timestamps, `created_at` and the order of an account list are not kept.
- Link codes are values the caller chooses and may vanish at any time, for their randomness and their expiry. That a free id is eventually drawn is assumed where a whole call is considered; the interleavings do not need it.
- `register`, `begin_link` and `deprovision` are given published ids only, as an application does with ids it got from the class; a removal of an id that is only a candidate goes with the candidate (`RemovingACandidateIsUndone`).
- IdentityTheorems.FirstSightAgrees: says nothing once a link or an unlink has rewritten the account, after which later calls rightly name another person.
- Identities.AccountsMirrorPeople: is about calls one after another; under interleaving see `TurnsMirrorExactly`.
- IdentityTurns.TurnsMirrorExactly: needs the links and unlinks of the account to wait for its other calls. Where an unlink overlaps a link, or a link a first sign-in, index and lists can differ for good (`UnlinkCanLeaveAListing`, `SignInCanLeaveAListing`); which overlaps do so is not characterised.
- IdentityLists.UntouchedAccountsMirrorPeople: says nothing of an account that a link or an unlink rewrote; `TurnsMirrorExactly` does.
- Progress of the commit loop: that a failed commit is eventually followed by one that goes through is not claimed for interleaved runs.

Migrator:

- BlockCleaning.CleaningKeepsBlocks: is about blocks that read the credential in `if` tests only. Tests on tainted locals (always replaced by their `else`), reads of fields that are not credentials, values nulled outside tests, dictionary entries pruned, loop headers, and `pop` as a change of `auth_info` are not modelled, because the pass does not keep their meaning.
- BlockCleaning.CleaningKeepsLoop: loops are run with a bound on their turns; the theorem holds for every bound.
- Python's parser and unparser, the rewriting of request calls, and the final checks of a migrated file.

Snapshots:

- SnapshotLines.ParsedParts: character classes and lower case are those of ASCII.
- RefLocators.RefFindsItsElement: Playwright's own matching is taken to be equality of role and exact name, or of role alone, over the elements of the snapshot. Frame selectors are not covered, and neither are refs read from an AI snapshot, whose roles may contain a colon.
- Snapshot statistics, caching of refs per target, the bounded logs of the page state and the shared DevTools connection count.

Secret files:

- StackSecretsTheorems.StackFileIsRead: the header of the stack file is any list of comment lines. The newline is the only line separator modelled; other characters that Python splits lines at are ordinary here.
- ProjectFile.NothingIsLost: other lines an older stack file may have held are not kept by the code, and nothing is claimed for them. File modes and directories are not modelled.

Small protocols:

- RetryLedger.AtMostOneChargePerKey: the ledger is never cleared and tasks are not cancelled.
- ConsentPolling.WaitForCompletion: time moves by sleeping only, numbers are exact, and messages and the callback server are left out. The interval is positive, without which the loop need not end.
- ReplyCorrelation.FuturesHoldFirstReplies: futures are not cancelled by their callers; url and header helpers are left out.
- Principals.Context.Perform: scopes are entered and left in one task, as `with` does; a grant is readable or refused as a whole, and the character class of blanks around a person's key is that of ASCII.
- ConnectionTheorems.ServedCredentialsAreTheirOwn: the clock does not run backwards. The manager has a gateway; without one every call that needs it is refused. Seeding providers, capturing credentials and the lifecycle monitor's own timing are left out.
- TrafficCapture.BrowserTrafficCapture.AddResponse: bodies are characters, so decoding bytes is not modelled; timestamps, resource types, profiles and targets are passed through by the code and left out.
- ContractSynthesis.SynthesizeContracts: urls are given as `urlsplit` splits them and response bodies as the fields a JSON reader finds; the parameters, examples, action name and authentication scheme of a contract are left out. Saving to files is left out.
