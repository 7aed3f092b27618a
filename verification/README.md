# Account links, authentication and keys: a verified model

This project models the parts of the account service where being wrong is expensive and
hard to notice, and proves what they promise.

- **Provider links.** The Hub keeps, for each account, one sealed copy of each provider
  secret per trusted device and hosted Home. It is an authority that reads a folded set of
  records and answers with facts to append. `Links` has the decisions, `LinkEffects` and
  `LinkCoverage` what each does to the set, `LinkAnswers` which answer each request gets and
  what it leaves, told from the request and the records alone, `LinkRuns`, `LinkLeases`,
  `LinkChecks` and `LinkKeys` what holds over every run, with a stop allowed after any prefix
  of any command's facts, and `LinkStore` the log, the decision loops and the account object.
- **The clients.** `LinkAgreement` interleaves any number of desktops and threads with the
  authority, one locked or remote step at a time. `LinkSync` is one whole reconcile,
  `LinkFixpoint` that it loses nothing and need not be repeated, `LinkOutcome` and
  `LinkReconciled` what it leaves and reports of every provider, `LinkSuccess` exactly when
  it succeeds, `LinkRefines` that it is one of the runs `LinkAgreement` speaks of, `Desktop`
  the same as loops over mutable records, `HomeSync` the hosted Home's half as one step and
  `HomeAnswers` what it reports, `HomeSteps` the same reconcile one locked write at a time,
  `HomeAgreement` and `HomeOwnership` any number of such reconciles among the desktops and
  the person's own changes, `HomeLosses` runs in which a Home loses what was linked there,
  and `HomeRekey` the rotation of a Home's key across all accounts.
- **Authentication data.** `Custody` and `CustodyCatalog` are the migration and erasure
  state machine and `CustodyAnswers` what every command is answered, told from the events on
  record; `AuthData`, `AuthProjection`, `AuthMoves`, `AuthRuns` and `AuthLedger` the
  eight-map projection, its full and narrow reads, routed writes and the move of an account
  into its own scope; `AuthMethods` the decisions about passkeys, subjects, addresses and
  recovery codes, and `AuthAnswers` what each admits and which of them work after any run.
- **Ceremonies and keys.** `Ceremony` has the pending challenges, tickets and proofs,
  `CeremonyCodes` and `CeremonyAnswers` which code, ticket and proof is good, told from the
  run before it is presented, `RecoveryLimit` and `MailLimit` how many recovery attempts and invitation emails pass in a
  span of time; `Keys` the four-file key write; `Encoding` the encodings behind ids and key
  derivation; `Seal` the sealed copies and `SealBytes` the bytes their keys are derived
  from.

`dafny verify dfyconfig.toml` checks everything.

## How to read it

Decisions and steps are functions on values; where the code updates maps, files or a store
in place there is a class whose methods are proved equal to those functions, loop by loop.
Runs are sequences of commands or steps from an empty start, so a statement about
`Exec(...)` is about every reachable state. Each operation also has a statement of what it
answers and leaves that does not use the operation: from the request, the records and the
run so far, refusals included.

What is taken as given:

- Sealing is symbolic. A copy is a term over account, provider, version, recipient, key and
  secret, and opens exactly where all of them match. `SealBytes.OpensAsDerived` ties that to
  the bytes hashed: with a hash that does not collide and an encryption that opens only
  under its own key, the derived key is the same exactly there, up to keys that share one
  secret with the copy's ephemeral key. Signatures and the digests of email codes and tokens
  are symbolic in the same way, and random tokens are parameters.
- A trusted device is never named as a Home is. Desktops follow the protocol: copies are
  sealed by the steps modelled, not made up.
- Counters and times are unbounded; the source's saturating additions are not reached.
- The clock is monotone where a statement says `MonotoneClock` or `Monotone`.
- Each file step and each append of one record is atomic; `append_records_atomically` is
  one step.
- Operations on one account's key directory do not overlap; `Keys.OverlappingWritesMix` is
  what happens if two writes do.

## Where a promise is false, or holds only on a condition

- Every copy for a registered recipient is sealed to the recipient's registered key at every
  point of a run exactly when each copy written was sealed to the key its recipient was
  listed with at that moment and the Hub stopped inside no registration:
  `LinkKeys.KeysStayFresh`. The authority compares neither: a put sealed before a device
  registered a new key is admitted after it, with no stop anywhere, and served
  (`LinkKeys.StalePutIsServed`, `LinkKeys.StalePutRun`); and a registration stopped between
  its key and its last tombstone is not repaired by asking again
  (`LinkRuns.RegisterStop`, `LinkKeys.StoppedRegistrationStays`).
- A credential the person links on a Home is the same record, and theirs, after everything
  but their own unlinking or relinking it, if and only if no reconcile under way when they
  linked it can still come to write it: `HomeOwnership.LinkedOutlives`. Which can is read off
  where each has got to, what it had read and what it was listed. At each step:
  `HomeSteps.OwnAtTheWrite`. Runs from nothing in which one can, and does: a link made after a
  reconcile read the Home is overwritten, a rotation removed
  (`HomeLosses.LateLinkIsOverwritten`, `HomeLosses.LateRotationIsRemoved`).
- A Home removes what the account stops giving it, unless it stopped after storing a secret
  and before noting its version; that credential then counts as the person's own for good:
  `HomeSync.NothingUngivenStays`, `HomeOwnership.StoppedStoreStays`.
- A Home asked twice with one answer takes nothing the second time exactly when, of every
  provider that is not the person's own there, the copies that open are of one version:
  `HomeSync.AgainDoesNothing`, `HomeSync.DisagreeingTakesAgain`. The authority always
  answers so: `HomeSync.AuthorityAgrees`.
- A credential unlinked on a Home is taken again from the account:
  `HomeSync.UnlinkedIsTakenAgain`.
- The narrow read equals the full read's account exactly when none of its live records is
  overridden by a scope folded later: `AuthProjection.NarrowIffNotOverridden`. An address
  let go by a moved account and recorded by another is such a case, reached from an empty
  store: `AuthRuns.ReleasedIdSplitsTheReads`, `AuthRuns.ReleasedIdIsReached`. So is the
  address of an account that was erased: `AuthRuns.ErasedIdIsReached`.
- Repeating an admitted custody command is silent exactly when its identities were already
  trimmed: `Custody.RetryIsSilent`. Account names must be trimmed as well:
  `CustodyCatalog.AccountsAreIndependent`, `CustodyCatalog.UntrimmedNameRestarts`.
- Wherever it starts, a span of time with both ends included holds at most twenty of an
  account's invitation emails for each process that ran in it, in every run, exactly when it
  is shorter than a day: `MailLimit.MailSpan`, and no fewer: `MailLimit.RestartsAreTight`.
  The count is in memory, so a restart forgets it (`MailLimit.RestartIsMore`), and the clock
  is the system's, so stepping back does too (`MailLimit.ClockBackIsMore`).
- Such a span holds at most five invalid recovery proofs for one address, and five more for
  each fence of an account that some of them were charged to, in every run, exactly when it
  is no longer than 900 seconds: `RecoveryLimit.RecoverySpan`, and no fewer:
  `RecoveryLimit.FencesAreTight`. The count is of the account projection, and a fence takes
  its account's attempts out of it: `RecoveryLimit.FenceIsMore`.
- Of an account that is not erased, passkeys, subjects, addresses and codes keep what no
  decision undoes: `AuthMethods.MethodsAreSafe`. Erasure frees its ids for others:
  `AuthMethods.ErasedIdsAreFree`.
- Replacing the recovery codes leaves exactly the new ones usable if and only if no unused
  code outside them was issued in a batch of the same id:
  `AuthMethods.ReplacedCodesAreTheNewOnes`, `AuthMethods.ReusedBatchRevives`. A used code is
  usable again exactly when its id is issued again: `AuthMethods.ReissuedIsUsableAgain`.

## Model

| member | source | states |
|---|---|---|
| LinkStore.ApplyIsRebuild | crates/app/src/account_links.rs:379-443 | rebuilding each kind separately from a log with facts appended is applying those facts, in order, to the rebuilt set |
| LinkStore.PurgeIdempotent | crates/app/src/account_links.rs:517-532 | deleting the departed copies leaves none departed, so doing it again deletes nothing |
| LinkStore.PurgeKeepsAnswers | crates/app/src/account_links.rs:492-532 | deleting them changes no answer of waiting, copy_for or homes_holding for any provider and recipient |
| LinkStore.PurgeKeepsHomeView | crates/app/src/account_links.rs:1333-1353 | nor what any Home is told it holds |
| LinkStore.FoldRecords | crates/app/src/account_links.rs:379-404 | the fold loop leaves, for each id, the record of the last row stored under it, and nothing where that row was a tombstone or there is none |
| LinkStore.ScanCopies | crates/app/src/account_links.rs:801-845 | the loop over a request's copies finds the first fault, and otherwise exactly the devices sealed for, the copies kept and the Homes that do not serve |
| LinkStore.DecidePut | crates/app/src/account_links.rs:773-893 | the put decision as it runs: its first fact is the link as requested, one version on; its refusals are LinkAnswers.PutRefused and all it leaves LinkAnswers.PutLeaves |
| LinkStore.DecideAdd | crates/app/src/account_links.rs:897-933 | the add decision as it runs: each copy takes its recipient off the waiting list |
| LinkStore.Account.Handle | crates/app/src/account_links.rs:1251-1276 | reading, deciding and appending up to where the Hub stopped is exactly one step of the run model |
| LinkEffects.PutAdmitted | crates/app/src/account_links.rs:773-848 | a put is admitted exactly when its version, lease, classes, copies and coverage are in order |
| LinkEffects.PutEffect | crates/app/src/account_links.rs:849-893 | an admitted put leaves the link as requested, active and one version on, copies of the request's and no other copy of the provider, for Homes only if they serve and the request is for Homes, and no lease on it |
| LinkEffects.PutLeavesNoDeviceWaiting | crates/app/src/account_links.rs:801-891 | after an admitted put no trusted device waits for that link |
| LinkEffects.PutServes | crates/app/src/account_links.rs:565-569 | and each registered device is served exactly the copy sealed for it |
| LinkEffects.RevokeEffect | crates/app/src/account_links.rs:936-965 | a revocation keeps the version, deletes every copy and lease of the provider, and touches nothing else |
| LinkEffects.ForgetEffect | crates/app/src/account_links.rs:970-996 | forgetting a device deletes its key, its copies and its leases and nothing else |
| LinkEffects.RegisterEffect | crates/app/src/account_links.rs:717-756 | a new key replaces the old one and deletes that device's copies only; the same key changes nothing |
| LinkCoverage.AddAdmitted | crates/app/src/account_links.rs:897-933 | copies are admitted exactly for an active link at its version, sound, one each, for waiting recipients only |
| LinkCoverage.AddSettlesWaiting | crates/app/src/account_links.rs:897-933 | adding takes exactly the named recipients off the waiting list |
| LinkCoverage.AddAltersNothing | crates/app/src/account_links.rs:897-933 | and alters no copy that was there |
| LinkAnswers.PutRefused | crates/app/src/account_links.rs:773-848 | which refusal a put gets, the first that applies of stale version, another's lease, classes, no recipients, a bad copy, coverage, and what it tells: the current version, the lease, the first bad copy, exactly the devices left out and the recipients named for nothing, in order; and that otherwise it is admitted |
| LinkAnswers.PutLeaves | crates/app/src/account_links.rs:849-893 | the whole state after an admitted put, from the request: the link with its address, authentication, classes and time, one version on; of the provider's copies exactly the request's, without those for Homes when it is not for Homes; no lease on it; all else the same |
| LinkAnswers.PutReaches | crates/app/src/account_links.rs:492-569 | who then holds the version and who waits for it, device by device and Home by Home |
| LinkAnswers.AddRefused | crates/app/src/account_links.rs:897-933 | which refusal adding copies gets, naming the first copy in order that is unsound or not for a waiting recipient, and that otherwise it is admitted |
| LinkAnswers.RegisterAnswers | crates/app/src/account_links.rs:717-756 | who may register a key and which refusal others get |
| LinkAnswers.RevokeAnswers | crates/app/src/account_links.rs:936-965 | there being a link, whatever its state, is what revoking needs, and the whole state it leaves |
| LinkAnswers.LeaseAnswers | crates/app/src/account_links.rs:1000-1028 | who is granted a lease and which refusal others get; it lasts as long as asked within one millisecond and two minutes, and nothing else changes |
| LinkAnswers.CheckAnswers | crates/app/src/account_links.rs:1033-1061 | whose finding is recorded and which refusal others get; it is then what is shown, and nothing else changes |
| LinkAnswers.ServedExactly | crates/app/src/account_links.rs:492-569 | what a recipient is served: the copy under its name at the current version of an active link, if it is a trusted device, or a serving Home and the link is for Homes |
| LinkAnswers.HomeIsTold | crates/app/src/account_links.rs:1333-1353 | a Home that does not serve the person is told nothing; one that does, each link for Homes once, in listing order, as it stands, with the copy served to it |
| LinkRuns.OnlyHoldersAdd | crates/app/src/account_links.rs:1444-1459 | only a recipient that is served the current version may add copies of it for others |
| LinkRuns.NoResurrection | crates/app/src/account_links.rs:849-891 | over every run, wherever the Hub stopped inside any command: no copy outruns its link, versions never fall, and a superseded or revoked version is never again served to a device or a Home |
| LinkRuns.RevokedDeviceStaysOut | crates/app/src/account_links.rs:970-996 | once a device is distrusted and forgotten, no later state has a key, copy or lease for it, lists it waiting or serves it, unless it is enrolled again |
| LinkRuns.CrashFreeCoverage | crates/app/src/account_links.rs:330-332 | in every state reached without a stop each copy sits under its own id, belongs to an active link and carries its current version |
| LinkRuns.RegisterStop | crates/app/src/account_links.rs:717-756 | the part of a stop: copies of the device are left beside its new key exactly when the Hub stopped after the key and before the last tombstone |
| LinkKeys.KeysStayFresh | crates/app/src/account_links.rs:717-933 | over every run from nothing of commands, stops, Home key changes and Homes coming and going: at every point each copy for a registered recipient is sealed to that recipient's registered key, if and only if every copy written was sealed to the key its recipient was then listed with and no registration was stopped midway |
| LinkKeys.FreshIsServed | crates/app/src/account_links.rs:565-569 | in such a state every copy served is sealed to the registered key of the recipient it is served to |
| LinkKeys.StalePutIsServed | crates/app/src/account_links.rs:773-893 | an admitted put with a copy sealed to another key than the device's serves that copy and does not list the device as waiting |
| LinkKeys.StalePutRun | crates/app/src/account_links.rs:773-893 | a run from nothing, every command written to its end, that reaches such a state: sealed, then a new key registered, then put |
| LinkKeys.StoppedRegistrationStays | crates/app/src/account_links.rs:717-756 | after a registration stopped midway a stale copy is left, registering the same key again is admitted with nothing to write, and while that copy is current the device is served it, is not waiting and cannot be added a copy |
| LinkRuns.RunSafe | crates/app/src/account_links.rs:1251-1256 | every run of steps, each cut after any of its facts, keeps the invariant behind it: copies canonical and not ahead of their link, dead versions dead, devices that are out kept out |
| LinkRuns.DecisionAdmissible | crates/app/src/account_links.rs:717-1061 | each fact of each decision may follow the state the facts before it leave, which is what a stop between them relies on |
| LinkLeases.LeaseExclusion | crates/app/src/account_links.rs:1000-1028 | another device is granted a provider's lease only after the last grant to its holder expired, unless some step between deleted the lease |
| LinkLeases.LeaseEnds | crates/app/src/account_links.rs:849-996 | a lease is deleted only by an admitted put or revocation of its link or the removal of its holder, and by each of those written to its end |
| LinkLeases.LeaseBounded | crates/app/src/account_links.rs:1000-1028 | every lease held was granted by some step and expires within 120000 ms of it |
| LinkLeases.OnlyHolderAdvances | crates/app/src/account_links.rs:784-791 | only a put advances a version, and under an unexpired lease only its holder's |
| LinkChecks.ShownCheckWasReported | crates/app/src/account_links.rs:1033-1061 | every check shown was reported in the run, of the version still current, by a device that held that version then |
| LinkChecks.PutHidesCheck | crates/app/src/account_links.rs:557-562 | at every point of every run, a new version hides what was found of the one before |
| Seal.OpensExactly | crates/app/src/account_link_seal.rs:186-242 | a copy opens exactly for the recipient, key, account, provider and version it was sealed for, and gives back the secret |
| SealBytes.OpensAsDerived | crates/app/src/account_link_seal.rs:186-251 | opening derives the key a copy was sealed under exactly for the same account, provider, version, recipient and shared secret, which is where the symbolic copy opens when the two keys share different secrets |
| SealBytes.Utf8Injective | crates/app/src/account_link_seal.rs:244-247 | different names have different bytes |
| Seal.NameLimit | crates/app/src/account_link_seal.rs:249-251 | a name of letters can be sealed for exactly if it is 1 to 256 bytes long |
| Seal.SealAllProperties | crates/app/src/account_link_seal.rs:175-184 | sealing for a list gives one copy per recipient in order, each for its own key |
| LinkAgreement.Agreement | crates/app/src/account_links_sync.rs:247-454 | after any interleaving of any number of desktops' steps, local links and unlinks, authority commands and stops, a credential whose version is its mirror's local version holds exactly the secret published as the mirrored version |
| LinkAgreement.DesktopsAgree | crates/app/src/account_links_sync.rs:247-454 | two desktops in step at one version of a link hold the same secret |
| LinkAgreement.RunHolds | crates/app/src/account_links_sync.rs:231-245 | the invariant behind it, kept by every action: copies are truthful, publications final, threads and mirrors consistent |
| HomeAgreement.HomeAgrees | crates/app/src/account_links_sync.rs:940-1069 | over every interleaving of the steps of any number of a Home's reconciles, changes made on it, its stops, the desktops' steps and the authority's commands and stops, a credential the Home took, unchanged since, is the secret published as the version it mirrors |
| HomeAgreement.HomeAndDesktopAgree | crates/app/src/account_links_sync.rs:940-1069 | over the same interleavings a Home and a desktop that mirror one version of a link hold the same secret |
| LinkFixpoint.NoLostUpdate | crates/app/src/account_links_sync.rs:266-383 | a reconcile that succeeds publishes exactly the changed credentials and revokes exactly the unlinked ones; each published one is the next version, its copy opens here to what was published (for a device whose name can be sealed for), and it is not overwritten by anything taken |
| LinkFixpoint.Fixpoint | crates/app/src/account_links_sync.rs:247-383 | a second reconcile with nothing changed between publishes, takes, removes, revokes and seals nothing and changes no record at either end |
| LinkFixpoint.PublishPhaseEffect | crates/app/src/account_links_sync.rs:266-289 | everything is published or revoked before anything is taken, and afterwards every local credential is settled |
| LinkFixpoint.LinkPhaseEffect | crates/app/src/account_links_sync.rs:290-383 | the second pass leaves nothing of a listed link to take, remove or seal, and does not touch credentials that were up to date; what it takes, removes and seals is LinkReconciled.LinkPhaseOutcome |
| LinkOutcome.LinkStepOutcome | crates/app/src/account_links_sync.rs:292-381 | what one listed link comes to: taken, removed, sealed for the waiting, or nothing, and what is then held here and served there |
| LinkReconciled.LinkPhaseOutcome | crates/app/src/account_links_sync.rs:290-383 | of every link listed: taken exactly if this device is served a version its mirror does not name, and then the credential is active, holds what the copy opens to under that version and this device's key, with the link's address and classes, one local version on, and the mirror names both versions; removed exactly if it is revoked and mirrored; everyone waiting for a link this device holds is served what it opened, sealed to the key listed for them; nothing else; and what is reported of each |
| LinkReconciled.ReconcileLeaves | crates/app/src/account_links_sync.rs:247-383 | the same of a whole reconcile that succeeds, from the account once this device's key is registered: a credential changed here becomes the next version as it stands, and everyone it may go to is served its secret sealed to their listed key; one unlinked here is revoked and its record kept; of the rest what the second pass does |
| LinkReconciled.ReconcileReports | crates/app/src/account_links_sync.rs:247-383 | it reports as taken, removed, sealed for, published and revoked exactly what is, links taken and removed each once in listing order |
| LinkReconciled.PutServesAll | crates/app/src/account_links_sync.rs:419-440 | a credential published is served to every recipient listed, to Homes only if the credential is for them, each copy sealed to the recipient's listed key, and nobody waits |
| LinkReconciled.GrantsStayOffHomes | crates/app/src/account.rs:756-764 | a credential of a provider that signs in with a refresh grant is sealed for no Home, however it was linked; any other for those its classes allow |
| LinkSuccess.SucceedsExactly | crates/app/src/account_links_sync.rs:247-454 | a reconcile succeeds if and only if this device is trusted, every credential changed here has valid names, no other device's lease on it, classes that may be shared and room in a copy, and every link to take or seal opens under valid names, to text if it is taken, and fits a copy if somebody waits; an untrusted device's changes nothing |
| LinkRefines.ReconcileActs | crates/app/src/account_links_sync.rs:247-454 | every reconcile, failing or not, is a run of the interleaved steps: reading, sealing, putting, noting, fetching, storing, adding |
| LinkRefines.ReconcileAgrees | crates/app/src/account_links_sync.rs:247-454 | so agreement outlasts it: afterwards a credential here that stands as its mirror says holds the secret published as that version |
| Desktop.Desk.Publish | crates/app/src/account_links_sync.rs:403-454 | publishing one credential as it runs against the account object |
| Desktop.Desk.Reconcile | crates/app/src/account_links_sync.rs:247-383 | the loops of reconcile, with the recipients asked for once, leave exactly the state, report and failure of the reconcile function, which LinkReconciled.ReconcileLeaves, LinkReconciled.ReconcileReports and LinkSuccess.SucceedsExactly describe |
| HomeSync.HomeOutcome | crates/app/src/account_links_sync.rs:940-1069 | for any answer and any provider: exactly when it is taken, exactly when it is removed, what is then held, and that otherwise its credential is unchanged |
| HomeAnswers.HomeReports | crates/app/src/account_links_sync.rs:940-1069 | what is reported, in order: of the links listed, each copy for this Home tried and not opened with its reason, and each taken; of the names mirrored, each unchanged credential the account no longer gives |
| HomeAnswers.FailedExactly | crates/app/src/account_links_sync.rs:984-1010 | a provider is reported failed for a reason exactly if a listed copy of it was tried and has that fault |
| HomeAnswers.OpenExactly | crates/app/src/account_links_sync.rs:990-1000 | which fault a copy has, names, key, opening and text in that order, and that without one it opens to text |
| HomeSync.OwnStays | crates/app/src/account_links_sync.rs:951-983 | a reconcile nobody disturbs never changes a credential the person made or changed on the Home |
| HomeSteps.AloneIsReconcile | crates/app/src/account_links_sync.rs:940-1069 | run step by step with nobody else writing, the reconcile leaves the same records and report as the function |
| HomeSteps.Nearer | crates/app/src/account_links_sync.rs:940-1069 | every step brings a reconcile nearer its end, whatever others do in between |
| HomeSteps.OwnAtTheWrite | crates/app/src/account_links_sync.rs:949-1067 | whatever changed since the reconcile read the Home: a step changes a held credential exactly when it writes it, it writes only what it had not read as the person's own, and so never what is the person's own as it was read |
| HomeOwnership.PersonalStays | crates/app/src/account_links_sync.rs:940-1069 | over every run, a credential of the person's own that no reconcile under way can still write stays theirs until they unlink it, the same record unless they link it anew |
| HomeOwnership.OutlivesExactly | crates/app/src/account_links_sync.rs:949-1067 | a held credential whose version nothing notes is the same record after every continuation in which the person does not touch it, if and only if no reconcile under way can still write it: one with a listed copy left that opens and was neither the person's own nor held when it read the Home, one that will remove it, or one that may yet read a mirror that makes it either |
| HomeOwnership.LinkedOutlives | crates/app/src/account_links_sync.rs:940-1069 | the same of a link made on the Home at any point of any run from nothing |
| HomeOwnership.AdvanceToWrite | crates/app/src/account_links_sync.rs:960-1067 | advanced alone, a reconcile that can write the credential comes to write it, and leaves it as it was until then |
| HomeLosses.LateLinkIsOverwritten | crates/app/src/account_links_sync.rs:1011-1027 | a run from an account with nothing: a link made after a reconcile read the Home and before it stores that provider is overwritten with what the account gave |
| HomeLosses.LateRotationIsRemoved | crates/app/src/account_links_sync.rs:1041-1065 | a run from an account with nothing: a credential the Home took, rotated by the person after a reconcile read it and before it removes it, is removed |
| HomeOwnership.StoppedStoreStays | crates/app/src/account_links_sync.rs:1011-1038 | a Home that stops between storing a secret and noting its version keeps that credential through every later run as the person's own |
| HomeSync.NothingUngivenStays | crates/app/src/account_links_sync.rs:1041-1067 | no unchanged credential taken from the account is left for a provider it no longer gives this Home |
| HomeSync.AgainDoesNothing | crates/app/src/account_links_sync.rs:940-1069 | asked again with the same answer, whatever it held, a Home removes nothing, and takes nothing if and only if of every provider not the person's own the copies that open are of one version; then it changes no record |
| HomeSync.AgainNotServing | crates/app/src/account_links_sync.rs:940-1069 | told again that it does not serve the person, a Home does nothing |
| HomeSync.DisagreeingTakesAgain | crates/app/src/account_links_sync.rs:984-1040 | where two openable copies of one provider differ in version it takes again, whatever it held, exactly when that provider was not the person's own |
| HomeSync.AuthorityAgrees | crates/app/src/account_links.rs:1333-1353 | in every answer of the authority's the copies of one provider are of one version |
| HomeSync.UnlinkedIsTakenAgain | crates/app/src/account_links_sync.rs:951-989 | a credential unlinked on the Home is taken again when a listed copy opens |
| HomeSync.Home.Reconcile | crates/app/src/account_links_sync.rs:940-1069 | the loops refine the function, and nothing is written when the account gives no answer |
| HomeRekey.PageIsSlice | crates/store/src/lib.rs:2800-2822 | the page after any scope is the next slice of the whole ordered listing |
| HomeRekey.SweepLeavesNone | crates/app/src/account_links.rs:195-254 | the commit leaves no live copy naming the Home in any account, every other live copy and every other scope as it was |
| HomeRekey.NoneNamesHome | crates/app/src/account_links.rs:195-254 | in each account the copies left live are exactly those that were live and do not name the Home, unchanged |
| HomeRekey.LiveIsLast | crates/app/src/account_links.rs:215-221 | a copy is live exactly if the last row of its id stores it |
| HomeRekey.AccountScopes | crates/app/src/account_links.rs:208-214 | the scopes swept are the local account's and each named person's |
| HomeRekey.TenantsApart | crates/app/src/org.rs:741-747 | two tenants share a key scope only where both are the default one, and none is an account's |
| HomeRekey.HubStore.Discover | crates/app/src/account_links.rs:195-239 | the paged loop ends and finds exactly the copies one pass over all account scopes would |
| HomeRekey.HubStore.RecordHomeKey | crates/app/src/account_links.rs:159-256 | when a key is recorded, known or refused, that a refusal writes nothing, and what the one commit leaves of copies and keys |
| HomeRekey.SameKeyAgain | crates/app/src/account_links.rs:172-187 | recording the same key again writes nothing, whatever copies came since |
| Custody.ErasureTrace | crates/app/src/account_auth_custody.rs:319-595 | every log has at most eight events, started, completed, fenced, then bearers and related scopes before the key, the directory anywhere, erased last, none twice |
| CustodyAnswers.CommandAnswers | crates/app/src/account_auth_custody.rs:319-496 | after any run, every command gets the answer the events on record call for: the event it adds with its identities, a silent yes, or which refusal |
| CustodyAnswers.FenceAdded | crates/app/src/account_auth_custody.rs:370-401 | a fence is added exactly if nothing blocks it, the move is complete, there is none yet and no identity is blank |
| CustodyAnswers.EventWasAsked | crates/app/src/account_auth_custody.rs:319-496 | every event on record was added by a command that asked for it, with its identities trimmed, a fence by one that nothing blocked |
| Custody.FencedForever | crates/app/src/account_auth_custody.rs:209-211 | sign-in is possible exactly while no fence is in the log, and never again after one |
| Custody.EveryLegalOrder | crates/app/src/account_auth_custody.rs:319-595 | every order that respects the dependencies is admitted event by event, and the standing depends only on which events happened |
| Custody.OneErasedStanding | crates/app/src/account_auth_custody.rs:498-595 | every complete order ends in one and the same erased standing |
| Custody.RetryIsSilent | crates/app/src/account_auth_custody.rs:319-496 | an admitted command repeated at once adds nothing if its identities were trimmed and is refused if not |
| CustodyCatalog.CatalogIsPerAccount | crates/app/src/account_auth_custody.rs:97-111 | the rebuilt catalog holds for each account what its own events make of it |
| CustodyCatalog.AccountsAreIndependent | crates/app/src/account_auth_custody.rs:186-203 | an account's events in the global log are those of its own commands alone |
| CustodyCatalog.UntrimmedNameRestarts | crates/app/src/account_auth_custody.rs:73-79 | n starts under an untrimmed account name are all admitted and recorded under the trimmed one, which is a log the state machine allows only for one |
| CustodyCatalog.Catalog.Rebuild | crates/app/src/account_auth_custody.rs:97-131 | the rebuild loop gives that catalog, or reports an unreadable row |
| AuthProjection.CurrentLookup | crates/app/src/account_auth.rs:406-447 | record by record, what the full read gives: the last scope with a row, unless fenced, or the legacy scope for accounts that have not moved |
| AuthProjection.NarrowIffNotOverridden | crates/app/src/account_auth.rs:454-470 | the read for one account equals the full read's account if and only if under no id do the rows it is read from end in a live record of its own while a scope folded later has a row there |
| AuthProjection.NarrowIsFull | crates/app/src/account_auth.rs:430-470 | so they are equal in every store without ids shared by two accounts, whatever the account's standing |
| AuthMoves.CopyIsExact | crates/app/src/account_auth.rs:744-803 | folding facts_for_account into an empty projection gives exactly retain_account |
| AuthMoves.AppendRefines | crates/app/src/account_auth.rs:1234-1330 | rebuilding after a routed append is folding the facts into the previous projection |
| AuthRuns.MoveKeeps | crates/app/src/account_auth.rs:1272-1293 | committing the copied facts with the start of the migration changes no account's current projection |
| AuthRuns.FenceTakesOut | crates/app/src/account_auth.rs:434-446 | a fence takes exactly its account's records out; other custody events change nothing |
| AuthRuns.StoreIsMemory | crates/app/src/account_auth.rs:406-470 | from an empty store, after any run of writes, migrations and erasures, the full read is the one projection the same run keeps in memory and the narrow read its part |
| AuthRuns.NeverLegacyAgain | crates/app/src/account_auth.rs:1299-1330 | once a migration has started nothing of that account reaches the legacy scope, in any run |
| AuthRuns.ReleasedIdSplitsTheReads | crates/app/src/account_auth.rs:954-966 | an id let go by a moved account and recorded by one still in the legacy scope makes the two reads differ |
| AuthRuns.ReleasedIdIsReached | crates/app/src/account_auth.rs:954-966 | a run from the empty store, through the append and the admitted decision to verify the address, that ends so |
| AuthRuns.ErasedIdIsReached | crates/app/src/account_auth.rs:430-446 | a run from the empty store through a move and an erasure: the erased account's address is verified for another still in the legacy scope, and the full read does not give that record while the read for its holder does |
| AuthLedger.KindByKind | crates/app/src/account_auth.rs:504-566 | folding a scope kind by kind is folding its rows in the order written |
| AuthLedger.Projection.ReadCurrent | crates/app/src/account_auth.rs:406-447 | the full read in place, loop by loop |
| AuthLedger.Projection.ReadFor | crates/app/src/account_auth.rs:454-470 | the narrow read in place |
| AuthLedger.Ledger.Append | crates/app/src/account_auth.rs:1234-1330 | a batch is routed and appended whole, or refused whole when any fact is past a fence |
| AuthMethods.MethodsAreSafe | crates/app/src/account_auth.rs:1037-1203 | over every run of decisions and erasures: at most one current recovery batch per account; of every account not erased between, passkeys, subjects and active addresses keep their account, an active passkey is kept, replaced batches and used codes stay so |
| AuthAnswers.WorksExactly | crates/app/src/account_auth.rs:954-1231 | after every such run a passkey, subject, address or recovery code works for an account if and only if an admitted command gave it to that account and none since revoked, unlinked, used or replaced it or erased the account |
| AuthAnswers.RevokePasskeyAnswers | crates/app/src/account_auth.rs:1049-1068 | a passkey of the account's may be revoked unless it is its last working one, with the refusal otherwise; it then no longer works and nothing else changes |
| AuthAnswers.UsePasskeyAnswers | crates/app/src/account_auth_ceremony.rs:1225-1236 | a sign-in is taken from a working passkey of that account alone and stores the new verifier |
| AuthAnswers.AddPasskeyAnswers | crates/app/src/account_auth.rs:1037-1047 | a passkey is added unless its id is another account's |
| AuthAnswers.LinkSubjectAnswers | crates/app/src/account_auth.rs:1070-1080 | a subject is linked unless it is another account's, revoked or not |
| AuthAnswers.UnlinkSubjectAnswers | crates/app/src/account_auth.rs:1145-1161 | a subject of the account's may always be unlinked, and asking again changes nothing |
| AuthAnswers.VerifyEmailAnswers | crates/app/src/account_auth.rs:954-966 | an address is verified unless it works for another account |
| AuthAnswers.ConsumeCodeAnswers | crates/app/src/account_auth.rs:1205-1231 | a recovery code is taken exactly if it works, which refusal it gets otherwise, and it is then marked used |
| AuthAnswers.ReplaceCodesAnswers | crates/app/src/account_auth.rs:1165-1203 | codes are replaced exactly if there are some, all of the named account and batch, and the whole state that leaves |
| AuthMethods.ErasedIdsAreFree | crates/app/src/account_auth.rs:585-601 | an erased account's passkey and subject ids, refused to another account before, are admitted for it after |
| AuthMethods.CodeUsedOnce | crates/app/src/account_auth.rs:1205-1231 | a code used, or whose batch was replaced, is refused ever after while its account is not erased |
| AuthMethods.UseLowersByOne | crates/app/src/account_auth.rs:685-702 | an admitted use lowers the unused count by exactly one, of that account only |
| AuthMethods.ReplacedCodes | crates/app/src/account_auth.rs:1165-1203 | what any admitted replacement leaves: one current batch, as usable codes the new ones and the unused ones of an earlier batch of that id, and of other accounts' codes all whose batch and id were not used again |
| AuthMethods.ReplacedCodesAreTheNewOnes | crates/app/src/account_auth.rs:1165-1203 | so exactly the new codes are usable if and only if nothing unused is left of a batch of that id, which is always so for a new id |
| AuthMethods.ReissuedIsUsableAgain | crates/app/src/account_auth.rs:1165-1203 | a used code is usable after a replacement exactly when its id was issued again |
| AuthMethods.ReusedBatchRevives | crates/app/src/account_auth.rs:1165-1203 | a batch id used again, replaced or still current, leaves that batch's unused codes usable beside the new ones |
| Ceremony.OneChallenge | crates/app/src/account_auth_ceremony.rs:519-628 | one email challenge judges at most five wrong codes and yields at most one ticket, whatever happens around it, restarts included |
| CeremonyCodes.CodeIsJudged | crates/app/src/account_auth_ceremony.rs:519-628 | after any run a code mints a ticket if and only if it is, trimmed, the one sent under that challenge's name, still awaited, for the same purpose, fewer than 600 seconds ago, with room; the ticket carries the address it was sent to; it is judged wrong if and only if only the code differs |
| CeremonyCodes.EmailHistory | crates/app/src/account_auth_ceremony.rs:519-628 | what is pending under a challenge's name is what was last sent under it, one attempt less for each wrong guess since, until it is answered, guessed at five times, expired, given up or lost |
| CeremonyCodes.TicketProvesAddress | crates/app/src/account_auth_ceremony.rs:582-628 | taking a ticket gives an address if and only if a code sent to that address was answered in time under that ticket's name fewer than 300 seconds before and nobody has taken it since |
| CeremonyCodes.RecoveryIsJudged | crates/app/src/account_auth_ceremony.rs:630-738 | a recovery is judged if and only if a recovery challenge is awaited and in time, and which attempt it then puts on record for the address it was sent to, charged to whom |
| CeremonyAnswers.ProofIsGood | crates/app/src/account_auth_ceremony.rs:1249-1294 | after any run a presented proof is good if and only if it was issued for that account and operation, names trimmed, fewer than 300 seconds before, and since then nobody presented it, the process did not restart, and nothing swept past its expiry; it is gone afterwards either way |
| CeremonyAnswers.ProofLasts | crates/app/src/account_auth_ceremony.rs:1249-1294 | with a clock that does not step back an issued proof is good for 300 seconds unless presented, lost or issued anew |
| Ceremony.SpentOnce | crates/app/src/account_auth_ceremony.rs:1249-1294 | a ticket or proof is spent at most once, across restarts as well |
| Ceremony.AlwaysBounded | crates/app/src/account_auth_ceremony.rs:536-543 | at most 512 challenges, tickets and proofs are ever pending |
| RecoveryLimit.RecoveryIsLimited | crates/app/src/account_auth_ceremony.rs:638-703 | any inclusive 900 seconds hold at most five invalid recovery proofs per target for each fence, plus one, that took some of them out of the projection, however the clock runs |
| RecoveryLimit.RecoverySpan | crates/app/src/account_auth_ceremony.rs:2698-2703 | for every start, span and number of such fences: every run stays within that bound if and only if the span is at most 900 seconds |
| RecoveryLimit.FencesAreTight | crates/app/src/account_auth.rs:585-601 | for every number of fences a run of one second that reaches the bound |
| RecoveryLimit.FenceIsMore | crates/app/src/account_auth.rs:430-446 | with one fence, ten invalid proofs for one target in one second |
| RecoveryLimit.AttemptsAreProjected | crates/app/src/account_auth.rs:553-601 | the attempts counted are the projection's: recording one folds its fact in, a fence removes the account's |
| MailLimit.MailIsLimited | crates/app/src/account_auth_ceremony.rs:2547-2588 | in a run of a clock that never steps back, any span shorter than a day, both ends included, holds at most twenty admitted invitation emails of one account for each restart in it, plus one |
| MailLimit.MailIsAdmitted | crates/app/src/account_auth_ceremony.rs:2547-2588 | after any run of such a clock an invitation email is admitted exactly if fewer than twenty of the account's were in the last day since the process started |
| MailLimit.MailSpan | crates/app/src/account_auth_ceremony.rs:2547-2588 | for every start, span and number of restarts: every run stays within that bound if and only if the span is shorter than 86400 seconds |
| MailLimit.RestartsAreTight | crates/app/src/account_auth_ceremony.rs:443-478 | for every number of restarts a run of one second that reaches the bound |
| MailLimit.RestartIsMore | crates/app/src/account_auth_ceremony.rs:443-478 | with one restart, forty in one second of a clock that stands still |
| MailLimit.BothEndsIsMore | crates/app/src/account_auth_ceremony.rs:2651-2673 | one more is admitted 86400 seconds later |
| MailLimit.ClockBackIsMore | crates/app/src/account_auth_ceremony.rs:2547-2588 | a clock back at the first second admits a twenty-first there |
| Ceremony.Runtime.BeginEmail | crates/app/src/account_auth_ceremony.rs:519-575 | starting a challenge in place: which result it gives, and that the challenge then has its address, purpose, code, five attempts and 600 seconds |
| Ceremony.Runtime.CompleteEmail | crates/app/src/account_auth_ceremony.rs:588-628 | completing a challenge in place: a ticket for the address, wrong code, no room, or nothing due, exactly when each, from the challenge as it was |
| Ceremony.Runtime.TakeVerified | crates/app/src/account_auth_ceremony.rs:582-586 | a ticket is taken out whoever presents it and gives its address while it lasts |
| Ceremony.Runtime.FinishRecovery | crates/app/src/account_auth_ceremony.rs:630-738 | recovery in place, every judged attempt recorded in the projection with the account it is charged to, and success exactly where the attempt recorded says so |
| Ceremony.Runtime.Issue | crates/app/src/account_auth_ceremony.rs:1249-1276 | which result issuing a proof gives, and that it is then held for the trimmed names and 300 seconds |
| Ceremony.Runtime.Consume | crates/app/src/account_auth_ceremony.rs:1281-1293 | a proof is taken out whoever presents it and is good exactly for its account and operation before it expires |
| Ceremony.Runtime.Invite | crates/app/src/account_auth_ceremony.rs:2547-2588 | admission of an invitation email in place, after the sweep |
| Keys.NothingOrEverything | crates/app/src/account_keys.rs:68-101 | with stops at any file step of any operations before, held answers nothing or a complete set delegated by the stored root to the stored device and verifying now |
| Keys.KeysOfOneWrite | crates/app/src/account_keys.rs:167-186 | over operations that do not overlap, the keys held were all written by one and the same write |
| Keys.OverlappingWritesMix | crates/app/src/account_keys.rs:167-186 | two writes that both saw no root can leave the root of one beside the keys of the other |
| Keys.RootNeverReplaced | crates/app/src/account_keys.rs:160-174 | once held, no operation replaces the root, the account key or the device key |
| Keys.RetrySucceeds | crates/app/src/account_keys.rs:103-186 | after any stops that left no root, writing again succeeds and is what is then held |
| Keys.HeldAsWritten | crates/app/src/account_keys.rs:106-152 | once keys are minted or restored to the end, what is held is that root and device, the account key that follows from the root and the root's delegation to the device for 400 days, renewed if it has lapsed when read |
| Keys.HeldAsAdopted | crates/app/src/account_keys.rs:163-186 | and once keys are adopted, those keys, with their delegation where it is theirs and has not lapsed |
| Keys.HeldFails | crates/app/src/account_keys.rs:68-81 | whatever is on disk, held answers nothing without a root, and otherwise fails exactly if the root, the account key or the device key is missing or not whole, as the first of them that is |
| Keys.HeldRenews | crates/app/src/account_keys.rs:68-101 | reading to the end leaves on disk the delegation it answers with, the one there if it is good, and answers the same again |
| Keys.KeyStore.Write | crates/app/src/account_keys.rs:167-186 | the write as file steps, refusing where a root is held |
| Keys.KeyStore.HeldHere | crates/app/src/account_keys.rs:68-101 | reading the keys as file steps, renewing a delegation that lapsed |
| Encoding.CopyKeyInputInjective | crates/app/src/account_link_seal.rs:233-247 | the input of the copy key derivation determines account, provider, version, recipient and shared secret |
| Encoding.KeyInputRoundTrip | crates/app/src/account_link_seal.rs:233-247 | reading the input back, after its domain, gives account, provider, version and recipient in that order and then the shared secret |
| Encoding.FramedInjective | crates/app/src/account_auth.rs:1395-1403 | length-prefixed parts can be told apart, whatever follows |
| Encoding.CopyIdOrder | crates/app/src/account_links.rs:330-332 | copy ids sort by provider and then by recipient |
| Encoding.CopyIdInjective | crates/app/src/account_links.rs:330-332 | one copy id names one provider and one recipient |

## Left out

- HTTP handlers, sessions, cookies, JSON shapes and the network clients: the calls are steps, their transport is not modelled.
- Cryptography and randomness: symbolic terms and parameters, as said above.
- SQLite, the content vault and key wrapping: append-only rows per scope, with one atomic multi-append and an ordered paged listing.
- A row that cannot be read, outside the Home key rotation and the custody catalog: the reads modelled are of rows that parse.
- `migrate_held_links`: appears in the interleaving as a put made elsewhere; its loop over held credentials is not modelled.
- `before_refresh_with` and the waiting, offline and background loops: lease exclusion is stated at the authority, and nothing is claimed of when a refresh token is spent.
- `open_copy`'s missing key file and local sealing failures in reconcile: the desktop is taken to hold its key and to be able to store what it opened.
- The other pending ceremonies (registrations, authentications, authorizations, added passkeys): each is a map entry taken once, like the tickets and proofs modelled.
- `decide_backlink_legacy_consumer_subject` and `decide_login_email`: each yields one fact that `decide_link_external_subject` or `decide_verify_email` admits.
- Refresh grants, the Account projection's Home routes, credential references, avatars, organisations and `erase_account_in`: not part of this model.
- Directory flushes after a rename: a rename is taken to be durable once done.
- LinkRuns.RevokedDeviceStaysOut: starts from the whole of `forget_device` applied after the device was distrusted; between the two the device is already unserved because it is not active.
- LinkFixpoint.Fixpoint: with no change by anyone else between the two runs; runs with other desktops in between are what LinkAgreement covers.
- LinkReconciled.ReconcileLeaves: of a reconcile nobody disturbs; what holds with others' steps between its own is LinkAgreement.Agreement, of which a reconcile is one run.
- LinkSuccess.SucceedsExactly: the network answers, and what is opened can be stored here.
- AuthAnswers.WorksExactly: for commands as the shell makes them, new records active and batch and code ids new; what ids used again do is AuthMethods.ReplacedCodes.
- AuthRuns.StoreIsMemory: for custody commands that name accounts by their trimmed ids and record ids not shared by two accounts; what happens otherwise is stated by the lemmas listed above.
- AuthMethods.MethodsAreSafe: on the projection a run keeps in memory; that the store read back is that projection is AuthRuns.StoreIsMemory, for ids not shared by two accounts, and an id reused after an erasure is shared.
