/** One desktop's reconcile against the authority when nothing else changes: what it
    publishes, takes, removes and seals, that it loses no local change, and that running
    it again does nothing. */
module LinkSync {
  import opened Base
  import opened Order
  import opened Links
  import opened LinkEffects
  import opened LinkCoverage
  import opened LinkRuns
  import opened LinkStore
  import opened Seal
  import opened Credentials

  /** This desktop's session: the account, the trusted device it is, its recipient key. */
  datatype Config = Config(account: string, device: string, key: PublicKey)

  datatype State = State(hub: LinkSet, local: Local)

  datatype Failure = Refused(why: LinkRefusal) | NoLocalLink | InvalidContext | DidNotOpen | NotText

  /** What one reconcile did. */
  datatype Reconciled = Reconciled(taken: seq<string>, removed: seq<string>, sealedFor: seq<(string, string)>,
                                   published: seq<string>, revoked: seq<string>)

  const NothingDone := Reconciled([], [], [], [], [])

  /** A reconcile under way, or stopped by the first failure. */
  datatype Run = Run(st: State, done: Reconciled, failure: Option<Failure>)

  // ---- calls to the authority ----------------------------------------------------------

  /** Listing the links also deletes the copies nobody may hold any more. */
  function Purged(hub: LinkSet): LinkSet {
    ApplyAll(hub, DepartedCopies(hub))
  }

  function Commit(hub: LinkSet, d: Decision): LinkSet {
    if d.Ok? then ApplyAll(hub, d.value) else hub
  }

  /** The put a desktop makes of its credential, sealed for every recipient. */
  function PutOf(cfg: Config, hub: LinkSet, provider: string, cred: Credential): PutRequest
    requires cred.token.Some?
  {
    var current := hub.CurrentVersion(provider);
    var copies := SealAll(Context(cfg.account, provider, current + 1), Text(cred.token.value),
                          hub.AllRecipients(), Names(hub.AllRecipients().Keys));
    PutRequest(current, cred.baseUrl, cred.authentication, cred.classes, copies)
  }

  /** Make the credential held here the account's next version. */
  function PublishRecord(cfg: Config, st: State, provider: string, now: nat): (State, Option<Failure>) {
    if !(provider in st.local.creds && st.local.creds[provider].Usable()) then (st, Some(NoLocalLink))
    else
      var cred := st.local.creds[provider];
      var hub := Purged(st.hub);
      var version := hub.CurrentVersion(provider) + 1;
      if MakeContext(cfg.account, provider, version).None? then (State(hub, st.local), Some(InvalidContext))
      else
        var d := PutLink(hub, provider, Some(cfg.device), PutOf(cfg, hub, provider, cred), now);
        if d.Err? then (State(hub, st.local), Some(Refused(d.error)))
        else (State(Commit(hub, d), Mirrored(st.local, provider, Mirror(cfg.account, version, cred.version))), None)
  }

  /** Revoke the link at the account, where there being no such link is no failure. */
  function Revoke(hub: LinkSet, provider: string, now: nat): LinkSet {
    Commit(hub, RevokeLink(hub, provider, now))
  }

  // ---- what changed here first -----------------------------------------------------------

  /** Whether a local credential is one the account has not heard of. */
  predicate Changed(local: Local, provider: string) {
    provider in local.creds && local.creds[provider].Usable()
    && (provider in local.mirrors ==> local.mirrors[provider].localVersion != local.creds[provider].version)
  }

  /** Whether a credential the account gave or was given was unlinked here. */
  predicate Unlinked(local: Local, provider: string) {
    provider in local.creds && !local.creds[provider].Usable() && provider in local.mirrors
  }

  /** One provider of the first pass, judged by what was read before the pass. */
  function PublishStep(cfg: Config, seen: Local, now: nat, run: Run, provider: string): Run {
    if run.failure.Some? then run
    else if Changed(seen, provider) then
      var (st, failure) := PublishRecord(cfg, run.st, provider, now);
      if failure.Some? then Run(st, run.done, failure)
      else Run(st, run.done.(published := run.done.published + [provider]), None)
    else if Unlinked(seen, provider) then
      Run(State(Revoke(run.st.hub, provider, now), Unmirrored(run.st.local, provider)),
          run.done.(revoked := run.done.revoked + [provider]), None)
    else run
  }

  function PublishPhase(cfg: Config, seen: Local, now: nat, run: Run, providers: seq<string>): Run {
    if providers == [] then run
    else PublishStep(cfg, seen, now, PublishPhase(cfg, seen, now, run, providers[..|providers| - 1]),
                     providers[|providers| - 1])
  }

  // ---- then what the account holds ----------------------------------------------------------

  /** One link as the authority lists it to this device. */
  datatype Summary = Summary(provider: string, version: nat, status: LinkStatus, hasCopy: bool, waiting: set<string>)

  function Summarize(cfg: Config, hub: LinkSet, provider: string): Summary
    requires provider in hub.links
  {
    Summary(provider, hub.links[provider].version, hub.links[provider].status,
            hub.CopyFor(provider, cfg.device).Some?, hub.Waiting(provider))
  }

  predicate Behind(mirrors: map<string, Mirror>, link: Summary) {
    link.provider in mirrors ==> mirrors[link.provider].version != link.version
  }

  function OpenHere(cfg: Config, hub: LinkSet, provider: string): Result<Secret, Failure>
    requires hub.CopyFor(provider, cfg.device).Some?
  {
    match MakeContext(cfg.account, provider, hub.links[provider].version)
    case None => Err(InvalidContext)
    case Some(context) =>
      match OpenCopy(context, cfg.key, hub.CopyFor(provider, cfg.device).value)
      case Ok(secret) => Ok(secret)
      case Err(_) => Err(DidNotOpen)
  }

  /** Store a taken secret and note the version it mirrors. */
  function Take(cfg: Config, hub: LinkSet, local: Local, provider: string, text: string): Local
    requires provider in hub.links
  {
    var link := hub.links[provider];
    var stored := Upserted(local, provider, text, link.baseUrl, link.classes);
    Mirrored(stored, provider, Mirror(cfg.account, link.version, stored.creds[provider].version))
  }

  /** The copies sealed for the waiting recipients. */
  function ForWaiting(cfg: Config, hub: LinkSet, provider: string, version: nat, secret: Secret, waiting: set<string>)
    : seq<SealedCopy>
  {
    SealAll(Context(cfg.account, provider, version), secret, hub.AllRecipients(),
            Names(hub.AllRecipients().Keys * waiting))
  }

  function Pairs(provider: string, names: seq<string>): seq<(string, string)> {
    if names == [] then [] else [(provider, names[0])] + Pairs(provider, names[1..])
  }

  /** Seal a link for the recipients still waiting for one. */
  function SealWaiting(cfg: Config, run: Run, link: Summary, secret: Secret): Run
    requires link.provider in run.st.hub.links
  {
    var hub := run.st.hub;
    var names := Names(hub.AllRecipients().Keys * link.waiting);
    var version := hub.links[link.provider].version;
    var d := AddCopies(hub, link.provider, version, ForWaiting(cfg, hub, link.provider, version, secret, link.waiting));
    if d.Err? then run.(failure := Some(Refused(d.error)))
    else Run(State(Commit(hub, d), run.st.local),
             run.done.(sealedFor := run.done.sealedFor + Pairs(link.provider, names)), None)
  }

  /** One link of the second pass, judged by the mirrors read before the pass. */
  function LinkStep(cfg: Config, mirrors: map<string, Mirror>, run: Run, link: Summary): Run {
    var p := link.provider;
    if run.failure.Some? then run
    else if link.status == Revoked then
      if p in mirrors then
        Run(State(run.st.hub, Unmirrored(Removed(run.st.local, p), p)),
            run.done.(removed := run.done.removed + [p]), None)
      else run
    else if !link.hasCopy then run
    else if !Behind(mirrors, link) && link.waiting == {} then run
    else if run.st.hub.CopyFor(p, cfg.device).None? then run
    else
      var opening := OpenHere(cfg, run.st.hub, p);
      if opening.Err? then run.(failure := Some(opening.error))
      else if Behind(mirrors, link) && !opening.value.Text? then run.(failure := Some(NotText))
      else
        var taken :=
          if Behind(mirrors, link) then
            Run(State(run.st.hub, Take(cfg, run.st.hub, run.st.local, p, opening.value.text)),
                run.done.(taken := run.done.taken + [p]), None)
          else run;
        if link.waiting == {} then taken else SealWaiting(cfg, taken, link, opening.value)
  }

  function LinkPhase(cfg: Config, listed: LinkSet, mirrors: map<string, Mirror>, run: Run, providers: seq<string>): Run
    requires forall p | p in providers :: p in listed.links
  {
    if providers == [] then run
    else LinkStep(cfg, mirrors, LinkPhase(cfg, listed, mirrors, run, providers[..|providers| - 1]),
                  Summarize(cfg, listed, providers[|providers| - 1]))
  }

  /** The second pass, over the links listed once and the mirrors read again. */
  function TakePhase(cfg: Config, run: Run): Run {
    if run.failure.Some? then run
    else LinkPhase(cfg, run.st.hub, run.st.local.mirrors, Run(State(Purged(run.st.hub), run.st.local), run.done, None),
                   Names(run.st.hub.links.Keys))
  }

  /** Bring this desktop's links in step with the account. */
  function Reconcile(cfg: Config, st: State, now: nat): Run {
    var d := RegisterRecipient(st.hub, cfg.device, Point(cfg.key), now);
    if d.Err? then Run(st, NothingDone, Some(Refused(d.error)))
    else
      var st1 := State(Commit(st.hub, d), st.local);
      TakePhase(cfg, PublishPhase(cfg, st1.local, now, Run(st1, NothingDone, None), Names(st1.local.creds.Keys)))
  }

  // ---- frames -----------------------------------------------------------------------------

  /** The devices, Homes and keys are the same. */
  ghost predicate SamePeople(h: LinkSet, h': LinkSet) {
    h'.recipients == h.recipients && h'.activeDevices == h.activeDevices && h'.homes == h.homes
  }

  /** Every answer about one provider is the same. */
  ghost predicate SameAnswers(h: LinkSet, h': LinkSet, q: string) {
    && (q in h'.links <==> q in h.links)
    && (q in h.links ==> h'.links[q] == h.links[q])
    && (forall r :: h'.CopyFor(q, r) == h.CopyFor(q, r))
    && h'.Waiting(q) == h.Waiting(q)
  }

  /** A change to the authority that keeps its safety and, for every other provider, its
      answers. */
  ghost predicate Only(h: LinkSet, h': LinkSet, p: string) {
    CrashSafe(h') && SamePeople(h, h') && forall q | q != p :: SameAnswers(h, h', q)
  }

  lemma PurgeOnly(h: LinkSet)
    requires CrashSafe(h)
    ensures CrashSafe(Purged(h)) && SamePeople(h, Purged(h)) && Purged(h).links == h.links
    ensures forall q :: SameAnswers(h, Purged(h), q)
    ensures Purged(h).DepartedKeys() == {}
  {
    PurgeEffect(h);
    TombstonesDelete(h, Keys(h.DepartedKeys()));
    DeletionsAdmissible(h, DepartedCopies(h));
    AdmissibleSafe(h, DepartedCopies(h));
    forall q
      ensures SameAnswers(h, Purged(h), q)
    {
      PurgeKeepsAnswers(h, q);
    }
  }

  lemma VersionOnly(h: LinkSet, h': LinkSet, link: LinkRecord, kept: seq<SealedCopy>)
    requires CrashSafe(h') && Versioned(h, h', link, kept)
    ensures Only(h, h', link.id)
  {
    forall q | q != link.id
      ensures SameAnswers(h, h', q)
    {
      forall r
        ensures h'.CopyFor(q, r) == h.CopyFor(q, r)
        ensures r in h'.Waiting(q) <==> r in h.Waiting(q)
      {
        VersionLeavesOthers(h, h', link, kept, q, r);
      }
    }
  }

  /** An admitted put changes its own provider only, advances it by one and serves this
      device the copy sealed for it. */
  lemma PutOnly(h: LinkSet, p: string, caller: Option<string>, put: PutRequest, now: nat)
    requires CrashSafe(h) && PutLink(h, p, caller, put, now).Ok?
    ensures var h' := Commit(h, PutLink(h, p, caller, put, now));
            Only(h, h', p) && h'.LinkActive(p) && h'.links[p].version == put.expectedVersion + 1
  {
    var d := PutLink(h, p, caller, put, now);
    PutAdmissible(h, p, caller, put, now);
    AdmissibleSafe(h, d.value);
    PutEffect(h, p, caller, put, now);
    VersionOnly(h, Commit(h, d), NewLink(h, p, put, now), KeptBy(h, put));
  }

  lemma RevokeOnly(h: LinkSet, p: string, now: nat)
    requires CrashSafe(h)
    ensures Only(h, Revoke(h, p, now), p)
    ensures p in Revoke(h, p, now).links ==> Revoke(h, p, now).links[p].status == Revoked
    ensures Revoke(h, p, now).CurrentVersion(p) == h.CurrentVersion(p)
  {
    if p in h.links {
      var link := h.links[p].(status := LinkStatus.Revoked, updatedAt := now);
      RevokeFacts(h, p, now);
      VersionFactsAdmissible(h, link, []);
      AdmissibleSafe(h, VersionFacts(h, link, []));
      RevokeEffect(h, p, now);
      VersionOnly(h, Revoke(h, p, now), link, []);
    }
  }

  lemma AddOnly(h: LinkSet, p: string, version: nat, copies: seq<SealedCopy>)
    requires CrashSafe(h) && AddCopies(h, p, version, copies).Ok?
    ensures var h' := Commit(h, AddCopies(h, p, version, copies));
            Only(h, h', p) && h'.links == h.links && h'.Waiting(p) == h.Waiting(p) - SealedFor(copies)
  {
    hide CopyFacts, AddFrom, CheckCopy, SameAnswers, Admissible, Added, LinkSet.Waiting;
    var h' := Commit(h, AddCopies(h, p, version, copies));
    AddAdmissible(h, p, version, copies);
    AdmissibleSafe(h, AddCopies(h, p, version, copies).value);
    AddSettlesWaiting(h, p, version, copies);
    AddEffect(h, p, version, copies);
    forall q | q != p
      ensures SameAnswers(h, h', q)
    {
      AddLeavesOthers(h, h', p, version, copies, q);
    }
    AddedSame(h, h', p, version, copies);
  }

  lemma AddedSame(h: LinkSet, h': LinkSet, p: string, version: nat, copies: seq<SealedCopy>)
    requires Added(h, h', p, version, copies)
    ensures SamePeople(h, h') && h'.links == h.links
  {
  }

  lemma AddLeavesOthers(h: LinkSet, h': LinkSet, p: string, version: nat, copies: seq<SealedCopy>, q: string)
    requires Added(h, h', p, version, copies) && q != p
    ensures SameAnswers(h, h', q)
  {
    hide SealedFor, IsCopyOf;
    assert forall r :: h'.HasCurrentCopy(q, r) == h.HasCurrentCopy(q, r) && h'.CopyFor(q, r) == h.CopyFor(q, r);
  }
}
