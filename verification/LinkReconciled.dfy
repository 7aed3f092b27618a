/** The whole of a reconcile that succeeds: what it leaves and reports of every provider,
    and exactly when it succeeds. */
module LinkReconciled {
  import opened Base
  import opened Order
  import opened Links
  import opened LinkEffects
  import opened LinkRuns
  import opened LinkAnswers
  import opened Seal
  import opened Credentials
  import opened LinkSync
  import opened LinkFixpoint
  import opened LinkOutcome

  // ---- the second pass -----------------------------------------------------------------------------

  lemma OutcomeFrom(cfg: Config, st: State, mid: State, st': State, p: string)
    requires Outcome(cfg, mid, st', p)
    requires SameAnswers(st.hub, mid.hub, p) && SamePeople(st.hub, mid.hub) && SameHere(st.local, mid.local, p)
    ensures Outcome(cfg, st, st', p)
  {
    hide LinkSet.CopyFor, LinkSet.Waiting, OpenCopy, SealCopy;
    assert st.hub.AllRecipients() == mid.hub.AllRecipients();
    assert Inside(cfg, st.hub, p) == Inside(cfg, mid.hub, p);
    forall r
      ensures Seals(cfg, st, p, r) <==> Seals(cfg, mid, p, r)
      ensures Served(cfg, st.hub, st'.hub, p, r) <==> Served(cfg, mid.hub, st'.hub, p, r)
    {
    }
  }

  lemma OutcomeKept(cfg: Config, st: State, mid: State, st': State, p: string)
    requires Outcome(cfg, st, mid, p)
    requires SameAnswers(mid.hub, st'.hub, p) && SameHere(mid.local, st'.local, p)
    ensures Outcome(cfg, st, st', p)
  {
    hide LinkSet.CopyFor, LinkSet.Waiting, OpenCopy, SealCopy, Inside;
    forall r
      ensures if Seals(cfg, st, p, r) then Served(cfg, st.hub, st'.hub, p, r)
              else st'.hub.CopyFor(p, r) == st.hub.CopyFor(p, r)
    {
      assert mid.hub.CopyFor(p, r) == st'.hub.CopyFor(p, r);
    }
  }

  // ---- what it reports -----------------------------------------------------------------------------

  /** The names among a list that are in a set, in its order. */
  function Chosen(names: seq<string>, s: set<string>): seq<string> {
    if names == [] then []
    else Chosen(names[..|names| - 1], s) + (if names[|names| - 1] in s then [names[|names| - 1]] else [])
  }

  ghost predicate InOrder(names: seq<string>) {
    forall i, j | 0 <= i < j < |names| :: Less(names[i], names[j])
  }

  lemma {:induction false} ChosenInOrder(names: seq<string>, s: set<string>)
    requires InOrder(names)
    ensures forall x :: x in Chosen(names, s) <==> x in names && x in s
    ensures InOrder(Chosen(names, s))
    decreases |names|
  {
    hide Less;
    if names != [] {
      var before, last := names[..|names| - 1], names[|names| - 1];
      ChosenInOrder(before, s);
      assert names == before + [last];
      forall x | x in Chosen(before, s)
        ensures Less(x, last)
      {
        var i :| 0 <= i < |before| && before[i] == x;
        assert Less(names[i], names[|names| - 1]);
      }
    }
  }

  ghost function TakenFrom(cfg: Config, st: State): set<string> {
    set p | p in st.hub.links && Takes(cfg, st, p)
  }

  ghost function RemovedFrom(st: State): set<string> {
    set p | p in st.hub.links && Removes(st, p)
  }

  function SealedPairs(cfg: Config, hub: LinkSet, p: string): seq<(string, string)> {
    if hub.CopyFor(p, cfg.device).Some? then Pairs(p, Names(hub.Waiting(p))) else []
  }

  lemma StepReports(cfg: Config, mirrors: map<string, Mirror>, run: Run, link: Summary)
    requires link.provider in run.st.hub.links && link == Summarize(cfg, run.st.hub, link.provider)
    requires SameAt(mirrors, run.st.local.mirrors, link.provider)
    requires run.failure.None? && LinkStep(cfg, mirrors, run, link).failure.None?
    ensures var p, done, done' := link.provider, run.done, LinkStep(cfg, mirrors, run, link).done;
            && done'.taken == done.taken + (if Takes(cfg, run.st, p) then [p] else [])
            && done'.removed == done.removed + (if Removes(run.st, p) then [p] else [])
            && done'.sealedFor == done.sealedFor + SealedPairs(cfg, run.st.hub, p)
  {
    hide OpenHere, LinkSet.CopyFor, LinkSet.Waiting, Take, AddCopies, ForWaiting, Names;
    var p, hub := link.provider, run.st.hub;
    if hub.CopyFor(p, cfg.device).Some? {
      ServedIsActive(hub, p, cfg.device);
    }
    WaitingAreRecipients(hub, p);
    assert hub.AllRecipients().Keys * hub.Waiting(p) == hub.Waiting(p);
    NoPairs(p);
    assert run.done.taken + [] == run.done.taken && run.done.removed + [] == run.done.removed;
    assert run.done.sealedFor + [] == run.done.sealedFor;
  }

  lemma NoPairs(p: string)
    ensures Pairs(p, Names({})) == []
  {
  }

  /** What the second pass leaves of each link it has been through, and has reported. */
  ghost predicate Reported(cfg: Config, st: State, done: Reconciled, done': Reconciled, providers: seq<string>) {
    && done'.taken == done.taken + Chosen(providers, TakenFrom(cfg, st))
    && done'.removed == done.removed + Chosen(providers, RemovedFrom(st))
    && done'.sealedFor == done.sealedFor + AllPairs(cfg, st.hub, providers)
  }

  function AllPairs(cfg: Config, hub: LinkSet, providers: seq<string>): seq<(string, string)> {
    if providers == [] then []
    else AllPairs(cfg, hub, providers[..|providers| - 1]) + SealedPairs(cfg, hub, providers[|providers| - 1])
  }

  lemma ReportedSnoc(cfg: Config, st: State, mid: State, done: Reconciled, done': Reconciled, done'': Reconciled,
                     before: seq<string>, p: string)
    requires Reported(cfg, st, done, done', before) && p in st.hub.links
    requires SameAnswers(st.hub, mid.hub, p) && SameHere(st.local, mid.local, p)
    requires done''.taken == done'.taken + (if Takes(cfg, mid, p) then [p] else [])
    requires done''.removed == done'.removed + (if Removes(mid, p) then [p] else [])
    requires done''.sealedFor == done'.sealedFor + SealedPairs(cfg, mid.hub, p)
    ensures Reported(cfg, st, done, done'', before + [p])
  {
    hide LinkSet.CopyFor, LinkSet.Waiting, Names, Pairs;
    var all := before + [p];
    assert all[..|all| - 1] == before;
    assert Takes(cfg, st, p) <==> Takes(cfg, mid, p);
    assert Removes(st, p) <==> Removes(mid, p);
    assert SealedPairs(cfg, st.hub, p) == SealedPairs(cfg, mid.hub, p);
  }

  lemma {:induction false} LinkPhaseOutcome(cfg: Config, listed: LinkSet, run0: Run, providers: seq<string>)
    requires CrashSafe(run0.st.hub) && run0.st.hub.DepartedKeys() == {} && run0.failure.None?
    requires run0.st.hub.links == listed.links && forall q :: SameAnswers(listed, run0.st.hub, q)
    requires Distinct(providers) && forall p | p in providers :: p in listed.links
    requires forall q :: Settled(run0.st.local, q)
    requires LinkPhase(cfg, listed, run0.st.local.mirrors, run0, providers).failure.None?
    ensures var run := LinkPhase(cfg, listed, run0.st.local.mirrors, run0, providers);
            && (forall p | p in providers :: Outcome(cfg, run0.st, run.st, p))
            && Reported(cfg, run0.st, run0.done, run.done, providers)
    decreases |providers|
  {
    hide LinkStep, Outcome, Reported, LinkSet.DepartedKeys, SameAnswers, CrashSafe, Settled, SecondPassed,
      SecondSettled;
    if providers != [] {
      var before := providers[..|providers| - 1];
      var p := providers[|providers| - 1];
      LastIsNew(providers);
      var mirrors := run0.st.local.mirrors;
      var run := LinkPhase(cfg, listed, mirrors, run0, before);
      var link := Summarize(cfg, listed, p);
      LinkFailureStays(cfg, mirrors, run, link);
      LinkPhaseEffect(cfg, listed, run0, before);
      LinkPhaseOutcome(cfg, listed, run0, before);
      SummarySame(cfg, listed, run0.st.hub, run.st.hub, p);
      SettledSame(run0.st.local, run.st.local, p);
      LinkStepEffect(cfg, mirrors, run, link);
      LinkStepOutcome(cfg, mirrors, run, link);
      StepReports(cfg, mirrors, run, link);
      var st' := LinkStep(cfg, mirrors, run, link).st;
      OutcomeFrom(cfg, run0.st, run.st, st', p);
      forall q | q in before
        ensures Outcome(cfg, run0.st, st', q)
      {
        PassedOthers(cfg, run.st, st', p, q);
        OutcomeKept(cfg, run0.st, run.st, st', q);
      }
      ReportedSnoc(cfg, run0.st, run.st, run0.done, run.done, LinkStep(cfg, mirrors, run, link).done, before, p);
      assert providers == before + [p];
    } else {
      NothingReported(cfg, run0.st, run0.done);
    }
  }

  lemma PassedOthers(cfg: Config, st: State, st': State, p: string, q: string)
    requires SecondPassed(cfg, st, st', p) && q != p
    ensures SameAnswers(st.hub, st'.hub, q) && SameHere(st.local, st'.local, q)
  {
  }

  lemma NothingReported(cfg: Config, st: State, done: Reconciled)
    ensures Reported(cfg, st, done, done, [])
  {
    assert done.taken + [] == done.taken && done.removed + [] == done.removed;
    assert done.sealedFor + [] == done.sealedFor;
  }

  lemma {:induction false} PairsAre(p: string, names: seq<string>, x: (string, string))
    ensures x in Pairs(p, names) <==> x.0 == p && x.1 in names
  {
    if names != [] {
      PairsAre(p, names[1..], x);
      assert names == [names[0]] + names[1..];
    }
  }

  lemma {:induction false} AllPairsAre(cfg: Config, st: State, providers: seq<string>, x: (string, string))
    ensures x in AllPairs(cfg, st.hub, providers) <==> x.0 in providers && Seals(cfg, st, x.0, x.1)
    decreases |providers|
  {
    hide LinkSet.CopyFor, LinkSet.Waiting, Pairs, Names;
    if providers != [] {
      var before, p := providers[..|providers| - 1], providers[|providers| - 1];
      AllPairsAre(cfg, st, before, x);
      PairsAre(p, Names(st.hub.Waiting(p)), x);
      assert providers == before + [p];
    }
  }

  // ---- the first pass ------------------------------------------------------------------------------

  /** A credential made the account's next version as it stands: every recipient the version
      may go to is served its secret, sealed to the key listed for it, and nobody waits. */
  ghost predicate PublishedTo(cfg: Config, hub: LinkSet, hub': LinkSet, p: string, cred: Credential, now: nat)
    requires cred.token.Some?
  {
    && p in hub'.links
    && hub'.links[p] == LinkRecord(p, Upsert, VersionNow(hub, p) + 1, cred.baseUrl, cred.authentication,
                                   cred.classes, LinkStatus.Active, now)
    && hub'.Waiting(p) == {}
    && (forall r :: hub'.CopyFor(p, r) == PublishedCopy(cfg, hub, p, cred, r))
  }

  ghost function PublishedCopy(cfg: Config, hub: LinkSet, p: string, cred: Credential, r: string): Option<SealedCopy>
    requires cred.token.Some?
  {
    if r in hub.AllRecipients() && (IsHome(r) ==> cred.authentication != OAuth && PrivateHome in cred.classes)
    then Some(SealCopy(Context(cfg.account, p, VersionNow(hub, p) + 1), Text(cred.token.value), r,
                       hub.AllRecipients()[r]))
    else None
  }

  /** A credential of a provider that signs in with a refresh grant goes to no Home, however
      it was linked; any other goes to those its classes allow. */
  lemma GrantsStayOffHomes(cfg: Config, hub: LinkSet, local: Local, p: string, token: string, baseUrl: string,
                           classes: set<ExecutionClass>, home: string)
    requires IsHome(home)
    ensures var cred := Upserted(local, p, token, baseUrl, classes).creds[p];
            && cred.token == Some(token)
            && (PublishedCopy(cfg, hub, p, cred, home).Some?
                <==> home in hub.AllRecipients() && PrivateHome in classes && p !in {"openai-codex", "xai-grok"})
            && (cred.authentication == ApiKey <==> p == "anthropic")
  {
    hide LinkSet.AllRecipients;
  }

  lemma PutOfCarries(cfg: Config, hub: LinkSet, p: string, cred: Credential)
    requires cred.token.Some?
    ensures forall r :: Carries(PutOf(cfg, hub, p, cred), r) <==> r in hub.AllRecipients()
    ensures forall c | c in PutOf(cfg, hub, p, cred).copies ::
              c.deviceId in hub.AllRecipients()
              && c == SealCopy(Context(cfg.account, p, VersionNow(hub, p) + 1), Text(cred.token.value), c.deviceId,
                               hub.AllRecipients()[c.deviceId])
  {
    hide Names, SealCopy, SealAll, LinkSet.AllRecipients;
    var names := Names(hub.AllRecipients().Keys);
    SealAllProperties(Context(cfg.account, p, hub.CurrentVersion(p) + 1), Text(cred.token.value),
                      hub.AllRecipients(), names);
    forall r
      ensures Carries(PutOf(cfg, hub, p, cred), r) <==> r in hub.AllRecipients()
    {
      assert r in SealedFor(PutOf(cfg, hub, p, cred).copies) <==> r in names;
    }
  }

  lemma NobodyLeftOut(hub: LinkSet, p: string, caller: Option<string>, put: PutRequest, now: nat, r: string)
    requires PutLink(hub, p, caller, put, now).Ok?
    ensures !LeftOut(hub, put, r) && !ForNobody(hub, put, r)
  {
    hide PutLink, LeftOut, ForNobody, Tells, FirstFault, SoundUpTo, LeasedTo;
    PutRefused(hub, p, caller, put, now);
    assert !Uncovered(hub, put);
  }

  lemma PutServesOne(cfg: Config, hub: LinkSet, p: string, cred: Credential, now: nat, r: string)
    requires Canonical(hub) && cred.token.Some?
    requires PutLink(hub, p, Some(cfg.device), PutOf(cfg, hub, p, cred), now).Ok?
    ensures var hub' := Commit(hub, PutLink(hub, p, Some(cfg.device), PutOf(cfg, hub, p, cred), now));
            hub'.CopyFor(p, r) == PublishedCopy(cfg, hub, p, cred, r) && r !in hub'.Waiting(p)
  {
    hide PutLink, SealCopy, LinkSet.CopyFor, LinkSet.Waiting, LinkSet.AllRecipients, SealAll, Names, ApplyAll, Carries,
      Canonical;
    var put := PutOf(cfg, hub, p, cred);
    PutOfCarries(cfg, hub, p, cred);
    PutReaches(hub, p, Some(cfg.device), put, now, r);
    NobodyLeftOut(hub, p, Some(cfg.device), put, now, r);
    KeyedIsRecipient(hub, r);
  }

  lemma PutServesAll(cfg: Config, hub: LinkSet, p: string, cred: Credential, now: nat)
    requires Canonical(hub) && cred.token.Some?
    requires PutLink(hub, p, Some(cfg.device), PutOf(cfg, hub, p, cred), now).Ok?
    ensures PublishedTo(cfg, hub, Commit(hub, PutLink(hub, p, Some(cfg.device), PutOf(cfg, hub, p, cred), now)), p,
                        cred, now)
  {
    hide PutLink, LinkSet.CopyFor, LinkSet.Waiting, SealAll, Names, ApplyAll, Carries, Canonical, PublishedCopy;
    var put := PutOf(cfg, hub, p, cred);
    PutLeaves(hub, p, Some(cfg.device), put, now);
    var hub' := Commit(hub, PutLink(hub, p, Some(cfg.device), put, now));
    forall r
      ensures hub'.CopyFor(p, r) == PublishedCopy(cfg, hub, p, cred, r) && r !in hub'.Waiting(p)
    {
      PutServesOne(cfg, hub, p, cred, now, r);
    }
  }

  lemma KeyedIsRecipient(hub: LinkSet, r: string)
    ensures r in hub.AllRecipients() <==> KeyedAndTrusted(hub, r) || r in hub.homes
  {
  }

  lemma SafeIsCanonical(hub: LinkSet)
    requires CrashSafe(hub)
    ensures Canonical(hub)
  {
  }

  lemma PublishOneTo(cfg: Config, st: State, p: string, now: nat)
    requires CrashSafe(st.hub) && PublishRecord(cfg, st, p, now).1.None?
    ensures p in st.local.creds && st.local.creds[p].token.Some?
    ensures PublishedTo(cfg, st.hub, PublishRecord(cfg, st, p, now).0.hub, p, st.local.creds[p], now)
  {
    hide PutLink, PutOf, Purged, CrashSafe, PublishedTo, SameAnswers;
    var hub := Purged(st.hub);
    PurgeOnly(st.hub);
    SafeIsCanonical(hub);
    PutServesAll(cfg, hub, p, st.local.creds[p], now);
    PublishedFrom(cfg, st.hub, hub, PublishRecord(cfg, st, p, now).0.hub, p, st.local.creds[p], now);
  }

  lemma PublishedFrom(cfg: Config, hub: LinkSet, mid: LinkSet, hub': LinkSet, p: string, cred: Credential, now: nat)
    requires SamePeople(hub, mid) && SameAnswers(hub, mid, p) && cred.token.Some?
    requires PublishedTo(cfg, mid, hub', p, cred, now)
    ensures PublishedTo(cfg, hub, hub', p, cred, now)
  {
    hide LinkSet.CopyFor, LinkSet.Waiting, SealCopy;
    assert hub.AllRecipients() == mid.AllRecipients();
    assert forall r :: PublishedCopy(cfg, hub, p, cred, r) == PublishedCopy(cfg, mid, p, cred, r);
  }

  lemma PublishedKept(cfg: Config, hub: LinkSet, mid: LinkSet, hub': LinkSet, p: string, cred: Credential, now: nat)
    requires SameAnswers(mid, hub', p) && cred.token.Some?
    requires PublishedTo(cfg, hub, mid, p, cred, now)
    ensures PublishedTo(cfg, hub, hub', p, cred, now)
  {
    hide LinkSet.CopyFor, LinkSet.Waiting, PublishedCopy;
  }

  /** A link revoked at the account: its record stays, marked so, and nobody is served. */
  ghost predicate RevokedAt(hub: LinkSet, hub': LinkSet, p: string, now: nat) {
    && (p in hub'.links <==> p in hub.links)
    && (p in hub.links ==> hub'.links[p] == hub.links[p].(status := LinkStatus.Revoked, updatedAt := now))
    && (forall r :: hub'.CopyFor(p, r).None?) && hub'.Waiting(p) == {}
  }

  lemma RevokeIs(hub: LinkSet, p: string, now: nat)
    requires CrashSafe(hub)
    ensures RevokedAt(hub, Revoke(hub, p, now), p, now)
  {
    hide RevokeLink;
    SafeIsCanonical(hub);
    RevokeAnswers(hub, p, now);
  }

  lemma RevokedFrom(hub: LinkSet, mid: LinkSet, hub': LinkSet, p: string, now: nat)
    requires SameAnswers(hub, mid, p) && RevokedAt(mid, hub', p, now)
    ensures RevokedAt(hub, hub', p, now)
  {
  }

  lemma RevokedKept(hub: LinkSet, mid: LinkSet, hub': LinkSet, p: string, now: nat)
    requires SameAnswers(mid, hub', p) && RevokedAt(hub, mid, p, now)
    ensures RevokedAt(hub, hub', p, now)
  {
    hide LinkSet.CopyFor, LinkSet.Waiting;
    forall r
      ensures hub'.CopyFor(p, r).None?
    {
      assert mid.CopyFor(p, r) == hub'.CopyFor(p, r);
    }
  }

  /** What the first pass leaves of a provider whose local record the account had not heard
      of. */
  ghost predicate Told(cfg: Config, st: State, hub': LinkSet, p: string, now: nat) {
    && (Changed(st.local, p) ==> PublishedTo(cfg, st.hub, hub', p, st.local.creds[p], now))
    && (Unlinked(st.local, p) ==> RevokedAt(st.hub, hub', p, now))
  }

  lemma PublishStepTells(cfg: Config, st: State, now: nat, run: Run, p: string)
    requires CrashSafe(run.st.hub) && SamePeople(st.hub, run.st.hub)
    requires run.failure.None? && PublishStep(cfg, st.local, now, run, p).failure.None?
    requires run.st.local.creds == st.local.creds && SameAnswers(st.hub, run.st.hub, p)
    ensures Told(cfg, st, PublishStep(cfg, st.local, now, run, p).st.hub, p, now)
  {
    hide PublishRecord, Revoke, PublishedTo, RevokedAt, CrashSafe, SameAnswers;
    var hub' := PublishStep(cfg, st.local, now, run, p).st.hub;
    if Changed(st.local, p) {
      PublishOneTo(cfg, run.st, p, now);
      PublishedFrom(cfg, st.hub, run.st.hub, hub', p, st.local.creds[p], now);
    } else if Unlinked(st.local, p) {
      RevokeIs(run.st.hub, p, now);
      RevokedFrom(st.hub, run.st.hub, hub', p, now);
    }
  }

  lemma ToldKept(cfg: Config, st: State, mid: LinkSet, hub': LinkSet, p: string, now: nat)
    requires Told(cfg, st, mid, p, now) && SameAnswers(mid, hub', p)
    ensures Told(cfg, st, hub', p, now)
  {
    hide PublishedTo, RevokedAt, SameAnswers;
    if Changed(st.local, p) {
      PublishedKept(cfg, st.hub, mid, hub', p, st.local.creds[p], now);
    }
    if Unlinked(st.local, p) {
      RevokedKept(st.hub, mid, hub', p, now);
    }
  }

  lemma {:induction false} PublishPhaseTells(cfg: Config, st: State, now: nat, providers: seq<string>)
    requires CrashSafe(st.hub) && Enrolled(cfg, st.hub)
    requires Distinct(providers) && forall p | p in providers :: p in st.local.creds
    requires PublishPhase(cfg, st.local, now, Run(st, NothingDone, None), providers).failure.None?
    ensures var run := PublishPhase(cfg, st.local, now, Run(st, NothingDone, None), providers);
            forall p | p in providers :: Told(cfg, st, run.st.hub, p, now)
    decreases |providers|
  {
    hide PublishStep, FirstPassed, Told, SameAnswers, CrashSafe, Enrolled;
    if providers != [] {
      var before := providers[..|providers| - 1];
      var p := providers[|providers| - 1];
      LastIsNew(providers);
      var run := PublishPhase(cfg, st.local, now, Run(st, NothingDone, None), before);
      StepFailureStays(cfg, st.local, now, run, p);
      PublishPhaseEffect(cfg, st, now, before);
      PublishPhaseTells(cfg, st, now, before);
      SameEnrolled(cfg, st.hub, run.st.hub);
      PublishStepTells(cfg, st, now, run, p);
      PublishStepEffect(cfg, st, now, run, p);
      var run' := PublishStep(cfg, st.local, now, run, p);
      forall q | q in before
        ensures Told(cfg, st, run'.st.hub, q, now)
      {
        OnlyOthers(run.st, run'.st, p, q);
        ToldKept(cfg, st, run.st.hub, run'.st.hub, q, now);
      }
      assert providers == before + [p];
    }
  }

  lemma SameEnrolled(cfg: Config, hub: LinkSet, hub': LinkSet)
    requires Enrolled(cfg, hub) && SamePeople(hub, hub')
    ensures Enrolled(cfg, hub')
  {
  }

  lemma OnlyOthers(st: State, st': State, p: string, q: string)
    requires StepOnly(st, st', p) && q != p
    ensures SameAnswers(st.hub, st'.hub, q)
  {
  }

  // ---- the whole reconcile -------------------------------------------------------------------------

  /** The account and the desktop between the two passes, as the second one lists them. */
  function Between(cfg: Config, st: State, now: nat): State {
    var mid := FirstRun(cfg, st, now).st;
    State(Purged(mid.hub), mid.local)
  }

  ghost predicate Notes(local: Local, p: string, mirror: Mirror) {
    p in local.mirrors && local.mirrors[p] == mirror
  }

  lemma SecondHalf(cfg: Config, st: State, now: nat, p: string)
    requires CrashSafe(st.hub) && !IsHome(cfg.device) && Reconcile(cfg, st, now).failure.None?
    ensures var listed, run := Between(cfg, st, now), Reconcile(cfg, st, now);
            && Outcome(cfg, listed, run.st, p)
            && Reported(cfg, listed, FirstRun(cfg, st, now).done, run.done, Names(listed.hub.links.Keys))
            && run.st.hub.links == listed.hub.links && Quiet(cfg, run.st.hub, run.st.local, p)
  {
    hide PublishPhase, LinkPhase, Names, Purged, FirstPassed, SameAnswers, Outcome, Reported, Quiet, Settled,
      LinkSet.DepartedKeys, CrashSafe;
    ReconcilePasses(cfg, st, now);
    ReconcileBringsInStep(cfg, st, now);
    var mid := FirstRun(cfg, st, now);
    PurgeOnly(mid.st.hub);
    NamesDistinct(mid.st.hub.links.Keys);
    var run0 := Run(Between(cfg, st, now), mid.done, None);
    LinkPhaseOutcome(cfg, mid.st.hub, run0, Names(mid.st.hub.links.Keys));
    if p !in mid.st.hub.links {
      OutcomeUnlisted(cfg, run0.st, Reconcile(cfg, st, now).st, p);
    }
  }

  lemma OutcomeUnlisted(cfg: Config, st: State, st': State, p: string)
    requires p !in st.hub.links && SameAnswers(st.hub, st'.hub, p) && SameHere(st.local, st'.local, p)
    ensures Outcome(cfg, st, st', p)
  {
  }

  /** The key is registered and the first pass has not failed. */
  ghost predicate Begun(cfg: Config, st: State, now: nat) {
    && !IsHome(cfg.device) && RegisterRecipient(st.hub, cfg.device, Point(cfg.key), now).Ok?
    && FirstRun(cfg, st, now).failure.None?
  }

  lemma SuccessIsBegun(cfg: Config, st: State, now: nat)
    requires !IsHome(cfg.device) && Reconcile(cfg, st, now).failure.None?
    ensures Begun(cfg, st, now)
  {
    hide PublishPhase, LinkPhase, Names, Purged;
  }

  lemma FirstPasses(cfg: Config, st: State, now: nat, p: string)
    requires CrashSafe(st.hub) && Begun(cfg, st, now)
    ensures var start, run := Registered(cfg, st, now), FirstRun(cfg, st, now);
            && CrashSafe(start.hub) && Enrolled(cfg, start.hub)
            && FirstPass(cfg, start, run, Names(st.local.creds.Keys)) && Settled(run.st.local, p)
            && SameAnswers(run.st.hub, Purged(run.st.hub), p)
  {
    hide PublishPhase, Names, Purged, FirstPassed, SameAnswers;
    RegisterEnrols(cfg, st, now);
    NamesDistinct(st.local.creds.Keys);
    var start, run := Registered(cfg, st, now), FirstRun(cfg, st, now);
    PublishPhaseEffect(cfg, start, now, Names(st.local.creds.Keys));
    if p in st.local.creds {
      assert FirstPassed(cfg, start, run, p);
      FirstPassedSettles(cfg, start, run, p);
    }
    PurgeOnly(run.st.hub);
  }

  lemma FirstHalf(cfg: Config, st: State, now: nat, p: string)
    requires CrashSafe(st.hub) && Begun(cfg, st, now)
    ensures var start, listed := Registered(cfg, st, now), Between(cfg, st, now);
            && SamePeople(start.hub, listed.hub) && listed.local.creds == st.local.creds
            && Told(cfg, start, listed.hub, p, now) && Settled(listed.local, p) && Enrolled(cfg, listed.hub)
            && (Settled(st.local, p) ==> SameAnswers(start.hub, listed.hub, p) && SameHere(st.local, listed.local, p))
            && (Unlinked(st.local, p) ==> p !in listed.local.mirrors)
            && (Changed(st.local, p) ==>
                  Notes(listed.local, p, Mirror(cfg.account, VersionNow(start.hub, p) + 1, st.local.creds[p].version)))
  {
    hide PublishPhase, LinkPhase, Names, Purged, FirstPassed, SameAnswers, Told, LinkSet.DepartedKeys, CrashSafe,
      Enrolled, SecondPass;
    FirstPasses(cfg, st, now, p);
    var start, mid := Registered(cfg, st, now), FirstRun(cfg, st, now);
    var names := Names(st.local.creds.Keys);
    NamesDistinct(st.local.creds.Keys);
    PublishPhaseTells(cfg, start, now, names);
    PurgeOnly(mid.st.hub);
    SameEnrolled(cfg, start.hub, mid.st.hub);
    SameEnrolled(cfg, mid.st.hub, Purged(mid.st.hub));
    if p in names {
      assert Told(cfg, start, mid.st.hub, p, now) && FirstPassed(cfg, start, mid, p);
      FirstPassedIs(cfg, start, mid, p);
    } else {
      UntoldIs(cfg, start, mid.st.hub, p, now);
    }
    ToldKept(cfg, start, mid.st.hub, Purged(mid.st.hub), p, now);
    SameAnswersTrans(start.hub, mid.st.hub, Purged(mid.st.hub), p);
  }

  lemma SameAnswersTrans(a: LinkSet, b: LinkSet, c: LinkSet, p: string)
    requires SameAnswers(b, c, p)
    ensures SameAnswers(a, b, p) ==> SameAnswers(a, c, p)
  {
    hide LinkSet.CopyFor, LinkSet.Waiting;
  }

  lemma UntoldIs(cfg: Config, st: State, hub': LinkSet, p: string, now: nat)
    requires p !in st.local.creds
    ensures Told(cfg, st, hub', p, now) && Settled(st.local, p)
  {
  }

  lemma FirstPassedIs(cfg: Config, st: State, run: Run, p: string)
    requires FirstPassed(cfg, st, run, p)
    ensures Settled(st.local, p) ==>
              SameAnswers(st.hub, run.st.hub, p) && SameAt(st.local.mirrors, run.st.local.mirrors, p)
    ensures Unlinked(st.local, p) ==> p !in run.st.local.mirrors
    ensures Changed(st.local, p) ==>
              p in st.local.creds && p in run.st.local.mirrors
              && run.st.local.mirrors[p] == Mirror(cfg.account, VersionNow(st.hub, p) + 1, st.local.creds[p].version)
  {
    hide SameAnswers, OpenHere;
  }

  /** What the account was told in the first pass gives the second nothing to do. */
  lemma ToldIsDone(cfg: Config, start: State, listed: State, p: string, now: nat)
    requires Told(cfg, start, listed.hub, p, now) && listed.local.creds == start.local.creds
    requires Enrolled(cfg, start.hub) && SamePeople(start.hub, listed.hub)
    requires Unlinked(start.local, p) ==> p !in listed.local.mirrors
    requires Changed(start.local, p) ==>
               p in listed.local.mirrors && listed.local.mirrors[p].version == VersionNow(start.hub, p) + 1
    requires !Settled(start.local, p)
    ensures !Takes(cfg, listed, p) && !Removes(listed, p) && forall r :: !Seals(cfg, listed, p, r)
    ensures Changed(start.local, p) ==> listed.hub.CopyFor(p, cfg.device).Some?
  {
    hide SealCopy;
    if Changed(start.local, p) {
      assert listed.hub.CopyFor(p, cfg.device) == PublishedCopy(cfg, start.hub, p, start.local.creds[p], cfg.device);
    }
  }

  lemma ToldStays(cfg: Config, start: State, listed: State, after: State, p: string, now: nat)
    requires Told(cfg, start, listed.hub, p, now) && Outcome(cfg, listed, after, p) && !Settled(start.local, p)
    requires !Takes(cfg, listed, p) && !Removes(listed, p) && forall r :: !Seals(cfg, listed, p, r)
    requires after.hub.links == listed.hub.links && Quiet(cfg, after.hub, after.local, p)
    requires Changed(start.local, p) ==> listed.hub.CopyFor(p, cfg.device).Some?
    ensures Told(cfg, start, after.hub, p, now) && SameHere(listed.local, after.local, p)
  {
    hide LinkSet.CopyFor, PublishedCopy, Served, Took;
    assert forall r :: after.hub.CopyFor(p, r) == listed.hub.CopyFor(p, r);
    if Unlinked(start.local, p) {
      assert !after.hub.LinkActive(p);
    }
  }

  /** What a reconcile that succeeds leaves of a provider: what changed here is published to
      everyone it may go to, what was unlinked here is revoked, and of the rest, told from
      the account once this device's key is registered there: a version this device is
      served and does not mirror is taken, a revoked link it mirrors is removed, everyone
      waiting for a link it holds is sealed one, and nothing else changes. */
  lemma ReconcileLeaves(cfg: Config, st: State, now: nat, p: string)
    requires CrashSafe(st.hub) && !IsHome(cfg.device) && Reconcile(cfg, st, now).failure.None?
    ensures var start, after := Registered(cfg, st, now), Reconcile(cfg, st, now).st;
            && Told(cfg, start, after.hub, p, now)
            && (Settled(st.local, p) ==> Outcome(cfg, start, after, p))
            && (!Settled(st.local, p) ==> SameAt(st.local.creds, after.local.creds, p))
            && (Unlinked(st.local, p) ==> p !in after.local.mirrors)
            && (Changed(st.local, p) ==>
                  Notes(after.local, p, Mirror(cfg.account, VersionNow(start.hub, p) + 1, st.local.creds[p].version)))
  {
    hide Reconcile, Between, Told, Outcome, Quiet, Reported, SameAnswers, Enrolled, CrashSafe;
    var start, listed, after := Registered(cfg, st, now), Between(cfg, st, now), Reconcile(cfg, st, now).st;
    SuccessIsBegun(cfg, st, now);
    FirstHalf(cfg, st, now, p);
    SecondHalf(cfg, st, now, p);
    if Settled(st.local, p) {
      OutcomeFrom(cfg, start, listed, after, p);
      SettledTold(cfg, start, after.hub, p, now);
    } else {
      StartEnrolled(cfg, st, now);
      ToldIsDone(cfg, start, listed, p, now);
      ToldStays(cfg, start, listed, after, p, now);
    }
  }

  lemma SettledTold(cfg: Config, st: State, hub': LinkSet, p: string, now: nat)
    requires Settled(st.local, p)
    ensures Told(cfg, st, hub', p, now)
  {
  }

  lemma StartEnrolled(cfg: Config, st: State, now: nat)
    requires CrashSafe(st.hub) && !IsHome(cfg.device) && Reconcile(cfg, st, now).failure.None?
    ensures Enrolled(cfg, Registered(cfg, st, now).hub)
  {
    hide PublishPhase, TakePhase, Names, CrashSafe, Enrolled;
    RegisterEnrols(cfg, st, now);
  }

  /** What it reports: just what it did, the links taken and removed each once in listing
      order. */
  lemma ReconcileReports(cfg: Config, st: State, now: nat)
    requires CrashSafe(st.hub) && !IsHome(cfg.device) && Reconcile(cfg, st, now).failure.None?
    ensures var start, done := Registered(cfg, st, now), Reconcile(cfg, st, now).done;
            && (forall p :: p in done.taken <==> Settled(st.local, p) && Takes(cfg, start, p))
            && (forall p :: p in done.removed <==> Settled(st.local, p) && Removes(start, p))
            && (forall x :: x in done.sealedFor <==> Settled(st.local, x.0) && Seals(cfg, start, x.0, x.1))
            && (forall p :: p in done.published <==> Changed(st.local, p))
            && (forall p :: p in done.revoked <==> Unlinked(st.local, p))
            && InOrder(done.taken) && InOrder(done.removed)
  {
    hide Reconcile, Between, Told, Outcome, Quiet, SameAnswers, Enrolled, CrashSafe, Names, Chosen, AllPairs, Less,
      Settled, Takes, Removes, Seals, FirstPass, SecondPass;
    var start, listed, run := Registered(cfg, st, now), Between(cfg, st, now), Reconcile(cfg, st, now);
    var names := Names(listed.hub.links.Keys);
    SecondHalf(cfg, st, now, "");
    NothingYet(cfg, st, now);
    SuccessIsBegun(cfg, st, now);
    ChosenInOrder(names, TakenFrom(cfg, listed));
    ChosenInOrder(names, RemovedFrom(listed));
    forall p
      ensures Takes(cfg, listed, p) <==> Settled(st.local, p) && Takes(cfg, start, p)
      ensures Removes(listed, p) <==> Settled(st.local, p) && Removes(start, p)
      ensures forall r :: Seals(cfg, listed, p, r) <==> Settled(st.local, p) && Seals(cfg, start, p, r)
      ensures Takes(cfg, listed, p) || Removes(listed, p) ==> p in listed.hub.links
      ensures forall r :: Seals(cfg, listed, p, r) ==> p in listed.hub.links
      ensures p in run.done.published <==> Changed(st.local, p)
      ensures p in run.done.revoked <==> Unlinked(st.local, p)
    {
      NoLostUpdate(cfg, st, now, p);
      FirstHalf(cfg, st, now, p);
      StartEnrolled(cfg, st, now);
      SameTasks(cfg, start, listed, p, now);
    }
    forall x: (string, string)
      ensures x in run.done.sealedFor <==> x.0 in listed.hub.links && Seals(cfg, listed, x.0, x.1)
    {
      AllPairsAre(cfg, listed, names, x);
    }
  }

  lemma NothingYet(cfg: Config, st: State, now: nat)
    requires CrashSafe(st.hub) && !IsHome(cfg.device) && Reconcile(cfg, st, now).failure.None?
    ensures var done := FirstRun(cfg, st, now).done; done.taken == [] && done.removed == [] && done.sealedFor == []
  {
    hide Reconcile, FirstRun, Names, SecondPass, FirstPassed, SameAnswers, CrashSafe;
    ReconcilePasses(cfg, st, now);
  }

  lemma SameTasks(cfg: Config, start: State, listed: State, p: string, now: nat)
    requires Told(cfg, start, listed.hub, p, now) && listed.local.creds == start.local.creds
    requires Enrolled(cfg, start.hub) && SamePeople(start.hub, listed.hub)
    requires Unlinked(start.local, p) ==> p !in listed.local.mirrors
    requires Changed(start.local, p) ==>
               p in listed.local.mirrors && listed.local.mirrors[p].version == VersionNow(start.hub, p) + 1
    requires Settled(start.local, p) ==> SameAnswers(start.hub, listed.hub, p) && SameHere(start.local, listed.local, p)
    ensures Takes(cfg, listed, p) <==> Settled(start.local, p) && Takes(cfg, start, p)
    ensures Removes(listed, p) <==> Settled(start.local, p) && Removes(start, p)
    ensures forall r :: Seals(cfg, listed, p, r) <==> Settled(start.local, p) && Seals(cfg, start, p, r)
    ensures Takes(cfg, listed, p) || Removes(listed, p) ==> p in listed.hub.links
    ensures forall r :: Seals(cfg, listed, p, r) ==> p in listed.hub.links
  {
    hide Told, Enrolled, Settled, LinkSet.Waiting, Unlinked, Changed;
    if !Settled(start.local, p) {
      ToldIsDone(cfg, start, listed, p, now);
    }
  }
}
