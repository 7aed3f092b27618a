/** Exactly when a reconcile succeeds. */
module LinkSuccess {
  import opened Base
  import opened Order
  import opened Links
  import opened LinkRuns
  import opened LinkStore
  import opened LinkAnswers
  import opened Seal
  import opened Credentials
  import opened LinkSync
  import opened LinkFixpoint
  import opened LinkOutcome
  import opened LinkReconciled

  /** The longest secret a copy has room for, in bytes. */
  const ROOM: nat := 32740

  /** Homes and devices are told apart by their names. */
  ghost predicate NamedApart(hub: LinkSet) {
    (forall x | KeyedAndTrusted(hub, x) :: !IsHome(x))
    && (forall x | x in hub.homes && !IsHome(x) :: KeyedAndTrusted(hub, x))
  }

  /** A credential here can be made the account's next version: its names are valid, no
      other device holds the lease, it allows a use that may be shared and no public one,
      and it fits a copy. */
  ghost predicate Publishable(cfg: Config, hub: LinkSet, p: string, cred: Credential, now: nat)
    requires cred.token.Some?
  {
    && ValidComponent(cfg.account) && ValidComponent(p) && NamedApart(hub)
    && !LeasedTo(hub, p, Some(cfg.device), now)
    && cred.classes != {} && PublicDeployment !in cred.classes
    && Utf8Length(cred.token.value) <= ROOM
  }

  /** What is left to do about a link can be done: the copy opens, to text if it is to be
      taken, and to what fits a copy if somebody waits. */
  ghost predicate Doable(cfg: Config, st: State, p: string) {
    st.hub.CopyFor(p, cfg.device).Some? && (Takes(cfg, st, p) || st.hub.Waiting(p) != {}) ==>
      && MakeContext(cfg.account, p, VersionNow(st.hub, p)).Some? && Inside(cfg, st.hub, p).Some?
      && (Takes(cfg, st, p) ==> Inside(cfg, st.hub, p).value.Text?)
      && (st.hub.Waiting(p) != {} ==> SecretBytes(Inside(cfg, st.hub, p).value) <= ROOM)
  }

  // ---- copies as they are sealed -------------------------------------------------------------------

  lemma SealIsSound(context: Context, secret: Secret, device: string, key: PublicKey)
    ensures Sound(SealCopy(context, secret, device, key)) <==> SecretBytes(secret) <= ROOM
  {
    hide SecretBytes;
  }

  lemma SealedSound(context: Context, secret: Secret, keys: map<string, PublicKey>, names: seq<string>)
    requires (forall n | n in names :: n in keys) && Distinct(names) && names != []
    ensures SoundUpTo(SealAll(context, secret, keys, names), |SealAll(context, secret, keys, names)|)
            <==> SecretBytes(secret) <= ROOM
  {
    hide SealCopy, Sound, SecretBytes;
    var copies := SealAll(context, secret, keys, names);
    SealAllProperties(context, secret, keys, names);
    forall i | 0 <= i < |copies|
      ensures copies[i].deviceId == names[i] && (Sound(copies[i]) <==> SecretBytes(secret) <= ROOM)
    {
      SealIsSound(context, secret, names[i], keys[names[i]]);
      SealedDevice(context, secret, names[i], keys[names[i]]);
    }
    assert Sound(copies[0]) <==> SecretBytes(secret) <= ROOM;
  }

  lemma SealedDevice(context: Context, secret: Secret, device: string, key: PublicKey)
    ensures SealCopy(context, secret, device, key).deviceId == device
  {
  }

  // ---- the first pass ------------------------------------------------------------------------------

  lemma PutSucceeds(cfg: Config, hub: LinkSet, p: string, cred: Credential, now: nat)
    requires Enrolled(cfg, hub) && cred.token.Some?
    ensures PutLink(hub, p, Some(cfg.device), PutOf(cfg, hub, p, cred), now).Ok?
            <==>
            && NamedApart(hub) && !LeasedTo(hub, p, Some(cfg.device), now)
            && cred.classes != {} && PublicDeployment !in cred.classes && Utf8Length(cred.token.value) <= ROOM
  {
    hide PutLink, SealCopy, SealAll, Names, LinkSet.AllRecipients, Carries, Utf8Length, Tells, FirstFault, SoundUpTo,
      LeasedTo;
    var put := PutOf(cfg, hub, p, cred);
    PutOfCarries(cfg, hub, p, cred);
    PutRefused(hub, p, Some(cfg.device), put, now);
    assert KeyedAndTrusted(hub, cfg.device);
    KeyedIsRecipient(hub, cfg.device);
    NamesDistinct(hub.AllRecipients().Keys);
    assert cfg.device in Names(hub.AllRecipients().Keys);
    SealedSound(Context(cfg.account, p, hub.CurrentVersion(p) + 1), Text(cred.token.value), hub.AllRecipients(),
                Names(hub.AllRecipients().Keys));
    CoveredIs(hub, put);
  }

  lemma CoveredIs(hub: LinkSet, put: PutRequest)
    requires forall r :: Carries(put, r) <==> r in hub.AllRecipients()
    ensures Uncovered(hub, put) <==> !NamedApart(hub)
  {
    hide Carries, LinkSet.AllRecipients, IsHome;
    forall x
      ensures LeftOut(hub, put, x) <==> KeyedAndTrusted(hub, x) && IsHome(x)
      ensures ForNobody(hub, put, x) <==>
                if IsHome(x) then KeyedAndTrusted(hub, x) && x !in hub.homes
                else x in hub.homes && !KeyedAndTrusted(hub, x)
    {
      KeyedIsRecipient(hub, x);
    }
    if !NamedApart(hub) {
      if x :| KeyedAndTrusted(hub, x) && IsHome(x) {
        assert LeftOut(hub, put, x);
      } else {
        var x :| x in hub.homes && !IsHome(x) && !KeyedAndTrusted(hub, x);
        assert ForNobody(hub, put, x);
      }
    }
  }

  lemma PublishSucceeds(cfg: Config, st: State, p: string, now: nat)
    requires CrashSafe(st.hub) && Enrolled(cfg, st.hub)
    requires p in st.local.creds && st.local.creds[p].Usable()
    ensures PublishRecord(cfg, st, p, now).1.None? <==> Publishable(cfg, st.hub, p, st.local.creds[p], now)
    ensures PublishRecord(cfg, st, p, now).1 == Some(InvalidContext) <==>
              !(ValidComponent(cfg.account) && ValidComponent(p))
  {
    hide PutLink, PutOf, Purged, ValidComponent, NamedApart, CrashSafe, Utf8Length;
    PurgeOnly(st.hub);
    PurgedLeases(st.hub);
    SameEnrolled(cfg, st.hub, Purged(st.hub));
    PutSucceeds(cfg, Purged(st.hub), p, st.local.creds[p], now);
    SameNames(st.hub, Purged(st.hub));
  }

  lemma PurgedLeases(hub: LinkSet)
    requires CrashSafe(hub)
    ensures Purged(hub).leases == hub.leases
  {
    PurgeEffect(hub);
  }

  lemma SameNames(hub: LinkSet, hub': LinkSet)
    requires SamePeople(hub, hub')
    ensures NamedApart(hub) <==> NamedApart(hub')
  {
    assert forall x :: KeyedAndTrusted(hub, x) <==> KeyedAndTrusted(hub', x);
  }

  lemma StepLeases(cfg: Config, seen: Local, now: nat, run: Run, p: string, q: string)
    requires CrashSafe(run.st.hub) && q != p
    ensures SameAt(run.st.hub.leases, PublishStep(cfg, seen, now, run, p).st.hub.leases, q)
  {
    hide PutLink, PutOf, Purged, ValidComponent, RevokeLink, ApplyAll;
    PurgeOnly(run.st.hub);
    PurgedLeases(run.st.hub);
    var hub := Purged(run.st.hub);
    if p in run.st.local.creds && run.st.local.creds[p].Usable() {
      var put := PutOf(cfg, hub, p, run.st.local.creds[p]);
      if PutLink(hub, p, Some(cfg.device), put, now).Ok? {
        PutLeaves(hub, p, Some(cfg.device), put, now);
      }
    }
    RevokeAnswers(run.st.hub, p, now);
  }

  ghost predicate AllPublishable(cfg: Config, st: State, now: nat, providers: seq<string>) {
    forall p | p in providers && Changed(st.local, p) :: Publishable(cfg, st.hub, p, st.local.creds[p], now)
  }

  lemma PublishableSame(cfg: Config, hub: LinkSet, hub': LinkSet, p: string, cred: Credential, now: nat)
    requires cred.token.Some? && SamePeople(hub, hub') && SameAt(hub.leases, hub'.leases, p)
    ensures Publishable(cfg, hub, p, cred, now) <==> Publishable(cfg, hub', p, cred, now)
  {
    hide ValidComponent, NamedApart, Utf8Length;
    SameNames(hub, hub');
  }

  lemma PublishStepSucceeds(cfg: Config, st: State, now: nat, run: Run, p: string)
    requires CrashSafe(run.st.hub) && Enrolled(cfg, run.st.hub) && SamePeople(st.hub, run.st.hub)
    requires run.failure.None? && run.st.local.creds == st.local.creds && SameAt(st.hub.leases, run.st.hub.leases, p)
    ensures PublishStep(cfg, st.local, now, run, p).failure.None?
            <==> (Changed(st.local, p) ==> Publishable(cfg, st.hub, p, st.local.creds[p], now))
  {
    hide PublishRecord, Publishable, CrashSafe, Enrolled, Revoke;
    if Changed(st.local, p) {
      PublishSucceeds(cfg, run.st, p, now);
      PublishableSame(cfg, st.hub, run.st.hub, p, st.local.creds[p], now);
    }
  }

  lemma {:induction false} PublishPhaseSucceeds(cfg: Config, st: State, now: nat, providers: seq<string>)
    requires CrashSafe(st.hub) && Enrolled(cfg, st.hub)
    requires Distinct(providers) && forall p | p in providers :: p in st.local.creds
    ensures var run := PublishPhase(cfg, st.local, now, Run(st, NothingDone, None), providers);
            && (run.failure.None? <==> AllPublishable(cfg, st, now, providers))
            && (run.failure.None? ==> forall q | q !in providers :: SameAt(st.hub.leases, run.st.hub.leases, q))
    decreases |providers|
  {
    hide PublishStep, FirstPassed, CrashSafe, Enrolled, SameAnswers, Publishable;
    if providers != [] {
      var before := providers[..|providers| - 1];
      var p := providers[|providers| - 1];
      LastIsNew(providers);
      assert providers == before + [p];
      var run := PublishPhase(cfg, st.local, now, Run(st, NothingDone, None), before);
      StepFailureStays(cfg, st.local, now, run, p);
      PublishPhaseSucceeds(cfg, st, now, before);
      if run.failure.None? {
        PublishPhaseEffect(cfg, st, now, before);
        SameEnrolled(cfg, st.hub, run.st.hub);
        PublishStepSucceeds(cfg, st, now, run, p);
        forall q | q !in providers
          ensures SameAt(run.st.hub.leases, PublishStep(cfg, st.local, now, run, p).st.hub.leases, q)
        {
          StepLeases(cfg, st.local, now, run, p, q);
        }
      }
    }
  }

  // ---- the second pass -----------------------------------------------------------------------------

  lemma AddSucceeds(cfg: Config, hub: LinkSet, p: string, secret: Secret)
    requires hub.LinkActive(p) && hub.Waiting(p) != {}
    ensures var copies := ForWaiting(cfg, hub, p, hub.links[p].version, secret, hub.Waiting(p));
            AddCopies(hub, p, hub.links[p].version, copies).Ok? <==> SecretBytes(secret) <= ROOM
  {
    hide AddCopies, SealCopy, SealAll, Names, LinkSet.AllRecipients, LinkSet.Waiting, SecretBytes, FirstRefused,
      SoundUpTo;
    var version, names := hub.links[p].version, Names(hub.AllRecipients().Keys * hub.Waiting(p));
    var copies := ForWaiting(cfg, hub, p, version, secret, hub.Waiting(p));
    WaitingAreRecipients(hub, p);
    assert hub.AllRecipients().Keys * hub.Waiting(p) == hub.Waiting(p);
    NamesDistinct(hub.Waiting(p));
    SealAllProperties(Context(cfg.account, p, version), secret, hub.AllRecipients(), names);
    SealedSound(Context(cfg.account, p, version), secret, hub.AllRecipients(), names);
    AddRefused(hub, p, version, copies);
    forall i | 0 <= i < |copies|
      ensures copies[i].deviceId in hub.Waiting(p)
    {
      assert copies[i] in copies;
      assert copies[i].deviceId in names;
    }
  }

  lemma LinkStepSucceeds(cfg: Config, mirrors: map<string, Mirror>, run: Run, link: Summary)
    requires link.provider in run.st.hub.links && link == Summarize(cfg, run.st.hub, link.provider)
    requires SameAt(mirrors, run.st.local.mirrors, link.provider) && run.failure.None?
    ensures LinkStep(cfg, mirrors, run, link).failure.None? <==> Doable(cfg, run.st, link.provider)
  {
    hide OpenHere, Take, AddCopies, ForWaiting, LinkSet.CopyFor, LinkSet.Waiting, Inside, SecretBytes, ValidComponent,
      Pairs, Names;
    var p, hub := link.provider, run.st.hub;
    if hub.CopyFor(p, cfg.device).Some? {
      ServedIsActive(hub, p, cfg.device);
      OpenIs(cfg, hub, p);
      if link.waiting != {} && OpenHere(cfg, hub, p).Ok? {
        AddSucceeds(cfg, hub, p, OpenHere(cfg, hub, p).value);
      }
    }
  }

  ghost predicate AllDoable(cfg: Config, st: State, providers: seq<string>) {
    forall p | p in providers :: Doable(cfg, st, p)
  }

  lemma DoableSame(cfg: Config, st: State, st': State, p: string)
    requires SameAnswers(st.hub, st'.hub, p) && SameHere(st.local, st'.local, p)
    ensures Doable(cfg, st, p) <==> Doable(cfg, st', p)
  {
    hide LinkSet.CopyFor, LinkSet.Waiting, OpenCopy, ValidComponent;
  }

  lemma {:induction false} LinkPhaseSucceeds(cfg: Config, listed: LinkSet, run0: Run, providers: seq<string>)
    requires CrashSafe(run0.st.hub) && run0.st.hub.DepartedKeys() == {} && run0.failure.None?
    requires run0.st.hub.links == listed.links && forall q :: SameAnswers(listed, run0.st.hub, q)
    requires Distinct(providers) && forall p | p in providers :: p in listed.links
    requires forall q :: Settled(run0.st.local, q)
    ensures LinkPhase(cfg, listed, run0.st.local.mirrors, run0, providers).failure.None?
            <==> AllDoable(cfg, run0.st, providers)
    decreases |providers|
  {
    hide LinkStep, Doable, LinkSet.DepartedKeys, SameAnswers, CrashSafe, Settled, SecondSettled;
    if providers != [] {
      var before := providers[..|providers| - 1];
      var p := providers[|providers| - 1];
      LastIsNew(providers);
      assert providers == before + [p];
      var mirrors := run0.st.local.mirrors;
      var run := LinkPhase(cfg, listed, mirrors, run0, before);
      var link := Summarize(cfg, listed, p);
      LinkFailureStays(cfg, mirrors, run, link);
      LinkPhaseSucceeds(cfg, listed, run0, before);
      if run.failure.None? {
        LinkPhaseEffect(cfg, listed, run0, before);
        SummarySame(cfg, listed, run0.st.hub, run.st.hub, p);
        LinkStepSucceeds(cfg, mirrors, run, link);
        DoableSame(cfg, run0.st, run.st, p);
      }
    }
  }

  // ---- the whole reconcile -------------------------------------------------------------------------

  /** Everything there is to do can be done. */
  ghost predicate CanReconcile(cfg: Config, st: State, now: nat) {
    && cfg.device in st.hub.activeDevices
    && (forall p | Changed(st.local, p) ::
          Publishable(cfg, Registered(cfg, st, now).hub, p, st.local.creds[p], now))
    && (forall p | Settled(st.local, p) :: Doable(cfg, Registered(cfg, st, now), p))
  }

  lemma FirstSucceeds(cfg: Config, st: State, now: nat)
    requires CrashSafe(st.hub) && !IsHome(cfg.device) && cfg.device in st.hub.activeDevices
    ensures Begun(cfg, st, now) <==>
              forall p | Changed(st.local, p) ::
                Publishable(cfg, Registered(cfg, st, now).hub, p, st.local.creds[p], now)
  {
    hide PublishPhase, Names, CrashSafe, Publishable, RegisterRecipient, Enrolled;
    RegisterAnswers(st.hub, cfg.device, Point(cfg.key), now);
    RegisterEnrols(cfg, st, now);
    NamesDistinct(st.local.creds.Keys);
    var start := Registered(cfg, st, now);
    PublishPhaseSucceeds(cfg, start, now, Names(st.local.creds.Keys));
    assert forall p | Changed(st.local, p) :: p in Names(st.local.creds.Keys);
  }

  lemma SecondSucceeds(cfg: Config, st: State, now: nat)
    requires CrashSafe(st.hub) && Begun(cfg, st, now)
    ensures Reconcile(cfg, st, now).failure.None? <==>
              forall p | Settled(st.local, p) :: Doable(cfg, Registered(cfg, st, now), p)
  {
    hide PublishPhase, LinkPhase, Names, Purged, CrashSafe, Doable, SameAnswers, LinkSet.DepartedKeys, Settled, Told,
      Enrolled, FirstPassed;
    var start, mid, listed := Registered(cfg, st, now), FirstRun(cfg, st, now), Between(cfg, st, now);
    var names := Names(mid.st.hub.links.Keys);
    FirstPasses(cfg, st, now, "");
    forall q
      ensures Settled(listed.local, q)
      ensures SameAnswers(mid.st.hub, Purged(mid.st.hub), q)
    {
      FirstPasses(cfg, st, now, q);
    }
    PurgeOnly(mid.st.hub);
    NamesDistinct(mid.st.hub.links.Keys);
    LinkPhaseSucceeds(cfg, mid.st.hub, Run(listed, mid.done, None), names);
    forall p
      ensures Settled(st.local, p) ==> (Doable(cfg, listed, p) <==> Doable(cfg, start, p))
      ensures !Settled(st.local, p) ==> Doable(cfg, listed, p)
      ensures p !in listed.hub.links ==> Doable(cfg, listed, p)
    {
      FirstHalf(cfg, st, now, p);
      if Settled(st.local, p) {
        DoableSame(cfg, start, listed, p);
      } else {
        ToldIsDone(cfg, start, listed, p, now);
        DoneIsDoable(cfg, listed, p);
      }
      UnlistedDoable(cfg, listed, p);
    }
  }

  lemma DoneIsDoable(cfg: Config, st: State, p: string)
    requires !Takes(cfg, st, p) && forall r :: !Seals(cfg, st, p, r)
    ensures Doable(cfg, st, p)
  {
    hide LinkSet.CopyFor, LinkSet.Waiting, Inside;
    forall r
      ensures st.hub.CopyFor(p, cfg.device).Some? ==> r !in st.hub.Waiting(p)
    {
      assert !Seals(cfg, st, p, r);
    }
  }

  lemma UnlistedDoable(cfg: Config, st: State, p: string)
    ensures p !in st.hub.links ==> Doable(cfg, st, p)
  {
    hide Inside;
  }

  /** A reconcile succeeds exactly if this device is trusted, every credential changed here
      can be published, and every link to take or to seal for others opens and fits. */
  lemma SucceedsExactly(cfg: Config, st: State, now: nat)
    requires CrashSafe(st.hub) && !IsHome(cfg.device)
    ensures Reconcile(cfg, st, now).failure.None? <==> CanReconcile(cfg, st, now)
    ensures cfg.device !in st.hub.activeDevices ==>
              Reconcile(cfg, st, now) == Run(st, NothingDone, Some(Refused(NotADevice)))
  {
    hide TakePhase, PublishPhase, Names, CrashSafe, Publishable, Doable, RegisterRecipient, Settled, Begun;
    RegisterAnswers(st.hub, cfg.device, Point(cfg.key), now);
    if cfg.device in st.hub.activeDevices {
      FirstSucceeds(cfg, st, now);
      if Begun(cfg, st, now) {
        SecondSucceeds(cfg, st, now);
      }
      if Reconcile(cfg, st, now).failure.None? {
        SuccessIsBegun(cfg, st, now);
      }
    }
  }
}
