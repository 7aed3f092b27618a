/** What a reconcile that succeeds leaves, and that doing it again changes nothing. */
module LinkFixpoint {
  import opened Base
  import opened Order
  import opened Links
  import opened LinkEffects
  import opened LinkCoverage
  import opened LinkRuns
  import opened Seal
  import opened Credentials
  import opened LinkSync

  /** The account has heard of a provider's local credential, whichever way it stands. */
  ghost predicate Settled(local: Local, p: string) {
    !Changed(local, p) && !Unlinked(local, p)
  }

  /** Nothing the account holds of a provider is left to take, remove or seal. */
  ghost predicate Quiet(cfg: Config, hub: LinkSet, local: Local, p: string) {
    p in hub.links ==>
      && (hub.links[p].status == Revoked ==> p !in local.mirrors)
      && (hub.CopyFor(p, cfg.device).Some? ==>
            p in local.mirrors && local.mirrors[p].version == hub.links[p].version && hub.Waiting(p) == {})
  }

  /** The account holds something of a provider that this desktop has yet to take or remove. */
  ghost predicate Stale(cfg: Config, hub: LinkSet, local: Local, p: string) {
    p in hub.links
    && if hub.links[p].status == Revoked then p in local.mirrors
       else hub.CopyFor(p, cfg.device).Some?
            && (p in local.mirrors ==> local.mirrors[p].version != hub.links[p].version)
  }

  /** This device is trusted and its key is the one registered. */
  ghost predicate Enrolled(cfg: Config, hub: LinkSet) {
    && !IsHome(cfg.device) && cfg.device in hub.activeDevices
    && cfg.device in hub.recipients && hub.recipients[cfg.device].publicKey == cfg.key
  }

  /** The local records of every other provider are the same. */
  ghost predicate OnlyLocal(local: Local, local': Local, p: string) {
    forall q | q != p :: SameAt(local.creds, local'.creds, q) && SameAt(local.mirrors, local'.mirrors, q)
  }

  ghost predicate Distinct(names: seq<string>) {
    forall i, j | 0 <= i < j < |names| :: names[i] != names[j]
  }

  lemma NamesDistinct(s: set<string>)
    ensures Distinct(Names(s))
  {
    var r := Names(s);
    forall i, j | 0 <= i < j < |r|
      ensures r[i] != r[j]
    {
      LessIrreflexive(r[i]);
      assert Less(r[i], r[j]);
    }
  }

  lemma LastIsNew(names: seq<string>)
    requires Distinct(names) && names != []
    ensures Distinct(names[..|names| - 1])
    ensures names[|names| - 1] !in names[..|names| - 1]
  {
    assert names == names[..|names| - 1] + [names[|names| - 1]];
  }

  // ---- the first pass -----------------------------------------------------------------------

  /** A changed credential was made the account's next version, and this device's copy of it
      opens to what the credential holds. */
  ghost predicate Published(cfg: Config, before: State, after: State, p: string) {
    && p in before.local.creds && before.local.creds[p].Usable()
    && after.hub.LinkActive(p)
    && after.hub.links[p].version == before.hub.CurrentVersion(p) + 1
    && p in after.local.mirrors
    && after.local.mirrors[p] == Mirror(cfg.account, after.hub.links[p].version, before.local.creds[p].version)
    && after.hub.CopyFor(p, cfg.device).Some?
    && (ValidComponent(cfg.device) ==> OpenHere(cfg, after.hub, p) == Ok(Text(before.local.creds[p].token.value)))
  }

  /** A credential unlinked here was revoked at the account. */
  ghost predicate RevokedThere(before: State, after: State, p: string) {
    && p !in after.local.mirrors
    && after.hub.CurrentVersion(p) == before.hub.CurrentVersion(p)
    && (p in after.hub.links ==> after.hub.links[p].status == Revoked)
  }

  /** Every put a desktop makes serves the desktop itself a copy it can open. */
  lemma OwnCopy(cfg: Config, hub: LinkSet, p: string, cred: Credential, now: nat)
    requires CrashSafe(hub) && Enrolled(cfg, hub)
    requires cred.token.Some?
    requires MakeContext(cfg.account, p, hub.CurrentVersion(p) + 1).Some?
    requires PutLink(hub, p, Some(cfg.device), PutOf(cfg, hub, p, cred), now).Ok?
    ensures var after := Commit(hub, PutLink(hub, p, Some(cfg.device), PutOf(cfg, hub, p, cred), now));
            after.CopyFor(p, cfg.device).Some?
            && (ValidComponent(cfg.device) ==> OpenHere(cfg, after, p) == Ok(Text(cred.token.value)))
  {
    hide PutLink, PutOf, OpenHere, SealCopy;
    var put := PutOf(cfg, hub, p, cred);
    PutOnly(hub, p, Some(cfg.device), put, now);
    PutOfVersion(cfg, hub, p, cred);
    var c := PutServes(hub, p, Some(cfg.device), put, now, cfg.device);
    OwnCopySealed(cfg, hub, p, cred, c);
    if ValidComponent(cfg.device) {
      OwnCopyOpens(cfg, Commit(hub, PutLink(hub, p, Some(cfg.device), put, now)), p, cred.token.value);
    }
  }

  lemma OwnCopyOpens(cfg: Config, hub: LinkSet, p: string, text: string)
    requires hub.LinkActive(p) && ValidComponent(cfg.device)
    requires MakeContext(cfg.account, p, hub.links[p].version).Some?
    requires hub.CopyFor(p, cfg.device)
          == Some(SealCopy(Context(cfg.account, p, hub.links[p].version), Text(text), cfg.device, cfg.key))
    ensures OpenHere(cfg, hub, p) == Ok(Text(text))
  {
    hide LinkSet.CopyFor;
  }

  lemma OwnCopySealed(cfg: Config, hub: LinkSet, p: string, cred: Credential, c: SealedCopy)
    requires Enrolled(cfg, hub) && CrashSafe(hub) && cred.token.Some?
    requires c in PutOf(cfg, hub, p, cred).copies && c.deviceId == cfg.device
    ensures c == SealCopy(Context(cfg.account, p, hub.CurrentVersion(p) + 1), Text(cred.token.value), cfg.device,
                          cfg.key)
  {
    hide Names;
    SealAllProperties(Context(cfg.account, p, hub.CurrentVersion(p) + 1), Text(cred.token.value),
                      hub.AllRecipients(), Names(hub.AllRecipients().Keys));
    assert cfg.device !in hub.homes;
    assert hub.AllRecipients()[cfg.device] == cfg.key;
  }

  /** Publishing one changed credential. */
  lemma PublishOne(cfg: Config, st: State, p: string, now: nat)
    requires CrashSafe(st.hub) && Enrolled(cfg, st.hub)
    requires PublishRecord(cfg, st, p, now).1.None?
    ensures var st' := PublishRecord(cfg, st, p, now).0;
            && Only(st.hub, st'.hub, p)
            && st'.local.creds == st.local.creds && OnlyLocal(st.local, st'.local, p)
            && Published(cfg, st, st', p) && Settled(st'.local, p)
  {
    hide PutLink, PutOf, OpenHere, Purged, CrashSafe, SameAnswers;
    var hub := Purged(st.hub);
    var cred := st.local.creds[p];
    PurgeOnly(st.hub);
    PutOnly(hub, p, Some(cfg.device), PutOf(cfg, hub, p, cred), now);
    OwnCopy(cfg, hub, p, cred, now);
    PutOfVersion(cfg, hub, p, cred);
    OnlyTrans(st.hub, hub, PublishRecord(cfg, st, p, now).0.hub, p);
  }

  lemma PutOfVersion(cfg: Config, hub: LinkSet, p: string, cred: Credential)
    requires cred.token.Some?
    ensures PutOf(cfg, hub, p, cred).expectedVersion == hub.CurrentVersion(p)
  {
  }

  lemma OnlyTrans(a: LinkSet, b: LinkSet, c: LinkSet, p: string)
    requires SamePeople(a, b) && (forall q :: SameAnswers(a, b, q))
    requires Only(b, c, p)
    ensures Only(a, c, p)
  {
    forall q | q != p
      ensures SameAnswers(a, c, q)
    {
      assert SameAnswers(a, b, q) && SameAnswers(b, c, q);
    }
  }

  /** What the first pass has done for the providers it has been through. */
  ghost predicate FirstPass(cfg: Config, st: State, run: Run, providers: seq<string>) {
    && run.st.local.creds == st.local.creds
    && CrashSafe(run.st.hub) && SamePeople(st.hub, run.st.hub)
    && (forall q | q !in providers ::
          SameAnswers(st.hub, run.st.hub, q) && SameAt(st.local.mirrors, run.st.local.mirrors, q))
    && (forall q | q in providers :: FirstPassed(cfg, st, run, q))
    && run.done == NothingDone.(published := run.done.published, revoked := run.done.revoked)
  }

  ghost predicate FirstPassed(cfg: Config, st: State, run: Run, q: string) {
    && Settled(run.st.local, q)
    && (q in run.done.published <==> Changed(st.local, q))
    && (q in run.done.revoked <==> Unlinked(st.local, q))
    && (Changed(st.local, q) ==> Published(cfg, st, run.st, q))
    && (Unlinked(st.local, q) ==> RevokedThere(st, run.st, q))
    && (!Changed(st.local, q) && !Unlinked(st.local, q) ==>
          SameAnswers(st.hub, run.st.hub, q) && SameAt(st.local.mirrors, run.st.local.mirrors, q))
  }

  /** Only one provider's records changed between two states of a pass. */
  ghost predicate StepOnly(a: State, b: State, p: string) {
    Only(a.hub, b.hub, p) && OnlyLocal(a.local, b.local, p) && b.local.creds == a.local.creds
  }

  lemma FirstPassedStays(cfg: Config, st: State, run: Run, run': Run, p: string, q: string)
    requires FirstPassed(cfg, st, run, q) && q != p
    requires StepOnly(run.st, run'.st, p)
    requires q in run'.done.published <==> q in run.done.published
    requires q in run'.done.revoked <==> q in run.done.revoked
    ensures FirstPassed(cfg, st, run', q)
  {
    hide OpenCopy, MakeContext;
    assert SameAnswers(run.st.hub, run'.st.hub, q);
    assert SameAt(run.st.local.mirrors, run'.st.local.mirrors, q);
  }

  lemma PublishStepEffect(cfg: Config, st: State, now: nat, run: Run, p: string)
    requires CrashSafe(run.st.hub) && Enrolled(cfg, run.st.hub)
    requires run.failure.None? && PublishStep(cfg, st.local, now, run, p).failure.None?
    requires run.st.local.creds == st.local.creds && p in st.local.creds
    requires SameAt(st.local.mirrors, run.st.local.mirrors, p) && SameAnswers(st.hub, run.st.hub, p)
    requires p !in run.done.published && p !in run.done.revoked
    ensures var run' := PublishStep(cfg, st.local, now, run, p);
            && StepOnly(run.st, run'.st, p) && FirstPassed(cfg, st, run', p)
            && run'.done == run.done.(published := run'.done.published, revoked := run'.done.revoked)
            && (forall q | q != p :: q in run'.done.published <==> q in run.done.published)
            && (forall q | q != p :: q in run'.done.revoked <==> q in run.done.revoked)
  {
    hide PublishRecord, Revoke, OpenHere;
    if Changed(st.local, p) {
      PublishOne(cfg, run.st, p, now);
      assert run.st.hub.CurrentVersion(p) == st.hub.CurrentVersion(p);
    } else if Unlinked(st.local, p) {
      RevokeOnly(run.st.hub, p, now);
    } else {
      SameOnly(run.st.hub, p);
    }
  }

  lemma SameOnly(h: LinkSet, p: string)
    requires CrashSafe(h)
    ensures Only(h, h, p)
  {
  }

  lemma {:induction false} PublishPhaseEffect(cfg: Config, st: State, now: nat, providers: seq<string>)
    requires CrashSafe(st.hub) && Enrolled(cfg, st.hub)
    requires Distinct(providers) && forall p | p in providers :: p in st.local.creds
    requires PublishPhase(cfg, st.local, now, Run(st, NothingDone, None), providers).failure.None?
    ensures FirstPass(cfg, st, PublishPhase(cfg, st.local, now, Run(st, NothingDone, None), providers), providers)
    ensures forall q | q !in providers ::
              var run := PublishPhase(cfg, st.local, now, Run(st, NothingDone, None), providers);
              q !in run.done.published && q !in run.done.revoked
    decreases |providers|
  {
    hide PublishStep, FirstPassed;
    if providers != [] {
      var before := providers[..|providers| - 1];
      var p := providers[|providers| - 1];
      LastIsNew(providers);
      var run := PublishPhase(cfg, st.local, now, Run(st, NothingDone, None), before);
      StepFailureStays(cfg, st.local, now, run, p);
      PublishPhaseEffect(cfg, st, now, before);
      PublishStepEffect(cfg, st, now, run, p);
      var run' := PublishStep(cfg, st.local, now, run, p);
      forall q | q in before
        ensures FirstPassed(cfg, st, run', q)
      {
        FirstPassedStays(cfg, st, run, run', p, q);
      }
      FirstPassJoins(cfg, st, run, run', before, p);
      assert providers == before + [p];
    }
  }

  lemma StepFailureStays(cfg: Config, seen: Local, now: nat, run: Run, p: string)
    ensures run.failure.Some? ==> PublishStep(cfg, seen, now, run, p).failure.Some?
  {
  }

  lemma FirstPassJoins(cfg: Config, st: State, run: Run, run': Run, before: seq<string>, p: string)
    requires FirstPass(cfg, st, run, before) && StepOnly(run.st, run'.st, p)
    requires forall q | q in before :: FirstPassed(cfg, st, run', q)
    requires FirstPassed(cfg, st, run', p)
    requires run'.done == run.done.(published := run'.done.published, revoked := run'.done.revoked)
    ensures FirstPass(cfg, st, run', before + [p])
  {
    hide FirstPassed;
    forall q | q !in before + [p]
      ensures SameAnswers(st.hub, run'.st.hub, q) && SameAt(st.local.mirrors, run'.st.local.mirrors, q)
    {
      assert SameAnswers(st.hub, run.st.hub, q) && SameAnswers(run.st.hub, run'.st.hub, q);
      assert SameAt(run.st.local.mirrors, run'.st.local.mirrors, q);
    }
  }

  // ---- the second pass ----------------------------------------------------------------------

  lemma TakeSettles(cfg: Config, hub: LinkSet, local: Local, p: string, text: string)
    requires p in hub.links
    ensures var local' := Take(cfg, hub, local, p, text);
            && OnlyLocal(local, local', p) && Settled(local', p)
            && p in local'.mirrors && local'.mirrors[p].version == hub.links[p].version
  {
  }

  lemma AddKeepsPurged(hub: LinkSet, p: string, version: nat, copies: seq<SealedCopy>)
    requires CrashSafe(hub) && hub.DepartedKeys() == {}
    requires AddCopies(hub, p, version, copies).Ok?
    ensures Commit(hub, AddCopies(hub, p, version, copies)).DepartedKeys() == {}
  {
    var hub' := Commit(hub, AddCopies(hub, p, version, copies));
    AddAdmitted(hub, p, version, copies);
    AddEffect(hub, p, version, copies);
    forall k | k in hub'.copies && hub'.copies[k].provider in hub'.links
      ensures hub'.MayHold(hub'.copies[k].provider, hub'.copies[k].copy.deviceId)
    {
      if k.provider == p && k.device in SealedFor(copies) {
        assert IsCopyOf(hub'.copies[k], k, version, copies);
        assert k.device in hub.Waiting(p);
      } else {
        assert k in hub.copies && k !in hub.DepartedKeys();
      }
    }
  }

  /** Adding for the waiting keeps the copy of a device that already holds one. */
  lemma AddKeepsHeld(hub: LinkSet, p: string, version: nat, copies: seq<SealedCopy>, device: string)
    requires AddCopies(hub, p, version, copies).Ok?
    requires hub.CopyFor(p, device).Some?
    ensures Commit(hub, AddCopies(hub, p, version, copies)).CopyFor(p, device) == hub.CopyFor(p, device)
  {
    AddAdmitted(hub, p, version, copies);
    AddEffect(hub, p, version, copies);
    assert device !in hub.Waiting(p);
  }

  lemma WaitingAreRecipients(hub: LinkSet, p: string)
    ensures hub.Waiting(p) <= hub.AllRecipients().Keys
  {
  }

  lemma SealedForWaiting(cfg: Config, hub: LinkSet, p: string, version: nat, secret: Secret)
    ensures SealedFor(ForWaiting(cfg, hub, p, version, secret, hub.Waiting(p))) == hub.Waiting(p)
  {
    hide Names, SealAll, LinkSet.AllRecipients, LinkSet.Waiting;
    WaitingAreRecipients(hub, p);
    var names := Names(hub.AllRecipients().Keys * hub.Waiting(p));
    SealAllProperties(Context(cfg.account, p, version), secret, hub.AllRecipients(), names);
    assert (set n | n in names) == hub.AllRecipients().Keys * hub.Waiting(p);
  }

  /** What one link of the second pass leaves. */
  ghost predicate SecondPassed(cfg: Config, st: State, st': State, p: string) {
    && Only(st.hub, st'.hub, p) && OnlyLocal(st.local, st'.local, p)
    && st'.hub.links == st.hub.links && st'.hub.DepartedKeys() == {}
    && Quiet(cfg, st'.hub, st'.local, p) && Settled(st'.local, p)
    && (st.hub.CopyFor(p, cfg.device).Some? ==> st'.hub.CopyFor(p, cfg.device) == st.hub.CopyFor(p, cfg.device))
    && (!Stale(cfg, st.hub, st.local, p) ==>
          SameAt(st.local.creds, st'.local.creds, p) && SameAt(st.local.mirrors, st'.local.mirrors, p))
  }

  /** Sealing for everyone waiting, once the mirror is up to date, settles the link. */
  lemma SealStep(cfg: Config, run: Run, link: Summary, secret: Secret)
    requires CrashSafe(run.st.hub) && run.st.hub.DepartedKeys() == {}
    requires link.provider in run.st.hub.links && link.waiting == run.st.hub.Waiting(link.provider)
    requires run.st.hub.CopyFor(link.provider, cfg.device).Some?
    requires link.provider in run.st.local.mirrors
    requires run.st.local.mirrors[link.provider].version == run.st.hub.links[link.provider].version
    requires Settled(run.st.local, link.provider)
    requires SealWaiting(cfg, run, link, secret).failure.None?
    ensures SecondPassed(cfg, run.st, SealWaiting(cfg, run, link, secret).st, link.provider)
    ensures SealWaiting(cfg, run, link, secret).st.local == run.st.local
  {
    hide AddCopies, ForWaiting;
    var hub, p := run.st.hub, link.provider;
    var version := hub.links[p].version;
    var copies := ForWaiting(cfg, hub, p, version, secret, link.waiting);
    AddOnly(hub, p, version, copies);
    AddKeepsPurged(hub, p, version, copies);
    AddKeepsHeld(hub, p, version, copies, cfg.device);
    SealedForWaiting(cfg, hub, p, version, secret);
  }

  lemma TakeThenSeal(cfg: Config, st: State, mid: State, st': State, p: string)
    requires mid.hub == st.hub && OnlyLocal(st.local, mid.local, p)
    requires SecondPassed(cfg, mid, st', p) && st'.local == mid.local
    requires Stale(cfg, st.hub, st.local, p)
    ensures SecondPassed(cfg, st, st', p)
  {
  }

  lemma StillPassed(cfg: Config, st: State, st': State, p: string)
    requires CrashSafe(st.hub) && st'.hub == st.hub && st.hub.DepartedKeys() == {}
    requires OnlyLocal(st.local, st'.local, p)
    requires Quiet(cfg, st'.hub, st'.local, p) && Settled(st'.local, p)
    requires !Stale(cfg, st.hub, st.local, p) ==> st'.local == st.local
    ensures SecondPassed(cfg, st, st', p)
  {
    SameOnly(st.hub, p);
  }

  lemma LinkStepEffect(cfg: Config, mirrors: map<string, Mirror>, run: Run, link: Summary)
    requires CrashSafe(run.st.hub) && run.st.hub.DepartedKeys() == {}
    requires link.provider in run.st.hub.links && link == Summarize(cfg, run.st.hub, link.provider)
    requires SameAt(mirrors, run.st.local.mirrors, link.provider)
    requires Settled(run.st.local, link.provider)
    requires run.failure.None? && LinkStep(cfg, mirrors, run, link).failure.None?
    ensures SecondPassed(cfg, run.st, LinkStep(cfg, mirrors, run, link).st, link.provider)
  {
    hide SealWaiting, OpenHere, SecondPassed, Take;
    var p := link.provider;
    var run' := LinkStep(cfg, mirrors, run, link);
    var hub := run.st.hub;
    if link.status == Revoked || !link.hasCopy || (!Behind(mirrors, link) && link.waiting == {}) {
      StillPassed(cfg, run.st, run'.st, p);
    } else {
      var secret := OpenHere(cfg, hub, p).value;
      if Behind(mirrors, link) {
        TakeSettles(cfg, hub, run.st.local, p, secret.text);
        var taken := Run(State(hub, Take(cfg, hub, run.st.local, p, secret.text)),
                         run.done.(taken := run.done.taken + [p]), None);
        if link.waiting == {} {
          StillPassed(cfg, run.st, taken.st, p);
        } else {
          SealStep(cfg, taken, link, secret);
          TakeThenSeal(cfg, run.st, taken.st, run'.st, p);
        }
      } else {
        SealStep(cfg, run, link, secret);
      }
    }
  }

  /** What the second pass has done for the links it has been through. */
  ghost predicate SecondPass(cfg: Config, st: State, st': State, providers: seq<string>) {
    && CrashSafe(st'.hub) && SamePeople(st.hub, st'.hub)
    && st'.hub.links == st.hub.links && st'.hub.DepartedKeys() == {}
    && (forall q | q !in providers ::
          SameAnswers(st.hub, st'.hub, q)
          && SameAt(st.local.creds, st'.local.creds, q) && SameAt(st.local.mirrors, st'.local.mirrors, q))
    && (forall q | q in providers :: SecondSettled(cfg, st, st', q))
  }

  ghost predicate SecondSettled(cfg: Config, st: State, st': State, q: string) {
    && Quiet(cfg, st'.hub, st'.local, q) && Settled(st'.local, q)
    && (st.hub.CopyFor(q, cfg.device).Some? ==> st'.hub.CopyFor(q, cfg.device) == st.hub.CopyFor(q, cfg.device))
    && (!Stale(cfg, st.hub, st.local, q) ==>
          SameAt(st.local.creds, st'.local.creds, q) && SameAt(st.local.mirrors, st'.local.mirrors, q))
  }

  lemma SecondSettledStays(cfg: Config, st: State, mid: State, st': State, p: string, q: string)
    requires SecondSettled(cfg, st, mid, q) && q != p
    requires SecondPassed(cfg, mid, st', p)
    ensures SecondSettled(cfg, st, st', q)
  {
    assert SameAnswers(mid.hub, st'.hub, q);
    assert SameAt(mid.local.creds, st'.local.creds, q) && SameAt(mid.local.mirrors, st'.local.mirrors, q);
  }

  lemma SecondPassJoins(cfg: Config, st: State, mid: State, st': State, before: seq<string>, p: string)
    requires SecondPass(cfg, st, mid, before) && p !in before
    requires SecondPassed(cfg, mid, st', p)
    ensures SecondPass(cfg, st, st', before + [p])
  {
    hide SecondSettled, Quiet, Settled;
    forall q | q !in before + [p]
      ensures SameAnswers(st.hub, st'.hub, q)
      ensures SameAt(st.local.creds, st'.local.creds, q) && SameAt(st.local.mirrors, st'.local.mirrors, q)
    {
      assert SameAnswers(st.hub, mid.hub, q) && SameAnswers(mid.hub, st'.hub, q);
    }
    forall q | q in before
      ensures SecondSettled(cfg, st, st', q)
    {
      SecondSettledStays(cfg, st, mid, st', p, q);
    }
    SecondSettledLast(cfg, st, mid, st', p);
  }

  lemma SecondSettledLast(cfg: Config, st: State, mid: State, st': State, p: string)
    requires SecondPassed(cfg, mid, st', p)
    requires mid.hub.links == st.hub.links && SameAnswers(st.hub, mid.hub, p)
    requires SameAt(st.local.creds, mid.local.creds, p) && SameAt(st.local.mirrors, mid.local.mirrors, p)
    ensures SecondSettled(cfg, st, st', p)
  {
  }

  lemma LinkFailureStays(cfg: Config, mirrors: map<string, Mirror>, run: Run, link: Summary)
    ensures run.failure.Some? ==> LinkStep(cfg, mirrors, run, link).failure.Some?
  {
  }

  lemma {:induction false} LinkPhaseEffect(cfg: Config, listed: LinkSet, run0: Run, providers: seq<string>)
    requires CrashSafe(run0.st.hub) && run0.st.hub.DepartedKeys() == {} && run0.failure.None?
    requires run0.st.hub.links == listed.links && forall q :: SameAnswers(listed, run0.st.hub, q)
    requires Distinct(providers) && forall p | p in providers :: p in listed.links
    requires forall q :: Settled(run0.st.local, q)
    requires LinkPhase(cfg, listed, run0.st.local.mirrors, run0, providers).failure.None?
    ensures SecondPass(cfg, run0.st, LinkPhase(cfg, listed, run0.st.local.mirrors, run0, providers).st, providers)
    decreases |providers|
  {
    hide LinkStep, SecondPassed;
    if providers != [] {
      var before := providers[..|providers| - 1];
      var p := providers[|providers| - 1];
      LastIsNew(providers);
      var mirrors := run0.st.local.mirrors;
      var run := LinkPhase(cfg, listed, mirrors, run0, before);
      var link := Summarize(cfg, listed, p);
      LinkFailureStays(cfg, mirrors, run, link);
      LinkPhaseEffect(cfg, listed, run0, before);
      SummarySame(cfg, listed, run0.st.hub, run.st.hub, p);
      SettledSame(run0.st.local, run.st.local, p);
      LinkStepEffect(cfg, mirrors, run, link);
      SecondPassJoins(cfg, run0.st, run.st, LinkStep(cfg, mirrors, run, link).st, before, p);
      assert providers == before + [p];
    } else {
      SecondPassStarts(cfg, run0.st);
    }
  }

  lemma SecondPassStarts(cfg: Config, st: State)
    requires CrashSafe(st.hub) && st.hub.DepartedKeys() == {}
    ensures SecondPass(cfg, st, st, [])
  {
  }

  lemma SummarySame(cfg: Config, listed: LinkSet, mid: LinkSet, hub: LinkSet, p: string)
    requires p in listed.links && mid.links == listed.links && hub.links == mid.links
    requires SameAnswers(listed, mid, p) && SameAnswers(mid, hub, p)
    ensures Summarize(cfg, listed, p) == Summarize(cfg, hub, p)
  {
  }

  lemma SettledSame(local: Local, local': Local, p: string)
    requires Settled(local, p)
    requires SameAt(local.creds, local'.creds, p) && SameAt(local.mirrors, local'.mirrors, p)
    ensures Settled(local', p)
  {
  }

  lemma {:induction false} LinkPhaseReports(cfg: Config, listed: LinkSet, mirrors: map<string, Mirror>, run: Run,
                                            providers: seq<string>)
    requires forall p | p in providers :: p in listed.links
    ensures LinkPhase(cfg, listed, mirrors, run, providers).done.published == run.done.published
    ensures LinkPhase(cfg, listed, mirrors, run, providers).done.revoked == run.done.revoked
    decreases |providers|
  {
    hide LinkStep;
    if providers != [] {
      var before := providers[..|providers| - 1];
      LinkPhaseReports(cfg, listed, mirrors, run, before);
      LinkStepReports(cfg, mirrors, LinkPhase(cfg, listed, mirrors, run, before),
                      Summarize(cfg, listed, providers[|providers| - 1]));
    }
  }

  lemma LinkStepReports(cfg: Config, mirrors: map<string, Mirror>, run: Run, link: Summary)
    ensures LinkStep(cfg, mirrors, run, link).done.published == run.done.published
    ensures LinkStep(cfg, mirrors, run, link).done.revoked == run.done.revoked
  {
    hide OpenHere, Take, Pairs, Names, AddCopies, ForWaiting;
  }

  // ---- the whole reconcile --------------------------------------------------------------------

  /** The state once the device's key is registered. */
  function Registered(cfg: Config, st: State, now: nat): State {
    State(Commit(st.hub, RegisterRecipient(st.hub, cfg.device, Point(cfg.key), now)), st.local)
  }

  lemma RegisterEnrols(cfg: Config, st: State, now: nat)
    requires CrashSafe(st.hub) && !IsHome(cfg.device)
    requires RegisterRecipient(st.hub, cfg.device, Point(cfg.key), now).Ok?
    ensures CrashSafe(Registered(cfg, st, now).hub) && Enrolled(cfg, Registered(cfg, st, now).hub)
    ensures Registered(cfg, st, now).hub.links == st.hub.links
  {
    RegisterAdmissible(st.hub, cfg.device, Point(cfg.key), now);
    AdmissibleSafe(st.hub, RegisterRecipient(st.hub, cfg.device, Point(cfg.key), now).value);
    RegisterEffect(st.hub, cfg.device, Point(cfg.key), now);
  }

  /** The state between the two passes. */
  function FirstRun(cfg: Config, st: State, now: nat): Run {
    var st1 := Registered(cfg, st, now);
    PublishPhase(cfg, st1.local, now, Run(st1, NothingDone, None), Names(st1.local.creds.Keys))
  }

  lemma ReconcilePasses(cfg: Config, st: State, now: nat)
    requires CrashSafe(st.hub) && !IsHome(cfg.device)
    requires Reconcile(cfg, st, now).failure.None?
    ensures CrashSafe(Registered(cfg, st, now).hub) && Enrolled(cfg, Registered(cfg, st, now).hub)
    ensures Registered(cfg, st, now).hub.links == st.hub.links
    ensures FirstPass(cfg, Registered(cfg, st, now), FirstRun(cfg, st, now), Names(st.local.creds.Keys))
    ensures forall q :: Settled(FirstRun(cfg, st, now).st.local, q)
    ensures forall q :: SameAnswers(FirstRun(cfg, st, now).st.hub, Purged(FirstRun(cfg, st, now).st.hub), q)
    ensures SecondPass(cfg, State(Purged(FirstRun(cfg, st, now).st.hub), FirstRun(cfg, st, now).st.local),
                       Reconcile(cfg, st, now).st, Names(FirstRun(cfg, st, now).st.hub.links.Keys))
    ensures Reconcile(cfg, st, now).done.published == FirstRun(cfg, st, now).done.published
    ensures Reconcile(cfg, st, now).done.revoked == FirstRun(cfg, st, now).done.revoked
    ensures forall q | q !in st.local.creds ::
              q !in FirstRun(cfg, st, now).done.published && q !in FirstRun(cfg, st, now).done.revoked
  {
    hide PublishPhase, LinkPhase, Names, Purged, FirstPassed, SecondPass, SameAnswers;
    var st1 := Registered(cfg, st, now);
    RegisterEnrols(cfg, st, now);
    NamesDistinct(st.local.creds.Keys);
    var run := FirstRun(cfg, st, now);
    PublishPhaseEffect(cfg, st1, now, Names(st.local.creds.Keys));
    forall q
      ensures Settled(run.st.local, q)
    {
      if q in st.local.creds {
        assert FirstPassed(cfg, st1, run, q);
        FirstPassedSettles(cfg, st1, run, q);
      }
    }
    PurgeOnly(run.st.hub);
    NamesDistinct(run.st.hub.links.Keys);
    var run0 := Run(State(Purged(run.st.hub), run.st.local), run.done, None);
    LinkPhaseReports(cfg, run.st.hub, run.st.local.mirrors, run0, Names(run.st.hub.links.Keys));
    LinkPhaseEffect(cfg, run.st.hub, run0, Names(run.st.hub.links.Keys));
  }

  lemma FirstPassedSettles(cfg: Config, st: State, run: Run, q: string)
    requires FirstPassed(cfg, st, run, q)
    ensures Settled(run.st.local, q)
  {
  }

  /** Every change made here before a reconcile that succeeds is at the account after it:
      a changed credential is its next version, sealed so that this device opens it, and is
      not overwritten by anything taken; an unlinked one is revoked there. Nothing else is
      published or revoked. */
  lemma NoLostUpdate(cfg: Config, st: State, now: nat, p: string)
    requires CrashSafe(st.hub) && !IsHome(cfg.device)
    requires Reconcile(cfg, st, now).failure.None?
    ensures var run := Reconcile(cfg, st, now);
            && (p in run.done.published <==> Changed(st.local, p))
            && (p in run.done.revoked <==> Unlinked(st.local, p))
            && (Changed(st.local, p) ==>
                  Published(cfg, st, run.st, p) && SameAt(st.local.creds, run.st.local.creds, p))
            && (Unlinked(st.local, p) ==>
                  RevokedThere(st, run.st, p) && SameAt(st.local.creds, run.st.local.creds, p))
  {
    hide Reconcile, FirstRun, Names, Purged, Published, FirstPassed, SecondPass, RevokedThere, SameAnswers;
    ReconcilePasses(cfg, st, now);
    var st1, mid, st' := Registered(cfg, st, now), FirstRun(cfg, st, now), Reconcile(cfg, st, now).st;
    if p in st.local.creds {
      assert p in Names(st.local.creds.Keys);
      assert FirstPassed(cfg, st1, mid, p);
      assert SameAnswers(mid.st.hub, Purged(mid.st.hub), p);
      AfterFirst(cfg, st1, mid, p);
      LaterKeeps(cfg, st, st1, mid.st, State(Purged(mid.st.hub), mid.st.local), st', Names(mid.st.hub.links.Keys), p);
    }
  }

  lemma AfterFirst(cfg: Config, st: State, run: Run, p: string)
    requires FirstPassed(cfg, st, run, p)
    ensures p in run.done.published <==> Changed(st.local, p)
    ensures p in run.done.revoked <==> Unlinked(st.local, p)
    ensures Changed(st.local, p) ==> Published(cfg, st, run.st, p)
    ensures Unlinked(st.local, p) ==> RevokedThere(st, run.st, p)
  {
  }

  /** The second pass leaves what the first made of a provider as it was. */
  lemma LaterKeeps(cfg: Config, st: State, st1: State, mid: State, listed: State, st': State,
                   providers: seq<string>, p: string)
    requires st1.local == st.local && st1.hub.links == st.hub.links && mid.local.creds == st.local.creds
    requires listed.local == mid.local && SameAnswers(mid.hub, listed.hub, p)
    requires SecondPass(cfg, listed, st', providers)
    ensures Published(cfg, st1, mid, p) ==> Published(cfg, st, st', p) && SameAt(st.local.creds, st'.local.creds, p)
    ensures RevokedThere(st1, mid, p) ==> RevokedThere(st, st', p) && SameAt(st.local.creds, st'.local.creds, p)
  {
    hide OpenCopy, MakeContext, LinkSet.CopyFor, LinkSet.Waiting, LinkSet.DepartedKeys, Settled;
    if p in providers {
      assert SecondSettled(cfg, listed, st', p);
    } else {
      assert SameAnswers(listed.hub, st'.hub, p) && SameAt(listed.local.creds, st'.local.creds, p)
             && SameAt(listed.local.mirrors, st'.local.mirrors, p);
    }
  }

  // ---- doing it again -------------------------------------------------------------------------

  /** A state on which nothing is left to do. */
  ghost predicate InStep(cfg: Config, st: State) {
    && CrashSafe(st.hub) && Enrolled(cfg, st.hub) && st.hub.DepartedKeys() == {}
    && forall q :: Settled(st.local, q) && Quiet(cfg, st.hub, st.local, q)
  }

  lemma ReconcileBringsInStep(cfg: Config, st: State, now: nat)
    requires CrashSafe(st.hub) && !IsHome(cfg.device)
    requires Reconcile(cfg, st, now).failure.None?
    ensures InStep(cfg, Reconcile(cfg, st, now).st)
  {
    hide Reconcile, FirstRun, Names, Purged, FirstPassed, SameAnswers, Quiet, Settled, SecondSettled,
      LinkSet.DepartedKeys;
    ReconcilePasses(cfg, st, now);
    var mid, st' := FirstRun(cfg, st, now).st, Reconcile(cfg, st, now).st;
    var names := Names(mid.hub.links.Keys);
    PurgePeople(Registered(cfg, st, now).hub, mid.hub, st'.hub, cfg);
    forall q
      ensures Settled(st'.local, q) && Quiet(cfg, st'.hub, st'.local, q)
    {
      if q in names {
        assert SecondSettled(cfg, State(Purged(mid.hub), mid.local), st', q);
        SecondSettledEnds(cfg, State(Purged(mid.hub), mid.local), st', q);
      } else {
        SettledSame(mid.local, st'.local, q);
        QuietUnlisted(cfg, st'.hub, st'.local, q);
      }
    }
  }

  lemma PurgePeople(a: LinkSet, b: LinkSet, d: LinkSet, cfg: Config)
    requires CrashSafe(b) && SamePeople(a, b) && Enrolled(cfg, a) && SamePeople(Purged(b), d)
    ensures Enrolled(cfg, d) && Purged(b).links == b.links
  {
    PurgeOnly(b);
  }

  lemma SecondSettledEnds(cfg: Config, st: State, st': State, q: string)
    requires SecondSettled(cfg, st, st', q)
    ensures Settled(st'.local, q) && Quiet(cfg, st'.hub, st'.local, q)
  {
  }

  lemma QuietUnlisted(cfg: Config, hub: LinkSet, local: Local, q: string)
    requires q !in hub.links
    ensures Quiet(cfg, hub, local, q)
  {
  }

  lemma {:induction false} NothingToPublish(cfg: Config, st: State, now: nat, providers: seq<string>)
    requires InStep(cfg, st)
    ensures PublishPhase(cfg, st.local, now, Run(st, NothingDone, None), providers) == Run(st, NothingDone, None)
    decreases |providers|
  {
    if providers != [] {
      NothingToPublish(cfg, st, now, providers[..|providers| - 1]);
      assert Settled(st.local, providers[|providers| - 1]);
    }
  }

  lemma {:induction false} NothingToTake(cfg: Config, st: State, providers: seq<string>)
    requires InStep(cfg, st) && forall p | p in providers :: p in st.hub.links
    ensures LinkPhase(cfg, st.hub, st.local.mirrors, Run(st, NothingDone, None), providers)
         == Run(st, NothingDone, None)
    decreases |providers|
  {
    if providers != [] {
      NothingToTake(cfg, st, providers[..|providers| - 1]);
      assert Quiet(cfg, st.hub, st.local, providers[|providers| - 1]);
    }
  }

  lemma NothingToPurge(hub: LinkSet)
    requires hub.DepartedKeys() == {}
    ensures Purged(hub) == hub
  {
    assert Keys(hub.DepartedKeys()) == [];
  }

  /** After a reconcile that succeeds, a second one with nothing changed in between
      publishes, takes, removes, revokes and seals nothing, and changes no state. */
  lemma Fixpoint(cfg: Config, st: State, now: nat, later: nat)
    requires CrashSafe(st.hub) && !IsHome(cfg.device)
    requires Reconcile(cfg, st, now).failure.None?
    ensures var after := Reconcile(cfg, st, now).st; Reconcile(cfg, after, later) == Run(after, NothingDone, None)
  {
    var after := Reconcile(cfg, st, now).st;
    ReconcileBringsInStep(cfg, st, now);
    InStepStays(cfg, after, later);
  }

  lemma InStepStays(cfg: Config, st: State, now: nat)
    requires InStep(cfg, st)
    ensures Reconcile(cfg, st, now) == Run(st, NothingDone, None)
  {
    hide PublishPhase, LinkPhase, Names, Purged;
    NothingToPublish(cfg, st, now, Names(st.local.creds.Keys));
    NothingToPurge(st.hub);
    NothingToTake(cfg, st, Names(st.hub.links.Keys));
  }
}
