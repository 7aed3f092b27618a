/** What a reconcile that succeeds leaves of each provider, and what it reports, told from
    the account and the desktop as they were: what a taken credential holds, what is removed,
    and who is sealed what. */
module LinkOutcome {
  import opened Base
  import opened Order
  import opened Links
  import opened LinkEffects
  import opened LinkCoverage
  import opened LinkAnswers
  import opened Seal
  import opened Credentials
  import opened LinkSync
  import opened LinkFixpoint

  // ---- what there is to do -------------------------------------------------------------------------

  /** The account serves this device a version of the link that its mirror does not name. */
  ghost predicate Takes(cfg: Config, st: State, p: string) {
    st.hub.CopyFor(p, cfg.device).Some?
    && (p in st.local.mirrors ==> st.local.mirrors[p].version != VersionNow(st.hub, p))
  }

  /** The account has revoked a link this desktop mirrors. */
  ghost predicate Removes(st: State, p: string) {
    p in st.hub.links && st.hub.links[p].status == Revoked && p in st.local.mirrors
  }

  /** This device holds the link and another recipient waits for it. */
  ghost predicate Seals(cfg: Config, st: State, p: string, r: string) {
    st.hub.CopyFor(p, cfg.device).Some? && r in st.hub.Waiting(p)
  }

  /** What the copy this device is served opens to, under the version it is served as. */
  ghost function Inside(cfg: Config, hub: LinkSet, p: string): Option<Secret> {
    if hub.CopyFor(p, cfg.device).None? then None
    else
      match OpenCopy(Context(cfg.account, p, VersionNow(hub, p)), cfg.key, hub.CopyFor(p, cfg.device).value)
      case Ok(secret) => Some(secret)
      case Err(_) => None
  }

  // ---- what is left --------------------------------------------------------------------------------

  /** The credential taken: what the copy opens to, as the link says it is used, one local
      version on; and a mirror naming both versions. */
  ghost predicate Took(cfg: Config, st: State, after: Local, p: string) {
    && p in st.hub.links && Inside(cfg, st.hub, p).Some? && Inside(cfg, st.hub, p).value.Text?
    && p in after.creds && p in after.mirrors
    && after.creds[p].active && after.creds[p].token == Some(Inside(cfg, st.hub, p).value.text)
    && after.creds[p].baseUrl == st.hub.links[p].baseUrl && after.creds[p].classes == st.hub.links[p].classes
    && after.creds[p].authentication == AuthenticationFor(p)
    && after.creds[p].version == (if p in st.local.creds then st.local.creds[p].version + 1 else 1)
    && after.mirrors[p] == Mirror(cfg.account, st.hub.links[p].version, after.creds[p].version)
  }

  /** The credential removed: kept as a record at its version, unusable and unmirrored. */
  ghost predicate Dropped(before: Local, after: Local, p: string) {
    && p in after.creds && !after.creds[p].active && after.creds[p].token.None? && p !in after.mirrors
    && (p in before.creds ==>
          after.creds[p] == before.creds[p].(active := false, token := None))
  }

  ghost predicate SameHere(before: Local, after: Local, p: string) {
    SameAt(before.creds, after.creds, p) && SameAt(before.mirrors, after.mirrors, p)
  }

  /** The recipient is served what this device opened, sealed to the key the account lists
      for it. */
  ghost predicate Served(cfg: Config, hub: LinkSet, after: LinkSet, p: string, r: string) {
    && Inside(cfg, hub, p).Some? && r in hub.AllRecipients()
    && after.CopyFor(p, r)
       == Some(SealCopy(Context(cfg.account, p, VersionNow(hub, p)), Inside(cfg, hub, p).value, r,
                        hub.AllRecipients()[r]))
  }

  ghost predicate Outcome(cfg: Config, st: State, st': State, p: string) {
    && (Takes(cfg, st, p) ==> Took(cfg, st, st'.local, p))
    && (Removes(st, p) ==> Dropped(st.local, st'.local, p))
    && (!Takes(cfg, st, p) && !Removes(st, p) ==> SameHere(st.local, st'.local, p))
    && (forall r ::
          if Seals(cfg, st, p, r) then Served(cfg, st.hub, st'.hub, p, r)
          else st'.hub.CopyFor(p, r) == st.hub.CopyFor(p, r))
  }

  // ---- one link ------------------------------------------------------------------------------------

  lemma ServedIsActive(hub: LinkSet, p: string, r: string)
    requires hub.CopyFor(p, r).Some?
    ensures hub.LinkActive(p) && VersionNow(hub, p) == hub.links[p].version
  {
  }

  lemma OpenIs(cfg: Config, hub: LinkSet, p: string)
    requires hub.CopyFor(p, cfg.device).Some?
    ensures p in hub.links
    ensures OpenHere(cfg, hub, p).Ok? <==>
              MakeContext(cfg.account, p, hub.links[p].version).Some? && Inside(cfg, hub, p).Some?
    ensures OpenHere(cfg, hub, p).Ok? ==> Inside(cfg, hub, p) == Some(OpenHere(cfg, hub, p).value)
  {
    hide LinkSet.CopyFor, ValidComponent;
    ServedIsActive(hub, p, cfg.device);
  }

  lemma TakeIs(cfg: Config, st: State, p: string, text: string)
    requires p in st.hub.links && Inside(cfg, st.hub, p) == Some(Text(text))
    ensures Took(cfg, st, Take(cfg, st.hub, st.local, p, text), p)
  {
    hide Inside;
  }

  /** Sealing for the waiting serves each of them and nobody else. */
  lemma SealingServes(cfg: Config, hub: LinkSet, p: string, secret: Secret, r: string)
    requires p in hub.links && Inside(cfg, hub, p) == Some(secret)
    requires var copies := ForWaiting(cfg, hub, p, hub.links[p].version, secret, hub.Waiting(p));
             AddCopies(hub, p, hub.links[p].version, copies).Ok?
    ensures var copies := ForWaiting(cfg, hub, p, hub.links[p].version, secret, hub.Waiting(p));
            var hub' := Commit(hub, AddCopies(hub, p, hub.links[p].version, copies));
            if r in hub.Waiting(p) then Served(cfg, hub, hub', p, r) else hub'.CopyFor(p, r) == hub.CopyFor(p, r)
  {
    hide AddFrom, CheckCopy, ForWaiting, CopyFacts, Inside;
    var version := hub.links[p].version;
    var copies := ForWaiting(cfg, hub, p, version, secret, hub.Waiting(p));
    AddEffect(hub, p, version, copies);
    SealedForWaiting(cfg, hub, p, version, secret);
    WaitingAreRecipients(hub, p);
    var hub' := Commit(hub, AddCopies(hub, p, version, copies));
    var k := CopyKey(p, r);
    if r in hub.Waiting(p) {
      assert IsCopyOf(hub'.copies[k], k, version, copies);
      WaitingCopy(cfg, hub, p, version, secret, hub'.copies[k].copy);
    }
  }

  lemma WaitingCopy(cfg: Config, hub: LinkSet, p: string, version: nat, secret: Secret, c: SealedCopy)
    requires c in ForWaiting(cfg, hub, p, version, secret, hub.Waiting(p))
    ensures c.deviceId in hub.AllRecipients()
    ensures c == SealCopy(Context(cfg.account, p, version), secret, c.deviceId, hub.AllRecipients()[c.deviceId])
  {
    hide Names, SealCopy, SealAll;
    SealAllProperties(Context(cfg.account, p, version), secret, hub.AllRecipients(),
                      Names(hub.AllRecipients().Keys * hub.Waiting(p)));
  }

  lemma SealStepServes(cfg: Config, run: Run, link: Summary, secret: Secret, r: string)
    requires link.provider in run.st.hub.links && link.waiting == run.st.hub.Waiting(link.provider)
    requires Inside(cfg, run.st.hub, link.provider) == Some(secret)
    requires SealWaiting(cfg, run, link, secret).failure.None?
    ensures var hub, hub', p := run.st.hub, SealWaiting(cfg, run, link, secret).st.hub, link.provider;
            if r in hub.Waiting(p) then Served(cfg, hub, hub', p, r) else hub'.CopyFor(p, r) == hub.CopyFor(p, r)
  {
    hide AddCopies, ForWaiting, Inside, Served, LinkSet.CopyFor;
    SealingServes(cfg, run.st.hub, link.provider, secret, r);
  }

  /** What one link of the second pass leaves, in full. */
  lemma LinkStepOutcome(cfg: Config, mirrors: map<string, Mirror>, run: Run, link: Summary)
    requires link.provider in run.st.hub.links && link == Summarize(cfg, run.st.hub, link.provider)
    requires SameAt(mirrors, run.st.local.mirrors, link.provider)
    requires run.failure.None? && LinkStep(cfg, mirrors, run, link).failure.None?
    ensures Outcome(cfg, run.st, LinkStep(cfg, mirrors, run, link).st, link.provider)
  {
    hide SealWaiting, OpenHere, Take, Took, Served, Inside;
    var p, st, hub := link.provider, run.st, run.st.hub;
    var st' := LinkStep(cfg, mirrors, run, link).st;
    if hub.CopyFor(p, cfg.device).None? {
      Unserved(cfg, mirrors, run, link);
    } else {
      ServedIsActive(hub, p, cfg.device);
      OpenIs(cfg, hub, p);
      if Behind(mirrors, link) || link.waiting != {} {
        StepOpens(cfg, mirrors, run, link);
      }
      forall r
        ensures if Seals(cfg, st, p, r) then Served(cfg, hub, st'.hub, p, r)
                else st'.hub.CopyFor(p, r) == hub.CopyFor(p, r)
      {
        StepSeals(cfg, mirrors, run, link, r);
      }
      StepTakes(cfg, mirrors, run, link);
    }
  }

  lemma Unserved(cfg: Config, mirrors: map<string, Mirror>, run: Run, link: Summary)
    requires link.provider in run.st.hub.links && link == Summarize(cfg, run.st.hub, link.provider)
    requires SameAt(mirrors, run.st.local.mirrors, link.provider)
    requires run.failure.None? && run.st.hub.CopyFor(link.provider, cfg.device).None?
    ensures Outcome(cfg, run.st, LinkStep(cfg, mirrors, run, link).st, link.provider)
  {
    hide OpenHere, SealWaiting, LinkSet.CopyFor;
  }

  lemma StepOpens(cfg: Config, mirrors: map<string, Mirror>, run: Run, link: Summary)
    requires link.provider in run.st.hub.links && link == Summarize(cfg, run.st.hub, link.provider)
    requires run.failure.None? && LinkStep(cfg, mirrors, run, link).failure.None?
    requires run.st.hub.CopyFor(link.provider, cfg.device).Some? && (Behind(mirrors, link) || link.waiting != {})
    ensures OpenHere(cfg, run.st.hub, link.provider).Ok?
    ensures Behind(mirrors, link) ==> OpenHere(cfg, run.st.hub, link.provider).value.Text?
  {
    hide OpenHere, SealWaiting, LinkSet.CopyFor, Take;
    ServedIsActive(run.st.hub, link.provider, cfg.device);
  }

  lemma StepTakes(cfg: Config, mirrors: map<string, Mirror>, run: Run, link: Summary)
    requires link.provider in run.st.hub.links && link == Summarize(cfg, run.st.hub, link.provider)
    requires SameAt(mirrors, run.st.local.mirrors, link.provider)
    requires run.failure.None? && LinkStep(cfg, mirrors, run, link).failure.None?
    requires run.st.hub.CopyFor(link.provider, cfg.device).Some? && run.st.hub.LinkActive(link.provider)
    ensures var p, st, st' := link.provider, run.st, LinkStep(cfg, mirrors, run, link).st;
            if Takes(cfg, st, p) then Took(cfg, st, st'.local, p) else SameHere(st.local, st'.local, p)
  {
    hide OpenHere, LinkSet.CopyFor, Take, Took, AddCopies, ForWaiting, Inside, LinkSet.Waiting;
    var p, st := link.provider, run.st;
    if Takes(cfg, st, p) {
      StepOpens(cfg, mirrors, run, link);
      OpenIs(cfg, st.hub, p);
      TakeIs(cfg, st, p, OpenHere(cfg, st.hub, p).value.text);
    }
  }

  lemma StepSeals(cfg: Config, mirrors: map<string, Mirror>, run: Run, link: Summary, r: string)
    requires link.provider in run.st.hub.links && link == Summarize(cfg, run.st.hub, link.provider)
    requires run.failure.None? && LinkStep(cfg, mirrors, run, link).failure.None?
    requires run.st.hub.CopyFor(link.provider, cfg.device).Some? && run.st.hub.LinkActive(link.provider)
    ensures var p, hub, hub' := link.provider, run.st.hub, LinkStep(cfg, mirrors, run, link).st.hub;
            if r in hub.Waiting(p) then Served(cfg, hub, hub', p, r) else hub'.CopyFor(p, r) == hub.CopyFor(p, r)
  {
    hide OpenHere, LinkSet.CopyFor, Take, Served, SealWaiting, Inside, LinkSet.Waiting;
    var p, hub := link.provider, run.st.hub;
    if link.waiting != {} {
      StepOpens(cfg, mirrors, run, link);
      OpenIs(cfg, hub, p);
      var secret := OpenHere(cfg, hub, p).value;
      if Behind(mirrors, link) {
        var taken := Run(State(hub, Take(cfg, hub, run.st.local, p, secret.text)),
                         run.done.(taken := run.done.taken + [p]), None);
        SealStepServes(cfg, taken, link, secret, r);
      } else {
        SealStepServes(cfg, run, link, secret, r);
      }
    }
  }
}
