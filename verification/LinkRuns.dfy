/** Whole runs of the account authority. A command's facts are appended one by one, so
    the Hub may stop after any prefix of them; between commands devices are trusted and
    distrusted and Homes come and go. */
module LinkRuns {
  import opened Base
  import opened Order
  import opened Links
  import opened LinkEffects
  import opened LinkCoverage

  /** A request the authority decides, as its routes admit one. */
  datatype Command =
    | CmdRegister(device: string, key: KeyText)
    | CmdPut(provider: string, caller: Option<string>, put: PutRequest)
    | CmdAdd(provider: string, device: string, version: nat, copies: seq<SealedCopy>)
    | CmdRevoke(provider: string)
    | CmdForget(device: string)
    | CmdLease(provider: string, device: string, ttl: nat)
    | CmdCheck(provider: string, device: string, version: nat, reachable: bool)
    | CmdPurge

  function Decide(s: LinkSet, c: Command, now: nat): Decision {
    match c
    case CmdRegister(device, key) => RegisterRecipient(s, device, key, now)
    case CmdPut(provider, caller, put) => PutLink(s, provider, caller, put, now)
    case CmdAdd(provider, device, version, copies) =>
      if s.CopyFor(provider, device).None? then Err(NotADevice) else AddCopies(s, provider, version, copies)
    case CmdRevoke(provider) => RevokeLink(s, provider, now)
    case CmdForget(device) => Ok(ForgetDevice(s, device))
    case CmdLease(provider, device, ttl) => TakeLease(s, provider, device, ttl, now)
    case CmdCheck(provider, device, version, reachable) => RecordCheck(s, provider, device, version, reachable, now)
    case CmdPurge => Ok(DepartedCopies(s))
  }

  /** Only a recipient that holds the current version may add copies of it for others. */
  lemma OnlyHoldersAdd(s: LinkSet, provider: string, device: string, version: nat, copies: seq<SealedCopy>, now: nat)
    ensures var d := Decide(s, CmdAdd(provider, device, version, copies), now);
            if s.HasCurrentCopy(provider, device) && s.MayHold(provider, device)
            then d == AddCopies(s, provider, version, copies)
            else d == Err(NotADevice)
  {
  }

  /** One step of a run. `written` is how many of the command's facts reached the store
      before the Hub stopped; a command that was not cut short writes all of them. A
      Home's rekeying drops some of the copies sealed for it in the same commit. */
  datatype Step =
    | Do(command: Command, now: nat, written: nat)
    | Trust(device: string)
    | Distrust(device: string)
    | Homes(homes: map<string, PublicKey>, dropped: set<CopyKey>)

  function Written(s: LinkSet, step: Step): seq<LinkFact>
    requires step.Do?
  {
    var d := Decide(s, step.command, step.now);
    if d.Ok? then d.value[..Min(step.written, |d.value|)] else []
  }

  /** A refused command changes nothing. A device is never named as a Home is, nor a
      Home as a device is. */
  function Next(s: LinkSet, step: Step): LinkSet {
    match step
    case Do(_, _, _) => ApplyAll(s, Written(s, step))
    case Trust(device) => if IsHome(device) then s else s.(activeDevices := s.activeDevices + {device})
    case Distrust(device) => s.(activeDevices := s.activeDevices - {device})
    case Homes(homes, dropped) =>
      s.(homes := map h | h in homes && IsHome(h) :: homes[h],
         copies := s.copies - (set k | k in dropped && IsHome(k.device)))
  }

  function Exec(s: LinkSet, steps: seq<Step>): LinkSet
    decreases |steps|
  {
    if steps == [] then s else Exec(Next(s, steps[0]), steps[1..])
  }

  lemma {:induction false} ExecConcat(s: LinkSet, a: seq<Step>, b: seq<Step>)
    ensures Exec(s, a + b) == Exec(Exec(s, a), b)
    decreases |a|
  {
    if a == [] {
      assert a + b == b;
    } else {
      assert (a + b)[1..] == a[1..] + b;
      ExecConcat(Next(s, a[0]), a[1..], b);
    }
  }

  // ---- what may be written next ----------------------------------------------------

  /** A fact that may follow a state: it never lowers or revives a version, writes a copy
      only at the current version for a recipient named by its key, and names only
      trusted devices. */
  ghost predicate MayFollow(s: LinkSet, fact: LinkFact) {
    match fact
    case Recipient(r) => r.op == Upsert ==> r.id in s.activeDevices
    case Link(r) =>
      r.op == Upsert
      && (r.version > s.CurrentVersion(r.id)
          || (r.id in s.links && r.version == s.links[r.id].version && r.status == Revoked))
    case Copy(r) =>
      r.op == Upsert ==>
        && r.id == CopyKey(r.provider, r.copy.deviceId)
        && r.provider in s.links && r.version == s.links[r.provider].version
        && (IsHome(r.copy.deviceId) || r.copy.deviceId in s.activeDevices)
    case Lease(r) => r.op == Upsert ==> r.deviceId in s.activeDevices
    case Check(_) => true
  }

  ghost predicate Admissible(s: LinkSet, facts: seq<LinkFact>)
    decreases |facts|
  {
    facts == [] || (MayFollow(s, facts[0]) && Admissible(Apply(s, facts[0]), facts[1..]))
  }

  lemma {:induction false} AdmissibleConcat(s: LinkSet, a: seq<LinkFact>, b: seq<LinkFact>)
    requires Admissible(s, a) && Admissible(ApplyAll(s, a), b)
    ensures Admissible(s, a + b)
    decreases |a|
  {
    if a == [] {
      assert a + b == b;
    } else {
      assert (a + b)[1..] == a[1..] + b;
      AdmissibleConcat(Apply(s, a[0]), a[1..], b);
    }
  }

  lemma {:induction false} AdmissiblePrefix(s: LinkSet, facts: seq<LinkFact>, n: nat)
    requires Admissible(s, facts) && n <= |facts|
    ensures Admissible(s, facts[..n])
    decreases |facts|
  {
    if n > 0 {
      assert facts[..n][1..] == facts[1..][..n - 1];
      AdmissiblePrefix(Apply(s, facts[0]), facts[1..], n - 1);
    }
  }

  /** Deletions other than of a link may always be written. */
  ghost predicate Deletion(fact: LinkFact) {
    match fact
    case Recipient(r) => r.op == Tombstone
    case Link(_) => false
    case Copy(r) => r.op == Tombstone
    case Lease(r) => r.op == Tombstone
    case Check(_) => true
  }

  lemma {:induction false} DeletionsAdmissible(s: LinkSet, facts: seq<LinkFact>)
    requires forall f | f in facts :: Deletion(f)
    ensures Admissible(s, facts)
    decreases |facts|
  {
    if facts != [] {
      assert Deletion(facts[0]) && MayFollow(s, facts[0]);
      DeletionsAdmissible(Apply(s, facts[0]), facts[1..]);
    }
  }

  lemma {:induction false} TombstonesDelete(s: LinkSet, keys: seq<CopyKey>)
    requires forall k | k in keys :: k in s.copies
    ensures forall f | f in Tombstones(s, keys) :: Deletion(f)
  {
    if keys != [] {
      TombstonesDelete(s, keys[1..]);
    }
  }

  lemma {:induction false} LeaseTombstonesDelete(s: LinkSet, providers: seq<string>)
    requires forall p | p in providers :: p in s.leases
    ensures forall f | f in LeaseTombstones(s, providers) :: Deletion(f)
  {
    if providers != [] {
      LeaseTombstonesDelete(s, providers[1..]);
    }
  }

  lemma {:induction false} CopyFactsAdmissible(s: LinkSet, provider: string, version: nat, copies: seq<SealedCopy>)
    requires provider in s.links && version == s.links[provider].version
    requires forall c | c in copies :: IsHome(c.deviceId) || c.deviceId in s.activeDevices
    ensures Admissible(s, CopyFacts(provider, version, copies))
  {
    if copies != [] {
      var before := copies[..|copies| - 1];
      var fact := CopyFact(provider, version, copies[|copies| - 1]);
      CopyFactsAdmissible(s, provider, version, before);
      CopyFactsEffect(s, provider, version, before);
      AdmissibleConcat(s, CopyFacts(provider, version, before), [fact]);
    }
  }

  /** A link's fact, copies for it, then deletions, may follow in that order. */
  lemma PartsAdmissible(s: LinkSet, link: LinkRecord, kept: seq<SealedCopy>, deletions: seq<LinkFact>)
    requires MayFollow(s, Link(link))
    requires forall c | c in kept :: IsHome(c.deviceId) || c.deviceId in s.activeDevices
    requires forall f | f in deletions :: Deletion(f)
    ensures Admissible(s, [Link(link)] + (CopyFacts(link.id, link.version, kept) + deletions))
  {
    var s1 := Apply(s, Link(link));
    var copies := CopyFacts(link.id, link.version, kept);
    CopyFactsAdmissible(s1, link.id, link.version, kept);
    DeletionsAdmissible(ApplyAll(s1, copies), deletions);
    AdmissibleConcat(s1, copies, deletions);
    assert ([Link(link)] + (copies + deletions))[1..] == copies + deletions;
  }

  lemma VersionFactsAdmissible(s: LinkSet, link: LinkRecord, kept: seq<SealedCopy>)
    requires MayFollow(s, Link(link))
    requires forall c | c in kept :: IsHome(c.deviceId) || c.deviceId in s.activeDevices
    ensures Admissible(s, VersionFacts(s, link, kept))
  {
    hide CopyFacts, Tombstones, Order.Keys, Admissible, MayFollow;
    var copies := CopyFacts(link.id, link.version, kept);
    var drop := DropCopies(s, Unreplaced(s, link.id, kept));
    var lease := DropLease(s, link.id);
    TombstonesDelete(s, Keys(Unreplaced(s, link.id, kept)));
    PartsAdmissible(s, link, kept, drop + lease);
    assert [Link(link)] + (copies + (drop + lease)) == VersionFacts(s, link, kept);
  }

  lemma PutAdmissible(s: LinkSet, provider: string, caller: Option<string>, put: PutRequest, now: nat)
    requires PutLink(s, provider, caller, put, now).Ok?
    ensures Admissible(s, PutLink(s, provider, caller, put, now).value)
  {
    PutAdmitted(s, provider, caller, put, now);
    KeptProperties(s, ReachesHomes(put.authentication, put.classes), put.copies);
    forall c | c in KeptBy(s, put)
      ensures IsHome(c.deviceId) || c.deviceId in s.activeDevices
    {
      if !IsHome(c.deviceId) {
        assert c in put.copies;
        assert c.deviceId in set e | e in put.copies && !IsHome(e.deviceId) :: e.deviceId;
        assert c.deviceId in s.Recipients();
      }
    }
    VersionFactsAdmissible(s, NewLink(s, provider, put, now), KeptBy(s, put));
  }

  lemma AddAdmissible(s: LinkSet, provider: string, version: nat, copies: seq<SealedCopy>)
    requires AddCopies(s, provider, version, copies).Ok?
    ensures Admissible(s, AddCopies(s, provider, version, copies).value)
  {
    AddAdmitted(s, provider, version, copies);
    forall c | c in copies
      ensures IsHome(c.deviceId) || c.deviceId in s.activeDevices
    {
      assert c.deviceId in SealedFor(copies);
      assert s.MayHold(provider, c.deviceId);
    }
    CopyFactsAdmissible(s, provider, version, copies);
  }

  lemma ForgetAdmissible(s: LinkSet, device: string)
    ensures Admissible(s, ForgetDevice(s, device))
  {
    TombstonesDelete(s, Keys(s.KeysOfDevice(device)));
    LeaseTombstonesDelete(s, Names(LeasesOf(s, device)));
    DeletionsAdmissible(s, ForgetDevice(s, device));
  }

  lemma RegisterAdmissible(s: LinkSet, device: string, key: KeyText, now: nat)
    requires RegisterRecipient(s, device, key, now).Ok?
    ensures Admissible(s, RegisterRecipient(s, device, key, now).value)
  {
    var facts := RegisterRecipient(s, device, key, now).value;
    if facts != [] {
      TombstonesDelete(s, Keys(s.KeysOfDevice(device)));
      assert facts[1..] == DropCopies(s, s.KeysOfDevice(device));
      DeletionsAdmissible(Apply(s, facts[0]), facts[1..]);
    }
  }

  /** Every admitted command writes only facts that may follow, one after another. */
  lemma DecisionAdmissible(s: LinkSet, c: Command, now: nat)
    requires Canonical(s)
    requires Decide(s, c, now).Ok?
    ensures Admissible(s, Decide(s, c, now).value)
  {
    match c
    case CmdRegister(device, key) => RegisterAdmissible(s, device, key, now);
    case CmdPut(provider, caller, put) => PutAdmissible(s, provider, caller, put, now);
    case CmdAdd(provider, device, version, copies) => AddAdmissible(s, provider, version, copies);
    case CmdRevoke(provider) =>
      RevokeFacts(s, provider, now);
      VersionFactsAdmissible(s, s.links[provider].(status := Revoked, updatedAt := now), []);
    case CmdForget(device) => ForgetAdmissible(s, device);
    case CmdLease(_, _, _) =>
    case CmdCheck(_, _, _, _) =>
    case CmdPurge =>
      TombstonesDelete(s, Keys(s.DepartedKeys()));
      DeletionsAdmissible(s, DepartedCopies(s));
  }

  // ---- safety over crash prefixes ----------------------------------------------------

  /** What holds even when the Hub stops mid-command: every copy is canonical, names a
      link the account has, and is no newer than it. */
  ghost predicate CrashSafe(s: LinkSet) {
    Canonical(s)
    && forall k | k in s.copies ::
         k.provider in s.links && s.copies[k].version <= s.links[k.provider].version
  }

  /** A version that was superseded, or whose link was revoked at it. */
  ghost predicate Dead(s: LinkSet, provider: string, version: nat) {
    provider in s.links
    && (version < s.links[provider].version
        || (version == s.links[provider].version && s.links[provider].status == Revoked))
  }

  /** A device that is no longer trusted and about which nothing is kept. */
  ghost predicate Out(s: LinkSet, device: string) {
    && device !in s.activeDevices && device !in s.recipients
    && (forall k | k in s.copies :: s.copies[k].copy.deviceId != device)
    && (forall p | p in s.leases :: s.leases[p].deviceId != device)
  }

  lemma ApplyCrashSafe(s: LinkSet, fact: LinkFact)
    requires CrashSafe(s) && MayFollow(s, fact)
    ensures CrashSafe(Apply(s, fact))
  {
    hide CrashSafe, MayFollow;
    match fact
    case Copy(_) => CopyCrashSafe(s, fact);
    case Link(_) => LinkCrashSafe(s, fact);
    case _ => OtherCrashSafe(s, fact);
  }

  lemma CopyCrashSafe(s: LinkSet, fact: LinkFact)
    requires CrashSafe(s) && MayFollow(s, fact) && fact.Copy?
    ensures CrashSafe(Apply(s, fact))
  {
  }

  lemma LinkCrashSafe(s: LinkSet, fact: LinkFact)
    requires CrashSafe(s) && MayFollow(s, fact) && fact.Link?
    ensures CrashSafe(Apply(s, fact))
  {
  }

  lemma OtherCrashSafe(s: LinkSet, fact: LinkFact)
    requires CrashSafe(s) && !fact.Copy? && !fact.Link?
    ensures CrashSafe(Apply(s, fact))
  {
  }

  lemma ApplySafe(s: LinkSet, fact: LinkFact)
    requires CrashSafe(s) && MayFollow(s, fact)
    ensures CrashSafe(Apply(s, fact))
    ensures forall p, v | Dead(s, p, v) :: Dead(Apply(s, fact), p, v)
    ensures forall p :: s.CurrentVersion(p) <= Apply(s, fact).CurrentVersion(p)
    ensures forall d | Out(s, d) && !IsHome(d) :: Out(Apply(s, fact), d)
  {
    ApplyCrashSafe(s, fact);
  }

  lemma {:induction false} AdmissibleSafe(s: LinkSet, facts: seq<LinkFact>)
    requires CrashSafe(s) && Admissible(s, facts)
    ensures CrashSafe(ApplyAll(s, facts))
    ensures forall p, v | Dead(s, p, v) :: Dead(ApplyAll(s, facts), p, v)
    ensures forall p :: s.CurrentVersion(p) <= ApplyAll(s, facts).CurrentVersion(p)
    ensures forall d | Out(s, d) && !IsHome(d) :: Out(ApplyAll(s, facts), d)
    decreases |facts|
  {
    if facts != [] {
      ApplySafe(s, facts[0]);
      AdmissibleSafe(Apply(s, facts[0]), facts[1..]);
    }
  }

  lemma WrittenAdmissible(s: LinkSet, step: Step)
    requires step.Do? && Canonical(s)
    ensures Admissible(s, Written(s, step))
  {
    if Decide(s, step.command, step.now).Ok? {
      DecisionAdmissible(s, step.command, step.now);
      var facts := Decide(s, step.command, step.now).value;
      AdmissiblePrefix(s, facts, Min(step.written, |facts|));
    }
  }

  lemma EnvironmentSafe(s: LinkSet, step: Step)
    requires CrashSafe(s) && !step.Do?
    ensures CrashSafe(Next(s, step)) && Next(s, step).links == s.links
    ensures forall d | Out(s, d) && step != Trust(d) :: Out(Next(s, step), d)
  {
    hide CrashSafe, Out;
    EnvironmentCrashSafe(s, step);
    forall d | Out(s, d) && step != Trust(d)
      ensures Out(Next(s, step), d)
    {
      EnvironmentOut(s, step, d);
    }
  }

  lemma EnvironmentCrashSafe(s: LinkSet, step: Step)
    requires CrashSafe(s) && !step.Do?
    ensures CrashSafe(Next(s, step))
  {
  }

  lemma EnvironmentOut(s: LinkSet, step: Step, d: string)
    requires Out(s, d) && !step.Do? && step != Trust(d)
    ensures Out(Next(s, step), d)
  {
  }

  lemma NextSafe(s: LinkSet, step: Step)
    requires CrashSafe(s)
    ensures CrashSafe(Next(s, step))
    ensures forall p, v | Dead(s, p, v) :: Dead(Next(s, step), p, v)
    ensures forall p :: s.CurrentVersion(p) <= Next(s, step).CurrentVersion(p)
    ensures forall d | Out(s, d) && !IsHome(d) && step != Trust(d) :: Out(Next(s, step), d)
  {
    if step.Do? {
      WrittenAdmissible(s, step);
      AdmissibleSafe(s, Written(s, step));
    } else {
      EnvironmentSafe(s, step);
    }
  }

  lemma {:induction false} RunSafe(s: LinkSet, steps: seq<Step>)
    requires CrashSafe(s)
    ensures CrashSafe(Exec(s, steps))
    ensures forall p, v | Dead(s, p, v) :: Dead(Exec(s, steps), p, v)
    ensures forall p :: s.CurrentVersion(p) <= Exec(s, steps).CurrentVersion(p)
    ensures forall d | Out(s, d) && !IsHome(d) && Trust(d) !in steps :: Out(Exec(s, steps), d)
    decreases |steps|
  {
    if steps != [] {
      NextSafe(s, steps[0]);
      RunSafe(Next(s, steps[0]), steps[1..]);
      assert steps == [steps[0]] + steps[1..];
    }
  }

  /** What a recipient is given: the version listed with its copy. */
  ghost predicate ServedAt(s: LinkSet, provider: string, recipient: string, version: nat) {
    s.CopyFor(provider, recipient).Some? && s.links[provider].version == version
  }

  lemma {:induction false} HomeLinksListed(s: LinkSet, home: string, providers: seq<string>, link: HomeLink)
    requires forall p | p in providers :: p in s.links
    requires link in HomeLinksInOrder(s, home, providers)
    ensures link.provider in providers && link == HomeLinkFor(s, home, link.provider)
  {
    if link != HomeLinkFor(s, home, providers[0]) {
      HomeLinksListed(s, home, providers[1..], link);
    }
  }

  /** No resurrection: however the run goes on, and wherever the Hub stopped inside any
      command, versions never fall, no copy outruns its link, and a version once
      superseded or revoked is never again given to a device or to a Home. */
  lemma NoResurrection(before: seq<Step>, after: seq<Step>, provider: string, version: nat)
    ensures var s := Exec(EmptySet, before);
            var s' := Exec(EmptySet, before + after);
            && CrashSafe(s')
            && s.CurrentVersion(provider) <= s'.CurrentVersion(provider)
            && (Dead(s, provider, version) ==>
                  && (forall recipient :: !ServedAt(s', provider, recipient, version))
                  && (forall home, link | HomeLinksView(s', home).Ok? && link in HomeLinksView(s', home).value ::
                        link.provider == provider && link.copy.Some? ==> link.version > version))
  {
    hide Next, Decide, CrashSafe, ServedAt, HomeLinksView, LinkSet.CurrentVersion;
    var s := Exec(EmptySet, before);
    var s' := Exec(EmptySet, before + after);
    EmptySafe();
    RunSafe(EmptySet, before);
    ExecConcat(EmptySet, before, after);
    RunSafe(s, after);
    if Dead(s, provider, version) {
      assert Dead(s', provider, version);
      DeadIsUnserved(s', provider, version);
    }
  }

  lemma EmptySafe()
    ensures CrashSafe(EmptySet)
  {
  }

  lemma DeadIsUnserved(s: LinkSet, provider: string, version: nat)
    requires CrashSafe(s) && Dead(s, provider, version)
    ensures forall recipient :: !ServedAt(s, provider, recipient, version)
    ensures forall home, link | HomeLinksView(s, home).Ok? && link in HomeLinksView(s, home).value ::
              link.provider == provider && link.copy.Some? ==> link.version > version
  {
    hide Names;
    forall home, link | HomeLinksView(s, home).Ok? && link in HomeLinksView(s, home).value
      ensures link.provider == provider && link.copy.Some? ==> link.version > version
    {
      HomeLinksListed(s, home, Names(set p | p in s.links && s.LinkReachesHomes(p)), link);
    }
  }

  lemma ForgetLeavesOut(s: LinkSet, device: string)
    requires Keyed(s) && device !in s.activeDevices
    ensures Out(ApplyAll(s, ForgetDevice(s, device)), device)
  {
    ForgetEffect(s, device);
  }

  /** Distrusting a device and then forgetting it leaves nothing about it. */
  lemma ForgottenIsOut(s: LinkSet, device: string)
    requires CrashSafe(s)
    ensures CrashSafe(Forgotten(s, device)) && Out(Forgotten(s, device), device)
  {
    var s1 := Next(s, Distrust(device));
    EnvironmentSafe(s, Distrust(device));
    ForgetLeavesOut(s1, device);
    ForgetAdmissible(s1, device);
    AdmissibleSafe(s1, ForgetDevice(s1, device));
  }

  function Forgotten(s: LinkSet, device: string): LinkSet {
    var s1 := Next(s, Distrust(device));
    ApplyAll(s1, ForgetDevice(s1, device))
  }

  /** Revoked device stays out: once a device is distrusted and forgotten, whatever is
      submitted and wherever the Hub stops, no later state has a key, a copy or a lease
      for it, lists it as waiting or serves it, unless it is enrolled again. */
  lemma RevokedDeviceStaysOut(before: seq<Step>, after: seq<Step>, device: string)
    requires !IsHome(device)
    requires Trust(device) !in after
    ensures var s := Exec(Forgotten(Exec(EmptySet, before), device), after);
            && device !in s.recipients
            && (forall k | k in s.copies :: k.device != device && s.copies[k].copy.deviceId != device)
            && (forall p | p in s.leases :: s.leases[p].deviceId != device)
            && (forall p :: device !in s.Waiting(p) && s.CopyFor(p, device).None?)
  {
    RunSafe(EmptySet, before);
    ForgottenIsOut(Exec(EmptySet, before), device);
    RunSafe(Forgotten(Exec(EmptySet, before), device), after);
    OutIsUnserved(Exec(Forgotten(Exec(EmptySet, before), device), after), device);
  }

  lemma OutIsUnserved(s: LinkSet, device: string)
    requires CrashSafe(s) && Out(s, device) && !IsHome(device)
    ensures forall k | k in s.copies :: k.device != device
    ensures forall p :: device !in s.Waiting(p) && s.CopyFor(p, device).None?
  {
    assert device !in s.homes;
  }

  // ---- coverage over crash-free runs ----------------------------------------------------

  /** Every command of the run wrote all of its facts. */
  ghost predicate Uncut(s: LinkSet, steps: seq<Step>)
    decreases |steps|
  {
    steps == []
    || (UncutStep(s, steps[0]) && Uncut(Next(s, steps[0]), steps[1..]))
  }

  ghost predicate UncutStep(s: LinkSet, step: Step) {
    step.Do? && Decide(s, step.command, step.now).Ok? ==>
      step.written >= |Decide(s, step.command, step.now).value|
  }

  lemma OneFactKeepsCoverage(s: LinkSet, fact: LinkFact)
    requires Covered(s)
    requires fact.Check? || (fact.Lease? && fact.lease.op == Upsert)
    ensures Covered(ApplyAll(s, [fact]))
  {
    assert ApplyAll(s, [fact]) == Apply(s, fact);
  }

  lemma DecisionKeepsCoverage(s: LinkSet, c: Command, now: nat)
    requires Covered(s)
    requires Decide(s, c, now).Ok?
    ensures Covered(ApplyAll(s, Decide(s, c, now).value))
  {
    hide Covered, Apply, ApplyAll, PutLink, AddCopies, ForgetDevice, RegisterRecipient;
    match c
    case CmdRegister(device, key) => RegisterKeepsCoverage(s, device, key, now);
    case CmdPut(provider, caller, put) => PutKeepsCoverage(s, provider, caller, put, now);
    case CmdAdd(provider, device, version, copies) => AddKeepsCoverage(s, provider, version, copies);
    case CmdRevoke(provider) => RevokeKeepsCoverage(s, provider, now);
    case CmdForget(device) => ForgetKeepsCoverage(s, device);
    case CmdLease(provider, device, ttl) => OneFactKeepsCoverage(s, TakeLease(s, provider, device, ttl, now).value[0]);
    case CmdCheck(provider, device, version, reachable) =>
      OneFactKeepsCoverage(s, RecordCheck(s, provider, device, version, reachable, now).value[0]);
    case CmdPurge => PurgeKeepsCoverage(s);
  }

  lemma UncutStepKeepsCoverage(s: LinkSet, step: Step)
    requires Covered(s) && UncutStep(s, step)
    ensures Covered(Next(s, step))
  {
    hide Covered, Decide;
    if step.Do? {
      if Decide(s, step.command, step.now).Ok? {
        var facts := Decide(s, step.command, step.now).value;
        assert facts[..Min(step.written, |facts|)] == facts;
        DecisionKeepsCoverage(s, step.command, step.now);
      }
    } else {
      EnvironmentCovered(s, step);
    }
  }

  lemma EnvironmentCovered(s: LinkSet, step: Step)
    requires Covered(s) && !step.Do?
    ensures Covered(Next(s, step))
  {
  }

  /** In every crash-free reachable state each copy sits under its canonical id, belongs
      to an active link and carries that link's current version. */
  lemma {:induction false} CrashFreeCoverage(s: LinkSet, steps: seq<Step>)
    requires Covered(s) && Uncut(s, steps)
    ensures Covered(Exec(s, steps))
    decreases |steps|
  {
    if steps != [] {
      UncutStepKeepsCoverage(s, steps[0]);
      CrashFreeCoverage(Next(s, steps[0]), steps[1..]);
    }
  }

  // ---- a stop inside registration ---------------------------------------------------------

  lemma {:induction false} TombstonesPrefix(s: LinkSet, keys: seq<CopyKey>, n: nat)
    requires forall k | k in keys :: k in s.copies
    requires n <= |keys|
    ensures |Tombstones(s, keys)| == |keys|
    ensures Tombstones(s, keys)[..n] == Tombstones(s, keys[..n])
  {
    if keys != [] {
      if n == 0 {
        TombstonesPrefix(s, keys[1..], 0);
      } else {
        TombstonesPrefix(s, keys[1..], n - 1);
        assert keys[..n][1..] == keys[1..][..n - 1];
        assert Tombstones(s, keys)[..n] == [Tombstones(s, keys)[0]] + Tombstones(s, keys[1..])[..n - 1];
      }
    }
  }

  function KeySet(keys: seq<CopyKey>): set<CopyKey> {
    set k | k in keys
  }

  /** What registering a new key leaves when the Hub stops after `written` facts. */
  lemma RegisterPrefix(s: LinkSet, r: RecipientRecord, owned: seq<CopyKey>, written: nat)
    requires r.op == Upsert
    requires forall k | k in owned :: k in s.copies && s.copies[k].id == k
    requires written <= |owned|
    ensures |Tombstones(s, owned)| == |owned|
    ensures ApplyAll(s, ([Recipient(r)] + Tombstones(s, owned))[..1 + written])
            == s.(recipients := s.recipients[r.id := r], copies := s.copies - KeySet(owned[..written]))
  {
    var facts := [Recipient(r)] + Tombstones(s, owned);
    TombstonesPrefix(s, owned, written);
    var s1 := s.(recipients := s.recipients[r.id := r]);
    assert facts[..1 + written][1..] == Tombstones(s, owned)[..written];
    TombstonesEffect(s, s1, owned[..written]);
  }

  /** Key freshness is not promised over a stop: a device's new key stands beside copies
      sealed to its old one exactly when the Hub stopped after the key was written and
      before the last of the device's tombstones was. */
  lemma RegisterStop(s: LinkSet, device: string, key: KeyText, now: nat, written: nat)
    requires Keyed(s)
    requires RegisterRecipient(s, device, key, now).Ok?
    requires written <= |RegisterRecipient(s, device, key, now).value|
    ensures var facts := RegisterRecipient(s, device, key, now).value;
            var s' := ApplyAll(s, facts[..written]);
            s'.recipients != s.recipients && s'.KeysOfDevice(device) != {} <==> 1 <= written < |facts|
  {
    var facts := RegisterRecipient(s, device, key, now).value;
    if written == 0 {
      assert facts[..0] == [];
    } else {
      RegisterStopped(s, RecipientRecord(device, Upsert, key.key, now), facts, written);
    }
  }

  lemma RegisterStopped(s: LinkSet, r: RecipientRecord, facts: seq<LinkFact>, written: nat)
    requires Keyed(s) && r.op == Upsert
    requires r.id in s.recipients ==> s.recipients[r.id].publicKey != r.publicKey
    requires facts == [Recipient(r)] + DropCopies(s, s.KeysOfDevice(r.id))
    requires 1 <= written <= |facts|
    ensures ApplyAll(s, facts[..written]).recipients != s.recipients
    ensures ApplyAll(s, facts[..written]).KeysOfDevice(r.id) != {} <==> written < |facts|
  {
    var owned := Keys(s.KeysOfDevice(r.id));
    TombstonesPrefix(s, owned, 0);
    RegisterPrefix(s, r, owned, written - 1);
    PrefixLeaves(s, ApplyAll(s, facts[..written]), r.id, owned, written - 1);
    assert s.recipients[r.id := r][r.id].publicKey == r.publicKey;
  }

  lemma PrefixLeaves(s: LinkSet, s': LinkSet, device: string, owned: seq<CopyKey>, n: nat)
    requires owned == Keys(s.KeysOfDevice(device)) && n <= |owned|
    requires s'.copies == s.copies - KeySet(owned[..n])
    ensures s'.KeysOfDevice(device) != {} <==> n < |owned|
  {
    hide Order.Keys;
    if n < |owned| {
      KeysDistinct(owned, n);
      assert owned[n] in s.KeysOfDevice(device);
      assert owned[n] in s'.KeysOfDevice(device);
    } else {
      assert owned[..n] == owned;
      assert s'.KeysOfDevice(device) == {};
    }
  }

  lemma KeysDistinct(keys: seq<CopyKey>, n: nat)
    requires forall i, j :: 0 <= i < j < |keys| ==> KeyLess(keys[i], keys[j])
    requires n < |keys|
    ensures keys[n] !in keys[..n]
  {
    if keys[n] in keys[..n] {
      var i :| 0 <= i < n && keys[..n][i] == keys[n];
      assert KeyLess(keys[i], keys[n]);
      LessIrreflexive(keys[n].provider);
      LessIrreflexive(keys[n].device);
    }
  }
}
