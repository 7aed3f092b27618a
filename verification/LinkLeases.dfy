/** Refresh leases over whole runs under a monotone clock: one holder at a time, and only
    the holder publishes while its lease lasts. */
module LinkLeases {
  import opened Base
  import opened Order
  import opened Links
  import opened LinkEffects
  import opened LinkRuns

  // ---- which facts touch a lease or a version --------------------------------------------

  ghost predicate TouchesLease(fact: LinkFact, provider: string) {
    fact.Lease? && fact.lease.id == provider
  }

  ghost predicate TouchesLink(fact: LinkFact, provider: string) {
    fact.Link? && fact.link.id == provider
  }

  lemma {:induction false} UntouchedLease(s: LinkSet, facts: seq<LinkFact>, provider: string)
    requires forall f | f in facts :: !TouchesLease(f, provider)
    ensures SameAt(s.leases, ApplyAll(s, facts).leases, provider)
    decreases |facts|
  {
    if facts != [] {
      assert !TouchesLease(facts[0], provider);
      UntouchedLease(Apply(s, facts[0]), facts[1..], provider);
    }
  }

  lemma {:induction false} UntouchedLink(s: LinkSet, facts: seq<LinkFact>, provider: string)
    requires forall f | f in facts :: !TouchesLink(f, provider)
    ensures SameAt(s.links, ApplyAll(s, facts).links, provider)
    decreases |facts|
  {
    if facts != [] {
      assert !TouchesLink(facts[0], provider);
      UntouchedLink(Apply(s, facts[0]), facts[1..], provider);
    }
  }

  lemma {:induction false} TombstonesAreCopies(s: LinkSet, keys: seq<CopyKey>)
    requires forall k | k in keys :: k in s.copies
    ensures forall f | f in Tombstones(s, keys) :: f.Copy?
  {
    if keys != [] {
      TombstonesAreCopies(s, keys[1..]);
    }
  }

  lemma {:induction false} CopyFactsAreCopies(provider: string, version: nat, copies: seq<SealedCopy>)
    ensures forall f | f in CopyFacts(provider, version, copies) :: f.Copy?
  {
    if copies != [] {
      CopyFactsAreCopies(provider, version, copies[..|copies| - 1]);
    }
  }

  lemma {:induction false} LeaseTombstonesTouch(s: LinkSet, providers: seq<string>)
    requires Keyed(s)
    requires forall p | p in providers :: p in s.leases
    ensures forall f | f in LeaseTombstones(s, providers) :: f.Lease? && f.lease.id in providers
  {
    if providers != [] {
      LeaseTombstonesTouch(s, providers[1..]);
    }
  }

  lemma VersionFactsTouch(s: LinkSet, link: LinkRecord, kept: seq<SealedCopy>)
    requires Keyed(s)
    ensures forall f, p | f in VersionFacts(s, link, kept) && p != link.id ::
              !TouchesLease(f, p) && !TouchesLink(f, p)
  {
    CopyFactsAreCopies(link.id, link.version, kept);
    TombstonesAreCopies(s, Keys(Unreplaced(s, link.id, kept)));
  }

  lemma ForgetTouches(s: LinkSet, device: string)
    requires Keyed(s)
    ensures forall f | f in ForgetDevice(s, device) :: !f.Link?
    ensures forall f, p | f in ForgetDevice(s, device) && TouchesLease(f, p) ::
              p in s.leases && s.leases[p].deviceId == device
  {
    hide Names, Order.Keys, Tombstones, LeaseTombstones;
    TombstonesAreCopies(s, Keys(s.KeysOfDevice(device)));
    LeaseTombstonesTouch(s, Names(LeasesOf(s, device)));
  }

  // ---- steps that end or grant a lease --------------------------------------------------

  /** A command that ends a device's tenure of a provider's lease: a new version of the
      link, its revocation, or the device's removal. */
  predicate Ends(step: Step, provider: string, device: string) {
    step.Do? && match step.command
                case CmdPut(p, _, _) => p == provider
                case CmdRevoke(p) => p == provider
                case CmdForget(d) => d == device
                case _ => false
  }

  /** The lease a step grants, when it grants one. */
  ghost predicate Grants(s: LinkSet, step: Step, lease: LeaseRecord) {
    && step.Do? && step.command.CmdLease?
    && step.command.provider == lease.id && step.command.device == lease.deviceId
    && Decide(s, step.command, step.now).Ok? && step.written >= 1
    && lease == LeaseRecord(lease.id, Upsert, lease.deviceId, step.now + Clamp(step.command.ttl))
  }

  /** A step that takes a provider's lease record out of the store. */
  ghost predicate Deletes(s: LinkSet, step: Step, provider: string) {
    provider in s.leases && provider !in Next(s, step).leases
  }

  /** A step that grants a lease to the device that already held it. */
  ghost predicate Renews(s: LinkSet, step: Step, lease: LeaseRecord) {
    && step.Do? && step.command.CmdLease?
    && step.command.provider == lease.id && step.command.device == lease.deviceId
    && Decide(s, step.command, step.now).Ok? && step.written >= 1
  }

  /** A lease is deleted only by an admitted put or revocation of its link or the removal
      of its holder, and by each of those that is written to its end. */
  lemma LeaseEnds(s: LinkSet, step: Step, provider: string)
    requires Canonical(s) && provider in s.leases
    ensures Deletes(s, step, provider) ==>
              Ends(step, provider, s.leases[provider].deviceId) && Decide(s, step.command, step.now).Ok?
    ensures (Ends(step, provider, s.leases[provider].deviceId) && Decide(s, step.command, step.now).Ok?
             && step.written >= |Decide(s, step.command, step.now).value|) ==> Deletes(s, step, provider)
  {
    hide Decide, Next;
    if Deletes(s, step, provider) {
      DeletedByEnd(s, step, provider);
    }
    if Ends(step, provider, s.leases[provider].deviceId) && Decide(s, step.command, step.now).Ok?
       && step.written >= |Decide(s, step.command, step.now).value| {
      EndDeletes(s, step, provider);
    }
  }

  lemma DeletedByEnd(s: LinkSet, step: Step, provider: string)
    requires Keyed(s) && Deletes(s, step, provider)
    ensures Ends(step, provider, s.leases[provider].deviceId) && Decide(s, step.command, step.now).Ok?
  {
    hide Decide;
    if step.Do? && Decide(s, step.command, step.now).Ok? && !Ends(step, provider, s.leases[provider].deviceId) {
      if step.command.CmdLease? {
        GrantKeeps(s, step, provider);
      } else {
        DecisionLeavesLease(s, step.command, step.now, provider);
        UntouchedLease(s, Written(s, step), provider);
      }
    }
  }

  lemma GrantKeeps(s: LinkSet, step: Step, provider: string)
    requires provider in s.leases && step.Do? && step.command.CmdLease?
    ensures provider in Next(s, step).leases
  {
    var d := Decide(s, step.command, step.now);
    if d.Ok? && step.written >= 1 {
      assert d.value[..Min(step.written, |d.value|)] == d.value;
      assert ApplyAll(s, d.value) == Apply(s, d.value[0]);
    }
  }

  lemma EndDeletes(s: LinkSet, step: Step, provider: string)
    requires Canonical(s) && provider in s.leases && Ends(step, provider, s.leases[provider].deviceId)
    requires Decide(s, step.command, step.now).Ok?
    requires step.written >= |Decide(s, step.command, step.now).value|
    ensures Deletes(s, step, provider)
  {
    hide PutLink, ForgetDevice, ApplyAll;
    var facts := Decide(s, step.command, step.now).value;
    assert facts[..Min(step.written, |facts|)] == facts;
    match step.command
    case CmdPut(p, caller, put) => PutEffect(s, p, caller, put, step.now);
    case CmdRevoke(p) => RevokeEffect(s, p, step.now);
    case CmdForget(device) => ForgetEffect(s, device);
  }

  /** A step that neither deletes a held lease nor renews it leaves it, or another device's
      grant found it expired. */
  lemma LeaseStays(s: LinkSet, step: Step, provider: string)
    requires CrashSafe(s) && provider in s.leases && s.leases[provider].id == provider
    requires !Deletes(s, step, provider) && !Renews(s, step, s.leases[provider])
    ensures SameAt(s.leases, Next(s, step).leases, provider)
            || (step.Do? && step.now >= s.leases[provider].expiresAt)
  {
    hide Next;
    if !SameAt(s.leases, Next(s, step).leases, provider) {
      NewLeaseGranted(s, step, provider);
      GrantFoundExpired(s, step, Next(s, step).leases[provider]);
    }
  }

  lemma GrantFoundExpired(s: LinkSet, step: Step, lease: LeaseRecord)
    requires Grants(s, step, lease)
    ensures lease.id in s.leases && s.leases[lease.id].deviceId != lease.deviceId ==>
              step.now >= s.leases[lease.id].expiresAt
  {
  }

  lemma DecisionLeavesLease(s: LinkSet, c: Command, now: nat, provider: string)
    requires Keyed(s) && provider in s.leases
    requires Decide(s, c, now).Ok? && !c.CmdLease?
    requires !Ends(Do(c, now, 0), provider, s.leases[provider].deviceId)
    ensures forall f | f in Decide(s, c, now).value :: !TouchesLease(f, provider)
  {
    hide Names, Order.Keys, Tombstones, VersionFacts, CopyFacts, ForgetDevice;
    match c
    case CmdRegister(device, key) => TombstonesAreCopies(s, Keys(s.KeysOfDevice(device)));
    case CmdPut(p, caller, put) => VersionFactsTouch(s, NewLink(s, p, put, now), KeptBy(s, put));
    case CmdAdd(p, _, version, copies) => CopyFactsAreCopies(p, version, copies);
    case CmdRevoke(p) =>
      RevokeFacts(s, p, now);
      VersionFactsTouch(s, s.links[p].(status := Revoked, updatedAt := now), []);
    case CmdForget(device) => ForgetTouches(s, device);
    case CmdCheck(_, _, _, _) =>
    case CmdPurge => TombstonesAreCopies(s, Keys(s.DepartedKeys()));
  }

  // ---- exclusion over runs ----------------------------------------------------------------

  ghost predicate MonotoneClock(steps: seq<Step>) {
    forall i, j | 0 <= i < j < |steps| && steps[i].Do? && steps[j].Do? :: steps[i].now <= steps[j].now
  }

  function At(s: LinkSet, steps: seq<Step>, i: nat): LinkSet
    requires i <= |steps|
  {
    Exec(s, steps[..i])
  }

  lemma AtNext(s: LinkSet, steps: seq<Step>, i: nat)
    requires i < |steps|
    ensures At(s, steps, i + 1) == Next(At(s, steps, i), steps[i])
  {
    assert steps[..i + 1] == steps[..i] + [steps[i]];
    ExecConcat(s, steps[..i], [steps[i]]);
    assert [steps[i]][1..] == [];
  }

  /** Whether the clock had reached a time by the end of a prefix. */
  ghost predicate Reached(steps: seq<Step>, n: nat, time: nat)
    requires n <= |steps|
  {
    exists m | 0 <= m < n :: steps[m].Do? && steps[m].now >= time
  }

  /** No step strictly between two others deletes the lease's record or renews it. What is
      refused does neither. */
  ghost predicate Undisturbed(s: LinkSet, steps: seq<Step>, i: nat, j: nat, lease: LeaseRecord)
    requires j <= |steps|
  {
    forall k | i < k < j ::
      !Deletes(At(s, steps, k), steps[k], lease.id) && !Renews(At(s, steps, k), steps[k], lease)
  }

  lemma GrantEffect(s: LinkSet, step: Step, lease: LeaseRecord)
    requires Grants(s, step, lease)
    ensures lease.id in Next(s, step).leases && Next(s, step).leases[lease.id] == lease
  {
    var facts := Decide(s, step.command, step.now).value;
    assert facts[..Min(step.written, |facts|)] == facts;
    assert ApplyAll(s, facts) == Apply(s, facts[0]);
  }

  lemma {:induction false} TenureLasts(s: LinkSet, steps: seq<Step>, i: nat, j: nat, lease: LeaseRecord)
    requires CrashSafe(s)
    requires i < j <= |steps|
    requires Grants(At(s, steps, i), steps[i], lease)
    requires Undisturbed(s, steps, i, j, lease)
    ensures Reached(steps, j, lease.expiresAt)
            || (lease.id in At(s, steps, j).leases && At(s, steps, j).leases[lease.id] == lease)
    decreases j
  {
    hide Next, Decide, Exec, CrashSafe, Grants, Deletes, Renews;
    AtNext(s, steps, j - 1);
    if j == i + 1 {
      GrantEffect(At(s, steps, i), steps[i], lease);
    } else {
      TenureLasts(s, steps, i, j - 1, lease);
      if !Reached(steps, j - 1, lease.expiresAt) {
        RunSafe(s, steps[..j - 1]);
        LeaseStays(At(s, steps, j - 1), steps[j - 1], lease.id);
      }
    }
  }

  /** Lease exclusion: a different device is granted a provider's lease only once the last
      grant to its holder has expired, unless the lease's record was deleted between, which
      LeaseEnds says only a new version, the link's revocation or the holder's removal does.
      Whatever was tried and refused meanwhile, the holder keeps it. */
  lemma LeaseExclusion(s: LinkSet, steps: seq<Step>, i: nat, j: nat, first: LeaseRecord, second: LeaseRecord)
    requires CrashSafe(s) && MonotoneClock(steps)
    requires i < j < |steps|
    requires Grants(At(s, steps, i), steps[i], first)
    requires Grants(At(s, steps, j), steps[j], second)
    requires first.id == second.id && first.deviceId != second.deviceId
    requires Undisturbed(s, steps, i, j, first)
    ensures steps[j].now >= first.expiresAt
  {
    TenureLasts(s, steps, i, j, first);
    if Reached(steps, j, first.expiresAt) {
      var m :| 0 <= m < j && steps[m].Do? && steps[m].now >= first.expiresAt;
      assert steps[m].now <= steps[j].now;
    } else {
      assert !LeaseBlocks(At(s, steps, j), second.id, Some(second.deviceId), steps[j].now);
    }
  }

  /** Every lease the account holds was granted, and lasts at most two minutes from that
      grant. */
  lemma {:induction false} LeaseBounded(steps: seq<Step>, provider: string) returns (i: nat)
    requires provider in Exec(EmptySet, steps).leases
    ensures i < |steps|
    ensures var lease := Exec(EmptySet, steps).leases[provider];
            && Grants(At(EmptySet, steps, i), steps[i], lease)
            && steps[i].now < lease.expiresAt <= steps[i].now + 120_000
    decreases |steps|
  {
    hide Decide, Next;
    assert steps != [];
    var before := steps[..|steps| - 1];
    AtNext(EmptySet, steps, |steps| - 1);
    assert steps[..|steps|] == steps;
    RunSafe(EmptySet, before);
    var s := Exec(EmptySet, before);
    if provider in s.leases && s.leases[provider] == Exec(EmptySet, steps).leases[provider] {
      i := LeaseBounded(before, provider);
      assert steps[..i] == before[..i];
    } else {
      i := |steps| - 1;
      NewLeaseGranted(s, steps[i], provider);
    }
  }

  lemma NewLeaseGranted(s: LinkSet, step: Step, provider: string)
    requires CrashSafe(s)
    requires provider in Next(s, step).leases
    requires provider in s.leases ==> s.leases[provider] != Next(s, step).leases[provider]
    ensures Grants(s, step, Next(s, step).leases[provider]) && Next(s, step).leases[provider].id == provider
  {
    if step.Do? && !step.command.CmdLease? {
      assert Decide(s, step.command, step.now).Ok?;
      LeaseOnlyFromGrant(s, step.command, step.now);
      OnlyDeletesLeases(s, Written(s, step), provider);
    } else if step.Do? {
      var facts := Decide(s, step.command, step.now).value;
      if step.written >= 1 {
        assert facts[..Min(step.written, |facts|)] == facts;
        assert ApplyAll(s, facts) == Apply(s, facts[0]);
      }
    }
  }

  lemma {:induction false} OnlyDeletesLeases(s: LinkSet, facts: seq<LinkFact>, provider: string)
    requires forall f | f in facts :: f.Lease? ==> f.lease.op == Tombstone
    ensures provider in ApplyAll(s, facts).leases ==>
              provider in s.leases && s.leases[provider] == ApplyAll(s, facts).leases[provider]
    decreases |facts|
  {
    if facts != [] {
      assert facts[0].Lease? ==> facts[0].lease.op == Tombstone;
      OnlyDeletesLeases(Apply(s, facts[0]), facts[1..], provider);
    }
  }

  lemma {:induction false} LeaseTombstonesDeleteLeases(s: LinkSet, providers: seq<string>)
    requires forall p | p in providers :: p in s.leases
    ensures forall f | f in LeaseTombstones(s, providers) :: f.Lease? ==> f.lease.op == Tombstone
  {
    if providers != [] {
      LeaseTombstonesDeleteLeases(s, providers[1..]);
    }
  }

  lemma VersionFactsLeases(s: LinkSet, link: LinkRecord, kept: seq<SealedCopy>)
    ensures forall f | f in VersionFacts(s, link, kept) :: f.Lease? ==> f.lease.op == Tombstone
  {
    CopyFactsAreCopies(link.id, link.version, kept);
    TombstonesAreCopies(s, Keys(Unreplaced(s, link.id, kept)));
  }

  lemma LeaseOnlyFromGrant(s: LinkSet, c: Command, now: nat)
    requires Keyed(s)
    requires Decide(s, c, now).Ok? && !c.CmdLease?
    ensures forall f | f in Decide(s, c, now).value :: f.Lease? ==> f.lease.op == Tombstone
  {
    hide Names, Order.Keys, Tombstones, VersionFacts, CopyFacts, ForgetDevice;
    match c
    case CmdRegister(device, key) => TombstonesAreCopies(s, Keys(s.KeysOfDevice(device)));
    case CmdPut(p, caller, put) => VersionFactsLeases(s, NewLink(s, p, put, now), KeptBy(s, put));
    case CmdAdd(p, _, version, copies) => CopyFactsAreCopies(p, version, copies);
    case CmdRevoke(p) =>
      RevokeFacts(s, p, now);
      VersionFactsLeases(s, s.links[p].(status := Revoked, updatedAt := now), []);
    case CmdForget(device) => ForgetDeletesLeases(s, device);
    case CmdCheck(_, _, _, _) =>
    case CmdPurge => TombstonesAreCopies(s, Keys(s.DepartedKeys()));
  }

  lemma ForgetDeletesLeases(s: LinkSet, device: string)
    ensures forall f | f in ForgetDevice(s, device) :: f.Lease? ==> f.lease.op == Tombstone
  {
    hide Names, Order.Keys, Tombstones, LeaseTombstones;
    TombstonesAreCopies(s, Keys(s.KeysOfDevice(device)));
    LeaseTombstonesDeleteLeases(s, Names(LeasesOf(s, device)));
  }

  // ---- who may advance a version --------------------------------------------------------

  /** Only a put writes a newer version of a link. */
  lemma OnlyPutsAdvance(s: LinkSet, step: Step, provider: string)
    requires CrashSafe(s)
    requires Next(s, step).CurrentVersion(provider) > s.CurrentVersion(provider)
    ensures step.Do? && step.command.CmdPut? && step.command.provider == provider
    ensures PutLink(s, provider, step.command.caller, step.command.put, step.now).Ok?
  {
    if step.Do? && Decide(s, step.command, step.now).Ok? {
      var facts := Decide(s, step.command, step.now).value;
      var c := step.command;
      match c {
        case CmdPut(p, caller, put) =>
          VersionFactsTouch(s, NewLink(s, p, put, step.now), KeptBy(s, put));
          if p != provider {
            UntouchedLink(s, Written(s, step), provider);
          }
        case CmdRevoke(p) =>
          RevokeKeepsVersion(s, step, provider);
        case _ =>
          OthersTouchNoLink(s, c, step.now);
          UntouchedLink(s, Written(s, step), provider);
      }
    }
  }

  lemma OthersTouchNoLink(s: LinkSet, c: Command, now: nat)
    requires Keyed(s) && Decide(s, c, now).Ok?
    requires !c.CmdPut? && !c.CmdRevoke?
    ensures forall f | f in Decide(s, c, now).value :: !f.Link?
  {
    hide Names, Order.Keys, Tombstones, CopyFacts, ForgetDevice;
    match c
    case CmdRegister(device, key) => TombstonesAreCopies(s, Keys(s.KeysOfDevice(device)));
    case CmdAdd(p, _, version, copies) => CopyFactsAreCopies(p, version, copies);
    case CmdForget(device) => ForgetTouches(s, device);
    case CmdLease(_, _, _) =>
    case CmdCheck(_, _, _, _) =>
    case CmdPurge => TombstonesAreCopies(s, Keys(s.DepartedKeys()));
  }

  lemma {:induction false} SameVersionFacts(s: LinkSet, facts: seq<LinkFact>, provider: string)
    requires provider in s.links
    requires forall f | f in facts :: TouchesLink(f, provider) ==>
               f.link.op == Upsert && f.link.version == s.links[provider].version
    ensures ApplyAll(s, facts).CurrentVersion(provider) == s.CurrentVersion(provider)
    decreases |facts|
  {
    if facts != [] {
      assert TouchesLink(facts[0], provider) ==>
          facts[0].link.op == Upsert && facts[0].link.version == s.links[provider].version;
      SameVersionFacts(Apply(s, facts[0]), facts[1..], provider);
    }
  }

  lemma VersionFactsLink(s: LinkSet, link: LinkRecord, kept: seq<SealedCopy>)
    ensures forall f | f in VersionFacts(s, link, kept) && f.Link? :: f.link == link
  {
    hide Order.Keys, Tombstones, CopyFacts;
    CopyFactsAreCopies(link.id, link.version, kept);
    TombstonesAreCopies(s, Keys(Unreplaced(s, link.id, kept)));
  }

  lemma RevokeKeepsVersion(s: LinkSet, step: Step, provider: string)
    requires Keyed(s)
    requires step.Do? && step.command.CmdRevoke? && Decide(s, step.command, step.now).Ok?
    ensures Next(s, step).CurrentVersion(provider) == s.CurrentVersion(provider)
  {
    var p := step.command.provider;
    var link := s.links[p].(status := Revoked, updatedAt := step.now);
    RevokeFacts(s, p, step.now);
    VersionFactsLink(s, link, []);
    if p == provider {
      SameVersionFacts(s, Written(s, step), provider);
    } else {
      UntouchedLink(s, Written(s, step), provider);
    }
  }

  /** While a lease is unexpired, only its holder advances the link's version. */
  lemma OnlyHolderAdvances(s: LinkSet, step: Step, provider: string)
    requires CrashSafe(s)
    requires Next(s, step).CurrentVersion(provider) > s.CurrentVersion(provider)
    ensures step.Do? && step.command.CmdPut?
    ensures provider in s.leases && s.leases[provider].expiresAt > step.now ==>
              step.command.caller == Some(s.leases[provider].deviceId)
  {
    OnlyPutsAdvance(s, step, provider);
  }
}
