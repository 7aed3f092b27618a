/** What a device reported about a provider's key: only checks of the version the account
    holds now are shown, and each was reported by a device that held that version. */
module LinkChecks {
  import opened Base
  import opened Order
  import opened Links
  import opened LinkEffects
  import opened LinkRuns
  import opened LinkLeases

  lemma VersionFactsNoCheck(s: LinkSet, link: LinkRecord, kept: seq<SealedCopy>)
    ensures forall f | f in VersionFacts(s, link, kept) :: !f.Check?
  {
    hide Order.Keys, Tombstones, CopyFacts;
    CopyFactsAreCopies(link.id, link.version, kept);
    TombstonesAreCopies(s, Keys(Unreplaced(s, link.id, kept)));
  }

  lemma ForgetNoCheck(s: LinkSet, device: string)
    requires Keyed(s)
    ensures forall f | f in ForgetDevice(s, device) :: !f.Check?
  {
    hide Names, Order.Keys, Tombstones, LeaseTombstones;
    TombstonesAreCopies(s, Keys(s.KeysOfDevice(device)));
    LeaseTombstonesTouch(s, Names(LeasesOf(s, device)));
  }

  lemma OthersWriteNoCheck(s: LinkSet, c: Command, now: nat)
    requires Keyed(s) && Decide(s, c, now).Ok? && !c.CmdCheck?
    ensures forall f | f in Decide(s, c, now).value :: !f.Check?
  {
    hide Names, Order.Keys, Tombstones, VersionFacts, CopyFacts, ForgetDevice;
    match c
    case CmdRegister(device, key) => TombstonesAreCopies(s, Keys(s.KeysOfDevice(device)));
    case CmdPut(p, caller, put) => VersionFactsNoCheck(s, NewLink(s, p, put, now), KeptBy(s, put));
    case CmdAdd(p, _, version, copies) => CopyFactsAreCopies(p, version, copies);
    case CmdRevoke(p) =>
      RevokeFacts(s, p, now);
      VersionFactsNoCheck(s, s.links[p].(status := Revoked, updatedAt := now), []);
    case CmdForget(device) => ForgetNoCheck(s, device);
    case CmdLease(_, _, _) =>
    case CmdPurge => TombstonesAreCopies(s, Keys(s.DepartedKeys()));
  }

  lemma {:induction false} SameChecks(s: LinkSet, facts: seq<LinkFact>)
    requires forall f | f in facts :: !f.Check?
    ensures ApplyAll(s, facts).checks == s.checks
    decreases |facts|
  {
    if facts != [] {
      assert !facts[0].Check?;
      SameChecks(Apply(s, facts[0]), facts[1..]);
    }
  }

  /** A step reports a check: of the link's version then, by a device holding it then. */
  ghost predicate Reports(s: LinkSet, step: Step, check: CheckRecord) {
    && step.Do? && step.written >= 1
    && step.command == CmdCheck(check.id, check.deviceId, check.version, check.reachable)
    && s.LinkActive(check.id) && s.links[check.id].version == check.version
    && s.CopyFor(check.id, check.deviceId).Some? && check.checkedAt == step.now
  }

  lemma NewCheckReported(s: LinkSet, step: Step, provider: string)
    requires CrashSafe(s) && provider in Next(s, step).checks
    requires provider in s.checks ==> s.checks[provider] != Next(s, step).checks[provider]
    ensures Reports(s, step, Next(s, step).checks[provider]) && Next(s, step).checks[provider].id == provider
  {
    hide LinkSet.CopyFor;
    assert step.Do? && Decide(s, step.command, step.now).Ok?;
    var facts := Decide(s, step.command, step.now).value;
    var written := facts[..Min(step.written, |facts|)];
    if step.command.CmdCheck? {
      if step.written >= 1 {
        assert written == facts;
        assert ApplyAll(s, facts) == Apply(s, facts[0]);
      }
    } else {
      OthersWriteNoCheck(s, step.command, step.now);
      assert forall f | f in written :: f in facts;
      SameChecks(s, written);
    }
  }

  /** Every check shown was reported by a step of the run, of the version that is current
      still, by a device that held that version when it reported. */
  lemma {:induction false} ShownCheckWasReported(steps: seq<Step>, provider: string) returns (i: nat)
    requires provider in Exec(EmptySet, steps).checks
    ensures i < |steps|
    ensures Reports(At(EmptySet, steps, i), steps[i], Exec(EmptySet, steps).checks[provider])
    ensures Exec(EmptySet, steps).checks[provider].id == provider
    ensures Exec(EmptySet, steps).CheckOf(provider).Some? ==>
              Exec(EmptySet, steps).CurrentVersion(provider) == At(EmptySet, steps, i).CurrentVersion(provider)
    decreases |steps|
  {
    hide Decide, Next;
    assert steps != [];
    var before := steps[..|steps| - 1];
    AtNext(EmptySet, steps, |steps| - 1);
    assert steps[..|steps|] == steps;
    RunSafe(EmptySet, before);
    var s := Exec(EmptySet, before);
    if provider in s.checks && s.checks[provider] == Exec(EmptySet, steps).checks[provider] {
      i := ShownCheckWasReported(before, provider);
      assert steps[..i] == before[..i];
    } else {
      i := |steps| - 1;
      NewCheckReported(s, steps[i], provider);
    }
  }

  /** No check is of a version the account has not reached. */
  lemma CheckIsNotAhead(steps: seq<Step>, provider: string)
    requires provider in Exec(EmptySet, steps).checks
    ensures Exec(EmptySet, steps).checks[provider].version <= Exec(EmptySet, steps).CurrentVersion(provider)
  {
    hide Decide, Next, Exec, LinkSet.CopyFor;
    var i := ShownCheckWasReported(steps, provider);
    assert steps == steps[..i] + steps[i..];
    NoResurrection(steps[..i], steps[i..], provider, 0);
  }

  /** At any point of any run, a new version hides what was found of the one before. */
  lemma PutHidesCheck(steps: seq<Step>, provider: string, caller: Option<string>, put: PutRequest, now: nat)
    requires PutLink(Exec(EmptySet, steps), provider, caller, put, now).Ok?
    ensures var s := Exec(EmptySet, steps);
            ApplyAll(s, PutLink(s, provider, caller, put, now).value).CheckOf(provider).None?
  {
    hide PutLink, VersionFacts, Exec;
    var s := Exec(EmptySet, steps);
    RunIsSafe(steps);
    if provider in s.checks {
      CheckIsNotAhead(steps, provider);
    }
    PutAdmitted(s, provider, caller, put, now);
    PutEffect(s, provider, caller, put, now);
    PutVersionIs(s, provider, caller, put, now);
    VersionFactsNoCheck(s, NewLink(s, provider, put, now), KeptBy(s, put));
    SameChecks(s, VersionFacts(s, NewLink(s, provider, put, now), KeptBy(s, put)));
  }

  lemma RunIsSafe(steps: seq<Step>)
    ensures CrashSafe(Exec(EmptySet, steps))
  {
    hide Exec;
    RunSafe(EmptySet, steps);
  }
}
