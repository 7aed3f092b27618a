/** Which key a copy is sealed to. The authority never opens a copy and never compares the
    key it was sealed to with the key registered, so what keeps the two together is what
    each request carries and where the Hub stops: exactly that, over every run. */
module LinkKeys {
  import opened Base
  import opened Order
  import opened Links
  import opened LinkEffects
  import opened LinkCoverage
  import opened LinkRuns

  /** The account's links, and the recipient key recorded for each hosted Home, which the
      Homes serving the account draw theirs from. */
  datatype KeyState = KeyState(links: LinkSet, homeKeys: map<string, PublicKey>)

  /** A step of the account's own, the Homes that serve it changing, a Home's key recorded
      with every copy sealed for that Home dropped, or a Home's key forgotten. */
  datatype KeyStep =
    | Hub(step: Step)
    | Serve(homes: set<string>)
    | Rekey(home: string, key: PublicKey)
    | Unkey(home: string)

  const EmptyKeys := KeyState(EmptySet, map[])

  function Serving(keys: map<string, PublicKey>, homes: set<string>): map<string, PublicKey> {
    map h | h in homes && h in keys && IsHome(h) :: keys[h]
  }

  function CopiesNaming(s: LinkSet, home: string): set<CopyKey> {
    set k | k in s.copies && k.device == home
  }

  function KeyNext(ks: KeyState, step: KeyStep): KeyState {
    match step
    case Hub(s) => if s.Homes? then ks else ks.(links := Next(ks.links, s))
    case Serve(homes) => ks.(links := Next(ks.links, Homes(Serving(ks.homeKeys, homes), {})))
    case Rekey(home, key) =>
      if !IsHome(home) || (home in ks.homeKeys && ks.homeKeys[home] == key) then ks
      else
        var keys := ks.homeKeys[home := key];
        KeyState(Next(ks.links, Homes(Serving(keys, ks.links.homes.Keys), CopiesNaming(ks.links, home))), keys)
    case Unkey(home) =>
      var keys := ks.homeKeys - {home};
      KeyState(Next(ks.links, Homes(Serving(keys, ks.links.homes.Keys), {})), keys)
  }

  function KeyExec(ks: KeyState, steps: seq<KeyStep>): KeyState {
    if steps == [] then ks else KeyNext(KeyExec(ks, steps[..|steps| - 1]), steps[|steps| - 1])
  }

  // ---- fresh keys ---------------------------------------------------------------------------

  predicate SealedTo(copy: SealedCopy, key: PublicKey) {
    copy.ciphertext.Cipher? && copy.ciphertext.body.key == key
  }

  function RegisteredKey(ks: KeyState, recipient: string): Option<PublicKey> {
    if IsHome(recipient) then
      if recipient in ks.homeKeys then Some(ks.homeKeys[recipient]) else None
    else if recipient in ks.links.recipients then Some(ks.links.recipients[recipient].publicKey) else None
  }

  ghost predicate FreshCopy(ks: KeyState, copy: SealedCopy) {
    RegisteredKey(ks, copy.deviceId).Some? ==> SealedTo(copy, RegisteredKey(ks, copy.deviceId).value)
  }

  /** Every copy for a registered recipient is sealed to that recipient's registered key. */
  ghost predicate FreshKeys(ks: KeyState) {
    forall k | k in ks.links.copies :: FreshCopy(ks, ks.links.copies[k].copy)
  }

  /** What every run keeps: copies are for recipients with a key, and the serving Homes'
      keys are the recorded ones. */
  ghost predicate KeysHold(ks: KeyState) {
    && CrashSafe(ks.links)
    && (forall h | h in ks.links.homes :: h in ks.homeKeys && ks.homeKeys[h] == ks.links.homes[h])
    && (forall k | k in ks.links.copies :: IsHome(k.device) || k.device in ks.links.recipients)
  }

  /** A copy sealed to the key its recipient is listed with, as a client can test before it
      submits. */
  predicate SealedAsListed(s: LinkSet, copy: SealedCopy) {
    copy.deviceId in s.AllRecipients() && SealedTo(copy, s.AllRecipients()[copy.deviceId])
  }

  /** A trusted device with a key, or a Home that serves the account. */
  predicate Listed(s: LinkSet, recipient: string) {
    if IsHome(recipient) then recipient in s.homes else recipient in s.Recipients()
  }

  /** The copies of a request that reach the store before the Hub stops. */
  function WrittenCopies(s: LinkSet, step: Step): seq<SealedCopy> {
    if !step.Do? || Decide(s, step.command, step.now).Err? then []
    else
      match step.command
      case CmdPut(_, _, put) => if step.written == 0 then [] else Take(KeptBy(s, put), step.written - 1)
      case CmdAdd(_, _, _, copies) => Take(copies, step.written)
      case _ => []
  }

  function Take(copies: seq<SealedCopy>, n: nat): seq<SealedCopy> {
    copies[..Min(n, |copies|)]
  }

  /** A registration stopped after the new key and before the last of the device's
      tombstones. */
  predicate StoppedRegistering(s: LinkSet, step: Step) {
    step.Do? && step.command.CmdRegister? && Decide(s, step.command, step.now).Ok?
    && 1 <= step.written < |Decide(s, step.command, step.now).value|
  }

  /** The step writes only copies sealed as listed and does not stop inside a registration. */
  predicate KeepsKeys(ks: KeyState, step: KeyStep) {
    step.Hub? ==>
      !StoppedRegistering(ks.links, step.step)
      && forall c | c in WrittenCopies(ks.links, step.step) :: SealedAsListed(ks.links, c)
  }

  // ---- what a stopped version or addition leaves ------------------------------------------------

  lemma {:induction false} CopyFactsTake(provider: string, version: nat, copies: seq<SealedCopy>, n: nat)
    requires n <= |copies|
    ensures |CopyFacts(provider, version, copies)| == |copies|
    ensures CopyFacts(provider, version, copies)[..n] == CopyFacts(provider, version, copies[..n])
    decreases |copies|
  {
    if n < |copies| {
      CopyFactsTake(provider, version, copies[..|copies| - 1], n);
      assert copies[..|copies| - 1][..n] == copies[..n];
    } else {
      assert copies[..n] == copies;
      if n > 0 {
        CopyFactsTake(provider, version, copies[..n - 1], n - 1);
      }
    }
  }

  /** After part of a request's copies of one provider, each is in place and every other copy
      is one that was there before. */
  ghost predicate Placed(s: LinkSet, s': LinkSet, provider: string, version: nat, copies: seq<SealedCopy>) {
    && s'.recipients == s.recipients && s'.homes == s.homes
    && (forall c | c in copies ::
          CopyKey(provider, c.deviceId) in s'.copies
          && IsCopyOf(s'.copies[CopyKey(provider, c.deviceId)], CopyKey(provider, c.deviceId), version, copies))
    && (forall k | k in s'.copies ::
          (k in s.copies && s'.copies[k] == s.copies[k])
          || (k.provider == provider && IsCopyOf(s'.copies[k], k, version, copies)))
  }

  lemma CopiesPlaced(s: LinkSet, provider: string, version: nat, copies: seq<SealedCopy>)
    ensures Placed(s, ApplyAll(s, CopyFacts(provider, version, copies)), provider, version, copies)
  {
    var s' := ApplyAll(s, CopyFacts(provider, version, copies));
    AddEffect(s, provider, version, copies);
    forall c | c in copies
      ensures CopyKey(provider, c.deviceId) in s'.copies
      ensures IsCopyOf(s'.copies[CopyKey(provider, c.deviceId)], CopyKey(provider, c.deviceId), version, copies)
    {
      assert c.deviceId in SealedFor(copies);
    }
  }

  /** Deleting copies of recipients not sealed for changes nothing of that. */
  lemma {:induction false} PlacedStays(s: LinkSet, s': LinkSet, provider: string, version: nat, copies: seq<SealedCopy>,
                                       facts: seq<LinkFact>)
    requires Placed(s, s', provider, version, copies)
    requires forall f | f in facts ::
               f.Lease? || (f.Copy? && f.copy.op == Tombstone && f.copy.id.device !in SealedFor(copies))
    ensures Placed(s, ApplyAll(s', facts), provider, version, copies)
    decreases |facts|
  {
    hide Placed, Apply, SealedFor;
    if facts != [] {
      assert facts[0] in facts;
      StillPlaced(s, s', provider, version, copies, facts[0]);
      PlacedStays(s, Apply(s', facts[0]), provider, version, copies, facts[1..]);
    }
  }

  lemma StillPlaced(s: LinkSet, s': LinkSet, provider: string, version: nat, copies: seq<SealedCopy>, f: LinkFact)
    requires Placed(s, s', provider, version, copies)
    requires f.Lease? || (f.Copy? && f.copy.op == Tombstone && f.copy.id.device !in SealedFor(copies))
    ensures Placed(s, Apply(s', f), provider, version, copies)
  {
    hide IsCopyOf;
    assert forall c | c in copies :: c.deviceId in SealedFor(copies);
  }

  lemma {:induction false} TombstonesOf(s: LinkSet, keys: seq<CopyKey>)
    requires forall k | k in keys :: k in s.copies && s.copies[k].id == k
    ensures forall f | f in Tombstones(s, keys) :: f.Copy? && f.copy.op == Tombstone && f.copy.id in keys
  {
    if keys != [] {
      TombstonesOf(s, keys[1..]);
    }
  }

  /** The deletions that end a new version's facts. */
  lemma DeletionsSpare(s: LinkSet, link: LinkRecord, kept: seq<SealedCopy>)
    requires Canonical(s)
    ensures forall f | f in DropCopies(s, Unreplaced(s, link.id, kept)) + DropLease(s, link.id) ::
              f.Lease? || (f.Copy? && f.copy.op == Tombstone && f.copy.id.device !in SealedFor(kept))
  {
    hide Order.Keys, Tombstones;
    TombstonesOf(s, Keys(Unreplaced(s, link.id, kept)));
  }

  /** A new version stopped after its first facts has placed that many of its copies. */
  lemma VersionPlaced(s: LinkSet, link: LinkRecord, kept: seq<SealedCopy>, n: nat)
    requires Canonical(s) && 1 <= n <= |VersionFacts(s, link, kept)|
    ensures Placed(s, ApplyAll(s, VersionFacts(s, link, kept)[..n]), link.id, link.version, Take(kept, n - 1))
  {
    hide CopyFacts, DropCopies, DropLease, Placed;
    var copies := CopyFacts(link.id, link.version, kept);
    var deletions := DropCopies(s, Unreplaced(s, link.id, kept)) + DropLease(s, link.id);
    var facts := VersionFacts(s, link, kept);
    var s1 := Apply(s, Link(link));
    assert facts == [Link(link)] + copies + deletions;
    CopyFactsTake(link.id, link.version, kept, Min(n - 1, |kept|));
    if n - 1 <= |kept| {
      assert facts[..n] == [Link(link)] + copies[..n - 1];
      LinkFirst(s, link, copies[..n - 1]);
      CopiesPlaced(s1, link.id, link.version, Take(kept, n - 1));
    } else {
      var rest := deletions[..n - 1 - |kept|];
      assert copies[..|kept|] == copies && kept[..|kept|] == kept;
      assert facts[..n] == [Link(link)] + (copies + rest);
      LinkFirst(s, link, copies + rest);
      ApplyAllConcat(s1, copies, rest);
      CopiesPlaced(s1, link.id, link.version, kept);
      DeletionsSpare(s, link, kept);
      assert forall f | f in rest :: f in deletions;
      PlacedStays(s1, ApplyAll(s1, copies), link.id, link.version, kept, rest);
    }
    PlacedFrom(s, s1, ApplyAll(s, facts[..n]), link, Take(kept, n - 1));
  }

  lemma LinkFirst(s: LinkSet, link: LinkRecord, rest: seq<LinkFact>)
    ensures ApplyAll(s, [Link(link)] + rest) == ApplyAll(Apply(s, Link(link)), rest)
  {
    assert ([Link(link)] + rest)[1..] == rest;
  }

  lemma PlacedFrom(s: LinkSet, s1: LinkSet, s': LinkSet, link: LinkRecord, copies: seq<SealedCopy>)
    requires s1 == Apply(s, Link(link)) && Placed(s1, s', link.id, link.version, copies)
    ensures Placed(s, s', link.id, link.version, copies)
  {
  }

  // ---- one step -------------------------------------------------------------------------------

  ghost predicate OneEach(copies: seq<SealedCopy>) {
    forall c, d | c in copies && d in copies && c.deviceId == d.deviceId :: c == d
  }

  lemma DistinctIsOneEach(all: seq<SealedCopy>, copies: seq<SealedCopy>)
    requires forall i, j | 0 <= i < j < |all| :: all[i].deviceId != all[j].deviceId
    requires forall c | c in copies :: c in all
    ensures OneEach(copies)
  {
  }

  /** Copies placed for listed recipients leave every key fresh exactly when each is sealed
      as listed. */
  lemma PlacedFresh(ks: KeyState, s': LinkSet, provider: string, version: nat, copies: seq<SealedCopy>)
    requires KeysHold(ks) && FreshKeys(ks) && Placed(ks.links, s', provider, version, copies)
    requires OneEach(copies) && forall c | c in copies :: Listed(ks.links, c.deviceId)
    ensures FreshKeys(ks.(links := s')) <==> forall c | c in copies :: SealedAsListed(ks.links, c)
    ensures forall k | k in s'.copies :: IsHome(k.device) || k.device in s'.recipients
  {
    hide FreshCopy, SealedAsListed;
    var after := ks.(links := s');
    forall c | c in copies
      ensures FreshCopy(after, c) <==> SealedAsListed(ks.links, c)
    {
      ListedFresh(ks, s', c);
    }
    forall k | k in s'.copies
      ensures FreshCopy(after, s'.copies[k].copy) || s'.copies[k].copy in copies
    {
      OldFresh(ks, s', s'.copies[k].copy);
    }
    forall c | c in copies
      ensures exists k :: k in s'.copies && s'.copies[k].copy == c
    {
      assert s'.copies[CopyKey(provider, c.deviceId)].copy == c;
    }
    PlacedRegistered(ks, s', provider, version, copies);
  }

  lemma ListedFresh(ks: KeyState, s': LinkSet, c: SealedCopy)
    requires KeysHold(ks) && Listed(ks.links, c.deviceId) && s'.recipients == ks.links.recipients
    ensures FreshCopy(ks.(links := s'), c) <==> SealedAsListed(ks.links, c)
  {
    assert c.deviceId in ks.links.homes ==> IsHome(c.deviceId);
  }

  lemma OldFresh(ks: KeyState, s': LinkSet, c: SealedCopy)
    requires s'.recipients == ks.links.recipients
    ensures FreshCopy(ks.(links := s'), c) <==> FreshCopy(ks, c)
  {
  }

  ghost predicate Shrinks(s: LinkSet, s': LinkSet) {
    && s'.homes == s.homes
    && (forall k | k in s'.copies :: k in s.copies && s'.copies[k] == s.copies[k])
    && (forall d | d in s'.recipients :: d in s.recipients && s'.recipients[d] == s.recipients[d])
  }

  lemma ShrinksFresh(ks: KeyState, s': LinkSet)
    requires FreshKeys(ks) && Shrinks(ks.links, s')
    ensures FreshKeys(ks.(links := s'))
  {
    forall k | k in s'.copies
      ensures FreshCopy(ks.(links := s'), s'.copies[k].copy)
    {
      assert FreshCopy(ks, ks.links.copies[k].copy);
    }
  }

  /** A fact that brings neither a copy nor a key. */
  ghost predicate BringsNothing(f: LinkFact) {
    (f.Copy? ==> f.copy.op == Tombstone) && (f.Recipient? ==> f.recipient.op == Tombstone)
  }

  lemma OneShrinks(s: LinkSet, f: LinkFact)
    requires BringsNothing(f)
    ensures Shrinks(s, Apply(s, f)) && (!f.Recipient? ==> Apply(s, f).recipients == s.recipients)
  {
  }

  lemma ShrinksTrans(a: LinkSet, b: LinkSet, c: LinkSet)
    requires Shrinks(a, b) && Shrinks(b, c)
    ensures Shrinks(a, c)
  {
  }

  lemma {:induction false} NothingShrinks(s: LinkSet, facts: seq<LinkFact>)
    requires forall f | f in facts :: BringsNothing(f)
    ensures Shrinks(s, ApplyAll(s, facts))
    ensures (forall f | f in facts :: !f.Recipient?) ==> ApplyAll(s, facts).recipients == s.recipients
    decreases |facts|
  {
    hide Shrinks, Apply, BringsNothing;
    if facts == [] {
      SameShrinks(s);
    } else {
      assert facts[0] in facts && BringsNothing(facts[0]);
      var s1 := Apply(s, facts[0]);
      OneShrinks(s, facts[0]);
      assert forall f | f in facts[1..] :: f in facts;
      NothingShrinks(s1, facts[1..]);
      ShrinksTrans(s, s1, ApplyAll(s1, facts[1..]));
    }
  }

  lemma SameShrinks(s: LinkSet)
    ensures Shrinks(s, s)
  {
  }

  lemma ForgetBrings(s: LinkSet, device: string)
    ensures forall f | f in ForgetDevice(s, device) :: BringsNothing(f)
  {
    hide Names, Order.Keys, Tombstones, LeaseTombstones;
    TombstonesDelete(s, Keys(s.KeysOfDevice(device)));
    LeaseTombstonesDelete(s, Names(LeasesOf(s, device)));
  }

  lemma RevokeBrings(s: LinkSet, provider: string, now: nat)
    requires RevokeLink(s, provider, now).Ok?
    ensures forall f | f in RevokeLink(s, provider, now).value :: BringsNothing(f) && !f.Recipient?
  {
    hide Order.Keys, Tombstones;
    TombstonesAreCopyDeletions(s, Keys(s.KeysOfProvider(provider)));
  }

  lemma {:induction false} TombstonesAreCopyDeletions(s: LinkSet, keys: seq<CopyKey>)
    requires forall k | k in keys :: k in s.copies
    ensures forall f | f in Tombstones(s, keys) :: f.Copy? && f.copy.op == Tombstone
  {
    if keys != [] {
      TombstonesAreCopyDeletions(s, keys[1..]);
    }
  }

  /** Forgetting deletes a device's copies before its key, so a stop never leaves a copy for
      a device without one. */
  lemma ForgetKeepsRegistered(s: LinkSet, device: string, n: nat)
    requires Canonical(s) && n <= |ForgetDevice(s, device)|
    requires forall k | k in s.copies :: IsHome(k.device) || k.device in s.recipients
    ensures var s' := ApplyAll(s, ForgetDevice(s, device)[..n]);
            forall k | k in s'.copies :: IsHome(k.device) || k.device in s'.recipients
  {
    hide Names, Order.Keys, Tombstones, LeaseTombstones;
    var facts := ForgetDevice(s, device);
    var drop := DropCopies(s, s.KeysOfDevice(device));
    var s' := ApplyAll(s, facts[..n]);
    if n <= |drop| {
      TombstonesAreCopyDeletions(s, Keys(s.KeysOfDevice(device)));
      assert facts[..n] == drop[..n];
      assert forall f | f in drop[..n] :: f in drop;
      NothingShrinks(s, drop[..n]);
    } else {
      var rest := facts[|drop|..n];
      assert facts[..n] == drop + rest;
      ApplyAllConcat(s, drop, rest);
      DropCopiesEffect(s, s, s.KeysOfDevice(device));
      ForgetBrings(s, device);
      assert forall f | f in rest :: f in facts;
      NothingShrinks(ApplyAll(s, drop), rest);
      ForgetKeyOnly(s, device, rest);
    }
  }

  /** Past its copies, forgetting a device deletes no other device's key. */
  lemma ForgetKeyOnly(s: LinkSet, device: string, rest: seq<LinkFact>)
    requires Canonical(s)
    requires forall f | f in rest :: f in ForgetDevice(s, device)
    ensures var s1 := ApplyAll(s, DropCopies(s, s.KeysOfDevice(device)));
            forall d | d in s.recipients && d != device :: d in ApplyAll(s1, rest).recipients
  {
    hide Names, Order.Keys, Tombstones, LeaseTombstones, ForgetDevice;
    var s1 := ApplyAll(s, DropCopies(s, s.KeysOfDevice(device)));
    DropCopiesEffect(s, s, s.KeysOfDevice(device));
    ForgetNames(s, device);
    OtherKeysStay(s1, device, rest);
  }

  lemma ForgetNames(s: LinkSet, device: string)
    requires Canonical(s)
    ensures forall f | f in ForgetDevice(s, device) && f.Recipient? :: f.recipient.id == device
  {
    hide Names, Order.Keys, Tombstones, LeaseTombstones;
    TombstonesAreCopyDeletions(s, Keys(s.KeysOfDevice(device)));
    LeaseTombstonesAreLeases(s, Names(LeasesOf(s, device)));
  }

  lemma {:induction false} LeaseTombstonesAreLeases(s: LinkSet, providers: seq<string>)
    requires forall p | p in providers :: p in s.leases
    ensures forall f | f in LeaseTombstones(s, providers) :: f.Lease?
  {
    if providers != [] {
      LeaseTombstonesAreLeases(s, providers[1..]);
    }
  }

  lemma {:induction false} OtherKeysStay(s: LinkSet, device: string, facts: seq<LinkFact>)
    requires forall f | f in facts && f.Recipient? :: f.recipient.id == device
    ensures forall d | d in s.recipients && d != device :: d in ApplyAll(s, facts).recipients
    decreases |facts|
  {
    if facts != [] {
      assert facts[0] in facts;
      OtherKeysStay(Apply(s, facts[0]), device, facts[1..]);
    }
  }

  // ---- each command -----------------------------------------------------------------------------

  /** What a step does to the keys: it keeps what every run keeps, and keeps the keys fresh
      exactly when it keeps the keys. */
  ghost predicate KeyStepHolds(ks: KeyState, step: KeyStep) {
    && (forall k | k in KeyNext(ks, step).links.copies ::
          IsHome(k.device) || k.device in KeyNext(ks, step).links.recipients)
    && (FreshKeys(ks) ==> (FreshKeys(KeyNext(ks, step)) <==> KeepsKeys(ks, step)))
  }

  lemma PutKeys(ks: KeyState, provider: string, caller: Option<string>, put: PutRequest, now: nat, written: nat)
    requires KeysHold(ks) && PutLink(ks.links, provider, caller, put, now).Ok? && written >= 1
    ensures KeyStepHolds(ks, Hub(Do(CmdPut(provider, caller, put), now, written)))
  {
    hide VersionFacts, Placed, KeysHold, FreshKeys, PutLink, Kept;
    var s := ks.links;
    var kept, link := KeptBy(s, put), NewLink(s, provider, put, now);
    var facts := VersionFacts(s, link, kept);
    PutVersionIs(s, provider, caller, put, now);
    var n := Min(written, |facts|);
    HoldsCanonical(ks);
    VersionHasCopies(s, link, kept);
    VersionPlaced(s, link, kept, n);
    assert Take(kept, n - 1) == Take(kept, written - 1);
    KeptAreListed(s, provider, caller, put, now, Take(kept, n - 1));
    PlacedKeys(ks, Do(CmdPut(provider, caller, put), now, written), ApplyAll(s, facts[..n]), provider, link.version,
               Take(kept, n - 1));
  }

  lemma HoldsCanonical(ks: KeyState)
    requires KeysHold(ks)
    ensures Canonical(ks.links)
  {
  }

  lemma HoldsRegistered(ks: KeyState)
    requires KeysHold(ks)
    ensures forall k | k in ks.links.copies :: IsHome(k.device) || k.device in ks.links.recipients
  {
  }

  lemma VersionHasCopies(s: LinkSet, link: LinkRecord, kept: seq<SealedCopy>)
    ensures |VersionFacts(s, link, kept)| >= 1 + |kept|
  {
    CopyFactsTake(link.id, link.version, kept, 0);
  }

  lemma KeptAreListed(s: LinkSet, provider: string, caller: Option<string>, put: PutRequest, now: nat,
                      some: seq<SealedCopy>)
    requires PutLink(s, provider, caller, put, now).Ok? && some <= KeptBy(s, put)
    ensures OneEach(some) && forall c | c in some :: Listed(s, c.deviceId)
  {
    hide PutLink, Kept;
    PutAdmitted(s, provider, caller, put, now);
    KeptProperties(s, ReachesHomes(put.authentication, put.classes), put.copies);
    assert forall c | c in some :: c in KeptBy(s, put);
    DistinctIsOneEach(put.copies, some);
    forall c | c in some
      ensures Listed(s, c.deviceId)
    {
      if !IsHome(c.deviceId) {
        assert c.deviceId in set e | e in put.copies && !IsHome(e.deviceId) :: e.deviceId;
      }
    }
  }

  /** A step that places listed copies and no more. */
  lemma PlacedKeys(ks: KeyState, step: Step, s': LinkSet, provider: string, version: nat, copies: seq<SealedCopy>)
    requires KeysHold(ks) && !step.Homes? && Next(ks.links, step) == s' && !StoppedRegistering(ks.links, step)
    requires Placed(ks.links, s', provider, version, copies) && copies == WrittenCopies(ks.links, step)
    requires OneEach(copies) && forall c | c in copies :: Listed(ks.links, c.deviceId)
    ensures KeyStepHolds(ks, Hub(step))
  {
    hide Next, Decide, Placed, SealedAsListed, WrittenCopies, StoppedRegistering, FreshKeys;
    if FreshKeys(ks) {
      PlacedFresh(ks, s', provider, version, copies);
    } else {
      PlacedRegistered(ks, s', provider, version, copies);
    }
  }

  lemma PlacedRegistered(ks: KeyState, s': LinkSet, provider: string, version: nat, copies: seq<SealedCopy>)
    requires KeysHold(ks) && Placed(ks.links, s', provider, version, copies)
    requires forall c | c in copies :: Listed(ks.links, c.deviceId)
    ensures forall k | k in s'.copies :: IsHome(k.device) || k.device in s'.recipients
  {
  }

  lemma AddKeys(ks: KeyState, provider: string, device: string, version: nat, copies: seq<SealedCopy>, now: nat,
                written: nat)
    requires KeysHold(ks) && Decide(ks.links, CmdAdd(provider, device, version, copies), now).Ok?
    ensures KeyStepHolds(ks, Hub(Do(CmdAdd(provider, device, version, copies), now, written)))
  {
    hide Placed, KeysHold, FreshKeys, CopyFacts, AddFrom;
    var s := ks.links;
    var some := Take(copies, written);
    CopyFactsTake(provider, version, copies, Min(written, |copies|));
    CopiesPlaced(s, provider, version, some);
    HoldsCanonical(ks);
    AddedAreListed(s, provider, version, copies, some);
    PlacedKeys(ks, Do(CmdAdd(provider, device, version, copies), now, written),
               ApplyAll(s, CopyFacts(provider, version, some)), provider, version, some);
  }

  lemma AddedAreListed(s: LinkSet, provider: string, version: nat, copies: seq<SealedCopy>, some: seq<SealedCopy>)
    requires Canonical(s) && AddCopies(s, provider, version, copies).Ok? && some <= copies
    ensures OneEach(some) && forall c | c in some :: Listed(s, c.deviceId)
  {
    hide AddCopies;
    AddAdmitted(s, provider, version, copies);
    assert forall c | c in some :: c in copies;
    DistinctIsOneEach(copies, some);
    forall c | c in some
      ensures Listed(s, c.deviceId)
    {
      assert c.deviceId in SealedFor(copies);
      assert c.deviceId in s.Waiting(provider);
    }
  }

  /** A command that only deletes, or writes neither copies nor keys. */
  lemma ShrinkKeys(ks: KeyState, step: Step, facts: seq<LinkFact>)
    requires KeysHold(ks) && step.Do? && Decide(ks.links, step.command, step.now) == Ok(facts)
    requires !step.command.CmdPut? && !step.command.CmdAdd? && !step.command.CmdRegister?
    requires forall f | f in facts :: BringsNothing(f)
    requires step.command.CmdForget? || forall f | f in facts :: !f.Recipient?
    ensures KeyStepHolds(ks, Hub(step))
  {
    hide Decide, FreshKeys, BringsNothing, ApplyAll, Shrinks, KeysHold, ForgetDevice, SealedAsListed;
    HoldsCanonical(ks);
    HoldsRegistered(ks);
    var some := facts[..Min(step.written, |facts|)];
    assert forall f | f in some :: f in facts;
    NothingShrinks(ks.links, some);
    if FreshKeys(ks) {
      ShrinksFresh(ks, ApplyAll(ks.links, some));
    }
    if step.command.CmdForget? {
      ForgetIs(ks.links, step.command.device, step.now);
      ForgetKeepsRegistered(ks.links, step.command.device, |some|);
    } else {
      ShrinksRegistered(ks, ApplyAll(ks.links, some));
    }
    assert WrittenCopies(ks.links, step) == [];
  }

  lemma ShrinksRegistered(ks: KeyState, s': LinkSet)
    requires KeysHold(ks) && Shrinks(ks.links, s') && s'.recipients == ks.links.recipients
    ensures forall k | k in s'.copies :: IsHome(k.device) || k.device in s'.recipients
  {
  }

  lemma ForgetIs(s: LinkSet, device: string, now: nat)
    ensures Decide(s, CmdForget(device), now) == Ok(ForgetDevice(s, device))
  {
  }

  /** Registering a new key: the device's old copies are sealed to its old key, so the keys
      stay fresh exactly when all of them are deleted with it. */
  lemma RegisterKeys(ks: KeyState, device: string, key: KeyText, now: nat, written: nat)
    requires KeysHold(ks) && RegisterRecipient(ks.links, device, key, now).Ok? && !IsHome(device)
    ensures KeyStepHolds(ks, Hub(Do(CmdRegister(device, key), now, written)))
  {
    hide Order.Keys, Tombstones, DropCopies;
    var s := ks.links;
    var facts := RegisterRecipient(s, device, key, now).value;
    var n := Min(written, |facts|);
    if n == 0 {
      assert facts[..n] == [];
    } else {
      RegisterWritten(s, RecipientRecord(device, Upsert, key.key, now), facts, n);
      RegisterFresh(ks, ApplyAll(s, facts[..n]), RecipientRecord(device, Upsert, key.key, now), n < |facts|);
    }
  }

  /** After some of a registration's facts: the new key, some of the device's copies gone, and
      one left exactly when the last tombstone is not written. */
  lemma RegisterWritten(s: LinkSet, r: RecipientRecord, facts: seq<LinkFact>, written: nat)
    requires Keyed(s) && r.op == Upsert
    requires facts == [Recipient(r)] + DropCopies(s, s.KeysOfDevice(r.id))
    requires r.id in s.recipients ==> s.recipients[r.id].publicKey != r.publicKey
    requires 1 <= written <= |facts|
    ensures var s' := ApplyAll(s, facts[..written]);
            && s'.recipients == s.recipients[r.id := r]
            && (forall k | k in s'.copies :: k in s.copies && s'.copies[k] == s.copies[k])
            && (s'.KeysOfDevice(r.id) != {} <==> written < |facts|)
  {
    var owned := Keys(s.KeysOfDevice(r.id));
    TombstonesPrefix(s, owned, 0);
    RegisterPrefix(s, r, owned, written - 1);
    RegisterStopped(s, r, facts, written);
  }

  lemma RegisterFresh(ks: KeyState, s': LinkSet, r: RecipientRecord, stopped: bool)
    requires KeysHold(ks) && !IsHome(r.id)
    requires r.id in ks.links.recipients ==> ks.links.recipients[r.id].publicKey != r.publicKey
    requires s'.recipients == ks.links.recipients[r.id := r]
    requires forall k | k in s'.copies :: k in ks.links.copies && s'.copies[k] == ks.links.copies[k]
    requires s'.KeysOfDevice(r.id) != {} <==> stopped
    ensures FreshKeys(ks) ==> (FreshKeys(ks.(links := s')) <==> !stopped)
    ensures forall k | k in s'.copies :: IsHome(k.device) || k.device in s'.recipients
  {
    var after := ks.(links := s');
    if FreshKeys(ks) {
      forall k | k in s'.copies
        ensures FreshCopy(after, s'.copies[k].copy) <==> s'.copies[k].copy.deviceId != r.id
      {
        assert FreshCopy(ks, ks.links.copies[k].copy);
        assert k == CopyKey(ks.links.copies[k].provider, ks.links.copies[k].copy.deviceId);
      }
      if stopped {
        var k :| k in s'.KeysOfDevice(r.id);
        assert !FreshCopy(after, s'.copies[k].copy);
      } else {
        assert forall k | k in s'.copies :: k !in s'.KeysOfDevice(r.id);
      }
    }
  }

  /** No device is named as a Home is. */
  ghost predicate DevicesNamed(s: LinkSet) {
    forall d | d in s.activeDevices :: !IsHome(d)
  }

  lemma DoKeys(ks: KeyState, step: Step)
    requires KeysHold(ks) && DevicesNamed(ks.links) && step.Do?
    ensures KeyStepHolds(ks, Hub(step))
  {
    hide KeyStepHolds, KeysHold, PutLink, AddCopies, ForgetDevice, DropCopies, VersionFacts, CopyFacts;
    var s, d := ks.links, Decide(ks.links, step.command, step.now);
    if d.Err? {
      RefusedKeys(ks, step);
    } else {
      match step.command
      case CmdRegister(device, key) => RegisterKeys(ks, device, key, step.now, step.written);
      case CmdPut(provider, caller, put) =>
        if step.written == 0 {
          UnwrittenKeys(ks, step);
        } else {
          PutKeys(ks, provider, caller, put, step.now, step.written);
        }
      case CmdAdd(provider, device, version, copies) =>
        AddKeys(ks, provider, device, version, copies, step.now, step.written);
      case CmdRevoke(provider) =>
        RevokeBrings(s, provider, step.now);
        ShrinkKeys(ks, step, d.value);
      case CmdForget(device) =>
        ForgetBrings(s, device);
        ShrinkKeys(ks, step, d.value);
      case CmdLease(_, _, _) => ShrinkKeys(ks, step, d.value);
      case CmdCheck(_, _, _, _) => ShrinkKeys(ks, step, d.value);
      case CmdPurge =>
        PurgeBrings(s);
        ShrinkKeys(ks, step, d.value);
    }
  }

  lemma PurgeBrings(s: LinkSet)
    ensures forall f | f in DepartedCopies(s) :: BringsNothing(f) && !f.Recipient?
  {
    hide Order.Keys, Tombstones;
    TombstonesAreCopyDeletions(s, Keys(s.DepartedKeys()));
  }

  lemma RefusedKeys(ks: KeyState, step: Step)
    requires KeysHold(ks) && step.Do? && Decide(ks.links, step.command, step.now).Err?
    ensures KeyStepHolds(ks, Hub(step))
  {
    hide Decide, CrashSafe, FreshKeys;
    assert Next(ks.links, step) == ks.links;
  }

  lemma UnwrittenKeys(ks: KeyState, step: Step)
    requires KeysHold(ks) && step.Do? && step.written == 0
    ensures KeyStepHolds(ks, Hub(step))
  {
    hide Decide, CrashSafe, FreshKeys;
    assert Written(ks.links, step) == [];
    assert Next(ks.links, step) == ks.links;
    assert WrittenCopies(ks.links, step) == [];
  }

  // ---- the account's surroundings ---------------------------------------------------------------

  /** Changing which devices are trusted or which Homes serve changes no copy and no key. */
  lemma AroundKeys(ks: KeyState, s': LinkSet, keys: map<string, PublicKey>)
    requires KeysHold(ks) && s'.recipients == ks.links.recipients && s'.copies == ks.links.copies
    requires forall h | h in keys :: h in ks.homeKeys && keys[h] == ks.homeKeys[h]
    ensures FreshKeys(ks) ==> FreshKeys(KeyState(s', keys))
    ensures forall k | k in s'.copies :: IsHome(k.device) || k.device in s'.recipients
  {
    forall k | k in s'.copies && FreshKeys(ks)
      ensures FreshCopy(KeyState(s', keys), s'.copies[k].copy)
    {
      assert FreshCopy(ks, ks.links.copies[k].copy);
    }
  }

  /** Recording a Home's new key drops every copy sealed for it. */
  lemma RekeyKeys(ks: KeyState, home: string, key: PublicKey)
    requires KeysHold(ks)
    ensures KeyStepHolds(ks, Rekey(home, key))
  {
    hide CrashSafe;
    HoldsCanonical(ks);
    var after := KeyNext(ks, Rekey(home, key));
    forall k | k in after.links.copies && FreshKeys(ks)
      ensures FreshCopy(after, after.links.copies[k].copy)
    {
      assert FreshCopy(ks, ks.links.copies[k].copy);
    }
  }

  lemma ServingKnown(ks: KeyState, keys: map<string, PublicKey>, homes: set<string>, dropped: set<CopyKey>)
    requires CrashSafe(ks.links) && DevicesNamed(ks.links)
    ensures var s' := Next(ks.links, Homes(Serving(keys, homes), dropped));
            && CrashSafe(s') && DevicesNamed(s')
            && (forall h | h in s'.homes :: h in keys && keys[h] == s'.homes[h])
  {
    NextSafe(ks.links, Homes(Serving(keys, homes), dropped));
  }

  lemma HubHolds(ks: KeyState, step: Step)
    requires KeysHold(ks) && DevicesNamed(ks.links) && !step.Homes?
    ensures KeyStepHolds(ks, Hub(step)) && KeysHold(KeyNext(ks, Hub(step)))
    ensures DevicesNamed(KeyNext(ks, Hub(step)).links)
  {
    hide CrashSafe, Decide, FreshKeys;
    NextSafe(ks.links, step);
    if step.Do? {
      DoKeys(ks, step);
      WrittenAround(ks.links, Written(ks.links, step));
    } else {
      AroundKeys(ks, Next(ks.links, step), ks.homeKeys);
    }
  }

  lemma {:induction false} WrittenAround(s: LinkSet, facts: seq<LinkFact>)
    ensures ApplyAll(s, facts).homes == s.homes && ApplyAll(s, facts).activeDevices == s.activeDevices
    decreases |facts|
  {
    hide Apply;
    if facts != [] {
      AppliedAround(s, facts[0]);
      WrittenAround(Apply(s, facts[0]), facts[1..]);
    }
  }

  lemma AppliedAround(s: LinkSet, f: LinkFact)
    ensures Apply(s, f).homes == s.homes && Apply(s, f).activeDevices == s.activeDevices
  {
  }

  lemma KeyNextHolds(ks: KeyState, step: KeyStep)
    requires KeysHold(ks) && DevicesNamed(ks.links)
    ensures KeysHold(KeyNext(ks, step)) && DevicesNamed(KeyNext(ks, step).links) && KeyStepHolds(ks, step)
  {
    hide CrashSafe, FreshKeys, Decide, KeepsKeys;
    HubAside(ks, step);
    match step
    case Hub(s) =>
      if !s.Homes? {
        HubHolds(ks, s);
      }
    case Serve(homes) =>
      ServingKnown(ks, ks.homeKeys, homes, {});
      NothingDropped(ks.links, Serving(ks.homeKeys, homes));
      AroundKeys(ks, Next(ks.links, Homes(Serving(ks.homeKeys, homes), {})), ks.homeKeys);
    case Rekey(home, key) =>
      ServingKnown(ks, ks.homeKeys[home := key], ks.links.homes.Keys, CopiesNaming(ks.links, home));
      RekeyKeys(ks, home, key);
    case Unkey(home) =>
      var keys := ks.homeKeys - {home};
      ServingKnown(ks, keys, ks.links.homes.Keys, {});
      NothingDropped(ks.links, Serving(keys, ks.links.homes.Keys));
      AroundKeys(ks, Next(ks.links, Homes(Serving(keys, ks.links.homes.Keys), {})), keys);
  }

  lemma HubAside(ks: KeyState, step: KeyStep)
    ensures !step.Hub? || step.step.Homes? ==> KeepsKeys(ks, step)
  {
  }

  lemma NothingDropped(s: LinkSet, homes: map<string, PublicKey>)
    ensures Next(s, Homes(homes, {})).copies == s.copies && Next(s, Homes(homes, {})).recipients == s.recipients
  {
    var none: set<CopyKey> := {};
    assert s.copies - (set k | k in none && IsHome(k.device)) == s.copies;
  }

  // ---- every run ----------------------------------------------------------------------------------

  lemma {:induction false} KeyRunHolds(ks: KeyState, steps: seq<KeyStep>)
    requires KeysHold(ks) && DevicesNamed(ks.links)
    ensures KeysHold(KeyExec(ks, steps)) && DevicesNamed(KeyExec(ks, steps).links)
    decreases |steps|
  {
    hide KeysHold, KeyNext, DevicesNamed;
    if steps != [] {
      KeyRunHolds(ks, steps[..|steps| - 1]);
      KeyNextHolds(KeyExec(ks, steps[..|steps| - 1]), steps[|steps| - 1]);
    }
  }

  lemma EmptyKeysHold()
    ensures KeysHold(EmptyKeys) && DevicesNamed(EmptyKeys.links) && FreshKeys(EmptyKeys)
  {
  }

  /** Every step of a run so far kept the keys. */
  ghost predicate AllKeep(ks: KeyState, steps: seq<KeyStep>) {
    forall n | 0 <= n < |steps| :: KeepsKeys(KeyExec(ks, steps[..n]), steps[n])
  }

  ghost predicate AlwaysFresh(ks: KeyState, steps: seq<KeyStep>) {
    forall n | 0 <= n <= |steps| :: FreshKeys(KeyExec(ks, steps[..n]))
  }

  /** A run and its last step. */
  lemma RunsOn(ks: KeyState, steps: seq<KeyStep>)
    requires steps != []
    ensures var before := steps[..|steps| - 1];
            && (AlwaysFresh(ks, steps) <==> AlwaysFresh(ks, before) && FreshKeys(KeyExec(ks, steps)))
            && (AllKeep(ks, steps) <==> AllKeep(ks, before) && KeepsKeys(KeyExec(ks, before), steps[|steps| - 1]))
            && (AlwaysFresh(ks, before) ==> FreshKeys(KeyExec(ks, before)))
  {
    hide KeyExec, FreshKeys, KeepsKeys;
    var before := steps[..|steps| - 1];
    assert forall n | 0 <= n <= |before| :: steps[..n] == before[..n];
    assert forall n | 0 <= n < |before| :: steps[n] == before[n];
    assert steps[..|steps|] == steps && before[..|before|] == before;
  }

  /** From any point at which the keys are fresh, they stay so exactly while every step keeps
      them. */
  lemma {:induction false} FreshFrom(ks: KeyState, steps: seq<KeyStep>)
    requires KeysHold(ks) && DevicesNamed(ks.links) && FreshKeys(ks)
    ensures AlwaysFresh(ks, steps) <==> AllKeep(ks, steps)
    decreases |steps|
  {
    hide KeysHold, KeyNext, DevicesNamed, FreshKeys, KeepsKeys, KeyStepHolds;
    if steps == [] {
      assert steps[..0] == [];
    } else {
      var before, last := steps[..|steps| - 1], steps[|steps| - 1];
      FreshFrom(ks, before);
      KeyRunHolds(ks, before);
      KeyNextHolds(KeyExec(ks, before), last);
      RunsOn(ks, steps);
      LastKeeps(ks, steps);
    }
  }

  /** Over every run, with the Hub stopping anywhere: at every point each copy for a
      registered recipient is sealed to the recipient's registered key, if and only if every
      copy written was sealed to the key its recipient was then listed with and the Hub
      stopped inside no registration. */
  lemma KeysStayFresh(steps: seq<KeyStep>)
    ensures AlwaysFresh(EmptyKeys, steps) <==> AllKeep(EmptyKeys, steps)
  {
    hide AlwaysFresh, AllKeep, KeysHold, FreshKeys;
    EmptyKeysHold();
    FreshFrom(EmptyKeys, steps);
  }

  lemma LastKeeps(ks: KeyState, steps: seq<KeyStep>)
    requires steps != [] && KeyStepHolds(KeyExec(ks, steps[..|steps| - 1]), steps[|steps| - 1])
    ensures FreshKeys(KeyExec(ks, steps[..|steps| - 1])) ==>
              (FreshKeys(KeyExec(ks, steps)) <==> KeepsKeys(KeyExec(ks, steps[..|steps| - 1]), steps[|steps| - 1]))
  {
    hide KeyNext, FreshKeys, KeepsKeys;
  }

  /** Where the keys are fresh, whatever a recipient is served it can open with the key it
      registered. */
  lemma FreshIsServed(ks: KeyState, provider: string, recipient: string)
    requires KeysHold(ks) && FreshKeys(ks) && ks.links.CopyFor(provider, recipient).Some?
    ensures RegisteredKey(ks, recipient).Some?
    ensures SealedTo(ks.links.CopyFor(provider, recipient).value, RegisteredKey(ks, recipient).value)
  {
    var k := CopyKey(provider, recipient);
    assert FreshCopy(ks, ks.links.copies[k].copy);
    assert k == CopyKey(ks.links.copies[k].provider, ks.links.copies[k].copy.deviceId);
  }

  // ---- the two ways a stale copy comes about ------------------------------------------------------

  /** A put sealed to a device's old key, admitted after the device registered a new one, is
      served to it as its copy of the new version, and the device does not count as waiting. */
  lemma StalePutIsServed(s: LinkSet, provider: string, caller: Option<string>, put: PutRequest, now: nat,
                         device: string, copy: SealedCopy)
    requires Canonical(s) && PutLink(s, provider, caller, put, now).Ok?
    requires device in s.Recipients() && !IsHome(device)
    requires copy in put.copies && copy.deviceId == device && !SealedTo(copy, s.recipients[device].publicKey)
    ensures var s' := ApplyAll(s, PutLink(s, provider, caller, put, now).value);
            && s'.recipients == s.recipients
            && s'.CopyFor(provider, device) == Some(copy) && device !in s'.Waiting(provider)
            && !SealedTo(copy, s'.recipients[device].publicKey)
  {
    hide PutLink, ApplyAll;
    PutAdmitted(s, provider, caller, put, now);
    PutEffect(s, provider, caller, put, now);
    var c := PutServes(s, provider, caller, put, now, device);
    DistinctIsOneEach(put.copies, put.copies);
    assert c == copy;
  }

  function StaleCopy(provider: string, device: string, key: PublicKey, secret: Secret): SealedCopy {
    SealedCopy(device, Point(0), Cipher(56, Sealed("", provider, 1, device, key, secret)))
  }

  /** One device enrols, registers a key, registers another, and then a put sealed to the
      first is admitted: nothing is stopped anywhere. */
  function StaleRun(provider: string, device: string, first: PublicKey, next: PublicKey, secret: Secret): seq<Step> {
    [ Trust(device), Do(CmdRegister(device, Point(first)), 0, 1), Do(CmdRegister(device, Point(next)), 0, 1),
      Do(CmdPut(provider, Some(device),
                PutRequest(0, "", Bearer, {LocalInteractive}, [StaleCopy(provider, device, first, secret)])), 0, 2) ]
  }

  lemma StalePutRun(provider: string, device: string, first: PublicKey, next: PublicKey, secret: Secret)
    requires !IsHome(device) && first != next
    ensures var steps := StaleRun(provider, device, first, next, secret);
            var s := Exec(EmptySet, steps);
            && Uncut(EmptySet, steps)
            && device in s.recipients && s.recipients[device].publicKey == next
            && s.CopyFor(provider, device) == Some(StaleCopy(provider, device, first, secret))
            && SealedTo(StaleCopy(provider, device, first, secret), first) && device !in s.Waiting(provider)
  {
    hide PutLink, Next, Decide;
    var steps := StaleRun(provider, device, first, next, secret);
    var s1 := EmptySet.(activeDevices := {device});
    var s2 := s1.(recipients := map[device := RecipientRecord(device, Upsert, first, 0)]);
    var s3 := s1.(recipients := map[device := RecipientRecord(device, Upsert, next, 0)]);
    TrustFirst(device);
    RegisterAlone(s1, device, first);
    RegisterAlone(s2, device, next);
    assert s2.recipients[device := RecipientRecord(device, Upsert, next, 0)] == s3.recipients;
    var copy := StaleCopy(provider, device, first, secret);
    var put := PutRequest(0, "", Bearer, {LocalInteractive}, [copy]);
    FirstPutAdmitted(s3, provider, device, put, copy);
    StalePutIsServed(s3, provider, Some(device), put, 0, device, copy);
    PutNext(s3, provider, device, put);
    RunOfFour(EmptySet, s1, s2, s3, steps);
  }

  lemma TrustFirst(device: string)
    requires !IsHome(device)
    ensures Next(EmptySet, Trust(device)) == EmptySet.(activeDevices := {device})
  {
  }

  lemma PutNext(s: LinkSet, provider: string, device: string, put: PutRequest)
    requires PutLink(s, provider, Some(device), put, 0).Ok? && |PutLink(s, provider, Some(device), put, 0).value| == 2
    ensures Decide(s, CmdPut(provider, Some(device), put), 0) == PutLink(s, provider, Some(device), put, 0)
    ensures Next(s, Do(CmdPut(provider, Some(device), put), 0, 2))
         == ApplyAll(s, PutLink(s, provider, Some(device), put, 0).value)
  {
    hide PutLink, ApplyAll;
    var facts := PutLink(s, provider, Some(device), put, 0).value;
    assert facts[..2] == facts;
  }

  /** A run of four steps, each written to its end. */
  lemma RunOfFour(s: LinkSet, s1: LinkSet, s2: LinkSet, s3: LinkSet, steps: seq<Step>)
    requires |steps| == 4 && Next(s, steps[0]) == s1 && Next(s1, steps[1]) == s2 && Next(s2, steps[2]) == s3
    requires UncutStep(s, steps[0]) && UncutStep(s1, steps[1]) && UncutStep(s2, steps[2]) && UncutStep(s3, steps[3])
    ensures Exec(s, steps) == Next(s3, steps[3]) && Uncut(s, steps)
  {
    hide Next, Decide;
    assert steps[1..][0] == steps[1] && steps[1..][1..][0] == steps[2] && steps[1..][1..][1..] == [steps[3]];
    var last := [steps[3]];
    assert last[1..] == [];
    assert Exec(s3, last) == Next(s3, steps[3]) && Uncut(s3, last);
    assert Exec(s2, steps[1..][1..]) == Exec(s3, last) && Uncut(s2, steps[1..][1..]);
    assert Exec(s1, steps[1..]) == Exec(s2, steps[1..][1..]) && Uncut(s1, steps[1..]);
  }

  lemma RegisterAlone(s: LinkSet, device: string, key: PublicKey)
    requires s.copies == map[] && device in s.activeDevices
    requires device in s.recipients ==> s.recipients[device].publicKey != key
    ensures var step := Do(CmdRegister(device, Point(key)), 0, 1);
            && Decide(s, step.command, 0) == Ok([Recipient(RecipientRecord(device, Upsert, key, 0))])
            && Next(s, step) == s.(recipients := s.recipients[device := RecipientRecord(device, Upsert, key, 0)])
  {
    assert s.KeysOfDevice(device) == {};
    assert Keys({}) == [];
    var facts := [Recipient(RecipientRecord(device, Upsert, key, 0))];
    assert RegisterRecipient(s, device, Point(key), 0).value == facts;
    assert facts[..1] == facts && facts[1..] == [];
    assert Next(s, Do(CmdRegister(device, Point(key)), 0, 1)) == ApplyAll(Apply(s, facts[0]), facts[1..]);
  }

  lemma FirstPutAdmitted(s: LinkSet, provider: string, device: string, put: PutRequest, copy: SealedCopy)
    requires s.links == map[] && s.copies == map[] && s.leases == map[] && !IsHome(device)
    requires s.recipients.Keys == {device} && device in s.activeDevices
    requires copy.deviceId == device && CheckCopy(copy).None?
    requires put == PutRequest(0, "", Bearer, {LocalInteractive}, [copy])
    ensures PutLink(s, provider, Some(device), put, 0).Ok? && |PutLink(s, provider, Some(device), put, 0).value| == 2
  {
    hide PutLink, CheckCopy;
    assert s.Recipients().Keys == {device};
    assert (set c | c in put.copies && !IsHome(c.deviceId) :: c.deviceId) == {device} by {
      assert copy in put.copies;
    }
    assert LocalInteractive in put.classes;
    PutAdmitted(s, provider, Some(device), put, 0);
    FirstPutFacts(s, provider, device, put, copy);
  }

  lemma FirstPutFacts(s: LinkSet, provider: string, device: string, put: PutRequest, copy: SealedCopy)
    requires s.copies == map[] && s.leases == map[] && !IsHome(device) && copy.deviceId == device
    requires put.copies == [copy] && PutLink(s, provider, Some(device), put, 0).Ok?
    ensures |PutLink(s, provider, Some(device), put, 0).value| == 2
  {
    hide PutLink;
    PutVersionIs(s, provider, Some(device), put, 0);
    assert put.copies[..0] == [];
    assert KeepsCopy(s, ReachesHomes(put.authentication, put.classes), copy);
    assert Kept(s, ReachesHomes(put.authentication, put.classes), put.copies[..0]) == [];
    assert KeptBy(s, put) == [copy];
    CopyFactsTake(provider, NewLink(s, provider, put, 0).version, [copy], 0);
    assert Unreplaced(s, provider, [copy]) == {};
    assert Keys({}) == [];
  }

  /** After a stop inside a registration a copy of the device's is left that its new key does
      not open. Registering that key again is silent, the device is not waiting for the link,
      and copies added for it are refused, so the copy stays until a new version replaces it. */
  lemma StoppedRegistrationStays(ks: KeyState, step: Step, later: nat)
    returns (k: CopyKey)
    requires KeysHold(ks) && FreshKeys(ks) && StoppedRegistering(ks.links, step) && !IsHome(step.command.device)
    ensures var s, device := Next(ks.links, step), step.command.device;
            && k in s.copies && s.copies[k].copy.deviceId == device && k.device == device
            && device in s.recipients && !SealedTo(s.copies[k].copy, s.recipients[device].publicKey)
            && RegisterRecipient(s, device, step.command.key, later) == Ok([])
            && (s.HasCurrentCopy(k.provider, device) ==>
                  device !in s.Waiting(k.provider)
                  && s.CopyFor(k.provider, device) == Some(s.copies[k].copy)
                  && forall version, copies | device in SealedFor(copies) ::
                       AddCopies(s, k.provider, version, copies).Err?)
  {
    hide Order.Keys, Tombstones, DropCopies, AddCopies;
    var s, device := ks.links, step.command.device;
    var facts := RegisterRecipient(s, device, step.command.key, step.now).value;
    var r := RecipientRecord(device, Upsert, step.command.key.key, step.now);
    HoldsCanonical(ks);
    RegisterWritten(s, r, facts, step.written);
    var s' := Next(s, step);
    assert s' == ApplyAll(s, facts[..step.written]);
    WrittenAround(s, facts[..step.written]);
    k :| k in s'.KeysOfDevice(device);
    assert k == CopyKey(s.copies[k].provider, s.copies[k].copy.deviceId);
    assert FreshCopy(ks, s.copies[k].copy);
    if s'.HasCurrentCopy(k.provider, device) {
      forall version, copies | device in SealedFor(copies)
        ensures AddCopies(s', k.provider, version, copies).Err?
      {
        AddAdmitted(s', k.provider, version, copies);
      }
    }
  }
}
