/** What the authority answers each request and what it leaves, said from the request and
    the records alone: which refusal, with what in it, and what the records then are. */
module LinkAnswers {
  import opened Base
  import opened Order
  import opened Links
  import opened LinkEffects
  import opened LinkCoverage

  // ---- copies -----------------------------------------------------------------------------------

  /** A copy the authority can store: a point, hex, and a nonce, a tag and at most 32 KiB. */
  predicate Sound(c: SealedCopy) {
    c.ephemeral.Point? && !c.ciphertext.BadHex? && 56 <= c.ciphertext.hexLength <= 65536
  }

  lemma SoundExactly(c: SealedCopy)
    ensures CheckCopy(c).None? <==> Sound(c)
    ensures CheckCopy(c) == Some(EphemeralNotHex) <==> c.ephemeral.NotHex?
    ensures CheckCopy(c) == Some(EphemeralNotAPoint) ==> c.ephemeral.NotAPoint?
    ensures CheckCopy(c) == Some(CiphertextNotHex) ==> c.ciphertext.BadHex?
    ensures CheckCopy(c) == Some(WrongSize) ==>
              !c.ciphertext.BadHex? && !(56 <= c.ciphertext.hexLength <= 65536)
    ensures !CheckCopy(c).Some? || !CheckCopy(c).value.TwoCopies?
  {
  }

  /** The copies before a place are sound, each for a recipient of its own. */
  ghost predicate SoundUpTo(copies: seq<SealedCopy>, n: nat)
    requires n <= |copies|
  {
    && (forall i | 0 <= i < n :: Sound(copies[i]))
    && (forall i, j | 0 <= i < j < n :: copies[i].deviceId != copies[j].deviceId)
  }

  /** The first copy in order that is not sound or not its recipient's first. */
  ghost predicate FirstFault(copies: seq<SealedCopy>, n: nat, fault: CopyFault) {
    && n < |copies| && SoundUpTo(copies, n)
    && (if Sound(copies[n]) then
          fault == TwoCopies(copies[n].deviceId) && exists i | 0 <= i < n :: copies[i].deviceId == copies[n].deviceId
        else CheckCopy(copies[n]) == Some(fault))
  }

  lemma {:induction false} ScanFindsFirst(copies: seq<SealedCopy>)
    ensures ScanFault(copies).None? <==> SoundUpTo(copies, |copies|)
    ensures ScanFault(copies).Some? ==> exists n :: FirstFault(copies, n, ScanFault(copies).value)
    decreases |copies|
  {
    hide CheckCopy;
    if copies != [] {
      var before, last := copies[..|copies| - 1], copies[|copies| - 1];
      ScanFindsFirst(before);
      SoundExactly(last);
      assert copies == before + [last];
      if ScanFault(before).Some? {
        var n :| FirstFault(before, n, ScanFault(before).value);
        assert FirstFault(copies, n, ScanFault(copies).value);
        FaultIsUnsound(copies, n, ScanFault(copies).value);
      } else {
        InSealedFor(before, last.deviceId);
        if ScanFault(copies).Some? {
          assert FirstFault(copies, |before|, ScanFault(copies).value);
          FaultIsUnsound(copies, |before|, ScanFault(copies).value);
        }
      }
    }
  }

  lemma FaultIsUnsound(copies: seq<SealedCopy>, n: nat, fault: CopyFault)
    requires FirstFault(copies, n, fault)
    ensures !SoundUpTo(copies, |copies|)
  {
    hide CheckCopy;
    SoundExactly(copies[n]);
  }

  lemma InSealedFor(copies: seq<SealedCopy>, device: string)
    ensures device in SealedFor(copies) <==> exists i | 0 <= i < |copies| :: copies[i].deviceId == device
  {
    if device in SealedFor(copies) {
      var c :| c in copies && c.deviceId == device;
      var i :| 0 <= i < |copies| && copies[i] == c;
    }
  }

  // ---- a new version ----------------------------------------------------------------------------

  /** The request carries a copy for a recipient. */
  predicate Carries(put: PutRequest, recipient: string) {
    exists c | c in put.copies :: c.deviceId == recipient
  }

  predicate KeyedAndTrusted(s: LinkSet, device: string) {
    device in s.recipients && device in s.activeDevices
  }

  /** Another device holds an unexpired lease on the provider. */
  predicate LeasedTo(s: LinkSet, provider: string, caller: Option<string>, now: nat) {
    provider in s.leases && s.leases[provider].expiresAt > now && caller != Some(s.leases[provider].deviceId)
  }

  function VersionNow(s: LinkSet, provider: string): nat {
    if provider in s.links then s.links[provider].version else 0
  }

  /** Which refusal a put gets, the first that applies, and what it tells. */
  lemma PutRefused(s: LinkSet, provider: string, caller: Option<string>, put: PutRequest, now: nat)
    ensures var d := PutLink(s, provider, caller, put, now);
            if put.expectedVersion != VersionNow(s, provider) then d == Err(Stale(VersionNow(s, provider)))
            else if LeasedTo(s, provider, caller, now) then
              d == Err(LeaseHeld(s.leases[provider].deviceId, s.leases[provider].expiresAt))
            else if put.classes == {} || PublicDeployment in put.classes then d == Err(InvalidClasses)
            else if forall x :: !KeyedAndTrusted(s, x) then d == Err(NoRecipients)
            else if !SoundUpTo(put.copies, |put.copies|) then
              d.Err? && d.error.InvalidCopy? && exists n :: FirstFault(put.copies, n, d.error.fault)
            else if Uncovered(s, put) then
              d.Err? && d.error.Coverage? && Tells(s, put, d.error.missing, d.error.unexpected)
            else d.Ok?
  {
    hide ScanFault, Names, Kept, VersionFacts, UnknownHomes, SoundUpTo, FirstFault, DevicesSealed, Uncovered, Tells;
    ScanFindsFirst(put.copies);
    RecipientsAre(s);
    CoverageIs(s, put);
  }

  /** A trusted device the request carries no copy for. */
  predicate LeftOut(s: LinkSet, put: PutRequest, x: string) {
    KeyedAndTrusted(s, x) && !(Carries(put, x) && !IsHome(x))
  }

  /** A recipient the request carries a copy for that is neither a trusted device with a key
      nor a Home that serves. */
  predicate ForNobody(s: LinkSet, put: PutRequest, x: string) {
    Carries(put, x) && if IsHome(x) then x !in s.homes else !KeyedAndTrusted(s, x)
  }

  ghost predicate Uncovered(s: LinkSet, put: PutRequest) {
    exists x :: LeftOut(s, put, x) || ForNobody(s, put, x)
  }

  /** The devices left out in listing order; then, those the request names for nothing:
      devices in listing order, and after them Homes. */
  ghost predicate Tells(s: LinkSet, put: PutRequest, missing: seq<string>, unexpected: seq<string>) {
    && (forall x :: x in missing <==> LeftOut(s, put, x))
    && (forall i, j | 0 <= i < j < |missing| :: Less(missing[i], missing[j]))
    && (forall x :: x in unexpected <==> ForNobody(s, put, x))
    && (forall i, j | 0 <= i < j < |unexpected| && !IsHome(unexpected[j]) ::
          !IsHome(unexpected[i]) && Less(unexpected[i], unexpected[j]))
  }

  lemma RecipientsAre(s: LinkSet)
    ensures forall x :: x in s.Recipients().Keys <==> KeyedAndTrusted(s, x)
    ensures s.Recipients().Keys == {} <==> forall x :: !KeyedAndTrusted(s, x)
  {
    if s.Recipients().Keys != {} {
      var x :| x in s.Recipients().Keys;
      assert KeyedAndTrusted(s, x);
    }
  }

  /** Who the sets a put is judged by hold. */
  lemma CoverageOf(s: LinkSet, put: PutRequest, x: string)
    ensures var expected, sealed := s.Recipients().Keys, DevicesSealed(put.copies);
            var unknown := UnknownHomes(s, put.copies);
            && (x in expected - sealed <==> LeftOut(s, put, x))
            && (x in sealed - expected || x in unknown <==> ForNobody(s, put, x))
            && (x in sealed ==> !IsHome(x)) && (x in unknown ==> IsHome(x))
  {
    hide UnknownHomes;
    UnknownHomesProperties(s, put.copies);
  }

  lemma CoverageIs(s: LinkSet, put: PutRequest)
    ensures var expected, sealed := s.Recipients().Keys, DevicesSealed(put.copies);
            var unknown := UnknownHomes(s, put.copies);
            && (sealed != expected || unknown != [] <==> Uncovered(s, put))
            && Tells(s, put, Names(expected - sealed), Names(sealed - expected) + unknown)
  {
    hide Names, UnknownHomes, DevicesSealed, LinkSet.Recipients, Less, Uncovered, Tells;
    var expected, sealed, unknown := s.Recipients().Keys, DevicesSealed(put.copies), UnknownHomes(s, put.copies);
    forall x
      ensures x in expected - sealed <==> LeftOut(s, put, x)
      ensures x in sealed - expected || x in unknown <==> ForNobody(s, put, x)
      ensures (x in sealed ==> !IsHome(x)) && (x in unknown ==> IsHome(x))
    {
      CoverageOf(s, put, x);
    }
    UncoveredIs(s, put, expected, sealed, unknown);
    TellsIs(s, put, expected - sealed, sealed - expected, unknown);
  }

  lemma UncoveredIs(s: LinkSet, put: PutRequest, expected: set<string>, sealed: set<string>, unknown: seq<string>)
    requires forall x :: x in expected - sealed <==> LeftOut(s, put, x)
    requires forall x :: x in sealed - expected || x in unknown <==> ForNobody(s, put, x)
    ensures sealed != expected || unknown != [] <==> Uncovered(s, put)
  {
    hide LeftOut, ForNobody;
    if unknown != [] {
      assert unknown[0] in unknown;
    } else if sealed != expected {
      var x := SetsDiffer(sealed, expected);
    }
  }

  lemma TellsIs(s: LinkSet, put: PutRequest, missing: set<string>, devices: set<string>, homes: seq<string>)
    requires forall x :: x in missing <==> LeftOut(s, put, x)
    requires forall x :: x in devices || x in homes <==> ForNobody(s, put, x)
    requires (forall x | x in devices :: !IsHome(x)) && forall x | x in homes :: IsHome(x)
    ensures Tells(s, put, Names(missing), Names(devices) + homes)
  {
    hide Names, LeftOut, ForNobody, IsHome, Less;
    TellsInOrder(s, Names(devices), homes);
  }

  lemma SetsDiffer(a: set<string>, b: set<string>) returns (x: string)
    requires a != b
    ensures x in (a - b) + (b - a)
  {
    assert (a - b) + (b - a) != {} by {
      assert a == (a - (a - b)) + (a - b);
      assert b == (b - (b - a)) + (b - a);
      assert a - (a - b) == b - (b - a);
    }
    x :| x in (a - b) + (b - a);
  }

  lemma TellsInOrder(s: LinkSet, devices: seq<string>, homes: seq<string>)
    requires forall x | x in devices :: !IsHome(x)
    requires forall x | x in homes :: IsHome(x)
    requires forall i, j | 0 <= i < j < |devices| :: Less(devices[i], devices[j])
    ensures var all := devices + homes;
            forall i, j | 0 <= i < j < |all| && !IsHome(all[j]) :: !IsHome(all[i]) && Less(all[i], all[j])
  {
    hide Less, IsHome;
    var all := devices + homes;
    forall j | |devices| <= j < |all|
      ensures IsHome(all[j])
    {
      assert all[j] in homes;
    }
    forall i | 0 <= i < |devices|
      ensures !IsHome(all[i]) && all[i] == devices[i]
    {
      assert devices[i] in devices;
    }
  }

  /** The request makes a version hosted Homes may hold: not a refresh grant, and for use on
      a private Home. */
  predicate ForHomes(put: PutRequest) {
    put.authentication != OAuth && PrivateHome in put.classes
  }

  /** What an admitted put leaves: the link as the request says, one version on; of the
      provider's copies exactly the request's, without those for Homes when it is not for
      them; no lease on it; and nothing else changed. */
  lemma PutLeaves(s: LinkSet, provider: string, caller: Option<string>, put: PutRequest, now: nat)
    requires Canonical(s) && PutLink(s, provider, caller, put, now).Ok?
    ensures var s' := ApplyAll(s, PutLink(s, provider, caller, put, now).value);
            && s'.links == s.links[provider := LinkRecord(provider, Upsert, put.expectedVersion + 1, put.baseUrl,
                                                          put.authentication, put.classes, Active, now)]
            && s'.leases == s.leases - {provider}
            && s'.recipients == s.recipients && s'.checks == s.checks
            && s'.activeDevices == s.activeDevices && s'.homes == s.homes
            && (forall k: CopyKey | k.provider != provider :: SameAt(s.copies, s'.copies, k))
            && (forall r :: CopyKey(provider, r) in s'.copies <==> Carries(put, r) && (IsHome(r) ==> ForHomes(put)))
            && (forall c | c in put.copies && (IsHome(c.deviceId) ==> ForHomes(put)) ::
                  CopyKey(provider, c.deviceId) in s'.copies
                  && s'.copies[CopyKey(provider, c.deviceId)]
                     == CopyRecord(CopyKey(provider, c.deviceId), Upsert, provider, put.expectedVersion + 1, c))
  {
    hide PutLink, ApplyAll, KeptBy, ForHomes, Carries, SealedFor, IsHome, IsCopyOf;
    PutAdmitted(s, provider, caller, put, now);
    PutEffect(s, provider, caller, put, now);
    PutVersionIs(s, provider, caller, put, now);
    var s' := ApplyAll(s, PutLink(s, provider, caller, put, now).value);
    CopiesLeft(s, s', provider, put, NewLink(s, provider, put, now));
  }

  lemma CopiesLeft(s: LinkSet, s': LinkSet, provider: string, put: PutRequest, link: LinkRecord)
    requires Versioned(s, s', link, KeptBy(s, put)) && link.id == provider && link.version == put.expectedVersion + 1
    requires forall c | c in put.copies && IsHome(c.deviceId) :: c.deviceId in s.homes
    requires forall i, j | 0 <= i < j < |put.copies| :: put.copies[i].deviceId != put.copies[j].deviceId
    ensures forall r :: CopyKey(provider, r) in s'.copies <==> Carries(put, r) && (IsHome(r) ==> ForHomes(put))
    ensures forall c | c in put.copies && (IsHome(c.deviceId) ==> ForHomes(put)) ::
              CopyKey(provider, c.deviceId) in s'.copies
              && s'.copies[CopyKey(provider, c.deviceId)]
                 == CopyRecord(CopyKey(provider, c.deviceId), Upsert, provider, put.expectedVersion + 1, c)
  {
    hide KeptBy, ForHomes, Carries, SealedFor, IsHome;
    forall r
      ensures r in SealedFor(KeptBy(s, put)) <==> Carries(put, r) && (IsHome(r) ==> ForHomes(put))
    {
      KeptFor(s, put, r);
    }
    forall c | c in put.copies && (IsHome(c.deviceId) ==> ForHomes(put))
      ensures CopyKey(provider, c.deviceId) in s'.copies
      ensures s'.copies[CopyKey(provider, c.deviceId)].copy == c
    {
      KeptIs(s, s', provider, put, c);
    }
  }

  lemma KeptFor(s: LinkSet, put: PutRequest, r: string)
    requires forall c | c in put.copies && IsHome(c.deviceId) :: c.deviceId in s.homes
    ensures r in SealedFor(KeptBy(s, put)) <==> Carries(put, r) && (IsHome(r) ==> ForHomes(put))
    ensures forall c | c in KeptBy(s, put) :: c in put.copies
  {
    hide Kept;
    var toHomes := ReachesHomes(put.authentication, put.classes);
    KeptProperties(s, toHomes, put.copies);
    if Carries(put, r) {
      var c :| c in put.copies && c.deviceId == r;
      assert c in KeptBy(s, put) <==> KeepsCopy(s, toHomes, c);
    }
  }

  lemma KeptIs(s: LinkSet, s': LinkSet, provider: string, put: PutRequest, c: SealedCopy)
    requires forall x | x in put.copies && IsHome(x.deviceId) :: x.deviceId in s.homes
    requires forall i, j | 0 <= i < j < |put.copies| :: put.copies[i].deviceId != put.copies[j].deviceId
    requires forall k: CopyKey | k.provider == provider ::
               (k in s'.copies <==> k.device in SealedFor(KeptBy(s, put)))
               && (k in s'.copies ==> IsCopyOf(s'.copies[k], k, put.expectedVersion + 1, KeptBy(s, put)))
    requires c in put.copies && (IsHome(c.deviceId) ==> ForHomes(put))
    ensures CopyKey(provider, c.deviceId) in s'.copies && s'.copies[CopyKey(provider, c.deviceId)].copy == c
  {
    hide KeptBy, SealedFor, ForHomes, IsHome;
    assert Carries(put, c.deviceId);
    KeptFor(s, put, c.deviceId);
    var k := CopyKey(provider, c.deviceId);
    assert IsCopyOf(s'.copies[k], k, put.expectedVersion + 1, KeptBy(s, put));
    OneCopyEach(put.copies, s'.copies[k].copy, c);
  }

  lemma OneCopyEach(copies: seq<SealedCopy>, a: SealedCopy, b: SealedCopy)
    requires forall i, j | 0 <= i < j < |copies| :: copies[i].deviceId != copies[j].deviceId
    requires a in copies && b in copies && a.deviceId == b.deviceId
    ensures a == b
  {
    var i :| 0 <= i < |copies| && copies[i] == a;
    var j :| 0 <= j < |copies| && copies[j] == b;
  }

  /** Who holds and who waits for the version a put made: a device it was sealed for holds
      it, none waits; a Home that serves holds it if it was sealed for and the request is for
      Homes, waits if it was not, and has nothing to do with it if the request is not. */
  lemma PutReaches(s: LinkSet, provider: string, caller: Option<string>, put: PutRequest, now: nat, r: string)
    requires Canonical(s) && PutLink(s, provider, caller, put, now).Ok?
    ensures var s' := ApplyAll(s, PutLink(s, provider, caller, put, now).value);
            if IsHome(r) then
              && (s'.CopyFor(provider, r).Some? <==> r in s.homes && ForHomes(put) && Carries(put, r))
              && (r in s'.Waiting(provider) <==> r in s.homes && ForHomes(put) && !Carries(put, r))
            else
              && (s'.CopyFor(provider, r).Some? <==> KeyedAndTrusted(s, r))
              && r !in s'.Waiting(provider)
    ensures var s' := ApplyAll(s, PutLink(s, provider, caller, put, now).value);
            s'.CopyFor(provider, r).Some? ==>
              s'.CopyFor(provider, r).value in put.copies && s'.CopyFor(provider, r).value.deviceId == r
  {
    hide PutLink, ApplyAll;
    PutLeaves(s, provider, caller, put, now);
    PutRefused(s, provider, caller, put, now);
    var s' := ApplyAll(s, PutLink(s, provider, caller, put, now).value);
    assert !Uncovered(s, put);
    assert !LeftOut(s, put, r) && !ForNobody(s, put, r);
    if Carries(put, r) {
      var c :| c in put.copies && c.deviceId == r;
      assert IsHome(c.deviceId) ==> c.deviceId in s.homes;
    }
  }

  // ---- adding copies ----------------------------------------------------------------------------------

  /** The first copy in order that cannot be added, and why. */
  ghost predicate FirstRefused(waiting: set<string>, copies: seq<SealedCopy>, n: nat, why: LinkRefusal) {
    && n < |copies| && SoundUpTo(copies, n) && (forall i | 0 <= i < n :: copies[i].deviceId in waiting)
    && (if Sound(copies[n]) then
          && why == Coverage([], [copies[n].deviceId])
          && (copies[n].deviceId !in waiting || exists i | 0 <= i < n :: copies[i].deviceId == copies[n].deviceId)
        else CheckCopy(copies[n]).Some? && why == InvalidCopy(CheckCopy(copies[n]).value))
  }

  lemma {:induction false} AddFindsFirst(waiting: set<string>, copies: seq<SealedCopy>)
    ensures AddFrom(waiting, copies).Err? ==>
              exists n :: FirstRefused(waiting, copies, n, AddFrom(waiting, copies).error)
    decreases |copies|
  {
    hide CheckCopy, FirstRefused;
    if copies != [] {
      var before, last := copies[..|copies| - 1], copies[|copies| - 1];
      AddFindsFirst(waiting, before);
      assert copies == before + [last];
      if AddFrom(waiting, before).Err? {
        var n :| FirstRefused(waiting, before, n, AddFrom(waiting, before).error);
        RefusedStill(waiting, before, last, n, AddFrom(waiting, before).error);
      } else if AddFrom(waiting, copies).Err? {
        RefusedNow(waiting, before, last);
      }
    }
  }

  lemma RefusedStill(waiting: set<string>, before: seq<SealedCopy>, last: SealedCopy, n: nat, why: LinkRefusal)
    requires FirstRefused(waiting, before, n, why)
    ensures FirstRefused(waiting, before + [last], n, why)
  {
    hide CheckCopy, Sound;
    assert forall i | 0 <= i < |before| :: (before + [last])[i] == before[i];
  }

  lemma RefusedNow(waiting: set<string>, before: seq<SealedCopy>, last: SealedCopy)
    requires AddFrom(waiting, before).Ok? && AddFrom(waiting, before + [last]).Err?
    ensures FirstRefused(waiting, before + [last], |before|, AddFrom(waiting, before + [last]).error)
  {
    hide CheckCopy, Sound, SealedFor;
    assert (before + [last])[..|before|] == before;
    AddFromAdmits(waiting, before);
    SoundExactly(last);
    AllSound(before);
    InSealedFor(before, last.deviceId);
    forall i | 0 <= i < |before|
      ensures before[i].deviceId in waiting
    {
      InSealedFor(before, before[i].deviceId);
    }
  }

  lemma AllSound(copies: seq<SealedCopy>)
    ensures (forall c | c in copies :: CheckCopy(c).None?) <==> forall i | 0 <= i < |copies| :: Sound(copies[i])
  {
    hide CheckCopy;
    forall i | 0 <= i < |copies|
      ensures CheckCopy(copies[i]).None? <==> Sound(copies[i])
    {
      SoundExactly(copies[i]);
    }
    if forall i | 0 <= i < |copies| :: Sound(copies[i]) {
      forall c | c in copies
        ensures CheckCopy(c).None?
      {
        var i :| 0 <= i < |copies| && copies[i] == c;
      }
    }
  }

  /** Which refusal adding copies gets. */
  lemma AddRefused(s: LinkSet, provider: string, version: nat, copies: seq<SealedCopy>)
    ensures var d := AddCopies(s, provider, version, copies);
            if !(provider in s.links && s.links[provider].status == Active) then d == Err(NotFound)
            else if version != s.links[provider].version then d == Err(Stale(s.links[provider].version))
            else if SoundUpTo(copies, |copies|)
                    && forall i | 0 <= i < |copies| :: copies[i].deviceId in s.Waiting(provider)
            then d.Ok?
            else d.Err? && exists n :: FirstRefused(s.Waiting(provider), copies, n, d.error)
  {
    hide CheckCopy, AddFrom, LinkSet.Waiting;
    AddFindsFirst(s.Waiting(provider), copies);
    AddFromAdmits(s.Waiting(provider), copies);
    AllSound(copies);
    forall i | 0 <= i < |copies|
      ensures copies[i].deviceId in SealedFor(copies)
    {
      InSealedFor(copies, copies[i].deviceId);
    }
    if forall i | 0 <= i < |copies| :: copies[i].deviceId in s.Waiting(provider) {
      AllIn(copies, s.Waiting(provider));
    }
  }

  lemma AllIn(copies: seq<SealedCopy>, waiting: set<string>)
    requires forall i | 0 <= i < |copies| :: copies[i].deviceId in waiting
    ensures SealedFor(copies) <= waiting
  {
    forall d | d in SealedFor(copies)
      ensures d in waiting
    {
      InSealedFor(copies, d);
    }
  }

  // ---- the other requests -----------------------------------------------------------------------------

  /** A key is registered for a trusted device if it is one. */
  lemma RegisterAnswers(s: LinkSet, device: string, key: KeyText, now: nat)
    ensures var d := RegisterRecipient(s, device, key, now);
            if device !in s.activeDevices then d == Err(NotADevice)
            else if !key.Point? then d == Err(InvalidKey)
            else d.Ok?
  {
  }

  /** A link is revoked if there is one, whatever its state, and stays as it was otherwise. */
  lemma RevokeAnswers(s: LinkSet, provider: string, now: nat)
    requires Canonical(s)
    ensures RevokeLink(s, provider, now).Err? <==> provider !in s.links
    ensures provider !in s.links ==> RevokeLink(s, provider, now) == Err(NotFound)
    ensures provider in s.links ==>
              var s' := ApplyAll(s, RevokeLink(s, provider, now).value);
              && s'.links == s.links[provider := s.links[provider].(status := Revoked, updatedAt := now)]
              && s'.leases == s.leases - {provider}
              && s'.recipients == s.recipients && s'.checks == s.checks
              && s'.activeDevices == s.activeDevices && s'.homes == s.homes
              && (forall k: CopyKey ::
                    if k.provider == provider then k !in s'.copies else SameAt(s.copies, s'.copies, k))
  {
    hide RevokeLink, ApplyAll;
    if provider in s.links {
      RevokeEffect(s, provider, now);
      assert SealedFor([]) == {};
    } else {
      NothingToRevoke(s, provider, now);
    }
  }

  lemma NothingToRevoke(s: LinkSet, provider: string, now: nat)
    requires provider !in s.links
    ensures RevokeLink(s, provider, now) == Err(NotFound)
  {
  }

  /** Who is granted a lease: a trusted device, on an active link, that no other device holds
      unexpired. It lasts as long as asked, at least a millisecond and at most two minutes,
      and nothing but the lease changes. */
  lemma LeaseAnswers(s: LinkSet, provider: string, device: string, ttl: nat, now: nat)
    ensures var d := TakeLease(s, provider, device, ttl, now);
            if device !in s.activeDevices then d == Err(NotADevice)
            else if !(provider in s.links && s.links[provider].status == Active) then d == Err(NotFound)
            else if LeasedTo(s, provider, Some(device), now) then
              d == Err(LeaseHeld(s.leases[provider].deviceId, s.leases[provider].expiresAt))
            else
              && d.Ok?
              && exists until: nat ::
                   && ApplyAll(s, d.value)
                      == s.(leases := s.leases[provider := LeaseRecord(provider, Upsert, device, until)])
                   && now + 1 <= until <= now + 120000
                   && (1 <= ttl <= 120000 ==> until == now + ttl)
                   && (ttl == 0 ==> until == now + 1) && (ttl > 120000 ==> until == now + 120000)
  {
    var d := TakeLease(s, provider, device, ttl, now);
    if d.Ok? {
      assert ApplyAll(s, d.value) == Apply(s, d.value[0]);
    }
  }

  /** Whose finding is recorded: that of a recipient that holds the current version of an
      active link, for that version. */
  lemma CheckAnswers(s: LinkSet, provider: string, device: string, version: nat, reachable: bool, now: nat)
    ensures var d := RecordCheck(s, provider, device, version, reachable, now);
            if !(provider in s.links && s.links[provider].status == Active) then d == Err(NotFound)
            else if version != s.links[provider].version then d == Err(Stale(s.links[provider].version))
            else if s.CopyFor(provider, device).None? then d == Err(NotADevice)
            else
              && d.Ok?
              && ApplyAll(s, d.value)
                 == s.(checks := s.checks[provider := CheckRecord(provider, Upsert, version, device, reachable, now)])
              && ApplyAll(s, d.value).CheckOf(provider)
                 == Some(CheckRecord(provider, Upsert, version, device, reachable, now))
  {
    hide LinkSet.CopyFor;
    var d := RecordCheck(s, provider, device, version, reachable, now);
    if d.Ok? {
      assert ApplyAll(s, d.value) == Apply(s, d.value[0]);
    }
  }

  /** What a recipient is given: the copy under its name of the current version of an active
      link, if it is a trusted device, or a Home that serves and the link is for Homes. */
  lemma ServedExactly(s: LinkSet, provider: string, r: string)
    ensures s.CopyFor(provider, r).Some? <==>
              && provider in s.links && s.links[provider].status == Active
              && CopyKey(provider, r) in s.copies
              && s.copies[CopyKey(provider, r)].version == s.links[provider].version
              && (if IsHome(r) then
                    && r in s.homes && s.links[provider].authentication != OAuth
                    && PrivateHome in s.links[provider].classes
                  else r in s.activeDevices)
    ensures s.CopyFor(provider, r).Some? ==> s.CopyFor(provider, r).value == s.copies[CopyKey(provider, r)].copy
    ensures r in s.HomesHolding(provider) <==> r in s.homes && s.CopyFor(provider, r).Some?
  {
  }

  /** The link is told to Homes: active, not a refresh grant, and for use on a private Home. */
  predicate ToldToHomes(s: LinkSet, p: string) {
    p in s.links && s.links[p].status == Active && s.links[p].authentication != OAuth
    && PrivateHome in s.links[p].classes
  }

  /** What a Home is told: nothing if it does not serve the person; otherwise each link for
      Homes once, in listing order, as it stands and with the copy this Home is served. */
  lemma HomeIsTold(s: LinkSet, home: string)
    ensures var d := HomeLinksView(s, home);
            if !(IsHome(home) && home in s.homes) then d == Err(HomeNotServing)
            else
              && d.Ok?
              && (forall i | 0 <= i < |d.value| :: AsItStands(s, home, d.value[i]))
              && (forall i, j | 0 <= i < j < |d.value| :: Less(d.value[i].provider, d.value[j].provider))
              && (forall p :: ToldToHomes(s, p) <==> exists link :: link in d.value && link.provider == p)
  {
    hide Names, Less, LinkSet.CopyFor, AsItStands;
    if IsHome(home) && home in s.homes {
      var told := set p | p in s.links && s.LinkReachesHomes(p);
      var names, links := Names(told), HomeLinksInOrder(s, home, Names(told));
      ToldInOrder(s, home, names);
      forall p
        ensures ToldToHomes(s, p) <==> exists link :: link in links && link.provider == p
      {
        assert ToldToHomes(s, p) <==> p in names;
        if p in names {
          var i :| 0 <= i < |names| && names[i] == p;
          assert links[i] in links && links[i].provider == p;
        }
      }
    }
  }

  /** The link as the account holds it, with the Home's copy. */
  ghost predicate AsItStands(s: LinkSet, home: string, link: HomeLink) {
    && link.provider in s.links
    && link.version == s.links[link.provider].version && link.baseUrl == s.links[link.provider].baseUrl
    && link.authentication == s.links[link.provider].authentication
    && link.classes == s.links[link.provider].classes && link.copy == s.CopyFor(link.provider, home)
  }

  lemma {:induction false} ToldInOrder(s: LinkSet, home: string, providers: seq<string>)
    requires forall p | p in providers :: p in s.links
    ensures var links := HomeLinksInOrder(s, home, providers);
            && |links| == |providers|
            && forall i | 0 <= i < |links| :: links[i].provider == providers[i] && AsItStands(s, home, links[i])
  {
    hide LinkSet.CopyFor;
    if providers != [] {
      ToldInOrder(s, home, providers[1..]);
    }
  }
}
