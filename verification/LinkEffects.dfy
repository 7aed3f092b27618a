/** What each admitted decision comes to once its facts are folded in, and the
    coverage invariant the decisions keep. */
module LinkEffects {
  import opened Base
  import opened Order
  import opened Links

  // ---- net effects of fact lists -----------------------------------------------

  lemma FoldParts(s: LinkSet, head: LinkFact, a: seq<LinkFact>, b: seq<LinkFact>, c: seq<LinkFact>)
    ensures ApplyAll(s, [head] + a + b + c) == ApplyAll(ApplyAll(ApplyAll(Apply(s, head), a), b), c)
  {
    assert ([head] + a + b + c)[1..] == a + b + c;
    ApplyAllConcat(Apply(s, head), a + b, c);
    ApplyAllConcat(Apply(s, head), a, b);
  }

  lemma {:induction false} TombstonesEffect(s0: LinkSet, s: LinkSet, keys: seq<CopyKey>)
    requires forall k | k in keys :: k in s0.copies && s0.copies[k].id == k
    ensures ApplyAll(s, Tombstones(s0, keys)) == s.(copies := s.copies - (set k | k in keys))
    decreases |keys|
  {
    if keys == [] {
      assert s.copies - (set k | k in keys) == s.copies;
    } else {
      var s1 := s.(copies := s.copies - {keys[0]});
      assert Tombstones(s0, keys)[1..] == Tombstones(s0, keys[1..]);
      TombstonesEffect(s0, s1, keys[1..]);
      assert s1.copies - (set k | k in keys[1..]) == s.copies - (set k | k in keys);
    }
  }

  lemma DropCopiesEffect(s0: LinkSet, s: LinkSet, keys: set<CopyKey>)
    requires keys <= s0.copies.Keys
    requires forall k | k in keys :: s0.copies[k].id == k
    ensures ApplyAll(s, DropCopies(s0, keys)) == s.(copies := s.copies - keys)
  {
    TombstonesEffect(s0, s, Keys(keys));
    assert (set k | k in Keys(keys)) == keys;
  }

  /** The copies a list of copy facts leaves behind, the last of equal recipients winning. */
  function CopyMap(provider: string, version: nat, copies: seq<SealedCopy>): map<CopyKey, CopyRecord> {
    if copies == [] then map[]
    else
      var last := copies[|copies| - 1];
      CopyMap(provider, version, copies[..|copies| - 1])
      [CopyKey(provider, last.deviceId) := CopyFact(provider, version, last).copy]
  }

  lemma NoneApplied(s: LinkSet)
    ensures ApplyAll(s, []) == s
  {
  }

  lemma {:induction false} CopyFactsEffect(s: LinkSet, provider: string, version: nat, copies: seq<SealedCopy>)
    ensures ApplyAll(s, CopyFacts(provider, version, copies))
            == s.(copies := s.copies + CopyMap(provider, version, copies))
  {
    hide ApplyAll;
    if copies == [] {
      assert s.copies + map[] == s.copies;
      NoneApplied(s);
    } else {
      var before := copies[..|copies| - 1];
      var last := copies[|copies| - 1];
      CopyFactsEffect(s, provider, version, before);
      ApplyAllSnoc(s, CopyFacts(provider, version, before), CopyFact(provider, version, last));
      var key, record := CopyKey(provider, last.deviceId), CopyFact(provider, version, last).copy;
      assert s.copies + CopyMap(provider, version, copies)
          == (s.copies + CopyMap(provider, version, before))[key := record];
    }
  }

  lemma {:induction false} CopyMapProperties(provider: string, version: nat, copies: seq<SealedCopy>)
    ensures CopyMap(provider, version, copies).Keys == set d | d in SealedFor(copies) :: CopyKey(provider, d)
    ensures forall k | k in CopyMap(provider, version, copies) ::
              var r := CopyMap(provider, version, copies)[k];
              r == CopyFact(provider, version, r.copy).copy && r.copy in copies && r.id == k
  {
    if copies != [] {
      var before := copies[..|copies| - 1];
      var last := copies[|copies| - 1];
      CopyMapProperties(provider, version, before);
      assert SealedFor(copies) == SealedFor(before) + {last.deviceId};
      assert forall c | c in before :: c in copies;
    }
  }

  lemma {:induction false} KeptProperties(s: LinkSet, toHomes: bool, copies: seq<SealedCopy>)
    ensures forall c :: c in Kept(s, toHomes, copies) <==> c in copies && KeepsCopy(s, toHomes, c)
  {
    if copies != [] {
      var before := copies[..|copies| - 1];
      KeptProperties(s, toHomes, before);
      assert copies == before + [copies[|copies| - 1]];
    }
  }

  lemma {:induction false} UnknownHomesProperties(s: LinkSet, copies: seq<SealedCopy>)
    ensures forall h :: h in UnknownHomes(s, copies) <==> h in SealedFor(copies) && IsHome(h) && h !in s.homes
    ensures UnknownHomes(s, copies) == [] <==> forall c | c in copies :: IsHome(c.deviceId) ==> c.deviceId in s.homes
  {
    if copies != [] {
      var before := copies[..|copies| - 1];
      var last := copies[|copies| - 1];
      UnknownHomesProperties(s, before);
      assert copies == before + [last];
      assert SealedFor(copies) == SealedFor(before) + {last.deviceId};
    }
  }

  lemma {:induction false} LeaseTombstonesEffect(s0: LinkSet, s: LinkSet, providers: seq<string>)
    requires forall p | p in providers :: p in s0.leases && s0.leases[p].id == p
    ensures ApplyAll(s, LeaseTombstones(s0, providers)) == s.(leases := s.leases - (set p | p in providers))
    decreases |providers|
  {
    if providers == [] {
      assert s.leases - (set p | p in providers) == s.leases;
    } else {
      var s1 := s.(leases := s.leases - {providers[0]});
      assert LeaseTombstones(s0, providers)[1..] == LeaseTombstones(s0, providers[1..]);
      LeaseTombstonesEffect(s0, s1, providers[1..]);
      assert s1.leases - (set p | p in providers[1..]) == s.leases - (set p | p in providers);
    }
  }

  lemma DropLeaseEffect(s0: LinkSet, s: LinkSet, provider: string)
    requires s.leases == s0.leases && Keyed(s0)
    ensures ApplyAll(s, DropLease(s0, provider)) == s.(leases := s.leases - {provider})
  {
    if provider in s0.leases {
      var fact := Lease(s0.leases[provider].(op := Tombstone));
      assert ApplyAll(s, [fact]) == Apply(s, fact);
    } else {
      assert s.leases - {provider} == s.leases;
    }
  }

  // ---- invariants -----------------------------------------------------------------

  /** Every record sits under the id it carries, as any fold leaves it. */
  ghost predicate Keyed(s: LinkSet) {
    && (forall d | d in s.recipients :: s.recipients[d].id == d && s.recipients[d].op == Upsert)
    && (forall p | p in s.links :: s.links[p].id == p && s.links[p].op == Upsert)
    && (forall k | k in s.copies :: s.copies[k].id == k && s.copies[k].op == Upsert)
    && (forall p | p in s.leases :: s.leases[p].id == p && s.leases[p].op == Upsert)
    && (forall h | h in s.homes :: IsHome(h))
  }

  /** Every copy sits under its canonical id. */
  ghost predicate Canonical(s: LinkSet) {
    Keyed(s)
    && forall k | k in s.copies :: k == CopyKey(s.copies[k].provider, s.copies[k].copy.deviceId)
  }

  /** The coverage invariant: every copy is canonical, belongs to an active link and
      carries that link's current version. */
  ghost predicate Covered(s: LinkSet) {
    Canonical(s)
    && forall k | k in s.copies ::
         s.LinkActive(k.provider) && s.copies[k].version == s.links[k.provider].version
  }

  // ---- registering, forgetting, revoking ------------------------------------------

  lemma RegisterEffect(s: LinkSet, device: string, key: KeyText, now: nat)
    requires Keyed(s)
    requires RegisterRecipient(s, device, key, now).Ok?
    ensures var s' := ApplyAll(s, RegisterRecipient(s, device, key, now).value);
            device in s'.recipients && s'.recipients[device].publicKey == key.key
            && (if device in s.recipients && s.recipients[device].publicKey == key.key then s' == s
                else s' == s.(recipients := s.recipients[device := RecipientRecord(device, Upsert, key.key, now)],
                              copies := s.copies - s.KeysOfDevice(device)))
  {
    var facts := RegisterRecipient(s, device, key, now).value;
    if facts != [] {
      var drop := DropCopies(s, s.KeysOfDevice(device));
      var s1 := Apply(s, facts[0]);
      assert facts[1..] == drop;
      DropCopiesEffect(s, s1, s.KeysOfDevice(device));
    }
  }

  function DropKey(s: LinkSet, device: string): seq<LinkFact> {
    if device in s.recipients then [Recipient(s.recipients[device].(op := Tombstone))] else []
  }

  lemma DropKeyEffect(s0: LinkSet, s: LinkSet, device: string)
    requires s.recipients == s0.recipients && Keyed(s0)
    ensures ApplyAll(s, DropKey(s0, device)) == s.(recipients := s.recipients - {device})
  {
    if device in s0.recipients {
      assert ApplyAll(s, DropKey(s0, device)) == Apply(s, DropKey(s0, device)[0]);
    } else {
      assert s.recipients - {device} == s.recipients;
    }
  }

  function LeasesOf(s: LinkSet, device: string): set<string> {
    set p | p in s.leases && s.leases[p].deviceId == device
  }

  lemma ForgetEffect(s: LinkSet, device: string)
    requires Keyed(s)
    ensures ApplyAll(s, ForgetDevice(s, device))
            == s.(copies := s.copies - s.KeysOfDevice(device),
                  recipients := s.recipients - {device},
                  leases := s.leases - LeasesOf(s, device))
  {
    var drop := DropCopies(s, s.KeysOfDevice(device));
    var key := DropKey(s, device);
    var leases := LeaseTombstones(s, Names(LeasesOf(s, device)));
    assert ForgetDevice(s, device) == drop + key + leases;
    ApplyAllConcat(s, drop + key, leases);
    ApplyAllConcat(s, drop, key);
    DropCopiesEffect(s, s, s.KeysOfDevice(device));
    var s1 := s.(copies := s.copies - s.KeysOfDevice(device));
    DropKeyEffect(s, s1, device);
    LeaseTombstonesEffect(s, s1.(recipients := s1.recipients - {device}), Names(LeasesOf(s, device)));
    assert (set p | p in Names(LeasesOf(s, device))) == LeasesOf(s, device);
  }

  // ---- a new version ---------------------------------------------------------------

  /** The set a new version leaves: its record, its copies, no older copy, no lease. */
  ghost predicate Versioned(s: LinkSet, s': LinkSet, link: LinkRecord, kept: seq<SealedCopy>) {
    && s' == s.(links := s.links[link.id := link], copies := s'.copies, leases := s.leases - {link.id})
    && (forall k: CopyKey | k.provider != link.id ::
          (k in s'.copies <==> k in s.copies) && (k in s.copies ==> s'.copies[k] == s.copies[k]))
    && (forall k: CopyKey | k.provider == link.id ::
          (k in s'.copies <==> k.device in SealedFor(kept))
          && (k in s'.copies ==> IsCopyOf(s'.copies[k], k, link.version, kept)))
  }

  ghost predicate IsCopyOf(r: CopyRecord, k: CopyKey, version: nat, kept: seq<SealedCopy>) {
    r.copy in kept && r.copy.deviceId == k.device && r == CopyRecord(k, Upsert, k.provider, version, r.copy)
  }

  lemma VersionFactsFold(s: LinkSet, link: LinkRecord, kept: seq<SealedCopy>)
    requires Keyed(s) && link.op == Upsert
    ensures ApplyAll(s, VersionFacts(s, link, kept))
            == s.(links := s.links[link.id := link],
                  copies := (s.copies + CopyMap(link.id, link.version, kept)) - Unreplaced(s, link.id, kept),
                  leases := s.leases - {link.id})
  {
    var copies := CopyFacts(link.id, link.version, kept);
    var gone := Unreplaced(s, link.id, kept);
    FoldParts(s, Link(link), copies, DropCopies(s, gone), DropLease(s, link.id));
    var s1 := s.(links := s.links[link.id := link]);
    CopyFactsEffect(s1, link.id, link.version, kept);
    var s2 := s1.(copies := s1.copies + CopyMap(link.id, link.version, kept));
    DropCopiesEffect(s, s2, gone);
    DropLeaseEffect(s, s2.(copies := s2.copies - gone), link.id);
  }

  /** Folding a version's facts gives exactly that set. */
  lemma VersionEffect(s: LinkSet, link: LinkRecord, kept: seq<SealedCopy>)
    requires Canonical(s) && link.op == Upsert
    ensures Versioned(s, ApplyAll(s, VersionFacts(s, link, kept)), link, kept)
  {
    VersionFactsFold(s, link, kept);
    CopyMapProperties(link.id, link.version, kept);
  }

  /** A revocation writes what a version with no copies at all would write. */
  lemma RevokeFacts(s: LinkSet, provider: string, now: nat)
    requires Keyed(s) && provider in s.links
    ensures RevokeLink(s, provider, now)
            == Ok(VersionFacts(s, s.links[provider].(status := Revoked, updatedAt := now), []))
  {
    assert Unreplaced(s, provider, []) == s.KeysOfProvider(provider);
    var head := [Link(s.links[provider].(status := Revoked, updatedAt := now))];
    assert head + [] == head;
  }

  /** Revoking keeps the record as revoked and deletes every copy and the lease. */
  lemma RevokeEffect(s: LinkSet, provider: string, now: nat)
    requires Canonical(s) && provider in s.links
    ensures RevokeLink(s, provider, now).Ok?
    ensures Versioned(s, ApplyAll(s, RevokeLink(s, provider, now).value),
                      s.links[provider].(status := Revoked, updatedAt := now), [])
  {
    RevokeFacts(s, provider, now);
    VersionEffect(s, s.links[provider].(status := Revoked, updatedAt := now), []);
  }

  lemma DistinctSnoc(before: seq<SealedCopy>, last: SealedCopy)
    ensures var copies := before + [last];
            (forall i, j | 0 <= i < j < |copies| :: copies[i].deviceId != copies[j].deviceId) <==>
              && (forall i, j | 0 <= i < j < |before| :: before[i].deviceId != before[j].deviceId)
              && last.deviceId !in SealedFor(before)
  {
    var copies := before + [last];
    assert forall i | 0 <= i < |before| :: before[i].deviceId in SealedFor(before);
    if last.deviceId in SealedFor(before) {
      var c :| c in before && c.deviceId == last.deviceId;
      var i :| 0 <= i < |before| && before[i] == c;
      assert copies[i].deviceId == copies[|before|].deviceId;
    } else if i, j :| 0 <= i < j < |before| && before[i].deviceId == before[j].deviceId {
      assert copies[i].deviceId == copies[j].deviceId;
    }
  }

  lemma {:induction false} ScanFaultNone(copies: seq<SealedCopy>)
    ensures ScanFault(copies).None? <==>
              && (forall c | c in copies :: CheckCopy(c).None?)
              && (forall i, j | 0 <= i < j < |copies| :: copies[i].deviceId != copies[j].deviceId)
  {
    hide CheckCopy, SealedFor;
    if copies != [] {
      var before := copies[..|copies| - 1];
      var last := copies[|copies| - 1];
      ScanFaultNone(before);
      assert copies == before + [last];
      DistinctSnoc(before, last);
    }
  }

  /** Exactly when a new version is admitted: the caller read the current version, no
      other device holds an unexpired lease, the classes are ones a link may have, the
      account has a device to seal for, and the copies are sound, one a recipient, and
      sealed for exactly the trusted devices and for no Home that does not serve. */
  lemma PutAdmitted(s: LinkSet, provider: string, caller: Option<string>, put: PutRequest, now: nat)
    ensures PutLink(s, provider, caller, put, now).Ok? <==>
              && put.expectedVersion == s.CurrentVersion(provider)
              && (provider in s.leases && s.leases[provider].expiresAt > now
                  ==> caller == Some(s.leases[provider].deviceId))
              && put.classes != {} && PublicDeployment !in put.classes
              && s.Recipients().Keys != {}
              && (forall c | c in put.copies :: CheckCopy(c).None?)
              && (forall i, j | 0 <= i < j < |put.copies| :: put.copies[i].deviceId != put.copies[j].deviceId)
              && (set c | c in put.copies && !IsHome(c.deviceId) :: c.deviceId) == s.Recipients().Keys
              && (forall c | c in put.copies && IsHome(c.deviceId) :: c.deviceId in s.homes)
  {
    ScanFaultNone(put.copies);
    UnknownHomesProperties(s, put.copies);
  }

  /** What an admitted put comes to. */
  lemma KeptAre(s: LinkSet, put: PutRequest)
    ensures forall c | c in KeptBy(s, put) ::
              c in put.copies
              && (IsHome(c.deviceId) ==>
                    c.deviceId in s.homes && put.authentication != OAuth && PrivateHome in put.classes)
  {
    hide Kept;
    KeptProperties(s, ReachesHomes(put.authentication, put.classes), put.copies);
  }

  lemma PutEffect(s: LinkSet, provider: string, caller: Option<string>, put: PutRequest, now: nat)
    requires Canonical(s)
    requires PutLink(s, provider, caller, put, now).Ok?
    ensures Versioned(s, ApplyAll(s, PutLink(s, provider, caller, put, now).value),
                      NewLink(s, provider, put, now), KeptBy(s, put))
    ensures NewLink(s, provider, put, now)
         == LinkRecord(provider, Upsert, put.expectedVersion + 1, put.baseUrl, put.authentication, put.classes,
                       Active, now)
    ensures forall c | c in KeptBy(s, put) ::
              c in put.copies
              && (IsHome(c.deviceId) ==>
                    c.deviceId in s.homes && put.authentication != OAuth && PrivateHome in put.classes)
  {
    hide PutLink, NewLink, KeptBy, ApplyAll, VersionFacts, Versioned, Canonical;
    PutVersionIs(s, provider, caller, put, now);
    KeptAre(s, put);
    VersionEffect(s, NewLink(s, provider, put, now), KeptBy(s, put));
  }

  /** An admitted put serves every trusted device the copy the request carried for it. */
  lemma PutServes(s: LinkSet, provider: string, caller: Option<string>, put: PutRequest, now: nat, device: string)
    returns (c: SealedCopy)
    requires Canonical(s)
    requires PutLink(s, provider, caller, put, now).Ok?
    requires device in s.Recipients() && !IsHome(device)
    ensures c in put.copies && c.deviceId == device
    ensures ApplyAll(s, PutLink(s, provider, caller, put, now).value).CopyFor(provider, device) == Some(c)
  {
    PutAdmitted(s, provider, caller, put, now);
    PutEffect(s, provider, caller, put, now);
    assert device in set e | e in put.copies && !IsHome(e.deviceId) :: e.deviceId;
    c :| c in put.copies && !IsHome(c.deviceId) && c.deviceId == device;
    KeptProperties(s, ReachesHomes(put.authentication, put.classes), put.copies);
    VersionServes(s, ApplyAll(s, PutLink(s, provider, caller, put, now).value),
                  NewLink(s, provider, put, now), KeptBy(s, put), put.copies, c);
  }

  lemma VersionServes(s: LinkSet, s': LinkSet, link: LinkRecord, kept: seq<SealedCopy>, all: seq<SealedCopy>,
                      c: SealedCopy)
    requires Versioned(s, s', link, kept) && link.status == Active
    requires c in kept && !IsHome(c.deviceId) && c.deviceId in s.activeDevices
    requires forall e | e in kept :: e in all
    requires forall i, j | 0 <= i < j < |all| :: all[i].deviceId != all[j].deviceId
    ensures s'.CopyFor(link.id, c.deviceId) == Some(c)
  {
    var k := CopyKey(link.id, c.deviceId);
    assert c.deviceId in SealedFor(kept);
    assert IsCopyOf(s'.copies[k], k, link.version, kept);
    assert s'.copies[k].copy == c;
  }

  /** An admitted put leaves no trusted device waiting: only Homes can be. */
  lemma PutLeavesNoDeviceWaiting(s: LinkSet, provider: string, caller: Option<string>, put: PutRequest, now: nat)
    requires Canonical(s)
    requires PutLink(s, provider, caller, put, now).Ok?
    ensures forall d | d in ApplyAll(s, PutLink(s, provider, caller, put, now).value).Waiting(provider) :: IsHome(d)
  {
    PutEffect(s, provider, caller, put, now);
    var s' := ApplyAll(s, PutLink(s, provider, caller, put, now).value);
    forall d | d in s'.Waiting(provider)
      ensures IsHome(d)
    {
      if !IsHome(d) {
        assert d in s.Recipients();
        var c := PutServes(s, provider, caller, put, now, d);
      }
    }
  }

  /** A put changes what any recipient holds of its own provider only. */
  lemma VersionLeavesOthers(s: LinkSet, s': LinkSet, link: LinkRecord, kept: seq<SealedCopy>, other: string,
                            device: string)
    requires Versioned(s, s', link, kept)
    requires other != link.id
    ensures s'.CopyFor(other, device) == s.CopyFor(other, device)
    ensures device in s'.Waiting(other) <==> device in s.Waiting(other)
  {
    var k := CopyKey(other, device);
    assert k in s'.copies <==> k in s.copies;
  }

  /** An admitted put writes the next version, with the copies kept. */
  lemma PutVersionIs(s: LinkSet, provider: string, caller: Option<string>, put: PutRequest, now: nat)
    requires PutLink(s, provider, caller, put, now).Ok?
    ensures PutLink(s, provider, caller, put, now).value
         == VersionFacts(s, NewLink(s, provider, put, now), KeptBy(s, put))
    ensures NewLink(s, provider, put, now)
         == LinkRecord(provider, Upsert, put.expectedVersion + 1, put.baseUrl, put.authentication, put.classes,
                       Active, now)
    ensures put.expectedVersion == s.CurrentVersion(provider)
  {
    hide VersionFacts, KeptBy, ScanFault, Names, UnknownHomes;
  }
}
