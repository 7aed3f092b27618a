/** Coverage: every crash-free decision keeps each retained copy canonical, current and
    under an active link, and sealing for waiting recipients takes exactly them off the
    waiting list. */
module LinkCoverage {
  import opened Base
  import opened Order
  import opened Links
  import opened LinkEffects

  // ---- sealing for waiting recipients --------------------------------------------------

  lemma {:induction false} AddFromAdmits(waiting: set<string>, copies: seq<SealedCopy>)
    ensures AddFrom(waiting, copies).Ok? <==>
              && (forall c | c in copies :: CheckCopy(c).None?)
              && (forall i, j | 0 <= i < j < |copies| :: copies[i].deviceId != copies[j].deviceId)
              && SealedFor(copies) <= waiting
    ensures AddFrom(waiting, copies).Ok? ==> AddFrom(waiting, copies).value == waiting - SealedFor(copies)
  {
    hide CheckCopy, SealedFor;
    if copies == [] {
      SealedForNone();
    } else {
      var before := copies[..|copies| - 1];
      var last := copies[|copies| - 1];
      AddFromAdmits(waiting, before);
      assert copies == before + [last];
      SealedForSnoc(before, last);
      DistinctSnoc(before, last);
    }
  }

  lemma SealedForNone()
    ensures SealedFor([]) == {}
  {
  }

  lemma SealedForSnoc(before: seq<SealedCopy>, last: SealedCopy)
    ensures SealedFor(before + [last]) == SealedFor(before) + {last.deviceId}
  {
  }

  /** Exactly when copies may be added: the link is active at that version, and the
      copies are sound, one a recipient, and only for recipients that are waiting. */
  lemma AddAdmitted(s: LinkSet, provider: string, version: nat, copies: seq<SealedCopy>)
    ensures AddCopies(s, provider, version, copies).Ok? <==>
              && s.LinkActive(provider) && version == s.links[provider].version
              && (forall c | c in copies :: CheckCopy(c).None?)
              && (forall i, j | 0 <= i < j < |copies| :: copies[i].deviceId != copies[j].deviceId)
              && SealedFor(copies) <= s.Waiting(provider)
  {
    AddFromAdmits(s.Waiting(provider), copies);
  }

  /** The set adding copies leaves. */
  ghost predicate Added(s: LinkSet, s': LinkSet, provider: string, version: nat, copies: seq<SealedCopy>) {
    && s' == s.(copies := s'.copies)
    && (forall k: CopyKey | k.provider != provider || k.device !in SealedFor(copies) ::
          (k in s'.copies <==> k in s.copies) && (k in s.copies ==> s'.copies[k] == s.copies[k]))
    && (forall k: CopyKey | k.provider == provider && k.device in SealedFor(copies) ::
          k in s'.copies && IsCopyOf(s'.copies[k], k, version, copies))
  }

  lemma AddEffect(s: LinkSet, provider: string, version: nat, copies: seq<SealedCopy>)
    ensures Added(s, ApplyAll(s, CopyFacts(provider, version, copies)), provider, version, copies)
  {
    CopyFactsEffect(s, provider, version, copies);
    CopyMapProperties(provider, version, copies);
  }

  /** Adding copies takes exactly the named recipients off the waiting list. */
  lemma AddSettlesWaiting(s: LinkSet, provider: string, version: nat, copies: seq<SealedCopy>)
    requires AddCopies(s, provider, version, copies).Ok?
    ensures ApplyAll(s, AddCopies(s, provider, version, copies).value).Waiting(provider)
            == s.Waiting(provider) - SealedFor(copies)
  {
    AddAdmitted(s, provider, version, copies);
    AddEffect(s, provider, version, copies);
    var s' := ApplyAll(s, CopyFacts(provider, version, copies));
    forall r
      ensures r in s'.Waiting(provider) <==> r in s.Waiting(provider) - SealedFor(copies)
    {
      var k := CopyKey(provider, r);
      if r in SealedFor(copies) {
        assert IsCopyOf(s'.copies[k], k, version, copies);
      } else {
        assert k in s'.copies <==> k in s.copies;
      }
    }
  }

  /** Adding copies alters no copy the account already held. */
  lemma AddAltersNothing(s: LinkSet, provider: string, version: nat, copies: seq<SealedCopy>, k: CopyKey)
    requires Covered(s)
    requires AddCopies(s, provider, version, copies).Ok?
    requires k in s.copies
    ensures var s' := ApplyAll(s, AddCopies(s, provider, version, copies).value);
            k in s'.copies && s'.copies[k] == s.copies[k]
  {
    AddAdmitted(s, provider, version, copies);
    AddEffect(s, provider, version, copies);
    if k.provider == provider && k.device in SealedFor(copies) {
      assert s.HasCurrentCopy(provider, k.device);
      assert false;
    }
  }

  // ---- every decision keeps coverage ------------------------------------------------------

  /** Only copies are dropped and the links stay: coverage stays. */
  lemma FewerCopiesCovered(s: LinkSet, s': LinkSet)
    requires Covered(s) && Keyed(s')
    requires s'.links == s.links
    requires forall k | k in s'.copies :: k in s.copies && s'.copies[k] == s.copies[k]
    ensures Covered(s')
  {
  }

  lemma RegisterKeepsCoverage(s: LinkSet, device: string, key: KeyText, now: nat)
    requires Covered(s)
    requires RegisterRecipient(s, device, key, now).Ok?
    ensures Covered(ApplyAll(s, RegisterRecipient(s, device, key, now).value))
  {
    RegisterEffect(s, device, key, now);
    FewerCopiesCovered(s, ApplyAll(s, RegisterRecipient(s, device, key, now).value));
  }

  lemma ForgetKeepsCoverage(s: LinkSet, device: string)
    requires Covered(s)
    ensures Covered(ApplyAll(s, ForgetDevice(s, device)))
  {
    ForgetEffect(s, device);
    FewerCopiesCovered(s, ApplyAll(s, ForgetDevice(s, device)));
  }

  lemma PurgeKeepsCoverage(s: LinkSet)
    requires Covered(s)
    ensures Covered(ApplyAll(s, DepartedCopies(s)))
  {
    DropCopiesEffect(s, s, s.DepartedKeys());
    FewerCopiesCovered(s, ApplyAll(s, DepartedCopies(s)));
  }

  lemma VersionKeepsCoverage(s: LinkSet, s': LinkSet, link: LinkRecord, kept: seq<SealedCopy>)
    requires Covered(s) && Versioned(s, s', link, kept)
    requires link.op == Upsert
    requires link.status == Active || kept == []
    ensures Covered(s')
  {
    forall k | k in s'.copies
      ensures s'.copies[k].id == k && s'.copies[k].op == Upsert
      ensures k == CopyKey(s'.copies[k].provider, s'.copies[k].copy.deviceId)
      ensures s'.LinkActive(k.provider) && s'.copies[k].version == s'.links[k.provider].version
    {
      if k.provider == link.id {
        assert IsCopyOf(s'.copies[k], k, link.version, kept);
      } else {
        assert k in s.copies;
      }
    }
  }

  lemma RevokeKeepsCoverage(s: LinkSet, provider: string, now: nat)
    requires Covered(s) && provider in s.links
    ensures Covered(ApplyAll(s, RevokeLink(s, provider, now).value))
  {
    RevokeEffect(s, provider, now);
    VersionKeepsCoverage(s, ApplyAll(s, RevokeLink(s, provider, now).value),
                         s.links[provider].(status := Revoked, updatedAt := now), []);
  }

  lemma PutKeepsCoverage(s: LinkSet, provider: string, caller: Option<string>, put: PutRequest, now: nat)
    requires Covered(s)
    requires PutLink(s, provider, caller, put, now).Ok?
    ensures Covered(ApplyAll(s, PutLink(s, provider, caller, put, now).value))
  {
    PutEffect(s, provider, caller, put, now);
    VersionKeepsCoverage(s, ApplyAll(s, PutLink(s, provider, caller, put, now).value),
                         NewLink(s, provider, put, now), KeptBy(s, put));
  }

  lemma AddKeepsCoverage(s: LinkSet, provider: string, version: nat, copies: seq<SealedCopy>)
    requires Covered(s)
    requires AddCopies(s, provider, version, copies).Ok?
    ensures Covered(ApplyAll(s, AddCopies(s, provider, version, copies).value))
  {
    AddEffect(s, provider, version, copies);
    var s' := ApplyAll(s, CopyFacts(provider, version, copies));
    forall k | k in s'.copies
      ensures s'.copies[k].id == k && s'.copies[k].op == Upsert
      ensures k == CopyKey(s'.copies[k].provider, s'.copies[k].copy.deviceId)
      ensures s'.LinkActive(k.provider) && s'.copies[k].version == s'.links[k.provider].version
    {
      if k.provider == provider && k.device in SealedFor(copies) {
        assert IsCopyOf(s'.copies[k], k, version, copies);
      } else {
        assert k in s.copies;
      }
    }
  }
}
