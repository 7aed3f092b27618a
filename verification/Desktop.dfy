/** The desktop's side as it runs: loops over what it read, requests to the account, and
    credentials and mirrors written in place. */
module Desktop {
  import opened Base
  import opened Order
  import opened Links
  import opened LinkRuns
  import opened LinkStore
  import opened LinkSync
  import opened Seal
  import opened Credentials
  import opened LinkCoverage

  lemma FirstPassNone(cfg: Config, seen: Local, now: nat, run: Run)
    ensures PublishPhase(cfg, seen, now, run, []) == run
  {
  }

  lemma FirstPassOneMore(cfg: Config, seen: Local, now: nat, run: Run, providers: seq<string>, n: nat)
    requires n < |providers|
    ensures PublishPhase(cfg, seen, now, run, providers[..n + 1])
         == PublishStep(cfg, seen, now, PublishPhase(cfg, seen, now, run, providers[..n]), providers[n])
  {
    hide PublishStep;
    assert providers[..n + 1][..n] == providers[..n];
  }

  lemma {:induction false} FirstPassStopped(cfg: Config, seen: Local, now: nat, run: Run, providers: seq<string>,
                                            n: nat)
    requires n <= |providers|
    requires PublishPhase(cfg, seen, now, run, providers[..n]).failure.Some?
    ensures PublishPhase(cfg, seen, now, run, providers) == PublishPhase(cfg, seen, now, run, providers[..n])
    decreases |providers|
  {
    if n == |providers| {
      assert providers[..n] == providers;
    } else {
      assert providers[..|providers| - 1][..n] == providers[..n];
      FirstPassStopped(cfg, seen, now, run, providers[..|providers| - 1], n);
    }
  }

  lemma {:induction false} SecondPassStopped(cfg: Config, listed: LinkSet, mirrors: map<string, Mirror>, run: Run,
                                             providers: seq<string>, n: nat)
    requires n <= |providers| && forall p | p in providers :: p in listed.links
    requires LinkPhase(cfg, listed, mirrors, run, providers[..n]).failure.Some?
    ensures LinkPhase(cfg, listed, mirrors, run, providers) == LinkPhase(cfg, listed, mirrors, run, providers[..n])
    decreases |providers|
  {
    if n == |providers| {
      assert providers[..n] == providers;
    } else {
      assert providers[..|providers| - 1][..n] == providers[..n];
      SecondPassStopped(cfg, listed, mirrors, run, providers[..|providers| - 1], n);
    }
  }

  lemma SecondPassNone(cfg: Config, listed: LinkSet, mirrors: map<string, Mirror>, run: Run)
    ensures LinkPhase(cfg, listed, mirrors, run, []) == run
  {
  }

  lemma SecondPassOneMore(cfg: Config, listed: LinkSet, mirrors: map<string, Mirror>, run: Run,
                          providers: seq<string>, n: nat)
    requires n < |providers| && forall p | p in providers :: p in listed.links
    ensures LinkPhase(cfg, listed, mirrors, run, providers[..n + 1])
         == LinkStep(cfg, mirrors, LinkPhase(cfg, listed, mirrors, run, providers[..n]),
                     Summarize(cfg, listed, providers[n]))
  {
    hide LinkStep, Summarize;
    assert providers[..n + 1][..n] == providers[..n];
  }

  lemma {:induction false} PairsSnoc(provider: string, names: seq<string>, name: string)
    ensures Pairs(provider, names + [name]) == Pairs(provider, names) + [(provider, name)]
  {
    if names != [] {
      assert (names + [name])[1..] == names[1..] + [name];
      PairsSnoc(provider, names[1..], name);
    }
  }

  lemma RevokeIsSubmit(hub: LinkSet, p: string, now: nat)
    ensures Revoke(hub, p, now)
         == if Decide(hub, CmdRevoke(p), now).Ok? then ApplyAll(hub, Decide(hub, CmdRevoke(p), now).value) else hub
  {
  }

  lemma AddIsSubmit(hub: LinkSet, device: string, p: string, version: nat, copies: seq<SealedCopy>, now: nat)
    requires hub.CopyFor(p, device).Some?
    ensures Decide(hub, CmdAdd(p, device, version, copies), now) == AddCopies(hub, p, version, copies)
    ensures Commit(hub, AddCopies(hub, p, version, copies)).AllRecipients() == hub.AllRecipients()
  {
    if AddCopies(hub, p, version, copies).Ok? {
      AddEffect(hub, p, version, copies);
    }
  }

  class Desk {
    const cfg: Config
    var creds: map<string, Credential>
    var mirrors: map<string, Mirror>

    constructor (cfg: Config)
      ensures this.cfg == cfg && Here() == Local(map[], map[])
    {
      this.cfg := cfg;
      creds, mirrors := map[], map[];
    }

    function Here(): Local
      reads this
    {
      Local(creds, mirrors)
    }

    /** Make the credential held here the account's next version. */
    method Publish(account: Account, provider: string, now: nat) returns (failure: Option<Failure>)
      modifies this`mirrors, account`log
      ensures (State(account.Links(), Here()), failure)
           == PublishRecord(cfg, State(old(account.Links()), old(Here())), provider, now)
    {
      hide Rebuild, PutOf, PutLink, DepartedCopies, ApplyAll;
      if provider !in creds || !creds[provider].Usable() {
        return Some(NoLocalLink);
      }
      var cred := creds[provider];
      var _ := account.Submit(CmdPurge, now);
      var hub := account.Read();
      var version := hub.CurrentVersion(provider) + 1;
      if MakeContext(cfg.account, provider, version).None? {
        return Some(InvalidContext);
      }
      var d := account.Submit(CmdPut(provider, Some(cfg.device), PutOf(cfg, hub, provider, cred)), now);
      if d.Err? {
        return Some(Refused(d.error));
      }
      mirrors := mirrors[provider := Mirror(cfg.account, version, cred.version)];
      return None;
    }

    /** What changed here, published or revoked before anything is taken. */
    method PublishChanges(account: Account, now: nat) returns (done: Reconciled, failure: Option<Failure>)
      modifies this`mirrors, account`log
      ensures Run(State(account.Links(), Here()), done, failure)
           == PublishPhase(cfg, old(Here()), now, Run(State(old(account.Links()), old(Here())), NothingDone, None),
                           Names(old(creds).Keys))
    {
      hide PublishRecord, PublishPhase, Revoke, Rebuild, Names;
      var seen := Here();
      var providers := Names(seen.creds.Keys);
      ghost var run0 := Run(State(account.Links(), seen), NothingDone, None);
      done, failure := NothingDone, None;
      FirstPassNone(cfg, seen, now, run0);
      for i := 0 to |providers|
        invariant failure.None?
        invariant Run(State(account.Links(), Here()), done, failure)
               == PublishPhase(cfg, seen, now, run0, providers[..i])
      {
        var p := providers[i];
        FirstPassOneMore(cfg, seen, now, run0, providers, i);
        if Changed(seen, p) {
          failure := Publish(account, p, now);
          if failure.Some? {
            FirstPassStopped(cfg, seen, now, run0, providers, i + 1);
            return;
          }
          done := done.(published := done.published + [p]);
        } else if Unlinked(seen, p) {
          var _ := account.Submit(CmdRevoke(p), now);
          mirrors := mirrors - {p};
          done := done.(revoked := done.revoked + [p]);
          assert account.Links() == Revoke(PublishPhase(cfg, seen, now, run0, providers[..i]).st.hub, p, now) by {
            RevokeIsSubmit(PublishPhase(cfg, seen, now, run0, providers[..i]).st.hub, p, now);
          }
        }
      }
      assert providers[..|providers|] == providers;
    }

    /** Seal one link for the recipients still waiting for it. */
    method SealFor(account: Account, link: Summary, version: nat, secret: Secret,
                   recipients: map<string, PublicKey>, ghost was: Run, done0: Reconciled, now: nat)
      returns (done: Reconciled, failure: Option<Failure>)
      requires was == Run(State(account.Links(), Here()), done0, None)
      requires recipients == account.Links().AllRecipients()
      requires account.Links().CopyFor(link.provider, cfg.device).Some?
      requires account.Links().links[link.provider].version == version
      modifies account`log
      ensures Run(State(account.Links(), Here()), done, failure) == SealWaiting(cfg, was, link, secret)
      ensures account.Links().AllRecipients() == old(account.Links().AllRecipients())
    {
      hide Rebuild, Names, SealAll, AddCopies, ApplyAll, LinkSet.AllRecipients, LinkSet.CopyFor, Decide;
      var p := link.provider;
      var names := Names(recipients.Keys * link.waiting);
      var copies := SealAll(Context(cfg.account, p, version), secret, recipients, names);
      ghost var hub := account.Links();
      AddIsSubmit(hub, cfg.device, p, version, copies, now);
      var d := account.Submit(CmdAdd(p, cfg.device, version, copies), now);
      if d.Err? {
        return done0, Some(Refused(d.error));
      }
      var pairs: seq<(string, string)> := [];
      for i := 0 to |names|
        modifies {}
        invariant pairs == Pairs(p, names[..i])
      {
        assert names[..i + 1] == names[..i] + [names[i]];
        PairsSnoc(p, names[..i], names[i]);
        pairs := pairs + [(p, names[i])];
      }
      assert names[..|names|] == names;
      return done0.(sealedFor := done0.sealedFor + pairs), None;
    }

    /** Take, remove or seal one listed link. The recipients are asked for once, when they
        are first needed. */
    method TakeOne(account: Account, mirrored: map<string, Mirror>, link: Summary,
                   recipients: Option<map<string, PublicKey>>, done0: Reconciled, now: nat)
      returns (done: Reconciled, failure: Option<Failure>, known: Option<map<string, PublicKey>>)
      requires recipients.Some? ==> recipients.value == account.Links().AllRecipients()
      modifies this, account`log
      ensures Run(State(account.Links(), Here()), done, failure)
           == LinkStep(cfg, mirrored, Run(State(old(account.Links()), old(Here())), done0, None), link)
      ensures known.Some? ==> known.value == account.Links().AllRecipients()
    {
      hide Rebuild, SealWaiting, OpenCopy, MakeContext, LinkSet.AllRecipients;
      done, failure, known := done0, None, recipients;
      var p := link.provider;
      if link.status == Revoked {
        if p in mirrored {
          creds := Removed(Here(), p).creds;
          mirrors := mirrors - {p};
          done := done.(removed := done.removed + [p]);
        }
        return;
      }
      if !link.hasCopy || (!Behind(mirrored, link) && link.waiting == {}) {
        return;
      }
      var hub := account.Read();
      if hub.CopyFor(p, cfg.device).None? {
        return;
      }
      var opening := OpenHere(cfg, hub, p);
      if opening.Err? {
        failure := Some(opening.error);
        return;
      }
      if Behind(mirrored, link) {
        if !opening.value.Text? {
          failure := Some(NotText);
          return;
        }
        creds := Upserted(Here(), p, opening.value.text, hub.links[p].baseUrl, hub.links[p].classes).creds;
        mirrors := mirrors[p := Mirror(cfg.account, hub.links[p].version, creds[p].version)];
        done := done.(taken := done.taken + [p]);
      }
      if link.waiting != {} {
        if known.None? {
          known := Some(hub.AllRecipients());
        }
        ghost var was := Run(State(account.Links(), Here()), done, None);
        done, failure := SealFor(account, link, hub.links[p].version, opening.value, known.value, was, done, now);
      }
    }

    /** What the account holds, taken, removed or sealed link by link. */
    method TakeLinks(account: Account, done0: Reconciled, now: nat)
      returns (done: Reconciled, failure: Option<Failure>)
      modifies this, account`log
      ensures Run(State(account.Links(), Here()), done, failure)
           == TakePhase(cfg, Run(State(old(account.Links()), old(Here())), done0, None))
    {
      hide Rebuild, LinkStep, LinkPhase, Names, Summarize, ApplyAll, DepartedCopies, LinkSet.AllRecipients;
      var mirrored := mirrors;
      var listed := account.Read();
      var _ := account.Submit(CmdPurge, now);
      var providers := Names(listed.links.Keys);
      ghost var run0 := Run(State(account.Links(), Here()), done0, None);
      var recipients: Option<map<string, PublicKey>> := None;
      done, failure := done0, None;
      SecondPassNone(cfg, listed, mirrored, run0);
      for i := 0 to |providers|
        invariant failure.None?
        invariant Run(State(account.Links(), Here()), done, failure)
               == LinkPhase(cfg, listed, mirrored, run0, providers[..i])
        invariant recipients.Some? ==> recipients.value == account.Links().AllRecipients()
      {
        SecondPassOneMore(cfg, listed, mirrored, run0, providers, i);
        var link := Summarize(cfg, listed, providers[i]);
        done, failure, recipients := TakeOne(account, mirrored, link, recipients, done, now);
        if failure.Some? {
          SecondPassStopped(cfg, listed, mirrored, run0, providers, i + 1);
          return;
        }
      }
      assert providers[..|providers|] == providers;
    }

    /** Bring this desktop's links in step with the account. */
    method Reconcile(account: Account, now: nat) returns (done: Reconciled, failure: Option<Failure>)
      modifies this, account`log
      ensures Run(State(account.Links(), Here()), done, failure)
           == LinkSync.Reconcile(cfg, State(old(account.Links()), old(Here())), now)
    {
      hide Rebuild, PublishPhase, LinkPhase, Purged, Names, RegisterRecipient, ApplyAll;
      var d := account.Submit(CmdRegister(cfg.device, Point(cfg.key)), now);
      if d.Err? {
        return NothingDone, Some(Refused(d.error));
      }
      done, failure := PublishChanges(account, now);
      if failure.None? {
        done, failure := TakeLinks(account, done, now);
      }
    }
  }
}
