/** A reconcile is one of the runs agreement speaks of: every step it takes, of either pass
    and whether or not it fails, is a step of the interleaved world, so whatever any number
    of desktops' reconciles have left there stays true through this one. */
module LinkRefines {
  import opened Base
  import opened Order
  import opened Links
  import opened LinkRuns
  import opened Seal
  import opened Credentials
  import opened LinkSync
  import Agree = LinkAgreement

  /** The desktop's session in the world: the account, its key, and a state of its own. */
  ghost predicate Stands(cfg: Config, w: Agree.World, st: State) {
    && w.account == cfg.account && cfg.device in w.desks && w.desks[cfg.device].key == cfg.key
    && w.hub == st.hub && w.desks[cfg.device].local == st.local
  }

  lemma {:induction false} ActsConcat(w: Agree.World, a: seq<Agree.Action>, b: seq<Agree.Action>)
    ensures Agree.Acts(w, a + b) == Agree.Acts(Agree.Acts(w, a), b)
    decreases |a|
  {
    hide Agree.Act;
    if a == [] {
      assert a + b == b;
    } else {
      assert (a + b)[1..] == a[1..] + b;
      ActsConcat(Agree.Act(w, a[0]), a[1..], b);
    }
  }

  lemma OneAct(w: Agree.World, a: Agree.Action)
    ensures Agree.Acts(w, [a]) == Agree.Act(w, a)
  {
    hide Agree.Act;
    assert [a][1..] == [];
    assert Agree.Acts(Agree.Act(w, a), []) == Agree.Act(w, a);
  }

  /** A command that is not cut short. */
  function Whole(s: LinkSet, c: Command, now: nat): Step {
    Do(c, now, if Decide(s, c, now).Ok? then |Decide(s, c, now).value| else 0)
  }

  lemma WholeIs(s: LinkSet, c: Command, now: nat)
    ensures Next(s, Whole(s, c, now)) == Commit(s, Decide(s, c, now))
  {
    hide Decide;
    var d := Decide(s, c, now);
    if d.Ok? {
      assert d.value[..|d.value|] == d.value;
    }
  }

  /** A command of the authority's own, carried out in full. */
  lemma AuthorityActs(cfg: Config, w: Agree.World, st: State, c: Command, now: nat) returns (a: Agree.Action)
    requires Stands(cfg, w, st) && !c.CmdPut? && !c.CmdAdd?
    ensures Stands(cfg, Agree.Act(w, a), State(Commit(st.hub, Decide(st.hub, c, now)), st.local))
  {
    hide Decide, Next;
    a := Agree.AuthorityDoes(Whole(st.hub, c, now));
    WholeIs(st.hub, c, now);
  }

  lemma PurgeActs(cfg: Config, w: Agree.World, st: State) returns (a: Agree.Action)
    requires Stands(cfg, w, st)
    ensures Stands(cfg, Agree.Act(w, a), State(Purged(st.hub), st.local))
  {
    hide Agree.Act;
    a := AuthorityActs(cfg, w, st, CmdPurge, 0);
  }

  // ---- publishing ----------------------------------------------------------------------------------

  /** The desktop's thread has got there. */
  ghost predicate Has(cfg: Config, w: Agree.World, t: Agree.Thread) {
    cfg.device in w.desks && 0 in w.desks[cfg.device].threads && w.desks[cfg.device].threads[0] == t
  }

  /** Two actions, one after the other. */
  lemma TwoActs(w: Agree.World, a: Agree.Action, b: Agree.Action)
    ensures Agree.Acts(w, [a, b]) == Agree.Act(Agree.Act(w, a), b)
  {
    hide Agree.Act;
    ActsConcat(w, [a], [b]);
    OneAct(w, a);
    OneAct(Agree.Act(w, a), b);
    assert [a] + [b] == [a, b];
  }

  function ReadyThread(cfg: Config, hub: LinkSet, p: string, cred: Credential): Agree.Thread
    requires cred.token.Some?
  {
    Agree.Ready(p, cred.version, cred.token.value, cred, hub.CurrentVersion(p), PutOf(cfg, hub, p, cred).copies)
  }

  lemma ReadActs(cfg: Config, w: Agree.World, st: State, p: string)
    requires Stands(cfg, w, st) && p in st.local.creds && st.local.creds[p].Usable()
    ensures var cred := st.local.creds[p];
            var w' := Agree.Act(w, Agree.ReadLocal(cfg.device, 0, p));
            Stands(cfg, w', st) && Has(cfg, w', Agree.Read(p, cred.version, cred.token.value, cred))
  {
  }

  lemma CurrentActs(cfg: Config, w: Agree.World, st: State, p: string, cred: Credential)
    requires Stands(cfg, w, st) && cred.token.Some? && Has(cfg, w, Agree.Read(p, cred.version, cred.token.value, cred))
    ensures var w' := Agree.Act(w, Agree.ReadCurrent(cfg.device, 0));
            && Stands(cfg, w', st)
            && Has(cfg, w', Agree.Current(p, cred.version, cred.token.value, cred, st.hub.CurrentVersion(p)))
  {
  }

  lemma ReadyAct(cfg: Config, w: Agree.World, st: State, p: string, cred: Credential)
    requires Stands(cfg, w, st) && cred.token.Some?
    requires Has(cfg, w, Agree.Current(p, cred.version, cred.token.value, cred, st.hub.CurrentVersion(p)))
    requires MakeContext(cfg.account, p, st.hub.CurrentVersion(p) + 1).Some?
    ensures var w' := Agree.Act(w, Agree.SealForRecipients(cfg.device, 0));
            Stands(cfg, w', st) && Has(cfg, w', ReadyThread(cfg, st.hub, p, cred))
  {
    hide MakeContext, Names, SealAll;
  }

  /** The thread reads the credential, then the current version, then seals. */
  lemma ReadyActs(cfg: Config, w: Agree.World, st: State, p: string) returns (actions: seq<Agree.Action>)
    requires Stands(cfg, w, st) && p in st.local.creds && st.local.creds[p].Usable()
    requires MakeContext(cfg.account, p, st.hub.CurrentVersion(p) + 1).Some?
    ensures Stands(cfg, Agree.Acts(w, actions), st)
    ensures Has(cfg, Agree.Acts(w, actions), ReadyThread(cfg, st.hub, p, st.local.creds[p]))
  {
    hide MakeContext, ReadyThread, Has, Agree.Act;
    var d, cred := cfg.device, st.local.creds[p];
    var first, second, third := Agree.ReadLocal(d, 0, p), Agree.ReadCurrent(d, 0), Agree.SealForRecipients(d, 0);
    ReadActs(cfg, w, st, p);
    var w1 := Agree.Act(w, first);
    CurrentActs(cfg, w1, st, p, cred);
    var w2 := Agree.Act(w1, second);
    ReadyAct(cfg, w2, st, p, cred);
    TwoActs(w, first, second);
    ActsConcat(w, [first, second], [third]);
    OneAct(w2, third);
    actions := [first, second] + [third];
  }

  lemma PutAct(cfg: Config, w: Agree.World, st: State, p: string, cred: Credential, now: nat)
    returns (put: Agree.Action)
    requires Stands(cfg, w, st) && cred.token.Some? && Has(cfg, w, ReadyThread(cfg, st.hub, p, cred))
    requires PutLink(st.hub, p, Some(cfg.device), PutOf(cfg, st.hub, p, cred), now).Ok?
    ensures var w' := Agree.Act(w, put);
            && Stands(cfg, w', State(Commit(st.hub, PutLink(st.hub, p, Some(cfg.device),
                                                            PutOf(cfg, st.hub, p, cred), now)), st.local))
            && Has(cfg, w', Agree.Admitted(p, cred.version, st.hub.CurrentVersion(p) + 1))
  {
    hide PutLink, Decide, Names, SealAll, Next, Commit, LinkSet.AllRecipients;
    var c := CmdPut(p, Some(cfg.device), PutOf(cfg, st.hub, p, cred));
    WholeIs(st.hub, c, now);
    DecidesPut(st.hub, c, now);
    put := Agree.PutVersion(cfg.device, 0, now, Whole(st.hub, c, now).written, true);
  }

  lemma DecidesPut(s: LinkSet, c: Command, now: nat)
    requires c.CmdPut?
    ensures Decide(s, c, now) == PutLink(s, c.provider, c.caller, c.put, now)
  {
  }

  lemma NoteAct(cfg: Config, w: Agree.World, st: State, p: string, localVersion: nat, version: nat)
    requires Stands(cfg, w, st) && Has(cfg, w, Agree.Admitted(p, localVersion, version))
    ensures Stands(cfg, Agree.Act(w, Agree.WriteMirror(cfg.device, 0)),
                   State(st.hub, Mirrored(st.local, p, Mirror(cfg.account, version, localVersion))))
  {
  }

  lemma PutActs(cfg: Config, w: Agree.World, st: State, p: string, now: nat) returns (actions: seq<Agree.Action>)
    requires Stands(cfg, w, st) && p in st.local.creds && st.local.creds[p].Usable()
    requires Has(cfg, w, ReadyThread(cfg, st.hub, p, st.local.creds[p]))
    requires PutLink(st.hub, p, Some(cfg.device), PutOf(cfg, st.hub, p, st.local.creds[p]), now).Ok?
    ensures var cred := st.local.creds[p];
            var hub := Commit(st.hub, PutLink(st.hub, p, Some(cfg.device), PutOf(cfg, st.hub, p, cred), now));
            Stands(cfg, Agree.Acts(w, actions),
                   State(hub, Mirrored(st.local, p,
                                       Mirror(cfg.account, st.hub.CurrentVersion(p) + 1, cred.version))))
  {
    hide PutLink, PutOf, ReadyThread, Has, Agree.Act;
    var cred := st.local.creds[p];
    var put := PutAct(cfg, w, st, p, cred, now);
    var hub := Commit(st.hub, PutLink(st.hub, p, Some(cfg.device), PutOf(cfg, st.hub, p, cred), now));
    NoteAct(cfg, Agree.Act(w, put), State(hub, st.local), p, cred.version, st.hub.CurrentVersion(p) + 1);
    actions := [put, Agree.WriteMirror(cfg.device, 0)];
    TwoActs(w, put, Agree.WriteMirror(cfg.device, 0));
  }

  lemma PublishActs(cfg: Config, w: Agree.World, st: State, p: string, now: nat) returns (actions: seq<Agree.Action>)
    requires Stands(cfg, w, st)
    ensures Stands(cfg, Agree.Acts(w, actions), PublishRecord(cfg, st, p, now).0)
  {
    hide MakeContext, PutLink, Agree.Act, PutOf, Purged, ReadyThread, Has;
    actions := [];
    if p in st.local.creds && st.local.creds[p].Usable() {
      var purge := PurgeActs(cfg, w, st);
      actions := [purge];
      OneAct(w, purge);
      var w1, st1 := Agree.Act(w, purge), State(Purged(st.hub), st.local);
      if MakeContext(cfg.account, p, st1.hub.CurrentVersion(p) + 1).Some? {
        var ready := ReadyActs(cfg, w1, st1, p);
        ActsConcat(w, [purge], ready);
        actions := actions + ready;
        var w2 := Agree.Acts(w1, ready);
        if PutLink(st1.hub, p, Some(cfg.device), PutOf(cfg, st1.hub, p, st.local.creds[p]), now).Ok? {
          var put := PutActs(cfg, w2, st1, p, now);
          ActsConcat(w, actions, put);
          actions := actions + put;
        }
      }
    }
  }

  lemma PublishStepActs(cfg: Config, w: Agree.World, seen: Local, now: nat, run: Run, p: string)
    returns (actions: seq<Agree.Action>)
    requires Stands(cfg, w, run.st)
    ensures Stands(cfg, Agree.Acts(w, actions), PublishStep(cfg, seen, now, run, p).st)
  {
    hide PublishRecord, Decide;
    actions := [];
    if run.failure.None? {
      if Changed(seen, p) {
        actions := PublishActs(cfg, w, run.st, p, now);
      } else if Unlinked(seen, p) {
        actions := RevokeActs(cfg, w, run.st, p, now);
      }
    }
  }

  lemma RevokeActs(cfg: Config, w: Agree.World, st: State, p: string, now: nat) returns (actions: seq<Agree.Action>)
    requires Stands(cfg, w, st)
    ensures Stands(cfg, Agree.Acts(w, actions), State(Revoke(st.hub, p, now), Unmirrored(st.local, p)))
  {
    hide RevokeLink, Commit;
    var revoke := AuthorityActs(cfg, w, st, CmdRevoke(p), now);
    var drop := Agree.DropMirror(cfg.device, p);
    actions := [revoke, drop];
    TwoActs(w, revoke, drop);
  }

  lemma {:induction false} PublishPhaseActs(cfg: Config, w: Agree.World, seen: Local, now: nat, run: Run,
                                            providers: seq<string>) returns (actions: seq<Agree.Action>)
    requires Stands(cfg, w, run.st)
    ensures Stands(cfg, Agree.Acts(w, actions), PublishPhase(cfg, seen, now, run, providers).st)
    decreases |providers|
  {
    hide PublishStep, Agree.Act;
    actions := [];
    if providers != [] {
      var before := providers[..|providers| - 1];
      actions := PublishPhaseActs(cfg, w, seen, now, run, before);
      var more := PublishStepActs(cfg, Agree.Acts(w, actions), seen, now,
                                  PublishPhase(cfg, seen, now, run, before), providers[|providers| - 1]);
      ActsConcat(w, actions, more);
      actions := actions + more;
    }
  }

  // ---- taking, removing and sealing ----------------------------------------------------------------

  lemma RemoveActs(cfg: Config, w: Agree.World, st: State, p: string) returns (actions: seq<Agree.Action>)
    requires Stands(cfg, w, st)
    ensures Stands(cfg, Agree.Acts(w, actions), State(st.hub, Unmirrored(Removed(st.local, p), p)))
  {
    var unlink, drop := Agree.UnlinkHere(cfg.device, p), Agree.DropMirror(cfg.device, p);
    actions := [unlink, drop];
    TwoActs(w, unlink, drop);
  }

  function OpenThread(hub: LinkSet, p: string, secret: Secret): Agree.Thread
    requires p in hub.links
  {
    Agree.Opened(p, hub.links[p].version, secret, hub.links[p].baseUrl, hub.links[p].classes)
  }

  lemma FetchActs(cfg: Config, w: Agree.World, st: State, p: string) returns (a: Agree.Action)
    requires Stands(cfg, w, st) && st.hub.CopyFor(p, cfg.device).Some? && OpenHere(cfg, st.hub, p).Ok?
    ensures Stands(cfg, Agree.Act(w, a), st) && p in st.hub.links
    ensures Has(cfg, Agree.Act(w, a), OpenThread(st.hub, p, OpenHere(cfg, st.hub, p).value))
  {
    hide MakeContext, OpenCopy;
    a := Agree.FetchCopy(cfg.device, 0, p);
  }

  lemma StoreAct(cfg: Config, w: Agree.World, st: State, p: string, text: string)
    requires Stands(cfg, w, st) && p in st.hub.links && Has(cfg, w, OpenThread(st.hub, p, Text(text)))
    ensures var w' := Agree.Act(w, Agree.StoreTaken(cfg.device, 0));
            var link := st.hub.links[p];
            var local := Upserted(st.local, p, text, link.baseUrl, link.classes);
            && Stands(cfg, w', State(st.hub, local))
            && Has(cfg, w', Agree.Stored(p, link.version, Text(text), link.baseUrl, link.classes,
                                         local.creds[p].version))
  {
  }

  lemma NoteTakenAct(cfg: Config, w: Agree.World, st: State, p: string, secret: Secret, localVersion: nat)
    requires Stands(cfg, w, st) && p in st.hub.links
    requires Has(cfg, w, Agree.Stored(p, st.hub.links[p].version, secret, st.hub.links[p].baseUrl,
                                      st.hub.links[p].classes, localVersion))
    ensures var w' := Agree.Act(w, Agree.WriteMirror(cfg.device, 0));
            && Stands(cfg, w', State(st.hub, Mirrored(st.local, p, Mirror(cfg.account, st.hub.links[p].version,
                                                                          localVersion))))
            && Has(cfg, w', OpenThread(st.hub, p, secret))
  {
  }

  lemma TakeActs(cfg: Config, w: Agree.World, st: State, p: string, text: string) returns (actions: seq<Agree.Action>)
    requires Stands(cfg, w, st) && p in st.hub.links && Has(cfg, w, OpenThread(st.hub, p, Text(text)))
    ensures Stands(cfg, Agree.Acts(w, actions), State(st.hub, Take(cfg, st.hub, st.local, p, text)))
    ensures Has(cfg, Agree.Acts(w, actions), OpenThread(st.hub, p, Text(text)))
  {
    hide Agree.Act, Has;
    var store, note := Agree.StoreTaken(cfg.device, 0), Agree.WriteMirror(cfg.device, 0);
    StoreAct(cfg, w, st, p, text);
    var local := Upserted(st.local, p, text, st.hub.links[p].baseUrl, st.hub.links[p].classes);
    NoteTakenAct(cfg, Agree.Act(w, store), State(st.hub, local), p, Text(text), local.creds[p].version);
    actions := [store, note];
    TwoActs(w, store, note);
  }

  lemma SealAct(cfg: Config, w: Agree.World, st: State, p: string, secret: Secret, waiting: set<string>)
    requires Stands(cfg, w, st) && p in st.hub.links && Has(cfg, w, OpenThread(st.hub, p, secret))
    requires MakeContext(cfg.account, p, st.hub.links[p].version).Some?
    ensures var version := st.hub.links[p].version;
            var w' := Agree.Act(w, Agree.SealForWaiting(cfg.device, 0, waiting));
            && Stands(cfg, w', st)
            && Has(cfg, w', Agree.Adding(p, version, ForWaiting(cfg, st.hub, p, version, secret, waiting)))
  {
    hide Names, SealAll, ValidComponent, LinkSet.AllRecipients, Next, Decide, OpenCopy, Agree.Submit, Agree.AsReady,
      Agree.Taken, Agree.Store, Agree.Elsewhere, Removed, Upserted;
  }

  lemma AddAct(cfg: Config, w: Agree.World, st: State, p: string, version: nat, copies: seq<SealedCopy>)
    returns (add: Agree.Action)
    requires Stands(cfg, w, st) && Has(cfg, w, Agree.Adding(p, version, copies))
    requires st.hub.CopyFor(p, cfg.device).Some?
    ensures Stands(cfg, Agree.Act(w, add), State(Commit(st.hub, AddCopies(st.hub, p, version, copies)), st.local))
  {
    hide AddCopies, Next, LinkSet.CopyFor;
    var c := CmdAdd(p, cfg.device, version, copies);
    WholeIs(st.hub, c, 0);
    add := Agree.AddForWaiting(cfg.device, 0, 0, Whole(st.hub, c, 0).written);
  }

  lemma SealActs(cfg: Config, w: Agree.World, run: Run, link: Summary, secret: Secret)
    returns (actions: seq<Agree.Action>)
    requires Stands(cfg, w, run.st) && link.provider in run.st.hub.links
    requires Has(cfg, w, OpenThread(run.st.hub, link.provider, secret))
    requires run.st.hub.CopyFor(link.provider, cfg.device).Some?
    requires MakeContext(cfg.account, link.provider, run.st.hub.links[link.provider].version).Some?
    ensures Stands(cfg, Agree.Acts(w, actions), SealWaiting(cfg, run, link, secret).st)
  {
    hide AddCopies, ForWaiting, Names, LinkSet.CopyFor, MakeContext, Pairs, Agree.Act, Has, OpenThread;
    var hub, p := run.st.hub, link.provider;
    var version, seal := hub.links[p].version, Agree.SealForWaiting(cfg.device, 0, link.waiting);
    SealAct(cfg, w, run.st, p, secret, link.waiting);
    var add := AddAct(cfg, Agree.Act(w, seal), run.st, p, version,
                      ForWaiting(cfg, hub, p, version, secret, link.waiting));
    actions := [seal, add];
    TwoActs(w, seal, add);
  }

  lemma OpenHasContext(cfg: Config, hub: LinkSet, p: string)
    requires hub.CopyFor(p, cfg.device).Some? && OpenHere(cfg, hub, p).Ok?
    ensures p in hub.links && MakeContext(cfg.account, p, hub.links[p].version).Some?
  {
  }

  lemma LinkStepActs(cfg: Config, w: Agree.World, mirrors: map<string, Mirror>, run: Run, link: Summary)
    returns (actions: seq<Agree.Action>)
    requires Stands(cfg, w, run.st)
    ensures Stands(cfg, Agree.Acts(w, actions), LinkStep(cfg, mirrors, run, link).st)
  {
    hide OpenHere, SealWaiting, Take, LinkSet.CopyFor, MakeContext, Agree.Act, Removed;
    var p, hub := link.provider, run.st.hub;
    actions := [];
    if run.failure.Some? {
    } else if link.status == Revoked {
      if p in mirrors {
        actions := RemoveActs(cfg, w, run.st, p);
      }
    } else if link.hasCopy && (Behind(mirrors, link) || link.waiting != {}) && hub.CopyFor(p, cfg.device).Some? {
      var opening := OpenHere(cfg, hub, p);
      if opening.Ok? && (Behind(mirrors, link) ==> opening.value.Text?) {
        OpenHasContext(cfg, hub, p);
        actions := ServeActs(cfg, w, mirrors, run, link, opening.value);
      }
    }
  }

  /** Fetch, take if behind, and seal if somebody waits. */
  lemma ServeActs(cfg: Config, w: Agree.World, mirrors: map<string, Mirror>, run: Run, link: Summary, secret: Secret)
    returns (actions: seq<Agree.Action>)
    requires Stands(cfg, w, run.st) && run.failure.None?
    requires run.st.hub.CopyFor(link.provider, cfg.device).Some? && link.provider in run.st.hub.links
    requires OpenHere(cfg, run.st.hub, link.provider) == Ok(secret)
    requires MakeContext(cfg.account, link.provider, run.st.hub.links[link.provider].version).Some?
    requires Behind(mirrors, link) ==> secret.Text?
    ensures var p, hub := link.provider, run.st.hub;
            var taken :=
              if Behind(mirrors, link) then
                Run(State(hub, Take(cfg, hub, run.st.local, p, secret.text)),
                    run.done.(taken := run.done.taken + [p]), None)
              else run;
            Stands(cfg, Agree.Acts(w, actions),
                   if link.waiting == {} then taken.st else SealWaiting(cfg, taken, link, secret).st)
  {
    hide OpenHere, SealWaiting, Take, LinkSet.CopyFor, MakeContext, Agree.Act, Has, OpenThread;
    var p, hub := link.provider, run.st.hub;
    var fetch := FetchActs(cfg, w, run.st, p);
    actions := [fetch];
    OneAct(w, fetch);
    var taken := run;
    if Behind(mirrors, link) {
      var take := TakeActs(cfg, Agree.Acts(w, actions), run.st, p, secret.text);
      ActsConcat(w, actions, take);
      actions := actions + take;
      taken := Run(State(hub, Take(cfg, hub, run.st.local, p, secret.text)),
                   run.done.(taken := run.done.taken + [p]), None);
    }
    if link.waiting != {} {
      var seal := SealActs(cfg, Agree.Acts(w, actions), taken, link, secret);
      ActsConcat(w, actions, seal);
      actions := actions + seal;
    }
  }

  lemma {:induction false} LinkPhaseActs(cfg: Config, w: Agree.World, listed: LinkSet, mirrors: map<string, Mirror>,
                                         run: Run, providers: seq<string>) returns (actions: seq<Agree.Action>)
    requires Stands(cfg, w, run.st) && forall p | p in providers :: p in listed.links
    ensures Stands(cfg, Agree.Acts(w, actions), LinkPhase(cfg, listed, mirrors, run, providers).st)
    decreases |providers|
  {
    hide LinkStep, Agree.Act;
    actions := [];
    if providers != [] {
      var before := providers[..|providers| - 1];
      actions := LinkPhaseActs(cfg, w, listed, mirrors, run, before);
      var more := LinkStepActs(cfg, Agree.Acts(w, actions), mirrors, LinkPhase(cfg, listed, mirrors, run, before),
                               Summarize(cfg, listed, providers[|providers| - 1]));
      ActsConcat(w, actions, more);
      actions := actions + more;
    }
  }

  // ---- the whole reconcile -------------------------------------------------------------------------

  /** Every reconcile, failing or not, is a run of the interleaved world. */
  lemma ReconcileActs(cfg: Config, w: Agree.World, st: State, now: nat) returns (actions: seq<Agree.Action>)
    requires Stands(cfg, w, st)
    ensures Stands(cfg, Agree.Acts(w, actions), Reconcile(cfg, st, now).st)
  {
    hide RegisterRecipient, PublishPhase, LinkPhase, Purged, Names, Agree.Act;
    actions := [];
    var d := RegisterRecipient(st.hub, cfg.device, Point(cfg.key), now);
    if d.Ok? {
      var register := AuthorityActs(cfg, w, st, CmdRegister(cfg.device, Point(cfg.key)), now);
      actions := [register];
      OneAct(w, register);
      var st1 := State(Commit(st.hub, d), st.local);
      var names := Names(st1.local.creds.Keys);
      var publish := PublishPhaseActs(cfg, Agree.Acts(w, actions), st1.local, now, Run(st1, NothingDone, None), names);
      ActsConcat(w, actions, publish);
      actions := actions + publish;
      var run := PublishPhase(cfg, st1.local, now, Run(st1, NothingDone, None), names);
      if run.failure.None? {
        var more := TakeRestActs(cfg, Agree.Acts(w, actions), run);
        ActsConcat(w, actions, more);
        actions := actions + more;
      }
    }
  }

  lemma TakeRestActs(cfg: Config, w: Agree.World, run: Run) returns (actions: seq<Agree.Action>)
    requires Stands(cfg, w, run.st) && run.failure.None?
    ensures Stands(cfg, Agree.Acts(w, actions), TakePhase(cfg, run).st)
  {
    hide LinkPhase, Purged, Names, Agree.Act;
    var purge := PurgeActs(cfg, w, run.st);
    OneAct(w, purge);
    var run0 := Run(State(Purged(run.st.hub), run.st.local), run.done, None);
    var more := LinkPhaseActs(cfg, Agree.Act(w, purge), run.st.hub, run.st.local.mirrors, run0,
                              Names(run.st.hub.links.Keys));
    ActsConcat(w, [purge], more);
    actions := [purge] + more;
  }

  /** In any world agreement holds of, it holds after a reconcile there, failing or not: a
      desktop whose credential stands as its mirror says holds the secret published as that
      version. */
  lemma ReconcileAgrees(cfg: Config, w: Agree.World, st: State, now: nat) returns (w': Agree.World)
    requires Agree.Holds(w) && Stands(cfg, w, st)
    ensures Agree.Holds(w') && Stands(cfg, w', Reconcile(cfg, st, now).st)
    ensures forall p | Agree.InStep(w', cfg.device, p) ::
              var after := Reconcile(cfg, st, now).st.local;
              Agree.IsPublished(w', p, after.mirrors[p].version, Text(after.creds[p].token.value))
  {
    hide Reconcile, Agree.Acts;
    var actions := ReconcileActs(cfg, w, st, now);
    w' := Agree.Acts(w, actions);
    Agree.RunHolds(w, actions);
    assert Agree.DeskHolds(w', w'.desks[cfg.device]);
  }
}
