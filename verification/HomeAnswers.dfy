/** What a Home's reconcile reports, link by link as listed: which copies it takes, which it
    could not open and why, and what it removes. */
module HomeAnswers {
  import opened Base
  import opened Order
  import opened Links
  import opened Seal
  import opened Credentials
  import opened HomeSync

  /** Why a copy gives this Home no credential, if it does not: its names are not valid, the
      Home's key is not there, it was not sealed for this, or what is inside is not text. */
  function Fault(cfg: HomeConfig, account: string, link: HomeLink): Option<CopyFailure>
    requires link.copy.Some?
  {
    if !(ValidComponent(account) && ValidComponent(link.provider) && link.version > 0) then Some(InvalidContext)
    else if cfg.key.None? then Some(RecipientKeyUnavailable)
    else
      match OpenCopy(Context(account, link.provider, link.version), cfg.key.value, link.copy.value)
      case Err(_) => Some(CopyDidNotOpen)
      case Ok(Binary(_)) => Some(SecretIsNotText)
      case Ok(Text(_)) => None
  }

  lemma OpenExactly(cfg: HomeConfig, account: string, link: HomeLink)
    requires ForHome(cfg, link)
    ensures Fault(cfg, account, link).Some? ==> Open(cfg, account, link) == Err(Fault(cfg, account, link).value)
    ensures Fault(cfg, account, link).None? ==>
              && cfg.key.Some? && Open(cfg, account, link).Ok?
              && OpenCopy(Context(account, link.provider, link.version), cfg.key.value, link.copy.value)
                 == Ok(Text(Open(cfg, account, link).value))
  {
    hide ValidComponent;
  }

  /** The copy is for this Home, which holds nothing of the person's own there nor that very
      version. */
  predicate Tries(cfg: HomeConfig, account: string, seen: Local, link: HomeLink) {
    var p := link.provider;
    && link.copy.Some? && link.copy.value.deviceId == cfg.home
    && (p in seen.creds && seen.creds[p].active ==>
          && p in seen.mirrors && seen.mirrors[p].localVersion == seen.creds[p].version
          && !(seen.mirrors[p].version == link.version && seen.mirrors[p].account == account))
  }

  function FailedOf(cfg: HomeConfig, account: string, seen: Local, links: seq<HomeLink>): seq<(string, CopyFailure)> {
    if links == [] then []
    else
      var last := links[|links| - 1];
      FailedOf(cfg, account, seen, links[..|links| - 1])
      + (if Tries(cfg, account, seen, last) && Fault(cfg, account, last).Some?
         then [(last.provider, Fault(cfg, account, last).value)] else [])
  }

  function TakenOf(cfg: HomeConfig, account: string, seen: Local, links: seq<HomeLink>): seq<string> {
    if links == [] then []
    else
      var last := links[|links| - 1];
      TakenOf(cfg, account, seen, links[..|links| - 1])
      + (if Tries(cfg, account, seen, last) && Fault(cfg, account, last).None? then [last.provider] else [])
  }

  lemma JudgeIs(cfg: HomeConfig, account: string, seen: Local, link: HomeLink)
    ensures var verdict := Judge(cfg, account, seen, link);
            && (verdict.Failed? || verdict.Opened? <==> Tries(cfg, account, seen, link))
            && (Tries(cfg, account, seen, link) ==>
                  if Fault(cfg, account, link).Some? then verdict == Failed(Fault(cfg, account, link).value)
                  else verdict.Opened?)
  {
    hide Open, Fault;
    if ForHome(cfg, link) {
      OpenExactly(cfg, account, link);
    }
  }

  lemma {:induction false} TakeReports(cfg: HomeConfig, account: string, seen: Local, links: seq<HomeLink>)
    ensures var done := TakePass(cfg, account, seen, links).done;
            && done.failed == FailedOf(cfg, account, seen, links) && done.taken == TakenOf(cfg, account, seen, links)
            && done.removed == []
    decreases |links|
  {
    hide Judge, Tries, Fault, Take;
    if links != [] {
      TakeReports(cfg, account, seen, links[..|links| - 1]);
      JudgeIs(cfg, account, seen, links[|links| - 1]);
    }
  }

  lemma {:induction false} RemoveReports(seen: Local, pass: Pass, providers: seq<string>)
    requires pass.done.removed == []
    ensures var done := RemovePass(seen, pass, providers).done;
            done == pass.done.(removed := done.removed) && done.removed == RemovedOf(seen, pass.current, providers)
    ensures RemovePass(seen, pass, providers).current == pass.current
    decreases |providers|
  {
    if providers != [] {
      RemoveReports(seen, pass, providers[..|providers| - 1]);
    }
  }

  /** The providers taken from the account and unchanged since that it no longer gives. */
  function RemovedOf(seen: Local, given: set<string>, providers: seq<string>): seq<string> {
    if providers == [] then []
    else
      var p := providers[|providers| - 1];
      RemovedOf(seen, given, providers[..|providers| - 1])
      + (if p !in given && p in seen.creds && seen.creds[p].active && p in seen.mirrors
            && seen.mirrors[p].localVersion == seen.creds[p].version then [p] else [])
  }

  /** A Home reports, in the order listed, each copy for it that it tried and could not open
      with the reason, and each it took; then, in the order of names, each it removed. */
  lemma HomeReports(cfg: HomeConfig, local: Local, answer: Option<HomeAnswer>)
    ensures var pass, a := ReconcileHome(cfg, local, answer), Listed(answer);
            && pass.done.failed == FailedOf(cfg, a.account, local, a.links)
            && pass.done.taken == TakenOf(cfg, a.account, local, a.links)
            && pass.done.removed == RemovedOf(local, pass.current, Names(local.mirrors.Keys))
            && (forall p :: p in pass.current <==> Given(cfg, a.links, p) && !Own(local, p))
  {
    hide TakePass, RemovePass, Names, FailedOf, TakenOf, RemovedOf, AfterTake, Own, Given;
    var a := Listed(answer);
    var taken := TakePass(cfg, a.account, local, a.links);
    TakeReports(cfg, a.account, local, a.links);
    RemoveReports(local, taken, Names(local.mirrors.Keys));
    forall p
      ensures p in taken.current <==> Given(cfg, a.links, p) && !Own(local, p)
    {
      TakePassEffect(cfg, a.account, local, a.links, p);
      AfterTakeCurrent(cfg, a.account, local, a.links, taken, p);
    }
  }

  lemma AfterTakeCurrent(cfg: HomeConfig, account: string, seen: Local, links: seq<HomeLink>, pass: Pass, p: string)
    requires AfterTake(cfg, account, seen, links, pass, p)
    ensures p in pass.current <==> Given(cfg, links, p) && !Own(seen, p)
  {
  }

  /** A provider is reported failed for a reason exactly if a copy of it listed for this Home
      was tried and has that fault. */
  lemma {:induction false} FailedExactly(cfg: HomeConfig, account: string, seen: Local, links: seq<HomeLink>,
                                         x: (string, CopyFailure))
    ensures x in FailedOf(cfg, account, seen, links)
            <==> exists link :: link in links && Fails(cfg, account, seen, link, x)
    decreases |links|
  {
    hide Fault;
    if links != [] {
      var before, last := links[..|links| - 1], links[|links| - 1];
      FailedExactly(cfg, account, seen, before, x);
      assert links == before + [last];
      if Tries(cfg, account, seen, last) && Fault(cfg, account, last).Some? {
        assert x == (last.provider, Fault(cfg, account, last).value) <==> Fails(cfg, account, seen, last, x);
      }
      assert forall link | link in before :: link in links;
      assert last in links;
    }
  }

  predicate Fails(cfg: HomeConfig, account: string, seen: Local, link: HomeLink, x: (string, CopyFailure)) {
    Tries(cfg, account, seen, link) && link.copy.Some? && Fault(cfg, account, link) == Some(x.1) && link.provider == x.0
  }
}
