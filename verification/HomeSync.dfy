/** A hosted Home bringing what it holds for one person in step with their account: what
    the person made or changed on the Home stays theirs, what the account no longer gives
    it goes, and doing it again does nothing. */
module HomeSync {
  import opened Base
  import opened Order
  import opened Links
  import opened Seal
  import opened Credentials
  import LinkRuns

  /** The Home and its recipient key, when the key can be unwrapped. */
  datatype HomeConfig = HomeConfig(home: string, key: Option<PublicKey>)

  /** What the account holds for this Home and one person. */
  datatype HomeAnswer = HomeAnswer(account: string, links: seq<HomeLink>)

  datatype CopyFailure = InvalidContext | RecipientKeyUnavailable | CopyDidNotOpen | SecretIsNotText

  datatype HomeReconciled = HomeReconciled(failed: seq<(string, CopyFailure)>, taken: seq<string>, removed: seq<string>)

  const NothingDone := HomeReconciled([], [], [])

  /** A pass under way: the credentials, what was done, and the providers this Home is
      still given. */
  datatype Pass = Pass(local: Local, done: HomeReconciled, current: set<string>)

  /** A credential is held here while it is active. */
  predicate Held(local: Local, p: string) {
    p in local.creds && local.creds[p].active
  }

  /** Held here and exactly as it was taken from the account. */
  predicate Taken(local: Local, p: string) {
    Held(local, p) && p in local.mirrors && local.mirrors[p].localVersion == local.creds[p].version
  }

  /** Held here and made, or changed since it was taken, by the person. */
  predicate Own(local: Local, p: string) {
    Held(local, p) && !Taken(local, p)
  }

  predicate ForHome(cfg: HomeConfig, link: HomeLink) {
    link.copy.Some? && link.copy.value.deviceId == cfg.home
  }

  /** The link's current version is the one held here. */
  predicate Matches(account: string, local: Local, link: HomeLink) {
    Held(local, link.provider) && link.provider in local.mirrors
    && local.mirrors[link.provider].version == link.version && local.mirrors[link.provider].account == account
  }

  function Open(cfg: HomeConfig, account: string, link: HomeLink): Result<string, CopyFailure>
    requires ForHome(cfg, link)
  {
    match MakeContext(account, link.provider, link.version)
    case None => Err(InvalidContext)
    case Some(context) =>
      if cfg.key.None? then Err(RecipientKeyUnavailable)
      else
        match OpenCopy(context, cfg.key.value, link.copy.value)
        case Err(_) => Err(CopyDidNotOpen)
        case Ok(secret) => if secret.Text? then Ok(secret.text) else Err(SecretIsNotText)
  }

  function Take(account: string, local: Local, link: HomeLink, text: string): Local {
    var stored := Upserted(local, link.provider, text, link.baseUrl, link.classes);
    Mirrored(stored, link.provider, Mirror(account, link.version, stored.creds[link.provider].version))
  }

  /** What is to be done about one listed link: it is not for this Home, it is the person's
      own here, its version is held, its copy did not open, or it did. */
  datatype Verdict = NotHere | Theirs | Same | Failed(why: CopyFailure) | Opened(text: string)

  /** One listed link, judged by what was read before the pass. */
  function Judge(cfg: HomeConfig, account: string, seen: Local, link: HomeLink): Verdict {
    if !ForHome(cfg, link) then NotHere
    else if Own(seen, link.provider) then Theirs
    else if Matches(account, seen, link) then Same
    else
      match Open(cfg, account, link)
      case Err(why) => Failed(why)
      case Ok(text) => Opened(text)
  }

  /** The providers this Home is still given, once a link was judged. */
  function StillGiven(current: set<string>, verdict: Verdict, p: string): set<string> {
    if verdict.NotHere? || verdict.Theirs? then current else current + {p}
  }

  function TakeStep(cfg: HomeConfig, account: string, seen: Local, pass: Pass, link: HomeLink): Pass {
    var p := link.provider;
    var verdict := Judge(cfg, account, seen, link);
    var given := pass.(current := StillGiven(pass.current, verdict, p));
    match verdict
    case NotHere => given
    case Theirs => if p in seen.mirrors then given.(local := Unmirrored(given.local, p)) else given
    case Same => given
    case Failed(why) => given.(done := given.done.(failed := given.done.failed + [(p, why)]))
    case Opened(text) =>
      given.(local := Take(account, given.local, link, text), done := given.done.(taken := given.done.taken + [p]))
  }

  function TakePass(cfg: HomeConfig, account: string, seen: Local, links: seq<HomeLink>): Pass {
    if links == [] then Pass(seen, NothingDone, {})
    else TakeStep(cfg, account, seen, TakePass(cfg, account, seen, links[..|links| - 1]), links[|links| - 1])
  }

  /** One provider mirrored before the pass. */
  function RemoveStep(seen: Local, pass: Pass, p: string): Pass {
    if p in pass.current || !Taken(seen, p) then pass
    else pass.(local := Unmirrored(Removed(pass.local, p), p), done := pass.done.(removed := pass.done.removed + [p]))
  }

  function RemovePass(seen: Local, pass: Pass, providers: seq<string>): Pass {
    if providers == [] then pass
    else RemoveStep(seen, RemovePass(seen, pass, providers[..|providers| - 1]), providers[|providers| - 1])
  }

  /** The links listed, none when the account says this Home does not serve the person. */
  function Listed(answer: Option<HomeAnswer>): HomeAnswer {
    match answer
    case None => HomeAnswer("", [])
    case Some(a) => a
  }

  function ReconcileHome(cfg: HomeConfig, local: Local, answer: Option<HomeAnswer>): Pass {
    RemovePass(local, TakePass(cfg, Listed(answer).account, local, Listed(answer).links), Names(local.mirrors.Keys))
  }

  // ---- one provider through the passes ------------------------------------------------------

  /** The account gives this Home a copy of the provider's link. */
  ghost predicate Given(cfg: HomeConfig, links: seq<HomeLink>, p: string) {
    exists link | link in links :: link.provider == p && ForHome(cfg, link)
  }

  /** A listed link whose copy this Home can open. */
  ghost predicate Opens(cfg: HomeConfig, account: string, links: seq<HomeLink>, link: HomeLink) {
    link in links && ForHome(cfg, link) && Open(cfg, account, link).Ok?
  }

  ghost predicate SameLocal(local: Local, local': Local, p: string) {
    SameAt(local.creds, local'.creds, p) && SameAt(local.mirrors, local'.mirrors, p)
  }

  /** The credential held is exactly what a listed link's copy opened to. */
  ghost predicate HoldsListed(cfg: HomeConfig, account: string, links: seq<HomeLink>, local: Local, p: string) {
    exists link | Opens(cfg, account, links, link) && link.provider == p ::
      && Taken(local, p)
      && local.creds[p].token == Some(Open(cfg, account, link).value)
      && local.creds[p].baseUrl == link.baseUrl && local.creds[p].classes == link.classes
      && local.mirrors[p].version == link.version && local.mirrors[p].account == account
  }

  /** Every copy of the provider's that opens was the version held. */
  ghost predicate AllMatched(cfg: HomeConfig, account: string, seen: Local, links: seq<HomeLink>, p: string) {
    forall link | Opens(cfg, account, links, link) && link.provider == p :: Matches(account, seen, link)
  }

  /** What the first pass leaves of one provider. */
  ghost predicate AfterTake(cfg: HomeConfig, account: string, seen: Local, links: seq<HomeLink>, pass: Pass,
                            p: string)
  {
    && (p in pass.current <==> Given(cfg, links, p) && !Own(seen, p))
    && (Own(seen, p) ==>
          p !in pass.done.taken && SameAt(seen.creds, pass.local.creds, p)
          && if Given(cfg, links, p) then p !in pass.local.mirrors else SameAt(seen.mirrors, pass.local.mirrors, p))
    && (!Own(seen, p) && p !in pass.done.taken ==>
          SameLocal(seen, pass.local, p) && AllMatched(cfg, account, seen, links, p))
    && (p in pass.done.taken ==>
          HoldsListed(cfg, account, links, pass.local, p) && !AllMatched(cfg, account, seen, links, p))
  }

  lemma OpensSnoc(cfg: HomeConfig, account: string, links: seq<HomeLink>, last: HomeLink)
    ensures forall link :: Opens(cfg, account, links + [last], link)
                       <==> Opens(cfg, account, links, link)
                            || (link == last && ForHome(cfg, last) && Open(cfg, account, last).Ok?)
    ensures forall p ::
              Given(cfg, links + [last], p) <==> Given(cfg, links, p) || (last.provider == p && ForHome(cfg, last))
  {
    hide Open, OpenCopy;
    forall p
      ensures Given(cfg, links + [last], p) <==> Given(cfg, links, p) || (last.provider == p && ForHome(cfg, last))
    {
      assert forall link | link in links :: link in links + [last];
      assert last in links + [last];
    }
  }

  /** The step for one link leaves every other provider as it was. */
  lemma TakeOther(cfg: HomeConfig, account: string, seen: Local, before: seq<HomeLink>, pass: Pass, link: HomeLink,
                  p: string)
    requires AfterTake(cfg, account, seen, before, pass, p) && p != link.provider
    ensures AfterTake(cfg, account, seen, before + [link], TakeStep(cfg, account, seen, pass, link), p)
  {
    hide Open, Matches;
    OpensSnoc(cfg, account, before, link);
  }

  lemma TakeNotForHome(cfg: HomeConfig, account: string, seen: Local, before: seq<HomeLink>, pass: Pass, link: HomeLink)
    requires AfterTake(cfg, account, seen, before, pass, link.provider) && !ForHome(cfg, link)
    ensures AfterTake(cfg, account, seen, before + [link], pass, link.provider)
  {
    hide Open, Matches;
    OpensSnoc(cfg, account, before, link);
  }

  lemma TakeIt(cfg: HomeConfig, account: string, seen: Local, before: seq<HomeLink>, pass: Pass, link: HomeLink)
    requires AfterTake(cfg, account, seen, before, pass, link.provider) && ForHome(cfg, link)
    ensures AfterTake(cfg, account, seen, before + [link], TakeStep(cfg, account, seen, pass, link), link.provider)
  {
    hide Open;
    OpensSnoc(cfg, account, before, link);
    assert Given(cfg, before + [link], link.provider);
    if Open(cfg, account, link).Ok? {
      assert Opens(cfg, account, before + [link], link);
    }
  }

  lemma {:induction false} TakePassEffect(cfg: HomeConfig, account: string, seen: Local, links: seq<HomeLink>,
                                          p: string)
    ensures AfterTake(cfg, account, seen, links, TakePass(cfg, account, seen, links), p)
    ensures TakePass(cfg, account, seen, links).done.removed == []
    decreases |links|
  {
    hide AfterTake, Open, Own;
    if links == [] {
      TakeStarts(cfg, account, seen, p);
    } else {
      var before, last := links[..|links| - 1], links[|links| - 1];
      TakePassEffect(cfg, account, seen, before, p);
      var pass := TakePass(cfg, account, seen, before);
      if p != last.provider {
        TakeOther(cfg, account, seen, before, pass, last, p);
      } else if ForHome(cfg, last) {
        TakeIt(cfg, account, seen, before, pass, last);
      } else {
        TakeNotForHome(cfg, account, seen, before, pass, last);
      }
      assert links == before + [last];
    }
  }

  lemma TakeStarts(cfg: HomeConfig, account: string, seen: Local, p: string)
    ensures AfterTake(cfg, account, seen, [], Pass(seen, NothingDone, {}), p)
  {
  }

  // ---- then the removals ----------------------------------------------------------------------

  ghost predicate AfterRemove(seen: Local, taken: Pass, pass: Pass, providers: seq<string>, p: string) {
    && pass.current == taken.current
    && pass.done == taken.done.(removed := pass.done.removed)
    && (p in pass.done.removed <==> p in providers && p !in taken.current && Taken(seen, p))
    && if p in pass.done.removed then !Held(pass.local, p) && p !in pass.local.mirrors
       else SameLocal(taken.local, pass.local, p)
  }

  lemma {:induction false} RemovePassEffect(seen: Local, taken: Pass, providers: seq<string>, p: string)
    requires taken.done.removed == []
    ensures AfterRemove(seen, taken, RemovePass(seen, taken, providers), providers, p)
    decreases |providers|
  {
    if providers != [] {
      var before, last := providers[..|providers| - 1], providers[|providers| - 1];
      RemovePassEffect(seen, taken, before, p);
      assert providers == before + [last];
    }
  }

  /** What a reconcile leaves of one provider, for any answer the account can give. */
  ghost predicate Outcome(cfg: HomeConfig, local: Local, answer: HomeAnswer, pass: Pass, p: string) {
    && (p in pass.done.taken <==> !Own(local, p) && !AllMatched(cfg, answer.account, local, answer.links, p))
    && (p in pass.done.removed <==> Taken(local, p) && !Given(cfg, answer.links, p))
    && (p in pass.done.taken ==> HoldsListed(cfg, answer.account, answer.links, pass.local, p))
    && (p in pass.done.removed ==> !Held(pass.local, p) && p !in pass.local.mirrors)
    && (p !in pass.done.taken && p !in pass.done.removed ==>
          SameAt(local.creds, pass.local.creds, p)
          && if Own(local, p) && Given(cfg, answer.links, p) then p !in pass.local.mirrors
             else SameAt(local.mirrors, pass.local.mirrors, p))
  }

  lemma HomeOutcome(cfg: HomeConfig, local: Local, answer: Option<HomeAnswer>, p: string)
    ensures Outcome(cfg, local, Listed(answer), ReconcileHome(cfg, local, answer), p)
  {
    hide TakePass, RemovePass, Open, Names;
    var a := Listed(answer);
    TakePassEffect(cfg, a.account, local, a.links, p);
    RemovePassEffect(local, TakePass(cfg, a.account, local, a.links), Names(local.mirrors.Keys), p);
    if !Given(cfg, a.links, p) {
      NotGivenMatched(cfg, a.account, local, a.links, p);
    }
  }

  lemma NotGivenMatched(cfg: HomeConfig, account: string, local: Local, links: seq<HomeLink>, p: string)
    requires !Given(cfg, links, p)
    ensures AllMatched(cfg, account, local, links, p)
  {
  }

  /** A credential the person made or changed on this Home is never touched. */
  lemma OwnStays(cfg: HomeConfig, local: Local, answer: Option<HomeAnswer>, p: string)
    requires Own(local, p)
    ensures var pass := ReconcileHome(cfg, local, answer);
            && SameAt(local.creds, pass.local.creds, p) && Own(pass.local, p)
            && p !in pass.done.taken && p !in pass.done.removed
  {
    HomeOutcome(cfg, local, answer, p);
  }

  /** No credential taken from the account outlives the account's giving it. */
  lemma NothingUngivenStays(cfg: HomeConfig, local: Local, answer: Option<HomeAnswer>, p: string)
    requires !Given(cfg, Listed(answer).links, p)
    ensures !Taken(ReconcileHome(cfg, local, answer).local, p)
  {
    HomeOutcome(cfg, local, answer, p);
    NotGivenMatched(cfg, Listed(answer).account, local, Listed(answer).links, p);
  }

  /** A credential unlinked on the Home is not the person's own in this sense: the next
      reconcile takes it again whenever a listed copy opens. */
  lemma UnlinkedIsTakenAgain(cfg: HomeConfig, local: Local, answer: HomeAnswer, link: HomeLink)
    requires link.provider in local.creds && !local.creds[link.provider].active
    requires Opens(cfg, answer.account, answer.links, link)
    ensures Held(ReconcileHome(cfg, local, Some(answer)).local, link.provider)
  {
    HomeOutcome(cfg, local, Some(answer), link.provider);
  }

  // ---- doing it again ---------------------------------------------------------------------------

  /** The copies of a provider's that open are of one version. */
  ghost predicate OneVersion(cfg: HomeConfig, answer: HomeAnswer, p: string) {
    forall a, b | Opens(cfg, answer.account, answer.links, a) && Opens(cfg, answer.account, answer.links, b) ::
      a.provider == p && b.provider == p ==> a.version == b.version
  }

  /** So are those of every provider that is not the person's own here. */
  ghost predicate Agreeing(cfg: HomeConfig, local: Local, answer: HomeAnswer) {
    forall p :: Own(local, p) || OneVersion(cfg, answer, p)
  }

  /** What a second reconcile with the same answer does about one provider. */
  lemma AgainOne(cfg: HomeConfig, local: Local, answer: HomeAnswer, p: string)
    ensures var after := ReconcileHome(cfg, local, Some(answer)).local;
            var again := ReconcileHome(cfg, after, Some(answer));
            && p !in again.done.removed
            && (p in again.done.taken <==> !(Own(local, p) || OneVersion(cfg, answer, p)))
            && (p !in again.done.taken ==> SameLocal(after, again.local, p))
  {
    hide ReconcileHome, Open;
    var after := ReconcileHome(cfg, local, Some(answer)).local;
    HomeOutcome(cfg, local, Some(answer), p);
    HomeOutcome(cfg, after, Some(answer), p);
    AgainMatched(cfg, local, answer, ReconcileHome(cfg, local, Some(answer)), p);
  }

  /** After one reconcile a provider is the person's own just if it was before, and if it is
      not, nothing of it is left to take just if its copies agree. */
  lemma AgainMatched(cfg: HomeConfig, local: Local, answer: HomeAnswer, pass: Pass, p: string)
    requires Outcome(cfg, local, answer, pass, p)
    ensures Own(pass.local, p) <==> Own(local, p)
    ensures !Own(local, p) ==>
              (AllMatched(cfg, answer.account, pass.local, answer.links, p) <==> OneVersion(cfg, answer, p))
    ensures Taken(pass.local, p) ==> Given(cfg, answer.links, p)
    ensures Own(pass.local, p) && Given(cfg, answer.links, p) ==> p !in pass.local.mirrors
  {
    hide Open;
    if !Given(cfg, answer.links, p) {
      NotGivenMatched(cfg, answer.account, pass.local, answer.links, p);
      NotGivenMatched(cfg, answer.account, local, answer.links, p);
    }
    if !Own(local, p) {
      if OneVersion(cfg, answer, p) {
        AgreeingMatched(cfg, local, answer, pass, p);
      } else if AllMatched(cfg, answer.account, pass.local, answer.links, p) {
        MatchedAgree(cfg, answer, pass.local, p);
      }
    }
  }

  /** Copies that all are the version held agree. */
  lemma MatchedAgree(cfg: HomeConfig, answer: HomeAnswer, local: Local, p: string)
    requires AllMatched(cfg, answer.account, local, answer.links, p)
    ensures OneVersion(cfg, answer, p)
  {
    hide Open;
  }

  lemma AgreeingMatched(cfg: HomeConfig, local: Local, answer: HomeAnswer, pass: Pass, p: string)
    requires Outcome(cfg, local, answer, pass, p) && !Own(local, p) && OneVersion(cfg, answer, p)
    ensures AllMatched(cfg, answer.account, pass.local, answer.links, p)
  {
    hide Open;
    if !Given(cfg, answer.links, p) {
      NotGivenMatched(cfg, answer.account, pass.local, answer.links, p);
    }
  }

  /** Asked again with the same answer a Home removes nothing, whatever it held and whatever
      the answer is. It takes nothing, and changes no record, just if the copies of every
      provider that was not the person's own agree on a version. */
  lemma AgainDoesNothing(cfg: HomeConfig, local: Local, answer: HomeAnswer)
    ensures var after := ReconcileHome(cfg, local, Some(answer)).local;
            var again := ReconcileHome(cfg, after, Some(answer));
            && again.done.removed == []
            && (again.done.taken == [] <==> Agreeing(cfg, local, answer))
            && (Agreeing(cfg, local, answer) ==> again.local == after)
  {
    hide ReconcileHome, OneVersion;
    var after := ReconcileHome(cfg, local, Some(answer)).local;
    var again := ReconcileHome(cfg, after, Some(answer));
    forall p
      ensures p !in again.done.removed
      ensures p in again.done.taken <==> !(Own(local, p) || OneVersion(cfg, answer, p))
      ensures p !in again.done.taken ==> SameLocal(after, again.local, p)
    {
      AgainOne(cfg, local, answer, p);
    }
    NobodyIn(again.done.removed);
    if Agreeing(cfg, local, answer) {
      NobodyIn(again.done.taken);
      SameEverywhere(after, again.local);
    }
  }

  lemma NobodyIn(names: seq<string>)
    requires forall p :: p !in names
    ensures names == []
  {
    if |names| > 0 {
      SomebodyIn(names);
    }
  }

  lemma SameEverywhere(a: Local, b: Local)
    requires forall p :: SameLocal(a, b, p)
    ensures a == b
  {
    forall p
      ensures SameAt(a.creds, b.creds, p) && SameAt(a.mirrors, b.mirrors, p)
    {
      assert SameLocal(a, b, p);
    }
    SameMaps(a.creds, b.creds);
    SameMaps(a.mirrors, b.mirrors);
  }

  /** The same holds when the Home is told it does not serve the person. */
  lemma AgainNotServing(cfg: HomeConfig, local: Local)
    ensures var after := ReconcileHome(cfg, local, None).local;
            ReconcileHome(cfg, after, None) == Pass(after, NothingDone, {})
  {
    var after := ReconcileHome(cfg, local, None).local;
    forall p | p in after.mirrors
      ensures !Taken(after, p)
    {
      NothingUngivenStays(cfg, local, None, p);
    }
    NothingTaken(after, Pass(after, NothingDone, {}), Names(after.mirrors.Keys));
  }

  lemma {:induction false} NothingTaken(seen: Local, pass: Pass, providers: seq<string>)
    requires forall p | p in providers :: !Taken(seen, p)
    ensures RemovePass(seen, pass, providers) == pass
    decreases |providers|
  {
    if providers != [] {
      NothingTaken(seen, pass, providers[..|providers| - 1]);
    }
  }

  /** Where two copies that open disagree, a Home takes again, whatever it held, unless the
      provider was its person's own there. */
  lemma DisagreeingTakesAgain(cfg: HomeConfig, local: Local, answer: HomeAnswer, a: HomeLink, b: HomeLink)
    requires Opens(cfg, answer.account, answer.links, a) && Opens(cfg, answer.account, answer.links, b)
    requires a.provider == b.provider && a.version != b.version
    ensures var after := ReconcileHome(cfg, local, Some(answer)).local;
            a.provider in ReconcileHome(cfg, after, Some(answer)).done.taken <==> !Own(local, a.provider)
  {
    hide ReconcileHome, Open;
    AgainOne(cfg, local, answer, a.provider);
  }

  /** Every answer the authority gives agrees with itself. */
  lemma AuthorityAgrees(cfg: HomeConfig, s: LinkSet, account: string)
    requires HomeLinksView(s, cfg.home).Ok?
    ensures forall p :: OneVersion(cfg, HomeAnswer(account, HomeLinksView(s, cfg.home).value), p)
  {
    hide Open, Names;
    var links := HomeLinksView(s, cfg.home).value;
    forall a, b | Opens(cfg, account, links, a) && Opens(cfg, account, links, b) && a.provider == b.provider
      ensures a.version == b.version
    {
      var providers := Names(set p | p in s.links && s.LinkReachesHomes(p));
      LinkRuns.HomeLinksListed(s, cfg.home, providers, a);
      LinkRuns.HomeLinksListed(s, cfg.home, providers, b);
    }
  }

  // ---- as it runs -----------------------------------------------------------------------------

  /** What one hosted Home keeps for one person. */
  class Home {
    const cfg: HomeConfig
    var creds: map<string, Credential>
    var mirrors: map<string, Mirror>

    constructor (cfg: HomeConfig)
      ensures this.cfg == cfg && Here() == Local(map[], map[])
    {
      this.cfg := cfg;
      creds, mirrors := map[], map[];
    }

    function Here(): Local
      reads this
    {
      Local(creds, mirrors)
    }

    /** Take what is listed for this Home. */
    method TakeListed(answer: HomeAnswer) returns (done: HomeReconciled, current: set<string>)
      modifies this
      ensures Pass(Here(), done, current) == TakePass(cfg, answer.account, old(Here()), answer.links)
    {
      hide Open;
      var seen := Here();
      done, current := NothingDone, {};
      for i := 0 to |answer.links|
        invariant Pass(Here(), done, current) == TakePass(cfg, answer.account, seen, answer.links[..i])
      {
        var link := answer.links[i];
        var p := link.provider;
        assert answer.links[..i + 1][..i] == answer.links[..i];
        if !ForHome(cfg, link) {
          continue;
        }
        if Own(seen, p) {
          if p in seen.mirrors {
            mirrors := mirrors - {p};
          }
          continue;
        }
        current := current + {p};
        if Matches(answer.account, seen, link) {
          continue;
        }
        match Open(cfg, answer.account, link) {
          case Err(why) => done := done.(failed := done.failed + [(p, why)]);
          case Ok(text) =>
            creds := Upserted(Here(), p, text, link.baseUrl, link.classes).creds;
            mirrors := mirrors[p := Mirror(answer.account, link.version, creds[p].version)];
            done := done.(taken := done.taken + [p]);
        }
      }
      assert answer.links[..|answer.links|] == answer.links;
    }

    /** Bring what this Home holds in step. Nothing is written unless the account
        answered. */
    method Reconcile(reply: Result<Option<HomeAnswer>, string>) returns (r: Result<HomeReconciled, string>)
      modifies this
      ensures reply.Err? ==> r == Err(reply.error) && Here() == old(Here())
      ensures reply.Ok? ==>
                var pass := ReconcileHome(cfg, old(Here()), reply.value); Here() == pass.local && r == Ok(pass.done)
    {
      hide Names;
      if reply.Err? {
        return Err(reply.error);
      }
      var seen := Here();
      var done, current := NothingDone, {};
      if reply.value.Some? {
        done, current := TakeListed(reply.value.value);
      }
      ghost var pass0 := Pass(Here(), done, current);
      var providers := Names(seen.mirrors.Keys);
      for i := 0 to |providers|
        invariant Pass(Here(), done, current) == RemovePass(seen, pass0, providers[..i])
      {
        var p := providers[i];
        assert providers[..i + 1][..i] == providers[..i];
        if p in current || !Taken(seen, p) {
          continue;
        }
        creds := Removed(Here(), p).creds;
        mirrors := mirrors - {p};
        done := done.(removed := done.removed + [p]);
      }
      assert providers[..|providers|] == providers;
      return Ok(done);
    }
  }
}
