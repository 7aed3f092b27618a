/** A hosted Home among the desktops: any number of its reconciles under way at once, step
    by step, while the person links, rotates and unlinks there. What it took from the
    account, and the person has not changed there since, is the secret published as the
    version it mirrors; and what is the person's own there stays theirs, unless a reconcile
    that read the Home before it was theirs comes to write it. */
module HomeAgreement {
  import opened Base
  import opened Links
  import opened LinkRuns
  import opened Seal
  import opened Credentials
  import opened LinkAgreement
  import opened Order
  import HomeSync
  import opened HomeSteps

  /** The account's world, one Home's records for the person, and its reconciles under way. */
  datatype HomeWorld = HomeWorld(world: World, local: Local, tasks: map<nat, Task>)

  datatype HomeAction =
    | Elsewhere(action: Action)
    | Ask(task: nat)
    | Advance(task: nat, key: Option<PublicKey>)
    | LinkOnHome(provider: string, secret: string, baseUrl: string, classes: set<ExecutionClass>)
    | UnlinkOnHome(provider: string)
    | Restart

  /** What the authority tells the Home, nothing where it does not serve the person. */
  function Answer(w: World, home: string): Option<HomeSync.HomeAnswer> {
    match HomeLinksView(w.hub, home)
    case Ok(links) => Some(HomeSync.HomeAnswer(w.account, links))
    case Err(_) => None
  }

  /** One action: the authority's answer starts a reconcile, each later step of it is one of
      its own, and the Home may stop between any two, losing those under way. */
  function HomeAct(hw: HomeWorld, home: string, a: HomeAction): HomeWorld {
    match a
    case Elsewhere(action) => hw.(world := Act(hw.world, action))
    case Ask(k) => hw.(tasks := hw.tasks[k := Got(HomeSync.Listed(Answer(hw.world, home)))])
    case Advance(k, key) =>
      if k in hw.tasks && Placed(hw.tasks[k]) then
        var m := Stepped(home, key, hw.local, hw.tasks[k]);
        hw.(local := m.local, tasks := hw.tasks[k := m.task])
      else hw
    case LinkOnHome(p, secret, baseUrl, classes) => hw.(local := Upserted(hw.local, p, secret, baseUrl, classes))
    case UnlinkOnHome(p) => hw.(local := Removed(hw.local, p))
    case Restart => hw.(tasks := map[])
  }

  function HomeActs(hw: HomeWorld, home: string, actions: seq<HomeAction>): HomeWorld {
    if actions == [] then hw
    else HomeAct(HomeActs(hw, home, actions[..|actions| - 1]), home, actions[|actions| - 1])
  }

  /** A Home that holds nothing for the person yet. */
  function NewHome(w: World): HomeWorld {
    HomeWorld(w, Local(map[], map[]), map[])
  }

  // ---- what always holds --------------------------------------------------------------------

  /** A local version is one there was, and if it is the one held, it is the secret
      published as a version of the link. */
  ghost predicate TrueOf(w: World, local: Local, p: string, version: nat, localVersion: nat) {
    && p in local.creds && localVersion <= local.creds[p].version
    && (HomeSync.Held(local, p) && localVersion == local.creds[p].version ==>
          local.creds[p].token.Some? && IsPublished(w, p, version, Text(local.creds[p].token.value)))
  }

  ghost predicate MirrorTrue(w: World, local: Local, p: string) {
    p in local.mirrors ==> TrueOf(w, local, p, local.mirrors[p].version, local.mirrors[p].localVersion)
  }

  /** Whatever a listed copy opens to is what was published as the version listed. */
  ghost predicate TrueLink(w: World, link: HomeLink) {
    forall key | link.copy.Some? :: forall secret ::
      OpenCopy(Context(w.account, link.provider, link.version), key, link.copy.value) == Ok(secret) ==>
        IsPublished(w, link.provider, link.version, secret)
  }

  ghost predicate TrueAnswer(w: World, answer: HomeSync.HomeAnswer) {
    forall link | link in answer.links :: answer.account == w.account && TrueLink(w, link)
  }

  ghost predicate TaskTrue(w: World, local: Local, t: Task) {
    && Placed(t)
    && (t.Got? || t.ReadCreds? || t.Taking? || t.Noting? ==> TrueAnswer(w, t.answer))
    && (t.Noting? ==>
          TrueOf(w, local, t.answer.links[t.next].provider, t.answer.links[t.next].version, t.localVersion))
  }

  ghost predicate HomeHolds(hw: HomeWorld) {
    && Holds(hw.world)
    && (forall p :: MirrorTrue(hw.world, hw.local, p))
    && (forall k | k in hw.tasks :: TaskTrue(hw.world, hw.local, hw.tasks[k]))
  }

  lemma SubmitExtends(w: World, c: Command, secret: Secret, now: nat, written: nat)
    requires Holds(w) && c.CmdPut?
    ensures Extends(w, Submit(w, c, secret, now, written))
  {
    hide Next, VersionFacts;
    if Admits(w.hub, c, now, written) {
      assert c.put.expectedVersion == w.hub.CurrentVersion(c.provider);
      assert At(c.provider, c.put.expectedVersion + 1) !in w.published;
    }
  }

  /** No action changes what was published before it. */
  lemma ActExtends(w: World, a: Action)
    requires Holds(w)
    ensures Extends(w, Act(w, a))
  {
    hide Next, Decide, Submit, Holds, LinkAgreement.Elsewhere, Store, Taken, AsReady, OpenCopy, MakeContext;
    match a {
      case PutVersion(d, t, now, written, answered) =>
        if d in w.desks && t in w.desks[d].threads && w.desks[d].threads[t].Ready? {
          var r := w.desks[d].threads[t];
          var command := CmdPut(r.provider, Some(d), PutOf(r.cred, r.current, r.copies));
          SubmitExtends(w, command, Text(r.secret), now, written);
        }
      case PutElsewhere(p, secret, baseUrl, authentication, classes, now, written) =>
        SubmitExtends(w, LinkAgreement.Elsewhere(w, p, secret, baseUrl, authentication, classes), secret, now, written);
      case _ =>
    }
  }

  lemma StillTrue(hw: HomeWorld, w': World)
    requires HomeHolds(hw) && Extends(hw.world, w') && Holds(w')
    ensures HomeHolds(hw.(world := w'))
  {
    hide Holds, OpenCopy;
    forall p
      ensures MirrorTrue(w', hw.local, p)
    {
      assert MirrorTrue(hw.world, hw.local, p);
    }
    forall k | k in hw.tasks
      ensures TaskTrue(w', hw.local, hw.tasks[k])
    {
      assert TaskTrue(hw.world, hw.local, hw.tasks[k]);
      TaskStillTrue(hw.world, w', hw.local, hw.tasks[k]);
    }
  }

  lemma TaskStillTrue(w: World, w': World, local: Local, t: Task)
    requires TaskTrue(w, local, t) && Extends(w, w')
    ensures TaskTrue(w', local, t)
  {
    hide OpenCopy;
    if t.Got? || t.ReadCreds? || t.Taking? || t.Noting? {
      forall link | link in t.answer.links
        ensures t.answer.account == w'.account && TrueLink(w', link)
      {
        assert TrueLink(w, link);
      }
    }
  }

  lemma {:induction false} ListedFromHub(w: World, home: string, providers: seq<string>, link: HomeLink)
    requires Holds(w) && forall p | p in providers :: p in w.hub.links
    requires link in HomeLinksInOrder(w.hub, home, providers)
    ensures TrueLink(w, link)
    decreases |providers|
  {
    hide Holds, OpenCopy;
    if link == HomeLinkFor(w.hub, home, providers[0]) {
      HeldIsTrue(w, home, link);
    } else {
      ListedFromHub(w, home, providers[1..], link);
    }
  }

  lemma HeldIsTrue(w: World, home: string, link: HomeLink)
    requires Holds(w) && link.provider in w.hub.links && link == HomeLinkFor(w.hub, home, link.provider)
    ensures TrueLink(w, link)
  {
    hide ValidComponent;
    if link.copy.Some? {
      assert exists k | k in w.hub.copies :: w.hub.copies[k].copy == link.copy.value;
      assert Truthful(w, link.copy.value);
    }
  }

  lemma AnswerIsTrue(w: World, home: string)
    requires Holds(w)
    ensures TrueAnswer(w, HomeSync.Listed(Answer(w, home)))
  {
    hide Holds, TrueLink, Names;
    var view := HomeLinksView(w.hub, home);
    if view.Ok? {
      forall link | link in view.value
        ensures TrueLink(w, link)
      {
        ListedFromHub(w, home, Names(set p | p in w.hub.links && w.hub.LinkReachesHomes(p)), link);
      }
    }
  }

  // ---- local records only move on -----------------------------------------------------------

  /** A credential is as it was, or was revoked, or has a later version. */
  ghost predicate Later(local: Local, local': Local, p: string) {
    p in local.creds ==>
      && p in local'.creds
      && (local'.creds[p].version > local.creds[p].version
          || (local'.creds[p].version == local.creds[p].version
              && (local'.creds[p] == local.creds[p] || !local'.creds[p].active)))
  }

  lemma SteppedLater(home: string, key: Option<PublicKey>, local: Local, t: Task, p: string)
    requires Placed(t)
    ensures Later(local, Stepped(home, key, local, t).local, p)
  {
    hide HomeSync.Judge, Names, HomeSync.Taken;
  }

  lemma TaskLater(w: World, local: Local, local': Local, t: Task)
    requires TaskTrue(w, local, t) && forall p :: Later(local, local', p)
    ensures TaskTrue(w, local', t)
  {
    hide TrueAnswer, IsPublished;
    if t.Noting? {
      assert Later(local, local', t.answer.links[t.next].provider);
    }
  }

  /** What is noted for a secret just stored is true. */
  lemma StoredIsTrue(w: World, home: string, key: Option<PublicKey>, local: Local, t: Task)
    requires TaskTrue(w, local, t) && t.Taking? && t.next < |t.answer.links|
    ensures TaskTrue(w, TakeLink(home, key, local, t).local, TakeLink(home, key, local, t).task)
  {
    hide OpenCopy;
    assert TrueLink(w, t.answer.links[t.next]);
  }

  lemma SteppedTask(w: World, home: string, key: Option<PublicKey>, local: Local, t: Task)
    requires TaskTrue(w, local, t)
    ensures var m := Stepped(home, key, local, t); TaskTrue(w, m.local, m.task)
  {
    hide TrueAnswer, TrueOf, HomeSync.Judge, Names, HomeSync.Taken;
    StaysPlaced(home, key, local, t);
    if t.Taking? && t.next < |t.answer.links| {
      StoredIsTrue(w, home, key, local, t);
    }
  }

  lemma SteppedMirror(w: World, home: string, key: Option<PublicKey>, local: Local, t: Task, p: string)
    requires TaskTrue(w, local, t) && MirrorTrue(w, local, p)
    ensures MirrorTrue(w, Stepped(home, key, local, t).local, p)
  {
    hide TrueAnswer, IsPublished, HomeSync.Judge, Names, HomeSync.Taken;
    SteppedLater(home, key, local, t, p);
  }

  lemma AdvanceHolds(hw: HomeWorld, home: string, k: nat, key: Option<PublicKey>)
    requires HomeHolds(hw) && k in hw.tasks
    ensures HomeHolds(HomeAct(hw, home, Advance(k, key)))
  {
    hide Holds, Stepped, MirrorTrue, TaskTrue, Later;
    assert TaskTrue(hw.world, hw.local, hw.tasks[k]);
    TaskPlaced(hw.world, hw.local, hw.tasks[k]);
    var m := Stepped(home, key, hw.local, hw.tasks[k]);
    forall p
      ensures MirrorTrue(hw.world, m.local, p)
    {
      SteppedMirror(hw.world, home, key, hw.local, hw.tasks[k], p);
    }
    forall p
      ensures Later(hw.local, m.local, p)
    {
      SteppedLater(home, key, hw.local, hw.tasks[k], p);
    }
    SteppedTask(hw.world, home, key, hw.local, hw.tasks[k]);
    forall j | j in hw.tasks && j != k
      ensures TaskTrue(hw.world, m.local, hw.tasks[j])
    {
      TaskLater(hw.world, hw.local, m.local, hw.tasks[j]);
    }
  }

  lemma TaskPlaced(w: World, local: Local, t: Task)
    requires TaskTrue(w, local, t)
    ensures Placed(t)
  {
  }

  /** The person's own linking and unlinking on the Home. */
  lemma PersonHolds(hw: HomeWorld, local': Local)
    requires HomeHolds(hw) && local'.mirrors == hw.local.mirrors && forall p :: Later(hw.local, local', p)
    ensures HomeHolds(hw.(local := local'))
  {
    hide Holds, TaskTrue, IsPublished;
    forall p
      ensures MirrorTrue(hw.world, local', p)
    {
      assert MirrorTrue(hw.world, hw.local, p) && Later(hw.local, local', p);
    }
    forall k | k in hw.tasks
      ensures TaskTrue(hw.world, local', hw.tasks[k])
    {
      TaskLater(hw.world, hw.local, local', hw.tasks[k]);
    }
  }

  lemma HomeActHolds(hw: HomeWorld, home: string, a: HomeAction)
    requires HomeHolds(hw)
    ensures HomeHolds(HomeAct(hw, home, a))
  {
    hide Holds, Act, Stepped, Answer, TrueAnswer, MirrorTrue;
    match a {
      case Elsewhere(action) =>
        ActHolds(hw.world, action);
        ActExtends(hw.world, action);
        StillTrue(hw, Act(hw.world, action));
      case Ask(_) => AnswerIsTrue(hw.world, home);
      case Advance(k, key) =>
        if k in hw.tasks {
          AdvanceHolds(hw, home, k, key);
        }
      case LinkOnHome(_, _, _, _) => PersonHolds(hw, HomeAct(hw, home, a).local);
      case UnlinkOnHome(_) => PersonHolds(hw, HomeAct(hw, home, a).local);
      case Restart =>
    }
  }

  lemma {:induction false} HomeRunHolds(hw: HomeWorld, home: string, actions: seq<HomeAction>)
    requires HomeHolds(hw)
    ensures HomeHolds(HomeActs(hw, home, actions))
    decreases |actions|
  {
    hide HomeHolds, HomeAct;
    if actions != [] {
      HomeRunHolds(hw, home, actions[..|actions| - 1]);
      HomeActHolds(HomeActs(hw, home, actions[..|actions| - 1]), home, actions[|actions| - 1]);
    }
  }

  lemma NewHomeHolds(w: World)
    requires Fresh(w)
    ensures HomeHolds(NewHome(w))
  {
  }

  /** Over every interleaving of the steps of any number of the Home's reconciles, the
      person's changes on it, the desktops' steps, the authority's commands and stops
      anywhere: a credential the Home took, unchanged since, is the secret published as the
      version it mirrors. */
  lemma HomeAgrees(w: World, home: string, actions: seq<HomeAction>, p: string)
    requires Fresh(w)
    requires HomeSync.Taken(HomeActs(NewHome(w), home, actions).local, p)
    ensures var hw := HomeActs(NewHome(w), home, actions);
            && hw.local.creds[p].token.Some?
            && IsPublished(hw.world, p, hw.local.mirrors[p].version, Text(hw.local.creds[p].token.value))
  {
    hide HomeActs, Holds, TaskTrue;
    NewHomeHolds(w);
    HomeRunHolds(NewHome(w), home, actions);
    assert MirrorTrue(HomeActs(NewHome(w), home, actions).world, HomeActs(NewHome(w), home, actions).local, p);
  }

  /** A Home and a desktop that mirror one version of a link hold the same secret. */
  lemma HomeAndDesktopAgree(w: World, home: string, actions: seq<HomeAction>, desk: string, p: string)
    requires Fresh(w)
    requires var hw := HomeActs(NewHome(w), home, actions);
             && HomeSync.Taken(hw.local, p) && InStep(hw.world, desk, p)
             && hw.world.desks[desk].local.mirrors[p].version == hw.local.mirrors[p].version
    ensures var hw := HomeActs(NewHome(w), home, actions);
            hw.world.desks[desk].local.creds[p].token == hw.local.creds[p].token
  {
    hide HomeActs, HomeSync.Taken, TaskTrue, MirrorTrue;
    HomeAgrees(w, home, actions, p);
    NewHomeHolds(w);
    HomeRunHolds(NewHome(w), home, actions);
    var hw := HomeActs(NewHome(w), home, actions);
    assert DeskHolds(hw.world, hw.world.desks[desk]);
  }
}
