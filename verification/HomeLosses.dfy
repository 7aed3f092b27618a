/** Runs, from an account with nothing and a Home that holds nothing, in which a Home loses
    what its person linked there while a reconcile that had read it was under way. */
module HomeLosses {
  import opened Base
  import opened Order
  import opened Links
  import opened LinkEffects
  import opened LinkRuns
  import LinkKeys
  import opened Seal
  import opened Credentials
  import opened LinkAgreement
  import HomeSync
  import opened HomeSteps
  import opened HomeAgreement

  // ---- an account that gives a Home one link ---------------------------------------------------

  /** Who and what such a run is about: a Home and its key, a trusted device and its key, a
      provider and the secret the account holds for it. */
  datatype Cast = Cast(home: string, key: PublicKey, device: string, deviceKey: PublicKey, provider: string,
                       given: string)

  /** Names a copy may be bound to and a secret that fits one. */
  predicate Castable(c: Cast, account: string) {
    && ValidComponent(account) && ValidComponent(c.provider) && ValidComponent(c.home)
    && IsHome(c.home) && !IsHome(c.device) && Utf8Length(c.given) <= 32740
  }

  /** The authority before anything was put: one trusted device with a key, one Home. */
  function Ready(c: Cast): LinkSet {
    EmptySet.(activeDevices := {c.device},
              recipients := map[c.device := RecipientRecord(c.device, Upsert, c.deviceKey, 0)],
              homes := map[c.home := c.key])
  }

  function GivenCopy(c: Cast, account: string): SealedCopy {
    SealCopy(Context(account, c.provider, 1), Text(c.given), c.home, c.key)
  }

  function GivenLink(c: Cast, account: string): HomeLink {
    HomeLink(c.provider, 1, "", Bearer, {PrivateHome}, Some(GivenCopy(c, account)))
  }

  function PutFor(c: Cast, account: string): PutRequest {
    PutRequest(0, "", Bearer, {PrivateHome},
               SealAll(Context(account, c.provider, 1), Text(c.given), Ready(c).AllRecipients(),
                       RecipientsNow(Ready(c))))
  }

  lemma ReadyRecipients(c: Cast)
    requires IsHome(c.home) && !IsHome(c.device)
    ensures Ready(c).Recipients() == map[c.device := c.deviceKey]
    ensures Ready(c).AllRecipients() == map[c.device := c.deviceKey, c.home := c.key]
  {
  }

  /** What is sealed: one copy for the device and one for the Home. */
  lemma PutCopiesFor(c: Cast, account: string)
    requires IsHome(c.home) && !IsHome(c.device)
    ensures var copies := PutFor(c, account).copies;
            && SealedFor(copies) == {c.device, c.home}
            && (forall i, j | 0 <= i < j < |copies| :: copies[i].deviceId != copies[j].deviceId)
            && (forall x | x in copies ::
                  (x.deviceId == c.device || x.deviceId == c.home)
                  && x == SealCopy(Context(account, c.provider, 1), Text(c.given), x.deviceId,
                                   Ready(c).AllRecipients()[x.deviceId]))
  {
    hide Names, SealAll;
    ReadyRecipients(c);
    var names := RecipientsNow(Ready(c));
    SealAllProperties(Context(account, c.provider, 1), Text(c.given), Ready(c).AllRecipients(), names);
    assert (set n | n in names) == {c.device, c.home};
    forall i, j | 0 <= i < j < |names|
      ensures names[i] != names[j]
    {
      LessIrreflexive(names[i]);
    }
  }

  lemma PutIsAdmitted(c: Cast, account: string)
    requires Castable(c, account)
    ensures PutLink(Ready(c), c.provider, None, PutFor(c, account), 0).Ok?
  {
    hide PutLink, SealAll, Names, ValidComponent;
    var copies := PutFor(c, account).copies;
    PutCopiesFor(c, account);
    ReadyRecipients(c);
    assert (set x | x in copies && !IsHome(x.deviceId) :: x.deviceId) == {c.device} by {
      assert c.device in SealedFor(copies);
    }
    PutAdmitted(Ready(c), c.provider, None, PutFor(c, account), 0);
  }

  function PutDone(c: Cast, account: string): LinkSet {
    var d := PutLink(Ready(c), c.provider, None, PutFor(c, account), 0);
    if d.Ok? then ApplyAll(Ready(c), d.value) else Ready(c)
  }

  lemma GivenIsServed(c: Cast, account: string)
    requires Castable(c, account)
    ensures var s := PutDone(c, account);
            && s.homes == map[c.home := c.key] && s.links.Keys == {c.provider} && s.LinkReachesHomes(c.provider)
            && HomeLinkFor(s, c.home, c.provider) == GivenLink(c, account)
  {
    hide PutLink, SealAll, Names, ValidComponent, RecipientsNow, Kept, SealCopy, LinkSet.AllRecipients;
    var put := PutFor(c, account);
    PutIsAdmitted(c, account);
    PutCopiesFor(c, account);
    ReadyRecipients(c);
    assert Canonical(Ready(c));
    PutEffect(Ready(c), c.provider, None, put, 0);
    AllKept(Ready(c), put.copies);
    var s := PutDone(c, account);
    var k := CopyKey(c.provider, c.home);
    assert k in s.copies && IsCopyOf(s.copies[k], k, 1, put.copies);
  }

  lemma {:induction false} AllKept(s: LinkSet, copies: seq<SealedCopy>)
    requires forall x | x in copies :: !IsHome(x.deviceId) || x.deviceId in s.homes
    ensures Kept(s, true, copies) == copies
    decreases |copies|
  {
    hide IsHome;
    if copies != [] {
      var before, last := copies[..|copies| - 1], copies[|copies| - 1];
      assert forall x | x in before :: x in copies;
      assert last in copies;
      AllKept(s, before);
      assert copies == before + [last];
    }
  }

  lemma NamesOne(p: string)
    ensures Names({p}) == [p]
  {
    hide Names;
    var r := Names({p});
    assert |r| == 1 && p in r;
  }

  lemma GivenIsListed(c: Cast, account: string)
    requires Castable(c, account)
    ensures HomeLinksView(PutDone(c, account), c.home) == Ok([GivenLink(c, account)])
  {
    hide Names, PutDone, GivenLink, ValidComponent;
    var s := PutDone(c, account);
    GivenIsServed(c, account);
    assert (set p | p in s.links && s.LinkReachesHomes(p)) == {c.provider};
    NamesOne(c.provider);
    assert [c.provider][1..] == [];
    assert HomeLinksInOrder(s, c.home, [c.provider]) == [HomeLinkFor(s, c.home, c.provider)];
    assert IsHome(c.home);
  }

  // ---- the same through the account's actions ------------------------------------------------------

  function Snoc(actions: seq<HomeAction>, a: HomeAction): seq<HomeAction> {
    actions + [a]
  }

  lemma OneMore(hw: HomeWorld, home: string, actions: seq<HomeAction>, a: HomeAction)
    ensures HomeActs(hw, home, Snoc(actions, a)) == HomeAct(HomeActs(hw, home, actions), home, a)
  {
    hide HomeAct;
    assert Snoc(actions, a)[..|actions|] == actions;
  }

  /** The account's steps up to the put. */
  lemma GetsReady(w: World, c: Cast) returns (run: seq<HomeAction>)
    requires Fresh(w) && Castable(c, w.account)
    ensures HomeActs(NewHome(w), c.home, run) == NewHome(w.(hub := Ready(c)))
  {
    hide HomeActs, Next, Castable, ValidComponent, Decide;
    var trust := AuthorityDoes(Trust(c.device));
    var register := AuthorityDoes(Do(CmdRegister(c.device, Point(c.deviceKey)), 0, 1));
    var serve := AuthorityDoes(Homes(map[c.home := c.key], {}));
    HubBecomesReady(c, w.account);
    run := [];
    NothingYet(NewHome(w), c.home);
    OneMore(NewHome(w), c.home, run, HomeAction.Elsewhere(trust));
    run := Snoc(run, HomeAction.Elsewhere(trust));
    OneMore(NewHome(w), c.home, run, HomeAction.Elsewhere(register));
    run := Snoc(run, HomeAction.Elsewhere(register));
    OneMore(NewHome(w), c.home, run, HomeAction.Elsewhere(serve));
    run := Snoc(run, HomeAction.Elsewhere(serve));
  }

  lemma NothingYet(hw: HomeWorld, home: string)
    ensures HomeActs(hw, home, []) == hw
  {
  }

  lemma HubBecomesReady(c: Cast, account: string)
    requires Castable(c, account)
    ensures Next(Next(Next(EmptySet, Trust(c.device)), Do(CmdRegister(c.device, Point(c.deviceKey)), 0, 1)),
                 Homes(map[c.home := c.key], {}))
         == Ready(c)
  {
    hide ValidComponent, Decide;
    LinkKeys.TrustFirst(c.device);
    var trusted := EmptySet.(activeDevices := {c.device});
    LinkKeys.RegisterAlone(trusted, c.device, c.deviceKey);
    var registered :=
      trusted.(recipients := trusted.recipients[c.device := RecipientRecord(c.device, Upsert, c.deviceKey, 0)]);
    assert registered.recipients == map[c.device := RecipientRecord(c.device, Upsert, c.deviceKey, 0)];
    assert (map h | h in map[c.home := c.key] && IsHome(h) :: map[c.home := c.key][h]) == map[c.home := c.key];
    var none: set<CopyKey> := {};
    assert registered.copies - (set k | k in none && IsHome(k.device)) == map[];
  }

  /** And the put: the Home is then told of one link, whose copy it can open. */
  lemma IsGiven(w: World, c: Cast) returns (run: seq<HomeAction>, w': World)
    requires Fresh(w) && Castable(c, w.account)
    ensures HomeActs(NewHome(w), c.home, run) == NewHome(w')
    ensures w'.account == w.account
    ensures Answer(w', c.home) == Some(HomeSync.HomeAnswer(w.account, [GivenLink(c, w.account)]))
  {
    hide HomeActs, PutLink, HomeLinksView, GivenLink, PutFor, ApplyAll, ValidComponent, RecipientsNow;
    run := GetsReady(w, c);
    var ready := w.(hub := Ready(c));
    PutIsAdmitted(c, w.account);
    var facts := PutLink(Ready(c), c.provider, None, PutFor(c, w.account), 0).value;
    var put := PutElsewhere(c.provider, Text(c.given), "", Bearer, {PrivateHome}, 0, |facts|);
    PutReaches(ready, c, put);
    w' := Act(ready, put);
    OneMore(NewHome(w), c.home, run, HomeAction.Elsewhere(put));
    run := Snoc(run, HomeAction.Elsewhere(put));
    GivenIsListed(c, w.account);
  }

  lemma PutReaches(w: World, c: Cast, put: Action)
    requires Castable(c, w.account) && w.hub == Ready(c)
    requires PutLink(Ready(c), c.provider, None, PutFor(c, w.account), 0).Ok?
    requires put == PutElsewhere(c.provider, Text(c.given), "", Bearer, {PrivateHome}, 0,
                                 |PutLink(Ready(c), c.provider, None, PutFor(c, w.account), 0).value|)
    ensures Act(w, put).hub == PutDone(c, w.account) && Act(w, put).account == w.account
  {
    hide PutLink, ApplyAll, ValidComponent, SealAll, RecipientsNow, LinkSet.AllRecipients;
    var request := PutFor(c, w.account);
    assert w.hub.CurrentVersion(c.provider) == 0;
    assert LinkAgreement.Elsewhere(w, c.provider, Text(c.given), "", Bearer, {PrivateHome})
        == CmdPut(c.provider, None, request);
    var facts := PutLink(Ready(c), c.provider, None, request, 0).value;
    assert facts[..|facts|] == facts;
  }

  // ---- a reconcile that read the Home ---------------------------------------------------------------

  /** A reconcile that asked and read the Home with nobody in between. */
  lemma AsksAndReads(start: HomeWorld, home: string, before: seq<HomeAction>) returns (run: seq<HomeAction>)
    ensures var hw := HomeActs(start, home, before);
            HomeActs(start, home, run)
            == hw.(tasks := hw.tasks[0 := Taking(HomeSync.Listed(Answer(hw.world, home)), hw.local, 0,
                                                 HomeSync.NothingDone, {})])
  {
    hide Answer, HomeActs;
    var hw := HomeActs(start, home, before);
    var answer := HomeSync.Listed(Answer(hw.world, home));
    OneMore(start, home, before, Ask(0));
    run := Snoc(before, Ask(0));
    assert HomeActs(start, home, run) == hw.(tasks := hw.tasks[0 := Got(answer)]);
    OneMore(start, home, run, Advance(0, None));
    run := Snoc(run, Advance(0, None));
    assert HomeActs(start, home, run) == hw.(tasks := hw.tasks[0 := ReadCreds(answer, hw.local.creds)]);
    OneMore(start, home, run, Advance(0, None));
    run := Snoc(run, Advance(0, None));
    assert hw.local == Local(hw.local.creds, hw.local.mirrors);
  }

  /** The Home can open what it is given. */
  lemma GivenOpens(c: Cast, account: string, seen: Local)
    requires Castable(c, account) && !HomeSync.Held(seen, c.provider)
    ensures HomeSync.Judge(HomeSync.HomeConfig(c.home, Some(c.key)), account, seen, GivenLink(c, account))
         == HomeSync.Opened(c.given)
  {
    hide ValidComponent;
  }

  predicate HoldsText(local: Local, p: string, text: string) {
    HomeSync.Held(local, p) && local.creds[p].token == Some(text)
  }

  const Nothing := Local(map[], map[])

  /** The reconcile of a Home that held nothing, at the one link it was given. */
  function AtGiven(w: World, c: Cast, account: string): HomeWorld {
    HomeWorld(w, Nothing, map[0 := Taking(HomeSync.HomeAnswer(account, [GivenLink(c, account)]), Nothing, 0,
                                          HomeSync.NothingDone, {})])
  }

  lemma ReachesGiven(w: World, c: Cast) returns (run: seq<HomeAction>, w': World)
    requires Fresh(w) && Castable(c, w.account)
    ensures HomeActs(NewHome(w), c.home, run) == AtGiven(w', c, w.account)
  {
    hide HomeActs, Castable, GivenLink, Answer;
    var setup;
    setup, w' := IsGiven(w, c);
    run := AsksAndReads(NewHome(w), c.home, setup);
    var none: map<nat, Task> := map[];
    var t := Taking(HomeSync.HomeAnswer(w.account, [GivenLink(c, w.account)]), Nothing, 0, HomeSync.NothingDone, {});
    assert none[0 := t] == map[0 := t];
  }

  /** A link made on the Home after a reconcile read it, and before that reconcile stored
      the provider's copy, is overwritten: the Home then holds what the account gave. */
  lemma LateLinkIsOverwritten(w: World, c: Cast, mine: string, baseUrl: string, classes: set<ExecutionClass>)
    returns (run: seq<HomeAction>)
    requires Fresh(w) && Castable(c, w.account)
    ensures run != [] && run[|run| - 1] == LinkOnHome(c.provider, mine, baseUrl, classes)
    ensures var linked := HomeActs(NewHome(w), c.home, run);
            && HomeSync.Own(linked.local, c.provider) && HoldsText(linked.local, c.provider, mine)
            && HoldsText(HomeAct(linked, c.home, Advance(0, Some(c.key))).local, c.provider, c.given)
  {
    hide HomeActs, Castable, GivenLink, HomeSync.Judge;
    var w';
    run, w' := ReachesGiven(w, c);
    OneMore(NewHome(w), c.home, run, LinkOnHome(c.provider, mine, baseUrl, classes));
    run := Snoc(run, LinkOnHome(c.provider, mine, baseUrl, classes));
    LinkedThenStored(w', c, w.account, mine, baseUrl, classes);
  }

  lemma LinkedThenStored(w: World, c: Cast, account: string, mine: string, baseUrl: string,
                         classes: set<ExecutionClass>)
    requires Castable(c, account)
    ensures var linked := HomeAct(AtGiven(w, c, account), c.home, LinkOnHome(c.provider, mine, baseUrl, classes));
            && HomeSync.Own(linked.local, c.provider) && HoldsText(linked.local, c.provider, mine)
            && HoldsText(HomeAct(linked, c.home, Advance(0, Some(c.key))).local, c.provider, c.given)
  {
    hide Castable, HomeSync.Judge;
    GivenOpens(c, account, Nothing);
  }

  /** What the Home holds once it has taken what it was given. */
  function TookGiven(c: Cast, account: string): Local {
    Local(map[c.provider := Credential(1, true, Some(c.given), "", AuthenticationFor(c.provider), {PrivateHome})],
          map[c.provider := Mirror(account, 1, 1)])
  }

  /** The store and the note. */
  lemma TakesGiven(w: World, c: Cast, account: string)
    requires Castable(c, account)
    ensures var stored := HomeAct(AtGiven(w, c, account), c.home, Advance(0, Some(c.key)));
            var noted := HomeAct(stored, c.home, Advance(0, None));
            noted.local == TookGiven(c, account) && noted.world == w
  {
    hide Castable, HomeSync.Judge;
    GivenOpens(c, account, Nothing);
    var empty: map<string, Credential> := map[];
    var none: map<string, Mirror> := map[];
    var took := TookGiven(c, account);
    assert empty[c.provider := took.creds[c.provider]] == took.creds;
    assert none[c.provider := took.mirrors[c.provider]] == took.mirrors;
  }

  /** The Home stops serving: it is told so, and a reconcile that then reads what it took
      comes to remove it. */
  lemma ComesToRemove(w: World, c: Cast) returns (run: seq<HomeAction>)
    requires Fresh(w) && Castable(c, w.account)
    ensures var hw := HomeActs(NewHome(w), c.home, run);
            && hw.local == TookGiven(c, w.account) && 0 in hw.tasks
            && hw.tasks[0] == Removing(TookGiven(c, w.account), 0, HomeSync.NothingDone, {})
  {
    hide HomeActs, Castable, GivenLink, HomeSync.Judge, Stepped, Answer;
    var w';
    run, w' := ReachesGiven(w, c);
    TakesGiven(w', c, w.account);
    OneMore(NewHome(w), c.home, run, Advance(0, Some(c.key)));
    run := Snoc(run, Advance(0, Some(c.key)));
    OneMore(NewHome(w), c.home, run, Advance(0, None));
    run := Snoc(run, Advance(0, None));
    var gone := HomeAction.Elsewhere(AuthorityDoes(Homes(map[], {})));
    NotServed(w', c.home);
    OneMore(NewHome(w), c.home, run, gone);
    run := Snoc(run, gone);
    run := AsksAndReads(NewHome(w), c.home, run);
    OneMore(NewHome(w), c.home, run, Advance(0, None));
    StartsRemoving(TookGiven(c, w.account), c.home);
    run := Snoc(run, Advance(0, None));
  }

  lemma NotServed(w: World, home: string)
    ensures var none: map<string, PublicKey> := map[];
            Answer(Act(w, AuthorityDoes(Homes(none, {}))), home) == None
  {
  }

  lemma StartsRemoving(local: Local, home: string)
    ensures Stepped(home, None, local, Taking(HomeSync.HomeAnswer("", []), local, 0, HomeSync.NothingDone, {}))
         == Moment(local, Removing(local, 0, HomeSync.NothingDone, {}))
  {
  }

  /** A credential the Home had taken, rotated by the person after a reconcile read it and
      before that reconcile came to remove it, is removed: what they linked is gone. */
  lemma LateRotationIsRemoved(w: World, c: Cast, mine: string, baseUrl: string, classes: set<ExecutionClass>)
    returns (run: seq<HomeAction>)
    requires Fresh(w) && Castable(c, w.account)
    ensures run != [] && run[|run| - 1] == LinkOnHome(c.provider, mine, baseUrl, classes)
    ensures var linked := HomeActs(NewHome(w), c.home, run);
            && HomeSync.Own(linked.local, c.provider) && HoldsText(linked.local, c.provider, mine)
            && !HomeSync.Held(HomeAct(linked, c.home, Advance(0, None)).local, c.provider)
  {
    hide HomeActs, Castable, GivenLink, Stepped;
    run := ComesToRemove(w, c);
    var hw := HomeActs(NewHome(w), c.home, run);
    var linked := Upserted(hw.local, c.provider, mine, baseUrl, classes);
    RemovesIt(c, w.account, linked);
    OneMore(NewHome(w), c.home, run, LinkOnHome(c.provider, mine, baseUrl, classes));
    run := Snoc(run, LinkOnHome(c.provider, mine, baseUrl, classes));
  }

  lemma RemovesIt(c: Cast, account: string, local: Local)
    ensures var m := Stepped(c.home, None, local, Removing(TookGiven(c, account), 0, HomeSync.NothingDone, {}));
            !HomeSync.Held(m.local, c.provider)
  {
    hide Names;
    assert TookGiven(c, account).mirrors.Keys == {c.provider};
    NamesOne(c.provider);
  }
}
