/** What is the person's own on a Home, over whole runs: it stays theirs through every step
    of every reconcile, exactly where no reconcile under way can still come to write it. */
module HomeOwnership {
  import opened Base
  import opened Order
  import opened Links
  import opened Seal
  import opened Credentials
  import opened LinkAgreement
  import HomeSync
  import opened HomeSteps
  import opened HomeAgreement

  /** The reconcile stored the provider's secret and is to note its version. */
  predicate NotesFor(t: Task, p: string) {
    t.Noting? && Placed(t) && t.answer.links[t.next].provider == p
  }

  function Note(t: Task): Mirror
    requires t.Noting? && Placed(t)
  {
    Mirror(t.answer.account, t.answer.links[t.next].version, t.localVersion)
  }

  /** No mirror notes this local version, and no reconcile is about to. */
  ghost predicate Unnoted(hw: HomeWorld, p: string, localVersion: nat) {
    && (p in hw.local.mirrors ==> hw.local.mirrors[p].localVersion != localVersion)
    && (forall k | k in hw.tasks && NotesFor(hw.tasks[k], p) :: hw.tasks[k].localVersion != localVersion)
  }

  // ---- which reconciles can still write a credential --------------------------------------------

  /** A listed copy that is for this Home and opens, with the key it was sealed to. */
  predicate Openable(home: string, account: string, link: HomeLink) {
    && HomeSync.ForHome(HomeSync.HomeConfig(home, None), link) && link.copy.value.ciphertext.Cipher?
    && HomeSync.Open(HomeSync.HomeConfig(home, Some(link.copy.value.ciphertext.body.key)), account, link).Ok?
  }

  /** A listed copy of the provider's that would be stored over what was read. */
  predicate Overwrites(home: string, account: string, seen: Local, link: HomeLink, p: string) {
    && link.provider == p && Openable(home, account, link)
    && !HomeSync.Own(seen, p) && !HomeSync.Matches(account, seen, link)
  }

  predicate GivenFrom(home: string, links: seq<HomeLink>, next: nat, p: string) {
    exists i | next <= i < |links| ::
      links[i].provider == p && HomeSync.ForHome(HomeSync.HomeConfig(home, None), links[i])
  }

  /** Still working through the links: one of those left would be stored over the credential,
      or none of them keeps it from being removed after them. */
  predicate WritesFrom(home: string, answer: HomeSync.HomeAnswer, seen: Local, next: nat, current: set<string>,
                       p: string)
  {
    || (exists i | next <= i < |answer.links| :: Overwrites(home, answer.account, seen, answer.links[i], p))
    || (HomeSync.Taken(seen, p) && p !in current && !GivenFrom(home, answer.links, next, p))
  }

  /** Working through the removals: the credential is among those left. */
  predicate RemovesFrom(seen: Local, next: nat, current: set<string>, p: string) {
    && HomeSync.Taken(seen, p) && p !in current
    && exists i | next <= i < |Names(seen.mirrors.Keys)| :: Names(seen.mirrors.Keys)[i] == p
  }

  /** A reconcile that has read the Home will write the credential, given the keys to. */
  predicate WillWrite(home: string, t: Task, p: string) {
    match t
    case Taking(answer, seen, next, _, current) => WritesFrom(home, answer, seen, next, current, p)
    case Noting(answer, seen, next, _, current, _) => WritesFrom(home, answer, seen, next + 1, current, p)
    case Removing(seen, next, _, current) => RemovesFrom(seen, next, current, p)
    case Unmarking(seen, next, _, current) => RemovesFrom(seen, next + 1, current, p)
    case _ => false
  }

  function MirrorOf(mirrors: map<string, Mirror>, p: string): Option<Mirror> {
    if p in mirrors then Some(mirrors[p]) else None
  }

  function Only(p: string, mirror: Option<Mirror>): map<string, Mirror> {
    if mirror.Some? then map[p := mirror.value] else map[]
  }

  /** A mirror a reconcile may yet read: the one there is, or one about to be noted. */
  ghost predicate MayRead(hw: HomeWorld, p: string, mirror: Option<Mirror>) {
    || mirror == MirrorOf(hw.local.mirrors, p)
    || exists k | k in hw.tasks && NotesFor(hw.tasks[k], p) :: mirror == Some(Note(hw.tasks[k]))
  }

  /** A reconcile that has read the credentials but not the mirrors can write the credential
      beside some mirror it may read. */
  ghost predicate CanWrite(hw: HomeWorld, home: string, t: Task, p: string) {
    || WillWrite(home, t, p)
    || (t.ReadCreds?
        && exists mirror | MayRead(hw, p, mirror) ::
             WritesFrom(home, t.answer, Local(t.creds, Only(p, mirror)), 0, {}, p))
  }

  ghost predicate NoneCanWrite(hw: HomeWorld, home: string, p: string) {
    forall k | k in hw.tasks :: !CanWrite(hw, home, hw.tasks[k], p)
  }

  /** The person's own on the Home, with no reconcile under way that can still write it. */
  ghost predicate Personal(hw: HomeWorld, home: string, p: string) {
    HomeSync.Held(hw.local, p) && Unnoted(hw, p, hw.local.creds[p].version) && NoneCanWrite(hw, home, p)
  }

  lemma OneKeyOpens(home: string, key: Option<PublicKey>, account: string, link: HomeLink)
    requires HomeSync.ForHome(HomeSync.HomeConfig(home, key), link)
    requires HomeSync.Open(HomeSync.HomeConfig(home, key), account, link).Ok?
    ensures Openable(home, account, link) && key == Some(link.copy.value.ciphertext.body.key)
  {
    hide ValidComponent;
  }

  /** Only what was read of the provider matters. */
  lemma WritesAlike(home: string, answer: HomeSync.HomeAnswer, seen: Local, seen': Local, next: nat,
                    current: set<string>, p: string)
    requires HomeSync.SameLocal(seen, seen', p)
    ensures WritesFrom(home, answer, seen, next, current, p) <==> WritesFrom(home, answer, seen', next, current, p)
  {
    hide Openable, GivenFrom;
    forall i | 0 <= i < |answer.links|
      ensures Overwrites(home, answer.account, seen, answer.links[i], p)
         <==> Overwrites(home, answer.account, seen', answer.links[i], p)
    {
    }
  }

  /** A mirror never keeps from writing what would be written with none. */
  lemma NoMirrorWrites(home: string, answer: HomeSync.HomeAnswer, creds: map<string, Credential>, p: string,
                       mirror: Option<Mirror>)
    requires WritesFrom(home, answer, Local(creds, Only(p, None)), 0, {}, p)
    ensures WritesFrom(home, answer, Local(creds, Only(p, mirror)), 0, {}, p)
  {
    hide Openable, GivenFrom;
    var unseen := Local(creds, Only(p, None));
    var i :| 0 <= i < |answer.links| && Overwrites(home, answer.account, unseen, answer.links[i], p);
    assert Overwrites(home, answer.account, Local(creds, Only(p, mirror)), answer.links[i], p);
  }

  // ---- one action ---------------------------------------------------------------------------

  /** No reconcile notes a version the Home has not had yet. */
  lemma NextIsUnnoted(hw: HomeWorld, p: string, localVersion: nat)
    requires HomeHolds(hw) && (p in hw.local.creds ==> localVersion > hw.local.creds[p].version)
    ensures Unnoted(hw, p, localVersion)
  {
    hide Holds, TrueAnswer, IsPublished;
    assert MirrorTrue(hw.world, hw.local, p);
    forall k | k in hw.tasks && NotesFor(hw.tasks[k], p)
      ensures hw.tasks[k].localVersion != localVersion
    {
      assert TaskTrue(hw.world, hw.local, hw.tasks[k]);
    }
  }

  /** A step that writes the credential is one the reconcile was able to make. */
  lemma WritesIsWill(home: string, key: Option<PublicKey>, t: Task, p: string)
    requires Writes(home, key, t, p)
    ensures WillWrite(home, t, p)
  {
    hide Names, Openable, HomeSync.Open;
    if t.Taking? {
      var link := t.answer.links[t.next];
      OneKeyOpens(home, key, t.answer.account, link);
      assert Overwrites(home, t.answer.account, t.seen, link, p);
    }
  }

  /** A step that does not write the credential leaves it, and notes at most what the
      reconcile was about to note. */
  lemma StepLeaves(home: string, key: Option<PublicKey>, local: Local, t: Task, p: string)
    requires Placed(t) && HomeSync.Held(local, p) && !Writes(home, key, t, p)
    ensures var m := Stepped(home, key, local, t);
            && SameAt(local.creds, m.local.creds, p)
            && (MirrorOf(m.local.mirrors, p) == MirrorOf(local.mirrors, p) || MirrorOf(m.local.mirrors, p) == None
                || (NotesFor(t, p) && MirrorOf(m.local.mirrors, p) == Some(Note(t))))
            && !NotesFor(m.task, p)
  {
    hide Names, HomeSync.Open;
  }

  /** A reconcile only loses chances to write the credential. */
  lemma StepLoses(home: string, key: Option<PublicKey>, local: Local, t: Task, p: string)
    requires Placed(t) && HasSeen(t) && !WillWrite(home, t, p)
    ensures !WillWrite(home, Stepped(home, key, local, t).task, p)
  {
    hide Names, HomeSync.Judge, WritesFrom, RemovesFrom, HomeSync.Taken;
    if t.Taking? {
      if t.next < |t.answer.links| {
        LinkLoses(home, key, t, p);
      } else {
        LinksEndLoses(home, t, p);
      }
    } else if t.Removing? || t.Unmarking? {
      RemovesLess(t.seen, t.next, t.current, p);
    }
  }

  lemma RemovesLess(seen: Local, next: nat, current: set<string>, p: string)
    ensures RemovesFrom(seen, next + 1, current, p) ==> RemovesFrom(seen, next, current, p)
  {
    hide Names, HomeSync.Taken;
  }

  lemma LinksEndLoses(home: string, t: Task, p: string)
    requires t.Taking? && t.next >= |t.answer.links| && !WritesFrom(home, t.answer, t.seen, t.next, t.current, p)
    ensures !RemovesFrom(t.seen, 0, t.current, p)
  {
    hide Names, HomeSync.Taken;
  }

  lemma LinkLoses(home: string, key: Option<PublicKey>, t: Task, p: string)
    requires t.Taking? && t.next < |t.answer.links|
    requires !WritesFrom(home, t.answer, t.seen, t.next, t.current, p)
    ensures var link := t.answer.links[t.next];
            var verdict := HomeSync.Judge(HomeSync.HomeConfig(home, key), t.answer.account, t.seen, link);
            !WritesFrom(home, t.answer, t.seen, t.next + 1, HomeSync.StillGiven(t.current, verdict, link.provider), p)
  {
    hide HomeSync.Open, Overwrites, Openable;
    var link := t.answer.links[t.next];
    if GivenFrom(home, t.answer.links, t.next, p) && !GivenFrom(home, t.answer.links, t.next + 1, p) {
      assert link.provider == p && HomeSync.ForHome(HomeSync.HomeConfig(home, None), link);
    }
  }

  lemma AdvanceUnnoted(hw: HomeWorld, home: string, k: nat, key: Option<PublicKey>, p: string, localVersion: nat)
    requires k in hw.tasks && Placed(hw.tasks[k]) && HomeSync.Held(hw.local, p)
    requires !Writes(home, key, hw.tasks[k], p) && Unnoted(hw, p, localVersion)
    ensures Unnoted(HomeAct(hw, home, Advance(k, key)), p, localVersion)
  {
    hide Stepped, NotesFor, Writes;
    StepLeaves(home, key, hw.local, hw.tasks[k], p);
    NotesPlaced(hw.tasks[k], p);
  }

  lemma NotesPlaced(t: Task, p: string)
    ensures NotesFor(t, p) ==> t.Noting? && Placed(t)
  {
  }

  /** What may be read after a step might have been before, or is nothing. */
  lemma AdvanceReads(hw: HomeWorld, home: string, k: nat, key: Option<PublicKey>, p: string, mirror: Option<Mirror>)
    requires k in hw.tasks && Placed(hw.tasks[k]) && HomeSync.Held(hw.local, p)
    requires !Writes(home, key, hw.tasks[k], p) && MayRead(HomeAct(hw, home, Advance(k, key)), p, mirror)
    ensures MayRead(hw, p, mirror) || mirror == None
  {
    hide Stepped, Writes;
    StepLeaves(home, key, hw.local, hw.tasks[k], p);
  }

  /** A reconcile that reads the credential as it is now, with its version unnoted, reads it
      as the person's own. */
  lemma ReadsOwn(hw: HomeWorld, home: string, answer: HomeSync.HomeAnswer, p: string, mirror: Option<Mirror>)
    requires HomeSync.Held(hw.local, p) && Unnoted(hw, p, hw.local.creds[p].version) && MayRead(hw, p, mirror)
    ensures !WritesFrom(home, answer, Local(hw.local.creds, Only(p, mirror)), 0, {}, p)
  {
    hide Openable, GivenFrom;
    assert HomeSync.Own(Local(hw.local.creds, Only(p, mirror)), p);
  }

  /** The stepped reconcile itself. */
  lemma SteppedCannot(hw: HomeWorld, home: string, k: nat, key: Option<PublicKey>, p: string)
    requires Personal(hw, home, p) && k in hw.tasks && Placed(hw.tasks[k])
    ensures var hw' := HomeAct(hw, home, Advance(k, key));
            !CanWrite(hw', home, hw'.tasks[k], p)
  {
    hide WritesFrom, RemovesFrom, Names, HomeSync.Judge, HomeSync.Taken, Unnoted, MayRead;
    var t, hw' := hw.tasks[k], HomeAct(hw, home, Advance(k, key));
    assert !CanWrite(hw, home, t, p);
    if t.Got? {
      CannotWriteNow(hw, home, k, key, p);
    } else if t.ReadCreds? {
      ReadNow(hw, p);
      WritesAlike(home, t.answer, Local(t.creds, hw.local.mirrors),
                  Local(t.creds, Only(p, MirrorOf(hw.local.mirrors, p))), 0, {}, p);
    } else if HasSeen(t) {
      StepLoses(home, key, hw.local, t, p);
    }
  }

  lemma ReadNow(hw: HomeWorld, p: string)
    ensures MayRead(hw, p, MirrorOf(hw.local.mirrors, p))
  {
  }

  lemma CannotWriteNow(hw: HomeWorld, home: string, k: nat, key: Option<PublicKey>, p: string)
    requires Personal(hw, home, p) && k in hw.tasks && hw.tasks[k].Got?
    ensures var hw' := HomeAct(hw, home, Advance(k, key)); !CanWrite(hw', home, hw'.tasks[k], p)
  {
    hide WritesFrom, NoneCanWrite, MayRead, Unnoted;
    var t, hw' := hw.tasks[k], HomeAct(hw, home, Advance(k, key));
    AdvanceUnnoted(hw, home, k, key, p, hw.local.creds[p].version);
    forall mirror | MayRead(hw', p, mirror)
      ensures !WritesFrom(home, t.answer, Local(hw.local.creds, Only(p, mirror)), 0, {}, p)
    {
      ReadsOwn(hw', home, t.answer, p, mirror);
    }
  }

  /** And every other one. */
  lemma OthersCannot(hw: HomeWorld, hw': HomeWorld, home: string, t: Task, p: string)
    requires !CanWrite(hw, home, t, p)
    requires forall mirror | MayRead(hw', p, mirror) :: MayRead(hw, p, mirror) || mirror == None
    ensures !CanWrite(hw', home, t, p)
  {
    hide WritesFrom, WillWrite, MayRead;
    if t.ReadCreds? {
      ReadNow(hw, p);
      forall mirror | MayRead(hw', p, mirror)
        ensures !WritesFrom(home, t.answer, Local(t.creds, Only(p, mirror)), 0, {}, p)
      {
        if WritesFrom(home, t.answer, Local(t.creds, Only(p, None)), 0, {}, p) {
          NoMirrorWrites(home, t.answer, t.creds, p, MirrorOf(hw.local.mirrors, p));
        }
      }
    }
  }

  lemma AdvancePersonal(hw: HomeWorld, home: string, k: nat, key: Option<PublicKey>, p: string)
    requires Personal(hw, home, p) && k in hw.tasks && Placed(hw.tasks[k])
    ensures Personal(HomeAct(hw, home, Advance(k, key)), home, p)
    ensures SameAt(hw.local.creds, HomeAct(hw, home, Advance(k, key)).local.creds, p)
  {
    hide Stepped, Unnoted, Writes, WillWrite, WritesFrom, MayRead;
    var hw' := HomeAct(hw, home, Advance(k, key));
    assert !CanWrite(hw, home, hw.tasks[k], p);
    if Writes(home, key, hw.tasks[k], p) {
      WritesIsWill(home, key, hw.tasks[k], p);
    }
    StepLeaves(home, key, hw.local, hw.tasks[k], p);
    AdvanceUnnoted(hw, home, k, key, p, hw.local.creds[p].version);
    SteppedCannot(hw, home, k, key, p);
    forall mirror | MayRead(hw', p, mirror)
      ensures MayRead(hw, p, mirror) || mirror == None
    {
      AdvanceReads(hw, home, k, key, p, mirror);
    }
    forall j | j in hw'.tasks && j != k
      ensures !CanWrite(hw', home, hw'.tasks[j], p)
    {
      OthersCannot(hw, hw', home, hw.tasks[j], p);
    }
  }

  /** An action other than unlinking it leaves what is the person's own theirs, and only
      their linking it anew changes it. */
  lemma ActPersonal(hw: HomeWorld, home: string, a: HomeAction, p: string)
    requires HomeHolds(hw) && Personal(hw, home, p) && a != UnlinkOnHome(p)
    ensures Personal(HomeAct(hw, home, a), home, p)
    ensures !(a.LinkOnHome? && a.provider == p) ==> SameAt(hw.local.creds, HomeAct(hw, home, a).local.creds, p)
  {
    hide HomeHolds, Act, Stepped, Answer, Placed, Unnoted, NoneCanWrite;
    match a {
      case Advance(k, key) =>
        if k in hw.tasks && Placed(hw.tasks[k]) {
          AdvancePersonal(hw, home, k, key, p);
        }
      case LinkOnHome(q, secret, baseUrl, classes) =>
        if q == p {
          LinkedIsPersonal(hw, home, p, secret, baseUrl, classes);
        } else {
          SawAlike(hw, HomeAct(hw, home, a), home, p);
        }
      case UnlinkOnHome(_) => SawAlike(hw, HomeAct(hw, home, a), home, p);
      case Elsewhere(_) => SawAlike(hw, HomeAct(hw, home, a), home, p);
      case Ask(_) => FewerPersonal(hw, home, a, p);
      case Restart => FewerPersonal(hw, home, a, p);
    }
  }

  lemma SawAlike(hw: HomeWorld, hw': HomeWorld, home: string, p: string)
    requires hw'.tasks == hw.tasks && hw'.local.mirrors == hw.local.mirrors
    ensures forall v :: Unnoted(hw, p, v) <==> Unnoted(hw', p, v)
    ensures NoneCanWrite(hw, home, p) <==> NoneCanWrite(hw', home, p)
  {
    hide WritesFrom, WillWrite;
    forall v
      ensures Unnoted(hw, p, v) <==> Unnoted(hw', p, v)
    {
    }
    forall mirror
      ensures MayRead(hw, p, mirror) <==> MayRead(hw', p, mirror)
    {
    }
    forall k | k in hw.tasks
      ensures CanWrite(hw, home, hw.tasks[k], p) <==> CanWrite(hw', home, hw.tasks[k], p)
    {
    }
  }

  /** A reconcile that starts, or all of them stopping. */
  lemma FewerPersonal(hw: HomeWorld, home: string, a: HomeAction, p: string)
    requires Personal(hw, home, p) && (a.Ask? || a.Restart?)
    ensures Personal(HomeAct(hw, home, a), home, p)
  {
    hide Answer, WritesFrom, Placed;
    var hw' := HomeAct(hw, home, a);
    forall mirror | MayRead(hw', p, mirror)
      ensures MayRead(hw, p, mirror)
    {
    }
    forall k | k in hw'.tasks
      ensures !CanWrite(hw', home, hw'.tasks[k], p)
    {
      if !hw'.tasks[k].Got? {
        assert !CanWrite(hw, home, hw.tasks[k], p);
        OthersCannot(hw, hw', home, hw.tasks[k], p);
      }
    }
  }

  lemma LinkedIsPersonal(hw: HomeWorld, home: string, p: string, secret: string, baseUrl: string,
                         classes: set<ExecutionClass>)
    requires HomeHolds(hw)
    ensures var hw' := HomeAct(hw, home, LinkOnHome(p, secret, baseUrl, classes));
            && HomeSync.Held(hw'.local, p) && Unnoted(hw', p, hw'.local.creds[p].version)
            && (NoneCanWrite(hw', home, p) <==> NoneCanWrite(hw, home, p))
  {
    hide HomeHolds, Unnoted, NoneCanWrite;
    var hw' := HomeAct(hw, home, LinkOnHome(p, secret, baseUrl, classes));
    NextIsUnnoted(hw, p, hw'.local.creds[p].version);
    SawAlike(hw, hw', home, p);
  }

  // ---- over runs ------------------------------------------------------------------------------

  predicate Leaves(actions: seq<HomeAction>, p: string) {
    forall a | a in actions :: a != UnlinkOnHome(p)
  }

  predicate Relinks(actions: seq<HomeAction>, p: string) {
    exists a | a in actions :: a.LinkOnHome? && a.provider == p
  }

  /** The person does nothing about the provider on this Home. */
  predicate Quiet(actions: seq<HomeAction>, p: string) {
    Leaves(actions, p) && !Relinks(actions, p)
  }

  /** Over every run in which the person does not unlink it, a credential of their own on
      the Home stays their own, through any number of reconciles, restarts and changes of
      the account; and unless they link it anew it is the same record at the end. */
  lemma {:induction false} PersonalStays(hw: HomeWorld, home: string, actions: seq<HomeAction>, p: string)
    requires HomeHolds(hw) && Personal(hw, home, p) && Leaves(actions, p)
    ensures Personal(HomeActs(hw, home, actions), home, p)
    ensures !Relinks(actions, p) ==> SameAt(hw.local.creds, HomeActs(hw, home, actions).local.creds, p)
    decreases |actions|
  {
    hide HomeHolds, Personal, HomeAct;
    if actions != [] {
      var before, last := actions[..|actions| - 1], actions[|actions| - 1];
      assert forall a | a in before :: a in actions;
      assert last in actions;
      PersonalStays(hw, home, before, p);
      HomeRunHolds(hw, home, before);
      ActPersonal(HomeActs(hw, home, before), home, last, p);
    }
  }

  lemma PersonalIsOwn(hw: HomeWorld, home: string, p: string)
    requires Personal(hw, home, p)
    ensures HomeSync.Own(hw.local, p)
  {
  }

  // ---- a reconcile that can write it, does ----------------------------------------------------------

  /** Only steps of one reconcile. */
  predicate AdvancesOf(actions: seq<HomeAction>, k: nat) {
    forall a | a in actions :: a.Advance? && a.task == k
  }

  lemma {:induction false} HomeActsFirst(hw: HomeWorld, home: string, a: HomeAction, rest: seq<HomeAction>)
    ensures HomeActs(hw, home, [a] + rest) == HomeActs(HomeAct(hw, home, a), home, rest)
    decreases |rest|
  {
    hide HomeAct;
    if rest == [] {
      assert [a] + rest == [a] && [a][..0] == [];
    } else {
      HomeActsFirst(hw, home, a, rest[..|rest| - 1]);
      assert ([a] + rest)[..|rest|] == [a] + rest[..|rest| - 1];
    }
  }

  /** A reconcile that will write the credential writes it now, with the right key, or will
      still after a step without one. */
  lemma Approaches(home: string, local: Local, t: Task, p: string) returns (key: Option<PublicKey>)
    requires Placed(t) && WillWrite(home, t, p)
    ensures Writes(home, key, t, p) || (key == None && WillWrite(home, Stepped(home, None, local, t).task, p))
  {
    hide Names, HomeSync.Open, Overwrites;
    key := None;
    if t.Taking? && t.next < |t.answer.links| {
      key := LinkApproaches(home, local, t, p);
    } else if t.Taking? {
      InNames(t.seen, p);
    }
  }

  lemma InNames(seen: Local, p: string)
    requires HomeSync.Taken(seen, p)
    ensures exists i :: 0 <= i < |Names(seen.mirrors.Keys)| && Names(seen.mirrors.Keys)[i] == p
  {
    hide Names;
    assert p in Names(seen.mirrors.Keys);
  }

  lemma LinkApproaches(home: string, local: Local, t: Task, p: string) returns (key: Option<PublicKey>)
    requires t.Taking? && t.next < |t.answer.links| && WillWrite(home, t, p)
    ensures Writes(home, key, t, p) || (key == None && WillWrite(home, Stepped(home, None, local, t).task, p))
  {
    hide HomeSync.Matches, HomeSync.Own, HomeSync.Taken, Overwrites;
    var link := t.answer.links[t.next];
    key := None;
    if Overwrites(home, t.answer.account, t.seen, link, p) {
      OpensNow(home, t, p);
      key := Some(link.copy.value.ciphertext.body.key);
    } else if exists i | t.next <= i < |t.answer.links| ::
                Overwrites(home, t.answer.account, t.seen, t.answer.links[i], p) {
      var i :| t.next <= i < |t.answer.links| && Overwrites(home, t.answer.account, t.seen, t.answer.links[i], p);
      assert i >= t.next + 1;
    }
  }

  lemma OpensNow(home: string, t: Task, p: string)
    requires t.Taking? && t.next < |t.answer.links|
    requires Overwrites(home, t.answer.account, t.seen, t.answer.links[t.next], p)
    ensures t.answer.links[t.next].copy.Some? && t.answer.links[t.next].copy.value.ciphertext.Cipher?
    ensures Writes(home, Some(t.answer.links[t.next].copy.value.ciphertext.body.key), t, p)
  {
    hide HomeSync.Open;
  }

  /** Advanced alone, a reconcile that will write the credential comes to write it, and has
      left it as it was until then. */
  lemma AdvanceToWrite(hw: HomeWorld, home: string, k: nat, p: string)
    returns (steps: seq<HomeAction>, key: Option<PublicKey>)
    requires k in hw.tasks && Placed(hw.tasks[k]) && HomeSync.Held(hw.local, p)
    requires WillWrite(home, hw.tasks[k], p)
    ensures AdvancesOf(steps, k)
    ensures var end := HomeActs(hw, home, steps);
            && k in end.tasks && Placed(end.tasks[k]) && Writes(home, key, end.tasks[k], p)
            && SameAt(hw.local.creds, end.local.creds, p)
    decreases Stage(hw.tasks[k]), Left(hw.tasks[k])
  {
    hide WillWrite, Writes, Stepped, Left, Placed;
    key := Approaches(home, hw.local, hw.tasks[k], p);
    if Writes(home, key, hw.tasks[k], p) {
      steps := [];
    } else {
      var hw' := HomeAct(hw, home, Advance(k, None));
      WillIsSeen(home, hw.tasks[k], p);
      OwnAtTheWrite(home, None, hw.local, hw.tasks[k], p);
      StaysPlaced(home, None, hw.local, hw.tasks[k]);
      Nearer(home, None, hw.local, hw.tasks[k]);
      var rest;
      rest, key := AdvanceToWrite(hw', home, k, p);
      steps := [Advance(k, None)] + rest;
      HomeActsFirst(hw, home, Advance(k, None), rest);
    }
  }

  lemma WillIsSeen(home: string, t: Task, p: string)
    requires WillWrite(home, t, p)
    ensures HasSeen(t)
  {
  }

  /** A reconcile that can write the credential, and perhaps the note it waits for, advanced
      to the write. */
  lemma ComesToWrite(hw: HomeWorld, home: string, k: nat, p: string)
    returns (steps: seq<HomeAction>, key: Option<PublicKey>)
    requires HomeHolds(hw) && HomeSync.Held(hw.local, p) && k in hw.tasks && CanWrite(hw, home, hw.tasks[k], p)
    ensures forall a | a in steps :: a.Advance?
    ensures var end := HomeActs(hw, home, steps);
            && k in end.tasks && Placed(end.tasks[k]) && Writes(home, key, end.tasks[k], p)
            && SameAt(hw.local.creds, end.local.creds, p)
  {
    hide HomeHolds, WillWrite, WritesFrom, Writes, Placed, MayRead, HomeActs;
    TaskIsPlaced(hw, k);
    if WillWrite(home, hw.tasks[k], p) {
      steps, key := AdvanceToWrite(hw, home, k, p);
    } else {
      var t := hw.tasks[k];
      var mirror :| MayRead(hw, p, mirror) && WritesFrom(home, t.answer, Local(t.creds, Only(p, mirror)), 0, {}, p);
      if mirror == MirrorOf(hw.local.mirrors, p) {
        steps, key := ReadsAndWrites(hw, home, k, p);
      } else {
        var j := Noted(hw, p, mirror);
        TaskIsPlaced(hw, j);
        var noted := HomeAct(hw, home, Advance(j, None));
        NoteIsRead(hw, home, j, p);
        steps, key := ReadsAndWrites(noted, home, k, p);
        HomeActsFirst(hw, home, Advance(j, None), steps);
        steps := [Advance(j, None)] + steps;
      }
    }
  }

  lemma Noted(hw: HomeWorld, p: string, mirror: Option<Mirror>) returns (j: nat)
    requires MayRead(hw, p, mirror) && mirror != MirrorOf(hw.local.mirrors, p)
    ensures j in hw.tasks && NotesFor(hw.tasks[j], p) && mirror == Some(Note(hw.tasks[j]))
  {
    j :| j in hw.tasks && NotesFor(hw.tasks[j], p) && mirror == Some(Note(hw.tasks[j]));
  }

  lemma NoteIsRead(hw: HomeWorld, home: string, j: nat, p: string)
    requires j in hw.tasks && NotesFor(hw.tasks[j], p)
    ensures var noted := HomeAct(hw, home, Advance(j, None));
            && noted.local.creds == hw.local.creds
            && MirrorOf(noted.local.mirrors, p) == Some(Note(hw.tasks[j]))
            && noted.tasks.Keys == hw.tasks.Keys && forall k | k in hw.tasks && k != j :: noted.tasks[k] == hw.tasks[k]
  {
  }

  lemma ReadsAndWrites(hw: HomeWorld, home: string, k: nat, p: string)
    returns (steps: seq<HomeAction>, key: Option<PublicKey>)
    requires k in hw.tasks && hw.tasks[k].ReadCreds? && HomeSync.Held(hw.local, p)
    requires WritesFrom(home, hw.tasks[k].answer,
                        Local(hw.tasks[k].creds, Only(p, MirrorOf(hw.local.mirrors, p))), 0, {}, p)
    ensures AdvancesOf(steps, k)
    ensures var end := HomeActs(hw, home, steps);
            && k in end.tasks && Placed(end.tasks[k]) && Writes(home, key, end.tasks[k], p)
            && SameAt(hw.local.creds, end.local.creds, p)
  {
    hide WritesFrom, Writes, HomeActs;
    var t := hw.tasks[k];
    var read := HomeAct(hw, home, Advance(k, None));
    WritesAlike(home, t.answer, Local(t.creds, hw.local.mirrors),
                Local(t.creds, Only(p, MirrorOf(hw.local.mirrors, p))), 0, {}, p);
    assert WillWrite(home, read.tasks[k], p);
    var rest;
    rest, key := AdvanceToWrite(read, home, k, p);
    steps := [Advance(k, None)] + rest;
    HomeActsFirst(hw, home, Advance(k, None), rest);
  }

  /** Such a run, with its last step. */
  lemma IsLost(hw: HomeWorld, home: string, k: nat, p: string) returns (after: seq<HomeAction>)
    requires HomeHolds(hw) && HomeSync.Held(hw.local, p) && k in hw.tasks && CanWrite(hw, home, hw.tasks[k], p)
    ensures Quiet(after, p) && !SameAt(hw.local.creds, HomeActs(hw, home, after).local.creds, p)
  {
    hide HomeHolds, CanWrite, Stepped, Writes, Placed;
    var steps, key := ComesToWrite(hw, home, k, p);
    var end := HomeActs(hw, home, steps);
    OwnAtTheWrite(home, key, end.local, end.tasks[k], p);
    after := steps + [Advance(k, key)];
    assert after[..|steps|] == steps;
  }

  /** A credential held with its version unnoted is the same record after everything that
      can happen without the person, exactly where no reconcile under way can still write
      it. */
  lemma OutlivesExactly(hw: HomeWorld, home: string, p: string)
    requires HomeHolds(hw) && HomeSync.Held(hw.local, p) && Unnoted(hw, p, hw.local.creds[p].version)
    ensures (forall after | Quiet(after, p) ::
               SameAt(hw.local.creds, HomeActs(hw, home, after).local.creds, p)
               && HomeSync.Own(HomeActs(hw, home, after).local, p))
       <==> NoneCanWrite(hw, home, p)
  {
    hide HomeHolds, HomeActs, CanWrite, Unnoted, HomeSync.Own;
    if NoneCanWrite(hw, home, p) {
      forall after | Quiet(after, p)
        ensures SameAt(hw.local.creds, HomeActs(hw, home, after).local.creds, p)
        ensures HomeSync.Own(HomeActs(hw, home, after).local, p)
      {
        PersonalStays(hw, home, after, p);
        PersonalIsOwn(HomeActs(hw, home, after), home, p);
      }
    } else {
      var k :| k in hw.tasks && CanWrite(hw, home, hw.tasks[k], p);
      var after := IsLost(hw, home, k, p);
    }
  }

  /** From a Home that held nothing, whatever came before: a credential the person links
      there is the same record, and theirs, after everything but their unlinking it or
      linking it anew, if and only if no reconcile under way when they linked it could still
      come to write it. */
  lemma LinkedOutlives(w: World, home: string, before: seq<HomeAction>, p: string, secret: string, baseUrl: string,
                       classes: set<ExecutionClass>)
    requires Fresh(w)
    ensures var hw := HomeActs(NewHome(w), home, before);
            var linked := HomeAct(hw, home, LinkOnHome(p, secret, baseUrl, classes));
            (forall after | Quiet(after, p) ::
               SameAt(linked.local.creds, HomeActs(linked, home, after).local.creds, p)
               && HomeSync.Own(HomeActs(linked, home, after).local, p))
            <==> NoneCanWrite(hw, home, p)
  {
    hide HomeActs, HomeHolds, NoneCanWrite, Unnoted, HomeSync.Own;
    var hw := HomeActs(NewHome(w), home, before);
    NewHomeHolds(w);
    HomeRunHolds(NewHome(w), home, before);
    LinkedIsPersonal(hw, home, p, secret, baseUrl, classes);
    HomeActHolds(hw, home, LinkOnHome(p, secret, baseUrl, classes));
    OutlivesExactly(HomeAct(hw, home, LinkOnHome(p, secret, baseUrl, classes)), home, p);
  }

  /** A Home that stops after it stored a link's secret and before it noted the version
      keeps that credential as its person's own: no later reconcile takes it in step or
      removes it, even once the account gives the Home nothing. */
  lemma StoppedStoreStays(hw: HomeWorld, home: string, k: nat, key: Option<PublicKey>, after: seq<HomeAction>)
    requires HomeHolds(hw) && k in hw.tasks && hw.tasks[k].Taking? && hw.tasks[k].next < |hw.tasks[k].answer.links|
    requires Writes(home, key, hw.tasks[k], hw.tasks[k].answer.links[hw.tasks[k].next].provider)
    requires var p := hw.tasks[k].answer.links[hw.tasks[k].next].provider; Leaves(after, p) && !Relinks(after, p)
    ensures var p := hw.tasks[k].answer.links[hw.tasks[k].next].provider;
            var stopped := HomeAct(HomeAct(hw, home, Advance(k, key)), home, Restart);
            var end := HomeActs(stopped, home, after);
            HomeSync.Own(end.local, p) && SameAt(stopped.local.creds, end.local.creds, p)
  {
    hide HomeHolds, HomeActs, HomeSync.Judge, Placed;
    var p := hw.tasks[k].answer.links[hw.tasks[k].next].provider;
    TaskIsPlaced(hw, k);
    var stored := HomeAct(hw, home, Advance(k, key));
    var stopped := HomeAct(stored, home, Restart);
    NextIsUnnoted(hw, p, stored.local.creds[p].version);
    assert Personal(stopped, home, p);
    HomeActHolds(hw, home, Advance(k, key));
    HomeActHolds(stored, home, Restart);
    PersonalStays(stopped, home, after, p);
    var end := HomeActs(stopped, home, after);
    PersonalIsOwn(end, home, p);
  }

  lemma TaskIsPlaced(hw: HomeWorld, k: nat)
    requires HomeHolds(hw) && k in hw.tasks
    ensures Placed(hw.tasks[k])
  {
    assert TaskTrue(hw.world, hw.local, hw.tasks[k]);
  }
}
