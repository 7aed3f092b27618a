/** Agreement between desktops: any number of desktops, each with any number of threads,
    publish, take and seal against one authority in any interleaving, while people link,
    rotate and unlink locally, the authority admits other commands, and the Hub may stop
    inside any of them. Whatever a desktop's mirror says it holds, it holds. */
module LinkAgreement {
  import opened Base
  import opened Order
  import opened Links
  import opened LinkEffects
  import opened LinkRuns
  import opened LinkLeases
  import opened Seal
  import opened Credentials

  /** Where one thread of a desktop has got to, between two locked or remote steps. */
  datatype Thread =
    | Read(provider: string, localVersion: nat, secret: string, cred: Credential)
    | Current(provider: string, localVersion: nat, secret: string, cred: Credential, current: nat)
    | Ready(provider: string, localVersion: nat, secret: string, cred: Credential, current: nat,
            copies: seq<SealedCopy>)
    | Admitted(provider: string, localVersion: nat, version: nat)
    | Opened(provider: string, version: nat, inside: Secret, baseUrl: string, classes: set<ExecutionClass>)
    | Stored(provider: string, version: nat, inside: Secret, baseUrl: string, classes: set<ExecutionClass>,
             localVersion: nat)
    | Adding(provider: string, version: nat, copies: seq<SealedCopy>)

  /** A provider and a version of something. */
  datatype At = At(provider: string, version: nat)

  /** One desktop: its credentials and mirrors, its recipient key, its threads, and the
      secret each local version was made with. */
  datatype Desk = Desk(local: Local, key: PublicKey, threads: map<nat, Thread>, made: map<At, string>)

  /** The account: the authority's links, the desktops, and the secret each version of a
      link was published with. */
  datatype World = World(account: string, hub: LinkSet, desks: map<string, Desk>, published: map<At, Secret>)

  datatype Action =
    | LinkHere(desk: string, provider: string, secret: string, baseUrl: string, classes: set<ExecutionClass>)
    | UnlinkHere(desk: string, provider: string)
    | DropMirror(desk: string, provider: string)
    | NewKey(desk: string, key: PublicKey)
    | ReadLocal(desk: string, thread: nat, provider: string)
    | ReadCurrent(desk: string, thread: nat)
    | SealForRecipients(desk: string, thread: nat)
    | PutVersion(desk: string, thread: nat, now: nat, written: nat, answered: bool)
    | FetchCopy(desk: string, thread: nat, provider: string)
    | StoreTaken(desk: string, thread: nat)
    | WriteMirror(desk: string, thread: nat)
    | SealForWaiting(desk: string, thread: nat, waiting: set<string>)
    | AddForWaiting(desk: string, thread: nat, now: nat, written: nat)
    | PutElsewhere(provider: string, inside: Secret, baseUrl: string, authentication: Authentication,
                   classes: set<ExecutionClass>, now: nat, written: nat)
    | AuthorityDoes(step: Step)

  function SetThread(w: World, desk: string, thread: nat, t: Thread): World
    requires desk in w.desks
  {
    w.(desks := w.desks[desk := w.desks[desk].(threads := w.desks[desk].threads[thread := t])])
  }

  function SetLocal(w: World, desk: string, local: Local): World
    requires desk in w.desks
  {
    w.(desks := w.desks[desk := w.desks[desk].(local := local)])
  }

  function RecipientsNow(s: LinkSet): seq<string> {
    Names(s.AllRecipients().Keys)
  }

  function PutOf(cred: Credential, current: nat, copies: seq<SealedCopy>): PutRequest {
    PutRequest(current, cred.baseUrl, cred.authentication, cred.classes, copies)
  }

  /** Whether a submitted version's record reached the store. */
  predicate Admits(s: LinkSet, c: Command, now: nat, written: nat) {
    Decide(s, c, now).Ok? && written >= 1
  }

  /** The authority moves on; a version whose record reached the store is published,
      whatever else of its command did. */
  function Publish(w: World, hub: LinkSet, at: At, secret: Secret, admitted: bool): World {
    w.(hub := hub, published := if admitted then w.published[at := secret] else w.published)
  }

  function Submit(w: World, c: Command, secret: Secret, now: nat, written: nat): World
    requires c.CmdPut?
  {
    Publish(w, Next(w.hub, Do(c, now, written)), At(c.provider, c.put.expectedVersion + 1), secret,
            Admits(w.hub, c, now, written))
  }

  /** The put of a page, or of the Hub moving what it held before, sealed for the account's
      recipients as they are now. */
  function Elsewhere(w: World, p: string, secret: Secret, baseUrl: string, authentication: Authentication,
                     classes: set<ExecutionClass>): (c: Command)
    ensures c.CmdPut? && c.provider == p
  {
    var current := w.hub.CurrentVersion(p);
    var copies := SealAll(Context(w.account, p, current + 1), secret, w.hub.AllRecipients(), RecipientsNow(w.hub));
    CmdPut(p, None, PutRequest(current, baseUrl, authentication, classes, copies))
  }

  /** Store a secret as the local credential, as linking and taking both do. */
  function Store(desk: Desk, provider: string, secret: string, baseUrl: string, classes: set<ExecutionClass>): Desk {
    var local := Upserted(desk.local, provider, secret, baseUrl, classes);
    desk.(local := local, made := desk.made[At(provider, local.creds[provider].version) := secret])
  }

  /** A thread that read the current version, with its copies sealed for the next. */
  function AsReady(w: World, c: Thread): Thread
    requires c.Current?
  {
    Ready(c.provider, c.localVersion, c.secret, c.cred, c.current,
          SealAll(Context(w.account, c.provider, c.current + 1), Text(c.secret), w.hub.AllRecipients(),
                  RecipientsNow(w.hub)))
  }

  /** A desktop whose thread stored what it opened. */
  function Taken(desk: Desk, thread: nat, o: Thread): Desk
    requires o.Opened? && o.inside.Text?
  {
    var stored := Store(desk, o.provider, o.inside.text, o.baseUrl, o.classes);
    stored.(threads := stored.threads[thread := Stored(o.provider, o.version, o.inside, o.baseUrl, o.classes,
                                                       stored.local.creds[o.provider].version)])
  }

  /** One action. One that does not apply where it is tried changes nothing. */
  function Act(w: World, a: Action): World {
    match a
    case LinkHere(d, p, secret, baseUrl, classes) =>
      if d in w.desks then w.(desks := w.desks[d := Store(w.desks[d], p, secret, baseUrl, classes)]) else w
    case UnlinkHere(d, p) =>
      if d in w.desks then SetLocal(w, d, Removed(w.desks[d].local, p)) else w
    case DropMirror(d, p) =>
      if d in w.desks then SetLocal(w, d, Unmirrored(w.desks[d].local, p)) else w
    case NewKey(d, key) =>
      if d in w.desks then w.(desks := w.desks[d := w.desks[d].(key := key)]) else w
    case ReadLocal(d, t, p) =>
      if d in w.desks && p in w.desks[d].local.creds && w.desks[d].local.creds[p].Usable() then
        var cred := w.desks[d].local.creds[p];
        SetThread(w, d, t, Read(p, cred.version, cred.token.value, cred))
      else w
    case ReadCurrent(d, t) =>
      if d in w.desks && t in w.desks[d].threads && w.desks[d].threads[t].Read? then
        var r := w.desks[d].threads[t];
        SetThread(w, d, t, Current(r.provider, r.localVersion, r.secret, r.cred, w.hub.CurrentVersion(r.provider)))
      else w
    case SealForRecipients(d, t) =>
      if d in w.desks && t in w.desks[d].threads && w.desks[d].threads[t].Current? then
        var c := w.desks[d].threads[t];
        if MakeContext(w.account, c.provider, c.current + 1).Some? then SetThread(w, d, t, AsReady(w, c)) else w
      else w
    case PutVersion(d, t, now, written, answered) =>
      if d in w.desks && t in w.desks[d].threads && w.desks[d].threads[t].Ready? then
        var r := w.desks[d].threads[t];
        var command := CmdPut(r.provider, Some(d), PutOf(r.cred, r.current, r.copies));
        var w' := Submit(w, command, Text(r.secret), now, written);
        if answered && Decide(w.hub, command, now).Ok? && written >= |Decide(w.hub, command, now).value|
        then SetThread(w', d, t, Admitted(r.provider, r.localVersion, r.current + 1))
        else w'.(desks := w'.desks[d := w'.desks[d].(threads := w'.desks[d].threads - {t})])
      else w
    case FetchCopy(d, t, p) =>
      if d in w.desks && w.hub.CopyFor(p, d).Some? then
        var link := w.hub.links[p];
        match MakeContext(w.account, p, link.version)
        case None => w
        case Some(context) =>
          match OpenCopy(context, w.desks[d].key, w.hub.CopyFor(p, d).value)
          case Ok(secret) => SetThread(w, d, t, Opened(p, link.version, secret, link.baseUrl, link.classes))
          case Err(_) => w
      else w
    case StoreTaken(d, t) =>
      if d in w.desks && t in w.desks[d].threads && w.desks[d].threads[t].Opened? && w.desks[d].threads[t].inside.Text?
      then
        var o := w.desks[d].threads[t];
        w.(desks := w.desks[d := Taken(w.desks[d], t, o)])
      else w
    case WriteMirror(d, t) =>
      if d in w.desks && t in w.desks[d].threads then
        match w.desks[d].threads[t]
        case Admitted(p, localVersion, version) =>
          SetLocal(w, d, Mirrored(w.desks[d].local, p, Mirror(w.account, version, localVersion)))
        case Stored(p, version, secret, baseUrl, classes, localVersion) =>
          SetThread(SetLocal(w, d, Mirrored(w.desks[d].local, p, Mirror(w.account, version, localVersion))),
                    d, t, Opened(p, version, secret, baseUrl, classes))
        case _ => w
      else w
    case SealForWaiting(d, t, waiting) =>
      if d in w.desks && t in w.desks[d].threads && w.desks[d].threads[t].Opened? then
        var o := w.desks[d].threads[t];
        match MakeContext(w.account, o.provider, o.version)
        case None => w
        case Some(context) =>
          var names := Names(w.hub.AllRecipients().Keys * waiting);
          SetThread(w, d, t, Adding(o.provider, o.version, SealAll(context, o.inside, w.hub.AllRecipients(), names)))
      else w
    case AddForWaiting(d, t, now, written) =>
      if d in w.desks && t in w.desks[d].threads && w.desks[d].threads[t].Adding? then
        var g := w.desks[d].threads[t];
        w.(hub := Next(w.hub, Do(CmdAdd(g.provider, d, g.version, g.copies), now, written)))
      else w
    case PutElsewhere(p, secret, baseUrl, authentication, classes, now, written) =>
      if MakeContext(w.account, p, w.hub.CurrentVersion(p) + 1).Some?
      then Submit(w, Elsewhere(w, p, secret, baseUrl, authentication, classes), secret, now, written)
      else w
    case AuthorityDoes(step) =>
      if step.Do? && (step.command.CmdPut? || step.command.CmdAdd?) then w else w.(hub := Next(w.hub, step))
  }

  function Acts(w: World, actions: seq<Action>): World
    decreases |actions|
  {
    if actions == [] then w else Acts(Act(w, actions[0]), actions[1..])
  }

  // ---- what always holds ------------------------------------------------------------------

  /** A copy bound to a version of this account's link holds the secret published as it. */
  ghost predicate Truthful(w: World, copy: SealedCopy) {
    copy.ciphertext.Cipher? && copy.ciphertext.body.account == w.account ==>
      var body := copy.ciphertext.body;
      At(body.provider, body.version) in w.published && w.published[At(body.provider, body.version)] == body.secret
  }

  /** A version was published with a secret. */
  ghost predicate IsPublished(w: World, provider: string, version: nat, secret: Secret) {
    At(provider, version) in w.published && w.published[At(provider, version)] == secret
  }

  /** A local version was made with a secret. */
  ghost predicate IsMade(desk: Desk, provider: string, version: nat, secret: string) {
    At(provider, version) in desk.made && desk.made[At(provider, version)] == secret
  }

  /** A local version was made with the secret a version of the link was published with. */
  ghost predicate Matches(w: World, desk: Desk, provider: string, version: nat, localVersion: nat) {
    && At(provider, localVersion) in desk.made
    && IsPublished(w, provider, version, Text(desk.made[At(provider, localVersion)]))
  }

  ghost predicate CopiesFor(w: World, provider: string, version: nat, secret: Secret, copies: seq<SealedCopy>) {
    forall c | c in copies ::
      c.ciphertext.Cipher?
      && c.ciphertext.body.provider == provider && c.ciphertext.body.version == version
      && c.ciphertext.body.secret == secret
  }

  ghost predicate ThreadHolds(w: World, desk: Desk, t: Thread) {
    match t
    case Read(p, v, secret, _) => IsMade(desk, p, v, secret)
    case Current(p, v, secret, _, _) => IsMade(desk, p, v, secret)
    case Ready(p, v, secret, _, current, copies) =>
      IsMade(desk, p, v, secret) && CopiesFor(w, p, current + 1, Text(secret), copies)
    case Admitted(p, v, version) => Matches(w, desk, p, version, v)
    case Opened(p, version, secret, _, _) => IsPublished(w, p, version, secret)
    case Stored(p, version, secret, _, _, v) => IsPublished(w, p, version, secret) && Matches(w, desk, p, version, v)
    case Adding(p, version, copies) => forall c | c in copies :: Truthful(w, c)
  }

  ghost predicate DeskHolds(w: World, desk: Desk) {
    && (forall p | p in desk.local.creds && desk.local.creds[p].Usable() ::
          IsMade(desk, p, desk.local.creds[p].version, desk.local.creds[p].token.value))
    && (forall at | at in desk.made ::
          at.provider in desk.local.creds && at.version <= desk.local.creds[at.provider].version)
    && (forall p | p in desk.local.mirrors ::
          Matches(w, desk, p, desk.local.mirrors[p].version, desk.local.mirrors[p].localVersion))
    && (forall t | t in desk.threads :: ThreadHolds(w, desk, desk.threads[t]))
  }

  ghost predicate HubHolds(w: World) {
    && CrashSafe(w.hub)
    && (forall k | k in w.hub.copies :: Truthful(w, w.hub.copies[k].copy))
    && (forall at | at in w.published :: at.version <= w.hub.CurrentVersion(at.provider))
  }

  ghost predicate Holds(w: World) {
    HubHolds(w) && forall d | d in w.desks :: DeskHolds(w, w.desks[d])
  }

  // ---- publishing only adds versions ------------------------------------------------------

  /** Later, more versions are published and none is published differently. */
  ghost predicate Extends(w: World, w': World) {
    && w'.account == w.account
    && (forall at | at in w.published :: at in w'.published && w'.published[at] == w.published[at])
  }

  lemma DeskExtends(w: World, w': World, desk: Desk)
    requires Extends(w, w') && DeskHolds(w, desk)
    ensures DeskHolds(w', desk)
  {
    forall t | t in desk.threads
      ensures ThreadHolds(w', desk, desk.threads[t])
    {
      assert ThreadHolds(w, desk, desk.threads[t]);
    }
  }

  lemma {:induction false} Provenance(s: LinkSet, facts: seq<LinkFact>, pool: seq<SealedCopy>)
    requires forall f | f in facts :: f.Copy? && f.copy.op == Upsert ==> f.copy.copy in pool
    ensures forall k | k in ApplyAll(s, facts).copies ::
              ApplyAll(s, facts).copies[k].copy in pool
              || (k in s.copies && ApplyAll(s, facts).copies[k] == s.copies[k])
    decreases |facts|
  {
    hide Apply;
    if facts != [] {
      assert facts[0] in facts;
      OneProvenance(s, facts[0], pool);
      Provenance(Apply(s, facts[0]), facts[1..], pool);
    }
  }

  lemma OneProvenance(s: LinkSet, f: LinkFact, pool: seq<SealedCopy>)
    requires f.Copy? && f.copy.op == Upsert ==> f.copy.copy in pool
    ensures forall k | k in Apply(s, f).copies ::
              Apply(s, f).copies[k].copy in pool || (k in s.copies && Apply(s, f).copies[k] == s.copies[k])
  {
  }

  lemma {:induction false} CopyFactsFrom(provider: string, version: nat, copies: seq<SealedCopy>)
    ensures forall f | f in CopyFacts(provider, version, copies) :: f.Copy? && f.copy.copy in copies
  {
    if copies != [] {
      CopyFactsFrom(provider, version, copies[..|copies| - 1]);
      assert forall c | c in copies[..|copies| - 1] :: c in copies;
    }
  }

  lemma VersionFactsFrom(s: LinkSet, link: LinkRecord, kept: seq<SealedCopy>)
    ensures forall f | f in VersionFacts(s, link, kept) :: f.Copy? && f.copy.op == Upsert ==> f.copy.copy in kept
  {
    hide Order.Keys, Tombstones, CopyFacts;
    CopyFactsFrom(link.id, link.version, kept);
    TombstonesDelete(s, Keys(Unreplaced(s, link.id, kept)));
  }

  lemma PutCopies(s: LinkSet, p: string, put: PutRequest, now: nat)
    ensures forall f | f in VersionFacts(s, NewLink(s, p, put, now), KeptBy(s, put)) ::
              f.Copy? && f.copy.op == Upsert ==> f.copy.copy in put.copies
  {
    VersionFactsFrom(s, NewLink(s, p, put, now), KeptBy(s, put));
    KeptProperties(s, ReachesHomes(put.authentication, put.classes), put.copies);
  }

  lemma ForgetWritesNoCopy(s: LinkSet, device: string)
    requires Keyed(s)
    ensures forall f | f in ForgetDevice(s, device) :: f.Copy? ==> f.copy.op == Tombstone
  {
    TombstonesDelete(s, Keys(s.KeysOfDevice(device)));
    LeaseTombstonesTouch(s, Names(LeasesOf(s, device)));
  }

  /** The copies a decision may write are the ones its request carried. */
  lemma DecisionCopies(s: LinkSet, c: Command, now: nat, pool: seq<SealedCopy>)
    requires Keyed(s) && Decide(s, c, now).Ok?
    requires c.CmdPut? ==> pool == c.put.copies
    requires c.CmdAdd? ==> pool == c.copies
    ensures forall f | f in Decide(s, c, now).value :: f.Copy? && f.copy.op == Upsert ==> f.copy.copy in pool
  {
    hide Order.Keys, Tombstones, VersionFacts, CopyFacts, ForgetDevice;
    match c
    case CmdRegister(device, key) => TombstonesDelete(s, Keys(s.KeysOfDevice(device)));
    case CmdPut(p, caller, put) => PutCopies(s, p, put, now);
    case CmdAdd(p, _, version, copies) => CopyFactsFrom(p, version, copies);
    case CmdRevoke(p) =>
      RevokeFacts(s, p, now);
      VersionFactsFrom(s, s.links[p].(status := Revoked, updatedAt := now), []);
    case CmdForget(device) => ForgetWritesNoCopy(s, device);
    case CmdLease(_, _, _) =>
    case CmdCheck(_, _, _, _) =>
    case CmdPurge => TombstonesDelete(s, Keys(s.DepartedKeys()));
  }

  /** Every copy after a step was there before, or came in the step's request. */
  lemma NextCopies(s: LinkSet, step: Step, pool: seq<SealedCopy>)
    requires CrashSafe(s)
    requires step.Do? && step.command.CmdPut? ==> pool == step.command.put.copies
    requires step.Do? && step.command.CmdAdd? ==> pool == step.command.copies
    ensures forall k | k in Next(s, step).copies ::
              Next(s, step).copies[k].copy in pool || (k in s.copies && Next(s, step).copies[k] == s.copies[k])
  {
    if step.Do? && Decide(s, step.command, step.now).Ok? {
      DecisionCopies(s, step.command, step.now, pool);
      Provenance(s, Written(s, step), pool);
    }
  }

  /** A step of the authority that carries only truthful copies keeps what holds of it. */
  lemma HubStep(w: World, step: Step, pool: seq<SealedCopy>)
    requires HubHolds(w)
    requires step.Do? && step.command.CmdPut? ==> pool == step.command.put.copies
    requires step.Do? && step.command.CmdAdd? ==> pool == step.command.copies
    requires forall c | c in pool :: Truthful(w, c)
    ensures HubHolds(w.(hub := Next(w.hub, step)))
  {
    NextSafe(w.hub, step);
    NextCopies(w.hub, step, pool);
    var w' := w.(hub := Next(w.hub, step));
    forall k | k in w'.hub.copies
      ensures Truthful(w', w'.hub.copies[k].copy)
    {
      assert Truthful(w, w'.hub.copies[k].copy);
    }
  }

  /** An admitted put advances the version by one as soon as its first fact is written. */
  lemma PutAdvances(s: LinkSet, c: Command, now: nat, written: nat)
    requires CrashSafe(s)
    requires c.CmdPut? && Decide(s, c, now).Ok? && written >= 1
    ensures Next(s, Do(c, now, written)).CurrentVersion(c.provider) >= s.CurrentVersion(c.provider) + 1
  {
    var facts := Decide(s, c, now).value;
    var link := NewLink(s, c.provider, c.put, now);
    assert facts[0] == Link(link);
    var step := Do(c, now, written);
    var cut := Written(s, step);
    assert cut[0] == facts[0];
    WrittenAdmissible(s, step);
    ApplySafe(s, cut[0]);
    AdmissibleSafe(Apply(s, cut[0]), cut[1..]);
  }

  /** What a step submitting a version comes to, when its record is written. */
  ghost predicate Advanced(s: LinkSet, s': LinkSet, at: At, pool: seq<SealedCopy>) {
    && CrashSafe(s')
    && (forall p :: s.CurrentVersion(p) <= s'.CurrentVersion(p))
    && s.CurrentVersion(at.provider) < at.version <= s'.CurrentVersion(at.provider)
    && (forall k | k in s'.copies :: s'.copies[k].copy in pool || (k in s.copies && s'.copies[k] == s.copies[k]))
  }

  lemma SubmitStep(s: LinkSet, c: Command, now: nat, written: nat)
    requires CrashSafe(s) && c.CmdPut?
    ensures Admits(s, c, now, written) ==>
              Advanced(s, Next(s, Do(c, now, written)), At(c.provider, c.put.expectedVersion + 1), c.put.copies)
    ensures !Admits(s, c, now, written) ==> Next(s, Do(c, now, written)) == s
  {
    if Admits(s, c, now, written) {
      var step := Do(c, now, written);
      assert c.put.expectedVersion == s.CurrentVersion(c.provider);
      PutAdvances(s, c, now, written);
      NextSafe(s, step);
      NextCopies(s, step, c.put.copies);
    } else {
      NothingWritten(s, c, now, written);
    }
  }

  /** Publishing keeps what holds, and publishes the version when its record is written. */
  lemma PublishHolds(w: World, hub: LinkSet, at: At, secret: Secret, pool: seq<SealedCopy>, admitted: bool)
    requires Holds(w)
    requires admitted ==> Advanced(w.hub, hub, at, pool)
    requires !admitted ==> hub == w.hub
    requires CopiesFor(w, at.provider, at.version, secret, pool)
    ensures var w' := Publish(w, hub, at, secret, admitted);
            && Holds(w') && Extends(w, w') && w'.desks == w.desks
            && (admitted ==> IsPublished(w', at.provider, at.version, secret))
  {
    var w' := Publish(w, hub, at, secret, admitted);
    assert admitted ==> at !in w.published;
    forall k | k in hub.copies
      ensures Truthful(w', hub.copies[k].copy)
    {
      if !admitted || hub.copies[k].copy !in pool {
        assert Truthful(w, w.hub.copies[k].copy);
      }
    }
    AllDesksExtend(w, w');
  }

  lemma NothingWritten(s: LinkSet, c: Command, now: nat, written: nat)
    requires !Decide(s, c, now).Ok? || written == 0
    ensures Next(s, Do(c, now, written)) == s
  {
    assert Written(s, Do(c, now, written)) == [];
  }

  // ---- each action keeps it -----------------------------------------------------------------

  /** Replacing one desktop by one that holds, beside an extension, keeps what holds. */
  lemma DeskReplaced(w: World, w': World, d: string, desk: Desk)
    requires Holds(w) && HubHolds(w') && Extends(w, w')
    requires d in w.desks && w'.desks == w.desks[d := desk]
    requires DeskHolds(w', desk)
    ensures Holds(w')
  {
    forall e | e in w'.desks
      ensures DeskHolds(w', w'.desks[e])
    {
      if e != d {
        DeskExtends(w, w', w.desks[e]);
      }
    }
  }

  /** Changing nothing the authority's truth rests on keeps it. */
  lemma HubSame(w: World, w': World)
    requires HubHolds(w)
    requires w'.hub == w.hub && w'.published == w.published && w'.account == w.account
    ensures HubHolds(w') && Extends(w, w')
  {
    forall k | k in w'.hub.copies
      ensures Truthful(w', w'.hub.copies[k].copy)
    {
      assert Truthful(w, w.hub.copies[k].copy);
    }
  }

  lemma StoreHolds(w: World, desk: Desk, provider: string, secret: string, baseUrl: string,
                   classes: set<ExecutionClass>)
    requires DeskHolds(w, desk)
    ensures var desk' := Store(desk, provider, secret, baseUrl, classes);
            DeskHolds(w, desk') && IsMade(desk', provider, desk'.local.creds[provider].version, secret)
            && desk'.threads == desk.threads
  {
    var desk' := Store(desk, provider, secret, baseUrl, classes);
    var at := At(provider, desk'.local.creds[provider].version);
    assert at !in desk.made;
    forall t | t in desk'.threads
      ensures ThreadHolds(w, desk', desk'.threads[t])
    {
      assert ThreadHolds(w, desk, desk.threads[t]);
    }
    forall p | p in desk'.local.mirrors
      ensures Matches(w, desk', p, desk'.local.mirrors[p].version, desk'.local.mirrors[p].localVersion)
    {
      assert Matches(w, desk, p, desk.local.mirrors[p].version, desk.local.mirrors[p].localVersion);
    }
  }

  /** Giving a thread of one desktop a state that holds keeps what holds. */
  lemma ThreadSet(w: World, d: string, thread: nat, t: Thread)
    requires Holds(w) && d in w.desks
    requires ThreadHolds(w, w.desks[d], t)
    ensures Holds(SetThread(w, d, thread, t))
  {
    hide HubHolds;
    var w' := SetThread(w, d, thread, t);
    HubSame(w, w');
    var desk' := w'.desks[d];
    forall i | i in desk'.threads
      ensures ThreadHolds(w, desk', desk'.threads[i])
    {
      assert i != thread ==> ThreadHolds(w, w.desks[d], w.desks[d].threads[i]);
    }
    assert DeskHolds(w, desk');
    DeskExtends(w, w', desk');
    DeskReplaced(w, w', d, desk');
  }

  lemma LocalSet(w: World, d: string, local: Local)
    requires Holds(w) && d in w.desks
    requires DeskHolds(w, w.desks[d].(local := local))
    ensures Holds(SetLocal(w, d, local))
  {
    var w' := SetLocal(w, d, local);
    HubSame(w, w');
    DeskExtends(w, w', w.desks[d].(local := local));
    DeskReplaced(w, w', d, w.desks[d].(local := local));
  }

  lemma SealedCopiesFor(w: World, context: Context, secret: Secret, keys: map<string, PublicKey>, names: seq<string>)
    requires forall n | n in names :: n in keys
    ensures CopiesFor(w, context.provider, context.version, secret, SealAll(context, secret, keys, names))
    ensures IsPublished(w, context.provider, context.version, secret) ==>
              forall c | c in SealAll(context, secret, keys, names) :: Truthful(w, c)
  {
    SealAllProperties(context, secret, keys, names);
  }

  /** The local actions: linking, unlinking, dropping a mirror, changing the key. */
  lemma DeskSet(w: World, d: string, desk: Desk)
    requires Holds(w) && d in w.desks && DeskHolds(w, desk)
    ensures Holds(w.(desks := w.desks[d := desk]))
  {
    hide HubHolds, DeskHolds;
    var w' := w.(desks := w.desks[d := desk]);
    HubSame(w, w');
    DeskExtends(w, w', desk);
    DeskReplaced(w, w', d, desk);
  }

  lemma LocalActionHolds(w: World, a: Action)
    requires Holds(w)
    requires a.LinkHere? || a.UnlinkHere? || a.DropMirror? || a.NewKey?
    ensures Holds(Act(w, a))
  {
    hide HubHolds;
    if a.desk in w.desks {
      var desk := w.desks[a.desk];
      match a
      case LinkHere(d, p, secret, baseUrl, classes) =>
        StoreHolds(w, desk, p, secret, baseUrl, classes);
        DeskSet(w, d, Store(desk, p, secret, baseUrl, classes));
      case UnlinkHere(d, p) =>
        UnlinkHolds(w, desk, p);
        LocalSet(w, d, Removed(desk.local, p));
      case DropMirror(d, p) =>
        SameThreads(w, desk, desk.(local := Unmirrored(desk.local, p)));
        LocalSet(w, d, Unmirrored(desk.local, p));
      case NewKey(d, key) =>
        SameThreads(w, desk, desk.(key := key));
        DeskSet(w, d, desk.(key := key));
    }
  }

  lemma SameThreads(w: World, desk: Desk, desk': Desk)
    requires DeskHolds(w, desk)
    requires desk'.made == desk.made && desk'.threads == desk.threads
    ensures forall t | t in desk'.threads :: ThreadHolds(w, desk', desk'.threads[t])
    ensures forall p, v, l | Matches(w, desk, p, v, l) :: Matches(w, desk', p, v, l)
  {
    forall t | t in desk'.threads
      ensures ThreadHolds(w, desk', desk'.threads[t])
    {
      assert ThreadHolds(w, desk, desk.threads[t]);
    }
  }

  lemma UnlinkHolds(w: World, desk: Desk, p: string)
    requires DeskHolds(w, desk)
    ensures DeskHolds(w, desk.(local := Removed(desk.local, p)))
  {
    SameThreads(w, desk, desk.(local := Removed(desk.local, p)));
  }

  /** Reading on the way to publishing. */
  lemma ReadingHolds(w: World, a: Action)
    requires Holds(w)
    requires a.ReadLocal? || a.ReadCurrent?
    ensures Holds(Act(w, a))
  {
    var w' := Act(w, a);
    if w' != w {
      if a.ReadCurrent? {
        assert ThreadHolds(w, w.desks[a.desk], w.desks[a.desk].threads[a.thread]);
      }
      ThreadSet(w, a.desk, a.thread, w'.desks[a.desk].threads[a.thread]);
    }
  }

  lemma AsReadyHolds(w: World, desk: Desk, c: Thread)
    requires c.Current? && ThreadHolds(w, desk, c)
    ensures ThreadHolds(w, desk, AsReady(w, c))
  {
    hide Names, SealAll, CopiesFor, LinkSet.AllRecipients, Truthful;
    SealedCopiesFor(w, Context(w.account, c.provider, c.current + 1), Text(c.secret), w.hub.AllRecipients(),
                    RecipientsNow(w.hub));
  }

  lemma SealForRecipientsHolds(w: World, a: Action)
    requires Holds(w) && a.SealForRecipients?
    ensures Holds(Act(w, a))
  {
    hide AsReady;
    if a.desk in w.desks && a.thread in w.desks[a.desk].threads && w.desks[a.desk].threads[a.thread].Current? {
      var c := w.desks[a.desk].threads[a.thread];
      assert ThreadHolds(w, w.desks[a.desk], c);
      AsReadyHolds(w, w.desks[a.desk], c);
      ThreadSet(w, a.desk, a.thread, AsReady(w, c));
    }
  }

  lemma HubIsSafe(w: World)
    requires Holds(w)
    ensures CrashSafe(w.hub)
  {
  }

  lemma SubmitHolds(w: World, c: Command, secret: Secret, now: nat, written: nat)
    requires Holds(w) && c.CmdPut?
    requires CopiesFor(w, c.provider, c.put.expectedVersion + 1, secret, c.put.copies)
    ensures var w' := Submit(w, c, secret, now, written);
            && Holds(w') && w'.desks == w.desks
            && (Admits(w.hub, c, now, written) ==> IsPublished(w', c.provider, c.put.expectedVersion + 1, secret))
  {
    hide Decide, Next, Holds, CopiesFor, Advanced, CrashSafe;
    HubIsSafe(w);
    SubmitStep(w.hub, c, now, written);
    PublishHolds(w, Next(w.hub, Do(c, now, written)), At(c.provider, c.put.expectedVersion + 1), secret,
                 c.put.copies, Admits(w.hub, c, now, written));
  }

  lemma PutWrites(s: LinkSet, c: Command, now: nat)
    requires c.CmdPut? && Decide(s, c, now).Ok?
    ensures |Decide(s, c, now).value| >= 1
  {
  }

  lemma PutVersionHolds(w: World, a: Action)
    requires Holds(w) && a.PutVersion?
    ensures Holds(Act(w, a))
  {
    hide Decide, Next, CopiesFor, HubHolds;
    if a.desk in w.desks && a.thread in w.desks[a.desk].threads && w.desks[a.desk].threads[a.thread].Ready? {
      var r := w.desks[a.desk].threads[a.thread];
      var c := CmdPut(r.provider, Some(a.desk), PutOf(r.cred, r.current, r.copies));
      assert ThreadHolds(w, w.desks[a.desk], r);
      SubmitHolds(w, c, Text(r.secret), a.now, a.written);
      var w1 := Submit(w, c, Text(r.secret), a.now, a.written);
      if a.answered && Decide(w.hub, c, a.now).Ok? && a.written >= |Decide(w.hub, c, a.now).value| {
        PutWrites(w.hub, c, a.now);
        ThreadSet(w1, a.desk, a.thread, Admitted(r.provider, r.localVersion, r.current + 1));
      } else {
        ThreadGone(w1, a.desk, a.thread);
      }
    }
  }

  lemma AllDesksExtend(w: World, w': World)
    requires Holds(w) && HubHolds(w') && Extends(w, w') && w'.desks == w.desks
    ensures Holds(w')
  {
    forall d | d in w'.desks
      ensures DeskHolds(w', w'.desks[d])
    {
      DeskExtends(w, w', w.desks[d]);
    }
  }

  lemma ThreadGone(w: World, d: string, thread: nat)
    requires Holds(w) && d in w.desks
    ensures Holds(w.(desks := w.desks[d := w.desks[d].(threads := w.desks[d].threads - {thread})]))
  {
    hide HubHolds;
    var desk := w.desks[d].(threads := w.desks[d].threads - {thread});
    var w' := w.(desks := w.desks[d := desk]);
    HubSame(w, w');
    forall t | t in desk.threads
      ensures ThreadHolds(w, desk, desk.threads[t])
    {
      assert ThreadHolds(w, w.desks[d], w.desks[d].threads[t]);
    }
    DeskExtends(w, w', desk);
    DeskReplaced(w, w', d, desk);
  }

  /** What a copy the authority serves opens to was published as the version served. */
  lemma FetchedIsPublished(w: World, p: string, desk: string, key: PublicKey, secret: Secret)
    requires Holds(w) && w.hub.CopyFor(p, desk).Some?
    requires OpenCopy(Context(w.account, p, w.hub.links[p].version), key, w.hub.CopyFor(p, desk).value) == Ok(secret)
    ensures IsPublished(w, p, w.hub.links[p].version, secret)
  {
    hide ValidComponent;
    var copy := w.hub.CopyFor(p, desk).value;
    assert copy == w.hub.copies[CopyKey(p, desk)].copy;
    assert Truthful(w, copy);
  }

  lemma FetchHolds(w: World, a: Action)
    requires Holds(w) && a.FetchCopy?
    ensures Holds(Act(w, a))
  {
    hide Holds, OpenCopy, ValidComponent;
    if Act(w, a) != w {
      var link := w.hub.links[a.provider];
      var context := MakeContext(w.account, a.provider, link.version).value;
      var secret := OpenCopy(context, w.desks[a.desk].key, w.hub.CopyFor(a.provider, a.desk).value).value;
      FetchedIsPublished(w, a.provider, a.desk, w.desks[a.desk].key, secret);
      ThreadSet(w, a.desk, a.thread, Opened(a.provider, link.version, secret, link.baseUrl, link.classes));
    }
  }

  lemma TakenHolds(w: World, desk: Desk, thread: nat, o: Thread)
    requires o.Opened? && o.inside.Text?
    requires DeskHolds(w, desk) && ThreadHolds(w, desk, o)
    ensures DeskHolds(w, Taken(desk, thread, o))
  {
    StoreHolds(w, desk, o.provider, o.inside.text, o.baseUrl, o.classes);
    var stored := Store(desk, o.provider, o.inside.text, o.baseUrl, o.classes);
    var taken := Taken(desk, thread, o);
    forall i | i in taken.threads
      ensures ThreadHolds(w, taken, taken.threads[i])
    {
      assert i != thread ==> ThreadHolds(w, stored, stored.threads[i]);
    }
  }

  lemma StoreTakenHolds(w: World, a: Action)
    requires Holds(w) && a.StoreTaken?
    ensures Holds(Act(w, a))
  {
    hide Taken, HubHolds;
    var w' := Act(w, a);
    if w' != w {
      var desk := w.desks[a.desk];
      var o := desk.threads[a.thread];
      assert ThreadHolds(w, desk, o);
      TakenHolds(w, desk, a.thread, o);
      HubSame(w, w');
      DeskExtends(w, w', Taken(desk, a.thread, o));
      DeskReplaced(w, w', a.desk, Taken(desk, a.thread, o));
    }
  }

  lemma WriteMirrorHolds(w: World, a: Action)
    requires Holds(w) && a.WriteMirror?
    ensures Holds(Act(w, a))
  {
    hide HubHolds, Holds, IsPublished, CopiesFor, Truthful;
    if a.desk in w.desks && a.thread in w.desks[a.desk].threads {
      var desk := w.desks[a.desk];
      var t := desk.threads[a.thread];
      ThreadIsTrue(w, a.desk, a.thread);
      if t.Admitted? || t.Stored? {
        var mirror := Mirror(w.account, t.version, t.localVersion);
        MirrorSet(w, a.desk, t.provider, mirror);
        if t.Stored? {
          var w' := SetLocal(w, a.desk, Mirrored(desk.local, t.provider, mirror));
          SamePublished(w, w', t.provider, t.version, t.inside);
          ThreadSet(w', a.desk, a.thread,
                    Opened(t.provider, t.version, t.inside, t.baseUrl, t.classes));
        }
      }
    }
  }

  lemma SamePublished(w: World, w': World, p: string, version: nat, secret: Secret)
    requires w'.published == w.published
    ensures IsPublished(w, p, version, secret) <==> IsPublished(w', p, version, secret)
  {
  }

  lemma MirrorSet(w: World, d: string, p: string, mirror: Mirror)
    requires Holds(w) && d in w.desks && Matches(w, w.desks[d], p, mirror.version, mirror.localVersion)
    ensures Holds(SetLocal(w, d, Mirrored(w.desks[d].local, p, mirror)))
  {
    hide HubHolds;
    var desk := w.desks[d];
    var local := Mirrored(desk.local, p, mirror);
    SameThreads(w, desk, desk.(local := local));
    LocalSet(w, d, local);
  }

  lemma ThreadIsTrue(w: World, d: string, t: nat)
    requires Holds(w) && d in w.desks && t in w.desks[d].threads
    ensures ThreadHolds(w, w.desks[d], w.desks[d].threads[t])
  {
    hide HubHolds;
    assert DeskHolds(w, w.desks[d]);
  }

  lemma AddHolds(w: World, step: Step, copies: seq<SealedCopy>)
    requires Holds(w) && step.Do? && step.command.CmdAdd? && step.command.copies == copies
    requires forall c | c in copies :: Truthful(w, c)
    ensures Holds(w.(hub := Next(w.hub, step)))
  {
    hide HubHolds, Next;
    HubStep(w, step, copies);
    AllDesksExtend(w, w.(hub := Next(w.hub, step)));
  }

  lemma SealingHolds(w: World, a: Action)
    requires Holds(w)
    requires a.SealForWaiting? || a.AddForWaiting?
    ensures Holds(Act(w, a))
  {
    hide Holds, Names, SealAll, Decide, Next, ValidComponent, LinkSet.AllRecipients, Truthful;
    if a.desk in w.desks && a.thread in w.desks[a.desk].threads {
      var t := w.desks[a.desk].threads[a.thread];
      ThreadIsTrue(w, a.desk, a.thread);
      if a.SealForWaiting? && t.Opened? && MakeContext(w.account, t.provider, t.version).Some? {
        var context := MakeContext(w.account, t.provider, t.version).value;
        var names := Names(w.hub.AllRecipients().Keys * a.waiting);
        SealedCopiesFor(w, context, t.inside, w.hub.AllRecipients(), names);
        ThreadSet(w, a.desk, a.thread,
                  Adding(t.provider, t.version, SealAll(context, t.inside, w.hub.AllRecipients(), names)));
      } else if a.AddForWaiting? && t.Adding? {
        AddHolds(w, Do(CmdAdd(t.provider, a.desk, t.version, t.copies), a.now, a.written), t.copies);
      }
    }
  }

  lemma ElsewhereSeals(w: World, p: string, secret: Secret, baseUrl: string, authentication: Authentication,
                       classes: set<ExecutionClass>)
    ensures var c := Elsewhere(w, p, secret, baseUrl, authentication, classes);
            CopiesFor(w, p, c.put.expectedVersion + 1, secret, c.put.copies)
  {
    hide Names, CopiesFor, SealAll, LinkSet.AllRecipients, LinkSet.CurrentVersion;
    SealedCopiesFor(w, Context(w.account, p, w.hub.CurrentVersion(p) + 1), secret, w.hub.AllRecipients(),
                    RecipientsNow(w.hub));
  }

  lemma PutElsewhereHolds(w: World, a: Action)
    requires Holds(w) && a.PutElsewhere?
    ensures Holds(Act(w, a))
  {
    hide Submit, Elsewhere, Holds, CopiesFor;
    ElsewhereSeals(w, a.provider, a.inside, a.baseUrl, a.authentication, a.classes);
    var command := Elsewhere(w, a.provider, a.inside, a.baseUrl, a.authentication, a.classes);
    SubmitHolds(w, command, a.inside, a.now, a.written);
  }

  lemma AuthorityHolds(w: World, a: Action)
    requires Holds(w) && a.AuthorityDoes?
    ensures Holds(Act(w, a))
  {
    if !(a.step.Do? && (a.step.command.CmdPut? || a.step.command.CmdAdd?)) {
      HubStep(w, a.step, []);
      AllDesksExtend(w, w.(hub := Next(w.hub, a.step)));
    }
  }

  lemma ActHolds(w: World, a: Action)
    requires Holds(w)
    ensures Holds(Act(w, a))
  {
    if a.LinkHere? || a.UnlinkHere? || a.DropMirror? || a.NewKey? {
      LocalActionHolds(w, a);
    } else if a.ReadLocal? || a.ReadCurrent? {
      ReadingHolds(w, a);
    } else if a.SealForRecipients? {
      SealForRecipientsHolds(w, a);
    } else if a.PutVersion? {
      PutVersionHolds(w, a);
    } else if a.FetchCopy? {
      FetchHolds(w, a);
    } else if a.StoreTaken? {
      StoreTakenHolds(w, a);
    } else if a.WriteMirror? {
      WriteMirrorHolds(w, a);
    } else if a.SealForWaiting? || a.AddForWaiting? {
      SealingHolds(w, a);
    } else if a.PutElsewhere? {
      PutElsewhereHolds(w, a);
    } else {
      AuthorityHolds(w, a);
    }
  }

  lemma {:induction false} RunHolds(w: World, actions: seq<Action>)
    requires Holds(w)
    ensures Holds(Acts(w, actions))
    decreases |actions|
  {
    if actions != [] {
      ActHolds(w, actions[0]);
      RunHolds(Act(w, actions[0]), actions[1..]);
    }
  }

  // ---- agreement ------------------------------------------------------------------------

  /** A world before anything was linked: desktops with keys and nothing else. */
  ghost predicate Fresh(w: World) {
    && w.hub == EmptySet && w.published == map[]
    && forall d | d in w.desks ::
         w.desks[d].local == Local(map[], map[]) && w.desks[d].threads == map[] && w.desks[d].made == map[]
  }

  /** A desktop's credential stands as its mirror says: usable, and not changed since. */
  ghost predicate InStep(w: World, desk: string, provider: string) {
    && desk in w.desks
    && provider in w.desks[desk].local.creds && provider in w.desks[desk].local.mirrors
    && w.desks[desk].local.creds[provider].Usable()
    && w.desks[desk].local.creds[provider].version == w.desks[desk].local.mirrors[provider].localVersion
  }

  /** Agreement: after any interleaving, a desktop in step holds exactly the secret
      published as the version it mirrors. */
  lemma Agreement(w: World, actions: seq<Action>, desk: string, provider: string)
    requires Fresh(w)
    requires InStep(Acts(w, actions), desk, provider)
    ensures var w' := Acts(w, actions);
            var local := w'.desks[desk].local;
            IsPublished(w', provider, local.mirrors[provider].version, Text(local.creds[provider].token.value))
  {
    RunHolds(w, actions);
    assert DeskHolds(Acts(w, actions), Acts(w, actions).desks[desk]);
  }

  /** Two desktops in step at the same version of a link hold the same secret. */
  lemma DesktopsAgree(w: World, actions: seq<Action>, a: string, b: string, provider: string)
    requires Fresh(w)
    requires InStep(Acts(w, actions), a, provider) && InStep(Acts(w, actions), b, provider)
    requires Acts(w, actions).desks[a].local.mirrors[provider].version
             == Acts(w, actions).desks[b].local.mirrors[provider].version
    ensures Acts(w, actions).desks[a].local.creds[provider].token
            == Acts(w, actions).desks[b].local.creds[provider].token
  {
    Agreement(w, actions, a, provider);
    Agreement(w, actions, b, provider);
  }
}
