/** The account authority's provider links: the set it holds for one account, the
    facts it admits, and the decisions that turn a request into facts. */
module Links {
  import opened Base
  import opened Order

  datatype Authentication = Bearer | ApiKey | OAuth

  datatype ExecutionClass = LocalInteractive | PrivateHome | PublicDeployment

  datatype LinkStatus = Active | Revoked

  /** The longest a device may hold a refresh lease, in milliseconds. */
  const MAX_LEASE_MS: nat := 120_000

  /** A recipient key, by identity. */
  type PublicKey = nat

  /** Untrusted key text: only hex that names a point of the curve is a key. */
  datatype KeyText = NotHex | NotAPoint | Point(key: PublicKey)

  datatype Secret = Text(text: string) | Binary(length: nat)

  /** What a copy's ciphertext binds: the link version it is a copy of, the
      recipient it is for, the key it is sealed to, and the secret inside. */
  datatype Sealed = Sealed(account: string, provider: string, version: nat, device: string, key: PublicKey,
                           secret: Secret)

  datatype CipherText = BadHex | Cipher(hexLength: nat, body: Sealed)

  datatype SealedCopy = SealedCopy(deviceId: string, ephemeral: KeyText, ciphertext: CipherText)

  datatype RecipientRecord = RecipientRecord(id: string, op: RecordOp, publicKey: PublicKey, registeredAt: nat)

  datatype LinkRecord = LinkRecord(id: string, op: RecordOp, version: nat, baseUrl: string,
                                   authentication: Authentication, classes: set<ExecutionClass>,
                                   status: LinkStatus, updatedAt: nat)

  datatype CopyRecord = CopyRecord(id: CopyKey, op: RecordOp, provider: string, version: nat, copy: SealedCopy)

  datatype LeaseRecord = LeaseRecord(id: string, op: RecordOp, deviceId: string, expiresAt: nat)

  datatype CheckRecord = CheckRecord(id: string, op: RecordOp, version: nat, deviceId: string,
                                     reachable: bool, checkedAt: nat)

  /** One write the authority admits, appended in order. */
  datatype LinkFact =
    | Recipient(recipient: RecipientRecord)
    | Link(link: LinkRecord)
    | Copy(copy: CopyRecord)
    | Lease(lease: LeaseRecord)
    | Check(check: CheckRecord)

  datatype CopyFault = EphemeralNotHex | CiphertextNotHex | WrongSize | EphemeralNotAPoint | TwoCopies(device: string)

  datatype LinkRefusal =
    | NotADevice
    | InvalidKey
    | InvalidCopy(fault: CopyFault)
    | InvalidClasses
    | NoRecipients
    | Coverage(missing: seq<string>, unexpected: seq<string>)
    | Stale(current: nat)
    | NotFound
    | HomeNotServing
    | LeaseHeld(deviceId: string, expiresAt: nat)

  type Decision = Result<seq<LinkFact>, LinkRefusal>

  /** Whether an id names a hosted Home rather than a trusted device. */
  predicate IsHome(id: string) {
    |id| >= 5 && id[0] == 'h' && id[1] == 'o' && id[2] == 'm' && id[3] == 'e' && id[4] == ':'
  }

  /** Whether a link may be sealed for hosted Homes: it allows their use, and a
      Home would not have to refresh it. */
  predicate ReachesHomes(authentication: Authentication, classes: set<ExecutionClass>) {
    authentication != OAuth && PrivateHome in classes
  }

  /** Everything the authority holds for one account, folded latest-wins by id. */
  datatype LinkSet = LinkSet(
    recipients: map<string, RecipientRecord>,
    links: map<string, LinkRecord>,
    copies: map<CopyKey, CopyRecord>,
    leases: map<string, LeaseRecord>,
    checks: map<string, CheckRecord>,
    activeDevices: set<string>,
    homes: map<string, PublicKey>)
  {
    /** Devices that hold a recipient key and are still trusted. */
    function Recipients(): map<string, PublicKey> {
      map d | d in recipients && d in activeDevices :: recipients[d].publicKey
    }

    /** Every recipient a device seals for. */
    function AllRecipients(): map<string, PublicKey> {
      Recipients() + homes
    }

    predicate LinkActive(provider: string) {
      provider in links && links[provider].status == Active
    }

    predicate LinkReachesHomes(provider: string) {
      LinkActive(provider) && ReachesHomes(links[provider].authentication, links[provider].classes)
    }

    /** Whether a recipient may hold the link's current version. */
    predicate MayHold(provider: string, recipient: string) {
      if IsHome(recipient) then recipient in homes && LinkReachesHomes(provider)
      else recipient in activeDevices
    }

    predicate HasCurrentCopy(provider: string, device: string) {
      LinkActive(provider)
      && CopyKey(provider, device) in copies
      && copies[CopyKey(provider, device)].version == links[provider].version
    }

    /** The recipients still to be sealed for at the current version. */
    function Waiting(provider: string): set<string> {
      if LinkActive(provider) then
        set r | r in AllRecipients() && MayHold(provider, r) && !HasCurrentCopy(provider, r)
      else {}
    }

    /** The recipient's copy of the current version, when it has one. */
    function CopyFor(provider: string, device: string): Option<SealedCopy> {
      if MayHold(provider, device) && HasCurrentCopy(provider, device)
      then Some(copies[CopyKey(provider, device)].copy)
      else None
    }

    function HomesHolding(provider: string): set<string> {
      set h | h in homes && CopyFor(provider, h).Some?
    }

    function CurrentVersion(provider: string): nat {
      if provider in links then links[provider].version else 0
    }

    /** What a device found when it used the current version, if any did. */
    function CheckOf(provider: string): Option<CheckRecord> {
      if provider in links && provider in checks && checks[provider].version == links[provider].version
      then Some(checks[provider]) else None
    }

    function DepartedKeys(): set<CopyKey> {
      set k | k in copies && copies[k].provider in links
              && !MayHold(copies[k].provider, copies[k].copy.deviceId)
    }

    function KeysOfDevice(device: string): set<CopyKey> {
      set k | k in copies && copies[k].copy.deviceId == device
    }

    function KeysOfProvider(provider: string): set<CopyKey> {
      set k | k in copies && copies[k].provider == provider
    }
  }

  const EmptySet := LinkSet(map[], map[], map[], map[], map[], {}, map[])

  /** The link as a hosted Home is told of it, with that Home's copy once sealed. */
  datatype HomeLink = HomeLink(provider: string, version: nat, baseUrl: string,
                               authentication: Authentication, classes: set<ExecutionClass>,
                               copy: Option<SealedCopy>)

  function HomeLinkFor(s: LinkSet, home: string, provider: string): HomeLink
    requires provider in s.links
  {
    var link := s.links[provider];
    HomeLink(provider, link.version, link.baseUrl, link.authentication, link.classes, s.CopyFor(provider, home))
  }

  function HomeLinksInOrder(s: LinkSet, home: string, providers: seq<string>): seq<HomeLink>
    requires forall p | p in providers :: p in s.links
  {
    if providers == [] then []
    else [HomeLinkFor(s, home, providers[0])] + HomeLinksInOrder(s, home, providers[1..])
  }

  /** What a hosted Home holds for the person, or that it does not serve them. */
  function HomeLinksView(s: LinkSet, home: string): Result<seq<HomeLink>, LinkRefusal> {
    if !IsHome(home) || home !in s.homes then Err(HomeNotServing)
    else Ok(HomeLinksInOrder(s, home, Names(set p | p in s.links && s.LinkReachesHomes(p))))
  }

  // ---- folding facts ---------------------------------------------------------

  function Apply(s: LinkSet, fact: LinkFact): LinkSet {
    match fact
    case Recipient(r) => s.(recipients := Fold(s.recipients, r.id, r.op, r))
    case Link(r) => s.(links := Fold(s.links, r.id, r.op, r))
    case Copy(r) => s.(copies := Fold(s.copies, r.id, r.op, r))
    case Lease(r) => s.(leases := Fold(s.leases, r.id, r.op, r))
    case Check(r) => s.(checks := Fold(s.checks, r.id, r.op, r))
  }

  function ApplyAll(s: LinkSet, facts: seq<LinkFact>): LinkSet
    decreases |facts|
  {
    if facts == [] then s else ApplyAll(Apply(s, facts[0]), facts[1..])
  }

  lemma {:induction false} ApplyAllConcat(s: LinkSet, a: seq<LinkFact>, b: seq<LinkFact>)
    ensures ApplyAll(s, a + b) == ApplyAll(ApplyAll(s, a), b)
    decreases |a|
  {
    if a == [] {
      assert a + b == b;
    } else {
      assert (a + b)[1..] == a[1..] + b;
      ApplyAllConcat(Apply(s, a[0]), a[1..], b);
    }
  }

  lemma ApplyAllSnoc(s: LinkSet, facts: seq<LinkFact>, fact: LinkFact)
    ensures ApplyAll(s, facts + [fact]) == Apply(ApplyAll(s, facts), fact)
  {
    ApplyAllConcat(s, facts, [fact]);
    assert [fact][1..] == [];
  }

  // ---- decisions -------------------------------------------------------------

  function CheckCopy(copy: SealedCopy): Option<CopyFault> {
    if copy.ephemeral.NotHex? then Some(EphemeralNotHex)
    else if copy.ciphertext.BadHex? then Some(CiphertextNotHex)
    else if copy.ciphertext.hexLength < 56 || copy.ciphertext.hexLength > 64 * 1024 then Some(WrongSize)
    else if copy.ephemeral.NotAPoint? then Some(EphemeralNotAPoint)
    else None
  }

  /** Tombstones of the records held under the given keys, in that order. */
  function Tombstones(s: LinkSet, keys: seq<CopyKey>): seq<LinkFact>
    requires forall k | k in keys :: k in s.copies
  {
    if keys == [] then []
    else [Copy(s.copies[keys[0]].(op := Tombstone))] + Tombstones(s, keys[1..])
  }

  function DropCopies(s: LinkSet, keys: set<CopyKey>): seq<LinkFact>
    requires keys <= s.copies.Keys
  {
    Tombstones(s, Keys(keys))
  }

  function DropLease(s: LinkSet, provider: string): seq<LinkFact> {
    if provider in s.leases then [Lease(s.leases[provider].(op := Tombstone))] else []
  }

  /** A device registers its own recipient key. */
  function RegisterRecipient(s: LinkSet, device: string, key: KeyText, now: nat): Decision {
    if device !in s.activeDevices then Err(NotADevice)
    else if !key.Point? then Err(InvalidKey)
    else if device in s.recipients && s.recipients[device].publicKey == key.key then Ok([])
    else Ok([Recipient(RecipientRecord(device, Upsert, key.key, now))] + DropCopies(s, s.KeysOfDevice(device)))
  }

  /** A new version of a link, as the linking side submits it. */
  datatype PutRequest = PutRequest(expectedVersion: nat, baseUrl: string, authentication: Authentication,
                                   classes: set<ExecutionClass>, copies: seq<SealedCopy>)

  predicate LeaseBlocks(s: LinkSet, provider: string, caller: Option<string>, now: nat) {
    provider in s.leases && s.leases[provider].expiresAt > now && Some(s.leases[provider].deviceId) != caller
  }

  function SealedFor(copies: seq<SealedCopy>): set<string> {
    set c | c in copies :: c.deviceId
  }

  /** The first fault found reading the copies in order: a malformed copy, or a
      second copy for one recipient. */
  function ScanFault(copies: seq<SealedCopy>): Option<CopyFault> {
    if copies == [] then None
    else
      var before := copies[..|copies| - 1];
      var last := copies[|copies| - 1];
      if ScanFault(before).Some? then ScanFault(before)
      else if CheckCopy(last).Some? then CheckCopy(last)
      else if last.deviceId in SealedFor(before) then Some(TwoCopies(last.deviceId))
      else None
  }

  predicate KeepsCopy(s: LinkSet, toHomes: bool, copy: SealedCopy) {
    IsHome(copy.deviceId) ==> copy.deviceId in s.homes && toHomes
  }

  /** The copies a new version keeps: every device's, and its Homes' when it reaches them. */
  function Kept(s: LinkSet, toHomes: bool, copies: seq<SealedCopy>): seq<SealedCopy> {
    if copies == [] then []
    else
      var before := Kept(s, toHomes, copies[..|copies| - 1]);
      var last := copies[|copies| - 1];
      if KeepsCopy(s, toHomes, last) then before + [last] else before
  }

  /** The Homes named by a copy that do not serve the person. */
  function UnknownHomes(s: LinkSet, copies: seq<SealedCopy>): seq<string> {
    if copies == [] then []
    else
      var before := UnknownHomes(s, copies[..|copies| - 1]);
      var last := copies[|copies| - 1];
      if IsHome(last.deviceId) && last.deviceId !in s.homes then before + [last.deviceId] else before
  }

  function DevicesSealed(copies: seq<SealedCopy>): set<string> {
    set c | c in copies && !IsHome(c.deviceId) :: c.deviceId
  }

  function CopyFact(provider: string, version: nat, copy: SealedCopy): LinkFact {
    Copy(CopyRecord(CopyKey(provider, copy.deviceId), Upsert, provider, version, copy))
  }

  function CopyFacts(provider: string, version: nat, copies: seq<SealedCopy>): seq<LinkFact> {
    if copies == [] then []
    else CopyFacts(provider, version, copies[..|copies| - 1]) + [CopyFact(provider, version, copies[|copies| - 1])]
  }

  /** The copies of earlier versions that the kept ones do not replace. */
  function Unreplaced(s: LinkSet, provider: string, kept: seq<SealedCopy>): set<CopyKey> {
    set k | k in s.KeysOfProvider(provider) && s.copies[k].copy.deviceId !in SealedFor(kept)
  }

  /** The record of the version a request makes. */
  function NewLink(s: LinkSet, provider: string, put: PutRequest, now: nat): LinkRecord {
    LinkRecord(provider, Upsert, s.CurrentVersion(provider) + 1, put.baseUrl, put.authentication, put.classes,
               Active, now)
  }

  function KeptBy(s: LinkSet, put: PutRequest): seq<SealedCopy> {
    Kept(s, ReachesHomes(put.authentication, put.classes), put.copies)
  }

  /** The writes that make a new version: its record, its copies, then the tombstones. */
  function VersionFacts(s: LinkSet, link: LinkRecord, kept: seq<SealedCopy>): seq<LinkFact> {
    [Link(link)]
    + CopyFacts(link.id, link.version, kept)
    + DropCopies(s, Unreplaced(s, link.id, kept))
    + DropLease(s, link.id)
  }

  /** Admit a new version of a link. The caller is the device making it, if one does. */
  function PutLink(s: LinkSet, provider: string, caller: Option<string>, put: PutRequest, now: nat): Decision {
    var current := s.CurrentVersion(provider);
    var expected := s.Recipients().Keys;
    if put.expectedVersion != current then Err(Stale(current))
    else if LeaseBlocks(s, provider, caller, now) then
      Err(LeaseHeld(s.leases[provider].deviceId, s.leases[provider].expiresAt))
    else if put.classes == {} || PublicDeployment in put.classes then Err(InvalidClasses)
    else if expected == {} then Err(NoRecipients)
    else if ScanFault(put.copies).Some? then Err(InvalidCopy(ScanFault(put.copies).value))
    else
      var sealed := DevicesSealed(put.copies);
      var unknown := UnknownHomes(s, put.copies);
      if sealed != expected || unknown != [] then
        Err(Coverage(Names(expected - sealed), Names(sealed - expected) + unknown))
      else Ok(VersionFacts(s, NewLink(s, provider, put, now), KeptBy(s, put)))
  }

  /** What adding copies one by one comes to: the recipients left waiting, or the refusal. */
  function AddFrom(waiting: set<string>, copies: seq<SealedCopy>): Result<set<string>, LinkRefusal> {
    if copies == [] then Ok(waiting)
    else
      var before := AddFrom(waiting, copies[..|copies| - 1]);
      var last := copies[|copies| - 1];
      if before.Err? then before
      else if CheckCopy(last).Some? then Err(InvalidCopy(CheckCopy(last).value))
      else if last.deviceId !in before.value then Err(Coverage([], [last.deviceId]))
      else Ok(before.value - {last.deviceId})
  }

  /** A device that holds the link seals it for recipients still waiting. */
  function AddCopies(s: LinkSet, provider: string, version: nat, copies: seq<SealedCopy>): Decision {
    if !s.LinkActive(provider) then Err(NotFound)
    else if version != s.links[provider].version then Err(Stale(s.links[provider].version))
    else
      var added := AddFrom(s.Waiting(provider), copies);
      if added.Err? then Err(added.error) else Ok(CopyFacts(provider, version, copies))
  }

  /** Revoke a link: keep its record as revoked, delete every copy. */
  function RevokeLink(s: LinkSet, provider: string, now: nat): Decision {
    if provider !in s.links then Err(NotFound)
    else Ok([Link(s.links[provider].(status := Revoked, updatedAt := now))]
            + DropCopies(s, s.KeysOfProvider(provider))
            + DropLease(s, provider))
  }

  function LeaseTombstones(s: LinkSet, providers: seq<string>): seq<LinkFact>
    requires forall p | p in providers :: p in s.leases
  {
    if providers == [] then []
    else [Lease(s.leases[providers[0]].(op := Tombstone))] + LeaseTombstones(s, providers[1..])
  }

  /** Revoking a trusted device: delete its copies and key, and free its leases. */
  function ForgetDevice(s: LinkSet, device: string): seq<LinkFact> {
    DropCopies(s, s.KeysOfDevice(device))
    + (if device in s.recipients then [Recipient(s.recipients[device].(op := Tombstone))] else [])
    + LeaseTombstones(s, Names(set p | p in s.leases && s.leases[p].deviceId == device))
  }

  function Clamp(ttl: nat): nat {
    if ttl < 1 then 1 else if ttl > MAX_LEASE_MS then MAX_LEASE_MS else ttl
  }

  /** Take the refresh lease of a link; another device may only once it has expired. */
  function TakeLease(s: LinkSet, provider: string, device: string, ttl: nat, now: nat): Decision {
    if device !in s.activeDevices then Err(NotADevice)
    else if !s.LinkActive(provider) then Err(NotFound)
    else if LeaseBlocks(s, provider, Some(device), now) then
      Err(LeaseHeld(s.leases[provider].deviceId, s.leases[provider].expiresAt))
    else Ok([Lease(LeaseRecord(provider, Upsert, device, now + Clamp(ttl)))])
  }

  /** A device that holds the current version records whether its key is accepted. */
  function RecordCheck(s: LinkSet, provider: string, device: string, version: nat, reachable: bool, now: nat)
    : Decision
  {
    if !s.LinkActive(provider) then Err(NotFound)
    else if version != s.links[provider].version then Err(Stale(s.links[provider].version))
    else if s.CopyFor(provider, device).None? then Err(NotADevice)
    else Ok([Check(CheckRecord(provider, Upsert, version, device, reachable, now))])
  }

  /** The copies nobody may hold any more, deleted when the account is next read. */
  function DepartedCopies(s: LinkSet): seq<LinkFact> {
    DropCopies(s, s.DepartedKeys())
  }
}
