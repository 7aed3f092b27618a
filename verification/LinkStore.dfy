/** The authority's half as it runs: the account's append-only log, the projection read
    back from it one record kind at a time, and the decisions with the loops that make
    them. Each is proved equal to the function of the same name in `Links`. */
module LinkStore {
  import opened Base
  import opened Order
  import opened Links
  import opened LinkEffects
  import opened LinkRuns

  // ---- reading the log back kind by kind -------------------------------------------------

  /** One stored record of some kind: the id it folds under, its operation and itself. */
  datatype Row<K, V> = Row(id: K, op: RecordOp, record: V)

  /** Latest-wins over the rows of one kind, in stored order. */
  function FoldRows<K, V>(rows: seq<Row<K, V>>): map<K, V> {
    if rows == [] then map[]
    else
      var last := rows[|rows| - 1];
      Fold(FoldRows(rows[..|rows| - 1]), last.id, last.op, last.record)
  }

  function RecipientRows(log: seq<LinkFact>): seq<Row<string, RecipientRecord>> {
    if log == [] then []
    else
      var before := RecipientRows(log[..|log| - 1]);
      match log[|log| - 1]
      case Recipient(r) => before + [Row(r.id, r.op, r)]
      case _ => before
  }

  function LinkRows(log: seq<LinkFact>): seq<Row<string, LinkRecord>> {
    if log == [] then []
    else
      var before := LinkRows(log[..|log| - 1]);
      match log[|log| - 1]
      case Link(r) => before + [Row(r.id, r.op, r)]
      case _ => before
  }

  function CopyRows(log: seq<LinkFact>): seq<Row<CopyKey, CopyRecord>> {
    if log == [] then []
    else
      var before := CopyRows(log[..|log| - 1]);
      match log[|log| - 1]
      case Copy(r) => before + [Row(r.id, r.op, r)]
      case _ => before
  }

  function LeaseRows(log: seq<LinkFact>): seq<Row<string, LeaseRecord>> {
    if log == [] then []
    else
      var before := LeaseRows(log[..|log| - 1]);
      match log[|log| - 1]
      case Lease(r) => before + [Row(r.id, r.op, r)]
      case _ => before
  }

  function CheckRows(log: seq<LinkFact>): seq<Row<string, CheckRecord>> {
    if log == [] then []
    else
      var before := CheckRows(log[..|log| - 1]);
      match log[|log| - 1]
      case Check(r) => before + [Row(r.id, r.op, r)]
      case _ => before
  }

  /** The set read back from a log: each kind folded on its own. */
  function Rebuild(log: seq<LinkFact>, active: set<string>, homes: map<string, PublicKey>): LinkSet {
    LinkSet(FoldRows(RecipientRows(log)), FoldRows(LinkRows(log)), FoldRows(CopyRows(log)),
            FoldRows(LeaseRows(log)), FoldRows(CheckRows(log)), active, homes)
  }

  lemma FoldRowsSnoc<K, V>(rows: seq<Row<K, V>>, row: Row<K, V>)
    ensures FoldRows(rows + [row]) == Fold(FoldRows(rows), row.id, row.op, row.record)
  {
    assert (rows + [row])[..|rows|] == rows;
  }

  lemma RebuildSnoc(log: seq<LinkFact>, fact: LinkFact, active: set<string>, homes: map<string, PublicKey>)
    ensures Rebuild(log + [fact], active, homes) == Apply(Rebuild(log, active, homes), fact)
  {
    assert (log + [fact])[..|log|] == log;
    match fact
    case Recipient(r) => FoldRowsSnoc(RecipientRows(log), Row(r.id, r.op, r));
    case Link(r) => FoldRowsSnoc(LinkRows(log), Row(r.id, r.op, r));
    case Copy(r) => FoldRowsSnoc(CopyRows(log), Row(r.id, r.op, r));
    case Lease(r) => FoldRowsSnoc(LeaseRows(log), Row(r.id, r.op, r));
    case Check(r) => FoldRowsSnoc(CheckRows(log), Row(r.id, r.op, r));
  }

  /** Folding admitted facts into the set in hand gives what reading the longer log back
      would, although the log is read one kind at a time. */
  lemma {:induction false} ApplyIsRebuild(log: seq<LinkFact>, facts: seq<LinkFact>, active: set<string>,
                                          homes: map<string, PublicKey>)
    ensures ApplyAll(Rebuild(log, active, homes), facts) == Rebuild(log + facts, active, homes)
    decreases |facts|
  {
    if facts == [] {
      assert log + facts == log;
    } else {
      RebuildSnoc(log, facts[0], active, homes);
      ApplyIsRebuild(log + [facts[0]], facts[1..], active, homes);
      assert log + [facts[0]] + facts[1..] == log + facts;
    }
  }

  // ---- purging departed copies ---------------------------------------------------------

  lemma PurgeEffect(s: LinkSet)
    requires Canonical(s)
    ensures ApplyAll(s, DepartedCopies(s)) == s.(copies := s.copies - s.DepartedKeys())
  {
    DropCopiesEffect(s, s, s.DepartedKeys());
  }

  /** Purging is idempotent. */
  lemma PurgeIdempotent(s: LinkSet)
    requires Canonical(s)
    ensures DepartedCopies(ApplyAll(s, DepartedCopies(s))) == []
  {
    PurgeEffect(s);
    var s' := ApplyAll(s, DepartedCopies(s));
    assert s'.DepartedKeys() == {};
  }

  lemma DropKeepsCopies(s: LinkSet, s': LinkSet, provider: string, recipient: string)
    requires Canonical(s) && s' == s.(copies := s.copies - s.DepartedKeys())
    ensures s'.MayHold(provider, recipient) == s.MayHold(provider, recipient)
    ensures s.MayHold(provider, recipient) ==>
              s'.HasCurrentCopy(provider, recipient) == s.HasCurrentCopy(provider, recipient)
              && s'.CopyFor(provider, recipient) == s.CopyFor(provider, recipient)
  {
    var k := CopyKey(provider, recipient);
    if k in s.DepartedKeys() {
      assert !s.MayHold(provider, recipient);
    }
  }

  /** Purging changes no answer the authority gives about a link. */
  lemma PurgeKeepsAnswers(s: LinkSet, provider: string)
    requires Canonical(s)
    ensures var s' := ApplyAll(s, DepartedCopies(s));
            && (forall recipient :: s'.CopyFor(provider, recipient) == s.CopyFor(provider, recipient))
            && s'.Waiting(provider) == s.Waiting(provider)
            && s'.HomesHolding(provider) == s.HomesHolding(provider)
  {
    PurgeEffect(s);
    var s' := ApplyAll(s, DepartedCopies(s));
    forall recipient
      ensures s'.CopyFor(provider, recipient) == s.CopyFor(provider, recipient)
      ensures recipient in s'.Waiting(provider) <==> recipient in s.Waiting(provider)
    {
      DropKeepsCopies(s, s', provider, recipient);
    }
  }

  lemma {:induction false} SameHomeLinks(s: LinkSet, s': LinkSet, home: string, providers: seq<string>)
    requires s'.links == s.links
    requires forall p | p in providers :: p in s.links
    requires forall p | p in providers :: s'.CopyFor(p, home) == s.CopyFor(p, home)
    ensures HomeLinksInOrder(s', home, providers) == HomeLinksInOrder(s, home, providers)
  {
    if providers != [] {
      SameHomeLinks(s, s', home, providers[1..]);
    }
  }

  /** Purging changes nothing a Home is told. */
  lemma PurgeKeepsHomeView(s: LinkSet, home: string)
    requires Canonical(s)
    ensures HomeLinksView(ApplyAll(s, DepartedCopies(s)), home) == HomeLinksView(s, home)
  {
    var s' := ApplyAll(s, DepartedCopies(s));
    PurgeEffect(s);
    var reach := set p | p in s.links && s.LinkReachesHomes(p);
    assert reach == set p | p in s'.links && s'.LinkReachesHomes(p);
    forall p | p in Names(reach)
      ensures s'.CopyFor(p, home) == s.CopyFor(p, home)
    {
      PurgeKeepsAnswers(s, p);
    }
    SameHomeLinks(s, s', home, Names(reach));
  }

  // ---- the loops -------------------------------------------------------------------------

  /** The last row stored under an id. */
  function LastRow<K(==), V>(rows: seq<Row<K, V>>, id: K): Option<Row<K, V>> {
    if rows == [] then None
    else if rows[|rows| - 1].id == id then Some(rows[|rows| - 1])
    else LastRow(rows[..|rows| - 1], id)
  }

  /** The fold holds, under each id, the record of the last row stored under it, and nothing
      where that row removed it or there is none. */
  lemma {:induction false} LastRowIsHeld<K, V>(rows: seq<Row<K, V>>, id: K)
    ensures id in FoldRows(rows) <==> LastRow(rows, id).Some? && LastRow(rows, id).value.op == Upsert
    ensures id in FoldRows(rows) ==> FoldRows(rows)[id] == LastRow(rows, id).value.record
    decreases |rows|
  {
    if rows != [] {
      LastRowIsHeld(rows[..|rows| - 1], id);
    }
  }

  /** Fold the rows of one kind, as they are read. */
  method FoldRecords<K(==, !new), V>(rows: seq<Row<K, V>>) returns (folded: map<K, V>)
    ensures folded == FoldRows(rows)
    ensures forall id :: id in folded <==> LastRow(rows, id).Some? && LastRow(rows, id).value.op == Upsert
    ensures forall id | id in folded :: folded[id] == LastRow(rows, id).value.record
  {
    folded := map[];
    for i := 0 to |rows|
      invariant folded == FoldRows(rows[..i])
    {
      assert rows[..i + 1] == rows[..i] + [rows[i]];
      FoldRowsSnoc(rows[..i], rows[i]);
      folded := Fold(folded, rows[i].id, rows[i].op, rows[i].record);
    }
    assert rows[..|rows|] == rows;
    forall id
      ensures id in folded <==> LastRow(rows, id).Some? && LastRow(rows, id).value.op == Upsert
      ensures id in folded ==> folded[id] == LastRow(rows, id).value.record
    {
      LastRowIsHeld(rows, id);
    }
  }

  lemma ScanStarts(s: LinkSet, toHomes: bool)
    ensures ScanFault([]) == None && SealedFor([]) == {} && DevicesSealed([]) == {}
    ensures Kept(s, toHomes, []) == [] && UnknownHomes(s, []) == []
  {
  }

  /** What one more copy adds to each thing read from a request's copies. */
  lemma ScanSnoc(s: LinkSet, toHomes: bool, before: seq<SealedCopy>, copy: SealedCopy)
    ensures var all := before + [copy];
            && ScanFault(all) == (if ScanFault(before).Some? then ScanFault(before)
                                  else if CheckCopy(copy).Some? then CheckCopy(copy)
                                  else if copy.deviceId in SealedFor(before) then Some(TwoCopies(copy.deviceId))
                                  else None)
            && SealedFor(all) == SealedFor(before) + {copy.deviceId}
            && DevicesSealed(all) == DevicesSealed(before) + (if IsHome(copy.deviceId) then {} else {copy.deviceId})
            && Kept(s, toHomes, all)
               == Kept(s, toHomes, before)
                  + (if !IsHome(copy.deviceId) || (copy.deviceId in s.homes && toHomes) then [copy] else [])
            && UnknownHomes(s, all)
               == UnknownHomes(s, before)
                  + (if IsHome(copy.deviceId) && copy.deviceId !in s.homes then [copy.deviceId] else [])
  {
    hide CheckCopy, IsHome;
    assert (before + [copy])[..|before|] == before;
  }

  /** Read a request's copies in order, collecting the devices sealed for, the copies
      kept and the Homes that do not serve, or the first fault. */
  method ScanCopies(s: LinkSet, toHomes: bool, copies: seq<SealedCopy>)
    returns (fault: Option<CopyFault>, devices: set<string>, kept: seq<SealedCopy>, unknown: seq<string>)
    ensures fault == ScanFault(copies)
    ensures fault.None? ==>
              devices == DevicesSealed(copies) && kept == Kept(s, toHomes, copies) && unknown == UnknownHomes(s, copies)
  {
    hide CheckCopy, IsHome, ScanFault, Kept, UnknownHomes, DevicesSealed, SealedFor;
    var sealedFor: set<string> := {};
    ScanStarts(s, toHomes);
    fault, devices, kept, unknown := None, {}, [], [];
    for i := 0 to |copies|
      invariant fault.None? && ScanFault(copies[..i]).None?
      invariant sealedFor == SealedFor(copies[..i]) && devices == DevicesSealed(copies[..i])
      invariant kept == Kept(s, toHomes, copies[..i])
      invariant unknown == UnknownHomes(s, copies[..i])
    {
      var copy := copies[i];
      assert copies[..i + 1] == copies[..i] + [copy];
      ScanSnoc(s, toHomes, copies[..i], copy);
      fault := CheckCopy(copy);
      if fault.None? && copy.deviceId in sealedFor {
        fault := Some(TwoCopies(copy.deviceId));
      }
      if fault.Some? {
        FaultStays(copies, i + 1);
        return;
      }
      sealedFor := sealedFor + {copy.deviceId};
      if IsHome(copy.deviceId) {
        if copy.deviceId !in s.homes {
          unknown := unknown + [copy.deviceId];
        } else if toHomes {
          kept := kept + [copy];
        }
      } else {
        devices := devices + {copy.deviceId};
        kept := kept + [copy];
      }
    }
    assert copies[..|copies|] == copies;
  }

  /** Decide a put the way the authority does. */
  method DecidePut(s: LinkSet, provider: string, caller: Option<string>, put: PutRequest, now: nat)
    returns (r: Decision)
    ensures r == PutLink(s, provider, caller, put, now)
    ensures r.Ok? ==>
              |r.value| > 0
              && r.value[0] == Link(LinkRecord(provider, Upsert, put.expectedVersion + 1, put.baseUrl,
                                               put.authentication, put.classes, Active, now))
  {
    hide VersionFacts, Names, CopyFacts, Kept, ScanFault, UnknownHomes;
    var current := s.CurrentVersion(provider);
    if put.expectedVersion != current {
      return Err(Stale(current));
    }
    if LeaseBlocks(s, provider, caller, now) {
      return Err(LeaseHeld(s.leases[provider].deviceId, s.leases[provider].expiresAt));
    }
    if put.classes == {} || PublicDeployment in put.classes {
      return Err(InvalidClasses);
    }
    var expected := s.Recipients().Keys;
    if expected == {} {
      return Err(NoRecipients);
    }
    var toHomes := ReachesHomes(put.authentication, put.classes);
    var fault, devices, kept, unknown := ScanCopies(s, toHomes, put.copies);
    if fault.Some? {
      return Err(InvalidCopy(fault.value));
    }
    if devices != expected || unknown != [] {
      return Err(Coverage(Names(expected - devices), Names(devices - expected) + unknown));
    }
    FirstIsLink(s, NewLink(s, provider, put, now), kept);
    return Ok(VersionFacts(s, NewLink(s, provider, put, now), kept));
  }

  lemma FirstIsLink(s: LinkSet, link: LinkRecord, kept: seq<SealedCopy>)
    ensures |VersionFacts(s, link, kept)| > 0 && VersionFacts(s, link, kept)[0] == Link(link)
  {
    hide CopyFacts;
  }

  lemma {:induction false} FaultStays(copies: seq<SealedCopy>, n: nat)
    requires n <= |copies|
    requires ScanFault(copies[..n]).Some?
    ensures ScanFault(copies) == ScanFault(copies[..n])
    decreases |copies|
  {
    if n == |copies| {
      assert copies[..n] == copies;
    } else {
      assert copies[..|copies| - 1][..n] == copies[..n];
      FaultStays(copies[..|copies| - 1], n);
    }
  }

  lemma {:induction false} RefusalStays(waiting: set<string>, copies: seq<SealedCopy>, n: nat)
    requires n <= |copies|
    requires AddFrom(waiting, copies[..n]).Err?
    ensures AddFrom(waiting, copies) == AddFrom(waiting, copies[..n])
    decreases |copies|
  {
    if n == |copies| {
      assert copies[..n] == copies;
    } else {
      assert copies[..|copies| - 1][..n] == copies[..n];
      RefusalStays(waiting, copies[..|copies| - 1], n);
    }
  }

  /** Seal for waiting recipients the way the authority does: each copy takes its
      recipient off the waiting list, which also refuses a second one for it. */
  method DecideAdd(s: LinkSet, provider: string, version: nat, copies: seq<SealedCopy>) returns (r: Decision)
    ensures r == AddCopies(s, provider, version, copies)
  {
    if !s.LinkActive(provider) {
      return Err(NotFound);
    }
    if version != s.links[provider].version {
      return Err(Stale(s.links[provider].version));
    }
    var waiting := s.Waiting(provider);
    var facts: seq<LinkFact> := [];
    for i := 0 to |copies|
      invariant AddFrom(s.Waiting(provider), copies[..i]) == Ok(waiting)
      invariant facts == CopyFacts(provider, version, copies[..i])
    {
      var copy := copies[i];
      assert copies[..i + 1][..i] == copies[..i];
      if CheckCopy(copy).Some? {
        RefusalStays(s.Waiting(provider), copies, i + 1);
        return Err(InvalidCopy(CheckCopy(copy).value));
      }
      if copy.deviceId !in waiting {
        RefusalStays(s.Waiting(provider), copies, i + 1);
        return Err(Coverage([], [copy.deviceId]));
      }
      waiting := waiting - {copy.deviceId};
      facts := facts + [CopyFact(provider, version, copy)];
    }
    assert copies[..|copies|] == copies;
    return Ok(facts);
  }

  /** One account at the authority: its log, and the devices and Homes it has now. */
  class Account {
    var log: seq<LinkFact>
    var activeDevices: set<string>
    var homes: map<string, PublicKey>

    constructor ()
      ensures log == [] && activeDevices == {} && homes == map[]
      ensures Links() == EmptySet
    {
      log, activeDevices, homes := [], {}, map[];
    }

    /** What the account holds now. */
    ghost function Links(): LinkSet
      reads this
    {
      Rebuild(log, activeDevices, homes)
    }

    /** Read the account's links back from its log. */
    method Read() returns (s: LinkSet)
      ensures s == Links()
    {
      var recipients := FoldRecords(RecipientRows(log));
      var links := FoldRecords(LinkRows(log));
      var copies := FoldRecords(CopyRows(log));
      var leases := FoldRecords(LeaseRows(log));
      var checks := FoldRecords(CheckRows(log));
      s := LinkSet(recipients, links, copies, leases, checks, activeDevices, homes);
    }

    /** Append facts one by one, up to where the Hub stopped. */
    method Admit(facts: seq<LinkFact>, written: nat)
      modifies this`log
      ensures log == old(log) + facts[..Min(written, |facts|)]
      ensures Links() == ApplyAll(old(Links()), facts[..Min(written, |facts|)])
    {
      var n := Min(written, |facts|);
      for i := 0 to n
        invariant log == old(log) + facts[..i]
      {
        log := log + [facts[i]];
      }
      ApplyIsRebuild(old(log), facts[..n], activeDevices, homes);
    }

    /** Read the account and decide one command. */
    method Judge(command: Command, now: nat) returns (r: Decision)
      ensures r == Decide(Links(), command, now)
    {
      var s := Read();
      match command {
        case CmdPut(provider, caller, put) => r := DecidePut(s, provider, caller, put, now);
        case CmdAdd(provider, device, version, copies) =>
          if s.CopyFor(provider, device).None? {
            r := Err(NotADevice);
          } else {
            r := DecideAdd(s, provider, version, copies);
          }
        case _ => r := Decide(s, command, now);
      }
    }

    /** Handle one request: read, decide, append. What the account holds afterwards is
        exactly the step of the run model, cut short where the Hub stopped. */
    method Handle(command: Command, now: nat, written: nat) returns (r: Decision)
      modifies this`log
      ensures r == Decide(old(Links()), command, now)
      ensures Links() == Next(old(Links()), Do(command, now, written))
      ensures old(log) <= log
    {
      r := Judge(command, now);
      if r.Ok? {
        Admit(r.value, written);
      }
    }

    /** Handle one request to its end. */
    method Submit(command: Command, now: nat) returns (r: Decision)
      modifies this`log
      ensures r == Decide(old(Links()), command, now)
      ensures Links() == if r.Ok? then ApplyAll(old(Links()), r.value) else old(Links())
    {
      r := Judge(command, now);
      if r.Ok? {
        Admit(r.value, |r.value|);
        assert r.value[..|r.value|] == r.value;
      }
    }
  }
}
