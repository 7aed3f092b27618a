/** An account's keys on one computer: four files, each staged and renamed into place, the
    root last. A stop may fall between any two file steps. */
module Keys {
  import opened Base

  /** A signing key, named by its seed; its public half is known by the same name. */
  type Seed = nat

  /** A root's statement that a device key acts for it until a time, with the key whose
      signature over exactly that it carries. */
  datatype Delegation = Delegation(subkey: Seed, root: Seed, expiry: nat, signedBy: Seed)

  const TTL := 400 * 24 * 60 * 60

  function Issue(root: Seed, subkey: Seed, expiry: nat): Delegation {
    Delegation(subkey, root, expiry, root)
  }

  predicate Verifies(d: Delegation, now: nat) {
    now < d.expiry && d.signedBy == d.root
  }

  /** The key that seals the account's own state: the one that follows from a root, or
      some other received through enrolment. */
  datatype AccountKey = FromRoot(root: Seed) | Received(name: nat)

  datatype AccountKeys = AccountKeys(root: Seed, accountKey: AccountKey, device: Seed, delegation: Delegation)

  datatype File = AccountFile | DeviceFile | DelegationFile | RootFile

  datatype Bytes =
    | Half
    | AccountBytes(key: AccountKey)
    | DeviceBytes(device: Seed)
    | DelegationBytes(delegation: Delegation)
    | RootBytes(root: Seed)

  /** The account's directory: the files in place, and the staged ones beside them. */
  datatype Disk = Disk(files: map<File, Bytes>, staged: map<File, Bytes>)

  const EmptyDisk := Disk(map[], map[])

  /** One step of replacing a file. */
  datatype FileStep =
    | Truncate(file: File)
    | WriteSome(file: File)
    | WriteAll(file: File, bytes: Bytes)
    | Rename(file: File)

  function Apply(disk: Disk, step: FileStep): Disk {
    match step
    case Truncate(f) => disk.(staged := disk.staged[f := Half])
    case WriteSome(f) => disk.(staged := disk.staged[f := Half])
    case WriteAll(f, bytes) => disk.(staged := disk.staged[f := bytes])
    case Rename(f) =>
      if f in disk.staged then Disk(disk.files[f := disk.staged[f]], disk.staged - {f}) else disk
  }

  function ApplyAll(disk: Disk, steps: seq<FileStep>): Disk {
    if steps == [] then disk else Apply(ApplyAll(disk, steps[..|steps| - 1]), steps[|steps| - 1])
  }

  function Replace(f: File, bytes: Bytes): seq<FileStep> {
    [Truncate(f), WriteSome(f), WriteAll(f, bytes), Rename(f)]
  }

  /** The root goes last: its presence is what marks the keys as held. */
  function WriteSteps(keys: AccountKeys): seq<FileStep> {
    Replace(AccountFile, AccountBytes(keys.accountKey)) + Replace(DeviceFile, DeviceBytes(keys.device))
    + Replace(DelegationFile, DelegationBytes(keys.delegation)) + Replace(RootFile, RootBytes(keys.root))
  }

  // ---- the operations ---------------------------------------------------------------------------

  datatype Op =
    | Mint(root: Seed, device: Seed)
    | Restore(root: Seed, device: Seed)
    | Adopt(keys: AccountKeys)
    | Held

  function KeysOf(op: Op, now: nat): AccountKeys
    requires !op.Held?
  {
    match op
    case Mint(root, device) => AccountKeys(root, FromRoot(root), device, Issue(root, device, now + TTL))
    case Restore(root, device) => AccountKeys(root, FromRoot(root), device, Issue(root, device, now + TTL))
    case Adopt(keys) => keys
  }

  datatype HeldError = Missing | InvalidData

  /** The delegation on disk, when it can be read, verifies and joins the two keys held. */
  function Recorded(disk: Disk, root: Seed, device: Seed, now: nat): Option<Delegation> {
    if DelegationFile in disk.files && disk.files[DelegationFile].DelegationBytes? then
      var d := disk.files[DelegationFile].delegation;
      if Verifies(d, now) && d.root == root && d.subkey == device then Some(d) else None
    else None
  }

  /** What `held` answers, when it is not stopped. */
  function HeldKeys(disk: Disk, now: nat): Result<Option<AccountKeys>, HeldError> {
    if RootFile !in disk.files then Ok(None)
    else if !disk.files[RootFile].RootBytes? then Err(InvalidData)
    else if AccountFile !in disk.files then Err(Missing)
    else if !disk.files[AccountFile].AccountBytes? then Err(InvalidData)
    else if DeviceFile !in disk.files then Err(Missing)
    else if !disk.files[DeviceFile].DeviceBytes? then Err(InvalidData)
    else
      var root, device := disk.files[RootFile].root, disk.files[DeviceFile].device;
      var delegation :=
        match Recorded(disk, root, device, now)
        case Some(d) => d
        case None => Issue(root, device, now + TTL);
      Ok(Some(AccountKeys(root, disk.files[AccountFile].key, device, delegation)))
  }

  /** The file steps an operation takes: none where it refuses or has nothing to write. */
  function StepsOf(disk: Disk, op: Op, now: nat): seq<FileStep> {
    if op.Held? then
      var r := HeldKeys(disk, now);
      if r.Ok? && r.value.Some? && Recorded(disk, r.value.value.root, r.value.value.device, now).None?
      then Replace(DelegationFile, DelegationBytes(r.value.value.delegation)) else []
    else if RootFile in disk.files then []
    else WriteSteps(KeysOf(op, now))
  }

  /** An operation at a time, stopped after some of its steps or not at all. */
  datatype Event = Event(op: Op, now: nat, taken: nat)

  function Next(disk: Disk, e: Event): Disk {
    var steps := StepsOf(disk, e.op, e.now);
    ApplyAll(disk, steps[..Min(e.taken, |steps|)])
  }

  function Exec(disk: Disk, events: seq<Event>): Disk {
    if events == [] then disk else Next(Exec(disk, events[..|events| - 1]), events[|events| - 1])
  }

  // ---- what every file step keeps ---------------------------------------------------------------

  /** A file in place holds what belongs in it, whole. */
  ghost predicate Whole(f: File, bytes: Bytes) {
    match f
    case AccountFile => bytes.AccountBytes?
    case DeviceFile => bytes.DeviceBytes?
    case DelegationFile => bytes.DelegationBytes?
    case RootFile => bytes.RootBytes?
  }

  ghost predicate FilesWhole(disk: Disk) {
    forall f | f in disk.files :: Whole(f, disk.files[f])
  }

  /** The three files of one set of keys. */
  ghost predicate HoldsSet(disk: Disk, keys: AccountKeys) {
    && RootFile in disk.files && disk.files[RootFile] == RootBytes(keys.root)
    && AccountFile in disk.files && disk.files[AccountFile] == AccountBytes(keys.accountKey)
    && DeviceFile in disk.files && disk.files[DeviceFile] == DeviceBytes(keys.device)
  }

  lemma ApplyAllConcat(disk: Disk, a: seq<FileStep>, b: seq<FileStep>)
    ensures ApplyAll(disk, a + b) == ApplyAll(ApplyAll(disk, a), b)
    decreases |b|
  {
    if b == [] {
      assert a + b == a;
    } else {
      assert (a + b)[..|a + b| - 1] == a + b[..|b| - 1];
      ApplyAllConcat(disk, a, b[..|b| - 1]);
    }
  }

  /** Until the rename nothing in place changes; after it the file is in place. */
  lemma ReplaceUpTo(disk: Disk, f: File, bytes: Bytes, n: nat)
    requires n <= 4
    ensures ApplyAll(disk, Replace(f, bytes)[..n]).files == if n < 4 then disk.files else disk.files[f := bytes]
  {
    var steps := Replace(f, bytes);
    assert steps[..1][..0] == [] && steps[..2][..1] == steps[..1];
    assert steps[..3][..2] == steps[..2] && steps[..4][..3] == steps[..3];
    var d1 := Apply(disk, Truncate(f));
    var d2 := Apply(d1, WriteSome(f));
    var d3 := Apply(d2, WriteAll(f, bytes));
    assert ApplyAll(disk, steps[..1]) == d1;
    assert ApplyAll(disk, steps[..2]) == d2;
    assert ApplyAll(disk, steps[..3]) == d3;
    assert ApplyAll(disk, steps[..4]) == Apply(d3, Rename(f));
  }

  /** Two files one after the other, stopped anywhere. */
  lemma ThenUpTo(disk: Disk, before: seq<FileStep>, f: File, bytes: Bytes, n: nat)
    requires |before| <= n <= |before| + 4
    ensures ApplyAll(disk, (before + Replace(f, bytes))[..n]).files
         == if n < |before| + 4 then ApplyAll(disk, before).files else ApplyAll(disk, before).files[f := bytes]
  {
    var rest := Replace(f, bytes)[..n - |before|];
    assert (before + Replace(f, bytes))[..n] == before + rest;
    ApplyAllConcat(disk, before, rest);
    ReplaceUpTo(ApplyAll(disk, before), f, bytes, n - |before|);
  }

  /** The files in place after the first `n` steps of a write. */
  ghost function WrittenFiles(disk: Disk, keys: AccountKeys, n: nat): map<File, Bytes> {
    var first := if n < 4 then disk.files else disk.files[AccountFile := AccountBytes(keys.accountKey)];
    var second := if n < 8 then first else first[DeviceFile := DeviceBytes(keys.device)];
    var third := if n < 12 then second else second[DelegationFile := DelegationBytes(keys.delegation)];
    if n < 16 then third else third[RootFile := RootBytes(keys.root)]
  }

  lemma WriteUpTo(disk: Disk, keys: AccountKeys, n: nat)
    requires n <= 16
    ensures ApplyAll(disk, WriteSteps(keys)[..n]).files == WrittenFiles(disk, keys, n)
  {
    hide Replace, ApplyAll;
    var a := Replace(AccountFile, AccountBytes(keys.accountKey));
    var b := a + Replace(DeviceFile, DeviceBytes(keys.device));
    var c := b + Replace(DelegationFile, DelegationBytes(keys.delegation));
    ReplaceIsFour(AccountFile, AccountBytes(keys.accountKey));
    ReplaceIsFour(DeviceFile, DeviceBytes(keys.device));
    ReplaceIsFour(DelegationFile, DelegationBytes(keys.delegation));
    ReplaceIsFour(RootFile, RootBytes(keys.root));
    var all := WriteSteps(keys);
    if n <= 4 {
      assert all[..n] == a[..n];
      ReplaceUpTo(disk, AccountFile, AccountBytes(keys.accountKey), n);
    } else {
      assert a[..4] == a;
      ReplaceUpTo(disk, AccountFile, AccountBytes(keys.accountKey), 4);
      if n <= 8 {
        assert all[..n] == b[..n];
        ThenUpTo(disk, a, DeviceFile, DeviceBytes(keys.device), n);
      } else {
        assert b[..8] == b;
        ThenUpTo(disk, a, DeviceFile, DeviceBytes(keys.device), 8);
        if n <= 12 {
          assert all[..n] == c[..n];
          ThenUpTo(disk, b, DelegationFile, DelegationBytes(keys.delegation), n);
        } else {
          assert c[..12] == c;
          ThenUpTo(disk, b, DelegationFile, DelegationBytes(keys.delegation), 12);
          ThenUpTo(disk, c, RootFile, RootBytes(keys.root), n);
        }
      }
    }
  }

  lemma ReplaceIsFour(f: File, bytes: Bytes)
    ensures |Replace(f, bytes)| == 4
  {
  }

  // ---- every run -----------------------------------------------------------------------------------

  ghost predicate DiskHolds(disk: Disk) {
    && FilesWhole(disk)
    && (RootFile in disk.files ==> AccountFile in disk.files && DeviceFile in disk.files)
  }

  /** A write stopped before its last step leaves no root; one that was not leaves its set. */
  lemma WriteHolds(disk: Disk, keys: AccountKeys, n: nat)
    requires DiskHolds(disk) && RootFile !in disk.files && n <= 16
    ensures var disk' := ApplyAll(disk, WriteSteps(keys)[..n]);
            && DiskHolds(disk')
            && (if n == 16 then HoldsSet(disk', keys) else RootFile !in disk'.files)
  {
    WriteUpTo(disk, keys, n);
  }

  lemma WriteIsSixteen(keys: AccountKeys)
    ensures |WriteSteps(keys)| == 16
  {
  }

  /** Renewing the delegation touches no key. */
  lemma RenewHolds(disk: Disk, d: Delegation, n: nat)
    requires DiskHolds(disk) && n <= 4
    ensures var disk' := ApplyAll(disk, Replace(DelegationFile, DelegationBytes(d))[..n]);
            && DiskHolds(disk')
            && (forall f | f != DelegationFile :: SameAt(disk.files, disk'.files, f))
  {
    ReplaceUpTo(disk, DelegationFile, DelegationBytes(d), n);
  }

  lemma NextHolds(disk: Disk, e: Event)
    requires DiskHolds(disk)
    ensures DiskHolds(Next(disk, e))
    ensures RootFile in disk.files ==> forall f | f != DelegationFile :: SameAt(disk.files, Next(disk, e).files, f)
    ensures RootFile !in disk.files && RootFile in Next(disk, e).files ==>
              !e.op.Held? && HoldsSet(Next(disk, e), KeysOf(e.op, e.now))
  {
    hide Replace, ApplyAll, WriteSteps, HeldKeys, Recorded;
    var steps := StepsOf(disk, e.op, e.now);
    NothingDone(disk);
    if steps == [] {
      assert steps[..Min(e.taken, |steps|)] == [];
    } else if e.op.Held? {
      var keys := HeldKeys(disk, e.now).value.value;
      ReplaceIsFour(DelegationFile, DelegationBytes(keys.delegation));
      RenewHolds(disk, keys.delegation, Min(e.taken, 4));
      RootIsThere(disk, e.now);
    } else {
      WriteIsSixteen(KeysOf(e.op, e.now));
      WriteHolds(disk, KeysOf(e.op, e.now), Min(e.taken, 16));
    }
  }

  lemma NothingDone(disk: Disk)
    ensures ApplyAll(disk, []) == disk
  {
  }

  lemma RootIsThere(disk: Disk, now: nat)
    ensures HeldKeys(disk, now).Ok? && HeldKeys(disk, now).value.Some? ==> RootFile in disk.files
  {
  }

  lemma {:induction false} RunHolds(disk: Disk, events: seq<Event>)
    requires DiskHolds(disk)
    ensures DiskHolds(Exec(disk, events))
    decreases |events|
  {
    hide Next, DiskHolds;
    if events != [] {
      RunHolds(disk, events[..|events| - 1]);
      NextHolds(Exec(disk, events[..|events| - 1]), events[|events| - 1]);
    }
  }

  /** The answer to `held` on a disk every run keeps: nothing, or a complete set whose
      delegation is by the stored root to the stored device and verifies now. */
  lemma HeldIsComplete(disk: Disk, now: nat)
    requires DiskHolds(disk)
    ensures var r := HeldKeys(disk, now);
            && r.Ok? && (r.value.None? <==> RootFile !in disk.files)
            && (r.value.Some? ==>
                  var keys := r.value.value;
                  && HoldsSet(disk, keys)
                  && keys.delegation.root == keys.root && keys.delegation.subkey == keys.device
                  && Verifies(keys.delegation, now))
  {
    if RootFile in disk.files {
      assert Whole(RootFile, disk.files[RootFile]) && Whole(AccountFile, disk.files[AccountFile]);
      assert Whole(DeviceFile, disk.files[DeviceFile]);
    }
  }

  ghost function Fault(disk: Disk, f: File): Option<HeldError> {
    if f !in disk.files then Some(Missing) else if !Whole(f, disk.files[f]) then Some(InvalidData) else None
  }

  /** Whatever is on disk, `held` answers nothing without a root, and otherwise fails exactly
      if the root, the account key or the device key is missing or not whole, for the first
      of them that is. The delegation is not among them. */
  lemma HeldFails(disk: Disk, now: nat)
    ensures var r := HeldKeys(disk, now);
            && (r == Ok(None) <==> RootFile !in disk.files)
            && (RootFile in disk.files ==>
                  if Fault(disk, RootFile).Some? then r == Err(Fault(disk, RootFile).value)
                  else if Fault(disk, AccountFile).Some? then r == Err(Fault(disk, AccountFile).value)
                  else if Fault(disk, DeviceFile).Some? then r == Err(Fault(disk, DeviceFile).value)
                  else r.Ok? && r.value.Some? && HoldsSet(disk, r.value.value))
  {
  }

  /** However the operations before it were stopped, `held` answers nothing or a complete
      set of keys that verifies. */
  lemma NothingOrEverything(events: seq<Event>, now: nat)
    ensures var r := HeldKeys(Exec(EmptyDisk, events), now);
            r.Ok? && (r.value.Some? ==>
                        HoldsSet(Exec(EmptyDisk, events), r.value.value)
                        && r.value.value.delegation.root == r.value.value.root
                        && r.value.value.delegation.subkey == r.value.value.device
                        && Verifies(r.value.value.delegation, now))
  {
    hide HeldKeys, Exec;
    RunHolds(EmptyDisk, events);
    HeldIsComplete(Exec(EmptyDisk, events), now);
  }

  /** Once keys are held no operation replaces the root, the account key or the device key. */
  lemma {:induction false} RootNeverReplaced(disk: Disk, events: seq<Event>)
    requires DiskHolds(disk) && RootFile in disk.files
    ensures forall f | f != DelegationFile :: SameAt(disk.files, Exec(disk, events).files, f)
    decreases |events|
  {
    hide Next, DiskHolds;
    if events != [] {
      var before := events[..|events| - 1];
      RootNeverReplaced(disk, before);
      RunHolds(disk, before);
      assert SameAt(disk.files, Exec(disk, before).files, RootFile);
      NextHolds(Exec(disk, before), events[|events| - 1]);
      forall f | f != DelegationFile
        ensures SameAt(disk.files, Exec(disk, events).files, f)
      {
        assert SameAt(disk.files, Exec(disk, before).files, f);
        assert SameAt(Exec(disk, before).files, Exec(disk, events).files, f);
      }
    }
  }

  /** Keys held were all written by one and the same write: never the root of one attempt
      beside a key of another. */
  lemma {:induction false} KeysOfOneWrite(events: seq<Event>)
    requires RootFile in Exec(EmptyDisk, events).files
    ensures exists i :: 0 <= i < |events| && !events[i].op.Held?
                        && HoldsSet(Exec(EmptyDisk, events), KeysOf(events[i].op, events[i].now))
    decreases |events|
  {
    hide Next, DiskHolds, KeysOf, HoldsSet;
    var before, last := events[..|events| - 1], events[|events| - 1];
    EmptyDiskHolds();
    RunHolds(EmptyDisk, before);
    NextHolds(Exec(EmptyDisk, before), last);
    if RootFile in Exec(EmptyDisk, before).files {
      KeysOfOneWrite(before);
      var i :| 0 <= i < |before| && !before[i].op.Held?
               && HoldsSet(Exec(EmptyDisk, before), KeysOf(before[i].op, before[i].now));
      SetStays(Exec(EmptyDisk, before), Exec(EmptyDisk, events), KeysOf(before[i].op, before[i].now));
      assert events[i] == before[i];
    } else {
      assert events[|events| - 1] == last;
    }
  }

  lemma EmptyDiskHolds()
    ensures DiskHolds(EmptyDisk)
  {
  }

  lemma SetStays(disk: Disk, disk': Disk, keys: AccountKeys)
    requires HoldsSet(disk, keys) && forall f | f != DelegationFile :: SameAt(disk.files, disk'.files, f)
    ensures HoldsSet(disk', keys)
  {
    assert SameAt(disk.files, disk'.files, RootFile) && SameAt(disk.files, disk'.files, AccountFile)
           && SameAt(disk.files, disk'.files, DeviceFile);
  }

  /** Two writes that overlap, the second having seen no root before the first put it in
      place, can leave the root of one beside the keys of the other, and `held` gives them
      out together. */
  lemma OverlappingWritesMix(disk: Disk, first: AccountKeys, second: AccountKeys, now: nat)
    ensures var mixed := ApplyAll(ApplyAll(disk, WriteSteps(first)), WriteSteps(second)[..8]);
            var r := HeldKeys(mixed, now);
            && r.Ok? && r.value.Some? && r.value.value.root == first.root
            && r.value.value.device == second.device && r.value.value.accountKey == second.accountKey
  {
    hide ApplyAll, Replace, WriteSteps;
    WriteIsSixteen(first);
    WriteIsSixteen(second);
    assert WriteSteps(first)[..16] == WriteSteps(first);
    WriteUpTo(disk, first, 16);
    WriteUpTo(ApplyAll(disk, WriteSteps(first)), second, 8);
  }

  /** After any stops that left no root, writing again to the end succeeds, and what is held
      is what was written. */
  lemma RetrySucceeds(events: seq<Event>, op: Op, now: nat, later: nat)
    requires !op.Held? && RootFile !in Exec(EmptyDisk, events).files
    ensures var disk := Next(Exec(EmptyDisk, events), Event(op, now, 16));
            var keys := KeysOf(op, now);
            && HoldsSet(disk, keys)
            && HeldKeys(disk, later).Ok? && HeldKeys(disk, later).value.Some?
            && HeldKeys(disk, later).value.value.(delegation := keys.delegation) == keys
  {
    hide Exec, ApplyAll, Replace, KeysOf, WriteSteps;
    EmptyDiskHolds();
    RunHolds(EmptyDisk, events);
    var disk := Exec(EmptyDisk, events);
    WriteIsSixteen(KeysOf(op, now));
    WriteHolds(disk, KeysOf(op, now), 16);
    HeldIsComplete(Next(disk, Event(op, now, 16)), later);
  }

  /** What is held once keys are minted or restored: the root and device given, the account
      key that follows from that root, and the root's own delegation to that device for 400
      days, renewed for 400 more if it has lapsed when read. */
  lemma HeldAsWritten(events: seq<Event>, op: Op, now: nat, later: nat)
    requires (op.Mint? || op.Restore?) && RootFile !in Exec(EmptyDisk, events).files
    ensures var held := HeldKeys(Next(Exec(EmptyDisk, events), Event(op, now, 16)), later);
            held == Ok(Some(AccountKeys(op.root, FromRoot(op.root), op.device,
                                        Delegation(op.device, op.root,
                                                   (if later < now + 34560000 then now else later) + 34560000,
                                                   op.root))))
  {
    hide Exec, ApplyAll, Replace, WriteSteps;
    EmptyDiskHolds();
    RunHolds(EmptyDisk, events);
    var disk := Exec(EmptyDisk, events);
    var steps := WriteSteps(KeysOf(op, now));
    WriteIsSixteen(KeysOf(op, now));
    assert steps[..16] == steps;
    WriteUpTo(disk, KeysOf(op, now), 16);
  }

  /** And once keys are adopted: those, with their delegation where it is good. */
  lemma HeldAsAdopted(events: seq<Event>, given: AccountKeys, now: nat, later: nat)
    requires RootFile !in Exec(EmptyDisk, events).files
    ensures var held := HeldKeys(Next(Exec(EmptyDisk, events), Event(Adopt(given), now, 16)), later);
            held == Ok(Some(given.(delegation :=
                                     if Good(given.delegation, given, later) then given.delegation
                                     else Delegation(given.device, given.root, later + 34560000, given.root))))
  {
    hide Exec, ApplyAll, Replace, WriteSteps;
    EmptyDiskHolds();
    RunHolds(EmptyDisk, events);
    var disk := Exec(EmptyDisk, events);
    var steps := WriteSteps(KeysOf(Adopt(given), now));
    WriteIsSixteen(KeysOf(Adopt(given), now));
    assert steps[..16] == steps;
    WriteUpTo(disk, KeysOf(Adopt(given), now), 16);
  }

  /** A delegation of these keys that has not lapsed. */
  predicate Good(d: Delegation, keys: AccountKeys, now: nat) {
    now < d.expiry && d.signedBy == d.root == keys.root && d.subkey == keys.device
  }

  /** Reading to the end leaves on disk the delegation it answers with: the one there if it
      is good, a new one of 400 days if not, and answers the same again. */
  lemma HeldRenews(disk: Disk, now: nat)
    requires DiskHolds(disk) && RootFile in disk.files
    ensures var disk', held := Next(disk, Event(Held, now, 4)), HeldKeys(disk, now);
            && held.Ok? && held.value.Some? && HeldKeys(disk', now) == held
            && DelegationFile in disk'.files
            && disk'.files[DelegationFile] == DelegationBytes(held.value.value.delegation)
            && Good(held.value.value.delegation, held.value.value, now)
            && (disk'.files == disk.files || held.value.value.delegation.expiry == now + 34560000)
  {
    hide ApplyAll, Replace;
    HeldIsComplete(disk, now);
    NothingDone(disk);
    var d := HeldKeys(disk, now).value.value.delegation;
    ReplaceIsFour(DelegationFile, DelegationBytes(d));
    assert Replace(DelegationFile, DelegationBytes(d))[..4] == Replace(DelegationFile, DelegationBytes(d));
    ReplaceUpTo(disk, DelegationFile, DelegationBytes(d), 4);
  }

  // ---- as it runs ----------------------------------------------------------------------------------

  class KeyStore {
    var disk: Disk

    constructor ()
      ensures disk == EmptyDisk
    {
      disk := EmptyDisk;
    }

    /** Take file steps in order until they are done or the computer stops. */
    method Take(steps: seq<FileStep>, budget: nat) returns (finished: bool)
      modifies this
      ensures disk == ApplyAll(old(disk), steps[..Min(budget, |steps|)])
      ensures finished <==> budget >= |steps|
    {
      var n := Min(budget, |steps|);
      for i := 0 to n
        invariant disk == ApplyAll(old(disk), steps[..i])
      {
        disk := Apply(disk, steps[i]);
        assert steps[..i + 1][..i] == steps[..i];
      }
      return budget >= |steps|;
    }

    /** Write a set of keys, refusing where a root is already held. */
    method Write(op: Op, now: nat, budget: nat) returns (r: Result<AccountKeys, ()>)
      requires !op.Held?
      modifies this
      ensures disk == Next(old(disk), Event(op, now, budget))
      ensures r.Ok? <==> RootFile !in old(disk).files && budget >= 16
      ensures r.Ok? ==> r.value == KeysOf(op, now)
    {
      hide ApplyAll, Apply, Replace;
      if RootFile in disk.files {
        NothingDone(disk);
        return Err(());
      }
      var keys := KeysOf(op, now);
      WriteIsSixteen(keys);
      var finished := Take(WriteSteps(keys), budget);
      return if finished then Ok(keys) else Err(());
    }

    /** The keys held here, renewing a delegation that lapsed or does not match. */
    method HeldHere(now: nat, budget: nat) returns (r: Result<Option<AccountKeys>, HeldError>)
      requires DiskHolds(disk)
      modifies this
      ensures disk == Next(old(disk), Event(Held, now, budget))
      ensures budget >= 4 ==> r == HeldKeys(old(disk), now)
      ensures DiskHolds(disk)
    {
      hide ApplyAll, Apply, Replace, WriteSteps, HeldKeys, Recorded;
      NextHolds(disk, Event(Held, now, budget));
      r := HeldKeys(disk, now);
      NothingDone(disk);
      if r.Ok? && r.value.Some? && Recorded(disk, r.value.value.root, r.value.value.device, now).None? {
        var finished := Take(Replace(DelegationFile, DelegationBytes(r.value.value.delegation)), budget);
      }
    }
  }
}
