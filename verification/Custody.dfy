/** Custody of one account's authentication data: the move into the account's own scope
    and its erasure, as commands decided against a standing and events folded into it. */
module Custody {
  import opened Base
  import opened Text

  datatype Migration =
    | Legacy
    | Copying(operation: string, sourceBasis: string)
    | Migrated(operation: string, sourceBasis: string, destinationBasis: string, evidence: string)

  datatype Erasure =
    | Available
    | Fenced(operation: string, authorization: string, review: string,
             bearersEvicted: bool, relatedErased: bool, keyDestroyed: bool, directoryRetracted: bool)
    | Erased(operation: string)

  datatype Standing = Standing(migration: Migration, erasure: Erasure) {
    predicate MayAuthenticate() {
      erasure.Available?
    }

    predicate ReadsAccountScope() {
      !migration.Legacy?
    }
  }

  const Initial := Standing(Legacy, Available)

  datatype Command =
    | BeginMigration(operation: string, sourceBasis: string)
    | CompleteMigration(operation: string, destinationBasis: string, evidence: string)
    | FenceErasure(operation: string, authorization: string, review: string, blockers: seq<string>)
    | RecordBearersEvicted(operation: string)
    | RecordRelatedErased(operation: string)
    | RecordKeyDestroyed(operation: string)
    | RecordDirectoryRetracted(operation: string)
    | CompleteErasure(operation: string)

  datatype Event =
    | MigrationStarted(operation: string, sourceBasis: string)
    | MigrationCompleted(operation: string, sourceBasis: string, destinationBasis: string, evidence: string)
    | ErasureFenced(operation: string, authorization: string, review: string)
    | BearersEvicted(operation: string)
    | RelatedErased(operation: string)
    | KeyDestroyed(operation: string)
    | DirectoryRetracted(operation: string)
    | ErasureCompleted(operation: string)

  datatype Rejection =
    | InvalidIdentity | MigrationAlreadyStarted | MigrationNotStarted | MigrationNotComplete | OperationMismatch
    | BlockingOwnership | ErasureAlreadyStarted | ErasureNotStarted | BearersNotEvicted | RelatedNotErased
    | KeyNotDestroyed | DirectoryNotRetracted

  type Decided = Result<seq<Event>, Rejection>

  function Progress(erasure: Erasure, operation: string, done: bool, event: Event): Decided {
    match erasure
    case Fenced(existing, _, _, _, _, _, _) =>
      if existing != operation then Err(OperationMismatch)
      else if done then Ok([])
      else if Blank(operation) then Err(InvalidIdentity)
      else Ok([event])
    case Erased(_) => Err(OperationMismatch)
    case Available => Err(ErasureNotStarted)
  }

  function DecideMigration(s: Standing, c: Command): Decided
    requires c.BeginMigration? || c.CompleteMigration?
  {
    match c
    case BeginMigration(operation, basis) =>
      if s.migration.Legacy? then
        if Blank(operation) || Blank(basis) then Err(InvalidIdentity)
        else Ok([MigrationStarted(Trim(operation), Trim(basis))])
      else if s.migration == Copying(operation, basis) then Ok([])
      else Err(MigrationAlreadyStarted)
    case CompleteMigration(operation, destination, evidence) =>
      (match s.migration
       case Legacy => Err(MigrationNotStarted)
       case Copying(existing, basis) =>
         if existing != operation then Err(OperationMismatch)
         else if Blank(destination) || Blank(evidence) then Err(InvalidIdentity)
         else Ok([MigrationCompleted(existing, basis, Trim(destination), Trim(evidence))])
       case Migrated(existing, basis, destination', evidence') =>
         if existing == operation && destination' == destination && evidence' == evidence then Ok([])
         else Err(OperationMismatch))
  }

  function DecideFence(s: Standing, operation: string, authorization: string, review: string, blockers: seq<string>)
    : Decided
  {
    if blockers != [] then Err(BlockingOwnership)
    else if !s.migration.Migrated? then Err(MigrationNotComplete)
    else
      match s.erasure
      case Available =>
        if Blank(operation) || Blank(authorization) || Blank(review) then Err(InvalidIdentity)
        else Ok([ErasureFenced(Trim(operation), Trim(authorization), Trim(review))])
      case Fenced(operation', authorization', review', _, _, _, _) =>
        if operation' == operation && authorization' == authorization && review' == review then Ok([])
        else Err(ErasureAlreadyStarted)
      case Erased(_) => Err(ErasureAlreadyStarted)
  }

  function DecideKey(e: Erasure, operation: string): Decided {
    match e
    case Fenced(existing, _, _, bearers, related, key, _) =>
      if existing != operation then Err(OperationMismatch)
      else if !bearers then Err(BearersNotEvicted)
      else if !related then Err(RelatedNotErased)
      else if key then Ok([])
      else Ok([KeyDestroyed(operation)])
    case Erased(_) => Err(OperationMismatch)
    case Available => Err(ErasureNotStarted)
  }

  function DecideErased(e: Erasure, operation: string): Decided {
    match e
    case Fenced(existing, _, _, _, _, key, directory) =>
      if existing != operation then Err(OperationMismatch)
      else if !key then Err(KeyNotDestroyed)
      else if !directory then Err(DirectoryNotRetracted)
      else Ok([ErasureCompleted(operation)])
    case Erased(existing) => if existing == operation then Ok([]) else Err(OperationMismatch)
    case Available => Err(ErasureNotStarted)
  }

  function Decide(s: Standing, c: Command): Decided {
    match c
    case BeginMigration(_, _) => DecideMigration(s, c)
    case CompleteMigration(_, _, _) => DecideMigration(s, c)
    case FenceErasure(operation, authorization, review, blockers) =>
      DecideFence(s, operation, authorization, review, blockers)
    case RecordBearersEvicted(operation) =>
      Progress(s.erasure, operation, s.erasure.Fenced? && s.erasure.bearersEvicted, BearersEvicted(Trim(operation)))
    case RecordRelatedErased(operation) =>
      Progress(s.erasure, operation, s.erasure.Fenced? && s.erasure.relatedErased, RelatedErased(Trim(operation)))
    case RecordKeyDestroyed(operation) => DecideKey(s.erasure, operation)
    case RecordDirectoryRetracted(operation) =>
      Progress(s.erasure, operation, s.erasure.Fenced? && s.erasure.directoryRetracted,
               DirectoryRetracted(Trim(operation)))
    case CompleteErasure(operation) => DecideErased(s.erasure, operation)
  }

  function Evolve(s: Standing, event: Event): Standing {
    var mine := s.erasure.Fenced? && s.erasure.operation == event.operation;
    match event
    case MigrationStarted(operation, basis) => s.(migration := Copying(operation, basis))
    case MigrationCompleted(operation, basis, destination, evidence) =>
      s.(migration := Migrated(operation, basis, destination, evidence))
    case ErasureFenced(operation, authorization, review) =>
      s.(erasure := Fenced(operation, authorization, review, false, false, false, false))
    case BearersEvicted(_) => if mine then s.(erasure := s.erasure.(bearersEvicted := true)) else s
    case RelatedErased(_) => if mine then s.(erasure := s.erasure.(relatedErased := true)) else s
    case KeyDestroyed(_) => if mine then s.(erasure := s.erasure.(keyDestroyed := true)) else s
    case DirectoryRetracted(_) => if mine then s.(erasure := s.erasure.(directoryRetracted := true)) else s
    case ErasureCompleted(operation) => s.(erasure := Erased(operation))
  }

  function EvolveAll(s: Standing, log: seq<Event>): Standing {
    if log == [] then s else Evolve(EvolveAll(s, log[..|log| - 1]), log[|log| - 1])
  }

  /** One command: what it adds to the log, nothing when it is refused. */
  function Admit(log: seq<Event>, c: Command): seq<Event> {
    var d := Decide(EvolveAll(Initial, log), c);
    if d.Ok? then log + d.value else log
  }

  /** The log a list of commands leaves. */
  function Log(commands: seq<Command>): seq<Event> {
    if commands == [] then [] else Admit(Log(commands[..|commands| - 1]), commands[|commands| - 1])
  }

  // ---- the order of events ---------------------------------------------------------------------

  datatype Kind = Started | Completed | Fence | Bearers | Related | Key | Directory | Done

  function KindOf(e: Event): Kind {
    match e
    case MigrationStarted(_, _) => Started
    case MigrationCompleted(_, _, _, _) => Completed
    case ErasureFenced(_, _, _) => Fence
    case BearersEvicted(_) => Bearers
    case RelatedErased(_) => Related
    case KeyDestroyed(_) => Key
    case DirectoryRetracted(_) => Directory
    case ErasureCompleted(_) => Done
  }

  function Kinds(log: seq<Event>): seq<Kind> {
    if log == [] then [] else Kinds(log[..|log| - 1]) + [KindOf(log[|log| - 1])]
  }

  /** What must have happened before a kind of event. */
  function Needs(k: Kind): set<Kind> {
    match k
    case Started => {}
    case Completed => {Started}
    case Fence => {Completed}
    case Bearers => {Fence}
    case Related => {Fence}
    case Key => {Bearers, Related}
    case Directory => {Fence}
    case Done => {Key, Directory}
  }

  function SetOf(kinds: seq<Kind>): set<Kind> {
    set k | k in kinds
  }

  /** Each kind at most once, and only after what it needs. */
  ghost predicate Legal(kinds: seq<Kind>) {
    forall i | 0 <= i < |kinds| :: kinds[i] !in kinds[..i] && Needs(kinds[i]) <= SetOf(kinds[..i])
  }

  lemma LegalSnoc(kinds: seq<Kind>, k: Kind)
    ensures Legal(kinds + [k]) <==> Legal(kinds) && k !in kinds && Needs(k) <= SetOf(kinds)
  {
    var more := kinds + [k];
    assert more[..|kinds|] == kinds && more[|kinds|] == k;
    assert forall i | 0 <= i < |kinds| :: more[..i] == kinds[..i] && more[i] == kinds[i];
  }

  lemma {:induction false} LegalSize(kinds: seq<Kind>)
    requires Legal(kinds)
    ensures |SetOf(kinds)| == |kinds|
  {
    hide Legal, Needs;
    if kinds != [] {
      var before, last := kinds[..|kinds| - 1], kinds[|kinds| - 1];
      assert kinds == before + [last];
      LegalSnoc(before, last);
      LegalSize(before);
      assert SetOf(kinds) == SetOf(before) + {last};
    }
  }

  const AllKinds := {Started, Completed, Fence, Bearers, Related, Key, Directory, Done}

  lemma EveryKind(k: Kind)
    ensures k in AllKinds
  {
    match k {
      case Started => case Completed => case Fence => case Bearers =>
      case Related => case Key => case Directory => case Done =>
    }
  }

  lemma SubsetSize(a: set<Kind>, b: set<Kind>)
    requires a <= b
    ensures |a| <= |b| && (|a| == |b| <==> a == b)
  {
    assert b == a + (b - a);
  }

  lemma AtMostEight(kinds: seq<Kind>)
    requires Legal(kinds)
    ensures |kinds| <= 8
    ensures |kinds| == 8 <==> Done in kinds
  {
    hide Legal, Needs;
    LegalSize(kinds);
    assert |AllKinds| == 8;
    forall k | k in SetOf(kinds) {
      EveryKind(k);
    }
    SubsetSize(SetOf(kinds), AllKinds);
    if Done in kinds {
      DoneIsAll(kinds);
    }
  }

  lemma DoneIsAll(kinds: seq<Kind>)
    requires Legal(kinds) && Done in kinds
    ensures SetOf(kinds) == AllKinds
  {
    hide Legal;
    Closed(kinds, Done);
    Closed(kinds, Key);
    Closed(kinds, Bearers);
    Closed(kinds, Fence);
    Closed(kinds, Completed);
    forall k | k in SetOf(kinds) {
      EveryKind(k);
    }
  }

  lemma Closed(kinds: seq<Kind>, k: Kind)
    requires Legal(kinds) && k in kinds
    ensures Needs(k) <= SetOf(kinds)
  {
    var i :| 0 <= i < |kinds| && kinds[i] == k;
    assert SetOf(kinds[..i]) <= SetOf(kinds);
  }

  /** The three first events are always the same ones. */
  lemma FirstThree(kinds: seq<Kind>)
    requires Legal(kinds)
    ensures |kinds| > 0 ==> kinds[0] == Started
    ensures |kinds| > 1 ==> kinds[1] == Completed
    ensures |kinds| > 2 ==> kinds[2] == Fence
  {
    if |kinds| > 0 {
      assert SetOf(kinds[..0]) == {};
      assert Needs(kinds[0]) == {};
    }
    if |kinds| > 1 {
      assert SetOf(kinds[..1]) == {Started};
    }
    if |kinds| > 2 {
      assert SetOf(kinds[..2]) == {Started, Completed};
    }
  }

  // ---- a standing says exactly what has happened -------------------------------------------------

  /** The standing reached once a set of kinds has happened, whatever their order. */
  ghost predicate Reflects(s: Standing, happened: set<Kind>) {
    && (s.migration.Legacy? <==> Started !in happened)
    && (s.migration.Migrated? <==> Completed in happened)
    && (s.erasure.Available? <==> Fence !in happened)
    && (s.erasure.Erased? <==> Done in happened)
    && (s.erasure.Fenced? ==>
          && (s.erasure.bearersEvicted <==> Bearers in happened)
          && (s.erasure.relatedErased <==> Related in happened)
          && (s.erasure.keyDestroyed <==> Key in happened)
          && (s.erasure.directoryRetracted <==> Directory in happened)
          && Trim(s.erasure.operation) == s.erasure.operation != "")
  }

  ghost predicate LogHolds(log: seq<Event>) {
    Legal(Kinds(log)) && Reflects(EvolveAll(Initial, log), SetOf(Kinds(log)))
  }

  lemma KindsSnoc(log: seq<Event>, e: Event)
    ensures Kinds(log + [e]) == Kinds(log) + [KindOf(e)]
    ensures EvolveAll(Initial, log + [e]) == Evolve(EvolveAll(Initial, log), e)
    ensures SetOf(Kinds(log + [e])) == SetOf(Kinds(log)) + {KindOf(e)}
  {
    assert (log + [e])[..|log|] == log;
  }

  /** A command adds at most one event, one that the log allows. */
  lemma DecideLegal(s: Standing, happened: set<Kind>, c: Command)
    requires Reflects(s, happened)
    requires forall k | k in happened :: Needs(k) <= happened
    ensures var d := Decide(s, c);
            d.Ok? && d.value != [] ==>
              && |d.value| == 1
              && KindOf(d.value[0]) !in happened && Needs(KindOf(d.value[0])) <= happened
              && Reflects(Evolve(s, d.value[0]), happened + {KindOf(d.value[0])})
  {
    hide Trim;
    match c {
      case FenceErasure(operation, _, _, _) => TrimTwice(operation);
      case _ =>
    }
  }

  lemma OnlyBeginStarts(s: Standing, c: Command)
    requires Decide(s, c).Ok? && Decide(s, c).value != []
    ensures KindOf(Decide(s, c).value[0]) == Started <==> c.BeginMigration?
  {
    hide Trim, Evolve;
  }

  lemma AdmitHolds(log: seq<Event>, c: Command)
    requires LogHolds(log)
    ensures LogHolds(Admit(log, c))
  {
    hide Decide, Evolve, Reflects;
    var s := EvolveAll(Initial, log);
    forall k | k in SetOf(Kinds(log))
      ensures Needs(k) <= SetOf(Kinds(log))
    {
      Closed(Kinds(log), k);
    }
    DecideLegal(s, SetOf(Kinds(log)), c);
    var d := Decide(s, c);
    if d.Ok? && d.value != [] {
      var e := d.value[0];
      assert d.value == [e];
      KindsSnoc(log, e);
      LegalSnoc(Kinds(log), KindOf(e));
    } else if d.Ok? {
      assert log + d.value == log;
    }
  }

  lemma {:induction false} RunHolds(commands: seq<Command>)
    ensures LogHolds(Log(commands))
  {
    hide Admit, LogHolds;
    if commands == [] {
      EmptyHolds();
    } else {
      RunHolds(commands[..|commands| - 1]);
      AdmitHolds(Log(commands[..|commands| - 1]), commands[|commands| - 1]);
    }
  }

  lemma EmptyHolds()
    ensures LogHolds([])
  {
  }

  // ---- what every run keeps ------------------------------------------------------------------------

  /** Every log has at most eight events: started, completed, fenced, then bearers and
      related scopes in either order before the key, the directory anywhere, and erased
      last of all. No event comes twice. */
  lemma ErasureTrace(commands: seq<Command>, i: nat)
    requires i < |Kinds(Log(commands))|
    ensures var kinds := Kinds(Log(commands));
            && |Log(commands)| == |kinds| <= 8
            && (i == 0 ==> kinds[i] == Started) && (i == 1 ==> kinds[i] == Completed) && (i == 2 ==> kinds[i] == Fence)
            && (i > 2 ==> kinds[i] in {Bearers, Related, Key, Directory, Done})
            && (kinds[i] == Key ==> Bearers in kinds[..i] && Related in kinds[..i])
            && (kinds[i] == Done ==> i == 7 && Key in kinds[..i] && Directory in kinds[..i])
            && kinds[i] !in kinds[..i]
  {
    hide Log, Kinds, Reflects, EvolveAll, Legal;
    RunHolds(commands);
    KindsLength(Log(commands));
    TraceOrder(Kinds(Log(commands)), i);
  }

  lemma TraceOrder(kinds: seq<Kind>, i: nat)
    requires Legal(kinds) && i < |kinds|
    ensures |kinds| <= 8
    ensures (i == 0 ==> kinds[i] == Started) && (i == 1 ==> kinds[i] == Completed) && (i == 2 ==> kinds[i] == Fence)
    ensures i > 2 ==> kinds[i] in {Bearers, Related, Key, Directory, Done}
    ensures kinds[i] == Key ==> Bearers in kinds[..i] && Related in kinds[..i]
    ensures kinds[i] == Done ==> i == 7 && Key in kinds[..i] && Directory in kinds[..i]
    ensures kinds[i] !in kinds[..i]
  {
    AtMostEight(kinds);
    FirstThree(kinds);
    if kinds[i] == Done {
      Truncated(kinds, i + 1);
      LastIsDone(kinds, i);
    }
    if i > 2 {
      LaterKinds(kinds, i);
    }
  }

  lemma LastIsDone(kinds: seq<Kind>, i: nat)
    requires i < |kinds| && kinds[i] == Done && Legal(kinds[..i + 1])
    ensures i == 7
  {
    hide Legal;
    assert kinds[..i + 1][i] == Done;
    AtMostEight(kinds[..i + 1]);
  }

  lemma LaterKinds(kinds: seq<Kind>, i: nat)
    requires 2 < i < |kinds| && kinds[i] !in kinds[..i]
    requires kinds[0] == Started && kinds[1] == Completed && kinds[2] == Fence
    ensures kinds[i] in {Bearers, Related, Key, Directory, Done}
  {
    assert kinds[..i][0] == Started && kinds[..i][1] == Completed && kinds[..i][2] == Fence;
    EveryKind(kinds[i]);
  }

  lemma {:induction false} KindsLength(log: seq<Event>)
    ensures |Kinds(log)| == |log|
  {
    if log != [] {
      KindsLength(log[..|log| - 1]);
    }
  }

  lemma Truncated(kinds: seq<Kind>, n: nat)
    requires Legal(kinds) && n <= |kinds|
    ensures Legal(kinds[..n])
  {
    assert forall i | 0 <= i < n :: kinds[..n][..i] == kinds[..i];
  }

  lemma {:induction false} LogGrows(commands: seq<Command>, more: seq<Command>)
    ensures Log(commands) <= Log(commands + more)
    ensures SetOf(Kinds(Log(commands))) <= SetOf(Kinds(Log(commands + more)))
    decreases |more|
  {
    hide Admit, Kinds;
    if more == [] {
      assert commands + more == commands;
    } else {
      var all := commands + more;
      assert all[..|all| - 1] == commands + more[..|more| - 1];
      LogGrows(commands, more[..|more| - 1]);
      AdmitGrows(Log(all[..|all| - 1]), all[|all| - 1]);
    }
  }

  lemma AdmitGrows(log: seq<Event>, c: Command)
    ensures log <= Admit(log, c)
    ensures SetOf(Kinds(log)) <= SetOf(Kinds(Admit(log, c)))
  {
    hide Decide;
    KindsGrow(log, Admit(log, c)[|log|..]);
    assert Admit(log, c) == log + Admit(log, c)[|log|..];
  }

  lemma {:induction false} KindsGrow(log: seq<Event>, more: seq<Event>)
    ensures SetOf(Kinds(log)) <= SetOf(Kinds(log + more))
    decreases |more|
  {
    if more == [] {
      assert log + more == log;
    } else {
      KindsGrow(log, more[..|more| - 1]);
      assert log + more == log + more[..|more| - 1] + [more[|more| - 1]];
      KindsSnoc(log + more[..|more| - 1], more[|more| - 1]);
    }
  }

  /** Signing in stops with the fence and stays off whatever is submitted later. */
  lemma FencedForever(commands: seq<Command>, more: seq<Command>)
    ensures EvolveAll(Initial, Log(commands)).MayAuthenticate() <==> Fence !in Kinds(Log(commands))
    ensures !EvolveAll(Initial, Log(commands)).MayAuthenticate() ==>
              !EvolveAll(Initial, Log(commands + more)).MayAuthenticate()
  {
    RunHolds(commands);
    RunHolds(commands + more);
    LogGrows(commands, more);
  }

  // ---- every allowed order happens, and reaches the same standing ----------------------------------

  /** The identities one account's move and erasure are made under. */
  datatype Ids = Ids(move: string, basis: string, destination: string, evidence: string,
                     erasure: string, authorization: string, review: string)

  ghost predicate Clean(s: string) {
    Trim(s) == s != ""
  }

  ghost predicate CleanIds(ids: Ids) {
    Clean(ids.move) && Clean(ids.basis) && Clean(ids.destination) && Clean(ids.evidence)
    && Clean(ids.erasure) && Clean(ids.authorization) && Clean(ids.review)
  }

  function CommandFor(ids: Ids, k: Kind): Command {
    match k
    case Started => BeginMigration(ids.move, ids.basis)
    case Completed => CompleteMigration(ids.move, ids.destination, ids.evidence)
    case Fence => FenceErasure(ids.erasure, ids.authorization, ids.review, [])
    case Bearers => RecordBearersEvicted(ids.erasure)
    case Related => RecordRelatedErased(ids.erasure)
    case Key => RecordKeyDestroyed(ids.erasure)
    case Directory => RecordDirectoryRetracted(ids.erasure)
    case Done => CompleteErasure(ids.erasure)
  }

  function CommandsFor(ids: Ids, kinds: seq<Kind>): seq<Command> {
    if kinds == [] then [] else CommandsFor(ids, kinds[..|kinds| - 1]) + [CommandFor(ids, kinds[|kinds| - 1])]
  }

  /** The standing once these kinds have happened: their order is not in it. */
  function StandingOf(ids: Ids, happened: set<Kind>): Standing {
    Standing(
      if Completed in happened then Migrated(ids.move, ids.basis, ids.destination, ids.evidence)
      else if Started in happened then Copying(ids.move, ids.basis)
      else Legacy,
      if Done in happened then Erased(ids.erasure)
      else if Fence in happened then
        Fenced(ids.erasure, ids.authorization, ids.review,
               Bearers in happened, Related in happened, Key in happened, Directory in happened)
      else Available)
  }

  lemma RealizeOne(ids: Ids, happened: set<Kind>, k: Kind)
    requires CleanIds(ids) && k !in happened && Needs(k) <= happened
    requires forall j | j in happened :: Needs(j) <= happened
    ensures var d := Decide(StandingOf(ids, happened), CommandFor(ids, k));
            && d.Ok? && |d.value| == 1 && KindOf(d.value[0]) == k
            && Evolve(StandingOf(ids, happened), d.value[0]) == StandingOf(ids, happened + {k})
  {
    hide Trim, Decide, Evolve, StandingOf, CommandFor, CleanIds;
    if k in {Started, Completed, Fence} {
      RealizeMove(ids, happened, k);
    } else {
      RealizeErasure(ids, happened, k);
    }
  }

  lemma RealizeMove(ids: Ids, happened: set<Kind>, k: Kind)
    requires CleanIds(ids) && k !in happened && Needs(k) <= happened && k in {Started, Completed, Fence}
    requires forall j | j in happened :: Needs(j) <= happened
    ensures var d := Decide(StandingOf(ids, happened), CommandFor(ids, k));
            && d.Ok? && |d.value| == 1 && KindOf(d.value[0]) == k
            && Evolve(StandingOf(ids, happened), d.value[0]) == StandingOf(ids, happened + {k})
  {
    hide Trim;
  }

  lemma RealizeErasure(ids: Ids, happened: set<Kind>, k: Kind)
    requires CleanIds(ids) && k !in happened && Needs(k) <= happened && k !in {Started, Completed, Fence}
    requires forall j | j in happened :: Needs(j) <= happened
    ensures var d := Decide(StandingOf(ids, happened), CommandFor(ids, k));
            && d.Ok? && |d.value| == 1 && KindOf(d.value[0]) == k
            && Evolve(StandingOf(ids, happened), d.value[0]) == StandingOf(ids, happened + {k})
  {
    hide Trim;
  }

  /** Every order that respects the needs is admitted event by event, and the standing it
      reaches depends only on which events have happened. */
  lemma {:induction false} EveryLegalOrder(ids: Ids, kinds: seq<Kind>)
    requires CleanIds(ids) && Legal(kinds)
    ensures Kinds(Log(CommandsFor(ids, kinds))) == kinds
    ensures EvolveAll(Initial, Log(CommandsFor(ids, kinds))) == StandingOf(ids, SetOf(kinds))
    decreases |kinds|
  {
    hide Legal, Decide, Evolve, StandingOf, CommandFor, CleanIds;
    if kinds == [] {
      NothingHappened(ids);
    } else {
      var before, last := kinds[..|kinds| - 1], kinds[|kinds| - 1];
      assert kinds == before + [last];
      LegalSnoc(before, last);
      EveryLegalOrder(ids, before);
      forall j | j in SetOf(before)
        ensures Needs(j) <= SetOf(before)
      {
        Closed(before, j);
      }
      RealizeOne(ids, SetOf(before), last);
      var commands := CommandsFor(ids, before);
      assert CommandsFor(ids, kinds)[..|commands|] == commands;
      var log := Log(commands);
      var e := Decide(EvolveAll(Initial, log), CommandFor(ids, last)).value[0];
      assert Log(CommandsFor(ids, kinds)) == log + [e];
      KindsSnoc(log, e);
      assert SetOf(kinds) == SetOf(before) + {last};
    }
  }

  lemma NothingHappened(ids: Ids)
    ensures StandingOf(ids, SetOf([])) == Initial
  {
  }

  /** Every complete order ends erased, in one and the same standing. */
  lemma OneErasedStanding(ids: Ids, kinds: seq<Kind>)
    requires CleanIds(ids) && Legal(kinds) && |kinds| == 8
    ensures EvolveAll(Initial, Log(CommandsFor(ids, kinds)))
         == Standing(Migrated(ids.move, ids.basis, ids.destination, ids.evidence), Erased(ids.erasure))
  {
    EveryLegalOrder(ids, kinds);
    AtMostEight(kinds);
    DoneIsAll(kinds);
  }

  // ---- saying it again -----------------------------------------------------------------------------

  /** The identities a retry is compared by are already trimmed. */
  ghost predicate Trimmed(c: Command) {
    match c
    case BeginMigration(operation, basis) => Trim(operation) == operation && Trim(basis) == basis
    case CompleteMigration(_, destination, evidence) => Trim(destination) == destination && Trim(evidence) == evidence
    case FenceErasure(operation, authorization, review, _) =>
      Trim(operation) == operation && Trim(authorization) == authorization && Trim(review) == review
    case _ => true
  }

  /** An admitted command said again at once adds nothing exactly when its identities were
      trimmed; otherwise it is refused. */
  lemma RetryIsSilent(commands: seq<Command>, c: Command)
    requires Log(commands + [c]) != Log(commands)
    ensures var again := Decide(EvolveAll(Initial, Log(commands + [c])), c);
            if Trimmed(c) then again == Ok([]) else again.Err?
  {
    hide Trim;
    RunHolds(commands);
    var log := Log(commands);
    var s := EvolveAll(Initial, log);
    assert (commands + [c])[..|commands|] == commands;
    forall k | k in SetOf(Kinds(log))
      ensures Needs(k) <= SetOf(Kinds(log))
    {
      Closed(Kinds(log), k);
    }
    DecideLegal(s, SetOf(Kinds(log)), c);
    var e := Decide(s, c).value[0];
    assert Decide(s, c).value == [e];
    KindsSnoc(log, e);
    RetryOne(s, SetOf(Kinds(log)), c);
  }

  lemma RetryOne(s: Standing, happened: set<Kind>, c: Command)
    requires Reflects(s, happened) && Decide(s, c).Ok? && |Decide(s, c).value| == 1
    ensures var again := Decide(Evolve(s, Decide(s, c).value[0]), c);
            if Trimmed(c) then again == Ok([]) else again.Err?
  {
    hide Trim;
  }
}
