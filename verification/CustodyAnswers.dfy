/** What every custody command is answered after any run, told from the events on record
    alone: which have happened, and the identities they carry. */
module CustodyAnswers {
  import opened Base
  import opened Text
  import opened Custody

  ghost predicate Happened(log: seq<Event>, k: Kind) {
    k in Kinds(log)
  }

  /** A move under this operation has been started. */
  ghost predicate Moving(log: seq<Event>, operation: string) {
    exists basis :: MigrationStarted(operation, basis) in log
  }

  /** A fence under this operation is on record. */
  ghost predicate Erasing(log: seq<Event>, operation: string) {
    exists authorization, review :: ErasureFenced(operation, authorization, review) in log
  }

  ghost function BasisOf(log: seq<Event>, operation: string): string
    requires Moving(log, operation)
  {
    var basis :| MigrationStarted(operation, basis) in log;
    basis
  }

  ghost predicate MovedWith(log: seq<Event>, operation: string, destination: string, evidence: string) {
    exists basis :: MigrationCompleted(operation, basis, destination, evidence) in log
  }

  // ---- the answers ---------------------------------------------------------------------------------

  ghost function BeginAnswer(log: seq<Event>, operation: string, basis: string): Decided {
    if Happened(log, Started) then
      if MigrationStarted(operation, basis) in log && !Happened(log, Completed) then Ok([])
      else Err(MigrationAlreadyStarted)
    else if Blank(operation) || Blank(basis) then Err(InvalidIdentity)
    else Ok([MigrationStarted(Trim(operation), Trim(basis))])
  }

  ghost function CompleteAnswer(log: seq<Event>, operation: string, destination: string, evidence: string): Decided {
    if !Happened(log, Started) then Err(MigrationNotStarted)
    else if Happened(log, Completed) then
      if MovedWith(log, operation, destination, evidence) then Ok([]) else Err(OperationMismatch)
    else if !Moving(log, operation) then Err(OperationMismatch)
    else if Blank(destination) || Blank(evidence) then Err(InvalidIdentity)
    else Ok([MigrationCompleted(operation, BasisOf(log, operation), Trim(destination), Trim(evidence))])
  }

  ghost function FenceAnswer(log: seq<Event>, operation: string, authorization: string, review: string,
                             blockers: seq<string>): Decided
  {
    if |blockers| > 0 then Err(BlockingOwnership)
    else if !Happened(log, Completed) then Err(MigrationNotComplete)
    else if Happened(log, Fence) then
      if ErasureFenced(operation, authorization, review) in log && !Happened(log, Done) then Ok([])
      else Err(ErasureAlreadyStarted)
    else if Blank(operation) || Blank(authorization) || Blank(review) then Err(InvalidIdentity)
    else Ok([ErasureFenced(Trim(operation), Trim(authorization), Trim(review))])
  }

  /** A step of the erasure: silent when it has happened, refused unless the fence is this
      operation's and the erasure is not over. */
  ghost function StepAnswer(log: seq<Event>, operation: string, event: Event): Decided {
    if !Happened(log, Fence) then Err(ErasureNotStarted)
    else if Happened(log, Done) || !Erasing(log, operation) then Err(OperationMismatch)
    else if Happened(log, KindOf(event)) then Ok([])
    else Ok([event])
  }

  ghost function KeyAnswer(log: seq<Event>, operation: string): Decided {
    if Happened(log, Fence) && !Happened(log, Done) && Erasing(log, operation) && !Happened(log, Bearers) then
      Err(BearersNotEvicted)
    else if Happened(log, Fence) && !Happened(log, Done) && Erasing(log, operation) && !Happened(log, Related) then
      Err(RelatedNotErased)
    else StepAnswer(log, operation, KeyDestroyed(operation))
  }

  ghost function ErasedAnswer(log: seq<Event>, operation: string): Decided {
    if !Happened(log, Fence) then Err(ErasureNotStarted)
    else if !Erasing(log, operation) then Err(OperationMismatch)
    else if Happened(log, Done) then Ok([])
    else if !Happened(log, Key) then Err(KeyNotDestroyed)
    else if !Happened(log, Directory) then Err(DirectoryNotRetracted)
    else Ok([ErasureCompleted(operation)])
  }

  ghost function Answer(log: seq<Event>, c: Command): Decided {
    match c
    case BeginMigration(operation, basis) => BeginAnswer(log, operation, basis)
    case CompleteMigration(operation, destination, evidence) => CompleteAnswer(log, operation, destination, evidence)
    case FenceErasure(operation, authorization, review, blockers) =>
      FenceAnswer(log, operation, authorization, review, blockers)
    case RecordBearersEvicted(operation) => StepAnswer(log, operation, BearersEvicted(operation))
    case RecordRelatedErased(operation) => StepAnswer(log, operation, RelatedErased(operation))
    case RecordKeyDestroyed(operation) => KeyAnswer(log, operation)
    case RecordDirectoryRetracted(operation) => StepAnswer(log, operation, DirectoryRetracted(operation))
    case CompleteErasure(operation) => ErasedAnswer(log, operation)
  }

  // ---- a standing carries the identities on record -------------------------------------------------

  ghost predicate Carries(s: Standing, log: seq<Event>) {
    && (match s.migration
        case Legacy => true
        case Copying(operation, basis) => MigrationStarted(operation, basis) in log
        case Migrated(operation, basis, destination, evidence) =>
          && MigrationStarted(operation, basis) in log
          && MigrationCompleted(operation, basis, destination, evidence) in log)
    && (match s.erasure
        case Available => true
        case Fenced(operation, authorization, review, _, _, _, _) =>
          ErasureFenced(operation, authorization, review) in log
        case Erased(operation) => Erasing(log, operation) && ErasureCompleted(operation) in log)
  }

  lemma CarriesOne(s: Standing, log: seq<Event>, c: Command)
    requires Carries(s, log) && Decide(s, c).Ok? && |Decide(s, c).value| == 1
    ensures Carries(Evolve(s, Decide(s, c).value[0]), log + Decide(s, c).value)
  {
    hide Trim;
    var e := Decide(s, c).value[0];
    assert e in log + [e] && forall x | x in log :: x in log + [e];
    if s.erasure.Fenced? {
      assert Erasing(log + [e], s.erasure.operation);
    }
    if s.erasure.Erased? {
      assert Erasing(log + [e], s.erasure.operation);
    }
  }

  lemma {:induction false} RunCarries(commands: seq<Command>)
    ensures Carries(EvolveAll(Initial, Log(commands)), Log(commands))
  {
    hide Decide, Evolve, Carries, LogHolds, Reflects;
    if commands == [] {
      NothingCarried();
    } else {
      var before, c := commands[..|commands| - 1], commands[|commands| - 1];
      RunCarries(before);
      AddsOne(before, c);
      var s := EvolveAll(Initial, Log(before));
      var d := Decide(s, c);
      if d.Ok? && d.value != [] {
        CarriesOne(s, Log(before), c);
        KindsSnoc(Log(before), d.value[0]);
        assert d.value == [d.value[0]];
      } else if d.Ok? {
        assert Log(before) + d.value == Log(before);
      }
    }
  }

  lemma NothingCarried()
    ensures Carries(EvolveAll(Initial, Log([])), Log([]))
  {
  }

  lemma AddsOne(commands: seq<Command>, c: Command)
    ensures var d := Decide(EvolveAll(Initial, Log(commands)), c); d.Ok? ==> |d.value| <= 1
  {
    hide Decide, Evolve, Reflects;
    RunHolds(commands);
    var kinds := Kinds(Log(commands));
    forall k | k in SetOf(kinds)
      ensures Needs(k) <= SetOf(kinds)
    {
      Closed(kinds, k);
    }
    DecideLegal(EvolveAll(Initial, Log(commands)), SetOf(kinds), c);
  }

  lemma {:induction false} KindAt(log: seq<Event>, i: nat)
    requires i < |log|
    ensures |Kinds(log)| == |log| && Kinds(log)[i] == KindOf(log[i])
  {
    KindsLength(log);
    KindsLength(log[..|log| - 1]);
    if i < |log| - 1 {
      KindAt(log[..|log| - 1], i);
    }
  }

  /** A log holds at most one event of each kind. */
  lemma OneOfAKind(log: seq<Event>, e: Event, f: Event)
    requires Legal(Kinds(log)) && e in log && f in log && KindOf(e) == KindOf(f)
    ensures e == f
    ensures Happened(log, KindOf(e))
  {
    hide Kinds, KindOf, Needs;
    var i, j :| 0 <= i < |log| && 0 <= j < |log| && log[i] == e && log[j] == f;
    KindAt(log, i);
    KindAt(log, j);
    forall low, high | 0 <= low < high < |log|
      ensures Kinds(log)[low] != Kinds(log)[high]
    {
      assert Kinds(log)[low] in Kinds(log)[..high];
    }
  }

  lemma OneMove(log: seq<Event>, operation: string, basis: string)
    requires Legal(Kinds(log)) && MigrationStarted(operation, basis) in log
    ensures forall o, b | MigrationStarted(o, b) in log :: o == operation && b == basis
    ensures forall o :: Moving(log, o) <==> o == operation
    ensures BasisOf(log, operation) == basis
  {
    hide Legal, Kinds;
    forall o, b | MigrationStarted(o, b) in log
      ensures o == operation && b == basis
    {
      OneOfAKind(log, MigrationStarted(o, b), MigrationStarted(operation, basis));
    }
    assert Moving(log, operation);
  }

  lemma OneCompletion(log: seq<Event>, operation: string, basis: string, destination: string, evidence: string)
    requires Legal(Kinds(log)) && MigrationCompleted(operation, basis, destination, evidence) in log
    ensures forall o, d, e :: MovedWith(log, o, d, e) <==> o == operation && d == destination && e == evidence
  {
    hide Legal, Kinds;
    forall o, b, d, e | MigrationCompleted(o, b, d, e) in log
      ensures o == operation && d == destination && e == evidence
    {
      OneOfAKind(log, MigrationCompleted(o, b, d, e), MigrationCompleted(operation, basis, destination, evidence));
    }
  }

  lemma OneFence(log: seq<Event>, operation: string, authorization: string, review: string)
    requires Legal(Kinds(log)) && ErasureFenced(operation, authorization, review) in log
    ensures forall o, a, r | ErasureFenced(o, a, r) in log :: o == operation && a == authorization && r == review
    ensures forall o :: Erasing(log, o) <==> o == operation
  {
    hide Legal, Kinds;
    forall o, a, r | ErasureFenced(o, a, r) in log
      ensures o == operation && a == authorization && r == review
    {
      OneOfAKind(log, ErasureFenced(o, a, r), ErasureFenced(operation, authorization, review));
    }
    assert Erasing(log, operation);
  }

  // ---- the decision is the answer ------------------------------------------------------------------

  lemma MoveAnswered(s: Standing, log: seq<Event>, c: Command)
    requires LogHolds(log) && s == EvolveAll(Initial, log) && Carries(s, log)
    requires c.BeginMigration? || c.CompleteMigration?
    ensures Decide(s, c) == Answer(log, c)
  {
    hide Trim, EvolveAll, Kinds, Legal, Evolve;
    match s.migration {
      case Legacy =>
      case Copying(operation, basis) =>
        OneMove(log, operation, basis);
      case Migrated(operation, basis, destination, evidence) =>
        OneMove(log, operation, basis);
        OneCompletion(log, operation, basis, destination, evidence);
    }
  }

  lemma ErasureAnswered(s: Standing, log: seq<Event>, c: Command)
    requires LogHolds(log) && s == EvolveAll(Initial, log) && Carries(s, log)
    requires !c.BeginMigration? && !c.CompleteMigration?
    ensures Decide(s, c) == Answer(log, c)
  {
    hide Trim, EvolveAll, Kinds, Legal, Evolve;
    match s.erasure {
      case Available =>
      case Fenced(operation, authorization, review, _, _, _, _) =>
        OneFence(log, operation, authorization, review);
      case Erased(operation) =>
        var authorization, review :| ErasureFenced(operation, authorization, review) in log;
        OneFence(log, operation, authorization, review);
        AllDone(log);
    }
  }

  lemma AllDone(log: seq<Event>)
    requires Legal(Kinds(log)) && Happened(log, Done)
    ensures Happened(log, Completed) && Happened(log, Fence)
  {
    hide Legal, Kinds;
    DoneIsAll(Kinds(log));
  }

  /** After any run every command gets the answer the record calls for: the event it adds, a
      silent yes, or which refusal. */
  lemma CommandAnswers(commands: seq<Command>, c: Command)
    ensures Decide(EvolveAll(Initial, Log(commands)), c) == Answer(Log(commands), c)
  {
    hide Decide, Evolve, EvolveAll, Carries, Answer, LogHolds;
    RunHolds(commands);
    RunCarries(commands);
    var log := Log(commands);
    if c.BeginMigration? || c.CompleteMigration? {
      MoveAnswered(EvolveAll(Initial, log), log, c);
    } else {
      ErasureAnswered(EvolveAll(Initial, log), log, c);
    }
  }

  /** A fence is added exactly when nothing blocks it, the move is complete, there is none
      yet and no identity is blank. */
  lemma FenceAdded(commands: seq<Command>, operation: string, authorization: string, review: string,
                   blockers: seq<string>)
    ensures Fence !in Kinds(Log(commands)) ==>
              (Fence in Kinds(Log(commands + [FenceErasure(operation, authorization, review, blockers)]))
               <==>
               && blockers == [] && Completed in Kinds(Log(commands))
               && !Blank(operation) && !Blank(authorization) && !Blank(review))
  {
    hide Decide, Evolve, EvolveAll, Trim;
    var c := FenceErasure(operation, authorization, review, blockers);
    assert (commands + [c])[..|commands|] == commands;
    CommandAnswers(commands, c);
    var d := Answer(Log(commands), c);
    if d.Ok? && d.value != [] {
      KindsSnoc(Log(commands), d.value[0]);
    }
  }

  /** The command an event records, its names trimmed. */
  ghost predicate Asked(c: Command, e: Event) {
    match e
    case MigrationStarted(operation, basis) =>
      && c.BeginMigration? && operation == Trim(c.operation) != "" && basis == Trim(c.sourceBasis) != ""
    case MigrationCompleted(operation, _, destination, evidence) =>
      && c.CompleteMigration? && operation == c.operation
      && destination == Trim(c.destinationBasis) != "" && evidence == Trim(c.evidence) != ""
    case ErasureFenced(operation, authorization, review) =>
      && c.FenceErasure? && c.blockers == [] && operation == Trim(c.operation) != ""
      && authorization == Trim(c.authorization) != "" && review == Trim(c.review) != ""
    case BearersEvicted(operation) => c == RecordBearersEvicted(operation)
    case RelatedErased(operation) => c == RecordRelatedErased(operation)
    case KeyDestroyed(operation) => c == RecordKeyDestroyed(operation)
    case DirectoryRetracted(operation) => c == RecordDirectoryRetracted(operation)
    case ErasureCompleted(operation) => c == CompleteErasure(operation)
  }

  lemma AnswerWasAsked(log: seq<Event>, c: Command)
    requires Answer(log, c).Ok? && Answer(log, c).value != []
    ensures |Answer(log, c).value| == 1 && Asked(c, Answer(log, c).value[0])
  {
    hide Trim, Happened;
  }

  /** Every event on record was added by the command that asked for it; a fence by one that
      nothing blocked. */
  lemma {:induction false} EventWasAsked(commands: seq<Command>, e: Event) returns (i: nat)
    requires e in Log(commands)
    ensures i < |commands| && Asked(commands[i], e)
    ensures e !in Log(commands[..i]) && e in Log(commands[..i + 1])
  {
    hide Decide, EvolveAll, Answer, Asked;
    var before, c := commands[..|commands| - 1], commands[|commands| - 1];
    if e in Log(before) {
      i := EventWasAsked(before, e);
      assert before[..i] == commands[..i] && before[..i + 1] == commands[..i + 1];
    } else {
      i := |commands| - 1;
      CommandAnswers(before, c);
      var d := Answer(Log(before), c);
      assert d.Ok? && e in d.value;
      AnswerWasAsked(Log(before), c);
      assert commands[..i + 1] == commands;
    }
  }
}
