/** The account-authentication records and the projection they fold into: eight maps, one
    for each kind of record. */
module AuthData {
  import opened Base

  datatype MethodStatus = Active | Revoked

  datatype BatchStatus = Current | Replaced

  datatype SubjectOrigin = ConsumerOidc | EnterpriseOidc | EnterpriseSaml

  datatype AttemptOutcome = Succeeded | InvalidProof | RateLimited | CustodyUnavailable

  datatype RootRecord = RootRecord(id: string, op: RecordOp, sealedSeed: string, createdAt: nat)

  datatype EmailRecord = EmailRecord(id: string, op: RecordOp, account: string, email: string,
                                     verifiedAt: nat, status: MethodStatus)

  datatype PasskeyRecord = PasskeyRecord(id: string, op: RecordOp, account: string, verifier: string,
                                         name: string, createdAt: nat, status: MethodStatus)

  datatype SubjectRecord = SubjectRecord(id: string, op: RecordOp, account: string, connection: string,
                                         issuer: string, subject: string, origin: SubjectOrigin, linkedAt: nat,
                                         status: MethodStatus)

  datatype BatchRecord = BatchRecord(id: string, op: RecordOp, account: string, createdAt: nat, status: BatchStatus)

  datatype CodeRecord = CodeRecord(id: string, op: RecordOp, account: string, batch: string, salt: string,
                                   codeHash: string, consumedAt: Option<nat>)

  datatype AttemptRecord = AttemptRecord(id: string, op: RecordOp, target: string, account: Option<string>,
                                         attemptedAt: nat, outcome: AttemptOutcome)

  datatype SessionRecord = SessionRecord(id: string, op: RecordOp, account: string, signIn: string, device: string,
                                         issuedAt: nat, lastSeen: nat, lifetime: nat)

  datatype FactKind =
    | RootKind | EmailKind | PasskeyKind | SubjectKind | BatchKind | CodeKind | AttemptKind | SessionKind

  datatype Fact =
    | Root(root: RootRecord)
    | Email(email: EmailRecord)
    | Passkey(passkey: PasskeyRecord)
    | Subject(subject: SubjectRecord)
    | Batch(batch: BatchRecord)
    | Code(code: CodeRecord)
    | Attempt(attempt: AttemptRecord)
    | Session(session: SessionRecord)
  {
    function Kind(): FactKind {
      match this
      case Root(_) => RootKind
      case Email(_) => EmailKind
      case Passkey(_) => PasskeyKind
      case Subject(_) => SubjectKind
      case Batch(_) => BatchKind
      case Code(_) => CodeKind
      case Attempt(_) => AttemptKind
      case Session(_) => SessionKind
    }

    function Id(): string {
      match this
      case Root(r) => r.id
      case Email(r) => r.id
      case Passkey(r) => r.id
      case Subject(r) => r.id
      case Batch(r) => r.id
      case Code(r) => r.id
      case Attempt(r) => r.id
      case Session(r) => r.id
    }

    function Op(): RecordOp {
      match this
      case Root(r) => r.op
      case Email(r) => r.op
      case Passkey(r) => r.op
      case Subject(r) => r.op
      case Batch(r) => r.op
      case Code(r) => r.op
      case Attempt(r) => r.op
      case Session(r) => r.op
    }

    /** The account whose scope may hold this fact; an unresolved recovery attempt has none. */
    function Account(): Option<string> {
      match this
      case Root(r) => Some(r.id)
      case Email(r) => Some(r.account)
      case Passkey(r) => Some(r.account)
      case Subject(r) => Some(r.account)
      case Batch(r) => Some(r.account)
      case Code(r) => Some(r.account)
      case Attempt(r) => r.account
      case Session(r) => Some(r.account)
    }
  }

  datatype AccountAuth = AccountAuth(
    roots: map<string, RootRecord>,
    emails: map<string, EmailRecord>,
    passkeys: map<string, PasskeyRecord>,
    subjects: map<string, SubjectRecord>,
    batches: map<string, BatchRecord>,
    codes: map<string, CodeRecord>,
    attempts: map<string, AttemptRecord>,
    sessions: map<string, SessionRecord>)
  {
    /** The live record of one kind under one id, whichever map it is in. */
    function Lookup(kind: FactKind, id: string): Option<Fact> {
      match kind
      case RootKind => if id in roots then Some(Root(roots[id])) else None
      case EmailKind => if id in emails then Some(Email(emails[id])) else None
      case PasskeyKind => if id in passkeys then Some(Passkey(passkeys[id])) else None
      case SubjectKind => if id in subjects then Some(Subject(subjects[id])) else None
      case BatchKind => if id in batches then Some(Batch(batches[id])) else None
      case CodeKind => if id in codes then Some(Code(codes[id])) else None
      case AttemptKind => if id in attempts then Some(Attempt(attempts[id])) else None
      case SessionKind => if id in sessions then Some(Session(sessions[id])) else None
    }
  }

  const Empty := AccountAuth(map[], map[], map[], map[], map[], map[], map[], map[])

  function Apply(s: AccountAuth, fact: Fact): AccountAuth {
    match fact
    case Root(r) => s.(roots := Fold(s.roots, r.id, r.op, r))
    case Email(r) => s.(emails := Fold(s.emails, r.id, r.op, r))
    case Passkey(r) => s.(passkeys := Fold(s.passkeys, r.id, r.op, r))
    case Subject(r) => s.(subjects := Fold(s.subjects, r.id, r.op, r))
    case Batch(r) => s.(batches := Fold(s.batches, r.id, r.op, r))
    case Code(r) => s.(codes := Fold(s.codes, r.id, r.op, r))
    case Attempt(r) => s.(attempts := Fold(s.attempts, r.id, r.op, r))
    case Session(r) => s.(sessions := Fold(s.sessions, r.id, r.op, r))
  }

  function ApplyAll(s: AccountAuth, facts: seq<Fact>): AccountAuth {
    if facts == [] then s else Apply(ApplyAll(s, facts[..|facts| - 1]), facts[|facts| - 1])
  }

  lemma ApplyAllSnoc(s: AccountAuth, facts: seq<Fact>, f: Fact)
    ensures ApplyAll(s, facts + [f]) == Apply(ApplyAll(s, facts), f)
  {
    assert (facts + [f])[..|facts|] == facts;
  }

  lemma {:induction false} ApplyAllConcat(s: AccountAuth, a: seq<Fact>, b: seq<Fact>)
    ensures ApplyAll(s, a + b) == ApplyAll(ApplyAll(s, a), b)
    decreases |b|
  {
    hide Apply;
    if b == [] {
      assert a + b == a;
    } else {
      assert (a + b)[..|a + b| - 1] == a + b[..|b| - 1];
      ApplyAllConcat(s, a, b[..|b| - 1]);
    }
  }

  // Each map with one account's records kept, or with them dropped.

  function RootsOf(m: map<string, RootRecord>, account: string, keep: bool): map<string, RootRecord> {
    map i | i in m && (m[i].id == account <==> keep) :: m[i]
  }

  function EmailsOf(m: map<string, EmailRecord>, account: string, keep: bool): map<string, EmailRecord> {
    map i | i in m && (m[i].account == account <==> keep) :: m[i]
  }

  function PasskeysOf(m: map<string, PasskeyRecord>, account: string, keep: bool): map<string, PasskeyRecord> {
    map i | i in m && (m[i].account == account <==> keep) :: m[i]
  }

  function SubjectsOf(m: map<string, SubjectRecord>, account: string, keep: bool): map<string, SubjectRecord> {
    map i | i in m && (m[i].account == account <==> keep) :: m[i]
  }

  function BatchesOf(m: map<string, BatchRecord>, account: string, keep: bool): map<string, BatchRecord> {
    map i | i in m && (m[i].account == account <==> keep) :: m[i]
  }

  function CodesOf(m: map<string, CodeRecord>, account: string, keep: bool): map<string, CodeRecord> {
    map i | i in m && (m[i].account == account <==> keep) :: m[i]
  }

  function AttemptsOf(m: map<string, AttemptRecord>, account: string, keep: bool): map<string, AttemptRecord> {
    map i | i in m && (m[i].account == Some(account) <==> keep) :: m[i]
  }

  function SessionsOf(m: map<string, SessionRecord>, account: string, keep: bool): map<string, SessionRecord> {
    map i | i in m && (m[i].account == account <==> keep) :: m[i]
  }

  /** Keep one account's records. */
  function Retain(s: AccountAuth, account: string): AccountAuth {
    AccountAuth(RootsOf(s.roots, account, true), EmailsOf(s.emails, account, true),
                PasskeysOf(s.passkeys, account, true), SubjectsOf(s.subjects, account, true),
                BatchesOf(s.batches, account, true), CodesOf(s.codes, account, true),
                AttemptsOf(s.attempts, account, true), SessionsOf(s.sessions, account, true))
  }

  /** Drop one account's records. */
  function Remove(s: AccountAuth, account: string): AccountAuth {
    AccountAuth(RootsOf(s.roots, account, false), EmailsOf(s.emails, account, false),
                PasskeysOf(s.passkeys, account, false), SubjectsOf(s.subjects, account, false),
                BatchesOf(s.batches, account, false), CodesOf(s.codes, account, false),
                AttemptsOf(s.attempts, account, false), SessionsOf(s.sessions, account, false))
  }

  // ---- record by record -------------------------------------------------------------------------

  function Live(fact: Fact): Option<Fact> {
    if fact.Op() == Upsert then Some(fact) else None
  }

  lemma ApplyLookup(s: AccountAuth, fact: Fact, kind: FactKind, id: string)
    ensures Apply(s, fact).Lookup(kind, id)
         == if fact.Kind() == kind && fact.Id() == id then Live(fact) else s.Lookup(kind, id)
  {
  }

  function KeepIf(v: Option<Fact>, keep: bool): Option<Fact> {
    if keep then v else None
  }

  lemma RetainLookup(s: AccountAuth, account: string, kind: FactKind, id: string)
    ensures Retain(s, account).Lookup(kind, id)
         == KeepIf(s.Lookup(kind, id), s.Lookup(kind, id).Some? && s.Lookup(kind, id).value.Account() == Some(account))
  {
  }

  lemma RemoveLookup(s: AccountAuth, account: string, kind: FactKind, id: string)
    ensures Remove(s, account).Lookup(kind, id)
         == KeepIf(s.Lookup(kind, id), s.Lookup(kind, id).Some? && s.Lookup(kind, id).value.Account() != Some(account))
  {
  }

  lemma SameRecords(s: AccountAuth, s': AccountAuth)
    requires forall kind, id :: s.Lookup(kind, id) == s'.Lookup(kind, id)
    ensures s == s'
  {
    forall i
      ensures SameAt(s.roots, s'.roots, i) && SameAt(s.emails, s'.emails, i)
      ensures SameAt(s.passkeys, s'.passkeys, i) && SameAt(s.subjects, s'.subjects, i)
      ensures SameAt(s.batches, s'.batches, i) && SameAt(s.codes, s'.codes, i)
      ensures SameAt(s.attempts, s'.attempts, i) && SameAt(s.sessions, s'.sessions, i)
    {
      assert s.Lookup(RootKind, i) == s'.Lookup(RootKind, i);
      assert s.Lookup(EmailKind, i) == s'.Lookup(EmailKind, i);
      assert s.Lookup(PasskeyKind, i) == s'.Lookup(PasskeyKind, i);
      assert s.Lookup(SubjectKind, i) == s'.Lookup(SubjectKind, i);
      assert s.Lookup(BatchKind, i) == s'.Lookup(BatchKind, i);
      assert s.Lookup(CodeKind, i) == s'.Lookup(CodeKind, i);
      assert s.Lookup(AttemptKind, i) == s'.Lookup(AttemptKind, i);
      assert s.Lookup(SessionKind, i) == s'.Lookup(SessionKind, i);
    }
    SameMaps(s.roots, s'.roots);
    SameMaps(s.emails, s'.emails);
    SameMaps(s.passkeys, s'.passkeys);
    SameMaps(s.subjects, s'.subjects);
    SameMaps(s.batches, s'.batches);
    SameMaps(s.codes, s'.codes);
    SameMaps(s.attempts, s'.attempts);
    SameMaps(s.sessions, s'.sessions);
  }

  /** The last of the rows under one kind and id. */
  function Last(facts: seq<Fact>, kind: FactKind, id: string): Option<Fact> {
    if facts == [] then None
    else if facts[|facts| - 1].Kind() == kind && facts[|facts| - 1].Id() == id then Some(facts[|facts| - 1])
    else Last(facts[..|facts| - 1], kind, id)
  }

  /** The latest row wins: it alone decides what is live under its kind and id. */
  lemma {:induction false} LatestWins(s: AccountAuth, facts: seq<Fact>, kind: FactKind, id: string)
    ensures ApplyAll(s, facts).Lookup(kind, id)
         == if Last(facts, kind, id).Some? then Live(Last(facts, kind, id).value) else s.Lookup(kind, id)
    decreases |facts|
  {
    hide Apply, Live;
    if facts != [] {
      LatestWins(s, facts[..|facts| - 1], kind, id);
      ApplyLookup(ApplyAll(s, facts[..|facts| - 1]), facts[|facts| - 1], kind, id);
    }
  }

  lemma {:induction false} LastOf(facts: seq<Fact>, kind: FactKind, id: string)
    ensures Last(facts, kind, id).Some? ==>
              Last(facts, kind, id).value in facts
              && Last(facts, kind, id).value.Kind() == kind && Last(facts, kind, id).value.Id() == id
    ensures Last(facts, kind, id).None? ==> forall f | f in facts :: f.Kind() != kind || f.Id() != id
    decreases |facts|
  {
    if facts != [] {
      LastOf(facts[..|facts| - 1], kind, id);
      assert facts == facts[..|facts| - 1] + [facts[|facts| - 1]];
    }
  }

  lemma {:induction false} LastConcat(a: seq<Fact>, b: seq<Fact>, kind: FactKind, id: string)
    ensures Last(a + b, kind, id) == if Last(b, kind, id).Some? then Last(b, kind, id) else Last(a, kind, id)
    decreases |b|
  {
    if b == [] {
      assert a + b == a;
    } else {
      assert (a + b)[..|a + b| - 1] == a + b[..|b| - 1];
      LastConcat(a, b[..|b| - 1], kind, id);
    }
  }
}
