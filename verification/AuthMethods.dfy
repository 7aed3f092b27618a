/** The decisions that add, use and end an account's ways of signing in, and what no run of
    them undoes, short of the account's erasure. */
module AuthMethods {
  import opened Base
  import opened Order
  import opened Text
  import opened AuthData

  datatype AuthRejection =
    | InvalidVerifierMaterial | CredentialAlreadyLinked | SubjectAlreadyLinked | MethodNotFound
    | LastIndependentMethod | RecoveryBatchNotActive | RecoveryCodeAlreadyConsumed

  type Decided = Result<seq<Fact>, AuthRejection>

  datatype Command =
    | VerifyEmail(email: EmailRecord)
    | AddPasskey(passkey: PasskeyRecord)
    | UsePasskey(account: string, id: string, verifier: string)
    | RevokePasskey(account: string, id: string)
    | LinkSubject(subject: SubjectRecord)
    | UnlinkSubject(account: string, id: string)
    | ReplaceCodes(account: string, batch: string, at: nat, codes: seq<CodeRecord>)
    | ConsumeCode(account: string, id: string, at: nat)
    | Erase(account: string)

  // ---- queries --------------------------------------------------------------------------------

  function ActivePasskeys(s: AccountAuth, account: string): set<string> {
    set i | i in s.passkeys && s.passkeys[i].account == account && s.passkeys[i].status == Active
  }

  function CurrentBatches(s: AccountAuth, account: string): set<string> {
    set i | i in s.batches && s.batches[i].account == account && s.batches[i].status == Current
  }

  predicate BatchCurrent(s: AccountAuth, account: string, batch: string) {
    batch in CurrentBatches(s, account)
  }

  /** The codes that would still recover the account. */
  function UnusedCodes(s: AccountAuth, account: string): set<string> {
    set i | i in s.codes && s.codes[i].account == account && s.codes[i].consumedAt.None?
            && BatchCurrent(s, account, s.codes[i].batch)
  }

  // ---- decisions --------------------------------------------------------------------------------

  /** One active address cannot lead to two accounts. */
  function DecideVerifyEmail(s: AccountAuth, r: EmailRecord): Decided {
    if r.id in s.emails && s.emails[r.id].account != r.account && s.emails[r.id].status == Active
    then Err(CredentialAlreadyLinked) else Ok([Email(r)])
  }

  function DecideAddPasskey(s: AccountAuth, r: PasskeyRecord): Decided {
    if r.id in s.passkeys && s.passkeys[r.id].account != r.account then Err(CredentialAlreadyLinked)
    else Ok([Passkey(r)])
  }

  /** A completed sign-in stores the authenticator's new counter. */
  function DecideUsePasskey(s: AccountAuth, account: string, id: string, verifier: string): Decided {
    if id in s.passkeys && s.passkeys[id].account == account && s.passkeys[id].status == Active
    then Ok([Passkey(s.passkeys[id].(verifier := verifier))]) else Err(MethodNotFound)
  }

  function DecideRevokePasskey(s: AccountAuth, account: string, id: string): Decided {
    if !(id in s.passkeys && s.passkeys[id].account == account) then Err(MethodNotFound)
    else if s.passkeys[id].status == Revoked then Ok([])
    else if |ActivePasskeys(s, account)| <= 1 then Err(LastIndependentMethod)
    else Ok([Passkey(s.passkeys[id].(status := Revoked))])
  }

  function DecideLinkSubject(s: AccountAuth, r: SubjectRecord): Decided {
    if r.id in s.subjects && s.subjects[r.id].account != r.account then Err(SubjectAlreadyLinked)
    else Ok([Subject(r)])
  }

  function DecideUnlinkSubject(s: AccountAuth, account: string, id: string): Decided {
    if !(id in s.subjects && s.subjects[id].account == account) then Err(MethodNotFound)
    else if s.subjects[id].status == Revoked then Ok([])
    else Ok([Subject(s.subjects[id].(status := Revoked))])
  }

  function Replacements(s: AccountAuth, ids: seq<string>): seq<Fact>
    requires forall i | i in ids :: i in s.batches
  {
    if ids == [] then []
    else Replacements(s, ids[..|ids| - 1]) + [Batch(s.batches[ids[|ids| - 1]].(status := Replaced))]
  }

  function CodeFacts(codes: seq<CodeRecord>): seq<Fact> {
    if codes == [] then [] else CodeFacts(codes[..|codes| - 1]) + [Code(codes[|codes| - 1])]
  }

  /** Replace the account's current batches and install a new one with its codes. */
  function DecideReplaceCodes(s: AccountAuth, account: string, batch: string, at: nat, codes: seq<CodeRecord>)
    : Decided
  {
    if Blank(account) || Blank(batch) || codes == []
       || exists c | c in codes :: c.account != Trim(account) || c.batch != Trim(batch)
    then Err(InvalidVerifierMaterial)
    else Ok(Replacements(s, Names(CurrentBatches(s, Trim(account))))
            + [Batch(BatchRecord(Trim(batch), Upsert, Trim(account), at, Current))] + CodeFacts(codes))
  }

  function DecideConsumeCode(s: AccountAuth, account: string, id: string, at: nat): Decided {
    if !(id in s.codes && s.codes[id].account == account) then Err(MethodNotFound)
    else if s.codes[id].consumedAt.Some? then Err(RecoveryCodeAlreadyConsumed)
    else if !BatchCurrent(s, account, s.codes[id].batch) then Err(RecoveryBatchNotActive)
    else Ok([Code(s.codes[id].(consumedAt := Some(at)))])
  }

  function Decide(s: AccountAuth, c: Command): Decided {
    match c
    case VerifyEmail(r) => DecideVerifyEmail(s, r)
    case AddPasskey(r) => DecideAddPasskey(s, r)
    case UsePasskey(account, id, verifier) => DecideUsePasskey(s, account, id, verifier)
    case RevokePasskey(account, id) => DecideRevokePasskey(s, account, id)
    case LinkSubject(r) => DecideLinkSubject(s, r)
    case UnlinkSubject(account, id) => DecideUnlinkSubject(s, account, id)
    case ReplaceCodes(account, batch, at, codes) => DecideReplaceCodes(s, account, batch, at, codes)
    case ConsumeCode(account, id, at) => DecideConsumeCode(s, account, id, at)
    case Erase(_) => Ok([])
  }

  /** One decision's facts folded in; an erasure fence takes its account out instead. */
  function Next(s: AccountAuth, c: Command): AccountAuth {
    var d := Decide(s, c);
    if c.Erase? then Remove(s, c.account) else if d.Ok? then ApplyAll(s, d.value) else s
  }

  function Exec(s: AccountAuth, commands: seq<Command>): AccountAuth {
    if commands == [] then s else Next(Exec(s, commands[..|commands| - 1]), commands[|commands| - 1])
  }

  // ---- what the shell submits -----------------------------------------------------------------------

  /** New records are active upserts, a batch id is new, and so are the ids of its codes,
      which are digests that name the batch. */
  ghost predicate WellMade(s: AccountAuth, c: Command) {
    match c
    case VerifyEmail(r) => r.op == Upsert && r.status == Active
    case AddPasskey(r) => r.op == Upsert && r.status == Active
    case LinkSubject(r) => r.op == Upsert && r.status == Active
    case ReplaceCodes(account, batch, at, codes) =>
      Trim(batch) !in s.batches
      && forall c | c in codes :: c.op == Upsert && c.consumedAt.None? && c.id !in s.codes
    case _ => true
  }

  ghost predicate WellMadeRun(s: AccountAuth, commands: seq<Command>) {
    forall n | 0 <= n < |commands| :: WellMade(Exec(s, commands[..n]), commands[n])
  }

  // ---- what replacing the codes does ------------------------------------------------------------------

  /** Every live record stands under its own id. */
  ghost predicate Keyed(s: AccountAuth) {
    && (forall i | i in s.passkeys :: s.passkeys[i].id == i && s.passkeys[i].op == Upsert)
    && (forall i | i in s.subjects :: s.subjects[i].id == i && s.subjects[i].op == Upsert)
    && (forall i | i in s.batches :: s.batches[i].id == i && s.batches[i].op == Upsert)
    && (forall i | i in s.codes :: s.codes[i].id == i && s.codes[i].op == Upsert)
  }

  function WithReplaced(batches: map<string, BatchRecord>, ids: set<string>): map<string, BatchRecord> {
    map i | i in batches :: if i in ids then batches[i].(status := Replaced) else batches[i]
  }

  lemma {:induction false} ReplacementsEffect(s: AccountAuth, ids: seq<string>)
    requires Keyed(s) && forall i | i in ids :: i in s.batches
    ensures ApplyAll(s, Replacements(s, ids)) == s.(batches := WithReplaced(s.batches, set i | i in ids))
    decreases |ids|
  {
    if ids == [] {
      assert WithReplaced(s.batches, set i | i in ids) == s.batches;
    } else {
      var before, last := ids[..|ids| - 1], ids[|ids| - 1];
      assert ids == before + [last];
      ReplacementsEffect(s, before);
      ApplyAllSnoc(s, Replacements(s, before), Batch(s.batches[last].(status := Replaced)));
      assert WithReplaced(s.batches, set i | i in ids)
          == WithReplaced(s.batches, set i | i in before)[last := s.batches[last].(status := Replaced)];
    }
  }

  function CodeMap(codes: seq<CodeRecord>): map<string, CodeRecord> {
    if codes == [] then map[] else CodeMap(codes[..|codes| - 1])[codes[|codes| - 1].id := codes[|codes| - 1]]
  }

  lemma {:induction false} CodeMapOf(codes: seq<CodeRecord>, i: string)
    ensures i in CodeMap(codes) ==> CodeMap(codes)[i] in codes && CodeMap(codes)[i].id == i
    decreases |codes|
  {
    if codes != [] {
      CodeMapOf(codes[..|codes| - 1], i);
    }
  }

  lemma ApplyCode(s: AccountAuth, c: CodeRecord)
    requires c.op == Upsert
    ensures Apply(s, Code(c)) == s.(codes := s.codes[c.id := c])
  {
  }

  lemma {:induction false} CodeFactsEffect(s: AccountAuth, codes: seq<CodeRecord>)
    requires forall c | c in codes :: c.op == Upsert
    ensures ApplyAll(s, CodeFacts(codes)) == s.(codes := s.codes + CodeMap(codes))
    decreases |codes|
  {
    hide Apply;
    if codes == [] {
      assert s.codes + CodeMap(codes) == s.codes;
    } else {
      var before, last := codes[..|codes| - 1], codes[|codes| - 1];
      assert codes == before + [last];
      assert last in codes;
      CodeFactsEffect(s, before);
      ApplyAllSnoc(s, CodeFacts(before), Code(last));
      ApplyCode(ApplyAll(s, CodeFacts(before)), last);
      assert s.codes + CodeMap(codes) == (s.codes + CodeMap(before))[last.id := last];
    }
  }

  lemma ReplaceEffect(s: AccountAuth, account: string, batch: string, at: nat, codes: seq<CodeRecord>)
    requires Keyed(s) && DecideReplaceCodes(s, account, batch, at, codes).Ok?
    requires forall c | c in codes :: c.op == Upsert
    ensures ApplyAll(s, DecideReplaceCodes(s, account, batch, at, codes).value)
         == s.(batches := WithReplaced(s.batches, CurrentBatches(s, Trim(account)))
                            [Trim(batch) := BatchRecord(Trim(batch), Upsert, Trim(account), at, Current)],
               codes := s.codes + CodeMap(codes))
  {
    hide ApplyAll, Replacements, CodeFacts, CodeMap, Trim, Names;
    var ids := Names(CurrentBatches(s, Trim(account)));
    var replaced := Replacements(s, ids);
    var installed := Batch(BatchRecord(Trim(batch), Upsert, Trim(account), at, Current));
    ReplacementsEffect(s, ids);
    assert (set i | i in ids) == CurrentBatches(s, Trim(account));
    ApplyAllSnoc(s, replaced, installed);
    ApplyAllConcat(s, replaced + [installed], CodeFacts(codes));
    CodeFactsEffect(ApplyAll(s, replaced + [installed]), codes);
  }

  // ---- what no decision undoes ------------------------------------------------------------------------

  /** At most one batch of each account is current. */
  ghost predicate OneBatch(s: AccountAuth) {
    forall i, j | i in s.batches && j in s.batches ::
      s.batches[i].status == Current && s.batches[j].status == Current && s.batches[i].account == s.batches[j].account
      ==> i == j
  }

  /** Every code names a batch of its account's. */
  ghost predicate CodesBatched(s: AccountAuth) {
    forall i | i in s.codes ::
      s.codes[i].batch in s.batches && s.batches[s.codes[i].batch].account == s.codes[i].account
  }

  ghost predicate MethodsHold(s: AccountAuth) {
    Keyed(s) && OneBatch(s) && CodesBatched(s)
  }

  ghost predicate KeepsAccounts(s: AccountAuth, s': AccountAuth, gone: set<string>) {
    && (forall i | i in s.passkeys && s.passkeys[i].account !in gone ::
          i in s'.passkeys && s'.passkeys[i].account == s.passkeys[i].account)
    && (forall i | i in s.subjects && s.subjects[i].account !in gone ::
          i in s'.subjects && s'.subjects[i].account == s.subjects[i].account)
    && (forall i | i in s.emails && s.emails[i].status == Active && s.emails[i].account !in gone ::
          i in s'.emails && s'.emails[i].account == s.emails[i].account && s'.emails[i].status == Active)
  }

  ghost predicate KeepsPasskeys(s: AccountAuth, s': AccountAuth, gone: set<string>) {
    forall a | a !in gone && ActivePasskeys(s, a) != {} :: ActivePasskeys(s', a) != {}
  }

  ghost predicate KeepsCodes(s: AccountAuth, s': AccountAuth, gone: set<string>) {
    && (forall i | i in s.batches && s.batches[i].account !in gone ::
          i in s'.batches && s'.batches[i].account == s.batches[i].account
          && (s.batches[i].status == Replaced ==> s'.batches[i].status == Replaced))
    && (forall i | i in s.codes && s.codes[i].account !in gone ::
          i in s'.codes && s'.codes[i].account == s.codes[i].account && s'.codes[i].batch == s.codes[i].batch
          && (s.codes[i].consumedAt.Some? ==> s'.codes[i] == s.codes[i]))
  }

  /** What holds between any two points of a run, the earlier first, of all accounts but
      those erased between. */
  ghost predicate Keeps(s: AccountAuth, s': AccountAuth, gone: set<string>) {
    KeepsAccounts(s, s', gone) && KeepsPasskeys(s, s', gone) && KeepsCodes(s, s', gone)
  }

  lemma KeepsTrans(a: AccountAuth, b: AccountAuth, c: AccountAuth, gone: set<string>, more: set<string>)
    requires Keeps(a, b, gone) && Keeps(b, c, more)
    ensures Keeps(a, c, gone + more)
  {
  }

  /** One fact that leaves batches and codes alone. */
  lemma OneFact(s: AccountAuth, f: Fact)
    ensures ApplyAll(s, [f]) == Apply(s, f)
  {
    assert [f][..0] == [];
  }

  /** Revoking one of several passkeys leaves another active. */
  lemma AnotherStays(s: AccountAuth, account: string, id: string)
    requires id in ActivePasskeys(s, account) && |ActivePasskeys(s, account)| > 1
    ensures exists j :: j in ActivePasskeys(s, account) && j != id
  {
    var others := ActivePasskeys(s, account) - {id};
    assert |others| == |ActivePasskeys(s, account)| - 1;
    var j :| j in others;
  }

  lemma PasskeyKeeps(s: AccountAuth, r: PasskeyRecord)
    requires MethodsHold(s) && r.op == Upsert
    requires r.id in s.passkeys ==> s.passkeys[r.id].account == r.account
    requires r.status == Active
             || (r.id in ActivePasskeys(s, r.account) && |ActivePasskeys(s, r.account)| > 1)
             || r.id !in ActivePasskeys(s, r.account)
    ensures MethodsHold(Apply(s, Passkey(r))) && Keeps(s, Apply(s, Passkey(r)), {})
  {
    var s' := Apply(s, Passkey(r));
    if r.status != Active && r.id in ActivePasskeys(s, r.account) {
      AnotherStays(s, r.account, r.id);
    }
    forall a | ActivePasskeys(s, a) != {}
      ensures ActivePasskeys(s', a) != {}
    {
      if a == r.account && r.status != Active && r.id in ActivePasskeys(s, a) {
        var j :| j in ActivePasskeys(s, a) && j != r.id;
        assert j in ActivePasskeys(s', a);
      } else {
        var j :| j in ActivePasskeys(s, a);
        assert j in ActivePasskeys(s', a);
      }
    }
  }

  lemma SubjectKeeps(s: AccountAuth, r: SubjectRecord)
    requires MethodsHold(s) && r.op == Upsert
    requires r.id in s.subjects ==> s.subjects[r.id].account == r.account
    ensures MethodsHold(Apply(s, Subject(r))) && Keeps(s, Apply(s, Subject(r)), {})
  {
    SamePasskeys(s, Apply(s, Subject(r)));
  }

  lemma EmailKeeps(s: AccountAuth, r: EmailRecord)
    requires MethodsHold(s) && r.op == Upsert && r.status == Active
    requires r.id in s.emails && s.emails[r.id].status == Active ==> s.emails[r.id].account == r.account
    ensures MethodsHold(Apply(s, Email(r))) && Keeps(s, Apply(s, Email(r)), {})
  {
    SamePasskeys(s, Apply(s, Email(r)));
  }

  lemma SamePasskeys(s: AccountAuth, s': AccountAuth)
    requires s'.passkeys == s.passkeys
    ensures KeepsPasskeys(s, s', {})
  {
    forall a
      ensures ActivePasskeys(s', a) == ActivePasskeys(s, a)
    {
    }
  }

  lemma ConsumeKeeps(s: AccountAuth, id: string, at: nat)
    requires MethodsHold(s) && id in s.codes && s.codes[id].consumedAt.None?
    ensures var s' := Apply(s, Code(s.codes[id].(consumedAt := Some(at)))); MethodsHold(s') && Keeps(s, s', {})
  {
    hide KeepsPasskeys, OneBatch, KeepsCodes;
    var s' := Apply(s, Code(s.codes[id].(consumedAt := Some(at))));
    SamePasskeys(s, s');
    SameBatches(s, s');
    UsedKeeps(s, s', id, at);
  }

  lemma SameBatches(s: AccountAuth, s': AccountAuth)
    requires OneBatch(s) && s'.batches == s.batches
    ensures OneBatch(s')
  {
  }

  lemma UsedKeeps(s: AccountAuth, s': AccountAuth, id: string, at: nat)
    requires id in s.codes && s.codes[id].consumedAt.None? && s'.batches == s.batches
    requires s'.codes == s.codes[id := s.codes[id].(consumedAt := Some(at))]
    ensures KeepsCodes(s, s', {})
  {
  }

  lemma ReplaceKeeps(s: AccountAuth, s': AccountAuth, account: string, batch: string, at: nat, codes: seq<CodeRecord>)
    requires MethodsHold(s) && batch !in s.batches
    requires forall c | c in codes :: c.op == Upsert && c.batch == batch && c.account == account && c.id !in s.codes
    requires s' == s.(batches := WithReplaced(s.batches, CurrentBatches(s, account))
                                   [batch := BatchRecord(batch, Upsert, account, at, Current)],
                      codes := s.codes + CodeMap(codes))
    ensures MethodsHold(s') && Keeps(s, s', {})
    ensures CurrentBatches(s', account) == {batch}
  {
    hide CodeMap, OneBatch, KeepsPasskeys, CurrentBatches, KeepsCodes, Keyed, CodesBatched, WithReplaced;
    forall i
      ensures i in CodeMap(codes) ==> CodeMap(codes)[i] in codes && CodeMap(codes)[i].id == i
    {
      CodeMapOf(codes, i);
    }
    ReplaceKeyed(s, s', CurrentBatches(s, account), BatchRecord(batch, Upsert, account, at, Current), CodeMap(codes));
    SamePasskeys(s, s');
    ReplaceKeepsCodes(s, s', CurrentBatches(s, account), BatchRecord(batch, Upsert, account, at, Current),
                      CodeMap(codes));
    ReplaceLeavesOne(s, s', account, BatchRecord(batch, Upsert, account, at, Current));
  }

  lemma ReplaceKeyed(s: AccountAuth, s': AccountAuth, ids: set<string>, r: BatchRecord, codes: map<string, CodeRecord>)
    requires Keyed(s) && CodesBatched(s) && r.op == Upsert && r.id !in s.batches
    requires s' == s.(batches := WithReplaced(s.batches, ids)[r.id := r], codes := s.codes + codes)
    requires forall i | i in codes ::
               codes[i].id == i && codes[i].op == Upsert && codes[i].batch == r.id && codes[i].account == r.account
    ensures Keyed(s') && CodesBatched(s')
  {
    hide CodesBatched;
    ReplaceBatched(s, s', ids, r, codes);
  }

  lemma ReplaceBatched(s: AccountAuth, s': AccountAuth, ids: set<string>, r: BatchRecord,
                       codes: map<string, CodeRecord>)
    requires CodesBatched(s) && r.id !in s.batches
    requires s'.batches == WithReplaced(s.batches, ids)[r.id := r] && s'.codes == s.codes + codes
    requires forall i | i in codes :: codes[i].batch == r.id && codes[i].account == r.account
    ensures CodesBatched(s')
  {
  }

  lemma ReplaceKeepsCodes(s: AccountAuth, s': AccountAuth, ids: set<string>, r: BatchRecord,
                          codes: map<string, CodeRecord>)
    requires r.id !in s.batches && s'.batches == WithReplaced(s.batches, ids)[r.id := r]
    requires s'.codes == s.codes + codes && s.codes.Keys !! codes.Keys
    ensures KeepsCodes(s, s', {})
  {
  }

  lemma ReplaceLeavesOne(s: AccountAuth, s': AccountAuth, account: string, r: BatchRecord)
    requires OneBatch(s) && r.id !in s.batches && r.account == account && r.status == Current
    requires s'.batches == WithReplaced(s.batches, CurrentBatches(s, account))[r.id := r]
    ensures OneBatch(s') && CurrentBatches(s', account) == {r.id}
  {
  }

  lemma SameKeeps(s: AccountAuth)
    ensures Keeps(s, s, {})
  {
  }

  /** The account an erasure takes out. */
  function GoneBy(c: Command): set<string> {
    if c.Erase? then {c.account} else {}
  }

  function Gone(commands: seq<Command>): set<string> {
    set c | c in commands && c.Erase? :: c.account
  }

  lemma EraseKeeps(s: AccountAuth, account: string)
    requires MethodsHold(s)
    ensures MethodsHold(Remove(s, account)) && Keeps(s, Remove(s, account), {account})
  {
    var s' := Remove(s, account);
    forall a | a != account
      ensures ActivePasskeys(s', a) == ActivePasskeys(s, a)
    {
    }
  }

  lemma NextKeeps(s: AccountAuth, c: Command)
    requires MethodsHold(s) && WellMade(s, c)
    ensures MethodsHold(Next(s, c)) && Keeps(s, Next(s, c), GoneBy(c))
  {
    hide Apply, ApplyAll, Keeps, OneBatch, Replacements, CodeFacts, CodeMap, Trim, Names, WithReplaced, Remove;
    SameKeeps(s);
    var d := Decide(s, c);
    if c.Erase? {
      EraseKeeps(s, c.account);
    } else if d.Ok? && d.value != [] {
      match c {
        case VerifyEmail(r) => EmailKeeps(s, r); OneFact(s, Email(r));
        case AddPasskey(r) => PasskeyKeeps(s, r); OneFact(s, Passkey(r));
        case UsePasskey(account, id, verifier) =>
          var r := s.passkeys[id].(verifier := verifier);
          PasskeyKeeps(s, r);
          OneFact(s, Passkey(r));
        case RevokePasskey(account, id) =>
          var r := s.passkeys[id].(status := Revoked);
          PasskeyKeeps(s, r);
          OneFact(s, Passkey(r));
        case LinkSubject(r) => SubjectKeeps(s, r); OneFact(s, Subject(r));
        case UnlinkSubject(account, id) =>
          var r := s.subjects[id].(status := Revoked);
          SubjectKeeps(s, r);
          OneFact(s, Subject(r));
        case ReplaceCodes(account, batch, at, codes) =>
          ReplaceEffect(s, account, batch, at, codes);
          ReplaceKeeps(s, Next(s, c), Trim(account), Trim(batch), at, codes);
        case ConsumeCode(account, id, at) =>
          ConsumeKeeps(s, id, at);
          OneFact(s, Code(s.codes[id].(consumedAt := Some(at))));
      }
    } else if d.Ok? {
      NoFacts(s);
    }
  }

  lemma NoFacts(s: AccountAuth)
    ensures ApplyAll(s, []) == s
  {
  }

  // ---- every run --------------------------------------------------------------------------------------

  lemma {:induction false} RunKeeps(s: AccountAuth, commands: seq<Command>)
    requires MethodsHold(s) && WellMadeRun(s, commands)
    ensures MethodsHold(Exec(s, commands)) && Keeps(s, Exec(s, commands), Gone(commands))
    decreases |commands|
  {
    hide Next, Keeps, MethodsHold, WellMade, Gone;
    if commands == [] {
      NoneGone();
      SameKeeps(s);
    } else {
      var before, last := commands[..|commands| - 1], commands[|commands| - 1];
      assert forall n | 0 <= n < |before| :: commands[..n] == before[..n] && commands[n] == before[n];
      RunKeeps(s, before);
      NextKeeps(Exec(s, before), last);
      KeepsTrans(s, Exec(s, before), Exec(s, commands), Gone(before), GoneBy(last));
      GoneSnoc(before, last);
      assert commands == before + [last];
    }
  }

  lemma NoneGone()
    ensures Gone([]) == {}
  {
  }

  lemma GoneSnoc(commands: seq<Command>, c: Command)
    ensures Gone(commands + [c]) == Gone(commands) + GoneBy(c)
  {
  }

  lemma {:induction false} ExecConcat(s: AccountAuth, a: seq<Command>, b: seq<Command>)
    ensures Exec(s, a + b) == Exec(Exec(s, a), b)
    decreases |b|
  {
    hide Next;
    if b == [] {
      assert a + b == a;
    } else {
      assert (a + b)[..|a + b| - 1] == a + b[..|b| - 1];
      ExecConcat(s, a, b[..|b| - 1]);
    }
  }

  lemma WellMadeSplits(s: AccountAuth, a: seq<Command>, b: seq<Command>)
    requires WellMadeRun(s, a + b)
    ensures WellMadeRun(s, a) && WellMadeRun(Exec(s, a), b)
  {
    hide Next, WellMade;
    assert forall n | 0 <= n < |a| :: (a + b)[..n] == a[..n] && (a + b)[n] == a[n];
    forall n | 0 <= n < |b|
      ensures WellMade(Exec(Exec(s, a), b[..n]), b[n])
    {
      assert (a + b)[..|a| + n] == a + b[..n] && (a + b)[|a| + n] == b[n];
      ExecConcat(s, a, b[..n]);
    }
  }

  lemma EmptyMethodsHold()
    ensures MethodsHold(Empty)
  {
  }

  /** At every point of every run of decisions and erasures an account has at most one
      current recovery batch, and from any earlier point to any later one, of every account
      not erased between: passkeys, linked subjects and active addresses keep their account,
      an account that had an active passkey has one, and a replaced batch or a used code
      stays so. */
  lemma MethodsAreSafe(earlier: seq<Command>, later: seq<Command>)
    requires WellMadeRun(Empty, earlier + later)
    ensures OneBatch(Exec(Empty, earlier + later))
    ensures Keeps(Exec(Empty, earlier), Exec(Empty, earlier + later), Gone(later))
  {
    hide Next, Keeps, WellMade;
    EmptyMethodsHold();
    WellMadeSplits(Empty, earlier, later);
    RunKeeps(Empty, earlier);
    RunKeeps(Exec(Empty, earlier), later);
    ExecConcat(Empty, earlier, later);
  }

  lemma HoldsThen(earlier: seq<Command>, later: seq<Command>)
    requires WellMadeRun(Empty, earlier + later)
    ensures MethodsHold(Exec(Empty, earlier))
  {
    hide Next, WellMade, Keeps;
    EmptyMethodsHold();
    WellMadeSplits(Empty, earlier, later);
    RunKeeps(Empty, earlier);
  }

  /** A code once used, or whose batch was once replaced, is refused ever after, whoever
      presents it, while its account is not erased. */
  lemma CodeUsedOnce(earlier: seq<Command>, later: seq<Command>, id: string, account: string, at: nat)
    requires WellMadeRun(Empty, earlier + later)
    requires id in Exec(Empty, earlier).codes && Exec(Empty, earlier).codes[id].account !in Gone(later)
    requires var s := Exec(Empty, earlier);
             s.codes[id].consumedAt.Some?
             || (s.codes[id].batch in s.batches && s.batches[s.codes[id].batch].status == Replaced)
    ensures DecideConsumeCode(Exec(Empty, earlier + later), account, id, at).Err?
  {
    hide Exec, WellMadeRun, KeepsAccounts, KeepsPasskeys, Gone;
    MethodsAreSafe(earlier, later);
    HoldsThen(earlier, later);
  }

  /** Erasure is the exception: it takes every record of its account out, and a passkey or
      subject that was that account's may then be another's. */
  lemma ErasedIdsAreFree(s: AccountAuth, account: string, p: PasskeyRecord, j: SubjectRecord)
    requires p.id in s.passkeys && s.passkeys[p.id].account == account && p.account != account
    requires j.id in s.subjects && s.subjects[j.id].account == account && j.account != account
    ensures DecideAddPasskey(s, p).Err? && DecideAddPasskey(Next(s, Erase(account)), p) == Ok([Passkey(p)])
    ensures DecideLinkSubject(s, j).Err? && DecideLinkSubject(Next(s, Erase(account)), j) == Ok([Subject(j)])
  {
  }

  /** An admitted use lowers the account's unused codes by exactly one, and no other
      account's. */
  lemma UseLowersByOne(s: AccountAuth, account: string, id: string, at: nat, other: string)
    requires Keyed(s) && DecideConsumeCode(s, account, id, at).Ok?
    ensures var s' := Next(s, ConsumeCode(account, id, at));
            && UnusedCodes(s', account) == UnusedCodes(s, account) - {id} && id in UnusedCodes(s, account)
            && |UnusedCodes(s', account)| == |UnusedCodes(s, account)| - 1
            && (other != account ==> UnusedCodes(s', other) == UnusedCodes(s, other))
            && s'.codes[id].consumedAt == Some(at)
  {
    hide ApplyAll;
    var r := s.codes[id].(consumedAt := Some(at));
    OneFact(s, Code(r));
    var s' := Next(s, ConsumeCode(account, id, at));
    assert s' == s.(codes := s.codes[id := r]);
    assert forall a :: CurrentBatches(s', a) == CurrentBatches(s, a);
    assert UnusedCodes(s', account) == UnusedCodes(s, account) - {id};
  }

  function NewIds(codes: seq<CodeRecord>): set<string> {
    set c | c in codes :: c.id
  }

  /** A code from before that stays usable: unused, not issued again, and of the batch whose
      id is used again. */
  predicate LeftOver(s: AccountAuth, account: string, batch: string, codes: seq<CodeRecord>, i: string) {
    i in s.codes && i !in NewIds(codes) && s.codes[i].account == account && s.codes[i].batch == batch
    && s.codes[i].consumedAt.None?
  }

  lemma NewCodes(codes: seq<CodeRecord>, i: string)
    ensures i in CodeMap(codes) <==> i in NewIds(codes)
    ensures i in CodeMap(codes) ==> CodeMap(codes)[i] in codes
  {
    CodeMapOf(codes, i);
    CodeMapKeys(codes, i);
  }

  /** What any admitted replacement leaves, whatever ids it uses: the new batch is the
      account's only current one, its usable codes are the new ones and those left over of
      a batch of that id, and another account loses just those of its codes whose batch or
      id was used again. */
  lemma ReplacedCodes(s: AccountAuth, account: string, batch: string, at: nat, codes: seq<CodeRecord>)
    requires Keyed(s) && DecideReplaceCodes(s, account, batch, at, codes).Ok?
    requires forall c | c in codes :: c.op == Upsert && c.consumedAt.None?
    ensures var s' := Next(s, ReplaceCodes(account, batch, at, codes));
            && CurrentBatches(s', Trim(account)) == {Trim(batch)}
            && (forall i :: i in UnusedCodes(s', Trim(account))
                            <==> i in NewIds(codes) || LeftOver(s, Trim(account), Trim(batch), codes, i))
            && (forall other, i | other != Trim(account) ::
                  i in UnusedCodes(s', other)
                  <==> i in UnusedCodes(s, other) && i !in NewIds(codes) && s.codes[i].batch != Trim(batch))
  {
    hide ApplyAll, Replacements, CodeFacts, Trim, Names, CodeMap, NewIds;
    var s' := Next(s, ReplaceCodes(account, batch, at, codes));
    ReplaceEffect(s, account, batch, at, codes);
    forall i
      ensures i in CodeMap(codes) <==> i in NewIds(codes)
      ensures i in CodeMap(codes) ==> CodeMap(codes)[i] in codes
    {
      NewCodes(codes, i);
    }
    BatchesAfter(s, s', Trim(account), BatchRecord(Trim(batch), Upsert, Trim(account), at, Current));
  }

  lemma BatchesAfter(s: AccountAuth, s': AccountAuth, account: string, r: BatchRecord)
    requires r.account == account && r.status == Current
    requires s'.batches == WithReplaced(s.batches, CurrentBatches(s, account))[r.id := r]
    ensures CurrentBatches(s', account) == {r.id}
    ensures forall other | other != account :: CurrentBatches(s', other) == CurrentBatches(s, other) - {r.id}
  {
  }

  /** Replacing the codes leaves exactly the new ones usable, just if no unused code outside
      them was issued in a batch of the same id. */
  lemma ReplacedCodesAreTheNewOnes(s: AccountAuth, account: string, batch: string, at: nat, codes: seq<CodeRecord>)
    requires Keyed(s) && DecideReplaceCodes(s, account, batch, at, codes).Ok?
    requires forall c | c in codes :: c.op == Upsert && c.consumedAt.None?
    ensures UnusedCodes(Next(s, ReplaceCodes(account, batch, at, codes)), Trim(account)) == NewIds(codes)
            <==> forall i :: !LeftOver(s, Trim(account), Trim(batch), codes, i)
    ensures MethodsHold(s) && Trim(batch) !in s.batches ==>
              UnusedCodes(Next(s, ReplaceCodes(account, batch, at, codes)), Trim(account)) == NewIds(codes)
  {
    hide Next, NewIds, UnusedCodes, OneBatch, Keyed;
    ReplacedCodes(s, account, batch, at, codes);
    var after := UnusedCodes(Next(s, ReplaceCodes(account, batch, at, codes)), Trim(account));
    forall i | LeftOver(s, Trim(account), Trim(batch), codes, i)
      ensures i in after && i !in NewIds(codes)
    {
    }
    if forall i :: !LeftOver(s, Trim(account), Trim(batch), codes, i) {
      assert forall i :: i in after <==> i in NewIds(codes);
    }
  }

  /** A used code can be used again just if its id is issued again. */
  lemma ReissuedIsUsableAgain(s: AccountAuth, account: string, batch: string, at: nat, codes: seq<CodeRecord>,
                              i: string)
    requires Keyed(s) && DecideReplaceCodes(s, account, batch, at, codes).Ok?
    requires forall c | c in codes :: c.op == Upsert && c.consumedAt.None?
    requires i in s.codes && s.codes[i].consumedAt.Some?
    ensures i in UnusedCodes(Next(s, ReplaceCodes(account, batch, at, codes)), Trim(account)) <==> i in NewIds(codes)
  {
    hide Next, NewIds, UnusedCodes, Keyed;
    ReplacedCodes(s, account, batch, at, codes);
  }

  /** A batch id used a second time, whether that batch was replaced or is still current,
      leaves its unused codes usable beside the new ones; had it been replaced, they come
      back. */
  lemma ReusedBatchRevives(s: AccountAuth, account: string, batch: string, at: nat, codes: seq<CodeRecord>, i: string)
    requires Keyed(s) && DecideReplaceCodes(s, account, batch, at, codes).Ok?
    requires forall c | c in codes :: c.op == Upsert && c.consumedAt.None?
    requires LeftOver(s, Trim(account), Trim(batch), codes, i)
    ensures i in UnusedCodes(Next(s, ReplaceCodes(account, batch, at, codes)), Trim(account)) && i !in NewIds(codes)
    ensures i in UnusedCodes(s, Trim(account)) <==> Trim(batch) in CurrentBatches(s, Trim(account))
  {
    hide Next, NewIds, Keyed;
    ReplacedCodes(s, account, batch, at, codes);
  }

  lemma {:induction false} CodeMapKeys(codes: seq<CodeRecord>, i: string)
    ensures i in CodeMap(codes) <==> exists c :: c in codes && c.id == i
    decreases |codes|
  {
    if codes != [] {
      CodeMapKeys(codes[..|codes| - 1], i);
      assert codes == codes[..|codes| - 1] + [codes[|codes| - 1]];
    }
  }
}
