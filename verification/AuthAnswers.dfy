/** What each decision about an account's ways of signing in answers and leaves, and, over
    every run, just which passkeys, subjects, addresses and recovery codes work. */
module AuthAnswers {
  import opened Base
  import opened Order
  import opened Text
  import opened AuthData
  import opened AuthMethods

  // ---- what works ----------------------------------------------------------------------------------

  ghost predicate PasskeyOf(s: AccountAuth, account: string, id: string) {
    id in s.passkeys && s.passkeys[id].account == account
  }

  ghost predicate PasskeyWorks(s: AccountAuth, account: string, id: string) {
    PasskeyOf(s, account, id) && s.passkeys[id].status == Active
  }

  ghost predicate SubjectOf(s: AccountAuth, account: string, id: string) {
    id in s.subjects && s.subjects[id].account == account
  }

  ghost predicate SubjectWorks(s: AccountAuth, account: string, id: string) {
    SubjectOf(s, account, id) && s.subjects[id].status == Active
  }

  ghost predicate EmailWorks(s: AccountAuth, account: string, id: string) {
    id in s.emails && s.emails[id].account == account && s.emails[id].status == Active
  }

  ghost predicate CodeOf(s: AccountAuth, account: string, id: string) {
    id in s.codes && s.codes[id].account == account
  }

  ghost predicate CodeWorks(s: AccountAuth, account: string, id: string) {
    && CodeOf(s, account, id) && s.codes[id].consumedAt.None?
    && s.codes[id].batch in s.batches && s.batches[s.codes[id].batch].account == account
    && s.batches[s.codes[id].batch].status == Current
  }

  // ---- one decision --------------------------------------------------------------------------------

  /** A passkey may be revoked unless it is the account's last working one; it then stops
      working and nothing else changes. */
  lemma RevokePasskeyAnswers(s: AccountAuth, account: string, id: string)
    requires Keyed(s)
    ensures var d, s' := DecideRevokePasskey(s, account, id), Next(s, RevokePasskey(account, id));
            && (d == Err(MethodNotFound) <==> !PasskeyOf(s, account, id))
            && (d == Err(LastIndependentMethod)
                <==> PasskeyWorks(s, account, id) && forall j | PasskeyWorks(s, account, j) :: j == id)
            && (d.Ok? <==>
                && PasskeyOf(s, account, id)
                && (PasskeyWorks(s, account, id) ==> exists j :: PasskeyWorks(s, account, j) && j != id))
            && (d.Err? ==> s' == s)
            && (d.Ok? ==> s' == s.(passkeys := s.passkeys[id := s.passkeys[id].(status := Revoked)]))
            && (d.Ok? ==> ActivePasskeys(s', account) == ActivePasskeys(s, account) - {id})
  {
    hide ApplyAll, Apply;
    var active := ActivePasskeys(s, account);
    if PasskeyWorks(s, account, id) {
      assert id in active;
      if |active| > 1 {
        AnotherStays(s, account, id);
        var j :| j in active && j != id;
        assert PasskeyWorks(s, account, j);
      } else {
        OnlyOne(active, id);
        assert forall j | PasskeyWorks(s, account, j) :: j in active;
      }
    }
    RevokePasskeyLeaves(s, account, id);
  }

  lemma OnlyOne(active: set<string>, id: string)
    requires id in active && |active| <= 1
    ensures active == {id}
  {
    assert |active - {id}| == 0;
  }

  lemma RevokePasskeyLeaves(s: AccountAuth, account: string, id: string)
    requires Keyed(s)
    ensures var d, s' := DecideRevokePasskey(s, account, id), Next(s, RevokePasskey(account, id));
            && (d.Ok? ==> PasskeyOf(s, account, id))
            && (d.Ok? ==> s' == s.(passkeys := s.passkeys[id := s.passkeys[id].(status := Revoked)]))
            && (d.Ok? ==> ActivePasskeys(s', account) == ActivePasskeys(s, account) - {id})
  {
    hide ApplyAll;
    if PasskeyOf(s, account, id) {
      var r := s.passkeys[id].(status := Revoked);
      OneFact(s, Passkey(r));
      NoFacts(s);
      if s.passkeys[id].status == Revoked {
        assert s.passkeys[id := r] == s.passkeys;
      }
    }
  }

  /** A sign-in is taken from a working passkey alone; it stores the new verifier and changes
      nothing else. */
  lemma UsePasskeyAnswers(s: AccountAuth, account: string, id: string, verifier: string)
    requires Keyed(s)
    ensures var d, s' := DecideUsePasskey(s, account, id, verifier), Next(s, UsePasskey(account, id, verifier));
            && (d.Ok? <==> PasskeyWorks(s, account, id)) && (d.Err? ==> d == Err(MethodNotFound) && s' == s)
            && (d.Ok? ==> id in s.passkeys
                          && s' == s.(passkeys := s.passkeys[id := s.passkeys[id].(verifier := verifier)]))
  {
    hide ApplyAll;
    if PasskeyWorks(s, account, id) {
      OneFact(s, Passkey(s.passkeys[id].(verifier := verifier)));
    }
  }

  /** A passkey is added unless its id is another account's. */
  lemma AddPasskeyAnswers(s: AccountAuth, r: PasskeyRecord)
    requires r.op == Upsert
    ensures var d, s' := DecideAddPasskey(s, r), Next(s, AddPasskey(r));
            && (d.Ok? <==> r.id !in s.passkeys || PasskeyOf(s, r.account, r.id))
            && (d.Err? ==> d == Err(CredentialAlreadyLinked) && s' == s)
            && (d.Ok? ==> s' == s.(passkeys := s.passkeys[r.id := r]))
  {
    hide ApplyAll;
    OneFact(s, Passkey(r));
  }

  /** A subject is linked unless it is another account's, be that link revoked or not. */
  lemma LinkSubjectAnswers(s: AccountAuth, r: SubjectRecord)
    requires r.op == Upsert
    ensures var d, s' := DecideLinkSubject(s, r), Next(s, LinkSubject(r));
            && (d.Ok? <==> r.id !in s.subjects || SubjectOf(s, r.account, r.id))
            && (d.Err? ==> d == Err(SubjectAlreadyLinked) && s' == s)
            && (d.Ok? ==> s' == s.(subjects := s.subjects[r.id := r]))
  {
    hide ApplyAll;
    OneFact(s, Subject(r));
  }

  /** Whoever holds a subject may unlink it, the last one too; asking again changes nothing. */
  lemma UnlinkSubjectAnswers(s: AccountAuth, account: string, id: string)
    requires Keyed(s)
    ensures var d, s' := DecideUnlinkSubject(s, account, id), Next(s, UnlinkSubject(account, id));
            && (d.Ok? <==> SubjectOf(s, account, id)) && (d.Err? ==> d == Err(MethodNotFound) && s' == s)
            && (d.Ok? ==> SubjectOf(s, account, id)
                          && s' == s.(subjects := s.subjects[id := s.subjects[id].(status := Revoked)]))
  {
    hide ApplyAll;
    if SubjectOf(s, account, id) {
      var r := s.subjects[id].(status := Revoked);
      OneFact(s, Subject(r));
      NoFacts(s);
      if s.subjects[id].status == Revoked {
        assert s.subjects[id := r] == s.subjects;
      }
    }
  }

  /** An address is verified unless it works for another account. */
  lemma VerifyEmailAnswers(s: AccountAuth, r: EmailRecord)
    requires r.op == Upsert
    ensures var d, s' := DecideVerifyEmail(s, r), Next(s, VerifyEmail(r));
            && (d.Ok? <==> forall a | EmailWorks(s, a, r.id) :: a == r.account)
            && (d.Err? ==> d == Err(CredentialAlreadyLinked) && s' == s)
            && (d.Ok? ==> s' == s.(emails := s.emails[r.id := r]))
  {
    hide ApplyAll;
    OneFact(s, Email(r));
    if r.id in s.emails && s.emails[r.id].status == Active {
      assert EmailWorks(s, s.emails[r.id].account, r.id);
    }
  }

  /** A recovery code is taken just if it works, and is then marked used at that time. */
  lemma ConsumeCodeAnswers(s: AccountAuth, account: string, id: string, at: nat)
    requires Keyed(s)
    ensures var d, s' := DecideConsumeCode(s, account, id, at), Next(s, ConsumeCode(account, id, at));
            && (d.Ok? <==> CodeWorks(s, account, id)) && (d.Ok? <==> id in UnusedCodes(s, account))
            && (d == Err(MethodNotFound) <==> !CodeOf(s, account, id))
            && (d == Err(RecoveryCodeAlreadyConsumed)
                <==> CodeOf(s, account, id) && s.codes[id].consumedAt.Some?)
            && (d.Err? ==> s' == s
                           && d.error in {MethodNotFound, RecoveryCodeAlreadyConsumed, RecoveryBatchNotActive})
            && (d.Ok? ==> id in s.codes && s' == s.(codes := s.codes[id := s.codes[id].(consumedAt := Some(at))]))
  {
    hide ApplyAll;
    if CodeWorks(s, account, id) {
      OneFact(s, Code(s.codes[id].(consumedAt := Some(at))));
    }
  }

  ghost predicate CodesFit(account: string, batch: string, codes: seq<CodeRecord>) {
    !Blank(account) && !Blank(batch) && |codes| > 0
    && forall c | c in codes :: c.account == Trim(account) && c.batch == Trim(batch)
  }

  /** Codes are replaced just if there are some, all of the named account and batch. The
      account's current batches are then replaced ones, the new batch stands under its id,
      and each code under its own, the later of two with one id. */
  lemma ReplaceCodesAnswers(s: AccountAuth, account: string, batch: string, at: nat, codes: seq<CodeRecord>)
    requires Keyed(s) && forall c | c in codes :: c.op == Upsert
    ensures var d, s' := DecideReplaceCodes(s, account, batch, at, codes),
                         Next(s, ReplaceCodes(account, batch, at, codes));
            && (d.Ok? <==> CodesFit(account, batch, codes))
            && (d.Err? ==> d == Err(InvalidVerifierMaterial) && s' == s)
            && (d.Ok? ==>
                  && s' == s.(batches := s'.batches, codes := s'.codes)
                  && s'.batches.Keys == s.batches.Keys + {Trim(batch)}
                  && s'.batches[Trim(batch)] == BatchRecord(Trim(batch), Upsert, Trim(account), at, Current)
                  && s'.codes.Keys == s.codes.Keys + NewIds(codes))
            && (d.Ok? ==> forall i | i in s.batches && i != Trim(batch) ::
                  i in s'.batches && s'.batches[i]
                  == if s.batches[i].account == Trim(account) then s.batches[i].(status := Replaced) else s.batches[i])
            && (d.Ok? ==> forall i | i in s.codes && i !in NewIds(codes) :: i in s'.codes && s'.codes[i] == s.codes[i])
            && (d.Ok? ==> forall i | i in NewIds(codes) ::
                  i in s'.codes && s'.codes[i] in codes && s'.codes[i].id == i)
  {
    hide ApplyAll, Replacements, CodeFacts, Trim, Names, CodeMap, NewIds;
    if DecideReplaceCodes(s, account, batch, at, codes).Ok? {
      ReplaceEffect(s, account, batch, at, codes);
      forall i
        ensures i in CodeMap(codes) <==> i in NewIds(codes)
        ensures i in CodeMap(codes) ==> CodeMap(codes)[i] in codes && CodeMap(codes)[i].id == i
      {
        NewCodes(codes, i);
        CodeMapOf(codes, i);
      }
      ReplacedBatches(s, Trim(account), BatchRecord(Trim(batch), Upsert, Trim(account), at, Current));
    }
  }

  lemma ReplacedBatches(s: AccountAuth, account: string, r: BatchRecord)
    ensures var after := WithReplaced(s.batches, CurrentBatches(s, account))[r.id := r];
            && after.Keys == s.batches.Keys + {r.id} && after[r.id] == r
            && forall i | i in s.batches && i != r.id ::
                 after[i] == if s.batches[i].account == account then s.batches[i].(status := Replaced) else s.batches[i]
  {
  }

  // ---- every run -----------------------------------------------------------------------------------

  /** What one command does to one way of signing in. */
  datatype Touch = Adds | Ends | Leaves

  /** Added, and not ended since. */
  ghost predicate Stands(touches: seq<Touch>) {
    exists n :: 0 <= n < |touches| && touches[n] == Adds && Ends !in touches[n..]
  }

  lemma StandsSnoc(touches: seq<Touch>, t: Touch)
    ensures Stands(touches + [t]) <==> t == Adds || (t == Leaves && Stands(touches))
  {
    var all := touches + [t];
    if t == Adds {
      assert all[|touches|] == Adds && all[|touches|..] == [Adds];
    }
    if t == Leaves && Stands(touches) {
      var n :| 0 <= n < |touches| && touches[n] == Adds && Ends !in touches[n..];
      assert all[n] == Adds && all[n..] == touches[n..] + [t];
    }
    if Stands(all) && t != Adds {
      var n :| 0 <= n < |all| && all[n] == Adds && Ends !in all[n..];
      assert all[n..] == touches[n..] + [t];
      assert touches[n] == Adds;
    }
  }

  function When(b: bool, t: Touch): Touch {
    if b then t else Leaves
  }

  /** What an admitted command does to a passkey of an account's. */
  function PasskeyTouch(s: AccountAuth, c: Command, account: string, id: string): Touch {
    if Decide(s, c).Err? then Leaves else
    match c
    case AddPasskey(r) => When(r.account == account && r.id == id, Adds)
    case RevokePasskey(a, i) => When(a == account && i == id, Ends)
    case Erase(a) => When(a == account, Ends)
    case _ => Leaves
  }

  function SubjectTouch(s: AccountAuth, c: Command, account: string, id: string): Touch {
    if Decide(s, c).Err? then Leaves else
    match c
    case LinkSubject(r) => When(r.account == account && r.id == id, Adds)
    case UnlinkSubject(a, i) => When(a == account && i == id, Ends)
    case Erase(a) => When(a == account, Ends)
    case _ => Leaves
  }

  function EmailTouch(s: AccountAuth, c: Command, account: string, id: string): Touch {
    if Decide(s, c).Err? then Leaves else
    match c
    case VerifyEmail(r) => When(r.account == account && r.id == id, Adds)
    case Erase(a) => When(a == account, Ends)
    case _ => Leaves
  }

  function CodeTouch(s: AccountAuth, c: Command, account: string, id: string): Touch {
    if Decide(s, c).Err? then Leaves else
    match c
    case ReplaceCodes(a, _, _, codes) => When(Trim(a) == account, if id in NewIds(codes) then Adds else Ends)
    case ConsumeCode(a, i, _) => When(a == account && i == id, Ends)
    case Erase(a) => When(a == account, Ends)
    case _ => Leaves
  }

  ghost predicate Moves(before: bool, after: bool, t: Touch) {
    after <==> t == Adds || (t == Leaves && before)
  }

  /** A command leaves the records it does not speak of. */
  lemma OthersStay(s: AccountAuth, c: Command)
    requires MethodsHold(s) && WellMade(s, c) && !c.Erase?
    ensures var s' := Next(s, c);
            && (!c.AddPasskey? && !c.UsePasskey? && !c.RevokePasskey? ==> s'.passkeys == s.passkeys)
            && (!c.LinkSubject? && !c.UnlinkSubject? ==> s'.subjects == s.subjects)
            && (!c.VerifyEmail? ==> s'.emails == s.emails)
            && (!c.ReplaceCodes? && !c.ConsumeCode? ==> s'.batches == s.batches && s'.codes == s.codes)
  {
    hide Apply, ApplyAll, Decide, Trim, CodesFit, OneBatch, CodesBatched, NewIds, Next;
    match c {
      case VerifyEmail(r) => VerifyEmailAnswers(s, r);
      case AddPasskey(r) => AddPasskeyAnswers(s, r);
      case UsePasskey(a, i, v) => UsePasskeyAnswers(s, a, i, v);
      case RevokePasskey(a, i) => RevokePasskeyAnswers(s, a, i);
      case LinkSubject(r) => LinkSubjectAnswers(s, r);
      case UnlinkSubject(a, i) => UnlinkSubjectAnswers(s, a, i);
      case ReplaceCodes(a, b, at, codes) => ReplaceCodesAnswers(s, a, b, at, codes);
      case ConsumeCode(a, i, at) => ConsumeCodeAnswers(s, a, i, at);
    }
  }

  lemma PasskeyStep(s: AccountAuth, c: Command, account: string, id: string)
    requires MethodsHold(s) && WellMade(s, c)
    ensures Moves(PasskeyWorks(s, account, id), PasskeyWorks(Next(s, c), account, id), PasskeyTouch(s, c, account, id))
  {
    hide ApplyAll, Replacements, CodeFacts, Trim, Names, OneBatch, CodesBatched;
    match c {
      case AddPasskey(r) => AddPasskeyAnswers(s, r);
      case UsePasskey(a, i, v) => UsePasskeyAnswers(s, a, i, v);
      case RevokePasskey(a, i) => RevokePasskeyAnswers(s, a, i);
      case Erase(a) =>
      case _ => OthersStay(s, c);
    }
  }

  lemma SubjectStep(s: AccountAuth, c: Command, account: string, id: string)
    requires MethodsHold(s) && WellMade(s, c)
    ensures Moves(SubjectWorks(s, account, id), SubjectWorks(Next(s, c), account, id), SubjectTouch(s, c, account, id))
  {
    hide ApplyAll, Replacements, CodeFacts, Trim, Names, OneBatch, CodesBatched;
    match c {
      case LinkSubject(r) => LinkSubjectAnswers(s, r);
      case UnlinkSubject(a, i) => UnlinkSubjectAnswers(s, a, i);
      case Erase(a) =>
      case _ => OthersStay(s, c);
    }
  }

  ghost predicate AllActive(s: AccountAuth) {
    forall i | i in s.emails :: s.emails[i].status == Active
  }

  lemma EmailStep(s: AccountAuth, c: Command, account: string, id: string)
    requires MethodsHold(s) && WellMade(s, c) && AllActive(s)
    ensures Moves(EmailWorks(s, account, id), EmailWorks(Next(s, c), account, id), EmailTouch(s, c, account, id))
    ensures AllActive(Next(s, c))
  {
    hide ApplyAll, Replacements, CodeFacts, Trim, Names, OneBatch, CodesBatched;
    match c {
      case VerifyEmail(r) => VerifyEmailAnswers(s, r);
      case Erase(a) =>
      case _ => OthersStay(s, c);
    }
  }

  lemma CodeStep(s: AccountAuth, c: Command, account: string, id: string)
    requires MethodsHold(s) && WellMade(s, c)
    ensures Moves(CodeWorks(s, account, id), CodeWorks(Next(s, c), account, id), CodeTouch(s, c, account, id))
  {
    hide ApplyAll, Replacements, CodeFacts, Trim, Names, OneBatch;
    match c {
      case ReplaceCodes(a, b, at, codes) => CodesStep(s, a, b, at, codes, account, id);
      case ConsumeCode(a, i, at) => ConsumeCodeAnswers(s, a, i, at);
      case Erase(a) =>
      case _ => OthersStay(s, c);
    }
  }

  lemma CodesStep(s: AccountAuth, a: string, batch: string, at: nat, codes: seq<CodeRecord>,
                  account: string, id: string)
    requires MethodsHold(s) && WellMade(s, ReplaceCodes(a, batch, at, codes))
    ensures var c := ReplaceCodes(a, batch, at, codes);
            Moves(CodeWorks(s, account, id), CodeWorks(Next(s, c), account, id), CodeTouch(s, c, account, id))
  {
    hide Apply, ApplyAll, Replacements, CodeFacts, Trim, Names, OneBatch, Next;
    ReplaceCodesAnswers(s, a, batch, at, codes);
  }

  // ---- over runs -----------------------------------------------------------------------------------

  ghost function PasskeyTouches(commands: seq<Command>, account: string, id: string): seq<Touch> {
    seq(|commands|, n requires 0 <= n < |commands| =>
      PasskeyTouch(Exec(Empty, commands[..n]), commands[n], account, id))
  }

  ghost function SubjectTouches(commands: seq<Command>, account: string, id: string): seq<Touch> {
    seq(|commands|, n requires 0 <= n < |commands| =>
      SubjectTouch(Exec(Empty, commands[..n]), commands[n], account, id))
  }

  ghost function EmailTouches(commands: seq<Command>, account: string, id: string): seq<Touch> {
    seq(|commands|, n requires 0 <= n < |commands| =>
      EmailTouch(Exec(Empty, commands[..n]), commands[n], account, id))
  }

  ghost function CodeTouches(commands: seq<Command>, account: string, id: string): seq<Touch> {
    seq(|commands|, n requires 0 <= n < |commands| =>
      CodeTouch(Exec(Empty, commands[..n]), commands[n], account, id))
  }

  lemma TouchesSnoc(commands: seq<Command>, account: string, id: string)
    requires commands != []
    ensures var before, last := commands[..|commands| - 1], commands[|commands| - 1];
            && PasskeyTouches(commands, account, id) == PasskeyTouches(before, account, id)
                 + [PasskeyTouch(Exec(Empty, before), last, account, id)]
            && SubjectTouches(commands, account, id) == SubjectTouches(before, account, id)
                 + [SubjectTouch(Exec(Empty, before), last, account, id)]
            && EmailTouches(commands, account, id) == EmailTouches(before, account, id)
                 + [EmailTouch(Exec(Empty, before), last, account, id)]
            && CodeTouches(commands, account, id) == CodeTouches(before, account, id)
                 + [CodeTouch(Exec(Empty, before), last, account, id)]
  {
    hide Exec, PasskeyTouch, SubjectTouch, EmailTouch, CodeTouch;
    var before := commands[..|commands| - 1];
    assert forall n | 0 <= n < |before| :: before[..n] == commands[..n];
  }

  /** After every run of decisions and erasures, a passkey, a subject, an address or a
      recovery code works for an account exactly if an admitted command gave it to that
      account and none since has ended it: revoking it, unlinking it, using it, replacing
      the codes, or erasing the account. */
  lemma {:induction false} WorksExactly(commands: seq<Command>, account: string, id: string)
    requires WellMadeRun(Empty, commands)
    ensures PasskeyWorks(Exec(Empty, commands), account, id) <==> Stands(PasskeyTouches(commands, account, id))
    ensures SubjectWorks(Exec(Empty, commands), account, id) <==> Stands(SubjectTouches(commands, account, id))
    ensures EmailWorks(Exec(Empty, commands), account, id) <==> Stands(EmailTouches(commands, account, id))
    ensures CodeWorks(Exec(Empty, commands), account, id) <==> Stands(CodeTouches(commands, account, id))
    ensures AllActive(Exec(Empty, commands))
    decreases |commands|
  {
    hide Next, MethodsHold, WellMade, Keeps, PasskeyTouch, SubjectTouch, EmailTouch, CodeTouch, Stands, AllActive,
      PasskeyWorks, SubjectWorks, EmailWorks, CodeWorks, PasskeyTouches, SubjectTouches, EmailTouches, CodeTouches;
    if commands == [] {
      NothingWorks(account, id);
    } else {
      var before, last := commands[..|commands| - 1], commands[|commands| - 1];
      assert commands == before + [last] && (before + [last])[..|before|] == before;
      WellMadeSplits(Empty, before, [last]);
      assert WellMade(Exec(Empty, commands[..|before|]), commands[|before|]);
      WorksExactly(before, account, id);
      HoldsThen(before, [last]);
      var s := Exec(Empty, before);
      PasskeyStep(s, last, account, id);
      SubjectStep(s, last, account, id);
      EmailStep(s, last, account, id);
      CodeStep(s, last, account, id);
      TouchesSnoc(commands, account, id);
      StandsSnoc(PasskeyTouches(before, account, id), PasskeyTouch(s, last, account, id));
      StandsSnoc(SubjectTouches(before, account, id), SubjectTouch(s, last, account, id));
      StandsSnoc(EmailTouches(before, account, id), EmailTouch(s, last, account, id));
      StandsSnoc(CodeTouches(before, account, id), CodeTouch(s, last, account, id));
    }
  }

  lemma NothingWorks(account: string, id: string)
    ensures !PasskeyWorks(Empty, account, id) && !SubjectWorks(Empty, account, id)
    ensures !EmailWorks(Empty, account, id) && !CodeWorks(Empty, account, id) && AllActive(Empty)
    ensures !Stands(PasskeyTouches([], account, id)) && !Stands(SubjectTouches([], account, id))
    ensures !Stands(EmailTouches([], account, id)) && !Stands(CodeTouches([], account, id))
  {
  }
}
