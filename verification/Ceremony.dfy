/** Pending sign-in ceremonies: emailed codes, tickets and proofs used once, and how much may
    be pending. What is pending is held in memory and gone when the process restarts; the
    recovery attempts are read from the account projection, which a fence takes its
    account's out of. */
module Ceremony {
  import opened Base
  import opened Text
  import opened AuthData

  const EMAIL_TTL := 600
  const EMAIL_ATTEMPTS := 5
  const CEREMONY_TTL := 300
  const PROOF_TTL := 300
  const RECOVERY_WINDOW := 900
  const RECOVERY_LIMIT := 5
  const PENDING_MAX := 512
  const MAIL_LIMIT := 20
  const MAIL_WINDOW := 86400

  datatype Purpose = Verification | Recovery

  /** A challenge awaiting its code. The code is held as a salted digest, which only the
      same code matches. */
  datatype PendingEmail = PendingEmail(email: string, purpose: Purpose, code: string, attemptsLeft: nat, expiresAt: nat)

  datatype Ticket = Ticket(email: string, expiresAt: nat)

  datatype Proof = Proof(account: string, operation: string, expiresAt: nat)

  /** What is pending, the recovery attempts the projection holds, and the accounts past
      their erasure fence. */
  datatype Pending = Pending(emails: map<string, PendingEmail>, verified: map<string, Ticket>,
                             proofs: map<string, Proof>, mail: map<string, seq<nat>>,
                             attempts: map<string, AttemptRecord>, fenced: set<string>)

  const NothingPending := Pending(map[], map[], map[], map[], map[], {})

  datatype Fault = InvalidEmail | UnknownOrExpired | WrongProof | Unavailable | DeliveryFailed | TooMany

  /** What an action came to: a code judged wrong, a ticket minted, a ticket or proof spent,
      an email admitted, or nothing of the kind. */
  datatype Outcome =
    | Wrong(challenge: string) | Minted(challenge: string, ticket: string)
    | Spent(token: string) | Mailed(account: string, at: nat) | Other

  /** Random tokens are parameters. What recovery looks up in the account directory is given
      as answers: the account the address resolves to, and whether the recovery code and the
      custody of its root are good. */
  datatype Action =
    | Begin(id: string, email: Option<string>, code: string, purpose: Purpose, delivered: bool)
    | Complete(id: string, code: string, purpose: Purpose, ticket: string)
    | TakeTicket(ticket: string)
    | Recover(id: string, code: string, ticket: string, attempt: string, whose: Option<string>, codeValid: bool,
              custodyValid: bool)
    | IssueProof(proof: string, account: string, operation: string)
    | ConsumeProof(proof: string, account: string, operation: string)
    | InvitationMail(account: string)
    | Fence(account: string)
    | Restart

  // ---- the steps ------------------------------------------------------------------------------

  function Recent(sent: seq<nat>, now: nat): seq<nat> {
    if sent == [] then []
    else Recent(sent[..|sent| - 1], now) + (if sent[|sent| - 1] + MAIL_WINDOW > now then [sent[|sent| - 1]] else [])
  }

  /** Drop what has expired. */
  function Sweep(st: Pending, now: nat): Pending {
    st.(emails := map i | i in st.emails && st.emails[i].expiresAt > now :: st.emails[i],
        verified := map i | i in st.verified && st.verified[i].expiresAt > now :: st.verified[i],
        proofs := map i | i in st.proofs && st.proofs[i].expiresAt > now :: st.proofs[i],
        mail := map a | a in st.mail && Recent(st.mail[a], now) != [] :: Recent(st.mail[a], now))
  }

  function BeginStep(st: Pending, id: string, email: Option<string>, code: string, purpose: Purpose,
                     delivered: bool, now: nat): (Pending, Outcome)
  {
    if email.None? then (st, Other)
    else
      var swept := Sweep(st, now);
      if |swept.emails| >= PENDING_MAX then (swept, Other)
      else if !delivered then (swept.(emails := swept.emails - {id}), Other)
      else
        var pending := PendingEmail(email.value, purpose, code, EMAIL_ATTEMPTS, now + EMAIL_TTL);
        (swept.(emails := swept.emails[id := pending]), Other)
  }

  function CompleteStep(st: Pending, id: string, code: string, purpose: Purpose, ticket: string, now: nat)
    : (Pending, Outcome)
  {
    if id !in st.emails then (st, Other)
    else
      var pending := st.emails[id];
      if pending.expiresAt <= now || pending.attemptsLeft == 0 || pending.purpose != purpose then
        (st.(emails := st.emails - {id}), Other)
      else if pending.code != Trim(code) then
        (if pending.attemptsLeft == 1 then st.(emails := st.emails - {id})
         else st.(emails := st.emails[id := pending.(attemptsLeft := pending.attemptsLeft - 1)]),
         Wrong(id))
      else if |st.verified| >= PENDING_MAX then (st.(emails := st.emails - {id}), Other)
      else
        (st.(emails := st.emails - {id}, verified := st.verified[ticket := Ticket(pending.email, now + CEREMONY_TTL)]),
         Minted(id, ticket))
  }

  function TakeStep(st: Pending, ticket: string, now: nat): (Pending, Outcome) {
    if ticket !in st.verified then (st, Other)
    else (st.(verified := st.verified - {ticket}), if st.verified[ticket].expiresAt > now then Spent(ticket) else Other)
  }

  /** The invalid proofs on record for a target from a moment on. */
  function InvalidSince(attempts: map<string, AttemptRecord>, target: string, since: nat): set<string> {
    set i | i in attempts && attempts[i].target == target && attempts[i].attemptedAt >= since
            && attempts[i].outcome == InvalidProof
  }

  predicate Limited(attempts: map<string, AttemptRecord>, target: string, now: nat) {
    |InvalidSince(attempts, target, Since(now))| >= RECOVERY_LIMIT
  }

  function Since(now: nat): nat {
    if now < RECOVERY_WINDOW then 0 else now - RECOVERY_WINDOW
  }

  /** The account the directory resolves an address to, which is never a fenced one. */
  function Resolved(st: Pending, account: Option<string>): Option<string> {
    if account.Some? && account.value in st.fenced then None else account
  }

  /** The attempt a recovery puts on record: none without a pending challenge; otherwise one
      for the address the challenge was sent to, charged to the account it resolves to once
      the emailed code was right. */
  function Judged(st: Pending, a: Action, now: nat): Option<AttemptRecord>
    requires a.Recover?
  {
    if !(a.id in st.emails && st.emails[a.id].purpose == Recovery && st.emails[a.id].expiresAt > now) then None
    else
      var target, account := st.emails[a.id].email, Resolved(st, a.whose);
      if Limited(st.attempts, target, now) then Some(AttemptRecord(a.attempt, Upsert, target, None, now, RateLimited))
      else if !CompleteStep(st, a.id, a.code, Recovery, a.ticket, now).1.Minted? || account.None?
      then Some(AttemptRecord(a.attempt, Upsert, target, None, now, InvalidProof))
      else
        var outcome := if !a.codeValid then InvalidProof else if !a.custodyValid then CustodyUnavailable else Succeeded;
        Some(AttemptRecord(a.attempt, Upsert, target, account, now, outcome))
  }

  /** Recovery by an emailed code and a recovery code. */
  function RecoverStep(st: Pending, a: Action, now: nat): (Pending, Outcome)
    requires a.Recover?
  {
    match Judged(st, a, now)
    case None => (st, Other)
    case Some(r) =>
      var attempts := st.attempts[r.id := r];
      if r.outcome == RateLimited then (st.(emails := st.emails - {a.id}, attempts := attempts), Other)
      else
        var (completed, outcome) := CompleteStep(st, a.id, a.code, Recovery, a.ticket, now);
        var kept := if outcome.Minted? then completed.(verified := completed.verified - {a.ticket}) else completed;
        (kept.(attempts := attempts), outcome)
  }

  /** An account past its erasure fence is taken out of the projection. */
  function FenceStep(st: Pending, account: string): Pending {
    st.(attempts := AttemptsOf(st.attempts, account, false), fenced := st.fenced + {account})
  }

  /** A new process: nothing is pending, the store is as it was. */
  function RestartStep(st: Pending): Pending {
    NothingPending.(attempts := st.attempts, fenced := st.fenced)
  }

  function IssueStep(st: Pending, proof: string, account: string, operation: string, now: nat): (Pending, Outcome) {
    if Blank(account) || Blank(operation) then (st, Other)
    else
      var swept := Sweep(st, now);
      if |swept.proofs| >= PENDING_MAX then (swept, Other)
      else (swept.(proofs := swept.proofs[proof := Proof(Trim(account), Trim(operation), now + PROOF_TTL)]), Other)
  }

  /** A presented proof is gone before anything about it is checked. */
  function ConsumeStep(st: Pending, proof: string, account: string, operation: string, now: nat): (Pending, Outcome) {
    if proof !in st.proofs then (st, Other)
    else
      var p := st.proofs[proof];
      (st.(proofs := st.proofs - {proof}),
       if p.expiresAt > now && p.account == account && p.operation == operation then Spent(proof) else Other)
  }

  function Sent(st: Pending, account: string): seq<nat> {
    if account in st.mail then st.mail[account] else []
  }

  function MailStep(st: Pending, account: string, now: nat): (Pending, Outcome) {
    var swept := Sweep(st, now);
    var sent := Sent(swept, account);
    if |sent| >= MAIL_LIMIT then (swept.(mail := swept.mail[account := sent]), Other)
    else (swept.(mail := swept.mail[account := sent + [now]]), Mailed(account, now))
  }

  function Step(st: Pending, a: Action, now: nat): (Pending, Outcome) {
    match a
    case Begin(id, email, code, purpose, delivered) => BeginStep(st, id, email, code, purpose, delivered, now)
    case Complete(id, code, purpose, ticket) => CompleteStep(st, id, code, purpose, ticket, now)
    case TakeTicket(ticket) => TakeStep(st, ticket, now)
    case Recover(_, _, _, _, _, _, _) => RecoverStep(st, a, now)
    case IssueProof(proof, account, operation) => IssueStep(st, proof, account, operation, now)
    case ConsumeProof(proof, account, operation) => ConsumeStep(st, proof, account, operation, now)
    case InvitationMail(account) => MailStep(st, account, now)
    case Fence(account) => (FenceStep(st, account), Other)
    case Restart => (RestartStep(st), Other)
  }

  type Timed = (Action, nat)

  function Exec(st: Pending, run: seq<Timed>): Pending {
    if run == [] then st
    else Step(Exec(st, run[..|run| - 1]), run[|run| - 1].0, run[|run| - 1].1).0
  }

  /** What each action of a run came to. */
  function Outcomes(st: Pending, run: seq<Timed>): seq<Outcome> {
    if run == [] then []
    else Outcomes(st, run[..|run| - 1]) + [Step(Exec(st, run[..|run| - 1]), run[|run| - 1].0, run[|run| - 1].1).1]
  }

  ghost predicate Monotone(run: seq<Timed>) {
    forall i, j | 0 <= i <= j < |run| :: run[i].1 <= run[j].1
  }

  // ---- counting outcomes ------------------------------------------------------------------------

  function Wrongs(outcomes: seq<Outcome>, id: string): nat {
    if outcomes == [] then 0
    else Wrongs(outcomes[..|outcomes| - 1], id) + (if outcomes[|outcomes| - 1] == Wrong(id) then 1 else 0)
  }

  function Mints(outcomes: seq<Outcome>, id: string): nat {
    if outcomes == [] then 0
    else
      var last := outcomes[|outcomes| - 1];
      Mints(outcomes[..|outcomes| - 1], id) + (if last.Minted? && last.challenge == id then 1 else 0)
  }

  function Spends(outcomes: seq<Outcome>, token: string): nat {
    if outcomes == [] then 0
    else Spends(outcomes[..|outcomes| - 1], token) + (if outcomes[|outcomes| - 1] == Spent(token) then 1 else 0)
  }

  // ---- one emailed code ---------------------------------------------------------------------------

  function Left(st: Pending, id: string): nat {
    if id in st.emails then st.emails[id].attemptsLeft else 0
  }

  function Open(st: Pending, id: string): nat {
    if id in st.emails then 1 else 0
  }

  ghost predicate Bounded(st: Pending) {
    && |st.emails| <= PENDING_MAX && |st.verified| <= PENDING_MAX && |st.proofs| <= PENDING_MAX
    && (forall i | i in st.emails :: 0 < st.emails[i].attemptsLeft <= EMAIL_ATTEMPTS)
  }

  lemma CompleteBound(st: Pending, at: string, code: string, purpose: Purpose, ticket: string, now: nat, id: string)
    ensures var (st', o) := CompleteStep(st, at, code, purpose, ticket, now);
            && Left(st', id) + (if o == Wrong(id) then 1 else 0) <= Left(st, id)
            && Open(st', id) + (if o.Minted? && o.challenge == id then 1 else 0) <= Open(st, id)
  {
    hide Trim;
  }

  lemma ChallengeStep(st: Pending, a: Action, now: nat, id: string)
    requires a.Begin? ==> a.id != id
    ensures var (st', o) := Step(st, a, now);
            && Left(st', id) + (if o == Wrong(id) then 1 else 0) <= Left(st, id)
            && Open(st', id) + (if o.Minted? && o.challenge == id then 1 else 0) <= Open(st, id)
  {
    hide Recent, Limited, Trim, CompleteStep;
    match a {
      case Complete(at, code, purpose, ticket) => CompleteBound(st, at, code, purpose, ticket, now, id);
      case Recover(at, code, ticket, _, _, _, _) => CompleteBound(st, at, code, Recovery, ticket, now, id);
      case _ =>
    }
  }

  lemma {:induction false} ChallengeRun(st: Pending, run: seq<Timed>, id: string)
    requires forall t | t in run && t.0.Begin? :: t.0.id != id
    ensures Wrongs(Outcomes(st, run), id) + Left(Exec(st, run), id) <= Left(st, id)
    ensures Mints(Outcomes(st, run), id) + Open(Exec(st, run), id) <= Open(st, id)
    decreases |run|
  {
    hide Step, Left, Open;
    if run != [] {
      var before, last := run[..|run| - 1], run[|run| - 1];
      assert last in run;
      ChallengeRun(st, before, id);
      ChallengeStep(Exec(st, before), last.0, last.1, id);
      var o := Step(Exec(st, before), last.0, last.1).1;
      assert Outcomes(st, run)[..|run| - 1] == Outcomes(st, before) by {
        OutcomesLength(st, before);
      }
      OutcomesLength(st, before);
    }
  }

  lemma {:induction false} OutcomesLength(st: Pending, run: seq<Timed>)
    ensures |Outcomes(st, run)| == |run|
  {
    hide Step;
    if run != [] {
      OutcomesLength(st, run[..|run| - 1]);
    }
  }

  /** One challenge judges at most five wrong codes and yields at most one ticket, whatever
      else happens around it. */
  lemma OneChallenge(st: Pending, id: string, email: string, code: string, purpose: Purpose, now: nat, run: seq<Timed>)
    requires |Sweep(st, now).emails| < PENDING_MAX
    requires forall t | t in run && t.0.Begin? :: t.0.id != id
    ensures var begun := Step(st, Begin(id, Some(email), code, purpose, true), now).0;
            && id in begun.emails
            && Wrongs(Outcomes(begun, run), id) <= 5 && Mints(Outcomes(begun, run), id) <= 1
  {
    hide Recent;
    ChallengeRun(Step(st, Begin(id, Some(email), code, purpose, true), now).0, run, id);
  }

  // ---- tickets and proofs -----------------------------------------------------------------------------

  function Holds(st: Pending, token: string): nat {
    (if token in st.verified then 1 else 0) + (if token in st.proofs then 1 else 0)
  }

  /** The action mints this token. */
  predicate MintsToken(a: Action, token: string) {
    match a
    case Complete(_, _, _, ticket) => ticket == token
    case Recover(_, _, ticket, _, _, _, _) => ticket == token
    case IssueProof(proof, _, _) => proof == token
    case _ => false
  }

  lemma SpendStep(st: Pending, a: Action, now: nat, token: string)
    requires !MintsToken(a, token)
    ensures var (st', o) := Step(st, a, now);
            Holds(st', token) + (if o == Spent(token) then 1 else 0) <= Holds(st, token)
  {
    hide Recent, Trim, CompleteStep, RecoverStep, Sweep;
    SweepHolds(st, now, token);
    match a {
      case Complete(id, code, purpose, ticket) => CompleteSpends(st, id, code, purpose, ticket, now, token);
      case Recover(_, _, _, _, _, _, _) => RecoverSpends(st, a, now, token);
      case _ =>
    }
  }

  lemma RecoverSpends(st: Pending, a: Action, now: nat, token: string)
    requires a.Recover? && a.ticket != token
    ensures var (st', o) := RecoverStep(st, a, now);
            Holds(st', token) == Holds(st, token) && !o.Spent?
  {
    hide Limited, Trim, CompleteStep;
    CompleteSpends(st, a.id, a.code, Recovery, a.ticket, now, token);
  }

  lemma SweepHolds(st: Pending, now: nat, token: string)
    ensures Holds(Sweep(st, now), token) <= Holds(st, token)
  {
    hide Recent;
  }

  lemma CompleteSpends(st: Pending, id: string, code: string, purpose: Purpose, ticket: string, now: nat, token: string)
    requires ticket != token
    ensures var (st', o) := CompleteStep(st, id, code, purpose, ticket, now);
            Holds(st', token) == Holds(st, token) && !o.Spent?
  {
    hide Trim;
  }

  /** A ticket or proof is spent at most once: what is spent and what is still held never
      exceed what was held. */
  lemma {:induction false} SpentOnce(st: Pending, run: seq<Timed>, token: string)
    requires forall t | t in run :: !MintsToken(t.0, token)
    ensures Spends(Outcomes(st, run), token) + Holds(Exec(st, run), token) <= Holds(st, token)
    decreases |run|
  {
    hide Step, Holds;
    if run != [] {
      var before, last := run[..|run| - 1], run[|run| - 1];
      assert last in run;
      SpentOnce(st, before, token);
      SpendStep(Exec(st, before), last.0, last.1, token);
      OutcomesLength(st, before);
      assert Outcomes(st, run)[..|run| - 1] == Outcomes(st, before);
    }
  }

  // ---- how much may be pending ------------------------------------------------------------------------

  lemma Fewer<V, W>(m: map<string, V>, m': map<string, W>)
    requires m'.Keys <= m.Keys
    ensures |m'| <= |m|
  {
    assert m.Keys == m'.Keys + (m.Keys - m'.Keys);
    assert |m| == |m.Keys| && |m'| == |m'.Keys|;
  }

  lemma OneMore<V>(m: map<string, V>, k: string, v: V)
    ensures |m[k := v]| <= |m| + 1
  {
    assert m[k := v].Keys == m.Keys + {k};
    assert |m[k := v]| == |m[k := v].Keys| && |m| == |m.Keys|;
  }

  lemma SweepBounded(st: Pending, now: nat)
    requires Bounded(st)
    ensures Bounded(Sweep(st, now))
  {
    hide Recent;
    var swept := Sweep(st, now);
    Fewer(st.emails, swept.emails);
    Fewer(st.verified, swept.verified);
    Fewer(st.proofs, swept.proofs);
  }

  lemma CompleteBounded(st: Pending, id: string, code: string, purpose: Purpose, ticket: string, now: nat)
    requires Bounded(st)
    ensures Bounded(CompleteStep(st, id, code, purpose, ticket, now).0)
  {
    hide Bounded, Trim;
    DropEmail(st, id);
    if id in st.emails {
      var pending := st.emails[id];
      if pending.attemptsLeft > 1 {
        FewerAttempts(st, id);
      }
      if |st.verified| < PENDING_MAX {
        AddTicket(st.(emails := st.emails - {id}), ticket, Ticket(pending.email, now + CEREMONY_TTL));
      }
    }
  }

  lemma FewerAttempts(st: Pending, id: string)
    requires Bounded(st) && id in st.emails && st.emails[id].attemptsLeft > 1
    ensures Bounded(st.(emails := st.emails[id := st.emails[id].(attemptsLeft := st.emails[id].attemptsLeft - 1)]))
  {
    Fewer(st.emails, st.emails[id := st.emails[id].(attemptsLeft := st.emails[id].attemptsLeft - 1)]);
  }

  lemma AddTicket(st: Pending, ticket: string, t: Ticket)
    requires Bounded(st) && |st.verified| < PENDING_MAX
    ensures Bounded(st.(verified := st.verified[ticket := t]))
  {
    OneMore(st.verified, ticket, t);
  }

  lemma StepBounded(st: Pending, a: Action, now: nat)
    requires Bounded(st)
    ensures Bounded(Step(st, a, now).0)
  {
    hide Bounded, BeginStep, CompleteStep, TakeStep, RecoverStep, IssueStep, ConsumeStep, MailStep;
    match a {
      case Begin(id, email, code, purpose, delivered) => BeginBounded(st, id, email, code, purpose, delivered, now);
      case Complete(id, code, purpose, ticket) => CompleteBounded(st, id, code, purpose, ticket, now);
      case TakeTicket(ticket) => TakeBounded(st, ticket, now);
      case Recover(_, _, _, _, _, _, _) => RecoverBounded(st, a, now);
      case IssueProof(proof, account, operation) => IssueBounded(st, proof, account, operation, now);
      case ConsumeProof(proof, account, operation) => ConsumeBounded(st, proof, account, operation, now);
      case InvitationMail(account) => MailBounded(st, account, now);
      case Fence(account) => AttemptsUnbounded(st, FenceStep(st, account));
      case Restart => RestartBounded(st);
    }
  }

  lemma TakeBounded(st: Pending, ticket: string, now: nat)
    requires Bounded(st)
    ensures Bounded(TakeStep(st, ticket, now).0)
  {
    Fewer(st.verified, st.verified - {ticket});
  }

  lemma RecoverBounded(st: Pending, a: Action, now: nat)
    requires a.Recover? && Bounded(st)
    ensures Bounded(RecoverStep(st, a, now).0)
  {
    hide Bounded, Judged, CompleteStep;
    var completed := CompleteStep(st, a.id, a.code, Recovery, a.ticket, now);
    var st' := RecoverStep(st, a, now).0;
    if Judged(st, a, now).Some? {
      if Judged(st, a, now).value.outcome == RateLimited {
        DropEmail(st, a.id);
        AttemptsUnbounded(st.(emails := st.emails - {a.id}), st');
      } else {
        CompleteBounded(st, a.id, a.code, Recovery, a.ticket, now);
        DropTicket(completed.0, a.ticket);
        AttemptsUnbounded(completed.0, st');
        AttemptsUnbounded(completed.0.(verified := completed.0.verified - {a.ticket}), st');
      }
    }
  }

  lemma RestartBounded(st: Pending)
    ensures Bounded(RestartStep(st))
  {
  }

  /** The attempts on record are not what is bounded here. */
  lemma AttemptsUnbounded(st: Pending, st': Pending)
    ensures Bounded(st) && st'.emails == st.emails && st'.verified == st.verified && st'.proofs == st.proofs ==>
              Bounded(st')
  {
  }

  lemma DropEmail(st: Pending, id: string)
    requires Bounded(st)
    ensures Bounded(st.(emails := st.emails - {id}))
  {
    Fewer(st.emails, st.emails - {id});
  }

  lemma DropTicket(st: Pending, ticket: string)
    requires Bounded(st)
    ensures Bounded(st.(verified := st.verified - {ticket}))
  {
    Fewer(st.verified, st.verified - {ticket});
  }

  lemma IssueBounded(st: Pending, proof: string, account: string, operation: string, now: nat)
    requires Bounded(st)
    ensures Bounded(IssueStep(st, proof, account, operation, now).0)
  {
    hide Sweep, Trim;
    SweepBounded(st, now);
    OneMore(Sweep(st, now).proofs, proof, Proof(Trim(account), Trim(operation), now + PROOF_TTL));
  }

  lemma ConsumeBounded(st: Pending, proof: string, account: string, operation: string, now: nat)
    requires Bounded(st)
    ensures Bounded(ConsumeStep(st, proof, account, operation, now).0)
  {
    Fewer(st.proofs, st.proofs - {proof});
  }

  lemma MailBounded(st: Pending, account: string, now: nat)
    requires Bounded(st)
    ensures Bounded(MailStep(st, account, now).0)
  {
    hide Sweep;
    SweepBounded(st, now);
  }

  lemma BeginBounded(st: Pending, id: string, email: Option<string>, code: string, purpose: Purpose,
                     delivered: bool, now: nat)
    requires Bounded(st)
    ensures Bounded(BeginStep(st, id, email, code, purpose, delivered, now).0)
  {
    hide Sweep;
    SweepBounded(st, now);
    var swept := Sweep(st, now);
    Fewer(swept.emails, swept.emails - {id});
    if email.Some? {
      OneMore(swept.emails, id, PendingEmail(email.value, purpose, code, EMAIL_ATTEMPTS, now + EMAIL_TTL));
    }
  }

  /** Never more than 512 challenges, tickets or proofs are pending, nor more than five
      attempts left on any challenge. */
  lemma {:induction false} AlwaysBounded(run: seq<Timed>)
    ensures Bounded(Exec(NothingPending, run))
  {
    hide Step;
    if run != [] {
      AlwaysBounded(run[..|run| - 1]);
      StepBounded(Exec(NothingPending, run[..|run| - 1]), run[|run| - 1].0, run[|run| - 1].1);
    }
  }

  // ---- as it runs -----------------------------------------------------------------------------------------

  class Runtime {
    var emails: map<string, PendingEmail>
    var verified: map<string, Ticket>
    var proofs: map<string, Proof>
    var mail: map<string, seq<nat>>
    var attempts: map<string, AttemptRecord>
    var fenced: set<string>

    constructor ()
      ensures Value() == NothingPending
    {
      emails, verified, proofs, mail, attempts, fenced := map[], map[], map[], map[], map[], {};
    }

    function Value(): Pending
      reads this
    {
      Pending(emails, verified, proofs, mail, attempts, fenced)
    }

    method SweepExpired(now: nat)
      modifies this
      ensures Value() == Sweep(old(Value()), now)
    {
      emails := map i | i in emails && emails[i].expiresAt > now :: emails[i];
      verified := map i | i in verified && verified[i].expiresAt > now :: verified[i];
      proofs := map i | i in proofs && proofs[i].expiresAt > now :: proofs[i];
      mail := map a | a in mail && Recent(mail[a], now) != [] :: Recent(mail[a], now);
    }

    method BeginEmail(id: string, email: Option<string>, code: string, purpose: Purpose, delivered: bool, now: nat)
      returns (r: Result<string, Fault>)
      modifies this
      ensures Value() == BeginStep(old(Value()), id, email, code, purpose, delivered, now).0
      ensures r == if email.None? then Err(InvalidEmail)
                   else if |Sweep(old(Value()), now).emails| >= PENDING_MAX then Err(Unavailable)
                   else if delivered then Ok(id) else Err(DeliveryFailed)
      ensures r.Ok? ==> id in emails && emails[id] == PendingEmail(email.value, purpose, code, 5, now + 600)
    {
      hide Sweep;
      if email.None? {
        return Err(InvalidEmail);
      }
      SweepExpired(now);
      if |emails| >= PENDING_MAX {
        return Err(Unavailable);
      }
      ghost var swept := emails;
      emails := emails[id := PendingEmail(email.value, purpose, code, EMAIL_ATTEMPTS, now + EMAIL_TTL)];
      assert emails - {id} == swept - {id};
      if !delivered {
        emails := emails - {id};
        return Err(DeliveryFailed);
      }
      return Ok(id);
    }

    method CompleteEmail(id: string, code: string, purpose: Purpose, ticket: string, now: nat)
      returns (r: Result<string, Fault>)
      modifies this
      ensures var (st, outcome) := CompleteStep(old(Value()), id, code, purpose, ticket, now);
              && Value() == st
              && (r.Ok? <==> outcome.Minted?) && (r.Ok? ==> r.value == ticket)
              && (r == Err(WrongProof) <==> outcome.Wrong?)
      ensures var due := id in old(emails) && now < old(emails)[id].expiresAt && old(emails)[id].attemptsLeft > 0
                         && old(emails)[id].purpose == purpose;
              && (r == Err(UnknownOrExpired) <==> !due)
              && (r == Err(WrongProof) <==> due && Trim(code) != old(emails)[id].code)
              && (r == Err(Unavailable) <==> due && Trim(code) == old(emails)[id].code && |old(verified)| >= 512)
              && (r.Ok? ==> id !in emails)
              && (r.Ok? ==> verified == old(verified)[ticket := Ticket(old(emails)[id].email, now + 300)])
      ensures attempts == old(attempts) && fenced == old(fenced)
    {
      hide Trim;
      if id !in emails {
        return Err(UnknownOrExpired);
      }
      var pending := emails[id];
      if pending.expiresAt <= now || pending.attemptsLeft == 0 || pending.purpose != purpose {
        emails := emails - {id};
        return Err(UnknownOrExpired);
      }
      if pending.code != Trim(code) {
        emails := emails[id := pending.(attemptsLeft := pending.attemptsLeft - 1)];
        if emails[id].attemptsLeft == 0 {
          emails := emails - {id};
        }
        return Err(WrongProof);
      }
      emails := emails - {id};
      if |verified| >= PENDING_MAX {
        return Err(Unavailable);
      }
      verified := verified[ticket := Ticket(pending.email, now + CEREMONY_TTL)];
      return Ok(ticket);
    }

    method RecordAttempt(attempt: string, target: string, account: Option<string>, now: nat, outcome: AttemptOutcome)
      modifies this
      ensures Value() == old(Value()).(attempts := old(attempts)[attempt := AttemptRecord(attempt, Upsert, target,
                                                                                         account, now, outcome)])
    {
      attempts := attempts[attempt := AttemptRecord(attempt, Upsert, target, account, now, outcome)];
    }

    /** Recover an account; every attempt that gets as far as the limit is on record. */
    method FinishRecovery(id: string, code: string, ticket: string, attempt: string, account: Option<string>,
                          codeValid: bool, custodyValid: bool, now: nat) returns (r: Result<string, Fault>)
      modifies this
      ensures var a := Recover(id, code, ticket, attempt, account, codeValid, custodyValid);
              && Value() == RecoverStep(old(Value()), a, now).0
              && (r.Ok? <==> Judged(old(Value()), a, now).Some?
                             && Judged(old(Value()), a, now).value.outcome == Succeeded)
              && (r.Ok? ==> account == Some(r.value) && r.value !in fenced)
    {
      hide Limited, CompleteStep;
      if !(id in emails && emails[id].purpose == Recovery && emails[id].expiresAt > now) {
        return Err(UnknownOrExpired);
      }
      var target := emails[id].email;
      if Limited(attempts, target, now) {
        emails := emails - {id};
        RecordAttempt(attempt, target, None, now, RateLimited);
        return Err(TooMany);
      }
      var completed := CompleteEmail(id, code, Recovery, ticket, now);
      if completed.Err? {
        RecordAttempt(attempt, target, None, now, InvalidProof);
        return Err(completed.error);
      }
      verified := verified - {ticket};
      if account.None? || account.value in fenced {
        RecordAttempt(attempt, target, None, now, InvalidProof);
        return Err(WrongProof);
      }
      if !codeValid {
        RecordAttempt(attempt, target, account, now, InvalidProof);
        return Err(WrongProof);
      }
      if !custodyValid {
        RecordAttempt(attempt, target, account, now, CustodyUnavailable);
        return Err(Unavailable);
      }
      RecordAttempt(attempt, target, account, now, Succeeded);
      return Ok(account.value);
    }

    /** The process starts again over the same store. */
    method StartAgain()
      modifies this
      ensures Value() == RestartStep(old(Value()))
    {
      emails, verified, proofs, mail := map[], map[], map[], map[];
    }

    /** Spend a ticket for the address it proved. */
    method TakeVerified(ticket: string, now: nat) returns (email: Option<string>)
      modifies this
      ensures var (st, outcome) := TakeStep(old(Value()), ticket, now);
              Value() == st && (email.Some? <==> outcome == Spent(ticket))
      ensures email.Some? ==> ticket in old(verified) && old(verified)[ticket].email == email.value
      ensures ticket !in verified
    {
      if ticket !in verified {
        return None;
      }
      var entry := verified[ticket];
      verified := verified - {ticket};
      return if entry.expiresAt > now then Some(entry.email) else None;
    }

    /** Put a proof on hold once an authenticator has verified its user. */
    method Issue(proof: string, account: string, operation: string, now: nat) returns (r: Result<string, Fault>)
      modifies this
      ensures Value() == IssueStep(old(Value()), proof, account, operation, now).0
      ensures r == if Blank(account) || Blank(operation) then Err(WrongProof)
                   else if |Sweep(old(Value()), now).proofs| >= PENDING_MAX then Err(Unavailable)
                   else Ok(proof)
      ensures r.Ok? ==> proof in proofs && proofs[proof] == Proof(Trim(account), Trim(operation), now + 300)
    {
      hide Sweep, Trim;
      if Trim(account) == "" || Trim(operation) == "" {
        return Err(WrongProof);
      }
      SweepExpired(now);
      if |proofs| >= PENDING_MAX {
        return Err(Unavailable);
      }
      proofs := proofs[proof := Proof(Trim(account), Trim(operation), now + PROOF_TTL)];
      return Ok(proof);
    }

    method Consume(proof: string, account: string, operation: string, now: nat) returns (valid: bool)
      modifies this
      ensures var (st, outcome) := ConsumeStep(old(Value()), proof, account, operation, now);
              Value() == st && (valid <==> outcome.Spent?)
      ensures valid <==> && proof in old(proofs) && now < old(proofs)[proof].expiresAt
                         && old(proofs)[proof].account == account && old(proofs)[proof].operation == operation
      ensures proofs == old(proofs) - {proof}
    {
      if proof !in proofs {
        return false;
      }
      var p := proofs[proof];
      proofs := proofs - {proof};
      return p.expiresAt > now && p.account == account && p.operation == operation;
    }

    method Invite(account: string, now: nat) returns (admitted: bool)
      modifies this
      ensures var (st, outcome) := MailStep(old(Value()), account, now);
              Value() == st && (admitted <==> outcome.Mailed?)
    {
      hide Sweep;
      SweepExpired(now);
      var sent := if account in mail then mail[account] else [];
      mail := mail[account := sent];
      if |sent| >= MAIL_LIMIT {
        return false;
      }
      mail := mail[account := sent + [now]];
      return true;
    }
  }
}
