/** Which emailed code mints a ticket, which is judged wrong, and which address a ticket
    proves, told from the run before. */
module CeremonyCodes {
  import opened Base
  import opened Text
  import opened AuthData
  import opened Ceremony
  import opened CeremonyAnswers

  // ---- a challenge ---------------------------------------------------------------------------------

  function EmailAt(st: Pending, id: string): Option<PendingEmail> {
    if id in st.emails then Some(st.emails[id]) else None
  }

  /** What a challenge was sent out with, and until when it may be answered. */
  datatype Challenge = Challenge(email: string, purpose: Purpose, code: string, until: nat)

  function ChallengeOf(p: PendingEmail): Challenge {
    Challenge(p.email, p.purpose, p.code, p.expiresAt)
  }

  /** The challenge is sent: an address, a delivery, and fewer than 512 unexpired ones. */
  ghost predicate Begins(st: Pending, t: Timed, id: string) {
    t.0.Begin? && t.0.id == id && t.0.email.Some? && t.0.delivered && |LiveEmails(st, t.1)| < 512
  }

  function SentOut(t: Timed): Challenge
    requires t.0.Begin? && t.0.email.Some?
  {
    Challenge(t.0.email.value, t.0.purpose, t.0.code, t.1 + 600)
  }

  /** What an action does to a pending challenge: nothing, one wrong guess, or its end. */
  datatype Fate = Kept | Guessed | Closed

  function Answered(c: Challenge, code: string): Fate {
    if Trim(code) == c.code then Closed else Guessed
  }

  ghost function FateOf(st: Pending, t: Timed, id: string, c: Challenge): Fate {
    match t.0
    case Restart => Closed
    case Complete(at, code, purpose, _) =>
      if at != id then Kept else if t.1 >= c.until || purpose != c.purpose then Closed else Answered(c, code)
    case Recover(at, code, _, _, _, _, _) =>
      if at != id || t.1 >= c.until || c.purpose != Recovery then Kept
      else if Limited(st.attempts, c.email, t.1) then Closed
      else Answered(c, code)
    case Begin(at, email, _, _, _) =>
      if email.Some? && (t.1 >= c.until || (at == id && |LiveEmails(st, t.1)| < 512)) then Closed else Kept
    case _ => if Sweeps(t.0) && t.1 >= c.until then Closed else Kept
  }

  function OneLess(p: PendingEmail): Option<PendingEmail> {
    if p.attemptsLeft <= 1 then None else Some(p.(attemptsLeft := p.attemptsLeft - 1))
  }

  ghost function EmailAfter(st: Pending, t: Timed, id: string): Option<PendingEmail> {
    if Begins(st, t, id) then Some(PendingEmail(t.0.email.value, t.0.purpose, t.0.code, 5, t.1 + 600))
    else if id !in st.emails then None
    else
      match FateOf(st, t, id, ChallengeOf(st.emails[id]))
      case Kept => Some(st.emails[id])
      case Guessed => OneLess(st.emails[id])
      case Closed => None
  }

  lemma EmailStep(st: Pending, t: Timed, id: string)
    ensures var (st', _) := Step(st, t.0, t.1); EmailAt(st', id) == EmailAfter(st, t, id)
  {
    hide Trim, Blank, BeginStep, CompleteStep, TakeStep, RecoverStep, IssueStep, ConsumeStep, MailStep, Sweep,
      LiveEmails, LiveProofs, Limited;
    SweptAt(st, t.1, id);
    match t.0 {
      case Begin(at, email, code, purpose, delivered) => BeginEmails(st, at, email, code, purpose, delivered, t.1);
      case Complete(at, code, purpose, ticket) => CompleteEmails(st, at, code, purpose, ticket, t.1, id);
      case TakeTicket(ticket) => TakeFrame(st, ticket, t.1);
      case Recover(at, code, ticket, _, _, _, _) => RecoverEmails(st, t.0, t.1, id);
      case IssueProof(issued, account, operation) => IssueIs(st, issued, account, operation, t.1);
      case ConsumeProof(presented, account, operation) => ConsumeIs(st, presented, account, operation, t.1);
      case InvitationMail(account) => MailFrame(st, account, t.1);
      case _ =>
    }
  }

  lemma BeginEmails(st: Pending, id: string, email: Option<string>, code: string, purpose: Purpose,
                    delivered: bool, now: nat)
    ensures var (st', _) := BeginStep(st, id, email, code, purpose, delivered, now);
            var swept := Sweep(st, now).emails;
            st'.emails == if email.None? then st.emails
                          else if |LiveEmails(st, now)| >= 512 then swept
                          else if delivered then swept[id := PendingEmail(email.value, purpose, code, 5, now + 600)]
                          else swept - {id}
  {
    hide Sweep, LiveEmails;
    SweepLeaves(st, now);
  }

  lemma CompleteEmails(st: Pending, at: string, code: string, purpose: Purpose, ticket: string, now: nat, id: string)
    ensures var (st', _) := CompleteStep(st, at, code, purpose, ticket, now);
            EmailAt(st', id) == if at == id then AfterCode(EmailAt(st, id), code, purpose, now) else EmailAt(st, id)
  {
    hide Trim;
    CompleteLeaves(st, at, code, purpose, ticket, now);
  }

  function AfterCode(p: Option<PendingEmail>, code: string, purpose: Purpose, now: nat): Option<PendingEmail> {
    if p.Some? && now < p.value.expiresAt && purpose == p.value.purpose && Trim(code) != p.value.code
    then OneLess(p.value) else None
  }

  lemma CompleteLeaves(st: Pending, id: string, code: string, purpose: Purpose, ticket: string, now: nat)
    ensures var (st', _) := CompleteStep(st, id, code, purpose, ticket, now);
            var after := AfterCode(EmailAt(st, id), code, purpose, now);
            st'.emails == if after.Some? then st.emails[id := after.value] else st.emails - {id}
  {
    hide Trim;
    if id !in st.emails {
      assert st.emails - {id} == st.emails;
    }
  }

  lemma RecoverEmails(st: Pending, a: Action, now: nat, id: string)
    requires a.Recover?
    ensures var (st', _) := RecoverStep(st, a, now); EmailAt(st', id) == EmailAfter(st, (a, now), id)
  {
    hide Trim, CompleteStep, Limited, LiveEmails;
    CompleteEmails(st, a.id, a.code, Recovery, a.ticket, now, id);
  }

  // ---- its history ---------------------------------------------------------------------------------

  ghost function FateAt(run: seq<Timed>, m: nat, id: string, c: Challenge): Fate
    requires m < |run|
  {
    FateOf(At(run, m), run[m], id, c)
  }

  /** The wrong guesses at a challenge after its place in the run. */
  ghost function Guesses(run: seq<Timed>, n: nat, id: string, c: Challenge): nat {
    if |run| <= n + 1 then 0
    else Guesses(run[..|run| - 1], n, id, c) + (if FateAt(run, |run| - 1, id, c) == Guessed then 1 else 0)
  }

  /** Sent at this place in the run, and neither answered, expired, given up, rate limited,
      sent anew nor lost since, nor guessed at five times. */
  ghost predicate Awaiting(run: seq<Timed>, n: nat, id: string) {
    && n < |run| && Begins(At(run, n), run[n], id)
    && (forall m | n < m < |run| :: FateAt(run, m, id, SentOut(run[n])) != Closed)
    && Guesses(run, n, id, SentOut(run[n])) < 5
  }

  ghost function Held(run: seq<Timed>, n: nat, id: string): PendingEmail
    requires Awaiting(run, n, id)
  {
    var c := SentOut(run[n]);
    PendingEmail(c.email, c.purpose, c.code, 5 - Guesses(run, n, id, c), c.until)
  }

  lemma AwaitingSnoc(run: seq<Timed>, n: nat, id: string)
    requires n < |run| - 1
    ensures var before, last := run[..|run| - 1], run[|run| - 1];
            (Awaiting(run, n, id)
             <==>
             && Awaiting(before, n, id)
             && (match FateOf(Exec(NothingPending, before), last, id, ChallengeOf(Held(before, n, id)))
                 case Kept => true
                 case Guessed => Held(before, n, id).attemptsLeft > 1
                 case Closed => false))
  {
    hide Exec, Begins, FateOf;
    var before := run[..|run| - 1];
    assert forall m | 0 <= m < |before| :: before[..m] == run[..m] && before[m] == run[m];
    assert forall m | 0 <= m < |before| :: At(before, m) == At(run, m);
    assert At(run, |run| - 1) == Exec(NothingPending, before);
    if Begins(At(run, n), run[n], id) {
      BeginsBegin(At(run, n), run[n], id);
      var c := SentOut(run[n]);
      assert forall m | n < m < |before| :: FateAt(before, m, id, c) == FateAt(run, m, id, c);
      if Awaiting(before, n, id) {
        assert ChallengeOf(Held(before, n, id)) == c;
      }
    }
  }

  lemma BeginsBegin(st: Pending, t: Timed, id: string)
    requires Begins(st, t, id)
    ensures t.0.Begin? && t.0.email.Some?
  {
  }

  lemma HeldSnoc(run: seq<Timed>, n: nat, id: string)
    requires n < |run| - 1 && Awaiting(run, n, id)
    ensures var before, last := run[..|run| - 1], run[|run| - 1];
            && Awaiting(before, n, id)
            && Some(Held(run, n, id))
               == if FateOf(Exec(NothingPending, before), last, id, ChallengeOf(Held(before, n, id))) == Guessed
                  then OneLess(Held(before, n, id)) else Some(Held(before, n, id))
  {
    hide Exec, Begins, FateOf;
    AwaitingSnoc(run, n, id);
    BeginsBegin(At(run, n), run[n], id);
    var before := run[..|run| - 1];
    assert At(run, |run| - 1) == Exec(NothingPending, before);
  }

  lemma AwaitingLast(run: seq<Timed>, id: string)
    requires run != []
    ensures var before, last := run[..|run| - 1], run[|run| - 1];
            && (Awaiting(run, |run| - 1, id) <==> Begins(Exec(NothingPending, before), last, id))
            && (Awaiting(run, |run| - 1, id) ==>
                  Held(run, |run| - 1, id)
                  == PendingEmail(last.0.email.value, last.0.purpose, last.0.code, 5, last.1 + 600))
  {
    hide Exec, LiveEmails, FateOf;
    assert At(run, |run| - 1) == Exec(NothingPending, run[..|run| - 1]);
  }

  /** What is pending under a challenge's name is what was last sent under it, with one
      attempt less for each wrong guess since. */
  lemma {:induction false} EmailHistory(run: seq<Timed>, id: string)
    ensures id in Exec(NothingPending, run).emails <==> exists n: nat :: Awaiting(run, n, id)
    ensures forall n: nat | Awaiting(run, n, id) :: EmailAt(Exec(NothingPending, run), id) == Some(Held(run, n, id))
    decreases |run|
  {
    hide Step, FateOf, Begins;
    if run == [] {
    } else {
      var before, last, k := run[..|run| - 1], run[|run| - 1], |run| - 1;
      var st := Exec(NothingPending, before);
      EmailHistory(before, id);
      EmailStep(st, last, id);
      AwaitingLast(run, id);
      forall n: nat | Awaiting(run, n, id)
        ensures EmailAt(Exec(NothingPending, run), id) == Some(Held(run, n, id))
      {
        if n < k {
          EarlierAwaits(run, n, id);
        }
      }
      if id in Exec(NothingPending, run).emails && !Begins(st, last, id) {
        var n: nat :| Awaiting(before, n, id);
        AwaitingSnoc(run, n, id);
        assert Awaiting(run, n, id);
      }
    }
  }

  lemma EarlierAwaits(run: seq<Timed>, n: nat, id: string)
    requires n < |run| - 1 && Awaiting(run, n, id)
    requires var before := run[..|run| - 1];
             Awaiting(before, n, id) ==> EmailAt(Exec(NothingPending, before), id) == Some(Held(before, n, id))
    ensures EmailAt(Exec(NothingPending, run), id) == Some(Held(run, n, id))
  {
    hide Step, FateOf, Begins, Held, LiveEmails;
    var before, last := run[..|run| - 1], run[|run| - 1];
    var st := Exec(NothingPending, before);
    AwaitingSnoc(run, n, id);
    HeldSnoc(run, n, id);
    EmailStep(st, last, id);
    SentAnewCloses(st, last, id, ChallengeOf(Held(before, n, id)));
  }

  lemma SentAnewCloses(st: Pending, t: Timed, id: string, c: Challenge)
    ensures Begins(st, t, id) ==> FateOf(st, t, id, c) == Closed
  {
  }

  // ---- answering it --------------------------------------------------------------------------------

  /** The challenge sent there is of this purpose and not yet 600 seconds old. */
  ghost predicate Fits(t: Timed, purpose: Purpose, now: nat) {
    t.0.Begin? && t.0.purpose == purpose && now < t.1 + 600
  }

  function TicketAt(st: Pending, ticket: string): Option<Ticket> {
    if ticket in st.verified then Some(st.verified[ticket]) else None
  }

  /** The address a challenge was sent to. */
  ghost function SentTo(run: seq<Timed>, n: nat): Option<string> {
    if n < |run| && run[n].0.Begin? then run[n].0.email else None
  }

  /** The code given is the one sent under this name, and in time. */
  ghost predicate RightCode(run: seq<Timed>, n: nat, id: string, code: string, purpose: Purpose, now: nat) {
    Awaiting(run, n, id) && Fits(run[n], purpose, now) && Trim(code) == run[n].0.code
  }

  ghost predicate WrongCode(run: seq<Timed>, n: nat, id: string, code: string, purpose: Purpose, now: nat) {
    Awaiting(run, n, id) && Fits(run[n], purpose, now) && Trim(code) != run[n].0.code
  }

  lemma CompleteIs(st: Pending, id: string, code: string, purpose: Purpose, ticket: string, now: nat)
    requires id in st.emails ==> st.emails[id].attemptsLeft > 0
    ensures var (st', o) := CompleteStep(st, id, code, purpose, ticket, now);
            var due := id in st.emails && now < st.emails[id].expiresAt && st.emails[id].purpose == purpose;
            && (o == Wrong(id) <==> due && Trim(code) != st.emails[id].code)
            && (o == Minted(id, ticket) <==> due && Trim(code) == st.emails[id].code && |st.verified| < 512)
            && (o in {Wrong(id), Minted(id, ticket), Other})
            && st'.verified == if o.Minted? then st.verified[ticket := Ticket(st.emails[id].email, now + 300)]
                               else st.verified
  {
    hide Trim;
  }

  lemma HeldIs(run: seq<Timed>, n: nat, id: string)
    requires Awaiting(run, n, id)
    ensures n < |run| && run[n].0.Begin? && run[n].0.email.Some?
    ensures Held(run, n, id).email == run[n].0.email.value && Held(run, n, id).code == run[n].0.code
    ensures Held(run, n, id).purpose == run[n].0.purpose && Held(run, n, id).expiresAt == run[n].1 + 600
    ensures Held(run, n, id).attemptsLeft > 0
  {
    hide Exec, FateOf, Guesses;
  }

  /** A code mints a ticket exactly if it is the one sent under that challenge's name, which
      is still awaited, for the same purpose, fewer than 600 seconds ago, with room for a
      ticket; the ticket carries the address it was sent to. It is judged wrong exactly if
      only the code differs. */
  lemma CodeIsJudged(run: seq<Timed>, id: string, code: string, purpose: Purpose, ticket: string, now: nat)
    ensures var st := Exec(NothingPending, run);
            var (st', o) := Step(st, Complete(id, code, purpose, ticket), now);
            && (o == Minted(id, ticket)
                <==> |st.verified| < 512 && exists n: nat :: RightCode(run, n, id, code, purpose, now))
            && (o == Wrong(id) <==> exists n: nat :: WrongCode(run, n, id, code, purpose, now))
            && (o in {Wrong(id), Minted(id, ticket), Other})
            && (o.Minted? ==> forall n: nat | RightCode(run, n, id, code, purpose, now) ::
                  SentTo(run, n).Some? && TicketAt(st', ticket) == Some(Ticket(SentTo(run, n).value, now + 300)))
  {
    hide Exec, CompleteStep, Guesses, FateOf, Begins, Trim, Awaiting, Held;
    var st := Exec(NothingPending, run);
    EmailHistory(run, id);
    forall n: nat | Awaiting(run, n, id)
      ensures n < |run| && run[n].0.Begin? && run[n].0.email.Some?
      ensures id in st.emails && st.emails[id].attemptsLeft > 0
      ensures st.emails[id].email == run[n].0.email.value && st.emails[id].code == run[n].0.code
      ensures st.emails[id].purpose == run[n].0.purpose && st.emails[id].expiresAt == run[n].1 + 600
    {
      HeldIs(run, n, id);
    }
    CompleteIs(st, id, code, purpose, ticket, now);
    if n: nat :| Awaiting(run, n, id) {
      assert RightCode(run, n, id, code, purpose, now)
          <==> st.emails[id].purpose == purpose && now < st.emails[id].expiresAt && Trim(code) == st.emails[id].code;
      assert WrongCode(run, n, id, code, purpose, now)
          <==> st.emails[id].purpose == purpose && now < st.emails[id].expiresAt && Trim(code) != st.emails[id].code;
    }
  }

  // ---- tickets -------------------------------------------------------------------------------------

  ghost predicate MintsTicket(st: Pending, t: Timed, ticket: string) {
    t.0.Complete? && t.0.ticket == ticket && Step(st, t.0, t.1).1.Minted?
  }

  ghost predicate EndsTicket(st: Pending, t: Timed, ticket: string, until: nat) {
    t.0.Restart? || t.0 == TakeTicket(ticket) || (Sweeps(t.0) && t.1 >= until)
    || (t.0.Recover? && t.0.ticket == ticket && Step(st, t.0, t.1).1.Minted?)
  }

  ghost function TicketAfter(st: Pending, t: Timed, ticket: string): Option<Ticket> {
    var was := TicketAt(st, ticket);
    if MintsTicket(st, t, ticket) then TicketFrom(st, t.0.id, t.1)
    else if was.Some? && EndsTicket(st, t, ticket, was.value.expiresAt) then None
    else was
  }

  ghost function TicketFrom(st: Pending, id: string, now: nat): Option<Ticket> {
    if id in st.emails then Some(Ticket(st.emails[id].email, now + 300)) else None
  }

  lemma CompleteMints(st: Pending, id: string, code: string, purpose: Purpose, ticket: string, now: nat)
    ensures var (st', o) := CompleteStep(st, id, code, purpose, ticket, now);
            && (o.Minted? ==> id in st.emails && st'.verified == st.verified[ticket := TicketFrom(st, id, now).value])
            && (!o.Minted? ==> st'.verified == st.verified)
  {
    hide Trim, TicketFrom;
    if id in st.emails {
      TicketIs(st, id, now);
    }
  }

  lemma TicketIs(st: Pending, id: string, now: nat)
    requires id in st.emails
    ensures TicketFrom(st, id, now) == Some(Ticket(st.emails[id].email, now + 300))
  {
  }

  lemma RecoverTickets(st: Pending, a: Action, now: nat, ticket: string)
    requires a.Recover?
    ensures var (st', o) := RecoverStep(st, a, now);
            TicketAt(st', ticket) == if a.ticket == ticket && o.Minted? then None else TicketAt(st, ticket)
  {
    hide Judged, CompleteStep;
    CompleteMints(st, a.id, a.code, Recovery, a.ticket, now);
  }

  lemma TicketStep(st: Pending, t: Timed, ticket: string)
    ensures var (st', _) := Step(st, t.0, t.1); TicketAt(st', ticket) == TicketAfter(st, t, ticket)
  {
    hide Trim, Blank, BeginStep, CompleteStep, TakeStep, RecoverStep, IssueStep, ConsumeStep, MailStep, Sweep,
      LiveProofs;
    SweptAt(st, t.1, ticket);
    match t.0 {
      case Begin(id, email, code, purpose, delivered) => BeginFrame(st, id, email, code, purpose, delivered, t.1);
      case Complete(id, code, purpose, minted) => CompleteMints(st, id, code, purpose, minted, t.1);
      case TakeTicket(taken) => TakeFrame(st, taken, t.1);
      case Recover(_, _, _, _, _, _, _) => RecoverTickets(st, t.0, t.1, ticket);
      case IssueProof(issued, account, operation) => IssueIs(st, issued, account, operation, t.1);
      case ConsumeProof(presented, account, operation) => ConsumeIs(st, presented, account, operation, t.1);
      case InvitationMail(account) => MailFrame(st, account, t.1);
      case _ =>
    }
  }

  /** Minted at this place in the run, and neither taken, swept, lost nor minted anew
      since. */
  ghost predicate Unspent(run: seq<Timed>, m: nat, ticket: string) {
    && m < |run| && MintsTicket(At(run, m), run[m], ticket)
    && forall k | m < k < |run| ::
         !EndsTicket(At(run, k), run[k], ticket, run[m].1 + 300) && !MintsTicket(At(run, k), run[k], ticket)
  }

  lemma UnspentSnoc(run: seq<Timed>, m: nat, ticket: string)
    requires m < |run| - 1
    ensures var before, last := run[..|run| - 1], run[|run| - 1];
            Unspent(run, m, ticket)
            <==>
            && Unspent(before, m, ticket)
            && !EndsTicket(Exec(NothingPending, before), last, ticket, run[m].1 + 300)
            && !MintsTicket(Exec(NothingPending, before), last, ticket)
  {
    hide Exec, EndsTicket, MintsTicket;
    var before := run[..|run| - 1];
    assert forall k | 0 <= k < |before| :: before[..k] == run[..k] && before[k] == run[k];
    assert forall k | 0 <= k < |before| :: At(before, k) == At(run, k);
    assert At(run, |run| - 1) == Exec(NothingPending, before);
  }

  ghost function TicketMinted(run: seq<Timed>, m: nat): Option<Ticket>
    requires m < |run|
  {
    if run[m].0.Complete? then TicketFrom(At(run, m), run[m].0.id, run[m].1) else None
  }

  lemma MintedTicket(st: Pending, t: Timed, ticket: string)
    requires MintsTicket(st, t, ticket)
    ensures t.0.Complete? && TicketFrom(st, t.0.id, t.1).Some?
    ensures TicketFrom(st, t.0.id, t.1).value.expiresAt == t.1 + 300
  {
    hide CompleteStep;
    CompleteMints(st, t.0.id, t.0.code, t.0.purpose, t.0.ticket, t.1);
  }

  lemma {:induction false} TicketHistory(run: seq<Timed>, ticket: string)
    ensures ticket in Exec(NothingPending, run).verified <==> exists m: nat :: Unspent(run, m, ticket)
    ensures forall m: nat | Unspent(run, m, ticket) ::
              TicketAt(Exec(NothingPending, run), ticket) == TicketMinted(run, m)
    decreases |run|
  {
    hide Step, EndsTicket, MintsTicket, TicketFrom;
    if run == [] {
    } else {
      var before, last, k := run[..|run| - 1], run[|run| - 1], |run| - 1;
      var st := Exec(NothingPending, before);
      TicketHistory(before, ticket);
      TicketStep(st, last, ticket);
      assert At(run, k) == st;
      assert Unspent(run, k, ticket) <==> MintsTicket(st, last, ticket);
      forall m: nat | Unspent(run, m, ticket)
        ensures TicketAt(Exec(NothingPending, run), ticket) == TicketMinted(run, m) && TicketMinted(run, m).Some?
      {
        MintedTicket(At(run, m), run[m], ticket);
        if m < k {
          EarlierTicket(run, m, ticket);
        }
      }
      if ticket in Exec(NothingPending, run).verified && !MintsTicket(st, last, ticket) {
        var m: nat :| Unspent(before, m, ticket);
        StillUnspent(run, m, ticket);
      }
    }
  }

  lemma EarlierTicket(run: seq<Timed>, m: nat, ticket: string)
    requires m < |run| - 1 && Unspent(run, m, ticket)
    requires var before := run[..|run| - 1];
             Unspent(before, m, ticket) ==>
               TicketAt(Exec(NothingPending, before), ticket) == TicketMinted(before, m)
    ensures TicketAt(Exec(NothingPending, run), ticket) == TicketMinted(run, m)
  {
    hide Step, EndsTicket, MintsTicket, TicketFrom;
    var before, last := run[..|run| - 1], run[|run| - 1];
    UnspentSnoc(run, m, ticket);
    TicketStep(Exec(NothingPending, before), last, ticket);
    assert before[..m] == run[..m];
    MintedTicket(At(before, m), before[m], ticket);
  }

  lemma StillUnspent(run: seq<Timed>, m: nat, ticket: string)
    requires m < |run| - 1 && Unspent(run[..|run| - 1], m, ticket)
    requires var before, last := run[..|run| - 1], run[|run| - 1];
             && TicketAt(Exec(NothingPending, before), ticket) == TicketMinted(before, m)
             && !MintsTicket(Exec(NothingPending, before), last, ticket)
             && ticket in Exec(NothingPending, run).verified
    ensures Unspent(run, m, ticket)
  {
    hide Step, EndsTicket, MintsTicket, TicketFrom;
    var before, last := run[..|run| - 1], run[|run| - 1];
    UnspentSnoc(run, m, ticket);
    TicketStep(Exec(NothingPending, before), last, ticket);
    MintedTicket(At(before, m), before[m], ticket);
  }

  /** The address was proved: a challenge sent to it was answered with its code, minting
      this ticket, which nobody has taken. */
  ghost predicate Proved(run: seq<Timed>, n: nat, m: nat, ticket: string, email: string) {
    && Unspent(run, m, ticket) && run[m].0.Complete? && SentTo(run[..m], n) == Some(email)
    && RightCode(run[..m], n, run[m].0.id, run[m].0.code, run[m].0.purpose, run[m].1)
  }

  /** The address a ticket is taken for. */
  function TakenFor(st: Pending, ticket: string, now: nat): Option<string> {
    if Step(st, TakeTicket(ticket), now).1 == Spent(ticket) && ticket in st.verified
    then Some(st.verified[ticket].email) else None
  }

  /** Taking a ticket gives an address exactly if a code sent to that address was answered
      in time under that ticket's name fewer than 300 seconds before, and the ticket has not
      been taken, swept or lost since. */
  lemma TicketProvesAddress(run: seq<Timed>, ticket: string, now: nat, email: string)
    ensures TakenFor(Exec(NothingPending, run), ticket, now) == Some(email)
            <==> exists n: nat, m: nat :: Proved(run, n, m, ticket, email) && now < run[m].1 + 300
    ensures TicketAt(Step(Exec(NothingPending, run), TakeTicket(ticket), now).0, ticket).None?
  {
    hide Exec, EndsTicket, MintsTicket, TicketFrom, Awaiting, RightCode, SentTo, CompleteStep;
    var st := Exec(NothingPending, run);
    TicketHistory(run, ticket);
    forall m: nat | Unspent(run, m, ticket)
      ensures run[m].0.Complete? && TicketMinted(run, m).Some?
      ensures TicketMinted(run, m).value.expiresAt == run[m].1 + 300
      ensures TicketMinted(run, m).value.email == email <==> exists n: nat :: Proved(run, n, m, ticket, email)
    {
      MintedTicket(At(run, m), run[m], ticket);
      ProvedExactly(run, m, ticket, email);
    }
    if TakenFor(st, ticket, now) == Some(email) {
      var m: nat :| Unspent(run, m, ticket);
      assert TicketMinted(run, m).value.email == email;
      var n: nat :| Proved(run, n, m, ticket, email);
    }
    if n: nat, m: nat :| Proved(run, n, m, ticket, email) && now < run[m].1 + 300 {
      assert TicketMinted(run, m).value.email == email;
    }
  }

  lemma ProvedExactly(run: seq<Timed>, m: nat, ticket: string, email: string)
    requires Unspent(run, m, ticket) && run[m].0.Complete? && TicketMinted(run, m).Some?
    ensures TicketMinted(run, m).value.email == email <==> exists n: nat :: Proved(run, n, m, ticket, email)
  {
    hide Exec, EndsTicket, TicketFrom, Awaiting, RightCode, SentTo, CompleteStep;
    var st, a, now := At(run, m), run[m].0, run[m].1;
    CodeIsJudged(run[..m], a.id, a.code, a.purpose, a.ticket, now);
    CompleteMints(st, a.id, a.code, a.purpose, a.ticket, now);
    assert Step(st, a, now).1 == Minted(a.id, a.ticket);
    var n: nat :| RightCode(run[..m], n, a.id, a.code, a.purpose, now);
    assert Proved(run, n, m, ticket, TicketMinted(run, m).value.email);
  }

  // ---- recovery ------------------------------------------------------------------------------------

  /** A recovery challenge of this name is awaited and in time. */
  ghost predicate RecoveryDue(run: seq<Timed>, n: nat, id: string, now: nat) {
    Awaiting(run, n, id) && Fits(run[n], Recovery, now)
  }

  /** The attempt a recovery puts on record, given whether the emailed code was right. */
  ghost predicate Verdict(st: Pending, a: Action, target: string, right: bool, now: nat, r: AttemptRecord)
    requires a.Recover?
  {
    var limited := |InvalidSince(st.attempts, target, Since(now))| >= 5;
    var known := a.whose.Some? && a.whose.value !in st.fenced;
    var told := !limited && right && |st.verified| < 512 && known;
    && r.id == a.attempt && r.op == Upsert && r.target == target && r.attemptedAt == now
    && r.account == (if told then a.whose else None)
    && (r.outcome == RateLimited <==> limited)
    && (r.outcome == Succeeded <==> told && a.codeValid && a.custodyValid)
    && (r.outcome == CustodyUnavailable <==> told && a.codeValid && !a.custodyValid)
  }

  lemma VerdictOf(st: Pending, a: Action, now: nat)
    requires a.Recover? && (a.id in st.emails ==> st.emails[a.id].attemptsLeft > 0)
    ensures var due := a.id in st.emails && st.emails[a.id].purpose == Recovery && now < st.emails[a.id].expiresAt;
            && (Judged(st, a, now).Some? <==> due)
            && (due ==> Verdict(st, a, st.emails[a.id].email, Trim(a.code) == st.emails[a.id].code, now,
                                Judged(st, a, now).value))
  {
    hide Trim, CompleteStep, InvalidSince, Since;
    CompleteIs(st, a.id, a.code, Recovery, a.ticket, now);
  }

  /** A recovery is judged exactly if a recovery challenge is awaited under its name and in
      time, and puts one attempt on record for the address that was sent to: rate limited
      after five invalid ones in the last 900 seconds, else good exactly if the emailed
      code, the account, the recovery code and the custody of its root all are. */
  lemma RecoveryIsJudged(run: seq<Timed>, a: Action, now: nat)
    requires a.Recover?
    ensures var st := Exec(NothingPending, run);
            var judged := Judged(st, a, now);
            && (judged.Some? <==> exists n: nat :: RecoveryDue(run, n, a.id, now))
            && (Step(st, a, now).0.attempts
                == if judged.Some? then st.attempts[a.attempt := judged.value] else st.attempts)
            && forall n: nat | RecoveryDue(run, n, a.id, now) ::
                 && judged.Some? && SentTo(run, n).Some?
                 && var right := RightCode(run, n, a.id, a.code, Recovery, now);
                    Verdict(st, a, SentTo(run, n).value, right, now, judged.value)
  {
    hide Exec, CompleteStep, Judged, Verdict, Guesses, FateOf, Begins, Trim, Awaiting, Held;
    var st := Exec(NothingPending, run);
    EmailHistory(run, a.id);
    forall n: nat | Awaiting(run, n, a.id)
      ensures n < |run| && run[n].0.Begin? && run[n].0.email.Some?
      ensures a.id in st.emails && st.emails[a.id].attemptsLeft > 0
      ensures st.emails[a.id].email == run[n].0.email.value && st.emails[a.id].code == run[n].0.code
      ensures st.emails[a.id].purpose == run[n].0.purpose && st.emails[a.id].expiresAt == run[n].1 + 600
    {
      HeldIs(run, n, a.id);
    }
    VerdictOf(st, a, now);
    if Judged(st, a, now).Some? {
      var n: nat :| Awaiting(run, n, a.id);
      assert RecoveryDue(run, n, a.id, now);
    }
    VerdictId(st, a, now);
    CompleteFrame(st, a.id, a.code, Recovery, a.ticket, now);
  }

  lemma VerdictId(st: Pending, a: Action, now: nat)
    requires a.Recover?
    ensures Judged(st, a, now).Some? ==> Judged(st, a, now).value.id == a.attempt
  {
    hide CompleteStep, Limited;
  }
}
