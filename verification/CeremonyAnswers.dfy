/** What a presented code, ticket or proof is answered, told from the run before it: who
    asked for what, when, and what has happened since. */
module CeremonyAnswers {
  import opened Base
  import opened Text
  import opened Ceremony

  /** The actions that drop what has expired. */
  predicate Sweeps(a: Action) {
    match a
    case Begin(_, email, _, _, _) => email.Some?
    case IssueProof(_, account, operation) => !Blank(account) && !Blank(operation)
    case InvitationMail(_) => true
    case _ => false
  }

  ghost function LiveEmails(st: Pending, now: nat): set<string> {
    set i | i in st.emails && st.emails[i].expiresAt > now
  }

  ghost function LiveProofs(st: Pending, now: nat): set<string> {
    set i | i in st.proofs && st.proofs[i].expiresAt > now
  }

  lemma SweepLeaves(st: Pending, now: nat)
    ensures |Sweep(st, now).emails| == |LiveEmails(st, now)| && |Sweep(st, now).proofs| == |LiveProofs(st, now)|
  {
    hide Recent;
    var swept := Sweep(st, now);
    assert swept.emails.Keys == LiveEmails(st, now) && swept.proofs.Keys == LiveProofs(st, now);
    assert |swept.emails| == |swept.emails.Keys| && |swept.proofs| == |swept.proofs.Keys|;
  }

  ghost function At(run: seq<Timed>, n: nat): Pending
    requires n <= |run|
  {
    Exec(NothingPending, run[..n])
  }

  // ---- proofs --------------------------------------------------------------------------------------

  function ProofAt(st: Pending, proof: string): Option<Proof> {
    if proof in st.proofs then Some(st.proofs[proof]) else None
  }

  /** The action puts this proof on hold: names given and fewer than 512 unexpired ones. */
  ghost predicate Issues(st: Pending, t: Timed, proof: string) {
    t.0.IssueProof? && t.0.proof == proof && !Blank(t.0.account) && !Blank(t.0.operation)
    && |LiveProofs(st, t.1)| < 512
  }

  ghost predicate EndsProof(t: Timed, proof: string, expiresAt: nat) {
    t.0.Restart? || (t.0.ConsumeProof? && t.0.proof == proof) || (Sweeps(t.0) && t.1 >= expiresAt)
  }

  function ProofIssued(t: Timed): Option<Proof> {
    if t.0.IssueProof? then Some(Proof(Trim(t.0.account), Trim(t.0.operation), t.1 + 300)) else None
  }

  ghost function ProofAfter(st: Pending, t: Timed, proof: string): Option<Proof> {
    var was := ProofAt(st, proof);
    if Issues(st, t, proof) then ProofIssued(t)
    else if was.Some? && EndsProof(t, proof, was.value.expiresAt) then None
    else was
  }

  lemma ProofStep(st: Pending, t: Timed, proof: string)
    ensures var (st', _) := Step(st, t.0, t.1); ProofAt(st', proof) == ProofAfter(st, t, proof)
  {
    hide Trim, Blank, BeginStep, CompleteStep, TakeStep, RecoverStep, IssueStep, ConsumeStep, MailStep, Sweep,
      LiveProofs;
    SweptAt(st, t.1, proof);
    match t.0 {
      case Begin(id, email, code, purpose, delivered) => BeginFrame(st, id, email, code, purpose, delivered, t.1);
      case Complete(id, code, purpose, ticket) => CompleteFrame(st, id, code, purpose, ticket, t.1);
      case TakeTicket(ticket) => TakeFrame(st, ticket, t.1);
      case Recover(id, code, ticket, _, _, _, _) => RecoverFrame(st, t.0, t.1);
      case IssueProof(issued, account, operation) => IssueIs(st, issued, account, operation, t.1);
      case ConsumeProof(presented, account, operation) => ConsumeIs(st, presented, account, operation, t.1);
      case InvitationMail(account) => MailFrame(st, account, t.1);
      case _ =>
    }
  }

  lemma BeginFrame(st: Pending, id: string, email: Option<string>, code: string, purpose: Purpose,
                   delivered: bool, now: nat)
    ensures var (st', _) := BeginStep(st, id, email, code, purpose, delivered, now);
            var from := if email.Some? then Sweep(st, now) else st;
            st'.verified == from.verified && st'.proofs == from.proofs
  {
    hide Sweep;
  }

  lemma TakeFrame(st: Pending, ticket: string, now: nat)
    ensures var (st', _) := TakeStep(st, ticket, now);
            st'.emails == st.emails && st'.proofs == st.proofs && st'.verified == st.verified - {ticket}
  {
  }

  lemma IssueIs(st: Pending, proof: string, account: string, operation: string, now: nat)
    ensures var (st', _) := IssueStep(st, proof, account, operation, now);
            var from := if Blank(account) || Blank(operation) then st else Sweep(st, now);
            && st'.emails == from.emails && st'.verified == from.verified
            && st'.proofs == if Issues(st, (IssueProof(proof, account, operation), now), proof)
                             then from.proofs[proof := Proof(Trim(account), Trim(operation), now + 300)]
                             else from.proofs
  {
    hide Sweep, Trim, Blank, LiveProofs;
    SweepLeaves(st, now);
  }

  lemma ConsumeIs(st: Pending, proof: string, account: string, operation: string, now: nat)
    ensures var (st', _) := ConsumeStep(st, proof, account, operation, now);
            st'.emails == st.emails && st'.verified == st.verified && st'.proofs == st.proofs - {proof}
  {
  }

  lemma MailFrame(st: Pending, account: string, now: nat)
    ensures var (st', _) := MailStep(st, account, now);
            var swept := Sweep(st, now);
            st'.emails == swept.emails && st'.verified == swept.verified && st'.proofs == swept.proofs
  {
    hide Sweep;
  }

  lemma RecoverFrame(st: Pending, a: Action, now: nat)
    requires a.Recover?
    ensures var (st', _) := RecoverStep(st, a, now);
            st'.proofs == st.proofs && st'.mail == st.mail && st'.fenced == st.fenced
  {
    hide Judged, CompleteStep;
    CompleteFrame(st, a.id, a.code, Recovery, a.ticket, now);
  }

  /** What sweeping leaves under one name. */
  lemma SweptAt(st: Pending, now: nat, name: string)
    ensures var swept := Sweep(st, now);
            && (name in swept.emails <==> name in st.emails && st.emails[name].expiresAt > now)
            && (name in swept.emails ==> swept.emails[name] == st.emails[name])
            && (name in swept.verified <==> name in st.verified && st.verified[name].expiresAt > now)
            && (name in swept.verified ==> swept.verified[name] == st.verified[name])
            && (name in swept.proofs <==> name in st.proofs && st.proofs[name].expiresAt > now)
            && (name in swept.proofs ==> swept.proofs[name] == st.proofs[name])
  {
    hide Recent;
  }

  lemma CompleteFrame(st: Pending, id: string, code: string, purpose: Purpose, ticket: string, now: nat)
    ensures var (st', _) := CompleteStep(st, id, code, purpose, ticket, now);
            st'.proofs == st.proofs && st'.mail == st.mail && st'.attempts == st.attempts && st'.fenced == st.fenced
  {
    hide Trim;
  }

  /** Issued at this place in the run, and neither presented, swept, lost nor issued anew
      since. */
  ghost predicate Outstanding(run: seq<Timed>, n: nat, proof: string) {
    && n < |run| && Issues(At(run, n), run[n], proof)
    && forall m | n < m < |run| ::
         !EndsProof(run[m], proof, run[n].1 + 300) && !Issues(At(run, m), run[m], proof)
  }

  lemma OutstandingSnoc(run: seq<Timed>, n: nat, proof: string)
    requires n < |run| - 1
    ensures var before := run[..|run| - 1];
            Outstanding(run, n, proof)
            <==>
            && Outstanding(before, n, proof)
            && !EndsProof(run[|run| - 1], proof, run[n].1 + 300)
            && !Issues(Exec(NothingPending, before), run[|run| - 1], proof)
  {
    hide Exec, Issues, EndsProof;
    var before := run[..|run| - 1];
    assert forall m | 0 <= m < |before| :: before[..m] == run[..m] && before[m] == run[m];
    assert forall m | 0 <= m < |before| :: At(before, m) == At(run, m);
    assert At(run, |run| - 1) == Exec(NothingPending, before);
  }

  /** What is held under a proof's name is what was last issued under it. */
  lemma {:induction false} ProofHistory(run: seq<Timed>, proof: string)
    ensures proof in Exec(NothingPending, run).proofs <==> exists n: nat :: Outstanding(run, n, proof)
    ensures forall n: nat | Outstanding(run, n, proof) ::
              ProofAt(Exec(NothingPending, run), proof) == ProofIssued(run[n])
    decreases |run|
  {
    hide Step, EndsProof, Issues, ProofIssued;
    if run == [] {
    } else {
      var before, last, k := run[..|run| - 1], run[|run| - 1], |run| - 1;
      var st := Exec(NothingPending, before);
      ProofHistory(before, proof);
      ProofStep(st, last, proof);
      assert At(run, k) == st;
      assert Outstanding(run, k, proof) <==> Issues(st, last, proof);
      forall n: nat | Outstanding(run, n, proof)
        ensures ProofAt(Exec(NothingPending, run), proof) == ProofIssued(run[n]) && ProofIssued(run[n]).Some?
      {
        IssuesIssue(At(run, n), run[n], proof);
        if n < k {
          EarlierProof(run, n, proof);
        }
      }
      if proof in Exec(NothingPending, run).proofs && !Issues(st, last, proof) {
        var n: nat :| Outstanding(before, n, proof);
        StillOutstanding(run, n, proof);
      }
    }
  }

  lemma EarlierProof(run: seq<Timed>, n: nat, proof: string)
    requires n < |run| - 1 && Outstanding(run, n, proof)
    requires var before := run[..|run| - 1];
             Outstanding(before, n, proof) ==> ProofAt(Exec(NothingPending, before), proof) == ProofIssued(before[n])
    ensures ProofAt(Exec(NothingPending, run), proof) == ProofIssued(run[n])
  {
    hide Step, EndsProof, Issues, Trim;
    var before, last := run[..|run| - 1], run[|run| - 1];
    OutstandingSnoc(run, n, proof);
    ProofStep(Exec(NothingPending, before), last, proof);
    IssuesIssue(At(before, n), before[n], proof);
  }

  lemma StillOutstanding(run: seq<Timed>, n: nat, proof: string)
    requires n < |run| - 1 && Outstanding(run[..|run| - 1], n, proof)
    requires var before, last := run[..|run| - 1], run[|run| - 1];
             && ProofAt(Exec(NothingPending, before), proof) == ProofIssued(before[n])
             && !Issues(Exec(NothingPending, before), last, proof)
             && proof in Exec(NothingPending, run).proofs
    ensures Outstanding(run, n, proof)
  {
    hide Step, EndsProof, Issues, Trim;
    var before, last := run[..|run| - 1], run[|run| - 1];
    OutstandingSnoc(run, n, proof);
    ProofStep(Exec(NothingPending, before), last, proof);
    IssuesIssue(At(before, n), before[n], proof);
  }

  /** A presented proof is good exactly if it was issued for that account and operation
      fewer than 300 seconds before, and since then nobody has presented it, the process has
      not restarted, no action has swept at a time past its expiry and it was not issued
      anew. */
  lemma ProofIsGood(run: seq<Timed>, proof: string, account: string, operation: string, now: nat)
    ensures Step(Exec(NothingPending, run), ConsumeProof(proof, account, operation), now).1 == Spent(proof)
            <==> exists n: nat :: Outstanding(run, n, proof) && now < run[n].1 + 300
                                  && IssuedFor(run[n], account, operation)
    ensures ProofAt(Step(Exec(NothingPending, run), ConsumeProof(proof, account, operation), now).0, proof).None?
  {
    hide Exec, Trim, Issues, EndsProof;
    var st := Exec(NothingPending, run);
    ProofHistory(run, proof);
    forall n: nat | Outstanding(run, n, proof)
      ensures run[n].0.IssueProof?
    {
      IssuesIssue(At(run, n), run[n], proof);
    }
    if n: nat :| Outstanding(run, n, proof) {
      assert ProofAt(st, proof) == ProofIssued(run[n]);
    }
  }

  /** The proof was issued for these, names trimmed. */
  predicate IssuedFor(t: Timed, account: string, operation: string) {
    t.0.IssueProof? && Trim(t.0.account) == account && Trim(t.0.operation) == operation
  }

  lemma IssuesIssue(st: Pending, t: Timed, proof: string)
    requires Issues(st, t, proof)
    ensures t.0.IssueProof? && ProofIssued(t).Some? && ProofIssued(t).value.expiresAt == t.1 + 300
  {
  }

  /** With a clock that does not step back no sweep comes early, so a proof issued under
      given names is good for 300 seconds unless presented, lost or issued anew. */
  lemma ProofLasts(run: seq<Timed>, n: nat, proof: string, now: nat)
    requires Monotone(run) && n < |run| && Issues(At(run, n), run[n], proof)
    requires (forall m | n < m < |run| :: run[m].1 <= now) && now < run[n].1 + 300
    ensures var t := run[n].0;
            Step(Exec(NothingPending, run), ConsumeProof(proof, Trim(t.account), Trim(t.operation)), now).1
            == Spent(proof)
            <== forall m | n < m < |run| ::
                  !run[m].0.Restart? && !(run[m].0.ConsumeProof? && run[m].0.proof == proof)
                  && !(run[m].0.IssueProof? && run[m].0.proof == proof)
  {
    hide Exec, Step, Trim, Blank, LiveProofs;
    ProofIsGood(run, proof, Trim(run[n].0.account), Trim(run[n].0.operation), now);
    if forall m | n < m < |run| ::
         !run[m].0.Restart? && !(run[m].0.ConsumeProof? && run[m].0.proof == proof)
         && !(run[m].0.IssueProof? && run[m].0.proof == proof) {
      assert Outstanding(run, n, proof);
    }
  }
}
