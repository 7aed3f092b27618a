/** Recovery attempts: how many invalid proofs for one address are judged in a span of time.
    They are counted in the account projection, which a fence takes its account's out of. */
module RecoveryLimit {
  import opened Base
  import opened Text
  import opened AuthData
  import opened Ceremony

  // ---- what is made and what is counted ---------------------------------------------------------

  /** An invalid proof for one address between two times, both included. */
  predicate Counts(r: AttemptRecord, target: string, lo: nat, hi: nat) {
    r.target == target && lo <= r.attemptedAt <= hi && r.outcome == InvalidProof
  }

  /** Those the projection holds. */
  function Counted(attempts: map<string, AttemptRecord>, target: string, lo: nat, hi: nat): set<string> {
    set i | i in attempts && Counts(attempts[i], target, lo, hi)
  }

  predicate Makes(st: Pending, t: Timed, target: string, lo: nat, hi: nat) {
    t.0.Recover? && Judged(st, t.0, t.1).Some? && Counts(Judged(st, t.0, t.1).value, target, lo, hi)
  }

  /** Those made in a run, whether or not the projection still holds them. */
  function Made(run: seq<Timed>, target: string, lo: nat, hi: nat): nat {
    if run == [] then 0
    else
      var before := run[..|run| - 1];
      Made(before, target, lo, hi)
      + (if Makes(Exec(NothingPending, before), run[|run| - 1], target, lo, hi) then 1 else 0)
  }

  /** A fence of an account that some of them, still held, were charged to. */
  predicate Drops(st: Pending, t: Timed, target: string, lo: nat, hi: nat) {
    t.0.Fence? && exists i | i in Counted(st.attempts, target, lo, hi) :: st.attempts[i].account == Some(t.0.account)
  }

  function Dropped(run: seq<Timed>, target: string, lo: nat, hi: nat): nat {
    if run == [] then 0
    else
      var before := run[..|run| - 1];
      Dropped(before, target, lo, hi)
      + (if Drops(Exec(NothingPending, before), run[|run| - 1], target, lo, hi) then 1 else 0)
  }

  /** No two attempts are recorded under one id, as their random tokens make sure. */
  ghost predicate FreshIds(run: seq<Timed>) {
    forall i, j | 0 <= i < j < |run| :: run[i].0.Recover? && run[j].0.Recover? ==> run[i].0.attempt != run[j].0.attempt
  }

  predicate Uses(run: seq<Timed>, id: string) {
    exists t | t in run :: t.0.Recover? && t.0.attempt == id
  }

  // ---- one action ---------------------------------------------------------------------------------

  lemma CompleteAttempts(st: Pending, id: string, code: string, purpose: Purpose, ticket: string, now: nat)
    ensures CompleteStep(st, id, code, purpose, ticket, now).0.attempts == st.attempts
  {
    hide Trim;
  }

  lemma RecoverAttempts(st: Pending, a: Action, now: nat)
    requires a.Recover?
    ensures RecoverStep(st, a, now).0.attempts
         == if Judged(st, a, now).Some? then st.attempts[a.attempt := Judged(st, a, now).value] else st.attempts
  {
    hide Limited, CompleteStep;
  }

  lemma AttemptsAfter(st: Pending, a: Action, now: nat)
    ensures Step(st, a, now).0.attempts
         == if a.Recover? && Judged(st, a, now).Some? then st.attempts[a.attempt := Judged(st, a, now).value]
            else if a.Fence? then AttemptsOf(st.attempts, a.account, false)
            else st.attempts
  {
    hide Judged, Trim, Blank, Sweep, Sent, AttemptsOf, CompleteStep, RecoverStep, TakeStep, IssueStep, ConsumeStep;
    match a {
      case Complete(id, code, purpose, ticket) => CompleteAttempts(st, id, code, purpose, ticket, now);
      case Recover(_, _, _, _, _, _, _) => RecoverAttempts(st, a, now);
      case TakeTicket(_) => SpendAttempts(st, a, now);
      case IssueProof(_, _, _) => SpendAttempts(st, a, now);
      case ConsumeProof(_, _, _) => SpendAttempts(st, a, now);
      case _ => SweepAttempts(st, now);
    }
  }

  lemma SpendAttempts(st: Pending, a: Action, now: nat)
    requires a.TakeTicket? || a.IssueProof? || a.ConsumeProof?
    ensures Step(st, a, now).0.attempts == st.attempts
  {
    hide Recent, Trim;
  }

  lemma SweepAttempts(st: Pending, now: nat)
    ensures Sweep(st, now).attempts == st.attempts
  {
    hide Recent;
  }

  /** The attempts are the account projection's: recording one is folding its fact in, and a
      fence is that account's removal from it. */
  lemma AttemptsAreProjected(s: AccountAuth, st: Pending, r: AttemptRecord, account: string)
    requires s.attempts == st.attempts && r.op == Upsert
    ensures Apply(s, Attempt(r)).attempts == st.attempts[r.id := r]
    ensures Remove(s, account).attempts == FenceStep(st, account).attempts
  {
  }

  /** An invalid proof is only judged while fewer than five are counted. */
  lemma JudgedWhileFew(st: Pending, a: Action, now: nat, target: string, lo: nat, hi: nat)
    requires Makes(st, (a, now), target, lo, hi) && hi <= lo + RECOVERY_WINDOW
    ensures |Counted(st.attempts, target, lo, hi)| < RECOVERY_LIMIT
  {
    hide CompleteStep;
    assert Counted(st.attempts, target, lo, hi) <= InvalidSince(st.attempts, target, Since(now));
    Smaller(Counted(st.attempts, target, lo, hi), InvalidSince(st.attempts, target, Since(now)));
  }

  lemma Smaller(a: set<string>, b: set<string>)
    requires a <= b
    ensures |a| <= |b|
  {
    assert b == a + (b - a);
  }

  // ---- the limit ------------------------------------------------------------------------------------

  /** What a run has come to: which ids are on record, how many are counted, and how many were
      made. */
  ghost predicate Kept(run: seq<Timed>, target: string, lo: nat, hi: nat) {
    var attempts := Exec(NothingPending, run).attempts;
    && (forall i | i in attempts :: Uses(run, i))
    && |Counted(attempts, target, lo, hi)| <= RECOVERY_LIMIT
    && Made(run, target, lo, hi)
       <= |Counted(attempts, target, lo, hi)| + RECOVERY_LIMIT * Dropped(run, target, lo, hi)
  }

  lemma KeptSnoc(before: seq<Timed>, t: Timed, target: string, lo: nat, hi: nat)
    requires Kept(before, target, lo, hi) && FreshIds(before + [t]) && hi <= lo + RECOVERY_WINDOW
    ensures Kept(before + [t], target, lo, hi)
  {
    hide Step, Exec, Judged, Counts;
    var run, st := before + [t], Exec(NothingPending, before);
    assert run[..|before|] == before;
    ExecSnoc(before, t);
    AttemptsAfter(st, t.0, t.1);
    UsesSnoc(before, t);
    if t.0.Recover? && Judged(st, t.0, t.1).Some? {
      assert t.0.attempt !in st.attempts;
      CountedMore(st.attempts, t.0.attempt, Judged(st, t.0, t.1).value, target, lo, hi);
      if Makes(st, t, target, lo, hi) {
        JudgedWhileFew(st, t.0, t.1, target, lo, hi);
      }
    } else if t.0.Fence? {
      CountedFewer(st, t, target, lo, hi);
    }
  }

  lemma ExecSnoc(run: seq<Timed>, t: Timed)
    ensures Exec(NothingPending, run + [t]) == Step(Exec(NothingPending, run), t.0, t.1).0
  {
    hide Step;
    assert (run + [t])[..|run|] == run;
  }

  lemma UsesSnoc(before: seq<Timed>, t: Timed)
    ensures forall i | Uses(before, i) :: Uses(before + [t], i)
    ensures t.0.Recover? ==> Uses(before + [t], t.0.attempt)
    ensures FreshIds(before + [t]) && t.0.Recover? ==> !Uses(before, t.0.attempt)
  {
    var run := before + [t];
    assert t in run && run[|before|] == t;
    assert forall u | u in before :: u in run;
    if FreshIds(run) && t.0.Recover? {
      forall u | u in before && u.0.Recover?
        ensures u.0.attempt != t.0.attempt
      {
        var i :| 0 <= i < |before| && before[i] == u;
        assert run[i] == u;
      }
    }
  }

  lemma CountedMore(attempts: map<string, AttemptRecord>, id: string, r: AttemptRecord, target: string, lo: nat,
                    hi: nat)
    requires id !in attempts
    ensures |Counted(attempts[id := r], target, lo, hi)|
         == |Counted(attempts, target, lo, hi)| + (if Counts(r, target, lo, hi) then 1 else 0)
  {
    hide Counts;
    var more := Counted(attempts[id := r], target, lo, hi);
    if Counts(r, target, lo, hi) {
      assert more == Counted(attempts, target, lo, hi) + {id};
    } else {
      assert more == Counted(attempts, target, lo, hi);
    }
  }

  lemma CountedFewer(st: Pending, t: Timed, target: string, lo: nat, hi: nat)
    requires t.0.Fence?
    ensures var fewer := Counted(AttemptsOf(st.attempts, t.0.account, false), target, lo, hi);
            && fewer <= Counted(st.attempts, target, lo, hi)
            && |fewer| <= |Counted(st.attempts, target, lo, hi)|
            && (!Drops(st, t, target, lo, hi) ==> fewer == Counted(st.attempts, target, lo, hi))
  {
    hide Counts;
    Smaller(Counted(AttemptsOf(st.attempts, t.0.account, false), target, lo, hi), Counted(st.attempts, target, lo, hi));
  }

  lemma NothingKept(target: string, lo: nat, hi: nat)
    ensures Kept([], target, lo, hi)
  {
    var none: map<string, AttemptRecord> := map[];
    assert Counted(none, target, lo, hi) == {};
  }

  lemma {:induction false} KeptByAll(run: seq<Timed>, target: string, lo: nat, hi: nat)
    requires FreshIds(run) && hi <= lo + RECOVERY_WINDOW
    ensures Kept(run, target, lo, hi)
    decreases |run|
  {
    hide Kept;
    if run == [] {
      NothingKept(target, lo, hi);
    } else {
      var before := run[..|run| - 1];
      KeptByAll(before, target, lo, hi);
      assert run == before + [run[|run| - 1]];
      KeptSnoc(before, run[|run| - 1], target, lo, hi);
    }
  }

  /** Any quarter of an hour, both ends included, however the clock runs and whatever
      restarts, holds at most five invalid recovery proofs for one address, and five more for
      each fence of an account that some of them were charged to. */
  lemma RecoveryIsLimited(run: seq<Timed>, target: string, lo: nat, hi: nat)
    requires FreshIds(run) && hi <= lo + 900
    ensures Made(run, target, lo, hi) <= 5 * (Dropped(run, target, lo, hi) + 1)
  {
    hide FreshIds, Exec, Made, Dropped, Counted;
    KeptByAll(run, target, lo, hi);
  }

  // ---- and no less ------------------------------------------------------------------------------------

  /** A name for each number. */
  function Name(n: nat): string {
    seq(n, _ => 'x')
  }

  /** A moment with nothing pending. */
  function Idle(attempts: map<string, AttemptRecord>, fenced: set<string>): Pending {
    NothingPending.(attempts := attempts, fenced := fenced)
  }

  function Challenge(target: string, at: nat): Timed {
    (Begin("", Some(target), "", Recovery, true), at)
  }

  /** Its emailed code, right, with a recovery code that is not the account's. */
  function WrongCode(id: string, whose: Option<string>, at: nat): Timed {
    (Recover("", "", "", id, whose, false, false), at)
  }

  /** A challenge and then a wrong recovery code, where fewer than five are counted. */
  lemma OneAttempt(attempts: map<string, AttemptRecord>, fenced: set<string>, target: string, id: string,
                   whose: Option<string>, at: nat)
    requires !Limited(attempts, target, at) && (whose.Some? ==> whose.value !in fenced)
    ensures var begun := Step(Idle(attempts, fenced), Challenge(target, at).0, at).0;
            var r := AttemptRecord(id, Upsert, target, whose, at, InvalidProof);
            && Judged(begun, WrongCode(id, whose, at).0, at) == Some(r)
            && Step(begun, WrongCode(id, whose, at).0, at).0 == Idle(attempts[id := r], fenced)
  {
    hide Limited, CompleteStep;
    var st := Idle(attempts, fenced);
    var pending := PendingEmail(target, Recovery, "", EMAIL_ATTEMPTS, at + EMAIL_TTL);
    var begun := st.(emails := map["" := pending]);
    Begun(attempts, fenced, target, at);
    CodeIsRight(begun, pending, at);
  }

  lemma Begun(attempts: map<string, AttemptRecord>, fenced: set<string>, target: string, at: nat)
    ensures Step(Idle(attempts, fenced), Challenge(target, at).0, at).0
         == Idle(attempts, fenced).(emails := map["" := PendingEmail(target, Recovery, "", EMAIL_ATTEMPTS,
                                                                     at + EMAIL_TTL)])
  {
    hide Sweep;
    SweepsNothing(attempts, fenced, at);
  }

  lemma SweepsNothing(attempts: map<string, AttemptRecord>, fenced: set<string>, now: nat)
    ensures Sweep(Idle(attempts, fenced), now) == Idle(attempts, fenced)
  {
  }

  lemma CodeIsRight(st: Pending, pending: PendingEmail, at: nat)
    requires st.emails == map["" := pending] && st.verified == map[]
    requires pending.purpose == Recovery && pending.code == "" && pending.attemptsLeft > 0 && pending.expiresAt > at
    ensures var (st', o) := CompleteStep(st, "", "", Recovery, "", at);
            && o == Minted("", "")
            && st'.(verified := st'.verified - {""}) == st.(emails := map[])
  {
    assert Trim("") == "";
    assert st.emails - {""} == map[];
    var t := Ticket(pending.email, at + CEREMONY_TTL);
    assert st.verified["" := t] - {""} == map[];
  }

  /** All the attempts of a run so far have names of smaller numbers. */
  predicate Below(run: seq<Timed>, n: nat) {
    forall t | t in run && t.0.Recover? :: |t.0.attempt| < n
  }

  /** A run that ended with nothing pending, so many made and so many dropped. */
  ghost predicate Reaches(run: seq<Timed>, target: string, at: nat, hi: nat, used: nat,
                          attempts: map<string, AttemptRecord>, fenced: set<string>, made: nat, dropped: nat)
  {
    && Exec(NothingPending, run) == Idle(attempts, fenced)
    && FreshIds(run) && Below(run, used)
    && Made(run, target, at, hi) == made && Dropped(run, target, at, hi) == dropped
  }

  lemma RunSnoc(run: seq<Timed>, t: Timed, target: string, lo: nat, hi: nat)
    ensures var st := Exec(NothingPending, run);
            && Exec(NothingPending, run + [t]) == Step(st, t.0, t.1).0
            && Made(run + [t], target, lo, hi)
               == Made(run, target, lo, hi) + (if Makes(st, t, target, lo, hi) then 1 else 0)
            && Dropped(run + [t], target, lo, hi)
               == Dropped(run, target, lo, hi) + (if Drops(st, t, target, lo, hi) then 1 else 0)
  {
    hide Step, Makes, Drops;
    assert (run + [t])[..|run|] == run;
  }

  lemma FreshSnoc(run: seq<Timed>, t: Timed, used: nat)
    requires FreshIds(run) && Below(run, used)
    ensures !t.0.Recover? ==> FreshIds(run + [t]) && Below(run + [t], used)
    ensures t.0.Recover? && |t.0.attempt| == used ==> FreshIds(run + [t]) && Below(run + [t], used + 1)
  {
    var more := run + [t];
    forall i | 0 <= i < |run| && run[i].0.Recover?
      ensures |run[i].0.attempt| < used
    {
      assert run[i] in run;
    }
  }

  /** One more attempt made at a time where fewer than five are counted. */
  lemma AttemptMade(run: seq<Timed>, target: string, lo: nat, at: nat, hi: nat, used: nat,
                    attempts: map<string, AttemptRecord>, fenced: set<string>, made: nat, dropped: nat,
                    whose: Option<string>) returns (more: seq<Timed>)
    requires Reaches(run, target, lo, hi, used, attempts, fenced, made, dropped) && lo <= at <= hi
    requires !Limited(attempts, target, at) && (whose.Some? ==> whose.value !in fenced)
    ensures var r := AttemptRecord(Name(used), Upsert, target, whose, at, InvalidProof);
            Reaches(more, target, lo, hi, used + 1, attempts[Name(used) := r], fenced, made + 1, dropped)
  {
    hide Step, Limited, Exec, Made, Dropped, FreshIds, Below, Judged;
    var begin, tried := Challenge(target, at), WrongCode(Name(used), whose, at);
    OneAttempt(attempts, fenced, target, Name(used), whose, at);
    RunSnoc(run, begin, target, lo, hi);
    FreshSnoc(run, begin, used);
    var begun := run + [begin];
    RunSnoc(begun, tried, target, lo, hi);
    FreshSnoc(begun, tried, used);
    more := begun + [tried];
  }

  /** Up to five made at one time. */
  function Filled(target: string, whose: Option<string>, at: nat, first: nat, n: nat): map<string, AttemptRecord> {
    if n == 0 then map[]
    else Filled(target, whose, at, first, n - 1)
         [Name(first + n - 1) := AttemptRecord(Name(first + n - 1), Upsert, target, whose, at, InvalidProof)]
  }

  lemma {:induction false} FilledCounts(target: string, whose: Option<string>, at: nat, first: nat, n: nat,
                                        lo: nat, hi: nat)
    ensures forall i | i in Filled(target, whose, at, first, n) ::
              |i| < first + n && Filled(target, whose, at, first, n)[i].account == whose
    ensures |Counted(Filled(target, whose, at, first, n), target, lo, hi)| == if lo <= at <= hi then n else 0
    ensures |InvalidSince(Filled(target, whose, at, first, n), target, lo)| == if lo <= at then n else 0
  {
    var all := Filled(target, whose, at, first, n);
    if n == 0 {
      assert Counted(all, target, lo, hi) == {} && InvalidSince(all, target, lo) == {};
    } else {
      FilledCounts(target, whose, at, first, n - 1, lo, hi);
      var before, id := Filled(target, whose, at, first, n - 1), Name(first + n - 1);
      assert id !in before;
      CountedMore(before, id, all[id], target, lo, hi);
      assert InvalidSince(all, target, lo) == InvalidSince(before, target, lo) + (if lo <= at then {id} else {});
    }
  }

  lemma {:induction false} Burst(run: seq<Timed>, target: string, at: nat, hi: nat, used: nat, fenced: set<string>,
                                 made: nat, dropped: nat, whose: Option<string>, n: nat) returns (more: seq<Timed>)
    requires Reaches(run, target, at, hi, used, map[], fenced, made, dropped) && at <= hi && n <= RECOVERY_LIMIT
    requires whose.Some? ==> whose.value !in fenced
    ensures Reaches(more, target, at, hi, used + n, Filled(target, whose, at, used, n), fenced, made + n, dropped)
    decreases n
  {
    hide Reaches;
    if n == 0 {
      more := run;
    } else {
      more := Burst(run, target, at, hi, used, fenced, made, dropped, whose, n - 1);
      FilledCounts(target, whose, at, used, n - 1, Since(at), at);
      more := AttemptMade(more, target, at, at, hi, used + (n - 1), Filled(target, whose, at, used, n - 1), fenced,
                          made + (n - 1), dropped, whose);
    }
  }

  /** The accounts fenced so far. */
  function Fenced(n: nat): set<string> {
    set i | 0 <= i < n :: Name(i)
  }

  /** Five charged to an account, then its fence. */
  lemma FenceMade(run: seq<Timed>, target: string, at: nat, hi: nat, used: nat, n: nat, made: nat, dropped: nat)
    returns (more: seq<Timed>)
    requires Reaches(run, target, at, hi, used, map[], Fenced(n), made, dropped) && at <= hi
    ensures Reaches(more, target, at, hi, used + RECOVERY_LIMIT, map[], Fenced(n + 1), made + RECOVERY_LIMIT,
                    dropped + 1)
  {
    hide Step, Exec, Made, Dropped, FreshIds, Below, Filled;
    forall i | 0 <= i < n
      ensures Name(i) != Name(n)
    {
      assert |Name(i)| == i;
    }
    more := Burst(run, target, at, hi, used, Fenced(n), made, dropped, Some(Name(n)), RECOVERY_LIMIT);
    var filled := Filled(target, Some(Name(n)), at, used, RECOVERY_LIMIT);
    FilledCounts(target, Some(Name(n)), at, used, RECOVERY_LIMIT, at, hi);
    var st, t := Idle(filled, Fenced(n)), (Fence(Name(n)), at);
    FencesAll(filled, Fenced(n), Name(n), at);
    SomeCounted(filled, target, at, hi);
    RunSnoc(more, t, target, at, hi);
    FreshSnoc(more, t, used + RECOVERY_LIMIT);
    assert Fenced(n) + {Name(n)} == Fenced(n + 1);
    more := more + [t];
  }

  lemma FencesAll(attempts: map<string, AttemptRecord>, fenced: set<string>, account: string, at: nat)
    requires forall i | i in attempts :: attempts[i].account == Some(account)
    ensures Step(Idle(attempts, fenced), Fence(account), at).0 == Idle(map[], fenced + {account})
  {
  }

  lemma SomeCounted(attempts: map<string, AttemptRecord>, target: string, lo: nat, hi: nat)
    requires |Counted(attempts, target, lo, hi)| > 0
    ensures exists i :: i in Counted(attempts, target, lo, hi)
  {
  }

  lemma {:induction false} FencesMade(target: string, at: nat, hi: nat, n: nat) returns (run: seq<Timed>)
    requires at <= hi
    ensures Reaches(run, target, at, hi, RECOVERY_LIMIT * n, map[], Fenced(n), RECOVERY_LIMIT * n, n)
    decreases n
  {
    hide Reaches, Fenced;
    if n == 0 {
      run := [];
      NothingMade(target, at, hi);
    } else {
      run := FencesMade(target, at, hi, n - 1);
      run := FenceMade(run, target, at, hi, RECOVERY_LIMIT * (n - 1), n - 1, RECOVERY_LIMIT * (n - 1), n - 1);
    }
  }

  lemma NothingMade(target: string, at: nat, hi: nat)
    ensures Reaches([], target, at, hi, 0, map[], Fenced(0), 0, 0)
  {
    assert Fenced(0) == {};
  }

  /** A run of one second in which any number of fences each let five more be made. */
  lemma FencesAreTight(target: string, at: nat, hi: nat, fences: nat) returns (run: seq<Timed>)
    requires at <= hi
    ensures FreshIds(run) && Dropped(run, target, at, hi) == fences
    ensures Made(run, target, at, hi) == 5 * (fences + 1)
  {
    hide Exec, Made, Dropped, FreshIds, Below, Filled, Fenced;
    run := FencesMade(target, at, hi, fences);
    run := Burst(run, target, at, hi, RECOVERY_LIMIT * fences, Fenced(fences), RECOVERY_LIMIT * fences, fences, None,
                 RECOVERY_LIMIT);
  }

  /** And one more when the last of them is just out of the window. */
  lemma LaterIsMore(target: string, lo: nat, hi: nat, fences: nat) returns (run: seq<Timed>)
    requires lo + 900 < hi
    ensures FreshIds(run) && Dropped(run, target, lo, hi) == fences
    ensures Made(run, target, lo, hi) == 5 * (fences + 1) + 1
  {
    hide Exec, Made, Dropped, FreshIds, Below, Filled, Fenced;
    run := FencesMade(target, lo, hi, fences);
    run := Burst(run, target, lo, hi, RECOVERY_LIMIT * fences, Fenced(fences), RECOVERY_LIMIT * fences, fences, None,
                 RECOVERY_LIMIT);
    var later := lo + RECOVERY_WINDOW + 1;
    FilledCounts(target, None, lo, RECOVERY_LIMIT * fences, RECOVERY_LIMIT, Since(later), later);
    run := AttemptMade(run, target, lo, later, hi, RECOVERY_LIMIT * fences + RECOVERY_LIMIT,
                       Filled(target, None, lo, RECOVERY_LIMIT * fences, RECOVERY_LIMIT), Fenced(fences),
                       RECOVERY_LIMIT * fences + RECOVERY_LIMIT, fences, None);
  }

  /** Wherever a span of time starts and however many fences take counted attempts out in the
      run: every run makes at most five invalid proofs for an address in it, and five more
      for each of those fences, just if the span is no longer than a quarter of an hour. */
  lemma RecoverySpan(target: string, lo: nat, span: nat, fences: nat)
    ensures (forall run | FreshIds(run) && Dropped(run, target, lo, lo + span) <= fences ::
               Made(run, target, lo, lo + span) <= 5 * (fences + 1))
       <==> span <= 900
  {
    hide FreshIds, Made, Dropped;
    if span <= RECOVERY_WINDOW {
      forall run | FreshIds(run) && Dropped(run, target, lo, lo + span) <= fences
        ensures Made(run, target, lo, lo + span) <= RECOVERY_LIMIT * (fences + 1)
      {
        RecoveryIsLimited(run, target, lo, lo + span);
      }
    } else {
      var run := LaterIsMore(target, lo, lo + span, fences);
    }
  }

  /** One fence breaks the limit of five: ten are made in one second, five charged to an
      account that is then fenced and five to none. */
  lemma FenceIsMore(target: string, at: nat) returns (run: seq<Timed>)
    ensures FreshIds(run) && Dropped(run, target, at, at) == 1 && Made(run, target, at, at) == 10
  {
    hide FreshIds, Made, Dropped;
    run := FencesAreTight(target, at, at, 1);
  }
}
