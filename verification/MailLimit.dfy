/** Invitation emails: how many of one account's are admitted in a span of time. The times
    are counted in memory, so a restart forgets them. */
module MailLimit {
  import opened Text
  import opened Ceremony

  // ---- when emails were admitted ----------------------------------------------------------------

  /** The time an action admitted an email of the account's, if it did. */
  function MailedAt(st: Pending, t: Timed, account: string): seq<nat> {
    var o := Step(st, t.0, t.1).1;
    if o.Mailed? && o.account == account then [o.at] else []
  }

  /** When one account's invitation emails were admitted. */
  function MailTimes(run: seq<Timed>, account: string): seq<nat> {
    if run == [] then []
    else
      var before := run[..|run| - 1];
      MailTimes(before, account) + MailedAt(Exec(NothingPending, before), run[|run| - 1], account)
  }

  /** Those since the last restart. */
  function Lately(run: seq<Timed>, account: string): seq<nat> {
    if run == [] || run[|run| - 1].0.Restart? then []
    else
      var before := run[..|run| - 1];
      Lately(before, account) + MailedAt(Exec(NothingPending, before), run[|run| - 1], account)
  }

  /** The restarts of a run between two times, both included. */
  function Restarts(run: seq<Timed>, lo: nat, hi: nat): nat {
    if run == [] then 0
    else
      var last := run[|run| - 1];
      Restarts(run[..|run| - 1], lo, hi) + (if last.0.Restart? && lo <= last.1 <= hi then 1 else 0)
  }

  /** How many of the times are between two, both included. */
  function Between(times: seq<nat>, lo: nat, hi: nat): nat {
    if times == [] then 0
    else Between(times[..|times| - 1], lo, hi) + (if lo <= times[|times| - 1] <= hi then 1 else 0)
  }

  /** The account's invitation emails admitted in a run between two times, both included. */
  function MailedFrom(run: seq<Timed>, account: string, lo: nat, hi: nat): nat {
    Between(MailTimes(run, account), lo, hi)
  }

  ghost function Clock(run: seq<Timed>): nat {
    if run == [] then 0 else run[|run| - 1].1
  }

  lemma BetweenSnoc(times: seq<nat>, at: nat, lo: nat, hi: nat)
    ensures Between(times + [at], lo, hi) == Between(times, lo, hi) + (if lo <= at <= hi then 1 else 0)
  {
    assert (times + [at])[..|times|] == times;
  }

  // ---- what is remembered -------------------------------------------------------------------------

  lemma {:induction false} RecentTwice(sent: seq<nat>, n: nat, later: nat)
    requires n <= later
    ensures Recent(Recent(sent, n), later) == Recent(sent, later)
    decreases |sent|
  {
    if sent != [] {
      RecentTwice(sent[..|sent| - 1], n, later);
      if sent[|sent| - 1] + MAIL_WINDOW > n {
        RecentSnoc(Recent(sent[..|sent| - 1], n), sent[|sent| - 1], later);
      } else {
        assert Recent(sent, n) == Recent(sent[..|sent| - 1], n);
      }
    }
  }

  lemma RecentSnoc(sent: seq<nat>, at: nat, now: nat)
    ensures Recent(sent + [at], now) == Recent(sent, now) + (if at + MAIL_WINDOW > now then [at] else [])
  {
    assert (sent + [at])[..|sent|] == sent;
  }

  lemma {:induction false} BetweenIsRecent(times: seq<nat>, lo: nat, hi: nat, now: nat)
    requires now < lo + MAIL_WINDOW
    ensures Between(times, lo, hi) <= |Recent(times, now)|
    decreases |times|
  {
    if times != [] {
      BetweenIsRecent(times[..|times| - 1], lo, hi, now);
    }
  }

  /** What is remembered of an account's emails is, from here on, as good as all of them. */
  ghost predicate Remembers(st: Pending, times: seq<nat>, account: string, now: nat) {
    forall later | later >= now :: Recent(Sent(st, account), later) == Recent(times, later)
  }

  lemma SweptSent(st: Pending, account: string, now: nat)
    ensures Sent(Sweep(st, now), account) == Recent(Sent(st, account), now)
  {
  }

  lemma CompleteMail(st: Pending, id: string, code: string, purpose: Purpose, ticket: string, now: nat)
    ensures var (st', o) := CompleteStep(st, id, code, purpose, ticket, now); st'.mail == st.mail && !o.Mailed?
  {
    hide Trim;
  }

  /** What one action does to the times remembered for one account. */
  lemma SentAfter(st: Pending, a: Action, now: nat, account: string)
    requires !a.Restart?
    ensures var (st', o) := Step(st, a, now);
            var swept := Sent(Sweep(st, now), account);
            if o.Mailed? && o.account == account then
              o.at == now && |swept| < MAIL_LIMIT && Sent(st', account) == swept + [now]
            else Sent(st', account) == Sent(st, account) || Sent(st', account) == swept
  {
    hide Recent, Judged, Trim, Sweep, CompleteStep;
    match a {
      case Complete(id, code, purpose, ticket) => CompleteMail(st, id, code, purpose, ticket, now);
      case Recover(id, code, ticket, _, _, _, _) => CompleteMail(st, id, code, Recovery, ticket, now);
      case _ =>
    }
  }

  lemma MailStepRemembers(st: Pending, a: Action, now: nat, times: seq<nat>, account: string, was: nat)
    requires Remembers(st, times, account, was) && was <= now && !a.Restart?
    ensures var sent := MailedAt(st, (a, now), account);
            && (sent == [] || (sent == [now] && |Recent(times, now)| < MAIL_LIMIT))
            && Remembers(Step(st, a, now).0, times + sent, account, now)
  {
    hide Recent, Step, Sweep, Sent;
    SentAfter(st, a, now, account);
    SweptSent(st, account, now);
    var swept := Sent(Sweep(st, now), account);
    forall later | later >= now
      ensures Recent(swept, later) == Recent(times, later)
      ensures Recent(swept + [now], later) == Recent(times + [now], later)
    {
      RecentTwice(Sent(st, account), now, later);
      RecentSnoc(swept, now, later);
      RecentSnoc(times, now, later);
    }
    assert swept == Recent(times, now);
    assert times + [] == times;
  }

  lemma Forgotten(st: Pending, account: string, now: nat)
    ensures Remembers(RestartStep(st), [], account, now) && Remembers(NothingPending, [], account, now)
  {
  }

  lemma RestartMails(st: Pending, now: nat, account: string)
    ensures MailedAt(st, (Restart, now), account) == []
  {
  }

  // ---- the limit ------------------------------------------------------------------------------------

  /** What a run has come to: what is remembered of its last process, how many of those are
      in the span, and how many of all. */
  ghost predicate Kept(run: seq<Timed>, account: string, lo: nat, hi: nat) {
    var lately := Between(Lately(run, account), lo, hi);
    && Remembers(Exec(NothingPending, run), Lately(run, account), account, Clock(run))
    && lately <= MAIL_LIMIT
    && MailedFrom(run, account, lo, hi) <= MAIL_LIMIT * (Restarts(run, lo, hi) + 1)
    && (Clock(run) <= hi ==> MailedFrom(run, account, lo, hi) <= MAIL_LIMIT * Restarts(run, lo, hi) + lately)
    && (Clock(run) < lo ==> MailedFrom(run, account, lo, hi) == 0)
  }

  lemma KeptByRestart(before: seq<Timed>, now: nat, account: string, lo: nat, hi: nat)
    requires Kept(before, account, lo, hi) && Clock(before) <= now && lo <= hi
    ensures Kept(before + [(Restart, now)], account, lo, hi)
  {
    hide Recent, Remembers, Exec;
    var run := before + [(Restart, now)];
    assert run[..|before|] == before;
    var st := Exec(NothingPending, before);
    RunSnoc(NothingPending, before, (Restart, now));
    RestartMails(st, now, account);
    assert MailTimes(before, account) + [] == MailTimes(before, account);
    Forgotten(st, account, now);
  }

  lemma KeptByOther(before: seq<Timed>, t: Timed, account: string, lo: nat, hi: nat)
    requires Kept(before, account, lo, hi) && Clock(before) <= t.1 && lo <= hi < lo + MAIL_WINDOW && !t.0.Restart?
    ensures Kept(before + [t], account, lo, hi)
  {
    hide Recent, Remembers, Exec, Step, MailTimes, Lately, Restarts, Between, MailedAt;
    var st, lately := Exec(NothingPending, before), Lately(before, account);
    RunSnoc(NothingPending, before, t);
    MailSnoc(before, t, account, lo, hi);
    LatelySnoc(before, t, account);
    MailStepRemembers(st, t.0, t.1, lately, account, Clock(before));
    assert lately + [] == lately && MailTimes(before, account) + [] == MailTimes(before, account);
    BetweenSnoc(lately, t.1, lo, hi);
    BetweenSnoc(MailTimes(before, account), t.1, lo, hi);
    if lo <= t.1 <= hi {
      BetweenIsRecent(lately, lo, hi, t.1);
    }
  }

  lemma LatelySnoc(run: seq<Timed>, t: Timed, account: string)
    ensures Lately(run + [t], account)
         == if t.0.Restart? then [] else Lately(run, account) + MailedAt(Exec(NothingPending, run), t, account)
  {
    hide MailedAt, Exec;
    assert (run + [t])[..|run|] == run;
  }

  lemma NothingKept(account: string, lo: nat, hi: nat)
    ensures Kept([], account, lo, hi)
  {
    Forgotten(NothingPending, account, 0);
  }

  lemma {:induction false} KeptByAll(run: seq<Timed>, account: string, lo: nat, hi: nat)
    requires Monotone(run) && lo <= hi < lo + MAIL_WINDOW
    ensures Kept(run, account, lo, hi)
    decreases |run|
  {
    hide Kept, Step;
    if run == [] {
      NothingKept(account, lo, hi);
    } else {
      var before, last := run[..|run| - 1], run[|run| - 1];
      KeptByAll(before, account, lo, hi);
      assert Clock(before) <= last.1;
      assert run == before + [last];
      if last.0.Restart? {
        assert last == (Restart, last.1);
        KeptByRestart(before, last.1, account, lo, hi);
      } else {
        KeptByOther(before, last, account, lo, hi);
      }
    }
  }

  /** A span shorter than a day, both its ends included, holds at most twenty of an account's
      invitation emails for each process that ran in it. */
  lemma MailIsLimited(run: seq<Timed>, account: string, lo: nat, hi: nat)
    requires Monotone(run) && lo <= hi < lo + 86400
    ensures MailedFrom(run, account, lo, hi) <= 20 * (Restarts(run, lo, hi) + 1)
  {
    hide Monotone, MailTimes, Restarts, Lately, Exec;
    KeptByAll(run, account, lo, hi);
  }

  /** How many of the times are less than a day before a moment. */
  function InLastDay(times: seq<nat>, now: nat): nat {
    if times == [] then 0
    else InLastDay(times[..|times| - 1], now) + (if now < times[|times| - 1] + 86400 then 1 else 0)
  }

  lemma {:induction false} LastDayIsRecent(times: seq<nat>, now: nat)
    ensures |Recent(times, now)| == InLastDay(times, now)
    decreases |times|
  {
    if times != [] {
      LastDayIsRecent(times[..|times| - 1], now);
    }
  }

  lemma MailStepAdmits(st: Pending, account: string, now: nat)
    ensures Step(st, InvitationMail(account), now).1
         == if |Recent(Sent(st, account), now)| < 20 then Mailed(account, now) else Other
  {
    hide Recent;
    SweptSent(st, account, now);
  }

  /** An invitation email is admitted exactly if fewer than twenty of the account's were in
      the last day, since the process started. */
  lemma MailIsAdmitted(run: seq<Timed>, account: string, now: nat)
    requires Monotone(run) && Clock(run) <= now
    ensures Step(Exec(NothingPending, run), InvitationMail(account), now).1
         == if InLastDay(Lately(run, account), now) < 20 then Mailed(account, now) else Other
  {
    hide Monotone, MailTimes, Restarts, Lately, Exec, Step, Recent, InLastDay;
    KeptByAll(run, account, 0, 0);
    MailStepAdmits(Exec(NothingPending, run), account, now);
    LastDayIsRecent(Lately(run, account), now);
  }

  // ---- and no less -----------------------------------------------------------------------------------

  function Many(account: string, at: nat, n: nat): seq<Timed> {
    seq(n, _ => (InvitationMail(account), at))
  }

  function Times(at: nat, n: nat): seq<nat> {
    seq(n, _ => at)
  }

  lemma MailAt(st: Pending, account: string, now: nat)
    requires |Recent(Sent(st, account), now)| < MAIL_LIMIT
    ensures Step(st, InvitationMail(account), now).1 == Mailed(account, now)
    ensures Sent(Step(st, InvitationMail(account), now).0, account) == Recent(Sent(st, account), now) + [now]
  {
    hide Recent;
    SweptSent(st, account, now);
  }

  lemma RunSnoc(st: Pending, run: seq<Timed>, t: Timed)
    ensures Exec(st, run + [t]) == Step(Exec(st, run), t.0, t.1).0
  {
    hide Step;
    assert (run + [t])[..|run|] == run;
  }

  lemma MailSnoc(run: seq<Timed>, t: Timed, account: string, lo: nat, hi: nat)
    ensures MailTimes(run + [t], account)
         == MailTimes(run, account) + MailedAt(Exec(NothingPending, run), t, account)
    ensures Restarts(run + [t], lo, hi)
         == Restarts(run, lo, hi) + (if t.0.Restart? && lo <= t.1 <= hi then 1 else 0)
  {
    hide MailedAt, Exec;
    assert (run + [t])[..|run|] == run;
  }

  /** One more invitation email, admitted. */
  lemma OneMoreMail(run: seq<Timed>, account: string, now: nat, lo: nat, hi: nat)
    requires |Recent(Sent(Exec(NothingPending, run), account), now)| < MAIL_LIMIT
    ensures var more := run + [(InvitationMail(account), now)];
            && MailTimes(more, account) == MailTimes(run, account) + [now]
            && Restarts(more, lo, hi) == Restarts(run, lo, hi)
            && Sent(Exec(NothingPending, more), account)
               == Recent(Sent(Exec(NothingPending, run), account), now) + [now]
  {
    hide Step, Recent, Sent, Exec, MailTimes, Restarts;
    RunSnoc(NothingPending, run, (InvitationMail(account), now));
    MailSnoc(run, (InvitationMail(account), now), account, lo, hi);
    MailAt(Exec(NothingPending, run), account, now);
  }

  lemma {:induction false} RecentTimes(at: nat, n: nat, now: nat)
    ensures Recent(Times(at, n), now) == if at + MAIL_WINDOW > now then Times(at, n) else []
  {
    if n > 0 {
      RecentTimes(at, n - 1, now);
      assert Times(at, n) == Times(at, n - 1) + [at];
      RecentSnoc(Times(at, n - 1), at, now);
    }
  }

  lemma {:induction false} TimesBetween(at: nat, n: nat, lo: nat, hi: nat)
    requires lo <= at <= hi
    ensures Between(Times(at, n), lo, hi) == n
  {
    if n > 0 {
      TimesBetween(at, n - 1, lo, hi);
      assert Times(at, n) == Times(at, n - 1) + [at];
      BetweenSnoc(Times(at, n - 1), at, lo, hi);
    }
  }

  /** Up to twenty at one time, where none is remembered. */
  lemma {:induction false} Burst(run: seq<Timed>, account: string, at: nat, n: nat, lo: nat, hi: nat)
    requires n <= MAIL_LIMIT && Sent(Exec(NothingPending, run), account) == []
    ensures var more := run + Many(account, at, n);
            && Sent(Exec(NothingPending, more), account) == Times(at, n)
            && MailTimes(more, account) == MailTimes(run, account) + Times(at, n)
            && Restarts(more, lo, hi) == Restarts(run, lo, hi)
    decreases n
  {
    hide Step, Recent, Sent, Exec, MailTimes, Restarts;
    if n == 0 {
      assert run + Many(account, at, 0) == run && MailTimes(run, account) + Times(at, 0) == MailTimes(run, account);
    } else {
      Burst(run, account, at, n - 1, lo, hi);
      var before := run + Many(account, at, n - 1);
      assert run + Many(account, at, n) == before + [(InvitationMail(account), at)];
      RecentTimes(at, n - 1, at);
      assert Times(at, n) == Times(at, n - 1) + [at];
      OneMoreMail(before, account, at, lo, hi);
      assert MailTimes(run, account) + Times(at, n - 1) + [at] == MailTimes(run, account) + Times(at, n);
    }
  }

  predicate AllAt(run: seq<Timed>, at: nat) {
    forall t | t in run :: t.1 == at
  }

  lemma RestartSends(run: seq<Timed>, account: string, at: nat, lo: nat, hi: nat)
    requires lo <= at <= hi
    ensures var more := run + [(Restart, at)];
            && Sent(Exec(NothingPending, more), account) == []
            && MailTimes(more, account) == MailTimes(run, account)
            && Restarts(more, lo, hi) == Restarts(run, lo, hi) + 1
  {
    hide Exec, MailTimes, Restarts;
    RunSnoc(NothingPending, run, (Restart, at));
    MailSnoc(run, (Restart, at), account, lo, hi);
    RestartMails(Exec(NothingPending, run), at, account);
    assert MailTimes(run, account) + [] == MailTimes(run, account);
  }

  /** A run of one second with any number of restarts, each process admitting twenty. */
  lemma {:induction false} RestartsAreTight(account: string, at: nat, restarts: nat, hi: nat) returns (run: seq<Timed>)
    requires at <= hi
    ensures AllAt(run, at) && Restarts(run, at, hi) == restarts
    ensures MailTimes(run, account) == Times(at, 20 * (restarts + 1))
    ensures Sent(Exec(NothingPending, run), account) == Times(at, 20)
    ensures MailedFrom(run, account, at, hi) == 20 * (restarts + 1)
    decreases restarts
  {
    hide Exec, MailTimes, Restarts, Sent, Between;
    if restarts == 0 {
      NoMailYet(account, at, hi);
      run := [];
    } else {
      run := RestartsAreTight(account, at, restarts - 1, hi);
      RestartSends(run, account, at, at, hi);
      run := run + [(Restart, at)];
    }
    var before := MailTimes(run, account);
    Burst(run, account, at, MAIL_LIMIT, at, hi);
    run := run + Many(account, at, MAIL_LIMIT);
    assert before + Times(at, MAIL_LIMIT) == Times(at, MAIL_LIMIT * (restarts + 1));
    TimesBetween(at, MAIL_LIMIT * (restarts + 1), at, hi);
  }

  lemma NoMailYet(account: string, lo: nat, hi: nat)
    ensures Sent(Exec(NothingPending, []), account) == [] && MailTimes([], account) == []
    ensures Restarts([], lo, hi) == 0
  {
  }

  /** The same and one more email a day later, when none of those is remembered. */
  lemma BothEndsIsMore(account: string, lo: nat, restarts: nat, hi: nat) returns (run: seq<Timed>)
    requires lo + 86400 <= hi
    ensures Monotone(run) && Restarts(run, lo, hi) == restarts
    ensures MailedFrom(run, account, lo, hi) == 20 * (restarts + 1) + 1
    ensures MailTimes(run, account) == Times(lo, 20 * (restarts + 1)) + [lo + 86400]
    ensures Sent(Exec(NothingPending, run), account) == [lo + 86400]
    ensures run != [] && run[|run| - 1].1 == lo + 86400
  {
    hide Exec, MailTimes, Restarts, Sent, Between, Recent;
    run := RestartsAreTight(account, lo, restarts, hi);
    RecentTimes(lo, MAIL_LIMIT, lo + MAIL_WINDOW);
    OneMoreMail(run, account, lo + MAIL_WINDOW, lo, hi);
    BetweenSnoc(Times(lo, MAIL_LIMIT * (restarts + 1)), lo + MAIL_WINDOW, lo, hi);
    TimesBetween(lo, MAIL_LIMIT * (restarts + 1), lo, hi);
    var all := run + [(InvitationMail(account), lo + MAIL_WINDOW)];
    assert forall i | 0 <= i < |run| :: all[i] in run;
    run := all;
  }

  /** Wherever a span of time starts and however many restarts fall in it: every run of a
      clock that never steps back admits at most twenty of an account's invitation emails in
      it for each of its processes, just if the span is shorter than a day. */
  lemma MailSpan(account: string, lo: nat, span: nat, restarts: nat)
    ensures (forall run | Monotone(run) && Restarts(run, lo, lo + span) <= restarts ::
               MailedFrom(run, account, lo, lo + span) <= 20 * (restarts + 1))
       <==> span < 86400
  {
    hide Monotone, MailTimes, Between, Restarts, Exec;
    if span < MAIL_WINDOW {
      forall run | Monotone(run) && Restarts(run, lo, lo + span) <= restarts
        ensures MailedFrom(run, account, lo, lo + span) <= MAIL_LIMIT * (restarts + 1)
      {
        MailIsLimited(run, account, lo, lo + span);
      }
    } else {
      var run := BothEndsIsMore(account, lo, restarts, lo + span);
    }
  }

  /** A restart breaks the limit of twenty: a run of a clock that stands still, with one
      restart, admits forty in one second. */
  lemma RestartIsMore(account: string, at: nat) returns (run: seq<Timed>)
    ensures Monotone(run) && Restarts(run, at, at) == 1 && MailedFrom(run, account, at, at) == 40
  {
    hide Exec, MailTimes, Restarts, Between;
    run := RestartsAreTight(account, at, 1, at);
    forall i, j | 0 <= i <= j < |run|
      ensures run[i].1 <= run[j].1
    {
      assert run[i] in run && run[j] in run;
    }
  }

  /** So does a clock that steps back: what a later time forgot is not counted when the
      earlier one comes again. */
  lemma ClockBackIsMore(account: string, at: nat) returns (run: seq<Timed>)
    ensures !Monotone(run) && Restarts(run, at, at + 86400) == 0
    ensures MailedFrom(run, account, at, at) == 21
  {
    hide Step, Recent, Between, Exec, MailTimes, Restarts;
    var ahead := BothEndsIsMore(account, at, 0, at + MAIL_WINDOW);
    run := ahead + [(InvitationMail(account), at)];
    assert Times(at + MAIL_WINDOW, 1) == [at + MAIL_WINDOW];
    RecentTimes(at + MAIL_WINDOW, 1, at);
    OneMoreMail(ahead, account, at, at, at + MAIL_WINDOW);
    BetweenSnoc(Times(at, MAIL_LIMIT) + [at + MAIL_WINDOW], at, at, at);
    BetweenSnoc(Times(at, MAIL_LIMIT), at + MAIL_WINDOW, at, at);
    TimesBetween(at, MAIL_LIMIT, at, at);
    assert run[|ahead| - 1].1 > run[|ahead|].1;
  }
}
