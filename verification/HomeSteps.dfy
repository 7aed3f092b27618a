/** A Home's reconcile as it runs: it reads the credentials, then the mirrors, and takes the
    lock anew for every record it writes. Between two of its steps anyone may change what
    the Home holds. */
module HomeSteps {
  import opened Base
  import opened Order
  import opened Links
  import opened Credentials
  import opened HomeSync

  /** Where one reconcile has got to: it has the links listed for it; it read the
      credentials; it is at a listed link; it stored that link's secret and is to note the
      version; it is at a provider it had mirrored; it removed that credential and is to drop
      the mirror. */
  datatype Task =
    | Got(answer: HomeAnswer)
    | ReadCreds(answer: HomeAnswer, creds: map<string, Credential>)
    | Taking(answer: HomeAnswer, seen: Local, next: nat, done: HomeReconciled, current: set<string>)
    | Noting(answer: HomeAnswer, seen: Local, next: nat, done: HomeReconciled, current: set<string>,
             localVersion: nat)
    | Removing(seen: Local, next: nat, done: HomeReconciled, current: set<string>)
    | Unmarking(seen: Local, next: nat, done: HomeReconciled, current: set<string>)
    | Finished(done: HomeReconciled)

  /** What a Home holds, and a reconcile on it. */
  datatype Moment = Moment(local: Local, task: Task)

  /** The reconcile is at a place in what it works through. */
  predicate Placed(t: Task) {
    && (t.Noting? ==> t.next < |t.answer.links|)
    && (t.Unmarking? ==> t.next < |Names(t.seen.mirrors.Keys)|)
  }

  /** The verdict on a link turned into a step: at most one locked write. */
  function TakeLink(home: string, key: Option<PublicKey>, local: Local, t: Task): Moment
    requires t.Taking? && t.next < |t.answer.links|
  {
    var link := t.answer.links[t.next];
    var p := link.provider;
    var verdict := Judge(HomeConfig(home, key), t.answer.account, t.seen, link);
    var current := StillGiven(t.current, verdict, p);
    var past := Taking(t.answer, t.seen, t.next + 1, t.done, current);
    match verdict
    case NotHere => Moment(local, past)
    case Theirs => Moment(if p in t.seen.mirrors then Unmirrored(local, p) else local, past)
    case Same => Moment(local, past)
    case Failed(why) =>
      Moment(local, Taking(t.answer, t.seen, t.next + 1, t.done.(failed := t.done.failed + [(p, why)]), current))
    case Opened(text) =>
      var stored := Upserted(local, p, text, link.baseUrl, link.classes);
      Moment(stored, Noting(t.answer, t.seen, t.next, t.done, current, stored.creds[p].version))
  }

  /** The next step of a reconcile, with the Home's key as it unwraps at that moment. */
  function Stepped(home: string, key: Option<PublicKey>, local: Local, t: Task): Moment
    requires Placed(t)
  {
    match t
    case Got(answer) => Moment(local, ReadCreds(answer, local.creds))
    case ReadCreds(answer, creds) =>
      Moment(local, Taking(answer, Local(creds, local.mirrors), 0, NothingDone, {}))
    case Taking(answer, seen, next, done, current) =>
      if next < |answer.links| then TakeLink(home, key, local, t)
      else Moment(local, Removing(seen, 0, done, current))
    case Noting(answer, seen, next, done, current, localVersion) =>
      var link := answer.links[next];
      Moment(Mirrored(local, link.provider, Mirror(answer.account, link.version, localVersion)),
             Taking(answer, seen, next + 1, done.(taken := done.taken + [link.provider]), current))
    case Removing(seen, next, done, current) =>
      var providers := Names(seen.mirrors.Keys);
      if next >= |providers| then Moment(local, Finished(done))
      else if providers[next] in current || !HomeSync.Taken(seen, providers[next])
      then Moment(local, Removing(seen, next + 1, done, current))
      else Moment(Removed(local, providers[next]), Unmarking(seen, next, done, current))
    case Unmarking(seen, next, done, current) =>
      var p := Names(seen.mirrors.Keys)[next];
      Moment(Unmirrored(local, p), Removing(seen, next + 1, done.(removed := done.removed + [p]), current))
    case Finished(_) => Moment(local, t)
  }

  lemma StaysPlaced(home: string, key: Option<PublicKey>, local: Local, t: Task)
    requires Placed(t)
    ensures Placed(Stepped(home, key, local, t).task)
  {
    hide Judge, Names;
  }

  // ---- left alone, it is the reconcile as one step ---------------------------------------------

  function Stage(t: Task): nat {
    match t
    case Got(_) => 4
    case ReadCreds(_, _) => 3
    case Taking(_, _, _, _, _) => 2
    case Noting(_, _, _, _, _, _) => 2
    case Removing(_, _, _, _) => 1
    case Unmarking(_, _, _, _) => 1
    case Finished(_) => 0
  }

  function Left(t: Task): nat {
    match t
    case Taking(answer, _, next, _, _) => if next <= |answer.links| then 2 * (|answer.links| - next) + 1 else 0
    case Noting(answer, _, next, _, _, _) => if next < |answer.links| then 2 * (|answer.links| - next) else 0
    case Removing(seen, next, _, _) =>
      var n := |Names(seen.mirrors.Keys)|; if next <= n then 2 * (n - next) + 1 else 0
    case Unmarking(seen, next, _, _) => var n := |Names(seen.mirrors.Keys)|; if next < n then 2 * (n - next) else 0
    case _ => 0
  }

  /** Every step brings the end nearer, whatever happened in between. */
  lemma Nearer(home: string, key: Option<PublicKey>, local: Local, t: Task)
    requires Placed(t) && !t.Finished?
    ensures var t' := Stepped(home, key, local, t).task;
            Stage(t') < Stage(t) || (Stage(t') == Stage(t) && Left(t') < Left(t))
  {
    hide Judge, Names;
  }

  /** The rest of a reconcile that nobody disturbs and whose key does not change. */
  function Finish(home: string, key: Option<PublicKey>, local: Local, t: Task): Moment
    requires Placed(t)
    decreases Stage(t), Left(t)
  {
    if t.Finished? then Moment(local, t)
    else
      StaysPlaced(home, key, local, t);
      Nearer(home, key, local, t);
      var m := Stepped(home, key, local, t);
      Finish(home, key, m.local, m.task)
  }

  lemma FinishStep(home: string, key: Option<PublicKey>, local: Local, t: Task)
    requires Placed(t) && !t.Finished?
    ensures var m := Stepped(home, key, local, t);
            Placed(m.task) && Finish(home, key, local, t) == Finish(home, key, m.local, m.task)
  {
    StaysPlaced(home, key, local, t);
  }

  /** One provider: the step, or the removal and the dropped mirror, is its part of the pass. */
  lemma FinishProvider(home: string, key: Option<PublicKey>, seen: Local, taken: Pass, next: nat)
    requires next < |Names(seen.mirrors.Keys)|
    ensures var here := RemovePass(seen, taken, Names(seen.mirrors.Keys)[..next]);
            var past := RemovePass(seen, taken, Names(seen.mirrors.Keys)[..next + 1]);
            Finish(home, key, here.local, Removing(seen, next, here.done, here.current))
            == Finish(home, key, past.local, Removing(seen, next + 1, past.done, past.current))
  {
    hide Names, HomeSync.Taken, Finish;
    var providers := Names(seen.mirrors.Keys);
    var here := RemovePass(seen, taken, providers[..next]);
    assert providers[..next + 1][..next] == providers[..next];
    var t := Removing(seen, next, here.done, here.current);
    FinishStep(home, key, here.local, t);
    var m := Stepped(home, key, here.local, t);
    if m.task.Unmarking? {
      FinishStep(home, key, m.local, m.task);
    }
  }

  /** The removals from one place on. */
  lemma {:induction false} FinishRemoving(home: string, key: Option<PublicKey>, seen: Local, taken: Pass, next: nat)
    requires next <= |Names(seen.mirrors.Keys)|
    ensures var providers := Names(seen.mirrors.Keys);
            var here := RemovePass(seen, taken, providers[..next]);
            var end := RemovePass(seen, taken, providers);
            Finish(home, key, here.local, Removing(seen, next, here.done, here.current))
            == Moment(end.local, Finished(end.done))
    decreases |Names(seen.mirrors.Keys)| - next
  {
    hide Names, HomeSync.Taken, Finish, RemovePass;
    var providers := Names(seen.mirrors.Keys);
    var here := RemovePass(seen, taken, providers[..next]);
    if next == |providers| {
      assert providers[..next] == providers;
      FinishStep(home, key, here.local, Removing(seen, next, here.done, here.current));
      FinishedStays(home, key, here.local, here.done);
    } else {
      FinishProvider(home, key, seen, taken, next);
      FinishRemoving(home, key, seen, taken, next + 1);
    }
  }

  lemma FinishedStays(home: string, key: Option<PublicKey>, local: Local, done: HomeReconciled)
    ensures Finish(home, key, local, Finished(done)) == Moment(local, Finished(done))
  {
  }

  /** One link: the step, or the store and the note, is the link's part of the pass. */
  lemma FinishLink(home: string, key: Option<PublicKey>, answer: HomeAnswer, seen: Local, next: nat)
    requires next < |answer.links|
    ensures var cfg := HomeConfig(home, key);
            var here := TakePass(cfg, answer.account, seen, answer.links[..next]);
            var past := TakePass(cfg, answer.account, seen, answer.links[..next + 1]);
            Finish(home, key, here.local, Taking(answer, seen, next, here.done, here.current))
            == Finish(home, key, past.local, Taking(answer, seen, next + 1, past.done, past.current))
  {
    hide Judge, Finish;
    var cfg := HomeConfig(home, key);
    var here := TakePass(cfg, answer.account, seen, answer.links[..next]);
    assert answer.links[..next + 1][..next] == answer.links[..next];
    var t := Taking(answer, seen, next, here.done, here.current);
    FinishStep(home, key, here.local, t);
    var m := Stepped(home, key, here.local, t);
    if m.task.Noting? {
      FinishStep(home, key, m.local, m.task);
    }
  }

  lemma {:induction false} FinishTaking(home: string, key: Option<PublicKey>, answer: HomeAnswer, seen: Local,
                                        next: nat)
    requires next <= |answer.links|
    ensures var here := TakePass(HomeConfig(home, key), answer.account, seen, answer.links[..next]);
            var taken := TakePass(HomeConfig(home, key), answer.account, seen, answer.links);
            var end := RemovePass(seen, taken, Names(seen.mirrors.Keys));
            Finish(home, key, here.local, Taking(answer, seen, next, here.done, here.current))
            == Moment(end.local, Finished(end.done))
    decreases |answer.links| - next
  {
    hide Names, Judge, Finish, TakePass, RemovePass;
    var here := TakePass(HomeConfig(home, key), answer.account, seen, answer.links[..next]);
    if next == |answer.links| {
      assert answer.links[..next] == answer.links;
      FinishStep(home, key, here.local, Taking(answer, seen, next, here.done, here.current));
      RemovesNone(seen, here);
      FinishRemoving(home, key, seen, here, 0);
    } else {
      FinishLink(home, key, answer, seen, next);
      FinishTaking(home, key, answer, seen, next + 1);
    }
  }

  lemma RemovesNone(seen: Local, taken: Pass)
    ensures RemovePass(seen, taken, Names(seen.mirrors.Keys)[..0]) == taken
  {
  }

  /** Run from its answer to its end with nobody else writing, the steps are the reconcile:
      they leave the same records and report the same. */
  lemma AloneIsReconcile(home: string, key: Option<PublicKey>, local: Local, answer: Option<HomeAnswer>)
    ensures var pass := ReconcileHome(HomeConfig(home, key), local, answer);
            Finish(home, key, local, Got(Listed(answer))) == Moment(pass.local, Finished(pass.done))
  {
    hide Names, Judge, Finish, RemovePass;
    var a := Listed(answer);
    FinishStep(home, key, local, Got(a));
    FinishStep(home, key, local, ReadCreds(a, local.creds));
    assert a.links[..0] == [];
    assert TakePass(HomeConfig(home, key), a.account, local, a.links[..0]) == Pass(local, NothingDone, {});
    FinishTaking(home, key, a, local, 0);
  }

  // ---- what a step does to a credential of the person's own --------------------------------------

  /** The reconcile's snapshot, once it has all of it. */
  predicate HasSeen(t: Task) {
    t.Taking? || t.Noting? || t.Removing? || t.Unmarking?
  }

  /** The step to come writes the provider's credential. */
  predicate Writes(home: string, key: Option<PublicKey>, t: Task, p: string) {
    || (t.Taking? && t.next < |t.answer.links| && t.answer.links[t.next].provider == p
        && Judge(HomeConfig(home, key), t.answer.account, t.seen, t.answer.links[t.next]).Opened?)
    || (t.Removing? && t.next < |Names(t.seen.mirrors.Keys)| && Names(t.seen.mirrors.Keys)[t.next] == p
        && p !in t.current && HomeSync.Taken(t.seen, p))
  }

  /** Whatever happened since the reconcile read what the Home holds: a step changes a
      credential held here just if it is a write to it, and it is one only if the
      credential was not the person's own when the reconcile read it. So a reconcile that
      finds the records as it read them never changes what is the person's own. */
  lemma OwnAtTheWrite(home: string, key: Option<PublicKey>, local: Local, t: Task, p: string)
    requires Placed(t) && Held(local, p)
    ensures SameAt(local.creds, Stepped(home, key, local, t).local.creds, p) <==> !Writes(home, key, t, p)
    ensures Writes(home, key, t, p) ==> HasSeen(t) && !Own(t.seen, p)
    ensures HasSeen(t) && Own(local, p) && SameLocal(t.seen, local, p) ==> !Writes(home, key, t, p)
  {
    hide Open, Names;
  }
}
