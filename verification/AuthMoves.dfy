/** Writes routed by the custody catalog, and the move of one account into its own scope:
    every run of them against the store is the same run against one projection in memory. */
module AuthMoves {
  import opened Base
  import opened Order
  import opened AuthData
  import opened CustodyCatalog
  import opened AuthProjection

  // ---- the facts that copy an account ---------------------------------------------------------

  function IdsOf(s: AccountAuth, kind: FactKind): set<string> {
    match kind
    case RootKind => s.roots.Keys
    case EmailKind => s.emails.Keys
    case PasskeyKind => s.passkeys.Keys
    case SubjectKind => s.subjects.Keys
    case BatchKind => s.batches.Keys
    case CodeKind => s.codes.Keys
    case AttemptKind => s.attempts.Keys
    case SessionKind => s.sessions.Keys
  }

  lemma IdsAreLive(s: AccountAuth, kind: FactKind, id: string)
    ensures id in IdsOf(s, kind) <==> s.Lookup(kind, id).Some?
  {
  }

  function FactsOf(s: AccountAuth, kind: FactKind, ids: seq<string>): seq<Fact> {
    if ids == [] then []
    else
      var before := FactsOf(s, kind, ids[..|ids| - 1]);
      var v := s.Lookup(kind, ids[|ids| - 1]);
      if v.Some? then before + [v.value] else before
  }

  function FactsByKind(s: AccountAuth, kinds: seq<FactKind>): seq<Fact> {
    if kinds == [] then []
    else FactsByKind(s, kinds[..|kinds| - 1])
         + FactsOf(s, kinds[|kinds| - 1], Names(IdsOf(s, kinds[|kinds| - 1])))
  }

  const KindOrder := [RootKind, EmailKind, PasskeyKind, SubjectKind, BatchKind, CodeKind, AttemptKind, SessionKind]

  /** The current records of one account, kind by kind, each kind by id. */
  function FactsFor(s: AccountAuth, account: string): seq<Fact> {
    FactsByKind(Retain(s, account), KindOrder)
  }

  /** Every live record stands under its own id, as an upsert. */
  ghost predicate Folded(s: AccountAuth) {
    forall kind, id :: s.Lookup(kind, id).Some? ==>
      s.Lookup(kind, id).value.Kind() == kind && s.Lookup(kind, id).value.Id() == id
      && s.Lookup(kind, id).value.Op() == Upsert
  }

  lemma FoldIsFolded(facts: seq<Fact>)
    ensures Folded(ApplyAll(Empty, facts))
  {
    hide ApplyAll;
    forall kind, id | ApplyAll(Empty, facts).Lookup(kind, id).Some?
      ensures var f := ApplyAll(Empty, facts).Lookup(kind, id).value;
              f.Kind() == kind && f.Id() == id && f.Op() == Upsert
    {
      LatestWins(Empty, facts, kind, id);
      LastOf(facts, kind, id);
    }
  }

  lemma {:induction false} FactsOfLast(s: AccountAuth, of: FactKind, ids: seq<string>, kind: FactKind, id: string)
    requires Folded(s)
    ensures Last(FactsOf(s, of, ids), kind, id) == if of == kind && id in ids then s.Lookup(kind, id) else None
    decreases |ids|
  {
    hide AccountAuth.Lookup;
    if ids != [] {
      var before, last := ids[..|ids| - 1], ids[|ids| - 1];
      FactsOfLast(s, of, before, kind, id);
      assert ids == before + [last];
      var v := s.Lookup(of, last);
      if v.Some? {
        var facts := FactsOf(s, of, before);
        assert (facts + [v.value])[..|facts|] == facts;
      }
    }
  }

  lemma {:induction false} FactsByKindLast(s: AccountAuth, kinds: seq<FactKind>, kind: FactKind, id: string)
    requires Folded(s)
    ensures Last(FactsByKind(s, kinds), kind, id) == if kind in kinds then s.Lookup(kind, id) else None
    decreases |kinds|
  {
    hide AccountAuth.Lookup, Names, FactsOf, Folded;
    if kinds != [] {
      var before, last := kinds[..|kinds| - 1], kinds[|kinds| - 1];
      var ids := Names(IdsOf(s, last));
      FactsByKindLast(s, before, kind, id);
      FactsOfLast(s, last, ids, kind, id);
      IdsAreLive(s, last, id);
      LastConcat(FactsByKind(s, before), FactsOf(s, last, ids), kind, id);
      assert kinds == before + [last];
    }
  }

  lemma RetainFolded(s: AccountAuth, account: string)
    requires Folded(s)
    ensures Folded(Retain(s, account))
  {
    hide Retain, AccountAuth.Lookup;
    forall kind, id | Retain(s, account).Lookup(kind, id).Some?
      ensures var f := Retain(s, account).Lookup(kind, id).value; f.Kind() == kind && f.Id() == id && f.Op() == Upsert
    {
      RetainLookup(s, account, kind, id);
    }
  }

  lemma EveryKindListed(kind: FactKind)
    ensures kind in KindOrder
  {
    match kind {
      case RootKind => assert KindOrder[0] == kind;
      case EmailKind => assert KindOrder[1] == kind;
      case PasskeyKind => assert KindOrder[2] == kind;
      case SubjectKind => assert KindOrder[3] == kind;
      case BatchKind => assert KindOrder[4] == kind;
      case CodeKind => assert KindOrder[5] == kind;
      case AttemptKind => assert KindOrder[6] == kind;
      case SessionKind => assert KindOrder[7] == kind;
    }
  }

  lemma CopyLast(s: AccountAuth, account: string, kind: FactKind, id: string)
    requires Folded(s)
    ensures Last(FactsFor(s, account), kind, id) == Retain(s, account).Lookup(kind, id)
  {
    hide Retain, AccountAuth.Lookup, FactsByKind, Last, Folded;
    RetainFolded(s, account);
    FactsByKindLast(Retain(s, account), KindOrder, kind, id);
    EveryKindListed(kind);
  }

  /** Folding the copied facts into nothing gives exactly the account's records. */
  lemma CopyIsExact(facts: seq<Fact>, account: string)
    ensures ApplyAll(Empty, FactsFor(ApplyAll(Empty, facts), account)) == Retain(ApplyAll(Empty, facts), account)
  {
    hide ApplyAll, Retain, FactsFor, Last, Folded;
    var s := ApplyAll(Empty, facts);
    FoldIsFolded(facts);
    var copied := ApplyAll(Empty, FactsFor(s, account));
    forall kind, id
      ensures copied.Lookup(kind, id) == Retain(s, account).Lookup(kind, id)
    {
      LatestWins(Empty, FactsFor(s, account), kind, id);
      CopyLast(s, account, kind, id);
      RetainFolded(s, account);
      CopiedIsLive(Retain(s, account), kind, id);
    }
    SameRecords(copied, Retain(s, account));
  }

  lemma CopiedIsLive(s: AccountAuth, kind: FactKind, id: string)
    requires Folded(s)
    ensures s.Lookup(kind, id).Some? ==> Live(s.Lookup(kind, id).value) == s.Lookup(kind, id)
    ensures Empty.Lookup(kind, id) == None
  {
  }

  // ---- writing --------------------------------------------------------------------------------------

  /** The scope a fact goes to: its account's own once that is authoritative, else the
      legacy one. */
  function Route(st: AuthStore, f: Fact): Option<string> {
    if f.Account().Some? && f.Account().value in st.Scoped() then f.Account() else None
  }

  function Put(st: AuthStore, f: Fact): AuthStore {
    match Route(st, f)
    case Some(a) => st.(scopes := st.scopes[a := st.Rows(a) + [f]])
    case None => st.(legacy := st.legacy + [f])
  }

  function PutAll(st: AuthStore, facts: seq<Fact>): AuthStore {
    if facts == [] then st else Put(PutAll(st, facts[..|facts| - 1]), facts[|facts| - 1])
  }

  predicate PastFence(st: AuthStore, f: Fact) {
    f.Account().Some? && !st.StandingOf(f.Account().value).MayAuthenticate()
  }

  /** One decision's facts, refused whole when any of them is for an account past its
      erasure fence. */
  function AppendFacts(st: AuthStore, facts: seq<Fact>): Option<AuthStore> {
    if exists f | f in facts :: PastFence(st, f) then None else Some(PutAll(st, facts))
  }

  lemma {:induction false} PutAllKeeps(st: AuthStore, facts: seq<Fact>)
    ensures PutAll(st, facts).custody == st.custody
    ensures PutAll(st, facts).Scoped() == st.Scoped()
    decreases |facts|
  {
    if facts != [] {
      PutAllKeeps(st, facts[..|facts| - 1]);
    }
  }

  lemma PutStores(st: AuthStore, f: Fact, g: Fact)
    ensures Stored(st, g) ==> Stored(Put(st, f), g)
    ensures Stored(Put(st, f), f)
    ensures Stored(Put(st, f), g) ==> Stored(st, g) || g == f
    ensures OwnScopes(st) ==> OwnScopes(Put(st, f))
  {
    hide CatalogOf;
    var st' := Put(st, f);
    assert forall a :: st'.Rows(a) == st.Rows(a) || st'.Rows(a) == st.Rows(a) + [f];
    match Route(st, f) {
      case Some(a) => assert st'.Rows(a) == st.Rows(a) + [f]; assert f in st'.Rows(a);
      case None => assert f in st'.legacy;
    }
    if Stored(st, g) && g !in st.legacy {
      var a :| g in st.Rows(a);
      assert g in st'.Rows(a);
    }
  }

  /** With the ids unshared the order of the scopes does not matter. */
  lemma OneScope(st: AuthStore, accounts: seq<string>, kind: FactKind, id: string, b: string)
    requires OwnScopes(st) && NoSharedIds(st)
    requires b in accounts && Last(st.Rows(b), kind, id).Some?
    ensures LastScope(st, accounts, kind, id) == Some(b)
  {
    hide Last, LastScope;
    LastScopeOf(st, accounts, kind, id);
    var c := LastScope(st, accounts, kind, id).value;
    LastOf(st.Rows(b), kind, id);
    LastOf(st.Rows(c), kind, id);
    assert Stored(st, Last(st.Rows(b), kind, id).value) && Stored(st, Last(st.Rows(c), kind, id).value);
  }

  lemma NoScope(st: AuthStore, accounts: seq<string>, kind: FactKind, id: string)
    requires forall a | a in accounts :: Last(st.Rows(a), kind, id).None?
    ensures LastScope(st, accounts, kind, id) == None
  {
    hide Last;
    LastScopeOf(st, accounts, kind, id);
  }

  lemma {:induction false} LastScopeSame(st: AuthStore, st': AuthStore, accounts: seq<string>, kind: FactKind,
                                         id: string)
    requires forall a :: Last(st'.Rows(a), kind, id) == Last(st.Rows(a), kind, id)
    ensures LastScope(st', accounts, kind, id) == LastScope(st, accounts, kind, id)
    decreases |accounts|
  {
    hide Last;
    if accounts != [] {
      LastScopeSame(st, st', accounts[..|accounts| - 1], kind, id);
    }
  }

  lemma LastSnoc(facts: seq<Fact>, f: Fact, kind: FactKind, id: string)
    ensures Last(facts + [f], kind, id) == if f.Kind() == kind && f.Id() == id then Some(f) else Last(facts, kind, id)
  {
    assert (facts + [f])[..|facts|] == facts;
  }

  lemma PutStands(st: AuthStore, f: Fact)
    ensures Put(st, f).custody == st.custody && Put(st, f).Scoped() == st.Scoped()
  {
    hide CatalogOf;
  }

  lemma PutLast(st: AuthStore, f: Fact, kind: FactKind, id: string)
    requires f.Kind() != kind || f.Id() != id
    ensures forall a :: Last(Put(st, f).Rows(a), kind, id) == Last(st.Rows(a), kind, id)
    ensures Last(Put(st, f).legacy, kind, id) == Last(st.legacy, kind, id)
  {
    hide Last, CatalogOf;
    forall a
      ensures Last(Put(st, f).Rows(a), kind, id) == Last(st.Rows(a), kind, id)
    {
      LastSnoc(st.Rows(a), f, kind, id);
    }
    LastSnoc(st.legacy, f, kind, id);
  }

  lemma PutElsewhere(st: AuthStore, f: Fact, kind: FactKind, id: string)
    requires f.Kind() != kind || f.Id() != id
    ensures CurrentValue(Put(st, f), kind, id) == CurrentValue(st, kind, id)
  {
    hide Last, LastScope, CatalogOf, Names, RebuildLegacy, AccountAuth.Lookup, Put;
    var st' := Put(st, f);
    PutStands(st, f);
    PutLast(st, f, kind, id);
    LegacyLookup(st, kind, id);
    LegacyLookup(st', kind, id);
    LastScopeSame(st, st', Names(st.Scoped()), kind, id);
  }

  lemma PutHere(st: AuthStore, f: Fact)
    requires OwnScopes(st) && NoSharedIds(Put(st, f)) && !PastFence(st, f)
    ensures CurrentValue(Put(st, f), f.Kind(), f.Id()) == Live(f)
  {
    hide Last, LastScope, CatalogOf, Names, RebuildLegacy;
    var st' := Put(st, f);
    PutStores(st, f, f);
    assert st'.Scoped() == st.Scoped();
    match Route(st, f) {
      case Some(a) =>
        LastSnoc(st.Rows(a), f, f.Kind(), f.Id());
        assert st'.Rows(a) == st.Rows(a) + [f];
        OneScope(st', Names(st.Scoped()), f.Kind(), f.Id(), a);
      case None =>
        forall b | b in Names(st.Scoped())
          ensures Last(st'.Rows(b), f.Kind(), f.Id()).None?
        {
          SharesNothing(st', f, b, f.Kind(), f.Id());
        }
        NoScope(st', Names(st.Scoped()), f.Kind(), f.Id());
        LastSnoc(st.legacy, f, f.Kind(), f.Id());
        LegacyLookup(st', f.Kind(), f.Id());
    }
  }

  /** Appending one fact and reading back is folding it into what was read before. */
  lemma PutRefines(st: AuthStore, f: Fact)
    requires OwnScopes(st) && NoSharedIds(Put(st, f)) && !PastFence(st, f)
    ensures RebuildCurrent(Put(st, f)) == Apply(RebuildCurrent(st), f)
  {
    hide RebuildCurrent, Apply, Put, CurrentValue, NoSharedIds, PastFence, OwnScopes;
    PutStores(st, f, f);
    forall kind, id
      ensures RebuildCurrent(Put(st, f)).Lookup(kind, id) == Apply(RebuildCurrent(st), f).Lookup(kind, id)
    {
      CurrentLookup(st, kind, id);
      CurrentLookup(Put(st, f), kind, id);
      ApplyLookup(RebuildCurrent(st), f, kind, id);
      if f.Kind() == kind && f.Id() == id {
        PutHere(st, f);
      } else {
        PutElsewhere(st, f, kind, id);
      }
    }
    SameRecords(RebuildCurrent(Put(st, f)), Apply(RebuildCurrent(st), f));
  }

  /** Rebuilding after a routed append is folding the facts into the projection. */
  lemma {:induction false} AppendRefines(st: AuthStore, facts: seq<Fact>)
    requires OwnScopes(st) && NoSharedIds(PutAll(st, facts)) && forall f | f in facts :: !PastFence(st, f)
    ensures RebuildCurrent(PutAll(st, facts)) == ApplyAll(RebuildCurrent(st), facts)
    ensures OwnScopes(PutAll(st, facts))
    decreases |facts|
  {
    hide RebuildCurrent, Apply, Put, CatalogOf, OwnScopes;
    if facts != [] {
      var before, last := facts[..|facts| - 1], facts[|facts| - 1];
      assert last in facts;
      var mid := PutAll(st, before);
      UnsharedBefore(mid, last);
      AppendRefines(st, before);
      PutAllKeeps(st, before);
      PutRefines(mid, last);
      PutStores(mid, last, last);
    }
  }

  lemma UnsharedBefore(st: AuthStore, f: Fact)
    requires NoSharedIds(Put(st, f))
    ensures NoSharedIds(st)
  {
    hide Put, Stored;
    forall g, h | Stored(st, g) && Stored(st, h)
      ensures g.Kind() == h.Kind() && g.Id() == h.Id() ==> g.Account() == h.Account()
    {
      PutStores(st, f, g);
      PutStores(st, f, h);
    }
  }

  /** Nothing of an account whose own scope is authoritative reaches the legacy scope. */
  lemma {:induction false} NothingToLegacy(st: AuthStore, facts: seq<Fact>, account: string)
    requires account in st.Scoped()
    ensures forall f | f in PutAll(st, facts).legacy && f.Account() == Some(account) :: f in st.legacy
    decreases |facts|
  {
    hide CatalogOf;
    if facts != [] {
      NothingToLegacy(st, facts[..|facts| - 1], account);
      PutAllKeeps(st, facts[..|facts| - 1]);
    }
  }
}
