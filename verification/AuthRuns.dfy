/** Whole runs of writes and custody commands: reading the store back is at every point the
    projection the same run keeps in memory. */
module AuthRuns {
  import opened Base
  import opened Order
  import opened Text
  import opened AuthData
  import opened Custody
  import opened CustodyCatalog
  import opened AuthProjection
  import opened AuthMoves
  import AuthMethods

  datatype Step =
    | Write(facts: seq<Fact>)
    | Direct(account: string, command: Command)

  const EmptyStore := AuthStore([], map[], [])

  /** Starting a migration commits the copied facts and the start event together; every
      other custody command writes the custody log only. */
  function Next(st: AuthStore, step: Step): AuthStore {
    match step
    case Write(facts) => (match AppendFacts(st, facts) case Some(st') => st' case None => st)
    case Direct(account, command) =>
      var custody := Submit(st.custody, account, command);
      if command.BeginMigration? && custody != st.custody then
        AuthStore(st.legacy, st.scopes[account := st.Rows(account) + FactsFor(RebuildLegacy(st), account)], custody)
      else st.(custody := custody)
  }

  function Exec(st: AuthStore, steps: seq<Step>): AuthStore {
    if steps == [] then st else Next(Exec(st, steps[..|steps| - 1]), steps[|steps| - 1])
  }

  /** The same run on one projection held in memory. */
  datatype Memory = Memory(auth: AccountAuth, custody: seq<CustodyRecord>)

  function MayAuthenticate(custody: seq<CustodyRecord>, account: string): bool {
    StandingIn(CatalogOf(custody), account).MayAuthenticate()
  }

  function Remember(m: Memory, step: Step): Memory {
    match step
    case Write(facts) =>
      if exists f | f in facts :: f.Account().Some? && !MayAuthenticate(m.custody, f.Account().value) then m
      else m.(auth := ApplyAll(m.auth, facts))
    case Direct(account, command) =>
      var custody := Submit(m.custody, account, command);
      var fenced := MayAuthenticate(m.custody, account) && !MayAuthenticate(custody, account);
      Memory(if fenced then Remove(m.auth, account) else m.auth, custody)
  }

  function RememberAll(m: Memory, steps: seq<Step>): Memory {
    if steps == [] then m else Remember(RememberAll(m, steps[..|steps| - 1]), steps[|steps| - 1])
  }

  /** Custody commands name accounts by their trimmed ids. */
  ghost predicate Named(step: Step) {
    step.Direct? ==> Clean(step.account)
  }

  // ---- what every store in a run keeps ----------------------------------------------------------

  ghost predicate StoreHolds(st: AuthStore) {
    && OwnScopes(st)
    && (forall a :: st.Rows(a) != [] ==> st.StandingOf(a).ReadsAccountScope())
    && (forall a :: LogHolds(EventsOf(st.custody, a)))
  }

  lemma ScopedIs(st: AuthStore, a: string)
    ensures a in st.Scoped() <==> st.StandingOf(a).ReadsAccountScope()
  {
  }

  /** An account that has not moved has not been fenced. */
  lemma UnmovedMaySignIn(st: AuthStore, a: string)
    requires LogHolds(EventsOf(st.custody, a))
    ensures !st.StandingOf(a).ReadsAccountScope() ==> st.StandingOf(a).MayAuthenticate()
  {
    var kinds := Kinds(EventsOf(st.custody, a));
    CatalogIsPerAccount(st.custody, a);
    if Fence in kinds {
      Closed(kinds, Fence);
      Closed(kinds, Completed);
    }
  }

  /** What one custody command does to the standings. */
  lemma DirectStanding(custody: seq<CustodyRecord>, account: string, c: Command, a: string)
    requires Clean(account)
    ensures EventsOf(Submit(custody, account, c), a)
         == if a == account then Admit(EventsOf(custody, a), c) else EventsOf(custody, a)
  {
    hide Decide, EvolveAll, Trim;
    CatalogIsPerAccount(custody, account);
    var d := Decide(StandingIn(CatalogOf(custody), account), c);
    if d.Ok? {
      RecordsAppended(custody, account, d.value, a);
    }
  }

  lemma WriteHolds(st: AuthStore, facts: seq<Fact>)
    requires StoreHolds(st)
    ensures StoreHolds(PutAll(st, facts))
    decreases |facts|
  {
    hide CatalogOf, LogHolds, EventsOf;
    if facts != [] {
      WriteHolds(st, facts[..|facts| - 1]);
      var mid, f := PutAll(st, facts[..|facts| - 1]), facts[|facts| - 1];
      PutStores(mid, f, f);
      forall a | Put(mid, f).Rows(a) != []
        ensures Put(mid, f).StandingOf(a).ReadsAccountScope()
      {
        ScopedIs(mid, a);
      }
    }
  }

  lemma CopyIsOwn(facts: seq<Fact>, account: string, f: Fact)
    requires f in FactsFor(ApplyAll(Empty, facts), account)
    ensures f.Account() == Some(account) && f in facts
  {
    hide FactsFor, ApplyAll, Retain;
    var s := ApplyAll(Empty, facts);
    FoldIsFolded(facts);
    RetainFolded(s, account);
    ListedIsLive(Retain(s, account), KindOrder, f);
    RetainLookup(s, account, f.Kind(), f.Id());
    LatestWins(Empty, facts, f.Kind(), f.Id());
    LastOf(facts, f.Kind(), f.Id());
    assert f in FactsByKind(Retain(s, account), KindOrder) by {
      CopyUnfolds(s, account);
    }
  }

  lemma CopyUnfolds(s: AccountAuth, account: string)
    ensures FactsFor(s, account) == FactsByKind(Retain(s, account), KindOrder)
  {
  }

  lemma {:induction false} ListedIsLive(s: AccountAuth, kinds: seq<FactKind>, f: Fact)
    requires Folded(s)
    ensures f in FactsByKind(s, kinds) ==> s.Lookup(f.Kind(), f.Id()) == Some(f)
    decreases |kinds|
  {
    hide AccountAuth.Lookup, Names;
    if kinds != [] {
      ListedIsLive(s, kinds[..|kinds| - 1], f);
      ListedOneKind(s, kinds[|kinds| - 1], Names(IdsOf(s, kinds[|kinds| - 1])), f);
    }
  }

  lemma {:induction false} ListedOneKind(s: AccountAuth, kind: FactKind, ids: seq<string>, f: Fact)
    requires Folded(s)
    ensures f in FactsOf(s, kind, ids) ==> s.Lookup(f.Kind(), f.Id()) == Some(f)
    decreases |ids|
  {
    hide AccountAuth.Lookup;
    if ids != [] {
      ListedOneKind(s, kind, ids[..|ids| - 1], f);
    }
  }

  // ---- one custody command --------------------------------------------------------------------------

  /** Only a begun migration moves an account, only an unfenced one, and only once; only a
      moved account is ever fenced, and for good. */
  lemma StandingMoves(log: seq<Event>, c: Command)
    requires LogHolds(log)
    ensures LogHolds(Admit(log, c))
    ensures var s, s' := EvolveAll(Initial, log), EvolveAll(Initial, Admit(log, c));
            && (s.ReadsAccountScope() ==> s'.ReadsAccountScope())
            && (!s.ReadsAccountScope() && s'.ReadsAccountScope() <==> c.BeginMigration? && Admit(log, c) != log)
            && (!s.ReadsAccountScope() ==> s'.MayAuthenticate())
            && (!s.MayAuthenticate() ==> !s'.MayAuthenticate())
  {
    hide Decide, Evolve, EvolveAll, Kinds, Trim, Legal;
    AdmitHolds(log, c);
    var s, happened := EvolveAll(Initial, log), SetOf(Kinds(log));
    forall k | k in happened
      ensures Needs(k) <= happened
    {
      Closed(Kinds(log), k);
    }
    DecideLegal(s, happened, c);
    var d := Decide(s, c);
    if d.Ok? && d.value != [] {
      assert d.value == [d.value[0]];
      OnlyBeginStarts(s, c);
      KindsSnoc(log, d.value[0]);
      StandingReflects(s, Evolve(s, d.value[0]), happened, KindOf(d.value[0]));
    } else if d.Ok? {
      assert log + d.value == log;
      StandingReflects(s, s, happened, Started);
    }
  }

  lemma StandingReflects(s: Standing, s': Standing, happened: set<Kind>, k: Kind)
    requires Reflects(s, happened) && forall j | j in happened :: Needs(j) <= happened
    requires s' == s || (Reflects(s', happened + {k}) && k !in happened && Needs(k) <= happened)
    ensures s.ReadsAccountScope() ==> s'.ReadsAccountScope()
    ensures !s.ReadsAccountScope() && s'.ReadsAccountScope() <==> s' != s && k == Started
    ensures !s.ReadsAccountScope() ==> s'.MayAuthenticate()
    ensures !s.MayAuthenticate() ==> !s'.MayAuthenticate()
  {
    hide Trim;
  }

  /** A store whose custody log alone changed, where no account moved. */
  lemma SameScopes(st: AuthStore, st': AuthStore)
    requires st'.legacy == st.legacy && st'.scopes == st.scopes
    requires forall a :: st'.StandingOf(a).ReadsAccountScope() <==> st.StandingOf(a).ReadsAccountScope()
    ensures st'.Scoped() == st.Scoped()
    ensures forall a :: st'.Rows(a) == st.Rows(a)
    ensures forall kind, id ::
              LastScope(st', Names(st.Scoped()), kind, id) == LastScope(st, Names(st.Scoped()), kind, id)
  {
    hide CatalogOf, Names, LastScope;
    forall a
      ensures a in st'.Scoped() <==> a in st.Scoped()
    {
      ScopedIs(st, a);
      ScopedIs(st', a);
    }
    forall kind, id
      ensures LastScope(st', Names(st.Scoped()), kind, id) == LastScope(st, Names(st.Scoped()), kind, id)
    {
      LastScopeSame(st, st', Names(st.Scoped()), kind, id);
    }
  }

  /** Nothing moved and nobody newly fenced: the projection is unchanged. A fence takes
      its account's records out and no others. */
  lemma FenceTakesOut(st: AuthStore, st': AuthStore, account: string)
    requires OwnScopes(st) && st'.legacy == st.legacy && st'.scopes == st.scopes
    requires forall a :: st'.StandingOf(a).ReadsAccountScope() <==> st.StandingOf(a).ReadsAccountScope()
    requires forall a | a != account :: st'.StandingOf(a).MayAuthenticate() <==> st.StandingOf(a).MayAuthenticate()
    requires st'.StandingOf(account).MayAuthenticate() ==> st.StandingOf(account).MayAuthenticate()
    requires !st.StandingOf(account).ReadsAccountScope() ==> st'.StandingOf(account).MayAuthenticate()
    ensures RebuildCurrent(st')
         == if st.StandingOf(account).MayAuthenticate() && !st'.StandingOf(account).MayAuthenticate()
            then Remove(RebuildCurrent(st), account) else RebuildCurrent(st)
  {
    hide RebuildCurrent, Remove, CatalogOf, LastScope, AccountAuth.Lookup, Names;
    SameScopes(st, st');
    var fenced := st.StandingOf(account).MayAuthenticate() && !st'.StandingOf(account).MayAuthenticate();
    var expected := if fenced then Remove(RebuildCurrent(st), account) else RebuildCurrent(st);
    forall kind, id
      ensures RebuildCurrent(st').Lookup(kind, id) == expected.Lookup(kind, id)
    {
      FenceTakesOutAt(st, st', account, kind, id);
    }
    SameRecords(RebuildCurrent(st'), expected);
  }

  lemma FenceTakesOutAt(st: AuthStore, st': AuthStore, account: string, kind: FactKind, id: string)
    requires OwnScopes(st) && st'.legacy == st.legacy && st'.scopes == st.scopes
    requires st'.Scoped() == st.Scoped()
    requires LastScope(st', Names(st.Scoped()), kind, id) == LastScope(st, Names(st.Scoped()), kind, id)
    requires forall a | a != account :: st'.StandingOf(a).MayAuthenticate() <==> st.StandingOf(a).MayAuthenticate()
    requires st'.StandingOf(account).MayAuthenticate() ==> st.StandingOf(account).MayAuthenticate()
    requires !st'.StandingOf(account).MayAuthenticate() ==> account in st.Scoped()
    ensures var fenced := st.StandingOf(account).MayAuthenticate() && !st'.StandingOf(account).MayAuthenticate();
            RebuildCurrent(st').Lookup(kind, id)
            == (if fenced then Remove(RebuildCurrent(st), account) else RebuildCurrent(st)).Lookup(kind, id)
  {
    hide RebuildCurrent, Remove, CatalogOf, LastScope, AccountAuth.Lookup, Names, Last;
    CurrentLookup(st, kind, id);
    assert OwnScopes(st') by {
      assert forall a :: st'.Rows(a) == st.Rows(a);
    }
    CurrentLookup(st', kind, id);
    RemoveLookup(RebuildCurrent(st), account, kind, id);
    LegacyLookup(st, kind, id);
    LegacyLookup(st', kind, id);
    LastScopeOf(st, Names(st.Scoped()), kind, id);
    var b := LastScope(st, Names(st.Scoped()), kind, id);
    if b.Some? {
      LastOf(st.Rows(b.value), kind, id);
    }
  }

  // ---- the move -----------------------------------------------------------------------------------

  /** A store that only differs by one account's move. */
  ghost predicate Moved(st: AuthStore, st': AuthStore, account: string) {
    && st'.legacy == st.legacy
    && st'.scopes == st.scopes[account := st.Rows(account) + FactsFor(RebuildLegacy(st), account)]
    && !st.StandingOf(account).ReadsAccountScope()
    && st'.StandingOf(account).ReadsAccountScope() && st'.StandingOf(account).MayAuthenticate()
    && forall a | a != account :: st'.StandingOf(a) == st.StandingOf(a)
  }

  lemma MoveStores(st: AuthStore, st': AuthStore, account: string)
    requires StoreHolds(st) && Moved(st, st', account)
    ensures OwnScopes(st')
    ensures forall f | Stored(st', f) :: Stored(st, f)
    ensures forall a | a != account :: st'.Rows(a) == st.Rows(a)
    ensures st'.Rows(account) == FactsFor(RebuildLegacy(st), account)
  {
    hide CatalogOf, FactsFor, LogHolds;
    assert st.Rows(account) == [];
    forall f | f in st'.Rows(account)
      ensures f.Account() == Some(account) && f in st.legacy
    {
      CopyIsOwn(st.legacy, account, f);
    }
    forall f | Stored(st', f)
      ensures Stored(st, f)
    {
      if f !in st.legacy {
        var a :| f in st'.Rows(a);
        assert a != account && f in st.Rows(a);
      }
    }
  }

  /** What a move leaves of one record: the copied row decides for the account's own, and
      nothing else changes place. */
  lemma MovePlaces(st: AuthStore, st': AuthStore, account: string, kind: FactKind, id: string)
    requires StoreHolds(st) && NoSharedIds(st) && Moved(st, st', account)
    ensures var v := RebuildLegacy(st).Lookup(kind, id);
            if v.Some? && v.value.Account() == Some(account) then
              && LastScope(st, Names(st.Scoped()), kind, id) == None
              && LastScope(st', Names(st'.Scoped()), kind, id) == Some(account)
              && Last(st'.Rows(account), kind, id) == v && Live(v.value) == v
            else
              && LastScope(st', Names(st'.Scoped()), kind, id) == LastScope(st, Names(st.Scoped()), kind, id)
              && LastScope(st, Names(st.Scoped()), kind, id) != Some(account)
  {
    hide CatalogOf, FactsFor, LogHolds, Names, Last, LastScope, RebuildLegacy, Retain, StoreHolds, AccountAuth.Lookup,
      NoSharedIds, OwnScopes;
    HoldsOwn(st);
    MoveStores(st, st', account);
    MoveScopes(st, st', account);
    LegacyLookup(st, kind, id);
    LegacyFolded(st);
    CopyLast(RebuildLegacy(st), account, kind, id);
    RetainLookup(RebuildLegacy(st), account, kind, id);
    var v := RebuildLegacy(st).Lookup(kind, id);
    MoveUnshared(st, st');
    if v.Some? && v.value.Account() == Some(account) {
      MovedRecord(st, st', account, kind, id, v.value);
    } else {
      UnmovedRecord(st, st', account, kind, id);
    }
  }

  lemma MoveScopes(st: AuthStore, st': AuthStore, account: string)
    requires Moved(st, st', account)
    ensures account !in st.Scoped() && forall a :: a in st'.Scoped() <==> a in st.Scoped() || a == account
  {
    hide CatalogOf, FactsFor;
    forall a
      ensures a in st'.Scoped() <==> a in st.Scoped() || a == account
    {
      ScopedIs(st, a);
      ScopedIs(st', a);
    }
    ScopedIs(st, account);
  }

  lemma MoveKeepsAt(st: AuthStore, st': AuthStore, account: string, kind: FactKind, id: string)
    requires StoreHolds(st) && NoSharedIds(st) && Moved(st, st', account)
    ensures CurrentValue(st', kind, id) == CurrentValue(st, kind, id)
  {
    hide CatalogOf, FactsFor, Names, Last, LastScope, RebuildLegacy, StoreHolds, AccountAuth.Lookup, NoSharedIds;
    MovePlaces(st, st', account, kind, id);
    MoveScopes(st, st', account);
    LegacyLookup(st, kind, id);
    LegacyLookup(st', kind, id);
  }

  lemma MoveUnshared(st: AuthStore, st': AuthStore)
    requires NoSharedIds(st) && forall f | Stored(st', f) :: Stored(st, f)
    ensures NoSharedIds(st')
  {
    hide Stored;
  }

  /** A record of the account's: served from the legacy scope before, from the copy after. */
  lemma MovedRecord(st: AuthStore, st': AuthStore, account: string, kind: FactKind, id: string, f: Fact)
    requires OwnScopes(st) && NoSharedIds(st) && OwnScopes(st') && NoSharedIds(st')
    requires Stored(st, f) && f.Kind() == kind && f.Id() == id && f.Account() == Some(account)
    requires account !in st.Scoped() && account in st'.Scoped() && Last(st'.Rows(account), kind, id).Some?
    ensures LastScope(st, Names(st.Scoped()), kind, id) == None
    ensures LastScope(st', Names(st'.Scoped()), kind, id) == Some(account)
  {
    hide CatalogOf, Names, Last, LastScope;
    forall b | b in Names(st.Scoped())
      ensures Last(st.Rows(b), kind, id).None?
    {
      SharesNothing(st, f, b, kind, id);
    }
    NoScope(st, Names(st.Scoped()), kind, id);
    OneScope(st', Names(st'.Scoped()), kind, id, account);
  }

  /** Any other record is served from where it was. */
  lemma UnmovedRecord(st: AuthStore, st': AuthStore, account: string, kind: FactKind, id: string)
    requires OwnScopes(st') && NoSharedIds(st')
    requires forall a | a != account :: st'.Rows(a) == st.Rows(a)
    requires Last(st'.Rows(account), kind, id).None? && account !in st.Scoped()
    requires forall a :: a in st'.Scoped() <==> a in st.Scoped() || a == account
    ensures LastScope(st', Names(st'.Scoped()), kind, id) == LastScope(st, Names(st.Scoped()), kind, id)
    ensures LastScope(st, Names(st.Scoped()), kind, id) != Some(account)
  {
    hide CatalogOf, Names, Last, LastScope;
    LastScopeOf(st, Names(st.Scoped()), kind, id);
    var b := LastScope(st, Names(st.Scoped()), kind, id);
    if b.Some? {
      OneScope(st', Names(st'.Scoped()), kind, id, b.value);
    } else {
      NoScope(st', Names(st'.Scoped()), kind, id);
    }
  }

  lemma HoldsOwn(st: AuthStore)
    requires StoreHolds(st)
    ensures OwnScopes(st)
  {
  }

  lemma LegacyFolded(st: AuthStore)
    ensures Folded(RebuildLegacy(st))
  {
    FoldIsFolded(st.legacy);
  }

  /** Moving an account changes no account's current projection. */
  lemma MoveKeeps(st: AuthStore, st': AuthStore, account: string)
    requires StoreHolds(st) && NoSharedIds(st) && Moved(st, st', account)
    ensures RebuildCurrent(st') == RebuildCurrent(st)
  {
    hide RebuildCurrent, CurrentValue, Moved, NoSharedIds, LogHolds;
    MoveStores(st, st', account);
    forall kind, id
      ensures RebuildCurrent(st').Lookup(kind, id) == RebuildCurrent(st).Lookup(kind, id)
    {
      CurrentLookup(st, kind, id);
      CurrentLookup(st', kind, id);
      MoveKeepsAt(st, st', account, kind, id);
    }
    SameRecords(RebuildCurrent(st'), RebuildCurrent(st));
  }

  // ---- every run -----------------------------------------------------------------------------------

  /** What one custody command makes of each standing. */
  lemma DirectStandings(st: AuthStore, account: string, c: Command, a: string)
    requires StoreHolds(st) && Clean(account)
    ensures var custody := Submit(st.custody, account, c);
            var s, s' := st.StandingOf(a), StandingIn(CatalogOf(custody), a);
            && LogHolds(EventsOf(custody, a))
            && (a != account ==> s' == s)
            && (s.ReadsAccountScope() ==> s'.ReadsAccountScope())
            && (a == account ==>
                  (!s.ReadsAccountScope() && s'.ReadsAccountScope() <==> c.BeginMigration? && custody != st.custody))
            && (!s.ReadsAccountScope() ==> s'.MayAuthenticate())
            && (!s.MayAuthenticate() ==> !s'.MayAuthenticate())
  {
    hide CatalogOf, Admit, LogHolds, EventsOf, Submit, Trim, OwnScopes;
    var custody := Submit(st.custody, account, c);
    DirectStanding(st.custody, account, c, a);
    CatalogIsPerAccount(st.custody, a);
    CatalogIsPerAccount(custody, a);
    UnmovedMaySignIn(st, a);
    if a == account {
      StandingMoves(EventsOf(st.custody, a), c);
      DirectWrites(st.custody, account, c);
    }
  }

  lemma DirectWrites(custody: seq<CustodyRecord>, account: string, c: Command)
    requires Clean(account)
    ensures Submit(custody, account, c) != custody
       <==> Admit(EventsOf(custody, account), c) != EventsOf(custody, account)
  {
    hide Decide, EvolveAll, Trim, CatalogOf;
    CatalogIsPerAccount(custody, account);
    DirectStanding(custody, account, c, account);
    var d := Decide(StandingIn(CatalogOf(custody), account), c);
    if d.Ok? && d.value == [] {
      assert Submit(custody, account, c) == custody;
    }
  }

  lemma DirectHolds(st: AuthStore, account: string, c: Command)
    requires StoreHolds(st) && Clean(account)
    ensures StoreHolds(Next(st, Direct(account, c)))
  {
    hide CatalogOf, LogHolds, EventsOf, Submit, Trim, FactsFor;
    var st' := Next(st, Direct(account, c));
    forall a
      ensures LogHolds(EventsOf(st'.custody, a))
      ensures st'.Rows(a) != [] ==> st'.StandingOf(a).ReadsAccountScope()
    {
      DirectStandings(st, account, c, a);
    }
    if c.BeginMigration? && Submit(st.custody, account, c) != st.custody {
      DirectStandings(st, account, c, account);
      forall a | a != account
        ensures st'.StandingOf(a) == st.StandingOf(a)
      {
        DirectStandings(st, account, c, a);
      }
      MoveStores(st, st', account);
    } else {
      assert forall a :: st'.Rows(a) == st.Rows(a);
    }
  }

  lemma NextHolds(st: AuthStore, step: Step)
    requires StoreHolds(st) && Named(step)
    ensures StoreHolds(Next(st, step))
  {
    hide StoreHolds, PutAll, Submit;
    match step {
      case Write(facts) => WriteHolds(st, facts);
      case Direct(account, c) => DirectHolds(st, account, c);
    }
  }

  lemma NextStores(st: AuthStore, step: Step, f: Fact)
    requires Stored(st, f)
    ensures Stored(Next(st, step), f)
  {
    hide CatalogOf, PutAll, FactsFor, Submit;
    match step {
      case Write(facts) => PutAllStores(st, facts, f);
      case Direct(account, c) =>
        if f !in st.legacy {
          var a :| f in st.Rows(a);
          assert f in Next(st, step).Rows(a);
        }
    }
  }

  lemma {:induction false} PutAllStores(st: AuthStore, facts: seq<Fact>, f: Fact)
    requires Stored(st, f)
    ensures Stored(PutAll(st, facts), f)
    decreases |facts|
  {
    hide Put, Stored;
    if facts != [] {
      PutAllStores(st, facts[..|facts| - 1], f);
      PutStores(PutAll(st, facts[..|facts| - 1]), facts[|facts| - 1], f);
    }
  }

  lemma UnsharedEarlier(st: AuthStore, step: Step)
    requires NoSharedIds(Next(st, step))
    ensures NoSharedIds(st)
  {
    hide Next, Stored;
    forall f, g | Stored(st, f) && Stored(st, g)
      ensures f.Kind() == g.Kind() && f.Id() == g.Id() ==> f.Account() == g.Account()
    {
      NextStores(st, step, f);
      NextStores(st, step, g);
    }
  }

  ghost function Abstract(st: AuthStore): Memory {
    Memory(RebuildCurrent(st), st.custody)
  }

  lemma WriteRefines(st: AuthStore, facts: seq<Fact>)
    requires StoreHolds(st) && NoSharedIds(Next(st, Write(facts)))
    ensures Abstract(Next(st, Write(facts))) == Remember(Abstract(st), Write(facts))
  {
    hide CatalogOf, RebuildCurrent, PutAll, ApplyAll, LogHolds;
    if AppendFacts(st, facts).Some? {
      AppendRefines(st, facts);
      PutAllKeeps(st, facts);
    }
  }

  lemma DirectRefines(st: AuthStore, account: string, c: Command)
    requires StoreHolds(st) && NoSharedIds(st) && Clean(account)
    ensures Abstract(Next(st, Direct(account, c))) == Remember(Abstract(st), Direct(account, c))
  {
    hide CatalogOf, RebuildCurrent, Submit, LogHolds, EventsOf, FactsFor, Trim, NoSharedIds, Remove, OwnScopes;
    var st' := Next(st, Direct(account, c));
    forall a
      ensures a != account ==> st'.StandingOf(a) == st.StandingOf(a)
    {
      DirectStandings(st, account, c, a);
    }
    DirectStandings(st, account, c, account);
    UnmovedMaySignIn(st, account);
    if c.BeginMigration? && Submit(st.custody, account, c) != st.custody {
      MoveKeeps(st, st', account);
    } else {
      FenceTakesOut(st, st', account);
    }
  }

  lemma NextRefines(st: AuthStore, step: Step)
    requires StoreHolds(st) && Named(step) && NoSharedIds(Next(st, step))
    ensures Abstract(Next(st, step)) == Remember(Abstract(st), step)
  {
    hide StoreHolds, Next, Remember, Abstract, NoSharedIds;
    match step {
      case Write(facts) => WriteRefines(st, facts);
      case Direct(account, c) =>
        UnsharedEarlier(st, step);
        DirectRefines(st, account, c);
    }
  }

  lemma {:induction false} RunRefines(st: AuthStore, steps: seq<Step>)
    requires StoreHolds(st) && (forall s | s in steps :: Named(s)) && NoSharedIds(Exec(st, steps))
    ensures StoreHolds(Exec(st, steps))
    ensures Abstract(Exec(st, steps)) == RememberAll(Abstract(st), steps)
    decreases |steps|
  {
    hide StoreHolds, Next, Remember, Abstract, NoSharedIds, Named;
    if steps != [] {
      var before, last := steps[..|steps| - 1], steps[|steps| - 1];
      assert last in steps;
      UnsharedEarlier(Exec(st, before), last);
      RunRefines(st, before);
      NextHolds(Exec(st, before), last);
      NextRefines(Exec(st, before), last);
    }
  }

  lemma EmptyStoreHolds()
    ensures StoreHolds(EmptyStore)
    ensures Abstract(EmptyStore) == Memory(Empty, [])
  {
    EmptyHolds();
    assert EmptyStore.Scoped() == {};
    assert Names({}) == [];
  }

  /** From an empty store, whatever is written and whichever accounts move or are erased
      meanwhile, the full read is the one projection the same run keeps in memory and the
      read for one account is that account's part of it. */
  lemma StoreIsMemory(steps: seq<Step>, account: string)
    requires (forall s | s in steps :: Named(s)) && NoSharedIds(Exec(EmptyStore, steps))
    ensures RebuildCurrent(Exec(EmptyStore, steps)) == RememberAll(Memory(Empty, []), steps).auth
    ensures RebuildFor(Exec(EmptyStore, steps), account) == Retain(RememberAll(Memory(Empty, []), steps).auth, account)
  {
    hide RebuildCurrent, RebuildFor, Retain, NoSharedIds, Exec, RememberAll, LogHolds;
    EmptyStoreHolds();
    RunRefines(EmptyStore, steps);
    NarrowIsFull(Exec(EmptyStore, steps), account);
  }

  // ---- and never back --------------------------------------------------------------------------------

  lemma NextStaysMoved(st: AuthStore, step: Step, account: string)
    requires StoreHolds(st) && Named(step) && account in st.Scoped()
    ensures account in Next(st, step).Scoped()
    ensures forall f | f in Next(st, step).legacy && f.Account() == Some(account) :: f in st.legacy
  {
    hide CatalogOf, PutAll, Submit, LogHolds, EventsOf, FactsFor, Trim, OwnScopes;
    ScopedIs(st, account);
    ScopedIs(Next(st, step), account);
    match step {
      case Write(facts) =>
        NothingToLegacy(st, facts, account);
        PutAllKeeps(st, facts);
      case Direct(a, c) => DirectStandings(st, a, c, account);
    }
  }

  /** Once an account's migration has started nothing of it reaches the legacy scope, in
      any run. */
  lemma {:induction false} NeverLegacyAgain(st: AuthStore, steps: seq<Step>, account: string)
    requires StoreHolds(st) && (forall s | s in steps :: Named(s)) && account in st.Scoped()
    ensures StoreHolds(Exec(st, steps)) && account in Exec(st, steps).Scoped()
    ensures forall f | f in Exec(st, steps).legacy && f.Account() == Some(account) :: f in st.legacy
    decreases |steps|
  {
    hide StoreHolds, Next, Named, CatalogOf;
    if steps != [] {
      var before, last := steps[..|steps| - 1], steps[|steps| - 1];
      assert last in steps;
      NeverLegacyAgain(st, before, account);
      NextHolds(Exec(st, before), last);
      NextStaysMoved(Exec(st, before), last, account);
    }
  }

  // ---- where an id is shared ------------------------------------------------------------------------

  /** An address one account let go, recorded by another still in the legacy scope: once
      the first has moved, its old row hides the new record from the full read, while the
      read for the new holder still gives it. */
  lemma ReleasedIdSplitsTheReads(st: AuthStore, f: Fact, holder: string, former: string)
    requires OwnScopes(st) && f.Op() == Upsert && f.Account() == Some(holder) && holder !in st.Scoped()
    requires former in st.Scoped() && Last(st.Rows(former), f.Kind(), f.Id()).Some?
    ensures RebuildFor(Put(st, f), holder).Lookup(f.Kind(), f.Id()) == Some(f)
    ensures RebuildFor(Put(st, f), holder) != Retain(RebuildCurrent(Put(st, f)), holder)
  {
    hide CatalogOf, RebuildCurrent, Last, RebuildLegacy, RebuildFor, Retain, AccountAuth.Lookup;
    var st' := Put(st, f);
    PutStores(st, f, f);
    ScopedIs(st, holder);
    LastSnoc(st.legacy, f, f.Kind(), f.Id());
    LegacyLookup(st', f.Kind(), f.Id());
    NarrowLookup(st', holder, f.Kind(), f.Id());
    assert former in st'.Scoped() && Last(st'.Rows(former), f.Kind(), f.Id()).Some?;
    assert Overridden(st', holder, f.Kind(), f.Id());
    NarrowIffNotOverridden(st', holder);
  }

  /** One fact, written. */
  lemma OneWrite(st: AuthStore, f: Fact)
    requires !PastFence(st, f)
    ensures Next(st, Write([f])) == Put(st, f)
  {
    assert [f][..0] == [];
    assert PutAll(st, [f]) == Put(PutAll(st, []), f);
  }

  /** An account that began to move before anything was written. */
  lemma BegunFirst(former: string, operation: string, basis: string, other: string)
    requires Clean(former) && !Blank(operation) && !Blank(basis) && other != former
    ensures var st := Next(EmptyStore, Direct(former, BeginMigration(operation, basis)));
            && StoreHolds(st) && former in st.Scoped() && other !in st.Scoped()
            && st.StandingOf(former).MayAuthenticate() && st.StandingOf(other).MayAuthenticate()
            && forall a | a != former :: st.Rows(a) == []
  {
    hide CatalogOf, Submit, LogHolds, EventsOf, Trim, FactsFor, OwnScopes;
    var c := BeginMigration(operation, basis);
    var st := Next(EmptyStore, Direct(former, c));
    EmptyStoreHolds();
    BeginIsAdmitted(operation, basis);
    NothingYet(former);
    DirectWrites([], former, c);
    DirectStandings(EmptyStore, former, c, former);
    DirectStandings(EmptyStore, former, c, other);
    NoneScoped(other);
    NoneScoped(former);
    ScopedIs(st, former);
    ScopedIs(st, other);
    NextHolds(EmptyStore, Direct(former, c));
  }

  lemma BeginIsAdmitted(operation: string, basis: string)
    requires !Blank(operation) && !Blank(basis)
    ensures Admit([], BeginMigration(operation, basis)) != []
  {
    hide Trim;
  }

  lemma NothingYet(account: string)
    ensures EventsOf([], account) == []
  {
  }

  lemma NoneScoped(account: string)
    ensures !EmptyStore.StandingOf(account).ReadsAccountScope()
  {
  }

  /** Such a store is reached from the empty one: an account begins to move, verifies an
      address and lets it go; the decision to record it for another account that has not
      moved is then admitted, and once that is written the two reads differ. */
  lemma ReleasedIdIsReached(former: string, holder: string, operation: string, basis: string, first: EmailRecord,
                            second: EmailRecord)
    requires Clean(former) && !Blank(operation) && !Blank(basis) && holder != former
    requires first.op == Upsert && first.account == former
    requires second.op == Upsert && second.account == holder && second.id == first.id
    ensures var begun := Next(EmptyStore, Direct(former, BeginMigration(operation, basis)));
            var released := Next(Next(begun, Write([Email(first)])), Write([Email(first.(status := Revoked))]));
            var end := Next(released, Write([Email(second)]));
            && AuthMethods.DecideVerifyEmail(RebuildCurrent(released), second) == Ok([Email(second)])
            && RebuildFor(end, holder).Lookup(EmailKind, second.id) == Some(Email(second))
            && RebuildFor(end, holder) != Retain(RebuildCurrent(end), holder)
  {
    hide Next, RebuildCurrent, RebuildFor, Retain, CatalogOf, Last, OwnScopes;
    var begun := Next(EmptyStore, Direct(former, BeginMigration(operation, basis)));
    BegunFirst(former, operation, basis, holder);
    var gone := Email(first.(status := Revoked));
    OneWrite(begun, Email(first));
    var written := Next(begun, Write([Email(first)]));
    PutStores(begun, Email(first), gone);
    OneWrite(written, gone);
    var released := Next(written, Write([gone]));
    PutStores(written, gone, gone);
    LastSnoc(written.Rows(former), gone, EmailKind, first.id);
    forall a | a != former
      ensures released.Rows(a) == []
    {
      assert begun.Rows(a) == [];
    }
    OnlyScope(released, former, EmailKind, first.id);
    OneWrite(released, Email(second));
    ReleasedIdSplitsTheReads(released, Email(second), holder, former);
  }

  /** What three admitted custody commands leave of a standing: moved, and fenced. */
  lemma FencedAfterThree(custody: seq<CustodyRecord>, former: string, ids: Ids)
    requires Clean(former) && CleanIds(ids)
    requires EventsOf(custody, former) == Log(CommandsFor(ids, [Started, Completed, Fence]))
    ensures !StandingIn(CatalogOf(custody), former).MayAuthenticate()
  {
    hide CatalogOf, EvolveAll, Decide, Log, CommandsFor, EventsOf, Kinds;
    var kinds := [Started, Completed, Fence];
    FirstThreeLegal();
    EveryLegalOrder(ids, kinds);
    CatalogIsPerAccount(custody, former);
    FencedForever(CommandsFor(ids, kinds), []);
  }

  lemma FirstThreeLegal()
    ensures Legal([Started, Completed, Fence])
  {
    var kinds := [Started, Completed, Fence];
    assert kinds[..1] == [Started] && kinds[..2] == [Started, Completed];
    assert SetOf([Started]) == {Started} && SetOf([Started, Completed]) == {Started, Completed};
  }

  lemma CommandsSnoc(ids: Ids, kinds: seq<Kind>, k: Kind)
    ensures CommandsFor(ids, kinds + [k]) == CommandsFor(ids, kinds) + [CommandFor(ids, k)]
    ensures Log(CommandsFor(ids, kinds + [k])) == Admit(Log(CommandsFor(ids, kinds)), CommandFor(ids, k))
  {
    hide Admit, CommandFor;
    assert (kinds + [k])[..|kinds|] == kinds;
    var before := CommandsFor(ids, kinds);
    assert (before + [CommandFor(ids, k)])[..|before|] == before;
  }

  lemma ThreeCommands(ids: Ids)
    ensures Log(CommandsFor(ids, [Started, Completed, Fence]))
         == Admit(Admit(Admit([], CommandFor(ids, Started)), CommandFor(ids, Completed)), CommandFor(ids, Fence))
  {
    hide Admit, CommandFor, CommandsFor, Log;
    NoCommands(ids);
    CommandsSnoc(ids, [], Started);
    CommandsSnoc(ids, [Started], Completed);
    CommandsSnoc(ids, [Started, Completed], Fence);
    assert [] + [Started] == [Started] && [Started] + [Completed] == [Started, Completed];
    assert [Started, Completed] + [Fence] == [Started, Completed, Fence];
  }

  lemma NoCommands(ids: Ids)
    ensures Log(CommandsFor(ids, [])) == []
  {
  }

  /** A custody command other than the start of a migration writes the custody log only. */
  lemma OnlyCustody(st: AuthStore, account: string, c: Command, a: string)
    requires StoreHolds(st) && Clean(account) && !c.BeginMigration?
    ensures var st' := Next(st, Direct(account, c));
            && StoreHolds(st') && st'.legacy == st.legacy && st'.scopes == st.scopes
            && EventsOf(st'.custody, account) == Admit(EventsOf(st.custody, account), c)
            && (a in st.Scoped() ==> a in st'.Scoped())
            && (a != account ==> st'.StandingOf(a) == st.StandingOf(a) && (a in st'.Scoped() ==> a in st.Scoped()))
  {
    hide CatalogOf, LogHolds, EventsOf, Submit, Admit, Trim, OwnScopes;
    NextHolds(st, Direct(account, c));
    DirectStanding(st.custody, account, c, account);
    DirectStandings(st, account, c, a);
    ScopedIs(st, a);
    ScopedIs(Next(st, Direct(account, c)), a);
  }

  /** The store an erased account leaves: it began to move, verified an address, finished
      moving and was fenced. */
  ghost function Erased(former: string, ids: Ids, first: EmailRecord): AuthStore {
    var begun := Next(EmptyStore, Direct(former, CommandFor(ids, Started)));
    var written := Next(begun, Write([Email(first)]));
    Next(Next(written, Direct(former, CommandFor(ids, Completed))), Direct(former, CommandFor(ids, Fence)))
  }

  lemma ErasedStore(former: string, holder: string, ids: Ids, first: EmailRecord)
    requires Clean(former) && CleanIds(ids) && holder != former && first.op == Upsert && first.account == former
    ensures var st := Erased(former, ids, first);
            && OwnScopes(st) && former in st.Scoped() && holder !in st.Scoped()
            && !st.StandingOf(former).MayAuthenticate() && st.StandingOf(holder).MayAuthenticate()
            && st.legacy == [] && Last(st.Rows(former), EmailKind, first.id) == Some(Email(first))
            && forall a | a != former :: st.Rows(a) == []
  {
    hide Next, CatalogOf, Last, EventsOf, Admit, StoreHolds, CommandFor, Log, Trim;
    var begin := CommandFor(ids, Started);
    BeginsWith(former, ids, holder);
    var begun := Next(EmptyStore, Direct(former, begin));
    OneWrite(begun, Email(first));
    var written := Next(begun, Write([Email(first)]));
    WriteKeepsHolds(begun, Email(first));
    LastSnoc(begun.Rows(former), Email(first), EmailKind, first.id);
    OnlyCustody(written, former, CommandFor(ids, Completed), former);
    OnlyCustody(written, former, CommandFor(ids, Completed), holder);
    var moved := Next(written, Direct(former, CommandFor(ids, Completed)));
    OnlyCustody(moved, former, CommandFor(ids, Fence), former);
    OnlyCustody(moved, former, CommandFor(ids, Fence), holder);
    var st := Next(moved, Direct(former, CommandFor(ids, Fence)));
    ThreeCommands(ids);
    FencedAfterThree(st.custody, former, ids);
    HoldsOwn(st);
    forall a | a != former
      ensures st.Rows(a) == []
    {
      assert begun.Rows(a) == [];
    }
  }

  lemma WriteKeepsHolds(st: AuthStore, f: Fact)
    requires StoreHolds(st)
    ensures StoreHolds(Put(st, f))
  {
    hide CatalogOf, LogHolds, EventsOf;
    WriteHolds(st, [f]);
    assert [f][..0] == [];
    assert PutAll(st, [f]) == Put(PutAll(st, []), f);
  }

  lemma BeginsWith(former: string, ids: Ids, other: string)
    requires Clean(former) && CleanIds(ids) && other != former
    ensures !CommandFor(ids, Completed).BeginMigration? && !CommandFor(ids, Fence).BeginMigration?
    ensures var st := Next(EmptyStore, Direct(former, CommandFor(ids, Started)));
            && StoreHolds(st) && former in st.Scoped() && other !in st.Scoped()
            && st.StandingOf(former).MayAuthenticate() && st.StandingOf(other).MayAuthenticate()
            && EventsOf(st.custody, former) == Admit([], CommandFor(ids, Started))
            && st.legacy == [] && forall a | a != former :: st.Rows(a) == []
  {
    hide CatalogOf, EventsOf, Admit, Submit, StoreHolds, FactsFor, Trim;
    BegunFirst(former, ids.move, ids.basis, other);
    DirectStanding([], former, CommandFor(ids, Started), former);
    NothingYet(former);
  }

  /** The same split is reached with nothing ever let go: an account that moved is erased,
      its address is free to be verified for another that has not moved, and once that is
      written the full read does not give the new record while the read for its holder does. */
  lemma ErasedIdIsReached(former: string, holder: string, ids: Ids, first: EmailRecord, second: EmailRecord)
    requires Clean(former) && CleanIds(ids) && holder != former
    requires first.op == Upsert && first.account == former
    requires second.op == Upsert && second.account == holder && second.id == first.id
    ensures var st := Erased(former, ids, first);
            var end := Next(st, Write([Email(second)]));
            && AuthMethods.DecideVerifyEmail(RebuildCurrent(st), second) == Ok([Email(second)])
            && RebuildFor(end, holder).Lookup(EmailKind, second.id) == Some(Email(second))
            && RebuildCurrent(end).Lookup(EmailKind, second.id) == None
  {
    hide Next, RebuildCurrent, RebuildFor, Retain, CatalogOf, Last, OwnScopes, Erased;
    var st := Erased(former, ids, first);
    ErasedStore(former, holder, ids, first);
    FencedScope(st, former, EmailKind, first.id);
    OneWrite(st, Email(second));
    var end := Next(st, Write([Email(second)]));
    ReleasedIdSplitsTheReads(st, Email(second), holder, former);
    PutStores(st, Email(second), Email(second));
    forall a
      ensures end.Rows(a) == st.Rows(a)
    {
      assert end.scopes == st.scopes;
    }
    FencedScope(end, former, EmailKind, first.id);
  }

  /** A record that only a fenced account's scope has a row for is not given. */
  lemma FencedScope(st: AuthStore, account: string, kind: FactKind, id: string)
    requires OwnScopes(st) && account in st.Scoped() && !st.StandingOf(account).MayAuthenticate()
    requires Last(st.Rows(account), kind, id).Some? && forall a | a != account :: st.Rows(a) == []
    ensures RebuildCurrent(st).Lookup(kind, id) == None
  {
    hide RebuildCurrent, CatalogOf, Names, OwnScopes, RebuildLegacy, AccountAuth.Lookup;
    CurrentLookup(st, kind, id);
    LastScopeOf(st, Names(st.Scoped()), kind, id);
  }

  /** A record that only one account's scope has a row for. */
  lemma OnlyScope(st: AuthStore, account: string, kind: FactKind, id: string)
    requires OwnScopes(st) && account in st.Scoped() && st.StandingOf(account).MayAuthenticate()
    requires Last(st.Rows(account), kind, id).Some? && forall a | a != account :: st.Rows(a) == []
    ensures RebuildCurrent(st).Lookup(kind, id) == Live(Last(st.Rows(account), kind, id).value)
  {
    hide RebuildCurrent, CatalogOf, Names, OwnScopes, RebuildLegacy, AccountAuth.Lookup;
    CurrentLookup(st, kind, id);
    LastScopeOf(st, Names(st.Scoped()), kind, id);
  }
}
