/** The current authentication projection while accounts move from the shared legacy scope
    into scopes of their own: the full read, the read for one account, routed writes and
    the copy that moves an account. */
module AuthProjection {
  import opened Base
  import opened Order
  import opened AuthData
  import opened Custody
  import opened CustodyCatalog

  /** The store: the legacy scope's rows, each account scope's rows, and the custody log. */
  datatype AuthStore = AuthStore(legacy: seq<Fact>, scopes: map<string, seq<Fact>>, custody: seq<CustodyRecord>) {
    function Rows(account: string): seq<Fact> {
      if account in scopes then scopes[account] else []
    }

    function StandingOf(account: string): Standing {
      StandingIn(CatalogOf(custody), account)
    }

    /** The accounts whose own scope is authoritative. */
    function Scoped(): set<string> {
      set a | a in CatalogOf(custody) && StandingOf(a).ReadsAccountScope()
    }
  }

  // ---- reading --------------------------------------------------------------------------------

  function RemoveEach(s: AccountAuth, accounts: seq<string>): AccountAuth {
    if accounts == [] then s else Remove(RemoveEach(s, accounts[..|accounts| - 1]), accounts[|accounts| - 1])
  }

  function FoldScopes(s: AccountAuth, st: AuthStore, accounts: seq<string>): AccountAuth {
    if accounts == [] then s
    else ApplyAll(FoldScopes(s, st, accounts[..|accounts| - 1]), st.Rows(accounts[|accounts| - 1]))
  }

  function RemoveFenced(s: AccountAuth, st: AuthStore, accounts: seq<string>): AccountAuth {
    if accounts == [] then s
    else
      var before := RemoveFenced(s, st, accounts[..|accounts| - 1]);
      if st.StandingOf(accounts[|accounts| - 1]).MayAuthenticate() then before
      else Remove(before, accounts[|accounts| - 1])
  }

  function RebuildLegacy(st: AuthStore): AccountAuth {
    ApplyAll(Empty, st.legacy)
  }

  /** Everything current: legacy truth without the accounts that moved, then each moved
      account's own scope, then no account past its erasure fence. */
  function RebuildCurrent(st: AuthStore): AccountAuth {
    var scoped := Names(st.Scoped());
    RemoveFenced(FoldScopes(RemoveEach(RebuildLegacy(st), scoped), st, scoped), st, scoped)
  }

  /** The same for one account, read in proportion to that account. */
  function RebuildFor(st: AuthStore, account: string): AccountAuth {
    var standing := st.StandingOf(account);
    if standing.ReadsAccountScope() then
      if standing.MayAuthenticate() then Retain(ApplyAll(Empty, st.Rows(account)), account) else Retain(Empty, account)
    else Retain(RebuildLegacy(st), account)
  }

  // ---- one record through the full read -----------------------------------------------------------

  function AccountOf(v: Option<Fact>): Option<string> {
    if v.Some? then v.value.Account() else None
  }

  ghost predicate OfOne(v: Option<Fact>, accounts: seq<string>) {
    v.Some? && v.value.Account().Some? && v.value.Account().value in accounts
  }

  lemma {:induction false} RemoveEachLookup(s: AccountAuth, accounts: seq<string>, kind: FactKind, id: string)
    ensures RemoveEach(s, accounts).Lookup(kind, id)
         == KeepIf(s.Lookup(kind, id), !OfOne(s.Lookup(kind, id), accounts))
    decreases |accounts|
  {
    hide Remove, AccountAuth.Lookup;
    if accounts != [] {
      var before := accounts[..|accounts| - 1];
      RemoveEachLookup(s, before, kind, id);
      RemoveLookup(RemoveEach(s, before), accounts[|accounts| - 1], kind, id);
      assert accounts == before + [accounts[|accounts| - 1]];
    }
  }

  /** The last listed account whose scope has a row of one kind and id. */
  function LastScope(st: AuthStore, accounts: seq<string>, kind: FactKind, id: string): Option<string> {
    if accounts == [] then None
    else if Last(st.Rows(accounts[|accounts| - 1]), kind, id).Some? then Some(accounts[|accounts| - 1])
    else LastScope(st, accounts[..|accounts| - 1], kind, id)
  }

  lemma {:induction false} LastScopeOf(st: AuthStore, accounts: seq<string>, kind: FactKind, id: string)
    ensures var b := LastScope(st, accounts, kind, id);
            if b.Some? then b.value in accounts && Last(st.Rows(b.value), kind, id).Some?
            else forall a | a in accounts :: Last(st.Rows(a), kind, id).None?
    decreases |accounts|
  {
    if accounts != [] {
      LastScopeOf(st, accounts[..|accounts| - 1], kind, id);
      assert accounts == accounts[..|accounts| - 1] + [accounts[|accounts| - 1]];
    }
  }

  lemma {:induction false} FoldScopesLookup(s: AccountAuth, st: AuthStore, accounts: seq<string>,
                                            kind: FactKind, id: string)
    ensures var b := LastScope(st, accounts, kind, id);
            b.Some? ==> b.value in accounts && Last(st.Rows(b.value), kind, id).Some?
    ensures var b := LastScope(st, accounts, kind, id);
            FoldScopes(s, st, accounts).Lookup(kind, id)
            == if b.Some? then Live(Last(st.Rows(b.value), kind, id).value) else s.Lookup(kind, id)
    decreases |accounts|
  {
    hide ApplyAll, AccountAuth.Lookup, Last, Live;
    LastScopeOf(st, accounts, kind, id);
    if accounts != [] {
      var before := accounts[..|accounts| - 1];
      FoldScopesLookup(s, st, before, kind, id);
      LatestWins(FoldScopes(s, st, before), st.Rows(accounts[|accounts| - 1]), kind, id);
    }
  }

  lemma {:induction false} RemoveFencedLookup(s: AccountAuth, st: AuthStore, accounts: seq<string>,
                                              kind: FactKind, id: string)
    ensures RemoveFenced(s, st, accounts).Lookup(kind, id)
         == KeepIf(s.Lookup(kind, id),
                   !(OfOne(s.Lookup(kind, id), accounts)
                     && !st.StandingOf(s.Lookup(kind, id).value.Account().value).MayAuthenticate()))
    decreases |accounts|
  {
    hide Remove, AccountAuth.Lookup, CatalogOf;
    if accounts != [] {
      var before := accounts[..|accounts| - 1];
      RemoveFencedLookup(s, st, before, kind, id);
      RemoveLookup(RemoveFenced(s, st, before), accounts[|accounts| - 1], kind, id);
      assert accounts == before + [accounts[|accounts| - 1]];
    }
  }

  /** Each account's scope holds that account's facts only. */
  ghost predicate OwnScopes(st: AuthStore) {
    forall a, f | f in st.Rows(a) :: f.Account() == Some(a)
  }

  /** The last scope in listing order that has a row decides; failing one, the legacy
      scope does, for accounts that have not moved. */
  ghost function CurrentValue(st: AuthStore, kind: FactKind, id: string): Option<Fact> {
    var b := LastScope(st, Names(st.Scoped()), kind, id);
    if b.Some? then
      if Last(st.Rows(b.value), kind, id).Some? && st.StandingOf(b.value).MayAuthenticate()
      then Live(Last(st.Rows(b.value), kind, id).value) else None
    else
      var v := RebuildLegacy(st).Lookup(kind, id);
      if v.Some? && v.value.Account().Some? && v.value.Account().value in st.Scoped() then None else v
  }

  lemma CurrentLookup(st: AuthStore, kind: FactKind, id: string)
    requires OwnScopes(st)
    ensures RebuildCurrent(st).Lookup(kind, id) == CurrentValue(st, kind, id)
  {
    hide Names, RemoveEach, FoldScopes, RemoveFenced, RebuildLegacy, AccountAuth.Lookup, Last, CatalogOf, LastScope;
    var scoped := Names(st.Scoped());
    var legacy := RebuildLegacy(st);
    RemoveEachLookup(legacy, scoped, kind, id);
    FoldScopesLookup(RemoveEach(legacy, scoped), st, scoped, kind, id);
    RemoveFencedLookup(FoldScopes(RemoveEach(legacy, scoped), st, scoped), st, scoped, kind, id);
    var b := LastScope(st, scoped, kind, id);
    if b.Some? {
      LastOf(st.Rows(b.value), kind, id);
    }
  }

  // ---- the narrow read ----------------------------------------------------------------------------

  /** The last row of a kind and id is a live record of the account's. */
  ghost predicate LiveRow(rows: seq<Fact>, account: string, kind: FactKind, id: string) {
    var last := Last(rows, kind, id);
    last.Some? && Live(last.value).Some? && last.value.Account() == Some(account)
  }

  /** The scope the account is read from ends in a live row of its own under the id, and a
      scope folded later has a row there too: any scope for an account still in the legacy
      one, a later-named scope otherwise. */
  ghost predicate Overridden(st: AuthStore, account: string, kind: FactKind, id: string) {
    var standing := st.StandingOf(account);
    && (if standing.ReadsAccountScope() then standing.MayAuthenticate() && LiveRow(st.Rows(account), account, kind, id)
        else LiveRow(st.legacy, account, kind, id))
    && exists b | b in st.Scoped() && b != account ::
         Last(st.Rows(b), kind, id).Some? && (standing.ReadsAccountScope() ==> Less(account, b))
  }

  ghost function NarrowValue(st: AuthStore, account: string, kind: FactKind, id: string): Option<Fact> {
    var standing := st.StandingOf(account);
    if standing.ReadsAccountScope() then
      if standing.MayAuthenticate() && Last(st.Rows(account), kind, id).Some?
      then Live(Last(st.Rows(account), kind, id).value) else None
    else
      var v := RebuildLegacy(st).Lookup(kind, id);
      KeepIf(v, AccountOf(v) == Some(account))
  }

  lemma NarrowLookup(st: AuthStore, account: string, kind: FactKind, id: string)
    requires OwnScopes(st)
    ensures RebuildFor(st, account).Lookup(kind, id) == NarrowValue(st, account, kind, id)
  {
    hide Retain, RebuildLegacy, ApplyAll, Last, CatalogOf;
    var standing := st.StandingOf(account);
    if standing.ReadsAccountScope() {
      if standing.MayAuthenticate() {
        RetainLookup(ApplyAll(Empty, st.Rows(account)), account, kind, id);
        LatestWins(Empty, st.Rows(account), kind, id);
        LastOf(st.Rows(account), kind, id);
      } else {
        RetainLookup(Empty, account, kind, id);
      }
    } else {
      RetainLookup(RebuildLegacy(st), account, kind, id);
    }
  }

  lemma LegacyLookup(st: AuthStore, kind: FactKind, id: string)
    ensures RebuildLegacy(st).Lookup(kind, id)
         == if Last(st.legacy, kind, id).Some? then Live(Last(st.legacy, kind, id).value) else None
    ensures Last(st.legacy, kind, id).Some? ==>
              var f := Last(st.legacy, kind, id).value; f in st.legacy && f.Kind() == kind && f.Id() == id
  {
    hide ApplyAll, Last;
    LatestWins(Empty, st.legacy, kind, id);
    LastOf(st.legacy, kind, id);
  }

  /** The narrow read finds a record just where the rows it reads end in a live one. */
  lemma NarrowFinds(st: AuthStore, account: string, kind: FactKind, id: string)
    requires OwnScopes(st)
    ensures NarrowValue(st, account, kind, id).Some?
       <==> var standing := st.StandingOf(account);
            if standing.ReadsAccountScope()
            then standing.MayAuthenticate() && LiveRow(st.Rows(account), account, kind, id)
            else LiveRow(st.legacy, account, kind, id)
  {
    hide RebuildLegacy, Last, CatalogOf, AccountAuth.Lookup;
    LastOf(st.Rows(account), kind, id);
    LegacyLookup(st, kind, id);
  }

  lemma {:induction false} LastScopeIsGreatest(st: AuthStore, accounts: seq<string>, kind: FactKind, id: string,
                                               c: string)
    requires forall i, j | 0 <= i < j < |accounts| :: Less(accounts[i], accounts[j])
    requires c in accounts && Last(st.Rows(c), kind, id).Some?
    ensures var b := LastScope(st, accounts, kind, id); b.Some? && (c == b.value || Less(c, b.value))
    decreases |accounts|
  {
    hide Less;
    var before, last := accounts[..|accounts| - 1], accounts[|accounts| - 1];
    assert accounts == before + [last];
    if LastScope(st, accounts, kind, id) != Some(last) {
      LastScopeIsGreatest(st, before, kind, id, c);
    }
  }

  /** At one record the two reads differ exactly when it is overridden. */
  lemma NarrowAgreesAt(st: AuthStore, account: string, kind: FactKind, id: string)
    requires OwnScopes(st)
    ensures RebuildFor(st, account).Lookup(kind, id) == Retain(RebuildCurrent(st), account).Lookup(kind, id)
       <==> !Overridden(st, account, kind, id)
  {
    hide Names, RebuildFor, RebuildCurrent, Retain, RebuildLegacy, Last, CatalogOf, LastScope, AccountAuth.Lookup;
    NarrowLookup(st, account, kind, id);
    NarrowFinds(st, account, kind, id);
    RetainLookup(RebuildCurrent(st), account, kind, id);
    CurrentLookup(st, kind, id);
    var scoped := Names(st.Scoped());
    LastScopeOf(st, scoped, kind, id);
    var b := LastScope(st, scoped, kind, id);
    if b.Some? {
      LastOf(st.Rows(b.value), kind, id);
      LastOf(st.Rows(account), kind, id);
      forall c | c in scoped && Last(st.Rows(c), kind, id).Some?
        ensures c == b.value || Less(c, b.value)
      {
        LastScopeIsGreatest(st, scoped, kind, id, c);
      }
      forall c
        ensures !(Less(account, c) && Less(c, account)) && !Less(account, account)
      {
        LessNotBack(account, c);
      }
      if NarrowValue(st, account, kind, id).Some? && b.value != account {
        assert b.value in st.Scoped() && Last(st.Rows(b.value), kind, id).Some?;
      }
    }
  }

  lemma LessNotBack(a: string, b: string)
    ensures !(Less(a, b) && Less(b, a))
    ensures !Less(a, a)
  {
    LessIrreflexive(a);
    if Less(a, b) && Less(b, a) {
      LessTrans(a, b, a);
    }
  }

  /** The narrow read is the full read's account, exactly when nothing of the account's is
      overridden by a row of another account under the same id. */
  lemma NarrowIffNotOverridden(st: AuthStore, account: string)
    requires OwnScopes(st)
    ensures RebuildFor(st, account) == Retain(RebuildCurrent(st), account)
       <==> forall kind, id :: !Overridden(st, account, kind, id)
  {
    hide RebuildFor, RebuildCurrent, Retain, Overridden;
    forall kind, id
      ensures RebuildFor(st, account).Lookup(kind, id) == Retain(RebuildCurrent(st), account).Lookup(kind, id)
         <==> !Overridden(st, account, kind, id)
    {
      NarrowAgreesAt(st, account, kind, id);
    }
    if forall kind, id :: !Overridden(st, account, kind, id) {
      SameRecords(RebuildFor(st, account), Retain(RebuildCurrent(st), account));
    }
  }

  /** A row of the store, wherever it is. */
  ghost predicate Stored(st: AuthStore, f: Fact) {
    f in st.legacy || exists a :: f in st.Rows(a)
  }

  /** No record id is used by two accounts. */
  ghost predicate NoSharedIds(st: AuthStore) {
    forall f, g | Stored(st, f) && Stored(st, g) ::
      f.Kind() == g.Kind() && f.Id() == g.Id() ==> f.Account() == g.Account()
  }

  lemma NarrowIsFull(st: AuthStore, account: string)
    requires OwnScopes(st) && NoSharedIds(st)
    ensures RebuildFor(st, account) == Retain(RebuildCurrent(st), account)
  {
    hide RebuildFor, RebuildCurrent, Retain;
    forall kind, id
      ensures !Overridden(st, account, kind, id)
    {
      NotOverridden(st, account, kind, id);
    }
    NarrowIffNotOverridden(st, account);
  }

  lemma NotOverridden(st: AuthStore, account: string, kind: FactKind, id: string)
    requires OwnScopes(st) && NoSharedIds(st)
    ensures !Overridden(st, account, kind, id)
  {
    hide RebuildFor, CatalogOf, Last, AccountAuth.Lookup;
    NarrowFinds(st, account, kind, id);
    LastOf(st.Rows(account), kind, id);
    LegacyLookup(st, kind, id);
    var v := NarrowValue(st, account, kind, id);
    if v.Some? {
      assert Stored(st, v.value);
      forall b | b != account
        ensures Last(st.Rows(b), kind, id).None?
      {
        SharesNothing(st, v.value, b, kind, id);
      }
    }
  }

  /** No other account's scope has a row under the id of an account's record. */
  lemma SharesNothing(st: AuthStore, f: Fact, b: string, kind: FactKind, id: string)
    requires OwnScopes(st) && NoSharedIds(st)
    requires Stored(st, f) && f.Kind() == kind && f.Id() == id && f.Account() != Some(b)
    ensures Last(st.Rows(b), kind, id).None?
  {
    hide Last;
    LastOf(st.Rows(b), kind, id);
    var g := Last(st.Rows(b), kind, id);
    assert g.Some? ==> Stored(st, g.value);
  }
}
