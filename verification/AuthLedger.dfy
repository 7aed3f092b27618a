/** The projection as it is built: eight maps filled in place, kind by kind, scope by scope;
    and the store as it is written. */
module AuthLedger {
  import opened Base
  import opened Order
  import opened AuthData
  import opened CustodyCatalog
  import opened AuthProjection
  import opened AuthMoves

  function OfKind(rows: seq<Fact>, kind: FactKind): seq<Fact> {
    if rows == [] then []
    else OfKind(rows[..|rows| - 1], kind) + (if rows[|rows| - 1].Kind() == kind then [rows[|rows| - 1]] else [])
  }

  function ByKind(rows: seq<Fact>, kinds: seq<FactKind>): seq<Fact> {
    if kinds == [] then [] else ByKind(rows, kinds[..|kinds| - 1]) + OfKind(rows, kinds[|kinds| - 1])
  }

  lemma {:induction false} OfKindLast(rows: seq<Fact>, of: FactKind, kind: FactKind, id: string)
    ensures Last(OfKind(rows, of), kind, id) == if of == kind then Last(rows, kind, id) else None
    decreases |rows|
  {
    if rows != [] {
      var before, last := rows[..|rows| - 1], rows[|rows| - 1];
      OfKindLast(before, of, kind, id);
      LastSnoc(OfKind(before, of), last, kind, id);
      assert OfKind(before, of) + [] == OfKind(before, of);
    }
  }

  lemma {:induction false} ByKindLast(rows: seq<Fact>, kinds: seq<FactKind>, kind: FactKind, id: string)
    ensures Last(ByKind(rows, kinds), kind, id) == if kind in kinds then Last(rows, kind, id) else None
    decreases |kinds|
  {
    hide OfKind;
    if kinds != [] {
      var before, last := kinds[..|kinds| - 1], kinds[|kinds| - 1];
      ByKindLast(rows, before, kind, id);
      OfKindLast(rows, last, kind, id);
      LastConcat(ByKind(rows, before), OfKind(rows, last), kind, id);
      assert kinds == before + [last];
    }
  }

  /** Folding a scope kind by kind is folding its rows in the order they were written. */
  lemma ByKindMore(rows: seq<Fact>, k: nat)
    requires k < |KindOrder|
    ensures ByKind(rows, KindOrder[..k + 1]) == ByKind(rows, KindOrder[..k]) + OfKind(rows, KindOrder[k])
  {
    hide OfKind;
    assert KindOrder[..k + 1][..k] == KindOrder[..k];
  }

  lemma NoKinds(rows: seq<Fact>, s: AccountAuth)
    ensures ApplyAll(s, ByKind(rows, KindOrder[..0])) == s
  {
  }

  lemma KindByKind(s: AccountAuth, rows: seq<Fact>)
    ensures ApplyAll(s, ByKind(rows, KindOrder)) == ApplyAll(s, rows)
  {
    hide ApplyAll, ByKind, Last;
    forall kind, id
      ensures ApplyAll(s, ByKind(rows, KindOrder)).Lookup(kind, id) == ApplyAll(s, rows).Lookup(kind, id)
    {
      LatestWins(s, ByKind(rows, KindOrder), kind, id);
      LatestWins(s, rows, kind, id);
      ByKindLast(rows, KindOrder, kind, id);
      EveryKindListed(kind);
    }
    SameRecords(ApplyAll(s, ByKind(rows, KindOrder)), ApplyAll(s, rows));
  }

  class Projection {
    var roots: map<string, RootRecord>
    var emails: map<string, EmailRecord>
    var passkeys: map<string, PasskeyRecord>
    var subjects: map<string, SubjectRecord>
    var batches: map<string, BatchRecord>
    var codes: map<string, CodeRecord>
    var attempts: map<string, AttemptRecord>
    var sessions: map<string, SessionRecord>

    constructor ()
      ensures Value() == Empty
    {
      roots, emails, passkeys, subjects := map[], map[], map[], map[];
      batches, codes, attempts, sessions := map[], map[], map[], map[];
    }

    function Value(): AccountAuth
      reads this
    {
      AccountAuth(roots, emails, passkeys, subjects, batches, codes, attempts, sessions)
    }

    method FoldOne(fact: Fact)
      modifies this
      ensures Value() == Apply(old(Value()), fact)
    {
      match fact {
        case Root(r) => roots := Fold(roots, r.id, r.op, r);
        case Email(r) => emails := Fold(emails, r.id, r.op, r);
        case Passkey(r) => passkeys := Fold(passkeys, r.id, r.op, r);
        case Subject(r) => subjects := Fold(subjects, r.id, r.op, r);
        case Batch(r) => batches := Fold(batches, r.id, r.op, r);
        case Code(r) => codes := Fold(codes, r.id, r.op, r);
        case Attempt(r) => attempts := Fold(attempts, r.id, r.op, r);
        case Session(r) => sessions := Fold(sessions, r.id, r.op, r);
      }
    }

    method FoldRecords(records: seq<Fact>)
      modifies this
      ensures Value() == ApplyAll(old(Value()), records)
    {
      hide Apply, Value;
      for i := 0 to |records|
        invariant Value() == ApplyAll(old(Value()), records[..i])
      {
        FoldOne(records[i]);
        assert records[..i + 1] == records[..i] + [records[i]];
        ApplyAllSnoc(old(Value()), records[..i], records[i]);
      }
      assert records[..|records|] == records;
    }

    /** Fold one scope, kind by kind. */
    method FoldScope(rows: seq<Fact>)
      modifies this
      ensures Value() == ApplyAll(old(Value()), rows)
    {
      hide ApplyAll, Value, ByKind;
      ghost var start := Value();
      NoKinds(rows, start);
      for k := 0 to |KindOrder|
        invariant Value() == ApplyAll(start, ByKind(rows, KindOrder[..k]))
      {
        FoldRecords(OfKind(rows, KindOrder[k]));
        ApplyAllConcat(start, ByKind(rows, KindOrder[..k]), OfKind(rows, KindOrder[k]));
        ByKindMore(rows, k);
      }
      assert KindOrder[..|KindOrder|] == KindOrder;
      KindByKind(start, rows);
    }

    method RetainAccount(account: string)
      modifies this
      ensures Value() == Retain(old(Value()), account)
    {
      roots := RootsOf(roots, account, true);
      emails := EmailsOf(emails, account, true);
      passkeys := PasskeysOf(passkeys, account, true);
      subjects := SubjectsOf(subjects, account, true);
      batches := BatchesOf(batches, account, true);
      codes := CodesOf(codes, account, true);
      attempts := AttemptsOf(attempts, account, true);
      sessions := SessionsOf(sessions, account, true);
    }

    method RemoveAccount(account: string)
      modifies this
      ensures Value() == Remove(old(Value()), account)
    {
      roots := RootsOf(roots, account, false);
      emails := EmailsOf(emails, account, false);
      passkeys := PasskeysOf(passkeys, account, false);
      subjects := SubjectsOf(subjects, account, false);
      batches := BatchesOf(batches, account, false);
      codes := CodesOf(codes, account, false);
      attempts := AttemptsOf(attempts, account, false);
      sessions := SessionsOf(sessions, account, false);
    }

    method RemoveScoped(scoped: seq<string>)
      modifies this
      ensures Value() == RemoveEach(old(Value()), scoped)
    {
      hide Remove, Value;
      for i := 0 to |scoped|
        invariant Value() == RemoveEach(old(Value()), scoped[..i])
      {
        RemoveAccount(scoped[i]);
        assert scoped[..i + 1][..i] == scoped[..i];
      }
      assert scoped[..|scoped|] == scoped;
    }

    method FoldScoped(st: AuthStore, scoped: seq<string>)
      modifies this
      ensures Value() == FoldScopes(old(Value()), st, scoped)
    {
      hide ApplyAll, Value;
      for i := 0 to |scoped|
        invariant Value() == FoldScopes(old(Value()), st, scoped[..i])
      {
        FoldScope(st.Rows(scoped[i]));
        assert scoped[..i + 1][..i] == scoped[..i];
      }
      assert scoped[..|scoped|] == scoped;
    }

    /** Legacy truth first, then every account scope, then the fence. */
    method ReadCurrent(st: AuthStore)
      requires Value() == Empty
      modifies this
      ensures Value() == RebuildCurrent(st)
    {
      hide ApplyAll, Remove, Value, Names, CatalogOf, FoldScopes, RemoveEach;
      FoldScope(st.legacy);
      var scoped := Names(st.Scoped());
      ghost var legacy := Value();
      RemoveScoped(scoped);
      FoldScoped(st, scoped);
      for i := 0 to |scoped|
        invariant Value() == RemoveFenced(FoldScopes(RemoveEach(legacy, scoped), st, scoped), st, scoped[..i])
      {
        if !st.StandingOf(scoped[i]).MayAuthenticate() {
          RemoveAccount(scoped[i]);
        }
        assert scoped[..i + 1][..i] == scoped[..i];
      }
      assert scoped[..|scoped|] == scoped;
    }

    /** One account, from the one scope that is authoritative for it. */
    method ReadFor(st: AuthStore, account: string)
      requires Value() == Empty
      modifies this
      ensures Value() == RebuildFor(st, account)
    {
      hide ApplyAll, Retain, Value, CatalogOf;
      var standing := st.StandingOf(account);
      if standing.ReadsAccountScope() {
        if standing.MayAuthenticate() {
          FoldScope(st.Rows(account));
        }
      } else {
        FoldScope(st.legacy);
      }
      RetainAccount(account);
    }
  }

  /** The store's account-authentication records. */
  class Ledger {
    var legacy: seq<Fact>
    var scopes: map<string, seq<Fact>>
    var custody: seq<CustodyRecord>

    constructor ()
      ensures Value() == AuthStore([], map[], [])
    {
      legacy, scopes, custody := [], map[], [];
    }

    function Value(): AuthStore
      reads this
    {
      AuthStore(legacy, scopes, custody)
    }

    /** Route one decision's facts and append them together, or refuse them all. */
    method Append(facts: seq<Fact>) returns (admitted: bool)
      modifies this
      ensures admitted == AppendFacts(old(Value()), facts).Some?
      ensures Value() == if admitted then AppendFacts(old(Value()), facts).value else old(Value())
    {
      hide CatalogOf;
      var st := Value();
      var routed := st;
      for i := 0 to |facts|
        invariant routed == PutAll(st, facts[..i])
        invariant forall f | f in facts[..i] :: !PastFence(st, f)
      {
        if PastFence(st, facts[i]) {
          assert facts[i] in facts;
          return false;
        }
        assert facts[..i + 1][..i] == facts[..i];
        assert facts[..i + 1] == facts[..i] + [facts[i]];
        routed := Put(routed, facts[i]);
      }
      assert facts[..|facts|] == facts;
      legacy, scopes := routed.legacy, routed.scopes;
      PutAllKeeps(st, facts);
      return true;
    }
  }
}
