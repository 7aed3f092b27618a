/** Recording a hosted Home's recipient key: a changed key and the deletion of every copy
    sealed for the old one, across all accounts, in one commit. */
module HomeRekey {
  import opened Base
  import opened Order
  import opened Links
  import opened Text

  /** One stored payload, which may be missing or malformed. */
  datatype Payload<+T> = Unreadable | Readable(record: T)

  datatype HomeKey = HomeKey(id: string, op: RecordOp, publicKey: PublicKey, recordedAt: nat)

  datatype RekeyFault = NotAHome | NotAKey | TenantUnreadable | CopiesUnreadable

  /** How many scopes one page of the discovery lists. */
  const PAGE_SIZE := 128

  const ORG_SCOPE := "org"

  function TenantScope(tenant: string): string {
    if tenant == "" || tenant == ORG_ID then ORG_SCOPE else ORG_SCOPE + "::" + tenant
  }

  const ORG_ID := "org"

  /** The scope of a local account, or of one signed-in person. */
  predicate IsAccountScope(scope: string) {
    scope == "account" || ("account::" <= scope && |scope| > |"account::"|)
  }

  /** The account scopes are the local account's and one for each person named. */
  lemma AccountScopes(scope: string)
    ensures IsAccountScope(scope) <==>
              scope == "account" || exists person: string :: person != "" && scope == "account::" + person
  {
    if "account::" <= scope {
      assert scope == "account::" + scope[|"account::"|..];
    }
  }

  /** Tenants share a scope only where both are the default one, and none is an account's. */
  lemma TenantsApart(a: string, b: string)
    ensures TenantScope(a) == TenantScope(b) <==> a == b || (a in {"", "org"} && b in {"", "org"})
    ensures !IsAccountScope(TenantScope(a))
  {
    assert ("org::" + a)[5..] == a && ("org::" + b)[5..] == b;
    assert TenantScope(a)[0] == 'o';
  }

  // ---- reading retained rows --------------------------------------------------------------

  function FoldCopies(rows: seq<Payload<CopyRecord>>): (r: Option<map<CopyKey, CopyRecord>>)
    ensures r.Some? <==> Unreadable !in rows
    ensures r.Some? ==> forall k | k in r.value :: r.value[k].id == k
  {
    if rows == [] then Some(map[])
    else
      var last := rows[|rows| - 1];
      assert rows == rows[..|rows| - 1] + [last];
      match FoldCopies(rows[..|rows| - 1])
      case None => None
      case Some(m) => if last.Unreadable? then None else Some(Fold(m, last.record.id, last.record.op, last.record))
  }

  function FoldKeys(rows: seq<Payload<HomeKey>>): (r: Option<map<string, HomeKey>>)
    ensures r.Some? <==> Unreadable !in rows
  {
    if rows == [] then Some(map[])
    else
      var last := rows[|rows| - 1];
      assert rows == rows[..|rows| - 1] + [last];
      match FoldKeys(rows[..|rows| - 1])
      case None => None
      case Some(m) => if last.Unreadable? then None else Some(Fold(m, last.record.id, last.record.op, last.record))
  }

  // ---- the sweep ----------------------------------------------------------------------------

  type CopyStore = map<string, seq<Payload<CopyRecord>>>

  function RowsOf<T>(rows: map<string, seq<Payload<T>>>, scope: string): seq<Payload<T>> {
    if scope in rows then rows[scope] else []
  }

  /** The scopes holding any copy row. */
  function Holding(rows: CopyStore): set<string> {
    set s | s in rows && rows[s] != []
  }

  function Later(scopes: set<string>, after: Option<string>): set<string> {
    set s | s in scopes && (after.Some? ==> Less(after.value, s))
  }

  /** One page of them in order, after the last one seen. */
  function Page(rows: CopyStore, after: Option<string>): seq<string> {
    var all := Names(Later(Holding(rows), after));
    all[..Min(PAGE_SIZE, |all|)]
  }

  function Naming(copies: map<CopyKey, CopyRecord>, home: string): set<CopyKey> {
    set k | k in copies && copies[k].copy.deviceId == home
  }

  function Deleted(copies: map<CopyKey, CopyRecord>, keys: seq<CopyKey>): seq<CopyRecord>
    requires forall k | k in keys :: k in copies
  {
    if keys == [] then []
    else Deleted(copies, keys[..|keys| - 1]) + [copies[keys[|keys| - 1]].(op := Tombstone)]
  }

  function Tagged(scope: string, records: seq<CopyRecord>): seq<(string, CopyRecord)> {
    if records == [] then []
    else Tagged(scope, records[..|records| - 1]) + [(scope, records[|records| - 1])]
  }

  /** The deletions of one scope, or that it cannot be read. */
  function SweepScope(rows: CopyStore, home: string, scope: string): Option<seq<CopyRecord>> {
    if !IsAccountScope(scope) then Some([])
    else
      match FoldCopies(RowsOf(rows, scope))
      case None => None
      case Some(copies) => Some(Deleted(copies, Keys(Naming(copies, home))))
  }

  function Sweep(rows: CopyStore, home: string, scopes: seq<string>): Option<seq<(string, CopyRecord)>> {
    if scopes == [] then Some([])
    else
      match Sweep(rows, home, scopes[..|scopes| - 1])
      case None => None
      case Some(before) =>
        match SweepScope(rows, home, scopes[|scopes| - 1])
        case None => None
        case Some(records) => Some(before + Tagged(scopes[|scopes| - 1], records))
  }

  /** One commit of many appends. */
  function AppendAll(rows: CopyStore, records: seq<(string, CopyRecord)>): CopyStore {
    if records == [] then rows
    else
      var before := AppendAll(rows, records[..|records| - 1]);
      var (scope, record) := records[|records| - 1];
      before[scope := RowsOf(before, scope) + [Readable(record)]]
  }

  // ---- listing page by page is listing once ---------------------------------------------------

  ghost predicate Sorted(s: seq<string>) {
    forall i, j | 0 <= i < j < |s| :: Less(s[i], s[j])
  }

  lemma FirstIsLeast(s: seq<string>)
    requires Sorted(s) && s != []
    ensures IsLeast((set x | x in s), s[0])
  {
  }

  /** A set is listed in order in one way only. */
  lemma {:induction false} SortedOnce(a: seq<string>, b: seq<string>)
    requires Sorted(a) && Sorted(b) && forall x :: x in a <==> x in b
    ensures a == b
    decreases |a|
  {
    if a == [] {
      if |b| > 0 {
        SomebodyIn(b);
      }
    } else {
      assert a[0] in a;
      assert b != [];
      assert (set x | x in a) == (set x | x in b);
      FirstIsLeast(a);
      FirstIsLeast(b);
      LeastUnique((set x | x in a), a[0], b[0]);
      forall x
        ensures x in a[1..] <==> x in b[1..]
      {
        LessIrreflexive(a[0]);
        assert x in a[1..] ==> x in a && x != a[0];
        assert x in b[1..] ==> x in b && x != b[0];
      }
      SortedOnce(a[1..], b[1..]);
      assert a == [a[0]] + a[1..] && b == [b[0]] + b[1..];
    }
  }

  lemma AfterIsRest(names: seq<string>, n: nat, x: string)
    requires Sorted(names) && 0 < n <= |names|
    ensures x in names[n..] <==> x in names && Less(names[n - 1], x)
  {
    if x in names {
      var i :| 0 <= i < |names| && names[i] == x;
      LessIrreflexive(x);
      if i < n {
        assert !Less(names[n - 1], x) by {
          if Less(names[n - 1], x) && i < n - 1 {
            LessTrans(x, names[n - 1], x);
          }
        }
        assert x !in names[n..];
      } else {
        assert names[n..][i - n] == x;
      }
    }
  }

  /** The page after the n-th scope holds the scopes that follow it in the whole listing. */
  lemma PageIsSlice(rows: CopyStore, n: nat)
    requires n <= |Names(Holding(rows))|
    ensures var names := Names(Holding(rows));
            Page(rows, if n == 0 then None else Some(names[n - 1])) == names[n..Min(n + PAGE_SIZE, |names|)]
  {
    hide Names, Holding, Less;
    var names := Names(Holding(rows));
    var after := if n == 0 then None else Some(names[n - 1]);
    var rest := Names(Later(Holding(rows), after));
    forall x
      ensures x in names[n..] <==> x in rest
    {
      if n > 0 {
        AfterIsRest(names, n, x);
      } else {
        assert names[n..] == names;
      }
    }
    SortedOnce(names[n..], rest);
  }

  // ---- what the commit leaves -------------------------------------------------------------------

  function Payloads(records: seq<CopyRecord>): seq<Payload<CopyRecord>> {
    if records == [] then [] else Payloads(records[..|records| - 1]) + [Readable(records[|records| - 1])]
  }

  lemma {:induction false} AppendAllConcat(rows: CopyStore, a: seq<(string, CopyRecord)>, b: seq<(string, CopyRecord)>)
    ensures AppendAll(rows, a + b) == AppendAll(AppendAll(rows, a), b)
    decreases |b|
  {
    if b == [] {
      assert a + b == a;
    } else {
      assert (a + b)[..|a + b| - 1] == a + b[..|b| - 1];
      AppendAllConcat(rows, a, b[..|b| - 1]);
    }
  }

  lemma {:induction false} AppendTagged(rows: CopyStore, scope: string, records: seq<CopyRecord>, s: string)
    ensures RowsOf(AppendAll(rows, Tagged(scope, records)), s)
         == RowsOf(rows, s) + (if s == scope then Payloads(records) else [])
    decreases |records|
  {
    if records != [] {
      AppendTagged(rows, scope, records[..|records| - 1], s);
    }
  }

  lemma {:induction false} SweepEffect(rows: CopyStore, home: string, scopes: seq<string>, s: string)
    requires Sorted(scopes)
    ensures Sweep(rows, home, scopes).Some? <==> forall t | t in scopes :: SweepScope(rows, home, t).Some?
    ensures Sweep(rows, home, scopes).Some? ==>
              RowsOf(AppendAll(rows, Sweep(rows, home, scopes).value), s)
              == RowsOf(rows, s) + (if s in scopes then Payloads(SweepScope(rows, home, s).value) else [])
    decreases |scopes|
  {
    hide SweepScope, AppendAll, RowsOf, Payloads, Tagged, Less;
    if scopes != [] {
      var before, last := scopes[..|scopes| - 1], scopes[|scopes| - 1];
      assert scopes == before + [last];
      SweepEffect(rows, home, before, s);
      if Sweep(rows, home, scopes).Some? {
        var swept, records := Sweep(rows, home, before).value, SweepScope(rows, home, last).value;
        AppendAllConcat(rows, swept, Tagged(last, records));
        AppendTagged(AppendAll(rows, swept), last, records, s);
        LastNotBefore(before, last);
      }
    } else {
      SweptNothing(rows, s);
    }
  }

  lemma LastNotBefore(before: seq<string>, last: string)
    requires Sorted(before + [last])
    ensures last !in before
  {
    hide Less;
    LessIrreflexive(last);
    assert (before + [last])[|before|] == last;
    assert forall i | 0 <= i < |before| :: (before + [last])[i] == before[i];
  }

  lemma SweptNothing(rows: CopyStore, s: string)
    ensures RowsOf(AppendAll(rows, []), s) == RowsOf(rows, s) + []
  {
  }

  lemma {:induction false} DeletedEffect(rows: seq<Payload<CopyRecord>>, copies: map<CopyKey, CopyRecord>,
                                         keys: seq<CopyKey>)
    requires FoldCopies(rows) == Some(copies) && forall k | k in keys :: k in copies
    ensures FoldCopies(rows + Payloads(Deleted(copies, keys))) == Some(copies - (set k | k in keys))
    decreases |keys|
  {
    hide FoldCopies;
    if keys == [] {
      assert rows + [] == rows;
      assert copies - (set k | k in keys) == copies;
    } else {
      var before, last := keys[..|keys| - 1], keys[|keys| - 1];
      assert keys == before + [last];
      DeletedEffect(rows, copies, before);
      DeleteOne(rows + Payloads(Deleted(copies, before)), copies[last].(op := Tombstone));
      assert rows + Payloads(Deleted(copies, keys))
          == rows + Payloads(Deleted(copies, before)) + [Readable(copies[last].(op := Tombstone))];
      assert copies - (set k | k in keys) == copies - (set k | k in before) - {last};
    }
  }

  /** No live copy of any account names the Home; every other live copy, and every other
      scope, is as it was. */
  ghost predicate Swept(rows: CopyStore, rows': CopyStore, home: string, s: string) {
    if IsAccountScope(s) then
      FoldCopies(RowsOf(rows, s)).Some?
      && FoldCopies(RowsOf(rows', s))
         == Some(FoldCopies(RowsOf(rows, s)).value - Naming(FoldCopies(RowsOf(rows, s)).value, home))
    else RowsOf(rows', s) == RowsOf(rows, s)
  }

  lemma SweepLeavesNone(rows: CopyStore, home: string, s: string)
    requires Sweep(rows, home, Names(Holding(rows))).Some?
    ensures Swept(rows, AppendAll(rows, Sweep(rows, home, Names(Holding(rows))).value), home, s)
  {
    hide Names, Sweep, AppendAll;
    SweepEffect(rows, home, Names(Holding(rows)), s);
    if s in Holding(rows) {
      assert SweepScope(rows, home, s).Some?;
      if IsAccountScope(s) {
        SweptScope(RowsOf(rows, s), FoldCopies(RowsOf(rows, s)).value, home);
      }
    } else {
      assert RowsOf(rows, s) == [];
      var none: map<CopyKey, CopyRecord> := map[];
      assert FoldCopies([]) == Some(none);
      assert none - Naming(none, home) == none;
    }
  }

  /** The last readable row of an id. */
  ghost predicate LastRow(rows: seq<Payload<CopyRecord>>, i: nat, k: CopyKey) {
    && i < |rows| && rows[i].Readable? && rows[i].record.id == k
    && forall j | i < j < |rows| :: rows[j].Readable? ==> rows[j].record.id != k
  }

  /** A copy is live exactly if the last row of its id stores it. */
  lemma {:induction false} LiveIsLast(rows: seq<Payload<CopyRecord>>, k: CopyKey)
    requires Unreadable !in rows
    ensures var live := FoldCopies(rows).value;
            && (k in live <==> exists i: nat :: LastRow(rows, i, k) && rows[i].record.op == Upsert)
            && (forall i: nat | LastRow(rows, i, k) && rows[i].record.op == Upsert ::
                  k in live && live[k] == rows[i].record)
    decreases |rows|
  {
    if rows != [] {
      var before, last := rows[..|rows| - 1], rows[|rows| - 1];
      assert rows == before + [last];
      assert last in rows;
      LiveIsLast(before, k);
      if last.record.id == k {
        assert LastRow(rows, |rows| - 1, k);
      } else {
        assert forall i: nat | i < |before| :: LastRow(rows, i, k) <==> LastRow(before, i, k);
      }
    }
  }

  /** So in each account the copies left live are just those that were and do not name the
      Home. */
  lemma NoneNamesHome(rows: CopyStore, rows': CopyStore, home: string, s: string, k: CopyKey)
    requires Swept(rows, rows', home, s) && IsAccountScope(s)
    ensures FoldCopies(RowsOf(rows, s)).Some? && FoldCopies(RowsOf(rows', s)).Some?
    ensures var live, live' := FoldCopies(RowsOf(rows, s)).value, FoldCopies(RowsOf(rows', s)).value;
            && (k in live' <==> k in live && live[k].copy.deviceId != home)
            && (k in live' ==> live'[k] == live[k])
  {
    hide FoldCopies;
  }

  lemma SweptScope(rows: seq<Payload<CopyRecord>>, copies: map<CopyKey, CopyRecord>, home: string)
    requires FoldCopies(rows) == Some(copies)
    ensures FoldCopies(rows + Payloads(Deleted(copies, Keys(Naming(copies, home)))))
         == Some(copies - Naming(copies, home))
  {
    hide Keys, FoldCopies;
    DeletedEffect(rows, copies, Keys(Naming(copies, home)));
    assert (set k | k in Keys(Naming(copies, home))) == Naming(copies, home);
  }

  lemma SweepReads(rows: CopyStore, home: string)
    ensures Sweep(rows, home, Names(Holding(rows))).Some?
       <==> forall s | IsAccountScope(s) :: Unreadable !in RowsOf(rows, s)
  {
    hide Names, Sweep;
    SweepEffect(rows, home, Names(Holding(rows)), "");
    if Sweep(rows, home, Names(Holding(rows))).Some? {
      forall s | IsAccountScope(s)
        ensures Unreadable !in RowsOf(rows, s)
      {
        assert s in Names(Holding(rows)) ==> SweepScope(rows, home, s).Some?;
      }
    }
  }

  lemma KeyAppended(rows: seq<Payload<HomeKey>>, record: HomeKey)
    requires FoldKeys(rows).Some? && record.op == Upsert
    ensures FoldKeys(rows + [Readable(record)]) == Some(FoldKeys(rows).value[record.id := record])
  {
    assert (rows + [Readable(record)])[..|rows|] == rows;
  }

  lemma DeleteOne(rows: seq<Payload<CopyRecord>>, record: CopyRecord)
    requires FoldCopies(rows).Some? && record.op == Tombstone
    ensures FoldCopies(rows + [Readable(record)]) == Some(FoldCopies(rows).value - {record.id})
  {
    assert (rows + [Readable(record)])[..|rows|] == rows;
  }

  lemma SweepNone(rows: CopyStore, home: string)
    ensures Sweep(rows, home, []) == Some([])
  {
  }

  lemma SweepOneMore(rows: CopyStore, home: string, scopes: seq<string>, n: nat)
    requires n < |scopes| && Sweep(rows, home, scopes[..n]).Some?
    ensures var records := SweepScope(rows, home, scopes[n]);
            Sweep(rows, home, scopes[..n + 1])
            == if records.None? then None
               else Some(Sweep(rows, home, scopes[..n]).value + Tagged(scopes[n], records.value))
  {
    hide SweepScope;
    assert scopes[..n + 1][..n] == scopes[..n];
  }

  // ---- as it runs -------------------------------------------------------------------------------

  /** The Hub's store, as far as Home keys and copies go. */
  class HubStore {
    var copies: CopyStore
    var keys: map<string, seq<Payload<HomeKey>>>

    constructor (copies: CopyStore, keys: map<string, seq<Payload<HomeKey>>>)
      ensures this.copies == copies && this.keys == keys
    {
      this.copies, this.keys := copies, keys;
    }

    /** Find every copy sealed for the Home, page by page. */
    method Discover(home: string) returns (records: Option<seq<(string, CopyRecord)>>)
      ensures records == Sweep(copies, home, Names(Holding(copies)))
    {
      hide Names, Page, Holding, SweepScope, Sweep;
      ghost var names := Names(Holding(copies));
      ghost var n := 0;
      SweepNone(copies, home);
      var cursor: Option<string> := None;
      var found: seq<(string, CopyRecord)> := [];
      while true
        invariant n <= |names|
        invariant cursor == if n == 0 then None else Some(names[n - 1])
        invariant Sweep(copies, home, names[..n]) == Some(found)
        decreases |names| - n
      {
        var page := Page(copies, cursor);
        PageIsSlice(copies, n);
        if page == [] {
          break;
        }
        cursor := Some(page[|page| - 1]);
        for i := 0 to |page|
          invariant n + i <= |names|
          invariant Sweep(copies, home, names[..n + i]) == Some(found)
        {
          assert page[i] == names[n + i];
          SweepOneMore(copies, home, names, n + i);
          var swept := SweepScope(copies, home, page[i]);
          if swept.None? {
            SweepStopped(copies, home, names, n + i + 1);
            return None;
          }
          found := found + Tagged(page[i], swept.value);
        }
        n := n + |page|;
      }
      assert names[..n] == names;
      return Some(found);
    }

    /** Record a Home's recipient key in its tenant. */
    method RecordHomeKey(tenant: string, home: string, key: KeyText, now: nat) returns (r: Result<bool, RekeyFault>)
      modifies this
      ensures r == Judged(old(copies), old(keys), tenant, home, key)
      ensures r != Ok(true) ==> copies == old(copies) && keys == old(keys)
      ensures r == Ok(true) ==>
                && (forall s :: Swept(old(copies), copies, home, s))
                && (forall s | s != TenantScope(tenant) :: SameAt(old(keys), keys, s))
                && FoldKeys(RowsOf(keys, TenantScope(tenant)))
                   == Some(FoldKeys(RowsOf(old(keys), TenantScope(tenant))).value
                             [home := HomeKey(home, Upsert, key.key, now)])
    {
      hide Names, Sweep, AppendAll, Swept, Holding, Blank, IsWhite, IsAccountScope;
      if !IsHome(home) || Blank(tenant) {
        return Err(NotAHome);
      }
      if !key.Point? {
        return Err(NotAKey);
      }
      var scope := TenantScope(tenant);
      var current := FoldKeys(RowsOf(keys, scope));
      if current.None? {
        return Err(TenantUnreadable);
      }
      if home in current.value && current.value[home].publicKey == key.key {
        return Ok(false);
      }
      SweepReads(copies, home);
      var records := Discover(home);
      if records.None? {
        return Err(CopiesUnreadable);
      }
      forall s
        ensures Swept(copies, AppendAll(copies, records.value), home, s)
      {
        SweepLeavesNone(copies, home, s);
      }
      copies := AppendAll(copies, records.value);
      KeyAppended(RowsOf(keys, scope), HomeKey(home, Upsert, key.key, now));
      keys := keys[scope := RowsOf(keys, scope) + [Readable(HomeKey(home, Upsert, key.key, now))]];
      return Ok(true);
    }
  }

  lemma {:induction false} SweepStopped(rows: CopyStore, home: string, scopes: seq<string>, n: nat)
    requires n <= |scopes| && Sweep(rows, home, scopes[..n]).None?
    ensures Sweep(rows, home, scopes).None?
    decreases |scopes|
  {
    if n == |scopes| {
      assert scopes[..n] == scopes;
    } else {
      assert scopes[..|scopes| - 1][..n] == scopes[..n];
      SweepStopped(rows, home, scopes[..|scopes| - 1], n);
    }
  }

  /** Whether a key is recorded, is recorded already, or is refused, and why. */
  ghost function Judged(copies: CopyStore, keys: map<string, seq<Payload<HomeKey>>>, tenant: string, home: string,
                        key: KeyText)
    : Result<bool, RekeyFault>
  {
    var current := FoldKeys(RowsOf(keys, TenantScope(tenant)));
    if !IsHome(home) || Blank(tenant) then Err(NotAHome)
    else if !key.Point? then Err(NotAKey)
    else if current.None? then Err(TenantUnreadable)
    else if home in current.value && current.value[home].publicKey == key.key then Ok(false)
    else if exists s | IsAccountScope(s) :: Unreadable in RowsOf(copies, s) then Err(CopiesUnreadable)
    else Ok(true)
  }

  /** Recording the same key again writes nothing, whatever copies were made since. */
  lemma SameKeyAgain(copies: CopyStore, keys: map<string, seq<Payload<HomeKey>>>, tenant: string, home: string,
                     key: KeyText, now: nat, later: CopyStore)
    requires Judged(copies, keys, tenant, home, key) == Ok(true)
    ensures var scope := TenantScope(tenant);
            var keys' := keys[scope := RowsOf(keys, scope) + [Readable(HomeKey(home, Upsert, key.key, now))]];
            Judged(later, keys', tenant, home, key) == Ok(false)
  {
    hide Blank, FoldKeys, IsAccountScope;
    KeyAppended(RowsOf(keys, TenantScope(tenant)), HomeKey(home, Upsert, key.key, now));
  }
}
