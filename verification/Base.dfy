/** Values every part of the account model shares: optional and failing results,
    and the latest-wins record fold that all of the projections are built from. */
module Base {

  datatype Option<+T> = None | Some(value: T)

  datatype Result<+T, +E> = Ok(value: T) | Err(error: E)

  /** Whether a stored record replaces what its id named or removes it. */
  datatype RecordOp = Upsert | Tombstone

  /** One latest-wins step: an upsert stores the record, a tombstone removes the id. */
  function Fold<K, V>(m: map<K, V>, id: K, op: RecordOp, record: V): map<K, V> {
    match op
    case Upsert => m[id := record]
    case Tombstone => m - {id}
  }

  function Min(a: nat, b: nat): nat {
    if a < b then a else b
  }

  /** Two maps agree about one key. */
  ghost predicate SameAt<K, V>(m: map<K, V>, m': map<K, V>, k: K) {
    (k in m <==> k in m') && (k in m ==> m[k] == m'[k])
  }

  lemma SameMaps<K(!new), V>(m: map<K, V>, m': map<K, V>)
    requires forall k :: SameAt(m, m', k)
    ensures m == m'
  {
    forall k
      ensures k in m <==> k in m'
      ensures k in m ==> m[k] == m'[k]
    {
      assert SameAt(m, m', k);
    }
  }

  lemma SomebodyIn<T(!new)>(s: seq<T>)
    requires |s| > 0
    ensures exists x :: x in s
  {
    assert s[0] in s;
  }
}
