/** The byte order in which names are listed: the order of a sorted map's keys
    and of the store's scope index. */
module Order {

  /** Lexicographic order, a proper prefix first. */
  predicate Less(a: string, b: string) {
    b != [] && (a == [] || a[0] < b[0] || (a[0] == b[0] && Less(a[1..], b[1..])))
  }

  lemma {:induction false} LessTrans(a: string, b: string, c: string)
    requires Less(a, b) && Less(b, c)
    ensures Less(a, c)
  {
    if a != [] && a[0] == b[0] == c[0] {
      LessTrans(a[1..], b[1..], c[1..]);
    }
  }

  lemma {:induction false} LessIrreflexive(a: string)
    ensures !Less(a, a)
  {
    if a != [] {
      LessIrreflexive(a[1..]);
    }
  }

  lemma {:induction false} LessTotal(a: string, b: string)
    ensures a == b || Less(a, b) || Less(b, a)
  {
    if a != [] && b != [] && a[0] == b[0] {
      LessTotal(a[1..], b[1..]);
      if a[1..] == b[1..] {
        assert a == [a[0]] + a[1..] && b == [b[0]] + b[1..];
      }
    }
  }

  /** A copy's key: the link's provider and the recipient it is sealed for. */
  datatype CopyKey = CopyKey(provider: string, device: string)

  /** The order of the encoded copy ids: by provider, then by recipient. */
  predicate KeyLess(a: CopyKey, b: CopyKey) {
    Less(a.provider, b.provider) || (a.provider == b.provider && Less(a.device, b.device))
  }

  predicate IsLeast(s: set<string>, x: string) {
    x in s && forall y | y in s :: y == x || Less(x, y)
  }

  predicate IsLeastKey(s: set<CopyKey>, x: CopyKey) {
    x in s && forall y | y in s :: y == x || KeyLess(x, y)
  }

  lemma {:induction false} LeastExists(s: set<string>) returns (x: string)
    requires s != {}
    ensures IsLeast(s, x)
  {
    var y :| y in s;
    if s == {y} {
      x := y;
    } else {
      var z := LeastExists(s - {y});
      LessTotal(y, z);
      x := if Less(y, z) then y else z;
      forall w | w in s && w != x
        ensures Less(x, w)
      {
        if x == y && w != z {
          LessTrans(y, z, w);
        }
      }
    }
  }

  lemma KeyLessTrans(a: CopyKey, b: CopyKey, c: CopyKey)
    requires KeyLess(a, b) && KeyLess(b, c)
    ensures KeyLess(a, c)
  {
    if Less(a.provider, b.provider) && Less(b.provider, c.provider) {
      LessTrans(a.provider, b.provider, c.provider);
    } else if a.provider == b.provider == c.provider {
      LessTrans(a.device, b.device, c.device);
    }
  }

  lemma {:induction false} LeastKeyExists(s: set<CopyKey>) returns (x: CopyKey)
    requires s != {}
    ensures IsLeastKey(s, x)
  {
    var y :| y in s;
    if s == {y} {
      x := y;
    } else {
      var z := LeastKeyExists(s - {y});
      LessTotal(y.provider, z.provider);
      LessTotal(y.device, z.device);
      x := if KeyLess(y, z) then y else z;
      forall w | w in s && w != x
        ensures KeyLess(x, w)
      {
        if x == y && w != z {
          KeyLessTrans(y, z, w);
        }
      }
    }
  }

  lemma LeastUnique(s: set<string>, x: string, y: string)
    requires IsLeast(s, x) && IsLeast(s, y)
    ensures x == y
  {
    if x != y {
      LessTrans(x, y, x);
      LessIrreflexive(x);
    }
  }

  lemma LeastKeyUnique(s: set<CopyKey>, x: CopyKey, y: CopyKey)
    requires IsLeastKey(s, x) && IsLeastKey(s, y)
    ensures x == y
  {
    if x != y {
      KeyLessTrans(x, y, x);
      LessIrreflexive(x.provider);
      LessIrreflexive(x.device);
    }
  }

  lemma LeastIsUnique(s: set<string>)
    requires s != {}
    ensures exists x :: IsLeast(s, x)
    ensures forall x, y :: IsLeast(s, x) && IsLeast(s, y) ==> x == y
  {
    var least := LeastExists(s);
    forall x, y | IsLeast(s, x) && IsLeast(s, y)
      ensures x == y
    {
      LeastUnique(s, x, y);
    }
  }

  lemma LeastKeyIsUnique(s: set<CopyKey>)
    requires s != {}
    ensures exists x :: IsLeastKey(s, x)
    ensures forall x, y :: IsLeastKey(s, x) && IsLeastKey(s, y) ==> x == y
  {
    var least := LeastKeyExists(s);
    forall x, y | IsLeastKey(s, x) && IsLeastKey(s, y)
      ensures x == y
    {
      LeastKeyUnique(s, x, y);
    }
  }

  lemma LeastFirst(s: set<string>, x: string, rest: seq<string>)
    requires x in s && IsLeast(s, x) && |rest| == |s| - 1
    requires forall y :: y in rest <==> y in s - {x}
    requires forall i, j :: 0 <= i < j < |rest| ==> Less(rest[i], rest[j])
    ensures forall y :: y in [x] + rest <==> y in s
    ensures forall i, j :: 0 <= i < j < |[x] + rest| ==> Less(([x] + rest)[i], ([x] + rest)[j])
  {
    hide Less;
    forall i | 0 <= i < |rest|
      ensures rest[i] in s && rest[i] != x
    {
      assert rest[i] in rest;
    }
  }

  lemma LeastKeyFirst(s: set<CopyKey>, x: CopyKey, rest: seq<CopyKey>)
    requires x in s && IsLeastKey(s, x) && |rest| == |s| - 1
    requires forall y :: y in rest <==> y in s - {x}
    requires forall i, j :: 0 <= i < j < |rest| ==> KeyLess(rest[i], rest[j])
    ensures forall y :: y in [x] + rest <==> y in s
    ensures forall i, j :: 0 <= i < j < |[x] + rest| ==> KeyLess(([x] + rest)[i], ([x] + rest)[j])
  {
    hide KeyLess;
    forall i | 0 <= i < |rest|
      ensures rest[i] in s && rest[i] != x
    {
      assert rest[i] in rest;
    }
  }

  /** The names of a set in listing order, each once. */
  function Names(s: set<string>): (r: seq<string>)
    ensures forall x :: x in r <==> x in s
    ensures |r| == |s|
    ensures forall i, j :: 0 <= i < j < |r| ==> Less(r[i], r[j])
  {
    if s == {} then []
    else
      LeastIsUnique(s);
      var x :| x in s && IsLeast(s, x);
      LeastFirst(s, x, Names(s - {x}));
      [x] + Names(s - {x})
  }

  /** The copy keys of a set in listing order, each once. */
  function Keys(s: set<CopyKey>): (r: seq<CopyKey>)
    ensures forall x :: x in r <==> x in s
    ensures |r| == |s|
    ensures forall i, j :: 0 <= i < j < |r| ==> KeyLess(r[i], r[j])
  {
    if s == {} then []
    else
      LeastKeyIsUnique(s);
      var x :| x in s && IsLeastKey(s, x);
      LeastKeyFirst(s, x, Keys(s - {x}));
      [x] + Keys(s - {x})
  }
}
