/** Ordered lists whose items are moved by splicing, and the ordered queries they come from. */
module Lists {
  import opened Wrappers

  type Id = nat

  predicate Distinct<T(==)>(s: seq<T>) {
    forall i, j :: 0 <= i < j < |s| ==> s[i] != s[j]
  }

  /** `s` lists every element of `ids` once. */
  predicate Enumerates<T(==)>(s: seq<T>, ids: set<T>) {
    && Distinct(s)
    && (forall x :: x in s ==> x in ids)
    && (forall x :: x in ids ==> x in s)
  }

  function Elements<T>(s: seq<T>): set<T> {
    set x | x in s
  }

  function IndexOf<T(==)>(s: seq<T>, x: T): (i: nat)
    requires x in s
    ensures i < |s| && s[i] == x
  {
    if s[0] == x then 0 else 1 + IndexOf(s[1..], x)
  }

  function RemoveAt<T>(s: seq<T>, i: nat): (r: seq<T>)
    requires i < |s|
    ensures |r| == |s| - 1
  {
    s[..i] + s[i + 1..]
  }

  function InsertAt<T>(s: seq<T>, i: nat, x: T): (r: seq<T>)
    requires i <= |s|
    ensures |r| == |s| + 1
  {
    s[..i] + [x] + s[i..]
  }

  /** `splice(to, 0, splice(from, 1)[0])` */
  function Move<T>(s: seq<T>, from: nat, to: nat): (r: seq<T>)
    requires from < |s| && to < |s|
    ensures |r| == |s|
  {
    InsertAt(RemoveAt(s, from), to, s[from])
  }

  /** `filter(y => y !== x)` */
  function Without<T(==)>(s: seq<T>, x: T): (r: seq<T>) {
    if s == [] then [] else (if s[0] == x then [] else [s[0]]) + Without(s[1..], x)
  }

  lemma IndexOfUnique<T>(s: seq<T>, i: nat)
    requires Distinct(s) && i < |s|
    ensures IndexOf(s, s[i]) == i
  {
    var j := IndexOf(s, s[i]);
  }

  lemma {:induction false} WithoutIs<T>(s: seq<T>, x: T)
    requires Distinct(s)
    ensures Without(s, x) == if x in s then RemoveAt(s, IndexOf(s, x)) else s
  {
    if s != [] {
      WithoutIs(s[1..], x);
      if s[0] == x {
        assert x !in s[1..];
      }
    }
  }

  lemma {:induction false} WithoutDistinct<T>(s: seq<T>, x: T)
    requires Distinct(s)
    ensures Distinct(Without(s, x))
    ensures forall y :: y in Without(s, x) <==> y in s && y != x
  {
    if s != [] {
      WithoutDistinct(s[1..], x);
      assert s == [s[0]] + s[1..];
      assert s[0] !in s[1..];
    }
  }

  lemma InsertDistinct<T>(s: seq<T>, i: nat, x: T)
    requires Distinct(s) && x !in s && i <= |s|
    ensures Distinct(InsertAt(s, i, x))
    ensures forall y :: y in InsertAt(s, i, x) <==> y in s || y == x
  {
    var r := InsertAt(s, i, x);
    forall y | y in s || y == x
      ensures y in r
    {
      if y in s {
        var k := IndexOf(s, y);
        assert r[if k < i then k else k + 1] == y;
      } else {
        assert r[i] == y;
      }
    }
    forall j, k | 0 <= j < k < |r|
      ensures r[j] != r[k]
    {
      assert forall m :: 0 <= m < |r| && m != i ==> r[m] == s[if m < i then m else m - 1];
    }
  }

  lemma InsertIndex<T>(s: seq<T>, i: nat, x: T)
    requires Distinct(s) && x !in s && i <= |s|
    ensures x in InsertAt(s, i, x) && IndexOf(InsertAt(s, i, x), x) == i
    ensures Without(InsertAt(s, i, x), x) == s
  {
    var r := InsertAt(s, i, x);
    InsertDistinct(s, i, x);
    assert r[i] == x;
    IndexOfUnique(r, i);
    WithoutIs(r, x);
    InsertAtParts(s, i, x);
  }

  lemma InsertOtherIndex<T>(s: seq<T>, i: nat, x: T, t: nat)
    requires Distinct(s) && x !in s && i <= |s| && t < |s|
    ensures s[t] in InsertAt(s, i, x)
    ensures IndexOf(InsertAt(s, i, x), s[t]) == if t < i then t else t + 1
  {
    var r := InsertAt(s, i, x);
    InsertDistinct(s, i, x);
    var k := if t < i then t else t + 1;
    assert r[k] == s[t];
    IndexOfUnique(r, k);
  }

  lemma InsertAtParts<T>(s: seq<T>, i: nat, x: T)
    requires i <= |s|
    ensures InsertAt(s, i, x)[i] == x
    ensures RemoveAt(InsertAt(s, i, x), i) == s
    ensures multiset(InsertAt(s, i, x)) == multiset(s) + multiset{x}
  {
    assert s == s[..i] + s[i..];
  }

  lemma RemoveAtParts<T>(s: seq<T>, i: nat)
    requires i < |s|
    ensures InsertAt(RemoveAt(s, i), i, s[i]) == s
    ensures multiset(s) == multiset(RemoveAt(s, i)) + multiset{s[i]}
  {
    assert s == s[..i] + [s[i]] + s[i + 1..];
  }

  /** The moved item lands on `to`, the others keep their order, and nothing is lost or repeated. */
  lemma MoveIs<T>(s: seq<T>, from: nat, to: nat)
    requires from < |s| && to < |s|
    ensures Move(s, from, to)[to] == s[from]
    ensures RemoveAt(Move(s, from, to), to) == RemoveAt(s, from)
    ensures multiset(Move(s, from, to)) == multiset(s)
  {
    RemoveAtParts(s, from);
    InsertAtParts(RemoveAt(s, from), to, s[from]);
  }

  /** Moving an item to `to` and then back to `from` restores the list. */
  lemma MoveBack<T>(s: seq<T>, from: nat, to: nat)
    requires from < |s| && to < |s|
    ensures Move(Move(s, from, to), to, from) == s
  {
    MoveIs(s, from, to);
    RemoveAtParts(s, from);
  }

  lemma DistinctFromMultiset<T>(s: seq<T>, t: seq<T>)
    requires Distinct(s) && multiset(s) == multiset(t)
    ensures Distinct(t) && forall x :: x in s <==> x in t
  {
    forall x
      ensures x in s <==> x in t
    {
      assert x in s <==> x in multiset(s);
      assert x in t <==> x in multiset(t);
    }
    forall i, j | 0 <= i < j < |t| && t[i] == t[j]
      ensures false
    {
      CountOfRepeated(t, i, j);
      MultisetOfDistinct(s, t[i]);
    }
  }

  lemma CountOfRepeated<T>(t: seq<T>, i: nat, j: nat)
    requires i < j < |t| && t[i] == t[j]
    ensures multiset(t)[t[i]] >= 2
  {
    assert t == t[..i] + [t[i]] + t[i + 1..j] + [t[j]] + t[j + 1..];
  }

  lemma MultisetOfDistinct<T>(s: seq<T>, x: T)
    requires Distinct(s)
    ensures multiset(s)[x] == if x in s then 1 else 0
  {
    if x in s {
      var i := IndexOf(s, x);
      assert s == s[..i] + [s[i]] + s[i + 1..];
      assert x !in s[..i] && x !in s[i + 1..];
      assert x !in multiset(s[..i]) && x !in multiset(s[i + 1..]);
    } else {
      assert x !in multiset(s);
    }
  }

  lemma MoveDistinct<T>(s: seq<T>, from: nat, to: nat)
    requires Distinct(s) && from < |s| && to < |s|
    ensures Distinct(Move(s, from, to)) && forall x :: x in s <==> x in Move(s, from, to)
  {
    MoveIs(s, from, to);
    DistinctFromMultiset(s, Move(s, from, to));
  }

  // ---------------------------------------------------------------- enumerations

  lemma EnumeratesAppend<T>(s: seq<T>, ids: set<T>, x: T)
    requires Enumerates(s, ids) && x !in ids
    ensures Enumerates(s + [x], ids + {x})
  {
  }

  lemma EnumeratesConcat<T>(s: seq<T>, t: seq<T>, ids: set<T>, more: set<T>)
    requires Enumerates(s, ids) && Enumerates(t, more) && ids !! more
    ensures Enumerates(s + t, ids + more)
  {
    assert forall x :: x in s + t <==> x in s || x in t;
    var r := s + t;
    forall i, j | 0 <= i < j < |r|
      ensures r[i] != r[j]
    {
      if i < |s| <= j {
        assert r[i] in s && r[j] in t;
      }
    }
  }

  lemma {:induction false} EnumeratesMultiset<T>(s: seq<T>, ids: set<T>)
    requires Enumerates(s, ids)
    ensures multiset(s) == multiset(ids)
  {
    forall x
      ensures multiset(s)[x] == multiset(ids)[x]
    {
      MultisetOfDistinct(s, x);
    }
  }

  /** A query without an order: the rows in any order. */
  method FindAll<T(==)>(ids: set<T>) returns (rows: seq<T>)
    ensures Enumerates(rows, ids)
  {
    rows := [];
    var rest := ids;
    while rest != {}
      invariant rest <= ids && Enumerates(rows, ids - rest)
    {
      var x :| x in rest;
      EnumeratesAppend(rows, ids - rest, x);
      assert ids - (rest - {x}) == ids - rest + {x};
      rows, rest := rows + [x], rest - {x};
    }
    assert ids - rest == ids;
  }

  // ---------------------------------------------------------------- ordered queries

  /** `s` is ordered by `key`; rows with equal keys may come in any order. */
  predicate SortedBy(s: seq<Id>, key: map<Id, int>) {
    && (forall x :: x in s ==> x in key)
    && forall i, j :: 0 <= i < j < |s| ==> key[s[i]] <= key[s[j]]
  }

  lemma LeastOf(ids: set<Id>, key: map<Id, int>) returns (m: Id)
    requires ids != {} && ids <= key.Keys
    ensures m in ids && forall x :: x in ids ==> key[m] <= key[x]
  {
    m :| m in ids;
    var rest := ids - {m};
    assert forall x :: x in ids ==> x == m || x in rest;
    if rest != {} {
      var n := LeastOf(rest, key);
      if key[n] < key[m] { m := n; }
    }
  }

  /** An `ORDER BY` query: any enumeration of the rows in ascending key order. */
  method FindAllOrdered(ids: set<Id>, key: map<Id, int>) returns (rows: seq<Id>)
    requires ids <= key.Keys
    ensures Enumerates(rows, ids) && SortedBy(rows, key)
  {
    rows := [];
    var rest := ids;
    while rest != {}
      invariant rest <= ids && Enumerates(rows, ids - rest) && SortedBy(rows, key)
      invariant forall x, y :: x in rows && y in rest ==> key[x] <= key[y]
    {
      ghost var least := LeastOf(rest, key);
      var m :| m in rest && forall x :: x in rest ==> key[m] <= key[x];
      rows, rest := rows + [m], rest - {m};
    }
  }

  lemma HeadListed<T>(t: seq<T>, ids: set<T>)
    requires Enumerates(t, ids) && t != []
    ensures t[0] in ids
  {
    assert t[0] in t;
  }

  /** Keys that are all different leave only one order. */
  lemma SortedUnique(s: seq<Id>, t: seq<Id>, ids: set<Id>, key: map<Id, int>)
    requires Enumerates(s, ids) && Enumerates(t, ids)
    requires SortedBy(s, key) && SortedBy(t, key)
    requires forall x, y :: x in ids && y in ids && x != y ==> key[x] != key[y]
    ensures s == t
    decreases |s|
  {
    if s == [] {
      if t != [] {
        HeadListed(t, ids);
      }
    } else {
      assert s[0] in t && t != [] && t[0] in s;
      var i, j := IndexOf(t, s[0]), IndexOf(s, t[0]);
      assert key[t[0]] <= key[t[i]] && key[s[0]] <= key[s[j]];
      assert s[0] == t[0];
      forall x | x in ids - {s[0]} ensures x in s[1..] && x in t[1..] { }
      SortedUnique(s[1..], t[1..], ids - {s[0]}, key);
    }
  }

  // ---------------------------------------------------------------- `ORDER BY key, id`

  predicate Precedes(key: map<Id, int>, x: Id, y: Id)
    requires x in key && y in key
  {
    key[x] < key[y] || (key[x] == key[y] && x < y)
  }

  predicate Ascending(s: seq<Id>, key: map<Id, int>) {
    && (forall x :: x in s ==> x in key)
    && forall i, j :: 0 <= i < j < |s| ==> Precedes(key, s[i], s[j])
  }

  predicate IsFirst(m: Id, ids: set<Id>, key: map<Id, int>)
    requires ids <= key.Keys
  {
    m in ids && forall x :: x in ids && x != m ==> Precedes(key, m, x)
  }

  lemma FirstExists(ids: set<Id>, key: map<Id, int>)
    requires ids != {} && ids <= key.Keys
    ensures exists m :: IsFirst(m, ids, key)
  {
    var m :| m in ids;
    var rest := ids - {m};
    assert forall x :: x in ids ==> x == m || x in rest;
    if rest == {} {
      assert IsFirst(m, ids, key);
    } else {
      FirstExists(rest, key);
      var n :| IsFirst(n, rest, key);
      assert IsFirst(if Precedes(key, m, n) then m else n, ids, key);
    }
  }

  /** The one answer of a query ordered by `key` and then by id. */
  ghost function Ordered(ids: set<Id>, key: map<Id, int>): (s: seq<Id>)
    requires ids <= key.Keys
    ensures Enumerates(s, ids) && Ascending(s, key)
    decreases |ids|
  {
    if ids == {} then [] else
      FirstExists(ids, key);
      var m :| IsFirst(m, ids, key);
      [m] + Ordered(ids - {m}, key)
  }

  lemma {:induction false} AscendingUnique(s: seq<Id>, t: seq<Id>, ids: set<Id>, key: map<Id, int>)
    requires Enumerates(s, ids) && Enumerates(t, ids)
    requires Ascending(s, key) && Ascending(t, key)
    ensures s == t
    decreases |s|
  {
    if s == [] {
      if t != [] {
        HeadListed(t, ids);
      }
    } else {
      assert s[0] in t && t != [] && t[0] in s;
      var i, j := IndexOf(t, s[0]), IndexOf(s, t[0]);
      assert s[0] == t[0];
      forall x | x in ids - {s[0]} ensures x in s[1..] && x in t[1..] { }
      AscendingUnique(s[1..], t[1..], ids - {s[0]}, key);
    }
  }

  /** Any ascending enumeration is the answer, and only the keys of the rows asked for matter. */
  lemma OrderedUnique(s: seq<Id>, ids: set<Id>, key: map<Id, int>)
    requires ids <= key.Keys && Enumerates(s, ids) && Ascending(s, key)
    ensures s == Ordered(ids, key)
  {
    AscendingUnique(s, Ordered(ids, key), ids, key);
  }

  method FindAllAscending(ids: set<Id>, key: map<Id, int>) returns (rows: seq<Id>)
    requires ids <= key.Keys
    ensures rows == Ordered(ids, key)
  {
    rows := [];
    var rest := ids;
    while rest != {}
      invariant rest <= ids && Enumerates(rows, ids - rest) && Ascending(rows, key)
      invariant forall x, y :: x in rows && y in rest ==> Precedes(key, x, y)
    {
      FirstExists(rest, key);
      var m :| IsFirst(m, rest, key);
      EnumeratesAppend(rows, ids - rest, m);
      assert ids - (rest - {m}) == ids - rest + {m};
      rows, rest := rows + [m], rest - {m};
    }
    assert ids - rest == ids;
    OrderedUnique(rows, ids, key);
  }
}
