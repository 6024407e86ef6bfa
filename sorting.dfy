/**
 * `$sort` on one field: the BSON comparison order of the values a field can
 * hold, and a sort (insertion sort; which of several records with equal keys
 * comes first is not something the handlers rely on) proved to return an
 * ordered permutation of its input.
 */
module Sorting {
  import opened Common
  import opened Stages

  /** A field value as `$sort` compares it. A missing field sorts as null. */
  datatype Key = Missing | Num(n: int) | Str(s: string) | Oid(id: Id) | Bool(b: bool) | Date(t: int)

  /** BSON orders values of different types: null < numbers < strings <
      ObjectIds < booleans < dates. */
  function Rank(k: Key): nat {
    match k
    case Missing => 0
    case Num(_) => 1
    case Str(_) => 2
    case Oid(_) => 3
    case Bool(_) => 4
    case Date(_) => 5
  }

  /** Strings compare code point by code point; a prefix comes first. */
  predicate StrLe(a: string, b: string) {
    a == [] || (b != [] && (a[0] < b[0] || (a[0] == b[0] && StrLe(a[1..], b[1..]))))
  }

  predicate KeyLe(a: Key, b: Key) {
    if Rank(a) != Rank(b) then Rank(a) < Rank(b)
    else match (a, b)
      case (Num(x), Num(y)) => x <= y
      case (Str(x), Str(y)) => StrLe(x, y)
      case (Oid(x), Oid(y)) => x <= y
      case (Bool(x), Bool(y)) => !x || y
      case (Date(x), Date(y)) => x <= y
      case _ => true
  }

  lemma {:induction false} StrLeTotal(a: string, b: string)
    ensures StrLe(a, b) || StrLe(b, a)
  {
    if a != [] && b != [] && a[0] == b[0] {
      StrLeTotal(a[1..], b[1..]);
    }
  }

  lemma {:induction false} StrLeTrans(a: string, b: string, c: string)
    requires StrLe(a, b) && StrLe(b, c)
    ensures StrLe(a, c)
  {
    if a != [] && a[0] == b[0] && b[0] == c[0] {
      StrLeTrans(a[1..], b[1..], c[1..]);
    }
  }

  /** `KeyLe` is a total preorder, so "ordered by the key" is meaningful. */
  lemma KeyLeTotal(a: Key, b: Key)
    ensures KeyLe(a, b) || KeyLe(b, a)
  {
    if a.Str? && b.Str? {
      StrLeTotal(a.s, b.s);
    }
  }

  lemma KeyLeTrans(a: Key, b: Key, c: Key)
    requires KeyLe(a, b) && KeyLe(b, c)
    ensures KeyLe(a, c)
  {
    if a.Str? && b.Str? && c.Str? {
      StrLeTrans(a.s, b.s, c.s);
    }
  }

  /** `x` may come before `y` in a sort on `key`, ascending (`1`) or
      descending (`-1`). */
  predicate Precedes<T>(key: T -> Key, ascending: bool, x: T, y: T) {
    if ascending then KeyLe(key(x), key(y)) else KeyLe(key(y), key(x))
  }

  predicate SortedBy<T>(s: seq<T>, key: T -> Key, ascending: bool) {
    forall i, j :: 0 <= i < j < |s| ==> Precedes(key, ascending, s[i], s[j])
  }

  lemma PrecedesTotal<T>(key: T -> Key, ascending: bool, x: T, y: T)
    ensures Precedes(key, ascending, x, y) || Precedes(key, ascending, y, x)
  {
    KeyLeTotal(key(x), key(y));
  }

  lemma PrecedesTrans<T>(key: T -> Key, ascending: bool, x: T, y: T, z: T)
    requires Precedes(key, ascending, x, y) && Precedes(key, ascending, y, z)
    ensures Precedes(key, ascending, x, z)
  {
    if ascending {
      KeyLeTrans(key(x), key(y), key(z));
    } else {
      KeyLeTrans(key(z), key(y), key(x));
    }
  }

  /** A record that may precede the head of a sorted sequence may precede
      all of it. */
  lemma PrecedesAll<T>(x: T, s: seq<T>, key: T -> Key, ascending: bool)
    requires SortedBy(s, key, ascending)
    requires s != [] && Precedes(key, ascending, x, s[0])
    ensures forall j :: 0 <= j < |s| ==> Precedes(key, ascending, x, s[j])
  {
    forall j | 0 < j < |s|
      ensures Precedes(key, ascending, x, s[j])
    {
      PrecedesTrans(key, ascending, x, s[0], s[j]);
    }
  }

  /** Places `x` into a sorted sequence. */
  function Insert<T>(x: T, s: seq<T>, key: T -> Key, ascending: bool): (r: seq<T>)
    requires SortedBy(s, key, ascending)
    ensures SortedBy(r, key, ascending)
    ensures multiset(r) == multiset(s) + multiset{x}
  {
    if s == [] then [x]
    else if Precedes(key, ascending, x, s[0]) then
      PrecedesAll(x, s, key, ascending);
      [x] + s
    else
      var rest := Insert(x, s[1..], key, ascending);
      InsertBehindHead(x, s, rest, key, ascending);
      [s[0]] + rest
  }

  lemma InsertBehindHead<T>(x: T, s: seq<T>, rest: seq<T>, key: T -> Key, ascending: bool)
    requires s != [] && SortedBy(s, key, ascending)
    requires !Precedes(key, ascending, x, s[0])
    requires SortedBy(rest, key, ascending)
    requires multiset(rest) == multiset(s[1..]) + multiset{x}
    ensures SortedBy([s[0]] + rest, key, ascending)
    ensures multiset([s[0]] + rest) == multiset(s) + multiset{x}
  {
    PrecedesTotal(key, ascending, x, s[0]);
    forall j | 0 <= j < |rest|
      ensures Precedes(key, ascending, s[0], rest[j])
    {
      assert rest[j] in multiset(rest);
      if rest[j] != x {
        assert rest[j] in s[1..];
      }
    }
    assert s == [s[0]] + s[1..];
  }

  /** `$sort: { field: ascending ? 1 : -1 }`. */
  function SortBy<T>(s: seq<T>, key: T -> Key, ascending: bool): (r: seq<T>)
    ensures SortedBy(r, key, ascending)
    ensures multiset(r) == multiset(s)
  {
    if s == [] then []
    else
      assert s == [s[0]] + s[1..];
      Insert(s[0], SortBy(s[1..], key, ascending), key, ascending)
  }

  /** Sorting keeps exactly the records it is given. */
  lemma SortByMembers<T(!new)>(s: seq<T>, key: T -> Key, ascending: bool)
    ensures |SortBy(s, key, ascending)| == |s|
    ensures forall x :: x in SortBy(s, key, ascending) <==> x in s
  {
    var r := SortBy(s, key, ascending);
    assert |r| == |multiset(r)| == |multiset(s)| == |s|;
    forall x
      ensures x in r <==> x in s
    {
      assert x in r <==> x in multiset(r);
      assert x in s <==> x in multiset(s);
    }
  }

  lemma PrecedesRefl<T>(key: T -> Key, ascending: bool, x: T, y: T)
    requires key(x) == key(y)
    ensures Precedes(key, ascending, x, y)
  {
    KeyLeTotal(key(x), key(y));
  }

  /** A `$lookup` + `$unwind` after a `$sort` keeps the order: each joined
      record carries the sort key of the record it came from. */
  lemma {:induction false} FlatMapSorted<T, U(!new)>(s: seq<T>, f: T -> seq<U>, key: T -> Key, joinedKey: U -> Key, ascending: bool)
    requires SortedBy(s, key, ascending)
    requires forall i, y :: 0 <= i < |s| && y in f(s[i]) ==> joinedKey(y) == key(s[i])
    ensures SortedBy(FlatMap(s, f), joinedKey, ascending)
  {
    if s != [] {
      var head, rest := f(s[0]), FlatMap(s[1..], f);
      assert SortedBy(s[1..], key, ascending) by {
        forall i, j | 0 <= i < j < |s[1..]|
          ensures Precedes(key, ascending, s[1..][i], s[1..][j])
        {
          assert s[1..][i] == s[i + 1] && s[1..][j] == s[j + 1];
        }
      }
      forall i, y | 0 <= i < |s[1..]| && y in f(s[1..][i])
        ensures joinedKey(y) == key(s[1..][i])
      {
        assert s[1..][i] == s[i + 1];
      }
      FlatMapSorted(s[1..], f, key, joinedKey, ascending);
      FlatMapMembers(s[1..], f);
      var r := head + rest;
      forall a, b | 0 <= a < b < |r|
        ensures Precedes(joinedKey, ascending, r[a], r[b])
      {
        if b < |head| {
          assert r[a] in head && r[b] in head;
          PrecedesRefl(joinedKey, ascending, r[a], r[b]);
        } else if a < |head| {
          assert r[a] in head;
          assert r[b] == rest[b - |head|] && r[b] in rest;
          assert exists k :: 0 <= k < |s[1..]| && r[b] in f(s[1..][k]);
          var k :| 0 <= k < |s[1..]| && r[b] in f(s[1..][k]);
          assert s[1..][k] == s[k + 1];
          assert Precedes(key, ascending, s[0], s[k + 1]);
        } else {
          assert r[a] == rest[a - |head|] && r[b] == rest[b - |head|];
        }
      }
    }
  }

  /** A descending sort on a timestamp lists the newest first. */
  lemma NewestFirst<T>(s: seq<T>, key: T -> Key, time: T -> int)
    requires forall x :: key(x) == Date(time(x))
    requires SortedBy(s, key, false)
    ensures forall i, j :: 0 <= i < j < |s| ==> time(s[i]) >= time(s[j])
  {
    forall i, j | 0 <= i < j < |s|
      ensures time(s[i]) >= time(s[j])
    {
      assert Precedes(key, false, s[i], s[j]);
    }
  }
}
