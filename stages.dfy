/**
 * The meaning of the aggregation stages and driver calls the handlers use,
 * over sequences of records: `$match` keeps the records a predicate accepts,
 * `$lookup` + `$size` counts the records of another collection that carry a
 * key, `$group`/`$sum` adds up a field, and `findOne`/`findById` pick the
 * first record whose key matches.
 */
module Stages {
  import opened Common

  /** `$match`: the records `p` accepts, in their stored order. */
  function Select<T(!new)>(s: seq<T>, p: T -> bool): (r: seq<T>)
    ensures |r| <= |s|
    ensures forall x :: x in r <==> x in s && p(x)
    ensures forall i :: 0 <= i < |r| ==> p(r[i])
  {
    if s == [] then [] else (if p(s[0]) then [s[0]] else []) + Select(s[1..], p)
  }

  /** Applying a per-record projection (`$addFields`, `$project`). */
  function Project<T, U>(s: seq<T>, f: T -> U): (r: seq<U>)
    ensures |r| == |s|
    ensures forall i :: 0 <= i < |s| ==> r[i] == f(s[i])
  {
    if s == [] then [] else [f(s[0])] + Project(s[1..], f)
  }

  lemma ProjectMembers<T(!new), U>(s: seq<T>, f: T -> U, y: U)
    ensures y in Project(s, f) <==> exists x :: x in s && f(x) == y
  {
    var r := Project(s, f);
    if y in r {
      var i :| 0 <= i < |r| && r[i] == y;
      assert s[i] in s && f(s[i]) == y;
    }
    if exists x :: x in s && f(x) == y {
      var x :| x in s && f(x) == y;
      var i :| 0 <= i < |s| && s[i] == x;
      assert r[i] == y;
    }
  }

  /** `$group` with `$sum` of a numeric field: 0 for no records, and never
      negative when the field never is. */
  function SumOf<T>(s: seq<T>, f: T -> int): (r: int)
    ensures s == [] ==> r == 0
    ensures (forall i :: 0 <= i < |s| ==> f(s[i]) >= 0) ==> r >= 0
  {
    if s == [] then 0
    else
      assert forall i :: 0 <= i < |s[1..]| ==> s[1..][i] == s[i + 1];
      f(s[0]) + SumOf(s[1..], f)
  }

  /** `findOne` / `findById`: the position of the first record whose key is `k`. */
  function IndexOf<T, K(==)>(s: seq<T>, key: T -> K, k: K): (r: Option<nat>)
    ensures r.Some? ==> r.value < |s| && key(s[r.value]) == k
    ensures r.Some? ==> forall j :: 0 <= j < r.value ==> key(s[j]) != k
    ensures r.None? <==> forall j :: 0 <= j < |s| ==> key(s[j]) != k
  {
    if s == [] then None
    else if key(s[0]) == k then Some(0)
    else match IndexOf(s[1..], key, k)
      case Some(i) => Some(i + 1)
      case None => None
  }

  /** Deleting the record at position `i` (`findByIdAndDelete` after the lookup). */
  function RemoveAt<T>(s: seq<T>, i: nat): (r: seq<T>)
    requires i < |s|
    ensures |r| == |s| - 1
    ensures forall j :: 0 <= j < i ==> r[j] == s[j]
    ensures forall j :: i <= j < |r| ==> r[j] == s[j + 1]
  {
    s[..i] + s[i + 1..]
  }

  lemma {:induction false} SelectAppend<T(!new)>(s: seq<T>, t: seq<T>, p: T -> bool)
    ensures Select(s + t, p) == Select(s, p) + Select(t, p)
  {
    if s == [] {
      assert s + t == t;
    } else {
      assert (s + t)[1..] == s[1..] + t;
      SelectAppend(s[1..], t, p);
    }
  }

  lemma {:induction false} SumOfAppend<T>(s: seq<T>, t: seq<T>, f: T -> int)
    ensures SumOf(s + t, f) == SumOf(s, f) + SumOf(t, f)
  {
    if s == [] {
      assert s + t == t;
    } else {
      assert (s + t)[1..] == s[1..] + t;
      SumOfAppend(s[1..], t, f);
    }
  }

  /** Deleting one record removes it from `$match` results exactly when the
      predicate accepted it. */
  lemma {:induction false} SelectRemoveAt<T(!new)>(s: seq<T>, i: nat, p: T -> bool)
    requires i < |s|
    ensures Select(RemoveAt(s, i), p)
            == Select(s[..i], p) + Select(s[i + 1..], p)
    ensures Select(s, p)
            == Select(s[..i], p) + (Select([s[i]], p) + Select(s[i + 1..], p))
  {
    SelectAppend(s[..i], s[i + 1..], p);
    var tail := [s[i]] + s[i + 1..];
    assert s == s[..i] + tail;
    SelectAppend(s[..i], tail, p);
    SelectAppend([s[i]], s[i + 1..], p);
  }

  /** A `$match` that accepts none of the records yields nothing. */
  lemma {:induction false} SelectNone<T(!new)>(s: seq<T>, p: T -> bool)
    requires forall x :: x in s ==> !p(x)
    ensures Select(s, p) == []
  {
    if s != [] {
      assert !p(s[0]);
      assert forall x :: x in s[1..] ==> x in s;
      SelectNone(s[1..], p);
    }
  }

  /** `$match` keeps each accepted record exactly as often as it is stored,
      and drops every other record. */
  lemma {:induction false} SelectCount<T(!new)>(s: seq<T>, p: T -> bool, x: T)
    ensures multiset(Select(s, p))[x] == if p(x) then multiset(s)[x] else 0
  {
    if s != [] {
      assert s == [s[0]] + s[1..];
      SelectCount(s[1..], p, x);
    }
  }

  /** A projection that keeps its record (`key` reads it back) yields each
      output exactly as often as its record is stored. */
  lemma {:induction false} ProjectCount<T, U>(s: seq<T>, f: T -> U, key: U -> T, y: U)
    requires forall i :: 0 <= i < |s| ==> key(f(s[i])) == s[i]
    ensures multiset(Project(s, f))[y] == if f(key(y)) == y then multiset(s)[key(y)] else 0
  {
    if s != [] {
      assert s == [s[0]] + s[1..];
      assert key(f(s[0])) == s[0];
      ProjectCount(s[1..], f, key, y);
    }
  }

  /** `$lookup` followed by `$unwind`: each record is replaced by one record
      per document it joins with, in order; a record that joins with none is
      dropped. */
  function FlatMap<T, U>(s: seq<T>, f: T -> seq<U>): seq<U> {
    if s == [] then [] else f(s[0]) + FlatMap(s[1..], f)
  }

  lemma {:induction false} FlatMapMembers<T, U(!new)>(s: seq<T>, f: T -> seq<U>)
    ensures forall y :: y in FlatMap(s, f) <==> exists i :: 0 <= i < |s| && y in f(s[i])
  {
    if s != [] {
      var rest := s[1..];
      FlatMapMembers(rest, f);
      forall y | y in FlatMap(s, f)
        ensures exists i :: 0 <= i < |s| && y in f(s[i])
      {
        if y !in f(s[0]) {
          assert y in FlatMap(rest, f);
          assert exists i :: 0 <= i < |rest| && y in f(rest[i]);
          var k :| 0 <= k < |rest| && y in f(rest[k]);
          assert rest[k] == s[k + 1];
        }
      }
      forall y | exists i :: 0 <= i < |s| && y in f(s[i])
        ensures y in FlatMap(s, f)
      {
        var i :| 0 <= i < |s| && y in f(s[i]);
        if i > 0 {
          assert s[i] == rest[i - 1];
        }
      }
    }
  }

  /** When every document a record joins with names that record
      (`source`), `$lookup` + `$unwind` yields a document as many times as
      its record is stored, times the times the record joins with it. */
  lemma {:induction false} FlatMapCount<T, U>(s: seq<T>, f: T -> seq<U>, source: U -> T, y: U)
    requires forall i, z :: 0 <= i < |s| && z in f(s[i]) ==> source(z) == s[i]
    ensures multiset(FlatMap(s, f))[y] == multiset(s)[source(y)] * multiset(f(source(y)))[y]
  {
    if s != [] {
      var tail := s[1..];
      assert s == [s[0]] + tail;
      assert forall i, z :: 0 <= i < |tail| && z in f(tail[i]) ==> source(z) == s[i + 1];
      FlatMapCount(tail, f, source, y);
      assert FlatMap(s, f) == f(s[0]) + FlatMap(tail, f);
      var m := multiset(f(source(y)))[y];
      var rest := multiset(tail)[source(y)];
      assert multiset(FlatMap(s, f))[y] == multiset(f(s[0]))[y] + rest * m;
      if s[0] == source(y) {
        assert multiset(s)[source(y)] == rest + 1;
        MulSucc(rest, m);
      } else {
        assert y !in f(s[0]);
        assert multiset(s)[source(y)] == rest;
      }
    }
  }

  /** When each record joins with a document `c` times if `p` accepts the
      record and never otherwise, `$lookup` + `$unwind` yields that document
      `c` times per accepted record. */
  lemma {:induction false} FlatMapUniformCount<T(!new), U>(s: seq<T>, f: T -> seq<U>, p: T -> bool, c: nat, y: U)
    requires forall i :: 0 <= i < |s| ==> multiset(f(s[i]))[y] == if p(s[i]) then c else 0
    ensures multiset(FlatMap(s, f))[y] == |Select(s, p)| * c
  {
    if s != [] {
      var tail := s[1..];
      assert forall i :: 0 <= i < |tail| ==> tail[i] == s[i + 1];
      FlatMapUniformCount(tail, f, p, c, y);
      assert FlatMap(s, f) == f(s[0]) + FlatMap(tail, f);
      assert Select(s, p) == (if p(s[0]) then [s[0]] else []) + Select(tail, p);
      if p(s[0]) {
        MulSucc(|Select(tail, p)|, c);
      }
    }
  }

  /** Two `$match` stages in a row keep what their conjunction keeps. */
  lemma {:induction false} SelectSelect<T(!new)>(s: seq<T>, p: T -> bool, q: T -> bool, both: T -> bool)
    requires forall x :: both(x) == (p(x) && q(x))
    ensures Select(Select(s, p), q) == Select(s, both)
  {
    if s != [] {
      var x, tail := s[0], s[1..];
      SelectSelect(tail, p, q, both);
      var kept := Select(tail, p);
      if p(x) {
        assert Select(s, p) == [x] + kept;
        assert ([x] + kept)[1..] == kept;
        assert Select([x] + kept, q) == (if q(x) then [x] else []) + Select(kept, q);
      } else {
        assert Select(s, p) == kept;
      }
      assert Select(s, both) == (if both(x) then [x] else []) + Select(tail, both);
    }
  }

  lemma MulSucc(a: nat, b: nat)
    ensures (a + 1) * b == b + a * b
  {
  }

  /** Raising `f` by one on a single record that `p` accepts raises the
      `$group` sum over the `$match` by one. */
  lemma {:induction false} SumOfSelectBump<T(!new)>(s: seq<T>, t: seq<T>, i: nat, p: T -> bool, f: T -> int)
    requires |s| == |t| && i < |s|
    requires forall j :: 0 <= j < |s| && j != i ==> t[j] == s[j]
    requires p(s[i]) && p(t[i]) && f(t[i]) == f(s[i]) + 1
    ensures SumOf(Select(t, p), f) == SumOf(Select(s, p), f) + 1
  {
    var pre, post := s[..i], s[i + 1..];
    assert t[..i] == pre;
    assert t[i + 1..] == post;
    assert s == pre + ([s[i]] + post);
    assert t == pre + ([t[i]] + post);
    assert Select([s[i]], p) == [s[i]] by {
      assert [s[i]][1..] == [];
    }
    assert Select([t[i]], p) == [t[i]] by {
      assert [t[i]][1..] == [];
    }
    SelectAppend(pre, [s[i]] + post, p);
    SelectAppend([s[i]], post, p);
    SelectAppend(pre, [t[i]] + post, p);
    SelectAppend([t[i]], post, p);
    var sp, pp := Select(pre, p), Select(post, p);
    SumOfAppend(sp, [s[i]] + pp, f);
    SumOfAppend([s[i]], pp, f);
    SumOfAppend(sp, [t[i]] + pp, f);
    SumOfAppend([t[i]], pp, f);
  }


}
