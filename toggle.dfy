/**
 * The find-then-delete-or-create step shared by the like toggles and
 * `toggleSubscription`: look up the record whose edge key (subject and
 * actor) is `e`; if there is one, delete it, otherwise store `created`.
 * The store keeps at most one record per edge key; under that invariant a
 * toggle flips the edge, touches no other record, and two toggles cancel.
 */
module Toggle {
  import opened Common
  import opened Stages

  /** The edge keys a collection holds. */
  function Edges<T, E>(s: seq<T>, edge: T -> E): set<E> {
    set i | 0 <= i < |s| :: edge(s[i])
  }

  /** At most one record per edge key. */
  predicate UniqueEdges<T, E(==)>(s: seq<T>, edge: T -> E) {
    forall i, j :: 0 <= i < j < |s| ==> edge(s[i]) != edge(s[j])
  }

  function NotEdge<T, E(==)>(edge: T -> E, e: E): T -> bool {
    (x: T) => edge(x) != e
  }

  /** The records on every edge key except `e`. */
  function OtherEdges<T(!new), E(==)>(s: seq<T>, edge: T -> E, e: E): seq<T> {
    Select(s, NotEdge(edge, e))
  }

  /** One toggle: delete the first record on `e`, or add `created`. A
      record on `e` is either dropped (and nothing else) or `created` is
      appended to the records as they were. */
  function Toggled<T, E(==)>(s: seq<T>, edge: T -> E, e: E, created: T): (r: seq<T>)
    ensures e in Edges(s, edge) ==> |r| == |s| - 1 && multiset(r) <= multiset(s)
    ensures e !in Edges(s, edge) ==> r == s + [created]
  {
    EdgesIndexOf(s, edge, e);
    match IndexOf(s, edge, e)
    case Some(i) =>
      assert s == s[..i] + [s[i]] + s[i + 1..];
      RemoveAt(s, i)
    case None => s + [created]
  }

  lemma EdgesIndexOf<T, E>(s: seq<T>, edge: T -> E, e: E)
    ensures e in Edges(s, edge) <==> IndexOf(s, edge, e).Some?
  {
    if e in Edges(s, edge) {
      var i :| 0 <= i < |s| && edge(s[i]) == e;
    }
  }

  lemma EdgesAppend<T, E>(s: seq<T>, edge: T -> E, x: T)
    ensures Edges(s + [x], edge) == Edges(s, edge) + {edge(x)}
  {
    var t := s + [x];
    assert edge(t[|s|]) == edge(x);
    forall d | d in Edges(t, edge)
      ensures d in Edges(s, edge) + {edge(x)}
    {
      var i :| 0 <= i < |t| && edge(t[i]) == d;
      if i < |s| {
        assert t[i] == s[i];
      }
    }
    forall d | d in Edges(s, edge)
      ensures d in Edges(t, edge)
    {
      var i :| 0 <= i < |s| && edge(s[i]) == d;
      assert t[i] == s[i];
    }
  }

  lemma EdgesRemoveAt<T, E>(s: seq<T>, edge: T -> E, i: nat)
    requires i < |s| && UniqueEdges(s, edge)
    ensures Edges(RemoveAt(s, i), edge) == Edges(s, edge) - {edge(s[i])}
  {
    var r := RemoveAt(s, i);
    forall d | d in Edges(r, edge)
      ensures d in Edges(s, edge) - {edge(s[i])}
    {
      var k :| 0 <= k < |r| && edge(r[k]) == d;
      var src := if k < i then k else k + 1;
      assert r[k] == s[src];
    }
    forall d | d in Edges(s, edge) - {edge(s[i])}
      ensures d in Edges(r, edge)
    {
      var k :| 0 <= k < |s| && edge(s[k]) == d;
      if k < i {
        assert r[k] == s[k];
      } else {
        assert r[k - 1] == s[k];
      }
    }
  }

  /** A toggle keeps at most one record per edge key. */
  lemma ToggleKeepsUnique<T, E>(s: seq<T>, edge: T -> E, e: E, created: T)
    requires UniqueEdges(s, edge) && edge(created) == e
    ensures UniqueEdges(Toggled(s, edge, e, created), edge)
  {
    match IndexOf(s, edge, e)
    case Some(i) =>
      var r := RemoveAt(s, i);
      forall a, b | 0 <= a < b < |r|
        ensures edge(r[a]) != edge(r[b])
      {
        var sa := if a < i then a else a + 1;
        var sb := if b < i then b else b + 1;
        assert r[a] == s[sa] && r[b] == s[sb];
      }
    case None =>
  }

  /** A toggle flips exactly the edge `e`: it is present afterwards iff it was
      absent before, every other edge is as it was, and the collection grows
      by one (the created record) or shrinks by one (the deleted record). */
  lemma ToggleFlipsEdge<T, E>(s: seq<T>, edge: T -> E, e: E, created: T)
    requires UniqueEdges(s, edge) && edge(created) == e
    ensures var r := Toggled(s, edge, e, created);
      && (e in Edges(r, edge) <==> e !in Edges(s, edge))
      && Edges(r, edge) - {e} == Edges(s, edge) - {e}
      && (e in Edges(s, edge) ==> |r| == |s| - 1)
      && (e !in Edges(s, edge) ==> r == s + [created])
  {
    EdgesIndexOf(s, edge, e);
    match IndexOf(s, edge, e)
    case Some(i) =>
      EdgesRemoveAt(s, edge, i);
    case None =>
      EdgesAppend(s, edge, created);
  }

  /** A toggle leaves every record on another edge key untouched, in order. */
  lemma ToggleKeepsOtherRecords<T(!new), E>(s: seq<T>, edge: T -> E, e: E, created: T)
    requires edge(created) == e
    ensures OtherEdges(Toggled(s, edge, e, created), edge, e) == OtherEdges(s, edge, e)
  {
    var p := NotEdge(edge, e);
    match IndexOf(s, edge, e)
    case Some(i) =>
      assert !p(s[i]);
      assert Select([s[i]], p) == [] by {
        assert [s[i]][1..] == [];
      }
      SelectRemoveAt(s, i, p);
    case None =>
      assert !p(created);
      assert Select([created], p) == [] by {
        assert [created][1..] == [];
      }
      SelectAppend(s, [created], p);
  }

  /** Two toggles on the same edge key restore the edges the collection held;
      when the edge was absent, they restore the collection itself. */
  lemma ToggleTwice<T, E>(s: seq<T>, edge: T -> E, e: E, first: T, second: T)
    requires UniqueEdges(s, edge) && edge(first) == e && edge(second) == e
    ensures var r := Toggled(Toggled(s, edge, e, first), edge, e, second);
      && Edges(r, edge) == Edges(s, edge)
      && (e !in Edges(s, edge) ==> r == s)
  {
    var r1 := Toggled(s, edge, e, first);
    ToggleFlipsEdge(s, edge, e, first);
    ToggleKeepsUnique(s, edge, e, first);
    ToggleFlipsEdge(r1, edge, e, second);
    var r := Toggled(r1, edge, e, second);
    assert e in Edges(r, edge) <==> e in Edges(s, edge);
    forall d | d in Edges(s, edge)
      ensures d in Edges(r, edge)
    {
      if d != e {
        assert d in Edges(r1, edge) - {e};
      }
    }
    forall d | d in Edges(r, edge)
      ensures d in Edges(s, edge)
    {
      if d != e {
        assert d in Edges(r1, edge) - {e};
      }
    }
    assert Edges(r, edge) == Edges(s, edge);
    if e !in Edges(s, edge) {
      EdgesIndexOf(s, edge, e);
      assert r1 == s + [first];
      assert IndexOf(r1, edge, e) == Some(|s|);
      assert RemoveAt(r1, |s|) == s;
    }
  }

  /** Deleting the records a predicate rejects keeps at most one record per
      edge key. */
  lemma {:induction false} UniqueEdgesSelect<T(!new), E>(s: seq<T>, edge: T -> E, p: T -> bool)
    requires UniqueEdges(s, edge)
    ensures UniqueEdges(Select(s, p), edge)
  {
    if s != [] {
      var rest := s[1..];
      assert UniqueEdges(rest, edge) by {
        forall i, j | 0 <= i < j < |rest|
          ensures edge(rest[i]) != edge(rest[j])
        {
          assert rest[i] == s[i + 1] && rest[j] == s[j + 1];
        }
      }
      UniqueEdgesSelect(rest, edge, p);
      var tail := Select(rest, p);
      forall x | x in tail
        ensures edge(x) != edge(s[0])
      {
        var k :| 0 <= k < |rest| && rest[k] == x;
        assert s[k + 1] == x;
      }
      var r := Select(s, p);
      if p(s[0]) {
        forall a, b | 0 <= a < b < |r|
          ensures edge(r[a]) != edge(r[b])
        {
          assert r[b] == tail[b - 1] && r[b] in tail;
          if a > 0 {
            assert r[a] == tail[a - 1];
          }
        }
      }
    }
  }
}
