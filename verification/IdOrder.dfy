// The order JavaScript's default sort puts on strings, and sorting by it.
module IdOrder {
  /** Code-unit lexicographic order, as used by `Array.prototype.sort` without a comparator. */
  predicate LeqText(a: string, b: string) {
    a == "" || (b != "" && (a[0] < b[0] || (a[0] == b[0] && LeqText(a[1..], b[1..]))))
  }

  /** One text comes before another if it begins it, or if they differ first where it has the smaller code unit. */
  lemma {:induction false} LeqTextMeans(a: string, b: string)
    ensures LeqText(a, b) <==> a <= b || exists i :: 0 <= i < |a| && i < |b| && a[..i] == b[..i] && a[i] < b[i]
    decreases |a|
  {
    if a != "" && b != "" && a[0] == b[0] {
      LeqTextMeans(a[1..], b[1..]);
      if i :| 0 <= i < |a[1..]| && i < |b[1..]| && a[1..][..i] == b[1..][..i] && a[1..][i] < b[1..][i] {
        assert a[..i + 1] == [a[0]] + a[1..][..i] && b[..i + 1] == [b[0]] + b[1..][..i];
        assert a[i + 1] < b[i + 1];
      }
      if i :| 0 <= i < |a| && i < |b| && a[..i] == b[..i] && a[i] < b[i] {
        assert a[1..][..i - 1] == a[..i][1..] && b[1..][..i - 1] == b[..i][1..];
        assert a[1..][i - 1] < b[1..][i - 1];
      }
      if a[1..] <= b[1..] { assert a == [a[0]] + a[1..] && b == [b[0]] + b[1..]; }
      if a <= b { assert a[1..] <= b[1..]; }
    } else if a != "" && b != "" && a[0] < b[0] {
      assert a[..0] == b[..0];
    }
  }

  datatype TaskId = TaskId(text: string)

  predicate Leq(a: TaskId, b: TaskId) {
    LeqText(a.text, b.text)
  }

  lemma {:induction false} LeqTotal(a: string, b: string)
    ensures LeqText(a, b) || LeqText(b, a)
  {
    if a != "" && b != "" && a[0] == b[0] {
      LeqTotal(a[1..], b[1..]);
    }
  }

  lemma {:induction false} LeqAntisymmetric(a: string, b: string)
    requires LeqText(a, b) && LeqText(b, a)
    ensures a == b
  {
    if a != "" {
      LeqAntisymmetric(a[1..], b[1..]);
      assert a == [a[0]] + a[1..] && b == [b[0]] + b[1..];
    }
  }

  lemma {:induction false} LeqTransitive(a: string, b: string, c: string)
    requires LeqText(a, b) && LeqText(b, c)
    ensures LeqText(a, c)
  {
    if a != "" && a[0] == b[0] && b[0] == c[0] {
      LeqTransitive(a[1..], b[1..], c[1..]);
    }
  }

  predicate Sorted(q: seq<TaskId>) {
    forall i, j :: 0 <= i < j < |q| ==> Leq(q[i], q[j])
  }

  predicate Distinct<T(==)>(q: seq<T>) {
    forall i, j :: 0 <= i < j < |q| ==> q[i] != q[j]
  }

  ghost function Elems<T>(q: seq<T>): set<T> {
    set x | x in q
  }

  function Insert(x: TaskId, q: seq<TaskId>): (r: seq<TaskId>)
    requires Sorted(q)
    ensures Sorted(r) && multiset(r) == multiset(q) + multiset{x}
  {
    if q == [] then [x]
    else if Leq(x, q[0]) then
      assert forall j :: 0 <= j < |q| ==> Leq(x, q[j]) by {
        forall j | 0 < j < |q| ensures Leq(x, q[j]) { LeqTransitive(x.text, q[0].text, q[j].text); }
      }
      [x] + q
    else
      LeqTotal(x.text, q[0].text);
      var rest := Insert(x, q[1..]);
      assert q == [q[0]] + q[1..];
      assert forall j :: 0 <= j < |rest| ==> Leq(q[0], rest[j]) by {
        forall j | 0 <= j < |rest| ensures Leq(q[0], rest[j]) {
          assert rest[j] in multiset(rest);
          assert rest[j] == x || rest[j] in q[1..];
        }
      }
      [q[0]] + rest
  }

  /** The sorted arrangement of `q`; unique because `Leq` is a total order. */
  function Sort(q: seq<TaskId>): (r: seq<TaskId>)
    ensures Sorted(r) && multiset(r) == multiset(q)
  {
    if q == [] then []
    else
      assert q == [q[0]] + q[1..];
      Insert(q[0], Sort(q[1..]))
  }

  lemma SortElems(q: seq<TaskId>)
    ensures |Sort(q)| == |q|
    ensures forall x :: x in Sort(q) <==> x in q
    ensures Distinct(q) ==> Distinct(Sort(q))
  {
    var r := Sort(q);
    assert |r| == |multiset(r)| == |multiset(q)| == |q|;
    forall x ensures x in r <==> x in q {
      assert x in r <==> x in multiset(r);
      assert x in q <==> x in multiset(q);
    }
    if Distinct(q) {
      DistinctMultiplicity(q);
      MultiplicityDistinct(r);
    }
  }

  lemma {:induction false} DistinctMultiplicity<T>(q: seq<T>)
    requires Distinct(q)
    ensures forall x :: multiset(q)[x] <= 1
  {
    if q != [] {
      DistinctMultiplicity(q[1..]);
      assert q == [q[0]] + q[1..];
      assert q[0] !in q[1..];
    }
  }

  lemma {:induction false} MultiplicityDistinct<T>(q: seq<T>)
    requires forall x :: multiset(q)[x] <= 1
    ensures Distinct(q)
  {
    if q != [] {
      assert q == [q[0]] + q[1..];
      forall x ensures multiset(q[1..])[x] <= 1 {
        assert multiset(q)[x] <= 1;
      }
      MultiplicityDistinct(q[1..]);
      assert multiset(q)[q[0]] == 1 + multiset(q[1..])[q[0]];
      assert q[0] !in multiset(q[1..]);
    }
  }

  lemma DistinctConcat<T>(a: seq<T>, b: seq<T>)
    requires Distinct(a) && Distinct(b) && forall x :: x in b ==> x !in a
    ensures Distinct(a + b)
  {
    var c := a + b;
    forall i, j | 0 <= i < j < |c| ensures c[i] != c[j] {
      if i < |a| <= j {
        assert c[j] in b && c[i] in a;
      }
    }
  }

  /** A sequence without repetitions has as many elements as its set. */
  lemma {:induction false} DistinctCardinality<T>(q: seq<T>)
    requires Distinct(q)
    ensures |Elems(q)| == |q|
  {
    if q != [] {
      var front := q[..|q| - 1];
      DistinctCardinality(front);
      assert Elems(q) == Elems(front) + {q[|q| - 1]};
      assert q[|q| - 1] !in front;
    }
  }
}
