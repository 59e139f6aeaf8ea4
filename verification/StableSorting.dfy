/** Python's `sorted(items, key=lambda q: -score)`: descending by score, ties in their original order. */
module StableSorting {

  /** Put x behind everything that scores at least as much. */
  function Insert<T>(sorted: seq<T>, x: T, score: T -> real): (r: seq<T>) {
    if sorted == [] then [x]
    else if score(sorted[0]) >= score(x) then [sorted[0]] + Insert(sorted[1..], x, score)
    else [x] + sorted
  }

  function SortDescending<T>(items: seq<T>, score: T -> real): (r: seq<T>) {
    if items == [] then []
    else Insert(SortDescending(items[..|items| - 1], score), items[|items| - 1], score)
  }

  lemma {:induction false} InsertPermutes<T>(sorted: seq<T>, x: T, score: T -> real)
    ensures multiset(Insert(sorted, x, score)) == multiset(sorted) + multiset{x}
  {
    if sorted != [] && score(sorted[0]) >= score(x) {
      InsertPermutes(sorted[1..], x, score);
      assert sorted == [sorted[0]] + sorted[1..];
    }
  }

  lemma {:induction false} SortPermutes<T>(items: seq<T>, score: T -> real)
    ensures multiset(SortDescending(items, score)) == multiset(items)
  {
    if items != [] {
      var front, last := items[..|items| - 1], items[|items| - 1];
      SortPermutes(front, score);
      InsertPermutes(SortDescending(front, score), last, score);
      assert items == front + [last];
    }
  }

  ghost predicate Descending<T>(s: seq<T>, score: T -> real) {
    forall i, j :: 0 <= i < j < |s| ==> score(s[i]) >= score(s[j])
  }

  lemma {:induction false} InsertKeepsOrder<T>(sorted: seq<T>, x: T, score: T -> real)
    requires Descending(sorted, score)
    ensures Descending(Insert(sorted, x, score), score)
    ensures forall y :: y in Insert(sorted, x, score) ==> y in sorted || y == x
  {
    if sorted != [] && score(sorted[0]) >= score(x) {
      var head, tail := sorted[0], sorted[1..];
      InsertKeepsOrder(tail, x, score);
      var r := Insert(tail, x, score);
      forall i | 0 <= i < |r| ensures score(head) >= score(r[i]) {
        assert r[i] in tail || r[i] == x;
      }
    }
  }

  lemma {:induction false} SortedDescending<T>(items: seq<T>, score: T -> real)
    ensures Descending(SortDescending(items, score), score)
  {
    if items != [] {
      var front := items[..|items| - 1];
      SortedDescending(front, score);
      InsertKeepsOrder(SortDescending(front, score), items[|items| - 1], score);
    }
  }

  /** The items with one particular score, in order. */
  function WithScore<T>(s: seq<T>, score: T -> real, v: real): (r: seq<T>) {
    if s == [] then []
    else (if score(s[0]) == v then [s[0]] else []) + WithScore(s[1..], score, v)
  }

  lemma {:induction false} WithScoreConcat<T>(a: seq<T>, b: seq<T>, score: T -> real, v: real)
    ensures WithScore(a + b, score, v) == WithScore(a, score, v) + WithScore(b, score, v)
  {
    if a == [] {
      assert a + b == b;
    } else {
      var t := a[1..];
      WithScoreConcat(t, b, score, v);
      assert (a + b)[1..] == t + b && (a + b)[0] == a[0];
      var w := if score(a[0]) == v then [a[0]] else [];
      assert WithScore(a, score, v) == w + WithScore(t, score, v);
      assert WithScore(a + b, score, v) == w + WithScore(t + b, score, v);
    }
  }

  lemma {:induction false} InsertStable<T>(sorted: seq<T>, x: T, score: T -> real, v: real)
    requires Descending(sorted, score)
    ensures WithScore(Insert(sorted, x, score), score, v) == WithScore(sorted + [x], score, v)
  {
    if sorted == [] {
    } else if score(sorted[0]) >= score(x) {
      InsertStable(sorted[1..], x, score, v);
      assert (sorted + [x])[1..] == sorted[1..] + [x];
    } else {
      WithScoreConcat(sorted, [x], score, v);
      WithScoreConcat([x], sorted, score, v);
      if score(x) == v {
        NoneWithScore(sorted, score, v);
      }
      assert WithScore([x], score, v) == if score(x) == v then [x] else [];
    }
  }

  lemma {:induction false} NoneWithScore<T>(s: seq<T>, score: T -> real, v: real)
    requires forall i :: 0 <= i < |s| ==> score(s[i]) < v
    ensures WithScore(s, score, v) == []
  {
    if s != [] {
      NoneWithScore(s[1..], score, v);
    }
  }

  /** Items of equal score keep their order. */
  lemma {:induction false} SortStable<T>(items: seq<T>, score: T -> real, v: real)
    ensures WithScore(SortDescending(items, score), score, v) == WithScore(items, score, v)
  {
    if items != [] {
      var front, last := items[..|items| - 1], items[|items| - 1];
      var sorted := SortDescending(front, score);
      SortStable(front, score, v);
      SortedDescending(front, score);
      InsertStable(sorted, last, score, v);
      WithScoreConcat(sorted, [last], score, v);
      WithScoreConcat(front, [last], score, v);
      assert items == front + [last];
    }
  }
}
