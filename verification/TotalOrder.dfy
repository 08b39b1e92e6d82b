/** Sequences sorted by a strict total order: one arrangement for each multiset. */
module TotalOrder {

  /** Irreflexive, transitive and total. */
  ghost predicate IsStrictTotal<T(!new)>(less: (T, T) -> bool) {
    && (forall a :: !less(a, a))
    && (forall a, b, c | less(a, b) && less(b, c) :: less(a, c))
    && (forall a, b :: less(a, b) || less(b, a) || a == b)
  }

  ghost predicate Sorted<T>(less: (T, T) -> bool, s: seq<T>) {
    forall i, j | 0 <= i < j < |s| :: !less(s[j], s[i])
  }

  /** Inserting before the first element that is not less keeps the order. */
  function Insert<T>(less: (T, T) -> bool, x: T, s: seq<T>): seq<T> {
    if s == [] then [x] else if less(s[0], x) then [s[0]] + Insert(less, x, s[1..]) else [x] + s
  }

  lemma {:induction false} InsertMembers<T>(less: (T, T) -> bool, x: T, s: seq<T>)
    ensures forall y :: y in Insert(less, x, s) <==> y == x || y in s
  {
    if s != [] && less(s[0], x) {
      InsertMembers(less, x, s[1..]);
      assert forall y :: y in s <==> y == s[0] || y in s[1..];
    }
  }

  lemma {:induction false} InsertSorted<T(!new)>(less: (T, T) -> bool, x: T, s: seq<T>)
    requires IsStrictTotal(less) && Sorted(less, s)
    ensures Sorted(less, Insert(less, x, s))
  {
    if s != [] {
      if less(s[0], x) {
        var rest := Insert(less, x, s[1..]);
        InsertSorted(less, x, s[1..]);
        InsertMembers(less, x, s[1..]);
        forall j | 0 <= j < |rest|
          ensures !less(rest[j], s[0])
        {
          assert rest[j] in rest;
          if rest[j] != x {
            var k :| 0 <= k < |s| - 1 && s[1..][k] == rest[j];
            assert s[k + 1] == rest[j];
          }
        }
      } else {
        HeadIsLeast(less, x, s);
      }
    }
  }

  lemma HeadIsLeast<T(!new)>(less: (T, T) -> bool, x: T, s: seq<T>)
    requires IsStrictTotal(less) && Sorted(less, s) && s != [] && !less(s[0], x)
    ensures forall j | 0 <= j < |s| :: !less(s[j], x)
  {
    forall j | 0 <= j < |s|
      ensures !less(s[j], x)
    {
      if j > 0 {
        assert !less(s[j], s[0]);
        assert less(s[0], s[j]) || s[0] == s[j];
      }
    }
  }

  lemma TailMultiset<T>(s: seq<T>)
    requires s != []
    ensures multiset(s[1..]) == multiset(s) - multiset{s[0]}
  {
    assert s == [s[0]] + s[1..];
  }

  lemma FirstIsMinimal<T(!new)>(less: (T, T) -> bool, s: seq<T>, x: T)
    requires IsStrictTotal(less) && Sorted(less, s) && x in multiset(s)
    ensures s != [] && !less(x, s[0])
  {
    var k :| 0 <= k < |s| && s[k] == x;
  }

  /** Two sorted sequences with the same elements, repeats counted, are one sequence. */
  lemma {:induction false} SortedUnique<T(!new)>(less: (T, T) -> bool, s: seq<T>, t: seq<T>)
    requires IsStrictTotal(less) && Sorted(less, s) && Sorted(less, t) && multiset(s) == multiset(t)
    ensures s == t
  {
    assert |s| == |multiset(s)| == |multiset(t)| == |t|;
    if s != [] {
      assert s[0] in multiset(s) && t[0] in multiset(t);
      FirstIsMinimal(less, s, t[0]);
      FirstIsMinimal(less, t, s[0]);
      TailMultiset(s);
      TailMultiset(t);
      SortedUnique(less, s[1..], t[1..]);
      assert s == [s[0]] + s[1..] && t == [t[0]] + t[1..];
    }
  }
}
