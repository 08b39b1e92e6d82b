/**
 * Identity text, its lexicographic order, and the canonical ascending form of a
 * set of identities.  `Ascending` is the reference every in-place or two-pointer
 * routine of the program is compared with.
 */
module Ordering {

  // ----- Lexicographic order on identity text ---------------------------------

  predicate Less(a: string, b: string) {
    if |b| == 0 then false
    else if |a| == 0 then true
    else a[0] < b[0] || (a[0] == b[0] && Less(a[1..], b[1..]))
  }

  lemma {:induction false} LessIrreflexive(a: string)
    ensures !Less(a, a)
  {
    if |a| > 0 {
      LessIrreflexive(a[1..]);
    }
  }

  lemma {:induction false} LessTransitive(a: string, b: string, c: string)
    requires Less(a, b) && Less(b, c)
    ensures Less(a, c)
  {
    if |a| > 0 && a[0] == b[0] && b[0] == c[0] {
      LessTransitive(a[1..], b[1..], c[1..]);
    }
  }

  lemma {:induction false} LessTotal(a: string, b: string)
    ensures Less(a, b) || Less(b, a) || a == b
  {
    if |a| > 0 && |b| > 0 && a[0] == b[0] {
      LessTotal(a[1..], b[1..]);
      if a[1..] == b[1..] {
        assert a == [a[0]] + a[1..] && b == [b[0]] + b[1..];
      }
    }
  }

  lemma LessAsymmetric(a: string, b: string)
    requires Less(a, b)
    ensures !Less(b, a) && a != b
  {
    if Less(b, a) {
      LessTransitive(a, b, a);
    }
    LessIrreflexive(a);
  }

  // ----- Strictly ascending sequences -----------------------------------------

  ghost predicate StrictlyAscending(s: seq<string>) {
    forall i, j | 0 <= i < j < |s| :: Less(s[i], s[j])
  }

  ghost function Elements(s: seq<string>): set<string> {
    set x | x in s
  }

  /** The order in which the program stores any set of identities. */
  ghost function Ascending(elements: set<string>): (s: seq<string>)
    ensures StrictlyAscending(s) && Elements(s) == elements
  {
    if elements == {} then []
    else
      var least := Least(elements);
      var rest := Ascending(elements - {least});
      assert forall x | x in rest :: x in elements - {least};
      assert forall j | 0 <= j < |rest| :: rest[j] in rest && Less(least, rest[j]);
      assert Elements([least] + rest) == {least} + Elements(rest);
      [least] + rest
  }

  ghost predicate IsLeast(elements: set<string>, least: string) {
    least in elements && forall x | x in elements && x != least :: Less(least, x)
  }

  ghost function Least(elements: set<string>): (least: string)
    requires elements != {}
    ensures IsLeast(elements, least)
  {
    LeastExists(elements);
    var least :| IsLeast(elements, least);
    least
  }

  lemma {:induction false} LeastExists(elements: set<string>)
    requires elements != {}
    ensures exists least :: IsLeast(elements, least)
  {
    var candidate :| candidate in elements;
    var rest := elements - {candidate};
    assert forall x | x in elements :: x == candidate || x in rest;
    if rest == {} {
      assert IsLeast(elements, candidate);
    } else {
      LeastExists(rest);
      var least :| IsLeast(rest, least);
      LessTotal(candidate, least);
      if Less(candidate, least) {
        forall x | x in rest && x != least
          ensures Less(candidate, x)
        {
          LessTransitive(candidate, least, x);
        }
        assert IsLeast(elements, candidate);
      } else {
        assert IsLeast(elements, least);
      }
    }
  }

  /** Two strictly ascending sequences over the same elements are one sequence. */
  lemma {:induction false} AscendingUnique(s: seq<string>, t: seq<string>)
    requires StrictlyAscending(s) && StrictlyAscending(t)
    requires Elements(s) == Elements(t)
    ensures s == t
  {
    assert |t| > 0 ==> t[0] in Elements(s);
    if |s| > 0 {
      assert s[0] in Elements(t) && t[0] in Elements(s);
      if s[0] != t[0] {
        assert Less(t[0], s[0]) && Less(s[0], t[0]);
        LessAsymmetric(s[0], t[0]);
      }
      LessIrreflexive(s[0]);
      forall x
        ensures x in Elements(s[1..]) <==> x in Elements(s) && x != s[0]
        ensures x in Elements(t[1..]) <==> x in Elements(t) && x != t[0]
      {
        AscendingTail(s, x);
        AscendingTail(t, x);
      }
      AscendingUnique(s[1..], t[1..]);
      assert s == [s[0]] + s[1..] && t == [t[0]] + t[1..];
    }
  }

  lemma AscendingTail(s: seq<string>, x: string)
    requires StrictlyAscending(s) && |s| > 0
    ensures x in s[1..] <==> x in s && x != s[0]
  {
    if x in s[1..] {
      var j :| 0 <= j < |s| - 1 && s[1..][j] == x;
      assert s[j + 1] == x && Less(s[0], x);
      LessAsymmetric(s[0], x);
    }
  }

  lemma AscendingIs(s: seq<string>, elements: set<string>)
    requires StrictlyAscending(s) && Elements(s) == elements
    ensures s == Ascending(elements)
  {
    AscendingUnique(s, Ascending(elements));
  }

  // ----- The routines ---------------------------------------------------------

  /** Two-pointer intersection of two ascending identity lists. */
  method IntersectSorted(left: seq<string>, right: seq<string>) returns (out: seq<string>)
    requires StrictlyAscending(left) && StrictlyAscending(right)
    ensures out == Ascending(Elements(left) * Elements(right))
  {
    out := [];
    var i, j := 0, 0;
    while i < |left| && j < |right|
      invariant 0 <= i <= |left| && 0 <= j <= |right|
      invariant StrictlyAscending(out)
      invariant forall x :: x in out <==> x in left[..i] && x in right[..j]
      invariant forall a, b | 0 <= a < i && j <= b < |right| :: Less(left[a], right[b])
      invariant forall a, b | i <= a < |left| && 0 <= b < j :: Less(right[b], left[a])
    {
      if left[i] == right[j] {
        forall a | 0 <= a < |out|
          ensures Less(out[a], left[i])
        {
          assert out[a] in out;
        }
        if |out| > 0 {
          LessAsymmetric(out[|out| - 1], left[i]);
        }
        if |out| == 0 || out[|out| - 1] != left[i] {
          out := out + [left[i]];
        }
        assert left[..i + 1] == left[..i] + [left[i]] && right[..j + 1] == right[..j] + [right[j]];
        PrefixDisjoint(left, right, i, j);
        i, j := i + 1, j + 1;
      } else if Less(left[i], right[j]) {
        assert left[..i + 1] == left[..i] + [left[i]];
        NotInPrefix(right, j, left[i]);
        forall b | j <= b < |right|
          ensures Less(left[i], right[b])
        {
          if b > j {
            LessTransitive(left[i], right[j], right[b]);
          }
        }
        i := i + 1;
      } else {
        assert right[..j + 1] == right[..j] + [right[j]];
        LessTotal(left[i], right[j]);
        NotInPrefix(left, i, right[j]);
        forall a | i <= a < |left|
          ensures Less(right[j], left[a])
        {
          if a > i {
            LessTransitive(right[j], left[i], left[a]);
          }
        }
        j := j + 1;
      }
    }
    forall x
      ensures x in out <==> x in left && x in right
    {
      PrefixesSuffice(left, right, i, j, x);
    }
    AscendingIs(out, Elements(left) * Elements(right));
  }

  lemma NotInPrefix(s: seq<string>, n: nat, x: string)
    requires n <= |s|
    requires forall b | 0 <= b < n :: Less(s[b], x)
    ensures x !in s[..n]
  {
    if x in s[..n] {
      var b :| 0 <= b < n && s[..n][b] == x;
      LessIrreflexive(x);
    }
  }

  lemma PrefixDisjoint(left: seq<string>, right: seq<string>, i: nat, j: nat)
    requires StrictlyAscending(left) && StrictlyAscending(right)
    requires i < |left| && j < |right| && left[i] == right[j]
    ensures left[i] !in left[..i] && left[i] !in right[..j]
  {
    NotInPrefix(left, i, left[i]);
    NotInPrefix(right, j, right[j]);
  }

  lemma PrefixesSuffice(left: seq<string>, right: seq<string>, i: nat, j: nat, x: string)
    requires i <= |left| && j <= |right|
    requires i == |left| || j == |right|
    requires forall a, b | 0 <= a < i && j <= b < |right| :: Less(left[a], right[b])
    requires forall a, b | i <= a < |left| && 0 <= b < j :: Less(right[b], left[a])
    ensures x in left && x in right <==> x in left[..i] && x in right[..j]
  {
    if x in left && x in right {
      var a :| 0 <= a < |left| && left[a] == x;
      var b :| 0 <= b < |right| && right[b] == x;
      LessIrreflexive(x);
      assert a < i && b < j;
      assert left[..i][a] == x && right[..j][b] == x;
    }
  }

  /**
   * Exchange sort followed by in-place compaction.  The first `count` cells of
   * the array are the canonical form of what the array held.
   */
  method CanonicalSortUnique(values: array<string>) returns (count: nat)
    modifies values
    ensures count <= values.Length
    ensures values[..count] == Ascending(Elements(old(values[..])))
  {
    ghost var before := values[..];
    ExchangeSort(values);
    SameElements(before, values[..]);
    count := Compact(values);
    AscendingIs(values[..count], Elements(before));
  }

  ghost predicate NonDescending(s: seq<string>) {
    forall i, j | 0 <= i < j < |s| :: !Less(s[j], s[i])
  }

  method ExchangeSort(values: array<string>)
    modifies values
    ensures NonDescending(values[..])
    ensures multiset(values[..]) == multiset(old(values[..]))
  {
    for i := 0 to values.Length
      invariant multiset(values[..]) == multiset(old(values[..])) && Settled(values[..], i)
    {
      for j := i + 1 to values.Length
        invariant multiset(values[..]) == multiset(old(values[..]))
        invariant Settled(values[..], i) && LeastSoFar(values[..], i, j)
      {
        if Less(values[j], values[i]) {
          ghost var was := values[..];
          values[i], values[j] := values[j], values[i];
          SwapPermutes(was, values[..], i, j);
          SwapSettles(was, values[..], i, j);
        }
      }
    }
  }

  /** The first cells are in order and nothing behind them is less. */
  ghost predicate Settled(s: seq<string>, count: nat) {
    forall a, b | 0 <= a < b < |s| && a < count :: !Less(s[b], s[a])
  }

  ghost predicate LeastSoFar(s: seq<string>, i: nat, j: nat) {
    i < |s| && forall b | i < b < j && b < |s| :: !Less(s[b], s[i])
  }

  /** Exchanging a smaller cell to the front keeps what is settled and makes it the least so far. */
  lemma SwapSettles(s: seq<string>, t: seq<string>, i: nat, j: nat)
    requires |s| == |t| && i < j < |s| && t == s[i := s[j]][j := s[i]]
    requires Settled(s, i) && LeastSoFar(s, i, j) && Less(s[j], s[i])
    ensures Settled(t, i) && LeastSoFar(t, i, j + 1)
  {
    LessAsymmetric(s[j], s[i]);
    forall b | i < b < j
      ensures !Less(s[b], s[j])
    {
      if Less(s[b], s[j]) {
        LessTransitive(s[b], s[j], s[i]);
      }
    }
  }

  lemma SwapPermutes(s: seq<string>, t: seq<string>, i: nat, j: nat)
    requires |s| == |t| && i < |s| && j < |s|
    requires t == s[i := s[j]][j := s[i]]
    ensures multiset(s) == multiset(t)
  {
    assert multiset(s[i := s[j]]) == multiset(s) - multiset{s[i]} + multiset{s[j]};
  }

  lemma SameElements(s: seq<string>, t: seq<string>)
    requires multiset(s) == multiset(t)
    ensures Elements(s) == Elements(t)
  {
    assert forall x :: x in s <==> x in multiset(s);
    assert forall x :: x in t <==> x in multiset(t);
  }

  method Compact(values: array<string>) returns (write: nat)
    requires NonDescending(values[..])
    modifies values
    ensures write <= values.Length
    ensures StrictlyAscending(values[..write])
    ensures Elements(values[..write]) == Elements(old(values[..]))
  {
    write := 0;
    for read := 0 to values.Length
      invariant write <= read
      invariant values[read..] == old(values[..])[read..]
      invariant StrictlyAscending(values[..write])
      invariant forall x :: x in values[..write] <==> x in old(values[..])[..read]
      invariant write > 0 ==> read > 0 && values[write - 1] == old(values[..])[read - 1]
      invariant write == 0 ==> read == 0
    {
      ghost var was := old(values[..]);
      assert values[read] == values[read..][0] == was[read];
      assert was[..read + 1] == was[..read] + [was[read]];
      if write == 0 || values[read] != values[write - 1] {
        ghost var kept := values[..write];
        forall a | 0 <= a < write
          ensures Less(kept[a], was[read])
        {
          assert !Less(was[read], was[read - 1]);
          LessTotal(was[read - 1], was[read]);
          if a < write - 1 {
            LessTransitive(kept[a], kept[write - 1], was[read]);
          }
        }
        values[write] := values[read];
        write := write + 1;
        assert values[..write] == kept + [was[read]];
      } else {
        assert was[read] in values[..write];
      }
    }
    assert old(values[..])[..values.Length] == old(values[..]);
  }
}
