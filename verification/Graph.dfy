/**
 * Conflict graphs over the canonical path order and the exact search for a
 * maximum set of mutually independent paths.
 *
 * A candidate mask is a subset of the path indices, so it is a `set<nat>` here;
 * the exhaustive enumeration counts real bit masks.
 */
module Graph {

  datatype ConflictGraph = ConflictGraph(pathCount: nat, adjacent: seq<seq<bool>>) {

    ghost predicate Valid() {
      && |adjacent| == pathCount
      && forall i | 0 <= i < pathCount :: |adjacent[i]| == pathCount
    }

    predicate Edge(i: nat, j: nat)
      requires Valid()
    {
      i < pathCount && j < pathCount && adjacent[i][j]
    }

    ghost predicate Symmetric()
      requires Valid()
    {
      forall i: nat, j: nat :: Edge(i, j) == Edge(j, i)
    }

    predicate HasVertex(v: nat) {
      v < pathCount
    }

    function All(): set<nat> {
      set v: nat | v < pathCount && HasVertex(v)
    }

    ghost function Neighbours(v: nat): set<nat>
      requires Valid()
    {
      set w: nat | w < pathCount && Edge(v, w)
    }
  }

  ghost predicate Independent(g: ConflictGraph, s: set<nat>)
    requires g.Valid()
  {
    forall i, j | i in s && j in s && i != j :: !g.Edge(i, j)
  }

  // ----- Maximum independent set size -----------------------------------------

  function Max(a: nat, b: nat): nat {
    if a < b then b else a
  }

  ghost predicate IsMin(s: set<nat>, m: nat) {
    m in s && forall x | x in s :: m <= x
  }

  lemma {:induction false} MinExists(s: set<nat>)
    requires s != {}
    ensures exists m :: IsMin(s, m)
  {
    var x :| x in s;
    if s == {x} {
      assert IsMin(s, x);
    } else {
      MinExists(s - {x});
      var m :| IsMin(s - {x}, m);
      assert forall y | y in s :: y == x || y in s - {x};
      assert IsMin(s, if x < m then x else m);
    }
  }

  ghost function Min(s: set<nat>): (m: nat)
    requires s != {}
    ensures IsMin(s, m)
  {
    MinExists(s);
    var m :| IsMin(s, m);
    m
  }

  /** What is left of the candidates once vertex v has been taken. */
  ghost function Rest(g: ConflictGraph, s: set<nat>, v: nat): set<nat>
    requires g.Valid()
  {
    s - g.Neighbours(v) - {v}
  }

  /** The largest size of an independent subset of the candidates. */
  ghost predicate IsMaximumSize(g: ConflictGraph, s: set<nat>, size: nat)
    requires g.Valid()
  {
    && (exists t :: t <= s && Independent(g, t) && |t| == size)
    && (forall t :: t <= s && Independent(g, t) ==> |t| <= size)
  }

  lemma {:induction false} MaximumSizeExists(g: ConflictGraph, s: set<nat>, n: nat)
    requires g.Valid()
    requires forall t :: t <= s && Independent(g, t) ==> |t| <= n
    ensures exists size: nat :: IsMaximumSize(g, s, size)
  {
    if t :| t <= s && Independent(g, t) && |t| == n {
      assert IsMaximumSize(g, s, n);
    } else {
      assert {} <= s && Independent(g, {});
      MaximumSizeExists(g, s, n - 1);
    }
  }

  ghost function Alpha(g: ConflictGraph, s: set<nat>): nat
    requires g.Valid()
  {
    SubsetsAreSmaller(g, s);
    MaximumSizeExists(g, s, |s|);
    var size: nat :| IsMaximumSize(g, s, size);
    size
  }

  lemma SubsetsAreSmaller(g: ConflictGraph, s: set<nat>)
    ensures forall t :: t <= s ==> |t| <= |s|
  {
    forall t | t <= s
      ensures |t| <= |s|
    {
      SubsetSize(t, s);
    }
  }

  lemma AlphaIsMaximum(g: ConflictGraph, s: set<nat>)
    requires g.Valid()
    ensures IsMaximumSize(g, s, Alpha(g, s))
  {
    SubsetsAreSmaller(g, s);
    MaximumSizeExists(g, s, |s|);
  }

  lemma AlphaIsUpperBound(g: ConflictGraph, s: set<nat>, t: set<nat>)
    requires g.Valid() && t <= s && Independent(g, t)
    ensures |t| <= Alpha(g, s)
  {
    AlphaIsMaximum(g, s);
  }

  lemma AlphaIsAttained(g: ConflictGraph, s: set<nat>) returns (t: set<nat>)
    requires g.Valid()
    ensures t <= s && Independent(g, t) && |t| == Alpha(g, s)
  {
    AlphaIsMaximum(g, s);
    t :| t <= s && Independent(g, t) && |t| == Alpha(g, s);
  }

  lemma AlphaEmpty(g: ConflictGraph)
    requires g.Valid()
    ensures Alpha(g, {}) == 0
  {
    var t := AlphaIsAttained(g, {});
  }

  lemma RestShrinks(g: ConflictGraph, s: set<nat>, v: nat)
    requires g.Valid() && v in s
    ensures |Rest(g, s, v)| < |s| && |s - {v}| < |s|
  {
    SubsetSize(Rest(g, s, v), s - {v});
  }

  lemma {:induction false} SubsetSize<T>(a: set<T>, b: set<T>)
    requires a <= b
    ensures |a| <= |b|
  {
    if a != {} {
      var x :| x in a;
      SubsetSize(a - {x}, b - {x});
    }
  }

  lemma AddVertex(g: ConflictGraph, s: set<nat>, v: nat, t: set<nat>)
    requires g.Valid() && g.Symmetric()
    requires v in s && v < g.pathCount && t <= Rest(g, s, v) && Independent(g, t)
    ensures Independent(g, t + {v}) && t + {v} <= s && |t + {v}| == |t| + 1
  {
    forall i, j | i in t + {v} && j in t + {v} && i != j
      ensures !g.Edge(i, j)
    {
      if i == v {
        assert j !in g.Neighbours(v);
      } else if j == v {
        assert i !in g.Neighbours(v);
        assert g.Edge(i, v) == g.Edge(v, i);
      }
    }
  }

  lemma DropVertex(g: ConflictGraph, s: set<nat>, v: nat, t: set<nat>)
    requires g.Valid() && t <= s && Independent(g, t) && v in t
    ensures t - {v} <= Rest(g, s, v) && Independent(g, t - {v})
  {
    forall w | w in t - {v}
      ensures w !in g.Neighbours(v)
    {
      assert !g.Edge(v, w);
    }
  }

  lemma AlphaRestBound(g: ConflictGraph, s: set<nat>, v: nat)
    requires g.Valid() && g.Symmetric() && s <= g.All() && v in s
    ensures 1 + Alpha(g, Rest(g, s, v)) <= Alpha(g, s)
  {
    var t := AlphaIsAttained(g, Rest(g, s, v));
    AddVertex(g, s, v, t);
    AlphaIsUpperBound(g, s, t + {v});
  }

  /** Branching is exact: leave a candidate out, or take it and drop its neighbours. */
  lemma AlphaBranch(g: ConflictGraph, s: set<nat>, v: nat)
    requires g.Valid() && g.Symmetric() && s <= g.All() && v in s
    ensures Alpha(g, s) == Max(Alpha(g, s - {v}), 1 + Alpha(g, Rest(g, s, v)))
  {
    AlphaRestBound(g, s, v);
    var without := AlphaIsAttained(g, s - {v});
    AlphaIsUpperBound(g, s, without);
    var best := AlphaIsAttained(g, s);
    if v in best {
      DropVertex(g, s, v, best);
      AlphaIsUpperBound(g, Rest(g, s, v), best - {v});
    } else {
      AlphaIsUpperBound(g, s - {v}, best);
    }
  }

  /** More edges can only lower the maximum. */
  lemma AlphaAntitone(g: ConflictGraph, h: ConflictGraph, s: set<nat>)
    requires g.Valid() && g.Symmetric() && h.Valid() && h.Symmetric()
    requires g.pathCount == h.pathCount && s <= g.All()
    requires forall i: nat, j: nat :: g.Edge(i, j) ==> h.Edge(i, j)
    ensures Alpha(h, s) <= Alpha(g, s)
  {
    var t := AlphaIsAttained(h, s);
    AlphaIsUpperBound(g, s, t);
  }

  // ----- The canonical witness ------------------------------------------------

  /** The vertex belongs to some maximum independent subset of the candidates. */
  ghost predicate Extends(g: ConflictGraph, s: set<nat>, v: nat)
    requires g.Valid()
  {
    v in s && 1 + Alpha(g, Rest(g, s, v)) == Alpha(g, s)
  }

  ghost predicate LowestExtending(g: ConflictGraph, s: set<nat>, v: nat)
    requires g.Valid()
  {
    Extends(g, s, v) && forall u | Extends(g, s, u) :: v <= u
  }

  lemma LowestExtendingExists(g: ConflictGraph, s: set<nat>)
    requires g.Valid() && g.Symmetric() && s <= g.All() && s != {}
    ensures exists v :: LowestExtending(g, s, v)
  {
    var v0 := Min(s);
    assert Independent(g, {v0});
    AlphaIsUpperBound(g, s, {v0});
    var t := AlphaIsAttained(g, s);
    var w :| w in t;
    MemberExtends(g, s, t, w);
    var extending := set u | u in s && Extends(g, s, u);
    assert w in extending;
    var m := Min(extending);
    assert forall u | Extends(g, s, u) :: u in extending;
    assert LowestExtending(g, s, m);
  }

  lemma MemberExtends(g: ConflictGraph, s: set<nat>, t: set<nat>, v: nat)
    requires g.Valid() && g.Symmetric() && s <= g.All()
    requires t <= s && Independent(g, t) && |t| == Alpha(g, s) && v in t
    ensures Extends(g, s, v)
  {
    DropVertex(g, s, v, t);
    AlphaIsUpperBound(g, Rest(g, s, v), t - {v});
    AlphaRestBound(g, s, v);
  }

  /** Greedy reconstruction: always take the lowest vertex that extends. */
  ghost function Witness(g: ConflictGraph, s: set<nat>): seq<nat>
    requires g.Valid() && g.Symmetric() && s <= g.All()
    decreases |s|
  {
    if s == {} then []
    else
      LowestExtendingExists(g, s);
      var v :| LowestExtending(g, s, v);
      RestShrinks(g, s, v);
      [v] + Witness(g, Rest(g, s, v))
  }

  ghost predicate StrictlyIncreasing(s: seq<nat>) {
    forall i, j | 0 <= i < j < |s| :: s[i] < s[j]
  }

  ghost function Members(s: seq<nat>): set<nat> {
    set x | x in s
  }

  /** A maximum independent subset of the candidates, listed in ascending order. */
  ghost predicate IsMaximumList(g: ConflictGraph, s: set<nat>, list: seq<nat>)
    requires g.Valid()
  {
    && StrictlyIncreasing(list)
    && Members(list) <= s
    && Independent(g, Members(list))
    && |list| == Alpha(g, s)
  }

  lemma {:induction false} IncreasingSize(s: seq<nat>)
    requires StrictlyIncreasing(s)
    ensures |Members(s)| == |s|
  {
    if |s| > 0 {
      var front, last := s[..|s| - 1], s[|s| - 1];
      IncreasingSize(front);
      assert Members(s) == Members(front) + {last};
      assert last !in front;
    }
  }

  lemma {:induction false} WitnessIsMaximumList(g: ConflictGraph, s: set<nat>)
    requires g.Valid() && g.Symmetric() && s <= g.All()
    ensures IsMaximumList(g, s, Witness(g, s))
    decreases |s|
  {
    if s == {} {
      AlphaEmpty(g);
    } else {
      LowestExtendingExists(g, s);
      var v :| LowestExtending(g, s, v) && Witness(g, s) == [v] + Witness(g, Rest(g, s, v));
      RestShrinks(g, s, v);
      var rest := Rest(g, s, v);
      WitnessIsMaximumList(g, rest);
      PrependLowest(g, s, v, Witness(g, rest));
    }
  }

  /** Taking the lowest extendable vertex keeps the list maximum and ascending. */
  lemma PrependLowest(g: ConflictGraph, s: set<nat>, v: nat, tail: seq<nat>)
    requires g.Valid() && g.Symmetric() && s <= g.All()
    requires LowestExtending(g, s, v) && IsMaximumList(g, Rest(g, s, v), tail)
    ensures IsMaximumList(g, s, [v] + tail)
  {
    AddVertex(g, s, v, Members(tail));
    IncreasingSize(tail);
    var all := Members(tail) + {v};
    assert Members([v] + tail) == all;
    forall j | 0 <= j < |tail|
      ensures v < tail[j]
    {
      assert tail[j] in Members(tail);
      MemberExtends(g, s, all, tail[j]);
    }
  }

  /** Lexicographic order on index lists. */
  ghost predicate LexicographicallyAtMost(a: seq<nat>, b: seq<nat>) {
    a == b || a == [] || (b != [] && (a[0] < b[0] || (a[0] == b[0] && LexicographicallyAtMost(a[1..], b[1..]))))
  }

  /** Dropping the head of a maximum list leaves a maximum list of what remains. */
  lemma TailIsMaximumList(g: ConflictGraph, s: set<nat>, other: seq<nat>)
    requires g.Valid() && IsMaximumList(g, s, other) && other != [] && Extends(g, s, other[0])
    ensures IsMaximumList(g, Rest(g, s, other[0]), other[1..])
  {
    var v, rest := other[0], other[1..];
    forall w | w in Members(rest)
      ensures w in Rest(g, s, v) && w in Members(other)
    {
      var j :| 0 <= j < |rest| && rest[j] == w;
      assert w == other[j + 1] && w in Members(other) && v in Members(other);
      assert !g.Edge(v, w);
    }
  }

  /** Among all maximum lists the witness is the lexicographically smallest. */
  lemma {:induction false} WitnessIsSmallest(g: ConflictGraph, s: set<nat>, other: seq<nat>)
    requires g.Valid() && g.Symmetric() && s <= g.All()
    requires IsMaximumList(g, s, other)
    ensures LexicographicallyAtMost(Witness(g, s), other)
    decreases |s|
  {
    if s == {} {
      AlphaEmpty(g);
    } else {
      LowestExtendingExists(g, s);
      var v :| LowestExtending(g, s, v) && Witness(g, s) == [v] + Witness(g, Rest(g, s, v));
      RestShrinks(g, s, v);
      IncreasingSize(other);
      assert |other| > 0;
      assert other[0] in Members(other);
      MemberExtends(g, s, Members(other), other[0]);
      assert v <= other[0];
      if v == other[0] {
        TailIsMaximumList(g, s, other);
        WitnessIsSmallest(g, Rest(g, s, v), other[1..]);
      }
    }
  }

  // ----- The memoized solver --------------------------------------------------

  /** Every remembered cardinality is the true maximum. */
  ghost predicate Exact(g: ConflictGraph, memo: map<set<nat>, nat>)
    requires g.Valid()
  {
    forall s {:trigger memo[s]} | s in memo :: memo[s] == Alpha(g, s)
  }

  lemma RememberExact(g: ConflictGraph, memo: map<set<nat>, nat>, s: set<nat>, size: nat)
    requires g.Valid() && Exact(g, memo) && size == Alpha(g, s)
    ensures Exact(g, memo[s := size])
  {
  }

  class MisSolver {
    const graph: ConflictGraph
    var memo: map<set<nat>, nat>

    ghost predicate Valid()
      reads this
    {
      graph.Valid() && graph.Symmetric() && Exact(graph, memo)
    }

    constructor (graph: ConflictGraph)
      requires graph.Valid() && graph.Symmetric()
      ensures Valid() && this.graph == graph && memo == map[]
    {
      this.graph := graph;
      memo := map[];
    }

    method NeighboursOf(vertex: nat) returns (neighbours: set<nat>)
      requires Valid()
      ensures neighbours == graph.Neighbours(vertex)
    {
      neighbours := {};
      for other: nat := 0 to graph.pathCount
        invariant neighbours == set w: nat | w < other && graph.Edge(vertex, w)
      {
        if graph.Edge(vertex, other) {
          neighbours := neighbours + {other};
        }
      }
    }

    method LowestCandidate(candidates: set<nat>) returns (vertex: nat)
      requires candidates != {} && candidates <= graph.All()
      ensures IsMin(candidates, vertex)
    {
      ghost var least := Min(candidates);
      vertex := 0;
      while vertex !in candidates
        invariant vertex <= least
        decreases least - vertex
      {
        vertex := vertex + 1;
      }
    }

    /** `mis_cardinality`: exact, and the memo stays exact across calls. */
    method Cardinality(candidates: set<nat>) returns (best: nat)
      requires Valid() && candidates <= graph.All()
      modifies this`memo
      ensures Valid()
      ensures best == Alpha(graph, candidates)
      decreases |candidates|
    {
      if candidates == {} {
        AlphaEmpty(graph);
        return 0;
      }
      if candidates in memo {
        return memo[candidates];
      }
      var vertex := LowestCandidate(candidates);
      var neighbours := NeighboursOf(vertex);
      var without := candidates - {vertex};
      var with := candidates - neighbours - {vertex};
      assert with == Rest(graph, candidates, vertex);
      RestShrinks(graph, candidates, vertex);
      var excluded := Cardinality(without);
      var included := Cardinality(with);
      included := 1 + included;
      best := if included > excluded then included else excluded;
      AlphaBranch(graph, candidates, vertex);
      if candidates !in memo {
        RememberExact(graph, memo, candidates, best);
        memo := memo[candidates := best];
      }
    }
  }

  /** One round of the reconstruction: scan the vertices in ascending order. */
  method FirstExtending(solver: MisSolver, candidates: set<nat>) returns (took: bool, vertex: nat, rest: set<nat>)
    requires solver.Valid() && candidates <= solver.graph.All()
    modifies solver`memo
    ensures solver.Valid()
    ensures took <==> exists v :: Extends(solver.graph, candidates, v)
    ensures took ==> LowestExtending(solver.graph, candidates, vertex) && rest == Rest(solver.graph, candidates, vertex)
  {
    vertex, rest := 0, {};
    for v: nat := 0 to solver.graph.pathCount
      invariant solver.Valid()
      invariant forall u | Extends(solver.graph, candidates, u) :: v <= u
    {
      if v !in candidates {
        continue;
      }
      var neighbours := solver.NeighboursOf(v);
      rest := candidates - neighbours - {v};
      assert rest == Rest(solver.graph, candidates, v);
      var restSize := solver.Cardinality(rest);
      var size := solver.Cardinality(candidates);
      if 1 + restSize == size {
        assert Extends(solver.graph, candidates, v);
        return true, v, rest;
      }
    }
    took := false;
    NoneExtends(solver.graph, candidates);
  }

  lemma NoneExtends(g: ConflictGraph, candidates: set<nat>)
    requires g.Valid() && candidates <= g.All() && forall u | Extends(g, candidates, u) :: g.pathCount <= u
    ensures !exists v :: Extends(g, candidates, v)
  {
  }

  /** `mis_witness`: every round makes progress and the result is the canonical witness. */
  method MisWitness(graph: ConflictGraph) returns (chosen: seq<nat>)
    requires graph.Valid() && graph.Symmetric()
    ensures chosen == Witness(graph, graph.All())
  {
    var solver := new MisSolver(graph);
    var candidates := graph.All();
    ghost var canonical, left := Witness(graph, graph.All()), Witness(graph, graph.All());
    chosen := [];
    while candidates != {}
      invariant fresh(solver) && solver.graph == graph && solver.Valid()
      invariant candidates <= graph.All() && left == Witness(graph, candidates)
      invariant chosen + left == canonical
      decreases |candidates|
    {
      LowestExtendingExists(graph, candidates);
      var took, vertex, rest := FirstExtending(solver, candidates);
      if !took {
        assert false;
        break;
      }
      RestShrinks(graph, candidates, vertex);
      TakeLowest(graph, candidates, vertex);
      MoveHead(chosen, left);
      left := left[1..];
      chosen := chosen + [vertex];
      candidates := rest;
    }
  }

  lemma MoveHead(taken: seq<nat>, left: seq<nat>)
    requires left != []
    ensures taken + [left[0]] + left[1..] == taken + left
  {
  }

  lemma TakeLowest(g: ConflictGraph, s: set<nat>, v: nat)
    requires g.Valid() && g.Symmetric() && s <= g.All() && s != {}
    requires LowestExtending(g, s, v)
    ensures Witness(g, s) != [] && Witness(g, s)[0] == v && Witness(g, s)[1..] == Witness(g, Rest(g, s, v))
  {
  }

  // ----- Exhaustive enumeration -----------------------------------------------

  function PowerOfTwo(n: nat): (p: nat)
    ensures p >= 1
  {
    if n == 0 then 1 else 2 * PowerOfTwo(n - 1)
  }

  /** Bit i of a mask: `(mask >> i) & 1`. */
  predicate Bit(mask: nat, i: nat) {
    mask / PowerOfTwo(i) % 2 == 1
  }

  ghost function Bits(mask: nat, n: nat): set<nat> {
    set i: nat | i < n && Bit(mask, i)
  }

  /** Every subset of the first n indices is the bit set of a mask below 2^n. */
  lemma {:induction false} MaskOf(s: set<nat>, n: nat) returns (mask: nat)
    requires forall x | x in s :: x < n
    ensures mask < PowerOfTwo(n) && Bits(mask, n) == s
  {
    if n == 0 {
      mask := 0;
      assert s == {};
    } else {
      var low := MaskOf(s - {n - 1}, n - 1);
      AddTopBit(low, n - 1);
      mask := if n - 1 in s then low + PowerOfTwo(n - 1) else low;
    }
  }

  lemma AddTopBit(low: nat, k: nat)
    requires low < PowerOfTwo(k)
    ensures Bits(low, k + 1) == Bits(low, k)
    ensures Bits(low + PowerOfTwo(k), k + 1) == Bits(low, k) + {k}
  {
    TopBit(low, k);
    forall i: nat | i < k
      ensures Bit(low + PowerOfTwo(k), i) == Bit(low, i)
    {
      LowBit(low, k, i);
    }
  }

  lemma TopBit(low: nat, k: nat)
    requires low < PowerOfTwo(k)
    ensures !Bit(low, k) && Bit(low + PowerOfTwo(k), k)
  {
    QuotientUnique(low, 0, low, PowerOfTwo(k));
    QuotientUnique(low + PowerOfTwo(k), 1, low, PowerOfTwo(k));
  }

  lemma {:induction false} PowerSplit(k: nat, i: nat)
    requires i <= k
    ensures PowerOfTwo(k) == PowerOfTwo(i) * PowerOfTwo(k - i)
  {
    if i > 0 {
      PowerSplit(k, i - 1);
      assert PowerOfTwo(k - (i - 1)) == 2 * PowerOfTwo(k - i);
    }
  }

  lemma LowBit(low: nat, k: nat, i: nat)
    requires i < k
    ensures Bit(low + PowerOfTwo(k), i) == Bit(low, i)
  {
    PowerSplit(k, i);
    HighBitShift(low, PowerOfTwo(k), PowerOfTwo(i), PowerOfTwo(k - i), PowerOfTwo(k - i - 1));
  }

  lemma HighBitShift(low: nat, high: nat, p: nat, q: nat, half: nat)
    requires p >= 1 && high == p * q && q == 2 * half
    ensures (low + high) / p % 2 == low / p % 2
  {
    DivideShift(low, q, p);
    EvenShift(low / p, half);
  }

  lemma EvenShift(a: nat, half: nat)
    ensures (a + 2 * half) % 2 == a % 2
  {
  }

  lemma DivideShift(a: nat, q: nat, p: nat)
    requires p >= 1
    ensures (a + p * q) / p == a / p + q
  {
    var d, r := a / p, a % p;
    assert a == d * p + r;
    assert a + p * q == (d + q) * p + r by {
      assert (d + q) * p == d * p + q * p;
    }
    QuotientUnique(a + p * q, d + q, r, p);
  }

  lemma QuotientUnique(a: nat, d: nat, r: nat, p: nat)
    requires p >= 1 && r < p && a == d * p + r
    ensures a / p == d
  {
    var e, s := a / p, a % p;
    assert a == e * p + s && s < p;
    assert e < d ==> (e + 1) * p <= d * p;
    assert d < e ==> (d + 1) * p <= e * p;
  }

  /** One round of the enumeration: collect the bits of the mask until two of them conflict. */
  method TestMask(graph: ConflictGraph, mask: nat) returns (independent: bool, candidate: seq<nat>)
    requires graph.Valid() && graph.Symmetric()
    ensures independent <==> Independent(graph, Bits(mask, graph.pathCount))
    ensures independent ==> StrictlyIncreasing(candidate) && Members(candidate) == Bits(mask, graph.pathCount)
  {
    var n := graph.pathCount;
    candidate, independent := [], true;
    var i: nat := 0;
    while i < n && independent
      invariant i <= n
      invariant StrictlyIncreasing(candidate)
      invariant Members(candidate) == Bits(mask, i)
      invariant independent <==> Independent(graph, Bits(mask, i))
    {
      if !Bit(mask, i) {
        assert Bits(mask, i + 1) == Bits(mask, i);
        i := i + 1;
        continue;
      }
      assert Bits(mask, i + 1) == Bits(mask, i) + {i};
      assert forall k | 0 <= k < |candidate| :: candidate[k] in Members(candidate) && candidate[k] < i;
      for k := 0 to |candidate|
        invariant independent
        invariant forall l | 0 <= l < k :: !graph.Edge(i, candidate[l])
      {
        if graph.Edge(i, candidate[k]) {
          independent := false;
          assert candidate[k] in Bits(mask, i + 1) && i in Bits(mask, i + 1);
          assert !Independent(graph, Bits(mask, i + 1));
          break;
        }
      }
      if independent {
        ExtendIndependent(graph, candidate, i);
      }
      assert Members(candidate + [i]) == Members(candidate) + {i};
      candidate := candidate + [i];
      i := i + 1;
    }
    if !independent {
      NotIndependentPrefix(graph, mask, i, n);
    }
  }

  /** `mis_exhaustive`: the first largest independent mask. */
  method MisExhaustive(graph: ConflictGraph) returns (best: seq<nat>)
    requires graph.Valid() && graph.Symmetric()
    ensures IsMaximumList(graph, graph.All(), best)
  {
    var n := graph.pathCount;
    best := [];
    var limit := PowerOfTwo(n);
    var mask := 1;
    while mask < limit
      invariant 1 <= mask <= limit
      invariant StrictlyIncreasing(best) && Members(best) <= graph.All() && Independent(graph, Members(best))
      invariant forall m: nat | m < mask && Independent(graph, Bits(m, n)) :: |Bits(m, n)| <= |best|
    {
      var independent, candidate := TestMask(graph, mask);
      if !independent {
        mask := mask + 1;
        continue;
      }
      IncreasingSize(candidate);
      if |candidate| > |best| {
        best := candidate;
      }
      mask := mask + 1;
    }
    ExhaustiveIsMaximum(graph, best);
  }

  lemma ExtendIndependent(g: ConflictGraph, candidate: seq<nat>, i: nat)
    requires g.Valid() && g.Symmetric() && Independent(g, Members(candidate))
    requires forall l | 0 <= l < |candidate| :: !g.Edge(i, candidate[l])
    ensures Independent(g, Members(candidate) + {i})
  {
    forall a, b | a in Members(candidate) + {i} && b in Members(candidate) + {i} && a != b
      ensures !g.Edge(a, b)
    {
      assert g.Edge(a, b) == g.Edge(b, a);
    }
  }

  lemma NotIndependentPrefix(g: ConflictGraph, mask: nat, i: nat, n: nat)
    requires g.Valid() && i <= n && !Independent(g, Bits(mask, i))
    ensures !Independent(g, Bits(mask, n))
  {
    assert Bits(mask, i) <= Bits(mask, n);
  }

  lemma ExhaustiveIsMaximum(g: ConflictGraph, best: seq<nat>)
    requires g.Valid() && g.Symmetric()
    requires StrictlyIncreasing(best) && Members(best) <= g.All() && Independent(g, Members(best))
    requires forall m: nat | m < PowerOfTwo(g.pathCount) && Independent(g, Bits(m, g.pathCount)) ::
               |Bits(m, g.pathCount)| <= |best|
    ensures |best| == Alpha(g, g.All())
  {
    IncreasingSize(best);
    AlphaIsUpperBound(g, g.All(), Members(best));
    var t := AlphaIsAttained(g, g.All());
    var mask := MaskOf(t, g.pathCount);
  }
}
