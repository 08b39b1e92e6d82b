/**
 * The fixed precedence of shared resources: a strict total order, so a list of
 * conflicts has one canonical order and a cell one primary conflict, whatever the
 * order in which they were found.
 */
module ConflictOrder {
  import opened Ordering
  import opened Evidence
  import opened TotalOrder
  import opened Evaluator

  lemma {:induction false} IndicesTotal(a: seq<nat>, b: seq<nat>)
    ensures IndicesLess(a, b) || IndicesLess(b, a) || a == b
    ensures !IndicesLess(a, a)
  {
    if a != [] {
      IndicesTotal(a[1..], if b == [] then [] else b[1..]);
      assert a == [a[0]] + a[1..];
      assert b != [] ==> b == [b[0]] + b[1..];
    }
  }

  lemma {:induction false} IndicesTransitive(a: seq<nat>, b: seq<nat>, c: seq<nat>)
    requires IndicesLess(a, b) && IndicesLess(b, c)
    ensures IndicesLess(a, c)
  {
    if a != [] && a[0] == b[0] == c[0] {
      IndicesTransitive(a[1..], b[1..], c[1..]);
    }
  }

  lemma RanksTellApart(a: SharedResource, b: SharedResource)
    ensures KindRank(a.kind) == KindRank(b.kind) ==> a.kind == b.kind
    ensures RelationRank(a.relation) == RelationRank(b.relation) ==> a.relation == b.relation
  {
  }

  lemma ConflictTotal(a: SharedResource, b: SharedResource)
    ensures ConflictLess(a, b) || ConflictLess(b, a) || a == b
    ensures !ConflictLess(a, a)
  {
    RanksTellApart(a, b);
    LessTotal(a.id, b.id);
    IndicesTotal(a.paths, b.paths);
  }

  lemma ConflictTransitive(a: SharedResource, b: SharedResource, c: SharedResource)
    requires ConflictLess(a, b) && ConflictLess(b, c)
    ensures ConflictLess(a, c)
  {
    RanksTellApart(a, c);
    if a.kind == b.kind == c.kind {
      if a.id != b.id && b.id != c.id {
        LessTransitive(a.id, b.id, c.id);
        LessAsymmetric(a.id, b.id);
        LessIrreflexive(a.id);
      } else if a.id == b.id == c.id && a.relation == b.relation == c.relation {
        IndicesTransitive(a.paths, b.paths, c.paths);
      }
    }
  }

  /** By kind, then identity, then relation, then path indices. */
  lemma PrecedenceIsTotal()
    ensures IsStrictTotal(ConflictLess)
  {
    forall a, b
      ensures ConflictLess(a, b) || ConflictLess(b, a) || a == b
      ensures !ConflictLess(a, a)
    {
      ConflictTotal(a, b);
    }
    forall a, b, c | ConflictLess(a, b) && ConflictLess(b, c)
      ensures ConflictLess(a, c)
    {
      ConflictTransitive(a, b, c);
    }
  }

  lemma {:induction false} InsertConflictIsInsert(c: SharedResource, s: seq<SharedResource>)
    ensures InsertConflict(c, s) == Insert(ConflictLess, c, s)
  {
    if s != [] && ConflictLess(s[0], c) {
      InsertConflictIsInsert(c, s[1..]);
    }
  }

  lemma {:induction false} SortConflictsSorted(s: seq<SharedResource>)
    ensures Sorted(ConflictLess, SortConflicts(s))
  {
    if s != [] {
      SortConflictsSorted(s[1..]);
      PrecedenceIsTotal();
      InsertSorted(ConflictLess, s[0], SortConflicts(s[1..]));
      InsertConflictIsInsert(s[0], SortConflicts(s[1..]));
    }
  }

  /** Two lists with the same conflicts, in any order, have one canonical form, which is sorted. */
  lemma CanonicalConflictOrder(a: seq<SharedResource>, b: seq<SharedResource>)
    requires multiset(a) == multiset(b)
    ensures SortConflicts(a) == SortConflicts(b) && Sorted(ConflictLess, SortConflicts(a))
  {
    SortConflictsSorted(a);
    SortConflictsSorted(b);
    PrecedenceIsTotal();
    SortedUnique(ConflictLess, SortConflicts(a), SortConflicts(b));
  }

  /** The primary conflict of a cell is the first of all its conflicts by precedence, and present when there is one. */
  lemma PrimaryIsFirst(i: nat, j: nat, classes: seq<ClassResult>)
    ensures var primary, all := MakeCell(i, j, classes).primaryConflict, AllShared(classes);
            && (primary == None <==> all == [])
            && (primary.Some? ==> primary.value in all && forall c | c in all :: !ConflictLess(c, primary.value))
  {
    var all := AllShared(classes);
    var sorted := SortConflicts(all);
    SortConflictsSorted(all);
    PrecedenceIsTotal();
    assert |sorted| == |multiset(sorted)| == |multiset(all)| == |all|;
    forall c | c in all
      ensures sorted != [] && !ConflictLess(c, sorted[0])
    {
      assert c in multiset(all);
      FirstIsMinimal(ConflictLess, sorted, c);
    }
    if sorted != [] {
      assert sorted[0] in multiset(sorted);
      assert sorted[0] in multiset(all);
    }
  }

  // ----- Policies ---------------------------------------------------------------------------------------

  /** Policies that list the same classes and relations in different orders canonicalize to one policy. */
  lemma PolicyOrderIrrelevant(a: Policy, b: Policy)
    requires multiset(a.requiredClasses) == multiset(b.requiredClasses)
             && multiset(a.relations) == multiset(b.relations)
    requires b == a.(requiredClasses := b.requiredClasses, relations := b.relations)
    ensures CanonicalPolicy(a) == CanonicalPolicy(b)
  {
    ClassRanksTotal();
    RelationRanksTotal();
    RankSorted(ClassRank, a.requiredClasses);
    RankSorted(ClassRank, b.requiredClasses);
    SortedUnique(ByRank(ClassRank), SortByRank(ClassRank, a.requiredClasses), SortByRank(ClassRank, b.requiredClasses));
    RankSorted(RelationRank, a.relations);
    RankSorted(RelationRank, b.relations);
    SortedUnique(ByRank(RelationRank), SortByRank(RelationRank, a.relations), SortByRank(RelationRank, b.relations));
  }

  /** Renumbering a canonical policy leaves it canonical. */
  lemma CanonicalIsCanonical(p: Policy, generation: nat)
    ensures var canonical := CanonicalPolicy(p).(generation := generation); CanonicalPolicy(canonical) == canonical
  {
    ClassRanksTotal();
    RelationRanksTotal();
    RankSorted(ClassRank, p.requiredClasses);
    RankSorted(RelationRank, p.relations);
    PolicyOrderIrrelevant(p.(generation := generation), CanonicalPolicy(p).(generation := generation));
  }

  ghost function ByRank<T>(rank: T -> nat): (T, T) -> bool {
    (a, b) => rank(a) < rank(b)
  }

  lemma ClassRanksTotal()
    ensures IsStrictTotal(ByRank(ClassRank))
  {
    forall a: DiversityClass, b: DiversityClass | ClassRank(a) == ClassRank(b)
      ensures a == b
    {
    }
  }

  lemma RelationRanksTotal()
    ensures IsStrictTotal(ByRank(RelationRank))
  {
    forall a: DomainRelation, b: DomainRelation | RelationRank(a) == RelationRank(b)
      ensures a == b
    {
    }
  }

  lemma {:induction false} InsertByRankIsInsert<T(!new)>(rank: T -> nat, x: T, s: seq<T>)
    ensures InsertByRank(rank, x, s) == Insert(ByRank(rank), x, s)
  {
    if s != [] && rank(x) > rank(s[0]) {
      InsertByRankIsInsert(rank, x, s[1..]);
    }
  }

  lemma {:induction false} InsertByRankPermutes<T(!new)>(rank: T -> nat, x: T, s: seq<T>)
    ensures multiset(InsertByRank(rank, x, s)) == multiset(s) + multiset{x}
  {
    if s != [] {
      assert s == [s[0]] + s[1..];
      if rank(x) > rank(s[0]) {
        InsertByRankPermutes(rank, x, s[1..]);
      }
    }
  }

  lemma {:induction false} RankSorted<T(!new)>(rank: T -> nat, s: seq<T>)
    requires IsStrictTotal(ByRank(rank))
    ensures Sorted(ByRank(rank), SortByRank(rank, s)) && multiset(SortByRank(rank, s)) == multiset(s)
  {
    if s != [] {
      var rest := SortByRank(rank, s[1..]);
      RankSorted(rank, s[1..]);
      InsertSorted(ByRank(rank), s[0], rest);
      InsertByRankIsInsert(rank, s[0], rest);
      InsertByRankPermutes(rank, s[0], rest);
      assert s == [s[0]] + s[1..];
    }
  }
}
