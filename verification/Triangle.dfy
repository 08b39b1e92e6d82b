/**
 * Row-major addressing of the strict upper triangle: the pair i < j of a set of
 * n paths lives in cell `CellIndex(n, i, j)` of a vector of `CellCount(n)` cells.
 */
module Triangle {

  function CellCount(n: nat): nat {
    if n == 0 then 0 else n * (n - 1) / 2
  }

  /** The stored arithmetic, with the arguments exchanged when they arrive out of order. */
  function CellIndex(n: nat, i: nat, j: nat): int {
    var low := if i > j then j else i;
    var high := if i > j then i else j;
    low * (2 * n - low - 1) / 2 + (high - low - 1)
  }

  /** Number of cells in the rows strictly above row i. */
  function RowStart(n: nat, i: nat): nat
    requires i <= n
  {
    if i == 0 then 0 else RowStart(n, i - 1) + (n - i)
  }

  lemma {:induction false} RowStartClosedForm(n: nat, i: nat)
    requires i <= n
    ensures 2 * RowStart(n, i) == i * (2 * n - i - 1)
  {
    if i > 0 {
      RowStartClosedForm(n, i - 1);
      calc {
        2 * RowStart(n, i);
        (i - 1) * (2 * n - (i - 1) - 1) + 2 * (n - i);
        i * (2 * n - i) - (2 * n - i) + 2 * n - 2 * i;
        i * (2 * n - i) - i;
        i * (2 * n - i - 1);
      }
    }
  }

  /** The division is exact and the index is row start plus column offset. */
  lemma CellIndexIsRowPlusColumn(n: nat, i: nat, j: nat)
    requires i < j < n
    ensures i * (2 * n - i - 1) % 2 == 0
    ensures CellIndex(n, i, j) == RowStart(n, i) + (j - i - 1)
    ensures CellIndex(n, j, i) == CellIndex(n, i, j)
  {
    RowStartClosedForm(n, i);
    assert i * (2 * n - i - 1) / 2 == RowStart(n, i);
  }

  lemma {:induction false} RowStartMonotone(n: nat, i: nat, k: nat)
    requires i < k <= n
    ensures RowStart(n, i) + (n - i - 1) <= RowStart(n, k)
    decreases k
  {
    if i + 1 < k {
      RowStartMonotone(n, i, k - 1);
    }
  }

  lemma CellCountIsLastRow(n: nat)
    ensures CellCount(n) == RowStart(n, n)
  {
    RowStartClosedForm(n, n);
    if n > 0 {
      assert 2 * n - n - 1 == n - 1;
    }
  }

  lemma CellInRange(n: nat, i: nat, j: nat)
    requires i < j < n
    ensures 0 <= CellIndex(n, i, j) < CellCount(n)
  {
    CellIndexIsRowPlusColumn(n, i, j);
    RowStartMonotone(n, i, n);
    CellCountIsLastRow(n);
  }

  ghost predicate RowMajorBefore(i: nat, j: nat, k: nat, l: nat) {
    i < k || (i == k && j < l)
  }

  /** The addressing follows row-major order; in particular it is injective. */
  lemma CellOrder(n: nat, i: nat, j: nat, k: nat, l: nat)
    requires i < j < n && k < l < n
    ensures CellIndex(n, i, j) < CellIndex(n, k, l) <==> RowMajorBefore(i, j, k, l)
    ensures CellIndex(n, i, j) == CellIndex(n, k, l) <==> i == k && j == l
  {
    CellIndexIsRowPlusColumn(n, i, j);
    CellIndexIsRowPlusColumn(n, k, l);
    if i < k {
      RowStartMonotone(n, i, k);
    } else if k < i {
      RowStartMonotone(n, k, i);
    }
  }

  ghost predicate IsPairAt(n: nat, cell: nat, pair: (nat, nat)) {
    pair.0 < pair.1 < n && CellIndex(n, pair.0, pair.1) == cell
  }

  /** Every cell is the cell of some pair. */
  lemma {:induction false} CellHasPair(n: nat, rows: nat, cell: nat) returns (pair: (nat, nat))
    requires rows <= n && cell < RowStart(n, rows)
    ensures IsPairAt(n, cell, pair) && pair.0 < rows
  {
    if cell < RowStart(n, rows - 1) {
      pair := CellHasPair(n, rows - 1, cell);
    } else {
      var i := rows - 1;
      var j := i + 1 + (cell - RowStart(n, i));
      CellIndexIsRowPlusColumn(n, i, j);
      pair := (i, j);
    }
  }

  lemma EveryCellHasOnePair(n: nat, cell: nat)
    requires cell < CellCount(n)
    ensures exists pair :: IsPairAt(n, cell, pair)
    ensures forall p, q :: IsPairAt(n, cell, p) && IsPairAt(n, cell, q) ==> p == q
  {
    CellCountIsLastRow(n);
    var pair := CellHasPair(n, n, cell);
    forall p, q | IsPairAt(n, cell, p) && IsPairAt(n, cell, q)
      ensures p == q
    {
      CellOrder(n, p.0, p.1, q.0, q.1);
    }
  }

  /** The pair stored in a cell. */
  ghost function PairAt(n: nat, cell: nat): (pair: (nat, nat))
    requires cell < CellCount(n)
    ensures IsPairAt(n, cell, pair)
  {
    EveryCellHasOnePair(n, cell);
    var pair :| IsPairAt(n, cell, pair);
    pair
  }

  lemma PairAtCellIndex(n: nat, i: nat, j: nat)
    requires i < j < n
    ensures 0 <= CellIndex(n, i, j) < CellCount(n)
    ensures PairAt(n, CellIndex(n, i, j)) == (i, j)
  {
    CellInRange(n, i, j);
    EveryCellHasOnePair(n, CellIndex(n, i, j));
    assert IsPairAt(n, CellIndex(n, i, j), (i, j));
  }
}
