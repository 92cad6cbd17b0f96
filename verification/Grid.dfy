/**
 A rectangular grid stored row by row in a flat array.

 The source moves between neighbouring pixels by adding 1 or the row width to a flat index under
 a guard on the coordinate.  This module proves that those guarded steps are exactly the moves to
 a cell at Manhattan distance one, so that no step wraps from one row into the next.
 */
module Grid {
  function X(w: nat, i: nat): int
    requires w > 0
  {
    i % w
  }

  function Y(w: nat, i: nat): int
    requires w > 0
  {
    i / w
  }

  function Abs(n: int): int {
    if n < 0 then -n else n
  }

  /** Manhattan distance between the cells at flat indices `i` and `j`. */
  function Dist(w: nat, i: nat, j: nat): int
    requires w > 0
  {
    Abs(X(w, i) - X(w, j)) + Abs(Y(w, i) - Y(w, j))
  }

  predicate Border(w: nat, h: nat, i: nat)
    requires w > 0
  {
    X(w, i) == 0 || X(w, i) == w - 1 || Y(w, i) == 0 || Y(w, i) == h - 1
  }

  /** The guarded steps of the source from the flat index `i` to the flat index `j`. */
  predicate Step(w: nat, h: nat, i: nat, j: int)
    requires w > 0
  {
    || (X(w, i) > 0 && j == i - 1)
    || (X(w, i) + 1 < w && j == i + 1)
    || (Y(w, i) > 0 && j == i - w)
    || (Y(w, i) + 1 < h && j == i + w)
  }

  lemma CellOf(w: nat, x: int, y: nat)
    requires 0 <= x < w
    ensures X(w, y * w + x) == x && Y(w, y * w + x) == y
  {
    var i := y * w + x;
    assert i == Y(w, i) * w + X(w, i);
    SameCell(w, x, y, X(w, i), Y(w, i));
  }

  lemma SameCell(w: nat, x: int, y: int, x': int, y': int)
    requires 0 <= x < w && 0 <= x' < w
    requires y * w + x == y' * w + x'
    ensures x == x' && y == y'
  {
    RowsApart(w, y, y');
    RowsApart(w, y', y);
  }

  lemma RowsApart(w: nat, y: int, y': int)
    ensures y > y' ==> y * w >= y' * w + w
  {
    if y > y' {
      var d := y - y' - 1;
      assert d * w >= 0;
      assert y * w == (y' + 1 + d) * w == y' * w + w + d * w;
    }
  }

  lemma Coordinates(w: nat, h: nat, i: nat)
    requires w > 0 && i < w * h
    ensures i == Y(w, i) * w + X(w, i)
    ensures 0 <= X(w, i) < w && 0 <= Y(w, i) < h
  {
    if Y(w, i) >= h {
      assert Y(w, i) * w >= h * w;
    }
  }

  lemma IndexInGrid(w: nat, h: nat, x: int, y: int)
    requires 0 <= x < w && 0 <= y < h
    ensures 0 <= y * w + x < w * h
    ensures X(w, y * w + x) == x && Y(w, y * w + x) == y
  {
    assert y * w <= (h - 1) * w;
    assert (h - 1) * w + w == w * h;
    assert 0 <= y * w;
    CellOf(w, x, y);
  }

  /** A guarded step stays in the grid and moves to a cell at distance one. */
  lemma StepIsAdjacent(w: nat, h: nat, i: nat, j: int)
    requires w > 0 && i < w * h && Step(w, h, i, j)
    ensures 0 <= j < w * h && Dist(w, i, j) == 1
  {
    Coordinates(w, h, i);
    var x, y := X(w, i), Y(w, i);
    if x > 0 && j == i - 1 {
      IndexInGrid(w, h, x - 1, y);
    } else if x + 1 < w && j == i + 1 {
      IndexInGrid(w, h, x + 1, y);
    } else if y > 0 && j == i - w {
      IndexInGrid(w, h, x, y - 1);
      assert (y - 1) * w == y * w - w;
    } else {
      IndexInGrid(w, h, x, y + 1);
      assert (y + 1) * w == y * w + w;
    }
  }

  /** The guarded steps are exactly the moves to cells at distance one. */
  lemma StepIffAdjacent(w: nat, h: nat, i: nat, j: nat)
    requires w > 0 && i < w * h && j < w * h
    ensures Step(w, h, i, j) <==> Dist(w, i, j) == 1
  {
    if Step(w, h, i, j) {
      StepIsAdjacent(w, h, i, j);
    }
    if Dist(w, i, j) == 1 {
      Coordinates(w, h, i);
      Coordinates(w, h, j);
      var y, y' := Y(w, i), Y(w, j);
      assert (y + 1) * w == y * w + w && (y - 1) * w == y * w - w;
      assert y' == y || y' == y + 1 || y' == y - 1;
    }
  }

  lemma SameIndex(w: nat, i: nat, j: nat)
    requires w > 0
    ensures Dist(w, i, j) == 0 <==> i == j
  {
    assert i == Y(w, i) * w + X(w, i) && j == Y(w, j) * w + X(w, j);
  }

  /** One coordinate one step from `from` towards `to`. */
  function Towards(from: int, to: int): int {
    if from < to then from + 1 else if from > to then from - 1 else from
  }

  /** A cell next to `i` on a shortest way to `j`. */
  lemma HalfWay(w: nat, h: nat, i: nat, j: nat) returns (m: nat)
    requires w > 0 && i < w * h && j < w * h && Dist(w, i, j) == 2
    ensures m < w * h && Dist(w, i, m) == 1 && Dist(w, m, j) == 1
  {
    Coordinates(w, h, i);
    Coordinates(w, h, j);
    var x, y := X(w, i), Y(w, i);
    if x != X(w, j) {
      IndexInGrid(w, h, Towards(x, X(w, j)), y);
      m := y * w + Towards(x, X(w, j));
    } else {
      IndexInGrid(w, h, x, Towards(y, Y(w, j)));
      m := Towards(y, Y(w, j)) * w + x;
    }
  }
}
