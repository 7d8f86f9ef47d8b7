/** The spiral fill: four moving borders, a running value, and an outer loop whose guard
    mentions the value only. */
module Spiral {
  import opened Integers

  datatype Cell = Cell(i: int, j: int)

  // ---- The closed form -----------------------------------------------------------------

  ghost predicate InGrid(n: nat, c: Cell) {
    0 <= c.i < n && 0 <= c.j < n
  }

  /** The ring of a cell: its distance from the nearest edge. */
  function Ring(n: nat, c: Cell): int {
    Min(Min(c.i, c.j), Min(n - 1 - c.i, n - 1 - c.j))
  }

  /** How many cells lie outside ring k: each ring in front of it has four sides. */
  function Outside(n: nat, k: int): int {
    if k <= 0 then 0 else Outside(n, k - 1) + 4 * (n + 1 - 2 * k)
  }

  /** The value of a cell: the cells outside its ring, then the position along the sides of the ring. */
  function ValueAt(n: nat, c: Cell): int {
    var k := Ring(n, c);
    var m := n - 1 - k;
    Outside(n, k) + 1 +
    if c.i == k then c.j - k
    else if c.j == m then (m - k) + (c.i - k)
    else if c.i == m then 2 * (m - k) + (m - c.j)
    else 3 * (m - k) + (m - c.i)
  }

  // ---- Counting the rings ---------------------------------------------------------------

  lemma {:induction false} OutsideClosedForm(n: nat, k: nat)
    ensures Outside(n, k) == 4 * k * (n - k)
  {
    if k == 0 {
    } else {
      OutsideClosedForm(n, k - 1);
      assert 4 * k * (n - k) == 4 * (k - 1) * (n - (k - 1)) + 4 * (n + 1 - 2 * k);
    }
  }

  lemma {:induction false} OutsideMonotone(n: nat, k: int, l: int)
    requires 0 <= k <= l && 2 * l <= n
    ensures Outside(n, k) <= Outside(n, l)
    decreases l - k
  {
    if k == l {
    } else {
      OutsideMonotone(n, k, l - 1);
    }
  }

  lemma SquareOfSum(k: int, e: int)
    ensures (2 * k + e) * (2 * k + e) == 4 * k * (k + e) + e * e
  {
  }

  /** The rings leave a square of side e = n - 2k. */
  lemma OutsideSquare(n: nat, k: nat, e: int)
    requires n == 2 * k + e
    ensures n * n == Outside(n, k) + e * e
  {
    OutsideClosedForm(n, k);
    SquareOfSum(k, e);
  }

  lemma OutsideAtMost(n: nat, k: nat)
    ensures Outside(n, k) <= n * n
  {
    OutsideSquare(n, k, n - 2 * k);
  }

  /** The values of ring k follow on those outside it and stay below those of the next ring. */
  lemma ValueInRing(n: nat, c: Cell)
    requires InGrid(n, c)
    ensures var k := Ring(n, c); var side := n - 1 - 2 * k;
            && 0 <= side
            && Outside(n, k) < ValueAt(n, c)
            && (side > 0 ==> ValueAt(n, c) <= Outside(n, k + 1) == Outside(n, k) + 4 * side)
            && (side == 0 ==> ValueAt(n, c) == Outside(n, k) + 1)
  {
  }

  // ---- The closed form is a bijection from the cells to 1..n*n -----------------------------

  lemma ValueInRange(n: nat, c: Cell)
    requires InGrid(n, c)
    ensures 1 <= ValueAt(n, c) <= n * n
  {
    var k := Ring(n, c);
    ValueInRing(n, c);
    OutsideMonotone(n, 0, k);
    if 2 * k + 1 == n {
      OutsideSquare(n, k, 1);
    } else {
      OutsideAtMost(n, k + 1);
    }
  }

  lemma SameRingInjective(n: nat, a: Cell, b: Cell)
    requires InGrid(n, a) && InGrid(n, b) && ValueAt(n, a) == ValueAt(n, b) && Ring(n, a) == Ring(n, b)
    ensures a == b
  {
  }

  lemma Injective(n: nat, a: Cell, b: Cell)
    requires InGrid(n, a) && InGrid(n, b) && ValueAt(n, a) == ValueAt(n, b)
    ensures a == b
  {
    ValueInRing(n, a);
    ValueInRing(n, b);
    if Ring(n, a) < Ring(n, b) {
      OutsideMonotone(n, Ring(n, a) + 1, Ring(n, b));
    } else if Ring(n, b) < Ring(n, a) {
      OutsideMonotone(n, Ring(n, b) + 1, Ring(n, a));
    } else {
      SameRingInjective(n, a, b);
    }
  }

  /** The cell after c on the walk along the four sides of a ring and then into the next ring. */
  function Next(n: nat, c: Cell): Cell {
    var k := Ring(n, c);
    var m := n - 1 - k;
    if c.i == k && c.j < m then Cell(c.i, c.j + 1)
    else if c.j == m && c.i < m then Cell(c.i + 1, c.j)
    else if c.i == m && c.j > k then Cell(c.i, c.j - 1)
    else if c.i > k + 1 then Cell(c.i - 1, c.j)
    else Cell(c.i, c.j + 1)
  }

  ghost predicate Adjacent(a: Cell, b: Cell) {
    (a.i == b.i && (a.j == b.j + 1 || b.j == a.j + 1)) || (a.j == b.j && (a.i == b.i + 1 || b.i == a.i + 1))
  }

  /** Below the corner where the ring began, or alone in the middle. */
  predicate LastInRing(n: nat, c: Cell) {
    var k := Ring(n, c);
    c.j == k && (c.i == k + 1 || n == 2 * k + 1)
  }

  lemma NextInRing(n: nat, c: Cell)
    requires InGrid(n, c) && !LastInRing(n, c)
    ensures InGrid(n, Next(n, c)) && Ring(n, Next(n, c)) == Ring(n, c)
    ensures ValueAt(n, Next(n, c)) == ValueAt(n, c) + 1 && Adjacent(c, Next(n, c))
  {
  }

  lemma NextRing(n: nat, c: Cell)
    requires InGrid(n, c) && LastInRing(n, c) && n > 2 * Ring(n, c) + 2
    ensures InGrid(n, Next(n, c)) && Ring(n, Next(n, c)) == Ring(n, c) + 1
    ensures ValueAt(n, Next(n, c)) == ValueAt(n, c) + 1 && Adjacent(c, Next(n, c))
  {
  }

  /** Only the innermost ring ends with the last value. */
  lemma LastValue(n: nat, c: Cell)
    requires InGrid(n, c) && LastInRing(n, c) && n <= 2 * Ring(n, c) + 2
    ensures ValueAt(n, c) == n * n
  {
    var k := Ring(n, c);
    OutsideSquare(n, k, n - 2 * k);
  }

  /** The walk raises the value by one, also around the corners and into the next ring. */
  lemma NextValue(n: nat, c: Cell)
    requires InGrid(n, c) && ValueAt(n, c) < n * n
    ensures InGrid(n, Next(n, c)) && ValueAt(n, Next(n, c)) == ValueAt(n, c) + 1
    ensures Adjacent(c, Next(n, c))
  {
    if !LastInRing(n, c) {
      NextInRing(n, c);
    } else if n > 2 * Ring(n, c) + 2 {
      NextRing(n, c);
    } else {
      LastValue(n, c);
    }
  }

  /** Where the value v lies: v - 1 steps of the walk from the top left corner. */
  function CellOf(n: nat, v: nat): (c: Cell)
    requires 1 <= v <= n * n
    ensures InGrid(n, c) && ValueAt(n, c) == v
  {
    if v == 1 then
      assert n >= 1;
      Cell(0, 0)
    else
      var b := CellOf(n, v - 1);
      NextValue(n, b);
      Next(n, b)
  }

  /** The two directions of the bijection. */
  lemma Bijection(n: nat)
    ensures forall c :: InGrid(n, c) ==> 1 <= ValueAt(n, c) <= n * n && CellOf(n, ValueAt(n, c)) == c
    ensures forall v :: 1 <= v <= n * n ==> InGrid(n, CellOf(n, v)) && ValueAt(n, CellOf(n, v)) == v
  {
    forall c | InGrid(n, c)
      ensures 1 <= ValueAt(n, c) <= n * n && CellOf(n, ValueAt(n, c)) == c
    {
      ValueInRange(n, c);
      Injective(n, c, CellOf(n, ValueAt(n, c)));
    }
  }

  /** Consecutive values lie in cells that share an edge. */
  lemma ConsecutiveShareEdge(n: nat, a: Cell, b: Cell)
    requires InGrid(n, a) && InGrid(n, b) && ValueAt(n, b) == ValueAt(n, a) + 1
    ensures Adjacent(a, b)
  {
    ValueInRange(n, b);
    NextValue(n, a);
    Injective(n, b, Next(n, a));
  }

  /** The outer ring: 1..n along the top row, then down the right column, back along the bottom row and up
      the left column. */
  lemma OuterRing(n: nat, i: nat, j: nat)
    requires i < n && j < n
    ensures i == 0 ==> ValueAt(n, Cell(i, j)) == 1 + j
    ensures j == n - 1 ==> ValueAt(n, Cell(i, j)) == n + i
    ensures 0 < i == n - 1 ==> ValueAt(n, Cell(i, j)) == 3 * n - 2 - j
    ensures 0 == j < i ==> ValueAt(n, Cell(i, j)) == 4 * n - 3 - i
  {
  }

  lemma {:induction false} OutsideOfInner(n: nat, k: nat)
    ensures Outside(n + 2, k + 1) == 4 * (n + 1) + Outside(n, k)
  {
    if k == 0 {
    } else {
      OutsideOfInner(n, k - 1);
    }
  }

  /** Inside the outer ring lies the spiral of the grid that is smaller by two, turning the same way and
      raised by the length of the ring. */
  lemma InnerSpiral(n: nat, i: nat, j: nat)
    requires i < n && j < n
    ensures ValueAt(n + 2, Cell(i + 1, j + 1)) == 4 * (n + 1) + ValueAt(n, Cell(i, j))
  {
    OutsideOfInner(n, Ring(n, Cell(i, j)));
  }

  // ---- The C function --------------------------------------------------------------------

  /** Every cell whose value is below `value` holds it. */
  ghost predicate Filled(n: nat, matrix: array2<int>, value: int)
    requires matrix.Length0 == matrix.Length1 == n
    reads matrix
  {
    forall c: Cell :: InGrid(n, c) && ValueAt(n, c) < value ==> matrix[c.i, c.j] == ValueAt(n, c)
  }

  /** The cells written so far, in the order of the writes. */
  ghost predicate Trace(n: nat, order: seq<Cell>, value: int) {
    |order| == value - 1 && forall v :: 0 <= v < |order| ==> InGrid(n, order[v]) && ValueAt(n, order[v]) == v + 1
  }

  lemma UniqueCell(n: nat, c: Cell)
    requires InGrid(n, c)
    ensures forall d :: InGrid(n, d) && ValueAt(n, d) == ValueAt(n, c) ==> d == c
  {
    forall d | InGrid(n, d) && ValueAt(n, d) == ValueAt(n, c)
      ensures d == c
    {
      Injective(n, c, d);
    }
  }

  /** One assignment of the next value. */
  method Put(n: nat, matrix: array2<int>, i: int, j: int, value: int, ghost order: seq<Cell>)
    returns (next: int, ghost written: seq<Cell>)
    requires matrix.Length0 == matrix.Length1 == n && InGrid(n, Cell(i, j)) && value == ValueAt(n, Cell(i, j))
    requires Filled(n, matrix, value) && Trace(n, order, value)
    modifies matrix
    ensures next == value + 1 && written == order + [Cell(i, j)]
    ensures Filled(n, matrix, next) && Trace(n, written, next)
  {
    UniqueCell(n, Cell(i, j));
    matrix[i, j] := value;
    next := value + 1;
    written := order + [Cell(i, j)];
  }

  /** What each of the four inner loops of ring k maintains: the value of the cell it is about to write. */
  ghost predicate Going(n: nat, matrix: array2<int>, value: int, order: seq<Cell>, k: nat, steps: int)
    requires matrix.Length0 == matrix.Length1 == n
    reads matrix
  {
    value == Outside(n, k) + 1 + steps && Filled(n, matrix, value) && Trace(n, order, value)
  }

  /** The first inner loop: the top row from the left border to the right one. */
  method FillTop(n: nat, matrix: array2<int>, top: nat, left: nat, right: int, start: int, ghost written: seq<Cell>)
    returns (value: int, ghost order: seq<Cell>)
    requires matrix.Length0 == matrix.Length1 == n && 2 * top < n && left == top && right == n - 1 - top
    requires Going(n, matrix, start, written, top, 0)
    modifies matrix
    ensures Going(n, matrix, value, order, top, n - 2 * top)
  {
    value, order := start, written;
    for j := left to right + 1
      invariant Going(n, matrix, value, order, top, j - left)
    {
      value, order := Put(n, matrix, top, j, value, order);
    }
  }

  /** The second inner loop: the right column downwards, below the top row of ring k. */
  method FillRight(n: nat, matrix: array2<int>, ghost k: nat, top: nat, bottom: int, right: int, start: int,
                   ghost written: seq<Cell>)
    returns (value: int, ghost order: seq<Cell>)
    requires matrix.Length0 == matrix.Length1 == n && 2 * k < n && top == k + 1 && bottom == right == n - 1 - k
    requires Going(n, matrix, start, written, k, n - 2 * k)
    modifies matrix
    ensures Going(n, matrix, value, order, k, n - 2 * k + (n - 1 - 2 * k))
  {
    value, order := start, written;
    for i := top to bottom + 1
      invariant Going(n, matrix, value, order, k, n - 2 * k + (i - top))
    {
      value, order := Put(n, matrix, i, right, value, order);
    }
  }

  /** The third inner loop: the bottom row backwards. On the centre cell of an odd grid the borders
      have crossed, and it writes nothing. */
  method FillBottom(n: nat, matrix: array2<int>, ghost k: nat, bottom: int, left: nat, right: int, start: int,
                    ghost written: seq<Cell>)
    returns (value: int, ghost order: seq<Cell>)
    requires matrix.Length0 == matrix.Length1 == n && 2 * k < n && left == k
    requires bottom == n - 1 - k && right == bottom - 1
    requires Going(n, matrix, start, written, k, n - 2 * k + (n - 1 - 2 * k))
    modifies matrix
    ensures Going(n, matrix, value, order, k, n - 2 * k + 2 * (n - 1 - 2 * k))
  {
    value, order := start, written;
    var j := right;
    while j >= left
      invariant left - 1 <= j <= right
      invariant Going(n, matrix, value, order, k, n - 2 * k + (n - 1 - 2 * k) + (right - j))
    {
      value, order := Put(n, matrix, bottom, j, value, order);
      j := j - 1;
    }
  }

  /** The fourth inner loop: the left column upwards, down to the row below the top one. */
  method FillLeft(n: nat, matrix: array2<int>, ghost k: nat, top: nat, bottom: int, left: nat, start: int,
                  ghost written: seq<Cell>)
    returns (value: int, ghost order: seq<Cell>)
    requires matrix.Length0 == matrix.Length1 == n && 2 * k < n && left == k
    requires top == k + 1 && bottom == n - 2 - k
    requires Going(n, matrix, start, written, k, n - 2 * k + 2 * (n - 1 - 2 * k))
    modifies matrix
    ensures Going(n, matrix, value, order, k, if 2 * k + 1 == n then 1 else 4 * (n - 1 - 2 * k))
  {
    value, order := start, written;
    var i := bottom;
    while i >= top
      invariant top - 1 <= i <= bottom || i == bottom == top - 2
      invariant Going(n, matrix, value, order, k, n - 2 * k + 2 * (n - 1 - 2 * k) + (bottom - i))
    {
      value, order := Put(n, matrix, i, left, value, order);
      i := i - 1;
    }
  }

  /** The start value of the ring at `top`, or one past the last value when the borders have crossed. */
  ghost function StartValue(n: nat, top: nat): int {
    if 2 * top <= n then Outside(n, top) + 1 else n * n + 1
  }

  /** Fills the matrix; `order` lists the cells in the order in which they are written, so with the
      bijection above every cell is written exactly once. */
  method FillSpiral(n: nat, matrix: array2<int>) returns (ghost order: seq<Cell>)
    requires n >= 1 && matrix.Length0 == matrix.Length1 == n
    modifies matrix
    ensures forall i, j :: 0 <= i < n && 0 <= j < n ==> matrix[i, j] == ValueAt(n, Cell(i, j))
    ensures |order| == n * n && forall v :: 1 <= v <= n * n ==> order[v - 1] == CellOf(n, v)
    ensures forall i, j :: 0 <= i < n && 0 <= j < n ==>
              && (i == 0 ==> matrix[i, j] == 1 + j) && (j == n - 1 ==> matrix[i, j] == n + i)
              && (0 < i == n - 1 ==> matrix[i, j] == 3 * n - 2 - j) && (0 == j < i ==> matrix[i, j] == 4 * n - 3 - i)
  {
    var value := 1;
    var top, bottom := 0, n - 1;
    var left, right := 0, n - 1;
    order := [];
    NothingBelowOne(n);
    while value <= n * n
      invariant 0 <= top == left && bottom == right == n - 1 - top && 2 * top <= n + 1
      invariant value == StartValue(n, top) <= n * n + 1
      invariant Filled(n, matrix, value) && Trace(n, order, value)
      decreases n - top
    {
      ghost var k := top;
      RingLeft(n, k);
      value, order := FillTop(n, matrix, top, left, right, value, order);
      top := top + 1;
      value, order := FillRight(n, matrix, k, top, bottom, right, value, order);
      right := right - 1;
      value, order := FillBottom(n, matrix, k, bottom, left, right, value, order);
      bottom := bottom - 1;
      value, order := FillLeft(n, matrix, k, top, bottom, left, value, order);
      left := left + 1;
    }
    AllDone(n, matrix, value, order);
  }

  lemma NothingBelowOne(n: nat)
    ensures forall c :: InGrid(n, c) ==> 1 <= ValueAt(n, c)
  {
    forall c | InGrid(n, c)
      ensures 1 <= ValueAt(n, c)
    {
      ValueInRange(n, c);
    }
  }

  /** The guard on the value alone implies that the borders still enclose a ring. */
  lemma RingLeft(n: nat, k: nat)
    requires 2 * k <= n + 1 && StartValue(n, k) <= n * n
    ensures 2 * k < n
    ensures StartValue(n, k + 1) == Outside(n, k) + 1 + if 2 * k + 1 == n then 1 else 4 * (n - 1 - 2 * k)
    ensures StartValue(n, k + 1) <= n * n + 1
  {
    if 2 * k == n {
      OutsideSquare(n, k, 0);
    } else if 2 * k + 1 == n {
      OutsideSquare(n, k, 1);
    } else {
      OutsideAtMost(n, k + 1);
    }
  }

  lemma AllDone(n: nat, matrix: array2<int>, value: int, order: seq<Cell>)
    requires matrix.Length0 == matrix.Length1 == n
    requires value == n * n + 1 && Filled(n, matrix, value) && Trace(n, order, value)
    ensures forall i, j :: 0 <= i < n && 0 <= j < n ==> matrix[i, j] == ValueAt(n, Cell(i, j))
    ensures |order| == n * n && forall v :: 1 <= v <= n * n ==> order[v - 1] == CellOf(n, v)
    ensures forall i, j :: 0 <= i < n && 0 <= j < n ==>
              && (i == 0 ==> matrix[i, j] == 1 + j) && (j == n - 1 ==> matrix[i, j] == n + i)
              && (0 < i == n - 1 ==> matrix[i, j] == 3 * n - 2 - j) && (0 == j < i ==> matrix[i, j] == 4 * n - 3 - i)
  {
    forall i, j | 0 <= i < n && 0 <= j < n
      ensures matrix[i, j] == ValueAt(n, Cell(i, j))
      ensures (i == 0 ==> matrix[i, j] == 1 + j) && (j == n - 1 ==> matrix[i, j] == n + i)
      ensures (0 < i == n - 1 ==> matrix[i, j] == 3 * n - 2 - j) && (0 == j < i ==> matrix[i, j] == 4 * n - 3 - i)
    {
      ValueInRange(n, Cell(i, j));
      OuterRing(n, i, j);
    }
    forall v | 1 <= v <= n * n
      ensures order[v - 1] == CellOf(n, v)
    {
      Injective(n, order[v - 1], CellOf(n, v));
    }
  }
}
