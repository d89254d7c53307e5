/**
 * The grid: a map from coordinates to cells, with the bounds it covers.
 * A cell created without content holds Numerical(0).
 */
module Spreadsheet {
  import opened Wrappers
  import opened Coordinates
  import opened Content

  /** A cell: the content it owns and the coordinates it sits at. */
  datatype Cell = Cell(coordinates: Coord, content: Content) {
    function GetValue(): Result<Value> { content.GetValue() }
  }

  /** `Cell(coords, content=None)`. */
  function NewCell(coords: Coord, content: Option<Content>): (c: Cell)
    ensures c.coordinates == coords
    ensures content.None? ==> c.content == Numerical(Int(0)) && c.GetValue() == Ok(NumberValue(Int(0)))
    ensures content.Some? ==> c.content == content.value
  {
    Cell(coords, if content.None? then DefaultContent else content.value)
  }

  /** Every coordinate with column in 1..numColumns and row in 1..numRows. */
  function GridKeys(numColumns: nat, numRows: nat): set<Coord>
  {
    set c: nat, r: nat | 1 <= c <= numColumns && 1 <= r <= numRows :: Coord(c, r)
  }

  function ColumnKeys(c: nat, numRows: nat): set<Coord>
  {
    set r: nat | 1 <= r <= numRows :: Coord(c, r)
  }

  lemma {:induction false} ColumnKeysSize(c: nat, numRows: nat)
    ensures |ColumnKeys(c, numRows)| == numRows
  {
    if numRows > 0 {
      ColumnKeysSize(c, numRows - 1);
      assert ColumnKeys(c, numRows) == ColumnKeys(c, numRows - 1) + {Coord(c, numRows)};
    } else {
      assert ColumnKeys(c, 0) == {};
    }
  }

  /** The grid with one more column is the smaller grid and that column, which it does not contain. */
  lemma GridAddColumn(numColumns: nat, numRows: nat)
    requires numColumns > 0
    ensures GridKeys(numColumns, numRows) == GridKeys(numColumns - 1, numRows) + ColumnKeys(numColumns, numRows)
    ensures GridKeys(numColumns - 1, numRows) !! ColumnKeys(numColumns, numRows)
  {
    forall k | k in GridKeys(numColumns, numRows)
      ensures k in GridKeys(numColumns - 1, numRows) + ColumnKeys(numColumns, numRows)
    {
      if k.col < numColumns {
        assert k in GridKeys(numColumns - 1, numRows);
      } else {
        assert k in ColumnKeys(numColumns, numRows);
      }
    }
  }

  /** The grid of a `numColumns` by `numRows` sheet has exactly that many cells. */
  lemma {:induction false} GridKeysSize(numColumns: nat, numRows: nat)
    ensures |GridKeys(numColumns, numRows)| == numColumns * numRows
  {
    if numColumns > 0 {
      GridKeysSize(numColumns - 1, numRows);
      ColumnKeysSize(numColumns, numRows);
      GridAddColumn(numColumns, numRows);
      assert (numColumns - 1) * numRows + numRows == numColumns * numRows;
    } else {
      assert GridKeys(0, numRows) == {};
    }
  }

  /** A new 10 by 10 sheet has 100 cells. */
  lemma TenByTen()
    ensures |GridKeys(10, 10)| == 100
  {
    GridKeysSize(10, 10);
  }

  /** Rows r1..r2 of column c, top to bottom (the inner loop of `get_range`). */
  function ColumnRun(c: nat, r1: int, r2: int): (s: seq<Coord>)
    requires r1 >= 0
    ensures |s| == (if r2 < r1 then 0 else r2 - r1 + 1)
    decreases r2 - r1
  {
    if r2 < r1 then [] else ColumnRun(c, r1, r2 - 1) + [Coord(c, r2 as nat)]
  }

  /**
   * The coordinates `get_range` visits: columns c1..c2 in the outer loop,
   * rows r1..r2 in the inner one.
   */
  function RangeCoords(c1: nat, r1: nat, c2: int, r2: int): seq<Coord>
    decreases c2 - c1
  {
    if c2 < c1 then [] else RangeCoords(c1, r1, c2 - 1, r2) + ColumnRun(c2 as nat, r1, r2)
  }

  function Height(r1: int, r2: int): nat { if r2 < r1 then 0 else r2 - r1 + 1 }

  lemma {:induction false} ColumnRunAt(c: nat, r1: nat, r2: int, i: nat)
    requires i < Height(r1, r2)
    ensures ColumnRun(c, r1, r2)[i] == Coord(c, r1 + i)
    decreases r2 - r1
  {
    if i < Height(r1, r2 - 1) {
      ColumnRunAt(c, r1, r2 - 1, i);
    }
  }

  /** Position of (column offset ci, row offset ri) in a range of height h. */
  function RangeIndex(ci: nat, ri: nat, h: nat): nat { ci * h + ri }

  lemma {:induction false} MulMonotone(a: nat, b: nat, h: nat)
    requires a <= b
    ensures a * h <= b * h
    decreases b - a
  {
    if a < b {
      MulMonotone(a, b - 1, h);
      assert b * h == (b - 1) * h + h;
    }
  }

  /**
   * `get_range` enumerates (c2-c1+1)*(r2-r1+1) coordinates, and the one at
   * position ci*h + ri (h the height) is column c1+ci, row r1+ri: the row
   * varies fastest, within a fixed column.
   */
  lemma {:induction false} RangeCoordsAt(c1: nat, r1: nat, c2: int, r2: int)
    ensures |RangeCoords(c1, r1, c2, r2)| == Height(c1, c2) * Height(r1, r2)
    ensures forall ci: nat, ri: nat :: ci < Height(c1, c2) && ri < Height(r1, r2) ==>
              RangeIndex(ci, ri, Height(r1, r2)) < |RangeCoords(c1, r1, c2, r2)|
              && RangeCoords(c1, r1, c2, r2)[RangeIndex(ci, ri, Height(r1, r2))] == Coord(c1 + ci, r1 + ri)
    decreases c2 - c1
  {
    var h := Height(r1, r2);
    if c2 >= c1 {
      RangeCoordsAt(c1, r1, c2 - 1, r2);
      var prev := RangeCoords(c1, r1, c2 - 1, r2);
      var run := ColumnRun(c2 as nat, r1, r2);
      var w := Height(c1, c2 - 1);
      assert |prev| == w * h;
      assert Height(c1, c2) == w + 1;
      assert (w + 1) * h == w * h + h;
      forall ci: nat, ri: nat | ci < w + 1 && ri < h
        ensures RangeIndex(ci, ri, h) < |RangeCoords(c1, r1, c2, r2)|
        ensures RangeCoords(c1, r1, c2, r2)[RangeIndex(ci, ri, h)] == Coord(c1 + ci, r1 + ri)
      {
        if ci < w {
          MulMonotone(ci + 1, w, h);
          assert (ci + 1) * h == ci * h + h;
          assert RangeIndex(ci, ri, h) < |prev|;
        } else {
          ColumnRunAt(c2 as nat, r1, r2, ri);
          assert RangeIndex(ci, ri, h) == |prev| + ri;
        }
      }
    }
  }

  /** A coordinate is enumerated exactly when it lies in the rectangle. */
  lemma {:induction false} RangeCoordsMembers(c1: nat, r1: nat, c2: int, r2: int, k: Coord)
    ensures k in RangeCoords(c1, r1, c2, r2) <==> c1 <= k.col <= c2 && r1 <= k.row <= r2
    decreases c2 - c1
  {
    if c2 >= c1 {
      RangeCoordsMembers(c1, r1, c2 - 1, r2, k);
      if k.col == c2 && r1 <= k.row <= r2 {
        ColumnRunAt(c2 as nat, r1, r2, k.row - r1);
      }
      if k in ColumnRun(c2 as nat, r1, r2) {
        var i :| 0 <= i < |ColumnRun(c2 as nat, r1, r2)| && ColumnRun(c2 as nat, r1, r2)[i] == k;
        ColumnRunAt(c2 as nat, r1, r2, i);
      }
    }
  }

  /** The cases of the grid tests: A3..A5 gives 3 cells, (1,3)..(3,5) gives 9, first is the first corner. */
  lemma RangeExamples()
    ensures RangeCoords(1, 3, 1, 5) == [Coord(1, 3), Coord(1, 4), Coord(1, 5)]
    ensures |RangeCoords(1, 3, 3, 5)| == 9
    ensures RangeCoords(1, 1, 3, 3)[0] == Coord(1, 1)
  {
    assert RangeCoords(1, 3, 0, 5) == [];
    assert ColumnRun(1, 3, 5) == [Coord(1, 3), Coord(1, 4), Coord(1, 5)];
    RangeCoordsAt(1, 3, 3, 5);
    assert Height(1, 3) * Height(3, 5) == 9;
    RangeStartsAtCorner(1, 1, 3, 3);
  }

  /** A non-empty range starts at its first corner. */
  lemma RangeStartsAtCorner(c1: nat, r1: nat, c2: int, r2: int)
    requires c1 <= c2 && r1 <= r2
    ensures |RangeCoords(c1, r1, c2, r2)| > 0 && RangeCoords(c1, r1, c2, r2)[0] == Coord(c1, r1)
  {
    RangeCoordsAt(c1, r1, c2, r2);
    assert RangeIndex(0, 0, Height(r1, r2)) == 0;
  }

  /** An inverted corner pair enumerates nothing. */
  lemma EmptyRange(c1: nat, r1: nat, c2: int, r2: int)
    requires c1 > c2 || r1 > r2
    ensures RangeCoords(c1, r1, c2, r2) == []
  {
    RangeCoordsAt(c1, r1, c2, r2);
  }

  class Spreadsheet {
    const name: string
    var numColumns: nat
    var numRows: nat
    var cells: map<Coord, Cell>

    /** The map holds exactly the rectangle of the bounds, each cell at its own key. */
    ghost predicate Valid()
      reads this
    {
      && cells.Keys == GridKeys(numColumns, numRows)
      && forall k :: k in cells ==> cells[k].coordinates == k
    }

    constructor(name: string, numColumns: nat, numRows: nat)
      ensures Valid()
      ensures this.name == name && this.numColumns == numColumns && this.numRows == numRows
      ensures forall k :: k in cells ==> cells[k].content == DefaultContent
    {
      var d := InitializeCellDict(numColumns, numRows);
      this.name := name;
      this.numColumns := numColumns;
      this.numRows := numRows;
      this.cells := d;
    }

    /** `_initialize_cell_dict`: one default cell per coordinate of the rectangle. */
    static method InitializeCellDict(numColumns: nat, numRows: nat) returns (d: map<Coord, Cell>)
      ensures d.Keys == GridKeys(numColumns, numRows)
      ensures |d| == numColumns * numRows
      ensures forall k :: k in d ==> d[k] == NewCell(k, None)
    {
      d := map[];
      var c := 1;
      while c <= numColumns
        invariant 1 <= c <= numColumns + 1
        invariant d.Keys == GridKeys(c - 1, numRows)
        invariant forall k :: k in d ==> d[k] == NewCell(k, None)
      {
        var r := 1;
        while r <= numRows
          invariant 1 <= r <= numRows + 1
          invariant d.Keys == GridKeys(c - 1, numRows) + ColumnKeys(c, r - 1)
          invariant forall k :: k in d ==> d[k] == NewCell(k, None)
        {
          var coords := Coord(c, r);
          d := d[coords := NewCell(coords, None)];
          r := r + 1;
        }
        assert GridKeys(c, numRows) == GridKeys(c - 1, numRows) + ColumnKeys(c, numRows);
        c := c + 1;
      }
      GridKeysSize(numColumns, numRows);
    }

    /** `size`: the bounds, which are those of the cell rectangle. */
    function Size(): (s: (nat, nat))
      reads this
      ensures Valid() ==> cells.Keys == GridKeys(s.0, s.1)
      ensures Valid() ==> |cells| == s.0 * s.1
    {
      GridKeysSize(numColumns, numRows);
      (numColumns, numRows)
    }

    /**
     * `get_range`: the cells of the rectangle in enumeration order; a KeyError
     * when one of them is not in the map.
     */
    method GetRange(ul: Coord, lr: Coord) returns (r: Result<seq<Cell>>)
      ensures r.Ok? <==> forall k :: k in RangeCoords(ul.col, ul.row, lr.col, lr.row) ==> k in cells
      ensures r.Err? ==> r.error == KeyNotFound
      ensures r.Ok? ==> |r.value| == |RangeCoords(ul.col, ul.row, lr.col, lr.row)|
      ensures r.Ok? ==> forall i :: 0 <= i < |r.value| ==>
                RangeCoords(ul.col, ul.row, lr.col, lr.row)[i] in cells
                && r.value[i] == cells[RangeCoords(ul.col, ul.row, lr.col, lr.row)[i]]
    {
      var ls: seq<Cell> := [];
      ghost var visited: seq<Coord> := [];
      var c: int := ul.col;
      while c <= lr.col
        invariant ul.col <= c <= if lr.col < ul.col then ul.col else lr.col + 1
        invariant visited == RangeCoords(ul.col, ul.row, c - 1, lr.row)
        invariant |ls| == |visited|
        invariant forall i :: 0 <= i < |ls| ==> visited[i] in cells && ls[i] == cells[visited[i]]
      {
        var row: int := ul.row;
        while row <= lr.row
          invariant ul.row <= row <= if lr.row < ul.row then ul.row else lr.row + 1
          invariant visited == RangeCoords(ul.col, ul.row, c - 1, lr.row) + ColumnRun(c as nat, ul.row, row - 1)
          invariant |ls| == |visited|
          invariant forall i :: 0 <= i < |ls| ==> visited[i] in cells && ls[i] == cells[visited[i]]
        {
          var key := Coord(c as nat, row as nat);
          if key !in cells {
            RangeCoordsMembers(ul.col, ul.row, lr.col, lr.row, key);
            return Err(KeyNotFound);
          }
          ls := ls + [cells[key]];
          visited := visited + [key];
          row := row + 1;
        }
        c := c + 1;
      }
      return Ok(ls);
    }

    /** `cells[coords].set_content(content)`: one cell's content is replaced, nothing else changes. */
    method SetContent(coords: Coord, content: Content)
      requires Valid() && coords in cells
      modifies this
      ensures Valid()
      ensures numColumns == old(numColumns) && numRows == old(numRows)
      ensures cells == old(cells)[coords := Cell(coords, content)]
    {
      cells := cells[coords := Cell(coords, content)];
    }

    /**
     * `expand(col, row)`: the bounds grow to cover (col, row); cells that
     * come into the bounds get default content, existing cells are kept.
     */
    method Expand(col: nat, row: nat)
      requires Valid()
      modifies this
      ensures Valid()
      ensures numColumns == (if col > old(numColumns) then col else old(numColumns))
      ensures numRows == (if row > old(numRows) then row else old(numRows))
      ensures forall k :: k in old(cells) ==> k in cells && cells[k] == old(cells)[k]
      ensures forall k :: k in cells && k !in old(cells) ==> cells[k].content == DefaultContent
      ensures col >= 1 && row >= 1 ==> Coord(col, row) in cells
    {
      if col > numColumns { numColumns := col; }
      if row > numRows { numRows := row; }
      var old_cells := cells;
      cells := map k | k in GridKeys(numColumns, numRows) ::
        if k in old_cells then old_cells[k] else NewCell(k, None);
    }
  }
}
