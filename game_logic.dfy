/**
 * The board engine of src/lib.rs (module game_logic): a 4x4 grid of cells
 * updated in place by the four moves, the spawner and init_board, plus the
 * read-only queries won, lost and calculate_score.
 *
 * Every method is specified against the value-level functions of GridSpec.
 */
module GameLogic {
  import opened GridSpec

  /** The screens of the application (game_logic::State). */
  datatype State = Menu | Playing | Lost | Won

  /** The contents of a 4x4 array as a grid value. */
  ghost function GridOf(a: array2<nat>): (g: Grid)
    reads a
    requires a.Length0 == 4 && a.Length1 == 4
    ensures IsGrid(g)
    ensures forall r, c :: 0 <= r < 4 && 0 <= c < 4 ==> g[r][c] == a[r, c]
  {
    seq(4, r requires 0 <= r < 4 reads a =>
      seq(4, c requires 0 <= c < 4 reads a => a[r, c]))
  }

  class Board {
    /** The cells, row by row (the `size` field of the source). */
    const cells: array2<nat>
    /** The last score computed by CalculateScore. */
    var highScore: nat

    ghost predicate Valid()
    {
      cells.Length0 == 4 && cells.Length1 == 4
    }

    /** The grid as a value. */
    ghost function Grid(): (g: GridSpec.Grid)
      reads cells
      requires Valid()
    {
      GridOf(cells)
    }

    /**
     * Line i of direction d, read from the destination edge inward. It equals
     * LineOf(Grid(), d, i) (lemma LineOfGrid) but reads the four array cells
     * directly: going through the grid value makes every loop proof below
     * unfold the whole grid, and those proofs become several times costlier.
     */
    ghost function Line(d: Direction, i: int): (line: GridSpec.Line)
      reads cells
      requires Valid() && 0 <= i < 4
    {
      [cells[CellRow(d, i, 0), CellCol(d, i, 0)], cells[CellRow(d, i, 1), CellCol(d, i, 1)],
       cells[CellRow(d, i, 2), CellCol(d, i, 2)], cells[CellRow(d, i, 3), CellCol(d, i, 3)]]
    }

    lemma LineOfGrid(d: Direction, i: int)
      requires Valid() && 0 <= i < 4
      ensures Line(d, i) == LineOf(Grid(), d, i)
    {
    }

    /** A row read from its right end. */
    lemma RightLineIs(i: int, line: seq<nat>)
      requires Valid() && 0 <= i < 4
      requires |line| == 4 && forall c :: 0 <= c < 4 ==> cells[i, c] == line[3 - c]
      ensures Line(Right, i) == line
    {
      assert cells[i, 3] == line[0] && cells[i, 2] == line[1];
      assert cells[i, 1] == line[2] && cells[i, 0] == line[3];
    }

    /** A column read from its bottom end. */
    lemma DownLineIs(i: int, line: seq<nat>)
      requires Valid() && 0 <= i < 4
      requires |line| == 4 && forall r :: 0 <= r < 4 ==> cells[r, i] == line[3 - r]
      ensures Line(Down, i) == line
    {
      assert cells[3, i] == line[0] && cells[2, i] == line[1];
      assert cells[1, i] == line[2] && cells[0, i] == line[3];
    }

    /** Board::new: an all-empty grid and a high score of 0. */
    constructor ()
      ensures Valid() && fresh(cells)
      ensures Grid() == EmptyGrid() && highScore == 0
    {
      cells := new nat[4, 4]((r, c) => 0);
      highScore := 0;
      new;
      assert forall r :: 0 <= r < 4 ==> Grid()[r] == EmptyGrid()[r];
    }

    /** Board::clear: every cell becomes empty. */
    method Clear()
      requires Valid()
      modifies cells
      ensures Grid() == EmptyGrid()
    {
      for r := 0 to 4
        invariant forall r', c :: 0 <= r' < r && 0 <= c < 4 ==> cells[r', c] == 0
      {
        for c := 0 to 4
          invariant forall r', c' :: 0 <= r' < r && 0 <= c' < 4 ==> cells[r', c'] == 0
          invariant forall c' :: 0 <= c' < c ==> cells[r, c'] == 0
        {
          cells[r, c] := 0;
        }
      }
      assert forall r :: 0 <= r < 4 ==> Grid()[r] == EmptyGrid()[r];
    }

    /**
     * Board::init_board: clears the grid and writes 2 into two distinct cells;
     * first and second are the two positions sampled from the 16.
     */
    method InitBoard(first: Pos, second: Pos)
      requires Valid() && OnBoard(first) && OnBoard(second) && first != second
      modifies cells
      ensures Grid() == Seeded(first, second)
    {
      Clear();
      var chosen := [first, second];
      for t := 0 to 2
        invariant forall r, c :: 0 <= r < 4 && 0 <= c < 4 ==>
          cells[r, c] == (if (r, c) in chosen[..t] then 2 else 0)
      {
        var (row, col) := chosen[t];
        cells[row, col] := 2;
      }
      assert chosen[..2] == chosen;
      assert forall r, c :: 0 <= r < 4 && 0 <= c < 4 ==>
        Seeded(first, second)[r][c] == (if (r, c) in chosen then 2 else 0);
      CellwiseEqual(Grid(), Seeded(first, second));
    }

    /** Board::move_all_down: every column slides toward the bottom row. */
    method MoveAllDown()
      requires Valid()
      modifies cells
      ensures Grid() == Move(old(Grid()), Down)
    {
      ghost var g0 := Grid();
      MovedNoLines(g0, Down);
      for i := 0 to cells.Length0
        invariant Grid() == MovedLines(g0, Down, i)
      {
        LineOfGrid(Down, i);
        SlideColumnDown(i);
        LineOfGrid(Down, i);
        MovedNextLine(g0, Down, i, Grid());
      }
      MovedAllLines(g0, Down);
    }

    /** One iteration of the outer loop of Board::move_all_down: column i slides. */
    method SlideColumnDown(i: nat)
      requires Valid() && i < 4
      modifies cells
      ensures Line(Down, i) == Slide(old(Line(Down, i)))
      ensures forall r, c :: 0 <= r < 4 && 0 <= c < 4 && c != i ==> cells[r, c] == old(cells[r, c])
    {
      var stack: seq<(nat, nat)> := [];
      var j := 0;
      while j < cells.Length1
        invariant 0 <= j <= 4 && |stack| == j
        invariant forall t :: 0 <= t < |stack| ==> stack[t].1 == t
      {
        stack := stack + [(cells[j, i], j)];
        j := j + 1;
      }
      SlideFromStep(Line(Down, i), 0);
      while |stack| > 0
        invariant |stack| <= 4
        invariant forall t :: 0 <= t < |stack| ==> stack[t].1 == t
        invariant SlideFrom(Line(Down, i), 4 - |stack|) == Slide(old(Line(Down, i)))
        invariant forall r, c :: 0 <= r < 4 && 0 <= c < 4 && c != i ==> cells[r, c] == old(cells[r, c])
      {
        var value := stack[|stack| - 1];
        stack := stack[..|stack| - 1];
        ghost var start := Line(Down, i);
        MoveTileDown(i, value.1);
        SlideFromStep(start, 3 - value.1);
      }
    }

    /**
     * The body of the stack loop of Board::move_all_down: the tile at source
     * index index0 of line i advances toward index 3, which is position
     * 3 - index0 of the line read from that edge. The bound cells.Length0 is the
     * value the source's counter j has after filling the stack.
     */
    method MoveTileDown(i: nat, index0: nat)
      requires Valid() && i < 4 && index0 < 4
      modifies cells
      ensures Line(Down, i) == Push(old(Line(Down, i)), 3 - index0)
      ensures forall r, c :: 0 <= r < 4 && 0 <= c < 4 && c != i ==> cells[r, c] == old(cells[r, c])
    {
      ghost var line := Line(Down, i);
      var index: nat := index0;
      ghost var p := 3 - index0;
      while index + 1 < cells.Length0
        invariant index0 <= index <= 3 && p == 3 - index
        invariant |line| == 4 && forall r :: 0 <= r < 4 ==> cells[r, i] == line[3 - r]
        invariant Push(line, p) == Push(old(Line(Down, i)), 3 - index0)
        invariant forall r, c :: 0 <= r < 4 && 0 <= c < 4 && c != i ==> cells[r, c] == old(cells[r, c])
      {
        var val := cells[index, i];
        var other := cells[index + 1, i];
        if other == 0 {
          PushIntoEmpty(line, p);
          cells[index + 1, i] := val;
          cells[index, i] := 0;
          line := line[p - 1 := val][p := 0];
          index := index + 1;
          p := p - 1;
        } else if other == val {
          PushIntoEqual(line, p);
          cells[index + 1, i] := cells[index + 1, i] + other;
          cells[index, i] := 0;
          line := line[p - 1 := other + other][p := 0];
          break;
        } else {
          PushBlocked(line, p);
          break;
        }
      }
      DownLineIs(i, line);
    }

    /** Board::move_all_up: every column slides toward the top row. */
    method MoveAllUp()
      requires Valid()
      modifies cells
      ensures Grid() == Move(old(Grid()), Up)
    {
      ghost var g0 := Grid();
      MovedNoLines(g0, Up);
      for i := 0 to cells.Length0
        invariant Grid() == MovedLines(g0, Up, i)
      {
        LineOfGrid(Up, i);
        SlideColumnUp(i);
        LineOfGrid(Up, i);
        MovedNextLine(g0, Up, i, Grid());
      }
      MovedAllLines(g0, Up);
    }

    /** One iteration of the outer loop of Board::move_all_up: column i slides. */
    method SlideColumnUp(i: nat)
      requires Valid() && i < 4
      modifies cells
      ensures Line(Up, i) == Slide(old(Line(Up, i)))
      ensures forall r, c :: 0 <= r < 4 && 0 <= c < 4 && c != i ==> cells[r, c] == old(cells[r, c])
    {
      var stack: seq<(nat, nat)> := [];
      var j := cells.Length1 - 1;
      while j > 0
        invariant 0 <= j <= 3 && |stack| == 3 - j
        invariant forall t :: 0 <= t < |stack| ==> stack[t].1 == 3 - t
      {
        stack := stack + [(cells[j, i], j)];
        j := j - 1;
      }
      while |stack| > 0
        invariant |stack| <= 3
        invariant forall t :: 0 <= t < |stack| ==> stack[t].1 == 3 - t
        invariant SlideFrom(Line(Up, i), 4 - |stack|) == Slide(old(Line(Up, i)))
        invariant forall r, c :: 0 <= r < 4 && 0 <= c < 4 && c != i ==> cells[r, c] == old(cells[r, c])
      {
        var value := stack[|stack| - 1];
        stack := stack[..|stack| - 1];
        ghost var start := Line(Up, i);
        MoveTileUp(i, value.1);
        SlideFromStep(start, value.1);
      }
    }

    /**
     * The body of the stack loop of Board::move_all_up: the tile at source
     * index index0 of line i advances toward index 0.
     */
    method MoveTileUp(i: nat, index0: nat)
      requires Valid() && i < 4 && index0 < 4
      modifies cells
      ensures Line(Up, i) == Push(old(Line(Up, i)), index0)
      ensures forall r, c :: 0 <= r < 4 && 0 <= c < 4 && c != i ==> cells[r, c] == old(cells[r, c])
    {
      ghost var line := Line(Up, i);
      var index: nat := index0;
      while index > 0
        invariant index <= index0
        invariant |line| == 4 && forall p :: 0 <= p < 4 ==> cells[p, i] == line[p]
        invariant Push(line, index) == Push(old(Line(Up, i)), index0)
        invariant forall r, c :: 0 <= r < 4 && 0 <= c < 4 && c != i ==> cells[r, c] == old(cells[r, c])
      {
        var val := cells[index, i];
        var other := cells[index - 1, i];
        if other == 0 {
          PushIntoEmpty(line, index);
          cells[index - 1, i] := val;
          cells[index, i] := 0;
          line := line[index - 1 := val][index := 0];
          index := index - 1;
        } else if other == val {
          PushIntoEqual(line, index);
          cells[index - 1, i] := cells[index - 1, i] + other;
          cells[index, i] := 0;
          line := line[index - 1 := other + other][index := 0];
          break;
        } else {
          PushBlocked(line, index);
          break;
        }
      }
      assert Line(Up, i) == line;
    }

    /** Board::move_all_right: every row slides toward the rightmost column. */
    method MoveAllRight()
      requires Valid()
      modifies cells
      ensures Grid() == Move(old(Grid()), Right)
    {
      ghost var g0 := Grid();
      MovedNoLines(g0, Right);
      for i := 0 to cells.Length0
        invariant Grid() == MovedLines(g0, Right, i)
      {
        LineOfGrid(Right, i);
        SlideRowRight(i);
        LineOfGrid(Right, i);
        MovedNextLine(g0, Right, i, Grid());
      }
      MovedAllLines(g0, Right);
    }

    /** One iteration of the outer loop of Board::move_all_right: row i slides. */
    method SlideRowRight(i: nat)
      requires Valid() && i < 4
      modifies cells
      ensures Line(Right, i) == Slide(old(Line(Right, i)))
      ensures forall r, c :: 0 <= r < 4 && 0 <= c < 4 && r != i ==> cells[r, c] == old(cells[r, c])
    {
      var stack: seq<(nat, nat)> := [];
      var j := 0;
      while j < cells.Length1
        invariant 0 <= j <= 4 && |stack| == j
        invariant forall t :: 0 <= t < |stack| ==> stack[t].1 == t
      {
        stack := stack + [(cells[i, j], j)];
        j := j + 1;
      }
      SlideFromStep(Line(Right, i), 0);
      while |stack| > 0
        invariant |stack| <= 4
        invariant forall t :: 0 <= t < |stack| ==> stack[t].1 == t
        invariant SlideFrom(Line(Right, i), 4 - |stack|) == Slide(old(Line(Right, i)))
        invariant forall r, c :: 0 <= r < 4 && 0 <= c < 4 && r != i ==> cells[r, c] == old(cells[r, c])
      {
        var value := stack[|stack| - 1];
        stack := stack[..|stack| - 1];
        ghost var start := Line(Right, i);
        MoveTileRight(i, value.1);
        SlideFromStep(start, 3 - value.1);
      }
    }

    /**
     * The body of the stack loop of Board::move_all_right: the tile at source
     * index index0 of line i advances toward index 3, which is position
     * 3 - index0 of the line read from that edge. The bound cells.Length1 is the
     * value the source's counter j has after filling the stack.
     */
    method MoveTileRight(i: nat, index0: nat)
      requires Valid() && i < 4 && index0 < 4
      modifies cells
      ensures Line(Right, i) == Push(old(Line(Right, i)), 3 - index0)
      ensures forall r, c :: 0 <= r < 4 && 0 <= c < 4 && r != i ==> cells[r, c] == old(cells[r, c])
    {
      ghost var line := Line(Right, i);
      var index: nat := index0;
      ghost var p := 3 - index0;
      while index + 1 < cells.Length1
        invariant index0 <= index <= 3 && p == 3 - index
        invariant |line| == 4 && forall c :: 0 <= c < 4 ==> cells[i, c] == line[3 - c]
        invariant Push(line, p) == Push(old(Line(Right, i)), 3 - index0)
        invariant forall r, c :: 0 <= r < 4 && 0 <= c < 4 && r != i ==> cells[r, c] == old(cells[r, c])
      {
        var val := cells[i, index];
        var other := cells[i, index + 1];
        if other == 0 {
          PushIntoEmpty(line, p);
          cells[i, index + 1] := val;
          cells[i, index] := 0;
          line := line[p - 1 := val][p := 0];
          index := index + 1;
          p := p - 1;
        } else if other == val {
          PushIntoEqual(line, p);
          cells[i, index + 1] := cells[i, index + 1] + other;
          cells[i, index] := 0;
          line := line[p - 1 := other + other][p := 0];
          break;
        } else {
          PushBlocked(line, p);
          break;
        }
      }
      RightLineIs(i, line);
    }

    /** Board::move_all_left: every row slides toward the leftmost column. */
    method MoveAllLeft()
      requires Valid()
      modifies cells
      ensures Grid() == Move(old(Grid()), Left)
    {
      ghost var g0 := Grid();
      MovedNoLines(g0, Left);
      for i := 0 to cells.Length0
        invariant Grid() == MovedLines(g0, Left, i)
      {
        LineOfGrid(Left, i);
        SlideRowLeft(i);
        LineOfGrid(Left, i);
        MovedNextLine(g0, Left, i, Grid());
      }
      MovedAllLines(g0, Left);
    }

    /** One iteration of the outer loop of Board::move_all_left: row i slides. */
    method SlideRowLeft(i: nat)
      requires Valid() && i < 4
      modifies cells
      ensures Line(Left, i) == Slide(old(Line(Left, i)))
      ensures forall r, c :: 0 <= r < 4 && 0 <= c < 4 && r != i ==> cells[r, c] == old(cells[r, c])
    {
      var stack: seq<(nat, nat)> := [];
      var j := cells.Length1 - 1;
      while j > 0
        invariant 0 <= j <= 3 && |stack| == 3 - j
        invariant forall t :: 0 <= t < |stack| ==> stack[t].1 == 3 - t
      {
        stack := stack + [(cells[i, j], j)];
        j := j - 1;
      }
      while |stack| > 0
        invariant |stack| <= 3
        invariant forall t :: 0 <= t < |stack| ==> stack[t].1 == 3 - t
        invariant SlideFrom(Line(Left, i), 4 - |stack|) == Slide(old(Line(Left, i)))
        invariant forall r, c :: 0 <= r < 4 && 0 <= c < 4 && r != i ==> cells[r, c] == old(cells[r, c])
      {
        var value := stack[|stack| - 1];
        stack := stack[..|stack| - 1];
        ghost var start := Line(Left, i);
        MoveTileLeft(i, value.1);
        SlideFromStep(start, value.1);
      }
    }

    /**
     * The body of the stack loop of Board::move_all_left: the tile at source
     * index index0 of line i advances toward index 0.
     */
    method MoveTileLeft(i: nat, index0: nat)
      requires Valid() && i < 4 && index0 < 4
      modifies cells
      ensures Line(Left, i) == Push(old(Line(Left, i)), index0)
      ensures forall r, c :: 0 <= r < 4 && 0 <= c < 4 && r != i ==> cells[r, c] == old(cells[r, c])
    {
      ghost var line := Line(Left, i);
      var index: nat := index0;
      while index > 0
        invariant index <= index0
        invariant |line| == 4 && forall p :: 0 <= p < 4 ==> cells[i, p] == line[p]
        invariant Push(line, index) == Push(old(Line(Left, i)), index0)
        invariant forall r, c :: 0 <= r < 4 && 0 <= c < 4 && r != i ==> cells[r, c] == old(cells[r, c])
      {
        var val := cells[i, index];
        var other := cells[i, index - 1];
        if other == 0 {
          PushIntoEmpty(line, index);
          cells[i, index - 1] := val;
          cells[i, index] := 0;
          line := line[index - 1 := val][index := 0];
          index := index - 1;
        } else if other == val {
          PushIntoEqual(line, index);
          cells[i, index - 1] := cells[i, index - 1] + other;
          cells[i, index] := 0;
          line := line[index - 1 := other + other][index := 0];
          break;
        } else {
          PushBlocked(line, index);
          break;
        }
      }
      assert Line(Left, i) == line;
    }

    /**
     * Board::spawn_one_random: writes the new tile into the chosen empty
     * cell. The random choice is the parameter pick (taken modulo the number
     * of empty cells), and four says whether the new tile is 4 rather than 2.
     */
    method SpawnOneRandom(pick: nat, four: bool)
      requires Valid()
      modifies cells
      ensures Grid() == Spawned(old(Grid()), pick, four)
    {
      ghost var g0 := Grid();
      var emptyCells := EmptyCellList();
      if |emptyCells| > 0 {
        var (row, col) := emptyCells[pick % |emptyCells|];
        var value := if four then 4 else 2;
        cells[row, col] := value;
        SetCellCells(g0, row, col, value);
        CellwiseEqual(Grid(), SetCell(g0, row, col, value));
      }
    }

    /**
     * The scan at the start of Board::spawn_one_random: the positions of the
     * empty cells, in row-major order.
     */
    method EmptyCellList() returns (emptyCells: seq<Pos>)
      requires Valid()
      ensures emptyCells == EmptyCells(Grid())
    {
      ghost var g := Grid();
      emptyCells := [];
      for row := 0 to 4
        invariant emptyCells == EmptyScan(g, row, 0)
      {
        for col := 0 to 4
          invariant emptyCells == EmptyScan(g, row, col)
        {
          if cells[row, col] == 0 {
            emptyCells := emptyCells + [(row, col)];
          }
        }
      }
    }

    /** Board::won: whether some cell holds 2048. */
    method Won() returns (won: bool)
      requires Valid()
      ensures won <==> IsWon(Grid())
    {
      for r := 0 to 4
        invariant forall r', c :: 0 <= r' < r && 0 <= c < 4 ==> cells[r', c] != 2048
      {
        for c := 0 to 4
          invariant forall r', c' :: 0 <= r' < r && 0 <= c' < 4 ==> cells[r', c'] != 2048
          invariant forall c' :: 0 <= c' < c ==> cells[r, c'] != 2048
        {
          if cells[r, c] == 2048 {
            return true;
          }
        }
      }
      return false;
    }

    /**
     * Board::lost: false as soon as an empty cell is found; otherwise false
     * as soon as a cell equals its right or lower neighbour; otherwise true.
     */
    method Lost() returns (lost: bool)
      requires Valid()
      ensures lost <==> IsLost(Grid())
    {
      var n := cells.Length0;
      for r := 0 to 4
        invariant forall r', c :: 0 <= r' < r && 0 <= c < 4 ==> cells[r', c] != 0
      {
        for c := 0 to 4
          invariant forall r', c' :: 0 <= r' < r && 0 <= c' < 4 ==> cells[r', c'] != 0
          invariant forall c' :: 0 <= c' < c ==> cells[r, c'] != 0
        {
          if cells[r, c] == 0 {
            return false;
          }
        }
      }
      for i := 0 to n
        invariant forall r, c :: 0 <= r < i && 0 <= c < 3 ==> cells[r, c] != cells[r, c + 1]
        invariant forall r, c :: 0 <= r < i && r + 1 < 4 && 0 <= c < 4 ==> cells[r, c] != cells[r + 1, c]
      {
        for j := 0 to n
          invariant forall r, c :: 0 <= r < i && 0 <= c < 3 ==> cells[r, c] != cells[r, c + 1]
          invariant forall r, c :: 0 <= r < i && r + 1 < 4 && 0 <= c < 4 ==> cells[r, c] != cells[r + 1, c]
          invariant forall c :: 0 <= c < j && c < 3 ==> cells[i, c] != cells[i, c + 1]
          invariant forall c :: 0 <= c < j && i < 3 ==> cells[i, c] != cells[i + 1, c]
        {
          var current := cells[i, j];
          if j + 1 < n && cells[i, j + 1] == current {
            return false;
          }
          if i + 1 < n && cells[i + 1, j] == current {
            return false;
          }
        }
      }
      return true;
    }

    /**
     * Board::calculate_score: the sum of all cells, which is also stored as
     * the high score; the grid is not changed.
     */
    method CalculateScore() returns (score: nat)
      requires Valid()
      modifies this
      ensures score == GridSum(Grid()) && highScore == score
      ensures Grid() == old(Grid())
    {
      ghost var g := Grid();
      var val := 0;
      for r := 0 to 4
        invariant val == RowsSum(g, r)
      {
        for c := 0 to 4
          invariant val == RowsSum(g, r) + Sum(g[r][..c])
        {
          SumSnoc(g[r][..c], cells[r, c]);
          assert g[r][..c + 1] == g[r][..c] + [cells[r, c]];
          val := val + cells[r, c];
        }
        assert g[r][..4] == g[r];
      }
      assert RowsSum(g, 2) == Sum(g[0]) + Sum(g[1]);
      assert RowsSum(g, 4) == GridSum(g);
      highScore := val;
      return val;
    }
  }
}
