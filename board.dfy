/** The board and the solver: struct SudokuBoard, blank_board, SetCell, the copies of
    rows, columns and squares and their write-back, BoardCheckSum and SolveBoard. */
module Board {
  import opened Cell
  import opened Geometry
  import opened ClusterSearch
  import opened Filter

  // ---------------------------------------------------------------------
  // The board as a value

  /** The board blank_board returns: every digit possible in every cell. */
  function BlankCells(): (board: seq<Bits>)
    ensures |board| == 81
  {
    seq(81, _ => AllBits)
  }

  /** The candidate count of a board: what BoardCheckSum returns. */
  function CheckSum(board: seq<Bits>): nat
  {
    if board == [] then 0 else CheckSum(board[..|board| - 1]) + Pop(board[|board| - 1])
  }

  /** `after` is `before` with some candidates cleared and none added. */
  predicate Refines(after: seq<Bits>, before: seq<Bits>)
  {
    |after| == |before| && forall p :: 0 <= p < |after| ==> after[p] & before[p] == after[p]
  }

  /** One line of a pass of SolveBoard (engine.c:294-299): copy the line, find its
      clusters, filter the copy by them and write it back. */
  function LineStep(board: seq<Bits>, kind: LineKind, line: int): (r: seq<Bits>)
    requires |board| == 81 && 0 <= line < 9
    ensures |r| == 81
  {
    var cells := Extract(board, kind, line);
    Write(board, kind, line, Filtered(cells, Clusters(cells)))
  }

  /** Lines 0 .. lines-1 of one kind, in order. */
  function KindPass(board: seq<Bits>, kind: LineKind, lines: int): (r: seq<Bits>)
    requires |board| == 81 && 0 <= lines <= 9
    ensures |r| == 81
  {
    if lines == 0 then board else LineStep(KindPass(board, kind, lines - 1), kind, lines - 1)
  }

  /** One pass of the do-while of SolveBoard (engine.c:293-318): the rows, then the
      columns, then the squares. */
  function Pass(board: seq<Bits>): (r: seq<Bits>)
    requires |board| == 81
    ensures |r| == 81
  {
    KindPass(KindPass(KindPass(board, Row, 9), Column, 9), Square, 9)
  }

  /** SolveBoard (engine.c:287-321) on values: passes until one leaves the candidate
      count unchanged; the count falls with every other pass. */
  function Solve(board: seq<Bits>): (r: seq<Bits>)
    requires |board| == 81
    ensures |r| == 81
    decreases CheckSum(board)
  {
    var next := Pass(board);
    PassRefines(board);
    CheckSumMonotone(next, board);
    if CheckSum(next) == CheckSum(board) then next else Solve(next)
  }

  // ---------------------------------------------------------------------
  // The candidate count

  lemma CheckSumSnoc(board: seq<Bits>, i: int)
    requires 0 <= i < |board|
    ensures CheckSum(board[..i + 1]) == CheckSum(board[..i]) + Pop(board[i])
  {
    assert board[..i + 1][..i] == board[..i];
  }

  /** BoardCheckSum's promise (engine.c:259-263): if no cell of `after` has more
      candidates than in `before`, its count is no larger, and it is as large only
      when every cell has as many candidates as before. */
  lemma {:induction false} CheckSumLess(after: seq<Bits>, before: seq<Bits>)
    requires |after| == |before| && forall p :: 0 <= p < |after| ==> Pop(after[p]) <= Pop(before[p])
    ensures CheckSum(after) <= CheckSum(before)
    ensures CheckSum(after) == CheckSum(before) ==> forall p :: 0 <= p < |after| ==> Pop(after[p]) == Pop(before[p])
  {
    if after != [] {
      var n := |after| - 1;
      CheckSumLess(after[..n], before[..n]);
      forall p | 0 <= p < |after|
        ensures CheckSum(after) == CheckSum(before) ==> Pop(after[p]) == Pop(before[p])
      {
        if p < n {
          assert after[..n][p] == after[p] && before[..n][p] == before[p];
        }
      }
    }
  }

  /** A board in a strictly more solved state has a smaller, hence different, count. */
  lemma CheckSumMoreSolved(after: seq<Bits>, before: seq<Bits>, q: int)
    requires |after| == |before| && forall p :: 0 <= p < |after| ==> Pop(after[p]) <= Pop(before[p])
    requires 0 <= q < |after| && Pop(after[q]) < Pop(before[q])
    ensures CheckSum(after) < CheckSum(before)
  {
    CheckSumLess(after, before);
  }

  /** Clearing candidates never raises the count, and keeps it only when nothing was cleared. */
  lemma CheckSumMonotone(after: seq<Bits>, before: seq<Bits>)
    requires Refines(after, before)
    ensures CheckSum(after) <= CheckSum(before)
    ensures CheckSum(after) == CheckSum(before) ==> after == before
  {
    forall p | 0 <= p < |after|
      ensures Pop(after[p]) <= Pop(before[p]) && (Pop(after[p]) == Pop(before[p]) ==> after[p] == before[p])
    {
      PopSubset(after[p], before[p]);
    }
    CheckSumLess(after, before);
  }

  // ---------------------------------------------------------------------
  // Passes only clear candidates

  lemma RefinesTrans(a: seq<Bits>, b: seq<Bits>, c: seq<Bits>)
    requires Refines(a, b) && Refines(b, c)
    ensures Refines(a, c)
  {
  }

  /** A line step never adds a candidate to any cell. */
  lemma LineStepRefines(board: seq<Bits>, kind: LineKind, line: int)
    requires |board| == 81 && 0 <= line < 9
    ensures Refines(LineStep(board, kind, line), board)
  {
    var cells := Extract(board, kind, line);
    var filtered := Filtered(cells, Clusters(cells));
    forall p | 0 <= p < 81
      ensures LineStep(board, kind, line)[p] & board[p] == LineStep(board, kind, line)[p]
    {
      WriteAt(board, kind, line, filtered, p);
      if LineOf(kind, p) == line {
        var i := PosInLine(kind, p);
        LineOfInverse(kind, p);
        FilteredShrinks(cells, Clusters(cells), i);
      }
    }
  }

  lemma {:induction false} KindPassRefines(board: seq<Bits>, kind: LineKind, lines: int)
    requires |board| == 81 && 0 <= lines <= 9
    ensures Refines(KindPass(board, kind, lines), board)
  {
    if lines > 0 {
      KindPassRefines(board, kind, lines - 1);
      LineStepRefines(KindPass(board, kind, lines - 1), kind, lines - 1);
    }
  }

  /** A pass only clears candidates (engine.c:253 is the only write that changes a value). */
  lemma PassRefines(board: seq<Bits>)
    requires |board| == 81
    ensures Refines(Pass(board), board)
  {
    var rows := KindPass(board, Row, 9);
    var columns := KindPass(rows, Column, 9);
    KindPassRefines(board, Row, 9);
    KindPassRefines(rows, Column, 9);
    KindPassRefines(columns, Square, 9);
    RefinesTrans(columns, rows, board);
    RefinesTrans(Pass(board), columns, board);
  }

  /** SolveBoard only clears candidates. */
  lemma {:induction false} SolveRefines(board: seq<Bits>)
    requires |board| == 81
    ensures Refines(Solve(board), board)
    decreases CheckSum(board)
  {
    var next := Pass(board);
    PassRefines(board);
    CheckSumMonotone(next, board);
    if CheckSum(next) != CheckSum(board) {
      SolveRefines(next);
      RefinesTrans(Solve(next), next, board);
    }
  }

  /** SolveBoard stops at a board that one more pass leaves as it is. */
  lemma {:induction false} SolveFixpoint(board: seq<Bits>)
    requires |board| == 81
    ensures Pass(Solve(board)) == Solve(board)
    decreases CheckSum(board)
  {
    var next := Pass(board);
    PassRefines(board);
    CheckSumMonotone(next, board);
    if CheckSum(next) != CheckSum(board) {
      SolveFixpoint(next);
    }
  }

  // ---------------------------------------------------------------------
  // The blank board

  /** A line of a blank board has no clusters, so a line step leaves it as it is. */
  lemma LineStepBlank(kind: LineKind, line: int)
    requires 0 <= line < 9
    ensures LineStep(BlankCells(), kind, line) == BlankCells()
  {
    var cells := Extract(BlankCells(), kind, line);
    PopExpand(AllBits);
    NoSmallCellsNoClusters(cells);
    WriteExtract(BlankCells(), kind, line);
  }

  lemma {:induction false} KindPassBlank(kind: LineKind, lines: int)
    requires 0 <= lines <= 9
    ensures KindPass(BlankCells(), kind, lines) == BlankCells()
  {
    if lines > 0 {
      KindPassBlank(kind, lines - 1);
      LineStepBlank(kind, lines - 1);
    }
  }

  /** SolveBoard on a blank board stops after its first pass, with the board unchanged. */
  lemma SolveBlank()
    ensures Pass(BlankCells()) == BlankCells()
    ensures Solve(BlankCells()) == BlankCells()
  {
    KindPassBlank(Row, 9);
    KindPassBlank(Column, 9);
    KindPassBlank(Square, 9);
  }

  // ---------------------------------------------------------------------
  // Reading back a set cell

  /** SetCell's value is what SinglePossible reads back: the bit of v holds exactly one
      digit, and that digit is v. */
  lemma SetCellReadsBack(v: int)
    requires 1 <= v <= 9
    ensures Pop(DigitBit(v)) == 1
    ensures forall d :: 1 <= d <= 9 && DigitBit(d) == DigitBit(v) ==> d == v
  {
    DigitBitOnly(v);
    forall d | 1 <= d <= 9 && DigitBit(d) == DigitBit(v)
      ensures d == v
    {
      assert Has(DigitBit(v), d);
    }
  }

  /** A cell of a blank board holds all nine digits, so SinglePossible reads -1 there. */
  lemma BlankReadsNothing()
    ensures Pop(AllBits) == 9
  {
    PopExpand(AllBits);
  }

  /** TestCellSettingAndRetrieval (tests.c:67-105) for one placement: on a fresh blank
      board, SetCell places `value` at (row, col); SinglePossible then reads `value`
      there and -1 at any other cell. */
  method SetThenRead(row: int, col: int, value: int, otherRow: int, otherCol: int)
      returns (found: int, other: int)
    requires 0 <= row < 9 && 0 <= col < 9 && 1 <= value <= 9
    requires 0 <= otherRow < 9 && 0 <= otherCol < 9 && (otherRow, otherCol) != (row, col)
    ensures found == value && other == -1
  {
    var board := new SudokuBoard.Blank();
    board.SetCell(row, col, value);
    assert 9 * otherRow + otherCol != 9 * row + col;
    SetCellReadsBack(value);
    BlankReadsNothing();
    found := SinglePossible(board.cells[9 * row + col]);
    other := SinglePossible(board.cells[9 * otherRow + otherCol]);
  }

  // ---------------------------------------------------------------------
  // The board in place

  /** struct SudokuBoard (engine.h:30-32): the 9x9 cells, row by row. */
  class SudokuBoard {
    const cells: array<Bits>

    predicate Valid()
    {
      cells.Length == 81
    }

    /** blank_board (engine.c:44): every digit possible in every cell. */
    constructor Blank()
      ensures Valid() && fresh(cells) && cells[..] == BlankCells()
    {
      cells := new Bits[81];
      new;
      for row := 0 to 9
        invariant forall p :: 0 <= p < 9 * row ==> cells[p] == AllBits
      {
        for col := 0 to 9
          invariant forall p :: 0 <= p < 9 * row + col ==> cells[p] == AllBits
        {
          cells[9 * row + col] := AllBits;
        }
      }
    }

    /** SetCell (engine.c:106): the cell keeps only digit `value`. */
    method SetCell(row: int, col: int, value: int)
      requires Valid() && 0 <= row < 9 && 0 <= col < 9 && 1 <= value <= 9
      modifies cells
      ensures cells[..] == old(cells[..])[9 * row + col := DigitBit(value)]
    {
      cells[9 * row + col] := DigitBit(value);
    }

    /** CellsFromRow (engine.c:209): a copy of row `row`. */
    method CellsFromRow(row: int) returns (line: array<Bits>)
      requires Valid() && 0 <= row < 9
      ensures fresh(line) && line[..] == Extract(cells[..], Row, row)
    {
      line := new Bits[9];
      for col := 0 to 9
        invariant forall i :: 0 <= i < col ==> line[i] == cells[CellIndex(Row, row, i)]
      {
        line[col] := cells[9 * row + col];
      }
    }

    /** CellsFromColumn (engine.c:226): a copy of column `col`. */
    method CellsFromColumn(col: int) returns (line: array<Bits>)
      requires Valid() && 0 <= col < 9
      ensures fresh(line) && line[..] == Extract(cells[..], Column, col)
    {
      line := new Bits[9];
      for row := 0 to 9
        invariant forall i :: 0 <= i < row ==> line[i] == cells[CellIndex(Column, col, i)]
      {
        line[row] := cells[9 * row + col];
      }
    }

    /** CellsFromSquare (engine.c:185): a copy of square `squareNum`, row by row. */
    method CellsFromSquare(squareNum: int) returns (line: array<Bits>)
      requires Valid() && 0 <= squareNum < 9
      ensures fresh(line) && line[..] == Extract(cells[..], Square, squareNum)
    {
      var firstRow := (squareNum / 3) * 3;
      var firstCol := (squareNum % 3) * 3;
      line := new Bits[9];
      for row := firstRow to firstRow + 3
        invariant forall i :: 0 <= i < 3 * (row - firstRow) ==> line[i] == cells[CellIndex(Square, squareNum, i)]
      {
        for col := firstCol to firstCol + 3
          invariant forall i :: 0 <= i < 3 * (row - firstRow) + (col - firstCol) ==>
            line[i] == cells[CellIndex(Square, squareNum, i)]
        {
          SquareIndex(squareNum, row - firstRow, col - firstCol);
          line[3 * (row - firstRow) + (col - firstCol)] := cells[9 * row + col];
        }
      }
    }

    /** SetCellsOnRow (engine.c:334): entry i of `line` goes to cell (row, i). */
    method SetCellsOnRow(line: array<Bits>, row: int)
      requires Valid() && line.Length == 9 && 0 <= row < 9
      modifies cells
      ensures cells[..] == Write(old(cells[..]), Row, row, line[..])
    {
      for col := 0 to 9
        invariant cells[..] == WritePrefix(old(cells[..]), Row, row, line[..], col)
      {
        cells[9 * row + col] := line[col];
      }
      WritePrefixAll(old(cells[..]), Row, row, line[..]);
    }

    /** SetCellsOnColumn (engine.c:349): entry i of `line` goes to cell (i, col). */
    method SetCellsOnColumn(line: array<Bits>, col: int)
      requires Valid() && line.Length == 9 && 0 <= col < 9
      modifies cells
      ensures cells[..] == Write(old(cells[..]), Column, col, line[..])
    {
      for row := 0 to 9
        invariant cells[..] == WritePrefix(old(cells[..]), Column, col, line[..], row)
      {
        cells[9 * row + col] := line[row];
      }
      WritePrefixAll(old(cells[..]), Column, col, line[..]);
    }

    /** SetCellsOnSquare (engine.c:364): entry i of `line` goes back to the cell of square
        `squareNum` that CellsFromSquare copied it from. */
    method SetCellsOnSquare(line: array<Bits>, squareNum: int)
      requires Valid() && line.Length == 9 && 0 <= squareNum < 9
      modifies cells
      ensures cells[..] == Write(old(cells[..]), Square, squareNum, line[..])
    {
      var baseRow := (squareNum / 3) * 3;
      var baseCol := (squareNum % 3) * 3;
      for cellIndex := 0 to 9
        invariant cells[..] == WritePrefix(old(cells[..]), Square, squareNum, line[..], cellIndex)
      {
        var row := baseRow + cellIndex / 3;
        var col := baseCol + cellIndex % 3;
        SquareIndex(squareNum, cellIndex / 3, cellIndex % 3);
        cells[9 * row + col] := line[cellIndex];
      }
      WritePrefixAll(old(cells[..]), Square, squareNum, line[..]);
    }

    /** BoardCheckSum (engine.c:268): the number of candidates over the whole board. */
    method BoardCheckSum() returns (checksum: int)
      requires Valid()
      ensures checksum == CheckSum(cells[..])
    {
      checksum := 0;
      for row := 0 to 9
        invariant checksum == CheckSum(cells[..9 * row])
      {
        for col := 0 to 9
          invariant checksum == CheckSum(cells[..9 * row + col])
        {
          var bitCount := BitCount(cells[9 * row + col]);
          CheckSumSnoc(cells[..], 9 * row + col);
          checksum := checksum + bitCount;
        }
      }
      assert cells[..81] == cells[..];
    }

    /** engine.c:294-299: filters row `row` by its clusters. */
    method SolveRow(row: int)
      requires Valid() && 0 <= row < 9
      modifies cells
      ensures cells[..] == LineStep(old(cells[..]), Row, row)
    {
      var line := CellsFromRow(row);
      var clusters := FindLineClusters(line[..]);
      ClustersWellFormed(line[..]);
      FilterCellsByClusters(line, clusters);
      SetCellsOnRow(line, row);
    }

    /** engine.c:303-308: filters column `col` by its clusters. */
    method SolveColumn(col: int)
      requires Valid() && 0 <= col < 9
      modifies cells
      ensures cells[..] == LineStep(old(cells[..]), Column, col)
    {
      var line := CellsFromColumn(col);
      var clusters := FindLineClusters(line[..]);
      ClustersWellFormed(line[..]);
      FilterCellsByClusters(line, clusters);
      SetCellsOnColumn(line, col);
    }

    /** engine.c:312-317: filters square `squareNum` by its clusters. */
    method SolveSquare(squareNum: int)
      requires Valid() && 0 <= squareNum < 9
      modifies cells
      ensures cells[..] == LineStep(old(cells[..]), Square, squareNum)
    {
      var line := CellsFromSquare(squareNum);
      var clusters := FindLineClusters(line[..]);
      ClustersWellFormed(line[..]);
      FilterCellsByClusters(line, clusters);
      SetCellsOnSquare(line, squareNum);
    }

    /** SolveBoard (engine.c:287): filters every row, column and square by its clusters,
        over and over, until a pass leaves the candidate count unchanged. */
    method SolveBoard()
      requires Valid()
      modifies cells
      ensures cells[..] == Solve(old(cells[..]))
    {
      var checksum := BoardCheckSum();
      var lastChecksum;
      while true
        invariant checksum == CheckSum(cells[..])
        invariant Solve(cells[..]) == Solve(old(cells[..]))
        decreases checksum
      {
        lastChecksum := checksum;
        ghost var start := cells[..];
        SolvePass();
        checksum := BoardCheckSum();
        PassStep(start);
        if checksum == lastChecksum {
          break;
        }
      }
    }

    /** The body of the do-while in SolveBoard (engine.c:293-317): every row, then every
        column, then every square is filtered by its clusters. */
    method SolvePass()
      requires Valid()
      modifies cells
      ensures cells[..] == Pass(old(cells[..]))
    {
      ghost var start := cells[..];
      for row := 0 to 9
        invariant cells[..] == KindPass(start, Row, row)
      {
        SolveRow(row);
      }
      ghost var rows := cells[..];
      for col := 0 to 9
        invariant cells[..] == KindPass(rows, Column, col)
      {
        SolveColumn(col);
      }
      ghost var columns := cells[..];
      for squareNum := 0 to 9
        invariant cells[..] == KindPass(columns, Square, squareNum)
      {
        SolveSquare(squareNum);
      }
    }
  }

  /** One pass of the do-while: either the count is unchanged and SolveBoard's result is
      the board reached, or the count fell and the result is that of the board reached. */
  lemma PassStep(board: seq<Bits>)
    requires |board| == 81
    ensures CheckSum(Pass(board)) <= CheckSum(board)
    ensures CheckSum(Pass(board)) == CheckSum(board) ==> Solve(board) == Pass(board)
    ensures CheckSum(Pass(board)) != CheckSum(board) ==> Solve(board) == Solve(Pass(board))
  {
    PassRefines(board);
    CheckSumMonotone(Pass(board), board);
  }

  /** The clusters of a line are what FilterCellsByClusters reads. */
  lemma ClustersWellFormed(cells: seq<Bits>)
    requires |cells| == 9
    ensures WellFormed(Clusters(cells))
  {
    ClustersValid(cells);
    var r := Clusters(cells);
    forall j | 0 <= j < |r|
      ensures |r[j].positions| == r[j].size && InLine(r[j].positions)
    {
      assert r[j] in r;
    }
  }
}
