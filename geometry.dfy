/** The geometry of the board: rows, columns and 3x3 squares, and the copies of one
    such line of nine cells that the solver works on. The 9x9 cell array of
    struct SudokuBoard is viewed row by row as 81 cells, cell (row, col) at 9*row + col. */
module Geometry {
  import opened Cell

  /** The three kinds of line a cell belongs to. */
  datatype LineKind = Row | Column | Square

  /** RowAndColToSquare (engine.c:174): the square holding cell (row, col); squares are
      numbered row by row from the top left. */
  function RowAndColToSquare(row: int, col: int): (square: int)
    requires 0 <= row < 9 && 0 <= col < 9
    ensures 0 <= square < 9
    ensures square / 3 == row / 3 && square % 3 == col / 3
  {
    3 * (row / 3) + col / 3
  }

  /** The board cell that entry i of a copy of line `line` of kind `kind` stands for:
      CellsFromRow (engine.c:212-213), CellsFromColumn (engine.c:229-230) and
      CellsFromSquare (engine.c:186-195), which lists a square row by row. */
  function CellIndex(kind: LineKind, line: int, i: int): (p: int)
    requires 0 <= line < 9 && 0 <= i < 9
    ensures 0 <= p < 81
  {
    match kind
    case Row => 9 * line + i
    case Column => 9 * i + line
    case Square => 9 * (3 * (line / 3) + i / 3) + (3 * (line % 3) + i % 3)
  }

  /** The line of kind `kind` that board cell p lies on. */
  function LineOf(kind: LineKind, p: int): (line: int)
    requires 0 <= p < 81
    ensures 0 <= line < 9
  {
    match kind
    case Row => p / 9
    case Column => p % 9
    case Square => RowAndColToSquare(p / 9, p % 9)
  }

  /** The entry of its line of kind `kind` that board cell p is copied to. */
  function PosInLine(kind: LineKind, p: int): (i: int)
    requires 0 <= p < 81
    ensures 0 <= i < 9
  {
    match kind
    case Row => p % 9
    case Column => p / 9
    case Square => 3 * ((p / 9) % 3) + (p % 9) % 3
  }

  /** Entry i of line `line` is the cell whose line is `line` and whose entry is i. */
  lemma CellIndexInverse(kind: LineKind, line: int, i: int)
    requires 0 <= line < 9 && 0 <= i < 9
    ensures LineOf(kind, CellIndex(kind, line, i)) == line
    ensures PosInLine(kind, CellIndex(kind, line, i)) == i
  {
    match kind
    case Row =>
      RowMajor(line, i);
    case Column =>
      RowMajor(i, line);
    case Square =>
      SquareInverse(line, i);
  }

  lemma SquareInverse(s: int, i: int)
    requires 0 <= s < 9 && 0 <= i < 9
    ensures LineOf(Square, CellIndex(Square, s, i)) == s
    ensures PosInLine(Square, CellIndex(Square, s, i)) == i
  {
    SquareSplit(s);
    SquareSplit(i);
    var a, b, c, d := s / 3, s % 3, i / 3, i % 3;
    var row, col := 3 * a + c, 3 * b + d;
    assert CellIndex(Square, s, i) == 9 * row + col;
    RowMajor(row, col);
    SquareDigits(a, c);
    SquareDigits(b, d);
    assert RowAndColToSquare(row, col) == 3 * a + b;
  }

  /** Cell (row, col) is at 9*row + col and nowhere else. */
  lemma RowMajor(row: int, col: int)
    requires 0 <= row < 9 && 0 <= col < 9
    ensures (9 * row + col) / 9 == row && (9 * row + col) % 9 == col
  {
  }

  lemma SquareSplit(s: int)
    requires 0 <= s < 9
    ensures 0 <= s / 3 < 3 && 0 <= s % 3 < 3 && s == 3 * (s / 3) + s % 3
  {
  }

  lemma SquareDigits(a: int, b: int)
    requires 0 <= a < 3 && 0 <= b < 3
    ensures (3 * a + b) / 3 == a && (3 * a + b) % 3 == b
  {
  }

  /** Every board cell is entry PosInLine of its own line, so the copies of the
      nine lines of one kind together cover the board exactly once. */
  lemma LineOfInverse(kind: LineKind, p: int)
    requires 0 <= p < 81
    ensures CellIndex(kind, LineOf(kind, p), PosInLine(kind, p)) == p
  {
    match kind
    case Row =>
    case Column =>
      RowMajor(p / 9, p % 9);
    case Square =>
      SquareCover(p);
  }

  lemma SquareCover(p: int)
    requires 0 <= p < 81
    ensures CellIndex(Square, LineOf(Square, p), PosInLine(Square, p)) == p
  {
    var row, col := p / 9, p % 9;
    SquareSplit(row);
    SquareSplit(col);
    var a, c, b, d := row / 3, row % 3, col / 3, col % 3;
    var s, i := 3 * a + b, 3 * c + d;
    assert LineOf(Square, p) == s && PosInLine(Square, p) == i;
    SquareDigits(a, b);
    SquareDigits(c, d);
    assert CellIndex(Square, s, i) == 9 * row + col;
  }

  /** Distinct entries of one line stand for distinct cells. */
  lemma CellIndexInjective(kind: LineKind, line: int, i: int, j: int)
    requires 0 <= line < 9 && 0 <= i < 9 && 0 <= j < 9
    ensures CellIndex(kind, line, i) == CellIndex(kind, line, j) ==> i == j
  {
    CellIndexInverse(kind, line, i);
    CellIndexInverse(kind, line, j);
  }

  /** The square of entry i of the copy of square s is s: CellsFromSquare and
      RowAndColToSquare number the squares alike. */
  lemma SquareCellsInSquare(s: int, i: int)
    requires 0 <= s < 9 && 0 <= i < 9
    ensures var p := CellIndex(Square, s, i);
      p / 9 == 3 * (s / 3) + i / 3 && p % 9 == 3 * (s % 3) + i % 3
      && RowAndColToSquare(p / 9, p % 9) == s
  {
    CellIndexInverse(Square, s, i);
  }

  /** The copy of a line: CellsFromRow, CellsFromColumn and CellsFromSquare on values. */
  function Extract(board: seq<Bits>, kind: LineKind, line: int): (cells: seq<Bits>)
    requires |board| == 81 && 0 <= line < 9
    ensures |cells| == 9
  {
    seq(9, i requires 0 <= i < 9 => board[CellIndex(kind, line, i)])
  }

  /** SetCellsOnRow, SetCellsOnColumn and SetCellsOnSquare on values: entry i of `cells`
      is written to the cell it was copied from; the other cells keep their value. */
  function Write(board: seq<Bits>, kind: LineKind, line: int, cells: seq<Bits>): (r: seq<Bits>)
    requires |board| == 81 && 0 <= line < 9 && |cells| == 9
    ensures |r| == 81
  {
    seq(81, p requires 0 <= p < 81 => if LineOf(kind, p) == line then cells[PosInLine(kind, p)] else board[p])
  }

  /** The first `count` entries of `cells` written one by one to the cells they were
      copied from, as the loops of SetCellsOnRow, SetCellsOnColumn and SetCellsOnSquare do. */
  function WritePrefix(board: seq<Bits>, kind: LineKind, line: int, cells: seq<Bits>, count: int): (r: seq<Bits>)
    requires |board| == 81 && 0 <= line < 9 && |cells| == 9 && 0 <= count <= 9
    ensures |r| == 81
  {
    if count == 0 then board
    else WritePrefix(board, kind, line, cells, count - 1)[CellIndex(kind, line, count - 1) := cells[count - 1]]
  }

  /** Writing the entries one by one ends in the written line. */
  lemma WritePrefixAll(board: seq<Bits>, kind: LineKind, line: int, cells: seq<Bits>)
    requires |board| == 81 && 0 <= line < 9 && |cells| == 9
    ensures WritePrefix(board, kind, line, cells, 9) == Write(board, kind, line, cells)
  {
    forall p | 0 <= p < 81
      ensures WritePrefix(board, kind, line, cells, 9)[p] == Write(board, kind, line, cells)[p]
    {
      if LineOf(kind, p) == line {
        LineOfInverse(kind, p);
        WritePrefixHit(board, kind, line, cells, 9, PosInLine(kind, p));
      } else {
        forall i | 0 <= i < 9
          ensures p != CellIndex(kind, line, i)
        {
          CellIndexInverse(kind, line, i);
        }
        WritePrefixMiss(board, kind, line, cells, 9, p);
      }
    }
  }

  /** After `count` entries are written, entry i < count is on its cell. */
  lemma {:induction false} WritePrefixHit(board: seq<Bits>, kind: LineKind, line: int, cells: seq<Bits>, count: int, i: int)
    requires |board| == 81 && 0 <= line < 9 && |cells| == 9 && 0 <= i < count <= 9
    ensures WritePrefix(board, kind, line, cells, count)[CellIndex(kind, line, i)] == cells[i]
  {
    if i < count - 1 {
      WritePrefixHit(board, kind, line, cells, count - 1, i);
      CellIndexInjective(kind, line, i, count - 1);
    }
  }

  /** A cell that none of the first `count` entries stands for keeps its value. */
  lemma {:induction false} WritePrefixMiss(board: seq<Bits>, kind: LineKind, line: int, cells: seq<Bits>, count: int, p: int)
    requires |board| == 81 && 0 <= line < 9 && |cells| == 9 && 0 <= count <= 9 && 0 <= p < 81
    requires forall i :: 0 <= i < count ==> p != CellIndex(kind, line, i)
    ensures WritePrefix(board, kind, line, cells, count)[p] == board[p]
  {
    if count > 0 {
      WritePrefixMiss(board, kind, line, cells, count - 1, p);
    }
  }

  /** Entry 3*r + c of the copy of square s is cell (3*(s/3) + r, 3*(s%3) + c). */
  lemma SquareIndex(s: int, r: int, c: int)
    requires 0 <= s < 9 && 0 <= r < 3 && 0 <= c < 3
    ensures CellIndex(Square, s, 3 * r + c) == 9 * (3 * (s / 3) + r) + (3 * (s % 3) + c)
  {
    assert (3 * r + c) / 3 == r && (3 * r + c) % 3 == c;
  }

  /** Writing puts every entry of the copy on its cell and leaves every cell off the
      line as it was. */
  lemma WriteAt(board: seq<Bits>, kind: LineKind, line: int, cells: seq<Bits>, p: int)
    requires |board| == 81 && 0 <= line < 9 && |cells| == 9 && 0 <= p < 81
    ensures LineOf(kind, p) == line ==> Write(board, kind, line, cells)[p] == cells[PosInLine(kind, p)]
    ensures LineOf(kind, p) != line ==> Write(board, kind, line, cells)[p] == board[p]
    ensures forall i :: 0 <= i < 9 && p == CellIndex(kind, line, i) ==> Write(board, kind, line, cells)[p] == cells[i]
  {
    forall i | 0 <= i < 9 && p == CellIndex(kind, line, i)
      ensures Write(board, kind, line, cells)[p] == cells[i]
    {
      CellIndexInverse(kind, line, i);
    }
  }

  /** Writing back an unmodified copy of a line changes nothing. */
  lemma {:induction false} WriteExtract(board: seq<Bits>, kind: LineKind, line: int)
    requires |board| == 81 && 0 <= line < 9
    ensures Write(board, kind, line, Extract(board, kind, line)) == board
  {
    var r := Write(board, kind, line, Extract(board, kind, line));
    forall p | 0 <= p < 81
      ensures r[p] == board[p]
    {
      LineOfInverse(kind, p);
    }
  }

  /** Copying a line after writing `cells` to it gives back `cells`. */
  lemma {:induction false} ExtractWrite(board: seq<Bits>, kind: LineKind, line: int, cells: seq<Bits>)
    requires |board| == 81 && 0 <= line < 9 && |cells| == 9
    ensures Extract(Write(board, kind, line, cells), kind, line) == cells
  {
    var r := Extract(Write(board, kind, line, cells), kind, line);
    forall i | 0 <= i < 9
      ensures r[i] == cells[i]
    {
      CellIndexInverse(kind, line, i);
    }
  }
}
