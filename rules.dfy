/** The rules of the game: win detection over the eight fixed lines and the
    column/row labels of a cell (src/index.js, calculateWinner,
    calculateColumn, calculateRow and getColumnRow). */
module Rules {
  import opened Options

  /** The two players' marks, the strings 'X' and 'O' of the source. */
  datatype Mark = X | O

  /** One square of the board: `null` in the source, or a mark. */
  datatype Cell = Empty | Filled(mark: Mark)

  /** The source's `squares` array; every board the game builds has nine cells,
      index = row * 3 + column in top-to-bottom, left-to-right order. */
  type Board = seq<Cell>

  const BoardSize: nat := 9

  /** A board of nine empty cells, `Array(9).fill(null)`. */
  function EmptyBoard(): (b: Board)
    ensures |b| == BoardSize && forall k :: 0 <= k < |b| ==> b[k] == Empty
  {
    seq(BoardSize, _ => Empty)
  }

  /** Reading `squares[k]`: an index outside the board reads `undefined`,
      which in the source behaves like an empty cell. */
  function At(squares: Board, k: nat): Cell
  {
    if k < |squares| then squares[k] else Empty
  }

  /** The eight winning lines, in the order the source scans them. */
  const Lines: seq<(nat, nat, nat)> :=
    [(0, 1, 2), (3, 4, 5), (6, 7, 8),
     (0, 3, 6), (1, 4, 7), (2, 5, 8),
     (0, 4, 8), (2, 4, 6)]

  /** The `[a, b, c]` array the source returns as `row`. */
  function LineCells(line: (nat, nat, nat)): seq<nat>
  {
    [line.0, line.1, line.2]
  }

  /** The test inside the loop: the first cell is non-empty and the other two
      hold the same value. */
  predicate LineWins(squares: Board, line: (nat, nat, nat))
  {
    At(squares, line.0).Filled? &&
    At(squares, line.0) == At(squares, line.1) &&
    At(squares, line.0) == At(squares, line.2)
  }

  /** The object `{ letter, row }` that calculateWinner returns. */
  datatype WinResult = WinResult(letter: Mark, row: seq<nat>)

  /** The result reported for a line that wins. */
  function ResultFor(squares: Board, line: (nat, nat, nat)): WinResult
    requires LineWins(squares, line)
  {
    WinResult(At(squares, line.0).mark, LineCells(line))
  }

  /** The result of scanning the lines from index `k` on. */
  function FirstWin(squares: Board, k: nat): Option<WinResult>
    requires k <= |Lines|
    decreases |Lines| - k
  {
    if k == |Lines| then None
    else if LineWins(squares, Lines[k]) then Some(ResultFor(squares, Lines[k]))
    else FirstWin(squares, k + 1)
  }

  /** What calculateWinner returns for a board; None is the source's `null`. */
  function Winner(squares: Board): Option<WinResult>
  {
    FirstWin(squares, 0)
  }

  lemma {:induction false} FirstWinNoneIff(squares: Board, k: nat)
    requires k <= |Lines|
    ensures FirstWin(squares, k) == None <==>
            forall j :: k <= j < |Lines| ==> !LineWins(squares, Lines[j])
    decreases |Lines| - k
  {
    if k < |Lines| {
      FirstWinNoneIff(squares, k + 1);
    }
  }

  /** calculateWinner returns null exactly when no line has three equal
      non-empty cells. */
  lemma WinnerNoneIff(squares: Board)
    ensures Winner(squares) == None <==>
            forall j :: 0 <= j < |Lines| ==> !LineWins(squares, Lines[j])
  {
    FirstWinNoneIff(squares, 0);
  }

  lemma {:induction false} FirstWinIsEarliest(squares: Board, k: nat, m: nat)
    requires k <= m < |Lines| && LineWins(squares, Lines[m])
    requires forall j :: k <= j < m ==> !LineWins(squares, Lines[j])
    ensures FirstWin(squares, k) == Some(ResultFor(squares, Lines[m]))
    decreases m - k
  {
    if k < m {
      FirstWinIsEarliest(squares, k + 1, m);
    }
  }

  /** When line `m` wins and no earlier line does, calculateWinner reports
      line `m` with the mark in its cells: the first match in the listed
      order is authoritative. */
  lemma WinnerIsFirstLine(squares: Board, m: nat)
    requires m < |Lines| && LineWins(squares, Lines[m])
    requires forall j :: 0 <= j < m ==> !LineWins(squares, Lines[j])
    ensures Winner(squares) == Some(WinResult(At(squares, Lines[m].0).mark, LineCells(Lines[m])))
  {
    FirstWinIsEarliest(squares, 0, m);
  }

  lemma {:induction false} FirstWinOnLine(squares: Board, k: nat)
    requires k <= |Lines| && FirstWin(squares, k).Some?
    ensures exists j :: k <= j < |Lines| && LineWins(squares, Lines[j]) &&
                        FirstWin(squares, k).value == ResultFor(squares, Lines[j])
    decreases |Lines| - k
  {
    if !LineWins(squares, Lines[k]) {
      FirstWinOnLine(squares, k + 1);
    }
  }

  /** A reported winner names one of the eight lines, and all three of its
      cells hold the reported letter. */
  lemma WinnerOccupiesLine(squares: Board)
    requires Winner(squares).Some?
    ensures exists j :: 0 <= j < |Lines| && Winner(squares).value.row == LineCells(Lines[j])
    ensures |Winner(squares).value.row| == 3
    ensures forall k :: 0 <= k < 3 ==>
              At(squares, Winner(squares).value.row[k]) == Filled(Winner(squares).value.letter)
  {
    FirstWinOnLine(squares, 0);
  }

  /** The loop of calculateWinner: scan the lines in order and return at the
      first one that wins. */
  method CalculateWinner(squares: Board) returns (r: Option<WinResult>)
    ensures r == Winner(squares)
  {
    var i := 0;
    while i < |Lines|
      invariant 0 <= i <= |Lines|
      invariant Winner(squares) == FirstWin(squares, i)
    {
      var (a, b, c) := Lines[i];
      if At(squares, a).Filled? && At(squares, a) == At(squares, b) && At(squares, a) == At(squares, c) {
        return Some(WinResult(At(squares, a).mark, [a, b, c]));
      }
      i := i + 1;
    }
    return None;
  }

  /** One entry `{ name, squares }` of the column or row tables. */
  datatype Group<N> = Group(name: N, squares: seq<int>)

  const Columns: seq<Group<char>> :=
    [Group('A', [0, 3, 6]), Group('B', [1, 4, 7]), Group('C', [2, 5, 8])]

  /** Row 1 is the bottom row of the board. */
  const Rows: seq<Group<nat>> :=
    [Group(1, [6, 7, 8]), Group(2, [3, 4, 5]), Group(3, [0, 1, 2])]

  /** getColumnRow: the name of the first group whose cells include `i`, or
      nothing (`undefined`) when no group does. */
  method GetColumnRow<N>(i: int, groups: seq<Group<N>>) returns (r: Option<N>)
    ensures r == None <==> forall j :: 0 <= j < |groups| ==> i !in groups[j].squares
    ensures r.Some? ==> exists j :: 0 <= j < |groups| && i in groups[j].squares &&
                                    r.value == groups[j].name &&
                                    forall k :: 0 <= k < j ==> i !in groups[k].squares
  {
    var j := 0;
    while j < |groups|
      invariant 0 <= j <= |groups|
      invariant forall k :: 0 <= k < j ==> i !in groups[k].squares
    {
      if i in groups[j].squares {
        return Some(groups[j].name);
      }
      j := j + 1;
    }
    return None;
  }

  /** Reference definition of a cell's column label: A, B or C by `i % 3`. */
  function ColumnOf(i: int): Option<char>
  {
    if 0 <= i < BoardSize then Some(if i % 3 == 0 then 'A' else if i % 3 == 1 then 'B' else 'C')
    else None
  }

  /** Reference definition of a cell's row label: `3 - i / 3`, so the top row
      of the array is row 3 and the bottom row is row 1. */
  function RowOf(i: int): Option<nat>
  {
    if 0 <= i < BoardSize then Some(3 - i / 3) else None
  }

  /** calculateColumn: the column table lookup agrees with `i % 3`. */
  method CalculateColumn(i: int) returns (r: Option<char>)
    ensures r == ColumnOf(i)
  {
    r := GetColumnRow(i, Columns);
    assert Columns[0].squares == [0, 3, 6];
    assert Columns[1].squares == [1, 4, 7];
    assert Columns[2].squares == [2, 5, 8];
  }

  /** calculateRow: the row table lookup agrees with `3 - i / 3`. */
  method CalculateRow(i: int) returns (r: Option<nat>)
    ensures r == RowOf(i)
  {
    r := GetColumnRow(i, Rows);
    assert Rows[0].squares == [6, 7, 8];
    assert Rows[1].squares == [3, 4, 5];
    assert Rows[2].squares == [0, 1, 2];
  }
}
