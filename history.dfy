/** The game history controller as values: the state of the `Game` component
    (src/index.js:74-123) and the three transitions its handlers make. The
    class in GameComponent is proved to perform exactly these transitions. */
module History {
  import opened Options
  import opened Rules

  /** One entry of `history`: a board and, for every board but the first, the
      column and row labels of the move that produced it. */
  datatype Snapshot = Snapshot(squares: Board, column: Option<char>, row: Option<nat>)

  /** `{ squares: Array(9).fill(null) }`: no annotation. */
  function InitialSnapshot(): Snapshot
  {
    Snapshot(EmptyBoard(), None, None)
  }

  /** The fields of the component's state that the game reads; `ascending` is
      left undefined by the constructor, which behaves as false both under `!`
      and under `=== true`. */
  datatype GameState = GameState(history: seq<Snapshot>, stepNumber: nat, xIsNext: bool, ascending: bool)

  /** The state the constructor builds. */
  function Initial(): GameState
  {
    GameState([InitialSnapshot()], 0, true, false)
  }

  /** The mark that the move producing snapshot `n` placed: X on odd `n`. */
  function MarkFor(n: nat): Mark
  {
    if n % 2 == 1 then X else O
  }

  /** Snapshot `next` (at position `n`) is `prev` after the player whose turn it
      was put a mark on the empty cell `i` of a board that had no winner. */
  predicate MoveAt(prev: Snapshot, next: Snapshot, n: nat, i: int)
  {
    0 <= i < |prev.squares| && prev.squares[i] == Empty && Winner(prev.squares) == None &&
    next == Snapshot(prev.squares[i := Filled(MarkFor(n))], ColumnOf(i), RowOf(i))
  }

  ghost predicate IsMove(prev: Snapshot, next: Snapshot, n: nat)
  {
    exists i :: MoveAt(prev, next, n, i)
  }

  /** A history the game can build: it starts at the empty board, every board
      has nine cells and every later snapshot is one move after the one before. */
  ghost predicate ValidHistory(h: seq<Snapshot>)
  {
    |h| >= 1 && h[0] == InitialSnapshot() &&
    (forall n :: 0 <= n < |h| ==> |h[n].squares| == BoardSize) &&
    (forall n :: 1 <= n < |h| ==> IsMove(h[n - 1], h[n], n))
  }

  /** The component's invariant: a valid history, a step pointer into it, and
      the turn flag equal to the parity of the step. */
  ghost predicate ValidState(s: GameState)
  {
    ValidHistory(s.history) && s.stepNumber < |s.history| &&
    s.xIsNext == (s.stepNumber % 2 == 0)
  }

  /** The snapshot shown, `history[stepNumber]`. */
  function Current(s: GameState): Snapshot
    requires s.stepNumber < |s.history|
  {
    s.history[s.stepNumber]
  }

  /** The two ways handleClick declines a click on cell `i`. */
  predicate Rejects(s: GameState, i: int)
    requires s.stepNumber < |s.history| && 0 <= i < |Current(s).squares|
  {
    Winner(Current(s).squares).Some? || Current(s).squares[i] != Empty
  }

  /** handleClick(i) (src/index.js:89-110): decline when the current board has a
      winner or the cell is taken; otherwise drop the snapshots after the
      current one, append the board with the mark of the player to move on cell
      `i`, annotated with its column and row, and pass the turn. */
  function Click(s: GameState, i: int): (r: GameState)
    requires s.stepNumber < |s.history| && 0 <= i < |Current(s).squares|
    ensures r == s <==> Rejects(s, i)
    ensures r.stepNumber < |r.history| && |Current(r).squares| == |Current(s).squares|
    ensures !Rejects(s, i) ==>
              |r.history| == s.stepNumber + 2 &&
              r.history[..s.stepNumber + 1] == s.history[..s.stepNumber + 1] &&
              r.stepNumber == |r.history| - 1 &&
              r.xIsNext == !s.xIsNext && r.ascending == s.ascending
    ensures !Rejects(s, i) ==>
              var b, b' := Current(s).squares, Current(r).squares;
              |b'| == |b| && b'[i] == Filled(if s.xIsNext then X else O) &&
              (forall k :: 0 <= k < |b| && k != i ==> b'[k] == b[k]) &&
              Current(r).column == ColumnOf(i) && Current(r).row == RowOf(i)
  {
    var history := s.history[..s.stepNumber + 1];
    var squares := history[|history| - 1].squares;
    if Winner(squares).Some? || squares[i] != Empty then s
    else
      GameState(history + [Snapshot(squares[i := Filled(if s.xIsNext then X else O)], ColumnOf(i), RowOf(i))],
                |history|, !s.xIsNext, s.ascending)
  }

  /** jumpTo(step) (src/index.js:112-117). */
  function Jump(s: GameState, step: nat): GameState
  {
    s.(stepNumber := step, xIsNext := step % 2 == 0)
  }

  /** toggleSort() (src/index.js:119-123). */
  function ToggleSort(s: GameState): GameState
  {
    s.(ascending := !s.ascending)
  }

  lemma InitialValid()
    ensures ValidState(Initial())
  {
  }

  /** Cutting a valid history after any snapshot leaves a valid history. */
  lemma PrefixValid(h: seq<Snapshot>, k: nat)
    requires ValidHistory(h) && 1 <= k <= |h|
    ensures ValidHistory(h[..k])
  {
    var p := h[..k];
    forall n | 1 <= n < |p| ensures IsMove(p[n - 1], p[n], n) {
      assert p[n - 1] == h[n - 1] && p[n] == h[n];
    }
  }

  /** handleClick keeps the invariant: an accepted click appends exactly one
      move to the truncated history, with the mark given by the step parity. */
  lemma ClickPreservesValid(s: GameState, i: int)
    requires ValidState(s) && 0 <= i < BoardSize
    ensures ValidState(Click(s, i))
  {
    if !Rejects(s, i) {
      var st := s.stepNumber;
      var h := s.history[..st + 1];
      var r := Click(s, i);
      PrefixValid(s.history, st + 1);
      assert r.history == h + [r.history[st + 1]];
      assert MoveAt(r.history[st], r.history[st + 1], st + 1, i);
      forall n | 1 <= n < |r.history| ensures IsMove(r.history[n - 1], r.history[n], n) {
        if n <= st {
          assert r.history[n - 1] == h[n - 1] && r.history[n] == h[n];
        }
      }
    }
  }

  /** jumpTo to any step the move list offers keeps the invariant. */
  lemma JumpPreservesValid(s: GameState, step: nat)
    requires ValidState(s) && step < |s.history|
    ensures ValidState(Jump(s, step))
    ensures Jump(s, step).history == s.history && Jump(s, step).ascending == s.ascending
  {
  }

  /** toggleSort keeps the invariant and changes nothing but the sort flag. */
  lemma ToggleSortPreservesValid(s: GameState)
    requires ValidState(s)
    ensures ValidState(ToggleSort(s))
    ensures ToggleSort(s).history == s.history && ToggleSort(s).stepNumber == s.stepNumber
    ensures ToggleSort(ToggleSort(s)) == s
  {
  }

  /** Rewinding with jumpTo(step) and then playing discards every snapshot after
      `step`: the new history is the first `step + 1` snapshots plus one. */
  lemma JumpThenClickTruncates(s: GameState, step: nat, i: int)
    requires ValidState(s) && step < |s.history| && 0 <= i < BoardSize
    requires !Rejects(Jump(s, step), i)
    ensures ValidState(Jump(s, step))
    ensures Click(Jump(s, step), i).history[..step + 1] == s.history[..step + 1]
    ensures |Click(Jump(s, step), i).history| == step + 2
  {
    JumpPreservesValid(s, step);
  }

  /** The cells on which two boards differ. */
  function ChangedCells(a: Board, b: Board): set<nat>
  {
    set k: nat | k < |a| && k < |b| && a[k] != b[k]
  }

  /** Every snapshot differs from its predecessor in exactly one cell, and that
      cell was empty before. */
  lemma SnapshotChangesOneEmptyCell(h: seq<Snapshot>, n: nat)
    requires ValidHistory(h) && 1 <= n < |h|
    ensures exists i: nat :: ChangedCells(h[n - 1].squares, h[n].squares) == {i} &&
                             h[n - 1].squares[i] == Empty &&
                             h[n].squares[i] == Filled(MarkFor(n))
  {
    var i :| MoveAt(h[n - 1], h[n], n, i);
    var a, b := h[n - 1].squares, h[n].squares;
    assert b == a[i := Filled(MarkFor(n))];
    assert ChangedCells(a, b) == {i as nat};
  }

  /** Once a board has a winner no snapshot follows it, so only the last
      snapshot of a history can show a winner. */
  lemma WinnerOnlyAtEnd(h: seq<Snapshot>, n: nat)
    requires ValidHistory(h) && n + 1 < |h|
    ensures Winner(h[n].squares) == None
  {
    assert IsMove(h[n], h[n + 1], n + 1);
  }

  /** How many cells of a board hold `c`. */
  function Count(b: Board, c: Cell): nat
  {
    if b == [] then 0 else (if b[0] == c then 1 else 0) + Count(b[1..], c)
  }

  lemma {:induction false} CountTotal(b: Board)
    ensures Count(b, Empty) + Count(b, Filled(X)) + Count(b, Filled(O)) == |b|
  {
    if b != [] {
      CountTotal(b[1..]);
      match b[0]
      case Empty =>
      case Filled(m) => assert m == X || m == O;
    }
  }

  lemma {:induction false} CountEmpty(n: nat)
    ensures Count(seq(n, _ => Empty), Empty) == n
    ensures Count(seq(n, _ => Empty), Filled(X)) == 0
    ensures Count(seq(n, _ => Empty), Filled(O)) == 0
  {
    if n > 0 {
      var b: Board := seq(n, _ => Empty);
      assert b[1..] == seq(n - 1, _ => Empty);
      CountEmpty(n - 1);
    }
  }

  /** Filling an empty cell with `m` adds one `m` and leaves the other mark's
      count alone. */
  lemma {:induction false} CountFill(b: Board, i: nat, m: Mark)
    requires i < |b| && b[i] == Empty
    ensures Count(b[i := Filled(m)], Filled(m)) == Count(b, Filled(m)) + 1
    ensures forall m': Mark :: m' != m ==> Count(b[i := Filled(m)], Filled(m')) == Count(b, Filled(m'))
  {
    if i > 0 {
      assert b[i := Filled(m)][1..] == b[1..][i - 1 := Filled(m)];
      CountFill(b[1..], i - 1, m);
    } else {
      assert b[i := Filled(m)][1..] == b[1..];
    }
  }

  /** Turn alternation: the board at step `n` holds (n + 1) / 2 crosses and
      n / 2 noughts, so X moved first and the players took turns. */
  lemma {:induction false} MarkCounts(h: seq<Snapshot>, n: nat)
    requires ValidHistory(h) && n < |h|
    ensures Count(h[n].squares, Filled(X)) == (n + 1) / 2
    ensures Count(h[n].squares, Filled(O)) == n / 2
  {
    if n == 0 {
      CountEmpty(BoardSize);
    } else {
      MarkCounts(h, n - 1);
      var i :| MoveAt(h[n - 1], h[n], n, i);
      CountFill(h[n - 1].squares, i, MarkFor(n));
    }
  }

  /** The nine cells bound the game: a valid history has at most ten snapshots. */
  lemma HistoryAtMostTen(h: seq<Snapshot>)
    requires ValidHistory(h)
    ensures |h| <= BoardSize + 1
  {
    var n := |h| - 1;
    MarkCounts(h, n);
    CountTotal(h[n].squares);
  }
}
