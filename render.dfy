/** What `Game.render` derives from the state (src/index.js:125-171): the
    status line, the labels of the move list and the order it is shown in.
    The JSX markup itself is not modelled. */
module Render {
  import opened Options
  import opened Rules
  import opened History

  // ---- Decimal numerals: JavaScript's `'...' + n` for a non-negative integer.

  predicate IsDigit(c: char)
  {
    '0' <= c <= '9'
  }

  function DigitChar(d: nat): char
    requires d < 10
  {
    ('0' as int + d) as char
  }

  /** The decimal numeral of `n`, without leading zeros. */
  function NatToString(n: nat): (s: string)
    ensures |s| >= 1 && forall k :: 0 <= k < |s| ==> IsDigit(s[k])
    decreases n
  {
    if n < 10 then [DigitChar(n)] else NatToString(n / 10) + [DigitChar(n % 10)]
  }

  function DigitValue(c: char): nat
    requires IsDigit(c)
  {
    c as int - '0' as int
  }

  /** The value of a string of digits. */
  function ParseDigits(s: string): nat
    requires forall k :: 0 <= k < |s| ==> IsDigit(s[k])
  {
    if s == [] then 0 else ParseDigits(s[..|s| - 1]) * 10 + DigitValue(s[|s| - 1])
  }

  /** Reading a numeral back gives the number it was written from. */
  lemma {:induction false} ParseNatToString(n: nat)
    ensures ParseDigits(NatToString(n)) == n
    decreases n
  {
    if n >= 10 {
      var s := NatToString(n);
      assert s[..|s| - 1] == NatToString(n / 10);
      ParseNatToString(n / 10);
    }
  }

  /** The longest run of digits at the front of `s`. */
  function DigitPrefix(s: string): (d: string)
    ensures forall k :: 0 <= k < |d| ==> IsDigit(d[k])
  {
    if s == [] || !IsDigit(s[0]) then [] else [s[0]] + DigitPrefix(s[1..])
  }

  lemma {:induction false} DigitPrefixOf(d: string, rest: string)
    requires forall k :: 0 <= k < |d| ==> IsDigit(d[k])
    requires rest == [] || !IsDigit(rest[0])
    ensures DigitPrefix(d + rest) == d
  {
    if d != [] {
      assert (d + rest)[1..] == d[1..] + rest;
      DigitPrefixOf(d[1..], rest);
    }
  }

  // ---- Move-list labels (src/index.js:137-139).

  const StartLabel: string := "Go to game start"
  const MovePrefix: string := "Go to move #"

  /** `(step.column && step.row)`: both labels present and truthy; a row
      number 0 would be falsy in JavaScript. */
  predicate Annotated(snap: Snapshot)
  {
    snap.column.Some? && snap.row.Some? && snap.row.value != 0
  }

  /** `' (' + step.column + step.row + ')'`, or nothing. */
  function AnnotationText(snap: Snapshot): string
  {
    if Annotated(snap) then " (" + [snap.column.value] + NatToString(snap.row.value) + ")" else ""
  }

  /** The text of the move-list entry for snapshot `snap` at position `move`. */
  function MoveLabel(move: nat, snap: Snapshot): string
  {
    (if move != 0 then MovePrefix + NatToString(move) else StartLabel) + AnnotationText(snap)
  }

  /** The step number a text names: the numeral after "Go to move #", or 0. */
  function ParseMoveNumber(text: string): nat
  {
    if |MovePrefix| <= |text| && text[..|MovePrefix|] == MovePrefix
    then ParseDigits(DigitPrefix(text[|MovePrefix|..]))
    else 0
  }

  /** Every text names its own step: reading the number back out of the
      text of entry `move` gives `move`, whatever the annotation. */
  lemma MoveLabelRoundTrip(move: nat, snap: Snapshot)
    ensures ParseMoveNumber(MoveLabel(move, snap)) == move
  {
    var text := MoveLabel(move, snap);
    var anno := AnnotationText(snap);
    if move != 0 {
      var digits := NatToString(move);
      assert text == MovePrefix + (digits + anno);
      assert text[..|MovePrefix|] == MovePrefix;
      assert text[|MovePrefix|..] == digits + anno;
      DigitPrefixOf(digits, anno);
      ParseNatToString(move);
    } else {
      assert text[6] == 'g' && MovePrefix[6] == 'm';
    }
  }

  /** Hence two entries of the move list never carry the same text. */
  lemma MoveLabelsDistinct(m: nat, a: Snapshot, n: nat, b: Snapshot)
    requires m != n
    ensures MoveLabel(m, a) != MoveLabel(n, b)
  {
    MoveLabelRoundTrip(m, a);
    MoveLabelRoundTrip(n, b);
  }

  /** In a history the game built, entry 0 reads exactly "Go to game start"
      and every later entry names its step and the column and row of the
      cell its move filled. */
  lemma HistoryLabels(h: seq<Snapshot>, n: nat)
    requires ValidHistory(h) && n < |h|
    ensures n == 0 ==> MoveLabel(n, h[n]) == StartLabel
    ensures n > 0 ==> exists i :: 0 <= i < BoardSize && h[n - 1].squares[i] == Empty &&
                        h[n].squares[i] == Filled(MarkFor(n)) &&
                        MoveLabel(n, h[n]) == MovePrefix + NatToString(n) + " (" +
                          [ColumnOf(i).value] + NatToString(RowOf(i).value) + ")"
  {
    if n > 0 {
      var i :| MoveAt(h[n - 1], h[n], n, i);
      assert Annotated(h[n]);
    }
  }

  // ---- Order of the list (src/index.js:164).

  /** `Array.prototype.reverse` on a sequence. */
  function Reverse<T>(s: seq<T>): (r: seq<T>)
    ensures |r| == |s| && forall k :: 0 <= k < |s| ==> r[k] == s[|s| - 1 - k]
  {
    if s == [] then [] else Reverse(s[1..]) + [s[0]]
  }

  /** One `<li>` of the list: the step it jumps to and its text. */
  datatype MoveEntry = MoveEntry(move: nat, text: string)

  /** `history.map((step, move) => ...)`. */
  function MoveEntries(h: seq<Snapshot>): seq<MoveEntry>
  {
    seq(|h|, n requires 0 <= n < |h| => MoveEntry(n, MoveLabel(n, h[n])))
  }

  /** The list as shown: in step order when `ascending` holds, otherwise
      newest first. Each position k shows the entry of the step it maps to. */
  function OrderedMoves(h: seq<Snapshot>, ascending: bool): (r: seq<MoveEntry>)
    ensures |r| == |h|
    ensures forall k :: 0 <= k < |r| ==>
              var n := if ascending then k else |h| - 1 - k;
              r[k] == MoveEntry(n, MoveLabel(n, h[n]))
  {
    var moves := MoveEntries(h);
    if ascending then moves else Reverse(moves)
  }

  /** Toggling the sort order shows the same entries the other way round. */
  lemma ToggleReversesList(s: GameState)
    ensures OrderedMoves(ToggleSort(s).history, ToggleSort(s).ascending) ==
            Reverse(OrderedMoves(s.history, s.ascending))
  {
    var a := OrderedMoves(ToggleSort(s).history, ToggleSort(s).ascending);
    var b := Reverse(OrderedMoves(s.history, s.ascending));
    assert |a| == |b|;
    forall k | 0 <= k < |a| ensures a[k] == b[k] {
    }
  }

  // ---- Status line (src/index.js:150-151).

  function MarkText(m: Mark): string
  {
    match m
    case X => "X"
    case O => "O"
  }

  /** `'Winner: ' + letter` when the board has a winner, else the player to move. */
  function Status(squares: Board, xIsNext: bool): string
  {
    var winner := Winner(squares);
    if winner.Some? then "Winner: " + MarkText(winner.value.letter)
    else "Next Player: " + MarkText(if xIsNext then X else O)
  }

  /** The status shown for a state the game reached: the winner's letter when
      the current board has a line, and otherwise the player given by the
      parity of the step, which is the mark the next accepted click places. */
  lemma StatusOfState(s: GameState, i: int)
    requires ValidState(s) && 0 <= i < BoardSize
    ensures Winner(Current(s).squares).Some? ==>
              Status(Current(s).squares, s.xIsNext) == "Winner: " + MarkText(Winner(Current(s).squares).value.letter)
    ensures Winner(Current(s).squares).None? ==>
              Status(Current(s).squares, s.xIsNext) == "Next Player: " + MarkText(MarkFor(s.stepNumber + 1))
    ensures !Rejects(s, i) ==>
              Status(Current(s).squares, s.xIsNext) == "Next Player: " + MarkText(Current(Click(s, i)).squares[i].mark)
  {
  }

  /** The status reads "Winner: ..." exactly when the current board has a
      winner, and while it does every click on the board is declined and the
      state stays as it is. */
  lemma WinnerStatusFreezesBoard(s: GameState, i: int)
    requires ValidState(s) && 0 <= i < BoardSize
    ensures "Winner: " <= Status(Current(s).squares, s.xIsNext) <==> Winner(Current(s).squares).Some?
    ensures "Winner: " <= Status(Current(s).squares, s.xIsNext) ==> Click(s, i) == s
  {
    var st := Status(Current(s).squares, s.xIsNext);
    if Winner(Current(s).squares).None? {
      assert st[0] == 'N';
    }
  }

  // ---- Whole games.

  /** The state after the clicks `moves`, one after the other. */
  function Play(s: GameState, moves: seq<int>): (r: GameState)
    requires s.stepNumber < |s.history| && |Current(s).squares| == BoardSize
    requires forall k :: 0 <= k < |moves| ==> 0 <= moves[k] < BoardSize
    ensures r.stepNumber < |r.history| && |Current(r).squares| == BoardSize
    decreases |moves|
  {
    if moves == [] then s else Play(Click(s, moves[0]), moves[1..])
  }

  /** Any sequence of clicks from a state the game reached keeps the invariant. */
  lemma {:induction false} PlayPreservesValid(s: GameState, moves: seq<int>)
    requires ValidState(s) && forall k :: 0 <= k < |moves| ==> 0 <= moves[k] < BoardSize
    ensures ValidState(Play(s, moves))
    decreases |moves|
  {
    if moves != [] {
      ClickPreservesValid(s, moves[0]);
      PlayPreservesValid(Click(s, moves[0]), moves[1..]);
    }
  }

  /** The boards of a game in which X plays 0, 1 and 2 and O plays 4 and 3:
      board `n` is the one after `n` moves. */
  function TopRowBoard(n: nat): Board
    requires n <= 5
  {
    var E, XX, OO := Empty, Filled(X), Filled(O);
    if n == 0 then [E, E, E, E, E, E, E, E, E]
    else if n == 1 then [XX, E, E, E, E, E, E, E, E]
    else if n == 2 then [XX, E, E, E, OO, E, E, E, E]
    else if n == 3 then [XX, XX, E, E, OO, E, E, E, E]
    else if n == 4 then [XX, XX, E, OO, OO, E, E, E, E]
    else [XX, XX, XX, OO, OO, E, E, E, E]
  }

  /** The expected state after `n` moves of that game, written out. */
  function TopRowState(n: nat): GameState
    requires n <= 5
  {
    var h := [Snapshot(TopRowBoard(0), None, None),
              Snapshot(TopRowBoard(1), Some('A'), Some(3)),
              Snapshot(TopRowBoard(2), Some('B'), Some(2)),
              Snapshot(TopRowBoard(3), Some('B'), Some(3)),
              Snapshot(TopRowBoard(4), Some('A'), Some(2)),
              Snapshot(TopRowBoard(5), Some('C'), Some(3))];
    GameState(h[..n + 1], n, n % 2 == 0, false)
  }

  lemma TopRowOpening()
    ensures Initial() == TopRowState(0)
    ensures Click(TopRowState(0), 0) == TopRowState(1)
    ensures Click(TopRowState(1), 4) == TopRowState(2)
  {
    assert EmptyBoard() == TopRowBoard(0);
    assert TopRowBoard(0)[0 := Filled(X)] == TopRowBoard(1);
    assert TopRowBoard(1)[4 := Filled(O)] == TopRowBoard(2);
    var h := TopRowState(5).history;
    assert TopRowState(0).history + [h[1]] == TopRowState(1).history;
    assert TopRowState(1).history + [h[2]] == TopRowState(2).history;
  }

  lemma TopRowMiddle()
    ensures Click(TopRowState(2), 1) == TopRowState(3)
    ensures Click(TopRowState(3), 3) == TopRowState(4)
  {
    assert TopRowBoard(2)[1 := Filled(X)] == TopRowBoard(3);
    assert TopRowBoard(3)[3 := Filled(O)] == TopRowBoard(4);
    var h := TopRowState(5).history;
    assert TopRowState(2).history + [h[3]] == TopRowState(3).history;
    assert TopRowState(3).history + [h[4]] == TopRowState(4).history;
  }

  lemma TopRowEnd()
    ensures Click(TopRowState(4), 2) == TopRowState(5)
    ensures Winner(TopRowBoard(5)) == Some(WinResult(X, [0, 1, 2]))
  {
    assert TopRowBoard(4)[2 := Filled(X)] == TopRowBoard(5);
    var h := TopRowState(5).history;
    assert TopRowState(4).history + [h[5]] == h;
  }

  lemma TopRowPlayLast()
    ensures Play(TopRowState(2), [1, 3, 2]) == TopRowState(5)
  {
    TopRowMiddle();
    TopRowEnd();
    var s5 := TopRowState(5);
    assert Play(TopRowState(4), [2]) == s5;
    assert Play(TopRowState(3), [3, 2]) == s5 by { assert [3, 2][1..] == [2]; }
    assert [1, 3, 2][1..] == [3, 2];
  }

  lemma TopRowPlayFromFirst()
    ensures Play(TopRowState(1), [4, 1, 3, 2]) == TopRowState(5)
  {
    TopRowOpening();
    TopRowPlayLast();
    assert [4, 1, 3, 2][1..] == [1, 3, 2];
  }

  /** Playing the five clicks reaches the state written out above. */
  lemma TopRowPlay()
    ensures Play(Initial(), [0, 4, 1, 3, 2]) == TopRowState(5)
  {
    TopRowOpening();
    TopRowPlayFromFirst();
    assert [0, 4, 1, 3, 2][1..] == [4, 1, 3, 2];
  }

  /** X plays 0, 1 and 2 while O plays 4 and 3: after the fifth move the top
      row wins for X, the status reads "Winner: X" and further clicks are
      declined. */
  lemma TopRowGame()
    ensures var s := Play(Initial(), [0, 4, 1, 3, 2]);
            s.stepNumber == 5 &&
            Winner(Current(s).squares) == Some(WinResult(X, [0, 1, 2])) &&
            Status(Current(s).squares, s.xIsNext) == "Winner: X" &&
            Click(s, 5) == s
  {
    TopRowPlay();
    TopRowEnd();
    assert Current(TopRowState(5)).squares == TopRowBoard(5);
  }

  /** With the list descending (the initial order), a game of three moves
      shows its entries for steps 3, 2, 1 and 0, in that order. */
  lemma DescendingListOrder(h: seq<Snapshot>)
    requires |h| == 4
    ensures var r := OrderedMoves(h, false);
            [r[0].move, r[1].move, r[2].move, r[3].move] == [3, 2, 1, 0]
  {
  }
}
