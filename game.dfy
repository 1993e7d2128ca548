/** The `Game` component of src/index.js:74-172 as an object whose handlers
    update its state fields in place. Each handler is proved to perform the
    matching transition in History, so every lemma proved there holds
    of the object. */
module GameComponent {
  import opened Options
  import opened Rules
  import opened History
  import opened Render

  class Game {
    var history: seq<Snapshot>
    var stepNumber: nat
    var xIsNext: bool
    var ascending: bool

    /** The fields as one value. */
    function State(): GameState
      reads this
    {
      GameState(history, stepNumber, xIsNext, ascending)
    }

    ghost predicate Valid()
      reads this
    {
      ValidState(State())
    }

    /** The constructor: one empty board, step 0, X to move; `ascending` is
        left unset, which reads as false. */
    constructor ()
      ensures Valid() && State() == Initial()
      ensures history == [InitialSnapshot()] && stepNumber == 0 && xIsNext && !ascending
    {
      history := [Snapshot(EmptyBoard(), None, None)];
      stepNumber := 0;
      xIsNext := true;
      ascending := false;
      InitialValid();
    }

    /** handleClick(i): copy the current board, decline when it has a winner
        or cell `i` is taken, else write the mark and replace the future of
        the history by the new snapshot. */
    method HandleClick(i: int)
      requires Valid() && 0 <= i < BoardSize
      modifies this
      ensures Valid() && State() == Click(old(State()), i)
      ensures Rejects(old(State()), i) ==> unchanged(this)
      ensures !Rejects(old(State()), i) ==>
                history[..|history| - 1] == old(history[..stepNumber + 1]) &&
                stepNumber == |history| - 1 && xIsNext == !old(xIsNext) && ascending == old(ascending)
    {
      var h := history[..stepNumber + 1];
      var current := h[|h| - 1];
      var squares := new Cell[|current.squares|](k requires 0 <= k < |current.squares| => current.squares[k]);
      assert squares[..] == current.squares;
      var winner := CalculateWinner(squares[..]);
      if winner.Some? || squares[i] != Empty {
        return;
      }
      squares[i] := if xIsNext then Filled(X) else Filled(O);
      var column := CalculateColumn(i);
      var row := CalculateRow(i);
      history := h + [Snapshot(squares[..], column, row)];
      stepNumber := |h|;
      xIsNext := !xIsNext;
      assert squares[..] == current.squares[i := if old(xIsNext) then Filled(X) else Filled(O)];
      ClickPreservesValid(old(State()), i);
    }

    /** jumpTo(step): move the pointer and re-derive the turn from its parity. */
    method JumpTo(step: nat)
      requires Valid() && step < |history|
      modifies this
      ensures Valid() && State() == Jump(old(State()), step)
      ensures history == old(history) && ascending == old(ascending)
      ensures stepNumber == step && xIsNext == (step % 2 == 0)
    {
      stepNumber := step;
      xIsNext := step % 2 == 0;
      JumpPreservesValid(old(State()), step);
    }

    /** toggleSort(): flip the display order and nothing else. */
    method ToggleSort()
      requires Valid()
      modifies this
      ensures Valid() && State() == History.ToggleSort(old(State()))
      ensures ascending == !old(ascending)
      ensures history == old(history) && stepNumber == old(stepNumber) && xIsNext == old(xIsNext)
    {
      ascending := !ascending;
    }

    /** The status line of render(): the winner of the shown board, or the
        player whose turn the shown step's parity gives. */
    function StatusText(): (s: string)
      reads this
      requires Valid()
      ensures "Winner: " <= s <==> Winner(history[stepNumber].squares).Some?
      ensures Winner(history[stepNumber].squares).Some? ==>
                s == "Winner: " + MarkText(Winner(history[stepNumber].squares).value.letter)
      ensures Winner(history[stepNumber].squares).None? ==>
                s == "Next Player: " + MarkText(if stepNumber % 2 == 0 then X else O)
    {
      WinnerStatusFreezesBoard(State(), 0);
      Status(history[stepNumber].squares, xIsNext)
    }

    /** The move list of render(), in the order shown: one entry per snapshot,
        step order when `ascending`, newest first otherwise; the text of every
        entry names the step it jumps to. */
    function MoveList(): (r: seq<MoveEntry>)
      reads this
      requires Valid()
      ensures |r| == |history|
      ensures ascending ==> r[0] == MoveEntry(0, StartLabel)
      ensures !ascending ==> r[0].move == |history| - 1 && r[|r| - 1] == MoveEntry(0, StartLabel)
      ensures forall k :: 0 <= k < |r| ==> r[k].move < |history| && ParseMoveNumber(r[k].text) == r[k].move
    {
      HistoryLabels(history, 0);
      var r := OrderedMoves(history, ascending);
      forall k | 0 <= k < |r| ensures ParseMoveNumber(r[k].text) == r[k].move {
        MoveLabelRoundTrip(r[k].move, history[r[k].move]);
      }
      r
    }
  }
}
