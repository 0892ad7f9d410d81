/** The Connect Four board and its rules (botframework/connect4Listener.py). */
module ConnectBoard {
  import opened Seats

  const ROWS := 6
  const COLS := 7
  const CELLS := 42

  /** A cell is empty or holds the mark "1" or "2". */
  datatype Cell = Empty | One | Two

  type Mark = m: Cell | m != Empty witness One

  /** Row-major from the top left corner. */
  type Board = b: seq<Cell> | |b| == CELLS witness seq(CELLS, _ => Empty)

  function EmptyBoard(): Board { seq(CELLS, _ => Empty) }

  function Other(m: Mark): Mark { if m == One then Two else One }

  predicate OnBoard(r: int, c: int) { 0 <= r < ROWS && 0 <= c < COLS }

  function At(b: Board, r: int, c: int): Cell
    requires OnBoard(r, c)
  {
    b[r * COLS + c]
  }

  // ---- dropping a disc ----

  /** The lowest empty row of a column, scanning upwards from row `r`. */
  function LowestEmpty(b: Board, col: nat, r: int): (s: Option<nat>)
    requires col < COLS && -1 <= r < ROWS
    ensures s.Some? ==> s.value <= r && At(b, s.value, col) == Empty
    ensures forall q :: (if s.Some? then s.value < q <= r else 0 <= q <= r) ==> At(b, q, col) != Empty
    decreases r + 1
  {
    if r < 0 then None
    else if At(b, r, col) == Empty then Some(r)
    else LowestEmpty(b, col, r - 1)
  }

  function DropRow(b: Board, col: nat): (s: Option<nat>)
    requires col < COLS
    ensures s.Some? ==> s.value < ROWS && At(b, s.value, col) == Empty
    ensures forall q :: (if s.Some? then s.value < q < ROWS else 0 <= q < ROWS) ==> At(b, q, col) != Empty
  {
    LowestEmpty(b, col, ROWS - 1)
  }

  /** Column `col` takes another disc. */
  predicate Open(b: Board, col: nat) {
    col < COLS && DropRow(b, col).Some?
  }

  function Drop(b: Board, col: nat, m: Mark): Board
    requires Open(b, col)
  {
    b[DropRow(b, col).value * COLS + col := m]
  }

  predicate Full(b: Board) { Empty !in b }

  // ---- four in line ----

  /** Four cells from (r, c) in steps of (dr, dc) all lie on the board and hold `p`. */
  predicate Line(b: Board, r: int, c: int, dr: int, dc: int, p: Cell) {
    && Holds(b, r, c, p) && Holds(b, r + dr, c + dc, p)
    && Holds(b, r + 2 * dr, c + 2 * dc, p) && Holds(b, r + 3 * dr, c + 3 * dc, p)
  }

  predicate Holds(b: Board, r: int, c: int, p: Cell) {
    OnBoard(r, c) && At(b, r, c) == p
  }

  /** A line starts at (r, c) in one of the four directions the source looks in. */
  predicate LineFrom(b: Board, r: int, c: int, p: Cell) {
    Line(b, r, c, 0, 1, p) || Line(b, r, c, 1, 0, p) || Line(b, r, c, 1, 1, p) || Line(b, r, c, 1, -1, p)
  }

  /** Cell `i` holds a disc that starts a line. */
  predicate StartsLine(b: Board, i: nat)
    requires i < CELLS
  {
    b[i] != Empty && LineFrom(b, i / COLS, i % COLS, b[i])
  }

  /** The first cell, in reading order from cell `k`, that starts a line decides the winner. */
  function WinnerFrom(b: Board, k: nat): (w: Option<Mark>)
    requires k <= CELLS
    ensures if w.Some? then exists i :: k <= i < CELLS && StartsLine(b, i) && b[i] == w.value
            else forall i :: k <= i < CELLS ==> !StartsLine(b, i)
    decreases CELLS - k
  {
    if k == CELLS then None
    else if StartsLine(b, k) then Some(b[k])
    else WinnerFrom(b, k + 1)
  }

  function Winner(b: Board): Option<Mark> {
    WinnerFrom(b, 0)
  }

  /** One of the eight directions of a line. */
  predicate Direction(dr: int, dc: int) {
    -1 <= dr <= 1 && -1 <= dc <= 1 && !(dr == 0 && dc == 0)
  }

  /** Four of `p` in line somewhere on the board, in any of the eight directions. */
  ghost predicate Four(b: Board, p: Mark) {
    exists r, c, dr, dc :: Direction(dr, dc) && Line(b, r, c, dr, dc, p)
  }

  /** Read from its other end, a line runs in one of the source's four directions. */
  lemma LineStarts(b: Board, r: int, c: int, dr: int, dc: int, p: Mark)
    requires Direction(dr, dc) && Line(b, r, c, dr, dc, p)
    ensures LineFrom(b, r, c, p) || LineFrom(b, r + 3 * dr, c + 3 * dc, p)
    ensures Holds(b, r, c, p) && Holds(b, r + 3 * dr, c + 3 * dc, p)
  {
    assert Line(b, r + 3 * dr, c + 3 * dc, -dr, -dc, p);
    hide Line, Holds;
  }

  lemma LineIsFour(b: Board, r: int, c: int, p: Mark)
    requires LineFrom(b, r, c, p)
    ensures Four(b, p)
  {
    assert Direction(0, 1) && Direction(1, 0) && Direction(1, 1) && Direction(1, -1);
  }

  /** The winner found has four in line, and one is found exactly when somebody has. */
  lemma WinnerIsFour(b: Board)
    ensures Winner(b).Some? ==> Four(b, Winner(b).value)
    ensures Winner(b).None? ==> !Four(b, One) && !Four(b, Two)
  {
    if Winner(b).Some? {
      var i :| 0 <= i < CELLS && StartsLine(b, i) && b[i] == Winner(b).value;
      LineIsFour(b, i / COLS, i % COLS, Winner(b).value);
    } else {
      if Four(b, One) { FourIsSeen(b, One); }
      if Four(b, Two) { FourIsSeen(b, Two); }
    }
  }

  lemma FourIsSeen(b: Board, p: Mark)
    requires Four(b, p)
    ensures Winner(b).Some?
  {
    hide Line, LineFrom, WinnerFrom;
    var r, c, dr, dc :| Direction(dr, dc) && Line(b, r, c, dr, dc, p);
    LineStarts(b, r, c, dr, dc, p);
    if LineFrom(b, r, c, p) { StartIsSeen(b, r, c, p); } else { StartIsSeen(b, r + 3 * dr, c + 3 * dc, p); }
  }

  lemma StartIsSeen(b: Board, r: int, c: int, p: Mark)
    requires Holds(b, r, c, p) && LineFrom(b, r, c, p)
    ensures Winner(b).Some?
  {
    CellOf(r, c);
    hide LineFrom;
    assert StartsLine(b, r * COLS + c);
  }

  lemma CellOf(r: int, c: int)
    requires OnBoard(r, c)
    ensures (r * COLS + c) / COLS == r && (r * COLS + c) % COLS == c && 0 <= r * COLS + c < CELLS
  {
  }

  // ---- what a drop changes ----

  /** After a drop every line was there before or runs through the new disc. */
  lemma DropMakesOwnLines(b: Board, col: nat, m: Mark, p: Mark)
    requires Open(b, col) && Four(Drop(b, col, m), p) && p != m
    ensures Four(b, p)
  {
    var b' := Drop(b, col, m);
    var r, c, dr, dc :| Direction(dr, dc) && Line(b', r, c, dr, dc, p);
    forall x, y | Holds(b', x, y, p) ensures Holds(b, x, y, p) { }
    assert Line(b, r, c, dr, dc, p);
  }

  /** On a board nobody has won, only the player who drops can win, and alone. */
  lemma OnlyTheMoverWins(b: Board, col: nat, m: Mark)
    requires Open(b, col) && Winner(b).None?
    ensures var b' := Drop(b, col, m); !Four(b', Other(m)) && (Winner(b') == None || Winner(b') == Some(m))
  {
    var b' := Drop(b, col, m);
    WinnerIsFour(b);
    WinnerIsFour(b');
    hide Four, Winner, Drop;
    if Four(b', Other(m)) { DropMakesOwnLines(b, col, m, Other(m)); }
  }

  // ---- discs ----

  function Tally(s: seq<Cell>, m: Cell): nat {
    if s == [] then 0 else (if s[0] == m then 1 else 0) + Tally(s[1..], m)
  }

  lemma {:induction false} TallyUpdate(s: seq<Cell>, i: nat, v: Cell, m: Cell)
    requires i < |s|
    ensures Tally(s[i := v], m) == Tally(s, m) - (if s[i] == m then 1 else 0) + (if v == m then 1 else 0)
  {
    if i == 0 {
      assert s[i := v][1..] == s[1..];
    } else {
      TallyUpdate(s[1..], i - 1, v, m);
      assert s[i := v][1..] == s[1..][i - 1 := v];
    }
  }

  lemma {:induction false} TallySum(s: seq<Cell>)
    ensures Tally(s, Empty) + Tally(s, One) + Tally(s, Two) == |s|
  {
    if s != [] { TallySum(s[1..]); }
  }

  /** Discs on the board. */
  function Discs(b: Board): (n: nat)
    ensures n == Tally(b, One) + Tally(b, Two) && n <= CELLS
  {
    TallySum(b);
    CELLS - Tally(b, Empty)
  }

  function SideToMove(b: Board): Mark {
    if Discs(b) % 2 == 0 then One else Two
  }

  lemma DropAddsOne(b: Board, col: nat, m: Mark)
    requires Open(b, col)
    ensures var b' := Drop(b, col, m);
      Discs(b') == Discs(b) + 1 && Tally(b', m) == Tally(b, m) + 1 && Tally(b', Other(m)) == Tally(b, Other(m))
  {
    var i := DropRow(b, col).value * COLS + col;
    TallyUpdate(b, i, m, m);
    TallyUpdate(b, i, m, Other(m));
    TallySum(b);
    TallySum(Drop(b, col, m));
    hide DropRow;
  }

  lemma ClosedMeansFull(b: Board)
    requires forall c :: 0 <= c < COLS ==> !Open(b, c)
    ensures Full(b)
  {
    forall i | 0 <= i < CELLS ensures b[i] != Empty {
      assert !Open(b, i % COLS);
      assert At(b, i / COLS, i % COLS) != Empty;
    }
  }
}
