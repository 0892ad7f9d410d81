/** The bot's positional score (botframework/connect4Listener.py). */
module ConnectScore {
  import opened Seats
  import opened ConnectBoard

  /** The four directions in which the source looks for lines. */
  const DIRS: seq<(int, int)> := [(0, 1), (1, 0), (1, 1), (1, -1)]

  function WinScore(win: seq<Cell>, mark: Mark): (s: int)
    ensures -80 <= s <= 50
  {
    var m, o, e := Tally(win, mark), Tally(win, Other(mark)), Tally(win, Empty);
    if m > 0 && o > 0 then 0
    else if m == 3 && e == 1 then 50
    else if m == 2 && e == 2 then 10
    else if o == 3 && e == 1 then -80
    else if o == 2 && e == 2 then -8
    else 0
  }

  /** A window of four starts at (r, c) in direction `k` and stays on the board. */
  predicate Fits(r: int, c: int, k: nat)
    requires k < 4
  {
    OnBoard(r, c) && OnBoard(r + 3 * DIRS[k].0, c + 3 * DIRS[k].1)
  }

  function Window(b: Board, r: int, c: int, k: nat): seq<Cell>
    requires k < 4 && Fits(r, c, k)
  {
    var (dr, dc) := DIRS[k];
    [At(b, r, c), At(b, r + dr, c + dc), At(b, r + 2 * dr, c + 2 * dc), At(b, r + 3 * dr, c + 3 * dc)]
  }

  // Sums over the first `k` directions at a cell, the first `c` cells of a row, the first `r` rows.

  function CellScore(b: Board, mark: Mark, r: int, c: int, k: nat): int
    requires k <= 4
  {
    if k == 0 then 0
    else CellScore(b, mark, r, c, k - 1) + if Fits(r, c, k - 1) then WinScore(Window(b, r, c, k - 1), mark) else 0
  }

  function RowScore(b: Board, mark: Mark, r: int, c: nat): int {
    if c == 0 then 0 else RowScore(b, mark, r, c - 1) + CellScore(b, mark, r, c - 1, 4)
  }

  function RowsScore(b: Board, mark: Mark, r: nat): int {
    if r == 0 then 0 else RowsScore(b, mark, r - 1) + RowScore(b, mark, r - 1, COLS)
  }

  /** Discs of `m` in the middle column, first `r` rows. */
  function Centre(b: Board, m: Cell, r: nat): (n: nat)
    requires r <= ROWS
    ensures n <= r
  {
    if r == 0 then 0 else Centre(b, m, r - 1) + if At(b, r - 1, 3) == m then 1 else 0
  }

  function Evaluate(b: Board, mark: Mark): int {
    6 * (Centre(b, mark, ROWS) - Centre(b, Other(mark), ROWS)) + RowsScore(b, mark, ROWS)
  }

  // ---- the score is small ----

  function CellWindows(r: int, c: int, k: nat): nat
    requires k <= 4
  {
    if k == 0 then 0 else CellWindows(r, c, k - 1) + if Fits(r, c, k - 1) then 1 else 0
  }

  function RowWindows(r: int, c: nat): nat {
    if c == 0 then 0 else RowWindows(r, c - 1) + CellWindows(r, c - 1, 4)
  }

  function Windows(r: nat): nat {
    if r == 0 then 0 else Windows(r - 1) + RowWindows(r - 1, COLS)
  }

  /** `s` is a sum of `n` window scores. */
  predicate Within(s: int, n: nat) { -80 * n <= s <= 50 * n }

  lemma {:induction false} CellWithin(b: Board, mark: Mark, r: int, c: int, k: nat)
    requires k <= 4
    ensures Within(CellScore(b, mark, r, c, k), CellWindows(r, c, k))
  {
    if k > 0 { CellWithin(b, mark, r, c, k - 1); }
    hide WinScore;
  }

  lemma {:induction false} RowWithin(b: Board, mark: Mark, r: int, c: nat)
    ensures Within(RowScore(b, mark, r, c), RowWindows(r, c))
  {
    if c > 0 {
      RowWithin(b, mark, r, c - 1);
      CellWithin(b, mark, r, c - 1, 4);
      hide CellScore, CellWindows;
    }
  }

  lemma {:induction false} RowsWithin(b: Board, mark: Mark, r: nat)
    ensures Within(RowsScore(b, mark, r), Windows(r))
  {
    if r > 0 {
      RowsWithin(b, mark, r - 1);
      RowWithin(b, mark, r - 1, COLS);
      hide RowScore, RowWindows;
    }
  }

  lemma WindowsAtCell(r: int, c: int)
    requires OnBoard(r, c)
    ensures CellWindows(r, c, 4)
      == if r <= 2 then (if c < 3 then 3 else if c == 3 then 4 else 2) else if c <= 3 then 1 else 0
  {
    assert CellWindows(r, c, 1) == if Fits(r, c, 0) then 1 else 0;
    assert CellWindows(r, c, 2) == (if Fits(r, c, 0) then 1 else 0) + if Fits(r, c, 1) then 1 else 0;
    assert CellWindows(r, c, 4) == CellWindows(r, c, 2) + (if Fits(r, c, 2) then 1 else 0) + if Fits(r, c, 3) then 1 else 0;
  }

  lemma {:induction false} WindowsInRow(r: int, c: nat)
    requires 0 <= r < ROWS && c <= COLS
    ensures RowWindows(r, c)
      == if r <= 2 then (if c <= 3 then 3 * c else 13 + 2 * (c - 4)) else if c <= 4 then c else 4
  {
    if c > 0 {
      WindowsInRow(r, c - 1);
      WindowsAtCell(r, c - 1);
      hide CellWindows;
    }
  }

  /** The board holds sixty-nine windows of four. */
  lemma {:induction false} WindowsInRows(r: nat)
    requires r <= ROWS
    ensures Windows(r) == if r <= 3 then 19 * r else 57 + 4 * (r - 3)
    ensures r == ROWS ==> Windows(r) == 69
  {
    hide RowWindows;
    if r > 0 {
      WindowsInRows(r - 1);
      WindowsInRow(r - 1, COLS);
    }
  }

  /** No position scores anywhere near a win: 69 windows between -80 and 50, and six discs in the centre. */
  lemma EvaluateIsSmall(b: Board, mark: Mark)
    ensures -5556 <= Evaluate(b, mark) <= 3486
  {
    RowsWithin(b, mark, ROWS);
    WindowsInRows(ROWS);
    hide RowsScore, Windows, Centre;
  }

  /** The source's nested loops compute `Evaluate`. */
  method Score(cs: Board, mark: Mark) returns (s: int)
    ensures s == Evaluate(cs, mark)
  {
    s := 6 * (Centre(cs, mark, ROWS) - Centre(cs, Other(mark), ROWS));
    ghost var base := s;
    hide WinScore, Centre;
    for r := 0 to ROWS
      invariant s == base + RowsScore(cs, mark, r)
    {
      for c := 0 to COLS
        invariant s == base + RowsScore(cs, mark, r) + RowScore(cs, mark, r, c)
      {
        for k := 0 to 4
          invariant s == base + RowsScore(cs, mark, r) + RowScore(cs, mark, r, c) + CellScore(cs, mark, r, c, k)
        {
          if Fits(r, c, k) { s := s + WinScore(Window(cs, r, c, k), mark); }
        }
      }
    }
  }
}
