/** The bot's positional score as a count of the windows of each kind (botframework/connect4Listener.py). */
module ConnectWindows {
  import opened Seats
  import opened ConnectBoard
  import opened ConnectScore

  /** Four cells in a row: from (r, c) in steps of (dr, dc). */
  datatype Quad = Quad(r: int, c: int, dr: int, dc: int)

  /** It runs to the right, down, or down one of the diagonals, and stays on the board. */
  predicate Placed(q: Quad) {
    ((q.dr == 0 && q.dc == 1) || (q.dr == 1 && -1 <= q.dc <= 1)) && OnBoard(q.r, q.c) && OnBoard(q.r + 3 * q.dr, q.c + 3 * q.dc)
  }

  function CellAt(b: Board, q: Quad, i: nat): Cell
    requires Placed(q) && i < 4
  {
    At(b, q.r + i * q.dr, q.c + i * q.dc)
  }

  /** One cell is empty and the other three hold `m`. */
  ghost predicate HasThree(b: Board, q: Quad, m: Mark)
    requires Placed(q)
  {
    exists i: nat :: i < 4 && CellAt(b, q, i) == Empty && forall j: nat :: j < 4 && j != i ==> CellAt(b, q, j) == m
  }

  /** Two cells are empty and the other two hold `m`. */
  ghost predicate HasTwo(b: Board, q: Quad, m: Mark)
    requires Placed(q)
  {
    exists i: nat, j: nat :: i < j < 4 && CellAt(b, q, i) == CellAt(b, q, j) == Empty
      && forall k: nat :: k < 4 && k != i && k != j ==> CellAt(b, q, k) == m
  }

  /** The windows of `among`, those of three discs and those of two. */
  ghost function Threes(b: Board, among: set<Quad>, m: Mark): set<Quad> {
    set q | q in among && Placed(q) && HasThree(b, q, m)
  }

  ghost function Twos(b: Board, among: set<Quad>, m: Mark): set<Quad> {
    set q | q in among && Placed(q) && HasTwo(b, q, m)
  }

  /** All windows of the board. */
  function AllQuads(): (qs: set<Quad>)
    ensures forall q :: q in qs <==> Placed(q)
  {
    set r, c, dr, dc | 0 <= r < ROWS && 0 <= c < COLS && 0 <= dr < 2 && -1 <= dc < 2 && Placed(Quad(r, c, dr, dc)) :: Quad(r, c, dr, dc)
  }

  /** The first `r` rows, those whose middle cell holds `m`. */
  function MiddleRows(b: Board, m: Cell, r: nat): set<int>
    requires r <= ROWS
  {
    set x | 0 <= x < r && At(b, x, 3) == m
  }

  /** The value the source gives to the windows of `among`. */
  ghost function Worth(b: Board, mark: Mark, among: set<Quad>): int {
    50 * |Threes(b, among, mark)| + 10 * |Twos(b, among, mark)|
    - 80 * |Threes(b, among, Other(mark))| - 8 * |Twos(b, among, Other(mark))|
  }

  // ---- one window ----

  function QuadOf(r: int, c: int, k: nat): Quad
    requires k < 4
  {
    Quad(r, c, DIRS[k].0, DIRS[k].1)
  }

  lemma QuadIsPlaced(r: int, c: int, k: nat)
    requires k < 4
    ensures OnBoard(r, c) ==> (Placed(QuadOf(r, c, k)) <==> Fits(r, c, k))
  {
  }

  ghost function WorthOfOne(b: Board, mark: Mark, q: Quad): int
    requires Placed(q)
  {
    if HasThree(b, q, mark) then 50 else if HasTwo(b, q, mark) then 10
    else if HasThree(b, q, Other(mark)) then -80 else if HasTwo(b, q, Other(mark)) then -8 else 0
  }

  lemma FourCells(b: Board, q: Quad, m: Mark)
    requires Placed(q)
    ensures var s := [CellAt(b, q, 0), CellAt(b, q, 1), CellAt(b, q, 2), CellAt(b, q, 3)];
      && (HasThree(b, q, m) <==> Tally(s, m) == 3 && Tally(s, Empty) == 1)
      && (HasTwo(b, q, m) <==> Tally(s, m) == 2 && Tally(s, Empty) == 2)
  {
    var w, x, y, z := CellAt(b, q, 0), CellAt(b, q, 1), CellAt(b, q, 2), CellAt(b, q, 3);
    hide CellAt;
    TallyOfFour(w, x, y, z, m);
    TallyOfFour(w, x, y, z, Empty);
    hide Tally;
    ThreeOfFour(b, q, m);
    TwoOfFour(b, q, m);
  }

  lemma TallyOfFour(w: Cell, x: Cell, y: Cell, z: Cell, m: Cell)
    ensures Tally([w, x, y, z], m)
      == (if w == m then 1 else 0) + (if x == m then 1 else 0) + (if y == m then 1 else 0) + if z == m then 1 else 0
  {
    assert [z][1..] == [] && [y, z][1..] == [z] && [x, y, z][1..] == [y, z] && [w, x, y, z][1..] == [x, y, z];
    assert Tally([z], m) == if z == m then 1 else 0;
    assert Tally([y, z], m) == (if y == m then 1 else 0) + Tally([z], m);
    assert Tally([x, y, z], m) == (if x == m then 1 else 0) + Tally([y, z], m);
  }

  lemma ThreeOfFour(b: Board, q: Quad, m: Mark)
    requires Placed(q)
    ensures var w, x, y, z := CellAt(b, q, 0), CellAt(b, q, 1), CellAt(b, q, 2), CellAt(b, q, 3);
      HasThree(b, q, m) <==>
        || (w == Empty && x == y == z == m) || (x == Empty && w == y == z == m)
        || (y == Empty && w == x == z == m) || (z == Empty && w == x == y == m)
  {
    hide CellAt;
  }

  lemma TwoOfFour(b: Board, q: Quad, m: Mark)
    requires Placed(q)
    ensures var w, x, y, z := CellAt(b, q, 0), CellAt(b, q, 1), CellAt(b, q, 2), CellAt(b, q, 3);
      HasTwo(b, q, m) <==>
        || (w == x == Empty && y == z == m) || (w == y == Empty && x == z == m) || (w == z == Empty && x == y == m)
        || (x == y == Empty && w == z == m) || (x == z == Empty && w == y == m) || (y == z == Empty && w == x == m)
  {
    hide CellAt;
  }

  lemma WindowIs(b: Board, r: int, c: int, k: nat)
    requires k < 4 && OnBoard(r, c) && Fits(r, c, k)
    ensures var q := QuadOf(r, c, k);
      Placed(q) && Window(b, r, c, k) == [CellAt(b, q, 0), CellAt(b, q, 1), CellAt(b, q, 2), CellAt(b, q, 3)]
  {
  }

  lemma WindowWorth(b: Board, mark: Mark, r: int, c: int, k: nat)
    requires k < 4 && OnBoard(r, c) && Fits(r, c, k)
    ensures Placed(QuadOf(r, c, k)) && WinScore(Window(b, r, c, k), mark) == WorthOfOne(b, mark, QuadOf(r, c, k))
  {
    WindowIs(b, r, c, k);
    var q := QuadOf(r, c, k);
    FourCells(b, q, mark);
    FourCells(b, q, Other(mark));
    var s := Window(b, r, c, k);
    TallySum(s);
    assert Tally(s, One) + Tally(s, Two) == Tally(s, mark) + Tally(s, Other(mark));
    hide Tally, CellAt, HasThree, HasTwo, Window, QuadOf;
  }

  lemma OneKind(b: Board, mark: Mark, q: Quad)
    requires Placed(q)
    ensures HasThree(b, q, mark) ==> !HasTwo(b, q, mark) && !HasThree(b, q, Other(mark)) && !HasTwo(b, q, Other(mark))
    ensures HasTwo(b, q, mark) ==> !HasThree(b, q, Other(mark)) && !HasTwo(b, q, Other(mark))
    ensures HasThree(b, q, Other(mark)) ==> !HasTwo(b, q, Other(mark))
  {
    FourCells(b, q, mark);
    FourCells(b, q, Other(mark));
    var s := [CellAt(b, q, 0), CellAt(b, q, 1), CellAt(b, q, 2), CellAt(b, q, 3)];
    TallySum(s);
    hide Tally, CellAt, HasThree, HasTwo;
  }

  lemma AddOne<T>(s: set<T>, x: T)
    ensures |s + {x}| == |s| + if x in s then 0 else 1
  {
    if x in s { assert s + {x} == s; }
  }

  /** One more window adds its own worth. */
  lemma WorthGrows(b: Board, mark: Mark, among: set<Quad>, q: Quad)
    requires Placed(q) && q !in among
    ensures Worth(b, mark, among + {q}) == Worth(b, mark, among) + WorthOfOne(b, mark, q)
  {
    hide HasThree, HasTwo;
    OneKind(b, mark, q);
    KindGrows(b, among, q, mark);
    KindGrows(b, among, q, Other(mark));
    hide Threes, Twos;
  }

  lemma KindGrows(b: Board, among: set<Quad>, q: Quad, m: Mark)
    requires Placed(q) && q !in among
    ensures |Threes(b, among + {q}, m)| == |Threes(b, among, m)| + if HasThree(b, q, m) then 1 else 0
    ensures |Twos(b, among + {q}, m)| == |Twos(b, among, m)| + if HasTwo(b, q, m) then 1 else 0
  {
    hide HasThree, HasTwo;
    AddOne(Threes(b, among, m), q);
    AddOne(Twos(b, among, m), q);
    assert Threes(b, among + {q}, m) == if HasThree(b, q, m) then Threes(b, among, m) + {q} else Threes(b, among, m);
    assert Twos(b, among + {q}, m) == if HasTwo(b, q, m) then Twos(b, among, m) + {q} else Twos(b, among, m);
  }

  // ---- the loops go over every window once ----

  /** The windows met in the first `k` directions at a cell. */
  function AtCell(r: int, c: int, k: nat): (qs: set<Quad>)
    requires k <= 4
    ensures forall q :: q in qs ==> Placed(q) && q.r == r && q.c == c
  {
    if k == 0 then {} else
      AtCell(r, c, k - 1) + if OnBoard(r, c) && Placed(QuadOf(r, c, k - 1)) then {QuadOf(r, c, k - 1)} else {}
  }

  function InRow(r: int, c: nat): (qs: set<Quad>)
    ensures forall q :: q in qs ==> Placed(q) && q.r == r && q.c < c
  {
    if c == 0 then {} else InRow(r, c - 1) + AtCell(r, c - 1, 4)
  }

  function InRows(r: nat): (qs: set<Quad>)
    ensures forall q :: q in qs ==> Placed(q) && q.r < r
  {
    if r == 0 then {} else InRows(r - 1) + InRow(r - 1, COLS)
  }

  lemma AtCellIsAll(r: int, c: int, q: Quad)
    requires Placed(q) && q.r == r && q.c == c
    ensures q in AtCell(r, c, 4)
  {
    assert DIRS[0] == (0, 1) && DIRS[1] == (1, 0) && DIRS[2] == (1, 1) && DIRS[3] == (1, -1);
    var k := if q.dr == 0 then 0 else if q.dc == 0 then 1 else if q.dc == 1 then 2 else 3;
    assert q == QuadOf(r, c, k);
    assert q in AtCell(r, c, k + 1);
    AtCellGrows(r, c, k + 1);
  }

  lemma {:induction false} AtCellGrows(r: int, c: int, k: nat)
    requires k <= 4
    ensures AtCell(r, c, k) <= AtCell(r, c, 4)
    decreases 4 - k
  {
    if k < 4 { AtCellGrows(r, c, k + 1); }
  }

  lemma {:induction false} InRowIsAll(r: int, c: nat, q: Quad)
    requires Placed(q) && q.r == r && q.c < c
    ensures q in InRow(r, c)
  {
    hide Placed, AtCell;
    assert q.c >= 0 by { PlacedOnBoard(q); }
    if q.c == c - 1 { AtCellIsAll(r, c - 1, q); } else { InRowIsAll(r, c - 1, q); }
  }

  lemma {:induction false} InRowsIsAll(r: nat, q: Quad)
    requires Placed(q) && q.r < r
    ensures q in InRows(r)
  {
    hide Placed, InRow;
    assert q.r >= 0 && q.c < COLS by { PlacedOnBoard(q); }
    if q.r == r - 1 { InRowIsAll(r - 1, COLS, q); } else { InRowsIsAll(r - 1, q); }
  }

  lemma PlacedOnBoard(q: Quad)
    requires Placed(q)
    ensures OnBoard(q.r, q.c)
  {
  }

  lemma RowsAreAll()
    ensures InRows(ROWS) == AllQuads()
  {
    hide InRows, Placed, AllQuads;
    forall q ensures q in InRows(ROWS) <==> q in AllQuads() {
      if Placed(q) {
        PlacedOnBoard(q);
        InRowsIsAll(ROWS, q);
      }
    }
  }

  lemma NewDirection(r: int, c: int, k: nat)
    requires k < 4
    ensures QuadOf(r, c, k) !in AtCell(r, c, k)
  {
    assert DIRS[0] == (0, 1) && DIRS[1] == (1, 0) && DIRS[2] == (1, 1) && DIRS[3] == (1, -1);
    assert AtCell(r, c, 1) <= {QuadOf(r, c, 0)};
    assert AtCell(r, c, 2) <= {QuadOf(r, c, 0), QuadOf(r, c, 1)};
    assert AtCell(r, c, 3) <= {QuadOf(r, c, 0), QuadOf(r, c, 1), QuadOf(r, c, 2)};
  }

  /** The sum over a cell's directions adds the worth of its windows to that of any others. */
  lemma {:induction false} CellCounts(b: Board, mark: Mark, r: int, c: int, k: nat, before: set<Quad>)
    requires k <= 4 && OnBoard(r, c) && forall q :: q in before ==> q.r != r || q.c != c
    ensures Worth(b, mark, before + AtCell(r, c, k)) == Worth(b, mark, before) + CellScore(b, mark, r, c, k)
  {
    hide Worth, WinScore, Window, QuadOf, WorthOfOne;
    if k == 0 {
      assert before + AtCell(r, c, 0) == before;
    } else {
      CellCounts(b, mark, r, c, k - 1, before);
      var q, sofar := QuadOf(r, c, k - 1), before + AtCell(r, c, k - 1);
      QuadIsPlaced(r, c, k - 1);
      if Fits(r, c, k - 1) {
        WindowWorth(b, mark, r, c, k - 1);
        NewDirection(r, c, k - 1);
        assert q.r == r && q.c == c by { QuadStarts(r, c, k - 1); }
        WorthGrows(b, mark, sofar, q);
        assert before + AtCell(r, c, k) == sofar + {q};
      } else {
        assert before + AtCell(r, c, k) == sofar;
      }
    }
  }

  lemma QuadStarts(r: int, c: int, k: nat)
    requires k < 4
    ensures QuadOf(r, c, k).r == r && QuadOf(r, c, k).c == c
  {
  }

  lemma {:induction false} RowCounts(b: Board, mark: Mark, r: int, c: nat, before: set<Quad>)
    requires 0 <= r < ROWS && c <= COLS && forall q :: q in before ==> q.r != r
    ensures Worth(b, mark, before + InRow(r, c)) == Worth(b, mark, before) + RowScore(b, mark, r, c)
  {
    hide Worth, CellScore, AtCell;
    if c == 0 {
      assert before + InRow(r, 0) == before;
    } else {
      RowCounts(b, mark, r, c - 1, before);
      CellCounts(b, mark, r, c - 1, 4, before + InRow(r, c - 1));
      assert before + InRow(r, c) == before + InRow(r, c - 1) + AtCell(r, c - 1, 4);
    }
  }

  lemma {:induction false} RowsCount(b: Board, mark: Mark, r: nat)
    requires r <= ROWS
    ensures Worth(b, mark, InRows(r)) == RowsScore(b, mark, r)
  {
    hide RowScore, InRow, Worth;
    if r == 0 {
      NothingIsWorthless(b, mark);
    } else {
      RowsCount(b, mark, r - 1);
      RowCounts(b, mark, r - 1, COLS, InRows(r - 1));
    }
  }

  lemma NothingIsWorthless(b: Board, mark: Mark)
    ensures Worth(b, mark, {}) == 0
  {
    assert Threes(b, {}, mark) == {} && Twos(b, {}, mark) == {};
    assert Threes(b, {}, Other(mark)) == {} && Twos(b, {}, Other(mark)) == {};
  }

  lemma {:induction false} CentreCounts(b: Board, m: Cell, r: nat)
    requires r <= ROWS
    ensures Centre(b, m, r) == |MiddleRows(b, m, r)|
  {
    hide At, MiddleRows;
    if r > 0 {
      CentreCounts(b, m, r - 1);
      MiddleGrows(b, m, r - 1);
    } else {
      assert MiddleRows(b, m, 0) == {} by { NoMiddle(b, m); }
    }
  }

  lemma NoMiddle(b: Board, m: Cell)
    ensures MiddleRows(b, m, 0) == {}
  {
  }

  lemma MiddleGrows(b: Board, m: Cell, r: nat)
    requires r < ROWS
    ensures |MiddleRows(b, m, r + 1)| == |MiddleRows(b, m, r)| + if At(b, r, 3) == m then 1 else 0
  {
    hide At;
    AddOne(MiddleRows(b, m, r), r);
    assert MiddleRows(b, m, r + 1) == if At(b, r, 3) == m then MiddleRows(b, m, r) + {r} else MiddleRows(b, m, r);
  }

  /** A position is worth 6 for every disc more in the middle column, 50 and 10 for every window with three or two of the
      bot's discs and otherwise empty, and 80 and 8 less for every such window of the opponent's. */
  lemma EvaluateCountsWindows(b: Board, mark: Mark)
    ensures Evaluate(b, mark) == 6 * (|MiddleRows(b, mark, ROWS)| - |MiddleRows(b, Other(mark), ROWS)|)
      + 50 * |Threes(b, AllQuads(), mark)| + 10 * |Twos(b, AllQuads(), mark)|
      - 80 * |Threes(b, AllQuads(), Other(mark))| - 8 * |Twos(b, AllQuads(), Other(mark))|
  {
    hide RowsScore, InRows, AllQuads, Threes, Twos, Centre, MiddleRows;
    RowsCount(b, mark, ROWS);
    RowsAreAll();
    CentreCounts(b, mark, ROWS);
    CentreCounts(b, Other(mark), ROWS);
  }
}
