/** The Connect Four referee as a state machine (botframework/connect4Listener.py). */
module ConnectRules {
  import opened Seats
  import opened ConnectBoard

  datatype Status = Active | Win | Draw | Resigned

  datatype Game = Game(cells: Board, status: Status)

  datatype Event = Column(col: nat) | Resign

  function Start(): Game { Game(EmptyBoard(), Active) }

  function StatusAfter(b: Board): Status {
    if Winner(b).Some? then Win else if Full(b) then Draw else Active
  }

  /** A column number played by the side to move; refused when the game is over or the column is full. */
  function Play(g: Game, col: nat): Game {
    if g.status != Active || !Open(g.cells, col) then g
    else
      var b := Drop(g.cells, col, SideToMove(g.cells));
      Game(b, StatusAfter(b))
  }

  /** Resigning is looked at before the game-over check, so it overwrites any status. */
  function Step(g: Game, e: Event): Game {
    match e
    case Column(col) => Play(g, col)
    case Resign => g.(status := Resigned)
  }

  function Run(g: Game, es: seq<Event>): Game
    decreases |es|
  {
    if es == [] then g else Run(Step(g, es[0]), es[1..])
  }

  // ---- reachable states ----

  /** No disc floats: below every disc there is another one. */
  ghost predicate Grounded(b: Board) {
    forall r, c :: 0 <= r < ROWS - 1 && 0 <= c < COLS && At(b, r, c) != Empty ==> At(b, r + 1, c) != Empty
  }

  /** The players have dropped in turn, "1" first. */
  ghost predicate InTurn(b: Board) {
    Tally(b, One) == Tally(b, Two) + if SideToMove(b) == Two then 1 else 0
  }

  /** If somebody has four in line it is the player who moved last, and only that player. */
  ghost predicate WonByLastMover(b: Board) {
    !Four(b, SideToMove(b)) && (Winner(b) == None || Winner(b) == Some(Other(SideToMove(b))))
  }

  ghost predicate Sound(g: Game) {
    && Grounded(g.cells) && InTurn(g.cells) && WonByLastMover(g.cells)
    && match g.status
       case Active => Winner(g.cells) == None && !Full(g.cells)
       case Win => Winner(g.cells) == Some(Other(SideToMove(g.cells))) && Four(g.cells, Other(SideToMove(g.cells)))
       case Draw => Winner(g.cells) == None && Full(g.cells)
       case Resigned => true
  }

  lemma DropStaysGrounded(b: Board, col: nat, m: Mark)
    requires Grounded(b) && Open(b, col)
    ensures Grounded(Drop(b, col, m))
  {
    var b' := Drop(b, col, m);
    forall r, c | 0 <= r < ROWS - 1 && 0 <= c < COLS && At(b', r, c) != Empty ensures At(b', r + 1, c) != Empty {
      DropAt(b, col, m, r, c);
      DropAt(b, col, m, r + 1, c);
      hide Drop;
    }
  }

  lemma DropAt(b: Board, col: nat, m: Mark, r: int, c: int)
    requires Open(b, col) && OnBoard(r, c)
    ensures At(Drop(b, col, m), r, c) == if r == DropRow(b, col).value && c == col then m else At(b, r, c)
  {
    CellOf(r, c);
    CellOf(DropRow(b, col).value, col);
  }

  lemma DropTakesTurn(b: Board, col: nat)
    requires InTurn(b) && Open(b, col)
    ensures var b' := Drop(b, col, SideToMove(b)); InTurn(b') && SideToMove(b') == Other(SideToMove(b))
  {
    DropAddsOne(b, col, SideToMove(b));
    hide Drop, Open;
  }

  lemma PlayKeeps(g: Game, col: nat)
    requires Sound(g)
    ensures Sound(Play(g, col))
  {
    if g.status == Active && Open(g.cells, col) {
      var m := SideToMove(g.cells);
      var b := Drop(g.cells, col, m);
      DropStaysGrounded(g.cells, col, m);
      DropTakesTurn(g.cells, col);
      OnlyTheMoverWins(g.cells, col, m);
      WinnerIsFour(b);
    }
    hide Grounded, InTurn, Four, Winner, Drop, SideToMove, Open;
  }

  lemma StartSound()
    ensures Sound(Start())
  {
    var b := EmptyBoard();
    hide Winner, Four, Tally;
    WinnerIsFour(b);
    NoDiscNoFour(b, One);
    NoDiscNoFour(b, Two);
    TallyNone(b, One);
    TallyNone(b, Two);
    assert b[0] == Empty;
  }

  lemma NoDiscNoFour(b: Board, p: Mark)
    requires NoDisc(b, p)
    ensures !Four(b, p)
  {
  }

  ghost predicate NoDisc(s: seq<Cell>, m: Cell) {
    forall i :: 0 <= i < |s| ==> s[i] != m
  }

  lemma {:induction false} TallyNone(s: seq<Cell>, m: Cell)
    requires NoDisc(s, m)
    ensures Tally(s, m) == 0
  {
    if s != [] { TallyNone(s[1..], m); }
  }

  /** From an empty board, whatever columns are played and whoever resigns: no disc floats, the players have moved
      in turn, and four in line is only ever the last mover's. */
  lemma {:induction false} RunKeeps(g: Game, es: seq<Event>)
    requires Sound(g)
    ensures Sound(Run(g, es))
    decreases |es|
  {
    if es != [] {
      if es[0].Column? { PlayKeeps(g, es[0].col); }
      RunKeeps(Step(g, es[0]), es[1..]);
      hide Grounded, InTurn, WonByLastMover, Play;
    }
  }

  /** The disc of a play lands on the lowest empty cell of the column that was named, and nothing else on the board changes;
      the first player moves when the number of discs is even. The game is won exactly when the mover now has four in line,
      drawn when otherwise no cell is empty, and goes on else. */
  lemma PlayLands(g: Game, col: nat, row: nat)
    requires Sound(g) && g.status == Active && col < COLS && row < ROWS && At(g.cells, row, col) == Empty
    requires forall r :: row < r < ROWS ==> At(g.cells, r, col) != Empty
    ensures var m: Mark := if Discs(g.cells) % 2 == 0 then One else Two;
      var g' := Play(g, col);
      && (forall r, c :: OnBoard(r, c) ==> At(g'.cells, r, c) == if r == row && c == col then m else At(g.cells, r, c))
      && (g'.status == Win <==> Four(g'.cells, m))
      && (g'.status == Draw <==> !Four(g'.cells, m) && Full(g'.cells))
      && (g'.status == Active <==> !Four(g'.cells, m) && !Full(g'.cells))
  {
    assert DropRow(g.cells, col) == Some(row);
    var m := SideToMove(g.cells);
    var b := Drop(g.cells, col, m);
    forall r, c | OnBoard(r, c) ensures At(b, r, c) == if r == row && c == col then m else At(g.cells, r, c) {
      DropAt(g.cells, col, m, r, c);
    }
    OnlyTheMoverWins(g.cells, col, m);
    WinnerIsFour(b);
    hide Drop, DropRow, Winner, Four, Discs, At, Full, Grounded, InTurn;
  }

  /** A play in a full column, or when the game is over, changes nothing. */
  lemma PlayIsRefused(g: Game, col: nat)
    requires g.status != Active || col >= COLS || At(g.cells, 0, col) != Empty
    requires Grounded(g.cells)
    ensures Play(g, col) == g
  {
    if col < COLS && Open(g.cells, col) && g.status == Active { FloatsNot(g.cells, col, DropRow(g.cells, col).value); }
  }

  lemma {:induction false} FloatsNot(b: Board, col: nat, row: nat)
    requires Grounded(b) && col < COLS && row < ROWS && At(b, 0, col) != Empty
    ensures At(b, row, col) != Empty
  {
    if row > 0 { FloatsNot(b, col, row - 1); }
  }

  /** The board changes, that is, the drop is taken. */
  predicate Taken(g: Game, e: Event) {
    e.Column? && g.status == Active && Open(g.cells, e.col)
  }

  function Drops(g: Game, es: seq<Event>): nat
    decreases |es|
  {
    if es == [] then 0 else (if Taken(g, es[0]) then 1 else 0) + Drops(Step(g, es[0]), es[1..])
  }

  /** Every drop that is taken adds one disc, so a game takes at most 42 of them. */
  lemma {:induction false} DropsAreDiscs(g: Game, es: seq<Event>)
    ensures Discs(Run(g, es).cells) == Discs(g.cells) + Drops(g, es)
    ensures Drops(g, es) <= CELLS - Discs(g.cells)
    decreases |es|
  {
    if es != [] {
      if Taken(g, es[0]) { DropAddsOne(g.cells, es[0].col, SideToMove(g.cells)); }
      DropsAreDiscs(Step(g, es[0]), es[1..]);
      hide Discs, Open, Drop, StatusAfter;
    }
  }

  /** Once it is over, no column play changes anything; before that, some column can be played. */
  lemma PlayEndsExactlyWhenOver(g: Game)
    requires Sound(g)
    ensures g.status == Active <==> exists col: nat :: col < COLS && Play(g, col) != g
  {
    if g.status == Active {
      if forall c :: 0 <= c < COLS ==> !Open(g.cells, c) { ClosedMeansFull(g.cells); }
      var col :| 0 <= col < COLS && Open(g.cells, col);
      DropAddsOne(g.cells, col, SideToMove(g.cells));
      assert Play(g, col) != g;
    }
  }

  // ---- a game that is over can still be resigned ----

  /** The board after `k` plays in columns 0 and 1 by turns. */
  function Tower(k: nat): (b: Board)
    ensures forall r, c :: OnBoard(r, c) ==> At(b, r, c) == TowerCell(k, r, c)
  {
    seq(CELLS, i requires 0 <= i < CELLS => TowerCell(k, i / COLS, i % COLS))
  }

  function TowerCell(k: nat, r: int, c: int): Cell {
    var up := 2 * (ROWS - 1 - r);
    if c == 0 && up < k then One else if c == 1 && up + 1 < k then Two else Empty
  }

  /** Who plays, and where the disc lands. */
  function TowerSide(k: nat): Mark { if k % 2 == 0 then One else Two }

  lemma TowerRow(k: nat)
    requires k < 7
    ensures Open(Tower(k), k % 2) && DropRow(Tower(k), k % 2) == Some(ROWS - 1 - k / 2)
  {
    hide Tower;
    assert At(Tower(k), ROWS - 1 - k / 2, k % 2) == Empty;
    hide DropRow;
  }

  lemma TowerCellGrows(k: nat, r: int, c: int)
    requires k < 7 && OnBoard(r, c)
    ensures TowerCell(k + 1, r, c) == if r == ROWS - 1 - k / 2 && c == k % 2 then TowerSide(k) else TowerCell(k, r, c)
  {
  }

  lemma TowerGrows(k: nat)
    requires k < 7
    ensures Open(Tower(k), k % 2) && Drop(Tower(k), k % 2, TowerSide(k)) == Tower(k + 1)
  {
    hide Open, DropRow, Drop, Tower, TowerCell;
    TowerRow(k);
    var b' := Drop(Tower(k), k % 2, TowerSide(k));
    forall i | 0 <= i < CELLS ensures b'[i] == Tower(k + 1)[i] {
      var r, c := i / COLS, i % COLS;
      DropAt(Tower(k), k % 2, TowerSide(k), r, c);
      TowerCellGrows(k, r, c);
      assert At(b', r, c) == At(Tower(k + 1), r, c);
    }
  }

  lemma NoDiscs()
    ensures Discs(Tower(0)) == 0
  {
    TallyNone(Tower(0), One);
    TallyNone(Tower(0), Two);
  }

  lemma {:induction false} TowerDiscs(k: nat)
    requires k <= 7
    ensures Discs(Tower(k)) == k
  {
    hide Tower, Drop, Open, Discs, TowerSide;
    if k == 0 {
      NoDiscs();
    } else {
      TowerDiscs(k - 1);
      TowerGrows(k - 1);
      DropAddsOne(Tower(k - 1), (k - 1) % 2, TowerSide(k - 1));
    }
  }

  lemma TowerWinner(k: nat)
    requires k <= 7
    ensures Winner(Tower(k)) == if k == 7 then Some(One) else None
  {
    var b := Tower(k);
    WinnerIsFour(b);
    forall p: Mark, r, c, dr, dc | Direction(dr, dc) && Line(b, r, c, dr, dc, p) ensures k == 7 && p == One {
      assert TowerCell(k, r, c) == p && TowerCell(k, r + dr, c + dc) == p && TowerCell(k, r + 3 * dr, c + 3 * dc) == p;
    }
    if k == 7 { assert Direction(1, 0) && Line(b, 2, 0, 1, 0, One); }
    hide Line, WinnerFrom;
  }

  lemma TowerHasRoom(k: nat)
    requires k <= 7
    ensures !Full(Tower(k))
  {
    hide Tower;
    assert At(Tower(k), 0, 6) == Empty;
  }

  /** The game after `k` such plays. */
  function TowerGame(k: nat): Game { Game(Tower(k), StatusAfter(Tower(k))) }

  lemma TowerPlay(k: nat)
    requires k < 7
    ensures Step(TowerGame(k), Column(k % 2)) == TowerGame(k + 1)
  {
    hide Winner, Tower, Drop, Open, Discs, Full;
    TowerWinner(k);
    TowerGrows(k);
    TowerDiscs(k);
    TowerHasRoom(k);
  }

  function Alternate(k: nat): seq<Event>
    decreases 7 - k
  {
    if k >= 7 then [] else [Column(k % 2)] + Alternate(k + 1)
  }

  lemma RunFirst(g: Game, e: Event, rest: seq<Event>)
    ensures Run(g, [e] + rest) == Run(Step(g, e), rest)
  {
    hide Step;
    assert ([e] + rest)[1..] == rest;
  }

  lemma AlternateFirst(k: nat, tail: seq<Event>)
    ensures Alternate(k) + tail == if k >= 7 then tail else [Column(k % 2)] + (Alternate(k + 1) + tail)
  {
  }

  lemma {:induction false} TowerRun(k: nat, tail: seq<Event>)
    requires k <= 7
    ensures Run(TowerGame(k), Alternate(k) + tail) == Run(TowerGame(7), tail)
    decreases 7 - k
  {
    hide TowerGame, Step, Run, Alternate;
    AlternateFirst(k, tail);
    if k < 7 {
      TowerPlay(k);
      RunFirst(TowerGame(k), Column(k % 2), Alternate(k + 1) + tail);
      TowerRun(k + 1, tail);
    }
  }

  /** Player "1" wins with four discs in the first column; then a resignation turns the win into a resigned game. */
  lemma WinIsOverwritten()
    ensures var won := Run(Start(), Alternate(0));
      && won.status == Win && Winner(won.cells) == Some(One)
      && Run(Start(), Alternate(0) + [Resign]) == won.(status := Resigned)
  {
    assert Tower(0) == EmptyBoard();
    hide Winner, Tower, Alternate, Full;
    TowerWinner(0);
    TowerWinner(7);
    TowerHasRoom(0);
    TowerRun(0, []);
    TowerRun(0, [Resign]);
    assert Alternate(0) + [] == Alternate(0) && [Resign][1..] == [];
  }
}
