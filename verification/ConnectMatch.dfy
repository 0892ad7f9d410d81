/** A Connect Four match: the referee applying messages and bot replies to one state (botframework/connect4Listener.py). */
module ConnectMatch {
  import opened Seats
  import opened ConnectBoard
  import opened ConnectRules
  import opened ConnectSearch
  import opened ConnectChoice
  import ConnectBot

  type ColumnNumber = n: nat | 1 <= n <= COLS witness 1

  /** What a message text means to the referee: a resignation word, a number from 1 to 7, or neither. */
  datatype Message = ResignWord | Number(n: ColumnNumber) | Chatter

  datatype Outcome = Ignored | Resigns | GameOver | NotYourTurn | NoColumn | ColumnFull | Played(col: nat)

  datatype Pair = Pair(p1: Player, p2: Player, own: Player)

  /** The player whose turn it is on board `b`. */
  function Mover(who: Pair, b: Board): Player {
    if SideToMove(b) == One then who.p1 else who.p2
  }

  /** The referee's answer, in the order in which the source looks at the message. */
  function Judge(who: Pair, g: Game, sender: Player, msg: Message): Outcome {
    if sender != who.p1 && sender != who.p2 then Ignored
    else if msg == ResignWord then Resigns
    else if g.status != Active then GameOver
    else if sender != Mover(who, g.cells) then NotYourTurn
    else if !msg.Number? then NoColumn
    else if !Open(g.cells, msg.n - 1) then ColumnFull
    else Played(msg.n - 1)
  }

  /** The state after the message itself, before any bot reply. */
  function Ruled(who: Pair, g: Game, sender: Player, msg: Message): Game {
    match Judge(who, g, sender, msg)
    case Resigns => Step(g, Event.Resign)
    case Played(col) => Play(g, col)
    case _ => g
  }

  predicate BotToMove(who: Pair, g: Game) {
    who.p1 != who.p2 && g.status == Active && Mover(who, g.cells) == who.own
  }

  /** `col` is the bot's choice at some depth up to `depth` that it may have completed, or the first column it would try. */
  ghost predicate BotPick(b: Board, col: nat, mark: Mark, depth: nat) {
    Open(b, col) && ((Order(b) != [] && col == Order(b)[0]) || exists done: nat :: 0 < done <= depth && Chosen(b, col, mark, done))
  }

  /** `r` is `g` after the bot's reply: the drop of its choice if it is the bot's turn, else nothing. */
  ghost predicate BotReplied(who: Pair, depth: nat, g: Game, r: Game) {
    if BotToMove(who, g) then exists col: nat :: BotPick(g.cells, col, SideToMove(g.cells), depth) && r == Play(g, col) else r == g
  }

  /** The answers, each exactly when: the first player moves when the number of discs is even. */
  lemma JudgeMeans(who: Pair, g: Game, sender: Player, msg: Message)
    ensures var o := Judge(who, g, sender, msg);
      var mover := if Discs(g.cells) % 2 == 0 then who.p1 else who.p2;
      var seated := sender == who.p1 || sender == who.p2;
      var heard := seated && msg != ResignWord && g.status == Active && sender == mover;
      && (o == Ignored <==> !seated)
      && (o == Resigns <==> seated && msg == ResignWord)
      && (o == GameOver <==> seated && msg != ResignWord && g.status != Active)
      && (o == NotYourTurn <==> seated && msg != ResignWord && g.status == Active && sender != mover)
      && (o == NoColumn <==> heard && msg == Chatter)
      && (forall n: ColumnNumber :: heard && msg == Number(n) ==> o == if Open(g.cells, n - 1) then Played(n - 1) else ColumnFull)
      && Ruled(who, g, sender, msg) == if o == Resigns then g.(status := Resigned) else if o.Played? then Play(g, o.col) else g
  {
    hide Discs, Open;
  }

  /** After its reply the bot is not to move again. */
  lemma BotMovesOnce(who: Pair, g: Game, col: nat)
    requires Sound(g) && BotToMove(who, g) && Open(g.cells, col)
    ensures !BotToMove(who, Play(g, col))
  {
    hide Drop, Open, Discs, Sound, StatusAfter;
    DropAddsOne(g.cells, col, SideToMove(g.cells));
  }

  class Match {
    const who: Pair
    const maxDepth: nat
    const cells: array<Cell>
    var status: Status

    ghost predicate Valid()
      reads this, cells
    {
      maxDepth >= 1 && cells.Length == CELLS && Sound(Now())
    }

    ghost function Now(): Game
      reads this, cells
      requires cells.Length == CELLS
    {
      Game(cells[..], status)
    }

    /** A new game; the bot opens when it is the first player. */
    constructor (who: Pair, maxDepth: nat)
      requires maxDepth >= 1
      ensures Valid() && fresh(cells) && BotReplied(who, maxDepth, Start(), Now()) && this.who == who && this.maxDepth == maxDepth
    {
      this.who := who;
      this.maxDepth := maxDepth;
      cells := new Cell[CELLS](_ => Empty);
      status := Active;
      new;
      assert cells[..] == EmptyBoard();
      StartSound();
      hide Sound, Drop, Open, Discs;
      if who.p1 == who.own { var _ := ApplyBot(); }
      assert SideToMove(EmptyBoard()) == One by { StartSide(); }
    }

    /** The bot plays while it is its turn. */
    method ApplyBot() returns (last: Option<nat>)
      requires Valid()
      modifies this, cells
      ensures Valid() && BotReplied(who, maxDepth, old(Now()), Now())
      ensures last.Some? <==> BotToMove(who, old(Now()))
    {
      hide Drop, Open, Discs, StatusAfter, Sound, Order, Chosen;
      last := None;
      ghost var g := Now();
      if who.p1 == who.p2 { return; }
      while status == Active
        invariant Valid()
        invariant if last.None? then Now() == g else BotToMove(who, g) && BotReplied(who, maxDepth, g, Now()) && !BotToMove(who, Now())
        decreases last.None?
      {
        var stm := SideToMove(cells[..]);
        var side := if stm == One then who.p1 else who.p2;
        if side != who.own { break; }
        var col, done, _ := ConnectBot.BotMove(cells, stm, maxDepth);
        if col.None? {
          ActiveHasOpen(Now());
          break;
        }
        ghost var was := Now();
        OrderNotEmpty(was.cells, col.value);
        assert BotPick(was.cells, col.value, stm, maxDepth);
        PlayKeeps(was, col.value);
        BotMovesOnce(who, was, col.value);
        var at := Place(col.value, stm);
        last := Some(at);
      }
    }

    /** Drops a disc and looks at the result. */
    method Place(col: nat, stm: Mark) returns (at: nat)
      requires Valid() && status == Active && Open(cells[..], col) && stm == SideToMove(cells[..])
      modifies this, cells
      ensures cells.Length == CELLS && Now() == Play(old(Now()), col)
    {
      var r := DropRow(cells[..], col);
      at := r.value * COLS + col;
      cells[at] := stm;
      assert cells[..] == Drop(old(cells[..]), col, stm);
      var st := StatusAfter(cells[..]);
      if st != Active { status := st; }
    }

    /** One message from `sender`: the answer, the move if there is one, and the bot's reply to it. */
    method ApplyMove(sender: Player, msg: Message) returns (outcome: Outcome)
      requires Valid()
      modifies this, cells
      ensures Valid() && outcome == Judge(who, old(Now()), sender, msg)
      ensures if outcome.Played? then BotReplied(who, maxDepth, Ruled(who, old(Now()), sender, msg), Now())
              else Now() == Ruled(who, old(Now()), sender, msg)
    {
      hide Drop, Open, Discs, StatusAfter, Sound;
      ghost var g := Now();
      if sender != who.p1 && sender != who.p2 { return Ignored; }
      if msg == ResignWord {
        ResignKeeps(g);
        status := Resigned;
        return Resigns;
      }
      if status != Active { return GameOver; }
      var stm := SideToMove(cells[..]);
      var side := if stm == One then who.p1 else who.p2;
      if sender != side { return NotYourTurn; }
      if !msg.Number? { return NoColumn; }
      var col := msg.n - 1;
      if !Open(cells[..], col) { return ColumnFull; }
      PlayKeeps(g, col);
      var _ := Place(col, stm);
      outcome := Played(col);
      if status != Active { return; }
      var next := if SideToMove(cells[..]) == One then who.p1 else who.p2;
      if next == who.own { var _ := ApplyBot(); }
    }
  }

  lemma OrderNotEmpty(b: Board, col: nat)
    requires Open(b, col)
    ensures Order(b) != []
  {
    hide Open, Order;
    OrderIsEmpty(b);
  }

  lemma StartSide()
    ensures SideToMove(EmptyBoard()) == One
  {
    hide Tally;
    TallyNone(EmptyBoard(), One);
    TallyNone(EmptyBoard(), Two);
  }

  lemma ResignKeeps(g: Game)
    requires Sound(g)
    ensures Sound(Step(g, Event.Resign))
  {
  }

  lemma ActiveHasOpen(g: Game)
    requires Sound(g) && g.status == Active
    ensures exists col: nat :: Open(g.cells, col)
  {
    if forall c :: 0 <= c < COLS ==> !Open(g.cells, c) { ClosedMeansFull(g.cells); }
  }
}
