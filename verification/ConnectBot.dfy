/** The Connect Four bot: iterative deepening over one board that is changed and undone in place, and that may be
  cut short by the clock at any node (botframework/connect4Listener.py). */
module ConnectBot {
  import opened Seats
  import opened Numbers
  import opened ConnectBoard
  import opened ConnectScore
  import opened ConnectSearch
  import opened ConnectChoice

  class Search {
    const work: array<Cell>
    const mark: Mark
    var nodes: nat

    /** Copies the caller's board. */
    constructor (cells: array<Cell>, mark: Mark)
      requires cells.Length == CELLS
      ensures fresh(work) && work.Length == CELLS && work[..] == cells[..] && this.mark == mark
    {
      this.mark := mark;
      nodes := 0;
      work := new Cell[CELLS](i requires 0 <= i < CELLS reads cells => cells[i]);
    }

    /** Puts a disc in open column `c` and says where. */
    method Put(c: nat, m: Mark) returns (at: nat)
      requires work.Length == CELLS && Open(work[..], c)
      modifies work
      ensures work[..] == Drop(old(work[..]), c, m)
      ensures at < CELLS && old(work[..])[at] == Empty && work[..] == old(work[..])[at := m]
    {
      at := DropRow(work[..], c).value * COLS + c;
      work[at] := m;
    }

    method Undo(at: nat, ghost b: Board)
      requires work.Length == CELLS && at < CELLS && b[at] == Empty && work[..] == b[at := work[at]]
      modifies work
      ensures work[..] == b
    {
      work[at] := Empty;
    }

    /** Alpha-beta on the working board. If it is not cut short the board is as it was and the value is that of
        the pruned search; `root - depth` drops have been made since the root. */
    method Nm(depth: nat, alpha: int, beta: int, turn: Mark, root: nat) returns (cut: bool, v: int)
      requires work.Length == CELLS && depth <= root
      modifies this`nodes, work
      ensures !cut ==> work[..] == old(work[..])
      ensures !cut ==> v == AlphaBeta(old(work[..]), depth, alpha, beta, turn, mark, root - depth)
      decreases depth, 1
    {
      hide Open, Drop, Winner, Evaluate, Columns, Order, Raise, Lower;
      cut, v := false, 0;
      nodes := nodes + 1;
      if nodes % 2048 == 0 {
        var late: bool := *;
        if late { return true, 0; }
      }
      ghost var b: Board := work[..];
      var w := Winner(work[..]);
      if w == Some(mark) { return false, WIN - (root - depth); }
      if w == Some(Other(mark)) { return false, -WIN + (root - depth); }
      var valid := Columns(work[..]);
      if valid == [] || depth == 0 {
        v := Score(work[..], mark);
        return;
      }
      var order := Order(work[..]);
      assert !Leaf(b, depth);
      if turn == mark {
        cut, v := Maximise(order, depth, alpha, beta, root);
      } else {
        cut, v := Minimise(order, depth, alpha, beta, root);
      }
    }

    method Maximise(order: seq<nat>, depth: nat, alpha0: int, beta: int, root: nat) returns (cut: bool, best: int)
      requires work.Length == CELLS && 0 < depth <= root && forall c :: c in order ==> Open(work[..], c)
      modifies this`nodes, work
      ensures !cut ==> work[..] == old(work[..])
      ensures !cut ==> best == Raise(old(work[..]), order, depth, alpha0, beta, -LIMIT, mark, root - depth)
      decreases depth, 0
    {
      hide Open, Drop, AlphaBeta;
      ghost var b: Board := work[..];
      cut, best := false, -LIMIT;
      var alpha := alpha0;
      var i := 0;
      while i < |order|
        invariant i <= |order| && work[..] == b
        invariant Raise(b, order, depth, alpha0, beta, -LIMIT, mark, root - depth)
               == Raise(b, order[i..], depth, alpha, beta, best, mark, root - depth)
      {
        assert order[i] in order && order[i..][0] == order[i] && order[i..][1..] == order[i + 1..];
        var at := Put(order[i], mark);
        var v;
        cut, v := Nm(depth - 1, alpha, beta, Other(mark), root);
        if cut { return; }
        best := Max(best, v);
        Undo(at, b);
        alpha := Max(alpha, best);
        if alpha >= beta { return; }
        i := i + 1;
      }
    }

    method Minimise(order: seq<nat>, depth: nat, alpha: int, beta0: int, root: nat) returns (cut: bool, best: int)
      requires work.Length == CELLS && 0 < depth <= root && forall c :: c in order ==> Open(work[..], c)
      modifies this`nodes, work
      ensures !cut ==> work[..] == old(work[..])
      ensures !cut ==> best == Lower(old(work[..]), order, depth, alpha, beta0, LIMIT, mark, root - depth)
      decreases depth, 0
    {
      hide Open, Drop, AlphaBeta;
      ghost var b: Board := work[..];
      cut, best := false, LIMIT;
      var beta := beta0;
      var i := 0;
      while i < |order|
        invariant i <= |order| && work[..] == b
        invariant Lower(b, order, depth, alpha, beta0, LIMIT, mark, root - depth)
               == Lower(b, order[i..], depth, alpha, beta, best, mark, root - depth)
      {
        assert order[i] in order && order[i..][0] == order[i] && order[i..][1..] == order[i + 1..];
        var at := Put(order[i], Other(mark));
        var v;
        cut, v := Nm(depth - 1, alpha, beta, mark, root);
        if cut { return; }
        best := Min(best, v);
        Undo(at, b);
        beta := Min(beta, best);
        if beta <= alpha { return; }
        i := i + 1;
      }
    }

    /** One pass over the root's columns; the first of the best ones, unless the pass is cut short. */
    method Pass(valid: seq<nat>, d: nat) returns (cut: bool, cur: Option<nat>, curV: int)
      requires work.Length == CELLS && d > 0 && valid != [] && forall c :: c in valid ==> Open(work[..], c)
      modifies this`nodes, work
      ensures !cut ==> work[..] == old(work[..]) && cur.Some?
      ensures !cut ==> Found(old(work[..]), valid, cur.value, curV, mark, d)
    {
      hide Open, Drop, RootValue;
      ghost var b: Board := work[..];
      ghost var j := 0;
      cut, cur, curV := false, None, -LIMIT - 1;
      for i := 0 to |valid|
        invariant work[..] == b
        invariant i == 0 ==> curV == -LIMIT - 1
        invariant i > 0 ==> j < i && cur == Some(valid[j]) && curV == RootValue(b, valid[j], mark, d)
        invariant i > 0 ==> forall k :: 0 <= k < i ==> RootValue(b, valid[k], mark, d) <= curV
        invariant i > 0 ==> forall k :: 0 <= k < j ==> RootValue(b, valid[k], mark, d) < curV
      {
        assert valid[i] in valid;
        var at := Put(valid[i], mark);
        var v;
        cut, v := Nm(d - 1, -LIMIT, LIMIT, Other(mark), d);
        if cut { return; }
        Undo(at, b);
        RootIsExact(b, valid[i], mark, d);
        RootBounds(b, valid[i], mark, d);
        if v > curV {
          cur, curV := Some(valid[i]), v;
          j := i;
        }
      }
    }

    /** Takes back whatever an aborted search left on the board. */
    method Restore(cells: array<Cell>)
      requires work.Length == CELLS == cells.Length && cells != work
      modifies work
      ensures work[..] == cells[..]
    {
      for i := 0 to CELLS
        invariant work[..i] == cells[..i]
      {
        work[i] := cells[i];
      }
    }
  }

  /** The search below a root column returns that column's minimax value. */
  lemma RootIsExact(b: Board, c: nat, mark: Mark, d: nat)
    requires Open(b, c) && d > 0
    ensures AlphaBeta(Drop(b, c, mark), d - 1, -LIMIT, LIMIT, Other(mark), mark, 1) == RootValue(b, c, mark, d)
  {
    hide AlphaBeta, Minimax, Drop, Open, Discs;
    DropAddsOne(b, c, mark);
    RootWindowIsExact(Drop(b, c, mark), d - 1, Other(mark), mark, 1);
  }

  /** The column to play, None on a full board. Whenever the clock cuts in, the caller's board is untouched (the
      method modifies nothing it did not allocate) and the answer is the first best one of the deepest depth `done`
      that was searched completely. Nothing but the clock stops the search before `maxDepth`. */
  method BotMove(cells: array<Cell>, mark: Mark, maxDepth: nat) returns (col: Option<nat>, ghost done: nat, ghost late: bool)
    requires cells.Length == CELLS && maxDepth >= 1
    ensures col.None? <==> forall c: nat :: !Open(cells[..], c)
    ensures col.Some? ==> Open(cells[..], col.value) && done <= maxDepth
    ensures col.Some? ==> if done == 0 then col.value == Order(cells[..])[0] else Chosen(cells[..], col.value, mark, done)
    ensures col.Some? && !late ==> done == maxDepth
  {
    hide Open, RootValue, Chosen, Order;
    done, late := 0, false;
    ghost var b: Board := cells[..];
    var valid := Order(cells[..]);
    OrderIsEmpty(b);
    if valid == [] { return None, 0, false; }
    assert valid[0] in valid;
    var bestC := valid[0];
    var s := new Search(cells, mark);
    var d := 1;
    while d <= maxDepth
      invariant 1 <= d <= maxDepth + 1 && done == d - 1
      invariant s.work.Length == CELLS && s.work != cells && s.work[..] == b && s.mark == mark && fresh(s) && fresh(s.work)
      invariant bestC in valid && cells[..] == b
      invariant if done == 0 then bestC == valid[0] else Chosen(b, bestC, mark, done)
      invariant !late
    {
      var cut, cur, curV := s.Pass(valid, d);
      if cut {
        s.Restore(cells);
        late := true;
        break;
      }
      FoundIsChosen(b, cur.value, curV, mark, d);
      if cur.Some? { bestC := cur.value; }
      done := d;
      var over: bool := *;
      if curV >= WIN || over {
        late := over;
        break;
      }
      d := d + 1;
    }
    col := Some(bestC);
  }

  /** A pass over `valid` ended with its first best column and that column's value. */
  ghost predicate Found(b: Board, valid: seq<nat>, cur: nat, curV: int, mark: Mark, d: nat) {
    exists j :: 0 <= j < |valid| && valid[j] == cur && FirstBest(b, valid, j, mark, d) && curV == RootValue(b, cur, mark, d)
  }

  /** What a pass finds is the choice at its depth, and its value never reaches the threshold of the early exit. */
  lemma FoundIsChosen(b: Board, cur: nat, curV: int, mark: Mark, d: nat)
    requires Found(b, Order(b), cur, curV, mark, d)
    ensures cur in Order(b) && Chosen(b, cur, mark, d) && curV < WIN
  {
    hide RootValue, Open, Order;
    RootBounds(b, cur, mark, d);
  }
}
