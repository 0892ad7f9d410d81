/** Plain minimax for the Connect Four bot, and what pruning keeps of it (botframework/connect4Listener.py). */
module ConnectSearch {
  import opened Seats
  import opened Numbers
  import opened ConnectBoard
  import opened ConnectScore

  const WIN := 1_000_000
  const LIMIT := 10_000_000

  const NATURAL: seq<nat> := [0, 1, 2, 3, 4, 5, 6]
  const CENTRE: seq<nat> := [3, 2, 4, 1, 5, 0, 6]

  /** The columns of `cols` that take a disc, in their order. */
  function Pick(b: Board, cols: seq<nat>): (r: seq<nat>)
    ensures |r| <= |cols| && forall c :: c in r <==> c in cols && Open(b, c)
  {
    if cols == [] then []
    else if Open(b, cols[0]) then [cols[0]] + Pick(b, cols[1..])
    else Pick(b, cols[1..])
  }

  /** Open columns in natural order, and in the order in which the search tries them. */
  function Columns(b: Board): (r: seq<nat>)
    ensures |r| <= COLS && forall c: nat :: c in r <==> Open(b, c)
  {
    Pick(b, NATURAL)
  }

  function Order(b: Board): (r: seq<nat>)
    ensures |r| <= COLS && forall c: nat :: c in r <==> Open(b, c)
  {
    Pick(b, CENTRE)
  }

  function Off(c: nat): nat { if c < 3 then 3 - c else c - 3 }

  /** Column `c` is tried before column `d`: it is nearer to the middle, or as near and on the left. */
  predicate Sooner(c: nat, d: nat) {
    Off(c) < Off(d) || (Off(c) == Off(d) && c < d)
  }

  lemma {:induction false} PickKeepsOrder(b: Board, cols: seq<nat>)
    requires forall i, j :: 0 <= i < j < |cols| ==> Sooner(cols[i], cols[j])
    ensures forall i, j :: 0 <= i < j < |Pick(b, cols)| ==> Sooner(Pick(b, cols)[i], Pick(b, cols)[j])
  {
    hide Open, Sooner;
    if cols != [] {
      PickKeepsOrder(b, cols[1..]);
      var rest := Pick(b, cols[1..]);
      forall c | c in rest ensures Sooner(cols[0], c) { assert c in cols[1..]; }
      assert forall i :: 0 <= i < |rest| ==> rest[i] in rest;
    }
  }

  /** The search tries the open columns from the middle outwards. */
  lemma OrderIsCentral(b: Board, i: nat, j: nat)
    requires i < j < |Order(b)|
    ensures Sooner(Order(b)[i], Order(b)[j])
  {
    hide Open;
    PickKeepsOrder(b, CENTRE);
  }

  lemma OrderIsEmpty(b: Board)
    ensures Order(b) == [] <==> forall c: nat :: !Open(b, c)
  {
    hide Order, Open;
    if Order(b) != [] {
      assert Order(b)[0] in Order(b);
    }
  }

  function Largest(s: seq<int>): (m: int)
    requires s != []
    ensures m in s && forall i :: 0 <= i < |s| ==> s[i] <= m
  {
    if |s| == 1 then s[0] else Max(s[0], Largest(s[1..]))
  }

  function Smallest(s: seq<int>): (m: int)
    requires s != []
    ensures m in s && forall i :: 0 <= i < |s| ==> m <= s[i]
  {
    if |s| == 1 then s[0] else Min(s[0], Smallest(s[1..]))
  }

  // ---- the value of a position ----

  /** The game is decided, the board is full or the depth is spent. */
  predicate Leaf(b: Board, depth: nat) {
    Winner(b).Some? || Columns(b) == [] || depth == 0
  }

  /** `ply` drops from the root: faster wins and later losses are worth more. */
  function LeafValue(b: Board, mark: Mark, ply: nat): int {
    if Winner(b) == Some(mark) then WIN - ply
    else if Winner(b).Some? then ply - WIN
    else Evaluate(b, mark)
  }

  /** Plain minimax: all replies, no window. */
  function Minimax(b: Board, depth: nat, turn: Mark, mark: Mark, ply: nat): int
    decreases depth, COLS + 1
  {
    if Leaf(b, depth) then LeafValue(b, mark, ply)
    else
      var values := Replies(b, Columns(b), depth, turn, mark, ply);
      if turn == mark then Largest(values) else Smallest(values)
  }

  /** The value of playing column `c`. */
  function Reply(b: Board, c: nat, depth: nat, turn: Mark, mark: Mark, ply: nat): int
    requires Open(b, c) && depth > 0
    decreases depth, 0
  {
    Minimax(Drop(b, c, turn), depth - 1, Other(turn), mark, ply + 1)
  }

  function Replies(b: Board, cols: seq<nat>, depth: nat, turn: Mark, mark: Mark, ply: nat): (r: seq<int>)
    requires depth > 0 && forall c :: c in cols ==> Open(b, c)
    ensures |r| == |cols|
    decreases depth, |cols|
  {
    if cols == [] then []
    else [Reply(b, cols[0], depth, turn, mark, ply)] + Replies(b, cols[1..], depth, turn, mark, ply)
  }

  lemma {:induction false} ReplyAt(b: Board, cols: seq<nat>, depth: nat, turn: Mark, mark: Mark, ply: nat, i: nat)
    requires depth > 0 && (forall c :: c in cols ==> Open(b, c)) && i < |cols|
    ensures Replies(b, cols, depth, turn, mark, ply)[i] == Reply(b, cols[i], depth, turn, mark, ply)
  {
    hide Open, Reply;
    if i > 0 { ReplyAt(b, cols[1..], depth, turn, mark, ply, i - 1); }
  }

  /** Some reply has the position's value, and none is better for the player to move. */
  lemma MinimaxPicks(b: Board, depth: nat, turn: Mark, mark: Mark, ply: nat) returns (best: nat)
    requires !Leaf(b, depth) && depth > 0
    ensures Open(b, best) && Reply(b, best, depth, turn, mark, ply) == Minimax(b, depth, turn, mark, ply)
    ensures forall c: nat :: Open(b, c) ==>
      if turn == mark then Reply(b, c, depth, turn, mark, ply) <= Minimax(b, depth, turn, mark, ply)
      else Minimax(b, depth, turn, mark, ply) <= Reply(b, c, depth, turn, mark, ply)
  {
    var cols := Columns(b);
    assert cols != [];
    var values := Replies(b, cols, depth, turn, mark, ply);
    var v := Minimax(b, depth, turn, mark, ply);
    hide Open, Reply, Replies, Columns;
    assert v == if turn == mark then Largest(values) else Smallest(values);
    hide Minimax, Leaf;
    assert v in values;
    var i :| 0 <= i < |values| && values[i] == v;
    ReplyAt(b, cols, depth, turn, mark, ply, i);
    best := cols[i];
    assert best in cols;
    forall c: nat | Open(b, c)
      ensures if turn == mark then Reply(b, c, depth, turn, mark, ply) <= v else v <= Reply(b, c, depth, turn, mark, ply)
    {
      assert c in cols;
      var j :| 0 <= j < |cols| && cols[j] == c;
      ReplyAt(b, cols, depth, turn, mark, ply, j);
    }
  }

  lemma LeafHasNoReply(b: Board, depth: nat)
    requires !Leaf(b, depth)
    ensures Columns(b) != [] && Winner(b) == None && depth > 0
  {
  }

  /** Values of positions the search can meet: a ply is a disc on the board. Only a win is worth WIN - ply,
      only a loss ply - WIN, and both stay far inside the search window. */
  lemma {:induction false} MinimaxBounds(b: Board, depth: nat, turn: Mark, mark: Mark, ply: nat)
    requires ply <= Discs(b)
    ensures var v := Minimax(b, depth, turn, mark, ply);
      && ply - WIN <= v <= WIN - ply
      && (Winner(b) == Some(mark) <==> v == WIN - ply)
      && (Winner(b) == Some(Other(mark)) <==> v == ply - WIN)
    decreases depth
  {
    hide Drop, Discs, Winner, Evaluate, Columns, Minimax;
    if Leaf(b, depth) {
      LeafBounds(b, depth, turn, mark, ply);
    } else {
      LeafHasNoReply(b, depth);
      hide Leaf;
      var c := MinimaxPicks(b, depth, turn, mark, ply);
      DropAddsOne(b, c, turn);
      MinimaxBounds(Drop(b, c, turn), depth - 1, Other(turn), mark, ply + 1);
    }
  }

  lemma LeafBounds(b: Board, depth: nat, turn: Mark, mark: Mark, ply: nat)
    requires ply <= Discs(b) && Leaf(b, depth)
    ensures var v := Minimax(b, depth, turn, mark, ply);
      && ply - WIN <= v <= WIN - ply
      && (Winner(b) == Some(mark) <==> v == WIN - ply)
      && (Winner(b) == Some(Other(mark)) <==> v == ply - WIN)
  {
    EvaluateIsSmall(b, mark);
    assert ply <= CELLS;
    hide Discs, Winner, Evaluate, Columns;
  }

  // ---- alpha-beta ----

  function AlphaBeta(b: Board, depth: nat, alpha: int, beta: int, turn: Mark, mark: Mark, ply: nat): int
    decreases depth, COLS + 1
  {
    if Leaf(b, depth) then LeafValue(b, mark, ply)
    else if turn == mark then Raise(b, Order(b), depth, alpha, beta, -LIMIT, mark, ply)
    else Lower(b, Order(b), depth, alpha, beta, LIMIT, mark, ply)
  }

  /** The maximising loop over the columns still to try, `best` so far. */
  function Raise(b: Board, cols: seq<nat>, depth: nat, alpha: int, beta: int, best: int, mark: Mark, ply: nat): int
    requires depth > 0 && forall c :: c in cols ==> Open(b, c)
    decreases depth, |cols|
  {
    if cols == [] then best
    else
      var v := AlphaBeta(Drop(b, cols[0], mark), depth - 1, alpha, beta, Other(mark), mark, ply + 1);
      var best' := Max(best, v);
      var alpha' := Max(alpha, best');
      if alpha' >= beta then best' else Raise(b, cols[1..], depth, alpha', beta, best', mark, ply)
  }

  function Lower(b: Board, cols: seq<nat>, depth: nat, alpha: int, beta: int, best: int, mark: Mark, ply: nat): int
    requires depth > 0 && forall c :: c in cols ==> Open(b, c)
    decreases depth, |cols|
  {
    if cols == [] then best
    else
      var v := AlphaBeta(Drop(b, cols[0], Other(mark)), depth - 1, alpha, beta, mark, mark, ply + 1);
      var best' := Min(best, v);
      var beta' := Min(beta, best');
      if beta' <= alpha then best' else Lower(b, cols[1..], depth, alpha, beta', best', mark, ply)
  }

  // ---- fail-soft ----

  /** `v` is exact inside the window; at or below it an upper bound, at or above it a lower bound. */
  predicate Brackets(v: int, exact: int, alpha: int, beta: int) {
    && (v <= alpha ==> exact <= v)
    && (v >= beta ==> exact >= v)
    && (alpha < v < beta ==> exact == v)
  }

  /** The best value over a list of columns, -LIMIT for none; and the worst, LIMIT for none. */
  function Top(b: Board, cols: seq<nat>, depth: nat, mark: Mark, ply: nat): (t: int)
    requires depth > 0 && forall c :: c in cols ==> Open(b, c)
    ensures t >= -LIMIT
  {
    if cols == [] then -LIMIT else Max(Reply(b, cols[0], depth, mark, mark, ply), Top(b, cols[1..], depth, mark, ply))
  }

  function Bottom(b: Board, cols: seq<nat>, depth: nat, mark: Mark, ply: nat): (t: int)
    requires depth > 0 && forall c :: c in cols ==> Open(b, c)
    ensures t <= LIMIT
  {
    if cols == [] then LIMIT
    else Min(Reply(b, cols[0], depth, Other(mark), mark, ply), Bottom(b, cols[1..], depth, mark, ply))
  }

  lemma {:induction false} TopIs(b: Board, cols: seq<nat>, depth: nat, mark: Mark, ply: nat)
    requires depth > 0 && forall c :: c in cols ==> Open(b, c)
    ensures var t := Top(b, cols, depth, mark, ply);
      && (forall c :: c in cols ==> Reply(b, c, depth, mark, mark, ply) <= t)
      && (t == -LIMIT || exists c :: c in cols && Reply(b, c, depth, mark, mark, ply) == t)
  {
    hide Open, Reply;
    if cols != [] {
      TopIs(b, cols[1..], depth, mark, ply);
      assert cols[0] in cols && forall c :: c in cols[1..] ==> c in cols;
    }
  }

  lemma {:induction false} BottomIs(b: Board, cols: seq<nat>, depth: nat, mark: Mark, ply: nat)
    requires depth > 0 && forall c :: c in cols ==> Open(b, c)
    ensures var t := Bottom(b, cols, depth, mark, ply);
      && (forall c :: c in cols ==> t <= Reply(b, c, depth, Other(mark), mark, ply))
      && (t == LIMIT || exists c :: c in cols && Reply(b, c, depth, Other(mark), mark, ply) == t)
  {
    hide Open, Reply;
    if cols != [] {
      BottomIs(b, cols[1..], depth, mark, ply);
      assert cols[0] in cols && forall c :: c in cols[1..] ==> c in cols;
    }
  }

  /** The order in which columns are tried does not matter to minimax. */
  lemma OrderIsMinimax(b: Board, depth: nat, turn: Mark, mark: Mark, ply: nat)
    requires !Leaf(b, depth) && ply <= Discs(b)
    ensures depth > 0
    ensures Minimax(b, depth, turn, mark, ply)
      == if turn == mark then Top(b, Order(b), depth, mark, ply) else Bottom(b, Order(b), depth, mark, ply)
  {
    LeafHasNoReply(b, depth);
    MinimaxBounds(b, depth, turn, mark, ply);
    var c := MinimaxPicks(b, depth, turn, mark, ply);
    hide Minimax, Reply, Discs, Leaf, Columns, Winner, Open, Order;
    assert c in Order(b) && ply <= CELLS;
    TopIs(b, Order(b), depth, mark, ply);
    BottomIs(b, Order(b), depth, mark, ply);
    hide Top, Bottom;
  }

  /** The fail-soft theorem, for every board, depth and non-empty window. */
  lemma {:induction false} FailSoft(b: Board, depth: nat, alpha: int, beta: int, turn: Mark, mark: Mark, ply: nat)
    requires ply <= Discs(b) && alpha < beta
    ensures Brackets(AlphaBeta(b, depth, alpha, beta, turn, mark, ply), Minimax(b, depth, turn, mark, ply), alpha, beta)
    decreases depth, COLS + 1
  {
    hide LeafValue, Minimax, Raise, Lower, Top, Bottom, Discs, Order, Open;
    if !Leaf(b, depth) {
      OrderIsMinimax(b, depth, turn, mark, ply);
      if turn == mark {
        RaiseSoft(b, Order(b), depth, alpha, alpha, beta, -LIMIT, -LIMIT, mark, ply);
      } else {
        LowerSoft(b, Order(b), depth, alpha, beta, beta, LIMIT, LIMIT, mark, ply);
      }
    } else {
      LeafIsExact(b, depth, alpha, beta, turn, mark, ply);
    }
  }

  lemma LeafIsExact(b: Board, depth: nat, alpha: int, beta: int, turn: Mark, mark: Mark, ply: nat)
    requires Leaf(b, depth)
    ensures AlphaBeta(b, depth, alpha, beta, turn, mark, ply) == Minimax(b, depth, turn, mark, ply)
  {
  }

  /** `best` is what a maximising loop holds and `seen` the true maximum over the columns tried; `alpha` is the
      window's bound `alpha0`, raised to `best` once a column has been tried. */
  ghost predicate Raised(best: int, seen: int, alpha0: int, alpha: int, beta: int) {
    && alpha0 < beta && Brackets(best, seen, alpha0, beta) && seen >= -LIMIT
    && (alpha == Max(alpha0, best) || (alpha == alpha0 && best == seen == -LIMIT))
  }

  lemma RaiseStep(v: int, exact: int, alpha0: int, alpha: int, beta: int, best: int, seen: int)
    requires Raised(best, seen, alpha0, alpha, beta) && alpha < beta && Brackets(v, exact, alpha, beta) && exact > -LIMIT
    ensures Raised(Max(best, v), Max(seen, exact), alpha0, Max(alpha, Max(best, v)), beta)
  {
  }

  lemma RaiseStops(best: int, seen: int, alpha0: int, alpha: int, beta: int, rest: int)
    requires Raised(best, seen, alpha0, alpha, beta) && alpha >= beta
    ensures Brackets(best, Max(seen, rest), alpha0, beta)
  {
  }

  lemma RaiseDone(best: int, seen: int, alpha0: int, alpha: int, beta: int)
    requires Raised(best, seen, alpha0, alpha, beta)
    ensures Brackets(best, Max(seen, -LIMIT), alpha0, beta)
  {
  }

  lemma MaxAssociates(a: int, b: int, c: int)
    ensures Max(Max(a, b), c) == Max(a, Max(b, c))
  {
  }

  lemma {:induction false} RaiseSoft(b: Board, cols: seq<nat>, depth: nat, alpha0: int, alpha: int, beta: int, best: int,
                                     seen: int, mark: Mark, ply: nat)
    requires depth > 0 && (forall c :: c in cols ==> Open(b, c)) && ply <= Discs(b)
    requires Raised(best, seen, alpha0, alpha, beta) && alpha < beta
    ensures Brackets(Raise(b, cols, depth, alpha, beta, best, mark, ply), Max(seen, Top(b, cols, depth, mark, ply)), alpha0, beta)
    decreases depth, |cols|
  {
    hide Open, Drop, Minimax, AlphaBeta, Discs, Brackets, Max, Raised;
    if cols == [] {
      RaiseDone(best, seen, alpha0, alpha, beta);
    } else {
      var child := Drop(b, cols[0], mark);
      DropAddsOne(b, cols[0], mark);
      FailSoft(child, depth - 1, alpha, beta, Other(mark), mark, ply + 1);
      MinimaxBounds(child, depth - 1, Other(mark), mark, ply + 1);
      var v := AlphaBeta(child, depth - 1, alpha, beta, Other(mark), mark, ply + 1);
      var exact := Reply(b, cols[0], depth, mark, mark, ply);
      var rest := Top(b, cols[1..], depth, mark, ply);
      RaiseStep(v, exact, alpha0, alpha, beta, best, seen);
      MaxAssociates(seen, exact, rest);
      if Max(alpha, Max(best, v)) < beta {
        RaiseSoft(b, cols[1..], depth, alpha0, Max(alpha, Max(best, v)), beta, Max(best, v), Max(seen, exact), mark, ply);
      } else {
        RaiseStops(Max(best, v), Max(seen, exact), alpha0, Max(alpha, Max(best, v)), beta, rest);
      }
    }
  }

  ghost predicate Lowered(best: int, seen: int, alpha: int, beta0: int, beta: int) {
    && alpha < beta0 && Brackets(best, seen, alpha, beta0) && seen <= LIMIT
    && (beta == Min(beta0, best) || (beta == beta0 && best == seen == LIMIT))
  }

  lemma LowerStep(v: int, exact: int, alpha: int, beta0: int, beta: int, best: int, seen: int)
    requires Lowered(best, seen, alpha, beta0, beta) && alpha < beta && Brackets(v, exact, alpha, beta) && exact < LIMIT
    ensures Lowered(Min(best, v), Min(seen, exact), alpha, beta0, Min(beta, Min(best, v)))
  {
  }

  lemma LowerStops(best: int, seen: int, alpha: int, beta0: int, beta: int, rest: int)
    requires Lowered(best, seen, alpha, beta0, beta) && beta <= alpha
    ensures Brackets(best, Min(seen, rest), alpha, beta0)
  {
  }

  lemma LowerDone(best: int, seen: int, alpha: int, beta0: int, beta: int)
    requires Lowered(best, seen, alpha, beta0, beta)
    ensures Brackets(best, Min(seen, LIMIT), alpha, beta0)
  {
  }

  lemma MinAssociates(a: int, b: int, c: int)
    ensures Min(Min(a, b), c) == Min(a, Min(b, c))
  {
  }

  lemma {:induction false} LowerSoft(b: Board, cols: seq<nat>, depth: nat, alpha: int, beta0: int, beta: int, best: int,
                                     seen: int, mark: Mark, ply: nat)
    requires depth > 0 && (forall c :: c in cols ==> Open(b, c)) && ply <= Discs(b)
    requires Lowered(best, seen, alpha, beta0, beta) && alpha < beta
    ensures Brackets(Lower(b, cols, depth, alpha, beta, best, mark, ply), Min(seen, Bottom(b, cols, depth, mark, ply)), alpha,
                     beta0)
    decreases depth, |cols|
  {
    hide Open, Drop, Minimax, AlphaBeta, Discs, Brackets, Min, Lowered;
    if cols == [] {
      LowerDone(best, seen, alpha, beta0, beta);
    } else {
      var child := Drop(b, cols[0], Other(mark));
      DropAddsOne(b, cols[0], Other(mark));
      FailSoft(child, depth - 1, alpha, beta, mark, mark, ply + 1);
      MinimaxBounds(child, depth - 1, mark, mark, ply + 1);
      var v := AlphaBeta(child, depth - 1, alpha, beta, mark, mark, ply + 1);
      var exact := Reply(b, cols[0], depth, Other(mark), mark, ply);
      var rest := Bottom(b, cols[1..], depth, mark, ply);
      LowerStep(v, exact, alpha, beta0, beta, best, seen);
      MinAssociates(seen, exact, rest);
      if Min(beta, Min(best, v)) > alpha {
        LowerSoft(b, cols[1..], depth, alpha, beta0, Min(beta, Min(best, v)), Min(best, v), Min(seen, exact), mark, ply);
      } else {
        LowerStops(Min(best, v), Min(seen, exact), alpha, beta0, Min(beta, Min(best, v)), rest);
      }
    }
  }

  /** With the root's window the search returns exactly the minimax value. */
  lemma RootWindowIsExact(b: Board, depth: nat, turn: Mark, mark: Mark, ply: nat)
    requires ply <= Discs(b)
    ensures AlphaBeta(b, depth, -LIMIT, LIMIT, turn, mark, ply) == Minimax(b, depth, turn, mark, ply)
  {
    FailSoft(b, depth, -LIMIT, LIMIT, turn, mark, ply);
    MinimaxBounds(b, depth, turn, mark, ply);
    hide AlphaBeta, Minimax;
    assert ply <= CELLS;
    hide Discs;
  }
}
