/** What the column chosen at a completed depth is good for (botframework/connect4Listener.py). */
module ConnectChoice {
  import opened Seats
  import opened ConnectBoard
  import opened ConnectScore
  import opened ConnectSearch

  /** The minimax value, at search depth `d`, of `mark` playing column `c`. */
  function RootValue(b: Board, c: nat, mark: Mark, d: nat): int
    requires Open(b, c) && d > 0
  {
    Reply(b, c, d, mark, mark, 0)
  }

  /** `cols[i]` is the first of `cols` with the greatest value at depth `d`. */
  ghost predicate FirstBest(b: Board, cols: seq<nat>, i: nat, mark: Mark, d: nat) {
    && d > 0 && i < |cols| && (forall c :: c in cols ==> Open(b, c))
    && (forall j :: 0 <= j < |cols| ==> RootValue(b, cols[j], mark, d) <= RootValue(b, cols[i], mark, d))
    && (forall j :: 0 <= j < i ==> RootValue(b, cols[j], mark, d) < RootValue(b, cols[i], mark, d))
  }

  /** Column `c` is the bot's choice at completed depth `d`. */
  ghost predicate Chosen(b: Board, c: nat, mark: Mark, d: nat) {
    exists i :: 0 <= i < |Order(b)| && Order(b)[i] == c && FirstBest(b, Order(b), i, mark, d)
  }

  lemma ChosenIsBest(b: Board, c: nat, mark: Mark, d: nat, other: nat)
    requires Chosen(b, c, mark, d) && Open(b, other)
    ensures d > 0 && Open(b, c) && RootValue(b, other, mark, d) <= RootValue(b, c, mark, d)
  {
    hide RootValue, Open;
    assert other in Order(b);
    assert c in Order(b);
    hide Order;
  }

  /** The choice is the open column of greatest value; of several the one nearest to the middle, and of two such the left. */
  lemma ChosenMeans(b: Board, c: nat, mark: Mark, d: nat)
    requires d > 0
    ensures Chosen(b, c, mark, d) <==>
      Open(b, c) && forall o: nat :: Open(b, o) && o != c ==>
        RootValue(b, o, mark, d) < RootValue(b, c, mark, d)
        || (RootValue(b, o, mark, d) == RootValue(b, c, mark, d) && Sooner(c, o))
  {
    hide RootValue, Open, Order, Sooner;
    var cols := Order(b);
    forall o: nat ensures Open(b, o) <==> exists i :: 0 <= i < |cols| && cols[i] == o { assert o in cols <==> Open(b, o); }
    if Chosen(b, c, mark, d) {
      var i :| 0 <= i < |cols| && cols[i] == c && FirstBest(b, cols, i, mark, d);
      forall o: nat | Open(b, o) && o != c
        ensures RootValue(b, o, mark, d) < RootValue(b, c, mark, d)
          || (RootValue(b, o, mark, d) == RootValue(b, c, mark, d) && Sooner(c, o)) {
        var j :| 0 <= j < |cols| && cols[j] == o;
        if i < j { OrderIsCentral(b, i, j); }
      }
    }
    if Open(b, c) && forall o: nat :: Open(b, o) && o != c ==>
        RootValue(b, o, mark, d) < RootValue(b, c, mark, d)
        || (RootValue(b, o, mark, d) == RootValue(b, c, mark, d) && Sooner(c, o)) {
      var i :| 0 <= i < |cols| && cols[i] == c;
      forall o | o in cols ensures Open(b, o) { }
      forall j | 0 <= j < |cols| ensures RootValue(b, cols[j], mark, d) <= RootValue(b, c, mark, d) { assert cols[j] in cols; }
      forall j | 0 <= j < i ensures RootValue(b, cols[j], mark, d) < RootValue(b, c, mark, d) {
        assert cols[j] in cols;
        OrderIsCentral(b, j, i);
        NotBothSooner(cols[j], c);
      }
      assert FirstBest(b, cols, i, mark, d);
    }
  }

  lemma NotBothSooner(c: nat, d: nat)
    ensures !(Sooner(c, d) && Sooner(d, c)) && !Sooner(c, c)
  {
  }

  /** There is exactly one choice. */
  lemma ChosenIsUnique(b: Board, c: nat, c': nat, mark: Mark, d: nat)
    requires Chosen(b, c, mark, d) && Chosen(b, c', mark, d)
    ensures c == c'
  {
    hide RootValue, Open, Order;
  }

  lemma RootBounds(b: Board, c: nat, mark: Mark, d: nat)
    requires Open(b, c) && d > 0
    ensures var v := RootValue(b, c, mark, d);
      && 1 - WIN <= v <= WIN - 1
      && (Winner(Drop(b, c, mark)) == Some(mark) <==> v == WIN - 1)
      && (Winner(Drop(b, c, mark)) == Some(Other(mark)) <==> v == 1 - WIN)
  {
    hide Minimax, Winner, Drop, Discs, Open;
    DropAddsOne(b, c, mark);
    MinimaxBounds(Drop(b, c, mark), d - 1, Other(mark), mark, 1);
  }

  /** Dropping in column `c` wins for `m`. */
  predicate WinsWith(b: Board, c: nat, m: Mark) {
    Open(b, c) && Winner(Drop(b, c, m)) == Some(m)
  }

  /** If some column wins at once, the choice of any completed depth does. */
  lemma WinsAtOnce(b: Board, c: nat, mark: Mark, d: nat, winning: nat)
    requires Chosen(b, c, mark, d) && WinsWith(b, winning, mark)
    ensures WinsWith(b, c, mark)
  {
    ChosenIsBest(b, c, mark, d, winning);
    RootBounds(b, c, mark, d);
    RootBounds(b, winning, mark, d);
    hide Chosen, RootValue, Winner, Drop, Open;
  }

  /** After `mark` plays `c` the other side cannot win with its next drop. */
  predicate Safe(b: Board, c: nat, mark: Mark)
    requires Open(b, c)
  {
    var b' := Drop(b, c, mark);
    Winner(b') == Some(mark) || forall r: nat | r < COLS :: !WinsWith(b', r, Other(mark))
  }

  /** At depth two and more, a safe column is worth more than ply two's loss, any other column exactly that. */
  lemma SafetyShows(b: Board, c: nat, mark: Mark, d: nat)
    requires Open(b, c) && d >= 2 && Winner(b).None?
    ensures Safe(b, c, mark) <==> RootValue(b, c, mark, d) > 2 - WIN
  {
    hide Winner, Drop, Discs, Four, Open, WinsWith;
    var b' := Drop(b, c, mark);
    DropAddsOne(b, c, mark);
    OnlyTheMoverWins(b, c, mark);
    RootBounds(b, c, mark, d);
    if Winner(b').None? {
      if Columns(b') == [] {
        NoReplySafe(b, c, mark, d);
      } else {
        RepliesShow(b', mark, d - 1);
        assert RootValue(b, c, mark, d) == Minimax(b', d - 1, Other(mark), mark, 1);
        hide Minimax;
      }
    }
  }

  lemma NoReplySafe(b: Board, c: nat, mark: Mark, d: nat)
    requires Open(b, c) && d >= 2 && Winner(Drop(b, c, mark)).None? && Columns(Drop(b, c, mark)) == []
    ensures Safe(b, c, mark) && RootValue(b, c, mark, d) > 2 - WIN
  {
    var b' := Drop(b, c, mark);
    assert forall r: nat :: Open(b', r) ==> r in Columns(b');
    EvaluateIsSmall(b', mark);
    assert RootValue(b, c, mark, d) == Minimax(b', d - 1, Other(mark), mark, 1) == Evaluate(b', mark);
    hide Evaluate, Drop, Winner, Minimax, RootValue;
  }

  /** With a reply to come, the position is lost at ply two exactly when some reply wins for the other side. */
  lemma RepliesShow(b: Board, mark: Mark, depth: nat)
    requires Winner(b).None? && Columns(b) != [] && depth > 0 && Discs(b) > 0
    ensures Minimax(b, depth, Other(mark), mark, 1) > 2 - WIN
      <==> forall r: nat | r < COLS :: !WinsWith(b, r, Other(mark))
  {
    assert !Leaf(b, depth);
    var c := MinimaxPicks(b, depth, Other(mark), mark, 1);
    assert c < COLS;
    hide Minimax, Columns, Leaf, Open, Reply, WinsWith, Discs;
    forall r: nat | Open(b, r)
      ensures Reply(b, r, depth, Other(mark), mark, 1) >= 2 - WIN
      ensures WinsWith(b, r, Other(mark)) <==> Reply(b, r, depth, Other(mark), mark, 1) == 2 - WIN
    {
      ReplyLoses(b, r, mark, depth);
    }
    assert forall r: nat :: WinsWith(b, r, Other(mark)) ==> Open(b, r) by { WinsAreOpen(b, Other(mark)); }
  }

  lemma WinsAreOpen(b: Board, m: Mark)
    ensures forall r: nat :: WinsWith(b, r, m) ==> Open(b, r)
  {
  }

  lemma ReplyLoses(b: Board, r: nat, mark: Mark, depth: nat)
    requires Open(b, r) && depth > 0 && Discs(b) > 0
    ensures Reply(b, r, depth, Other(mark), mark, 1) >= 2 - WIN
    ensures WinsWith(b, r, Other(mark)) <==> Reply(b, r, depth, Other(mark), mark, 1) == 2 - WIN
  {
    hide Minimax, Winner, Drop, Discs, Open;
    DropAddsOne(b, r, Other(mark));
    MinimaxBounds(Drop(b, r, Other(mark)), depth - 1, mark, mark, 2);
  }

  /** On a board nobody has won: if some column is safe, the choice of any completed depth from two on is safe. */
  lemma AvoidsTheLoss(b: Board, c: nat, mark: Mark, d: nat, safe: nat)
    requires Chosen(b, c, mark, d) && d >= 2 && Winner(b).None? && Open(b, safe) && Safe(b, safe, mark)
    ensures Open(b, c) && Safe(b, c, mark)
  {
    ChosenIsBest(b, c, mark, d, safe);
    hide Chosen, RootValue, Winner, Open, Safe;
    SafetyShows(b, c, mark, d);
    SafetyShows(b, safe, mark, d);
  }
}
