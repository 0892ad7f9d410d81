/** What is dealt, posted and moved at the Hold'em table, and who acts next, said of seats, cards and chips alone
  (botframework/holdem_game.py). */
module HoldemPlay {
  import opened Seats
  import opened Numbers
  import opened HandRank
  import opened PlayingCards
  import opened HoldemRules
  import opened HoldemProofs
  import opened HoldemRuns
  import opened HoldemDeals
  import opened HoldemCards
  import Ring

  // ---- cards ----

  lemma {:induction false} HoleFromTheEnd(seats: seq<Player>, deck: seq<Card>, i: nat)
    requires Distinct(seats) && |deck| >= 2 * |seats| && i < |seats|
    ensures DealHole(seats, deck).0[seats[i]] == PairAt(deck, i)
    decreases |seats|
  {
    HoleStep(seats, deck);
    hide DealHole, Distinct, PairAt;
    if i > 0 {
      PairFurther(deck, i);
      assert seats[1..][i - 1] == seats[i];
      HoleFromTheEnd(seats[1..], deck[..|deck| - 2], i - 1);
    }
  }

  lemma {:induction false} HoleLeaves(seats: seq<Player>, deck: seq<Card>)
    requires |deck| >= 2 * |seats|
    ensures DealHole(seats, deck).1 == deck[..|deck| - 2 * |seats|]
    decreases |seats|
  {
    if seats != [] { HoleLeaves(seats[1..], deck[..|deck| - 2]); }
  }

  lemma HoleStep(seats: seq<Player>, deck: seq<Card>)
    requires Distinct(seats) && seats != [] && |deck| >= 2 * |seats|
    ensures Distinct(seats[1..]) && DealHole(seats, deck).0[seats[0]] == PairAt(deck, 0)
    ensures forall p :: p in seats[1..] ==> DealHole(seats, deck).0[p] == DealHole(seats[1..], deck[..|deck| - 2]).0[p]
  {
    assert seats[0] !in seats[1..] && Distinct(seats[1..]);
    hide Distinct, DealHole;
    HoleIs(seats, deck);
  }

  lemma HoleIs(seats: seq<Player>, deck: seq<Card>)
    requires seats != [] && |deck| >= 2 * |seats|
    ensures DealHole(seats, deck).0 == map[seats[0] := PairAt(deck, 0)] + DealHole(seats[1..], deck[..|deck| - 2]).0
  {
  }

  /** `board` is `was` with the last cards of `deck` put on it, the last one first, and `left` is what stays. */
  ghost predicate PutOn(was: seq<Card>, deck: seq<Card>, board: seq<Card>, left: seq<Card>) {
    && was <= board && |board| - |was| <= |deck| && left == deck[..|deck| - (|board| - |was|)]
    && forall i :: |was| <= i < |board| ==> board[i] == deck[|deck| - 1 - (i - |was|)]
  }

  lemma {:induction false} BoardFromTheEnd(board: seq<Card>, deck: seq<Card>, need: nat)
    requires |board| <= need <= |board| + |deck|
    ensures var d := DealBoard(board, deck, need); |d.0| == need && PutOn(board, deck, d.0, d.1)
    decreases |deck|
  {
    if |board| < need {
      var n := |deck|;
      BoardFromTheEnd(board + [deck[n - 1]], deck[..n - 1], need);
      var d := DealBoard(board, deck, need).0;
      assert d[|board|] == (board + [deck[n - 1]])[|board|];
      forall i | |board| <= i < |d| ensures d[i] == deck[n - 1 - (i - |board|)] {
        if i > |board| { assert d[i] == deck[..n - 1][n - 2 - (i - |board| - 1)]; }
      }
    }
  }

  /** A hand is dealt seat by seat off the end of the deck, with nothing bet and nobody out. */
  lemma DealtIs(seats: seq<Player>, button: nat, stacks: map<Player, int>, sb: int, bb: int, deck: seq<Card>)
    requires Distinct(seats) && |seats| >= 2 && stacks.Keys == Elems(seats) && |deck| >= 2 * |seats| + 5
    ensures var d := Dealt(seats, button, stacks, sb, bb, deck);
      && d.seats == seats && d.button == button % |seats| && d.sb == sb && d.bb == bb && d.stacks == stacks
      && (forall i: nat :: i < |seats| ==> d.hole[seats[i]] == PairAt(deck, i))
      && d.deck == deck[..|deck| - 2 * |seats|] && d.board == [] && d.street == Preflop && d.status == Betting
      && d.contrib == d.streetBet == (map p | p in seats :: 0)
      && d.folded == d.allin == d.acted == d.left == {} && d.winners == map[]
  {
    HoleLeaves(seats, deck);
    hide DealHole, PairAt;
    forall i: nat | i < |seats| ensures Dealt(seats, button, stacks, sb, bb, deck).hole[seats[i]] == PairAt(deck, i) {
      HoleFromTheEnd(seats, deck, i);
    }
  }

  // ---- turns ----

  /** The player `k` seats clockwise of seat `i`. */
  function Round(h: Hand, i: nat, k: nat): Player
    requires h.seats != []
  {
    h.seats[(i + k) % |h.seats|]
  }

  /** `p` is the first player who can act, going clockwise from the seat after seat `i` once around the table. */
  ghost predicate FirstAfter(h: Hand, i: nat, p: Player)
    requires h.seats != []
  {
    exists k: nat :: 1 <= k <= |h.seats| && Round(h, i, k) == p && IsAble(h, p)
      && forall j: nat :: 1 <= j < k ==> !IsAble(h, Round(h, i, j))
  }

  lemma RingSeat(h: Hand, i: nat, k: nat)
    requires i < |h.seats| && k <= |h.seats|
    ensures h.seats[Ring.Seat(i, k, |h.seats|)] == Round(h, i, k)
    ensures AbleMarks(h)[Ring.Seat(i, k, |h.seats|)] == IsAble(h, Round(h, i, k))
  {
  }

  /** The walk of the source finds the first able player past the seat it starts from. */
  lemma WalkIsFirst(h: Hand, i: nat)
    requires Shaped(h) && i < |h.seats| && Able(h) != []
    ensures Clockwise(h, i).Some? && FirstAfter(h, i, Clockwise(h, i).value)
  {
    WalkFinds(h, i);
    Ring.NextExists(AbleMarks(h), i);
    hide Shaped, Able, Round, IsAble, AbleMarks, Ring.Seat;
    var d := Ring.Search(AbleMarks(h), i, 1);
    RingSeat(h, i, d);
    forall j: nat | 1 <= j < d ensures !IsAble(h, Round(h, i, j)) { RingSeat(h, i, j); }
  }

  /** When the turn passes it goes to the first able player clockwise of the one who acted, and nothing else changes. */
  lemma TurnGoesClockwise(h: Hand, p: Player)
    requires Open(h) && p in h.seats && Able(h) != []
    ensures var r := PassOn(h, p);
      r == h.(toAct := r.toAct) && r.toAct.Some? && FirstAfter(h, IndexOf(h.seats, p), r.toAct.value)
  {
    assert Shaped(h);
    hide Clockwise, FirstAfter, PassOn, Able, Shaped, Open, IndexOf, Ring.Next;
    WalkFinds(h, IndexOf(h.seats, p));
    PassOnIs(h, p);
    WalkIsFirst(h, IndexOf(h.seats, p));
  }

  // ---- streets ----

  /** The number of cards on the board while a street is bet on. */
  function BoardOn(s: Street): nat {
    if s == Preflop then 0 else if s == Flop then 3 else if s == Turn then 4 else 5
  }

  function After(s: Street): Street
    requires s != River
  {
    if s == Preflop then Flop else if s == Flop then Turn else River
  }

  lemma {:induction false} RunsOut(h: Hand)
    requires Shaped(h) && h.status.Betting? && |Able(h)| < 2
    ensures AdvanceStreet(h).status.Done?
    decreases StreetsLeft(h.street)
  {
    hide Live, Showdown;
    if !h.street.River? {
      var h1 := OpenStreet(h, NextStreet(h.street));
      assert Able(h1) == Able(h) by { hide Only; }
      hide Able;
      RunsOut(h1);
    }
  }

  /** A round that closes with two players able to act before the river opens the very next street: its cards come off the
      end of the deck, all bets of the street are nil, the least raise is the big blind, nobody has acted, and the first able
      player clockwise of the button is to act. In every other case the hand is over. */
  lemma StreetOpens(h: Hand)
    requires Open(h)
    ensures var r := AdvanceStreet(h);
      if h.street == River || |Able(h)| < 2 then r.status.Done?
      else
        && r.status == Betting && r.street == After(h.street)
        && |r.board| == BoardOn(r.street) && PutOn(h.board, h.deck, r.board, r.deck)
        && r.streetBet == (map p | p in h.seats :: 0) && r.toCall == 0 && r.minRaise == h.bb
        && r.lastRaiser == None && r.acted == {}
        && r.toAct.Some? && FirstAfter(h, h.button, r.toAct.value)
        && r.seats == h.seats && r.stacks == h.stacks && r.contrib == h.contrib && r.folded == h.folded && r.allin == h.allin
  {
    assert Shaped(h);
    hide Able, FirstAfter, PutOn, Open, OpenStreet, DealBoard, Shaped;
    if h.street != River && |Able(h)| >= 2 {
      OpenedIs(h);
      var h1 := OpenStreet(h, NextStreet(h.street));
      WalkIsFirst(h1, h1.button);
      SameFirst(h, h1, h.button, Clockwise(h1, h1.button).value);
      AdvanceOpens(h);
      hide Clockwise, AdvanceStreet;
    } else if h.street != River {
      RunsOut(h);
    }
  }

  lemma AdvanceOpens(h: Hand)
    requires Shaped(h) && h.status.Betting? && h.street != River
    ensures var h1 := OpenStreet(h, NextStreet(h.street));
      |Able(h1)| >= 2 ==> AdvanceStreet(h) == Aim(h1, Clockwise(h1, h1.button))
  {
    hide Able, OpenStreet, Clockwise;
  }

  lemma OpenedIs(h: Hand)
    requires Shaped(h) && h.status.Betting? && h.street != River
    ensures var h1 := OpenStreet(h, NextStreet(h.street));
      && h1.street == After(h.street) && |h1.board| == BoardOn(h1.street) && PutOn(h.board, h.deck, h1.board, h1.deck)
      && h1.streetBet == (map p | p in h.seats :: 0) && h1.toCall == 0 && h1.minRaise == h.bb
      && h1.lastRaiser == None && h1.acted == {} && h1.button == h.button < |h1.seats|
      && h1.seats == h.seats && h1.stacks == h.stacks && h1.contrib == h.contrib && h1.folded == h.folded && h1.allin == h.allin
      && Able(h1) == Able(h)
  {
    ShapedForStreet(h);
    hide Able, DealBoard, PutOn, Shaped;
    BoardFromTheEnd(h.board, h.deck, BoardSize(NextStreet(h.street)));
    SameAble(h, OpenStreet(h, NextStreet(h.street)));
  }

  lemma ShapedForStreet(h: Hand)
    requires Shaped(h) && h.status.Betting?
    ensures h.button < |h.seats| && |h.board| == BoardSize(h.street) && |h.board| + |h.deck| >= 5
  {
  }

  lemma SameAble(h: Hand, h1: Hand)
    requires h1.seats == h.seats && h1.folded == h.folded && h1.allin == h.allin
    ensures Able(h1) == Able(h)
  {
  }

  lemma SameFirst(h: Hand, h1: Hand, i: nat, p: Player)
    requires h.seats != [] && h1.seats == h.seats && h1.folded == h.folded && h1.allin == h.allin && FirstAfter(h1, i, p)
    ensures FirstAfter(h, i, p)
  {
    var k: nat :| 1 <= k <= |h1.seats| && Round(h1, i, k) == p && IsAble(h1, p)
      && forall j: nat :: 1 <= j < k ==> !IsAble(h1, Round(h1, i, j));
    assert Round(h, i, k) == p;
    forall j: nat | 1 <= j < k ensures !IsAble(h, Round(h, i, j)) { assert Round(h1, i, j) == Round(h, i, j); }
  }

  // ---- the start of a hand ----

  /** Heads-up the button posts the small blind, otherwise the seat after it; the seat after that one posts the big blind. */
  function SmallBlind(n: nat, button: nat): nat
    requires n >= 2
  {
    if n == 2 then button % 2 else (button + 1) % n
  }

  function BigBlind(n: nat, button: nat): nat
    requires n >= 2
  {
    (SmallBlind(n, button) + 1) % n
  }

  function Least(a: int, b: int): int { if a < b then a else b }

  /** What seat number `i` with `stack` chips puts in before the first action. */
  function BlindOf(n: nat, button: nat, i: nat, sb: int, bb: int, stack: int): int
    requires n >= 2
  {
    if i == SmallBlind(n, button) then Least(sb, stack) else if i == BigBlind(n, button) then Least(bb, stack) else 0
  }

  lemma BlindSeats(h: Hand)
    requires Shaped(h)
    ensures SmallSeat(h) == SmallBlind(|h.seats|, h.button) && BigSeat(h) == BigBlind(|h.seats|, h.button)
    ensures SmallBlind(|h.seats|, h.button) < |h.seats| && BigBlind(|h.seats|, h.button) < |h.seats|
  {
    if |h.seats| == 2 { Ring.OneTurn(h.button, 2); }
  }

  lemma PostIs(h: Hand, p: Player, amount: int)
    requires Shaped(h) && p in h.seats
    ensures var a := Least(amount, h.stacks[p]);
      Post(h, p, amount) == h.(stacks := h.stacks[p := h.stacks[p] - a], contrib := h.contrib[p := h.contrib[p] + a],
                               streetBet := h.streetBet[p := h.streetBet[p] + a],
                               allin := if h.stacks[p] == a then h.allin + {p} else h.allin)
  {
    HasLedgers(h, p);
    hide Shaped;
  }

  /** In the ledgers of `r` seat number `i` has put in its blind, if it has one, and is all-in if no chips are left. */
  ghost predicate BlindAt(d: Hand, r: Hand, i: nat)
    requires Shaped(d) && Shaped(r) && r.seats == d.seats && i < |d.seats|
  {
    var p, a := d.seats[i], BlindOf(|d.seats|, d.button, i, d.sb, d.bb, d.stacks[d.seats[i]]);
    r.stacks[p] == d.stacks[p] - a && r.contrib[p] == a && r.streetBet[p] == a && (p in r.allin <==> r.stacks[p] == 0)
  }

  ghost predicate BlindsIn(d: Hand, r: Hand)
    requires Shaped(d) && Shaped(r) && r.seats == d.seats
  {
    forall i: nat :: i < |d.seats| ==> BlindAt(d, r, i)
  }

  /** The two postings, and what they leave in the ledgers of one player. */
  lemma PostedBlind(d: Hand, p: Player)
    requires Fresh(d) && p in d.seats
    ensures var r := PostBlinds(d);
      && Shaped(r) && r.seats == d.seats && p in d.stacks && p in r.stacks && p in r.contrib && p in r.streetBet
      && r == d.(stacks := r.stacks, contrib := r.contrib, streetBet := r.streetBet, allin := r.allin)
      && var a := if p == Small(d) then Least(d.sb, d.stacks[p]) else if p == Big(d) then Least(d.bb, d.stacks[p]) else 0;
      && r.stacks[p] == d.stacks[p] - a && r.contrib[p] == a && r.streetBet[p] == a && (p in r.allin <==> r.stacks[p] == 0)
  {
    hide Post, PostBlinds, Small, Big, Shaped, Fresh;
    FreshIsShaped(d);
    BlindsDiffer(d);
    PostBlindsIs(d);
    NothingIn(d, p);
    NothingIn(d, Small(d));
    NothingIn(d, Big(d));
    PostIs(d, Small(d), d.sb);
    PostIs(Post(d, Small(d), d.sb), Big(d), d.bb);
  }

  lemma BlindsArePosted(d: Hand)
    requires Fresh(d)
    ensures var r := PostBlinds(d);
      && Shaped(r) && r.seats == d.seats && BlindsIn(d, r)
      && r == d.(stacks := r.stacks, contrib := r.contrib, streetBet := r.streetBet, allin := r.allin)
  {
    hide PostBlinds, Small, Big, BlindAt, Fresh, Shaped;
    FreshIsShaped(d);
    BlindsDiffer(d);
    PostedBlind(d, Small(d));
    forall i: nat | i < |d.seats| ensures BlindAt(d, PostBlinds(d), i) { PostedAt(d, i); }
  }

  lemma PostedAt(d: Hand, i: nat)
    requires Fresh(d) && i < |d.seats| && Shaped(d) && Shaped(PostBlinds(d)) && PostBlinds(d).seats == d.seats
    ensures BlindAt(d, PostBlinds(d), i)
  {
    hide PostBlinds, Small, Big, BlindOf, Fresh, Shaped;
    assert d.seats[i] in d.seats;
    PostedBlind(d, d.seats[i]);
    BlindIs(d, i);
  }

  lemma NothingIn(d: Hand, p: Player)
    requires Fresh(d) && p in d.seats
    ensures Shaped(d) && p in d.stacks && p in d.contrib && p in d.streetBet
    ensures d.stacks[p] > 0 && d.contrib[p] == d.streetBet[p] == 0 && d.allin == {} && 0 < d.sb <= d.bb
  {
  }

  lemma BlindIs(d: Hand, i: nat)
    requires Shaped(d) && i < |d.seats| && d.seats[i] in d.stacks
    ensures var stack := d.stacks[d.seats[i]];
      BlindOf(|d.seats|, d.button, i, d.sb, d.bb, stack)
        == if d.seats[i] == Small(d) then Least(d.sb, stack) else if d.seats[i] == Big(d) then Least(d.bb, stack) else 0
  {
    OneSeat(d, i);
    BlindSeats(d);
    hide Small, Big, SmallSeat, BigSeat, SmallBlind, BigBlind;
  }

  lemma OneSeat(d: Hand, i: nat)
    requires Shaped(d) && i < |d.seats|
    ensures d.seats[i] == Small(d) <==> i == SmallSeat(d)
    ensures d.seats[i] == Big(d) <==> i == BigSeat(d)
  {
  }

  lemma PastOne(h: Hand, i: nat, p: Player)
    requires Shaped(h) && i < |h.seats| && !IsAble(h, Round(h, i, 1)) && FirstAfter(h, (i + 1) % |h.seats|, p)
    ensures FirstAfter(h, i, p)
  {
    var n := |h.seats|;
    var next := (i + 1) % n;
    hide IsAble, Shaped;
    var k: nat :| 1 <= k <= n && Round(h, next, k) == p && IsAble(h, p)
      && forall j: nat :: 1 <= j < k ==> !IsAble(h, Round(h, next, j));
    forall j: nat | j <= n ensures Round(h, next, j) == if j < n then Round(h, i, j + 1) else Round(h, i, 1) { NextRound(h, i, j); }
    hide Round;
    assert k < n;
    forall j: nat | 1 <= j < k + 1 ensures !IsAble(h, Round(h, i, j)) {
      if j > 1 { assert Round(h, next, j - 1) == Round(h, i, j); }
    }
    assert Round(h, i, k + 1) == p;
  }

  lemma NextRound(h: Hand, i: nat, j: nat)
    requires h.seats != [] && i < |h.seats| && j <= |h.seats|
    ensures Round(h, (i + 1) % |h.seats|, j) == if j < |h.seats| then Round(h, i, j + 1) else Round(h, i, 1)
  {
    var n := |h.seats|;
    if i + 1 == n {
      assert (i + 1) % n == 0;
      Wraps(j, n);
      Wraps(1, n);
    } else {
      assert (i + 1) % n == i + 1;
      if j == n { Wraps(i + 1, n); }
    }
  }

  lemma Wraps(x: nat, n: nat)
    requires n > 0 && x <= n
    ensures (x + n) % n == x % n && (n - 1 + (x + 1)) % n == x % n
  {
    assert n - 1 + (x + 1) == x + n;
    if x < n {
      Ring.OneTurn(x + n, n);
      Ring.OneTurn(x, n);
    } else {
      Twice(n);
    }
  }

  lemma Twice(n: nat)
    requires n > 0
    ensures (n + n) % n == 0 && n % n == 0
  {
  }

  /** The turn starts with the first able player after the big blind, if anybody is able. */
  lemma SkipStarts(h: Hand, i: nat)
    requires Shaped(h) && i < |h.seats| && |Live(h)| >= 2 && h.toAct == Some(Round(h, i, 1))
    ensures SkipDone(h) == h.(toAct := SkipDone(h).toAct)
    ensures if Able(h) == [] then SkipDone(h).toAct == None else SkipDone(h).toAct.Some? && FirstAfter(h, i, SkipDone(h).toAct.value)
  {
    var p := Round(h, i, 1);
    assert p in h.seats;
    assert p in Able(h) <==> IsAble(h, p);
    hide Live, Able, Clockwise, Shaped;
    if Able(h) != [] && !IsAble(h, p) {
      var at := IndexOf(h.seats, p);
      assert at == (i + 1) % |h.seats| by { SeatIndex(h, (i + 1) % |h.seats|); }
      WalkIsFirst(h, at);
      PastOne(h, i, Clockwise(h, at).value);
    }
    hide IndexOf, FirstAfter;
    if Able(h) != [] && IsAble(h, p) { FirstIsNext(h, i); }
  }

  lemma SeatIndex(h: Hand, i: nat)
    requires Shaped(h) && i < |h.seats|
    ensures IndexOf(h.seats, h.seats[i]) == i
  {
    assert Distinct(h.seats);
    hide Shaped;
    IndexOfSeat(h.seats, i);
  }

  lemma FirstIsNext(h: Hand, i: nat)
    requires h.seats != [] && IsAble(h, Round(h, i, 1))
    ensures FirstAfter(h, i, Round(h, i, 1))
  {
  }

  /** A hand starts with both blinds in, the big blind to call and to raise by, and the first able player after it to act,
      or nobody when the blinds have taken all the chips. */
  lemma HandStarts(d: Hand)
    requires Fresh(d)
    ensures var r, g := Blinded(d), BigBlind(|d.seats|, d.button);
      && r.seats == d.seats && BlindsIn(d, r) && g < |d.seats|
      && r == d.(stacks := r.stacks, contrib := r.contrib, streetBet := r.streetBet, allin := r.allin,
                 toCall := d.bb, minRaise := d.bb, lastRaiser := Some(d.seats[g]), toAct := r.toAct)
      && if r.toAct == None then forall p :: p in r.seats ==> r.stacks[p] == 0 else FirstAfter(r, g, r.toAct.value)
  {
    hide SkipDone, PostBlinds, FirstAfter, Live, Able, BlindsIn;
    FreshIsShaped(d);
    BlindSeats(d);
    BlindsArePosted(d);
    var g := BigSeat(d);
    var q := Ready(d);
    ReadyIs(d);
    NobodyFolded(q);
    SkipStarts(q, g);
    var r := Blinded(d);
    BlindsStay(d, PostBlinds(d), r);
    BlindsStay(d, PostBlinds(d), q);
    if Able(q) == [] { AllAreIn(d, q); } else { SameFirst(r, q, g, r.toAct.value); }
  }

  /** The hand before the walk to the first player able to act. */
  function Ready(d: Hand): Hand
    requires Shaped(d)
  {
    PostBlinds(d).(toCall := d.bb, minRaise := d.bb, lastRaiser := Some(d.seats[BigSeat(d)]), acted := {},
                   toAct := Some(Round(d, BigSeat(d), 1)))
  }

  lemma ReadyIs(d: Hand)
    requires Fresh(d) && Shaped(PostBlinds(d)) && PostBlinds(d).seats == d.seats
    ensures Shaped(Ready(d)) && Blinded(d) == SkipDone(Ready(d)) && Ready(d).toAct == Some(Round(Ready(d), BigSeat(d), 1))
  {
    hide SkipDone, PostBlinds;
    RingSeat(d, BigSeat(d), 1);
    assert Round(d, BigSeat(d), 1) in d.seats;
  }

  lemma BlindsStay(d: Hand, q: Hand, r: Hand)
    requires Shaped(d) && Shaped(q) && Shaped(r) && q.seats == d.seats == r.seats && BlindsIn(d, q)
    requires r.stacks == q.stacks && r.contrib == q.contrib && r.streetBet == q.streetBet && r.allin == q.allin
    ensures BlindsIn(d, r)
  {
    hide Shaped, BlindOf;
    forall i: nat | i < |d.seats| ensures BlindAt(d, r, i) { assert BlindAt(d, q, i); }
  }

  lemma AllAreIn(d: Hand, q: Hand)
    requires Shaped(d) && Shaped(q) && q.seats == d.seats && BlindsIn(d, q) && q.folded == {} && Able(q) == []
    ensures forall p :: p in q.seats ==> q.stacks[p] == 0
  {
    forall p | p in q.seats ensures q.stacks[p] == 0 {
      assert p in Able(q) <==> p !in q.allin;
      assert BlindAt(d, q, IndexOf(q.seats, p));
    }
  }

  // ---- one action ----

  /** The chips an action puts in: nothing for a fold, what is missing for a check or a call, the stack for an all-in, and
      for a raise what is missing to the amount asked for or the least one allowed; never more than the stack. */
  function PutIn(h: Hand, p: Player, action: Action): int
    requires p in h.stacks && p in h.streetBet
  {
    match action
    case Check => Least(if h.toCall > h.streetBet[p] then h.toCall - h.streetBet[p] else 0, h.stacks[p])
    case Call => Least(if h.toCall > h.streetBet[p] then h.toCall - h.streetBet[p] else 0, h.stacks[p])
    case AllIn => h.stacks[p]
    case Raise(amount) =>
      Least((if amount < h.toCall + h.minRaise then h.toCall + h.minRaise else amount) - h.streetBet[p], h.stacks[p])
    case _ => 0
  }

  /** `m` is `h` with `a` chips of `p` put in. If that lifts the bet it becomes the amount to call, the least raise grows to
      the size of the lift if that is bigger, `p` is the last raiser and nobody counts as having acted. */
  ghost predicate PutsIn(h: Hand, p: Player, a: int, m: Hand)
    requires p in h.stacks && p in h.contrib && p in h.streetBet
  {
    var bet := h.streetBet[p] + a;
    && m.stacks == h.stacks[p := h.stacks[p] - a] && m.contrib == h.contrib[p := h.contrib[p] + a]
    && m.streetBet == h.streetBet[p := bet] && m.allin == (if h.stacks[p] == a then h.allin + {p} else h.allin)
    && (if bet > h.toCall then
          m.toCall == bet && m.minRaise == (if bet - h.toCall > h.minRaise then bet - h.toCall else h.minRaise)
          && m.lastRaiser == Some(p) && m.acted == {}
        else m.toCall == h.toCall && m.minRaise == h.minRaise && m.lastRaiser == h.lastRaiser && m.acted == h.acted)
    && m == h.(stacks := m.stacks, contrib := m.contrib, streetBet := m.streetBet, allin := m.allin, toCall := m.toCall,
               minRaise := m.minRaise, lastRaiser := m.lastRaiser, acted := m.acted)
  }

  lemma PostPutsIn(h: Hand, p: Player, a: int)
    requires Shaped(h) && p in h.seats && p in h.stacks && p in h.contrib && p in h.streetBet
    requires 0 <= a <= h.stacks[p] && h.streetBet[p] + a <= h.toCall
    ensures PutsIn(h, p, a, Post(h, p, a))
  {
    hide Post, Shaped;
    PostIs(h, p, a);
  }

  lemma AllInPutsIn(h: Hand, p: Player)
    requires Shaped(h) && p in h.seats && p in h.stacks && p in h.contrib && p in h.streetBet
    ensures PutsIn(h, p, h.stacks[p], GoAllIn(h, p))
  {
    hide Post, Shaped;
    PostIs(h, p, h.stacks[p]);
  }

  lemma RaisePutsIn(h: Hand, p: Player, target: int)
    requires Shaped(h) && p in h.seats && p in h.stacks && p in h.contrib && p in h.streetBet
    requires h.minRaise > 0 && target >= h.toCall + h.minRaise && target - h.streetBet[p] < h.stacks[p]
    ensures PutsIn(h, p, target - h.streetBet[p], RaiseTo(h, p, target))
  {
    hide Post, Shaped;
    PostIs(h, p, target - h.streetBet[p]);
  }

  lemma NothingPutIn(h: Hand, p: Player)
    requires p in h.stacks && p in h.contrib && p in h.streetBet && h.stacks[p] > 0 && h.streetBet[p] == h.toCall
    ensures PutsIn(h, p, 0, h)
  {
    assert h.stacks[p := h.stacks[p] - 0] == h.stacks && h.contrib[p := h.contrib[p] + 0] == h.contrib;
    assert h.streetBet[p := h.streetBet[p] + 0] == h.streetBet;
  }

  /** What an action does before the turn passes: a fold takes the player out, everything else puts chips in; an action of
      any other name does nothing. */
  lemma MoveMeans(h: Hand, p: Player, action: Action)
    requires Open(h) && IsAble(h, p)
    ensures p in h.stacks && p in h.contrib && p in h.streetBet
    ensures var m := Move(h, p, action);
      match action
      case Other => m == None
      case Fold => m == Some(h.(folded := h.folded + {p}))
      case _ => m.Some? && PutsIn(h, p, PutIn(h, p, action), m.value)
  {
    hide Move, PutsIn, PutIn, Open;
    ReadyToMove(h, p);
    match action
    case Check => CheckMeans(h, p);
    case Call => CheckMeans(h, p);
    case AllIn => AllInMeans(h, p);
    case Raise(amount) => RaiseMeans(h, p, amount);
    case Fold => FoldMeans(h, p);
    case Other => FoldMeans(h, p);
  }

  lemma ReadyToMove(h: Hand, p: Player)
    requires Open(h) && IsAble(h, p)
    ensures Shaped(h) && p in h.seats && p in h.stacks && p in h.contrib && p in h.streetBet
    ensures h.stacks[p] > 0 && 0 <= h.streetBet[p] <= h.toCall && h.minRaise > 0
  {
    hide Live;
  }

  lemma FoldMeans(h: Hand, p: Player)
    requires Shaped(h) && p in h.seats
    ensures Move(h, p, Fold) == Some(h.(folded := h.folded + {p})) && Move(h, p, Other) == None
  {
  }

  lemma CheckMeans(h: Hand, p: Player)
    requires Open(h) && IsAble(h, p) && p in h.stacks && p in h.contrib && p in h.streetBet && Shaped(h)
    ensures Move(h, p, Check).Some? && PutsIn(h, p, PutIn(h, p, Check), Move(h, p, Check).value)
    ensures Move(h, p, Call).Some? && PutsIn(h, p, PutIn(h, p, Call), Move(h, p, Call).value)
  {
    hide Post, PutsIn, Open, Shaped;
    ReadyToMove(h, p);
    PostPutsIn(h, p, PutIn(h, p, Call));
    if CallAmount(h, p) == 0 { NothingPutIn(h, p); }
  }

  lemma AllInMeans(h: Hand, p: Player)
    requires Open(h) && IsAble(h, p) && p in h.stacks && p in h.contrib && p in h.streetBet && Shaped(h)
    ensures Move(h, p, AllIn).Some? && PutsIn(h, p, PutIn(h, p, AllIn), Move(h, p, AllIn).value)
  {
    hide GoAllIn, PutsIn, Open, Shaped;
    ReadyToMove(h, p);
    AllInPutsIn(h, p);
  }

  lemma RaiseMeans(h: Hand, p: Player, amount: int)
    requires Open(h) && IsAble(h, p) && p in h.stacks && p in h.contrib && p in h.streetBet && Shaped(h)
    ensures Move(h, p, Raise(amount)).Some? && PutsIn(h, p, PutIn(h, p, Raise(amount)), Move(h, p, Raise(amount)).value)
  {
    hide GoAllIn, RaiseTo, PutsIn, Open, Shaped, Move;
    ReadyToMove(h, p);
    MoveRaiseIs(h, p, amount);
    var target := Max(amount, h.toCall + h.minRaise);
    if target - h.streetBet[p] < h.stacks[p] { RaisePutsIn(h, p, target); } else { AllInPutsIn(h, p); }
  }

  /** After the move: the pot goes to the last player left in; else the round closes exactly when every able player has acted,
      or the turn passes on. */
  lemma ActMeans(h: Hand, p: Player, action: Action)
    requires Playing(h) && h.toAct == Some(p) && action != Other
    ensures Move(h, p, action).Some?
    ensures var m := Move(h, p, action).value; var h1 := m.(acted := m.acted + {p});
      && Shaped(h1) && h1.status.Betting? && Live(h1) != []
      && Act(h, p, action) ==
           if |Live(h1)| == 1 then AwardFolded(h1)
           else if forall q :: IsAble(h1, q) ==> q in h1.acted then AdvanceStreet(h1) else PassOn(h1, p)
  {
    hide Playing, Act, Move, Finish, Progress, AdvanceStreet, PassOn, AwardFolded, Live, Able, EveryoneActed, Money, Follows;
    GoesOn(h);
    InTurn(h, p);
    ActMoves(h, p, action);
    MarkedFollows(h, Move(h, p, action).value, p);
    RoundClosesExactly(h, p, action);
    var m := Move(h, p, action).value;
    var h1 := Marked(m, p);
    assert h1 == m.(acted := m.acted + {p});
    EveryoneMeans(h1);
    if |Live(h1)| == 1 { AwardedAtOnce(m, p); }
  }

  lemma InTurn(h: Hand, p: Player)
    requires Shaped(h) && h.toAct == Some(p)
    ensures p in h.seats
  {
  }

  lemma EveryoneMeans(h: Hand)
    ensures EveryoneActed(h) <==> forall q :: IsAble(h, q) ==> q in h.acted
  {
    assert forall q :: q in Able(h) <==> IsAble(h, q);
    hide Able;
  }

  lemma AwardedAtOnce(m: Hand, p: Player)
    requires Shaped(m) && m.status.Betting? && p in m.seats && |Live(Marked(m, p))| == 1
    ensures Live(Marked(m, p)) != [] && Finish(m, p) == AwardFolded(Marked(m, p))
  {
    hide Live, AwardFolded;
  }

  // ---- leaving ----

  /** Leaving takes a player out of the hand at once and is never undone: the list of leavers after a run is the one before it
      and whoever at the table got up meanwhile. */
  lemma StepLeavers(h: Hand, e: Event)
    requires Shaped(h)
    ensures Step(h, e).left == h.left + if e.Quit? && e.player in h.seats then {e.player} else {}
    ensures e.Quit? && h.status.Betting? && e.player in h.seats ==> e.player in Step(h, e).folded
    ensures h.folded <= Step(h, e).folded
  {
    match e
    case Play(p, action) => ActLeavers(h, p, action); hide Act;
    case Quit(p) => LeaveLeavers(h, p); hide Leave;
  }

  lemma LeaveLeavers(h: Hand, p: Player)
    requires Shaped(h)
    ensures var r := Leave(h, p);
      && r.left == h.left + (if p in h.seats then {p} else {}) && h.folded <= r.folded
      && (h.status.Betting? && p in h.seats ==> p in r.folded)
  {
    hide Act, AwardFolded, Live, Shaped;
    var h1 := h.(left := h.left + {p});
    SameButLeftCounts(h, h1);
    if h.status.Betting? && p in h.seats && p !in h.folded {
      if h.toAct == Some(p) {
        LeaveInTurn(h, p);
        ActLeavers(h1, p, Fold);
      } else {
        LeaveOutOfTurn(h, p);
        var h2 := h1.(folded := h1.folded + {p});
        FoldedShaped(h1, p);
        if |Live(h2)| == 1 { AwardLeavers(h2); }
      }
    }
  }

  lemma ActLeavers(h: Hand, p: Player, action: Action)
    requires Shaped(h)
    ensures var r := Act(h, p, action);
      r.left == h.left && h.folded <= r.folded && (h.status.Betting? && h.toAct == Some(p) && action == Fold ==> p in r.folded)
  {
    hide Move, Finish, Shaped;
    if h.status.Betting? && h.toAct == Some(p) {
      InTurn(h, p);
      if Move(h, p, action).Some? {
        MoveLeavers(h, p, action);
        FinishLeavers(Move(h, p, action).value, p);
      } else {
        FoldIsKnown(h, p);
      }
    }
  }

  lemma FoldIsKnown(h: Hand, p: Player)
    requires Shaped(h) && p in h.seats
    ensures Move(h, p, Fold).Some?
  {
    hide Shaped;
  }

  lemma MoveLeavers(h: Hand, p: Player, action: Action)
    requires Shaped(h) && p in h.seats && Move(h, p, action).Some?
    ensures var m := Move(h, p, action).value;
      m.left == h.left && h.folded <= m.folded && (action == Fold ==> p in m.folded)
  {
    hide Shaped, Post, GoAllIn, RaiseTo;
    HasLedgers(h, p);
    match action
    case Check => PostIs(h, p, Min(CallAmount(h, p), h.stacks[p]));
    case Call => PostIs(h, p, Min(CallAmount(h, p), h.stacks[p]));
    case AllIn => AllInOut(h, p);
    case Raise(amount) =>
      AllInOut(h, p);
      RaiseOut(h, p, Max(amount, h.toCall + h.minRaise));
      MoveRaiseIs(h, p, amount);
      hide Move;
    case _ =>
  }

  lemma AllInOut(h: Hand, p: Player)
    requires Shaped(h) && p in h.seats
    ensures GoAllIn(h, p).left == h.left && GoAllIn(h, p).folded == h.folded
  {
    hide Shaped, Post;
    HasLedgers(h, p);
    PostIs(h, p, h.stacks[p]);
  }

  lemma RaiseOut(h: Hand, p: Player, target: int)
    requires Shaped(h) && p in h.seats
    ensures RaiseTo(h, p, target).left == h.left && RaiseTo(h, p, target).folded == h.folded
  {
    hide Shaped, Post;
    HasLedgers(h, p);
    PostIs(h, p, target - h.streetBet[p]);
  }

  lemma FinishLeavers(m: Hand, p: Player)
    requires Shaped(m) && m.status.Betting? && p in m.seats
    ensures Finish(m, p).left == m.left && Finish(m, p).folded == m.folded
  {
    hide Finish, AdvanceStreet, PassOn, AwardFolded, Live, Shaped;
    MarkedSame(m, p);
    var h1 := Marked(m, p);
    AdvanceLeavers(h1);
    PassLeavers(h1, p);
    FinishCases(m, p);
    if |Live(h1)| == 1 { AwardLeavers(h1); }
  }

  lemma AwardLeavers(h: Hand)
    requires Shaped(h) && Live(h) != []
    ensures AwardFolded(h).left == h.left && AwardFolded(h).folded == h.folded
  {
    hide Live, Total, Shaped;
  }

  lemma {:induction false} AdvanceLeavers(h: Hand)
    requires Shaped(h) && h.status.Betting?
    ensures AdvanceStreet(h).left == h.left && AdvanceStreet(h).folded == h.folded
    decreases StreetsLeft(h.street)
  {
    hide Able, Winnings, DealBoard, Clockwise;
    if !h.street.River? {
      var h1 := OpenStreet(h, NextStreet(h.street));
      if |Able(h1)| < 2 { AdvanceLeavers(h1); }
    }
  }

  lemma SkipLeavers(h: Hand)
    requires Shaped(h)
    ensures SkipDone(h).left == h.left && SkipDone(h).folded == h.folded
  {
    hide Shaped, Live, Able, Clockwise, IndexOf;
  }

  lemma PassLeavers(h: Hand, p: Player)
    requires Shaped(h) && p in h.seats
    ensures PassOn(h, p).left == h.left && PassOn(h, p).folded == h.folded
  {
    var q := Aim(h, Clockwise(h, IndexOf(h.seats, p)));
    SkipLeavers(q);
    hide SkipDone, Shaped, Clockwise;
  }

  /** Who got up during a run. */
  function Leavers(es: seq<Event>): set<Player> {
    set e | e in es && e.Quit? :: e.player
  }

  lemma {:induction false} RunLeavers(h: Hand, es: seq<Event>)
    requires Shaped(h)
    ensures Run(h, es).left == h.left + Leavers(es) * Elems(h.seats) && h.folded <= Run(h, es).folded
    decreases |es|
  {
    hide Step, Leavers, Shaped;
    if es == [] {
      NoLeavers();
    } else {
      StepLeavers(h, es[0]);
      RunLeavers(Step(h, es[0]), es[1..]);
      LeaversFirst(es, h.seats);
    }
  }

  lemma NoLeavers()
    ensures Leavers([]) == {}
  {
  }

  lemma LeaversFirst(es: seq<Event>, seats: seq<Player>)
    requires es != []
    ensures Leavers(es) * Elems(seats)
      == Leavers(es[1..]) * Elems(seats) + if es[0].Quit? && es[0].player in seats then {es[0].player} else {}
  {
    assert es == [es[0]] + es[1..];
  }
}
