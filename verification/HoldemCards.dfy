/** The cards of a hand: hole cards, board and deck are always all fifty-two cards. */
module HoldemCards {
  import opened Seats
  import opened Numbers
  import opened HandRank
  import opened PlayingCards
  import opened HoldemRules
  import opened HoldemProofs
  import opened HoldemRuns
  import opened HoldemShowdown
  import Ring

  function HoleCards(seats: seq<Player>, hole: map<Player, seq<Card>>): multiset<Card>
    requires forall p :: p in seats ==> p in hole
  {
    if seats == [] then multiset{} else multiset(hole[seats[0]]) + HoleCards(seats[1..], hole)
  }

  function Cards(h: Hand): multiset<Card>
    requires Shaped(h)
  {
    HoleCards(h.seats, h.hole) + multiset(h.board) + multiset(h.deck)
  }

  ghost predicate WholePack(h: Hand) {
    Shaped(h) && Cards(h) == multiset(Pack()) && forall p :: p in h.seats ==> |h.hole[p]| == 2
  }

  // ---- dealing moves cards, it does not make or lose any ----

  lemma LastOut(s: seq<Card>)
    requires s != []
    ensures multiset(s) == multiset(s[..|s| - 1]) + multiset{s[|s| - 1]}
  {
    assert s == s[..|s| - 1] + [s[|s| - 1]];
  }

  lemma {:induction false} HoleExt(seats: seq<Player>, a: map<Player, seq<Card>>, b: map<Player, seq<Card>>)
    requires forall p :: p in seats ==> p in a && p in b && a[p] == b[p]
    ensures HoleCards(seats, a) == HoleCards(seats, b)
  {
    if seats != [] { HoleExt(seats[1..], a, b); }
  }

  lemma TwoOut(deck: seq<Card>)
    requires |deck| >= 2
    ensures multiset(deck) == multiset(deck[..|deck| - 2]) + multiset([deck[|deck| - 1], deck[|deck| - 2]])
  {
    LastOut(deck);
    LastOut(deck[..|deck| - 1]);
    assert deck[..|deck| - 1][..|deck| - 2] == deck[..|deck| - 2];
  }

  lemma DealHoleStep(seats: seq<Player>, deck: seq<Card>)
    requires Distinct(seats) && seats != [] && |deck| >= 2 * |seats|
    ensures var d := |deck|; var r := DealHole(seats, deck); var rest := DealHole(seats[1..], deck[..d - 2]);
      && r.1 == rest.1
      && (forall p :: p in seats[1..] ==> r.0[p] == rest.0[p])
      && r.0[seats[0]] == [deck[d - 1], deck[d - 2]]
  {
    assert seats[0] !in seats[1..];
  }

  lemma {:induction false} DealHoleKeeps(seats: seq<Player>, deck: seq<Card>)
    requires Distinct(seats) && |deck| >= 2 * |seats|
    ensures var r := DealHole(seats, deck); HoleCards(seats, r.0) + multiset(r.1) == multiset(deck)
    decreases |seats|
  {
    if seats != [] {
      var few := deck[..|deck| - 2];
      DealHoleKeeps(seats[1..], few);
      DealHoleStep(seats, deck);
      TwoOut(deck);
      HoleExt(seats[1..], DealHole(seats, deck).0, DealHole(seats[1..], few).0);
      hide DealHole;
    }
  }

  lemma {:induction false} DealBoardKeeps(board: seq<Card>, deck: seq<Card>, need: nat)
    requires |board| + |deck| >= need
    ensures var r := DealBoard(board, deck, need); multiset(r.0) + multiset(r.1) == multiset(board) + multiset(deck)
    decreases |deck|
  {
    if |board| < need {
      LastOut(deck);
      DealBoardKeeps(board + [deck[|deck| - 1]], deck[..|deck| - 1], need);
    }
  }

  /** A fresh hand holds all fifty-two cards. */
  lemma StartHoldsPack(seats: seq<Player>, button: nat, stacks: map<Player, int>, sb: int, bb: int, deck: seq<Card>)
    requires Distinct(seats) && |seats| >= 2 && stacks.Keys == Elems(seats) && |deck| >= 2 * |seats| + 5
    requires multiset(deck) == multiset(Pack())
    ensures WholePack(StartHand(seats, button, stacks, sb, bb, deck))
  {
    hide Blinded, DealHole;
    DealHoleKeeps(seats, deck);
    BlindedSameTable(Dealt(seats, button, stacks, sb, bb, deck));
  }

  /** Nothing on the table but chips and flags differs. */
  ghost predicate SameTable(h: Hand, r: Hand) {
    r.seats == h.seats && r.hole == h.hole && r.board == h.board && r.deck == h.deck && r.sb == h.sb && r.bb == h.bb
  }

  lemma PostSameTable(h: Hand, p: Player, amount: int)
    requires Shaped(h) && p in h.seats
    ensures SameTable(h, Post(h, p, amount))
  {
    hide Shaped;
  }

  lemma SkipSameTable(h: Hand)
    requires Shaped(h)
    ensures SameTable(h, SkipDone(h)) && SkipDone(h).status == h.status
  {
    hide Shaped, Live, Able, Clockwise, IndexOf;
  }

  lemma BlindsSameTable(h: Hand)
    requires Shaped(h)
    ensures SameTable(h, PostBlinds(h))
  {
    assert h.seats[SmallSeat(h)] in h.seats && h.seats[BigSeat(h)] in h.seats;
    PostSameTable(h, h.seats[SmallSeat(h)], h.sb);
    PostSameTable(Post(h, h.seats[SmallSeat(h)], h.sb), h.seats[BigSeat(h)], h.bb);
    hide Shaped, Post, SmallSeat, BigSeat;
  }

  lemma BlindedSameTable(h: Hand)
    requires Shaped(h)
    ensures SameTable(h, Blinded(h))
  {
    hide SkipDone, PostBlinds;
    BlindsSameTable(h);
    var first := h.seats[Ring.Seat(BigSeat(h), 1, |h.seats|)];
    assert first in h.seats;
    SkipSameTable(PostBlinds(h).(toCall := h.bb, minRaise := h.bb, lastRaiser := Some(h.seats[BigSeat(h)]), acted := {},
                                 toAct := Some(first)));
  }

  // ---- no step changes the cards ----

  /** The same hole cards and stakes, the board and the deck together the same cards. */
  ghost predicate SameCards(h: Hand, r: Hand) {
    && r.seats == h.seats && r.hole == h.hole && r.sb == h.sb && r.bb == h.bb
    && multiset(r.board) + multiset(r.deck) == multiset(h.board) + multiset(h.deck)
  }

  lemma MoveSameTable(h: Hand, p: Player, action: Action)
    requires Shaped(h) && p in h.seats
    ensures Move(h, p, action).Some? ==> SameTable(h, Move(h, p, action).value)
  {
    HasLedgers(h, p);
    hide Post, GoAllIn, RaiseTo, Shaped;
    match action
    case Check => PostSameTable(h, p, Min(CallAmount(h, p), h.stacks[p]));
    case Call => PostSameTable(h, p, Min(CallAmount(h, p), h.stacks[p]));
    case AllIn => AllInSameTable(h, p);
    case Raise(amount) =>
      AllInSameTable(h, p);
      RaiseSameTable(h, p, Max(amount, h.toCall + h.minRaise));
      MoveRaiseIs(h, p, amount);
      hide SameTable, Move;
    case _ =>
  }

  lemma AllInSameTable(h: Hand, p: Player)
    requires Shaped(h) && p in h.seats
    ensures SameTable(h, GoAllIn(h, p))
  {
    hide Post;
    PostSameTable(h, p, h.stacks[p]);
  }

  lemma RaiseSameTable(h: Hand, p: Player, target: int)
    requires Shaped(h) && p in h.seats
    ensures SameTable(h, RaiseTo(h, p, target))
  {
    hide Post;
    PostSameTable(h, p, target - h.streetBet[p]);
  }

  lemma {:induction false} AdvanceSameCards(h: Hand)
    requires Shaped(h) && h.status.Betting?
    ensures SameCards(h, AdvanceStreet(h))
    decreases StreetsLeft(h.street)
  {
    if !h.street.River? {
      var next := NextStreet(h.street);
      DealBoardKeeps(h.board, h.deck, BoardSize(next));
      var h1 := OpenStreet(h, next);
      assert SameCards(h, h1);
      if |Able(h1)| < 2 { AdvanceSameCards(h1); }
    }
  }

  lemma FinishCases(h: Hand, p: Player)
    requires Shaped(h) && h.status.Betting? && p in h.seats
    ensures var h1 := Marked(h, p);
      if |Live(h1)| == 1 then Finish(h, p) == AwardFolded(h1)
      else Finish(h, p) == AdvanceStreet(h1) || Finish(h, p) == PassOn(h1, p)
  {
    hide AdvanceStreet, PassOn, AwardFolded, Live, Able, Matched, EveryoneActed;
  }

  lemma FinishSameCards(h: Hand, p: Player)
    requires Shaped(h) && h.status.Betting? && p in h.seats
    ensures SameCards(h, Finish(h, p))
  {
    hide Finish, AdvanceStreet, PassOn, Live;
    var h1 := Marked(h, p);
    AdvanceSameCards(h1);
    PassSameTable(h1, p);
    FinishCases(h, p);
    if |Live(h1)| == 1 { AwardSameTable(h1); }
    hide AwardFolded, Shaped;
  }

  lemma AwardSameTable(h: Hand)
    requires Shaped(h) && Live(h) != []
    ensures SameTable(h, AwardFolded(h))
  {
    hide Live, Total, Shaped;
  }

  lemma PassSameTable(h: Hand, p: Player)
    requires Shaped(h) && p in h.seats
    ensures SameTable(h, PassOn(h, p)) && PassOn(h, p).status == h.status
  {
    var q := Aim(h, Clockwise(h, IndexOf(h.seats, p)));
    SkipSameTable(q);
    hide SkipDone, Shaped, Clockwise;
  }

  lemma ThenSameCards(h: Hand, m: Hand, r: Hand)
    requires SameTable(h, m) && SameCards(m, r)
    ensures SameCards(h, r)
  {
  }

  lemma ActSameCards(h: Hand, p: Player, action: Action)
    requires Shaped(h)
    ensures SameCards(h, Act(h, p, action))
  {
    hide Move, Finish, SameTable, SameCards;
    if h.status.Betting? && h.toAct == Some(p) {
      MoveSameTable(h, p, action);
      var moved := Move(h, p, action);
      if moved.Some? {
        FinishSameCards(moved.value, p);
        ThenSameCards(h, moved.value, Finish(moved.value, p));
      } else {
        SameItself(h);
      }
    } else {
      SameItself(h);
    }
  }

  lemma SameItself(h: Hand)
    ensures SameCards(h, h)
  {
  }

  lemma LeaveSameCards(h: Hand, p: Player)
    requires Shaped(h)
    ensures SameCards(h, Leave(h, p))
  {
    hide Act, AwardFolded, Live;
    var h1 := h.(left := h.left + {p});
    if p in h.seats && h.status.Betting? && p !in h.folded {
      if h.toAct == Some(p) {
        ActSameCards(h1, p, Fold);
      } else if |Live(h1.(folded := h.folded + {p}))| == 1 {
        AwardSameTable(h1.(folded := h.folded + {p}));
      }
    }
  }

  lemma StepSameCards(h: Hand, e: Event)
    requires Shaped(h)
    ensures SameCards(h, Step(h, e))
  {
    hide Act, AwardFolded, Live;
    match e
    case Play(p, action) => ActSameCards(h, p, action);
    case Quit(p) => LeaveSameCards(h, p);
  }

  lemma {:induction false} RunSameCards(h: Hand, es: seq<Event>)
    requires Shaped(h)
    ensures SameCards(h, Run(h, es))
    decreases |es|
  {
    if es != [] {
      StepSameCards(h, es[0]);
      RunSameCards(Step(h, es[0]), es[1..]);
      hide Step;
    }
  }

  lemma SameCardsWhole(h: Hand, r: Hand)
    requires WholePack(h) && Shaped(r) && SameCards(h, r)
    ensures WholePack(r)
  {
    assert Cards(r) == HoleCards(h.seats, h.hole) + (multiset(r.board) + multiset(r.deck));
  }

  /** After any events the hand still holds all fifty-two cards, and while betting the board fits the street. */
  lemma RunHoldsPack(h: Hand, es: seq<Event>)
    requires WholePack(h)
    ensures var r := Run(h, es); WholePack(r) && (r.status.Betting? ==> |r.board| == BoardSize(r.street))
  {
    RunSameCards(h, es);
    SameCardsWhole(h, Run(h, es));
    hide Run;
  }

  // ---- the showdown compares seven different cards for each player ----

  lemma {:induction false} HoleWithin(seats: seq<Player>, hole: map<Player, seq<Card>>, p: Player)
    requires p in seats && forall q :: q in seats ==> q in hole
    ensures multiset(hole[p]) <= HoleCards(seats, hole)
  {
    if seats[0] != p { HoleWithin(seats[1..], hole, p); }
  }

  lemma PackHasNoTwins(c: Card)
    ensures multiset(Pack())[c] == 1
  {
    assert Pack() == Pack()[..c] + [c] + Pack()[c + 1..];
    assert c !in Pack()[..c] && c !in Pack()[c + 1..];
  }

  lemma Twins(s: seq<Card>, i: nat, j: nat)
    requires i < j < |s| && s[i] == s[j]
    ensures multiset(s)[s[i]] >= 2
  {
    assert s == s[..i] + [s[i]] + s[i + 1..j] + [s[j]] + s[j + 1..];
  }

  lemma WithinPackDistinct(s: seq<Card>)
    requires multiset(s) <= multiset(Pack())
    ensures DistinctCards(s)
  {
    forall i, j | 0 <= i < j < |s| ensures s[i] != s[j] {
      PackHasNoTwins(s[i]);
      if s[i] == s[j] { Twins(s, i, j); }
    }
  }

  lemma SevenCards(h: Hand, p: Player)
    requires WholePack(h) && h.status.Betting? && h.street.River? && p in h.seats
    ensures |h.hole[p] + h.board| == 7 && DistinctCards(h.hole[p] + h.board)
  {
    HoleWithin(h.seats, h.hole, p);
    assert multiset(h.hole[p] + h.board) == multiset(h.hole[p]) + multiset(h.board);
    WithinPackDistinct(h.hole[p] + h.board);
  }

  /** The state on which the showdown is held: the river, after any run-out of the board. */
  function AtShowdown(h: Hand): (r: Hand)
    requires Shaped(h) && h.status.Betting?
    decreases StreetsLeft(h.street)
  {
    if h.street.River? then h else AtShowdown(OpenStreet(h, NextStreet(h.street)))
  }

  /** Every live player has seven different cards. */
  ghost predicate SevenEach(h: Hand) {
    forall p :: p in Live(h) ==> p in h.hole && |h.hole[p] + h.board| == 7 && DistinctCards(h.hole[p] + h.board)
  }

  /** `done` is a hand shown down on the river state `r`, in which each live player has seven different cards, and it is the
      best five of them that are paid. */
  ghost predicate ShownDown(done: Hand, r: Hand) {
    && WholePack(r) && r.status.Betting? && r.street.River? && done == Showdown(r) && SevenEach(r)
    && (Open(r) ==> PaidByHands(r, done))
  }

  lemma RiverShownDown(h: Hand)
    requires WholePack(h) && h.status.Betting? && h.street.River?
    ensures ShownDown(Showdown(h), h)
  {
    hide DistinctCards, Open, PaidByHands;
    if Open(h) { ShowdownPaysByHands(h); }
    forall p | p in Live(h) ensures p in h.hole && |h.hole[p] + h.board| == 7 && DistinctCards(h.hole[p] + h.board) {
      SevenCards(h, p);
    }
  }

  lemma WholeIsShaped(h: Hand)
    requires WholePack(h)
    ensures Shaped(h)
  {
  }

  lemma OpenStreetWhole(h: Hand)
    requires WholePack(h) && h.status.Betting? && !h.street.River?
    ensures WholePack(OpenStreet(h, NextStreet(h.street)))
  {
    var next := NextStreet(h.street);
    DealBoardKeeps(h.board, h.deck, BoardSize(next));
    SameCardsWhole(h, OpenStreet(h, next));
    hide WholePack, DealBoard;
  }

  lemma AdvanceIs(h: Hand)
    requires Shaped(h) && h.status.Betting?
    ensures h.street.River? ==> AdvanceStreet(h) == Showdown(h) && AtShowdown(h) == h
    ensures !h.street.River? ==>
      var h1 := OpenStreet(h, NextStreet(h.street));
      AtShowdown(h) == AtShowdown(h1) && (AdvanceStreet(h).status.Betting? || AdvanceStreet(h) == AdvanceStreet(h1))
  {
    hide Showdown, OpenStreet, Clockwise, Able;
  }

  /** Whenever closing a round ends the hand, what is compared is seven different cards for each player. */
  lemma {:induction false} ShowdownCards(h: Hand)
    requires WholePack(h) && h.status.Betting? && AdvanceStreet(h).status.Done?
    ensures ShownDown(AdvanceStreet(h), AtShowdown(h))
    decreases StreetsLeft(h.street)
  {
    hide ShownDown, AdvanceStreet, AtShowdown, OpenStreet, Showdown, WholePack, Shaped;
    WholeIsShaped(h);
    AdvanceIs(h);
    if h.street.River? {
      RiverShownDown(h);
    } else {
      OpenStreetWhole(h);
      ShowdownCards(OpenStreet(h, NextStreet(h.street)));
    }
  }

  // ---- how a hand ends ----

  /** `done` is `q` with the pot given to the one player left in it. */
  ghost predicate Awarded(done: Hand, q: Hand) {
    Shaped(q) && q.status.Betting? && |Live(q)| == 1 && done == AwardFolded(q)
  }

  /** With one player left in the hand was awarded; with more it was shown down on the river over seven different cards
      for each of them. */
  ghost predicate Ended(r: Hand) {
    if |Live(r)| == 1 then exists q :: Awarded(r, q) else exists q :: Open(q) && ShownDown(r, q)
  }

  lemma AwardIsEnd(q: Hand)
    requires Shaped(q) && q.status.Betting? && |Live(q)| == 1
    ensures Ended(AwardFolded(q))
  {
    assert Live(AwardFolded(q)) == Live(q) by { hide Total, Only; }
    assert Awarded(AwardFolded(q), q);
    hide AwardFolded, Live, ShownDown;
  }

  lemma {:induction false} AdvanceSameLive(h: Hand)
    requires Shaped(h) && h.status.Betting?
    ensures Live(AdvanceStreet(h)) == Live(h)
    decreases StreetsLeft(h.street)
  {
    hide Able, Only, Winnings;
    if !h.street.River? {
      var h1 := OpenStreet(h, NextStreet(h.street));
      if |Able(h1)| < 2 { AdvanceSameLive(h1); }
    }
  }

  lemma {:induction false} AtShowdownOpen(h: Hand)
    requires Open(h)
    ensures Open(AtShowdown(h))
    decreases StreetsLeft(h.street)
  {
    assert Shaped(h);
    hide Open, OpenStreet;
    if !h.street.River? {
      OpenStreetOpens(h);
      AtShowdownOpen(OpenStreet(h, NextStreet(h.street)));
    }
  }

  lemma AdvanceIsEnd(h: Hand)
    requires WholePack(h) && Open(h) && AdvanceStreet(h).status.Done?
    ensures Ended(AdvanceStreet(h))
  {
    hide WholePack, Shaped, Live, AdvanceStreet, ShownDown, Awarded, Money;
    WholeIsShaped(h);
    AdvanceSameLive(h);
    AtShowdownOpen(h);
    ShowdownCards(h);
  }

  lemma MarkedWhole(h: Hand, p: Player, action: Action)
    requires WholePack(h) && p in h.seats && Move(h, p, action).Some?
    ensures WholePack(Marked(Move(h, p, action).value, p))
  {
    hide Move, WholePack, Cards;
    WholeIsShaped(h);
    MoveSameTable(h, p, action);
    var h1 := Marked(Move(h, p, action).value, p);
    assert SameCards(h, h1) && Shaped(h1);
    hide Shaped;
    SameCardsWhole(h, h1);
  }

  lemma ActEnds(h: Hand, p: Player, action: Action)
    requires Playing(h) && WholePack(h) && h.toAct == Some(p) && action != Other
    ensures Act(h, p, action).status.Done? ==> Ended(Act(h, p, action))
  {
    hide Playing, WholePack, Act, Move, Finish, Progress, AdvanceStreet, PassOn, AwardFolded, Live, EveryoneActed, Ended, Money,
         Follows, Shaped;
    WholeIsShaped(h);
    InSeats(h, p);
    ActMoves(h, p, action);
    MarkedFollows(h, Move(h, p, action).value, p);
    MarkedWhole(h, p, action);
    RoundClosesExactly(h, p, action);
    var h1 := Marked(Move(h, p, action).value, p);
    if |Live(h1)| == 1 {
      FinishCases(Move(h, p, action).value, p);
      AwardIsEnd(h1);
    } else if EveryoneActed(h1) {
      if AdvanceStreet(h1).status.Done? { AdvanceIsEnd(h1); }
    } else {
      PassSameTable(h1, p);
    }
  }

  lemma InSeats(h: Hand, p: Player)
    requires Shaped(h) && h.toAct == Some(p)
    ensures p in h.seats
  {
  }

  lemma SameButLeftEnds(h: Hand, r: Hand)
    requires SameButLeft(h, r) && Ended(h)
    ensures Ended(r)
  {
    assert Live(r) == Live(h);
    if |Live(h)| == 1 {
      var q :| Awarded(h, q);
      AwardedToo(h, r, q);
    } else {
      var q :| Open(q) && ShownDown(h, q);
      ShownDownToo(h, r, q);
    }
    hide Awarded, ShownDown, Live;
  }

  lemma AwardedToo(h: Hand, r: Hand, q: Hand)
    requires SameButLeft(h, r) && Awarded(h, q)
    ensures Awarded(r, q.(left := r.left))
  {
    var q' := q.(left := r.left);
    assert Live(q') == Live(q);
    hide Total, Live;
  }

  lemma ShownDownToo(h: Hand, r: Hand, q: Hand)
    requires SameButLeft(h, r) && Open(q) && ShownDown(h, q)
    ensures Open(q.(left := r.left)) && ShownDown(r, q.(left := r.left))
  {
    hide WholePack, Showdown, SevenEach, Shaped, Open, PaidByHands;
    LeftOpen(q, r.left);
    ShowdownPaysByHands(q.(left := r.left));
    LeftWhole(q, r.left);
    WholeIsShaped(q);
    WholeIsShaped(q.(left := r.left));
    LeftShowdown(q, r.left);
    LeftSevenEach(q, r.left);
  }

  lemma LeftOpen(q: Hand, left: set<Player>)
    requires Open(q)
    ensures Open(q.(left := left))
  {
    assert Live(q.(left := left)) == Live(q);
    hide Live;
  }

  lemma LeftWhole(q: Hand, left: set<Player>)
    requires WholePack(q)
    ensures WholePack(q.(left := left))
  {
    hide HoleCards;
  }

  lemma LeftShowdown(q: Hand, left: set<Player>)
    requires Shaped(q) && Shaped(q.(left := left))
    ensures Showdown(q.(left := left)) == Showdown(q).(left := left)
  {
    assert Winnings(q.(left := left)) == Winnings(q);
    hide Winnings, Shaped;
  }

  lemma LeftSevenEach(q: Hand, left: set<Player>)
    requires SevenEach(q)
    ensures SevenEach(q.(left := left))
  {
    assert Live(q.(left := left)) == Live(q);
    hide Live, DistinctCards;
  }

  lemma LeaveEnds(h: Hand, p: Player)
    requires (Playing(h) || Stalled(h)) && WholePack(h) && Accepted(h, Quit(p))
    ensures Leave(h, p).status.Done? ==> Ended(Leave(h, p))
  {
    hide Playing, Stalled, WholePack, Act, AwardFolded, Live, Leave, Ended, Shaped;
    WholeIsShaped(h);
    var h1 := h.(left := h.left + {p});
    if h.toAct == Some(p) {
      if Stalled(h) { StalledForNobody(h); }
      SameButLeftKeeps(h, h1);
      SameCardsWhole(h, h1);
      LeaveInTurn(h, p);
      ActEnds(h1, p, Fold);
    } else {
      LeaveOutOfTurn(h, p);
      FoldedShaped(h1, p);
      if |Live(h1.(folded := h.folded + {p}))| == 1 { AwardIsEnd(h1.(folded := h.folded + {p})); }
    }
  }

  lemma FoldedShaped(h: Hand, p: Player)
    requires Shaped(h) && p in h.seats
    ensures Shaped(h.(folded := h.folded + {p}))
  {
  }

  lemma StepEnds(h: Hand, e: Event)
    requires Good(h) && WholePack(h) && (h.status.Done? ==> Ended(h))
    ensures Step(h, e).status.Done? ==> Ended(Step(h, e))
  {
    hide Playing, Stalled, Over, WholePack, Act, Leave, Ended, Shaped;
    WholeIsShaped(h);
    if Accepted(h, e) {
      assert Playing(h) || Stalled(h) by { if Over(h) { OverIsDone(h); } }
      match e
      case Play(p, action) =>
        if Stalled(h) { StalledForNobody(h); }
        ActEnds(h, p, action);
      case Quit(p) => LeaveEnds(h, p);
    } else {
      RefusedIsSame(h, e);
      if h.status.Done? { SameButLeftEnds(h, Step(h, e)); }
    }
  }

  lemma OverIsDone(h: Hand)
    requires Over(h)
    ensures h.status.Done?
  {
  }

  lemma StepWhole(h: Hand, e: Event)
    requires WholePack(h)
    ensures Shaped(h) && WholePack(Step(h, e))
  {
    hide WholePack, Step, SameCards, Shaped;
    WholeIsShaped(h);
    StepSameCards(h, e);
    SameCardsWhole(h, Step(h, e));
  }

  /** Every hand that a run brings to its end was awarded to the one player left, or shown down between two or more on the
      river over seven different cards each. */
  lemma {:induction false} RunEnds(h: Hand, es: seq<Event>)
    requires Good(h) && WholePack(h) && (h.status.Done? ==> Ended(h))
    ensures Run(h, es).status.Done? ==> Ended(Run(h, es))
    decreases |es|
  {
    hide Good, WholePack, Step, Ended, Chips, Becomes, Shaped;
    WholeIsShaped(h);
    if es != [] {
      StepEnds(h, es[0]);
      StepKeeps(h, es[0]);
      StepWhole(h, es[0]);
      RunEnds(Step(h, es[0]), es[1..]);
    }
  }
}
