/** What a round deals, does and pays, said of the cards and the chips alone (botframework/blackjack_game.py). */
module BlackjackRounds {
  import opened Seats
  import opened BlackjackHand
  import opened PlayingCards
  import opened BlackjackRules
  import opened BlackjackProofs

  // ---- the deal ----

  lemma {:induction false} DealtFromTheEnd(seats: seq<Player>, deck: seq<Card>, i: nat)
    requires Distinct(seats) && |deck| >= 2 * |seats| && i < |seats|
    ensures DealIn(seats, deck).0[seats[i]] == PairAt(deck, i)
    decreases |seats|
  {
    DealInStep(seats, deck);
    assert Distinct(seats[1..]);
    if i > 0 {
      hide DealIn, Distinct, PairAt;
      PairFurther(deck, i);
      assert seats[1..][i - 1] == seats[i];
      DealtFromTheEnd(seats[1..], deck[..|deck| - 2], i - 1);
    }
  }

  lemma {:induction false} DealLeaves(seats: seq<Player>, deck: seq<Card>)
    requires |deck| >= 2 * |seats|
    ensures DealIn(seats, deck).1 == deck[..|deck| - 2 * |seats|]
    decreases |seats|
  {
    if seats != [] { DealLeaves(seats[1..], deck[..|deck| - 2]); }
  }

  /** A bet as asked for, cut to what is allowed and affordable. */
  ghost predicate BetFor(bet: int, asked: Option<int>, stack: int) {
    var wanted := if asked.None? || asked.value == 0 then 25 else asked.value;
    if stack <= 0 then bet == 0
    else if wanted < 5 then bet == (if stack < 5 then stack else 5)
    else bet == if stack < wanted then stack else wanted
  }

  function Asked(bets: map<Player, int>, p: Player): Option<int> {
    if p in bets then Some(bets[p]) else None
  }

  lemma ClampedIsBetFor(bet: int, stack: int)
    ensures BetFor(ClampBet(bet, stack), Some(bet), stack)
    ensures bet == 25 ==> BetFor(ClampBet(bet, stack), None, stack)
  {
  }

  /** Seat by seat two cards come off the end of the deck, then two for the dealer; bets are posted; naturals are done. */
  lemma DealIsFair(seats: seq<Player>, stacks: map<Player, int>, bets: map<Player, int>, button: nat, deck: seq<Card>)
    requires Distinct(seats) && stacks.Keys == Elems(seats) && |deck| >= 2 * |seats| + 2
    ensures var r, n, k := StartRound(seats, stacks, bets, button, deck), |deck|, |seats|;
      && r.seats == seats && r.status == Playing && r.button == (if k == 0 then 0 else button % k)
      && r.deck == deck[..n - 2 * k - 2] && r.dhand == [deck[n - 2 * k - 1], deck[n - 2 * k - 2]]
      && (forall i :: 0 <= i < k ==> r.hands[seats[i]] == PairAt(deck, i))
      && (forall p :: p in seats ==> BetFor(r.bet[p], Asked(bets, p), stacks[p]) && r.stacks[p] == stacks[p] - r.bet[p])
      && r.done == (set p | p in seats && HandValue(r.hands[p]) == 21)
      && r.busted == r.folded == r.left == {} && r.results == map[] && r.payouts == map[]
  {
    hide DealIn, HandValue, BetFor, PairAt, Naturals, Bets, Posted;
    var r := StartRound(seats, stacks, bets, button, deck);
    DealLeaves(seats, deck);
    forall i | 0 <= i < |seats| ensures r.hands[seats[i]] == PairAt(deck, i) { DealtFromTheEnd(seats, deck, i); }
    BetsAreFair(seats, stacks, bets);
    NaturalsAre(seats, deck, r.done);
  }

  lemma BetsAreFair(seats: seq<Player>, stacks: map<Player, int>, bets: map<Player, int>)
    requires stacks.Keys == Elems(seats)
    ensures forall p :: p in seats ==>
      var bet := Bets(seats, stacks, bets)[p];
      BetFor(bet, Asked(bets, p), stacks[p]) && p in Posted(seats, stacks, bets) && Posted(seats, stacks, bets)[p] == stacks[p] - bet
  {
    hide ClampBet, BetFor;
    forall p | p in seats ensures BetFor(Bets(seats, stacks, bets)[p], Asked(bets, p), stacks[p]) {
      ClampedIsBetFor(Desired(bets, p), stacks[p]);
    }
  }

  lemma NaturalsAre(seats: seq<Player>, deck: seq<Card>, done: set<Player>)
    requires |deck| >= 2 * |seats| && done == Naturals(seats, DealIn(seats, deck).0)
    ensures done == (set p | p in seats && HandValue(DealIn(seats, deck).0[p]) == 21)
  {
    TwoInHand(seats, deck);
    hide DealIn, HandValue;
  }

  lemma {:induction false} TwoInHand(seats: seq<Player>, deck: seq<Card>)
    requires |deck| >= 2 * |seats|
    ensures forall p :: p in seats ==> |DealIn(seats, deck).0[p]| == 2
    decreases |seats|
  {
    if seats != [] { TwoInHand(seats[1..], deck[..|deck| - 2]); }
  }

  // ---- one message ----

  /** The player may still hit or stand. */
  ghost predicate InPlay(r: Round, p: Player) {
    r.status == Playing && p in r.seats && p !in r.done
  }

  /** Hitting takes the top card of the deck and ends the turn with a bust; standing and leaving end it; leaving also gives
      the hand up and the seat away. Nothing else changes, and nothing at all for a player who is not in play, except that a
      player may always leave. */
  lemma StepMarks(r: Round, p: Player)
    requires Shaped(r)
    ensures Stand(r, p) == if InPlay(r, p) then r.(done := r.done + {p}) else r
    ensures Leave(r, p) ==
      if InPlay(r, p) then r.(done := r.done + {p}, folded := r.folded + {p}, left := r.left + {p})
      else if p in r.seats then r.(left := r.left + {p}) else r
    ensures !InPlay(r, p) ==> Hit(r, p) == r
    ensures InPlay(r, p) ==>
      var hand := if r.deck == [] then r.hands[p] else r.hands[p] + [r.deck[|r.deck| - 1]];
      var r' := r.(hands := r.hands[p := hand], deck := if r.deck == [] then [] else r.deck[..|r.deck| - 1]);
      Hit(r, p) == if HandValue(hand) > 21 then r'.(done := r.done + {p}, busted := r.busted + {p}) else r'
  {
    hide HandValue;
    if InPlay(r, p) && r.deck == [] { assert r.hands[p := r.hands[p]] == r.hands; }
  }

  // ---- the dealer ----

  /** Some hand has neither been given up nor gone over 21. */
  ghost predicate SomeoneCanWin(r: Round)
    requires Shaped(r) && r.status != Betting
  {
    exists p :: p in r.seats && p !in r.folded && HandValue(r.hands[p]) <= 21
  }

  /** `d` is `hand` with the last `k` cards of `deck` added, the last one first. */
  ghost predicate DrawnOff(hand: seq<Card>, deck: seq<Card>, k: nat, d: seq<Card>) {
    && k <= |deck| && |d| == |hand| + k && hand <= d
    && forall i :: |hand| <= i < |d| ==> d[i] == deck[|deck| - 1 - (i - |hand|)]
  }

  lemma {:induction false} DealerDrawsOff(dhand: seq<Card>, deck: seq<Card>) returns (k: nat)
    ensures var d := DealerDraws(dhand, deck);
      && DrawnOff(dhand, deck, k, d.0) && d.1 == deck[..|deck| - k]
      && (k == |deck| || HandValue(d.0) >= 17)
      && forall j :: |dhand| <= j < |d.0| ==> HandValue(d.0[..j]) < 17
    decreases |deck|
  {
    hide HandValue;
    var d := DealerDraws(dhand, deck).0;
    if HandValue(dhand) >= 17 || deck == [] {
      k := 0;
    } else {
      var n := |deck|;
      var k' := DealerDrawsOff(dhand + [deck[n - 1]], deck[..n - 1]);
      k := k' + 1;
      var more := dhand + [deck[n - 1]];
      forall i | |dhand| <= i < |d| ensures d[i] == deck[n - 1 - (i - |dhand|)] {
        if i == |dhand| { assert d[i] == more[i]; } else { assert d[i] == deck[..n - 1][n - 2 - (i - |more|)]; }
      }
      forall j | |dhand| <= j < |d| ensures HandValue(d[..j]) < 17 {
        if j == |dhand| { assert d[..j] == dhand; }
      }
    }
  }

  /** The dealer draws off the end of the deck up to the first total of 17 or more, if anybody can still win, and otherwise
      not at all. */
  lemma DealerPlays(r: Round) returns (k: nat)
    requires Shaped(r) && r.status == Playing
    ensures var d := DealerPlay(r);
      && d == r.(dhand := d.dhand, deck := d.deck)
      && DrawnOff(r.dhand, r.deck, k, d.dhand) && d.deck == r.deck[..|r.deck| - k]
      && (if SomeoneCanWin(r) then
            (k == |r.deck| || HandValue(d.dhand) >= 17) && forall j :: |r.dhand| <= j < |d.dhand| ==> HandValue(d.dhand[..j]) < 17
          else k == 0)
  {
    hide HandValue;
    if SomeoneCanWin(r) {
      var p :| p in r.seats && p !in r.folded && HandValue(r.hands[p]) <= 21;
      assert p in Contenders(r);
      k := DealerDrawsOff(r.dhand, r.deck);
    } else {
      NobodyContends(r);
      k := 0;
      assert r.deck[..|r.deck|] == r.deck;
    }
  }

  lemma NobodyContends(r: Round)
    requires Shaped(r) && r.status == Playing && !SomeoneCanWin(r)
    ensures Contenders(r) == []
  {
    hide HandValue;
    forall p ensures p !in Contenders(r) { }
    if Contenders(r) != [] { HasFirst(Contenders(r)); }
  }

  lemma HasFirst(s: seq<Player>)
    requires s != []
    ensures exists p :: p in s
  {
    assert s[0] in s;
  }

  // ---- the payout ----

  /** What a seat is reported and paid, given the dealer's final hand: a hand given up or over 21 loses its bet, every other
      hand is paid by its strength against the dealer's, a natural three to two. */
  ghost predicate Fair(hand: seq<Card>, folded: bool, dealer: seq<Card>, bet: int, outcome: Outcome, payout: int) {
    if folded || HandValue(hand) > 21 || Strength(hand) < Strength(dealer) then outcome == Lost && payout == -bet
    else if Strength(hand) == Strength(dealer) then outcome == Pushed && payout == 0
    else if |hand| == 2 && HandValue(hand) == 21 then outcome == Natural && payout == bet * 3 / 2
    else outcome == Won && payout == bet
  }

  lemma VerdictIsFair(hand: seq<Card>, folded: bool, dealer: seq<Card>, bet: int)
    ensures var v := Verdict(hand, folded, dealer, bet); Fair(hand, folded, dealer, bet, v.0, v.1 - bet)
  {
    BustIsHard(hand);
    BustIsHard(dealer);
    hide HandValue, Hard;
  }

  /** Settling a round in play pays every seat fairly and closes it. */
  lemma SettlesByStrength(r: Round)
    requires Shaped(r) && r.status == Playing
    ensures var r', d := Settle(r), DealerPlay(r);
      && r'.status == Over && r'.dhand == d.dhand && r'.deck == d.deck
      && r'.seats == r.seats && r'.hands == r.hands && r'.bet == r.bet && r'.left == r.left
      && r'.results.Keys == r'.payouts.Keys == Elems(r.seats)
      && forall p :: p in r.seats ==>
        && Fair(r.hands[p], p in r.folded, r'.dhand, r.bet[p], r'.results[p], r'.payouts[p])
        && r'.stacks[p] == r.stacks[p] + r.bet[p] + r'.payouts[p]
  {
    var k := DealerPlays(r);
    hide DealerPlay, Verdict, Fair, SomeoneCanWin, DrawnOff, HandValue;
    var d := DealerPlay(r);
    forall p | p in r.seats ensures Fair(r.hands[p], p in r.folded, d.dhand, r.bet[p], Settle(r).results[p], Settle(r).payouts[p]) {
      VerdictIsFair(r.hands[p], p in r.folded, d.dhand, r.bet[p]);
    }
  }

  /** Who gets up in the middle of a hand loses the bet. */
  lemma LeavingForfeits(r: Round, p: Player)
    requires Shaped(r) && InPlay(r, p)
    ensures Settle(Leave(r, p)).payouts[p] == -r.bet[p] && p !in Staying(Settle(Leave(r, p)))
  {
    StepMarks(r, p);
    SettlesByStrength(Leave(r, p));
    hide HandValue, Settle, DealerPlay, Leave;
  }

  // ---- the next round ----

  /** The next round seats, in the old order, those with chips who have not left, with their stacks, the bets they ask for
      or else their last ones, and the button one further. */
  lemma NextRoundIs(r: Round, bets: map<Player, int>, deck: seq<Card>)
    requires Shaped(r) && |deck| >= 2 * |r.seats| + 2
    ensures var stay := Only(r.seats, set p | p in r.seats && p !in r.left && r.stacks[p] > 0);
      && (NextRound(r, bets, deck).None? <==> stay == [])
      && (stay != [] ==>
            var next := NextRound(r, bets, deck).value;
            && next.seats == stay && next.button == (r.button + 1) % |stay|
            && forall p :: p in stay ==>
              && BetFor(next.bet[p], if p in bets then Some(bets[p]) else Asked(r.bet, p), r.stacks[p])
              && next.stacks[p] == r.stacks[p] - next.bet[p])
  {
    hide StartRound, BetFor, Staying, Carried, NextBets;
    NextRoundStarts(r, bets, deck);
    var stay := Staying(r);
    if stay != [] {
      DealIsFair(stay, Carried(r), NextBets(r, bets), r.button + 1, deck);
      var next := NextRound(r, bets, deck).value;
      forall p | p in stay
        ensures BetFor(next.bet[p], if p in bets then Some(bets[p]) else Asked(r.bet, p), r.stacks[p])
        ensures next.stacks[p] == r.stacks[p] - next.bet[p] {
        NextBetIs(r, bets, p);
        LastBet(next.bet[p], bets, r.bet, p, r.stacks[p]);
      }
    }
  }

  lemma NextRoundStarts(r: Round, bets: map<Player, int>, deck: seq<Card>)
    requires Shaped(r) && |deck| >= 2 * |r.seats| + 2
    ensures Staying(r) == Only(r.seats, set p | p in r.seats && p !in r.left && r.stacks[p] > 0)
    ensures NextRound(r, bets, deck) ==
      if Staying(r) == [] then None else Some(StartRound(Staying(r), Carried(r), NextBets(r, bets), r.button + 1, deck))
  {
  }

  lemma NextBetIs(r: Round, bets: map<Player, int>, p: Player)
    requires Shaped(r) && p in Staying(r)
    ensures Asked(NextBets(r, bets), p) == Some(if p in bets then bets[p] else Desired(r.bet, p))
    ensures p in Carried(r) && Carried(r)[p] == r.stacks[p] && p in r.seats
  {
  }

  lemma LastBet(bet: int, bets: map<Player, int>, last: map<Player, int>, p: Player, stack: int)
    requires BetFor(bet, Some(if p in bets then bets[p] else Desired(last, p)), stack)
    ensures BetFor(bet, if p in bets then Some(bets[p]) else Asked(last, p), stack)
  {
  }
}
