/** What holds over any sequence of blackjack rounds: the deck lasts, the dealer stands, the chips add up. */
module BlackjackProofs {
  import opened Seats
  import opened BlackjackHand
  import opened PlayingCards
  import opened BlackjackRules

  function HandsSum(seats: seq<Player>, hands: map<Player, seq<Card>>): nat
    requires forall p :: p in seats ==> p in hands
  {
    if seats == [] then 0 else Hard(hands[seats[0]]) + HandsSum(seats[1..], hands)
  }

  /** All the cards of the round, aces as 1. */
  function CardSum(r: Round): nat
    requires Shaped(r) && r.status != Betting
  {
    HandsSum(r.seats, r.hands) + Hard(r.dhand) + Hard(r.deck)
  }

  /** Nobody holds a negative stack or bet. */
  ghost predicate Solvent(r: Round)
    requires Shaped(r)
  {
    (forall p :: p in r.seats ==> r.stacks[p] >= 0) && (r.status != Betting ==> forall p :: p in r.seats ==> r.bet[p] >= 0)
  }

  /** While cards are played: the whole deck is on the table, and a hand that is not done is not over 21. */
  ghost predicate Dealt(r: Round)
    requires Shaped(r) && r.status != Betting
  {
    && CardSum(r) == 340 && |r.dhand| == 2 && Hard(r.dhand) <= 20
    && (forall p :: p in r.seats ==> Hard(r.hands[p]) <= 31)
    && (forall p :: p in r.seats && p !in r.done ==> Hard(r.hands[p]) <= 21)
  }

  ghost predicate Sound(r: Round) {
    Shaped(r) && Solvent(r) && (r.status == Playing ==> Dealt(r))
  }

  // ---- sums over hands ----

  lemma {:induction false} HandsExt(seats: seq<Player>, a: map<Player, seq<Card>>, b: map<Player, seq<Card>>)
    requires forall p :: p in seats ==> p in a && p in b && a[p] == b[p]
    ensures HandsSum(seats, a) == HandsSum(seats, b)
  {
    if seats != [] { HandsExt(seats[1..], a, b); }
  }

  lemma {:induction false} HandsUpdate(seats: seq<Player>, hands: map<Player, seq<Card>>, p: Player, hand: seq<Card>)
    requires Distinct(seats) && p in seats && forall q :: q in seats ==> q in hands
    ensures HandsSum(seats, hands[p := hand]) == HandsSum(seats, hands) - Hard(hands[p]) + Hard(hand)
  {
    if seats[0] == p {
      HandsExt(seats[1..], hands, hands[p := hand]);
    } else {
      HandsUpdate(seats[1..], hands, p, hand);
    }
  }

  /** With at most 31 in each hand, and at most 21 in the hand of a player named. */
  lemma {:induction false} HandsAtMost(seats: seq<Player>, hands: map<Player, seq<Card>>, p: Player)
    requires forall q :: q in seats ==> q in hands && Hard(hands[q]) <= 31
    ensures HandsSum(seats, hands) <= 31 * |seats|
    ensures p in seats && Hard(hands[p]) <= 21 ==> HandsSum(seats, hands) <= 31 * |seats| - 10
  {
    if seats != [] { HandsAtMost(seats[1..], hands, p); }
  }

  // ---- dealing ----

  lemma TwoCards(a: Card, b: Card)
    ensures 2 <= Hard([a, b]) <= 20
  {
    assert [a, b][1..] == [b] && [b][1..] == [];
    assert Hard([a, b]) == Hard([a]) + Hard([b]) by { HardConcat([a], [b]); assert [a] + [b] == [a, b]; }
  }

  /** Two cards to each. */
  ghost predicate TwoEach(seats: seq<Player>, hands: map<Player, seq<Card>>) {
    forall p :: p in seats ==> p in hands && |hands[p]| == 2 && Hard(hands[p]) <= 20
  }

  lemma TwoEachFirst(seats: seq<Player>, hands: map<Player, seq<Card>>, few: map<Player, seq<Card>>)
    requires seats != [] && TwoEach(seats[1..], few)
    requires seats[0] in hands && |hands[seats[0]]| == 2 && Hard(hands[seats[0]]) <= 20
    requires forall p :: p in seats[1..] ==> p in hands && hands[p] == few[p]
    ensures TwoEach(seats, hands)
  {
    hide Hard;
    assert forall p :: p in seats ==> p == seats[0] || p in seats[1..];
  }

  lemma {:induction false} DealInKeeps(seats: seq<Player>, deck: seq<Card>)
    requires Distinct(seats) && |deck| >= 2 * |seats|
    ensures var d := DealIn(seats, deck);
      HandsSum(seats, d.0) + Hard(d.1) == Hard(deck) && TwoEach(seats, d.0)
    decreases |seats|
  {
    if seats != [] {
      var few := deck[..|deck| - 2];
      assert Distinct(seats[1..]);
      DealInStep(seats, deck);
      hide Hard, HandsSum, DealIn, Distinct, TwoEach;
      DealInKeeps(seats[1..], few);
      HandsExt(seats[1..], DealIn(seats[1..], few).0, DealIn(seats, deck).0);
      TwoCards(deck[|deck| - 1], deck[|deck| - 2]);
      TopTwo(deck);
      SumFirst(seats, DealIn(seats, deck).0);
      TwoEachFirst(seats, DealIn(seats, deck).0, DealIn(seats[1..], few).0);
    } else {
      SumNone(DealIn(seats, deck).0);
    }
  }

  lemma SumNone(hands: map<Player, seq<Card>>)
    ensures HandsSum([], hands) == 0
  {
  }

  lemma SumFirst(seats: seq<Player>, hands: map<Player, seq<Card>>)
    requires seats != [] && forall p :: p in seats ==> p in hands
    ensures HandsSum(seats, hands) == Hard(hands[seats[0]]) + HandsSum(seats[1..], hands)
  {
  }

  lemma TopTwo(deck: seq<Card>)
    requires |deck| >= 2
    ensures var n := |deck|; Hard(deck) == Hard(deck[..n - 2]) + Hard([deck[n - 1], deck[n - 2]])
  {
    hide Hard;
    var n := |deck|;
    HardLast(deck);
    HardLast(deck[..n - 1]);
    assert deck[..n - 1][..n - 2] == deck[..n - 2];
    HardConcat([deck[n - 1]], [deck[n - 2]]);
    assert [deck[n - 1]] + [deck[n - 2]] == [deck[n - 1], deck[n - 2]];
  }

  lemma StartIsSound(seats: seq<Player>, stacks: map<Player, int>, bets: map<Player, int>, button: nat, deck: seq<Card>)
    requires Distinct(seats) && stacks.Keys == Elems(seats) && |deck| >= 2 * |seats| + 2
    requires multiset(deck) == multiset(Pack()) && forall p :: p in seats ==> stacks[p] >= 0
    ensures var r := StartRound(seats, stacks, bets, button, deck);
      Sound(r) && forall p :: p in seats ==> Worth(r, p) == stacks[p]
  {
    hide Hard, HandsSum, DealIn;
    forall p | p in seats ensures 0 <= Bets(seats, stacks, bets)[p] <= stacks[p] { ClampedIsLegal(Desired(bets, p), stacks[p]); }
    hide ClampBet;
    DeckTotal(deck);
    DealInKeeps(seats, deck);
    var left := DealIn(seats, deck).1;
    TopTwo(left);
    TwoCards(left[|left| - 1], left[|left| - 2]);
  }

  // ---- the chips a player has at the table: behind, and bet while the round is played ----

  function Worth(r: Round, p: Player): int
    requires Shaped(r) && p in r.seats
  {
    r.stacks[p] + if r.status == Playing then r.bet[p] else 0
  }

  /** Every payout is between losing the bet and winning one and a half times it. */
  lemma VerdictRange(hand: seq<Card>, folded: bool, dhand: seq<Card>, bet: int)
    requires bet >= 0
    ensures var ret := Verdict(hand, folded, dhand, bet).1; -bet <= ret - bet <= bet * 3 / 2 && ret >= 0
  {
  }

  /** How strong a hand is against the dealer: a natural above everything, a bust below everything. */
  function Strength(hand: seq<Card>): int {
    if |hand| == 2 && HandValue(hand) == 21 then 22 else if HandValue(hand) > 21 then -1 else HandValue(hand)
  }

  /** A hand still in play is paid by strength alone: more than its bet if it is stronger than the dealer's (three to
      two for a natural, even money otherwise), the bet back if as strong, nothing if weaker. */
  lemma VerdictFollowsStrength(hand: seq<Card>, dhand: seq<Card>, bet: int)
    requires HandValue(hand) <= 21
    ensures var ret := Verdict(hand, false, dhand, bet).1;
      ret == if Strength(hand) < Strength(dhand) then 0
             else if Strength(hand) == Strength(dhand) then bet
             else if IsBlackjack(hand) then bet + bet * 3 / 2 else bet + bet
  {
    BustIsHard(hand);
    hide Hard;
  }

  // ---- the deck lasts ----

  lemma SomethingThere(s: seq<Card>)
    ensures Hard(s) > 0 ==> s != []
  {
  }

  /** At a table of up to ten, whoever may hit draws a card. */
  lemma HitAlwaysDraws(r: Round, p: Player)
    requires Sound(r) && |r.seats| <= 10 && Legal(r, p)
    ensures r.deck != []
    ensures var r' := Hit(r, p);
      && r'.hands == r.hands[p := r.hands[p] + [r.deck[|r.deck| - 1]]] && r'.deck == r.deck[..|r.deck| - 1]
      && (p in r'.done <==> HandValue(r'.hands[p]) > 21)
  {
    hide HandsSum;
    HandsAtMost(r.seats, r.hands, p);
    assert r.deck != [] by { SomethingThere(r.deck); }
    hide HandValue, Hard;
  }

  /** Enough cards left for the dealer to reach 17: drawing ends there, and at the first hand that does. */
  lemma {:induction false} DealerStops(dhand: seq<Card>, deck: seq<Card>)
    requires Hard(dhand) + Hard(deck) >= 17
    ensures var d := DealerDraws(dhand, deck).0;
      && HandValue(d) >= DEALER_STANDS && dhand <= d
      && forall k :: |dhand| <= k < |d| ==> HandValue(d[..k]) < DEALER_STANDS
    decreases |deck|
  {
    BustIsHard(dhand);
    SomethingThere(deck);
    if HandValue(dhand) < DEALER_STANDS {
      var c := deck[|deck| - 1];
      HardLast(deck);
      HardConcat(dhand, [c]);
      hide Hard, HandValue;
      DealerStops(dhand + [c], deck[..|deck| - 1]);
      var d := DealerDraws(dhand, deck).0;
      forall k | |dhand| <= k < |d| ensures HandValue(d[..k]) < DEALER_STANDS {
        if k == |dhand| { assert d[..k] == dhand; }
      }
    }
  }

  /** At a table of up to ten, a dealer who plays ends at 17 or more, having stood at the first such total. */
  lemma DealerReachesSeventeen(r: Round)
    requires Sound(r) && r.status == Playing && |r.seats| <= 10
    ensures var d := DealerPlay(r).dhand;
      if Contenders(r) == [] then d == r.dhand
      else HandValue(d) >= 17 && r.dhand <= d && forall k :: 2 <= k < |d| ==> HandValue(d[..k]) < 17
  {
    hide HandsSum, Hard;
    HandsAtMost(r.seats, r.hands, 0);
    if Contenders(r) != [] { DealerStops(r.dhand, r.deck); }
    hide HandValue;
  }

  // ---- every event keeps the books ----

  type Shuffle = d: seq<Card> | |d| == 52 && multiset(d) == multiset(Pack()) witness Pack()

  datatype Event = Hits(p: Player) | Stands(p: Player) | Leaves(p: Player) | Settles
    | Deals(bets: map<Player, int>, deck: Shuffle)

  /** The table between messages: a settled or waiting table may be dealt the next round. */
  function Step(r: Round, e: Event): (r': Round)
    requires Shaped(r) && |r.seats| <= 25
    ensures Shaped(r') && |r'.seats| <= 25
  {
    match e
    case Hits(p) => Hit(r, p)
    case Stands(p) => Stand(r, p)
    case Leaves(p) => Leave(r, p)
    case Settles => Settle(r)
    case Deals(bets, deck) =>
      if r.status == Playing then r
      else match NextRound(r, bets, deck)
        case None => r
        case Some(next) => next
  }

  /** What the event reports as paid to `p`. */
  function Payout(r: Round, e: Event, p: Player): int
    requires Shaped(r) && |r.seats| <= 25
  {
    if e.Settles? && r.status == Playing && p in Step(r, e).payouts then Step(r, e).payouts[p] else 0
  }

  /** The event keeps the table sound and changes what each remaining player is worth by the payout it reports. */
  ghost predicate Booked(r: Round, e: Event)
    requires Shaped(r) && |r.seats| <= 25
  {
    var r' := Step(r, e);
    && Sound(r')
    && forall p :: p in r'.seats ==> p in r.seats && Worth(r', p) == Worth(r, p) + Payout(r, e, p)
  }

  /** The round goes on at the same table, and nobody is worth more or less. */
  ghost predicate Even(r: Round, r': Round)
    requires Shaped(r)
  {
    Sound(r') && r'.seats == r.seats && forall p :: p in r.seats ==> Worth(r', p) == Worth(r, p)
  }

  lemma DrawnSums(r: Round, p: Player)
    requires Sound(r) && Legal(r, p)
    ensures var d := Drawn(r, p);
      && d == r.(hands := d.hands, deck := d.deck) && CardSum(d) == 340
      && Hard(d.hands[p]) <= 31 && forall q :: q in r.seats && q != p ==> d.hands[q] == r.hands[q]
  {
    hide Hard, HandsSum;
    if r.deck != [] {
      var hand, c := r.hands[p], r.deck[|r.deck| - 1];
      HardLast(r.deck);
      HardConcat(hand, [c]);
      HandsUpdate(r.seats, r.hands, p, hand + [c]);
    }
  }

  lemma HitKeeps(r: Round, p: Player)
    requires Sound(r)
    ensures Even(r, Hit(r, p))
  {
    hide Hard, HandValue, CardSum;
    if Legal(r, p) {
      DrawnSums(r, p);
      var d := Drawn(r, p);
      BustIsHard(d.hands[p]);
      hide Drawn;
      SameSum(d, Hit(r, p));
    }
  }

  lemma SameSum(r: Round, r': Round)
    requires Shaped(r) && Shaped(r') && r.status == r'.status == Playing
    requires r'.seats == r.seats && r'.hands == r.hands && r'.dhand == r.dhand && r'.deck == r.deck
    ensures CardSum(r') == CardSum(r)
  {
  }

  lemma StandKeeps(r: Round, p: Player)
    requires Sound(r)
    ensures Even(r, Stand(r, p))
  {
    hide CardSum, Hard;
    if r.status == Playing { SameSum(r, Stand(r, p)); }
  }

  lemma LeaveKeeps(r: Round, p: Player)
    requires Sound(r)
    ensures Even(r, Leave(r, p))
  {
    hide CardSum, Hard;
    if r.status == Playing { SameSum(r, Leave(r, p)); }
  }

  lemma DealerPlayKeeps(r: Round)
    requires Sound(r) && r.status == Playing
    ensures var d := DealerPlay(r); d == r.(dhand := d.dhand, deck := d.deck)
  {
    hide DealerDraws, Contenders;
  }

  /** Settling pays each seat between minus its bet and one and a half times it. */
  lemma SettlePays(r: Round)
    requires Sound(r) && r.status == Playing
    ensures var r' := Settle(r);
      && Sound(r') && r'.seats == r.seats && r'.payouts.Keys == Elems(r.seats)
      && forall p :: p in r.seats ==>
        && -r.bet[p] <= r'.payouts[p] <= r.bet[p] * 3 / 2
        && Worth(r', p) == Worth(r, p) + r'.payouts[p]
  {
    hide Verdict, DealerPlay, VerdictOn, Dealt;
    DealerPlayKeeps(r);
    var d := DealerPlay(r);
    forall p | p in r.seats
      ensures var ret := VerdictOn(d, p).1; ret >= 0 && -r.bet[p] <= ret - r.bet[p] <= r.bet[p] * 3 / 2 {
      VerdictOnRange(d, p);
    }
  }

  lemma VerdictOnRange(r: Round, p: Player)
    requires Shaped(r) && Solvent(r) && r.status == Playing && p in r.seats
    ensures var ret := VerdictOn(r, p).1; ret >= 0 && -r.bet[p] <= ret - r.bet[p] <= r.bet[p] * 3 / 2
  {
    VerdictRange(r.hands[p], p in r.folded, r.dhand, r.bet[p]);
    hide Verdict;
  }

  /** Settling a settled round changes nothing. */
  lemma SettleTwice(r: Round)
    requires Shaped(r)
    ensures Settle(Settle(r)) == Settle(r)
  {
    hide DealerPlay, VerdictOn;
  }

  lemma NextKeeps(r: Round, bets: map<Player, int>, deck: Shuffle)
    requires Sound(r) && r.status != Playing && |r.seats| <= 25 && NextRound(r, bets, deck).Some?
    ensures var r' := NextRound(r, bets, deck).value;
      && Sound(r') && r'.seats == Staying(r)
      && forall p :: p in r'.seats ==> p in r.seats && Worth(r', p) == Worth(r, p)
  {
    hide Dealt, Solvent, Staying, Carried, NextBets, StartRound;
    assert forall p :: p in Staying(r) ==> p in Carried(r) && Carried(r)[p] == Worth(r, p) > 0;
    StartIsSound(Staying(r), Carried(r), NextBets(r, bets), r.button + 1, deck);
    hide Worth, Sound;
  }

  lemma StepBooked(r: Round, e: Event)
    requires Sound(r) && |r.seats| <= 25
    ensures Booked(r, e)
  {
    assert Shaped(r);
    hide Sound, Shaped, Hit, Stand, Leave, Even, Booked;
    match e {
      case Hits(p) =>
        HitKeeps(r, p);
        EvenBooks(r, e);
      case Stands(p) =>
        StandKeeps(r, p);
        EvenBooks(r, e);
      case Leaves(p) =>
        LeaveKeeps(r, p);
        EvenBooks(r, e);
      case Settles => SettleBooks(r);
      case Deals(bets, deck) => DealBooks(r, bets, deck);
    }
  }

  lemma EvenBooks(r: Round, e: Event)
    requires Shaped(r) && |r.seats| <= 25 && !e.Settles? && Even(r, Step(r, e))
    ensures Booked(r, e)
  {
    hide Sound, Shaped, Step, Worth;
  }

  lemma SettleBooks(r: Round)
    requires Sound(r) && |r.seats| <= 25
    ensures Booked(r, Settles)
  {
    assert Shaped(r);
    hide Sound, Shaped, Settle, Worth;
    if r.status == Playing { SettlePays(r); } else { SettleOver(r); }
  }

  lemma DealBooks(r: Round, bets: map<Player, int>, deck: Shuffle)
    requires Sound(r) && |r.seats| <= 25
    ensures Booked(r, Deals(bets, deck))
  {
    assert Shaped(r);
    hide Sound, Shaped, NextRound, Worth, Staying, Booked, NextRound;
    var e: Event := Deals(bets, deck);
    if r.status != Playing && NextRound(r, bets, deck).Some? {
      NextKeeps(r, bets, deck);
      assert Step(r, e) == NextRound(r, bets, deck).value;
    } else {
      assert Step(r, e) == r;
    }
    CarriedBooks(r, e);
  }

  lemma CarriedBooks(r: Round, e: Event)
    requires Shaped(r) && |r.seats| <= 25 && !e.Settles?
    requires var r' := Step(r, e); Sound(r') && forall p :: p in r'.seats ==> p in r.seats && Worth(r', p) == Worth(r, p)
    ensures Booked(r, e)
  {
    hide Sound, Shaped, Step, Worth;
  }

  lemma SettleOver(r: Round)
    requires Shaped(r) && r.status != Playing
    ensures Settle(r) == r
  {
  }

  // ---- runs ----

  function Run(r: Round, es: seq<Event>): (r': Round)
    requires Shaped(r) && |r.seats| <= 25
    ensures Shaped(r')
    decreases |es|
  {
    if es == [] then r else Run(Step(r, es[0]), es[1..])
  }

  /** The payouts reported to `p` along a run. */
  function Reported(r: Round, es: seq<Event>, p: Player): int
    requires Shaped(r) && |r.seats| <= 25
    decreases |es|
  {
    if es == [] then 0 else Payout(r, es[0], p) + Reported(Step(r, es[0]), es[1..], p)
  }

  /** Over any rounds, what a player who is still seated is worth has changed by exactly the payouts reported, and no
      stack is ever negative. */
  lemma {:induction false} RunBooked(r: Round, es: seq<Event>)
    requires Sound(r) && |r.seats| <= 25
    ensures var r' := Run(r, es);
      Sound(r') && forall p :: p in r'.seats ==> p in r.seats && Worth(r', p) == Worth(r, p) + Reported(r, es, p)
    decreases |es|
  {
    if es != [] {
      hide Sound, Step, Payout, Worth;
      StepBooked(r, es[0]);
      RunBooked(Step(r, es[0]), es[1..]);
    }
  }

  /** From a new table on, through its first deal and every later one. */
  lemma TableBooked(seats: seq<Player>, stacks: map<Player, int>, es: seq<Event>)
    requires Distinct(seats) && stacks.Keys == Elems(seats) && |seats| <= 25 && forall p :: p in seats ==> stacks[p] >= 0
    ensures var t := NewTable(seats, stacks); var r := Run(t, es);
      Sound(r) && forall p :: p in r.seats ==> p in seats && Worth(r, p) == stacks[p] + Reported(t, es, p)
  {
    RunBooked(NewTable(seats, stacks), es);
    hide Sound, Run, Reported;
  }
}
