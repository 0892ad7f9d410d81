/** The blackjack table object of the source: one state dictionary, updated in place (botframework/blackjack_game.py).

  `st` is that dictionary. Every method is proved against the function of the same name in `BlackjackRules`.
 */
module BlackjackTable {
  import opened Seats
  import opened BlackjackHand
  import opened PlayingCards
  import opened BlackjackRules

  class Table {
    var st: Round

    /** Deals a new round: bets posted, two cards each, two for the dealer. */
    constructor (seats: seq<Player>, stacks: map<Player, int>, bets: map<Player, int>, button: nat, deck: seq<Card>)
      requires Distinct(seats) && stacks.Keys == Elems(seats) && |deck| >= 2 * |seats| + 2
      ensures st == StartRound(seats, stacks, bets, button, deck)
    {
      var bet, hands, left, done, cards := DealEach(seats, stacks, bets, deck);
      var c := |cards|;
      st := Round(seats, if seats == [] then 0 else button % |seats|, left, bet, cards[..c - 2], hands,
                  [cards[c - 1], cards[c - 2]], done, {}, {}, {}, Playing, map[], map[]);
    }

    /** Draws a card for a live hand; true if it busts. */
    method Hit(p: Player) returns (bust: bool)
      requires Shaped(st)
      modifies this
      ensures st == BlackjackRules.Hit(old(st), p)
      ensures bust == (Legal(old(st), p) && p in st.busted && p in st.hands && HandValue(st.hands[p]) > 21)
    {
      hide HandValue;
      if !Legal(st, p) { return false; }
      assert p in st.hands;
      if st.deck != [] {
        var c := st.deck[|st.deck| - 1];
        st := st.(hands := st.hands[p := st.hands[p] + [c]], deck := st.deck[..|st.deck| - 1]);
      }
      var v := ComputeHandValue(st.hands[p]);
      bust := v > 21;
      if bust { st := st.(done := st.done + {p}, busted := st.busted + {p}); }
    }

    method Stand(p: Player)
      modifies this
      ensures st == BlackjackRules.Stand(old(st), p)
    {
      if Legal(st, p) { st := st.(done := st.done + {p}); }
    }

    /** Stands a player out of the round; it is not dealt the next one. */
    method Leave(p: Player)
      modifies this
      ensures st == BlackjackRules.Leave(old(st), p)
    {
      if p !in st.seats { return; }
      st := st.(left := st.left + {p});
      if Legal(st, p) { st := st.(done := st.done + {p}, folded := st.folded + {p}); }
    }

    /** The dealer draws, if anybody can still win. */
    method DealerPlay()
      requires Shaped(st) && st.status == Playing
      modifies this
      ensures st == BlackjackRules.DealerPlay(old(st))
    {
      hide HandValue;
      ghost var r := st;
      if Contenders(st) != [] {
        while HandValue(st.dhand) < DEALER_STANDS && st.deck != []
          invariant st == r.(dhand := st.dhand, deck := st.deck)
          invariant DealerDraws(st.dhand, st.deck) == DealerDraws(r.dhand, r.deck)
          decreases |st.deck|
        {
          var c := st.deck[|st.deck| - 1];
          st := st.(dhand := st.dhand + [c], deck := st.deck[..|st.deck| - 1]);
        }
      }
    }

    /** Dealer plays, every seat is paid, the round is over; a round already over is left alone. */
    method Settle()
      requires Shaped(st)
      modifies this
      ensures st == BlackjackRules.Settle(old(st))
    {
      if st.status != Playing { return; }
      DealerPlay();
      hide VerdictOn, BlackjackRules.DealerPlay;
      var stacks, results, payouts := PayEach(st);
      st := st.(stacks := stacks, results := results, payouts := payouts, status := Over);
    }

    /** Deals the next round to those who stay, or reports that the table closes. */
    method NextRound(bets: map<Player, int>, deck: seq<Card>) returns (next: Table?)
      requires Shaped(st) && |deck| >= 2 * |st.seats| + 2
      ensures next == null <==> BlackjackRules.NextRound(st, bets, deck).None?
      ensures next != null ==> fresh(next) && Some(next.st) == BlackjackRules.NextRound(st, bets, deck)
    {
      hide StartRound;
      if Staying(st) == [] { return null; }
      next := new Table(Staying(st), Carried(st), NextBets(st, bets), st.button + 1, deck);
    }
  }

  // ---- the loops over the seats ----

  method PayEach(r: Round) returns (stacks: map<Player, int>, results: map<Player, Outcome>, payouts: map<Player, int>)
    requires Shaped(r) && r.status == Playing
    ensures stacks == PaidStacks(r) && results == Results(r) && payouts == Payouts(r)
  {
    hide VerdictOn, Assigned, Distinct;
    stacks, results, payouts := r.stacks, map[], map[];
    NoneAssigned(stacks, r.seats, PaidStacks(r));
    NoneAssigned(results, r.seats, Results(r));
    NoneAssigned(payouts, r.seats, Payouts(r));
    for n := 0 to |r.seats|
      invariant stacks == Assigned(r.stacks, r.seats, PaidStacks(r), n)
      invariant results == Assigned(map[], r.seats, Results(r), n)
      invariant payouts == Assigned(map[], r.seats, Payouts(r), n)
    {
      var p := r.seats[n];
      assert p in r.seats;
      OneAssigned(r.stacks, r.seats, PaidStacks(r), n);
      OneAssigned(map[], r.seats, Results(r), n);
      OneAssigned(map[], r.seats, Payouts(r), n);
      var (outcome, ret) := VerdictOn(r, p);
      stacks := stacks[p := stacks[p] + ret];
      results := results[p := outcome];
      payouts := payouts[p := ret - r.bet[p]];
    }
    AllAssigned(r.stacks, r.seats, PaidStacks(r));
    AllAssigned(map[], r.seats, Results(r));
    AllAssigned(map[], r.seats, Payouts(r));
  }

  lemma NoneAssigned<V>(m: map<Player, V>, s: seq<Player>, f: map<Player, V>)
    requires forall p :: p in s ==> p in f
    ensures Assigned(m, s, f, 0) == m
  {
  }

  /** Seat `n` has not been assigned before, and this is how it is. */
  lemma OneAssigned<V>(m: map<Player, V>, s: seq<Player>, f: map<Player, V>, n: nat)
    requires Distinct(s) && n < |s| && forall p :: p in s ==> p in f
    ensures Assigned(m, s, f, n + 1) == Assigned(m, s, f, n)[s[n] := f[s[n]]]
    ensures s[n] in m ==> s[n] in Assigned(m, s, f, n) && Assigned(m, s, f, n)[s[n]] == m[s[n]]
  {
    SeatAt(s, n);
    AssignedAt(m, s, f, n, s[n]);
  }

  method DealEach(seats: seq<Player>, stacks: map<Player, int>, bets: map<Player, int>, deck: seq<Card>)
    returns (bet: map<Player, int>, hands: map<Player, seq<Card>>, left: map<Player, int>, done: set<Player>, cards: seq<Card>)
    requires Distinct(seats) && stacks.Keys == Elems(seats) && |deck| >= 2 * |seats|
    ensures bet == Bets(seats, stacks, bets) && left == Posted(seats, stacks, bets)
    ensures hands == DealIn(seats, deck).0 && cards == DealIn(seats, deck).1
    ensures done == Naturals(seats, hands)
  {
    hide IsBlackjack, ClampBet, DealIn, Assigned, Distinct, Naturals, RestDealt;
    bet, hands, left, done, cards := map[], map[], stacks, {}, deck;
    ghost var dealt := DealIn(seats, deck);
    NoneAssigned(bet, seats, Bets(seats, stacks, bets));
    NoneAssigned(left, seats, Posted(seats, stacks, bets));
    NoneAssigned(hands, seats, dealt.0);
    RestStart(seats, cards);
    assert done == Naturals(seats[..0], dealt.0) by { NoNaturals(seats[..0], dealt.0); }
    for n := 0 to |seats|
      invariant bet == Assigned(map[], seats, Bets(seats, stacks, bets), n)
      invariant left == Assigned(stacks, seats, Posted(seats, stacks, bets), n)
      invariant hands == Assigned(map[], seats, dealt.0, n)
      invariant RestDealt(seats, dealt.0, dealt.1, n, cards)
      invariant done == Naturals(seats[..n], dealt.0)
    {
      var p := seats[n];
      assert p in seats;
      OneAssigned(map[], seats, Bets(seats, stacks, bets), n);
      OneAssigned(stacks, seats, Posted(seats, stacks, bets), n);
      OneAssigned(map[], seats, dealt.0, n);
      RestStep(seats, dealt.0, dealt.1, n, cards);
      NaturalsGrow(seats, dealt.0, n);
      var b := ClampBet(Desired(bets, p), left[p]);
      var hand := [cards[|cards| - 1], cards[|cards| - 2]];
      bet := bet[p := b];
      left := left[p := left[p] - b];
      hands := hands[p := hand];
      cards := cards[..|cards| - 2];
      if IsBlackjack(hand) { done := done + {p}; }
    }
    AllAssigned(map[], seats, Bets(seats, stacks, bets));
    AllAssigned(stacks, seats, Posted(seats, stacks, bets));
    AllAssigned(map[], seats, dealt.0);
    assert seats[..|seats|] == seats;
    RestEnd(seats, dealt.0, dealt.1, cards);
  }

  /** Dealing the seats from `n` on, off `cards`, gives the hands and the deck of the whole deal. */
  ghost predicate RestDealt(seats: seq<Player>, hands: map<Player, seq<Card>>, last: seq<Card>, n: nat, cards: seq<Card>)
    requires n <= |seats| && forall p :: p in seats ==> p in hands
  {
    && |cards| >= 2 * (|seats| - n) && last == DealIn(seats[n..], cards).1
    && forall p :: p in seats[n..] ==> hands[p] == DealIn(seats[n..], cards).0[p]
  }

  lemma RestStart(seats: seq<Player>, deck: seq<Card>)
    requires |deck| >= 2 * |seats|
    ensures RestDealt(seats, DealIn(seats, deck).0, DealIn(seats, deck).1, 0, deck)
  {
    hide DealIn;
    assert seats[0..] == seats;
  }

  lemma RestStep(seats: seq<Player>, hands: map<Player, seq<Card>>, last: seq<Card>, n: nat, cards: seq<Card>)
    requires Distinct(seats) && n < |seats| && forall p :: p in seats ==> p in hands
    requires RestDealt(seats, hands, last, n, cards)
    ensures |cards| >= 2 && hands[seats[n]] == [cards[|cards| - 1], cards[|cards| - 2]]
    ensures RestDealt(seats, hands, last, n + 1, cards[..|cards| - 2])
  {
    hide DealIn;
    RestOf(seats, n);
    DealInStep(seats[n..], cards);
    assert seats[n] in seats[n..];
    assert forall p :: p in seats[n + 1..] ==> p in seats[n..];
  }

  lemma RestEnd(seats: seq<Player>, hands: map<Player, seq<Card>>, last: seq<Card>, cards: seq<Card>)
    requires (forall p :: p in seats ==> p in hands) && RestDealt(seats, hands, last, |seats|, cards)
    ensures cards == last
  {
  }

  lemma RestOf(seats: seq<Player>, n: nat)
    requires Distinct(seats) && n < |seats|
    ensures Distinct(seats[n..]) && seats[n..][0] == seats[n] && seats[n..][1..] == seats[n + 1..]
  {
  }

  lemma NoNaturals(seats: seq<Player>, hands: map<Player, seq<Card>>)
    requires seats == []
    ensures Naturals(seats, hands) == {}
  {
  }

  lemma NaturalsGrow(seats: seq<Player>, hands: map<Player, seq<Card>>, n: nat)
    requires n < |seats| && forall p :: p in seats ==> p in hands
    ensures Naturals(seats[..n + 1], hands)
         == Naturals(seats[..n], hands) + if IsBlackjack(hands[seats[n]]) then {seats[n]} else {}
  {
    hide IsBlackjack;
    assert seats[..n + 1] == seats[..n] + [seats[n]];
  }
}
