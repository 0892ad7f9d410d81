/** The blackjack table as functions on a round (botframework/blackjack_game.py).

  The source keeps one dictionary and updates it in place; `BlackjackTable.Table` is that object, and each of its
  methods is proved against the function of the same name here.
 */
module BlackjackRules {
  import opened Seats
  import opened Numbers
  import opened BlackjackHand
  import opened PlayingCards

  const DEFAULT_BET := 25
  const MIN_BET := 5
  const DEALER_STANDS := 17

  datatype Status = Betting | Playing | Over

  datatype Outcome = Lost | Won | Natural | Pushed

  datatype Round = Round(
    seats: seq<Player>, button: nat, stacks: map<Player, int>, bet: map<Player, int>,
    deck: seq<Card>, hands: map<Player, seq<Card>>, dhand: seq<Card>,
    done: set<Player>, busted: set<Player>, folded: set<Player>, left: set<Player>,
    status: Status, results: map<Player, Outcome>, payouts: map<Player, int>)

  /** Every seat has a stack, and once cards are dealt a bet and a hand. */
  ghost predicate Shaped(r: Round) {
    && Distinct(r.seats) && r.stacks.Keys == Elems(r.seats)
    && (r.status != Betting ==> r.bet.Keys == r.hands.Keys == Elems(r.seats))
  }

  /** A legal bet; a desired bet of 0 means the default. */
  function ClampBet(bet: int, stack: int): int {
    if stack <= 0 then 0 else Min(Max(MIN_BET, if bet == 0 then DEFAULT_BET else bet), stack)
  }

  lemma ClampedIsLegal(bet: int, stack: int)
    ensures var b := ClampBet(bet, stack);
      && b >= 0 && (stack >= 0 ==> b <= stack)
      && (b >= MIN_BET || b == Max(0, stack))
      && (MIN_BET <= bet <= stack ==> b == bet) && (stack >= DEFAULT_BET && bet == 0 ==> b == DEFAULT_BET)
  {
  }

  function Desired(bets: map<Player, int>, p: Player): int {
    if p in bets then bets[p] else DEFAULT_BET
  }

  /** Two cards to each seat in turn, off the end of the deck. */
  function DealIn(seats: seq<Player>, deck: seq<Card>): (r: (map<Player, seq<Card>>, seq<Card>))
    requires |deck| >= 2 * |seats|
    ensures r.0.Keys == Elems(seats) && |r.1| == |deck| - 2 * |seats|
    decreases |seats|
  {
    if seats == [] then (map[], deck)
    else
      var d := |deck|;
      var rest := DealIn(seats[1..], deck[..d - 2]);
      (map[seats[0] := [deck[d - 1], deck[d - 2]]] + rest.0, rest.1)
  }

  lemma DealInStep(seats: seq<Player>, deck: seq<Card>)
    requires Distinct(seats) && seats != [] && |deck| >= 2 * |seats|
    ensures var n := |deck|; var d, rest := DealIn(seats, deck), DealIn(seats[1..], deck[..n - 2]);
      && d.1 == rest.1 && d.0[seats[0]] == [deck[n - 1], deck[n - 2]]
      && forall p :: p in seats[1..] ==> d.0[p] == rest.0[p]
  {
    assert seats[0] !in seats[1..];
  }

  function Bets(seats: seq<Player>, stacks: map<Player, int>, bets: map<Player, int>): (b: map<Player, int>)
    requires stacks.Keys == Elems(seats)
    ensures b.Keys == Elems(seats)
  {
    map p | p in seats :: ClampBet(Desired(bets, p), stacks[p])
  }

  /** The stacks once the bets are posted. */
  function Posted(seats: seq<Player>, stacks: map<Player, int>, bets: map<Player, int>): (m: map<Player, int>)
    requires stacks.Keys == Elems(seats)
    ensures m.Keys == Elems(seats)
  {
    map p | p in seats :: stacks[p] - Bets(seats, stacks, bets)[p]
  }

  /** Naturals are done at once. */
  function Naturals(seats: seq<Player>, hands: map<Player, seq<Card>>): set<Player>
    requires forall p :: p in seats ==> p in hands
  {
    set p | p in seats && IsBlackjack(hands[p])
  }

  function StartRound(seats: seq<Player>, stacks: map<Player, int>, bets: map<Player, int>, button: nat,
                      deck: seq<Card>): (r: Round)
    requires Distinct(seats) && stacks.Keys == Elems(seats) && |deck| >= 2 * |seats| + 2
    ensures Shaped(r) && r.seats == seats && r.status == Playing
  {
    var dealt := DealIn(seats, deck);
    var d := |dealt.1|;
    Round(seats, if seats == [] then 0 else button % |seats|, Posted(seats, stacks, bets), Bets(seats, stacks, bets),
          dealt.1[..d - 2], dealt.0, [dealt.1[d - 1], dealt.1[d - 2]],
          Naturals(seats, dealt.0), {}, {}, {}, Playing, map[], map[])
  }

  /** A table waiting for the first bet. */
  function NewTable(seats: seq<Player>, stacks: map<Player, int>): (r: Round)
    requires Distinct(seats) && stacks.Keys == Elems(seats)
    ensures Shaped(r) && r.seats == seats && r.status == Betting
  {
    Round(seats, 0, stacks, map[], [], map[], [], {}, {}, {}, {}, Betting, map[], map[])
  }

  /** The seat may still hit or stand. */
  predicate Legal(r: Round, p: Player) {
    r.status == Playing && p in r.seats && p !in r.done
  }

  function Drawn(r: Round, p: Player): (r': Round)
    requires Shaped(r) && Legal(r, p)
    ensures Shaped(r') && r'.seats == r.seats && p in r'.hands
  {
    assert p in r.hands;
    if r.deck == [] then r
    else r.(hands := r.hands[p := r.hands[p] + [r.deck[|r.deck| - 1]]], deck := r.deck[..|r.deck| - 1])
  }

  function Hit(r: Round, p: Player): (r': Round)
    requires Shaped(r)
    ensures Shaped(r') && r'.seats == r.seats
  {
    if !Legal(r, p) then r
    else
      var d := Drawn(r, p);
      if HandValue(d.hands[p]) > 21 then d.(done := d.done + {p}, busted := d.busted + {p}) else d
  }

  function Stand(r: Round, p: Player): Round {
    if !Legal(r, p) then r else r.(done := r.done + {p})
  }

  function Leave(r: Round, p: Player): Round {
    if p !in r.seats then r
    else
      var r1 := r.(left := r.left + {p});
      if Legal(r1, p) then r1.(done := r1.done + {p}, folded := r1.folded + {p}) else r1
  }

  /** Players who can still win. */
  function Contenders(r: Round): seq<Player>
    requires Shaped(r) && r.status != Betting
  {
    Only(r.seats, set p | p in r.seats && p !in r.folded && HandValue(r.hands[p]) <= 21)
  }

  /** The dealer's hand and the deck after drawing. */
  function DealerDraws(dhand: seq<Card>, deck: seq<Card>): (seq<Card>, seq<Card>)
    decreases |deck|
  {
    if HandValue(dhand) >= DEALER_STANDS || deck == [] then (dhand, deck)
    else DealerDraws(dhand + [deck[|deck| - 1]], deck[..|deck| - 1])
  }

  function DealerPlay(r: Round): (r': Round)
    requires Shaped(r) && r.status == Playing
    ensures Shaped(r')
  {
    if Contenders(r) == [] then r
    else
      var d := DealerDraws(r.dhand, r.deck);
      r.(dhand := d.0, deck := d.1)
  }

  /** The outcome for one hand and the chips handed back. */
  function Verdict(hand: seq<Card>, folded: bool, dhand: seq<Card>, bet: int): (Outcome, int) {
    var pv, dv := HandValue(hand), HandValue(dhand);
    if folded || pv > 21 then (Lost, 0)
    else if IsBlackjack(hand) && !IsBlackjack(dhand) then (Natural, bet + bet * 3 / 2)
    else if IsBlackjack(dhand) && !IsBlackjack(hand) then (Lost, 0)
    else if dv > 21 || pv > dv then (Won, bet * 2)
    else if pv < dv then (Lost, 0)
    else (Pushed, bet)
  }

  function VerdictOn(r: Round, p: Player): (Outcome, int)
    requires Shaped(r) && r.status != Betting && p in r.seats
  {
    Verdict(r.hands[p], p in r.folded, r.dhand, r.bet[p])
  }

  function PaidStacks(r: Round): (m: map<Player, int>)
    requires Shaped(r) && r.status != Betting
    ensures m.Keys == Elems(r.seats)
  {
    map p | p in r.seats :: r.stacks[p] + VerdictOn(r, p).1
  }

  function Results(r: Round): (m: map<Player, Outcome>)
    requires Shaped(r) && r.status != Betting
    ensures m.Keys == Elems(r.seats)
  {
    map p | p in r.seats :: VerdictOn(r, p).0
  }

  function Payouts(r: Round): (m: map<Player, int>)
    requires Shaped(r) && r.status != Betting
    ensures m.Keys == Elems(r.seats)
  {
    map p | p in r.seats :: VerdictOn(r, p).1 - r.bet[p]
  }

  function PaidOut(r: Round): Round
    requires Shaped(r) && r.status == Playing
  {
    r.(stacks := PaidStacks(r), results := Results(r), payouts := Payouts(r), status := Over)
  }

  function Settle(r: Round): (r': Round)
    requires Shaped(r)
    ensures Shaped(r')
  {
    if r.status != Playing then r else PaidOut(DealerPlay(r))
  }

  /** Who plays the next round: neither gone nor broke, in table order. */
  function Staying(r: Round): (s: seq<Player>)
    requires Shaped(r)
    ensures Distinct(s) && |s| <= |r.seats| && forall p :: p in s <==> p in r.seats && p !in r.left && r.stacks[p] > 0
  {
    OnlyDistinct(r.seats, set p | p in r.seats && p !in r.left && r.stacks[p] > 0);
    Only(r.seats, set p | p in r.seats && p !in r.left && r.stacks[p] > 0)
  }

  function Carried(r: Round): (m: map<Player, int>)
    requires Shaped(r)
    ensures m.Keys == Elems(Staying(r)) && forall p :: p in m ==> m[p] == r.stacks[p] > 0
  {
    map p | p in Staying(r) :: r.stacks[p]
  }

  /** The bet asked for, else the last one. */
  function NextBets(r: Round, bets: map<Player, int>): map<Player, int>
    requires Shaped(r)
  {
    map p | p in Staying(r) :: if p in bets then bets[p] else Desired(r.bet, p)
  }

  /** The next round carries the stacks; with nobody left the table closes. */
  function NextRound(r: Round, bets: map<Player, int>, deck: seq<Card>): (next: Option<Round>)
    requires Shaped(r) && |deck| >= 2 * |r.seats| + 2
    ensures next.Some? ==> Shaped(next.value) && next.value.seats == Staying(r)
  {
    if Staying(r) == [] then None
    else Some(StartRound(Staying(r), Carried(r), NextBets(r, bets), r.button + 1, deck))
  }
}
