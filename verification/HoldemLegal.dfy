/** What the Hold'em table offers the player to act, and what it does with the answer (botframework/holdem_game.py). */
module HoldemLegal {
  import opened Seats
  import opened Numbers
  import opened HoldemRules
  import opened HoldemProofs

  /** `call` is the chips a call takes, None for a free check; `raiseTo` the least and the greatest total a raise may
      reach, None when there is not enough to raise. */
  datatype Offer = Offer(allIn: bool, call: Option<int>, raiseTo: Option<(int, int)>)

  function LegalActions(h: Hand, p: Player): Option<Offer>
    requires Shaped(h)
  {
    if h.status != Betting || h.toAct != Some(p) then None
    else
      var call, stack := CallAmount(h, p), h.stacks[p];
      Some(Offer(stack > 0,
                 if call == 0 then None else Some(Min(call, stack)),
                 if stack > call then Some((h.toCall + h.minRaise, h.streetBet[p] + stack)) else None))
  }

  /** The player to act, who can act. Every hand in play has one. */
  ghost predicate HasActor(h: Hand) {
    Open(h) && h.toAct.Some? && IsAble(h, h.toAct.value)
  }

  lemma PlayHasActor(h: Hand)
    requires Playing(h)
    ensures HasActor(h)
  {
    hide Live, Money;
    ActorIsAble(h);
  }

  /** A call takes exactly what was offered, and a check nothing when no call was. */
  lemma CallTakesTheOffer(h: Hand, p: Player)
    requires HasActor(h) && h.toAct == Some(p)
    ensures var offer := LegalActions(h, p).value;
      var m := Move(h, p, Call).value;
      && m.stacks[p] == h.stacks[p] - (if offer.call.Some? then offer.call.value else 0)
      && m.contrib[p] - h.contrib[p] == h.stacks[p] - m.stacks[p]
      && Move(h, p, Check) == (if offer.call.None? then Some(h) else Some(m))
  {
    hide Live;
  }

  /** A raise goes to the amount asked for, pulled into the range offered: never below the least raise unless all-in,
      never beyond the stack. Without an offer to raise it is an all-in that does not lift the bet. */
  lemma RaiseStaysInTheOffer(h: Hand, p: Player, amount: int)
    requires HasActor(h) && h.toAct == Some(p)
    ensures var offer := LegalActions(h, p).value;
      var m := Move(h, p, Raise(amount)).value;
      && m.streetBet[p] - h.streetBet[p] == h.stacks[p] - m.stacks[p]
      && match offer.raiseTo
         case Some(range) =>
           m.streetBet[p] == Min(Max(amount, range.0), range.1) == m.toCall > h.toCall
         case None => m.stacks[p] == 0 && m.toCall == h.toCall && m.streetBet[p] <= h.toCall
  {
    hide Live, Move, RaiseTo, GoAllIn, Shaped;
    HasLedgers(h, p);
    MoveRaiseIs(h, p, amount);
    AllInGoes(h, p);
    var target := Max(amount, h.toCall + h.minRaise);
    if target - h.streetBet[p] < h.stacks[p] {
      RaiseGoes(h, p, target);
      RaiseLevels(h, p, target);
    }
  }

  /** Only the player to act has an offer; an all-in is always part of it, and moves the whole stack into the pot. */
  lemma AllInTakesTheOffer(h: Hand, p: Player, other: Player)
    requires HasActor(h) && h.toAct == Some(p)
    ensures LegalActions(h, other).Some? <==> other == p
    ensures LegalActions(h, p).value.allIn
    ensures var m := Move(h, p, AllIn).value;
      m.stacks[p] == 0 && m.streetBet[p] == h.streetBet[p] + h.stacks[p] && m.toCall == Max(h.toCall, m.streetBet[p])
  {
    hide Live, GoAllIn;
    AllInGoes(h, p);
  }

  lemma AllInGoes(h: Hand, p: Player)
    requires Shaped(h) && p in h.seats
    ensures var m := GoAllIn(h, p);
      && m.stacks[p] == 0 && m.streetBet[p] == h.streetBet[p] + h.stacks[p]
      && m.toCall == Max(h.toCall, m.streetBet[p])
  {
    HasLedgers(h, p);
    hide Shaped;
  }

  lemma RaiseGoes(h: Hand, p: Player, target: int)
    requires Shaped(h) && p in h.seats && target - h.streetBet[p] < h.stacks[p]
    ensures var m := RaiseTo(h, p, target);
      m.streetBet[p] == target && m.stacks[p] == h.stacks[p] - (target - h.streetBet[p])
  {
    HasLedgers(h, p);
    hide Shaped;
  }
}
