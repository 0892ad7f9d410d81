/** Who wins a Hold'em showdown, said of the cards and the contributions alone. */
module HoldemShowdown {
  import opened Seats
  import opened HandRank
  import opened PlayingCards
  import opened HoldemRules
  import opened HoldemProofs
  import SidePots
  import Lex

  /** `q`'s best five of hole cards and board are worse than `p`'s. */
  predicate Beats(h: Hand, p: Player, q: Player)
    requires Shaped(h) && p in h.seats && q in h.seats
  {
    Lex.Less(Evaluate7(h.hole[q] + h.board), Evaluate7(h.hole[p] + h.board))
  }

  /** `p` is in the hand and beats everybody else who is. */
  ghost predicate BeatsAll(h: Hand, p: Player)
    requires Shaped(h)
  {
    p in h.seats && p !in h.folded && forall q :: q in h.seats && q !in h.folded && q != p ==> Beats(h, p, q)
  }

  /** Somebody in the hand has put in as much as `p` and beats `p`, or `p` has folded. */
  ghost predicate Outdone(h: Hand, p: Player)
    requires Shaped(h) && p in h.seats
  {
    exists q :: q in h.seats && q !in h.folded && h.contrib[p] <= h.contrib[q] && (p in h.folded || Beats(h, q, p))
  }

  /** What everybody put in against `p`: the smaller of each one's contribution and `p`'s. */
  function StakeAgainst(h: Hand, p: Player): int
    requires Shaped(h) && p in h.seats
  {
    SidePots.Matchable(h.seats, h.contrib, 0, p)
  }

  /** The stacks of `r` are those of `h` after a showdown: a hand that beats all others takes everything that matches it, one
      that is outdone takes nothing, nobody loses, and the winners named are those who gained, with their gains. */
  ghost predicate PaidByHands(h: Hand, r: Hand)
    requires Shaped(h) && Shaped(r) && r.seats == h.seats
  {
    && (forall p :: BeatsAll(h, p) ==> r.stacks[p] - h.stacks[p] == StakeAgainst(h, p))
    && (forall p :: p in h.seats && Outdone(h, p) ==> r.stacks[p] == h.stacks[p])
    && (forall p :: p in h.seats ==> 0 <= r.stacks[p] - h.stacks[p] <= StakeAgainst(h, p))
    && r.winners == map p | p in h.seats && r.stacks[p] > h.stacks[p] :: r.stacks[p] - h.stacks[p]
  }

  function Deal(h: Hand): SidePots.Pot
    requires Shaped(h)
  {
    SidePots.PotOf(h.seats, h.contrib, Live(h), Ranks(h))
  }

  lemma {:induction false} MatchableOfPayers(s: seq<Player>, paying: set<Player>, contrib: map<Player, int>, p: Player)
    requires p in contrib && forall q :: q in s ==> q in contrib && contrib[q] >= 0 && (q in paying <==> contrib[q] > 0)
    ensures SidePots.Matchable(Only(s, paying), contrib, 0, p) == SidePots.Matchable(s, contrib, 0, p)
  {
    if s != [] { MatchableOfPayers(s[1..], paying, contrib, p); }
  }

  lemma DealIs(h: Hand)
    requires Open(h)
    ensures var pot := Deal(h);
      && SidePots.Valid(pot) && pot.contrib == h.contrib
      && (forall p :: p in pot.order <==> p in h.seats && h.contrib[p] > 0)
      && (forall p :: p in pot.live <==> p in h.seats && p !in h.folded)
      && (forall p :: p in pot.live ==> p in pot.ranks && pot.ranks[p] == Evaluate7(h.hole[p] + h.board))
      && (forall p :: p in h.seats ==> SidePots.Matchable(pot.order, pot.contrib, 0, p) == StakeAgainst(h, p))
  {
    hide Only, Evaluate7;
    forall p | p in h.seats ensures SidePots.Matchable(Deal(h).order, h.contrib, 0, p) == StakeAgainst(h, p) {
      MatchableOfPayers(h.seats, (set q | q in h.seats && h.contrib[q] > 0), h.contrib, p);
    }
  }

  lemma GainIs(h: Hand, p: Player)
    requires Open(h) && p in h.seats
    ensures SidePots.Valid(Deal(h))
    ensures Showdown(h).stacks[p] - h.stacks[p] == if p in Deal(h).order then SidePots.Payout(Deal(h), p) else 0
  {
    hide SidePots.Payout, Evaluate7;
  }

  lemma BestTakesAll(h: Hand, p: Player)
    requires Open(h) && BeatsAll(h, p)
    ensures Showdown(h).stacks[p] - h.stacks[p] == StakeAgainst(h, p)
  {
    hide Showdown, Evaluate7, Live, Deal, Money, SidePots.Payout, SidePots.Matchable, Lex.Less;
    DealIs(h);
    GainIs(h, p);
    if h.contrib[p] > 0 {
      SidePots.BestHandWinsAllItMatched(Deal(h), p);
    } else {
      SidePots.MatchableZero(h.seats, h.contrib, 0, p);
    }
  }

  lemma OutdoneTakesNothing(h: Hand, p: Player)
    requires Open(h) && p in h.seats && Outdone(h, p)
    ensures Showdown(h).stacks[p] == h.stacks[p]
  {
    hide Showdown, Evaluate7, Live, Deal, Money, SidePots.Payout, SidePots.Matchable, Lex.Less;
    DealIs(h);
    GainIs(h, p);
    var q :| q in h.seats && q !in h.folded && h.contrib[p] <= h.contrib[q] && (p in h.folded || Beats(h, q, p));
    if h.contrib[p] > 0 {
      if p in h.folded { SidePots.MatchedFolderWinsNothing(Deal(h), p); } else { SidePots.BeatenWinsNothing(Deal(h), p, q); }
    }
  }

  lemma GainIsBounded(h: Hand, p: Player)
    requires Open(h) && p in h.seats
    ensures 0 <= Showdown(h).stacks[p] - h.stacks[p] <= StakeAgainst(h, p)
  {
    hide Showdown, Evaluate7, Live, Deal, Money, SidePots.Payout, SidePots.Matchable, Lex.Less;
    DealIs(h);
    GainIs(h, p);
    if h.contrib[p] > 0 {
      SidePots.NobodyWinsMoreThanMatched(Deal(h), p);
    } else {
      SidePots.MatchableZero(h.seats, h.contrib, 0, p);
    }
  }

  lemma WinnersGain(h: Hand)
    requires Open(h)
    ensures var r := Showdown(h);
      r.winners == map p | p in h.seats && r.stacks[p] > h.stacks[p] :: r.stacks[p] - h.stacks[p]
  {
    hide SidePots.Payout, Evaluate7, Live;
  }

  /** The showdown pays by the hands. */
  lemma ShowdownPaysByHands(h: Hand)
    requires Open(h)
    ensures PaidByHands(h, Showdown(h))
  {
    var r := Showdown(h);
    hide Showdown, BeatsAll, Outdone, StakeAgainst, Money, Live;
    forall p | BeatsAll(h, p) ensures p in h.seats && r.stacks[p] - h.stacks[p] == StakeAgainst(h, p) {
      SeatOfBest(h, p);
      BestTakesAll(h, p);
    }
    forall p | p in h.seats && Outdone(h, p) ensures r.stacks[p] == h.stacks[p] { OutdoneTakesNothing(h, p); }
    forall p | p in h.seats ensures 0 <= r.stacks[p] - h.stacks[p] <= StakeAgainst(h, p) { GainIsBounded(h, p); }
    WinnersGain(h);
  }

  lemma SeatOfBest(h: Hand, p: Player)
    requires Shaped(h) && BeatsAll(h, p)
    ensures p in h.seats
  {
  }
}
