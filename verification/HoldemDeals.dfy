/** How a Hold'em hand starts: the blinds, and whether anybody is left to act. */
module HoldemDeals {
  import opened Seats
  import opened Numbers
  import opened HandRank
  import opened PlayingCards
  import opened HoldemRules
  import opened HoldemProofs
  import opened HoldemRuns
  import Ring

  // ---- the start of a hand ----

  /** A hand just dealt to players who all have chips. */
  ghost predicate Fresh(h: Hand) {
    && Shaped(h) && h.status.Betting? && 0 < h.sb <= h.bb
    && h.folded == h.allin == h.acted == {} && h.toAct.None?
    && forall p :: p in h.seats ==> h.stacks[p] > 0 && h.contrib[p] == h.streetBet[p] == 0
  }

  function Small(h: Hand): Player
    requires Shaped(h)
  {
    h.seats[SmallSeat(h)]
  }

  function Big(h: Hand): Player
    requires Shaped(h)
  {
    h.seats[BigSeat(h)]
  }

  lemma {:induction false} OnlyAll(s: seq<Player>, keep: set<Player>)
    requires forall p :: p in s ==> p in keep
    ensures Only(s, keep) == s
  {
    if s != [] {
      OnlyAll(s[1..], keep);
      assert s == [s[0]] + s[1..];
    }
  }

  /** Who is all-in after the blinds. */
  function BlindsAllIn(h: Hand): set<Player>
    requires Shaped(h)
  {
    (if h.stacks[Small(h)] <= h.sb then {Small(h)} else {}) + (if h.stacks[Big(h)] <= h.bb then {Big(h)} else {})
  }

  lemma BlindsDiffer(h: Hand)
    requires Shaped(h)
    ensures Small(h) in h.seats && Big(h) in h.seats && Small(h) != Big(h)
  {
  }

  lemma NobodyFolded(q: Hand)
    requires Shaped(q) && q.folded == {}
    ensures |Live(q)| == |q.seats|
  {
    OnlyAll(q.seats, Elems(q.seats) - q.folded);
  }

  /** Posting a blind keeps a hand open. */
  lemma PostOpens(h: Hand, p: Player, amount: int)
    requires Open(h) && IsAble(h, p) && 0 <= amount <= h.toCall && h.streetBet[p] == 0
    ensures var r := Post(h, p, amount);
      && Open(r) && Chips(r) == Chips(h)
      && r == h.(stacks := r.stacks, contrib := r.contrib, streetBet := r.streetBet, allin := r.allin)
      && r.allin == h.allin + (if h.stacks[p] <= amount then {p} else {})
      && (forall q :: q in h.seats && q != p ==> r.stacks[q] == h.stacks[q] && r.streetBet[q] == h.streetBet[q])
  {
    hide Total, Only;
    PostPosts(h, p, amount);
    var r := Post(h, p, amount);
    PostedChips(h, r, p, Min(amount, h.stacks[p]));
    PostedMoney(h, r, p, Min(amount, h.stacks[p]));
  }

  /** The bet level is set to the big blind first; the source sets it right after posting, which is the same. */
  function Levelled(h: Hand): Hand {
    h.(toCall := h.bb, minRaise := h.bb)
  }

  lemma LevelledOpen(h: Hand)
    requires Fresh(h)
    ensures Open(Levelled(h)) && Chips(Levelled(h)) == Total(h.seats, h.stacks)
    ensures Small(Levelled(h)) == Small(h) && Big(Levelled(h)) == Big(h)
  {
    hide Live, Total;
    NobodyFolded(Levelled(h));
    TotalZero(h.seats, h.contrib);
  }

  lemma BlindsOpen(h: Hand)
    requires Fresh(h)
    ensures var r := PostBlinds(Levelled(h));
      && Open(r) && Chips(r) == Total(h.seats, h.stacks) && r.seats == h.seats && r.folded == r.acted == {}
      && r.allin == BlindsAllIn(h)
  {
    hide Small, Big, Open, Chips, Fresh, Post, PostBlinds, Shaped;
    var g := Levelled(h);
    FreshIsShaped(h);
    LevelledOpen(h);
    BlindsDiffer(h);
    BlindsReady(h);
    PostBlindsIs(g);
    TwoPosts(g, Small(h), h.sb, Big(h), h.bb);
  }

  lemma FreshIsShaped(h: Hand)
    requires Fresh(h)
    ensures Shaped(h) && Shaped(Levelled(h))
  {
  }

  /** Two players who have bet nothing post a blind each. */
  lemma TwoPosts(g: Hand, s: Player, x: int, b: Player, y: int)
    requires Open(g) && s != b && IsAble(g, s) && IsAble(g, b) && g.streetBet[s] == g.streetBet[b] == 0
    requires 0 <= x <= g.toCall && 0 <= y <= g.toCall
    ensures Shaped(Post(g, s, x))
    ensures var r := Post(Post(g, s, x), b, y);
      && Open(r) && Chips(r) == Chips(g) && r.seats == g.seats && r.folded == g.folded && r.acted == g.acted
      && r.allin == g.allin + (if g.stacks[s] <= x then {s} else {}) + (if g.stacks[b] <= y then {b} else {})
  {
    assert Shaped(g);
    hide Open, Chips, Post, Shaped;
    PostOpens(g, s, x);
    PostOpens(Post(g, s, x), b, y);
  }

  lemma BlindsReady(h: Hand)
    requires Fresh(h)
    ensures var g := Levelled(h);
      && g.toCall == h.bb && 0 <= h.sb <= h.bb && g.seats == h.seats && g.folded == g.allin == g.acted == {}
      && g.stacks == h.stacks && forall p :: p in h.seats ==> h.streetBet[p] == 0 && IsAble(g, p)
  {
  }

  lemma PostBlindsIs(h: Hand)
    requires Shaped(h) && Small(h) in h.seats && Big(h) in h.seats
    ensures PostBlinds(h) == Post(Post(h, Small(h), h.sb), Big(h), h.bb)
  {
  }

  lemma Opens(h: Hand)
    requires Open(h) && h.acted == {} && h.toAct.Some?
    ensures var r := SkipDone(h);
      && Chips(r) == Chips(h) && (if Able(h) == [] then Stalled(r) else Playing(r))
      && r == h.(toAct := r.toAct)
  {
    if Able(h) != [] {
      if h.toAct.value in Able(h) {
        var b := IndexOf(h.seats, h.toAct.value);
        assert Ring.Due(AbleMarks(h), ActedMarks(h), b);
        DueTurn(h, b);
        assert h.(toAct := Some(h.seats[b])) == h;
        hide ActorDue, Money, Ring.Due;
      } else {
        var i := IndexOf(h.seats, h.toAct.value);
        OpenTurn(h, i);
        WalkFinds(h, i);
        AimKeeps(h, Clockwise(h, i));
        hide ActorDue, Money;
      }
    }
  }

  /** Heads-up with both stacks no bigger than the blinds: nobody is left to act. */
  predicate BothBlindsAllIn(h: Hand)
    requires Shaped(h)
  {
    |h.seats| == 2 && h.stacks[Small(h)] <= h.sb && h.stacks[Big(h)] <= h.bb
  }

  lemma ThirdPlayer(h: Hand) returns (p: Player)
    requires Shaped(h) && |h.seats| > 2
    ensures p in h.seats && p != Small(h) && p != Big(h)
  {
    var third := Ring.Seat(BigSeat(h), 1, |h.seats|);
    assert third != BigSeat(h) && third != SmallSeat(h);
    p := h.seats[third];
  }

  lemma TwoSeats(h: Hand)
    requires Shaped(h) && |h.seats| == 2
    ensures forall p :: p in h.seats ==> p == Small(h) || p == Big(h)
  {
    assert SmallSeat(h) != BigSeat(h);
  }

  lemma AbleAfterBlinds(h: Hand, r: Hand)
    requires Fresh(h) && r.seats == h.seats && r.folded == {} && r.allin == BlindsAllIn(h)
    ensures Able(r) == [] <==> BothBlindsAllIn(h)
  {
    BlindsDiffer(h);
    hide Small, Big, Able;
    if |h.seats| > 2 {
      var p := ThirdPlayer(h);
      AbleMember(r, p);
    } else {
      TwoSeats(h);
      AbleMember(r, Small(h));
      AbleMember(r, Big(h));
      NobodyAble(r);
    }
  }

  lemma AbleMember(r: Hand, p: Player)
    requires p in r.seats && p !in r.folded
    ensures p !in r.allin ==> Able(r) != []
  {
    assert p in Able(r) <==> p !in r.allin;
  }

  lemma NobodyAble(r: Hand)
    ensures (forall p :: p in r.seats ==> p in r.folded || p in r.allin) ==> Able(r) == []
  {
    if Able(r) != [] { assert Able(r)[0] in Able(r); }
  }

  /** Action left of the big blind. */
  function FirstToAct(h: Hand, r: Hand): Hand
    requires Shaped(h)
  {
    r.(lastRaiser := Some(Big(h)), toAct := Some(h.seats[Ring.Seat(BigSeat(h), 1, |h.seats|)]))
  }

  lemma FirstToActOpen(h: Hand, r: Hand)
    requires Shaped(h) && Open(r) && r.seats == h.seats
    ensures var q := FirstToAct(h, r); Open(q) && Chips(q) == Chips(r) && Able(q) == Able(r)
  {
    var p := h.seats[Ring.Seat(BigSeat(h), 1, |h.seats|)];
    assert p in r.seats;
    hide Small, Big;
    TurnToOpen(r, p, Some(Big(h)));
  }

  lemma TurnToOpen(r: Hand, p: Player, raiser: Option<Player>)
    requires Open(r) && p in r.seats
    ensures var q := r.(lastRaiser := raiser, toAct := Some(p)); Open(q) && Chips(q) == Chips(r) && Able(q) == Able(r)
  {
    hide Total, Only;
  }

  lemma PostLevelled(h: Hand, p: Player, amount: int, level: int)
    requires Shaped(h) && p in h.seats
    ensures Post(h.(toCall := level, minRaise := level), p, amount)
         == Post(h, p, amount).(toCall := level, minRaise := level)
  {
    hide Shaped;
    HasLedgers(h, p);
    LevelIsShaped(h, level);
  }

  lemma LevelIsShaped(h: Hand, level: int)
    requires Shaped(h)
    ensures Shaped(h.(toCall := level, minRaise := level))
  {
  }

  lemma BlindsLevelled(h: Hand)
    requires Fresh(h)
    ensures PostBlinds(Levelled(h)) == PostBlinds(h).(toCall := h.bb, minRaise := h.bb) && PostBlinds(h).acted == {}
  {
    var g := Levelled(h);
    BlindsDiffer(h);
    LevelledOpen(h);
    PostBlindsIs(h);
    PostBlindsIs(g);
    hide Small, Big, PostBlinds, Shaped;
    PostLevelled(h, Small(h), h.sb, h.bb);
    PostLevelled(Post(h, Small(h), h.sb), Big(h), h.bb, h.bb);
  }

  /** The source posts the blinds and then sets the bet level: the same state. */
  lemma BlindedIs(h: Hand)
    requires Fresh(h)
    ensures Shaped(FirstToAct(h, PostBlinds(Levelled(h))))
    ensures Blinded(h) == SkipDone(FirstToAct(h, PostBlinds(Levelled(h))))
  {
    BlindsLevelled(h);
    BlindsOpen(h);
    FirstToActOpen(h, PostBlinds(Levelled(h)));
    hide PostBlinds, SkipDone, Open, Fresh, Levelled;
    assert FirstToAct(h, PostBlinds(Levelled(h)))
      == PostBlinds(h).(toCall := h.bb, minRaise := h.bb, lastRaiser := Some(h.seats[BigSeat(h)]), acted := {},
                        toAct := Some(h.seats[Ring.Seat(BigSeat(h), 1, |h.seats|)]));
  }

  lemma BlindedStarts(h: Hand)
    requires Fresh(h)
    ensures var r := Blinded(h);
      && Chips(r) == Total(h.seats, h.stacks) && r.seats == h.seats
      && (if BothBlindsAllIn(h) then Stalled(r) else Playing(r))
  {
    var r := PostBlinds(Levelled(h));
    BlindsOpen(h);
    FirstToActOpen(h, r);
    AbleAfterBlinds(h, r);
    BlindedIs(h);
    hide PostBlinds, SkipDone, Playing, Stalled, Open, Able, BothBlindsAllIn, Blinded, Fresh, Total, Chips;
    Opens(FirstToAct(h, r));
  }

  /** A hand dealt to players with chips starts with somebody to act, unless both heads-up blinds are all-in:
      exactly then it waits for nobody. Its chips are the stacks brought to it. */
  lemma StartIsGood(seats: seq<Player>, button: nat, stacks: map<Player, int>, sb: int, bb: int, deck: seq<Card>)
    requires Distinct(seats) && |seats| >= 2 && stacks.Keys == Elems(seats) && |deck| >= 2 * |seats| + 5
    requires 0 < sb <= bb && forall p :: p in seats ==> stacks[p] > 0
    ensures var h := StartHand(seats, button, stacks, sb, bb, deck);
      && Good(h) && Chips(h) == Total(seats, stacks)
      && (Playing(h) <==> !BothBlindsAllIn(Dealt(seats, button, stacks, sb, bb, deck)))
      && (Stalled(h) <==> BothBlindsAllIn(Dealt(seats, button, stacks, sb, bb, deck)))
  {
    BlindedStarts(Dealt(seats, button, stacks, sb, bb, deck));
  }

  /** One chip against two, at blinds of one and two. */
  function ShortDeal(deck: seq<Card>): Hand
    requires |deck| >= 9
  {
    StartHand([0, 1], 0, map[0 := 1, 1 := 2], 1, 2, deck)
  }

  lemma ShortDealStalls(deck: seq<Card>)
    requires |deck| >= 9
    ensures Stalled(ShortDeal(deck))
  {
    hide Playing, Stalled, Chips, StartHand;
    assert BothBlindsAllIn(Dealt([0, 1], 0, map[0 := 1, 1 := 2], 1, 2, deck));
    hide BothBlindsAllIn, Dealt;
    StartIsGood([0, 1], 0, map[0 := 1, 1 := 2], 1, 2, deck);
  }

  /** Such a deal waits for nobody, and no action ever moves it. */
  lemma DealThatStalls(deck: seq<Card>, p: Player, action: Action)
    requires |deck| >= 9
    ensures Stalled(ShortDeal(deck)) && ShortDeal(deck).toAct == None && ShortDeal(deck).status == Betting
    ensures Act(ShortDeal(deck), p, action) == ShortDeal(deck)
  {
    hide ShortDeal, Act;
    ShortDealStalls(deck);
    StalledForEver(ShortDeal(deck), p, action);
  }
}
