/** A Hold'em table from hand to hand: who plays on, where the button goes, and where the chips are. */
module HoldemLife {
  import opened Seats
  import opened Numbers
  import opened HandRank
  import opened PlayingCards
  import opened HoldemRules
  import opened HoldemProofs
  import opened HoldemRuns
  import opened HoldemDeals
  import opened HoldemCards
  import Ring

  lemma OnlyFirst(s: seq<Player>, keep: set<Player>)
    requires Distinct(s) && s != []
    ensures Distinct(s[1..]) && s[0] !in s[1..]
    ensures Only(s, keep) == (if s[0] in keep then [s[0]] else []) + Only(s[1..], keep)
  {
  }

  lemma IndexOfRest(s: seq<Player>, p: Player)
    requires s != [] && p in s[1..] && s[0] !in s[1..]
    ensures p in s && IndexOf(s, p) == 1 + IndexOf(s[1..], p)
  {
  }

  lemma {:induction false} OnlyInOrder(s: seq<Player>, keep: set<Player>, i: nat, j: nat)
    requires Distinct(s) && i < j < |Only(s, keep)|
    ensures Only(s, keep)[i] in s && Only(s, keep)[j] in s
    ensures IndexOf(s, Only(s, keep)[i]) < IndexOf(s, Only(s, keep)[j])
  {
    hide Distinct, Only, IndexOf;
    OnlyFirst(s, keep);
    var r, rest := Only(s, keep), Only(s[1..], keep);
    var k := if s[0] in keep then 1 else 0;
    assert r[j] == rest[j - k] && r[j] in rest && r[j] in s[1..];
    IndexOfRest(s, r[j]);
    if i < k {
      assert r[i] == s[0];
      IndexOfFirst(s);
    } else {
      OnlyInOrder(s[1..], keep, i - k, j - k);
      assert r[i] == rest[i - k] && r[i] in rest;
      IndexOfRest(s, r[i]);
    }
  }

  lemma IndexOfFirst(s: seq<Player>)
    requires s != []
    ensures IndexOf(s, s[0]) == 0
  {
  }

  lemma SurvivorsDistinct(h: Hand)
    requires Shaped(h)
    ensures Distinct(Survivors(h)) && |Survivors(h)| <= |h.seats|
  {
    OnlyDistinct(h.seats, set p | p in h.seats && p !in h.left && h.stacks[p] > 0);
  }

  /** The survivors sit in the order they sat in before. */
  lemma SurvivorsInOrder(h: Hand, i: nat, j: nat)
    requires Shaped(h) && i < j < |Survivors(h)|
    ensures Survivors(h)[i] in h.seats && Survivors(h)[j] in h.seats
    ensures IndexOf(h.seats, Survivors(h)[i]) < IndexOf(h.seats, Survivors(h)[j])
  {
    assert Survivors(h)[i] in Survivors(h) && Survivors(h)[j] in Survivors(h);
    OnlyInOrder(h.seats, (set p | p in h.seats && p !in h.left && h.stacks[p] > 0), i, j);
  }

  /** `p` is the first survivor clockwise of the button. */
  ghost predicate NextInLine(h: Hand, p: Player)
    requires Shaped(h)
  {
    exists k :: 1 <= k <= |h.seats| && p == h.seats[Ring.Seat(h.button, k, |h.seats|)]
      && p in Survivors(h)
      && forall j :: 1 <= j < k ==> h.seats[Ring.Seat(h.button, j, |h.seats|)] !in Survivors(h)
  }

  lemma ButtonIsNextInLine(h: Hand)
    requires Shaped(h) && Survivors(h) != []
    ensures NextInLine(h, Survivors(h)[NewButton(h)])
  {
    var marks := SurvivorMarks(h);
    assert Survivors(h)[0] in Survivors(h);
    assert marks[IndexOf(h.seats, Survivors(h)[0])];
    Ring.NextExists(marks, h.button);
    var k := Ring.Search(marks, h.button, 1);
    hide Survivors;
  }

  lemma NextHandIs(h: Hand, deck: seq<Card>)
    requires Shaped(h) && |deck| >= 2 * |h.seats| + 5 && NextHand(h, deck).Some?
    ensures |Survivors(h)| >= 2 && Distinct(Survivors(h))
    ensures NextHand(h, deck).value == Blinded(Dealt(Survivors(h), NewButton(h), Carried(h), h.sb, h.bb, deck))
  {
    SurvivorsDistinct(h);
    hide Survivors, Carried, NewButton, Blinded, Dealt;
  }

  /** The next hand seats exactly those who have chips and have not left, in the old order, and the button goes
      to the first of them clockwise of the old button. */
  lemma NextHandSeats(h: Hand, deck: seq<Card>)
    requires Shaped(h) && |deck| >= 2 * |h.seats| + 5 && NextHand(h, deck).Some?
    ensures var r := NextHand(h, deck).value;
      && (forall p :: p in r.seats <==> p in h.seats && p !in h.left && h.stacks[p] > 0)
      && (forall i, j :: 0 <= i < j < |r.seats| ==> Precedes(h.seats, r.seats[i], r.seats[j]))
      && NextInLine(h, r.seats[r.button])
  {
    NextHandIs(h, deck);
    var d := Dealt(Survivors(h), NewButton(h), Carried(h), h.sb, h.bb, deck);
    SmallMod(NewButton(h), |Survivors(h)|);
    BlindedSameSeats(d);
    ButtonIsNextInLine(h);
    forall i, j | 0 <= i < j < |Survivors(h)| ensures Precedes(h.seats, Survivors(h)[i], Survivors(h)[j]) {
      SurvivorsInOrder(h, i, j);
    }
    hide Survivors, NewButton, Blinded, Carried, NextInLine, NextHand, Precedes;
  }

  ghost predicate Precedes(s: seq<Player>, p: Player, q: Player) {
    p in s && q in s && IndexOf(s, p) < IndexOf(s, q)
  }

  lemma SmallMod(x: nat, n: nat)
    requires x < n
    ensures x % n == x
  {
  }

  lemma BlindedSameSeats(d: Hand)
    requires Shaped(d)
    ensures var r := Blinded(d); r.seats == d.seats && r.button == d.button && r.contrib == PostBlinds(d).contrib
  {
    var s, b := d.seats[SmallSeat(d)], d.seats[BigSeat(d)];
    assert s in d.seats && b in d.seats;
    var first := d.seats[Ring.Seat(BigSeat(d), 1, |d.seats|)];
    assert first in d.seats;
    SkipSameButton(PostBlinds(d).(toCall := d.bb, minRaise := d.bb, lastRaiser := Some(b), acted := {}, toAct := Some(first)));
    hide SkipDone, SmallSeat, BigSeat;
  }

  lemma SkipSameButton(h: Hand)
    requires Shaped(h)
    ensures var r := SkipDone(h); r.button == h.button && r.seats == h.seats && r.contrib == h.contrib
  {
    hide Live, Able, Clockwise, IndexOf, Shaped;
  }

  // ---- which hands stall ----

  /** Heads-up, and nobody has bet more than the blind. */
  ghost predicate OnlyBlinds(h: Hand)
    requires Shaped(h)
  {
    |h.seats| == 2 && h.contrib[Small(h)] <= h.sb && h.contrib[Big(h)] <= h.bb
  }

  /** In play with the turn invariant in force, or over; or stalled, both players all-in with their blinds. */
  ghost predicate Regular(h: Hand) {
    Playing(h) || Over(h) || (Stalled(h) && OnlyBlinds(h))
  }

  lemma PostContrib(h: Hand, p: Player, amount: int)
    requires Shaped(h) && p in h.seats
    ensures Post(h, p, amount).contrib == h.contrib[p := h.contrib[p] + Min(amount, h.stacks[p])]
    ensures Post(h, p, amount).seats == h.seats && Post(h, p, amount).button == h.button
  {
    hide Shaped;
  }

  lemma BlindsContrib(d: Hand)
    requires Fresh(d)
    ensures PostBlinds(d).contrib[Small(d)] <= d.sb && PostBlinds(d).contrib[Big(d)] <= d.bb
  {
    hide Post, PostBlinds, Small, Big;
    BlindsDiffer(d);
    PostBlindsIs(d);
    PostContrib(d, Small(d), d.sb);
    PostContrib(Post(d, Small(d), d.sb), Big(d), d.bb);
  }

  lemma DealIsRegular(d: Hand)
    requires Fresh(d)
    ensures Regular(Blinded(d))
  {
    hide Fresh, Playing, Stalled, Blinded, PostBlinds, Chips;
    FreshIsShaped(d);
    BlindedStarts(d);
    if Stalled(Blinded(d)) {
      BlindsContrib(d);
      BlindedSameSeats(d);
      BlindedSameTable(d);
    }
  }

  /** Heads-up a stalled hand ends with the first event that changes anything but the list of leavers. */
  lemma StalledStep(h: Hand, e: Event)
    requires Stalled(h) && |h.seats| == 2
    ensures Step(h, e).status.Done? || SameButLeft(h, Step(h, e))
  {
    if Accepted(h, e) {
      LiveAfterFold(h, e.player);
      LeaveOutOfTurn(h, e.player);
    } else {
      RefusedIsSame(h, e);
    }
    hide Leave, Act, AwardFolded;
  }

  lemma StepIsRegular(h: Hand, e: Event)
    requires Regular(h)
    ensures Regular(Step(h, e)) && Chips(Step(h, e)) == Chips(h)
  {
    assert Shaped(h);
    hide Playing, Stalled, Over, Step, Chips;
    StepKeeps(h, e);
    if Stalled(h) && OnlyBlinds(h) && Stalled(Step(h, e)) {
      StalledStep(h, e);
      assert !Step(h, e).status.Done? by { GoesOn(Step(h, e)); }
    }
  }

  // ---- the chips from hand to hand ----

  /** What the players who got up take with them. */
  function CarriedOff(h: Hand): int
    requires Shaped(h)
  {
    Total(Only(h.seats, h.left), h.stacks)
  }

  lemma SurvivorsHoldTheRest(h: Hand)
    requires Over(h)
    ensures Chips(h) == Total(Survivors(h), h.stacks) + CarriedOff(h)
  {
    var keep := set p | p in h.seats && p !in h.left && h.stacks[p] > 0;
    TotalPartition(h.seats, keep, h.stacks);
    var rest := Only(h.seats, Elems(h.seats) - keep);
    OnlyDistinct(h.seats, Elems(h.seats) - keep);
    TotalPartition(rest, h.left, h.stacks);
    TotalZero(Only(rest, Elems(rest) - h.left), h.stacks);
    OnlyOnly(h.seats, Elems(h.seats) - keep, h.left);
    OnlySame(h.seats, (Elems(h.seats) - keep) * h.left, h.left);
  }

  lemma NextDealIsFresh(h: Hand, deck: seq<Card>)
    requires Over(h) && 0 < h.sb <= h.bb && |deck| >= 2 * |h.seats| + 5 && |Survivors(h)| >= 2 && Distinct(Survivors(h))
    requires |Survivors(h)| <= |h.seats|
    ensures Fresh(Dealt(Survivors(h), NewButton(h), Carried(h), h.sb, h.bb, deck))
  {
    hide Survivors, NewButton;
  }

  lemma NextHandIsRegular(h: Hand, deck: seq<Card>)
    requires Over(h) && 0 < h.sb <= h.bb && |deck| >= 2 * |h.seats| + 5 && NextHand(h, deck).Some?
    ensures Regular(NextHand(h, deck).value)
  {
    assert Shaped(h);
    hide Survivors, Carried, Blinded, Dealt, Regular, Fresh, NewButton, NextHand, Over;
    SurvivorsDistinct(h);
    NextHandIs(h, deck);
    NextDealIsFresh(h, deck);
    DealIsRegular(Dealt(Survivors(h), NewButton(h), Carried(h), h.sb, h.bb, deck));
  }

  /** The chips on the table before a deal are those seated after it and those carried off by leavers. */
  lemma NextHandConserves(h: Hand, deck: seq<Card>)
    requires Over(h) && 0 < h.sb <= h.bb && |deck| >= 2 * |h.seats| + 5 && NextHand(h, deck).Some?
    ensures var r := NextHand(h, deck).value; Regular(r) && Chips(r) + CarriedOff(h) == Chips(h)
  {
    hide Survivors, Carried, Blinded, StartHand, Good, Regular, Chips, BothBlindsAllIn, NewButton, CarriedOff;
    SurvivorsDistinct(h);
    NextHandIs(h, deck);
    NextHandIsRegular(h, deck);
    StartIsGood(Survivors(h), NewButton(h), Carried(h), h.sb, h.bb, deck);
    SurvivorsHoldTheRest(h);
    TotalExt(Survivors(h), Carried(h), h.stacks);
  }

  // ---- the life of a table ----

  type Shuffle = d: seq<Card> | |d| == 52 && multiset(d) == multiset(Pack()) witness Pack()

  datatype TableEvent = During(event: Event) | Deal(deck: Shuffle)

  /** A table, and the chips that leavers have carried away from it. */
  datatype Table = Table(hand: Hand, carried: int)

  ghost predicate Seated(t: Table) {
    Regular(t.hand) && 0 < t.hand.sb <= t.hand.bb && |t.hand.seats| <= 23 && WholePack(t.hand)
  }

  /** A new hand is dealt once the last one is done; with fewer than two players left the table stays closed. */
  function TableStep(t: Table, e: TableEvent): Table
    requires Shaped(t.hand) && |t.hand.seats| <= 23
  {
    match e
    case During(event) => t.(hand := Step(t.hand, event))
    case Deal(deck) =>
      if t.hand.status.Betting? then t
      else match NextHand(t.hand, deck)
        case None => t
        case Some(next) => Table(next, t.carried + CarriedOff(t.hand))
  }

  lemma DealKeeps(h: Hand, deck: Shuffle)
    requires Over(h) && 0 < h.sb <= h.bb && |h.seats| <= 23 && NextHand(h, deck).Some?
    ensures var r := NextHand(h, deck).value;
      && Regular(r) && r.sb == h.sb && r.bb == h.bb && |r.seats| <= |h.seats| && WholePack(r)
      && Chips(r) + CarriedOff(h) == Chips(h)
  {
    NextHandConserves(h, deck);
    NextHandIs(h, deck);
    SurvivorsDistinct(h);
    hide Survivors, Carried, Blinded;
    StartHoldsPack(Survivors(h), NewButton(h), Carried(h), h.sb, h.bb, deck);
    BlindedSameTable(Dealt(Survivors(h), NewButton(h), Carried(h), h.sb, h.bb, deck));
    hide Regular, WholePack, Chips, CarriedOff, NewButton, NextHand;
  }

  lemma EventKeeps(h: Hand, e: Event)
    requires Regular(h) && WholePack(h)
    ensures Shaped(h)
    ensures var r := Step(h, e);
      Regular(r) && WholePack(r) && Chips(r) == Chips(h) && r.seats == h.seats && r.sb == h.sb && r.bb == h.bb
  {
    assert Shaped(h);
    hide Regular, WholePack, Step, Chips, Shaped;
    StepSameCards(h, e);
    SameCardsWhole(h, Step(h, e));
    StepIsRegular(h, e);
  }

  lemma TableStepKeeps(t: Table, e: TableEvent)
    requires Seated(t)
    ensures var r := TableStep(t, e);
      Seated(r) && Chips(r.hand) + r.carried == Chips(t.hand) + t.carried
  {
    assert Shaped(t.hand);
    hide Regular, WholePack, Shaped, Chips;
    match e {
      case During(event) => EventKeeps(t.hand, event);
      case Deal(deck) =>
        if t.hand.status.Done? && NextHand(t.hand, deck).Some? {
          DoneIsOver(t.hand);
          DealKeeps(t.hand, deck);
        }
        hide CarriedOff, NextHand;
    }
  }

  lemma DoneIsOver(h: Hand)
    requires Regular(h) && h.status.Done?
    ensures Over(h)
  {
  }

  function TableRun(t: Table, es: seq<TableEvent>): Table
    requires Seated(t)
    decreases |es|
  {
    if es == [] then t
    else
      TableStepKeeps(t, es[0]);
      TableRun(TableStep(t, es[0]), es[1..])
  }

  /** Over the whole life of a table, the chips seated and the chips carried off by leavers add up to the same, and no
      hand stalls but a heads-up one whose blinds took both stacks. */
  lemma {:induction false} TableConserves(t: Table, es: seq<TableEvent>)
    requires Seated(t)
    ensures var r := TableRun(t, es); Seated(r) && Chips(r.hand) + r.carried == Chips(t.hand) + t.carried
    decreases |es|
  {
    if es != [] {
      TableStepKeeps(t, es[0]);
      TableConserves(TableStep(t, es[0]), es[1..]);
      hide Seated, TableStep;
    }
  }
}
