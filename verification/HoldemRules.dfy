/** The rules of the Hold'em table as functions on a hand (botframework/holdem_game.py).

  The source keeps one dictionary and updates it in place; `HoldemTable.Table` is that object, and each of its
  methods is proved against the function of the same name here.
 */
module HoldemRules {
  import opened Seats
  import opened Numbers
  import opened HandRank
  import opened PlayingCards
  import SidePots
  import Ring

  datatype Street = Preflop | Flop | Turn | River
  datatype Status = Betting | Done
  datatype Action = Fold | Check | Call | AllIn | Raise(amount: int) | Other

  datatype Hand = Hand(
    seats: seq<Player>, button: nat, sb: int, bb: int,
    deck: seq<Card>, hole: map<Player, seq<Card>>, board: seq<Card>, street: Street,
    stacks: map<Player, int>, contrib: map<Player, int>, streetBet: map<Player, int>,
    toCall: int, minRaise: int, lastRaiser: Option<Player>,
    folded: set<Player>, allin: set<Player>, acted: set<Player>, left: set<Player>,
    toAct: Option<Player>, status: Status, winners: map<Player, int>)

  function BoardSize(s: Street): nat {
    match s case Preflop => 0 case Flop => 3 case Turn => 4 case River => 5
  }

  function StreetsLeft(s: Street): nat {
    match s case Preflop => 3 case Flop => 2 case Turn => 1 case River => 0
  }

  /** What every state built by `StartHand` has: one entry per seat in each ledger, and cards enough to finish. */
  ghost predicate Shaped(h: Hand) {
    && Distinct(h.seats) && |h.seats| >= 2 && h.button < |h.seats|
    && h.stacks.Keys == h.contrib.Keys == h.streetBet.Keys == h.hole.Keys == Elems(h.seats)
    && h.folded <= Elems(h.seats) && h.allin <= Elems(h.seats) && h.acted <= Elems(h.seats)
    && (h.toAct.Some? ==> h.toAct.value in h.seats)
    && (h.status.Betting? ==> |h.board| == BoardSize(h.street) && |h.board| + |h.deck| >= 5)
  }

  lemma HasLedgers(h: Hand, p: Player)
    requires Shaped(h) && p in h.seats
    ensures p in h.stacks && p in h.contrib && p in h.streetBet
  {}

  function IndexOf(s: seq<Player>, p: Player): (i: nat)
    requires p in s
    ensures i < |s| && s[i] == p
  {
    if s[0] == p then 0 else 1 + IndexOf(s[1..], p)
  }

  /** Players still in the hand. */
  function Live(h: Hand): seq<Player> {
    Only(h.seats, Elems(h.seats) - h.folded)
  }

  /** Players who can still take an action. */
  function Able(h: Hand): seq<Player> {
    Only(h.seats, Elems(h.seats) - h.folded - h.allin)
  }

  predicate IsAble(h: Hand, p: Player) {
    p in h.seats && p !in h.folded && p !in h.allin
  }

  function AbleMarks(h: Hand): (r: seq<bool>)
    ensures |r| == |h.seats| && forall i :: 0 <= i < |r| ==> r[i] == IsAble(h, h.seats[i])
  {
    seq(|h.seats|, i requires 0 <= i < |h.seats| => h.seats[i] !in h.folded && h.seats[i] !in h.allin)
  }

  /** The first able player clockwise of seat `i`; the walk of the source, one seat at a time. */
  function Clockwise(h: Hand, i: nat): Option<Player>
    requires i < |h.seats|
  {
    var n := |h.seats|;
    var k := Ring.Search(AbleMarks(h), i, 1);
    if k <= n then Some(h.seats[Ring.Seat(i, k, n)]) else None
  }

  /** `cand` if the walk found one, else the field keeps its value. */
  function Aim(h: Hand, cand: Option<Player>): Hand {
    if cand.Some? then h.(toAct := cand) else h
  }

  function Post(h: Hand, p: Player, amount: int): (r: Hand)
    requires Shaped(h) && p in h.seats
    ensures Shaped(r)
  {
    var a := Min(amount, h.stacks[p]);
    var left := h.stacks[p] - a;
    h.(stacks := h.stacks[p := left],
       contrib := h.contrib[p := h.contrib[p] + a],
       streetBet := h.streetBet[p := h.streetBet[p] + a],
       allin := if left == 0 then h.allin + {p} else h.allin)
  }

  function SkipDone(h: Hand): (r: Hand)
    requires Shaped(h)
    ensures Shaped(r) && r.seats == h.seats
  {
    if |Live(h)| <= 1 then h
    else if Able(h) == [] then h.(toAct := None)
    else if h.toAct.Some? && h.toAct.value in Able(h) then h
    else
      var i := if h.toAct.Some? then IndexOf(h.seats, h.toAct.value) else h.button;
      Aim(h, Clockwise(h, i))
  }

  // ---- dealing ----

  function DealHole(seats: seq<Player>, deck: seq<Card>): (r: (map<Player, seq<Card>>, seq<Card>))
    requires |deck| >= 2 * |seats|
    ensures r.0.Keys == Elems(seats) && |r.1| == |deck| - 2 * |seats|
    ensures forall p :: p in r.0 ==> |r.0[p]| == 2
    decreases |seats|
  {
    if seats == [] then (map[], deck)
    else
      var d := |deck|;
      var rest := DealHole(seats[1..], deck[..d - 2]);
      // a later entry for the same player would win, as in the source's dictionary
      (map[seats[0] := [deck[d - 1], deck[d - 2]]] + rest.0, rest.1)
  }

  function DealBoard(board: seq<Card>, deck: seq<Card>, need: nat): (r: (seq<Card>, seq<Card>))
    requires |board| + |deck| >= need
    ensures |r.0| + |r.1| == |board| + |deck|
    ensures |board| <= need ==> |r.0| == need
    ensures board <= r.0
    decreases |deck|
  {
    if |board| >= need then (board, deck)
    else DealBoard(board + [deck[|deck| - 1]], deck[..|deck| - 1], need)
  }

  /** A fresh hand before the blinds: cards dealt, nothing bet. */
  function Dealt(seats: seq<Player>, button: nat, stacks: map<Player, int>, sb: int, bb: int, deck: seq<Card>): (h: Hand)
    requires Distinct(seats) && |seats| >= 2 && stacks.Keys == Elems(seats)
    requires |deck| >= 2 * |seats| + 5
    ensures Shaped(h)
  {
    var dealt := DealHole(seats, deck);
    var zero := map p | p in seats :: 0;
    Hand(seats, button % |seats|, sb, bb, dealt.1, dealt.0, [], Preflop, stacks, zero, zero,
         0, bb, None, {}, {}, {}, {}, None, Betting, map[])
  }

  /** The small blind sits left of the button; heads-up it is the button. */
  function SmallSeat(h: Hand): (i: nat)
    requires Shaped(h)
    ensures i < |h.seats|
  {
    if |h.seats| == 2 then h.button else Ring.Seat(h.button, 1, |h.seats|)
  }

  function BigSeat(h: Hand): (i: nat)
    requires Shaped(h)
    ensures i < |h.seats| && i != SmallSeat(h)
  {
    Ring.Seat(SmallSeat(h), 1, |h.seats|)
  }

  function PostBlinds(h: Hand): (r: Hand)
    requires Shaped(h)
    ensures Shaped(r)
  {
    assert h.seats[SmallSeat(h)] in h.seats && h.seats[BigSeat(h)] in h.seats;
    Post(Post(h, h.seats[SmallSeat(h)], h.sb), h.seats[BigSeat(h)], h.bb)
  }

  function StartHand(seats: seq<Player>, button: nat, stacks: map<Player, int>, sb: int, bb: int, deck: seq<Card>): (h: Hand)
    requires Distinct(seats) && |seats| >= 2 && stacks.Keys == Elems(seats)
    requires |deck| >= 2 * |seats| + 5
    ensures Shaped(h)
  {
    Blinded(Dealt(seats, button, stacks, sb, bb, deck))
  }

  /** Blinds posted, action left of the big blind. */
  function Blinded(h: Hand): (r: Hand)
    requires Shaped(h)
    ensures Shaped(r)
  {
    var first := h.seats[Ring.Seat(BigSeat(h), 1, |h.seats|)];
    assert first in h.seats;
    SkipDone(PostBlinds(h).(toCall := h.bb, minRaise := h.bb, lastRaiser := Some(h.seats[BigSeat(h)]), acted := {},
                            toAct := Some(first)))
  }

  // ---- one action ----

  function CallAmount(h: Hand, p: Player): int
    requires p in h.streetBet
  {
    Max(0, h.toCall - h.streetBet[p])
  }

  function GoAllIn(h: Hand, p: Player): (r: Hand)
    requires Shaped(h) && p in h.seats
    ensures Shaped(r)
  {
    var h1 := Post(h, p, h.stacks[p]);
    if h1.streetBet[p] > h.toCall then
      var inc := h1.streetBet[p] - h.toCall;
      h1.(minRaise := if inc >= h.minRaise then inc else h.minRaise,
          toCall := h1.streetBet[p], lastRaiser := Some(p), acted := {})
    else h1
  }

  function RaiseTo(h: Hand, p: Player, target: int): (r: Hand)
    requires Shaped(h) && p in h.seats
    ensures Shaped(r)
  {
    Post(h, p, target - h.streetBet[p])
      .(minRaise := Max(h.minRaise, target - h.toCall), toCall := target, lastRaiser := Some(p), acted := {})
  }

  /** The bookkeeping of an action before the turn moves on; None for an action the source does not know. */
  function Move(h: Hand, p: Player, action: Action): (r: Option<Hand>)
    requires Shaped(h) && p in h.seats
    ensures r.Some? ==> Shaped(r.value) && r.value.seats == h.seats && r.value.status == h.status
  {
    match action
    case Fold => Some(h.(folded := h.folded + {p}))
    case Check => if CallAmount(h, p) == 0 then Some(h) else Some(Post(h, p, Min(CallAmount(h, p), h.stacks[p])))
    case Call => Some(Post(h, p, Min(CallAmount(h, p), h.stacks[p])))
    case AllIn => Some(GoAllIn(h, p))
    case Raise(amount) =>
      var target := Max(amount, h.toCall + h.minRaise);
      if target - h.streetBet[p] >= h.stacks[p] then Some(GoAllIn(h, p)) else Some(RaiseTo(h, p, target))
    case Other => None
  }

  predicate Matched(h: Hand)
    requires h.streetBet.Keys == Elems(h.seats)
  {
    forall q :: q in Live(h) ==> h.streetBet[q] == h.toCall || q in h.allin
  }

  predicate EveryoneActed(h: Hand) {
    forall q :: q in Able(h) ==> q in h.acted
  }

  function Act(h: Hand, p: Player, action: Action): (r: Hand)
    requires Shaped(h)
    ensures Shaped(r) && r.seats == h.seats
  {
    if h.status != Betting || h.toAct != Some(p) then h
    else
      var moved := Move(h, p, action);
      if moved.None? then h else Finish(moved.value, p)
  }

  /** After a move: award the pot, close the round, or pass the turn. */
  function Finish(h: Hand, p: Player): (r: Hand)
    requires Shaped(h) && h.status.Betting? && p in h.seats
    ensures Shaped(r) && r.seats == h.seats
  {
    var h1 := h.(acted := h.acted + {p});
    if |Live(h1)| == 1 then AwardFolded(h1)
    else if Matched(h1) && (EveryoneActed(h1) || Able(h1) == []) then AdvanceStreet(h1)
    else PassOn(h1, p)
  }

  /** The turn goes to the next able player clockwise of `p`. */
  function PassOn(h: Hand, p: Player): (r: Hand)
    requires Shaped(h) && p in h.seats
    ensures Shaped(r) && r.seats == h.seats
  {
    SkipDone(Aim(h, Clockwise(h, IndexOf(h.seats, p))))
  }

  function OpenStreet(h: Hand, next: Street): (r: Hand)
    requires Shaped(h) && h.status.Betting? && StreetsLeft(next) + 1 == StreetsLeft(h.street)
    ensures Shaped(r) && r.street == next && r.status.Betting?
  {
    var dealt := DealBoard(h.board, h.deck, BoardSize(next));
    h.(street := next, board := dealt.0, deck := dealt.1, streetBet := map q | q in h.seats :: 0,
       toCall := 0, minRaise := h.bb, lastRaiser := None, acted := {})
  }

  function NextStreet(s: Street): Street
    requires s != River
  {
    match s case Preflop => Flop case Flop => Turn case Turn => River
  }

  /** Opens the next street, running out the board while fewer than two players can act. */
  function AdvanceStreet(h: Hand): (r: Hand)
    requires Shaped(h) && h.status.Betting?
    ensures Shaped(r) && r.seats == h.seats
    decreases StreetsLeft(h.street)
  {
    if h.street.River? then Showdown(h)
    else
      var h1 := OpenStreet(h, NextStreet(h.street));
      if |Able(h1)| >= 2 then Aim(h1, Clockwise(h1, h1.button)) else AdvanceStreet(h1)
  }

  function AwardFolded(h: Hand): (r: Hand)
    requires Shaped(h) && Live(h) != []
    ensures Shaped(r) && r.seats == h.seats && r.status.Done?
  {
    var winner := Live(h)[0];
    assert winner in Live(h);
    var pot := Total(h.seats, h.contrib);
    h.(stacks := h.stacks[winner := h.stacks[winner] + pot], winners := map[winner := pot], status := Done, toAct := None)
  }

  function Ranks(h: Hand): map<Player, seq<int>>
    requires Shaped(h)
  {
    map p | p in Live(h) :: Evaluate7(h.hole[p] + h.board)
  }

  function Winnings(h: Hand): map<Player, int>
    requires Shaped(h)
  {
    SidePots.Payouts(SidePots.PotOf(h.seats, h.contrib, Live(h), Ranks(h)))
  }

  function Showdown(h: Hand): (r: Hand)
    requires Shaped(h)
    ensures Shaped(r) && r.seats == h.seats && r.status.Done?
  {
    var won := Winnings(h);
    h.(stacks := map p | p in h.seats :: h.stacks[p] + if p in won then won[p] else 0,
       winners := map p | p in won && won[p] > 0 :: won[p], status := Done, toAct := None)
  }

  // ---- leaving and the next hand ----

  function Leave(h: Hand, p: Player): (r: Hand)
    requires Shaped(h)
    ensures Shaped(r) && r.seats == h.seats
  {
    if p !in h.seats then h
    else
      var h1 := h.(left := h.left + {p});
      if h1.status.Done? || p in h1.folded then h1
      else if h1.toAct == Some(p) then Act(h1, p, Fold)
      else
        var h2 := h1.(folded := h1.folded + {p});
        if |Live(h2)| == 1 then AwardFolded(h2) else h2
  }

  /** The seats that play on: neither gone nor broke, in table order. */
  function Survivors(h: Hand): (r: seq<Player>)
    requires Shaped(h)
    ensures forall p :: p in r <==> p in h.seats && p !in h.left && h.stacks[p] > 0
  {
    Only(h.seats, set p | p in h.seats && p !in h.left && h.stacks[p] > 0)
  }

  function SurvivorMarks(h: Hand): (r: seq<bool>)
    requires Shaped(h)
    ensures |r| == |h.seats| && forall i :: 0 <= i < |r| ==> r[i] == (h.seats[i] in Survivors(h))
  {
    seq(|h.seats|, i requires 0 <= i < |h.seats| => h.seats[i] in Survivors(h))
  }

  /** The index among the survivors of the first one clockwise of the old button; 0 if the walk finds none. */
  function NewButton(h: Hand): (i: nat)
    requires Shaped(h) && Survivors(h) != []
    ensures i < |Survivors(h)|
  {
    var k := Ring.Search(SurvivorMarks(h), h.button, 1);
    if k <= |h.seats| then IndexOf(Survivors(h), h.seats[Ring.Seat(h.button, k, |h.seats|)]) else 0
  }

  function Carried(h: Hand): (r: map<Player, int>)
    requires Shaped(h)
    ensures r.Keys == Elems(Survivors(h)) && forall p :: p in r ==> r[p] == h.stacks[p] > 0
  {
    map p | p in Survivors(h) :: h.stacks[p]
  }

  function NextHand(h: Hand, deck: seq<Card>): Option<Hand>
    requires Shaped(h) && |deck| >= 2 * |h.seats| + 5
  {
    if |Survivors(h)| < 2 then None
    else
      OnlyDistinct(h.seats, set p | p in h.seats && p !in h.left && h.stacks[p] > 0);
      Some(StartHand(Survivors(h), NewButton(h), Carried(h), h.sb, h.bb, deck))
  }
}
