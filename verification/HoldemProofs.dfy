/** What every step of a Hold'em hand keeps: whose turn it is, the chips, and progress towards the end. */
module HoldemProofs {
  import opened Seats
  import opened Numbers
  import opened HandRank
  import opened PlayingCards
  import opened HoldemRules
  import SidePots
  import Ring

  // ---- the invariant ----

  /** No amount is negative, nobody has bet past the amount to call, and all-in means an empty stack. */
  ghost predicate Money(h: Hand)
    requires Shaped(h)
  {
    && 0 < h.sb <= h.bb && h.minRaise > 0 && h.toCall >= 0
    && forall p :: p in h.seats ==>
      && h.stacks[p] >= 0 && 0 <= h.streetBet[p] <= h.toCall && h.streetBet[p] <= h.contrib[p]
      && (h.stacks[p] == 0 <==> p in h.allin)
  }

  function ActedMarks(h: Hand): (r: seq<bool>)
    ensures |r| == |h.seats| && forall i :: 0 <= i < |r| ==> r[i] == (h.seats[i] in h.acted)
  {
    seq(|h.seats|, i requires 0 <= i < |h.seats| => h.seats[i] in h.acted)
  }

  /** The player to act is able and has not acted since the last raise; the able players who have acted form one
      cyclic run of seats ending just before that player, and each of them has matched the bet. */
  ghost predicate ActorDue(h: Hand)
    requires Shaped(h)
  {
    && h.toAct.Some?
    && Ring.Due(AbleMarks(h), ActedMarks(h), IndexOf(h.seats, h.toAct.value))
    && forall q :: IsAble(h, q) && q in h.acted ==> h.streetBet[q] == h.toCall
  }

  ghost predicate Open(h: Hand) {
    Shaped(h) && h.status.Betting? && Money(h) && |Live(h)| >= 2
  }

  ghost predicate Playing(h: Hand) {
    Open(h) && ActorDue(h)
  }

  ghost predicate Over(h: Hand) {
    Shaped(h) && h.status.Done? && h.toAct.None? && forall p :: p in h.seats ==> h.stacks[p] >= 0
  }

  /** Both blinds are all-in heads-up: the source leaves such a hand waiting for nobody. */
  ghost predicate Stalled(h: Hand) {
    Open(h) && h.toAct.None? && Able(h) == []
  }

  /** The chips at the table: behind and in the pot while betting, behind only once the hand is over. */
  function Chips(h: Hand): int
    requires Shaped(h)
  {
    Total(h.seats, h.stacks) + if h.status.Betting? then Total(h.seats, h.contrib) else 0
  }

  // ---- small facts ----

  lemma {:induction false} IndexOfSeat(s: seq<Player>, i: nat)
    requires Distinct(s) && i < |s|
    ensures IndexOf(s, s[i]) == i
  {
  }

  lemma {:induction false} OnlyRemove(s: seq<Player>, keep: set<Player>, p: Player)
    requires Distinct(s)
    ensures |Only(s, keep - {p})| == |Only(s, keep)| - if p in s && p in keep then 1 else 0
  {
    if s != [] {
      OnlyRemove(s[1..], keep, p);
      assert s[0] !in s[1..];
    }
  }

  lemma {:induction false} OnlyGrows(s: seq<Player>, keep: set<Player>, keep': set<Player>)
    requires keep <= keep'
    ensures |Only(s, keep)| <= |Only(s, keep')|
  {
    if s != [] { OnlyGrows(s[1..], keep, keep'); }
  }

  lemma WalkFinds(h: Hand, i: nat)
    requires Shaped(h) && i < |h.seats| && Able(h) != []
    ensures exists j :: 0 <= j < |h.seats| && AbleMarks(h)[j]
    ensures Clockwise(h, i) == Some(h.seats[Ring.Next(AbleMarks(h), i)])
  {
    var q := Able(h)[0];
    assert q in Able(h);
    var j := IndexOf(h.seats, q);
    assert AbleMarks(h)[j];
    Ring.NextExists(AbleMarks(h), i);
  }

  // ---- one move ----

  /** `m` is `h` after `p`'s move, before the turn passes. */
  ghost predicate Moved(h: Hand, m: Hand, p: Player)
    requires Shaped(h) && Shaped(m) && p in h.seats
  {
    && m.seats == h.seats && m.status == h.status && m.street == h.street
    && m.hole == h.hole && m.board == h.board && m.deck == h.deck
    && (forall q :: q in h.seats && q != p ==> (IsAble(m, q) <==> IsAble(h, q)))
    && (m.acted == {} || (m.acted == h.acted && m.toCall == h.toCall))
    && (forall q :: q in h.seats && q != p ==> m.streetBet[q] == h.streetBet[q])
    && (IsAble(m, p) ==> m.streetBet[p] == m.toCall)
    && h.folded <= m.folded <= h.folded + {p}
    && Chips(m) == Chips(h)
  }

  /** Chips behind plus players still in. */
  function Behind(h: Hand): int
    requires Shaped(h)
  {
    Total(h.seats, h.stacks) + |Live(h)|
  }

  /** `m` is `h` with `a` chips moved from `p`'s stack into the pot, at a new bet level `t`. */
  ghost predicate Posted(h: Hand, m: Hand, p: Player, a: int)
    requires Shaped(h) && p in h.seats
  {
    && Shaped(m)
    && m.seats == h.seats && m.status == h.status && m.street == h.street && m.sb == h.sb && m.bb == h.bb
    && m.hole == h.hole && m.board == h.board && m.deck == h.deck && m.folded == h.folded
    && m.stacks == h.stacks[p := h.stacks[p] - a]
    && m.contrib == h.contrib[p := h.contrib[p] + a]
    && m.streetBet == h.streetBet[p := h.streetBet[p] + a]
    && m.allin == if h.stacks[p] == a then h.allin + {p} else h.allin
  }

  lemma PostedChips(h: Hand, m: Hand, p: Player, a: int)
    requires Shaped(h) && h.status.Betting? && p in h.seats && Posted(h, m, p, a)
    ensures Chips(m) == Chips(h) && Behind(m) == Behind(h) - a
  {
    TotalUpdate(h.seats, h.stacks, p, h.stacks[p] - a);
    TotalUpdate(h.seats, h.contrib, p, h.contrib[p] + a);
  }

  lemma PostedMoney(h: Hand, m: Hand, p: Player, a: int)
    requires Open(h) && IsAble(h, p) && Posted(h, m, p, a) && 0 <= a <= h.stacks[p]
    requires m.toCall >= h.toCall && m.streetBet[p] <= m.toCall && m.minRaise > 0
    ensures Money(m)
  {
  }

  lemma PostedMoved(h: Hand, m: Hand, p: Player, a: int)
    requires Open(h) && IsAble(h, p) && Posted(h, m, p, a) && a <= h.stacks[p]
    requires m.acted == {} || (m.acted == h.acted && m.toCall == h.toCall)
    requires a < h.stacks[p] ==> m.streetBet[p] == m.toCall
    ensures Moved(h, m, p)
  {
    hide Total, Only, Money, Chips, Behind, Live;
    PostedChips(h, m, p, a);
  }

  lemma LiveAfterFold(h: Hand, p: Player)
    requires Shaped(h) && p in h.seats && p !in h.folded
    ensures |Live(h.(folded := h.folded + {p}))| == |Live(h)| - 1
  {
    OnlyRemove(h.seats, Elems(h.seats) - h.folded, p);
    OnlySame(h.seats, Elems(h.seats) - (h.folded + {p}), Elems(h.seats) - h.folded - {p});
  }

  /** A move either takes chips or a player out of play, or leaves everything as it was. */
  ghost predicate Progress(h: Hand, m: Hand, p: Player)
    requires Shaped(h) && p in h.seats
  {
    && Shaped(m) && Moved(h, m, p) && Money(m)
    && (Behind(m) < Behind(h) || (Behind(m) == Behind(h) && m.acted == h.acted && m.allin == h.allin && m.folded == h.folded))
  }

  lemma BetMoves(h: Hand, m: Hand, p: Player, a: int)
    requires Open(h) && IsAble(h, p) && Posted(h, m, p, a) && 0 <= a <= h.stacks[p]
    requires m.toCall >= h.toCall && m.streetBet[p] <= m.toCall && m.minRaise > 0
    requires m.acted == {} || (m.acted == h.acted && m.toCall == h.toCall)
    requires a < h.stacks[p] ==> m.streetBet[p] == m.toCall
    requires a == 0 ==> m.acted == h.acted
    ensures Progress(h, m, p)
  {
    PostedChips(h, m, p, a);
    PostedMoney(h, m, p, a);
    PostedMoved(h, m, p, a);
    hide Moved, Money, Chips, Behind;
  }

  lemma PostPosts(h: Hand, p: Player, amount: int)
    requires Shaped(h) && p in h.seats
    ensures var m := Post(h, p, amount);
      && Posted(h, m, p, Min(amount, h.stacks[p])) && m.streetBet[p] == h.streetBet[p] + Min(amount, h.stacks[p])
      && m.acted == h.acted && m.toCall == h.toCall && m.minRaise == h.minRaise
  {
    HasLedgers(h, p);
    hide Shaped;
  }

  lemma Relevelled(h: Hand, m: Hand, p: Player, a: int, minRaise: int, toCall: int)
    requires Shaped(h) && p in h.seats && Posted(h, m, p, a)
    ensures Posted(h, m.(minRaise := minRaise, toCall := toCall, lastRaiser := Some(p), acted := {}), p, a)
  {
  }

  lemma CallMoves(h: Hand, p: Player)
    requires Open(h) && IsAble(h, p)
    ensures Progress(h, Post(h, p, Min(CallAmount(h, p), h.stacks[p])), p)
  {
    var a := Min(CallAmount(h, p), h.stacks[p]);
    hide Progress, Post;
    PostPosts(h, p, a);
    BetMoves(h, Post(h, p, a), p, a);
  }

  lemma CheckMoves(h: Hand, p: Player)
    requires Open(h) && IsAble(h, p) && CallAmount(h, p) == 0
    ensures Progress(h, h, p)
  {
  }

  lemma AllInMoves(h: Hand, p: Player)
    requires Open(h) && IsAble(h, p)
    ensures Progress(h, GoAllIn(h, p), p)
  {
    hide Progress, Post;
    PostPosts(h, p, h.stacks[p]);
    var h1 := Post(h, p, h.stacks[p]);
    Relevelled(h, h1, p, h.stacks[p], GoAllIn(h, p).minRaise, h1.streetBet[p]);
    assert Posted(h, GoAllIn(h, p), p, h.stacks[p]);
    BetMoves(h, GoAllIn(h, p), p, h.stacks[p]);
  }

  lemma RaisePosts(h: Hand, p: Player, target: int)
    requires Shaped(h) && p in h.seats && target - h.streetBet[p] < h.stacks[p]
    ensures var m := RaiseTo(h, p, target);
      Posted(h, m, p, target - h.streetBet[p]) && m.streetBet[p] == target
  {
    HasLedgers(h, p);
    hide Post, Posted, Shaped;
    PostPosts(h, p, target - h.streetBet[p]);
    Relevelled(h, Post(h, p, target - h.streetBet[p]), p, target - h.streetBet[p], Max(h.minRaise, target - h.toCall), target);
  }

  lemma RaiseLevels(h: Hand, p: Player, target: int)
    requires Shaped(h) && p in h.seats
    ensures var m := RaiseTo(h, p, target);
      m.toCall == target && m.acted == {} && m.minRaise == Max(h.minRaise, target - h.toCall)
  {
    hide Post, Shaped;
  }

  lemma RaiseMoves(h: Hand, p: Player, target: int)
    requires Open(h) && IsAble(h, p)
    requires target >= h.toCall + h.minRaise && target - h.streetBet[p] < h.stacks[p]
    ensures Progress(h, RaiseTo(h, p, target), p)
  {
    hide Progress, Posted, RaiseTo, Live;
    RaisePosts(h, p, target);
    RaiseLevels(h, p, target);
    BetMoves(h, RaiseTo(h, p, target), p, target - h.streetBet[p]);
  }

  lemma FoldMoves(h: Hand, p: Player)
    requires Open(h) && IsAble(h, p)
    ensures Progress(h, h.(folded := h.folded + {p}), p)
  {
    LiveAfterFold(h, p);
  }

  lemma MoveMoves(h: Hand, p: Player, action: Action)
    requires Open(h) && IsAble(h, p) && action != Other
    ensures Move(h, p, action).Some? && Progress(h, Move(h, p, action).value, p)
  {
    hide Post, GoAllIn, RaiseTo, Progress;
    match action
    case Fold => FoldMoves(h, p);
    case Check => CallMoves(h, p); if CallAmount(h, p) == 0 { CheckMoves(h, p); }
    case Call => CallMoves(h, p);
    case AllIn => AllInMoves(h, p);
    case Raise(amount) => RaiseCase(h, p, amount);
  }

  lemma RaiseCase(h: Hand, p: Player, amount: int)
    requires Open(h) && IsAble(h, p)
    ensures Move(h, p, Raise(amount)).Some? && Progress(h, Move(h, p, Raise(amount)).value, p)
  {
    hide Post, GoAllIn, RaiseTo, Progress, Money, Move;
    var target := Max(amount, h.toCall + h.minRaise);
    MoveRaiseIs(h, p, amount);
    if target - h.streetBet[p] < h.stacks[p] { RaiseMoves(h, p, target); } else { AllInMoves(h, p); }
  }

  lemma MoveRaiseIs(h: Hand, p: Player, amount: int)
    requires Shaped(h) && p in h.seats
    ensures var target := Max(amount, h.toCall + h.minRaise);
      Move(h, p, Raise(amount)) == Some(if target - h.streetBet[p] < h.stacks[p] then RaiseTo(h, p, target) else GoAllIn(h, p))
  {
    hide Post, GoAllIn, RaiseTo;
  }

  // ---- closing the round or passing the turn ----

  /** Every able player who has acted has matched the bet. */
  ghost predicate ActedMatched(h: Hand)
    requires Shaped(h)
  {
    forall q :: IsAble(h, q) && q in h.acted ==> h.streetBet[q] == h.toCall
  }

  /** The closing test of the source holds exactly when every able player has acted. */
  lemma ClosesExactly(h: Hand)
    requires Shaped(h) && ActedMatched(h)
    ensures Matched(h) && (EveryoneActed(h) || Able(h) == []) <==> EveryoneActed(h)
  {
    if EveryoneActed(h) {
      forall q | q in Live(h) ensures h.streetBet[q] == h.toCall || q in h.allin {
        if q !in h.allin { assert q in Able(h); }
      }
    }
  }

  ghost predicate Follows(h: Hand, h1: Hand, p: Player) {
    && h1.seats == h.seats
    && (forall q :: q in h.seats && q != p ==> (IsAble(h1, q) <==> IsAble(h, q)))
    && (h1.acted == h.acted + {p} || h1.acted == {p})
  }

  lemma AbleMarksFollow(h: Hand, h1: Hand, p: Player, i: nat)
    requires p in h.seats && Follows(h, h1, p) && i < |h.seats| && i != IndexOf(h.seats, p) && Distinct(h.seats)
    ensures AbleMarks(h1)[i] == AbleMarks(h)[i]
  {
    assert h.seats[i] != p && h.seats[i] in h.seats;
    hide IsAble;
  }

  lemma ActedMarksFollow(h: Hand, h1: Hand, p: Player)
    requires p in h.seats && Distinct(h.seats) && h1.seats == h.seats
    ensures var a := IndexOf(h.seats, p);
      && (h1.acted == h.acted + {p} ==> ActedMarks(h1) == ActedMarks(h)[a := true])
      && (h1.acted == {p} ==> forall i :: 0 <= i < |h.seats| ==> (ActedMarks(h1)[i] <==> i == a))
  {
    var a := IndexOf(h.seats, p);
    assert forall i :: 0 <= i < |h.seats| && i != a ==> h.seats[i] != p;
  }

  lemma MarksFollow(h: Hand, h1: Hand, p: Player)
    requires Shaped(h) && p in h.seats && Follows(h, h1, p)
    ensures var a := IndexOf(h.seats, p);
      && (forall i :: 0 <= i < |h.seats| && i != a ==> AbleMarks(h1)[i] == AbleMarks(h)[i])
      && (h1.acted == h.acted + {p} ==> ActedMarks(h1) == ActedMarks(h)[a := true])
      && (h1.acted == {p} ==> forall i :: 0 <= i < |h.seats| ==> (ActedMarks(h1)[i] <==> i == a))
  {
    assert Distinct(h.seats);
    hide Shaped, AbleMarks, ActedMarks, IsAble, Distinct;
    forall i | 0 <= i < |h.seats| && i != IndexOf(h.seats, p) ensures AbleMarks(h1)[i] == AbleMarks(h)[i] {
      AbleMarksFollow(h, h1, p, i);
    }
    ActedMarksFollow(h, h1, p);
  }

  lemma SomeoneLeft(h: Hand)
    requires Shaped(h) && !EveryoneActed(h)
    ensures Able(h) != [] && exists i :: 0 <= i < |h.seats| && AbleMarks(h)[i] && !ActedMarks(h)[i]
  {
    var q :| q in Able(h) && q !in h.acted;
    var i := IndexOf(h.seats, q);
    assert AbleMarks(h)[i] && !ActedMarks(h)[i];
  }

  lemma PassDue(h: Hand, h1: Hand, p: Player)
    requires Shaped(h) && p in h.seats && Ring.Due(AbleMarks(h), ActedMarks(h), IndexOf(h.seats, p))
    requires Shaped(h1) && Follows(h, h1, p) && !EveryoneActed(h1)
    ensures Able(h1) != [] && exists i :: 0 <= i < |h.seats| && AbleMarks(h1)[i]
    ensures Ring.Due(AbleMarks(h1), ActedMarks(h1), Ring.Next(AbleMarks(h1), IndexOf(h.seats, p)))
  {
    hide Shaped, AbleMarks, ActedMarks, EveryoneActed, Able, IsAble, Ring.Due, Ring.Next, IndexOf;
    var a := IndexOf(h.seats, p);
    var able, acted, able', acted' := AbleMarks(h), ActedMarks(h), AbleMarks(h1), ActedMarks(h1);
    SomeoneLeft(h1);
    MarksFollow(h, h1, p);
    if h1.acted == {p} {
      Ring.RaisingPassesTheTurn(able', acted', a);
    } else {
      Ring.ActingPassesTheTurn(able, acted, a, able', acted');
    }
  }

  lemma DueTurn(h: Hand, b: nat)
    requires Shaped(h) && ActedMatched(h) && Ring.Due(AbleMarks(h), ActedMarks(h), b)
    ensures b < |h.seats| && ActorDue(h.(toAct := Some(h.seats[b])))
  {
    assert b < |h.seats|;
    assert h.seats[b] in h.seats;
    IndexOfSeat(h.seats, b);
    var r := h.(toAct := Some(h.seats[b]));
    assert AbleMarks(r) == AbleMarks(h) && ActedMarks(r) == ActedMarks(h);
    hide Ring.Due;
  }

  lemma SkipDoneKeeps(h: Hand)
    requires Shaped(h) && h.toAct.Some? && IsAble(h, h.toAct.value)
    ensures SkipDone(h) == h
  {
  }

  // ---- opening streets ----

  lemma OpenTurn(h: Hand, i: nat)
    requires Shaped(h) && i < |h.seats| && Able(h) != [] && h.acted == {}
    ensures ActorDue(Aim(h, Clockwise(h, i)))
  {
    WalkFinds(h, i);
    var b := Ring.Next(AbleMarks(h), i);
    assert Ring.Due(AbleMarks(h), ActedMarks(h), b);
    DueTurn(h, b);
  }

  lemma OpenStreetOpens(h: Hand)
    requires Open(h) && h.street != River
    ensures var r := OpenStreet(h, NextStreet(h.street));
      Open(r) && Chips(r) == Chips(h) && Behind(r) == Behind(h) && r.acted == {} && r.seats == h.seats
      && r.folded == h.folded && r.allin == h.allin && r.hole == h.hole
  {
  }

  /** What the players who are still owed something are paid at the showdown. */
  function Paid(h: Hand): map<Player, int>
    requires Shaped(h)
  {
    var won := Winnings(h);
    map p | p in h.seats :: if p in won then won[p] else 0
  }

  lemma ShowdownPays(h: Hand)
    requires Open(h)
    ensures Total(h.seats, Paid(h)) == Total(h.seats, h.contrib)
    ensures forall p :: p in h.seats ==> Paid(h)[p] >= 0
  {
    var pot := SidePots.PotOf(h.seats, h.contrib, Live(h), Ranks(h));
    SidePots.PayoutsConserve(pot);
    var won := Winnings(h);
    assert won.Keys == Elems(pot.order);
    var paying := set p | p in h.seats && h.contrib[p] > 0;
    assert pot.order == Only(h.seats, paying);
    SameOnPart(h.seats, paying, won, Paid(h));
    SameOnPart(h.seats, paying, h.contrib, h.contrib);
  }

  /** A ledger that is nil outside `part` totals what its part does. */
  lemma SameOnPart(s: seq<Player>, part: set<Player>, m: map<Player, int>, whole: map<Player, int>)
    requires forall p :: p in s ==> p in whole && (if p in part then p in m && m[p] == whole[p] else whole[p] == 0)
    ensures Total(s, whole) == Total(Only(s, part), m)
  {
    TotalPartition(s, part, whole);
    TotalExt(Only(s, part), whole, m);
    TotalZero(Only(s, Elems(s) - part), whole);
  }

  lemma ShowdownEnds(h: Hand)
    requires Open(h)
    ensures Over(Showdown(h)) && Chips(Showdown(h)) == Chips(h)
  {
    ShowdownPays(h);
    TotalSum(h.seats, h.stacks, Paid(h), Showdown(h).stacks);
  }

  /** The one player left gets the whole pot, and nobody else's stack moves. */
  lemma AwardEnds(h: Hand)
    requires Shaped(h) && h.status.Betting? && Money(h) && |Live(h)| == 1
    ensures var r := AwardFolded(h);
      && Over(r) && Chips(r) == Chips(h)
      && (forall p :: p in h.seats ==> r.stacks[p] - h.stacks[p] == if p in h.folded then 0 else Total(h.seats, h.contrib))
      && r.winners == map p | p in h.seats && p !in h.folded :: Total(h.seats, h.contrib)
  {
    hide Only, Total;
    var winner := Live(h)[0];
    assert winner in Live(h);
    forall p | p in h.seats ensures p !in h.folded <==> p == winner { OneLeft(h, p); }
    TotalNonNegative(h.seats, h.contrib);
    TotalUpdate(h.seats, h.stacks, winner, h.stacks[winner] + Total(h.seats, h.contrib));
  }

  lemma OneLeft(h: Hand, p: Player)
    requires |Live(h)| == 1 && p in h.seats
    ensures p !in h.folded <==> p == Live(h)[0]
  {
    assert p in Live(h) <==> p !in h.folded;
  }

  lemma {:induction false} AdvanceKeeps(h: Hand)
    requires Open(h)
    ensures var r := AdvanceStreet(h);
      && (Playing(r) || Over(r)) && Chips(r) == Chips(h) && r.seats == h.seats
      && (Playing(r) ==> Behind(r) == Behind(h) && StreetsLeft(r.street) < StreetsLeft(h.street))
    decreases StreetsLeft(h.street)
  {
    if h.street.River? {
      ShowdownEnds(h);
    } else {
      var h1 := OpenStreet(h, NextStreet(h.street));
      OpenStreetOpens(h);
      if |Able(h1)| >= 2 {
        OpenTurn(h1, h1.button);
        AimKeeps(h1, Clockwise(h1, h1.button));
      } else {
        AdvanceKeeps(h1);
      }
    }
  }

  /** Pointing the turn at a seated player changes nothing else. */
  lemma AimKeeps(h: Hand, cand: Option<Player>)
    requires Open(h) && (cand.Some? ==> cand.value in h.seats)
    ensures var r := Aim(h, cand);
      Open(r) && Chips(r) == Chips(h) && Behind(r) == Behind(h) && r.street == h.street && r.seats == h.seats
  {
  }

  // ---- one action ----

  /** Able players who have not acted since the last raise. */
  function Unacted(h: Hand): nat {
    |Only(h.seats, Elems(h.seats) - h.folded - h.allin - h.acted)|
  }

  /** `r` is closer to the end than `h`: chips behind and players in, then streets left, then players yet to act. */
  ghost predicate Closer(h: Hand, r: Hand)
    requires Shaped(h) && Shaped(r)
  {
    || Behind(r) < Behind(h)
    || (Behind(r) == Behind(h)
        && (StreetsLeft(r.street) < StreetsLeft(h.street)
            || (StreetsLeft(r.street) == StreetsLeft(h.street) && Unacted(r) < Unacted(h))))
  }

  /** What one accepted step does to a hand in play. */
  ghost predicate Kept(h: Hand, r: Hand)
    requires Shaped(h)
  {
    && (Playing(r) || Over(r)) && r.seats == h.seats && Chips(r) == Chips(h)
    && (Playing(r) ==> Closer(h, r))
  }

  function Marked(m: Hand, p: Player): Hand {
    m.(acted := m.acted + {p})
  }

  lemma ActorIsAble(h: Hand)
    requires Playing(h)
    ensures IsAble(h, h.toAct.value) && h.toAct.value !in h.acted
  {
    assert AbleMarks(h)[IndexOf(h.seats, h.toAct.value)] && !ActedMarks(h)[IndexOf(h.seats, h.toAct.value)];
  }

  lemma UnactedDrops(h: Hand, m: Hand, p: Player)
    requires Playing(h) && h.toAct == Some(p) && m.seats == h.seats
    requires m.acted == h.acted && m.allin == h.allin && m.folded == h.folded
    ensures Unacted(Marked(m, p)) < Unacted(h)
  {
    ActorIsAble(h);
    OnlyRemove(h.seats, Elems(h.seats) - h.folded - h.allin - h.acted, p);
    OnlySame(h.seats, Elems(h.seats) - h.folded - h.allin - h.acted - {p},
             Elems(h.seats) - h.folded - h.allin - Marked(m, p).acted);
  }

  lemma PassOnIs(h: Hand, p: Player)
    requires Open(h) && p in h.seats && Able(h) != [] && exists i :: 0 <= i < |h.seats| && AbleMarks(h)[i]
    ensures PassOn(h, p) == h.(toAct := Some(h.seats[Ring.Next(AbleMarks(h), IndexOf(h.seats, p))]))
  {
    var a := IndexOf(h.seats, p);
    WalkFinds(h, a);
    var b := Ring.Next(AbleMarks(h), a);
    assert h.seats[b] in h.seats && IsAble(h, h.seats[b]);
    SkipDoneKeeps(h.(toAct := Some(h.seats[b])));
    hide SkipDone, Able, Live;
  }

  lemma TurnPasses(h: Hand, h1: Hand, p: Player)
    requires Playing(h) && h.toAct == Some(p)
    requires Open(h1) && Follows(h, h1, p) && ActedMatched(h1) && !EveryoneActed(h1)
    ensures Playing(PassOn(h1, p)) && PassOn(h1, p) == h1.(toAct := PassOn(h1, p).toAct)
  {
    PassDue(h, h1, p);
    PassOnIs(h1, p);
    DueTurn(h1, Ring.Next(AbleMarks(h1), IndexOf(h1.seats, p)));
    AimKeeps(h1, PassOn(h1, p).toAct);
    hide PassOn, ActorDue, Money, Live, Able, Follows, EveryoneActed, ActedMatched;
  }

  lemma OthersMatched(h: Hand, m: Hand, p: Player)
    requires Playing(h) && h.toAct == Some(p) && Progress(h, m, p)
    ensures ActedMatched(Marked(m, p))
  {
    var h1 := Marked(m, p);
    forall q | IsAble(h1, q) && q in h1.acted ensures h1.streetBet[q] == h1.toCall {
      if q != p {
        assert IsAble(h, q) && q in h.acted;
      }
    }
  }

  lemma SomeoneStays(h: Hand, m: Hand, p: Player)
    requires Shaped(h) && |Live(h)| >= 2 && p in h.seats && m.seats == h.seats && m.folded <= h.folded + {p}
    ensures |Live(m)| >= 1
  {
    OnlyRemove(h.seats, Elems(h.seats) - h.folded, p);
    OnlyGrows(h.seats, Elems(h.seats) - h.folded - {p}, Elems(h.seats) - m.folded);
  }

  lemma MarkedFollows(h: Hand, m: Hand, p: Player)
    requires Open(h) && p in h.seats && Progress(h, m, p)
    ensures var h1 := Marked(m, p);
      && Shaped(h1) && Money(h1) && h1.status.Betting? && Follows(h, h1, p)
      && |Live(h1)| >= 1 && Chips(h1) == Chips(h) && Behind(h1) == Behind(m) && h1.street == h.street
  {
    SomeoneStays(h, m, p);
    MarkedSame(m, p);
    MoveFollows(h, m, p);
    hide Total, Only, Money, Behind, Chips, Shaped, Follows, Live;
  }

  lemma MoveFollows(h: Hand, m: Hand, p: Player)
    requires Shaped(h) && p in h.seats && Shaped(m) && Moved(h, m, p)
    ensures Follows(h, Marked(m, p), p)
  {
    hide Total, Chips, Shaped;
  }

  /** Marking a player as having acted touches neither chips nor cards. */
  lemma MarkedSame(m: Hand, p: Player)
    requires Shaped(m) && p in m.seats
    ensures var h1 := Marked(m, p);
      Shaped(h1) && (Money(m) ==> Money(h1)) && Chips(h1) == Chips(m) && Behind(h1) == Behind(m) && Live(h1) == Live(m)
  {
  }

  lemma FinishKeeps(h: Hand, m: Hand, p: Player)
    requires Playing(h) && h.toAct == Some(p) && Progress(h, m, p)
    ensures Kept(h, Finish(m, p))
  {
    var h1 := Marked(m, p);
    MarkedFollows(h, m, p);
    OthersMatched(h, m, p);
    ClosesExactly(h1);
    if |Live(h1)| == 1 {
      AwardEnds(h1);
    } else if EveryoneActed(h1) {
      AdvanceKeeps(h1);
    } else {
      TurnPasses(h, h1, p);
      if Behind(m) == Behind(h) { UnactedDrops(h, m, p); }
      PassOnKeeps(h, h1, p);
    }
    hide PassOn, AdvanceStreet, AwardFolded, ActorDue, Money, Moved, Matched, Live, Able, EveryoneActed, Behind, Unacted, Chips,
         ActedMatched, Follows;
  }

  lemma PassOnKeeps(h: Hand, h1: Hand, p: Player)
    requires Shaped(h) && Shaped(h1) && p in h.seats && h1.seats == h.seats && h1.street == h.street
    requires h1.status.Betting? && Chips(h1) == Chips(h)
    requires Behind(h1) < Behind(h) || (Behind(h1) == Behind(h) && Unacted(h1) < Unacted(h))
    requires Playing(PassOn(h1, p)) && PassOn(h1, p) == h1.(toAct := PassOn(h1, p).toAct)
    ensures Kept(h, PassOn(h1, p))
  {
    hide PassOn, Playing;
  }

  /** One action by the player whose turn it is. */
  lemma ActKeeps(h: Hand, p: Player, action: Action)
    requires Playing(h) && h.toAct == Some(p) && action != Other
    ensures Kept(h, Act(h, p, action))
  {
    ActorIsAble(h);
    MoveMoves(h, p, action);
    FinishKeeps(h, Move(h, p, action).value, p);
  }
}
