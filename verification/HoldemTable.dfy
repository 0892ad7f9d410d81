/** The table object of the source: one state dictionary, updated in place (botframework/holdem_game.py).

  `st` is that dictionary. Every method is proved against the function of the same name in `HoldemRules`, so what
  the lemmas prove about those functions holds of the object.
 */
module HoldemTable {
  import opened Seats
  import opened Numbers
  import opened HandRank
  import opened PlayingCards
  import opened HoldemRules
  import SidePots
  import Ring

  class Table {
    var st: Hand

    /** Deals a new hand. */
    constructor (seats: seq<Player>, button: nat, stacks: map<Player, int>, sb: int, bb: int, deck: seq<Card>)
      requires Distinct(seats) && |seats| >= 2 && stacks.Keys == Elems(seats)
      requires |deck| >= 2 * |seats| + 5
      ensures st == StartHand(seats, button, stacks, sb, bb, deck)
    {
      st := Dealt(seats, button, stacks, sb, bb, deck);
      new;
      var n := |seats|;
      var sbSeat := if n == 2 then st.button else Ring.Seat(st.button, 1, n);
      var bbSeat := Ring.Seat(sbSeat, 1, n);
      ghost var h := st;
      assert sbSeat == SmallSeat(h) && bbSeat == BigSeat(h);
      assert seats[sbSeat] in seats && seats[bbSeat] in seats;
      Post(seats[sbSeat], sb);
      Post(seats[bbSeat], bb);
      assert st == PostBlinds(h);
      hide PostBlinds, Dealt, SmallSeat, BigSeat;
      var first := seats[Ring.Seat(bbSeat, 1, n)];
      assert first in seats;
      st := st.(toCall := bb, minRaise := bb, lastRaiser := Some(seats[bbSeat]), acted := {}, toAct := Some(first));
      SkipDone();
    }

    method Post(p: Player, amount: int)
      requires Shaped(st) && p in st.seats
      modifies this
      ensures st == HoldemRules.Post(old(st), p, amount)
    {
      hide Shaped;
      HasLedgers(st, p);
      var a := Min(amount, st.stacks[p]);
      var left := st.stacks[p] - a;
      var allin := if left == 0 then st.allin + {p} else st.allin;
      st := st.(stacks := st.stacks[p := left], contrib := st.contrib[p := st.contrib[p] + a],
                streetBet := st.streetBet[p := st.streetBet[p] + a], allin := allin);
    }

    /** Walks clockwise from seat `i` to the next player in `able`, once round the table. */
    method Walk(i: nat, able: seq<Player>) returns (cand: Option<Player>)
      requires i < |st.seats| && able == Able(st)
      ensures cand == Clockwise(st, i)
    {
      var n := |st.seats|;
      ghost var marks := AbleMarks(st);
      var k := 1;
      while k <= n
        invariant 1 <= k <= n + 1
        invariant Ring.Search(marks, i, 1) == Ring.Search(marks, i, k)
      {
        var q := st.seats[Ring.Seat(i, k, n)];
        assert q in able <==> marks[Ring.Seat(i, k, n)];
        if q in able {
          return Some(q);
        }
        k := k + 1;
      }
      return None;
    }

    method SkipDone()
      requires Shaped(st)
      modifies this
      ensures st == HoldemRules.SkipDone(old(st))
    {
      var able := Able(st);
      if |Live(st)| <= 1 { return; }
      if able == [] {
        st := st.(toAct := None);
        return;
      }
      if !(st.toAct.Some? && st.toAct.value in able) {
        var i := if st.toAct.Some? then IndexOf(st.seats, st.toAct.value) else st.button;
        var cand := Walk(i, able);
        if cand.Some? { st := st.(toAct := cand); }
      }
    }

    /** Applies one action; anything out of turn, over, or unknown changes nothing. */
    method Act(p: Player, action: Action)
      requires Shaped(st)
      modifies this
      ensures st == HoldemRules.Act(old(st), p, action)
    {
      if st.status != Betting || st.toAct != Some(p) { return; }
      var taken := Apply(p, action);
      hide Move, HoldemRules.Finish;
      if taken { Finish(p); }
    }

    method Apply(p: Player, action: Action) returns (taken: bool)
      requires Shaped(st) && p in st.seats
      modifies this
      ensures var moved := Move(old(st), p, action);
        taken == moved.Some? && st == if taken then moved.value else old(st)
    {
      hide HoldemRules.Post, HoldemRules.GoAllIn, RaiseTo, Shaped;
      HasLedgers(st, p);
      taken := true;
      var call := Max(0, st.toCall - st.streetBet[p]);
      var stack := st.stacks[p];
      match action {
        case Fold =>
          st := st.(folded := st.folded + {p});
        case Check =>
          if call != 0 { Post(p, Min(call, stack)); }
        case Call =>
          Post(p, Min(call, stack));
        case AllIn =>
          GoAllIn(p);
        case Raise(amount) =>
          var target := Max(amount, st.toCall + st.minRaise);
          var need := target - st.streetBet[p];
          if need >= stack {
            GoAllIn(p);
          } else {
            Raise(p, target, need);
          }
        case Other =>
          taken := false;
      }
    }

    method Raise(p: Player, target: int, need: int)
      requires Shaped(st) && p in st.seats && need == target - st.streetBet[p]
      modifies this
      ensures st == RaiseTo(old(st), p, target)
    {
      hide Shaped;
      HasLedgers(st, p);
      var inc := target - st.toCall;
      Post(p, need);
      assert st.toCall == old(st).toCall && st.minRaise == old(st).minRaise;
      hide HoldemRules.Post;
      st := st.(minRaise := Max(st.minRaise, inc), toCall := target, lastRaiser := Some(p), acted := {});
    }

    method GoAllIn(p: Player)
      requires Shaped(st) && p in st.seats
      modifies this
      ensures st == HoldemRules.GoAllIn(old(st), p)
    {
      hide Shaped;
      HasLedgers(st, p);
      var was := st.toCall;
      Post(p, st.stacks[p]);
      assert st.toCall == was && st.minRaise == old(st).minRaise && p in st.streetBet;
      hide HoldemRules.Post;
      if st.streetBet[p] > was {
        var inc := st.streetBet[p] - was;
        if inc >= st.minRaise { st := st.(minRaise := inc); }
        st := st.(toCall := st.streetBet[p], lastRaiser := Some(p), acted := {});
      }
    }

    /** After a move: award the pot, close the round, or pass the turn. */
    method Finish(p: Player)
      requires Shaped(st) && st.status.Betting? && p in st.seats
      modifies this
      ensures st == HoldemRules.Finish(old(st), p)
    {
      st := st.(acted := st.acted + {p});
      ghost var h1 := st;
      var live, able := Live(st), Able(st);
      if |live| == 1 {
        AwardFolded();
        return;
      }
      var matched := forall q :: q in live ==> st.streetBet[q] == st.toCall || q in st.allin;
      var everyone := forall q :: q in able ==> q in st.acted;
      assert matched == Matched(h1) && everyone == EveryoneActed(h1);
      assert HoldemRules.Finish(old(st), p) ==
        if matched && (everyone || able == []) then HoldemRules.AdvanceStreet(h1) else HoldemRules.PassOn(h1, p);
      hide HoldemRules.AdvanceStreet, HoldemRules.PassOn, HoldemRules.Finish, Matched, EveryoneActed, Able;
      if matched && (everyone || able == []) {
        AdvanceStreet();
      } else {
        PassOn(p);
      }
    }

    /** The turn goes to the next able player clockwise of `p`. */
    method PassOn(p: Player)
      requires Shaped(st) && p in st.seats
      modifies this
      ensures st == HoldemRules.PassOn(old(st), p)
    {
      var cand := Walk(IndexOf(st.seats, p), Able(st));
      if cand.Some? { st := st.(toAct := cand); }
      SkipDone();
    }

    method AwardFolded()
      requires Shaped(st) && Live(st) != []
      modifies this
      ensures st == HoldemRules.AwardFolded(old(st))
    {
      var winner := Live(st)[0];
      assert winner in Live(st);
      HasLedgers(st, winner);
      var pot := Total(st.seats, st.contrib);
      hide Shaped, Total, Only;
      st := st.(stacks := st.stacks[winner := st.stacks[winner] + pot]);
      st := st.(winners := map[winner := pot], status := Done, toAct := None);
    }

    /** Opens the next street; while fewer than two players can act, deals on to the showdown. */
    method AdvanceStreet()
      requires Shaped(st) && st.status.Betting?
      modifies this
      ensures st == HoldemRules.AdvanceStreet(old(st))
    {
      hide HoldemRules.OpenStreet, HoldemRules.Showdown, Able;
      while true
        invariant Shaped(st) && st.status.Betting?
        invariant HoldemRules.AdvanceStreet(st) == HoldemRules.AdvanceStreet(old(st))
        decreases StreetsLeft(st.street)
      {
        if st.street == River {
          Showdown();
          return;
        }
        OpenStreet();
        var able := Able(st);
        if |able| >= 2 {
          var cand := Walk(st.button, able);
          if cand.Some? { st := st.(toAct := cand); }
          return;
        }
      }
    }

    method OpenStreet()
      requires Shaped(st) && st.status.Betting? && st.street != River
      modifies this
      ensures st == HoldemRules.OpenStreet(old(st), NextStreet(old(st.street)))
    {
      ghost var h := st;
      st := st.(street := NextStreet(st.street));
      var need := BoardSize(st.street);
      while |st.board| < need
        invariant |st.board| <= need && |st.board| + |st.deck| == |h.board| + |h.deck| >= 5
        invariant DealBoard(st.board, st.deck, need) == DealBoard(h.board, h.deck, need)
        invariant st == h.(street := NextStreet(h.street), board := st.board, deck := st.deck)
        decreases |st.deck|
      {
        var card := st.deck[|st.deck| - 1];
        st := st.(board := st.board + [card], deck := st.deck[..|st.deck| - 1]);
      }
      st := st.(streetBet := map q | q in st.seats :: 0);
      st := st.(toCall := 0, minRaise := st.bb, lastRaiser := None, acted := {});
    }

    method Showdown()
      requires Shaped(st)
      modifies this
      ensures st == HoldemRules.Showdown(old(st))
    {
      var live := Live(st);
      var ranks := map p | p in live :: Evaluate7(st.hole[p] + st.board);
      assert ranks == Ranks(st);
      var won := SidePots.DistributePot(st.seats, st.contrib, live, ranks);
      assert won == Winnings(st);
      hide Winnings, Shaped;
      st := st.(stacks := map p | p in st.seats :: st.stacks[p] + if p in won then won[p] else 0);
      st := st.(winners := map p | p in won && won[p] > 0 :: won[p]);
      st := st.(status := Done, toAct := None);
    }

    /** A player leaves: folded out of the current hand and not seated in the next one. */
    method Leave(p: Player)
      requires Shaped(st)
      modifies this
      ensures st == HoldemRules.Leave(old(st), p)
    {
      hide HoldemRules.Act, HoldemRules.AwardFolded, Live;
      if p !in st.seats { return; }
      st := st.(left := st.left + {p});
      if st.status == Betting && p !in st.folded {
        if st.toAct == Some(p) {
          Act(p, Fold);
          return;
        }
        st := st.(folded := st.folded + {p});
        if |Live(st)| == 1 { AwardFolded(); }
      }
    }

    /** Deals the next hand to those who stay, or reports that the table closes. */
    method NextHand(deck: seq<Card>) returns (next: Table?)
      requires Shaped(st) && |deck| >= 2 * |st.seats| + 5
      ensures next == null <==> HoldemRules.NextHand(st, deck).None?
      ensures next != null ==> fresh(next) && next.st == HoldemRules.NextHand(st, deck).value
    {
      var survivors := Survivors(st);
      if |survivors| < 2 { return null; }
      OnlyDistinct(st.seats, set p | p in st.seats && p !in st.left && st.stacks[p] > 0);
      var newButton := WalkToButton(survivors);
      var carried := map p | p in survivors :: st.stacks[p];
      assert carried == Carried(st);
      hide Survivors, NewButton, Carried, StartHand;
      next := new Table(survivors, newButton, carried, st.sb, st.bb, deck);
    }

    /** The first survivor strictly clockwise of the old button, as an index among the survivors. */
    method WalkToButton(survivors: seq<Player>) returns (i: nat)
      requires Shaped(st) && survivors == Survivors(st) && survivors != []
      ensures i == NewButton(st)
    {
      var n := |st.seats|;
      ghost var marks := SurvivorMarks(st);
      var k := 1;
      while k <= n
        invariant 1 <= k <= n + 1
        invariant Ring.Search(marks, st.button, 1) == Ring.Search(marks, st.button, k)
      {
        var q := st.seats[Ring.Seat(st.button, k, n)];
        if q in survivors {
          return IndexOf(survivors, q);
        }
        k := k + 1;
      }
      return 0;
    }
  }
}
