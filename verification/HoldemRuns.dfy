/** Whole hands and whole tables: what holds after any sequence of actions, leaves and deals. */
module HoldemRuns {
  import opened Seats
  import opened Numbers
  import opened HandRank
  import opened PlayingCards
  import opened HoldemRules
  import opened HoldemProofs
  import Ring

  // ---- leaving ----

  /** Only the list of leavers differs. */
  ghost predicate SameButLeft(h: Hand, r: Hand) {
    r == h.(left := r.left)
  }

  lemma SameButLeftCounts(h: Hand, r: Hand)
    requires Shaped(h) && SameButLeft(h, r)
    ensures Shaped(r) && Chips(r) == Chips(h) && Behind(r) == Behind(h) && Unacted(r) == Unacted(h)
    ensures Live(r) == Live(h) && Able(r) == Able(h) && (Money(h) ==> Money(r))
  {
  }

  lemma SameButLeftKeeps(h: Hand, r: Hand)
    requires Shaped(h) && SameButLeft(h, r)
    ensures Shaped(r) && Chips(r) == Chips(h) && Behind(r) == Behind(h) && Unacted(r) == Unacted(h)
    ensures Playing(h) ==> Playing(r)
    ensures Over(h) ==> Over(r)
    ensures Stalled(h) ==> Stalled(r)
  {
    SameButLeftCounts(h, r);
    assert AbleMarks(r) == AbleMarks(h) && ActedMarks(r) == ActedMarks(h);
    hide Ring.Due, Money, Live, Able, Chips, Behind, Unacted;
  }

  /** Folding somebody who is not to act leaves the turn where it is. */
  lemma FoldOutOfTurn(h: Hand, p: Player)
    requires Playing(h) && p in h.seats && p !in h.folded && h.toAct != Some(p)
    requires |Live(h)| > 2
    ensures var r := h.(folded := h.folded + {p});
      Playing(r) && Chips(r) == Chips(h) && Behind(r) < Behind(h)
  {
    var r := h.(folded := h.folded + {p});
    LiveAfterFold(h, p);
    FoldedStaysOpen(h, p);
    hide Ring.Due, Money, Open, Live, Chips, Behind;
    var a, c := IndexOf(h.seats, h.toAct.value), IndexOf(h.seats, p);
    assert h.seats[a] != h.seats[c];
    assert ActedMarks(r) == ActedMarks(h);
    FewerAble(AbleMarks(h), AbleMarks(r), ActedMarks(h), a);
  }

  lemma FoldedStaysOpen(h: Hand, p: Player)
    requires Open(h) && p in h.seats && |Live(h)| > 2 && |Live(h.(folded := h.folded + {p}))| == |Live(h)| - 1
    ensures var r := h.(folded := h.folded + {p}); Open(r) && Chips(r) == Chips(h) && Behind(r) < Behind(h)
  {
    hide Live, Total;
  }

  /** A seat other than the one due drops out: the seat due is still due. */
  lemma FewerAble(able: seq<bool>, able': seq<bool>, acted: seq<bool>, a: nat)
    requires Ring.Due(able, acted, a) && |able'| == |able| && able'[a]
    requires forall i :: 0 <= i < |able| && able'[i] ==> able[i]
    ensures Ring.Due(able', acted, a)
  {
  }

  lemma FoldStalled(h: Hand, p: Player)
    requires Stalled(h) && p in h.seats && p !in h.folded && |Live(h)| > 2
    ensures var r := h.(folded := h.folded + {p});
      Stalled(r) && Chips(r) == Chips(h) && Behind(r) < Behind(h)
  {
    LiveAfterFold(h, p);
    OnlyGrows(h.seats, Elems(h.seats) - (h.folded + {p}) - h.allin, Elems(h.seats) - h.folded - h.allin);
  }

  // ---- any step ----

  datatype Event = Play(player: Player, action: Action) | Quit(player: Player)

  function Step(h: Hand, e: Event): (r: Hand)
    requires Shaped(h)
    ensures Shaped(r) && r.seats == h.seats
  {
    match e
    case Play(p, action) => Act(h, p, action)
    case Quit(p) => Leave(h, p)
  }

  /** The hand takes the event: a known action in turn, or a leave that folds somebody. */
  predicate Accepted(h: Hand, e: Event) {
    match e
    case Play(p, action) => h.status.Betting? && h.toAct == Some(p) && action != Other
    case Quit(p) => h.status.Betting? && p in h.seats && p !in h.folded
  }

  ghost predicate Good(h: Hand) {
    Playing(h) || Over(h) || Stalled(h)
  }

  /** What a hand may become: one in play stays in play or ends, a stalled one stays stalled or ends, and one that is
      over stays over. */
  ghost predicate Becomes(h: Hand, r: Hand) {
    Over(r) || (Playing(h) && Playing(r)) || (Stalled(h) && Stalled(r))
  }

  lemma BecomesThrough(h: Hand, h1: Hand, r: Hand)
    requires Becomes(h, h1) && Becomes(h1, r)
    ensures Becomes(h, r)
  {
    hide Money, Live, Shaped, Ring.Due, Able;
  }

  ghost predicate StepKept(h: Hand, r: Hand)
    requires Shaped(h)
  {
    && Becomes(h, r) && r.seats == h.seats && Chips(r) == Chips(h) && (r.status.Betting? ==> Closer(h, r))
  }

  lemma QuitInTurn(h: Hand, p: Player)
    requires Playing(h) && h.toAct == Some(p)
    ensures StepKept(h, Act(h.(left := h.left + {p}), p, Fold))
  {
    var h1 := h.(left := h.left + {p});
    SameButLeftKeeps(h, h1);
    ActKeeps(h1, p, Fold);
    var r := Act(h1, p, Fold);
    hide Playing, Over, Stalled, Act;
    KeptToo(h, h1, r);
  }

  lemma KeptToo(h: Hand, h1: Hand, r: Hand)
    requires Shaped(h) && Shaped(h1) && h1.seats == h.seats && h1.street == h.street && Chips(h1) == Chips(h)
    requires Behind(h1) == Behind(h) && Unacted(h1) == Unacted(h) && Playing(h) && Kept(h1, r)
    ensures StepKept(h, r)
  {
    hide Behind, Unacted, Chips, ActorDue, Money;
  }

  lemma QuitOutOfTurn(h: Hand, p: Player)
    requires (Playing(h) || Stalled(h)) && p in h.seats && p !in h.folded && h.toAct != Some(p)
    ensures var r := h.(folded := h.folded + {p});
      if |Live(r)| == 1 then StepKept(h, AwardFolded(r)) else StepKept(h, r)
  {
    hide Playing, Stalled, Over, AwardFolded, Chips, Behind, Unacted, Live;
    GoesOn(h);
    LiveAfterFold(h, p);
    var r := h.(folded := h.folded + {p});
    if |Live(r)| == 1 {
      QuitLeavesOne(h, p);
    } else if Playing(h) {
      FoldOutOfTurn(h, p);
    } else {
      FoldStalled(h, p);
    }
  }

  lemma GoesOn(h: Hand)
    requires Playing(h) || Stalled(h)
    ensures Shaped(h) && h.status.Betting? && |Live(h)| >= 2
  {
  }

  lemma QuitLeavesOne(h: Hand, p: Player)
    requires (Playing(h) || Stalled(h)) && p in h.seats && |Live(h.(folded := h.folded + {p}))| == 1
    ensures StepKept(h, AwardFolded(h.(folded := h.folded + {p})))
  {
    hide Live, Total;
    AwardEnds(h.(folded := h.folded + {p}));
    hide AwardFolded;
  }

  lemma QuitKeeps(h: Hand, p: Player)
    requires (Playing(h) || Stalled(h)) && Accepted(h, Quit(p))
    ensures StepKept(h, Leave(h, p))
  {
    hide Playing, Over, Stalled, Act, AwardFolded, Behind, Unacted, Chips, Live, Leave;
    GoesOn(h);
    var h1 := h.(left := h.left + {p});
    SameButLeftKeeps(h, h1);
    SameButLeftKeeps(h1, h);
    if h1.toAct == Some(p) {
      if Stalled(h) { StalledForNobody(h); }
      QuitInTurn(h, p);
      LeaveInTurn(h, p);
    } else {
      QuitOutOfTurn(h1, p);
      LeaveOutOfTurn(h, p);
    }
  }

  lemma StalledForNobody(h: Hand)
    requires Stalled(h)
    ensures h.toAct.None?
  {
  }

  lemma LeaveInTurn(h: Hand, p: Player)
    requires Shaped(h) && h.status.Betting? && p in h.seats && p !in h.folded && h.toAct == Some(p)
    ensures Leave(h, p) == Act(h.(left := h.left + {p}), p, Fold)
  {
    hide Act;
  }

  lemma LeaveOutOfTurn(h: Hand, p: Player)
    requires Shaped(h) && h.status.Betting? && p in h.seats && p !in h.folded && h.toAct != Some(p)
    ensures var r := h.(left := h.left + {p}).(folded := h.folded + {p});
      Leave(h, p) == if |Live(r)| == 1 then AwardFolded(r) else r
  {
  }

  lemma AcceptedKeeps(h: Hand, e: Event)
    requires Good(h) && Accepted(h, e)
    ensures StepKept(h, Step(h, e))
  {
    match e
    case Play(p, action) => ActKeeps(h, p, action); hide Playing, Over, Stalled;
    case Quit(p) => QuitKeeps(h, p); hide Playing, Over, Stalled;
  }

  lemma RefusedIsSame(h: Hand, e: Event)
    requires Shaped(h) && !Accepted(h, e)
    ensures SameButLeft(h, Step(h, e))
  {
    hide Post, GoAllIn, RaiseTo, Finish, Live, AwardFolded, Total;
  }

  lemma RefusedKeeps(h: Hand, e: Event)
    requires Good(h) && !Accepted(h, e)
    ensures var r := Step(h, e); SameButLeft(h, r) && Becomes(h, r) && Chips(r) == Chips(h)
  {
    SameButLeftKeeps(h, Step(h, e)) by { RefusedIsSame(h, e); }
    RefusedIsSame(h, e);
    hide Playing, Over, Stalled, Step, Chips, SameButLeft;
  }

  // ---- runs ----

  function Run(h: Hand, es: seq<Event>): (r: Hand)
    requires Shaped(h)
    ensures Shaped(r) && r.seats == h.seats
    decreases |es|
  {
    if es == [] then h else Run(Step(h, es[0]), es[1..])
  }

  lemma StepKeeps(h: Hand, e: Event)
    requires Good(h)
    ensures var r := Step(h, e); Good(r) && Becomes(h, r) && Chips(r) == Chips(h)
  {
    assert Shaped(h);
    hide Playing, Over, Stalled, Step, Chips, Closer, Accepted;
    if Accepted(h, e) { AcceptedKeeps(h, e); } else { RefusedKeeps(h, e); }
  }

  /** Any interleaving of actions and leaves: a hand in play is in play, turn invariant and all, or over; only a hand
      that started out stalled is ever stalled; and the chips of the hand never change. */
  lemma {:induction false} RunKeeps(h: Hand, es: seq<Event>)
    requires Good(h)
    ensures Becomes(h, Run(h, es)) && Chips(Run(h, es)) == Chips(h)
    decreases |es|
  {
    assert Shaped(h);
    hide Playing, Over, Stalled, Step, Chips;
    if es != [] {
      StepKeeps(h, es[0]);
      RunKeeps(Step(h, es[0]), es[1..]);
      BecomesThrough(h, Step(h, es[0]), Run(h, es));
    }
  }

  ghost predicate AllAccepted(h: Hand, es: seq<Event>)
    requires Shaped(h)
    decreases |es|
  {
    es == [] || (Accepted(h, es[0]) && AllAccepted(Step(h, es[0]), es[1..]))
  }

  /** The measure as one number: no run of accepted events is longer. */
  function Rank(h: Hand): int
    requires Shaped(h)
  {
    if h.status.Done? then 0
    else Weigh(Behind(h), StreetsLeft(h.street), Unacted(h), |h.seats|)
  }

  function Weigh(behind: int, streets: int, unacted: int, n: int): int {
    behind * (4 * (n + 1)) + streets * (n + 1) + unacted
  }

  lemma WeighDrops(a: int, b: int, c: int, a': int, b': int, c': int, n: int)
    requires n >= 0 && 0 <= b <= 3 && 0 <= b' <= 3 && 0 <= c <= n && 0 <= c' <= n
    requires a' < a || (a' == a && (b' < b || (b' == b && c' < c)))
    ensures Weigh(a', b', c', n) < Weigh(a, b, c, n)
  {
    if a' < a {
      TimesMonotone(a' + 1, a, 4 * (n + 1));
      assert (a' + 1) * (4 * (n + 1)) == a' * (4 * (n + 1)) + 4 * (n + 1);
      TimesMonotone(b', 3, n + 1);
      TimesMonotone(0, b, n + 1);
    } else if b' < b {
      TimesMonotone(b' + 1, b, n + 1);
      assert (b' + 1) * (n + 1) == b' * (n + 1) + (n + 1);
    }
  }

  lemma TimesMonotone(x: int, y: int, k: int)
    requires x <= y && k >= 0
    ensures x * k <= y * k
  {
  }

  lemma RankDrops(h: Hand, e: Event)
    requires Good(h) && Accepted(h, e)
    ensures 0 <= Rank(Step(h, e)) < Rank(h)
  {
    AcceptedKeeps(h, e);
    RankPositive(h);
    CloserRanks(h, Step(h, e));
    hide Step, Good, Rank, Closer;
  }

  lemma CloserRanks(h: Hand, r: Hand)
    requires Good(h) && h.status.Betting? && Good(r) && r.seats == h.seats && (r.status.Betting? ==> Closer(h, r))
    ensures 0 <= Rank(r) && (Rank(h) > 0 ==> Rank(r) < Rank(h))
  {
    assert Shaped(h) && Shaped(r);
    if r.status.Betting? {
      RankPositive(r);
      CloserWeighs(h, r);
    }
    hide Weigh, Behind, Unacted, Good, Closer;
  }

  lemma CloserWeighs(h: Hand, r: Hand)
    requires Shaped(h) && Shaped(r) && r.seats == h.seats && Closer(h, r)
    ensures Weigh(Behind(r), StreetsLeft(r.street), Unacted(r), |h.seats|)
          < Weigh(Behind(h), StreetsLeft(h.street), Unacted(h), |h.seats|)
  {
    UnactedBound(h);
    UnactedBound(r);
    hide Weigh, Behind, Unacted, Shaped;
    WeighDrops(Behind(h), StreetsLeft(h.street), Unacted(h), Behind(r), StreetsLeft(r.street), Unacted(r), |h.seats|);
  }

  lemma UnactedBound(h: Hand)
    ensures 0 <= Unacted(h) <= |h.seats|
  {
  }

  lemma WeighPositive(behind: int, streets: int, unacted: int, n: int)
    requires behind >= 1 && streets >= 0 && unacted >= 0 && n >= 0
    ensures Weigh(behind, streets, unacted, n) > 0
  {
    TimesMonotone(1, behind, 4 * (n + 1));
    TimesMonotone(0, streets, n + 1);
  }

  lemma RankPositive(h: Hand)
    requires Good(h) && h.status.Betting?
    ensures Rank(h) > 0
  {
    hide Weigh, Unacted;
    TotalNonNegative(h.seats, h.stacks);
    WeighPositive(Behind(h), StreetsLeft(h.street), Unacted(h), |h.seats|);
  }

  /** Every run of accepted events is bounded: the hand cannot go on for ever. */
  lemma {:induction false} RunsEnd(h: Hand, es: seq<Event>)
    requires Good(h) && AllAccepted(h, es)
    ensures |es| <= Rank(h)
    decreases |es|
  {
    if es == [] {
      if h.status.Betting? { RankPositive(h); }
    } else {
      RankDrops(h, es[0]);
      AcceptedKeeps(h, es[0]);
      RunsEnd(Step(h, es[0]), es[1..]);
      hide Good, Step, Rank;
    }
  }

  lemma FoldIsNext(h: Hand)
    requires Playing(h)
    ensures Accepted(h, Play(h.toAct.value, Fold)) && Step(h, Play(h.toAct.value, Fold)) != h
  {
    ActorIsAble(h);
    RankDrops(h, Play(h.toAct.value, Fold));
    hide Step, Rank;
  }

  /** After any run of a hand in play, the hand is over and takes no event, or the player to act may fold. So a run can
      stop only at a finished hand. */
  lemma PlayCanGoOn(h: Hand, es: seq<Event>)
    requires Playing(h)
    ensures var r := Run(h, es);
      if r.status.Done? then Over(r) && forall e :: !Accepted(r, e)
      else Playing(r) && Accepted(r, Play(r.toAct.value, Fold)) && Step(r, Play(r.toAct.value, Fold)) != r
  {
    var r := Run(h, es);
    RunKeeps(h, es);
    if Playing(r) { FoldIsNext(r); } else { assert Over(r); }
    hide Step, Run;
  }

  /** A stalled hand accepts no action at all; only a leave moves it. */
  lemma StalledForEver(h: Hand, p: Player, action: Action)
    requires Stalled(h)
    ensures Step(h, Play(p, action)) == h && !Accepted(h, Play(p, action))
  {
  }

  // ---- the shape of a betting round ----

  lemma FinishCloses(m: Hand, p: Player)
    requires Shaped(m) && m.status.Betting? && p in m.seats && ActedMatched(Marked(m, p)) && |Live(Marked(m, p))| != 1
    ensures var h1 := Marked(m, p);
      Finish(m, p) == if EveryoneActed(h1) then AdvanceStreet(h1) else PassOn(h1, p)
  {
    ClosesExactly(Marked(m, p));
    hide AdvanceStreet, PassOn, AwardFolded, Live, Able, Matched, EveryoneActed;
  }

  /** With two players left in, an action closes the round exactly when every able player has now acted;
      otherwise the turn passes on. */
  lemma RoundClosesExactly(h: Hand, p: Player, action: Action)
    requires Playing(h) && h.toAct == Some(p) && action != Other
    ensures Move(h, p, action).Some?
    ensures var h1 := Marked(Move(h, p, action).value, p);
      && Shaped(h1) && h1.status.Betting?
      && (|Live(h1)| >= 2 ==> Act(h, p, action) == if EveryoneActed(h1) then AdvanceStreet(h1) else PassOn(h1, p))
  {
    ActorIsAble(h);
    MoveMoves(h, p, action);
    var m := Move(h, p, action).value;
    MarkedFollows(h, m, p);
    OthersMatched(h, m, p);
    assert Act(h, p, action) == Finish(m, p);
    hide Move, Progress, AdvanceStreet, PassOn, AwardFolded, Live, Able, EveryoneActed, Playing, Act, Finish;
    if |Live(Marked(m, p))| >= 2 { FinishCloses(m, p); }
  }

  /** `r` is later in the hand than `h`: on a later street, or on the same one with the bet lifted or nobody dropped from
      those who have acted, and with the least raise no smaller. */
  ghost predicate Onward(h: Hand, r: Hand) {
    || StreetsLeft(r.street) < StreetsLeft(h.street)
    || (r.street == h.street && r.minRaise >= h.minRaise
        && (r.toCall > h.toCall || (r.toCall == h.toCall && h.acted <= r.acted)))
  }

  lemma MarkedOnward(h: Hand, m: Hand, p: Player, r: Hand)
    requires m.street == h.street && m.minRaise >= h.minRaise
    requires m.toCall > h.toCall || (m.toCall == h.toCall && m.acted == h.acted)
    requires StreetsLeft(r.street) < StreetsLeft(h.street) || r == Marked(m, p).(toAct := r.toAct)
    ensures Onward(h, r) && (r.street == h.street ==> p in r.acted)
  {
  }

  /** An action adds its player to those who have acted, unless the street ends, and drops others from them only by
      lifting the bet. */
  lemma ReopenedByRaise(h: Hand, p: Player, action: Action)
    requires Playing(h) && h.toAct == Some(p) && action != Other
    ensures var r := Act(h, p, action);
      r.status.Betting? ==> Onward(h, r) && (r.street == h.street ==> p in r.acted)
  {
    hide Move, Progress, AdvanceStreet, PassOn, AwardFolded, Live, Able, EveryoneActed, Playing, Act, Finish, Money, Follows;
    GoesOn(h);
    ActorIsAble(h);
    ActMoves(h, p, action);
    var m := Move(h, p, action).value;
    MoveReopens(h, p, action);
    MarkedFollows(h, m, p);
    OthersMatched(h, m, p);
    RoundClosesExactly(h, p, action);
    var h1 := Marked(m, p);
    hide Onward;
    if |Live(h1)| >= 2 {
      var r := Act(h, p, action);
      if EveryoneActed(h1) { StreetMovesOn(h1); } else { TurnPasses(h, h1, p); }
      if r.status.Betting? { MarkedOnward(h, m, p, r); }
    } else {
      AwardedIsDone(m, p);
    }
  }

  lemma ActMoves(h: Hand, p: Player, action: Action)
    requires Playing(h) && h.toAct == Some(p) && action != Other
    ensures Open(h) && Move(h, p, action).Some? && Progress(h, Move(h, p, action).value, p)
    ensures Act(h, p, action) == Finish(Move(h, p, action).value, p)
  {
    hide Move, Finish, Progress;
    ActorIsAble(h);
    MoveMoves(h, p, action);
  }

  lemma MoveReopens(h: Hand, p: Player, action: Action)
    requires Open(h) && IsAble(h, p) && action != Other
    ensures Move(h, p, action).Some?
    ensures var m := Move(h, p, action).value;
      m.minRaise >= h.minRaise && (m.toCall > h.toCall || (m.toCall == h.toCall && m.acted == h.acted))
  {
    hide Live, Total, Shaped;
    HasLedgers(h, p);
    match action
    case Fold =>
    case Check => PostPosts(h, p, Min(CallAmount(h, p), h.stacks[p]));
    case Call => PostPosts(h, p, Min(CallAmount(h, p), h.stacks[p]));
    case AllIn => AllInReopens(h, p);
    case Raise(amount) => AllInReopens(h, p); MoveRaiseIs(h, p, amount); hide Move;
  }

  lemma AllInReopens(h: Hand, p: Player)
    requires Shaped(h) && p in h.seats
    ensures var m := GoAllIn(h, p);
      m.minRaise >= h.minRaise && (m.toCall > h.toCall || (m.toCall == h.toCall && m.acted == h.acted))
  {
    hide Shaped;
  }

  lemma {:induction false} StreetMovesOn(h: Hand)
    requires Shaped(h) && h.status.Betting?
    ensures AdvanceStreet(h).status.Betting? ==> StreetsLeft(AdvanceStreet(h).street) < StreetsLeft(h.street)
    decreases StreetsLeft(h.street)
  {
    hide Able, OpenStreet;
    if !h.street.River? {
      var h1 := OpenStreet(h, NextStreet(h.street));
      if |Able(h1)| < 2 { StreetMovesOn(h1); }
    }
  }

  lemma AwardedIsDone(m: Hand, p: Player)
    requires Shaped(m) && m.status.Betting? && p in m.seats && |Live(Marked(m, p))| == 1
    ensures Finish(m, p).status.Done?
  {
  }

  /** Leaving never drops anybody else from those who have acted. */
  lemma QuitOnward(h: Hand, p: Player)
    requires (Playing(h) || Stalled(h)) && Accepted(h, Quit(p))
    ensures Leave(h, p).status.Betting? ==> Onward(h, Leave(h, p))
  {
    hide Playing, Stalled, Act, AwardFolded, Live, Leave, Onward;
    assert Shaped(h) by { GoesOn(h); }
    var h1 := h.(left := h.left + {p});
    if h.toAct == Some(p) {
      if Stalled(h) { StalledForNobody(h); }
      SameButLeftKeeps(h, h1);
      LeaveInTurn(h, p);
      ReopenedByRaise(h1, p, Fold);
      SameOnward(h, h1, Leave(h, p));
    } else {
      LeaveOutOfTurn(h, p);
      SameOnward(h, h1.(folded := h.folded + {p}), h);
    }
  }

  /** What has been bet, and by whom, is all that counts. */
  lemma SameOnward(h: Hand, h1: Hand, r: Hand)
    requires h1.street == h.street && h1.minRaise == h.minRaise && h1.toCall == h.toCall && h1.acted == h.acted
    ensures Onward(h, h1) && (Onward(h1, r) ==> Onward(h, r))
  {
  }

  lemma StepOnward(h: Hand, e: Event)
    requires Good(h)
    ensures Step(h, e).status.Betting? ==> Onward(h, Step(h, e))
  {
    assert Shaped(h);
    hide Playing, Stalled, Act, Leave, Onward;
    if Accepted(h, e) {
      match e
      case Play(p, action) => if Stalled(h) { StalledForNobody(h); } ReopenedByRaise(h, p, action);
      case Quit(p) => QuitOnward(h, p);
    } else {
      RefusedIsSame(h, e);
      SameOnward(h, Step(h, e), h);
    }
  }

  /** A hand that is over stays over. */
  lemma DoneStays(h: Hand, es: seq<Event>)
    requires Good(h) && h.status.Done?
    ensures Run(h, es).status.Done?
  {
    RunKeeps(h, es);
    hide Run;
  }

  lemma OnwardThrough(h: Hand, h1: Hand, r: Hand)
    requires Onward(h, h1) && Onward(h1, r)
    ensures Onward(h, r)
  {
  }

  /** Along any run the bet and the least raise never fall within a street, and nobody drops from those who have acted
      before the bet is lifted. */
  lemma {:induction false} RunOnward(h: Hand, es: seq<Event>)
    requires Good(h) && Run(h, es).status.Betting?
    ensures Onward(h, Run(h, es))
    decreases |es|
  {
    assert Shaped(h);
    hide Good, Step, Becomes, Chips, Onward;
    if es == [] {
      SameOnward(h, h, h);
    } else {
      var h1 := Step(h, es[0]);
      StepKeeps(h, es[0]);
      StepOnward(h, es[0]);
      if h1.status.Done? { DoneStays(h1, es[1..]); }
      RunOnward(h1, es[1..]);
      OnwardThrough(h, h1, Run(h, es));
    }
  }

  /** A player who has acted is asked again on the same street only after the bet has been lifted, whatever else the
      players do meanwhile. */
  lemma NotAskedTwice(h: Hand, p: Player, action: Action, es: seq<Event>)
    requires Playing(h) && h.toAct == Some(p) && action != Other
    ensures var h1 := Act(h, p, action); var r := Run(h1, es);
      Playing(r) && r.street == h.street && r.toAct == Some(p) ==> r.toCall > h1.toCall
  {
    hide Playing, Good, Act, Run, Open, Live, Step, Money, Onward;
    assert Shaped(h) by { GoesOn(h); }
    var h1 := Act(h, p, action);
    var r := Run(h1, es);
    ReopenedByRaise(h, p, action);
    ActIsGood(h, p, action);
    if Playing(r) && r.street == h.street && r.toAct == Some(p) {
      assert Shaped(r) && r.status.Betting? by { GoesOn(r); }
      if h1.status.Done? { DoneStays(h1, es); }
      RunOnward(h1, es);
      ActorIsAble(r);
      AskedMeansLifted(h, h1, r, p);
    }
  }

  lemma AskedMeansLifted(h: Hand, h1: Hand, r: Hand, p: Player)
    requires Onward(h, h1) && Onward(h1, r) && r.street == h.street && p !in r.acted
    requires h1.street == h.street ==> p in h1.acted
    ensures r.toCall > h1.toCall
  {
  }

  lemma ActIsGood(h: Hand, p: Player, action: Action)
    requires Playing(h) && h.toAct == Some(p) && action != Other
    ensures Good(Act(h, p, action))
  {
    hide Playing, Act;
    ActKeeps(h, p, action);
  }
}
