/** Splitting a pot with all-in side pots (botframework/holdem_engine.py, distribute_pot).

  The pot is cut into horizontal slices at every distinct contribution. `Share` is what one player takes from
  one slice, `Sweep` adds the slices from the bottom up, and `Payout` is the sweep over all of them.
 */
module SidePots {
  import opened Seats
  import Lex

  type Rank = seq<int>

  /** A deal to pay out: who put in what (in dictionary order), who is still in, and their hand ranks. */
  datatype Pot = Pot(order: seq<Player>, contrib: map<Player, int>, live: set<Player>, ranks: map<Player, Rank>)

  ghost predicate Valid(pot: Pot) {
    && Distinct(pot.order)
    && (forall p :: p in pot.order ==> p in pot.contrib && pot.contrib[p] > 0)
    && (forall p :: p in pot.order && p in pot.live ==> p in pot.ranks)
  }

  function Contributors(pot: Pot, lvl: int): (r: seq<Player>)
    requires forall p :: p in pot.order ==> p in pot.contrib
    ensures forall p :: p in r <==> p in pot.order && pot.contrib[p] >= lvl
  {
    Only(pot.order, set p | p in pot.order && pot.contrib[p] >= lvl)
  }

  /** The first of the biggest contributors. */
  function Highest(ps: seq<Player>, contrib: map<Player, int>): (r: Player)
    requires ps != [] && forall p :: p in ps ==> p in contrib
    ensures r in ps
    ensures forall p :: p in ps ==> contrib[p] <= contrib[r]
  {
    if |ps| == 1 then ps[0]
    else
      var rest := Highest(ps[1..], contrib);
      if contrib[rest] > contrib[ps[0]] then rest else ps[0]
  }

  function BestRank(ps: seq<Player>, ranks: map<Player, Rank>): (r: Rank)
    requires ps != [] && forall p :: p in ps ==> p in ranks
    ensures exists p :: p in ps && ranks[p] == r
  {
    if |ps| == 1 then ranks[ps[0]]
    else
      var rest := BestRank(ps[1..], ranks);
      assert exists p :: p in ps[1..] && ranks[p] == rest;
      Lex.Max(ranks[ps[0]], rest)
  }

  lemma {:induction false} BestRankIsBest(ps: seq<Player>, ranks: map<Player, Rank>)
    requires ps != [] && forall p :: p in ps ==> p in ranks
    ensures forall p :: p in ps ==> Lex.AtMost(ranks[p], BestRank(ps, ranks))
  {
    Lex.Trichotomy(ranks[ps[0]], ranks[ps[0]]);
    if |ps| > 1 {
      BestRankIsBest(ps[1..], ranks);
      var rest, best := BestRank(ps[1..], ranks), BestRank(ps, ranks);
      Lex.Trichotomy(ranks[ps[0]], rest);
      Lex.Trichotomy(rest, rest);
      forall p | p in ps ensures Lex.AtMost(ranks[p], best) {
        if p != ps[0] {
          assert p in ps[1..];
          Lex.Transitive(ranks[p], rest, best);
        }
      }
    }
  }

  function Winners(pot: Pot, lvl: int): seq<Player>
    requires Valid(pot) && Only(Contributors(pot, lvl), pot.live) != []
  {
    var eligible := Only(Contributors(pot, lvl), pot.live);
    Only(eligible, set p | p in eligible && pot.ranks[p] == BestRank(eligible, pot.ranks))
  }

  function SlicePot(pot: Pot, prev: int, lvl: int): (r: int)
    requires Valid(pot)
    ensures prev < lvl ==> r >= 0
  {
    (lvl - prev) * |Contributors(pot, lvl)|
  }

  /** An even share of `amount` between `n` winners; the odd chips go to the first of them. */
  function Part(amount: nat, n: nat, first: bool): (r: nat)
    requires n > 0
    ensures r <= amount
  {
    DivMod(amount, n);
    amount / n + if first then amount % n else 0
  }

  lemma DivMod(amount: nat, n: nat)
    requires n > 0
    ensures amount / n + amount % n <= amount && (amount / n) * n + amount % n == amount
  {
    AtLeast(amount / n, n);
  }

  lemma AtLeast(q: nat, n: nat)
    requires n > 0
    ensures q <= q * n
  {
  }

  /** What `p` takes from the slice (prev, lvl]. */
  function Share(pot: Pot, prev: int, lvl: int, p: Player): int
    requires Valid(pot) && prev < lvl
  {
    var contributors := Contributors(pot, lvl);
    var amount := SlicePot(pot, prev, lvl);
    if p !in contributors then 0
    else if Only(contributors, pot.live) == [] then
      if p == Highest(contributors, pot.contrib) then amount else 0
    else
      var winners := Winners(pot, lvl);
      if p !in winners then 0
      else Part(amount, |winners|, p == winners[0])
  }

  /** Tied winners of a slice take equal shares, but for the odd chips, fewer than the winners, which go to the first of
      them in table order. */
  lemma TiedWinnersSplitEvenly(pot: Pot, prev: int, lvl: int, p: Player, q: Player)
    requires Valid(pot) && prev < lvl && Only(Contributors(pot, lvl), pot.live) != []
    requires p in Winners(pot, lvl) && q in Winners(pot, lvl)
    ensures var first := Winners(pot, lvl)[0];
      var odd := Share(pot, prev, lvl, first) - Share(pot, prev, lvl, p);
      && (p != first ==> 0 <= odd < |Winners(pot, lvl)|)
      && (p != first && q != first ==> Share(pot, prev, lvl, p) == Share(pot, prev, lvl, q))
      && Winners(pot, lvl) == Only(pot.order, Elems(Winners(pot, lvl)))
  {
    var w, c := Winners(pot, lvl), Contributors(pot, lvl);
    assert w[0] in w;
    var paying := set r | r in pot.order && pot.contrib[r] >= lvl;
    var e := Only(c, pot.live);
    var best := set r | r in e && pot.ranks[r] == BestRank(e, pot.ranks);
    OnlyOnly(pot.order, paying, pot.live);
    OnlyOnly(pot.order, paying * pot.live, best);
    OnlySame(pot.order, paying * pot.live * best, Elems(w));
    hide Only;
    OddChips(SlicePot(pot, prev, lvl), |w|);
  }

  lemma OddChips(amount: nat, n: nat)
    requires n > 0
    ensures 0 <= Part(amount, n, true) - Part(amount, n, false) < n
  {
  }

  ghost predicate Paid(pot: Pot, l: int)
    requires forall p :: p in pot.order ==> p in pot.contrib
  {
    exists p :: p in pot.order && pot.contrib[p] == l
  }

  /** `levels` are exactly the contributions above `prev`, in rising order. */
  ghost predicate Ladder(pot: Pot, prev: int, levels: seq<int>)
    requires forall p :: p in pot.order ==> p in pot.contrib
  {
    && (forall i :: 0 <= i < |levels| ==> levels[i] > prev)
    && Rising(levels)
    && (forall l :: l in levels ==> Paid(pot, l))
    && (forall p :: p in pot.order && pot.contrib[p] > prev ==> pot.contrib[p] in levels)
  }

  lemma LadderRest(pot: Pot, prev: int, levels: seq<int>)
    requires Valid(pot) && Ladder(pot, prev, levels) && levels != []
    ensures Ladder(pot, levels[0], levels[1..])
    ensures Gap(pot, prev, levels[0])
    ensures Contributors(pot, levels[0]) != []
  {
    assert levels[0] in levels && Paid(pot, levels[0]);
    var p :| p in pot.order && pot.contrib[p] == levels[0];
    assert p in Contributors(pot, levels[0]);
    forall l | l in levels[1..] ensures Paid(pot, l) {
      assert l in levels;
    }
  }

  function Sweep(pot: Pot, prev: int, levels: seq<int>, p: Player): int
    requires Valid(pot) && Ladder(pot, prev, levels)
    decreases |levels|
  {
    if levels == [] then 0
    else
      LadderRest(pot, prev, levels);
      Share(pot, prev, levels[0], p) + Sweep(pot, levels[0], levels[1..], p)
  }

  ghost predicate Rising(ls: seq<int>) {
    forall i, j :: 0 <= i < j < |ls| ==> ls[i] < ls[j]
  }

  function Insert(l: int, ls: seq<int>): (r: seq<int>)
    requires Rising(ls)
    ensures forall k :: k in r <==> k == l || k in ls
    ensures Rising(r)
  {
    if ls == [] then [l]
    else if l < ls[0] then [l] + ls
    else if l == ls[0] then ls
    else
      var rest := Insert(l, ls[1..]);
      assert forall i :: 0 <= i < |rest| ==> rest[i] in rest;
      [ls[0]] + rest
  }

  /** The distinct contributions in rising order. */
  function Levels(order: seq<Player>, contrib: map<Player, int>): (r: seq<int>)
    requires forall p :: p in order ==> p in contrib
    ensures Rising(r)
    ensures forall l :: l in r <==> exists p :: p in order && contrib[p] == l
  {
    if order == [] then [] else
      var rest := Levels(order[1..], contrib);
      assert forall p :: p in order <==> p == order[0] || p in order[1..];
      Insert(contrib[order[0]], rest)
  }

  lemma LevelsLadder(pot: Pot)
    requires Valid(pot)
    ensures Ladder(pot, 0, Levels(pot.order, pot.contrib))
  {
    var levels := Levels(pot.order, pot.contrib);
    forall i | 0 <= i < |levels| ensures levels[i] > 0 {
      assert levels[i] in levels;
    }
  }

  function Payout(pot: Pot, p: Player): int
    requires Valid(pot)
  {
    LevelsLadder(pot);
    Sweep(pot, 0, Levels(pot.order, pot.contrib), p)
  }

  function Payouts(pot: Pot): (r: map<Player, int>)
    requires Valid(pot)
    ensures r.Keys == Elems(pot.order)
  {
    map p | p in pot.order :: Payout(pot, p)
  }

  // ---- conservation: what is paid out is what was put in ----

  function Excess(s: seq<Player>, contrib: map<Player, int>, floor: int): int
    requires forall p :: p in s ==> p in contrib
  {
    if s == [] then 0
    else (if contrib[s[0]] > floor then contrib[s[0]] - floor else 0) + Excess(s[1..], contrib, floor)
  }

  /** `w` added up `k` times; the sums below grow one player at a time. */
  function Times(w: int, k: nat): int {
    if k == 0 then 0 else w + Times(w, k - 1)
  }

  lemma {:induction false} TimesIsProduct(w: int, k: nat)
    ensures Times(w, k) == w * k
  {
    if k > 0 {
      TimesIsProduct(w, k - 1);
      assert w * k == w * (k - 1) + w;
    }
  }

  lemma {:induction false} ExcessDrops(s: seq<Player>, contrib: map<Player, int>, prev: int, lvl: int, keep: set<Player>)
    requires prev < lvl
    requires forall p :: p in s ==> p in contrib && (contrib[p] <= prev || contrib[p] >= lvl)
    requires forall p :: p in s ==> (p in keep <==> contrib[p] >= lvl)
    ensures Excess(s, contrib, prev) == Times(lvl - prev, |Only(s, keep)|) + Excess(s, contrib, lvl)
  {
    if s != [] {
      ExcessDrops(s[1..], contrib, prev, lvl, keep);
    }
  }

  /** Equal shares to the players in `winners`, plus the odd chips to one of them, add up. */
  lemma {:induction false} SharesAddUp(s: seq<Player>, m: map<Player, int>, winners: set<Player>, first: Player,
                                       share: int, odd: int)
    requires Distinct(s) && first in winners
    requires forall p :: p in s ==> p in m && m[p] == (if p in winners then share else 0) + if p == first then odd else 0
    ensures Total(s, m) == Times(share, |Only(s, winners)|) + if first in s then odd else 0
  {
    if s != [] {
      SharesAddUp(s[1..], m, winners, first, share, odd);
      assert s[0] !in s[1..];
    }
  }

  function Shares(pot: Pot, prev: int, lvl: int): map<Player, int>
    requires Valid(pot) && prev < lvl
  {
    map p | p in pot.order :: Share(pot, prev, lvl, p)
  }

  lemma WinnersExist(pot: Pot, lvl: int)
    requires Valid(pot) && Only(Contributors(pot, lvl), pot.live) != []
    ensures Winners(pot, lvl) != []
    ensures forall p :: p in Winners(pot, lvl) ==> p in pot.order && p in pot.live && pot.contrib[p] >= lvl
    ensures Winners(pot, lvl) == Only(pot.order, Elems(Winners(pot, lvl)))
  {
    var cs := Contributors(pot, lvl);
    var es := Only(cs, pot.live);
    var best := BestRank(es, pot.ranks);
    var p :| p in es && pot.ranks[p] == best;
    assert p in Winners(pot, lvl);
    var a := set p | p in pot.order && pot.contrib[p] >= lvl;
    var b := set p | p in es && pot.ranks[p] == best;
    OnlyOnly(pot.order, a, pot.live);
    OnlyOnly(pot.order, a * pot.live, b);
    OnlySame(pot.order, a * pot.live * b, Elems(Winners(pot, lvl)));
  }

  lemma WonSliceConserves(pot: Pot, prev: int, lvl: int)
    requires Valid(pot) && prev < lvl && Only(Contributors(pot, lvl), pot.live) != []
    ensures Total(pot.order, Shares(pot, prev, lvl)) == SlicePot(pot, prev, lvl)
  {
    WinnersExist(pot, lvl);
    var winners := Winners(pot, lvl);
    var n, amount := |winners|, SlicePot(pot, prev, lvl);
    DivMod(amount, n);
    TimesIsProduct(amount / n, n);
    assert winners[0] in winners;
    PartSplits(amount, n);
    SharesAddUp(pot.order, Shares(pot, prev, lvl), Elems(winners), winners[0], Part(amount, n, false), amount % n);
  }

  lemma PartSplits(amount: nat, n: nat)
    requires n > 0
    ensures Part(amount, n, false) == amount / n && Part(amount, n, true) == amount / n + amount % n
  {
  }

  lemma SliceConserves(pot: Pot, prev: int, lvl: int)
    requires Valid(pot) && prev < lvl && Contributors(pot, lvl) != []
    ensures Total(pot.order, Shares(pot, prev, lvl)) == SlicePot(pot, prev, lvl)
  {
    if Only(Contributors(pot, lvl), pot.live) == [] {
      var best := Highest(Contributors(pot, lvl), pot.contrib);
      TimesIsProduct(0, |Only(pot.order, {best})|);
      SharesAddUp(pot.order, Shares(pot, prev, lvl), {best}, best, 0, SlicePot(pot, prev, lvl));
    } else {
      WonSliceConserves(pot, prev, lvl);
    }
  }

  /** No contribution lies strictly inside the slice (prev, lvl]. */
  ghost predicate Gap(pot: Pot, prev: int, lvl: int)
    requires forall p :: p in pot.order ==> p in pot.contrib
  {
    prev < lvl && forall p :: p in pot.order ==> pot.contrib[p] <= prev || pot.contrib[p] >= lvl
  }

  lemma SliceDrops(pot: Pot, prev: int, lvl: int)
    requires Valid(pot) && Gap(pot, prev, lvl)
    ensures Excess(pot.order, pot.contrib, prev) == SlicePot(pot, prev, lvl) + Excess(pot.order, pot.contrib, lvl)
  {
    ExcessDrops(pot.order, pot.contrib, prev, lvl, set p | p in pot.order && pot.contrib[p] >= lvl);
    TimesIsProduct(lvl - prev, |Contributors(pot, lvl)|);
  }

  lemma SliceMatched(pot: Pot, prev: int, lvl: int, p: Player)
    requires Valid(pot) && Gap(pot, prev, lvl) && p in pot.order
    ensures Matchable(pot.order, pot.contrib, prev, p)
         == (if pot.contrib[p] >= lvl then SlicePot(pot, prev, lvl) else 0) + Matchable(pot.order, pot.contrib, lvl, p)
  {
    var reaching := set q | q in pot.order && pot.contrib[q] >= lvl;
    MatchableDrops(pot.order, pot.contrib, prev, lvl, reaching, p);
    TimesIsProduct(lvl - prev, |Contributors(pot, lvl)|);
  }

  function Sweeps(pot: Pot, prev: int, levels: seq<int>): map<Player, int>
    requires Valid(pot) && Ladder(pot, prev, levels)
  {
    map p | p in pot.order :: Sweep(pot, prev, levels, p)
  }

  lemma {:induction false} SweepConserves(pot: Pot, prev: int, levels: seq<int>)
    requires Valid(pot) && Ladder(pot, prev, levels)
    ensures Total(pot.order, Sweeps(pot, prev, levels)) == Excess(pot.order, pot.contrib, prev)
    decreases |levels|
  {
    if levels == [] {
      TotalZero(pot.order, Sweeps(pot, prev, levels));
      ExcessZero(pot.order, pot.contrib, prev);
    } else {
      LadderRest(pot, prev, levels);
      var lvl := levels[0];
      SweepConserves(pot, lvl, levels[1..]);
      SliceConserves(pot, prev, lvl);
      TotalSum(pot.order, Shares(pot, prev, lvl), Sweeps(pot, lvl, levels[1..]), Sweeps(pot, prev, levels));
      SliceDrops(pot, prev, lvl);
    }
  }

  lemma {:induction false} ExcessZero(s: seq<Player>, contrib: map<Player, int>, floor: int)
    requires forall p :: p in s ==> p in contrib && contrib[p] <= floor
    ensures Excess(s, contrib, floor) == 0
  {
    if s != [] { ExcessZero(s[1..], contrib, floor); }
  }

  lemma {:induction false} ExcessOfNothing(s: seq<Player>, contrib: map<Player, int>)
    requires forall p :: p in s ==> p in contrib && contrib[p] > 0
    ensures Excess(s, contrib, 0) == Total(s, contrib)
  {
    if s != [] { ExcessOfNothing(s[1..], contrib); }
  }

  /** Every chip put in is paid out, and no other. */
  lemma PayoutsConserve(pot: Pot)
    requires Valid(pot)
    ensures Total(pot.order, Payouts(pot)) == Total(pot.order, pot.contrib)
    ensures forall p :: p in pot.order ==> Payouts(pot)[p] >= 0
  {
    LevelsLadder(pot);
    var levels := Levels(pot.order, pot.contrib);
    SweepConserves(pot, 0, levels);
    ExcessOfNothing(pot.order, pot.contrib);
    TotalExt(pot.order, Payouts(pot), Sweeps(pot, 0, levels));
    forall p | p in pot.order ensures Payouts(pot)[p] >= 0 {
      SweepBounds(pot, 0, levels, p);
    }
  }

  // ---- who can win how much ----

  /** What `p` could match above `floor`: the sum over all q of min(p's part, q's part) above it. */
  function Matchable(s: seq<Player>, contrib: map<Player, int>, floor: int, p: Player): int
    requires p in contrib && forall q :: q in s ==> q in contrib
  {
    if s == [] then 0
    else
      var least := if contrib[p] <= contrib[s[0]] then contrib[p] else contrib[s[0]];
      (if least > floor then least - floor else 0) + Matchable(s[1..], contrib, floor, p)
  }

  lemma {:induction false} MatchableDrops(s: seq<Player>, contrib: map<Player, int>, prev: int, lvl: int,
                                          keep: set<Player>, p: Player)
    requires prev < lvl && p in contrib && (contrib[p] <= prev || contrib[p] >= lvl)
    requires forall q :: q in s ==> q in contrib && (contrib[q] <= prev || contrib[q] >= lvl)
    requires forall q :: q in s ==> (q in keep <==> contrib[q] >= lvl)
    ensures Matchable(s, contrib, prev, p)
         == (if contrib[p] >= lvl then Times(lvl - prev, |Only(s, keep)|) else 0) + Matchable(s, contrib, lvl, p)
  {
    if s != [] {
      MatchableDrops(s[1..], contrib, prev, lvl, keep, p);
    }
  }

  lemma {:induction false} MatchableZero(s: seq<Player>, contrib: map<Player, int>, floor: int, p: Player)
    requires p in contrib && contrib[p] <= floor && forall q :: q in s ==> q in contrib
    ensures Matchable(s, contrib, floor, p) == 0
  {
    if s != [] { MatchableZero(s[1..], contrib, floor, p); }
  }

  lemma ShareBounds(pot: Pot, prev: int, lvl: int, p: Player)
    requires Valid(pot) && prev < lvl && p in pot.order
    ensures 0 <= Share(pot, prev, lvl, p) <= if pot.contrib[p] >= lvl then SlicePot(pot, prev, lvl) else 0
  {
  }

  lemma {:induction false} SweepBounds(pot: Pot, prev: int, levels: seq<int>, p: Player)
    requires Valid(pot) && Ladder(pot, prev, levels) && p in pot.order
    ensures 0 <= Sweep(pot, prev, levels, p) <= Matchable(pot.order, pot.contrib, prev, p)
    decreases |levels|
  {
    if levels == [] {
      MatchableZero(pot.order, pot.contrib, prev, p);
    } else {
      LadderRest(pot, prev, levels);
      ShareBounds(pot, prev, levels[0], p);
      SweepBounds(pot, levels[0], levels[1..], p);
      SliceMatched(pot, prev, levels[0], p);
    }
  }

  /** Nobody wins more than they could match of every contribution, their own included. */
  lemma NobodyWinsMoreThanMatched(pot: Pot, p: Player)
    requires Valid(pot) && p in pot.order
    ensures 0 <= Payout(pot, p) <= Matchable(pot.order, pot.contrib, 0, p)
  {
    LevelsLadder(pot);
    SweepBounds(pot, 0, Levels(pot.order, pot.contrib), p);
  }

  ghost predicate BeatsTheRest(pot: Pot, p: Player)
    requires Valid(pot)
  {
    && p in pot.order && p in pot.live
    && forall q :: q in pot.order && q in pot.live && q != p ==> Lex.Less(pot.ranks[q], pot.ranks[p])
  }

  lemma BestIsOnlyWinner(pot: Pot, lvl: int, p: Player)
    requires Valid(pot) && BeatsTheRest(pot, p) && pot.contrib[p] >= lvl
    ensures p in Only(Contributors(pot, lvl), pot.live)
    ensures Winners(pot, lvl) == [p]
  {
    var eligible := Only(Contributors(pot, lvl), pot.live);
    assert p in eligible;
    var best := BestRank(eligible, pot.ranks);
    BestRankIsBest(eligible, pot.ranks);
    Lex.Trichotomy(pot.ranks[p], best);
    var w :| w in eligible && pot.ranks[w] == best;
    assert w == p;
    WinnersExist(pot, lvl);
    var winners := Winners(pot, lvl);
    forall q | q in winners ensures q == p {
      Lex.Trichotomy(best, best);
    }
    OnlyDistinct(pot.order, Elems(winners));
    Singleton(winners, p);
  }

  lemma Singleton(s: seq<Player>, p: Player)
    requires Distinct(s) && s != [] && forall q :: q in s ==> q == p
    ensures s == [p]
  {
    assert |s| > 1 ==> s[0] != s[1];
    forall i | 0 <= i < |s| ensures s[i] == p { assert s[i] in s; }
  }

  lemma BestTakesTheSlice(pot: Pot, prev: int, lvl: int, p: Player)
    requires Valid(pot) && prev < lvl && BeatsTheRest(pot, p) && pot.contrib[p] >= lvl
    ensures Share(pot, prev, lvl, p) == SlicePot(pot, prev, lvl)
  {
    BestIsOnlyWinner(pot, lvl, p);
  }

  lemma {:induction false} BestTakesTheSweep(pot: Pot, prev: int, levels: seq<int>, p: Player)
    requires Valid(pot) && Ladder(pot, prev, levels) && BeatsTheRest(pot, p)
    ensures Sweep(pot, prev, levels, p) == Matchable(pot.order, pot.contrib, prev, p)
    decreases |levels|
  {
    if levels == [] {
      MatchableZero(pot.order, pot.contrib, prev, p);
    } else {
      LadderRest(pot, prev, levels);
      if pot.contrib[p] >= levels[0] { BestTakesTheSlice(pot, prev, levels[0], p); }
      BestTakesTheSweep(pot, levels[0], levels[1..], p);
      SliceMatched(pot, prev, levels[0], p);
    }
  }

  /** A live hand that beats every other live hand wins exactly what it could match. */
  lemma BestHandWinsAllItMatched(pot: Pot, p: Player)
    requires Valid(pot) && BeatsTheRest(pot, p)
    ensures Payout(pot, p) == Matchable(pot.order, pot.contrib, 0, p)
  {
    LevelsLadder(pot);
    BestTakesTheSweep(pot, 0, Levels(pot.order, pot.contrib), p);
  }

  /** A folded player is paid from a slice only if no live player reached it. */
  lemma FoldedShare(pot: Pot, prev: int, lvl: int, p: Player)
    requires Valid(pot) && prev < lvl && p !in pot.live && Share(pot, prev, lvl, p) != 0
    ensures forall q :: q in pot.order && pot.contrib[q] >= lvl ==> q !in pot.live
  {
    var contributors := Contributors(pot, lvl);
    if Only(contributors, pot.live) != [] {
      WinnersExist(pot, lvl);
      assert false;
    }
    forall q | q in pot.order && pot.contrib[q] >= lvl ensures q !in pot.live {
      assert q in contributors;
      assert q in pot.live ==> q in Only(contributors, pot.live);
    }
  }

  /** In particular a folded player whose contribution some live player has matched wins nothing. */
  lemma MatchedFolderWinsNothing(pot: Pot, p: Player)
    requires Valid(pot) && p in pot.order && p !in pot.live
    requires exists q :: q in pot.order && q in pot.live && pot.contrib[p] <= pot.contrib[q]
    ensures Payout(pot, p) == 0
  {
    LevelsLadder(pot);
    MatchedFolderSweep(pot, 0, Levels(pot.order, pot.contrib), p);
  }

  lemma {:induction false} MatchedFolderSweep(pot: Pot, prev: int, levels: seq<int>, p: Player)
    requires Valid(pot) && Ladder(pot, prev, levels) && p in pot.order && p !in pot.live
    requires exists q :: q in pot.order && q in pot.live && pot.contrib[p] <= pot.contrib[q]
    ensures Sweep(pot, prev, levels, p) == 0
    decreases |levels|
  {
    if levels != [] {
      LadderRest(pot, prev, levels);
      if Share(pot, prev, levels[0], p) != 0 {
        ShareBounds(pot, prev, levels[0], p);
        FoldedShare(pot, prev, levels[0], p);
        assert false;
      }
      MatchedFolderSweep(pot, levels[0], levels[1..], p);
    }
  }

  // ---- who takes what from a slice, said of the players alone ----

  /** The players whose contribution reaches the slice. */
  function Reaching(pot: Pot, lvl: int): (r: set<Player>)
    requires forall p :: p in pot.order ==> p in pot.contrib
  {
    set p | p in pot.order && pot.contrib[p] >= lvl
  }

  /** The live ones among them that none of the others beats. */
  ghost predicate Unbeaten(pot: Pot, lvl: int, p: Player)
    requires Valid(pot)
  {
    && p in Reaching(pot, lvl) && p in pot.live
    && forall q :: q in Reaching(pot, lvl) && q in pot.live ==> !Lex.Less(pot.ranks[p], pot.ranks[q])
  }

  ghost function AllUnbeaten(pot: Pot, lvl: int): set<Player>
    requires Valid(pot)
  {
    set p | p in pot.order && Unbeaten(pot, lvl, p)
  }

  /** `p` is the member of `keep` that comes first in `s`. */
  ghost predicate Foremost(s: seq<Player>, keep: set<Player>, p: Player) {
    exists i :: 0 <= i < |s| && s[i] == p && p in keep && forall j :: 0 <= j < i ==> s[j] !in keep
  }

  lemma {:induction false} FirstOfOnly(s: seq<Player>, keep: set<Player>)
    requires Only(s, keep) != []
    ensures Foremost(s, keep, Only(s, keep)[0])
  {
    if s[0] in keep {
      assert Only(s, keep)[0] == s[0];
    } else {
      FirstOfOnly(s[1..], keep);
      var i :| 0 <= i < |s[1..]| && s[1..][i] == Only(s, keep)[0] && s[1..][i] in keep && forall j :: 0 <= j < i ==> s[1..][j] !in keep;
      assert s[i + 1] == Only(s, keep)[0];
      forall j | 0 <= j < i + 1 ensures s[j] !in keep { if j > 0 { assert s[j] == s[1..][j - 1]; } }
    }
  }

  lemma ForemostIsOne(s: seq<Player>, keep: set<Player>, p: Player, q: Player)
    requires Foremost(s, keep, p) && Foremost(s, keep, q)
    ensures p == q
  {
  }

  lemma {:induction false} SizeOfElems(s: seq<Player>)
    requires Distinct(s)
    ensures |Elems(s)| == |s|
  {
    if s != [] {
      SizeOfElems(s[1..]);
      assert s[0] !in s[1..] && Elems(s) == Elems(s[1..]) + {s[0]};
    }
  }

  lemma WinnersAreUnbeaten(pot: Pot, lvl: int)
    requires Valid(pot) && Only(Contributors(pot, lvl), pot.live) != []
    ensures Elems(Winners(pot, lvl)) == AllUnbeaten(pot, lvl)
  {
    var eligible := Only(Contributors(pot, lvl), pot.live);
    var best := BestRank(eligible, pot.ranks);
    BestRankIsBest(eligible, pot.ranks);
    hide BestRank;
    var w :| w in eligible && pot.ranks[w] == best;
    forall p | p in pot.order ensures p in Winners(pot, lvl) <==> Unbeaten(pot, lvl, p) {
      assert p in eligible <==> p in Reaching(pot, lvl) && p in pot.live;
      if p in eligible { Lex.Trichotomy(pot.ranks[p], best); }
    }
  }

  /** The whole rule for a slice. If a live player reached it, the unbeaten ones split it evenly and the odd chips go to the
      first of them in table order; if none did, all of it goes to the first of those who put in most. */
  lemma SliceGoesTo(pot: Pot, prev: int, lvl: int, p: Player)
    requires Valid(pot) && prev < lvl && p in pot.order && Reaching(pot, lvl) != {}
    ensures var amount, tied := (lvl - prev) * |Reaching(pot, lvl)|, AllUnbeaten(pot, lvl);
      if exists q :: q in Reaching(pot, lvl) && q in pot.live then
        tied != {} && Share(pot, prev, lvl, p) ==
          if p !in tied then 0
          else amount / |tied| + if Foremost(pot.order, tied, p) then amount % |tied| else 0
      else
        Share(pot, prev, lvl, p) == if Foremost(pot.order, MostPaid(pot), p) then amount else 0
  {
    var cs := Contributors(pot, lvl);
    SliceSize(pot, lvl);
    var some :| some in Reaching(pot, lvl);
    assert some in cs;
    hide Only, Contributors, BestRank, AllUnbeaten, Foremost, Reaching;
    ReachingIs(pot, lvl);
    if q :| q in Reaching(pot, lvl) && q in pot.live {
      OnlyHas(cs, pot.live, q);
      SplitGoesTo(pot, prev, lvl, p);
    } else {
      OnlyNone(cs, pot.live);
      HighestIsForemost(pot, lvl);
      hide SlicePot;
      if p !in cs { LowIsNotMost(pot, lvl, p); }
      if Foremost(pot.order, MostPaid(pot), p) { ForemostIsOne(pot.order, MostPaid(pot), p, Highest(cs, pot.contrib)); }
    }
  }

  lemma SplitGoesTo(pot: Pot, prev: int, lvl: int, p: Player)
    requires Valid(pot) && prev < lvl && p in pot.order && Only(Contributors(pot, lvl), pot.live) != []
    ensures var amount, tied := SlicePot(pot, prev, lvl), AllUnbeaten(pot, lvl);
      tied != {} && Share(pot, prev, lvl, p) ==
        if p !in tied then 0 else amount / |tied| + if Foremost(pot.order, tied, p) then amount % |tied| else 0
  {
    hide Only, Contributors, BestRank, AllUnbeaten, Foremost, Reaching, SlicePot;
    var w := Winners(pot, lvl);
    WinnersExist(pot, lvl);
    WinnersAreUnbeaten(pot, lvl);
    OnlyDistinct(pot.order, Elems(w));
    SizeOfElems(w);
    FirstOfOnly(pot.order, Elems(w));
    assert w[0] in w;
    if Foremost(pot.order, Elems(w), p) { ForemostIsOne(pot.order, Elems(w), p, w[0]); }
    WinnersReach(pot, lvl);
    PartSplits(SlicePot(pot, prev, lvl), |w|);
    hide Winners, Part;
  }

  lemma WinnersReach(pot: Pot, lvl: int)
    requires Valid(pot) && Only(Contributors(pot, lvl), pot.live) != []
    ensures forall p :: p in Winners(pot, lvl) ==> p in Contributors(pot, lvl)
  {
  }

  lemma SliceSize(pot: Pot, lvl: int)
    requires Valid(pot)
    ensures |Contributors(pot, lvl)| == |Reaching(pot, lvl)|
  {
    OnlyDistinct(pot.order, set p | p in pot.order && pot.contrib[p] >= lvl);
    SizeOfElems(Contributors(pot, lvl));
    assert Elems(Contributors(pot, lvl)) == Reaching(pot, lvl);
  }

  lemma ReachingIs(pot: Pot, lvl: int)
    requires Valid(pot)
    ensures forall p :: p in Contributors(pot, lvl) <==> p in Reaching(pot, lvl)
    ensures forall p :: p in Reaching(pot, lvl) <==> p in pot.order && pot.contrib[p] >= lvl
  {
  }

  lemma OnlyHas(s: seq<Player>, keep: set<Player>, p: Player)
    requires p in s && p in keep
    ensures Only(s, keep) != []
  {
    assert p in Only(s, keep);
  }

  lemma OnlyNone(s: seq<Player>, keep: set<Player>)
    requires forall p :: p in s ==> p !in keep
    ensures Only(s, keep) == []
  {
  }

  /** Who put in most. */
  function MostPaid(pot: Pot): set<Player>
    requires forall p :: p in pot.order ==> p in pot.contrib
  {
    set p | p in pot.order && forall q :: q in pot.order ==> pot.contrib[q] <= pot.contrib[p]
  }

  lemma {:induction false} HighestIsFirst(s: seq<Player>, contrib: map<Player, int>)
    requires s != [] && forall p :: p in s ==> p in contrib
    ensures exists i :: 0 <= i < |s| && s[i] == Highest(s, contrib) && forall j :: 0 <= j < i ==> contrib[s[j]] < contrib[s[i]]
  {
    if |s| > 1 {
      HighestIsFirst(s[1..], contrib);
      var i :| 0 <= i < |s[1..]| && s[1..][i] == Highest(s[1..], contrib)
        && forall j :: 0 <= j < i ==> contrib[s[1..][j]] < contrib[s[1..][i]];
      if contrib[s[1..][i]] > contrib[s[0]] {
        assert s[i + 1] == Highest(s, contrib);
        forall j | 0 <= j < i + 1 ensures contrib[s[j]] < contrib[s[i + 1]] { if j > 0 { assert s[j] == s[1..][j - 1]; } }
      } else {
        assert s[0] == Highest(s, contrib);
      }
    } else {
      assert s[0] == Highest(s, contrib);
    }
  }

  lemma {:induction false} HighestOfOnly(s: seq<Player>, keep: set<Player>, contrib: map<Player, int>, lvl: int)
    requires forall p :: p in s ==> p in contrib && (p in keep <==> contrib[p] >= lvl)
    requires Only(s, keep) != []
    ensures s != [] && Highest(Only(s, keep), contrib) == Highest(s, contrib)
  {
    var rest := Only(s[1..], keep);
    if rest != [] {
      HighestOfOnly(s[1..], keep, contrib, lvl);
      assert rest[0] in rest && contrib[rest[0]] <= contrib[Highest(s[1..], contrib)];
      if s[0] in keep { assert ([s[0]] + rest)[1..] == rest; }
    } else {
      OnlyOfNone(s[1..], keep);
      assert Only(s, keep) == [s[0]];
    }
  }

  lemma OnlyOfNone(s: seq<Player>, keep: set<Player>)
    requires Only(s, keep) == []
    ensures forall p :: p in s ==> p !in keep
  {
    forall p | p in s ensures p !in keep { assert p in Only(s, keep) <==> p in keep; }
  }

  lemma HighestIsForemost(pot: Pot, lvl: int)
    requires Valid(pot) && Contributors(pot, lvl) != []
    ensures Foremost(pot.order, MostPaid(pot), Highest(Contributors(pot, lvl), pot.contrib))
  {
    var paying := set p | p in pot.order && pot.contrib[p] >= lvl;
    HighestOfOnly(pot.order, paying, pot.contrib, lvl);
    HighestIsFirst(pot.order, pot.contrib);
    hide Only;
    var best := Highest(pot.order, pot.contrib);
    assert best in MostPaid(pot);
    var i :| 0 <= i < |pot.order| && pot.order[i] == best
      && forall j :: 0 <= j < i ==> pot.contrib[pot.order[j]] < pot.contrib[pot.order[i]];
    forall j | 0 <= j < i ensures pot.order[j] !in MostPaid(pot) { }
  }

  lemma LowIsNotMost(pot: Pot, lvl: int, p: Player)
    requires Valid(pot) && p in pot.order && p !in Contributors(pot, lvl) && Contributors(pot, lvl) != []
    ensures !Foremost(pot.order, MostPaid(pot), p)
  {
    var q := Contributors(pot, lvl)[0];
    assert q in Contributors(pot, lvl);
    assert p !in MostPaid(pot);
  }

  /** A player whose contribution a live player with a better hand has matched wins nothing. */
  lemma BeatenWinsNothing(pot: Pot, p: Player, q: Player)
    requires Valid(pot) && p in pot.order && p in pot.live && q in pot.order && q in pot.live
    requires pot.contrib[p] <= pot.contrib[q] && Lex.Less(pot.ranks[p], pot.ranks[q])
    ensures Payout(pot, p) == 0
  {
    LevelsLadder(pot);
    BeatenSweep(pot, 0, Levels(pot.order, pot.contrib), p, q);
  }

  lemma {:induction false} BeatenSweep(pot: Pot, prev: int, levels: seq<int>, p: Player, q: Player)
    requires Valid(pot) && Ladder(pot, prev, levels)
    requires p in pot.order && p in pot.live && q in pot.order && q in pot.live
    requires pot.contrib[p] <= pot.contrib[q] && Lex.Less(pot.ranks[p], pot.ranks[q])
    ensures Sweep(pot, prev, levels, p) == 0
    decreases |levels|
  {
    if levels != [] {
      LadderRest(pot, prev, levels);
      BeatenSlice(pot, prev, levels[0], p, q);
      BeatenSweep(pot, levels[0], levels[1..], p, q);
    }
  }

  lemma BeatenSlice(pot: Pot, prev: int, lvl: int, p: Player, q: Player)
    requires Valid(pot) && prev < lvl && p in pot.order && p in pot.live && q in pot.order && q in pot.live
    requires pot.contrib[p] <= pot.contrib[q] && Lex.Less(pot.ranks[p], pot.ranks[q])
    ensures Share(pot, prev, lvl, p) == 0
  {
    ShareBounds(pot, prev, lvl, p);
    if pot.contrib[p] >= lvl {
      assert p in Reaching(pot, lvl) && q in Reaching(pot, lvl);
      SliceGoesTo(pot, prev, lvl, p);
      assert !Unbeaten(pot, lvl, p);
    }
    hide Share, Foremost;
  }

  // ---- the payout loop ----

  /** The side pots the source builds: players who put in nothing are dropped first. */
  function PotOf(order: seq<Player>, contrib: map<Player, int>, live: seq<Player>, ranks: map<Player, Rank>): (pot: Pot)
    requires Distinct(order) && forall p :: p in order ==> p in contrib
    requires forall p :: p in order && p in live && contrib[p] > 0 ==> p in ranks
    ensures Valid(pot)
    ensures forall p :: p in pot.order <==> p in order && contrib[p] > 0
  {
    var paid := set p | p in order && contrib[p] > 0;
    OnlyDistinct(order, paid);
    Pot(Only(order, paid), contrib, Elems(live), ranks)
  }

  method DistributePot(order: seq<Player>, contrib: map<Player, int>, live: seq<Player>, ranks: map<Player, Rank>)
    returns (won: map<Player, int>)
    requires Distinct(order) && forall p :: p in order ==> p in contrib
    requires forall p :: p in order && p in live && contrib[p] > 0 ==> p in ranks
    ensures won == Payouts(PotOf(order, contrib, live, ranks))
  {
    var pot := PotOf(order, contrib, live, ranks);
    won := PaySlices(pot);
  }

  /** What has been paid and what the remaining slices owe add up to what is due. */
  ghost predicate Owed(pot: Pot, prev: int, levels: seq<int>, paid: map<Player, int>, due: map<Player, int>)
    requires Valid(pot) && Ladder(pot, prev, levels) && paid.Keys == due.Keys == Elems(pot.order)
  {
    forall p :: p in pot.order ==> paid[p] + Sweep(pot, prev, levels, p) == due[p]
  }

  lemma OwedStep(pot: Pot, prev: int, levels: seq<int>, won: map<Player, int>, paid: map<Player, int>, due: map<Player, int>)
    requires Valid(pot) && Ladder(pot, prev, levels) && levels != []
    requires won.Keys == paid.Keys == due.Keys == Elems(pot.order) && Owed(pot, prev, levels, won, due)
    requires forall p :: p in pot.order ==> paid[p] == won[p] + Share(pot, prev, levels[0], p)
    ensures Ladder(pot, levels[0], levels[1..]) && Owed(pot, levels[0], levels[1..], paid, due)
  {
    LadderRest(pot, prev, levels);
  }

  lemma NothingOwed(pot: Pot, prev: int, won: map<Player, int>, due: map<Player, int>)
    requires Valid(pot) && Ladder(pot, prev, []) && won.Keys == due.Keys == Elems(pot.order)
    requires Owed(pot, prev, [], won, due)
    ensures won == due
  {
  }

  method PaySlices(pot: Pot) returns (won: map<Player, int>)
    requires Valid(pot)
    ensures won == Payouts(pot)
  {
    won := map p | p in pot.order :: 0;
    var levels := Levels(pot.order, pot.contrib);
    var prev := 0;
    LevelsLadder(pot);
    ghost var due := Payouts(pot);
    while levels != []
      invariant Ladder(pot, prev, levels)
      invariant won.Keys == Elems(pot.order)
      invariant Owed(pot, prev, levels, won, due)
      decreases |levels|
    {
      LadderRest(pot, prev, levels);
      var paid := PaySlice(pot, prev, levels[0], won);
      OwedStep(pot, prev, levels, won, paid, due);
      won, prev, levels := paid, levels[0], levels[1..];
    }
    NothingOwed(pot, prev, won, due);
  }

  method Divide(amount: nat, n: nat) returns (share: nat, odd: nat)
    requires n > 0
    ensures share == Part(amount, n, false) && share + odd == Part(amount, n, true)
  {
    share, odd := amount / n, amount % n;
  }

  method PayEach(winners: seq<Player>, share: int, before: map<Player, int>) returns (won: map<Player, int>)
    requires Distinct(winners) && forall p :: p in winners ==> p in before
    ensures won.Keys == before.Keys
    ensures forall p :: p in before ==> won[p] == before[p] + if p in winners then share else 0
  {
    won := before;
    var j := 0;
    while j < |winners|
      invariant 0 <= j <= |winners|
      invariant won.Keys == before.Keys
      invariant forall p :: p in before ==> won[p] == before[p] + if p in winners[..j] then share else 0
    {
      won := won[winners[j] := won[winners[j]] + share];
      j := j + 1;
    }
    assert winners[..j] == winners;
  }

  /** One turn of the loop: the slice (prev, lvl] is paid on top of `before`. */
  method PaySlice(pot: Pot, prev: int, lvl: int, before: map<Player, int>) returns (won: map<Player, int>)
    requires Valid(pot) && prev < lvl && before.Keys == Elems(pot.order) && Contributors(pot, lvl) != []
    ensures won.Keys == before.Keys
    ensures forall p :: p in pot.order ==> won[p] == before[p] + Share(pot, prev, lvl, p)
  {
    won := before;
    var contributors := Contributors(pot, lvl);
    var amount := SlicePot(pot, prev, lvl);
    var eligible := Only(contributors, pot.live);
    if eligible == [] {
      // everyone who could win this slice folded: it goes to the highest contributor
      var best := Highest(contributors, pot.contrib);
      won := won[best := won[best] + amount];
      return;
    }
    won := PayWinners(Winners(pot, lvl), amount, won) by {
      WinnersExist(pot, lvl);
      OnlyDistinct(pot.order, Elems(Winners(pot, lvl)));
    }
  }

  method PayWinners(winners: seq<Player>, amount: nat, before: map<Player, int>) returns (won: map<Player, int>)
    requires winners != [] && Distinct(winners) && forall p :: p in winners ==> p in before
    ensures won.Keys == before.Keys
    ensures forall p :: p in before ==>
      won[p] == before[p] + if p in winners then Part(amount, |winners|, p == winners[0]) else 0
  {
    var share, odd := Divide(amount, |winners|);
    won := PayEach(winners, share, before);
    if odd != 0 {
      assert winners[0] in winners;
      won := won[winners[0] := won[winners[0]] + odd];
    }
  }
}
