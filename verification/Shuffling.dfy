/** The shuffle of the poker deck: swaps from the top down with arbitrary draws (botframework/holdem_engine.py, `new_deck`). */
module Shuffling {
  import opened HandRank
  import opened PlayingCards

  function Swapped(s: seq<Card>, i: nat, j: nat): (r: seq<Card>)
    requires i < |s| && j < |s|
    ensures |r| == |s| && forall k :: 0 <= k < |s| && k != i && k != j ==> r[k] == s[k]
  {
    s[i := s[j]][j := s[i]]
  }

  /** Draws for the places i, i - 1, ... in turn, each at most its place. */
  ghost predicate Draws(draws: seq<nat>, i: nat) {
    |draws| <= i && forall k :: 0 <= k < |draws| ==> draws[k] <= i - k
  }

  /** The order after one swap for each draw, starting at place `i`. */
  function Shuffled(s: seq<Card>, draws: seq<nat>, i: nat): (r: seq<Card>)
    requires Draws(draws, i) && (i == 0 || i < |s|)
    ensures |r| == |s|
    decreases |draws|
  {
    if draws == [] then s else Shuffled(Swapped(s, i, draws[0]), draws[1..], i - 1)
  }

  lemma SwapKeeps(s: seq<Card>, i: nat, j: nat)
    requires i < |s| && j < |s|
    ensures multiset(Swapped(s, i, j)) == multiset(s)
  {
  }

  /** No card is lost or made, and the places above `i` are left alone. */
  lemma {:induction false} ShuffleKeeps(s: seq<Card>, draws: seq<nat>, i: nat)
    requires Draws(draws, i) && (i == 0 || i < |s|)
    ensures multiset(Shuffled(s, draws, i)) == multiset(s)
    ensures forall k :: i < k < |s| ==> Shuffled(s, draws, i)[k] == s[k]
    decreases |draws|
  {
    hide Swapped;
    if draws != [] {
      SwapKeeps(s, i, draws[0]);
      ShuffleKeeps(Swapped(s, i, draws[0]), draws[1..], i - 1);
    }
  }

  /** One more draw is one more swap, at the next place down. */
  lemma {:induction false} OneMoreDraw(s: seq<Card>, draws: seq<nat>, i: nat, j: nat)
    requires Draws(draws, i) && i < |s| && |draws| < i && j <= i - |draws|
    ensures Draws(draws + [j], i) && Shuffled(s, draws + [j], i) == Swapped(Shuffled(s, draws, i), i - |draws|, j)
    decreases |draws|
  {
    if draws == [] {
      assert ([j])[1..] == [];
    } else {
      assert (draws + [j])[1..] == draws[1..] + [j];
      OneMoreDraw(Swapped(s, i, draws[0]), draws[1..], i - 1, j);
    }
  }

  // ---- every order comes out, for exactly one list of draws ----

  lemma {:induction false} EveryOrderComesOut(s: seq<Card>, t: seq<Card>, i: nat) returns (draws: seq<nat>)
    requires i < |s| == |t| && multiset(s[..i + 1]) == multiset(t[..i + 1])
    requires forall k :: i < k < |s| ==> s[k] == t[k]
    ensures |draws| == i && Draws(draws, i) && Shuffled(s, draws, i) == t
    decreases i
  {
    if i == 0 {
      draws := [];
      assert s[..1] == [s[0]] && t[..1] == [t[0]];
      assert s[0] in multiset(t[..1]);
    } else {
      var j := Holder(s, t, i);
      BelowTheSwap(s, t, i, j);
      hide Swapped, Shuffled, Draws;
      var s' := Swapped(s, i, j);
      var rest := EveryOrderComesOut(s', t, i - 1);
      draws := [j] + rest;
      DrawFirst(s, j, rest, i);
    }
  }

  lemma DrawFirst(s: seq<Card>, j: nat, rest: seq<nat>, i: nat)
    requires 0 < i < |s| && j <= i && Draws(rest, i - 1)
    ensures Draws([j] + rest, i) && Shuffled(s, [j] + rest, i) == Shuffled(Swapped(s, i, j), rest, i - 1)
  {
    hide Swapped;
    assert ([j] + rest)[1..] == rest;
  }

  /** Some place up to `i` holds the card wanted at `i`. */
  lemma Holder(s: seq<Card>, t: seq<Card>, i: nat) returns (j: nat)
    requires i < |s| == |t| && multiset(s[..i + 1]) == multiset(t[..i + 1])
    ensures j <= i && s[j] == t[i]
  {
    assert t[..i + 1][i] in multiset(t[..i + 1]);
    assert t[i] in multiset(s[..i + 1]);
    j :| 0 <= j < |s[..i + 1]| && s[..i + 1][j] == t[i];
  }

  lemma BelowTheSwap(s: seq<Card>, t: seq<Card>, i: nat, j: nat)
    requires 0 < i < |s| == |t| && j <= i && s[j] == t[i]
    requires multiset(s[..i + 1]) == multiset(t[..i + 1]) && forall k :: i < k < |s| ==> s[k] == t[k]
    ensures var s' := Swapped(s, i, j);
      multiset(s'[..i]) == multiset(t[..i]) && forall k :: i - 1 < k < |s| ==> s'[k] == t[k]
  {
    var s', p := Swapped(s, i, j), s[..i + 1];
    SwapKeeps(p, i, j);
    assert s'[..i + 1] == Swapped(p, i, j);
    LastOff(s', i);
    LastOff(t, i);
  }

  lemma LastOff(s: seq<Card>, i: nat)
    requires i < |s|
    ensures multiset(s[..i]) == multiset(s[..i + 1]) - multiset{s[i]}
  {
    assert s[..i + 1] == s[..i] + [s[i]];
  }

  /** Different draws give different orders of different cards: with fair draws every order is as likely. */
  lemma {:induction false} DrawsAreUnique(s: seq<Card>, a: seq<nat>, b: seq<nat>, i: nat)
    requires |a| == |b| == i && Draws(a, i) && Draws(b, i) && i < |s| && DistinctCards(s)
    requires Shuffled(s, a, i) == Shuffled(s, b, i)
    ensures a == b
    decreases i
  {
    if i > 0 {
      FirstDraw(s, a, b, i);
      SwapStaysDistinct(s, i, a[0]);
      hide Swapped, DistinctCards;
      DrawsAreUnique(Swapped(s, i, a[0]), a[1..], b[1..], i - 1);
      assert a == [a[0]] + a[1..] && b == [b[0]] + b[1..];
    }
  }

  /** The first draw decides the card at place `i`. */
  lemma FirstDraw(s: seq<Card>, a: seq<nat>, b: seq<nat>, i: nat)
    requires |a| == |b| == i && Draws(a, i) && Draws(b, i) && 0 < i < |s| && DistinctCards(s)
    requires Shuffled(s, a, i) == Shuffled(s, b, i)
    ensures a[0] == b[0]
  {
    hide Shuffled, Swapped;
    TopCard(s, a, i);
    TopCard(s, b, i);
  }

  lemma TopCard(s: seq<Card>, a: seq<nat>, i: nat)
    requires |a| == i && Draws(a, i) && 0 < i < |s|
    ensures Shuffled(s, a, i)[i] == s[a[0]]
  {
    ShuffleKeeps(Swapped(s, i, a[0]), a[1..], i - 1);
  }

  lemma SwapStaysDistinct(s: seq<Card>, i: nat, j: nat)
    requires i < |s| && j < |s| && DistinctCards(s)
    ensures DistinctCards(Swapped(s, i, j))
  {
  }

  /** The source's loop: a new deck, swapped in place with one arbitrary draw per place. */
  method NewDeck() returns (deck: array<Card>, ghost draws: seq<nat>)
    ensures fresh(deck) && deck.Length == 52 && |draws| == 51 && Draws(draws, 51)
    ensures deck[..] == Shuffled(Pack(), draws, 51)
  {
    deck := new Card[52](i requires 0 <= i < 52 => i);
    ghost var s := deck[..];
    assert s == Pack();
    draws := [];
    hide Shuffled, Draws;
    assert Draws(draws, 51) && Shuffled(s, draws, 51) == s by { NoDraws(s, 51); }
    var i := 51;
    while i > 0
      invariant 0 <= i <= 51 && |draws| == 51 - i && Draws(draws, 51) && deck[..] == Shuffled(s, draws, 51)
    {
      var j: nat :| j <= i;
      OneMoreDraw(s, draws, 51, j);
      ghost var was := deck[..];
      deck[i], deck[j] := deck[j], deck[i];
      assert deck[..] == Swapped(was, i, j);
      draws := draws + [j];
      i := i - 1;
    }
  }

  lemma NoDraws(s: seq<Card>, i: nat)
    requires i < |s|
    ensures Draws([], i) && Shuffled(s, [], i) == s
  {
  }
}
