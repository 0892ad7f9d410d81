/** A hand never gets worse when cards are added, from the first card to the seventh (botframework/holdem_engine.py). */
module HandGrowth {
  import Lex
  import opened HandRank
  import opened PlayingCards

  lemma TakeBoth<T>(x: T, a: multiset<T>, b: multiset<T>)
    requires multiset{x} + a <= multiset{x} + b
    ensures a <= b
  {
    forall y: T ensures a[y] <= b[y] { assert (multiset{x} + a)[y] <= (multiset{x} + b)[y]; }
  }

  /** Of two falling lists the one that holds the other's entries and more is at least as high. */
  lemma {:induction false} LongerIsHigher(a: seq<int>, b: seq<int>)
    requires Falling(a) && Falling(b) && multiset(a) <= multiset(b)
    ensures Lex.AtMost(a, b)
    decreases |a|
  {
    if a != [] {
      assert a[0] in multiset(b);
      HeadTail(a);
      HeadTail(b);
      if a[0] == b[0] {
        TakeBoth(a[0], multiset(a[1..]), multiset(b[1..]));
        LongerIsHigher(a[1..], b[1..]);
      }
    }
  }

  lemma {:induction false} RanksKeepPart(a: seq<Card>, b: seq<Card>)
    requires multiset(a) <= multiset(b)
    ensures multiset(RanksOf(a)) <= multiset(RanksOf(b))
    decreases |a|
  {
    if a == [] {
      assert multiset(RanksOf(a)) == multiset{};
    } else {
      assert a[0] in multiset(b);
      var i :| 0 <= i < |b| && b[i] == a[0];
      CardOut(a, 0);
      CardOut(b, i);
      TakeBoth(a[0], multiset(Drop(a, 0)), multiset(Drop(b, i)));
      RankOut(a, 0);
      RankOut(b, i);
      hide RanksOf, Drop;
      RanksKeepPart(Drop(a, 0), Drop(b, i));
    }
  }

  /** The tuple of a hand counted as high cards only. */
  function HighCards(cards: seq<Card>): seq<int> {
    [HIGH] + SortFalling(RanksOf(cards))
  }

  lemma HighCardsGrow(a: seq<Card>, b: seq<Card>)
    requires multiset(a) <= multiset(b)
    ensures Lex.AtMost(HighCards(a), HighCards(b))
  {
    RanksKeepPart(a, b);
    SortPermutes(RanksOf(a));
    SortPermutes(RanksOf(b));
    LongerIsHigher(SortFalling(RanksOf(a)), SortFalling(RanksOf(b)));
    assert HighCards(a)[1..] == SortFalling(RanksOf(a)) && HighCards(b)[1..] == SortFalling(RanksOf(b));
  }

  /** Five cards are worth at least their high cards. */
  lemma FiveBeatHighCards(cards: seq<Card>)
    requires |cards| == 5
    ensures Lex.AtMost(HighCards(cards), Eval5(cards))
  {
    var ranks := SortFalling(RanksOf(cards));
    ShapeOfFive(ranks);
    GradeOrHigh(ranks, Held(ranks), Shape(ranks), StraightHigh(ranks), |Suits(cards)| == 1);
    Lex.Trichotomy(HighCards(cards), Eval5(cards));
  }

  lemma GradeOrHigh(ranks: seq<int>, held: seq<int>, shape: seq<nat>, high: int, flush: bool)
    requires FiveShape(shape) && |held| == |shape|
    ensures var r := Grade(ranks, held, shape, high, flush); r[0] > HIGH || r == [HIGH] + ranks
  {
  }

  /** Five of the cards that hold the given ones. */
  lemma {:induction false} FillUp(fewer: seq<Card>, more: seq<Card>) returns (c: seq<Card>)
    requires |fewer| <= 5 <= |more| && multiset(fewer) <= multiset(more)
    ensures FiveOf(more, c) && multiset(fewer) <= multiset(c)
    decreases 5 - |fewer|
  {
    if |fewer| == 5 {
      c := fewer;
    } else {
      var left := multiset(more) - multiset(fewer);
      assert |left| == |more| - |fewer| > 0;
      var x: Card :| x in left;
      assert multiset(fewer + [x]) == multiset(fewer) + multiset{x};
      c := FillUp(fewer + [x], more);
    }
  }

  /** Adding cards never lowers the value, for any numbers of cards. */
  lemma EvaluateNeverDrops(fewer: seq<Card>, more: seq<Card>)
    requires multiset(fewer) <= multiset(more)
    ensures Lex.AtMost(Evaluate7(fewer), Evaluate7(more))
  {
    PartSize(multiset(fewer), multiset(more));
    if |fewer| >= 5 {
      EvaluateGrows(fewer, more);
    } else if |more| < 5 {
      HighCardsGrow(fewer, more);
    } else {
      var c := FillUp(fewer, more);
      HighCardsGrow(fewer, c);
      FiveBeatHighCards(c);
      NoFiveBeats(more, c);
      Lex.Transitive(HighCards(fewer), HighCards(c), Eval5(c));
      Lex.Transitive(HighCards(fewer), Eval5(c), Evaluate7(more));
    }
  }
}
