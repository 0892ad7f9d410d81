/** Ranking poker hands (botframework/holdem_engine.py, _eval5 and evaluate7).

  A card is a number 0..51: its rank is the number modulo 13 (0 a deuce, 12 an ace), its suit the quotient.
  A hand's rank is a tuple, the category first, compared lexicographically.
 */
module HandRank {
  import Lex
  import opened PlayingCards

  const HIGH := 0
  const PAIR := 1
  const TWO_PAIR := 2
  const TRIPS := 3
  const STRAIGHT := 4
  const FLUSH := 5
  const FULL_HOUSE := 6
  const QUADS := 7
  const STRAIGHT_FLUSH := 8

  // ---- sorting ranks ----

  ghost predicate Falling(s: seq<int>) {
    forall i, j :: 0 <= i < j < |s| ==> s[i] >= s[j]
  }

  ghost predicate StrictlyFalling(s: seq<int>) {
    forall i, j :: 0 <= i < j < |s| ==> s[i] > s[j]
  }

  function InsertFalling(x: int, s: seq<int>): (r: seq<int>)
    requires Falling(s)
    ensures Falling(r) && |r| == |s| + 1
    ensures forall y :: y in r <==> y == x || y in s
  {
    if s == [] then [x]
    else if x > s[0] then [x] + s
    else
      var rest := InsertFalling(x, s[1..]);
      assert forall i :: 0 <= i < |rest| ==> rest[i] in rest;
      [s[0]] + rest
  }

  function SortFalling(s: seq<int>): (r: seq<int>)
    ensures Falling(r) && |r| == |s|
    ensures forall y :: y in r <==> y in s
  {
    if s == [] then [] else InsertFalling(s[0], SortFalling(s[1..]))
  }

  lemma HeadTail(s: seq<int>)
    requires s != []
    ensures multiset(s) == multiset{s[0]} + multiset(s[1..])
  {
    assert s == [s[0]] + s[1..];
  }

  lemma {:induction false} InsertPermutes(x: int, s: seq<int>)
    requires Falling(s)
    ensures multiset(InsertFalling(x, s)) == multiset{x} + multiset(s)
  {
    if s != [] {
      HeadTail(s);
      if x <= s[0] {
        InsertPermutes(x, s[1..]);
        assert InsertFalling(x, s) == [s[0]] + InsertFalling(x, s[1..]);
      }
    }
  }

  lemma {:induction false} SortPermutes(s: seq<int>)
    ensures multiset(SortFalling(s)) == multiset(s)
  {
    if s != [] {
      HeadTail(s);
      SortPermutes(s[1..]);
      InsertPermutes(s[0], SortFalling(s[1..]));
    }
  }

  lemma {:induction false} FallingUnique(a: seq<int>, b: seq<int>)
    requires Falling(a) && Falling(b) && multiset(a) == multiset(b)
    ensures a == b
    decreases |a|
  {
    assert |a| == |multiset(a)| == |multiset(b)| == |b|;
    if a != [] {
      SameHead(a, b);
      SameTails(a, b);
      FallingUnique(a[1..], b[1..]);
      Rejoin(a, b);
    }
  }

  lemma SameTails(a: seq<int>, b: seq<int>)
    requires multiset(a) == multiset(b) && a != [] && b != [] && a[0] == b[0]
    ensures multiset(a[1..]) == multiset(b[1..])
  {
    HeadTail(a);
    HeadTail(b);
    assert multiset(a[1..]) == multiset(a) - multiset{a[0]};
    assert multiset(b[1..]) == multiset(b) - multiset{b[0]};
  }

  lemma Rejoin(a: seq<int>, b: seq<int>)
    requires a != [] && b != [] && a[0] == b[0] && a[1..] == b[1..]
    ensures a == b
  {
    assert a == [a[0]] + a[1..];
    assert b == [b[0]] + b[1..];
  }

  lemma SameHead(a: seq<int>, b: seq<int>)
    requires Falling(a) && Falling(b) && multiset(a) == multiset(b) && a != [] && b != []
    ensures a[0] == b[0]
  {
    assert a[0] in multiset(b) && b[0] in multiset(a);
  }

  /** Sorting forgets the order it was given. */
  lemma SortForgetsOrder(a: seq<int>, b: seq<int>)
    requires multiset(a) == multiset(b)
    ensures SortFalling(a) == SortFalling(b)
  {
    SortPermutes(a);
    SortPermutes(b);
    FallingUnique(SortFalling(a), SortFalling(b));
  }

  /** The distinct values of a falling sequence, still falling. */
  function Uniq(s: seq<int>): (r: seq<int>)
    requires Falling(s)
    ensures StrictlyFalling(r) && |r| <= |s|
    ensures forall x :: x in r <==> x in s
  {
    if |s| <= 1 then s
    else if s[0] == s[1] then Uniq(s[1..])
    else
      var rest := Uniq(s[1..]);
      assert forall i :: 0 <= i < |rest| ==> rest[i] in s[1..];
      [s[0]] + rest
  }

  function Count(s: seq<int>, x: int): (n: nat)
    ensures n == multiset(s)[x]
  {
    if s == [] then 0
    else
      assert s == [s[0]] + s[1..];
      (if s[0] == x then 1 else 0) + Count(s[1..], x)
  }

  /** `a` sorts before `b`: held more often, or as often and higher. */
  predicate Stronger(s: seq<int>, a: int, b: int) {
    Count(s, a) > Count(s, b) || (Count(s, a) == Count(s, b) && a > b)
  }

  ghost predicate ByStrength(s: seq<int>, r: seq<int>) {
    forall i, j :: 0 <= i < j < |r| ==> Stronger(s, r[i], r[j])
  }

  function InsertStrength(s: seq<int>, x: int, r: seq<int>): (r': seq<int>)
    requires ByStrength(s, r) && x !in r
    ensures ByStrength(s, r') && |r'| == |r| + 1
    ensures forall y :: y in r' <==> y == x || y in r
  {
    if r == [] then [x]
    else if Stronger(s, x, r[0]) then [x] + r
    else
      var rest := InsertStrength(s, x, r[1..]);
      assert forall i :: 0 <= i < |rest| ==> rest[i] in rest;
      [r[0]] + rest
  }

  function SortStrength(s: seq<int>, xs: seq<int>): (r: seq<int>)
    requires StrictlyFalling(xs)
    ensures ByStrength(s, r) && |r| == |xs|
    ensures forall y :: y in r <==> y in xs
  {
    if xs == [] then []
    else InsertStrength(s, xs[0], SortStrength(s, xs[1..]))
  }

  // ---- five cards ----

  function RanksOf(cards: seq<Card>): (r: seq<int>)
    ensures |r| == |cards| && forall i :: 0 <= i < |r| ==> r[i] == cards[i] % 13
  {
    seq(|cards|, i requires 0 <= i < |cards| => cards[i] % 13)
  }

  function Suits(cards: seq<Card>): set<int> {
    set c | c in cards :: c / 13
  }

  /** The top rank of a straight, the wheel A-2-3-4-5 counting as five-high; -1 if there is none. */
  function StraightHigh(ranks: seq<int>): int
    requires Falling(ranks)
  {
    HighOf(Uniq(ranks))
  }

  function HighOf(uniq: seq<int>): int {
    if |uniq| == 5 && uniq[0] - uniq[4] == 4 then uniq[0]
    else if |uniq| == 5 && uniq == [12, 3, 2, 1, 0] then 3
    else -1
  }

  function Eval5(cards: seq<Card>): (r: seq<int>)
    requires |cards| == 5
    ensures r != []
  {
    var ranks := SortFalling(RanksOf(cards));
    ShapeOfFive(ranks);
    Grade(ranks, Held(ranks), Shape(ranks), StraightHigh(ranks), |Suits(cards)| == 1)
  }

  /** The tuple for sorted `ranks`, whose values strongest first are `held`, each held `shape` times. */
  function Grade(ranks: seq<int>, held: seq<int>, shape: seq<nat>, high: int, flush: bool): (r: seq<int>)
    requires FiveShape(shape) && |held| == |shape|
    ensures r != []
  {
    if high != -1 && flush then [STRAIGHT_FLUSH, high]
    else if shape[0] == 4 then [QUADS, held[0], held[1]]
    else if shape[0] == 3 && shape[1] == 2 then [FULL_HOUSE, held[0], held[1]]
    else if flush then [FLUSH] + ranks
    else if high != -1 then [STRAIGHT, high]
    else if shape[0] == 3 then [TRIPS, held[0], held[1], held[2]]
    else if shape[0] == 2 && shape[1] == 2 then [TWO_PAIR, held[0], held[1], held[2]]
    else if shape[0] == 2 then [PAIR, held[0], held[1], held[2], held[3]]
    else [HIGH] + ranks
  }

  function SumCounts(s: seq<int>, xs: seq<int>): nat {
    if xs == [] then 0 else Count(s, xs[0]) + SumCounts(s, xs[1..])
  }

  /** The multiplicities of distinct values that cover a sequence add up to its length. */
  lemma {:induction false} CountsCover(s: seq<int>, xs: seq<int>)
    requires forall i, j :: 0 <= i < j < |xs| ==> xs[i] != xs[j]
    requires forall x :: x in s ==> x in xs
    ensures SumCounts(s, xs) == |s|
  {
    if s == [] {
      NoCounts(s, xs);
    } else {
      assert s[0] in s;
      CountsCover(s[1..], xs);
      OneMore(s, xs);
    }
  }

  lemma {:induction false} NoCounts(s: seq<int>, xs: seq<int>)
    requires s == []
    ensures SumCounts(s, xs) == 0
  {
    if xs != [] { NoCounts(s, xs[1..]); }
  }

  lemma {:induction false} OneMore(s: seq<int>, xs: seq<int>)
    requires s != [] && forall i, j :: 0 <= i < j < |xs| ==> xs[i] != xs[j]
    ensures SumCounts(s, xs) == SumCounts(s[1..], xs) + if s[0] in xs then 1 else 0
  {
    if xs != [] {
      OneMore(s, xs[1..]);
      assert xs[0] !in xs[1..];
    }
  }

  /** The ranks of a hand, strongest first, and how often each is held. */
  function Held(ranks: seq<int>): (r: seq<int>)
    requires Falling(ranks)
    ensures |r| == |Uniq(ranks)| && ByStrength(ranks, r)
    ensures forall x :: x in r <==> x in ranks
  {
    SortStrength(ranks, Uniq(ranks))
  }

  function Shape(ranks: seq<int>): (r: seq<nat>)
    requires Falling(ranks)
    ensures |r| == |Held(ranks)| && forall i :: 0 <= i < |r| ==> r[i] == Count(ranks, Held(ranks)[i])
  {
    var held := Held(ranks);
    seq(|held|, i requires 0 <= i < |held| => Count(ranks, held[i]))
  }

  /** The shapes five cards can have: 5, 41, 32, 311, 221, 2111 and 11111. */
  predicate FiveShape(shape: seq<nat>) {
    || (|shape| == 1 && shape[0] == 5)
    || (|shape| == 2 && shape[0] + shape[1] == 5 && 3 <= shape[0] <= 4)
    || (|shape| == 3 && shape[0] + shape[1] == 4 && 2 <= shape[0] <= 3 && shape[2] == 1)
    || (|shape| == 4 && shape[0] == 2 && shape[1] == shape[2] == shape[3] == 1)
    || (|shape| == 5 && shape[0] == shape[1] == shape[2] == shape[3] == shape[4] == 1)
  }

  lemma ShapeOfFive(ranks: seq<int>)
    requires |ranks| == 5 && Falling(ranks)
    ensures FiveShape(Shape(ranks))
  {
    var held := Held(ranks);
    assert ranks[0] in ranks;
    CountsCover(ranks, held);
    var shape := Shape(ranks);
    forall i | 0 <= i < |held| ensures shape[i] >= 1 {
      assert held[i] in held;
    }
    forall i, j | 0 <= i < j < |held| ensures shape[i] >= shape[j] {
      assert Stronger(ranks, held[i], held[j]);
    }
    SumUpToFive(ranks, held);
    FallingPartition(shape);
  }

  lemma FallingPartition(shape: seq<nat>)
    requires 1 <= |shape| <= 5 && forall i :: 0 <= i < |shape| ==> shape[i] >= 1
    requires forall i, j :: 0 <= i < j < |shape| ==> shape[i] >= shape[j]
    requires shape[0] + (if |shape| > 1 then shape[1] else 0) + (if |shape| > 2 then shape[2] else 0)
             + (if |shape| > 3 then shape[3] else 0) + (if |shape| > 4 then shape[4] else 0) == 5
    ensures FiveShape(shape)
  {
  }

  lemma SumUpToFive(s: seq<int>, xs: seq<int>)
    requires |xs| <= 5
    ensures SumCounts(s, xs) == (if |xs| > 0 then Count(s, xs[0]) else 0) + (if |xs| > 1 then Count(s, xs[1]) else 0)
                                + (if |xs| > 2 then Count(s, xs[2]) else 0) + (if |xs| > 3 then Count(s, xs[3]) else 0)
                                + (if |xs| > 4 then Count(s, xs[4]) else 0)
  {
    if |xs| > 0 { assert SumCounts(s, xs) == Count(s, xs[0]) + SumCounts(s, xs[1..]); }
    if |xs| > 1 { assert SumCounts(s, xs[1..]) == Count(s, xs[1]) + SumCounts(s, xs[2..]) by { assert xs[1..][1..] == xs[2..]; } }
    if |xs| > 2 { assert SumCounts(s, xs[2..]) == Count(s, xs[2]) + SumCounts(s, xs[3..]) by { assert xs[2..][1..] == xs[3..]; } }
    if |xs| > 3 { assert SumCounts(s, xs[3..]) == Count(s, xs[3]) + SumCounts(s, xs[4..]) by { assert xs[3..][1..] == xs[4..]; } }
    if |xs| > 4 { assert SumCounts(s, xs[4..]) == Count(s, xs[4]); }
  }

  // ---- the categories, defined from the rules of the game ----

  ghost predicate Kind(cards: seq<Card>, n: nat) {
    exists r :: Count(RanksOf(cards), r) == n
  }

  ghost predicate TwoKinds(cards: seq<Card>, n: nat, m: nat) {
    exists r, q :: r != q && Count(RanksOf(cards), r) == n && Count(RanksOf(cards), q) == m
  }

  ghost predicate AllOneSuit(cards: seq<Card>) {
    forall c, d :: c in cards && d in cards ==> c / 13 == d / 13
  }

  function RankSet(cards: seq<Card>): set<int> {
    set c | c in cards :: c % 13
  }

  /** Five ranks in a row with `h` on top; the ace also plays below the deuce. */
  ghost predicate StraightIn(ranks: set<int>, h: int) {
    {h, h - 1, h - 2, h - 3, h - 4} <= ranks || (h == 3 && {12, 3, 2, 1, 0} <= ranks)
  }

  ghost predicate StraightTo(cards: seq<Card>, h: int) {
    StraightIn(RankSet(cards), h)
  }

  ghost predicate IsStraight(cards: seq<Card>) {
    exists h :: StraightTo(cards, h)
  }

  ghost function Category(cards: seq<Card>): int {
    FirstOf(IsStraight(cards), AllOneSuit(cards), Kind(cards, 4), TwoKinds(cards, 3, 2), Kind(cards, 3),
            TwoKinds(cards, 2, 2), Kind(cards, 2))
  }

  /** The strongest category that applies. */
  function FirstOf(straight: bool, flush: bool, four: bool, full: bool, three: bool, twoPair: bool, pair: bool): int {
    if straight && flush then STRAIGHT_FLUSH
    else if four then QUADS
    else if full then FULL_HOUSE
    else if flush then FLUSH
    else if straight then STRAIGHT
    else if three then TRIPS
    else if twoPair then TWO_PAIR
    else if pair then PAIR
    else HIGH
  }

  lemma KindInShape(cards: seq<Card>, n: nat)
    requires n > 0
    ensures Kind(cards, n) <==> n in Shape(SortFalling(RanksOf(cards)))
  {
    var ranks := SortFalling(RanksOf(cards));
    SortPermutes(RanksOf(cards));
    var held, shape := Held(ranks), Shape(ranks);
    if Kind(cards, n) {
      var r :| Count(RanksOf(cards), r) == n;
      assert Count(ranks, r) == n;
      assert r in ranks && r in held;
      var i :| 0 <= i < |held| && held[i] == r;
      assert shape[i] == n;
    }
    if n in shape {
      var i :| 0 <= i < |shape| && shape[i] == n;
      assert Count(RanksOf(cards), held[i]) == n;
    }
  }

  ghost predicate TwoIn(shape: seq<nat>, n: nat, m: nat) {
    exists i, j :: 0 <= i < |shape| && 0 <= j < |shape| && i != j && shape[i] == n && shape[j] == m
  }

  lemma TwoKindsInShape(cards: seq<Card>, n: nat, m: nat)
    requires n > 0 && m > 0
    ensures TwoKinds(cards, n, m) <==> TwoIn(Shape(SortFalling(RanksOf(cards))), n, m)
  {
    var raw := RanksOf(cards);
    var ranks := SortFalling(raw);
    SortPermutes(raw);
    if TwoKinds(cards, n, m) {
      var r, q :| r != q && Count(raw, r) == n && Count(raw, q) == m;
      HeldTwice(ranks, r, q);
    }
    if TwoIn(Shape(ranks), n, m) {
      var i, j :| 0 <= i < |Shape(ranks)| && 0 <= j < |Shape(ranks)| && i != j && Shape(ranks)[i] == n && Shape(ranks)[j] == m;
      HeldApart(ranks, i, j);
      assert Count(raw, Held(ranks)[i]) == n && Count(raw, Held(ranks)[j]) == m;
    }
  }

  lemma HeldTwice(ranks: seq<int>, r: int, q: int)
    requires Falling(ranks) && r != q && Count(ranks, r) > 0 && Count(ranks, q) > 0
    ensures TwoIn(Shape(ranks), Count(ranks, r), Count(ranks, q))
  {
    var held, shape := Held(ranks), Shape(ranks);
    assert r in held && q in held;
    var i :| 0 <= i < |held| && held[i] == r;
    var j :| 0 <= j < |held| && held[j] == q;
    assert shape[i] == Count(ranks, r) && shape[j] == Count(ranks, q);
  }

  lemma HeldApart(ranks: seq<int>, i: nat, j: nat)
    requires Falling(ranks) && i < |Held(ranks)| && j < |Held(ranks)| && i != j
    ensures Held(ranks)[i] != Held(ranks)[j]
  {
    var held := Held(ranks);
    if i < j { assert Stronger(ranks, held[i], held[j]); } else { assert Stronger(ranks, held[j], held[i]); }
  }

  lemma FlushIsOneSuit(cards: seq<Card>)
    requires cards != []
    ensures AllOneSuit(cards) <==> |Suits(cards)| == 1
  {
    assert cards[0] in cards;
    var s := cards[0] / 13;
    assert s in Suits(cards);
    if AllOneSuit(cards) {
      assert Suits(cards) == {s};
    }
    if |Suits(cards)| == 1 {
      Suits1(Suits(cards), s);
      forall c, d | c in cards && d in cards ensures c / 13 == d / 13 {
        assert c / 13 in Suits(cards) && d / 13 in Suits(cards);
      }
    }
  }

  lemma Suits1(suits: set<int>, s: int)
    requires |suits| == 1 && s in suits
    ensures suits == {s}
  {
    assert |suits - {s}| == 0;
  }

  lemma RanksInUniq(cards: seq<Card>)
    ensures forall r :: r in RankSet(cards) <==> r in Uniq(SortFalling(RanksOf(cards)))
  {
    forall r ensures r in RankSet(cards) <==> r in RanksOf(cards) {
      if r in RankSet(cards) {
        var c :| c in cards && c % 13 == r;
        var i :| 0 <= i < |cards| && cards[i] == c;
        assert RanksOf(cards)[i] == r;
      }
      if r in RanksOf(cards) {
        var i :| 0 <= i < |cards| && RanksOf(cards)[i] == r;
        assert cards[i] in cards;
      }
    }
  }

  /** A strictly falling list of at most five values that holds five given falling values is that list. */
  lemma FiveInFive(u: seq<int>, a: int, b: int, c: int, d: int, e: int)
    requires StrictlyFalling(u) && |u| <= 5 && a > b > c > d > e
    requires a in u && b in u && c in u && d in u && e in u
    ensures u == [a, b, c, d, e]
  {
    var i :| 0 <= i < |u| && u[i] == a;
    var j :| 0 <= j < |u| && u[j] == b;
    var k :| 0 <= k < |u| && u[k] == c;
    var l :| 0 <= l < |u| && u[l] == d;
    var m :| 0 <= m < |u| && u[m] == e;
    assert i < j < k < l < m;
  }

  lemma RowIsHigh(u: seq<int>, k: int)
    requires StrictlyFalling(u) && |u| <= 5 && forall x :: x in u ==> x >= 0
    requires k in u && k - 1 in u && k - 2 in u && k - 3 in u && k - 4 in u
    ensures HighOf(u) == k >= 0
  {
    FiveInFive(u, k, k - 1, k - 2, k - 3, k - 4);
  }

  lemma HighIsRow(u: seq<int>)
    requires StrictlyFalling(u) && HighOf(u) != -1
    ensures var h := HighOf(u);
      (h in u && h - 1 in u && h - 2 in u && h - 3 in u && h - 4 in u)
      || (h == 3 && 12 in u && 3 in u && 2 in u && 1 in u && 0 in u)
  {
    assert u[0] > u[1] > u[2] > u[3] > u[4];
    assert u[0] in u && u[1] in u && u[2] in u && u[3] in u && u[4] in u;
  }

  lemma StraightInHigh(ranks: set<int>, u: seq<int>, k: int)
    requires StrictlyFalling(u) && |u| <= 5 && forall x :: x in u ==> x >= 0
    requires forall r :: r in ranks <==> r in u
    ensures StraightIn(ranks, k) <==> HighOf(u) != -1 && HighOf(u) == k
  {
    if k in u && k - 1 in u && k - 2 in u && k - 3 in u && k - 4 in u {
      RowIsHigh(u, k);
    } else if StraightIn(ranks, k) {
      FiveInFive(u, 12, 3, 2, 1, 0);
    }
    if HighOf(u) != -1 { HighIsRow(u); }
  }

  /** The straight test finds a straight exactly when there is one, and its top card. */
  lemma StraightHighIsTop(cards: seq<Card>)
    requires |cards| == 5
    ensures var h := StraightHigh(SortFalling(RanksOf(cards)));
      forall k :: StraightTo(cards, k) <==> h != -1 && k == h
  {
    var u := Uniq(SortFalling(RanksOf(cards)));
    RanksInUniq(cards);
    forall k ensures StraightTo(cards, k) <==> HighOf(u) != -1 && HighOf(u) == k {
      StraightInHigh(RankSet(cards), u, k);
    }
  }

  lemma StraightIsRight(cards: seq<Card>)
    requires |cards| == 5
    ensures IsStraight(cards) <==> StraightHigh(SortFalling(RanksOf(cards))) != -1
    ensures IsStraight(cards) ==> StraightTo(cards, StraightHigh(SortFalling(RanksOf(cards))))
  {
    var h := StraightHigh(SortFalling(RanksOf(cards)));
    StraightHighIsTop(cards);
    assert h != -1 ==> StraightTo(cards, h);
  }

  lemma ShapeIsRight(cards: seq<Card>)
    requires |cards| == 5
    ensures var shape := Shape(SortFalling(RanksOf(cards)));
      && FiveShape(shape)
      && (Kind(cards, 4) <==> shape[0] == 4)
      && (TwoKinds(cards, 3, 2) <==> shape[0] == 3 && shape[1] == 2)
      && (Kind(cards, 3) <==> shape[0] == 3)
      && (TwoKinds(cards, 2, 2) <==> shape[0] == 2 && shape[1] == 2)
      && (Kind(cards, 2) && shape[0] != 3 <==> shape[0] == 2)
  {
    var ranks := SortFalling(RanksOf(cards));
    ShapeOfFive(ranks);
    ShapeTests(Shape(ranks));
    KindInShape(cards, 4);
    KindInShape(cards, 3);
    KindInShape(cards, 2);
    TwoKindsInShape(cards, 3, 2);
    TwoKindsInShape(cards, 2, 2);
  }

  /** `_eval5` names the category the rules of the game give the hand, and a straight's top card. */
  lemma CategoryIsRight(cards: seq<Card>)
    requires |cards| == 5
    ensures Eval5(cards)[0] == Category(cards)
    ensures Category(cards) == STRAIGHT || Category(cards) == STRAIGHT_FLUSH ==>
      |Eval5(cards)| == 2 && StraightTo(cards, Eval5(cards)[1])
  {
    var ranks := SortFalling(RanksOf(cards));
    ShapeIsRight(cards);
    StraightIsRight(cards);
    FlushIsOneSuit(cards);
    GradeIsFirst(ranks, Held(ranks), Shape(ranks), StraightHigh(ranks), |Suits(cards)| == 1, Kind(cards, 2));
  }

  lemma GradeIsFirst(ranks: seq<int>, held: seq<int>, shape: seq<nat>, high: int, flush: bool, pair: bool)
    requires FiveShape(shape) && |held| == |shape| && (pair && shape[0] != 3 <==> shape[0] == 2)
    ensures var r := Grade(ranks, held, shape, high, flush);
      && r[0] == FirstOf(high != -1, flush, shape[0] == 4, shape[0] == 3 && shape[1] == 2, shape[0] == 3,
                         shape[0] == 2 && shape[1] == 2, pair)
      && (r[0] == STRAIGHT || r[0] == STRAIGHT_FLUSH ==> |r| == 2 && r[1] == high && high != -1)
  {
  }

  lemma ShapeTests(shape: seq<nat>)
    requires FiveShape(shape)
    ensures 4 in shape <==> shape[0] == 4
    ensures TwoIn(shape, 3, 2) <==> shape[0] == 3 && shape[1] == 2
    ensures 3 in shape <==> shape[0] == 3
    ensures TwoIn(shape, 2, 2) <==> shape[0] == 2 && shape[1] == 2
    ensures 2 in shape && shape[0] != 3 <==> shape[0] == 2
  {
    if shape[0] == 3 && shape[1] == 2 { assert shape[0] == 3 && shape[1] == 2; }
    if shape[0] == 2 && shape[1] == 2 { assert shape[0] == 2 && shape[1] == 2; }
  }

  // ---- the order of the cards does not matter, nor do the names of the suits ----

  lemma SuitsOfMultiset(a: seq<Card>, b: seq<Card>)
    requires multiset(a) == multiset(b)
    ensures Suits(a) == Suits(b)
  {
    forall c ensures c in a <==> c in b {
      assert c in a <==> c in multiset(a);
      assert c in b <==> c in multiset(b);
    }
  }

  function Drop(s: seq<Card>, i: nat): (r: seq<Card>)
    requires i < |s|
    ensures |r| == |s| - 1
  {
    s[..i] + s[i + 1..]
  }

  lemma CardOut(s: seq<Card>, i: nat)
    requires i < |s|
    ensures multiset(s) == multiset{s[i]} + multiset(Drop(s, i))
  {
    assert s == s[..i] + [s[i]] + s[i + 1..];
  }

  lemma RankOut(s: seq<Card>, i: nat)
    requires i < |s|
    ensures multiset(RanksOf(s)) == multiset{s[i] % 13} + multiset(RanksOf(Drop(s, i)))
  {
    assert RanksOf(s) == RanksOf(s[..i]) + [s[i] % 13] + RanksOf(s[i + 1..]);
    assert RanksOf(Drop(s, i)) == RanksOf(s[..i]) + RanksOf(s[i + 1..]);
  }

  lemma {:induction false} RanksOfMultiset(a: seq<Card>, b: seq<Card>)
    requires multiset(a) == multiset(b)
    ensures multiset(RanksOf(a)) == multiset(RanksOf(b))
    decreases |a|
  {
    assert |a| == |multiset(a)| == |multiset(b)| == |b|;
    if a == [] {
      assert RanksOf(a) == RanksOf(b);
    } else {
      assert a[0] in multiset(b);
      var i :| 0 <= i < |b| && b[i] == a[0];
      CardOut(a, 0);
      CardOut(b, i);
      assert multiset(Drop(a, 0)) == multiset(a) - multiset{a[0]} == multiset(Drop(b, i));
      RanksOfMultiset(Drop(a, 0), Drop(b, i));
      RankOut(a, 0);
      RankOut(b, i);
    }
  }

  lemma Eval5ForgetsOrder(a: seq<Card>, b: seq<Card>)
    requires |a| == |b| == 5 && multiset(a) == multiset(b)
    ensures Eval5(a) == Eval5(b)
  {
    RanksOfMultiset(a, b);
    SortForgetsOrder(RanksOf(a), RanksOf(b));
    SuitsOfMultiset(a, b);
  }

  ghost predicate SuitNames(names: seq<nat>) {
    |names| == 4 && (forall i :: 0 <= i < 4 ==> names[i] < 4) && forall i, j :: 0 <= i < j < 4 ==> names[i] != names[j]
  }

  function Rename(c: Card, names: seq<nat>): (r: Card)
    requires |names| == 4 && forall i :: 0 <= i < 4 ==> names[i] < 4
    ensures r % 13 == c % 13 && r / 13 == names[c / 13]
  {
    names[c / 13] * 13 + c % 13
  }

  function RenameAll(cards: seq<Card>, names: seq<nat>): (r: seq<Card>)
    requires |names| == 4 && forall i :: 0 <= i < 4 ==> names[i] < 4
    ensures |r| == |cards| && forall i :: 0 <= i < |r| ==> r[i] == Rename(cards[i], names)
  {
    seq(|cards|, i requires 0 <= i < |cards| => Rename(cards[i], names))
  }

  lemma Eval5ForgetsSuitNames(cards: seq<Card>, names: seq<nat>)
    requires |cards| == 5 && SuitNames(names)
    ensures Eval5(RenameAll(cards, names)) == Eval5(cards)
  {
    var renamed := RenameAll(cards, names);
    assert RanksOf(renamed) == RanksOf(cards);
    FlushIsOneSuit(cards);
    FlushIsOneSuit(renamed);
    assert forall i, j :: 0 <= i < 5 && 0 <= j < 5 ==>
        (cards[i] / 13 == cards[j] / 13 <==> renamed[i] / 13 == renamed[j] / 13);
    assert forall i :: 0 <= i < 5 ==> cards[i] in cards && renamed[i] in renamed;
    assert AllOneSuit(cards) <==> AllOneSuit(renamed);
  }

  // ---- best five of up to seven ----

  function Prepend(c: Card, css: seq<seq<Card>>): (r: seq<seq<Card>>)
    ensures |r| == |css| && forall i :: 0 <= i < |r| ==> r[i] == [c] + css[i]
  {
    seq(|css|, i requires 0 <= i < |css| => [c] + css[i])
  }

  /** All ways to pick `k` of the cards, in the order of itertools.combinations. */
  function Combinations(cards: seq<Card>, k: nat): (r: seq<seq<Card>>)
    ensures forall i :: 0 <= i < |r| ==> |r[i]| == k
    ensures k <= |cards| ==> r != []
  {
    if k == 0 then [[]]
    else if |cards| < k then []
    else Prepend(cards[0], Combinations(cards[1..], k - 1)) + Combinations(cards[1..], k)
  }

  ghost predicate Attained(hands: seq<seq<Card>>, r: seq<int>) {
    exists i :: 0 <= i < |hands| && |hands[i]| == 5 && Eval5(hands[i]) == r
  }

  function BestOf(hands: seq<seq<Card>>): (r: seq<int>)
    requires hands != [] && forall i :: 0 <= i < |hands| ==> |hands[i]| == 5
    ensures Attained(hands, r)
  {
    if |hands| == 1 then assert |hands[0]| == 5; Eval5(hands[0])
    else
      var rest := BestOf(hands[1..]);
      var first := Eval5(hands[0]);
      var r := Lex.Max(first, rest);
      assert Attained(hands, r) by { AttainedStep(hands, rest); }
      r
  }

  lemma AttainedStep(hands: seq<seq<Card>>, rest: seq<int>)
    requires hands != [] && |hands[0]| == 5 && Attained(hands[1..], rest)
    ensures Attained(hands, rest) && Attained(hands, Eval5(hands[0]))
  {
    var i :| 0 <= i < |hands[1..]| && |hands[1..][i]| == 5 && Eval5(hands[1..][i]) == rest;
    assert hands[i + 1] == hands[1..][i];
  }

  function Evaluate7(cards: seq<Card>): seq<int> {
    if |cards| < 5 then [HIGH] + SortFalling(RanksOf(cards))
    else BestOf(Combinations(cards, 5))
  }

  ghost predicate Bounded(hands: seq<seq<Card>>, top: seq<int>) {
    forall i :: 0 <= i < |hands| && |hands[i]| == 5 ==> Lex.AtMost(Eval5(hands[i]), top)
  }

  lemma {:induction false} BestOfIsBest(hands: seq<seq<Card>>)
    requires hands != [] && forall i :: 0 <= i < |hands| ==> |hands[i]| == 5
    ensures Bounded(hands, BestOf(hands))
    decreases |hands|
  {
    assert |hands[0]| == 5;
    Lex.Trichotomy(Eval5(hands[0]), Eval5(hands[0]));
    if |hands| > 1 {
      BestOfIsBest(hands[1..]);
      BoundedStep(hands, BestOf(hands[1..]));
    }
  }

  lemma BoundedStep(hands: seq<seq<Card>>, rest: seq<int>)
    requires hands != [] && |hands[0]| == 5 && Bounded(hands[1..], rest)
    ensures Bounded(hands, Lex.Max(Eval5(hands[0]), rest))
  {
    var first := Eval5(hands[0]);
    var top := Lex.Max(first, rest);
    Lex.Trichotomy(first, rest);
    Lex.Trichotomy(rest, rest);
    Lex.Trichotomy(first, first);
    forall i | 0 <= i < |hands| && |hands[i]| == 5 ensures Lex.AtMost(Eval5(hands[i]), top) {
      if i > 0 {
        assert hands[1..][i - 1] == hands[i];
        Lex.Transitive(Eval5(hands[i]), rest, top);
      }
    }
  }

  /** `c` is one of the picks of `k` cards. */
  ghost predicate Picked(cards: seq<Card>, k: nat, c: seq<Card>) {
    c in Combinations(cards, k)
  }

  lemma CombinationCases(cards: seq<Card>, k: nat, c: seq<Card>)
    requires Picked(cards, k, c) && k > 0
    ensures cards != []
    ensures (c != [] && c[0] == cards[0] && Picked(cards[1..], k - 1, c[1..])) || Picked(cards[1..], k, c)
  {
    var with := Combinations(cards[1..], k - 1);
    if c in Prepend(cards[0], with) {
      var i :| 0 <= i < |with| && c == [cards[0]] + with[i];
      assert c[1..] == with[i];
    }
  }

  lemma CombinationWith(cards: seq<Card>, k: nat, c: seq<Card>)
    requires k > 0 && |cards| >= k && Picked(cards[1..], k - 1, c)
    ensures Picked(cards, k, [cards[0]] + c)
  {
    var with := Combinations(cards[1..], k - 1);
    var i :| 0 <= i < |with| && with[i] == c;
    assert Prepend(cards[0], with)[i] == [cards[0]] + c;
  }

  lemma CombinationWithout(cards: seq<Card>, k: nat, c: seq<Card>)
    requires cards != [] && k > 0 && Picked(cards[1..], k, c)
    ensures Picked(cards, k, c)
  {
  }

  lemma {:induction false} CombinationsAreParts(cards: seq<Card>, k: nat, c: seq<Card>)
    requires Picked(cards, k, c)
    ensures multiset(c) <= multiset(cards)
    decreases |cards|
  {
    if k > 0 {
      CombinationCases(cards, k, c);
      if c != [] && c[0] == cards[0] && Picked(cards[1..], k - 1, c[1..]) {
        CombinationsAreParts(cards[1..], k - 1, c[1..]);
        PutFirst(cards, c);
      } else {
        CombinationsAreParts(cards[1..], k, c);
        FirstAndRest(cards);
      }
    }
  }

  lemma FirstAndRest(cards: seq<Card>)
    requires cards != []
    ensures multiset(cards) == multiset{cards[0]} + multiset(cards[1..])
  {
    assert cards == [cards[0]] + cards[1..];
  }

  lemma PutFirst(cards: seq<Card>, c: seq<Card>)
    requires cards != [] && c != [] && c[0] == cards[0] && multiset(c[1..]) <= multiset(cards[1..])
    ensures multiset(c) <= multiset(cards)
  {
    FirstAndRest(cards);
    FirstAndRest(c);
  }

  /** Every part of the cards of size `k` is picked, up to order. */
  lemma {:induction false} PartsAreCombinations(cards: seq<Card>, k: nat, part: multiset<Card>) returns (c: seq<Card>)
    requires part <= multiset(cards) && |part| == k
    ensures Picked(cards, k, c) && multiset(c) == part
    decreases |cards|
  {
    if k == 0 {
      c := [];
      assert part == multiset{};
    } else {
      PartSize(part, multiset(cards));
      TakeFirst(cards, part);
      if cards[0] in part {
        c := PartsAreCombinations(cards[1..], k - 1, part - multiset{cards[0]});
        CombinationWith(cards, k, c);
        PutBack(part, cards[0], c);
        c := [cards[0]] + c;
      } else {
        c := PartsAreCombinations(cards[1..], k, part);
        CombinationWithout(cards, k, c);
      }
    }
  }

  lemma PutBack(part: multiset<Card>, first: Card, c: seq<Card>)
    requires first in part && multiset(c) == part - multiset{first}
    ensures multiset([first] + c) == part
  {
    assert part == multiset{first} + (part - multiset{first});
  }

  lemma TakeFirst(cards: seq<Card>, part: multiset<Card>)
    requires cards != [] && part <= multiset(cards)
    ensures cards[0] in part ==>
      part - multiset{cards[0]} <= multiset(cards[1..]) && |part - multiset{cards[0]}| == |part| - 1
    ensures cards[0] !in part ==> part <= multiset(cards[1..])
  {
    FirstAndRest(cards);
    if cards[0] in part {
      assert part == (part - multiset{cards[0]}) + multiset{cards[0]};
    }
  }

  lemma PartSize(part: multiset<Card>, whole: multiset<Card>)
    requires part <= whole
    ensures |part| <= |whole|
  {
    assert whole == part + (whole - part);
  }

  ghost predicate FiveOf(cards: seq<Card>, c: seq<Card>) {
    |c| == 5 && multiset(c) <= multiset(cards)
  }

  lemma EvaluateIsSomeFive(cards: seq<Card>) returns (c: seq<Card>)
    requires |cards| >= 5
    ensures FiveOf(cards, c) && Eval5(c) == Evaluate7(cards)
  {
    var all := Combinations(cards, 5);
    assert Attained(all, BestOf(all));
    var w :| 0 <= w < |all| && |all[w]| == 5 && Eval5(all[w]) == BestOf(all);
    c := all[w];
    assert Picked(cards, 5, c);
    CombinationsAreParts(cards, 5, c);
  }

  lemma NoFiveBeats(cards: seq<Card>, c: seq<Card>)
    requires |cards| >= 5 && FiveOf(cards, c)
    ensures Lex.AtMost(Eval5(c), Evaluate7(cards))
  {
    var all := Combinations(cards, 5);
    assert |multiset(c)| == 5;
    var d := PartsAreCombinations(cards, 5, multiset(c));
    assert |d| == |multiset(d)|;
    Eval5ForgetsOrder(c, d);
    BestOfIsBest(all);
    var i :| 0 <= i < |all| && all[i] == d;
  }

  /** `evaluate7` returns the value of some five of the cards, and no other five of them beat it. */
  lemma EvaluateIsBestFive(cards: seq<Card>)
    requires |cards| >= 5
    ensures exists c :: FiveOf(cards, c) && Eval5(c) == Evaluate7(cards)
    ensures forall c :: FiveOf(cards, c) ==> Lex.AtMost(Eval5(c), Evaluate7(cards))
  {
    var w := EvaluateIsSomeFive(cards);
    forall c | FiveOf(cards, c) ensures Lex.AtMost(Eval5(c), Evaluate7(cards)) {
      NoFiveBeats(cards, c);
    }
  }

  /** From five cards on, more of them never make a hand worse. */
  lemma EvaluateGrows(fewer: seq<Card>, more: seq<Card>)
    requires |fewer| >= 5 && multiset(fewer) <= multiset(more)
    ensures |more| >= 5 && Lex.AtMost(Evaluate7(fewer), Evaluate7(more))
  {
    PartSize(multiset(fewer), multiset(more));
    var c := EvaluateIsSomeFive(fewer);
    NoFiveBeats(more, c);
  }

  lemma EvaluateForgetsOrder(a: seq<Card>, b: seq<Card>)
    requires multiset(a) == multiset(b)
    ensures Evaluate7(a) == Evaluate7(b)
  {
    assert |a| == |multiset(a)| == |multiset(b)| == |b|;
    if |a| < 5 {
      RanksOfMultiset(a, b);
      SortForgetsOrder(RanksOf(a), RanksOf(b));
    } else {
      EvaluateGrows(a, b);
      EvaluateGrows(b, a);
      Lex.Trichotomy(Evaluate7(a), Evaluate7(b));
    }
  }

  function RenameEach(hands: seq<seq<Card>>, names: seq<nat>): (r: seq<seq<Card>>)
    requires |names| == 4 && forall i :: 0 <= i < 4 ==> names[i] < 4
    ensures |r| == |hands| && forall i :: 0 <= i < |r| ==> r[i] == RenameAll(hands[i], names)
  {
    seq(|hands|, i requires 0 <= i < |hands| => RenameAll(hands[i], names))
  }

  lemma {:induction false} CombinationsRename(cards: seq<Card>, k: nat, names: seq<nat>)
    requires SuitNames(names)
    ensures Combinations(RenameAll(cards, names), k) == RenameEach(Combinations(cards, k), names)
    decreases |cards|
  {
    if k == 0 {
      assert RenameAll([], names) == [];
    } else if |cards| >= k {
      CombinationsRename(cards[1..], k - 1, names);
      CombinationsRename(cards[1..], k, names);
      var renamed := RenameAll(cards, names);
      assert renamed[1..] == RenameAll(cards[1..], names);
      var with, without := Combinations(cards[1..], k - 1), Combinations(cards[1..], k);
      CombinationsUnfold(cards, k);
      CombinationsUnfold(renamed, k);
      PrependRename(cards[0], with, names);
      RenameSplits(Prepend(cards[0], with), without, names);
    }
  }

  lemma CombinationsUnfold(cards: seq<Card>, k: nat)
    requires 0 < k <= |cards|
    ensures Combinations(cards, k) == Prepend(cards[0], Combinations(cards[1..], k - 1)) + Combinations(cards[1..], k)
  {
  }

  lemma RenameSplits(a: seq<seq<Card>>, b: seq<seq<Card>>, names: seq<nat>)
    requires SuitNames(names)
    ensures RenameEach(a + b, names) == RenameEach(a, names) + RenameEach(b, names)
  {
  }

  lemma PrependRename(c: Card, hands: seq<seq<Card>>, names: seq<nat>)
    requires SuitNames(names)
    ensures Prepend(Rename(c, names), RenameEach(hands, names)) == RenameEach(Prepend(c, hands), names)
  {
    forall i | 0 <= i < |hands|
      ensures [Rename(c, names)] + RenameAll(hands[i], names) == RenameAll([c] + hands[i], names)
    {
    }
  }

  ghost predicate Fives(hands: seq<seq<Card>>) {
    hands != [] && forall i :: 0 <= i < |hands| ==> |hands[i]| == 5
  }

  lemma BestOfIs(hands: seq<seq<Card>>)
    requires Fives(hands)
    ensures |hands[0]| == 5
    ensures |hands| > 1 ==> Fives(hands[1..])
    ensures BestOf(hands) == if |hands| == 1 then Eval5(hands[0]) else Lex.Max(Eval5(hands[0]), BestOf(hands[1..]))
  {
    hide Eval5, Attained;
  }

  lemma RenameFirst(hands: seq<seq<Card>>, names: seq<nat>)
    requires SuitNames(names) && Fives(hands)
    ensures var r := RenameEach(hands, names);
      && Fives(r) && |r| == |hands| && r[0] == RenameAll(hands[0], names)
      && (|hands| > 1 ==> r[1..] == RenameEach(hands[1..], names))
  {
  }

  lemma {:induction false} BestOfRename(hands: seq<seq<Card>>, names: seq<nat>)
    requires SuitNames(names) && Fives(hands)
    ensures Fives(RenameEach(hands, names)) && BestOf(RenameEach(hands, names)) == BestOf(hands)
  {
    assert |names| == 4 && forall i :: 0 <= i < 4 ==> names[i] < 4;
    hide Eval5, SuitNames, BestOf, RenameEach, RenameAll, Fives, Lex.Max;
    RenameFirst(hands, names);
    BestOfIs(hands);
    BestOfIs(RenameEach(hands, names));
    Eval5ForgetsSuitNames(hands[0], names);
    if |hands| > 1 { BestOfRename(hands[1..], names); }
  }

  lemma EvaluateForgetsSuitNames(cards: seq<Card>, names: seq<nat>)
    requires SuitNames(names)
    ensures Evaluate7(RenameAll(cards, names)) == Evaluate7(cards)
  {
    var renamed := RenameAll(cards, names);
    if |cards| < 5 {
      assert RanksOf(renamed) == RanksOf(cards);
    } else {
      CombinationsRename(cards, 5, names);
      BestOfRename(Combinations(cards, 5), names);
    }
  }

  // ---- the tie-breakers of a hand without a straight ----

  lemma {:induction false} SameMembers(a: seq<int>, b: seq<int>)
    requires StrictlyFalling(a) && StrictlyFalling(b) && forall x :: x in a <==> x in b
    ensures a == b
  {
    if a != [] {
      assert a[0] in a && a[0] in b;
    }
    if b != [] {
      assert b[0] in b && b[0] in a;
      assert a[0] == b[0];
      forall x ensures x in a[1..] <==> x in b[1..] {
        if x in a[1..] { assert x in a && x != a[0]; }
        if x in b[1..] { assert x in b && x != b[0]; }
      }
      SameMembers(a[1..], b[1..]);
      Rejoin(a, b);
    }
  }

  lemma {:induction false} AllDistinct(s: seq<int>)
    requires Falling(s) && |Uniq(s)| == |s|
    ensures Uniq(s) == s
  {
    if |s| > 1 { AllDistinct(s[1..]); }
  }

  ghost predicate DistinctCards(cards: seq<Card>) {
    forall i, j :: 0 <= i < j < |cards| ==> cards[i] != cards[j]
  }

  /** Five different ranks are held in the order they are sorted in. */
  lemma FiveRanks(ranks: seq<int>)
    requires |ranks| == 5 && Falling(ranks) && FiveShape(Shape(ranks)) && Shape(ranks)[0] == 1
    ensures Held(ranks) == ranks
  {
    var held, shape := Held(ranks), Shape(ranks);
    forall i, j | 0 <= i < j < |held| ensures held[i] > held[j] {
      assert Stronger(ranks, held[i], held[j]);
      assert shape[i] == shape[j] == 1;
    }
    SameMembers(held, Uniq(ranks));
    AllDistinct(ranks);
  }

  /** Five different cards do not share a rank, and those of one suit do not even pair up. */
  lemma NoFiveOfAKind(cards: seq<Card>)
    requires |cards| == 5 && DistinctCards(cards)
    ensures var shape := Shape(SortFalling(RanksOf(cards)));
      FiveShape(shape) && shape[0] != 5 && (|Suits(cards)| == 1 ==> shape[0] == 1)
  {
    var ranks := SortFalling(RanksOf(cards));
    ShapeOfFive(ranks);
    AtMostFour(cards, Held(ranks)[0]);
    FlushIsOneSuit(cards);
    if |Suits(cards)| == 1 { AtMostOne(cards, Held(ranks)[0]); }
  }

  lemma CountOfFive(s: seq<int>, x: int)
    requires |s| == 5
    ensures Count(s, x) == (if s[0] == x then 1 else 0) + (if s[1] == x then 1 else 0) + (if s[2] == x then 1 else 0)
                           + (if s[3] == x then 1 else 0) + (if s[4] == x then 1 else 0)
  {
    assert s[1..][1..] == s[2..] && s[2..][1..] == s[3..] && s[3..][1..] == s[4..] && s[4..][1..] == [];
    assert Count(s[3..], x) == (if s[3] == x then 1 else 0) + Count(s[4..], x);
    assert Count(s[1..], x) == (if s[1] == x then 1 else 0) + Count(s[2..], x);
  }

  lemma FourSuits(a: Card, b: Card, c: Card, d: Card, e: Card)
    requires a % 13 == b % 13 == c % 13 == d % 13 == e % 13
    ensures a == b || a == c || a == d || a == e || b == c || b == d || b == e || c == d || c == e || d == e
  {
    FourValues(a / 13, b / 13, c / 13, d / 13, e / 13);
  }

  lemma FourValues(a: nat, b: nat, c: nat, d: nat, e: nat)
    requires a < 4 && b < 4 && c < 4 && d < 4 && e < 4
    ensures a == b || a == c || a == d || a == e || b == c || b == d || b == e || c == d || c == e || d == e
  {
  }

  lemma AtMostFour(cards: seq<Card>, x: int)
    requires |cards| == 5 && DistinctCards(cards)
    ensures Count(SortFalling(RanksOf(cards)), x) <= 4
  {
    var raw := RanksOf(cards);
    SortPermutes(raw);
    assert Count(SortFalling(raw), x) == Count(raw, x);
    CountOfFive(raw, x);
    if raw[0] == raw[1] == raw[2] == raw[3] == raw[4] {
      FourSuits(cards[0], cards[1], cards[2], cards[3], cards[4]);
      assert false;
    }
  }

  lemma AtMostOne(cards: seq<Card>, x: int)
    requires |cards| == 5 && DistinctCards(cards) && AllOneSuit(cards)
    ensures Count(SortFalling(RanksOf(cards)), x) <= 1
  {
    var raw := RanksOf(cards);
    SortPermutes(raw);
    assert Count(SortFalling(raw), x) == Count(raw, x);
    CountOfFive(raw, x);
    forall i, j | 0 <= i < j < 5 ensures raw[i] != raw[j] {
      assert cards[i] in cards && cards[j] in cards;
      assert cards[i] == 13 * (cards[i] / 13) + raw[i] && cards[j] == 13 * (cards[j] / 13) + raw[j];
    }
  }

  /** Without a straight, the tie-breakers of five different cards are their ranks, most often held first,
      then highest first. */
  lemma TieBreakersByStrength(cards: seq<Card>)
    requires |cards| == 5 && DistinctCards(cards) && !IsStraight(cards)
    ensures Eval5(cards) == [Category(cards)] + Held(SortFalling(RanksOf(cards)))
  {
    var ranks := SortFalling(RanksOf(cards));
    var held, shape := Held(ranks), Shape(ranks);
    NoFiveOfAKind(cards);
    CategoryIsRight(cards);
    StraightIsRight(cards);
    if shape[0] == 1 { FiveRanks(ranks); }
    GradeByStrength(ranks, held, shape, |Suits(cards)| == 1);
  }

  lemma GradeByStrength(ranks: seq<int>, held: seq<int>, shape: seq<nat>, flush: bool)
    requires FiveShape(shape) && |held| == |shape|
    requires flush || shape[0] == 1 || shape[0] == 5 ==> held == ranks && |held| == 5
    ensures var r := Grade(ranks, held, shape, -1, flush); r == [r[0]] + held
  {
  }
}
