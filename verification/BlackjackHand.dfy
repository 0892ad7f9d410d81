/** The value of a blackjack hand (botframework/blackjack_game.py). */
module BlackjackHand {

  import opened PlayingCards

  /** Ranks run from ace to king. */
  predicate IsAce(c: Card) { c % 13 == 0 }

  /** An ace counts 11 to start with. */
  function CardValue(c: Card): nat {
    var r := c % 13;
    if r == 0 then 11 else if r >= 9 then 10 else r + 1
  }

  /** The ranks of the source, in its order. */
  const RANKS: string := "A23456789TJQK"

  /** By name: an ace counts 11, a ten or a court card 10, and a number itself. */
  lemma CardValueByName(c: Card)
    ensures var name := RANKS[c % 13];
      && (IsAce(c) <==> name == 'A')
      && CardValue(c) == if name == 'A' then 11 else if name in "TJQK" then 10 else name as int - '0' as int
  {
    var r := c % 13;
    assert "TJQK"[0] == 'T' && "TJQK"[1] == 'J' && "TJQK"[2] == 'Q' && "TJQK"[3] == 'K';
  }

  function FaceTotal(hand: seq<Card>): nat {
    if hand == [] then 0 else CardValue(hand[0]) + FaceTotal(hand[1..])
  }

  function Aces(hand: seq<Card>): (n: nat)
    ensures n <= |hand|
  {
    if hand == [] then 0 else (if IsAce(hand[0]) then 1 else 0) + Aces(hand[1..])
  }

  function Demoted(total: int, aces: nat): int {
    if total > 21 && aces > 0 then Demoted(total - 10, aces - 1) else total
  }

  function HandValue(hand: seq<Card>): int {
    Demoted(FaceTotal(hand), Aces(hand))
  }

  predicate IsBlackjack(hand: seq<Card>) {
    |hand| == 2 && HandValue(hand) == 21
  }

  /** The source's loop. */
  method ComputeHandValue(hand: seq<Card>) returns (total: int)
    ensures total == HandValue(hand)
  {
    total := FaceTotal(hand);
    var aces: int := Aces(hand);
    while total > 21 && aces > 0
      invariant aces >= 0 && Demoted(total, aces) == HandValue(hand)
    {
      total := total - 10;
      aces := aces - 1;
    }
  }

  // ---- every way of counting the aces ----

  /** The total when exactly the aces marked in `high` count 11. */
  function CountedAs(hand: seq<Card>, high: seq<bool>): nat
    requires |high| == |hand|
  {
    if hand == [] then 0
    else (if IsAce(hand[0]) && !high[0] then 1 else CardValue(hand[0])) + CountedAs(hand[1..], high[1..])
  }

  /** Some way of counting each ace as 1 or 11 gives `t`. */
  ghost predicate CanCount(hand: seq<Card>, t: int) {
    exists high: seq<bool> :: |high| == |hand| && CountedAs(hand, high) == t
  }

  /** With every ace counted 1. */
  function Hard(hand: seq<Card>): nat {
    if hand == [] then 0 else (if IsAce(hand[0]) then 1 else CardValue(hand[0])) + Hard(hand[1..])
  }

  lemma {:induction false} TotalIsHardPlusAces(hand: seq<Card>)
    ensures FaceTotal(hand) == Hard(hand) + 10 * Aces(hand)
  {
    if hand != [] { TotalIsHardPlusAces(hand[1..]); }
  }

  /** Each ace moved up adds ten. */
  lemma {:induction false} CountedIsHardPlusTens(hand: seq<Card>, high: seq<bool>) returns (j: nat)
    requires |high| == |hand|
    ensures j <= Aces(hand) && CountedAs(hand, high) == Hard(hand) + 10 * j
  {
    if hand == [] {
      j := 0;
    } else {
      j := CountedIsHardPlusTens(hand[1..], high[1..]);
      if IsAce(hand[0]) && high[0] { j := j + 1; }
    }
  }

  lemma {:induction false} TensCanBeCounted(hand: seq<Card>, j: nat) returns (high: seq<bool>)
    requires j <= Aces(hand)
    ensures |high| == |hand| && CountedAs(hand, high) == Hard(hand) + 10 * j
  {
    if hand == [] {
      high := [];
    } else if IsAce(hand[0]) && j > 0 {
      var rest := TensCanBeCounted(hand[1..], j - 1);
      high := [true] + rest;
    } else {
      var rest := TensCanBeCounted(hand[1..], j);
      high := [false] + rest;
    }
  }

  lemma {:induction false} DemotedIs(hard: nat, aces: nat, j: nat) returns (k: nat)
    requires j <= aces
    ensures k <= j && Demoted(hard + 10 * j, j) == hard + 10 * k
    ensures hard + 10 * k <= 21 || k == 0
    ensures k < j ==> hard + 10 * (k + 1) > 21
    decreases j
  {
    if hard + 10 * j > 21 && j > 0 {
      k := DemotedIs(hard, aces, j - 1);
      assert Demoted(hard + 10 * j, j) == Demoted(hard + 10 * (j - 1), j - 1);
    } else {
      k := j;
    }
  }

  /** The value is one of the ways of counting; it is the largest one not above 21, or the smallest of all if every
      way is above 21. */
  lemma HandValueIsBest(hand: seq<Card>)
    ensures CanCount(hand, HandValue(hand))
    ensures forall t :: CanCount(hand, t) && t <= 21 ==> t <= HandValue(hand) <= 21
    ensures HandValue(hand) > 21 ==> forall t :: CanCount(hand, t) ==> HandValue(hand) <= t
  {
    TotalIsHardPlusAces(hand);
    var k := DemotedIs(Hard(hand), Aces(hand), Aces(hand));
    var high := TensCanBeCounted(hand, k);
    assert CountedAs(hand, high) == HandValue(hand);
    forall t | CanCount(hand, t)
      ensures if t <= 21 then t <= HandValue(hand) <= 21 else HandValue(hand) > 21 ==> HandValue(hand) <= t
    {
      var h :| |h| == |hand| && CountedAs(hand, h) == t;
      var j := CountedIsHardPlusTens(hand, h);
    }
  }

  /** A hand is over 21 exactly when it is with every ace counted 1. */
  lemma BustIsHard(hand: seq<Card>)
    ensures HandValue(hand) > 21 <==> Hard(hand) > 21
    ensures Hard(hand) <= HandValue(hand) && (HandValue(hand) > 21 ==> HandValue(hand) == Hard(hand))
  {
    TotalIsHardPlusAces(hand);
    var k := DemotedIs(Hard(hand), Aces(hand), Aces(hand));
  }

  // ---- the cards of a deck ----

  lemma {:induction false} HardConcat(a: seq<Card>, b: seq<Card>)
    ensures Hard(a + b) == Hard(a) + Hard(b)
  {
    if a == [] {
      assert a + b == b;
    } else {
      assert (a + b)[1..] == a[1..] + b;
      HardConcat(a[1..], b);
    }
  }

  lemma HardLast(s: seq<Card>)
    requires s != []
    ensures Hard(s) == Hard(s[..|s| - 1]) + Hard([s[|s| - 1]]) && 1 <= Hard([s[|s| - 1]]) <= 10
  {
    assert s == s[..|s| - 1] + [s[|s| - 1]];
    HardConcat(s[..|s| - 1], [s[|s| - 1]]);
  }

  /** The order of the cards does not matter to the sum. */
  lemma {:induction false} HardOfShuffle(a: seq<Card>, b: seq<Card>)
    requires multiset(a) == multiset(b)
    ensures Hard(a) == Hard(b)
  {
    if a == [] {
      assert |multiset(b)| == 0;
    } else {
      assert a[0] in multiset(b);
      var i :| 0 <= i < |b| && b[i] == a[0];
      TakeOut(b, i);
      assert a == [a[0]] + a[1..];
      HardConcat([a[0]], a[1..]);
      hide Hard;
      HardOfShuffle(a[1..], b[..i] + b[i + 1..]);
    }
  }

  lemma TakeOut(b: seq<Card>, i: nat)
    requires i < |b|
    ensures var rest := b[..i] + b[i + 1..];
      Hard(b) == Hard([b[i]]) + Hard(rest) && multiset(rest) == multiset(b) - multiset{b[i]}
  {
    hide Hard;
    assert b == b[..i] + [b[i]] + b[i + 1..];
    HardConcat(b[..i] + [b[i]], b[i + 1..]);
    HardConcat(b[..i], [b[i]]);
    HardConcat(b[..i], b[i + 1..]);
  }

  /** The hard total of the first `r` ranks. */
  function RanksSum(r: nat): nat
    requires r <= 13
  {
    if r == 0 then 0 else RanksSum(r - 1) + if r >= 10 then 10 else r
  }

  lemma AllRanks()
    ensures RanksSum(13) == 85
  {
    assert RanksSum(4) == 10;
    assert RanksSum(8) == 36;
    assert RanksSum(11) == 65;
  }

  lemma {:induction false} DeckPrefix(k: nat)
    requires k <= 52
    ensures Hard(Pack()[..k]) == 85 * (k / 13) + RanksSum(k % 13)
  {
    hide RanksSum;
    if k == 0 {
      RanksStart();
      assert Pack()[..0] == [];
    } else {
      var s := Pack()[..k];
      DeckPrefix(k - 1);
      HardLast(s);
      assert s[..k - 1] == Pack()[..k - 1] && s[k - 1] == k - 1;
      NextRank(k - 1);
    }
  }

  lemma RanksStart()
    ensures RanksSum(0) == 0
  {
  }

  lemma NextRank(c: Card)
    ensures 85 * ((c + 1) / 13) + RanksSum((c + 1) % 13) == 85 * (c / 13) + RanksSum(c % 13) + Hard([c])
  {
    AllRanks();
    RanksStart();
    NextMod(c);
    var r := c % 13;
    assert RanksSum(r + 1) == RanksSum(r) + if r + 1 >= 10 then 10 else r + 1;
    assert Hard([c]) == if r == 0 then 1 else if r >= 9 then 10 else r + 1;
    hide RanksSum, Hard;
  }

  lemma NextMod(c: nat)
    ensures (c + 1) % 13 == if c % 13 == 12 then 0 else c % 13 + 1
    ensures (c + 1) / 13 == if c % 13 == 12 then c / 13 + 1 else c / 13
  {
  }

  /** The whole deck counts 340 with its aces as 1. */
  lemma DeckTotal(deck: seq<Card>)
    requires multiset(deck) == multiset(Pack())
    ensures Hard(deck) == 340
  {
    hide Hard, RanksSum;
    DeckPrefix(52);
    RanksStart();
    assert Pack()[..52] == Pack();
    HardOfShuffle(deck, Pack());
  }
}
