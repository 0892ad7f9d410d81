/** Whose turn comes next around a table: seats are the positions 0..n-1 of a ring. */
module Ring {

  /** The seat `k` places clockwise of seat `i`. */
  function Seat(i: nat, k: nat, n: nat): (r: nat)
    requires i < n && k <= n
    ensures r < n && r == if i + k < n then i + k else i + k - n
  {
    OneTurn(i + k, n);
    (i + k) % n
  }

  lemma OneTurn(x: nat, n: nat)
    requires 0 < n && x < 2 * n
    ensures x % n == if x < n then x else x - n
  {
    if x >= n { assert x / n == 1; }
  }

  /** The clockwise distance from seat `i` of the first marked seat at distance `k` or more; n + 1 if none. */
  function Search(mark: seq<bool>, i: nat, k: nat): (d: nat)
    requires i < |mark| && k <= |mark| + 1
    ensures k <= d <= |mark| + 1
    ensures d <= |mark| ==> mark[Seat(i, d, |mark|)]
    ensures forall j :: k <= j < d && j <= |mark| ==> !mark[Seat(i, j, |mark|)]
    decreases |mark| + 1 - k
  {
    if k > |mark| then k
    else if mark[Seat(i, k, |mark|)] then k
    else Search(mark, i, k + 1)
  }

  /** The first marked seat strictly clockwise of `i` (a full turn reaches `i` itself). */
  function Next(mark: seq<bool>, i: nat): (b: nat)
    requires i < |mark| && exists j :: 0 <= j < |mark| && mark[j]
    ensures b < |mark| && mark[b]
  {
    var d := Search(mark, i, 1);
    NextExists(mark, i);
    Seat(i, d, |mark|)
  }

  lemma NextExists(mark: seq<bool>, i: nat)
    requires i < |mark| && exists j :: 0 <= j < |mark| && mark[j]
    ensures Search(mark, i, 1) <= |mark|
  {
    var j :| 0 <= j < |mark| && mark[j];
    var k := if j > i then j - i else j + |mark| - i;
    assert Seat(i, k, |mark|) == j;
  }

  /** Seat `a` is due to act: it is able and has not acted, and the able seats that have acted form one
      unbroken clockwise run (skipping unable seats) that ends just before `a`. */
  ghost predicate Due(able: seq<bool>, acted: seq<bool>, a: nat) {
    && |able| == |acted| && a < |able|
    && able[a] && !acted[a]
    && forall j, k :: 0 <= j < k < |able|
         && able[Seat(a, j, |able|)] && acted[Seat(a, j, |able|)] && able[Seat(a, k, |able|)]
         ==> acted[Seat(a, k, |able|)]
  }

  /** A seat that acts without re-opening the round hands the turn to the next seat still due. */
  lemma ActingPassesTheTurn(able: seq<bool>, acted: seq<bool>, a: nat, able': seq<bool>, acted': seq<bool>)
    requires Due(able, acted, a)
    requires |able'| == |able| && forall i :: 0 <= i < |able| && i != a ==> able'[i] == able[i]
    requires acted' == acted[a := true]
    requires exists i :: 0 <= i < |able'| && able'[i] && !acted'[i]
    ensures Due(able', acted', Next(able', a))
  {
    var n := |able|;
    var d := Search(able', a, 1);
    NextExists(able', a);
    var b := Seat(a, d, n);
    var i :| 0 <= i < n && able'[i] && !acted'[i];
    var k := if i > a then i - a else i + n - a;
    assert Seat(a, k, n) == i && i != a && k < n;
    assert d <= k;
    // Were b among the seats that have acted, the run would reach seat i as well.
    assert !acted'[b];
    forall j, k | 0 <= j < k < n && able'[Seat(b, j, n)] && acted'[Seat(b, j, n)] && able'[Seat(b, k, n)]
      ensures acted'[Seat(b, k, n)]
    {
      if d + k < n {
        assert Seat(b, k, n) == Seat(a, d + k, n) && Seat(b, j, n) == Seat(a, d + j, n);
      } else {
        assert Seat(b, k, n) == Seat(a, d + k - n, n);
      }
    }
  }

  /** A raise leaves the raiser as the only seat that has acted. */
  lemma RaisingPassesTheTurn(able: seq<bool>, acted: seq<bool>, a: nat)
    requires |able| == |acted| && a < |able|
    requires forall i :: 0 <= i < |able| ==> (acted[i] <==> i == a)
    requires exists i :: 0 <= i < |able| && able[i] && !acted[i]
    ensures Due(able, acted, Next(able, a))
  {
    var n := |able|;
    var d := Search(able, a, 1);
    NextExists(able, a);
    var b := Seat(a, d, n);
    var i :| 0 <= i < n && able[i] && !acted[i];
    var k := if i > a then i - a else i + n - a;
    assert Seat(a, k, n) == i;
    assert !acted[b];
    // Past the raiser there is no able seat before the turn comes back to b.
    forall k | n - d < k < n ensures !able[Seat(b, k, n)] {
      assert Seat(b, k, n) == Seat(a, d + k - n, n);
    }
  }
}
