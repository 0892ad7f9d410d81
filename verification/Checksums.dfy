/** The Bech32 checksum as arithmetic over GF(2) (nostr_post.py; BIP-173, section "Bech32"). */
module Checksums {

  /** A five-bit symbol. */
  type Symbol = n: nat | n < 32

  /** The checksum register never holds more than thirty bits. */
  type State = bv30

  function Lift(v: Symbol): State { v as bv30 }

  function Xor(a: State, b: State): State { a ^ b }

  function Gen(i: nat): State
    requires i < 5
  {
    if i == 0 then 0x3B6A57B2 else if i == 1 then 0x26508E6D else if i == 2 then 0x1EA119FA
    else if i == 3 then 0x3D4233DD else 0x2A1462B3
  }

  /** Bit `i` of the five bits at the top. */
  function TopBit(chk: State, i: nat): State
    requires i < 5
  {
    if i == 0 then (chk >> 25) & 1 else if i == 1 then (chk >> 26) & 1 else if i == 2 then (chk >> 27) & 1
    else if i == 3 then (chk >> 28) & 1 else (chk >> 29) & 1
  }

  function Tap(chk: State, i: nat): State
    requires i < 5
  {
    if TopBit(chk, i) == 1 then Gen(i) else 0
  }

  /** The first `k` generators selected by the top bits, mixed. */
  function Taps(chk: State, k: nat): State
    requires k <= 5
  {
    if k == 0 then 0 else Xor(Taps(chk, k - 1), Tap(chk, k - 1))
  }

  function Shift(chk: State): State { (chk & 0x1FFFFFF) << 5 }

  /** One round: five bits out at the top, the symbol in at the bottom, the generators mixed in. */
  function Round(chk: State, v: State): State {
    Xor(Xor(Shift(chk), v), Taps(chk, 5))
  }

  /** The register after a list of symbols. */
  function Feed(chk: State, vs: seq<State>): State
    decreases |vs|
  {
    if vs == [] then chk else Feed(Round(chk, vs[0]), vs[1..])
  }

  function LiftAll(values: seq<Symbol>): (vs: seq<State>)
    ensures |vs| == |values| && forall i :: 0 <= i < |vs| ==> vs[i] == Lift(values[i])
  {
    seq(|values|, i requires 0 <= i < |values| => Lift(values[i]))
  }

  function Polymod(values: seq<Symbol>): State { Feed(1, LiftAll(values)) }

  /** The source's loop. */
  method ComputePolymod(values: seq<Symbol>) returns (chk: State)
    ensures chk == Polymod(values)
  {
    hide Round, Lift;
    chk := 1;
    ghost var vs := LiftAll(values);
    for n := 0 to |values|
      invariant Feed(chk, vs[n..]) == Polymod(values)
    {
      assert vs[n..][0] == Lift(values[n]) && vs[n..][1..] == vs[n + 1..];
      chk := RoundLoop(chk, values[n]);
    }
  }

  method RoundLoop(was: State, v: Symbol) returns (chk: State)
    ensures chk == Round(was, Lift(v))
  {
    chk := Xor(Shift(was), Lift(v));
    ghost var base := chk;
    XorZero(base);
    hide Tap, Xor, Shift, Lift;
    for i := 0 to 5
      invariant chk == Xor(base, Taps(was, i))
    {
      XorAssociates(base, Taps(was, i), Tap(was, i));
      chk := Xor(chk, Tap(was, i));
    }
  }

  // ---- linearity ----

  lemma XorZero(a: State)
    ensures Xor(a, 0) == a && Xor(0, a) == a && Xor(a, a) == 0
  {
  }

  lemma XorAssociates(a: State, b: State, c: State)
    ensures Xor(Xor(a, b), c) == Xor(a, Xor(b, c))
  {
  }

  lemma XorSwap(a: State, b: State, c: State, d: State)
    ensures Xor(Xor(a, b), Xor(c, d)) == Xor(Xor(a, c), Xor(b, d))
  {
    assert Xor(b, c) == Xor(c, b);
    hide Xor;
    XorAssociates(a, b, Xor(c, d));
    XorAssociates(b, c, d);
    XorAssociates(c, b, d);
    XorAssociates(a, c, Xor(b, d));
  }

  lemma XorSame(a: State, b: State)
    ensures Xor(a, b) == 0 <==> a == b
  {
    hide Xor;
    XorZero(a);
    XorZero(b);
    XorAssociates(a, b, b);
  }

  lemma TopBitOf(a: State, i: nat)
    requires i < 5
    ensures TopBit(a, i) == 0 || TopBit(a, i) == 1
  {
  }

  lemma TopBitLinear(a: State, b: State, i: nat)
    requires i < 5
    ensures TopBit(Xor(a, b), i) == Xor(TopBit(a, i), TopBit(b, i))
  {
    if i == 0 {
    } else if i == 1 {
    } else if i == 2 {
    } else if i == 3 {
    }
  }

  lemma TapLinear(a: State, b: State, i: nat)
    requires i < 5
    ensures Tap(Xor(a, b), i) == Xor(Tap(a, i), Tap(b, i))
  {
    hide Xor, TopBit, Gen;
    TopBitOf(a, i);
    TopBitOf(b, i);
    TopBitLinear(a, b, i);
    XorZero(0);
    XorZero(1);
    XorZero(Gen(i));
  }

  lemma {:induction false} TapsLinear(a: State, b: State, k: nat)
    requires k <= 5
    ensures Taps(Xor(a, b), k) == Xor(Taps(a, k), Taps(b, k))
  {
    XorZero(0);
    hide Tap, Xor;
    if k > 0 {
      TapsLinear(a, b, k - 1);
      TapLinear(a, b, k - 1);
      XorSwap(Taps(a, k - 1), Taps(b, k - 1), Tap(a, k - 1), Tap(b, k - 1));
    }
  }

  lemma ShiftLinear(a: State, b: State)
    ensures Shift(Xor(a, b)) == Xor(Shift(a), Shift(b))
  {
  }

  lemma RoundLinear(a: State, b: State, v: State, w: State)
    ensures Round(Xor(a, b), Xor(v, w)) == Xor(Round(a, v), Round(b, w))
  {
    hide Taps, Shift, Xor;
    TapsLinear(a, b, 5);
    ShiftLinear(a, b);
    XorSwap(Shift(a), Shift(b), v, w);
    XorSwap(Xor(Shift(a), v), Xor(Shift(b), w), Taps(a, 5), Taps(b, 5));
  }

  lemma AllTaps(a: State)
    ensures Taps(a, 5) == Xor(Xor(Xor(Xor(Tap(a, 0), Tap(a, 1)), Tap(a, 2)), Tap(a, 3)), Tap(a, 4))
  {
    XorZero(Tap(a, 0));
    hide Tap, Xor;
    assert Taps(a, 1) == Xor(Taps(a, 0), Tap(a, 0));
    assert Taps(a, 3) == Xor(Xor(Taps(a, 1), Tap(a, 1)), Tap(a, 2));
    assert Taps(a, 5) == Xor(Xor(Taps(a, 3), Tap(a, 3)), Tap(a, 4));
  }

  /** Only the zero register is sent to zero: no round loses information. */
  lemma RoundKernel(a: State)
    requires Round(a, 0) == 0
    ensures a == 0
  {
    AllTaps(a);
    hide Taps;
  }

  lemma RoundZero()
    ensures Round(0, 0) == 0
  {
    AllTaps(0);
    hide Taps;
  }

  // ---- lists of symbols ----

  function XorAll(xs: seq<State>, ys: seq<State>): (r: seq<State>)
    requires |xs| == |ys|
    ensures |r| == |xs| && forall i :: 0 <= i < |r| ==> r[i] == Xor(xs[i], ys[i])
  {
    seq(|xs|, i requires 0 <= i < |xs| => Xor(xs[i], ys[i]))
  }

  function Zeros(k: nat): (r: seq<State>)
    ensures |r| == k && forall i :: 0 <= i < k ==> r[i] == 0
  {
    seq(k, _ => 0)
  }

  /** The checksum is linear: the register of a sum is the sum of the registers. */
  lemma {:induction false} FeedLinear(a: State, b: State, xs: seq<State>, ys: seq<State>)
    requires |xs| == |ys|
    ensures Feed(Xor(a, b), XorAll(xs, ys)) == Xor(Feed(a, xs), Feed(b, ys))
    decreases |xs|
  {
    hide Round, Xor;
    if xs != [] {
      RoundLinear(a, b, xs[0], ys[0]);
      assert XorAll(xs, ys)[1..] == XorAll(xs[1..], ys[1..]);
      FeedLinear(Round(a, xs[0]), Round(b, ys[0]), xs[1..], ys[1..]);
    }
  }

  lemma {:induction false} FeedConcat(a: State, xs: seq<State>, ys: seq<State>)
    ensures Feed(a, xs + ys) == Feed(Feed(a, xs), ys)
    decreases |xs|
  {
    hide Round;
    if xs == [] {
      assert xs + ys == ys;
    } else {
      assert (xs + ys)[1..] == xs[1..] + ys;
      FeedConcat(Round(a, xs[0]), xs[1..], ys);
    }
  }

  lemma {:induction false} FeedZeros(a: State, k: nat)
    ensures Feed(a, Zeros(k)) == 0 <==> a == 0
    decreases k
  {
    hide Round;
    if k > 0 {
      assert Zeros(k)[1..] == Zeros(k - 1);
      FeedZeros(Round(a, 0), k - 1);
      RoundZero();
      if Round(a, 0) == 0 { RoundKernel(a); }
    }
  }

  // ---- six symbols fill the register ----

  /** Only the low 5k bits can be set. */
  predicate Fits(x: State, k: nat)
    requires k <= 6
  {
    if k == 0 then x == 0 else if k == 1 then x >> 5 == 0 else if k == 2 then x >> 10 == 0
    else if k == 3 then x >> 15 == 0 else if k == 4 then x >> 20 == 0 else if k == 5 then x >> 25 == 0 else true
  }

  lemma NoTaps(x: State)
    requires Fits(x, 5)
    ensures Taps(x, 5) == 0
  {
    AllTaps(x);
    hide Taps;
  }

  lemma Widen(x: State, k: nat)
    requires k <= 5 && Fits(x, k)
    ensures Fits(x, 5)
  {
  }

  lemma Grow(x: State, v: State, k: nat)
    requires k < 6 && Fits(x, k) && v < 32
    ensures Fits(Round(x, v), k + 1) && (Round(x, v) == 0 <==> x == 0 && v == 0)
  {
    hide Taps, Xor, Shift, Fits;
    Widen(x, k);
    NoTaps(x);
    XorZero(Xor(Shift(x), v));
    AppendBits(x, v, k);
  }

  lemma AppendBits(x: State, v: State, k: nat)
    requires k < 6 && Fits(x, k) && v < 32
    ensures Fits(Xor(Shift(x), v), k + 1) && (Xor(Shift(x), v) == 0 <==> x == 0 && v == 0)
  {
    if k == 0 {
    } else if k == 1 {
    } else if k == 2 {
    } else if k == 3 {
    } else if k == 4 {
    }
  }

  /** Up to six symbols fed into an empty register leave it empty only if they are all zero. */
  lemma {:induction false} ShortFeed(x: State, vs: seq<State>, k: nat)
    requires k + |vs| <= 6 && Fits(x, k) && forall i :: 0 <= i < |vs| ==> vs[i] < 32
    ensures Feed(x, vs) == 0 <==> x == 0 && forall i :: 0 <= i < |vs| ==> vs[i] == 0
    decreases |vs|
  {
    hide Round, Fits;
    if vs != [] {
      Grow(x, vs[0], k);
      ShortFeed(Round(x, vs[0]), vs[1..], k + 1);
      assert forall i :: 1 <= i < |vs| ==> vs[i] == vs[1..][i - 1];
    }
  }

  // ---- the checksum ----

  /** The six symbols of a register, most significant first. */
  function Digit(c: State, i: nat): State
    requires i < 6
    ensures Digit(c, i) < 32
  {
    if i == 0 then c >> 25 else if i == 1 then (c >> 20) & 31 else if i == 2 then (c >> 15) & 31
    else if i == 3 then (c >> 10) & 31 else if i == 4 then (c >> 5) & 31 else c & 31
  }

  function Unlift(v: State): (s: Symbol)
    requires v < 32
    ensures Lift(s) == v
  {
    (v as bv5) as nat
  }

  /** The checksum symbols the encoder appends. */
  function Checksum(values: seq<Symbol>): (cs: seq<Symbol>)
    ensures |cs| == 6
  {
    var c := Xor(Polymod(values + [0, 0, 0, 0, 0, 0]), 1);
    seq(6, i requires 0 <= i < 6 => Unlift(Digit(c, i)))
  }

  lemma LiftBoth(xs: seq<Symbol>, ys: seq<Symbol>)
    ensures LiftAll(xs + ys) == LiftAll(xs) + LiftAll(ys)
  {
  }

  /** The top `k` symbols of a register. */
  function TopPart(c: State, k: nat): State
    requires k <= 6
  {
    if k == 0 then 0 else if k == 1 then c >> 25 else if k == 2 then c >> 20 else if k == 3 then c >> 15
    else if k == 4 then c >> 10 else if k == 5 then c >> 5 else c
  }

  lemma TopPartGrows(c: State, k: nat)
    requires k < 6
    ensures Fits(TopPart(c, k), 5) && Xor(Shift(TopPart(c, k)), Digit(c, k)) == TopPart(c, k + 1)
  {
    if k == 0 {
    } else if k == 1 {
    } else if k == 2 {
    } else if k == 3 {
    } else if k == 4 {
    }
  }

  function Digits(c: State): (ds: seq<State>)
    ensures |ds| == 6 && forall i :: 0 <= i < 6 ==> ds[i] == Digit(c, i)
  {
    seq(6, i requires 0 <= i < 6 => Digit(c, i))
  }

  lemma {:induction false} DigitsFeed(c: State, k: nat)
    requires k <= 6
    ensures Feed(TopPart(c, k), Digits(c)[k..]) == c
    decreases 6 - k
  {
    if k < 6 {
      hide TopPart, Digit, Taps, Xor, Shift, Fits;
      TopPartGrows(c, k);
      NoTaps(TopPart(c, k));
      XorZero(TopPart(c, k + 1));
      assert Round(TopPart(c, k), Digit(c, k)) == TopPart(c, k + 1);
      hide Round;
      assert Digits(c)[k..][0] == Digit(c, k) && Digits(c)[k..][1..] == Digits(c)[k + 1..];
      DigitsFeed(c, k + 1);
    }
  }

  /** Appending the six computed symbols makes the checksum 1, whatever the symbols before them. */
  lemma ChecksumHolds(values: seq<Symbol>)
    ensures Polymod(values + Checksum(values)) == 1
  {
    hide Lift, Feed, Xor, Digit;
    var v, f := LiftAll(values), Feed(1, LiftAll(values));
    var pad: seq<Symbol> := [0, 0, 0, 0, 0, 0];
    var c0 := Polymod(values + pad);
    var c := Xor(c0, 1);
    LiftBoth(values, pad);
    LiftBoth(values, Checksum(values));
    assert LiftAll(pad) == Zeros(6) by { LiftZero(); }
    assert LiftAll(Checksum(values)) == Digits(c);
    FeedConcat(1, v, Zeros(6));
    FeedConcat(1, v, Digits(c));
    FeedLinear(f, 0, Zeros(6), Digits(c));
    FromZeros(Digits(c));
    XorZero(f);
    DigitsFeed(c, 0);
    assert Digits(c)[0..] == Digits(c) && TopPart(c, 0) == 0;
    XorAssociates(c0, c0, 1);
    XorZero(c0);
    XorZero(1);
  }

  lemma LiftZero()
    ensures Lift(0) == 0
  {
  }

  lemma FromZeros(vs: seq<State>)
    ensures XorAll(Zeros(|vs|), vs) == vs
  {
    forall i | 0 <= i < |vs| ensures Xor(0, vs[i]) == vs[i] { XorZero(vs[i]); }
    hide Xor;
  }

  lemma LiftDiffers(v: Symbol, w: Symbol)
    ensures Xor(Lift(v), Lift(w)) < 32 && (Xor(Lift(v), Lift(w)) == 0 <==> v == w)
  {
    hide Xor, Lift;
    FiveBits(v);
    FiveBits(w);
    SmallXor(v as bv5, w as bv5);
  }

  lemma FiveBits(v: Symbol)
    ensures (v as bv5) as nat == v && Lift(v) == (v as bv5) as bv30
  {
  }

  lemma SmallXor(x: bv5, y: bv5)
    ensures Xor(x as bv30, y as bv30) < 32 && (Xor(x as bv30, y as bv30) == 0 <==> x == y)
  {
  }

  /** Two lists of symbols that differ, but only within six neighbouring places, have different checksums. */
  lemma BurstChangesChecksum(a: seq<Symbol>, b: seq<Symbol>, i: nat, k: nat)
    requires |a| == |b| && k <= 6 && i + k <= |a| && a != b
    requires forall j :: 0 <= j < |a| && !(i <= j < i + k) ==> a[j] == b[j]
    ensures Polymod(a) != Polymod(b)
  {
    hide Lift, Feed, Xor;
    var diff := XorAll(LiftAll(a), LiftAll(b));
    FeedLinear(1, 1, LiftAll(a), LiftAll(b));
    XorZero(1);
    XorSame(Polymod(a), Polymod(b));
    forall j | 0 <= j < |a| ensures diff[j] < 32 && (diff[j] == 0 <==> a[j] == b[j]) { LiftDiffers(a[j], b[j]); }
    var mid, tail := diff[i..i + k], |a| - i - k;
    assert diff == Zeros(i) + mid + Zeros(tail);
    FeedConcat(0, Zeros(i) + mid, Zeros(tail));
    FeedConcat(0, Zeros(i), mid);
    FeedZeros(0, i);
    assert Fits(0, 0);
    assert forall m :: 0 <= m < k ==> mid[m] == diff[i + m];
    ShortFeed(0, mid, 0);
    FeedZeros(Feed(0, mid), tail);
    var j :| 0 <= j < |a| && a[j] != b[j];
    assert mid[j - i] != 0;
  }

  /** No other six symbols close the list. */
  lemma ChecksumIsUnique(values: seq<Symbol>, cs: seq<Symbol>)
    requires |cs| == 6
    ensures Polymod(values + cs) == 1 <==> cs == Checksum(values)
  {
    hide Polymod, Checksum;
    ChecksumHolds(values);
    if cs != Checksum(values) {
      var a, b := values + cs, values + Checksum(values);
      assert a[|values|..] == cs && b[|values|..] == Checksum(values);
      BurstChangesChecksum(a, b, |values|, 6);
    }
  }

  /** The symbols of "a12uel5l", a valid string of BIP-173: its prefix expanded, then its data part. */
  const SAMPLE: seq<Symbol> := [3, 0, 1, 10, 28, 25, 31, 20, 31]

  /** A published string has the checksum the standard gives it, so the generators are the standard's. */
  lemma SampleIsValid()
    ensures Polymod(SAMPLE) == 1
  {
    hide Round, Lift;
    var vs := LiftAll(SAMPLE);
    assert vs == [3, 0, 1, 10, 28, 25, 31, 20, 31] by { SampleLifts(); }
    assert vs[0..] == vs && vs[9..] == [];
    FirstRounds();
    LaterRounds();
    FeedAt(1, vs, 0, 0x23);
    FeedAt(0x23, vs, 1, 0x460);
    FeedAt(0x460, vs, 2, 0x8c01);
    FeedAt(0x8c01, vs, 3, 0x11802a);
    FeedAt(0x11802a, vs, 4, 0x230055c);
    FeedAt(0x230055c, vs, 5, 0x3d6afc2b);
    FeedAt(0x3d6afc2b, vs, 6, 0x2f84386);
    FeedAt(0x2f84386, vs, 7, 0x24622766);
    FeedAt(0x24622766, vs, 8, 1);
  }

  lemma SampleLifts()
    ensures LiftAll(SAMPLE) == [3, 0, 1, 10, 28, 25, 31, 20, 31]
  {
    TheirLifts();
    hide Lift;
    var vs := LiftAll(SAMPLE);
    assert vs == [vs[0], vs[1], vs[2], vs[3], vs[4], vs[5], vs[6], vs[7], vs[8]];
  }

  lemma TheirLifts()
    ensures Lift(3) == 3 && Lift(0) == 0 && Lift(1) == 1 && Lift(10) == 10
    ensures Lift(28) == 28 && Lift(25) == 25 && Lift(31) == 31 && Lift(20) == 20
  {
  }

  lemma FeedAt(a: State, vs: seq<State>, i: nat, b: State)
    requires i < |vs| && Round(a, vs[i]) == b
    ensures Feed(a, vs[i..]) == Feed(b, vs[i + 1..])
  {
    hide Round;
    assert vs[i..][0] == vs[i] && vs[i..][1..] == vs[i + 1..];
  }

  lemma FirstRounds()
    ensures Round(1, 3) == 0x23 && Round(0x23, 0) == 0x460 && Round(0x460, 1) == 0x8c01 && Round(0x8c01, 10) == 0x11802a
    ensures Round(0x11802a, 28) == 0x230055c
  {
    hide Taps;
    NoTaps(1);
    NoTaps(0x23);
    NoTaps(0x460);
    NoTaps(0x8c01);
    NoTaps(0x11802a);
  }

  lemma LaterRounds()
    ensures Round(0x230055c, 25) == 0x3d6afc2b && Round(0x3d6afc2b, 31) == 0x2f84386
    ensures Round(0x2f84386, 20) == 0x24622766 && Round(0x24622766, 31) == 1
  {
    hide Taps;
    AllTaps(0x230055c);
    AllTaps(0x3d6afc2b);
    AllTaps(0x2f84386);
    AllTaps(0x24622766);
  }
}
