/** BIP-340 signatures over any group that behaves as the curve does (nostr_post.py; BIP-340, sections "Default
  Signing" and "Verification"). */
module Schnorr {
  import opened Seats
  import opened Bytes

  const KEYBITS := 0x1_0000000000000000_0000000000000000_0000000000000000_0000000000000000

  /** The curve as the signer sees it. `zero` is the point at infinity; `lift` finds the point with a given x and an
      even y. */
  datatype Curve<!Point> = Curve(
    add: (Point, Point) -> Point, neg: Point -> Point, zero: Point, gen: Point, n: nat, p: nat,
    x: Point -> nat, y: Point -> nat, lift: nat -> Option<Point>)

  /** The tagged hashes, and the secret key blinded with the auxiliary randomness. */
  datatype Hashes = Hashes(challenge: seq<Byte> -> nat, nonce: seq<Byte> -> nat, blind: (nat, seq<Byte>) -> seq<Byte>)

  ghost predicate AbelianGroup<Point(!new)>(c: Curve<Point>) {
    && (forall a, b, d :: c.add(c.add(a, b), d) == c.add(a, c.add(b, d)))
    && (forall a, b :: c.add(a, b) == c.add(b, a))
    && (forall a :: c.add(a, c.zero) == a)
    && (forall a :: c.add(a, c.neg(a)) == c.zero)
  }

  predicate Even<Point>(c: Curve<Point>, a: Point) { c.y(a) % 2 == 0 }

  /** `a` or its negative, whichever has the even y. */
  function EvenOne<Point>(c: Curve<Point>, a: Point): Point {
    if Even(c, a) then a else c.neg(a)
  }

  /** Negation keeps x and flips the parity of y; x and the parity determine the point. */
  ghost predicate Coordinates<Point(!new)>(c: Curve<Point>) {
    forall a :: a != c.zero ==>
      && c.x(a) < c.p && c.x(c.neg(a)) == c.x(a) && Even(c, c.neg(a)) == !Even(c, a)
      && c.lift(c.x(a)) == Some(EvenOne(c, a))
  }

  ghost predicate Lawful<Point(!new)>(c: Curve<Point>) {
    && AbelianGroup(c) && Coordinates(c)
    && 1 < c.n < KEYBITS && c.p < KEYBITS
    && Times(c, c.n, c.gen) == c.zero
    && forall k :: 0 < k < c.n ==> Times(c, k, c.gen) != c.zero
  }

  /** k-fold addition. */
  function Times<Point>(c: Curve<Point>, k: nat, a: Point): Point {
    if k == 0 then c.zero else c.add(Times(c, k - 1, a), a)
  }

  // ---- double and add ----

  lemma Unit<Point(!new)>(c: Curve<Point>, a: Point)
    requires AbelianGroup(c)
    ensures c.add(a, c.zero) == a == c.add(c.zero, a) && c.add(a, c.neg(a)) == c.zero
  {
    assert c.add(c.zero, a) == c.add(a, c.zero);
  }

  lemma Commutes<Point(!new)>(c: Curve<Point>, a: Point, b: Point)
    requires AbelianGroup(c)
    ensures c.add(a, b) == c.add(b, a)
  {
  }

  lemma Assoc<Point(!new)>(c: Curve<Point>, a: Point, b: Point, d: Point)
    requires AbelianGroup(c)
    ensures c.add(c.add(a, b), d) == c.add(a, c.add(b, d))
  {
  }

  lemma {:induction false} TimesAdd<Point(!new)>(c: Curve<Point>, j: nat, k: nat, a: Point)
    requires AbelianGroup(c)
    ensures Times(c, j + k, a) == c.add(Times(c, j, a), Times(c, k, a))
    decreases k
  {
    hide AbelianGroup;
    Unit(c, Times(c, j, a));
    if k > 0 {
      TimesAdd(c, j, k - 1, a);
      Assoc(c, Times(c, j, a), Times(c, k - 1, a), a);
    }
  }

  lemma {:induction false} TimesDouble<Point(!new)>(c: Curve<Point>, k: nat, a: Point)
    requires AbelianGroup(c)
    ensures Times(c, 2 * k, a) == Times(c, k, c.add(a, a))
    decreases k
  {
    hide AbelianGroup;
    if k > 0 {
      TimesDouble(c, k - 1, a);
      assert Times(c, 2 * k, a) == c.add(Times(c, 2 * k - 1, a), a);
      assert Times(c, 2 * k - 1, a) == c.add(Times(c, 2 * (k - 1), a), a);
      Assoc(c, Times(c, 2 * (k - 1), a), a, a);
    }
  }

  /** The source's loop is k-fold addition. */
  method Mul<Point(!new)>(c: Curve<Point>, a: Point, k: nat) returns (r: Point)
    requires AbelianGroup(c)
    ensures r == Times(c, k, a)
  {
    hide AbelianGroup;
    var m, b := k, a;
    r := c.zero;
    Unit(c, Times(c, k, a));
    while m > 0
      invariant c.add(r, Times(c, m, b)) == Times(c, k, a)
    {
      DoubleStep(c, r, b, m);
      if m % 2 == 1 { r := c.add(r, b); }
      b := c.add(b, b);
      m := m / 2;
    }
    Unit(c, r);
  }

  lemma OneMore<Point(!new)>(c: Curve<Point>, k: nat, a: Point)
    requires AbelianGroup(c)
    ensures Times(c, k + 1, a) == c.add(a, Times(c, k, a))
  {
    Commutes(c, a, Times(c, k, a));
    hide AbelianGroup;
  }

  lemma DoubleStep<Point(!new)>(c: Curve<Point>, r: Point, b: Point, m: nat)
    requires AbelianGroup(c)
    ensures c.add(r, Times(c, m, b)) == c.add(if m % 2 == 1 then c.add(r, b) else r, Times(c, m / 2, c.add(b, b)))
  {
    hide AbelianGroup;
    TimesDouble(c, m / 2, b);
    if m % 2 == 1 {
      assert m == 2 * (m / 2) + 1;
      OneMore(c, 2 * (m / 2), b);
      Assoc(c, r, b, Times(c, 2 * (m / 2), b));
    }
  }

  // ---- multiples of the generator ----

  lemma {:induction false} TimesZero<Point(!new)>(c: Curve<Point>, k: nat)
    requires AbelianGroup(c)
    ensures Times(c, k, c.zero) == c.zero
  {
    hide AbelianGroup;
    Unit(c, c.zero);
    if k > 0 { TimesZero(c, k - 1); }
  }

  function Prod(a: nat, b: nat): nat { a * b }

  lemma {:induction false} TimesTimes<Point(!new)>(c: Curve<Point>, j: nat, k: nat, a: Point)
    requires AbelianGroup(c)
    ensures Times(c, j, Times(c, k, a)) == Times(c, Prod(j, k), a)
    decreases j
  {
    hide AbelianGroup;
    if j > 0 {
      TimesTimes(c, j - 1, k, a);
      assert Prod(j, k) == Prod(j - 1, k) + k;
      TimesAdd(c, Prod(j - 1, k), k, a);
    } else {
      assert Prod(j, k) == 0;
    }
  }

  lemma Split(k: nat, n: nat)
    requires n > 0
    ensures k / n >= 0 && k == Prod(k / n, n) + k % n
  {
  }

  /** Multiples of the generator only depend on the factor modulo the order. */
  lemma TimesMod<Point(!new)>(c: Curve<Point>, k: nat)
    requires Lawful(c)
    ensures Times(c, k % c.n, c.gen) == Times(c, k, c.gen)
  {
    hide AbelianGroup, Coordinates;
    var q := k / c.n;
    Split(k, c.n);
    hide Prod;
    TimesAdd(c, Prod(q, c.n), k % c.n, c.gen);
    TimesTimes(c, q, c.n, c.gen);
    TimesZero(c, q);
    Unit(c, Times(c, k % c.n, c.gen));
  }

  /** In a group, what is added can be cancelled. */
  lemma Cancel<Point(!new)>(c: Curve<Point>, a: Point, b: Point, d: Point)
    requires AbelianGroup(c) && c.add(a, d) == c.add(b, d)
    ensures a == b
  {
    hide AbelianGroup;
    Assoc(c, a, d, c.neg(d));
    Assoc(c, b, d, c.neg(d));
    Unit(c, d);
    Unit(c, a);
    Unit(c, b);
  }

  /** Negating a multiple of the generator negates the factor. */
  lemma NegIs<Point(!new)>(c: Curve<Point>, k: nat)
    requires Lawful(c) && k <= c.n
    ensures Times(c, c.n - k, c.gen) == c.neg(Times(c, k, c.gen))
  {
    hide AbelianGroup, Coordinates;
    var a := Times(c, k, c.gen);
    TimesAdd(c, c.n - k, k, c.gen);
    Unit(c, a);
    Commutes(c, a, c.neg(a));
    Cancel(c, Times(c, c.n - k, c.gen), c.neg(a), a);
  }

  /** Distinct factors below the order give distinct points. */
  lemma FactorIsUnique<Point(!new)>(c: Curve<Point>, j: nat, k: nat)
    requires Lawful(c) && j < c.n && k < c.n && Times(c, j, c.gen) == Times(c, k, c.gen)
    ensures j == k
  {
    hide AbelianGroup, Coordinates;
    var (lo, hi) := if j <= k then (j, k) else (k, j);
    TimesAdd(c, hi - lo, lo, c.gen);
    Unit(c, Times(c, lo, c.gen));
    Cancel(c, Times(c, hi - lo, c.gen), c.zero, Times(c, lo, c.gen));
  }

  // ---- numbers as bytes, big-endian ----

  function ToBytes(v: nat, k: nat): (b: seq<Byte>)
    ensures |b| == k
  {
    if k == 0 then [] else ToBytes(v / 256, k - 1) + [v % 256]
  }

  function FromBytes(b: seq<Byte>): nat {
    if b == [] then 0 else 256 * FromBytes(b[..|b| - 1]) + b[|b| - 1]
  }

  function Pow256(k: nat): nat { if k == 0 then 1 else 256 * Pow256(k - 1) }

  lemma {:induction false} BytesRoundTrip(v: nat, k: nat)
    requires v < Pow256(k)
    ensures FromBytes(ToBytes(v, k)) == v
  {
    if k > 0 {
      BytesRoundTrip(v / 256, k - 1);
      assert ToBytes(v, k)[..k - 1] == ToBytes(v / 256, k - 1);
    }
  }

  lemma KeyBits()
    ensures Pow256(32) == KEYBITS
  {
    assert Pow256(8) == 0x1_0000000000000000;
    assert Pow256(16) == 0x1_0000000000000000_0000000000000000;
    assert Pow256(24) == 0x1_0000000000000000_0000000000000000_0000000000000000;
  }

  lemma Bytes32(v: nat)
    requires v < KEYBITS
    ensures FromBytes(ToBytes(v, 32)) == v
  {
    hide ToBytes, FromBytes;
    KeyBits();
    BytesRoundTrip(v, 32);
  }

  // ---- signing and verifying ----

  datatype SignError = KeyOutOfRange | NonceIsZero | ProducedInvalid

  datatype Signed = Signature(bytes: seq<Byte>) | Refused(error: SignError)

  function Challenge<Point>(c: Curve<Point>, h: Hashes, r: seq<Byte>, pub: seq<Byte>, msg: seq<Byte>): (e: nat)
    requires c.n > 0
    ensures e < c.n
  {
    h.challenge(r + pub + msg) % c.n
  }

  predicate Verify<Point(==)>(c: Curve<Point>, h: Hashes, msg: seq<Byte>, pub: seq<Byte>, sig: seq<Byte>)
    requires c.n > 0
  {
    |pub| == 32 && |sig| == 64 && |msg| == 32
    && var p := c.lift(FromBytes(pub));
    && p.Some?
    && var r, s := FromBytes(sig[..32]), FromBytes(sig[32..]);
    && r < c.p && s < c.n
    && var e := Challenge(c, h, sig[..32], pub, msg);
    IsNonce(c, Recovered(c, p.value, s, e), r)
  }

  /** The point the verifier computes: s * G minus e times the public point. */
  function Recovered<Point>(c: Curve<Point>, p: Point, s: nat, e: nat): Point
    requires e < c.n
  {
    c.add(Times(c, s, c.gen), Times(c, c.n - e, p))
  }

  predicate IsNonce<Point(==)>(c: Curve<Point>, q: Point, r: nat) {
    q != c.zero && Even(c, q) && c.x(q) == r
  }

  /** A point other than zero is determined by its x when its y is even. */
  lemma NonceIsOne<Point(!new)>(c: Curve<Point>, q: Point, q': Point, r: nat)
    requires Coordinates(c) && IsNonce(c, q, r) && IsNonce(c, q', r)
    ensures q == q'
  {
  }

  /** The factor whose multiple has the even y. */
  function EvenFactor<Point>(c: Curve<Point>, k: nat): nat
    requires k <= c.n
  {
    if Even(c, Times(c, k, c.gen)) then k else c.n - k
  }

  function Nonce<Point>(c: Curve<Point>, h: Hashes, msg: seq<Byte>, d0: nat, aux: seq<Byte>): (k: nat)
    requires 0 < d0 < c.n
    ensures k < c.n
  {
    h.nonce(h.blind(EvenFactor(c, d0), aux) + ToBytes(c.x(Times(c, d0, c.gen)), 32) + msg) % c.n
  }

  /** The second half of a signature. */
  function Response(n: nat, k: nat, e: nat, d: nat): (s: nat)
    requires n > 0
    ensures s < n
  {
    (k + Prod(e, d)) % n
  }

  lemma TimesResponse<Point(!new)>(c: Curve<Point>, k: nat, e: nat, d: nat)
    requires Lawful(c)
    ensures Times(c, Response(c.n, k, e, d), c.gen) == Times(c, k + Prod(e, d), c.gen)
  {
    hide AbelianGroup, Coordinates, Times, Prod;
    TimesMod(c, k + Prod(e, d));
  }

  /** The 64 bytes made from key `d0` and nonce `k0`. */
  function SignatureBytes<Point>(c: Curve<Point>, h: Hashes, msg: seq<Byte>, d0: nat, k0: nat): (sig: seq<Byte>)
    requires 0 < d0 < c.n && 0 < k0 < c.n
    ensures |sig| == 64
  {
    var pub, r := ToBytes(c.x(Times(c, d0, c.gen)), 32), ToBytes(c.x(Times(c, k0, c.gen)), 32);
    var e := Challenge(c, h, r, pub, msg);
    r + ToBytes(Response(c.n, EvenFactor(c, k0), e, EvenFactor(c, d0)), 32)
  }

  function Sign<Point(==)>(c: Curve<Point>, h: Hashes, msg: seq<Byte>, seckey: seq<Byte>, aux: seq<Byte>): Signed
    requires c.n > 0
  {
    var d0 := FromBytes(seckey);
    if !(1 <= d0 <= c.n - 1) then Refused(KeyOutOfRange)
    else
      var k0 := Nonce(c, h, msg, d0, aux);
      if k0 == 0 then Refused(NonceIsZero)
      else
        var sig := SignatureBytes(c, h, msg, d0, k0);
        if !Verify(c, h, msg, PublicKey(c, d0), sig) then Refused(ProducedInvalid) else Signature(sig)
  }

  function PublicKey<Point>(c: Curve<Point>, d0: nat): seq<Byte> {
    ToBytes(c.x(Times(c, d0, c.gen)), 32)
  }

  /** The even factor gives the even point with the same x. */
  lemma EvenFactorGives<Point(!new)>(c: Curve<Point>, k: nat)
    requires Lawful(c) && 0 < k < c.n
    ensures var a := Times(c, k, c.gen);
      && 0 < EvenFactor(c, k) < c.n && a != c.zero
      && Times(c, EvenFactor(c, k), c.gen) == EvenOne(c, a)
      && EvenOne(c, a) != c.zero && Even(c, EvenOne(c, a)) && c.x(EvenOne(c, a)) == c.x(a) < c.p
      && c.lift(c.x(a)) == Some(EvenOne(c, a))
  {
    var a := Times(c, k, c.gen);
    assert a != c.zero;
    NegIs(c, k);
    assert Times(c, c.n - k, c.gen) != c.zero;
    hide AbelianGroup, Times;
  }

  /** s * G minus e times the public point is the nonce point, whatever the parities. */
  lemma EquationHolds<Point(!new)>(c: Curve<Point>, k: nat, d: nat, e: nat)
    requires Lawful(c) && k < c.n && d < c.n && e < c.n
    ensures Recovered(c, Times(c, d, c.gen), Response(c.n, k, e, d), e) == Times(c, k, c.gen)
  {
    hide AbelianGroup, Coordinates, Times, Prod, Response;
    TimesResponse(c, k, e, d);
    Distribute(c.n, e, d);
    TimesTimes(c, c.n - e, d, c.gen);
    TimesTimes(c, d, c.n, c.gen);
    TimesZero(c, d);
    Cancels(c, k, Prod(e, d), Prod(c.n - e, d));
  }

  lemma Distribute(n: nat, e: nat, d: nat)
    requires e < n
    ensures Prod(e, d) + Prod(n - e, d) == Prod(d, n)
  {
  }

  lemma Cancels<Point(!new)>(c: Curve<Point>, k: nat, j: nat, rest: nat)
    requires Lawful(c) && Times(c, j + rest, c.gen) == c.zero
    ensures c.add(Times(c, k + j, c.gen), Times(c, rest, c.gen)) == Times(c, k, c.gen)
  {
    hide AbelianGroup, Coordinates, Times;
    TimesAdd(c, k + j, rest, c.gen);
    TimesAdd(c, k, j + rest, c.gen);
    Unit(c, Times(c, k, c.gen));
  }

  /** Every signature the signer builds for a 32-byte message is accepted: all four parity cases. */
  lemma BuiltIsAccepted<Point(!new)>(c: Curve<Point>, h: Hashes, msg: seq<Byte>, d0: nat, k0: nat)
    requires Lawful(c) && 0 < d0 < c.n && 0 < k0 < c.n && |msg| == 32
    ensures Verify(c, h, msg, PublicKey(c, d0), SignatureBytes(c, h, msg, d0, k0))
  {
    hide AbelianGroup, Coordinates, Times, ToBytes, FromBytes, EvenOne, EvenFactor, Challenge, Recovered, Response;
    EvenFactorGives(c, d0);
    EvenFactorGives(c, k0);
    var pub, rx := PublicKey(c, d0), c.x(Times(c, k0, c.gen));
    var r := ToBytes(rx, 32);
    var e := Challenge(c, h, r, pub, msg);
    var s := Response(c.n, EvenFactor(c, k0), e, EvenFactor(c, d0));
    var sig := SignatureBytes(c, h, msg, d0, k0);
    Bytes32(c.x(Times(c, d0, c.gen)));
    Bytes32(rx);
    Bytes32(s);
    assert sig[..32] == r && sig[32..] == ToBytes(s, 32);
    EquationHolds(c, EvenFactor(c, k0), EvenFactor(c, d0), e);
  }

  /** The signer's self-check fails exactly for messages that are not 32 bytes long. */
  lemma SelfCheckFailsOnlyOnLength<Point(!new)>(c: Curve<Point>, h: Hashes, msg: seq<Byte>, seckey: seq<Byte>, aux: seq<Byte>)
    requires Lawful(c) && 1 <= FromBytes(seckey) <= c.n - 1 && Nonce(c, h, msg, FromBytes(seckey), aux) != 0
    ensures var signed := Sign(c, h, msg, seckey, aux);
      if |msg| != 32 then signed == Refused(ProducedInvalid)
      else signed.Signature? && Verify(c, h, msg, PublicKey(c, FromBytes(seckey)), signed.bytes)
  {
    var d0 := FromBytes(seckey);
    if |msg| == 32 { BuiltIsAccepted(c, h, msg, d0, Nonce(c, h, msg, d0, aux)); }
    hide Lawful, Times, ToBytes, FromBytes, Nonce, SignatureBytes, PublicKey;
  }

  /** `s` times the generator is the point with even y at `r`, plus `e` times `p`. */
  ghost predicate Equation<Point(!new)>(c: Curve<Point>, p: Point, r: nat, s: nat, e: nat) {
    exists q :: IsNonce(c, q, r) && Times(c, s, c.gen) == c.add(q, Times(c, e, p))
  }

  /** The verifier accepts a signature exactly when its second half times the generator is the point with even y that its first
      half names, plus the public point times the hash of first half, public key and message. */
  lemma VerifyMeans<Point(!new)>(c: Curve<Point>, h: Hashes, msg: seq<Byte>, pub: seq<Byte>, sig: seq<Byte>)
    requires Lawful(c) && (c.lift(FromBytes(pub)).Some? ==> Times(c, c.n, c.lift(FromBytes(pub)).value) == c.zero)
    ensures Verify(c, h, msg, pub, sig) <==>
      && |pub| == 32 && |sig| == 64 && |msg| == 32 && c.lift(FromBytes(pub)).Some?
      && FromBytes(sig[..32]) < c.p && FromBytes(sig[32..]) < c.n
      && Equation(c, c.lift(FromBytes(pub)).value, FromBytes(sig[..32]), FromBytes(sig[32..]),
                  h.challenge(sig[..32] + pub + msg) % c.n)
  {
    assert c.n > 0;
    hide Lawful, Times, IsNonce, FromBytes, Recovered, Equation;
    if |pub| == 32 && |sig| == 64 && |msg| == 32 && c.lift(FromBytes(pub)).Some? {
      NonceEquation(c, c.lift(FromBytes(pub)).value, FromBytes(sig[..32]), FromBytes(sig[32..]),
                    h.challenge(sig[..32] + pub + msg) % c.n);
    }
  }

  lemma NonceEquation<Point(!new)>(c: Curve<Point>, p: Point, r: nat, s: nat, e: nat)
    requires Lawful(c) && Times(c, c.n, p) == c.zero && e < c.n
    ensures IsNonce(c, Recovered(c, p, s, e), r) <==> Equation(c, p, r, s, e)
  {
    hide Lawful, Times, IsNonce, Recovered;
    RecoveredMeans(c, p, s, e, Recovered(c, p, s, e));
    if Equation(c, p, r, s, e) {
      var q :| IsNonce(c, q, r) && Times(c, s, c.gen) == c.add(q, Times(c, e, p));
      RecoveredMeans(c, p, s, e, q);
    }
  }

  /** The recovered point is the one point that makes the equation hold. */
  lemma RecoveredMeans<Point(!new)>(c: Curve<Point>, p: Point, s: nat, e: nat, q: Point)
    requires Lawful(c) && Times(c, c.n, p) == c.zero && e < c.n
    ensures q == Recovered(c, p, s, e) <==> Times(c, s, c.gen) == c.add(q, Times(c, e, p))
  {
    hide AbelianGroup, Coordinates, Times;
    var sg, ep, rest := Times(c, s, c.gen), Times(c, e, p), Times(c, c.n - e, p);
    TimesAdd(c, c.n - e, e, p);
    Assoc(c, sg, rest, ep);
    Unit(c, sg);
    if sg == c.add(q, ep) { Cancel(c, q, Recovered(c, p, s, e), ep); }
  }

  /** `k`, or its negative, so that its multiple of the generator has an even y. */
  function Evened<Point>(c: Curve<Point>, k: nat): int {
    if c.y(Times(c, k, c.gen)) % 2 == 0 then k else c.n - k
  }

  /** The parts of a built signature: the x of the nonce point, and nonce plus challenge times key, nonce and key negated where
      their points have an odd y; the challenge hashes the first part, the public key and the message. */
  lemma SignatureParts<Point>(c: Curve<Point>, h: Hashes, msg: seq<Byte>, d0: nat, k0: nat)
    requires 0 < d0 < c.n < KEYBITS && 0 < k0 < c.n
    ensures var sig, pub := SignatureBytes(c, h, msg, d0, k0), ToBytes(c.x(Times(c, d0, c.gen)), 32);
      && |sig| == 64 && sig[..32] == ToBytes(c.x(Times(c, k0, c.gen)), 32)
      && FromBytes(sig[32..]) == (Evened(c, k0) + (h.challenge(sig[..32] + pub + msg) % c.n) * Evened(c, d0)) % c.n
  {
    hide Times, ToBytes, FromBytes, Prod;
    var r, pub := ToBytes(c.x(Times(c, k0, c.gen)), 32), ToBytes(c.x(Times(c, d0, c.gen)), 32);
    var e := Challenge(c, h, r, pub, msg);
    var s := Response(c.n, EvenFactor(c, k0), e, EvenFactor(c, d0));
    var sig := SignatureBytes(c, h, msg, d0, k0);
    assert sig == r + ToBytes(s, 32);
    assert sig[..32] == r && sig[32..] == ToBytes(s, 32);
    Bytes32(s);
    ProdIs(e, EvenFactor(c, d0));
    hide SignatureBytes, Challenge;
    assert e == h.challenge(r + pub + msg) % c.n by { ChallengeIs(c, h, r, pub, msg); }
  }

  lemma ProdIs(a: nat, b: nat)
    ensures Prod(a, b) == a * b
  {
  }

  lemma ChallengeIs<Point>(c: Curve<Point>, h: Hashes, r: seq<Byte>, pub: seq<Byte>, msg: seq<Byte>)
    requires c.n > 0
    ensures Challenge(c, h, r, pub, msg) == h.challenge(r + pub + msg) % c.n
  {
  }

  /** What the signer returns: a refusal for a key out of range or a nonce of zero, where the nonce is hashed from the blinded
      even key, the public key and the message, and otherwise the signature built from key and nonce if it verifies. */
  lemma SignMeans<Point>(c: Curve<Point>, h: Hashes, msg: seq<Byte>, seckey: seq<Byte>, aux: seq<Byte>)
    requires 1 < c.n
    ensures var signed, d0 := Sign(c, h, msg, seckey, aux), FromBytes(seckey);
      if !(0 < d0 < c.n) then signed == Refused(KeyOutOfRange)
      else
        var pub := ToBytes(c.x(Times(c, d0, c.gen)), 32);
        var d := if c.y(Times(c, d0, c.gen)) % 2 == 0 then d0 else c.n - d0;
        var k0 := h.nonce(h.blind(d, aux) + pub + msg) % c.n;
        if k0 == 0 then signed == Refused(NonceIsZero)
        else if Verify(c, h, msg, pub, SignatureBytes(c, h, msg, d0, k0)) then signed == Signature(SignatureBytes(c, h, msg, d0, k0))
        else signed == Refused(ProducedInvalid)
  {
    hide Times, ToBytes, FromBytes, Verify, SignatureBytes;
  }

  /** For one message, key and nonce point, at most one signature is accepted. */
  lemma AcceptedIsUnique<Point(!new)>(c: Curve<Point>, h: Hashes, msg: seq<Byte>, pub: seq<Byte>, a: seq<Byte>, b: seq<Byte>)
    requires Lawful(c) && Verify(c, h, msg, pub, a) && Verify(c, h, msg, pub, b) && a[..32] == b[..32]
    ensures a == b
  {
    hide Coordinates, AbelianGroup, Times, ToBytes, FromBytes, Even, IsNonce;
    var p := c.lift(FromBytes(pub)).value;
    var e := Challenge(c, h, a[..32], pub, msg);
    var s, t := FromBytes(a[32..]), FromBytes(b[32..]);
    NonceIsOne(c, Recovered(c, p, s, e), Recovered(c, p, t, e), FromBytes(a[..32]));
    Cancel(c, Times(c, s, c.gen), Times(c, t, c.gen), Times(c, c.n - e, p));
    FactorIsUnique(c, s, t);
    SameNumber(a[32..], b[32..]);
    assert a == a[..32] + a[32..] && b == b[..32] + b[32..];
  }

  lemma {:induction false} SameNumber(a: seq<Byte>, b: seq<Byte>)
    requires |a| == |b| && FromBytes(a) == FromBytes(b)
    ensures a == b
  {
    if a != [] {
      SameNumber(a[..|a| - 1], b[..|b| - 1]);
      assert a == a[..|a| - 1] + [a[|a| - 1]] && b == b[..|b| - 1] + [b[|b| - 1]];
    }
  }

  // ---- the laws can be met ----

  /** Three points: zero, the generator and its negative. */
  datatype Third = Zero | Plus | Minus

  function AddThird(a: Third, b: Third): Third {
    match (a, b)
    case (Zero, _) => b
    case (_, Zero) => a
    case (Plus, Plus) => Minus
    case (Minus, Minus) => Plus
    case _ => Zero
  }

  function NegThird(a: Third): Third {
    match a case Zero => Zero case Plus => Minus case Minus => Plus
  }

  function Smallest(): Curve<Third> {
    Curve(AddThird, NegThird, Zero, Plus, 3, 1, (a: Third) => 0, (a: Third) => if a == Minus then 1 else 0,
          (x: nat) => Some(Plus))
  }

  lemma ThirdsAdd(a: Third, b: Third, d: Third)
    ensures AddThird(AddThird(a, b), d) == AddThird(a, AddThird(b, d))
    ensures AddThird(a, b) == AddThird(b, a)
    ensures AddThird(a, Zero) == a && AddThird(a, NegThird(a)) == Zero
  {
  }

  lemma SmallestIsLawful()
    ensures Lawful(Smallest())
  {
    hide AddThird, NegThird;
    var c := Smallest();
    forall a, b, d ensures c.add(c.add(a, b), d) == c.add(a, c.add(b, d)) { ThirdsAdd(a, b, d); }
    forall a, b ensures c.add(a, b) == c.add(b, a) { ThirdsAdd(a, b, a); }
    forall a ensures c.add(a, c.zero) == a && c.add(a, c.neg(a)) == c.zero { ThirdsAdd(a, a, a); }
    assert AbelianGroup(c);
    hide AbelianGroup;
    SmallestOrder();
    SmallestCoordinates();
    hide Times, Coordinates;
  }

  lemma SmallestOrder()
    ensures var c := Smallest(); Times(c, 1, c.gen) == Plus && Times(c, 2, c.gen) == Minus && Times(c, 3, c.gen) == Zero
  {
  }

  lemma SmallestCoordinates()
    ensures Coordinates(Smallest())
  {
  }
}
