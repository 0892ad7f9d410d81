/** Regrouping a list of numbers from one width in bits to another (nostr_post.py, `_convertbits`). */
module BitGroups {
  import opened Seats

  // ---- the integer operators of the source, one bit at a time ----

  function Shl(v: nat, k: nat): nat
    decreases k
  {
    if k == 0 then v else Shl(2 * v, k - 1)
  }

  function Shr(v: nat, k: nat): nat {
    if k == 0 then v else Shr(v / 2, k - 1)
  }

  /** The low `k` bits: `v & ((1 << k) - 1)`. */
  function Mask(v: nat, k: nat): nat {
    if k == 0 then 0 else 2 * Mask(v / 2, k - 1) + v % 2
  }

  // ---- numbers as lists of bits, most significant first ----

  function Bits(v: nat, k: nat): (bs: seq<bool>)
    ensures |bs| == k
  {
    if k == 0 then [] else Bits(v / 2, k - 1) + [v % 2 == 1]
  }

  function Number(bs: seq<bool>): nat {
    if bs == [] then 0 else 2 * Number(bs[..|bs| - 1]) + if bs[|bs| - 1] then 1 else 0
  }

  /** All the bits of a list of `w`-bit numbers. */
  function AllBits(xs: seq<nat>, w: nat): (bs: seq<bool>)
  {
    if xs == [] then [] else Bits(xs[0], w) + AllBits(xs[1..], w)
  }

  /** `v` fits in `w` bits. */
  predicate FitsIn(v: nat, w: nat) { Shr(v, w) == 0 }

  // ---- the specification: cut the bits into groups ----

  function Groups(bs: seq<bool>, w: nat): seq<nat>
    requires w > 0
    decreases |bs|
  {
    if |bs| < w then [] else [Number(bs[..w])] + Groups(bs[w..], w)
  }

  /** What is left after the whole groups of `w`. */
  function Rest(bs: seq<bool>, w: nat): (r: seq<bool>)
    requires w > 0
    ensures |r| < w && |r| <= |bs|
    decreases |bs|
  {
    if |bs| < w then bs else Rest(bs[w..], w)
  }

  function Zeros(k: nat): (z: seq<bool>)
    ensures |z| == k && forall i :: 0 <= i < k ==> !z[i]
  {
    seq(k, _ => false)
  }

  /** Every number is a non-negative one of at most `f` bits. */
  predicate AllFit(xs: seq<int>, f: nat) {
    forall i :: 0 <= i < |xs| ==> xs[i] >= 0 && FitsIn(xs[i], f)
  }

  /** Regroup from `f` bits to `t`: with padding the rest is filled up with zeros; without it the rest must be
      shorter than an input group and all zeros. */
  function Regroup(xs: seq<int>, f: nat, t: nat, pad: bool): Option<seq<nat>>
    requires f > 0 && t > 0
  {
    if !AllFit(xs, f) then None
    else
      var bs := AllBits(xs, f);
      var rest := Rest(bs, t);
      if pad then Some(Groups(bs, t) + if rest == [] then [] else [Number(rest + Zeros(t - |rest|))])
      else if |rest| >= f || rest != Zeros(|rest|) then None
      else Some(Groups(bs, t))
  }

  // ---- bit facts ----

  lemma {:induction false} BitsOfShr(v: nat, a: nat, b: nat)
    ensures Bits(v, a + b) == Bits(Shr(v, b), a) + Bits(v, b)
    decreases b
  {
    if b > 0 {
      BitsOfShr(v / 2, a, b - 1);
      assert Bits(v, a + b) == Bits(v / 2, a + (b - 1)) + [v % 2 == 1];
    } else {
      assert Bits(v, 0) == [];
    }
  }

  lemma {:induction false} BitsOfShl(v: nat, a: nat, b: nat)
    ensures Bits(Shl(v, b), a + b) == Bits(v, a) + Zeros(b)
    decreases b
  {
    if b > 0 {
      BitsOfShl(2 * v, a + 1, b - 1);
      assert Bits(2 * v, a + 1) == Bits(v, a) + [false];
      assert Zeros(b) == [false] + Zeros(b - 1);
    } else {
      assert Zeros(0) == [];
    }
  }

  lemma {:induction false} MaskIsNumber(v: nat, k: nat)
    ensures Mask(v, k) == Number(Bits(v, k))
  {
    if k > 0 {
      MaskIsNumber(v / 2, k - 1);
      assert Bits(v, k)[..k - 1] == Bits(v / 2, k - 1);
    }
  }

  lemma {:induction false} BitsOfNumber(bs: seq<bool>)
    ensures Bits(Number(bs), |bs|) == bs && FitsIn(Number(bs), |bs|)
  {
    if bs != [] {
      var n := |bs|;
      BitsOfNumber(bs[..n - 1]);
      assert bs == bs[..n - 1] + [bs[n - 1]];
      assert Number(bs) / 2 == Number(bs[..n - 1]);
    }
  }

  lemma {:induction false} NumberOfBits(v: nat, k: nat)
    requires FitsIn(v, k)
    ensures Number(Bits(v, k)) == v
  {
    if k > 0 {
      NumberOfBits(v / 2, k - 1);
      assert Bits(v, k)[..k - 1] == Bits(v / 2, k - 1);
    }
  }

  /** Putting `v` below `acc`: what `(acc << k) | v` does to the bits, when `v` fits in `k` of them. */
  lemma {:induction false} BitsOfJoin(acc: nat, v: nat, a: nat, k: nat)
    requires FitsIn(v, k)
    ensures Bits(Shl(acc, k) + v, a + k) == Bits(acc, a) + Bits(v, k)
    decreases k
  {
    if k > 0 {
      ShlDoubles(acc, k);
      assert (Shl(acc, k) + v) / 2 == Shl(acc, k - 1) + v / 2 && (Shl(acc, k) + v) % 2 == v % 2;
      BitsOfJoin(acc, v / 2, a, k - 1);
      assert Bits(Shl(acc, k) + v, a + k) == Bits(Shl(acc, k - 1) + v / 2, a + (k - 1)) + [v % 2 == 1];
    } else {
      assert Bits(v, 0) == [];
    }
  }

  lemma {:induction false} ShlDoubles(v: nat, k: nat)
    requires k > 0
    ensures Shl(v, k) == 2 * Shl(v, k - 1)
    decreases k
  {
    if k > 1 { ShlDoubles(2 * v, k - 1); }
  }

  lemma {:induction false} NumberZero(bs: seq<bool>)
    ensures Number(bs) == 0 <==> bs == Zeros(|bs|)
  {
    if bs != [] {
      var n := |bs|;
      NumberZero(bs[..n - 1]);
      assert bs == bs[..n - 1] + [bs[n - 1]];
      assert Zeros(n) == Zeros(n - 1) + [false];
    }
  }

  // ---- group facts ----

  lemma {:induction false} GroupsAppend(bs: seq<bool>, x: seq<bool>, w: nat)
    requires w > 0
    ensures Groups(bs + x, w) == Groups(bs, w) + Groups(Rest(bs, w) + x, w)
    ensures Rest(bs + x, w) == Rest(Rest(bs, w) + x, w)
    decreases |bs|
  {
    if |bs| >= w {
      GroupsAppend(bs[w..], x, w);
      assert (bs + x)[..w] == bs[..w] && (bs + x)[w..] == bs[w..] + x;
    }
  }

  lemma {:induction false} AllBitsAppend(xs: seq<nat>, x: nat, w: nat)
    ensures AllBits(xs + [x], w) == AllBits(xs, w) + Bits(x, w)
  {
    if xs == [] {
      assert AllBits([x], w) == Bits(x, w) + AllBits([], w);
    } else {
      assert (xs + [x])[1..] == xs[1..] + [x];
      AllBitsAppend(xs[1..], x, w);
    }
  }

  /** Cutting into groups loses no bit, and the groups fit. */
  lemma {:induction false} GroupsKeepBits(bs: seq<bool>, w: nat)
    requires w > 0
    ensures AllBits(Groups(bs, w), w) + Rest(bs, w) == bs && AllFit(Groups(bs, w), w)
    decreases |bs|
  {
    if |bs| >= w {
      GroupsKeepBits(bs[w..], w);
      BitsOfNumber(bs[..w]);
      assert bs == bs[..w] + bs[w..];
    }
  }

  /** A list of numbers is what its bits are cut into. */
  lemma {:induction false} GroupsOfAllBits(xs: seq<nat>, rest: seq<bool>, w: nat)
    requires w > 0 && AllFit(xs, w) && |rest| < w
    ensures Groups(AllBits(xs, w) + rest, w) == xs && Rest(AllBits(xs, w) + rest, w) == rest
  {
    if xs != [] {
      var bs := AllBits(xs, w) + rest;
      assert bs == Bits(xs[0], w) + (AllBits(xs[1..], w) + rest);
      assert bs[..w] == Bits(xs[0], w) && bs[w..] == AllBits(xs[1..], w) + rest;
      NumberOfBits(xs[0], w);
      GroupsOfAllBits(xs[1..], rest, w);
    }
  }

  // ---- the source's loops ----

  method ConvertBits(data: seq<int>, frombits: nat, tobits: nat, pad: bool) returns (r: Option<seq<nat>>)
    requires frombits > 0 && tobits > 0
    ensures r == Regroup(data, frombits, tobits, pad)
  {
    hide Bits, Groups, Rest, Shl, Shr, Mask, FitsIn;
    var acc: nat, bits: nat := 0, 0;
    var ret: seq<nat> := [];
    ghost var seen: seq<nat> := [];
    assert Pending(acc, bits, ret, [], tobits) by { StartPending(tobits); }
    for n := 0 to |data|
      invariant AllFit(data[..n], frombits) && seen == data[..n]
      invariant bits < tobits && Pending(acc, bits, ret, AllBits(seen, frombits), tobits)
    {
      var value := data[n];
      assert data[..n + 1] == data[..n] + [value];
      if value < 0 || Shr(value, frombits) != 0 {
        assert !AllFit(data, frombits) by { BadValue(data, n, frombits); }
        return None;
      }
      assert FitsIn(value, frombits) by { GoodValue(value, frombits); }
      JoinPending(acc, bits, ret, AllBits(seen, frombits), value, frombits, tobits);
      AllBitsAppend(seen, value, frombits);
      acc := Shl(acc, frombits) + value;
      bits := bits + frombits;
      seen := seen + [value];
      while bits >= tobits
        invariant Pending(acc, bits, ret, AllBits(seen, frombits), tobits)
      {
        EmitPending(acc, bits, ret, AllBits(seen, frombits), tobits);
        bits := bits - tobits;
        ret := ret + [Mask(Shr(acc, bits), tobits)];
      }
    }
    assert seen == data;
    LastPending(acc, bits, ret, AllBits(seen, frombits), tobits);
    if pad {
      if bits > 0 { ret := ret + [Mask(Shl(acc, tobits - bits), tobits)]; }
    } else if bits >= frombits || Mask(Shl(acc, tobits - bits), tobits) != 0 {
      return None;
    }
    return Some(ret);
  }

  /** `ret` holds groups of `bs` and the low `bits` bits of `acc` are the bits not yet grouped. */
  ghost predicate Pending(acc: nat, bits: nat, ret: seq<nat>, bs: seq<bool>, t: nat)
    requires t > 0
  {
    Groups(bs, t) == ret + Groups(Bits(acc, bits), t) && Rest(bs, t) == Rest(Bits(acc, bits), t)
  }

  lemma StartPending(t: nat)
    requires t > 0
    ensures Pending(0, 0, [], [], t)
  {
  }

  lemma BadValue(data: seq<int>, n: nat, f: nat)
    requires n < |data| && (data[n] < 0 || Shr(data[n], f) != 0)
    ensures !AllFit(data, f)
  {
  }

  lemma GoodValue(v: nat, f: nat)
    requires Shr(v, f) == 0
    ensures FitsIn(v, f)
  {
  }

  lemma JoinPending(acc: nat, bits: nat, ret: seq<nat>, bs: seq<bool>, v: nat, f: nat, t: nat)
    requires t > 0 && bits < t && Pending(acc, bits, ret, bs, t) && FitsIn(v, f)
    ensures Pending(Shl(acc, f) + v, bits + f, ret, bs + Bits(v, f), t)
  {
    hide Bits, Shl;
    var pending := Bits(acc, bits);
    assert Groups(pending, t) == [] && Rest(pending, t) == pending;
    hide Groups, Rest;
    GroupsAppend(bs, Bits(v, f), t);
    BitsOfJoin(acc, v, bits, f);
  }

  lemma EmitPending(acc: nat, bits: nat, ret: seq<nat>, bs: seq<bool>, t: nat)
    requires t > 0 && bits >= t && Pending(acc, bits, ret, bs, t)
    ensures Pending(acc, bits - t, ret + [Mask(Shr(acc, bits - t), t)], bs, t)
  {
    hide Mask, Shr, Bits, Groups, Rest, Number;
    var head := Shr(acc, bits - t);
    BitsOfShr(acc, t, bits - t);
    MaskIsNumber(head, t);
    var b := Bits(acc, bits);
    assert b[..t] == Bits(head, t) && b[t..] == Bits(acc, bits - t);
    FirstGroup(b, t);
  }

  lemma FirstGroup(bs: seq<bool>, w: nat)
    requires 0 < w <= |bs|
    ensures Groups(bs, w) == [Number(bs[..w])] + Groups(bs[w..], w) && Rest(bs, w) == Rest(bs[w..], w)
  {
  }

  lemma LastPending(acc: nat, bits: nat, ret: seq<nat>, bs: seq<bool>, t: nat)
    requires t > 0 && bits < t && Pending(acc, bits, ret, bs, t)
    ensures ret == Groups(bs, t) && |Rest(bs, t)| == bits
    ensures Mask(Shl(acc, t - bits), t) == Number(Rest(bs, t) + Zeros(t - bits))
    ensures Mask(Shl(acc, t - bits), t) == 0 <==> Rest(bs, t) == Zeros(bits)
  {
    hide Mask, Shl;
    var rest := Bits(acc, bits);
    assert Groups(rest, t) == [] && Rest(rest, t) == rest;
    BitsOfShl(acc, bits, t - bits);
    MaskIsNumber(Shl(acc, t - bits), t);
    NumberZero(rest + Zeros(t - bits));
    assert (rest + Zeros(t - bits))[..bits] == rest && Zeros(t)[..bits] == Zeros(bits);
    assert Zeros(t) == Zeros(bits) + Zeros(t - bits);
    hide Bits, Groups, Rest, Number;
  }

  // ---- the two directions undo each other ----

  /** `small` holds the bits of `big` and fewer than a group of padding zeros. */
  ghost predicate Padded(small: seq<nat>, t: nat, big: seq<nat>, f: nat, k: nat) {
    AllFit(small, t) && AllFit(big, f) && k < t && AllBits(small, t) == AllBits(big, f) + Zeros(k)
  }

  lemma PadPads(xs: seq<nat>, f: nat, t: nat) returns (k: nat)
    requires 0 < t && 0 < f && AllFit(xs, f)
    ensures Regroup(xs, f, t, true).Some? && Padded(Regroup(xs, f, t, true).value, t, xs, f, k)
  {
    hide Number, Bits, FitsIn, Groups, Rest, AllBits;
    var bs := AllBits(xs, f);
    var rest := Rest(bs, t);
    GroupsKeepBits(bs, t);
    k := if rest == [] then 0 else t - |rest|;
    if rest == [] {
      assert bs == AllBits(Groups(bs, t), t) && bs == bs + Zeros(0) && Groups(bs, t) == Groups(bs, t) + [];
    } else {
      var last := rest + Zeros(k);
      BitsOfNumber(last);
      AllBitsAppend(Groups(bs, t), Number(last), t);
      assert AllBits(Groups(bs, t), t) + last == bs + Zeros(k) && |last| == t;
    }
  }

  lemma CutBack(small: seq<nat>, t: nat, big: seq<nat>, f: nat, k: nat)
    requires 0 < t <= f && Padded(small, t, big, f, k)
    ensures Regroup(small, t, f, false) == Some(big)
  {
    hide Number, Bits, FitsIn, Groups, Rest, AllBits;
    GroupsOfAllBits(big, Zeros(k), f);
  }

  /** Padding out to smaller groups and cutting back gives the list back: for every list of fitting numbers. */
  lemma RegroupBack(xs: seq<nat>, f: nat, t: nat)
    requires 0 < t <= f && AllFit(xs, f)
    ensures var out := Regroup(xs, f, t, true);
      out.Some? && AllFit(out.value, t) && Regroup(out.value, t, f, false) == Some(xs)
  {
    hide Regroup;
    var k := PadPads(xs, f, t);
    CutBack(Regroup(xs, f, t, true).value, t, xs, f, k);
  }

  lemma CutIsPadded(small: seq<nat>, t: nat, f: nat) returns (k: nat)
    requires 0 < t && 0 < f && Regroup(small, t, f, false).Some?
    ensures Padded(small, t, Regroup(small, t, f, false).value, f, k)
  {
    hide Number, Bits, FitsIn, Groups, Rest, AllBits;
    GroupsKeepBits(AllBits(small, t), f);
    k := |Rest(AllBits(small, t), f)|;
  }

  /** There is only one way to pad. */
  lemma PadIsUnique(small: seq<nat>, t: nat, big: seq<nat>, f: nat, k: nat)
    requires 0 < t && 0 < f && Padded(small, t, big, f, k)
    ensures Regroup(big, f, t, true) == Some(small)
  {
    hide Number, Bits, FitsIn, Groups, Rest, AllBits;
    var bs := AllBits(big, f);
    if k == 0 {
      assert bs == bs + Zeros(0) == AllBits(small, t) == AllBits(small, t) + [] && small == small + [];
      GroupsOfAllBits(small, [], t);
    } else {
      var cut := LastGroup(small, bs, t, k);
    }
  }

  /** With `k` zeros at the end, the last group is cut and padded again. */
  lemma LastGroup(d: seq<nat>, bs: seq<bool>, t: nat, k: nat) returns (cut: seq<bool>)
    requires 0 < k < t && AllFit(d, t) && AllBits(d, t) == bs + Zeros(k)
    ensures Rest(bs, t) == cut && |cut| == t - k && Groups(bs, t) + [Number(cut + Zeros(k))] == d
  {
    assert d != [];
    hide Number, FitsIn, Groups, Rest, AllBits;
    var init, last := d[..|d| - 1], d[|d| - 1];
    assert d == init + [last];
    AllBitsAppend(init, last, t);
    var tail := Bits(last, t);
    cut := tail[..t - k];
    hide Bits;
    var all := AllBits(init, t) + tail;
    assert all == bs + Zeros(k);
    assert bs == all[..|all| - k] == AllBits(init, t) + cut;
    assert tail == all[|all| - t..] && Zeros(k) == all[|all| - k..];
    assert tail == cut + Zeros(k);
    GroupsOfAllBits(init, cut, t);
    NumberOfBits(last, t);
  }

  /** Whatever cutting back accepts is padded exactly as the encoder pads: no two lists mean the same bytes. */
  lemma RegroupCanonical(d: seq<nat>, f: nat, t: nat)
    requires 0 < t && 0 < f && Regroup(d, t, f, false).Some?
    ensures Regroup(Regroup(d, t, f, false).value, f, t, true) == Some(d)
  {
    hide Regroup;
    var k := CutIsPadded(d, t, f);
    PadIsUnique(d, t, Regroup(d, t, f, false).value, f, k);
  }

  // ---- regrouping keeps the number ----

  /** The list read as one number, first entry most significant, `w` bits an entry. */
  function Value(xs: seq<nat>, w: nat): nat {
    if xs == [] then 0 else Shl(Value(xs[..|xs| - 1], w), w) + xs[|xs| - 1]
  }

  lemma {:induction false} NumberAppend(a: seq<bool>, b: seq<bool>)
    ensures Number(a + b) == Shl(Number(a), |b|) + Number(b)
  {
    if b == [] {
      assert a + b == a;
    } else {
      var n := |b|;
      assert (a + b)[..|a + b| - 1] == a + b[..n - 1];
      NumberAppend(a, b[..n - 1]);
      ShlDoubles(Number(a), n);
    }
  }

  lemma ValueLast(ys: seq<nat>, y: nat, w: nat)
    requires AllFit(ys, w) && FitsIn(y, w) && Value(ys, w) == Number(AllBits(ys, w)) && |AllBits(ys, w)| == |ys| * w
    ensures Value(ys + [y], w) == Number(AllBits(ys + [y], w)) && |AllBits(ys + [y], w)| == (|ys| + 1) * w
  {
    hide Number, FitsIn, Shl, Bits, AllBits;
    assert (ys + [y])[..|ys|] == ys;
    AllBitsAppend(ys, y, w);
    NumberAppend(AllBits(ys, w), Bits(y, w));
    NumberOfBits(y, w);
    assert (|ys| + 1) * w == |ys| * w + w;
  }

  lemma {:induction false} ValueIsNumber(xs: seq<nat>, w: nat)
    requires AllFit(xs, w)
    ensures Value(xs, w) == Number(AllBits(xs, w)) && |AllBits(xs, w)| == |xs| * w
  {
    hide FitsIn, Shl, Bits;
    if xs != [] {
      var n := |xs|;
      hide Value, Number, AllBits;
      ValueIsNumber(xs[..n - 1], w);
      ValueLast(xs[..n - 1], xs[n - 1], w);
      assert xs == xs[..n - 1] + [xs[n - 1]];
    }
  }

  /** Padded, the list stands for the same number with `k` zero bits added at the end, fewer than a group. */
  lemma PaddedValue(small: seq<nat>, t: nat, big: seq<nat>, f: nat, k: nat)
    requires 0 < t && 0 < f && Padded(small, t, big, f, k)
    ensures Value(small, t) == Shl(Value(big, f), k) && |small| * t == |big| * f + k
  {
    hide Number, Bits, FitsIn, AllBits, Shl;
    ValueIsNumber(small, t);
    ValueIsNumber(big, f);
    NumberAppend(AllBits(big, f), Zeros(k));
    NumberZero(Zeros(k));
  }

  /** `big` regrouped into groups of `t` bits: the same number with `k` zero bits added at the end. */
  ghost predicate SameNumber(small: seq<nat>, t: nat, big: seq<nat>, f: nat, k: nat) {
    AllFit(small, t) && |small| * t == |big| * f + k && Value(small, t) == Shl(Value(big, f), k)
  }

  /** Regrouping keeps the number that the list spells: padding adds fewer than `t` zero bits, and cutting without padding
      drops fewer than `f` bits, all of them zero. */
  lemma RegroupKeepsNumber(xs: seq<nat>, f: nat, t: nat) returns (added: nat, dropped: nat)
    requires 0 < f && 0 < t && AllFit(xs, f)
    ensures Regroup(xs, f, t, true).Some? && added < t && SameNumber(Regroup(xs, f, t, true).value, t, xs, f, added)
    ensures var r := Regroup(xs, f, t, false);
      r.Some? ==> dropped < f && SameNumber(xs, f, r.value, t, dropped) && AllFit(r.value, t)
  {
    hide Value, Shl, AllBits, FitsIn, Number, Bits;
    added := PadPads(xs, f, t);
    PaddedValue(Regroup(xs, f, t, true).value, t, xs, f, added);
    var r := Regroup(xs, f, t, false);
    dropped := 0;
    if r.Some? {
      dropped := CutIsPadded(xs, f, t);
      PaddedValue(xs, f, r.value, t, dropped);
    }
  }
}
