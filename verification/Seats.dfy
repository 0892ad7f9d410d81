/** Seat lists and chip ledgers shared by the two card tables.

  The source identifies a player by public key and only ever compares the keys, so a number stands for one.
  Lists keep their order; a dictionary from players to chips is a map.
 */
module Seats {

  type Player = nat

  datatype Option<+T> = None | Some(value: T)

  ghost predicate Distinct<T>(s: seq<T>) {
    forall i, j :: 0 <= i < j < |s| ==> s[i] != s[j]
  }

  function Elems(s: seq<Player>): set<Player> {
    set p | p in s
  }

  /** The members of `s` that are in `keep`, in the order of `s`. */
  function Only(s: seq<Player>, keep: set<Player>): (r: seq<Player>)
    ensures forall p :: p in r <==> p in s && p in keep
    ensures |r| <= |s|
  {
    if s == [] then []
    else if s[0] in keep then [s[0]] + Only(s[1..], keep)
    else Only(s[1..], keep)
  }

  function Total(s: seq<Player>, m: map<Player, int>): int
    requires forall p :: p in s ==> p in m
  {
    if s == [] then 0 else m[s[0]] + Total(s[1..], m)
  }

  lemma {:induction false} OnlyDistinct(s: seq<Player>, keep: set<Player>)
    requires Distinct(s)
    ensures Distinct(Only(s, keep))
  {
    if s != [] {
      OnlyDistinct(s[1..], keep);
      assert s[0] !in s[1..];
    }
  }

  lemma {:induction false} TotalExt(s: seq<Player>, m: map<Player, int>, m': map<Player, int>)
    requires forall p :: p in s ==> p in m && p in m' && m[p] == m'[p]
    ensures Total(s, m) == Total(s, m')
  {
    if s != [] { TotalExt(s[1..], m, m'); }
  }

  lemma {:induction false} TotalUpdate(s: seq<Player>, m: map<Player, int>, p: Player, v: int)
    requires Distinct(s) && p in s && forall q :: q in s ==> q in m
    ensures Total(s, m[p := v]) == Total(s, m) - m[p] + v
  {
    if s[0] == p {
      TotalExt(s[1..], m, m[p := v]);
    } else {
      TotalUpdate(s[1..], m, p, v);
    }
  }

  lemma {:induction false} TotalSum(s: seq<Player>, a: map<Player, int>, b: map<Player, int>, c: map<Player, int>)
    requires forall p :: p in s ==> p in a && p in b && p in c && c[p] == a[p] + b[p]
    ensures Total(s, c) == Total(s, a) + Total(s, b)
  {
    if s != [] { TotalSum(s[1..], a, b, c); }
  }

  /** A ledger splits into the part of the kept members and the part of the dropped ones. */
  lemma {:induction false} TotalPartition(s: seq<Player>, keep: set<Player>, m: map<Player, int>)
    requires forall p :: p in s ==> p in m
    ensures Total(s, m) == Total(Only(s, keep), m) + Total(Only(s, Elems(s) - keep), m)
  {
    if s != [] {
      TotalPartition(s[1..], keep, m);
      OnlySame(s[1..], Elems(s) - keep, Elems(s[1..]) - keep);
    }
  }

  lemma {:induction false} OnlyOnly(s: seq<Player>, a: set<Player>, b: set<Player>)
    ensures Only(Only(s, a), b) == Only(s, a * b)
  {
    if s != [] { OnlyOnly(s[1..], a, b); }
  }

  lemma {:induction false} OnlySame(s: seq<Player>, keep: set<Player>, keep': set<Player>)
    requires forall p :: p in s ==> (p in keep <==> p in keep')
    ensures Only(s, keep) == Only(s, keep')
  {
    if s != [] { OnlySame(s[1..], keep, keep'); }
  }

  lemma {:induction false} TotalNonNegative(s: seq<Player>, m: map<Player, int>)
    requires forall p :: p in s ==> p in m && m[p] >= 0
    ensures Total(s, m) >= 0
    ensures forall p :: p in s ==> m[p] <= Total(s, m)
  {
    if s != [] { TotalNonNegative(s[1..], m); }
  }

  lemma {:induction false} TotalZero(s: seq<Player>, m: map<Player, int>)
    requires forall p :: p in s ==> p in m && m[p] == 0
    ensures Total(s, m) == 0
  {
    if s != [] { TotalZero(s[1..], m); }
  }

  // ---- dictionaries filled by a loop over the seats ----

  /** `m` after the assignments `m[p] = f[p]` for the first `n` seats. */
  function Assigned<V>(m: map<Player, V>, s: seq<Player>, f: map<Player, V>, n: nat): map<Player, V>
    requires n <= |s| && forall p :: p in s ==> p in f
  {
    if n == 0 then m else Assigned(m, s, f, n - 1)[s[n - 1] := f[s[n - 1]]]
  }

  lemma {:induction false} AssignedAt<V>(m: map<Player, V>, s: seq<Player>, f: map<Player, V>, n: nat, p: Player)
    requires n <= |s| && forall q :: q in s ==> q in f
    ensures p in Assigned(m, s, f, n) <==> p in m || p in s[..n]
    ensures p in s[..n] ==> Assigned(m, s, f, n)[p] == f[p]
    ensures p in m && p !in s[..n] ==> Assigned(m, s, f, n)[p] == m[p]
  {
    if n > 0 {
      AssignedAt(m, s, f, n - 1, p);
      assert s[..n] == s[..n - 1] + [s[n - 1]];
    }
  }

  lemma AllAssigned<V>(m: map<Player, V>, s: seq<Player>, f: map<Player, V>)
    requires f.Keys == Elems(s) && m.Keys <= Elems(s)
    ensures Assigned(m, s, f, |s|) == f
  {
    assert s[..|s|] == s;
    forall p: Player ensures p in Assigned(m, s, f, |s|) <==> p in f { AssignedAt(m, s, f, |s|, p); }
    forall p: Player | p in f ensures Assigned(m, s, f, |s|)[p] == f[p] { AssignedAt(m, s, f, |s|, p); }
    hide Assigned;
  }

  /** Seat `n` is the next one, and no other place holds the same player. */
  lemma SeatAt(s: seq<Player>, n: nat)
    requires Distinct(s) && n < |s|
    ensures s[..n + 1] == s[..n] + [s[n]] && s[n..] == [s[n]] + s[n + 1..]
    ensures s[n] !in s[..n] && s[n] !in s[n + 1..]
  {
  }
}
