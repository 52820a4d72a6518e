/** Options, powers, and sums over sequences and sets with the laws the protocol proofs use. */
module Common {

  datatype Option<+T> = None | Some(value: T)

  datatype Result<+T, +E> = Ok(value: T) | Err(error: E)

  function Max(a: int, b: int): int {
    if a < b then b else a
  }

  function Pow(b: int, n: nat): int {
    if n == 0 then 1 else b * Pow(b, n - 1)
  }

  lemma {:induction false} PowPositive(b: int, n: nat)
    requires b >= 1
    ensures Pow(b, n) >= 1
  {
    if n > 0 {
      PowPositive(b, n - 1);
      assert b * Pow(b, n - 1) >= 1 * Pow(b, n - 1);
    }
  }

  lemma {:induction false} PowMonotone(b: int, m: nat, n: nat)
    requires b >= 1 && m <= n
    ensures Pow(b, m) <= Pow(b, n)
    decreases n
  {
    if m < n {
      PowMonotone(b, m, n - 1);
      PowPositive(b, n - 1);
      assert b * Pow(b, n - 1) >= 1 * Pow(b, n - 1);
    }
  }

  // ---------- Sums over sequences ----------

  function Sum<T>(xs: seq<T>, f: T -> nat): nat {
    if xs == [] then 0 else f(xs[0]) + Sum(xs[1..], f)
  }

  lemma {:induction false} SumConcat<T>(xs: seq<T>, ys: seq<T>, f: T -> nat)
    ensures Sum(xs + ys, f) == Sum(xs, f) + Sum(ys, f)
  {
    if xs == [] {
      assert xs + ys == ys;
    } else {
      SumConcat(xs[1..], ys, f);
      assert (xs + ys)[1..] == xs[1..] + ys;
    }
  }

  lemma SumAppend<T>(xs: seq<T>, x: T, f: T -> nat)
    ensures Sum(xs + [x], f) == Sum(xs, f) + f(x)
  {
    SumConcat(xs, [x], f);
    assert Sum([x], f) == f(x) + Sum([x][1..], f);
  }

  lemma SumUpdate<T>(xs: seq<T>, i: nat, x: T, f: T -> nat)
    requires i < |xs|
    ensures Sum(xs[i := x], f) + f(xs[i]) == Sum(xs, f) + f(x)
    ensures f(xs[i]) <= Sum(xs, f)
  {
    assert xs == xs[..i] + ([xs[i]] + xs[i + 1..]);
    assert xs[i := x] == xs[..i] + ([x] + xs[i + 1..]);
    SumConcat(xs[..i], [xs[i]] + xs[i + 1..], f);
    SumConcat(xs[..i], [x] + xs[i + 1..], f);
    assert ([xs[i]] + xs[i + 1..])[1..] == xs[i + 1..];
    assert ([x] + xs[i + 1..])[1..] == xs[i + 1..];
  }

  /** Two different positions weigh at most the whole. */
  lemma SumPair<T>(xs: seq<T>, i: nat, j: nat, f: T -> nat)
    requires i < j < |xs|
    ensures f(xs[i]) + f(xs[j]) <= Sum(xs, f)
  {
    assert xs == xs[..j] + xs[j..];
    SumConcat(xs[..j], xs[j..], f);
    SumUpdate(xs[..j], i, xs[i], f);
    SumUpdate(xs[j..], 0, xs[j], f);
  }

  lemma {:induction false} SumBound<T>(xs: seq<T>, f: T -> nat, bound: nat)
    requires forall x :: x in xs ==> f(x) <= bound
    ensures Sum(xs, f) <= bound * |xs|
  {
    if xs != [] {
      SumBound(xs[1..], f, bound);
      assert bound * |xs| == bound * |xs[1..]| + bound;
    }
  }

  lemma {:induction false} SumLe<T>(xs: seq<T>, f: T -> nat, g: T -> nat)
    requires forall x :: x in xs ==> f(x) <= g(x)
    ensures Sum(xs, f) <= Sum(xs, g)
  {
    if xs != [] {
      SumLe(xs[1..], f, g);
    }
  }

  // ---------- Sums over picked positions ----------

  predicate Distinct<T(==)>(xs: seq<T>) {
    forall i, j :: 0 <= i < j < |xs| ==> xs[i] != xs[j]
  }

  predicate Within(picks: seq<nat>, n: nat) {
    forall i :: 0 <= i < |picks| ==> picks[i] < n
  }

  function PickSum<T>(xs: seq<T>, picks: seq<nat>, f: T -> nat): nat
    requires Within(picks, |xs|)
  {
    if picks == [] then 0 else f(xs[picks[0]]) + PickSum(xs, picks[1..], f)
  }

  /** Distinct positions of a sequence weigh no more than the whole sequence. */
  lemma {:induction false} PickSumLe<T>(xs: seq<T>, picks: seq<nat>, f: T -> nat)
    requires Within(picks, |xs|)
    requires Distinct(picks)
    ensures PickSum(xs, picks, f) <= Sum(xs, f)
  {
    var flags := seq(|xs|, i requires 0 <= i < |xs| => if i in picks then f(xs[i]) else 0);
    PickSumFlags(xs, picks, f, flags);
    FlagsLe(xs, f, flags);
  }

  function Total(ns: seq<nat>): nat {
    if ns == [] then 0 else ns[0] + Total(ns[1..])
  }

  lemma {:induction false} TotalUpdate(ns: seq<nat>, i: nat, n: nat)
    requires i < |ns|
    ensures Total(ns[i := n]) + ns[i] == Total(ns) + n
  {
    if i == 0 {
      assert ns[i := n][1..] == ns[1..];
    } else {
      TotalUpdate(ns[1..], i - 1, n);
      assert ns[i := n][1..] == ns[1..][i - 1 := n];
    }
  }

  lemma {:induction false} PickSumFlags<T>(xs: seq<T>, picks: seq<nat>, f: T -> nat, flags: seq<nat>)
    requires Within(picks, |xs|)
    requires Distinct(picks)
    requires |flags| == |xs|
    requires forall i :: 0 <= i < |xs| ==> flags[i] == if i in picks then f(xs[i]) else 0
    ensures PickSum(xs, picks, f) == Total(flags)
    decreases |picks|
  {
    if picks == [] {
      AllZero(flags);
    } else {
      var p := picks[0];
      var rest := flags[p := 0];
      assert p !in picks[1..];
      forall i | 0 <= i < |xs|
        ensures rest[i] == if i in picks[1..] then f(xs[i]) else 0
      {
        assert i in picks <==> i == p || i in picks[1..];
      }
      PickSumFlags(xs, picks[1..], f, rest);
      TotalUpdate(flags, p, 0);
    }
  }

  lemma {:induction false} AllZero(ns: seq<nat>)
    requires forall i :: 0 <= i < |ns| ==> ns[i] == 0
    ensures Total(ns) == 0
  {
    if ns != [] {
      AllZero(ns[1..]);
    }
  }

  lemma {:induction false} FlagsLe<T>(xs: seq<T>, f: T -> nat, flags: seq<nat>)
    requires |flags| == |xs|
    requires forall i :: 0 <= i < |xs| ==> flags[i] <= f(xs[i])
    ensures Total(flags) <= Sum(xs, f)
  {
    if xs != [] {
      FlagsLe(xs[1..], f, flags[1..]);
    }
  }

  // ---------- Sums over sets ----------

  lemma Member<T>(s: set<T>) returns (x: T)
    requires s != {}
    ensures x in s
  {
    x :| x in s;
  }

  ghost function Tally<T(!new)>(s: set<T>, f: T -> nat): nat {
    if s == {} then 0 else var x :| x in s; f(x) + Tally(s - {x}, f)
  }

  lemma {:induction false} TallyRemove<T(!new)>(s: set<T>, x: T, f: T -> nat)
    requires x in s
    ensures Tally(s, f) == f(x) + Tally(s - {x}, f)
    decreases |s|
  {
    var y :| y in s && Tally(s, f) == f(y) + Tally(s - {y}, f);
    if y != x {
      TallyRemove(s - {y}, x, f);
      TallyRemove(s - {x}, y, f);
      assert s - {y} - {x} == s - {x} - {y};
    }
  }

  lemma TallyAdd<T(!new)>(s: set<T>, x: T, f: T -> nat)
    requires x !in s
    ensures Tally(s + {x}, f) == Tally(s, f) + f(x)
  {
    TallyRemove(s + {x}, x, f);
    assert s + {x} - {x} == s;
  }
}
