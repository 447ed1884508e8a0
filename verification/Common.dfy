/** Small definitions shared by every component model. */
module Common {

  /** A value that may be absent: a null reference or a failed lookup. */
  datatype Option<+T> = None | Some(value: T)

  /** The sum of a list of weights; used for counting threads and for progress measures. */
  ghost function Sum(xs: seq<nat>): nat
  {
    if xs == [] then 0 else xs[0] + Sum(xs[1..])
  }

  /** Changing one weight changes the sum by exactly the difference. */
  lemma {:induction false} SumUpdate(xs: seq<nat>, i: nat, v: nat)
    requires i < |xs|
    ensures Sum(xs[i := v]) + xs[i] == Sum(xs) + v
  {
    var ys := xs[i := v];
    if i == 0 {
      assert ys[1..] == xs[1..];
    } else {
      SumUpdate(xs[1..], i - 1, v);
      assert ys[1..] == xs[1..][i - 1 := v];
    }
  }

  lemma {:induction false} SumAppend(xs: seq<nat>, x: nat)
    ensures Sum(xs + [x]) == Sum(xs) + x
  {
    if xs == [] {
      assert (xs + [x])[1..] == [];
    } else {
      SumAppend(xs[1..], x);
      assert (xs + [x])[1..] == xs[1..] + [x];
    }
  }

  /** One weight never exceeds the sum. */
  lemma {:induction false} SumMember(xs: seq<nat>, i: nat)
    requires i < |xs|
    ensures xs[i] <= Sum(xs)
  {
    if i > 0 {
      SumMember(xs[1..], i - 1);
    }
  }

  /** A positive sum has a positive weight. */
  lemma {:induction false} SumPositive(xs: seq<nat>) returns (i: nat)
    requires Sum(xs) > 0
    ensures i < |xs| && xs[i] > 0
  {
    if xs[0] > 0 {
      i := 0;
    } else {
      var j := SumPositive(xs[1..]);
      i := j + 1;
    }
  }

  /** A list of zeros sums to zero. */
  lemma {:induction false} SumZero(xs: seq<nat>)
    requires forall i | 0 <= i < |xs| :: xs[i] == 0
    ensures Sum(xs) == 0
  {
    if xs != [] {
      SumZero(xs[1..]);
    }
  }

  /** A non-empty set of numbers has a least element: the first key of an ordered map. */
  lemma {:induction false} LeastExists(s: set<nat>, x: nat)
    requires x in s
    ensures exists k :: k in s && forall j | j in s :: k <= j
    decreases x
  {
    if y :| y in s && y < x {
      LeastExists(s, y);
    }
  }

  lemma ConcatHead<T>(a: seq<T>, b: seq<T>)
    requires a != []
    ensures a + b == [a[0]] + (a[1..] + b)
  {
  }

  lemma SliceMore<T>(s: seq<T>, i: nat, j: nat)
    requires i <= j < |s|
    ensures s[i..j] + [s[j]] == s[i..j + 1]
  {
  }

  // ---------- choosing from a list ----------

  /** The positions whose element is chosen. */
  ghost function Chosen<T(!new)>(xs: seq<T>, p: T -> bool): set<int>
  {
    set i | 0 <= i < |xs| && p(xs[i])
  }

  /** How many elements before position i are chosen. */
  ghost function Rank<T(!new)>(xs: seq<T>, p: T -> bool, i: nat): nat
    requires i <= |xs|
  {
    |Chosen(xs[..i], p)|
  }

  /** `ys` is what f makes of exactly the chosen elements of `xs`, in order. */
  ghost predicate Picks<T(!new), U(!new)>(xs: seq<T>, p: T -> bool, f: T -> U, ys: seq<U>)
  {
    && |ys| == |Chosen(xs, p)|
    && forall i | 0 <= i < |xs| && p(xs[i]) :: Rank(xs, p, i) < |ys| && ys[Rank(xs, p, i)] == f(xs[i])
  }

  lemma ChosenMore<T(!new)>(xs: seq<T>, p: T -> bool, x: T)
    ensures |Chosen(xs + [x], p)| == |Chosen(xs, p)| + (if p(x) then 1 else 0)
    ensures forall i | 0 <= i <= |xs| :: Rank(xs + [x], p, i) == Rank(xs, p, i)
    ensures Rank(xs, p, |xs|) == |Chosen(xs, p)|
  {
    var all := xs + [x];
    assert forall i | 0 <= i < |xs| :: all[i] == xs[i];
    assert Chosen(all, p) == Chosen(xs, p) + (if p(x) then {|xs|} else {});
    assert forall i | 0 <= i <= |xs| :: all[..i] == xs[..i];
    assert xs[..|xs|] == xs;
  }

  /** One more element is picked or passed over. */
  lemma PicksMore<T(!new), U(!new)>(xs: seq<T>, p: T -> bool, f: T -> U, ys: seq<U>, x: T)
    requires Picks(xs, p, f, ys)
    ensures Picks(xs + [x], p, f, if p(x) then ys + [f(x)] else ys)
  {
    var all, zs := xs + [x], if p(x) then ys + [f(x)] else ys;
    ChosenMore(xs, p, x);
    forall i | 0 <= i < |all| && p(all[i]) ensures Rank(all, p, i) < |zs| && zs[Rank(all, p, i)] == f(all[i]) {
      if i < |xs| {
        assert all[i] == xs[i];
      }
    }
  }

  lemma PicksNothing<T(!new), U(!new)>(p: T -> bool, f: T -> U)
    ensures Picks([], p, f, [])
  {
    assert Chosen<T>([], p) == {};
  }
}
