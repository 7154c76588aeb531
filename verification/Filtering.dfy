/** What a list comprehension with a condition selects, whatever loop or recursion computes it. */
module Filtering {

  /** The positions in `xs` of the elements to keep, in order and each once. */
  ghost predicate Picks<T(!new)>(xs: seq<T>, keep: T -> bool, at: seq<nat>) {
    && (forall i :: 0 <= i < |at| ==> at[i] < |xs| && keep(xs[at[i]]))
    && (forall i, j :: 0 <= i < j < |at| ==> at[i] < at[j])
    && (forall k :: 0 <= k < |xs| && keep(xs[k]) ==> k in at)
  }

  /** `ys` is what is at those positions. */
  predicate Reads<T(==)>(ys: seq<T>, xs: seq<T>, at: seq<nat>)
    requires forall i :: 0 <= i < |at| ==> at[i] < |xs|
  {
    |ys| == |at| && forall i :: 0 <= i < |at| ==> ys[i] == xs[at[i]]
  }

  /** `ys` holds exactly the elements of `xs` to keep: in order, as often as they occur. */
  ghost predicate Filters<T(!new)>(ys: seq<T>, xs: seq<T>, keep: T -> bool) {
    exists at: seq<nat> :: Picks(xs, keep, at) && Reads(ys, xs, at)
  }

  lemma NothingToKeep<T(!new)>(keep: T -> bool)
    ensures Filters<T>([], [], keep)
  {
    assert Picks<T>([], keep, []);
  }

  /** One more element at the end. */
  lemma PicksSnoc<T(!new)>(xs: seq<T>, keep: T -> bool, at: seq<nat>, x: T)
    requires Picks(xs, keep, at)
    ensures keep(x) ==> Picks(xs + [x], keep, at + [|xs|])
    ensures !keep(x) ==> Picks(xs + [x], keep, at)
  {
    var xs', at' := xs + [x], at + [|xs|];
    assert at'[|at|] == |xs| && xs'[|xs|] == x;
    forall k | 0 <= k < |xs| && keep(xs'[k]) ensures k in at && k in at' {
      assert xs'[k] == xs[k];
    }
  }

  lemma FiltersSnoc<T(!new)>(ys: seq<T>, xs: seq<T>, keep: T -> bool, x: T)
    requires Filters(ys, xs, keep)
    ensures keep(x) ==> Filters(ys + [x], xs + [x], keep)
    ensures !keep(x) ==> Filters(ys, xs + [x], keep)
  {
    var at: seq<nat> :| Picks(xs, keep, at) && Reads(ys, xs, at);
    PicksSnoc(xs, keep, at, x);
    PicksBound(xs, keep, at);
    hide Picks;
    ReadsSnoc(ys, xs, at, x);
  }

  lemma ReadsSnoc<T>(ys: seq<T>, xs: seq<T>, at: seq<nat>, x: T)
    requires (forall i :: 0 <= i < |at| ==> at[i] < |xs|) && Reads(ys, xs, at)
    ensures (forall i :: 0 <= i < |at| ==> at[i] < |xs + [x]|) && Reads(ys, xs + [x], at)
    ensures (forall i :: 0 <= i < |at + [|xs|]| ==> (at + [|xs|])[i] < |xs + [x]|)
            && Reads(ys + [x], xs + [x], at + [|xs|])
  {}

  lemma PicksBound<T(!new)>(xs: seq<T>, keep: T -> bool, at: seq<nat>)
    requires Picks(xs, keep, at)
    ensures forall i :: 0 <= i < |at| ==> at[i] < |xs|
  {}

  /** The positions after one more element at the front. */
  function Shifted(at: seq<nat>): (r: seq<nat>)
    ensures |r| == |at| && forall i :: 0 <= i < |at| ==> r[i] == at[i] + 1
  {
    seq(|at|, i requires 0 <= i < |at| => at[i] + 1)
  }

  /** `xs'` is `x` and then `xs`. */
  predicate Begins<T(==)>(xs': seq<T>, x: T, xs: seq<T>) {
    |xs'| == |xs| + 1 && xs'[0] == x && forall k :: 1 <= k < |xs'| ==> xs'[k] == xs[k - 1]
  }

  lemma PicksDropped<T(!new)>(xs': seq<T>, x: T, xs: seq<T>, keep: T -> bool, at: seq<nat>)
    requires Picks(xs, keep, at) && Begins(xs', x, xs) && !keep(x)
    ensures Picks(xs', keep, Shifted(at))
  {
    hide Shifted;
    var at' := Shifted(at);
    forall k | 0 <= k < |xs'| && keep(xs'[k]) ensures k in at' {
      assert k > 0 && keep(xs[k - 1]);
      assert k - 1 in at;
      var i :| 0 <= i < |at| && at[i] == k - 1;
      assert at'[i] == k;
    }
  }

  function Prefixed(at: seq<nat>): (r: seq<nat>)
    ensures |r| == |at| + 1 && r[0] == 0 && forall i :: 1 <= i < |r| ==> r[i] == at[i - 1] + 1
  {
    seq(|at| + 1, i requires 0 <= i < |at| + 1 => if i == 0 then 0 else at[i - 1] + 1)
  }

  lemma PicksKept<T(!new)>(xs': seq<T>, x: T, xs: seq<T>, keep: T -> bool, at: seq<nat>)
    requires Picks(xs, keep, at) && Begins(xs', x, xs) && keep(x)
    ensures Picks(xs', keep, Prefixed(at))
  {
    hide Prefixed;
    var at' := Prefixed(at);
    forall k | 0 <= k < |xs'| && keep(xs'[k]) ensures k in at' {
      if k > 0 {
        assert k - 1 in at;
        var i :| 0 <= i < |at| && at[i] == k - 1;
        assert at'[i + 1] == k;
      } else {
        assert at'[0] == k;
      }
    }
  }

  lemma ReadsKept<T>(ys': seq<T>, x: T, ys: seq<T>, xs': seq<T>, xs: seq<T>, at: seq<nat>)
    requires (forall i :: 0 <= i < |at| ==> at[i] < |xs|) && Reads(ys, xs, at)
    requires ys' == [x] + ys && xs' != [] && xs'[0] == x && xs'[1..] == xs
    ensures (forall i :: 0 <= i < |Prefixed(at)| ==> Prefixed(at)[i] < |xs'|) && Reads(ys', xs', Prefixed(at))
  {
    hide Prefixed;
    var at' := Prefixed(at);
    forall i | 0 <= i < |at'| ensures at'[i] < |xs'| && ys'[i] == xs'[at'[i]] {
      if i > 0 { assert ys'[i] == ys[i - 1] && xs'[1..][at[i - 1]] == xs'[at[i - 1] + 1]; }
    }
  }

  lemma ReadsDropped<T>(ys: seq<T>, xs': seq<T>, xs: seq<T>, at: seq<nat>)
    requires (forall i :: 0 <= i < |at| ==> at[i] < |xs|) && Reads(ys, xs, at)
    requires xs' != [] && xs'[1..] == xs
    ensures (forall i :: 0 <= i < |at| ==> Shifted(at)[i] < |xs'|) && Reads(ys, xs', Shifted(at))
  {
    hide Shifted;
    var at' := Shifted(at);
    forall i | 0 <= i < |at'| ensures at'[i] < |xs'| && ys[i] == xs'[at'[i]] {
      assert xs'[1..][at[i]] == xs'[at[i] + 1];
    }
  }

  /** A filter is determined by what it filters. */
  lemma FiltersUnique<T(!new)>(ys: seq<T>, zs: seq<T>, xs: seq<T>, keep: T -> bool)
    requires Filters(ys, xs, keep) && Filters(zs, xs, keep)
    ensures ys == zs
  {
    var at: seq<nat> :| Picks(xs, keep, at) && Reads(ys, xs, at);
    var bt: seq<nat> :| Picks(xs, keep, bt) && Reads(zs, xs, bt);
    hide Picks, Filters;
    forall k: nat ensures k in at <==> k in bt {
      PicksAre(xs, keep, at, k);
      PicksAre(xs, keep, bt, k);
    }
    PicksAre(xs, keep, at, 0);
    PicksAre(xs, keep, bt, 0);
    SamePicks(at, bt);
  }

  lemma PicksAre<T(!new)>(xs: seq<T>, keep: T -> bool, at: seq<nat>, k: nat)
    requires Picks(xs, keep, at)
    ensures Ascending(at) && (k in at <==> k < |xs| && keep(xs[k]))
  {}

  predicate Ascending(at: seq<nat>) {
    forall i, j :: 0 <= i < j < |at| ==> at[i] < at[j]
  }

  /** The last of an ascending list is its greatest, and occurs once. */
  lemma WithoutLast(at: seq<nat>, k: nat)
    requires Ascending(at) && at != []
    ensures Ascending(at[..|at| - 1])
    ensures k in at[..|at| - 1] <==> k in at && k != at[|at| - 1]
    ensures k in at ==> k <= at[|at| - 1]
  {
    var last := |at| - 1;
    assert at == at[..last] + [at[last]];
    if k in at[..last] {
      var i :| 0 <= i < last && at[..last][i] == k;
      assert at[i] < at[last];
    }
  }

  /** Two ascending lists of the same positions are equal. */
  lemma {:induction false} SamePicks(at: seq<nat>, bt: seq<nat>)
    requires Ascending(at) && Ascending(bt)
    requires forall k :: k in at <==> k in bt
    ensures at == bt
    decreases |at|
  {
    assert bt == [] || bt[0] in bt;
    if at == [] {
    } else {
      assert at[0] in at;
      hide Ascending;
      var a, b := at[|at| - 1], bt[|bt| - 1];
      var front, front' := at[..|at| - 1], bt[..|bt| - 1];
      assert a in at && b in bt;
      WithoutLast(at, b);
      WithoutLast(bt, a);
      forall k: nat ensures k in front <==> k in front' {
        WithoutLast(at, k);
        WithoutLast(bt, k);
      }
      SamePicks(front, front');
      assert at == front + [a] && bt == front' + [b];
    }
  }
}
