/** Small shared vocabulary: optional values and order-preserving selection. */
module Common {

  datatype Option<+T> = None | Some(value: T)

  /** `[x for x in xs if keep(x)]` */
  function Filter<T(!new)>(xs: seq<T>, keep: T -> bool): (kept: seq<T>)
    ensures forall x :: x in kept <==> x in xs && keep(x)
    ensures |kept| <= |xs|
  {
    if xs == [] then []
    else (if keep(xs[0]) then [xs[0]] else []) + Filter(xs[1..], keep)
  }

  lemma FilterAppend<T(!new)>(xs: seq<T>, ys: seq<T>, keep: T -> bool)
    ensures Filter(xs + ys, keep) == Filter(xs, keep) + Filter(ys, keep)
  {
    if xs == [] {
      assert xs + ys == ys;
    } else {
      assert (xs + ys)[1..] == xs[1..] + ys;
      FilterAppend(xs[1..], ys, keep);
    }
  }

  lemma FilterNone<T(!new)>(xs: seq<T>, keep: T -> bool)
    requires forall x :: x in xs ==> !keep(x)
    ensures Filter(xs, keep) == []
  {
  }

  lemma FilterAll<T(!new)>(xs: seq<T>, keep: T -> bool)
    requires forall x :: x in xs ==> keep(x)
    ensures Filter(xs, keep) == xs
  {
  }

  lemma FilterTwice<T(!new)>(xs: seq<T>, inner: T -> bool, outer: T -> bool)
    requires forall x :: outer(x) ==> inner(x)
    ensures Filter(Filter(xs, inner), outer) == Filter(xs, outer)
  {
    if xs != [] {
      FilterTwice(xs[1..], inner, outer);
      FilterAppend(if inner(xs[0]) then [xs[0]] else [], Filter(xs[1..], inner), outer);
    }
  }

  /** Selecting twice is selecting by both. */
  lemma {:induction false} FilterBoth<T(!new)>(xs: seq<T>, inner: T -> bool, outer: T -> bool, both: T -> bool)
    requires forall x :: both(x) <==> inner(x) && outer(x)
    ensures Filter(Filter(xs, inner), outer) == Filter(xs, both)
  {
    if xs != [] {
      FilterBoth(xs[1..], inner, outer, both);
      FilterAppend(if inner(xs[0]) then [xs[0]] else [], Filter(xs[1..], inner), outer);
    }
  }

  /** Exactly the element at this place is selected. */
  predicate SelectsOnly<T(!new)>(xs: seq<T>, p: T -> bool, i: nat) {
    i < |xs| && forall j :: 0 <= j < |xs| ==> (p(xs[j]) <==> j == i)
  }

  predicate SelectsBoth<T(!new)>(xs: seq<T>, p: T -> bool, i: nat, j: nat) {
    i < j < |xs| && p(xs[i]) && p(xs[j])
  }

  lemma {:induction false} NoneSelected<T(!new)>(xs: seq<T>, p: T -> bool)
    ensures Filter(xs, p) == [] <==> forall i :: 0 <= i < |xs| ==> !p(xs[i])
  {
    if Filter(xs, p) != [] {
      assert Filter(xs, p)[0] in Filter(xs, p);
    } else {
      forall i | 0 <= i < |xs|
        ensures !p(xs[i])
      {
        assert xs[i] in xs;
      }
    }
  }

  lemma {:induction false} OneSelected<T(!new)>(xs: seq<T>, p: T -> bool)
    ensures |Filter(xs, p)| == 1 <==> exists i: nat :: SelectsOnly(xs, p, i)
  {
    if xs != [] {
      OneSelected(xs[1..], p);
      NoneSelected(xs[1..], p);
      forall i: nat | SelectsOnly(xs[1..], p, i) && !p(xs[0])
        ensures SelectsOnly(xs, p, i + 1)
      {
        assert forall j :: 1 <= j < |xs| ==> xs[j] == xs[1..][j - 1];
      }
      forall i: nat | SelectsOnly(xs, p, i)
        ensures if i == 0 then Filter(xs[1..], p) == [] else SelectsOnly(xs[1..], p, i - 1)
      {
        assert forall j :: 0 <= j < |xs| - 1 ==> xs[1..][j] == xs[j + 1];
      }
      if p(xs[0]) && Filter(xs[1..], p) == [] {
        assert forall j :: 1 <= j < |xs| ==> xs[j] == xs[1..][j - 1];
        assert SelectsOnly(xs, p, 0);
      }
    }
  }

  lemma {:induction false} SeveralSelected<T(!new)>(xs: seq<T>, p: T -> bool)
    ensures |Filter(xs, p)| > 1 <==> exists i: nat, j: nat :: SelectsBoth(xs, p, i, j)
  {
    if xs != [] {
      SeveralSelected(xs[1..], p);
      NoneSelected(xs[1..], p);
      forall i: nat, j: nat | SelectsBoth(xs[1..], p, i, j)
        ensures SelectsBoth(xs, p, i + 1, j + 1)
      {
      }
      forall i: nat, j: nat | SelectsBoth(xs, p, i, j)
        ensures if i == 0 then p(xs[0]) && Filter(xs[1..], p) != [] else SelectsBoth(xs[1..], p, i - 1, j - 1)
      {
        assert xs[1..][j - 1] == xs[j];
      }
      if p(xs[0]) && Filter(xs[1..], p) != [] {
        var j :| 0 <= j < |xs| - 1 && p(xs[1..][j]);
        assert SelectsBoth(xs, p, 0, j + 1);
      }
    }
  }

  /** The position of the only element satisfying `p`; none when there is no such element or several. */
  function OnlyIndex<T(!new)>(xs: seq<T>, p: T -> bool): (index: Option<nat>)
    ensures index.Some? ==> index.value < |xs| && p(xs[index.value])
    ensures index.Some? <==> |Filter(xs, p)| == 1
    ensures index.Some? ==> Filter(xs, p) == [xs[index.value]]
  {
    if xs == [] then None
    else if p(xs[0]) then
      if Filter(xs[1..], p) == [] then Some(0) else None
    else
      match OnlyIndex(xs[1..], p)
      case None => None
      case Some(i) => Some(i + 1)
  }

  /** Replacing the only candidate leaves the replacement as the only one selected. */
  lemma {:induction false} ReplaceOnly<T(!new)>(xs: seq<T>, p: T -> bool, q: T -> bool, i: nat, y: T)
    requires OnlyIndex(xs, p) == Some(i)
    requires q(y) && forall x :: q(x) ==> p(x)
    ensures Filter(xs[i := y], q) == [y]
  {
    if p(xs[0]) {
      assert xs[i := y][1..] == xs[1..];
      FilterNone(xs[1..], q);
    } else {
      assert xs[i := y][1..] == xs[1..][i - 1 := y];
      ReplaceOnly(xs[1..], p, q, i - 1, y);
    }
  }

  /** The newest `limit` entries: the oldest are dropped one by one. */
  function KeepLast<T>(entries: seq<T>, limit: nat): (kept: seq<T>)
    ensures |kept| == if |entries| <= limit then |entries| else limit
  {
    if |entries| <= limit then entries else KeepLast(entries[1..], limit)
  }

  lemma {:induction false} KeepLastIsSuffix<T>(entries: seq<T>, limit: nat)
    ensures KeepLast(entries, limit) == if |entries| <= limit then entries else entries[|entries| - limit..]
  {
    if |entries| > limit {
      KeepLastIsSuffix(entries[1..], limit);
    }
  }
}
