/** The shape of the per-article loop of `search_news`: each item is turned
    into a value or dropped, and what survives is appended in order. */
module Pipeline {
  import opened Wrappers

  function Emitted<B>(r: Option<B>): seq<B> {
    if r.Some? then [r.value] else []
  }

  /** The values of the items that yield one, in item order. */
  function FilterMap<A, B>(xs: seq<A>, f: A -> Option<B>): (ys: seq<B>)
    ensures |ys| <= |xs|
    decreases |xs|
  {
    if xs == [] then [] else FilterMap(xs[..|xs| - 1], f) + Emitted(f(xs[|xs| - 1]))
  }

  /** The positions of the items that yield a value, in order. */
  ghost function Survivors<A, B>(xs: seq<A>, f: A -> Option<B>): seq<int>
    decreases |xs|
  {
    if xs == [] then []
    else Survivors(xs[..|xs| - 1], f) + (if f(xs[|xs| - 1]).Some? then [|xs| - 1] else [])
  }

  /** The k-th value comes from the k-th surviving item. */
  lemma {:induction false} SurvivorsYieldValues<A, B>(xs: seq<A>, f: A -> Option<B>)
    ensures |Survivors(xs, f)| == |FilterMap(xs, f)|
    ensures forall k :: 0 <= k < |Survivors(xs, f)| ==>
      0 <= Survivors(xs, f)[k] < |xs| && f(xs[Survivors(xs, f)[k]]) == Some(FilterMap(xs, f)[k])
    decreases |xs|
  {
    if xs != [] {
      var n := |xs| - 1;
      var front := xs[..n];
      SurvivorsYieldValues(front, f);
      var idx0, ys0 := Survivors(front, f), FilterMap(front, f);
      var idx, ys := Survivors(xs, f), FilterMap(xs, f);
      forall k | 0 <= k < |idx|
        ensures 0 <= idx[k] < |xs| && f(xs[idx[k]]) == Some(ys[k])
      {
        if k < |idx0| {
          assert idx[k] == idx0[k] && ys[k] == ys0[k];
          assert front[idx0[k]] == xs[idx0[k]];
        }
      }
    }
  }

  /** Survivors are listed in increasing position, all below |xs|. */
  lemma {:induction false} SurvivorsIncrease<A, B>(xs: seq<A>, f: A -> Option<B>)
    ensures forall k :: 0 <= k < |Survivors(xs, f)| ==> 0 <= Survivors(xs, f)[k] < |xs|
    ensures forall a, b :: 0 <= a < b < |Survivors(xs, f)| ==> Survivors(xs, f)[a] < Survivors(xs, f)[b]
    decreases |xs|
  {
    if xs != [] {
      SurvivorsIncrease(xs[..|xs| - 1], f);
    }
  }

  /** An item survives if and only if its position is listed. */
  lemma {:induction false} SurvivorsComplete<A, B>(xs: seq<A>, f: A -> Option<B>)
    ensures forall i :: 0 <= i < |xs| ==> (f(xs[i]).Some? <==> i in Survivors(xs, f))
    decreases |xs|
  {
    if xs != [] {
      var n := |xs| - 1;
      var front := xs[..n];
      SurvivorsComplete(front, f);
      SurvivorsIncrease(front, f);
      forall i | 0 <= i < |xs|
        ensures f(xs[i]).Some? <==> i in Survivors(xs, f)
      {
        if i < n {
          assert front[i] == xs[i];
          assert i in Survivors(front, f) <==> i in Survivors(xs, f);
        }
      }
    }
  }

  /** Nothing is produced exactly when no item yields a value. */
  lemma {:induction false} FilterMapEmpty<A, B>(xs: seq<A>, f: A -> Option<B>)
    ensures FilterMap(xs, f) == [] <==> forall i :: 0 <= i < |xs| ==> f(xs[i]).None?
    decreases |xs|
  {
    if xs != [] {
      var n := |xs| - 1;
      FilterMapEmpty(xs[..n], f);
      assert forall i :: 0 <= i < n ==> xs[..n][i] == xs[i];
    }
  }

  /** Two stretches of items filtered one after the other. */
  lemma {:induction false} FilterMapConcat<A, B>(a: seq<A>, b: seq<A>, f: A -> Option<B>)
    ensures FilterMap(a + b, f) == FilterMap(a, f) + FilterMap(b, f)
    decreases |b|
  {
    if b == [] {
      assert a + b == a;
    } else {
      var n := |b| - 1;
      assert (a + b)[..|a + b| - 1] == a + b[..n];
      assert (a + b)[|a + b| - 1] == b[n];
      FilterMapConcat(a, b[..n], f);
    }
  }

  /** An item that yields nothing leaves the values of the items on either
      side of it as they are. */
  lemma FilterMapSkip<A, B>(a: seq<A>, x: A, b: seq<A>, f: A -> Option<B>)
    requires f(x).None?
    ensures FilterMap(a + [x] + b, f) == FilterMap(a, f) + FilterMap(b, f)
  {
    var ax := a + [x];
    FilterMapConcat(ax, b, f);
    assert ax[..|ax| - 1] == a && ax[|ax| - 1] == x;
    assert FilterMap(ax, f) == FilterMap(a, f);
  }

  /** Every value produced satisfies what every produced value satisfies. */
  lemma {:induction false} FilterMapAll<A, B>(xs: seq<A>, f: A -> Option<B>, P: B -> bool)
    requires forall x :: f(x).Some? ==> P(f(x).value)
    ensures forall y :: y in FilterMap(xs, f) ==> P(y)
    decreases |xs|
  {
    if xs != [] {
      FilterMapAll(xs[..|xs| - 1], f, P);
    }
  }
}
