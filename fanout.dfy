/**
 * The all-or-nothing aggregation both providers use (a multierror.Group whose
 * tasks append their clusters to one shared slice under a mutex), modelled as
 * a sequential fold over the units' outcomes. Each unit either yields its
 * clusters or fails; the aggregate succeeds with every unit's clusters when
 * no unit failed, and otherwise fails with every unit's error.
 *
 * The goroutines finish in no fixed order, so the fold is stated for the
 * units in launch order and CombineIgnoresOrder shows that any other order
 * gives the same verdict, the same clusters and the same errors, up to order.
 */
module FanOut {
  import opened Clusters

  /** The outcome of one fetch unit. */
  type Unit = Result<seq<Cluster>>

  predicate AllOk(units: seq<Unit>) {
    forall i :: 0 <= i < |units| ==> units[i].Ok?
  }

  /** What adding one task's error contributes to the aggregate error
      (multierror.Append): the members of a non-empty composite error are
      spliced in, any other error is added as it is. */
  function Spliced(e: Error): (r: seq<Error>)
    ensures r != []
  {
    if e.Composite? && e.errors != [] then e.errors else [e]
  }

  /** No error in the list is itself a composite. */
  predicate Flat(errs: seq<Error>) {
    forall i :: 0 <= i < |errs| ==> !errs[i].Composite?
  }

  /** The errors of the failing units, in order, composite ones spliced in. */
  function Failures(units: seq<Unit>): (r: seq<Error>)
    ensures r == [] <==> AllOk(units)
    decreases |units|
  {
    if units == [] then []
    else (if units[0].Err? then Spliced(units[0].error) else []) + Failures(units[1..])
  }

  /** Splicing keeps the aggregate one level deep: when every failing unit's
      contribution is flat, so is the whole list of errors. */
  lemma {:induction false} FailuresFlat(units: seq<Unit>)
    requires forall i :: 0 <= i < |units| && units[i].Err? ==> Flat(Spliced(units[i].error))
    ensures Flat(Failures(units))
    decreases |units|
  {
    if units != [] {
      forall i | 0 <= i < |units[1..]| && units[1..][i].Err?
        ensures Flat(Spliced(units[1..][i].error))
      {
        assert units[1..][i] == units[i + 1];
      }
      FailuresFlat(units[1..]);
      var head: seq<Error> := if units[0].Err? then Spliced(units[0].error) else [];
      var rest := Failures(units[1..]);
      forall k | 0 <= k < |head + rest| ensures !(head + rest)[k].Composite? {
        if k < |head| { assert (head + rest)[k] == head[k]; }
        else { assert (head + rest)[k] == rest[k - |head|]; }
      }
    }
  }

  /** The number of clusters the successful units yield. */
  function TotalCount(units: seq<Unit>): nat
    decreases |units|
  {
    if units == [] then 0
    else (if units[0].Ok? then |units[0].value| else 0) + TotalCount(units[1..])
  }

  /** The successful units' clusters, one unit after the other. */
  function Flatten(units: seq<Unit>): (r: seq<Cluster>)
    ensures |r| == TotalCount(units)
    decreases |units|
  {
    if units == [] then []
    else (if units[0].Ok? then units[0].value else []) + Flatten(units[1..])
  }

  /** What the coordinator reports for a set of units run to completion. */
  function Combine(units: seq<Unit>): (r: Unit)
    ensures r.Ok? <==> AllOk(units)
    ensures r.Ok? ==> |r.value| == TotalCount(units)
    ensures r.Err? ==> r.error.Composite? && r.error.errors != []
  {
    var errs := Failures(units);
    if errs == [] then Ok(Flatten(units)) else Err(Composite(errs))
  }

  /** Aggregating two runs of units one after the other aggregates their concatenation. */
  lemma {:induction false} FlattenAppend(a: seq<Unit>, b: seq<Unit>)
    ensures Flatten(a + b) == Flatten(a) + Flatten(b)
    ensures Failures(a + b) == Failures(a) + Failures(b)
  {
    ClustersAppend(a, b);
    ErrorsAppend(a, b);
  }

  lemma {:induction false} ClustersAppend(a: seq<Unit>, b: seq<Unit>)
    ensures Flatten(a + b) == Flatten(a) + Flatten(b)
    decreases |a|
  {
    if a == [] {
      assert a + b == b;
    } else {
      assert (a + b)[1..] == a[1..] + b;
      ClustersAppend(a[1..], b);
      var head := if a[0].Ok? then a[0].value else [];
      assert Flatten(a + b) == head + (Flatten(a[1..]) + Flatten(b));
    }
  }

  lemma {:induction false} ErrorsAppend(a: seq<Unit>, b: seq<Unit>)
    ensures Failures(a + b) == Failures(a) + Failures(b)
    decreases |a|
  {
    if a == [] {
      assert a + b == b;
    } else {
      assert (a + b)[0] == a[0] && (a + b)[1..] == a[1..] + b;
      ErrorsAppend(a[1..], b);
      var head: seq<Error> := if a[0].Err? then Spliced(a[0].error) else [];
      assert Failures(a) == head + Failures(a[1..]);
      assert Failures(a + b) == head + Failures(a[1..] + b);
    }
  }

  /** Every cluster of every successful unit is in the aggregate, as often as
      the unit reported it. */
  lemma {:induction false} FlattenHoldsEachUnit(units: seq<Unit>, i: nat)
    requires i < |units| && units[i].Ok?
    ensures multiset(units[i].value) <= multiset(Flatten(units))
  {
    assert units == units[..i] + [units[i]] + units[i + 1..];
    FlattenAppend(units[..i] + [units[i]], units[i + 1..]);
    FlattenAppend(units[..i], [units[i]]);
  }

  /** Nothing in the aggregate was made up: every cluster comes from some successful unit. */
  lemma {:induction false} FlattenFrom(units: seq<Unit>, c: Cluster)
    requires c in Flatten(units)
    ensures exists i :: 0 <= i < |units| && units[i].Ok? && c in units[i].value
    decreases |units|
  {
    var head := if units[0].Ok? then units[0].value else [];
    if c !in head {
      FlattenFrom(units[1..], c);
      var i :| 0 <= i < |units[1..]| && units[1..][i].Ok? && c in units[1..][i].value;
      assert units[i + 1] == units[1..][i];
    }
  }

  /** Taking the unit at `k` out of `v` takes its clusters out of the aggregate. */
  lemma {:induction false} ClustersRemove(v: seq<Unit>, k: nat)
    requires k < |v|
    ensures multiset(Flatten(v)) == multiset(Flatten(v[..k] + v[k + 1..])) + multiset(Flatten([v[k]]))
  {
    var a, x, b := v[..k], v[k], v[k + 1..];
    assert v == a + ([x] + b);
    ClustersAppend(a, [x] + b);
    ClustersAppend([x], b);
    ClustersAppend(a, b);
    var fa, fx, fb := Flatten(a), Flatten([x]), Flatten(b);
    assert multiset(Flatten(v)) == multiset(fa) + multiset(fx) + multiset(fb);
  }

  /** Taking the unit at `k` out of `v` takes its error out of the collected errors. */
  lemma {:induction false} ErrorsRemove(v: seq<Unit>, k: nat)
    requires k < |v|
    ensures multiset(Failures(v)) == multiset(Failures(v[..k] + v[k + 1..])) + multiset(Failures([v[k]]))
  {
    var a, x, b := v[..k], v[k], v[k + 1..];
    assert v == a + ([x] + b);
    ErrorsAppend(a, [x] + b);
    ErrorsAppend([x], b);
    ErrorsAppend(a, b);
    var fa, fx, fb := Failures(a), Failures([x]), Failures(b);
    assert multiset(Failures(v)) == multiset(fa) + multiset(fx) + multiset(fb);
  }

  /** Matching the first unit of `u` with an equal unit of `v` leaves two
      runs that are again permutations of each other. */
  lemma {:induction false} RemoveMatched(u: seq<Unit>, v: seq<Unit>) returns (k: nat)
    requires multiset(u) == multiset(v) && u != []
    ensures k < |v| && v[k] == u[0]
    ensures multiset(u[1..]) == multiset(v[..k] + v[k + 1..])
  {
    var x := u[0];
    assert x in multiset(v);
    k :| 0 <= k < |v| && v[k] == x;
    var w := v[..k] + v[k + 1..];
    assert u == [x] + u[1..];
    assert v == v[..k] + [x] + v[k + 1..];
    assert multiset(u) == multiset(u[1..]) + multiset{x};
    assert multiset(v) == multiset(w) + multiset{x};
    assert multiset(u[1..]) == multiset(u) - multiset{x};
  }

  /** Reordering the units does not change the clusters, as a multiset. */
  lemma {:induction false} ClustersPermutation(u: seq<Unit>, v: seq<Unit>)
    requires multiset(u) == multiset(v)
    ensures multiset(Flatten(u)) == multiset(Flatten(v))
    decreases |u|
  {
    if u == [] {
      assert |v| == |multiset(v)| == 0;
    } else {
      var k := RemoveMatched(u, v);
      ClustersPermutation(u[1..], v[..k] + v[k + 1..]);
      ClustersRemove(v, k);
      assert u == [u[0]] + u[1..];
      ClustersAppend([u[0]], u[1..]);
    }
  }

  /** Reordering the units does not change the errors, as a multiset. */
  lemma {:induction false} ErrorsPermutation(u: seq<Unit>, v: seq<Unit>)
    requires multiset(u) == multiset(v)
    ensures multiset(Failures(u)) == multiset(Failures(v))
    decreases |u|
  {
    if u == [] {
      assert |v| == |multiset(v)| == 0;
    } else {
      var k := RemoveMatched(u, v);
      ErrorsPermutation(u[1..], v[..k] + v[k + 1..]);
      ErrorsRemove(v, k);
      assert u == [u[0]] + u[1..];
      ErrorsAppend([u[0]], u[1..]);
    }
  }

  /** The units may finish in any order: every order yields the same verdict,
      the same clusters and the same errors, up to order. */
  lemma {:induction false} CombineIgnoresOrder(u: seq<Unit>, v: seq<Unit>)
    requires multiset(u) == multiset(v)
    ensures Combine(u).Ok? <==> Combine(v).Ok?
    ensures Combine(u).Ok? ==> multiset(Combine(u).value) == multiset(Combine(v).value)
    ensures Combine(u).Err? ==> multiset(Combine(u).error.errors) == multiset(Combine(v).error.errors)
  {
    ClustersPermutation(u, v);
    ErrorsPermutation(u, v);
    if !AllOk(u) {
      var i :| 0 <= i < |u| && u[i].Err?;
      assert u[i] in multiset(v);
    }
    if !AllOk(v) {
      var i :| 0 <= i < |v| && v[i].Err?;
      assert v[i] in multiset(u);
    }
  }

  /** The coordinator: appends each successful unit's clusters to the shared
      result and collects each failing unit's error; once all units are in,
      any error discards the collected clusters. */
  method Gather(units: seq<Unit>) returns (r: Unit)
    ensures r == Combine(units)
    ensures r.Ok? <==> AllOk(units)
    ensures r.Ok? ==> |r.value| == TotalCount(units)
    ensures r.Ok? ==> forall i :: 0 <= i < |units| ==> multiset(units[i].value) <= multiset(r.value)
  {
    var result: seq<Cluster> := [];
    var errs: seq<Error> := [];
    var i := 0;
    while i < |units|
      invariant 0 <= i <= |units|
      invariant result == Flatten(units[..i])
      invariant errs == Failures(units[..i])
    {
      FlattenAppend(units[..i], [units[i]]);
      assert units[..i + 1] == units[..i] + [units[i]];
      if units[i].Ok? {
        result := result + units[i].value;
      } else {
        errs := errs + Spliced(units[i].error);
      }
      i := i + 1;
    }
    assert units[..i] == units;
    if errs != [] {
      r := Err(Composite(errs));
    } else {
      r := Ok(result);
      forall j | 0 <= j < |units| ensures multiset(units[j].value) <= multiset(r.value) {
        FlattenHoldsEachUnit(units, j);
      }
    }
  }
}
