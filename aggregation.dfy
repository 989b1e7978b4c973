/** `_calc_expval_map` and `_postprocess_pub`: the estimates of each measurement
    variant filed under (bindings index, Pauli label), and the weighted sums
    that give each broadcast position its expectation value and standard error. */
module Aggregation {
  import opened Errors
  import opened Paulis
  import opened Circuits
  import opened Estimator
  import opened Pubs
  import opened Collections

  type Key = (ParamIndex, string)

  /** An expectation value and the variance reported with it. */
  type Estimate = (real, real)

  // ----- _calc_expval_map -----------------------------------------------------------

  /** A histogram and metadata `_calc_expval_map` can use: measurement metadata
      and outcome keys that parse. */
  predicate Usable(count: Counts, meta: Meta)
  {
    meta.Measured? && AllParse(count)
  }

  function EstimateOf(count: Counts, mask: nat): Estimate
    requires AllParse(count) && Total(count) > 0
  {
    var e := Expval(count, mask);
    (e, 1.0 - e * e)
  }

  /** The entries one variant writes: each original Pauli's label, under the
      variant's bindings index, with the estimate of its restricted Pauli. */
  function EntriesOf(count: Counts, meta: Meta): (es: seq<(Key, Estimate)>)
    requires Usable(count, meta) && Total(count) > 0
  {
    var inds := PaulisToInds(meta.measPaulis);
    var m := Min(|meta.origPaulis|, |meta.measPaulis|);
    seq(m, k requires 0 <= k < m => ((meta.paramIndex, Label(meta.origPaulis[k])), EstimateOf(count, inds[k])))
  }

  predicate AllUsable(counts: seq<Counts>, metadata: seq<Meta>, n: nat)
    requires n <= |counts| && n <= |metadata|
  {
    forall t :: 0 <= t < n ==> Usable(counts[t], metadata[t])
  }

  lemma {:induction false} AllUsableStep(counts: seq<Counts>, metadata: seq<Meta>, t: nat)
    requires t < |counts| && t < |metadata| && AllUsable(counts, metadata, t) && Usable(counts[t], metadata[t])
    ensures AllUsable(counts, metadata, t + 1)
  {
  }

  predicate Positive(counts: seq<Counts>)
  {
    forall t :: 0 <= t < |counts| ==> Total(counts[t]) > 0
  }

  /** The entries of the first n pairs of `zip(counts, metadata)`, in write order. */
  function AllEntries(counts: seq<Counts>, metadata: seq<Meta>, n: nat): seq<(Key, Estimate)>
    requires n <= |counts| && n <= |metadata| && Positive(counts) && AllUsable(counts, metadata, n)
  {
    if n == 0 then [] else AllEntries(counts, metadata, n - 1) + EntriesOf(counts[n - 1], metadata[n - 1])
  }

  /** `zip(orig_paulis, expvals, variances)` turned into dictionary entries. */
  function Zip3(paramIndex: ParamIndex, orig: seq<Pauli>, expvals: seq<real>, variances: seq<real>): seq<(Key, Estimate)>
  {
    var n := Min(Min(|orig|, |expvals|), |variances|);
    seq(n, k requires 0 <= k < n => ((paramIndex, Label(orig[k])), (expvals[k], variances[k])))
  }

  /** The inner loop of `_calc_expval_map`: the entries of one variant. */
  method AddEntries(m0: map<Key, Estimate>, paramIndex: ParamIndex, orig: seq<Pauli>, expvals: seq<real>, variances: seq<real>)
    returns (m: map<Key, Estimate>)
    ensures m == Override(m0, Zip3(paramIndex, orig, expvals, variances))
  {
    var n := Min(Min(|orig|, |expvals|), |variances|);
    ghost var es := Zip3(paramIndex, orig, expvals, variances);
    m := m0;
    for k := 0 to n
      invariant m == Override(m0, es[..k])
    {
      m := m[(paramIndex, Label(orig[k])) := (expvals[k], variances[k])];
      assert es[..k + 1][..k] == es[..k];
    }
    assert es[..n] == es;
  }

  /** What `_pauli_expval_with_variance` returns for a variant, zipped with its
      original Paulis, is that variant's entries. */
  lemma {:induction false} EstimatesAreEntries(count: Counts, meta: Meta, expvals: seq<real>, variances: seq<real>)
    requires Usable(count, meta) && Total(count) > 0
    requires var inds := PaulisToInds(meta.measPaulis);
      |expvals| == |meta.measPaulis| && |variances| == |meta.measPaulis| &&
      forall k :: 0 <= k < |meta.measPaulis| ==>
        expvals[k] == Expval(count, inds[k]) && variances[k] == 1.0 - expvals[k] * expvals[k]
    ensures Zip3(meta.paramIndex, meta.origPaulis, expvals, variances) == EntriesOf(count, meta)
  {
    var a := Zip3(meta.paramIndex, meta.origPaulis, expvals, variances);
    var b := EntriesOf(count, meta);
    assert |a| == |b|;
    forall k | 0 <= k < |a|
      ensures a[k] == b[k]
    {
      assert a[k] == ((meta.paramIndex, Label(meta.origPaulis[k])), (expvals[k], variances[k]));
      assert expvals[k] == Expval(count, PaulisToInds(meta.measPaulis)[k]);
      assert variances[k] == 1.0 - expvals[k] * expvals[k];
      assert a[k].0 == b[k].0;
      assert a[k].1.0 == b[k].1.0;
      assert a[k].1.1 == b[k].1.1;
      assert b[k] == ((meta.paramIndex, Label(meta.origPaulis[k])), EstimateOf(count, PaulisToInds(meta.measPaulis)[k]));
    }
  }

  /** `_pauli_expval_with_variance(count, meta["meas_paulis"])` for one variant. */
  method EstimateVariant(count: Counts, meta: Meta) returns (r: Result<(seq<real>, seq<real>)>)
    requires meta.Measured? && Total(count) > 0
    ensures r.Ok? <==> AllParse(count)
    ensures r.Err? ==> r.error.InvalidOutcome?
    ensures r.Ok? ==> Zip3(meta.paramIndex, meta.origPaulis, r.value.0, r.value.1) == EntriesOf(count, meta)
  {
    r := PauliExpvalWithVariance(count, meta.measPaulis);
    if r.Ok? {
      EstimatesAreEntries(count, meta, r.value.0, r.value.1);
    }
  }

  /** One iteration of `_calc_expval_map`: file the estimates of one variant. */
  method AddVariant(m0: map<Key, Estimate>, count: Counts, meta: Meta) returns (r: Result<map<Key, Estimate>>)
    requires Total(count) > 0
    ensures r.Ok? <==> Usable(count, meta)
    ensures r.Ok? ==> r.value == Override(m0, EntriesOf(count, meta))
    ensures r.Err? ==> if meta.Measured? then r.error.InvalidOutcome? else r.error == MissingMetadata
  {
    if !meta.Measured? {
      return Err(MissingMetadata);
    }
    var est := EstimateVariant(count, meta);
    if est.Err? {
      return Err(est.error);
    }
    var (expvals, variances) := est.value;
    var m := AddEntries(m0, meta.paramIndex, meta.origPaulis, expvals, variances);
    r := Ok(m);
  }

  /** Pair t is the first that cannot be used, and e is what it raises. */
  predicate FirstFailure(counts: seq<Counts>, metadata: seq<Meta>, t: nat, e: Error)
  {
    t < Min(|counts|, |metadata|) && AllUsable(counts, metadata, t) && !Usable(counts[t], metadata[t]) &&
    if metadata[t].Measured? then e.InvalidOutcome? else e == MissingMetadata
  }

  lemma {:induction false} FirstFailureBlocks(counts: seq<Counts>, metadata: seq<Meta>, t: nat, e: Error)
    requires FirstFailure(counts, metadata, t, e)
    ensures !AllUsable(counts, metadata, Min(|counts|, |metadata|))
  {
  }

  /** `_calc_expval_map`. A circuit without measurement metadata is a KeyError;
      a histogram key that is not binary is the ValueError of `int(outcome, 2)`. */
  method CalcExpvalMap(counts: seq<Counts>, metadata: seq<Meta>) returns (r: Result<map<Key, Estimate>>)
    requires Positive(counts)
    ensures r.Ok? <==> AllUsable(counts, metadata, Min(|counts|, |metadata|))
    ensures r.Ok? ==> r.value == Override(map[], AllEntries(counts, metadata, Min(|counts|, |metadata|)))
    ensures r.Err? ==> exists t :: FirstFailure(counts, metadata, t, r.error)
  {
    var expvalMap: map<Key, Estimate> := map[];
    ghost var written: seq<(Key, Estimate)> := [];
    for t := 0 to Min(|counts|, |metadata|)
      invariant AllUsable(counts, metadata, t)
      invariant written == AllEntries(counts, metadata, t)
      invariant expvalMap == Override(map[], written)
    {
      var next := AddVariant(expvalMap, counts[t], metadata[t]);
      if next.Err? {
        assert FirstFailure(counts, metadata, t, next.error);
        FirstFailureBlocks(counts, metadata, t, next.error);
        return Err(next.error);
      }
      AllUsableStep(counts, metadata, t);
      OverrideAppend(map[], written, EntriesOf(counts[t], metadata[t]));
      written := written + EntriesOf(counts[t], metadata[t]);
      expvalMap := next.value;
    }
    r := Ok(expvalMap);
  }

  predicate SomeMeasures(metadata: seq<Meta>, n: nat, key: Key)
    requires n <= |metadata|
  {
    exists t :: 0 <= t < n && metadata[t].Measured? && Measures(metadata[t], key)
  }

  lemma {:induction false} EntriesOfKeys(count: Counts, meta: Meta, key: Key)
    requires Usable(count, meta) && Total(count) > 0
    ensures HasKey(EntriesOf(count, meta), key) <==> Measures(meta, key)
  {
    var es := EntriesOf(count, meta);
    if Measures(meta, key) {
      var k :| 0 <= k < Min(|meta.origPaulis|, |meta.measPaulis|) && key == (meta.paramIndex, Label(meta.origPaulis[k]));
      assert es[k].0 == key;
    }
  }

  lemma {:induction false} EntriesMembers(counts: seq<Counts>, metadata: seq<Meta>, n: nat, key: Key)
    requires n <= |counts| && n <= |metadata| && Positive(counts) && AllUsable(counts, metadata, n)
    ensures HasKey(AllEntries(counts, metadata, n), key) <==> SomeMeasures(metadata, n, key)
  {
    if n > 0 {
      EntriesMembers(counts, metadata, n - 1, key);
      HasKeyAppend(AllEntries(counts, metadata, n - 1), EntriesOf(counts[n - 1], metadata[n - 1]), key);
      EntriesOfKeys(counts[n - 1], metadata[n - 1], key);
      SomeMeasuresStep(metadata, n, key);
    }
  }

  lemma {:induction false} SomeMeasuresStep(metadata: seq<Meta>, n: nat, key: Key)
    requires 0 < n <= |metadata|
    ensures SomeMeasures(metadata, n, key) <==>
      SomeMeasures(metadata, n - 1, key) || (metadata[n - 1].Measured? && Measures(metadata[n - 1], key))
  {
    if SomeMeasures(metadata, n, key) {
      var t :| 0 <= t < n && metadata[t].Measured? && Measures(metadata[t], key);
      if t < n - 1 {
        assert SomeMeasures(metadata, n - 1, key);
      }
    }
  }

  /** A key is filed exactly when some variant measured a Pauli with that label
      under that bindings index, and it holds the estimate of the last such
      Pauli written. */
  lemma {:induction false} ExpvalMapKeys(counts: seq<Counts>, metadata: seq<Meta>, n: nat, key: Key)
    requires n <= |counts| && n <= |metadata| && Positive(counts) && AllUsable(counts, metadata, n)
    ensures key in Override(map[], AllEntries(counts, metadata, n)) <==> SomeMeasures(metadata, n, key)
  {
    OverrideLastWins(AllEntries(counts, metadata, n), key);
    EntriesMembers(counts, metadata, n, key);
  }

  /** An expectation value in [-1, 1] reported with the variance 1 - e^2, which lies in [0, 1]. */
  predicate IsEstimate(e: Estimate)
  {
    -1.0 <= e.0 <= 1.0 && e.1 == 1.0 - e.0 * e.0 && 0.0 <= e.1 <= 1.0
  }

  lemma {:induction false} EntriesOfAreEstimates(count: Counts, meta: Meta)
    requires Usable(count, meta) && Total(count) > 0
    ensures forall k :: 0 <= k < |EntriesOf(count, meta)| ==> IsEstimate(EntriesOf(count, meta)[k].1)
  {
    var es := EntriesOf(count, meta);
    var inds := PaulisToInds(meta.measPaulis);
    forall k | 0 <= k < |es|
      ensures IsEstimate(es[k].1)
    {
      EstimateOfIsEstimate(count, inds[k]);
    }
  }

  lemma {:induction false} EstimateOfIsEstimate(count: Counts, mask: nat)
    requires AllParse(count) && Total(count) > 0
    ensures IsEstimate(EstimateOf(count, mask))
  {
    ExpvalBounds(count, mask);
    VarianceBounds(count, mask);
  }

  lemma {:induction false} AllEntriesAreEstimates(counts: seq<Counts>, metadata: seq<Meta>, n: nat)
    requires n <= |counts| && n <= |metadata| && Positive(counts) && AllUsable(counts, metadata, n)
    ensures forall i :: 0 <= i < |AllEntries(counts, metadata, n)| ==> IsEstimate(AllEntries(counts, metadata, n)[i].1)
  {
    if n > 0 {
      AllEntriesAreEstimates(counts, metadata, n - 1);
      var init := AllEntries(counts, metadata, n - 1);
      var last := EntriesOf(counts[n - 1], metadata[n - 1]);
      EntriesOfAreEstimates(counts[n - 1], metadata[n - 1]);
      var all := init + last;
      forall i | 0 <= i < |all|
        ensures IsEstimate(all[i].1)
      {
        if i >= |init| {
          assert all[i] == last[i - |init|];
        }
      }
      assert AllEntries(counts, metadata, n) == all;
    }
  }

  /** Every value `_calc_expval_map` files is an expectation value in [-1, 1]
      with its variance 1 - e^2 in [0, 1]. */
  lemma {:induction false} ExpvalMapEstimates(counts: seq<Counts>, metadata: seq<Meta>, n: nat, key: Key)
    requires n <= |counts| && n <= |metadata| && Positive(counts) && AllUsable(counts, metadata, n)
    requires key in Override(map[], AllEntries(counts, metadata, n))
    ensures IsEstimate(Override(map[], AllEntries(counts, metadata, n))[key])
  {
    OverrideLastWins(AllEntries(counts, metadata, n), key);
    AllEntriesAreEstimates(counts, metadata, n);
  }

  /** Every expectation value in the finished map lies in [-1, 1]. */
  lemma {:induction false} ExpvalMapInRange(counts: seq<Counts>, metadata: seq<Meta>, n: nat)
    requires n <= |counts| && n <= |metadata| && Positive(counts) && AllUsable(counts, metadata, n)
    ensures ExpvalsInRange(Override(map[], AllEntries(counts, metadata, n)))
  {
    forall key | key in Override(map[], AllEntries(counts, metadata, n))
      ensures -1.0 <= Override(map[], AllEntries(counts, metadata, n))[key].0 <= 1.0
    {
      ExpvalMapEstimates(counts, metadata, n, key);
    }
  }

  // ----- _postprocess_pub -----------------------------------------------------------

  function Abs(x: real): real
  {
    if x < 0.0 then -x else x
  }

  /** Every term of the observable has an estimate under this bindings index. */
  predicate Covered(paramIndex: ParamIndex, obs: Observable, m: map<Key, Estimate>)
  {
    forall t :: 0 <= t < |obs| ==> (paramIndex, obs[t].0) in m
  }

  /** The expectation value of an observable: the sum of coeff * expval over its terms. */
  function CellEv(paramIndex: ParamIndex, obs: Observable, m: map<Key, Estimate>): real
    requires Covered(paramIndex, obs, m)
  {
    if |obs| == 0 then 0.0
    else CellEv(paramIndex, obs[..|obs| - 1], m) + m[(paramIndex, obs[|obs| - 1].0)].0 * obs[|obs| - 1].1
  }

  /** The sum of |coeff| * sqrt(variance) over the terms. */
  function CellSpread(paramIndex: ParamIndex, obs: Observable, m: map<Key, Estimate>, sqrt: real -> real): real
    requires Covered(paramIndex, obs, m)
  {
    if |obs| == 0 then 0.0
    else CellSpread(paramIndex, obs[..|obs| - 1], m, sqrt) + Abs(obs[|obs| - 1].1) * sqrt(m[(paramIndex, obs[|obs| - 1].0)].1)
  }

  /** The sum of the absolute values of the coefficients. */
  function AbsSum(obs: Observable): real
  {
    if |obs| == 0 then 0.0 else AbsSum(obs[..|obs| - 1]) + Abs(obs[|obs| - 1].1)
  }

  /** Adding term t to the first t terms. */
  lemma {:induction false} CellStep(paramIndex: ParamIndex, obs: Observable, m: map<Key, Estimate>, sqrt: real -> real, t: nat)
    requires t < |obs| && Covered(paramIndex, obs[..t], m) && (paramIndex, obs[t].0) in m
    ensures Covered(paramIndex, obs[..t + 1], m)
    ensures CellEv(paramIndex, obs[..t + 1], m) == CellEv(paramIndex, obs[..t], m) + m[(paramIndex, obs[t].0)].0 * obs[t].1
    ensures CellSpread(paramIndex, obs[..t + 1], m, sqrt) ==
      CellSpread(paramIndex, obs[..t], m, sqrt) + Abs(obs[t].1) * sqrt(m[(paramIndex, obs[t].0)].1)
  {
    assert obs[..t + 1][..t] == obs[..t];
  }

  /** The inner loop of `_postprocess_pub` for one broadcast position i. */
  method AccumulateCell(evs: array<real>, spread: array<real>, i: nat, paramIndex: ParamIndex, obs: Observable,
                        m: map<Key, Estimate>, sqrt: real -> real)
    returns (r: Result<()>)
    requires i < evs.Length && i < spread.Length && evs != spread
    modifies evs, spread
    ensures r.Ok? <==> Covered(paramIndex, obs, m)
    ensures r.Err? ==> exists t :: 0 <= t < |obs| && (paramIndex, obs[t].0) !in m && r.error == MissingEstimate(paramIndex, obs[t].0)
    ensures r.Ok? ==> evs[i] == old(evs[i]) + CellEv(paramIndex, obs, m)
    ensures r.Ok? ==> spread[i] == old(spread[i]) + CellSpread(paramIndex, obs, m, sqrt)
    ensures forall j :: 0 <= j < evs.Length && j != i ==> evs[j] == old(evs[j])
    ensures forall j :: 0 <= j < spread.Length && j != i ==> spread[j] == old(spread[j])
  {
    for t := 0 to |obs|
      invariant Covered(paramIndex, obs[..t], m)
      invariant evs[i] == old(evs[i]) + CellEv(paramIndex, obs[..t], m)
      invariant spread[i] == old(spread[i]) + CellSpread(paramIndex, obs[..t], m, sqrt)
      invariant forall j :: 0 <= j < evs.Length && j != i ==> evs[j] == old(evs[j])
      invariant forall j :: 0 <= j < spread.Length && j != i ==> spread[j] == old(spread[j])
    {
      var (pauli, coeff) := obs[t];
      if (paramIndex, pauli) !in m {
        return Err(MissingEstimate(paramIndex, pauli));
      }
      var (expval, variance) := m[(paramIndex, pauli)];
      CellStep(paramIndex, obs, m, sqrt, t);
      AddAt(evs, i, expval * coeff);
      AddAt(spread, i, Abs(coeff) * sqrt(variance));
    }
    assert obs[..|obs|] == obs;
    return Ok(());
  }

  /** `a[i] += x`. */
  method AddAt(a: array<real>, i: nat, x: real)
    requires i < a.Length
    modifies a
    ensures a[i] == old(a[i]) + x
    ensures forall j :: 0 <= j < a.Length && j != i ==> a[j] == old(a[j])
  {
    a[i] := a[i] + x;
  }

  predicate AllCovered(cells: seq<Cell>, m: map<Key, Estimate>)
  {
    forall i :: 0 <= i < |cells| ==> Covered(cells[i].0, cells[i].1, m)
  }

  /** `_postprocess_pub`: at each broadcast position, evs = sum of coeff * expval
      and stds = (sum of |coeff| * sqrt(variance)) / sqrt(shots), with `sqrt`
      standing for `** 0.5` and `np.sqrt`. A term without an estimate is a KeyError. */
  method PostprocessPub(cells: seq<Cell>, m: map<Key, Estimate>, shots: nat, sqrt: real -> real)
    returns (r: Result<(seq<real>, seq<real>)>)
    requires sqrt(shots as real) != 0.0
    ensures r.Ok? <==> AllCovered(cells, m)
    ensures r.Err? ==>
      exists i, t :: 0 <= i < |cells| && 0 <= t < |cells[i].1| &&
        (cells[i].0, cells[i].1[t].0) !in m && r.error == MissingEstimate(cells[i].0, cells[i].1[t].0)
    ensures r.Ok? ==> |r.value.0| == |cells| && |r.value.1| == |cells|
    ensures r.Ok? ==> forall i :: 0 <= i < |cells| ==>
      r.value.0[i] == CellEv(cells[i].0, cells[i].1, m) &&
      r.value.1[i] == CellSpread(cells[i].0, cells[i].1, m, sqrt) / sqrt(shots as real)
  {
    var evs := new real[|cells|](_ => 0.0);
    var spread := new real[|cells|](_ => 0.0);
    for i := 0 to |cells|
      invariant forall j :: 0 <= j < i ==> Covered(cells[j].0, cells[j].1, m)
      invariant forall j :: 0 <= j < i ==>
        evs[j] == CellEv(cells[j].0, cells[j].1, m) && spread[j] == CellSpread(cells[j].0, cells[j].1, m, sqrt)
      invariant forall j :: i <= j < |cells| ==> evs[j] == 0.0 && spread[j] == 0.0
    {
      var (paramIndex, obs) := cells[i];
      var done := AccumulateCell(evs, spread, i, paramIndex, obs, m, sqrt);
      if done.Err? {
        return Err(done.error);
      }
    }
    DivideAll(spread, sqrt(shots as real));
    r := Ok((evs[..], spread[..]));
  }

  lemma {:induction false} ScaledBound(e: real, c: real)
    requires -1.0 <= e <= 1.0
    ensures -Abs(c) <= e * c <= Abs(c)
  {
    if c >= 0.0 {
      assert (1.0 - e) * c == c - e * c;
      assert (1.0 + e) * c == c + e * c;
    } else {
      assert (1.0 - e) * (-c) == e * c - c;
      assert (1.0 + e) * (-c) == -c - e * c;
    }
  }

  predicate ExpvalsInRange(m: map<Key, Estimate>)
  {
    forall key :: key in m ==> -1.0 <= m[key].0 <= 1.0
  }

  lemma {:induction false} CoveredPrefix(paramIndex: ParamIndex, obs: Observable, m: map<Key, Estimate>)
    requires |obs| > 0 && Covered(paramIndex, obs, m)
    ensures Covered(paramIndex, obs[..|obs| - 1], m) && (paramIndex, obs[|obs| - 1].0) in m
  {
    var init := obs[..|obs| - 1];
    forall t | 0 <= t < |init|
      ensures (paramIndex, init[t].0) in m
    {
      assert init[t] == obs[t];
    }
  }

  /** With expectation values in [-1, 1], an observable's expectation value is
      bounded by the sum of the absolute values of its coefficients. */
  lemma {:induction false} CellEvBound(paramIndex: ParamIndex, obs: Observable, m: map<Key, Estimate>)
    requires Covered(paramIndex, obs, m) && ExpvalsInRange(m)
    ensures -AbsSum(obs) <= CellEv(paramIndex, obs, m) <= AbsSum(obs)
  {
    if |obs| > 0 {
      var init := obs[..|obs| - 1];
      CoveredPrefix(paramIndex, obs, m);
      CellEvBound(paramIndex, init, m);
      var last := obs[|obs| - 1];
      var e := m[(paramIndex, last.0)].0;
      ScaledBound(e, last.1);
      assert CellEv(paramIndex, obs, m) == CellEv(paramIndex, init, m) + e * last.1;
      assert AbsSum(obs) == AbsSum(init) + Abs(last.1);
    }
  }

  /** With a square root that is never negative, the spread, and hence the
      standard error, is never negative. */
  lemma {:induction false} CellSpreadNonNegative(paramIndex: ParamIndex, obs: Observable, m: map<Key, Estimate>,
                                                 sqrt: real -> real)
    requires Covered(paramIndex, obs, m)
    requires forall t :: 0 <= t < |obs| ==> sqrt(m[(paramIndex, obs[t].0)].1) >= 0.0
    ensures CellSpread(paramIndex, obs, m, sqrt) >= 0.0
  {
    if |obs| > 0 {
      var init := obs[..|obs| - 1];
      CoveredPrefix(paramIndex, obs, m);
      forall t | 0 <= t < |init|
        ensures sqrt(m[(paramIndex, init[t].0)].1) >= 0.0
      {
        assert init[t] == obs[t];
      }
      CellSpreadNonNegative(paramIndex, init, m, sqrt);
      var last := obs[|obs| - 1];
    }
  }
}
