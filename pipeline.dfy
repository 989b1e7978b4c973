/** `_run_pubs`: preprocess every pub, run all their circuits together, and
    give each pub the slice of histograms and metadata that belongs to its
    own circuits. */
module Pipeline {
  import opened Errors
  import opened Paulis
  import opened Circuits
  import opened Estimator
  import opened Pubs
  import opened Aggregation
  import opened Dispatch
  import opened Collections

  /** The backend never returns an empty histogram. */
  ghost predicate NonEmptyCounts(execute: seq<Circuit> -> JobResult)
  {
    forall cs: seq<Circuit> :: Positive(CountsOf(execute(cs)))
  }

  /** The backend returns one histogram per experiment of a job. */
  ghost predicate OnePerCircuit(execute: seq<Circuit> -> JobResult)
  {
    forall cs: seq<Circuit> :: |CountsOf(execute(cs))| == |cs|
  }

  lemma {:induction false} ConcatPositive(xss: seq<seq<Counts>>)
    requires forall k :: 0 <= k < |xss| ==> Positive(xss[k])
    ensures Positive(Concat(xss))
  {
    if |xss| > 0 {
      var tail := xss[1..];
      forall k | 0 <= k < |tail|
        ensures Positive(tail[k])
      {
        assert tail[k] == xss[k + 1];
      }
      ConcatPositive(tail);
      var all := xss[0] + Concat(tail);
      forall t | 0 <= t < |all|
        ensures Total(all[t]) > 0
      {
        if t >= |xss[0]| {
          assert all[t] == Concat(tail)[t - |xss[0]|];
        }
      }
    }
  }

  /** The histograms of all jobs are non-empty when the backend's are. */
  lemma {:induction false} CountsPositive(results: seq<JobResult>, calls: seq<seq<Circuit>>, execute: seq<Circuit> -> JobResult)
    requires NonEmptyCounts(execute)
    requires |results| == |calls| && forall k :: 0 <= k < |calls| ==> results[k] == execute(calls[k])
    ensures Positive(Concat(AllCounts(results)))
  {
    ConcatPositive(AllCounts(results));
  }

  /** With one histogram per experiment, there are as many histograms as circuits sent. */
  lemma {:induction false} CountsLength(results: seq<JobResult>, calls: seq<seq<Circuit>>, execute: seq<Circuit> -> JobResult)
    requires OnePerCircuit(execute)
    requires |results| == |calls| && forall k :: 0 <= k < |calls| ==> results[k] == execute(calls[k])
    ensures |Concat(AllCounts(results))| == |Concat(calls)|
  {
    var all := AllCounts(results);
    ConcatLength(all, |all|);
    ConcatLength(calls, |calls|);
    assert all[..|all|] == all && calls[..|calls|] == calls;
    assert Lengths(all) == Lengths(calls);
    assert Lengths(all)[..|all|] == Lengths(all);
    assert Lengths(calls)[..|calls|] == Lengths(calls);
  }

  /** The total number of entries is the sum of the sizes. */
  lemma {:induction false} ConcatTotal<T>(ys: seq<seq<T>>)
    ensures |Concat(ys)| == Sum(Lengths(ys))
  {
    ConcatLength(ys, |ys|);
    assert ys[..|ys|] == ys;
    assert Lengths(ys)[..|ys|] == Lengths(ys);
  }

  /** The metadata slice of pub k is the metadata of pub k's own circuits. */
  lemma {:induction false} SliceMetadata(data: seq<seq<Circuit>>, metadata: seq<Meta>, k: nat)
    requires |metadata| == |Concat(data)|
    requires forall j :: 0 <= j < |metadata| ==> metadata[j] == Concat(data)[j].metadata
    requires k < |data|
    ensures |Slices(Lengths(data), metadata)[k]| == |data[k]|
    ensures forall v :: 0 <= v < |data[k]| ==> Slices(Lengths(data), metadata)[k][v] == data[k][v].metadata
  {
    ConcatTotal(data);
    SliceLength(Lengths(data), metadata, k);
    forall v | 0 <= v < |data[k]|
      ensures Slices(Lengths(data), metadata)[k][v] == data[k][v].metadata
    {
      SliceAt(Lengths(data), metadata, k, v);
      ConcatAt(data, k, v);
    }
  }

  /** With a sound grouping oracle, the map built from a pub's own variants
      has an estimate for term t of cell i. */
  lemma {:induction false} TermEstimatePresent(pub: Pub, grouping: bool, grouper: seq<Pauli> -> seq<seq<Pauli>>,
                            counts: seq<Counts>, metadata: seq<Meta>, i: nat, t: nat)
    requires GrouperSound(grouper) && PubOk(pub, grouping, grouper)
    requires |counts| == |metadata| == |PubVariants(pub, grouping, grouper)|
    requires forall v :: 0 <= v < |metadata| ==> metadata[v] == PubVariants(pub, grouping, grouper)[v].metadata
    requires Positive(counts) && AllUsable(counts, metadata, |metadata|)
    requires i < |pub.cells| && t < |pub.cells[i].1|
    ensures (pub.cells[i].0, pub.cells[i].1[t].0) in Override(map[], AllEntries(counts, metadata, |metadata|))
  {
    var cs := PubVariants(pub, grouping, grouper);
    var key := (pub.cells[i].0, pub.cells[i].1[t].0);
    PubVariantsMeasureCells(pub, grouping, grouper, i, t);
    var v :| 0 <= v < |cs| && cs[v].metadata.Measured? && Measures(cs[v].metadata, key);
    assert metadata[v].Measured? && Measures(metadata[v], key);
    ExpvalMapKeys(counts, metadata, |metadata|, key);
  }

  /** ... and so for every term of every cell of the pub. */
  lemma {:induction false} PubEstimatesPresent(pub: Pub, grouping: bool, grouper: seq<Pauli> -> seq<seq<Pauli>>,
                            counts: seq<Counts>, metadata: seq<Meta>)
    requires GrouperSound(grouper) && PubOk(pub, grouping, grouper)
    requires |counts| == |metadata| == |PubVariants(pub, grouping, grouper)|
    requires forall v :: 0 <= v < |metadata| ==> metadata[v] == PubVariants(pub, grouping, grouper)[v].metadata
    requires Positive(counts) && AllUsable(counts, metadata, |metadata|)
    ensures AllCovered(pub.cells, Override(map[], AllEntries(counts, metadata, |metadata|)))
  {
    forall i, t | 0 <= i < |pub.cells| && 0 <= t < |pub.cells[i].1|
      ensures (pub.cells[i].0, pub.cells[i].1[t].0) in Override(map[], AllEntries(counts, metadata, |metadata|))
    {
      TermEstimatePresent(pub, grouping, grouper, counts, metadata, i, t);
    }
  }

  // ----- _run_pubs --------------------------------------------------------------------

  /** The estimate map `_calc_expval_map` builds from one pub's histograms and metadata. */
  ghost function SliceMap(counts: seq<Counts>, metadata: seq<Meta>): map<Key, Estimate>
    requires Positive(counts) && AllUsable(counts, metadata, Min(|counts|, |metadata|))
  {
    Override(map[], AllEntries(counts, metadata, Min(|counts|, |metadata|)))
  }

  /** `v` is what `_postprocess_pub` reports for `pub` from this slice: the slice
      is usable, its estimate map covers every term, and `evs[i]` and `stds[i]`
      are cell `i`'s weighted sum and its spread over sqrt(shots). */
  ghost predicate PubEstimates(pub: Pub, counts: seq<Counts>, metadata: seq<Meta>, shots: nat, sqrt: real -> real,
                               v: (seq<real>, seq<real>))
  {
    sqrt(shots as real) != 0.0 && Positive(counts) && AllUsable(counts, metadata, Min(|counts|, |metadata|)) &&
    AllCovered(pub.cells, SliceMap(counts, metadata)) &&
    |v.0| == |pub.cells| && |v.1| == |pub.cells| &&
    forall i :: 0 <= i < |pub.cells| ==>
      v.0[i] == CellEv(pub.cells[i].0, pub.cells[i].1, SliceMap(counts, metadata)) &&
      v.1[i] == CellSpread(pub.cells[i].0, pub.cells[i].1, SliceMap(counts, metadata), sqrt) / sqrt(shots as real)
  }

  /** What a pub's slices must satisfy for its estimate to succeed: every
      histogram (each with a positive total) parses under measurement metadata,
      and the resulting estimate map holds every term of the pub. */
  ghost predicate Estimable(pub: Pub, counts: seq<Counts>, metadata: seq<Meta>)
  {
    Positive(counts) && AllUsable(counts, metadata, Min(|counts|, |metadata|)) && AllCovered(pub.cells, SliceMap(counts, metadata))
  }

  /** Some histogram of the slices is read under measurement metadata but has
      an outcome key that does not parse. */
  ghost predicate Unparsable(counts: seq<Counts>, metadata: seq<Meta>)
  {
    exists t :: 0 <= t < Min(|counts|, |metadata|) && metadata[t].Measured? && !Usable(counts[t], metadata[t])
  }

  /** PubEstimates, with each expectation value bounded by the sum of the
      absolute values of its observable's coefficients. */
  ghost predicate PubResult(pub: Pub, counts: seq<Counts>, metadata: seq<Meta>, shots: nat, sqrt: real -> real,
                            v: (seq<real>, seq<real>))
  {
    PubEstimates(pub, counts, metadata, shots, sqrt, v) &&
    forall i :: 0 <= i < |pub.cells| ==> -AbsSum(pub.cells[i].1) <= v.0[i] <= AbsSum(pub.cells[i].1)
  }

  /** One iteration of the last loop of `_run_pubs`: the estimate map of the
      pub's slice, then its expectation values and standard errors. Each
      expectation value is bounded by the sum of the absolute values of the
      observable's coefficients. */
  method EstimatePub(pub: Pub, counts: seq<Counts>, metadata: seq<Meta>, shots: nat, sqrt: real -> real)
    returns (r: Result<(seq<real>, seq<real>)>)
    requires Positive(counts) && sqrt(shots as real) != 0.0
    ensures r.Ok? <==>
      AllUsable(counts, metadata, Min(|counts|, |metadata|)) && AllCovered(pub.cells, SliceMap(counts, metadata))
    ensures r.Ok? ==> |r.value.0| == |pub.cells| && |r.value.1| == |pub.cells|
    ensures r.Ok? ==> forall i :: 0 <= i < |pub.cells| ==>
      r.value.0[i] == CellEv(pub.cells[i].0, pub.cells[i].1, SliceMap(counts, metadata)) &&
      r.value.1[i] == CellSpread(pub.cells[i].0, pub.cells[i].1, SliceMap(counts, metadata), sqrt) / sqrt(shots as real) &&
      -AbsSum(pub.cells[i].1) <= r.value.0[i] <= AbsSum(pub.cells[i].1)
    ensures r.Err? && r.error == MissingMetadata ==>
      exists t :: 0 <= t < Min(|counts|, |metadata|) && !metadata[t].Measured?
    ensures r.Err? && r.error.MissingEstimate? ==>
      AllUsable(counts, metadata, Min(|counts|, |metadata|)) && !AllCovered(pub.cells, SliceMap(counts, metadata))
    ensures r.Err? && r.error.InvalidOutcome? ==> Unparsable(counts, metadata)
    ensures r.Err? ==> r.error == MissingMetadata || r.error.InvalidOutcome? || r.error.MissingEstimate?
  {
    var expvalMap := CalcExpvalMap(counts, metadata);
    if expvalMap.Err? {
      return Err(expvalMap.error);
    }
    var m := expvalMap.value;
    r := PostprocessPub(pub.cells, m, shots, sqrt);
    if r.Ok? {
      ExpvalMapInRange(counts, metadata, Min(|counts|, |metadata|));
      forall i | 0 <= i < |pub.cells|
        ensures -AbsSum(pub.cells[i].1) <= r.value.0[i] <= AbsSum(pub.cells[i].1)
      {
        CellEvBound(pub.cells[i].0, pub.cells[i].1, m);
      }
    }
  }

  /** Pub j's circuits are exactly its measurement variants. */
  ghost predicate Preprocessed(pubs: seq<Pub>, grouping: bool, grouper: seq<Pauli> -> seq<seq<Pauli>>,
                               data: seq<seq<Circuit>>, j: nat)
  {
    j < |pubs| && j < |data| && PubOk(pubs[j], grouping, grouper) && data[j] == PubVariants(pubs[j], grouping, grouper)
  }

  lemma {:induction false} PreprocessedSnoc(pubs: seq<Pub>, grouping: bool, grouper: seq<Pauli> -> seq<seq<Pauli>>,
                         data: seq<seq<Circuit>>, v: seq<Circuit>)
    requires |data| < |pubs| && forall j :: 0 <= j < |data| ==> Preprocessed(pubs, grouping, grouper, data, j)
    requires PubOk(pubs[|data|], grouping, grouper) && v == PubVariants(pubs[|data|], grouping, grouper)
    ensures forall j :: 0 <= j <= |data| ==> Preprocessed(pubs, grouping, grouper, data + [v], j)
  {
    forall j | 0 <= j <= |data|
      ensures Preprocessed(pubs, grouping, grouper, data + [v], j)
    {
      if j < |data| {
        assert Preprocessed(pubs, grouping, grouper, data, j);
        assert (data + [v])[j] == data[j];
      }
    }
  }

  /** The first loop of `_run_pubs`: preprocess each pub and flatten their circuits. */
  method PreprocessAll(pubs: seq<Pub>, grouping: bool, grouper: seq<Pauli> -> seq<seq<Pauli>>)
    returns (r: Result<(seq<seq<Circuit>>, seq<Circuit>)>)
    requires GrouperKeepsWidth(grouper) && forall k :: 0 <= k < |pubs| ==> WellFormed(pubs[k])
    ensures r.Ok? <==> forall k :: 0 <= k < |pubs| ==> PubOk(pubs[k], grouping, grouper)
    ensures r.Ok? ==> |r.value.0| == |pubs| && r.value.1 == Concat(r.value.0)
    ensures r.Ok? ==> forall k :: 0 <= k < |pubs| ==> Preprocessed(pubs, grouping, grouper, r.value.0, k)
    ensures r.Err? ==> r.error.QubitOutOfRange? || r.error.RegisterConflict?
  {
    var data: seq<seq<Circuit>> := [];
    var flat: seq<Circuit> := [];
    for k := 0 to |pubs|
      invariant |data| == k && flat == Concat(data)
      invariant forall j :: 0 <= j < k ==> Preprocessed(pubs, grouping, grouper, data, j)
    {
      var pre := PreprocessPub(pubs[k], grouping, grouper);
      if pre.Err? {
        assert !PubOk(pubs[k], grouping, grouper);
        return Err(pre.error);
      }
      PreprocessedSnoc(pubs, grouping, grouper, data, pre.value);
      ConcatSnoc(data + [pre.value], k);
      assert (data + [pre.value])[..k + 1] == data + [pre.value];
      assert (data + [pre.value])[..k] == data;
      data := data + [pre.value];
      flat := flat + pre.value;
    }
    forall k | 0 <= k < |pubs|
      ensures PubOk(pubs[k], grouping, grouper)
    {
      assert Preprocessed(pubs, grouping, grouper, data, k);
    }
    r := Ok((data, flat));
  }

  lemma {:induction false} SlicePositive(sizes: seq<nat>, counts: seq<Counts>, k: nat)
    requires Positive(counts) && k < |sizes|
    ensures Positive(Slices(sizes, counts)[k])
  {
    SumStep(sizes, k);
    var lo := Min(Sum(sizes[..k]), |counts|);
    var hi := Min(Sum(sizes[..k + 1]), |counts|);
    var s := Slices(sizes, counts)[k];
    assert s == counts[lo..hi];
    forall t | 0 <= t < |s|
      ensures Total(s[t]) > 0
    {
      assert s[t] == counts[lo + t];
    }
  }

  /** The metadata slice of each pub holds only measurement metadata. */
  lemma {:induction false} PubSliceMeasured(pubs: seq<Pub>, grouping: bool, grouper: seq<Pauli> -> seq<seq<Pauli>>,
                         data: seq<seq<Circuit>>, metadata: seq<Meta>, k: nat)
    requires |data| == |pubs| && k < |pubs| && Preprocessed(pubs, grouping, grouper, data, k)
    requires |metadata| == |Concat(data)|
    requires forall j :: 0 <= j < |metadata| ==> metadata[j] == Concat(data)[j].metadata
    ensures forall t :: 0 <= t < |Slices(Lengths(data), metadata)[k]| ==> Slices(Lengths(data), metadata)[k][t].Measured?
  {
    SliceMetadata(data, metadata, k);
    AllVariantsMeasured(pubs[k].circuit, Keys(ParamsOf(pubs[k].cells)), ObsMap(pubs[k].cells),
                        pubs[k].circuit.numQubits, grouping, grouper);
  }

  /** With a sound grouping oracle and one histogram per circuit, each pub's
      estimate map covers all of the pub's terms. */
  lemma {:induction false} PubSliceCovered(pubs: seq<Pub>, grouping: bool, grouper: seq<Pauli> -> seq<seq<Pauli>>,
                        data: seq<seq<Circuit>>, counts: seq<Counts>, metadata: seq<Meta>, k: nat)
    requires GrouperSound(grouper)
    requires |data| == |pubs| && k < |pubs| && Preprocessed(pubs, grouping, grouper, data, k)
    requires |counts| == |metadata| == |Concat(data)| && Positive(counts)
    requires forall j :: 0 <= j < |metadata| ==> metadata[j] == Concat(data)[j].metadata
    requires var cs := Slices(Lengths(data), counts)[k];
      var ms := Slices(Lengths(data), metadata)[k];
      Positive(cs) && AllUsable(cs, ms, Min(|cs|, |ms|))
    ensures AllCovered(pubs[k].cells, SliceMap(Slices(Lengths(data), counts)[k], Slices(Lengths(data), metadata)[k]))
  {
    SliceMetadata(data, metadata, k);
    ConcatTotal(data);
    SliceLength(Lengths(data), counts, k);
    PubEstimatesPresent(pubs[k], grouping, grouper, Slices(Lengths(data), counts)[k], Slices(Lengths(data), metadata)[k]);
  }

  /** The last loop of `_run_pubs`: estimate each pub from its own slices. */
  method EstimateAll(pubs: seq<Pub>, countSlices: seq<seq<Counts>>, metaSlices: seq<seq<Meta>>, shots: nat, sqrt: real -> real)
    returns (r: Result<seq<(seq<real>, seq<real>)>>)
    requires |countSlices| == |pubs| && |metaSlices| == |pubs|
    requires (forall k :: 0 <= k < |pubs| ==> Positive(countSlices[k])) && sqrt(shots as real) != 0.0
    ensures r.Ok? ==> |r.value| == |pubs| && forall k :: 0 <= k < |pubs| ==>
      |r.value[k].0| == |pubs[k].cells| && |r.value[k].1| == |pubs[k].cells| &&
      forall i :: 0 <= i < |pubs[k].cells| ==> -AbsSum(pubs[k].cells[i].1) <= r.value[k].0[i] <= AbsSum(pubs[k].cells[i].1)
    ensures r.Ok? ==> forall k :: 0 <= k < |pubs| ==> PubEstimates(pubs[k], countSlices[k], metaSlices[k], shots, sqrt, r.value[k])
    ensures r.Err? && r.error == MissingMetadata ==>
      exists k, t :: 0 <= k < |pubs| && 0 <= t < Min(|countSlices[k]|, |metaSlices[k]|) && !metaSlices[k][t].Measured?
    ensures r.Err? && r.error.MissingEstimate? ==>
      exists k :: 0 <= k < |pubs| && AllUsable(countSlices[k], metaSlices[k], Min(|countSlices[k]|, |metaSlices[k]|)) &&
        !AllCovered(pubs[k].cells, SliceMap(countSlices[k], metaSlices[k]))
    ensures r.Err? && r.error.InvalidOutcome? ==> exists k :: 0 <= k < |pubs| && Unparsable(countSlices[k], metaSlices[k])
    ensures r.Err? ==> r.error == MissingMetadata || r.error.InvalidOutcome? || r.error.MissingEstimate?
    ensures r.Ok? <==> forall k :: 0 <= k < |pubs| ==> Estimable(pubs[k], countSlices[k], metaSlices[k])
  {
    var out: seq<(seq<real>, seq<real>)> := [];
    for k := 0 to |pubs|
      invariant |out| == k
      invariant forall j :: 0 <= j < k ==> PubResult(pubs[j], countSlices[j], metaSlices[j], shots, sqrt, out[j])
    {
      var est := EstimatePub(pubs[k], countSlices[k], metaSlices[k], shots, sqrt);
      if est.Err? {
        assert !Estimable(pubs[k], countSlices[k], metaSlices[k]);
        return Err(est.error);
      }
      assert PubResult(pubs[k], countSlices[k], metaSlices[k], shots, sqrt, est.value);
      out := out + [est.value];
    }
    forall k | 0 <= k < |pubs|
      ensures PubEstimates(pubs[k], countSlices[k], metaSlices[k], shots, sqrt, out[k])
      ensures forall i :: 0 <= i < |pubs[k].cells| ==> -AbsSum(pubs[k].cells[i].1) <= out[k].0[i] <= AbsSum(pubs[k].cells[i].1)
    {
      assert PubResult(pubs[k], countSlices[k], metaSlices[k], shots, sqrt, out[k]);
    }
    r := Ok(out);
  }

  /** The histogram and metadata slices `_run_pubs` hands to pub k: every pub's
      variants flattened, cleared, sent in chunks to `execute`, the histograms of
      all jobs concatenated, and both lists cut at the pubs' circuit counts. */
  ghost function PubInputs(pubs: seq<Pub>, grouping: bool, grouper: seq<Pauli> -> seq<seq<Pauli>>,
                           execute: seq<Circuit> -> JobResult, clearMetadata: bool, maxCircuits: nat)
    : (r: (seq<seq<Counts>>, seq<seq<Meta>>))
    requires forall k :: 0 <= k < |pubs| ==> PubOk(pubs[k], grouping, grouper)
    ensures |r.0| == |pubs| && |r.1| == |pubs|
  {
    var data := seq(|pubs|, k requires 0 <= k < |pubs| => PubVariants(pubs[k], grouping, grouper));
    var flat := Concat(data);
    var calls := Batches(Cleared(flat, clearMetadata), maxCircuits);
    var counts := Concat(AllCounts(seq(|calls|, k requires 0 <= k < |calls| => execute(calls[k]))));
    var metadata := seq(|flat|, j requires 0 <= j < |flat| => flat[j].metadata);
    (Slices(Lengths(data), counts), Slices(Lengths(data), metadata))
  }

  /** The circuits PreprocessAll returns are each pub's variants. */
  lemma {:induction false} PreprocessedData(pubs: seq<Pub>, grouping: bool, grouper: seq<Pauli> -> seq<seq<Pauli>>,
                                            data: seq<seq<Circuit>>)
    requires |data| == |pubs| && forall k :: 0 <= k < |pubs| ==> Preprocessed(pubs, grouping, grouper, data, k)
    ensures forall k :: 0 <= k < |pubs| ==> PubOk(pubs[k], grouping, grouper)
    ensures data == seq(|pubs|, k requires 0 <= k < |pubs| => PubVariants(pubs[k], grouping, grouper))
  {
    forall k | 0 <= k < |pubs|
      ensures PubOk(pubs[k], grouping, grouper) && data[k] == PubVariants(pubs[k], grouping, grouper)
    {
      assert Preprocessed(pubs, grouping, grouper, data, k);
    }
  }

  /** The slices `RunPubs` computes are those of PubInputs. */
  lemma {:induction false} PubInputsOf(pubs: seq<Pub>, grouping: bool, grouper: seq<Pauli> -> seq<seq<Pauli>>,
                                       execute: seq<Circuit> -> JobResult, clearMetadata: bool, maxCircuits: nat,
                                       data: seq<seq<Circuit>>, results: seq<JobResult>, metadata: seq<Meta>)
    requires |data| == |pubs| && forall k :: 0 <= k < |pubs| ==> Preprocessed(pubs, grouping, grouper, data, k)
    requires var calls := Batches(Cleared(Concat(data), clearMetadata), maxCircuits);
      |results| == |calls| && forall k :: 0 <= k < |calls| ==> results[k] == execute(calls[k])
    requires |metadata| == |Concat(data)| && forall j :: 0 <= j < |metadata| ==> metadata[j] == Concat(data)[j].metadata
    ensures forall k :: 0 <= k < |pubs| ==> PubOk(pubs[k], grouping, grouper)
    ensures PubInputs(pubs, grouping, grouper, execute, clearMetadata, maxCircuits)
      == (Slices(Lengths(data), Concat(AllCounts(results))), Slices(Lengths(data), metadata))
  {
    PreprocessedData(pubs, grouping, grouper, data);
    var flat := Concat(data);
    var calls := Batches(Cleared(flat, clearMetadata), maxCircuits);
    assert results == seq(|calls|, k requires 0 <= k < |calls| => execute(calls[k]));
    assert metadata == seq(|flat|, j requires 0 <= j < |flat| => flat[j].metadata);
  }

  /** `_run_pubs` for pubs that share one shot count, with `backend.run` given as
      `execute` (the shot count and seed are part of it). The estimates are
      bounded by the coefficients; the metadata lookup of `_calc_expval_map` never
      fails, because every circuit sent carries measurement metadata and each pub
      reads the metadata of its own circuits; and with a sound grouping oracle and
      one histogram per experiment, the estimate lookup of `_postprocess_pub`
      never fails either. */
  method RunPubs(pubs: seq<Pub>, shots: nat, grouping: bool, grouper: seq<Pauli> -> seq<seq<Pauli>>,
                 execute: seq<Circuit> -> JobResult, clearMetadata: bool, maxCircuits: nat, sqrt: real -> real)
    returns (r: Result<seq<(seq<real>, seq<real>)>>)
    requires GrouperKeepsWidth(grouper) && forall k :: 0 <= k < |pubs| ==> WellFormed(pubs[k])
    requires NonEmptyCounts(execute) && sqrt(shots as real) != 0.0
    ensures r.Ok? ==> forall k :: 0 <= k < |pubs| ==> PubOk(pubs[k], grouping, grouper)
    ensures r.Ok? ==> |r.value| == |pubs| && forall k :: 0 <= k < |pubs| ==>
      |r.value[k].0| == |pubs[k].cells| && |r.value[k].1| == |pubs[k].cells| &&
      forall i :: 0 <= i < |pubs[k].cells| ==> -AbsSum(pubs[k].cells[i].1) <= r.value[k].0[i] <= AbsSum(pubs[k].cells[i].1)
    ensures r.Ok? ==>
      (forall k :: 0 <= k < |pubs| ==> PubOk(pubs[k], grouping, grouper)) &&
      (forall k :: 0 <= k < |pubs| ==>
         PubEstimates(pubs[k], PubInputs(pubs, grouping, grouper, execute, clearMetadata, maxCircuits).0[k],
                      PubInputs(pubs, grouping, grouper, execute, clearMetadata, maxCircuits).1[k], shots, sqrt, r.value[k]))
    ensures r.Err? ==> !r.error.MissingMetadata?
    ensures r.Err? && GrouperSound(grouper) && OnePerCircuit(execute) ==> !r.error.MissingEstimate?
    ensures r.Ok? <==>
      (forall k :: 0 <= k < |pubs| ==> PubOk(pubs[k], grouping, grouper)) &&
      var ins := PubInputs(pubs, grouping, grouper, execute, clearMetadata, maxCircuits);
      forall k :: 0 <= k < |pubs| ==> Estimable(pubs[k], ins.0[k], ins.1[k])
    ensures r.Err? ==>
      ((r.error.QubitOutOfRange? || r.error.RegisterConflict?) <==>
       exists k :: 0 <= k < |pubs| && !PubOk(pubs[k], grouping, grouper))
    ensures r.Err? && r.error.InvalidOutcome? ==>
      (forall k :: 0 <= k < |pubs| ==> PubOk(pubs[k], grouping, grouper)) &&
      var ins := PubInputs(pubs, grouping, grouper, execute, clearMetadata, maxCircuits);
      exists k :: 0 <= k < |pubs| && Unparsable(ins.0[k], ins.1[k])
  {
    var pre := PreprocessAll(pubs, grouping, grouper);
    if pre.Err? {
      return Err(pre.error);
    }
    var (data, flat) := pre.value;
    var results, metadata := RunCircuits(flat, execute, clearMetadata, maxCircuits);
    var counts := PrepareCounts(results);
    ghost var calls := Batches(Cleared(flat, clearMetadata), maxCircuits);
    CountsPositive(results, calls, execute);
    var sizes := Lengths(data);
    var countSlices: seq<seq<Counts>> := SliceByPub(sizes, counts);
    var metaSlices: seq<seq<Meta>> := SliceByPub(sizes, metadata);
    forall k | 0 <= k < |pubs|
      ensures Positive(countSlices[k])
      ensures forall t :: 0 <= t < |metaSlices[k]| ==> metaSlices[k][t].Measured?
    {
      PubSliceMeasured(pubs, grouping, grouper, data, metadata, k);
      SlicePositive(sizes, counts, k);
    }
    if GrouperSound(grouper) && OnePerCircuit(execute) {
      CountsLength(results, calls, execute);
      BatchesConcat(Cleared(flat, clearMetadata), maxCircuits);
      forall k | 0 <= k < |pubs| && AllUsable(countSlices[k], metaSlices[k], Min(|countSlices[k]|, |metaSlices[k]|))
        ensures AllCovered(pubs[k].cells, SliceMap(countSlices[k], metaSlices[k]))
      {
        PubSliceCovered(pubs, grouping, grouper, data, counts, metadata, k);
      }
    }
    PubInputsOf(pubs, grouping, grouper, execute, clearMetadata, maxCircuits, data, results, metadata);
    assert PubInputs(pubs, grouping, grouper, execute, clearMetadata, maxCircuits) == (countSlices, metaSlices);
    r := EstimateAll(pubs, countSlices, metaSlices, shots, sqrt);
  }
}
