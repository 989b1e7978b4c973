/** `_run_circuits`, `_prepare_counts` and the slicing in `_run_pubs`: how the
    flat list of circuits reaches the backend and how the histograms come back
    lined up with the circuits' metadata. */
module Dispatch {
  import opened Circuits
  import opened Estimator
  import opened Collections

  /** What `result.get_counts()` gives: one histogram when the job ran a single
      experiment, a list of them otherwise. */
  datatype JobResult = Single(counts: Counts) | Many(all: seq<Counts>)

  function CountsOf(r: JobResult): seq<Counts>
  {
    match r
    case Single(c) => [c]
    case Many(cs) => cs
  }

  /** `circuits[pos : pos + max_circuits]` for pos in `range(0, len(circuits), max_circuits)`. */
  function Chunks<T>(xs: seq<T>, m: nat): seq<seq<T>>
    requires m > 0
    decreases |xs|
  {
    if |xs| == 0 then []
    else if |xs| <= m then [xs]
    else [xs[..m]] + Chunks(xs[m..], m)
  }

  /** The argument lists of the `backend.run` calls: chunks when `max_circuits`
      is set (non-zero), a single call otherwise. */
  function Batches<T>(xs: seq<T>, maxCircuits: nat): seq<seq<T>>
  {
    if maxCircuits > 0 then Chunks(xs, maxCircuits) else [xs]
  }

  /** The chunks are consecutive pieces of the input: together they are the input. */
  lemma {:induction false} ChunksConcat<T>(xs: seq<T>, m: nat)
    requires m > 0
    ensures Concat(Chunks(xs, m)) == xs
    decreases |xs|
  {
    if |xs| > m {
      ChunksConcat(xs[m..], m);
      var r := Chunks(xs, m);
      assert r[1..] == Chunks(xs[m..], m);
      assert xs == xs[..m] + xs[m..];
    } else if |xs| > 0 {
      assert [xs][1..] == [];
    }
  }

  /** Each chunk holds at least one and at most `max_circuits` circuits. */
  lemma {:induction false} ChunksBounded<T>(xs: seq<T>, m: nat)
    requires m > 0
    ensures forall k :: 0 <= k < |Chunks(xs, m)| ==> 0 < |Chunks(xs, m)[k]| <= m
    decreases |xs|
  {
    if |xs| > m {
      ChunksBounded(xs[m..], m);
      var r := Chunks(xs, m);
      assert forall k :: 1 <= k < |r| ==> r[k] == Chunks(xs[m..], m)[k - 1];
    }
  }

  /** Whichever way the circuits are split, the calls together cover them in order. */
  lemma {:induction false} BatchesConcat<T>(xs: seq<T>, maxCircuits: nat)
    ensures Concat(Batches(xs, maxCircuits)) == xs
  {
    if maxCircuits > 0 {
      ChunksConcat(xs, maxCircuits);
    } else {
      assert [xs][1..] == [];
    }
  }

  /** The circuits with their metadata cleared (`circ.metadata = {}`), or kept. */
  function Cleared(circuits: seq<Circuit>, clear: bool): (r: seq<Circuit>)
    ensures |r| == |circuits|
  {
    seq(|circuits|, i requires 0 <= i < |circuits| =>
      if clear then circuits[i].(metadata := NoMeta) else circuits[i])
  }

  /** The first loop of `_run_circuits`: remember each circuit's metadata and
      clear it on the copy sent to the backend. */
  method CollectMetadata(circuits: seq<Circuit>, clearMetadata: bool) returns (sent: seq<Circuit>, metadata: seq<Meta>)
    ensures |metadata| == |circuits| && forall i :: 0 <= i < |circuits| ==> metadata[i] == circuits[i].metadata
    ensures sent == Cleared(circuits, clearMetadata)
  {
    sent := [];
    metadata := [];
    for i := 0 to |circuits|
      invariant |metadata| == i && forall j :: 0 <= j < i ==> metadata[j] == circuits[j].metadata
      invariant sent == Cleared(circuits, clearMetadata)[..i]
    {
      metadata := metadata + [circuits[i].metadata];
      var circ := circuits[i];
      if clearMetadata {
        circ := circ.(metadata := NoMeta);
      }
      sent := sent + [circ];
    }
  }

  /** `_run_circuits`, with `backend.run(...).result()` given as `execute` and a
      `max_circuits` of zero standing for an unset one. */
  method RunCircuits(circuits: seq<Circuit>, execute: seq<Circuit> -> JobResult, clearMetadata: bool, maxCircuits: nat)
    returns (results: seq<JobResult>, metadata: seq<Meta>)
    ensures |metadata| == |circuits| && forall i :: 0 <= i < |circuits| ==> metadata[i] == circuits[i].metadata
    ensures var calls := Batches(Cleared(circuits, clearMetadata), maxCircuits);
      |results| == |calls| && forall k :: 0 <= k < |calls| ==> results[k] == execute(calls[k])
  {
    var sent;
    sent, metadata := CollectMetadata(circuits, clearMetadata);
    if maxCircuits > 0 {
      results := [];
      ghost var done: seq<seq<Circuit>> := [];
      var pos := 0;
      while pos < |sent|
        invariant pos <= |sent|
        invariant done + Chunks(sent[pos..], maxCircuits) == Chunks(sent, maxCircuits)
        invariant |results| == |done| && forall k :: 0 <= k < |done| ==> results[k] == execute(done[k])
        decreases |sent| - pos
      {
        var end := if pos + maxCircuits < |sent| then pos + maxCircuits else |sent|;
        var chunk := sent[pos..end];
        assert Chunks(sent[pos..], maxCircuits) == [chunk] + Chunks(sent[end..], maxCircuits) by {
          if end < |sent| {
            assert sent[pos..][..maxCircuits] == chunk;
            assert sent[pos..][maxCircuits..] == sent[end..];
          } else {
            assert sent[pos..] == chunk;
            assert sent[end..] == [];
          }
        }
        assert (done + [chunk]) + Chunks(sent[end..], maxCircuits) == done + ([chunk] + Chunks(sent[end..], maxCircuits));
        results := results + [execute(chunk)];
        done := done + [chunk];
        pos := end;
      }
      assert sent[pos..] == [];
    } else {
      results := [execute(sent)];
    }
  }

  function AllCounts(results: seq<JobResult>): seq<seq<Counts>>
  {
    seq(|results|, k requires 0 <= k < |results| => CountsOf(results[k]))
  }

  /** `_prepare_counts`: the histograms of all jobs, in job order. */
  method PrepareCounts(results: seq<JobResult>) returns (counts: seq<Counts>)
    ensures counts == Concat(AllCounts(results))
  {
    counts := [];
    for k := 0 to |results|
      invariant counts == Concat(AllCounts(results)[..k])
    {
      var count := CountsOf(results[k]);
      counts := counts + count;
      ConcatSnoc(AllCounts(results), k);
    }
    assert AllCounts(results)[..|results|] == AllCounts(results);
  }

  /** A backend that answers every experiment of a job with that experiment's
      own histogram, in order. */
  ghost predicate PerCircuit(execute: seq<Circuit> -> JobResult, histogram: Circuit -> Counts)
  {
    forall cs: seq<Circuit> :: CountsOf(execute(cs)) == Histograms(histogram, cs)
  }

  function Histograms(histogram: Circuit -> Counts, cs: seq<Circuit>): (r: seq<Counts>)
    ensures |r| == |cs|
  {
    seq(|cs|, i requires 0 <= i < |cs| => histogram(cs[i]))
  }

  lemma {:induction false} ConcatHistograms(histogram: Circuit -> Counts, xss: seq<seq<Circuit>>)
    ensures Concat(seq(|xss|, k requires 0 <= k < |xss| => Histograms(histogram, xss[k])))
      == Histograms(histogram, Concat(xss))
  {
    if |xss| > 0 {
      var hs := seq(|xss|, k requires 0 <= k < |xss| => Histograms(histogram, xss[k]));
      var tail := xss[1..];
      assert hs[1..] == seq(|tail|, k requires 0 <= k < |tail| => Histograms(histogram, tail[k]));
      ConcatHistograms(histogram, tail);
    }
  }

  /** With such a backend, the flattened counts line up with the circuits and
      hence with the metadata: entry i is the histogram of circuit i, whatever
      `max_circuits` is. */
  lemma {:induction false} CountsLineUp(circuits: seq<Circuit>, clearMetadata: bool, maxCircuits: nat,
                     execute: seq<Circuit> -> JobResult, histogram: Circuit -> Counts, results: seq<JobResult>)
    requires PerCircuit(execute, histogram)
    requires var calls := Batches(Cleared(circuits, clearMetadata), maxCircuits);
      |results| == |calls| && forall k :: 0 <= k < |calls| ==> results[k] == execute(calls[k])
    ensures Concat(AllCounts(results)) == Histograms(histogram, Cleared(circuits, clearMetadata))
  {
    var calls := Batches(Cleared(circuits, clearMetadata), maxCircuits);
    assert AllCounts(results) == seq(|calls|, k requires 0 <= k < |calls| => Histograms(histogram, calls[k]));
    ConcatHistograms(histogram, calls);
    BatchesConcat(Cleared(circuits, clearMetadata), maxCircuits);
  }

  // ----- one slice per pub ---------------------------------------------------------

  /** Python's `xs[a:b]` for 0 <= a <= b: both ends are clipped to the length. */
  function PySlice<T>(xs: seq<T>, a: nat, b: nat): seq<T>
    requires a <= b
  {
    xs[Min(a, |xs|)..Min(b, |xs|)]
  }

  function Sum(sizes: seq<nat>): nat
  {
    if |sizes| == 0 then 0 else Sum(sizes[..|sizes| - 1]) + sizes[|sizes| - 1]
  }

  lemma {:induction false} SumStep(sizes: seq<nat>, k: nat)
    requires k < |sizes|
    ensures Sum(sizes[..k + 1]) == Sum(sizes[..k]) + sizes[k]
  {
    assert sizes[..k + 1][..k] == sizes[..k];
  }

  lemma {:induction false} SumPrefixBound(sizes: seq<nat>, k: nat)
    requires k <= |sizes|
    ensures Sum(sizes[..k]) <= Sum(sizes)
    decreases |sizes| - k
  {
    if k < |sizes| {
      SumStep(sizes, k);
      SumPrefixBound(sizes, k + 1);
    } else {
      assert sizes[..k] == sizes;
    }
  }

  /** The sizes of a list of lists. */
  function Lengths<T>(ys: seq<seq<T>>): (r: seq<nat>)
    ensures |r| == |ys| && forall k :: 0 <= k < |ys| ==> r[k] == |ys[k]|
  {
    seq(|ys|, k requires 0 <= k < |ys| => |ys[k]|)
  }

  lemma {:induction false} ConcatLength<T>(ys: seq<seq<T>>, k: nat)
    requires k <= |ys|
    ensures |Concat(ys[..k])| == Sum(Lengths(ys)[..k])
  {
    if k > 0 {
      ConcatLength(ys, k - 1);
      ConcatSnoc(ys, k - 1);
      SumStep(Lengths(ys), k - 1);
    }
  }

  /** Entry i of piece k sits at offset (sizes of the earlier pieces) + i of the concatenation. */
  lemma {:induction false} ConcatAt<T>(ys: seq<seq<T>>, k: nat, i: nat)
    requires k < |ys| && i < |ys[k]|
    ensures Sum(Lengths(ys)[..k]) + i < |Concat(ys)|
    ensures Concat(ys)[Sum(Lengths(ys)[..k]) + i] == ys[k][i]
  {
    ConcatLength(ys, k);
    ConcatSplit(ys, k + 1);
    ConcatSnoc(ys, k);
  }

  /** The slices `_run_pubs` hands to each pub: from the running `start` to
      `end = start + len(data.circuits)`. */
  function Slices<T>(sizes: seq<nat>, xs: seq<T>): (r: seq<seq<T>>)
    ensures |r| == |sizes|
  {
    seq(|sizes|, k requires 0 <= k < |sizes| =>
      SumStep(sizes, k);
      PySlice(xs, Sum(sizes[..k]), Sum(sizes[..k + 1])))
  }

  /** The `start`/`end` loop of `_run_pubs`, applied to one list. */
  method SliceByPub<T>(sizes: seq<nat>, xs: seq<T>) returns (slices: seq<seq<T>>)
    ensures slices == Slices(sizes, xs)
  {
    slices := [];
    var start := 0;
    for k := 0 to |sizes|
      invariant start == Sum(sizes[..k])
      invariant slices == Slices(sizes, xs)[..k]
    {
      var end := start + sizes[k];
      SumStep(sizes, k);
      assert Slices(sizes, xs)[..k + 1] == Slices(sizes, xs)[..k] + [PySlice(xs, start, end)];
      slices := slices + [PySlice(xs, start, end)];
      start := end;
    }
  }

  /** When the list has exactly as many entries as the pubs have circuits, the
      slices are contiguous, pub k gets sizes[k] of them, and together they are
      the whole list. */
  lemma {:induction false} SlicesPartition<T>(sizes: seq<nat>, xs: seq<T>)
    requires |xs| == Sum(sizes)
    ensures forall k :: 0 <= k < |sizes| ==> |Slices(sizes, xs)[k]| == sizes[k]
    ensures Concat(Slices(sizes, xs)) == xs
  {
    forall k | 0 <= k < |sizes|
      ensures |Slices(sizes, xs)[k]| == sizes[k]
    {
      SumStep(sizes, k);
      SumPrefixBound(sizes, k + 1);
    }
    SlicesPrefix(sizes, xs, |sizes|);
    assert Slices(sizes, xs)[..|sizes|] == Slices(sizes, xs);
    assert sizes[..|sizes|] == sizes;
  }

  lemma {:induction false} SliceLength<T>(sizes: seq<nat>, xs: seq<T>, k: nat)
    requires |xs| == Sum(sizes) && k < |sizes|
    ensures |Slices(sizes, xs)[k]| == sizes[k]
  {
    SumStep(sizes, k);
    SumPrefixBound(sizes, k + 1);
  }

  /** Entry i of slice k is entry (earlier sizes) + i of the list. */
  lemma {:induction false} SliceAt<T>(sizes: seq<nat>, xs: seq<T>, k: nat, i: nat)
    requires |xs| == Sum(sizes) && k < |sizes| && i < sizes[k]
    ensures |Slices(sizes, xs)[k]| == sizes[k]
    ensures Sum(sizes[..k]) + i < |xs| && Slices(sizes, xs)[k][i] == xs[Sum(sizes[..k]) + i]
  {
    SumStep(sizes, k);
    SumPrefixBound(sizes, k + 1);
  }

  lemma {:induction false} SlicesPrefix<T>(sizes: seq<nat>, xs: seq<T>, k: nat)
    requires |xs| == Sum(sizes) && k <= |sizes|
    ensures Sum(sizes[..k]) <= |xs|
    ensures Concat(Slices(sizes, xs)[..k]) == xs[..Sum(sizes[..k])]
  {
    SumPrefixBound(sizes, k);
    if k > 0 {
      SlicesPrefix(sizes, xs, k - 1);
      ConcatSnoc(Slices(sizes, xs), k - 1);
      SumStep(sizes, k - 1);
      var a := Sum(sizes[..k - 1]);
      var b := Sum(sizes[..k]);
      assert xs[..b] == xs[..a] + xs[a..b];
    }
  }
}
