/** `_validate_pubs` and `_run`: rejecting non-positive precisions, grouping
    pubs by their number of shots, and putting each batch's results back at
    the positions of its pubs. */
module Batching {
  import opened Errors
  import opened Pubs
  import opened Collections

  /** `_validate_pubs`: the first pub whose precision is not positive is refused. */
  method ValidatePubs(pubs: seq<Pub>) returns (r: Result<()>)
    ensures r.Ok? <==> forall i :: 0 <= i < |pubs| ==> pubs[i].precision > 0.0
    ensures r.Err? ==> r.error.InvalidPrecision? && r.error.pubIndex < |pubs|
    ensures r.Err? ==> pubs[r.error.pubIndex].precision <= 0.0
    ensures r.Err? ==> forall j :: 0 <= j < r.error.pubIndex ==> pubs[j].precision > 0.0
  {
    for i := 0 to |pubs|
      invariant forall j :: 0 <= j < i ==> pubs[j].precision > 0.0
    {
      if pubs[i].precision <= 0.0 {
        return Err(InvalidPrecision(i));
      }
    }
    return Ok(());
  }

  /** `int(math.ceil(1.0 / precision**2))`, over the reals. */
  function Shots(precision: real): (s: nat)
    requires precision > 0.0
    ensures s as real >= 1.0 / (precision * precision)
    ensures (s - 1) as real < 1.0 / (precision * precision)
    ensures s >= 1
  {
    assert precision * precision > 0.0;
    var x := 1.0 / (precision * precision);
    assert x > 0.0;
    var f := x.Floor;
    if f as real == x then f else f + 1
  }

  /** The default precision 1/64 asks for 4096 shots. */
  lemma {:induction false} DefaultPrecisionShots()
    ensures Shots(0.015625) == 4096
    ensures Shots(0.5) == 4
  {
    assert 1.0 / (0.015625 * 0.015625) == 4096.0;
    assert 1.0 / (0.5 * 0.5) == 4.0;
  }

  predicate AllPositive(pubs: seq<Pub>)
  {
    forall i :: 0 <= i < |pubs| ==> pubs[i].precision > 0.0
  }

  function ShotsOf(pubs: seq<Pub>): (s: seq<nat>)
    requires AllPositive(pubs)
    ensures |s| == |pubs|
  {
    seq(|pubs|, i requires 0 <= i < |pubs| => Shots(pubs[i].precision))
  }

  /** The positions holding value v, in increasing order. */
  function IndicesWith(shots: seq<nat>, v: nat): seq<nat>
  {
    if |shots| == 0 then []
    else IndicesWith(shots[..|shots| - 1], v) + (if shots[|shots| - 1] == v then [|shots| - 1] else [])
  }

  /** How many earlier pubs share pub i's number of shots: its place in its batch. */
  function Rank(shots: seq<nat>, i: nat): nat
    requires i < |shots|
  {
    |IndicesWith(shots[..i], shots[i])|
  }

  /** The indices with value v are exactly the positions holding v, strictly increasing. */
  lemma {:induction false} IndicesWithSpec(shots: seq<nat>, v: nat)
    ensures forall k :: 0 <= k < |IndicesWith(shots, v)| ==>
      IndicesWith(shots, v)[k] < |shots| && shots[IndicesWith(shots, v)[k]] == v
    ensures forall i :: 0 <= i < |shots| && shots[i] == v ==> i in IndicesWith(shots, v)
    ensures forall a, b :: 0 <= a < b < |IndicesWith(shots, v)| ==> IndicesWith(shots, v)[a] < IndicesWith(shots, v)[b]
  {
    if |shots| > 0 {
      var init := shots[..|shots| - 1];
      IndicesWithSpec(init, v);
      var r := IndicesWith(shots, v);
      forall k | 0 <= k < |IndicesWith(init, v)|
        ensures IndicesWith(init, v)[k] < |init| && shots[IndicesWith(init, v)[k]] == v
      {
        assert init[IndicesWith(init, v)[k]] == shots[IndicesWith(init, v)[k]];
      }
      forall i | 0 <= i < |shots| && shots[i] == v
        ensures i in r
      {
        if i < |shots| - 1 {
          assert init[i] == v;
        }
      }
    }
  }

  /** A value that does not occur has no indices. */
  lemma {:induction false} IndicesWithAbsent(shots: seq<nat>, v: nat)
    requires v !in shots
    ensures IndicesWith(shots, v) == []
  {
    if |shots| > 0 {
      IndicesWithAbsent(shots[..|shots| - 1], v);
    }
  }

  /** The indices found in a prefix are a prefix of the indices found in the whole. */
  lemma {:induction false} IndicesWithPrefix(shots: seq<nat>, m: nat, v: nat)
    requires m <= |shots|
    ensures IndicesWith(shots[..m], v) <= IndicesWith(shots, v)
    decreases |shots| - m
  {
    if m < |shots| {
      IndicesWithPrefix(shots, m + 1, v);
      assert shots[..m + 1][..m] == shots[..m];
    } else {
      assert shots[..m] == shots;
    }
  }

  /** Pub i sits at position Rank(shots, i) of its batch. */
  lemma {:induction false} RankLocates(shots: seq<nat>, i: nat)
    requires i < |shots|
    ensures Rank(shots, i) < |IndicesWith(shots, shots[i])|
    ensures IndicesWith(shots, shots[i])[Rank(shots, i)] == i
  {
    assert shots[..i + 1][..i] == shots[..i];
    IndicesWithPrefix(shots, i + 1, shots[i]);
  }

  /** Every position of a batch has its own index as rank: no two pubs share a slot. */
  lemma {:induction false} RankOfMember(shots: seq<nat>, v: nat, k: nat)
    requires k < |IndicesWith(shots, v)|
    ensures IndicesWith(shots, v)[k] < |shots| && shots[IndicesWith(shots, v)[k]] == v
    ensures Rank(shots, IndicesWith(shots, v)[k]) == k
  {
    IndicesWithSpec(shots, v);
    var i := IndicesWith(shots, v)[k];
    RankLocates(shots, i);
  }

  /** The first loop of `_run`: `pub_dict[shots].append(i)` for every pub, giving
      the keys in insertion order and each key's list of pub indices. */
  method GroupByShots(shots: seq<nat>) returns (keys: seq<nat>, groups: map<nat, seq<nat>>)
    ensures keys == Keys(shots)
    ensures forall v :: v in groups <==> v in shots
    ensures forall v :: v in groups ==> groups[v] == IndicesWith(shots, v)
  {
    keys := [];
    groups := map[];
    for i := 0 to |shots|
      invariant keys == Keys(shots[..i])
      invariant forall v :: v in groups <==> v in shots[..i]
      invariant forall v :: v in groups ==> groups[v] == IndicesWith(shots[..i], v)
    {
      var v := shots[i];
      ghost var prefix := shots[..i + 1];
      assert prefix[..i] == shots[..i];
      KeysSpec(shots[..i]);
      if v in groups {
        groups := groups[v := groups[v] + [i]];
      } else {
        keys := keys + [v];
        groups := groups[v := [i]];
        IndicesWithAbsent(shots[..i], v);
      }
      assert shots[..i + 1] == shots[..i] + [v];
    }
    assert shots[..|shots|] == shots;
  }

  function Select(pubs: seq<Pub>, lst: seq<nat>): (r: seq<Pub>)
    requires forall k :: 0 <= k < |lst| ==> lst[k] < |pubs|
    ensures |r| == |lst| && forall k :: 0 <= k < |lst| ==> r[k] == pubs[lst[k]]
  {
    seq(|lst|, k requires 0 <= k < |lst| => pubs[lst[k]])
  }

  /** The pubs run together with v shots, in input order. */
  function Batch(pubs: seq<Pub>, shots: seq<nat>, v: nat): seq<Pub>
    requires |shots| == |pubs|
  {
    IndicesWithSpec(shots, v);
    Select(pubs, IndicesWith(shots, v))
  }

  /** Every batch `_run_pubs` is given succeeds. */
  predicate BatchesOk<R>(pubs: seq<Pub>, shots: seq<nat>, runPubs: (seq<Pub>, nat) -> Result<seq<R>>)
    requires |shots| == |pubs|
  {
    forall i :: 0 <= i < |pubs| ==> runPubs(Batch(pubs, shots, shots[i]), shots[i]).Ok?
  }

  /** What `results[i]` holds after the scatter: the entry of pub i's batch at
      pub i's place in it, or None when the batch returned fewer results. */
  function Scattered<R>(pubs: seq<Pub>, shots: seq<nat>, runPubs: (seq<Pub>, nat) -> Result<seq<R>>, i: nat): Option<R>
    requires |shots| == |pubs| && i < |pubs|
    requires runPubs(Batch(pubs, shots, shots[i]), shots[i]).Ok?
  {
    var out := runPubs(Batch(pubs, shots, shots[i]), shots[i]).value;
    if Rank(shots, i) < |out| then Some(out[Rank(shots, i)]) else None
  }

  /** The scatter loop of `_run`: `results[i] = pub_result` for the pairs of
      `zip(lst, pub_results)`; every other slot keeps its value. */
  method Scatter<R>(results: seq<Option<R>>, lst: seq<nat>, out: seq<R>) returns (res: seq<Option<R>>)
    requires forall k :: 0 <= k < |lst| ==> lst[k] < |results|
    requires forall a, b :: 0 <= a < b < |lst| ==> lst[a] < lst[b]
    ensures |res| == |results|
    ensures forall k :: 0 <= k < Min(|lst|, |out|) ==> res[lst[k]] == Some(out[k])
    ensures forall i :: 0 <= i < |results| && i !in lst[..Min(|lst|, |out|)] ==> res[i] == results[i]
  {
    res := results;
    for k := 0 to Min(|lst|, |out|)
      invariant |res| == |results|
      invariant forall j :: 0 <= j < k ==> res[lst[j]] == Some(out[j])
      invariant forall i :: 0 <= i < |results| && i !in lst[..k] ==> res[i] == results[i]
    {
      res := res[lst[k] := Some(out[k])];
      assert lst[..k + 1] == lst[..k] + [lst[k]];
    }
  }

  /** One round of the second loop of `_run`: run the batch of pubs with v shots
      and put its results in place. */
  method RunBatch<R>(pubs: seq<Pub>, shots: seq<nat>, runPubs: (seq<Pub>, nat) -> Result<seq<R>>, v: nat,
                     lst: seq<nat>, results: seq<Option<R>>)
    returns (r: Result<seq<Option<R>>>)
    requires |shots| == |pubs| && lst == IndicesWith(shots, v) && |results| == |pubs|
    requires forall i :: 0 <= i < |pubs| && shots[i] == v ==> results[i] == None
    ensures r.Err? ==> runPubs(Batch(pubs, shots, v), v) == Err(r.error)
    ensures r.Ok? ==> runPubs(Batch(pubs, shots, v), v).Ok? && |r.value| == |pubs|
    ensures r.Ok? ==> forall i :: 0 <= i < |pubs| && shots[i] == v ==> r.value[i] == Scattered(pubs, shots, runPubs, i)
    ensures r.Ok? ==> forall i :: 0 <= i < |pubs| && shots[i] != v ==> r.value[i] == results[i]
  {
    IndicesWithSpec(shots, v);
    var batch := runPubs(Select(pubs, lst), v);
    if batch.Err? {
      return Err(batch.error);
    }
    var out := batch.value;
    var res := Scatter(results, lst, out);
    forall i | 0 <= i < |pubs|
      ensures shots[i] == v ==> res[i] == Scattered(pubs, shots, runPubs, i)
      ensures shots[i] != v ==> res[i] == results[i]
    {
      if shots[i] == v {
        RankLocates(shots, i);
        var k := Rank(shots, i);
        if k < |out| {
          assert res[lst[k]] == Some(out[k]);
        } else {
          forall k' | 0 <= k' < Min(|lst|, |out|)
            ensures lst[k'] != i
          {
            RankOfMember(shots, v, k');
          }
        }
      } else {
        assert i !in lst;
      }
    }
    r := Ok(res);
  }

  /** The first loop of `_run`, its shot counts. */
  method ShotCounts(pubs: seq<Pub>) returns (shots: seq<nat>)
    requires AllPositive(pubs)
    ensures shots == ShotsOf(pubs)
  {
    shots := [];
    for i := 0 to |pubs|
      invariant shots == ShotsOf(pubs)[..i]
    {
      shots := shots + [Shots(pubs[i].precision)];
    }
  }

  /** `_run`, with `_run_pubs` given as `runPubs`. The precisions are positive
      because `run` validates the pubs before it submits `_run`. */
  method Run<R>(pubs: seq<Pub>, runPubs: (seq<Pub>, nat) -> Result<seq<R>>) returns (r: Result<seq<Option<R>>>)
    requires AllPositive(pubs)
    ensures r.Ok? <==> BatchesOk(pubs, ShotsOf(pubs), runPubs)
    ensures r.Err? ==>
      exists i :: 0 <= i < |pubs| && runPubs(Batch(pubs, ShotsOf(pubs), ShotsOf(pubs)[i]), ShotsOf(pubs)[i]) == Err(r.error)
    ensures r.Ok? ==> |r.value| == |pubs|
    ensures r.Ok? ==> forall i :: 0 <= i < |pubs| ==> r.value[i] == Scattered(pubs, ShotsOf(pubs), runPubs, i)
  {
    var shots := ShotCounts(pubs);
    r := RunGrouped(pubs, shots, runPubs);
  }

  /** `_run` once the shot counts are known. */
  method RunGrouped<R>(pubs: seq<Pub>, shots: seq<nat>, runPubs: (seq<Pub>, nat) -> Result<seq<R>>)
    returns (r: Result<seq<Option<R>>>)
    requires |shots| == |pubs|
    ensures r.Ok? <==> BatchesOk(pubs, shots, runPubs)
    ensures r.Err? ==> exists i :: 0 <= i < |pubs| && runPubs(Batch(pubs, shots, shots[i]), shots[i]) == Err(r.error)
    ensures r.Ok? ==> |r.value| == |pubs|
    ensures r.Ok? ==> forall i :: 0 <= i < |pubs| ==> r.value[i] == Scattered(pubs, shots, runPubs, i)
  {
    var keys, groups := GroupByShots(shots);
    KeysSpec(shots);
    var results: seq<Option<R>> := seq(|pubs|, _ => None);
    ghost var done: set<nat> := {};
    for t := 0 to |keys|
      invariant |results| == |pubs|
      invariant forall j :: 0 <= j < |keys| ==> (keys[j] in done <==> j < t)
      invariant forall i :: 0 <= i < |pubs| && shots[i] in done ==>
        runPubs(Batch(pubs, shots, shots[i]), shots[i]).Ok? && results[i] == Scattered(pubs, shots, runPubs, i)
      invariant forall i :: 0 <= i < |pubs| && shots[i] !in done ==> results[i] == None
    {
      var v := keys[t];
      var batch := RunBatch(pubs, shots, runPubs, v, groups[v], results);
      if batch.Err? {
        var i :| 0 <= i < |shots| && shots[i] == v;
        return Err(batch.error);
      }
      results := batch.value;
      done := done + {v};
    }
    forall i | 0 <= i < |pubs|
      ensures shots[i] in done
    {
      assert shots[i] in shots;
      var j :| 0 <= j < |keys| && keys[j] == shots[i];
    }
    r := Ok(results);
  }

  /** When `_run_pubs` answers each pub of a batch on its own, every pub gets
      back exactly its own answer: the regrouping does not reorder results. */
  lemma {:induction false} ScatterRestoresOrder<R>(pubs: seq<Pub>, shots: seq<nat>, runPubs: (seq<Pub>, nat) -> Result<seq<R>>,
                                f: (Pub, nat) -> R, i: nat)
    requires |shots| == |pubs| && i < |pubs|
    requires forall ps: seq<Pub>, v: nat :: runPubs(ps, v) == Ok(seq(|ps|, k requires 0 <= k < |ps| => f(ps[k], v)))
    ensures runPubs(Batch(pubs, shots, shots[i]), shots[i]).Ok?
    ensures Scattered(pubs, shots, runPubs, i) == Some(f(pubs[i], shots[i]))
  {
    RankLocates(shots, i);
  }
}
