/** Estimator pubs and `_preprocess_pub`: which Pauli labels are needed at
    which position of the bindings array, and the measurement variants built
    for them by `_bind_and_add_measurements`. */
module Pubs {
  import opened Errors
  import opened Paulis
  import opened Circuits
  import opened Measurement
  import opened Sorting
  import opened Collections

  /** One element of an observables array: the items of its label-to-coefficient
      dictionary, in iteration order. */
  type Observable = seq<(string, real)>

  /** One position of the pub's broadcast shape: the bindings-array index and the
      observable found there. */
  type Cell = (ParamIndex, Observable)

  /** An estimator pub with its broadcast cells listed in `np.ndindex` order. */
  datatype Pub = Pub(circuit: Circuit, cells: seq<Cell>, precision: real)

  // ----- param_obs_map ----------------------------------------------------------------

  function LabelSet(obs: Observable): set<string>
  {
    set t | 0 <= t < |obs| :: obs[t].0
  }

  function ParamsOf(cells: seq<Cell>): (r: seq<ParamIndex>)
    ensures |r| == |cells| && forall i :: 0 <= i < |cells| ==> r[i] == cells[i].0
  {
    seq(|cells|, i requires 0 <= i < |cells| => cells[i].0)
  }

  /** The labels of every cell whose bindings index is p. */
  function LabelsAt(cells: seq<Cell>, p: ParamIndex): set<string>
  {
    if |cells| == 0 then {}
    else LabelsAt(cells[..|cells| - 1], p) + (if cells[|cells| - 1].0 == p then LabelSet(cells[|cells| - 1].1) else {})
  }

  /** A label is needed at p exactly when some cell with index p has a term with it. */
  lemma {:induction false} LabelsAtSpec(cells: seq<Cell>, p: ParamIndex, l: string)
    ensures l in LabelsAt(cells, p) <==>
      exists i, t :: 0 <= i < |cells| && 0 <= t < |cells[i].1| && cells[i].0 == p && cells[i].1[t].0 == l
  {
    if |cells| > 0 {
      var init := cells[..|cells| - 1];
      LabelsAtSpec(init, p, l);
      if exists i, t :: 0 <= i < |cells| && 0 <= t < |cells[i].1| && cells[i].0 == p && cells[i].1[t].0 == l {
        var i, t :| 0 <= i < |cells| && 0 <= t < |cells[i].1| && cells[i].0 == p && cells[i].1[t].0 == l;
        if i < |cells| - 1 {
          assert init[i] == cells[i];
        } else {
          assert l in LabelSet(cells[i].1);
        }
      }
      if l in LabelsAt(init, p) {
        var i, t :| 0 <= i < |init| && 0 <= t < |init[i].1| && init[i].0 == p && init[i].1[t].0 == l;
        assert cells[i] == init[i];
      }
    }
  }

  /** The loop of `_preprocess_pub` that fills `param_obs_map`, a
      `defaultdict(set)`: its keys in insertion order and its sets. */
  method ParamObsMap(cells: seq<Cell>) returns (keys: seq<ParamIndex>, m: map<ParamIndex, set<string>>)
    ensures keys == Keys(ParamsOf(cells))
    ensures m == ObsMap(cells)
  {
    keys := [];
    m := map[];
    for i := 0 to |cells|
      invariant keys == Keys(ParamsOf(cells[..i]))
      invariant m == ObsMap(cells[..i])
    {
      var (paramIndex, obs) := cells[i];
      CellsStep(cells, i);
      ObsMapStep(cells, i);
      keys, m := AddLabels(keys, m, paramIndex, obs);
    }
    assert cells[..|cells|] == cells;
  }

  /** `param_obs_map[param_index].update(observable)` on the `defaultdict(set)`:
      a missing index gets an empty set first, and becomes the next key. */
  method AddLabels(keys: seq<ParamIndex>, m: map<ParamIndex, set<string>>, paramIndex: ParamIndex, obs: Observable)
    returns (keys': seq<ParamIndex>, m': map<ParamIndex, set<string>>)
    ensures keys' == if paramIndex in m then keys else keys + [paramIndex]
    ensures m' == m[paramIndex := (if paramIndex in m then m[paramIndex] else {}) + LabelSet(obs)]
  {
    keys', m' := keys, m;
    if paramIndex !in m' {
      keys' := keys' + [paramIndex];
      m' := m'[paramIndex := {}];
    }
    m' := m'[paramIndex := m'[paramIndex] + LabelSet(obs)];
  }

  /** One more cell: its index is appended, and becomes a key unless it
      already was one. */
  lemma {:induction false} CellsStep(cells: seq<Cell>, i: nat)
    requires i < |cells|
    ensures ParamsOf(cells[..i + 1]) == ParamsOf(cells[..i]) + [cells[i].0]
    ensures Keys(ParamsOf(cells[..i + 1])) ==
      if cells[i].0 in ParamsOf(cells[..i]) then Keys(ParamsOf(cells[..i])) else Keys(ParamsOf(cells[..i])) + [cells[i].0]
  {
    assert ParamsOf(cells[..i + 1])[..i] == ParamsOf(cells[..i]);
    KeysSpec(ParamsOf(cells[..i]));
  }

  /** One more cell: its labels join those already needed at its index. */
  lemma {:induction false} LabelsAtStep(cells: seq<Cell>, i: nat)
    requires i < |cells|
    ensures forall p ::
      LabelsAt(cells[..i + 1], p) == LabelsAt(cells[..i], p) + (if cells[i].0 == p then LabelSet(cells[i].1) else {})
  {
    assert cells[..i + 1][..i] == cells[..i];
  }

  /** The finished `param_obs_map` as a value. */
  ghost function ObsMap(cells: seq<Cell>): map<ParamIndex, set<string>>
  {
    map p | p in ParamsOf(cells) :: LabelsAt(cells, p)
  }

  /** `param_obs_map[param_index].update(observable)` on a `defaultdict(set)`
      takes the map of the first i cells to the map of the first i + 1. */
  lemma {:induction false} ObsMapStep(cells: seq<Cell>, i: nat)
    requires i < |cells|
    ensures var m := ObsMap(cells[..i]);
            var p := cells[i].0;
            ObsMap(cells[..i + 1]) == m[p := (if p in m then m[p] else {}) + LabelSet(cells[i].1)]
  {
    var m := ObsMap(cells[..i]);
    var p := cells[i].0;
    var m' := m[p := (if p in m then m[p] else {}) + LabelSet(cells[i].1)];
    CellsStep(cells, i);
    LabelsAtStep(cells, i);
    if p !in m {
      LabelsAbsent(cells[..i], p);
    }
    assert forall q :: q in ObsMap(cells[..i + 1]) <==> q in m';
    forall q | q in m'
      ensures ObsMap(cells[..i + 1])[q] == m'[q]
    {
    }
  }

  lemma {:induction false} LabelsAbsent(cells: seq<Cell>, p: ParamIndex)
    requires p !in ParamsOf(cells)
    ensures LabelsAt(cells, p) == {}
  {
    if |cells| > 0 {
      var init := cells[..|cells| - 1];
      assert ParamsOf(cells) == ParamsOf(init) + [cells[|cells| - 1].0];
      LabelsAbsent(init, p);
    }
  }

  // ----- _bind_and_add_measurements -------------------------------------------------

  /** A label `PauliList` accepts without a phase: n Pauli letters. */
  predicate ValidLabel(l: string, n: nat)
  {
    |l| == n && forall k :: 0 <= k < |l| ==> IsPauliChar(l[k])
  }

  /** The assumption made of every pub: each term label is a Pauli string
      (letters I, X, Y, Z only) as wide as the circuit. */
  predicate WellFormed(pub: Pub)
  {
    forall i, t :: 0 <= i < |pub.cells| && 0 <= t < |pub.cells[i].1| ==>
      ValidLabel(pub.cells[i].1[t].0, pub.circuit.numQubits)
  }

  lemma {:induction false} LabelsValid(pub: Pub)
    requires WellFormed(pub)
    ensures forall p, l :: l in LabelsAt(pub.cells, p) ==> ValidLabel(l, pub.circuit.numQubits)
  {
    forall p, l | l in LabelsAt(pub.cells, p)
      ensures ValidLabel(l, pub.circuit.numQubits)
    {
      LabelsAtSpec(pub.cells, p, l);
    }
  }

  /** `Pauli(label)` for a label without a phase; it prints back as the label. */
  function PauliOf(l: string, n: nat): (p: Pauli)
    requires ValidLabel(l, n)
    ensures NumQubits(p) == n && Label(p) == l
  {
    LabelOfFromLabel(l);
    FromLabel(l).value
  }

  /** `PauliList(labels)`: one Pauli per label, in order. */
  function PaulisOf(labels: seq<string>, n: nat): (ps: seq<Pauli>)
    requires forall j :: 0 <= j < |labels| ==> ValidLabel(labels[j], n)
    ensures |ps| == |labels| && Uniform(ps, n)
    ensures forall j :: 0 <= j < |ps| ==> Label(ps[j]) == labels[j]
  {
    seq(|labels|, j requires 0 <= j < |labels| => PauliOf(labels[j], n))
  }

  /** The grouping oracle keeps the width of the Paulis it is given. */
  ghost predicate GrouperKeepsWidth(grouper: seq<Pauli> -> seq<seq<Pauli>>)
  {
    forall ps: seq<Pauli>, n: nat, j: nat :: Uniform(ps, n) && j < |grouper(ps)| ==> Uniform(grouper(ps)[j], n)
  }

  /** What `group_commuting(qubit_wise=True)` promises: its groups are qubit-wise
      commuting and every Pauli given to it is in one of them. */
  ghost predicate GrouperSound(grouper: seq<Pauli> -> seq<seq<Pauli>>)
  {
    GrouperKeepsWidth(grouper) &&
    forall ps: seq<Pauli>, n: nat {:trigger grouper(ps), Uniform(ps, n)} :: Uniform(ps, n) ==> Partitioned(ps, n, grouper(ps))
  }

  predicate Partitioned(ps: seq<Pauli>, n: nat, gs: seq<seq<Pauli>>)
  {
    (forall j :: 0 <= j < |gs| ==> QubitWiseGroup(gs[j], n)) &&
    forall k :: 0 <= k < |ps| ==> exists j, i :: 0 <= j < |gs| && 0 <= i < |gs[j]| && gs[j][i] == ps[k]
  }

  predicate LabelsOk(m: map<ParamIndex, set<string>>, n: nat)
  {
    forall p, l :: p in m && l in m[p] ==> ValidLabel(l, n)
  }

  /** The Paulis measured at one bindings index, in sorted label order. */
  ghost function SortedPaulis(labels: set<string>, n: nat): (ps: seq<Pauli>)
    requires forall l :: l in labels ==> ValidLabel(l, n)
    ensures Uniform(ps, n)
  {
    PaulisOf(SortedList(labels), n)
  }

  /** The labels at p are valid and every measurement variant of the circuit
      bound at p can be built. */
  ghost predicate BindingOk(circuit: Circuit, p: ParamIndex, labels: set<string>, n: nat, grouping: bool,
                            grouper: seq<Pauli> -> seq<seq<Pauli>>)
  {
    GrouperKeepsWidth(grouper) && (forall l :: l in labels ==> ValidLabel(l, n)) &&
    var obs := SortedPaulis(labels, n);
    var gs := MeasurementGroups(obs, grouping, grouper(obs));
    forall j :: 0 <= j < |gs| ==> GroupOk(Bind(circuit, p), gs, n, grouping, j)
  }

  /** The measurement variants of the circuit bound at p, one per group. */
  ghost function BindingVariants(circuit: Circuit, p: ParamIndex, labels: set<string>, n: nat, grouping: bool,
                                 grouper: seq<Pauli> -> seq<seq<Pauli>>): seq<Circuit>
    requires BindingOk(circuit, p, labels, n, grouping, grouper)
  {
    var obs := SortedPaulis(labels, n);
    var gs := MeasurementGroups(obs, grouping, grouper(obs));
    seq(|gs|, j requires 0 <= j < |gs| && GroupOk(Bind(circuit, p), gs, n, grouping, j) => MeasuredVariant(Bind(circuit, p), gs[j], n, GroupBasis(gs[j], n, grouping), p))
  }

  ghost predicate AllBindingsOk(circuit: Circuit, keys: seq<ParamIndex>, m: map<ParamIndex, set<string>>, n: nat,
                                grouping: bool, grouper: seq<Pauli> -> seq<seq<Pauli>>)
  {
    forall k :: 0 <= k < |keys| ==> keys[k] in m && BindingOk(circuit, keys[k], m[keys[k]], n, grouping, grouper)
  }

  /** The variants of every key, concatenated in key order. */
  ghost function AllVariants(circuit: Circuit, keys: seq<ParamIndex>, m: map<ParamIndex, set<string>>, n: nat,
                             grouping: bool, grouper: seq<Pauli> -> seq<seq<Pauli>>): seq<Circuit>
    requires AllBindingsOk(circuit, keys, m, n, grouping, grouper)
  {
    if |keys| == 0 then []
    else
      var last := keys[|keys| - 1];
      AllVariants(circuit, keys[..|keys| - 1], m, n, grouping, grouper)
        + BindingVariants(circuit, last, m[last], n, grouping, grouper)
  }

  /** `_bind_and_add_measurements`: for each key of `param_obs_map` in order,
      bind the circuit, sort the labels, and extend the list with the
      measurement variants; the first failure is raised. */
  method BindAndAddMeasurements(circuit: Circuit, keys: seq<ParamIndex>, m: map<ParamIndex, set<string>>, n: nat,
                                grouping: bool, grouper: seq<Pauli> -> seq<seq<Pauli>>)
    returns (r: Result<seq<Circuit>>)
    requires GrouperKeepsWidth(grouper) && LabelsOk(m, n)
    requires forall k :: 0 <= k < |keys| ==> keys[k] in m
    ensures r.Ok? <==> AllBindingsOk(circuit, keys, m, n, grouping, grouper)
    ensures r.Ok? ==> r.value == AllVariants(circuit, keys, m, n, grouping, grouper)
    ensures r.Err? ==> r.error.QubitOutOfRange? || r.error.RegisterConflict?
  {
    var circuits: seq<Circuit> := [];
    for k := 0 to |keys|
      invariant AllBindingsOk(circuit, keys[..k], m, n, grouping, grouper)
      invariant circuits == AllVariants(circuit, keys[..k], m, n, grouping, grouper)
    {
      var p := keys[k];
      var res := AddBinding(circuit, p, m[p], n, grouping, grouper);
      if res.Err? {
        return Err(res.error);
      }
      AllVariantsStep(circuit, keys, m, n, grouping, grouper, k);
      circuits := circuits + res.value;
    }
    assert keys[..|keys|] == keys;
    r := Ok(circuits);
  }

  lemma {:induction false} AllVariantsStep(circuit: Circuit, keys: seq<ParamIndex>, m: map<ParamIndex, set<string>>, n: nat,
                        grouping: bool, grouper: seq<Pauli> -> seq<seq<Pauli>>, k: nat)
    requires k < |keys| && AllBindingsOk(circuit, keys[..k], m, n, grouping, grouper)
    requires keys[k] in m && BindingOk(circuit, keys[k], m[keys[k]], n, grouping, grouper)
    ensures AllBindingsOk(circuit, keys[..k + 1], m, n, grouping, grouper)
    ensures AllVariants(circuit, keys[..k + 1], m, n, grouping, grouper)
      == AllVariants(circuit, keys[..k], m, n, grouping, grouper) + BindingVariants(circuit, keys[k], m[keys[k]], n, grouping, grouper)
  {
    var ks := keys[..k + 1];
    assert ks[..k] == keys[..k] && ks[k] == keys[k];
    forall j | 0 <= j < |ks|
      ensures ks[j] in m && BindingOk(circuit, ks[j], m[ks[j]], n, grouping, grouper)
    {
      if j < k {
        assert ks[j] == keys[..k][j];
      }
    }
  }

  /** One iteration of `_bind_and_add_measurements`. */
  method AddBinding(circuit: Circuit, p: ParamIndex, labels: set<string>, n: nat, grouping: bool,
                    grouper: seq<Pauli> -> seq<seq<Pauli>>)
    returns (r: Result<seq<Circuit>>)
    requires GrouperKeepsWidth(grouper) && forall l :: l in labels ==> ValidLabel(l, n)
    ensures r.Ok? <==> BindingOk(circuit, p, labels, n, grouping, grouper)
    ensures r.Ok? ==> r.value == BindingVariants(circuit, p, labels, n, grouping, grouper)
    ensures r.Err? ==> r.error.QubitOutOfRange? || r.error.RegisterConflict?
  {
    var bound := Bind(circuit, p);
    var sorted := SortLabels(labels);
    var paulis := PaulisOf(sorted, n);
    r := CreateMeasurementCircuits(bound, paulis, n, p, grouping, grouper(paulis));
  }

  // ----- _preprocess_pub ------------------------------------------------------------

  /** Every bindings index of the pub can be measured. */
  ghost predicate PubOk(pub: Pub, grouping: bool, grouper: seq<Pauli> -> seq<seq<Pauli>>)
  {
    AllBindingsOk(pub.circuit, Keys(ParamsOf(pub.cells)), ObsMap(pub.cells), pub.circuit.numQubits, grouping, grouper)
  }

  /** The circuits `_preprocess_pub` returns for a pub that can be measured. */
  ghost function PubVariants(pub: Pub, grouping: bool, grouper: seq<Pauli> -> seq<seq<Pauli>>): seq<Circuit>
    requires PubOk(pub, grouping, grouper)
  {
    AllVariants(pub.circuit, Keys(ParamsOf(pub.cells)), ObsMap(pub.cells), pub.circuit.numQubits, grouping, grouper)
  }

  /** `_preprocess_pub` on a pub whose cells are already broadcast: collect
      `param_obs_map`, then bind and add measurements. */
  method PreprocessPub(pub: Pub, grouping: bool, grouper: seq<Pauli> -> seq<seq<Pauli>>) returns (r: Result<seq<Circuit>>)
    requires GrouperKeepsWidth(grouper) && WellFormed(pub)
    ensures r.Ok? <==> PubOk(pub, grouping, grouper)
    ensures r.Ok? ==> r.value == PubVariants(pub, grouping, grouper)
    ensures r.Err? ==> r.error.QubitOutOfRange? || r.error.RegisterConflict?
  {
    var keys, m := ParamObsMap(pub.cells);
    LabelsValid(pub);
    KeysSpec(ParamsOf(pub.cells));
    r := BindAndAddMeasurements(pub.circuit, keys, m, pub.circuit.numQubits, grouping, grouper);
  }

  // ----- every needed estimate is measured ------------------------------------------

  /** Some circuit of cs carries measurement metadata that measures key. */
  predicate MeasuredBy(cs: seq<Circuit>, key: (ParamIndex, string))
  {
    exists v :: 0 <= v < |cs| && cs[v].metadata.Measured? && Measures(cs[v].metadata, key)
  }

  /** The variant of group j carries that group as its original Paulis, one
      measured Pauli per original, and the bindings index p. */
  lemma {:induction false} BindingVariantMeta(circuit: Circuit, p: ParamIndex, labels: set<string>, n: nat, grouping: bool,
                                              grouper: seq<Pauli> -> seq<seq<Pauli>>, j: nat)
    requires BindingOk(circuit, p, labels, n, grouping, grouper)
    requires j < |MeasurementGroups(SortedPaulis(labels, n), grouping, grouper(SortedPaulis(labels, n)))|
    ensures var gs := MeasurementGroups(SortedPaulis(labels, n), grouping, grouper(SortedPaulis(labels, n)));
            var cs := BindingVariants(circuit, p, labels, n, grouping, grouper);
            j < |cs| && cs[j].metadata.Measured? && cs[j].metadata.origPaulis == gs[j]
            && |cs[j].metadata.measPaulis| == |gs[j]| && cs[j].metadata.paramIndex == p
  {
    var obs := SortedPaulis(labels, n);
    var gs := MeasurementGroups(obs, grouping, grouper(obs));
    assert GroupOk(Bind(circuit, p), gs, n, grouping, j);
  }

  /** With a sound grouping oracle, the variants bound at p measure every label
      needed there, whether grouping is on or off. */
  lemma {:induction false} BindingMeasuresLabels(circuit: Circuit, p: ParamIndex, labels: set<string>, n: nat, grouping: bool,
                              grouper: seq<Pauli> -> seq<seq<Pauli>>, l: string)
    requires GrouperSound(grouper) && BindingOk(circuit, p, labels, n, grouping, grouper) && l in labels
    ensures MeasuredBy(BindingVariants(circuit, p, labels, n, grouping, grouper), (p, l))
  {
    var sorted := SortedList(labels);
    var obs := SortedPaulis(labels, n);
    assert l in sorted;
    var j0 :| 0 <= j0 < |sorted| && sorted[j0] == l;
    assert Label(obs[j0]) == l;
    var gs := MeasurementGroups(obs, grouping, grouper(obs));
    var j: nat, i: nat := j0, 0;
    if grouping {
      assert Partitioned(obs, n, grouper(obs));
      j, i :| 0 <= j < |gs| && 0 <= i < |gs[j]| && gs[j][i] == obs[j0];
    }
    BindingVariantMeta(circuit, p, labels, n, grouping, grouper, j);
    var meta := BindingVariants(circuit, p, labels, n, grouping, grouper)[j].metadata;
    assert (p, l) == (meta.paramIndex, Label(meta.origPaulis[i]));
  }

  /** A nonempty key list splits into its prefix and its last key. */
  lemma {:induction false} AllVariantsSplit(circuit: Circuit, keys: seq<ParamIndex>, m: map<ParamIndex, set<string>>,
                                            n: nat, grouping: bool, grouper: seq<Pauli> -> seq<seq<Pauli>>)
    requires |keys| > 0 && AllBindingsOk(circuit, keys, m, n, grouping, grouper)
    ensures AllBindingsOk(circuit, keys[..|keys| - 1], m, n, grouping, grouper)
    ensures AllVariants(circuit, keys, m, n, grouping, grouper)
      == AllVariants(circuit, keys[..|keys| - 1], m, n, grouping, grouper)
         + BindingVariants(circuit, keys[|keys| - 1], m[keys[|keys| - 1]], n, grouping, grouper)
  {
    var init := keys[..|keys| - 1];
    forall k' | 0 <= k' < |init|
      ensures init[k'] in m && BindingOk(circuit, init[k'], m[init[k']], n, grouping, grouper)
    {
      assert init[k'] == keys[k'];
    }
  }

  /** A key measured by either part is measured by the concatenation. */
  lemma {:induction false} MeasuredByAppend(a: seq<Circuit>, b: seq<Circuit>, key: (ParamIndex, string))
    requires MeasuredBy(a, key) || MeasuredBy(b, key)
    ensures MeasuredBy(a + b, key)
  {
    if MeasuredBy(a, key) {
      var v :| 0 <= v < |a| && a[v].metadata.Measured? && Measures(a[v].metadata, key);
      assert (a + b)[v] == a[v];
    } else {
      var v :| 0 <= v < |b| && b[v].metadata.Measured? && Measures(b[v].metadata, key);
      assert (a + b)[|a| + v] == b[v];
    }
  }

  /** The concatenated variants measure every label of every key. */
  lemma {:induction false} AllVariantsMeasure(circuit: Circuit, keys: seq<ParamIndex>, m: map<ParamIndex, set<string>>,
                                              n: nat, grouping: bool, grouper: seq<Pauli> -> seq<seq<Pauli>>,
                                              k: nat, l: string)
    requires GrouperSound(grouper) && AllBindingsOk(circuit, keys, m, n, grouping, grouper)
    requires k < |keys| && l in m[keys[k]]
    ensures MeasuredBy(AllVariants(circuit, keys, m, n, grouping, grouper), (keys[k], l))
  {
    var init := keys[..|keys| - 1];
    var last := keys[|keys| - 1];
    AllVariantsSplit(circuit, keys, m, n, grouping, grouper);
    var before := AllVariants(circuit, init, m, n, grouping, grouper);
    var here := BindingVariants(circuit, last, m[last], n, grouping, grouper);
    if k == |keys| - 1 {
      BindingMeasuresLabels(circuit, last, m[last], n, grouping, grouper, l);
    } else {
      assert init[k] == keys[k];
      AllVariantsMeasure(circuit, init, m, n, grouping, grouper, k, l);
    }
    MeasuredByAppend(before, here, (keys[k], l));
  }

  /** Every term of every cell of a pub is measured by one of its variants at
      the cell's bindings index: the estimate `_postprocess_pub` looks up exists. */
  lemma {:induction false} PubVariantsMeasureCells(pub: Pub, grouping: bool, grouper: seq<Pauli> -> seq<seq<Pauli>>, i: nat, t: nat)
    requires GrouperSound(grouper) && PubOk(pub, grouping, grouper)
    requires i < |pub.cells| && t < |pub.cells[i].1|
    ensures MeasuredBy(PubVariants(pub, grouping, grouper), (pub.cells[i].0, pub.cells[i].1[t].0))
  {
    var cells := pub.cells;
    var ps := ParamsOf(cells);
    var keys := Keys(ps);
    KeysSpec(ps);
    assert cells[i].0 == ps[i] && ps[i] in ps;
    assert cells[i].0 in keys;
    var k :| 0 <= k < |keys| && keys[k] == cells[i].0;
    var l := cells[i].1[t].0;
    LabelsAtSpec(cells, keys[k], l);
    var m := ObsMap(cells);
    assert l in m[keys[k]];
    AllVariantsMeasure(pub.circuit, keys, m, pub.circuit.numQubits, grouping, grouper, k, l);
  }

  /** Every circuit of cs carries measurement metadata. */
  predicate AllMeasured(cs: seq<Circuit>)
  {
    forall v :: 0 <= v < |cs| ==> cs[v].metadata.Measured?
  }

  lemma {:induction false} AllMeasuredAppend(a: seq<Circuit>, b: seq<Circuit>)
    requires AllMeasured(a) && AllMeasured(b)
    ensures AllMeasured(a + b)
  {
    forall v | 0 <= v < |a + b|
      ensures (a + b)[v].metadata.Measured?
    {
      if v >= |a| {
        assert (a + b)[v] == b[v - |a|];
      }
    }
  }

  /** Every variant carries measurement metadata. */
  lemma {:induction false} AllVariantsMeasured(circuit: Circuit, keys: seq<ParamIndex>, m: map<ParamIndex, set<string>>,
                                               n: nat, grouping: bool, grouper: seq<Pauli> -> seq<seq<Pauli>>)
    requires AllBindingsOk(circuit, keys, m, n, grouping, grouper)
    ensures AllMeasured(AllVariants(circuit, keys, m, n, grouping, grouper))
  {
    if |keys| > 0 {
      var init := keys[..|keys| - 1];
      var last := keys[|keys| - 1];
      AllVariantsSplit(circuit, keys, m, n, grouping, grouper);
      AllVariantsMeasured(circuit, init, m, n, grouping, grouper);
      BindingVariantsMeasured(circuit, last, m[last], n, grouping, grouper);
      AllMeasuredAppend(AllVariants(circuit, init, m, n, grouping, grouper),
                        BindingVariants(circuit, last, m[last], n, grouping, grouper));
    }
  }

  lemma {:induction false} BindingVariantsMeasured(circuit: Circuit, p: ParamIndex, labels: set<string>, n: nat, grouping: bool,
                                grouper: seq<Pauli> -> seq<seq<Pauli>>)
    requires BindingOk(circuit, p, labels, n, grouping, grouper)
    ensures AllMeasured(BindingVariants(circuit, p, labels, n, grouping, grouper))
  {
  }
}
