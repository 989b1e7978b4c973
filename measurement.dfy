/** `_measurement_circuit` and `_create_measurement_circuits`: which qubits a
    basis measures, the basis change before each measurement, and one
    measurement variant of the caller's circuit per group of Paulis. */
module Measurement {
  import opened Errors
  import opened BitMasks
  import opened Paulis
  import opened Circuits

  /** `np.arange(len(bits))[bits]`: the set positions, in increasing order. */
  function Indices(bits: seq<bool>): seq<nat>
  {
    if |bits| == 0 then []
    else Indices(bits[..|bits| - 1]) + (if bits[|bits| - 1] then [|bits| - 1] else [])
  }

  /** The indices are exactly the set positions, strictly increasing. */
  lemma {:induction false} IndicesSpec(bits: seq<bool>)
    ensures var r := Indices(bits);
      (forall k :: 0 <= k < |r| ==> r[k] < |bits| && bits[r[k]]) &&
      (forall i :: 0 <= i < |bits| && bits[i] ==> i in r) &&
      (forall a, b :: 0 <= a < b < |r| ==> r[a] < r[b])
  {
    if |bits| > 0 {
      var init := bits[..|bits| - 1];
      IndicesSpec(init);
      var r := Indices(bits);
      forall k | 0 <= k < |Indices(init)|
        ensures Indices(init)[k] < |init| && bits[Indices(init)[k]]
      {
        assert init[Indices(init)[k]] == bits[Indices(init)[k]];
      }
      forall i | 0 <= i < |bits| && bits[i]
        ensures i in r
      {
        if i < |bits| - 1 {
          assert init[i];
        }
      }
    }
  }

  /** No set position, no index. */
  lemma {:induction false} IndicesNone(bits: seq<bool>)
    requires forall i :: 0 <= i < |bits| ==> !bits[i]
    ensures Indices(bits) == []
  {
    if |bits| > 0 {
      IndicesNone(bits[..|bits| - 1]);
    }
  }

  /** `np.any(s)`. */
  predicate AnyNonZero(s: seq<nat>)
  {
    exists k :: 0 <= k < |s| && s[k] != 0
  }

  /** The qubits measured for basis p: `qubit_indices`, replaced by [0] when
      `not np.any(qubit_indices)`. */
  function MeasuredQubits(p: Pauli): seq<nat>
  {
    var ind := Indices(NonIdentity(p));
    if !AnyNonZero(ind) then [0] else ind
  }

  /** The measured qubits are the non-identity qubits of p in increasing order;
      an all-identity p measures qubit 0. (`np.any` is also false for the
      list [0], but replacing [0] by [0] changes nothing.) */
  lemma {:induction false} MeasuredQubitsSpec(p: Pauli)
    ensures var r := MeasuredQubits(p);
      |r| >= 1 &&
      (forall a, b :: 0 <= a < b < |r| ==> r[a] < r[b]) &&
      ((forall i :: 0 <= i < NumQubits(p) ==> !NonIdentity(p)[i]) ==> r == [0]) &&
      ((exists i :: 0 <= i < NumQubits(p) && NonIdentity(p)[i]) ==>
         forall q: nat :: q in r <==> q < NumQubits(p) && NonIdentity(p)[q])
  {
    var nb := NonIdentity(p);
    var ind := Indices(nb);
    IndicesSpec(nb);
    if exists i :: 0 <= i < |nb| && nb[i] {
      var i :| 0 <= i < |nb| && nb[i];
      assert i in ind;
      if !AnyNonZero(ind) {
        // every set position is in `ind`, and every entry of `ind` is 0
        assert forall q :: q in ind ==> q == 0;
        assert i == 0;
      } else {
        assert MeasuredQubits(p) == ind;
      }
    } else {
      IndicesNone(nb);
      assert MeasuredQubits(p) == [0];
    }
  }

  /** The measured qubits of a basis are within range of the basis and the circuit. */
  predicate PlanOk(numQubits: nat, p: Pauli)
  {
    var ind := MeasuredQubits(p);
    forall k :: 0 <= k < |ind| ==> ind[k] < numQubits && ind[k] < NumQubits(p)
  }

  /** The instructions for measuring qubit q into classical bit c. */
  function GatesAt(p: Pauli, q: nat, c: nat): seq<Instr>
    requires q < NumQubits(p)
  {
    (if p.x[q] then (if p.z[q] then [Sdg(q)] else []) + [H(q)] else []) + [Measure(q, c)]
  }

  /** The instructions of the measurement circuit, qubit by qubit in the order of `ind`. */
  function BasisChange(p: Pauli, ind: seq<nat>): seq<Instr>
    requires forall k :: 0 <= k < |ind| ==> ind[k] < NumQubits(p)
  {
    if |ind| == 0 then []
    else BasisChange(p, ind[..|ind| - 1]) + GatesAt(p, ind[|ind| - 1], |ind| - 1)
  }

  /** With distinct qubits in `ind`, classical bit c measures qubit ind[c],
      `sdg` is applied exactly to measured Y qubits and `h` exactly to
      measured X or Y qubits; Z and identity qubits get no gate. */
  lemma {:induction false} BasisChangeGates(p: Pauli, ind: seq<nat>, q: nat, c: nat)
    requires forall k :: 0 <= k < |ind| ==> ind[k] < NumQubits(p)
    ensures Measure(q, c) in BasisChange(p, ind) <==> c < |ind| && ind[c] == q
    ensures Sdg(q) in BasisChange(p, ind) <==> q in ind && p.x[q] && p.z[q]
    ensures H(q) in BasisChange(p, ind) <==> q in ind && p.x[q]
  {
    if |ind| > 0 {
      var init := ind[..|ind| - 1];
      BasisChangeGates(p, init, q, c);
      assert ind == init + [ind[|ind| - 1]];
      assert q in ind <==> q in init || q == ind[|ind| - 1];
    }
  }

  /** `f"__c_{pauli}"`, the name of the measurement register. */
  function CregName(p: Pauli): string
  {
    "__c_" + Label(p)
  }

  /** What `_measurement_circuit` returns for a basis whose qubits are in range. */
  function MeasurementPlan(numQubits: nat, p: Pauli): (MeasCircuit, seq<nat>)
    requires PlanOk(numQubits, p)
  {
    var ind := MeasuredQubits(p);
    (MeasCircuit(numQubits, Register(CregName(p), |ind|), BasisChange(p, ind)), ind)
  }

  /** `_measurement_circuit`. Touching a qubit past the end of the Pauli or of
      the circuit is an error. */
  method MeasurementCircuit(numQubits: nat, p: Pauli) returns (r: Result<(MeasCircuit, seq<nat>)>)
    ensures r.Ok? <==> PlanOk(numQubits, p)
    ensures r.Ok? ==> r.value == MeasurementPlan(numQubits, p)
    ensures r.Err? ==> r.error.QubitOutOfRange?
  {
    var qubitIndices := MeasuredQubits(p);
    var instrs: seq<Instr> := [];
    for clbit := 0 to |qubitIndices|
      invariant forall k :: 0 <= k < clbit ==> qubitIndices[k] < numQubits && qubitIndices[k] < NumQubits(p)
      invariant instrs == BasisChange(p, qubitIndices[..clbit])
    {
      var i := qubitIndices[clbit];
      if i >= NumQubits(p) || i >= numQubits {
        assert !PlanOk(numQubits, p) by {
          assert qubitIndices[clbit] == i;
        }
        return Err(QubitOutOfRange(i));
      }
      ghost var before := instrs;
      if p.x[i] {
        if p.z[i] {
          instrs := instrs + [Sdg(i)];
        }
        instrs := instrs + [H(i)];
      }
      instrs := instrs + [Measure(i, clbit)];
      assert instrs == before + GatesAt(p, i, clbit);
      BasisChangeSnoc(p, qubitIndices, clbit);
    }
    assert qubitIndices[..|qubitIndices|] == qubitIndices;
    r := Ok((MeasCircuit(numQubits, Register(CregName(p), |qubitIndices|), instrs), qubitIndices));
  }

  lemma {:induction false} BasisChangeSnoc(p: Pauli, ind: seq<nat>, c: nat)
    requires c < |ind| && forall k :: 0 <= k <= c ==> ind[k] < NumQubits(p)
    ensures BasisChange(p, ind[..c + 1]) == BasisChange(p, ind[..c]) + GatesAt(p, ind[c], c)
  {
    assert ind[..c + 1][..c] == ind[..c];
  }

  // ----- the measurement variants of one binding ------------------------------------

  /** The groups measured together: those of `group_commuting` with grouping,
      otherwise one singleton per Pauli. */
  function MeasurementGroups(observable: seq<Pauli>, grouping: bool, groups: seq<seq<Pauli>>): (gs: seq<seq<Pauli>>)
    ensures grouping ==> gs == groups
    ensures !grouping ==> |gs| == |observable| && forall j :: 0 <= j < |gs| ==> gs[j] == [observable[j]]
  {
    if grouping then groups else seq(|observable|, j requires 0 <= j < |observable| => [observable[j]])
  }

  /** The basis of a group: the union basis with grouping, otherwise the Pauli itself. */
  function GroupBasis(g: seq<Pauli>, n: nat, grouping: bool): (b: Pauli)
    requires Uniform(g, n) && (!grouping ==> |g| == 1)
    ensures NumQubits(b) == n
  {
    if grouping then UnionBasis(g, n) else g[0]
  }

  /** The measurement circuit of group g in basis b, with its metadata. */
  function MeasEntry(numQubits: nat, g: seq<Pauli>, n: nat, b: Pauli, paramIndex: ParamIndex): (MeasCircuit, Meta)
    requires Uniform(g, n) && NumQubits(b) == n && PlanOk(numQubits, b)
  {
    var (mc, ind) := MeasurementPlan(numQubits, b);
    (mc, Measured(g, RestrictAll(g, n, ind), paramIndex))
  }

  /** The variant of `circuit` that measures group g in basis b. */
  function MeasuredVariant(circuit: Circuit, g: seq<Pauli>, n: nat, b: Pauli, paramIndex: ParamIndex): Circuit
    requires Uniform(g, n) && NumQubits(b) == n && PlanOk(circuit.numQubits, b)
  {
    var (mc, meta) := MeasEntry(circuit.numQubits, g, n, b, paramIndex);
    Compose(circuit, mc, meta)
  }

  predicate RegisterTaken(cregs: seq<Register>, name: string)
  {
    exists i :: 0 <= i < |cregs| && cregs[i].name == name
  }

  /** Everything needed to measure group j can be built. */
  predicate GroupOk(circuit: Circuit, gs: seq<seq<Pauli>>, n: nat, grouping: bool, j: nat)
    requires j < |gs| && Uniform(gs[j], n) && (!grouping ==> |gs[j]| == 1)
  {
    var b := GroupBasis(gs[j], n, grouping);
    PlanOk(circuit.numQubits, b) && !RegisterTaken(circuit.cregs, CregName(b))
  }

  /** `_create_measurement_circuits` for a circuit already bound to `paramIndex`;
      `groups` is what `observable.group_commuting(qubit_wise=True)` returns. */
  method CreateMeasurementCircuits(circuit: Circuit, observable: seq<Pauli>, n: nat, paramIndex: ParamIndex,
                                   grouping: bool, groups: seq<seq<Pauli>>)
    returns (r: Result<seq<Circuit>>)
    requires Uniform(observable, n)
    requires forall j :: 0 <= j < |groups| ==> Uniform(groups[j], n)
    ensures var gs := MeasurementGroups(observable, grouping, groups);
      r.Ok? <==> forall j :: 0 <= j < |gs| ==> GroupOk(circuit, gs, n, grouping, j)
    ensures var gs := MeasurementGroups(observable, grouping, groups);
      r.Ok? ==> |r.value| == |gs| && forall j :: 0 <= j < |gs| ==>
        GroupOk(circuit, gs, n, grouping, j) &&
        r.value[j] == MeasuredVariant(circuit, gs[j], n, GroupBasis(gs[j], n, grouping), paramIndex)
    ensures r.Err? ==> r.error.QubitOutOfRange? || r.error.RegisterConflict?
  {
    var gs := MeasurementGroups(observable, grouping, groups);
    var built := BuildMeasCircuits(circuit.numQubits, gs, n, paramIndex, grouping);
    if built.Err? {
      var j :| 0 <= j < |gs| && !PlanOk(circuit.numQubits, GroupBasis(gs[j], n, grouping));
      assert !GroupOk(circuit, gs, n, grouping, j);
      return Err(built.error);
    }
    var measCircuits := built.value;
    // The single-qubit optimisation pass would run here.
    r := CombineCircuits(circuit, measCircuits);
    forall j | 0 <= j < |gs|
      ensures measCircuits[j].0.register.name == CregName(GroupBasis(gs[j], n, grouping))
      ensures MeasuredVariant(circuit, gs[j], n, GroupBasis(gs[j], n, grouping), paramIndex)
        == Compose(circuit, measCircuits[j].0, measCircuits[j].1)
    {
      MeasEntryParts(circuit, gs[j], n, GroupBasis(gs[j], n, grouping), paramIndex);
    }
    if r.Err? {
      var t :| 0 <= t < |measCircuits| && RegisterTaken(circuit.cregs, measCircuits[t].0.register.name);
      assert !GroupOk(circuit, gs, n, grouping, t);
    }
  }

  lemma {:induction false} MeasEntryParts(circuit: Circuit, g: seq<Pauli>, n: nat, b: Pauli, paramIndex: ParamIndex)
    requires Uniform(g, n) && NumQubits(b) == n && PlanOk(circuit.numQubits, b)
    ensures MeasEntry(circuit.numQubits, g, n, b, paramIndex).0.register.name == CregName(b)
    ensures MeasuredVariant(circuit, g, n, b, paramIndex)
      == Compose(circuit, MeasEntry(circuit.numQubits, g, n, b, paramIndex).0, MeasEntry(circuit.numQubits, g, n, b, paramIndex).1)
  {
  }

  /** The second loop of `_create_measurement_circuits`: refuse a measurement
      register whose name the circuit already uses, otherwise append each
      measurement circuit to a copy of the circuit. */
  method CombineCircuits(circuit: Circuit, measCircuits: seq<(MeasCircuit, Meta)>) returns (r: Result<seq<Circuit>>)
    ensures r.Ok? <==> forall t :: 0 <= t < |measCircuits| ==> !RegisterTaken(circuit.cregs, measCircuits[t].0.register.name)
    ensures r.Ok? ==> |r.value| == |measCircuits| && forall t :: 0 <= t < |measCircuits| ==>
      r.value[t] == Compose(circuit, measCircuits[t].0, measCircuits[t].1)
    ensures r.Err? ==> r.error.RegisterConflict?
    ensures r.Err? ==> exists t :: 0 <= t < |measCircuits| && RegisterTaken(circuit.cregs, measCircuits[t].0.register.name)
  {
    var preprocessed: seq<Circuit> := [];
    for j := 0 to |measCircuits|
      invariant |preprocessed| == j
      invariant forall t :: 0 <= t < j ==>
        !RegisterTaken(circuit.cregs, measCircuits[t].0.register.name) &&
        preprocessed[t] == Compose(circuit, measCircuits[t].0, measCircuits[t].1)
    {
      var clbits := measCircuits[j].0.register;
      for i := 0 to |circuit.cregs|
        invariant forall i' :: 0 <= i' < i ==> circuit.cregs[i'].name != clbits.name
      {
        if clbits.name == circuit.cregs[i].name {
          return Err(RegisterConflict(clbits.name));
        }
      }
      preprocessed := preprocessed + [Compose(circuit, measCircuits[j].0, measCircuits[j].1)];
    }
    r := Ok(preprocessed);
  }

  /** The first loop of `_create_measurement_circuits`: one measurement circuit
      and its metadata per group. */
  method BuildMeasCircuits(numQubits: nat, gs: seq<seq<Pauli>>, n: nat, paramIndex: ParamIndex, grouping: bool)
    returns (r: Result<seq<(MeasCircuit, Meta)>>)
    requires forall j :: 0 <= j < |gs| ==> Uniform(gs[j], n) && (!grouping ==> |gs[j]| == 1)
    ensures r.Ok? <==> forall j :: 0 <= j < |gs| ==> PlanOk(numQubits, GroupBasis(gs[j], n, grouping))
    ensures r.Ok? ==> |r.value| == |gs| && forall j :: 0 <= j < |gs| ==>
      PlanOk(numQubits, GroupBasis(gs[j], n, grouping)) &&
      r.value[j] == MeasEntry(numQubits, gs[j], n, GroupBasis(gs[j], n, grouping), paramIndex)
    ensures r.Err? ==> r.error.QubitOutOfRange?
  {
    var measCircuits: seq<(MeasCircuit, Meta)> := [];
    for j := 0 to |gs|
      invariant |measCircuits| == j
      invariant forall t :: 0 <= t < j ==>
        PlanOk(numQubits, GroupBasis(gs[t], n, grouping)) &&
        measCircuits[t] == MeasEntry(numQubits, gs[t], n, GroupBasis(gs[t], n, grouping), paramIndex)
    {
      var basis := GroupBasis(gs[j], n, grouping);
      var mc := MeasurementCircuit(numQubits, basis);
      if mc.Err? {
        return Err(mc.error);
      }
      var (measCircuit, indices) := mc.value;
      var paulis := RestrictAll(gs[j], n, indices);
      measCircuits := measCircuits + [(measCircuit, Measured(gs[j], paulis, paramIndex))];
    }
    r := Ok(measCircuits);
  }

  // ----- what a variant measures --------------------------------------------------

  /** The basis agrees with every member on that member's non-identity qubits. */
  predicate Covers(b: Pauli, g: seq<Pauli>, n: nat)
    requires Uniform(g, n) && NumQubits(b) == n
  {
    forall k, i :: 0 <= k < |g| && 0 <= i < n && NonIdentity(g[k])[i] ==>
      b.z[i] == g[k].z[i] && b.x[i] == g[k].x[i]
  }

  /** Both ways of choosing a basis cover their group: the union basis of a
      qubit-wise commuting group, and a Pauli measured on its own. */
  lemma {:induction false} GroupBasisCovers(g: seq<Pauli>, n: nat, grouping: bool)
    requires Uniform(g, n) && (!grouping ==> |g| == 1)
    requires grouping ==> QubitWiseGroup(g, n)
    ensures Covers(GroupBasis(g, n, grouping), g, n)
  {
    if grouping {
      forall k, i | 0 <= k < |g| && 0 <= i < n && NonIdentity(g[k])[i]
        ensures UnionBasis(g, n).z[i] == g[k].z[i] && UnionBasis(g, n).x[i] == g[k].x[i]
      {
        UnionBasisAgreesWithMembers(g, n, k, i);
      }
    }
  }

  /** In a variant with a covering basis, each member's `meas_paulis` entry has
      bit c of its packed mask set iff the member is non-identity on the qubit
      that classical bit c measures; every non-identity qubit of the member is
      measured; the phase is kept; and on every qubit the member needs, the
      basis change applied is the member's own (Y: sdg and h, X: h, Z: none). */
  lemma {:induction false} VariantMeasuresMembers(circuit: Circuit, g: seq<Pauli>, n: nat, b: Pauli, paramIndex: ParamIndex,
                               k: nat, c: nat, q: nat)
    requires Uniform(g, n) && NumQubits(b) == n && PlanOk(circuit.numQubits, b)
    requires Covers(b, g, n) && k < |g|
    ensures var v := MeasuredVariant(circuit, g, n, b, paramIndex);
      var ind := MeasuredQubits(b);
      v.metadata.Measured? && v.metadata.origPaulis == g && v.metadata.paramIndex == paramIndex &&
      |v.metadata.measPaulis| == |g| &&
      v.metadata.measPaulis[k].phase == g[k].phase &&
      (c < |ind| ==> (Bit(PaulisToInds(v.metadata.measPaulis)[k], c) <==> NonIdentity(g[k])[ind[c]])) &&
      (q < n && NonIdentity(g[k])[q] ==>
         q in ind &&
         (Sdg(q) in v.appended[|circuit.appended|..] <==> g[k].x[q] && g[k].z[q]) &&
         (H(q) in v.appended[|circuit.appended|..] <==> g[k].x[q]))
  {
    var v := MeasuredVariant(circuit, g, n, b, paramIndex);
    var ind := MeasuredQubits(b);
    var meas := v.metadata.measPaulis;
    assert meas[k] == Restrict(g[k], ind);
    PaulisToIndsBit(meas, k, c);
    if q < n && NonIdentity(g[k])[q] {
      assert NonIdentity(b)[q];
      MeasuredQubitsSpec(b);
      assert v.appended[|circuit.appended|..] == BasisChange(b, ind);
      BasisChangeGates(b, ind, q, 0);
    }
  }
}
