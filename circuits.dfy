/** What the estimator sees of a quantum circuit. Gates of the caller's
    circuit are not modelled; only its width, its classical registers, the
    binding applied to it, the instructions appended to it and its metadata. */
module Circuits {
  import opened Errors
  import opened Paulis
  import opened Collections

  /** A position in a pub's bindings array (a numpy index tuple). */
  type ParamIndex = seq<nat>

  datatype Instr = Sdg(qubit: nat) | H(qubit: nat) | Measure(qubit: nat, clbit: nat)

  datatype Register = Register(name: string, size: nat)

  /** The metadata of a measurement variant: `orig_paulis`, `meas_paulis`,
      `param_index`; NoMeta stands for any other (or cleared) metadata. */
  datatype Meta = NoMeta | Measured(origPaulis: seq<Pauli>, measPaulis: seq<Pauli>, paramIndex: ParamIndex)

  datatype Circuit = Circuit(
    numQubits: nat,
    cregs: seq<Register>,
    binding: Option<ParamIndex>,
    appended: seq<Instr>,
    metadata: Meta)

  /** The variant with this metadata measured a Pauli with this label under
      this bindings index (`key` is the pair `_calc_expval_map` files it under). */
  predicate Measures(meta: Meta, key: (ParamIndex, string))
    requires meta.Measured?
  {
    exists k :: 0 <= k < Min(|meta.origPaulis|, |meta.measPaulis|) && key == (meta.paramIndex, Label(meta.origPaulis[k]))
  }

  /** The measurement circuit of one basis: its classical register and its instructions. */
  datatype MeasCircuit = MeasCircuit(numQubits: nat, register: Register, instrs: seq<Instr>)

  /** `parameter_values.bind(circuit, param_index)`. */
  function Bind(c: Circuit, p: ParamIndex): Circuit
  {
    c.(binding := Some(p))
  }

  /** `circuit.copy()`, `add_register(clbits)`, `compose(meas_circuit)`, and the
      metadata of the measurement circuit. */
  function Compose(c: Circuit, m: MeasCircuit, meta: Meta): Circuit
  {
    c.(cregs := c.cregs + [m.register], appended := c.appended + m.instrs, metadata := meta)
  }
}
