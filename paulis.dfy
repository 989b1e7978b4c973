/** Pauli strings in symplectic form: per qubit a z bit and an x bit
    (I = neither, Z = z only, X = x only, Y = both) and a label phase
    (-i)^phase. Covers `_paulis2inds`, the union basis of a group and the
    restriction of a member to the measured qubits. */
module Paulis {
  import opened BitMasks
  import opened Errors

  datatype PauliData = PauliData(z: seq<bool>, x: seq<bool>, phase: nat)

  /** A Pauli on |z| qubits; qubit i is column i of z and x. */
  type Pauli = p: PauliData | |p.z| == |p.x| && p.phase < 4 witness PauliData([], [], 0)

  function NumQubits(p: Pauli): nat
  {
    |p.z|
  }

  /** `pauli.z | pauli.x`: the qubits on which p is not the identity. */
  function NonIdentity(p: Pauli): (m: seq<bool>)
    ensures |m| == NumQubits(p)
    ensures forall i :: 0 <= i < |m| ==> (m[i] <==> p.z[i] || p.x[i])
  {
    seq(|p.z|, i requires 0 <= i < |p.z| => p.z[i] || p.x[i])
  }

  /** Every Pauli of a PauliList acts on the same number of qubits. */
  predicate Uniform(ps: seq<Pauli>, n: nat)
  {
    forall k :: 0 <= k < |ps| ==> NumQubits(ps[k]) == n
  }

  // ----- labels -----------------------------------------------------------

  function QubitChar(z: bool, x: bool): char
  {
    if z && x then 'Y' else if z then 'Z' else if x then 'X' else 'I'
  }

  function PhaseText(phase: nat): string
    requires phase < 4
  {
    if phase == 0 then "" else if phase == 1 then "-i" else if phase == 2 then "-" else "i"
  }

  /** `Pauli.to_label()` (also its `str`): the phase prefix, then qubit n-1
      down to qubit 0. */
  function Label(p: Pauli): string
  {
    PhaseText(p.phase) + Letters(p)
  }

  /** The qubit letters of a label, qubit n-1 first. */
  function Letters(p: Pauli): (s: string)
    ensures |s| == NumQubits(p)
    ensures forall k :: 0 <= k < |s| ==> s[k] == QubitChar(p.z[|s| - 1 - k], p.x[|s| - 1 - k])
  {
    var n := NumQubits(p);
    seq(n, k requires 0 <= k < n => QubitChar(p.z[n - 1 - k], p.x[n - 1 - k]))
  }

  predicate IsPauliChar(c: char)
  {
    c == 'I' || c == 'X' || c == 'Y' || c == 'Z'
  }

  function ZOf(c: char): bool { c == 'Z' || c == 'Y' }

  function XOf(c: char): bool { c == 'X' || c == 'Y' }

  lemma {:induction false} LetterRoundTrip(z: bool, x: bool, c: char)
    ensures IsPauliChar(QubitChar(z, x))
    ensures ZOf(QubitChar(z, x)) == z && XOf(QubitChar(z, x)) == x
    ensures IsPauliChar(c) ==> QubitChar(ZOf(c), XOf(c)) == c
  {
  }

  /** The Pauli named by a label over I, X, Y, Z (rightmost character is qubit 0). */
  function FromLabel(s: string): (r: Result<Pauli>)
    ensures r.Ok? <==> forall k :: 0 <= k < |s| ==> IsPauliChar(s[k])
    ensures r.Ok? ==> NumQubits(r.value) == |s| && r.value.phase == 0
    ensures r.Ok? ==> forall i :: 0 <= i < |s| ==> r.value.z[i] == ZOf(s[|s| - 1 - i]) && r.value.x[i] == XOf(s[|s| - 1 - i])
  {
    if forall k :: 0 <= k < |s| ==> IsPauliChar(s[k]) then
      var n := |s|;
      Ok(PauliData(seq(n, i requires 0 <= i < n => ZOf(s[n - 1 - i])),
                   seq(n, i requires 0 <= i < n => XOf(s[n - 1 - i])),
                   0))
    else
      Err(InvalidLabel(s))
  }

  /** A label read as a Pauli prints as the same label. */
  lemma {:induction false} LabelOfFromLabel(s: string)
    requires FromLabel(s).Ok?
    ensures Label(FromLabel(s).value) == s
  {
    var p := FromLabel(s).value;
    var n := |s|;
    assert Label(p) == Letters(p);
    forall k | 0 <= k < n
      ensures Letters(p)[k] == s[k]
    {
      assert p.z[n - 1 - k] == ZOf(s[k]) && p.x[n - 1 - k] == XOf(s[k]);
      LetterRoundTrip(false, false, s[k]);
    }
  }

  /** A phase-free Pauli is recovered from its label. */
  lemma {:induction false} FromLabelOfLabel(p: Pauli)
    requires p.phase == 0
    ensures FromLabel(Label(p)) == Ok(p)
  {
    var s := Label(p);
    var n := NumQubits(p);
    assert s == Letters(p);
    forall k | 0 <= k < n
      ensures IsPauliChar(s[k])
    {
      LetterRoundTrip(p.z[n - 1 - k], p.x[n - 1 - k], ' ');
    }
    var q := FromLabel(s).value;
    forall i | 0 <= i < n
      ensures q.z[i] == p.z[i] && q.x[i] == p.x[i]
    {
      assert s[n - 1 - i] == QubitChar(p.z[i], p.x[i]);
      LetterRoundTrip(p.z[i], p.x[i], ' ');
    }
    assert q.z == p.z && q.x == p.x;
  }

  /** Labels of phase-free Paulis determine the Pauli. */
  lemma {:induction false} LabelInjective(p: Pauli, q: Pauli)
    requires p.phase == 0 && q.phase == 0 && Label(p) == Label(q)
    ensures p == q
  {
    FromLabelOfLabel(p);
    FromLabelOfLabel(q);
  }

  // ----- `_paulis2inds` -----------------------------------------------------

  /** `_paulis2inds`: per Pauli, its non-identity qubits packed into one integer. */
  function PaulisToInds(ps: seq<Pauli>): (r: seq<nat>)
    ensures |r| == |ps|
    ensures forall k :: 0 <= k < |ps| ==> r[k] < Pow2(NumQubits(ps[k]))
  {
    seq(|ps|, k requires 0 <= k < |ps| => PackBits(NonIdentity(ps[k])))
  }

  /** Bit i of the k-th index is set iff Pauli k acts as X, Y or Z on qubit i. */
  lemma {:induction false} PaulisToIndsBit(ps: seq<Pauli>, k: nat, i: nat)
    requires k < |ps|
    ensures Bit(PaulisToInds(ps)[k], i) <==> i < NumQubits(ps[k]) && (ps[k].z[i] || ps[k].x[i])
  {
    PackBitsBit(NonIdentity(ps[k]), i);
  }

  // ----- qubit-wise commutation and the union basis --------------------------

  /** p and q act alike (both X, both Y or both Z) wherever both are non-identity. */
  predicate QubitWiseCommute(p: Pauli, q: Pauli)
    requires NumQubits(p) == NumQubits(q)
  {
    forall i :: 0 <= i < NumQubits(p) && NonIdentity(p)[i] && NonIdentity(q)[i] ==>
      p.z[i] == q.z[i] && p.x[i] == q.x[i]
  }

  /** The output condition of `group_commuting(qubit_wise=True)` for one group. */
  predicate QubitWiseGroup(g: seq<Pauli>, n: nat)
  {
    Uniform(g, n) &&
    forall a, b :: 0 <= a < |g| && 0 <= b < |g| ==> QubitWiseCommute(g[a], g[b])
  }

  /** `np.logical_or.reduce` over rows of width n. */
  function OrReduce(rows: seq<seq<bool>>, n: nat): (r: seq<bool>)
    requires forall k :: 0 <= k < |rows| ==> |rows[k]| == n
    ensures |r| == n
  {
    if |rows| == 0 then seq(n, _ => false)
    else
      var rest := OrReduce(rows[1..], n);
      seq(n, i requires 0 <= i < n => rows[0][i] || rest[i])
  }

  lemma {:induction false} OrReduceAt(rows: seq<seq<bool>>, n: nat, i: nat)
    requires forall k :: 0 <= k < |rows| ==> |rows[k]| == n
    requires i < n
    ensures OrReduce(rows, n)[i] <==> exists k :: 0 <= k < |rows| && rows[k][i]
  {
    if |rows| > 0 {
      OrReduceAt(rows[1..], n, i);
      if OrReduce(rows[1..], n)[i] {
        var k :| 0 <= k < |rows[1..]| && rows[1..][k][i];
        assert rows[k + 1][i];
      }
      if exists k :: 0 <= k < |rows| && rows[k][i] {
        var k :| 0 <= k < |rows| && rows[k][i];
        if k > 0 {
          assert rows[1..][k - 1][i];
        }
      }
    }
  }

  function ZRows(g: seq<Pauli>): seq<seq<bool>>
  {
    seq(|g|, k requires 0 <= k < |g| => g[k].z)
  }

  function XRows(g: seq<Pauli>): seq<seq<bool>>
  {
    seq(|g|, k requires 0 <= k < |g| => g[k].x)
  }

  /** `Pauli((np.logical_or.reduce(obs.z), np.logical_or.reduce(obs.x)))`. */
  function UnionBasis(g: seq<Pauli>, n: nat): (b: Pauli)
    requires Uniform(g, n)
    ensures NumQubits(b) == n && b.phase == 0
  {
    PauliData(OrReduce(ZRows(g), n), OrReduce(XRows(g), n), 0)
  }

  /** The union basis has the z (x) bit of a qubit iff some member has it. */
  lemma {:induction false} UnionBasisAt(g: seq<Pauli>, n: nat, i: nat)
    requires Uniform(g, n) && i < n
    ensures UnionBasis(g, n).z[i] <==> exists k :: 0 <= k < |g| && g[k].z[i]
    ensures UnionBasis(g, n).x[i] <==> exists k :: 0 <= k < |g| && g[k].x[i]
  {
    OrReduceAt(ZRows(g), n, i);
    OrReduceAt(XRows(g), n, i);
    if exists k :: 0 <= k < |g| && g[k].z[i] {
      var k :| 0 <= k < |g| && g[k].z[i];
      assert ZRows(g)[k][i];
    }
    if exists k :: 0 <= k < |g| && g[k].x[i] {
      var k :| 0 <= k < |g| && g[k].x[i];
      assert XRows(g)[k][i];
    }
  }

  /** The union basis is non-identity exactly where some member is. */
  lemma {:induction false} UnionBasisSupport(g: seq<Pauli>, n: nat, i: nat)
    requires Uniform(g, n) && i < n
    ensures NonIdentity(UnionBasis(g, n))[i] <==> exists k :: 0 <= k < |g| && NonIdentity(g[k])[i]
  {
    UnionBasisAt(g, n, i);
    if exists k :: 0 <= k < |g| && NonIdentity(g[k])[i] {
      var k :| 0 <= k < |g| && NonIdentity(g[k])[i];
      assert g[k].z[i] || g[k].x[i];
    }
  }

  /** In a qubit-wise commuting group the union basis agrees with every member
      on that member's non-identity qubits, so one basis change diagonalises
      the whole group. */
  lemma {:induction false} UnionBasisAgreesWithMembers(g: seq<Pauli>, n: nat, k: nat, i: nat)
    requires QubitWiseGroup(g, n) && k < |g| && i < n && NonIdentity(g[k])[i]
    ensures UnionBasis(g, n).z[i] == g[k].z[i] && UnionBasis(g, n).x[i] == g[k].x[i]
  {
    UnionBasisAt(g, n, i);
    assert QubitWiseCommute(g[k], g[k]);
    forall j | 0 <= j < |g| && g[j].z[i]
      ensures g[k].z[i]
    {
      assert QubitWiseCommute(g[k], g[j]);
    }
    forall j | 0 <= j < |g| && g[j].x[i]
      ensures g[k].x[i]
    {
      assert QubitWiseCommute(g[k], g[j]);
    }
  }

  // ----- restriction to the measured qubits ----------------------------------

  /** `PauliList.from_symplectic(obs.z[:, indices], obs.x[:, indices], obs.phase)`
      for one member: column k of the result is qubit indices[k] of p. */
  function Restrict(p: Pauli, indices: seq<nat>): (r: Pauli)
    requires forall k :: 0 <= k < |indices| ==> indices[k] < |p.z|
    ensures NumQubits(r) == |indices| && r.phase == p.phase
    ensures forall k :: 0 <= k < |indices| ==> r.z[k] == p.z[indices[k]] && r.x[k] == p.x[indices[k]]
  {
    PauliData(seq(|indices|, k requires 0 <= k < |indices| => p.z[indices[k]]),
              seq(|indices|, k requires 0 <= k < |indices| => p.x[indices[k]]),
              p.phase)
  }

  function RestrictAll(g: seq<Pauli>, n: nat, indices: seq<nat>): (r: seq<Pauli>)
    requires Uniform(g, n) && forall k :: 0 <= k < |indices| ==> indices[k] < n
    ensures |r| == |g| && Uniform(r, |indices|)
    ensures forall j :: 0 <= j < |g| ==> r[j] == Restrict(g[j], indices)
  {
    seq(|g|, j requires 0 <= j < |g| => Restrict(g[j], indices))
  }
}
