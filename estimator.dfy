/** `_pauli_expval_with_variance`: per-Pauli expectation values and variances
    from one counts histogram, by the parity of mask-and-outcome. */
module Estimator {
  import opened Errors
  import opened BitMasks
  import opened Paulis

  /** A counts histogram: (outcome key, frequency) pairs in the dict's order. */
  type Counts = seq<(string, nat)>

  /** `key.split(" ", 1)[0] if " " in key else key`: the key up to its first space. */
  function FirstWord(key: string): (w: string)
    ensures |w| <= |key| && w == key[..|w|]
    ensures forall k :: 0 <= k < |w| ==> w[k] != ' '
    ensures |w| < |key| ==> key[|w|] == ' '
  {
    if |key| == 0 || key[0] == ' ' then "" else [key[0]] + FirstWord(key[1..])
  }

  /** `int(FirstWord(key), 2)`. */
  function ParseOutcome(key: string): Result<nat>
  {
    ParseBinary(FirstWord(key))
  }

  /** Only the register before the first space is read. */
  lemma {:induction false} ParseOutcomeFirstRegister(n: nat, rest: string)
    ensures ParseOutcome(BinDigits(n) + " " + rest) == Ok(n)
    ensures ParseOutcome(BinDigits(n)) == Ok(n)
  {
    var d := BinDigits(n);
    WordBeforeSpace(d, rest);
    assert d + "" == d;
    WordBeforeSpace(d, "");
    ParseBinDigits(n);
  }

  lemma {:induction false} WordBeforeSpace(w: string, rest: string)
    requires forall k :: 0 <= k < |w| ==> w[k] != ' '
    ensures FirstWord(w + " " + rest) == w
    ensures rest == "" ==> FirstWord(w) == w
  {
    if |w| > 0 {
      assert (w + " " + rest)[1..] == w[1..] + " " + rest;
      WordBeforeSpace(w[1..], rest);
      if rest == "" {
        assert [w[0]] + w[1..] == w;
      }
      assert [w[0]] + w[1..] == w;
    }
  }

  predicate AllParse(c: Counts)
  {
    forall i :: 0 <= i < |c| ==> ParseOutcome(c[i].0).Ok?
  }

  /** The total number of shots: the sum of the frequencies. */
  function Total(c: Counts): nat
  {
    if |c| == 0 then 0 else Total(c[..|c| - 1]) + c[|c| - 1].1
  }

  /** Python's `(-1) ** e`. */
  function MinusOnePow(e: nat): int
  {
    if e == 0 then 1 else -MinusOnePow(e - 1)
  }

  /** The eigenvalue of the diagonal Pauli with this mask on this outcome. */
  function Sign(mask: nat, outcome: nat): int
  {
    MinusOnePow(Parity(And(mask, outcome)))
  }

  /** The sum over the histogram of frequency times sign. */
  function SignedSum(c: Counts, mask: nat): int
    requires AllParse(c)
  {
    if |c| == 0 then 0
    else
      var last := c[|c| - 1];
      SignedSum(c[..|c| - 1], mask) + last.1 * Sign(mask, ParseOutcome(last.0).value)
  }

  /** The estimated expectation value of the Pauli whose packed mask is `mask`. */
  function Expval(c: Counts, mask: nat): real
    requires AllParse(c) && Total(c) > 0
  {
    SignedSum(c, mask) as real / Total(c) as real
  }

  lemma {:induction false} SignedSumStep(c: Counts, i: nat, mask: nat)
    requires i < |c| && AllParse(c[..i]) && ParseOutcome(c[i].0).Ok?
    ensures AllParse(c[..i + 1]) && Total(c[..i + 1]) == Total(c[..i]) + c[i].1
    ensures SignedSum(c[..i + 1], mask) == SignedSum(c[..i], mask) + c[i].1 * Sign(mask, ParseOutcome(c[i].0).value)
  {
    var d := c[..i + 1];
    assert d[..i] == c[..i];
    assert forall k :: 0 <= k < i ==> d[k] == c[..i][k];
  }

  /** The inner loop of `_pauli_expval_with_variance`: one outcome's signed
      frequency added to every Pauli's running sum. */
  method AddOutcome(expvals: array<real>, diagInds: seq<nat>, freq: nat, outcome: nat)
    requires expvals.Length == |diagInds|
    modifies expvals
    ensures forall k :: 0 <= k < |diagInds| ==>
      expvals[k] == old(expvals[k]) + (freq * Sign(diagInds[k], outcome)) as real
  {
    for k := 0 to |diagInds|
      invariant forall k' :: 0 <= k' < k ==>
        expvals[k'] == old(expvals[k']) + (freq * Sign(diagInds[k'], outcome)) as real
      invariant forall k' :: k <= k' < |diagInds| ==> expvals[k'] == old(expvals[k'])
    {
      var coeff := MinusOnePow(Parity(And(diagInds[k], outcome)));
      expvals[k] := expvals[k] + (freq * coeff) as real;
    }
  }

  /** `expvals /= denom`. */
  method DivideAll(a: array<real>, d: real)
    requires d != 0.0
    modifies a
    ensures forall k :: 0 <= k < a.Length ==> a[k] == old(a[k]) / d
  {
    for k := 0 to a.Length
      invariant forall k' :: 0 <= k' < k ==> a[k'] == old(a[k']) / d
      invariant forall k' :: k <= k' < a.Length ==> a[k'] == old(a[k'])
    {
      a[k] := a[k] / d;
    }
  }

  /** `1 - expvals**2`. */
  method VariancesOf(e: array<real>) returns (v: array<real>)
    ensures fresh(v) && v.Length == e.Length
    ensures forall k :: 0 <= k < e.Length ==> v[k] == 1.0 - e[k] * e[k]
  {
    v := new real[e.Length];
    for k := 0 to e.Length
      invariant forall k' :: 0 <= k' < k ==> v[k'] == 1.0 - e[k'] * e[k']
    {
      v[k] := 1.0 - e[k] * e[k];
    }
  }

  /** The loop over `counts.items()` of `_pauli_expval_with_variance`: the
      signed sums of every Pauli and the total, or the first key that does not parse. */
  method SumOutcomes(counts: Counts, diagInds: seq<nat>, expvals: array<real>) returns (r: Result<nat>)
    requires expvals.Length == |diagInds| && forall k :: 0 <= k < |diagInds| ==> expvals[k] == 0.0
    modifies expvals
    ensures r.Ok? <==> AllParse(counts)
    ensures r.Err? ==> exists i :: 0 <= i < |counts| && AllParse(counts[..i]) && ParseOutcome(counts[i].0) == Err(r.error)
    ensures r.Ok? ==> r.value == Total(counts)
    ensures r.Ok? ==>
      forall k :: 0 <= k < |diagInds| ==> expvals[k] == SignedSum(counts, diagInds[k]) as real
  {
    var denom: nat := 0;
    var j := 0;
    while j < |counts|
      invariant 0 <= j <= |counts|
      invariant AllParse(counts[..j])
      invariant denom == Total(counts[..j])
      invariant forall k :: 0 <= k < |diagInds| ==> expvals[k] == SignedSum(counts[..j], diagInds[k]) as real
    {
      var key := counts[j].0;
      var freq := counts[j].1;
      var outcome := ParseOutcome(key);
      if outcome.Err? {
        return Err(outcome.error);
      }
      SignedSumStep(counts, j, 0);
      denom := denom + freq;
      AddOutcome(expvals, diagInds, freq, outcome.value);
      forall k | 0 <= k < |diagInds|
        ensures expvals[k] == SignedSum(counts[..j + 1], diagInds[k]) as real
      {
        SignedSumStep(counts, j, diagInds[k]);
      }
      j := j + 1;
    }
    assert counts[..j] == counts;
    r := Ok(denom);
  }

  method PauliExpvalWithVariance(counts: Counts, paulis: seq<Pauli>) returns (r: Result<(seq<real>, seq<real>)>)
    requires Total(counts) > 0
    ensures r.Ok? <==> AllParse(counts)
    ensures r.Err? ==> exists i :: 0 <= i < |counts| && AllParse(counts[..i]) && ParseOutcome(counts[i].0) == Err(r.error)
    ensures r.Ok? ==>
      var inds := PaulisToInds(paulis);
      |r.value.0| == |paulis| && |r.value.1| == |paulis| &&
      forall k :: 0 <= k < |paulis| ==>
        r.value.0[k] == Expval(counts, inds[k]) && r.value.1[k] == 1.0 - r.value.0[k] * r.value.0[k]
  {
    var size := |paulis|;
    var diagInds := PaulisToInds(paulis);
    var expvals := new real[size](_ => 0.0);
    var denom := SumOutcomes(counts, diagInds, expvals);
    if denom.Err? {
      return Err(denom.error);
    }
    DivideAll(expvals, denom.value as real);
    var variances := VariancesOf(expvals);
    r := Ok((expvals[..], variances[..]));
  }

  // ----- what the estimate means ------------------------------------------------

  lemma {:induction false} MinusOnePowParity(n: nat)
    ensures MinusOnePow(Parity(n)) == if PopCount(n) % 2 == 0 then 1 else -1
  {
    ParityIsPopCountMod2(n);
  }

  /** Each sign is +1 or -1. */
  lemma {:induction false} SignIsUnit(mask: nat, outcome: nat)
    ensures Sign(mask, outcome) == 1 || Sign(mask, outcome) == -1
  {
    MinusOnePowParity(And(mask, outcome));
  }

  /** The product over the masked positions of the measured Z eigenvalues
      (+1 for outcome bit 0, -1 for outcome bit 1). */
  function ZProduct(m: seq<bool>, outcome: nat): int
  {
    if |m| == 0 then 1
    else if m[0] && outcome % 2 == 1 then -ZProduct(m[1..], outcome / 2)
    else ZProduct(m[1..], outcome / 2)
  }

  lemma {:induction false} AndStep(a: nat, b: nat)
    ensures And(a, b) % 2 == (if a % 2 == 1 && b % 2 == 1 then 1 else 0)
    ensures And(a, b) / 2 == And(a / 2, b / 2)
  {
    if a == 0 || b == 0 {
      assert And(a / 2, b / 2) == 0;
    } else {
      var bit: nat := if a % 2 == 1 && b % 2 == 1 then 1 else 0;
      assert And(a, b) == bit + 2 * And(a / 2, b / 2);
    }
  }

  lemma {:induction false} PopCountOfPackedAnd(m: seq<bool>, outcome: nat)
    ensures (if PopCount(And(PackBits(m), outcome)) % 2 == 0 then 1 else -1) == ZProduct(m, outcome)
  {
    if |m| > 0 {
      var a := PackBits(m);
      AndStep(a, outcome);
      var x := And(a, outcome);
      var rest := PopCount(And(PackBits(m[1..]), outcome / 2));
      assert PopCount(x) == x % 2 + rest;
      PopCountOfPackedAnd(m[1..], outcome / 2);
      ParityStep(x % 2, rest);
    }
  }

  lemma {:induction false} ParityStep(bit: nat, rest: nat)
    requires bit < 2
    ensures ((bit + rest) % 2 == 0) <==> (if bit == 1 then rest % 2 == 1 else rest % 2 == 0)
  {
  }

  /** The parity trick is sound: the sign read off the packed mask is the
      product of the Z eigenvalues of the outcome on the masked bits. */
  lemma {:induction false} SignIsZProduct(m: seq<bool>, outcome: nat)
    ensures Sign(PackBits(m), outcome) == ZProduct(m, outcome)
  {
    MinusOnePowParity(And(PackBits(m), outcome));
    PopCountOfPackedAnd(m, outcome);
  }

  lemma {:induction false} SignedSumBound(c: Counts, mask: nat)
    requires AllParse(c)
    ensures -(Total(c) as int) <= SignedSum(c, mask) <= Total(c)
  {
    if |c| > 0 {
      var init := c[..|c| - 1];
      assert AllParse(init) by {
        forall i | 0 <= i < |init| ensures ParseOutcome(init[i].0).Ok? {
          assert init[i] == c[i];
        }
      }
      SignedSumBound(init, mask);
      SignIsUnit(mask, ParseOutcome(c[|c| - 1].0).value);
    }
  }

  /** Every estimated expectation value lies in [-1, 1]. */
  lemma {:induction false} ExpvalBounds(c: Counts, mask: nat)
    requires AllParse(c) && Total(c) > 0
    ensures -1.0 <= Expval(c, mask) <= 1.0
  {
    SignedSumBound(c, mask);
    DivBounds(SignedSum(c, mask) as real, Total(c) as real);
  }

  lemma {:induction false} DivBounds(s: real, t: real)
    requires t > 0.0 && -t <= s <= t
    ensures -1.0 <= s / t <= 1.0
  {
    var e := s / t;
    assert e * t == s;
    assert (e - 1.0) * t <= 0.0;
    assert (e + 1.0) * t >= 0.0;
  }

  /** Hence every variance 1 - e^2 lies in [0, 1]. */
  lemma {:induction false} VarianceBounds(c: Counts, mask: nat)
    requires AllParse(c) && Total(c) > 0
    ensures 0.0 <= 1.0 - Expval(c, mask) * Expval(c, mask) <= 1.0
  {
    ExpvalBounds(c, mask);
    var e := Expval(c, mask);
    if e >= 0.0 {
      assert e * e <= 1.0 * e;
    } else {
      assert e * e <= (-1.0) * e;
    }
  }

  /** A single Z measured on {"0": 700, "1": 300}: expectation 0.4, variance 0.84. */
  lemma {:induction false} SingleQubitExample()
    ensures var c: Counts := [("0", 700), ("1", 300)];
            var z: Pauli := PauliData([true], [false], 0);
            AllParse(c) && Total(c) == 1000 &&
            Expval(c, PaulisToInds([z])[0]) == 0.4 &&
            1.0 - Expval(c, PaulisToInds([z])[0]) * Expval(c, PaulisToInds([z])[0]) == 0.84
  {
    var c: Counts := [("0", 700), ("1", 300)];
    var z: Pauli := PauliData([true], [false], 0);
    assert FirstWord("0") == "0" && FirstWord("1") == "1" by {
      assert "0"[1..] == "" && "1"[1..] == "";
    }
    assert ParseOutcome("0") == Ok(0) && ParseOutcome("1") == Ok(1);
    assert c[..1] == [("0", 700)] && c[..1][..0] == [];
    var mask := PaulisToInds([z])[0];
    assert mask == 1 by {
      assert NonIdentity(z) == [true];
      assert [true][1..] == [];
    }
    assert And(1, 0) == 0 && And(1, 1) == 1;
    assert Bin(0) == "0b0" && Bin(1) == "0b1";
    ParityIsPopCountMod2(0);
    ParityIsPopCountMod2(1);
    assert PopCount(1) == 1 + PopCount(0);
    assert Sign(mask, 0) == 1 && Sign(mask, 1) == -1;
    assert SignedSum(c, mask) == 400;
  }
}
