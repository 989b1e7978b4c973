/** Non-negative integers used as bit masks: the bit view, Python's `bin`,
    `int(s, 2)`, `&` on non-negative integers, and little-endian bit packing. */
module BitMasks {
  import opened Errors

  /** Bit i of n, bit 0 being the least significant one. */
  predicate Bit(n: nat, i: nat)
  {
    if i == 0 then n % 2 == 1 else Bit(n / 2, i - 1)
  }

  function Pow2(i: nat): (r: nat)
    ensures r >= 1
  {
    if i == 0 then 1 else 2 * Pow2(i - 1)
  }

  /** Python's `a & b` for non-negative integers. */
  function And(a: nat, b: nat): (r: nat)
    ensures r <= a && r <= b
  {
    if a == 0 || b == 0 then 0
    else (if a % 2 == 1 && b % 2 == 1 then 1 else 0) + 2 * And(a / 2, b / 2)
  }

  lemma {:induction false} AndBit(a: nat, b: nat, i: nat)
    ensures Bit(And(a, b), i) <==> Bit(a, i) && Bit(b, i)
  {
    if a == 0 || b == 0 {
      ZeroHasNoBits(i);
    } else if i > 0 {
      AndBit(a / 2, b / 2, i - 1);
    }
  }

  lemma {:induction false} ZeroHasNoBits(i: nat)
    ensures !Bit(0, i)
  {
    if i > 0 {
      ZeroHasNoBits(i - 1);
    }
  }

  /** The number of set bits of n. */
  function PopCount(n: nat): nat
  {
    if n == 0 then 0 else n % 2 + PopCount(n / 2)
  }

  function DigitChar(d: nat): char
    requires d < 2
  {
    if d == 0 then '0' else '1'
  }

  /** The digits of Python's `bin(n)` after its `0b` prefix: most significant
      first, no leading zeros, "0" for zero. */
  function BinDigits(n: nat): (s: string)
    ensures |s| >= 1
    ensures forall k :: 0 <= k < |s| ==> s[k] == '0' || s[k] == '1'
  {
    if n < 2 then [DigitChar(n)] else BinDigits(n / 2) + [DigitChar(n % 2)]
  }

  /** Python's `bin(n)` for n >= 0. */
  function Bin(n: nat): string
  {
    "0b" + BinDigits(n)
  }

  function Count(s: string, c: char): nat
  {
    if |s| == 0 then 0 else Count(s[..|s| - 1], c) + (if s[|s| - 1] == c then 1 else 0)
  }

  lemma {:induction false} CountAppend(s: string, t: string, c: char)
    ensures Count(s + t, c) == Count(s, c) + Count(t, c)
  {
    if |t| == 0 {
      assert s + t == s;
    } else {
      assert (s + t)[..|s + t| - 1] == s + t[..|t| - 1];
      CountAppend(s, t[..|t| - 1], c);
    }
  }

  lemma {:induction false} CountOnesOfBin(n: nat)
    ensures Count(Bin(n), '1') == PopCount(n)
  {
    assert Count("0b", '1') == 0 by {
      assert "0b"[..1] == "0";
      assert ""[..0] == "";
      assert "0"[..0] == "";
    }
    CountAppend("0b", BinDigits(n), '1');
    CountOnesOfDigits(n);
  }

  lemma {:induction false} CountOnesOfDigits(n: nat)
    ensures Count(BinDigits(n), '1') == PopCount(n)
  {
    if n < 2 {
      assert [DigitChar(n)][..0] == [];
      if n == 1 {
        assert PopCount(n) == 1 + PopCount(0);
      }
    } else {
      CountOnesOfDigits(n / 2);
      var s := BinDigits(n / 2) + [DigitChar(n % 2)];
      assert s[..|s| - 1] == BinDigits(n / 2);
    }
  }

  /** `_parity`: the number of "1" characters in `bin(n)`, modulo 2. */
  function Parity(n: nat): nat
  {
    Count(Bin(n), '1') % 2
  }

  /** The parity is popcount(n) mod 2, hence 0 or 1. */
  lemma {:induction false} ParityIsPopCountMod2(n: nat)
    ensures Parity(n) == PopCount(n) % 2
    ensures Parity(n) == 0 || Parity(n) == 1
  {
    CountOnesOfBin(n);
  }

  /** Python's `int(s, 2)` restricted to strings of the digits 0 and 1. */
  function ParseBinary(s: string): (r: Result<nat>)
    ensures r.Ok? <==> |s| > 0 && forall k :: 0 <= k < |s| ==> s[k] == '0' || s[k] == '1'
    ensures r.Err? ==> r.error == InvalidOutcome(s)
  {
    if |s| == 0 then Err(InvalidOutcome(s))
    else if s[|s| - 1] != '0' && s[|s| - 1] != '1' then Err(InvalidOutcome(s))
    else if |s| == 1 then Ok(if s[0] == '1' then 1 else 0)
    else
      match ParseBinary(s[..|s| - 1])
      case Err(_) => Err(InvalidOutcome(s))
      case Ok(v) => Ok(2 * v + (if s[|s| - 1] == '1' then 1 else 0))
  }

  /** Parsing undoes `bin`: int(bin(n)[2:], 2) == n. */
  lemma {:induction false} ParseBinDigits(n: nat)
    ensures ParseBinary(BinDigits(n)) == Ok(n)
  {
    if n >= 2 {
      var s := BinDigits(n / 2) + [DigitChar(n % 2)];
      assert s[..|s| - 1] == BinDigits(n / 2);
      ParseBinDigits(n / 2);
    }
  }

  /** Leading zeros, as in a fixed-width bitstring, do not change the value. */
  lemma {:induction false} ParseLeadingZero(s: string)
    requires ParseBinary(s).Ok?
    ensures ParseBinary("0" + s) == ParseBinary(s)
  {
    var t := "0" + s;
    assert t[..|t| - 1] == "0" + s[..|s| - 1];
    if |s| > 1 {
      ParseLeadingZero(s[..|s| - 1]);
    } else {
      assert t[..1] == "0";
    }
  }

  /** `np.packbits(bits, bitorder="little")` read as one integer: the sum of
      2^i over the positions i whose bit is set. */
  function PackBits(bits: seq<bool>): (r: nat)
    ensures r < Pow2(|bits|)
  {
    if |bits| == 0 then 0 else (if bits[0] then 1 else 0) + 2 * PackBits(bits[1..])
  }

  /** Bit i of the packed integer is set exactly when position i is. */
  lemma {:induction false} PackBitsBit(bits: seq<bool>, i: nat)
    ensures Bit(PackBits(bits), i) <==> i < |bits| && bits[i]
  {
    if |bits| == 0 {
      ZeroHasNoBits(i);
    } else if i > 0 {
      PackBitsBit(bits[1..], i - 1);
    }
  }
}
