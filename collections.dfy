/** Generic facts about sequences and dictionaries used throughout: minimum,
    concatenation, first-occurrence keys and a dictionary written entry by entry. */
module Collections {
  function Min(a: nat, b: nat): nat
  {
    if a < b then a else b
  }

  function Concat<T>(xss: seq<seq<T>>): seq<T>
  {
    if |xss| == 0 then [] else xss[0] + Concat(xss[1..])
  }

  lemma {:induction false} ConcatSnoc<T>(xss: seq<seq<T>>, i: nat)
    requires i < |xss|
    ensures Concat(xss[..i + 1]) == Concat(xss[..i]) + xss[i]
  {
    if i > 0 {
      assert xss[..i + 1][1..] == xss[1..][..i];
      assert xss[..i][1..] == xss[1..][..i - 1];
      ConcatSnoc(xss[1..], i - 1);
    } else {
      assert xss[..1][1..] == [];
    }
  }

  lemma {:induction false} ConcatSplit<T>(xss: seq<seq<T>>, k: nat)
    requires k <= |xss|
    ensures Concat(xss) == Concat(xss[..k]) + Concat(xss[k..])
  {
    if k > 0 {
      ConcatSplit(xss[1..], k - 1);
      assert xss[1..][..k - 1] == xss[..k][1..];
      assert xss[1..][k - 1..] == xss[k..];
    } else {
      assert xss[..0] == [] && xss[0..] == xss;
    }
  }

  /** The distinct values of xs in order of first occurrence: the key order of
      a dictionary whose keys are inserted in that order. */
  function Keys<T(==)>(xs: seq<T>): seq<T>
  {
    if |xs| == 0 then []
    else
      var init := Keys(xs[..|xs| - 1]);
      if xs[|xs| - 1] in init then init else init + [xs[|xs| - 1]]
  }

  /** The keys are distinct and are exactly the values that occur. */
  lemma {:induction false} KeysSpec<T>(xs: seq<T>)
    ensures forall a, b :: 0 <= a < b < |Keys(xs)| ==> Keys(xs)[a] != Keys(xs)[b]
    ensures forall v :: v in Keys(xs) <==> v in xs
  {
    if |xs| > 0 {
      var init := xs[..|xs| - 1];
      KeysSpec(init);
      assert xs == init + [xs[|xs| - 1]];
    }
  }

  /** The dictionary m after `d[key] = value` for each entry in turn. */
  function Override<K, V>(m: map<K, V>, es: seq<(K, V)>): map<K, V>
  {
    if |es| == 0 then m else Override(m, es[..|es| - 1])[es[|es| - 1].0 := es[|es| - 1].1]
  }

  lemma {:induction false} OverrideAppend<K, V>(m: map<K, V>, es: seq<(K, V)>, fs: seq<(K, V)>)
    ensures Override(m, es + fs) == Override(Override(m, es), fs)
  {
    if |fs| > 0 {
      var init := fs[..|fs| - 1];
      assert (es + fs)[..|es + fs| - 1] == es + init;
      OverrideAppend(m, es, init);
    } else {
      assert es + fs == es;
    }
  }

  /** A key of the dictionary built from nothing comes from some entry, and its
      value is that of the last entry with that key. */
  lemma {:induction false} OverrideLastWins<K, V>(es: seq<(K, V)>, key: K)
    ensures key in Override(map[], es) <==> exists i :: 0 <= i < |es| && es[i].0 == key
    ensures key in Override(map[], es) ==>
      exists i :: 0 <= i < |es| && es[i] == (key, Override(map[], es)[key]) && forall j :: i < j < |es| ==> es[j].0 != key
  {
    if |es| > 0 {
      var init := es[..|es| - 1];
      OverrideLastWins(init, key);
      if es[|es| - 1].0 != key && key in Override(map[], init) {
        var i :| 0 <= i < |init| && init[i] == (key, Override(map[], init)[key]) &&
          forall j :: i < j < |init| ==> init[j].0 != key;
        assert es[i] == init[i];
      }
      if exists i :: 0 <= i < |es| && es[i].0 == key {
        var i :| 0 <= i < |es| && es[i].0 == key;
        if i < |es| - 1 {
          assert init[i].0 == key;
        }
      }
    }
  }

  predicate HasKey<K(==), V>(es: seq<(K, V)>, key: K)
  {
    exists i :: 0 <= i < |es| && es[i].0 == key
  }

  lemma {:induction false} HasKeyAppend<K, V>(es: seq<(K, V)>, fs: seq<(K, V)>, key: K)
    ensures HasKey(es + fs, key) <==> HasKey(es, key) || HasKey(fs, key)
  {
    if HasKey(es + fs, key) {
      var i :| 0 <= i < |es + fs| && (es + fs)[i].0 == key;
      if i >= |es| {
        assert fs[i - |es|].0 == key;
      }
    }
    if HasKey(fs, key) {
      var i :| 0 <= i < |fs| && fs[i].0 == key;
      assert (es + fs)[|es| + i].0 == key;
    }
    if HasKey(es, key) {
      var i :| 0 <= i < |es| && es[i].0 == key;
      assert (es + fs)[i].0 == key;
    }
  }

}
