/** Counting the keys of a finite map by the value they hold. */
module Counting {

  /** The keys of `m` whose value satisfies `p`. */
  ghost function Where<K, V>(m: map<K, V>, p: V -> bool): set<K> {
    set k | k in m && p(m[k])
  }

  /** How many keys of `m` hold a value satisfying `p`. */
  ghost function Tally<K, V>(m: map<K, V>, p: V -> bool): nat {
    |Where(m, p)|
  }

  function Bit(b: bool): nat {
    if b then 1 else 0
  }

  /** Updating one key moves at most one unit into or out of a tally. */
  lemma TallyUpdate<K, V>(m: map<K, V>, k: K, v: V, p: V -> bool)
    ensures Tally(m[k := v], p) == Tally(m, p) - Bit(k in m && p(m[k])) + Bit(p(v))
  {
    var m' := m[k := v];
    var before, after := Where(m, p), Where(m', p);
    forall x | x != k
      ensures x in before <==> x in after
    {
      assert x in m' <==> x in m;
    }
    assert before - {k} == after - {k};
    SizeWithout(before, k);
    SizeWithout(after, k);
    assert k in m';
  }

  lemma SizeWithout<K>(s: set<K>, k: K)
    ensures |s - {k}| == |s| - Bit(k in s)
  {
    if k !in s {
      assert s - {k} == s;
    }
  }

  lemma TallyZero<K, V>(m: map<K, V>, p: V -> bool)
    ensures Tally(m, p) == 0 <==> forall k :: k in m ==> !p(m[k])
  {
    if k :| k in m && p(m[k]) {
      assert k in Where(m, p);
    }
  }

  /** A tally does not grow when every key counted afterwards was counted before. */
  lemma TallyShrinks<K, V>(m: map<K, V>, p: V -> bool, m': map<K, V>, p': V -> bool)
    requires Where(m', p') <= Where(m, p)
    ensures Tally(m', p') <= Tally(m, p)
  {
    SubsetSize(Where(m', p'), Where(m, p));
  }

  lemma SubsetSize<K>(small: set<K>, big: set<K>)
    requires small <= big
    ensures |small| <= |big|
    ensures |small| == |big| ==> small == big
  {
    assert big == small + (big - small);
  }

  ghost function Pick<K, V>(m: map<K, V>): (k: K)
    requires m != map[]
    ensures k in m
  {
    var k :| k in m;
    k
  }

  lemma FewerKeys<K, V>(m: map<K, V>, k: K)
    requires k in m
    ensures |m - {k}| < |m|
  {
    assert (m - {k}).Keys == m.Keys - {k};
  }

  /** The sum of the weights of all values in the map. */
  ghost function Weight<K, V>(m: map<K, V>, w: V -> nat): nat
    decreases |m|
  {
    if m == map[] then 0
    else
      var k := Pick(m);
      FewerKeys(m, k);
      w(m[k]) + Weight(m - {k}, w)
  }

  /** The sum does not depend on which key is taken first. */
  lemma {:induction false} WeightWithout<K, V>(m: map<K, V>, w: V -> nat, k: K)
    requires k in m
    ensures Weight(m, w) == w(m[k]) + Weight(m - {k}, w)
    decreases |m|
  {
    var first := Pick(m);
    FewerKeys(m, first);
    FewerKeys(m, k);
    if first != k {
      WeightWithout(m - {first}, w, k);
      WeightWithout(m - {k}, w, first);
      assert m - {first} - {k} == m - {k} - {first};
    }
  }

  lemma WeightUpdate<K, V>(m: map<K, V>, w: V -> nat, k: K, v: V)
    requires k in m
    ensures Weight(m[k := v], w) + w(m[k]) == Weight(m, w) + w(v)
  {
    WeightWithout(m, w, k);
    WeightWithout(m[k := v], w, k);
    assert m[k := v] - {k} == m - {k};
  }

  lemma {:induction false} WeightShrinks<K, V>(m: map<K, V>, w: V -> nat, w': V -> nat)
    requires forall k :: k in m ==> w'(m[k]) <= w(m[k])
    ensures Weight(m, w') <= Weight(m, w)
    decreases |m|
  {
    if m != map[] {
      FewerKeys(m, Pick(m));
      WeightShrinks(m - {Pick(m)}, w, w');
    }
  }

  lemma {:induction false} WeightConstant<K, V>(m: map<K, V>, w: V -> nat, c: nat)
    requires forall k :: k in m ==> w(m[k]) == c
    ensures Weight(m, w) == c * |m|
    decreases |m|
  {
    if m != map[] {
      var k := Pick(m);
      FewerKeys(m, k);
      WeightConstant(m - {k}, w, c);
      assert (m - {k}).Keys == m.Keys - {k};
      assert |m - {k}| == |m| - 1;
    }
  }
}
