/** The bag of everything listed in a map of slices, whatever order the map is ranged over. */
module Bags {
  ghost function Pick<K>(s: set<K>): (k: K)
    requires s != {}
    ensures k in s
  {
    var k :| k in s; k
  }

  ghost function BagOf<K, V>(m: map<K, seq<V>>): multiset<V>
    decreases |m|
  {
    if m == map[] then multiset{}
    else
      var k := Pick(m.Keys);
      assert (m - {k}).Keys == m.Keys - {k};
      multiset(m[k]) + BagOf(m - {k})
  }

  lemma Minus<K, V>(m: map<K, V>, p: K, k: K)
    requires p in m && k in m
    ensures |m - {p}| == |m| - 1 && |m - {k}| == |m| - 1
    ensures m - {p} - {k} == m - {k} - {p}
  {
    assert (m - {p}).Keys == m.Keys - {p};
    assert (m - {k}).Keys == m.Keys - {k};
  }

  lemma {:induction false} BagPick<K, V>(m: map<K, seq<V>>, k: K)
    requires k in m
    ensures BagOf(m) == multiset(m[k]) + BagOf(m - {k})
    decreases |m|
  {
    var p := Pick(m.Keys);
    if k != p {
      Minus(m, p, k);
      BagPick(m - {p}, k);
      BagPick(m - {k}, p);
    }
  }

  /** The bag holds exactly the listed values. */
  lemma {:induction false} BagMember<K, V>(m: map<K, seq<V>>, v: V)
    ensures v in BagOf(m) <==> exists k :: k in m && v in m[k]
    decreases |m|
  {
    if m != map[] {
      var p := Pick(m.Keys);
      assert (m - {p}).Keys == m.Keys - {p};
      BagMember(m - {p}, v);
      if k :| k in m && v in m[k] {
        BagPick(m, k);
      }
    }
  }

  /** Appending to one slice of the map adds the same values to the bag. */
  lemma BagAppend<K, V>(m: map<K, seq<V>>, k: K, vs: seq<V>)
    ensures BagOf(m[k := (if k in m then m[k] else []) + vs]) == BagOf(m) + multiset(vs)
  {
    if k in m {
      BagReplace(m, k, m[k] + vs);
      BagPick(m, k);
    } else {
      assert m - {k} == m;
      BagReplace(m, k, vs);
      assert [] + vs == vs;
    }
  }

  lemma BagReplace<K, V>(m: map<K, seq<V>>, k: K, vs: seq<V>)
    ensures BagOf(m[k := vs]) == multiset(vs) + BagOf(m - {k})
  {
    BagPick(m[k := vs], k);
    assert m[k := vs] - {k} == m - {k};
  }

  /** In a bag without repetition a value is listed under one key only, and once. */
  lemma BagDistinct<K, V>(m: map<K, seq<V>>, k: K, l: K, v: V)
    requires k in m && l in m && v in m[k] && v in m[l] && BagOf(m)[v] <= 1
    ensures k == l && multiset(m[k])[v] == 1
  {
    BagPick(m, k);
    assert multiset(m[k])[v] >= 1;
    if k != l {
      BagPick(m - {k}, l);
    }
  }

  /** The same slices up to the order within each. */
  ghost predicate SameGroups<K, V>(m: map<K, seq<V>>, n: map<K, seq<V>>) {
    m.Keys == n.Keys && forall k :: k in m ==> multiset(m[k]) == multiset(n[k])
  }

  lemma {:induction false} SameGroupsBag<K, V>(m: map<K, seq<V>>, n: map<K, seq<V>>)
    requires SameGroups(m, n)
    ensures BagOf(m) == BagOf(n)
    decreases |m|
  {
    if m == map[] {
      assert n == map[];
    } else {
      var k := Pick(m.Keys);
      Minus(m, k, k);
      BagPick(m, k);
      BagPick(n, k);
      SameGroupsBag(m - {k}, n - {k});
    }
  }

  /** The bag that the elements of a list contribute to together. */
  ghost function Sum<T, V>(s: seq<T>, f: T -> multiset<V>): multiset<V> {
    if s == [] then multiset{} else Sum(s[..|s| - 1], f) + f(s[|s| - 1])
  }

  lemma SumSnoc<T, V>(s: seq<T>, x: T, f: T -> multiset<V>)
    ensures Sum(s + [x], f) == Sum(s, f) + f(x)
  {
    assert (s + [x])[..|s|] == s;
  }

  lemma {:induction false} SumConcat<T, V>(s: seq<T>, t: seq<T>, f: T -> multiset<V>)
    ensures Sum(s + t, f) == Sum(s, f) + Sum(t, f)
  {
    if t == [] {
      assert s + t == s;
    } else {
      assert (s + t)[..|s + t| - 1] == s + t[..|t| - 1];
      SumConcat(s, t[..|t| - 1], f);
    }
  }

  /** The order of the list does not matter. */
  lemma {:induction false} SumPermutes<T, V>(s: seq<T>, t: seq<T>, f: T -> multiset<V>)
    requires multiset(s) == multiset(t)
    ensures Sum(s, f) == Sum(t, f)
  {
    assert |multiset(s)| == |s| && |multiset(t)| == |t|;
    if s != [] {
      var n := |s| - 1;
      assert s[n] in multiset(t);
      var i :| 0 <= i < |t| && t[i] == s[n];
      assert s == s[..n] + [s[n]];
      RemoveAt(t, i);
      SumSnoc(t[..i], t[i], f);
      SumConcat(t[..i] + [t[i]], t[i + 1..], f);
      SumConcat(t[..i], t[i + 1..], f);
      SumPermutes(s[..n], t[..i] + t[i + 1..], f);
    }
  }

  lemma RemoveAt<T>(t: seq<T>, i: nat)
    requires i < |t|
    ensures t == (t[..i] + [t[i]]) + t[i + 1..]
    ensures multiset(t[..i] + t[i + 1..]) == multiset(t) - multiset{t[i]}
  {
    assert t == (t[..i] + [t[i]]) + t[i + 1..];
  }

  lemma {:induction false} SumSame<T, V>(s: seq<T>, f: T -> multiset<V>, g: T -> multiset<V>)
    requires forall i :: 0 <= i < |s| ==> f(s[i]) == g(s[i])
    ensures Sum(s, f) == Sum(s, g)
  {
    if s != [] {
      SumSame(s[..|s| - 1], f, g);
    }
  }

  lemma {:induction false} SumMember<T, V>(s: seq<T>, f: T -> multiset<V>, v: V)
    ensures v in Sum(s, f) <==> exists i :: 0 <= i < |s| && v in f(s[i])
  {
    if s != [] {
      SumMember(s[..|s| - 1], f, v);
    }
  }
}
