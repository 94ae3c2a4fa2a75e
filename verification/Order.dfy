/** Go's `<` on strings, and the sorting the controllers do with it. */
module Order {
  import opened Bags

  predicate LexLe(a: string, b: string) {
    a == [] || (b != [] && (a[0] < b[0] || (a[0] == b[0] && LexLe(a[1..], b[1..]))))
  }

  lemma LexTotal(a: string, b: string)
    ensures LexLe(a, b) || LexLe(b, a)
  {
  }

  lemma LexTransitive(a: string, b: string, c: string)
    requires LexLe(a, b) && LexLe(b, c)
    ensures LexLe(a, c)
  {
  }

  lemma {:induction false} LexAntisymmetric(a: string, b: string)
    requires LexLe(a, b) && LexLe(b, a)
    ensures a == b
  {
    if a != [] {
      LexAntisymmetric(a[1..], b[1..]);
      assert a == [a[0]] + a[1..] && b == [b[0]] + b[1..];
    }
  }

  predicate Sorted(s: seq<string>) {
    forall i, j :: 0 <= i < j < |s| ==> LexLe(s[i], s[j])
  }

  function Keys<T>(s: seq<(string, T)>): (keys: seq<string>)
    ensures |keys| == |s|
    ensures forall i :: 0 <= i < |s| ==> keys[i] == s[i].0
  {
    seq(|s|, i requires 0 <= i < |s| => s[i].0)
  }

  function Insert<T>(x: (string, T), s: seq<(string, T)>): (r: seq<(string, T)>)
    requires Sorted(Keys(s))
    ensures Sorted(Keys(r)) && multiset(r) == multiset(s) + multiset{x}
  {
    if s == [] || LexLe(x.0, s[0].0) then
      InsertFront(x, s);
      [x] + s
    else
      assert Sorted(Keys(s[1..])) by {
        forall i, j | 0 <= i < j < |s| - 1 ensures LexLe(Keys(s[1..])[i], Keys(s[1..])[j]) {
          assert LexLe(Keys(s)[i + 1], Keys(s)[j + 1]);
        }
      }
      InsertBack(x, s, Insert(x, s[1..]));
      [s[0]] + Insert(x, s[1..])
  }

  lemma InsertFront<T>(x: (string, T), s: seq<(string, T)>)
    requires Sorted(Keys(s)) && (s == [] || LexLe(x.0, s[0].0))
    ensures Sorted(Keys([x] + s))
  {
    var r := [x] + s;
    forall i, j | 0 <= i < j < |r| ensures LexLe(Keys(r)[i], Keys(r)[j]) {
      if i > 0 {
        assert LexLe(Keys(s)[i - 1], Keys(s)[j - 1]);
      } else if j > 1 {
        assert LexLe(Keys(s)[0], Keys(s)[j - 1]);
        LexTransitive(x.0, s[0].0, s[j - 1].0);
      }
    }
  }

  lemma InsertBack<T>(x: (string, T), s: seq<(string, T)>, r: seq<(string, T)>)
    requires s != [] && Sorted(Keys(s)) && !LexLe(x.0, s[0].0)
    requires Sorted(Keys(r)) && multiset(r) == multiset(s[1..]) + multiset{x}
    ensures Sorted(Keys([s[0]] + r)) && multiset([s[0]] + r) == multiset(s) + multiset{x}
  {
    LexTotal(x.0, s[0].0);
    assert s == [s[0]] + s[1..];
    forall y | y in r ensures LexLe(s[0].0, y.0) {
      assert y in multiset(r);
      if y != x {
        assert y in s[1..];
        var i :| 0 <= i < |s| - 1 && s[1..][i] == y;
        assert LexLe(Keys(s)[0], Keys(s)[i + 1]);
      }
    }
    assert r == [] || LexLe(s[0].0, r[0].0);
    InsertFront(s[0], r);
  }

  /** `sort.Slice` with the key as the order: the outcome for equal keys is left open there,
      and nothing below depends on it. */
  function SortByKey<T>(s: seq<(string, T)>): (r: seq<(string, T)>)
    ensures Sorted(Keys(r)) && multiset(r) == multiset(s)
  {
    if s == [] then []
    else
      assert s == [s[0]] + s[1..];
      Insert(s[0], SortByKey(s[1..]))
  }

  lemma {:induction false} KeysBag<T>(s: seq<(string, T)>)
    ensures multiset(Keys(s)) == Sum(s, (x: (string, T)) => multiset{x.0})
  {
    if s != [] {
      var n := |s| - 1;
      assert Keys(s) == Keys(s[..n]) + [s[n].0];
      KeysBag(s[..n]);
    }
  }

  /** Permuting entries permutes their keys. */
  lemma KeysPermute<T>(r: seq<(string, T)>, s: seq<(string, T)>)
    requires multiset(r) == multiset(s)
    ensures multiset(Keys(r)) == multiset(Keys(s))
  {
    KeysBag(r);
    KeysBag(s);
    SumPermutes(r, s, (x: (string, T)) => multiset{x.0});
  }

  lemma FirstIsLeast(a: seq<string>, x: string)
    requires Sorted(a) && x in a
    ensures LexLe(a[0], x)
  {
    LexTotal(x, x);
    var i :| 0 <= i < |a| && a[i] == x;
  }

  lemma RestOf(a: seq<string>)
    requires a != []
    ensures multiset(a[1..]) == multiset(a) - multiset{a[0]}
    ensures Sorted(a) ==> Sorted(a[1..])
  {
    assert a == [a[0]] + a[1..];
  }

  lemma SameHead(a: seq<string>, b: seq<string>)
    requires a != [] && Sorted(a) && Sorted(b) && multiset(a) == multiset(b)
    ensures b != [] && a[0] == b[0]
  {
    assert a[0] in multiset(b);
    assert b[0] in multiset(a);
    FirstIsLeast(a, b[0]);
    FirstIsLeast(b, a[0]);
    LexAntisymmetric(a[0], b[0]);
  }

  /** A sorted listing is determined by the bag it lists. */
  lemma {:induction false} SortedUnique(a: seq<string>, b: seq<string>)
    requires Sorted(a) && Sorted(b) && multiset(a) == multiset(b)
    ensures a == b
  {
    if a == [] {
      assert |multiset(b)| == |b|;
    } else {
      SameHead(a, b);
      RestOf(a);
      RestOf(b);
      SortedUnique(a[1..], b[1..]);
      assert a == [a[0]] + a[1..] && b == [b[0]] + b[1..];
    }
  }
}
