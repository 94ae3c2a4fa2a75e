/** Finalizers as a Go slice: a backing array and a length (pkg/_internal/metadata/finalizers.go),
    and the loop of the ingress reconciler that removes some of them while ranging over them. */
module Finalizers {
  /** `strings.Contains`. */
  predicate Mentions(finalizer: string, marker: string) {
    exists i :: 0 <= i <= |finalizer| - |marker| && finalizer[i..][..|marker|] == marker
  }

  predicate Parts(finalizer: string, before: string, marker: string, after: string) {
    finalizer == before + marker + after
  }

  /** The marker is mentioned exactly by what can be written around it. */
  lemma MentionsParts(finalizer: string, marker: string)
    ensures Mentions(finalizer, marker) <==> exists a, b :: Parts(finalizer, a, marker, b)
  {
    if Mentions(finalizer, marker) {
      var i :| 0 <= i <= |finalizer| - |marker| && finalizer[i..][..|marker|] == marker;
      assert Parts(finalizer, finalizer[..i], marker, finalizer[i..][|marker|..]);
    }
    if a, b :| Parts(finalizer, a, marker, b) {
      assert finalizer[|a|..] == marker + b;
    }
  }

  /** The slice with its first `f` overwritten by the last element, one shorter. */
  function SwapRemoved(s: seq<string>, f: string): (r: seq<string>)
    ensures f in s ==> |r| == |s| - 1
  {
    if f !in s then s else s[FirstAt(s, f) := s[|s| - 1]][..|s| - 1]
  }

  function FirstAt(s: seq<string>, f: string): (i: nat)
    requires f in s
    ensures i < |s| && s[i] == f && forall j :: 0 <= j < i ==> s[j] != f
  {
    if s[0] == f then 0
    else
      assert s == [s[0]] + s[1..];
      1 + FirstAt(s[1..], f)
  }

  lemma Cancel<T>(a: multiset<T>, b: multiset<T>, x: T)
    requires a + multiset{x} == b + multiset{x}
    ensures a == b
  {
    forall v
      ensures a[v] == b[v]
    {
      assert (a + multiset{x})[v] == (b + multiset{x})[v];
    }
  }

  lemma LastCut(s: seq<string>)
    requires s != []
    ensures multiset(s) == multiset(s[..|s| - 1]) + multiset{s[|s| - 1]}
  {
    assert s == s[..|s| - 1] + [s[|s| - 1]];
  }

  lemma OneWritten(s: seq<string>, i: nat, x: string)
    requires i < |s|
    ensures multiset(s[i := x]) == multiset(s) - multiset{s[i]} + multiset{x}
  {
  }

  lemma SwapBag(s: seq<string>, i: nat)
    requires i < |s|
    ensures multiset(s[i := s[|s| - 1]][..|s| - 1]) == multiset(s) - multiset{s[i]}
  {
    var last := s[|s| - 1];
    var swapped := s[i := last];
    LastCut(swapped);
    OneWritten(s, i, last);
    Cancel(multiset(swapped[..|s| - 1]), multiset(s) - multiset{s[i]}, last);
  }

  /** One occurrence goes, everything else stays. */
  lemma SwapRemovedBag(s: seq<string>, f: string)
    ensures multiset(SwapRemoved(s, f)) == multiset(s) - multiset{f}
  {
    if f in s {
      SwapBag(s, FirstAt(s, f));
    } else {
      assert f !in multiset(s);
    }
  }

  class FinalizedObject {
    var backing: array<string>
    var len: nat

    ghost predicate Valid()
      reads this
    {
      len <= backing.Length
    }

    function GetFinalizers(): seq<string>
      requires Valid()
      reads this, backing
    {
      backing[..len]
    }

    constructor (finalizers: array<string>)
      ensures Valid() && backing == finalizers && GetFinalizers() == finalizers[..]
    {
      backing, len := finalizers, finalizers.Length;
    }

    /** `append` reuses spare capacity and moves to a new array otherwise. */
    method AddFinalizer(finalizer: string)
      requires Valid()
      modifies this, backing
      ensures Valid() && (backing == old(backing) || fresh(backing))
      ensures backing == old(backing) <==> finalizer in old(GetFinalizers()) || old(len < backing.Length)
      ensures GetFinalizers() == old(GetFinalizers()) + (if finalizer in old(GetFinalizers()) then [] else [finalizer])
    {
      ghost var before := GetFinalizers();
      for i := 0 to len
        invariant GetFinalizers() == before && len == |before|
        invariant finalizer !in before[..i]
      {
        if backing[i] == finalizer {
          assert before[i] == finalizer;
          return;
        }
      }
      if len == backing.Length {
        var grown := new string[2 * len + 1];
        forall i | 0 <= i < len {
          grown[i] := backing[i];
        }
        backing := grown;
      }
      backing[len] := finalizer;
      len := len + 1;
      assert GetFinalizers()[..len - 1] == before;
    }

    method RemoveFinalizer(finalizer: string)
      requires Valid()
      modifies this`len, backing
      ensures Valid() && GetFinalizers() == SwapRemoved(old(GetFinalizers()), finalizer)
      ensures forall i, k :: 0 <= i < k < backing.Length && old(backing[i]) == finalizer ==>
        backing[k] == old(backing[k])
    {
      ghost var before := GetFinalizers();
      for i := 0 to len
        invariant forall j :: 0 <= j < i ==> before[j] != finalizer
      {
        if backing[i] == finalizer {
          assert before[i] == finalizer;
          backing[i] := backing[len - 1];
          len := len - 1;
          return;
        }
      }
    }
  }

  ghost predicate KeepsOthers(before: multiset<string>, after: multiset<string>, test: string -> bool) {
    forall v :: !test(v) ==> after[v] == before[v]
  }

  /** The loop still to come covers what is left to remove: nothing that passes the test occurs
      more often in the slice than in the cells that have not been visited. */
  ghost predicate Ongoing(before: multiset<string>, left: multiset<string>, unvisited: multiset<string>,
                          test: string -> bool) {
    KeepsOthers(before, left, test) && forall v :: test(v) ==> left[v] <= unvisited[v]
  }

  lemma VisitStep(before: multiset<string>, left: multiset<string>, unvisited: multiset<string>, f: string,
                  test: string -> bool)
    requires Ongoing(before, left, unvisited + multiset{f}, test)
    ensures Ongoing(before, if test(f) then left - multiset{f} else left, unvisited, test)
  {
  }

  /** One pass of the loop: what a removal overwrites has been visited already. */
  method Visit(obj: FinalizedObject, i: nat, n: nat, test: string -> bool)
    requires obj.Valid() && i < n <= obj.backing.Length && obj.len <= n
    modifies obj`len, obj.backing
    ensures obj.Valid() && obj.backing == old(obj.backing) && obj.len <= n
    ensures var f, left := old(obj.backing[i]), multiset(old(obj.GetFinalizers()));
      multiset(obj.GetFinalizers()) == if test(f) then left - multiset{f} else left
    ensures obj.backing[i + 1..n] == old(obj.backing[i + 1..n])
  {
    var f := obj.backing[i];
    ghost var left, rest := obj.GetFinalizers(), obj.backing[i + 1..n];
    if test(f) {
      SwapRemovedBag(left, f);
      obj.RemoveFinalizer(f);
      assert obj.backing[i + 1..n] == rest;
    }
  }

  method VisitNext(obj: FinalizedObject, i: nat, n: nat, test: string -> bool, ghost before: multiset<string>)
    requires obj.Valid() && i < n <= obj.backing.Length && obj.len <= n
    requires Ongoing(before, multiset(obj.GetFinalizers()), multiset(obj.backing[i..n]), test)
    modifies obj`len, obj.backing
    ensures obj.Valid() && obj.backing == old(obj.backing) && obj.len <= n
    ensures Ongoing(before, multiset(obj.GetFinalizers()), multiset(obj.backing[i + 1..n]), test)
  {
    ghost var f, left, rest := obj.backing[i], multiset(obj.GetFinalizers()), obj.backing[i + 1..n];
    assert obj.backing[i..n] == [f] + rest;
    VisitStep(before, left, multiset(rest), f, test);
    Visit(obj, i, n, test);
  }

  /** The range clause fixes the array and the number of cells to visit, but reads each cell only
      when it gets there, after earlier removals have moved elements around in it. */
  method RemoveFinalizersWhere(obj: FinalizedObject, test: string -> bool)
    requires obj.Valid()
    modifies obj`len, obj.backing
    ensures obj.Valid() && obj.backing == old(obj.backing)
    ensures forall v :: v in obj.GetFinalizers() ==> !test(v)
    ensures KeepsOthers(multiset(old(obj.GetFinalizers())), multiset(obj.GetFinalizers()), test)
  {
    var cells, n := obj.backing, obj.len;
    ghost var before := multiset(obj.GetFinalizers());
    assert cells[0..n] == cells[..n];
    for i := 0 to n
      invariant obj.Valid() && obj.backing == cells && obj.len <= n <= cells.Length
      invariant Ongoing(before, multiset(obj.GetFinalizers()), multiset(cells[i..n]), test)
    {
      VisitNext(obj, i, n, test, before);
    }
    NothingLeft(before, obj.GetFinalizers(), test);
  }

  lemma NothingLeft(before: multiset<string>, left: seq<string>, test: string -> bool)
    requires Ongoing(before, multiset(left), multiset{}, test)
    ensures forall v :: v in left ==> !test(v)
  {
    forall v | v in left
      ensures !test(v)
    {
      assert multiset(left)[v] > 0;
    }
  }

  /** The finalizers of the syncer are those that mention its name. */
  method RemoveFinalizersMentioning(obj: FinalizedObject, marker: string)
    requires obj.Valid()
    modifies obj`len, obj.backing
    ensures obj.Valid() && obj.backing == old(obj.backing)
    ensures forall v :: v in obj.GetFinalizers() ==> !Mentions(v, marker)
    ensures forall v :: !Mentions(v, marker) ==>
      multiset(obj.GetFinalizers())[v] == multiset(old(obj.GetFinalizers()))[v]
  {
    RemoveFinalizersWhere(obj, f => Mentions(f, marker));
  }
}
