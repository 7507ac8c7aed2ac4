/** Mapping a function over a list, and why reordering the list does not change
    the multiset of what comes out. */
module Seqs {

  /** `[f(x) for x in s]` */
  function MapSeq<A, B>(f: A -> B, s: seq<A>): (r: seq<B>)
    ensures |r| == |s|
    ensures forall i :: 0 <= i < |s| ==> r[i] == f(s[i])
  {
    if s == [] then [] else [f(s[0])] + MapSeq(f, s[1..])
  }

  lemma {:induction false} MapSeqAppend<A, B>(f: A -> B, a: seq<A>, b: seq<A>)
    ensures MapSeq(f, a + b) == MapSeq(f, a) + MapSeq(f, b)
  {
    if a != [] {
      assert (a + b)[1..] == a[1..] + b;
      MapSeqAppend(f, a[1..], b);
    } else {
      assert a + b == b;
    }
  }

  lemma MapSeqAppendMultiset<A, B>(f: A -> B, a: seq<A>, b: seq<A>)
    ensures multiset(MapSeq(f, a + b)) == multiset(MapSeq(f, a)) + multiset(MapSeq(f, b))
  {
    MapSeqAppend(f, a, b);
  }

  /** Taking one element out of a list takes its image out of the mapped list. */
  lemma MapSeqRemove<A, B>(f: A -> B, left: seq<A>, x: A, right: seq<A>)
    ensures multiset(MapSeq(f, left + ([x] + right)))
            == multiset(MapSeq(f, left + right)) + multiset{f(x)}
  {
    MapSeqAppendMultiset(f, left, [x] + right);
    MapSeqAppendMultiset(f, [x], right);
    MapSeqAppendMultiset(f, left, right);
    assert MapSeq(f, [x]) == [f(x)];
  }

  lemma SplitAt<A>(b: seq<A>, j: nat)
    requires j < |b|
    ensures b == b[..j] + ([b[j]] + b[j + 1..])
  {
  }

  lemma RemoveOne<A>(b: seq<A>, j: nat)
    requires j < |b|
    ensures multiset(b[..j] + b[j + 1..]) == multiset(b) - multiset{b[j]}
  {
    assert b == b[..j] + [b[j]] + b[j + 1..];
  }

  lemma MapSeqConsMultiset<A, B>(f: A -> B, a: seq<A>)
    requires a != []
    ensures multiset(MapSeq(f, a)) == multiset{f(a[0])} + multiset(MapSeq(f, a[1..]))
  {
    assert MapSeq(f, a) == [f(a[0])] + MapSeq(f, a[1..]);
  }

  lemma DropFirstMultiset<A>(a: seq<A>)
    requires a != []
    ensures multiset(a[1..]) == multiset(a) - multiset{a[0]}
  {
    assert a == [a[0]] + a[1..];
  }

  /** Two lists holding the same elements, in any order, map to lists holding
      the same images. */
  lemma {:induction false} MapSeqPermutation<A, B>(f: A -> B, a: seq<A>, b: seq<A>)
    requires multiset(a) == multiset(b)
    ensures multiset(MapSeq(f, a)) == multiset(MapSeq(f, b))
    decreases |a|
  {
    if a == [] {
      assert |b| == |multiset(b)| == 0;
    } else {
      assert a[0] in multiset(b);
      var j :| 0 <= j < |b| && b[j] == a[0];
      var rest := b[..j] + b[j + 1..];
      RemoveOne(b, j);
      DropFirstMultiset(a);
      MapSeqPermutation(f, a[1..], rest);
      SplitAt(b, j);
      MapSeqRemove(f, b[..j], b[j], b[j + 1..]);
      MapSeqConsMultiset(f, a);
    }
  }

  /** `[x for x in s if p(x)]` */
  function Filter<A(!new)>(p: A -> bool, s: seq<A>): (r: seq<A>)
    ensures |r| <= |s|
    ensures forall x :: x in r <==> x in s && p(x)
  {
    if s == [] then []
    else
      var rest := Filter(p, s[1..]);
      assert forall x :: x in s <==> x == s[0] || x in s[1..];
      if p(s[0]) then [s[0]] + rest else rest
  }

  /** The positions holding `true`, in increasing order. */
  function TrueIndices(flags: seq<bool>): (hs: seq<nat>)
    ensures forall k :: 0 <= k < |hs| ==> hs[k] < |flags|
    ensures forall k :: 0 <= k < |hs| - 1 ==> hs[k] < hs[k + 1]
  {
    if flags == [] then []
    else
      var n := |flags| - 1;
      TrueIndices(flags[..n]) + (if flags[n] then [n] else [])
  }

  /** `TrueIndices` lists exactly the positions holding `true`. */
  lemma TrueIndicesExact(flags: seq<bool>)
    ensures forall k :: 0 <= k < |TrueIndices(flags)| ==> TrueIndices(flags)[k] < |flags| && flags[TrueIndices(flags)[k]]
    ensures forall k, j :: 0 <= k < j < |TrueIndices(flags)| ==> TrueIndices(flags)[k] < TrueIndices(flags)[j]
    ensures forall i :: 0 <= i < |flags| && flags[i] ==> i in TrueIndices(flags)
  {
    TrueIndicesHold(flags);
    TrueIndicesSorted(flags);
    TrueIndicesComplete(flags);
  }

  lemma {:induction false} TrueIndicesHold(flags: seq<bool>)
    ensures forall k :: 0 <= k < |TrueIndices(flags)| ==> flags[TrueIndices(flags)[k]]
  {
    if flags != [] {
      var n := |flags| - 1;
      var init := flags[..n];
      TrueIndicesHold(init);
      var rest := TrueIndices(init);
      var hs := TrueIndices(flags);
      assert hs == rest + (if flags[n] then [n] else []);
      forall k | 0 <= k < |hs|
        ensures flags[hs[k]]
      {
        if k < |rest| {
          assert hs[k] == rest[k] && flags[rest[k]] == init[rest[k]];
        }
      }
    }
  }

  lemma {:induction false} TrueIndicesSorted(flags: seq<bool>)
    ensures forall k, j :: 0 <= k < j < |TrueIndices(flags)| ==> TrueIndices(flags)[k] < TrueIndices(flags)[j]
  {
    if flags != [] {
      var n := |flags| - 1;
      var init := flags[..n];
      TrueIndicesSorted(init);
      var rest := TrueIndices(init);
      var hs := TrueIndices(flags);
      assert hs == rest + (if flags[n] then [n] else []);
      forall k, j | 0 <= k < j < |hs|
        ensures hs[k] < hs[j]
      {
        assert hs[k] == rest[k];
        if j < |rest| {
          assert hs[j] == rest[j];
        }
      }
    }
  }

  lemma {:induction false} TrueIndicesComplete(flags: seq<bool>)
    ensures forall i :: 0 <= i < |flags| && flags[i] ==> i in TrueIndices(flags)
  {
    if flags != [] {
      var n := |flags| - 1;
      var init := flags[..n];
      TrueIndicesComplete(init);
      var rest := TrueIndices(init);
      var hs := TrueIndices(flags);
      assert hs == rest + (if flags[n] then [n] else []);
      forall i | 0 <= i < |flags| && flags[i]
        ensures i in hs
      {
        if i < n {
          assert init[i] == flags[i];
          assert i in rest;
        } else {
          assert hs[|hs| - 1] == n;
        }
      }
    }
  }
}
