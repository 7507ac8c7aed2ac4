/**
 * A directory tree as the scripts observe it through `os.listdir`,
 * `os.path.isfile` and `os.path.isdir`: each listable directory maps to its
 * entries, in the order `os.listdir` returns them, each tagged with its kind.
 */
module Listing {
  import opened Base
  import opened Seqs

  datatype Kind = RegularFile | Directory | OtherKind

  datatype Entry = Entry(name: string, kind: Kind)

  /** `os.listdir(path)`, or `None` when it would raise. */
  function ListDir(listings: map<string, seq<Entry>>, path: string): Option<seq<Entry>>
  {
    if path in listings then Some(listings[path]) else None
  }

  /** The names of the entries of one kind, in listing order. */
  function NamesOfKind(entries: seq<Entry>, kind: Kind): (r: seq<string>)
    ensures |r| <= |entries|
    ensures forall n :: n in r <==> Entry(n, kind) in entries
  {
    if entries == [] then []
    else
      var init := entries[..|entries| - 1];
      var last := entries[|entries| - 1];
      var rest := NamesOfKind(init, kind);
      assert forall e :: e in entries <==> e == last || e in init by {
        assert entries == init + [last];
      }
      rest + (if last.kind == kind then [last.name] else [])
  }

  /** The positions of the entries of one kind, in increasing order. */
  function KindIndices(entries: seq<Entry>, kind: Kind): seq<nat>
  {
    TrueIndices(seq(|entries|, i requires 0 <= i < |entries| => entries[i].kind == kind))
  }

  /** `NamesOfKind` keeps one name per entry of that kind, in listing order:
      its k-th name is that of the k-th such entry, and the positions of
      those entries are increasing and are all the entries of that kind. */
  lemma NamesOfKindInOrder(entries: seq<Entry>, kind: Kind)
    ensures |NamesOfKind(entries, kind)| == |KindIndices(entries, kind)|
    ensures forall k :: 0 <= k < |KindIndices(entries, kind)| ==>
              KindIndices(entries, kind)[k] < |entries|
              && entries[KindIndices(entries, kind)[k]] == Entry(NamesOfKind(entries, kind)[k], kind)
    ensures forall k, j :: 0 <= k < j < |KindIndices(entries, kind)| ==>
              KindIndices(entries, kind)[k] < KindIndices(entries, kind)[j]
    ensures forall i :: 0 <= i < |entries| && entries[i].kind == kind ==> i in KindIndices(entries, kind)
  {
    var flags := seq(|entries|, i requires 0 <= i < |entries| => entries[i].kind == kind);
    TrueIndicesExact(flags);
    NamesAtIndices(entries, kind);
  }

  lemma {:induction false} NamesAtIndices(entries: seq<Entry>, kind: Kind)
    ensures |NamesOfKind(entries, kind)| == |KindIndices(entries, kind)|
    ensures forall k :: 0 <= k < |KindIndices(entries, kind)| ==>
              entries[KindIndices(entries, kind)[k]].name == NamesOfKind(entries, kind)[k]
  {
    if entries != [] {
      var n := |entries| - 1;
      var init := entries[..n];
      NamesAtIndices(init, kind);
      var flags := seq(|entries|, i requires 0 <= i < |entries| => entries[i].kind == kind);
      assert flags[..n] == seq(|init|, i requires 0 <= i < |init| => init[i].kind == kind);
      var hs0 := KindIndices(init, kind);
      var hs := KindIndices(entries, kind);
      assert hs == hs0 + (if entries[n].kind == kind then [n] else []);
      var names := NamesOfKind(entries, kind);
      var names0 := NamesOfKind(init, kind);
      assert names == names0 + (if entries[n].kind == kind then [entries[n].name] else []);
      forall k | 0 <= k < |hs|
        ensures entries[hs[k]].name == names[k]
      {
        if k < |hs0| {
          assert hs[k] == hs0[k] && names[k] == names0[k];
          assert entries[hs0[k]] == init[hs0[k]];
        }
      }
    }
  }
}
