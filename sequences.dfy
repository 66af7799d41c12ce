/** Order and duplicate facts about sequences, used to state what the
    filters and the autocomplete lists promise. */
module Sequences {

  /** `idx` lists, in strictly increasing order, the positions in `b` at which
      the elements of `a` are found: `a` is `b` with some elements dropped. */
  ghost predicate Embeds<T>(a: seq<T>, b: seq<T>, idx: seq<nat>) {
    && |idx| == |a|
    && (forall k :: 0 <= k < |idx| ==> idx[k] < |b| && a[k] == b[idx[k]])
    && (forall k, l :: 0 <= k < l < |idx| ==> idx[k] < idx[l])
  }

  ghost predicate IsSubsequence<T>(a: seq<T>, b: seq<T>) {
    exists idx :: Embeds(a, b, idx)
  }

  predicate NoDuplicates<T(==)>(s: seq<T>) {
    forall i, j :: 0 <= i < j < |s| ==> s[i] != s[j]
  }

  /** `[...new Set(s)]`: the distinct elements of `s`, in order of first occurrence. */
  function Dedupe<T(==)>(s: seq<T>): (r: seq<T>)
    ensures NoDuplicates(r)
    ensures forall i :: 0 <= i < |r| ==> r[i] in s
    ensures forall i :: 0 <= i < |s| ==> s[i] in r
  {
    if s == [] then []
    else
      var d := Dedupe(s[..|s| - 1]);
      var last := s[|s| - 1];
      assert s == s[..|s| - 1] + [last];
      if last in d then d else d + [last]
  }

  /** Removing duplicates from a sequence that has none changes nothing. */
  lemma {:induction false} DedupeOfDistinct<T>(s: seq<T>)
    requires NoDuplicates(s)
    ensures Dedupe(s) == s
  {
    if s != [] {
      var prefix := s[..|s| - 1];
      assert NoDuplicates(prefix);
      DedupeOfDistinct(prefix);
      assert s[|s| - 1] !in prefix;
      assert s == prefix + [s[|s| - 1]];
    }
  }

  /** The first occurrences of the elements keep their relative order. */
  lemma {:induction false} DedupeIsSubsequence<T>(s: seq<T>)
    ensures IsSubsequence(Dedupe(s), s)
  {
    var idx := DedupeIndices(s);
    DedupeIndicesEmbed(s);
    assert Embeds(Dedupe(s), s, idx);
  }

  ghost function DedupeIndices<T>(s: seq<T>): seq<nat> {
    if s == [] then []
    else
      var d := Dedupe(s[..|s| - 1]);
      if s[|s| - 1] in d then DedupeIndices(s[..|s| - 1])
      else DedupeIndices(s[..|s| - 1]) + [|s| - 1]
  }

  lemma {:induction false} DedupeIndicesEmbed<T>(s: seq<T>)
    ensures Embeds(Dedupe(s), s, DedupeIndices(s))
  {
    if s != [] {
      var prefix := s[..|s| - 1];
      DedupeIndicesEmbed(prefix);
      var idx := DedupeIndices(prefix);
      forall k | 0 <= k < |idx|
        ensures idx[k] < |s| && Dedupe(prefix)[k] == s[idx[k]]
      {
        assert s[idx[k]] == prefix[idx[k]];
      }
    }
  }
}
