/** Small shared vocabulary: an Option type and the list comprehension with
    an `if` clause, `[x for x in s if keep(x)]`, with its characterisation by
    the positions it keeps. */
module Base {

  datatype Option<T> = None | Some(value: T)

  /** `[x for x in s if keep(x)]`, built from the back of the list. */
  function Filter<T>(keep: T -> bool, s: seq<T>): seq<T>
  {
    if s == [] then []
    else Filter(keep, s[..|s| - 1]) + (if keep(s[|s| - 1]) then [s[|s| - 1]] else [])
  }

  /** The positions of `s` whose element satisfies `keep`, in increasing order. */
  function KeptPositions<T>(keep: T -> bool, s: seq<T>): seq<nat>
  {
    if s == [] then []
    else KeptPositions(keep, s[..|s| - 1]) + (if keep(s[|s| - 1]) then [|s| - 1] else [])
  }

  /** What a filter promises: its j-th element is the element at the j-th kept
      position; the kept positions are strictly increasing (list order, each
      element at most once) and are exactly the positions whose element
      satisfies `keep`. */
  lemma {:induction false} FilterByPositions<T>(keep: T -> bool, s: seq<T>)
    ensures |Filter(keep, s)| == |KeptPositions(keep, s)| <= |s|
    ensures forall j :: 0 <= j < |KeptPositions(keep, s)| ==>
      KeptPositions(keep, s)[j] < |s| && keep(s[KeptPositions(keep, s)[j]]) &&
      Filter(keep, s)[j] == s[KeptPositions(keep, s)[j]]
    ensures forall j, k :: 0 <= j < k < |KeptPositions(keep, s)| ==>
      KeptPositions(keep, s)[j] < KeptPositions(keep, s)[k]
    ensures forall i :: 0 <= i < |s| && keep(s[i]) ==> i in KeptPositions(keep, s)
  {
    if s != [] {
      var init := s[..|s| - 1];
      FilterByPositions(keep, init);
      var p := KeptPositions(keep, init);
      assert forall j :: 0 <= j < |p| ==> p[j] < |init|;
      forall i | 0 <= i < |s| && keep(s[i])
        ensures i in KeptPositions(keep, s)
      {
        if i < |init| {
          assert init[i] == s[i];
          assert i in p;
        }
      }
    }
  }

  /** Every element a filter keeps satisfies the condition. */
  lemma FilterKeeps<T>(keep: T -> bool, s: seq<T>)
    ensures forall x :: x in Filter(keep, s) ==> keep(x)
  {
    FilterByPositions(keep, s);
    forall x | x in Filter(keep, s) ensures keep(x) {
      var j :| 0 <= j < |Filter(keep, s)| && Filter(keep, s)[j] == x;
    }
  }

  /** A filter that keeps every element returns the list unchanged. */
  lemma {:induction false} FilterKeepsAll<T>(keep: T -> bool, s: seq<T>)
    requires forall i :: 0 <= i < |s| ==> keep(s[i])
    ensures Filter(keep, s) == s
  {
    if s != [] {
      FilterKeepsAll(keep, s[..|s| - 1]);
      assert s[..|s| - 1] + [s[|s| - 1]] == s;
    }
  }

  /** Filtering a concatenation filters each part. */
  lemma {:induction false} FilterAppend<T>(keep: T -> bool, a: seq<T>, b: seq<T>)
    ensures Filter(keep, a + b) == Filter(keep, a) + Filter(keep, b)
  {
    if b == [] {
      assert a + b == a;
    } else {
      var init := b[..|b| - 1];
      FilterAppend(keep, a, init);
      assert (a + b)[..|a + b| - 1] == a + init;
      assert (a + b)[|a + b| - 1] == b[|b| - 1];
    }
  }
}
