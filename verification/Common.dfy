/** Datatypes and small predicates every other module of the model uses. */
module Common {

  /** A Go value that may be absent: a nil pointer, a zero time, a missing map entry. */
  datatype Option<+T> = None | Some(value: T)

  /** A Go (value, error) pair of which exactly one half is meaningful. */
  datatype Result<+T, +E> = Ok(value: T) | Err(error: E)

  ghost predicate Distinct<T>(s: seq<T>) {
    forall i, j :: 0 <= i < j < |s| ==> s[i] != s[j]
  }

  /** The elements of a sequence, forgetting order and multiplicity. */
  function Elements<T>(s: seq<T>): set<T> {
    set x | x in s
  }

  /** A sequence without repetitions is as long as its set of elements. */
  lemma {:induction false} DistinctLength<T>(s: seq<T>)
    requires Distinct(s)
    ensures |Elements(s)| == |s|
  {
    if s == [] {
      assert Elements(s) == {};
    } else {
      var front, last := s[..|s| - 1], s[|s| - 1];
      assert s == front + [last];
      DistinctLength(front);
      assert last !in front;
      assert Elements(s) == Elements(front) + {last};
    }
  }
}
