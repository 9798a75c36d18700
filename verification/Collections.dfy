/** Optional values, paths, and the queue operations the workflow performs on lists of names. */
module Collections {

  datatype Option<+T> = None | Some(value: T)

  datatype Result<+T, +E> = Ok(value: T) | Err(error: E)

  // The parts of a file path.
  type Path = seq<string>

  function Last<T>(s: seq<T>): T
    requires s != []
  {
    s[|s| - 1]
  }

  predicate NoDuplicates<T(==)>(s: seq<T>) {
    forall i, j :: 0 <= i < j < |s| ==> s[i] != s[j]
  }

  // The list comprehension `[x for x in s if x != gone]`.
  function Without<T(==,!new)>(s: seq<T>, gone: T): (r: seq<T>)
    ensures |r| <= |s|
    ensures forall x :: x in r <==> x in s && x != gone
  {
    if s == [] then []
    else if s[0] == gone then Without(s[1..], gone)
    else [s[0]] + Without(s[1..], gone)
  }

  // Each name once, in order of first occurrence.
  function Distinct<T(==,!new)>(s: seq<T>): (r: seq<T>)
    ensures forall x :: x in r <==> x in s
    ensures s != [] ==> r != [] && r[0] == s[0]
    decreases |s|
  {
    if s == [] then [] else [s[0]] + Distinct(Without(s[1..], s[0]))
  }

  lemma {:induction false} DistinctHasNoDuplicates<T(!new)>(s: seq<T>)
    ensures NoDuplicates(Distinct(s))
    decreases |s|
  {
    if s != [] {
      var rest := Without(s[1..], s[0]);
      DistinctHasNoDuplicates(rest);
      assert s[0] !in Distinct(rest);
    }
  }

  lemma {:induction false} WithoutAbsent<T(!new)>(s: seq<T>, gone: T)
    requires gone !in s
    ensures Without(s, gone) == s
  {
    if s != [] {
      WithoutAbsent(s[1..], gone);
    }
  }

  lemma {:induction false} DistinctOfNoDuplicates<T(!new)>(s: seq<T>)
    requires NoDuplicates(s)
    ensures Distinct(s) == s
  {
    if s != [] {
      WithoutAbsent(s[1..], s[0]);
      DistinctOfNoDuplicates(s[1..]);
    }
  }
}
