/** Shared vocabulary: options, paths as component sequences, duplicate-free sequences, a family of distinct paths. */
module Base {

  datatype Option<+T> = None | Some(value: T)

  /** An absolute path: its components below the root, outermost first. */
  type Path = seq<string>

  function Elems<T(==)>(s: seq<T>): set<T> {
    set x | x in s
  }

  ghost predicate Distinct<T(!new)>(s: seq<T>) {
    forall i, j :: 0 <= i < j < |s| ==> s[i] != s[j]
  }

  lemma DistinctAppend<T(!new)>(s: seq<T>, x: T)
    requires Distinct(s) && x !in s
    ensures Distinct(s + [x])
  {
  }

  lemma DistinctPrepend<T(!new)>(s: seq<T>, x: T)
    requires Distinct(s) && x !in s
    ensures Distinct([x] + s)
  {
  }

  /** Removing the first element of a duplicate-free sequence removes that value. */
  lemma DistinctTail<T(!new)>(s: seq<T>)
    requires Distinct(s) && s != []
    ensures Distinct(s[1..]) && s[0] !in s[1..]
    ensures forall x :: x in s <==> x == s[0] || x in s[1..]
  {
    assert s == [s[0]] + s[1..];
  }

  /** Removing the last element of a duplicate-free sequence removes that value. */
  lemma DistinctInit<T(!new)>(s: seq<T>)
    requires Distinct(s) && s != []
    ensures Distinct(s[..|s| - 1]) && s[|s| - 1] !in s[..|s| - 1]
    ensures forall x :: x in s <==> x == s[|s| - 1] || x in s[..|s| - 1]
  {
    assert s == s[..|s| - 1] + [s[|s| - 1]];
  }

  /** Inserting a value at any place adds that value and nothing else. */
  lemma InsertedOnce<T(!new)>(s: seq<T>, x: T, k: nat)
    requires k <= |s|
    ensures forall y :: y in s[..k] + [x] + s[k..] <==> y in s || y == x
    ensures Distinct(s) && x !in s ==> Distinct(s[..k] + [x] + s[k..])
  {
    assert s == s[..k] + s[k..];
    assert forall y :: y in s <==> y in s[..k] || y in s[k..];
  }

  /** The k-th of a family of distinct paths. */
  function Nth(k: nat): Path {
    [seq(k, _ => 'a')]
  }

  function FirstPaths(n: nat): (ps: seq<Path>)
    ensures |ps| == n && forall k :: 0 <= k < n ==> ps[k] == Nth(k)
  {
    seq(n, k requires 0 <= k < n => Nth(k))
  }

  lemma NthInjective(j: nat, k: nat)
    ensures Nth(j) == Nth(k) ==> j == k
  {
    assert |Nth(j)[0]| == j && |Nth(k)[0]| == k;
  }

  lemma NotYet(k: nat)
    ensures Nth(k) !in FirstPaths(k)
  {
    if Nth(k) in FirstPaths(k) {
      var j :| 0 <= j < k && FirstPaths(k)[j] == Nth(k);
      NthInjective(j, k);
    }
  }
}
