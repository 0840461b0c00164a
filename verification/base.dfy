/** Small shared vocabulary: optional values, failure-carrying results and the
    sequence facts (duplicates, first-occurrence removal, order-preserving
    sub-sequences) that the registry and the label encoding both rely on. */
module Base {

  /** A value that may be absent: Python's `None`, JavaScript's `null`/`undefined`. */
  datatype Option<+T> = None | Some(value: T)

  /** The outcome of a step that may raise (an `IndexError`, an explicit `raise`). */
  datatype Result<+T> = Ok(value: T) | Raised(error: string)

  /** No element occurs twice. */
  predicate NoDuplicates<T(==)>(s: seq<T>)
  {
    forall i, j :: 0 <= i < j < |s| ==> s[i] != s[j]
  }

  /** Position of the first occurrence of `x`. */
  function IndexOf<T(==)>(s: seq<T>, x: T): (k: nat)
    requires x in s
    ensures k < |s| && s[k] == x
    ensures x !in s[..k]
  {
    if s[0] == x then 0 else 1 + IndexOf(s[1..], x)
  }

  /** Python's `list.remove(x)` guarded by `if x in list`: drops the FIRST
      occurrence of `x` and leaves a list without `x` untouched. */
  function RemoveFirst<T(==)>(s: seq<T>, x: T): (r: seq<T>)
    ensures x !in s ==> r == s
    ensures x in s ==> |r| == |s| - 1
    ensures x in s ==> forall i :: 0 <= i < |r| ==> r[i] == if i < IndexOf(s, x) then s[i] else s[i + 1]
  {
    if x in s then s[..IndexOf(s, x)] + s[IndexOf(s, x) + 1..] else s
  }

  /** Removing the first occurrence from a duplicate-free list removes the
      element altogether, keeps every other element and keeps the list
      duplicate-free. */
  lemma RemoveFirstFromDistinct<T>(s: seq<T>, x: T)
    requires NoDuplicates(s)
    ensures x !in RemoveFirst(s, x)
    ensures NoDuplicates(RemoveFirst(s, x))
    ensures forall y :: y != x ==> (y in RemoveFirst(s, x) <==> y in s)
  {
    if x in s {
      RemovedAbsent(s, x);
      RemovedDistinct(s, x);
      RemovedKeepsOthers(s, x);
    }
  }

  lemma RemovedAbsent<T>(s: seq<T>, x: T)
    requires NoDuplicates(s) && x in s
    ensures x !in RemoveFirst(s, x)
  {
    var k := IndexOf(s, x);
    var r := RemoveFirst(s, x);
    forall i | 0 <= i < |r| ensures r[i] != x {
      if i < k { assert s[i] != s[k]; } else { assert s[i + 1] != s[k]; }
    }
  }

  lemma RemovedDistinct<T>(s: seq<T>, x: T)
    requires NoDuplicates(s) && x in s
    ensures NoDuplicates(RemoveFirst(s, x))
  {
    var k := IndexOf(s, x);
    var r := RemoveFirst(s, x);
    forall i, j | 0 <= i < j < |r| ensures r[i] != r[j] {
      if j < k {
        DistinctAt(s, i, j);
      } else if i < k {
        DistinctAt(s, i, j + 1);
      } else {
        DistinctAt(s, i + 1, j + 1);
      }
    }
  }

  lemma DistinctAt<T>(s: seq<T>, i: nat, j: nat)
    requires NoDuplicates(s) && i < j < |s|
    ensures s[i] != s[j]
  {
  }

  lemma RemovedKeepsOthers<T>(s: seq<T>, x: T)
    requires x in s
    ensures forall y :: y != x ==> (y in RemoveFirst(s, x) <==> y in s)
  {
    var k := IndexOf(s, x);
    assert RemoveFirst(s, x) == s[..k] + s[k + 1..];
    assert s == s[..k] + [s[k]] + s[k + 1..];
  }

  /** Appending an element not yet present keeps a list duplicate-free. */
  lemma AppendFresh<T>(s: seq<T>, x: T)
    requires NoDuplicates(s)
    requires x !in s
    ensures NoDuplicates(s + [x])
  {
  }

  /** `a` is obtained from `b` by deleting elements: the survivors keep their
      relative order. */
  predicate IsSubsequence<T(==)>(a: seq<T>, b: seq<T>)
    decreases |b|
  {
    if |a| == 0 then true
    else if |b| == 0 then false
    else (a[0] == b[0] && IsSubsequence(a[1..], b[1..])) || IsSubsequence(a, b[1..])
  }

  /** Every element of a sub-sequence comes from the sequence it was cut from. */
  lemma {:induction false} SubsequenceElements<T>(a: seq<T>, b: seq<T>)
    requires IsSubsequence(a, b)
    ensures forall x :: x in a ==> x in b
    ensures |a| <= |b|
    decreases |b|
  {
    if |a| > 0 {
      if a[0] == b[0] && IsSubsequence(a[1..], b[1..]) {
        SubsequenceElements(a[1..], b[1..]);
        assert forall x :: x in a ==> x == a[0] || x in a[1..];
      } else {
        SubsequenceElements(a, b[1..]);
      }
    }
  }
}
