/** Vocabulary shared by the models: optional values, results, and sequences. */
module Base {
  datatype Option<+T> = None | Some(value: T)

  datatype Result<+T, +E> = Ok(value: T) | Err(error: E)

  const U32_MAX: nat := 0xFFFF_FFFF
  const U64_MAX: nat := 0xFFFF_FFFF_FFFF_FFFF

  ghost predicate Distinct<T>(s: seq<T>) {
    forall i, j :: 0 <= i < j < |s| ==> s[i] != s[j]
  }

  /** Concatenation of the parts, in order. */
  function Flatten<T>(parts: seq<seq<T>>): seq<T> {
    if parts == [] then [] else Flatten(parts[..|parts| - 1]) + parts[|parts| - 1]
  }

  /** The elements of `s` that belong to `keep`, in the order of `s`. */
  function Select<T(==)>(s: seq<T>, keep: set<T>): (r: seq<T>)
    ensures |r| <= |s|
    ensures forall x :: x in r ==> x in s && x in keep
    ensures forall x :: x in s && x in keep ==> x in r
  {
    if s == [] then []
    else if s[0] in keep then [s[0]] + Select(s[1..], keep)
    else Select(s[1..], keep)
  }

  /** `s` without its first occurrence of `x`. */
  function RemoveFirst<T(==)>(s: seq<T>, x: T): (r: seq<T>)
    requires x in s
    ensures multiset(r) + multiset{x} == multiset(s)
    ensures |r| + 1 == |s|
  {
    if s[0] == x then
      assert s == [s[0]] + s[1..];
      s[1..]
    else
      assert s == [s[0]] + s[1..];
      [s[0]] + RemoveFirst(s[1..], x)
  }

  lemma {:induction false} FlattenAppend<T>(parts: seq<seq<T>>, last: seq<T>)
    ensures Flatten(parts + [last]) == Flatten(parts) + last
  {
    assert (parts + [last])[..|parts|] == parts;
  }

  lemma {:induction false} FlattenUpTo<T>(parts: seq<seq<T>>, k: nat)
    requires k < |parts|
    ensures Flatten(parts[..k + 1]) == Flatten(parts[..k]) + parts[k]
  {
    assert parts[..k + 1] == parts[..k] + [parts[k]];
    FlattenAppend(parts[..k], parts[k]);
  }

  lemma {:induction false} FlattenMember<T>(parts: seq<seq<T>>, x: T)
    ensures x in Flatten(parts) <==> exists k :: 0 <= k < |parts| && x in parts[k]
  {
    if parts != [] {
      var n := |parts| - 1;
      FlattenMember(parts[..n], x);
      assert x in Flatten(parts) <==> x in Flatten(parts[..n]) || x in parts[n];
      if k :| 0 <= k < |parts| && x in parts[k] {
        if k < n { assert x in parts[..n][k]; }
      }
    }
  }

  lemma {:induction false} DistinctConcat<T>(a: seq<T>, b: seq<T>)
    requires Distinct(a) && Distinct(b) && forall x :: x in b ==> x !in a
    ensures Distinct(a + b)
  {
    forall i, j | 0 <= i < j < |a + b| ensures (a + b)[i] != (a + b)[j] {
      if i < |a| <= j { assert b[j - |a|] in b; }
    }
  }

  lemma {:induction false} SelectDistinct<T>(s: seq<T>, keep: set<T>)
    requires Distinct(s)
    ensures Distinct(Select(s, keep))
  {
    if s != [] {
      SelectDistinct(s[1..], keep);
      assert s[0] !in s[1..];
    }
  }

  lemma {:induction false} SelectTwice<T>(s: seq<T>, a: set<T>, b: set<T>)
    ensures Select(Select(s, a), b) == Select(s, a * b)
  {
    if s != [] {
      SelectTwice(s[1..], a, b);
      var rest := Select(s[1..], a);
      if s[0] in a { assert ([s[0]] + rest)[1..] == rest; }
    }
  }

  lemma {:induction false} SelectSame<T>(s: seq<T>, a: set<T>, b: set<T>)
    requires forall x :: x in s ==> (x in a <==> x in b)
    ensures Select(s, a) == Select(s, b)
  {
    if s != [] { SelectSame(s[1..], a, b); }
  }

  lemma {:induction false} SelectAll<T>(s: seq<T>, a: set<T>)
    requires forall x :: x in s ==> x in a
    ensures Select(s, a) == s
  {
    if s != [] { SelectAll(s[1..], a); }
  }

  /** A sequence without repetition is no longer than a set that holds its elements. */
  lemma {:induction false} DistinctBound<T>(s: seq<T>, within: set<T>)
    requires Distinct(s)
    requires forall x :: x in s ==> x in within
    ensures |s| <= |within|
  {
    if s != [] {
      var n := |s| - 1;
      forall x | x in s[..n] ensures x in within - {s[n]} {}
      DistinctBound(s[..n], within - {s[n]});
    }
  }
}
