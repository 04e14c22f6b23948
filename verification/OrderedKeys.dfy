/** Keys in the order in which ordered maps and sets are traversed. */
module OrderedKeys {
  /** Lexicographic order. */
  predicate Less(a: string, b: string) {
    b != [] && (a == [] || a[0] < b[0] || (a[0] == b[0] && Less(a[1..], b[1..])))
  }

  lemma {:induction false} LessIrreflexive(a: string)
    ensures !Less(a, a)
  {
    if a != [] { LessIrreflexive(a[1..]); }
  }

  lemma {:induction false} LessTransitive(a: string, b: string, c: string)
    requires Less(a, b) && Less(b, c)
    ensures Less(a, c)
  {
    if a != [] && a[0] == b[0] == c[0] { LessTransitive(a[1..], b[1..], c[1..]); }
  }

  lemma {:induction false} LessTotal(a: string, b: string)
    ensures Less(a, b) || a == b || Less(b, a)
  {
    if a != [] && b != [] && a[0] == b[0] {
      LessTotal(a[1..], b[1..]);
      assert a == [a[0]] + a[1..] && b == [b[0]] + b[1..];
    }
  }

  /** `a` and `b` agree before `k`, where `a` ends or has the smaller character. */
  ghost predicate DifferAt(a: string, b: string, k: nat) {
    && k <= |a| && k < |b| && a[..k] == b[..k]
    && (k == |a| || a[k] < b[k])
  }

  /** The order is decided by the first place where the strings differ. */
  lemma {:induction false} LessExactly(a: string, b: string)
    ensures Less(a, b) <==> exists k: nat :: DifferAt(a, b, k)
  {
    forall k: nat | DifferAt(a, b, k) && k > 0 ensures a[0] == b[0] {
      assert a[..k][0] == a[0] && b[..k][0] == b[0];
    }
    if b != [] && a == [] {
      assert DifferAt(a, b, 0);
    } else if b != [] && a[0] == b[0] {
      LessExactly(a[1..], b[1..]);
      if k: nat :| DifferAt(a[1..], b[1..], k) {
        assert a[..k + 1] == [a[0]] + a[1..][..k] && b[..k + 1] == [b[0]] + b[1..][..k];
        assert DifferAt(a, b, k + 1);
      }
      if k: nat :| DifferAt(a, b, k) {
        assert k > 0 && a[1..][..k - 1] == a[..k][1..] && b[1..][..k - 1] == b[..k][1..];
        assert DifferAt(a[1..], b[1..], k - 1);
      }
    } else if b != [] {
      assert a[0] < b[0] ==> DifferAt(a, b, 0);
    }
  }

  ghost predicate Ascending(ks: seq<string>) {
    forall i, j :: 0 <= i < j < |ks| ==> Less(ks[i], ks[j])
  }

  /** Exactly these keys, in ascending order. */
  ghost predicate Lists(ks: seq<string>, keys: set<string>) {
    Ascending(ks) && forall k :: k in ks <==> k in keys
  }

  function Insert(ks: seq<string>, k: string): seq<string> {
    if ks == [] || Less(k, ks[0]) then [k] + ks else [ks[0]] + Insert(ks[1..], k)
  }

  lemma {:induction false} InsertElements(ks: seq<string>, k: string)
    ensures forall x :: x in Insert(ks, k) <==> x == k || x in ks
  {
    if ks != [] && !Less(k, ks[0]) {
      InsertElements(ks[1..], k);
      assert ks == [ks[0]] + ks[1..];
    }
  }

  lemma {:induction false} AscendingCons(k: string, ks: seq<string>)
    requires Ascending(ks) && forall x :: x in ks ==> Less(k, x)
    ensures Ascending([k] + ks)
  {
    var all := [k] + ks;
    forall i, j | 0 <= i < j < |all| ensures Less(all[i], all[j]) {
      assert all[j] == ks[j - 1] && all[j] in ks;
      if i > 0 { assert all[i] == ks[i - 1]; }
    }
  }

  lemma {:induction false} InsertAscending(ks: seq<string>, k: string)
    requires Ascending(ks) && k !in ks
    ensures Ascending(Insert(ks, k))
  {
    if ks != [] {
      if Less(k, ks[0]) {
        forall x | x in ks ensures Less(k, x) {
          var i :| 0 <= i < |ks| && ks[i] == x;
          if i > 0 { LessTransitive(k, ks[0], x); }
        }
        AscendingCons(k, ks);
      } else {
        LessTotal(k, ks[0]);
        InsertAscending(ks[1..], k);
        InsertElements(ks[1..], k);
        AscendingCons(ks[0], Insert(ks[1..], k));
      }
    }
  }

  lemma {:induction false} InsertLists(ks: seq<string>, keys: set<string>, k: string)
    requires Lists(ks, keys) && k !in keys
    ensures Lists(Insert(ks, k), keys + {k})
  {
    InsertAscending(ks, k);
    InsertElements(ks, k);
  }

  lemma {:induction false} TailLists(ks: seq<string>, keys: set<string>)
    requires ks != [] && Lists(ks, keys)
    ensures Lists(ks[1..], keys - {ks[0]})
  {
    LessIrreflexive(ks[0]);
    assert ks == [ks[0]] + ks[1..];
  }

  lemma {:induction false} EmptyExactly(ks: seq<string>, keys: set<string>)
    requires Lists(ks, keys)
    ensures ks == [] <==> keys == {}
  {
    if ks != [] {
      assert ks[0] in keys;
    }
  }

  /** There is one such list. */
  lemma {:induction false} ListsUnique(a: seq<string>, b: seq<string>, keys: set<string>)
    requires Lists(a, keys) && Lists(b, keys)
    ensures a == b
  {
    EmptyExactly(a, keys);
    EmptyExactly(b, keys);
    if a != [] {
      SameHead(a, b, keys);
      TailLists(a, keys);
      TailLists(b, keys);
      ListsUnique(a[1..], b[1..], keys - {a[0]});
      assert a == [a[0]] + a[1..] && b == [b[0]] + b[1..];
    }
  }

  lemma {:induction false} SameHead(a: seq<string>, b: seq<string>, keys: set<string>)
    requires a != [] && b != [] && Lists(a, keys) && Lists(b, keys)
    ensures a[0] == b[0]
  {
    assert a[0] in keys && b[0] in keys;
    var i :| 0 <= i < |b| && b[i] == a[0];
    var j :| 0 <= j < |a| && a[j] == b[0];
    if i > 0 && j > 0 {
      LessTransitive(a[0], b[0], a[0]);
      LessIrreflexive(a[0]);
    }
  }

  ghost function Sorted(keys: set<string>): (ks: seq<string>)
    ensures Lists(ks, keys)
  {
    if keys == {} then []
    else
      var k :| k in keys;
      var rest := Sorted(keys - {k});
      InsertLists(rest, keys - {k}, k);
      assert keys - {k} + {k} == keys;
      Insert(rest, k)
  }

  /** The traversal order of an ordered map or set with these keys. */
  method InOrder(keys: set<string>) returns (ks: seq<string>)
    ensures ks == Sorted(keys)
    ensures Lists(ks, keys)
  {
    ks := [];
    var todo := keys;
    while todo != {}
      invariant todo <= keys && Lists(ks, keys - todo)
      decreases |todo|
    {
      var k :| k in todo;
      InsertLists(ks, keys - todo, k);
      ks := Insert(ks, k);
      assert keys - todo + {k} == keys - (todo - {k});
      todo := todo - {k};
    }
    assert keys - todo == keys;
    ListsUnique(ks, Sorted(keys), keys);
  }
}
