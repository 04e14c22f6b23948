/** The bounded least-recently-used cache, and inclusion between capacities. */
module Cache {
  import opened Base

  datatype Entry<+K, +V> = Entry(key: K, value: V)

  datatype Command<+K, +V> = Put(key: K, value: V) | Get(key: K) | Remove(key: K)

  datatype Reply<+K, +V> =
    | Stored(key: K, replaced: Option<V>, evicted: Option<Entry<K, V>>)
    | Hit(key: K, value: V)
    | Miss(key: K)
    | Removed(key: K, value: V)
    | Absent(key: K)

  /** The value of the first entry at a key; entries run from least to most recently used. */
  function Find<K(==), V>(entries: seq<Entry<K, V>>, key: K): Option<V> {
    if entries == [] then None
    else if entries[0].key == key then Some(entries[0].value)
    else Find(entries[1..], key)
  }

  function Without<K(==), V>(entries: seq<Entry<K, V>>, key: K): (r: seq<Entry<K, V>>)
    ensures |r| == |entries| - if Find(entries, key).Some? then 1 else 0
    ensures Find(entries, key) == None ==> r == entries
    ensures forall e :: e in r ==> e in entries
  {
    if entries == [] then []
    else if entries[0].key == key then entries[1..]
    else [entries[0]] + Without(entries[1..], key)
  }

  function Step<K(==), V>(capacity: nat, entries: seq<Entry<K, V>>, c: Command<K, V>)
    : (seq<Entry<K, V>>, Reply<K, V>)
  {
    var found := Find(entries, c.key);
    var others := Without(entries, c.key);
    match c
    case Put(key, value) =>
      if found == None && |entries| == capacity && entries != []
      then (entries[1..] + [Entry(key, value)], Stored(key, None, Some(entries[0])))
      else (others + [Entry(key, value)], Stored(key, found, None))
    case Get(key) =>
      (match found
       case None => (entries, Miss(key))
       case Some(value) => (others + [Entry(key, value)], Hit(key, value)))
    case Remove(key) =>
      (match found
       case None => (entries, Absent(key))
       case Some(value) => (others, Removed(key, value)))
  }

  ghost predicate DistinctKeys<K, V>(entries: seq<Entry<K, V>>) {
    forall i, j :: 0 <= i < j < |entries| ==> entries[i].key != entries[j].key
  }

  ghost predicate Sound<K, V>(capacity: nat, entries: seq<Entry<K, V>>) {
    |entries| <= capacity && DistinctKeys(entries)
  }

  class LruCache<K(==), V> {
    const capacity: nat
    var entries: seq<Entry<K, V>>

    ghost predicate Valid() reads this { capacity > 0 && Sound(capacity, entries) }

    constructor (capacity: nat)
      requires capacity > 0
      ensures Valid() && this.capacity == capacity && entries == []
    {
      this.capacity := capacity;
      entries := [];
    }

    /** The first position of a key, or the number of entries. */
    method Position(key: K) returns (at: nat)
      ensures at <= |entries|
      ensures at < |entries| ==> entries[at].key == key && Find(entries, key) == Some(entries[at].value)
      ensures at < |entries| ==> Without(entries, key) == entries[..at] + entries[at + 1..]
      ensures at == |entries| ==> Find(entries, key) == None
    {
      at := 0;
      while at < |entries| && entries[at].key != key
        invariant at <= |entries|
        invariant forall i :: 0 <= i < at ==> entries[i].key != key
      {
        at := at + 1;
      }
      FindAt(entries, key, at);
    }

    method Transition(c: Command<K, V>) returns (reply: Reply<K, V>)
      requires Valid()
      modifies this
      ensures (entries, reply) == Step(capacity, old(entries), c)
      ensures Valid()
    {
      StepSound(capacity, entries, c);
      var at := Position(c.key);
      match c
      case Put(key, value) =>
        var replaced, evicted := None, None;
        if at < |entries| {
          replaced := Some(entries[at].value);
          entries := entries[..at] + entries[at + 1..];
        } else if |entries| == capacity {
          evicted := Some(entries[0]);
          entries := entries[1..];
        }
        entries := entries + [Entry(key, value)];
        reply := Stored(key, replaced, evicted);
      case Get(key) =>
        if at == |entries| {
          return Miss(key);
        }
        var entry := entries[at];
        entries := entries[..at] + entries[at + 1..] + [entry];
        reply := Hit(key, entry.value);
      case Remove(key) =>
        if at == |entries| {
          return Absent(key);
        }
        reply := Removed(key, entries[at].value);
        entries := entries[..at] + entries[at + 1..];
    }
  }

  lemma {:induction false} FindAt<K, V>(entries: seq<Entry<K, V>>, key: K, at: nat)
    requires at <= |entries| && forall i :: 0 <= i < at ==> entries[i].key != key
    requires at < |entries| ==> entries[at].key == key
    ensures Find(entries, key) == if at < |entries| then Some(entries[at].value) else None
    ensures at < |entries| ==> Without(entries, key) == entries[..at] + entries[at + 1..]
  {
    if 0 < at {
      FindAt(entries[1..], key, at - 1);
      if at < |entries| {
        assert [entries[0]] + (entries[1..][..at - 1] + entries[1..][at..]) == entries[..at] + entries[at + 1..];
      }
    }
  }

  lemma {:induction false} FindNone<K, V>(entries: seq<Entry<K, V>>, key: K)
    ensures Find(entries, key) == None <==> forall i :: 0 <= i < |entries| ==> entries[i].key != key
  {
    if entries != [] {
      FindNone(entries[1..], key);
      if Find(entries, key) == None {
        forall i | 0 <= i < |entries| ensures entries[i].key != key {
          if i > 0 { assert entries[i] == entries[1..][i - 1]; }
        }
      }
    }
  }

  lemma {:induction false} WithoutDistinct<K, V>(entries: seq<Entry<K, V>>, key: K)
    requires DistinctKeys(entries)
    ensures DistinctKeys(Without(entries, key)) && Find(Without(entries, key), key) == None
  {
    if entries != [] {
      WithoutDistinct(entries[1..], key);
      if entries[0].key == key {
        FindNone(entries[1..], key);
      } else {
        var rest := Without(entries[1..], key);
        var all := [entries[0]] + rest;
        forall i, j | 0 <= i < j < |all| ensures all[i].key != all[j].key {
          assert all[j] == rest[j - 1] && rest[j - 1] in entries[1..];
          if i > 0 { assert all[i] == rest[i - 1]; }
        }
        assert all[1..] == rest;
      }
    }
  }

  lemma {:induction false} PushSound<K, V>(capacity: nat, entries: seq<Entry<K, V>>, e: Entry<K, V>)
    requires Sound(capacity, entries) && |entries| < capacity && Find(entries, e.key) == None
    ensures Sound(capacity, entries + [e])
  {
    FindNone(entries, e.key);
  }

  /** No command breaks the capacity bound or stores a key twice. */
  lemma {:induction false} StepSound<K, V>(capacity: nat, entries: seq<Entry<K, V>>, c: Command<K, V>)
    requires capacity > 0 && Sound(capacity, entries)
    ensures Sound(capacity, Step(capacity, entries, c).0)
  {
    var found := Find(entries, c.key);
    WithoutDistinct(entries, c.key);
    FindNone(entries, c.key);
    match c
    case Put(key, value) =>
      if found == None && |entries| == capacity {
        FindNone(entries[1..], key);
        PushSound(capacity, entries[1..], Entry(key, value));
      } else {
        PushSound(capacity, Without(entries, key), Entry(key, value));
      }
    case Get(key) =>
      if found.Some? { PushSound(capacity, Without(entries, key), Entry(key, found.value)); }
    case Remove(_) =>
  }

  // ---------------------------------------------------------------------
  // Inclusion.

  /** `a` can be obtained from `b` by deleting entries. */
  predicate Subsequence<T(==)>(a: seq<T>, b: seq<T>)
    decreases |b|
  {
    a == [] || (b != [] && ((a[0] == b[0] && Subsequence(a[1..], b[1..])) || Subsequence(a, b[1..])))
  }

  lemma {:induction false} SubsequenceTail<T>(a: seq<T>, b: seq<T>)
    requires a != [] && Subsequence(a, b)
    ensures Subsequence(a[1..], b)
    decreases |b|
  {
    if Subsequence(a, b[1..]) { SubsequenceTail(a, b[1..]); }
  }

  lemma {:induction false} SubsequenceAppend<T>(a: seq<T>, b: seq<T>, x: T)
    requires Subsequence(a, b)
    ensures Subsequence(a + [x], b + [x])
    decreases |b|
  {
    if b == [] {
      assert a + [x] == b + [x] == [x] && [x][1..] == [];
    } else {
      assert (b + [x])[1..] == b[1..] + [x];
      if a != [] && a[0] == b[0] && Subsequence(a[1..], b[1..]) {
        SubsequenceAppend(a[1..], b[1..], x);
        assert (a + [x])[1..] == a[1..] + [x];
      } else {
        SubsequenceAppend(a, b[1..], x);
      }
    }
  }

  lemma {:induction false} SubsequenceInto<T>(a: seq<T>, b: seq<T>, x: T)
    requires Subsequence(a, b)
    ensures Subsequence(a, b + [x])
    decreases |b|
  {
    if b != [] {
      assert (b + [x])[1..] == b[1..] + [x];
      if a != [] && a[0] == b[0] && Subsequence(a[1..], b[1..]) {
        SubsequenceInto(a[1..], b[1..], x);
      } else {
        SubsequenceInto(a, b[1..], x);
      }
    }
  }

  lemma {:induction false} SubsequenceFind<K, V>(a: seq<Entry<K, V>>, b: seq<Entry<K, V>>, key: K)
    requires Subsequence(a, b) && DistinctKeys(b) && Find(a, key).Some?
    ensures Find(b, key) == Find(a, key)
    decreases |b|
  {
    if a[0] == b[0] && Subsequence(a[1..], b[1..]) {
      if a[0].key != key { SubsequenceFind(a[1..], b[1..], key); }
    } else {
      SubsequenceFind(a, b[1..], key);
      FindNone(b[1..], key);
      var i :| 0 <= i < |b[1..]| && b[1..][i].key == key;
      assert b[i + 1].key == key;
    }
  }

  lemma {:induction false} SubsequenceWithout<K, V>(a: seq<Entry<K, V>>, b: seq<Entry<K, V>>, key: K)
    requires Subsequence(a, b) && DistinctKeys(b)
    ensures Subsequence(Without(a, key), Without(b, key))
    decreases |b|
  {
    if a != [] {
      var matched := a[0] == b[0] && Subsequence(a[1..], b[1..]);
      if b[0].key == key {
        if !matched {
          FindNone(b[1..], key);
          if Find(a, key).Some? { SubsequenceFind(a, b[1..], key); }
          assert Find(a, key) == None;
        }
      } else if matched {
        SubsequenceWithout(a[1..], b[1..], key);
        var rest := Without(b[1..], key);
        assert ([b[0]] + rest)[1..] == rest;
        assert ([a[0]] + Without(a[1..], key))[1..] == Without(a[1..], key);
      } else {
        SubsequenceWithout(a, b[1..], key);
        var rest := Without(b[1..], key);
        assert ([b[0]] + rest)[1..] == rest;
      }
    }
  }

  /** The smaller cache's entries, with their values and order, occur in the larger cache. */
  ghost predicate Included<K, V>(n: nat, small: seq<Entry<K, V>>, m: nat, large: seq<Entry<K, V>>) {
    Subsequence(small, large) && |large| - |small| <= m - n
  }

  lemma {:induction false} IncludedPut<K, V>(
    n: nat, small: seq<Entry<K, V>>, m: nat, large: seq<Entry<K, V>>, key: K, value: V)
    requires 0 < n <= m && Sound(n, small) && Sound(m, large) && Included(n, small, m, large)
    ensures Included(n, Step(n, small, Put(key, value)).0, m, Step(m, large, Put(key, value)).0)
  {
    SubsequenceWithout(small, large, key);
    var e := Entry(key, value);
    if Find(small, key).Some? {
      SubsequenceFind(small, large, key);
      SubsequenceAppend(Without(small, key), Without(large, key), e);
    } else if |small| < n {
      SubsequenceAppend(small, Without(large, key), e);
    } else {
      SubsequenceTail(small, Without(large, key));
      if Subsequence(small, large[1..]) { SubsequenceTail(small, large[1..]); }
      SubsequenceAppend(small[1..], Without(large, key), e);
      SubsequenceAppend(small[1..], large[1..], e);
    }
  }

  lemma {:induction false} IncludedGet<K, V>(n: nat, small: seq<Entry<K, V>>, m: nat, large: seq<Entry<K, V>>, key: K)
    requires 0 < n <= m && Sound(n, small) && Sound(m, large) && Included(n, small, m, large)
    ensures Included(n, Step(n, small, Get(key)).0, m, Step(m, large, Get(key)).0)
    ensures Find(small, key).Some? ==> Step(n, small, Get(key)).1 == Step(m, large, Get(key)).1
  {
    SubsequenceWithout(small, large, key);
    if Find(small, key).Some? {
      SubsequenceFind(small, large, key);
      SubsequenceAppend(Without(small, key), Without(large, key), Entry(key, Find(small, key).value));
    } else if Find(large, key).Some? {
      SubsequenceInto(small, Without(large, key), Entry(key, Find(large, key).value));
    }
  }

  lemma {:induction false} IncludedRemove<K, V>(
    n: nat, small: seq<Entry<K, V>>, m: nat, large: seq<Entry<K, V>>, key: K)
    requires 0 < n <= m && Sound(n, small) && Sound(m, large) && Included(n, small, m, large)
    ensures Included(n, Step(n, small, Remove(key)).0, m, Step(m, large, Remove(key)).0)
  {
    SubsequenceWithout(small, large, key);
    if Find(small, key).Some? { SubsequenceFind(small, large, key); }
  }

  function Entries<K(==), V>(capacity: nat, commands: seq<Command<K, V>>): seq<Entry<K, V>> {
    if commands == [] then []
    else Step(capacity, Entries(capacity, commands[..|commands| - 1]), commands[|commands| - 1]).0
  }

  lemma {:induction false} SoundAlways<K, V>(capacity: nat, commands: seq<Command<K, V>>)
    requires capacity > 0
    ensures Sound(capacity, Entries(capacity, commands))
  {
    if commands != [] {
      SoundAlways(capacity, commands[..|commands| - 1]);
      StepSound(capacity, Entries(capacity, commands[..|commands| - 1]), commands[|commands| - 1]);
    }
  }

  lemma {:induction false} IncludedAlways<K, V>(n: nat, m: nat, commands: seq<Command<K, V>>)
    requires 0 < n <= m
    ensures Included(n, Entries(n, commands), m, Entries(m, commands))
  {
    if commands != [] {
      var before := commands[..|commands| - 1];
      IncludedAlways(n, m, before);
      SoundAlways(n, before);
      SoundAlways(m, before);
      match commands[|commands| - 1]
      case Put(key, value) => IncludedPut(n, Entries(n, before), m, Entries(m, before), key, value);
      case Get(key) => IncludedGet(n, Entries(n, before), m, Entries(m, before), key);
      case Remove(key) => IncludedRemove(n, Entries(n, before), m, Entries(m, before), key);
    }
  }

  /** After the same commands, whatever the smaller cache hits, the larger one hits with the same value. */
  lemma {:induction false} HitsIncluded<K, V>(n: nat, m: nat, commands: seq<Command<K, V>>, key: K)
    requires 0 < n <= m
    ensures Subsequence(Entries(n, commands), Entries(m, commands))
    ensures var small, large := Step(n, Entries(n, commands), Get(key)).1, Step(m, Entries(m, commands), Get(key)).1;
            small.Hit? ==> large == small
  {
    IncludedAlways(n, m, commands);
    SoundAlways(n, commands);
    SoundAlways(m, commands);
    IncludedGet(n, Entries(n, commands), m, Entries(m, commands), key);
  }

  // ---------------------------------------------------------------------
  // Inclusion as a suffix: exactly when no get is missed by the smaller cache and hit by the larger.

  /** The last entries of `b` are `a`. */
  predicate Suffix<T(==)>(a: seq<T>, b: seq<T>) {
    |a| <= |b| && b[|b| - |a|..] == a
  }

  /** A get that refreshes a key of the larger cache which the smaller one has already evicted. */
  predicate Overtakes<K(==), V>(small: seq<Entry<K, V>>, large: seq<Entry<K, V>>, c: Command<K, V>) {
    c.Get? && small != [] && Find(small, c.key) == None && Find(large, c.key).Some?
  }

  lemma {:induction false} SuffixShorter<T>(a: seq<T>, b: seq<T>)
    requires a != [] && Suffix(a, b)
    ensures Suffix(a[1..], b) && Suffix(a[1..], b[1..])
    ensures |a| < |b| ==> Suffix(a, b[1..])
  {}

  lemma {:induction false} SuffixPush<T>(a: seq<T>, b: seq<T>, x: T)
    requires Suffix(a, b)
    ensures Suffix(a + [x], b + [x])
  {
    assert (b + [x])[|b| - |a|..] == b[|b| - |a|..] + [x];
  }

  /** A longer sequence keeps its suffix when another first entry goes. */
  lemma {:induction false} SuffixStep<K, V>(a: seq<Entry<K, V>>, b: seq<Entry<K, V>>)
    requires |a| < |b|
    ensures Suffix(a, b) <==> Suffix(a, b[1..])
  {
    assert b[|b| - |a|..] == b[1..][|b[1..]| - |a|..];
  }

  lemma {:induction false} SuffixWithout<K, V>(a: seq<Entry<K, V>>, b: seq<Entry<K, V>>, key: K)
    requires Suffix(a, b) && DistinctKeys(b)
    ensures Suffix(Without(a, key), Without(b, key))
    ensures Find(a, key).Some? ==> Find(b, key) == Find(a, key)
    decreases |b|
  {
    if |a| == |b| {
      assert a == b;
    } else {
      SuffixStep(a, b);
      SuffixWithout(a, b[1..], key);
      var rest := Without(b[1..], key);
      if b[0].key == key {
        FindNone(b[1..], key);
        assert Find(a, key) == None && Without(a, key) == a;
      } else {
        var all := [b[0]] + rest;
        assert all[1..] == rest;
        SuffixStep(Without(a, key), all);
      }
    }
  }

  lemma {:induction false} SuffixPut<K, V>(
    n: nat, small: seq<Entry<K, V>>, m: nat, large: seq<Entry<K, V>>, key: K, value: V)
    requires 0 < n <= m && Sound(n, small) && Sound(m, large) && Suffix(small, large)
    ensures Suffix(Step(n, small, Put(key, value)).0, Step(m, large, Put(key, value)).0)
  {
    SuffixWithout(small, large, key);
    var e := Entry(key, value);
    var others := Without(large, key);
    if small != [] {
      SuffixShorter(small, large);
      if Find(small, key) == None { SuffixShorter(small, others); }
    }
    if Find(small, key).Some? || |small| < n {
      if Find(large, key) == None && |large| == m {
        SuffixStep(small, large);
        SuffixPush(small, large[1..], e);
      } else {
        SuffixPush(Without(small, key), others, e);
      }
    } else {
      SuffixPush(small[1..], others, e);
      SuffixPush(small[1..], large[1..], e);
    }
  }

  /** The smaller cache's last entry stays last only if the larger one does not refresh another key. */
  lemma {:induction false} SuffixGet<K, V>(n: nat, small: seq<Entry<K, V>>, m: nat, large: seq<Entry<K, V>>, key: K)
    requires Sound(n, small) && Sound(m, large) && Suffix(small, large)
    ensures Suffix(Step(n, small, Get(key)).0, Step(m, large, Get(key)).0) <==> !Overtakes(small, large, Get(key))
  {
    SuffixWithout(small, large, key);
    if Find(small, key).Some? {
      SuffixPush(Without(small, key), Without(large, key), Entry(key, Find(small, key).value));
    } else if Find(large, key).Some? && small != [] {
      FindNone(small, key);
      var next := Step(m, large, Get(key)).0;
      assert next[|next| - 1].key == key && small[|small| - 1].key != key;
      assert next[|next| - |small|..][|small| - 1] == next[|next| - 1];
    }
  }

  /** One command keeps the suffix relation exactly when it is not such a get. */
  lemma {:induction false} SuffixKeptExactly<K, V>(
    n: nat, small: seq<Entry<K, V>>, m: nat, large: seq<Entry<K, V>>, c: Command<K, V>)
    requires 0 < n <= m && Sound(n, small) && Sound(m, large) && Suffix(small, large)
    ensures Suffix(Step(n, small, c).0, Step(m, large, c).0) <==> !Overtakes(small, large, c)
  {
    match c
    case Put(key, value) => SuffixPut(n, small, m, large, key, value);
    case Get(key) => SuffixGet(n, small, m, large, key);
    case Remove(key) => SuffixWithout(small, large, key);
  }

  ghost predicate OvertakesAt<K, V>(n: nat, m: nat, commands: seq<Command<K, V>>, i: nat)
    requires i < |commands|
  {
    Overtakes(Entries(n, commands[..i]), Entries(m, commands[..i]), commands[i])
  }

  ghost predicate SuffixAt<K, V>(n: nat, m: nat, commands: seq<Command<K, V>>, i: nat)
    requires i <= |commands|
  {
    Suffix(Entries(n, commands[..i]), Entries(m, commands[..i]))
  }

  /** From a moment in suffix relation, the next one is exactly when the command does not overtake. */
  lemma {:induction false} SuffixNext<K, V>(n: nat, m: nat, commands: seq<Command<K, V>>, i: nat)
    requires 0 < n <= m && i < |commands| && SuffixAt(n, m, commands, i)
    ensures SuffixAt(n, m, commands, i + 1) <==> !OvertakesAt(n, m, commands, i)
  {
    SoundAlways(n, commands[..i]);
    SoundAlways(m, commands[..i]);
    assert commands[..i + 1][..i] == commands[..i];
    SuffixKeptExactly(n, Entries(n, commands[..i]), m, Entries(m, commands[..i]), commands[i]);
  }

  lemma {:induction false} SuffixUpTo<K, V>(n: nat, m: nat, commands: seq<Command<K, V>>, k: nat)
    requires 0 < n <= m && k <= |commands|
    requires forall i :: 0 <= i < k ==> !OvertakesAt(n, m, commands, i)
    ensures SuffixAt(n, m, commands, k)
  {
    if k > 0 {
      SuffixUpTo(n, m, commands, k - 1);
      SuffixNext(n, m, commands, k - 1);
    }
  }

  /**
   * Over every run: the smaller cache is a suffix of the larger one at every moment exactly when no
   * get was missed by the smaller cache, not empty then, and hit by the larger.
   */
  lemma {:induction false} SuffixExactly<K, V>(n: nat, m: nat, commands: seq<Command<K, V>>)
    requires 0 < n <= m
    ensures (forall k :: 0 <= k <= |commands| ==> SuffixAt(n, m, commands, k))
            <==> (forall i :: 0 <= i < |commands| ==> !OvertakesAt(n, m, commands, i))
  {
    if forall i :: 0 <= i < |commands| ==> !OvertakesAt(n, m, commands, i) {
      forall k | 0 <= k <= |commands| ensures SuffixAt(n, m, commands, k) {
        SuffixUpTo(n, m, commands, k);
      }
    }
    if forall k :: 0 <= k <= |commands| ==> SuffixAt(n, m, commands, k) {
      forall i | 0 <= i < |commands| ensures !OvertakesAt(n, m, commands, i) {
        assert SuffixAt(n, m, commands, i + 1);
        SuffixNext(n, m, commands, i);
      }
    }
  }

  /** After two puts a get of the older key leaves capacity one with an entry that is not last in capacity two. */
  lemma {:induction false} NotAlwaysSuffix()
    ensures var commands := [Put(1, 10), Put(2, 20), Get(1)];
            && Entries(1, commands) == [Entry(2, 20)]
            && Entries(2, commands) == [Entry(2, 20), Entry(1, 10)]
            && !Suffix(Entries(1, commands), Entries(2, commands))
  {
    var first, second: seq<Command<int, int>> := [Put(1, 10)], [Put(1, 10), Put(2, 20)];
    var commands := [Put(1, 10), Put(2, 20), Get(1)];
    assert commands[..2] == second && second[..1] == first && first[..0] == [];
    assert Entries(1, first) == [Entry(1, 10)] == Entries(2, first);
    assert Entries(1, second) == [Entry(2, 20)] && Entries(2, second) == [Entry(1, 10), Entry(2, 20)];
  }
}
