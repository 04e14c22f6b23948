/** The cache against a plain map of values and times of last use. */
module CacheRecency {
  import opened Base
  import opened Cache

  /** The value at a key and when the key was last stored or hit. */
  datatype Use<+V> = Use(value: V, time: nat)

  ghost predicate Oldest<K(!new), V>(m: map<K, Use<V>>, key: K) {
    key in m && forall k :: k in m ==> m[key].time <= m[k].time
  }

  /** What a map that remembers times of last use answers to a command at time `now`, and becomes. */
  ghost predicate Serves<K(!new), V>(
    capacity: nat, m: map<K, Use<V>>, now: nat, c: Command<K, V>, next: map<K, Use<V>>, reply: Reply<K, V>)
  {
    match c
    case Put(key, value) =>
      if key in m then next == m[key := Use(value, now)] && reply == Stored(key, Some(m[key].value), None)
      else if |m.Keys| < capacity then next == m[key := Use(value, now)] && reply == Stored(key, None, None)
      else exists victim :: && Oldest(m, victim) && next == (m - {victim})[key := Use(value, now)]
                         && reply == Stored(key, None, Some(Entry(victim, m[victim].value)))
    case Get(key) =>
      if key in m then next == m[key := Use(m[key].value, now)] && reply == Hit(key, m[key].value)
      else next == m && reply == Miss(key)
    case Remove(key) =>
      if key in m then next == m - {key} && reply == Removed(key, m[key].value)
      else next == m && reply == Absent(key)
  }

  ghost predicate Holds<K, V>(entries: seq<Entry<K, V>>, key: K) {
    exists i :: 0 <= i < |entries| && entries[i].key == key
  }

  /** The entries are the map's, in the order of their last use. */
  ghost predicate Represents<K(!new), V>(entries: seq<Entry<K, V>>, m: map<K, Use<V>>, now: nat) {
    && (forall i :: 0 <= i < |entries| ==>
          entries[i].key in m && m[entries[i].key].value == entries[i].value && m[entries[i].key].time < now)
    && (forall i, j :: 0 <= i < j < |entries| ==> m[entries[i].key].time < m[entries[j].key].time)
    && (forall k :: k in m ==> Holds(entries, k))
  }

  lemma {:induction false} Locate<K, V>(entries: seq<Entry<K, V>>, key: K) returns (at: nat)
    ensures at <= |entries| && forall i :: 0 <= i < at ==> entries[i].key != key
    ensures at < |entries| ==> entries[at].key == key
  {
    at := 0;
    while at < |entries| && entries[at].key != key
      invariant at <= |entries| && forall i :: 0 <= i < at ==> entries[i].key != key
    {
      at := at + 1;
    }
  }

  /** The entries without the one at `at`, each where it comes from. */
  lemma {:induction false} Dropped<T>(s: seq<T>, at: nat, i: nat)
    requires at < |s| && i < |s| - 1
    ensures (s[..at] + s[at + 1..])[i] == s[if i < at then i else i + 1]
  {}

  lemma {:induction false} DropHeld<K, V>(entries: seq<Entry<K, V>>, at: nat, k: K)
    requires at < |entries| && Holds(entries, k) && k != entries[at].key
    ensures Holds(entries[..at] + entries[at + 1..], k)
  {
    var i :| 0 <= i < |entries| && entries[i].key == k;
    Dropped(entries, at, if i < at then i else i - 1);
  }

  lemma {:induction false} DropTimed<K(!new), V>(
    entries: seq<Entry<K, V>>, m: map<K, Use<V>>, now: nat, at: nat, i: nat)
    requires Represents(entries, m, now) && at < |entries| && i < |entries| - 1
    ensures var left, fewer := entries[..at] + entries[at + 1..], m - {entries[at].key};
            && left[i].key in fewer && fewer[left[i].key].value == left[i].value && fewer[left[i].key].time < now
            && forall j :: i < j < |left| ==> left[j].key in fewer && fewer[left[i].key].time < fewer[left[j].key].time
  {
    var left := entries[..at] + entries[at + 1..];
    Dropped(entries, at, i);
    forall j | i < j < |left|
      ensures left[j] == entries[if j < at then j else j + 1] && left[j].key != entries[at].key
    {
      Dropped(entries, at, j);
    }
  }

  lemma {:induction false} DropAt<K(!new), V>(
    entries: seq<Entry<K, V>>, m: map<K, Use<V>>, now: nat, at: nat, left: seq<Entry<K, V>>)
    requires Represents(entries, m, now) && at < |entries| && left == entries[..at] + entries[at + 1..]
    ensures Represents(left, m - {entries[at].key}, now)
  {
    var fewer := m - {entries[at].key};
    forall i | 0 <= i < |left|
      ensures && left[i].key in fewer && fewer[left[i].key].value == left[i].value && fewer[left[i].key].time < now
              && forall j :: i < j < |left| ==>
                   left[j].key in fewer && fewer[left[i].key].time < fewer[left[j].key].time
    {
      DropTimed(entries, m, now, at, i);
    }
    forall k | k in fewer ensures Holds(left, k) {
      DropHeld(entries, at, k);
    }
  }

  lemma {:induction false} PushUse<K(!new), V>(
    entries: seq<Entry<K, V>>, m: map<K, Use<V>>, now: nat, key: K, value: V)
    requires Represents(entries, m, now) && key !in m
    ensures Represents(entries + [Entry(key, value)], m[key := Use(value, now)], now + 1)
  {
    var more, grown := entries + [Entry(key, value)], m[key := Use(value, now)];
    forall k | k in grown ensures Holds(more, k) {
      if k == key {
        assert more[|entries|].key == k;
      } else {
        assert Holds(entries, k);
        var i :| 0 <= i < |entries| && entries[i].key == k;
        assert more[i].key == k;
      }
    }
  }

  lemma {:induction false} SameSize<K(!new), V>(entries: seq<Entry<K, V>>, m: map<K, Use<V>>, now: nat)
    requires Represents(entries, m, now)
    ensures |m.Keys| == |entries|
  {
    if entries == [] {
      assert forall k :: k in m ==> Holds(entries, k);
      assert m.Keys == {};
    } else {
      var n := |entries| - 1;
      assert entries[..n] == entries[..n] + entries[n + 1..];
      DropAt(entries, m, now, n, entries[..n]);
      SameSize(entries[..n], m - {entries[n].key}, now);
      assert (m - {entries[n].key}).Keys == m.Keys - {entries[n].key};
    }
  }

  /** Looking a key up in the entries is looking it up in the map. */
  lemma {:induction false} FindsUse<K(!new), V>(entries: seq<Entry<K, V>>, m: map<K, Use<V>>, now: nat, key: K)
    returns (at: nat)
    requires Represents(entries, m, now)
    ensures Find(entries, key) == if key in m then Some(m[key].value) else None
    ensures at <= |entries| && (key in m <==> at < |entries|)
    ensures key in m ==> entries[at].key == key && Without(entries, key) == entries[..at] + entries[at + 1..]
    ensures key !in m ==> Without(entries, key) == entries
  {
    at := Locate(entries, key);
    FindAt(entries, key, at);
    if key in m { assert Holds(entries, key); }
  }

  /** Refreshing or replacing a key: out of its place, and last. */
  lemma {:induction false} Renews<K(!new), V>(
    entries: seq<Entry<K, V>>, m: map<K, Use<V>>, now: nat, key: K, value: V)
    requires Represents(entries, m, now) && key in m
    ensures Represents(Without(entries, key) + [Entry(key, value)], m[key := Use(value, now)], now + 1)
  {
    var at := FindsUse(entries, m, now, key);
    DropAt(entries, m, now, at, Without(entries, key));
    PushUse(Without(entries, key), m - {key}, now, key, value);
    assert (m - {key})[key := Use(value, now)] == m[key := Use(value, now)];
  }

  lemma {:induction false} ServesPut<K(!new), V>(
    capacity: nat, entries: seq<Entry<K, V>>, m: map<K, Use<V>>, now: nat, key: K, value: V)
    returns (next: map<K, Use<V>>)
    requires 0 < capacity && |entries| <= capacity && Represents(entries, m, now)
    ensures Serves(capacity, m, now, Put(key, value), next, Step(capacity, entries, Put(key, value)).1)
    ensures Represents(Step(capacity, entries, Put(key, value)).0, next, now + 1)
  {
    var at := FindsUse(entries, m, now, key);
    SameSize(entries, m, now);
    if key in m {
      next := m[key := Use(value, now)];
      Renews(entries, m, now, key, value);
    } else if |entries| < capacity {
      next := m[key := Use(value, now)];
      PushUse(entries, m, now, key, value);
    } else {
      next := (m - {entries[0].key})[key := Use(value, now)];
      OldestIsFirst(entries, m, now);
      Evicts(entries, m, now, key, value);
    }
  }

  lemma {:induction false} Evicts<K(!new), V>(entries: seq<Entry<K, V>>, m: map<K, Use<V>>, now: nat, key: K, value: V)
    requires Represents(entries, m, now) && entries != [] && key !in m
    ensures Represents(entries[1..] + [Entry(key, value)], (m - {entries[0].key})[key := Use(value, now)], now + 1)
  {
    DropFirst(entries, m, now);
    PushUse(entries[1..], m - {entries[0].key}, now, key, value);
  }

  lemma {:induction false} DropFirst<K(!new), V>(entries: seq<Entry<K, V>>, m: map<K, Use<V>>, now: nat)
    requires Represents(entries, m, now) && entries != []
    ensures Represents(entries[1..], m - {entries[0].key}, now)
  {
    assert entries[1..] == entries[..0] + entries[1..];
    DropAt(entries, m, now, 0, entries[1..]);
  }

  lemma {:induction false} OldestIsFirst<K(!new), V>(entries: seq<Entry<K, V>>, m: map<K, Use<V>>, now: nat)
    requires Represents(entries, m, now) && entries != []
    ensures Oldest(m, entries[0].key) && m[entries[0].key].value == entries[0].value
  {
    forall k | k in m ensures m[entries[0].key].time <= m[k].time {
      assert Holds(entries, k);
      var i :| 0 <= i < |entries| && entries[i].key == k;
    }
  }

  /** Every command is served as the map serves it, and leaves the entries of the map it becomes. */
  lemma {:induction false} ServesStep<K(!new), V>(
    capacity: nat, entries: seq<Entry<K, V>>, m: map<K, Use<V>>, now: nat, c: Command<K, V>)
    returns (next: map<K, Use<V>>)
    requires 0 < capacity && |entries| <= capacity && Represents(entries, m, now)
    ensures Serves(capacity, m, now, c, next, Step(capacity, entries, c).1)
    ensures Represents(Step(capacity, entries, c).0, next, now + 1)
  {
    match c
    case Put(key, value) => next := ServesPut(capacity, entries, m, now, key, value);
    case Get(key) =>
      var at := FindsUse(entries, m, now, key);
      if key in m {
        next := m[key := Use(m[key].value, now)];
        Renews(entries, m, now, key, m[key].value);
      } else {
        next := m;
      }
    case Remove(key) =>
      var at := FindsUse(entries, m, now, key);
      if key in m {
        next := m - {key};
        DropAt(entries, m, now, at, Without(entries, key));
      } else {
        next := m;
      }
  }

  /** The maps a run goes through, from the empty one, serving command `i` at time `i`. */
  ghost predicate ServedRun<K(!new), V>(capacity: nat, commands: seq<Command<K, V>>, maps: seq<map<K, Use<V>>>) {
    && |maps| == |commands| + 1 && maps[0] == map[]
    && forall i :: 0 <= i < |commands| ==> ServedAt(capacity, commands, maps, i)
  }

  ghost predicate ServedAt<K(!new), V>(
    capacity: nat, commands: seq<Command<K, V>>, maps: seq<map<K, Use<V>>>, i: nat)
    requires i < |commands| && |maps| == |commands| + 1
  {
    var reply := Step(capacity, Entries(capacity, commands[..i]), commands[i]).1;
    Serves(capacity, maps[i], i, commands[i], maps[i + 1], reply)
  }

  /** The last command takes one map to the next. */
  ghost predicate ServedLast<K(!new), V>(
    capacity: nat, commands: seq<Command<K, V>>, m: map<K, Use<V>>, next: map<K, Use<V>>)
    requires commands != []
  {
    var n := |commands| - 1;
    Serves(capacity, m, n, commands[n], next, Step(capacity, Entries(capacity, commands[..n]), commands[n]).1)
  }

  lemma {:induction false} ServedOneMore<K(!new), V>(
    capacity: nat, commands: seq<Command<K, V>>, maps: seq<map<K, Use<V>>>, next: map<K, Use<V>>)
    requires commands != [] && ServedRun(capacity, commands[..|commands| - 1], maps)
    requires ServedLast(capacity, commands, maps[|commands| - 1], next)
    ensures ServedRun(capacity, commands, maps + [next])
  {
    var n, more := |commands| - 1, maps + [next];
    forall i | 0 <= i < |commands| ensures ServedAt(capacity, commands, more, i) {
      if i < n {
        assert ServedAt(capacity, commands[..n], maps, i);
        assert commands[..n][..i] == commands[..i];
      }
    }
  }

  /** The maps serve the run, and the last one is what the cache holds. */
  ghost predicate History<K(!new), V>(capacity: nat, commands: seq<Command<K, V>>, maps: seq<map<K, Use<V>>>) {
    && ServedRun(capacity, commands, maps)
    && Represents(Entries(capacity, commands), maps[|commands|], |commands|)
  }

  lemma {:induction false} HistoryNext<K(!new), V>(capacity: nat, commands: seq<Command<K, V>>, earlier: seq<map<K, Use<V>>>)
    returns (maps: seq<map<K, Use<V>>>)
    requires capacity > 0 && commands != [] && History(capacity, commands[..|commands| - 1], earlier)
    ensures History(capacity, commands, maps)
  {
    var n := |commands| - 1;
    var next := ServesLast(capacity, commands, earlier[n]);
    maps := earlier + [next];
    ServedOneMore(capacity, commands, earlier, next);
    assert maps[n + 1] == next;
  }

  /**
   * Over every run: there is a history of plain maps with times of last use that answers every command as the
   * cache does, evicting the least recently used key exactly when a new one meets a full cache; and the entries
   * are always that map's, from least to most recently used.
   */
  lemma {:induction false} RunIsServed<K(!new), V>(capacity: nat, commands: seq<Command<K, V>>)
    returns (maps: seq<map<K, Use<V>>>)
    requires capacity > 0
    ensures History(capacity, commands, maps)
  {
    if commands == [] {
      maps := [map[]];
    } else {
      var earlier := RunIsServed(capacity, commands[..|commands| - 1]);
      maps := HistoryNext(capacity, commands, earlier);
    }
  }

  lemma {:induction false} ServesLast<K(!new), V>(capacity: nat, commands: seq<Command<K, V>>, m: map<K, Use<V>>)
    returns (next: map<K, Use<V>>)
    requires capacity > 0 && commands != []
    requires var n := |commands| - 1; Represents(Entries(capacity, commands[..n]), m, n)
    ensures ServedLast(capacity, commands, m, next) && Represents(Entries(capacity, commands), next, |commands|)
  {
    var n := |commands| - 1;
    SoundAlways(capacity, commands[..n]);
    next := ServesStep(capacity, Entries(capacity, commands[..n]), m, n, commands[n]);
  }
}
