/** Bounded suppression of repeated keys. */
module Deduplicator {
  import opened Base

  datatype Attempt<+K, +T> = Attempt(key: K, value: T)

  datatype Outcome<+K, +T> = Delivered(key: K, evicted: Option<K>) | Duplicate(key: K, value: T)

  datatype ConfigError = ZeroCapacity

  /** The retained keys, what is delivered, and the outcome. */
  function Step<K(==), T>(capacity: nat, retained: seq<K>, a: Attempt<K, T>): (seq<K>, Option<T>, Outcome<K, T>) {
    if a.key in retained then (retained, None, Duplicate(a.key, a.value))
    else if |retained| == capacity && retained != [] then
      (retained[1..] + [a.key], Some(a.value), Delivered(a.key, Some(retained[0])))
    else (retained + [a.key], Some(a.value), Delivered(a.key, None))
  }

  class DeduplicatorActor<K(==), T> {
    const capacity: nat
    var retained: seq<K>

    constructor (capacity: nat)
      requires capacity > 0
      ensures this.capacity == capacity && retained == []
    {
      this.capacity := capacity;
      retained := [];
    }

    method Transition(a: Attempt<K, T>) returns (delivered: Option<T>, outcome: Outcome<K, T>)
      modifies this
      ensures (retained, delivered, outcome) == Step(capacity, old(retained), a)
    {
      if a.key in retained {
        return None, Duplicate(a.key, a.value);
      }
      var evicted: Option<K> := None;
      if |retained| == capacity && retained != [] {
        evicted := Some(retained[0]);
        retained := retained[1..];
      }
      retained := retained + [a.key];
      return Some(a.value), Delivered(a.key, evicted);
    }
  }

  method NewDeduplicator<K(==), T>(capacity: nat) returns (r: Result<DeduplicatorActor<K, T>, ConfigError>)
    ensures r.Err? <==> capacity == 0
    ensures r.Ok? ==> fresh(r.value) && r.value.capacity == capacity && r.value.retained == []
  {
    if capacity == 0 {
      return Err(ZeroCapacity);
    }
    var actor := new DeduplicatorActor(capacity);
    return Ok(actor);
  }

  // ---------------------------------------------------------------------
  // Every run.

  datatype Run<+K> = Run(retained: seq<K>, delivered: seq<K>)

  function Advance<K(==), T>(capacity: nat, run: Run<K>, a: Attempt<K, T>): Run<K> {
    var (retained, delivered, _) := Step(capacity, run.retained, a);
    Run(retained, if delivered.Some? then run.delivered + [a.key] else run.delivered)
  }

  function After<K(==), T>(capacity: nat, attempts: seq<Attempt<K, T>>): Run<K> {
    if attempts == [] then Run([], [])
    else Advance(capacity, After(capacity, attempts[..|attempts| - 1]), attempts[|attempts| - 1])
  }

  /** The last `n` elements, or all of them. */
  function Last<X>(s: seq<X>, n: nat): (r: seq<X>)
    ensures |r| == if |s| <= n then |s| else n
  {
    if |s| <= n then s else s[|s| - n..]
  }

  /** Equal keys are more than `gap` places apart. */
  ghost predicate Spaced<K>(delivered: seq<K>, gap: nat) {
    forall i, j :: 0 <= i < j < |delivered| && j - i <= gap ==> delivered[i] != delivered[j]
  }

  lemma {:induction false} KeptAdvance<K, T>(capacity: nat, run: Run<K>, a: Attempt<K, T>)
    requires capacity > 0 && run.retained == Last(run.delivered, capacity) && Spaced(run.delivered, capacity)
    ensures var now := Advance(capacity, run, a);
            now.retained == Last(now.delivered, capacity) && Spaced(now.delivered, capacity)
  {
    var n := |run.delivered|;
    if a.key !in run.retained {
      var now := Advance(capacity, run, a);
      assert now.delivered == run.delivered + [a.key];
      forall i | 0 <= i < n && n - i <= capacity ensures run.delivered[i] != a.key {
        assert run.retained[i - (n - |run.retained|)] == run.delivered[i];
      }
    }
  }

  /** The window is the last delivered keys, and equal deliveries are more than `capacity` places apart. */
  lemma {:induction false} WindowAlways<K, T>(capacity: nat, attempts: seq<Attempt<K, T>>)
    requires capacity > 0
    ensures var run := After(capacity, attempts);
            run.retained == Last(run.delivered, capacity) && Spaced(run.delivered, capacity)
  {
    if attempts != [] {
      WindowAlways(capacity, attempts[..|attempts| - 1]);
      KeptAdvance(capacity, After(capacity, attempts[..|attempts| - 1]), attempts[|attempts| - 1]);
    }
  }

  /**
   * Two deliveries of one key have `capacity` consecutive deliveries between them whose keys are
   * pairwise distinct and none of which is that key.
   */
  lemma {:induction false} Separated<K, T>(capacity: nat, attempts: seq<Attempt<K, T>>, i: nat, j: nat)
    requires capacity > 0 && i < j < |After(capacity, attempts).delivered|
    requires After(capacity, attempts).delivered[i] == After(capacity, attempts).delivered[j]
    ensures j - i > capacity
    ensures var between := After(capacity, attempts).delivered[j - capacity..j];
            Distinct(between) && After(capacity, attempts).delivered[j] !in between
  {
    WindowAlways(capacity, attempts);
  }

  /**
   * An attempt is delivered exactly when its key is not among the last `capacity` delivered keys; a
   * duplicate leaves the window alone, and a delivery evicts only the key delivered `capacity` ago.
   */
  lemma {:induction false} DeliveredExactly<K, T>(capacity: nat, attempts: seq<Attempt<K, T>>, a: Attempt<K, T>)
    requires capacity > 0
    ensures var run := After(capacity, attempts);
            var (retained, delivered, outcome) := Step(capacity, run.retained, a);
            && (a.key in Last(run.delivered, capacity) ==>
                  delivered == None && retained == run.retained && outcome == Duplicate(a.key, a.value))
            && (a.key !in Last(run.delivered, capacity) ==>
                  && delivered == Some(a.value)
                  && outcome == Delivered(a.key, if |run.delivered| < capacity then None
                                                 else Some(run.delivered[|run.delivered| - capacity])))
  {
    WindowAlways(capacity, attempts);
  }
}
