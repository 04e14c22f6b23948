/** Shutdown plans and the compilation of a dependency topology into layers. */
module ShutdownTopology {
  import opened Base

  datatype PlanError<+N> = EmptyPhase(phase: nat) | DuplicateChild(child: N)

  datatype TreeError<+N> = DuplicateNode(node: N) | UnknownNode(node: N) | Cycle

  /** Non-empty phases over globally unique children. */
  ghost predicate ValidPlan<N>(phases: seq<seq<N>>) {
    && (forall k :: 0 <= k < |phases| ==> phases[k] != [])
    && Distinct(Flatten(phases))
  }

  /** The first defect met when the phases are read in order. */
  ghost predicate FirstPlanDefect<N>(phases: seq<seq<N>>, error: PlanError<N>) {
    match error
    case EmptyPhase(p) =>
      p < |phases| && phases[p] == [] && ValidPlan(phases[..p])
    case DuplicateChild(child) =>
      exists p, j ::
        && 0 <= p < |phases| && 0 <= j < |phases[p]| && phases[p][j] == child
        && ValidPlan(phases[..p])
        && Distinct(Flatten(phases[..p]) + phases[p][..j])
        && child in Flatten(phases[..p]) + phases[p][..j]
  }

  lemma {:induction false} FlattenPrefix<T>(parts: seq<seq<T>>, k: nat)
    requires k <= |parts|
    ensures |Flatten(parts[..k])| <= |Flatten(parts)|
    ensures Flatten(parts)[..|Flatten(parts[..k])|] == Flatten(parts[..k])
    decreases |parts| - k
  {
    if k == |parts| {
      assert parts[..k] == parts;
    } else {
      FlattenUpTo(parts, k);
      FlattenPrefix(parts, k + 1);
      assert Flatten(parts[..k]) == Flatten(parts[..k + 1])[..|Flatten(parts[..k])|];
    }
  }

  /** A reported defect really invalidates the whole plan. */
  lemma {:induction false} DefectInvalidates<N>(phases: seq<seq<N>>, error: PlanError<N>)
    requires FirstPlanDefect(phases, error)
    ensures !ValidPlan(phases)
  {
    if error.DuplicateChild? {
      var child := error.child;
      var p, j :| && 0 <= p < |phases| && 0 <= j < |phases[p]| && phases[p][j] == child
                  && child in Flatten(phases[..p]) + phases[p][..j];
      FlattenUpTo(phases, p);
      FlattenPrefix(phases, p + 1);
      var all, earlier := Flatten(phases), Flatten(phases[..p]);
      var seen := earlier + phases[p][..j];
      var i :| 0 <= i < |seen| && seen[i] == child;
      assert all[..|earlier| + |phases[p]|] == earlier + phases[p];
      assert all[i] == (earlier + phases[p])[i] == child;
      assert all[|earlier| + j] == (earlier + phases[p])[|earlier| + j] == child;
    }
  }

  method NewPlan<N(==)>(phases: seq<seq<N>>) returns (r: Result<seq<seq<N>>, PlanError<N>>)
    ensures r.Ok? <==> ValidPlan(phases)
    ensures r.Ok? ==> r.value == phases
    ensures r.Err? ==> FirstPlanDefect(phases, r.error)
  {
    var seen: seq<N> := [];
    var p := 0;
    while p < |phases|
      invariant 0 <= p <= |phases|
      invariant seen == Flatten(phases[..p]) && ValidPlan(phases[..p])
    {
      if phases[p] == [] {
        r := Err(EmptyPhase(p));
        DefectInvalidates(phases, r.error);
        return;
      }
      ghost var before := seen;
      var j := 0;
      while j < |phases[p]|
        invariant 0 <= j <= |phases[p]|
        invariant seen == before + phases[p][..j] && Distinct(seen)
      {
        if phases[p][j] in seen {
          r := Err(DuplicateChild(phases[p][j]));
          DefectInvalidates(phases, r.error);
          return;
        }
        seen := seen + [phases[p][j]];
        j := j + 1;
      }
      assert phases[p][..j] == phases[p];
      FlattenUpTo(phases, p);
      p := p + 1;
    }
    assert phases[..p] == phases;
    r := Ok(phases);
  }

  // ---------------------------------------------------------------------
  // Dependency graphs. An edge (dependent, dependency) says that the
  // dependent must stop before the dependency.

  ghost predicate Chain<N>(edges: seq<(N, N)>, path: seq<N>) {
    path != [] && forall i :: 0 <= i < |path| - 1 ==> (path[i], path[i + 1]) in edges
  }

  ghost predicate HasCycle<N(!new)>(edges: seq<(N, N)>) {
    exists path :: Chain(edges, path) && |path| >= 2 && path[0] == path[|path| - 1]
  }

  ghost predicate Closed<N>(nodes: seq<N>, edges: seq<(N, N)>) {
    forall i :: 0 <= i < |edges| ==> edges[i].0 in nodes && edges[i].1 in nodes
  }

  /** Every dependent sits in a strictly earlier phase than its dependency. */
  ghost predicate Respects<N>(phases: seq<seq<N>>, edges: seq<(N, N)>) {
    forall i, j, x, y ::
      0 <= i < |phases| && 0 <= j < |phases| && x in phases[i] && y in phases[j] && (x, y) in edges ==> i < j
  }

  ghost predicate Covers<N(!new)>(phases: seq<seq<N>>, nodes: seq<N>) {
    forall x :: x in nodes <==> x in Flatten(phases)
  }

  /** `k` edges is the length of the longest chain of dependents that ends at `x`. */
  ghost predicate LongestChain<N(!new)>(edges: seq<(N, N)>, x: N, k: nat) {
    && (exists path :: Chain(edges, path) && |path| == k + 1 && path[k] == x)
    && (forall path :: Chain(edges, path) && path[|path| - 1] == x ==> |path| <= k + 1)
  }

  /** What a compiled topology promises. */
  ghost predicate LayeredPlan<N(!new)>(nodes: seq<N>, edges: seq<(N, N)>, phases: seq<seq<N>>) {
    && ValidPlan(phases)
    && Covers(phases, nodes)
    && Respects(phases, edges)
    && (forall k, x :: 0 <= k < |phases| && x in phases[k] ==> LongestChain(edges, x, k))
    && (forall k :: 0 <= k < |phases| ==> phases[k] == Select(nodes, set x | x in phases[k]))
  }

  predicate Blocked<N(==)>(edges: seq<(N, N)>, remaining: seq<N>, x: N) {
    exists i :: 0 <= i < |edges| && edges[i].1 == x && edges[i].0 in remaining
  }

  /** Remaining nodes no remaining node depends on, in declaration order. */
  function Layer<N(==)>(edges: seq<(N, N)>, remaining: seq<N>): seq<N> {
    Select(remaining, set x | x in remaining && !Blocked(edges, remaining, x))
  }

  function Without<N(==)>(s: seq<N>, gone: seq<N>): seq<N> {
    Select(s, set x | x in s && x !in gone)
  }

  lemma {:induction false} WithoutTwice<N>(s: seq<N>, a: seq<N>, b: seq<N>)
    ensures Without(Without(s, a), b) == Without(s, a + b)
  {
    var inA := set x | x in s && x !in a;
    var inB := set x | x in Without(s, a) && x !in b;
    SelectTwice(s, inA, inB);
    SelectSame(s, inA * inB, set x | x in s && x !in a + b);
  }

  /** Each phase is the layer left by the phases before it. */
  ghost predicate Peeled<N>(nodes: seq<N>, edges: seq<(N, N)>, phases: seq<seq<N>>) {
    forall k :: 0 <= k < |phases| ==>
      phases[k] != [] && phases[k] == Layer(edges, Without(nodes, Flatten(phases[..k])))
  }

  lemma {:induction false} PeeledAppend<N>(nodes: seq<N>, edges: seq<(N, N)>, phases: seq<seq<N>>, layer: seq<N>)
    requires Peeled(nodes, edges, phases)
    requires layer != [] && layer == Layer(edges, Without(nodes, Flatten(phases)))
    ensures Peeled(nodes, edges, phases + [layer])
  {
    var more := phases + [layer];
    forall k | 0 <= k < |more|
      ensures more[k] != [] && more[k] == Layer(edges, Without(nodes, Flatten(more[..k])))
    {
      assert more[..k] == phases[..k];
      if k == |phases| { assert phases[..k] == phases; }
    }
  }

  /** Peeling never places a node twice. */
  lemma {:induction false} PeeledDistinct<N>(nodes: seq<N>, edges: seq<(N, N)>, phases: seq<seq<N>>, k: nat)
    requires Distinct(nodes) && Peeled(nodes, edges, phases) && k <= |phases|
    ensures Distinct(Flatten(phases[..k]))
    ensures forall x :: x in Flatten(phases[..k]) ==> x in nodes
  {
    if k > 0 {
      PeeledDistinct(nodes, edges, phases, k - 1);
      FlattenUpTo(phases, k - 1);
      var gone := Flatten(phases[..k - 1]);
      SelectDistinct(nodes, set x | x in nodes && x !in gone);
      var remaining := Without(nodes, gone);
      SelectDistinct(remaining, set x | x in remaining && !Blocked(edges, remaining, x));
      assert phases[k - 1] == Layer(edges, remaining);
      DistinctConcat(gone, phases[k - 1]);
    }
  }

  lemma {:induction false} PlacedEarlier<N>(phases: seq<seq<N>>, j: nat, i: nat, x: N)
    requires j <= i <= |phases| && x in Flatten(phases[..j])
    ensures x in Flatten(phases[..i])
  {
    FlattenMember(phases[..j], x);
    var k :| 0 <= k < j && x in phases[..j][k];
    FlattenMember(phases[..i], x);
    assert phases[..i][k] == phases[k];
  }

  /** A node placed in phase `i` is not placed in an earlier one. */
  lemma {:induction false} PeeledOnce<N>(nodes: seq<N>, edges: seq<(N, N)>, phases: seq<seq<N>>, i: nat, j: nat, x: N)
    requires Peeled(nodes, edges, phases) && i < |phases| && j <= |phases|
    requires x in phases[i] && x in Flatten(phases[..j])
    ensures i < j
  {
    assert x in Without(nodes, Flatten(phases[..i]));
    if j <= i {
      PlacedEarlier(phases, j, i, x);
    }
  }

  /** Every dependent of a node of phase `k` was placed before phase `k`. */
  lemma {:induction false} DependentsEarlier<N>(
    nodes: seq<N>, edges: seq<(N, N)>, phases: seq<seq<N>>, k: nat, d: N, x: N)
    requires Peeled(nodes, edges, phases) && Closed(nodes, edges)
    requires k < |phases| && x in phases[k] && (d, x) in edges
    ensures d in Flatten(phases[..k])
  {
    var remaining := Without(nodes, Flatten(phases[..k]));
    var i :| 0 <= i < |edges| && edges[i] == (d, x);
    assert !Blocked(edges, remaining, x);
    assert edges[i].0 in nodes;
  }

  /** A node of phase `k > 0` has a dependent in phase `k - 1`. */
  lemma {:induction false} DependentJustBefore<N>(
    nodes: seq<N>, edges: seq<(N, N)>, phases: seq<seq<N>>, k: nat, x: N)
    returns (d: N)
    requires Peeled(nodes, edges, phases) && Closed(nodes, edges)
    requires 0 < k < |phases| && x in phases[k]
    ensures d in phases[k - 1] && (d, x) in edges
  {
    var gone := Flatten(phases[..k - 1]);
    var earlier := Without(nodes, gone);
    FlattenUpTo(phases, k - 1);
    assert x in earlier && x !in phases[k - 1];
    assert Blocked(edges, earlier, x);
    var i :| 0 <= i < |edges| && edges[i].1 == x && edges[i].0 in earlier;
    d := edges[i].0;
    assert edges[i] == (d, x);
    DependentsEarlier(nodes, edges, phases, k, d, x);
  }

  lemma {:induction false} ChainOfPhase<N>(nodes: seq<N>, edges: seq<(N, N)>, phases: seq<seq<N>>, k: nat, x: N)
    returns (path: seq<N>)
    requires Peeled(nodes, edges, phases) && Closed(nodes, edges)
    requires k < |phases| && x in phases[k]
    ensures Chain(edges, path) && |path| == k + 1 && path[k] == x
  {
    if k == 0 {
      path := [x];
    } else {
      var d := DependentJustBefore(nodes, edges, phases, k, x);
      var shorter := ChainOfPhase(nodes, edges, phases, k - 1, d);
      path := shorter + [x];
      forall i | 0 <= i < |path| - 1 ensures (path[i], path[i + 1]) in edges {
        if i < k - 1 { assert (shorter[i], shorter[i + 1]) in edges; }
      }
    }
  }

  /** A plan that respects the edges strictly climbs along every chain. */
  lemma {:induction false} ChainClimbs<N>(phases: seq<seq<N>>, edges: seq<(N, N)>, path: seq<N>, j: nat)
    requires Respects(phases, edges) && Chain(edges, path)
    requires j < |phases| && path[|path| - 1] in phases[j]
    requires forall i :: 0 <= i < |edges| ==> edges[i].0 in Flatten(phases)
    ensures |path| <= j + 1
    ensures |path| >= 2 ==> exists i :: 0 <= i < j && path[0] in phases[i]
  {
    if |path| >= 2 {
      var n := |path| - 1;
      var d, x := path[n - 1], path[n];
      assert (path[n - 1], path[n - 1 + 1]) in edges;
      var e :| 0 <= e < |edges| && edges[e] == (d, x);
      assert edges[e].0 in Flatten(phases);
      FlattenMember(phases, d);
      var i :| 0 <= i < |phases| && d in phases[i];
      assert i < j;
      var shorter := path[..n];
      assert Chain(edges, shorter) by {
        forall a | 0 <= a < |shorter| - 1 ensures (shorter[a], shorter[a + 1]) in edges {
          assert (path[a], path[a + 1]) in edges;
        }
      }
      ChainClimbs(phases, edges, shorter, i);
    }
  }

  lemma {:induction false} EdgesPlaced<N(!new)>(nodes: seq<N>, edges: seq<(N, N)>, phases: seq<seq<N>>)
    requires Closed(nodes, edges) && Covers(phases, nodes)
    ensures forall i :: 0 <= i < |edges| ==> edges[i].0 in Flatten(phases)
  {
    forall i | 0 <= i < |edges| ensures edges[i].0 in Flatten(phases) {
      assert edges[i].0 in nodes;
    }
  }

  lemma {:induction false} PeeledRespects<N>(nodes: seq<N>, edges: seq<(N, N)>, phases: seq<seq<N>>)
    requires Peeled(nodes, edges, phases) && Closed(nodes, edges)
    ensures Respects(phases, edges)
  {
    forall i, j, x, y |
      0 <= i < |phases| && 0 <= j < |phases| && x in phases[i] && y in phases[j] && (x, y) in edges
      ensures i < j
    {
      DependentsEarlier(nodes, edges, phases, j, x, y);
      PeeledOnce(nodes, edges, phases, i, j, x);
    }
  }

  lemma {:induction false} PeeledOrder<N>(nodes: seq<N>, edges: seq<(N, N)>, phases: seq<seq<N>>, k: nat)
    requires Peeled(nodes, edges, phases) && k < |phases|
    ensures phases[k] == Select(nodes, set x | x in phases[k])
  {
    var gone := Flatten(phases[..k]);
    var remaining := Without(nodes, gone);
    var left := set x | x in nodes && x !in gone;
    var free := set x | x in remaining && !Blocked(edges, remaining, x);
    SelectTwice(nodes, left, free);
    SelectSame(nodes, left * free, set x | x in phases[k]);
  }

  /** A finished peeling has every promised property. */
  lemma {:induction false} PeeledIsLayered<N(!new)>(nodes: seq<N>, edges: seq<(N, N)>, phases: seq<seq<N>>)
    requires Distinct(nodes) && Closed(nodes, edges)
    requires Peeled(nodes, edges, phases) && Without(nodes, Flatten(phases)) == []
    ensures LayeredPlan(nodes, edges, phases)
    ensures !HasCycle(edges)
  {
    assert phases[..|phases|] == phases;
    PeeledDistinct(nodes, edges, phases, |phases|);
    forall x | x in nodes ensures x in Flatten(phases) {
      assert x !in Flatten(phases) ==> x in Without(nodes, Flatten(phases));
    }
    PeeledRespects(nodes, edges, phases);
    EdgesPlaced(nodes, edges, phases);
    forall k, x | 0 <= k < |phases| && x in phases[k] ensures LongestChain(edges, x, k) {
      var longest := ChainOfPhase(nodes, edges, phases, k, x);
      forall path | Chain(edges, path) && path[|path| - 1] == x ensures |path| <= k + 1 {
        ChainClimbs(phases, edges, path, k);
      }
    }
    forall k | 0 <= k < |phases| ensures phases[k] == Select(nodes, set x | x in phases[k]) {
      PeeledOrder(nodes, edges, phases, k);
    }
    LayeredAcyclic(nodes, edges, phases);
  }

  /** A topology with any respecting plan has no cycle. */
  lemma {:induction false} LayeredAcyclic<N(!new)>(nodes: seq<N>, edges: seq<(N, N)>, phases: seq<seq<N>>)
    requires Closed(nodes, edges) && Covers(phases, nodes) && Respects(phases, edges) && ValidPlan(phases)
    ensures !HasCycle(edges)
  {
    EdgesPlaced(nodes, edges, phases);
    forall path | Chain(edges, path) && |path| >= 2 && path[0] == path[|path| - 1] ensures false {
      var x, n := path[0], |path| - 1;
      assert (path[0], path[0 + 1]) in edges;
      var e :| 0 <= e < |edges| && edges[e] == (path[0], path[1]);
      assert edges[e].0 in Flatten(phases);
      FlattenMember(phases, x);
      var j :| 0 <= j < |phases| && x in phases[j];
      Pump(edges, phases, path, j);
    }
  }

  /** A cycle through `x` climbs strictly below every phase that holds `x`. */
  lemma {:induction false} Pump<N>(edges: seq<(N, N)>, phases: seq<seq<N>>, path: seq<N>, j: nat)
    requires Respects(phases, edges) && Chain(edges, path) && |path| >= 2 && path[0] == path[|path| - 1]
    requires forall i :: 0 <= i < |edges| ==> edges[i].0 in Flatten(phases)
    requires j < |phases| && path[0] in phases[j]
    ensures false
  {
    ChainClimbs(phases, edges, path, j);
    var i :| 0 <= i < j && path[0] in phases[i];
    Pump(edges, phases, path, i);
  }

  /** If every member of a non-empty set has a dependent in it, some chain of any length lies in it. */
  lemma {:induction false} LongChain<N>(edges: seq<(N, N)>, remaining: seq<N>, n: nat) returns (path: seq<N>)
    requires remaining != [] && forall x :: x in remaining ==> Blocked(edges, remaining, x)
    ensures Chain(edges, path) && |path| == n + 1
    ensures forall x :: x in path ==> x in remaining
  {
    if n == 0 {
      path := [remaining[0]];
    } else {
      var shorter := LongChain(edges, remaining, n - 1);
      var x := shorter[0];
      assert x in remaining;
      var i :| 0 <= i < |edges| && edges[i].1 == x && edges[i].0 in remaining;
      assert edges[i] == (edges[i].0, x);
      path := [edges[i].0] + shorter;
      forall a | 0 <= a < |path| - 1 ensures (path[a], path[a + 1]) in edges {
        if a > 0 { assert (shorter[a - 1], shorter[a - 1 + 1]) in edges; }
      }
    }
  }

  lemma {:induction false} ChainLoops<N(!new)>(edges: seq<(N, N)>, path: seq<N>, i: nat, j: nat)
    requires Chain(edges, path) && i < j < |path| && path[i] == path[j]
    ensures HasCycle(edges)
  {
    var loop := path[i..j + 1];
    forall a | 0 <= a < |loop| - 1 ensures (loop[a], loop[a + 1]) in edges {
      assert (path[i + a], path[i + a + 1]) in edges;
    }
    assert Chain(edges, loop) && loop[0] == loop[|loop| - 1];
  }

  /** The stuck loop has found a genuine cycle. */
  lemma {:induction false} StuckHasCycle<N(!new)>(edges: seq<(N, N)>, remaining: seq<N>)
    requires remaining != [] && Layer(edges, remaining) == []
    ensures HasCycle(edges)
  {
    var members := set x | x in remaining;
    forall x | x in remaining ensures Blocked(edges, remaining, x) {
      assert !Blocked(edges, remaining, x) ==> x in Layer(edges, remaining);
    }
    var path := LongChain(edges, remaining, |members|);
    if Distinct(path) {
      DistinctBound(path, members);
    } else {
      var i, j :| 0 <= i < j < |path| && path[i] == path[j];
      ChainLoops(edges, path, i, j);
    }
  }

  method NewTree<N(==, !new)>(nodes: seq<N>, edges: seq<(N, N)>) returns (r: Result<seq<seq<N>>, TreeError<N>>)
    ensures r.Ok? <==> Distinct(nodes) && Closed(nodes, edges) && !HasCycle(edges)
    ensures r == Err(Cycle) <==> Distinct(nodes) && Closed(nodes, edges) && HasCycle(edges)
    ensures r.Ok? ==> LayeredPlan(nodes, edges, r.value)
    ensures r.Err? && r.error.DuplicateNode? ==>
              exists i :: && 0 <= i < |nodes| && nodes[i] == r.error.node
                          && r.error.node in nodes[..i] && Distinct(nodes[..i])
    ensures r.Err? && r.error.UnknownNode? ==>
              && Distinct(nodes)
              && exists i :: 0 <= i < |edges| && Closed(nodes, edges[..i]) && r.error.node !in nodes
                             && (if edges[i].0 in nodes then r.error.node == edges[i].1 else r.error.node == edges[i].0)
  {
    var unique: seq<N> := [];
    var i := 0;
    while i < |nodes|
      invariant 0 <= i <= |nodes| && unique == nodes[..i] && Distinct(unique)
    {
      if nodes[i] in unique {
        return Err(DuplicateNode(nodes[i]));
      }
      unique := unique + [nodes[i]];
      i := i + 1;
    }
    assert nodes[..i] == nodes;
    i := 0;
    while i < |edges|
      invariant 0 <= i <= |edges| && Closed(nodes, edges[..i])
    {
      if edges[i].0 !in nodes {
        return Err(UnknownNode(edges[i].0));
      }
      if edges[i].1 !in nodes {
        return Err(UnknownNode(edges[i].1));
      }
      i := i + 1;
    }
    assert edges[..i] == edges;
    var remaining, phases := nodes, [];
    SelectAll(nodes, set x | x in nodes && x !in Flatten<N>([]));
    while remaining != []
      invariant Peeled(nodes, edges, phases)
      invariant remaining == Without(nodes, Flatten(phases))
      decreases |remaining|
    {
      var phase := Layer(edges, remaining);
      if phase == [] {
        StuckHasCycle(edges, remaining);
        return Err(Cycle);
      }
      PeeledAppend(nodes, edges, phases, phase);
      FlattenAppend(phases, phase);
      WithoutTwice(nodes, Flatten(phases), phase);
      WithoutShrinks(remaining, phase);
      remaining := Without(remaining, phase);
      phases := phases + [phase];
    }
    PeeledIsLayered(nodes, edges, phases);
    r := Ok(phases);
  }

  lemma {:induction false} WithoutShrinks<N>(s: seq<N>, gone: seq<N>)
    requires gone != [] && gone[0] in s
    ensures |Without(s, gone)| < |s|
  {
    SelectDrops(s, (set x | x in s && x !in gone), gone[0]);
  }

  lemma {:induction false} SelectDrops<N>(s: seq<N>, keep: set<N>, x: N)
    requires x in s && x !in keep
    ensures |Select(s, keep)| < |s|
  {
    if s[0] != x { SelectDrops(s[1..], keep, x); }
  }

  /** No plan that honours the same dependencies has fewer phases. */
  lemma {:induction false} FewestPhases<N(!new)>(
    nodes: seq<N>, edges: seq<(N, N)>, phases: seq<seq<N>>, other: seq<seq<N>>)
    requires Closed(nodes, edges) && LayeredPlan(nodes, edges, phases)
    requires Covers(other, nodes) && Respects(other, edges)
    ensures |phases| <= |other|
  {
    if phases != [] {
      var k := |phases| - 1;
      var x := phases[k][0];
      assert LongestChain(edges, x, k);
      var path :| Chain(edges, path) && |path| == k + 1 && path[k] == x;
      FlattenMember(phases, x);
      FlattenMember(other, x);
      var j :| 0 <= j < |other| && x in other[j];
      EdgesPlaced(nodes, edges, other);
      ChainClimbs(other, edges, path, j);
    }
  }
}
