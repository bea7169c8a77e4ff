// Breadth-first waves over a finite directed graph: what a queue of visited
// nodes and their distances has to satisfy for the distances to be exact.
module Waves {

  type Edges = (nat, nat) -> bool

  /** Distance value of a node no fill has reached: `u32::MAX`. */
  const U32_MAX: nat := 0xFFFF_FFFF

  // ---------------------------------------------------------------- shortest walks

  ghost predicate IsWalk(edges: Edges, walk: seq<nat>) {
    forall i :: 0 <= i < |walk| - 1 ==> edges(walk[i], walk[i + 1])
  }

  ghost predicate Connects(edges: Edges, origin: nat, node: nat, walk: seq<nat>) {
    walk != [] && walk[0] == origin && walk[|walk| - 1] == node && IsWalk(edges, walk)
  }

  ghost predicate Unreachable(edges: Edges, origin: nat, node: nat) {
    forall walk :: !Connects(edges, origin, node, walk)
  }

  /** Some walk takes `steps` steps and none takes fewer. */
  ghost predicate ShortestSteps(edges: Edges, origin: nat, node: nat, steps: nat) {
    && (exists walk :: Connects(edges, origin, node, walk) && |walk| == steps + 1)
    && (forall walk :: Connects(edges, origin, node, walk) ==> steps < |walk|)
  }

  ghost predicate Distinct(s: seq<nat>) {
    forall i, j :: 0 <= i < j < |s| ==> s[i] != s[j]
  }

  /** Pigeonhole: different values below `n` number at most `n`. */
  lemma {:induction false} DistinctBound(s: seq<nat>, n: nat)
    requires Distinct(s) && forall i :: 0 <= i < |s| ==> s[i] < n
    ensures |s| <= n
    decreases n
  {
    if k :| 0 <= k < |s| && s[k] == n - 1 {
      DistinctBound(s[..k] + s[k + 1..], n - 1);
    } else if s != [] {
      assert s[0] < n - 1;
      DistinctBound(s, n - 1);
    }
  }

  // ---------------------------------------------------------------- the wave

  /** A distance is set exactly on the nodes the queue holds, and it holds each once. */
  ghost predicate Visited(dist: seq<nat>, queue: seq<nat>) {
    && (forall i :: 0 <= i < |queue| ==> queue[i] < |dist|)
    && Distinct(queue)
    && (forall c :: 0 <= c < |dist| ==> (dist[c] != U32_MAX <==> c in queue))
  }

  /** Queue nodes stand in order of distance. */
  ghost predicate NonDecreasing(dist: seq<nat>, queue: seq<nat>)
    requires Visited(dist, queue)
  {
    forall i, j :: 0 <= i <= j < |queue| ==> dist[queue[i]] <= dist[queue[j]]
  }

  /** Every successor of `node` is reached in at most one further step. */
  ghost predicate Relaxed(edges: Edges, dist: seq<nat>, node: nat)
    requires node < |dist|
  {
    forall v: nat :: edges(node, v) ==> v < |dist| && dist[v] != U32_MAX && dist[v] <= dist[node] + 1
  }

  ghost predicate Witnessed(edges: Edges, origin: nat, node: nat, steps: nat) {
    exists walk :: Connects(edges, origin, node, walk) && |walk| == steps + 1
  }

  ghost predicate AllWitnessed(edges: Edges, origin: nat, dist: seq<nat>, queue: seq<nat>)
    requires Visited(dist, queue)
  {
    forall i :: 0 <= i < |queue| ==> Witnessed(edges, origin, queue[i], dist[queue[i]])
  }

  ghost predicate AllRelaxed(edges: Edges, dist: seq<nat>, queue: seq<nat>, done: nat)
    requires Visited(dist, queue) && done <= |queue|
  {
    forall i :: 0 <= i < done ==> Relaxed(edges, dist, queue[i])
  }

  /** Breadth-first state in which the first `done` queue nodes are expanded. */
  ghost predicate Wave(edges: Edges, origin: nat, dist: seq<nat>, queue: seq<nat>, done: nat)
  {
    && Visited(dist, queue)
    && queue != [] && queue[0] == origin && dist[origin] == 0
    && done <= |queue|
    && NonDecreasing(dist, queue)
    && (done < |queue| ==> dist[queue[|queue| - 1]] <= dist[queue[done]] + 1)
    && AllWitnessed(edges, origin, dist, queue)
    && AllRelaxed(edges, dist, queue, done)
  }

  /** The walk up to place `upto` meets a queue node that still waits for expansion. */
  ghost predicate Crossed(dist: seq<nat>, queue: seq<nat>, done: nat, walk: seq<nat>, upto: nat)
    requires Visited(dist, queue)
  {
    exists j, k :: 0 <= j <= upto && j < |walk| && done <= k < |queue|
      && walk[j] == queue[k] && dist[queue[k]] <= j
  }

  lemma {:induction false} WalkMeetsWave(edges: Edges, origin: nat, dist: seq<nat>, queue: seq<nat>, done: nat,
                                         walk: seq<nat>, upto: nat)
    requires Wave(edges, origin, dist, queue, done)
    requires IsWalk(edges, walk) && upto < |walk| && walk[0] == origin
    ensures Crossed(dist, queue, done, walk, upto)
         || (exists i :: 0 <= i < done && queue[i] == walk[upto] && dist[queue[i]] <= upto)
  {
    if upto == 0 {
      assert walk[0] == queue[0];
    } else {
      WalkMeetsWave(edges, origin, dist, queue, done, walk, upto - 1);
      if !Crossed(dist, queue, done, walk, upto - 1) {
        var i :| 0 <= i < done && queue[i] == walk[upto - 1] && dist[queue[i]] <= upto - 1;
        assert Relaxed(edges, dist, queue[i]);
        assert edges(walk[upto - 1], walk[upto - 1 + 1]);
        var k :| 0 <= k < |queue| && queue[k] == walk[upto];
        assert k < done || Crossed(dist, queue, done, walk, upto);
      }
    }
  }

  /** Set distances stay within one step of any node that still waits for expansion. */
  lemma WaveBound(edges: Edges, origin: nat, dist: seq<nat>, queue: seq<nat>, done: nat, k: nat, node: nat)
    requires Wave(edges, origin, dist, queue, done)
    requires done <= k < |queue| && node < |dist|
    ensures dist[queue[done]] <= dist[queue[k]]
    ensures dist[node] != U32_MAX ==> dist[node] <= dist[queue[k]] + 1
  {
    if dist[node] != U32_MAX {
      var t :| 0 <= t < |queue| && queue[t] == node;
      assert dist[queue[t]] <= dist[queue[|queue| - 1]];
    }
  }

  /** No walk is shorter than a set distance, and none reaches an unset node before the wave does. */
  lemma WaveIsMinimal(edges: Edges, origin: nat, dist: seq<nat>, queue: seq<nat>, done: nat,
                      node: nat, walk: seq<nat>)
    requires Wave(edges, origin, dist, queue, done) && node < |dist|
    requires Connects(edges, origin, node, walk)
    ensures dist[node] != U32_MAX ==> dist[node] < |walk|
    ensures dist[node] == U32_MAX ==> done < |queue| && dist[queue[done]] + 1 < |walk|
  {
    var last := |walk| - 1;
    WalkMeetsWave(edges, origin, dist, queue, done, walk, last);
    if Crossed(dist, queue, done, walk, last) {
      var j, k :| 0 <= j <= last && j < |walk| && done <= k < |queue|
        && walk[j] == queue[k] && dist[queue[k]] <= j;
      WaveBound(edges, origin, dist, queue, done, k, node);
      if j == last {
        assert node == queue[k];
      }
    } else {
      var i :| 0 <= i < done && queue[i] == walk[last] && dist[queue[i]] <= last;
      assert dist[node] <= last && dist[node] != U32_MAX;
    }
  }

  /** Every set distance is exact, and a fully expanded queue has found all there is to reach. */
  lemma WaveIsExact(edges: Edges, origin: nat, dist: seq<nat>, queue: seq<nat>, done: nat, node: nat)
    requires Wave(edges, origin, dist, queue, done) && node < |dist|
    ensures dist[node] != U32_MAX ==> ShortestSteps(edges, origin, node, dist[node])
    ensures dist[node] == U32_MAX && done == |queue| ==> Unreachable(edges, origin, node)
  {
    forall walk | Connects(edges, origin, node, walk)
      ensures dist[node] != U32_MAX ==> dist[node] < |walk|
      ensures dist[node] == U32_MAX ==> done < |queue|
    {
      WaveIsMinimal(edges, origin, dist, queue, done, node, walk);
    }
    if dist[node] != U32_MAX {
      var t :| 0 <= t < |queue| && queue[t] == node;
      assert Witnessed(edges, origin, queue[t], dist[node]);
    }
  }

  // ---------------------------------------------------------------- shortest walks have no chords

  ghost predicate NoShorter(edges: Edges, origin: nat, node: nat, length: nat) {
    forall other :: Connects(edges, origin, node, other) ==> length <= |other|
  }

  /** Cutting the stretch between places `i` and `j` out of a walk. */
  lemma Shortcut(edges: Edges, origin: nat, node: nat, walk: seq<nat>, i: nat, j: nat)
    requires Connects(edges, origin, node, walk) && i < j < |walk|
    requires edges(walk[i], walk[j])
    requires i + 1 < j
    ensures !NoShorter(edges, origin, node, |walk|)
  {
    var cut := walk[..i + 1] + walk[j..];
    forall k | 0 <= k < |cut| - 1 ensures edges(cut[k], cut[k + 1]) {
      if k < i {
        assert edges(walk[k], walk[k + 1]);
      } else if k > i {
        var m := k - i - 1 + j;
        assert edges(walk[m], walk[m + 1]);
      }
    }
    assert Connects(edges, origin, node, cut);
  }

  lemma LoopCut(edges: Edges, origin: nat, node: nat, walk: seq<nat>, i: nat, j: nat)
    requires Connects(edges, origin, node, walk) && i < j < |walk|
    requires walk[i] == walk[j]
    ensures !NoShorter(edges, origin, node, |walk|)
  {
    var cut := walk[..i] + walk[j..];
    forall k | 0 <= k < |cut| - 1 ensures edges(cut[k], cut[k + 1]) {
      if k < i {
        assert edges(walk[k], walk[k + 1]);
      } else {
        var m := k - i + j;
        assert edges(walk[m], walk[m + 1]);
      }
    }
    assert Connects(edges, origin, node, cut);
  }

  /** A shortest walk neither repeats a node nor has an edge that skips ahead. */
  lemma ShortestHasNoChord(edges: Edges, origin: nat, node: nat, walk: seq<nat>, i: nat, j: nat)
    requires Connects(edges, origin, node, walk) && NoShorter(edges, origin, node, |walk|)
    requires i < j < |walk|
    ensures walk[i] != walk[j]
    ensures i + 1 < j ==> !edges(walk[i], walk[j])
  {
    if walk[i] == walk[j] {
      LoopCut(edges, origin, node, walk, i, j);
    }
    if i + 1 < j && edges(walk[i], walk[j]) {
      Shortcut(edges, origin, node, walk, i, j);
    }
  }

  /** A successor of the head that no walk has reached yet: the walk through the head is shortest. */
  lemma NewNodeIsShortest(edges: Edges, origin: nat, dist: seq<nat>, queue: seq<nat>, done: nat, v: nat)
    returns (walk: seq<nat>)
    requires Wave(edges, origin, dist, queue, done) && done < |queue|
    requires edges(queue[done], v) && v < |dist| && dist[v] == U32_MAX
    ensures Connects(edges, origin, v, walk) && |walk| == dist[queue[done]] + 2
    ensures NoShorter(edges, origin, v, |walk|)
  {
    var u := queue[done];
    assert Witnessed(edges, origin, queue[done], dist[u]);
    var prefix :| Connects(edges, origin, u, prefix) && |prefix| == dist[u] + 1;
    walk := prefix + [v];
    forall other | Connects(edges, origin, v, other) ensures |walk| <= |other| {
      WaveIsMinimal(edges, origin, dist, queue, done, v, other);
    }
  }

  // ---------------------------------------------------------------- growing the wave

  /** Queueing an unset successor of the node under expansion. */
  lemma WaveGrows(edges: Edges, origin: nat, dist: seq<nat>, queue: seq<nat>, done: nat, v: nat)
    requires Wave(edges, origin, dist, queue, done) && done < |queue|
    requires edges(queue[done], v) && v < |dist| && dist[v] == U32_MAX
    requires dist[queue[done]] + 1 < U32_MAX
    ensures Wave(edges, origin, dist[v := dist[queue[done]] + 1], queue + [v], done)
  {
    var u, d := queue[done], dist[queue[done]] + 1;
    VisitedGrows(dist, queue, v, d);
    NonDecreasingGrows(dist, queue, v, d);
    var walk := NewNodeIsShortest(edges, origin, dist, queue, done, v);
    WitnessesGrow(edges, origin, dist, queue, v, d);
    RelaxedGrows(edges, dist, queue, done, v, d);
  }

  lemma NonDecreasingGrows(dist: seq<nat>, queue: seq<nat>, v: nat, d: nat)
    requires Visited(dist, queue) && NonDecreasing(dist, queue)
    requires v < |dist| && v !in queue && d != U32_MAX
    requires queue == [] || dist[queue[|queue| - 1]] <= d
    ensures Visited(dist[v := d], queue + [v]) && NonDecreasing(dist[v := d], queue + [v])
  {
    VisitedGrows(dist, queue, v, d);
    forall i | 0 <= i < |queue| ensures dist[queue[i]] <= d {
      assert dist[queue[i]] <= dist[queue[|queue| - 1]];
    }
  }

  lemma WitnessesGrow(edges: Edges, origin: nat, dist: seq<nat>, queue: seq<nat>, v: nat, d: nat)
    requires Visited(dist, queue) && AllWitnessed(edges, origin, dist, queue)
    requires v < |dist| && v !in queue && d != U32_MAX
    requires Witnessed(edges, origin, v, d)
    ensures Visited(dist[v := d], queue + [v]) && AllWitnessed(edges, origin, dist[v := d], queue + [v])
  {
    VisitedGrows(dist, queue, v, d);
  }

  lemma RelaxedGrows(edges: Edges, dist: seq<nat>, queue: seq<nat>, done: nat, v: nat, d: nat)
    requires Visited(dist, queue) && done <= |queue| && AllRelaxed(edges, dist, queue, done)
    requires v < |dist| && v !in queue && d != U32_MAX
    ensures Visited(dist[v := d], queue + [v]) && AllRelaxed(edges, dist[v := d], queue + [v], done)
  {
    VisitedGrows(dist, queue, v, d);
    forall i | 0 <= i < done ensures Relaxed(edges, dist[v := d], (queue + [v])[i]) {
      RelaxedAfterSet(edges, dist, queue[i], v, d);
    }
  }

  lemma RelaxedAfterSet(edges: Edges, dist: seq<nat>, node: nat, v: nat, d: nat)
    requires node < |dist| && Relaxed(edges, dist, node)
    requires v < |dist| && dist[v] == U32_MAX && d != U32_MAX && node != v
    ensures Relaxed(edges, dist[v := d], node)
  {
  }

  lemma VisitedGrows(dist: seq<nat>, queue: seq<nat>, v: nat, d: nat)
    requires Visited(dist, queue) && v < |dist| && v !in queue && d != U32_MAX
    ensures Visited(dist[v := d], queue + [v])
  {
    forall c | 0 <= c < |dist| ensures dist[v := d][c] != U32_MAX <==> c in queue + [v] {
      assert c in queue + [v] <==> c == v || c in queue;
    }
  }

  /** A relaxed head counts as expanded. */
  lemma WaveAdvances(edges: Edges, origin: nat, dist: seq<nat>, queue: seq<nat>, done: nat)
    requires Wave(edges, origin, dist, queue, done) && done < |queue|
    requires Relaxed(edges, dist, queue[done])
    ensures Wave(edges, origin, dist, queue, done + 1)
  {
  }
}
