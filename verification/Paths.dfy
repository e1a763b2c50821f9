/** The path engine: Dijkstra's algorithm with array-scan selection over the
    route graph, where a route owned by the opponent cannot be crossed, a route
    already owned costs nothing and an unclaimed route costs its length. */
module Paths {
  import opened Types

  /** A walk follows routes p[0] -> p[1] -> ...; e[k] is the index of the route
      crossed between p[k] and p[k+1]; opponent routes are not crossable. */
  ghost predicate IsWalk(s: GameState, p: seq<int>, e: seq<int>) {
    && |p| >= 1 && |e| == |p| - 1
    && forall k :: 0 <= k < |e| ==>
         && 0 <= e[k] < |s.routes|
         && s.routes[e[k]].owner != 2
         && Joins(s.routes[e[k]], p[k], p[k + 1])
  }

  ghost predicate RouteIndices(s: GameState, e: seq<int>) {
    forall k :: 0 <= k < |e| ==> 0 <= e[k] < |s.routes|
  }

  /** Wagons still to pay along the routes e. */
  ghost function WalkCost(s: GameState, e: seq<int>): int
    requires RouteIndices(s, e)
  {
    if e == [] then 0 else WalkCost(s, e[..|e| - 1]) + EdgeCost(s.routes[e[|e| - 1]])
  }

  ghost predicate Reachable(s: GameState, a: int, b: int) {
    exists p, e :: IsWalk(s, p, e) && p[0] == a && p[|p| - 1] == b
  }

  /** What findSmartestPath promises: -1 exactly for a bad endpoint or an
      unreachable end; otherwise a walk from start to end whose cost is the
      returned cost and no walk between them is cheaper. */
  ghost predicate PathResult(s: GameState, start: int, end: int, cost: int, path: seq<int>) {
    && (cost == -1 <==> !(0 <= start < s.nbCities && 0 <= end < s.nbCities && Reachable(s, start, end)))
    && (cost == -1 ==> path == [])
    && (cost != -1 ==>
          && cost >= 0 && 1 <= |path| <= s.nbCities && path[0] == start && path[|path| - 1] == end
          && (exists e :: IsWalk(s, path, e) && WalkCost(s, e) == cost)
          && (forall p, e :: IsWalk(s, p, e) && p[0] == start && p[|p| - 1] == end ==> cost <= WalkCost(s, e)))
    && (0 <= start < s.nbCities && start == end ==> cost == 0 && path == [start])
  }

  /** The endpoint of r that is not x (x itself for a loop). */
  function Other(r: Route, x: int): int {
    if r.from == x then r.to else r.from
  }

  // ---------------------------------------------------------------------------
  // Walk lemmas

  lemma {:induction false} WalkCostNonNegative(s: GameState, e: seq<int>)
    requires ValidState(s) && RouteIndices(s, e)
    ensures WalkCost(s, e) >= 0
  {
    if e != [] {
      WalkCostNonNegative(s, e[..|e| - 1]);
    }
  }

  lemma {:induction false} WalkCostPrepend(s: GameState, x: int, e: seq<int>)
    requires 0 <= x < |s.routes| && RouteIndices(s, e)
    ensures RouteIndices(s, [x] + e)
    ensures WalkCost(s, [x] + e) == EdgeCost(s.routes[x]) + WalkCost(s, e)
  {
    if e != [] {
      assert ([x] + e)[..|e|] == [x] + e[..|e| - 1];
      WalkCostPrepend(s, x, e[..|e| - 1]);
    }
  }

  /** A route joining c to the first city of a walk extends it backwards. */
  lemma WalkPrepend(s: GameState, c: int, r: int, p: seq<int>, e: seq<int>)
    requires IsWalk(s, p, e) && 0 <= r < |s.routes| && s.routes[r].owner != 2 && Joins(s.routes[r], c, p[0])
    ensures IsWalk(s, [c] + p, [r] + e)
  {
    var p', e' := [c] + p, [r] + e;
    forall k | 0 <= k < |e'|
      ensures 0 <= e'[k] < |s.routes| && s.routes[e'[k]].owner != 2 && Joins(s.routes[e'[k]], p'[k], p'[k + 1])
    {
      if k > 0 {
        assert e'[k] == e[k - 1] && p'[k] == p[k - 1] && p'[k + 1] == p[k];
      }
    }
  }

  lemma {:induction false} WalkCostPrefix(s: GameState, e: seq<int>, k: int)
    requires ValidState(s) && RouteIndices(s, e) && 0 <= k <= |e|
    ensures WalkCost(s, e[..k]) <= WalkCost(s, e)
    decreases |e| - k
  {
    if k < |e| {
      assert e[..k + 1][..k] == e[..k];
      WalkCostPrefix(s, e, k + 1);
    } else {
      assert e[..k] == e;
    }
  }

  lemma WalkNodesInRange(s: GameState, p: seq<int>, e: seq<int>)
    requires ValidState(s) && IsWalk(s, p, e) && 0 <= p[0] < s.nbCities
    ensures forall k :: 0 <= k < |p| ==> 0 <= p[k] < s.nbCities
  {
    forall k | 0 < k < |p|
      ensures 0 <= p[k] < s.nbCities
    {
      assert ValidRoute(s.nbCities, s.routes[e[k - 1]]);
    }
  }

  // ---------------------------------------------------------------------------
  // The state of the search, as sequences: D = dist, P = prev, V = visited,
  // PE = the route that set prev (ghost), R = the order of visit (ghost).

  ghost predicate SizesOk(s: GameState, D: seq<int>, P: seq<int>, PE: seq<int>, V: seq<bool>, R: seq<int>) {
    |D| == s.nbCities && |P| == s.nbCities && |PE| == s.nbCities && |V| == s.nbCities && |R| == s.nbCities
  }

  /** The number of visited nodes. */
  ghost function VisitedCount(V: seq<bool>): nat
    ensures VisitedCount(V) <= |V|
  {
    if V == [] then 0 else VisitedCount(V[..|V| - 1]) + (if V[|V| - 1] then 1 else 0)
  }

  /** Sizes, the source entry and the number of visited nodes. */
  ghost predicate Shape(s: GameState, start: int, end: int, D: seq<int>, P: seq<int>, PE: seq<int>, V: seq<bool>, R: seq<int>,
                        count: int, bound: int, pending: int)
  {
    && ValidState(s)
    && 0 <= start < s.nbCities && 0 <= end < s.nbCities && 0 <= pending < s.nbCities
    && SizesOk(s, D, P, PE, V, R)
    && 0 <= bound <= count <= s.nbCities
    && D[start] == 0 && P[start] == -1
    && VisitedCount(V) == count
  }

  /** Every finite distance is at most bound routes long. */
  ghost predicate Bounded(s: GameState, D: seq<int>, bound: int)
    requires |D| == s.nbCities
  {
    forall v :: 0 <= v < s.nbCities ==> D[v] == Unreached || 0 <= D[v] <= MaxRouteLength * bound
  }

  /** prev is unset exactly on the unreached nodes (start aside). */
  ghost predicate PrevMarks(s: GameState, start: int, D: seq<int>, P: seq<int>)
    requires |D| == s.nbCities && |P| == s.nbCities
  {
    forall v :: 0 <= v < s.nbCities && v != start ==> (P[v] == -1 <==> D[v] == Unreached)
  }

  /** v was reached through the route PE[v] from P[v], which is visited
      (and visited earlier than v, when v is visited). */
  ghost predicate TreeEdge(s: GameState, D: seq<int>, P: seq<int>, PE: seq<int>, V: seq<bool>, R: seq<int>, v: int)
    requires SizesOk(s, D, P, PE, V, R) && 0 <= v < s.nbCities
  {
    && 0 <= P[v] < s.nbCities && V[P[v]]
    && 0 <= PE[v] < |s.routes| && s.routes[PE[v]].owner != 2
    && Joins(s.routes[PE[v]], P[v], v)
    && D[v] == D[P[v]] + EdgeCost(s.routes[PE[v]])
    && (V[v] ==> R[P[v]] < R[v])
  }

  ghost predicate Tree(s: GameState, start: int, D: seq<int>, P: seq<int>, PE: seq<int>, V: seq<bool>, R: seq<int>)
    requires SizesOk(s, D, P, PE, V, R)
  {
    forall v {:trigger TreeEdge(s, D, P, PE, V, R, v)} ::
      0 <= v < s.nbCities && v != start && D[v] != Unreached ==> TreeEdge(s, D, P, PE, V, R, v)
  }

  /** Visited nodes are reached and numbered in order of visit. */
  ghost predicate Ranked(s: GameState, D: seq<int>, V: seq<bool>, R: seq<int>, count: int)
    requires |D| == s.nbCities && |V| == s.nbCities && |R| == s.nbCities
  {
    forall v :: 0 <= v < s.nbCities && V[v] ==> D[v] != Unreached && 0 <= R[v] < count
  }

  /** level separates the visited distances from the unvisited ones. */
  ghost predicate Layered(s: GameState, D: seq<int>, V: seq<bool>, level: int)
    requires |D| == s.nbCities && |V| == s.nbCities
  {
    && (forall x :: 0 <= x < s.nbCities && V[x] ==> D[x] <= level)
    && (forall y :: 0 <= y < s.nbCities && !V[y] ==> level <= D[y])
  }

  /** Route j, if crossable and at x, offers nothing better than D. */
  ghost predicate RouteRelaxed(s: GameState, D: seq<int>, x: int, j: int)
    requires ValidState(s) && |D| == s.nbCities && 0 <= j < |s.routes|
  {
    s.routes[j].owner != 2 && (s.routes[j].from == x || s.routes[j].to == x) ==>
      D[Other(s.routes[j], x)] <= D[x] + EdgeCost(s.routes[j])
  }

  /** Every crossable route at x has been relaxed. */
  ghost predicate Relaxed(s: GameState, D: seq<int>, x: int)
    requires ValidState(s) && |D| == s.nbCities
  {
    forall j :: 0 <= j < |s.routes| ==> RouteRelaxed(s, D, x, j)
  }

  /** Visited nodes other than end and pending have been relaxed. */
  ghost predicate AllRelaxed(s: GameState, D: seq<int>, V: seq<bool>, end: int, pending: int)
    requires ValidState(s) && |D| == s.nbCities && |V| == s.nbCities
  {
    forall x :: 0 <= x < s.nbCities && V[x] && x != end && x != pending ==> Relaxed(s, D, x)
  }

  /** The invariant of the main loop.  bound caps every finite distance;
      pending is a visited node whose routes are not relaxed yet (end when none). */
  ghost predicate DInv(s: GameState, start: int, end: int, D: seq<int>, P: seq<int>, PE: seq<int>, V: seq<bool>, R: seq<int>,
                       count: int, bound: int, level: int, pending: int)
  {
    && Shape(s, start, end, D, P, PE, V, R, count, bound, pending)
    && Bounded(s, D, bound)
    && PrevMarks(s, start, D, P)
    && Tree(s, start, D, P, PE, V, R)
    && Ranked(s, D, V, R, count)
    && Layered(s, D, V, level)
    && AllRelaxed(s, D, V, end, pending)
  }

  lemma {:induction false} VisitCountStep(V: seq<bool>, u: int)
    requires 0 <= u < |V| && !V[u]
    ensures VisitedCount(V[u := true]) == VisitedCount(V) + 1
  {
    var k := |V| - 1;
    if u < k {
      assert V[u := true][..k] == V[..k][u := true];
      VisitCountStep(V[..k], u);
    } else {
      assert V[u := true][..k] == V[..k];
    }
  }

  lemma {:induction false} MissingVisit(V: seq<bool>, x: int)
    requires 0 <= x < |V| && !V[x]
    ensures VisitedCount(V) < |V|
  {
    var k := |V| - 1;
    if x < k {
      MissingVisit(V[..k], x);
    }
  }

  // ---------------------------------------------------------------------------
  // Visiting the nearest node

  lemma VisitTree(s: GameState, start: int, D: seq<int>, P: seq<int>, PE: seq<int>, V: seq<bool>, R: seq<int>,
                  count: int, u: int)
    requires ValidState(s) && SizesOk(s, D, P, PE, V, R) && Tree(s, start, D, P, PE, V, R)
    requires Ranked(s, D, V, R, count) && 0 <= u < s.nbCities && !V[u]
    ensures Tree(s, start, D, P, PE, V[u := true], R[u := count])
  {
    var V', R' := V[u := true], R[u := count];
    forall v | 0 <= v < s.nbCities && v != start && D[v] != Unreached
      ensures TreeEdge(s, D, P, PE, V', R', v)
    {
      assert TreeEdge(s, D, P, PE, V, R, v);
      if v == u {
        assert P[u] != u;
      }
    }
  }

  lemma VisitLayered(s: GameState, D: seq<int>, V: seq<bool>, level: int, u: int)
    requires |D| == s.nbCities && |V| == s.nbCities && Layered(s, D, V, level)
    requires 0 <= u < s.nbCities && !V[u]
    requires forall i :: 0 <= i < s.nbCities && !V[i] ==> D[u] <= D[i]
    ensures Layered(s, D, V[u := true], D[u])
  {
    assert level <= D[u];
  }

  /** Marking the nearest unvisited node u as visited. */
  lemma VisitNearest(s: GameState, start: int, end: int, D: seq<int>, P: seq<int>, PE: seq<int>, V: seq<bool>, R: seq<int>,
                     count: int, level: int, u: int)
    requires DInv(s, start, end, D, P, PE, V, R, count, count, level, end) && !V[end]
    requires 0 <= u < s.nbCities && !V[u] && D[u] != Unreached
    requires forall i :: 0 <= i < s.nbCities && !V[i] ==> D[u] <= D[i]
    ensures DInv(s, start, end, D, P, PE, V[u := true], R[u := count], count + 1, count, D[u], u)
  {
    var V', R' := V[u := true], R[u := count];
    VisitCountStep(V, u);
    MissingVisit(V, u);
    VisitTree(s, start, D, P, PE, V, R, count, u);
    VisitLayered(s, D, V, level, u);
    assert Ranked(s, D, V', R', count + 1);
    assert AllRelaxed(s, D, V', end, u) by {
      forall x | 0 <= x < s.nbCities && V'[x] && x != end && x != u
        ensures Relaxed(s, D, x)
      {
        assert V[x];
      }
    }
  }

  // ---------------------------------------------------------------------------
  // Relaxing the routes of the visited node

  /** v either kept its entries or was improved through a route at u. */
  ghost predicate KeptOrImproved(s: GameState, u: int, D0: seq<int>, D: seq<int>, P0: seq<int>, P: seq<int>,
                                 PE0: seq<int>, PE: seq<int>, v: int)
    requires 0 <= u < |D0| && 0 <= v < |D0| && |D0| == |D| == |P0| == |P| == |PE0| == |PE|
  {
    || (D[v] == D0[v] && P[v] == P0[v] && PE[v] == PE0[v])
    || (&& D[v] < D0[v] && P[v] == u && 0 <= PE[v] < |s.routes| && s.routes[PE[v]].owner != 2
        && Joins(s.routes[PE[v]], u, v) && D[v] == D0[u] + EdgeCost(s.routes[PE[v]]))
  }

  /** The effect of relaxing the routes at u with index below i. */
  ghost predicate RelaxedUpTo(s: GameState, u: int, D0: seq<int>, D: seq<int>, P0: seq<int>, P: seq<int>,
                              PE0: seq<int>, PE: seq<int>, i: int)
    requires ValidState(s)
  {
    && 0 <= u < s.nbCities && 0 <= i <= |s.routes|
    && |D0| == |D| == |P0| == |P| == |PE0| == |PE| == s.nbCities
    && D[u] == D0[u]
    && (forall v :: 0 <= v < s.nbCities ==> KeptOrImproved(s, u, D0, D, P0, P, PE0, PE, v))
    && (forall j :: 0 <= j < i ==> RouteRelaxed(s, D, u, j))
  }

  /** Route i offers nothing better: every entry stays. */
  lemma RelaxSkip(s: GameState, u: int, D0: seq<int>, D: seq<int>, P0: seq<int>, P: seq<int>,
                  PE0: seq<int>, PE: seq<int>, i: int)
    requires ValidState(s) && RelaxedUpTo(s, u, D0, D, P0, P, PE0, PE, i) && i < |s.routes|
    requires RouteRelaxed(s, D, u, i)
    ensures RelaxedUpTo(s, u, D0, D, P0, P, PE0, PE, i + 1)
  {
  }

  /** Route i improves the other end v: v takes the new distance, u as prev and i as route. */
  lemma RelaxImprove(s: GameState, u: int, D0: seq<int>, D: seq<int>, P0: seq<int>, P: seq<int>,
                     PE0: seq<int>, PE: seq<int>, i: int, v: int)
    requires ValidState(s) && RelaxedUpTo(s, u, D0, D, P0, P, PE0, PE, i) && i < |s.routes|
    requires 0 <= D0[u]
    requires s.routes[i].owner != 2 && (s.routes[i].from == u || s.routes[i].to == u)
    requires v == Other(s.routes[i], u) && D[u] + EdgeCost(s.routes[i]) < D[v]
    ensures RelaxedUpTo(s, u, D0, D[v := D[u] + EdgeCost(s.routes[i])], P0, P[v := u], PE0, PE[v := i], i + 1)
  {
    var r := s.routes[i];
    assert ValidRoute(s.nbCities, r);
    var D', P', PE' := D[v := D[u] + EdgeCost(r)], P[v := u], PE[v := i];
    assert v != u;
    forall w | 0 <= w < s.nbCities
      ensures KeptOrImproved(s, u, D0, D', P0, P', PE0, PE', w)
    {
      if w != v {
        assert KeptOrImproved(s, u, D0, D, P0, P, PE0, PE, w);
      } else {
        assert KeptOrImproved(s, u, D0, D, P0, P, PE0, PE, v);
        assert Joins(r, u, v);
      }
    }
    forall j | 0 <= j <= i
      ensures RouteRelaxed(s, D', u, j)
    {
      if j < i {
        assert RouteRelaxed(s, D, u, j);
      }
    }
  }

  lemma RelaxKeepsVisited(s: GameState, u: int, D0: seq<int>, D: seq<int>, P0: seq<int>, P: seq<int>,
                          PE0: seq<int>, PE: seq<int>, V: seq<bool>, level: int)
    requires ValidState(s) && RelaxedUpTo(s, u, D0, D, P0, P, PE0, PE, |s.routes|)
    requires |V| == s.nbCities && Layered(s, D0, V, level) && D0[u] == level && 0 <= level
    ensures forall x :: 0 <= x < s.nbCities && V[x] ==> D[x] == D0[x] && P[x] == P0[x] && PE[x] == PE0[x]
    ensures Layered(s, D, V, level)
  {
    forall x | 0 <= x < s.nbCities && V[x]
      ensures D[x] == D0[x] && P[x] == P0[x] && PE[x] == PE0[x]
    {
      assert KeptOrImproved(s, u, D0, D, P0, P, PE0, PE, x);
      assert D0[x] <= level;
    }
    forall y | 0 <= y < s.nbCities && !V[y]
      ensures level <= D[y]
    {
      assert KeptOrImproved(s, u, D0, D, P0, P, PE0, PE, y);
    }
  }

  lemma RelaxTree(s: GameState, start: int, u: int, D0: seq<int>, D: seq<int>, P0: seq<int>, P: seq<int>,
                  PE0: seq<int>, PE: seq<int>, V: seq<bool>, R: seq<int>)
    requires ValidState(s) && RelaxedUpTo(s, u, D0, D, P0, P, PE0, PE, |s.routes|)
    requires SizesOk(s, D0, P0, PE0, V, R) && Tree(s, start, D0, P0, PE0, V, R)
    requires V[u] && forall x :: 0 <= x < s.nbCities && V[x] ==> D[x] == D0[x] && P[x] == P0[x] && PE[x] == PE0[x]
    ensures Tree(s, start, D, P, PE, V, R)
  {
    forall v | 0 <= v < s.nbCities && v != start && D[v] != Unreached
      ensures TreeEdge(s, D, P, PE, V, R, v)
    {
      assert KeptOrImproved(s, u, D0, D, P0, P, PE0, PE, v);
      if D[v] == D0[v] && P[v] == P0[v] && PE[v] == PE0[v] {
        assert TreeEdge(s, D0, P0, PE0, V, R, v);
      } else {
        assert !V[v];
      }
    }
  }

  lemma RelaxMarks(s: GameState, start: int, u: int, D0: seq<int>, D: seq<int>, P0: seq<int>, P: seq<int>,
                   PE0: seq<int>, PE: seq<int>, count: int)
    requires ValidState(s) && RelaxedUpTo(s, u, D0, D, P0, P, PE0, PE, |s.routes|) && 1 <= count <= s.nbCities
    requires PrevMarks(s, start, D0, P0) && Bounded(s, D0, count - 1) && D0[u] != Unreached
    ensures PrevMarks(s, start, D, P) && Bounded(s, D, count)
  {
    forall v | 0 <= v < s.nbCities
      ensures D[v] == Unreached || 0 <= D[v] <= MaxRouteLength * count
      ensures v != start ==> (P[v] == -1 <==> D[v] == Unreached)
    {
      assert KeptOrImproved(s, u, D0, D, P0, P, PE0, PE, v);
      if D[v] != D0[v] {
        assert ValidRoute(s.nbCities, s.routes[PE[v]]);
      }
    }
  }

  /** Relaxing the routes of the pending node u restores the loop invariant. */
  lemma RelaxRestores(s: GameState, start: int, end: int, D0: seq<int>, P0: seq<int>, PE0: seq<int>,
                      D: seq<int>, P: seq<int>, PE: seq<int>, V: seq<bool>, R: seq<int>, count: int, level: int, u: int)
    requires 1 <= count && DInv(s, start, end, D0, P0, PE0, V, R, count, count - 1, level, u)
    requires V[u] && !V[end] && u != end && level == D0[u]
    requires RelaxedUpTo(s, u, D0, D, P0, P, PE0, PE, |s.routes|)
    ensures DInv(s, start, end, D, P, PE, V, R, count, count, level, end)
  {
    assert D0[start] == 0;
    assert KeptOrImproved(s, u, D0, D, P0, P, PE0, PE, start);
    RelaxKeepsVisited(s, u, D0, D, P0, P, PE0, PE, V, level);
    RelaxTree(s, start, u, D0, D, P0, P, PE0, PE, V, R);
    RelaxMarks(s, start, u, D0, D, P0, P, PE0, PE, count);
    assert Ranked(s, D, V, R, count) by {
      assert Ranked(s, D0, V, R, count);
    }
    RelaxOthers(s, end, u, D0, D, P0, P, PE0, PE, V);
  }

  /** Relaxation only lowers distances of other nodes, so routes relaxed
      earlier stay relaxed. */
  lemma RelaxOthers(s: GameState, end: int, u: int, D0: seq<int>, D: seq<int>, P0: seq<int>, P: seq<int>,
                    PE0: seq<int>, PE: seq<int>, V: seq<bool>)
    requires ValidState(s) && RelaxedUpTo(s, u, D0, D, P0, P, PE0, PE, |s.routes|) && |V| == s.nbCities
    requires AllRelaxed(s, D0, V, end, u) && V[u]
    requires forall x :: 0 <= x < s.nbCities && V[x] ==> D[x] == D0[x]
    ensures AllRelaxed(s, D, V, end, end)
  {
    forall x, j | 0 <= x < s.nbCities && V[x] && x != end && 0 <= j < |s.routes|
      ensures RouteRelaxed(s, D, x, j)
    {
      if x == u {
        assert Relaxed(s, D, u);
      } else {
        assert Relaxed(s, D0, x);
        assert RouteRelaxed(s, D0, x, j);
        assert ValidRoute(s.nbCities, s.routes[j]);
        assert KeptOrImproved(s, u, D0, D, P0, P, PE0, PE, Other(s.routes[j], x));
      }
    }
  }

  // ---------------------------------------------------------------------------
  // Optimality and unreachability

  /** Along a walk whose first k nodes are visited and relaxed, D bounds the
      cost of reaching the k-th node. */
  lemma {:induction false} PrefixBound(s: GameState, start: int, end: int, D: seq<int>, V: seq<bool>,
                                        p: seq<int>, e: seq<int>, k: int)
    requires ValidState(s) && 0 <= start < s.nbCities && |D| == s.nbCities && |V| == s.nbCities
    requires D[start] == 0 && AllRelaxed(s, D, V, end, end)
    requires IsWalk(s, p, e) && p[0] == start && 0 <= k <= |e|
    requires forall j :: 0 <= j < k ==> 0 <= p[j] < s.nbCities && V[p[j]] && p[j] != end
    ensures 0 <= p[k] < s.nbCities && D[p[k]] <= WalkCost(s, e[..k])
  {
    if k == 0 {
      assert e[..0] == [];
    } else {
      PrefixBound(s, start, end, D, V, p, e, k - 1);
      var x := p[k - 1];
      var r := s.routes[e[k - 1]];
      assert ValidRoute(s.nbCities, r);
      assert Relaxed(s, D, x);
      assert RouteRelaxed(s, D, x, e[k - 1]);
      assert Other(r, x) == p[k];
      assert e[..k][..k - 1] == e[..k - 1];
    }
  }

  /** No walk from start to end is cheaper than D[end]. */
  lemma LowerBound(s: GameState, start: int, end: int, D: seq<int>, V: seq<bool>, level: int,
                   p: seq<int>, e: seq<int>)
    requires ValidState(s) && 0 <= start < s.nbCities && 0 <= end < s.nbCities
    requires |D| == s.nbCities && |V| == s.nbCities && D[start] == 0
    requires AllRelaxed(s, D, V, end, end) && Layered(s, D, V, level) && V[end]
    requires IsWalk(s, p, e) && p[0] == start && p[|p| - 1] == end
    ensures D[end] <= WalkCost(s, e)
  {
    WalkNodesInRange(s, p, e);
    var j := 0;
    while j < |e| && V[p[j]] && p[j] != end
      invariant 0 <= j <= |e|
      invariant forall i :: 0 <= i < j ==> 0 <= p[i] < s.nbCities && V[p[i]] && p[i] != end
    {
      j := j + 1;
    }
    PrefixBound(s, start, end, D, V, p, e, j);
    WalkCostPrefix(s, e, j);
  }

  /** When every unvisited node is unreached, no walk leaves the visited set. */
  lemma NoWalk(s: GameState, start: int, end: int, D: seq<int>, V: seq<bool>)
    requires ValidState(s) && 0 <= start < s.nbCities && 0 <= end < s.nbCities
    requires |D| == s.nbCities && |V| == s.nbCities && AllRelaxed(s, D, V, end, end)
    requires Bounded(s, D, s.nbCities) && forall x :: 0 <= x < s.nbCities && V[x] ==> D[x] != Unreached
    requires V[start] && !V[end]
    requires forall i :: 0 <= i < s.nbCities && !V[i] ==> D[i] >= Unreached
    ensures !Reachable(s, start, end)
  {
    if Reachable(s, start, end) {
      var p, e :| IsWalk(s, p, e) && p[0] == start && p[|p| - 1] == end;
      WalkNodesInRange(s, p, e);
      var j := 0;
      while j < |p| - 1
        invariant 0 <= j < |p| && V[p[j]]
      {
        var x := p[j];
        assert Relaxed(s, D, x);
        assert RouteRelaxed(s, D, x, e[j]);
        assert Other(s.routes[e[j]], x) == p[j + 1];
        j := j + 1;
      }
      assert false;
    }
  }

  // ---------------------------------------------------------------------------
  // The search

  /** The array scan choosing the unvisited node nearest to start (the first
      one on ties); -1 when every unvisited node is unreached. */
  method SelectNearest(dist: array<int>, visited: array<bool>) returns (u: int)
    requires dist.Length == visited.Length
    ensures -1 <= u < dist.Length
    ensures u == -1 <==> forall i :: 0 <= i < dist.Length && !visited[i] ==> dist[i] >= Unreached
    ensures u != -1 ==> !visited[u] && dist[u] < Unreached
    ensures u != -1 ==> forall i :: 0 <= i < dist.Length && !visited[i] ==> dist[u] <= dist[i]
    ensures u != -1 ==> forall i :: 0 <= i < u && !visited[i] ==> dist[u] < dist[i]
  {
    u := -1;
    var minDist := Unreached;
    for i := 0 to dist.Length
      invariant -1 <= u < i
      invariant u == -1 ==> minDist == Unreached
      invariant u != -1 ==> !visited[u] && dist[u] == minDist < Unreached
      invariant forall j :: 0 <= j < i && !visited[j] ==> minDist <= dist[j]
      invariant u != -1 ==> forall j :: 0 <= j < u && !visited[j] ==> minDist < dist[j]
    {
      if !visited[i] && dist[i] < minDist {
        minDist := dist[i];
        u := i;
      }
    }
  }

  /** The inner route loop: relax every crossable route at u. */
  method RelaxRoutes(s: GameState, u: int, dist: array<int>, prev: array<int>, ghost pe: seq<int>)
    returns (ghost pe': seq<int>)
    requires ValidState(s) && 0 <= u < s.nbCities
    requires dist.Length == s.nbCities && prev.Length == s.nbCities && |pe| == s.nbCities && dist != prev
    requires 0 <= dist[u] < Unreached
    modifies dist, prev
    ensures RelaxedUpTo(s, u, old(dist[..]), dist[..], old(prev[..]), prev[..], pe, pe', |s.routes|)
  {
    ghost var D0, P0 := dist[..], prev[..];
    pe' := pe;
    for i := 0 to |s.routes|
      invariant RelaxedUpTo(s, u, D0, dist[..], P0, prev[..], pe, pe', i)
    {
      ghost var D, P, PE := dist[..], prev[..], pe';
      var r := s.routes[i];
      if r.owner == 2 {
        RelaxSkip(s, u, D0, D, P0, P, pe, PE, i);
        continue;
      }
      var length := r.length;
      if r.owner == 1 {
        length := 0;
      }
      if r.from == u || r.to == u {
        var v := if r.from == u then r.to else r.from;
        var newDist := dist[u] + length;
        if newDist < dist[v] {
          RelaxImprove(s, u, D0, D, P0, P, pe, PE, i, v);
          dist[v] := newDist;
          prev[v] := u;
          pe' := pe'[v := i];
          assert dist[..] == D[v := newDist] && prev[..] == P[v := u];
        } else {
          RelaxSkip(s, u, D0, D, P0, P, pe, PE, i);
        }
      } else {
        RelaxSkip(s, u, D0, D, P0, P, pe, PE, i);
      }
    }
  }

  lemma InitInv(s: GameState, start: int, end: int, D: seq<int>, P: seq<int>, PE: seq<int>, V: seq<bool>, R: seq<int>)
    requires ValidState(s) && 0 <= start < s.nbCities && 0 <= end < s.nbCities && SizesOk(s, D, P, PE, V, R)
    requires forall j :: 0 <= j < s.nbCities ==> D[j] == (if j == start then 0 else Unreached) && P[j] == -1 && !V[j]
    ensures DInv(s, start, end, D, P, PE, V, R, 0, 0, 0, end)
  {
    NoneVisited(V);
  }

  lemma {:induction false} NoneVisited(V: seq<bool>)
    requires forall k :: 0 <= k < |V| ==> !V[k]
    ensures VisitedCount(V) == 0
  {
    if V != [] {
      NoneVisited(V[..|V| - 1]);
    }
  }

  /** Following prev back from a visited end yields a walk of cost D[end]. */
  method Reconstruct(s: GameState, start: int, end: int, ghost D: seq<int>, prev: array<int>, ghost PE: seq<int>,
                     ghost V: seq<bool>, ghost R: seq<int>, ghost count: int)
    returns (path: seq<int>, ghost edges: seq<int>)
    requires SizesOk(s, D, prev[..], PE, V, R) && 0 <= start < s.nbCities && 0 <= end < s.nbCities
    requires ValidState(s) && D[start] == 0 && Tree(s, start, D, prev[..], PE, V, R)
    requires Ranked(s, D, V, R, count) && count <= s.nbCities && V[end]
    ensures IsWalk(s, path, edges) && path[0] == start && path[|path| - 1] == end
    ensures WalkCost(s, edges) == D[end] && |path| <= s.nbCities
    ensures start == end ==> path == [start]
  {
    var current := end;
    path := [end];
    edges := [];
    while current != start
      invariant 0 <= current < s.nbCities && V[current]
      invariant IsWalk(s, path, edges) && path[0] == current && path[|path| - 1] == end
      invariant WalkCost(s, edges) + D[current] == D[end]
      invariant |path| + R[current] <= R[end] + 1
      decreases R[current]
    {
      ghost var r := PE[current];
      BackStep(s, start, end, D, prev[..], PE, V, R, count, current, path, edges);
      current := prev[current];
      path := [current] + path;
      edges := [r] + edges;
    }
  }

  /** One step back along the tree from a visited node other than start:
      the walk grows by the tree edge and keeps its cost and rank bounds. */
  lemma BackStep(s: GameState, start: int, end: int, D: seq<int>, P: seq<int>, PE: seq<int>, V: seq<bool>,
                 R: seq<int>, count: int, current: int, path: seq<int>, edges: seq<int>)
    requires SizesOk(s, D, P, PE, V, R) && 0 <= start < s.nbCities && 0 <= end < s.nbCities
    requires ValidState(s) && Tree(s, start, D, P, PE, V, R) && Ranked(s, D, V, R, count)
    requires 0 <= current < s.nbCities && V[current] && current != start
    requires IsWalk(s, path, edges) && path[0] == current && path[|path| - 1] == end
    requires WalkCost(s, edges) + D[current] == D[end]
    requires |path| + R[current] <= R[end] + 1
    ensures 0 <= P[current] < s.nbCities && V[P[current]] && R[P[current]] < R[current]
    ensures 0 <= PE[current] < |s.routes|
    ensures IsWalk(s, [P[current]] + path, [PE[current]] + edges)
    ensures WalkCost(s, [PE[current]] + edges) + D[P[current]] == D[end]
  {
    assert TreeEdge(s, D, P, PE, V, R, current);
    WalkCostPrepend(s, PE[current], edges);
    WalkPrepend(s, P[current], PE[current], path, edges);
  }

  /** The main loop: visit the nearest unvisited node and relax its routes,
      until end is visited or every unvisited node is unreached. */
  method Explore(s: GameState, start: int, end: int, dist: array<int>, prev: array<int>, visited: array<bool>)
    returns (ghost pe: seq<int>, ghost rank: seq<int>, ghost visitedCount: int, ghost bound: int, ghost level: int)
    requires ValidState(s) && 0 <= start < s.nbCities && 0 <= end < s.nbCities
    requires dist.Length == s.nbCities && prev.Length == s.nbCities && visited.Length == s.nbCities && dist != prev
    requires forall j :: 0 <= j < s.nbCities ==> dist[j] == (if j == start then 0 else Unreached) && prev[j] == -1 && !visited[j]
    modifies dist, prev, visited
    ensures DInv(s, start, end, dist[..], prev[..], pe, visited[..], rank, visitedCount, bound, level, end)
    ensures visited[end] || forall i :: 0 <= i < s.nbCities && !visited[i] ==> dist[i] >= Unreached
  {
    var n := s.nbCities;
    pe := seq(n, _ => 0);
    rank := seq(n, _ => 0);
    level := 0;
    InitInv(s, start, end, dist[..], prev[..], pe, visited[..], rank);

    // ghost copies of count and bound that survive the break on end
    visitedCount, bound := 0, 0;
    var count := 0;
    while count < n
      invariant DInv(s, start, end, dist[..], prev[..], pe, visited[..], rank, count, count, level, end)
      invariant !visited[end] && visitedCount == count == bound
      decreases n - count
    {
      var u := SelectNearest(dist, visited);
      if u == -1 || dist[u] == Unreached {
        break;
      }
      VisitNearest(s, start, end, dist[..], prev[..], pe, visited[..], rank, count, level, u);
      visited[u] := true;
      rank := rank[u := count];
      level := dist[u];
      if u == end {
        visitedCount := count + 1;
        break;
      }
      ghost var D0, P0, PE0 := dist[..], prev[..], pe;
      pe := RelaxRoutes(s, u, dist, prev, pe);
      RelaxRestores(s, start, end, D0, P0, PE0, dist[..], prev[..], pe, visited[..], rank, count + 1, level, u);
      count := count + 1;
      visitedCount, bound := count, count;
    }
    assert visited[end] || forall i :: 0 <= i < n && !visited[i] ==> dist[i] >= Unreached by {
      if !visited[end] && count == n {
        MissingVisit(visited[..], end);
      }
    }
  }

  /** findSmartestPath: the cheapest walk from start to end in wagons still to
      pay, and its cost; cost -1 and an empty path when there is none. */
  method FindSmartestPath(s: GameState, start: int, end: int) returns (cost: int, path: seq<int>)
    requires ValidState(s)
    ensures PathResult(s, start, end, cost, path)
  {
    var n := s.nbCities;
    if start < 0 || start >= n || end < 0 || end >= n {
      return -1, [];
    }
    var dist := new int[n];
    var prev := new int[n];
    var visited := new bool[n];
    for i := 0 to n
      invariant forall j :: 0 <= j < i ==> dist[j] == Unreached && prev[j] == -1 && !visited[j]
    {
      dist[i] := Unreached;
      prev[i] := -1;
      visited[i] := false;
    }
    dist[start] := 0;
    ghost var pe, rank, visitedCount, bound, level := Explore(s, start, end, dist, prev, visited);
    ghost var D, V := dist[..], visited[..];

    if prev[end] == -1 && start != end {
      assert !V[end];
      assert V[start] by {
        assert D[start] == 0;
      }
      NoWalk(s, start, end, D, V);
      assert !Reachable(s, start, end);
      return -1, [];
    }
    assert V[end];

    ghost var edges;
    path, edges := Reconstruct(s, start, end, D, prev, pe, V, rank, visitedCount);
    cost := dist[end];
    forall p, e | IsWalk(s, p, e) && p[0] == start && p[|p| - 1] == end
      ensures cost <= WalkCost(s, e)
    {
      LowerBound(s, start, end, D, V, level, p, e);
    }
    Found(s, start, end, cost, path, edges);
  }

  lemma Found(s: GameState, start: int, end: int, cost: int, path: seq<int>, edges: seq<int>)
    requires ValidState(s) && 0 <= start < s.nbCities && 0 <= end < s.nbCities
    requires IsWalk(s, path, edges) && path[0] == start && path[|path| - 1] == end && |path| <= s.nbCities
    requires WalkCost(s, edges) == cost && (start == end ==> path == [start])
    requires forall p, e :: IsWalk(s, p, e) && p[0] == start && p[|p| - 1] == end ==> cost <= WalkCost(s, e)
    ensures PathResult(s, start, end, cost, path)
  {
    WalkCostNonNegative(s, edges);
    assert Reachable(s, start, end);
  }
}
