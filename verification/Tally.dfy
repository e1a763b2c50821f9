/** Tallies of the owners reported along a city path, as the objective
    evaluators compute them: for each consecutive pair of the path, the owner
    getRouteOwner reports for that pair. */
module Tally {
  import opened Types
  import opened Routes
  import opened Paths

  /** Number of consecutive pairs of a path: pathLength - 1, none for an empty path. */
  function Edges(path: seq<int>): (k: nat)
    ensures |path| >= 1 ==> k == |path| - 1
    ensures |path| == 0 ==> k == 0
  {
    if |path| == 0 then 0 else |path| - 1
  }

  /** Among the first k pairs of path, those whose reported owner is o. */
  function CountOwner(s: GameState, path: seq<int>, o: int, k: nat): (c: nat)
    requires ValidState(s) && k <= Edges(path)
    ensures c <= k
  {
    if k == 0 then 0
    else CountOwner(s, path, o, k - 1) + (if GetRouteOwner(s, path[k - 1], path[k]) == o then 1 else 0)
  }

  /** The tally loop: pairs reported as ours (owner 1), as unclaimed (owner 0),
      and the rest (an opponent's route, or no route at all). */
  method TallyPath(s: GameState, path: seq<int>) returns (owned: int, free: int, blocked: int)
    requires ValidState(s)
    ensures owned == CountOwner(s, path, 1, Edges(path))
    ensures free == CountOwner(s, path, 0, Edges(path))
    ensures blocked >= 0 && owned + free + blocked == Edges(path)
  {
    owned, free, blocked := 0, 0, 0;
    var j := 0;
    while j < |path| - 1
      invariant 0 <= j <= Edges(path)
      invariant owned == CountOwner(s, path, 1, j) && free == CountOwner(s, path, 0, j)
      invariant blocked >= 0 && owned + free + blocked == j
    {
      var owner := GetRouteOwner(s, path[j], path[j + 1]);
      if owner == 1 {
        owned := owned + 1;
      } else if owner == 0 {
        free := free + 1;
      } else {
        blocked := blocked + 1;
      }
      j := j + 1;
    }
  }

  /** A count reaching k means every one of the first k pairs reports o. */
  lemma {:induction false} CountOwnerFull(s: GameState, path: seq<int>, o: int, k: nat)
    requires ValidState(s) && k <= Edges(path) && CountOwner(s, path, o, k) == k
    ensures forall j :: 0 <= j < k ==> GetRouteOwner(s, path[j], path[j + 1]) == o
  {
    if k > 0 {
      CountOwnerFull(s, path, o, k - 1);
    }
  }

  /** No pair among the first k reporting o leaves the count at zero. */
  lemma {:induction false} CountOwnerNone(s: GameState, path: seq<int>, o: int, k: nat)
    requires ValidState(s) && k <= Edges(path)
    requires forall j :: 0 <= j < k ==> GetRouteOwner(s, path[j], path[j + 1]) != o
    ensures CountOwner(s, path, o, k) == 0
  {
    if k > 0 {
      CountOwnerNone(s, path, o, k - 1);
    }
  }

  /** Along a path whose every pair is reported as ours, the first route of
      each pair is ours: following them is a walk that costs nothing. */
  lemma {:induction false} OwnedWalk(s: GameState, path: seq<int>, k: nat) returns (e: seq<int>)
    requires ValidState(s) && 1 <= |path| && k < |path|
    requires forall j :: 0 <= j < k ==> GetRouteOwner(s, path[j], path[j + 1]) == 1
    ensures IsWalk(s, path[..k + 1], e) && WalkCost(s, e) == 0
  {
    if k == 0 {
      e := [];
    } else {
      var e' := OwnedWalk(s, path, k - 1);
      var i := FirstJoining(s.routes, path[k - 1], path[k], 0);
      assert GetRouteOwner(s, path[k - 1], path[k]) == 1;
      assert i != -1 && s.routes[i].owner == 1 && Joins(s.routes[i], path[k - 1], path[k]);
      e := e' + [i];
      var p, p' := path[..k + 1], path[..k];
      forall j | 0 <= j < |e|
        ensures 0 <= e[j] < |s.routes| && s.routes[e[j]].owner != 2 && Joins(s.routes[e[j]], p[j], p[j + 1])
      {
        if j < |e'| {
          assert e[j] == e'[j] && p[j] == p'[j] && p[j + 1] == p'[j + 1];
        }
      }
      assert e[..|e| - 1] == e';
      assert WalkCost(s, e) == WalkCost(s, e') + EdgeCost(s.routes[i]);
    }
  }

  /** A cheapest path of positive cost has a pair not reported as ours: had
      every pair a route of ours, the walk along those routes would be free. */
  lemma PositiveCostNeedsRoute(s: GameState, a: int, b: int, cost: int, path: seq<int>)
    requires ValidState(s) && PathResult(s, a, b, cost, path) && cost > 0
    ensures CountOwner(s, path, 1, Edges(path)) < Edges(path)
  {
    if CountOwner(s, path, 1, Edges(path)) == Edges(path) {
      CountOwnerFull(s, path, 1, Edges(path));
      assert path[..|path|] == path;
      var e := OwnedWalk(s, path, |path| - 1);
      assert false;
    }
  }
}
