/** Choosing objectives when offered, and picking the held objective to work
    on next. */
module Objectives {
  import opened Types
  import opened Routes
  import opened Paths
  import opened Tally

  // ---------------------------------------------------------------------------
  // Tallies along a cheapest path

  /** Pairs of the path reported as ours. */
  function Owned(s: GameState, path: seq<int>): nat
    requires ValidState(s)
  {
    CountOwner(s, path, 1, Edges(path))
  }

  /** Pairs of the path reported as unclaimed: the routes still to claim. */
  function Free(s: GameState, path: seq<int>): nat
    requires ValidState(s)
  {
    CountOwner(s, path, 0, Edges(path))
  }

  /** Pairs of the path reported as the opponent's, or joined by no route. */
  function Blocked(s: GameState, path: seq<int>): int
    requires ValidState(s)
  {
    Edges(path) - Owned(s, path) - Free(s, path)
  }

  /** An unblocked cheapest path of positive cost has a route left to claim. */
  lemma UnblockedNeedsClaim(s: GameState, a: int, b: int, cost: int, path: seq<int>)
    requires ValidState(s) && PathResult(s, a, b, cost, path) && cost > 0 && Blocked(s, path) == 0
    ensures Free(s, path) >= 1
  {
    PositiveCostNeedsRoute(s, a, b, cost, path);
  }

  /** The pairs reported as ours or as unclaimed are at most all the pairs. */
  lemma {:induction false} KnownAtMost(s: GameState, path: seq<int>, k: nat)
    requires ValidState(s) && k <= Edges(path)
    ensures CountOwner(s, path, 0, k) + CountOwner(s, path, 1, k) <= k
  {
    if k > 0 {
      KnownAtMost(s, path, k - 1);
    }
  }

  /** A pair reported as neither ours nor unclaimed leaves the two counts short. */
  lemma {:induction false} OtherOwnerLowersCount(s: GameState, path: seq<int>, j: nat, k: nat)
    requires ValidState(s) && j < k <= Edges(path)
    requires GetRouteOwner(s, path[j], path[j + 1]) != 0 && GetRouteOwner(s, path[j], path[j + 1]) != 1
    ensures CountOwner(s, path, 0, k) + CountOwner(s, path, 1, k) < k
  {
    if k == j + 1 {
      KnownAtMost(s, path, j);
    } else {
      OtherOwnerLowersCount(s, path, j, k - 1);
    }
  }

  /** On a path with no blocked pair, every pair is reported ours or unclaimed. */
  lemma UnblockedPairsKnown(s: GameState, path: seq<int>, j: int)
    requires ValidState(s) && Blocked(s, path) == 0 && 0 <= j < Edges(path)
    ensures GetRouteOwner(s, path[j], path[j + 1]) == 0 || GetRouteOwner(s, path[j], path[j + 1]) == 1
  {
    if GetRouteOwner(s, path[j], path[j + 1]) != 0 && GetRouteOwner(s, path[j], path[j + 1]) != 1 {
      OtherOwnerLowersCount(s, path, j, Edges(path));
    }
  }

  // ---------------------------------------------------------------------------
  // simpleChooseObjectives

  /** The cities simpleChooseObjectives avoids, listed as the source does. */
  const EastCoastCities: seq<int> :=
    [30, 31, 32, 33, 34, 35, 36, 37, 38, 39, 40, 20, 21, 22, 23, 24, 25, 26, 27, 28, 29]

  /** The avoided cities are exactly 20 to 40. */
  lemma EastCoastRange(city: int)
    ensures city in EastCoastCities <==> 20 <= city <= 40
  {
    if 20 <= city <= 40 {
      assert EastCoastCities[if city >= 30 then city - 30 else city - 9] == city;
    }
  }

  /** The evaluation of one offered objective. */
  datatype Eval = Eval(
    index: int,           // position among the three offered
    distance: int,        // cost of the cheapest path, -1 when there is none
    score: int,
    isEastCoast: bool,
    usesNetwork: bool,    // some pair of the path is already ours
    routesNeeded: int,    // pairs of the path not yet ours; 999 when distance <= 0
    finalScore: real)

  /** The weighting of simpleChooseObjectives: points per wagon to pay,
      times 0.3 on the east coast, 2 when the path uses the network, 1.5 for
      at most one route to claim (1.2 for two) and 0.5 beyond five; nothing
      without a path of positive cost. */
  function FinalScore(score: int, distance: int, isEastCoast: bool, usesNetwork: bool, routesNeeded: int): real {
    if distance <= 0 then 0.0
    else
      var f := score as real / distance as real;
      var f := if isEastCoast then f * 0.3 else f;
      var f := if usesNetwork then f * 2.0 else f;
      var f := if routesNeeded <= 1 then f * 1.5 else if routesNeeded <= 2 then f * 1.2 else f;
      if routesNeeded > 5 then f * 0.5 else f
  }

  /** The weighting only scales the points per wagon by a positive factor:
      a path of positive cost scores above zero exactly for a positive score. */
  lemma FinalScoreSign(score: int, distance: int, isEastCoast: bool, usesNetwork: bool, routesNeeded: int)
    ensures FinalScore(score, distance, isEastCoast, usesNetwork, routesNeeded) > 0.0 <==> distance > 0 && score > 0
  {
    if distance > 0 {
      var q := score as real / distance as real;
      assert q > 0.0 <==> score > 0 by {
        assert q * distance as real == score as real;
      }
    }
  }

  /** The east coast penalty and the network bonus are plain factors. */
  lemma FinalScoreFactors(score: int, distance: int, usesNetwork: bool, routesNeeded: int)
    ensures FinalScore(score, distance, true, usesNetwork, routesNeeded)
            == 0.3 * FinalScore(score, distance, false, usesNetwork, routesNeeded)
    ensures FinalScore(score, distance, false, true, routesNeeded)
            == 2.0 * FinalScore(score, distance, false, false, routesNeeded)
  {
  }

  /** What an evaluation records about offered objective o at position i,
      given the cheapest path found for it. */
  ghost predicate Evaluates(s: GameState, o: Objective, i: int, e: Eval, path: seq<int>)
    requires ValidState(s)
  {
    && e.index == i && e.score == o.score
    && e.isEastCoast == (o.from in EastCoastCities || o.to in EastCoastCities)
    && PathResult(s, o.from, o.to, e.distance, path)
    && (e.distance > 0 ==> e.routesNeeded == Edges(path) - Owned(s, path) && e.usesNetwork == (Owned(s, path) > 0))
    && (e.distance <= 0 ==> e.routesNeeded == 999 && !e.usesNetwork)
    && e.finalScore == FinalScore(e.score, e.distance, e.isEastCoast, e.usesNetwork, e.routesNeeded)
  }

  /** The evaluation loop body of simpleChooseObjectives for one objective. */
  method EvaluateObjective(s: GameState, o: Objective, i: int) returns (e: Eval, ghost path: seq<int>)
    requires ValidState(s)
    ensures Evaluates(s, o, i, e, path)
    ensures e.finalScore > 0.0 <==> e.distance > 0 && o.score > 0
    ensures e.distance > 0 ==> e.routesNeeded >= 1
  {
    var isEastCoast := false;
    for j := 0 to |EastCoastCities|
      invariant isEastCoast == (o.from in EastCoastCities[..j] || o.to in EastCoastCities[..j])
    {
      if o.from == EastCoastCities[j] || o.to == EastCoastCities[j] {
        isEastCoast := true;
        assert o.from in EastCoastCities || o.to in EastCoastCities;
        break;
      }
    }
    assert EastCoastCities[..|EastCoastCities|] == EastCoastCities;
    var distance, objPath := FindSmartestPath(s, o.from, o.to);
    path := objPath;
    var usesNetwork := false;
    var routesNeeded := 999;
    if distance > 0 {
      var owned, free, blocked := TallyPath(s, objPath);
      routesNeeded := Edges(objPath) - owned;
      usesNetwork := owned > 0;
      PositiveCostNeedsRoute(s, o.from, o.to, distance, objPath);
    }
    var finalScore := FinalScore(o.score, distance, isEastCoast, usesNetwork, routesNeeded);
    e := Eval(i, distance, o.score, isEastCoast, usesNetwork, routesNeeded, finalScore);
    FinalScoreSign(o.score, distance, isEastCoast, usesNetwork, routesNeeded);
  }

  /** Exchanging two entries permutes a sequence. */
  lemma SwapPermutes<T>(q: seq<T>, i: int, j: int)
    requires 0 <= i < |q| && 0 <= j < |q|
    ensures multiset(q[i := q[j]][j := q[i]]) == multiset(q)
  {
    if i != j {
      var a := q[i := q[j]];
      assert multiset(a) == multiset(q) - multiset{q[i]} + multiset{q[j]};
      assert multiset(a[j := q[i]]) == multiset(a) - multiset{q[j]} + multiset{q[i]};
    }
  }

  /** Exchanges two entries of an array. */
  method Swap<T>(a: array<T>, i: int, j: int)
    requires 0 <= i < a.Length && 0 <= j < a.Length
    modifies a
    ensures a[..] == old(a[..])[i := old(a[j])][j := old(a[i])]
    ensures multiset(a[..]) == multiset(old(a[..]))
  {
    a[i], a[j] := a[j], a[i];
    SwapPermutes(old(a[..]), i, j);
  }

  /** One comparison of the exchange sort: entries i and j change places
      when entry j scores strictly higher. */
  function SwapIfLess(q: seq<Eval>, i: int, j: int): (r: seq<Eval>)
    requires 0 <= i < |q| && 0 <= j < |q|
    ensures |r| == |q|
  {
    if q[i].finalScore < q[j].finalScore then q[i := q[j]][j := q[i]] else q
  }

  /** The comparisons of entry i with entries i + 1 to n - 1, in order. */
  function Pass(q: seq<Eval>, i: int, n: int): (r: seq<Eval>)
    requires 0 <= i < |q| && n <= |q|
    ensures |r| == |q|
    decreases n
  {
    if n <= i + 1 then q else SwapIfLess(Pass(q, i, n - 1), i, n - 1)
  }

  /** The arrangement the exchange sort of simpleChooseObjectives leaves
      three evaluations in: a pass from entry 0, then one from entry 1. */
  function ExchangeSorted(q: seq<Eval>): (r: seq<Eval>)
    requires |q| == 3
    ensures |r| == 3
  {
    Pass(Pass(q, 0, 3), 1, 3)
  }

  /** What a pass from entry i has achieved on q once it has compared entry
      i with the entries before n. */
  predicate PassedUpTo(q: seq<Eval>, r: seq<Eval>, i: int, n: int)
    requires 0 <= i < |q| == |r| && n <= |q|
  {
    && r[..i] == q[..i]
    && multiset(r) == multiset(q)
    && (forall b :: i < b < n ==> r[i].finalScore >= r[b].finalScore)
  }

  /** One more comparison of the pass keeps PassedUpTo. */
  lemma PassStep(q: seq<Eval>, p: seq<Eval>, i: int, n: int)
    requires 0 <= i && i + 1 < n <= |q| == |p| && PassedUpTo(q, p, i, n - 1)
    ensures PassedUpTo(q, SwapIfLess(p, i, n - 1), i, n)
  {
    if p[i].finalScore < p[n - 1].finalScore {
      PassSwapStep(q, p, i, n);
    } else {
      assert SwapIfLess(p, i, n - 1) == p;
    }
  }

  /** The comparison that exchanges entries i and n - 1 keeps PassedUpTo. */
  lemma PassSwapStep(q: seq<Eval>, p: seq<Eval>, i: int, n: int)
    requires 0 <= i && i + 1 < n <= |q| == |p| && PassedUpTo(q, p, i, n - 1)
    requires p[i].finalScore < p[n - 1].finalScore
    ensures PassedUpTo(q, p[i := p[n - 1]][n - 1 := p[i]], i, n)
  {
    var r := p[i := p[n - 1]][n - 1 := p[i]];
    SwapPermutes(p, i, n - 1);
    assert r[..i] == p[..i];
    forall b | i < b < n
      ensures r[i].finalScore >= r[b].finalScore
    {
      if b < n - 1 {
        assert r[b] == p[b];
      }
    }
  }

  /** A pass from entry i leaves the entries before i alone, permutes the
      rest, and leaves at i an entry scoring at least as high as those it
      was compared with. */
  lemma {:induction false} PassProperties(q: seq<Eval>, i: int, n: int)
    requires 0 <= i < |q| && n <= |q|
    ensures PassedUpTo(q, Pass(q, i, n), i, n)
  {
    if n > i + 1 {
      PassProperties(q, i, n - 1);
      PassStep(q, Pass(q, i, n - 1), i, n);
    }
  }

  /** A permutation that leaves the entries before i alone draws the later
      entries from the original ones after i. */
  lemma PermutedTail(q: seq<Eval>, r: seq<Eval>, i: int)
    requires 0 <= i <= |q| == |r| && r[..i] == q[..i] && multiset(r) == multiset(q)
    ensures forall b :: i <= b < |r| ==> r[b] in q[i..]
  {
    assert q == q[..i] + q[i..];
    assert r == r[..i] + r[i..];
    assert multiset(q) == multiset(q[..i]) + multiset(q[i..]);
    assert multiset(r) == multiset(q[..i]) + multiset(r[i..]);
    forall x
      ensures multiset(r[i..])[x] == multiset(q[i..])[x]
    {
      assert multiset(r)[x] == multiset(q[..i])[x] + multiset(r[i..])[x];
      assert multiset(q)[x] == multiset(q[..i])[x] + multiset(q[i..])[x];
    }
    assert multiset(r[i..]) == multiset(q[i..]);
    forall b | i <= b < |r|
      ensures r[b] in q[i..]
    {
      assert r[b] == r[i..][b - i];
      assert r[b] in multiset(r[i..]);
    }
  }

  /** The exchange sort does not keep ties in offer order: with final scores
      0.1, 0.1 and 0.5 the offers rank 2, 1, 0. */
  lemma ExchangeSortTies(e0: Eval, e1: Eval, e2: Eval)
    requires e0.finalScore == 0.1 && e1.finalScore == 0.1 && e2.finalScore == 0.5
    ensures ExchangeSorted([e0, e1, e2]) == [e2, e1, e0]
  {
    assert Pass([e0, e1, e2], 0, 3) == [e2, e1, e0];
  }

  /** The inner pass of the exchange sort: every later entry that scores
      above entry i is exchanged with it, leaving the best of evals[i..] at i. */
  method PassFrom(evals: array<Eval>, i: int)
    requires 0 <= i < evals.Length
    modifies evals
    ensures evals[..] == Pass(old(evals[..]), i, evals.Length)
    ensures forall b :: i < b < evals.Length ==> evals[i].finalScore >= evals[b].finalScore
    ensures evals[..i] == old(evals[..i])
    ensures forall b :: i <= b < evals.Length ==> evals[b] in old(evals[i..])
    ensures multiset(evals[..]) == multiset(old(evals[..]))
  {
    for j := i + 1 to evals.Length
      invariant evals[..] == Pass(old(evals[..]), i, j)
    {
      if evals[i].finalScore < evals[j].finalScore {
        Swap(evals, i, j);
      }
    }
    PassProperties(old(evals[..]), i, evals.Length);
    PermutedTail(old(evals[..]), evals[..], i);
    assert old(evals[..])[..i] == old(evals[..i]);
    assert old(evals[..])[i..] == old(evals[i..]);
  }

  /** The exchange sort of simpleChooseObjectives: descending final score. */
  method SortByFinalScore(evals: array<Eval>)
    requires evals.Length == 3
    modifies evals
    ensures evals[..] == ExchangeSorted(old(evals[..]))
    ensures forall a, b :: 0 <= a < b < 3 ==> evals[a].finalScore >= evals[b].finalScore
    ensures multiset(evals[..]) == multiset(old(evals[..]))
  {
    for i := 0 to 2
      invariant multiset(evals[..]) == multiset(old(evals[..]))
      invariant evals[..] == if i == 0 then old(evals[..]) else if i == 1 then Pass(old(evals[..]), 0, 3) else ExchangeSorted(old(evals[..]))
      invariant forall a, b :: 0 <= a < i && a < b < 3 ==> evals[a].finalScore >= evals[b].finalScore
    {
      ghost var before := evals[..];
      PassFrom(evals, i);
      assert forall a :: 0 <= a < i ==> evals[a] == before[a] by {
        assert evals[..i] == before[..i];
      }
      forall a, b | 0 <= a < i && a < b < 3
        ensures evals[a].finalScore >= evals[b].finalScore
      {
        if b >= i {
          assert evals[b] in before[i..];
        }
      }
    }
  }

  /** Number of kept offers. */
  function KeptCount(keep: seq<bool>): int
    requires |keep| == 3
  {
    (if keep[0] then 1 else 0) + (if keep[1] then 1 else 0) + (if keep[2] then 1 else 0)
  }

  /** The evaluations of the three offers, each once (paths[j] being the
      cheapest path found for offer j), by descending final score. */
  ghost predicate Ranking(s: GameState, offered: seq<Objective>, paths: seq<seq<int>>, ranked: seq<Eval>)
    requires ValidState(s) && |offered| == 3 && |paths| == 3
  {
    && |ranked| == 3
    && (forall k :: 0 <= k < 3 ==>
          0 <= ranked[k].index < 3
          && Evaluates(s, offered[ranked[k].index], ranked[k].index, ranked[k], paths[ranked[k].index]))
    && (forall k, l :: 0 <= k < l < 3 ==> ranked[k].index != ranked[l].index)
    && (forall k, l :: 0 <= k < l < 3 ==> ranked[k].finalScore >= ranked[l].finalScore)
  }

  /** A permutation of the evaluations made in offer order lists each offer
      once, each entry being the evaluation made for its offer. */
  lemma PermutationIndices(before: seq<Eval>, after: seq<Eval>)
    requires |before| == 3 && |after| == 3 && multiset(after) == multiset(before)
    requires forall k :: 0 <= k < 3 ==> before[k].index == k
    ensures forall k :: 0 <= k < 3 ==> 0 <= after[k].index < 3 && after[k] == before[after[k].index]
    ensures forall k, l :: 0 <= k < l < 3 ==> after[k].index != after[l].index
  {
    assert after == [after[0], after[1], after[2]];
    assert before == [before[0], before[1], before[2]];
    assert multiset(after) == multiset{after[0], after[1], after[2]};
    assert multiset(before) == multiset{before[0], before[1], before[2]};
    forall k | 0 <= k < 3
      ensures 0 <= after[k].index < 3 && after[k] == before[after[k].index]
    {
      assert after[k] in multiset(before);
    }
  }

  /** The evaluations of the three offers in offer order. */
  ghost predicate EvaluatedInOrder(s: GameState, offered: seq<Objective>, paths: seq<seq<int>>, evaluated: seq<Eval>)
    requires ValidState(s) && |offered| == 3 && |paths| == 3
  {
    && |evaluated| == 3
    && forall k :: 0 <= k < 3 ==> evaluated[k].index == k && Evaluates(s, offered[k], k, evaluated[k], paths[k])
  }

  /** The evaluations made in offer order, rearranged in non-increasing
      order of final score, are a ranking of the offers. */
  lemma SortedRanking(s: GameState, offered: seq<Objective>, paths: seq<seq<int>>, evaluated: seq<Eval>, ranked: seq<Eval>)
    requires ValidState(s) && |offered| == 3 && |paths| == 3 && EvaluatedInOrder(s, offered, paths, evaluated)
    requires |ranked| == 3 && multiset(ranked) == multiset(evaluated)
    requires forall a, b :: 0 <= a < b < 3 ==> ranked[a].finalScore >= ranked[b].finalScore
    ensures Ranking(s, offered, paths, ranked)
  {
    PermutationIndices(evaluated, ranked);
  }

  /** The evaluation loop of simpleChooseObjectives: offer i evaluated
      into entry i. */
  method EvaluateOffers(s: GameState, offered: seq<Objective>) returns (evals: array<Eval>, ghost paths: seq<seq<int>>)
    requires ValidState(s) && |offered| == 3
    ensures fresh(evals) && evals.Length == 3 && |paths| == 3
    ensures EvaluatedInOrder(s, offered, paths, evals[..])
  {
    evals := new Eval[3];
    paths := [];
    for i := 0 to 3
      invariant |paths| == i
      invariant forall k :: 0 <= k < i ==> evals[k].index == k && Evaluates(s, offered[k], k, evals[k], paths[k])
    {
      var e;
      ghost var path;
      e, path := EvaluateObjective(s, offered[i], i);
      evals[i] := e;
      paths := paths + [path];
    }
  }

  /** The evaluation loop and the sort of simpleChooseObjectives. */
  method RankOffers(s: GameState, offered: seq<Objective>)
    returns (evals: array<Eval>, ghost paths: seq<seq<int>>, ghost evaluated: seq<Eval>)
    requires ValidState(s) && |offered| == 3
    ensures fresh(evals) && evals.Length == 3 && |paths| == 3 && Ranking(s, offered, paths, evals[..])
    ensures EvaluatedInOrder(s, offered, paths, evaluated) && evals[..] == ExchangeSorted(evaluated)
  {
    evals, paths := EvaluateOffers(s, offered);
    evaluated := evals[..];
    SortByFinalScore(evals);
    SortedRanking(s, offered, paths, evaluated, evals[..]);
  }

  /** Offer i is kept on its ranking: it is the best and scores above 0,
      or the second and scores above 0.2. */
  predicate RankKept(ranked: seq<Eval>, i: int)
    requires |ranked| == 3
  {
    (i == ranked[0].index && ranked[0].finalScore > 0.0) || (i == ranked[1].index && ranked[1].finalScore > 0.2)
  }

  /** The keeping rule of simpleChooseObjectives on the ranked evaluations:
      the offers kept on their ranking; on the first turn, topped up to two
      with the lowest-numbered offers not yet kept. */
  method KeepOffers(ranked: array<Eval>, firstTurn: bool, choose: array<bool>)
    requires ranked.Length == 3 && choose.Length == 3
    requires forall k :: 0 <= k < 3 ==> 0 <= ranked[k].index < 3
    requires forall k, l :: 0 <= k < l < 3 ==> ranked[k].index != ranked[l].index
    requires !choose[0] && !choose[1] && !choose[2]
    modifies choose
    ensures KeptCount(choose[..]) <= 2
    ensures firstTurn ==> KeptCount(choose[..]) == 2
    ensures forall i :: 0 <= i < 3 && RankKept(ranked[..], i) ==> choose[i]
    ensures !firstTurn ==> forall i :: 0 <= i < 3 ==> (choose[i] <==> RankKept(ranked[..], i))
    ensures firstTurn ==>
              forall i, j :: 0 <= i < j < 3 && !choose[i] && choose[j] ==> RankKept(ranked[..], j)
  {
    var chosen := 0;
    if ranked[0].finalScore > 0.0 {
      choose[ranked[0].index] := true;
      chosen := chosen + 1;
    }
    if chosen < 2 {
      if ranked[1].finalScore > 0.2 {
        choose[ranked[1].index] := true;
        chosen := chosen + 1;
      }
    }
    assert chosen == KeptCount(choose[..]);
    assert forall i :: 0 <= i < 3 ==> (choose[i] <==> RankKept(ranked[..], i));
    if chosen < 2 && firstTurn {
      for i := 0 to 3
        invariant chosen == KeptCount(choose[..]) && chosen < 2
        invariant forall k :: 0 <= k < i ==> choose[k]
        invariant forall k :: 0 <= k < 3 && RankKept(ranked[..], k) ==> choose[k]
        invariant forall k :: i <= k < 3 && choose[k] ==> RankKept(ranked[..], k)
      {
        if !choose[i] {
          choose[i] := true;
          chosen := chosen + 1;
          if chosen >= 2 {
            break;
          }
        }
      }
    }
  }

  /** simpleChooseObjectives: evaluate the three offered objectives, sort them
      by final score, keep the best when it scores above 0 and the second when
      it scores above 0.2; on the first turn (no objective held yet) fill up
      to two kept offers in offer order. */
  method SimpleChooseObjectives(s: GameState, offered: seq<Objective>, choose: array<bool>)
    returns (ghost ranked: seq<Eval>, ghost paths: seq<seq<int>>, ghost evaluated: seq<Eval>)
    requires ValidState(s) && |offered| == 3 && choose.Length == 3
    modifies choose
    ensures |paths| == 3 && Ranking(s, offered, paths, ranked)
    ensures EvaluatedInOrder(s, offered, paths, evaluated) && ranked == ExchangeSorted(evaluated)
    ensures KeptCount(choose[..]) <= 2
    ensures |s.objectives| == 0 ==> KeptCount(choose[..]) == 2
    ensures forall i :: 0 <= i < 3 && RankKept(ranked, i) ==> choose[i]
    ensures |s.objectives| != 0 ==> forall i :: 0 <= i < 3 ==> (choose[i] <==> RankKept(ranked, i))
    ensures |s.objectives| == 0 ==>
              forall i, j :: 0 <= i < j < 3 && !choose[i] && choose[j] ==> RankKept(ranked, j)
  {
    choose[0], choose[1], choose[2] := false, false, false;
    var evals;
    evals, paths, evaluated := RankOffers(s, offered);
    ranked := evals[..];
    KeepOffers(evals, |s.objectives| == 0, choose);
  }

  // ---------------------------------------------------------------------------
  // Assessing a held objective

  /** What the objective evaluators learn from one cheapest path: its cost
      and, for a positive cost, the tallies of its pairs. */
  datatype Assessment = Assessment(cost: int, owned: int, free: int, blocked: int)

  /** a and path are what the evaluators compute for objective o. */
  ghost predicate Assessed(s: GameState, o: Objective, a: Assessment, path: seq<int>)
    requires ValidState(s)
  {
    && PathResult(s, o.from, o.to, a.cost, path)
    && (a.cost > 0 ==> a.owned == Owned(s, path) && a.free == Free(s, path) && a.blocked == Blocked(s, path))
  }

  /** findSmartestPath on the objective, then the tally of its pairs when the
      cost is positive. */
  method Assess(s: GameState, o: Objective) returns (a: Assessment, path: seq<int>)
    requires ValidState(s)
    ensures Assessed(s, o, a, path)
    ensures a.cost > 0 ==> a.owned + a.free + a.blocked == Edges(path) && a.blocked >= 0
    ensures a.cost > 0 && a.blocked == 0 ==> a.free >= 1
  {
    var distance;
    distance, path := FindSmartestPath(s, o.from, o.to);
    if distance > 0 {
      var owned, free, blocked := TallyPath(s, path);
      a := Assessment(distance, owned, free, blocked);
      if blocked == 0 {
        UnblockedNeedsClaim(s, o.from, o.to, distance, path);
      }
    } else {
      a := Assessment(distance, 0, 0, 0);
    }
  }

  /** The assessments of the objectives examined so far; completed objectives
      are skipped, so nothing is said about theirs. */
  ghost predicate AssessedPrefix(s: GameState, assessed: seq<Assessment>, paths: seq<seq<int>>)
    requires ValidState(s)
  {
    && |assessed| == |paths| <= |s.objectives|
    && forall k {:trigger Assessed(s, s.objectives[k], assessed[k], paths[k])} ::
         0 <= k < |paths| && !s.completed[k] ==> Assessed(s, s.objectives[k], assessed[k], paths[k])
  }

  /** Recording the next objective's assessment keeps AssessedPrefix. */
  lemma AssessedAppend(s: GameState, assessed: seq<Assessment>, paths: seq<seq<int>>, a: Assessment, path: seq<int>)
    requires ValidState(s) && AssessedPrefix(s, assessed, paths) && |paths| < |s.objectives|
    requires !s.completed[|paths|] ==> Assessed(s, s.objectives[|paths|], a, path)
    ensures AssessedPrefix(s, assessed + [a], paths + [path])
  {
  }

  // ---------------------------------------------------------------------------
  // findNearestCompletionObjective

  /** An objective the nearest-completion search may pick: a cheapest path of
      positive cost, no blocked pair, and at most four routes to claim. */
  predicate NearEligible(a: Assessment) {
    a.cost > 0 && a.blocked == 0 && a.free <= 4
  }

  /** The variables of the findNearestCompletionObjective scan: the pick,
      its routes to claim, and its routes owned. */
  datatype NearestScan = NearestScan(best: int, lowest: int, progress: int)

  /** How the scan treats objective k, assessed as a, when it does not
      return at once: first the two-route rule, then, on the updated
      variables, the rule preferring fewer routes to claim and more owned. */
  function NearestStep(acc: NearestScan, k: int, a: Assessment): NearestScan {
    if a.cost <= 0 then acc
    else
      var acc := if a.free == 2 && a.blocked == 0 && a.free < acc.lowest then NearestScan(k, a.free, a.owned) else acc;
      if a.blocked == 0 && a.owned > acc.progress && a.free <= 4
         && (a.free < acc.lowest || (a.free == acc.lowest && a.owned > acc.progress))
      then NearestScan(k, a.free, a.owned)
      else acc
  }

  /** The scan over the assessments of the objectives, completed ones
      skipped, from no pick, 999 routes and progress -1. */
  function NearestFold(s: GameState, assessed: seq<Assessment>): NearestScan
    requires ValidState(s) && |assessed| <= |s.objectives|
  {
    if assessed == [] then NearestScan(-1, 999, -1)
    else
      var n := |assessed| - 1;
      var acc := NearestFold(s, assessed[..n]);
      if s.completed[n] then acc else NearestStep(acc, n, assessed[n])
  }

  /** One more objective extends the scan by one step, unless it is completed. */
  lemma NearestFoldAppend(s: GameState, assessed: seq<Assessment>, a: Assessment)
    requires ValidState(s) && |assessed| < |s.objectives|
    ensures NearestFold(s, assessed + [a])
            == if s.completed[|assessed|] then NearestFold(s, assessed)
               else NearestStep(NearestFold(s, assessed), |assessed|, a)
  {
    assert (assessed + [a])[..|assessed|] == assessed;
  }

  /** Every eligible incomplete objective assessed so far has at least two
      routes to claim and owns a non-negative number of them. */
  predicate NearSettled(s: GameState, assessed: seq<Assessment>)
    requires ValidState(s) && |assessed| <= |s.objectives|
  {
    forall k :: 0 <= k < |assessed| && !s.completed[k] && NearEligible(assessed[k]) ==>
      2 <= assessed[k].free && 0 <= assessed[k].owned
  }

  /** The scan's pick: none exactly when no incomplete objective is
      eligible; otherwise an eligible incomplete objective whose routes to
      claim and routes owned are the scan's other two variables, and one
      with at most two routes to claim once any such objective was seen. */
  lemma {:induction false} NearestFoldPick(s: GameState, assessed: seq<Assessment>)
    requires ValidState(s) && |assessed| <= |s.objectives| && NearSettled(s, assessed)
    ensures var acc := NearestFold(s, assessed);
            && (acc.best == -1 <==> forall k :: 0 <= k < |assessed| && !s.completed[k] ==> !NearEligible(assessed[k]))
            && (acc.best == -1 ==> acc.lowest == 999 && acc.progress == -1)
            && (acc.best != -1 ==>
                  && 0 <= acc.best < |assessed| && !s.completed[acc.best] && NearEligible(assessed[acc.best])
                  && acc.lowest == assessed[acc.best].free && acc.progress == assessed[acc.best].owned)
            && ((exists k :: 0 <= k < |assessed| && !s.completed[k] && NearEligible(assessed[k])
                             && assessed[k].free == 2) ==> acc.best != -1 && acc.lowest <= 2)
  {
    if assessed != [] {
      var n := |assessed| - 1;
      var prefix := assessed[..n];
      assert forall k :: 0 <= k < n ==> prefix[k] == assessed[k];
      NearestFoldPick(s, prefix);
    }
  }

  /** What findNearestCompletionObjective promises about its pick best,
      given the assessments it made. */
  ghost predicate NearestPick(s: GameState, best: int, assessed: seq<Assessment>, paths: seq<seq<int>>)
    requires ValidState(s)
  {
    && AssessedPrefix(s, assessed, paths)
    && (best == -1 ==> |paths| == |s.objectives|
                       && forall k :: 0 <= k < |s.objectives| && !s.completed[k] ==> !NearEligible(assessed[k]))
    && (best != -1 ==> && 0 <= best < |paths| && !s.completed[best] && NearEligible(assessed[best])
                       && 1 <= assessed[best].free)
    // one route away: the first such objective, found as the scan's last
    && (forall k :: (0 <= k < |paths| && !s.completed[k] && NearEligible(assessed[k])
                     && assessed[k].free == 1) ==> k == best)
    && (best != -1 && assessed[best].free == 1 ==> |paths| == best + 1)
    // otherwise: the whole scan, whose pick is the fold's
    && (best == -1 || assessed[best].free != 1 ==> |paths| == |s.objectives| && NearestFold(s, assessed).best == best)
    && ((exists k :: 0 <= k < |paths| && !s.completed[k] && NearEligible(assessed[k])
                     && assessed[k].free == 2) ==> best != -1 && assessed[best].free <= 2)
  }

  /** findNearestCompletionObjective: the first incomplete objective one
      unclaimed route away from completion (returned at once); otherwise an
      unblocked objective with at most four routes to claim, two-route ones
      first, then by fewest routes to claim among those making the most
      progress; -1 when none qualifies.  The chosen objective's cost and path
      are returned with it. */
  method FindNearestCompletionObjective(s: GameState)
    returns (best: int, cost: int, path: seq<int>, ghost assessed: seq<Assessment>, ghost paths: seq<seq<int>>)
    requires ValidState(s)
    ensures NearestPick(s, best, assessed, paths)
    ensures best != -1 ==> cost == assessed[best].cost && path == paths[best]
  {
    best, cost, path := -1, -1, [];
    assessed, paths := [], [];
    var lowestRoutesNeeded := 999;
    var highestProgress := -1;
    for i := 0 to |s.objectives|
      invariant |assessed| == |paths| == i
      invariant AssessedPrefix(s, assessed, paths)
      invariant NearSettled(s, assessed)
      invariant best != -1 ==> 0 <= best < i && cost == assessed[best].cost && path == paths[best]
      invariant NearestFold(s, assessed) == NearestScan(best, lowestRoutesNeeded, highestProgress)
    {
      if s.completed[i] {
        NearestFoldAppend(s, assessed, Assessment(-1, 0, 0, 0));
        AssessedAppend(s, assessed, paths, Assessment(-1, 0, 0, 0), []);
        assessed, paths := assessed + [Assessment(-1, 0, 0, 0)], paths + [[]];
        continue;
      }
      var a, objPath := Assess(s, s.objectives[i]);
      AssessedAppend(s, assessed, paths, a, objPath);
      NearestFoldAppend(s, assessed, a);
      ghost var acc := NearestScan(best, lowestRoutesNeeded, highestProgress);
      assessed, paths := assessed + [a], paths + [objPath];
      if a.cost <= 0 {
        continue;
      }
      var routesOwned, routesAvailable, routesBlocked := a.owned, a.free, a.blocked;
      var routesNeeded := routesAvailable;
      if routesNeeded == 1 && routesBlocked == 0 {
        best, cost, path := i, a.cost, objPath;
        return;
      }
      if routesNeeded == 2 && routesBlocked == 0 && routesNeeded < lowestRoutesNeeded {
        lowestRoutesNeeded := routesNeeded;
        best, cost, path := i, a.cost, objPath;
        highestProgress := routesOwned;
      }
      if routesBlocked == 0 && routesOwned > highestProgress && routesNeeded <= 4 {
        if routesNeeded < lowestRoutesNeeded
           || (routesNeeded == lowestRoutesNeeded && routesOwned > highestProgress) {
          lowestRoutesNeeded := routesNeeded;
          best, cost, path := i, a.cost, objPath;
          highestProgress := routesOwned;
        }
      }
      assert NearestScan(best, lowestRoutesNeeded, highestProgress) == NearestStep(acc, i, a);
    }
    NearestFoldPick(s, assessed);
  }

  // ---------------------------------------------------------------------------
  // findQuickestObjective

  /** Wagons findQuickestObjective expects to spend: two per route to claim. */
  function WagonsNeeded(a: Assessment): int {
    2 * a.free
  }

  predicate QuickCandidate(s: GameState, a: Assessment) {
    a.cost > 0 && WagonsNeeded(a) <= s.wagonsLeft && WagonsNeeded(a) < 999
  }

  /** The pick of findQuickestObjective given the assessments it made: -1
      exactly when no incomplete objective is a candidate; otherwise the
      first incomplete candidate needing the fewest wagons. */
  ghost predicate QuickestPick(s: GameState, best: int, assessed: seq<Assessment>, paths: seq<seq<int>>)
    requires ValidState(s)
  {
    && AssessedPrefix(s, assessed, paths) && |paths| == |s.objectives|
    && (best == -1 <==> forall k :: 0 <= k < |s.objectives| && !s.completed[k] ==> !QuickCandidate(s, assessed[k]))
    && (best != -1 ==>
          && 0 <= best < |s.objectives| && !s.completed[best] && QuickCandidate(s, assessed[best])
          && (forall k :: 0 <= k < |s.objectives| && !s.completed[k] && QuickCandidate(s, assessed[k]) ==>
                WagonsNeeded(assessed[best]) <= WagonsNeeded(assessed[k]))
          && (forall k :: 0 <= k < best && !s.completed[k] && QuickCandidate(s, assessed[k]) ==>
                WagonsNeeded(assessed[best]) < WagonsNeeded(assessed[k])))
  }

  /** findQuickestObjective: the first incomplete objective needing the
      fewest wagons (within the wagons left) along its cheapest path of
      positive cost; -1 when none qualifies. */
  method FindQuickestObjective(s: GameState) returns (best: int, ghost assessed: seq<Assessment>, ghost paths: seq<seq<int>>)
    requires ValidState(s)
    ensures QuickestPick(s, best, assessed, paths)
  {
    best := -1;
    assessed, paths := [], [];
    var lowestCost := 999;
    for i := 0 to |s.objectives|
      invariant |assessed| == |paths| == i
      invariant AssessedPrefix(s, assessed, paths)
      invariant best == -1 <==> forall k :: 0 <= k < i && !s.completed[k] ==> !QuickCandidate(s, assessed[k])
      invariant best == -1 ==> lowestCost == 999
      invariant best != -1 ==>
                  && 0 <= best < i && !s.completed[best] && QuickCandidate(s, assessed[best])
                  && lowestCost == WagonsNeeded(assessed[best])
                  && (forall k :: 0 <= k < i && !s.completed[k] && QuickCandidate(s, assessed[k]) ==>
                        lowestCost <= WagonsNeeded(assessed[k]))
                  && (forall k :: 0 <= k < best && !s.completed[k] && QuickCandidate(s, assessed[k]) ==>
                        lowestCost < WagonsNeeded(assessed[k]))
    {
      if s.completed[i] {
        AssessedAppend(s, assessed, paths, Assessment(-1, 0, 0, 0), []);
        assessed, paths := assessed + [Assessment(-1, 0, 0, 0)], paths + [[]];
        continue;
      }
      var a, objPath := Assess(s, s.objectives[i]);
      AssessedAppend(s, assessed, paths, a, objPath);
      assessed, paths := assessed + [a], paths + [objPath];
      if a.cost > 0 {
        var wagonsNeeded := 2 * a.free;
        if wagonsNeeded <= s.wagonsLeft && wagonsNeeded < lowestCost {
          lowestCost := wagonsNeeded;
          best := i;
        }
      }
    }
  }
}
