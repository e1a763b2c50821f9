/** The route selectors: best-so-far and first-match scans over the routes,
    each producing at most one claim through canTakeRoute. */
module Selectors {
  import opened Types
  import opened Routes
  import opened Paths
  import opened Tally

  /** Route i is unclaimed and canTakeRoute succeeds on its two cities. */
  ghost predicate Claimable(s: GameState, i: int)
    requires ValidState(s) && 0 <= i < |s.routes|
  {
    s.routes[i].owner == 0 && CanTakeRoute(s, s.routes[i].from, s.routes[i].to).Some?
  }

  /** The claim canTakeRoute produces for the cities of a claimable route. */
  function ClaimOf(s: GameState, i: int): (m: Move)
    requires ValidState(s) && 0 <= i < |s.routes| && CanTakeRoute(s, s.routes[i].from, s.routes[i].to).Some?
    ensures m.ClaimRoute? && m.from == s.routes[i].from && m.to == s.routes[i].to
    ensures LegalMove(s, m)
  {
    CanTakeRouteSpec(s, s.routes[i].from, s.routes[i].to);
    CanTakeRoute(s, s.routes[i].from, s.routes[i].to).value
  }

  // ---------------------------------------------------------------------------
  // The network of claimed routes

  /** x is an end of one of the claimed routes (ignoring out-of-range indices). */
  ghost predicate InNetwork(s: GameState, x: int) {
    exists k :: 0 <= k < |s.claimedRoutes| && 0 <= s.claimedRoutes[k] < |s.routes|
                && (s.routes[s.claimedRoutes[k]].from == x || s.routes[s.claimedRoutes[k]].to == x)
  }

  /** The list of network cities built by buildLongestRoute and
      buildFromExistingNetwork: the ends of the claimed routes, each listed on
      its first appearance (a loop route lists its city twice). */
  method NetworkCities(s: GameState) returns (cities: seq<int>)
    requires ValidState(s)
    ensures forall x :: x in cities <==> InNetwork(s, x)
  {
    cities := [];
    for i := 0 to |s.claimedRoutes|
      invariant forall x :: x in cities <==>
        exists k :: 0 <= k < i && 0 <= s.claimedRoutes[k] < |s.routes|
                    && (s.routes[s.claimedRoutes[k]].from == x || s.routes[s.claimedRoutes[k]].to == x)
    {
      var routeIndex := s.claimedRoutes[i];
      if 0 <= routeIndex < |s.routes| {
        var from, to := s.routes[routeIndex].from, s.routes[routeIndex].to;
        var fromFound, toFound := from in cities, to in cities;
        if !fromFound {
          cities := cities + [from];
        }
        if !toFound {
          cities := cities + [to];
        }
      }
    }
  }

  /** A claimed route (with an index in range) has an end at from or at to. */
  ghost predicate TouchesClaimed(s: GameState, from: int, to: int) {
    exists k :: 0 <= k < |s.claimedRoutes| && 0 <= s.claimedRoutes[k] < |s.routes|
                && var r := s.routes[s.claimedRoutes[k]];
                   r.from == from || r.to == from || r.from == to || r.to == to
  }

  /** The network test of emergencyUnblock, straight over the claimed routes. */
  method ConnectsToNetwork(s: GameState, from: int, to: int) returns (connects: bool)
    ensures connects == TouchesClaimed(s, from, to)
  {
    connects := false;
    for j := 0 to |s.claimedRoutes|
      invariant !connects
      invariant forall k :: 0 <= k < j && 0 <= s.claimedRoutes[k] < |s.routes| ==>
                  var r := s.routes[s.claimedRoutes[k]];
                  !(r.from == from || r.to == from || r.from == to || r.to == to)
    {
      var routeIndex := s.claimedRoutes[j];
      if 0 <= routeIndex < |s.routes| {
        var r := s.routes[routeIndex];
        if r.from == from || r.to == from || r.from == to || r.to == to {
          connects := true;
          return;
        }
      }
    }
  }

  // ---------------------------------------------------------------------------
  // Best-so-far scans whose score grows with the length

  /** The candidate routes of the length-ranked scans. */
  datatype Scan =
    | AnyGood      // takeAnyGoodRoute: any claimable route
    | Network      // buildLongestRoute, buildFromExistingNetwork: claimable and touching the network
    | Profitable   // takeAnyProfitableRoute: claimable and at least 4 long

  ghost predicate Candidate(s: GameState, scan: Scan, i: int)
    requires ValidState(s) && 0 <= i < |s.routes|
  {
    && Claimable(s, i)
    && match scan
         case AnyGood => true
         case Network => InNetwork(s, s.routes[i].from) || InNetwork(s, s.routes[i].to)
         case Profitable => s.routes[i].length >= 4
  }

  /** Among the first n entries, best is the first flagged entry of the
      greatest key; -1 when no entry is flagged. This is what every
      best-so-far scan below computes: its candidates are the flagged
      entries, its score the key, and a candidate replaces the best so far
      only when strictly better. */
  ghost predicate FirstGreatest(flags: seq<bool>, keys: seq<int>, best: int, n: int)
    requires 0 <= n <= |flags| && |keys| == |flags|
  {
    && -1 <= best < n
    && (best == -1 <==> forall i :: 0 <= i < n ==> !flags[i])
    && (best != -1 ==>
          && flags[best]
          && (forall i :: 0 <= i < n && flags[i] ==> keys[i] <= keys[best])
          && (forall i :: 0 <= i < best && flags[i] ==> keys[i] < keys[best]))
  }

  /** One step of a best-so-far scan: entry n replaces the best so far
      exactly when it is flagged and its key is strictly greater. */
  lemma FirstGreatestStep(flags: seq<bool>, keys: seq<int>, best: int, n: int, next: int)
    requires 0 <= n < |flags| && |keys| == |flags| && FirstGreatest(flags, keys, best, n)
    requires flags[n] && (best == -1 || keys[best] < keys[n]) ==> next == n
    requires !(flags[n] && (best == -1 || keys[best] < keys[n])) ==> next == best
    ensures FirstGreatest(flags, keys, next, n + 1)
  {
  }

  /** The candidates of a length-ranked scan, route by route. */
  ghost function Candidates(s: GameState, scan: Scan): seq<bool>
    requires ValidState(s)
  {
    seq(|s.routes|, i requires 0 <= i < |s.routes| => Candidate(s, scan, i))
  }

  function Lengths(s: GameState): seq<int> {
    seq(|s.routes|, i requires 0 <= i < |s.routes| => s.routes[i].length)
  }

  /** Among the routes below n, best is the first candidate of the greatest
      length; -1 when there is no candidate. */
  ghost predicate FirstLongestBelow(s: GameState, scan: Scan, best: int, n: int)
    requires ValidState(s) && 0 <= n <= |s.routes|
  {
    FirstGreatest(Candidates(s, scan), Lengths(s), best, n)
  }

  ghost predicate FirstLongest(s: GameState, scan: Scan, best: int)
    requires ValidState(s)
  {
    FirstLongestBelow(s, scan, best, |s.routes|)
  }

  /** The score of buildLongestRoute: ten per wagon, plus cumulative bonuses
      of 25, 50 and 100 from lengths 3, 4 and 5. */
  function LongRouteScore(length: int): int {
    var score := length * 10;
    var score := if length >= 5 then score + 100 else score;
    var score := if length >= 4 then score + 50 else score;
    if length >= 3 then score + 25 else score
  }

  /** The value of buildFromExistingNetwork: ten per wagon, plus 50 from length 5. */
  function NetworkValue(length: int): int {
    var value := length * 10;
    if length >= 5 then value + 50 else value
  }

  /** Both scores order routes exactly as their lengths do. */
  lemma ScoresFollowLength(a: int, b: int)
    ensures a < b <==> LongRouteScore(a) < LongRouteScore(b)
    ensures a < b <==> NetworkValue(a) < NetworkValue(b)
  {
  }

  /** takeAnyGoodRoute: the longest claimable route, else a blind draw. */
  method TakeAnyGoodRoute(s: GameState) returns (m: Move, ghost best: int)
    requires ValidState(s)
    ensures FirstLongest(s, AnyGood, best)
    ensures best == -1 ==> m == DrawBlindCard
    ensures best != -1 ==> m == ClaimOf(s, best)
    ensures LegalMove(s, m)
  {
    var bestLength := 0;
    var bestIndex := -1;
    for i := 0 to |s.routes|
      invariant FirstLongestBelow(s, AnyGood, bestIndex, i)
      invariant bestIndex == -1 ==> bestLength == 0
      invariant bestIndex != -1 ==> bestLength == s.routes[bestIndex].length
    {
      ghost var before := bestIndex;
      if s.routes[i].owner == 0 {
        var length := s.routes[i].length;
        assert ValidRoute(s.nbCities, s.routes[i]);
        if length > bestLength && CanTakeRoute(s, s.routes[i].from, s.routes[i].to).Some? {
          bestLength := length;
          bestIndex := i;
        }
      }
      FirstGreatestStep(Candidates(s, AnyGood), Lengths(s), before, i, bestIndex);
    }
    best := bestIndex;
    if bestIndex >= 0 {
      m := ClaimOf(s, bestIndex);
    } else {
      m := DrawBlindCard;
    }
  }

  /** The length-ranked scan over the network candidates, by the given
      score: the shared loop of buildLongestRoute (useLongScore) and
      buildFromExistingNetwork. */
  method BestNetworkRoute(s: GameState, cities: seq<int>, useLongScore: bool) returns (best: int)
    requires ValidState(s)
    requires forall x :: x in cities <==> InNetwork(s, x)
    ensures FirstLongest(s, Network, best)
  {
    var bestScore := 0;
    best := -1;
    for i := 0 to |s.routes|
      invariant FirstLongestBelow(s, Network, best, i)
      invariant best == -1 ==> bestScore == 0
      invariant best != -1 ==> bestScore == (if useLongScore then LongRouteScore(s.routes[best].length)
                                             else NetworkValue(s.routes[best].length))
    {
      ghost var before := best;
      if s.routes[i].owner == 0 {
        var from, to, length := s.routes[i].from, s.routes[i].to, s.routes[i].length;
        assert ValidRoute(s.nbCities, s.routes[i]);
        var connects := from in cities || to in cities;
        if connects && CanTakeRoute(s, from, to).Some? {
          var score := if useLongScore then LongRouteScore(length) else NetworkValue(length);
          if best != -1 {
            ScoresFollowLength(length, s.routes[best].length);
            ScoresFollowLength(s.routes[best].length, length);
          }
          if score > bestScore {
            bestScore := score;
            best := i;
          }
        }
      }
      FirstGreatestStep(Candidates(s, Network), Lengths(s), before, i, best);
    }
  }

  /** A move buildLongestRoute may produce. */
  ghost predicate LongestRouteMove(s: GameState, m: Move)
    requires ValidState(s)
  {
    if TotalCards(s) > 15 && |s.objectives| < 5 then m == DrawObjectives
    else exists best :: && (FirstLongest(s, Network, best) || (FirstLongest(s, Network, -1) && FirstLongest(s, AnyGood, best)))
                        && (best == -1 ==> m == DrawBlindCard)
                        && (best != -1 ==> m == ClaimOf(s, best))
  }

  /** buildLongestRoute: with more than 15 cards and fewer than 5 objectives,
      draw objectives; otherwise claim the longest claimable route touching
      the network, and failing that take any good route. */
  method BuildLongestRoute(s: GameState) returns (m: Move, ghost best: int)
    requires ValidState(s)
    ensures TotalCards(s) > 15 && |s.objectives| < 5 ==> m == DrawObjectives
    ensures !(TotalCards(s) > 15 && |s.objectives| < 5) ==>
              && (FirstLongest(s, Network, best) || (FirstLongest(s, Network, -1) && FirstLongest(s, AnyGood, best)))
              && (best == -1 ==> m == DrawBlindCard)
              && (best != -1 ==> m == ClaimOf(s, best))
    ensures LegalMove(s, m) && LongestRouteMove(s, m)
  {
    var totalCards := CountCards(s);
    if totalCards > 15 && |s.objectives| < 5 {
      return DrawObjectives, -1;
    }
    var cities := NetworkCities(s);
    var bestRouteIndex := BestNetworkRoute(s, cities, true);
    if bestRouteIndex >= 0 {
      return ClaimOf(s, bestRouteIndex), bestRouteIndex;
    }
    m, best := TakeAnyGoodRoute(s);
  }

  /** buildFromExistingNetwork: the longest claimable route touching the
      network, or nothing. */
  method BuildFromExistingNetwork(s: GameState) returns (m: Option<Move>, ghost best: int)
    requires ValidState(s)
    ensures FirstLongest(s, Network, best)
    ensures best == -1 ==> m.None?
    ensures best != -1 ==> m == Some(ClaimOf(s, best))
  {
    var cities := NetworkCities(s);
    var bestRoute := BestNetworkRoute(s, cities, false);
    best := bestRoute;
    if bestRoute >= 0 {
      m := Some(ClaimOf(s, bestRoute));
    } else {
      m := None;
    }
  }

  /** takeAnyProfitableRoute: the longest claimable route of length at least 4, or nothing. */
  method TakeAnyProfitableRoute(s: GameState) returns (m: Option<Move>, ghost best: int)
    requires ValidState(s)
    ensures FirstLongest(s, Profitable, best)
    ensures best == -1 ==> m.None?
    ensures best != -1 ==> m == Some(ClaimOf(s, best))
  {
    var bestValue := 0;
    var bestRoute := -1;
    for i := 0 to |s.routes|
      invariant FirstLongestBelow(s, Profitable, bestRoute, i)
      invariant bestRoute == -1 ==> bestValue == 0
      invariant bestRoute != -1 ==> bestValue == s.routes[bestRoute].length
    {
      ghost var before := bestRoute;
      if s.routes[i].owner == 0 {
        var length := s.routes[i].length;
        assert ValidRoute(s.nbCities, s.routes[i]);
        if length >= 4 && CanTakeRoute(s, s.routes[i].from, s.routes[i].to).Some? {
          var value := length;
          if value > bestValue {
            bestValue := value;
            bestRoute := i;
          }
        }
      }
      FirstGreatestStep(Candidates(s, Profitable), Lengths(s), before, i, bestRoute);
    }
    best := bestRoute;
    if bestRoute >= 0 {
      m := Some(ClaimOf(s, bestRoute));
    } else {
      m := None;
    }
  }

  // ---------------------------------------------------------------------------
  // takeHighestValueRoute: points per wagon

  /** The points scored by claiming a route of the given length. */
  function RoutePoints(length: int): int {
    if length == 1 then 1
    else if length == 2 then 2
    else if length == 3 then 4
    else if length == 4 then 7
    else if length == 5 then 10
    else if length == 6 then 15
    else 0
  }

  /** Points per wagon, counted in sixtieths of a point (exact, since every
      route length divides 60); QuotientInSixtieths ties it to RoutePoints. */
  function PointsPerWagon(length: int): int
    requires 1 <= length <= MaxRouteLength
  {
    if length <= 2 then 60
    else if length == 3 then 80
    else if length == 4 then 105
    else if length == 5 then 120
    else 150
  }

  /** The quotient takeHighestValueRoute computes is the sixtieths count over 60. */
  lemma QuotientInSixtieths(length: int)
    requires 1 <= length <= MaxRouteLength
    ensures RoutePoints(length) as real / length as real == PointsPerWagon(length) as real / 60.0
  {
    if length == 1 {
    } else if length == 2 {
    } else if length == 3 {
    } else if length == 4 {
    } else if length == 5 {
    } else {
    }
  }

  /** Points per wagon never decreases with the length, and grows strictly
      from length 2 on: only routes of length 1 and 2 tie. */
  lemma PointsPerWagonGrows(a: int, b: int)
    requires 1 <= a < b <= MaxRouteLength
    ensures PointsPerWagon(a) <= PointsPerWagon(b)
    ensures b >= 3 ==> PointsPerWagon(a) < PointsPerWagon(b)
  {
  }

  ghost predicate HighValueCandidate(s: GameState, i: int)
    requires ValidState(s) && 0 <= i < |s.routes|
  {
    Claimable(s, i) && s.routes[i].length <= s.wagonsLeft
  }

  /** The candidates of takeHighestValueRoute, route by route. */
  ghost function HighValueCandidates(s: GameState): seq<bool>
    requires ValidState(s)
  {
    seq(|s.routes|, i requires 0 <= i < |s.routes| => HighValueCandidate(s, i))
  }

  /** The points per wagon of every route, in sixtieths. */
  function Values(s: GameState): seq<int>
    requires ValidState(s)
  {
    seq(|s.routes|, i requires 0 <= i < |s.routes| =>
      assert ValidRoute(s.nbCities, s.routes[i]); PointsPerWagon(s.routes[i].length))
  }

  /** Among the routes below n, best is the first candidate with the most
      points per wagon; -1 when there is no candidate. */
  ghost predicate HighestValueBelow(s: GameState, best: int, n: int)
    requires ValidState(s) && 0 <= n <= |s.routes|
  {
    FirstGreatest(HighValueCandidates(s), Values(s), best, n)
  }

  /** takeHighestValueRoute: the claimable route (within the wagons left)
      with the most points per wagon, else a blind draw. */
  method TakeHighestValueRoute(s: GameState) returns (m: Move, ghost best: int)
    requires ValidState(s)
    ensures HighestValueBelow(s, best, |s.routes|)
    ensures best == -1 ==> m == DrawBlindCard
    ensures best != -1 ==> m == ClaimOf(s, best)
    ensures LegalMove(s, m) && HighestValueMove(s, m)
  {
    var bestRoute := -1;
    var bestValue: real := 0.0;
    for i := 0 to |s.routes|
      invariant HighestValueBelow(s, bestRoute, i)
      invariant bestRoute == -1 ==> bestValue == 0.0
      invariant bestRoute != -1 ==> bestValue == PointsPerWagon(s.routes[bestRoute].length) as real / 60.0
    {
      ghost var before := bestRoute;
      if s.routes[i].owner == 0 {
        var length := s.routes[i].length;
        assert ValidRoute(s.nbCities, s.routes[i]);
        if length <= s.wagonsLeft && CanTakeRoute(s, s.routes[i].from, s.routes[i].to).Some? {
          var points := RoutePoints(length);
          var value := points as real / length as real;
          QuotientInSixtieths(length);
          if value > bestValue {
            bestValue := value;
            bestRoute := i;
          }
        }
      }
      FirstGreatestStep(HighValueCandidates(s), Values(s), before, i, bestRoute);
    }
    best := bestRoute;
    if bestRoute >= 0 {
      m := ClaimOf(s, bestRoute);
    } else {
      m := DrawBlindCard;
    }
  }

  /** A move takeHighestValueRoute may produce. */
  ghost predicate HighestValueMove(s: GameState, m: Move)
    requires ValidState(s)
  {
    exists best :: && HighestValueBelow(s, best, |s.routes|)
                   && (best == -1 ==> m == DrawBlindCard)
                   && (best != -1 ==> m == ClaimOf(s, best))
  }

  /** The highest-value choice is a longest candidate, except that a route
      of length 1 ties with, and so may precede, one of length 2. */
  lemma HighestValueIsLongest(s: GameState, best: int)
    requires ValidState(s) && HighestValueBelow(s, best, |s.routes|) && best != -1
    ensures forall i :: 0 <= i < |s.routes| && HighValueCandidate(s, i) ==>
              s.routes[i].length <= s.routes[best].length
              || (s.routes[best].length == 1 && s.routes[i].length == 2)
  {
    forall i | 0 <= i < |s.routes| && HighValueCandidate(s, i)
      ensures s.routes[i].length <= s.routes[best].length
              || (s.routes[best].length == 1 && s.routes[i].length == 2)
    {
      var a, b := s.routes[best].length, s.routes[i].length;
      assert ValidRoute(s.nbCities, s.routes[i]) && ValidRoute(s.nbCities, s.routes[best]);
      assert HighValueCandidates(s)[i];
      assert Values(s)[i] <= Values(s)[best];
      if a < b {
        PointsPerWagonGrows(a, b);
      }
    }
  }

  // ---------------------------------------------------------------------------
  // emergencyUnblock: first-match scans

  /** The filters of emergencyUnblock's scans, tried in this order: length 6,
      length 5, touching the network, any route. */
  datatype Filter = OfLength(length: int) | NearNetwork | AnyRoute

  ghost predicate Passes(s: GameState, f: Filter, i: int)
    requires ValidState(s) && 0 <= i < |s.routes|
  {
    && Claimable(s, i)
    && match f
         case OfLength(length) => s.routes[i].length == length
         case NearNetwork => TouchesClaimed(s, s.routes[i].from, s.routes[i].to)
         case AnyRoute => true
  }

  /** The first route passing f, or -1. */
  method FirstPassing(s: GameState, f: Filter) returns (index: int)
    requires ValidState(s)
    ensures -1 <= index < |s.routes|
    ensures index == -1 <==> forall i :: 0 <= i < |s.routes| ==> !Passes(s, f, i)
    ensures index != -1 ==> Passes(s, f, index) && forall i :: 0 <= i < index ==> !Passes(s, f, i)
  {
    for i := 0 to |s.routes|
      invariant forall j :: 0 <= j < i ==> !Passes(s, f, j)
    {
      if s.routes[i].owner == 0 {
        var from, to := s.routes[i].from, s.routes[i].to;
        var wanted := true;
        match f {
          case OfLength(length) => wanted := s.routes[i].length == length;
          case NearNetwork => wanted := ConnectsToNetwork(s, from, to);
          case AnyRoute =>
        }
        if wanted && CanTakeRoute(s, from, to).Some? {
          assert Passes(s, f, i);
          return i;
        }
      }
    }
    return -1;
  }

  /** The tiers of emergencyUnblock, in the order it tries them. */
  const Tiers: seq<Filter> := [OfLength(6), OfLength(5), NearNetwork, AnyRoute]

  /** What emergencyUnblock does: the first route passing the first tier
      that some route passes, claimed; a blind draw (tier |Tiers|) when no
      route passes any tier. */
  ghost predicate EmergencyResult(s: GameState, m: Move, tier: int, index: int)
    requires ValidState(s)
  {
    && 0 <= tier <= |Tiers|
    && (forall t, i :: 0 <= t < tier && 0 <= i < |s.routes| ==> !Passes(s, Tiers[t], i))
    && (tier == |Tiers| ==> m == DrawBlindCard)
    && (tier < |Tiers| ==>
          && 0 <= index < |s.routes| && Passes(s, Tiers[tier], index)
          && (forall i :: 0 <= i < index ==> !Passes(s, Tiers[tier], i))
          && m == ClaimOf(s, index))
  }

  /** emergencyUnblock: claim a route of length 6, else of length 5, else one
      touching the network, else any; draw blind when nothing is claimable. */
  method EmergencyUnblock(s: GameState) returns (m: Move, ghost tier: int, ghost index: int)
    requires ValidState(s)
    ensures EmergencyResult(s, m, tier, index)
    ensures m == DrawBlindCard <==> forall i :: 0 <= i < |s.routes| ==> !Claimable(s, i)
    ensures LegalMove(s, m)
  {
    var length := 6;
    while length >= 5
      invariant 4 <= length <= 6
      invariant forall t, i :: 0 <= t < 6 - length && 0 <= i < |s.routes| ==> !Passes(s, Tiers[t], i)
    {
      var found := FirstPassing(s, OfLength(length));
      if found != -1 {
        return ClaimOf(s, found), 6 - length, found;
      }
      assert Tiers[6 - length] == OfLength(length);
      length := length - 1;
    }
    var found := FirstPassing(s, NearNetwork);
    if found != -1 {
      return ClaimOf(s, found), 2, found;
    }
    found := FirstPassing(s, AnyRoute);
    if found != -1 {
      return ClaimOf(s, found), 3, found;
    }
    forall i | 0 <= i < |s.routes|
      ensures !Claimable(s, i)
    {
      assert !Passes(s, AnyRoute, i);
    }
    m, tier, index := DrawBlindCard, 4, -1;
  }

  // ---------------------------------------------------------------------------
  // Claiming along a path

  /** Pair j of path is reported unclaimed and canTakeRoute succeeds on it. */
  ghost predicate ClaimableStep(s: GameState, path: seq<int>, j: int)
    requires ValidState(s) && 0 <= j && j + 1 < |path|
  {
    GetRouteOwner(s, path[j], path[j + 1]) == 0 && CanTakeRoute(s, path[j], path[j + 1]).Some?
  }

  /** No pair of path is claimable. */
  ghost predicate NoClaimAlong(s: GameState, path: seq<int>)
    requires ValidState(s)
  {
    forall j :: 0 <= j < Edges(path) ==> !ClaimableStep(s, path, j)
  }

  /** m is canTakeRoute's claim on the first claimable pair of path. */
  ghost predicate FirstClaimAlong(s: GameState, path: seq<int>, m: Move)
    requires ValidState(s)
  {
    exists step :: && 0 <= step < Edges(path) && ClaimableStep(s, path, step)
                   && (forall j :: 0 <= j < step ==> !ClaimableStep(s, path, j))
                   && m == CanTakeRoute(s, path[step], path[step + 1]).value
  }

  /** What the claim scan along path yields: the claim on its first
      claimable pair, nothing exactly when there is none. */
  ghost predicate ClaimAlong(s: GameState, path: seq<int>, m: Option<Move>)
    requires ValidState(s)
  {
    && (m.None? <==> NoClaimAlong(s, path))
    && (m.Some? ==> FirstClaimAlong(s, path, m.value))
  }

  /** The claim scan shared by handleEndgame, findAlternativePath and
      workOnSpecificObjective: the first pair of the path reported unclaimed
      on which canTakeRoute succeeds. */
  method ClaimAlongPath(s: GameState, path: seq<int>) returns (m: Option<Move>, ghost step: int)
    requires ValidState(s)
    ensures m.None? <==> forall j :: 0 <= j < Edges(path) ==> !ClaimableStep(s, path, j)
    ensures m.Some? ==> && 0 <= step < Edges(path) && ClaimableStep(s, path, step)
                        && (forall j :: 0 <= j < step ==> !ClaimableStep(s, path, j))
                        && m.value == CanTakeRoute(s, path[step], path[step + 1]).value
                        && LegalMove(s, m.value)
    ensures ClaimAlong(s, path, m)
  {
    for i := 0 to Edges(path)
      invariant forall j :: 0 <= j < i ==> !ClaimableStep(s, path, j)
    {
      var cityA, cityB := path[i], path[i + 1];
      if GetRouteOwner(s, cityA, cityB) == 0 {
        var claim := CanTakeRoute(s, cityA, cityB);
        if claim.Some? {
          CanTakeRouteLegal(s, cityA, cityB);
          assert ClaimableStep(s, path, i);
          return claim, i;
        }
      }
      assert !ClaimableStep(s, path, i);
    }
    return None, -1;
  }

  /** The scan stops at one claim: two first claims along a path are the same. */
  lemma ClaimAlongUnique(s: GameState, path: seq<int>, m1: Option<Move>, m2: Option<Move>)
    requires ValidState(s) && ClaimAlong(s, path, m1) && ClaimAlong(s, path, m2)
    ensures m1 == m2
  {
    if m1.Some? && m2.Some? {
      var a :| 0 <= a < Edges(path) && ClaimableStep(s, path, a)
               && (forall j :: 0 <= j < a ==> !ClaimableStep(s, path, j))
               && m1.value == CanTakeRoute(s, path[a], path[a + 1]).value;
      var b :| 0 <= b < Edges(path) && ClaimableStep(s, path, b)
               && (forall j :: 0 <= j < b ==> !ClaimableStep(s, path, j))
               && m2.value == CanTakeRoute(s, path[b], path[b + 1]).value;
      if a < b {
        assert false;
      } else if b < a {
        assert false;
      }
    }
  }

  /** workOnSpecificObjective: claim along the cheapest path of objective
      objectiveIndex; nothing when no pair can be claimed (or no path exists). */
  method WorkOnSpecificObjective(s: GameState, objectiveIndex: int) returns (m: Option<Move>, path: seq<int>)
    requires ValidState(s) && 0 <= objectiveIndex < |s.objectives|
    ensures var o := s.objectives[objectiveIndex];
            exists cost :: PathResult(s, o.from, o.to, cost, path)
    ensures ClaimAlong(s, path, m)
    ensures m.Some? ==> LegalMove(s, m.value)
  {
    var objFrom, objTo := s.objectives[objectiveIndex].from, s.objectives[objectiveIndex].to;
    var cost;
    cost, path := FindSmartestPath(s, objFrom, objTo);
    ghost var step;
    m, step := ClaimAlongPath(s, path);
  }

  /** The intermediate cities findAlternativePath routes through. */
  const Hubs: seq<int> := [5, 10, 15, 20, 25]

  /** Hub h is passed over: out of range, or one of the two ends. */
  predicate HubSkipped(s: GameState, from: int, to: int, h: int)
    requires 0 <= h < |Hubs|
  {
    Hubs[h] >= s.nbCities || Hubs[h] == from || Hubs[h] == to
  }

  /** The two cheapest paths findAlternativePath computes through a hub:
      from the start to the hub, and from the hub to the end. */
  datatype HubLegs = HubLegs(cost1: int, leg1: seq<int>, cost2: int, leg2: seq<int>)

  /** legs are the cheapest paths of both legs through hub h (nothing is
      said for a hub passed over). */
  ghost predicate LegsThrough(s: GameState, from: int, to: int, h: int, legs: HubLegs)
    requires 0 <= h < |Hubs|
  {
    !HubSkipped(s, from, to, h) ==>
      && PathResult(s, from, Hubs[h], legs.cost1, legs.leg1)
      && PathResult(s, Hubs[h], to, legs.cost2, legs.leg2)
  }

  /** What hub h yields: nothing when it is passed over or either leg has
      no path of positive cost; otherwise the first claim along the first
      leg, or failing that along the second. */
  ghost predicate HubClaim(s: GameState, from: int, to: int, h: int, legs: HubLegs, m: Option<Move>)
    requires ValidState(s) && 0 <= h < |Hubs|
  {
    if HubSkipped(s, from, to, h) || legs.cost1 <= 0 || legs.cost2 <= 0 then m.None?
    else if !NoClaimAlong(s, legs.leg1) then ClaimAlong(s, legs.leg1, m)
    else ClaimAlong(s, legs.leg2, m)
  }

  /** The hubs before |legs| were examined, with legs[h] the legs through
      hub h, and yielded nothing. */
  ghost predicate NothingThrough(s: GameState, from: int, to: int, legs: seq<HubLegs>)
    requires ValidState(s)
  {
    && |legs| <= |Hubs|
    && (legs != [] ==>
          && NothingThrough(s, from, to, legs[..|legs| - 1])
          && LegsThrough(s, from, to, |legs| - 1, legs[|legs| - 1])
          && HubClaim(s, from, to, |legs| - 1, legs[|legs| - 1], None))
  }

  /** What findAlternativePath does, given the legs it computed for the
      hubs it examined: every hub before the last examined yields nothing,
      the last one yields m, and all five are examined when m is nothing. */
  ghost predicate AlternativePath(s: GameState, from: int, to: int, legs: seq<HubLegs>, m: Option<Move>)
    requires ValidState(s)
  {
    && 1 <= |legs| <= |Hubs|
    && NothingThrough(s, from, to, legs[..|legs| - 1])
    && LegsThrough(s, from, to, |legs| - 1, legs[|legs| - 1])
    && HubClaim(s, from, to, |legs| - 1, legs[|legs| - 1], m)
    && (m.None? ==> |legs| == |Hubs|)
  }

  /** One iteration of findAlternativePath: the legs through hub h and
      what the hub yields. */
  method ExamineHub(s: GameState, from: int, to: int, h: int) returns (m: Option<Move>, ghost legs: HubLegs)
    requires ValidState(s) && 0 <= h < |Hubs|
    ensures LegsThrough(s, from, to, h, legs) && HubClaim(s, from, to, h, legs, m)
  {
    var hub := Hubs[h];
    if hub >= s.nbCities || hub == from || hub == to {
      return None, HubLegs(-1, [], -1, []);
    }
    var dist1, path1 := FindSmartestPath(s, from, hub);
    var dist2, path2 := FindSmartestPath(s, hub, to);
    legs := HubLegs(dist1, path1, dist2, path2);
    m := None;
    if dist1 > 0 && dist2 > 0 {
      ghost var step;
      m, step := ClaimAlongPath(s, path1);
      if m.Some? {
        return;
      }
      m, step := ClaimAlongPath(s, path2);
    }
  }

  /** findAlternativePath: through the first usable hub (in range, neither
      end, cheapest paths of positive cost on both legs) with something to
      claim, claim along the leg from from, then along the leg to to. */
  method FindAlternativePath(s: GameState, from: int, to: int) returns (m: Option<Move>, ghost legs: seq<HubLegs>)
    requires ValidState(s)
    ensures AlternativePath(s, from, to, legs, m)
  {
    legs := [];
    m := None;
    for h := 0 to |Hubs|
      invariant |legs| == h && NothingThrough(s, from, to, legs)
    {
      ghost var through;
      m, through := ExamineHub(s, from, to, h);
      assert (legs + [through])[..h] == legs;
      legs := legs + [through];
      if m.Some? {
        return;
      }
    }
    m := None;
  }

  /** The claim scan's claim is canTakeRoute's claim on a pair of the path,
      so it is a legal route claim. */
  lemma FirstClaimLegal(s: GameState, path: seq<int>, mv: Move)
    requires ValidState(s) && FirstClaimAlong(s, path, mv)
    ensures LegalMove(s, mv) && mv.ClaimRoute?
  {
    var step :| && 0 <= step < Edges(path) && ClaimableStep(s, path, step)
                && (forall j :: 0 <= j < step ==> !ClaimableStep(s, path, j))
                && mv == CanTakeRoute(s, path[step], path[step + 1]).value;
    CanTakeRouteLegal(s, path[step], path[step + 1]);
  }

  /** A hub that yields a claim is in range, is neither end, is reachable
      from the start and reaches the end, and the claim is legal. */
  lemma HubClaimSome(s: GameState, from: int, to: int, h: int, d: HubLegs, m: Option<Move>)
    requires ValidState(s) && 0 <= h < |Hubs|
    requires LegsThrough(s, from, to, h, d) && HubClaim(s, from, to, h, d, m) && m.Some?
    ensures && 0 <= Hubs[h] < s.nbCities && Hubs[h] != from && Hubs[h] != to
            && Reachable(s, from, Hubs[h]) && Reachable(s, Hubs[h], to)
    ensures LegalMove(s, m.value) && m.value.ClaimRoute?
  {
    assert !HubSkipped(s, from, to, h) && d.cost1 > 0 && d.cost2 > 0;
    if !NoClaimAlong(s, d.leg1) {
      FirstClaimLegal(s, d.leg1, m.value);
    } else {
      FirstClaimLegal(s, d.leg2, m.value);
    }
  }

}
