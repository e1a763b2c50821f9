/** The decision tree of simpleStrategy and the handlers it dispatches to.
    The module-level statics currentObjectiveIndex and currentPath become
    the fields of an Engine object. */
module Strategy {
  import opened Types
  import opened Routes
  import opened Paths
  import opened Tally
  import opened Selectors
  import opened Objectives

  // ---------------------------------------------------------------------------
  // Game phases

  /** isAntiAdversaireMode: the opponent is close to the end while we hold
      many cards, or this is the last turn. */
  predicate IsAntiAdversaireMode(s: GameState) {
    (s.opponentWagonsLeft <= 5 && s.nbCards > 15) || s.lastTurn
  }

  /** The branches of simpleStrategy, in the order it tries them. */
  datatype Phase =
    | NeedObjectives   // no objective held: draw objectives
    | AntiOpponent     // handleAntiAdversaire
    | Endgame          // handleEndgame
    | LateGame         // handleLateGame
    | AllCompleted     // buildLongestRoute
    | Objectives       // workOnObjectives

  predicate AllObjectivesCompleted(s: GameState) {
    forall i :: 0 <= i < |s.completed| ==> s.completed[i]
  }

  function PhaseOf(s: GameState): Phase {
    if |s.objectives| == 0 then NeedObjectives
    else if IsAntiAdversaireMode(s) then AntiOpponent
    else if s.lastTurn || s.wagonsLeft <= 3 || s.opponentWagonsLeft <= 3 then Endgame
    else if s.wagonsLeft <= 8 || s.opponentWagonsLeft <= 8 then LateGame
    else if AllObjectivesCompleted(s) then AllCompleted
    else Objectives
  }

  /** The last turn is always handled as anti-opponent play: the endgame
      handler is reached only on wagon counts, never on the last-turn flag. */
  lemma LastTurnIsAntiOpponent(s: GameState)
    requires |s.objectives| > 0 && s.lastTurn
    ensures PhaseOf(s) == AntiOpponent
  {
  }

  /** The endgame handler runs exactly when objectives are held, the
      anti-opponent mode is off and one player has at most 3 wagons left. */
  lemma EndgameWhen(s: GameState)
    ensures PhaseOf(s) == Endgame <==>
              |s.objectives| > 0 && !IsAntiAdversaireMode(s) && (s.wagonsLeft <= 3 || s.opponentWagonsLeft <= 3)
  {
  }

  /** The completed-objective count of simpleStrategy. */
  method CountCompleted(s: GameState) returns (count: int)
    requires ValidState(s)
    ensures 0 <= count <= |s.objectives|
    ensures count == |s.objectives| <==> AllObjectivesCompleted(s)
  {
    count := 0;
    for i := 0 to |s.objectives|
      invariant 0 <= count <= i
      invariant count == i <==> forall k :: 0 <= k < i ==> s.completed[k]
    {
      if s.completed[i] {
        count := count + 1;
      }
    }
  }

  // ---------------------------------------------------------------------------
  // handleEndgame

  /** An objective handleEndgame tries to finish: at most one unclaimed pair
      on its path, and no more than the wagons left. */
  ghost predicate EndgameReady(s: GameState, path: seq<int>)
    requires ValidState(s)
  {
    Free(s, path) <= 1 && Free(s, path) <= s.wagonsLeft
  }

  /** Among the objectives examined, no incomplete one ready to finish had a
      claimable pair on its path. */
  ghost predicate NoneToFinish(s: GameState, paths: seq<seq<int>>)
    requires ValidState(s) && |paths| <= |s.objectives|
  {
    forall k :: 0 <= k < |paths| && !s.completed[k] && EndgameReady(s, paths[k]) ==> NoClaimAlong(s, paths[k])
  }

  lemma NoneToFinishAppend(s: GameState, paths: seq<seq<int>>, path: seq<int>)
    requires ValidState(s) && |paths| < |s.objectives| && NoneToFinish(s, paths)
    requires !s.completed[|paths|] && EndgameReady(s, path) ==> NoClaimAlong(s, path)
    ensures NoneToFinish(s, paths + [path])
  {
    var all := paths + [path];
    assert forall k :: 0 <= k < |paths| ==> all[k] == paths[k];
  }

  /** The move of handleEndgame, given the cheapest paths it computed: the
      first claimable pair along the path of the first incomplete objective
      ready to finish that has one; takeHighestValueRoute when none has. */
  ghost predicate EndgameResult(s: GameState, m: Move, objective: int, costs: seq<int>, paths: seq<seq<int>>)
    requires ValidState(s)
  {
    && CheapestPaths(s, costs, paths)
    && (objective == -1 ==> |paths| == |s.objectives| && NoneToFinish(s, paths) && HighestValueMove(s, m))
    && (objective != -1 ==>
          && |paths| == objective + 1 && NoneToFinish(s, paths[..objective])
          && !s.completed[objective] && EndgameReady(s, paths[objective])
          && FirstClaimAlong(s, paths[objective], m))
  }

  /** A move handleEndgame may produce. */
  ghost predicate EndgameMove(s: GameState, m: Move)
    requires ValidState(s)
  {
    exists objective, costs, paths :: EndgameResult(s, m, objective, costs, paths)
  }

  /** handleEndgame: for the first incomplete objective at most one unclaimed
      route (and no more than the wagons left) away along its cheapest path,
      claim along that path when possible; otherwise take the highest-value
      route. */
  method HandleEndgame(s: GameState)
    returns (m: Move, ghost objective: int, ghost costs: seq<int>, ghost paths: seq<seq<int>>)
    requires ValidState(s)
    ensures LegalMove(s, m)
    ensures m.ClaimRoute? || m == DrawBlindCard
    ensures EndgameResult(s, m, objective, costs, paths)
  {
    costs, paths := [], [];
    for i := 0 to |s.objectives|
      invariant |paths| == i && CheapestPaths(s, costs, paths) && NoneToFinish(s, paths)
    {
      var cost := -1;
      var objPath: seq<int> := [];
      if !s.completed[i] {
        var objFrom, objTo := s.objectives[i].from, s.objectives[i].to;
        cost, objPath := FindSmartestPath(s, objFrom, objTo);
        var owned, routesNeeded, other := TallyPath(s, objPath);
        if routesNeeded <= 1 && routesNeeded <= s.wagonsLeft {
          var claim;
          ghost var step;
          claim, step := ClaimAlongPath(s, objPath);
          if claim.Some? {
            CheapestAppend(s, costs, paths, cost, objPath);
            assert (paths + [objPath])[..i] == paths;
            costs, paths := costs + [cost], paths + [objPath];
            return claim.value, i, costs, paths;
          }
        }
      }
      CheapestAppend(s, costs, paths, cost, objPath);
      NoneToFinishAppend(s, paths, objPath);
      costs, paths := costs + [cost], paths + [objPath];
    }
    ghost var best;
    m, best := TakeHighestValueRoute(s);
    objective := -1;
  }

  // ---------------------------------------------------------------------------
  // alternativeStrategy and handleAntiAdversaire

  /** Objective o can be reached through hub: a hub city of findAlternativePath,
      other than the objective's ends, reachable from one and reaching the other. */
  ghost predicate Detour(s: GameState, o: Objective, hub: int) {
    && hub in Hubs && 0 <= hub < s.nbCities && hub != o.from && hub != o.to
    && Reachable(s, o.from, hub) && Reachable(s, hub, o.to)
  }

  /** Among the objectives examined, findAlternativePath found nothing for
      any incomplete one; legs[k] records the hubs it examined for k. */
  ghost predicate NoDetours(s: GameState, legs: seq<seq<HubLegs>>)
    requires ValidState(s) && |legs| <= |s.objectives|
  {
    forall k :: 0 <= k < |legs| && !s.completed[k] ==>
      AlternativePath(s, s.objectives[k].from, s.objectives[k].to, legs[k], None)
  }

  lemma NoDetoursAppend(s: GameState, legs: seq<seq<HubLegs>>, through: seq<HubLegs>)
    requires ValidState(s) && |legs| < |s.objectives| && NoDetours(s, legs)
    requires var o := s.objectives[|legs|];
             !s.completed[|legs|] ==> AlternativePath(s, o.from, o.to, through, None)
    ensures NoDetours(s, legs + [through])
  {
    var all := legs + [through];
    assert forall k :: 0 <= k < |legs| ==> all[k] == legs[k];
  }

  /** The move of alternativeStrategy, given the hubs findAlternativePath
      examined: its claim for the first incomplete objective that has one,
      buildLongestRoute when none has. */
  ghost predicate AlternativeResult(s: GameState, m: Move, objective: int, legs: seq<seq<HubLegs>>)
    requires ValidState(s)
  {
    && (objective == -1 ==> |legs| == |s.objectives| && NoDetours(s, legs) && LongestRouteMove(s, m))
    && (objective != -1 ==>
          && |legs| == objective + 1 <= |s.objectives| && NoDetours(s, legs[..objective])
          && !s.completed[objective]
          && AlternativePath(s, s.objectives[objective].from, s.objectives[objective].to, legs[objective], Some(m)))
  }

  /** A move alternativeStrategy may produce. */
  ghost predicate AlternativeMove(s: GameState, m: Move)
    requires ValidState(s)
  {
    exists objective, legs :: AlternativeResult(s, m, objective, legs)
  }

  /** alternativeStrategy: the first incomplete objective for which
      findAlternativePath claims a route through a hub; otherwise
      buildLongestRoute. */
  method AlternativeStrategy(s: GameState) returns (m: Move, ghost objective: int, ghost legs: seq<seq<HubLegs>>)
    requires ValidState(s)
    ensures LegalMove(s, m) && AlternativeResult(s, m, objective, legs)
    ensures objective != -1 ==> m.ClaimRoute? && exists hub :: Detour(s, s.objectives[objective], hub)
  {
    legs := [];
    for i := 0 to |s.objectives|
      invariant |legs| == i && NoDetours(s, legs)
    {
      var detour: Option<Move> := None;
      ghost var through := [];
      if !s.completed[i] {
        detour, through := FindAlternativePath(s, s.objectives[i].from, s.objectives[i].to);
        if detour.Some? {
          HubClaimSome(s, s.objectives[i].from, s.objectives[i].to, |through| - 1, through[|through| - 1], detour);
          assert Detour(s, s.objectives[i], Hubs[|through| - 1]);
          assert (legs + [through])[..i] == legs;
          legs := legs + [through];
          return detour.value, i, legs;
        }
      }
      NoDetoursAppend(s, legs, through);
      legs := legs + [through];
    }
    ghost var best;
    m, best := BuildLongestRoute(s);
    objective := -1;
  }

  /** The move of handleAntiAdversaire, given the pick of
      findQuickestObjective (with its assessments), the path
      workOnSpecificObjective computed and the picks of the two route scans:
      a claim along the quickest objective's path (or nothing); with no
      quickest objective, the network scan's route, else the profitable
      scan's route, else a blind draw. */
  ghost predicate AntiResult(s: GameState, m: Option<Move>, quick: int, assessed: seq<Assessment>,
                             paths: seq<seq<int>>, path: seq<int>, netBest: int, profBest: int)
    requires ValidState(s)
  {
    && QuickestPick(s, quick, assessed, paths)
    && (quick != -1 ==>
          && (exists cost :: PathResult(s, s.objectives[quick].from, s.objectives[quick].to, cost, path))
          && ClaimAlong(s, path, m))
    && (quick == -1 ==>
          && FirstLongest(s, Network, netBest)
          && (netBest != -1 ==> m == Some(ClaimOf(s, netBest)))
          && (netBest == -1 ==>
                && FirstLongest(s, Profitable, profBest)
                && (profBest != -1 ==> m == Some(ClaimOf(s, profBest)))
                && (profBest == -1 ==> m == Some(DrawBlindCard))))
  }

  /** A move handleAntiAdversaire may produce. */
  ghost predicate AntiMove(s: GameState, m: Option<Move>)
    requires ValidState(s)
  {
    exists quick, assessed, paths, path, netBest, profBest :: AntiResult(s, m, quick, assessed, paths, path, netBest, profBest)
  }

  /** handleAntiAdversaire: work on the quickest objective when there is
      one (which may produce no move); otherwise extend the network, else
      take a route of length 4 or more, else draw blind. */
  method HandleAntiAdversaire(s: GameState)
    returns (m: Option<Move>, quick: int, ghost assessed: seq<Assessment>, ghost paths: seq<seq<int>>,
             ghost path: seq<int>, ghost netBest: int, ghost profBest: int)
    requires ValidState(s)
    ensures m.Some? ==> LegalMove(s, m.value)
    ensures AntiResult(s, m, quick, assessed, paths, path, netBest, profBest)
    ensures m.None? ==> quick != -1
  {
    quick, assessed, paths := FindQuickestObjective(s);
    netBest, profBest, path := -1, -1, [];
    if quick >= 0 {
      m, path := WorkOnSpecificObjective(s, quick);
      return;
    }
    var network;
    network, netBest := BuildFromExistingNetwork(s);
    if network.Some? {
      m := network;
      return;
    }
    var profitable;
    profitable, profBest := TakeAnyProfitableRoute(s);
    if profitable.Some? {
      m := profitable;
      return;
    }
    m := Some(DrawBlindCard);
  }

  // ---------------------------------------------------------------------------
  // analyzeAllObjectivesAndAct: the objectives

  /** What analyzeAllObjectivesAndAct records about one incomplete objective. */
  datatype ObjectiveInfo = ObjectiveInfo(index: int, score: int, distance: int, path: seq<int>, blocked: bool)

  /** info describes objective info.index: its cheapest path, and blocked
      when there is no path of positive cost or no pair left to claim
      while some pair is not ours. */
  ghost predicate Describes(s: GameState, info: ObjectiveInfo)
    requires ValidState(s)
  {
    && 0 <= info.index < |s.objectives| && !s.completed[info.index]
    && info.score == s.objectives[info.index].score
    && PathResult(s, s.objectives[info.index].from, s.objectives[info.index].to, info.distance, info.path)
    && info.blocked == (info.distance <= 0
                        || (Free(s, info.path) == 0 && Owned(s, info.path) < Edges(info.path)))
  }

  /** An objective that is not blocked has a route to claim on its path. */
  lemma UnblockedHasFreePair(s: GameState, info: ObjectiveInfo)
    requires ValidState(s) && Describes(s, info) && !info.blocked
    ensures info.distance > 0 && Free(s, info.path) >= 1
  {
    var o := s.objectives[info.index];
    PositiveCostNeedsRoute(s, o.from, o.to, info.distance, info.path);
  }

  function CountBlocked(infos: seq<ObjectiveInfo>): (c: nat)
    ensures c <= |infos|
  {
    if infos == [] then 0 else CountBlocked(infos[..|infos| - 1]) + (if infos[|infos| - 1].blocked then 1 else 0)
  }

  /** The incomplete objectives, in order, each described once. */
  ghost predicate ListsIncomplete(s: GameState, infos: seq<ObjectiveInfo>, upTo: int)
    requires ValidState(s) && 0 <= upTo <= |s.objectives|
  {
    && (forall k {:trigger Describes(s, infos[k])} :: 0 <= k < |infos| ==> Describes(s, infos[k]))
    && (forall k :: 0 <= k < |infos| ==> infos[k].index < upTo)
    && (forall k, l :: 0 <= k < l < |infos| ==> infos[k].index < infos[l].index)
    && (forall i :: 0 <= i < upTo && !s.completed[i] ==> exists k :: 0 <= k < |infos| && infos[k].index == i)
  }

  lemma ListsSkip(s: GameState, infos: seq<ObjectiveInfo>, i: int)
    requires ValidState(s) && 0 <= i < |s.objectives| && s.completed[i] && ListsIncomplete(s, infos, i)
    ensures ListsIncomplete(s, infos, i + 1)
  {
  }

  lemma ListsAppend(s: GameState, infos: seq<ObjectiveInfo>, i: int, info: ObjectiveInfo)
    requires ValidState(s) && 0 <= i < |s.objectives| && ListsIncomplete(s, infos, i)
    requires Describes(s, info) && info.index == i
    ensures ListsIncomplete(s, infos + [info], i + 1)
  {
    var infos' := infos + [info];
    forall j | 0 <= j < i + 1 && !s.completed[j]
      ensures exists k :: 0 <= k < |infos'| && infos'[k].index == j
    {
      if j == i {
        assert infos'[|infos|].index == j;
      } else {
        var k :| 0 <= k < |infos| && infos[k].index == j;
        assert infos'[k].index == j;
      }
    }
  }

  /** The first loop of analyzeAllObjectivesAndAct. */
  method CollectObjectives(s: GameState) returns (infos: seq<ObjectiveInfo>, blockedCount: int)
    requires ValidState(s)
    ensures ListsIncomplete(s, infos, |s.objectives|)
    ensures blockedCount == CountBlocked(infos)
  {
    infos, blockedCount := [], 0;
    for i := 0 to |s.objectives|
      invariant ListsIncomplete(s, infos, i)
      invariant blockedCount == CountBlocked(infos)
    {
      if s.completed[i] {
        ListsSkip(s, infos, i);
      } else {
        var a, path := Assess(s, s.objectives[i]);
        var blocked := a.cost <= 0 || (a.free == 0 && a.owned < Edges(path));
        var info := ObjectiveInfo(i, s.objectives[i].score, a.cost, path, blocked);
        ListsAppend(s, infos, i, info);
        assert (infos + [info])[..|infos|] == infos;
        infos := infos + [info];
        if blocked {
          blockedCount := blockedCount + 1;
        }
      }
    }
  }

  // ---------------------------------------------------------------------------
  // analyzeAllObjectivesAndAct: the routes

  /** One consecutive pair of path is a and b, in either order. */
  predicate HasPair(path: seq<int>, a: int, b: int) {
    exists p :: 0 <= p < Edges(path) && ((path[p] == a && path[p + 1] == b) || (path[p] == b && path[p + 1] == a))
  }

  /** The pair search of the route analysis, stopping at the first match. */
  method FindPair(path: seq<int>, a: int, b: int) returns (found: bool)
    ensures found == HasPair(path, a, b)
  {
    found := false;
    var p := 0;
    while p < |path| - 1
      invariant 0 <= p <= Edges(path)
      invariant forall q :: 0 <= q < p ==> !((path[q] == a && path[q + 1] == b) || (path[q] == b && path[q + 1] == a))
    {
      if (path[p] == a && path[p + 1] == b) || (path[p] == b && path[p + 1] == a) {
        return true;
      }
      p := p + 1;
    }
  }

  /** The objectives among infos[..k] a route joining a and b serves: not
      blocked, with a and b consecutive on the path. */
  function UsefulCount(infos: seq<ObjectiveInfo>, a: int, b: int, k: nat): (c: nat)
    requires k <= |infos|
    ensures c <= k
  {
    if k == 0 then 0
    else UsefulCount(infos, a, b, k - 1) + (if !infos[k - 1].blocked && HasPair(infos[k - 1].path, a, b) then 1 else 0)
  }

  /** The summed scores of those objectives. */
  function UsefulValue(infos: seq<ObjectiveInfo>, a: int, b: int, k: nat): int
    requires k <= |infos|
  {
    if k == 0 then 0
    else UsefulValue(infos, a, b, k - 1) + (if !infos[k - 1].blocked && HasPair(infos[k - 1].path, a, b) then infos[k - 1].score else 0)
  }

  /** The usefulness loop over the objectives for one route. */
  method Usefulness(infos: seq<ObjectiveInfo>, a: int, b: int) returns (count: int, value: int)
    ensures count == UsefulCount(infos, a, b, |infos|) && value == UsefulValue(infos, a, b, |infos|)
  {
    count, value := 0, 0;
    for k := 0 to |infos|
      invariant count == UsefulCount(infos, a, b, k) && value == UsefulValue(infos, a, b, k)
    {
      if !infos[k].blocked {
        var found := FindPair(infos[k].path, a, b);
        if found {
          count := count + 1;
          value := value + infos[k].score;
        }
      }
    }
  }

  datatype RouteAnalysis = RouteAnalysis(from: int, to: int, useful: int, totalValue: int, length: int, priority: int)

  /** The priority of a route: the objective value it serves, plus 50 per
      objective when it serves more than one. */
  function Priority(useful: int, totalValue: int): int {
    if useful > 1 then totalValue + useful * 50 else totalValue
  }

  /** The analysis entry of a route, if it is unclaimed and useful. */
  function EntryOf(r: Route, infos: seq<ObjectiveInfo>): seq<RouteAnalysis> {
    var useful := UsefulCount(infos, r.from, r.to, |infos|);
    var value := UsefulValue(infos, r.from, r.to, |infos|);
    if r.owner == 0 && useful > 0 then [RouteAnalysis(r.from, r.to, useful, value, r.length, Priority(useful, value))]
    else []
  }

  /** The analysis list of the first n routes, in route order. */
  function AnalysisOf(s: GameState, infos: seq<ObjectiveInfo>, n: nat): seq<RouteAnalysis>
    requires n <= |s.routes|
  {
    if n == 0 then [] else AnalysisOf(s, infos, n - 1) + EntryOf(s.routes[n - 1], infos)
  }

  /** The route analysis loop. */
  method AnalyzeRoutes(s: GameState, infos: seq<ObjectiveInfo>) returns (analysis: seq<RouteAnalysis>)
    ensures analysis == AnalysisOf(s, infos, |s.routes|)
  {
    analysis := [];
    for r := 0 to |s.routes|
      invariant analysis == AnalysisOf(s, infos, r)
    {
      if s.routes[r].owner == 0 {
        var routeFrom, routeTo := s.routes[r].from, s.routes[r].to;
        var usefulCount, totalValue := Usefulness(infos, routeFrom, routeTo);
        if usefulCount > 0 {
          var priority := totalValue;
          if usefulCount > 1 {
            priority := priority + usefulCount * 50;
          }
          analysis := analysis + [RouteAnalysis(routeFrom, routeTo, usefulCount, totalValue, s.routes[r].length, priority)];
        }
      }
    }
  }

  /** Every analysed route is an unclaimed route serving some objective that
      is not blocked, whose path has the route's cities as a pair. */
  lemma {:induction false} AnalysisServesObjectives(s: GameState, infos: seq<ObjectiveInfo>, n: nat)
    requires n <= |s.routes|
    ensures forall e :: e in AnalysisOf(s, infos, n) ==>
              && e.useful >= 1 && e.priority == Priority(e.useful, e.totalValue)
              && (exists i :: 0 <= i < n && s.routes[i].owner == 0 && s.routes[i].from == e.from && s.routes[i].to == e.to)
              && (exists k :: 0 <= k < |infos| && !infos[k].blocked && HasPair(infos[k].path, e.from, e.to))
  {
    if n > 0 {
      AnalysisServesObjectives(s, infos, n - 1);
      var r := s.routes[n - 1];
      if r.owner == 0 && UsefulCount(infos, r.from, r.to, |infos|) > 0 {
        UsefulHasWitness(infos, r.from, r.to, |infos|);
      }
    }
  }

  lemma {:induction false} UsefulHasWitness(infos: seq<ObjectiveInfo>, a: int, b: int, k: nat)
    requires k <= |infos| && UsefulCount(infos, a, b, k) > 0
    ensures exists j :: 0 <= j < k && !infos[j].blocked && HasPair(infos[j].path, a, b)
  {
    if !(!infos[k - 1].blocked && HasPair(infos[k - 1].path, a, b)) {
      UsefulHasWitness(infos, a, b, k - 1);
    }
  }

  /** An objective that is not blocked makes the analysis non-empty: the
      first route joining an unclaimed pair of its path is unclaimed and
      serves it.  So the final workOnSingleObjective fallback of
      analyzeAllObjectivesAndAct is never reached. */
  lemma AnalysisNonEmpty(s: GameState, infos: seq<ObjectiveInfo>, k: int)
    requires ValidState(s) && 0 <= k < |infos| && Describes(s, infos[k]) && !infos[k].blocked
    ensures |AnalysisOf(s, infos, |s.routes|)| > 0
  {
    var info := infos[k];
    UnblockedHasFreePair(s, info);
    var j := FreePair(s, info.path, Edges(info.path));
    var a, b := info.path[j], info.path[j + 1];
    GetRouteOwnerSpec(s, a, b);
    var i := FirstJoining(s.routes, a, b, 0);
    var r := s.routes[i];
    assert HasPair(info.path, r.from, r.to);
    UsefulAtLeast(infos, r.from, r.to, k, |infos|);
    AnalysisGrows(s, infos, i + 1, |s.routes|);
  }

  /** A pair of path reported unclaimed, when some is counted. */
  lemma {:induction false} FreePair(s: GameState, path: seq<int>, k: nat) returns (j: int)
    requires ValidState(s) && k <= Edges(path) && CountOwner(s, path, 0, k) > 0
    ensures 0 <= j < k && GetRouteOwner(s, path[j], path[j + 1]) == 0
  {
    if GetRouteOwner(s, path[k - 1], path[k]) == 0 {
      j := k - 1;
    } else {
      j := FreePair(s, path, k - 1);
    }
  }

  lemma {:induction false} UsefulAtLeast(infos: seq<ObjectiveInfo>, a: int, b: int, j: int, k: nat)
    requires 0 <= j < k <= |infos| && !infos[j].blocked && HasPair(infos[j].path, a, b)
    ensures UsefulCount(infos, a, b, k) >= 1
  {
    if j < k - 1 {
      UsefulAtLeast(infos, a, b, j, k - 1);
    }
  }

  lemma {:induction false} AnalysisGrows(s: GameState, infos: seq<ObjectiveInfo>, m: nat, n: nat)
    requires 1 <= m <= n <= |s.routes|
    requires |EntryOf(s.routes[m - 1], infos)| > 0
    ensures |AnalysisOf(s, infos, n)| > 0
  {
    var last := EntryOf(s.routes[n - 1], infos);
    assert AnalysisOf(s, infos, n) == AnalysisOf(s, infos, n - 1) + last;
    assert |AnalysisOf(s, infos, n)| == |AnalysisOf(s, infos, n - 1)| + |last|;
    if m < n {
      AnalysisGrows(s, infos, m, n - 1);
    }
  }

  // ---------------------------------------------------------------------------
  // analyzeAllObjectivesAndAct: ranking and trying the routes

  /** The bubble sort of the route analysis: descending priority. */
  method SortByPriority(a: array<RouteAnalysis>)
    modifies a
    ensures forall i, j :: 0 <= i < j < a.Length ==> a[i].priority >= a[j].priority
    ensures multiset(a[..]) == multiset(old(a[..]))
  {
    var n := a.Length;
    if n == 0 {
      return;
    }
    for i := 0 to n - 1
      invariant multiset(a[..]) == multiset(old(a[..]))
      invariant forall x, y :: n - i <= x < y < n ==> a[x].priority >= a[y].priority
      invariant forall x, y :: 0 <= x < n - i <= y < n ==> a[x].priority >= a[y].priority
    {
      BubblePass(a, n - i);
    }
  }

  /** The state of a bubble-sort pass over q[..end] after j exchanges were
      considered: q is a permutation of q0 equal to it from end on, q[j] has
      the lowest priority of q[..j + 1], and q[..end] stays above q[end..]. */
  ghost predicate PassState(q: seq<RouteAnalysis>, q0: seq<RouteAnalysis>, j: int, end: int)
    requires 0 <= j < end <= |q| == |q0|
  {
    && (forall y :: end <= y < |q| ==> q[y] == q0[y])
    && multiset(q) == multiset(q0)
    && (forall x :: 0 <= x <= j ==> q[x].priority >= q[j].priority)
    && (forall x, y :: 0 <= x < end <= y < |q| ==> q[x].priority >= q[y].priority)
  }

  /** Leaving q[j] and q[j + 1] in place when q[j] ranks at least as high
      keeps the pass state one position further on. */
  lemma PassKeep(q: seq<RouteAnalysis>, q0: seq<RouteAnalysis>, j: int, end: int)
    requires 0 <= j && j + 1 < end <= |q| == |q0| && PassState(q, q0, j, end)
    requires q[j].priority >= q[j + 1].priority
    ensures PassState(q, q0, j + 1, end)
  {
  }

  /** Exchanging q[j] and q[j + 1] when the later one ranks higher keeps the
      pass state one position further on. */
  lemma PassSwap(q: seq<RouteAnalysis>, q0: seq<RouteAnalysis>, j: int, end: int)
    requires 0 <= j && j + 1 < end <= |q| == |q0| && PassState(q, q0, j, end)
    requires q[j].priority < q[j + 1].priority
    ensures PassState(q[j := q[j + 1]][j + 1 := q[j]], q0, j + 1, end)
  {
    var q' := q[j := q[j + 1]][j + 1 := q[j]];
    SwapPermutes(q, j, j + 1);
    forall x | 0 <= x <= j + 1
      ensures q'[x].priority >= q'[j + 1].priority
    {
      if x < j {
        assert q'[x] == q[x];
      }
    }
  }

  /** One pass of the bubble sort over a[..end]: the lowest priority sinks to end - 1. */
  method BubblePass(a: array<RouteAnalysis>, end: int)
    requires 1 <= end <= a.Length
    requires forall x, y :: 0 <= x < end <= y < a.Length ==> a[x].priority >= a[y].priority
    modifies a
    ensures forall y :: end <= y < a.Length ==> a[y] == old(a[y])
    ensures multiset(a[..]) == multiset(old(a[..]))
    ensures forall x :: 0 <= x < end ==> a[x].priority >= a[end - 1].priority
    ensures forall x, y :: 0 <= x < end <= y < a.Length ==> a[x].priority >= a[y].priority
  {
    ghost var q0 := a[..];
    for j := 0 to end - 1
      invariant PassState(a[..], q0, j, end)
    {
      ghost var q := a[..];
      if a[j].priority < a[j + 1].priority {
        PassSwap(q, q0, j, end);
        Swap(a, j, j + 1);
      } else {
        PassKeep(q, q0, j, end);
      }
    }
    assert PassState(a[..], q0, end - 1, end);
  }

  /** The top-five loop: the first of the five best-ranked routes that
      canTakeRoute can claim. */
  method TryTopRoutes(s: GameState, ranked: seq<RouteAnalysis>) returns (m: Option<Move>, ghost k: int)
    requires ValidState(s)
    ensures m.None? ==> forall j :: 0 <= j < |ranked| && j < 5 ==> CanTakeRoute(s, ranked[j].from, ranked[j].to).None?
    ensures m.Some? ==> && 0 <= k < |ranked| && k < 5
                        && m == CanTakeRoute(s, ranked[k].from, ranked[k].to)
                        && LegalMove(s, m.value)
                        && forall j :: 0 <= j < k ==> CanTakeRoute(s, ranked[j].from, ranked[j].to).None?
  {
    var i := 0;
    while i < |ranked| && i < 5
      invariant 0 <= i
      invariant forall j :: 0 <= j < i && j < |ranked| ==> CanTakeRoute(s, ranked[j].from, ranked[j].to).None?
    {
      var claim := CanTakeRoute(s, ranked[i].from, ranked[i].to);
      if claim.Some? {
        CanTakeRouteSpec(s, ranked[i].from, ranked[i].to);
        return claim, i;
      }
      i := i + 1;
    }
    return None, -1;
  }

  /** Which branch of analyzeAllObjectivesAndAct produced the move. */
  datatype Outcome = Emergency | Alternative | Longest | TopRoute | DrawToward | Single

  /** A move emergencyUnblock may produce. */
  ghost predicate EmergencyMove(s: GameState, m: Move)
    requires ValidState(s)
  {
    exists tier, index :: EmergencyResult(s, m, tier, index)
  }

  /** ranked is analysis reordered by descending priority. */
  ghost predicate RanksByPriority(ranked: seq<RouteAnalysis>, analysis: seq<RouteAnalysis>) {
    && multiset(ranked) == multiset(analysis)
    && forall i, j :: 0 <= i < j < |ranked| ==> ranked[i].priority >= ranked[j].priority
  }

  /** Some objective is not blocked when fewer than all are. */
  lemma {:induction false} SomeUnblocked(infos: seq<ObjectiveInfo>) returns (k: int)
    requires CountBlocked(infos) < |infos|
    ensures 0 <= k < |infos| && !infos[k].blocked
  {
    var n := |infos| - 1;
    if infos[n].blocked {
      assert CountBlocked(infos) == CountBlocked(infos[..n]) + 1;
      k := SomeUnblocked(infos[..n]);
      assert infos[k] == infos[..n][k];
    } else {
      k := n;
    }
  }

  /** The five best-ranked routes, in order, of which the first claimable
      one is taken (TopRoute); failing that, above 25 cards, the alternative
      strategy (Alternative); otherwise a draw towards the best one
      (DrawToward). */
  ghost predicate RankedMove(s: GameState, infos: seq<ObjectiveInfo>, outcome: Outcome, ranked: seq<RouteAnalysis>, k: int, m: Move)
    requires ValidState(s)
  {
    && RanksByPriority(ranked, AnalysisOf(s, infos, |s.routes|))
    && (outcome == TopRoute || outcome == Alternative || outcome == DrawToward)
    && (outcome == TopRoute ==>
          && 0 <= k < |ranked| && k < 5
          && CanTakeRoute(s, ranked[k].from, ranked[k].to) == Some(m)
          && forall j :: 0 <= j < k ==> CanTakeRoute(s, ranked[j].from, ranked[j].to).None?)
    && (outcome != TopRoute ==> forall j :: 0 <= j < |ranked| && j < 5 ==> CanTakeRoute(s, ranked[j].from, ranked[j].to).None?)
    && (outcome == Alternative ==> TotalCards(s) > 25 && AlternativeMove(s, m))
    && (outcome == DrawToward ==>
          && TotalCards(s) <= 25 && 0 < |ranked|
          && m == DrawCardsForRoute(s, ranked[0].from, ranked[0].to))
  }

  /** The move of analyzeAllObjectivesAndAct, given the objectives it
      described and the routes it ranked: unblock above 40 cards; else the
      alternative strategy when every incomplete objective is blocked or
      above 30 cards; else buildLongestRoute with no incomplete objective;
      else a move on the ranked routes. */
  ghost predicate AnalysisResult(s: GameState, m: Move, outcome: Outcome, infos: seq<ObjectiveInfo>, ranked: seq<RouteAnalysis>, k: int)
    requires ValidState(s)
  {
    && (outcome == Emergency <==> TotalCards(s) > 40)
    && (outcome == Emergency ==> EmergencyMove(s, m))
    && (outcome != Emergency ==>
          && ListsIncomplete(s, infos, |s.objectives|)
          && var giveUp := (|infos| > 0 && CountBlocked(infos) == |infos|) || TotalCards(s) > 30;
             && (giveUp ==> outcome == Alternative && AlternativeMove(s, m))
             && (!giveUp && infos == [] ==> outcome == Longest && LongestRouteMove(s, m))
             && (!giveUp && infos != [] ==> RankedMove(s, infos, outcome, ranked, k, m)))
  }

  /** analyzeAllObjectivesAndAct.  With more than 40 cards, unblock; then
      describe the incomplete objectives; with all of them blocked or more
      than 30 cards, take the alternative strategy; with none, build the
      longest route; otherwise act on the ranked routes. */
  method AnalyzeAllObjectivesAndAct(s: GameState)
    returns (m: Move, ghost outcome: Outcome, ghost infos: seq<ObjectiveInfo>, ghost ranked: seq<RouteAnalysis>, ghost k: int)
    requires ValidState(s)
    ensures LegalMove(s, m)
    ensures AnalysisResult(s, m, outcome, infos, ranked, k)
  {
    var totalCards := CountCards(s);
    if totalCards > 40 {
      ghost var tier, index;
      m, tier, index := EmergencyUnblock(s);
      outcome, infos, ranked, k := Emergency, [], [], -1;
      return;
    }
    var objectives, blockedObjectives := CollectObjectives(s);
    infos, ranked, k := objectives, [], -1;
    if (blockedObjectives >= |objectives| && |objectives| > 0) || totalCards > 30 {
      ghost var objective, legs;
      m, objective, legs := AlternativeStrategy(s);
      outcome := Alternative;
      return;
    }
    if |objectives| == 0 {
      ghost var best;
      m, best := BuildLongestRoute(s);
      outcome := Longest;
      return;
    }
    m, outcome, ranked, k := ActOnRankedRoutes(s, objectives, totalCards);
  }

  /** The second half of analyzeAllObjectivesAndAct, once some objective is
      not blocked: rank the unclaimed routes by the objective value they
      serve and claim one of the five best; else, above 25 cards, take the
      alternative strategy; else draw towards the best.  Its final fallback
      to workOnSingleObjective is unreachable: an objective that is not
      blocked always yields an analysed route. */
  method ActOnRankedRoutes(s: GameState, objectives: seq<ObjectiveInfo>, totalCards: int)
    returns (m: Move, ghost outcome: Outcome, ghost ranked: seq<RouteAnalysis>, ghost k: int)
    requires ValidState(s) && ListsIncomplete(s, objectives, |s.objectives|)
    requires CountBlocked(objectives) < |objectives| && totalCards == TotalCards(s)
    ensures LegalMove(s, m)
    ensures RankedMove(s, objectives, outcome, ranked, k, m)
  {
    var analysis := AnalyzeRoutes(s, objectives);
    var routeAnalysis := new RouteAnalysis[|analysis|](i requires 0 <= i < |analysis| => analysis[i]);
    assert routeAnalysis[..] == analysis;
    SortByPriority(routeAnalysis);
    var sorted := routeAnalysis[..];
    ranked := sorted;
    var claim;
    claim, k := TryTopRoutes(s, sorted);
    if claim.Some? {
      m, outcome := claim.value, TopRoute;
    } else if totalCards > 25 {
      ghost var objective, legs;
      m, objective, legs := AlternativeStrategy(s);
      outcome := Alternative;
    } else if |sorted| > 0 {
      m, outcome := DrawCardsForRoute(s, sorted[0].from, sorted[0].to), DrawToward;
    } else {
      var unblocked := SomeUnblocked(objectives);
      AnalysisNonEmpty(s, objectives, unblocked);
      assert false;
    }
  }

  // ---------------------------------------------------------------------------
  // handleLateGame

  /** The efficiency test of handleLateGame, score / wagons against
      highestValue / (lowestCost + 1), in exact arithmetic.  With no wagon
      needed the quotient is infinite for a positive score and never
      greater for a score of zero or less. */
  predicate MoreEfficient(score: int, wagons: int, highestValue: int, lowestCost: int)
    requires wagons >= 0 && lowestCost >= 0
  {
    if wagons == 0 then score > 0 else score * (lowestCost + 1) > highestValue * wagons
  }

  /** For a positive wagon count the test is the comparison of the two quotients. */
  lemma MoreEfficientIsQuotient(score: int, wagons: int, highestValue: int, lowestCost: int)
    requires wagons > 0 && lowestCost >= 0
    ensures MoreEfficient(score, wagons, highestValue, lowestCost) <==>
              score as real / wagons as real > highestValue as real / (lowestCost + 1) as real
  {
    var x, y := score as real / wagons as real, highestValue as real / (lowestCost + 1) as real;
    var w, c := wagons as real, (lowestCost + 1) as real;
    assert score as real == x * w;
    assert highestValue as real == y * c;
    assert (score * (lowestCost + 1)) as real == x * w * c;
    assert (highestValue * wagons) as real == y * c * w;
    if x > y {
      assert x * (w * c) > y * (w * c);
    } else {
      assert x * (w * c) <= y * (w * c);
    }
  }

  /** Wagons handleLateGame expects to spend on a path: three per unclaimed pair. */
  function LateWagons(s: GameState, path: seq<int>): nat
    requires ValidState(s)
  {
    3 * Free(s, path)
  }

  /** The cheapest paths of the objectives examined so far. */
  ghost predicate CheapestPaths(s: GameState, costs: seq<int>, paths: seq<seq<int>>)
    requires ValidState(s)
  {
    && |costs| == |paths| <= |s.objectives|
    && forall k {:trigger PathResult(s, s.objectives[k].from, s.objectives[k].to, costs[k], paths[k])} ::
         0 <= k < |paths| && !s.completed[k] ==> PathResult(s, s.objectives[k].from, s.objectives[k].to, costs[k], paths[k])
  }

  lemma CheapestAppend(s: GameState, costs: seq<int>, paths: seq<seq<int>>, cost: int, path: seq<int>)
    requires ValidState(s) && CheapestPaths(s, costs, paths) && |paths| < |s.objectives|
    requires !s.completed[|paths|] ==> PathResult(s, s.objectives[|paths|].from, s.objectives[|paths|].to, cost, path)
    ensures CheapestPaths(s, costs + [cost], paths + [path])
  {
  }

  /** An objective handleLateGame can pick: affordable and worth points. */
  predicate LateCandidate(s: GameState, k: int, path: seq<int>)
    requires ValidState(s) && 0 <= k < |s.objectives|
  {
    LateWagons(s, path) <= s.wagonsLeft && s.objectives[k].score > 0
  }

  /** The pick of handleLateGame: -1 exactly when no incomplete objective is a
      candidate; otherwise an incomplete candidate that no later affordable
      objective beats on the efficiency test. */
  ghost predicate LatePick(s: GameState, best: int, costs: seq<int>, paths: seq<seq<int>>)
    requires ValidState(s)
  {
    && CheapestPaths(s, costs, paths) && |paths| == |s.objectives|
    && (best == -1 <==> forall k :: 0 <= k < |s.objectives| && !s.completed[k] ==> !LateCandidate(s, k, paths[k]))
    && (best != -1 ==>
          && 0 <= best < |s.objectives| && !s.completed[best] && LateCandidate(s, best, paths[best])
          && forall k :: best < k < |s.objectives| && !s.completed[k] && LateWagons(s, paths[k]) <= s.wagonsLeft ==>
               !MoreEfficient(s.objectives[k].score, LateWagons(s, paths[k]),
                              s.objectives[best].score, LateWagons(s, paths[best])))
  }

  /** The state of the handleLateGame scan after the objectives before
      |paths|: the pick so far, with its wagons and score. */
  ghost predicate LateScan(s: GameState, paths: seq<seq<int>>, best: int, lowestCost: int, highestValue: int)
    requires ValidState(s) && |paths| <= |s.objectives|
  {
    && (best == -1 <==> forall k :: 0 <= k < |paths| && !s.completed[k] ==> !LateCandidate(s, k, paths[k]))
    && (best == -1 ==> lowestCost == 999 && highestValue == 0)
    && (best != -1 ==>
          && 0 <= best < |paths| && !s.completed[best] && LateCandidate(s, best, paths[best])
          && lowestCost == LateWagons(s, paths[best]) && highestValue == s.objectives[best].score
          && forall k :: best < k < |paths| && !s.completed[k] && LateWagons(s, paths[k]) <= s.wagonsLeft ==>
               !MoreEfficient(s.objectives[k].score, LateWagons(s, paths[k]), highestValue, lowestCost))
  }

  /** One step of the handleLateGame scan keeps LateScan. */
  lemma LateStep(s: GameState, paths: seq<seq<int>>, best: int, lowestCost: int, highestValue: int,
                 path: seq<int>, best': int, lowestCost': int, highestValue': int)
    requires ValidState(s) && |paths| < |s.objectives| && LateScan(s, paths, best, lowestCost, highestValue)
    requires var i := |paths|;
             var w := LateWagons(s, path);
             var better := !s.completed[i] && w <= s.wagonsLeft && MoreEfficient(s.objectives[i].score, w, highestValue, lowestCost);
             && (better ==> best' == i && lowestCost' == w && highestValue' == s.objectives[i].score)
             && (!better ==> best' == best && lowestCost' == lowestCost && highestValue' == highestValue)
    ensures LateScan(s, paths + [path], best', lowestCost', highestValue')
  {
    var i := |paths|;
    var paths' := paths + [path];
    assert forall k :: 0 <= k < i ==> paths'[k] == paths[k];
    assert paths'[i] == path;
    var w := LateWagons(s, path);
    var score := s.objectives[i].score;
    if !s.completed[i] && w <= s.wagonsLeft && MoreEfficient(score, w, highestValue, lowestCost) {
      MoreEfficientNeedsPoints(score, w, highestValue, lowestCost);
      assert LateCandidate(s, i, paths'[i]);
    } else if best == -1 {
      MoreEfficientThanNothing(score, w);
      assert !s.completed[i] ==> !LateCandidate(s, i, paths'[i]);
    } else {
      forall k | best < k < i + 1 && !s.completed[k] && LateWagons(s, paths'[k]) <= s.wagonsLeft
        ensures !MoreEfficient(s.objectives[k].score, LateWagons(s, paths'[k]), highestValue, lowestCost)
      {
        if k < i {
          assert paths'[k] == paths[k];
        }
      }
    }
  }

  /** Beating a pick (or the initial zero value) needs a positive score. */
  lemma MoreEfficientNeedsPoints(score: int, wagons: int, highestValue: int, lowestCost: int)
    requires wagons >= 0 && lowestCost >= 0 && highestValue >= 0
    requires MoreEfficient(score, wagons, highestValue, lowestCost)
    ensures score > 0
  {
  }

  /** Against the initial state of the scan, the test is just a positive score. */
  lemma MoreEfficientThanNothing(score: int, wagons: int)
    requires wagons >= 0
    ensures MoreEfficient(score, wagons, 0, 999) <==> score > 0
  {
  }

  /** The scan of handleLateGame. */
  method LateGamePick(s: GameState) returns (best: int, ghost costs: seq<int>, ghost paths: seq<seq<int>>)
    requires ValidState(s)
    ensures LatePick(s, best, costs, paths)
  {
    best := -1;
    var lowestCost, highestValue := 999, 0;
    costs, paths := [], [];
    for i := 0 to |s.objectives|
      invariant |paths| == i && CheapestPaths(s, costs, paths)
      invariant LateScan(s, paths, best, lowestCost, highestValue)
    {
      ghost var before, lowestBefore, highestBefore := best, lowestCost, highestValue;
      var path: seq<int> := [];
      var cost := -1;
      if !s.completed[i] {
        var objScore := s.objectives[i].score;
        cost, path := FindSmartestPath(s, s.objectives[i].from, s.objectives[i].to);
        var owned, routesNeeded, other := TallyPath(s, path);
        var wagonsNeeded := 3 * routesNeeded;
        if wagonsNeeded <= s.wagonsLeft {
          if MoreEfficient(objScore, wagonsNeeded, highestValue, lowestCost) {
            best := i;
            lowestCost := wagonsNeeded;
            highestValue := objScore;
          }
        }
      }
      LateStep(s, paths, before, lowestBefore, highestBefore, path, best, lowestCost, highestValue);
      CheapestAppend(s, costs, paths, cost, path);
      costs, paths := costs + [cost], paths + [path];
    }
  }

  // ---------------------------------------------------------------------------
  // The engine: the module statics and the handlers that update them

  /** What workOnSingleObjective does on an unclaimed pair: claim it when
      canTakeRoute allows, otherwise draw towards it. */
  function ClaimOrDraw(s: GameState, a: int, b: int): Move
    requires ValidState(s)
  {
    if CanTakeRoute(s, a, b).Some? then CanTakeRoute(s, a, b).value else DrawCardsForRouteAggressively(s, a, b)
  }

  lemma ClaimOrDrawLegal(s: GameState, a: int, b: int)
    requires ValidState(s)
    ensures LegalMove(s, ClaimOrDraw(s, a, b))
  {
    CanTakeRouteSpec(s, a, b);
  }

  /** An advance along path: the first pair not reported ours is reported
      unclaimed, and the move claims it or draws towards it. */
  ghost predicate AdvancesAlong(s: GameState, path: seq<int>, m: Move)
    requires ValidState(s)
  {
    exists j :: && 0 <= j < Edges(path)
                && (forall k :: 0 <= k < j ==> GetRouteOwner(s, path[k], path[k + 1]) == 1)
                && GetRouteOwner(s, path[j], path[j + 1]) == 0
                && m == ClaimOrDraw(s, path[j], path[j + 1])
  }

  /** index is an incomplete objective that findNearestCompletionObjective
      may pick, with path its cheapest path. */
  ghost predicate NearestTarget(s: GameState, index: int, path: seq<int>)
    requires ValidState(s)
  {
    && 0 <= index < |s.objectives| && !s.completed[index]
    && (exists cost :: cost > 0 && PathResult(s, s.objectives[index].from, s.objectives[index].to, cost, path))
    && Blocked(s, path) == 0 && 1 <= Free(s, path) <= 4
  }

  /** What workOnSingleObjective does, from statics prevIndex and prevPath
      to newIndex and newPath, given the pick best of
      findNearestCompletionObjective and its assessments: with no pick, the
      statics untouched and a buildLongestRoute move; otherwise the statics
      set to the pick and the path computed for it, and an advance along
      that path. */
  ghost predicate WorkedOnSingle(s: GameState, m: Move, prevIndex: int, prevPath: seq<int>, newIndex: int, newPath: seq<int>,
                                 best: int, assessed: seq<Assessment>, paths: seq<seq<int>>)
    requires ValidState(s)
  {
    && NearestPick(s, best, assessed, paths)
    && (best == -1 ==> newIndex == prevIndex && newPath == prevPath && LongestRouteMove(s, m))
    && (best != -1 ==>
          && newIndex == best && newPath == paths[best]
          && NearestTarget(s, best, newPath) && AdvancesAlong(s, newPath, m))
  }

  /** A move (and update of the statics) workOnSingleObjective may produce. */
  ghost predicate SingleMove(s: GameState, m: Move, prevIndex: int, prevPath: seq<int>, newIndex: int, newPath: seq<int>)
    requires ValidState(s)
  {
    exists best, assessed, paths :: WorkedOnSingle(s, m, prevIndex, prevPath, newIndex, newPath, best, assessed, paths)
  }

  /** A move (and update of the statics) handleLateGame may produce: with
      no pick, the statics untouched and a buildLongestRoute move;
      otherwise workOnSingleObjective run with the pick as current
      objective. */
  ghost predicate LateMove(s: GameState, m: Move, prevIndex: int, prevPath: seq<int>, newIndex: int, newPath: seq<int>)
    requires ValidState(s)
  {
    exists pick, costs, paths :: && LatePick(s, pick, costs, paths)
                                 && (pick == -1 ==> newIndex == prevIndex && newPath == prevPath && LongestRouteMove(s, m))
                                 && (pick != -1 ==> SingleMove(s, m, pick, prevPath, newIndex, newPath))
  }

  /** A move (and update of the statics) workOnObjectives may produce:
      above 25 cards, workOnSingleObjective; otherwise the statics
      untouched and a move of analyzeAllObjectivesAndAct. */
  ghost predicate ObjectivesMove(s: GameState, m: Move, prevIndex: int, prevPath: seq<int>, newIndex: int, newPath: seq<int>)
    requires ValidState(s)
  {
    if TotalCards(s) > 25 then SingleMove(s, m, prevIndex, prevPath, newIndex, newPath)
    else && newIndex == prevIndex && newPath == prevPath
         && exists outcome, infos, ranked, k :: AnalysisResult(s, m, outcome, infos, ranked, k)
  }

  class Engine {
    /** The objective being worked on, -1 for none. */
    var currentObjectiveIndex: int
    /** The cheapest path last computed for it. */
    var currentPath: seq<int>

    constructor ()
      ensures currentObjectiveIndex == -1 && currentPath == []
    {
      currentObjectiveIndex := -1;
      currentPath := [];
    }

    /** workOnSingleObjective.  Its recursive re-invocations (objective
        completed, no path of positive cost, a blocked pair, or the path
        walked to its end) cannot happen on the objective
        findNearestCompletionObjective picks, and are shown unreachable. */
    method WorkOnSingleObjective(s: GameState)
      returns (m: Move, ghost best: int, ghost assessed: seq<Assessment>, ghost paths: seq<seq<int>>)
      requires ValidState(s)
      modifies this
      ensures LegalMove(s, m)
      ensures WorkedOnSingle(s, m, old(currentObjectiveIndex), old(currentPath), currentObjectiveIndex, currentPath,
                             best, assessed, paths)
    {
      var bestObjective, cost, path;
      bestObjective, cost, path, assessed, paths := FindNearestCompletionObjective(s);
      best := bestObjective;
      if bestObjective < 0 {
        ghost var longest;
        m, longest := BuildLongestRoute(s);
        return;
      }
      NearestIsTarget(s, bestObjective, assessed, paths);
      currentObjectiveIndex := bestObjective;
      if s.completed[currentObjectiveIndex] {
        assert false;
      }
      // findSmartestPath is deterministic: the path it returns here is the
      // one the search above obtained for this objective.
      currentPath := path;
      var distance := cost;
      if distance <= 0 {
        assert false;
      }
      m := AdvanceAlong(s, currentPath);
    }

    /** handleLateGame: work on the pick of its scan, recorded as the
        current objective; with no pick, buildLongestRoute. */
    method HandleLateGame(s: GameState)
      returns (m: Move, ghost pick: int, ghost costs: seq<int>, ghost paths: seq<seq<int>>,
               ghost best: int, ghost assessed: seq<Assessment>, ghost nearPaths: seq<seq<int>>)
      requires ValidState(s)
      modifies this
      ensures LegalMove(s, m) && LatePick(s, pick, costs, paths)
      ensures pick == -1 ==> unchanged(this) && LongestRouteMove(s, m)
      ensures pick != -1 ==>
                WorkedOnSingle(s, m, pick, old(currentPath), currentObjectiveIndex, currentPath, best, assessed, nearPaths)
    {
      var bestObjective;
      bestObjective, costs, paths := LateGamePick(s);
      pick := bestObjective;
      if bestObjective >= 0 {
        currentObjectiveIndex := bestObjective;
        m, best, assessed, nearPaths := WorkOnSingleObjective(s);
        return;
      }
      ghost var longest;
      m, longest := BuildLongestRoute(s);
      best, assessed, nearPaths := -1, [], [];
    }

    /** workOnObjectives: above 25 cards concentrate on a single objective,
        otherwise analyse all of them.  Called this way, the analysis never
        unblocks, and takes the alternative strategy only when every
        incomplete objective is blocked. */
    method WorkOnObjectives(s: GameState)
      returns (m: Move, ghost outcome: Outcome, ghost infos: seq<ObjectiveInfo>, ghost ranked: seq<RouteAnalysis>, ghost k: int)
      requires ValidState(s)
      modifies this
      ensures LegalMove(s, m)
      ensures ObjectivesMove(s, m, old(currentObjectiveIndex), old(currentPath), currentObjectiveIndex, currentPath)
      ensures outcome == Single <==> TotalCards(s) > 25
      ensures outcome != Single ==> unchanged(this) && AnalysisResult(s, m, outcome, infos, ranked, k) && outcome != Emergency
      ensures outcome == Alternative ==> |infos| > 0 && CountBlocked(infos) == |infos|
    {
      var totalCards := CountCards(s);
      if totalCards > 25 {
        ghost var best, assessed, paths;
        m, best, assessed, paths := WorkOnSingleObjective(s);
        outcome, infos, ranked, k := Single, [], [], -1;
        return;
      }
      m, outcome, infos, ranked, k := AnalyzeAllObjectivesAndAct(s);
    }

    /** simpleStrategy: the decision tree over the game phases, each phase's
        move being one its handler may produce. */
    method SimpleStrategy(s: GameState) returns (m: Option<Move>, ghost phase: Phase)
      requires ValidState(s)
      modifies this
      ensures phase == PhaseOf(s)
      ensures m.Some? ==> LegalMove(s, m.value)
      ensures phase != AntiOpponent ==> m.Some?
      ensures phase != LateGame && phase != Objectives ==> unchanged(this)
      ensures phase == NeedObjectives ==> m == Some(DrawObjectives)
      ensures phase == AntiOpponent ==> AntiMove(s, m)
      ensures phase == Endgame ==> EndgameMove(s, m.value)
      ensures phase == LateGame ==>
                LateMove(s, m.value, old(currentObjectiveIndex), old(currentPath), currentObjectiveIndex, currentPath)
      ensures phase == AllCompleted ==> LongestRouteMove(s, m.value)
      ensures phase == Objectives ==>
                ObjectivesMove(s, m.value, old(currentObjectiveIndex), old(currentPath), currentObjectiveIndex, currentPath)
    {
      phase := PhaseOf(s);
      if |s.objectives| == 0 {
        return Some(DrawObjectives), phase;
      }
      if IsAntiAdversaireMode(s) {
        var quick;
        ghost var assessed, paths, path, netBest, profBest;
        m, quick, assessed, paths, path, netBest, profBest := HandleAntiAdversaire(s);
        return;
      }
      var isEndgame := s.lastTurn || s.wagonsLeft <= 3 || s.opponentWagonsLeft <= 3;
      var isLateGame := s.wagonsLeft <= 8 || s.opponentWagonsLeft <= 8;
      if isEndgame {
        var move;
        ghost var objective, costs, paths;
        move, objective, costs, paths := HandleEndgame(s);
        return Some(move), phase;
      }
      if isLateGame {
        var move;
        ghost var prevIndex, pick, costs, paths, best, assessed, nearPaths := currentObjectiveIndex, -1, [], [], -1, [], [];
        move, pick, costs, paths, best, assessed, nearPaths := HandleLateGame(s);
        if pick != -1 {
          assert WorkedOnSingle(s, move, pick, old(currentPath), currentObjectiveIndex, currentPath, best, assessed, nearPaths);
        }
        return Some(move), phase;
      }
      var completedCount := CountCompleted(s);
      var totalObjectives := |s.objectives|;
      if completedCount == totalObjectives {
        var move;
        ghost var best;
        move, best := BuildLongestRoute(s);
        return Some(move), phase;
      }
      var move;
      ghost var outcome, infos, ranked, k;
      move, outcome, infos, ranked, k := WorkOnObjectives(s);
      m := Some(move);
    }
  }

  /** The objective findNearestCompletionObjective picks, with the path it
      computed, is a target workOnSingleObjective can advance along. */
  lemma NearestIsTarget(s: GameState, best: int, assessed: seq<Assessment>, paths: seq<seq<int>>)
    requires ValidState(s) && AssessedPrefix(s, assessed, paths)
    requires 0 <= best < |paths| && !s.completed[best] && NearEligible(assessed[best]) && 1 <= assessed[best].free
    ensures NearestTarget(s, best, paths[best]) && assessed[best].cost > 0
  {
    assert Assessed(s, s.objectives[best], assessed[best], paths[best]);
  }

  /** Claiming or drawing at the first pair not reported ours is an advance. */
  lemma AdvanceAt(s: GameState, path: seq<int>, j: int)
    requires ValidState(s) && 0 <= j < Edges(path)
    requires forall k :: 0 <= k < j ==> GetRouteOwner(s, path[k], path[k + 1]) == 1
    requires GetRouteOwner(s, path[j], path[j + 1]) == 0
    ensures AdvancesAlong(s, path, ClaimOrDraw(s, path[j], path[j + 1]))
  {
  }

  /** The walk of workOnSingleObjective along a path with no blocked pair and
      a route to claim: skip the pairs reported ours, then claim the first
      unclaimed one, or draw towards it. */
  method AdvanceAlong(s: GameState, path: seq<int>) returns (m: Move)
    requires ValidState(s) && Blocked(s, path) == 0 && Free(s, path) >= 1
    ensures LegalMove(s, m) && AdvancesAlong(s, path, m)
  {
    var i := 0;
    while i < |path| - 1
      invariant 0 <= i <= Edges(path)
      invariant forall k :: 0 <= k < i ==> GetRouteOwner(s, path[k], path[k + 1]) == 1
    {
      var cityA, cityB := path[i], path[i + 1];
      var routeOwner := GetRouteOwner(s, cityA, cityB);
      UnblockedPairsKnown(s, path, i);
      if routeOwner == 0 {
        m := ClaimOrDraw(s, cityA, cityB);
        ClaimOrDrawLegal(s, cityA, cityB);
        AdvanceAt(s, path, i);
        return;
      } else if routeOwner == 1 {
        i := i + 1;
        continue;
      } else {
        assert false;
      }
    }
    CountOwnerNone(s, path, 0, Edges(path));
    assert false;
  }
}
