# Ticket to Ride bot: the decision engine of `strategy.c`

This project models the decision engine of a Ticket to Ride playing bot, in
Dafny. Each turn, the game loop hands the engine a game state: the board's
routes and their owners, the cards in hand, the five face-up cards, the held
objectives and both players' remaining wagons. The engine answers with one
move:

- claim a route, paying with a colour and some locomotives;
- draw a face-up card;
- draw a blind card;
- draw objectives.

When objectives are offered, it also decides which of the three to keep.

The model covers the following parts:

- **Path search.** The cheapest-path search (`findSmartestPath`, a Dijkstra
  search) works over arrays. Routes the player owns cost nothing, unclaimed
  routes cost their length, and opponent routes are impassable. Proved: the
  returned path is a walk of the returned cost between the right cities, and
  no walk is cheaper.
- **Route queries.** `getRouteOwner` and `canTakeRoute` (the payment policy),
  plus the two card-drawing policies.
- **Route selectors.** These are best-so-far scans. Each is proved to return
  the first route of greatest rank, or the first match:
  - `takeHighestValueRoute`
  - `takeAnyGoodRoute`
  - `buildLongestRoute`
  - `buildFromExistingNetwork`
  - `takeAnyProfitableRoute`
  - `emergencyUnblock`
  - `findAlternativePath`
  - `workOnSpecificObjective`
- **Objective choice and tracking.** `simpleChooseObjectives`, with its
  in-place sort; `findNearestCompletionObjective`; `findQuickestObjective`.
- **Dispatch.** `simpleStrategy`'s decision tree over the game phases, and the
  handlers it calls:
  - `handleAntiAdversaire`
  - `handleEndgame`
  - `handleLateGame`
  - `workOnObjectives`
  - `workOnSingleObjective`
  - `analyzeAllObjectivesAndAct`, with its route analysis, bubble sort and
    top-five loop.
  The module statics `currentObjectiveIndex` and `currentPath` become the
  fields of a class `Strategy.Engine`.

Every emitted move is shown to be legal (`Routes.LegalMove`):

- A claim names an unclaimed route joining its cities. It fits in the wagons
  left and is paid by cards actually held.
- A face-up draw names a card that is on the table.

Files:

- `Types.dfy`: the game state, the moves, and what the game data guarantees
  (`ValidState`):
  - city indices are in range;
  - route lengths are 1 to 6;
  - owners are 0 (free), 1 (us) or 2 (the opponent);
  - the hand has ten non-negative counts;
  - there are five face-up slots;
  - one completion flag is given per held objective.
- `Paths.dfy`: `findSmartestPath` and its proof.
- `Routes.dfy`: `getRouteOwner`, `canTakeRoute`, `drawCardsForRoute`,
  `drawCardsForRouteAggressively`.
- `Tally.dfy`: the owner tallies along a path, shared by the objective
  evaluators.
- `Selectors.dfy`: the route selectors.
- `Objectives.dfy`: objective choice, `findNearestCompletionObjective`,
  `findQuickestObjective`.
- `Strategy.dfy`: the phases, the handlers and `Engine`.

Colours are numbered NONE = 0, PURPLE..GREEN = 1..8 and LOCOMOTIVE = 9. A gray
route carries the LOCOMOTIVE colour tag, as in the source.

## Model

| member | source | states |
|---|---|---|
| Paths.FindSmartestPath | MyCode/strategy.c:33-110 | -1 with an empty path exactly when an endpoint is out of range or the end is unreachable avoiding opponent routes; otherwise a path from start to end of at most nbCities cities, a walk over non-opponent routes whose summed cost (0 for owned, length for free) is the returned cost, and no such walk is cheaper; start == end gives cost 0 and [start] |
| Paths.SelectNearest | MyCode/strategy.c:52-62 | the first unvisited city of least tentative distance, -1 when every unvisited city is unreached |
| Paths.RelaxRoutes | MyCode/strategy.c:67-88 | every non-opponent route at the chosen city has been relaxed: each neighbour's distance is at most the city's distance plus the route cost, and only improvements change distance and predecessor |
| Paths.NoWalk | MyCode/strategy.c:62 | when the search stops with the end unvisited and every unvisited city unreached, no walk reaches the end |
| Paths.LowerBound | MyCode/strategy.c:51-89 | once the end is visited, its distance is at most the cost of any walk from the start |
| Routes.GetRouteOwnerSpec | MyCode/strategy.c:952-960 | -1 exactly when no route joins the two cities; otherwise the owner of the first joining route in index order |
| Routes.GetRouteOwnerSymmetric | MyCode/strategy.c:952-960 | the owner seen from a to b is the owner seen from b to a |
| Routes.FirstFreeJoining | MyCode/strategy.c:963-972 | the first unclaimed route joining the cities, -1 when there is none |
| Routes.MostCardsColor | MyCode/strategy.c:986-993 | among plain colours holding at least length cards, the one with most cards, earliest on ties; NONE when there is none |
| Routes.FirstTopUpColor | MyCode/strategy.c:997-1004 | the first plain colour whose cards plus the locomotives reach the length |
| Routes.PaymentSound | MyCode/strategy.c:984-1029 | a payment is found exactly when some colour allowed on the route, with the locomotives, covers the length; it uses at most the locomotives held and enough cards of its colour |
| Routes.ColouredRoutePayment | MyCode/strategy.c:1013-1025 | on a coloured route: own colour without locomotives when enough cards, else own colour topped up with exactly length minus count locomotives, else nothing |
| Routes.GrayRoutePayment | MyCode/strategy.c:984-1012 | on a gray route: the plain colour with most cards (earliest on ties) without locomotives when one covers the length, else the first colour topped up by locomotives; the all-locomotive fallback of the source is never reached, because PURPLE topped up by the same locomotives already covers the length |
| Routes.CanTakeRouteSpec | MyCode/strategy.c:962-1038 | canTakeRoute fails exactly when no unclaimed route joins the cities, the wagons left are fewer than its length, or the hand cannot pay; a success is a legal claim |
| Routes.CanTakeRouteWithinMeans | MyCode/strategy.c:979-1035 | a claim names the requested cities, never spends more wagons than are left, and uses between 0 and the held locomotives |
| Routes.FirstPlainVisible | MyCode/strategy.c:1067-1074 | the first face-up card that is neither empty nor a locomotive, NONE when there is none |
| Routes.DrawAnyPlain | MyCode/strategy.c:1086-1098 | draws a plain face-up card that is on the table, blind exactly when there is none |
| Routes.DrawCardsForRoutePolicy | MyCode/strategy.c:1040-1099 | blind when no route joins the cities; otherwise a face-up locomotive first, then (coloured route) the exact colour, then any plain face-up card, else blind |
| Routes.DrawCardsForRoute | MyCode/strategy.c:1040-1099 | always a face-up draw of a card on the table or a blind draw |
| Routes.DrawAggressivelyPolicy | MyCode/strategy.c:808-874 | the aggressive draw: blind when no route joins the cities; a face-up locomotive first; on a coloured route with no face-up locomotive, its own colour when on display and blind otherwise, never another colour; on a gray route, blind only when every face-up slot is empty |
| Routes.DrawCardsForRouteAggressively | MyCode/strategy.c:808-874 | always a face-up draw of a card on the table or a blind draw |
| Types.CountCards | MyCode/strategy.c:877-880 | the total of the held cards over PURPLE..LOCOMOTIVE, never negative |
| Tally.TallyPath | MyCode/strategy.c:722-734 | the counts of path pairs reported ours, unclaimed and otherwise, summing to the number of pairs |
| Tally.CountOwnerFull | MyCode/strategy.c:722-734 | a full count means every pair reports that owner |
| Tally.OwnedWalk | MyCode/strategy.c:952-960 | pairs whose first joining route is ours form a walk of cost 0 |
| Tally.PositiveCostNeedsRoute | MyCode/strategy.c:33-110 | along a cheapest path of positive cost, some pair is not reported as ours |
| Selectors.ClaimOf | MyCode/strategy.c:369 | the claim canTakeRoute builds for a claimable route names its cities and is legal |
| Selectors.NetworkCities | MyCode/strategy.c:887-909 | a city is listed exactly when it ends a claimed route (with an in-range index) |
| Selectors.ConnectsToNetwork | MyCode/strategy.c:604-614 | true exactly when a claimed route (in range) has an end at either city |
| Selectors.FirstGreatestStep | MyCode/strategy.c:915-941 | one step of a best-so-far scan: the next entry replaces the best exactly when it is a candidate with a strictly greater score, which keeps "first candidate of greatest score among the entries seen" (used for both the length-ranked and the points-per-wagon scans) |
| Selectors.ScoresFollowLength | MyCode/strategy.c:930-933 | both route scores order routes exactly as their lengths do, so the best score is the greatest length |
| Selectors.TakeAnyGoodRoute | MyCode/strategy.c:1101-1125 | the first claimable route of greatest length, claimed; a blind draw when none; always legal |
| Selectors.BestNetworkRoute | MyCode/strategy.c:911-941 | the first claimable network-touching route of greatest score, -1 when none |
| Selectors.BuildLongestRoute | MyCode/strategy.c:876-950 | draws objectives with more than 15 cards and fewer than 5 objectives; otherwise claims the best network route, else falls back to takeAnyGoodRoute; always legal |
| Selectors.BuildFromExistingNetwork | MyCode/strategy.c:1200-1260 | the first claimable network-touching route of greatest value, claimed; no move when none |
| Selectors.TakeAnyProfitableRoute | MyCode/strategy.c:1262-1289 | the first claimable route of length at least 4 and greatest length, claimed; no move when none |
| Selectors.QuotientInSixtieths | MyCode/strategy.c:371-381 | the points-per-wagon quotient equals the integer table over 60 |
| Selectors.PointsPerWagonGrows | MyCode/strategy.c:371-381 | points per wagon never decrease with the length, and grow strictly from length 3 |
| Selectors.TakeHighestValueRoute | MyCode/strategy.c:362-399 | the first claimable route within the wagons left of greatest points per wagon, claimed; blind when none; always legal |
| Selectors.HighestValueIsLongest | MyCode/strategy.c:362-399 | the chosen route is at least as long as any candidate, except that length 1 and length 2 tie |
| Selectors.FirstPassing | MyCode/strategy.c:585-632 | the first route passing the filter, -1 exactly when none does |
| Selectors.EmergencyUnblock | MyCode/strategy.c:583-636 | with the tiers length 6, length 5, touching the network and any route: the first route passing the first tier that some route passes, claimed, no route passing an earlier tier and no earlier route passing this one; blind exactly when no route is claimable; always legal |
| Selectors.ClaimAlongPath | MyCode/strategy.c:1299-1308 | no claim exactly when no pair of the path is unclaimed and takeable; otherwise the claim on the first such pair |
| Selectors.ClaimAlongUnique | MyCode/strategy.c:1299-1308 | the claim scan has one outcome: two results satisfying its description on the same path are equal |
| Selectors.FirstClaimLegal | MyCode/strategy.c:1299-1308 | the scan's claim is canTakeRoute's claim on a pair of the path, hence a legal route claim |
| Selectors.WorkOnSpecificObjective | MyCode/strategy.c:1291-1311 | the path is a cheapest path of the objective, and the move is the claim on its first pair reported unclaimed that canTakeRoute accepts; nothing exactly when no pair qualifies; a claim is legal |
| Selectors.FindAlternativePath | MyCode/strategy.c:656-696 | the hubs 5, 10, 15, 20, 25 are examined in order, with both cheapest legs through each; every hub before the last examined yields nothing, the last yields the move, and all five are examined when there is none |
| Selectors.ExamineHub | MyCode/strategy.c:661-692 | one hub: nothing when it is out of range or an end, or a leg has no path of positive cost; otherwise the first claim along the leg from the start, else along the leg to the end, both legs being cheapest paths |
| Selectors.HubClaimSome | MyCode/strategy.c:661-692 | a hub that yields a claim is in range and neither end, reachable from the start and reaching the end, and the claim is a legal route claim |
| Objectives.UnblockedNeedsClaim | MyCode/strategy.c:713-741 | a cheapest path of positive cost with no blocked pair has an unclaimed pair |
| Objectives.KnownAtMost | MyCode/strategy.c:722-734 | owned plus unclaimed pairs never exceed the pairs |
| Objectives.OtherOwnerLowersCount | MyCode/strategy.c:722-734 | one pair owned by neither side leaves the owned plus unclaimed counts short |
| Objectives.UnblockedPairsKnown | MyCode/strategy.c:786-802 | on a path with no blocked pair, every pair is reported unclaimed or ours |
| Objectives.EastCoastRange | MyCode/strategy.c:135-138 | the east-coast list is exactly the cities 20 to 40 |
| Objectives.FinalScoreSign | MyCode/strategy.c:164-206 | the final score is positive exactly for a path of positive cost and a positive objective score |
| Objectives.FinalScoreFactors | MyCode/strategy.c:184-190 | the east-coast penalty is a factor 0.3 and the network bonus a factor 2 |
| Objectives.EvaluateObjective | MyCode/strategy.c:141-206 | the evaluation of one offer: east-coast flag, cheapest path, routes to claim, network use and final score; positive exactly for a positive cost and score |
| Objectives.Swap | MyCode/strategy.c:213-215 | exchanges two entries and keeps the multiset |
| Objectives.PassFrom | MyCode/strategy.c:211-217 | the array becomes the pass from i over the old contents: entry i compared with each later entry in turn and exchanged when strictly smaller |
| Objectives.PassProperties | MyCode/strategy.c:211-217 | a pass from i leaves the entries before i alone, permutes the entries, and leaves at i an entry scoring at least as much as each entry it was compared with |
| Objectives.ExchangeSortTies | MyCode/strategy.c:210-218 | the exchange sort does not keep ties in offer order: final scores 0.1, 0.1, 0.5 rank the offers 2, 1, 0 |
| Objectives.SortByFinalScore | MyCode/strategy.c:210-218 | the array becomes exactly the exchange sort of its old contents (the pass from 0, then the pass from 1), hence in descending final score and a permutation of the input |
| Objectives.PermutationIndices | MyCode/strategy.c:141-218 | after the sort, every entry is the evaluation of a distinct offer |
| Objectives.RankOffers | MyCode/strategy.c:141-218 | the ranking is exactly the exchange sort of the evaluations made in offer order, so each offer appears once, with its own evaluation, in descending final score |
| Objectives.EvaluateOffers | MyCode/strategy.c:141-206 | entry i of the array is the evaluation of offer i |
| Objectives.SortedRanking | MyCode/strategy.c:141-218 | the evaluations in offer order, rearranged in descending final score, list each offer once with its own evaluation |
| Objectives.KeepOffers | MyCode/strategy.c:220-243 | at most two kept; the best offer is kept when above 0 and the second when above 0.2; off the first turn exactly those; on the first turn topped up to two, lowest offer number first, so an offer left out is followed only by offers kept on their ranking |
| Objectives.SimpleChooseObjectives | MyCode/strategy.c:116-244 | the flags cleared; the ranking is the exchange sort of the evaluations in offer order; the keeping rule on it, with the top-up to two in offer order when no objective is held |
| Objectives.Assess | MyCode/strategy.c:713-734 | the cheapest path and, for a positive cost, its owned, unclaimed and blocked tallies; unblocked means something to claim |
| Objectives.AssessedAppend | MyCode/strategy.c:703-757 | recording the next assessment keeps the per-objective record |
| Objectives.FindNearestCompletionObjective | MyCode/strategy.c:698-760 | the first eligible incomplete objective (positive cost, no blocked pair, at most 4 to claim) with one pair to claim is returned at once; otherwise the scan runs to the end and its pick is the fold of the two update rules over the assessments; -1 exactly when nothing is eligible; the pick comes with its cost and path |
| Objectives.NearestFoldPick | MyCode/strategy.c:703-757 | the scan's pick is -1 exactly when no incomplete objective is eligible; otherwise an eligible one whose routes to claim and routes owned are the scan's other two variables, with at most two routes to claim once a two-route objective was seen |
| Objectives.FindQuickestObjective | MyCode/strategy.c:1165-1198 | the first incomplete objective of positive cost needing fewest wagons (two per unclaimed pair, within the wagons left), -1 exactly when none qualifies |
| Strategy.LastTurnIsAntiOpponent | MyCode/strategy.c:1139-1145 | on the last turn (objectives held) the anti-opponent handler always runs, before the endgame test |
| Strategy.EndgameWhen | MyCode/strategy.c:246-261 | the endgame handler runs exactly with objectives held, anti-opponent mode off and at most 3 wagons left on either side |
| Strategy.CountCompleted | MyCode/strategy.c:267-276 | the count reaches the number of objectives exactly when all are completed |
| Strategy.HandleEndgame | MyCode/strategy.c:283-316 | with the cheapest paths it computed: the claim on the first claimable pair of the first incomplete objective with at most one pair to claim (within the wagons left) that has one, earlier such objectives having none; otherwise exactly the takeHighestValueRoute move; always legal |
| Strategy.AlternativeStrategy | MyCode/strategy.c:638-654 | the findAlternativePath claim for the first incomplete objective that yields one, every earlier incomplete objective yielding none; that claim goes through a hub in range, neither end, reachable from the start and reaching the end; with no claim, exactly the buildLongestRoute move |
| Strategy.HandleAntiAdversaire | MyCode/strategy.c:1147-1163 | with the findQuickestObjective pick, the claim scan along that objective's cheapest path, nothing exactly when it has nothing to claim; with no pick, the first longest network route, else the first longest profitable route, else a blind draw |
| Strategy.UnblockedHasFreePair | MyCode/strategy.c:453-482 | an objective not marked blocked has a cheapest path of positive cost with an unclaimed pair |
| Strategy.CollectObjectives | MyCode/strategy.c:440-484 | every incomplete objective described once, in order, with its path and blocked flag; the blocked count |
| Strategy.FindPair | MyCode/strategy.c:518-528 | true exactly when the cities are consecutive on the path, in either order |
| Strategy.Usefulness | MyCode/strategy.c:513-530 | the number and summed scores of the unblocked objectives whose path uses the route |
| Strategy.AnalyzeRoutes | MyCode/strategy.c:507-547 | one entry per unclaimed useful route, in route order, priority the served value plus 50 per objective when it serves several |
| Strategy.AnalysisServesObjectives | MyCode/strategy.c:507-547 | every analysed route is unclaimed and lies on the path of some unblocked objective |
| Strategy.AnalysisNonEmpty | MyCode/strategy.c:507-580 | one unblocked objective guarantees an analysed route, so the final fallback is never reached |
| Strategy.SortByPriority | MyCode/strategy.c:550-558 | the analysis sorted by descending priority, a permutation of the input |
| Strategy.BubblePass | MyCode/strategy.c:551-557 | one pass sinks the lowest priority of the prefix to its end, keeping the multiset and the sorted suffix |
| Strategy.TryTopRoutes | MyCode/strategy.c:561-568 | the first of the five best-ranked routes that canTakeRoute claims, none when all five fail |
| Strategy.SomeUnblocked | MyCode/strategy.c:486-492 | fewer blocked objectives than objectives means one is not blocked |
| Strategy.AnalyzeAllObjectivesAndAct | MyCode/strategy.c:414-581 | above 40 cards exactly, a move emergencyUnblock may produce; otherwise the incomplete objectives described in order; the alternative strategy when all are blocked or above 30 cards; buildLongestRoute with none; otherwise the move on the ranked routes; never the final fallback; always legal |
| Strategy.ActOnRankedRoutes | MyCode/strategy.c:503-581 | the ranked list is a priority-sorted permutation of the route analysis; the claim on the first of the five best that canTakeRoute accepts; when all five fail, above 25 cards a move alternativeStrategy may produce, else a draw towards the best-ranked route |
| Strategy.MoreEfficientIsQuotient | MyCode/strategy.c:344-345 | the integer efficiency test is the comparison of the two quotients |
| Strategy.LateStep | MyCode/strategy.c:343-350 | one step of the late-game scan keeps its invariant |
| Strategy.LateGamePick | MyCode/strategy.c:318-352 | -1 exactly when no incomplete objective is affordable (three wagons per unclaimed pair) with a positive score; otherwise such a pick that no later affordable objective beats |
| Strategy.AdvanceAlong | MyCode/strategy.c:786-805 | skipping our pairs, claims the first unclaimed pair or draws towards it |
| Strategy.NearestIsTarget | MyCode/strategy.c:763-784 | the nearest objective is incomplete, of positive cost, unblocked, with 1 to 4 unclaimed pairs |
| Strategy.Engine.constructor | MyCode/strategy.c:8-10 | no current objective and an empty path |
| Strategy.Engine.WorkOnSingleObjective | MyCode/strategy.c:762-806 | with no nearest-completion pick, the statics untouched and a buildLongestRoute move; otherwise the statics set to the pick and the cheapest path the search computed for it, and the move claims the first pair not ours (which is unclaimed) or draws towards it; always legal |
| Strategy.Engine.HandleLateGame | MyCode/strategy.c:318-360 | the late-game pick; with none, the statics untouched and the buildLongestRoute move; otherwise workOnSingleObjective run with the pick as the current objective |
| Strategy.Engine.WorkOnObjectives | MyCode/strategy.c:401-412 | workOnSingleObjective exactly above 25 cards; otherwise the statics untouched and a move of analyzeAllObjectivesAndAct, which then never unblocks and takes the alternative strategy only when every incomplete objective is blocked |
| Strategy.Engine.SimpleStrategy | MyCode/strategy.c:246-281 | the phase dispatch: draws objectives when none is held, and otherwise a move the phase's handler may produce (anti-opponent, endgame, late game, longest route, objectives); the statics change only in the late-game and objectives phases; only the anti-opponent handler may produce no move; every move is legal |

## Left out

- I/O, the game loop and the server protocol are not modelled. The engine reads a `GameState` value and returns a `Move`; `MoveData` is this return value.
- `isObjectiveCompleted` (rules module) is not part of this model. Completion of each held objective is the input `completed`.
- Floating point: the objective final score (`float`, with the factors 0.3, 2, 1.5, 1.2, 0.5), the 0.2 threshold, the points-per-wagon value and the late-game efficiency are computed in exact arithmetic. Rounding can differ at exact ties.
- Objectives.FindNearestCompletionObjective: its contract holds for the cheapest paths the search returned, which are ghost results. When several paths are equally cheap, the contract does not say which one `findSmartestPath` picks, and the route counts depend on that choice. The same holds for every member whose contract names the cheapest paths it computed: Objectives.FindQuickestObjective, Strategy.LateGamePick, Selectors.WorkOnSpecificObjective, Selectors.FindAlternativePath, Strategy.HandleEndgame, Strategy.AlternativeStrategy, Strategy.HandleAntiAdversaire and the engine handlers built on them.
- Strategy.MoreEfficient: the quotient of a zero wagon count is taken as infinite for a positive score and as never greater for a zero or negative score (IEEE infinity and not-a-number). Float rounding is ignored.
- Strategy.LateGamePick: states the pick's eligibility and that no later objective beats it. It does not state a global optimum, because the test compares against `highestValue / (lowestCost + 1)`, which is not an order.
- Strategy.Engine.HandleLateGame: the pick is written to `currentObjectiveIndex`, as in the source. `workOnSingleObjective` then overwrites it whenever `findNearestCompletionObjective` finds an objective, so the pick only survives when that search finds none.
- Strategy.Engine.WorkOnSingleObjective: its four recursive calls to itself are modelled as unreachable. They fire when the objective is completed, when there is no path of positive cost, when a pair is blocked, or when the path ends without an unclaimed pair. They are proved impossible for the objective that `findNearestCompletionObjective` returns.
- Strategy.Engine.WorkOnSingleObjective: the path is computed once. `findSmartestPath` is deterministic on the same state, so the path the search obtained is reused rather than recomputed.
- Strategy.AnalyzeAllObjectivesAndAct: the final `workOnSingleObjective` fallback is proved unreachable (`Strategy.AnalysisNonEmpty`) and is not modelled as a call.
- Strategy.SortByPriority: states descending order and permutation. It does not state that the bubble sort keeps equal priorities in route order, so the choice among equal priorities is not pinned down.
- Fixed capacities: `MAX_CITIES`, `MAX_ROUTES` and `MAX_OBJECTIVES` are not modelled. `ValidState` keeps path costs under the 999999 "unreached" sentinel (6 × (nbCities + 1) < 999999), so the path reconstruction never hits its length cap.
- Null-pointer checks (`!state || !path || !pathLength`) are not modelled, as values cannot be null.
- `findShortestPath` is not modelled separately: it only forwards to `findSmartestPath`.
- `decideNextMove` and `chooseObjectivesStrategy` are not modelled separately: they only forward to `simpleStrategy` and `simpleChooseObjectives`.
- When `canTakeRoute` fails it leaves `moveData` untouched, and a later write replaces any earlier one. The model returns only the final move, so the leftover contents of a failed attempt are not represented.
- Network city lists: the source scans a fixed array for membership. The model's list has the same members (`Selectors.NetworkCities`); the order and duplicates are not stated.
- Selectors.NetworkCities: does not model the `MAX_CITIES` guard on the list length. With at most nbCities distinct cities it never triggers.
- Routes.DrawCardsForRouteAggressively: the card counts it reads (`have`, `haveLocomotives`) are never used afterwards, and are not modelled.
- Objectives.Eval: the `efficiency` field of the evaluation is never read after it is set, and is not modelled.
- Strategy.ObjectiveInfo: the `routesOwned` and `routesNeeded` fields are never read after they are set, and are not modelled.
