/** Game state as seen by the decision engine: routes, hand, visible cards,
    held objectives and the resources of both players.  Everything here is a
    value; the engine never changes it during one decision call. */
module Types {

  datatype Option<+T> = None | Some(value: T)

  // Card colours.  PURPLE..GREEN are the eight plain colours, LOCOMOTIVE is the
  // wildcard and also the colour tag of gray (any-colour) routes.
  const NONE: int := 0
  const PURPLE: int := 1
  const GREEN: int := 8
  const LOCOMOTIVE: int := 9
  const NumColors: int := 10
  const VisibleSlots: int := 5

  /** The "unreached" distance of the path search. */
  const Unreached: int := 999999
  /** The longest route of the board. */
  const MaxRouteLength: int := 6

  predicate IsPlainColor(c: int) { PURPLE <= c <= GREEN }

  /** owner: 0 unclaimed, 1 the engine's player, 2 the opponent. */
  datatype Route = Route(from: int, to: int, length: int, color: int, owner: int)

  datatype Objective = Objective(from: int, to: int, score: int)

  datatype GameState = GameState(
    nbCities: int,
    routes: seq<Route>,
    hand: seq<int>,           // cards held, indexed by colour
    visible: seq<int>,        // the face-up cards; NONE marks an empty slot
    objectives: seq<Objective>,
    completed: seq<bool>,     // completion of each held objective, decided by the rules module
    wagonsLeft: int,
    opponentWagonsLeft: int,
    lastTurn: bool,
    nbCards: int,             // aggregate held-card count reported by the server
    claimedRoutes: seq<int>)  // indices into routes of the routes the player claimed

  /** The one action produced by a decision call. */
  datatype Move =
    | ClaimRoute(from: int, to: int, color: int, nbLocomotives: int)
    | DrawCard(card: int)
    | DrawBlindCard
    | DrawObjectives

  predicate ValidRoute(nbCities: int, r: Route) {
    && 0 <= r.from < nbCities && 0 <= r.to < nbCities
    && 1 <= r.length <= MaxRouteLength
    && 0 <= r.owner <= 2
    && PURPLE <= r.color <= LOCOMOTIVE
  }

  /** What the game data guarantees about every state handed to the engine. */
  predicate ValidState(s: GameState) {
    && 0 <= s.nbCities
    && MaxRouteLength * (s.nbCities + 1) < Unreached
    && (forall i :: 0 <= i < |s.routes| ==> ValidRoute(s.nbCities, s.routes[i]))
    && |s.hand| == NumColors
    && (forall c :: 0 <= c < NumColors ==> s.hand[c] >= 0)
    && |s.visible| == VisibleSlots
    && (forall k :: 0 <= k < VisibleSlots ==> NONE <= s.visible[k] <= LOCOMOTIVE)
    && |s.completed| == |s.objectives|
  }

  predicate Joins(r: Route, a: int, b: int) {
    (r.from == a && r.to == b) || (r.from == b && r.to == a)
  }

  /** Wagons still to pay to use a route: nothing for one already owned. */
  function EdgeCost(r: Route): (c: int)
    ensures r.owner == 1 ==> c == 0
    ensures r.owner != 1 ==> c == r.length
  {
    if r.owner == 1 then 0 else r.length
  }

  /** Sum of hand[lo..hi). */
  function CardsBetween(hand: seq<int>, lo: int, hi: int): int
    requires 0 <= lo <= hi <= |hand|
  {
    if lo == hi then 0 else CardsBetween(hand, lo, hi - 1) + hand[hi - 1]
  }

  /** Cards held over PURPLE..LOCOMOTIVE. */
  function TotalCards(s: GameState): int
    requires ValidState(s)
  {
    CardsBetween(s.hand, PURPLE, LOCOMOTIVE + 1)
  }

  /** Summation loop shared by workOnObjectives, analyzeAllObjectivesAndAct
      and buildLongestRoute. */
  method CountCards(s: GameState) returns (total: int)
    requires ValidState(s)
    ensures total == TotalCards(s)
    ensures total >= 0
  {
    total := 0;
    for c := PURPLE to LOCOMOTIVE + 1
      invariant total == CardsBetween(s.hand, PURPLE, c)
      invariant total >= 0
    {
      total := total + s.hand[c];
    }
  }
}
