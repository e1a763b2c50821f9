/** Route queries and the claim / draw policy: which route joins two cities,
    who owns it, whether and how the hand can pay for it, and which face-up
    card to draw when it cannot. */
module Routes {
  import opened Types

  // ---------------------------------------------------------------------------
  // Finding routes

  /** Index of the first route at or after k joining a and b; -1 when none. */
  function FirstJoining(routes: seq<Route>, a: int, b: int, k: nat): (i: int)
    requires k <= |routes|
    ensures i == -1 || k <= i < |routes|
    ensures i == -1 <==> forall j :: k <= j < |routes| ==> !Joins(routes[j], a, b)
    ensures i != -1 ==> Joins(routes[i], a, b) && forall j :: k <= j < i ==> !Joins(routes[j], a, b)
    decreases |routes| - k
  {
    if k == |routes| then -1
    else if Joins(routes[k], a, b) then k
    else FirstJoining(routes, a, b, k + 1)
  }

  /** Index of the first unclaimed route at or after k joining a and b; -1 when none. */
  function FirstFreeJoining(routes: seq<Route>, a: int, b: int, k: nat): (i: int)
    requires k <= |routes|
    ensures i == -1 || k <= i < |routes|
    ensures i == -1 <==> forall j :: k <= j < |routes| ==> !(Joins(routes[j], a, b) && routes[j].owner == 0)
    ensures i != -1 ==> Joins(routes[i], a, b) && routes[i].owner == 0
    ensures i != -1 ==> forall j :: k <= j < i ==> !(Joins(routes[j], a, b) && routes[j].owner == 0)
    decreases |routes| - k
  {
    if k == |routes| then -1
    else if Joins(routes[k], a, b) && routes[k].owner == 0 then k
    else FirstFreeJoining(routes, a, b, k + 1)
  }

  /** getRouteOwner: the owner of the first route joining a and b in index
      order, -1 when no route joins them. */
  function GetRouteOwner(s: GameState, a: int, b: int): (o: int)
    requires ValidState(s)
    ensures -1 <= o <= 2
  {
    var i := FirstJoining(s.routes, a, b, 0);
    if i == -1 then -1
    else
      assert ValidRoute(s.nbCities, s.routes[i]);
      s.routes[i].owner
  }

  /** -1 exactly when no route joins a and b; otherwise the owner of the
      first joining route in index order. */
  lemma GetRouteOwnerSpec(s: GameState, a: int, b: int)
    requires ValidState(s)
    ensures var o := GetRouteOwner(s, a, b);
            && (o == -1 <==> forall j :: 0 <= j < |s.routes| ==> !Joins(s.routes[j], a, b))
            && (o != -1 ==> exists i :: 0 <= i < |s.routes| && Joins(s.routes[i], a, b) && s.routes[i].owner == o
                                       && forall j :: 0 <= j < i ==> !Joins(s.routes[j], a, b))
  {
  }

  lemma {:induction false} FirstJoiningSymmetric(routes: seq<Route>, a: int, b: int, k: nat)
    requires k <= |routes|
    ensures FirstJoining(routes, a, b, k) == FirstJoining(routes, b, a, k)
    decreases |routes| - k
  {
    if k < |routes| && !Joins(routes[k], a, b) {
      FirstJoiningSymmetric(routes, a, b, k + 1);
    }
  }

  /** The owner seen from a to b is the owner seen from b to a. */
  lemma GetRouteOwnerSymmetric(s: GameState, a: int, b: int)
    requires ValidState(s)
    ensures GetRouteOwner(s, a, b) == GetRouteOwner(s, b, a)
  {
    FirstJoiningSymmetric(s.routes, a, b, 0);
  }

  // ---------------------------------------------------------------------------
  // Paying for a route

  /** Among the plain colours below hi holding at least length cards, the one
      holding the most, the earliest on ties; NONE when there is none. */
  function MostCardsColor(hand: seq<int>, length: int, hi: int): (c: int)
    requires |hand| == NumColors && PURPLE <= hi <= GREEN + 1 && length >= 1
    ensures c == NONE <==> forall d :: PURPLE <= d < hi ==> hand[d] < length
    ensures c != NONE ==> PURPLE <= c < hi && hand[c] >= length
    ensures c != NONE ==> forall d :: PURPLE <= d < hi && hand[d] >= length ==> hand[d] <= hand[c]
    ensures c != NONE ==> forall d :: PURPLE <= d < c && hand[d] >= length ==> hand[d] < hand[c]
  {
    if hi == PURPLE then NONE
    else
      var c := MostCardsColor(hand, length, hi - 1);
      if hand[hi - 1] >= length && (c == NONE || hand[hi - 1] > hand[c]) then hi - 1 else c
  }

  /** The first plain colour from c on whose cards and the locomotives
      together reach length; NONE when there is none. */
  function FirstTopUpColor(hand: seq<int>, length: int, c: int): (r: int)
    requires |hand| == NumColors && PURPLE <= c <= GREEN + 1
    ensures r == NONE <==> forall d :: c <= d <= GREEN ==> hand[d] + hand[LOCOMOTIVE] < length
    ensures r != NONE ==> c <= r <= GREEN && hand[r] + hand[LOCOMOTIVE] >= length
    ensures r != NONE ==> forall d :: c <= d < r ==> hand[d] + hand[LOCOMOTIVE] < length
    decreases GREEN + 1 - c
  {
    if c > GREEN then NONE
    else if hand[c] + hand[LOCOMOTIVE] >= length then c
    else FirstTopUpColor(hand, length, c + 1)
  }

  /** The payment chosen for a route of the given length and colour
      (LOCOMOTIVE meaning a gray route): a card colour and the number of
      locomotives, or None when the hand cannot cover it. */
  function Payment(hand: seq<int>, length: int, color: int): (p: Option<(int, int)>)
    requires |hand| == NumColors && 1 <= length && PURPLE <= color <= LOCOMOTIVE
  {
    if color == LOCOMOTIVE then
      var most := MostCardsColor(hand, length, GREEN + 1);
      if most != NONE then Some((most, 0))
      else
        var first := FirstTopUpColor(hand, length, PURPLE);
        if first != NONE then Some((first, length - hand[first]))
        else if hand[LOCOMOTIVE] >= length then Some((LOCOMOTIVE, length))
        else None
    else if hand[color] >= length then Some((color, 0))
    else if hand[color] + hand[LOCOMOTIVE] >= length then Some((color, length - hand[color]))
    else if hand[LOCOMOTIVE] >= length then Some((LOCOMOTIVE, length))
    else None
  }

  /** A payment (c, k) pays length with length - k cards of colour c and k
      locomotives, all held. */
  predicate Covers(hand: seq<int>, length: int, c: int, k: int)
    requires |hand| == NumColors && PURPLE <= c <= LOCOMOTIVE
  {
    && 0 <= k <= length && k <= hand[LOCOMOTIVE]
    && (c == LOCOMOTIVE ==> k == length)
    && hand[c] + k >= length
  }

  /** The hand can pay for the route: some plain colour allowed on the route,
      topped up with locomotives, reaches its length. */
  predicate Affordable(hand: seq<int>, length: int, color: int)
    requires |hand| == NumColors && PURPLE <= color <= LOCOMOTIVE
  {
    if color == LOCOMOTIVE then exists d :: PURPLE <= d <= GREEN && hand[d] + hand[LOCOMOTIVE] >= length
    else hand[color] + hand[LOCOMOTIVE] >= length
  }

  /** The payment exists exactly when the hand can afford the route; it pays
      in full with cards held, in a plain colour allowed on the route: the
      all-locomotive fallbacks of the source are never reached, because the
      colour-plus-locomotive case before them already covers them. */
  lemma PaymentSound(hand: seq<int>, length: int, color: int)
    requires |hand| == NumColors && 1 <= length && PURPLE <= color <= LOCOMOTIVE
    requires forall d :: 0 <= d < NumColors ==> hand[d] >= 0
    ensures Payment(hand, length, color).Some? <==> Affordable(hand, length, color)
    ensures Payment(hand, length, color).Some? ==>
              var (c, k) := Payment(hand, length, color).value;
              && IsPlainColor(c) && (color != LOCOMOTIVE ==> c == color)
              && Covers(hand, length, c, k)
  {
    if color == LOCOMOTIVE && MostCardsColor(hand, length, GREEN + 1) == NONE
       && FirstTopUpColor(hand, length, PURPLE) == NONE {
      assert hand[PURPLE] + hand[LOCOMOTIVE] < length;
    }
  }

  /** Colour policy on a coloured route: its own colour, without locomotives
      when its cards suffice and topped up with exactly the missing number of
      locomotives otherwise. */
  lemma ColouredRoutePayment(hand: seq<int>, length: int, color: int)
    requires |hand| == NumColors && 1 <= length && IsPlainColor(color)
    requires forall d :: 0 <= d < NumColors ==> hand[d] >= 0
    ensures hand[color] >= length ==> Payment(hand, length, color) == Some((color, 0))
    ensures hand[color] < length <= hand[color] + hand[LOCOMOTIVE] ==>
              Payment(hand, length, color) == Some((color, length - hand[color]))
    ensures hand[color] + hand[LOCOMOTIVE] < length ==> Payment(hand, length, color).None?
  {
  }

  /** Colour policy on a gray route: the plain colour with the most cards
      among those covering the length alone (earliest on ties) with no
      locomotive; otherwise the first colour whose cards and the locomotives
      reach the length. */
  lemma GrayRoutePayment(hand: seq<int>, length: int)
    requires |hand| == NumColors && 1 <= length
    requires forall d :: 0 <= d < NumColors ==> hand[d] >= 0
    ensures (exists d :: PURPLE <= d <= GREEN && hand[d] >= length) ==>
              && Payment(hand, length, LOCOMOTIVE).Some?
              && var (c, k) := Payment(hand, length, LOCOMOTIVE).value;
              && k == 0 && IsPlainColor(c) && hand[c] >= length
              && (forall d :: PURPLE <= d <= GREEN && hand[d] >= length ==> hand[d] <= hand[c])
              && (forall d :: PURPLE <= d < c && hand[d] >= length ==> hand[d] < hand[c])
    ensures (forall d :: PURPLE <= d <= GREEN ==> hand[d] < length) && Payment(hand, length, LOCOMOTIVE).Some? ==>
              var (c, k) := Payment(hand, length, LOCOMOTIVE).value;
              && IsPlainColor(c) && k == length - hand[c] && hand[c] + hand[LOCOMOTIVE] >= length
              && (forall d :: PURPLE <= d < c ==> hand[d] + hand[LOCOMOTIVE] < length)
  {
    if exists d :: PURPLE <= d <= GREEN && hand[d] >= length {
      var d :| PURPLE <= d <= GREEN && hand[d] >= length;
      assert MostCardsColor(hand, length, GREEN + 1) != NONE;
    }
    assert hand[PURPLE] >= 0;
  }

  /** canTakeRoute: claim the first unclaimed route joining from and to, when
      the wagons left cover its length and the hand can pay for it. */
  function CanTakeRoute(s: GameState, from: int, to: int): (m: Option<Move>)
    requires ValidState(s)
    ensures m.Some? ==> m.value.ClaimRoute? && m.value.from == from && m.value.to == to
  {
    var i := FirstFreeJoining(s.routes, from, to, 0);
    if i == -1 then None
    else
      var r := s.routes[i];
      if s.wagonsLeft < r.length then None
      else match Payment(s.hand, r.length, r.color)
        case None => None
        case Some((c, k)) => Some(ClaimRoute(from, to, c, k))
  }

  /** What a claim must satisfy: an unclaimed route joins its cities, the
      wagons left cover its length, and the cards named pay for it in a
      plain colour allowed on that route. */
  ghost predicate LegalClaim(s: GameState, m: Move)
    requires ValidState(s) && m.ClaimRoute?
  {
    exists i :: 0 <= i < |s.routes| && Joins(s.routes[i], m.from, m.to) && s.routes[i].owner == 0
      && s.routes[i].length <= s.wagonsLeft
      && IsPlainColor(m.color) && (s.routes[i].color == LOCOMOTIVE || s.routes[i].color == m.color)
      && Covers(s.hand, s.routes[i].length, m.color, m.nbLocomotives)
  }

  /** A move the engine may emit: a legal claim, a draw of a face-up card
      that is on display, a blind draw or an objective draw. */
  ghost predicate LegalMove(s: GameState, m: Move)
    requires ValidState(s)
  {
    match m
      case ClaimRoute(_, _, _, _) => LegalClaim(s, m)
      case DrawCard(c) => c != NONE && c in s.visible
      case DrawBlindCard => true
      case DrawObjectives => true
  }

  /** canTakeRoute fails exactly when no unclaimed route joins the cities,
      the wagons left are short of its length, or the hand cannot pay;
      otherwise its claim is legal. */
  lemma CanTakeRouteSpec(s: GameState, from: int, to: int)
    requires ValidState(s)
    ensures var i := FirstFreeJoining(s.routes, from, to, 0);
            CanTakeRoute(s, from, to).None? <==>
              (|| i == -1
               || s.wagonsLeft < s.routes[i].length
               || !Affordable(s.hand, s.routes[i].length, s.routes[i].color))
    ensures CanTakeRoute(s, from, to).Some? ==> LegalClaim(s, CanTakeRoute(s, from, to).value)
  {
    var i := FirstFreeJoining(s.routes, from, to, 0);
    if i != -1 {
      var r := s.routes[i];
      assert ValidRoute(s.nbCities, r);
      PaymentSound(s.hand, r.length, r.color);
    }
  }

  /** A claim canTakeRoute produces is a legal move. */
  lemma CanTakeRouteLegal(s: GameState, from: int, to: int)
    requires ValidState(s) && CanTakeRoute(s, from, to).Some?
    ensures LegalMove(s, CanTakeRoute(s, from, to).value)
  {
    CanTakeRouteSpec(s, from, to);
  }

  /** A claim never spends more wagons than are left, nor more locomotives
      than are held. */
  lemma CanTakeRouteWithinMeans(s: GameState, from: int, to: int)
    requires ValidState(s) && CanTakeRoute(s, from, to).Some?
    ensures var m := CanTakeRoute(s, from, to).value;
            && 0 <= m.nbLocomotives <= s.hand[LOCOMOTIVE]
            && exists i :: 0 <= i < |s.routes| && Joins(s.routes[i], from, to) && s.routes[i].owner == 0
                           && m.nbLocomotives <= s.routes[i].length <= s.wagonsLeft
  {
    CanTakeRouteSpec(s, from, to);
  }

  // ---------------------------------------------------------------------------
  // Drawing cards for a route

  /** The first face-up card from slot k on that is neither an empty slot nor
      a locomotive; NONE when there is none. */
  function FirstPlainVisible(visible: seq<int>, k: nat): (c: int)
    requires k <= |visible|
    ensures c == NONE <==> forall j :: k <= j < |visible| ==> visible[j] == NONE || visible[j] == LOCOMOTIVE
    ensures c != NONE ==> c != LOCOMOTIVE && exists j :: k <= j < |visible| && visible[j] == c
    decreases |visible| - k
  {
    if k == |visible| then NONE
    else if visible[k] != NONE && visible[k] != LOCOMOTIVE then visible[k]
    else FirstPlainVisible(visible, k + 1)
  }

  /** Draw the first plain face-up card, or blind when there is none. */
  function DrawAnyPlain(s: GameState): (m: Move)
    requires ValidState(s)
    ensures m.DrawCard? || m.DrawBlindCard?
    ensures m.DrawCard? ==> IsPlainColor(m.card) && m.card in s.visible
    ensures m.DrawBlindCard? <==> forall j :: 0 <= j < VisibleSlots ==> s.visible[j] == NONE || s.visible[j] == LOCOMOTIVE
  {
    var c := FirstPlainVisible(s.visible, 0);
    if c != NONE then DrawCard(c) else DrawBlindCard
  }

  /** drawCardsForRoute: the card to draw towards the route joining from and to. */
  function DrawCardsForRoute(s: GameState, from: int, to: int): (m: Move)
    requires ValidState(s)
    ensures m.DrawCard? || m.DrawBlindCard?
    ensures m.DrawCard? ==> m.card != NONE && m.card in s.visible
  {
    var i := FirstJoining(s.routes, from, to, 0);
    var routeColor := if i == -1 then NONE else s.routes[i].color;
    if routeColor == NONE then DrawBlindCard
    else if LOCOMOTIVE in s.visible then DrawCard(LOCOMOTIVE)
    else if routeColor == LOCOMOTIVE then DrawAnyPlain(s)
    else if routeColor in s.visible then DrawCard(routeColor)
    else DrawAnyPlain(s)
  }

  /** Draw priorities for a route: blind when no route joins the cities;
      otherwise a face-up locomotive first, then the route's own colour, then
      any plain face-up card, and blind only when none of those is on
      display. */
  lemma DrawCardsForRoutePolicy(s: GameState, from: int, to: int)
    requires ValidState(s)
    ensures var i := FirstJoining(s.routes, from, to, 0);
            var m := DrawCardsForRoute(s, from, to);
            && (i == -1 ==> m == DrawBlindCard)
            && (i != -1 && LOCOMOTIVE in s.visible ==> m == DrawCard(LOCOMOTIVE))
            && (i != -1 && LOCOMOTIVE !in s.visible && s.routes[i].color in s.visible ==> m == DrawCard(s.routes[i].color))
            && (i != -1 && m == DrawBlindCard ==> forall j :: 0 <= j < VisibleSlots ==> s.visible[j] == NONE)
  {
    var i := FirstJoining(s.routes, from, to, 0);
    if i != -1 {
      assert ValidRoute(s.nbCities, s.routes[i]);
      if DrawCardsForRoute(s, from, to) == DrawBlindCard {
        forall j | 0 <= j < VisibleSlots
          ensures s.visible[j] == NONE
        {
          assert s.visible[j] != LOCOMOTIVE;
        }
      }
    }
  }

  /** drawCardsForRouteAggressively: like drawCardsForRoute, except that for a
      coloured route it takes no card of another colour. */
  function DrawCardsForRouteAggressively(s: GameState, from: int, to: int): (m: Move)
    requires ValidState(s)
    ensures m.DrawCard? || m.DrawBlindCard?
    ensures m.DrawCard? ==> m.card != NONE && m.card in s.visible
  {
    var i := FirstJoining(s.routes, from, to, 0);
    if i == -1 then DrawBlindCard
    else
      var routeColor := s.routes[i].color;
      if LOCOMOTIVE in s.visible then DrawCard(LOCOMOTIVE)
      else if routeColor != LOCOMOTIVE && routeColor in s.visible then DrawCard(routeColor)
      else if routeColor == LOCOMOTIVE then DrawAnyPlain(s)
      else DrawBlindCard
  }

  /** The aggressive draw picks a locomotive first, then only the route's own
      colour on a coloured route (blind when that colour is not on display),
      any plain card on a gray route. */
  lemma DrawAggressivelyPolicy(s: GameState, from: int, to: int)
    requires ValidState(s)
    ensures var i := FirstJoining(s.routes, from, to, 0);
            var m := DrawCardsForRouteAggressively(s, from, to);
            && (i == -1 ==> m == DrawBlindCard)
            && (i != -1 && LOCOMOTIVE in s.visible ==> m == DrawCard(LOCOMOTIVE))
            && (i != -1 && s.routes[i].color != LOCOMOTIVE && m.DrawCard? ==>
                  m.card == LOCOMOTIVE || m.card == s.routes[i].color)
            && (i != -1 && s.routes[i].color != LOCOMOTIVE && LOCOMOTIVE !in s.visible ==>
                  m == if s.routes[i].color in s.visible then DrawCard(s.routes[i].color) else DrawBlindCard)
            && (i != -1 && s.routes[i].color == LOCOMOTIVE && m == DrawBlindCard ==>
                  forall j :: 0 <= j < VisibleSlots ==> s.visible[j] == NONE)
  {
    var i := FirstJoining(s.routes, from, to, 0);
    if i != -1 && s.routes[i].color == LOCOMOTIVE && DrawCardsForRouteAggressively(s, from, to) == DrawBlindCard {
      forall j | 0 <= j < VisibleSlots
        ensures s.visible[j] == NONE
      {
        assert s.visible[j] != LOCOMOTIVE;
      }
    }
  }
}
