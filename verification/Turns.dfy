/** The simulation turn by turn. */
module Turns {
  // In the first phase every landed plane unloads, in whatever order the map serves them; in the second phase a
  // landed plane departs or retires and a flying plane gets one unit nearer. What holds over whole runs is proved
  // for every order of service and every arrangement of the destination lists.

  import opened Delivery
  import opened Answers

  const MAX_TURNS: nat := 70000

  datatype Plane = Plane(city: nat, distance: int, load: Stocks, done: bool)
  datatype World = World(cities: seq<Stocks>, planes: seq<Plane>)

  predicate Landed(pl: Plane) {
    !pl.done && pl.distance == 0
  }

  // ---------------------------------------------------------------- one turn

  /** Every plane is in a city that can take what it carries without reading past an empty list. */
  ghost predicate Ready(cities: seq<Stocks>, planes: seq<Plane>) {
    forall p | 0 <= p < |planes| ::
      planes[p].city < |cities| && (cities[planes[p].city] != [] || planes[p].load == [])
  }

  /** The map serves one unload request, and the plane takes over the amounts it gets back. */
  ghost function UnloadAt(w: World, p: nat): (r: World)
    requires Ready(w.cities, w.planes) && p < |w.planes|
    ensures |r.cities| == |w.cities| && |r.planes| == |w.planes|
    ensures Ready(r.cities, r.planes)
  {
    var pl := w.planes[p];
    var (city, load) := Unload(w.cities[pl.city], pl.load);
    World(w.cities[pl.city := city], w.planes[p := pl.(load := load, done := Spent(load))])
  }

  ghost predicate InRange(order: seq<nat>, n: nat) {
    forall i | 0 <= i < |order| :: order[i] < n
  }

  ghost function UnloadAll(w: World, order: seq<nat>): (r: World)
    requires Ready(w.cities, w.planes) && InRange(order, |w.planes|)
    ensures |r.cities| == |w.cities| && |r.planes| == |w.planes|
    ensures Ready(r.cities, r.planes)
    decreases |order|
  {
    if order == [] then w else UnloadAll(UnloadAt(w, order[0]), order[1..])
  }

  ghost predicate NoRepeats(order: seq<nat>) {
    forall i, j | 0 <= i < j < |order| :: order[i] != order[j]
  }

  /** The order of service: every landed plane once. */
  ghost predicate IsOrder(w: World, order: seq<nat>) {
    && NoRepeats(order)
    && (forall i | 0 <= i < |order| :: order[i] < |w.planes| && Landed(w.planes[order[i]]))
    && (forall p | 0 <= p < |w.planes| && Landed(w.planes[p]) :: p in order)
  }

  /** A plane with no destination retires; otherwise it leaves for the first one. */
  function Choose(pl: Plane, l: seq<CityInfo>): Plane {
    if l == [] then pl.(done := true) else pl.(city := l[0].city, distance := l[0].distance)
  }

  ghost predicate Decide(dist: seq<seq<int>>, cities: seq<Stocks>, before: Plane, after: Plane)
    requires Square(dist, |cities|) && before.city < |cities|
  {
    if before.done then after == before
    else if before.distance != 0 then after == before.(distance := before.distance - 1)
    else exists l :: Answer(cities, dist, before.city, before.load, l) && after == Choose(before, l)
  }

  ghost predicate Turn(dist: seq<seq<int>>, w: World, order: seq<nat>, w': World)
  {
    && Square(dist, |w.cities|) && Ready(w.cities, w.planes) && IsOrder(w, order)
    && var m := UnloadAll(w, order);
       && w'.cities == m.cities && |w'.planes| == |m.planes|
       && forall p | 0 <= p < |m.planes| :: Decide(dist, m.cities, m.planes[p], w'.planes[p])
  }

  // ---------------------------------------------------------------- runs

  ghost predicate CityMet(city: Stocks) {
    forall i | 0 <= i < |city| :: city[i].amount == 0
  }

  ghost predicate AllMet(cities: seq<Stocks>) {
    forall c | 0 <= c < |cities| :: CityMet(cities[c])
  }

  /** The simulation goes on while some demand is left and the turn limit is not reached. */
  ghost predicate Continues(cities: seq<Stocks>, turn: nat) {
    turn < MAX_TURNS && !AllMet(cities)
  }

  /** What that means in amounts, with the limit written out. */
  lemma ContinuesIff(cities: seq<Stocks>, turn: nat)
    ensures Continues(cities, turn) <==>
            turn < 70000 && exists c, i :: 0 <= c < |cities| && 0 <= i < |cities[c]| && cities[c][i].amount != 0
  {
    if !AllMet(cities) {
      var c :| 0 <= c < |cities| && !CityMet(cities[c]);
    }
  }

  /** ws are the states between turns and os the orders of service of the turns between them. */
  ghost predicate Run(dist: seq<seq<int>>, ws: seq<World>, os: seq<seq<nat>>) {
    && |ws| == |os| + 1
    && (forall i | 0 <= i < |os| :: Continues(ws[i].cities, i))
    && (forall i {:trigger os[i]} | 0 <= i < |os| :: Turn(dist, ws[i], os[i], ws[i + 1]))
  }

  ghost predicate Valid(w: World) {
    && Ready(w.cities, w.planes)
    && (forall c | 0 <= c < |w.cities| :: NonNegative(w.cities[c]) && UniqueProducts(w.cities[c]))
    && (forall p | 0 <= p < |w.planes| :: NonNegative(w.planes[p].load) && w.planes[p].distance >= 0)
  }

  /** Routes between n cities, none longer than far. */
  ghost predicate Routes(dist: seq<seq<int>>, n: nat, far: nat) {
    && Square(dist, n)
    && forall i, j | 0 <= i < n && 0 <= j < n :: 0 <= dist[i][j] <= far
  }

  /** Where a simulation starts: every plane in its city, none retired. */
  ghost predicate Initial(w: World) {
    Valid(w) && forall p | 0 <= p < |w.planes| :: Landed(w.planes[p])
  }

  // ---------------------------------------------------------------- what only goes one way

  ghost predicate CitiesLeft(after: seq<Stocks>, before: seq<Stocks>) {
    && |after| == |before|
    && forall c | 0 <= c < |before| :: LeftOf(after[c], before[c])
  }

  ghost predicate PlanesLeft(after: seq<Plane>, before: seq<Plane>) {
    && |after| == |before|
    && (forall p | 0 <= p < |before| :: LeftOf(after[p].load, before[p].load))
    && (forall p | 0 <= p < |before| && before[p].done :: after[p] == before[p])
  }

  /** Demands and loads list the same products and only shrink, and a retired plane never changes again. */
  ghost predicate Later(after: World, before: World) {
    CitiesLeft(after.cities, before.cities) && PlanesLeft(after.planes, before.planes)
  }

  lemma LaterReflexive(w: World)
    requires Valid(w)
    ensures Later(w, w)
  {
  }

  lemma LaterTransitive(w2: World, w1: World, w0: World)
    requires Later(w2, w1) && Later(w1, w0)
    ensures Later(w2, w0)
  {
  }

  // ---------------------------------------------------------------- sums

  /** What to add up: everything, or one product. */
  datatype Measure = Everything | Only(product: int)

  ghost function Weigh(s: Stocks, m: Measure): int {
    match m
    case Everything => Total(s)
    case Only(q) => AmountOf(s, q)
  }

  ghost function Sum(lists: seq<Stocks>, m: Measure): int {
    if lists == [] then 0 else Weigh(lists[0], m) + Sum(lists[1..], m)
  }

  ghost function Loads(planes: seq<Plane>): seq<Stocks> {
    seq(|planes|, p requires 0 <= p < |planes| => planes[p].load)
  }

  ghost function Demand(w: World, m: Measure): int { Sum(w.cities, m) }
  ghost function Supply(w: World, m: Measure): int { Sum(Loads(w.planes), m) }
  ghost function Balance(w: World, m: Measure): int { Demand(w, m) - Supply(w, m) }

  lemma {:induction false} SumUpdate(lists: seq<Stocks>, i: nat, x: Stocks, m: Measure)
    requires i < |lists|
    ensures Sum(lists[i := x], m) == Sum(lists, m) - Weigh(lists[i], m) + Weigh(x, m)
  {
    if i == 0 {
      assert lists[i := x][1..] == lists[1..];
    } else {
      assert lists[i := x][1..] == lists[1..][i - 1 := x];
      SumUpdate(lists[1..], i - 1, x, m);
    }
  }

  lemma {:induction false} SumMonotone(after: seq<Stocks>, before: seq<Stocks>, m: Measure)
    requires CitiesLeft(after, before)
    ensures 0 <= Sum(after, m) <= Sum(before, m)
    ensures m.Everything? && Sum(after, m) == Sum(before, m) ==> after == before
  {
    if before != [] {
      SumMonotone(after[1..], before[1..], m);
      TotalMonotone(after[0], before[0]);
      if m.Only? { AmountOfMonotone(after[0], before[0], m.product); }
      assert after == [after[0]] + after[1..] && before == [before[0]] + before[1..];
    }
  }

  lemma {:induction false} AmountWithin(s: Stocks, i: nat)
    requires NonNegative(s) && i < |s|
    ensures AmountOf(s, s[i].product) >= s[i].amount
  {
    if i > 0 {
      AmountWithin(s[1..], i - 1);
    } else {
      AmountOfMonotone(s[1..], s[1..], s[0].product);
    }
  }

  /** A list contributes no more than the whole. */
  lemma {:induction false} SumWithin(lists: seq<Stocks>, i: nat, m: Measure)
    requires forall l | 0 <= l < |lists| :: NonNegative(lists[l])
    requires i < |lists|
    ensures Sum(lists, m) >= Weigh(lists[i], m) >= 0
  {
    SumMonotone(lists[1..], lists[1..], m);
    TotalMonotone(lists[0], lists[0]);
    if m.Only? { AmountOfMonotone(lists[0], lists[0], m.product); }
    if i > 0 {
      SumWithin(lists[1..], i - 1, m);
    }
  }

  /** A positive sum of one product is positive somewhere. */
  lemma {:induction false} PositiveSomewhere(lists: seq<Stocks>, q: int) returns (l: nat, i: nat)
    requires forall l | 0 <= l < |lists| :: NonNegative(lists[l])
    requires Sum(lists, Only(q)) > 0
    ensures l < |lists| && i < |lists[l]| && lists[l][i].product == q && lists[l][i].amount > 0
  {
    if AmountOf(lists[0], q) > 0 {
      l := 0;
      i := PositiveEntry(lists[0], q);
    } else {
      l, i := PositiveSomewhere(lists[1..], q);
      l := l + 1;
    }
  }

  lemma {:induction false} PositiveEntry(s: Stocks, q: int) returns (i: nat)
    requires AmountOf(s, q) > 0
    ensures i < |s| && s[i].product == q && s[i].amount > 0
  {
    if s[0].product == q && s[0].amount > 0 {
      i := 0;
    } else {
      i := PositiveEntry(s[1..], q);
      i := i + 1;
    }
  }

  // ---------------------------------------------------------------- the first phase

  /** What one unload keeps: amounts stay non-negative and only shrink, and demand minus supply is the
      same; for one product it is the same when the exchange is exact. */
  lemma UnloadAtKeeps(w: World, p: nat, m: Measure)
    requires Valid(w) && p < |w.planes| && !w.planes[p].done
    ensures var r := UnloadAt(w, p); Valid(r) && Later(r, w)
    ensures m.Everything? || Exact(w.cities[w.planes[p].city], w.planes[p].load)
            ==> Balance(UnloadAt(w, p), m) == Balance(w, m)
  {
    UnloadConserves(w.cities[w.planes[p].city], w.planes[p].load);
    UnloadAtBalance(w, p, m);
    if m.Only? && Exact(w.cities[w.planes[p].city], w.planes[p].load) {
      assert ExactFor(w.cities[w.planes[p].city], w.planes[p].load, m.product);
    }
  }

  /** The total balance is kept by every unload, that of a product exactly when the unload is exact for it. */
  lemma UnloadAtBalance(w: World, p: nat, m: Measure)
    requires Valid(w) && p < |w.planes|
    ensures m.Everything? ==> Balance(UnloadAt(w, p), m) == Balance(w, m)
    ensures m.Only? ==>
              (Balance(UnloadAt(w, p), m) == Balance(w, m)
               <==> ExactFor(w.cities[w.planes[p].city], w.planes[p].load, m.product))
  {
    var r := UnloadAt(w, p);
    var pl := w.planes[p];
    var (city, load) := Unload(w.cities[pl.city], pl.load);
    UnloadConserves(w.cities[pl.city], pl.load);
    SumUpdate(w.cities, pl.city, city, m);
    SumUpdate(Loads(w.planes), p, load, m);
    assert Loads(r.planes) == Loads(w.planes)[p := load];
  }

  /** Every unload of the phase is exact at the moment it is served. */
  ghost predicate AllExact(w: World, order: seq<nat>)
    requires Ready(w.cities, w.planes) && InRange(order, |w.planes|)
    decreases |order|
  {
    order != [] ==>
      && Exact(w.cities[w.planes[order[0]].city], w.planes[order[0]].load)
      && AllExact(UnloadAt(w, order[0]), order[1..])
  }

  ghost predicate Serves(w: World, order: seq<nat>) {
    NoRepeats(order) && forall i | 0 <= i < |order| :: order[i] < |w.planes| && !w.planes[order[i]].done
  }

  lemma ServesRest(w: World, order: seq<nat>)
    requires Valid(w) && Serves(w, order) && order != []
    ensures Serves(UnloadAt(w, order[0]), order[1..])
  {
  }

  lemma {:induction false} UnloadAllKeeps(w: World, order: seq<nat>, m: Measure)
    requires Valid(w) && Serves(w, order)
    ensures var r := UnloadAll(w, order); Valid(r) && Later(r, w)
    ensures m.Everything? || AllExact(w, order)
            ==> Balance(UnloadAll(w, order), m) == Balance(w, m)
    decreases |order|
  {
    if order == [] {
    } else {
      var w1 := UnloadAt(w, order[0]);
      UnloadAtKeeps(w, order[0], m);
      ServesRest(w, order);
      UnloadAllKeeps(w1, order[1..], m);
      LaterTransitive(UnloadAll(w, order), w1, w);
    }
  }

  /** Unloading moves no plane, and leaves a plane that is not served as it is. */
  lemma {:induction false} UnloadAllFrame(w: World, order: seq<nat>, p: nat)
    requires Ready(w.cities, w.planes) && InRange(order, |w.planes|) && p < |w.planes|
    ensures var pl := UnloadAll(w, order).planes[p];
            && pl.city == w.planes[p].city && pl.distance == w.planes[p].distance
            && (p !in order ==> pl == w.planes[p])
    decreases |order|
  {
    if order != [] {
      UnloadAllFrame(UnloadAt(w, order[0]), order[1..], p);
    }
  }

  /** At the end of the phase the city a served plane is in has no use for what it still carries. */
  lemma {:induction false} UnloadAllNoUse(w: World, order: seq<nat>, p: nat)
    requires Valid(w) && Serves(w, order) && p in order
    ensures var r := UnloadAll(w, order); Score(r.cities[w.planes[p].city], r.planes[p].load) == 0
    decreases |order|
  {
    var w1 := UnloadAt(w, order[0]);
    UnloadAtKeeps(w, order[0], Everything);
    ServesRest(w, order);
    UnloadAllKeeps(w1, order[1..], Everything);
    if order[0] == p {
      UnloadLeavesNoUse(w.cities[w.planes[p].city], w.planes[p].load);
      UnloadAllFrame(w1, order[1..], p);
      ScoreMonotone(UnloadAll(w1, order[1..]).cities[w.planes[p].city], w1.cities[w.planes[p].city], w1.planes[p].load);
    } else {
      UnloadAllNoUse(w1, order[1..], p);
    }
  }

  /** If a served plane is where its score is positive, the phase delivers something. */
  lemma {:induction false} UnloadAllDelivers(w: World, order: seq<nat>, p: nat)
    requires Valid(w) && Serves(w, order) && p in order
    requires Score(w.cities[w.planes[p].city], w.planes[p].load) > 0
    ensures Demand(UnloadAll(w, order), Everything) < Demand(w, Everything)
    decreases |order|
  {
    var q := order[0];
    var w1 := UnloadAt(w, q);
    UnloadAtKeeps(w, q, Everything);
    ServesRest(w, order);
    UnloadAllKeeps(w1, order[1..], Everything);
    SumMonotone(UnloadAll(w1, order[1..]).cities, w1.cities, Everything);
    SumMonotone(w1.cities, w.cities, Everything);
    if w1.cities == w.cities {
      if q == p {
        PositiveScoreDelivers(w.cities[w.planes[p].city], w.planes[p].load);
      } else {
        UnloadAllDelivers(w1, order[1..], p);
      }
    }
  }

  // ---------------------------------------------------------------- the second phase

  /** What a landed plane does: retire when no city can use its load, or leave for one that can. */
  lemma DecideMeaning(dist: seq<seq<int>>, cities: seq<Stocks>, before: Plane, after: Plane)
    requires Square(dist, |cities|) && before.city < |cities| && Decide(dist, cities, before, after)
    requires Landed(before)
    ensures after.load == before.load
    ensures after.done <==> forall c | 0 <= c < |cities| :: Score(cities[c], before.load) == 0
    ensures !after.done ==>
              && after.city < |cities| && Score(cities[after.city], before.load) != 0
              && after.distance == dist[after.city][before.city]
    ensures !after.done ==> NearestOfTen(cities, dist, before.city, before.load, after.city, after.distance)
    ensures !after.done && |UsefulCities(cities, before.load)| <= 10 ==>
              forall c: nat | c < |cities| && Score(cities[c], before.load) != 0 ::
                after.distance <= dist[c][before.city]
    ensures after.done ==> after == before.(done := true)
  {
    var l :| Answer(cities, dist, before.city, before.load, l) && after == Choose(before, l);
    AnswerMeaning(cities, dist, before.city, before.load, l);
    AnswerIsTenBest(cities, dist, before.city, before.load, l);
    if !after.done {
      NearestMeaning(cities, dist, before.city, before.load, after.city, after.distance);
    }
  }

  lemma DecideKeeps(dist: seq<seq<int>>, cities: seq<Stocks>, before: Plane, after: Plane, far: nat)
    requires Routes(dist, |cities|, far)
    requires before.city < |cities| && (cities[before.city] != [] || before.load == [])
    requires Decide(dist, cities, before, after) && before.distance >= 0
    ensures after.load == before.load && after.distance >= 0 && (before.done ==> after == before)
    ensures after.city < |cities| && (cities[after.city] != [] || after.load == [])
    ensures before.distance <= far ==> after.distance <= far
  {
    if Landed(before) {
      DecideMeaning(dist, cities, before, after);
    }
  }

  /** A whole turn keeps the state valid, only lowers amounts, and keeps demand minus supply: always in
      total, and product by product when every unload was exact. */
  lemma TurnKeeps(dist: seq<seq<int>>, w: World, order: seq<nat>, w': World, far: nat, m: Measure)
    requires Valid(w) && Routes(dist, |w.cities|, far) && Turn(dist, w, order, w')
    ensures Valid(w') && Later(w', w)
    ensures m.Everything? || AllExact(w, order)
            ==> Balance(w', m) == Balance(w, m)
    ensures (forall p | 0 <= p < |w.planes| :: w.planes[p].distance <= far)
            ==> forall p | 0 <= p < |w'.planes| :: w'.planes[p].distance <= far
  {
    var mid := UnloadAll(w, order);
    UnloadAllKeeps(w, order, m);
    forall p | 0 <= p < |w.planes|
      ensures w'.planes[p].load == mid.planes[p].load && w'.planes[p].distance >= 0
      ensures w'.planes[p].city < |w.cities| && (w'.cities[w'.planes[p].city] != [] || w'.planes[p].load == [])
      ensures mid.planes[p].done ==> w'.planes[p] == mid.planes[p]
      ensures w.planes[p].distance <= far ==> w'.planes[p].distance <= far
    {
      UnloadAllFrame(w, order, p);
      DecideKeeps(dist, mid.cities, mid.planes[p], w'.planes[p], far);
    }
    assert Loads(w'.planes) == Loads(mid.planes);
  }

  // ---------------------------------------------------------------- conservation over runs

  /** A run from a valid state on a map whose routes are no longer than far. */
  ghost predicate GoodRun(dist: seq<seq<int>>, ws: seq<World>, os: seq<seq<nat>>, far: nat) {
    && Run(dist, ws, os) && Valid(ws[0]) && Routes(dist, |ws[0].cities|, far)
    && forall p | 0 <= p < |ws[0].planes| :: ws[0].planes[p].distance <= far
  }

  lemma {:induction false} BoundaryIsValid(dist: seq<seq<int>>, ws: seq<World>, os: seq<seq<nat>>, far: nat, j: nat)
    requires GoodRun(dist, ws, os, far) && j < |ws|
    ensures Valid(ws[j]) && |ws[j].cities| == |ws[0].cities|
    ensures forall p | 0 <= p < |ws[j].planes| :: ws[j].planes[p].distance <= far
    decreases j
  {
    if j > 0 {
      BoundaryIsValid(dist, ws, os, far, j - 1);
      assert Turn(dist, ws[j - 1], os[j - 1], ws[j]);
      TurnKeeps(dist, ws[j - 1], os[j - 1], ws[j], far, Everything);
    }
  }

  lemma OneTurn(dist: seq<seq<int>>, ws: seq<World>, os: seq<seq<nat>>, far: nat, i: nat)
    requires GoodRun(dist, ws, os, far) && i + 1 < |ws|
    ensures Later(ws[i + 1], ws[i])
    ensures Balance(ws[i + 1], Everything) == Balance(ws[i], Everything)
  {
    BoundaryIsValid(dist, ws, os, far, i);
    assert Turn(dist, ws[i], os[i], ws[i + 1]);
    TurnKeeps(dist, ws[i], os[i], ws[i + 1], far, Everything);
  }

  lemma {:induction false} BoundariesLater(dist: seq<seq<int>>, ws: seq<World>, os: seq<seq<nat>>, far: nat, i: nat,
                                           j: nat)
    requires GoodRun(dist, ws, os, far) && i <= j < |ws|
    ensures Later(ws[j], ws[i])
    decreases j
  {
    if i == j {
      BoundaryIsValid(dist, ws, os, far, j);
      LaterReflexive(ws[j]);
    } else {
      var before, middle, after := ws[i], ws[j - 1], ws[j];
      BoundariesLater(dist, ws, os, far, i, j - 1);
      OneTurn(dist, ws, os, far, j - 1);
      LaterTransitive(after, middle, before);
    }
  }

  lemma {:induction false} BoundariesBalance(dist: seq<seq<int>>, ws: seq<World>, os: seq<seq<nat>>, far: nat, i: nat,
                                             j: nat)
    requires GoodRun(dist, ws, os, far) && i <= j < |ws|
    ensures Balance(ws[j], Everything) == Balance(ws[i], Everything)
    decreases j
  {
    if i < j {
      BoundariesBalance(dist, ws, os, far, i, j - 1);
      OneTurn(dist, ws, os, far, j - 1);
    }
  }

  /** At every turn boundary of a run amounts are non-negative and no larger than at any earlier one,
      and total demand minus total supply is what it was at the start. */
  lemma Conservation(dist: seq<seq<int>>, ws: seq<World>, os: seq<seq<nat>>, far: nat, i: nat, j: nat)
    requires GoodRun(dist, ws, os, far) && i <= j < |ws|
    ensures Valid(ws[j]) && Later(ws[j], ws[i])
    ensures Balance(ws[j], Everything) == Balance(ws[i], Everything)
    ensures 0 <= Demand(ws[j], Everything) <= Demand(ws[i], Everything)
    ensures |ws[j].cities| == |ws[0].cities|
    ensures forall p | 0 <= p < |ws[j].planes| :: ws[j].planes[p].distance <= far
  {
    BoundaryIsValid(dist, ws, os, far, j);
    BoundariesLater(dist, ws, os, far, i, j);
    BoundariesBalance(dist, ws, os, far, i, j);
    SumMonotone(ws[j].cities, ws[i].cities, Everything);
  }

  /** Every unload of the run is exact. */
  ghost predicate ExactRun(ws: seq<World>, os: seq<seq<nat>>)
    requires |ws| == |os| + 1
  {
    forall i | 0 <= i < |os| ::
      && Ready(ws[i].cities, ws[i].planes) && InRange(os[i], |ws[i].planes|)
      && AllExact(ws[i], os[i])
  }

  /** In a run of exact unloads the balance of every single product is kept. */
  lemma {:induction false} ProductConservation(dist: seq<seq<int>>, ws: seq<World>, os: seq<seq<nat>>, far: nat,
                                               j: nat, q: int)
    requires GoodRun(dist, ws, os, far) && j < |ws| && ExactRun(ws, os)
    ensures Balance(ws[j], Only(q)) == Balance(ws[0], Only(q))
  {
    if j > 0 {
      BoundaryIsValid(dist, ws, os, far, j - 1);
      ProductConservation(dist, ws, os, far, j - 1, q);
      assert Turn(dist, ws[j - 1], os[j - 1], ws[j]);
      TurnKeeps(dist, ws[j - 1], os[j - 1], ws[j], far, Only(q));
    }
  }

  /** After k unloads of the phase product q is balanced as before the phase. */
  ghost predicate BalancedAfter(w: World, order: seq<nat>, k: nat, q: int)
    requires Ready(w.cities, w.planes) && InRange(order, |w.planes|) && k <= |order|
  {
    Balance(UnloadAll(w, order[..k]), Only(q)) == Balance(w, Only(q))
  }

  lemma BalancedStep(w: World, order: seq<nat>, k: nat, q: int)
    requires Ready(w.cities, w.planes) && InRange(order, |w.planes|) && order != [] && 0 < k <= |order|
    ensures UnloadAll(w, order[..k]) == UnloadAll(UnloadAt(w, order[0]), order[1..][..k - 1])
  {
    assert order[..k][1..] == order[1..][..k - 1];
  }

  /** The unloads of a phase are all exact exactly when every product is balanced after each of them. */
  lemma {:induction false} AllExactIffBalanced(w: World, order: seq<nat>)
    requires Valid(w) && Serves(w, order)
    ensures AllExact(w, order) <==> forall k: nat, q | k <= |order| :: BalancedAfter(w, order, k, q)
    decreases |order|
  {
    if order == [] {
      forall k: nat, q | k <= |order| ensures BalancedAfter(w, order, k, q) {
        assert order[..k] == [];
      }
    } else {
      var w1, rest := UnloadAt(w, order[0]), order[1..];
      UnloadAtKeeps(w, order[0], Everything);
      ServesRest(w, order);
      AllExactIffBalanced(w1, rest);
      if AllExact(w, order) {
        forall k: nat, q | k <= |order| ensures BalancedAfter(w, order, k, q) {
          FirstExactBalances(w, order, k, q);
        }
      }
      if forall k: nat, q | k <= |order| :: BalancedAfter(w, order, k, q) {
        BalancedIsExact(w, order);
      }
    }
  }

  lemma FirstExactBalances(w: World, order: seq<nat>, k: nat, q: int)
    requires Valid(w) && Serves(w, order) && order != [] && k <= |order|
    requires Exact(w.cities[w.planes[order[0]].city], w.planes[order[0]].load)
    requires Ready(UnloadAt(w, order[0]).cities, UnloadAt(w, order[0]).planes) && InRange(order[1..], |w.planes|)
    requires k > 0 ==> BalancedAfter(UnloadAt(w, order[0]), order[1..], k - 1, q)
    ensures BalancedAfter(w, order, k, q)
  {
    if k == 0 {
      assert order[..0] == [];
    } else {
      BalancedStep(w, order, k, q);
      UnloadAtKeeps(w, order[0], Only(q));
    }
  }

  lemma BalancedIsExact(w: World, order: seq<nat>)
    requires Valid(w) && Serves(w, order) && order != []
    requires forall k: nat, q | k <= |order| :: BalancedAfter(w, order, k, q)
    requires Valid(UnloadAt(w, order[0])) && Serves(UnloadAt(w, order[0]), order[1..])
    ensures Exact(w.cities[w.planes[order[0]].city], w.planes[order[0]].load)
    ensures forall k: nat, q | k <= |order| - 1 :: BalancedAfter(UnloadAt(w, order[0]), order[1..], k, q)
  {
    var w1 := UnloadAt(w, order[0]);
    forall q ensures Balance(w1, Only(q)) == Balance(w, Only(q))
             ensures ExactFor(w.cities[w.planes[order[0]].city], w.planes[order[0]].load, q) {
      assert BalancedAfter(w, order, 1, q);
      BalancedStep(w, order, 1, q);
      assert order[1..][..0] == [];
      UnloadAtBalance(w, order[0], Only(q));
    }
    forall k: nat, q | k <= |order| - 1 ensures BalancedAfter(w1, order[1..], k, q) {
      assert BalancedAfter(w, order, k + 1, q);
      BalancedStep(w, order, k + 1, q);
    }
  }

  /** At every moment of a run, within its turns too, product q is balanced as at the start. */
  ghost predicate BalancedRun(ws: seq<World>, os: seq<seq<nat>>)
    requires |ws| == |os| + 1
  {
    forall i: nat | i < |os| :: BalancedTurn(ws, os, i)
  }

  ghost predicate BalancedTurn(ws: seq<World>, os: seq<seq<nat>>, i: nat)
    requires i < |os| < |ws|
  {
    && Ready(ws[i].cities, ws[i].planes) && InRange(os[i], |ws[i].planes|)
    && (forall q: int :: Balance(ws[i], Only(q)) == Balance(ws[0], Only(q)))
    && forall k: nat, q | k <= |os[i]| :: BalancedAfter(ws[i], os[i], k, q)
  }

  /** A run keeps the balance of every single product at every moment if and only if all its unloads are exact. */
  lemma ExactRunIffBalanced(dist: seq<seq<int>>, ws: seq<World>, os: seq<seq<nat>>, far: nat)
    requires GoodRun(dist, ws, os, far)
    ensures ExactRun(ws, os) <==> BalancedRun(ws, os)
  {
    forall i: nat | i < |os| ensures Valid(ws[i]) && Serves(ws[i], os[i]) {
      BoundaryIsValid(dist, ws, os, far, i);
      assert Turn(dist, ws[i], os[i], ws[i + 1]);
    }
    if ExactRun(ws, os) {
      forall i: nat | i < |os| ensures BalancedTurn(ws, os, i) {
        AllExactIffBalanced(ws[i], os[i]);
        forall q: int ensures Balance(ws[i], Only(q)) == Balance(ws[0], Only(q)) {
          ProductConservation(dist, ws, os, far, i, q);
        }
      }
    }
    if BalancedRun(ws, os) {
      forall i: nat | i < |os| ensures AllExact(ws[i], os[i]) {
        assert BalancedTurn(ws, os, i);
        AllExactIffBalanced(ws[i], os[i]);
      }
    }
  }

  /** A city takes an item only where it is listed, or else finds nothing to take it against: its last entry asks
      for nothing. */
  ghost predicate Takes(city: Stocks, item: Item) {
    Find(city, item.product) < |city| || city == [] || city[|city| - 1].amount == 0
  }

  /** No plane carries anything that any city could take for something else. */
  ghost predicate WellListed(cities: seq<Stocks>, planes: seq<Plane>) {
    forall c, p, i | 0 <= c < |cities| && 0 <= p < |planes| && 0 <= i < |planes[p].load| ::
      Takes(cities[c], planes[p].load[i])
  }

  lemma WellListedLater(after: World, before: World)
    requires Later(after, before) && WellListed(before.cities, before.planes)
    ensures WellListed(after.cities, after.planes)
  {
    forall c, p, i | 0 <= c < |after.cities| && 0 <= p < |after.planes| && 0 <= i < |after.planes[p].load|
      ensures Takes(after.cities[c], after.planes[p].load[i])
    {
      FindSameProducts(after.cities[c], before.cities[c], after.planes[p].load[i].product);
      assert Takes(before.cities[c], before.planes[p].load[i]);
      assert after.planes[p].load[i].product == before.planes[p].load[i].product;
    }
  }

  lemma TakesAllIsExact(city: Stocks, load: Stocks)
    requires city != [] || load == []
    requires NonNegative(city) && NonNegative(load) && UniqueProducts(city)
    requires forall i | 0 <= i < |load| :: Takes(city, load[i])
    ensures Exact(city, load)
  {
    forall i: nat | i < |load| ensures CoveredAt(city, load, i) {
      assert Takes(city, load[i]);
      AmountOfMonotone(load[..i], load[..i], city[|city| - 1].product);
    }
    ExactIffNothingMisdelivered(city, load);
  }

  lemma {:induction false} WellListedExact(w: World, order: seq<nat>)
    requires Valid(w) && Serves(w, order) && WellListed(w.cities, w.planes)
    ensures AllExact(w, order)
    decreases |order|
  {
    if order != [] {
      var pl := w.planes[order[0]];
      TakesAllIsExact(w.cities[pl.city], pl.load);
      UnloadAtKeeps(w, order[0], Everything);
      ServesRest(w, order);
      WellListedLater(UnloadAt(w, order[0]), w);
      WellListedExact(UnloadAt(w, order[0]), order[1..]);
    }
  }

  /** On such a map every run is one of exact unloads. */
  lemma WellListedRunIsExact(dist: seq<seq<int>>, ws: seq<World>, os: seq<seq<nat>>, far: nat)
    requires GoodRun(dist, ws, os, far) && WellListed(ws[0].cities, ws[0].planes)
    ensures ExactRun(ws, os)
  {
    forall i | 0 <= i < |os|
      ensures Ready(ws[i].cities, ws[i].planes) && InRange(os[i], |ws[i].planes|)
      ensures AllExact(ws[i], os[i])
    {
      Conservation(dist, ws, os, far, 0, i);
      assert Turn(dist, ws[i], os[i], ws[i + 1]);
      WellListedLater(ws[i], ws[0]);
      WellListedExact(ws[i], os[i]);
    }
  }

  // ---------------------------------------------------------------- when the code is defined

  ghost predicate InCities(w: World) {
    forall p | 0 <= p < |w.planes| :: w.planes[p].city < |w.cities|
  }

  /** Serving the planes in this order reads no pointer that was never set. */
  ghost predicate Defined(w: World, order: seq<nat>)
    requires InCities(w) && InRange(order, |w.planes|)
    decreases |order|
  {
    order == [] ||
    var pl := w.planes[order[0]];
    match TryUnload(w.cities[pl.city], pl.load)
    case NoEntry => false
    case Exchanged(city, load) =>
      Defined(World(w.cities[pl.city := city], w.planes[order[0] := pl.(load := load, done := Spent(load))]),
              order[1..])
  }

  lemma {:induction false} ReadyIsDefined(w: World, order: seq<nat>)
    requires Ready(w.cities, w.planes) && InRange(order, |w.planes|)
    ensures InCities(w) && Defined(w, order)
    decreases |order|
  {
    if order != [] {
      var pl := w.planes[order[0]];
      UnloadIsDefinedIff(w.cities[pl.city], pl.load);
      ReadyIsDefined(UnloadAt(w, order[0]), order[1..]);
    }
  }

  ghost predicate ReadyPlane(w: World, p: nat)
    requires InCities(w) && p < |w.planes|
  {
    w.cities[w.planes[p].city] != [] || w.planes[p].load == []
  }

  lemma {:induction false} DefinedIsReady(w: World, order: seq<nat>, i: nat)
    requires InCities(w) && InRange(order, |w.planes|) && NoRepeats(order) && Defined(w, order) && i < |order|
    ensures ReadyPlane(w, order[i])
    decreases |order|
  {
    var pl := w.planes[order[0]];
    UnloadIsDefinedIff(w.cities[pl.city], pl.load);
    if i > 0 {
      var (city, load) := Unload(w.cities[pl.city], pl.load);
      var w1 := World(w.cities[pl.city := city], w.planes[order[0] := pl.(load := load, done := Spent(load))]);
      DefinedIsReady(w1, order[1..], i - 1);
      assert w1.planes[order[i]] == w.planes[order[i]];
    }
  }

  /** A run, and the order in which the map would serve the planes in the turn that follows it. */
  ghost predicate Attempt(dist: seq<seq<int>>, ws: seq<World>, os: seq<seq<nat>>, order: seq<nat>) {
    Run(dist, ws, os) && Continues(ws[|os|].cities, |os|) && IsOrder(ws[|os|], order)
  }

  /** All that is asked of a start but `Ready`. */
  ghost predicate AllLanded(w: World) {
    && InCities(w)
    && (forall c | 0 <= c < |w.cities| :: NonNegative(w.cities[c]) && UniqueProducts(w.cities[c]))
    && (forall p | 0 <= p < |w.planes| :: NonNegative(w.planes[p].load) && Landed(w.planes[p]))
  }

  /** Every unload of every run is defined if and only if no plane with stocks starts in a city with an empty
      list, unless nothing is asked for and no turn takes place. */
  lemma DefinedIffReady(dist: seq<seq<int>>, w: World, far: nat)
    requires AllLanded(w) && Routes(dist, |w.cities|, far)
    ensures Ready(w.cities, w.planes) || AllMet(w.cities)
            <==> forall ws, os, order | Attempt(dist, ws, os, order) && ws[0] == w ::
                   InCities(ws[|os|]) && Defined(ws[|os|], order)
  {
    if Ready(w.cities, w.planes) || AllMet(w.cities) {
      forall ws, os, order | Attempt(dist, ws, os, order) && ws[0] == w
        ensures InCities(ws[|os|]) && Defined(ws[|os|], order)
      {
        AttemptIsReady(dist, ws, os, far);
        ReadyIsDefined(ws[|os|], order);
      }
    } else {
      var order := LandedUpTo(w.planes, |w.planes|);
      FirstTurnIsUndefined(w, order);
      var ws, os: seq<seq<nat>> := [w], [];
      assert Attempt(dist, ws, os, order) && ws[|os|] == w;
    }
  }

  lemma FirstTurnIsUndefined(w: World, order: seq<nat>)
    requires AllLanded(w) && !Ready(w.cities, w.planes) && order == LandedUpTo(w.planes, |w.planes|)
    ensures IsOrder(w, order) && !Defined(w, order)
  {
    var p: nat :| p < |w.planes| && w.cities[w.planes[p].city] == [] && w.planes[p].load != [];
    assert Landed(w.planes[p]) && p in order;
    var i :| 0 <= i < |order| && order[i] == p;
    if Defined(w, order) {
      DefinedIsReady(w, order, i);
    }
  }

  lemma AttemptIsReady(dist: seq<seq<int>>, ws: seq<World>, os: seq<seq<nat>>, far: nat)
    requires Run(dist, ws, os) && Continues(ws[|os|].cities, |os|)
    requires AllLanded(ws[0]) && Routes(dist, |ws[0].cities|, far)
    requires Ready(ws[0].cities, ws[0].planes) || AllMet(ws[0].cities)
    ensures Ready(ws[|os|].cities, ws[|os|].planes)
  {
    if os != [] {
      assert Continues(ws[0].cities, 0);
    }
    BoundaryIsValid(dist, ws, os, far, |os|);
  }

  /** A plane with stocks in a city that lists nothing: the first unload is undefined. */
  lemma EmptyCityExample()
    ensures var w := World([[], [Item(0, 1)]], [Plane(0, 0, [Item(0, 1)], false)]);
            && AllLanded(w) && Continues(w.cities, 0) && IsOrder(w, [0])
            && TryUnload(w.cities[0], w.planes[0].load) == NoEntry && !Defined(w, [0])
  {
    var w := World([[], [Item(0, 1)]], [Plane(0, 0, [Item(0, 1)], false)]);
    assert w.cities[1][0].amount == 1 && !CityMet(w.cities[1]);
    assert [0][0] == 0;
  }

  /** A turn is always possible: some order of service and some answers exist, so runs do not get stuck. */
  lemma TurnExists(dist: seq<seq<int>>, w: World, far: nat) returns (order: seq<nat>, w': World)
    requires Valid(w) && Routes(dist, |w.cities|, far)
    ensures Turn(dist, w, order, w')
  {
    order := LandedUpTo(w.planes, |w.planes|);
    var m := UnloadAll(w, order);
    w' := World(m.cities, seq(|m.planes|, p requires 0 <= p < |m.planes| => NextPlane(dist, m.cities, m.planes[p])));
    forall p | 0 <= p < |m.planes| ensures Decide(dist, m.cities, m.planes[p], w'.planes[p]) {
      NextDecides(dist, m.cities, m.planes[p]);
    }
  }

  ghost function LandedUpTo(planes: seq<Plane>, n: nat): (order: seq<nat>)
    requires n <= |planes|
    ensures NoRepeats(order)
    ensures forall i | 0 <= i < |order| :: order[i] < n && Landed(planes[order[i]])
    ensures forall p | 0 <= p < n && Landed(planes[p]) :: p in order
  {
    if n == 0 then [] else
      var order := LandedUpTo(planes, n - 1);
      if Landed(planes[n - 1]) then order + [n - 1] else order
  }

  ghost function NextPlane(dist: seq<seq<int>>, cities: seq<Stocks>, pl: Plane): Plane
    requires Square(dist, |cities|) && pl.city < |cities|
  {
    if pl.done then pl
    else if pl.distance != 0 then pl.(distance := pl.distance - 1)
    else Choose(pl, Sorted(Kept(cities, dist, pl.city, pl.load, |cities|)))
  }

  lemma NextDecides(dist: seq<seq<int>>, cities: seq<Stocks>, pl: Plane)
    requires Square(dist, |cities|) && pl.city < |cities|
    ensures Decide(dist, cities, pl, NextPlane(dist, cities, pl))
  {
    if Landed(pl) {
      SortedIsAnswer(cities, dist, pl.city, pl.load, Kept(cities, dist, pl.city, pl.load, |cities|));
    }
  }
}
