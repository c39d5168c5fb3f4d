/** What whole runs of the simulation guarantee. */
module Runs {
  // Retirement is never premature, a plane never flies to the city it is in, idle windows are short, and enough
  // supply of products that are listed where they are unloaded satisfies every city.

  import opened Delivery
  import opened Turns
  import opened Answers

  // ---------------------------------------------------------------- one plane through a turn

  /** A served plane ends the first phase with its own city having no use for it. */
  lemma TurnOfLanded(dist: seq<seq<int>>, w: World, order: seq<nat>, w': World, far: nat, p: nat)
    requires Valid(w) && Routes(dist, |w.cities|, far) && Turn(dist, w, order, w')
    requires p < |w.planes| && Landed(w.planes[p])
    ensures w'.planes[p].done <==>
              Spent(w'.planes[p].load) || forall c | 0 <= c < |w'.cities| :: Score(w'.cities[c], w'.planes[p].load) == 0
    ensures !w'.planes[p].done ==>
              && w'.planes[p].city < |w'.cities| && w'.planes[p].city != w.planes[p].city
              && Score(w'.cities[w'.planes[p].city], w'.planes[p].load) > 0
              && w'.planes[p].distance == dist[w'.planes[p].city][w.planes[p].city]
    ensures w.planes[p].city < |w'.cities| == |w.cities|
    ensures !w'.planes[p].done ==>
              var pl := w'.planes[p]; NearestOfTen(w'.cities, dist, w.planes[p].city, pl.load, pl.city, pl.distance)
  {
    var mid := UnloadAll(w, order);
    UnloadAllKeeps(w, order, Everything);
    UnloadAllFrame(w, order, p);
    UnloadAllNoUse(w, order, p);
    ServedDone(w, order, p);
    if !mid.planes[p].done {
      DecideMeaning(dist, mid.cities, mid.planes[p], w'.planes[p]);
      if !w'.planes[p].done {
        ScoreZeroIff(mid.cities[w'.planes[p].city], mid.planes[p].load);
      }
    }
  }

  /** After the first phase a served plane is done exactly when it carries nothing any more. */
  lemma {:induction false} ServedDone(w: World, order: seq<nat>, p: nat)
    requires Valid(w) && Serves(w, order) && p in order
    ensures UnloadAll(w, order).planes[p].done <==> Spent(UnloadAll(w, order).planes[p].load)
    decreases |order|
  {
    UnloadAtKeeps(w, order[0], Everything);
    ServesRest(w, order);
    if order[0] == p {
      UnloadAllFrame(UnloadAt(w, order[0]), order[1..], p);
    } else {
      ServedDone(UnloadAt(w, order[0]), order[1..], p);
    }
  }

  lemma TurnOfFlying(dist: seq<seq<int>>, w: World, order: seq<nat>, w': World, p: nat)
    requires Turn(dist, w, order, w') && p < |w.planes| && !w.planes[p].done && w.planes[p].distance != 0
    ensures w'.planes[p] == w.planes[p].(distance := w.planes[p].distance - 1)
  {
    UnloadAllFrame(w, order, p);
  }

  lemma TurnOfRetired(dist: seq<seq<int>>, w: World, order: seq<nat>, w': World, p: nat)
    requires Turn(dist, w, order, w') && p < |w.planes| && w.planes[p].done
    ensures w'.planes[p] == w.planes[p]
  {
    UnloadAllFrame(w, order, p);
  }

  // ---------------------------------------------------------------- retirement

  /** The load scores 0 in every city. */
  ghost predicate Useless(cities: seq<Stocks>, load: Stocks) {
    forall c | 0 <= c < |cities| :: Score(cities[c], load) == 0
  }

  lemma UselessLater(after: seq<Stocks>, before: seq<Stocks>, load: Stocks)
    requires CitiesLeft(after, before) && NonNegative(load) && Useless(before, load)
    ensures Useless(after, load)
  {
    forall c | 0 <= c < |after| ensures Score(after[c], load) == 0 {
      ScoreMonotone(after[c], before[c], load);
    }
  }

  lemma SpentIsUseless(cities: seq<Stocks>, load: Stocks)
    requires forall c | 0 <= c < |cities| :: NonNegative(cities[c])
    requires Spent(load) && NonNegative(load)
    ensures Useless(cities, load)
  {
    forall c | 0 <= c < |cities| ensures Score(cities[c], load) == 0 {
      ScoreZeroIff(cities[c], load);
    }
  }

  /** No city asks for anything of this load. */
  ghost predicate Unwanted(cities: seq<Stocks>, load: Stocks) {
    forall c | 0 <= c < |cities| :: WantsNothing(cities[c], load)
  }

  /** Nothing that is asked for is repeated in the load behind an empty first entry. */
  ghost predicate NoneOverlooked(cities: seq<Stocks>, load: Stocks) {
    forall c | 0 <= c < |cities| :: !Overlooks(cities[c], load)
  }

  /** What useless means in goods. */
  lemma UnwantedIff(cities: seq<Stocks>, load: Stocks)
    requires NonNegative(load) && forall c | 0 <= c < |cities| :: NonNegative(cities[c])
    ensures Unwanted(cities, load) <==> Useless(cities, load) && NoneOverlooked(cities, load)
    ensures UniqueProducts(load) ==> NoneOverlooked(cities, load)
  {
    forall c | 0 <= c < |cities|
      ensures WantsNothing(cities[c], load) <==> Score(cities[c], load) == 0 && !Overlooks(cities[c], load)
      ensures UniqueProducts(load) ==> !Overlooks(cities[c], load)
    {
      WantsNothingIff(cities[c], load);
      if UniqueProducts(load) {
        UniqueWantsNothingIff(cities[c], load);
      }
    }
  }

  lemma RetiredIsUseless(dist: seq<seq<int>>, w: World, o: seq<nat>, w': World, far: nat, p: nat)
    requires Valid(w) && Turn(dist, w, o, w') && Routes(dist, |w.cities|, far)
    requires forall q | 0 <= q < |w.planes| :: w.planes[q].distance <= far
    requires p < |w.planes| && w'.planes[p].done && (w.planes[p].done ==> Useless(w.cities, w.planes[p].load))
    ensures Useless(w'.cities, w'.planes[p].load)
  {
    TurnKeeps(dist, w, o, w', far, Everything);
    if w.planes[p].done {
      TurnOfRetired(dist, w, o, w', p);
      UselessLater(w'.cities, w.cities, w.planes[p].load);
    } else {
      RetiresUseless(dist, w, o, w', far, p);
    }
  }

  /** Retirement is sound: at every turn boundary of a run, a retired plane scores 0 everywhere. */
  lemma {:induction false} RetirementSound(dist: seq<seq<int>>, ws: seq<World>, os: seq<seq<nat>>, far: nat, j: nat,
                                           p: nat)
    requires GoodRun(dist, ws, os, far) && Initial(ws[0]) && j < |ws| && p < |ws[j].planes|
    requires ws[j].planes[p].done
    ensures Useless(ws[j].cities, ws[j].planes[p].load)
  {
    if j > 0 {
      BoundaryIsValid(dist, ws, os, far, j - 1);
      assert Turn(dist, ws[j - 1], os[j - 1], ws[j]);
      if ws[j - 1].planes[p].done {
        RetirementSound(dist, ws, os, far, j - 1, p);
      }
      RetiredIsUseless(dist, ws[j - 1], os[j - 1], ws[j], far, p);
    }
  }

  /** In goods: a retired plane carries nothing that any city still asks for, if and only if it does not carry
      something asked for behind an empty first entry of the same product; and a load that started without
      repetition never does. */
  lemma RetirementInGoods(dist: seq<seq<int>>, ws: seq<World>, os: seq<seq<nat>>, far: nat, j: nat, p: nat)
    requires GoodRun(dist, ws, os, far) && Initial(ws[0]) && j < |ws| && p < |ws[j].planes|
    requires ws[j].planes[p].done
    ensures Unwanted(ws[j].cities, ws[j].planes[p].load) <==> NoneOverlooked(ws[j].cities, ws[j].planes[p].load)
    ensures p < |ws[0].planes|
    ensures UniqueProducts(ws[0].planes[p].load) ==> Unwanted(ws[j].cities, ws[j].planes[p].load)
  {
    RetirementSound(dist, ws, os, far, j, p);
    Conservation(dist, ws, os, far, 0, j);
    UnwantedIff(ws[j].cities, ws[j].planes[p].load);
    assert LeftOf(ws[j].planes[p].load, ws[0].planes[p].load);
  }

  /** A plane that retires in a turn scores 0 everywhere. */
  lemma RetiresUseless(dist: seq<seq<int>>, w: World, order: seq<nat>, w': World, far: nat, p: nat)
    requires Valid(w) && Routes(dist, |w.cities|, far) && Turn(dist, w, order, w') && Valid(w')
    requires p < |w.planes| && p < |w'.planes| && !w.planes[p].done && w'.planes[p].done
    ensures Useless(w'.cities, w'.planes[p].load)
  {
    if w.planes[p].distance != 0 {
      TurnOfFlying(dist, w, order, w', p);
    } else {
      TurnOfLanded(dist, w, order, w', far, p);
      if Spent(w'.planes[p].load) {
        SpentIsUseless(w'.cities, w'.planes[p].load);
      }
    }
  }

  // ---------------------------------------------------------------- flights

  /** A flying plane only comes nearer: k turns later it is k units closer, to the same city, with the
      same load. */
  lemma {:induction false} Flight(dist: seq<seq<int>>, ws: seq<World>, os: seq<seq<nat>>, i: nat, p: nat, k: nat)
    requires Run(dist, ws, os) && i + k < |ws| && p < |ws[i].planes|
    requires !ws[i].planes[p].done && k <= ws[i].planes[p].distance
    ensures p < |ws[i + k].planes|
    ensures ws[i + k].planes[p] == ws[i].planes[p].(distance := ws[i].planes[p].distance - k)
  {
    if k > 0 {
      Flight(dist, ws, os, i, p, k - 1);
      var j := i + k - 1;
      assert Turn(dist, ws[j], os[j], ws[j + 1]);
      TurnOfFlying(dist, ws[j], os[j], ws[j + 1], p);
    }
  }

  /** A landed plane that does not retire in this turn leaves for another city that can use its load. */
  lemma Departure(dist: seq<seq<int>>, ws: seq<World>, os: seq<seq<nat>>, far: nat, i: nat, p: nat)
    requires GoodRun(dist, ws, os, far) && i + 1 < |ws| && p < |ws[i].planes| && p < |ws[i + 1].planes|
    requires Landed(ws[i].planes[p]) && !ws[i + 1].planes[p].done
    ensures var pl := ws[i + 1].planes[p];
            && pl.city < |ws[i + 1].cities| && pl.city != ws[i].planes[p].city < |ws[0].cities|
            && |ws[i + 1].cities| == |ws[0].cities|
            && Score(ws[i + 1].cities[pl.city], pl.load) > 0
            && 0 <= pl.distance <= far && pl.distance == dist[pl.city][ws[i].planes[p].city]
    ensures var at, pl, cities := ws[i].planes[p].city, ws[i + 1].planes[p], ws[i + 1].cities;
            && Square(dist, |cities|) && NearestOfTen(cities, dist, at, pl.load, pl.city, pl.distance)
            && (|UsefulCities(cities, pl.load)| <= 10 ==>
                  forall c: nat | c < |cities| && Score(cities[c], pl.load) != 0 :: pl.distance <= dist[c][at])
  {
    Conservation(dist, ws, os, far, 0, i);
    Conservation(dist, ws, os, far, 0, i + 1);
    assert Turn(dist, ws[i], os[i], ws[i + 1]);
    TurnOfLanded(dist, ws[i], os[i], ws[i + 1], far, p);
    var pl := ws[i + 1].planes[p];
    NearestMeaning(ws[i + 1].cities, dist, ws[i].planes[p].city, pl.load, pl.city, pl.distance);
  }

  /** On a connected map a plane that takes off leaves for a different city at a positive distance d, is not
      served in the d turns that follow, and is landed there, with an unchanged load, for the turn after. */
  lemma TakeOff(dist: seq<seq<int>>, ws: seq<World>, os: seq<seq<nat>>, far: nat, i: nat, p: nat)
    requires GoodRun(dist, ws, os, far) && i + 1 < |ws| && p < |ws[i].planes|
    requires forall a, b | 0 <= a < |ws[0].cities| && 0 <= b < |ws[0].cities| && a != b :: dist[a][b] > 0
    requires Landed(ws[i].planes[p]) && p < |ws[i + 1].planes| && !ws[i + 1].planes[p].done
    ensures var d := ws[i + 1].planes[p].distance;
            && ws[i + 1].planes[p].city != ws[i].planes[p].city && d > 0
            && (forall j: nat | i + 1 <= j < i + 1 + d && j < |ws| ::
                  p < |ws[j].planes| && !Landed(ws[j].planes[p]))
            && (i + 1 + d < |ws| ==>
                  && p < |ws[i + 1 + d].planes|
                  && ws[i + 1 + d].planes[p] == ws[i + 1].planes[p].(distance := 0))
  {
    Departure(dist, ws, os, far, i, p);
    var d := ws[i + 1].planes[p].distance;
    forall j: nat | i + 1 <= j < i + 1 + d && j < |ws|
      ensures p < |ws[j].planes| && !Landed(ws[j].planes[p])
    {
      Flight(dist, ws, os, i + 1, p, j - i - 1);
    }
    if i + 1 + d < |ws| {
      Flight(dist, ws, os, i + 1, p, d);
    }
  }

  // ---------------------------------------------------------------- no long idle window

  ghost function Active(planes: seq<Plane>): nat {
    if planes == [] then 0 else (if planes[0].done then 0 else 1) + Active(planes[1..])
  }

  lemma {:induction false} ActiveLater(after: seq<Plane>, before: seq<Plane>)
    requires PlanesLeft(after, before)
    ensures Active(after) <= Active(before)
    ensures Active(after) == Active(before) ==> forall p | 0 <= p < |before| :: after[p].done == before[p].done
  {
    if before != [] {
      assert forall p | 0 <= p < |before| - 1 :: after[1..][p] == after[p + 1] && before[1..][p] == before[p + 1];
      ActiveLater(after[1..], before[1..]);
      if Active(after) == Active(before) {
        forall p | 0 <= p < |before| ensures after[p].done == before[p].done {
          if p > 0 { assert after[1..][p - 1].done == before[1..][p - 1].done; }
        }
      }
    }
  }

  lemma {:induction false} NoneActive(planes: seq<Plane>)
    ensures Active(planes) == 0 <==> forall p | 0 <= p < |planes| :: planes[p].done
  {
    if planes != [] {
      NoneActive(planes[1..]);
      assert forall p | 0 < p < |planes| :: planes[p] == planes[1..][p - 1];
    }
  }

  /** Demand still open and planes still under way: what the simulation has left to do. */
  ghost function Work(w: World): int {
    Demand(w, Everything) + Active(w.planes)
  }

  lemma WorkLater(after: World, before: World)
    requires Later(after, before)
    ensures 0 <= Work(after) <= Work(before)
    ensures Work(after) == Work(before) ==> after.cities == before.cities
    ensures Work(after) == Work(before) ==>
            forall p | 0 <= p < |before.planes| :: after.planes[p].done == before.planes[p].done
  {
    SumMonotone(after.cities, before.cities, Everything);
    ActiveLater(after.planes, before.planes);
  }

  /** Where a window leads: the turn in which the plane arrives with something the city still wants. */
  lemma ArrivalDelivers(dist: seq<seq<int>>, ws: seq<World>, os: seq<seq<nat>>, far: nat, j: nat, p: nat)
    requires GoodRun(dist, ws, os, far) && j + 1 < |ws| && p < |ws[j].planes|
    requires Landed(ws[j].planes[p]) && ws[j].planes[p].city < |ws[j].cities|
    requires Score(ws[j].cities[ws[j].planes[p].city], ws[j].planes[p].load) > 0
    ensures Demand(ws[j + 1], Everything) < Demand(ws[j], Everything)
  {
    Conservation(dist, ws, os, far, 0, j);
    assert Turn(dist, ws[j], os[j], ws[j + 1]);
    UnloadAllDelivers(ws[j], os[j], p);
  }

  /** A plane landed at turn `land` that goes on flying delivers within the next far + 2 turns, if nobody
      else has changed the demand by then. */
  lemma NextStopDelivers(dist: seq<seq<int>>, ws: seq<World>, os: seq<seq<nat>>, far: nat, i: nat, land: nat,
                         last: nat, p: nat)
    requires GoodRun(dist, ws, os, far) && i <= land && land + far + 2 <= last < |ws|
    requires p < |ws[i].planes| && !ws[i].planes[p].done
    requires p < |ws[land].planes| && Landed(ws[land].planes[p])
    ensures Work(ws[last]) != Work(ws[i])
  {
    if Work(ws[last]) == Work(ws[i]) {
      SameWork(dist, ws, os, far, i, land + 1, last);
      Departure(dist, ws, os, far, land, p);
      var d := ws[land + 1].planes[p].distance;
      Flight(dist, ws, os, land + 1, p, d);
      SameWork(dist, ws, os, far, i, land + 1 + d, last);
      SameWork(dist, ws, os, far, i, land + 2 + d, last);
      ArrivalDelivers(dist, ws, os, far, land + 1 + d, p);
    }
  }

  /** In any 2 (far + 1) turns with a plane that has not retired, some demand is met or some plane retires. */
  lemma WindowMakesProgress(dist: seq<seq<int>>, ws: seq<World>, os: seq<seq<nat>>, far: nat, i: nat, p: nat)
    requires GoodRun(dist, ws, os, far) && i + 2 * (far + 1) < |ws|
    requires p < |ws[i].planes| && !ws[i].planes[p].done
    ensures Work(ws[i + 2 * (far + 1)]) < Work(ws[i])
  {
    var last := i + 2 * (far + 1);
    Conservation(dist, ws, os, far, i, last);
    WorkLater(ws[last], ws[i]);
    Conservation(dist, ws, os, far, i, i);
    var d := ws[i].planes[p].distance;
    Flight(dist, ws, os, i, p, d);
    NextStopDelivers(dist, ws, os, far, i, i + d, last, p);
  }

  /** Between two boundaries with the same work nothing was delivered and nobody retired. */
  lemma SameWork(dist: seq<seq<int>>, ws: seq<World>, os: seq<seq<nat>>, far: nat, i: nat, j: nat, last: nat)
    requires GoodRun(dist, ws, os, far) && i <= j <= last < |ws|
    requires Work(ws[last]) == Work(ws[i])
    ensures ws[j].cities == ws[i].cities && |ws[j].planes| == |ws[i].planes|
    ensures forall p | 0 <= p < |ws[i].planes| :: ws[j].planes[p].done == ws[i].planes[p].done
    ensures |ws[j].cities| == |ws[0].cities|
    ensures forall p | 0 <= p < |ws[j].planes| :: 0 <= ws[j].planes[p].distance <= far
  {
    Conservation(dist, ws, os, far, i, j);
    Conservation(dist, ws, os, far, j, last);
    WorkLater(ws[j], ws[i]);
    WorkLater(ws[last], ws[j]);
  }

  /** After k such windows at least k units of work are done, or every plane has retired. */
  lemma {:induction false} WorkAfterWindows(dist: seq<seq<int>>, ws: seq<World>, os: seq<seq<nat>>, far: nat, k: nat)
    requires GoodRun(dist, ws, os, far) && 2 * (far + 1) * k < |ws|
    ensures Work(ws[2 * (far + 1) * k]) <= Work(ws[0]) - k || Active(ws[2 * (far + 1) * k].planes) == 0
    decreases k
  {
    var width := 2 * (far + 1);
    if k > 0 {
      var i := width * (k - 1);
      assert width * k == i + width;
      WorkAfterWindows(dist, ws, os, far, k - 1);
      OneWindow(dist, ws, os, far, i, i + width);
    } else {
      assert width * k == 0;
    }
  }

  /** One window does some work, unless every plane has retired. */
  lemma OneWindow(dist: seq<seq<int>>, ws: seq<World>, os: seq<seq<nat>>, far: nat, i: nat, j: nat)
    requires GoodRun(dist, ws, os, far) && j == i + 2 * (far + 1) && j < |ws|
    ensures Active(ws[i].planes) == 0 ==> Active(ws[j].planes) == 0
    ensures Work(ws[j]) < Work(ws[i]) || Active(ws[j].planes) == 0
  {
    Conservation(dist, ws, os, far, i, j);
    ActiveLater(ws[j].planes, ws[i].planes);
    NoneActive(ws[i].planes);
    if Active(ws[i].planes) > 0 {
      var p :| 0 <= p < |ws[i].planes| && !ws[i].planes[p].done;
      WindowMakesProgress(dist, ws, os, far, i, p);
    }
  }

  /** Quiescence: whatever the map and the loads, after 2 (far + 1) (T + P) turns every plane has retired,
      with T the demand and P the planes under way at the start. */
  lemma AllRetireInTime(dist: seq<seq<int>>, ws: seq<World>, os: seq<seq<nat>>, far: nat)
    requires GoodRun(dist, ws, os, far) && |os| >= 2 * (far + 1) * Work(ws[0])
    ensures Active(ws[|os|].planes) == 0
  {
    Conservation(dist, ws, os, far, 0, 0);
    WorkLater(ws[0], ws[0]);
    var n := 2 * (far + 1) * Work(ws[0]);
    WorkAfterWindows(dist, ws, os, far, Work(ws[0]));
    Conservation(dist, ws, os, far, 0, n);
    WorkLater(ws[n], ws[0]);
    SumMonotone(ws[n].cities, ws[n].cities, Everything);
    Conservation(dist, ws, os, far, n, |os|);
    ActiveLater(ws[|os|].planes, ws[n].planes);
  }

  // ---------------------------------------------------------------- satisfaction

  /** For every product the planes carry at least what the cities ask for. */
  ghost predicate EnoughSupply(w: World) {
    forall q: int :: Demand(w, Only(q)) <= Supply(w, Only(q))
  }

  ghost predicate UniqueLoads(planes: seq<Plane>) {
    forall p | 0 <= p < |planes| :: UniqueProducts(planes[p].load)
  }

  ghost predicate NoneOverlookedIn(w: World) {
    forall p | 0 <= p < |w.planes| :: NoneOverlooked(w.cities, w.planes[p].load)
  }

  lemma NoDemandLeft(w: World)
    requires Valid(w) && EnoughSupply(w) && forall p | 0 <= p < |w.planes| :: Unwanted(w.cities, w.planes[p].load)
    ensures AllMet(w.cities)
  {
    forall c, i | 0 <= c < |w.cities| && 0 <= i < |w.cities[c]| ensures w.cities[c][i].amount == 0 {
      var entry := w.cities[c][i];
      if entry.amount > 0 {
        AmountWithin(w.cities[c], i);
        SumWithin(w.cities, c, Only(entry.product));
        assert Demand(w, Only(entry.product)) > 0;
        var p, j := PositiveSomewhere(Loads(w.planes), entry.product);
        assert Wanted(w.cities[c], w.planes[p].load, i, j);
        assert false;
      }
    }
  }

  lemma MetIsCovered(w: World)
    requires Valid(w) && AllMet(w.cities)
    ensures EnoughSupply(w) && NoneOverlookedIn(w)
  {
    forall q: int ensures Demand(w, Only(q)) <= Supply(w, Only(q)) {
      MetAsksNothing(w.cities, q);
      LoadsNotNegative(w.planes, q);
    }
    forall p, c | 0 <= p < |w.planes| && 0 <= c < |w.cities| ensures !Overlooks(w.cities[c], w.planes[p].load) {
      assert CityMet(w.cities[c]);
    }
  }

  /** Whatever was misdelivered on the way: once every plane scores 0 everywhere, every demand is met exactly when
      what the planes still carry covers it, product by product, and nothing asked for is overlooked. */
  lemma MetIffCovered(w: World)
    requires Valid(w) && forall p | 0 <= p < |w.planes| :: Useless(w.cities, w.planes[p].load)
    ensures AllMet(w.cities) <==> EnoughSupply(w) && NoneOverlookedIn(w)
  {
    if EnoughSupply(w) && NoneOverlookedIn(w) {
      forall p | 0 <= p < |w.planes| ensures Unwanted(w.cities, w.planes[p].load) {
        UnwantedIff(w.cities, w.planes[p].load);
      }
      NoDemandLeft(w);
    }
    if AllMet(w.cities) {
      MetIsCovered(w);
    }
  }

  /** Loads that start without repetition are never overlooked. */
  lemma UniqueNeverOverlooked(dist: seq<seq<int>>, ws: seq<World>, os: seq<seq<nat>>, far: nat, j: nat)
    requires GoodRun(dist, ws, os, far) && j < |ws| && UniqueLoads(ws[0].planes)
    ensures NoneOverlookedIn(ws[j])
  {
    Conservation(dist, ws, os, far, 0, j);
    forall p | 0 <= p < |ws[j].planes| ensures NoneOverlooked(ws[j].cities, ws[j].planes[p].load) {
      assert LeftOf(ws[j].planes[p].load, ws[0].planes[p].load);
      UnwantedIff(ws[j].cities, ws[j].planes[p].load);
    }
  }

  lemma BalanceKeepsEnough(dist: seq<seq<int>>, ws: seq<World>, os: seq<seq<nat>>, far: nat, j: nat)
    requires GoodRun(dist, ws, os, far) && j < |ws| && ExactRun(ws, os)
    ensures EnoughSupply(ws[j]) <==> EnoughSupply(ws[0])
  {
    forall q: int ensures Balance(ws[j], Only(q)) == Balance(ws[0], Only(q)) {
      ProductConservation(dist, ws, os, far, j, q);
    }
    EnoughIffBalance(ws[j]);
    EnoughIffBalance(ws[0]);
  }

  lemma EnoughIffBalance(w: World)
    ensures EnoughSupply(w) <==> forall q: int :: Balance(w, Only(q)) <= 0
  {
    forall q: int ensures Demand(w, Only(q)) <= Supply(w, Only(q)) <==> Balance(w, Only(q)) <= 0 {
    }
    if forall q: int :: Balance(w, Only(q)) <= 0 {
      forall q: int ensures Demand(w, Only(q)) <= Supply(w, Only(q)) {
        assert Balance(w, Only(q)) <= 0;
      }
    }
  }

  /** Once every plane has retired, every demand is met if and only if what is left aboard covers what is left to ask
      for, product by product, and none of it is overlooked. */
  lemma RetiredIffCovered(dist: seq<seq<int>>, ws: seq<World>, os: seq<seq<nat>>, far: nat)
    requires GoodRun(dist, ws, os, far) && Initial(ws[0]) && Active(ws[|os|].planes) == 0
    ensures AllMet(ws[|os|].cities) <==> EnoughSupply(ws[|os|]) && NoneOverlookedIn(ws[|os|])
  {
    var w := ws[|os|];
    NoneActive(w.planes);
    Conservation(dist, ws, os, far, 0, |os|);
    forall p | 0 <= p < |w.planes| ensures Useless(w.cities, w.planes[p].load) {
      RetirementSound(dist, ws, os, far, |os|, p);
    }
    MetIffCovered(w);
  }

  /** How every run ends, as the code is written: after 2 (far + 1) (T + P) turns every demand is met if and only if
      what is left aboard covers what is left to ask for, product by product, and none of it is overlooked. */
  lemma SettledInTime(dist: seq<seq<int>>, ws: seq<World>, os: seq<seq<nat>>, far: nat)
    requires GoodRun(dist, ws, os, far) && Initial(ws[0]) && |os| >= 2 * (far + 1) * Work(ws[0])
    ensures AllMet(ws[|os|].cities) <==> EnoughSupply(ws[|os|]) && NoneOverlookedIn(ws[|os|])
    ensures UniqueLoads(ws[0].planes) ==> (AllMet(ws[|os|].cities) <==> EnoughSupply(ws[|os|]))
  {
    AllRetireInTime(dist, ws, os, far);
    RetiredIffCovered(dist, ws, os, far);
    if UniqueLoads(ws[0].planes) {
      UniqueNeverOverlooked(dist, ws, os, far, |os|);
    }
  }

  /** Eventual satisfaction: in a run of exact unloads, every demand is met by then if and only if there was enough
      of every product at the start, for loads without repetition; for others nothing may be overlooked either. */
  lemma SatisfiedInTime(dist: seq<seq<int>>, ws: seq<World>, os: seq<seq<nat>>, far: nat)
    requires GoodRun(dist, ws, os, far) && Initial(ws[0]) && ExactRun(ws, os)
    requires |os| >= 2 * (far + 1) * Work(ws[0])
    ensures AllMet(ws[|os|].cities) <==> EnoughSupply(ws[0]) && NoneOverlookedIn(ws[|os|])
    ensures UniqueLoads(ws[0].planes) ==> (AllMet(ws[|os|].cities) <==> EnoughSupply(ws[0]))
  {
    SettledInTime(dist, ws, os, far);
    BalanceKeepsEnough(dist, ws, os, far, |os|);
  }

  /** How a simulation stops by itself when the bound lies below the turn limit: with every city satisfied, and then
      within the bound, if and only if what is left aboard covers what is left to ask for and none of it is
      overlooked.  In exact unloads of loads without repetition that is a condition on the start. */
  lemma StopsSatisfied(dist: seq<seq<int>>, ws: seq<World>, os: seq<seq<nat>>, far: nat)
    requires GoodRun(dist, ws, os, far) && Initial(ws[0]) && 2 * (far + 1) * Work(ws[0]) <= MAX_TURNS
    requires !Continues(ws[|os|].cities, |os|)
    ensures AllMet(ws[|os|].cities) <==> EnoughSupply(ws[|os|]) && NoneOverlookedIn(ws[|os|])
    ensures AllMet(ws[|os|].cities) ==> |os| <= 2 * (far + 1) * Work(ws[0])
    ensures ExactRun(ws, os) ==> (AllMet(ws[|os|].cities) <==> EnoughSupply(ws[0]) && NoneOverlookedIn(ws[|os|]))
    ensures ExactRun(ws, os) && UniqueLoads(ws[0].planes) ==> (AllMet(ws[|os|].cities) <==> EnoughSupply(ws[0]))
  {
    BoundaryIsValid(dist, ws, os, far, |os|);
    if AllMet(ws[|os|].cities) {
      MetIsCovered(ws[|os|]);
      MetWithinBound(dist, ws, os, far);
    } else {
      SettledInTime(dist, ws, os, far);
    }
    if ExactRun(ws, os) {
      BalanceKeepsEnough(dist, ws, os, far, |os|);
    }
    if UniqueLoads(ws[0].planes) {
      UniqueNeverOverlooked(dist, ws, os, far, |os|);
    }
  }

  /** A run that ends with every city satisfied is no longer than the bound: after it nothing changes any more. */
  lemma MetWithinBound(dist: seq<seq<int>>, ws: seq<World>, os: seq<seq<nat>>, far: nat)
    requires GoodRun(dist, ws, os, far) && AllMet(ws[|os|].cities)
    ensures |os| <= 2 * (far + 1) * Work(ws[0])
  {
    Conservation(dist, ws, os, far, 0, 0);
    WorkLater(ws[0], ws[0]);
    var bound := 2 * (far + 1) * Work(ws[0]);
    if |os| > bound {
      PrefixRun(dist, ws, os, far, bound);
      AllRetireInTime(dist, ws[..bound + 1], os[..bound], far);
      NoneActive(ws[bound].planes);
      RetiredForGood(dist, ws, os, bound, |os|);
    }
  }

  lemma PrefixRun(dist: seq<seq<int>>, ws: seq<World>, os: seq<seq<nat>>, far: nat, n: nat)
    requires GoodRun(dist, ws, os, far) && n <= |os|
    ensures GoodRun(dist, ws[..n + 1], os[..n], far)
  {
  }

  /** On a map where no city could take anything for something else the condition on the run is not needed. */
  lemma WellListedIsSatisfied(dist: seq<seq<int>>, ws: seq<World>, os: seq<seq<nat>>, far: nat)
    requires GoodRun(dist, ws, os, far) && Initial(ws[0]) && WellListed(ws[0].cities, ws[0].planes)
    requires |os| >= 2 * (far + 1) * Work(ws[0])
    ensures AllMet(ws[|os|].cities) <==> EnoughSupply(ws[0]) && NoneOverlookedIn(ws[|os|])
    ensures UniqueLoads(ws[0].planes) ==> (AllMet(ws[|os|].cities) <==> EnoughSupply(ws[0]))
  {
    WellListedRunIsExact(dist, ws, os, far);
    SatisfiedInTime(dist, ws, os, far);
  }

  lemma {:induction false} NothingAsked(city: Stocks, q: int)
    requires CityMet(city)
    ensures AmountOf(city, q) == 0
  {
    if city != [] {
      NothingAsked(city[1..], q);
    }
  }

  lemma {:induction false} MetAsksNothing(cities: seq<Stocks>, q: int)
    requires AllMet(cities)
    ensures Sum(cities, Only(q)) == 0
  {
    if cities != [] {
      NothingAsked(cities[0], q);
      MetAsksNothing(cities[1..], q);
    }
  }

  lemma LoadsNotNegative(planes: seq<Plane>, q: int)
    requires forall p | 0 <= p < |planes| :: NonNegative(planes[p].load)
    ensures Sum(Loads(planes), Only(q)) >= 0
  {
    SumMonotone(Loads(planes), Loads(planes), Only(q));
  }

  // ---------------------------------------------------------------- enough may not be enough

  lemma FirstServedIsLanded(w: World, order: seq<nat>)
    requires IsOrder(w, order)
    ensures order != [] ==> order[0] < |w.planes| && !w.planes[order[0]].done
  {
  }

  /** Once every plane has retired the cities stay as they are. */
  lemma {:induction false} RetiredForGood(dist: seq<seq<int>>, ws: seq<World>, os: seq<seq<nat>>, from: nat, i: nat)
    requires Run(dist, ws, os) && from <= i < |ws|
    requires forall p | 0 <= p < |ws[from].planes| :: ws[from].planes[p].done
    ensures ws[i] == ws[from]
    decreases i
  {
    if i > from {
      RetiredForGood(dist, ws, os, from, i - 1);
      assert Turn(dist, ws[i - 1], os[i - 1], ws[i]);
      FirstServedIsLanded(ws[i - 1], os[i - 1]);
      assert ws[i].planes == ws[i - 1].planes;
    }
  }

  /** Two planes in the same city, each product in exactly the amount asked for; the plane served first has what
      the other city needs, and hands it over here. */
  function Mixed(): World {
    World([[Item(1, 10)], [Item(0, 10)]],
          [Plane(0, 0, [Item(0, 10)], false), Plane(0, 0, [Item(1, 10)], false)])
  }

  function AfterMixed(): World {
    World([[Item(1, 0)], [Item(0, 10)]],
          [Plane(0, 0, [Item(0, 0)], true), Plane(0, 0, [Item(1, 10)], true)])
  }

  lemma MixedIsEnough()
    ensures Initial(Mixed()) && EnoughSupply(Mixed()) && UniqueLoads(Mixed().planes)
  {
    var w := Mixed();
    forall q: int ensures Demand(w, Only(q)) <= Supply(w, Only(q)) {
      SingleAmount(1, 10, q);
      SingleAmount(0, 10, q);
      PairSum([Item(1, 10)], [Item(0, 10)], q);
      PairSum([Item(0, 10)], [Item(1, 10)], q);
      assert Loads(w.planes) == [[Item(0, 10)], [Item(1, 10)]];
    }
  }

  lemma SingleAmount(p: int, x: int, q: int)
    ensures AmountOf([Item(p, x)], q) == if p == q then x else 0
  {
    assert [Item(p, x)][1..] == [];
  }

  lemma PairSum(a: Stocks, b: Stocks, q: int)
    ensures Sum([a, b], Only(q)) == AmountOf(a, q) + AmountOf(b, q)
  {
    assert [a, b][1..] == [b] && [b][1..] == [];
    assert Sum([b], Only(q)) == Weigh(b, Only(q)) + Sum([], Only(q));
  }

  lemma MixedUnloads()
    ensures var mid := UnloadAll(Mixed(), [0, 1]);
            && mid.cities == AfterMixed().cities
            && mid.planes == [Plane(0, 0, [Item(0, 0)], true), Plane(0, 0, [Item(1, 10)], false)]
  {
    var w := Mixed();
    MisdeliveryExample();
    var w1 := UnloadAt(w, 0);
    assert w1.cities == AfterMixed().cities;
    assert w1.planes[1] == w.planes[1];
    assert Unload([Item(1, 0)], [Item(1, 10)]) == ([Item(1, 0)], [Item(1, 10)]) by {
      assert Find([Item(1, 0)], 1) == 0;
      assert [Item(1, 0)][0 := Item(1, 0)] == [Item(1, 0)];
      assert [Item(1, 10)][1..] == [];
      assert [Item(1, 10)] + [] == [Item(1, 10)];
    }
    assert [0, 1][1..] == [1] && [1][1..] == [];
    var w2 := UnloadAt(w1, 1);
    assert w2.cities == w1.cities;
    assert w2.planes == [Plane(0, 0, [Item(0, 0)], true), Plane(0, 0, [Item(1, 10)], false)];
    assert UnloadAll(w1, [1]) == UnloadAll(w2, []) == w2;
  }

  lemma MixedAnswer(l: seq<CityInfo>)
    requires Answer(AfterMixed().cities, TWO_CITIES, 0, [Item(1, 10)], l) || l == []
    ensures Answer(AfterMixed().cities, TWO_CITIES, 0, [Item(1, 10)], l) && l == []
  {
    var cities, load := AfterMixed().cities, [Item(1, 10)];
    assert cities[0][1..] == [] && cities[1][1..] == [];
    assert Find(load, 1) == 0;
    assert load[1..] == [];
    assert Find(load, 0) == 1;
    assert Score(cities[0], load) == 0 && Score(cities[1], load) == 0;
    assert Kept(cities, TWO_CITIES, 0, load, 1) == [];
    assert Kept(cities, TWO_CITIES, 0, load, 2) == [];
    assert |multiset(l)| == |l|;
  }

  const TWO_CITIES: seq<seq<int>> := [[0, 1], [1, 0]]

  lemma MixedTurn()
    ensures Turn(TWO_CITIES, Mixed(), [0, 1], AfterMixed())
  {
    MixedUnloads();
    MixedAnswer([]);
    var w, mid, after := Mixed(), UnloadAll(Mixed(), [0, 1]), AfterMixed();
    assert IsOrder(w, [0, 1]) by {
      assert [0, 1][0] == 0 && [0, 1][1] == 1;
    }
    assert Choose(mid.planes[1], []) == after.planes[1];
    assert Decide(TWO_CITIES, mid.cities, mid.planes[1], after.planes[1]);
    assert Decide(TWO_CITIES, mid.cities, mid.planes[0], after.planes[0]);
  }

  /** A city that still asks for something when every plane has retired is never served. */
  lemma NeverServed(dist: seq<seq<int>>, ws: seq<World>, os: seq<seq<nat>>, i: nat, c: nat, k: nat)
    requires Run(dist, ws, os) && i < |ws| && forall p | 0 <= p < |ws[0].planes| :: ws[0].planes[p].done
    requires c < |ws[0].cities| && k < |ws[0].cities[c]| && ws[0].cities[c][k].amount > 0
    ensures !AllMet(ws[i].cities)
  {
    RetiredForGood(dist, ws, os, 0, i);
    assert !CityMet(ws[i].cities[c]);
  }

  /** So enough supply of every product alone does not satisfy every city: here every plane retires in the first
      turn, and in no run that goes on from there is the second city ever served. */
  lemma EnoughMayNotBeEnough(ws: seq<World>, os: seq<seq<nat>>, i: nat)
    requires Run(TWO_CITIES, ws, os) && ws[0] == AfterMixed() && i < |ws|
    ensures Initial(Mixed()) && EnoughSupply(Mixed()) && UniqueLoads(Mixed().planes)
    ensures Turn(TWO_CITIES, Mixed(), [0, 1], AfterMixed())
    ensures !AllMet(ws[i].cities)
  {
    MixedIsEnough();
    MixedTurn();
    NeverServed(TWO_CITIES, ws, os, i, 1, 0);
  }

  // ---------------------------------------------------------------- a product listed twice

  /** One plane with the same product twice, each time what one of the two cities asks for. */
  function Twice(): World {
    World([[Item(0, 5)], [Item(0, 5)]], [Plane(0, 0, [Item(0, 5), Item(0, 5)], false)])
  }

  function AfterTwice(): World {
    World([[Item(0, 0)], [Item(0, 5)]], [Plane(0, 0, [Item(0, 0), Item(0, 5)], true)])
  }

  lemma TwiceIsEnough()
    ensures Initial(Twice()) && WellListed(Twice().cities, Twice().planes) && EnoughSupply(Twice())
  {
    var w := Twice();
    forall q: int ensures Demand(w, Only(q)) <= Supply(w, Only(q)) {
      SingleAmount(0, 5, q);
      PairSum([Item(0, 5)], [Item(0, 5)], q);
      assert [Item(0, 5), Item(0, 5)][1..] == [Item(0, 5)];
      assert Loads(w.planes) == [[Item(0, 5), Item(0, 5)]];
      assert Loads(w.planes)[1..] == [];
    }
  }

  lemma UnloadTwo(city: Stocks, a: Item, b: Item)
    requires city != []
    ensures var (c, a') := Offer(city, a);
            var (c', b') := Offer(c, b);
            Unload(city, [a, b]) == (c', [a', b'])
  {
    var (c, a') := Offer(city, a);
    var (c', b') := Offer(c, b);
    assert [a, b][1..] == [b] && [b][1..] == [];
    var none: Stocks := [];
    assert Unload(c', none) == (c', none) && [b'] + none == [b'];
    assert Unload(c, [b]) == (c', [b']);
    assert [a'] + [b'] == [a', b'];
  }

  lemma TwiceUnloads()
    ensures var mid := UnloadAll(Twice(), [0]);
            mid.cities == AfterTwice().cities && mid.planes == [Plane(0, 0, [Item(0, 0), Item(0, 5)], false)]
  {
    var w, item := Twice(), Item(0, 5);
    UnloadTwo([item], item, item);
    assert [item][0 := Item(0, 0)] == [Item(0, 0)];
    assert Offer([item], item) == ([Item(0, 0)], Item(0, 0));
    assert [Item(0, 0)][0 := Item(0, 0)] == [Item(0, 0)];
    assert Offer([Item(0, 0)], item) == ([Item(0, 0)], item);
    var mid := UnloadAt(w, 0);
    assert [Item(0, 0), item][1].amount == 5 && !Spent([Item(0, 0), item]);
    assert mid.cities == AfterTwice().cities && mid.planes == [Plane(0, 0, [Item(0, 0), item], false)];
    assert [0][1..] == [];
    assert UnloadAll(w, [0]) == UnloadAll(mid, []) == mid;
  }

  lemma TwiceAnswer()
    ensures Answer(AfterTwice().cities, TWO_CITIES, 0, [Item(0, 0), Item(0, 5)], [])
  {
    var cities, load := AfterTwice().cities, [Item(0, 0), Item(0, 5)];
    assert cities[0][1..] == [] && cities[1][1..] == [];
    assert Find(load, 0) == 0;
    assert Score(cities[0], load) == 0 && Score(cities[1], load) == 0;
    assert Kept(cities, TWO_CITIES, 0, load, 1) == [];
    assert Kept(cities, TWO_CITIES, 0, load, 2) == [];
  }

  lemma TwiceTurn()
    ensures Turn(TWO_CITIES, Twice(), [0], AfterTwice())
  {
    TwiceUnloads();
    TwiceAnswer();
    var w, mid, after := Twice(), UnloadAll(Twice(), [0]), AfterTwice();
    assert IsOrder(w, [0]) by {
      assert [0][0] == 0;
    }
    assert Choose(mid.planes[0], []) == after.planes[0];
    assert Decide(TWO_CITIES, mid.cities, mid.planes[0], after.planes[0]);
  }

  /** The score looks at the first entry of a product only.  Here the plane empties it, keeps the second, which
      the other city asks for, and retires; so the exception in `RetirementInGoods` is real, and enough supply
      of well-listed products does not satisfy every city when a load repeats one. */
  lemma RepeatedLoadIsStranded(ws: seq<World>, os: seq<seq<nat>>, i: nat)
    requires Run(TWO_CITIES, ws, os) && ws[0] == AfterTwice() && i < |ws|
    ensures Initial(Twice()) && WellListed(Twice().cities, Twice().planes) && EnoughSupply(Twice())
    ensures Turn(TWO_CITIES, Twice(), [0], AfterTwice())
    ensures AfterTwice().planes[0].done && Wanted(AfterTwice().cities[1], AfterTwice().planes[0].load, 0, 1)
    ensures !AllMet(ws[i].cities)
  {
    TwiceIsEnough();
    TwiceTurn();
    NeverServed(TWO_CITIES, ws, os, i, 1, 0);
  }
}
