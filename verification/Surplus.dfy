/** How much supply is sure to satisfy every city. */
module Surplus {
  // What is exchanged against the last entry of a city that does not list it is lost.  A city can swallow no more than
  // that entry asks for, so a surplus of that size, city by city, makes up for everything that can be lost.

  import opened Delivery
  import opened Turns
  import opened Runs

  /** What a city would take of product q for something else: all its last entry asks for, unless it lists q. */
  ghost function ExposedAt(city: Stocks, q: int): int {
    if city == [] || Find(city, q) < |city| then 0 else city[|city| - 1].amount
  }

  ghost function Exposed(cities: seq<Stocks>, q: int): int {
    if cities == [] then 0 else ExposedAt(cities[0], q) + Exposed(cities[1..], q)
  }

  /** Of every product that is asked for the planes carry what is asked for and what can be lost on the way. */
  ghost predicate Ample(w: World) {
    forall q: int ::
      Demand(w, Only(q)) > 0 ==> Demand(w, Only(q)) + Exposed(w.cities, q) <= Supply(w, Only(q))
  }

  // ---------------------------------------------------------------- one unload

  ghost function Of(item: Item, q: int): int { if item.product == q then item.amount else 0 }

  /** What one item costs in goods q the city gains in demand for q or loses in what it can still swallow. */
  lemma OfferExposes(city: Stocks, item: Item, q: int)
    requires city != [] && NonNegative(city) && item.amount >= 0
    ensures var (c, it) := Offer(city, item);
            AmountOf(c, q) + ExposedAt(c, q) - Of(it, q) <= AmountOf(city, q) + ExposedAt(city, q) - Of(item, q)
  {
    var j := Target(city, item.product);
    var (c, it) := Offer(city, item);
    OfferKeeps(city, item);
    AmountOfUpdate(city, j, c[j], q);
    FindSameProducts(c, city, q);
  }

  lemma {:induction false} UnloadExposes(city: Stocks, load: Stocks, q: int)
    requires city != [] || load == []
    requires NonNegative(city) && NonNegative(load)
    ensures var (c, p) := Unload(city, load);
            AmountOf(c, q) + ExposedAt(c, q) - AmountOf(p, q)
            <= AmountOf(city, q) + ExposedAt(city, q) - AmountOf(load, q)
    decreases |load|
  {
    if load != [] {
      OfferExposes(city, load[0], q);
      OfferKeeps(city, load[0]);
      UnloadExposes(Offer(city, load[0]).0, load[1..], q);
      UnloadAmounts(city, load, q);
    }
  }

  // ---------------------------------------------------------------- runs

  /** How much of product q can come to be missing. */
  ghost function Lack(w: World, q: int): int {
    Balance(w, Only(q)) + Exposed(w.cities, q)
  }

  lemma {:induction false} ExposedUpdate(cities: seq<Stocks>, c: nat, x: Stocks, q: int)
    requires c < |cities|
    ensures Exposed(cities[c := x], q) == Exposed(cities, q) - ExposedAt(cities[c], q) + ExposedAt(x, q)
  {
    if c == 0 {
      assert cities[c := x][1..] == cities[1..];
    } else {
      assert cities[c := x][1..] == cities[1..][c - 1 := x];
      ExposedUpdate(cities[1..], c - 1, x, q);
    }
  }

  lemma {:induction false} ExposedNotNegative(cities: seq<Stocks>, q: int)
    requires forall c | 0 <= c < |cities| :: NonNegative(cities[c])
    ensures Exposed(cities, q) >= 0
  {
    if cities != [] {
      ExposedNotNegative(cities[1..], q);
    }
  }

  lemma UnloadAtLacks(w: World, p: nat, q: int)
    requires Valid(w) && p < |w.planes|
    ensures Lack(UnloadAt(w, p), q) <= Lack(w, q)
  {
    var r, pl := UnloadAt(w, p), w.planes[p];
    var (city, load) := Unload(w.cities[pl.city], pl.load);
    UnloadExposes(w.cities[pl.city], pl.load, q);
    SumUpdate(w.cities, pl.city, city, Only(q));
    SumUpdate(Loads(w.planes), p, load, Only(q));
    assert Loads(r.planes) == Loads(w.planes)[p := load];
    ExposedUpdate(w.cities, pl.city, city, q);
  }

  lemma {:induction false} UnloadAllLacks(w: World, order: seq<nat>, q: int)
    requires Valid(w) && Serves(w, order)
    ensures Lack(UnloadAll(w, order), q) <= Lack(w, q)
    decreases |order|
  {
    if order != [] {
      UnloadAtKeeps(w, order[0], Everything);
      ServesRest(w, order);
      UnloadAtLacks(w, order[0], q);
      UnloadAllLacks(UnloadAt(w, order[0]), order[1..], q);
    }
  }

  lemma TurnLacks(dist: seq<seq<int>>, w: World, order: seq<nat>, w': World, far: nat, q: int)
    requires Valid(w) && Routes(dist, |w.cities|, far) && Turn(dist, w, order, w')
    ensures Lack(w', q) <= Lack(w, q)
  {
    var mid := UnloadAll(w, order);
    UnloadAllLacks(w, order, q);
    UnloadAllKeeps(w, order, Everything);
    forall p | 0 <= p < |w.planes| ensures w'.planes[p].load == mid.planes[p].load {
      DecideKeeps(dist, mid.cities, mid.planes[p], w'.planes[p], far);
    }
    assert Loads(w'.planes) == Loads(mid.planes);
  }

  /** Whatever is misdelivered, no more of a product comes to be missing than was exposed. */
  lemma {:induction false} LackNeverGrows(dist: seq<seq<int>>, ws: seq<World>, os: seq<seq<nat>>, far: nat, j: nat,
                                          q: int)
    requires GoodRun(dist, ws, os, far) && j < |ws|
    ensures Lack(ws[j], q) <= Lack(ws[0], q)
  {
    if j > 0 {
      LackNeverGrows(dist, ws, os, far, j - 1, q);
      BoundaryIsValid(dist, ws, os, far, j - 1);
      assert Turn(dist, ws[j - 1], os[j - 1], ws[j]);
      TurnLacks(dist, ws[j - 1], os[j - 1], ws[j], far, q);
    }
  }

  /** Ample goods stay ample. */
  lemma AmpleStays(dist: seq<seq<int>>, ws: seq<World>, os: seq<seq<nat>>, far: nat, j: nat)
    requires GoodRun(dist, ws, os, far) && j < |ws| && Ample(ws[0])
    ensures Ample(ws[j])
  {
    Conservation(dist, ws, os, far, 0, j);
    forall q: int | Demand(ws[j], Only(q)) > 0
      ensures Demand(ws[j], Only(q)) + Exposed(ws[j].cities, q) <= Supply(ws[j], Only(q))
    {
      SumMonotone(ws[j].cities, ws[0].cities, Only(q));
      assert Demand(ws[0], Only(q)) > 0;
      LackNeverGrows(dist, ws, os, far, j, q);
    }
  }

  lemma AmpleIsEnough(w: World)
    requires Valid(w) && Ample(w)
    ensures EnoughSupply(w)
  {
    forall q: int ensures Demand(w, Only(q)) <= Supply(w, Only(q)) {
      ExposedNotNegative(w.cities, q);
      LoadsNotNegative(w.planes, q);
    }
  }

  // ---------------------------------------------------------------- satisfaction

  /** Once every plane has retired, goods that were ample at the start have satisfied every city, but for those that
      are overlooked; in loads without repetition none are. */
  lemma AmpleSatisfies(dist: seq<seq<int>>, ws: seq<World>, os: seq<seq<nat>>, far: nat)
    requires GoodRun(dist, ws, os, far) && Initial(ws[0]) && Ample(ws[0]) && Active(ws[|os|].planes) == 0
    ensures AllMet(ws[|os|].cities) <==> NoneOverlookedIn(ws[|os|])
    ensures UniqueLoads(ws[0].planes) ==> AllMet(ws[|os|].cities)
  {
    RetiredIffCovered(dist, ws, os, far);
    AmpleStays(dist, ws, os, far, |os|);
    Conservation(dist, ws, os, far, 0, |os|);
    AmpleIsEnough(ws[|os|]);
    if UniqueLoads(ws[0].planes) {
      UniqueNeverOverlooked(dist, ws, os, far, |os|);
    }
  }

  /** They do so within the bound after which every plane has retired. */
  lemma AmpleInTime(dist: seq<seq<int>>, ws: seq<World>, os: seq<seq<nat>>, far: nat)
    requires GoodRun(dist, ws, os, far) && Initial(ws[0]) && Ample(ws[0])
    requires |os| >= 2 * (far + 1) * Work(ws[0])
    ensures AllMet(ws[|os|].cities) <==> NoneOverlookedIn(ws[|os|])
    ensures UniqueLoads(ws[0].planes) ==> AllMet(ws[|os|].cities)
  {
    AllRetireInTime(dist, ws, os, far);
    AmpleSatisfies(dist, ws, os, far);
  }

  /** A simulation with ample goods, and a bound within the turn limit, stops by itself with every city satisfied. */
  lemma AmpleStops(dist: seq<seq<int>>, ws: seq<World>, os: seq<seq<nat>>, far: nat)
    requires GoodRun(dist, ws, os, far) && Initial(ws[0]) && Ample(ws[0]) && UniqueLoads(ws[0].planes)
    requires 2 * (far + 1) * Work(ws[0]) <= MAX_TURNS && !Continues(ws[|os|].cities, |os|)
    ensures AllMet(ws[|os|].cities) && |os| <= 2 * (far + 1) * Work(ws[0])
  {
    StopsSatisfied(dist, ws, os, far);
    if !AllMet(ws[|os|].cities) {
      AmpleInTime(dist, ws, os, far);
    }
  }

  // ---------------------------------------------------------------- maps that need no surplus

  /** A city whose last entry asks for something lists every product that is asked for anywhere. */
  ghost predicate Tolerant(cities: seq<Stocks>) {
    forall c, q: int | 0 <= c < |cities| && Sum(cities, Only(q)) > 0 :: Takes(cities[c], Item(q, 0))
  }

  lemma {:induction false} NothingExposedIff(cities: seq<Stocks>, q: int)
    requires forall c | 0 <= c < |cities| :: NonNegative(cities[c])
    ensures Exposed(cities, q) == 0 <==> forall c | 0 <= c < |cities| :: Takes(cities[c], Item(q, 0))
  {
    if cities != [] {
      NothingExposedIff(cities[1..], q);
      ExposedNotNegative(cities[1..], q);
      assert forall c | 0 < c < |cities| :: cities[c] == cities[1..][c - 1];
    }
  }

  /** On a tolerant map enough is ample. */
  lemma TolerantIsAmple(w: World)
    requires Valid(w) && Tolerant(w.cities) && EnoughSupply(w)
    ensures Ample(w)
  {
    forall q: int | Demand(w, Only(q)) > 0
      ensures Demand(w, Only(q)) + Exposed(w.cities, q) <= Supply(w, Only(q))
    {
      NothingExposedIff(w.cities, q);
      assert forall c | 0 <= c < |w.cities| :: Takes(w.cities[c], Item(q, 0));
      assert Demand(w, Only(q)) <= Supply(w, Only(q));
    }
  }

  /** On no other map is it enough to carry just what is asked for. */
  lemma AmpleIsTolerant(w: World)
    requires Valid(w) && Ample(w) && forall q: int :: Supply(w, Only(q)) == Demand(w, Only(q))
    ensures Tolerant(w.cities)
  {
    forall c, q: int | 0 <= c < |w.cities| && Sum(w.cities, Only(q)) > 0 ensures Takes(w.cities[c], Item(q, 0)) {
      assert Demand(w, Only(q)) > 0;
      ExposedNotNegative(w.cities, q);
      NothingExposedIff(w.cities, q);
    }
  }

  /** Where no city could take anything for something else the map is tolerant. */
  lemma WellListedIsTolerant(w: World)
    requires Valid(w) && WellListed(w.cities, w.planes) && EnoughSupply(w)
    ensures Tolerant(w.cities)
  {
    forall c, q: int | 0 <= c < |w.cities| && Sum(w.cities, Only(q)) > 0 ensures Takes(w.cities[c], Item(q, 0)) {
      assert Demand(w, Only(q)) <= Supply(w, Only(q));
      var p, i := PositiveSomewhere(Loads(w.planes), q);
      assert Takes(w.cities[c], w.planes[p].load[i]);
    }
  }

  // ---------------------------------------------------------------- a guard for every map

  /** Every city lists product q as well, last, and asks for none of it. */
  ghost function Guarded(cities: seq<Stocks>, q: int): (r: seq<Stocks>)
    ensures |r| == |cities| && forall c | 0 <= c < |r| :: r[c] == cities[c] + [Item(q, 0)]
  {
    seq(|cities|, c requires 0 <= c < |cities| => cities[c] + [Item(q, 0)])
  }

  lemma {:induction false} GuardWeighs(city: Stocks, q: int, m: Measure)
    ensures Weigh(city + [Item(q, 0)], m) == Weigh(city, m)
    decreases |city|
  {
    if city == [] {
      assert city + [Item(q, 0)] == [Item(q, 0)] && [Item(q, 0)][1..] == [];
    } else {
      assert (city + [Item(q, 0)])[1..] == city[1..] + [Item(q, 0)];
      GuardWeighs(city[1..], q, m);
    }
  }

  lemma {:induction false} GuardedSum(cities: seq<Stocks>, q: int, m: Measure)
    ensures Sum(Guarded(cities, q), m) == Sum(cities, m)
    decreases |cities|
  {
    if cities != [] {
      assert Guarded(cities, q)[1..] == Guarded(cities[1..], q);
      GuardedSum(cities[1..], q, m);
      GuardWeighs(cities[0], q, m);
    }
  }

  ghost predicate Unlisted(cities: seq<Stocks>, q: int) {
    forall c | 0 <= c < |cities| :: Find(cities[c], q) == |cities[c]|
  }

  lemma GuardedStart(w: World, q: int)
    requires AllLanded(w) && Unlisted(w.cities, q)
    ensures var g := World(Guarded(w.cities, q), w.planes);
            && Initial(g) && WellListed(g.cities, g.planes) && Work(g) == Work(w)
            && (EnoughSupply(g) <==> EnoughSupply(w))
  {
    var g := World(Guarded(w.cities, q), w.planes);
    forall r: int ensures Demand(g, Only(r)) == Demand(w, Only(r)) {
      GuardedSum(w.cities, q, Only(r));
    }
    GuardedSum(w.cities, q, Everything);
    forall c | 0 <= c < |g.cities| ensures NonNegative(g.cities[c]) && UniqueProducts(g.cities[c]) {
      assert Find(w.cities[c], q) == |w.cities[c]|;
    }
    EnoughIffBalance(g);
    EnoughIffBalance(w);
    assert forall r: int :: Balance(g, Only(r)) == Balance(w, Only(r));
  }

  /** With such an entry added to every city, any map at all is served as meant: every run is defined, and once it has
      settled all cities are satisfied if and only if there was enough of every product, for loads without
      repetition; for others nothing may be overlooked either. */
  lemma GuardedIsSatisfied(dist: seq<seq<int>>, ws: seq<World>, os: seq<seq<nat>>, far: nat, w: World, q: int)
    requires AllLanded(w) && Unlisted(w.cities, q) && Routes(dist, |w.cities|, far)
    requires Run(dist, ws, os) && ws[0] == World(Guarded(w.cities, q), w.planes)
    requires |os| >= 2 * (far + 1) * Work(w)
    ensures Initial(ws[0])
    ensures AllMet(ws[|os|].cities) <==> EnoughSupply(w) && NoneOverlookedIn(ws[|os|])
    ensures UniqueLoads(w.planes) ==> (AllMet(ws[|os|].cities) <==> EnoughSupply(w))
  {
    GuardedStart(w, q);
    WellListedIsSatisfied(dist, ws, os, far);
  }
}
