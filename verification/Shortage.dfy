/** Less supply than that can leave a city unserved. */
module Shortage {
  // For any map and any goods that are enough but not ample there is a fleet with no less of anything, and a run of it
  // in which every plane retires in the first turn and one city still asks for something.  The goods that can be lost
  // are where they are lost, and are served first.

  import opened Delivery
  import opened Turns
  import opened Runs
  import opened Surplus

  // ---------------------------------------------------------------- unloads used below

  /** What is left of each amount in a when those in b are taken off. */
  ghost function Difference(a: Stocks, b: Stocks): (r: Stocks)
    requires |a| == |b|
    ensures |r| == |a|
    ensures forall i | 0 <= i < |a| ::
              r[i] == a[i].(amount := if a[i].amount > b[i].amount then a[i].amount - b[i].amount else 0)
  {
    seq(|a|, i requires 0 <= i < |a| =>
      a[i].(amount := if a[i].amount > b[i].amount then a[i].amount - b[i].amount else 0))
  }

  ghost predicate SameProducts(a: Stocks, b: Stocks) {
    |a| == |b| && forall i | 0 <= i < |a| :: a[i].product == b[i].product
  }

  /** The city when the first n entries have been served. */
  ghost function ServedUpTo(city: Stocks, load: Stocks, n: nat): (r: Stocks)
    requires |city| == |load|
    ensures |r| == |city|
    ensures forall i | 0 <= i < |r| :: r[i] == if i < n then Difference(city, load)[i] else city[i]
  {
    seq(|city|, i requires 0 <= i < |city| => if i < n then Difference(city, load)[i] else city[i])
  }

  /** The city between items, and what is left of each. */
  ghost predicate Exchanges(cs: seq<Stocks>, load: Stocks, left: Stocks) {
    && |cs| == |load| + 1 && |left| == |load|
    && (forall i | 0 <= i < |load| :: cs[i] != [] && Offer(cs[i], load[i]) == (cs[i + 1], left[i]))
  }

  lemma {:induction false} ExchangesUnload(cs: seq<Stocks>, load: Stocks, left: Stocks)
    requires Exchanges(cs, load, left)
    ensures cs[0] != [] || load == []
    ensures Unload(cs[0], load) == (cs[|load|], left)
    decreases |load|
  {
    if load == [] {
      assert left == [];
    } else {
      assert cs[1..][0] == cs[1] && forall i | 0 <= i < |load| :: cs[1..][i] == cs[i + 1];
      ExchangesUnload(cs[1..], load[1..], left[1..]);
      assert left == [left[0]] + left[1..];
    }
  }

  /** A load that lists just what the city lists is exchanged entry by entry. */
  lemma MatchedUnload(city: Stocks, load: Stocks)
    requires SameProducts(city, load) && UniqueProducts(city)
    ensures Unload(city, load) == (Difference(city, load), Difference(load, city))
  {
    var n := |city|;
    var cs := seq(n + 1, i requires 0 <= i < n + 1 => ServedUpTo(city, load, i));
    forall i | 0 <= i < n
      ensures cs[i] != [] && Offer(cs[i], load[i]) == (cs[i + 1], Difference(load, city)[i])
    {
      MatchedItem(city, load, i);
    }
    ExchangesUnload(cs, load, Difference(load, city));
    assert ServedUpTo(city, load, 0) == city && ServedUpTo(city, load, n) == Difference(city, load);
  }

  lemma MatchedItem(city: Stocks, load: Stocks, n: nat)
    requires SameProducts(city, load) && UniqueProducts(city) && n < |city|
    ensures Offer(ServedUpTo(city, load, n), load[n]) == (ServedUpTo(city, load, n + 1), Difference(load, city)[n])
  {
    var now := ServedUpTo(city, load, n);
    FindUnique(now, n);
    assert Target(now, load[n].product) == n;
    assert Offer(now, load[n]).0 == ServedUpTo(city, load, n + 1);
  }

  /** A city that asks for nothing takes nothing. */
  lemma {:induction false} MetTakesNothing(city: Stocks, load: Stocks)
    requires city != [] && CityMet(city) && NonNegative(load)
    ensures Unload(city, load) == (city, load)
    decreases |load|
  {
    if load != [] {
      var (c, it) := Offer(city, load[0]);
      assert c == city && it == load[0];
      MetTakesNothing(city, load[1..]);
      assert load == [load[0]] + load[1..];
    }
  }

  lemma LostUnload(city: Stocks, q: int)
    requires ExposedAt(city, q) > 0
    ensures var n := |city| - 1;
            Unload(city, [Item(q, city[n].amount)]) == (city[n := city[n].(amount := 0)], [Item(q, 0)])
  {
    var item := Item(q, city[|city| - 1].amount);
    assert [item][1..] == [];
    var c := Offer(city, item).0;
    assert Unload(c, []) == (c, []);
    assert [Item(q, 0)] + [] == [Item(q, 0)];
  }

  // ---------------------------------------------------------------- the fleet

  /** Where product q falls short: entry k of city d asks for it, and city c can swallow some. */
  ghost predicate Falls(w: World, q: int, c: nat, d: nat, k: nat) {
    && Initial(w) && UniqueLoads(w.planes) && EnoughSupply(w)
    && c < |w.cities| && ExposedAt(w.cities[c], q) > 0
    && d < |w.cities| && k < |w.cities[d]| && w.cities[d][k].product == q && w.cities[d][k].amount > 0
    && Supply(w, Only(q)) < Demand(w, Only(q)) + Exposed(w.cities, q)
  }

  ghost function LostLoad(city: Stocks, q: int): Stocks {
    if ExposedAt(city, q) > 0 then [Item(q, ExposedAt(city, q))] else []
  }

  /** All that can be lost, city by city. */
  ghost function Lost(cities: seq<Stocks>, q: int): (r: seq<Stocks>)
    ensures |r| == |cities| && forall x | 0 <= x < |r| :: r[x] == LostLoad(cities[x], q)
  {
    seq(|cities|, x requires 0 <= x < |cities| => LostLoad(cities[x], q))
  }

  /** All that is asked for, but for one piece of product q in city d. */
  ghost function AllButOne(cities: seq<Stocks>, d: nat, k: nat): seq<Stocks>
    requires d < |cities| && k < |cities[d]|
  {
    cities[d := cities[d][k := cities[d][k].(amount := cities[d][k].amount - 1)]]
  }

  ghost function Without(load: Stocks, q: int): (r: Stocks)
    ensures |r| == |load|
    ensures forall i | 0 <= i < |r| :: r[i] == if load[i].product == q then load[i].(amount := 0) else load[i]
  {
    seq(|load|, i requires 0 <= i < |load| => if load[i].product == q then load[i].(amount := 0) else load[i])
  }

  /** Whatever else the planes of w carry. */
  ghost function Others(planes: seq<Plane>, q: int): (r: seq<Stocks>)
    ensures |r| == |planes| && forall p | 0 <= p < |r| :: r[p] == Without(planes[p].load, q)
  {
    seq(|planes|, p requires 0 <= p < |planes| => Without(planes[p].load, q))
  }

  ghost function NewLoads(w: World, q: int, d: nat, k: nat): seq<Stocks>
    requires d < |w.cities| && k < |w.cities[d]|
  {
    Lost(w.cities, q) + (AllButOne(w.cities, d, k) + Others(w.planes, q))
  }

  /** The city of the p-th plane: one for what it can lose in each city, one for what that city asks for, and the
      others in city c. */
  ghost function Spot(w: World, c: nat, p: nat): nat {
    var n := |w.cities|;
    if p < n then p else if p < 2 * n then p - n else c
  }

  ghost function Fleet(w: World, q: int, c: nat, d: nat, k: nat): (r: seq<Plane>)
    requires d < |w.cities| && k < |w.cities[d]|
    ensures |r| == |NewLoads(w, q, d, k)|
    ensures forall p: nat | p < |r| :: r[p] == Plane(Spot(w, c, p), 0, NewLoads(w, q, d, k)[p], false)
  {
    var loads := NewLoads(w, q, d, k);
    seq(|loads|, p requires 0 <= p < |loads| => Plane(Spot(w, c, p), 0, loads[p], false))
  }

  ghost function NewStart(w: World, q: int, c: nat, d: nat, k: nat): World
    requires d < |w.cities| && k < |w.cities[d]|
  {
    World(w.cities, Fleet(w, q, c, d, k))
  }

  // ---------------------------------------------------------------- it carries enough

  lemma {:induction false} SumAppend(a: seq<Stocks>, b: seq<Stocks>, m: Measure)
    ensures Sum(a + b, m) == Sum(a, m) + Sum(b, m)
    decreases |a|
  {
    if a == [] {
      assert a + b == b;
    } else {
      assert (a + b)[1..] == a[1..] + b;
      SumAppend(a[1..], b, m);
    }
  }

  lemma {:induction false} LostSum(cities: seq<Stocks>, q: int, r: int)
    requires forall x | 0 <= x < |cities| :: NonNegative(cities[x])
    ensures Sum(Lost(cities, q), Only(r)) == if r == q then Exposed(cities, q) else 0
    decreases |cities|
  {
    if cities != [] {
      assert Lost(cities, q)[1..] == Lost(cities[1..], q);
      LostSum(cities[1..], q, r);
      if ExposedAt(cities[0], q) > 0 {
        SingleAmount(q, ExposedAt(cities[0], q), r);
      }
    }
  }

  lemma AllButOneSum(cities: seq<Stocks>, d: nat, k: nat, r: int)
    requires d < |cities| && k < |cities[d]|
    ensures Sum(AllButOne(cities, d, k), Only(r))
            == Sum(cities, Only(r)) - if cities[d][k].product == r then 1 else 0
  {
    var x := cities[d][k].(amount := cities[d][k].amount - 1);
    AmountOfUpdate(cities[d], k, x, r);
    SumUpdate(cities, d, cities[d][k := x], Only(r));
  }

  lemma {:induction false} WithoutAmount(load: Stocks, q: int, r: int)
    ensures AmountOf(Without(load, q), r) == if r == q then 0 else AmountOf(load, r)
    decreases |load|
  {
    if load != [] {
      assert Without(load, q)[1..] == Without(load[1..], q);
      WithoutAmount(load[1..], q, r);
    }
  }

  lemma {:induction false} OthersSum(planes: seq<Plane>, q: int, r: int)
    ensures Sum(Others(planes, q), Only(r)) == if r == q then 0 else Sum(Loads(planes), Only(r))
    decreases |planes|
  {
    if planes != [] {
      assert Others(planes, q)[1..] == Others(planes[1..], q) && Loads(planes)[1..] == Loads(planes[1..]);
      OthersSum(planes[1..], q, r);
      WithoutAmount(planes[0].load, q, r);
    }
  }

  /** No less of anything than w. */
  ghost predicate NoLess(w': World, w: World) {
    forall r: int :: Supply(w', Only(r)) >= Supply(w, Only(r))
  }

  lemma NewSupply(w: World, q: int, c: nat, d: nat, k: nat, r: int)
    requires Falls(w, q, c, d, k)
    ensures Supply(NewStart(w, q, c, d, k), Only(r)) >= Supply(w, Only(r))
  {
    var lost, most, others := Lost(w.cities, q), AllButOne(w.cities, d, k), Others(w.planes, q);
    assert Loads(Fleet(w, q, c, d, k)) == lost + (most + others);
    SumAppend(lost, most + others, Only(r));
    SumAppend(most, others, Only(r));
    LostSum(w.cities, q, r);
    AllButOneSum(w.cities, d, k, r);
    OthersSum(w.planes, q, r);
    SumMonotone(w.cities, w.cities, Only(r));
    LoadsNotNegative(w.planes, r);
    ExposedNotNegative(w.cities, q);
  }

  // ---------------------------------------------------------------- its first turn

  ghost function NoneLeft(s: Stocks): (r: Stocks)
    ensures |r| == |s| && forall i | 0 <= i < |r| :: r[i] == s[i].(amount := 0)
  {
    seq(|s|, i requires 0 <= i < |s| => s[i].(amount := 0))
  }

  /** A city after it has swallowed what it can. */
  ghost function Swallowed(city: Stocks, q: int): Stocks {
    if ExposedAt(city, q) > 0 then city[|city| - 1 := city[|city| - 1].(amount := 0)] else city
  }

  /** City x at the end: all it asked for has come, but for the one piece. */
  ghost function Served(w: World, d: nat, k: nat, x: nat): (r: Stocks)
    requires x < |w.cities|
    ensures |r| == |w.cities[x]|
    ensures forall i | 0 <= i < |r| :: r[i] == w.cities[x][i].(amount := if x == d && i == k then 1 else 0)
  {
    seq(|w.cities[x]|, i requires 0 <= i < |w.cities[x]| =>
      w.cities[x][i].(amount := if x == d && i == k then 1 else 0))
  }

  /** City x when t planes have been served. */
  ghost function CityAt(w: World, q: int, d: nat, k: nat, x: nat, t: nat): Stocks
    requires x < |w.cities|
  {
    if t <= x then w.cities[x]
    else if t <= |w.cities| + x then Swallowed(w.cities[x], q)
    else Served(w, d, k, x)
  }

  /** What the p-th plane is left with. */
  ghost function LoadAfter(w: World, q: int, d: nat, k: nat, p: nat): Stocks
    requires d < |w.cities| && k < |w.cities[d]| && p < |NewLoads(w, q, d, k)|
  {
    var n := |w.cities|;
    if p < n then NoneLeft(LostLoad(w.cities[p], q))
    else if p < 2 * n then Difference(w.cities[p - n], Swallowed(w.cities[p - n], q))
    else NewLoads(w, q, d, k)[p]
  }

  ghost function PlaneAt(w: World, q: int, c: nat, d: nat, k: nat, p: nat, t: nat): Plane
    requires d < |w.cities| && k < |w.cities[d]| && p < |NewLoads(w, q, d, k)|
  {
    if p < t then Plane(Spot(w, c, p), 0, LoadAfter(w, q, d, k, p), Spent(LoadAfter(w, q, d, k, p)))
    else Fleet(w, q, c, d, k)[p]
  }

  /** The state when t planes have been served. */
  ghost function StateAt(w: World, q: int, c: nat, d: nat, k: nat, t: nat): (r: World)
    requires d < |w.cities| && k < |w.cities[d]|
    ensures |r.cities| == |w.cities| && |r.planes| == |NewLoads(w, q, d, k)|
    ensures forall x: nat | x < |r.cities| :: r.cities[x] == CityAt(w, q, d, k, x, t)
    ensures forall p: nat | p < |r.planes| :: r.planes[p] == PlaneAt(w, q, c, d, k, p, t)
  {
    World(seq(|w.cities|, x requires 0 <= x < |w.cities| => CityAt(w, q, d, k, x, t)),
          seq(|NewLoads(w, q, d, k)|, p requires 0 <= p < |NewLoads(w, q, d, k)| => PlaneAt(w, q, c, d, k, p, t)))
  }

  lemma NewLoadAt(w: World, q: int, d: nat, k: nat, t: nat)
    requires d < |w.cities| && k < |w.cities[d]| && t < |NewLoads(w, q, d, k)|
    ensures |NewLoads(w, q, d, k)| == 2 * |w.cities| + |w.planes|
    ensures var n := |w.cities|;
            NewLoads(w, q, d, k)[t] == if t < n then LostLoad(w.cities[t], q)
                                       else if t < 2 * n then AllButOne(w.cities, d, k)[t - n]
                                       else Without(w.planes[t - 2 * n].load, q)
  {
  }

  /** The t-th plane's exchange leads from one state to the next. */
  ghost predicate LeadsOn(w: World, q: int, c: nat, d: nat, k: nat, t: nat, load: Stocks, left: Stocks)
  {
    var x := Spot(w, c, t);
    && x < |w.cities| && (CityAt(w, q, d, k, x, t) != [] || load == [])
    && Unload(CityAt(w, q, d, k, x, t), load) == (CityAt(w, q, d, k, x, t + 1), left)
  }

  /** What the t-th plane exchanges. */
  lemma TurnOf(w: World, q: int, c: nat, d: nat, k: nat, t: nat)
    requires Falls(w, q, c, d, k) && t < |NewLoads(w, q, d, k)|
    ensures LeadsOn(w, q, c, d, k, t, NewLoads(w, q, d, k)[t], LoadAfter(w, q, d, k, t))
  {
    NewLoadAt(w, q, d, k, t);
    LoadAfterAt(w, q, d, k, t);
    LeadOn(w, q, c, d, k, t, NewLoads(w, q, d, k)[t], LoadAfter(w, q, d, k, t));
  }

  lemma LoadAfterAt(w: World, q: int, d: nat, k: nat, t: nat)
    requires d < |w.cities| && k < |w.cities[d]| && t < |NewLoads(w, q, d, k)| == 2 * |w.cities| + |w.planes|
    requires t >= 2 * |w.cities| ==> NewLoads(w, q, d, k)[t] == Without(w.planes[t - 2 * |w.cities|].load, q)
    ensures var n := |w.cities|;
            LoadAfter(w, q, d, k, t)
            == if t < n then NoneLeft(LostLoad(w.cities[t], q))
               else if t < 2 * n then Difference(w.cities[t - n], Swallowed(w.cities[t - n], q))
               else Without(w.planes[t - 2 * n].load, q)
  {
  }

  lemma LeadOn(w: World, q: int, c: nat, d: nat, k: nat, t: nat, load: Stocks, left: Stocks)
    requires Falls(w, q, c, d, k) && t < 2 * |w.cities| + |w.planes|
    requires var n := |w.cities|;
             && load == (if t < n then LostLoad(w.cities[t], q)
                         else if t < 2 * n then AllButOne(w.cities, d, k)[t - n]
                         else Without(w.planes[t - 2 * n].load, q))
             && left == (if t < n then NoneLeft(LostLoad(w.cities[t], q))
                         else if t < 2 * n then Difference(w.cities[t - n], Swallowed(w.cities[t - n], q))
                         else Without(w.planes[t - 2 * n].load, q))
    ensures LeadsOn(w, q, c, d, k, t, load, left)
  {
    var n, x := |w.cities|, Spot(w, c, t);
    Stages(w, q, c, d, k, t);
    var before, after := CityAt(w, q, d, k, x, t), CityAt(w, q, d, k, x, t + 1);
    if t < n {
      LoseUnload(w.cities[t], q);
      assert Unload(before, load) == (after, left);
    } else if t < 2 * n {
      AskedUnload(w, q, c, d, k, t - n);
      assert Unload(before, load) == (after, left);
    } else {
      OtherUnload(w, q, c, d, k, w.planes[t - 2 * n].load);
      assert Unload(before, load) == (after, left);
    }
  }

  /** The city of the t-th plane, before and after that plane is served. */
  lemma Stages(w: World, q: int, c: nat, d: nat, k: nat, t: nat)
    requires c < |w.cities|
    ensures var n, x := |w.cities|, Spot(w, c, t);
            && x < n
            && CityAt(w, q, d, k, x, t) == (if t < n then w.cities[x]
                                            else if t < 2 * n then Swallowed(w.cities[x], q)
                                            else Served(w, d, k, x))
            && CityAt(w, q, d, k, x, t + 1) == (if t < n then Swallowed(w.cities[x], q) else Served(w, d, k, x))
  {
  }

  lemma LoseUnload(city: Stocks, q: int)
    ensures city != [] || LostLoad(city, q) == []
    ensures Unload(city, LostLoad(city, q)) == (Swallowed(city, q), NoneLeft(LostLoad(city, q)))
  {
    if ExposedAt(city, q) > 0 {
      LostUnload(city, q);
      assert NoneLeft(LostLoad(city, q)) == [Item(q, 0)];
    } else {
      assert NoneLeft(LostLoad(city, q)) == [];
    }
  }

  lemma OtherUnload(w: World, q: int, c: nat, d: nat, k: nat, load: Stocks)
    requires Falls(w, q, c, d, k) && NonNegative(load)
    ensures var city := Served(w, d, k, c);
            city != [] && Unload(city, Without(load, q)) == (city, Without(load, q))
  {
    MetTakesNothing(Served(w, d, k, c), Without(load, q));
  }

  lemma AskedUnload(w: World, q: int, c: nat, d: nat, k: nat, x: nat)
    requires Falls(w, q, c, d, k) && x < |w.cities|
    ensures var city, load := Swallowed(w.cities[x], q), AllButOne(w.cities, d, k)[x];
            && (city != [] || load == [])
            && Unload(city, load) == (Served(w, d, k, x), Difference(w.cities[x], city))
  {
    AskedLists(w, q, c, d, k, x);
    MatchedUnload(Swallowed(w.cities[x], q), AllButOne(w.cities, d, k)[x]);
    AskedDiffers(w, q, c, d, k, x);
  }

  lemma AskedLists(w: World, q: int, c: nat, d: nat, k: nat, x: nat)
    requires Falls(w, q, c, d, k) && x < |w.cities|
    ensures var city, load := Swallowed(w.cities[x], q), AllButOne(w.cities, d, k)[x];
            SameProducts(city, load) && UniqueProducts(city) && |city| == |w.cities[x]|
  {
  }

  lemma AskedDiffers(w: World, q: int, c: nat, d: nat, k: nat, x: nat)
    requires Falls(w, q, c, d, k) && x < |w.cities| && |Swallowed(w.cities[x], q)| == |w.cities[x]|
    ensures var city, load := Swallowed(w.cities[x], q), AllButOne(w.cities, d, k)[x];
            && |load| == |city| && Difference(city, load) == Served(w, d, k, x)
            && Difference(load, city) == Difference(w.cities[x], city)
  {
    var city := w.cities[x];
    if x == d {
      assert Swallowed(city, q) == city;
      DiffersByOne(city, k);
      ServedButOne(w, d, k);
    } else {
      assert AllButOne(w.cities, d, k)[x] == city;
      NothingMore(Swallowed(city, q), city);
      ServedWhole(w, d, k, x);
    }
  }

  lemma ServedButOne(w: World, d: nat, k: nat)
    requires d < |w.cities| && k < |w.cities[d]|
    ensures Served(w, d, k, d) == NoneLeft(w.cities[d])[k := w.cities[d][k].(amount := 1)]
  {
  }

  lemma ServedWhole(w: World, d: nat, k: nat, x: nat)
    requires x < |w.cities| && x != d
    ensures Served(w, d, k, x) == NoneLeft(w.cities[x])
  {
  }

  lemma DiffersByOne(city: Stocks, k: nat)
    requires k < |city| && city[k].amount > 0
    ensures var load := city[k := city[k].(amount := city[k].amount - 1)];
            && Difference(city, load) == NoneLeft(city)[k := city[k].(amount := 1)]
            && Difference(load, city) == NoneLeft(city) == Difference(city, city)
  {
  }

  lemma NothingMore(city: Stocks, load: Stocks)
    requires |city| == |load|
    requires forall i | 0 <= i < |city| :: city[i].product == load[i].product && city[i].amount <= load[i].amount
    ensures Difference(city, load) == NoneLeft(load)
  {
  }

  lemma StateIsReady(w: World, q: int, c: nat, d: nat, k: nat, t: nat)
    requires Falls(w, q, c, d, k) && t <= |NewLoads(w, q, d, k)|
    ensures Ready(StateAt(w, q, c, d, k, t).cities, StateAt(w, q, c, d, k, t).planes)
  {
    var s := StateAt(w, q, c, d, k, t);
    forall x: nat | x < |s.cities| ensures |s.cities[x]| == |w.cities[x]| {
    }
    forall p: nat | p < |s.planes|
      ensures s.planes[p].city < |s.cities| && (s.cities[s.planes[p].city] != [] || s.planes[p].load == [])
    {
      TurnOf(w, q, c, d, k, p);
    }
  }

  lemma OneServed(w: World, q: int, c: nat, d: nat, k: nat, t: nat)
    requires Falls(w, q, c, d, k) && t < |NewLoads(w, q, d, k)|
    requires Ready(StateAt(w, q, c, d, k, t).cities, StateAt(w, q, c, d, k, t).planes)
    ensures UnloadAt(StateAt(w, q, c, d, k, t), t) == StateAt(w, q, c, d, k, t + 1)
  {
    TurnOf(w, q, c, d, k, t);
    var s, s', r := StateAt(w, q, c, d, k, t), StateAt(w, q, c, d, k, t + 1), UnloadAt(StateAt(w, q, c, d, k, t), t);
    assert s.planes[t] == Plane(Spot(w, c, t), 0, NewLoads(w, q, d, k)[t], false);
    forall x: nat | x < |w.cities| ensures r.cities[x] == s'.cities[x] {
      ElsewhereStays(w, q, c, d, k, x, t);
    }
    forall p: nat | p < |r.planes| ensures r.planes[p] == s'.planes[p] {
      OthersStay(w, q, c, d, k, p, t);
    }
    assert r.cities == s'.cities && r.planes == s'.planes;
  }

  lemma ElsewhereStays(w: World, q: int, c: nat, d: nat, k: nat, x: nat, t: nat)
    requires Falls(w, q, c, d, k) && x < |w.cities|
    ensures x != Spot(w, c, t) ==> CityAt(w, q, d, k, x, t + 1) == CityAt(w, q, d, k, x, t)
  {
  }

  lemma OthersStay(w: World, q: int, c: nat, d: nat, k: nat, p: nat, t: nat)
    requires Falls(w, q, c, d, k) && p < |NewLoads(w, q, d, k)|
    ensures p != t ==> PlaneAt(w, q, c, d, k, p, t + 1) == PlaneAt(w, q, c, d, k, p, t)
  {
  }

  ghost function From(t: nat, n: nat): (r: seq<nat>)
    requires t <= n
    ensures |r| == n - t && forall i | 0 <= i < |r| :: r[i] == t + i
  {
    seq(n - t, i requires 0 <= i < n - t => t + i)
  }

  /** The states between unloads of planes served one after the other. */
  ghost predicate Steps(ss: seq<World>, n: nat) {
    && |ss| == n + 1
    && (forall t | 0 <= t <= n :: Ready(ss[t].cities, ss[t].planes) && |ss[t].planes| == n)
    && (forall t | 0 <= t < n :: UnloadAt(ss[t], t) == ss[t + 1])
  }

  lemma {:induction false} StepsServe(ss: seq<World>, n: nat, t: nat)
    requires Steps(ss, n) && t <= n
    ensures UnloadAll(ss[t], From(t, n)) == ss[n]
    decreases n - t
  {
    if t == n {
      assert From(t, n) == [];
    } else {
      assert From(t, n)[0] == t && From(t, n)[1..] == From(t + 1, n);
      StepsServe(ss, n, t + 1);
    }
  }

  lemma AllServed(w: World, q: int, c: nat, d: nat, k: nat)
    requires Falls(w, q, c, d, k)
    ensures var s, n := NewStart(w, q, c, d, k), |NewLoads(w, q, d, k)|;
            && Ready(s.cities, s.planes) && |s.planes| == n
            && UnloadAll(s, From(0, n)) == StateAt(w, q, c, d, k, n)
  {
    var n := |NewLoads(w, q, d, k)|;
    StatesStep(w, q, c, d, k);
    StepsServe(States(w, q, c, d, k), n, 0);
    NothingServedYet(w, q, c, d, k);
  }

  ghost function States(w: World, q: int, c: nat, d: nat, k: nat): (r: seq<World>)
    requires d < |w.cities| && k < |w.cities[d]|
    ensures |r| == |NewLoads(w, q, d, k)| + 1
    ensures forall t | 0 <= t < |r| :: r[t] == StateAt(w, q, c, d, k, t)
  {
    var n := |NewLoads(w, q, d, k)| + 1;
    seq(n, t requires 0 <= t < n => StateAt(w, q, c, d, k, t))
  }

  lemma StatesStep(w: World, q: int, c: nat, d: nat, k: nat)
    requires Falls(w, q, c, d, k)
    ensures Steps(States(w, q, c, d, k), |NewLoads(w, q, d, k)|)
  {
    var ss, n := States(w, q, c, d, k), |NewLoads(w, q, d, k)|;
    forall t | 0 <= t <= n ensures Ready(ss[t].cities, ss[t].planes) && |ss[t].planes| == n {
      StateIsReady(w, q, c, d, k, t);
    }
    forall t | 0 <= t < n ensures UnloadAt(ss[t], t) == ss[t + 1] {
      OneServed(w, q, c, d, k, t);
    }
  }

  lemma NothingServedYet(w: World, q: int, c: nat, d: nat, k: nat)
    requires Falls(w, q, c, d, k)
    ensures StateAt(w, q, c, d, k, 0) == NewStart(w, q, c, d, k)
  {
  }

  // ---------------------------------------------------------------- nobody flies on

  ghost predicate Lacks(load: Stocks, q: int) {
    NonNegative(load) && forall i | 0 <= i < |load| && load[i].product == q :: load[i].amount == 0
  }

  lemma LeftLacks(w: World, q: int, c: nat, d: nat, k: nat, p: nat)
    requires Falls(w, q, c, d, k) && p < |NewLoads(w, q, d, k)|
    ensures Lacks(LoadAfter(w, q, d, k, p), q)
  {
    NewLoadAt(w, q, d, k, p);
    LoadAfterAt(w, q, d, k, p);
    LeftPartLacks(w, q, c, d, k, p, LoadAfter(w, q, d, k, p));
  }

  lemma LeftPartLacks(w: World, q: int, c: nat, d: nat, k: nat, p: nat, left: Stocks)
    requires Falls(w, q, c, d, k) && p < 2 * |w.cities| + |w.planes|
    requires var n := |w.cities|;
             left == if p < n then NoneLeft(LostLoad(w.cities[p], q))
                     else if p < 2 * n then Difference(w.cities[p - n], Swallowed(w.cities[p - n], q))
                     else Without(w.planes[p - 2 * n].load, q)
    ensures Lacks(left, q)
  {
    var n := |w.cities|;
    if p < n {
      NoneLacks(LostLoad(w.cities[p], q), q);
    } else if p < 2 * n {
      AskedLacks(w.cities[p - n], q);
    } else {
      WithoutLacks(w.planes[p - 2 * n].load, q);
    }
  }

  lemma WithoutLacks(load: Stocks, q: int)
    requires NonNegative(load)
    ensures Lacks(Without(load, q), q)
  {
  }

  lemma NoneLacks(load: Stocks, q: int)
    ensures Lacks(NoneLeft(load), q)
  {
  }

  lemma AskedLacks(city: Stocks, q: int)
    requires NonNegative(city)
    ensures Lacks(Difference(city, Swallowed(city, q)), q)
  {
  }

  lemma NoUseLeft(w: World, q: int, c: nat, d: nat, k: nat, x: nat, load: Stocks)
    requires Falls(w, q, c, d, k) && x < |w.cities| && Lacks(load, q)
    ensures Score(Served(w, d, k, x), load) == 0
  {
    var city := Served(w, d, k, x);
    forall i | 0 <= i < |city| ensures Contribution(city[i], load) == 0 {
    }
    ScoreZeroIff(city, load);
  }

  lemma EndOf(w: World, q: int, c: nat, d: nat, k: nat)
    requires Falls(w, q, c, d, k)
    ensures var n := |NewLoads(w, q, d, k)|;
            forall x: nat | x < |w.cities| :: StateAt(w, q, c, d, k, n).cities[x] == Served(w, d, k, x)
  {
    NewLoadAt(w, q, d, k, 0);
  }

  /** The first turn of the fleet: afterwards every plane has retired, and city d still asks for something. */
  lemma FirstTurn(dist: seq<seq<int>>, w: World, q: int, c: nat, d: nat, k: nat)
    returns (order: seq<nat>, w': World)
    requires Falls(w, q, c, d, k) && Square(dist, |w.cities|)
    ensures Turn(dist, NewStart(w, q, c, d, k), order, w')
    ensures Active(w'.planes) == 0 && !AllMet(w'.cities)
  {
    var n := |NewLoads(w, q, d, k)|;
    var mid := StateAt(w, q, c, d, k, n);
    order := From(0, n);
    AllServed(w, q, c, d, k);
    EndOf(w, q, c, d, k);
    w' := World(mid.cities, seq(n, p requires 0 <= p < n => NextPlane(dist, mid.cities, mid.planes[p])));
    forall p: nat | p < n
      ensures Decide(dist, mid.cities, mid.planes[p], w'.planes[p]) && w'.planes[p].done
    {
      LeftLacks(w, q, c, d, k, p);
      forall x: nat | x < |w.cities| ensures Score(mid.cities[x], mid.planes[p].load) == 0 {
        NoUseLeft(w, q, c, d, k, x, mid.planes[p].load);
      }
      UselessRetires(dist, mid.cities, mid.planes[p]);
    }
    NoneActive(w'.planes);
    assert w'.cities[d][k].amount == 1 && !CityMet(w'.cities[d]);
    AllInOrder(NewStart(w, q, c, d, k), n);
  }

  lemma UselessRetires(dist: seq<seq<int>>, cities: seq<Stocks>, pl: Plane)
    requires Square(dist, |cities|) && pl.city < |cities| && pl.distance == 0 && Useless(cities, pl.load)
    ensures Decide(dist, cities, pl, NextPlane(dist, cities, pl)) && NextPlane(dist, cities, pl).done
  {
    NextDecides(dist, cities, pl);
    if !pl.done {
      DecideMeaning(dist, cities, pl, NextPlane(dist, cities, pl));
    }
  }

  lemma AllInOrder(w: World, n: nat)
    requires |w.planes| == n && forall p | 0 <= p < n :: Landed(w.planes[p])
    ensures IsOrder(w, From(0, n))
  {
    forall p: nat | p < n ensures p in From(0, n) {
      assert From(0, n)[p] == p;
    }
  }

  lemma NewStartIsInitial(w: World, q: int, c: nat, d: nat, k: nat)
    requires Falls(w, q, c, d, k)
    ensures Initial(NewStart(w, q, c, d, k)) && UniqueLoads(NewStart(w, q, c, d, k).planes)
  {
    var s := NewStart(w, q, c, d, k);
    AllServed(w, q, c, d, k);
    forall p: nat | p < |s.planes| ensures NonNegative(s.planes[p].load) && UniqueProducts(s.planes[p].load) {
      NewLoadIsFine(w, q, c, d, k, p);
    }
  }

  lemma NewLoadIsFine(w: World, q: int, c: nat, d: nat, k: nat, p: nat)
    requires Falls(w, q, c, d, k) && p < |NewLoads(w, q, d, k)|
    ensures NonNegative(NewLoads(w, q, d, k)[p]) && UniqueProducts(NewLoads(w, q, d, k)[p])
  {
    NewLoadAt(w, q, d, k, p);
    PartIsFine(w, q, c, d, k, p, NewLoads(w, q, d, k)[p]);
  }

  lemma PartIsFine(w: World, q: int, c: nat, d: nat, k: nat, p: nat, load: Stocks)
    requires Falls(w, q, c, d, k) && p < 2 * |w.cities| + |w.planes|
    requires var n := |w.cities|;
             load == if p < n then LostLoad(w.cities[p], q)
                     else if p < 2 * n then AllButOne(w.cities, d, k)[p - n]
                     else Without(w.planes[p - 2 * n].load, q)
    ensures NonNegative(load) && UniqueProducts(load)
  {
    var n := |w.cities|;
    if p < n {
      LostIsFine(w.cities[p], q);
    } else if p < 2 * n {
      ButOneIsFine(w.cities, d, k, p - n);
    } else {
      WithoutIsFine(w.planes[p - 2 * n].load, q);
    }
  }

  lemma LostIsFine(city: Stocks, q: int)
    ensures NonNegative(LostLoad(city, q)) && UniqueProducts(LostLoad(city, q))
  {
  }

  lemma ButOneIsFine(cities: seq<Stocks>, d: nat, k: nat, x: nat)
    requires d < |cities| && k < |cities[d]| && cities[d][k].amount > 0 && x < |cities|
    requires NonNegative(cities[x]) && UniqueProducts(cities[x])
    ensures NonNegative(AllButOne(cities, d, k)[x]) && UniqueProducts(AllButOne(cities, d, k)[x])
  {
  }

  lemma WithoutIsFine(load: Stocks, q: int)
    requires NonNegative(load) && UniqueProducts(load)
    ensures NonNegative(Without(load, q)) && UniqueProducts(Without(load, q))
  {
  }

  // ---------------------------------------------------------------- the exact condition

  /** A run of some fleet, without repetition in its loads, that has no less of anything than w. */
  ghost predicate Supplied(dist: seq<seq<int>>, ws: seq<World>, os: seq<seq<nat>>, far: nat, w: World) {
    && GoodRun(dist, ws, os, far) && Initial(ws[0]) && UniqueLoads(ws[0].planes)
    && ws[0].cities == w.cities && NoLess(ws[0], w)
  }

  lemma {:induction false} ExposedSomewhere(cities: seq<Stocks>, q: int) returns (c: nat)
    requires Exposed(cities, q) > 0
    ensures c < |cities| && ExposedAt(cities[c], q) > 0
  {
    if ExposedAt(cities[0], q) > 0 {
      c := 0;
    } else {
      c := ExposedSomewhere(cities[1..], q);
      c := c + 1;
    }
  }

  /** Goods that are enough but not ample leave a city unserved in some run of some fleet that has no less. */
  lemma ShortFleet(dist: seq<seq<int>>, w: World, far: nat) returns (ws: seq<World>, os: seq<seq<nat>>)
    requires Initial(w) && UniqueLoads(w.planes) && EnoughSupply(w) && Routes(dist, |w.cities|, far) && !Ample(w)
    ensures Supplied(dist, ws, os, far, w) && Active(ws[|os|].planes) == 0 && !AllMet(ws[|os|].cities)
  {
    var q: int :| Demand(w, Only(q)) > 0 && Demand(w, Only(q)) + Exposed(w.cities, q) > Supply(w, Only(q));
    var d, k := PositiveSomewhere(w.cities, q);
    var c := ExposedSomewhere(w.cities, q);
    var order, w' := FirstTurn(dist, w, q, c, d, k);
    ws, os := [NewStart(w, q, c, d, k), w'], [order];
    NewStartIsSupplied(w, q, c, d, k);
    OneTurnRun(dist, ws[0], order, w', far, d, k);
  }

  lemma NewStartIsSupplied(w: World, q: int, c: nat, d: nat, k: nat)
    requires Falls(w, q, c, d, k)
    ensures var s := NewStart(w, q, c, d, k);
            Initial(s) && UniqueLoads(s.planes) && s.cities == w.cities && NoLess(s, w)
  {
    NewStartIsInitial(w, q, c, d, k);
    forall r: int ensures Supply(NewStart(w, q, c, d, k), Only(r)) >= Supply(w, Only(r)) {
      NewSupply(w, q, c, d, k, r);
    }
  }

  lemma OneTurnRun(dist: seq<seq<int>>, w: World, order: seq<nat>, w': World, far: nat, d: nat, k: nat)
    requires Initial(w) && Routes(dist, |w.cities|, far) && Turn(dist, w, order, w')
    requires d < |w.cities| && k < |w.cities[d]| && w.cities[d][k].amount > 0
    ensures GoodRun(dist, [w, w'], [order], far)
  {
    assert !CityMet(w.cities[d]) && Continues(w.cities, 0);
  }

  /** The exact condition: by the time every plane has retired, goods that are enough have satisfied every city, however
      they, or more, are spread over planes and cities and in whatever order planes are served, if and only if they
      are ample. */
  lemma SatisfiedIffAmple(dist: seq<seq<int>>, w: World, far: nat)
    requires Initial(w) && UniqueLoads(w.planes) && EnoughSupply(w) && Routes(dist, |w.cities|, far)
    ensures Ample(w) <==>
            forall ws: seq<World>, os: seq<seq<nat>> | Supplied(dist, ws, os, far, w) ::
              Active(ws[|os|].planes) == 0 ==> AllMet(ws[|os|].cities)
  {
    if Ample(w) {
      forall ws: seq<World>, os: seq<seq<nat>> | Supplied(dist, ws, os, far, w) && Active(ws[|os|].planes) == 0
        ensures AllMet(ws[|os|].cities)
      {
        AmpleWithMore(ws[0], w);
        AmpleSatisfies(dist, ws, os, far);
      }
    } else {
      var ws, os := ShortFleet(dist, w, far);
    }
  }

  lemma AmpleWithMore(w': World, w: World)
    requires w'.cities == w.cities && NoLess(w', w) && Ample(w)
    ensures Ample(w')
  {
    forall q: int | Demand(w', Only(q)) > 0
      ensures Demand(w', Only(q)) + Exposed(w'.cities, q) <= Supply(w', Only(q))
    {
      assert Supply(w', Only(q)) >= Supply(w, Only(q));
    }
  }

  /** One plane in each city, with just what that city asks for. */
  ghost function JustEnough(cities: seq<Stocks>): World {
    World(cities, seq(|cities|, x requires 0 <= x < |cities| => Plane(x, 0, cities[x], false)))
  }

  /** A run of some fleet, without repetition in its loads, that carries enough of every product. */
  ghost predicate Sufficient(dist: seq<seq<int>>, ws: seq<World>, os: seq<seq<nat>>, far: nat, cities: seq<Stocks>) {
    && GoodRun(dist, ws, os, far) && Initial(ws[0]) && UniqueLoads(ws[0].planes)
    && ws[0].cities == cities && EnoughSupply(ws[0])
  }

  /** The condition on the map alone: by the time every plane has retired, enough supply of every product has satisfied
      every city, whatever the fleet and the order of service, if and only if the map is tolerant. */
  lemma SatisfiedIffTolerant(dist: seq<seq<int>>, cities: seq<Stocks>, far: nat)
    requires Routes(dist, |cities|, far)
    requires forall c | 0 <= c < |cities| :: NonNegative(cities[c]) && UniqueProducts(cities[c])
    ensures Tolerant(cities) <==>
            forall ws: seq<World>, os: seq<seq<nat>> | Sufficient(dist, ws, os, far, cities) ::
              Active(ws[|os|].planes) == 0 ==> AllMet(ws[|os|].cities)
  {
    var w := JustEnough(cities);
    JustEnoughIsEnough(cities);
    SatisfiedIffAmple(dist, w, far);
    if Tolerant(cities) {
      TolerantIsAmple(w);
    }
    if Ample(w) {
      AmpleIsTolerant(w);
    }
    forall ws: seq<World>, os: seq<seq<nat>>
      ensures Sufficient(dist, ws, os, far, cities) <==> Supplied(dist, ws, os, far, w)
    {
      SuppliedIff(dist, ws, os, far, cities);
    }
  }

  lemma JustEnoughIsEnough(cities: seq<Stocks>)
    requires forall c | 0 <= c < |cities| :: NonNegative(cities[c]) && UniqueProducts(cities[c])
    ensures var w := JustEnough(cities);
            && Initial(w) && UniqueLoads(w.planes) && EnoughSupply(w)
            && forall q: int :: Supply(w, Only(q)) == Demand(w, Only(q))
  {
    assert Loads(JustEnough(cities).planes) == cities;
  }

  lemma SuppliedIff(dist: seq<seq<int>>, ws: seq<World>, os: seq<seq<nat>>, far: nat, cities: seq<Stocks>)
    requires forall q: int :: Supply(JustEnough(cities), Only(q)) == Demand(JustEnough(cities), Only(q))
    ensures Sufficient(dist, ws, os, far, cities) <==> Supplied(dist, ws, os, far, JustEnough(cities))
  {
    var w := JustEnough(cities);
    if Sufficient(dist, ws, os, far, cities) {
      forall q: int ensures Supply(ws[0], Only(q)) >= Supply(w, Only(q)) {
        assert Demand(ws[0], Only(q)) <= Supply(ws[0], Only(q));
      }
    }
    if Supplied(dist, ws, os, far, w) {
      forall q: int ensures Demand(ws[0], Only(q)) <= Supply(ws[0], Only(q)) {
        assert Supply(ws[0], Only(q)) >= Supply(w, Only(q));
      }
    }
  }
}
