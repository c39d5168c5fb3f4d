/** The map's code, in place on stock objects. */
module MapKernel {
  // The unload, the scores and the candidate table, proved against the functions of Delivery.

  import opened Answers
  import opened Delivery
  import opened Turns

  class Stock {
    const product: int
    var amount: int

    constructor (product: int, amount: int)
      ensures this.product == product && this.amount == amount
    {
      this.product := product;
      this.amount := amount;
    }
  }

  ghost function View(stocks: seq<Stock>): (r: Stocks)
    reads stocks
    ensures |r| == |stocks|
    ensures forall i | 0 <= i < |r| :: r[i] == Item(stocks[i].product, stocks[i].amount)
  {
    seq(|stocks|, i requires 0 <= i < |stocks| reads stocks => Item(stocks[i].product, stocks[i].amount))
  }

  ghost predicate Distinct(stocks: seq<Stock>) {
    forall i, j | 0 <= i < j < |stocks| :: stocks[i] != stocks[j]
  }

  ghost predicate Apart(a: seq<Stock>, b: seq<Stock>) {
    forall i, j | 0 <= i < |a| && 0 <= j < |b| :: a[i] != b[j]
  }

  // ---------------------------------------------------------------- the exchange

  /** Searches for the product; whatever entry was looked at last is the one to exchange with.  -1 means that there
      was none to look at, and the pointer was never set. */
  method SelectEntry(city: seq<Stock>, product: int) returns (j: int)
    ensures j == if city == [] then -1 else Target(View(city), product)
  {
    j := 0;
    while j < |city|
      invariant 0 <= j <= |city|
      invariant forall k | 0 <= k < j :: city[k].product != product
    {
      if city[j].product == product {
        break;
      }
      j := j + 1;
    }
    if j == |city| {
      j := |city| - 1;
    }
  }

  /** One item against one entry. */
  method Exchange(cityStock: Stock, planeStock: Stock)
    requires cityStock != planeStock
    modifies cityStock`amount, planeStock`amount
    ensures cityStock.amount == old(if cityStock.amount >= planeStock.amount then cityStock.amount - planeStock.amount
                                    else 0)
    ensures planeStock.amount == old(if cityStock.amount >= planeStock.amount then 0
                                     else planeStock.amount - cityStock.amount)
  {
    if cityStock.amount >= planeStock.amount {
      cityStock.amount := cityStock.amount - planeStock.amount;
      planeStock.amount := 0;
    } else {
      planeStock.amount := planeStock.amount - cityStock.amount;
      cityStock.amount := 0;
    }
  }

  /** How far an unload has come: the items before i are final, the others are still to be offered. */
  ghost predicate Progress(goal: (Stocks, Stocks), load: Stocks, i: nat, c: Stocks, p: Stocks)
    requires i <= |load| && (c != [] || load == [])
  {
    && |p| == |load| && p[i..] == load[i..]
    && Unload(c, load[i..]).0 == goal.0
    && p[..i] + Unload(c, load[i..]).1 == goal.1
  }

  lemma ProgressStep(goal: (Stocks, Stocks), load: Stocks, i: nat, c: Stocks, p: Stocks)
    requires i < |load| && c != [] && Progress(goal, load, i, c, p)
    ensures p[i] == load[i]
    ensures Progress(goal, load, i + 1, Offer(c, load[i]).0, p[i := Offer(c, load[i]).1])
  {
    var (c', item) := Offer(c, load[i]);
    var p' := p[i := item];
    assert p[i] == p[i..][0] == load[i..][0];
    assert load[i..][1..] == load[i + 1..] && p'[i + 1..] == p[i..][1..];
    assert p'[..i + 1] == p[..i] + [item];
    var rest := Unload(c', load[i + 1..]).1;
    assert p[..i] + ([item] + rest) == p[..i] + [item] + rest;
  }

  lemma ProgressEnds(goal: (Stocks, Stocks), load: Stocks, c: Stocks, p: Stocks)
    requires (c != [] || load == []) && Progress(goal, load, |load|, c, p)
    ensures goal == (c, p)
  {
    assert load[|load|..] == [] && p[..|load|] + [] == p;
  }

  /** One item of the plane, if there is an entry to exchange it against. */
  method ServeItem(city: seq<Stock>, plane: seq<Stock>, i: nat) returns (ok: bool)
    requires Distinct(city) && Distinct(plane) && Apart(city, plane)
    requires i < |plane|
    modifies city, plane
    ensures ok <==> city != []
    ensures ok ==> View(city) == Offer(old(View(city)), old(View(plane)[i])).0
    ensures ok ==> View(plane) == old(View(plane))[i := Offer(old(View(city)), old(View(plane)[i])).1]
    ensures ok ==>
              var r := Target(old(View(city)), plane[i].product);
              var asked, offered := old(View(city))[r].amount, old(plane[i].amount);
              && city[r].amount == (if asked >= offered then asked - offered else 0)
              && plane[i].amount == (if asked >= offered then 0 else offered - asked)
    ensures !ok ==> View(plane) == old(View(plane))
  {
    ghost var c, p := View(city), View(plane);
    var j := SelectEntry(city, plane[i].product);
    if j < 0 {
      return false;
    }
    ok := true;
    Exchange(city[j], plane[i]);
    ghost var (c', item) := Offer(c, p[i]);
    forall k | 0 <= k < |city| ensures View(city)[k] == c'[k] {
      assert k != j ==> city[k] != city[j];
      assert city[k] != plane[i];
    }
    forall k | 0 <= k < |plane| ensures View(plane)[k] == p[i := item][k] {
      assert k != i ==> plane[k] != plane[i];
      assert city[j] != plane[k];
    }
  }

  /** A plane unloads in a city: afterwards both lists are what the exchange on values makes of them, or the
      unload is undefined and has changed nothing. */
  method UpdateCity(city: seq<Stock>, plane: seq<Stock>) returns (ok: bool)
    requires Distinct(city) && Distinct(plane) && Apart(city, plane)
    modifies city, plane
    ensures ok <==> TryUnload(old(View(city)), old(View(plane))) != NoEntry
    ensures ok ==> Exchanged(View(city), View(plane)) == TryUnload(old(View(city)), old(View(plane)))
    ensures ok && city != [] && NonNegative(old(View(city))) && NonNegative(old(View(plane))) ==>
              Settled(old(View(city)), old(View(plane)), View(city), View(plane))
    ensures !ok ==> View(city) == old(View(city)) && View(plane) == old(View(plane))
  {
    ghost var demand, load := View(city), View(plane);
    ghost var goal := if city != [] || plane == [] then Unload(demand, load) else (demand, load);
    UnloadIsDefinedIff(demand, load);
    var i := 0;
    assert load[0..] == load;
    while i < |plane|
      invariant 0 <= i <= |plane|
      invariant city != [] || plane == [] ==> Progress(goal, load, i, View(city), View(plane))
      invariant city == [] ==> i == 0 && View(plane) == load
    {
      if city != [] {
        ProgressStep(goal, load, i, View(city), View(plane));
      }
      ok := ServeItem(city, plane, i);
      if !ok {
        return;
      }
      i := i + 1;
    }
    assert i == |plane|;
    ProgressEnds(goal, load, View(city), View(plane));
    if city != [] && NonNegative(demand) && NonNegative(load) {
      UnloadSettles(demand, load);
    }
    return true;
  }

  // ---------------------------------------------------------------- scores and the ten best

  method GetCityScore(city: seq<Stock>, plane: seq<Stock>) returns (score: int)
    ensures score == Score(View(city), View(plane))
  {
    score := 0;
    var i := 0;
    while i < |city|
      invariant 0 <= i <= |city|
      invariant score + Score(View(city)[i..], View(plane)) == Score(View(city), View(plane))
    {
      var j := 0;
      while j < |plane|
        invariant 0 <= j <= |plane|
        invariant forall k | 0 <= k < j :: plane[k].product != city[i].product
      {
        if city[i].product == plane[j].product {
          score := score + if city[i].amount > plane[j].amount then plane[j].amount else city[i].amount;
          break;
        }
        j := j + 1;
      }
      assert j == Find(View(plane), city[i].product);
      assert View(city)[i..][1..] == View(city)[i + 1..];
      i := i + 1;
    }
  }

  /** Finds the place for a score in the table: the next free one, or that of the first of the lowest
      entries when the score beats it.  -1 means that the score is not good enough. */
  method InsertScore(cityInfo: array<CityInfo>, size: nat, elems: nat, score: int) returns (index: int)
    requires elems <= size <= cityInfo.Length && size > 0
    modifies cityInfo
    ensures elems < size ==> index == elems
    ensures elems >= size ==>
              var m := MinIndex(old(cityInfo[..elems]));
              index == if score > old(cityInfo[..elems])[m].score then m else -1
    ensures index != -1 ==> 0 <= index < size && cityInfo[index] == old(cityInfo[..])[index].(score := score)
    ensures forall i | 0 <= i < cityInfo.Length && i != index :: cityInfo[i] == old(cityInfo[i])
  {
    if elems < size {
      cityInfo[elems] := cityInfo[elems].(score := score);
      return elems;
    }
    var min := cityInfo[0].score;
    var minIndex := 0;
    for i := 0 to elems
      invariant 0 <= minIndex < elems && (minIndex < i || i == 0 == minIndex) && min == cityInfo[minIndex].score
      invariant forall k | 0 <= k < i :: min <= cityInfo[k].score
      invariant forall k | 0 <= k < minIndex :: min < cityInfo[k].score
    {
      if cityInfo[i].score < min {
        min := cityInfo[i].score;
        minIndex := i;
      }
    }
    FirstLowest(cityInfo[..elems], minIndex);
    if score > cityInfo[minIndex].score {
      cityInfo[minIndex] := cityInfo[minIndex].(score := score);
      return minIndex;
    }
    return -1;
  }

  lemma FirstLowest(k: seq<CityInfo>, m: nat)
    requires m < |k|
    requires forall i | 0 <= i < |k| :: k[m].score <= k[i].score
    requires forall i | 0 <= i < m :: k[m].score < k[i].score
    ensures m == MinIndex(k)
  {
    var r := MinIndex(k);
    assert k[r].score <= k[m].score && k[m].score <= k[r].score;
  }

  /** Enters one candidate into the table of the `count` best so far. */
  method Consider(cityInfo: array<CityInfo>, count: nat, candidate: CityInfo) returns (count': nat)
    requires count <= MAX_DESTINATIONS == cityInfo.Length
    modifies cityInfo
    ensures count' <= MAX_DESTINATIONS
    ensures cityInfo[..count'] == Insert(old(cityInfo[..count]), candidate)
  {
    count' := count;
    var index := InsertScore(cityInfo, MAX_DESTINATIONS, count, candidate.score);
    if index != -1 {
      cityInfo[index] := cityInfo[index].(city := candidate.city, distance := candidate.distance);
      if count' != MAX_DESTINATIONS {
        count' := count' + 1;
      }
    }
  }

  // ---------------------------------------------------------------- the map

  class Map {
    const cities: seq<seq<Stock>>
    const matrix: array2<int>

    ghost function Objects(): set<object>
    {
      set c, i | 0 <= c < |cities| && 0 <= i < |cities[c]| :: cities[c][i]
    }

    ghost predicate Valid()
    {
      && matrix.Length0 == matrix.Length1 == |cities|
      && (forall c {:trigger Distinct(cities[c])} | 0 <= c < |cities| :: Distinct(cities[c]))
      && (forall c, d {:trigger Apart(cities[c], cities[d])} | 0 <= c < d < |cities| :: Apart(cities[c], cities[d]))
    }

    ghost function Demands(): (r: seq<Stocks>)
      reads Objects()
      ensures |r| == |cities|
      ensures forall c | 0 <= c < |cities| :: r[c] == View(cities[c])
    {
      seq(|cities|, c requires 0 <= c < |cities| reads Objects() => View(cities[c]))
    }

    ghost function Distances(): (r: seq<seq<int>>)
      requires Valid()
      reads matrix
      ensures Square(r, |cities|)
      ensures forall i, j | 0 <= i < |cities| && 0 <= j < |cities| :: r[i][j] == matrix[i, j]
    {
      seq(|cities|, i requires 0 <= i < |cities| reads matrix =>
        seq(|cities|, j requires 0 <= j < |cities| reads matrix => matrix[i, j]))
    }

    /** Stocks that are none of the map's are apart from every city's. */
    lemma OwnStocks(cityId: nat, plane: seq<Stock>)
      requires cityId < |cities| && forall s | s in plane :: s !in Objects()
      ensures Apart(cities[cityId], plane)
    {
      forall j | 0 <= j < |plane| ensures plane[j] !in Objects() {
        assert plane[j] in plane;
      }
      forall i | 0 <= i < |cities[cityId]| ensures cities[cityId][i] in Objects() {
      }
    }

    /** Serves an unload: the city's demand and the plane's load change as the exchange says, nothing else does. */
    method UpdateMap(cityId: nat, plane: seq<Stock>) returns (ok: bool)
      requires Valid() && cityId < |cities| && Distinct(plane)
      requires forall s | s in plane :: s !in Objects()
      modifies cities[cityId], plane
      ensures ok <==> TryUnload(old(Demands()[cityId]), old(View(plane))) != NoEntry
      ensures ok ==> Exchanged(Demands()[cityId], View(plane)) == TryUnload(old(Demands()[cityId]), old(View(plane)))
      ensures ok && cities[cityId] != [] && NonNegative(old(Demands()[cityId])) && NonNegative(old(View(plane))) ==>
                Settled(old(Demands()[cityId]), old(View(plane)), Demands()[cityId], View(plane))
      ensures !ok ==> Demands() == old(Demands()) && View(plane) == old(View(plane))
      ensures Demands() == old(Demands())[cityId := Demands()[cityId]]
    {
      ghost var before := Demands();
      OwnStocks(cityId, plane);
      ok := UpdateCity(cities[cityId], plane);
      forall c | 0 <= c < |cities| && c != cityId ensures View(cities[c]) == before[c] {
        assert Apart(cities[c], cities[cityId]) || Apart(cities[cityId], cities[c]);
        assert forall i | 0 <= i < |cities[c]| :: cities[c][i] in Objects();
        assert forall i | 0 <= i < |cities[c]| :: cities[c][i].amount == old(cities[c][i].amount);
      }
    }

    /** Scores one city for a plane and enters it into the table when it is of use. */
    method ConsiderCity(i: nat, cityId: nat, plane: seq<Stock>, cityInfo: array<CityInfo>, count: nat)
      returns (count': nat)
      requires Valid() && i < |cities| && cityId < |cities|
      requires count <= MAX_DESTINATIONS == cityInfo.Length
      modifies cityInfo
      ensures count' <= MAX_DESTINATIONS
      ensures var score := Score(View(cities[i]), View(plane));
              cityInfo[..count'] == if score != 0
                                    then Insert(old(cityInfo[..count]), CityInfo(i, Distances()[i][cityId], score))
                                    else old(cityInfo[..count])
    {
      var score := GetCityScore(cities[i], plane);
      count' := count;
      if score != 0 {
        count' := Consider(cityInfo, count, CityInfo(i, matrix[i, cityId], score));
      }
    }

    /** The table after looking at the first i cities, the data being what they were. */
    ghost predicate Scanned(i: nat, cityId: nat, plane: seq<Stock>, cityInfo: array<CityInfo>, count: nat,
                            demands: seq<Stocks>, dist: seq<seq<int>>, load: Stocks)
      reads Objects(), matrix, plane, cityInfo
    {
      && Valid() && i <= |cities| && cityId < |cities| && count <= MAX_DESTINATIONS == cityInfo.Length
      && Demands() == demands && Distances() == dist && View(plane) == load
      && cityInfo[..count] == Kept(demands, dist, cityId, load, i)
    }

    /** One step of the scan, with the data it works on spelled out. */
    method ScanCity(i: nat, cityId: nat, plane: seq<Stock>, cityInfo: array<CityInfo>, count: nat,
                    ghost demands: seq<Stocks>, ghost dist: seq<seq<int>>, ghost load: Stocks)
      returns (count': nat)
      requires i < |cities| && Scanned(i, cityId, plane, cityInfo, count, demands, dist, load)
      modifies cityInfo
      ensures Scanned(i + 1, cityId, plane, cityInfo, count', demands, dist, load)
    {
      count' := ConsiderCity(i, cityId, plane, cityInfo, count);
      assert Demands() == demands;
      assert Distances() == dist;
      assert demands[i] == View(cities[i]);
    }

    /** Scans all cities and keeps the ten best. */
    method ScanCities(cityId: nat, plane: seq<Stock>, cityInfo: array<CityInfo>,
                      ghost demands: seq<Stocks>, ghost dist: seq<seq<int>>, ghost load: Stocks)
      returns (count: nat)
      requires Scanned(0, cityId, plane, cityInfo, 0, demands, dist, load)
      modifies cityInfo
      ensures Scanned(|cities|, cityId, plane, cityInfo, count, demands, dist, load)
    {
      count := 0;
      var i := 0;
      while i < |cities|
        invariant 0 <= i <= |cities| && 0 <= count
        invariant Scanned(i, cityId, plane, cityInfo, count, demands, dist, load)
      {
        count := ScanCity(i, cityId, plane, cityInfo, count, demands, dist, load);
        i := i + 1;
      }
      assert i == |cities|;
    }

    /** Answers a plane: the ten best cities, arranged by distance. */
    method GiveDestinations(cityId: nat, plane: seq<Stock>) returns (l: seq<CityInfo>)
      requires Valid() && cityId < |cities|
      ensures Answer(Demands(), Distances(), cityId, View(plane), l)
      ensures TenBest(Demands(), Distances(), cityId, View(plane), l)
    {
      ghost var demands, dist, load := Demands(), Distances(), View(plane);
      var cityInfo := new CityInfo[MAX_DESTINATIONS](_ => CityInfo(0, 0, 0));
      var count := ScanCities(cityId, plane, cityInfo, demands, dist, load);
      var kept := cityInfo[..count];
      l := Sorted(kept);
      SortedIsAnswer(demands, dist, cityId, load, kept);
      AnswerIsTenBest(demands, dist, cityId, load, l);
      assert Demands() == demands && Distances() == dist && View(plane) == load;
    }

    /** Whether the main loop stops: at the turn limit, or once no city asks for anything. */
    method EndSimulation(turn: nat) returns (end: bool)
      ensures end <==> !Continues(Demands(), turn)
      ensures end <==> || turn >= 70000
                       || forall c, k | 0 <= c < |cities| && 0 <= k < |cities[c]| :: cities[c][k].amount == 0
    {
      if turn < MAX_TURNS {
        var i := 0;
        while i < |cities|
          invariant 0 <= i <= |cities|
          invariant forall c | 0 <= c < i :: CityMet(View(cities[c]))
        {
          var satisfied := HasNoStocks(cities[i]);
          if !satisfied {
            assert !AllMet(Demands());
            return false;
          }
          i := i + 1;
        }
      }
      return true;
    }

    method HasNoStocks(stocks: seq<Stock>) returns (none: bool)
      ensures none <==> CityMet(View(stocks))
      ensures none <==> forall k | 0 <= k < |stocks| :: stocks[k].amount == 0
    {
      var i := 0;
      while i < |stocks|
        invariant 0 <= i <= |stocks|
        invariant forall k | 0 <= k < i :: stocks[k].amount == 0
      {
        if stocks[i].amount != 0 {
          assert View(stocks)[i].amount != 0;
          return false;
        }
        i := i + 1;
      }
      return true;
    }

    /** The total demand still open. */
    method GetMapStatus() returns (total: int)
      ensures total == Sum(Demands(), Everything)
    {
      total := 0;
      var i := 0;
      while i < |cities|
        invariant 0 <= i <= |cities|
        invariant total + Sum(Demands()[i..], Everything) == Sum(Demands(), Everything)
      {
        var cityStockAmount := 0;
        var j := 0;
        while j < |cities[i]|
          invariant 0 <= j <= |cities[i]|
          invariant cityStockAmount + Total(View(cities[i])[j..]) == Total(View(cities[i]))
        {
          cityStockAmount := cityStockAmount + cities[i][j].amount;
          assert View(cities[i])[j..][1..] == View(cities[i])[j + 1..];
          j := j + 1;
        }
        total := total + cityStockAmount;
        assert Demands()[i..][1..] == Demands()[i + 1..];
        i := i + 1;
      }
    }
  }

  // ---------------------------------------------------------------- the plane

  /** The plane takes over the amounts it got back and notes whether anything is left.  A negative amount
      stops it with an error. */
  method TakeOver(stocks: seq<Stock>, amounts: seq<int>) returns (ok: bool, done: bool)
    requires Distinct(stocks) && |amounts| == |stocks|
    modifies stocks
    ensures ok <==> forall i | 0 <= i < |amounts| :: amounts[i] >= 0
    ensures ok ==>
              && (forall i | 0 <= i < |stocks| :: stocks[i].amount == amounts[i])
              && (done <==> forall i | 0 <= i < |amounts| :: amounts[i] == 0)
              && (done <==> Spent(View(stocks)))
    ensures !ok ==> exists n | 0 <= n < |amounts| ::
                      && amounts[n] < 0 && (forall i | 0 <= i < n :: amounts[i] >= 0)
                      && (forall i | 0 <= i <= n :: stocks[i].amount == amounts[i])
                      && forall i | n < i < |stocks| :: stocks[i].amount == old(stocks[i].amount)
  {
    done := true;
    for i := 0 to |stocks|
      invariant forall k | 0 <= k < i :: stocks[k].amount == amounts[k] >= 0
      invariant forall k | i <= k < |stocks| :: stocks[k].amount == old(stocks[k].amount)
      invariant done <==> forall k | 0 <= k < i :: amounts[k] <= 0
    {
      stocks[i].amount := amounts[i];
      if stocks[i].amount > 0 {
        done := false;
      } else if stocks[i].amount < 0 {
        return false, done;
      }
    }
    assert forall k | 0 <= k < |stocks| :: View(stocks)[k].amount == amounts[k];
    return true, done;
  }
}
