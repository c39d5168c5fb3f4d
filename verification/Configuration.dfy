/** A configuration that comes with the program. */
module Configuration {
  import opened Delivery
  import opened Turns
  import opened Runs
  import opened Surplus

  /** The second configuration: product 0 is Aspirina, 1 Ibuprofeno and 2 Paracetamol. */
  function Sim2(): World {
    World([[Item(0, 100), Item(1, 50)],
           [Item(2, 200), Item(0, 50), Item(1, 100)],
           [Item(2, 100), Item(0, 100), Item(1, 100)],
           [Item(0, 300)],
           [Item(1, 250), Item(2, 50)]],
          [Plane(2, 0, [Item(2, 500), Item(0, 500), Item(1, 200)], false),
           Plane(2, 0, [Item(2, 200), Item(0, 1000), Item(1, 1000)], false),
           Plane(0, 0, [Item(2, 1000), Item(0, 200), Item(1, 450)], false)])
  }

  lemma AmountOfThree(a: Item, b: Item, c: Item, q: int)
    ensures AmountOf([a], q) == Of(a, q) && AmountOf([a, b], q) == Of(a, q) + Of(b, q)
    ensures AmountOf([a, b, c], q) == Of(a, q) + Of(b, q) + Of(c, q)
  {
    OneMoreItem(a, [], q);
    OneMoreItem(b, [], q);
    OneMoreItem(c, [], q);
    OneMoreItem(a, [b], q);
    OneMoreItem(b, [c], q);
    OneMoreItem(a, [b, c], q);
    assert [a] + [] == [a] && [b] + [] == [b] && [c] + [] == [c];
    assert [a] + [b] == [a, b] && [b] + [c] == [b, c] && [a] + [b, c] == [a, b, c];
  }

  lemma OneMoreItem(a: Item, s: Stocks, q: int)
    ensures AmountOf([a] + s, q) == Of(a, q) + AmountOf(s, q)
  {
    assert ([a] + s)[1..] == s;
  }

  lemma SumFrom(lists: seq<Stocks>, n: nat, q: int)
    requires n < |lists|
    ensures Sum(lists[n..], Only(q)) == AmountOf(lists[n], q) + Sum(lists[n + 1..], Only(q))
    ensures Exposed(lists[n..], q) == ExposedAt(lists[n], q) + Exposed(lists[n + 1..], q)
  {
    assert lists[n..][1..] == lists[n + 1..];
  }

  lemma SumOfThree(lists: seq<Stocks>, q: int)
    requires |lists| == 3
    ensures Sum(lists, Only(q)) == AmountOf(lists[0], q) + AmountOf(lists[1], q) + AmountOf(lists[2], q)
  {
    SumFrom(lists, 0, q);
    SumFrom(lists, 1, q);
    SumFrom(lists, 2, q);
    assert lists[0..] == lists && lists[3..] == [];
  }

  lemma SumOfFive(lists: seq<Stocks>, q: int)
    requires |lists| == 5
    ensures Sum(lists, Only(q))
            == AmountOf(lists[0], q) + AmountOf(lists[1], q) + AmountOf(lists[2], q) + AmountOf(lists[3], q)
               + AmountOf(lists[4], q)
    ensures Exposed(lists, q)
            == ExposedAt(lists[0], q) + ExposedAt(lists[1], q) + ExposedAt(lists[2], q) + ExposedAt(lists[3], q)
               + ExposedAt(lists[4], q)
  {
    SumFrom(lists, 0, q);
    SumFrom(lists, 1, q);
    SumFrom(lists, 2, q);
    SumFrom(lists, 3, q);
    SumFrom(lists, 4, q);
    assert lists[0..] == lists && lists[5..] == [];
  }

  lemma Sim2Amounts(q: int)
    ensures Demand(Sim2(), Only(q)) == if q == 0 then 550 else if q == 1 then 500 else if q == 2 then 350 else 0
    ensures Supply(Sim2(), Only(q)) == if q == 0 then 1700 else if q == 1 then 1650 else if q == 2 then 1700 else 0
  {
    var cs, ps := Sim2().cities, Sim2().planes;
    SumOfFive(cs, q);
    SumOfThree(Loads(ps), q);
    var none := Item(0, 0);
    AmountOfThree(cs[0][0], cs[0][1], none, q);
    AmountOfThree(cs[1][0], cs[1][1], cs[1][2], q);
    AmountOfThree(cs[2][0], cs[2][1], cs[2][2], q);
    AmountOfThree(cs[3][0], none, none, q);
    AmountOfThree(cs[4][0], cs[4][1], none, q);
    AmountOfThree(ps[0].load[0], ps[0].load[1], ps[0].load[2], q);
    AmountOfThree(ps[1].load[0], ps[1].load[1], ps[1].load[2], q);
    AmountOfThree(ps[2].load[0], ps[2].load[1], ps[2].load[2], q);
  }

  lemma Sim2Exposed(q: int)
    requires q == 0 || q == 1 || q == 2
    ensures Exposed(Sim2().cities, q) == if q == 0 then 50 else if q == 1 then 300 else 350
  {
    var cs := Sim2().cities;
    SumOfFive(cs, q);
  }

  ghost predicate Listable(s: Stocks) {
    NonNegative(s) && UniqueProducts(s) && s != []
  }

  lemma Sim2IsInitial()
    ensures Initial(Sim2()) && UniqueLoads(Sim2().planes)
  {
    var w := Sim2();
    forall c | 0 <= c < 5 ensures Listable(w.cities[c]) {
      Sim2Cities(c);
    }
    forall p | 0 <= p < 3 ensures Listable(w.planes[p].load) && Landed(w.planes[p]) && w.planes[p].city < 5 {
      Sim2Planes(p);
    }
  }

  lemma Sim2Cities(c: nat)
    requires c < 5
    ensures Listable(Sim2().cities[c])
  {
  }

  lemma Sim2Planes(p: nat)
    requires p < 3
    ensures var pl := Sim2().planes[p]; Listable(pl.load) && Landed(pl) && pl.city < 5
  {
  }

  lemma Sim2IsNotTolerant()
    ensures !Tolerant(Sim2().cities) && !WellListed(Sim2().cities, Sim2().planes)
  {
    var city, load := Sim2().cities[0], Sim2().planes[0].load;
    assert Find(city, 2) == 2;
    assert !Takes(city, Item(2, 0)) && !Takes(city, load[0]);
    Sim2Amounts(2);
  }

  /** Its goods are ample, although its cities list different products and its map is not tolerant. */
  lemma Sim2IsAmple()
    ensures Initial(Sim2()) && UniqueLoads(Sim2().planes) && Ample(Sim2())
    ensures !Tolerant(Sim2().cities) && !WellListed(Sim2().cities, Sim2().planes)
  {
    Sim2IsInitial();
    Sim2IsNotTolerant();
    forall q: int | Demand(Sim2(), Only(q)) > 0
      ensures Demand(Sim2(), Only(q)) + Exposed(Sim2().cities, q) <= Supply(Sim2(), Only(q))
    {
      Sim2Amounts(q);
      Sim2Exposed(q);
    }
  }
}
