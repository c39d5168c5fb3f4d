/** The arithmetic of a delivery, on values. */
module Delivery {
  // What a landed plane exchanges with the city it is in, how useful a city is to a plane, and which ten cities a
  // plane is offered. A stock list is a sequence of items. Both a city's demand and a plane's load are stock lists;
  // a product is known by its id.

  const MAX_DESTINATIONS: nat := 10

  datatype Item = Item(product: int, amount: int)
  type Stocks = seq<Item>

  ghost predicate NonNegative(s: Stocks) {
    forall i | 0 <= i < |s| :: s[i].amount >= 0
  }

  ghost predicate UniqueProducts(s: Stocks) {
    forall i, j | 0 <= i < j < |s| :: s[i].product != s[j].product
  }

  /** Nothing is left to deliver: the test that makes a plane stop after unloading. */
  predicate Spent(s: Stocks) {
    forall i | 0 <= i < |s| :: s[i].amount <= 0
  }

  function Total(s: Stocks): int {
    if s == [] then 0 else s[0].amount + Total(s[1..])
  }

  /** How much of product q the list holds. */
  ghost function AmountOf(s: Stocks, q: int): int {
    if s == [] then 0 else (if s[0].product == q then s[0].amount else 0) + AmountOf(s[1..], q)
  }

  /** `after` lists the same products as `before`, and no amount grew or went below zero. */
  ghost predicate LeftOf(after: Stocks, before: Stocks) {
    && |after| == |before|
    && forall i | 0 <= i < |before| ::
         after[i].product == before[i].product && 0 <= after[i].amount <= before[i].amount
  }

  /** The first entry for product q, or |s| when there is none. */
  function Find(s: Stocks, q: int): (r: nat)
    ensures r <= |s|
    ensures r < |s| ==> s[r].product == q
    ensures forall i | 0 <= i < r :: s[i].product != q
  {
    if s == [] then 0 else if s[0].product == q then 0 else 1 + Find(s[1..], q)
  }

  // ---------------------------------------------------------------- the exchange

  /** The entry an item is exchanged against.  The search loop leaves the last entry selected
      when the product is not listed. */
  function Target(city: Stocks, q: int): (r: nat)
    requires city != []
    ensures r < |city|
    ensures r == Find(city, q) || (r == |city| - 1 && Find(city, q) == |city|)
  {
    var r := Find(city, q);
    if r < |city| then r else |city| - 1
  }

  /** One item meets the city: as much as possible changes hands. */
  function Offer(city: Stocks, item: Item): (Stocks, Item)
    requires city != []
  {
    var j := Target(city, item.product);
    if city[j].amount >= item.amount then
      (city[j := city[j].(amount := city[j].amount - item.amount)], item.(amount := 0))
    else
      (city[j := city[j].(amount := 0)], item.(amount := item.amount - city[j].amount))
  }

  /** A plane's items are offered one after the other: the city's new demand and the plane's new load. */
  function Unload(city: Stocks, plane: Stocks): (r: (Stocks, Stocks))
    requires city != [] || plane == []
    ensures |r.0| == |city| && |r.1| == |plane|
    decreases |plane|
  {
    if plane == [] then (city, [])
    else
      var (c, item) := Offer(city, plane[0]);
      var (c', rest) := Unload(c, plane[1..]);
      (c', [item] + rest)
  }

  datatype UnloadResult = NoEntry | Exchanged(city: Stocks, plane: Stocks)

  /** The exchange for any two lists.  In a city without entries the search selects nothing, and the first item
      is exchanged through a pointer that was never set. */
  function TryUnload(city: Stocks, plane: Stocks): UnloadResult
    decreases |plane|
  {
    if plane == [] then Exchanged(city, [])
    else if city == [] then NoEntry
    else
      var (c, item) := Offer(city, plane[0]);
      match TryUnload(c, plane[1..])
      case NoEntry => NoEntry
      case Exchanged(c', rest) => Exchanged(c', [item] + rest)
  }

  /** An unload is defined, and then is the exchange above, exactly when the city lists something or the plane
      nothing. */
  lemma {:induction false} UnloadIsDefinedIff(city: Stocks, plane: Stocks)
    ensures TryUnload(city, plane) != NoEntry <==> city != [] || plane == []
    ensures city != [] || plane == [] ==>
              TryUnload(city, plane) == Exchanged(Unload(city, plane).0, Unload(city, plane).1)
    decreases |plane|
  {
    if plane != [] && city != [] {
      UnloadIsDefinedIff(Offer(city, plane[0]).0, plane[1..]);
    }
  }

  lemma {:induction false} TotalUpdate(s: Stocks, j: nat, x: Item)
    requires j < |s|
    ensures Total(s[j := x]) == Total(s) - s[j].amount + x.amount
  {
    if j == 0 {
      assert s[j := x][1..] == s[1..];
    } else {
      assert s[j := x][1..] == s[1..][j - 1 := x];
      TotalUpdate(s[1..], j - 1, x);
    }
  }

  lemma {:induction false} AmountOfUpdate(s: Stocks, j: nat, x: Item, q: int)
    requires j < |s| && x.product == s[j].product
    ensures AmountOf(s[j := x], q) == AmountOf(s, q) + if x.product == q then x.amount - s[j].amount else 0
  {
    if j == 0 {
      assert s[j := x][1..] == s[1..];
    } else {
      assert s[j := x][1..] == s[1..][j - 1 := x];
      AmountOfUpdate(s[1..], j - 1, x, q);
    }
  }

  lemma AmountOfAbsent(s: Stocks, q: int)
    requires Find(s, q) == |s|
    ensures AmountOf(s, q) == 0
  {
  }

  lemma {:induction false} AmountOfMonotone(after: Stocks, before: Stocks, q: int)
    requires LeftOf(after, before)
    ensures 0 <= AmountOf(after, q) <= AmountOf(before, q)
  {
    if before != [] {
      AmountOfMonotone(after[1..], before[1..], q);
    }
  }

  lemma {:induction false} TotalMonotone(after: Stocks, before: Stocks)
    requires LeftOf(after, before)
    ensures 0 <= Total(after) <= Total(before)
    ensures Total(after) == Total(before) ==> after == before
  {
    if before != [] {
      TotalMonotone(after[1..], before[1..]);
      if Total(after) == Total(before) {
        assert after == [after[0]] + after[1..] && before == [before[0]] + before[1..];
      }
    }
  }

  lemma FindSameProducts(after: Stocks, before: Stocks, q: int)
    requires LeftOf(after, before)
    ensures Find(after, q) == Find(before, q)
  {
  }

  lemma FindUnique(s: Stocks, i: nat)
    requires UniqueProducts(s) && i < |s|
    ensures Find(s, s[i].product) == i
  {
    var r := Find(s, s[i].product);
  }

  lemma OfferKeeps(city: Stocks, item: Item)
    requires city != [] && NonNegative(city) && item.amount >= 0
    ensures var (c, it) := Offer(city, item);
            && LeftOf(c, city) && it.product == item.product && 0 <= it.amount <= item.amount
            && Total(c) - it.amount == Total(city) - item.amount
            && (it.amount == item.amount ==> c == city)
  {
    var j := Target(city, item.product);
    var (c, it) := Offer(city, item);
    TotalUpdate(city, j, c[j]);
    assert c == city[j := c[j]];
  }

  /** The exchange only lowers amounts, never below zero, and whatever leaves the plane reaches
      the city: demand minus load is the same before and after. */
  lemma {:induction false} UnloadConserves(city: Stocks, plane: Stocks)
    requires city != [] || plane == []
    requires NonNegative(city) && NonNegative(plane)
    ensures var (c, p) := Unload(city, plane);
            && LeftOf(c, city) && LeftOf(p, plane)
            && Total(c) - Total(p) == Total(city) - Total(plane)
    decreases |plane|
  {
    if plane != [] {
      OfferKeeps(city, plane[0]);
      UnloadConserves(Offer(city, plane[0]).0, plane[1..]);
      var (c, p) := Unload(city, plane);
      assert p[1..] == Unload(Offer(city, plane[0]).0, plane[1..]).1;
    }
  }

  // ---------------------------------------------------------------- how much is exchanged

  /** How much of the load is offered to entry r: listed products to their first entry, all others to the last. */
  ghost function Aimed(city: Stocks, load: Stocks, r: nat): int
    requires city != []
  {
    if load == [] then 0
    else (if Target(city, load[0].product) == r then load[0].amount else 0) + Aimed(city, load[1..], r)
  }

  /** What is left of item i, when it is its turn. */
  ghost function LeftOfItem(city: Stocks, load: Stocks, i: nat): int
    requires city != [] && i < |load|
  {
    var r := Target(city, load[i].product);
    var asked, before := city[r].amount, Aimed(city, load[..i], r);
    var open := if asked > before then asked - before else 0;
    if load[i].amount > open then load[i].amount - open else 0
  }

  /** Every entry of the city is lowered by all that is offered to it, as far as it goes; and every item is lowered by
      what the items before it leave of its entry. */
  ghost predicate Settled(city: Stocks, load: Stocks, city': Stocks, load': Stocks)
    requires city != []
  {
    && |city'| == |city| && |load'| == |load|
    && (forall r | 0 <= r < |city| ::
          var asked, offered := city[r].amount, Aimed(city, load, r);
          city'[r] == city[r].(amount := if asked > offered then asked - offered else 0))
    && (forall i | 0 <= i < |load| :: load'[i] == load[i].(amount := LeftOfItem(city, load, i)))
  }

  lemma {:induction false} AimedNotNegative(city: Stocks, load: Stocks, r: nat)
    requires city != [] && NonNegative(load)
    ensures Aimed(city, load, r) >= 0
    decreases |load|
  {
    if load != [] {
      AimedNotNegative(city, load[1..], r);
    }
  }

  lemma {:induction false} AimedSame(city: Stocks, city': Stocks, load: Stocks, r: nat)
    requires city != [] && LeftOf(city', city)
    ensures Aimed(city', load, r) == Aimed(city, load, r)
    decreases |load|
  {
    if load != [] {
      FindSameProducts(city', city, load[0].product);
      AimedSame(city, city', load[1..], r);
    }
  }

  lemma AimedFirst(city: Stocks, load: Stocks, i: nat, r: nat)
    requires city != [] && 0 < i <= |load|
    ensures Aimed(city, load[..i], r)
            == (if Target(city, load[0].product) == r then load[0].amount else 0) + Aimed(city, load[1..][..i - 1], r)
  {
    assert load[..i][1..] == load[1..][..i - 1];
  }

  /** What an unload exchanges, entry by entry and item by item. */
  lemma {:induction false} UnloadSettles(city: Stocks, load: Stocks)
    requires city != [] && NonNegative(city) && NonNegative(load)
    ensures Settled(city, load, Unload(city, load).0, Unload(city, load).1)
    decreases |load|
  {
    var (c, p) := Unload(city, load);
    if load != [] {
      var (c1, it) := Offer(city, load[0]);
      OfferKeeps(city, load[0]);
      UnloadSettles(c1, load[1..]);
      forall r | 0 <= r < |city|
        ensures var asked, offered := city[r].amount, Aimed(city, load, r);
                c[r] == city[r].(amount := if asked > offered then asked - offered else 0)
      {
        AimedSame(city, c1, load[1..], r);
        AimedNotNegative(city, load[1..], r);
      }
      forall i | 0 <= i < |load|
        ensures p[i] == load[i].(amount := LeftOfItem(city, load, i))
      {
        ItemSettles(city, load, i);
      }
    }
  }

  lemma ItemSettles(city: Stocks, load: Stocks, i: nat)
    requires city != [] && NonNegative(city) && NonNegative(load) && i < |load|
    requires var (c1, it) := Offer(city, load[0]);
             Settled(c1, load[1..], Unload(c1, load[1..]).0, Unload(c1, load[1..]).1)
    ensures Unload(city, load).1[i] == load[i].(amount := LeftOfItem(city, load, i))
  {
    var (c1, it) := Offer(city, load[0]);
    if i == 0 {
      assert load[..0] == [];
    } else {
      assert Unload(city, load).1[i] == Unload(c1, load[1..]).1[i - 1];
      LaterItem(city, load, i);
    }
  }

  lemma LaterItem(city: Stocks, load: Stocks, i: nat)
    requires city != [] && NonNegative(city) && NonNegative(load) && 0 < i < |load|
    ensures LeftOfItem(Offer(city, load[0]).0, load[1..], i - 1) == LeftOfItem(city, load, i)
  {
    var c1, r := Offer(city, load[0]).0, Target(city, load[i].product);
    OfferKeeps(city, load[0]);
    FindSameProducts(c1, city, load[i].product);
    AimedFirst(city, load, i, r);
    AimedSame(city, c1, load[1..][..i - 1], r);
    AimedNotNegative(city, load[1..][..i - 1], r);
  }

  /** An item is left over only when the entry it is offered to is exhausted. */
  lemma LeftOverIffExhausted(city: Stocks, load: Stocks, i: nat)
    requires city != [] && NonNegative(city) && NonNegative(load) && i < |load|
    ensures Unload(city, load).1[i].amount > 0 ==>
              Unload(city, load).0[Target(city, load[i].product)].amount == 0
  {
    UnloadSettles(city, load);
    var r := Target(city, load[i].product);
    assert load[..i] + ([load[i]] + load[i + 1..]) == load;
    AimedAppend(city, load[..i], [load[i]] + load[i + 1..], r);
    assert ([load[i]] + load[i + 1..])[1..] == load[i + 1..];
    AimedNotNegative(city, load[i + 1..], r);
    AimedNotNegative(city, load[..i], r);
  }

  lemma {:induction false} AimedAppend(city: Stocks, a: Stocks, b: Stocks, r: nat)
    requires city != []
    ensures Aimed(city, a + b, r) == Aimed(city, a, r) + Aimed(city, b, r)
    decreases |a|
  {
    if a == [] {
      assert a + b == b;
    } else {
      assert (a + b)[1..] == a[1..] + b;
      AimedAppend(city, a[1..], b, r);
    }
  }

  // ---------------------------------------------------------------- exactness per product

  /** The exchange is exact when it moves every product only into demand for that same product. */
  ghost predicate Exact(city: Stocks, plane: Stocks)
    requires city != [] || plane == []
  {
    forall q: int :: ExactFor(city, plane, q)
  }

  /** Every loaded item the city does not list comes too late to find demand left in the last entry:
      the items before it already cover that entry. */
  ghost predicate NothingMisdelivered(city: Stocks, plane: Stocks)
  {
    forall i: nat | i < |plane| :: CoveredAt(city, plane, i)
  }

  ghost predicate CoveredAt(city: Stocks, plane: Stocks, i: nat)
    requires i < |plane|
  {
    plane[i].amount > 0 && Find(city, plane[i].product) == |city| ==>
      city != [] && city[|city| - 1].amount <= AmountOf(plane[..i], city[|city| - 1].product)
  }

  /** The search that has no "not found" case moves goods between products exactly when some loaded
      item is not listed and the last entry still has demand when that item's turn comes. */
  lemma {:induction false} ExactIffNothingMisdelivered(city: Stocks, plane: Stocks)
    requires city != [] || plane == []
    requires NonNegative(city) && NonNegative(plane) && UniqueProducts(city)
    ensures Exact(city, plane) <==> NothingMisdelivered(city, plane)
    decreases |plane|
  {
    if plane == [] {
    } else {
      var item, tail := plane[0], plane[1..];
      var (c, it) := Offer(city, item);
      OfferKeeps(city, item);
      UnloadConserves(c, tail);
      ExactIffNothingMisdelivered(c, tail);
      if Find(city, item.product) < |city| || it.amount == item.amount {
        ExactStep(city, plane);
        MisdeliveredStep(city, plane);
      } else {
        FirstMisdelivered(city, plane);
        assert plane[..0] == [];
        assert !CoveredAt(city, plane, 0);
      }
    }
  }

  lemma UnloadAmounts(city: Stocks, plane: Stocks, q: int)
    requires city != [] && plane != []
    ensures var (c, it) := Offer(city, plane[0]);
            AmountOf(Unload(city, plane).1, q)
            == (if it.product == q then it.amount else 0) + AmountOf(Unload(c, plane[1..]).1, q)
  {
    var (c, it) := Offer(city, plane[0]);
    assert Unload(city, plane).1[1..] == Unload(c, plane[1..]).1;
  }

  ghost predicate ExactFor(city: Stocks, plane: Stocks, q: int)
    requires city != [] || plane == []
  {
    var (c, p) := Unload(city, plane);
    AmountOf(c, q) - AmountOf(p, q) == AmountOf(city, q) - AmountOf(plane, q)
  }

  lemma ExactForStep(city: Stocks, plane: Stocks, q: int)
    requires city != [] && plane != [] && NonNegative(city) && NonNegative(plane)
    requires Find(city, plane[0].product) < |city| || Offer(city, plane[0]).1.amount == plane[0].amount
    ensures ExactFor(city, plane, q) <==> ExactFor(Offer(city, plane[0]).0, plane[1..], q)
  {
    var j := Target(city, plane[0].product);
    var c := Offer(city, plane[0]).0;
    OfferKeeps(city, plane[0]);
    UnloadAmounts(city, plane, q);
    AmountOfUpdate(city, j, c[j], q);
  }

  /** A first item that finds its product, or moves nothing, leaves exactness to the rest. */
  lemma ExactStep(city: Stocks, plane: Stocks)
    requires city != [] && plane != [] && NonNegative(city) && NonNegative(plane)
    requires Find(city, plane[0].product) < |city| || Offer(city, plane[0]).1.amount == plane[0].amount
    ensures Exact(city, plane) <==> Exact(Offer(city, plane[0]).0, plane[1..])
  {
    forall q ensures ExactFor(city, plane, q) <==> ExactFor(Offer(city, plane[0]).0, plane[1..], q) {
      ExactForStep(city, plane, q);
    }
  }

  /** Seen from the second item on, the last entry is covered at the same places. */
  lemma CoverShifts(city: Stocks, plane: Stocks, i: nat)
    requires city != [] && NonNegative(city) && NonNegative(plane) && UniqueProducts(city)
    requires i + 1 < |plane|
    requires Find(city, plane[0].product) < |city| || Offer(city, plane[0]).1.amount == plane[0].amount
    ensures CoveredAt(city, plane, i + 1) <==> CoveredAt(Offer(city, plane[0]).0, plane[1..], i)
  {
    var n := |city| - 1;
    var (c, item) := Offer(city, plane[0]);
    var q := city[n].product;
    OfferKeeps(city, plane[0]);
    FindSameProducts(c, city, plane[i + 1].product);
    LastEntryAfterOffer(city, plane[0]);
    AmountOfFirst(plane, i, q);
    AmountOfMonotone(plane[1..][..i], plane[1..][..i], q);
  }

  lemma AmountOfFirst(plane: Stocks, i: nat, q: int)
    requires i < |plane|
    ensures AmountOf(plane[..i + 1], q) == (if plane[0].product == q then plane[0].amount else 0)
            + AmountOf(plane[1..][..i], q)
  {
    assert plane[..i + 1][1..] == plane[1..][..i];
  }

  /** An item that finds its product, or moves nothing, lowers the last entry only as the product listed there. */
  lemma LastEntryAfterOffer(city: Stocks, item: Item)
    requires city != [] && NonNegative(city) && item.amount >= 0 && UniqueProducts(city)
    requires Find(city, item.product) < |city| || Offer(city, item).1.amount == item.amount
    ensures var last, last' := city[|city| - 1], Offer(city, item).0[|city| - 1];
            && last'.product == last.product
            && if item.product == last.product
               then last'.amount == if last.amount >= item.amount then last.amount - item.amount else 0
               else last' == last
  {
    OfferKeeps(city, item);
    FindUnique(city, |city| - 1);
  }

  lemma MisdeliveredStep(city: Stocks, plane: Stocks)
    requires city != [] && plane != [] && NonNegative(city) && NonNegative(plane) && UniqueProducts(city)
    requires Find(city, plane[0].product) < |city| || Offer(city, plane[0]).1.amount == plane[0].amount
    ensures NothingMisdelivered(city, plane) <==> NothingMisdelivered(Offer(city, plane[0]).0, plane[1..])
  {
    var tail := plane[1..];
    var c := Offer(city, plane[0]).0;
    forall i: nat | i < |tail| ensures CoveredAt(city, plane, i + 1) <==> CoveredAt(c, tail, i) {
      CoverShifts(city, plane, i);
    }
    FirstCovered(city, plane);
    if NothingMisdelivered(c, tail) {
      forall i: nat | i < |plane| ensures CoveredAt(city, plane, i) {
        if i > 0 {
          assert CoveredAt(c, tail, i - 1);
        }
      }
    }
  }

  lemma FirstCovered(city: Stocks, plane: Stocks)
    requires city != [] && plane != [] && NonNegative(city) && NonNegative(plane)
    requires Find(city, plane[0].product) < |city| || Offer(city, plane[0]).1.amount == plane[0].amount
    ensures CoveredAt(city, plane, 0)
  {
    assert plane[..0] == [];
  }

  /** An unlisted first item that does move something loses it to another product for good. */
  lemma FirstMisdelivered(city: Stocks, plane: Stocks)
    requires city != [] && plane != [] && NonNegative(city) && NonNegative(plane)
    requires Find(city, plane[0].product) == |city| && Offer(city, plane[0]).1.amount != plane[0].amount
    ensures city[|city| - 1].amount > 0 && plane[0].amount > 0
    ensures !ExactFor(city, plane, plane[0].product)
  {
    var q := plane[0].product;
    var (c, it) := Offer(city, plane[0]);
    OfferKeeps(city, plane[0]);
    UnloadConserves(c, plane[1..]);
    var c' := Unload(city, plane).0;
    assert c' == Unload(c, plane[1..]).0;
    FindSameProducts(c, city, q);
    FindSameProducts(c', c, q);
    AmountOfAbsent(city, q);
    AmountOfAbsent(c', q);
    UnloadAmounts(city, plane, q);
    AmountOfMonotone(Unload(c, plane[1..]).1, plane[1..], q);
  }

  /** The exchange as it is meant: an item the city does not list stays on the plane. */
  function UnloadMatching(city: Stocks, plane: Stocks): (r: (Stocks, Stocks))
    ensures |r.0| == |city| && |r.1| == |plane|
    decreases |plane|
  {
    if plane == [] then (city, [])
    else
      var (c, item) := if Find(city, plane[0].product) < |city| then Offer(city, plane[0]) else (city, plane[0]);
      var (c', rest) := UnloadMatching(c, plane[1..]);
      (c', [item] + rest)
  }

  /** What the code does is exact, product by product, precisely when it is what is meant. */
  lemma {:induction false} ExactIffMatching(city: Stocks, plane: Stocks)
    requires city != [] || plane == []
    requires NonNegative(city) && NonNegative(plane)
    ensures Exact(city, plane) <==> Unload(city, plane) == UnloadMatching(city, plane)
    decreases |plane|
  {
    if plane != [] {
      var (c, item) := Offer(city, plane[0]);
      OfferKeeps(city, plane[0]);
      if Find(city, plane[0].product) < |city| || item.amount == plane[0].amount {
        assert Find(city, plane[0].product) == |city| ==> c == city && item == plane[0];
        ExactStep(city, plane);
        ExactIffMatching(c, plane[1..]);
        var r, m := Unload(c, plane[1..]), UnloadMatching(c, plane[1..]);
        assert ([item] + r.1)[1..] == r.1 && ([item] + m.1)[1..] == m.1;
      } else {
        FirstMisdelivered(city, plane);
        assert Unload(city, plane).1[0] != UnloadMatching(city, plane).1[0];
      }
    }
  }

  /** With one more entry, last and asking for nothing, the code does what is meant. */
  lemma {:induction false} LastEntryGuards(city: Stocks, plane: Stocks, q: int)
    requires NonNegative(city) && NonNegative(plane) && Find(plane, q) == |plane|
    ensures var m := UnloadMatching(city, plane);
            Unload(city + [Item(q, 0)], plane) == (m.0 + [Item(q, 0)], m.1)
    decreases |plane|
  {
    if plane != [] {
      var item, longer := plane[0], city + [Item(q, 0)];
      FindLonger(city, q, item.product);
      assert q != item.product;
      var c := if Find(city, item.product) < |city| then Offer(city, item).0 else city;
      if Find(city, item.product) < |city| {
        OfferKeeps(city, item);
      }
      assert Offer(longer, item).0 == c + [Item(q, 0)];
      LastEntryGuards(c, plane[1..], q);
    }
  }

  lemma {:induction false} FindLonger(city: Stocks, q: int, p: int)
    requires p != q
    ensures Find(city + [Item(q, 0)], p) == if Find(city, p) < |city| then Find(city, p) else |city| + 1
    decreases |city|
  {
    if city == [] {
      assert [Item(q, 0)][1..] == [];
    } else {
      assert (city + [Item(q, 0)])[1..] == city[1..] + [Item(q, 0)];
      FindLonger(city[1..], q, p);
    }
  }

  /** And it scores the same. */
  lemma {:induction false} LastEntryScoresNothing(city: Stocks, plane: Stocks, q: int)
    requires NonNegative(plane)
    ensures Score(city + [Item(q, 0)], plane) == Score(city, plane)
    decreases |city|
  {
    if city == [] {
      assert [Item(q, 0)][1..] == [];
    } else {
      assert (city + [Item(q, 0)])[1..] == city[1..] + [Item(q, 0)];
      LastEntryScoresNothing(city[1..], plane, q);
    }
  }

  /** Ten aspirins landing in a city that only asks for ten syrups: the syrup demand disappears. */
  lemma MisdeliveryExample()
    ensures var city, plane := [Item(1, 10)], [Item(0, 10)];
            !Exact(city, plane) && Unload(city, plane) == ([Item(1, 0)], [Item(0, 0)])
  {
    var city, plane := [Item(1, 10)], [Item(0, 10)];
    assert Find(city, 0) == 1;
    assert city[0 := Item(1, 0)] == [Item(1, 0)];
    assert Offer(city, plane[0]) == ([Item(1, 0)], Item(0, 0));
    assert Unload([Item(1, 0)], plane[1..]) == ([Item(1, 0)], []);
    assert [Item(0, 0)] + [] == [Item(0, 0)];
    FirstMisdelivered(city, plane);
  }

  // ---------------------------------------------------------------- usefulness of a city

  /** What a plane could deliver into one entry of a city. */
  function Contribution(entry: Item, plane: Stocks): int {
    var j := Find(plane, entry.product);
    if j == |plane| then 0
    else if entry.amount > plane[j].amount then plane[j].amount else entry.amount
  }

  function Score(city: Stocks, plane: Stocks): int {
    if city == [] then 0 else Contribution(city[0], plane) + Score(city[1..], plane)
  }

  /** A score is never negative, and it is zero exactly when no entry can take anything. */
  lemma {:induction false} ScoreZeroIff(city: Stocks, plane: Stocks)
    requires NonNegative(city) && NonNegative(plane)
    ensures 0 <= Score(city, plane) <= Total(city)
    ensures Score(city, plane) == 0 <==> forall i | 0 <= i < |city| :: Contribution(city[i], plane) == 0
  {
    if city != [] {
      ScoreZeroIff(city[1..], plane);
      assert forall i | 0 < i < |city| :: city[i] == city[1..][i - 1];
    }
  }

  lemma {:induction false} ScoreMonotone(after: Stocks, before: Stocks, plane: Stocks)
    requires LeftOf(after, before) && NonNegative(plane)
    ensures 0 <= Score(after, plane) <= Score(before, plane)
  {
    if before != [] {
      ScoreMonotone(after[1..], before[1..], plane);
    }
  }

  // ---------------------------------------------------------------- what a score means in goods

  /** An entry of the city asks for something of which the plane carries some. */
  ghost predicate Wanted(city: Stocks, load: Stocks, i: nat, k: nat)
    requires i < |city| && k < |load|
  {
    city[i].amount > 0 && load[k].amount > 0 && load[k].product == city[i].product
  }

  /** The city asks for nothing the plane carries. */
  ghost predicate WantsNothing(city: Stocks, load: Stocks) {
    forall i, k | 0 <= i < |city| && 0 <= k < |load| :: !Wanted(city, load, i, k)
  }

  /** Something wanted stands behind a first entry of the same product that is empty, where the score does not look. */
  ghost predicate Overlooks(city: Stocks, load: Stocks) {
    exists i, k | 0 <= i < |city| && 0 <= k < |load| ::
      Wanted(city, load, i, k) && load[Find(load, load[k].product)].amount == 0
  }

  /** A score of 0 means that the city wants nothing of the load, except for wanted products that are repeated
      behind an empty first entry. */
  lemma WantsNothingIff(city: Stocks, load: Stocks)
    requires NonNegative(city) && NonNegative(load)
    ensures WantsNothing(city, load) <==> Score(city, load) == 0 && !Overlooks(city, load)
  {
    ScoreZeroIff(city, load);
    if WantsNothing(city, load) {
      forall i: nat | i < |city| ensures Contribution(city[i], load) == 0 {
        NoContributionIff(city, load, i);
      }
    }
    if Score(city, load) == 0 && !Overlooks(city, load) {
      forall i: nat, k: nat | i < |city| && k < |load| ensures !Wanted(city, load, i, k) {
        FindsEarlier(load, k);
        NoContributionIff(city, load, i);
      }
    }
  }

  lemma NoContributionIff(city: Stocks, load: Stocks, i: nat)
    requires NonNegative(city) && NonNegative(load) && i < |city|
    ensures var j := Find(load, city[i].product);
            Contribution(city[i], load) == 0 <==> (j < |load| ==> !Wanted(city, load, i, j))
  {
  }

  lemma FindsEarlier(s: Stocks, k: nat)
    requires k < |s|
    ensures Find(s, s[k].product) <= k
  {
  }

  /** With no product twice in the load there is no exception. */
  lemma UniqueWantsNothingIff(city: Stocks, load: Stocks)
    requires NonNegative(city) && NonNegative(load) && UniqueProducts(load)
    ensures !Overlooks(city, load)
    ensures WantsNothing(city, load) <==> Score(city, load) == 0
  {
    forall k: nat | k < |load| ensures Find(load, load[k].product) == k {
      FindUnique(load, k);
    }
    WantsNothingIff(city, load);
  }

  lemma {:induction false} ScoreUpdate(city: Stocks, j: nat, x: Item, load: Stocks)
    requires j < |city|
    ensures Score(city[j := x], load) == Score(city, load) - Contribution(city[j], load) + Contribution(x, load)
    decreases |city|
  {
    if j == 0 {
      assert city[j := x][1..] == city[1..];
    } else {
      assert city[j := x][1..] == city[1..][j - 1 := x];
      ScoreUpdate(city[1..], j - 1, x, load);
    }
  }

  function Smaller(a: int, b: int): int { if a > b then b else a }

  /** The score of a load is that of its first item and that of the rest, where the item does not come first. */
  lemma {:induction false} ScoreOfFirst(city: Stocks, load: Stocks)
    requires load != [] && UniqueProducts(city)
    ensures var j, rest := Find(city, load[0].product), load[1..];
            Score(city, load) == Score(city, rest)
              + if j == |city| then 0 else Smaller(city[j].amount, load[0].amount) - Contribution(city[j], rest)
    decreases |city|
  {
    if city != [] {
      ScoreOfFirst(city[1..], load);
      if city[0].product == load[0].product {
        assert forall i | 0 < i < |city| :: city[i].product != load[0].product;
        NoneFound(city[1..], load[0].product);
      }
    }
  }

  lemma NoneFound(s: Stocks, q: int)
    requires forall i | 0 <= i < |s| :: s[i].product != q
    ensures Find(s, q) == |s|
  {
  }

  /** Lowering an entry lowers what can be delivered into it, by no more. */
  lemma ContributionLowered(entry: Item, amount: int, load: Stocks)
    requires 0 <= amount <= entry.amount && NonNegative(load)
    ensures 0 <= Contribution(entry, load) - Contribution(entry.(amount := amount), load) <= entry.amount - amount
    ensures 0 <= Contribution(entry, load)
  {
  }

  /** One item of an unload: what it delivers, and what that does to the score of the rest. */
  lemma OfferAndScore(city: Stocks, load: Stocks)
    requires city != [] && load != [] && NonNegative(city) && NonNegative(load) && UniqueProducts(city)
    ensures var (c, item) := Offer(city, load[0]);
            && Score(city, load) <= Score(c, load[1..]) + load[0].amount - item.amount
            && (UniqueProducts(load) && (Find(city, load[0].product) < |city| || item.amount == load[0].amount) ==>
                  Score(city, load) == Score(c, load[1..]) + load[0].amount - item.amount)
  {
    var (c, item) := Offer(city, load[0]);
    var rest, j := load[1..], Target(city, load[0].product);
    OfferKeeps(city, load[0]);
    ScoreOfFirst(city, load);
    ScoreUpdate(city, j, c[j], rest);
    ContributionLowered(city[j], c[j].amount, rest);
    ContributionLowered(c[j], 0, rest);
    if UniqueProducts(load) {
      assert forall k | 0 <= k < |rest| :: rest[k] == load[k + 1];
      NoneFound(rest, load[0].product);
    }
  }

  /** A score promises no more than what an unload delivers; for a load without repetition and an exact unload it
      is just that. */
  lemma {:induction false} ScoreIsDelivered(city: Stocks, load: Stocks)
    requires city != [] || load == []
    requires NonNegative(city) && NonNegative(load) && UniqueProducts(city)
    ensures Score(city, load) <= Total(city) - Total(Unload(city, load).0)
    ensures UniqueProducts(load) && Exact(city, load) ==> Score(city, load) == Total(city) - Total(Unload(city, load).0)
    decreases |load|
  {
    if load == [] {
      EmptyScores(city);
    } else {
      var (c, item) := Offer(city, load[0]);
      OfferKeeps(city, load[0]);
      OfferAndScore(city, load);
      ScoreIsDelivered(c, load[1..]);
      if UniqueProducts(load) && Exact(city, load) {
        if Find(city, load[0].product) < |city| || item.amount == load[0].amount {
          ExactStep(city, load);
        } else {
          FirstMisdelivered(city, load);
        }
      }
    }
  }

  /** For a load without repetition a score is what the exchange would deliver if it did what is meant. */
  lemma {:induction false} ScoreIsMeant(city: Stocks, load: Stocks)
    requires NonNegative(city) && NonNegative(load) && UniqueProducts(city) && UniqueProducts(load)
    ensures Score(city, load) == Total(city) - Total(UnloadMatching(city, load).0)
    decreases |load|
  {
    if load == [] {
      EmptyScores(city);
    } else if Find(city, load[0].product) < |city| {
      OfferKeeps(city, load[0]);
      OfferAndScore(city, load);
      ScoreIsMeant(Offer(city, load[0]).0, load[1..]);
    } else {
      ScoreOfFirst(city, load);
      ScoreIsMeant(city, load[1..]);
    }
  }

  /** Scores add up over the entries of a city. */
  lemma {:induction false} ScoreAdds(a: Stocks, b: Stocks, load: Stocks)
    ensures Score(a + b, load) == Score(a, load) + Score(b, load)
    decreases |a|
  {
    if a == [] {
      assert a + b == b;
    } else {
      assert (a + b)[1..] == a[1..] + b;
      ScoreAdds(a[1..], b, load);
    }
  }

  /** One entry adds the smaller of what it asks for and what the first item for its product holds. */
  lemma ScoreOfEntry(entry: Item, load: Stocks, j: nat)
    requires j <= |load| && (forall i | 0 <= i < j :: load[i].product != entry.product)
    requires j < |load| ==> load[j].product == entry.product
    ensures Score([entry], load) == if j == |load| then 0
                                    else if entry.amount <= load[j].amount then entry.amount
                                    else load[j].amount
  {
    assert [entry][1..] == [];
    assert Find(load, entry.product) == j;
  }

  lemma {:induction false} EmptyScores(city: Stocks)
    ensures Score(city, []) == 0
  {
    if city != [] {
      EmptyScores(city[1..]);
    }
  }

  /** Once a plane has unloaded, the city it is in has no further use for it, even though unlisted
      items were exchanged against the last entry. */
  lemma {:induction false} UnloadLeavesNoUse(city: Stocks, plane: Stocks)
    requires city != [] || plane == []
    requires NonNegative(city) && NonNegative(plane) && UniqueProducts(city)
    ensures Score(Unload(city, plane).0, Unload(city, plane).1) == 0
  {
    UnloadConserves(city, plane);
    var (c, p) := Unload(city, plane);
    forall i | 0 <= i < |c| ensures Contribution(c[i], p) == 0 {
      NoUseAt(city, plane, i);
    }
    ScoreZeroIff(c, p);
  }

  lemma {:induction false} NoUseAt(city: Stocks, plane: Stocks, i: nat)
    requires city != [] || plane == []
    requires NonNegative(city) && NonNegative(plane) && UniqueProducts(city)
    requires i < |city|
    ensures Contribution(Unload(city, plane).0[i], Unload(city, plane).1) == 0
    decreases |plane|
  {
    UnloadConserves(city, plane);
    if plane != [] {
      var (c1, item) := Offer(city, plane[0]);
      OfferKeeps(city, plane[0]);
      UnloadConserves(c1, plane[1..]);
      var (c, rest) := Unload(c1, plane[1..]);
      FindUnique(city, i);
      if item.product != city[i].product {
        NoUseAt(c1, plane[1..], i);
        assert ([item] + rest)[1..] == rest;
      }
    }
  }

  /** A plane that lands where its score is positive delivers something. */
  lemma {:induction false} PositiveScoreDelivers(city: Stocks, plane: Stocks)
    requires city != [] || plane == []
    requires NonNegative(city) && NonNegative(plane) && UniqueProducts(city)
    requires Score(city, plane) > 0
    ensures Total(Unload(city, plane).0) < Total(city)
  {
    ScoreZeroIff(city, plane);
    var i :| 0 <= i < |city| && Contribution(city[i], plane) != 0;
    DeliversAt(city, plane, i);
  }

  lemma {:induction false} DeliversAt(city: Stocks, plane: Stocks, i: nat)
    requires city != []
    requires NonNegative(city) && NonNegative(plane) && UniqueProducts(city)
    requires i < |city| && Contribution(city[i], plane) > 0
    ensures Total(Unload(city, plane).0) < Total(city)
    decreases |plane|
  {
    var (c1, item) := Offer(city, plane[0]);
    OfferKeeps(city, plane[0]);
    UnloadConserves(c1, plane[1..]);
    TotalMonotone(Unload(c1, plane[1..]).0, c1);
    FindUnique(city, i);
    if item.amount == plane[0].amount {
      assert c1 == city && plane[0].product != city[i].product;
      DeliversAt(city, plane[1..], i);
    }
  }

  // ---------------------------------------------------------------- the ten best cities

  datatype CityInfo = CityInfo(city: nat, distance: int, score: int)

  /** The first of the entries with the lowest score. */
  function MinIndex(k: seq<CityInfo>): (r: nat)
    requires k != []
    ensures r < |k|
    ensures forall i | 0 <= i < |k| :: k[r].score <= k[i].score
    ensures forall i | 0 <= i < r :: k[r].score < k[i].score
  {
    var n := |k| - 1;
    if n == 0 then 0
    else
      var m := MinIndex(k[..n]);
      if k[n].score < k[m].score then n else m
  }

  /** Keeps a candidate: appended while there is room, later only instead of a strictly worse entry. */
  function Insert(k: seq<CityInfo>, c: CityInfo): seq<CityInfo> {
    if |k| < MAX_DESTINATIONS then k + [c]
    else
      var m := MinIndex(k);
      if c.score > k[m].score then k[m := c] else k
  }

  predicate Square(dist: seq<seq<int>>, n: nat) {
    |dist| == n && forall i | 0 <= i < n :: |dist[i]| == n
  }

  /** The entries kept for a plane in city `at` after looking at the first n cities. */
  function Kept(cities: seq<Stocks>, dist: seq<seq<int>>, at: nat, load: Stocks, n: nat): (k: seq<CityInfo>)
    requires Square(dist, |cities|) && at < |cities| && n <= |cities|
    ensures |k| <= MAX_DESTINATIONS
  {
    if n == 0 then []
    else
      var k := Kept(cities, dist, at, load, n - 1);
      var score := Score(cities[n - 1], load);
      if score != 0 then Insert(k, CityInfo(n - 1, dist[n - 1][at], score)) else k
  }

  /** The useful cities among the first n, each with its distance and score. */
  ghost function Useful(cities: seq<Stocks>, dist: seq<seq<int>>, at: nat, load: Stocks, n: nat): set<CityInfo>
    requires Square(dist, |cities|) && at < |cities| && n <= |cities|
  {
    set c: nat | c < n && Score(cities[c], load) != 0 :: CityInfo(c, dist[c][at], Score(cities[c], load))
  }

  /** k lists ten members of u, or all of them when there are fewer, each once, and no member of u
      that was left out scores higher than one that is listed. */
  ghost predicate BestTen(u: set<CityInfo>, k: seq<CityInfo>) {
    && |k| == (if |u| <= MAX_DESTINATIONS then |u| else MAX_DESTINATIONS)
    && (forall i, j | 0 <= i < j < |k| :: k[i] != k[j])
    && (forall e | e in k :: e in u)
    && (forall c, e | c in u && c !in k && e in k :: c.score <= e.score)
  }

  /** A list without repetitions of as many members as u has lists all of u. */
  lemma {:induction false} FullListIsAll(u: set<CityInfo>, k: seq<CityInfo>)
    requires forall i, j | 0 <= i < j < |k| :: k[i] != k[j]
    requires forall e | e in k :: e in u
    requires |k| == |u|
    ensures forall e | e in u :: e in k
    decreases |k|
  {
    if k == [] {
    } else {
      var last, rest := k[|k| - 1], k[..|k| - 1];
      assert forall i | 0 <= i < |rest| :: rest[i] == k[i];
      assert forall e | e in rest :: e in k;
      FullListIsAll(u - {last}, rest);
      assert forall e | e in u :: e == last || e in u - {last};
    }
  }

  lemma InsertKeepsBest(u: set<CityInfo>, k: seq<CityInfo>, candidate: CityInfo)
    requires BestTen(u, k) && candidate !in u
    ensures BestTen(u + {candidate}, Insert(k, candidate))
  {
    var k' := Insert(k, candidate);
    if |k| < MAX_DESTINATIONS {
      FullListIsAll(u, k);
      forall c | c in u ensures c in k' {
        var i :| 0 <= i < |k| && k[i] == c;
        assert k'[i] == c;
      }
      assert k'[|k|] == candidate;
    } else {
      var m := MinIndex(k);
      if candidate.score > k[m].score {
        assert k'[m] == candidate;
        assert forall e | e in k' :: e == candidate || e in k;
        forall c | c in k && c != k[m] ensures c in k' {
          var i :| 0 <= i < |k| && k[i] == c;
          assert k'[i] == c;
        }
      }
    }
  }

  lemma UsefulGrows(cities: seq<Stocks>, dist: seq<seq<int>>, at: nat, load: Stocks, n: nat)
    requires Square(dist, |cities|) && at < |cities| && 0 < n <= |cities|
    ensures Useful(cities, dist, at, load, n) ==
            Useful(cities, dist, at, load, n - 1) +
            if Score(cities[n - 1], load) == 0 then {}
            else {CityInfo(n - 1, dist[n - 1][at], Score(cities[n - 1], load))}
  {
  }

  /** After any number of cities the kept entries are distinct useful cities with their true score and
      distance, there are ten of them or all there are, and no other city scores higher than a kept one. */
  lemma {:induction false} KeptIsBestTen(cities: seq<Stocks>, dist: seq<seq<int>>, at: nat, load: Stocks, n: nat)
    requires Square(dist, |cities|) && at < |cities| && n <= |cities|
    ensures BestTen(Useful(cities, dist, at, load, n), Kept(cities, dist, at, load, n))
  {
    if n == 0 {
    } else {
      KeptIsBestTen(cities, dist, at, load, n - 1);
      UsefulGrows(cities, dist, at, load, n);
      var score := Score(cities[n - 1], load);
      if score != 0 {
        InsertKeepsBest(Useful(cities, dist, at, load, n - 1), Kept(cities, dist, at, load, n - 1),
                        CityInfo(n - 1, dist[n - 1][at], score));
      }
    }
  }

  /** While the table is full, a candidate no better than any entry leaves it alone, and a better one takes the place
      of the first of the lowest entries; the others stay where they are. */
  lemma InsertIntoFull(k: seq<CityInfo>, candidate: CityInfo, m: nat)
    requires |k| == 10 && m < 10
    requires forall i | 0 <= i < 10 :: k[m].score <= k[i].score
    requires forall i | 0 <= i < m :: k[m].score < k[i].score
    ensures candidate.score <= k[m].score ==> Insert(k, candidate) == k
    ensures candidate.score > k[m].score ==> Insert(k, candidate) == k[m := candidate]
  {
    var r := MinIndex(k);
    assert k[r].score <= k[m].score && k[m].score <= k[r].score;
  }

  // ---------------------------------------------------------------- the answer to a plane

  /** The library sort need not be stable, so the answer is any arrangement by distance. */
  ghost predicate SortedByDistance(k: seq<CityInfo>, l: seq<CityInfo>) {
    && multiset(l) == multiset(k)
    && forall i, j | 0 <= i < j < |l| :: l[i].distance <= l[j].distance
  }

  ghost predicate Answer(cities: seq<Stocks>, dist: seq<seq<int>>, at: nat, load: Stocks, l: seq<CityInfo>)
    requires Square(dist, |cities|) && at < |cities|
  {
    SortedByDistance(Kept(cities, dist, at, load, |cities|), l)
  }

  /** An empty answer means that no city can use the load; otherwise the first entry is a useful city
      at its true distance, and none of the ten best is nearer. */
  lemma AnswerMeaning(cities: seq<Stocks>, dist: seq<seq<int>>, at: nat, load: Stocks, l: seq<CityInfo>)
    requires Square(dist, |cities|) && at < |cities| && Answer(cities, dist, at, load, l)
    ensures l == [] <==> forall c | 0 <= c < |cities| :: Score(cities[c], load) == 0
    ensures l != [] ==>
              && l[0].city < |cities| && Score(cities[l[0].city], load) != 0
              && l[0].distance == dist[l[0].city][at]
              && forall e | e in Kept(cities, dist, at, load, |cities|) :: l[0].distance <= e.distance
  {
    var n := |cities|;
    var k := Kept(cities, dist, at, load, n);
    var u := Useful(cities, dist, at, load, n);
    KeptIsBestTen(cities, dist, at, load, n);
    assert |multiset(l)| == |l| && |multiset(k)| == |k|;
    forall c: nat | c < n && Score(cities[c], load) != 0 ensures l != [] {
      assert CityInfo(c, dist[c][at], Score(cities[c], load)) in u;
    }
    if l != [] {
      assert l[0] in multiset(k);
      forall e | e in k ensures l[0].distance <= e.distance {
        assert e in multiset(l);
        var i :| 0 <= i < |l| && l[i] == e;
      }
    }
  }

  /** One arrangement by distance; the library sort may produce any other. */
  function Sorted(k: seq<CityInfo>): seq<CityInfo> {
    if k == [] then [] else Place(Sorted(k[1..]), k[0])
  }

  function Place(l: seq<CityInfo>, c: CityInfo): seq<CityInfo> {
    if l == [] then [c]
    else if c.distance <= l[0].distance then [c] + l
    else [l[0]] + Place(l[1..], c)
  }

  ghost predicate Ascending(l: seq<CityInfo>) {
    forall i, j | 0 <= i < j < |l| :: l[i].distance <= l[j].distance
  }

  lemma {:induction false} PlaceHolds(l: seq<CityInfo>, c: CityInfo)
    ensures multiset(Place(l, c)) == multiset(l) + multiset{c}
  {
    if l != [] && c.distance > l[0].distance {
      PlaceHolds(l[1..], c);
      assert l == [l[0]] + l[1..];
    }
  }

  lemma {:induction false} PlaceAscends(l: seq<CityInfo>, c: CityInfo)
    requires Ascending(l)
    ensures Ascending(Place(l, c))
    ensures l != [] ==> Place(l, c)[0] == if c.distance <= l[0].distance then c else l[0]
  {
    if l != [] && c.distance > l[0].distance {
      PlaceAscends(l[1..], c);
      AscendingFrom(l[0], Place(l[1..], c));
    }
  }

  lemma AscendingFrom(c: CityInfo, l: seq<CityInfo>)
    requires Ascending(l) && (l != [] ==> c.distance <= l[0].distance)
    ensures Ascending([c] + l)
  {
    forall j | 0 < j < |l| + 1 ensures ([c] + l)[0].distance <= ([c] + l)[j].distance {
      assert l[0].distance <= l[j - 1].distance;
    }
  }

  lemma SortedIsAnswer(cities: seq<Stocks>, dist: seq<seq<int>>, at: nat, load: Stocks, k: seq<CityInfo>)
    requires Square(dist, |cities|) && at < |cities| && k == Kept(cities, dist, at, load, |cities|)
    ensures Answer(cities, dist, at, load, Sorted(k))
  {
    SortedIsSorted(k);
  }

  lemma {:induction false} SortedIsSorted(k: seq<CityInfo>)
    ensures SortedByDistance(k, Sorted(k))
  {
    if k != [] {
      SortedIsSorted(k[1..]);
      PlaceHolds(Sorted(k[1..]), k[0]);
      PlaceAscends(Sorted(k[1..]), k[0]);
      assert k == [k[0]] + k[1..];
    }
  }
}
