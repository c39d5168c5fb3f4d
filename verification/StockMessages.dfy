/** The messages that carry a plane's load to the map and back. */
module StockMessages {
  // Two tables of fixed size, of which only the first `count` places are meant.

  import opened Delivery
  import opened MapKernel
  import opened Products
  import SharedTable

  const MAX_STOCKS: nat := 50

  datatype StockMessage = StockMessage(count: nat, stockId: seq<int>, quantities: seq<int>)

  ghost predicate WellFormed(msg: StockMessage) {
    msg.count <= MAX_STOCKS == |msg.stockId| == |msg.quantities|
  }

  /** The longest message with stocks in it, as it is laid out in memory: four numbers of its header, the number of
      destinations, the count, and the two tables. */
  ghost function Bytes(msg: StockMessage): nat {
    4 * 4 + 8 + 8 + 4 * |msg.stockId| + 4 * |msg.quantities|
  }

  /** It holds fifty stocks and still fits a packet, so that it is never cut. */
  lemma FitsPacket(msg: StockMessage)
    requires WellFormed(msg)
    ensures msg.count <= 50 == |msg.stockId| && Bytes(msg) <= 512 == SharedTable.MAX_PACKET
  {
  }

  ghost function Meant(msg: StockMessage): (r: Stocks)
    requires WellFormed(msg)
    ensures |r| == msg.count && forall i | 0 <= i < |r| :: r[i] == Item(msg.stockId[i], msg.quantities[i])
  {
    seq(msg.count, i requires 0 <= i < msg.count => Item(msg.stockId[i], msg.quantities[i]))
  }

  ghost predicate Known(names: seq<string>, s: Stocks) {
    forall i | 0 <= i < |s| :: 0 <= s[i].product < |names|
  }

  /** The map rebuilds the first n items it is sent: number, name, and number again. */
  ghost function Rebuild(names: seq<string>, s: Stocks, n: nat): (r: (seq<string>, Stocks))
    requires n <= |s| && Known(names, s)
    ensures |r.1| == n && names <= r.0
  {
    if n == 0 then (names, [])
    else
      var r := Rebuild(names, s, n - 1);
      var product := Intern(r.0, r.0[s[n - 1].product]);
      (product.0, r.1 + [Item(product.1, s[n - 1].amount)])
  }

  lemma {:induction false} RebuildIsFaithful(names: seq<string>, s: Stocks, n: nat)
    requires n <= |s| && Known(names, s) && UniqueNames(names)
    ensures Rebuild(names, s, n) == (names, s[..n])
  {
    if n > 0 {
      RebuildIsFaithful(names, s, n - 1);
      var i := s[n - 1].product;
      assert Intern(names, names[i]) == (names, i) by {
        NumbersAreStable(names);
      }
      assert s[..n] == s[..n - 1] + [s[n - 1]];
    }
  }

  /** Every load survives the way through the names, and leaves the table alone, exactly when no name
      is in the table twice. */
  lemma RebuildIsExact(names: seq<string>)
    ensures UniqueNames(names) <==> forall s | Known(names, s) :: Rebuild(names, s, |s|) == (names, s)
  {
    if UniqueNames(names) {
      forall s | Known(names, s) ensures Rebuild(names, s, |s|) == (names, s) {
        RebuildIsFaithful(names, s, |s|);
        assert s[..|s|] == s;
      }
    } else {
      var i, j :| 0 <= i < j < |names| && names[i] == names[j];
      var s := [Item(j, 0)];
      assert Rebuild(names, s, 0) == (names, []);
      InternMeaning(names, names[j]);
      assert Rebuild(names, s, 1).1[0].product <= i;
      assert Known(names, s) && Rebuild(names, s, |s|) != (names, s);
    }
  }

  // ---------------------------------------------------------------- in place

  /** Fills the two tables from a stock list.  The places after the last stock keep what was in them. */
  method MarshallStocks(stocks: seq<Stock>) returns (msg: StockMessage)
    requires |stocks| <= MAX_STOCKS
    ensures WellFormed(msg) && Meant(msg) == View(stocks)
  {
    var stockId, quantities := new int[MAX_STOCKS], new int[MAX_STOCKS];
    for i := 0 to |stocks|
      invariant forall k | 0 <= k < i :: stockId[k] == stocks[k].product && quantities[k] == stocks[k].amount
    {
      stockId[i] := stocks[i].product;
      quantities[i] := stocks[i].amount;
    }
    msg := StockMessage(|stocks|, stockId[..], quantities[..]);
    assert forall k | 0 <= k < |stocks| :: Meant(msg)[k] == View(stocks)[k];
  }

  lemma DistinctAppend(stocks: seq<Stock>, stock: Stock)
    requires Distinct(stocks) && stock !in stocks
    ensures Distinct(stocks + [stock])
  {
  }

  /** The stock for place j: its number is turned into a name, which is looked up again. */
  method InitStockFrom(msg: StockMessage, j: nat, table: Table) returns (stock: Stock)
    requires WellFormed(msg) && table.Valid() && j < msg.count && 0 <= msg.stockId[j] < |table.Names()|
    modifies table
    ensures table.Valid() && table.Names() == old(table.Names())
    ensures fresh(stock) && stock.product == msg.stockId[j] && stock.amount == msg.quantities[j]
  {
    NumbersAreStable(table.Names());
    var name := table.GetProductName(msg.stockId[j]);
    stock := table.InitStock(name, msg.quantities[j]);
  }

  /** Adds one more stock to the plane that is being rebuilt. */
  method AddStock(msg: StockMessage, j: nat, table: Table, stocks: seq<Stock>) returns (longer: seq<Stock>)
    requires WellFormed(msg) && table.Valid() && j == |stocks| < msg.count && 0 <= msg.stockId[j] < |table.Names()|
    requires Distinct(stocks)
    modifies table
    ensures table.Valid() && table.Names() == old(table.Names())
    ensures |longer| == j + 1 && Distinct(longer) && (forall i | 0 <= i < j :: longer[i] == stocks[i]) &&
            fresh(longer[j])
    ensures longer[j].product == msg.stockId[j] && longer[j].amount == msg.quantities[j]
  {
    var stock := InitStockFrom(msg, j, table);
    DistinctAppend(stocks, stock);
    longer := stocks + [stock];
  }

  /** The map rebuilds the plane: a true copy of the load, and no product is added on the way. */
  method InitPlane(msg: StockMessage, table: Table) returns (stocks: seq<Stock>)
    requires WellFormed(msg) && table.Valid() && Known(table.Names(), Meant(msg))
    modifies table
    ensures table.Valid() && table.Names() == old(table.Names())
    ensures Distinct(stocks) && forall i | 0 <= i < |stocks| :: fresh(stocks[i])
    ensures View(stocks) == Meant(msg)
  {
    stocks := [];
    var j := 0;
    while j < msg.count
      invariant j == |stocks| <= msg.count && table.Valid() && table.Names() == old(table.Names()) && Distinct(stocks)
      invariant forall i | 0 <= i < j :: fresh(stocks[i])
      invariant forall i | 0 <= i < j :: stocks[i].product == msg.stockId[i] && stocks[i].amount == msg.quantities[i]
    {
      assert Meant(msg)[j].product == msg.stockId[j];
      stocks := AddStock(msg, j, table, stocks);
      j := j + 1;
    }
  }

  /** What the airline hands on is the table of quantities alone; the plane takes the first `count`. */
  method RedirectStock(msg: StockMessage) returns (amounts: seq<int>)
    requires WellFormed(msg)
    ensures |amounts| == msg.count && forall i | 0 <= i < |amounts| :: amounts[i] == Meant(msg)[i].amount
  {
    amounts := msg.quantities[..msg.count];
  }

  lemma ViewFromAmounts(products: Stocks, s: Stocks, load: Stocks)
    requires |products| == |s| == |load|
    requires forall i | 0 <= i < |s| :: s[i].product == products[i].product == load[i].product
    requires forall i | 0 <= i < |s| :: s[i].amount == load[i].amount
    ensures s == load
  {
  }

  /** The map's part: rebuild the plane, exchange, and send the amounts back.  It is not ok when the exchange is
      undefined; then nothing has changed. */
  method AnswerUnload(world: Map, table: Table, cityId: nat, request: StockMessage)
    returns (ok: bool, reply: StockMessage)
    requires world.Valid() && table.Valid()
    requires WellFormed(request) && Known(table.Names(), Meant(request))
    requires cityId < |world.cities|
    modifies table, world.cities[cityId]
    ensures WellFormed(reply) && table.Names() == old(table.Names())
    ensures ok <==> TryUnload(old(world.Demands()[cityId]), Meant(request)) != NoEntry
    ensures ok ==>
              Exchanged(world.Demands()[cityId], Meant(reply))
              == TryUnload(old(world.Demands()[cityId]), Meant(request))
    ensures !ok ==> world.Demands() == old(world.Demands())
    ensures world.Demands() == old(world.Demands())[cityId := world.Demands()[cityId]]
  {
    ghost var demands := world.Demands();
    var copy := InitPlane(request, table);
    assert world.Demands() == demands;
    ok := world.UpdateMap(cityId, copy);
    reply := MarshallStocks(copy);
  }

  /** The plane's part: it takes over the amounts that were redirected to it. */
  method TakeReply(stocks: seq<Stock>, reply: StockMessage, ghost world: Map) returns (ok: bool, done: bool)
    requires Distinct(stocks) && WellFormed(reply) && LeftOf(Meant(reply), View(stocks))
    requires forall s | s in stocks :: s !in world.Objects()
    modifies stocks
    ensures ok && View(stocks) == Meant(reply) && (done <==> Spent(View(stocks)))
    ensures world.Demands() == old(world.Demands())
  {
    ghost var load, demands := View(stocks), world.Demands();
    var amounts := RedirectStock(reply);
    ok, done := TakeOver(stocks, amounts);
    ViewFromAmounts(load, View(stocks), Meant(reply));
    forall c | 0 <= c < |world.cities| ensures View(world.cities[c]) == demands[c] {
      assert forall i | 0 <= i < |world.cities[c]| :: world.cities[c][i] in world.Objects();
      assert forall i | 0 <= i < |world.cities[c]| :: world.cities[c][i].amount == old(world.cities[c][i].amount);
    }
  }

  /** The plane asks and the map answers. */
  method AskMap(world: Map, table: Table, cityId: nat, stocks: seq<Stock>) returns (ok: bool, reply: StockMessage)
    requires world.Valid() && table.Valid() && cityId < |world.cities|
    requires |stocks| <= MAX_STOCKS && Known(table.Names(), View(stocks))
    requires forall s | s in stocks :: s !in world.Objects()
    modifies table, world.cities[cityId]
    ensures WellFormed(reply) && table.Names() == old(table.Names()) && View(stocks) == old(View(stocks))
    ensures ok <==> TryUnload(old(world.Demands()[cityId]), old(View(stocks))) != NoEntry
    ensures ok ==>
              Exchanged(world.Demands()[cityId], Meant(reply))
              == TryUnload(old(world.Demands()[cityId]), old(View(stocks)))
    ensures !ok ==> world.Demands() == old(world.Demands())
    ensures world.Demands() == old(world.Demands())[cityId := world.Demands()[cityId]]
  {
    ghost var load := View(stocks);
    var request := MarshallStocks(stocks);
    ok, reply := AnswerUnload(world, table, cityId, request);
    forall i | 0 <= i < |stocks| ensures View(stocks)[i] == load[i] {
      assert stocks[i] in stocks && stocks[i] !in world.cities[cityId];
    }
  }

  /** An unload by message: encoded by the plane, rebuilt and exchanged by the map, encoded again, redirected,
      and taken over.  City and plane end up as if they had exchanged directly, the table of products is as
      before, and the plane learns whether it is empty.  When the exchange is undefined nothing has changed. */
  method UnloadByMessage(world: Map, table: Table, cityId: nat, stocks: seq<Stock>) returns (ok: bool, done: bool)
    requires world.Valid() && table.Valid() && cityId < |world.cities|
    requires |stocks| <= MAX_STOCKS && Distinct(stocks) && Known(table.Names(), View(stocks))
    requires forall s | s in stocks :: s !in world.Objects()
    requires NonNegative(world.Demands()[cityId]) && NonNegative(View(stocks))
    modifies table, stocks, world.cities[cityId]
    ensures table.Names() == old(table.Names())
    ensures ok <==> TryUnload(old(world.Demands()[cityId]), old(View(stocks))) != NoEntry
    ensures ok ==>
              Exchanged(world.Demands()[cityId], View(stocks))
              == TryUnload(old(world.Demands()[cityId]), old(View(stocks)))
    ensures !ok ==> world.Demands() == old(world.Demands()) && View(stocks) == old(View(stocks))
    ensures world.Demands() == old(world.Demands())[cityId := world.Demands()[cityId]]
    ensures ok ==> (done <==> Spent(View(stocks)))
  {
    ghost var demand, load := world.Demands()[cityId], View(stocks);
    UnloadIsDefinedIff(demand, load);
    var reply;
    ok, reply := AskMap(world, table, cityId, stocks);
    if !ok {
      return false, false;
    }
    UnloadConserves(demand, load);
    ok, done := TakeReply(stocks, reply, world);
  }
}
