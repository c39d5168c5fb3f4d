/** The parsers as they work, in place. */
module ParserInPlace {
  // Loops over an input that is used up, a product table that grows, and a matrix that is filled and then closed in
  // place. Each is proved against the functions of Parser.

  import opened Delivery
  import opened Products
  import opened Parser
  import Floyd

  class Input {
    var rest: seq<Token>

    constructor (tokens: seq<Token>)
      ensures rest == tokens
    {
      rest := tokens;
    }

    /** Tries to read a word and a number, and tells how many of the two it read; -1 at the end of the file. */
    method Pair() returns (state: int, text: string, value: int)
      modifies this
      ensures var r := old(rest);
              if |r| >= 2 && r[1].Number? then state == 2 && text == r[0].text && value == r[1].value && rest == r[2..]
              else if r == [] then state == -1 && rest == []
              else state == 1 && text == r[0].text && rest == r[1..]
    {
      text, value := "", 0;
      if rest == [] {
        return -1, text, value;
      }
      text := rest[0].text;
      rest := rest[1..];
      if rest == [] || rest[0].Word? {
        return 1, text, value;
      }
      value := rest[0].value;
      rest := rest[1..];
      return 2, text, value;
    }

    /** Reads one word if there is one. */
    method Name() returns (name: Buffer)
      modifies this
      ensures (name, rest) == if old(rest) == [] then (Unset, []) else (Filled(old(rest)[0].text), old(rest)[1..])
    {
      if rest == [] {
        return Unset;
      }
      name := Filled(rest[0].text);
      rest := rest[1..];
    }
  }

  /** Reads stocks until one is not followed by a number. */
  method ReadStockList(input: Input, table: Table, before: Buffer) returns (vec: Stocks, buffer: Buffer, state: int)
    requires table.Valid()
    modifies input, table
    ensures table.Valid()
    ensures StockList(vec, table.Names(), buffer, state, input.rest)
            == ReadStocks([], old(input.rest), old(table.Names()), before)
  {
    ghost var goal := ReadStocks([], input.rest, table.Names(), before);
    vec, buffer := [], before;
    while true
      invariant table.Valid()
      invariant ReadStocks(vec, input.rest, table.Names(), buffer) == goal
      decreases |input.rest|
    {
      var text, value;
      state, text, value := input.Pair();
      if state >= 1 {
        buffer := Filled(text);
      }
      if state != 2 {
        break;
      }
      var product := table.GetProduct(text);
      vec := vec + [Item(product.id, value)];
    }
  }

  /** Reads one city: its name, unless that was carried over, and its stocks. */
  method ReadOneCity(input: Input, table: Table, ghost p: Reading, cities: seq<City>, first: bool, pending: Buffer,
                     before: Buffer, last: bool)
    returns (cities': seq<City>, first': bool, pending': Buffer, buffer: Buffer)
    requires table.Valid() && p == Reading(cities, table.Names(), before, first, pending, input.rest)
    modifies input, table
    ensures table.Valid()
    ensures Reading(cities', table.Names(), buffer, first', pending', input.rest) == ReadCity(p, last)
  {
    var name := pending;
    if first {
      name := input.Name();
    }
    var vec, state;
    vec, buffer, state := ReadStockList(input, table, before);
    first', pending' := first, Unset;
    if state == 1 {
      first' := false;
      if !last {
        pending' := buffer;
        buffer := Filled("");
      }
    }
    cities' := cities + [City(name, vec)];
  }

  method ReadAllCities(input: Input, table: Table, counter: nat)
    returns (cities: seq<City>, buffer: Buffer, ghost end: Reading)
    requires table.Valid()
    modifies input, table
    ensures table.Valid()
    ensures end == ReadCities(counter, Start(old(table.Names()), old(input.rest)))
    ensures cities == end.cities && buffer == end.buffer && table.Names() == end.names && input.rest == end.rest
  {
    end := ReadCities(counter, Start(table.Names(), input.rest));
    cities, buffer := [], Unset;
    var first, pending := true, Unset;
    var i := 0;
    while i < counter
      invariant i <= counter && table.Valid()
      invariant ReadCities(counter - i, Reading(cities, table.Names(), buffer, first, pending, input.rest)) == end
    {
      ghost var p := Reading(cities, table.Names(), buffer, first, pending, input.rest);
      cities, first, pending, buffer := ReadOneCity(input, table, p, cities, first, pending, buffer, i + 1 == counter);
      i := i + 1;
    }
  }

  /** Finds the first city with a name; -1 when there is none. */
  method GetCityId(cities: seq<City>, name: Buffer) returns (id: int)
    ensures id == CityId(cities, name) && -1 <= id < |cities|
    ensures id >= 0 ==> name.Filled? && cities[id].name == name && forall i | 0 <= i < id :: cities[i].name != name
    ensures id < 0 ==> name == Unset || exists n | 0 <= n <= |cities| ::
                         ComparesUpTo(cities, name, n) && (n == |cities| || cities[n].name == Unset)
  {
    NotFoundIff(cities, name);
    var i := 0;
    while i < |cities|
      invariant 0 <= i <= |cities|
      invariant CityId(cities, name) == if CityId(cities[i..], name) < 0 then -1 else i + CityId(cities[i..], name)
    {
      if name == Unset || cities[i].name == Unset {
        return -1;
      }
      if cities[i].name == name {
        return i;
      }
      assert cities[i..][1..] == cities[i + 1..];
      i := i + 1;
    }
    return -1;
  }

  lemma LinkedView(m: array2<int>, before: seq<seq<int>>, i: nat, j: nat, length: int)
    requires m.Length0 == m.Length1 == |before| && Square(before, |before|) && i < |before| && j < |before|
    requires forall a, b | 0 <= a < |before| && 0 <= b < |before| ::
               m[a, b] == if (a == i && b == j) || (a == j && b == i) then length else before[a][b]
    ensures Floyd.View(m) == Link(before, i, j, length)
  {
    var v, l := Floyd.View(m), Link(before, i, j, length);
    forall a | 0 <= a < |before| ensures v[a] == l[a] {
      assert forall b | 0 <= b < |before| :: v[a][b] == l[a][b];
    }
  }

  lemma EmptyView(m: array2<int>)
    requires m.Length0 == m.Length1 && forall a, b | 0 <= a < m.Length0 && 0 <= b < m.Length0 :: m[a, b] == 0
    ensures Floyd.View(m) == NoRoads(m.Length0)
  {
    forall a | 0 <= a < m.Length0 ensures Floyd.View(m)[a] == NoRoads(m.Length0)[a] {
      assert forall b | 0 <= b < m.Length0 :: Floyd.View(m)[a][b] == NoRoads(m.Length0)[a][b];
    }
  }

  /** Enters the roads, the first of which starts with the name that is left in the buffer. */
  method ReadAllRoads(input: Input, matrix: array2<int>, ghost p: Reading, cities: seq<City>, first: string)
    returns (ok: bool)
    requires matrix.Length0 == matrix.Length1 == |p.cities|
    requires p.cities == cities && p.rest == input.rest && p.buffer == Filled(first) && first != ""
    requires Floyd.View(matrix) == NoRoads(|p.cities|)
    modifies input, matrix
    ensures ok <==> AfterCities(p).Parsed?
    ensures ok ==> AfterCities(p) == Parsed(p.cities, p.names, Floyd.View(matrix))
  {
    var from := Filled(first);
    var state, to, length := input.Pair();
    if state != 2 {
      return false;
    }
    while true
      invariant ReadRoads(p, Floyd.View(matrix), from, Filled(to), length, input.rest) == AfterCities(p)
      decreases |input.rest|
    {
      var i := GetCityId(cities, from);
      var j := GetCityId(cities, Filled(to));
      if i < 0 || j < 0 {
        return false;
      }
      ghost var before := Floyd.View(matrix);
      matrix[i, j] := length;
      matrix[j, i] := length;
      LinkedView(matrix, before, i, j, length);
      if |input.rest| < 3 || input.rest[2].Word? {
        return true;
      }
      from, to, length := Filled(input.rest[0].text), input.rest[1].text, input.rest[2].value;
      input.rest := input.rest[3..];
    }
  }

  ghost predicate NoNegativeNumber(tokens: seq<Token>) {
    forall k | 0 <= k < |tokens| && tokens[k].Number? :: tokens[k].value >= 0
  }

  /** Reads a map and closes its matrix: cities and products as the file has them, and shortest distances when no
      number in the file is negative. */
  method ParseMap(input: Input, table: Table) returns (ok: bool, cities: seq<City>, matrix: array2<int>)
    requires table.Valid() && table.Names() == []
    modifies input, table
    ensures table.Valid() && fresh(matrix)
    ensures ok <==> Parse(old(input.rest)).Parsed?
    ensures ok ==>
              var o := Parse(old(input.rest));
              && cities == o.cities && table.Names() == o.names
              && matrix.Length0 == matrix.Length1 == |o.matrix| == |cities|
              && (Floyd.Roads(o.matrix) ==> Floyd.Closed(o.matrix, |o.matrix|, Floyd.View(matrix)))
              && (NoNegativeNumber(old(input.rest)) ==> Floyd.Roads(o.matrix))
  {
    ghost var tokens := input.rest;
    cities := [];
    matrix := new int[0, 0];
    if input.rest == [] || input.rest[0].Word? || input.rest[0].value < 0 {
      return false, cities, matrix;
    }
    var counter := input.rest[0].value;
    input.rest := input.rest[1..];
    var buffer;
    ghost var p;
    cities, buffer, p := ReadAllCities(input, table, counter);
    AsManyCities(counter, Start([], tokens[1..]));
    matrix := new int[counter, counter]((_, _) => 0);
    EmptyView(matrix);
    if buffer == Unset {
      return false, cities, matrix;
    }
    if buffer != Filled("") {
      ok := ReadAllRoads(input, matrix, p, cities, buffer.text);
      if !ok {
        return;
      }
    }
    ghost var o := AfterCities(p);
    assert Parse(tokens) == o && o == Parsed(cities, table.Names(), Floyd.View(matrix));
    if NoNegativeNumber(tokens) {
      RoadsNotNegative(tokens, p);
    }
    Floyd.FloydMatrix(matrix);
    return true, cities, matrix;
  }

  lemma {:induction false} AsManyCities(left: nat, p: Reading)
    ensures |ReadCities(left, p).cities| == |p.cities| + left
    decreases left
  {
    if left > 0 { AsManyCities(left - 1, ReadCity(p, left == 1)); }
  }

  // ---------------------------------------------------------------- no number turns negative on the way

  lemma {:induction false} StocksLeaveSuffix(stocks: Stocks, input: seq<Token>, names: seq<string>, buffer: Buffer)
    requires NoNegativeNumber(input)
    ensures NoNegativeNumber(ReadStocks(stocks, input, names, buffer).rest)
    decreases |input|
  {
    if |input| >= 2 && input[1].Number? {
      var product := Intern(names, input[0].text);
      assert NoNegativeNumber(input[2..]);
      StocksLeaveSuffix(stocks + [Item(product.1, input[1].value)], input[2..], product.0, Filled(input[0].text));
    }
  }

  lemma {:induction false} CitiesLeaveSuffix(left: nat, p: Reading)
    requires NoNegativeNumber(p.rest)
    ensures NoNegativeNumber(ReadCities(left, p).rest)
    decreases left
  {
    if left > 0 {
      StocksLeaveSuffix([], NextName(p).1, p.names, p.buffer);
      CitiesLeaveSuffix(left - 1, ReadCity(p, left == 1));
    }
  }

  lemma {:induction false} LinksNotNegative(p: Reading, m: seq<seq<int>>, a: Buffer, b: Buffer, length: int,
                                            rest: seq<Token>)
    requires Square(m, |p.cities|) && Floyd.Roads(m) && length >= 0 && NoNegativeNumber(rest)
    ensures var r := ReadRoads(p, m, a, b, length, rest);
            r.Parsed? ==> Floyd.Roads(r.matrix)
    decreases |rest|
  {
    var i, j := CityId(p.cities, a), CityId(p.cities, b);
    if i >= 0 && j >= 0 && |rest| >= 3 && rest[2].Number? {
      assert NoNegativeNumber(rest[3..]);
      LinksNotNegative(p, Link(m, i, j, length), Filled(rest[0].text), Filled(rest[1].text), rest[2].value,
                       rest[3..]);
    }
  }

  lemma RoadsNotNegative(tokens: seq<Token>, p: Reading)
    requires NoNegativeNumber(tokens) && tokens != [] && tokens[0].Number?
    requires p == ReadCities(tokens[0].value, Start([], tokens[1..]))
    ensures AfterCities(p).Parsed? ==> Floyd.Roads(AfterCities(p).matrix)
  {
    CitiesLeaveSuffix(tokens[0].value, Start([], tokens[1..]));
    if p.buffer.Filled? && p.buffer != Filled("") && |p.rest| >= 2 && p.rest[1].Number? {
      assert NoNegativeNumber(p.rest[2..]);
      LinksNotNegative(p, NoRoads(|p.cities|), p.buffer, Filled(p.rest[0].text), p.rest[1].value, p.rest[2..]);
    }
  }

  // ---------------------------------------------------------------- airlines

  method ReadOnePlane(input: Input, table: Table, ghost b: Boarding, cities: seq<City>, planes: seq<Parked>,
                      first: bool, cityName: Buffer)
    returns (planes': seq<Parked>, first': bool, cityName': Buffer)
    requires table.Valid() && b == Boarding(planes, table.Names(), first, cityName, input.rest)
    modifies input, table
    ensures table.Valid()
    ensures Boarding(planes', table.Names(), first', cityName', input.rest) == ReadPlane(b, cities)
  {
    first', cityName' := first, cityName;
    if first && input.rest != [] {
      cityName' := input.Name();
    }
    var id := GetCityId(cities, cityName');
    var vec, buffer, state := ReadStockList(input, table, Unset);
    if state == 1 {
      first', cityName' := false, buffer;
    }
    planes' := planes + [Parked(id, vec)];
  }

  method ReadAllPlanes(input: Input, table: Table, cities: seq<City>, number: nat)
    returns (planes: seq<Parked>, ghost end: Boarding)
    requires table.Valid()
    modifies input, table
    ensures table.Valid()
    ensures end == ReadPlanes(number, Boarding([], old(table.Names()), true, Unset, old(input.rest)), cities)
    ensures planes == end.planes && table.Names() == end.names
  {
    end := ReadPlanes(number, Boarding([], table.Names(), true, Unset, input.rest), cities);
    planes := [];
    var first, cityName := true, Unset;
    var i := 0;
    while i < number
      invariant i <= number && table.Valid()
      invariant ReadPlanes(number - i, Boarding(planes, table.Names(), first, cityName, input.rest), cities) == end
    {
      ghost var b := Boarding(planes, table.Names(), first, cityName, input.rest);
      planes, first, cityName := ReadOnePlane(input, table, b, cities, planes, first, cityName);
      i := i + 1;
    }
  }

  /** Reads the planes of an airline. */
  method ParseAirlines(input: Input, table: Table, cities: seq<City>) returns (ok: bool, planes: seq<Parked>)
    requires table.Valid()
    modifies input, table
    ensures table.Valid()
    ensures (if ok then Fleet(planes, table.Names()) else Unreadable)
            == ParseAirline(old(input.rest), cities, old(table.Names()))
  {
    planes := [];
    if input.rest == [] || input.rest[0].Word? {
      return true, planes;
    }
    if input.rest[0].value < 0 {
      return false, planes;
    }
    var number := input.rest[0].value;
    input.rest := input.rest[1..];
    ghost var end;
    planes, end := ReadAllPlanes(input, table, cities, number);
    return true, planes;
  }
}
