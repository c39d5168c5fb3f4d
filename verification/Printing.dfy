/** Printed configuration files, and how they come back. */
module Printing {
  // A file is printed in the order in which it is read; its words are the names, its numbers the amounts and lengths.
  // Numbers may be written in any way that is read as a number.

  import opened Delivery
  import opened Products
  import opened Parser
  import Floyd

  // ---------------------------------------------------------------- printing

  predicate White(c: char) {
    c == ' ' || '\t' <= c <= '\r'
  }

  /** A text that comes back as a word: it holds no white space and does not begin as a number does. */
  predicate IsWord(text: string) {
    && text != "" && (forall i | 0 <= i < |text| :: !White(text[i]))
    && text[0] != '+' && text[0] != '-' && !('0' <= text[0] <= '9')
  }

  /** How numbers are written. */
  type Writing = int -> string

  datatype MapFile = MapFile(cities: seq<CityText>, roads: seq<Road>)

  function PrintStocks(write: Writing, s: seq<StockText>): seq<Token> {
    if s == [] then [] else [Word(s[0].name), Number(write(s[0].amount), s[0].amount)] + PrintStocks(write, s[1..])
  }

  function PrintCities(write: Writing, cs: seq<CityText>): seq<Token> {
    if cs == [] then [] else [Word(cs[0].name)] + PrintStocks(write, cs[0].stocks) + PrintCities(write, cs[1..])
  }

  function PrintRoads(write: Writing, cs: seq<CityText>, roads: seq<Road>): seq<Token>
    requires forall k | 0 <= k < |roads| :: roads[k].from < |cs| && roads[k].to < |cs|
  {
    if roads == [] then []
    else [Word(cs[roads[0].from].name), Word(cs[roads[0].to].name), Number(write(roads[0].length), roads[0].length)]
         + PrintRoads(write, cs, roads[1..])
  }

  function Print(write: Writing, f: MapFile): seq<Token>
    requires WellFormed(f)
  {
    [Number(write(|f.cities|), |f.cities|)] + (PrintCities(write, f.cities) + PrintRoads(write, f.cities, f.roads))
  }

  /** Names are words, no two cities share one, and roads join cities of the map. */
  ghost predicate WellFormed(f: MapFile) {
    && (forall i | 0 <= i < |f.cities| :: IsWord(f.cities[i].name))
    && (forall i, j | 0 <= i < j < |f.cities| :: f.cities[i].name != f.cities[j].name)
    && (forall i, k | 0 <= i < |f.cities| && 0 <= k < |f.cities[i].stocks| :: IsWord(f.cities[i].stocks[k].name))
    && (forall k | 0 <= k < |f.roads| :: f.roads[k].from < |f.cities| && f.roads[k].to < |f.cities|)
  }

  // ---------------------------------------------------------------- what a printed file spells

  /** A printed file goes on behind a stock list with two words, or one, or not at all. */
  ghost predicate GoesOn(tail: seq<Token>) {
    tail != [] ==> tail[0].Word? && (|tail| >= 2 ==> tail[1].Word?)
  }

  lemma {:induction false} PrintedStocks(write: Writing, s: seq<StockText>, tail: seq<Token>)
    requires EndsStocks(tail)
    ensures SpellsStocks(PrintStocks(write, s) + tail, s, tail) && |PrintStocks(write, s)| == 2 * |s|
    decreases |s|
  {
    var input := PrintStocks(write, s) + tail;
    if s == [] {
      assert input == tail;
    } else {
      PrintedStocks(write, s[1..], tail);
      assert input[0] == Word(s[0].name) && input[1] == Number(write(s[0].amount), s[0].amount);
      assert input[2..] == PrintStocks(write, s[1..]) + tail;
    }
  }

  lemma FirstCity(write: Writing, cs: seq<CityText>, tail: seq<Token>)
    requires cs != []
    ensures PrintCities(write, cs) + tail
            == [Word(cs[0].name)] + (PrintStocks(write, cs[0].stocks) + (PrintCities(write, cs[1..]) + tail))
  {
    Reassociate([Word(cs[0].name)], PrintStocks(write, cs[0].stocks), PrintCities(write, cs[1..]), tail);
  }

  lemma Reassociate<T>(a: seq<T>, b: seq<T>, c: seq<T>, d: seq<T>)
    ensures a + b + c + d == a + (b + (c + d))
  {
  }

  /** What is left of a printed file from each of its cities on. */
  function PrintedRests(write: Writing, cs: seq<CityText>, tail: seq<Token>): (r: seq<seq<Token>>)
    ensures |r| == |cs| + 1 && r[0] == PrintCities(write, cs) + tail && r[|cs|] == tail
  {
    if cs == [] then [tail] else [PrintCities(write, cs) + tail] + PrintedRests(write, cs[1..], tail)
  }

  lemma {:induction false} PrintedCities(write: Writing, cs: seq<CityText>, tail: seq<Token>)
    requires GoesOn(tail)
    ensures Spells(PrintedRests(write, cs, tail), cs) && GoesOn(PrintCities(write, cs) + tail)
    decreases |cs|
  {
    if cs == [] {
      assert PrintCities(write, cs) + tail == tail;
    } else {
      var rests := PrintedRests(write, cs[1..], tail);
      PrintedCities(write, cs[1..], tail);
      FirstPiece(write, cs, tail);
      forall i | 0 <= i < |cs|
        ensures Piece(PrintedRests(write, cs, tail)[i], cs[i], PrintedRests(write, cs, tail)[i + 1])
      {
        if i > 0 { assert Piece(rests[i - 1], cs[1..][i - 1], rests[i]); }
      }
    }
  }

  lemma FirstPiece(write: Writing, cs: seq<CityText>, tail: seq<Token>)
    requires cs != [] && GoesOn(PrintCities(write, cs[1..]) + tail)
    ensures Piece(PrintCities(write, cs) + tail, cs[0], PrintCities(write, cs[1..]) + tail)
    ensures GoesOn(PrintCities(write, cs) + tail)
  {
    var input, rest := PrintCities(write, cs) + tail, PrintCities(write, cs[1..]) + tail;
    PrintedStocks(write, cs[0].stocks, rest);
    FirstCity(write, cs, tail);
    assert input[1..] == PrintStocks(write, cs[0].stocks) + rest;
    assert cs[0].stocks == [] ==> input[1..] == rest;
  }

  /** The cities have the names in the text. */
  ghost predicate Called(cities: seq<City>, text: seq<CityText>) {
    |cities| == |text| && forall i | 0 <= i < |cities| :: cities[i].name == Filled(text[i].name)
  }

  lemma {:induction false} CityIdOf(cities: seq<City>, text: seq<CityText>, i: nat)
    requires Called(cities, text) && i < |text|
    requires forall a, b | 0 <= a < b < |text| :: text[a].name != text[b].name
    ensures CityId(cities, Filled(text[i].name)) == i
    decreases |text|
  {
    if i > 0 {
      CityIdOf(cities[1..], text[1..], i - 1);
    }
  }

  lemma {:induction false} RoadsComeBack(write: Writing, p: Reading, m: seq<seq<int>>, text: seq<CityText>,
                                         roads: seq<Road>)
    requires Square(m, |text|) && roads != [] && Called(p.cities, text)
    requires forall a, b | 0 <= a < b < |text| :: text[a].name != text[b].name
    requires forall k | 0 <= k < |roads| :: roads[k].from < |text| && roads[k].to < |text|
    ensures ReadRoads(p, m, Filled(text[roads[0].from].name), Filled(text[roads[0].to].name), roads[0].length,
                      PrintRoads(write, text, roads[1..])) == Parsed(p.cities, p.names, RoadMatrix(m, roads))
    decreases |roads|
  {
    CityIdOf(p.cities, text, roads[0].from);
    CityIdOf(p.cities, text, roads[0].to);
    var m' := Link(m, roads[0].from, roads[0].to, roads[0].length);
    if |roads| > 1 {
      var rest := PrintRoads(write, text, roads[1..]);
      assert rest[3..] == PrintRoads(write, text, roads[1..][1..]);
      RoadsComeBack(write, p, m', text, roads[1..]);
    }
  }

  // ---------------------------------------------------------------- round trip

  /** When a printed map is read back without touching anything undefined: there is a road, or the map has
      several cities of which the last one asks for nothing. */
  predicate Readable(f: MapFile) {
    f.roads != [] || (|f.cities| >= 2 && f.cities[|f.cities| - 1].stocks == [])
  }

  /** Cities, stocks and roads are those of the file, and product names are interned. */
  ghost predicate Recovers(o: Outcome, f: MapFile)
    requires WellFormed(f)
  {
    && o.Parsed? && UniqueNames(o.names) && CitiesStand(o.cities, f.cities, o.names)
    && o.matrix == RoadMatrix(NoRoads(|f.cities|), f.roads)
  }

  lemma RoadsEndStocks(write: Writing, cs: seq<CityText>, roads: seq<Road>)
    requires forall k | 0 <= k < |roads| :: roads[k].from < |cs| && roads[k].to < |cs|
    ensures var tail := PrintRoads(write, cs, roads);
            && EndsStocks(tail) && (tail == [] <==> roads == [])
            && (roads != [] ==> tail[0] == Word(cs[roads[0].from].name))
            && (roads != [] ==>
                  tail[1..] == [Word(cs[roads[0].to].name), Number(write(roads[0].length), roads[0].length)]
                               + PrintRoads(write, cs, roads[1..]))
  {
    if roads != [] {
      var tail := PrintRoads(write, cs, roads);
      assert tail[0] == Word(cs[roads[0].from].name) && tail[1] == Word(cs[roads[0].to].name);
    }
  }

  /** The parser once all cities of a printed map are read. */
  lemma CitiesOfFile(write: Writing, f: MapFile, q: Reading)
    requires WellFormed(f) && q == ReadCities(|f.cities|, Start([], Print(write, f)[1..]))
    ensures UniqueNames(q.names) && CitiesStand(q.cities, f.cities, q.names)
    ensures var tail := PrintRoads(write, f.cities, f.roads);
            q.buffer == LeftOver(f.cities, tail) && (f.cities != [] ==> q.rest == if tail == [] then [] else tail[1..])
  {
    var tail := PrintRoads(write, f.cities, f.roads);
    RoadsEndStocks(write, f.cities, f.roads);
    PrintedCities(write, f.cities, tail);
    assert Print(write, f)[1..] == PrintCities(write, f.cities) + tail;
    AnyCities(|f.cities|, Print(write, f)[1..], PrintedRests(write, f.cities, tail), f.cities, q);
    assert q.cities[..|f.cities|] == q.cities;
  }

  lemma WithRoads(write: Writing, f: MapFile, q: Reading)
    requires WellFormed(f) && f.roads != [] && CitiesStand(q.cities, f.cities, q.names)
    requires var tail := PrintRoads(write, f.cities, f.roads);
             tail != [] && q.buffer == Filled(tail[0].text) && q.rest == tail[1..]
    ensures AfterCities(q) == Parsed(q.cities, q.names, RoadMatrix(NoRoads(|f.cities|), f.roads))
  {
    RoadsEndStocks(write, f.cities, f.roads);
    assert IsWord(f.cities[f.roads[0].from].name);
    assert q.rest[2..] == PrintRoads(write, f.cities, f.roads[1..]);
    RoadsComeBack(write, q, NoRoads(|f.cities|), f.cities, f.roads);
  }

  /** Without roads, what counts is the product name the buffer is left with. */
  lemma WithoutRoads(f: MapFile, q: Reading)
    requires WellFormed(f) && f.cities != [] && f.roads == [] && q.buffer == LeftOver(f.cities, []) && q.rest == []
    ensures AfterCities(q) == if Readable(f) then Parsed(q.cities, q.names, NoRoads(|q.cities|)) else Undefined
  {
    var last := f.cities[|f.cities| - 1].stocks;
    if last != [] {
      assert IsWord(f.cities[|f.cities| - 1].stocks[|last| - 1].name);
    }
  }

  /** A printed map is read back, names and all, exactly when it is readable. */
  lemma ParsePrint(write: Writing, f: MapFile)
    requires WellFormed(f)
    ensures Parse(Print(write, f)) != Undefined <==> Readable(f)
    ensures Recovers(Parse(Print(write, f)), f) <==> Readable(f)
  {
    var q := ReadCities(|f.cities|, Start([], Print(write, f)[1..]));
    assert Parse(Print(write, f)) == AfterCities(q);
    CitiesOfFile(write, f, q);
    if f.cities != [] {
      RoadsEndStocks(write, f.cities, f.roads);
      if f.roads != [] {
        WithRoads(write, f, q);
      } else {
        WithoutRoads(f, q);
      }
    }
  }

  lemma {:induction false} MatrixBothWays(m: seq<seq<int>>, roads: seq<Road>)
    requires Floyd.Roads(m) && Floyd.BothWays(m)
    requires forall k | 0 <= k < |roads| :: roads[k].from < |m| && roads[k].to < |m| && roads[k].length >= 0
    ensures Floyd.Roads(RoadMatrix(m, roads)) && Floyd.BothWays(RoadMatrix(m, roads))
    decreases |roads|
  {
    if roads != [] {
      MatrixBothWays(Link(m, roads[0].from, roads[0].to, roads[0].length), roads[1..]);
    }
  }

  /** The matrix read from a printed map has its roads, both ways, and nothing else. */
  lemma MatrixOfFile(write: Writing, f: MapFile)
    requires WellFormed(f) && Readable(f) && forall k | 0 <= k < |f.roads| :: f.roads[k].length >= 0
    ensures Parse(Print(write, f)).Parsed?
    ensures var m := Parse(Print(write, f)).matrix;
            && |m| == |f.cities| && Floyd.Roads(m) && Floyd.BothWays(m)
            && forall i, j | 0 <= i < |m| && 0 <= j < |m| :: LastLength(f.roads, i, j, m[i][j], 0)
  {
    ParsePrint(write, f);
    var z := NoRoads(|f.cities|);
    var m := RoadMatrix(z, f.roads);
    MatrixBothWays(z, f.roads);
    forall i: nat, j: nat | i < |m| && j < |m| ensures LastLength(f.roads, i, j, m[i][j], 0) {
      MatrixEntry(z, f.roads, i, j);
    }
  }

  // ---------------------------------------------------------------- airlines

  datatype PlaneText = PlaneText(at: nat, stocks: seq<StockText>)

  /** An airline is printed like a list of cities, under the names of the cities its planes are in. */
  function Labelled(cityText: seq<CityText>, planes: seq<PlaneText>): (r: seq<CityText>)
    requires forall k | 0 <= k < |planes| :: planes[k].at < |cityText|
    ensures |r| == |planes|
    ensures forall k | 0 <= k < |r| :: r[k] == CityText(cityText[planes[k].at].name, planes[k].stocks)
  {
    if planes == [] then []
    else [CityText(cityText[planes[0].at].name, planes[0].stocks)] + Labelled(cityText, planes[1..])
  }

  ghost predicate PlanesStand(planes: seq<Parked>, text: seq<PlaneText>, names: seq<string>) {
    && |planes| == |text|
    && forall k | 0 <= k < |planes| :: planes[k].cityId == text[k].at && Stands(planes[k].stocks, text[k].stocks, names)
  }

  lemma PlanesStandLonger(planes: seq<Parked>, text: seq<PlaneText>, names: seq<string>, names': seq<string>)
    requires PlanesStand(planes, text, names) && names <= names'
    ensures PlanesStand(planes, text, names')
  {
    forall i, k | 0 <= i < |planes| && 0 <= k < |planes[i].stocks|
      ensures names'[planes[i].stocks[k].product] == text[i].stocks[k].name
    {
      assert Stands(planes[i].stocks, text[i].stocks, names);
    }
  }

  function PrintAirline(write: Writing, cityText: seq<CityText>, planes: seq<PlaneText>): seq<Token>
    requires forall k | 0 <= k < |planes| :: planes[k].at < |cityText|
  {
    [Number(write(|planes|), |planes|)] + PrintCities(write, Labelled(cityText, planes))
  }

  /** A printed airline is always read back: every plane in its city, with its load; products the map did not
      list are added to the table, and the others keep their numbers. */
  lemma ParsePrintAirline(write: Writing, f: MapFile, cities: seq<City>, names: seq<string>, planes: seq<PlaneText>)
    requires WellFormed(f) && Called(cities, f.cities)
    requires forall k | 0 <= k < |planes| :: planes[k].at < |f.cities|
    requires forall k, i | 0 <= k < |planes| && 0 <= i < |planes[k].stocks| :: IsWord(planes[k].stocks[i].name)
    ensures var r := ParseAirline(PrintAirline(write, f.cities, planes), cities, names);
            && r.Fleet? && PlanesStand(r.planes, planes, r.names) && names <= r.names
            && (UniqueNames(names) ==> UniqueNames(r.names))
  {
    var input, cs := PrintAirline(write, f.cities, planes), Labelled(f.cities, planes);
    PrintedCities(write, cs, []);
    assert input[1..] == PrintCities(write, cs) + [];
    AnyAirline(input, cities, names, PrintedRests(write, cs, []), cs);
    var r := ParseAirline(input, cities, names);
    assert r.planes[..|cs|] == r.planes;
    forall k | 0 <= k < |planes|
      ensures r.planes[k].cityId == planes[k].at && Stands(r.planes[k].stocks, planes[k].stocks, r.names)
    {
      assert PlaneStands(r.planes[k], cs[k], cities, r.names);
      CityIdOf(cities, f.cities, planes[k].at);
    }
    if UniqueNames(names) {
      AirlineKeepsUnique(input, cities, names);
    }
  }
}
