/** The configuration files, as streams of words and numbers. */
module Parser {
  // How the parsers read them, with the name that is read one too far and carried over, and what that makes of any
  // map and airline file.

  import opened Delivery
  import opened Products
  import Floyd

  /** What a file consists of: words that a conversion to a number rejects, and numbers, which have a text too. */
  datatype Token = Word(text: string) | Number(text: string, value: int)

  /** A character buffer; until something is read into it nothing is known about it. */
  datatype Buffer = Unset | Filled(text: string)

  // ---------------------------------------------------------------- reading stocks and cities

  /** Where the stocks of a city or plane end: what was listed, what is in the buffer then, how many items the
      last attempt read (-1 at the end of the file), and what is left of the file. */
  datatype StockList = StockList(stocks: Stocks, names: seq<string>, buffer: Buffer, state: int, rest: seq<Token>)

  function ReadStocks(stocks: Stocks, input: seq<Token>, names: seq<string>, buffer: Buffer): StockList
    decreases |input|
  {
    if |input| >= 2 && input[1].Number? then
      var product := Intern(names, input[0].text);
      ReadStocks(stocks + [Item(product.1, input[1].value)], input[2..], product.0, Filled(input[0].text))
    else if input == [] then
      StockList(stocks, names, buffer, -1, [])
    else
      StockList(stocks, names, Filled(input[0].text), 1, input[1..])
  }

  datatype City = City(name: Buffer, stocks: Stocks)

  /** The parser between two cities.  `first`: no name was carried over yet; `pending`: the name that was. */
  datatype Reading = Reading(
    cities: seq<City>, names: seq<string>, buffer: Buffer, first: bool, pending: Buffer, rest: seq<Token>)

  /** The name of the next city, and the file behind it. */
  function NextName(p: Reading): (Buffer, seq<Token>) {
    if !p.first then (p.pending, p.rest)
    else if p.rest == [] then (Unset, [])
    else (Filled(p.rest[0].text), p.rest[1..])
  }

  function ReadCity(p: Reading, last: bool): Reading {
    var (name, input) := NextName(p);
    var s := ReadStocks([], input, p.names, p.buffer);
    var cities := p.cities + [City(name, s.stocks)];
    if s.state == 1 then
      if last then Reading(cities, s.names, s.buffer, false, Unset, s.rest)
      else Reading(cities, s.names, Filled(""), false, s.buffer, s.rest)
    else Reading(cities, s.names, s.buffer, p.first, Unset, s.rest)
  }

  function ReadCities(left: nat, p: Reading): Reading {
    if left == 0 then p else ReadCities(left - 1, ReadCity(p, left == 1))
  }

  // ---------------------------------------------------------------- reading roads

  /** The first cities are called otherwise. */
  ghost predicate ComparesUpTo(cities: seq<City>, name: Buffer, n: nat)
    requires n <= |cities|
  {
    forall i | 0 <= i < n :: cities[i].name.Filled? && cities[i].name != name
  }

  /** The first city with this name, or -1; -1 too when a name would have to be compared that was never read. */
  function CityId(cities: seq<City>, name: Buffer): (r: int)
    ensures -1 <= r < |cities|
    ensures r >= 0 ==> name.Filled? && cities[r].name == name && ComparesUpTo(cities, name, r)
  {
    if cities == [] || name == Unset || cities[0].name == Unset then -1
    else if cities[0].name == name then 0
    else
      var r := CityId(cities[1..], name);
      if r < 0 then -1 else r + 1
  }

  /** No city is found exactly when the search ends, or comes to a name that was never read, before there is a match. */
  lemma {:induction false} NotFoundIff(cities: seq<City>, name: Buffer)
    ensures CityId(cities, name) < 0 <==>
              || name == Unset
              || exists n | 0 <= n <= |cities| ::
                   ComparesUpTo(cities, name, n) && (n == |cities| || cities[n].name == Unset)
    decreases |cities|
  {
    if cities == [] || (name.Filled? && cities[0].name == Unset) {
      assert ComparesUpTo(cities, name, 0);
    } else if name.Filled? && cities[0].name != name {
      var rest := cities[1..];
      NotFoundIff(rest, name);
      if n :| 0 <= n <= |rest| && ComparesUpTo(rest, name, n) && (n == |rest| || rest[n].name == Unset) {
        assert ComparesUpTo(cities, name, n + 1) by {
          assert forall i | 0 < i <= n :: cities[i] == rest[i - 1];
        }
      }
    }
  }

  /** The matrix with one more road, entered both ways. */
  function Link(m: seq<seq<int>>, i: nat, j: nat, length: int): (r: seq<seq<int>>)
    requires Square(m, |m|) && i < |m| && j < |m|
    ensures Square(r, |m|)
    ensures forall a, b | 0 <= a < |m| && 0 <= b < |m| ::
              r[a][b] == if (a == i && b == j) || (a == j && b == i) then length else m[a][b]
  {
    var m' := m[i := m[i][j := length]];
    m'[j := m'[j][i := length]]
  }

  function NoRoads(n: nat): (r: seq<seq<int>>)
    ensures Square(r, n) && forall a, b | 0 <= a < n && 0 <= b < n :: r[a][b] == 0
  {
    seq(n, i => seq(n, j => 0))
  }

  /** What becomes of a map file.  Undefined: the parser would use a buffer it never filled or a road without
      its length, or index outside the matrix. */
  datatype Outcome = Undefined | Parsed(cities: seq<City>, names: seq<string>, matrix: seq<seq<int>>)

  /** Enters the road between a and b, and then all the roads that follow. */
  function ReadRoads(p: Reading, m: seq<seq<int>>, a: Buffer, b: Buffer, length: int, rest: seq<Token>): (r: Outcome)
    requires Square(m, |p.cities|)
    ensures r.Parsed? ==> r.cities == p.cities && r.names == p.names && Square(r.matrix, |p.cities|)
    decreases |rest|
  {
    var i, j := CityId(p.cities, a), CityId(p.cities, b);
    if i < 0 || j < 0 then Undefined
    else
      var m' := Link(m, i, j, length);
      if |rest| >= 3 && rest[2].Number? then
        ReadRoads(p, m', Filled(rest[0].text), Filled(rest[1].text), rest[2].value, rest[3..])
      else
        Parsed(p.cities, p.names, m')
  }

  function AfterCities(p: Reading): Outcome {
    if p.buffer == Unset then Undefined
    else if p.buffer == Filled("") then Parsed(p.cities, p.names, NoRoads(|p.cities|))
    else if |p.rest| >= 2 && p.rest[1].Number? then
      ReadRoads(p, NoRoads(|p.cities|), p.buffer, Filled(p.rest[0].text), p.rest[1].value, p.rest[2..])
    else Undefined
  }

  function Start(names: seq<string>, rest: seq<Token>): Reading {
    Reading([], names, Unset, true, Unset, rest)
  }

  function Parse(input: seq<Token>): Outcome {
    if input == [] || input[0].Word? || input[0].value < 0 then Undefined
    else AfterCities(ReadCities(input[0].value, Start([], input[1..])))
  }

  // ---------------------------------------------------------------- reading airlines

  datatype Parked = Parked(cityId: int, stocks: Stocks)

  /** The parser between two planes of an airline.  There is one buffer for the city name, used again and again. */
  datatype Boarding = Boarding(planes: seq<Parked>, names: seq<string>, first: bool, cityName: Buffer, rest: seq<Token>)

  function NextCity(b: Boarding): (Buffer, seq<Token>) {
    if !b.first || b.rest == [] then (b.cityName, b.rest)
    else (Filled(b.rest[0].text), b.rest[1..])
  }

  function ReadPlane(b: Boarding, cities: seq<City>): Boarding {
    var (name, input) := NextCity(b);
    var s := ReadStocks([], input, b.names, Unset);
    Boarding(b.planes + [Parked(CityId(cities, name), s.stocks)], s.names,
             b.first && s.state != 1, if s.state == 1 then s.buffer else name, s.rest)
  }

  function ReadPlanes(left: nat, b: Boarding, cities: seq<City>): Boarding {
    if left == 0 then b else ReadPlanes(left - 1, ReadPlane(b, cities), cities)
  }

  /** What becomes of an airline file.  Unreadable: it announces more planes than there is room for, as a negative
      number does when it is taken for an unsigned one. */
  datatype Fleet = Unreadable | Fleet(planes: seq<Parked>, names: seq<string>)

  /** A file that does not begin with a number is an airline without planes. */
  function ParseAirline(input: seq<Token>, cities: seq<City>, names: seq<string>): Fleet {
    if input == [] || input[0].Word? then Fleet([], names)
    else if input[0].value < 0 then Unreadable
    else
      var b := ReadPlanes(input[0].value, Boarding([], names, true, Unset, input[1..]), cities);
      Fleet(b.planes, b.names)
  }

  // ---------------------------------------------------------------- what stocks any file has

  datatype StockText = StockText(name: string, amount: int)
  datatype CityText = CityText(name: string, stocks: seq<StockText>)

  /** The list s, read with the products numbered as in names. */
  ghost predicate Stands(s: Stocks, text: seq<StockText>, names: seq<string>) {
    && |s| == |text|
    && forall k | 0 <= k < |s| ::
         0 <= s[k].product < |names| && names[s[k].product] == text[k].name && s[k].amount == text[k].amount
  }

  /** No pair of a name, whatever it looks like, and an amount comes next. */
  ghost predicate EndsStocks(tail: seq<Token>) {
    |tail| >= 2 ==> tail[1].Word?
  }

  /** The input consists of the pairs s and then the tail, in which no further pair comes next. */
  ghost predicate SpellsStocks(input: seq<Token>, s: seq<StockText>, tail: seq<Token>)
    decreases |s|
  {
    if s == [] then input == tail && EndsStocks(tail)
    else
      && |input| >= 2 && input[0].text == s[0].name && input[1].Number? && input[1].value == s[0].amount
      && SpellsStocks(input[2..], s[1..], tail)
  }

  function LastName(s: seq<StockText>, buffer: Buffer): Buffer {
    if s == [] then buffer else Filled(s[|s| - 1].name)
  }

  lemma Regroup<T>(a: seq<T>, b: seq<T>)
    requires b != []
    ensures a + [b[0]] + b[1..] == a + b
  {
  }

  lemma StandsWithOneMore(done: Stocks, doneText: seq<StockText>, next: StockText, names: seq<string>)
    requires Stands(done, doneText, names)
    ensures var product := Intern(names, next.name);
            Stands(done + [Item(product.1, next.amount)], doneText + [next], product.0)
  {
  }

  /** Stocks are read pair by pair, and the word behind them too. */
  lemma {:induction false} StocksAreRead(
      done: Stocks, doneText: seq<StockText>, input: seq<Token>, s: seq<StockText>, tail: seq<Token>,
      names: seq<string>, buffer: Buffer)
    requires SpellsStocks(input, s, tail) && Stands(done, doneText, names)
    ensures var r := ReadStocks(done, input, names, buffer);
            && names <= r.names && Stands(r.stocks, doneText + s, r.names)
            && (tail == [] ==> r.state == -1 && r.buffer == LastName(s, buffer) && r.rest == [])
            && (tail != [] ==> r.state == 1 && r.buffer == Filled(tail[0].text) && r.rest == tail[1..])
    decreases |s|
  {
    if s == [] {
      assert doneText + s == doneText;
    } else {
      StandsWithOneMore(done, doneText, s[0], names);
      var product := Intern(names, s[0].name);
      StocksAreRead(done + [Item(product.1, s[0].amount)], doneText + [s[0]], input[2..], s[1..], tail, product.0,
                    Filled(s[0].name));
      Regroup(doneText, s);
    }
  }

  ghost function All(names: seq<string>): set<string> {
    set n | n in names
  }

  ghost function NamesOf(s: seq<StockText>): set<string> {
    set i | 0 <= i < |s| :: s[i].name
  }

  lemma MoreNames(s: seq<StockText>)
    requires s != []
    ensures NamesOf(s) == {s[0].name} + NamesOf(s[1..])
  {
    assert s == [s[0]] + s[1..];
    forall n | n in NamesOf(s[1..]) ensures n in NamesOf(s) {
      var i :| 0 <= i < |s[1..]| && s[1..][i].name == n;
      assert s[i + 1].name == n;
    }
    forall n | n in NamesOf(s) && n != s[0].name ensures n in NamesOf(s[1..]) {
      var i :| 0 <= i < |s| && s[i].name == n;
      assert s[1..][i - 1].name == n;
    }
  }

  /** Reading stocks adds their names to the table, and nothing else. */
  lemma {:induction false} StocksAreNamed(stocks: Stocks, input: seq<Token>, s: seq<StockText>, tail: seq<Token>,
                                          names: seq<string>, buffer: Buffer)
    requires SpellsStocks(input, s, tail)
    ensures All(ReadStocks(stocks, input, names, buffer).names) == All(names) + NamesOf(s)
    decreases |s|
  {
    if s != [] {
      var product := Intern(names, s[0].name);
      StocksAreNamed(stocks + [Item(product.1, s[0].amount)], input[2..], s[1..], tail, product.0, Filled(s[0].name));
      MoreNames(s);
      assert All(product.0) == All(names) + {s[0].name};
    }
  }

  lemma {:induction false} StocksKeepUnique(stocks: Stocks, input: seq<Token>, names: seq<string>, buffer: Buffer)
    requires UniqueNames(names)
    ensures UniqueNames(ReadStocks(stocks, input, names, buffer).names)
    decreases |input|
  {
    if |input| >= 2 && input[1].Number? {
      var product := Intern(names, input[0].text);
      InternKeepsUnique(names, input[0].text);
      StocksKeepUnique(stocks + [Item(product.1, input[1].value)], input[2..], product.0, Filled(input[0].text));
    }
  }

  /** What any input begins with. */
  lemma {:induction false} CutStocks(input: seq<Token>) returns (s: seq<StockText>)
    ensures 2 * |s| <= |input| && SpellsStocks(input, s, input[2 * |s|..])
    decreases |input|
  {
    if |input| >= 2 && input[1].Number? {
      var rest := CutStocks(input[2..]);
      s := [StockText(input[0].text, input[1].value)] + rest;
      assert s[1..] == rest && input[2..][2 * |rest|..] == input[2 * |s|..];
    } else {
      s := [];
    }
  }

  // ---------------------------------------------------------------- what cities any file has

  ghost predicate CitiesStand(cities: seq<City>, text: seq<CityText>, names: seq<string>) {
    && |cities| == |text|
    && forall i | 0 <= i < |cities| ::
         cities[i].name == Filled(text[i].name) && Stands(cities[i].stocks, text[i].stocks, names)
  }

  /** The input begins with a name and the stocks under it, and goes on with the rest. */
  ghost predicate Piece(input: seq<Token>, c: CityText, rest: seq<Token>) {
    input != [] && input[0].text == c.name && SpellsStocks(input[1..], c.stocks, rest)
  }

  /** A file consists of the cities cs and a tail: rests[i] is what is left of it from the name of city i on. */
  ghost predicate Spells(rests: seq<seq<Token>>, cs: seq<CityText>) {
    |rests| == |cs| + 1 && forall i | 0 <= i < |cs| :: Piece(rests[i], cs[i], rests[i + 1])
  }

  /** The input consists of n cities and a tail, or of fewer and nothing else. */
  ghost predicate SpellsUpTo(input: seq<Token>, rests: seq<seq<Token>>, cs: seq<CityText>, n: nat) {
    Spells(rests, cs) && rests[0] == input && |cs| <= n && (|cs| == n || rests[|cs|] == [])
  }

  /** Any input does. */
  lemma {:induction false} CutCities(input: seq<Token>, n: nat) returns (rests: seq<seq<Token>>, cs: seq<CityText>)
    ensures SpellsUpTo(input, rests, cs, n)
    decreases n
  {
    if n == 0 || input == [] {
      rests, cs := [input], [];
    } else {
      var s := CutStocks(input[1..]);
      rests, cs := CutCities(input[1..][2 * |s|..], n - 1);
      assert Piece(input, CityText(input[0].text, s), rests[0]);
      rests, cs := [input] + rests, [CityText(input[0].text, s)] + cs;
    }
  }

  lemma CitiesStandLonger(cities: seq<City>, text: seq<CityText>, names: seq<string>, names': seq<string>)
    requires CitiesStand(cities, text, names) && names <= names'
    ensures CitiesStand(cities, text, names')
  {
    forall i, k | 0 <= i < |cities| && 0 <= k < |cities[i].stocks|
      ensures names'[cities[i].stocks[k].product] == text[i].stocks[k].name
    {
      assert Stands(cities[i].stocks, text[i].stocks, names);
    }
  }

  lemma TakeOneMore<T>(s: seq<T>, i: nat)
    requires i < |s|
    ensures s[..i + 1] == s[..i] + [s[i]]
  {
  }

  lemma OneMoreCity(cities: seq<City>, text: seq<CityText>, names: seq<string>, city: City, c: CityText,
                    names': seq<string>)
    requires CitiesStand(cities, text, names) && names <= names'
    requires city.name == Filled(c.name) && Stands(city.stocks, c.stocks, names')
    ensures CitiesStand(cities + [city], text + [c], names')
  {
    CitiesStandLonger(cities, text, names, names');
  }

  /** Reading the stocks of a city. */
  lemma PieceIsRead(input: seq<Token>, c: CityText, rest: seq<Token>, names: seq<string>, buffer: Buffer)
    requires Piece(input, c, rest)
    ensures var r := ReadStocks([], input[1..], names, buffer);
            && names <= r.names && Stands(r.stocks, c.stocks, r.names)
            && All(r.names) == All(names) + NamesOf(c.stocks)
            && (rest == [] ==> r.state == -1 && r.buffer == LastName(c.stocks, buffer) && r.rest == [])
            && (rest != [] ==> r.state == 1 && r.buffer == Filled(rest[0].text) && r.rest == rest[1..])
  {
    StocksAreRead([], [], input[1..], c.stocks, rest, names, buffer);
    StocksAreNamed([], input[1..], c.stocks, rest, names, buffer);
    assert [] + c.stocks == c.stocks;
  }

  /** What is in the buffer when all cities are read: the word behind them, or else the last product name that was
      read. */
  function LeftOver(cs: seq<CityText>, tail: seq<Token>): Buffer {
    if cs == [] then Unset
    else if tail != [] then Filled(tail[0].text)
    else LastName(cs[|cs| - 1].stocks, if |cs| == 1 then Unset else Filled(""))
  }

  /** The parser stands right behind the name of city i. */
  ghost predicate Behind(p: Reading, rests: seq<seq<Token>>, cs: seq<CityText>, i: nat) {
    && Spells(rests, cs) && i < |cs| && rests[i] != [] && NextName(p) == (Filled(cs[i].name), rests[i][1..])
    && p.buffer == if i == 0 then Unset else Filled("")
  }

  /** It does so while it reads n cities. */
  ghost predicate Reached(n: nat, p: Reading, rests: seq<seq<Token>>, cs: seq<CityText>, i: nat) {
    rests != [] && SpellsUpTo(rests[0], rests, cs, n) && Behind(p, rests, cs, i)
  }

  /** The parser stands behind all cities. */
  ghost predicate BehindAll(q: Reading, rests: seq<seq<Token>>, cs: seq<CityText>)
    requires |rests| == |cs| + 1
  {
    q.buffer == LeftOver(cs, rests[|cs|]) && q.rest == if rests[|cs|] == [] then [] else rests[|cs|][1..]
  }

  ghost predicate AtEnd(p: Reading) {
    p.rest == [] && NextName(p) == (Unset, [])
  }

  /** Reading a city leads behind the name of the next one, which was in the lookahead buffer. */
  lemma ToTheNext(p: Reading, rests: seq<seq<Token>>, cs: seq<CityText>, i: nat, q: Reading)
    requires Behind(p, rests, cs, i) && i + 1 < |cs| && q == ReadCity(p, false)
    ensures Behind(q, rests, cs, i + 1) && |q.cities| == |p.cities| + 1
  {
    PieceIsRead(rests[i], cs[i], rests[i + 1], p.names, p.buffer);
    assert Piece(rests[i + 1], cs[i + 1], rests[i + 2]);
  }

  lemma BehindTheLast(p: Reading, rests: seq<seq<Token>>, cs: seq<CityText>, last: bool, q: Reading)
    requires cs != [] && Behind(p, rests, cs, |cs| - 1) && q == ReadCity(p, last)
    requires last || rests[|cs|] == []
    ensures BehindAll(q, rests, cs) && |q.cities| == |p.cities| + 1 && (!last ==> AtEnd(q))
  {
    PieceIsRead(rests[|cs| - 1], cs[|cs| - 1], rests[|cs|], p.names, p.buffer);
  }

  /** The city that is read has the name and the stocks in the text. */
  lemma CityIsRead(p: Reading, rests: seq<seq<Token>>, cs: seq<CityText>, i: nat, last: bool, q: Reading)
    requires Behind(p, rests, cs, i) && q == ReadCity(p, last)
    requires CitiesStand(p.cities, cs[..i], p.names)
    ensures CitiesStand(q.cities, cs[..i + 1], q.names)
  {
    PieceIsRead(rests[i], cs[i], rests[i + 1], p.names, p.buffer);
    OneMoreCity(p.cities, cs[..i], p.names, q.cities[|p.cities|], cs[i], q.names);
    TakeOneMore(cs, i);
  }

  /** Cities the file does not have any more. */
  ghost predicate Missing(cities: seq<City>, from: nat, n: nat) {
    |cities| == n && forall i | from <= i < n :: cities[i] == City(Unset, [])
  }

  lemma {:induction false} NoMoreCities(n: nat, p: Reading, end: Reading)
    requires (n == 0 || AtEnd(p)) && end == ReadCities(n, p)
    ensures Missing(end.cities, |p.cities|, |p.cities| + n) && end.cities[..|p.cities|] == p.cities
    ensures end.names == p.names && end.buffer == p.buffer && end.rest == p.rest
    decreases n
  {
    if n > 0 {
      var q := ReadCity(p, n == 1);
      NoMoreCities(n - 1, q, end);
      assert p.cities == q.cities[..|p.cities|];
    }
  }

  /** Of n cities the first are the ones in the text, and the others are missing. */
  ghost predicate CitiesOf(text: seq<CityText>, n: nat, q: Reading) {
    && |text| <= n && Missing(q.cities, |text|, n) && CitiesStand(q.cities[..|text|], text, q.names)
  }

  /** The last step, and those after the end of the file. */
  lemma LastOfCities(n: nat, p: Reading, rests: seq<seq<Token>>, cs: seq<CityText>, end: Reading)
    requires cs != [] && Reached(n, p, rests, cs, |cs| - 1)
    requires CitiesStand(p.cities, cs[..|cs| - 1], p.names)
    requires end == ReadCities(n - |cs| + 1, p)
    ensures CitiesOf(cs, n, end) && BehindAll(end, rests, cs)
  {
    var q := ReadCity(p, n == |cs|);
    BehindTheLast(p, rests, cs, n == |cs|, q);
    CityIsRead(p, rests, cs, |cs| - 1, n == |cs|, q);
    NoMoreCities(n - |cs|, q, end);
    assert cs[..|cs|] == cs && end.cities[..|cs|] == q.cities;
  }

  lemma OneCity(n: nat, p: Reading, rests: seq<seq<Token>>, cs: seq<CityText>, i: nat) returns (q: Reading)
    requires i + 1 < |cs| && Reached(n, p, rests, cs, i)
    requires CitiesStand(p.cities, cs[..i], p.names)
    ensures Reached(n, q, rests, cs, i + 1) && CitiesStand(q.cities, cs[..i + 1], q.names)
    ensures ReadCities(n - i, p) == ReadCities(n - i - 1, q)
  {
    q := ReadCity(p, false);
    ToTheNext(p, rests, cs, i, q);
    CityIsRead(p, rests, cs, i, false, q);
  }

  /** All cities are read. */
  lemma {:induction false} CitiesAreRead(n: nat, p: Reading, rests: seq<seq<Token>>, cs: seq<CityText>, i: nat,
                                         end: Reading)
    requires Reached(n, p, rests, cs, i)
    requires CitiesStand(p.cities, cs[..i], p.names)
    requires end == ReadCities(n - i, p)
    ensures CitiesOf(cs, n, end) && BehindAll(end, rests, cs)
    decreases |cs| - i
  {
    if i + 1 == |cs| {
      LastOfCities(n, p, rests, cs, end);
    } else {
      var q := OneCity(n, p, rests, cs, i);
      CitiesAreRead(n, q, rests, cs, i + 1, end);
    }
  }

  ghost function Goods(cs: seq<CityText>): set<string> {
    set i, k | 0 <= i < |cs| && 0 <= k < |cs[i].stocks| :: cs[i].stocks[k].name
  }

  lemma MoreGoods(cs: seq<CityText>, i: nat)
    requires i < |cs|
    ensures Goods(cs[..i + 1]) == Goods(cs[..i]) + NamesOf(cs[i].stocks)
  {
    forall n | n in Goods(cs[..i]) ensures n in Goods(cs[..i + 1]) {
      var j, k :| 0 <= j < i && 0 <= k < |cs[..i][j].stocks| && cs[..i][j].stocks[k].name == n;
      assert cs[..i + 1][j].stocks[k].name == n;
    }
    forall n | n in NamesOf(cs[i].stocks) ensures n in Goods(cs[..i + 1]) {
      var k :| 0 <= k < |cs[i].stocks| && cs[i].stocks[k].name == n;
      assert cs[..i + 1][i].stocks[k].name == n;
    }
    forall n | n in Goods(cs[..i + 1]) ensures n in Goods(cs[..i]) + NamesOf(cs[i].stocks) {
      var j, k :| 0 <= j < i + 1 && 0 <= k < |cs[..i + 1][j].stocks| && cs[..i + 1][j].stocks[k].name == n;
      if j < i { assert cs[..i][j].stocks[k].name == n; }
    }
  }

  lemma CityIsNamed(p: Reading, rests: seq<seq<Token>>, cs: seq<CityText>, i: nat, last: bool, before: set<string>)
    requires Behind(p, rests, cs, i) && All(p.names) == before + Goods(cs[..i])
    ensures All(ReadCity(p, last).names) == before + Goods(cs[..i + 1])
  {
    PieceIsRead(rests[i], cs[i], rests[i + 1], p.names, p.buffer);
    MoreGoods(cs, i);
  }

  lemma LastIsNamed(n: nat, p: Reading, rests: seq<seq<Token>>, cs: seq<CityText>, before: set<string>)
    requires cs != [] && Reached(n, p, rests, cs, |cs| - 1)
    requires All(p.names) == before + Goods(cs[..|cs| - 1])
    ensures All(ReadCities(n - |cs| + 1, p).names) == before + Goods(cs)
  {
    var q := ReadCity(p, n == |cs|);
    CityIsNamed(p, rests, cs, |cs| - 1, n == |cs|, before);
    BehindTheLast(p, rests, cs, n == |cs|, q);
    NoMoreCities(n - |cs|, q, ReadCities(n - |cs|, q));
    assert cs[..|cs|] == cs;
  }

  lemma OneIsNamed(n: nat, p: Reading, rests: seq<seq<Token>>, cs: seq<CityText>, i: nat, before: set<string>)
    returns (q: Reading)
    requires i + 1 < |cs| && Reached(n, p, rests, cs, i) && All(p.names) == before + Goods(cs[..i])
    ensures Reached(n, q, rests, cs, i + 1) && All(q.names) == before + Goods(cs[..i + 1])
    ensures ReadCities(n - i, p) == ReadCities(n - i - 1, q)
  {
    q := ReadCity(p, false);
    ToTheNext(p, rests, cs, i, q);
    CityIsNamed(p, rests, cs, i, false, before);
  }

  /** The table holds the names of the stocks that were read, and nothing else. */
  lemma {:induction false} CitiesAreNamed(n: nat, p: Reading, rests: seq<seq<Token>>, cs: seq<CityText>, i: nat,
                                          before: set<string>)
    requires Reached(n, p, rests, cs, i)
    requires All(p.names) == before + Goods(cs[..i])
    ensures All(ReadCities(n - i, p).names) == before + Goods(cs)
    decreases |cs| - i
  {
    if i + 1 == |cs| {
      LastIsNamed(n, p, rests, cs, before);
    } else {
      var q := OneIsNamed(n, p, rests, cs, i, before);
      CitiesAreNamed(n, q, rests, cs, i + 1, before);
    }
  }

  lemma {:induction false} CitiesKeepUnique(n: nat, p: Reading)
    requires UniqueNames(p.names)
    ensures UniqueNames(ReadCities(n, p).names)
    decreases n
  {
    if n > 0 {
      StocksKeepUnique([], NextName(p).1, p.names, p.buffer);
      CitiesKeepUnique(n - 1, ReadCity(p, n == 1));
    }
  }

  /** On every file: which cities are read, with which stocks, what is in the buffer then, and what is left to read. */
  lemma AnyCities(n: nat, input: seq<Token>, rests: seq<seq<Token>>, cs: seq<CityText>, q: Reading)
    requires SpellsUpTo(input, rests, cs, n) && q == ReadCities(n, Start([], input))
    ensures CitiesOf(cs, n, q) && UniqueNames(q.names) && All(q.names) == Goods(cs)
    ensures q.buffer == LeftOver(cs, rests[|cs|])
    ensures cs != [] ==> q.rest == if rests[|cs|] == [] then [] else rests[|cs|][1..]
  {
    var p := Start([], input);
    CitiesKeepUnique(n, p);
    if cs == [] {
      NoMoreCities(n, p, q);
    } else {
      assert Piece(rests[0], cs[0], rests[1]);
      assert Goods(cs[..0]) == {};
      CitiesAreRead(n, p, rests, cs, 0, q);
      CitiesAreNamed(n, p, rests, cs, 0, {});
    }
  }

  // ---------------------------------------------------------------- what roads any file has

  datatype Road = Road(from: nat, to: nat, length: int)

  /** The matrix of a list of roads, entered one after the other. */
  function RoadMatrix(m: seq<seq<int>>, roads: seq<Road>): (r: seq<seq<int>>)
    requires Square(m, |m|) && forall k | 0 <= k < |roads| :: roads[k].from < |m| && roads[k].to < |m|
    ensures Square(r, |m|)
    decreases |roads|
  {
    if roads == [] then m else RoadMatrix(Link(m, roads[0].from, roads[0].to, roads[0].length), roads[1..])
  }

  datatype RoadText = RoadText(from: string, to: string, length: int)

  /** The words are those of the roads rs, and do not begin another one then. */
  ghost predicate SpellsRoads(t: seq<Token>, rs: seq<RoadText>)
    decreases |rs|
  {
    if rs == [] then |t| >= 3 ==> t[2].Word?
    else
      && |t| >= 3 && t[0].text == rs[0].from && t[1].text == rs[0].to && t[2].Number? && t[2].value == rs[0].length
      && SpellsRoads(t[3..], rs[1..])
  }

  /** Any words are those of some roads. */
  lemma {:induction false} CutRoads(t: seq<Token>) returns (rs: seq<RoadText>)
    ensures SpellsRoads(t, rs)
    decreases |t|
  {
    if |t| >= 3 && t[2].Number? {
      var later := CutRoads(t[3..]);
      rs := [RoadText(t[0].text, t[1].text, t[2].value)] + later;
      assert rs[1..] == later;
    } else {
      rs := [];
    }
  }

  predicate Known(cities: seq<City>, r: RoadText) {
    CityId(cities, Filled(r.from)) >= 0 && CityId(cities, Filled(r.to)) >= 0
  }

  ghost predicate AllKnown(cities: seq<City>, rs: seq<RoadText>) {
    forall i | 0 <= i < |rs| :: Known(cities, rs[i])
  }

  /** The roads between the first cities with these names. */
  ghost function Between(cities: seq<City>, rs: seq<RoadText>): (roads: seq<Road>)
    requires AllKnown(cities, rs)
    ensures |roads| == |rs|
    ensures forall i | 0 <= i < |rs| ::
              && roads[i].from == CityId(cities, Filled(rs[i].from)) && roads[i].to == CityId(cities, Filled(rs[i].to))
              && roads[i].length == rs[i].length
  {
    seq(|rs|, i requires 0 <= i < |rs| =>
                Road(CityId(cities, Filled(rs[i].from)), CityId(cities, Filled(rs[i].to)), rs[i].length))
  }

  /** Roads are read until one is incomplete, and all their cities have to be known. */
  lemma {:induction false} RoadsAreRead(p: Reading, m: seq<seq<int>>, t: seq<Token>, rs: seq<RoadText>)
    requires Square(m, |p.cities|) && rs != [] && SpellsRoads(t, rs)
    ensures ReadRoads(p, m, Filled(t[0].text), Filled(t[1].text), t[2].value, t[3..])
            == if AllKnown(p.cities, rs) then Parsed(p.cities, p.names, RoadMatrix(m, Between(p.cities, rs)))
               else Undefined
    decreases |rs|
  {
    if Known(p.cities, rs[0]) {
      var i, j := CityId(p.cities, Filled(rs[0].from)), CityId(p.cities, Filled(rs[0].to));
      var m' := Link(m, i, j, rs[0].length);
      KnownStep(p.cities, rs);
      if AllKnown(p.cities, rs) {
        assert Between(p.cities, rs)[1..] == Between(p.cities, rs[1..]);
      }
      if |rs| > 1 {
        RoadsAreRead(p, m', t[3..], rs[1..]);
      }
    }
  }

  lemma KnownStep(cities: seq<City>, rs: seq<RoadText>)
    requires rs != []
    ensures AllKnown(cities, rs) <==> Known(cities, rs[0]) && AllKnown(cities, rs[1..])
  {
    assert forall i | 0 < i < |rs| :: rs[i] == rs[1..][i - 1];
  }

  /** The words the roads are read from: the one in the buffer, and the rest of the file. */
  function RoadTokens(left: Buffer, tail: seq<Token>): seq<Token>
    requires left.Filled?
  {
    [Word(left.text)] + if tail == [] then [] else tail[1..]
  }

  lemma AnyRoads(q: Reading, tail: seq<Token>, rs: seq<RoadText>)
    requires q.buffer.Filled? && q.buffer.text != "" && q.rest == if tail == [] then [] else tail[1..]
    requires SpellsRoads(RoadTokens(q.buffer, tail), rs)
    ensures AfterCities(q) == if rs == [] || !AllKnown(q.cities, rs) then Undefined
                              else Parsed(q.cities, q.names, RoadMatrix(NoRoads(|q.cities|), Between(q.cities, rs)))
  {
    var t := RoadTokens(q.buffer, tail);
    assert t[1..] == q.rest;
    if rs != [] {
      assert t[3..] == q.rest[2..];
      RoadsAreRead(q, NoRoads(|q.cities|), t, rs);
    } else if |q.rest| >= 2 {
      assert t[2] == q.rest[1];
    }
  }

  /** On every map file that begins with a count.  With nothing in the buffer the parser goes wrong, with an empty name
      there are no roads, and with any other there have to be roads, between cities that are known. */
  lemma AnyMap(input: seq<Token>, rests: seq<seq<Token>>, cs: seq<CityText>, rs: seq<RoadText>, q: Reading)
    requires input != [] && input[0].Number? && input[0].value >= 0
    requires SpellsUpTo(input[1..], rests, cs, input[0].value)
    requires var left := LeftOver(cs, rests[|cs|]); left.Filled? ==> SpellsRoads(RoadTokens(left, rests[|cs|]), rs)
    requires q == ReadCities(input[0].value, Start([], input[1..]))
    ensures CitiesOf(cs, input[0].value, q) && UniqueNames(q.names) && All(q.names) == Goods(cs)
    ensures Parse(input)
            == match LeftOver(cs, rests[|cs|])
               case Unset => Undefined
               case Filled(name) =>
                 if name == "" then Parsed(q.cities, q.names, NoRoads(|q.cities|))
                 else if rs == [] || !AllKnown(q.cities, rs) then Undefined
                 else Parsed(q.cities, q.names, RoadMatrix(NoRoads(|q.cities|), Between(q.cities, rs)))
  {
    var left := LeftOver(cs, rests[|cs|]);
    AnyCities(input[0].value, input[1..], rests, cs, q);
    if left.Filled? && left.text != "" {
      AnyRoads(q, rests[|cs|], rs);
    }
  }

  // ---------------------------------------------------------------- what the matrix says

  predicate Joins(r: Road, i: nat, j: nat) {
    (r.from == i && r.to == j) || (r.from == j && r.to == i)
  }

  /** d is the length of the last road in the list between i and j, or `otherwise` when there is none. */
  ghost predicate LastLength(roads: seq<Road>, i: nat, j: nat, d: int, otherwise: int) {
    || ((forall k | 0 <= k < |roads| :: !Joins(roads[k], i, j)) && d == otherwise)
    || exists k | 0 <= k < |roads| ::
         Joins(roads[k], i, j) && d == roads[k].length && forall l | k < l < |roads| :: !Joins(roads[l], i, j)
  }

  lemma LastLengthStep(roads: seq<Road>, i: nat, j: nat, d: int, otherwise: int)
    requires roads != []
    requires LastLength(roads[1..], i, j, d, if Joins(roads[0], i, j) then roads[0].length else otherwise)
    ensures LastLength(roads, i, j, d, otherwise)
  {
    if forall k | 0 <= k < |roads| - 1 :: !Joins(roads[1..][k], i, j) {
      assert forall k | 0 < k < |roads| :: roads[k] == roads[1..][k - 1];
    } else {
      var k :| 0 <= k < |roads| - 1 && Joins(roads[1..][k], i, j) && d == roads[1..][k].length
               && forall l | k < l < |roads| - 1 :: !Joins(roads[1..][l], i, j);
      assert roads[k + 1] == roads[1..][k];
      assert forall l | k + 1 < l < |roads| :: roads[l] == roads[1..][l - 1];
    }
  }

  /** An entry of the matrix is the length of the last road between the two cities, and as before without one. */
  lemma {:induction false} MatrixEntry(m: seq<seq<int>>, roads: seq<Road>, i: nat, j: nat)
    requires Square(m, |m|) && forall k | 0 <= k < |roads| :: roads[k].from < |m| && roads[k].to < |m|
    requires i < |m| && j < |m|
    ensures LastLength(roads, i, j, RoadMatrix(m, roads)[i][j], m[i][j])
    decreases |roads|
  {
    if roads != [] {
      var m' := Link(m, roads[0].from, roads[0].to, roads[0].length);
      MatrixEntry(m', roads[1..], i, j);
      LastLengthStep(roads, i, j, RoadMatrix(m, roads)[i][j], m[i][j]);
    }
  }

  // ---------------------------------------------------------------- what planes any airline file has

  ghost predicate PlaneStands(plane: Parked, text: CityText, cities: seq<City>, names: seq<string>) {
    plane.cityId == CityId(cities, Filled(text.name)) && Stands(plane.stocks, text.stocks, names)
  }

  ghost predicate AllStand(planes: seq<Parked>, text: seq<CityText>, cities: seq<City>, names: seq<string>) {
    |planes| == |text| && forall k | 0 <= k < |planes| :: PlaneStands(planes[k], text[k], cities, names)
  }

  lemma AllStandLonger(planes: seq<Parked>, text: seq<CityText>, cities: seq<City>, names: seq<string>,
                       names': seq<string>)
    requires AllStand(planes, text, cities, names) && names <= names'
    ensures AllStand(planes, text, cities, names')
  {
    forall i, k | 0 <= i < |planes| && 0 <= k < |planes[i].stocks|
      ensures names'[planes[i].stocks[k].product] == text[i].stocks[k].name
    {
      assert PlaneStands(planes[i], text[i], cities, names);
    }
  }

  /** The parser stands right behind the city name of plane i. */
  ghost predicate Aboard(b: Boarding, rests: seq<seq<Token>>, cs: seq<CityText>, i: nat) {
    Spells(rests, cs) && i < |cs| && rests[i] != [] && NextCity(b) == (Filled(cs[i].name), rests[i][1..])
  }

  ghost predicate Boarded(n: nat, b: Boarding, rests: seq<seq<Token>>, cs: seq<CityText>, i: nat) {
    rests != [] && SpellsUpTo(rests[0], rests, cs, n) && Aboard(b, rests, cs, i)
  }

  /** Reading a plane leads behind the next city name; behind the last plane that name stays, if the file ends. */
  lemma NextPlane(b: Boarding, rests: seq<seq<Token>>, cs: seq<CityText>, i: nat, cities: seq<City>, c: Boarding)
    requires Aboard(b, rests, cs, i) && c == ReadPlane(b, cities)
    ensures |c.planes| == |b.planes| + 1
    ensures i + 1 < |cs| ==> Aboard(c, rests, cs, i + 1)
    ensures i + 1 == |cs| && rests[|cs|] == [] ==> NextCity(c) == (Filled(cs[i].name), [])
  {
    PieceIsRead(rests[i], cs[i], rests[i + 1], b.names, Unset);
    assert i + 1 < |cs| ==> Piece(rests[i + 1], cs[i + 1], rests[i + 2]);
  }

  lemma OneMorePlane(planes: seq<Parked>, text: seq<CityText>, cities: seq<City>, names: seq<string>, plane: Parked,
                     c: CityText, names': seq<string>)
    requires AllStand(planes, text, cities, names) && names <= names' && PlaneStands(plane, c, cities, names')
    ensures AllStand(planes + [plane], text + [c], cities, names')
  {
    AllStandLonger(planes, text, cities, names, names');
  }

  /** The plane that is read stands where the text says, with the stocks in the text. */
  lemma PlaneIsRead(b: Boarding, rests: seq<seq<Token>>, cs: seq<CityText>, i: nat, cities: seq<City>, c: Boarding,
                    before: set<string>)
    requires Aboard(b, rests, cs, i) && c == ReadPlane(b, cities)
    requires AllStand(b.planes, cs[..i], cities, b.names)
    requires All(b.names) == before + Goods(cs[..i])
    ensures AllStand(c.planes, cs[..i + 1], cities, c.names) && b.names <= c.names
    ensures All(c.names) == before + Goods(cs[..i + 1])
  {
    PieceIsRead(rests[i], cs[i], rests[i + 1], b.names, Unset);
    OneMorePlane(b.planes, cs[..i], cities, b.names, c.planes[|b.planes|], cs[i], c.names);
    TakeOneMore(cs, i);
    MoreGoods(cs, i);
  }

  /** Planes the file does not have any more are empty, and where the last one was. */
  ghost predicate Spare(planes: seq<Parked>, from: nat, n: nat, at: int) {
    |planes| == n && forall i | from <= i < n :: planes[i] == Parked(at, [])
  }

  lemma {:induction false} NoMorePlanes(n: nat, b: Boarding, cities: seq<City>, name: Buffer, end: Boarding)
    requires (n == 0 || NextCity(b) == (name, [])) && end == ReadPlanes(n, b, cities)
    ensures Spare(end.planes, |b.planes|, |b.planes| + n, CityId(cities, name))
    ensures end.planes[..|b.planes|] == b.planes && end.names == b.names
    decreases n
  {
    if n > 0 {
      var c := ReadPlane(b, cities);
      NoMorePlanes(n - 1, c, cities, name, end);
      assert b.planes == c.planes[..|b.planes|];
    }
  }

  /** Of n planes the first are the ones in the text, and the others are spare; the table holds the names from before
      and those of the stocks, and nothing else. */
  ghost predicate PlanesOf(text: seq<CityText>, n: nat, cities: seq<City>, before: set<string>, planes: seq<Parked>,
                           names: seq<string>)
  {
    && |text| <= n && All(names) == before + Goods(text)
    && Spare(planes, |text|, n, if text == [] then -1 else CityId(cities, Filled(text[|text| - 1].name)))
    && AllStand(planes[..|text|], text, cities, names)
  }

  lemma LastPlane(n: nat, b: Boarding, rests: seq<seq<Token>>, cs: seq<CityText>, cities: seq<City>,
                  before: set<string>, end: Boarding)
    requires cs != [] && Boarded(n, b, rests, cs, |cs| - 1)
    requires AllStand(b.planes, cs[..|cs| - 1], cities, b.names)
    requires All(b.names) == before + Goods(cs[..|cs| - 1]) && end == ReadPlanes(n - |cs| + 1, b, cities)
    ensures PlanesOf(cs, n, cities, before, end.planes, end.names) && b.names <= end.names
  {
    var c := ReadPlane(b, cities);
    NextPlane(b, rests, cs, |cs| - 1, cities, c);
    PlaneIsRead(b, rests, cs, |cs| - 1, cities, c, before);
    NoMorePlanes(n - |cs|, c, cities, Filled(cs[|cs| - 1].name), end);
    assert cs[..|cs|] == cs && end.planes[..|cs|] == c.planes;
  }

  lemma OnePlane(n: nat, b: Boarding, rests: seq<seq<Token>>, cs: seq<CityText>, i: nat, cities: seq<City>,
                 before: set<string>)
    returns (c: Boarding)
    requires i + 1 < |cs| && Boarded(n, b, rests, cs, i)
    requires AllStand(b.planes, cs[..i], cities, b.names)
    requires All(b.names) == before + Goods(cs[..i])
    ensures Boarded(n, c, rests, cs, i + 1) && ReadPlanes(n - i, b, cities) == ReadPlanes(n - i - 1, c, cities)
    ensures AllStand(c.planes, cs[..i + 1], cities, c.names) && b.names <= c.names
    ensures All(c.names) == before + Goods(cs[..i + 1])
  {
    c := ReadPlane(b, cities);
    NextPlane(b, rests, cs, i, cities, c);
    PlaneIsRead(b, rests, cs, i, cities, c, before);
  }

  lemma {:induction false} PlanesAreRead(n: nat, b: Boarding, rests: seq<seq<Token>>, cs: seq<CityText>, i: nat,
                                         cities: seq<City>, before: set<string>, end: Boarding)
    requires Boarded(n, b, rests, cs, i)
    requires AllStand(b.planes, cs[..i], cities, b.names)
    requires All(b.names) == before + Goods(cs[..i]) && end == ReadPlanes(n - i, b, cities)
    ensures PlanesOf(cs, n, cities, before, end.planes, end.names) && b.names <= end.names
    decreases |cs| - i
  {
    if i + 1 == |cs| {
      LastPlane(n, b, rests, cs, cities, before, end);
    } else {
      var c := OnePlane(n, b, rests, cs, i, cities, before);
      PlanesAreRead(n, c, rests, cs, i + 1, cities, before, end);
    }
  }

  lemma {:induction false} PlanesKeepUnique(n: nat, b: Boarding, cities: seq<City>)
    requires UniqueNames(b.names)
    ensures UniqueNames(ReadPlanes(n, b, cities).names)
    decreases n
  {
    if n > 0 {
      StocksKeepUnique([], NextCity(b).1, b.names, Unset);
      PlanesKeepUnique(n - 1, ReadPlane(b, cities), cities);
    }
  }

  lemma AirlineKeepsUnique(input: seq<Token>, cities: seq<City>, names: seq<string>)
    requires UniqueNames(names)
    ensures var r := ParseAirline(input, cities, names); r.Fleet? ==> UniqueNames(r.names)
  {
    if input != [] && input[0].Number? && input[0].value >= 0 {
      PlanesKeepUnique(input[0].value, Boarding([], names, true, Unset, input[1..]), cities);
    }
  }

  /** On every airline file: planes stand in the first city of the name they are listed under, nowhere if there is none,
      with their goods.  Planes that are announced but not listed are empty. */
  lemma AnyAirline(input: seq<Token>, cities: seq<City>, names: seq<string>, rests: seq<seq<Token>>, cs: seq<CityText>)
    requires input != [] && input[0].Number? && input[0].value >= 0 ==>
               SpellsUpTo(input[1..], rests, cs, input[0].value)
    ensures var r := ParseAirline(input, cities, names);
            && (r == Unreadable <==> input != [] && input[0].Number? && input[0].value < 0)
            && (input == [] || input[0].Word? ==> r == Fleet([], names))
            && (input != [] && input[0].Number? && input[0].value >= 0 ==>
                  && PlanesOf(cs, input[0].value, cities, All(names), r.planes, r.names)
                  && names <= r.names)
  {
    if input != [] && input[0].Number? && input[0].value >= 0 {
      var n, b := input[0].value, Boarding([], names, true, Unset, input[1..]);
      var end := ReadPlanes(n, b, cities);
      assert Goods(cs[..0]) == {};
      if cs == [] {
        NoMorePlanes(n, b, cities, Unset, end);
        assert Goods(cs) == {};
      } else {
        assert Piece(rests[0], cs[0], rests[1]);
        PlanesAreRead(n, b, rests, cs, 0, cities, All(names), end);
      }
    }
  }
}
