/** How the simulation starts. */
module Startup {
  // The map file is read first and then every airline file, all with one product table. From then on planes are
  // numbered through all airlines.

  import opened Delivery
  import opened Products
  import opened Parser
  import opened ParserInPlace
  import opened Printing
  import Floyd
  import Turns
  import opened Protocol
  import ProtocolStop

  // ---------------------------------------------------------------- one airline

  ghost predicate Distinct(s: seq<StockText>) {
    forall i, j | 0 <= i < j < |s| :: s[i].name != s[j].name
  }

  ghost predicate NoDebt(s: seq<StockText>) {
    forall i | 0 <= i < |s| :: s[i].amount >= 0
  }

  /** Different names have different numbers, and a name has one. */
  lemma ListMeaning(s: Stocks, text: seq<StockText>, names: seq<string>)
    requires Stands(s, text, names) && UniqueNames(names)
    ensures UniqueProducts(s) <==> Distinct(text)
    ensures NonNegative(s) <==> NoDebt(text)
  {
  }

  function StartWorld(cities: seq<City>, planes: seq<Parked>): Turns.World
    requires forall k | 0 <= k < |planes| :: planes[k].cityId >= 0
  {
    Turns.World(seq(|cities|, c requires 0 <= c < |cities| => cities[c].stocks),
                seq(|planes|, p requires 0 <= p < |planes| =>
                      Turns.Plane(planes[p].cityId, 0, planes[p].stocks, false)))
  }

  /** The world that a map and some planes describe: every city asks for what is listed there, and every plane is on the
      ground in its city, at work, with all its goods aboard. */
  ghost predicate Describes(cityText: seq<CityText>, text: seq<PlaneText>, names: seq<string>, w: Turns.World) {
    && |w.cities| == |cityText| && |w.planes| == |text|
    && (forall c | 0 <= c < |cityText| :: Stands(w.cities[c], cityText[c].stocks, names))
    && forall p | 0 <= p < |text| ::
         && w.planes[p].city == text[p].at && w.planes[p].distance == 0 && !w.planes[p].done
         && Stands(w.planes[p].load, text[p].stocks, names)
  }

  /** The files describe the world that is made of them. */
  lemma StartIsDescribed(
      cities: seq<City>, cityText: seq<CityText>, planes: seq<Parked>, text: seq<PlaneText>, names: seq<string>)
    requires CitiesStand(cities, cityText, names) && PlanesStand(planes, text, names)
    ensures forall k | 0 <= k < |planes| :: planes[k].cityId >= 0
    ensures Describes(cityText, text, names, StartWorld(cities, planes))
  {
  }

  /** No city repeats a product, no amount is negative, and planes with goods start in cities that list something. */
  ghost predicate Fair(cityText: seq<CityText>, text: seq<PlaneText>) {
    && (forall c | 0 <= c < |cityText| :: Distinct(cityText[c].stocks) && NoDebt(cityText[c].stocks))
    && forall k | 0 <= k < |text| ::
         && NoDebt(text[k].stocks)
         && text[k].at < |cityText| && (text[k].stocks == [] || cityText[text[k].at].stocks != [])
  }

  /** Files make a world that the simulation may start from if and only if they are fair. */
  lemma FilesMakeInitialWorld(
      cities: seq<City>, cityText: seq<CityText>, planes: seq<Parked>, text: seq<PlaneText>, names: seq<string>)
    requires CitiesStand(cities, cityText, names) && PlanesStand(planes, text, names) && UniqueNames(names)
    ensures Turns.Initial(StartWorld(cities, planes)) <==> Fair(cityText, text)
    ensures (forall p | 0 <= p < |planes| :: UniqueProducts(planes[p].stocks)) <==>
              forall k | 0 <= k < |text| :: Distinct(text[k].stocks)
  {
    var w := StartWorld(cities, planes);
    forall c | 0 <= c < |cities|
      ensures UniqueProducts(w.cities[c]) <==> Distinct(cityText[c].stocks)
      ensures NonNegative(w.cities[c]) <==> NoDebt(cityText[c].stocks)
    {
      ListMeaning(cities[c].stocks, cityText[c].stocks, names);
    }
    forall p | 0 <= p < |planes|
      ensures UniqueProducts(planes[p].stocks) <==> Distinct(text[p].stocks)
      ensures NonNegative(w.planes[p].load) <==> NoDebt(text[p].stocks)
    {
      ListMeaning(planes[p].stocks, text[p].stocks, names);
    }
    assert Turns.Ready(w.cities, w.planes) <==>
           forall k | 0 <= k < |text| ::
             text[k].at < |cityText| && (text[k].stocks == [] || cityText[text[k].at].stocks != []);
  }

  // ---------------------------------------------------------------- all airlines

  /** The planes of each airline, or Lost when an airline could not be read. */
  datatype Fleets = Lost | Fleets(airlines: seq<seq<Parked>>, names: seq<string>)

  function ReadFleets(files: seq<seq<Token>>, cities: seq<City>, names: seq<string>): Fleets {
    if files == [] then Fleets([], names)
    else
      var last := |files| - 1;
      var before := ReadFleets(files[..last], cities, names);
      if before.Lost? then Lost
      else
        var fleet := ParseAirline(files[last], cities, before.names);
        if fleet.Unreadable? then Lost else Fleets(before.airlines + [fleet.planes], fleet.names)
  }

  function PrintFleets(write: Writing, cityText: seq<CityText>, fleets: seq<seq<PlaneText>>): (r: seq<seq<Token>>)
    requires InRange(cityText, fleets)
  {
    seq(|fleets|, a requires 0 <= a < |fleets| => PrintAirline(write, cityText, fleets[a]))
  }

  ghost predicate InRange(cityText: seq<CityText>, fleets: seq<seq<PlaneText>>) {
    forall a, k | 0 <= a < |fleets| && 0 <= k < |fleets[a]| :: fleets[a][k].at < |cityText|
  }

  /** Planes start in cities of the map, and what they carry is called by words. */
  ghost predicate Printable(cityText: seq<CityText>, fleets: seq<seq<PlaneText>>) {
    && InRange(cityText, fleets)
    && forall a, k, i | 0 <= a < |fleets| && 0 <= k < |fleets[a]| && 0 <= i < |fleets[a][k].stocks| ::
         IsWord(fleets[a][k].stocks[i].name)
  }

  ghost predicate FleetsStand(airlines: seq<seq<Parked>>, fleets: seq<seq<PlaneText>>, names: seq<string>) {
    && |airlines| == |fleets|
    && forall a | 0 <= a < |fleets| :: PlanesStand(airlines[a], fleets[a], names)
  }

  lemma FleetsStandLonger(airlines: seq<seq<Parked>>, fleets: seq<seq<PlaneText>>, names: seq<string>,
                          names': seq<string>)
    requires FleetsStand(airlines, fleets, names) && names <= names'
    ensures FleetsStand(airlines, fleets, names')
  {
    forall a | 0 <= a < |fleets| ensures PlanesStand(airlines[a], fleets[a], names') {
      PlanesStandLonger(airlines[a], fleets[a], names, names');
    }
  }

  lemma AllButLast(write: Writing, cityText: seq<CityText>, fleets: seq<seq<PlaneText>>)
    requires Printable(cityText, fleets) && fleets != []
    ensures var last, files := |fleets| - 1, PrintFleets(write, cityText, fleets);
            && Printable(cityText, fleets[..last])
            && files[..last] == PrintFleets(write, cityText, fleets[..last])
            && files[last] == PrintAirline(write, cityText, fleets[last])
  {
  }

  lemma OneMoreFleet(write: Writing, f: MapFile, cities: seq<City>, before: Fleets, fleets: seq<seq<PlaneText>>)
    returns (after: Fleets)
    requires WellFormed(f) && Called(cities, f.cities) && Printable(f.cities, fleets) && fleets != []
    requires before.Fleets? && FleetsStand(before.airlines, fleets[..|fleets| - 1], before.names)
    ensures after.Fleets? && FleetsStand(after.airlines, fleets, after.names) && before.names <= after.names
    ensures var file := PrintAirline(write, f.cities, fleets[|fleets| - 1]);
            ParseAirline(file, cities, before.names).Fleet?
            && after == Fleets(before.airlines + [ParseAirline(file, cities, before.names).planes],
                               ParseAirline(file, cities, before.names).names)
  {
    var last := |fleets| - 1;
    ParsePrintAirline(write, f, cities, before.names, fleets[last]);
    var fleet := ParseAirline(PrintAirline(write, f.cities, fleets[last]), cities, before.names);
    after := Fleets(before.airlines + [fleet.planes], fleet.names);
    FleetsStandLonger(before.airlines, fleets[..last], before.names, after.names);
    assert forall a | 0 <= a < last :: fleets[..last][a] == fleets[a];
  }

  /** Printed airlines are read back, one after the other; the product table grows, and keeps its numbers. */
  lemma {:induction false} FleetsComeBack(write: Writing, f: MapFile, cities: seq<City>, names: seq<string>,
                                          fleets: seq<seq<PlaneText>>)
    requires WellFormed(f) && Called(cities, f.cities) && Printable(f.cities, fleets)
    ensures var r := ReadFleets(PrintFleets(write, f.cities, fleets), cities, names);
            r.Fleets? && FleetsStand(r.airlines, fleets, r.names) && names <= r.names
    decreases |fleets|
  {
    if fleets != [] {
      AllButLast(write, f.cities, fleets);
      FleetsComeBack(write, f, cities, names, fleets[..|fleets| - 1]);
      var before := ReadFleets(PrintFleets(write, f.cities, fleets[..|fleets| - 1]), cities, names);
      var after := OneMoreFleet(write, f, cities, before, fleets);
    }
  }

  lemma {:induction false} FleetsKeepUnique(files: seq<seq<Token>>, cities: seq<City>, names: seq<string>)
    requires UniqueNames(names)
    ensures var r := ReadFleets(files, cities, names); r.Fleets? ==> UniqueNames(r.names)
    decreases |files|
  {
    if files != [] {
      var last := |files| - 1;
      FleetsKeepUnique(files[..last], cities, names);
      var before := ReadFleets(files[..last], cities, names);
      if before.Fleets? {
        AirlineKeepsUnique(files[last], cities, before.names);
      }
    }
  }

  // ---------------------------------------------------------------- numbering through

  function Concat<T>(lists: seq<seq<T>>): seq<T> {
    if lists == [] then [] else Concat(lists[..|lists| - 1]) + lists[|lists| - 1]
  }

  /** The number of the first plane of airline a. */
  function Begin<T>(lists: seq<seq<T>>, a: nat): nat
    requires a <= |lists|
  {
    if a == 0 then 0 else Begin(lists, a - 1) + |lists[a - 1]|
  }

  lemma {:induction false} BeginOfPrefix<T>(lists: seq<seq<T>>, n: nat, a: nat)
    requires a <= n <= |lists|
    ensures Begin(lists[..n], a) == Begin(lists, a)
    decreases a
  {
    if a > 0 { BeginOfPrefix(lists, n, a - 1); }
  }

  lemma {:induction false} BeginGrows<T>(lists: seq<seq<T>>, a: nat, b: nat)
    requires a <= b <= |lists|
    ensures Begin(lists, a) <= Begin(lists, b)
    ensures a < b ==> Begin(lists, a) + |lists[a]| <= Begin(lists, b)
    decreases b
  {
    if a < b { BeginGrows(lists, a, b - 1); }
  }

  /** The k-th plane of airline a is plane number Begin(a) + k. */
  lemma {:induction false} ConcatAt<T>(lists: seq<seq<T>>, a: nat, k: nat)
    requires a < |lists| && k < |lists[a]|
    ensures |Concat(lists)| == Begin(lists, |lists|) && Begin(lists, a) + k < |Concat(lists)|
    ensures Concat(lists)[Begin(lists, a) + k] == lists[a][k]
    decreases |lists|
  {
    var last := |lists| - 1;
    ConcatLength(lists);
    ConcatLength(lists[..last]);
    BeginOfPrefix(lists, last, last);
    if a < last {
      ConcatAt(lists[..last], a, k);
      BeginOfPrefix(lists, last, a);
    }
  }

  lemma {:induction false} ConcatLength<T>(lists: seq<seq<T>>)
    ensures |Concat(lists)| == Begin(lists, |lists|)
    decreases |lists|
  {
    if lists != [] {
      var last := |lists| - 1;
      ConcatLength(lists[..last]);
      BeginOfPrefix(lists, last, last);
    }
  }

  /** And every number is that of one. */
  lemma {:induction false} WhichPlane<T>(lists: seq<seq<T>>, p: nat) returns (a: nat, k: nat)
    requires p < |Concat(lists)|
    ensures a < |lists| && k < |lists[a]| && Concat(lists)[p] == lists[a][k] && p == Begin(lists, a) + k
    decreases |lists|
  {
    var last := |lists| - 1;
    ConcatLength(lists[..last]);
    BeginOfPrefix(lists, last, last);
    if p < |Concat(lists[..last])| {
      a, k := WhichPlane(lists[..last], p);
      BeginOfPrefix(lists, last, a);
    } else {
      a, k := last, p - |Concat(lists[..last])|;
    }
  }

  /** The airline that each plane belongs to. */
  function Owners<T>(lists: seq<seq<T>>): seq<nat> {
    if lists == [] then []
    else Owners(lists[..|lists| - 1]) + seq(|lists[|lists| - 1]|, _ => |lists| - 1)
  }

  lemma {:induction false} OwnersMatch<T>(lists: seq<seq<T>>)
    ensures |Owners(lists)| == Begin(lists, |lists|)
    ensures forall p | 0 <= p < |Owners(lists)| :: Owners(lists)[p] < |lists|
    ensures forall a, p | 0 <= a < |lists| && 0 <= p < |Owners(lists)| ::
              Owners(lists)[p] == a <==> Begin(lists, a) <= p < Begin(lists, a + 1)
    decreases |lists|
  {
    if lists != [] {
      var last := |lists| - 1;
      OwnersMatch(lists[..last]);
      BeginOfPrefix(lists, last, last);
      forall a, p | 0 <= a < |lists| && 0 <= p < |Owners(lists)|
        ensures Owners(lists)[p] == a <==> Begin(lists, a) <= p < Begin(lists, a + 1)
      {
        if a < last {
          BeginOfPrefix(lists, last, a);
          BeginOfPrefix(lists, last, a + 1);
          BeginGrows(lists, a + 1, last);
        }
      }
    }
  }

  // ---------------------------------------------------------------- from the files to the first state

  lemma {:induction false} AllPlanesStand(airlines: seq<seq<Parked>>, fleets: seq<seq<PlaneText>>, names: seq<string>)
    requires FleetsStand(airlines, fleets, names)
    ensures PlanesStand(Concat(airlines), Concat(fleets), names)
    decreases |fleets|
  {
    if fleets != [] {
      var last := |fleets| - 1;
      AllPlanesStand(airlines[..last], fleets[..last], names);
      MorePlanesStand(Concat(airlines[..last]), Concat(fleets[..last]), airlines[last], fleets[last], names);
    }
  }

  lemma MorePlanesStand(planes: seq<Parked>, text: seq<PlaneText>, more: seq<Parked>, moreText: seq<PlaneText>,
                        names: seq<string>)
    requires PlanesStand(planes, text, names) && PlanesStand(more, moreText, names)
    ensures PlanesStand(planes + more, text + moreText, names)
  {
  }

  /** What the files are read as: the cities, the planes of all airlines, and the names of the products. */
  ghost predicate ReadAs(write: Writing, f: MapFile, fleets: seq<seq<PlaneText>>, cities: seq<City>,
                         airlines: seq<seq<Parked>>, matrix: seq<seq<int>>, names: seq<string>)
    requires WellFormed(f) && InRange(f.cities, fleets)
  {
    var o := Parse(Print(write, f));
    && o.Parsed? && cities == o.cities && matrix == o.matrix
    && ReadFleets(PrintFleets(write, f.cities, fleets), cities, o.names) == Fleets(airlines, names)
  }

  /** What the files say about the first state: what every city asks for, and, for the k-th plane of airline a, where it
      is and what it carries, while it is on the ground and at work. */
  ghost predicate AsWritten(cityText: seq<CityText>, fleets: seq<seq<PlaneText>>, names: seq<string>, w: Turns.World) {
    && |w.cities| == |cityText| && |w.planes| == Begin(fleets, |fleets|)
    && (forall c | 0 <= c < |cityText| :: Stands(w.cities[c], cityText[c].stocks, names))
    && forall a, k | 0 <= a < |fleets| && 0 <= k < |fleets[a]| :: PlaneAsWritten(fleets, a, k, names, w)
  }

  ghost predicate PlaneAsWritten(fleets: seq<seq<PlaneText>>, a: nat, k: nat, names: seq<string>, w: Turns.World)
    requires a < |fleets| && k < |fleets[a]|
  {
    var p, text := Begin(fleets, a) + k, fleets[a][k];
    && p < |w.planes| && w.planes[p].city == text.at && w.planes[p].distance == 0 && !w.planes[p].done
    && Stands(w.planes[p].load, text.stocks, names)
  }

  lemma DescribedAsWritten(cityText: seq<CityText>, fleets: seq<seq<PlaneText>>, names: seq<string>, w: Turns.World)
    requires Describes(cityText, Concat(fleets), names, w)
    ensures AsWritten(cityText, fleets, names, w)
  {
    ConcatLength(fleets);
    forall a, k | 0 <= a < |fleets| && 0 <= k < |fleets[a]| ensures PlaneAsWritten(fleets, a, k, names, w) {
      ConcatAt(fleets, a, k);
    }
  }

  /** What was read describes the files. */
  lemma ReadDescribes(write: Writing, f: MapFile, fleets: seq<seq<PlaneText>>, cities: seq<City>,
                      airlines: seq<seq<Parked>>, matrix: seq<seq<int>>, names: seq<string>)
    requires WellFormed(f) && Readable(f) && Printable(f.cities, fleets)
    requires ReadAs(write, f, fleets, cities, airlines, matrix, names)
    ensures |airlines| == |fleets| && UniqueNames(names) && CitiesStand(cities, f.cities, names)
    ensures PlanesStand(Concat(airlines), Concat(fleets), names)
    ensures forall k | 0 <= k < |Concat(airlines)| :: Concat(airlines)[k].cityId >= 0
    ensures Describes(f.cities, Concat(fleets), names, StartWorld(cities, Concat(airlines)))
  {
    ParsePrint(write, f);
    var o := Parse(Print(write, f));
    FleetsComeBack(write, f, o.cities, o.names, fleets);
    FleetsKeepUnique(PrintFleets(write, f.cities, fleets), o.cities, o.names);
    AllPlanesStand(airlines, fleets, names);
    CitiesStandLonger(cities, f.cities, o.names, names);
    StartIsDescribed(cities, f.cities, Concat(airlines), Concat(fleets), names);
  }

  /** From the printed files to the first state: the files are read, different products get different numbers, and the
      first state is as the files say. */
  lemma FilesMakeStart(write: Writing, f: MapFile, fleets: seq<seq<PlaneText>>)
    returns (cities: seq<City>, airlines: seq<seq<Parked>>, matrix: seq<seq<int>>, names: seq<string>)
    requires WellFormed(f) && Readable(f) && Printable(f.cities, fleets)
    ensures ReadAs(write, f, fleets, cities, airlines, matrix, names) && |airlines| == |fleets| && UniqueNames(names)
    ensures forall k | 0 <= k < |Concat(airlines)| :: Concat(airlines)[k].cityId >= 0
    ensures AsWritten(f.cities, fleets, names, StartWorld(cities, Concat(airlines)))
  {
    ParsePrint(write, f);
    var o := Parse(Print(write, f));
    FleetsComeBack(write, f, o.cities, o.names, fleets);
    var r := ReadFleets(PrintFleets(write, f.cities, fleets), o.cities, o.names);
    cities, airlines, matrix, names := o.cities, r.airlines, o.matrix, r.names;
    ReadDescribes(write, f, fleets, cities, airlines, matrix, names);
    DescribedAsWritten(f.cities, fleets, names, StartWorld(cities, Concat(airlines)));
  }

  /** The same by airlines. */
  ghost predicate FairFleets(cityText: seq<CityText>, fleets: seq<seq<PlaneText>>) {
    && (forall c | 0 <= c < |cityText| :: Distinct(cityText[c].stocks) && NoDebt(cityText[c].stocks))
    && forall a, k | 0 <= a < |fleets| && 0 <= k < |fleets[a]| :: FairPlane(cityText, fleets[a][k])
  }

  ghost predicate FairPlane(cityText: seq<CityText>, text: PlaneText) {
    NoDebt(text.stocks) && text.at < |cityText| && (text.stocks == [] || cityText[text.at].stocks != [])
  }

  lemma FairByAirlines(cityText: seq<CityText>, fleets: seq<seq<PlaneText>>)
    ensures Fair(cityText, Concat(fleets)) <==> FairFleets(cityText, fleets)
  {
    var text := Concat(fleets);
    if FairFleets(cityText, fleets) {
      forall p | 0 <= p < |text| ensures FairPlane(cityText, text[p]) {
        var a, k := WhichPlane(fleets, p);
      }
    }
    if Fair(cityText, text) {
      forall a, k | 0 <= a < |fleets| && 0 <= k < |fleets[a]| ensures FairPlane(cityText, fleets[a][k]) {
        ConcatAt(fleets, a, k);
      }
    }
  }

  /** The files that were read make a state the simulation may start from if and only if they are fair. */
  lemma StartsIffFair(write: Writing, f: MapFile, fleets: seq<seq<PlaneText>>, cities: seq<City>,
                      airlines: seq<seq<Parked>>, matrix: seq<seq<int>>, names: seq<string>)
    requires WellFormed(f) && Readable(f) && Printable(f.cities, fleets)
    requires ReadAs(write, f, fleets, cities, airlines, matrix, names)
    ensures forall k | 0 <= k < |Concat(airlines)| :: Concat(airlines)[k].cityId >= 0
    ensures Turns.Initial(StartWorld(cities, Concat(airlines))) <==> FairFleets(f.cities, fleets)
  {
    ReadDescribes(write, f, fleets, cities, airlines, matrix, names);
    FairByAirlines(f.cities, fleets);
    FilesMakeInitialWorld(cities, f.cities, Concat(airlines), Concat(fleets), names);
  }

  function SetUp(airlines: seq<seq<Parked>>, dist: seq<seq<int>>, far: nat, mapRoom: nat, airlineRoom: nat,
                 mailRoom: nat): Config
  {
    Config(dist, far, seq(|airlines| + 1, a requires 0 <= a <= |airlines| => Begin(airlines, a)), Owners(airlines),
           mapRoom, airlineRoom, mailRoom)
  }

  lemma SetUpIsValid(airlines: seq<seq<Parked>>, dist: seq<seq<int>>, far: nat, mapRoom: nat, airlineRoom: nat,
                     mailRoom: nat)
    requires mapRoom >= 1 && airlineRoom >= 1 && mailRoom >= 1
    ensures SetUp(airlines, dist, far, mapRoom, airlineRoom, mailRoom).Valid()
  {
    OwnersMatch(airlines);
    forall a, b | 0 <= a <= b <= |airlines| ensures Begin(airlines, a) <= Begin(airlines, b) {
      BeginGrows(airlines, a, b);
    }
  }

  /** The state that a schedule of what was read begins with. */
  ghost predicate StartsFrom(s: State, cities: seq<City>, airlines: seq<seq<Parked>>) {
    && (forall k | 0 <= k < |Concat(airlines)| :: Concat(airlines)[k].cityId >= 0)
    && var w := StartWorld(cities, Concat(airlines));
       s.cities == w.cities && Bodies(s.planes) == w.planes && !s.stop && s.turn == 0
  }

  /** Fair files start an execution of the whole system over the closed matrix, whatever the capacity of its queues. */
  lemma FilesStartExecution(write: Writing, f: MapFile, fleets: seq<seq<PlaneText>>, cities: seq<City>,
                            airlines: seq<seq<Parked>>, matrix: seq<seq<int>>, names: seq<string>, cfg: Config)
    returns (s: State)
    requires WellFormed(f) && Readable(f) && Printable(f.cities, fleets) && FairFleets(f.cities, fleets)
    requires forall k | 0 <= k < |f.roads| :: f.roads[k].length >= 0
    requires ReadAs(write, f, fleets, cities, airlines, matrix, names)
    requires Floyd.Roads(matrix) ==> Floyd.Closed(matrix, |matrix|, cfg.dist) && cfg.far == Floyd.Cap(matrix)
    requires cfg.mapRoom >= 1 && cfg.airlineRoom >= 1 && cfg.mailRoom >= 1
    requires cfg == SetUp(airlines, cfg.dist, cfg.far, cfg.mapRoom, cfg.airlineRoom, cfg.mailRoom)
    ensures Execution(cfg, [s]) && StartsFrom(s, cities, airlines)
  {
    StartsIffFair(write, f, fleets, cities, airlines, matrix, names);
    ParsePrint(write, f);
    MatrixOfFile(write, f);
    SetUpIsValid(airlines, cfg.dist, cfg.far, cfg.mapRoom, cfg.airlineRoom, cfg.mailRoom);
    Floyd.DistancesSuitTurns(matrix, cfg.dist);
    OwnersMatch(airlines);
    ConcatLength(airlines);
    s := ProtocolStop.EveryStartIsPossible(cfg, StartWorld(cities, Concat(airlines)));
  }

  // ---------------------------------------------------------------- in place

  /** Reads every airline from its own file. */
  method LoadAirlines(files: seq<seq<Token>>, cities: seq<City>, table: Table)
    returns (ok: bool, airlines: seq<seq<Parked>>)
    requires table.Valid()
    modifies table
    ensures table.Valid()
    ensures (if ok then Fleets(airlines, table.Names()) else Lost) == ReadFleets(files, cities, old(table.Names()))
  {
    ghost var names := table.Names();
    airlines := [];
    var i := 0;
    while i < |files|
      invariant i <= |files| && table.Valid()
      invariant ReadFleets(files[..i], cities, names) == Fleets(airlines, table.Names())
    {
      var file := new Input(files[i]);
      var planes;
      ok, planes := ParseAirlines(file, table, cities);
      assert files[..i + 1][..i] == files[..i];
      if !ok {
        LostForGood(files, cities, names, i + 1);
        return;
      }
      airlines := airlines + [planes];
      i := i + 1;
    }
    assert files[..i] == files;
    ok := true;
  }

  /** Reads the map, closes its matrix, and reads the airlines with the same product table. */
  method Load(mapFile: seq<Token>, files: seq<seq<Token>>)
    returns (ok: bool, cities: seq<City>, airlines: seq<seq<Parked>>, matrix: array2<int>, table: Table)
    ensures fresh(matrix) && fresh(table) && table.Valid()
    ensures ok <==> Parse(mapFile).Parsed? && ReadFleets(files, Parse(mapFile).cities, Parse(mapFile).names).Fleets?
    ensures ok ==>
              var o := Parse(mapFile);
              && cities == o.cities && matrix.Length0 == matrix.Length1 == |o.matrix|
              && ReadFleets(files, cities, o.names) == Fleets(airlines, table.Names())
              && (Floyd.Roads(o.matrix) ==> Floyd.Closed(o.matrix, |o.matrix|, Floyd.View(matrix)))
  {
    table := new Table();
    airlines := [];
    var input := new Input(mapFile);
    ok, cities, matrix := ParseMap(input, table);
    if ok {
      ok, airlines := LoadAirlines(files, cities, table);
    }
  }

  lemma {:induction false} LostForGood(files: seq<seq<Token>>, cities: seq<City>, names: seq<string>, n: nat)
    requires n <= |files| && ReadFleets(files[..n], cities, names).Lost?
    ensures ReadFleets(files, cities, names).Lost?
    decreases |files| - n
  {
    if n == |files| {
      assert files[..n] == files;
    } else {
      assert files[..n + 1][..n] == files[..n];
      LostForGood(files, cities, names, n + 1);
    }
  }
}
