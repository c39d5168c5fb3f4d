/** From the files of a configuration to what becomes of it. */
module EndToEnd {
  // Amounts are added up by the names in the files, without product numbers.

  import opened Delivery
  import opened Products
  import opened Parser
  import opened Printing
  import opened Startup
  import opened Runs
  import opened Surplus
  import opened Protocol
  import opened ProtocolProgress
  import opened ProtocolOutcome
  import Floyd
  import Turns

  // ---------------------------------------------------------------- amounts in the files

  /** How much of the product a list names. */
  ghost function Amount(s: seq<StockText>, n: string): int {
    if s == [] then 0 else (if s[0].name == n then s[0].amount else 0) + Amount(s[1..], n)
  }

  ghost function Everything(s: seq<StockText>): int {
    if s == [] then 0 else s[0].amount + Everything(s[1..])
  }

  /** How much of it the cities ask for. */
  ghost function Asked(cs: seq<CityText>, n: string): int {
    if cs == [] then 0 else Amount(cs[0].stocks, n) + Asked(cs[1..], n)
  }

  ghost function AllAsked(cs: seq<CityText>): int {
    if cs == [] then 0 else Everything(cs[0].stocks) + AllAsked(cs[1..])
  }

  /** How much of it the planes carry. */
  ghost function Carried(planes: seq<PlaneText>, n: string): int {
    if planes == [] then 0 else Amount(planes[0].stocks, n) + Carried(planes[1..], n)
  }

  ghost predicate Lists(s: seq<StockText>, n: string) {
    exists i :: 0 <= i < |s| && s[i].name == n
  }

  /** How much of it a city may take for something else: what its last entry asks for, unless it lists the product. */
  ghost function LostAt(s: seq<StockText>, n: string): int {
    if s == [] || Lists(s, n) then 0 else s[|s| - 1].amount
  }

  ghost function Lost(cs: seq<CityText>, n: string): int {
    if cs == [] then 0 else LostAt(cs[0].stocks, n) + Lost(cs[1..], n)
  }

  /** Of every product that is asked for the planes carry what is asked for and what may get lost. */
  ghost predicate AmpleFiles(cs: seq<CityText>, planes: seq<PlaneText>) {
    forall n: string :: Asked(cs, n) > 0 ==> Asked(cs, n) + Lost(cs, n) <= Carried(planes, n)
  }

  // ---------------------------------------------------------------- and in the first state

  lemma {:induction false} AmountsAgree(s: Stocks, text: seq<StockText>, names: seq<string>, q: int)
    requires Stands(s, text, names) && UniqueNames(names)
    ensures AmountOf(s, q) == if 0 <= q < |names| then Amount(text, names[q]) else 0
    ensures Total(s) == Everything(text)
    decreases |s|
  {
    if s != [] {
      AmountsAgree(s[1..], text[1..], names, q);
    }
  }

  lemma ExposedAgree(s: Stocks, text: seq<StockText>, names: seq<string>, q: nat)
    requires Stands(s, text, names) && UniqueNames(names) && q < |names|
    ensures ExposedAt(s, q) == LostAt(text, names[q])
  {
    var r := Find(s, q);
    if r < |s| {
      assert text[r].name == names[q];
    }
    if Lists(text, names[q]) {
      var i :| 0 <= i < |text| && text[i].name == names[q];
      assert s[i].product == q;
    }
  }

  lemma {:induction false} CitiesAgree(lists: seq<Stocks>, cs: seq<CityText>, names: seq<string>, q: int)
    requires |lists| == |cs| && (forall c | 0 <= c < |cs| :: Stands(lists[c], cs[c].stocks, names))
    requires UniqueNames(names)
    ensures Turns.Sum(lists, Turns.Only(q)) == if 0 <= q < |names| then Asked(cs, names[q]) else 0
    ensures 0 <= q < |names| ==> Exposed(lists, q) == Lost(cs, names[q])
    ensures Turns.Sum(lists, Turns.Everything) == AllAsked(cs)
    decreases |cs|
  {
    if cs != [] {
      AmountsAgree(lists[0], cs[0].stocks, names, q);
      if 0 <= q < |names| { ExposedAgree(lists[0], cs[0].stocks, names, q); }
      CitiesAgree(lists[1..], cs[1..], names, q);
    }
  }

  lemma {:induction false} LoadsAgree(lists: seq<Stocks>, planes: seq<PlaneText>, names: seq<string>, q: nat)
    requires |lists| == |planes| && (forall p | 0 <= p < |planes| :: Stands(lists[p], planes[p].stocks, names))
    requires UniqueNames(names) && q < |names|
    ensures Turns.Sum(lists, Turns.Only(q)) == Carried(planes, names[q])
    decreases |planes|
  {
    if planes != [] {
      AmountsAgree(lists[0], planes[0].stocks, names, q);
      LoadsAgree(lists[1..], planes[1..], names, q);
    }
  }

  /** Ample files describe a world with ample goods. */
  lemma AmpleFilesAreAmple(cs: seq<CityText>, planes: seq<PlaneText>, names: seq<string>, w: Turns.World)
    requires Describes(cs, planes, names, w) && UniqueNames(names) && AmpleFiles(cs, planes)
    ensures Ample(w) && Turns.Demand(w, Turns.Everything) == AllAsked(cs)
  {
    CitiesAgree(w.cities, cs, names, 0);
    forall q: int | Turns.Demand(w, Turns.Only(q)) > 0
      ensures Turns.Demand(w, Turns.Only(q)) + Exposed(w.cities, q) <= Turns.Supply(w, Turns.Only(q))
    {
      CitiesAgree(w.cities, cs, names, q);
      LoadsAgree(Turns.Loads(w.planes), planes, names, q);
    }
  }

  // ---------------------------------------------------------------- the outcome

  lemma {:induction false} ActiveAtMost(planes: seq<Turns.Plane>)
    ensures Runs.Active(planes) <= |planes|
    decreases |planes|
  {
    if planes != [] { ActiveAtMost(planes[1..]); }
  }

  lemma StartIsHeld(s: State, cities: seq<City>, airlines: seq<seq<Parked>>)
    requires StartsFrom(s, cities, airlines)
    ensures forall k | 0 <= k < |Concat(airlines)| :: Concat(airlines)[k].cityId >= 0
    ensures Held(s) == StartWorld(cities, Concat(airlines))
  {
  }

  lemma MetInAmounts(cities: seq<Stocks>)
    requires Turns.AllMet(cities)
    ensures forall c, i | 0 <= c < |cities| && 0 <= i < |cities[c]| :: cities[c][i].amount == 0
  {
    forall c, i | 0 <= c < |cities| && 0 <= i < |cities[c]| ensures cities[c][i].amount == 0 {
      assert Turns.CityMet(cities[c]);
    }
  }

  /** The turn limit leaves time for so many deliveries and retirements on routes no longer than far. */
  ghost predicate TimeFor(work: int, far: nat) {
    2 * (far + 1) * work <= 70000
  }

  lemma WorkFits(far: nat, work: int, bound: int)
    requires work <= bound && TimeFor(bound, far)
    ensures TimeFor(work, far)
  {
  }

  lemma LoadsAreDistinct(cs: seq<CityText>, fleets: seq<seq<PlaneText>>, names: seq<string>, w: Turns.World)
    requires Describes(cs, Concat(fleets), names, w) && UniqueNames(names)
    requires forall a, k | 0 <= a < |fleets| && 0 <= k < |fleets[a]| :: Distinct(fleets[a][k].stocks)
    ensures UniqueLoads(w.planes)
  {
    forall p | 0 <= p < |w.planes| ensures UniqueProducts(w.planes[p].load) {
      var a, k := WhichPlane(fleets, p);
      ListMeaning(w.planes[p].load, Concat(fleets)[p].stocks, names);
    }
  }

  /** No city asks for anything, unless a signal came. */
  ghost predicate Satisfied(s: State) {
    !s.stop ==> forall c, i | 0 <= c < |s.cities| && 0 <= i < |s.cities[c]| :: s.cities[c][i].amount == 0
  }

  /** A first state with ample goods in loads without repetition, and no more to do than so many deliveries and
      retirements. */
  ghost predicate AmpleStart(cities: seq<City>, airlines: seq<seq<Parked>>, bound: int) {
    && (forall k | 0 <= k < |Concat(airlines)| :: Concat(airlines)[k].cityId >= 0)
    && var w := StartWorld(cities, Concat(airlines)); Ample(w) && UniqueLoads(w.planes) && Work(w) <= bound
  }

  /** A schedule of what was read. */
  ghost predicate ScheduleOf(cities: seq<City>, airlines: seq<seq<Parked>>, cfg: Config, es: seq<State>) {
    Execution(cfg, es) && StartsFrom(es[0], cities, airlines)
  }

  lemma AmpleCompletes(cfg: Config, es: seq<State>, cities: seq<City>, airlines: seq<seq<Parked>>, bound: int)
    returns (fs: seq<State>)
    requires ScheduleOf(cities, airlines, cfg, es) && AmpleStart(cities, airlines, bound) && TimeFor(bound, cfg.far)
    ensures ScheduleOf(cities, airlines, cfg, fs) && es <= fs && Final(fs[|fs| - 1]) && Satisfied(fs[|fs| - 1])
  {
    var w := StartWorld(cities, Concat(airlines));
    StartIsHeld(es[0], cities, airlines);
    WorkFits(cfg.far, Work(w), bound);
    fs := EveryExecutionCompletes(cfg, es);
    assert fs[0] == es[0];
    if !fs[|fs| - 1].stop {
      MetInAmounts(fs[|fs| - 1].cities);
    }
  }

  /** Printed files that were read, that repeat no product in a load and whose goods are ample. */
  ghost predicate AmpleConfiguration(write: Writing, f: MapFile, fleets: seq<seq<PlaneText>>, cities: seq<City>,
                                     airlines: seq<seq<Parked>>, matrix: seq<seq<int>>, names: seq<string>)
  {
    && WellFormed(f) && Readable(f) && Printable(f.cities, fleets)
    && ReadAs(write, f, fleets, cities, airlines, matrix, names)
    && (forall a, k | 0 <= a < |fleets| && 0 <= k < |fleets[a]| :: Distinct(fleets[a][k].stocks))
    && AmpleFiles(f.cities, Concat(fleets))
  }

  /** Ample files without repetition make a world with ample goods, and with no more to do than the files say. */
  lemma FilesAreAmple(write: Writing, f: MapFile, fleets: seq<seq<PlaneText>>, cities: seq<City>,
                      airlines: seq<seq<Parked>>, matrix: seq<seq<int>>, names: seq<string>)
    requires AmpleConfiguration(write, f, fleets, cities, airlines, matrix, names)
    ensures AmpleStart(cities, airlines, AllAsked(f.cities) + |Concat(fleets)|)
  {
    ReadDescribes(write, f, fleets, cities, airlines, matrix, names);
    var w := StartWorld(cities, Concat(airlines));
    AmpleFilesAreAmple(f.cities, Concat(fleets), names, w);
    LoadsAreDistinct(f.cities, fleets, names, w);
    ActiveAtMost(w.planes);
  }

  /** With ample goods in the files, no list repeating a product, and no more to do than the turn limit leaves time for,
      every schedule that starts from the files goes on to a final state, and there, unless a signal came, no city asks
      for anything any more. */
  lemma FilesAreSatisfied(write: Writing, f: MapFile, fleets: seq<seq<PlaneText>>, cities: seq<City>,
                          airlines: seq<seq<Parked>>, matrix: seq<seq<int>>, names: seq<string>, cfg: Config,
                          es: seq<State>, work: int)
    returns (fs: seq<State>)
    requires AmpleConfiguration(write, f, fleets, cities, airlines, matrix, names)
    requires ScheduleOf(cities, airlines, cfg, es)
    requires work == AllAsked(f.cities) + |Concat(fleets)| && TimeFor(work, cfg.far)
    ensures ScheduleOf(cities, airlines, cfg, fs) && es <= fs && Final(fs[|fs| - 1]) && Satisfied(fs[|fs| - 1])
  {
    FilesAreAmple(write, f, fleets, cities, airlines, matrix, names);
    fs := AmpleCompletes(cfg, es, cities, airlines, work);
  }
}
