/** How every interleaved execution comes out: it ends, cleanly, and with what the simulation says. */
module ProtocolOutcome {
  import opened Delivery
  import opened Turns
  import opened Runs
  import opened Surplus
  import opened Protocol
  import opened ProtocolInvariant
  import opened ProtocolControl
  import opened ListenerControl
  import opened ProtocolRefinement
  import opened ProtocolProgress
  import Floyd
  import ProtocolStop
  import ProtocolTermination

  // ---------------------------------------------------------------- why the map stops

  /** A map that has decided to stop was told to, or has no reason to go on. */
  ghost predicate StopReason(s: State) {
    ModeOf(s.mapPc) == Closing ==> s.stop || !Continues(s.cities, s.turn)
  }

  lemma MapKeepsReason(cfg: Config, s: State, s': State)
    requires Shape(cfg, s) && (RaiseStop(s, s') || MapStep(cfg, s, s')) && StopReason(s)
    ensures StopReason(s')
  {
  }

  lemma {:induction false} ReasonHolds(cfg: Config, es: seq<State>, i: nat)
    requires Execution(cfg, es) && i < |es|
    ensures StopReason(es[i])
  {
    if i > 0 {
      ReasonHolds(cfg, es, i - 1);
      Reachable(cfg, es, i - 1);
      StepKeepsReason(cfg, es, i - 1);
    }
  }

  lemma StepKeepsReason(cfg: Config, es: seq<State>, i: nat)
    requires Execution(cfg, es) && i + 1 < |es| && Shape(cfg, es[i]) && StopReason(es[i])
    ensures StopReason(es[i + 1])
  {
    assert StepAt(cfg, es, i);
    var s, s' := es[i], es[i + 1];
    if RaiseStop(s, s') || MapStep(cfg, s, s') {
      MapKeepsReason(cfg, s, s');
    } else if exists a: nat :: a < |s.airlines| && ListenerStep(cfg, s, s', a) {
      var a: nat :| a < |s.airlines| && ListenerStep(cfg, s, s', a);
      ListenerStepEffect(cfg, s, s', a);
      ProtocolStop.ListenerKeepsStop(cfg, s, s', a);
    } else {
      var p: nat :| p < |s.planes| && PlaneStep(cfg, s, s', p);
      PlaneStepEffect(cfg, s, s', p);
      ProtocolTermination.PlaneKeepsMap(cfg, s, s', p);
    }
  }

  // ---------------------------------------------------------------- what it leaves behind

  /** What cities and planes hold. */
  ghost function Held(s: State): World {
    World(s.cities, Bodies(s.planes))
  }

  /** Once the map has stopped, cities and loads are those of the last turn boundary. */
  lemma HeldAtTheEnd(cfg: Config, s: State)
    requires Inv(cfg, s) && ModeOf(s.mapPc) == Closing
    ensures |s.past.worlds| == |s.past.orders| + 1 && s.turn == |s.past.orders|
    ensures var w := s.past.worlds[|s.past.orders|];
            w.cities == s.cities && Loads(w.planes) == Loads(Held(s).planes)
  {
    assert HistoryInv(cfg, s);
    var w := s.past.worlds[|s.past.orders|];
    assert w == s.past.now;
    forall p: nat | p < |s.planes| ensures Held(s).planes[p].load == w.planes[p].load {
      assert BodyInv(cfg, s, p);
    }
  }

  lemma SameLoads(v: World, w: World)
    requires v.cities == w.cities && Loads(v.planes) == Loads(w.planes)
    ensures EnoughSupply(v) <==> EnoughSupply(w)
    ensures NoneOverlookedIn(v) <==> NoneOverlookedIn(w)
  {
    assert |Loads(v.planes)| == |v.planes| && |Loads(w.planes)| == |w.planes|;
    assert forall p | 0 <= p < |v.planes| :: Loads(v.planes)[p] == v.planes[p].load;
    assert forall p | 0 <= p < |w.planes| :: Loads(w.planes)[p] == w.planes[p].load;
    forall q: int ensures Demand(v, Only(q)) == Demand(w, Only(q)) && Supply(v, Only(q)) == Supply(w, Only(q)) {
    }
  }

  lemma RecordSettles(cfg: Config, ws: seq<World>, os: seq<seq<nat>>, start: World, end: World)
    requires GoodRun(cfg.dist, ws, os, cfg.far) && ws[0] == start && Initial(start)
    requires 2 * (cfg.far + 1) * Work(start) <= MAX_TURNS
    requires ws[|os|].cities == end.cities && Loads(ws[|os|].planes) == Loads(end.planes)
    requires !Continues(end.cities, |os|)
    ensures AllMet(end.cities) <==> EnoughSupply(end) && NoneOverlookedIn(end)
    ensures (ExactRun(ws, os) || WellListed(start.cities, start.planes)) && UniqueLoads(start.planes)
            ==> (AllMet(end.cities) <==> EnoughSupply(start))
  {
    StopsSatisfied(cfg.dist, ws, os, cfg.far);
    SameLoads(ws[|os|], end);
    if WellListed(start.cities, start.planes) {
      WellListedRunIsExact(cfg.dist, ws, os, cfg.far);
    }
  }

  lemma AmpleRecord(cfg: Config, ws: seq<World>, os: seq<seq<nat>>, start: World, end: World)
    requires GoodRun(cfg.dist, ws, os, cfg.far) && ws[0] == start && Initial(start)
    requires 2 * (cfg.far + 1) * Work(start) <= MAX_TURNS
    requires ws[|os|].cities == end.cities && !Continues(end.cities, |os|)
    requires Ample(start) && UniqueLoads(start.planes)
    ensures AllMet(end.cities)
  {
    AmpleStops(cfg.dist, ws, os, cfg.far);
  }

  /** When the map of any execution has stopped by itself, with the bound below the turn limit, every city is
      satisfied if and only if what the planes hold covers what the cities still ask for, and none of it is
      overlooked.  Where loads do not repeat products this is decided at the start: goods that are ample satisfy
      every city, and if all unloads were exact, or the map is well listed, enough of every product decides it. */
  lemma StoppedSatisfied(cfg: Config, es: seq<State>, i: nat)
    requires Execution(cfg, es) && i < |es| && ModeOf(es[i].mapPc) == Closing && !es[i].stop
    requires 2 * (cfg.far + 1) * Work(Held(es[0])) <= MAX_TURNS
    ensures AllMet(es[i].cities) <==> EnoughSupply(Held(es[i])) && NoneOverlookedIn(Held(es[i]))
    ensures |es[i].past.worlds| == |es[i].past.orders| + 1
    ensures (ExactRun(es[i].past.worlds, es[i].past.orders) || WellListed(Held(es[0]).cities, Held(es[0]).planes))
            && UniqueLoads(Held(es[0]).planes)
            ==> (AllMet(es[i].cities) <==> EnoughSupply(Held(es[0])))
    ensures Ample(Held(es[0])) && UniqueLoads(Held(es[0]).planes) ==> AllMet(es[i].cities)
  {
    Refinement(cfg, es, i);
    Reachable(cfg, es, i);
    ReasonHolds(cfg, es, i);
    HeldAtTheEnd(cfg, es[i]);
    RecordSettles(cfg, es[i].past.worlds, es[i].past.orders, Held(es[0]), Held(es[i]));
    if Ample(Held(es[0])) && UniqueLoads(Held(es[0]).planes) {
      AmpleRecord(cfg, es[i].past.worlds, es[i].past.orders, Held(es[0]), Held(es[i]));
    }
  }

  // ---------------------------------------------------------------- how long it can take

  lemma {:induction false} PlanesWorkBound(planes: seq<PlaneThread>)
    requires forall p | 0 <= p < |planes| :: |planes[p].mail| <= 1
    ensures ProtocolTermination.PlanesWork(planes) <= 19 * |planes|
    decreases |planes|
  {
    if planes != [] {
      PlanesWorkBound(planes[1..]);
      MailBound(planes[0].mail);
    }
  }

  lemma MailBound(q: seq<ToPlane>)
    requires |q| <= 1
    ensures ProtocolTermination.MailsWork(q) <= 10
  {
    if q != [] {
      assert q[1..] == [];
    }
  }

  lemma {:induction false} OnlyRepliesWork(q: seq<ToAirline>, n: nat)
    requires OnlyReplies(q)
    ensures ProtocolTermination.RepliesWork(q, n) == 3 * |q|
    decreases |q|
  {
    if q != [] {
      OnlyRepliesWork(q[1..], n);
    }
  }

  lemma {:induction false} RequestsWorkBound(q: seq<ToMap>)
    ensures ProtocolTermination.RequestsWork(q) <= 5 * |q|
    decreases |q|
  {
    if q != [] {
      RequestsWorkBound(q[1..]);
    }
  }

  /** The planes first, then the airlines. */
  function KeyNumber(k: Key, n: nat): nat {
    match k
    case OfPlane(p) => p
    case OfAirline(a) => n + a
    case OfMap => 0
  }

  /** Messages about different planes and airlines are no more than there are planes and airlines. */
  lemma DistinctKeysBound(ks: seq<Key>, n: nat, m: nat)
    requires ProtocolInvariant.Distinct(ks)
    requires forall i | 0 <= i < |ks| ::
               (ks[i].OfPlane? && ks[i].plane < n) || (ks[i].OfAirline? && ks[i].airline < m)
    ensures |ks| <= n + m
  {
    var numbers: seq<nat> := seq(|ks|, i requires 0 <= i < |ks| => KeyNumber(ks[i], n));
    assert Floyd.NoRepeats(numbers);
    Floyd.DistinctIsShort(numbers, n + m);
  }

  lemma InboxBound(cfg: Config, s: State)
    requires Inv(cfg, s)
    ensures |s.inbox| <= |s.planes| + |s.airlines|
  {
    assert InboxInv(cfg, s);
    forall i | 0 <= i < |s.inbox|
      ensures var k := MapKeys(s.inbox)[i];
              (k.OfPlane? && k.plane < |s.planes|) || (k.OfAirline? && k.airline < |s.airlines|)
    {
      assert MapMessageOk(s, s.inbox[i]);
    }
    DistinctKeysBound(MapKeys(s.inbox), |s.planes|, |s.airlines|);
  }

  lemma RepliesBound(cfg: Config, s: State, a: nat)
    requires Inv(cfg, s) && a < |s.airlines| && OnlyReplies(s.airlines[a].inbox)
    ensures |s.airlines[a].inbox| <= |s.planes|
  {
    assert RepliesInv(cfg, s, a);
    var q := s.airlines[a].inbox;
    forall i | 0 <= i < |q| ensures ReplyKeys(q)[i].OfPlane? && ReplyKeys(q)[i].plane < |s.planes| {
      assert ReplyOk(cfg, s, a, q[i]);
    }
    DistinctKeysBound(ReplyKeys(q), |s.planes|, 0);
  }

  lemma AirlineQueueBound(cfg: Config, s: State, a: nat)
    requires Inv(cfg, s) && a < |s.airlines|
    ensures ProtocolTermination.RepliesWork(s.airlines[a].inbox, |s.planes|) <= 15 * |s.planes| + 5
  {
    var q, n := s.airlines[a].inbox, |s.planes|;
    assert AirlineControl(cfg, s, a);
    if OnlyReplies(q) {
      OnlyRepliesWork(q, n);
      RepliesBound(cfg, s, a);
    } else {
      assert |q| == 1 && q[1..] == [];
      assert ProtocolTermination.RepliesWork(q, n)
             == ProtocolTermination.ReplyWork(q[0], n) + ProtocolTermination.RepliesWork(q[1..], n);
    }
  }

  lemma ListenerBound(pc: ListenerPc, hi: nat, n: nat)
    requires hi <= n
    ensures ProtocolTermination.ListenerWork(pc, hi, n) <= 12 * n + 4
  {
  }

  lemma {:induction false} AirlinesWorkBound(airlines: seq<Airline>, first: seq<nat>, n: nat)
    requires |first| == |airlines| + 1 && forall a | 0 <= a < |first| :: first[a] <= n
    requires forall a | 0 <= a < |airlines| :: ProtocolTermination.RepliesWork(airlines[a].inbox, n) <= 15 * n + 5
    ensures ProtocolTermination.AirlinesWork(airlines, first, n) <= |airlines| * (27 * n + 9)
    decreases |airlines|
  {
    if airlines != [] {
      AirlinesWorkBound(airlines[1..], first[1..], n);
      ListenerBound(airlines[0].pc, first[1], n);
      Floyd.OneMore(|airlines|, 27 * n + 9);
    }
  }

  /** The most work there can be with n planes and m airlines. */
  function MostWork(n: nat, m: nat): nat {
    19 * n + m * (27 * n + 9) + 5 * (n + m) + 5
  }

  lemma MailIsShort(cfg: Config, s: State)
    requires Inv(cfg, s)
    ensures forall p: nat | p < |s.planes| :: |s.planes[p].mail| <= 1
  {
    forall p: nat | p < |s.planes| ensures |s.planes[p].mail| <= 1 {
      assert PlaneInv(cfg, s, p);
    }
  }

  lemma AirlineQueuesBound(cfg: Config, s: State)
    requires Inv(cfg, s)
    ensures forall a: nat | a < |s.airlines| ::
              ProtocolTermination.RepliesWork(s.airlines[a].inbox, |s.planes|) <= 15 * |s.planes| + 5
  {
    forall a: nat | a < |s.airlines|
      ensures ProtocolTermination.RepliesWork(s.airlines[a].inbox, |s.planes|) <= 15 * |s.planes| + 5
    {
      AirlineQueueBound(cfg, s, a);
    }
  }

  lemma WorkBound(cfg: Config, s: State)
    requires Inv(cfg, s)
    ensures ProtocolTermination.Work(cfg, s) <= MostWork(|s.planes|, |s.airlines|)
  {
    MailIsShort(cfg, s);
    PlanesWorkBound(s.planes);
    AirlineQueuesBound(cfg, s);
    AirlinesWorkBound(s.airlines, cfg.first, |s.planes|);
    RequestsWorkBound(s.inbox);
    InboxBound(cfg, s);
  }

  /** The measure as one number: each component counts less than one of the component before it. */
  function Rank(x: ProtocolTermination.Measure, n: nat, m: nat): nat {
    ((x.turns * 7 + x.stages) * (m + 1) + x.togo) * (MostWork(n, m) + 1) + x.work
  }

  lemma Digits(high: nat, low: nat, high': nat, low': nat, base: nat)
    requires low < base && low' < base && (high < high' || (high == high' && low < low'))
    ensures high * base + low < high' * base + low'
  {
    if high < high' {
      Floyd.MulMonotone(high + 1, high', base);
    }
  }

  lemma LowerRank(x: ProtocolTermination.Measure, y: ProtocolTermination.Measure, n: nat, m: nat)
    requires ProtocolTermination.Lower(x, y)
    requires x.stages < 7 && x.togo <= m && x.work <= MostWork(n, m)
    requires y.stages < 7 && y.togo <= m && y.work <= MostWork(n, m)
    ensures Rank(x, n, m) < Rank(y, n, m)
  {
    LowerDigits(x.turns * 7 + x.stages, x.togo, x.work, y.turns * 7 + y.stages, y.togo, y.work,
                m + 1, MostWork(n, m) + 1);
  }

  lemma LowerDigits(a: nat, b: nat, c: nat, a': nat, b': nat, c': nat, p: nat, q: nat)
    requires b < p && b' < p && c < q && c' < q
    requires a < a' || (a == a' && (b < b' || (b == b' && c < c')))
    ensures (a * p + b) * q + c < (a' * p + b') * q + c'
  {
    if a == a' && b == b' {
    } else {
      Digits(a, b, a', b', p);
      Digits(a * p + b, c, a' * p + b', c', q);
    }
  }

  lemma MeasureBounds(cfg: Config, s: State)
    requires Inv(cfg, s)
    ensures var x := ProtocolTermination.MeasureOf(cfg, s);
            x.turns <= MAX_TURNS && x.stages < 7 && x.togo <= |s.airlines| &&
            x.work <= MostWork(|s.planes|, |s.airlines|)
  {
    WorkBound(cfg, s);
  }

  ghost function RankOf(cfg: Config, s: State): nat
    requires Shape(cfg, s)
  {
    Rank(ProtocolTermination.MeasureOf(cfg, s), |cfg.owner|, cfg.Airlines())
  }

  lemma RankStep(cfg: Config, s: State, s': State)
    requires Inv(cfg, s) && Inv(cfg, s')
    requires ProtocolTermination.Lower(ProtocolTermination.MeasureOf(cfg, s'), ProtocolTermination.MeasureOf(cfg, s))
    ensures RankOf(cfg, s') < RankOf(cfg, s)
  {
    MeasureBounds(cfg, s);
    MeasureBounds(cfg, s');
    LowerRank(ProtocolTermination.MeasureOf(cfg, s'), ProtocolTermination.MeasureOf(cfg, s), |cfg.owner|,
              cfg.Airlines());
  }

  lemma RankFallsOnce(cfg: Config, es: seq<State>, i: nat)
    requires Execution(cfg, es) && i + 1 < |es|
    ensures Shape(cfg, es[i]) && Shape(cfg, es[i + 1]) && RankOf(cfg, es[i + 1]) < RankOf(cfg, es[i])
  {
    Reachable(cfg, es, i);
    Reachable(cfg, es, i + 1);
    ProtocolTermination.EveryStepLowers(cfg, es, i);
    RankStep(cfg, es[i], es[i + 1]);
  }

  lemma {:induction false} RankFalls(cfg: Config, es: seq<State>, i: nat)
    requires Execution(cfg, es) && i < |es|
    ensures Shape(cfg, es[0]) && Shape(cfg, es[i]) && RankOf(cfg, es[i]) + i <= RankOf(cfg, es[0])
  {
    if i > 0 {
      RankFalls(cfg, es, i - 1);
      RankFallsOnce(cfg, es, i - 1);
    }
  }

  /** More states than this no execution with n planes and m airlines has. */
  function LongestExecution(n: nat, m: nat): nat {
    Rank(ProtocolTermination.Measure(MAX_TURNS, 6, m, MostWork(n, m)), n, m) + 1
  }

  lemma RankIsMonotone(x: ProtocolTermination.Measure, n: nat, m: nat)
    requires x.turns <= MAX_TURNS && x.stages < 7 && x.togo <= m && x.work <= MostWork(n, m)
    ensures Rank(x, n, m) < LongestExecution(n, m)
  {
    var most := ProtocolTermination.Measure(MAX_TURNS, 6, m, MostWork(n, m));
    if x != most {
      LowerRank(x, most, n, m);
    }
  }

  /** No execution is longer than the measure allows. */
  lemma ExecutionsAreBounded(cfg: Config, es: seq<State>)
    requires Execution(cfg, es)
    ensures cfg.Valid() && |es| <= LongestExecution(|cfg.owner|, cfg.Airlines())
  {
    RankFalls(cfg, es, |es| - 1);
    Reachable(cfg, es, 0);
    MeasureBounds(cfg, es[0]);
    RankIsMonotone(ProtocolTermination.MeasureOf(cfg, es[0]), |es[0].planes|, |es[0].airlines|);
  }

  // ---------------------------------------------------------------- every execution completes

  lemma Extends(cfg: Config, es: seq<State>) returns (fs: seq<State>)
    requires Execution(cfg, es) && !Final(es[|es| - 1])
    ensures Execution(cfg, fs) && |fs| == |es| + 1 && es <= fs
  {
    NeverStuck(cfg, es, |es| - 1);
    var s := es[|es| - 1];
    var s' :| ThreadStep(cfg, s, s');
    fs := es + [s'];
    forall i: nat | i + 1 < |fs| ensures StepAt(cfg, fs, i) {
      if i + 1 < |es| {
        assert StepAt(cfg, es, i);
        assert fs[i] == es[i] && fs[i + 1] == es[i + 1];
      } else {
        assert fs[i] == s && fs[i + 1] == s' && Next(cfg, s, s');
      }
    }
  }

  /** Every execution, however far it has come, goes on to a final state, in which every queue is empty and every
      thread gone; and if nobody asked for an end and loads do not repeat products, every city is satisfied there if
      the goods were ample at the start, and on a well listed map exactly if there was enough of every product. */
  lemma {:induction false} EveryExecutionCompletes(cfg: Config, es: seq<State>) returns (fs: seq<State>)
    requires Execution(cfg, es)
    ensures Execution(cfg, fs) && es <= fs && Final(fs[|fs| - 1])
    ensures cfg.Valid() && |fs| <= LongestExecution(|cfg.owner|, cfg.Airlines())
    ensures var start, end := Held(fs[0]), fs[|fs| - 1];
            !end.stop && 2 * (cfg.far + 1) * Work(start) <= MAX_TURNS && UniqueLoads(start.planes) ==>
              && (Ample(start) ==> AllMet(end.cities))
              && (WellListed(start.cities, start.planes) ==> (AllMet(end.cities) <==> EnoughSupply(start)))
    decreases LongestExecution(|cfg.owner|, cfg.Airlines()) - |es|
  {
    ExecutionsAreBounded(cfg, es);
    if Final(es[|es| - 1]) {
      fs := es;
      if !fs[|fs| - 1].stop && 2 * (cfg.far + 1) * Work(Held(fs[0])) <= MAX_TURNS {
        StoppedSatisfied(cfg, fs, |fs| - 1);
      }
    } else {
      var longer := Extends(cfg, es);
      ExecutionsAreBounded(cfg, longer);
      fs := EveryExecutionCompletes(cfg, longer);
    }
  }
}
