/**
 The interleaved system refines the turn-by-turn simulation, whatever the schedule, and so inherits its theorems.
 */
module ProtocolRefinement {
  import opened Delivery
  import opened Turns
  import opened Runs
  import opened Protocol
  import opened ProtocolInvariant
  import opened ProtocolControl
  import opened ListenerControl
  import opened MapControl
  import opened ProtocolTraffic
  import opened ProtocolBooks

  // ---------------------------------------------------------------- the invariant is inductive

  lemma MapStepKeeps(cfg: Config, s: State, s': State)
    requires Inv(cfg, s) && (RaiseStop(s, s') || MapStep(cfg, s, s'))
    ensures Inv(cfg, s')
  {
    MapNeverRejects(cfg, s, s');
    if RaiseStop(s, s') || MapStops(s, s') || MapStarts(s, s') {
      MapStopsControl(cfg, s, s'); QuietMap(cfg, s, s');
      if MapStops(s, s') { MapStopsBooks(cfg, s, s'); }
      else if MapStarts(s, s') { MapStartsBooks(cfg, s, s'); }
      else { MapKeepsBooks(cfg, s, s'); }
    } else if MapSends(cfg, s, s') {
      MapSendsControl(cfg, s, s'); MapSendsTraffic(cfg, s, s'); MapKeepsBooks(cfg, s, s');
    } else if MapHasSent(s, s') {
      MapHasSentControl(cfg, s, s'); QuietMap(cfg, s, s'); MapKeepsBooks(cfg, s, s');
    } else if MapCountsReport(cfg, s, s') {
      MapCountsReportControl(cfg, s, s'); MapCountsReportTraffic(cfg, s, s'); MapCountsReportBooks(cfg, s, s');
    } else if MapServes(cfg, s, s') {
      MapTakesControl(cfg, s, s', []); MapServesTraffic(cfg, s, s'); MapServesBooks(cfg, s, s');
    } else if exists l :: MapAnswers(cfg, s, s', l) {
      var l :| MapAnswers(cfg, s, s', l);
      MapTakesControl(cfg, s, s', l); MapAnswersTraffic(cfg, s, s', l); MapAnswersBooks(cfg, s, s', l);
    } else if MapReplies(cfg, s, s') {
      MapRepliesControl(cfg, s, s'); MapRepliesTraffic(cfg, s, s'); MapKeepsBooks(cfg, s, s');
    } else if MapContinues(s, s') {
      MapMovesOnControl(cfg, s, s'); QuietMap(cfg, s, s'); MapContinuesBooks(cfg, s, s');
    } else {
      MapMovesOnControl(cfg, s, s'); MapEndsTurnTraffic(cfg, s, s'); MapEndsTurnBooks(cfg, s, s');
    }
  }

  lemma ListenerStepControl(cfg: Config, s: State, s': State, a: nat)
    requires Inv(cfg, s) && a < |s.airlines| && ListenerStep(cfg, s, s', a)
    ensures Shape(cfg, s') && ControlInv(cfg, s')
  {
    if ListenerHears(s, s', a) { ListenerHearsControl(cfg, s, s', a); }
    else if ListenerHearsEnd(cfg, s, s', a) { ListenerHearsEndControl(cfg, s, s', a); }
    else if ListenerLocks(cfg, s, s', a) { ListenerLocksControl(cfg, s, s', a); }
    else if ListenerCounts(cfg, s, s', a) { ListenerCountsControl(cfg, s, s', a); }
    else if ListenerCounted(cfg, s, s', a) { ListenerCountedControl(cfg, s, s', a); }
    else if ListenerReports(cfg, s, s', a) { ListenerReportsControl(cfg, s, s', a); }
    else if ListenerBroadcasts(cfg, s, s', a) { ListenerBroadcastsControl(cfg, s, s', a); }
    else if ListenerBroadcasted(cfg, s, s', a) { ListenerBroadcastedControl(cfg, s, s', a); }
    else if ListenerUnlocks(s, s', a) { ListenerUnlocksControl(cfg, s, s', a); }
    else if ListenerForwards(cfg, s, s', a) { ListenerForwardsControl(cfg, s, s', a); }
    else if ListenerEnds(cfg, s, s', a) { ListenerEndsControl(cfg, s, s', a); }
    else { ListenerFinishesControl(cfg, s, s', a); }
  }

  lemma ListenerStepTraffic(cfg: Config, s: State, s': State, a: nat)
    requires Inv(cfg, s) && a < |s.airlines| && ListenerStep(cfg, s, s', a)
    ensures Shape(cfg, s') && Traffic(cfg, s')
  {
    if ListenerHears(s, s', a) {
      if s.airlines[a].inbox[0].Control? { ListenerHearsSignalTraffic(cfg, s, s', a); }
      else { ListenerHearsReplyTraffic(cfg, s, s', a); }
    }
    else if ListenerHearsEnd(cfg, s, s', a) { ListenerHearsSignalTraffic(cfg, s, s', a); }
    else if ListenerReports(cfg, s, s', a) { ListenerReportsTraffic(cfg, s, s', a); }
    else if ListenerBroadcasts(cfg, s, s', a) { QuietBroadcast(cfg, s, s', a); }
    else if ListenerForwards(cfg, s, s', a) { ListenerForwardsTraffic(cfg, s, s', a); }
    else if ListenerEnds(cfg, s, s', a) { QuietEnd(cfg, s, s', a); }
    else if ListenerLocks(cfg, s, s', a) || ListenerCounts(cfg, s, s', a) { QuietListener(cfg, s, s', a); }
    else if ListenerCounted(cfg, s, s', a) { QuietListener(cfg, s, s', a); }
    else { QuietUnlock(cfg, s, s', a); }
  }

  /** A listener changes no plane but its mailbox, and nothing of the map but the queue of reports. */
  lemma ListenerStepEffect(cfg: Config, s: State, s': State, a: nat)
    requires Shape(cfg, s) && a < |s.airlines| && ListenerStep(cfg, s, s', a)
    ensures SameHistory(s, s') && s'.mapPc == s.mapPc
    ensures forall q | 0 <= q < |s.planes| :: s'.planes[q].pc == s.planes[q].pc && s'.planes[q].body == s.planes[q].body
    ensures s'.inbox == s.inbox || s'.inbox == s.inbox + [Report(s.airlines[a].stage, a)]
  {
    if ListenerBroadcasts(cfg, s, s', a) || ListenerEnds(cfg, s, s', a) || ListenerForwards(cfg, s, s', a) {
      ListenerPushEffect(cfg, s, s', a);
    } else {
      ListenerAloneEffect(cfg, s, s', a);
    }
  }

  lemma ListenerPushEffect(cfg: Config, s: State, s': State, a: nat)
    requires Shape(cfg, s) && a < |s.airlines|
    requires ListenerBroadcasts(cfg, s, s', a) || ListenerEnds(cfg, s, s', a) || ListenerForwards(cfg, s, s', a)
    ensures s'.past == s.past && s'.mapPc == s.mapPc && s'.cities == s.cities && s'.turn == s.turn &&
            s'.inbox == s.inbox
    ensures |s'.planes| == |s.planes|
    ensures forall q | 0 <= q < |s.planes| :: s'.planes[q].pc == s.planes[q].pc && s'.planes[q].body == s.planes[q].body
  {
  }

  lemma ListenerAloneEffect(cfg: Config, s: State, s': State, a: nat)
    requires Shape(cfg, s) && a < |s.airlines| && ListenerStep(cfg, s, s', a)
    requires !ListenerBroadcasts(cfg, s, s', a) && !ListenerEnds(cfg, s, s', a) && !ListenerForwards(cfg, s, s', a)
    ensures SameHistory(s, s') && s'.mapPc == s.mapPc && s'.planes == s.planes
    ensures s'.inbox == s.inbox || s'.inbox == s.inbox + [Report(s.airlines[a].stage, a)]
  {
    if ListenerHears(s, s', a) || ListenerHearsEnd(cfg, s, s', a) {
      ListenerHearsAlone(cfg, s, s', a);
    } else if ListenerReports(cfg, s, s', a) {
    } else {
      ListenerWorksAlone(cfg, s, s', a);
    }
  }

  lemma ListenerHearsAlone(cfg: Config, s: State, s': State, a: nat)
    requires Shape(cfg, s) && a < |s.airlines| && (ListenerHears(s, s', a) || ListenerHearsEnd(cfg, s, s', a))
    ensures SameHistory(s, s') && s'.mapPc == s.mapPc && s'.planes == s.planes && s'.inbox == s.inbox
  {
  }

  lemma ListenerWorksAlone(cfg: Config, s: State, s': State, a: nat)
    requires Shape(cfg, s) && a < |s.airlines|
    requires || ListenerLocks(cfg, s, s', a) || ListenerCounts(cfg, s, s', a) || ListenerCounted(cfg, s, s', a)
             || ListenerBroadcasted(cfg, s, s', a) || ListenerUnlocks(s, s', a) || ListenerEnded(cfg, s, s', a)
             || ListenerJoins(cfg, s, s', a)
    ensures SameHistory(s, s') && s'.mapPc == s.mapPc && s'.planes == s.planes && s'.inbox == s.inbox
  {
  }

  lemma ListenerStepKeeps(cfg: Config, s: State, s': State, a: nat)
    requires Inv(cfg, s) && a < |s.airlines| && ListenerStep(cfg, s, s', a)
    ensures Inv(cfg, s')
  {
    ListenerStepControl(cfg, s, s', a);
    ListenerStepTraffic(cfg, s, s', a);
    ListenerStepEffect(cfg, s, s', a);
    ListenerBooks(cfg, s, s', a);
  }

  lemma PlaneStepKeeps(cfg: Config, s: State, s': State, p: nat)
    requires Inv(cfg, s) && p < |s.planes| && PlaneStep(cfg, s, s', p)
    ensures Inv(cfg, s')
  {
    PlaneNeverFails(cfg, s, s', p);
    if PlaneSteps(s, s', p) {
      PlaneStepsControl(cfg, s, s', p); QuietPlane(cfg, s, s', p); PlaneStepsBooks(cfg, s, s', p);
    } else if PlaneUnloads(cfg, s, s', p) {
      PlaneUnloadsControl(cfg, s, s', p); PlaneUnloadsTraffic(cfg, s, s', p); PlaneUnloadsBooks(cfg, s, s', p);
    } else if PlaneTakesStock(s, s', p) {
      PlaneTakesStockControl(cfg, s, s', p); PlaneReceivesTraffic(cfg, s, s', p); PlaneTakesStockBooks(cfg, s, s', p);
    } else if PlaneLocks(cfg, s, s', p) {
      PlaneLocksControl(cfg, s, s', p); QuietPlane(cfg, s, s', p); PlaneLocksBooks(cfg, s, s', p);
    } else if PlaneReports(cfg, s, s', p) {
      PlaneReportsControl(cfg, s, s', p); PlaneReportsTraffic(cfg, s, s', p); PlaneReportsBooks(cfg, s, s', p);
    } else if PlaneReleases(cfg, s, s', p) {
      PlaneReleasesControl(cfg, s, s', p); QuietPlane(cfg, s, s', p); PlaneReleasesBooks(cfg, s, s', p);
    } else if PlaneContinues(s, s', p) {
      PlaneContinuesControl(cfg, s, s', p); QuietPlane(cfg, s, s', p); PlaneContinuesBooks(cfg, s, s', p);
    } else if PlaneAsks(cfg, s, s', p) {
      PlaneAsksControl(cfg, s, s', p); PlaneUnloadsTraffic(cfg, s, s', p); PlaneAsksBooks(cfg, s, s', p);
    } else {
      PlaneChoosesControl(cfg, s, s', p); PlaneReceivesTraffic(cfg, s, s', p); PlaneChoosesBooks(cfg, s, s', p);
    }
  }

  /** Every step of every thread keeps the invariant. */
  lemma NextKeeps(cfg: Config, s: State, s': State)
    requires Inv(cfg, s) && Next(cfg, s, s')
    ensures Inv(cfg, s')
  {
    if RaiseStop(s, s') || MapStep(cfg, s, s') {
      MapStepKeeps(cfg, s, s');
    } else if exists a: nat :: a < |s.airlines| && ListenerStep(cfg, s, s', a) {
      var a: nat :| a < |s.airlines| && ListenerStep(cfg, s, s', a);
      ListenerStepKeeps(cfg, s, s', a);
    } else {
      var p: nat :| p < |s.planes| && PlaneStep(cfg, s, s', p);
      PlaneStepKeeps(cfg, s, s', p);
    }
  }

  lemma {:induction false} Reachable(cfg: Config, es: seq<State>, i: nat)
    requires Execution(cfg, es) && i < |es|
    ensures Inv(cfg, es[i])
  {
    if i == 0 {
      InitInv(cfg, es[0]);
    } else {
      Reachable(cfg, es, i - 1);
      StepKeeps(cfg, es, i);
    }
  }

  lemma StepKeeps(cfg: Config, es: seq<State>, i: nat)
    requires Execution(cfg, es) && 0 < i < |es| && Inv(cfg, es[i - 1])
    ensures Inv(cfg, es[i])
  {
    assert StepAt(cfg, es, i - 1);
    NextKeeps(cfg, es[i - 1], es[i]);
  }

  // ---------------------------------------------------------------- refinement

  lemma PlaneStepEffect(cfg: Config, s: State, s': State, p: nat)
    requires Shape(cfg, s) && p < |s.planes| && PlaneStep(cfg, s, s', p)
    ensures SameHistory(s, s')
  {
  }

  lemma MapStepEffect(cfg: Config, s: State, s': State)
    requires Shape(cfg, s) && (RaiseStop(s, s') || MapStep(cfg, s, s'))
    ensures MapEndsTurn(s, s') || (s'.past.worlds == s.past.worlds && s'.past.orders == s.past.orders)
    ensures s'.cities == s.cities || MapServes(cfg, s, s')
  {
  }

  /** Only the end of a turn adds to the record, and it adds what the threads hold at that moment. */
  lemma RecordGrows(cfg: Config, s: State, s': State)
    requires Inv(cfg, s) && Next(cfg, s, s')
    ensures s.past.worlds <= s'.past.worlds && s.past.orders <= s'.past.orders
    ensures s'.past.worlds == s.past.worlds
            || (MapEndsTurn(s, s') && s'.past.worlds == s.past.worlds + [World(s.cities, Bodies(s.planes))])
  {
    if RaiseStop(s, s') || MapStep(cfg, s, s') {
      MapStepEffect(cfg, s, s');
    } else if exists a: nat :: a < |s.airlines| && ListenerStep(cfg, s, s', a) {
      var a: nat :| a < |s.airlines| && ListenerStep(cfg, s, s', a);
      ListenerStepEffect(cfg, s, s', a);
    } else {
      var p: nat :| p < |s.planes| && PlaneStep(cfg, s, s', p);
      PlaneStepEffect(cfg, s, s', p);
    }
  }

  lemma {:induction false} RecordStarts(cfg: Config, es: seq<State>, i: nat)
    requires Execution(cfg, es) && i < |es|
    ensures [World(es[0].cities, Bodies(es[0].planes))] <= es[i].past.worlds
  {
    if i > 0 {
      RecordStarts(cfg, es, i - 1);
      RecordStays(cfg, es, i);
    }
  }

  lemma RecordStays(cfg: Config, es: seq<State>, i: nat)
    requires Execution(cfg, es) && 0 < i < |es|
    ensures es[i - 1].past.worlds <= es[i].past.worlds
  {
    Reachable(cfg, es, i - 1);
    assert StepAt(cfg, es, i - 1);
    RecordGrows(cfg, es[i - 1], es[i]);
  }

  /** Refinement: at any moment of any interleaved execution the turns completed so far form a run of the
      simulation from the initial state, in some order of service for each turn; and whenever the map stands
      between turns, its cities and the planes' own data are exactly the last state of that run. */
  lemma Refinement(cfg: Config, es: seq<State>, i: nat)
    requires Execution(cfg, es) && i < |es|
    ensures GoodRun(cfg.dist, es[i].past.worlds, es[i].past.orders, cfg.far)
    ensures es[i].past.worlds[0] == World(es[0].cities, Bodies(es[0].planes)) && Initial(es[i].past.worlds[0])
    ensures es[i].mapPc == Deciding ==>
              && es[i].turn == |es[i].past.orders|
              && World(es[i].cities, Bodies(es[i].planes)) == es[i].past.worlds[es[i].turn]
  {
    Reachable(cfg, es, i);
    RecordStarts(cfg, es, i);
    var s := es[i];
    assert HistoryInv(cfg, s);
    assert s.past.worlds[0] == [World(es[0].cities, Bodies(es[0].planes))][0];
    if s.mapPc == Deciding {
      forall p: nat | p < |s.planes| ensures s.planes[p].body == s.past.now.planes[p] {
        assert BodyInv(cfg, s, p);
      }
      assert Bodies(s.planes) == s.past.now.planes;
    }
  }

  /** The order in which the map answers planes in the second phase is of no consequence: the cities do not
      change until the next turn. */
  lemma SecondPhaseOnlyReads(cfg: Config, s: State, s': State)
    requires Inv(cfg, s) && Next(cfg, s, s') && s.cities != s'.cities
    ensures ModeOf(s.mapPc) == PhaseOne
  {
    if RaiseStop(s, s') || MapStep(cfg, s, s') {
      MapStepEffect(cfg, s, s');
    } else if exists a: nat :: a < |s.airlines| && ListenerStep(cfg, s, s', a) {
      var a: nat :| a < |s.airlines| && ListenerStep(cfg, s, s', a);
      ListenerStepEffect(cfg, s, s', a);
    } else {
      var p: nat :| p < |s.planes| && PlaneStep(cfg, s, s', p);
      PlaneStepEffect(cfg, s, s', p);
    }
  }

  // ---------------------------------------------------------------- the barrier

  /** A plane with a phase of the turn before it or under way: it has the signal, read or unread, and has not yet
      handed in its part of the report. */
  ghost predicate InFirstPhase(pl: PlaneThread) {
    || (pl.pc == AtStep && Go(Step) in pl.mail)
    || pl.pc == Unloading || pl.pc == AwaitingStock || pl.pc == Ready(First) || pl.pc == Reporting(First)
  }

  ghost predicate InSecondPhase(pl: PlaneThread) {
    || (pl.pc == AtContinue && Go(Continue) in pl.mail)
    || pl.pc == Asking || pl.pc == AwaitingDestinations || pl.pc == Ready(Second) || pl.pc == Reporting(Second)
  }

  /** No plane is in the second phase of a turn while another one is in the first. */
  lemma PhasesDoNotOverlap(cfg: Config, es: seq<State>, i: nat, p: nat, q: nat)
    requires Execution(cfg, es) && i < |es| && p < |es[i].planes| && q < |es[i].planes|
    ensures !(InFirstPhase(es[i].planes[p]) && InSecondPhase(es[i].planes[q]))
  {
    var s := es[i];
    Reachable(cfg, es, i);
    FirstPhaseMode(cfg, s, p);
    SecondPhaseMode(cfg, s, q);
  }

  lemma FirstPhaseMode(cfg: Config, s: State, p: nat)
    requires Inv(cfg, s) && p < |s.planes|
    ensures InFirstPhase(s.planes[p]) ==> ModeOf(s.mapPc) == PhaseOne
  {
    PlaneMode(cfg, s, p);
    if s.planes[p].mail != [] {
      SignalMode(cfg, s, p);
    }
    if s.planes[p].pc == AwaitingStock {
      WaitingMode(cfg, s, p);
    }
  }

  lemma SecondPhaseMode(cfg: Config, s: State, p: nat)
    requires Inv(cfg, s) && p < |s.planes|
    ensures InSecondPhase(s.planes[p]) ==> ModeOf(s.mapPc) == PhaseTwo
  {
    PlaneMode(cfg, s, p);
    if s.planes[p].mail != [] {
      SignalMode(cfg, s, p);
    }
    if s.planes[p].pc == AwaitingDestinations {
      WaitingMode(cfg, s, p);
    }
  }

  /** When the map leaves a collecting loop, every airline has reported exactly once for the phase, no message
      is under way in any queue or hand, and every plane has finished the phase or retired. */
  lemma BarrierIsClean(cfg: Config, es: seq<State>, i: nat)
    requires Execution(cfg, es) && i < |es|
    requires es[i].mapPc.Collecting? && es[i].mapPc.reports == |es[i].airlines|
    ensures Shape(cfg, es[i]) && es[i].inbox == []
    ensures forall a | 0 <= a < |es[i].airlines| ::
              && es[i].past.duties[a] == Duty(es[i].mapPc.phase, Acked)
              && es[i].airlines[a].inbox == [] && !es[i].airlines[a].pc.Forwarding?
    ensures forall p | 0 <= p < |es[i].planes| :: Resting(es[i].mapPc.phase, es[i].planes[p])
  {
    Reachable(cfg, es, i);
    NobodyWaits(cfg, es[i]);
  }

  /** In the collecting loops the airlines that have reported are in the queue or counted, once each. */
  lemma OneReportEach(cfg: Config, es: seq<State>, i: nat, j: nat, k: nat)
    requires Execution(cfg, es) && i < |es| && j < k < |es[i].inbox|
    ensures MapKey(es[i].inbox[j]) != MapKey(es[i].inbox[k])
    ensures es[i].inbox[j].AirlineDone? || es[i].inbox[j].AirlineStatus? ==>
              var a, ds := es[i].inbox[j].airline, es[i].past.duties;
              a < |ds| && ds[a].Duty? && ds[a].progress == Reported
  {
    Reachable(cfg, es, i);
    var s := es[i];
    assert InboxInv(cfg, s);
    assert MapKeys(s.inbox)[j] != MapKeys(s.inbox)[k];
    assert MapMessageOk(s, s.inbox[j]);
  }

  /** The error branches are dead: the map never drops a message, no plane ever gets one it does not expect,
      and no plane finds End in the middle of a turn. */
  lemma ErrorBranchesAreDead(cfg: Config, es: seq<State>, i: nat, s': State)
    requires Execution(cfg, es) && i < |es|
    ensures !MapRejects(es[i], s')
    ensures forall p: nat | p < |es[i].planes| :: !PlaneBails(es[i], s', p) && !PlanePeeksEnd(es[i], s', p)
  {
    Reachable(cfg, es, i);
    MapNeverRejects(cfg, es[i], s');
    forall p: nat | p < |es[i].planes| ensures !PlaneBails(es[i], s', p) && !PlanePeeksEnd(es[i], s', p) {
      PlaneNeverFails(cfg, es[i], s', p);
    }
  }

  // ---------------------------------------------------------------- mailboxes and shutdown

  /** A mailbox never holds more than one message. */
  lemma OneMessagePerMailbox(cfg: Config, es: seq<State>, i: nat, p: nat)
    requires Execution(cfg, es) && i < |es| && p < |es[i].planes|
    ensures |es[i].planes[p].mail| <= 1
  {
    Reachable(cfg, es, i);
    assert PlaneInv(cfg, es[i], p);
  }

  ghost function CountUndone(planes: seq<PlaneThread>, lo: nat, hi: nat): nat
    requires lo <= hi <= |planes|
    decreases hi
  {
    if lo == hi then 0 else CountUndone(planes, lo, hi - 1) + if planes[hi - 1].body.done then 0 else 1
  }

  lemma {:induction false} PendingAhead(cfg: Config, s: State, a: nat, j: nat, hi: nat)
    requires Inv(cfg, s) && a < |s.airlines| && s.airlines[a].pc.Broadcasting? && s.past.duties[a].Duty?
    requires cfg.first[a] <= s.airlines[a].pc.j <= j <= hi <= cfg.first[a + 1]
    ensures hi <= |s.planes|
    ensures CountPending(s.planes, cfg.first[a], hi, s.past.duties[a].phase)
            == CountPending(s.planes, cfg.first[a], j, s.past.duties[a].phase) + CountUndone(s.planes, j, hi)
    decreases hi
  {
    OwnRange(cfg, a);
    if j < hi {
      PendingAhead(cfg, s, a, j, hi - 1);
      CountedByDone(cfg, s, a, hi - 1);
    }
  }

  /** Although each done flag is read twice without a lock, the broadcast reaches as many planes as were
      counted: those already reached and still pending, and those ahead that are not done, add up to the count. */
  lemma BroadcastReachesCounted(cfg: Config, es: seq<State>, i: nat, a: nat)
    requires Execution(cfg, es) && i < |es| && a < |es[i].airlines| && es[i].airlines[a].pc.Broadcasting?
    ensures Shape(cfg, es[i])
    ensures var s := es[i]; var lo, j, hi := cfg.first[a], s.airlines[a].pc.j, cfg.first[a + 1];
            && s.past.duties[a].Duty? && lo <= j <= hi <= |s.planes|
            && s.airlines[a].left == CountPending(s.planes, lo, j, s.past.duties[a].phase)
               + CountUndone(s.planes, j, hi)
  {
    Reachable(cfg, es, i);
    BusyIsActive(cfg, es[i], a);
    OwnRange(cfg, a);
    assert AirlineControl(cfg, es[i], a);
    PendingAhead(cfg, es[i], a, es[i].airlines[a].pc.j, cfg.first[a + 1]);
  }

  /** Once an airline has joined its planes and destroyed their mailboxes, all its planes have left, with nothing
      unread, and it stays so. */
  lemma CleanShutdown(cfg: Config, es: seq<State>, i: nat, a: nat, p: nat)
    requires Execution(cfg, es) && i < |es| && a < |es[i].airlines| && es[i].airlines[a].pc == Gone
    requires p < |es[i].planes| && p < |cfg.owner| && cfg.owner[p] == a
    ensures es[i].planes[p].pc == Exited && es[i].planes[p].mail == [] && es[i].planes[p].body.done
    ensures es[i].airlines[a].inbox == []
  {
    Reachable(cfg, es, i);
    EndingIsDismissed(cfg, es[i], a);
    assert PlaneInv(cfg, es[i], p);
    assert AirlineControl(cfg, es[i], a);
  }

  // ---------------------------------------------------------------- an inherited theorem

  /** In every interleaved execution, between turns: demand never rose, and total demand minus what the planes
      carry is what it was at the start. */
  lemma ExecutionConserves(cfg: Config, es: seq<State>, i: nat)
    requires Execution(cfg, es) && i < |es| && es[i].mapPc == Deciding
    ensures CitiesLeft(es[i].cities, es[0].cities)
    ensures Sum(es[i].cities, Everything) - Sum(Loads(Bodies(es[i].planes)), Everything)
            == Sum(es[0].cities, Everything) - Sum(Loads(Bodies(es[0].planes)), Everything)
  {
    Refinement(cfg, es, i);
    var h := es[i].past;
    Conservation(cfg.dist, h.worlds, h.orders, cfg.far, 0, |h.orders|);
  }
}
