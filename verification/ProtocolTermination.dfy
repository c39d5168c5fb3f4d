/**
 Every step of the interleaved system lowers a measure of four natural numbers, compared from the left: turns the
 simulation may still take, stages of the turn still ahead, messages or reports the map still has to deal with in
 its stage, and work of the other threads.
 */
module ProtocolTermination {
  import opened Delivery
  import opened Turns
  import opened Protocol
  import opened ProtocolInvariant
  import opened ProtocolControl
  import opened ListenerControl
  import opened MapControl
  import opened ProtocolRefinement

  // ---------------------------------------------------------------- work of the threads

  function MailWork(m: ToPlane): nat { if m.Go? then 10 else 1 }

  ghost function MailsWork(q: seq<ToPlane>): nat {
    if q == [] then 0 else MailWork(q[0]) + MailsWork(q[1..])
  }

  function PlaneWork(pc: PlanePc): nat {
    match pc
    case Unloading => 9
    case Asking => 9
    case AwaitingStock => 3
    case AwaitingDestinations => 3
    case Ready(_) => 3
    case Reporting(_) => 2
    case Releasing(_) => 1
    case _ => 0
  }

  ghost function PlanesWork(planes: seq<PlaneThread>): nat {
    if planes == [] then 0 else PlaneWork(planes[0].pc) + MailsWork(planes[0].mail) + PlanesWork(planes[1..])
  }

  /** n is the number of planes, hi where the airline's planes end. */
  function ListenerWork(pc: ListenerPc, hi: nat, n: nat): nat {
    match pc
    case WantLock(_) => 12 * n + 4
    case Counting(_, j) => (if j <= hi then hi - j else 0) + 11 * n + 3
    case Broadcasting(_, j) => 11 * (if j <= hi then hi - j else 0) + 2
    case Announcing(_) => 2
    case Unlocking => 1
    case Forwarding(_, _) => 2
    case Ending(j) => 11 * (if j <= hi then hi - j else 0) + 2
    case Joining => 1
    case _ => 0
  }

  function ReplyWork(m: ToAirline, n: nat): nat { if m.Control? then 12 * n + 5 else 3 }

  ghost function RepliesWork(q: seq<ToAirline>, n: nat): nat {
    if q == [] then 0 else ReplyWork(q[0], n) + RepliesWork(q[1..], n)
  }

  ghost function AirlinesWork(airlines: seq<Airline>, first: seq<nat>, n: nat): nat
    requires |first| == |airlines| + 1
  {
    if airlines == [] then 0
    else
      ListenerWork(airlines[0].pc, first[1], n) + RepliesWork(airlines[0].inbox, n)
      + AirlinesWork(airlines[1..], first[1..], n)
  }

  function RequestWork(m: ToMap): nat { if m.UnloadStock? || m.CheckDestinations? then 5 else 0 }

  ghost function RequestsWork(q: seq<ToMap>): nat {
    if q == [] then 0 else RequestWork(q[0]) + RequestsWork(q[1..])
  }

  ghost function Work(cfg: Config, s: State): nat
    requires Shape(cfg, s)
  {
    PlanesWork(s.planes) + AirlinesWork(s.airlines, cfg.first, |s.planes|) + RequestsWork(s.inbox)
    + (if s.mapPc.Replying? then 4 else 0) + (if s.stop then 0 else 1)
  }

  lemma {:induction false} MailsAppend(q: seq<ToPlane>, m: ToPlane)
    ensures MailsWork(q + [m]) == MailsWork(q) + MailWork(m)
  {
    if q != [] {
      assert (q + [m])[1..] == q[1..] + [m];
      MailsAppend(q[1..], m);
    }
  }

  lemma {:induction false} RepliesAppend(q: seq<ToAirline>, m: ToAirline, n: nat)
    ensures RepliesWork(q + [m], n) == RepliesWork(q, n) + ReplyWork(m, n)
  {
    if q != [] {
      assert (q + [m])[1..] == q[1..] + [m];
      RepliesAppend(q[1..], m, n);
    }
  }

  lemma {:induction false} RequestsAppend(q: seq<ToMap>, m: ToMap)
    ensures RequestsWork(q + [m]) == RequestsWork(q) + RequestWork(m)
  {
    if q != [] {
      assert (q + [m])[1..] == q[1..] + [m];
      RequestsAppend(q[1..], m);
    }
  }

  lemma {:induction false} PlanesUpdate(planes: seq<PlaneThread>, p: nat, x: PlaneThread)
    requires p < |planes|
    ensures PlanesWork(planes[p := x])
            == PlanesWork(planes) + PlaneWork(x.pc) + MailsWork(x.mail)
               - PlaneWork(planes[p].pc) - MailsWork(planes[p].mail)
  {
    if p == 0 {
      assert planes[p := x][1..] == planes[1..];
    } else {
      assert planes[p := x][1..] == planes[1..][p - 1 := x];
      PlanesUpdate(planes[1..], p - 1, x);
    }
  }

  lemma {:induction false} AirlinesUpdate(airlines: seq<Airline>, first: seq<nat>, n: nat, a: nat, x: Airline)
    requires |first| == |airlines| + 1 && a < |airlines|
    ensures AirlinesWork(airlines[a := x], first, n)
            == AirlinesWork(airlines, first, n) + ListenerWork(x.pc, first[a + 1], n) + RepliesWork(x.inbox, n)
               - ListenerWork(airlines[a].pc, first[a + 1], n) - RepliesWork(airlines[a].inbox, n)
  {
    if a == 0 {
      assert airlines[a := x][1..] == airlines[1..];
    } else {
      assert airlines[a := x][1..] == airlines[1..][a - 1 := x];
      AirlinesUpdate(airlines[1..], first[1..], n, a - 1, x);
    }
  }

  // ---------------------------------------------------------------- the measure

  datatype Measure = Measure(turns: nat, stages: nat, togo: nat, work: nat)

  predicate Lower(x: Measure, y: Measure) {
    || x.turns < y.turns
    || (x.turns == y.turns && x.stages < y.stages)
    || (x.turns == y.turns && x.stages == y.stages && x.togo < y.togo)
    || (x.turns == y.turns && x.stages == y.stages && x.togo == y.togo && x.work < y.work)
  }

  function Stages(mapPc: MapPc): nat {
    match mapPc
    case Sending(Step, _) => 6
    case Collecting(ph, _) => if ph == First then 5 else 3
    case Replying(ph, _, _, _) => if ph == First then 5 else 3
    case Sending(Continue, _) => 4
    case Deciding => 2
    case Sending(End, _) => 1
    case Finished => 0
  }

  function ToGo(mapPc: MapPc, n: nat): nat {
    var done := match mapPc
      case Sending(_, k) => k
      case Collecting(_, i) => i
      case Replying(_, i, _, _) => i
      case _ => n;
    if done <= n then n - done else 0
  }

  ghost function MeasureOf(cfg: Config, s: State): Measure
    requires Shape(cfg, s)
  {
    Measure(if s.turn <= MAX_TURNS then MAX_TURNS - s.turn else 0,
            Stages(s.mapPc), ToGo(s.mapPc, |s.airlines|), Work(cfg, s))
  }

  lemma TurnWithinLimit(cfg: Config, s: State)
    requires Inv(cfg, s)
    ensures s.turn <= MAX_TURNS
  {
    assert HistoryInv(cfg, s);
    if |s.past.orders| > 0 {
      var i := |s.past.orders| - 1;
      assert Continues(s.past.worlds[i].cities, i);
    }
  }

  /** Steps that bring the map to another stage or turn. */
  lemma MapTurnsOver(cfg: Config, s: State, s': State)
    requires Shape(cfg, s) && Shape(cfg, s')
    requires || MapStops(s, s') || (MapStarts(s, s') && s'.turn <= MAX_TURNS) || MapHasSent(s, s')
             || MapContinues(s, s') || MapEndsTurn(s, s')
    ensures Lower(MeasureOf(cfg, s'), MeasureOf(cfg, s))
  {
  }

  /** Steps that bring it on within a stage. */
  lemma MapAdvances(cfg: Config, s: State, s': State)
    requires Shape(cfg, s) && MapInv(cfg, s) && Shape(cfg, s')
    requires MapSends(cfg, s, s') || MapCountsReport(cfg, s, s')
    ensures s'.turn == s.turn && Stages(s'.mapPc) == Stages(s.mapPc) &&
            ToGo(s'.mapPc, |s'.airlines|) < ToGo(s.mapPc, |s.airlines|)
  {
    AckedBounds(s.past.duties);
  }

  lemma MapReplyPasses(cfg: Config, s: State, s': State)
    requires Inv(cfg, s) && Shape(cfg, s') && MapReplies(cfg, s, s')
    ensures Work(cfg, s') < Work(cfg, s)
  {
    var t := s.mapPc.to;
    AirlinesUpdate(s.airlines, cfg.first, |s.planes|, t, s'.airlines[t]);
    RepliesAppend(s.airlines[t].inbox, s.mapPc.reply, |s.planes|);
    assert MapInv(cfg, s);
  }

  lemma MapRequestPasses(cfg: Config, s: State, s': State)
    requires Inv(cfg, s) && Shape(cfg, s')
    requires MapServes(cfg, s, s') || (exists l :: MapAnswers(cfg, s, s', l)) || RaiseStop(s, s')
    ensures Work(cfg, s') < Work(cfg, s)
  {
  }

  /** Steps that move a request or reply through the map. */
  lemma MapPasses(cfg: Config, s: State, s': State)
    requires Inv(cfg, s) && Shape(cfg, s')
    requires MapServes(cfg, s, s') || MapReplies(cfg, s, s') || (exists l :: MapAnswers(cfg, s, s', l)) ||
             RaiseStop(s, s')
    ensures Work(cfg, s') < Work(cfg, s)
    ensures s'.turn == s.turn && Stages(s'.mapPc) == Stages(s.mapPc) &&
            ToGo(s'.mapPc, |s'.airlines|) == ToGo(s.mapPc, |s.airlines|)
  {
    SameStage(cfg, s, s');
    if MapReplies(cfg, s, s') {
      MapReplyPasses(cfg, s, s');
    } else {
      MapRequestPasses(cfg, s, s');
    }
  }

  lemma SameStage(cfg: Config, s: State, s': State)
    requires Shape(cfg, s)
    requires MapServes(cfg, s, s') || MapReplies(cfg, s, s') || (exists l :: MapAnswers(cfg, s, s', l)) ||
             RaiseStop(s, s')
    ensures s'.turn == s.turn && Stages(s'.mapPc) == Stages(s.mapPc) &&
            ToGo(s'.mapPc, |s'.airlines|) == ToGo(s.mapPc, |s.airlines|)
  {
  }

  lemma MapLowers(cfg: Config, s: State, s': State)
    requires Inv(cfg, s) && Shape(cfg, s') && (RaiseStop(s, s') || MapStep(cfg, s, s'))
    ensures Lower(MeasureOf(cfg, s'), MeasureOf(cfg, s))
  {
    MapNeverRejects(cfg, s, s');
    if MapServes(cfg, s, s') || MapReplies(cfg, s, s') || (exists l :: MapAnswers(cfg, s, s', l)) || RaiseStop(s, s') {
      MapPasses(cfg, s, s');
    } else if MapSends(cfg, s, s') || MapCountsReport(cfg, s, s') {
      MapAdvances(cfg, s, s');
    } else {
      if MapStarts(s, s') {
        TurnWithinLimit(cfg, s);
      }
      MapTurnsOver(cfg, s, s');
    }
  }

  /** A listener's step that touches no mailbox shows in its own work, its queue and the reports. */
  lemma ListenerDelta(cfg: Config, s: State, s': State, a: nat)
    requires Shape(cfg, s) && Shape(cfg, s') && a < |s.airlines|
    requires s'.airlines == s.airlines[a := s'.airlines[a]] && s'.planes == s.planes && s'.mapPc == s.mapPc &&
             s'.stop == s.stop
    requires s'.inbox == s.inbox || s'.inbox == s.inbox + [Report(s.airlines[a].stage, a)]
    ensures var n, hi := |s.planes|, cfg.first[a + 1];
            Work(cfg, s') == Work(cfg, s)
              + ListenerWork(s'.airlines[a].pc, hi, n) + RepliesWork(s'.airlines[a].inbox, n)
              - ListenerWork(s.airlines[a].pc, hi, n) - RepliesWork(s.airlines[a].inbox, n)
  {
    AirlinesUpdate(s.airlines, cfg.first, |s.planes|, a, s'.airlines[a]);
    RequestsAppend(s.inbox, Report(s.airlines[a].stage, a));
  }

  lemma ListenerHearsWorks(cfg: Config, s: State, s': State, a: nat)
    requires Shape(cfg, s) && Shape(cfg, s') && a < |s.airlines| &&
             (ListenerHears(s, s', a) || ListenerHearsEnd(cfg, s, s', a))
    ensures Work(cfg, s') < Work(cfg, s)
  {
    OwnRange(cfg, a);
    ListenerDelta(cfg, s, s', a);
  }

  lemma ListenerCountWorks(cfg: Config, s: State, s': State, a: nat)
    requires Shape(cfg, s) && Shape(cfg, s') && a < |s.airlines|
    requires ListenerLocks(cfg, s, s', a) || ListenerCounts(cfg, s, s', a)
    ensures Work(cfg, s') < Work(cfg, s)
  {
    OwnRange(cfg, a);
    ListenerDelta(cfg, s, s', a);
  }

  lemma ListenerPhaseWorks(cfg: Config, s: State, s': State, a: nat)
    requires Shape(cfg, s) && Shape(cfg, s') && a < |s.airlines|
    requires ListenerCounted(cfg, s, s', a) || ListenerReports(cfg, s, s', a)
    ensures Work(cfg, s') < Work(cfg, s)
  {
    OwnRange(cfg, a);
    ListenerDelta(cfg, s, s', a);
  }

  lemma ListenerLeavesWorks(cfg: Config, s: State, s': State, a: nat)
    requires Shape(cfg, s) && Shape(cfg, s') && a < |s.airlines|
    requires || ListenerBroadcasted(cfg, s, s', a) || ListenerUnlocks(s, s', a) || ListenerEnded(cfg, s, s', a)
             || ListenerJoins(cfg, s, s', a)
    ensures Work(cfg, s') < Work(cfg, s)
  {
    ListenerDelta(cfg, s, s', a);
  }

  lemma ListenerForwardWorks(cfg: Config, s: State, s': State, a: nat)
    requires Inv(cfg, s) && Shape(cfg, s') && a < |s.airlines| && ListenerForwards(cfg, s, s', a)
    ensures Work(cfg, s') < Work(cfg, s)
  {
    assert RepliesInv(cfg, s, a);
    ForwardCosts(cfg, s, s', a);
  }

  lemma ForwardCosts(cfg: Config, s: State, s': State, a: nat)
    requires Shape(cfg, s) && Shape(cfg, s') && a < |s.airlines| && ListenerForwards(cfg, s, s', a)
    requires !s.airlines[a].pc.msg.Go?
    ensures Work(cfg, s') < Work(cfg, s)
  {
    AirlinesUpdate(s.airlines, cfg.first, |s.planes|, a, s'.airlines[a]);
    var p := s.airlines[a].pc.plane;
    PlanesUpdate(s.planes, p, s'.planes[p]);
    MailsAppend(s.planes[p].mail, s.airlines[a].pc.msg);
  }

  /** A signal in a mailbox costs less than a place in the listener's loop. */
  lemma PushWorks(cfg: Config, s: State, s': State, a: nat, j: nat, sig: Signal)
    requires Shape(cfg, s) && Shape(cfg, s') && a < |s.airlines| && j < |s.planes|
    requires s'.airlines == s.airlines[a := s'.airlines[a]] && s'.airlines[a].inbox == s.airlines[a].inbox
    requires s'.inbox == s.inbox && s'.mapPc == s.mapPc && s'.stop == s.stop
    requires s'.planes == s.planes || s'.planes == s.planes[j := s.planes[j].(mail := s.planes[j].mail + [Go(sig)])]
    requires ListenerWork(s'.airlines[a].pc, cfg.first[a + 1], |s.planes|) + 11
             == ListenerWork(s.airlines[a].pc, cfg.first[a + 1], |s.planes|)
    ensures Work(cfg, s') < Work(cfg, s)
  {
    AirlinesUpdate(s.airlines, cfg.first, |s.planes|, a, s'.airlines[a]);
    PlanesUpdate(s.planes, j, s.planes[j].(mail := s.planes[j].mail + [Go(sig)]));
    MailsAppend(s.planes[j].mail, Go(sig));
  }

  lemma ListenerPushes(cfg: Config, s: State, s': State, a: nat)
    requires Inv(cfg, s) && Shape(cfg, s') && a < |s.airlines|
    requires ListenerBroadcasts(cfg, s, s', a) || ListenerEnds(cfg, s, s', a)
    ensures Work(cfg, s') < Work(cfg, s)
  {
    PushWorks(cfg, s, s', a, s.airlines[a].pc.j, if s.airlines[a].pc.Ending? then End else s.airlines[a].pc.signal);
  }

  /** A plane's step shows in its own work, its mailbox and the requests. */
  lemma PlaneDelta(cfg: Config, s: State, s': State, p: nat)
    requires Shape(cfg, s) && Shape(cfg, s') && p < |s.planes|
    requires s'.planes == s.planes[p := s'.planes[p]] && s'.mapPc == s.mapPc && s'.stop == s.stop
    requires var a := cfg.owner[p];
             && s'.airlines == s.airlines[a := s'.airlines[a]]
             && s'.airlines[a].pc == s.airlines[a].pc && s'.airlines[a].inbox == s.airlines[a].inbox
    requires s'.inbox == s.inbox || (|s'.inbox| > 0 && s'.inbox == s.inbox + [s'.inbox[|s'.inbox| - 1]])
    ensures Work(cfg, s') == Work(cfg, s)
              + PlaneWork(s'.planes[p].pc) + MailsWork(s'.planes[p].mail)
              - PlaneWork(s.planes[p].pc) - MailsWork(s.planes[p].mail)
              + if s'.inbox == s.inbox then 0 else RequestWork(s'.inbox[|s'.inbox| - 1])
  {
    var a := cfg.owner[p];
    PlanesUpdate(s.planes, p, s'.planes[p]);
    AirlinesUpdate(s.airlines, cfg.first, |s.planes|, a, s'.airlines[a]);
    if s'.inbox != s.inbox {
      RequestsAppend(s.inbox, s'.inbox[|s'.inbox| - 1]);
    }
  }

  lemma PlaneSignalWorks(cfg: Config, s: State, s': State, p: nat)
    requires Inv(cfg, s) && p < |s.planes| && Shape(cfg, s')
    requires PlaneSteps(s, s', p) || PlaneContinues(s, s', p)
    ensures Work(cfg, s') < Work(cfg, s)
  {
    assert PlaneInv(cfg, s, p);
    SignalCosts(cfg, s, s', p);
  }

  lemma SignalCosts(cfg: Config, s: State, s': State, p: nat)
    requires Shape(cfg, s) && p < |s.planes| && Shape(cfg, s')
    requires (PlaneSteps(s, s', p) || PlaneContinues(s, s', p)) && s.planes[p].mail != [] && s.planes[p].mail[0].Go?
    ensures Work(cfg, s') < Work(cfg, s)
  {
    assert s.airlines[cfg.owner[p] := s.airlines[cfg.owner[p]]] == s.airlines;
    PlaneDelta(cfg, s, s', p);
  }

  lemma PlaneReplyWorks(cfg: Config, s: State, s': State, p: nat)
    requires Shape(cfg, s) && p < |s.planes| && Shape(cfg, s')
    requires PlaneTakesStock(s, s', p) || PlaneChooses(s, s', p)
    ensures Work(cfg, s') < Work(cfg, s)
  {
    assert s.airlines[cfg.owner[p] := s.airlines[cfg.owner[p]]] == s.airlines;
    PlaneDelta(cfg, s, s', p);
  }

  lemma PlaneLocksWorks(cfg: Config, s: State, s': State, p: nat)
    requires Shape(cfg, s) && p < |s.planes| && Shape(cfg, s') &&
             (PlaneLocks(cfg, s, s', p) || PlaneReleases(cfg, s, s', p))
    ensures Work(cfg, s') < Work(cfg, s)
  {
    PlaneDelta(cfg, s, s', p);
  }

  lemma PlaneWritesWorks(cfg: Config, s: State, s': State, p: nat)
    requires Shape(cfg, s) && p < |s.planes| && Shape(cfg, s')
    requires PlaneUnloads(cfg, s, s', p) || PlaneAsks(cfg, s, s', p) || PlaneReports(cfg, s, s', p)
    ensures Work(cfg, s') < Work(cfg, s)
  {
    assert s.airlines[cfg.owner[p] := s.airlines[cfg.owner[p]]] == s.airlines;
    PlaneDelta(cfg, s, s', p);
  }

  lemma PlaneWorks(cfg: Config, s: State, s': State, p: nat)
    requires Inv(cfg, s) && Shape(cfg, s') && p < |s.planes| && PlaneStep(cfg, s, s', p)
    ensures Work(cfg, s') < Work(cfg, s)
  {
    PlaneNeverFails(cfg, s, s', p);
    if PlaneUnloads(cfg, s, s', p) || PlaneAsks(cfg, s, s', p) || PlaneReports(cfg, s, s', p) {
      PlaneWritesWorks(cfg, s, s', p);
    } else if PlaneLocks(cfg, s, s', p) || PlaneReleases(cfg, s, s', p) {
      PlaneLocksWorks(cfg, s, s', p);
    } else if PlaneSteps(s, s', p) || PlaneContinues(s, s', p) {
      PlaneSignalWorks(cfg, s, s', p);
    } else {
      PlaneReplyWorks(cfg, s, s', p);
    }
  }

  lemma ListenerWorks(cfg: Config, s: State, s': State, a: nat)
    requires Inv(cfg, s) && Shape(cfg, s') && a < |s.airlines| && ListenerStep(cfg, s, s', a)
    ensures Work(cfg, s') < Work(cfg, s)
  {
    if ListenerForwards(cfg, s, s', a) {
      ListenerForwardWorks(cfg, s, s', a);
    } else if ListenerBroadcasts(cfg, s, s', a) || ListenerEnds(cfg, s, s', a) {
      ListenerPushes(cfg, s, s', a);
    } else if ListenerHears(s, s', a) || ListenerHearsEnd(cfg, s, s', a) {
      ListenerHearsWorks(cfg, s, s', a);
    } else if ListenerBroadcasted(cfg, s, s', a) || ListenerUnlocks(s, s', a) ||
              ListenerEnded(cfg, s, s', a) || ListenerJoins(cfg, s, s', a) {
      ListenerLeavesWorks(cfg, s, s', a);
    } else if ListenerLocks(cfg, s, s', a) || ListenerCounts(cfg, s, s', a) {
      ListenerCountWorks(cfg, s, s', a);
    } else {
      ListenerPhaseWorks(cfg, s, s', a);
    }
  }

  /** Every step of every thread, and the signal, lowers the measure; so no execution goes on for ever. */
  lemma EveryStepLowers(cfg: Config, es: seq<State>, i: nat)
    requires Execution(cfg, es) && i + 1 < |es|
    ensures Shape(cfg, es[i]) && Shape(cfg, es[i + 1])
    ensures Lower(MeasureOf(cfg, es[i + 1]), MeasureOf(cfg, es[i]))
  {
    Reachable(cfg, es, i);
    Reachable(cfg, es, i + 1);
    var s, s' := es[i], es[i + 1];
    assert StepAt(cfg, es, i);
    if RaiseStop(s, s') || MapStep(cfg, s, s') {
      MapLowers(cfg, s, s');
    } else if exists a: nat :: a < |s.airlines| && ListenerStep(cfg, s, s', a) {
      var a: nat :| a < |s.airlines| && ListenerStep(cfg, s, s', a);
      ListenerStepEffect(cfg, s, s', a);
      ListenerWorks(cfg, s, s', a);
    } else {
      var p: nat :| p < |s.planes| && PlaneStep(cfg, s, s', p);
      PlaneStepEffect(cfg, s, s', p);
      PlaneWorks(cfg, s, s', p);
      PlaneKeepsMap(cfg, s, s', p);
    }
  }

  lemma PlaneKeepsMap(cfg: Config, s: State, s': State, p: nat)
    requires Shape(cfg, s) && p < |s.planes| && PlaneStep(cfg, s, s', p)
    ensures s'.mapPc == s.mapPc && s'.stop == s.stop && |s'.airlines| == |s.airlines|
  {
  }
}
