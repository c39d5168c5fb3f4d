/**
 What an airline owes the map: for every Step exactly one AirlineDone, for every Continue exactly one
 AirlineStatus, counted over whole executions.
 */
module ProtocolDuties {
  import opened Delivery
  import opened Turns
  import opened Protocol
  import opened ProtocolInvariant
  import opened MapControl
  import opened ProtocolControl
  import opened ProtocolRefinement

  /** In this step the airline's report for the phase enters the map's queue. */
  ghost predicate Reports(s: State, s': State, a: nat, ph: Phase) {
    s'.inbox == s.inbox + [Report(ph, a)]
  }

  /** In this step a signal enters the airline's queue. */
  ghost predicate Gets(s: State, s': State, a: nat, sig: Signal)
    requires a < |s.airlines| && a < |s'.airlines|
  {
    s'.airlines[a].inbox == s.airlines[a].inbox + [Control(sig)]
  }

  predicate Owing(d: Duty, ph: Phase) {
    d.Duty? && d.phase == ph && (d.progress == Told || d.progress == Active)
  }

  /** How one step may change what airline a owes. */
  ghost predicate DutyStep(s: State, s': State, a: nat)
    requires a < |s.airlines| == |s'.airlines| && a < |s.past.duties| == |s'.past.duties|
  {
    var d, d' := s.past.duties[a], s'.past.duties[a];
    && (forall ph | Reports(s, s', a, ph) :: Owing(d, ph) && d' == Duty(ph, Reported))
    && (forall sig | Gets(s, s', a, sig) :: d.Duty? && d.progress == Acked && d' == ToldOf(sig))
    && ((forall ph :: !Reports(s, s', a, ph)) && (forall sig :: !Gets(s, s', a, sig)) ==>
          || d' == d
          || (d.Duty? && d.progress == Told && d' == d.(progress := Active))
          || (d.Duty? && d.progress == Reported && d' == d.(progress := Acked)))
  }

  lemma SameSeq<T>(q: seq<T>, x: T)
    ensures q != q + [x]
    ensures q == [] || q[1..] != q + [x]
  {
    assert |q + [x]| == |q| + 1;
  }

  lemma ReportsDiffer(q: seq<ToMap>, a: nat, b: nat, x: Phase, y: Phase)
    requires q + [Report(x, a)] == q + [Report(y, b)]
    ensures a == b && x == y
  {
    assert (q + [Report(x, a)])[|q|] == (q + [Report(y, b)])[|q|];
  }

  lemma MapSendsDuty(cfg: Config, s: State, s': State, a: nat)
    requires Inv(cfg, s) && a < |s.airlines| && MapSends(cfg, s, s')
    ensures Shape(cfg, s') && DutyStep(s, s', a)
  {
    assert MapInv(cfg, s);
    assert DutyFits(s.mapPc, a, s.past.duties[a]);
    var q := s.airlines[a].inbox;
    forall ph ensures !Reports(s, s', a, ph) { SameSeq(s.inbox, Report(ph, a)); }
    if a == s.mapPc.k {
      forall sig | Gets(s, s', a, sig) ensures sig == s.mapPc.signal {
        assert (q + [Control(sig)])[|q|] == (q + [Control(s.mapPc.signal)])[|q|];
      }
      assert Gets(s, s', a, s.mapPc.signal);
    } else {
      forall sig ensures !Gets(s, s', a, sig) { SameSeq(q, Control(sig)); }
    }
  }

  lemma MapCountsDuty(cfg: Config, s: State, s': State, a: nat)
    requires Inv(cfg, s) && a < |s.airlines| && MapCountsReport(cfg, s, s')
    ensures Shape(cfg, s') && DutyStep(s, s', a)
  {
    assert InboxInv(cfg, s);
    assert MapMessageOk(s, s.inbox[0]);
    forall ph ensures !Reports(s, s', a, ph) { SameSeq(s.inbox, Report(ph, a)); }
    forall sig ensures !Gets(s, s', a, sig) { SameSeq(s.airlines[a].inbox, Control(sig)); }
  }

  lemma MapRepliesDuty(cfg: Config, s: State, s': State, a: nat)
    requires Inv(cfg, s) && a < |s.airlines| && MapReplies(cfg, s, s')
    ensures Shape(cfg, s') && DutyStep(s, s', a)
  {
    assert MapInv(cfg, s);
    forall ph ensures !Reports(s, s', a, ph) { SameSeq(s.inbox, Report(ph, a)); }
    var q := s.airlines[a].inbox;
    forall sig ensures !Gets(s, s', a, sig) {
      SameSeq(q, Control(sig));
      assert (q + [Control(sig)])[|q|] != (q + [s.mapPc.reply])[|q|];
    }
  }

  lemma MapElseEffect(cfg: Config, s: State, s': State)
    requires Shape(cfg, s) && (RaiseStop(s, s') || MapStep(cfg, s, s')) && !MapRejects(s, s')
    requires !MapSends(cfg, s, s') && !MapCountsReport(cfg, s, s') && !MapReplies(cfg, s, s')
    ensures Shape(cfg, s') && s'.past.duties == s.past.duties && s'.airlines == s.airlines
    ensures s'.inbox == s.inbox || (s.inbox != [] && s'.inbox == s.inbox[1..])
  {
  }

  lemma MapElseDuty(cfg: Config, s: State, s': State, a: nat)
    requires Inv(cfg, s) && a < |s.airlines| && (RaiseStop(s, s') || MapStep(cfg, s, s'))
    requires !MapSends(cfg, s, s') && !MapCountsReport(cfg, s, s') && !MapReplies(cfg, s, s')
    ensures Shape(cfg, s') && DutyStep(s, s', a)
  {
    MapNeverRejects(cfg, s, s');
    MapElseEffect(cfg, s, s');
    forall ph ensures !Reports(s, s', a, ph) { SameSeq(s.inbox, Report(ph, a)); }
    forall sig ensures !Gets(s, s', a, sig) { SameSeq(s.airlines[a].inbox, Control(sig)); }
  }

  lemma ListenerHearsEffect(cfg: Config, s: State, s': State, b: nat)
    requires Shape(cfg, s) && b < |s.airlines| && (ListenerHears(s, s', b) || ListenerHearsEnd(cfg, s, s', b))
    requires AirlineControl(cfg, s, b)
    ensures Shape(cfg, s') && s'.inbox == s.inbox && s.airlines[b].inbox != []
    ensures forall a | 0 <= a < |s.airlines| ::
              s'.airlines[a].inbox == if a == b then s.airlines[a].inbox[1..] else s.airlines[a].inbox
    ensures s'.past.duties == s.past.duties
            || (s.past.duties[b].Duty? && s.past.duties[b].progress == Told
                && s'.past.duties == s.past.duties[b := s.past.duties[b].(progress := Active)])
  {
  }

  lemma ListenerHearsDuty(cfg: Config, s: State, s': State, b: nat, a: nat)
    requires Inv(cfg, s) && a < |s.airlines| && b < |s.airlines|
    requires ListenerHears(s, s', b) || ListenerHearsEnd(cfg, s, s', b)
    ensures Shape(cfg, s') && DutyStep(s, s', a)
  {
    ListenerHearsEffect(cfg, s, s', b);
    forall ph ensures !Reports(s, s', a, ph) { SameSeq(s.inbox, Report(ph, a)); }
    forall sig ensures !Gets(s, s', a, sig) { SameSeq(s.airlines[a].inbox, Control(sig)); }
  }

  lemma ListenerReportsDuty(cfg: Config, s: State, s': State, b: nat, a: nat)
    requires Inv(cfg, s) && a < |s.airlines| && b < |s.airlines| && ListenerReports(cfg, s, s', b)
    ensures Shape(cfg, s') && DutyStep(s, s', a)
  {
    assert AirlineControl(cfg, s, b);
    ReportDuty(cfg, s, s', b, a);
  }

  /** A report by airline b changes what b owes, and nobody else's duty. */
  lemma ReportDuty(cfg: Config, s: State, s': State, b: nat, a: nat)
    requires Shape(cfg, s) && Shape(cfg, s') && a < |s.airlines| && b < |s.airlines|
    requires s.past.duties[b] == Duty(s.airlines[b].stage, Active)
    requires s'.inbox == s.inbox + [Report(s.airlines[b].stage, b)]
    requires s'.past.duties == s.past.duties[b := Duty(s.airlines[b].stage, Reported)]
    requires s'.airlines[a].inbox == s.airlines[a].inbox
    ensures DutyStep(s, s', a)
  {
    forall sig ensures !Gets(s, s', a, sig) { SameSeq(s.airlines[a].inbox, Control(sig)); }
    forall ph | Reports(s, s', a, ph) ensures a == b && ph == s.airlines[b].stage {
      ReportsDiffer(s.inbox, a, b, ph, s.airlines[b].stage);
    }
    if a == b { assert Reports(s, s', a, s.airlines[b].stage); }
  }

  lemma ListenerElseEffect(cfg: Config, s: State, s': State, b: nat, a: nat)
    requires Shape(cfg, s) && a < |s.airlines| && b < |s.airlines| && ListenerStep(cfg, s, s', b)
    requires !ListenerHears(s, s', b) && !ListenerHearsEnd(cfg, s, s', b) && !ListenerReports(cfg, s, s', b)
    ensures Shape(cfg, s') && s'.past == s.past && s'.inbox == s.inbox && s'.airlines[a].inbox == s.airlines[a].inbox
  {
    if ListenerBroadcasts(cfg, s, s', b) || ListenerEnds(cfg, s, s', b) || ListenerForwards(cfg, s, s', b) {
      ListenerPushEffect(cfg, s, s', b);
    } else {
      ListenerWorksAlone(cfg, s, s', b);
    }
  }

  lemma ListenerElseDuty(cfg: Config, s: State, s': State, b: nat, a: nat)
    requires Inv(cfg, s) && a < |s.airlines| && b < |s.airlines| && ListenerStep(cfg, s, s', b)
    requires !ListenerHears(s, s', b) && !ListenerHearsEnd(cfg, s, s', b) && !ListenerReports(cfg, s, s', b)
    ensures Shape(cfg, s') && DutyStep(s, s', a)
  {
    ListenerElseEffect(cfg, s, s', b, a);
    forall ph ensures !Reports(s, s', a, ph) { SameSeq(s.inbox, Report(ph, a)); }
    forall sig ensures !Gets(s, s', a, sig) { SameSeq(s.airlines[a].inbox, Control(sig)); }
  }

  lemma PlaneReportsDuty(cfg: Config, s: State, s': State, p: nat, a: nat)
    requires Inv(cfg, s) && a < |s.airlines| && p < |s.planes| && PlaneReports(cfg, s, s', p)
    ensures Shape(cfg, s') && DutyStep(s, s', a)
  {
    assert PlaneInv(cfg, s, p);
    assert AirlineControl(cfg, s, cfg.owner[p]);
    ReportDuty(cfg, s, s', cfg.owner[p], a);
  }

  /** A plane's other steps send requests at most. */
  lemma PlaneElseDuty(cfg: Config, s: State, s': State, p: nat, a: nat)
    requires Inv(cfg, s) && a < |s.airlines| && p < |s.planes| && PlaneStep(cfg, s, s', p) &&
             !PlaneReports(cfg, s, s', p)
    ensures Shape(cfg, s') && DutyStep(s, s', a)
  {
    PlaneElseEffect(cfg, s, s', p, a);
    forall sig ensures !Gets(s, s', a, sig) { SameSeq(s.airlines[a].inbox, Control(sig)); }
    var q := s.inbox;
    forall ph ensures !Reports(s, s', a, ph) {
      SameSeq(q, Report(ph, a));
    }
  }

  lemma PlaneElseEffect(cfg: Config, s: State, s': State, p: nat, a: nat)
    requires Inv(cfg, s) && a < |s.airlines| && p < |s.planes| && PlaneStep(cfg, s, s', p) &&
             !PlaneReports(cfg, s, s', p)
    ensures Shape(cfg, s') && s'.past == s.past && s'.airlines[a].inbox == s.airlines[a].inbox
    ensures s'.inbox == s.inbox
            || (|s'.inbox| == |s.inbox| + 1 &&
                (s'.inbox[|s.inbox|].UnloadStock? || s'.inbox[|s.inbox|].CheckDestinations?))
  {
    if PlaneUnloads(cfg, s, s', p) || PlaneAsks(cfg, s, s', p) {
      PlaneRequestEffect(cfg, s, s', p);
    } else if PlaneLocks(cfg, s, s', p) || PlaneReleases(cfg, s, s', p) {
      PlaneLockEffect(cfg, s, s', p, a);
    } else {
      PlaneAloneEffect(cfg, s, s', p);
    }
  }

  lemma PlaneRequestEffect(cfg: Config, s: State, s': State, p: nat)
    requires Shape(cfg, s) && p < |s.planes| && (PlaneUnloads(cfg, s, s', p) || PlaneAsks(cfg, s, s', p))
    ensures Shape(cfg, s') && s'.past == s.past && s'.airlines == s.airlines
    ensures |s'.inbox| == |s.inbox| + 1 && (s'.inbox[|s.inbox|].UnloadStock? || s'.inbox[|s.inbox|].CheckDestinations?)
  {
  }

  lemma PlaneLockEffect(cfg: Config, s: State, s': State, p: nat, a: nat)
    requires Shape(cfg, s) && p < |s.planes| && a < |s.airlines| &&
             (PlaneLocks(cfg, s, s', p) || PlaneReleases(cfg, s, s', p))
    ensures Shape(cfg, s') && s'.past == s.past && s'.inbox == s.inbox && s'.airlines[a].inbox == s.airlines[a].inbox
  {
  }

  lemma PlaneAloneEffect(cfg: Config, s: State, s': State, p: nat)
    requires Shape(cfg, s) && p < |s.planes|
    requires || PlaneSteps(s, s', p) || PlaneTakesStock(s, s', p) || PlaneContinues(s, s', p) || PlaneChooses(s, s', p)
             || PlaneBails(s, s', p) || PlanePeeksEnd(s, s', p)
    ensures Shape(cfg, s') && s'.past == s.past && s'.inbox == s.inbox && s'.airlines == s.airlines
  {
  }

  /** Signals and reports alternate: a signal comes only to an airline that owes nothing, and a report only from
      one that owes it. */
  lemma EveryStepKeepsDuty(cfg: Config, es: seq<State>, i: nat, a: nat)
    requires Execution(cfg, es) && i + 1 < |es| && a < |es[i].airlines|
    ensures Shape(cfg, es[i]) && Shape(cfg, es[i + 1]) && DutyStep(es[i], es[i + 1], a)
  {
    Reachable(cfg, es, i);
    var s, s' := es[i], es[i + 1];
    assert StepAt(cfg, es, i);
    if RaiseStop(s, s') || MapStep(cfg, s, s') {
      if MapSends(cfg, s, s') { MapSendsDuty(cfg, s, s', a); }
      else if MapCountsReport(cfg, s, s') { MapCountsDuty(cfg, s, s', a); }
      else if MapReplies(cfg, s, s') { MapRepliesDuty(cfg, s, s', a); }
      else { MapElseDuty(cfg, s, s', a); }
    } else if exists b: nat :: b < |s.airlines| && ListenerStep(cfg, s, s', b) {
      var b: nat :| b < |s.airlines| && ListenerStep(cfg, s, s', b);
      if ListenerHears(s, s', b) || ListenerHearsEnd(cfg, s, s', b) { ListenerHearsDuty(cfg, s, s', b, a); }
      else if ListenerReports(cfg, s, s', b) { ListenerReportsDuty(cfg, s, s', b, a); }
      else { ListenerElseDuty(cfg, s, s', b, a); }
    } else {
      var p: nat :| p < |s.planes| && PlaneStep(cfg, s, s', p);
      if PlaneReports(cfg, s, s', p) { PlaneReportsDuty(cfg, s, s', p, a); }
      else { PlaneElseDuty(cfg, s, s', p, a); }
    }
  }

  // ---------------------------------------------------------------- counted over an execution

  /** How many signals for the phase airline a was sent in the first i steps. */
  ghost function SignalsSent(es: seq<State>, a: nat, ph: Phase, i: nat): nat
    requires i < |es|
  {
    if i == 0 then 0
    else SignalsSent(es, a, ph, i - 1)
         + if a < |es[i - 1].airlines| && a < |es[i].airlines| && Gets(es[i - 1], es[i], a, SignalOf(ph)) then 1 else 0
  }

  /** How many reports for the phase it sent. */
  ghost function ReportsSent(es: seq<State>, a: nat, ph: Phase, i: nat): nat
    requires i < |es|
  {
    if i == 0 then 0 else ReportsSent(es, a, ph, i - 1) + if Reports(es[i - 1], es[i], a, ph) then 1 else 0
  }

  lemma StepCounts(s: State, s': State, a: nat, ph: Phase)
    requires a < |s.airlines| == |s'.airlines| && a < |s.past.duties| == |s'.past.duties| && DutyStep(s, s', a)
    requires Gets(s, s', a, End) ==> !Owing(s.past.duties[a], ph)
    ensures (if Owing(s'.past.duties[a], ph) then 1 else 0)
            == (if Owing(s.past.duties[a], ph) then 1 else 0)
               + (if Gets(s, s', a, SignalOf(ph)) then 1 else 0) - (if Reports(s, s', a, ph) then 1 else 0)
  {
  }

  /** One AirlineDone for every Step and one AirlineStatus for every Continue: at any moment of any execution the
      numbers agree, but for the one report that may still be owed. */
  lemma {:induction false} OneReportPerSignal(cfg: Config, es: seq<State>, i: nat, a: nat, ph: Phase)
    requires Execution(cfg, es) && i < |es| && a < cfg.Airlines()
    ensures Shape(cfg, es[i])
    ensures SignalsSent(es, a, ph, i) == ReportsSent(es, a, ph, i) + if Owing(es[i].past.duties[a], ph) then 1 else 0
    decreases i
  {
    Reachable(cfg, es, i);
    if i > 0 {
      OneReportPerSignal(cfg, es, i - 1, a, ph);
      EveryStepKeepsDuty(cfg, es, i - 1, a);
      StepCounts(es[i - 1], es[i], a, ph);
    }
  }

  /** When the map stands between turns nothing is owed. */
  lemma NothingOwedBetweenTurns(cfg: Config, es: seq<State>, i: nat, a: nat, ph: Phase)
    requires Execution(cfg, es) && i < |es| && es[i].mapPc == Deciding && a < cfg.Airlines()
    ensures SignalsSent(es, a, ph, i) == ReportsSent(es, a, ph, i)
  {
    OneReportPerSignal(cfg, es, i, a, ph);
    Reachable(cfg, es, i);
    assert DutyFits(es[i].mapPc, a, es[i].past.duties[a]);
  }
}
