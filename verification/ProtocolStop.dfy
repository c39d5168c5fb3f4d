/** How the map comes to a stop, and how it starts. */
module ProtocolStop {
  // Whatever the actions are called, the map decides by the stop flag, the turn limit and the demand that is left.

  import opened Delivery
  import opened Turns
  import opened Protocol
  import opened ProtocolInvariant
  import opened ProtocolRefinement

  // ---------------------------------------------------------------- one step

  lemma MapKeepsStop(cfg: Config, s: State, s': State)
    requires Shape(cfg, s) && MapStep(cfg, s, s')
    ensures s'.stop == s.stop && (s.stop ==> s'.turn == s.turn)
    ensures s.mapPc != Deciding ==> s'.turn == s.turn
  {
  }

  lemma ListenerKeepsStop(cfg: Config, s: State, s': State, a: nat)
    requires Shape(cfg, s) && a < |s.airlines| && ListenerStep(cfg, s, s', a)
    ensures s'.stop == s.stop && s'.turn == s.turn && s'.mapPc == s.mapPc
  {
    ListenerStepEffect(cfg, s, s', a);
  }

  lemma PlaneKeepsStop(cfg: Config, s: State, s': State, p: nat)
    requires Shape(cfg, s) && p < |s.planes| && PlaneStep(cfg, s, s', p)
    ensures s'.stop == s.stop && s'.turn == s.turn && s'.mapPc == s.mapPc
  {
  }

  /** The flag stays raised, and under it no turn is counted. */
  lemma StepObeysStop(cfg: Config, s: State, s': State)
    requires Next(cfg, s, s')
    ensures s.stop ==> s'.stop && s'.turn == s.turn
  {
    if RaiseStop(s, s') {
    } else if MapStep(cfg, s, s') {
      MapKeepsStop(cfg, s, s');
    } else if exists a: nat :: a < |s.airlines| && ListenerStep(cfg, s, s', a) {
      var a: nat :| a < |s.airlines| && ListenerStep(cfg, s, s', a);
      ListenerKeepsStop(cfg, s, s', a);
    } else {
      var p: nat :| p < |s.planes| && PlaneStep(cfg, s, s', p);
      PlaneKeepsStop(cfg, s, s', p);
    }
  }

  /** What a map at the head of its loop does next, in amounts and with the limit written out. */
  lemma StepDecides(cfg: Config, s: State, s': State)
    requires Next(cfg, s, s') && s.mapPc == Deciding && s'.mapPc != s.mapPc
    ensures var over := s.stop || s.turn >= 70000
                        || forall c, i | 0 <= c < |s.cities| && 0 <= i < |s.cities[c]| :: s.cities[c][i].amount == 0;
            s' == if over then s.(mapPc := Sending(End, 0)) else s.(mapPc := Sending(Step, 0), turn := s.turn + 1)
  {
    ContinuesIff(s.cities, s.turn);
    if !RaiseStop(s, s') && !MapStep(cfg, s, s') {
      if exists a: nat :: a < |s.airlines| && ListenerStep(cfg, s, s', a) {
        var a: nat :| a < |s.airlines| && ListenerStep(cfg, s, s', a);
        ListenerKeepsStop(cfg, s, s', a);
      } else {
        var p: nat :| p < |s.planes| && PlaneStep(cfg, s, s', p);
        PlaneKeepsStop(cfg, s, s', p);
      }
    }
  }

  // ---------------------------------------------------------------- executions

  /** Once the flag is raised no further turn is started, however the execution goes on. */
  lemma {:induction false} StopIsObeyed(cfg: Config, es: seq<State>, i: nat, j: nat)
    requires Execution(cfg, es) && i <= j < |es| && es[i].stop
    ensures es[j].stop && es[j].turn == es[i].turn
    decreases j
  {
    if i < j {
      StopIsObeyed(cfg, es, i, j - 1);
      assert StepAt(cfg, es, j - 1);
      StepObeysStop(cfg, es[j - 1], es[j]);
    }
  }

  /** So at most the turn under way is completed. */
  lemma AtMostOneTurnMore(cfg: Config, es: seq<State>, i: nat, j: nat)
    requires Execution(cfg, es) && i <= j < |es| && es[i].stop
    ensures |es[j].past.orders| <= |es[i].past.orders| + 1
    ensures ModeOf(es[i].mapPc) == Idle || ModeOf(es[i].mapPc) == Closing ==>
              |es[j].past.orders| <= |es[i].past.orders|
  {
    StopIsObeyed(cfg, es, i, j);
    Reachable(cfg, es, i);
    Reachable(cfg, es, j);
    assert HistoryInv(cfg, es[i]) && HistoryInv(cfg, es[j]);
  }

  /** At the head of its loop the map goes on if and only if nobody asked for an end, the limit is not reached and some
      city asks for something. */
  lemma MapDecides(cfg: Config, es: seq<State>, i: nat)
    requires Execution(cfg, es) && i + 1 < |es| && es[i].mapPc == Deciding && es[i + 1].mapPc != Deciding
    ensures var s, s' := es[i], es[i + 1];
            var over := s.stop || s.turn >= 70000
                        || forall c, k | 0 <= c < |s.cities| && 0 <= k < |s.cities[c]| :: s.cities[c][k].amount == 0;
            && s'.cities == s.cities
            && (over ==> s'.mapPc == Sending(End, 0) && s'.turn == s.turn)
            && (!over ==> s'.mapPc == Sending(Step, 0) && s'.turn == s.turn + 1)
  {
    assert StepAt(cfg, es, i);
    StepDecides(cfg, es[i], es[i + 1]);
  }

  // ---------------------------------------------------------------- what is possible

  /** The signal can come at any time. */
  lemma SignalAtAnyTime(cfg: Config, es: seq<State>)
    requires Execution(cfg, es) && !es[|es| - 1].stop
    ensures Execution(cfg, es + [es[|es| - 1].(stop := true)])
  {
    var last := |es| - 1;
    var s, s' := es[last], es[last].(stop := true);
    var fs := es + [s'];
    Reachable(cfg, es, last);
    assert RaiseStop(s, s') && Next(cfg, s, s');
    forall i: nat | i + 1 < |fs| ensures StepAt(cfg, fs, i) {
      if i < last {
        assert StepAt(cfg, es, i);
      }
    }
  }

  /** Every start of the simulation is the start of an execution, in which all planes wait for their first step. */
  lemma EveryStartIsPossible(cfg: Config, w: World) returns (s: State)
    requires cfg.Valid() && Turns.Initial(w) && Routes(cfg.dist, |w.cities|, cfg.far) && |w.planes| == |cfg.owner|
    ensures Execution(cfg, [s]) && s.cities == w.cities && Bodies(s.planes) == w.planes && !s.stop && s.turn == 0
  {
    var planes := seq(|w.planes|, p requires 0 <= p < |w.planes| => PlaneThread(AtStep, [], w.planes[p]));
    var airlines := seq(cfg.Airlines(), a => Airline(Listening, [], Free, 0, Second));
    var duties := seq(cfg.Airlines(), a => Duty(Second, Acked));
    assert Bodies(planes) == w.planes;
    s := State(Deciding, w.cities, 0, [], false, airlines, planes, History([w], [], w, [], duties));
  }
}
