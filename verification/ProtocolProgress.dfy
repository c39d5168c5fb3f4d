/**
 The interleaved system always moves on: no reachable state but the final one is stuck, whatever the capacity of
 the queues.  With the measure that every step lowers this brings every execution to the final state, as
 `ProtocolOutcome` shows.
 */
module ProtocolProgress {
  import opened Delivery
  import opened Turns
  import opened Protocol
  import opened ProtocolInvariant
  import opened ProtocolControl
  import opened ListenerControl
  import opened MapControl
  import opened ProtocolTraffic
  import opened ProtocolBooks
  import opened ProtocolRefinement

  // ---------------------------------------------------------------- who can step

  ghost predicate CanStep(cfg: Config, s: State)
    requires Shape(cfg, s)
  {
    exists s' :: ThreadStep(cfg, s, s')
  }

  ghost predicate MapCan(cfg: Config, s: State)
    requires Shape(cfg, s)
  {
    exists s' :: MapStep(cfg, s, s')
  }

  ghost predicate ListenerCan(cfg: Config, s: State, a: nat)
    requires Shape(cfg, s) && a < |s.airlines|
  {
    exists s' :: ListenerStep(cfg, s, s', a)
  }

  ghost predicate PlaneCan(cfg: Config, s: State, p: nat)
    requires Shape(cfg, s) && p < |s.planes|
  {
    exists s' :: PlaneStep(cfg, s, s', p)
  }

  lemma SomeoneCan(cfg: Config, s: State)
    requires Shape(cfg, s)
    requires MapCan(cfg, s) || (exists a: nat :: a < |s.airlines| && ListenerCan(cfg, s, a)) ||
             (exists p: nat :: p < |s.planes| && PlaneCan(cfg, s, p))
    ensures CanStep(cfg, s)
  {
    if MapCan(cfg, s) {
      var s' :| MapStep(cfg, s, s');
      assert ThreadStep(cfg, s, s');
    } else if exists a: nat :: a < |s.airlines| && ListenerCan(cfg, s, a) {
      var a: nat :| a < |s.airlines| && ListenerCan(cfg, s, a);
      var s' :| ListenerStep(cfg, s, s', a);
      assert ThreadStep(cfg, s, s');
    } else {
      var p: nat :| p < |s.planes| && PlaneCan(cfg, s, p);
      var s' :| PlaneStep(cfg, s, s', p);
      assert ThreadStep(cfg, s, s');
    }
  }

  // ---------------------------------------------------------------- listeners

  lemma ListenerHearsCan(cfg: Config, s: State, a: nat)
    requires Inv(cfg, s) && a < |s.airlines| && s.airlines[a].pc == Listening && s.airlines[a].inbox != []
    ensures ListenerCan(cfg, s, a)
  {
    var al := s.airlines[a];
    match al.inbox[0]
    case Control(Step) =>
      var s' := SetDuty(SetAirline(s, a, al.(pc := WantLock(Step), inbox := al.inbox[1..], stage := First)), a,
                        Duty(First, Active));
      assert ListenerHears(s, s', a);
      assert ListenerStep(cfg, s, s', a);
    case Control(Continue) =>
      var s' := SetDuty(SetAirline(s, a, al.(pc := WantLock(Continue), inbox := al.inbox[1..], stage := Second)), a,
                        Duty(Second, Active));
      assert ListenerHears(s, s', a);
      assert ListenerStep(cfg, s, s', a);
    case Control(End) =>
      var s' := SetAirline(s, a, al.(pc := Ending(cfg.first[a]), inbox := al.inbox[1..]));
      assert ListenerHearsEnd(cfg, s, s', a);
      assert ListenerStep(cfg, s, s', a);
    case StockReply(p, load) =>
      var s' := SetAirline(s, a, al.(pc := Forwarding(p, NewStock(Amounts(load))), inbox := al.inbox[1..]));
      assert ListenerHears(s, s', a);
      assert ListenerStep(cfg, s, s', a);
    case DestinationsReply(p, l) =>
      var s' := SetAirline(s, a, al.(pc := Forwarding(p, NewDestinations(l)), inbox := al.inbox[1..]));
      assert ListenerHears(s, s', a);
      assert ListenerStep(cfg, s, s', a);
  }

  /** A listener in the middle of something only ever waits for the lock, for room to report, for its planes to
      leave, or for a message. */
  lemma ListenerMoves(cfg: Config, s: State, a: nat)
    requires Inv(cfg, s) && a < |s.airlines|
    requires match s.airlines[a].pc
             case Listening => s.airlines[a].inbox != []
             case WantLock(_) => s.airlines[a].lock == Free
             case Announcing(_) => |s.inbox| < cfg.mapRoom
             case Joining => forall p | 0 <= p < |s.planes| && cfg.owner[p] == a :: s.planes[p].pc == Exited
             case Gone => false
             case _ => true
    ensures ListenerCan(cfg, s, a)
  {
    var al := s.airlines[a];
    OwnRange(cfg, a);
    assert AirlineControl(cfg, s, a);
    match al.pc
    case Listening =>
      ListenerHearsCan(cfg, s, a);
    case WantLock(sig) =>
      var s' := SetAirline(s, a, al.(pc := Counting(sig, cfg.first[a]), lock := Listener, left := 0));
      assert ListenerLocks(cfg, s, s', a);
      assert ListenerStep(cfg, s, s', a);
    case Counting(sig, j) =>
      if j == cfg.first[a + 1] {
        var s' := SetAirline(s, a, al.(pc := if al.left == 0 then Announcing(sig)
                                             else Broadcasting(sig, cfg.first[a])));
        assert ListenerCounted(cfg, s, s', a);
        assert ListenerStep(cfg, s, s', a);
      } else {
        var s' := SetAirline(s, a, al.(pc := Counting(sig, j + 1),
                                       left := al.left + if s.planes[j].body.done then 0 else 1));
        assert ListenerCounts(cfg, s, s', a);
        assert ListenerStep(cfg, s, s', a);
      }
    case Announcing(_) =>
      var s' := SetDuty(SetAirline(s.(inbox := s.inbox + [Report(al.stage, a)]), a, al.(pc := Unlocking)), a,
                        Duty(al.stage, Reported));
      assert ListenerReports(cfg, s, s', a);
      assert ListenerStep(cfg, s, s', a);
    case Broadcasting(_, _) =>
      BroadcastMoves(cfg, s, a);
    case Unlocking =>
      var s' := SetAirline(s, a, al.(pc := Listening, lock := Free));
      assert ListenerUnlocks(s, s', a);
      assert ListenerStep(cfg, s, s', a);
    case Forwarding(p, msg) =>
      ForwardTarget(cfg, s, a);
      var s' := SetPlane(SetAirline(s, a, al.(pc := Listening)), p, s.planes[p].(mail := s.planes[p].mail + [msg]));
      assert ListenerForwards(cfg, s, s', a);
      assert ListenerStep(cfg, s, s', a);
    case Ending(_) =>
      EndMoves(cfg, s, a);
    case Joining =>
      var s' := SetAirline(s, a, al.(pc := Gone));
      assert ListenerJoins(cfg, s, s', a);
      assert ListenerStep(cfg, s, s', a);
    case Gone =>
  }

  /** A broadcast never blocks: the mailbox it pushes to is empty. */
  lemma BroadcastMoves(cfg: Config, s: State, a: nat)
    requires Inv(cfg, s) && a < |s.airlines| && s.airlines[a].pc.Broadcasting?
    ensures ListenerCan(cfg, s, a)
  {
    var al := s.airlines[a];
    var j := al.pc.j;
    OwnRange(cfg, a);
    BusyIsActive(cfg, s, a);
    assert AirlineControl(cfg, s, a);
    if j == cfg.first[a + 1] {
      var s' := SetAirline(s, a, al.(pc := Unlocking));
      assert ListenerBroadcasted(cfg, s, s', a);
      assert ListenerStep(cfg, s, s', a);
    } else {
      CountedByDone(cfg, s, a, j);
      var pl := s.planes[j];
      var next := SetAirline(s, a, al.(pc := Broadcasting(al.pc.signal, j + 1)));
      var s' := if pl.body.done then next else SetPlane(next, j, pl.(mail := pl.mail + [Go(al.pc.signal)]));
      assert ListenerBroadcasts(cfg, s, s', a);
      assert ListenerStep(cfg, s, s', a);
    }
  }

  lemma EndMoves(cfg: Config, s: State, a: nat)
    requires Inv(cfg, s) && a < |s.airlines| && s.airlines[a].pc.Ending?
    ensures ListenerCan(cfg, s, a)
  {
    var al := s.airlines[a];
    var j := al.pc.j;
    OwnRange(cfg, a);
    EndingIsDismissed(cfg, s, a);
    assert AirlineControl(cfg, s, a);
    if j == cfg.first[a + 1] {
      var s' := SetAirline(s, a, al.(pc := Joining));
      assert ListenerEnded(cfg, s, s', a);
      assert ListenerStep(cfg, s, s', a);
    } else {
      assert PlaneInv(cfg, s, j);
      var pl := s.planes[j];
      var next := SetAirline(s, a, al.(pc := Ending(j + 1)));
      var s' := if pl.body.done then next else SetPlane(next, j, pl.(mail := pl.mail + [Go(End)]));
      assert ListenerEnds(cfg, s, s', a);
      assert ListenerStep(cfg, s, s', a);
    }
  }

  // ---------------------------------------------------------------- planes

  /** A plane only ever waits for a message, for room in the map's queue, or for the lock. */
  lemma PlaneMovesOn(cfg: Config, s: State, p: nat)
    requires Inv(cfg, s) && p < |s.planes|
    requires match s.planes[p].pc
             case AtStep => s.planes[p].mail != []
             case AtContinue => s.planes[p].mail != []
             case AwaitingStock => s.planes[p].mail != []
             case AwaitingDestinations => s.planes[p].mail != []
             case Unloading => |s.inbox| < cfg.mapRoom
             case Asking => |s.inbox| < cfg.mapRoom
             case Reporting(_) => |s.inbox| < cfg.mapRoom
             case Ready(_) => s.airlines[cfg.owner[p]].lock == Free
             case Releasing(_) => true
             case Exited => false
    ensures PlaneCan(cfg, s, p)
  {
    var pl, a := s.planes[p], cfg.owner[p];
    var rest := if pl.mail != [] then pl.mail[1..] else [];
    match pl.pc
    case AtStep =>
      var s' := SetPlane(s, p, if pl.mail[0] == Go(Step)
                               then pl.(mail := rest, pc := if pl.body.distance == 0 then Unloading else Ready(First))
                               else pl.(mail := rest, pc := Exited, body := pl.body.(done := true)));
      assert PlaneSteps(s, s', p);
      assert PlaneStep(cfg, s, s', p);
    case AtContinue =>
      if pl.mail[0] == Go(Continue) {
        var s' := SetPlane(s, p, if pl.body.distance == 0 then pl.(mail := rest, pc := Asking)
                                 else pl.(mail := rest, pc := Ready(Second),
                                          body := pl.body.(distance := pl.body.distance - 1)));
        assert PlaneContinues(s, s', p);
        assert PlaneStep(cfg, s, s', p);
      } else {
        BailMoves(cfg, s, p);
      }
    case AwaitingStock =>
      if GoodAmounts(pl.mail[0], pl.body.load) {
        var load := WithAmounts(pl.body.load, pl.mail[0].amounts);
        var s' := SetPlane(s, p, pl.(mail := rest, pc := Ready(First),
                                     body := pl.body.(load := load, done := pl.body.done || Spent(load))));
        assert PlaneTakesStock(s, s', p);
        assert PlaneStep(cfg, s, s', p);
      } else {
        BailMoves(cfg, s, p);
      }
    case AwaitingDestinations =>
      if pl.mail[0].NewDestinations? {
        var s' := SetPlane(s, p, pl.(mail := rest, pc := Ready(Second),
                                     body := Choose(pl.body, FirstFive(pl.mail[0].list))));
        assert PlaneChooses(s, s', p);
        assert PlaneStep(cfg, s, s', p);
      } else {
        BailMoves(cfg, s, p);
      }
    case Unloading =>
      var s' := SetPlane(s.(inbox := s.inbox + [UnloadStock(p, pl.body.city, pl.body.load)]), p,
                         pl.(pc := AwaitingStock));
      assert PlaneUnloads(cfg, s, s', p);
      assert PlaneStep(cfg, s, s', p);
    case Asking =>
      var s' := SetPlane(s.(inbox := s.inbox + [CheckDestinations(p, pl.body.city, pl.body.load)]), p,
                         pl.(pc := AwaitingDestinations));
      assert PlaneAsks(cfg, s, s', p);
      assert PlaneStep(cfg, s, s', p);
    case _ =>
      PlaneLockMoves(cfg, s, p);
  }

  lemma BailMoves(cfg: Config, s: State, p: nat)
    requires Inv(cfg, s) && p < |s.planes| && s.planes[p].mail != []
    requires (s.planes[p].pc == AwaitingStock && !GoodAmounts(s.planes[p].mail[0], s.planes[p].body.load))
             || (s.planes[p].pc == AtContinue && s.planes[p].mail[0] != Go(Continue))
             || (s.planes[p].pc == AwaitingDestinations && !s.planes[p].mail[0].NewDestinations?)
    ensures PlaneCan(cfg, s, p)
  {
    var s' := SetPlane(s, p, s.planes[p].(mail := s.planes[p].mail[1..], pc := Exited));
    assert PlaneBails(s, s', p);
    assert PlaneStep(cfg, s, s', p);
  }

  lemma PlaneLockMoves(cfg: Config, s: State, p: nat)
    requires Inv(cfg, s) && p < |s.planes|
    requires (s.planes[p].pc.Reporting? && |s.inbox| < cfg.mapRoom)
             || (s.planes[p].pc.Ready? && s.airlines[cfg.owner[p]].lock == Free)
             || s.planes[p].pc.Releasing?
    ensures PlaneCan(cfg, s, p)
  {
    var pl, a := s.planes[p], cfg.owner[p];
    match pl.pc
    case Reporting(ph) =>
      var s' := SetDuty(SetPlane(s.(inbox := s.inbox + [Report(s.airlines[a].stage, a)]), p,
                                 pl.(pc := Releasing(ph))), a, Duty(s.airlines[a].stage, Reported));
      assert PlaneReports(cfg, s, s', p);
      assert PlaneStep(cfg, s, s', p);
    case Ready(ph) =>
      var left := s.airlines[a].left - 1;
      var s' := SetPlane(SetAirline(s, a, s.airlines[a].(lock := HeldBy(p), left := left)), p,
                         pl.(pc := if left == 0 then Reporting(ph) else Releasing(ph)));
      assert PlaneLocks(cfg, s, s', p);
      assert PlaneStep(cfg, s, s', p);
    case Releasing(ph) =>
      var s' := SetPlane(SetAirline(s, a, s.airlines[a].(lock := Free)), p,
                         pl.(pc := if pl.body.done then Exited else Home(ph)));
      assert PlaneReleases(cfg, s, s', p);
      assert PlaneStep(cfg, s, s', p);
  }

  // ---------------------------------------------------------------- never stuck

  /** Whoever holds an airline's lock can go on, as long as the map's queue has room. */
  lemma LockHolderMoves(cfg: Config, s: State, a: nat)
    requires Inv(cfg, s) && a < |s.airlines| && s.airlines[a].lock != Free && |s.inbox| < cfg.mapRoom
    ensures CanStep(cfg, s)
  {
    assert AirlineControl(cfg, s, a);
    if s.airlines[a].lock == Listener {
      ListenerMoves(cfg, s, a);
    } else {
      PlaneMovesOn(cfg, s, s.airlines[a].lock.plane);
    }
    SomeoneCan(cfg, s);
  }

  /** While the map waits with an empty queue, an airline that owes a report can move. */
  lemma ActiveAirlineMoves(cfg: Config, s: State, a: nat)
    requires Inv(cfg, s) && a < |s.airlines| && s.inbox == [] && s.mapPc.Collecting?
    requires s.past.duties[a].Duty? && s.past.duties[a].progress == Active
    ensures CanStep(cfg, s)
  {
    var al, ph := s.airlines[a], s.past.duties[a].phase;
    OwnRange(cfg, a);
    assert AirlineControl(cfg, s, a);
    if al.lock != Free {
      LockHolderMoves(cfg, s, a);
    } else if al.pc == Listening && al.inbox == [] {
      var p := CountWitness(s.planes, cfg.first[a], cfg.first[a + 1], ph);
      PendingMoves(cfg, s, p);
      SomeoneCan(cfg, s);
    } else {
      ListenerMoves(cfg, s, a);
      SomeoneCan(cfg, s);
    }
  }

  lemma PendingMoves(cfg: Config, s: State, p: nat)
    requires Inv(cfg, s) && p < |s.planes| && s.inbox == [] && s.mapPc.Collecting?
    requires var a := cfg.owner[p];
             && s.past.duties[a].Duty? && s.past.duties[a].progress == Active
             && Pending(s.past.duties[a].phase, s.planes[p].pc)
             && s.airlines[a].lock == Free && s.airlines[a].pc == Listening && s.airlines[a].inbox == []
    ensures PlaneCan(cfg, s, p)
  {
    assert PlaneInv(cfg, s, p);
    assert TokenInv(cfg, s, p);
    PlaneMovesOn(cfg, s, p);
  }

  lemma MapReceives(cfg: Config, s: State)
    requires Inv(cfg, s) && Receiving(s)
    ensures MapCan(cfg, s)
  {
    var m := s.inbox[0];
    assert InboxInv(cfg, s);
    assert MapMessageOk(s, m);
    assert MapKeys(s.inbox)[0] == MapKey(m);
    assert HistoryInv(cfg, s);
    match m
    case UnloadStock(p, city, load) =>
      WaitingMode(cfg, s, p);
      WaitingBody(cfg, s, p);
      var (c, l) := Unload(s.cities[city], load);
      var s' := s.(inbox := s.inbox[1..], cities := s.cities[city := c],
                   mapPc := Replying(First, s.mapPc.reports, cfg.owner[p], StockReply(p, l)),
                   past := Served(s.past, p));
      assert MapServes(cfg, s, s');
      assert MapStep(cfg, s, s');
    case CheckDestinations(p, city, load) =>
      WaitingMode(cfg, s, p);
      WaitingBody(cfg, s, p);
      var k := Kept(s.cities, cfg.dist, city, load, |s.cities|);
      SortedIsSorted(k);
      var s' := s.(inbox := s.inbox[1..],
                   mapPc := Replying(Second, s.mapPc.reports, cfg.owner[p], DestinationsReply(p, Sorted(k))));
      assert MapAnswers(cfg, s, s', Sorted(k));
      assert MapStep(cfg, s, s');
    case _ =>
      MapTakesReport(cfg, s);
  }

  lemma MapTakesReport(cfg: Config, s: State)
    requires Inv(cfg, s) && Receiving(s) && (s.inbox[0].AirlineDone? || s.inbox[0].AirlineStatus?)
    ensures MapCan(cfg, s)
  {
    var s1 := s.(inbox := s.inbox[1..]);
    MapNeverRejects(cfg, s, s1);
    var s' := SetDuty(s.(inbox := s.inbox[1..], mapPc := Collecting(s.mapPc.phase, s.mapPc.reports + 1)),
                      s.inbox[0].airline, Duty(s.mapPc.phase, Acked));
    assert MapCountsReport(cfg, s, s');
    assert MapStep(cfg, s, s');
  }

  lemma MapSendMoves(cfg: Config, s: State)
    requires Inv(cfg, s) && (s.mapPc == Deciding || s.mapPc.Sending?)
    ensures MapCan(cfg, s)
  {
    assert MapInv(cfg, s);
    if s.mapPc == Deciding {
      if s.stop || !Continues(s.cities, s.turn) {
        assert MapStops(s, s.(mapPc := Sending(End, 0)));
        assert MapStep(cfg, s, s.(mapPc := Sending(End, 0)));
      } else {
        var s' := s.(mapPc := Sending(Step, 0), turn := s.turn + 1);
        assert MapStarts(s, s');
        assert MapStep(cfg, s, s');
      }
    } else if s.mapPc.k == |s.airlines| {
      var s' := s.(mapPc := match s.mapPc.signal
                            case Step => Collecting(First, 0)
                            case Continue => Collecting(Second, 0)
                            case End => Finished);
      assert MapHasSent(s, s');
      assert MapStep(cfg, s, s');
    } else {
      var k := s.mapPc.k;
      assert DutyFits(s.mapPc, k, s.past.duties[k]);
      assert AirlineControl(cfg, s, k);
      var al := s.airlines[k];
      var s' := SetDuty(SetAirline(s.(mapPc := s.mapPc.(k := k + 1)), k,
                                   al.(inbox := al.inbox + [Control(s.mapPc.signal)])), k, ToldOf(s.mapPc.signal));
      assert MapSends(cfg, s, s');
      assert MapStep(cfg, s, s');
    }
  }

  lemma AllReportedMoves(cfg: Config, s: State)
    requires Inv(cfg, s) && s.mapPc.Collecting? && s.mapPc.reports == |s.airlines|
    ensures MapCan(cfg, s)
  {
    if s.mapPc.phase == First {
      assert MapContinues(s, s.(mapPc := Sending(Continue, 0)));
      assert MapStep(cfg, s, s.(mapPc := Sending(Continue, 0)));
    } else {
      var w := World(s.cities, Bodies(s.planes));
      var s' := s.(mapPc := Deciding,
                   past := s.past.(worlds := s.past.worlds + [w], orders := s.past.orders + [s.past.served],
                                   now := w, served := []));
      assert MapEndsTurn(s, s');
      assert MapStep(cfg, s, s');
    }
  }

  lemma CollectingMoves(cfg: Config, s: State)
    requires Inv(cfg, s) && s.mapPc.Collecting?
    ensures CanStep(cfg, s)
  {
    assert MapInv(cfg, s);
    AckedBounds(s.past.duties);
    if s.mapPc.reports == |s.airlines| {
      AllReportedMoves(cfg, s);
      SomeoneCan(cfg, s);
    } else if s.inbox != [] {
      MapReceives(cfg, s);
      SomeoneCan(cfg, s);
    } else {
      var a :| 0 <= a < |s.past.duties| && !(s.past.duties[a].Duty? && s.past.duties[a].progress == Acked);
      OwingAirlineMoves(cfg, s, a);
    }
  }

  lemma OwingAirlineMoves(cfg: Config, s: State, a: nat)
    requires Inv(cfg, s) && s.mapPc.Collecting? && s.inbox == [] && a < |s.airlines|
    requires !(s.past.duties[a].Duty? && s.past.duties[a].progress == Acked)
    ensures CanStep(cfg, s)
  {
    assert MapInv(cfg, s);
    assert DutyFits(s.mapPc, a, s.past.duties[a]);
    assert InboxInv(cfg, s);
    if s.past.duties[a].progress == Active {
      ActiveAirlineMoves(cfg, s, a);
    } else {
      assert AirlineControl(cfg, s, a);
      ListenerMoves(cfg, s, a);
      SomeoneCan(cfg, s);
    }
  }

  lemma ReplyMoves(cfg: Config, s: State)
    requires Shape(cfg, s) && s.mapPc.Replying? && s.mapPc.to < |s.airlines|
    requires |s.airlines[s.mapPc.to].inbox| < cfg.airlineRoom
    ensures MapCan(cfg, s)
  {
    var t := s.mapPc.to;
    var al := s.airlines[t];
    var s' := SetAirline(s.(mapPc := Collecting(s.mapPc.phase, s.mapPc.reports)), t,
                         al.(inbox := al.inbox + [s.mapPc.reply]));
    assert MapReplies(cfg, s, s');
    assert MapStep(cfg, s, s');
  }

  lemma ReplyingMoves(cfg: Config, s: State)
    requires Inv(cfg, s) && s.mapPc.Replying?
    ensures CanStep(cfg, s)
  {
    ReplyTarget(cfg, s);
    var t := s.mapPc.to;
    if |s.airlines[t].inbox| < cfg.airlineRoom {
      ReplyMoves(cfg, s);
    } else {
      ListenerMoves(cfg, s, t);
    }
    SomeoneCan(cfg, s);
  }

  /** Where everything ends: the map is through and every airline process has joined its planes and left. */
  ghost predicate Final(s: State) {
    s.mapPc == Finished && forall a | 0 <= a < |s.airlines| :: s.airlines[a].pc == Gone
  }

  lemma LeavingMoves(cfg: Config, s: State, a: nat)
    requires Inv(cfg, s) && s.mapPc == Finished && a < |s.airlines| && s.airlines[a].pc != Gone
    ensures CanStep(cfg, s)
  {
    assert MapInv(cfg, s);
    assert DutyFits(s.mapPc, a, s.past.duties[a]);
    assert AirlineControl(cfg, s, a);
    if s.airlines[a].pc == Joining && exists p: nat :: p < |s.planes| && cfg.owner[p] == a && s.planes[p].pc != Exited {
      var p: nat :| p < |s.planes| && cfg.owner[p] == a && s.planes[p].pc != Exited;
      assert PlaneInv(cfg, s, p);
      PlaneMovesOn(cfg, s, p);
    } else {
      ListenerMoves(cfg, s, a);
    }
    SomeoneCan(cfg, s);
  }

  /** Deadlock freedom: with any capacities of at least one, every reachable state but the final one lets some
      thread take a step, even though reports are written, and mailboxes filled, with the lock held. */
  lemma NeverStuck(cfg: Config, es: seq<State>, i: nat)
    requires Execution(cfg, es) && i < |es| && !Final(es[i])
    ensures Shape(cfg, es[i]) && CanStep(cfg, es[i])
  {
    Reachable(cfg, es, i);
    var s := es[i];
    match s.mapPc
    case Collecting(_, _) => CollectingMoves(cfg, s);
    case Replying(_, _, _, _) => ReplyingMoves(cfg, s);
    case Finished =>
      var a :| 0 <= a < |s.airlines| && s.airlines[a].pc != Gone;
      LeavingMoves(cfg, s, a);
    case _ =>
      MapSendMoves(cfg, s);
      SomeoneCan(cfg, s);
  }

  /** In the final state every plane has left, and no queue, mailbox or lock is in use. */
  lemma FinalIsClean(cfg: Config, es: seq<State>, i: nat)
    requires Execution(cfg, es) && i < |es| && Final(es[i])
    ensures es[i].inbox == []
    ensures forall a | 0 <= a < |es[i].airlines| :: es[i].airlines[a].inbox == [] && es[i].airlines[a].lock == Free
    ensures forall p | 0 <= p < |es[i].planes| :: es[i].planes[p].pc == Exited && es[i].planes[p].mail == []
  {
    var s := es[i];
    Reachable(cfg, es, i);
    assert MapInv(cfg, s);
    forall p: nat | p < |s.planes| ensures s.planes[p].pc == Exited && s.planes[p].mail == [] {
      PlaneOwner(cfg, p);
      EndingIsDismissed(cfg, s, cfg.owner[p]);
      assert PlaneInv(cfg, s, p);
    }
    forall a: nat | a < |s.airlines| ensures s.airlines[a].inbox == [] && s.airlines[a].lock == Free {
      EndingIsDismissed(cfg, s, a);
      assert AirlineControl(cfg, s, a);
    }
    if s.inbox != [] {
      HeadHasSender(cfg, s);
    }
  }

  /** A message in the map's queue has an airline that has reported or a plane that waits behind it. */
  lemma HeadHasSender(cfg: Config, s: State)
    requires Inv(cfg, s) && s.inbox != []
    ensures || (exists a | 0 <= a < |s.past.duties| :: HasReported(s.past.duties[a]))
            || (exists p | 0 <= p < |s.planes| :: Awaiting(s.planes[p].pc))
  {
    assert InboxInv(cfg, s);
    assert MapMessageOk(s, s.inbox[0]);
  }
}
