/**
 Every step keeps the books.

 The threads' data follow the turn-by-turn simulation: the map's cities are those of the current turn with the
 unloads served so far, a plane's own load is the one the simulation gave it as soon as it has read the reply, and in
 the second phase each plane that has decided has made a decision the simulation allows.  When the map ends a turn, what
 all threads hold together is a next state of the simulation.
 */
module ProtocolBooks {
  import opened Delivery
  import opened Turns
  import opened Protocol
  import opened ProtocolInvariant
  import opened ProtocolControl
  import opened ListenerControl
  import opened MapControl
  import opened ProtocolTraffic

  ghost predicate SameHistory(s: State, s': State) {
    && s'.cities == s.cities && s'.turn == s.turn && |s'.planes| == |s.planes|
    && s'.past.worlds == s.past.worlds && s'.past.orders == s.past.orders
    && s'.past.now == s.past.now && s'.past.served == s.past.served
  }

  /** A step that changes no plane's data, position or request keeps the books. */
  lemma SameBooks(cfg: Config, s: State, s': State)
    requires Shape(cfg, s) && Books(cfg, s) && Shape(cfg, s') && SameHistory(s, s') &&
             ModeOf(s'.mapPc) == ModeOf(s.mapPc)
    requires forall q | 0 <= q < |s.planes| ::
               s'.planes[q].pc == s.planes[q].pc && s'.planes[q].body == s.planes[q].body
    requires forall q: nat :: AtMap(s', q) <==> AtMap(s, q)
    ensures Books(cfg, s')
  {
    assert HistoryInv(cfg, s);
    forall q: nat | q < |s'.planes| ensures BodyInv(cfg, s', q) {
      assert BodyInv(cfg, s, q);
      assert PastUnload(s', q) <==> PastUnload(s, q);
    }
  }

  lemma ListenerBooks(cfg: Config, s: State, s': State, a: nat)
    requires Shape(cfg, s) && Books(cfg, s) && a < |s.airlines| && Shape(cfg, s') && Traffic(cfg, s') &&
             SameHistory(s, s') && s'.mapPc == s.mapPc
    requires forall q | 0 <= q < |s.planes| ::
               s'.planes[q].pc == s.planes[q].pc && s'.planes[q].body == s.planes[q].body
    requires s'.inbox == s.inbox || s'.inbox == s.inbox + [Report(s.airlines[a].stage, a)]
    ensures Books(cfg, s')
  {
    if s'.inbox != s.inbox {
      assert MapKeys(s'.inbox) == MapKeys(s.inbox) + [OfAirline(a)];
    }
    SameBooks(cfg, s, s');
  }

  lemma MapKeepsBooks(cfg: Config, s: State, s': State)
    requires Shape(cfg, s) && ControlInv(cfg, s) && Books(cfg, s) &&
             (RaiseStop(s, s') || MapSends(cfg, s, s') || MapHasSent(s, s') || MapReplies(cfg, s, s'))
    ensures Shape(cfg, s') && Books(cfg, s')
  {
    assert MapInv(cfg, s);
    SameBooks(cfg, s, s');
  }

  lemma MapStopsBooks(cfg: Config, s: State, s': State)
    requires Shape(cfg, s) && Books(cfg, s) && MapStops(s, s')
    ensures Shape(cfg, s') && Books(cfg, s')
  {
    assert HistoryInv(cfg, s);
    forall q: nat | q < |s'.planes| ensures BodyInv(cfg, s', q) {
      assert BodyInv(cfg, s, q);
    }
  }

  lemma MapCountsReportBooks(cfg: Config, s: State, s': State)
    requires Inv(cfg, s) && MapCountsReport(cfg, s, s')
    ensures Shape(cfg, s') && Books(cfg, s')
  {
    assert InboxInv(cfg, s);
    MapPops(s.inbox);
    SameBooks(cfg, s, s');
  }

  lemma MapAnswersBooks(cfg: Config, s: State, s': State, l: seq<CityInfo>)
    requires Shape(cfg, s) && Books(cfg, s) && MapAnswers(cfg, s, s', l)
    ensures Shape(cfg, s') && Books(cfg, s')
  {
    assert HistoryInv(cfg, s);
    forall q: nat | q < |s'.planes| ensures BodyInv(cfg, s', q) {
      assert BodyInv(cfg, s, q);
    }
  }

  /** Between turns every plane rests. */
  lemma AllRest(cfg: Config, s: State, q: nat)
    requires Shape(cfg, s) && ControlInv(cfg, s) && s.mapPc == Deciding && q < |s.planes|
    ensures Resting(Second, s.planes[q])
  {
    PlaneOwner(cfg, q);
    assert MapInv(cfg, s);
    assert DutyFits(s.mapPc, cfg.owner[q], s.past.duties[cfg.owner[q]]);
    assert PlaneInv(cfg, s, q);
  }

  lemma MapStartsBooks(cfg: Config, s: State, s': State)
    requires Shape(cfg, s) && ControlInv(cfg, s) && Books(cfg, s) && MapStarts(s, s')
    ensures Shape(cfg, s') && Books(cfg, s')
  {
    assert HistoryInv(cfg, s);
    forall q: nat | q < |s'.planes| ensures BodyInv(cfg, s', q) {
      assert BodyInv(cfg, s, q);
      AllRest(cfg, s, q);
    }
  }

  // ---------------------------------------------------------------- serving

  lemma {:induction false} UnloadAllAppend(w: World, order: seq<nat>, p: nat)
    requires Turns.Ready(w.cities, w.planes) && InRange(order, |w.planes|) && p < |w.planes|
    ensures UnloadAll(w, order + [p]) == UnloadAt(UnloadAll(w, order), p)
    decreases |order|
  {
    if order == [] {
      assert UnloadAll(w, [p]) == UnloadAll(UnloadAt(w, p), []);
    } else {
      assert (order + [p])[1..] == order[1..] + [p];
      UnloadAllAppend(UnloadAt(w, order[0]), order[1..], p);
    }
  }

  lemma ServeFacts(cfg: Config, s: State, s': State)
    requires Inv(cfg, s) && MapServes(cfg, s, s')
    ensures var p := s.inbox[0].plane;
            && p < |s.planes| && s.planes[p].pc == AwaitingStock && AtMap(s, p) && p !in s.past.served
            && s.planes[p].body == s.past.now.planes[p] && Landed(s.past.now.planes[p])
            && s.inbox[0].city == s.past.now.planes[p].city && s.inbox[0].load == s.past.now.planes[p].load
            && s'.past == s.past.(now := UnloadAt(s.past.now, p), served := s.past.served + [p])
            && s'.cities == s'.past.now.cities
            && ModeOf(s.mapPc) == PhaseOne == ModeOf(s'.mapPc)
  {
    var p := s.inbox[0].plane;
    assert InboxInv(cfg, s);
    assert MapMessageOk(s, s.inbox[0]);
    assert MapKeys(s.inbox)[0] == OfPlane(p);
    WaitingMode(cfg, s, p);
    WaitingServed(cfg, s, p);
    WaitingBody(cfg, s, p);
    assert HistoryInv(cfg, s);
  }

  lemma ServeHistory(cfg: Config, s: State, s': State)
    requires Inv(cfg, s) && MapServes(cfg, s, s')
    ensures HistoryInv(cfg, s')
  {
    ServeFacts(cfg, s, s');
    assert HistoryInv(cfg, s);
    var p := s.inbox[0].plane;
    var start := s.past.worlds[|s.past.orders|];
    UnloadAtKeeps(s.past.now, p, Everything);
    UnloadAllFrame(start, s.past.served, p);
    UnloadAllAppend(start, s.past.served, p);
  }

  lemma ServeBodies(cfg: Config, s: State, s': State, q: nat)
    requires Inv(cfg, s) && MapServes(cfg, s, s') && HistoryInv(cfg, s') && q < |s.planes|
    ensures BodyInv(cfg, s', q)
  {
    ServeFacts(cfg, s, s');
    assert HistoryInv(cfg, s);
    var p := s.inbox[0].plane;
    ServedOffMap(cfg, s, s', q);
    UnloadAtKeeps(s.past.now, p, Everything);
    assert BodyInv(cfg, s, q);
    assert q in s'.past.served <==> q in s.past.served || q == p;
    if q == p {
      NotServed(cfg, s, p);
    }
  }

  /** Serving a request takes that plane's request, and no other, off the map's queue. */
  lemma ServedOffMap(cfg: Config, s: State, s': State, q: nat)
    requires Inv(cfg, s) && MapServes(cfg, s, s')
    ensures AtMap(s', q) <==> AtMap(s, q) && q != s.inbox[0].plane
  {
    assert InboxInv(cfg, s);
    MapPops(s.inbox);
  }

  lemma MapServesBooks(cfg: Config, s: State, s': State)
    requires Inv(cfg, s) && MapServes(cfg, s, s')
    ensures Shape(cfg, s') && Books(cfg, s')
  {
    ServeHistory(cfg, s, s');
    forall q: nat | q < |s'.planes| ensures BodyInv(cfg, s', q) {
      ServeBodies(cfg, s, s', q);
    }
  }

  // ---------------------------------------------------------------- phase and turn boundaries

  lemma MapContinuesBooks(cfg: Config, s: State, s': State)
    requires Inv(cfg, s) && MapContinues(s, s')
    ensures Shape(cfg, s') && Books(cfg, s')
  {
    NobodyWaits(cfg, s);
    assert HistoryInv(cfg, s);
    var start := s.past.worlds[|s.past.orders|];
    forall q: nat | q < |start.planes| && Landed(start.planes[q]) ensures q in s.past.served {
      assert BodyInv(cfg, s, q);
      ServedIfRested(cfg, s, q);
    }
    forall q: nat | q < |s'.planes| ensures BodyInv(cfg, s', q) {
      assert BodyInv(cfg, s, q);
      assert Resting(First, s.planes[q]);
    }
  }

  lemma ServedIfRested(cfg: Config, s: State, q: nat)
    requires Inv(cfg, s) && s.mapPc == Collecting(First, |s.airlines|) && q < |s.planes|
    requires Landed(s.past.worlds[|s.past.orders|].planes[q])
    ensures q in s.past.served
  {
    NobodyWaits(cfg, s);
    assert BodyInv(cfg, s, q);
    assert Resting(First, s.planes[q]);
  }

  /** The turn that ends is a turn of the simulation, with the map's order of service. */
  lemma TurnCompleted(cfg: Config, s: State)
    requires Inv(cfg, s) && s.mapPc == Collecting(Second, |s.airlines|)
    ensures Turn(cfg.dist, s.past.worlds[|s.past.orders|], s.past.served, World(s.cities, Bodies(s.planes)))
    ensures Continues(s.past.worlds[|s.past.orders|].cities, |s.past.orders|)
  {
    NobodyWaits(cfg, s);
    assert HistoryInv(cfg, s);
    forall q: nat | q < |s.planes|
      ensures Decide(cfg.dist, s.past.now.cities, s.past.now.planes[q], s.planes[q].body)
    {
      assert BodyInv(cfg, s, q);
      assert Resting(Second, s.planes[q]);
    }
  }

  lemma RunExtends(dist: seq<seq<int>>, ws: seq<World>, os: seq<seq<nat>>, w: World, o: seq<nat>)
    requires Run(dist, ws, os) && Turn(dist, ws[|os|], o, w) && Continues(ws[|os|].cities, |os|)
    ensures Run(dist, ws + [w], os + [o])
  {
  }

  lemma TurnRecorded(cfg: Config, s: State)
    requires Inv(cfg, s) && s.mapPc == Collecting(Second, |s.airlines|)
    ensures var w := World(s.cities, Bodies(s.planes));
            Valid(w) && Run(cfg.dist, s.past.worlds + [w], s.past.orders + [s.past.served])
  {
    TurnCompleted(cfg, s);
    assert HistoryInv(cfg, s);
    var h := s.past;
    var start, w := h.worlds[|h.orders|], World(s.cities, Bodies(s.planes));
    TurnKeeps(cfg.dist, start, h.served, w, cfg.far, Everything);
    RunExtends(cfg.dist, h.worlds, h.orders, w, h.served);
  }

  lemma EndedHistory(cfg: Config, s: State, s': State)
    requires Inv(cfg, s) && MapEndsTurn(s, s')
    ensures HistoryInv(cfg, s')
    ensures s'.past.worlds[|s'.past.orders|] == s'.past.now == World(s'.cities, Bodies(s'.planes))
  {
    TurnRecorded(cfg, s);
    assert HistoryInv(cfg, s);
  }

  lemma MapEndsTurnBooks(cfg: Config, s: State, s': State)
    requires Inv(cfg, s) && MapEndsTurn(s, s')
    ensures Shape(cfg, s') && Books(cfg, s')
  {
    EndedHistory(cfg, s, s');
    forall q: nat | q < |s'.planes| ensures BodyInv(cfg, s', q) {
    }
  }

  // ---------------------------------------------------------------- planes

  /** A plane's step that keeps its data in line keeps the books. */
  lemma OnePlaneBooks(cfg: Config, s: State, s': State, p: nat)
    requires Shape(cfg, s) && Books(cfg, s) && Shape(cfg, s') && SameHistory(s, s') && s'.mapPc == s.mapPc &&
             p < |s.planes|
    requires s'.planes == s.planes[p := s'.planes[p]]
    requires forall q: nat | q != p :: AtMap(s', q) <==> AtMap(s, q)
    requires HistoryInv(cfg, s) && BodyInv(cfg, s', p)
    ensures Books(cfg, s')
  {
    forall q: nat | q < |s'.planes| ensures BodyInv(cfg, s', q) {
      assert BodyInv(cfg, s, q);
      if q != p {
        assert PastUnload(s', q) <==> PastUnload(s, q);
      }
    }
  }

  lemma SameInbox(s: State, s': State)
    requires s'.inbox == s.inbox
    ensures forall q: nat :: AtMap(s', q) <==> AtMap(s, q)
  {
  }

  /** Before it is served a plane is as it was when the turn started. */
  lemma NotServed(cfg: Config, s: State, p: nat)
    requires Shape(cfg, s) && Books(cfg, s) && p < |s.planes| && p !in s.past.served
    ensures s.past.now.planes[p] == s.past.worlds[|s.past.orders|].planes[p]
  {
    assert HistoryInv(cfg, s);
    UnloadAllFrame(s.past.worlds[|s.past.orders|], s.past.served, p);
  }

  /** The signal a plane has in hand tells what the map is doing. */
  lemma SignalMode(cfg: Config, s: State, p: nat)
    requires Shape(cfg, s) && ControlInv(cfg, s) && p < |s.planes| && s.planes[p].mail != []
    ensures s.planes[p].pc == AtStep ==> s.planes[p].mail == [Go(Step)] || s.planes[p].mail == [Go(End)]
    ensures s.planes[p].pc == AtStep && s.planes[p].mail[0] == Go(Step) ==> ModeOf(s.mapPc) == PhaseOne
    ensures s.planes[p].pc == AtStep && s.planes[p].mail[0] == Go(End) ==> ModeOf(s.mapPc) == Closing
    ensures s.planes[p].pc == AtContinue ==> s.planes[p].mail == [Go(Continue)] && ModeOf(s.mapPc) == PhaseTwo
    ensures s.planes[p].pc == AtStep || s.planes[p].pc == AtContinue ==> !s.planes[p].body.done
  {
    PlaneOwner(cfg, p);
    assert MapInv(cfg, s);
    assert DutyFits(s.mapPc, cfg.owner[p], s.past.duties[cfg.owner[p]]);
    assert PlaneInv(cfg, s, p);
  }

  lemma PlaneStepsBooks(cfg: Config, s: State, s': State, p: nat)
    requires Shape(cfg, s) && ControlInv(cfg, s) && Books(cfg, s) && p < |s.planes| && PlaneSteps(s, s', p)
    ensures Shape(cfg, s') && Books(cfg, s')
  {
    SignalMode(cfg, s, p);
    assert HistoryInv(cfg, s);
    assert BodyInv(cfg, s, p);
    SameInbox(s, s');
    if ModeOf(s.mapPc) == PhaseOne {
      NotServed(cfg, s, p);
    }
    OnePlaneBooks(cfg, s, s', p);
  }

  lemma PlaneUnloadsBooks(cfg: Config, s: State, s': State, p: nat)
    requires Shape(cfg, s) && ControlInv(cfg, s) && Books(cfg, s) && p < |s.planes| && PlaneUnloads(cfg, s, s', p)
    ensures Shape(cfg, s') && Books(cfg, s')
  {
    assert HistoryInv(cfg, s);
    assert BodyInv(cfg, s, p);
    PlaneMode(cfg, s, p);
    assert MapKeys(s'.inbox) == MapKeys(s.inbox) + [OfPlane(p)];
    assert MapKeys(s'.inbox)[|s.inbox|] == OfPlane(p);
    OnePlaneBooks(cfg, s, s', p);
  }

  /** Where a plane is in its turn tells what the map is doing. */
  lemma PlaneMode(cfg: Config, s: State, p: nat)
    requires Shape(cfg, s) && ControlInv(cfg, s) && p < |s.planes|
    ensures s.planes[p].pc == Unloading || s.planes[p].pc == Ready(First) || s.planes[p].pc == Reporting(First) ==>
            ModeOf(s.mapPc) == PhaseOne
    ensures s.planes[p].pc == Asking || s.planes[p].pc == Ready(Second) || s.planes[p].pc == Reporting(Second) ==>
            ModeOf(s.mapPc) == PhaseTwo
    ensures s.planes[p].pc == Releasing(First) ==> ModeOf(s.mapPc) == PhaseOne || ModeOf(s.mapPc) == PhaseTwo
  {
    PlaneOwner(cfg, p);
    assert MapInv(cfg, s);
    assert DutyFits(s.mapPc, cfg.owner[p], s.past.duties[cfg.owner[p]]);
    assert PlaneInv(cfg, s, p);
  }

  lemma PlaneTakesStockBooks(cfg: Config, s: State, s': State, p: nat)
    requires Inv(cfg, s) && p < |s.planes| && PlaneTakesStock(s, s', p)
    ensures Shape(cfg, s') && Books(cfg, s')
  {
    WaitingMode(cfg, s, p);
    WaitingServed(cfg, s, p);
    MailedStock(cfg, s, p);
    assert HistoryInv(cfg, s);
    assert BodyInv(cfg, s, p);
    assert TokenInv(cfg, s, p);
    SameInbox(s, s');
    OnePlaneBooks(cfg, s, s', p);
  }

  lemma PlaneLocksBooks(cfg: Config, s: State, s': State, p: nat)
    requires Shape(cfg, s) && ControlInv(cfg, s) && Books(cfg, s) && p < |s.planes| && PlaneLocks(cfg, s, s', p)
    ensures Shape(cfg, s') && Books(cfg, s')
  {
    PlaneMode(cfg, s, p);
    assert HistoryInv(cfg, s);
    assert BodyInv(cfg, s, p);
    SameInbox(s, s');
    OnePlaneBooks(cfg, s, s', p);
  }

  lemma PlaneReportsBooks(cfg: Config, s: State, s': State, p: nat)
    requires Shape(cfg, s) && ControlInv(cfg, s) && Books(cfg, s) && p < |s.planes| && PlaneReports(cfg, s, s', p)
    ensures Shape(cfg, s') && Books(cfg, s')
  {
    PlaneMode(cfg, s, p);
    assert HistoryInv(cfg, s);
    assert BodyInv(cfg, s, p);
    var r := Report(s.airlines[cfg.owner[p]].stage, cfg.owner[p]);
    assert MapKeys(s'.inbox) == MapKeys(s.inbox) + [MapKey(r)];
    OnePlaneBooks(cfg, s, s', p);
  }

  lemma PlaneReleasesBooks(cfg: Config, s: State, s': State, p: nat)
    requires Shape(cfg, s) && ControlInv(cfg, s) && Books(cfg, s) && p < |s.planes| && PlaneReleases(cfg, s, s', p)
    ensures Shape(cfg, s') && Books(cfg, s')
  {
    PlaneMode(cfg, s, p);
    assert HistoryInv(cfg, s);
    assert BodyInv(cfg, s, p);
    SameInbox(s, s');
    if ModeOf(s.mapPc) == PhaseOne && p !in s.past.served {
      NotServed(cfg, s, p);
    }
    OnePlaneBooks(cfg, s, s', p);
  }

  lemma PlaneContinuesBooks(cfg: Config, s: State, s': State, p: nat)
    requires Shape(cfg, s) && ControlInv(cfg, s) && Books(cfg, s) && p < |s.planes| && PlaneContinues(s, s', p)
    ensures Shape(cfg, s') && Books(cfg, s')
  {
    SignalMode(cfg, s, p);
    assert HistoryInv(cfg, s);
    assert BodyInv(cfg, s, p);
    SameInbox(s, s');
    OnePlaneBooks(cfg, s, s', p);
  }

  lemma PlaneAsksBooks(cfg: Config, s: State, s': State, p: nat)
    requires Shape(cfg, s) && ControlInv(cfg, s) && Books(cfg, s) && p < |s.planes| && PlaneAsks(cfg, s, s', p)
    ensures Shape(cfg, s') && Books(cfg, s')
  {
    PlaneMode(cfg, s, p);
    assert HistoryInv(cfg, s);
    assert BodyInv(cfg, s, p);
    assert MapKeys(s'.inbox) == MapKeys(s.inbox) + [OfPlane(p)];
    OnePlaneBooks(cfg, s, s', p);
  }

  lemma PlaneChoosesBooks(cfg: Config, s: State, s': State, p: nat)
    requires Inv(cfg, s) && p < |s.planes| && PlaneChooses(s, s', p)
    ensures Shape(cfg, s') && Books(cfg, s')
  {
    WaitingMode(cfg, s, p);
    assert HistoryInv(cfg, s);
    assert BodyInv(cfg, s, p);
    assert TokenInv(cfg, s, p);
    var l := s.planes[p].mail[0].list;
    assert Choose(s.planes[p].body, FirstFive(l)) == Choose(s.planes[p].body, l);
    SameInbox(s, s');
    OnePlaneBooks(cfg, s, s', p);
  }
}
