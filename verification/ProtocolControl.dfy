/**
 The planes' steps keep the control part of the invariant: barrier, lock, counter and mailbox discipline.

 A plane takes the lock, counts itself off, and the one that brings the counter to zero reports for its airline.  While
 it does so nothing else of the airline is under way: no message is in a mailbox or in the listener's hands.  Its own
 thread program then takes it to the next place where it waits for a signal, or out.
 */
module ProtocolControl {
  import opened Delivery
  import opened Turns
  import opened Protocol
  import opened ProtocolInvariant

  lemma CountsUpdate(planes: seq<PlaneThread>, p: nat, x: PlaneThread)
    requires p < |planes|
    ensures forall lo: nat, hi: nat, ph | lo <= hi <= |planes| ::
              CountPending(planes[p := x], lo, hi, ph)
              == CountPending(planes, lo, hi, ph)
                 + if lo <= p < hi
                   then (if Pending(ph, x.pc) then 1 else 0) - (if Pending(ph, planes[p].pc) then 1 else 0)
                   else 0
  {
    forall lo: nat, hi: nat, ph | lo <= hi <= |planes|
      ensures CountPending(planes[p := x], lo, hi, ph)
              == CountPending(planes, lo, hi, ph)
                 + if lo <= p < hi
                   then (if Pending(ph, x.pc) then 1 else 0) - (if Pending(ph, planes[p].pc) then 1 else 0)
                   else 0
    {
      CountUpdate(planes, lo, hi, ph, p, x);
    }
  }

  // ---------------------------------------------------------------- planes

  /** A step in which one plane stays pending, or stays not pending, and neither takes nor drops the lock. */
  lemma PlaneMoves(cfg: Config, s: State, s': State, p: nat, x: PlaneThread)
    requires Shape(cfg, s) && ControlInv(cfg, s) && Shape(cfg, s') && p < |s.planes|
    requires s'.planes == s.planes[p := x] && s'.airlines == s.airlines && s'.past.duties == s.past.duties &&
             s'.mapPc == s.mapPc
    requires forall ph :: Pending(ph, x.pc) == Pending(ph, s.planes[p].pc)
    requires !PlaneHolds(x.pc) && !PlaneHolds(s.planes[p].pc)
    requires PlaneFits(s.past.duties[cfg.owner[p]], s.airlines[cfg.owner[p]].pc, p, x)
    ensures ControlInv(cfg, s')
  {
    CountsUpdate(s.planes, p, x);
    assert MapInv(cfg, s);
    forall a: nat | a < |s'.airlines| ensures AirlineControl(cfg, s', a) {
      assert AirlineControl(cfg, s, a);
    }
    forall q: nat | q < |s'.planes| ensures PlaneInv(cfg, s', q) {
      assert PlaneInv(cfg, s, q);
    }
  }

  lemma PlaneOwner(cfg: Config, p: nat)
    requires cfg.Valid() && p < |cfg.owner|
    ensures cfg.owner[p] < cfg.Airlines() && cfg.first[cfg.owner[p]] <= p < cfg.first[cfg.owner[p] + 1] <= |cfg.owner|
  {
    var a := cfg.owner[p];
    assert cfg.owner[p] == a;
    assert cfg.first[a + 1] <= cfg.first[|cfg.first| - 1];
  }

  lemma PlaneStepsControl(cfg: Config, s: State, s': State, p: nat)
    requires Shape(cfg, s) && ControlInv(cfg, s) && p < |s.planes| && PlaneSteps(s, s', p)
    ensures Shape(cfg, s') && ControlInv(cfg, s')
  {
    assert PlaneInv(cfg, s, p);
    var x := s'.planes[p];
    if s.planes[p].mail[0] == Go(Step) {
      PlaneMoves(cfg, s, s', p, x);
    } else {
      PlaneExits(cfg, s, s', p, x);
    }
  }

  lemma PlaneExits(cfg: Config, s: State, s': State, p: nat, x: PlaneThread)
    requires Shape(cfg, s) && ControlInv(cfg, s) && Shape(cfg, s') && p < |s.planes|
    requires s'.planes == s.planes[p := x] && s'.airlines == s.airlines && s'.past.duties == s.past.duties &&
             s'.mapPc == s.mapPc
    requires s.planes[p].pc == AtStep && s.planes[p].mail == [Go(End)] && x.pc == Exited && x.mail == [] && x.body.done
    ensures ControlInv(cfg, s')
  {
    assert MapInv(cfg, s);
    forall a: nat | a < |s'.airlines| ensures AirlineControl(cfg, s', a) {
      PlaneExitsAirline(cfg, s, s', p, x, a);
    }
    forall q: nat | q < |s'.planes| ensures PlaneInv(cfg, s', q) {
      assert PlaneInv(cfg, s, q);
    }
  }

  lemma PlaneExitsAirline(cfg: Config, s: State, s': State, p: nat, x: PlaneThread, a: nat)
    requires Shape(cfg, s) && ControlInv(cfg, s) && Shape(cfg, s') && p < |s.planes| && a < |s.airlines|
    requires s'.planes == s.planes[p := x] && s'.airlines == s.airlines && s'.past.duties == s.past.duties
    requires s.planes[p].pc == AtStep && s.planes[p].mail == [Go(End)] && x.pc == Exited && x.mail == [] && x.body.done
    ensures AirlineControl(cfg, s', a)
  {
    CountsUpdate(s.planes, p, x);
    PlaneOwner(cfg, p);
    assert PlaneInv(cfg, s, p);
    assert AirlineControl(cfg, s, a);
  }

  lemma PlaneUnloadsControl(cfg: Config, s: State, s': State, p: nat)
    requires Shape(cfg, s) && ControlInv(cfg, s) && p < |s.planes| && PlaneUnloads(cfg, s, s', p)
    ensures Shape(cfg, s') && ControlInv(cfg, s')
  {
    assert PlaneInv(cfg, s, p);
    PlaneMoves(cfg, s, s', p, s'.planes[p]);
  }

  lemma PlaneTakesStockControl(cfg: Config, s: State, s': State, p: nat)
    requires Shape(cfg, s) && ControlInv(cfg, s) && p < |s.planes| && PlaneTakesStock(s, s', p)
    ensures Shape(cfg, s') && ControlInv(cfg, s')
  {
    assert PlaneInv(cfg, s, p);
    PlaneMoves(cfg, s, s', p, s'.planes[p]);
  }

  lemma PlaneContinuesControl(cfg: Config, s: State, s': State, p: nat)
    requires Shape(cfg, s) && ControlInv(cfg, s) && p < |s.planes| && PlaneContinues(s, s', p)
    ensures Shape(cfg, s') && ControlInv(cfg, s')
  {
    assert PlaneInv(cfg, s, p);
    PlaneMoves(cfg, s, s', p, s'.planes[p]);
  }

  lemma PlaneAsksControl(cfg: Config, s: State, s': State, p: nat)
    requires Shape(cfg, s) && ControlInv(cfg, s) && p < |s.planes| && PlaneAsks(cfg, s, s', p)
    ensures Shape(cfg, s') && ControlInv(cfg, s')
  {
    assert PlaneInv(cfg, s, p);
    PlaneMoves(cfg, s, s', p, s'.planes[p]);
  }

  lemma PlaneChoosesControl(cfg: Config, s: State, s': State, p: nat)
    requires Shape(cfg, s) && ControlInv(cfg, s) && p < |s.planes| && PlaneChooses(s, s', p)
    ensures Shape(cfg, s') && ControlInv(cfg, s')
  {
    assert PlaneInv(cfg, s, p);
    PlaneMoves(cfg, s, s', p, s'.planes[p]);
  }

  lemma PlaneLocksAirline(cfg: Config, s: State, s': State, p: nat)
    requires Shape(cfg, s) && ControlInv(cfg, s) && p < |s.planes| && PlaneLocks(cfg, s, s', p)
    ensures AirlineControl(cfg, s', cfg.owner[p])
  {
    var x, b := s'.planes[p], cfg.owner[p];
    assert PlaneInv(cfg, s, p);
    assert AirlineControl(cfg, s, b);
    PlaneOwner(cfg, p);
    CountUpdate(s.planes, cfg.first[b], cfg.first[b + 1], s.planes[p].pc.phase, p, x);
    CountPositive(s.planes, cfg.first[b], cfg.first[b + 1], s.planes[p].pc.phase, p);
    assert s'.past.duties == s.past.duties;
  }

  lemma PlaneLocksControl(cfg: Config, s: State, s': State, p: nat)
    requires Shape(cfg, s) && ControlInv(cfg, s) && p < |s.planes| && PlaneLocks(cfg, s, s', p)
    ensures Shape(cfg, s') && ControlInv(cfg, s')
  {
    assert MapInv(cfg, s);
    forall a: nat | a < |s'.airlines| ensures AirlineControl(cfg, s', a) {
      if a == cfg.owner[p] {
        PlaneLocksAirline(cfg, s, s', p);
      } else {
        OtherAirline(cfg, s, s', p, a);
      }
    }
    forall q: nat | q < |s'.planes| ensures PlaneInv(cfg, s', q) {
      assert PlaneInv(cfg, s, q);
      assert PlaneInv(cfg, s, p);
    }
  }

  /** A step of one plane does not concern the airlines of others. */
  lemma OtherAirline(cfg: Config, s: State, s': State, p: nat, a: nat)
    requires Shape(cfg, s) && ControlInv(cfg, s) && Shape(cfg, s') && p < |s.planes| && a < |s.airlines| &&
             a != cfg.owner[p]
    requires s'.planes == s.planes[p := s'.planes[p]]
    requires s'.airlines[a] == s.airlines[a] && s'.past.duties[a] == s.past.duties[a]
    ensures AirlineControl(cfg, s', a)
  {
    assert AirlineControl(cfg, s, a);
    PlaneOwner(cfg, p);
    CountsUpdate(s.planes, p, s'.planes[p]);
  }

  /** A reply in an airline's queue is for one of its planes that waits. */
  lemma HeadIsAwaited(cfg: Config, s: State, a: nat)
    requires Inv(cfg, s) && a < |s.airlines| && s.airlines[a].inbox != []
    ensures var m := s.airlines[a].inbox[0];
            m.Control? || (m.plane < |s.planes| && cfg.owner[m.plane] == a && Awaiting(s.planes[m.plane].pc))
  {
    assert RepliesInv(cfg, s, a);
    assert ReplyOk(cfg, s, a, s.airlines[a].inbox[0]);
  }

  /** When the last plane has counted itself off, its airline has nothing under way. */
  lemma NothingUnderWay(cfg: Config, s: State, p: nat)
    requires Inv(cfg, s) && p < |s.planes| && s.planes[p].pc.Reporting?
    ensures var a, ph := cfg.owner[p], s.planes[p].pc.phase;
            && s.past.duties[a] == Duty(ph, Active) && s.airlines[a].pc == Listening && s.airlines[a].inbox == []
            && s.airlines[a].stage == ph && s.airlines[a].lock == HeldBy(p)
            && forall q: nat | q < |s.planes| && q != p && cfg.owner[q] == a :: Resting(ph, s.planes[q])
  {
    var a, ph := cfg.owner[p], s.planes[p].pc.phase;
    PlaneOwner(cfg, p);
    var lo, hi := cfg.first[a], cfg.first[a + 1];
    var al := s.airlines[a];
    assert PlaneInv(cfg, s, p);
    assert AirlineControl(cfg, s, a);
    assert RepliesInv(cfg, s, a);
    assert al.lock == HeldBy(p);
    assert CountPending(s.planes, lo, hi, ph) == al.left == 0;
    forall q: nat | q < |s.planes| && q != p && cfg.owner[q] == a
      ensures Resting(ph, s.planes[q])
    {
      assert PlaneInv(cfg, s, q);
      if Pending(ph, s.planes[q].pc) {
        CountPositive(s.planes, lo, hi, ph, q);
      }
    }
    if al.inbox != [] {
      HeadIsAwaited(cfg, s, a);
    }
  }

  lemma PlaneReportsControl(cfg: Config, s: State, s': State, p: nat)
    requires Inv(cfg, s) && p < |s.planes| && PlaneReports(cfg, s, s', p)
    ensures Shape(cfg, s') && ControlInv(cfg, s')
  {
    var b := cfg.owner[p];
    PlaneOwner(cfg, p);
    NothingUnderWay(cfg, s, p);
    assert MapInv(cfg, s);
    AckedUpdate(s.past.duties, b, s'.past.duties[b]);
    forall a: nat | a < |s'.airlines| ensures AirlineControl(cfg, s', a) {
      if a == b {
        PlaneReportsAirline(cfg, s, s', p);
      } else {
        OtherAirline(cfg, s, s', p, a);
      }
    }
    forall q: nat | q < |s'.planes| ensures PlaneInv(cfg, s', q) {
      PlaneReportsPlane(cfg, s, s', p, q);
    }
  }

  lemma PlaneReportsAirline(cfg: Config, s: State, s': State, p: nat)
    requires Inv(cfg, s) && p < |s.planes| && PlaneReports(cfg, s, s', p)
    ensures Shape(cfg, s') && AirlineControl(cfg, s', cfg.owner[p])
  {
    PlaneOwner(cfg, p);
    NothingUnderWay(cfg, s, p);
    assert AirlineControl(cfg, s, cfg.owner[p]);
  }

  lemma PlaneReportsPlane(cfg: Config, s: State, s': State, p: nat, q: nat)
    requires Inv(cfg, s) && p < |s.planes| && q < |s.planes| && PlaneReports(cfg, s, s', p)
    ensures Shape(cfg, s') && PlaneInv(cfg, s', q)
  {
    PlaneOwner(cfg, p);
    NothingUnderWay(cfg, s, p);
    assert PlaneInv(cfg, s, q);
  }

  lemma PlaneReleasesAirline(cfg: Config, s: State, s': State, p: nat)
    requires Shape(cfg, s) && ControlInv(cfg, s) && p < |s.planes| && PlaneReleases(cfg, s, s', p)
    ensures AirlineControl(cfg, s', cfg.owner[p])
  {
    var b := cfg.owner[p];
    assert PlaneInv(cfg, s, p);
    assert AirlineControl(cfg, s, b);
    PlaneOwner(cfg, p);
    CountsUpdate(s.planes, p, s'.planes[p]);
  }

  lemma PlaneReleasesControl(cfg: Config, s: State, s': State, p: nat)
    requires Shape(cfg, s) && ControlInv(cfg, s) && p < |s.planes| && PlaneReleases(cfg, s, s', p)
    ensures Shape(cfg, s') && ControlInv(cfg, s')
  {
    assert MapInv(cfg, s);
    forall a: nat | a < |s'.airlines| ensures AirlineControl(cfg, s', a) {
      if a == cfg.owner[p] {
        PlaneReleasesAirline(cfg, s, s', p);
      } else {
        OtherAirline(cfg, s, s', p, a);
      }
    }
    forall q: nat | q < |s'.planes| ensures PlaneInv(cfg, s', q) {
      assert PlaneInv(cfg, s, q);
      assert PlaneInv(cfg, s, p);
    }
  }

  /** A plane never gets a message it does not expect, and never finds End in the middle of a turn. */
  lemma PlaneNeverFails(cfg: Config, s: State, s': State, p: nat)
    requires Inv(cfg, s) && p < |s.planes|
    ensures !PlaneBails(s, s', p) && !PlanePeeksEnd(s, s', p)
  {
    var pl := s.planes[p];
    assert PlaneInv(cfg, s, p);
    assert TokenInv(cfg, s, p);
    assert BodyInv(cfg, s, p);
    if pl.pc == AwaitingStock && pl.mail != [] {
      MailedStock(cfg, s, p);
    }
  }

  /** A waiting plane's map is in the phase of its request. */
  lemma WaitingMode(cfg: Config, s: State, p: nat)
    requires Shape(cfg, s) && ControlInv(cfg, s) && p < |s.planes| && Awaiting(s.planes[p].pc)
    ensures Landed(s.planes[p].body)
    ensures ModeOf(s.mapPc) == if s.planes[p].pc == AwaitingStock then PhaseOne else PhaseTwo
    ensures s.past.duties[cfg.owner[p]] == Duty(if s.planes[p].pc == AwaitingStock then First else Second, Active)
    ensures Begun(s.airlines[cfg.owner[p]].pc, p)
  {
    PlaneOwner(cfg, p);
    var a := cfg.owner[p];
    assert PlaneInv(cfg, s, p);
    assert MapInv(cfg, s);
    assert DutyFits(s.mapPc, a, s.past.duties[a]);
  }

  /** A landed plane that waits while its request is no longer in the map's queue has been served. */
  lemma WaitingServed(cfg: Config, s: State, p: nat)
    requires Inv(cfg, s) && p < |s.planes| && s.planes[p].pc == AwaitingStock
    ensures p in s.past.served <==> !AtMap(s, p)
  {
    WaitingMode(cfg, s, p);
    assert BodyInv(cfg, s, p);
    UnloadAllFrame(s.past.worlds[|s.past.orders|], s.past.served, p);
  }

  /** The new amounts in a waiting plane's mailbox are those the simulation has for it by now. */
  lemma MailedStock(cfg: Config, s: State, p: nat)
    requires Inv(cfg, s) && p < |s.planes| && s.planes[p].pc == AwaitingStock && s.planes[p].mail != []
    ensures p < |s.past.now.planes| && GoodAmounts(s.planes[p].mail[0], s.planes[p].body.load)
    ensures s.planes[p].mail == [NewStock(Amounts(s.past.now.planes[p].load))]
    ensures WithAmounts(s.planes[p].body.load, Amounts(s.past.now.planes[p].load)) == s.past.now.planes[p].load
    ensures s.past.now.planes[p]
            == s.planes[p].body.(load := s.past.now.planes[p].load, done := Spent(s.past.now.planes[p].load))
  {
    WaitingMode(cfg, s, p);
    WaitingServed(cfg, s, p);
    assert PlaneInv(cfg, s, p);
    assert TokenInv(cfg, s, p);
    assert BodyInv(cfg, s, p);
  }
}
