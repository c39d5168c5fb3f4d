/**
 The map's steps keep the control part of the invariant.

 Sending a signal turns an airline's duty from settled to told; counting a report settles it again.  The map counts
 exactly the settled duties, so it leaves a collecting loop when all are settled and not before.  Taking a request and
 sending a reply leave all duties alone.  The branches for messages of the wrong phase are dead, because every
 message in the queue is one its sender still waits for.
 */
module MapControl {
  import opened Delivery
  import opened Turns
  import opened Protocol
  import opened ProtocolInvariant
  import opened ProtocolControl

  /** A step that changes neither airlines nor planes only has to fit the duties. */
  lemma MapOnly(cfg: Config, s: State, s': State)
    requires Shape(cfg, s) && ControlInv(cfg, s) && Shape(cfg, s') && MapInv(cfg, s')
    requires s'.airlines == s.airlines && s'.planes == s.planes && s'.past.duties == s.past.duties
    ensures ControlInv(cfg, s')
  {
    forall a: nat | a < |s'.airlines| ensures AirlineControl(cfg, s', a) {
      assert AirlineControl(cfg, s, a);
    }
    forall q: nat | q < |s'.planes| ensures PlaneInv(cfg, s', q) {
      assert PlaneInv(cfg, s, q);
    }
  }

  lemma MapStopsControl(cfg: Config, s: State, s': State)
    requires Shape(cfg, s) && ControlInv(cfg, s) && (MapStops(s, s') || MapStarts(s, s') || RaiseStop(s, s'))
    ensures Shape(cfg, s') && ControlInv(cfg, s')
  {
    assert MapInv(cfg, s);
    MapOnly(cfg, s, s');
  }

  lemma MapSendsMap(cfg: Config, s: State, s': State)
    requires Shape(cfg, s) && ControlInv(cfg, s) && MapSends(cfg, s, s')
    ensures Shape(cfg, s') && MapInv(cfg, s')
  {
    assert MapInv(cfg, s);
  }

  lemma MapSendsAirline(cfg: Config, s: State, s': State, a: nat)
    requires Shape(cfg, s) && MapSends(cfg, s, s') && a < |s.airlines|
    requires MapInv(cfg, s) && AirlineControl(cfg, s, a)
    ensures Shape(cfg, s') && AirlineControl(cfg, s', a)
  {
    assert DutyFits(s.mapPc, a, s.past.duties[a]);
  }

  lemma MapSendsPlane(cfg: Config, s: State, s': State, q: nat)
    requires Shape(cfg, s) && ControlInv(cfg, s) && MapSends(cfg, s, s') && q < |s.planes|
    ensures Shape(cfg, s') && PlaneInv(cfg, s', q)
  {
    var k := s.mapPc.k;
    assert MapInv(cfg, s);
    assert DutyFits(s.mapPc, k, s.past.duties[k]);
    assert AirlineControl(cfg, s, k);
    assert PlaneInv(cfg, s, q);
  }

  lemma MapSendsControl(cfg: Config, s: State, s': State)
    requires Shape(cfg, s) && ControlInv(cfg, s) && MapSends(cfg, s, s')
    ensures Shape(cfg, s') && ControlInv(cfg, s')
  {
    MapSendsMap(cfg, s, s');
    forall a: nat | a < |s'.airlines| ensures AirlineControl(cfg, s', a) {
      MapSendsAirline(cfg, s, s', a);
    }
    forall q: nat | q < |s'.planes| ensures PlaneInv(cfg, s', q) {
      MapSendsPlane(cfg, s, s', q);
    }
  }

  lemma MapHasSentControl(cfg: Config, s: State, s': State)
    requires Shape(cfg, s) && ControlInv(cfg, s) && MapHasSent(s, s')
    ensures Shape(cfg, s') && ControlInv(cfg, s')
  {
    assert MapInv(cfg, s);
    AckedBounds(s.past.duties);
    MapOnly(cfg, s, s');
  }

  lemma MapCountsReportControl(cfg: Config, s: State, s': State)
    requires Inv(cfg, s) && MapCountsReport(cfg, s, s')
    ensures Shape(cfg, s') && ControlInv(cfg, s')
  {
    var b := s.inbox[0].airline;
    assert MapInv(cfg, s);
    assert MapMessageOk(s, s.inbox[0]);
    AckedUpdate(s.past.duties, b, Duty(s.mapPc.phase, Acked));
    forall a: nat | a < |s'.airlines| ensures AirlineControl(cfg, s', a) {
      CountedAirline(cfg, s, s', a, b);
    }
    forall q: nat | q < |s'.planes| ensures PlaneInv(cfg, s', q) {
      assert PlaneInv(cfg, s, q);
    }
  }

  lemma CountedAirline(cfg: Config, s: State, s': State, a: nat, b: nat)
    requires Shape(cfg, s) && ControlInv(cfg, s) && Shape(cfg, s') && a < |s.airlines| && b < |s.airlines|
    requires s'.airlines == s.airlines && s'.planes == s.planes
    requires s.past.duties[b].Duty? && s.past.duties[b].progress == Reported
    requires s'.past.duties == s.past.duties[b := s.past.duties[b].(progress := Acked)]
    ensures AirlineControl(cfg, s', a)
  {
    assert AirlineControl(cfg, s, a);
  }

  lemma MapTakesControl(cfg: Config, s: State, s': State, l: seq<CityInfo>)
    requires Shape(cfg, s) && ControlInv(cfg, s) && (MapServes(cfg, s, s') || MapAnswers(cfg, s, s', l))
    ensures Shape(cfg, s') && ControlInv(cfg, s')
  {
    assert MapInv(cfg, s);
    MapOnly(cfg, s, s');
  }

  /** The error branches for messages of the wrong phase are dead. */
  lemma MapNeverRejects(cfg: Config, s: State, s': State)
    requires Inv(cfg, s)
    ensures !MapRejects(s, s')
  {
    if Receiving(s) {
      var m := s.inbox[0];
      assert MapMessageOk(s, m);
      assert MapInv(cfg, s);
      match m
      case AirlineDone(a) => assert DutyFits(s.mapPc, a, s.past.duties[a]);
      case AirlineStatus(a) => assert DutyFits(s.mapPc, a, s.past.duties[a]);
      case UnloadStock(p, _, _) => WaitingMode(cfg, s, p);
      case CheckDestinations(p, _, _) => WaitingMode(cfg, s, p);
    }
  }

  /** The plane the map is answering waits, and its airline has begun the phase. */
  lemma ReplyTarget(cfg: Config, s: State)
    requires Inv(cfg, s) && s.mapPc.Replying?
    ensures var p := s.mapPc.reply.plane;
            && !s.mapPc.reply.Control? && p < |s.planes| && s.mapPc.to == cfg.owner[p] < |s.airlines|
            && Awaiting(s.planes[p].pc)
            && s.past.duties[s.mapPc.to] == Duty(s.mapPc.phase, Active)
            && Begun(s.airlines[s.mapPc.to].pc, p)
  {
    assert MapInv(cfg, s);
    assert InboxInv(cfg, s);
    PlaneOwner(cfg, s.mapPc.reply.plane);
    WaitingMode(cfg, s, s.mapPc.reply.plane);
  }

  lemma MapRepliesAirline(cfg: Config, s: State, s': State, a: nat)
    requires Shape(cfg, s) && MapReplies(cfg, s, s') && a < |s.airlines| && AirlineControl(cfg, s, a)
    requires !s.mapPc.reply.Control? && s.past.duties[s.mapPc.to] == Duty(s.mapPc.phase, Active)
    requires Begun(s.airlines[s.mapPc.to].pc, s.mapPc.reply.plane)
    ensures Shape(cfg, s') && AirlineControl(cfg, s', a)
  {
  }

  lemma MapRepliesControl(cfg: Config, s: State, s': State)
    requires Inv(cfg, s) && MapReplies(cfg, s, s')
    ensures Shape(cfg, s') && ControlInv(cfg, s')
  {
    ReplyTarget(cfg, s);
    assert MapInv(cfg, s);
    forall a: nat | a < |s'.airlines| ensures AirlineControl(cfg, s', a) {
      MapRepliesAirline(cfg, s, s', a);
    }
    forall q: nat | q < |s'.planes| ensures PlaneInv(cfg, s', q) {
      assert PlaneInv(cfg, s, q);
    }
  }

  lemma MapMovesOnControl(cfg: Config, s: State, s': State)
    requires Shape(cfg, s) && ControlInv(cfg, s) && (MapContinues(s, s') || MapEndsTurn(s, s'))
    ensures Shape(cfg, s') && ControlInv(cfg, s')
  {
    assert MapInv(cfg, s);
    AckedBounds(s.past.duties);
    MapOnly(cfg, s, s');
  }
}
