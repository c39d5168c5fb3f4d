/**
 The listeners' steps keep the control part of the invariant.

 Between taking the lock and releasing it a listener counts the planes that are not done and then pushes the signal to
 those it finds not done.  Nothing of its planes can change in between that would make the two passes differ: a
 plane becomes done only while it owes the phase a report, and it owes one only after the push.  So the counter is,
 place by place, the number of planes that have still to report.
 */
module ListenerControl {
  import opened Delivery
  import opened Turns
  import opened Protocol
  import opened ProtocolInvariant
  import opened ProtocolControl

  /** A listener's step concerns its own airline only. */
  /** What an airline owes fits where the map is, and goes on to do so while neither changes. */
  lemma DutyStays(cfg: Config, s: State, a: nat)
    requires Shape(cfg, s) && ControlInv(cfg, s) && a < |s.airlines|
    ensures DutyFits(s.mapPc, a, s.past.duties[a])
  {
    assert MapInv(cfg, s);
  }

  lemma OwnAirlineOnly(cfg: Config, s: State, s': State, a: nat)
    requires Shape(cfg, s) && ControlInv(cfg, s) && Shape(cfg, s') && a < |s.airlines|
    requires s'.mapPc == s.mapPc && s'.airlines == s.airlines[a := s'.airlines[a]]
    requires s'.past.duties == s.past.duties[a := s'.past.duties[a]]
    requires forall q | 0 <= q < |s.planes| :: s'.planes[q].pc == s.planes[q].pc
    requires forall q | 0 <= q < |s.planes| && cfg.owner[q] != a :: s'.planes[q] == s.planes[q]
    requires DutyFits(s.mapPc, a, s'.past.duties[a])
    requires (s'.past.duties[a].Duty? && s'.past.duties[a].progress == Acked) <==>
             (s.past.duties[a].Duty? && s.past.duties[a].progress == Acked)
    requires AirlineControl(cfg, s', a)
    requires forall q: nat | q < |s.planes| && cfg.owner[q] == a :: PlaneInv(cfg, s', q)
    ensures ControlInv(cfg, s')
  {
    assert MapInv(cfg, s);
    AckedUpdate(s.past.duties, a, s'.past.duties[a]);
    SamePcsSameCounts(s.planes, s'.planes);
    forall b: nat | b < |s'.airlines| ensures AirlineControl(cfg, s', b) {
      assert AirlineControl(cfg, s, b);
    }
    forall q: nat | q < |s'.planes| ensures PlaneInv(cfg, s', q) {
      assert PlaneInv(cfg, s, q);
    }
  }

  lemma SamePcsSameCounts(planes: seq<PlaneThread>, planes': seq<PlaneThread>)
    requires |planes'| == |planes| && forall q | 0 <= q < |planes| :: planes'[q].pc == planes[q].pc
    ensures forall lo: nat, hi: nat, ph | lo <= hi <= |planes| ::
              CountPending(planes', lo, hi, ph) == CountPending(planes, lo, hi, ph)
  {
    forall lo: nat, hi: nat, ph | lo <= hi <= |planes|
      ensures CountPending(planes', lo, hi, ph) == CountPending(planes, lo, hi, ph)
    {
      SamePcsSameCount(planes, planes', lo, hi, ph);
    }
  }

  lemma {:induction false} SamePcsSameCount(planes: seq<PlaneThread>, planes': seq<PlaneThread>, lo: nat, hi: nat,
                                            ph: Phase)
    requires |planes'| == |planes| && forall q | 0 <= q < |planes| :: planes'[q].pc == planes[q].pc
    requires lo <= hi <= |planes|
    ensures CountPending(planes', lo, hi, ph) == CountPending(planes, lo, hi, ph)
    decreases hi
  {
    if lo < hi {
      SamePcsSameCount(planes, planes', lo, hi - 1, ph);
    }
  }

  lemma OwnRange(cfg: Config, a: nat)
    requires cfg.Valid() && a < cfg.Airlines()
    ensures cfg.first[a] <= cfg.first[a + 1] <= |cfg.owner|
    ensures forall q | 0 <= q < |cfg.owner| :: cfg.owner[q] == a <==> cfg.first[a] <= q < cfg.first[a + 1]
  {
    assert cfg.first[a + 1] <= cfg.first[|cfg.first| - 1];
  }

  /** A control message waits at the head only while the airline is told or dismissed. */
  lemma HeadControl(cfg: Config, s: State, a: nat)
    requires Shape(cfg, s) && ControlInv(cfg, s) && a < |s.airlines| && s.airlines[a].inbox != []
    ensures match s.airlines[a].inbox[0]
            case Control(Step) => s.past.duties[a] == Duty(First, Told)
            case Control(Continue) => s.past.duties[a] == Duty(Second, Told)
            case Control(End) => s.past.duties[a] == Dismissed
            case _ => s.past.duties[a].Duty? && s.past.duties[a].progress == Active
    ensures s.airlines[a].inbox[0].Control? ==> |s.airlines[a].inbox| == 1
  {
    assert AirlineControl(cfg, s, a);
  }

  lemma ListenerHearsSignal(cfg: Config, s: State, s': State, a: nat)
    requires Shape(cfg, s) && ControlInv(cfg, s) && a < |s.airlines| && ListenerHears(s, s', a) &&
             s.airlines[a].inbox[0].Control?
    ensures AirlineControl(cfg, s', a)
    ensures DutyFits(s.mapPc, a, s'.past.duties[a])
    ensures s'.past.duties[a].progress == Active
  {
    HeadControl(cfg, s, a);
    OwnRange(cfg, a);
    assert MapInv(cfg, s);
    assert DutyFits(s.mapPc, a, s.past.duties[a]);
    assert AirlineControl(cfg, s, a);
  }

  lemma ListenerHearsReply(cfg: Config, s: State, s': State, a: nat)
    requires Shape(cfg, s) && ControlInv(cfg, s) && a < |s.airlines| && ListenerHears(s, s', a) &&
             !s.airlines[a].inbox[0].Control?
    ensures AirlineControl(cfg, s', a)
    ensures DutyFits(s.mapPc, a, s'.past.duties[a])
  {
    HeadControl(cfg, s, a);
    OwnRange(cfg, a);
    assert MapInv(cfg, s);
    assert AirlineControl(cfg, s, a);
  }

  lemma ListenerHearsControl(cfg: Config, s: State, s': State, a: nat)
    requires Shape(cfg, s) && ControlInv(cfg, s) && a < |s.airlines| && ListenerHears(s, s', a)
    ensures Shape(cfg, s') && ControlInv(cfg, s')
  {
    HeadControl(cfg, s, a);
    if s.airlines[a].inbox[0].Control? {
      ListenerHearsSignal(cfg, s, s', a);
    } else {
      ListenerHearsReply(cfg, s, s', a);
    }
    forall q: nat | q < |s.planes| && cfg.owner[q] == a ensures PlaneInv(cfg, s', q) {
      assert PlaneInv(cfg, s, q);
    }
    OwnAirlineOnly(cfg, s, s', a);
  }

  lemma ListenerHearsEndControl(cfg: Config, s: State, s': State, a: nat)
    requires Shape(cfg, s) && ControlInv(cfg, s) && a < |s.airlines| && ListenerHearsEnd(cfg, s, s', a)
    ensures Shape(cfg, s') && ControlInv(cfg, s')
  {
    HeadControl(cfg, s, a);
    OwnRange(cfg, a);
    assert MapInv(cfg, s);
    assert DutyFits(s.mapPc, a, s.past.duties[a]);
    assert AirlineControl(cfg, s, a);
    forall q: nat | q < |s.planes| && cfg.owner[q] == a ensures PlaneInv(cfg, s', q) {
      assert PlaneInv(cfg, s, q);
    }
    OwnAirlineOnly(cfg, s, s', a);
  }

  lemma BusyIsActive(cfg: Config, s: State, a: nat)
    requires Shape(cfg, s) && ControlInv(cfg, s) && a < |s.airlines|
    requires s.airlines[a].pc.WantLock? || s.airlines[a].pc.Counting? || s.airlines[a].pc.Announcing?
             || s.airlines[a].pc.Broadcasting? || s.airlines[a].pc.Forwarding?
    ensures s.past.duties[a].Duty? && s.past.duties[a].progress == Active
    ensures DutyFits(s.mapPc, a, s.past.duties[a])
  {
    assert AirlineControl(cfg, s, a);
    assert MapInv(cfg, s);
  }

  lemma ListenerLocksControl(cfg: Config, s: State, s': State, a: nat)
    requires Shape(cfg, s) && ControlInv(cfg, s) && a < |s.airlines| && ListenerLocks(cfg, s, s', a)
    ensures Shape(cfg, s') && ControlInv(cfg, s')
  {
    BusyIsActive(cfg, s, a);
    OwnRange(cfg, a);
    assert AirlineControl(cfg, s, a);
    forall q: nat | q < |s.planes| && cfg.owner[q] == a ensures PlaneInv(cfg, s', q) {
      assert PlaneInv(cfg, s, q);
    }
    OwnAirlineOnly(cfg, s, s', a);
  }

  /** While the listener counts, a plane is pending exactly when it is not done, and stays so: the done flags
      cannot change between the count and the broadcast. */
  lemma CountedByDone(cfg: Config, s: State, a: nat, q: nat)
    requires Shape(cfg, s) && ControlInv(cfg, s) && a < |s.airlines| && q < |s.planes| && cfg.owner[q] == a
    requires s.past.duties[a].Duty?
    requires s.airlines[a].pc.Counting? || s.airlines[a].pc.Announcing?
             || (s.airlines[a].pc.Broadcasting? && s.airlines[a].pc.j <= q)
    ensures Pending(s.past.duties[a].phase, s.planes[q].pc) <==> !s.planes[q].body.done
    ensures s.planes[q].mail == []
    ensures s.planes[q].pc == if s.planes[q].body.done then Exited else Home(Other(s.past.duties[a].phase))
  {
    BusyIsActive(cfg, s, a);
    assert AirlineControl(cfg, s, a);
    assert PlaneInv(cfg, s, q);
  }

  lemma ListenerCountsAirline(cfg: Config, s: State, s': State, a: nat)
    requires Shape(cfg, s) && ControlInv(cfg, s) && a < |s.airlines| && ListenerCounts(cfg, s, s', a)
    ensures Shape(cfg, s') && AirlineControl(cfg, s', a)
  {
    BusyIsActive(cfg, s, a);
    OwnRange(cfg, a);
    assert AirlineControl(cfg, s, a);
    CountedByDone(cfg, s, a, s.airlines[a].pc.j);
  }

  lemma ListenerCountsPlane(cfg: Config, s: State, s': State, a: nat, q: nat)
    requires Shape(cfg, s) && ControlInv(cfg, s) && a < |s.airlines| && ListenerCounts(cfg, s, s', a)
    requires q < |s.planes| && cfg.owner[q] == a
    ensures Shape(cfg, s') && PlaneInv(cfg, s', q)
  {
    assert PlaneInv(cfg, s, q);
  }

  lemma ListenerCountsControl(cfg: Config, s: State, s': State, a: nat)
    requires Shape(cfg, s) && ControlInv(cfg, s) && a < |s.airlines| && ListenerCounts(cfg, s, s', a)
    ensures Shape(cfg, s') && ControlInv(cfg, s')
  {
    ListenerCountsAirline(cfg, s, s', a);
    forall q: nat | q < |s.planes| && cfg.owner[q] == a ensures PlaneInv(cfg, s', q) {
      ListenerCountsPlane(cfg, s, s', a, q);
    }
    DutyStays(cfg, s, a);
    OwnAirlineOnly(cfg, s, s', a);
  }

  lemma ListenerCountedControl(cfg: Config, s: State, s': State, a: nat)
    requires Shape(cfg, s) && ControlInv(cfg, s) && a < |s.airlines| && ListenerCounted(cfg, s, s', a)
    ensures Shape(cfg, s') && ControlInv(cfg, s')
  {
    BusyIsActive(cfg, s, a);
    OwnRange(cfg, a);
    assert AirlineControl(cfg, s, a);
    forall q: nat | q < |s.planes| && cfg.owner[q] == a ensures PlaneInv(cfg, s', q) {
      assert PlaneInv(cfg, s, q);
    }
    OwnAirlineOnly(cfg, s, s', a);
  }

  lemma ListenerReportsControl(cfg: Config, s: State, s': State, a: nat)
    requires Shape(cfg, s) && ControlInv(cfg, s) && a < |s.airlines| && ListenerReports(cfg, s, s', a)
    ensures Shape(cfg, s') && ControlInv(cfg, s')
  {
    BusyIsActive(cfg, s, a);
    OwnRange(cfg, a);
    assert AirlineControl(cfg, s, a);
    forall q: nat | q < |s.planes| && cfg.owner[q] == a ensures PlaneInv(cfg, s', q) {
      assert PlaneInv(cfg, s, q);
      CountedByDone(cfg, s, a, q);
      if !s.planes[q].body.done {
        CountPositive(s.planes, cfg.first[a], cfg.first[a + 1], s.past.duties[a].phase, q);
      }
    }
    OwnAirlineOnly(cfg, s, s', a);
  }

  /** The place in a listener's loop is one of its own planes. */
  lemma LoopTarget(cfg: Config, s: State, a: nat)
    requires Shape(cfg, s) && ControlInv(cfg, s) && a < |s.airlines| &&
             (s.airlines[a].pc.Broadcasting? || s.airlines[a].pc.Ending?)
    requires s.airlines[a].pc.j < cfg.first[a + 1] && s.airlines[a].pc.j < |s.planes|
    ensures cfg.first[a] <= s.airlines[a].pc.j && cfg.owner[s.airlines[a].pc.j] == a
  {
    if s.airlines[a].pc.Ending? {
      EndingIsDismissed(cfg, s, a);
    } else {
      BusyIsActive(cfg, s, a);
    }
    OwnRange(cfg, a);
    assert AirlineControl(cfg, s, a);
  }

  lemma ListenerBroadcastsAirline(cfg: Config, s: State, s': State, a: nat)
    requires Shape(cfg, s) && ControlInv(cfg, s) && a < |s.airlines| && ListenerBroadcasts(cfg, s, s', a)
    ensures Shape(cfg, s') && AirlineControl(cfg, s', a)
  {
    BusyIsActive(cfg, s, a);
    OwnRange(cfg, a);
    assert AirlineControl(cfg, s, a);
    CountedByDone(cfg, s, a, s.airlines[a].pc.j);
    SamePcsSameCounts(s.planes, s'.planes);
  }

  lemma ListenerBroadcastsPlane(cfg: Config, s: State, s': State, a: nat, q: nat)
    requires Shape(cfg, s) && ControlInv(cfg, s) && a < |s.airlines| && ListenerBroadcasts(cfg, s, s', a)
    requires q < |s.planes| && cfg.owner[q] == a
    ensures Shape(cfg, s') && PlaneInv(cfg, s', q)
  {
    BusyIsActive(cfg, s, a);
    OwnRange(cfg, a);
    assert ListenerInv(cfg, s, a) by {
      assert AirlineControl(cfg, s, a);
    }
    if q == s.airlines[a].pc.j {
      CountedByDone(cfg, s, a, q);
    }
    assert PlaneInv(cfg, s, q);
  }

  lemma ListenerBroadcastsControl(cfg: Config, s: State, s': State, a: nat)
    requires Shape(cfg, s) && ControlInv(cfg, s) && a < |s.airlines| && ListenerBroadcasts(cfg, s, s', a)
    ensures Shape(cfg, s') && ControlInv(cfg, s')
  {
    LoopTarget(cfg, s, a);
    ListenerBroadcastsAirline(cfg, s, s', a);
    forall q: nat | q < |s.planes| && cfg.owner[q] == a ensures PlaneInv(cfg, s', q) {
      ListenerBroadcastsPlane(cfg, s, s', a, q);
    }
    DutyStays(cfg, s, a);
    OwnAirlineOnly(cfg, s, s', a);
  }

  lemma ListenerBroadcastedControl(cfg: Config, s: State, s': State, a: nat)
    requires Shape(cfg, s) && ControlInv(cfg, s) && a < |s.airlines| && ListenerBroadcasted(cfg, s, s', a)
    ensures Shape(cfg, s') && ControlInv(cfg, s')
  {
    BusyIsActive(cfg, s, a);
    OwnRange(cfg, a);
    assert AirlineControl(cfg, s, a);
    forall q: nat | q < |s.planes| && cfg.owner[q] == a ensures PlaneInv(cfg, s', q) {
      assert PlaneInv(cfg, s, q);
    }
    OwnAirlineOnly(cfg, s, s', a);
  }

  lemma ListenerUnlocksControl(cfg: Config, s: State, s': State, a: nat)
    requires Shape(cfg, s) && ControlInv(cfg, s) && a < |s.airlines| && ListenerUnlocks(s, s', a)
    ensures Shape(cfg, s') && ControlInv(cfg, s')
  {
    OwnRange(cfg, a);
    assert MapInv(cfg, s);
    assert DutyFits(s.mapPc, a, s.past.duties[a]);
    assert AirlineControl(cfg, s, a);
    forall q: nat | q < |s.planes| && cfg.owner[q] == a ensures PlaneInv(cfg, s', q) {
      assert PlaneInv(cfg, s, q);
    }
    OwnAirlineOnly(cfg, s, s', a);
  }

  /** The mailbox of a plane whose answer is being forwarded is empty. */
  lemma ForwardTarget(cfg: Config, s: State, a: nat)
    requires Inv(cfg, s) && a < |s.airlines| && s.airlines[a].pc.Forwarding?
    ensures var p := s.airlines[a].pc.plane;
            && p < |s.planes| && cfg.owner[p] == a && Awaiting(s.planes[p].pc) && s.planes[p].mail == []
  {
    assert RepliesInv(cfg, s, a);
    var p := s.airlines[a].pc.plane;
    assert TokenInv(cfg, s, p);
  }

  lemma ListenerForwardsAirline(cfg: Config, s: State, s': State, a: nat)
    requires Shape(cfg, s) && ControlInv(cfg, s) && a < |s.airlines| && ListenerForwards(cfg, s, s', a)
    ensures Shape(cfg, s') && AirlineControl(cfg, s', a)
  {
    BusyIsActive(cfg, s, a);
    OwnRange(cfg, a);
    assert AirlineControl(cfg, s, a);
    SamePcsSameCounts(s.planes, s'.planes);
  }

  lemma ListenerForwardsPlane(cfg: Config, s: State, s': State, a: nat, q: nat)
    requires Inv(cfg, s) && a < |s.airlines| && ListenerForwards(cfg, s, s', a)
    requires q < |s.planes| && cfg.owner[q] == a
    ensures Shape(cfg, s') && PlaneInv(cfg, s', q)
  {
    BusyIsActive(cfg, s, a);
    ForwardTarget(cfg, s, a);
    assert PlaneInv(cfg, s, q);
  }

  lemma ListenerForwardsControl(cfg: Config, s: State, s': State, a: nat)
    requires Inv(cfg, s) && a < |s.airlines| && ListenerForwards(cfg, s, s', a)
    ensures Shape(cfg, s') && ControlInv(cfg, s')
  {
    ForwardTarget(cfg, s, a);
    ListenerForwardsAirline(cfg, s, s', a);
    forall q: nat | q < |s.planes| && cfg.owner[q] == a ensures PlaneInv(cfg, s', q) {
      ListenerForwardsPlane(cfg, s, s', a, q);
    }
    DutyStays(cfg, s, a);
    OwnAirlineOnly(cfg, s, s', a);
  }

  lemma EndingIsDismissed(cfg: Config, s: State, a: nat)
    requires Shape(cfg, s) && ControlInv(cfg, s) && a < |s.airlines|
    requires s.airlines[a].pc.Ending? || s.airlines[a].pc.Joining? || s.airlines[a].pc.Gone?
    ensures s.past.duties[a] == Dismissed && DutyFits(s.mapPc, a, s.past.duties[a])
  {
    assert AirlineControl(cfg, s, a);
    assert MapInv(cfg, s);
  }

  lemma ListenerEndsAirline(cfg: Config, s: State, s': State, a: nat)
    requires Shape(cfg, s) && ControlInv(cfg, s) && a < |s.airlines| && ListenerEnds(cfg, s, s', a)
    ensures Shape(cfg, s') && AirlineControl(cfg, s', a)
  {
    EndingIsDismissed(cfg, s, a);
    OwnRange(cfg, a);
    assert AirlineControl(cfg, s, a);
    SamePcsSameCounts(s.planes, s'.planes);
  }

  lemma ListenerEndsPlane(cfg: Config, s: State, s': State, a: nat, q: nat)
    requires Shape(cfg, s) && ControlInv(cfg, s) && a < |s.airlines| && ListenerEnds(cfg, s, s', a)
    requires q < |s.planes| && cfg.owner[q] == a
    ensures Shape(cfg, s') && PlaneInv(cfg, s', q)
  {
    EndingIsDismissed(cfg, s, a);
    OwnRange(cfg, a);
    assert PlaneInv(cfg, s, q);
  }

  lemma ListenerEndsControl(cfg: Config, s: State, s': State, a: nat)
    requires Shape(cfg, s) && ControlInv(cfg, s) && a < |s.airlines| && ListenerEnds(cfg, s, s', a)
    ensures Shape(cfg, s') && ControlInv(cfg, s')
  {
    LoopTarget(cfg, s, a);
    ListenerEndsAirline(cfg, s, s', a);
    forall q: nat | q < |s.planes| && cfg.owner[q] == a ensures PlaneInv(cfg, s', q) {
      ListenerEndsPlane(cfg, s, s', a, q);
    }
    DutyStays(cfg, s, a);
    OwnAirlineOnly(cfg, s, s', a);
  }

  lemma ListenerFinishesControl(cfg: Config, s: State, s': State, a: nat)
    requires Shape(cfg, s) && ControlInv(cfg, s) && a < |s.airlines| &&
             (ListenerEnded(cfg, s, s', a) || ListenerJoins(cfg, s, s', a))
    ensures Shape(cfg, s') && ControlInv(cfg, s')
  {
    EndingIsDismissed(cfg, s, a);
    OwnRange(cfg, a);
    assert AirlineControl(cfg, s, a);
    forall q: nat | q < |s.planes| && cfg.owner[q] == a ensures PlaneInv(cfg, s', q) {
      assert PlaneInv(cfg, s, q);
    }
    OwnAirlineOnly(cfg, s, s', a);
  }
}
