/**
 Every step keeps the traffic part of the invariant.

 A plane that waits for an answer has exactly one request or reply under way, in the map's queue, in the map's hands,
 in its airline's queue, in its listener's hands or in its mailbox, and that message carries the right data; a plane
 that does not wait has none.  Reports are in the map's queue exactly for the airlines whose report has been sent and
 not been counted.
 */
module ProtocolTraffic {
  import opened Delivery
  import opened Turns
  import opened Protocol
  import opened ProtocolInvariant
  import opened ProtocolControl
  import opened ListenerControl
  import opened MapControl

  // ---------------------------------------------------------------- steps that move no request or reply

  ghost predicate SameErrand(x: PlaneThread, y: PlaneThread) {
    Awaiting(x.pc) == Awaiting(y.pc) && (Awaiting(x.pc) ==> x == y)
  }

  ghost predicate SameReplies(x: Airline, y: Airline) {
    x.inbox == y.inbox && x.pc.Forwarding? == y.pc.Forwarding? && (x.pc.Forwarding? ==> x.pc == y.pc)
  }

  ghost predicate HasReported(d: Duty) { d.Duty? && d.progress == Reported }

  lemma Quiet(cfg: Config, s: State, s': State)
    requires Shape(cfg, s) && Traffic(cfg, s) && Shape(cfg, s')
    requires s'.inbox == s.inbox && s'.past.now == s.past.now
    requires (!s.mapPc.Replying? && !s'.mapPc.Replying?) || s'.mapPc == s.mapPc
    requires forall a | 0 <= a < |s.airlines| :: SameReplies(s.airlines[a], s'.airlines[a])
    requires forall p | 0 <= p < |s.planes| :: SameErrand(s.planes[p], s'.planes[p])
    requires forall a | 0 <= a < |s.airlines| ::
               (HasReported(s.past.duties[a]) || HasReported(s'.past.duties[a])) ==>
               s'.past.duties[a] == s.past.duties[a]
    ensures Traffic(cfg, s')
  {
    assert InboxInv(cfg, s);
    forall i: nat | i < |s'.inbox| ensures MapMessageOk(s', s'.inbox[i]) {
      assert MapMessageOk(s, s.inbox[i]);
    }
    forall a: nat | a < |s'.airlines| ensures RepliesInv(cfg, s', a) {
      assert RepliesInv(cfg, s, a);
      QuietReplies(cfg, s, s', a);
    }
    forall p: nat | p < |s'.planes| ensures TokenInv(cfg, s', p) {
      PlaneOwner(cfg, p);
      assert TokenInv(cfg, s, p);
      assert SameErrand(s.planes[p], s'.planes[p]);
      assert SameReplies(s.airlines[cfg.owner[p]], s'.airlines[cfg.owner[p]]);
    }
  }

  lemma QuietReplies(cfg: Config, s: State, s': State, a: nat)
    requires Shape(cfg, s) && Traffic(cfg, s) && Shape(cfg, s') && a < |s.airlines|
    requires s'.past.now == s.past.now
    requires SameReplies(s.airlines[a], s'.airlines[a])
    requires forall p | 0 <= p < |s.planes| :: SameErrand(s.planes[p], s'.planes[p])
    ensures RepliesInv(cfg, s', a)
  {
    assert RepliesInv(cfg, s, a);
    assert SameReplies(s.airlines[a], s'.airlines[a]);
    forall i: nat | i < |s'.airlines[a].inbox| ensures ReplyOk(cfg, s', a, s'.airlines[a].inbox[i]) {
      assert ReplyOk(cfg, s, a, s.airlines[a].inbox[i]);
    }
    if s.airlines[a].pc.Forwarding? {
      assert SameErrand(s.planes[s.airlines[a].pc.plane], s'.planes[s.airlines[a].pc.plane]);
    }
  }

  lemma QuietMap(cfg: Config, s: State, s': State)
    requires Shape(cfg, s) && Traffic(cfg, s)
    requires MapStops(s, s') || MapStarts(s, s') || RaiseStop(s, s') || MapHasSent(s, s') || MapContinues(s, s')
    ensures Shape(cfg, s') && Traffic(cfg, s')
  {
    Quiet(cfg, s, s');
  }

  lemma QuietListener(cfg: Config, s: State, s': State, a: nat)
    requires Shape(cfg, s) && Traffic(cfg, s) && a < |s.airlines|
    requires || ListenerLocks(cfg, s, s', a) || ListenerCounts(cfg, s, s', a) || ListenerCounted(cfg, s, s', a)
    ensures Shape(cfg, s') && Traffic(cfg, s')
  {
    Quiet(cfg, s, s');
  }

  lemma QuietUnlock(cfg: Config, s: State, s': State, a: nat)
    requires Shape(cfg, s) && Traffic(cfg, s) && a < |s.airlines|
    requires || ListenerBroadcasted(cfg, s, s', a) || ListenerUnlocks(s, s', a)
             || ListenerEnded(cfg, s, s', a) || ListenerJoins(cfg, s, s', a)
    ensures Shape(cfg, s') && Traffic(cfg, s')
  {
    Quiet(cfg, s, s');
  }

  lemma QuietBroadcast(cfg: Config, s: State, s': State, a: nat)
    requires Shape(cfg, s) && ControlInv(cfg, s) && Traffic(cfg, s) && a < |s.airlines| &&
             ListenerBroadcasts(cfg, s, s', a)
    ensures Shape(cfg, s') && Traffic(cfg, s')
  {
    BusyIsActive(cfg, s, a);
    OwnRange(cfg, a);
    assert AirlineControl(cfg, s, a);
    CountedByDone(cfg, s, a, s.airlines[a].pc.j);
    Quiet(cfg, s, s');
  }

  lemma QuietEnd(cfg: Config, s: State, s': State, a: nat)
    requires Shape(cfg, s) && ControlInv(cfg, s) && Traffic(cfg, s) && a < |s.airlines| && ListenerEnds(cfg, s, s', a)
    ensures Shape(cfg, s') && Traffic(cfg, s')
  {
    EndingIsDismissed(cfg, s, a);
    OwnRange(cfg, a);
    assert AirlineControl(cfg, s, a);
    assert PlaneInv(cfg, s, s.airlines[a].pc.j);
    Quiet(cfg, s, s');
  }

  lemma QuietPlane(cfg: Config, s: State, s': State, p: nat)
    requires Shape(cfg, s) && Traffic(cfg, s) && p < |s.planes|
    requires PlaneSteps(s, s', p) || PlaneLocks(cfg, s, s', p) || PlaneReleases(cfg, s, s', p) ||
             PlaneContinues(s, s', p)
    ensures Shape(cfg, s') && Traffic(cfg, s')
  {
    Quiet(cfg, s, s');
  }

  // ---------------------------------------------------------------- reports

  lemma PlaneReportsTraffic(cfg: Config, s: State, s': State, p: nat)
    requires Inv(cfg, s) && p < |s.planes| && PlaneReports(cfg, s, s', p)
    ensures Shape(cfg, s') && Traffic(cfg, s')
  {
    NothingUnderWay(cfg, s, p);
    PlaneOwner(cfg, p);
    ReportTraffic(cfg, s, s', cfg.owner[p]);
  }

  lemma ListenerReportsTraffic(cfg: Config, s: State, s': State, a: nat)
    requires Shape(cfg, s) && ControlInv(cfg, s) && Traffic(cfg, s) && a < |s.airlines| &&
             ListenerReports(cfg, s, s', a)
    ensures Shape(cfg, s') && Traffic(cfg, s')
  {
    BusyIsActive(cfg, s, a);
    assert AirlineControl(cfg, s, a);
    ReportTraffic(cfg, s, s', a);
  }

  lemma ReportKey(cfg: Config, s: State, a: nat)
    requires Shape(cfg, s) && Traffic(cfg, s) && OfAirline(a) in MapKeys(s.inbox)
    ensures a < |s.past.duties| && HasReported(s.past.duties[a])
  {
    assert InboxInv(cfg, s);
    var i: nat :| i < |s.inbox| && MapKeys(s.inbox)[i] == OfAirline(a);
    assert MapMessageOk(s, s.inbox[i]);
  }

  /** An airline that has not reported has no report in the map's queue. */
  lemma NoReportYet(cfg: Config, s: State, a: nat)
    requires Shape(cfg, s) && Traffic(cfg, s) && a < |s.airlines| && !HasReported(s.past.duties[a])
    ensures OfAirline(a) !in MapKeys(s.inbox)
  {
    if OfAirline(a) in MapKeys(s.inbox) {
      ReportKey(cfg, s, a);
    }
  }

  lemma ReportTraffic(cfg: Config, s: State, s': State, a: nat)
    requires Shape(cfg, s) && Traffic(cfg, s) && Shape(cfg, s') && a < |s.airlines|
    requires s.past.duties[a].Duty? && s.past.duties[a].progress == Active &&
             s.airlines[a].stage == s.past.duties[a].phase
    requires s'.inbox == s.inbox + [Report(s.airlines[a].stage, a)] && s'.past.now == s.past.now && s'.mapPc == s.mapPc
    requires s'.past.duties == s.past.duties[a := Duty(s.airlines[a].stage, Reported)]
    requires forall b | 0 <= b < |s.airlines| :: SameReplies(s.airlines[b], s'.airlines[b])
    requires forall p | 0 <= p < |s.planes| :: SameErrand(s.planes[p], s'.planes[p])
    ensures Traffic(cfg, s')
  {
    assert InboxInv(cfg, s);
    NoReportYet(cfg, s, a);
    MapPushes(s.inbox, Report(s.airlines[a].stage, a));
    forall i: nat | i < |s'.inbox| ensures MapMessageOk(s', s'.inbox[i]) {
      if i < |s.inbox| {
        assert MapMessageOk(s, s.inbox[i]);
      }
    }
    forall b: nat | b < |s'.airlines| ensures RepliesInv(cfg, s', b) {
      QuietReplies(cfg, s, s', b);
    }
    forall p: nat | p < |s'.planes| ensures TokenInv(cfg, s', p) {
      ReportTokens(cfg, s, s', a, p);
    }
  }

  lemma ReportTokens(cfg: Config, s: State, s': State, a: nat, p: nat)
    requires Shape(cfg, s) && Traffic(cfg, s) && Shape(cfg, s') && a < |s.airlines| && p < |s.planes|
    requires s'.inbox == s.inbox + [Report(s.airlines[a].stage, a)] && s'.past.now == s.past.now && s'.mapPc == s.mapPc
    requires forall b | 0 <= b < |s.airlines| :: SameReplies(s.airlines[b], s'.airlines[b])
    requires SameErrand(s.planes[p], s'.planes[p])
    requires forall k :: k in MapKeys(s'.inbox) <==> k in MapKeys(s.inbox) || k == OfAirline(a)
    ensures TokenInv(cfg, s', p)
  {
    PlaneOwner(cfg, p);
    assert TokenInv(cfg, s, p);
    assert SameReplies(s.airlines[cfg.owner[p]], s'.airlines[cfg.owner[p]]);
  }

  lemma MapCountsReportTraffic(cfg: Config, s: State, s': State)
    requires Shape(cfg, s) && Traffic(cfg, s) && MapCountsReport(cfg, s, s')
    ensures Shape(cfg, s') && Traffic(cfg, s')
  {
    var m := s.inbox[0];
    assert InboxInv(cfg, s);
    assert MapMessageOk(s, m);
    MapPops(s.inbox);
    forall i: nat | i < |s'.inbox| ensures MapMessageOk(s', s'.inbox[i]) {
      assert MapMessageOk(s, s.inbox[i + 1]);
      assert MapKeys(s.inbox)[i + 1] != MapKeys(s.inbox)[0];
    }
    forall b: nat | b < |s'.airlines| ensures RepliesInv(cfg, s', b) {
      QuietReplies(cfg, s, s', b);
    }
    forall p: nat | p < |s'.planes| ensures TokenInv(cfg, s', p) {
      assert TokenInv(cfg, s, p);
    }
  }

  // ---------------------------------------------------------------- requests

  lemma RequestTraffic(cfg: Config, s: State, s': State, p: nat, m: ToMap)
    requires Shape(cfg, s) && Traffic(cfg, s) && Shape(cfg, s') && p < |s.planes|
    requires !Awaiting(s.planes[p].pc) && Awaiting(s'.planes[p].pc) && s'.planes[p].mail == []
    requires MapKey(m) == OfPlane(p) && MapMessageOk(s', m)
    requires s'.inbox == s.inbox + [m] && s'.past == s.past && s'.mapPc == s.mapPc && s'.airlines == s.airlines
    requires s'.planes == s.planes[p := s'.planes[p]]
    ensures Traffic(cfg, s')
  {
    assert InboxInv(cfg, s);
    assert TokenInv(cfg, s, p);
    MapPushes(s.inbox, m);
    forall i: nat | i < |s'.inbox| ensures MapMessageOk(s', s'.inbox[i]) {
      if i < |s.inbox| {
        assert MapMessageOk(s, s.inbox[i]);
      }
    }
    forall b: nat | b < |s'.airlines| ensures RepliesInv(cfg, s', b) {
      RepliesToOthers(cfg, s, s', b, p);
    }
    forall q: nat | q < |s'.planes| ensures TokenInv(cfg, s', q) {
      assert TokenInv(cfg, s, q);
    }
  }

  /** Replies and forwarded messages are for waiting planes, so they do not see another plane change. */
  lemma RepliesToOthers(cfg: Config, s: State, s': State, b: nat, p: nat)
    requires Shape(cfg, s) && Traffic(cfg, s) && Shape(cfg, s') && p < |s.planes| && b < |s.airlines|
    requires !Awaiting(s.planes[p].pc) && s'.past == s.past && s'.airlines == s.airlines
    requires s'.planes == s.planes[p := s'.planes[p]]
    ensures RepliesInv(cfg, s', b)
  {
    assert RepliesInv(cfg, s, b);
    forall i: nat | i < |s'.airlines[b].inbox| ensures ReplyOk(cfg, s', b, s'.airlines[b].inbox[i]) {
      assert ReplyOk(cfg, s, b, s.airlines[b].inbox[i]);
    }
  }

  lemma PlaneUnloadsTraffic(cfg: Config, s: State, s': State, p: nat)
    requires Shape(cfg, s) && ControlInv(cfg, s) && Traffic(cfg, s) && p < |s.planes| &&
             (PlaneUnloads(cfg, s, s', p) || PlaneAsks(cfg, s, s', p))
    ensures Shape(cfg, s') && Traffic(cfg, s')
  {
    assert PlaneInv(cfg, s, p);
    RequestTraffic(cfg, s, s', p, s'.inbox[|s.inbox|]);
  }

  // ---------------------------------------------------------------- answers

  /** The map takes a request off its queue and holds the reply. */
  lemma MapServesTraffic(cfg: Config, s: State, s': State)
    requires Inv(cfg, s) && MapServes(cfg, s, s')
    ensures Shape(cfg, s') && Traffic(cfg, s')
  {
    var m := s.inbox[0];
    var p := m.plane;
    assert InboxInv(cfg, s);
    assert MapMessageOk(s, m);
    WaitingMode(cfg, s, p);
    WaitingBody(cfg, s, p);
    assert MapKeys(s.inbox)[0] == OfPlane(p);
    MapPops(s.inbox);
    assert TokenInv(cfg, s, p);
    forall i: nat | i < |s'.inbox| ensures MapMessageOk(s', s'.inbox[i]) {
      assert MapMessageOk(s, s.inbox[i + 1]);
    }
    forall b: nat | b < |s'.airlines| ensures RepliesInv(cfg, s', b) {
      ServedReplies(cfg, s, s', b);
    }
    forall q: nat | q < |s'.planes| ensures TokenInv(cfg, s', q) {
      ServedToken(cfg, s, s', q);
    }
  }

  /** A plane whose request is still in the map's queue has the simulation's data. */
  lemma WaitingBody(cfg: Config, s: State, p: nat)
    requires Inv(cfg, s) && p < |s.planes| && Awaiting(s.planes[p].pc) && AtMap(s, p)
    ensures p < |s.past.now.planes| && s.planes[p].body == s.past.now.planes[p]
  {
    WaitingMode(cfg, s, p);
    assert BodyInv(cfg, s, p);
    if s.planes[p].pc == AwaitingStock {
      WaitingServed(cfg, s, p);
    }
  }

  lemma NoDestinationsYet(cfg: Config, s: State, q: nat)
    requires Shape(cfg, s) && ControlInv(cfg, s) && Traffic(cfg, s) && ModeOf(s.mapPc) == PhaseOne && q < |s.planes|
    ensures s.planes[q].pc != AwaitingDestinations
  {
    if s.planes[q].pc == AwaitingDestinations {
      WaitingMode(cfg, s, q);
    }
  }

  lemma ServedReplies(cfg: Config, s: State, s': State, b: nat)
    requires Shape(cfg, s) && ControlInv(cfg, s) && Traffic(cfg, s) && MapServes(cfg, s, s') && b < |s.airlines|
    ensures RepliesInv(cfg, s', b)
  {
    var p := s.inbox[0].plane;
    assert InboxInv(cfg, s);
    assert MapMessageOk(s, s.inbox[0]);
    assert MapKeys(s.inbox)[0] == OfPlane(p);
    assert TokenInv(cfg, s, p);
    assert RepliesInv(cfg, s, b);
    var al := s.airlines[b];
    forall i: nat | i < |al.inbox| ensures ReplyOk(cfg, s', b, al.inbox[i]) {
      var r := al.inbox[i];
      assert ReplyOk(cfg, s, b, r);
      if !r.Control? {
        assert ReplyKeys(al.inbox)[i] == OfPlane(r.plane);
        assert r.plane != p;
        NoDestinationsYet(cfg, s, r.plane);
      }
    }
    if al.pc.Forwarding? {
      NoDestinationsYet(cfg, s, al.pc.plane);
      ServedMail(cfg, s, s', al.pc.plane, al.pc.msg);
    }
  }

  lemma ServedMail(cfg: Config, s: State, s': State, q: nat, msg: ToPlane)
    requires Shape(cfg, s) && ControlInv(cfg, s) && Traffic(cfg, s) && MapServes(cfg, s, s') &&
             q != s.inbox[0].plane && MailOk(cfg, s, q, msg)
    ensures MailOk(cfg, s', q, msg)
  {
    match msg
    case Go(_) =>
    case NewStock(amounts) =>
      var load :| StockOk(s, q, load) && amounts == Amounts(load);
      assert StockOk(s', q, load);
    case NewDestinations(_) =>
      NoDestinationsYet(cfg, s, q);
  }

  lemma ServedToken(cfg: Config, s: State, s': State, q: nat)
    requires Shape(cfg, s) && ControlInv(cfg, s) && Traffic(cfg, s) && MapServes(cfg, s, s') && q < |s.planes|
    ensures TokenInv(cfg, s', q)
  {
    var p := s.inbox[0].plane;
    assert InboxInv(cfg, s);
    assert MapMessageOk(s, s.inbox[0]);
    assert MapKeys(s.inbox)[0] == OfPlane(p);
    MapPops(s.inbox);
    assert TokenInv(cfg, s, p);
    assert TokenInv(cfg, s, q);
    if Mailed(s, q) {
      ServedMail(cfg, s, s', q, s.planes[q].mail[0]);
    }
  }

  lemma MapAnswersTraffic(cfg: Config, s: State, s': State, l: seq<CityInfo>)
    requires Inv(cfg, s) && MapAnswers(cfg, s, s', l)
    ensures Shape(cfg, s') && Traffic(cfg, s')
  {
    var m := s.inbox[0];
    var p := m.plane;
    assert InboxInv(cfg, s);
    assert MapMessageOk(s, m);
    assert MapKeys(s.inbox)[0] == OfPlane(p);
    MapPops(s.inbox);
    forall i: nat | i < |s'.inbox| ensures MapMessageOk(s', s'.inbox[i]) {
      assert MapMessageOk(s, s.inbox[i + 1]);
    }
    forall b: nat | b < |s'.airlines| ensures RepliesInv(cfg, s', b) {
      assert RepliesInv(cfg, s, b);
      QuietReplies(cfg, s, s', b);
    }
    forall q: nat | q < |s'.planes| ensures TokenInv(cfg, s', q) {
      assert TokenInv(cfg, s, q);
    }
  }

  lemma RepliedReplies(cfg: Config, s: State, s': State, b: nat)
    requires Inv(cfg, s) && MapReplies(cfg, s, s') && b < |s.airlines|
    ensures RepliesInv(cfg, s', b)
  {
    ReplyTarget(cfg, s);
    assert InboxInv(cfg, s);
    assert TokenInv(cfg, s, s.mapPc.reply.plane);
    assert RepliesInv(cfg, s, b);
    if b == s.mapPc.to {
      RepliesPush(s.airlines[b].inbox, s.mapPc.reply);
      forall i: nat | i < |s'.airlines[b].inbox| ensures ReplyOk(cfg, s', b, s'.airlines[b].inbox[i]) {
        if i < |s.airlines[b].inbox| {
          assert ReplyOk(cfg, s, b, s.airlines[b].inbox[i]);
        }
      }
    } else {
      QuietReplies(cfg, s, s', b);
    }
  }

  lemma RepliedToken(cfg: Config, s: State, s': State, q: nat)
    requires Inv(cfg, s) && MapReplies(cfg, s, s') && q < |s.planes|
    ensures TokenInv(cfg, s', q)
  {
    ReplyTarget(cfg, s);
    var t := s.mapPc.to;
    assert TokenInv(cfg, s, s.mapPc.reply.plane);
    assert TokenInv(cfg, s, q);
    assert RepliesInv(cfg, s, t);
    RepliesPush(s.airlines[t].inbox, s.mapPc.reply);
  }

  lemma MapRepliesTraffic(cfg: Config, s: State, s': State)
    requires Inv(cfg, s) && MapReplies(cfg, s, s')
    ensures Shape(cfg, s') && Traffic(cfg, s')
  {
    assert InboxInv(cfg, s);
    forall i: nat | i < |s'.inbox| ensures MapMessageOk(s', s'.inbox[i]) {
      assert MapMessageOk(s, s.inbox[i]);
    }
    forall b: nat | b < |s'.airlines| ensures RepliesInv(cfg, s', b) {
      RepliedReplies(cfg, s, s', b);
    }
    forall q: nat | q < |s'.planes| ensures TokenInv(cfg, s', q) {
      RepliedToken(cfg, s, s', q);
    }
  }

  /** A control message in or out of an airline's queue moves no reply. */
  lemma ControlTraffic(cfg: Config, s: State, s': State, a: nat)
    requires Shape(cfg, s) && Traffic(cfg, s) && Shape(cfg, s') && a < |s.airlines|
    requires s'.inbox == s.inbox && s'.past.now == s.past.now && s'.planes == s.planes
    requires (!s.mapPc.Replying? && !s'.mapPc.Replying?) || s'.mapPc == s.mapPc
    requires s'.airlines == s.airlines[a := s'.airlines[a]]
    requires !s.airlines[a].pc.Forwarding? && !s'.airlines[a].pc.Forwarding?
    requires forall k: Key | k.OfPlane? :: k !in ReplyKeys(s.airlines[a].inbox) && k !in ReplyKeys(s'.airlines[a].inbox)
    requires |s'.airlines[a].inbox| <= 1 && forall m | m in s'.airlines[a].inbox :: m.Control?
    requires s'.past.duties == s.past.duties[a := s'.past.duties[a]]
    requires !HasReported(s.past.duties[a]) && !HasReported(s'.past.duties[a])
    ensures Traffic(cfg, s')
  {
    assert InboxInv(cfg, s);
    forall i: nat | i < |s'.inbox| ensures MapMessageOk(s', s'.inbox[i]) {
      assert MapMessageOk(s, s.inbox[i]);
    }
    forall b: nat | b < |s'.airlines| ensures RepliesInv(cfg, s', b) {
      assert RepliesInv(cfg, s, b);
      if b != a {
        QuietReplies(cfg, s, s', b);
      }
    }
    forall q: nat | q < |s'.planes| ensures TokenInv(cfg, s', q) {
      assert TokenInv(cfg, s, q);
    }
  }

  lemma MapSendsTraffic(cfg: Config, s: State, s': State)
    requires Shape(cfg, s) && ControlInv(cfg, s) && Traffic(cfg, s) && MapSends(cfg, s, s')
    ensures Shape(cfg, s') && Traffic(cfg, s')
  {
    var k := s.mapPc.k;
    assert MapInv(cfg, s);
    assert DutyFits(s.mapPc, k, s.past.duties[k]);
    assert AirlineControl(cfg, s, k);
    assert s'.airlines[k].inbox == [Control(s.mapPc.signal)];
    ControlTraffic(cfg, s, s', k);
  }

  lemma ListenerHearsSignalTraffic(cfg: Config, s: State, s': State, a: nat)
    requires Shape(cfg, s) && ControlInv(cfg, s) && Traffic(cfg, s) && a < |s.airlines|
    requires ListenerHearsEnd(cfg, s, s', a) || (ListenerHears(s, s', a) && s.airlines[a].inbox[0].Control?)
    ensures Shape(cfg, s') && Traffic(cfg, s')
  {
    HeadControl(cfg, s, a);
    assert ReplyKeys(s.airlines[a].inbox) == [OfMap];
    ControlTraffic(cfg, s, s', a);
  }

  lemma ListenerHearsReplyTraffic(cfg: Config, s: State, s': State, a: nat)
    requires Shape(cfg, s) && Traffic(cfg, s) && a < |s.airlines| && ListenerHears(s, s', a) &&
             !s.airlines[a].inbox[0].Control?
    ensures Shape(cfg, s') && Traffic(cfg, s')
  {
    var al := s.airlines[a];
    var r := al.inbox[0];
    assert InboxInv(cfg, s);
    assert RepliesInv(cfg, s, a);
    assert ReplyOk(cfg, s, a, r);
    assert ReplyKeys(al.inbox)[0] == OfPlane(r.plane);
    RepliesPop(al.inbox);
    forall i: nat | i < |s'.inbox| ensures MapMessageOk(s', s'.inbox[i]) {
      assert MapMessageOk(s, s.inbox[i]);
    }
    forall b: nat | b < |s'.airlines| ensures RepliesInv(cfg, s', b) {
      assert RepliesInv(cfg, s, b);
      if b != a {
        QuietReplies(cfg, s, s', b);
      } else {
        forall i: nat | i < |s'.airlines[b].inbox| ensures ReplyOk(cfg, s', b, s'.airlines[b].inbox[i]) {
          assert ReplyOk(cfg, s, b, s.airlines[b].inbox[i + 1]);
        }
        if r.StockReply? {
          assert StockOk(s', r.plane, r.load);
        }
      }
    }
    forall q: nat | q < |s'.planes| ensures TokenInv(cfg, s', q) {
      assert TokenInv(cfg, s, q);
    }
  }

  lemma ForwardedReplies(cfg: Config, s: State, s': State, a: nat, b: nat)
    requires Shape(cfg, s) && Traffic(cfg, s) && a < |s.airlines| && ListenerForwards(cfg, s, s', a) && b < |s.airlines|
    ensures RepliesInv(cfg, s', b)
  {
    assert RepliesInv(cfg, s, b);
    forall i: nat | i < |s'.airlines[b].inbox| ensures ReplyOk(cfg, s', b, s'.airlines[b].inbox[i]) {
      assert ReplyOk(cfg, s, b, s.airlines[b].inbox[i]);
    }
    if s'.airlines[b].pc.Forwarding? {
      MailStays(cfg, s, s', s.airlines[b].pc.plane, s.airlines[b].pc.msg);
    }
  }

  lemma ForwardedToken(cfg: Config, s: State, s': State, a: nat, q: nat)
    requires Inv(cfg, s) && a < |s.airlines| && ListenerForwards(cfg, s, s', a) && q < |s.planes|
    ensures TokenInv(cfg, s', q)
  {
    ForwardTarget(cfg, s, a);
    assert RepliesInv(cfg, s, a);
    assert TokenInv(cfg, s, q);
    if q == s.airlines[a].pc.plane {
      assert s'.planes[q].mail == [s.airlines[a].pc.msg];
      MailStays(cfg, s, s', q, s.airlines[a].pc.msg);
    } else if Mailed(s, q) {
      MailStays(cfg, s, s', q, s.planes[q].mail[0]);
    }
  }

  lemma ListenerForwardsTraffic(cfg: Config, s: State, s': State, a: nat)
    requires Inv(cfg, s) && a < |s.airlines| && ListenerForwards(cfg, s, s', a)
    ensures Shape(cfg, s') && Traffic(cfg, s')
  {
    assert InboxInv(cfg, s);
    forall i: nat | i < |s'.inbox| ensures MapMessageOk(s', s'.inbox[i]) {
      assert MapMessageOk(s, s.inbox[i]);
    }
    forall b: nat | b < |s'.airlines| ensures RepliesInv(cfg, s', b) {
      ForwardedReplies(cfg, s, s', a, b);
    }
    forall q: nat | q < |s'.planes| ensures TokenInv(cfg, s', q) {
      ForwardedToken(cfg, s, s', a, q);
    }
  }

  /** A good message stays good while its plane waits with the same data. */
  lemma MailStays(cfg: Config, s: State, s': State, q: nat, msg: ToPlane)
    requires MailOk(cfg, s, q, msg) && q < |s.planes| && q < |s'.planes|
    requires s'.planes[q].pc == s.planes[q].pc && s'.planes[q].body == s.planes[q].body && s'.past.now == s.past.now
    ensures MailOk(cfg, s', q, msg)
  {
    if msg.NewStock? {
      var load :| StockOk(s, q, load) && msg.amounts == Amounts(load);
      assert StockOk(s', q, load);
    }
  }

  lemma PlaneReceivesTraffic(cfg: Config, s: State, s': State, p: nat)
    requires Shape(cfg, s) && Traffic(cfg, s) && p < |s.planes| && (PlaneTakesStock(s, s', p) || PlaneChooses(s, s', p))
    ensures Shape(cfg, s') && Traffic(cfg, s')
  {
    assert InboxInv(cfg, s);
    assert TokenInv(cfg, s, p);
    forall i: nat | i < |s'.inbox| ensures MapMessageOk(s', s'.inbox[i]) {
      assert MapMessageOk(s, s.inbox[i]);
      assert MapKeys(s.inbox)[i] != OfPlane(p);
    }
    forall b: nat | b < |s'.airlines| ensures RepliesInv(cfg, s', b) {
      ReceivedReplies(cfg, s, s', p, b);
    }
    forall q: nat | q < |s'.planes| ensures TokenInv(cfg, s', q) {
      assert TokenInv(cfg, s, q);
      if q != p && Mailed(s, q) {
        MailStays(cfg, s, s', q, s.planes[q].mail[0]);
      }
    }
  }

  lemma ReceivedReplies(cfg: Config, s: State, s': State, p: nat, b: nat)
    requires Shape(cfg, s) && Traffic(cfg, s) && p < |s.planes| &&
             (PlaneTakesStock(s, s', p) || PlaneChooses(s, s', p)) && b < |s.airlines|
    ensures RepliesInv(cfg, s', b)
  {
    assert TokenInv(cfg, s, p);
    assert RepliesInv(cfg, s, b);
    var al := s.airlines[b];
    forall i: nat | i < |al.inbox| ensures ReplyOk(cfg, s', b, al.inbox[i]) {
      assert ReplyOk(cfg, s, b, al.inbox[i]);
      if !al.inbox[i].Control? {
        assert ReplyKeys(al.inbox)[i] == OfPlane(al.inbox[i].plane);
      }
    }
    if al.pc.Forwarding? {
      MailStays(cfg, s, s', al.pc.plane, al.pc.msg);
    }
  }

  /** At the end of a turn nobody waits and no reply is under way. */
  lemma NobodyWaits(cfg: Config, s: State)
    requires Shape(cfg, s) && ControlInv(cfg, s) && Traffic(cfg, s) && s.mapPc.Collecting? &&
             s.mapPc.reports == |s.airlines|
    ensures forall a | 0 <= a < |s.airlines| :: s.past.duties[a] == Duty(s.mapPc.phase, Acked)
    ensures forall p | 0 <= p < |s.planes| :: Resting(s.mapPc.phase, s.planes[p])
    ensures forall a | 0 <= a < |s.airlines| :: s.airlines[a].inbox == [] && !s.airlines[a].pc.Forwarding?
    ensures s.inbox == []
  {
    assert MapInv(cfg, s);
    AckedBounds(s.past.duties);
    forall a: nat | a < |s.airlines|
      ensures s.past.duties[a] == Duty(s.mapPc.phase, Acked) && s.airlines[a].inbox == [] &&
              !s.airlines[a].pc.Forwarding?
    {
      assert DutyFits(s.mapPc, a, s.past.duties[a]);
      assert AirlineControl(cfg, s, a);
    }
    forall p: nat | p < |s.planes| ensures Resting(s.mapPc.phase, s.planes[p]) {
      PlaneOwner(cfg, p);
      assert PlaneInv(cfg, s, p);
    }
    if s.inbox != [] {
      assert InboxInv(cfg, s);
      assert MapMessageOk(s, s.inbox[0]);
    }
  }

  lemma MapEndsTurnTraffic(cfg: Config, s: State, s': State)
    requires Shape(cfg, s) && ControlInv(cfg, s) && Traffic(cfg, s) && MapEndsTurn(s, s')
    ensures Shape(cfg, s') && Traffic(cfg, s')
  {
    NobodyWaits(cfg, s);
    forall b: nat | b < |s'.airlines| ensures RepliesInv(cfg, s', b) {
    }
    forall q: nat | q < |s'.planes| ensures TokenInv(cfg, s', q) {
      assert TokenInv(cfg, s, q);
      PlaneOwner(cfg, q);
    }
  }
}
