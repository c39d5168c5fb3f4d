/** The protocol's channels are queues with limited room. */
module ProtocolChannels {
  // Every step of the interleaved system does to each channel what a first-in-first-out queue with the room given
  // for it can do.  That is what the shared-memory queue, with room for sixteen, and the mailbox, with room for nine,
  // are shown to do in their own modules.

  import opened Delivery
  import opened Turns
  import opened Protocol
  import Fifo

  /** What one step does to the map's queue, the airlines' queues and the mailboxes. */
  ghost predicate UsesChannels(cfg: Config, s: State, s': State) {
    && Fifo.Moves(cfg.mapRoom, s.inbox, s'.inbox)
    && |s'.airlines| == |s.airlines| && |s'.planes| == |s.planes|
    && (forall a | 0 <= a < |s.airlines| :: Fifo.Moves(cfg.airlineRoom, s.airlines[a].inbox, s'.airlines[a].inbox))
    && (forall p | 0 <= p < |s.planes| :: Fifo.Moves(cfg.mailRoom, s.planes[p].mail, s'.planes[p].mail))
  }

  /** A step that changes no queue but those named. */
  lemma Quiet(cfg: Config, s: State, s': State)
    requires Fifo.Moves(cfg.mapRoom, s.inbox, s'.inbox)
    requires |s'.airlines| == |s.airlines| && |s'.planes| == |s.planes|
    requires forall a | 0 <= a < |s.airlines| ::
               s'.airlines[a].inbox == s.airlines[a].inbox
               || Fifo.Moves(cfg.airlineRoom, s.airlines[a].inbox, s'.airlines[a].inbox)
    requires forall p | 0 <= p < |s.planes| ::
               s'.planes[p].mail == s.planes[p].mail || Fifo.Moves(cfg.mailRoom, s.planes[p].mail, s'.planes[p].mail)
    ensures UsesChannels(cfg, s, s')
  {
    forall a | 0 <= a < |s.airlines|
      ensures Fifo.Moves(cfg.airlineRoom, s.airlines[a].inbox, s'.airlines[a].inbox)
    {
      Fifo.Stays(cfg.airlineRoom, s.airlines[a].inbox);
    }
    forall p | 0 <= p < |s.planes| ensures Fifo.Moves(cfg.mailRoom, s.planes[p].mail, s'.planes[p].mail) {
      Fifo.Stays(cfg.mailRoom, s.planes[p].mail);
    }
  }

  lemma MapPushesToAirline(cfg: Config, s: State, s': State)
    requires Shape(cfg, s) && (MapSends(cfg, s, s') || MapReplies(cfg, s, s'))
    ensures UsesChannels(cfg, s, s')
  {
    Fifo.Stays(cfg.mapRoom, s.inbox);
    var a, m := if s.mapPc.Sending? then s.mapPc.k else s.mapPc.to,
                if s.mapPc.Sending? then Control(s.mapPc.signal) else s.mapPc.reply;
    Fifo.Pushes(cfg.airlineRoom, s.airlines[a].inbox, m);
    Quiet(cfg, s, s');
  }

  lemma MapElse(cfg: Config, s: State, s': State)
    requires Shape(cfg, s) && (RaiseStop(s, s') || MapStep(cfg, s, s'))
    requires !MapSends(cfg, s, s') && !MapReplies(cfg, s, s')
    ensures UsesChannels(cfg, s, s')
  {
    Fifo.Stays(cfg.mapRoom, s.inbox);
    if s.inbox != [] {
      Fifo.Pops(cfg.mapRoom, s.inbox);
    }
    Quiet(cfg, s, s');
  }

  lemma ListenerTakes(cfg: Config, s: State, s': State, a: nat)
    requires Shape(cfg, s) && a < |s.airlines| && (ListenerHears(s, s', a) || ListenerHearsEnd(cfg, s, s', a))
    ensures UsesChannels(cfg, s, s')
  {
    Fifo.Stays(cfg.mapRoom, s.inbox);
    Fifo.Pops(cfg.airlineRoom, s.airlines[a].inbox);
    Quiet(cfg, s, s');
  }

  lemma ListenerPushes(cfg: Config, s: State, s': State, a: nat)
    requires Shape(cfg, s) && a < |s.airlines|
    requires ListenerBroadcasts(cfg, s, s', a) || ListenerEnds(cfg, s, s', a) || ListenerForwards(cfg, s, s', a)
    ensures UsesChannels(cfg, s, s')
  {
    Fifo.Stays(cfg.mapRoom, s.inbox);
    var pc := s.airlines[a].pc;
    var p, m := if pc.Forwarding? then pc.plane else pc.j,
                if pc.Forwarding? then pc.msg else Go(if pc.Ending? then End else pc.signal);
    if |s.planes[p].mail| < cfg.mailRoom {
      Fifo.Pushes(cfg.mailRoom, s.planes[p].mail, m);
    }
    Quiet(cfg, s, s');
  }

  lemma ListenerElse(cfg: Config, s: State, s': State, a: nat)
    requires Shape(cfg, s) && a < |s.airlines| && ListenerStep(cfg, s, s', a)
    requires !ListenerHears(s, s', a) && !ListenerHearsEnd(cfg, s, s', a)
    requires !ListenerBroadcasts(cfg, s, s', a) && !ListenerEnds(cfg, s, s', a) && !ListenerForwards(cfg, s, s', a)
    ensures UsesChannels(cfg, s, s')
  {
    Fifo.Stays(cfg.mapRoom, s.inbox);
    if |s.inbox| < cfg.mapRoom {
      Fifo.Pushes(cfg.mapRoom, s.inbox, Report(s.airlines[a].stage, a));
    }
    Quiet(cfg, s, s');
  }

  lemma PlanePushes(cfg: Config, s: State, s': State, p: nat)
    requires Shape(cfg, s) && p < |s.planes|
    requires PlaneUnloads(cfg, s, s', p) || PlaneAsks(cfg, s, s', p) || PlaneReports(cfg, s, s', p)
    ensures UsesChannels(cfg, s, s')
  {
    Fifo.Pushes(cfg.mapRoom, s.inbox, s'.inbox[|s.inbox|]);
    Quiet(cfg, s, s');
  }

  lemma PlaneElse(cfg: Config, s: State, s': State, p: nat)
    requires Shape(cfg, s) && p < |s.planes| && PlaneStep(cfg, s, s', p)
    requires !PlaneUnloads(cfg, s, s', p) && !PlaneAsks(cfg, s, s', p) && !PlaneReports(cfg, s, s', p)
    ensures UsesChannels(cfg, s, s')
  {
    Fifo.Stays(cfg.mapRoom, s.inbox);
    if s.planes[p].mail != [] {
      Fifo.Pops(cfg.mailRoom, s.planes[p].mail);
    }
    Quiet(cfg, s, s');
  }

  /** Every step of the protocol uses every channel as a queue with limited room. */
  lemma StepUsesChannels(cfg: Config, s: State, s': State)
    requires Next(cfg, s, s')
    ensures UsesChannels(cfg, s, s')
  {
    if RaiseStop(s, s') || MapStep(cfg, s, s') {
      if MapSends(cfg, s, s') || MapReplies(cfg, s, s') {
        MapPushesToAirline(cfg, s, s');
      } else {
        MapElse(cfg, s, s');
      }
    } else if exists a: nat :: a < |s.airlines| && ListenerStep(cfg, s, s', a) {
      var a: nat :| a < |s.airlines| && ListenerStep(cfg, s, s', a);
      if ListenerHears(s, s', a) || ListenerHearsEnd(cfg, s, s', a) {
        ListenerTakes(cfg, s, s', a);
      } else if ListenerBroadcasts(cfg, s, s', a) || ListenerEnds(cfg, s, s', a) || ListenerForwards(cfg, s, s', a) {
        ListenerPushes(cfg, s, s', a);
      } else {
        ListenerElse(cfg, s, s', a);
      }
    } else {
      var p: nat :| p < |s.planes| && PlaneStep(cfg, s, s', p);
      if PlaneUnloads(cfg, s, s', p) || PlaneAsks(cfg, s, s', p) || PlaneReports(cfg, s, s', p) {
        PlanePushes(cfg, s, s', p);
      } else {
        PlaneElse(cfg, s, s', p);
      }
    }
  }
}
