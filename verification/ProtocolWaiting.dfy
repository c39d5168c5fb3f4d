/** What the threads wait for. */
module ProtocolWaiting {
  // In every reachable state a thread can take a step if and only if what it waits for, if anything, is there: a
  // message, room in a queue, the lock, or the end of the planes it joins.

  import opened Protocol
  import opened ProtocolInvariant
  import opened ProtocolControl
  import opened ProtocolRefinement
  import opened ProtocolProgress

  /** The map waits for messages while it collects, and for room in the queue of the airline it replies to. */
  ghost predicate MapReady(cfg: Config, s: State) {
    match s.mapPc
    case Deciding => true
    case Sending(_, _) => true
    case Collecting(_, reports) => reports == |s.airlines| || s.inbox != []
    case Replying(_, _, to, _) => to < |s.airlines| && |s.airlines[to].inbox| < cfg.airlineRoom
    case Finished => false
  }

  lemma MapWaits(cfg: Config, es: seq<State>, i: nat)
    requires Execution(cfg, es) && i < |es|
    ensures Shape(cfg, es[i]) && (MapCan(cfg, es[i]) <==> MapReady(cfg, es[i]))
  {
    Reachable(cfg, es, i);
    var s := es[i];
    if MapReady(cfg, s) {
      match s.mapPc
      case Collecting(_, reports) =>
        if reports == |s.airlines| { AllReportedMoves(cfg, s); } else { MapReceives(cfg, s); }
      case Replying(_, _, _, _) => ReplyMoves(cfg, s);
      case _ => MapSendMoves(cfg, s);
    }
  }

  /** A listener waits for a message, for the lock, for room to report in, and for its planes to leave; the mailboxes it
      writes to have room. */
  ghost predicate ListenerReady(cfg: Config, s: State, a: nat)
    requires Shape(cfg, s) && a < |s.airlines|
  {
    match s.airlines[a].pc
    case Listening => s.airlines[a].inbox != []
    case WantLock(_) => s.airlines[a].lock == Free
    case Announcing(_) => |s.inbox| < cfg.mapRoom
    case Joining => forall p | 0 <= p < |s.planes| && cfg.owner[p] == a :: s.planes[p].pc == Exited
    case Gone => false
    case _ => true
  }

  lemma ListenerWaits(cfg: Config, es: seq<State>, i: nat, a: nat)
    requires Execution(cfg, es) && i < |es| && a < |es[i].airlines|
    ensures Shape(cfg, es[i]) && (ListenerCan(cfg, es[i], a) <==> ListenerReady(cfg, es[i], a))
  {
    Reachable(cfg, es, i);
    if ListenerReady(cfg, es[i], a) {
      ListenerMoves(cfg, es[i], a);
    }
  }

  /** A plane waits for a message, for room in the map's queue, or for the lock. */
  ghost predicate PlaneReady(cfg: Config, s: State, p: nat)
    requires Shape(cfg, s) && p < |s.planes|
  {
    match s.planes[p].pc
    case AtStep => s.planes[p].mail != []
    case AtContinue => s.planes[p].mail != []
    case AwaitingStock => s.planes[p].mail != []
    case AwaitingDestinations => s.planes[p].mail != []
    case Unloading => |s.inbox| < cfg.mapRoom
    case Asking => |s.inbox| < cfg.mapRoom
    case Reporting(_) => |s.inbox| < cfg.mapRoom
    case Ready(_) => s.airlines[cfg.owner[p]].lock == Free
    case Releasing(_) => true
    case Exited => false
  }

  lemma PlaneWaits(cfg: Config, es: seq<State>, i: nat, p: nat)
    requires Execution(cfg, es) && i < |es| && p < |es[i].planes|
    ensures Shape(cfg, es[i]) && (PlaneCan(cfg, es[i], p) <==> PlaneReady(cfg, es[i], p))
  {
    Reachable(cfg, es, i);
    if PlaneReady(cfg, es[i], p) {
      PlaneMovesOn(cfg, es[i], p);
    } else if PlaneCan(cfg, es[i], p) {
      var s' :| PlaneStep(cfg, es[i], s', p);
      PlaneNeverFails(cfg, es[i], s', p);
      assert false;
    }
  }
}
