/**
 What every reachable state of the interleaved system satisfies.  The invariant has three parts:
 who may be where (Control), where each request and reply is (Traffic), and how the threads' data relate to the
 turn-by-turn simulation (Books).
 */
module ProtocolInvariant {
  import opened Delivery
  import opened Turns
  import opened Protocol

  // ---------------------------------------------------------------- counting

  /** Planes that still have to report ready in the phase. */
  predicate Pending(ph: Phase, pc: PlanePc) {
    match pc
    case AtStep => ph == First
    case Unloading => ph == First
    case AwaitingStock => ph == First
    case AtContinue => ph == Second
    case Asking => ph == Second
    case AwaitingDestinations => ph == Second
    case Ready(q) => q == ph
    case _ => false
  }

  ghost function CountPending(planes: seq<PlaneThread>, lo: nat, hi: nat, ph: Phase): nat
    requires lo <= hi <= |planes|
    decreases hi
  {
    if lo == hi then 0
    else CountPending(planes, lo, hi - 1, ph) + if Pending(ph, planes[hi - 1].pc) then 1 else 0
  }

  lemma {:induction false} CountUpdate(planes: seq<PlaneThread>, lo: nat, hi: nat, ph: Phase, p: nat, x: PlaneThread)
    requires lo <= hi <= |planes| && p < |planes|
    ensures CountPending(planes[p := x], lo, hi, ph)
            == CountPending(planes, lo, hi, ph)
               + if lo <= p < hi
                 then (if Pending(ph, x.pc) then 1 else 0) - (if Pending(ph, planes[p].pc) then 1 else 0)
                 else 0
    decreases hi
  {
    if lo < hi {
      CountUpdate(planes, lo, hi - 1, ph, p, x);
    }
  }

  lemma {:induction false} CountPositive(planes: seq<PlaneThread>, lo: nat, hi: nat, ph: Phase, p: nat)
    requires lo <= p < hi <= |planes| && Pending(ph, planes[p].pc)
    ensures CountPending(planes, lo, hi, ph) > 0
    decreases hi
  {
    if p < hi - 1 {
      CountPositive(planes, lo, hi - 1, ph, p);
    }
  }

  lemma {:induction false} CountWitness(planes: seq<PlaneThread>, lo: nat, hi: nat, ph: Phase) returns (p: nat)
    requires lo <= hi <= |planes| && CountPending(planes, lo, hi, ph) > 0
    ensures lo <= p < hi && Pending(ph, planes[p].pc)
    decreases hi
  {
    if Pending(ph, planes[hi - 1].pc) {
      p := hi - 1;
    } else {
      p := CountWitness(planes, lo, hi - 1, ph);
    }
  }

  ghost function CountAcked(duties: seq<Duty>): nat {
    if duties == [] then 0
    else (if duties[0].Duty? && duties[0].progress == Acked then 1 else 0) + CountAcked(duties[1..])
  }

  lemma {:induction false} AckedUpdate(duties: seq<Duty>, a: nat, d: Duty)
    requires a < |duties|
    ensures CountAcked(duties[a := d])
            == CountAcked(duties) + (if d.Duty? && d.progress == Acked then 1 else 0)
               - (if duties[a].Duty? && duties[a].progress == Acked then 1 else 0)
  {
    if a == 0 {
      assert duties[a := d][1..] == duties[1..];
    } else {
      assert duties[a := d][1..] == duties[1..][a - 1 := d];
      AckedUpdate(duties[1..], a - 1, d);
    }
  }

  lemma {:induction false} AckedBounds(duties: seq<Duty>)
    ensures CountAcked(duties) <= |duties|
    ensures CountAcked(duties) == |duties| <==>
            forall a | 0 <= a < |duties| :: duties[a].Duty? && duties[a].progress == Acked
    ensures CountAcked(duties) == 0 <==>
            forall a | 0 <= a < |duties| :: !(duties[a].Duty? && duties[a].progress == Acked)
  {
    if duties != [] {
      AckedBounds(duties[1..]);
      assert forall a | 0 < a < |duties| :: duties[a] == duties[1..][a - 1];
    }
  }

  // ---------------------------------------------------------------- control

  /** What an airline may owe while the map is at mapPc. */
  ghost predicate DutyFits(mapPc: MapPc, a: nat, d: Duty) {
    match mapPc
    case Deciding => d == Duty(Second, Acked)
    case Sending(Step, k) =>
      if a < k then d.Duty? && d.phase == First && d.progress != Acked else d == Duty(Second, Acked)
    case Sending(Continue, k) =>
      if a < k then d.Duty? && d.phase == Second && d.progress != Acked else d == Duty(First, Acked)
    case Sending(End, k) => if a < k then d == Dismissed else d == Duty(Second, Acked)
    case Collecting(ph, _) => d.Duty? && d.phase == ph
    case Replying(ph, _, _, _) => d.Duty? && d.phase == ph
    case Finished => d == Dismissed
  }

  ghost predicate MapInv(cfg: Config, s: State)
    requires Shape(cfg, s)
  {
    && (forall a | 0 <= a < |s.airlines| :: DutyFits(s.mapPc, a, s.past.duties[a]))
    && match s.mapPc
       case Sending(_, k) => k <= |s.airlines|
       case Collecting(_, i) => i == CountAcked(s.past.duties)
       case Replying(ph, i, to, reply) =>
         && i == CountAcked(s.past.duties)
         && !reply.Control? && reply.plane < |s.planes| && to == cfg.owner[reply.plane]
         && (ph == First <==> reply.StockReply?)
       case _ => true
  }

  ghost predicate OnlyReplies(inbox: seq<ToAirline>) {
    forall i | 0 <= i < |inbox| :: !inbox[i].Control?
  }

  /** What a listener may be doing, given what its airline owes. */
  ghost predicate ListenerFits(d: Duty, al: Airline, lo: nat, hi: nat) {
    match d
    case Dismissed =>
      || ((al.pc == Listening || al.pc == Unlocking) && al.inbox == [Control(End)])
      || (al.inbox == [] && (al.pc == Joining || al.pc == Gone || (al.pc.Ending? && lo <= al.pc.j <= hi)))
    case Duty(ph, Told) =>
      (al.pc == Listening || al.pc == Unlocking) && al.inbox == [Control(SignalOf(ph))]
    case Duty(ph, Active) =>
      && al.stage == ph && OnlyReplies(al.inbox)
      && (match al.pc
          case WantLock(sig) => sig == SignalOf(ph) && al.inbox == []
          case Counting(sig, j) => sig == SignalOf(ph) && lo <= j <= hi && al.inbox == []
          case Announcing(sig) => al.inbox == []
          case Broadcasting(sig, j) => sig == SignalOf(ph) && lo <= j <= hi
          case Unlocking => true
          case Listening => true
          case Forwarding(_, _) => true
          case _ => false)
    case Duty(ph, _) =>
      (al.pc == Listening || al.pc == Unlocking) && al.inbox == []
  }

  /** The counter against the planes that really have to report. */
  ghost predicate LeftInv(cfg: Config, s: State, a: nat)
    requires Shape(cfg, s) && a < |s.airlines|
  {
    var al, d, lo, hi := s.airlines[a], s.past.duties[a], cfg.first[a], cfg.first[a + 1];
    d.Duty? && d.progress == Active ==>
      match al.pc
      case Counting(_, j) => lo <= j <= hi && al.left == CountPending(s.planes, lo, j, d.phase)
      case Announcing(_) => al.left == 0 && CountPending(s.planes, lo, hi, d.phase) == 0
      case Broadcasting(_, _) => al.left == CountPending(s.planes, lo, hi, d.phase) > 0
      case Unlocking => al.left == CountPending(s.planes, lo, hi, d.phase) > 0
      case WantLock(_) => true
      case _ => && al.left == CountPending(s.planes, lo, hi, d.phase)
                && (al.left == 0 <==>
                    && al.lock.HeldBy? && al.lock.plane < |s.planes|
                    && s.planes[al.lock.plane].pc == Reporting(d.phase))
  }

  predicate ListenerHolds(pc: ListenerPc) {
    pc.Counting? || pc.Announcing? || pc.Broadcasting? || pc.Unlocking?
  }

  predicate PlaneHolds(pc: PlanePc) {
    pc.Reporting? || pc.Releasing?
  }

  ghost predicate LockInv(cfg: Config, s: State, a: nat)
    requires Shape(cfg, s) && a < |s.airlines|
  {
    var al := s.airlines[a];
    && (ListenerHolds(al.pc) <==> al.lock == Listener)
    && (forall p | 0 <= p < |s.planes| && cfg.owner[p] == a :: PlaneHolds(s.planes[p].pc) <==> al.lock == HeldBy(p))
    && (al.lock.HeldBy? ==> al.lock.plane < |s.planes| && cfg.owner[al.lock.plane] == a)
  }

  /** A plane that has nothing left to do in the phase. */
  ghost predicate Resting(ph: Phase, pl: PlaneThread) {
    && pl.mail == []
    && match pl.pc
       case AtStep => ph == Second && !pl.body.done
       case AtContinue => ph == First && !pl.body.done
       case Releasing(q) => q == ph
       case Exited => pl.body.done
       case _ => false
  }

  predicate Awaiting(pc: PlanePc) {
    pc == AwaitingStock || pc == AwaitingDestinations
  }

  /** A plane that is busy with the phase. */
  ghost predicate Working(ph: Phase, pl: PlaneThread) {
    match pl.pc
    case AtStep => ph == First && pl.mail == [Go(Step)] && !pl.body.done
    case Unloading => ph == First && pl.mail == [] && Landed(pl.body)
    case AwaitingStock => ph == First && |pl.mail| <= 1 && Landed(pl.body)
    case AtContinue => ph == Second && pl.mail == [Go(Continue)] && !pl.body.done
    case Asking => ph == Second && pl.mail == [] && Landed(pl.body)
    case AwaitingDestinations => ph == Second && |pl.mail| <= 1 && Landed(pl.body)
    case Ready(q) => q == ph && pl.mail == []
    case Reporting(q) => q == ph && pl.mail == []
    case _ => false
  }

  /** A plane whose airline has been dismissed, before and after it has been told. */
  ghost predicate Leaving(told: bool, pl: PlaneThread) {
    if !told then Resting(Second, pl)
    else match pl.pc
         case AtStep => pl.mail == [Go(End)] && !pl.body.done
         case Releasing(q) => q == Second && pl.mail == if pl.body.done then [] else [Go(End)]
         case Exited => pl.body.done && pl.mail == []
         case _ => false
  }

  /** Whether the broadcast of the current signal has passed plane p. */
  predicate Begun(pc: ListenerPc, p: nat) {
    match pc
    case Broadcasting(_, j) => p < j
    case Unlocking => true
    case Listening => true
    case Forwarding(_, _) => true
    case _ => false
  }

  predicate ToldToEnd(pc: ListenerPc, p: nat) {
    match pc
    case Ending(j) => p < j
    case Joining => true
    case Gone => true
    case _ => false
  }

  ghost predicate PlaneFits(d: Duty, pc: ListenerPc, p: nat, pl: PlaneThread) {
    match d
    case Dismissed => Leaving(ToldToEnd(pc, p), pl) && (pc == Gone ==> pl.pc == Exited)
    case Duty(ph, Told) => Resting(Other(ph), pl)
    case Duty(ph, Active) => if Begun(pc, p) then Working(ph, pl) || Resting(ph, pl) else Resting(Other(ph), pl)
    case Duty(ph, _) => Resting(ph, pl)
  }

  ghost predicate ListenerInv(cfg: Config, s: State, a: nat)
    requires Shape(cfg, s) && a < |s.airlines|
  {
    ListenerFits(s.past.duties[a], s.airlines[a], cfg.first[a], cfg.first[a + 1])
  }

  ghost predicate PlaneInv(cfg: Config, s: State, p: nat)
    requires Shape(cfg, s) && p < |s.planes|
  {
    PlaneFits(s.past.duties[cfg.owner[p]], s.airlines[cfg.owner[p]].pc, p, s.planes[p])
  }

  ghost predicate AirlineControl(cfg: Config, s: State, a: nat)
    requires Shape(cfg, s) && a < |s.airlines|
  {
    ListenerInv(cfg, s, a) && LeftInv(cfg, s, a) && LockInv(cfg, s, a)
  }

  ghost predicate ControlInv(cfg: Config, s: State)
    requires Shape(cfg, s)
  {
    && MapInv(cfg, s)
    && (forall a: nat | a < |s.airlines| :: AirlineControl(cfg, s, a))
    && (forall p: nat | p < |s.planes| :: PlaneInv(cfg, s, p))
  }

  // ---------------------------------------------------------------- traffic

  /** Who a message is about.  No queue ever holds two messages about the same one. */
  datatype Key = OfAirline(airline: nat) | OfPlane(plane: nat) | OfMap

  function MapKey(m: ToMap): Key {
    match m
    case AirlineDone(a) => OfAirline(a)
    case AirlineStatus(a) => OfAirline(a)
    case UnloadStock(p, _, _) => OfPlane(p)
    case CheckDestinations(p, _, _) => OfPlane(p)
  }

  function ReplyKey(m: ToAirline): Key {
    match m
    case Control(_) => OfMap
    case StockReply(p, _) => OfPlane(p)
    case DestinationsReply(p, _) => OfPlane(p)
  }

  ghost function MapKeys(q: seq<ToMap>): (ks: seq<Key>)
    ensures |ks| == |q| && forall i | 0 <= i < |q| :: ks[i] == MapKey(q[i])
  {
    seq(|q|, i requires 0 <= i < |q| => MapKey(q[i]))
  }

  ghost function ReplyKeys(q: seq<ToAirline>): (ks: seq<Key>)
    ensures |ks| == |q| && forall i | 0 <= i < |q| :: ks[i] == ReplyKey(q[i])
  {
    seq(|q|, i requires 0 <= i < |q| => ReplyKey(q[i]))
  }

  ghost predicate Distinct(ks: seq<Key>) {
    forall i, j | 0 <= i < j < |ks| :: ks[i] != ks[j]
  }

  lemma PopKeys(ks: seq<Key>)
    requires Distinct(ks) && ks != []
    ensures Distinct(ks[1..])
    ensures forall k :: k in ks[1..] <==> k in ks && k != ks[0]
  {
    forall k | k in ks && k != ks[0] ensures k in ks[1..] {
      var i :| 0 <= i < |ks| && ks[i] == k;
      assert ks[1..][i - 1] == k;
    }
  }

  lemma PushKeys(ks: seq<Key>, x: Key)
    requires Distinct(ks) && x !in ks
    ensures Distinct(ks + [x])
    ensures forall k :: k in ks + [x] <==> k in ks || k == x
  {
  }

  lemma MapPops(q: seq<ToMap>)
    requires q != [] && Distinct(MapKeys(q))
    ensures Distinct(MapKeys(q[1..]))
    ensures forall k :: k in MapKeys(q[1..]) <==> k in MapKeys(q) && k != MapKey(q[0])
  {
    assert MapKeys(q[1..]) == MapKeys(q)[1..];
    PopKeys(MapKeys(q));
  }

  lemma MapPushes(q: seq<ToMap>, m: ToMap)
    requires Distinct(MapKeys(q)) && MapKey(m) !in MapKeys(q)
    ensures Distinct(MapKeys(q + [m]))
    ensures forall k :: k in MapKeys(q + [m]) <==> k in MapKeys(q) || k == MapKey(m)
  {
    assert MapKeys(q + [m]) == MapKeys(q) + [MapKey(m)];
    PushKeys(MapKeys(q), MapKey(m));
  }

  lemma RepliesPop(q: seq<ToAirline>)
    requires q != [] && Distinct(ReplyKeys(q))
    ensures Distinct(ReplyKeys(q[1..]))
    ensures forall k :: k in ReplyKeys(q[1..]) <==> k in ReplyKeys(q) && k != ReplyKey(q[0])
  {
    assert ReplyKeys(q[1..]) == ReplyKeys(q)[1..];
    PopKeys(ReplyKeys(q));
  }

  lemma RepliesPush(q: seq<ToAirline>, m: ToAirline)
    requires Distinct(ReplyKeys(q)) && ReplyKey(m) !in ReplyKeys(q)
    ensures Distinct(ReplyKeys(q + [m]))
    ensures forall k :: k in ReplyKeys(q + [m]) <==> k in ReplyKeys(q) || k == ReplyKey(m)
  {
    assert ReplyKeys(q + [m]) == ReplyKeys(q) + [ReplyKey(m)];
    PushKeys(ReplyKeys(q), ReplyKey(m));
  }

  /** A report or request in the map's queue matches what its sender is waiting for. */
  ghost predicate MapMessageOk(s: State, m: ToMap) {
    match m
    case AirlineDone(a) => a < |s.past.duties| && s.past.duties[a] == Duty(First, Reported)
    case AirlineStatus(a) => a < |s.past.duties| && s.past.duties[a] == Duty(Second, Reported)
    case UnloadStock(p, city, load) =>
      p < |s.planes| && s.planes[p].pc == AwaitingStock &&
      city == s.planes[p].body.city && load == s.planes[p].body.load
    case CheckDestinations(p, city, load) =>
      p < |s.planes| && s.planes[p].pc == AwaitingDestinations &&
      city == s.planes[p].body.city && load == s.planes[p].body.load
  }

  ghost predicate StockOk(s: State, p: nat, load: Stocks) {
    && p < |s.planes| && p < |s.past.now.planes| && s.planes[p].pc == AwaitingStock
    && load == s.past.now.planes[p].load
  }

  ghost predicate ListOk(cfg: Config, s: State, p: nat, l: seq<CityInfo>) {
    && p < |s.planes| && s.planes[p].pc == AwaitingDestinations
    && s.planes[p].body.city < |s.past.now.cities| && Square(cfg.dist, |s.past.now.cities|)
    && Answer(s.past.now.cities, cfg.dist, s.planes[p].body.city, s.planes[p].body.load, l)
  }

  ghost predicate ReplyOk(cfg: Config, s: State, a: nat, m: ToAirline) {
    match m
    case Control(_) => true
    case StockReply(p, load) => p < |cfg.owner| && cfg.owner[p] == a && StockOk(s, p, load)
    case DestinationsReply(p, l) => p < |cfg.owner| && cfg.owner[p] == a && ListOk(cfg, s, p, l)
  }

  ghost predicate MailOk(cfg: Config, s: State, p: nat, m: ToPlane) {
    match m
    case Go(_) => false
    case NewStock(amounts) => exists load :: StockOk(s, p, load) && amounts == Amounts(load)
    case NewDestinations(l) => ListOk(cfg, s, p, l)
  }

  ghost predicate InboxInv(cfg: Config, s: State)
    requires Shape(cfg, s)
  {
    && Distinct(MapKeys(s.inbox))
    && (forall i: nat | i < |s.inbox| :: MapMessageOk(s, s.inbox[i]))
    && (forall a: nat | a < |s.airlines| && s.past.duties[a].Duty? && s.past.duties[a].progress == Reported ::
          OfAirline(a) in MapKeys(s.inbox))
    && (s.mapPc.Replying? ==> ReplyOk(cfg, s, s.mapPc.to, s.mapPc.reply))
  }

  ghost predicate RepliesInv(cfg: Config, s: State, a: nat)
    requires Shape(cfg, s) && a < |s.airlines|
  {
    var al := s.airlines[a];
    && Distinct(ReplyKeys(al.inbox))
    && (forall i: nat | i < |al.inbox| :: ReplyOk(cfg, s, a, al.inbox[i]))
    && (al.pc.Forwarding? ==>
          && al.pc.plane < |s.planes| && cfg.owner[al.pc.plane] == a
          && MailOk(cfg, s, al.pc.plane, al.pc.msg))
  }

  ghost function One(b: bool): nat { if b then 1 else 0 }

  /** The places a plane's request or its reply can be in. */
  ghost predicate AtMap(s: State, p: nat) { OfPlane(p) in MapKeys(s.inbox) }
  ghost predicate InHand(s: State, p: nat) { s.mapPc.Replying? && ReplyKey(s.mapPc.reply) == OfPlane(p) }
  ghost predicate AtAirline(cfg: Config, s: State, p: nat)
    requires Shape(cfg, s) && p < |s.planes|
  {
    OfPlane(p) in ReplyKeys(s.airlines[cfg.owner[p]].inbox)
  }
  ghost predicate Forwarded(cfg: Config, s: State, p: nat)
    requires Shape(cfg, s) && p < |s.planes|
  {
    var pc := s.airlines[cfg.owner[p]].pc;
    pc.Forwarding? && pc.plane == p
  }
  ghost predicate Mailed(s: State, p: nat)
    requires p < |s.planes|
  {
    Awaiting(s.planes[p].pc) && s.planes[p].mail != []
  }

  /** A plane that waits for an answer has exactly one request or reply under way, any other plane none. */
  ghost predicate TokenInv(cfg: Config, s: State, p: nat)
    requires Shape(cfg, s) && p < |s.planes|
  {
    && One(AtMap(s, p)) + One(InHand(s, p)) + One(AtAirline(cfg, s, p)) + One(Forwarded(cfg, s, p)) + One(Mailed(s, p))
       == One(Awaiting(s.planes[p].pc))
    && (Mailed(s, p) ==> MailOk(cfg, s, p, s.planes[p].mail[0]))
  }

  ghost predicate Traffic(cfg: Config, s: State)
    requires Shape(cfg, s)
  {
    && InboxInv(cfg, s)
    && (forall a: nat | a < |s.airlines| :: RepliesInv(cfg, s, a))
    && (forall p: nat | p < |s.planes| :: TokenInv(cfg, s, p))
  }

  // ---------------------------------------------------------------- books

  datatype Mode = Idle | PhaseOne | PhaseTwo | Closing

  function ModeOf(mapPc: MapPc): Mode {
    match mapPc
    case Sending(Step, _) => PhaseOne
    case Sending(Continue, _) => PhaseTwo
    case Collecting(ph, _) => if ph == First then PhaseOne else PhaseTwo
    case Replying(ph, _, _, _) => if ph == First then PhaseOne else PhaseTwo
    case Deciding => Idle
    case _ => Closing
  }

  ghost predicate HistoryInv(cfg: Config, s: State)
  {
    var h := s.past;
    && Routes(cfg.dist, |s.cities|, cfg.far) && s.cities == h.now.cities && |s.planes| == |h.now.planes|
    && Valid(h.now)
    && Run(cfg.dist, h.worlds, h.orders)
    && var start := h.worlds[|h.orders|];
       && Valid(start) && |start.planes| == |s.planes|
       && NoRepeats(h.served)
       && (forall i | 0 <= i < |h.served| :: h.served[i] < |start.planes| && Landed(start.planes[h.served[i]]))
       && h.now == UnloadAll(start, h.served)
       && (match ModeOf(s.mapPc)
           case Idle => s.turn == |h.orders| && h.served == []
           case Closing => s.turn == |h.orders| && h.served == []
           case PhaseOne => s.turn == |h.orders| + 1 && Continues(start.cities, |h.orders|)
           case PhaseTwo => s.turn == |h.orders| + 1 && Continues(start.cities, |h.orders|) && IsOrder(start, h.served))
  }

  /** Whether a plane has got past the point where the map serves it in the first phase. */
  ghost predicate PastUnload(s: State, p: nat)
    requires p < |s.planes|
  {
    match s.planes[p].pc
    case AwaitingStock => !AtMap(s, p)
    case Ready(q) => q == First
    case Reporting(q) => q == First
    case Releasing(q) => q == First
    case AtContinue => true
    case Exited => true
    case _ => false
  }

  predicate Undecided(pc: PlanePc) {
    match pc
    case AtContinue => true
    case Asking => true
    case AwaitingDestinations => true
    case Reporting(q) => q == First
    case Releasing(q) => q == First
    case _ => false
  }

  /** A plane's own data against the current turn of the simulation. */
  ghost predicate BodyInv(cfg: Config, s: State, p: nat)
    requires p < |s.planes| == |s.past.now.planes| && s.past.worlds != [] &&
             |s.past.worlds[|s.past.worlds| - 1].planes| == |s.planes|
    requires Square(cfg.dist, |s.past.now.cities|) && Turns.Ready(s.past.now.cities, s.past.now.planes)
  {
    var body, w := s.planes[p].body, s.past.now.planes[p];
    match ModeOf(s.mapPc)
    case Idle => body == w
    case Closing => body == w || (s.planes[p].pc == Exited && body == w.(done := true))
    case PhaseOne =>
      && (p in s.past.served <==> Landed(s.past.worlds[|s.past.worlds| - 1].planes[p]) && PastUnload(s, p))
      && (if s.planes[p].pc == AwaitingStock && p in s.past.served
          then LeftOf(w.load, body.load) && w == body.(load := w.load, done := Spent(w.load))
          else body == w)
    case PhaseTwo =>
      if Undecided(s.planes[p].pc) then body == w else Decide(cfg.dist, s.past.now.cities, w, body)
  }

  ghost predicate Books(cfg: Config, s: State)
    requires Shape(cfg, s)
  {
    && HistoryInv(cfg, s)
    && forall p: nat | p < |s.planes| :: BodyInv(cfg, s, p)
  }

  ghost predicate Inv(cfg: Config, s: State) {
    Shape(cfg, s) && ControlInv(cfg, s) && Traffic(cfg, s) && Books(cfg, s)
  }

  lemma InitInv(cfg: Config, s: State)
    requires Init(cfg, s)
    ensures Inv(cfg, s)
  {
    forall a: nat | a < |s.airlines| ensures AirlineControl(cfg, s, a) && RepliesInv(cfg, s, a) {
    }
    forall p: nat | p < |s.planes| ensures PlaneInv(cfg, s, p) && TokenInv(cfg, s, p) {
    }
    assert ControlInv(cfg, s);
    assert Traffic(cfg, s);
  }
}
