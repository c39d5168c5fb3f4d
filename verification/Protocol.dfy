/**
 The interleaved system: one map, airlines with a listener each, and one thread per plane.  They exchange
 messages over bounded queues and share, per airline, a lock, a counter and the planes' done flags.

 Every action below is one atomic step of one thread.  A queue operation blocks when the queue is full or
 empty; taking a lock blocks while it is held.  Planes are numbered through all airlines: airline a owns the
 planes from first[a] up to, but not including, first[a + 1].
 */
module Protocol {
  import opened Delivery
  import opened Turns

  // ---------------------------------------------------------------- messages

  /** To the map.  The sender named in AirlineDone is not looked at by the map. */
  datatype ToMap =
    | AirlineDone(airline: nat)
    | AirlineStatus(airline: nat)
    | UnloadStock(plane: nat, city: nat, load: Stocks)
    | CheckDestinations(plane: nat, city: nat, load: Stocks)

  datatype Signal = Step | Continue | End

  datatype ToAirline =
    | Control(signal: Signal)
    | StockReply(plane: nat, load: Stocks)
    | DestinationsReply(plane: nat, list: seq<CityInfo>)

  datatype ToPlane =
    | Go(signal: Signal)
    | NewStock(amounts: seq<int>)
    | NewDestinations(list: seq<CityInfo>)

  // ---------------------------------------------------------------- threads

  datatype Phase = First | Second

  datatype MapPc =
    | Deciding
    | Sending(signal: Signal, k: nat)
    | Collecting(phase: Phase, reports: nat)
    | Replying(phase: Phase, reports: nat, to: nat, reply: ToAirline)
    | Finished

  datatype ListenerPc =
    | Listening
    | WantLock(signal: Signal)
    | Counting(signal: Signal, j: nat)
    | Announcing(signal: Signal)
    | Broadcasting(signal: Signal, j: nat)
    | Unlocking
    | Forwarding(plane: nat, msg: ToPlane)
    | Ending(j: nat)
    | Joining
    | Gone

  datatype PlanePc =
    | AtStep
    | Unloading
    | AwaitingStock
    | Ready(phase: Phase)
    | Reporting(phase: Phase)
    | Releasing(phase: Phase)
    | AtContinue
    | Asking
    | AwaitingDestinations
    | Exited

  datatype Lock = Free | Listener | HeldBy(plane: nat)

  datatype Airline = Airline(pc: ListenerPc, inbox: seq<ToAirline>, lock: Lock, left: int, stage: Phase)
  datatype PlaneThread = PlaneThread(pc: PlanePc, mail: seq<ToPlane>, body: Plane)

  // ---------------------------------------------------------------- history

  /** What an airline still owes the map in the current phase. */
  datatype Progress = Told | Active | Reported | Acked
  datatype Duty = Duty(phase: Phase, progress: Progress) | Dismissed

  /** Recorded for the proofs only; no action depends on it.  `worlds` are the states at the turn boundaries so
      far and `orders` the orders of service between them; `now` is the current turn's state with the
      unloads served so far, `served`. */
  datatype History = History(worlds: seq<World>, orders: seq<seq<nat>>, now: World, served: seq<nat>, duties: seq<Duty>)

  datatype State = State(
    mapPc: MapPc, cities: seq<Stocks>, turn: nat, inbox: seq<ToMap>, stop: bool,
    airlines: seq<Airline>, planes: seq<PlaneThread>, past: History)

  datatype Config = Config(dist: seq<seq<int>>, far: nat, first: seq<nat>, owner: seq<nat>,
                           mapRoom: nat, airlineRoom: nat, mailRoom: nat)
  {
    ghost function Airlines(): nat
      requires first != []
    {
      |first| - 1
    }

    ghost predicate Valid() {
      && first != [] && first[0] == 0 && first[|first| - 1] == |owner|
      && (forall a, b | 0 <= a <= b < |first| :: first[a] <= first[b])
      && (forall p | 0 <= p < |owner| :: owner[p] < Airlines())
      && (forall a, p | 0 <= a < Airlines() && 0 <= p < |owner| :: owner[p] == a <==> first[a] <= p < first[a + 1])
      && mapRoom >= 1 && airlineRoom >= 1 && mailRoom >= 1
    }
  }

  function Other(ph: Phase): Phase { if ph == First then Second else First }
  function SignalOf(ph: Phase): Signal { if ph == First then Step else Continue }

  ghost predicate Shape(cfg: Config, s: State) {
    && cfg.Valid()
    && |s.airlines| == cfg.Airlines() && |s.past.duties| == cfg.Airlines()
    && |s.planes| == |cfg.owner|
  }

  ghost function Bodies(planes: seq<PlaneThread>): (r: seq<Plane>)
    ensures |r| == |planes| && forall p | 0 <= p < |planes| :: r[p] == planes[p].body
  {
    seq(|planes|, p requires 0 <= p < |planes| => planes[p].body)
  }

  function Amounts(load: Stocks): (r: seq<int>)
    ensures |r| == |load| && forall i | 0 <= i < |load| :: r[i] == load[i].amount
  {
    seq(|load|, i requires 0 <= i < |load| => load[i].amount)
  }

  /** The plane writes the amounts it received over its own. */
  function WithAmounts(load: Stocks, amounts: seq<int>): (r: Stocks)
    requires |amounts| == |load|
    ensures |r| == |load| && forall i | 0 <= i < |load| :: r[i] == load[i].(amount := amounts[i])
  {
    seq(|load|, i requires 0 <= i < |load| => load[i].(amount := amounts[i]))
  }

  function SetAirline(s: State, a: nat, x: Airline): State
    requires a < |s.airlines|
  {
    s.(airlines := s.airlines[a := x])
  }

  function SetPlane(s: State, p: nat, x: PlaneThread): State
    requires p < |s.planes|
  {
    s.(planes := s.planes[p := x])
  }

  function SetDuty(s: State, a: nat, d: Duty): State {
    if a < |s.past.duties| then s.(past := s.past.(duties := s.past.duties[a := d])) else s
  }

  /** The outer form of the system before anything has happened. */
  ghost predicate Init(cfg: Config, s: State) {
    && Shape(cfg, s)
    && s.mapPc == Deciding && s.turn == 0 && s.inbox == [] && !s.stop
    && (forall a | 0 <= a < |s.airlines| ::
          s.airlines[a].pc == Listening && s.airlines[a].inbox == [] && s.airlines[a].lock == Free)
    && (forall p | 0 <= p < |s.planes| :: s.planes[p].pc == AtStep && s.planes[p].mail == [])
    && s.past == History([World(s.cities, Bodies(s.planes))], [], World(s.cities, Bodies(s.planes)), [],
                         seq(cfg.Airlines(), a => Duty(Second, Acked)))
    && Initial(s.past.now)
    && Routes(cfg.dist, |s.cities|, cfg.far)
  }

  // ---------------------------------------------------------------- the map

  /** The signal handler may ask for an end at any time. */
  ghost predicate RaiseStop(s: State, s': State) {
    !s.stop && s' == s.(stop := true)
  }

  ghost predicate MapStops(s: State, s': State) {
    && s.mapPc == Deciding && (s.stop || !Continues(s.cities, s.turn))
    && s' == s.(mapPc := Sending(End, 0))
  }

  ghost predicate MapStarts(s: State, s': State) {
    && s.mapPc == Deciding && !s.stop && Continues(s.cities, s.turn)
    && s' == s.(mapPc := Sending(Step, 0), turn := s.turn + 1)
  }

  function ToldOf(sig: Signal): Duty {
    match sig
    case Step => Duty(First, Told)
    case Continue => Duty(Second, Told)
    case End => Dismissed
  }

  ghost predicate MapSends(cfg: Config, s: State, s': State)
    requires Shape(cfg, s)
  {
    && s.mapPc.Sending? && s.mapPc.k < |s.airlines|
    && var k, al := s.mapPc.k, s.airlines[s.mapPc.k];
       && |al.inbox| < cfg.airlineRoom
       && s' == SetDuty(SetAirline(s.(mapPc := s.mapPc.(k := k + 1)), k,
                                   al.(inbox := al.inbox + [Control(s.mapPc.signal)])),
                        k, ToldOf(s.mapPc.signal))
  }

  ghost predicate MapHasSent(s: State, s': State) {
    && s.mapPc.Sending? && s.mapPc.k == |s.airlines|
    && s' == s.(mapPc := match s.mapPc.signal
                        case Step => Collecting(First, 0)
                        case Continue => Collecting(Second, 0)
                        case End => Finished)
  }

  ghost predicate Receiving(s: State) {
    s.mapPc.Collecting? && s.mapPc.reports != |s.airlines| && s.inbox != []
  }

  ghost predicate MapCountsReport(cfg: Config, s: State, s': State)
    requires Shape(cfg, s)
  {
    && Receiving(s) && (if s.mapPc.phase == First then s.inbox[0].AirlineDone? else s.inbox[0].AirlineStatus?)
    && s' == SetDuty(s.(inbox := s.inbox[1..], mapPc := Collecting(s.mapPc.phase, s.mapPc.reports + 1)),
                     s.inbox[0].airline, Duty(s.mapPc.phase, Acked))
  }

  /** Serves an unload request and goes on to send the plane's new load back to its airline. */
  ghost predicate MapServes(cfg: Config, s: State, s': State)
    requires Shape(cfg, s)
  {
    && Receiving(s) && s.mapPc.phase == First && s.inbox[0].UnloadStock?
    && var m := s.inbox[0];
       && m.plane < |cfg.owner| && m.city < |s.cities| && (s.cities[m.city] != [] || m.load == [])
       && var (city, load) := Unload(s.cities[m.city], m.load);
          s' == s.(inbox := s.inbox[1..], cities := s.cities[m.city := city],
                   mapPc := Replying(First, s.mapPc.reports, cfg.owner[m.plane], StockReply(m.plane, load)),
                   past := Served(s.past, m.plane))
  }

  ghost function Served(h: History, p: nat): History {
    if Turns.Ready(h.now.cities, h.now.planes) && p < |h.now.planes|
    then h.(now := UnloadAt(h.now, p), served := h.served + [p])
    else h
  }

  ghost predicate MapAnswers(cfg: Config, s: State, s': State, l: seq<CityInfo>)
    requires Shape(cfg, s)
  {
    && Receiving(s) && s.mapPc.phase == Second && s.inbox[0].CheckDestinations?
    && var m := s.inbox[0];
       && m.plane < |cfg.owner| && m.city < |s.cities| && Square(cfg.dist, |s.cities|)
       && Answer(s.cities, cfg.dist, m.city, m.load, l)
       && s' == s.(inbox := s.inbox[1..],
                   mapPc := Replying(Second, s.mapPc.reports, cfg.owner[m.plane], DestinationsReply(m.plane, l)))
  }

  /** A message that does not belong to the phase: an error is printed and the message is dropped. */
  ghost predicate MapRejects(s: State, s': State) {
    && Receiving(s)
    && (match s.inbox[0]
        case AirlineDone(_) => s.mapPc.phase == Second
        case UnloadStock(_, _, _) => s.mapPc.phase == Second
        case AirlineStatus(_) => s.mapPc.phase == First
        case CheckDestinations(_, _, _) => s.mapPc.phase == First)
    && s' == s.(inbox := s.inbox[1..])
  }

  ghost predicate MapReplies(cfg: Config, s: State, s': State)
    requires Shape(cfg, s)
  {
    && s.mapPc.Replying? && s.mapPc.to < |s.airlines|
    && var al := s.airlines[s.mapPc.to];
       && |al.inbox| < cfg.airlineRoom
       && s' == SetAirline(s.(mapPc := Collecting(s.mapPc.phase, s.mapPc.reports)), s.mapPc.to,
                           al.(inbox := al.inbox + [s.mapPc.reply]))
  }

  ghost predicate MapContinues(s: State, s': State) {
    && s.mapPc == Collecting(First, |s.airlines|)
    && s' == s.(mapPc := Sending(Continue, 0))
  }

  ghost predicate MapEndsTurn(s: State, s': State) {
    && s.mapPc == Collecting(Second, |s.airlines|)
    && var w := World(s.cities, Bodies(s.planes));
       s' == s.(mapPc := Deciding,
                past := s.past.(worlds := s.past.worlds + [w], orders := s.past.orders + [s.past.served],
                                now := w, served := []))
  }

  // ---------------------------------------------------------------- the listeners

  ghost predicate ListenerHears(s: State, s': State, a: nat)
    requires a < |s.airlines| == |s.past.duties|
  {
    var al := s.airlines[a];
    && al.pc == Listening && al.inbox != []
    && match al.inbox[0]
       case Control(Step) =>
         s' == SetDuty(SetAirline(s, a, al.(pc := WantLock(Step), inbox := al.inbox[1..], stage := First)), a,
                       Duty(First, Active))
       case Control(Continue) =>
         s' == SetDuty(SetAirline(s, a, al.(pc := WantLock(Continue), inbox := al.inbox[1..], stage := Second)), a,
                       Duty(Second, Active))
       case Control(End) => false
       case StockReply(p, load) =>
         s' == SetAirline(s, a, al.(pc := Forwarding(p, NewStock(Amounts(load))), inbox := al.inbox[1..]))
       case DestinationsReply(p, l) =>
         s' == SetAirline(s, a, al.(pc := Forwarding(p, NewDestinations(l)), inbox := al.inbox[1..]))
  }

  ghost predicate ListenerHearsEnd(cfg: Config, s: State, s': State, a: nat)
    requires Shape(cfg, s) && a < |s.airlines|
  {
    var al := s.airlines[a];
    && al.pc == Listening && al.inbox != [] && al.inbox[0] == Control(End)
    && s' == SetAirline(s, a, al.(pc := Ending(cfg.first[a]), inbox := al.inbox[1..]))
  }

  ghost predicate ListenerLocks(cfg: Config, s: State, s': State, a: nat)
    requires Shape(cfg, s) && a < |s.airlines|
  {
    var al := s.airlines[a];
    && al.pc.WantLock? && al.lock == Free
    && s' == SetAirline(s, a, al.(pc := Counting(al.pc.signal, cfg.first[a]), lock := Listener, left := 0))
  }

  /** Reads one plane's done flag, unsynchronised, for the count. */
  ghost predicate ListenerCounts(cfg: Config, s: State, s': State, a: nat)
    requires Shape(cfg, s) && a < |s.airlines|
  {
    var al := s.airlines[a];
    && al.pc.Counting? && al.pc.j < cfg.first[a + 1] && al.pc.j < |s.planes|
    && s' == SetAirline(s, a, al.(pc := Counting(al.pc.signal, al.pc.j + 1),
                                  left := al.left + if s.planes[al.pc.j].body.done then 0 else 1))
  }

  ghost predicate ListenerCounted(cfg: Config, s: State, s': State, a: nat)
    requires Shape(cfg, s) && a < |s.airlines|
  {
    var al := s.airlines[a];
    && al.pc.Counting? && al.pc.j == cfg.first[a + 1]
    && s' == SetAirline(s, a, al.(pc := if al.left == 0 then Announcing(al.pc.signal)
                                        else Broadcasting(al.pc.signal, cfg.first[a])))
  }

  function Report(stage: Phase, a: nat): ToMap {
    if stage == First then AirlineDone(a) else AirlineStatus(a)
  }

  /** With no plane left the listener reports itself, holding the lock. */
  ghost predicate ListenerReports(cfg: Config, s: State, s': State, a: nat)
    requires Shape(cfg, s) && a < |s.airlines|
  {
    var al := s.airlines[a];
    && al.pc.Announcing? && |s.inbox| < cfg.mapRoom
    && s' == SetDuty(SetAirline(s.(inbox := s.inbox + [Report(al.stage, a)]), a, al.(pc := Unlocking)), a,
                     Duty(al.stage, Reported))
  }

  /** Reads the done flag again and pushes the signal to a plane that is not done. */
  ghost predicate ListenerBroadcasts(cfg: Config, s: State, s': State, a: nat)
    requires Shape(cfg, s) && a < |s.airlines|
  {
    var al := s.airlines[a];
    && al.pc.Broadcasting? && al.pc.j < cfg.first[a + 1] && al.pc.j < |s.planes|
    && var j, pl := al.pc.j, s.planes[al.pc.j];
       var next := SetAirline(s, a, al.(pc := Broadcasting(al.pc.signal, j + 1)));
       if pl.body.done then s' == next
       else |pl.mail| < cfg.mailRoom && s' == SetPlane(next, j, pl.(mail := pl.mail + [Go(al.pc.signal)]))
  }

  ghost predicate ListenerBroadcasted(cfg: Config, s: State, s': State, a: nat)
    requires Shape(cfg, s) && a < |s.airlines|
  {
    var al := s.airlines[a];
    && al.pc.Broadcasting? && al.pc.j == cfg.first[a + 1]
    && s' == SetAirline(s, a, al.(pc := Unlocking))
  }

  ghost predicate ListenerUnlocks(s: State, s': State, a: nat)
    requires a < |s.airlines|
  {
    var al := s.airlines[a];
    && al.pc == Unlocking
    && s' == SetAirline(s, a, al.(pc := Listening, lock := Free))
  }

  ghost predicate ListenerForwards(cfg: Config, s: State, s': State, a: nat)
    requires Shape(cfg, s) && a < |s.airlines|
  {
    var al := s.airlines[a];
    && al.pc.Forwarding? && al.pc.plane < |s.planes|
    && var pl := s.planes[al.pc.plane];
       && |pl.mail| < cfg.mailRoom
       && s' == SetPlane(SetAirline(s, a, al.(pc := Listening)), al.pc.plane, pl.(mail := pl.mail + [al.pc.msg]))
  }

  ghost predicate ListenerEnds(cfg: Config, s: State, s': State, a: nat)
    requires Shape(cfg, s) && a < |s.airlines|
  {
    var al := s.airlines[a];
    && al.pc.Ending? && al.pc.j < cfg.first[a + 1] && al.pc.j < |s.planes|
    && var j, pl := al.pc.j, s.planes[al.pc.j];
       var next := SetAirline(s, a, al.(pc := Ending(j + 1)));
       if pl.body.done then s' == next
       else |pl.mail| < cfg.mailRoom && s' == SetPlane(next, j, pl.(mail := pl.mail + [Go(End)]))
  }

  ghost predicate ListenerEnded(cfg: Config, s: State, s': State, a: nat)
    requires Shape(cfg, s) && a < |s.airlines|
  {
    var al := s.airlines[a];
    && al.pc.Ending? && al.pc.j == cfg.first[a + 1]
    && s' == SetAirline(s, a, al.(pc := Joining))
  }

  /** Joins all its plane threads; then their mailboxes are destroyed. */
  ghost predicate ListenerJoins(cfg: Config, s: State, s': State, a: nat)
    requires Shape(cfg, s) && a < |s.airlines|
  {
    var al := s.airlines[a];
    && al.pc == Joining
    && (forall p | 0 <= p < |s.planes| && cfg.owner[p] == a :: s.planes[p].pc == Exited)
    && s' == SetAirline(s, a, al.(pc := Gone))
  }

  // ---------------------------------------------------------------- the planes

  /** Takes the step signal; any other message makes the plane leave its loop. */
  ghost predicate PlaneSteps(s: State, s': State, p: nat)
    requires p < |s.planes|
  {
    var pl := s.planes[p];
    && pl.pc == AtStep && pl.mail != []
    && s' == SetPlane(s, p,
               if pl.mail[0] == Go(Step)
               then pl.(mail := pl.mail[1..], pc := if pl.body.distance == 0 then Unloading else Ready(First))
               else pl.(mail := pl.mail[1..], pc := Exited, body := pl.body.(done := true)))
  }

  ghost predicate PlaneUnloads(cfg: Config, s: State, s': State, p: nat)
    requires p < |s.planes|
  {
    var pl := s.planes[p];
    && pl.pc == Unloading && |s.inbox| < cfg.mapRoom
    && s' == SetPlane(s.(inbox := s.inbox + [UnloadStock(p, pl.body.city, pl.body.load)]), p, pl.(pc := AwaitingStock))
  }

  ghost predicate GoodAmounts(msg: ToPlane, load: Stocks) {
    msg.NewStock? && |msg.amounts| == |load| && forall i | 0 <= i < |msg.amounts| :: msg.amounts[i] >= 0
  }

  ghost predicate PlaneTakesStock(s: State, s': State, p: nat)
    requires p < |s.planes|
  {
    var pl := s.planes[p];
    && pl.pc == AwaitingStock && pl.mail != [] && GoodAmounts(pl.mail[0], pl.body.load)
    && var load := WithAmounts(pl.body.load, pl.mail[0].amounts);
       s' == SetPlane(s, p, pl.(mail := pl.mail[1..], pc := Ready(First),
                                body := pl.body.(load := load, done := pl.body.done || Spent(load))))
  }

  /** Reports ready: takes the lock and counts itself off; the last one goes on to report to the map. */
  ghost predicate PlaneLocks(cfg: Config, s: State, s': State, p: nat)
    requires Shape(cfg, s) && p < |s.planes|
  {
    var pl, a := s.planes[p], cfg.owner[p];
    && pl.pc.Ready? && s.airlines[a].lock == Free
    && var left := s.airlines[a].left - 1;
       s' == SetPlane(SetAirline(s, a, s.airlines[a].(lock := HeldBy(p), left := left)), p,
                      pl.(pc := if left == 0 then Reporting(pl.pc.phase) else Releasing(pl.pc.phase)))
  }

  ghost predicate PlaneReports(cfg: Config, s: State, s': State, p: nat)
    requires Shape(cfg, s) && p < |s.planes|
  {
    var pl, a := s.planes[p], cfg.owner[p];
    && pl.pc.Reporting? && |s.inbox| < cfg.mapRoom
    && s' == SetDuty(SetPlane(s.(inbox := s.inbox + [Report(s.airlines[a].stage, a)]), p,
                              pl.(pc := Releasing(pl.pc.phase))),
                     a, Duty(s.airlines[a].stage, Reported))
  }

  function Home(ph: Phase): PlanePc { if ph == First then AtContinue else AtStep }

  ghost predicate PlaneReleases(cfg: Config, s: State, s': State, p: nat)
    requires Shape(cfg, s) && p < |s.planes|
  {
    var pl, a := s.planes[p], cfg.owner[p];
    && pl.pc.Releasing?
    && s' == SetPlane(SetAirline(s, a, s.airlines[a].(lock := Free)), p,
                      pl.(pc := if pl.body.done then Exited else Home(pl.pc.phase)))
  }

  ghost predicate PlaneContinues(s: State, s': State, p: nat)
    requires p < |s.planes|
  {
    var pl := s.planes[p];
    && pl.pc == AtContinue && pl.mail != [] && pl.mail[0] == Go(Continue)
    && s' == SetPlane(s, p, if pl.body.distance == 0 then pl.(mail := pl.mail[1..], pc := Asking)
                            else pl.(mail := pl.mail[1..], pc := Ready(Second),
                                     body := pl.body.(distance := pl.body.distance - 1)))
  }

  ghost predicate PlaneAsks(cfg: Config, s: State, s': State, p: nat)
    requires p < |s.planes|
  {
    var pl := s.planes[p];
    && pl.pc == Asking && |s.inbox| < cfg.mapRoom
    && s' == SetPlane(s.(inbox := s.inbox + [CheckDestinations(p, pl.body.city, pl.body.load)]), p,
                      pl.(pc := AwaitingDestinations))
  }

  /** A plane has room for five destinations. */
  function FirstFive(l: seq<CityInfo>): seq<CityInfo> {
    if |l| > 5 then l[..5] else l
  }

  ghost predicate PlaneChooses(s: State, s': State, p: nat)
    requires p < |s.planes|
  {
    var pl := s.planes[p];
    && pl.pc == AwaitingDestinations && pl.mail != [] && pl.mail[0].NewDestinations?
    && s' == SetPlane(s, p, pl.(mail := pl.mail[1..], pc := Ready(Second),
                                body := Choose(pl.body, FirstFive(pl.mail[0].list))))
  }

  /** An unexpected message, or a negative amount, ends the thread with an error. */
  ghost predicate PlaneBails(s: State, s': State, p: nat)
    requires p < |s.planes|
  {
    var pl := s.planes[p];
    && pl.mail != []
    && ((pl.pc == AwaitingStock && !GoodAmounts(pl.mail[0], pl.body.load))
        || (pl.pc == AtContinue && pl.mail[0] != Go(Continue))
        || (pl.pc == AwaitingDestinations && !pl.mail[0].NewDestinations?))
    && s' == SetPlane(s, p, pl.(mail := pl.mail[1..], pc := Exited))
  }

  /** The peek before each action of a turn: an End at the head of the mailbox ends the thread there. */
  ghost predicate PlanePeeksEnd(s: State, s': State, p: nat)
    requires p < |s.planes|
  {
    var pl := s.planes[p];
    && (pl.pc == Unloading || pl.pc.Ready? || pl.pc == AtContinue || pl.pc == Asking)
    && pl.mail != [] && pl.mail[0] == Go(End)
    && s' == SetPlane(s, p, pl.(pc := Exited))
  }

  // ---------------------------------------------------------------- the system

  ghost predicate MapStep(cfg: Config, s: State, s': State)
    requires Shape(cfg, s)
  {
    || MapStops(s, s') || MapStarts(s, s') || MapSends(cfg, s, s') || MapHasSent(s, s')
    || MapCountsReport(cfg, s, s') || MapServes(cfg, s, s') || (exists l :: MapAnswers(cfg, s, s', l))
    || MapRejects(s, s') || MapReplies(cfg, s, s') || MapContinues(s, s') || MapEndsTurn(s, s')
  }

  ghost predicate ListenerStep(cfg: Config, s: State, s': State, a: nat)
    requires Shape(cfg, s) && a < |s.airlines|
  {
    || ListenerHears(s, s', a) || ListenerHearsEnd(cfg, s, s', a) || ListenerLocks(cfg, s, s', a)
    || ListenerCounts(cfg, s, s', a) || ListenerCounted(cfg, s, s', a) || ListenerReports(cfg, s, s', a)
    || ListenerBroadcasts(cfg, s, s', a) || ListenerBroadcasted(cfg, s, s', a) || ListenerUnlocks(s, s', a)
    || ListenerForwards(cfg, s, s', a) || ListenerEnds(cfg, s, s', a) || ListenerEnded(cfg, s, s', a)
    || ListenerJoins(cfg, s, s', a)
  }

  ghost predicate PlaneStep(cfg: Config, s: State, s': State, p: nat)
    requires Shape(cfg, s) && p < |s.planes|
  {
    || PlaneSteps(s, s', p) || PlaneUnloads(cfg, s, s', p) || PlaneTakesStock(s, s', p)
    || PlaneLocks(cfg, s, s', p) || PlaneReports(cfg, s, s', p) || PlaneReleases(cfg, s, s', p)
    || PlaneContinues(s, s', p) || PlaneAsks(cfg, s, s', p) || PlaneChooses(s, s', p)
    || PlaneBails(s, s', p) || PlanePeeksEnd(s, s', p)
  }

  /** One step of some thread. */
  ghost predicate ThreadStep(cfg: Config, s: State, s': State)
    requires Shape(cfg, s)
  {
    || MapStep(cfg, s, s')
    || (exists a: nat :: a < |s.airlines| && ListenerStep(cfg, s, s', a))
    || (exists p: nat :: p < |s.planes| && PlaneStep(cfg, s, s', p))
  }

  ghost predicate Next(cfg: Config, s: State, s': State) {
    Shape(cfg, s) && (RaiseStop(s, s') || ThreadStep(cfg, s, s'))
  }

  /** An interleaved execution. */
  ghost predicate Execution(cfg: Config, es: seq<State>) {
    && es != [] && Init(cfg, es[0])
    && forall i: nat | i + 1 < |es| :: StepAt(cfg, es, i)
  }

  ghost predicate StepAt(cfg: Config, es: seq<State>, i: nat)
    requires i + 1 < |es|
  {
    Next(cfg, es[i], es[i + 1])
  }
}
