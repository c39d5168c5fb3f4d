/** The threads around a mailbox. */
module MessageQueue {
  // Pushers and poppers in any number share a ring under a mutex with two condition variables. Waking may be
  // spurious.

  import opened Ring
  import Fifo

  type Message = int

  datatype Op = Push(m: Message) | Pop

  /** A thread waits for the mutex, tests the ring, sleeps on its condition, has been woken, has changed the ring
      and not yet signalled, or has signalled and not yet left. */
  datatype Pc = Idle | Wanting(op: Op) | Testing(op: Op, woken: bool) | Asleep(op: Op) | Woken(op: Op)
              | Signalling(op: Op) | Leaving(op: Op)

  datatype State = State(ring: Ring<Message>, mutexFree: bool, threads: seq<Pc>, pushed: seq<Message>,
                         popped: seq<Message>)

  ghost predicate Init(s: State) {
    && Valid(s.ring) && Empty(s.ring) && s.mutexFree && s.pushed == [] && s.popped == []
    && forall i | 0 <= i < |s.threads| :: s.threads[i] == Idle
  }

  ghost predicate Call(s: State, s': State, i: nat, op: Op)
    requires i < |s.threads|
  {
    s.threads[i] == Idle && s' == s.(threads := s.threads[i := Wanting(op)])
  }

  /** Gets the mutex, for the first time or on the way out of a wait. */
  ghost predicate Enter(s: State, s': State, i: nat)
    requires i < |s.threads|
  {
    && (s.threads[i].Wanting? || s.threads[i].Woken?) && s.mutexFree
    && s' == s.(mutexFree := false, threads := s.threads[i := Testing(s.threads[i].op, s.threads[i].Woken?)])
  }

  predicate MustWait(r: Ring<Message>, op: Op) {
    if op.Push? then Full(r) else Empty(r)
  }

  /** Goes to sleep, giving up the mutex in the same instant. */
  ghost predicate Sleep(s: State, s': State, i: nat)
    requires i < |s.threads|
  {
    && s.threads[i].Testing? && MustWait(s.ring, s.threads[i].op)
    && s' == s.(mutexFree := true, threads := s.threads[i := Asleep(s.threads[i].op)])
  }

  ghost predicate WakeSpuriously(s: State, s': State, i: nat)
    requires i < |s.threads|
  {
    s.threads[i].Asleep? && s' == s.(threads := s.threads[i := Woken(s.threads[i].op)])
  }

  ghost predicate Change(s: State, s': State, i: nat)
    requires i < |s.threads|
  {
    && s.threads[i].Testing? && !MustWait(s.ring, s.threads[i].op) && Valid(s.ring)
    && match s.threads[i].op
       case Push(m) => s' == s.(ring := Put(s.ring, m), pushed := s.pushed + [m],
                                threads := s.threads[i := Signalling(s.threads[i].op)])
       case Pop => s' == s.(ring := Take(s.ring).1, popped := s.popped + [Take(s.ring).0],
                            threads := s.threads[i := Signalling(Pop)])
  }

  /** Sleeps on the condition that op signals. */
  predicate WaitsFor(pc: Pc, op: Op) {
    pc.Asleep? && pc.op.Push? != op.Push?
  }

  /** Wakes some thread that sleeps on the condition, if there is one. */
  ghost predicate Signal(s: State, s': State, i: nat, j: nat)
    requires i < |s.threads|
  {
    && s.threads[i].Signalling?
    && var op := s.threads[i].op;
       if exists k :: 0 <= k < |s.threads| && WaitsFor(s.threads[k], op)
       then j < |s.threads| && WaitsFor(s.threads[j], op)
            && s' == s.(threads := s.threads[i := Leaving(op)][j := Woken(s.threads[j].op)])
       else s' == s.(threads := s.threads[i := Leaving(op)])
  }

  ghost predicate Leave(s: State, s': State, i: nat)
    requires i < |s.threads|
  {
    s.threads[i].Leaving? && s' == s.(mutexFree := true, threads := s.threads[i := Idle])
  }

  ghost predicate ThreadStep(s: State, s': State, i: nat)
    requires i < |s.threads|
  {
    || (exists op :: Call(s, s', i, op)) || Enter(s, s', i) || Sleep(s, s', i) || WakeSpuriously(s, s', i)
    || Change(s, s', i) || (exists j :: Signal(s, s', i, j)) || Leave(s, s', i)
  }

  ghost predicate Next(s: State, s': State) {
    exists i: nat :: i < |s.threads| && ThreadStep(s, s', i)
  }

  ghost predicate Execution(es: seq<State>) {
    es != [] && Init(es[0]) && forall k | 0 <= k < |es| - 1 :: Next(es[k], es[k + 1])
  }

  // ---------------------------------------------------------------- counting

  datatype Group = Inside | SleepingPops | SleepingPushes | WokenPops | WokenPushes | PushesToSignal | PopsToSignal

  predicate In(g: Group, pc: Pc) {
    match g
    case Inside => pc.Testing? || pc.Signalling? || pc.Leaving?
    case SleepingPops => pc.Asleep? && pc.op.Pop?
    case SleepingPushes => pc.Asleep? && pc.op.Push?
    case WokenPops => (pc.Woken? || (pc.Testing? && pc.woken)) && pc.op.Pop?
    case WokenPushes => (pc.Woken? || (pc.Testing? && pc.woken)) && pc.op.Push?
    case PushesToSignal => pc.Signalling? && pc.op.Push?
    case PopsToSignal => pc.Signalling? && pc.op.Pop?
  }

  ghost function Count(threads: seq<Pc>, g: Group): nat {
    if threads == [] then 0 else (if In(g, threads[0]) then 1 else 0) + Count(threads[1..], g)
  }

  lemma {:induction false} CountUpdate(threads: seq<Pc>, i: nat, pc: Pc, g: Group)
    requires i < |threads|
    ensures Count(threads[i := pc], g) == Count(threads, g)
            + (if In(g, pc) then 1 else 0) - (if In(g, threads[i]) then 1 else 0)
  {
    if i == 0 {
      assert threads[i := pc][1..] == threads[1..];
    } else {
      assert threads[i := pc][1..] == threads[1..][i - 1 := pc];
      CountUpdate(threads[1..], i - 1, pc, g);
    }
  }

  lemma CountsUpdate(threads: seq<Pc>, i: nat, pc: Pc)
    requires i < |threads|
    ensures forall g ::
              Count(threads[i := pc], g) == Count(threads, g)
                + (if In(g, pc) then 1 else 0) - (if In(g, threads[i]) then 1 else 0)
  {
    forall g
      ensures Count(threads[i := pc], g) == Count(threads, g)
                + (if In(g, pc) then 1 else 0) - (if In(g, threads[i]) then 1 else 0)
    {
      CountUpdate(threads, i, pc, g);
    }
  }

  lemma {:induction false} CountZeroIff(threads: seq<Pc>, g: Group)
    ensures Count(threads, g) == 0 <==> forall i | 0 <= i < |threads| :: !In(g, threads[i])
  {
    if threads != [] {
      CountZeroIff(threads[1..], g);
      assert forall i | 0 < i < |threads| :: threads[i] == threads[1..][i - 1];
    }
  }

  // ---------------------------------------------------------------- the invariant

  /** No wakeup is lost: while a popper sleeps, the poppers woken or about to be are at least the stored
      messages, and the same for pushers and free places. */
  ghost predicate Inv(s: State) {
    && Valid(s.ring)
    && s.pushed == s.popped + Contents(s.ring)
    && Count(s.threads, Inside) == (if s.mutexFree then 0 else 1)
    && (Count(s.threads, SleepingPops) > 0 ==>
          Count(s.threads, WokenPops) + Count(s.threads, PushesToSignal) >= |Contents(s.ring)|)
    && (Count(s.threads, SleepingPushes) > 0 ==>
          Count(s.threads, WokenPushes) + Count(s.threads, PopsToSignal) >= QUEUE_SIZE - 1 - |Contents(s.ring)|)
  }

  lemma QueueKeeps(s: State, s': State, i: nat)
    requires Inv(s) && i < |s.threads|
    requires (exists op :: Call(s, s', i, op)) || Enter(s, s', i) || Sleep(s, s', i) || WakeSpuriously(s, s', i) ||
             Leave(s, s', i)
    ensures Inv(s')
  {
    CountsUpdate(s.threads, i, s'.threads[i]);
    Sizes(s.ring);
  }

  lemma PushKeeps(s: State, s': State, i: nat, m: Message)
    requires Inv(s) && i < |s.threads| && Change(s, s', i) && s.threads[i].op == Push(m)
    ensures Inv(s')
  {
    ChangeCounts(s, s', i);
    PutAppends(s.ring, m);
    assert s'.pushed == s'.popped + Contents(s'.ring);
  }

  /** After the change under the mutex a signal is due, and a thread that was woken for it no longer is to come. */
  lemma ChangeCounts(s: State, s': State, i: nat)
    requires i < |s.threads| && Change(s, s', i)
    ensures forall g | g == Inside || g == SleepingPops || g == SleepingPushes ::
              Count(s'.threads, g) == Count(s.threads, g)
    ensures var push, a, b := s.threads[i].op.Push?, s.threads, s'.threads;
            && Count(b, PushesToSignal) == Count(a, PushesToSignal) + (if push then 1 else 0)
            && Count(b, PopsToSignal) == Count(a, PopsToSignal) + (if push then 0 else 1)
            && Count(b, WokenPushes) >= Count(a, WokenPushes) - (if push then 1 else 0)
            && Count(b, WokenPops) >= Count(a, WokenPops) - (if push then 0 else 1)
  {
    CountsUpdate(s.threads, i, s'.threads[i]);
  }

  lemma PopKeeps(s: State, s': State, i: nat)
    requires Inv(s) && i < |s.threads| && Change(s, s', i) && s.threads[i].op == Pop
    ensures Inv(s')
  {
    ChangeCounts(s, s', i);
    PopTakes(s, s', i);
  }

  lemma PopTakes(s: State, s': State, i: nat)
    requires Valid(s.ring) && s.pushed == s.popped + Contents(s.ring)
    requires i < |s.threads| && Change(s, s', i) && s.threads[i].op == Pop
    ensures Valid(s'.ring) && s'.pushed == s'.popped + Contents(s'.ring)
    ensures |Contents(s'.ring)| == |Contents(s.ring)| - 1 && s'.mutexFree == s.mutexFree
  {
    TakeRemoves(s.ring);
    MoveOne(s.popped, Take(s.ring).0, Contents(s'.ring));
  }

  lemma MoveOne(a: seq<Message>, m: Message, b: seq<Message>)
    ensures a + ([m] + b) == a + [m] + b && |[m] + b| == |b| + 1
  {
  }

  lemma SignalKeeps(s: State, s': State, i: nat, j: nat)
    requires Inv(s) && i < |s.threads| && Signal(s, s', i, j)
    ensures Inv(s')
  {
    if exists k :: 0 <= k < |s.threads| && WaitsFor(s.threads[k], s.threads[i].op) {
      SignalWakes(s, s', i, j);
    } else {
      SignalInVain(s, s', i, j);
    }
  }

  lemma SignalWakes(s: State, s': State, i: nat, j: nat)
    requires Inv(s) && i < |s.threads| && Signal(s, s', i, j)
    requires j < |s.threads| && WaitsFor(s.threads[j], s.threads[i].op)
    ensures Inv(s')
  {
    CountsUpdate(s.threads, i, Leaving(s.threads[i].op));
    CountsUpdate(s.threads[i := Leaving(s.threads[i].op)], j, Woken(s.threads[j].op));
  }

  lemma SignalInVain(s: State, s': State, i: nat, j: nat)
    requires Inv(s) && i < |s.threads| && Signal(s, s', i, j)
    requires !exists k :: 0 <= k < |s.threads| && WaitsFor(s.threads[k], s.threads[i].op)
    ensures Inv(s')
  {
    CountsUpdate(s.threads, i, Leaving(s.threads[i].op));
    CountZeroIff(s.threads, if s.threads[i].op.Push? then SleepingPops else SleepingPushes);
  }

  lemma StepKeeps(s: State, s': State, i: nat)
    requires Inv(s) && i < |s.threads| && ThreadStep(s, s', i)
    ensures Inv(s')
  {
    if Change(s, s', i) {
      match s.threads[i].op
      case Push(m) => PushKeeps(s, s', i, m);
      case Pop => PopKeeps(s, s', i);
    } else if exists j :: Signal(s, s', i, j) {
      var j :| Signal(s, s', i, j);
      SignalKeeps(s, s', i, j);
    } else {
      QueueKeeps(s, s', i);
    }
  }

  /** Every step of a thread leaves the stored messages alone, except for the change a push or pop makes under the
      mutex, which is that of a queue with room for nine. */
  lemma StepIsFifoStep(s: State, s': State, i: nat)
    requires Inv(s) && i < |s.threads| && ThreadStep(s, s', i)
    ensures Valid(s'.ring)
    ensures Fifo.Step(9, Contents(s.ring),
                      if !Change(s, s', i) then Fifo.Nothing
                      else match s.threads[i].op
                           case Push(m) => Fifo.Pushed(m)
                           case Pop => Fifo.Popped(Take(s.ring).0),
                      Contents(s'.ring))
  {
    Sizes(s.ring);
    if Change(s, s', i) {
      if s.threads[i].op.Push? {
        PutAppends(s.ring, s.threads[i].op.m);
      } else {
        TakeRemoves(s.ring);
      }
    }
  }

  lemma {:induction false} Reachable(es: seq<State>, k: nat)
    requires Execution(es) && k < |es|
    ensures Inv(es[k])
  {
    if k == 0 {
      forall g ensures Count(es[0].threads, g) == 0 { CountZeroIff(es[0].threads, g); }
      Sizes(es[0].ring);
    } else {
      Reachable(es, k - 1);
      assert Next(es[k - 1], es[k]);
      var i: nat :| i < |es[k - 1].threads| && ThreadStep(es[k - 1], es[k], i);
      StepKeeps(es[k - 1], es[k], i);
    }
  }

  /** A mailbox is a first-in-first-out queue of nine places for any number of pushers and poppers: what was
      popped, followed by what is stored, is what was pushed, in the same order. */
  lemma RefinesFifo(es: seq<State>, k: nat)
    requires Execution(es) && k < |es|
    ensures Valid(es[k].ring) && es[k].pushed == es[k].popped + Contents(es[k].ring)
    ensures |Contents(es[k].ring)| <= 9
  {
    Reachable(es, k);
    Sizes(es[k].ring);
  }

  /** When the mutex is free, nobody sleeps in vain: if a popper sleeps although messages are stored, at least as
      many other poppers are awake and on their way; the same for pushers and free places. */
  lemma NoLostWakeup(es: seq<State>, k: nat)
    requires Execution(es) && k < |es| && es[k].mutexFree
    ensures Valid(es[k].ring)
    ensures Count(es[k].threads, SleepingPops) > 0 ==> Count(es[k].threads, WokenPops) >= |Contents(es[k].ring)|
    ensures Count(es[k].threads, SleepingPushes) > 0 ==>
            Count(es[k].threads, WokenPushes) >= 9 - |Contents(es[k].ring)|
  {
    Reachable(es, k);
    CountZeroIff(es[k].threads, Inside);
    CountZeroIff(es[k].threads, PushesToSignal);
    CountZeroIff(es[k].threads, PopsToSignal);
  }

  /** Hence the queue never hangs: when a thread sleeps although the ring would let it go on, some other thread in
      the queue can move, without any spurious wakeup. */
  lemma SomebodyMoves(es: seq<State>, k: nat, i: nat)
    requires Execution(es) && k < |es| && i < |es[k].threads| && es[k].threads[i].Asleep?
    requires Valid(es[k].ring)
    requires if es[k].threads[i].op.Pop? then Contents(es[k].ring) != [] else |Contents(es[k].ring)| < 9
    ensures exists j: nat :: j < |es[k].threads| && es[k].threads[j] != Idle && !es[k].threads[j].Asleep?
                             && exists s' :: ThreadStep(es[k], s', j)
  {
    var s := es[k];
    Reachable(es, k);
    Sizes(s.ring);
    if s.mutexFree {
      NoLostWakeup(es, k);
      var pops := s.threads[i].op.Pop?;
      CountZeroIff(s.threads, if pops then SleepingPops else SleepingPushes);
      CountZeroIff(s.threads, if pops then WokenPops else WokenPushes);
      CountZeroIff(s.threads, Inside);
      var j :| 0 <= j < |s.threads| && In(if pops then WokenPops else WokenPushes, s.threads[j]);
      assert !In(Inside, s.threads[j]);
      var s' := s.(mutexFree := false, threads := s.threads[j := Testing(s.threads[j].op, true)]);
      assert Enter(s, s', j);
      assert ThreadStep(s, s', j);
    } else {
      CountZeroIff(s.threads, Inside);
      var j :| 0 <= j < |s.threads| && In(Inside, s.threads[j]);
      InsideMoves(s, j);
    }
  }

  /** A thread in the queue waits for the mutex on its way in, and for nothing else except for being woken. */
  lemma GoesOnIff(es: seq<State>, k: nat, i: nat)
    requires Execution(es) && k < |es| && i < |es[k].threads| && es[k].threads[i] != Idle && !es[k].threads[i].Asleep?
    ensures (exists s' :: ThreadStep(es[k], s', i)) <==>
              es[k].mutexFree || !(es[k].threads[i].Wanting? || es[k].threads[i].Woken?)
  {
    Reachable(es, k);
    var s := es[k];
    if s.threads[i].Wanting? || s.threads[i].Woken? {
      if s.mutexFree {
        var s' := s.(mutexFree := false, threads := s.threads[i := Testing(s.threads[i].op, s.threads[i].Woken?)]);
        assert Enter(s, s', i);
        assert ThreadStep(s, s', i);
      }
    } else {
      InsideMoves(s, i);
    }
  }

  /** With the mutex, a pusher sleeps if and only if there are nine messages, and a popper if and only if there is none;
      otherwise the one appends its message and the other takes the first. */
  lemma TestDecides(es: seq<State>, k: nat, i: nat, s': State)
    requires Execution(es) && k < |es| && i < |es[k].threads| && es[k].threads[i].Testing?
    requires ThreadStep(es[k], s', i)
    ensures Valid(es[k].ring) && Valid(s'.ring) && |s'.threads| == |es[k].threads|
    ensures var s, op := es[k], es[k].threads[i].op;
            var before, after := Contents(s.ring), Contents(s'.ring);
            if (if op.Push? then |before| == 9 else before == [])
            then s'.threads[i] == Asleep(op) && s'.mutexFree && after == before && s'.popped == s.popped
            else
              && s'.threads[i] == Signalling(op) && s'.mutexFree == s.mutexFree
              && match op
                 case Push(m) => after == before + [m] && s'.popped == s.popped
                 case Pop => before == [s'.popped[|s.popped|]] + after && |s'.popped| == |s.popped| + 1
  {
    Reachable(es, k);
    var s := es[k];
    Sizes(s.ring);
    if MustWait(s.ring, s.threads[i].op) {
      assert Sleep(s, s', i);
    } else {
      assert Change(s, s', i);
      if s.threads[i].op.Push? {
        PutAppends(s.ring, s.threads[i].op.m);
      } else {
        TakeRemoves(s.ring);
      }
    }
  }

  lemma InsideMoves(s: State, j: nat)
    requires Valid(s.ring) && j < |s.threads| && In(Inside, s.threads[j])
    ensures exists s' :: ThreadStep(s, s', j)
  {
    match s.threads[j]
    case Testing(op, _) =>
      if MustWait(s.ring, op) {
        var s' := s.(mutexFree := true, threads := s.threads[j := Asleep(op)]);
        assert Sleep(s, s', j);
        assert ThreadStep(s, s', j);
      } else {
        var s' := match op
          case Push(m) => s.(ring := Put(s.ring, m), pushed := s.pushed + [m],
                             threads := s.threads[j := Signalling(op)])
          case Pop => s.(ring := Take(s.ring).1, popped := s.popped + [Take(s.ring).0],
                         threads := s.threads[j := Signalling(Pop)]);
        assert Change(s, s', j);
        assert ThreadStep(s, s', j);
      }
    case Signalling(op) =>
      if k: nat :| k < |s.threads| && WaitsFor(s.threads[k], op) {
        var s' := s.(threads := s.threads[j := Leaving(op)][k := Woken(s.threads[k].op)]);
        assert Signal(s, s', j, k);
        assert ThreadStep(s, s', j);
      } else {
        var s' := s.(threads := s.threads[j := Leaving(op)]);
        assert Signal(s, s', j, 0);
        assert ThreadStep(s, s', j);
      }
    case Leaving(op) =>
      var s' := s.(mutexFree := true, threads := s.threads[j := Idle]);
      assert Leave(s, s', j);
      assert ThreadStep(s, s', j);
    case _ =>
  }
}
