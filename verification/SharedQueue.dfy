/** The threads around the shared table. */
module SharedQueue {
  // Any number of writers and readers share it through two counting semaphores and a lock.

  import opened SharedTable
  import Fifo

  /** What a thread wants: put a message, or get one into a buffer of the given length. */
  datatype Op = Put(buff: Bytes) | Get(len: nat)

  /** Where a thread is: past its semaphore, holding the lock before or after the work, or about to post. */
  datatype Pc = Idle | Admitted(op: Op) | Locked(op: Op) | Worked(op: Op) | Posting(op: Op)

  /** `sent` and `received` record the messages written and taken so far, `returned` what the readers got. */
  datatype State = State(table: Table, readWait: nat, writeSem: nat, lockFree: bool, threads: seq<Pc>,
                         sent: seq<Bytes>, received: seq<Bytes>, returned: seq<Bytes>)

  ghost predicate Init(s: State) {
    && Valid(s.table) && Contents(s.table) == []
    && s.readWait == 0 && s.writeSem == ENTRIES && s.lockFree
    && (forall i | 0 <= i < |s.threads| :: s.threads[i] == Idle)
    && s.sent == [] && s.received == [] && s.returned == []
  }

  /** Waits for its semaphore.  Writers never write empty messages. */
  ghost predicate Admit(s: State, s': State, i: nat, op: Op)
    requires i < |s.threads|
  {
    && s.threads[i] == Idle
    && match op
       case Put(buff) =>
         |buff| > 0 && s.writeSem > 0 && s' == s.(writeSem := s.writeSem - 1, threads := s.threads[i := Admitted(op)])
       case Get(_) => s.readWait > 0 && s' == s.(readWait := s.readWait - 1, threads := s.threads[i := Admitted(op)])
  }

  ghost predicate TakeLock(s: State, s': State, i: nat)
    requires i < |s.threads|
  {
    && s.threads[i].Admitted? && s.lockFree
    && s' == s.(lockFree := false, threads := s.threads[i := Locked(s.threads[i].op)])
  }

  ghost predicate Work(s: State, s': State, i: nat)
    requires i < |s.threads|
  {
    && s.threads[i].Locked?
    && var op := s.threads[i].op;
       match op
       case Put(buff) =>
         && HasRoom(s.table)
         && s' == s.(table := Write(s.table, buff), threads := s.threads[i := Worked(op)],
                     sent := s.sent + [buff[..Min(|buff|, MAX_PACKET)]])
       case Get(len) =>
         && HasMessage(s.table)
         && var e := s.table.slots[s.table.index[0]];
            s' == s.(table := Read(s.table, len).1, threads := s.threads[i := Worked(op)],
                     received := s.received + [Message(e)], returned := s.returned + [Read(s.table, len).0])
  }

  ghost predicate DropLock(s: State, s': State, i: nat)
    requires i < |s.threads|
  {
    && s.threads[i].Worked?
    && s' == s.(lockFree := true, threads := s.threads[i := Posting(s.threads[i].op)])
  }

  ghost predicate Post(s: State, s': State, i: nat)
    requires i < |s.threads|
  {
    && s.threads[i].Posting?
    && s' == if s.threads[i].op.Put? then s.(readWait := s.readWait + 1, threads := s.threads[i := Idle])
             else s.(writeSem := s.writeSem + 1, threads := s.threads[i := Idle])
  }

  ghost predicate ThreadStep(s: State, s': State, i: nat)
    requires i < |s.threads|
  {
    (exists op :: Admit(s, s', i, op)) || TakeLock(s, s', i) || Work(s, s', i) || DropLock(s, s', i) || Post(s, s', i)
  }

  ghost predicate Next(s: State, s': State) {
    exists i: nat :: i < |s.threads| && ThreadStep(s, s', i)
  }

  ghost predicate Execution(es: seq<State>) {
    es != [] && Init(es[0]) && forall k | 0 <= k < |es| - 1 :: Next(es[k], es[k + 1])
  }

  /** The windows between the semaphores and the table. */
  datatype Window = AboutToWrite | HasWritten | AboutToRead | HasRead | Holding

  predicate In(w: Window, pc: Pc) {
    match w
    case AboutToWrite => (pc.Admitted? || pc.Locked?) && pc.op.Put?
    case HasWritten => (pc.Worked? || pc.Posting?) && pc.op.Put?
    case AboutToRead => (pc.Admitted? || pc.Locked?) && pc.op.Get?
    case HasRead => (pc.Worked? || pc.Posting?) && pc.op.Get?
    case Holding => pc.Locked? || pc.Worked?
  }

  ghost function Count(threads: seq<Pc>, w: Window): nat {
    if threads == [] then 0 else (if In(w, threads[0]) then 1 else 0) + Count(threads[1..], w)
  }

  lemma {:induction false} CountUpdate(threads: seq<Pc>, i: nat, pc: Pc, w: Window)
    requires i < |threads|
    ensures Count(threads[i := pc], w) == Count(threads, w)
            + (if In(w, pc) then 1 else 0) - (if In(w, threads[i]) then 1 else 0)
  {
    if i == 0 {
      assert threads[i := pc][1..] == threads[1..];
    } else {
      assert threads[i := pc][1..] == threads[1..][i - 1 := pc];
      CountUpdate(threads[1..], i - 1, pc, w);
    }
  }

  lemma CountsUpdate(threads: seq<Pc>, i: nat, pc: Pc)
    requires i < |threads|
    ensures forall w ::
              Count(threads[i := pc], w) == Count(threads, w)
                + (if In(w, pc) then 1 else 0) - (if In(w, threads[i]) then 1 else 0)
  {
    forall w
      ensures Count(threads[i := pc], w) == Count(threads, w)
                + (if In(w, pc) then 1 else 0) - (if In(w, threads[i]) then 1 else 0)
    {
      CountUpdate(threads, i, pc, w);
    }
  }

  lemma {:induction false} CountedWhen(threads: seq<Pc>, i: nat, w: Window)
    requires i < |threads| && In(w, threads[i])
    ensures Count(threads, w) > 0
  {
    if i > 0 { CountedWhen(threads[1..], i - 1, w); }
  }

  lemma NoneCounted(threads: seq<Pc>, w: Window)
    requires forall i | 0 <= i < |threads| :: !In(w, threads[i])
    ensures Count(threads, w) == 0
  {
  }

  /** Each semaphore, with the threads inside its window, accounts for the messages or the free places. */
  ghost predicate Inv(s: State) {
    && Valid(s.table)
    && s.sent == s.received + Contents(s.table)
    && s.readWait + Count(s.threads, AboutToRead) + Count(s.threads, HasWritten) == Used(s.table)
    && s.writeSem + Count(s.threads, AboutToWrite) + Count(s.threads, HasRead) == ENTRIES - Used(s.table)
    && Count(s.threads, Holding) == (if s.lockFree then 0 else 1)
    && (forall i | 0 <= i < |s.threads| && s.threads[i] != Idle && s.threads[i].op.Put? :: |s.threads[i].op.buff| > 0)
    && |s.returned| == |s.received|
    && (forall k | 0 <= k < |s.returned| :: s.returned[k] <= s.received[k])
  }

  /** A writer under the lock finds a slot and an index place, a reader a message, and the checked semaphore
      values are in range. */
  lemma WorkIsPossible(s: State, i: nat)
    requires Inv(s) && i < |s.threads| && s.threads[i].Locked?
    ensures s.threads[i].op.Put? ==> Used(s.table) < ENTRIES && HasRoom(s.table)
    ensures s.threads[i].op.Get? ==> Used(s.table) > 0 && HasMessage(s.table)
    ensures 0 <= s.readWait <= ENTRIES && 0 <= s.writeSem <= ENTRIES
  {
    if s.threads[i].op.Put? {
      CountedWhen(s.threads, i, AboutToWrite);
      WriteAppends(s.table, s.threads[i].op.buff);
    } else {
      CountedWhen(s.threads, i, AboutToRead);
      ReadTakes(s.table, 0);
    }
  }

  lemma PutKeeps(s: State, s': State, i: nat)
    requires Inv(s) && i < |s.threads| && Work(s, s', i) && s.threads[i].op.Put?
    ensures Inv(s')
  {
    WorkIsPossible(s, i);
    CountsUpdate(s.threads, i, s'.threads[i]);
    WriteAppends(s.table, s.threads[i].op.buff);
    assert s'.sent == s'.received + Contents(s'.table);
    assert |Contents(s'.table)| == |Contents(s.table)| + 1;
  }

  lemma GetKeeps(s: State, s': State, i: nat)
    requires Inv(s) && i < |s.threads| && Work(s, s', i) && s.threads[i].op.Get?
    ensures Inv(s')
  {
    WorkIsPossible(s, i);
    CountsUpdate(s.threads, i, s'.threads[i]);
    GetTakes(s, s', i);
    assert |Contents(s'.table)| == |Contents(s.table)| - 1;
  }

  lemma GetTakes(s: State, s': State, i: nat)
    requires Inv(s) && i < |s.threads| && Work(s, s', i) && s.threads[i].op.Get?
    ensures Valid(s'.table) && Used(s.table) > 0 && Contents(s'.table) == Contents(s.table)[1..]
    ensures s'.sent == s'.received + Contents(s'.table)
    ensures |s'.returned| == |s'.received| && forall k | 0 <= k < |s'.returned| :: s'.returned[k] <= s'.received[k]
  {
    WorkIsPossible(s, i);
    ReadTakes(s.table, s.threads[i].op.len);
    var q := Contents(s.table);
    assert s'.received == s.received + [q[0]];
    MoveOne(s.received, q);
    assert s'.returned == s.returned + [Read(s.table, s.threads[i].op.len).0];
    assert Read(s.table, s.threads[i].op.len).0 <= q[0];
  }

  lemma MoveOne<T>(a: seq<T>, q: seq<T>)
    requires q != []
    ensures a + q == a + [q[0]] + q[1..]
  {
  }

  lemma AdmitKeeps(s: State, s': State, i: nat, op: Op)
    requires Inv(s) && i < |s.threads| && Admit(s, s', i, op)
    ensures Inv(s')
  {
    CountsUpdate(s.threads, i, s'.threads[i]);
  }

  lemma PassKeeps(s: State, s': State, i: nat)
    requires Inv(s) && i < |s.threads| && (TakeLock(s, s', i) || DropLock(s, s', i))
    ensures Inv(s')
  {
    CountsUpdate(s.threads, i, s'.threads[i]);
    assert Count(s'.threads, Holding) == if s'.lockFree then 0 else 1;
  }

  lemma PostKeeps(s: State, s': State, i: nat)
    requires Inv(s) && i < |s.threads| && Post(s, s', i)
    ensures Inv(s')
  {
    CountsUpdate(s.threads, i, s'.threads[i]);
  }

  lemma StepKeeps(s: State, s': State, i: nat)
    requires Inv(s) && i < |s.threads| && ThreadStep(s, s', i)
    ensures Inv(s')
  {
    if Work(s, s', i) {
      if s.threads[i].op.Put? { PutKeeps(s, s', i); } else { GetKeeps(s, s', i); }
    } else if exists op :: Admit(s, s', i, op) {
      var op :| Admit(s, s', i, op);
      AdmitKeeps(s, s', i, op);
    } else if Post(s, s', i) {
      PostKeeps(s, s', i);
    } else {
      PassKeeps(s, s', i);
    }
  }

  lemma {:induction false} Reachable(es: seq<State>, k: nat)
    requires Execution(es) && k < |es|
    ensures Inv(es[k])
  {
    if k == 0 {
      forall w ensures Count(es[0].threads, w) == 0 { NoneCounted(es[0].threads, w); }
    } else {
      Reachable(es, k - 1);
      assert Next(es[k - 1], es[k]);
      var i: nat :| i < |es[k - 1].threads| && ThreadStep(es[k - 1], es[k], i);
      StepKeeps(es[k - 1], es[k], i);
    }
  }

  lemma PutIsPush(s: State, s': State, i: nat)
    requires Inv(s) && i < |s.threads| && Work(s, s', i) && s.threads[i].op.Put?
    ensures Valid(s'.table) && |Contents(s.table)| < 16
    ensures var buff := s.threads[i].op.buff;
            Contents(s'.table) == Contents(s.table) + [buff[..if |buff| <= 512 then |buff| else 512]]
  {
    WorkIsPossible(s, i);
    WriteAppends(s.table, s.threads[i].op.buff);
  }

  lemma GetIsPop(s: State, s': State, i: nat)
    requires Inv(s) && i < |s.threads| && Work(s, s', i) && s.threads[i].op.Get?
    ensures Valid(s'.table) && Contents(s.table) != []
    ensures Contents(s.table) == [Contents(s.table)[0]] + Contents(s'.table)
  {
    GetTakes(s, s', i);
  }

  /** Every step of a thread leaves the stored messages alone, except for the critical section of a writer, which is
      the push of a queue with room for sixteen, and that of a reader, which is its pop. */
  lemma StepIsFifoStep(s: State, s': State, i: nat)
    requires Inv(s) && i < |s.threads| && ThreadStep(s, s', i)
    ensures Valid(s'.table)
    ensures Fifo.Step(16, Contents(s.table),
                      if !Work(s, s', i) then Fifo.Nothing
                      else match s.threads[i].op
                           case Put(buff) => Fifo.Pushed(buff[..if |buff| <= 512 then |buff| else 512])
                           case Get(_) => Fifo.Popped(if Contents(s.table) == [] then [] else Contents(s.table)[0]),
                      Contents(s'.table))
  {
    if Work(s, s', i) {
      if s.threads[i].op.Put? {
        PutIsPush(s, s', i);
      } else {
        GetIsPop(s, s', i);
      }
    }
  }

  /** For any number of writers and readers the queue is a first-in-first-out queue of sixteen places: what was
      taken out, followed by what is stored, is what was put in, in the same order and unchanged; and each
      reader got its message, as far as its buffer reached. */
  lemma RefinesFifo(es: seq<State>, k: nat)
    requires Execution(es) && k < |es|
    ensures Valid(es[k].table) && es[k].sent == es[k].received + Contents(es[k].table) &&
            |Contents(es[k].table)| <= 16
    ensures |es[k].returned| == |es[k].received|
    ensures forall i | 0 <= i < |es[k].returned| :: es[k].returned[i] <= es[k].received[i]
  {
    Reachable(es, k);
  }

  /** A reader whose buffer takes a whole packet gets the whole oldest message. */
  lemma WholeMessage(es: seq<State>, k: nat, s': State, i: nat)
    requires Execution(es) && k < |es| && i < |es[k].threads| && Work(es[k], s', i)
    requires es[k].threads[i].op.Get? && es[k].threads[i].op.len >= 512
    ensures Valid(es[k].table) && Contents(es[k].table) != []
    ensures s'.returned == es[k].returned + [Contents(es[k].table)[0]]
  {
    Reachable(es, k);
    WorkIsPossible(es[k], i);
    ReadTakes(es[k].table, es[k].threads[i].op.len);
  }

  /** No thread is ever stuck inside: while some thread is past its semaphore, one that is past it can go on. */
  lemma InsideMoves(es: seq<State>, k: nat, i: nat)
    requires Execution(es) && k < |es| && i < |es[k].threads| && es[k].threads[i] != Idle
    ensures exists j: nat :: j < |es[k].threads| && es[k].threads[j] != Idle
                             && exists s' :: ThreadStep(es[k], s', j)
  {
    var s := es[k];
    Reachable(es, k);
    if s.lockFree {
      assert !In(Holding, s.threads[i]) by { if In(Holding, s.threads[i]) { CountedWhen(s.threads, i, Holding); } }
      ThreadMoves(s, i);
    } else {
      var j := SomeHolder(s.threads);
      ThreadMoves(s, j);
    }
  }

  /** A thread that is inside waits for nothing but the lock, and only on its way to the table. */
  lemma GoesOnIff(es: seq<State>, k: nat, i: nat)
    requires Execution(es) && k < |es| && i < |es[k].threads| && es[k].threads[i] != Idle
    ensures (exists s' :: ThreadStep(es[k], s', i)) <==> es[k].lockFree || !es[k].threads[i].Admitted?
  {
    Reachable(es, k);
    if es[k].lockFree || !es[k].threads[i].Admitted? {
      ThreadMoves(es[k], i);
    }
  }

  /** A thread that is outside can come in to write if and only if fewer than sixteen places are in use or promised to
      writers, those counted that a reader is just giving back, and to read if and only if there is a message that is
      neither promised to a reader nor just being handed in. */
  lemma ComesInIff(es: seq<State>, k: nat, i: nat, op: Op)
    requires Execution(es) && k < |es| && i < |es[k].threads| && es[k].threads[i] == Idle && Valid(es[k].table)
    ensures var s, stored := es[k], |Contents(es[k].table)|;
            (exists s' :: ThreadStep(s, s', i) && s'.threads[i] == Admitted(op)) <==>
              match op
              case Put(buff) => |buff| > 0 && stored + Count(s.threads, AboutToWrite) + Count(s.threads, HasRead) < 16
              case Get(_) => stored > Count(s.threads, AboutToRead) + Count(s.threads, HasWritten)
  {
    Reachable(es, k);
    var s := es[k];
    if op.Put? && |op.buff| > 0 && s.writeSem > 0 {
      var s' := s.(writeSem := s.writeSem - 1, threads := s.threads[i := Admitted(op)]);
      assert Admit(s, s', i, op);
      assert ThreadStep(s, s', i);
    }
    if op.Get? && s.readWait > 0 {
      var s' := s.(readWait := s.readWait - 1, threads := s.threads[i := Admitted(op)]);
      assert Admit(s, s', i, op);
      assert ThreadStep(s, s', i);
    }
  }

  lemma {:induction false} SomeHolder(threads: seq<Pc>) returns (j: nat)
    requires Count(threads, Holding) > 0
    ensures j < |threads| && In(Holding, threads[j])
  {
    if In(Holding, threads[0]) { j := 0; }
    else { j := SomeHolder(threads[1..]); j := j + 1; }
  }

  lemma ThreadMoves(s: State, i: nat)
    requires Inv(s) && i < |s.threads| && s.threads[i] != Idle && (s.threads[i].Admitted? ==> s.lockFree)
    ensures exists s' :: ThreadStep(s, s', i)
  {
    match s.threads[i]
    case Admitted(op) =>
      var s' := s.(lockFree := false, threads := s.threads[i := Locked(op)]);
      assert TakeLock(s, s', i);
      assert ThreadStep(s, s', i);
    case Locked(op) =>
      WorkIsPossible(s, i);
      if op.Put? {
        var s' := s.(table := Write(s.table, op.buff), threads := s.threads[i := Worked(op)],
                     sent := s.sent + [op.buff[..Min(|op.buff|, MAX_PACKET)]]);
        assert Work(s, s', i);
        assert ThreadStep(s, s', i);
      } else {
        var e := s.table.slots[s.table.index[0]];
        var s' := s.(table := Read(s.table, op.len).1, threads := s.threads[i := Worked(op)],
                     received := s.received + [Message(e)], returned := s.returned + [Read(s.table, op.len).0]);
        assert Work(s, s', i);
        assert ThreadStep(s, s', i);
      }
    case Worked(op) =>
      var s' := s.(lockFree := true, threads := s.threads[i := Posting(op)]);
      assert DropLock(s, s', i);
      assert ThreadStep(s, s', i);
    case Posting(op) =>
      var s' := if op.Put? then s.(readWait := s.readWait + 1, threads := s.threads[i := Idle])
                else s.(writeSem := s.writeSem + 1, threads := s.threads[i := Idle]);
      assert Post(s, s', i);
      assert ThreadStep(s, s', i);
    case Idle =>
  }

  /** With no thread inside, the semaphores count exactly the messages and the free places: a waiting reader
      sleeps only if the queue is empty, a waiting writer only if it is full. */
  lemma QuietSemaphores(es: seq<State>, k: nat)
    requires Execution(es) && k < |es| && forall i | 0 <= i < |es[k].threads| :: es[k].threads[i] == Idle
    ensures es[k].readWait == Used(es[k].table) && es[k].writeSem == 16 - Used(es[k].table)
  {
    Reachable(es, k);
    forall w ensures Count(es[k].threads, w) == 0 { NoneCounted(es[k].threads, w); }
  }
}
