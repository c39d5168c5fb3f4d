/** The ring's code, in place. */
module RingInPlace {
  import opened Ring

  class MessageQueue<T(0)> {
    const messages: array<T>
    var first: nat
    var tail: nat

    ghost predicate Sized()
      reads this
    {
      messages.Length == QUEUE_SIZE && first < QUEUE_SIZE && tail < QUEUE_SIZE
    }

    ghost function View(): Ring<T>
      reads this, messages
    {
      Ring(messages[..], first, tail)
    }

    constructor ()
      ensures Sized() && fresh(messages) && Contents(View()) == []
    {
      messages := new T[QUEUE_SIZE];
      first, tail := 0, 0;
    }

    /** The part of a push that follows its wait loop. */
    method PushLocked(m: T)
      requires Sized() && !Full(View())
      modifies this, messages
      ensures Sized() && View() == Put(old(View()), m) && Contents(View()) == old(Contents(View())) + [m]
    {
      PutAppends(View(), m);
      messages[tail] := m;
      tail := (tail + 1) % QUEUE_SIZE;
    }

    /** The part of a pop that follows its wait loop. */
    method PopLocked() returns (m: T)
      requires Sized() && !Empty(View())
      modifies this`first
      ensures Sized() && (m, View()) == Take(old(View())) && old(Contents(View())) == [m] + Contents(View())
    {
      TakeRemoves(View());
      m := messages[first];
      first := (first + 1) % QUEUE_SIZE;
    }

    /** The oldest message, if any, without taking it. */
    method Peek(none: T) returns (m: T)
      requires Sized()
      ensures m == if Contents(View()) == [] then none else Contents(View())[0]
    {
      Sizes(View());
      if tail == first {
        return none;
      }
      TakeRemoves(View());
      return messages[first];
    }
  }
}
