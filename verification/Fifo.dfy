/** A first-in-first-out queue with limited room. */
module Fifo {

  datatype Event<T> = Nothing | Pushed(message: T) | Popped(message: T)

  /** One step of the queue: it stays, takes one more message at its end, or gives up its first. */
  ghost predicate Step<T>(room: nat, q: seq<T>, e: Event<T>, q': seq<T>) {
    match e
    case Nothing => q' == q
    case Pushed(m) => |q| < room && q' == q + [m]
    case Popped(m) => q == [m] + q'
  }

  /** Some step leads from q to q'. */
  ghost predicate Moves<T(!new)>(room: nat, q: seq<T>, q': seq<T>) {
    exists e :: Step(room, q, e, q')
  }

  lemma Stays<T(!new)>(room: nat, q: seq<T>)
    ensures Moves(room, q, q)
  {
    assert Step(room, q, Nothing, q);
  }

  lemma Pushes<T(!new)>(room: nat, q: seq<T>, m: T)
    requires |q| < room
    ensures Moves(room, q, q + [m])
  {
    assert Step(room, q, Pushed(m), q + [m]);
  }

  lemma Pops<T(!new)>(room: nat, q: seq<T>)
    requires q != []
    ensures Moves(room, q, q[1..])
  {
    assert Step(room, q, Popped(q[0]), q[1..]);
  }
}
