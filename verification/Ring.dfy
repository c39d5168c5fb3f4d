/** The ring buffer behind a mailbox, on values. */
module Ring {
  // Ten places of which nine can be in use.

  const QUEUE_SIZE: nat := 10

  datatype Ring<T> = Ring(messages: seq<T>, first: nat, tail: nat)

  predicate Valid<T>(r: Ring<T>) {
    |r.messages| == QUEUE_SIZE && r.first < QUEUE_SIZE && r.tail < QUEUE_SIZE
  }

  predicate Empty<T>(r: Ring<T>) { r.first == r.tail }
  predicate Full<T>(r: Ring<T>) { (r.tail + 1) % QUEUE_SIZE == r.first }

  ghost function Contents<T>(r: Ring<T>): seq<T>
    requires Valid(r)
  {
    if r.first <= r.tail then r.messages[r.first..r.tail] else r.messages[r.first..] + r.messages[..r.tail]
  }

  function Put<T>(r: Ring<T>, m: T): Ring<T>
    requires Valid(r)
  {
    r.(messages := r.messages[r.tail := m], tail := (r.tail + 1) % QUEUE_SIZE)
  }

  function Take<T>(r: Ring<T>): (T, Ring<T>)
    requires Valid(r)
  {
    (r.messages[r.first], r.(first := (r.first + 1) % QUEUE_SIZE))
  }

  lemma Sizes<T>(r: Ring<T>)
    requires Valid(r)
    ensures Empty(r) <==> Contents(r) == []
    ensures Full(r) <==> |Contents(r)| == 9
    ensures |Contents(r)| <= 9
  {
  }

  lemma PutAppends<T>(r: Ring<T>, m: T)
    requires Valid(r) && !Full(r)
    ensures Valid(Put(r, m)) && Contents(Put(r, m)) == Contents(r) + [m]
  {
    var r' := Put(r, m);
    if r.first <= r.tail {
      assert r'.messages[r.first..r.tail] == r.messages[r.first..r.tail];
      assert r'.messages[r.first..r.tail + 1] == r'.messages[r.first..r.tail] + [m];
    } else {
      assert r'.messages[..r.tail + 1] == r.messages[..r.tail] + [m];
      assert r'.messages[r.first..] == r.messages[r.first..];
    }
  }

  lemma TakeRemoves<T>(r: Ring<T>)
    requires Valid(r) && !Empty(r)
    ensures Valid(Take(r).1) && Contents(r) == [Take(r).0] + Contents(Take(r).1)
  {
  }
}
