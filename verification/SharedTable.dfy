/** The table of the shared-memory queue, on values. */
module SharedTable {
  // An index over sixteen slots.

  const ENTRIES: nat := 16
  const MAX_PACKET: nat := 512

  newtype Byte = x: int | 0 <= x < 0x100
  type Bytes = seq<Byte>

  datatype Entry = Entry(len: nat, content: Bytes)
  datatype Table = Table(index: seq<int>, slots: seq<Entry>)

  function Min(a: nat, b: nat): nat { if a < b then a else b }

  // ---------------------------------------------------------------- the table

  /** The first slot without a message. */
  function FreeSlot(slots: seq<Entry>): (r: nat)
    ensures r <= |slots| && (r < |slots| ==> slots[r].len == 0) && forall i | 0 <= i < r :: slots[i].len != 0
  {
    if slots == [] then 0 else if slots[0].len == 0 then 0 else 1 + FreeSlot(slots[1..])
  }

  /** The first unused place of the index table; the places before it are in use. */
  function FreePlace(index: seq<int>): (r: nat)
    ensures r <= |index| && (r < |index| ==> index[r] == -1) && forall i | 0 <= i < r :: index[i] != -1
  {
    if index == [] then 0 else if index[0] == -1 then 0 else 1 + FreePlace(index[1..])
  }

  function Used(t: Table): nat { FreePlace(t.index) }

  ghost predicate Valid(t: Table) {
    && |t.index| == ENTRIES && |t.slots| == ENTRIES
    && (forall k | 0 <= k < ENTRIES :: |t.slots[k].content| == MAX_PACKET && t.slots[k].len <= MAX_PACKET)
    && (forall i | 0 <= i < Used(t) :: 0 <= t.index[i] < ENTRIES)
    && (forall i | Used(t) <= i < ENTRIES :: t.index[i] == -1)
    && (forall i, j | 0 <= i < j < Used(t) :: t.index[i] != t.index[j])
    && (forall k | 0 <= k < ENTRIES :: t.slots[k].len > 0 <==> k in t.index)
  }

  function Message(e: Entry): Bytes
    requires e.len <= |e.content|
  {
    e.content[..e.len]
  }

  /** The messages in the order in which they were written. */
  ghost function Contents(t: Table): (r: seq<Bytes>)
    requires Valid(t)
    ensures |r| == Used(t)
    ensures forall i | 0 <= i < |r| :: r[i] == Message(t.slots[t.index[i]])
  {
    seq(Used(t), i requires 0 <= i < Used(t) => Message(t.slots[t.index[i]]))
  }

  function Stored(e: Entry, buff: Bytes): Entry
    requires |e.content| == MAX_PACKET
  {
    var n := Min(|buff|, MAX_PACKET);
    Entry(n, buff[..n] + e.content[n..])
  }

  predicate HasRoom(t: Table) {
    && FreeSlot(t.slots) < |t.slots| && FreePlace(t.index) < |t.index|
    && |t.slots[FreeSlot(t.slots)].content| == MAX_PACKET
  }

  function Write(t: Table, buff: Bytes): Table
    requires HasRoom(t)
  {
    var slot := FreeSlot(t.slots);
    Table(t.index[FreePlace(t.index) := slot], t.slots[slot := Stored(t.slots[slot], buff)])
  }

  predicate HasMessage(t: Table) {
    t.index != [] && 0 <= t.index[0] < |t.slots| && t.slots[t.index[0]].len <= |t.slots[t.index[0]].content|
  }

  function Read(t: Table, len: nat): (Bytes, Table)
    requires HasMessage(t)
  {
    var e := t.slots[t.index[0]];
    (e.content[..Min(len, e.len)],
     Table(t.index[1..] + [-1], t.slots[t.index[0] := e.(len := 0)]))
  }

  ghost function Without(xs: seq<int>, v: int): (r: seq<int>)
    ensures |r| <= |xs| && (v in xs ==> |r| < |xs|)
    ensures forall x :: x in r <==> x in xs && x != v
  {
    if xs == [] then []
    else
      assert xs == [xs[0]] + xs[1..];
      (if xs[0] == v then [] else [xs[0]]) + Without(xs[1..], v)
  }

  /** Fewer than n numbers leave out one below n. */
  lemma {:induction false} OneLeftOut(xs: seq<int>, n: nat) returns (k: nat)
    requires |xs| < n
    ensures k < n && k !in xs
    decreases n
  {
    if n - 1 !in xs {
      k := n - 1;
    } else {
      k := OneLeftOut(Without(xs, n - 1), n - 1);
    }
  }

  lemma PlaceIs(index: seq<int>, r: nat)
    requires r <= |index| && (forall i | 0 <= i < r :: index[i] != -1) && (r < |index| ==> index[r] == -1)
    ensures FreePlace(index) == r
  {
  }

  /** A table with fewer than sixteen messages has a slot and an index place for another one, and after writing
      a message that is not empty the table holds the same messages followed by the new one. */
  lemma WriteAppends(t: Table, buff: Bytes)
    requires Valid(t) && Used(t) < 16
    ensures HasRoom(t)
    ensures |buff| > 0 ==>
              && Valid(Write(t, buff))
              && Contents(Write(t, buff)) == Contents(t) + [buff[..if |buff| <= 512 then |buff| else 512]]
  {
    var u := Used(t);
    var k := OneLeftOut(t.index[..u], ENTRIES);
    forall i | 0 <= i < ENTRIES ensures t.index[i] != k {
      if i < u { assert t.index[..u][i] == t.index[i]; }
    }
    assert t.slots[k].len == 0;
    if |buff| > 0 {
      WriteIndex(t, buff);
      var slot, t' := FreeSlot(t.slots), Write(t, buff);
      assert Message(t'.slots[slot]) == buff[..Min(|buff|, MAX_PACKET)];
      forall i | 0 <= i < u ensures Contents(t')[i] == Contents(t)[i] {
        assert t'.index[i] == t.index[i] && t.index[i] in t.index;
      }
      assert t'.index[u] == slot;
    }
  }

  lemma WriteIndex(t: Table, buff: Bytes)
    requires Valid(t) && HasRoom(t) && |buff| > 0
    ensures Used(Write(t, buff)) == Used(t) + 1 && Valid(Write(t, buff))
  {
    var u, slot, t' := Used(t), FreeSlot(t.slots), Write(t, buff);
    assert t'.slots[slot].len > 0;
    assert t'.index[u] == slot;
    assert u + 1 < ENTRIES ==> t'.index[u + 1] == t.index[u + 1];
    PlaceIs(t'.index, u + 1);
    forall i | 0 <= i < u ensures t.index[i] != slot {
      assert t.index[i] in t.index;
    }
    WriteUses(t, buff);
  }

  /** After writing the slots in use are again those that the index lists. */
  lemma WriteUses(t: Table, buff: Bytes)
    requires Valid(t) && HasRoom(t) && |buff| > 0
    ensures forall k | 0 <= k < ENTRIES :: Write(t, buff).slots[k].len > 0 <==> k in Write(t, buff).index
  {
    var t' := Write(t, buff);
    assert t'.index[Used(t)] == FreeSlot(t.slots);
    forall k | 0 <= k < ENTRIES ensures t'.slots[k].len > 0 <==> k in t'.index {
      if k in t.index {
        var i :| 0 <= i < ENTRIES && t.index[i] == k;
        assert t'.index[i] == k;
      }
    }
  }

  /** An empty message breaks the table: its slot still looks free.  So writing keeps the table valid exactly
      for messages that are not empty. */
  lemma WriteValidIffNotEmpty(t: Table, buff: Bytes)
    requires Valid(t) && Used(t) < ENTRIES
    ensures HasRoom(t)
    ensures Valid(Write(t, buff)) <==> |buff| > 0
  {
    WriteAppends(t, buff);
    if |buff| == 0 {
      var t' := Write(t, buff);
      assert t'.index[Used(t)] == FreeSlot(t.slots);
      assert t'.slots[FreeSlot(t.slots)].len == 0;
    }
  }

  /** Reading takes the oldest message off the table and returns it, cut to the reader's buffer. */
  lemma ReadTakes(t: Table, len: nat)
    requires Valid(t) && Used(t) > 0
    ensures HasMessage(t)
    ensures Read(t, len).0 == Contents(t)[0][..Min(len, |Contents(t)[0]|)]
    ensures Valid(Read(t, len).1) && Contents(Read(t, len).1) == Contents(t)[1..]
  {
    ReadIndex(t, len);
    var t' := Read(t, len).1;
    forall i | 0 <= i < Used(t') ensures Contents(t')[i] == Contents(t)[i + 1] {
      assert t'.index[i] == t.index[i + 1];
    }
  }

  lemma ReadIndex(t: Table, len: nat)
    requires Valid(t) && Used(t) > 0
    ensures HasMessage(t)
    ensures Used(Read(t, len).1) == Used(t) - 1 && Valid(Read(t, len).1)
  {
    var u, first, t' := Used(t), t.index[0], Read(t, len).1;
    assert forall i | 0 <= i < ENTRIES - 1 :: t'.index[i] == t.index[i + 1];
    assert t'.index[ENTRIES - 1] == -1;
    PlaceIs(t'.index, u - 1);
    forall k | 0 <= k < ENTRIES ensures t'.slots[k].len > 0 <==> k in t'.index {
      if k in t.index && k != first {
        var i :| 0 <= i < ENTRIES && t.index[i] == k;
        assert t'.index[i - 1] == k;
      }
      if k in t'.index {
        var i :| 0 <= i < ENTRIES && t'.index[i] == k;
        assert t.index[i + 1] == k;
      }
    }
  }
}
