/** The shared table's code, in place on arrays. */
module SharedTableInPlace {
  import opened SharedTable

  class Queue {
    const index: array<int>
    const slots: array<Entry>

    ghost predicate Sized()
    {
      index.Length == ENTRIES && slots.Length == ENTRIES
    }

    ghost function View(): Table
      reads index, slots
    {
      Table(index[..], slots[..])
    }

    constructor ()
      ensures Sized() && fresh(index) && fresh(slots)
      ensures Valid(View()) && Contents(View()) == []
    {
      index := new int[ENTRIES](_ => -1);
      slots := new Entry[ENTRIES](_ => Entry(0, seq(MAX_PACKET, _ => 0)));
    }

    /** The part of a write that runs under the lock. */
    method WriteLocked(buff: Bytes) returns (n: nat)
      requires Sized() && HasRoom(View())
      modifies index, slots
      ensures View() == Write(old(View()), buff) && n == Min(|buff|, MAX_PACKET)
    {
      var slot := 0;
      while slot < ENTRIES
        invariant 0 <= slot <= ENTRIES && forall k | 0 <= k < slot :: slots[k].len != 0
      {
        if slots[slot].len == 0 { break; }
        slot := slot + 1;
      }
      var i := 0;
      while i < ENTRIES
        invariant 0 <= i <= ENTRIES && forall k | 0 <= k < i :: index[k] != -1
      {
        if index[i] == -1 { break; }
        i := i + 1;
      }
      SamePlaces(View(), slot, i);
      index[i] := slot;
      n := if |buff| > MAX_PACKET then MAX_PACKET else |buff|;
      slots[slot] := Entry(n, buff[..n] + slots[slot].content[n..]);
    }

    lemma SamePlaces(t: Table, slot: nat, i: nat)
      requires HasRoom(t) && |t.index| == ENTRIES && |t.slots| == ENTRIES
      requires slot <= ENTRIES && (forall k | 0 <= k < slot :: t.slots[k].len != 0) &&
               (slot < ENTRIES ==> t.slots[slot].len == 0)
      requires i <= ENTRIES && (forall k | 0 <= k < i :: t.index[k] != -1) && (i < ENTRIES ==> t.index[i] == -1)
      ensures slot == FreeSlot(t.slots) && i == FreePlace(t.index)
    {
    }

    /** The part of a read that runs under the lock: copies out, frees the slot, shifts the index table. */
    method ReadLocked(len: nat) returns (bytes: Bytes)
      requires Sized() && HasMessage(View())
      modifies index, slots
      ensures (bytes, View()) == Read(old(View()), len)
    {
      ghost var before, places := index[..], slots[..];
      var e := slots[index[0]];
      var res := if len > e.len then e.len else len;
      bytes := e.content[..res];
      slots[index[0]] := e.(len := 0);
      for i := 1 to ENTRIES
        invariant forall k | 0 <= k < i - 1 :: index[k] == before[k + 1]
        invariant i > 1 ==> index[i - 1] == -1
        invariant i == 1 ==> index[0] == before[0]
        invariant forall k | i <= k < ENTRIES :: index[k] == before[k]
        invariant slots[..] == places[before[0] := e.(len := 0)]
      {
        index[i - 1] := index[i];
        index[i] := -1;
      }
      assert index[..] == before[1..] + [-1];
      assert slots[..] == places[before[0] := e.(len := 0)];
    }
  }
}
