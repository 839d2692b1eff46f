/** crates/utils/src/shared_memory/set.rs: a slot map of capacity N, refined to a partial map from slots to values. */
module SlotSets {
  import opened Wrappers
  import opened Bitmaps

  /** The slots of the first `n` positions that are occupied. */
  function Occupied(bits: seq<bool>, n: nat): (slots: set<nat>)
    requires n <= |bits|
    ensures forall i: nat :: i in slots <==> i < n && bits[i]
  {
    set i: nat | i < n && bits[i]
  }

  /** The abstract value: each occupied slot with what it stores. */
  function SlotMap<T>(bits: seq<bool>, data: seq<T>): (m: map<nat, T>)
    requires |data| <= |bits|
    ensures m.Keys == Occupied(bits, |data|)
    ensures forall i :: i in m ==> m[i] == data[i]
  {
    map i: nat | i < |data| && bits[i] :: data[i]
  }

  /** The occupied slots below `n` in increasing order, each with its value. */
  function Entries<T>(m: map<nat, T>, n: nat): (es: seq<(nat, T)>)
    ensures |es| == |set i | i in m && i < n|
  {
    if n == 0 then
      assert (set i | i in m && i < n) == {};
      []
    else if n - 1 in m then
      assert (set i | i in m && i < n) == (set i | i in m && i < n - 1) + {n - 1};
      Entries(m, n - 1) + [(n - 1, m[n - 1])]
    else
      assert (set i | i in m && i < n) == (set i | i in m && i < n - 1);
      Entries(m, n - 1)
  }

  /** Every listed entry is an entry of the map below `n`. */
  lemma {:induction false} EntriesAreSound<T>(m: map<nat, T>, n: nat)
    ensures forall k :: 0 <= k < |Entries(m, n)| ==>
              Entries(m, n)[k].0 in m && Entries(m, n)[k].0 < n && Entries(m, n)[k].1 == m[Entries(m, n)[k].0]
  {
    if n > 0 {
      EntriesAreSound(m, n - 1);
      var before := Entries(m, n - 1);
      assert Entries(m, n) == before || (n - 1 in m && Entries(m, n) == before + [(n - 1, m[n - 1])]);
    }
  }

  /** Slots are listed in strictly increasing order, so each at most once. */
  lemma {:induction false} EntriesAreOrdered<T>(m: map<nat, T>, n: nat)
    ensures forall a, b :: 0 <= a < b < |Entries(m, n)| ==> Entries(m, n)[a].0 < Entries(m, n)[b].0
  {
    if n > 0 {
      EntriesAreOrdered(m, n - 1);
      EntriesAreSound(m, n - 1);
      var before := Entries(m, n - 1);
      assert Entries(m, n) == before || Entries(m, n) == before + [(n - 1, m[n - 1])];
    }
  }

  /** Every occupied slot below `n` is listed with its value. */
  lemma {:induction false} EntriesAreComplete<T>(m: map<nat, T>, n: nat, i: nat) returns (k: nat)
    requires i in m && i < n
    ensures k < |Entries(m, n)| && Entries(m, n)[k] == (i, m[i])
  {
    if i == n - 1 {
      k := |Entries(m, n - 1)|;
    } else {
      k := EntriesAreComplete(m, n - 1, i);
    }
  }

  /** An entry whose predecessors store something else is the first slot that stores its value. */
  lemma FirstMatch<T>(m: map<nat, T>, n: nat, seen: seq<(nat, T)>, entry: (nat, T))
    requires Entries(m, n) == seen + [entry]
    requires forall k :: 0 <= k < |seen| ==> seen[k].1 != entry.1
    ensures entry.0 in m && m[entry.0] == entry.1
    ensures forall j :: j in m && j < entry.0 ==> m[j] != entry.1
  {
    EntriesAreSound(m, n);
    EntriesAreOrdered(m, n);
    assert Entries(m, n)[|seen|] == entry;
    forall j | j in m && j < entry.0
      ensures m[j] != entry.1
    {
      var k := EntriesAreComplete(m, n, j);
      assert seen[k] == (j, m[j]);
    }
  }

  lemma NoMatch<T>(m: map<nat, T>, n: nat, value: T)
    requires forall i :: i in m ==> i < n
    requires forall k :: 0 <= k < |Entries(m, n)| ==> Entries(m, n)[k].1 != value
    ensures value !in m.Values
  {
    forall i | i in m
      ensures m[i] != value
    {
      var k := EntriesAreComplete(m, n, i);
    }
  }

  lemma OccupySlot<T>(bits: seq<bool>, data: seq<T>, index: nat, value: T)
    requires index < |data| <= |bits|
    ensures Occupied(bits[index := true], |data|) == Occupied(bits, |data|) + {index}
    ensures SlotMap(bits[index := true], data[index := value]) == SlotMap(bits, data)[index := value]
  {
    assert SlotMap(bits[index := true], data[index := value]).Keys == SlotMap(bits, data)[index := value].Keys;
  }

  lemma FreeSlot<T>(bits: seq<bool>, data: seq<T>, index: nat)
    requires index < |data| <= |bits|
    ensures Occupied(bits[index := false], |data|) == Occupied(bits, |data|) - {index}
    ensures SlotMap(bits[index := false], data) == SlotMap(bits, data) - {index}
  {
    assert SlotMap(bits[index := false], data).Keys == (SlotMap(bits, data) - {index}).Keys;
  }

  /** No natural number below `n` is free exactly when `n` of them are taken. */
  lemma {:induction false} FullWhenCounted(slots: set<nat>, n: nat)
    requires forall i :: i in slots ==> i < n
    ensures |slots| <= n
    ensures |slots| == n <==> forall i: nat :: i < n ==> i in slots
  {
    if n > 0 {
      FullWhenCounted(slots - {n - 1}, n - 1);
      if n - 1 !in slots {
        assert slots - {n - 1} == slots;
      }
    } else {
      assert slots == {};
    }
  }

  /** The first clear bit below `n` is the least free slot, and there is none exactly when `n` slots are taken. */
  lemma LeastFreeSlot(bits: seq<bool>, n: nat, slot: Option<nat>)
    requires n <= |bits| && slot == FirstZero(bits, 0, n)
    ensures slot.None? <==> |Occupied(bits, n)| == n
    ensures slot.Some? ==> slot.value < n && slot.value !in Occupied(bits, n)
    ensures slot.Some? ==> forall i: nat :: i < slot.value ==> i in Occupied(bits, n)
  {
    FirstZeroIsLeast(bits, 0, n, slot);
    FullWhenCounted(Occupied(bits, n), n);
  }

  class SlotSet<T(0,==)> {
    const data: array<T>
    const bitmap: Bitmap
    var len: nat

    constructor (n: nat)
      ensures Valid() && fresh(data) && fresh(bitmap) && fresh(bitmap.words)
      ensures data.Length == n && Slots() == map[]
    {
      data := new T[n];
      bitmap := new Bitmap(n);
      len := 0;
      new;
      assert Occupied(bitmap.Bits(), data.Length) == {};
    }

    /** The bitmap has one word per slot, so 64 times as many bits as slots; those past the last slot stay clear. */
    predicate Valid()
      reads this, data, bitmap, bitmap.words
    {
      && data as object != bitmap.words
      && bitmap.words.Length == data.Length
      && len == |Occupied(bitmap.Bits(), data.Length)|
      && forall p :: data.Length <= p < |bitmap.Bits()| ==> !bitmap.Bits()[p]
    }

    function Slots(): (m: map<nat, T>)
      requires Valid()
      reads this, data, bitmap, bitmap.words
      ensures |m| == len <= data.Length
      ensures forall i :: i in m ==> i < data.Length
    {
      FullWhenCounted(Occupied(bitmap.Bits(), data.Length), data.Length);
      var m := SlotMap(bitmap.Bits(), data[..]);
      assert |m| == |m.Keys|;
      m
    }

    predicate Contains(index: nat): (occupied: bool)
      requires Valid()
      reads this, data, bitmap, bitmap.words
      ensures occupied <==> index in Slots()
    {
      index < data.Length && bitmap.Test(index)
    }

    /** Takes the least free slot; fails exactly when all N slots are taken. */
    method Insert(value: T) returns (slot: Option<nat>)
      requires Valid()
      modifies this`len, data, bitmap.words
      ensures Valid()
      ensures slot.None? <==> old(len) == data.Length
      ensures slot.None? ==> Slots() == old(Slots())
      ensures slot.Some? ==> slot.value < data.Length && slot.value !in old(Slots())
      ensures slot.Some? ==> forall i: nat :: i < slot.value ==> i in old(Slots())
      ensures slot.Some? ==> Slots() == old(Slots())[slot.value := value]
    {
      ghost var bits, before := bitmap.Bits(), data[..];
      slot := bitmap.FindNextZero(0, Some(data.Length));
      LeastFreeSlot(bits, data.Length, slot);
      if slot.Some? {
        var index := slot.value;
        OccupySlot(bits, before, index, value);
        var was := bitmap.TestAndSet(index, true);
        data[index] := value;
        assert data[..] == before[index := value];
        len := len + 1;
      }
    }

    method Remove(index: nat) returns (removed: Option<T>)
      requires Valid()
      modifies this`len, bitmap.words
      ensures Valid()
      ensures removed == if index in old(Slots()) then Some(old(Slots())[index]) else None
      ensures Slots() == old(Slots()) - {index}
    {
      if index >= data.Length || !bitmap.Test(index) {
        assert Slots() - {index} == Slots();
        return None;
      }
      FreeSlot(bitmap.Bits(), data[..], index);
      removed := Some(data[index]);
      var was := bitmap.TestAndSet(index, false);
      len := len - 1;
    }

    method Get(index: nat) returns (value: Option<T>)
      requires Valid()
      ensures value == if index in Slots() then Some(Slots()[index]) else None
    {
      if index >= data.Length || !bitmap.Test(index) {
        return None;
      }
      return Some(data[index]);
    }

    method Clear()
      requires Valid()
      modifies this`len, bitmap.words
      ensures Valid() && Slots() == map[]
    {
      for i := 0 to data.Length
        invariant |bitmap.Bits()| == old(|bitmap.Bits()|)
        invariant forall p :: 0 <= p < i ==> !bitmap.Bits()[p]
        invariant forall p :: data.Length <= p < |bitmap.Bits()| ==> !bitmap.Bits()[p]
      {
        if bitmap.Test(i) {
          var was := bitmap.TestAndSet(i, false);
        }
      }
      len := 0;
      assert Occupied(bitmap.Bits(), data.Length) == {};
    }

    /** The least slot that stores `value`. */
    method FindIndexOf(value: T) returns (index: Option<nat>)
      requires Valid()
      ensures index.None? <==> value !in Slots().Values
      ensures index.Some? ==> index.value in Slots() && Slots()[index.value] == value
      ensures index.Some? ==> forall j :: j in Slots() && j < index.value ==> Slots()[j] != value
    {
      var iter := new SlotIter(this);
      ghost var seen: seq<(nat, T)> := [];
      var entry := iter.Next();
      while entry.Some?
        invariant fresh(iter) && iter.slots == this && iter.current <= data.Length
        invariant entry.None? ==> iter.current == data.Length
        invariant Entries(Slots(), iter.current) == seen + (if entry.Some? then [entry.value] else [])
        invariant forall k :: 0 <= k < |seen| ==> seen[k].1 != value
        decreases data.Length - iter.current, entry.Some?
      {
        if entry.value.1 == value {
          FirstMatch(Slots(), iter.current, seen, entry.value);
          return Some(entry.value.0);
        }
        seen := seen + [entry.value];
        entry := iter.Next();
      }
      NoMatch(Slots(), data.Length, value);
      return None;
    }

    /** Inserts `value` unless some slot stores it, the first of which is returned; None means the set is full and does
        not store it. */
    method InsertIfAbsent(value: T) returns (slot: Option<nat>)
      requires Valid()
      modifies this`len, data, bitmap.words
      ensures Valid()
      ensures slot.None? <==> value !in old(Slots()).Values && old(len) == data.Length
      ensures slot.None? || value in old(Slots()).Values ==> Slots() == old(Slots())
      ensures slot.Some? ==> slot.value in Slots() && Slots()[slot.value] == value
      ensures slot.Some? && value in old(Slots()).Values ==>
                forall j :: j in old(Slots()) && j < slot.value ==> old(Slots())[j] != value
      ensures slot.Some? && value !in old(Slots()).Values ==>
                slot.value !in old(Slots()) && Slots() == old(Slots())[slot.value := value]
    {
      slot := FindIndexOf(value);
      if slot.None? {
        slot := Insert(value);
      }
    }

    /** Removes the first slot that stores `value`. */
    method RemoveValue(value: T) returns (removed: Option<(nat, T)>)
      requires Valid()
      modifies this`len, bitmap.words
      ensures Valid()
      ensures removed.None? <==> value !in old(Slots()).Values
      ensures removed.None? ==> Slots() == old(Slots())
      ensures removed.Some? ==>
                var (index, v) := removed.value;
                && v == value && index in old(Slots()) && old(Slots())[index] == value
                && (forall j :: j in old(Slots()) && j < index ==> old(Slots())[j] != value)
                && Slots() == old(Slots()) - {index}
    {
      var index := FindIndexOf(value);
      if index.None? {
        return None;
      }
      var v := Remove(index.value);
      return Some((index.value, v.value));
    }
  }

  /** The iterator over occupied slots. */
  class SlotIter<T(0,==)> {
    const slots: SlotSet<T>
    var current: nat

    constructor (slots: SlotSet<T>)
      ensures this.slots == slots && current == 0
    {
      this.slots := slots;
      current := 0;
    }

    /** Returns the next occupied slot. What has been returned so far is always the entry list below `current`. */
    method Next() returns (entry: Option<(nat, T)>)
      requires slots.Valid() && current <= slots.data.Length
      modifies this
      ensures current <= slots.data.Length
      ensures entry.None? ==> current == slots.data.Length
      ensures entry.Some? ==> old(current) < current
      ensures Entries(slots.Slots(), current) ==
              Entries(slots.Slots(), old(current)) + (if entry.Some? then [entry.value] else [])
    {
      while current < slots.data.Length
        invariant current <= slots.data.Length
        invariant Entries(slots.Slots(), current) == Entries(slots.Slots(), old(current))
      {
        var index := current;
        current := current + 1;
        if slots.bitmap.Test(index) {
          return Some((index, slots.data[index]));
        }
      }
      return None;
    }
  }
}
