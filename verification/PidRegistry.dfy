/** The pid set of a shared device state (crates/utils/src/shared_memory/mod.rs): a slot set used as a mathematical
    set. */
module PidRegistries {
  import opened Wrappers
  import opened SlotSets

  /** Adding is union, except that a full registry ignores a pid it does not hold. */
  function Added(pids: set<nat>, capacity: nat, pid: nat): set<nat> {
    if pid in pids || |pids| < capacity then pids + {pid} else pids
  }

  datatype PidOp = AddPid(pid: nat) | RemovePid(pid: nat)

  function Apply(pids: set<nat>, capacity: nat, op: PidOp): set<nat> {
    match op
    case AddPid(pid) => Added(pids, capacity, pid)
    case RemovePid(pid) => pids - {pid}
  }

  function Run(pids: set<nat>, capacity: nat, ops: seq<PidOp>): set<nat> {
    if ops == [] then pids else Apply(Run(pids, capacity, ops[..|ops| - 1]), capacity, ops[|ops| - 1])
  }

  /** The operation that last mentions `pid`. */
  function LastOp(ops: seq<PidOp>, pid: nat): Option<PidOp> {
    if ops == [] then None
    else if ops[|ops| - 1].pid == pid then Some(ops[|ops| - 1])
    else LastOp(ops[..|ops| - 1], pid)
  }

  /** Some operation found the registry full and without the pid it was to add. */
  predicate Overflows(capacity: nat, ops: seq<PidOp>) {
    ops != [] &&
    var before := Run({}, capacity, ops[..|ops| - 1]);
    var op := ops[|ops| - 1];
    Overflows(capacity, ops[..|ops| - 1]) || (op.AddPid? && op.pid !in before && |before| >= capacity)
  }

  /** Over any run the registry keeps to its capacity, and holds only pids whose last operation added them;
      it holds all of those unless some addition found it full. */
  lemma {:induction false} LastOperationDecides(capacity: nat, ops: seq<PidOp>)
    ensures |Run({}, capacity, ops)| <= capacity
    ensures forall pid :: pid in Run({}, capacity, ops) ==> LastOp(ops, pid) == Some(AddPid(pid))
    ensures !Overflows(capacity, ops) ==>
              forall pid :: LastOp(ops, pid) == Some(AddPid(pid)) ==> pid in Run({}, capacity, ops)
  {
    if ops != [] {
      var before := ops[..|ops| - 1];
      LastOperationDecides(capacity, before);
      forall pid: nat
        ensures LastOp(ops, pid) == if ops[|ops| - 1].pid == pid then Some(ops[|ops| - 1]) else LastOp(before, pid)
      {
      }
    }
  }

  ghost predicate Injective(m: map<nat, nat>) {
    forall i, j :: i in m && j in m && m[i] == m[j] ==> i == j
  }

  lemma NewValue(m: map<nat, nat>, slot: nat, pid: nat)
    requires Injective(m) && slot !in m && pid !in m.Values
    ensures Injective(m[slot := pid]) && m[slot := pid].Values == m.Values + {pid}
  {
    var n := m[slot := pid];
    assert forall v :: v in m.Values ==> exists i :: i in m && n[i] == v;
    assert n[slot] == pid;
  }

  lemma DropValue(m: map<nat, nat>, slot: nat)
    requires Injective(m) && slot in m
    ensures Injective(m - {slot}) && (m - {slot}).Values == m.Values - {m[slot]}
  {
    var n := m - {slot};
    forall v | v in m.Values - {m[slot]}
      ensures v in n.Values
    {
      var i :| i in m && m[i] == v;
      assert i in n && n[i] == v;
    }
  }

  lemma {:induction false} InjectiveSize(m: map<nat, nat>)
    requires Injective(m)
    ensures |m.Values| == |m|
    decreases |m|
  {
    if m.Keys == {} {
      assert m.Values == {};
    } else {
      var i :| i in m.Keys;
      DropValue(m, i);
      assert (m - {i}).Keys == m.Keys - {i};
      InjectiveSize(m - {i});
    }
  }

  class PidRegistry {
    const pids: SlotSet<nat>

    constructor (capacity: nat)
      ensures Valid() && Pids() == {} && pids.data.Length == capacity
      ensures fresh(pids) && fresh(pids.data) && fresh(pids.bitmap) && fresh(pids.bitmap.words)
    {
      pids := new SlotSet(capacity);
    }

    /** Stored pids are pairwise distinct. */
    ghost predicate Valid()
      reads pids, pids.data, pids.bitmap, pids.bitmap.words
    {
      pids.Valid() && Injective(pids.Slots())
    }

    ghost function Pids(): (s: set<nat>)
      requires Valid()
      reads pids, pids.data, pids.bitmap, pids.bitmap.words
      ensures |s| == pids.len
    {
      InjectiveSize(pids.Slots());
      pids.Slots().Values
    }

    method Add(pid: nat)
      requires Valid()
      modifies pids`len, pids.data, pids.bitmap.words
      ensures Valid()
      ensures Pids() == Added(old(Pids()), pids.data.Length, pid)
    {
      ghost var before := pids.Slots();
      InjectiveSize(before);
      var slot := pids.InsertIfAbsent(pid);
      if slot.Some? && pid !in before.Values {
        NewValue(before, slot.value, pid);
      }
    }

    method Remove(pid: nat)
      requires Valid()
      modifies pids`len, pids.bitmap.words
      ensures Valid()
      ensures Pids() == old(Pids()) - {pid}
    {
      ghost var before := pids.Slots();
      var removed := pids.RemoveValue(pid);
      if removed.Some? {
        DropValue(before, removed.value.0);
      }
    }

    /** Lists every pid once. */
    method GetAll() returns (all: seq<nat>)
      requires Valid()
      ensures forall pid :: pid in all <==> pid in Pids()
      ensures forall a, b :: 0 <= a < b < |all| ==> all[a] != all[b]
    {
      ghost var slots := pids.Slots();
      var iter := new SlotIter(pids);
      all := [];
      var entry := iter.Next();
      while entry.Some?
        invariant fresh(iter) && iter.slots == pids && iter.current <= pids.data.Length
        invariant entry.None? ==> iter.current == pids.data.Length
        invariant Listed(Entries(slots, iter.current)) == all + (if entry.Some? then [entry.value.1] else [])
        decreases pids.data.Length - iter.current, entry.Some?
      {
        all := all + [entry.value.1];
        ghost var listed := Entries(slots, iter.current);
        entry := iter.Next();
        if entry.Some? {
          ListedGrows(listed, entry.value);
        }
      }
      ValuesListed(slots, pids.data.Length, all);
    }
  }

  function Listed(entries: seq<(nat, nat)>): (r: seq<nat>)
    ensures |r| == |entries| && forall k :: 0 <= k < |r| ==> r[k] == entries[k].1
  {
    seq(|entries|, k requires 0 <= k < |entries| => entries[k].1)
  }

  lemma ListedGrows(entries: seq<(nat, nat)>, entry: (nat, nat))
    ensures Listed(entries + [entry]) == Listed(entries) + [entry.1]
  {
  }

  lemma ValuesListed(m: map<nat, nat>, n: nat, all: seq<nat>)
    requires Injective(m) && forall i :: i in m ==> i < n
    requires all == Listed(Entries(m, n))
    ensures forall pid :: pid in all <==> pid in m.Values
    ensures forall a, b :: 0 <= a < b < |all| ==> all[a] != all[b]
  {
    EntriesAreSound(m, n);
    EntriesAreOrdered(m, n);
    forall pid | pid in m.Values
      ensures pid in all
    {
      var i :| i in m && m[i] == pid;
      var k := EntriesAreComplete(m, n, i);
      assert all[k] == pid;
    }
  }
}
