/**
  The bounded, least-recently-used map from a JWT's digest to its engine, stamped by
  a logical clock, and the plain recency list it stands for.
 */
module JwtCaches {
  import opened Prelude

  /** The SHA-256 of a whole JWT, by the hex text it is stamped with. */
  datatype Digest = Digest(hex: string)

  datatype Entry = Entry(handle: nat, lastUsed: nat)

  datatype Cache = Cache(capacity: nat, tick: nat, entries: map<Digest, Entry>)

  /** A lookup advances the clock; a hit restamps its entry. */
  function Looked(c: Cache, d: Digest): (r: Cache) {
    var tick := c.tick + 1;
    c.(tick := tick, entries := if d in c.entries then c.entries[d := c.entries[d].(lastUsed := tick)] else c.entries)
  }

  /** An insert needs a victim when the cache is full and the digest is new to it. */
  predicate NeedsVictim(c: Cache, d: Digest) {
    c.capacity > 0 && |c.entries| >= c.capacity && d !in c.entries
  }

  /** An entry no other entry was used before. */
  ghost predicate IsLeastUsed(c: Cache, v: Digest) {
    v in c.entries && forall o :: o in c.entries ==> c.entries[v].lastUsed <= c.entries[o].lastUsed
  }

  ghost predicate IsVictim(c: Cache, d: Digest, victim: Option<Digest>) {
    if NeedsVictim(c, d) then victim.Some? && IsLeastUsed(c, victim.value) else victim.None?
  }

  function Inserted(c: Cache, d: Digest, handle: nat, victim: Option<Digest>): (r: Cache) {
    if c.capacity == 0 then c
    else
      var kept := if victim.Some? then c.entries - {victim.value} else c.entries;
      c.(tick := c.tick + 1, entries := kept[d := Entry(handle, c.tick + 1)])
  }

  function Removed(c: Cache, d: Digest, handle: nat): (r: Cache) {
    if d in c.entries && c.entries[d].handle == handle then c.(entries := c.entries - {d}) else c
  }

  // ----- the same in place -----

  class JwtCache {
    const capacity: nat
    var tick: nat
    var entries: map<Digest, Entry>

    constructor (capacity: nat)
      ensures View() == Cache(capacity, 0, map[])
    {
      this.capacity := capacity;
      tick, entries := 0, map[];
    }

    ghost function View(): (c: Cache)
      reads this
    {
      Cache(capacity, tick, entries)
    }

    method Get(d: Digest) returns (handle: Option<nat>)
      modifies this
      ensures View() == Looked(old(View()), d)
      ensures handle == if d in old(entries) then Some(old(entries)[d].handle) else None
    {
      tick := tick + 1;
      if d !in entries {
        return None;
      }
      entries := entries[d := Entry(entries[d].handle, tick)];
      handle := Some(entries[d].handle);
    }

    /** The scan for the entry with the smallest stamp. */
    method LeastUsed() returns (victim: Digest)
      requires entries != map[]
      ensures IsLeastUsed(View(), victim)
    {
      var rest := entries.Keys;
      victim :| victim in rest;
      while rest != {}
        invariant rest <= entries.Keys && victim in entries
        invariant forall o :: o in entries.Keys - rest ==> entries[victim].lastUsed <= entries[o].lastUsed
        decreases rest
      {
        var o :| o in rest;
        if entries[o].lastUsed < entries[victim].lastUsed {
          victim := o;
        }
        rest := rest - {o};
      }
    }

    method Insert(d: Digest, handle: nat) returns (victim: Option<Digest>)
      modifies this
      ensures IsVictim(old(View()), d, victim) && View() == Inserted(old(View()), d, handle, victim)
    {
      victim := None;
      if capacity == 0 {
        return;
      }
      tick := tick + 1;
      if |entries| >= capacity && d !in entries {
        var v := LeastUsed();
        victim := Some(v);
        entries := entries - {v};
      }
      entries := entries[d := Entry(handle, tick)];
    }

    method RemoveIf(d: Digest, handle: nat)
      modifies this
      ensures View() == Removed(old(View()), d, handle)
    {
      if d in entries && entries[d].handle == handle {
        entries := entries - {d};
      }
    }
  }

  // ----- what "least recently used" means over a history -----

  datatype Op = Lookup(d: Digest) | Put(d: Digest, handle: nat, victim: Option<Digest>) | Drop(d: Digest, handle: nat)

  function Apply(c: Cache, op: Op): (r: Cache) {
    match op
    case Lookup(d) => Looked(c, d)
    case Put(d, handle, victim) => Inserted(c, d, handle, victim)
    case Drop(d, handle) => Removed(c, d, handle)
  }

  function Replay(capacity: nat, ops: seq<Op>): (c: Cache) {
    if ops == [] then Cache(capacity, 0, map[]) else Apply(Replay(capacity, ops[..|ops| - 1]), ops[|ops| - 1])
  }

  /** Every eviction of the history was of a least-used entry. */
  ghost predicate IsHistory(capacity: nat, ops: seq<Op>) {
    ops == [] ||
    (IsHistory(capacity, ops[..|ops| - 1]) &&
     var op := ops[|ops| - 1];
     op.Put? ==> IsVictim(Replay(capacity, ops[..|ops| - 1]), op.d, op.victim))
  }

  /** How many lookups and inserts the history has. */
  function Uses(ops: seq<Op>): (n: nat) {
    if ops == [] then 0 else Uses(ops[..|ops| - 1]) + if ops[|ops| - 1].Drop? then 0 else 1
  }

  /** When `d` was last looked up or inserted, counted in uses; 0 if never. */
  function LastUse(ops: seq<Op>, d: Digest): (n: nat)
    ensures n <= Uses(ops)
  {
    if ops == [] then 0
    else if !ops[|ops| - 1].Drop? && ops[|ops| - 1].d == d then Uses(ops)
    else LastUse(ops[..|ops| - 1], d)
  }

  /** Two digests are never last used by the same operation. */
  lemma {:induction false} LastUsesDiffer(ops: seq<Op>, d: Digest, e: Digest)
    requires d != e && LastUse(ops, d) > 0
    ensures LastUse(ops, d) != LastUse(ops, e)
  {
    if ops != [] {
      var before := ops[..|ops| - 1];
      if LastUse(before, d) > 0 && LastUse(ops, d) == LastUse(before, d) && LastUse(ops, e) == LastUse(before, e) {
        LastUsesDiffer(before, d, e);
      }
    }
  }

  /** The stamps are the history's last uses, and the capacity is kept. */
  lemma {:induction false} StampsAreLastUses(capacity: nat, ops: seq<Op>)
    requires IsHistory(capacity, ops)
    ensures var c := Replay(capacity, ops);
            && c.capacity == capacity && |c.entries| <= capacity && c.tick <= Uses(ops)
            && (capacity > 0 ==> c.tick == Uses(ops))
            && forall d :: d in c.entries ==> c.entries[d].lastUsed == LastUse(ops, d) > 0
  {
    if ops != [] {
      var before, op := ops[..|ops| - 1], ops[|ops| - 1];
      StampsAreLastUses(capacity, before);
      var c := Replay(capacity, before);
      if op.Put? && capacity > 0 {
        PutKeepsCapacity(c, op);
      } else if op.Lookup? && op.d in c.entries {
        assert Looked(c, op.d).entries.Keys == c.entries.Keys;
      }
    }
  }

  lemma PutKeepsCapacity(c: Cache, op: Op)
    requires op.Put? && c.capacity > 0 && |c.entries| <= c.capacity && IsVictim(c, op.d, op.victim)
    ensures |Apply(c, op).entries| <= c.capacity
  {
    var kept := if op.victim.Some? then c.entries - {op.victim.value} else c.entries;
    var entries := Apply(c, op).entries;
    assert entries.Keys == kept.Keys + {op.d};
    if op.victim.Some? { assert kept.Keys == c.entries.Keys - {op.victim.value}; }
    else if op.d in c.entries { assert entries.Keys == c.entries.Keys; }
  }

  /**
    Eviction is least-recently-used: whatever the history, a full cache gives up
    exactly the cached digest whose last lookup or insert lies furthest back, and
    only for a digest it does not hold.
   */
  lemma EvictsLeastRecentlyUsed(capacity: nat, ops: seq<Op>, d: Digest, victim: Option<Digest>)
    requires IsHistory(capacity, ops) && IsVictim(Replay(capacity, ops), d, victim)
    ensures var c := Replay(capacity, ops);
            && (victim.Some? <==> 0 < capacity == |c.entries| && d !in c.entries)
            && (victim.Some? ==> victim.value in c.entries)
            && (victim.Some? ==>
                  forall o :: o in c.entries && o != victim.value ==> LastUse(ops, victim.value) < LastUse(ops, o))
  {
    StampsAreLastUses(capacity, ops);
    var c := Replay(capacity, ops);
    if victim.Some? {
      forall o | o in c.entries && o != victim.value ensures LastUse(ops, victim.value) < LastUse(ops, o) {
        LastUsesDiffer(ops, victim.value, o);
      }
    }
  }
}
