/**
The in-memory distributed lock: a table from key to (token, expiry), lock objects that claim an
entry when it is absent or expired, and a release that deletes an entry only under its own token.

An acquiring task reads the clock before it waits for the table's mutex, so the reading it compares
with may be older than the moment it is compared.  The second half of the module interleaves any
number of lock objects, one atomic step per critical section, and proves that two leases on one key
are never live together.
*/
module Locks {

  type Key = string
  // The source draws a random token per lock object; here the token is the object's identity.
  type Token = nat

  datatype Entry = Entry(token: Token, expiry: int)
  type Table = map<Key, Entry>

  predicate IsFree(table: Table, key: Key, now: int) {
    key !in table || table[key].expiry < now
  }

  function Claim(table: Table, key: Key, token: Token, now: int, ttl: int): Table {
    table[key := Entry(token, now + ttl)]
  }

  function Drop(table: Table, key: Key, token: Token): Table {
    if key in table && table[key].token == token then table - {key} else table
  }

  // ----- The lock object, in the source's own form -----

  class Registry {
    var table: Table

    constructor ()
      ensures table == map[]
    {
      table := map[];
    }
  }

  // The tries from attempt i on, each against the table the previous sleep has left.  Attempt i
  // reads clock(i); while the task sleeps after it, other tasks turn the table t into others(i, t).
  function Tries(table: Table, key: Key, token: Token, ttl: int,
                 clock: nat -> int, others: (nat, Table) -> Table, i: nat, limit: nat): (bool, Table)
    decreases limit - i
  {
    if limit <= i then (false, table)
    else if IsFree(table, key, clock(i)) then (true, Claim(table, key, token, clock(i), ttl))
    else Tries(others(i, table), key, token, ttl, clock, others, i + 1, limit)
  }

  // What other tasks alone make of the table over attempts i to j.
  function TableAt(table: Table, others: (nat, Table) -> Table, i: nat, j: nat): Table
    requires i <= j
    decreases j - i
  {
    if i == j then table else TableAt(others(i, table), others, i + 1, j)
  }

  predicate FreeAt(table: Table, key: Key, clock: nat -> int, others: (nat, Table) -> Table, i: nat, j: nat)
    requires i <= j
  {
    IsFree(TableAt(table, others, i, j), key, clock(j))
  }

  // Attempt j is the first, counting from i, to find the key free.
  ghost predicate FirstFree(table: Table, key: Key, clock: nat -> int, others: (nat, Table) -> Table, i: nat, j: nat)
  {
    i <= j && FreeAt(table, key, clock, others, i, j)
    && forall m: nat | i <= m < j :: !FreeAt(table, key, clock, others, i, m)
  }

  // The lock is won exactly when some attempt within the limit finds the key free, and then at
  // the first such attempt; a failed acquire has touched nothing.
  lemma {:induction false} TriesMeaning(table: Table, key: Key, token: Token, ttl: int,
                                        clock: nat -> int, others: (nat, Table) -> Table, i: nat, limit: nat)
    requires i <= limit
    ensures var (ok, final) := Tries(table, key, token, ttl, clock, others, i, limit);
            if ok then
              exists j: nat ::
                && j < limit && FirstFree(table, key, clock, others, i, j)
                && final == Claim(TableAt(table, others, i, j), key, token, clock(j), ttl)
            else
              && (forall m: nat | i <= m < limit :: !FreeAt(table, key, clock, others, i, m))
              && final == TableAt(table, others, i, limit)
    decreases limit - i
  {
    if i < limit && IsFree(table, key, clock(i)) {
      assert FreeAt(table, key, clock, others, i, i);
    } else if i < limit {
      var next := others(i, table);
      TriesMeaning(next, key, token, ttl, clock, others, i + 1, limit);
      forall m: nat | i < m < limit
        ensures FreeAt(table, key, clock, others, i, m) == FreeAt(next, key, clock, others, i + 1, m)
      {
      }
      assert !FreeAt(table, key, clock, others, i, i);
      var (ok, final) := Tries(next, key, token, ttl, clock, others, i + 1, limit);
      if ok {
        var j: nat :|
          && j < limit && FirstFree(next, key, clock, others, i + 1, j)
          && final == Claim(TableAt(next, others, i + 1, j), key, token, clock(j), ttl);
        assert FirstFree(table, key, clock, others, i, j);
      }
    }
  }

  class DistributedLock {
    const key: Key
    const token: Token
    const ttl: int
    const maxRetries: int
    var isMemoryLock: bool
    var acquired: bool

    constructor (key: Key, token: Token, ttl: int, maxRetries: int)
      ensures this.key == "codenter_lock:" + key
      ensures this.token == token && this.ttl == ttl && this.maxRetries == maxRetries
      ensures !acquired && !isMemoryLock
    {
      this.key := "codenter_lock:" + key;
      this.token := token;
      this.ttl := ttl;
      this.maxRetries := maxRetries;
      isMemoryLock := false;
      acquired := false;
    }

    method Acquire(registry: Registry, clock: nat -> int, others: (nat, Table) -> Table) returns (ok: bool)
      modifies this, registry
      ensures isMemoryLock && acquired == (ok || old(acquired))
      ensures (ok, registry.table)
           == Tries(old(registry.table), key, token, ttl, clock, others, 0,
                    if maxRetries < 0 then 0 else maxRetries + 1)
    {
      isMemoryLock := true;
      var limit: nat := if maxRetries < 0 then 0 else maxRetries + 1;
      var now := clock(0);
      var attempt: nat := 0;
      while attempt < limit
        invariant attempt <= limit
        invariant isMemoryLock && acquired == old(acquired)
        invariant now == clock(attempt)
        invariant Tries(registry.table, key, token, ttl, clock, others, attempt, limit)
               == Tries(old(registry.table), key, token, ttl, clock, others, 0, limit)
      {
        if key !in registry.table || registry.table[key].expiry < now {
          registry.table := registry.table[key := Entry(token, now + ttl)];
          acquired := true;
          return true;
        }
        registry.table := others(attempt, registry.table);
        attempt := attempt + 1;
        now := clock(attempt);
      }
      return false;
    }

    method Release(registry: Registry)
      modifies this, registry
      ensures !acquired && isMemoryLock == old(isMemoryLock)
      ensures registry.table ==
              if isMemoryLock then Drop(old(registry.table), key, token) else old(registry.table)
    {
      acquired := false;
      if isMemoryLock {
        if key in registry.table && registry.table[key].token == token {
          registry.table := registry.table - {key};
        }
      }
    }
  }

  // ----- Interleavings -----

  datatype Phase =
    | Outside
    | Waiting(now: int)  // has read the clock, has not yet entered the critical section
    | Releasing          // has cleared its flag, has not yet deleted its entry

  // leaseEnd is the expiry the lock last wrote into the table.
  datatype Lock = Lock(key: Key, ttl: int, phase: Phase, acquired: bool, leaseEnd: int)

  datatype World = World(clock: int, table: Table, locks: map<Token, Lock>)

  datatype Step =
    | Tick(dt: nat)
    | ReadClock(token: Token)
    | Enter(token: Token)
    | BeginRelease(token: Token)
    | FinishRelease(token: Token)

  // A step that is not enabled changes nothing.
  function Apply(w: World, step: Step): World {
    match step
    case Tick(dt) => w.(clock := w.clock + dt)
    case ReadClock(t) =>
      if t in w.locks && w.locks[t].phase.Outside? then
        w.(locks := w.locks[t := w.locks[t].(phase := Waiting(w.clock))])
      else w
    case Enter(t) =>
      if t in w.locks && w.locks[t].phase.Waiting? then
        var l := w.locks[t];
        var now := l.phase.now;
        if IsFree(w.table, l.key, now) then
          w.(table := Claim(w.table, l.key, t, now, l.ttl),
             locks := w.locks[t := l.(phase := Outside, acquired := true, leaseEnd := now + l.ttl)])
        else
          w.(locks := w.locks[t := l.(phase := Outside)])
      else w
    case BeginRelease(t) =>
      if t in w.locks && w.locks[t].phase.Outside? then
        w.(locks := w.locks[t := w.locks[t].(phase := Releasing, acquired := false)])
      else w
    case FinishRelease(t) =>
      if t in w.locks && w.locks[t].phase.Releasing? then
        w.(table := Drop(w.table, w.locks[t].key, t),
           locks := w.locks[t := w.locks[t].(phase := Outside)])
      else w
  }

  function Run(w: World, steps: seq<Step>): World
    decreases |steps|
  {
    if steps == [] then w else Run(Apply(w, steps[0]), steps[1..])
  }

  predicate Fresh(w: World) {
    forall t <- w.locks :: w.locks[t].phase.Outside? && !w.locks[t].acquired
  }

  // The lease of t is live: t believes it holds the lock and the clock has not passed its expiry.
  predicate IsLive(w: World, t: Token) {
    t in w.locks && w.locks[t].acquired && w.clock <= w.locks[t].leaseEnd
  }

  predicate OwnsEntry(w: World, t: Token)
    requires t in w.locks
  {
    w.locks[t].key in w.table && w.table[w.locks[t].key] == Entry(t, w.locks[t].leaseEnd)
  }

  predicate Inv(w: World) {
    forall t <- w.locks ::
      && (w.locks[t].phase.Waiting? ==> w.locks[t].phase.now <= w.clock)
      && (w.locks[t].phase.Releasing? ==> !w.locks[t].acquired)
      && (w.locks[t].acquired && w.clock <= w.locks[t].leaseEnd ==> OwnsEntry(w, t))
  }

  lemma {:induction false} ApplyKeepsInv(w: World, step: Step)
    requires Inv(w)
    ensures Inv(Apply(w, step))
  {
    var w' := Apply(w, step);
    forall t | t in w'.locks
      ensures w'.locks[t].phase.Waiting? ==> w'.locks[t].phase.now <= w'.clock
      ensures w'.locks[t].phase.Releasing? ==> !w'.locks[t].acquired
      ensures w'.locks[t].acquired && w'.clock <= w'.locks[t].leaseEnd ==> OwnsEntry(w', t)
    {
      assert t in w.locks;
    }
  }

  lemma {:induction false} RunKeepsInv(w: World, steps: seq<Step>)
    requires Inv(w)
    ensures Inv(Run(w, steps))
    decreases |steps|
  {
    if steps != [] {
      ApplyKeepsInv(w, steps[0]);
      RunKeepsInv(Apply(w, steps[0]), steps[1..]);
    }
  }

  // Safety over every interleaving, stale readings included.
  lemma {:induction false} LiveLeasesExclude(w: World, steps: seq<Step>, a: Token, b: Token)
    requires Fresh(w)
    requires a != b
    requires IsLive(Run(w, steps), a) && IsLive(Run(w, steps), b)
    ensures Run(w, steps).locks[a].key != Run(w, steps).locks[b].key
  {
    RunKeepsInv(w, steps);
  }

  // No release, however late, and no competing claim takes the entry of a live lease away.
  lemma {:induction false} LiveLeaseKeepsItsEntry(w: World, steps: seq<Step>, t: Token)
    requires Fresh(w)
    requires IsLive(Run(w, steps), t)
    ensures OwnsEntry(Run(w, steps), t)
  {
    RunKeepsInv(w, steps);
  }

  // A release by t leaves every entry written by another lock object in place.
  lemma {:induction false} ReleaseSparesSuccessors(w: World, t: Token, key: Key)
    requires key in w.table && w.table[key].token != t
    ensures key in Apply(w, FinishRelease(t)).table
    ensures Apply(w, FinishRelease(t)).table[key] == w.table[key]
  {
  }

  // The expiry condition cannot be dropped: an expired holder still reports the lock as acquired
  // while its successor holds a live lease.
  lemma {:induction false} ExpiredHolderOverlapsSuccessor()
    ensures exists w: World, steps: seq<Step> ::
      && Fresh(w) && 0 in w.locks && 1 in w.locks && w.locks[0].key == w.locks[1].key
      && Run(w, steps).locks.Keys == w.locks.Keys
      && Run(w, steps).locks[0].acquired && IsLive(Run(w, steps), 1)
  {
    var l := Lock("k", 15, Outside, false, 0);
    var w := World(0, map[], map[0 := l, 1 := l]);
    var w1 := Apply(w, ReadClock(0));
    var w2 := Apply(w1, Enter(0));
    var w3 := Apply(w2, Tick(16));
    var w4 := Apply(w3, ReadClock(1));
    var w5 := Apply(w4, Enter(1));
    var s5 := [Enter(1)];
    var s4 := [ReadClock(1)] + s5;
    var s3 := [Tick(16)] + s4;
    var s2 := [Enter(0)] + s3;
    var s1 := [ReadClock(0)] + s2;
    assert s1[1..] == s2 && s2[1..] == s3 && s3[1..] == s4 && s4[1..] == s5;
    assert Run(w5, []) == w5 && Run(w4, s5) == w5 && Run(w3, s4) == w5;
    assert Run(w2, s3) == w5 && Run(w1, s2) == w5 && Run(w, s1) == w5;
  }
}
