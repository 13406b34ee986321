/** The in-process store of started sign-ins: capped, swept lazily, and consumed by
    one Take. Each method is one critical section; the clock is a parameter. */
module MemoryStateStore {
  import opened Basics

  /** One started sign-in. */
  datatype StateEntry = StateEntry(nonce: string, codeVerifier: string, redirectTo: string, createdAt: Time)

  type Entries = map<string, Timed<StateEntry>>

  function LiveKeys(m: Entries, now: Time): set<string> {
    set k | k in m && now <= m[k].expiresAt
  }

  function ExpiredKeys(m: Entries, now: Time): set<string> {
    set k | k in m && now > m[k].expiresAt
  }

  lemma Without(m: Entries, gone: set<string>)
    requires gone <= m.Keys
    ensures |m - gone| == |m| - |gone|
  {
    assert (m - gone).Keys == m.Keys - gone;
  }

  lemma ExpiredAreStored(m: Entries, now: Time)
    ensures ExpiredKeys(m, now) <= m.Keys
  {
  }

  lemma WithoutOneMore(m: Entries, gone: set<string>, key: string)
    ensures m - gone - {key} == m - (gone + {key})
  {
  }

  /** What looking at one more entry adds to the expired ones found. */
  lemma LookedAt(m: Entries, todo: set<string>, key: string, now: Time)
    requires key in todo && todo <= m.Keys
    ensures ExpiredKeys(m, now) - (todo - {key}) ==
            (ExpiredKeys(m, now) - todo) + (if now > m[key].expiresAt then {key} else {})
  {
  }

  class Store {
    var entries: Entries
    const maxEntries: nat

    predicate Valid()
      reads this
    {
      0 < maxEntries && |entries| <= maxEntries
    }

    constructor (maxEntries: nat)
      requires maxEntries > 0
      ensures Valid() && this.maxEntries == maxEntries && entries == map[]
    {
      this.maxEntries, entries := maxEntries, map[];
    }

    /** Looks at up to budget entries in any order; with a budget for all of them every
        expired entry goes. */
    method SweepExpiredStateLocked(now: Time, budget: nat) returns (ghost swept: set<string>)
      modifies this`entries
      ensures swept <= ExpiredKeys(old(entries), now) && entries == old(entries) - swept
      ensures |old(entries)| <= budget ==> swept == ExpiredKeys(old(entries), now)
    {
      hide ExpiredKeys;
      ghost var m := entries;
      swept := {};
      var todo, n := entries.Keys, 0;
      ExpiredAreStored(m, now);
      while todo != {} && n < budget
        invariant todo <= m.Keys - swept && n + |todo| == |m|
        invariant swept == ExpiredKeys(m, now) - todo && entries == m - swept
        decreases todo
      {
        var key :| key in todo;
        LookedAt(m, todo, key, now);
        todo, n := todo - {key}, n + 1;
        if now > entries[key].expiresAt {
          WithoutOneMore(m, swept, key);
          entries := entries - {key};
          swept := swept + {key};
        }
      }
    }

    /** Stores a started sign-in unless the store is full; `swept` are the expired
        entries removed on the way. It is full only when that many unexpired sign-ins
        are stored, and then it always is. */
    method Put(state: string, entry: StateEntry, ttl: int, now: Time) returns (ok: bool, ghost swept: set<string>)
      requires Valid()
      modifies this`entries
      ensures Valid() && swept <= ExpiredKeys(old(entries), now)
      ensures entries == if ok then (old(entries) - swept)[state := Timed(entry, now + ttl)] else old(entries) - swept
      ensures !ok ==> |LiveKeys(old(entries), now)| == maxEntries && state !in LiveKeys(old(entries), now)
      ensures |LiveKeys(old(entries), now)| == maxEntries && state !in old(entries) ==> !ok
    {
      hide LiveKeys, ExpiredKeys;
      ghost var m := entries;
      swept := SweepExpiredStateLocked(now, SWEEP_BUDGET);
      LiveAndExpired(m, now);
      Without(m, swept);
      if state !in entries && |entries| >= maxEntries {
        ghost var more := SweepExpiredStateLocked(now, |entries|);
        SweepTwice(m, swept, now);
        swept := swept + more;
        if state !in entries && |entries| >= maxEntries {
          return false, swept;
        }
      }
      entries := entries[state := Timed(entry, now + ttl)];
      ok := true;
    }

    /** Returns and removes an entry in one step: whatever the answer, it is gone. */
    method Take(state: string, now: Time) returns (found: Option<StateEntry>)
      requires Valid()
      modifies this`entries
      ensures Valid() && entries == old(entries) - {state}
      ensures found == if state in LiveKeys(old(entries), now) then Some(old(entries)[state].value) else None
    {
      if state !in entries {
        return None;
      }
      var e := entries[state];
      Without(entries, {state});
      entries := entries - {state};
      found := if now > e.expiresAt then None else Some(e.value);
    }
  }

  /** A full sweep after another sweep leaves exactly the unexpired entries. */
  lemma SweepTwice(m: Entries, gone: set<string>, now: Time)
    requires gone <= ExpiredKeys(m, now)
    ensures gone + ExpiredKeys(m - gone, now) == ExpiredKeys(m, now)
    ensures m - gone - ExpiredKeys(m - gone, now) == m - ExpiredKeys(m, now)
    ensures (m - ExpiredKeys(m, now)).Keys == LiveKeys(m, now)
    ensures |m - ExpiredKeys(m, now)| == |LiveKeys(m, now)|
  {
    assert (m - ExpiredKeys(m, now)).Keys == LiveKeys(m, now);
  }

  lemma LiveAndExpired(m: Entries, now: Time)
    ensures LiveKeys(m, now) !! ExpiredKeys(m, now)
    ensures m.Keys == LiveKeys(m, now) + ExpiredKeys(m, now)
    ensures |m| == |LiveKeys(m, now)| + |ExpiredKeys(m, now)|
  {
    assert m.Keys == LiveKeys(m, now) + ExpiredKeys(m, now);
    assert LiveKeys(m, now) !! ExpiredKeys(m, now);
  }
}
