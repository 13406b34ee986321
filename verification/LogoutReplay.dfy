/** The replay cache and the acceptance of back-channel logout tokens (section 2.6 of
    OpenID Connect Back-Channel Logout 1.0). */
module LogoutReplay {
  import opened Basics

  const LOGOUT_TOKEN_MAX_AGE := 300_000
  const LOGOUT_TOKEN_CLOCK_SKEW := 60_000
  const REPLAY_TTL := LOGOUT_TOKEN_MAX_AGE + LOGOUT_TOKEN_CLOCK_SKEW

  type Entries = map<string, Time>

  datatype Outcome = Remembered(first: bool) | Full | Invalid

  predicate Seen(m: Entries, key: string, now: Time) {
    key in m && now < m[key]
  }

  function LiveOnes(m: Entries, now: Time): Entries {
    map k | k in m && now < m[k] :: m[k]
  }

  /** What one call answers and leaves behind. */
  function RememberStep(m: Entries, cap: nat, key: string, ttl: int, now: Time): (Outcome, Entries) {
    if key == "" || ttl <= 0 then (Invalid, m)
    else if Seen(m, key, now) then (Remembered(false), m)
    else
      var kept := if |m| >= cap then LiveOnes(m, now) else m;
      if |kept| >= cap then (Full, kept) else (Remembered(true), kept[key := now + ttl])
  }

  class MemoryReplayCache {
    var entries: Entries
    const maxEntries: nat

    predicate Valid()
      reads this
    {
      |entries| <= maxEntries
    }

    constructor (maxEntries: nat)
      ensures Valid() && entries == map[] && this.maxEntries == maxEntries
    {
      this.maxEntries, entries := maxEntries, map[];
    }

    /** A key is first unless it is remembered and its time has not run out; the cap is
        never exceeded, and the cache is full only with that many unexpired keys. */
    method Remember(key: string, ttl: int, now: Time) returns (out: Outcome)
      requires Valid()
      modifies this`entries
      ensures Valid()
      ensures (out, entries) == RememberStep(old(entries), maxEntries, key, ttl, now)
      ensures out.Full? ==> |LiveOnes(old(entries), now)| == maxEntries && !Seen(old(entries), key, now)
      ensures out == Remembered(true) ==> Seen(entries, key, now)
    {
      if key == "" || ttl <= 0 {
        return Invalid;
      }
      if key in entries && now < entries[key] {
        return Remembered(false);
      }
      if |entries| >= maxEntries {
        var todo := entries.Keys;
        while todo != {}
          invariant todo <= entries.Keys <= old(entries).Keys
          invariant entries == map k | k in old(entries) && (k in todo || now < old(entries)[k]) :: old(entries)[k]
          decreases todo
        {
          var k :| k in todo;
          todo := todo - {k};
          if now >= entries[k] { entries := entries - {k}; }
        }
        assert entries == LiveOnes(old(entries), now);
        assert LiveOnes(old(entries), now).Keys <= old(entries).Keys;
        SubsetSize(LiveOnes(old(entries), now).Keys, old(entries).Keys);
        if |entries| >= maxEntries {
          return Full;
        }
      }
      entries := entries[key := now + ttl];
      out := Remembered(true);
    }
  }

  lemma {:induction false} SubsetSize(a: set<string>, b: set<string>)
    requires a <= b
    ensures |a| <= |b|
  {
    assert b == a + (b - a);
  }

  // ---- deliveries of logout tokens ----

  /** One delivery: when its token was verified and when it was looked up in the cache.
      `key` is the hash of issuer and token id. */
  datatype Delivery = Delivery(key: string, iat: Time, verifiedAt: Time, recordedAt: Time)

  /** The checks on iat. */
  predicate InWindow(iat: Time, now: Time) {
    iat <= now + LOGOUT_TOKEN_CLOCK_SKEW && iat >= now - LOGOUT_TOKEN_MAX_AGE
  }

  function Deliver(m: Entries, cap: nat, d: Delivery): (bool, Entries) {
    if !InWindow(d.iat, d.verifiedAt) then (false, m)
    else
      var (out, m') := RememberStep(m, cap, d.key, REPLAY_TTL, d.recordedAt);
      (out == Remembered(true), m')
  }

  /** Which deliveries led to a deletion. */
  function Accepted(m: Entries, cap: nat, ds: seq<Delivery>): seq<bool>
    decreases |ds|
  {
    if ds == [] then [] else
      var (ok, m') := Deliver(m, cap, ds[0]);
      [ok] + Accepted(m', cap, ds[1..])
  }

  predicate InOrder(ds: seq<Delivery>) {
    && (forall i | 0 <= i < |ds| :: ds[i].verifiedAt <= ds[i].recordedAt)
    && (forall i, j | 0 <= i <= j < |ds| :: ds[i].recordedAt <= ds[j].recordedAt)
  }

  lemma {:induction false} AcceptedLength(m: Entries, cap: nat, ds: seq<Delivery>)
    ensures |Accepted(m, cap, ds)| == |ds|
    decreases |ds|
  {
    if ds != [] { AcceptedLength(Deliver(m, cap, ds[0]).1, cap, ds[1..]); }
  }

  /** A delivery is accepted exactly when it has a key, was verified at most five minutes after its
      token was issued and at most one minute before, is not remembered, and finds room: and
      then it is remembered for six minutes. */
  lemma DeliveredIff(m: Entries, cap: nat, d: Delivery)
    ensures var (ok, after) := Deliver(m, cap, d);
            && (ok <==> d.key != "" && d.verifiedAt - 300_000 <= d.iat <= d.verifiedAt + 60_000
                        && (d.key in m ==> m[d.key] <= d.recordedAt)
                        && (|m| < cap || |LiveOnes(m, d.recordedAt)| < cap))
            && (ok ==> d.key in after && after[d.key] == d.recordedAt + 360_000)
            && (forall k <- m | d.recordedAt < m[k] :: k in after && after[k] == m[k])
            && (forall k <- after :: k in m || (ok && k == d.key))
  {
  }

  /** A key that is remembered is refused until its time has run out. */
  lemma {:induction false} SeenUntilExpiry(m: Entries, cap: nat, ds: seq<Delivery>, key: string, until: Time, j: nat)
    requires InOrder(ds) && j < |ds| && ds[j].key == key
    requires key in m && m[key] >= until
    requires |Accepted(m, cap, ds)| == |ds| && Accepted(m, cap, ds)[j]
    ensures ds[j].recordedAt >= until
    decreases |ds|
  {
    var m' := Deliver(m, cap, ds[0]).1;
    if j > 0 {
      AcceptedLength(m', cap, ds[1..]);
      if key in m' && m'[key] >= until {
        SeenUntilExpiry(m', cap, ds[1..], key, until, j - 1);
      } else {
        assert ds[0].recordedAt <= ds[j].recordedAt;
      }
    }
  }

  /** Two deliveries of one token that were both accepted: the second one spent, between
      its verification and its lookup, at least as long as the first one did and, on top,
      as long as the token's issue time stayed below the permitted skew at first. */
  lemma {:induction false} ReplayNeedsDelay(m: Entries, cap: nat, ds: seq<Delivery>, i: nat, j: nat)
    requires InOrder(ds) && i < j < |ds| && ds[i].key == ds[j].key && ds[i].iat == ds[j].iat
    requires |Accepted(m, cap, ds)| == |ds| && Accepted(m, cap, ds)[i] && Accepted(m, cap, ds)[j]
    ensures ds[j].recordedAt >= ds[i].recordedAt + REPLAY_TTL
    ensures ds[j].recordedAt - ds[j].verifiedAt >=
              (ds[i].recordedAt - ds[i].verifiedAt) + (ds[i].verifiedAt + LOGOUT_TOKEN_CLOCK_SKEW - ds[i].iat)
    decreases |ds|
  {
    var m' := Deliver(m, cap, ds[0]).1;
    AcceptedLength(m', cap, ds[1..]);
    if i > 0 {
      ReplayNeedsDelay(m', cap, ds[1..], i - 1, j - 1);
    } else {
      SeenUntilExpiry(m', cap, ds[1..], ds[0].key, ds[0].recordedAt + REPLAY_TTL, j - 1);
      AcceptedWereInWindow(m, cap, ds, j);
    }
  }

  lemma {:induction false} AcceptedWereInWindow(m: Entries, cap: nat, ds: seq<Delivery>, j: nat)
    requires j < |ds| && |Accepted(m, cap, ds)| == |ds| && Accepted(m, cap, ds)[j]
    ensures InWindow(ds[j].iat, ds[j].verifiedAt)
    decreases |ds|
  {
    var m' := Deliver(m, cap, ds[0]).1;
    AcceptedLength(m', cap, ds[1..]);
    if j > 0 { AcceptedWereInWindow(m', cap, ds[1..], j - 1); }
  }

  /** When a token is verified and looked up at one instant, at most one delivery in any
      run is accepted, unless the token was issued exactly one skew ahead of the first. */
  lemma {:induction false} AcceptedOnce(m: Entries, cap: nat, ds: seq<Delivery>, i: nat, j: nat)
    requires InOrder(ds) && i < j < |ds| && ds[i].key == ds[j].key && ds[i].iat == ds[j].iat
    requires ds[j].verifiedAt == ds[j].recordedAt && ds[i].iat < ds[i].verifiedAt + LOGOUT_TOKEN_CLOCK_SKEW
    ensures |Accepted(m, cap, ds)| == |ds|
    ensures !(Accepted(m, cap, ds)[i] && Accepted(m, cap, ds)[j])
  {
    AcceptedLength(m, cap, ds);
    if Accepted(m, cap, ds)[i] && Accepted(m, cap, ds)[j] {
      ReplayNeedsDelay(m, cap, ds, i, j);
    }
  }

  /** The bound is exact: after a first acceptance, a delivery that spends `delay`
      between verification and lookup can be accepted again if and only if that is as
      long as the first delivery's delay and its margin to the skew together. With no
      delay at all: exactly when the token was issued one full skew ahead. */
  lemma ReplayableIff(cap: nat, first: Delivery, delay: nat)
    requires cap > 0 && first.key != "" && first.verifiedAt <= first.recordedAt && InWindow(first.iat, first.verifiedAt)
    ensures (exists at: Time :: AcceptedAgain(cap, first, at, delay))
            <==> delay >= (first.recordedAt - first.verifiedAt)
                          + (first.verifiedAt + LOGOUT_TOKEN_CLOCK_SKEW - first.iat)
  {
    if delay >= first.recordedAt + LOGOUT_TOKEN_CLOCK_SKEW - first.iat {
      var at := first.iat + LOGOUT_TOKEN_MAX_AGE;
      TwoDeliveries(cap, first, at, at + delay);
      assert AcceptedAgain(cap, first, at, delay);
    }
    forall at: Time | AcceptedAgain(cap, first, at, delay)
      ensures delay >= first.recordedAt + LOGOUT_TOKEN_CLOCK_SKEW - first.iat
    {
      TwoDeliveries(cap, first, at, at + delay);
    }
  }

  /** The token, delivered again and verified at `at`, is accepted a second time. */
  predicate AcceptedAgain(cap: nat, first: Delivery, at: Time, delay: nat) {
    && at >= first.verifiedAt && at + delay >= first.recordedAt
    && Accepted(map[], cap, [first, first.(verifiedAt := at, recordedAt := at + delay)]) == [true, true]
  }

  lemma TwoDeliveries(cap: nat, a: Delivery, verifiedAt: Time, recordedAt: Time)
    requires cap > 0 && a.key != "" && InWindow(a.iat, a.verifiedAt) && a.recordedAt <= recordedAt
    ensures Accepted(map[], cap, [a, a.(verifiedAt := verifiedAt, recordedAt := recordedAt)])
            == [true, InWindow(a.iat, verifiedAt) && recordedAt >= a.recordedAt + REPLAY_TTL]
  {
    var b := a.(verifiedAt := verifiedAt, recordedAt := recordedAt);
    var m := map[a.key := a.recordedAt + REPLAY_TTL];
    assert Deliver(map[], cap, a) == (true, m);
    assert [a, b][1..] == [b] && [b][1..] == [];
    assert LiveOnes(m, recordedAt) == if recordedAt < a.recordedAt + REPLAY_TTL then m else map[];
    assert Accepted(m, cap, [b]) == [Deliver(m, cap, b).0];
  }
}
