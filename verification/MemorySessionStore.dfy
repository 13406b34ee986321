/** The in-process session store: a map of sessions whose tokens live in buffers on
    the heap, and two indexes kept beside it. Each method is one critical section;
    the clock is a parameter. */
module MemorySessionStore {
  import opened Basics
  import opened Sessions
  import opened PlainStore

  /** A zeroizable buffer. Zeroing leaves it empty. */
  class Secret {
    var text: string

    constructor (text: string)
      ensures this.text == text
    {
      this.text := text;
    }

    method Zero()
      modifies this
      ensures text == ""
    {
      text := "";
    }
  }

  /** A session as it is stored: the plain fields and pointers to the token buffers. */
  datatype Record = Record(fields: Session, access: Secret?, refresh: Secret?, idToken: Secret?)

  datatype MemEntry = MemEntry(rec: Record, expiresAt: Time)

  type Table = map<string, MemEntry>
  type Index = map<string, set<string>>

  /** The buffers of a record. */
  ghost function Secrets(r: Record): (cs: set<Secret>)
    ensures forall c <- cs :: c == r.access || c == r.refresh || c == r.idToken
    ensures r.access != null ==> r.access in cs
    ensures r.refresh != null ==> r.refresh in cs
    ensures r.idToken != null ==> r.idToken in cs
  {
    var all := {r.access, r.refresh, r.idToken};
    set c: Secret | c in all
  }

  function Text(c: Secret?): string
    reads c
  {
    if c == null then "" else c.text
  }

  /** The session a record stands for. */
  ghost function Value(r: Record): Session
    reads Secrets(r)
  {
    r.fields.(access := Text(r.access), refresh := Text(r.refresh), idToken := Text(r.idToken))
  }

  predicate Keeps(was: Secret?, now: Secret?, rec: Record) {
    was == null || was == now || was !in [rec.access, rec.refresh, rec.idToken]
  }

  /** A buffer the two records share is in the same place in both. */
  predicate InPlace(existing: Record, rec: Record) {
    && Keeps(existing.access, rec.access, rec)
    && Keeps(existing.refresh, rec.refresh, rec)
    && Keeps(existing.idToken, rec.idToken, rec)
  }

  /** A record whose buffers did not change stands for the same session. */
  twostate lemma ValueStays(r: Record)
    requires forall c <- Secrets(r) :: c.text == old(c.text)
    ensures Value(r) == old(Value(r))
  {
  }

  // ---- the indexes ----

  datatype KeyKind = Subject | Sid

  function Key(kind: KeyKind, e: MemEntry): string {
    match kind case Subject => e.rec.fields.userId case Sid => e.rec.fields.sid
  }

  function Under(kind: KeyKind, sessions: Table, key: string): set<string> {
    set id | id in sessions && Key(kind, sessions[id]) == key
  }

  /** The index holds exactly the stored ids under their non-empty keys, and no empty
      bucket. */
  predicate IndexOk(kind: KeyKind, index: Index, sessions: Table) {
    && (forall key <- index :: key != "" && index[key] != {} && index[key] == Under(kind, sessions, key))
    && (forall id <- sessions :: Key(kind, sessions[id]) != "" ==> Key(kind, sessions[id]) in index)
  }

  function AddIndex(index: Index, key: string, id: string): Index {
    if key == "" then index
    else index[key := (if key in index then index[key] else {}) + {id}]
  }

  function RemoveIndex(index: Index, key: string, id: string): Index {
    if key !in index then index
    else if index[key] - {id} == {} then index - {key}
    else index[key := index[key] - {id}]
  }

  lemma AddKeepsIndex(kind: KeyKind, index: Index, sessions: Table, id: string, e: MemEntry)
    requires IndexOk(kind, index, sessions) && id !in sessions
    ensures IndexOk(kind, AddIndex(index, Key(kind, e), id), sessions[id := e])
  {
    var more, key := sessions[id := e], Key(kind, e);
    var index' := AddIndex(index, key, id);
    forall k <- index' ensures index'[k] == Under(kind, more, k) {
      assert Under(kind, more, k) == Under(kind, sessions, k) + (if k == key then {id} else {});
      if k !in index { assert Under(kind, sessions, k) == {}; }
    }
  }

  lemma RemoveKeepsIndex(kind: KeyKind, index: Index, sessions: Table, id: string)
    requires IndexOk(kind, index, sessions) && id in sessions
    ensures IndexOk(kind, RemoveIndex(index, Key(kind, sessions[id]), id), sessions - {id})
  {
    var less, key := sessions - {id}, Key(kind, sessions[id]);
    var index' := RemoveIndex(index, key, id);
    forall k ensures Under(kind, less, k) == Under(kind, sessions, k) - {id} {}
    forall i <- less | Key(kind, less[i]) != "" ensures Key(kind, less[i]) in index' {
      assert i in Under(kind, sessions, Key(kind, sessions[i]));
    }
  }

  function Listed(index: Index, key: string): set<string> {
    if key in index then index[key] else {}
  }

  function Unexpired(sessions: Table, ids: set<string>, now: Time): set<string> {
    set id | id in ids && id in sessions && now <= sessions[id].expiresAt
  }

  function Overdue(sessions: Table, now: Time): set<string> {
    set id | id in sessions && now > sessions[id].expiresAt
  }

  lemma LookedAt(sessions: Table, swept: set<string>, todo: set<string>, key: string, now: Time)
    requires Overdue(sessions, now) <= swept + todo && key in sessions
    ensures Overdue(sessions, now) <= (if now > sessions[key].expiresAt then swept + {key} else swept) + (todo - {key})
  {
  }

  lemma OverdueAreStored(sessions: Table, now: Time)
    ensures Overdue(sessions, now) <= sessions.Keys
  {
  }

  lemma IndexLists(kind: KeyKind, index: Index, sessions: Table, key: string)
    requires IndexOk(kind, index, sessions)
    ensures Listed(index, key) == if key == "" then {} else Under(kind, sessions, key)
  {
  }

  predicate SameKeys(sessions: Table, m: Contents) {
    && m.Keys == sessions.Keys
    && forall id <- m :: m[id].expiresAt == sessions[id].expiresAt && m[id].value.userId == Key(Subject, sessions[id])
                         && m[id].value.sid == Key(Sid, sessions[id])
  }

  lemma ListedIsAnswer(kind: KeyKind, sessions: Table, m: Contents, listed: set<string>, key: string, now: Time)
    requires SameKeys(sessions, m) && listed == if key == "" then {} else Under(kind, sessions, key)
    ensures Ids(Unexpired(sessions, listed, now)) ==
            Step(m, if kind == Subject then IdsBySubject(key) else IdsBySid(key), now).1
  {
    var answer := Step(m, if kind == Subject then IdsBySubject(key) else IdsBySid(key), now).1;
    forall id ensures id in Unexpired(sessions, listed, now) <==> id in answer.ids {}
  }

  /** Every buffer is its session's. */
  ghost predicate Owns(sessions: Table, owner: map<Secret, string>) {
    forall id, c: Secret | id in sessions && c in Secrets(sessions[id].rec) :: c in owner && owner[c] == id
  }

  lemma OwnsWith(sessions: Table, owner: map<Secret, string>, id: string, e: MemEntry)
    requires Owns(sessions, owner)
    requires forall c <- Secrets(e.rec) :: c in owner && owner[c] != id ==> owner[c] !in sessions || c !in Secrets(sessions[owner[c]].rec)
    ensures Owns(sessions[id := e], owner + map c | c in Secrets(e.rec) :: id)
  {
    hide Secrets;
    var more, owner' := sessions[id := e], owner + map c | c in Secrets(e.rec) :: id;
    forall i, c: Secret | i in more && c in Secrets(more[i].rec) ensures c in owner' && owner'[c] == i {
      if i != id { assert c in owner && owner[c] == i; }
    }
  }

  // ---- the store ----

  class Store {
    var sessions: Table
    var bySubject: Index
    var bySid: Index
    /** Every buffer the store ever held, and whose it is or was. */
    ghost var owner: map<Secret, string>

    /** The buffers the store holds. */
    ghost function Owned(): set<Secret>
      reads this
    {
      set id, c | id in sessions && c in Secrets(sessions[id].rec) :: c
    }

    /** The plain map this store implements. */
    ghost function View(): Contents
      reads this, Owned()
    {
      map id | id in sessions :: Timed(Value(sessions[id].rec), sessions[id].expiresAt)
    }

    /** The indexes agree with the sessions, and no two sessions share a buffer. */
    ghost predicate Valid()
      reads this
    {
      && IndexOk(Subject, bySubject, sessions)
      && IndexOk(Sid, bySid, sessions)
      && Owns(sessions, owner)
    }

    /** A record to store under id brings its own buffers, or keeps some of those the session
        it replaces has, each in its place. */
    ghost predicate Incoming(id: string, rec: Record)
      reads this
    {
      && (forall c <- Secrets(rec) | c in Owned() :: id in sessions && c in Secrets(sessions[id].rec))
      && (id in sessions ==> InPlace(sessions[id].rec, rec))
    }

    constructor ()
      ensures Valid() && View() == map[] && owner == map[]
    {
      sessions, bySubject, bySid, owner := map[], map[], map[], map[];
    }

    /** Takes a session out of the map and the indexes. */
    method Unlink(id: string)
      requires Valid() && id in sessions
      modifies this`sessions, this`bySubject, this`bySid
      ensures Valid() && sessions == old(sessions) - {id}
    {
      hide IndexOk, RemoveIndex, Secrets;
      RemoveKeepsIndex(Subject, bySubject, sessions, id);
      RemoveKeepsIndex(Sid, bySid, sessions, id);
      bySubject := RemoveIndex(bySubject, sessions[id].rec.fields.userId, id);
      bySid := RemoveIndex(bySid, sessions[id].rec.fields.sid, id);
      sessions := sessions - {id};
    }

    /** Sessions that are left over, in buffers that did not change. */
    twostate lemma ViewOfRest(gone: set<string>)
      requires sessions == old(sessions) - gone
      requires forall i <- sessions, c <- Secrets(sessions[i].rec) :: c.text == old(c.text)
      ensures View() == old(View()) - gone
    {
      hide Value, Secrets;
      forall i <- sessions ensures Value(sessions[i].rec) == old(Value(sessions[i].rec)) {
        ValueStays(old(sessions)[i].rec);
      }
    }

    /** A session that is still stored, in buffers that did not change, keeps its value. */
    twostate lemma OthersKeepValues(id: string)
      requires forall i <- sessions | i != id :: i in old(sessions) && sessions[i] == old(sessions)[i]
      requires forall i <- sessions, c <- Secrets(sessions[i].rec) | i != id :: c.text == old(c.text)
      ensures forall i <- sessions | i != id :: Value(sessions[i].rec) == old(Value(sessions[i].rec))
    {
      hide Value, Secrets;
      forall i <- sessions | i != id ensures Value(sessions[i].rec) == old(Value(sessions[i].rec)) {
        ValueStays(old(sessions)[i].rec);
      }
    }

    /** Zeroes and removes one session; no other session's buffer changes. */
    method RemoveLocked(id: string)
      requires Valid() && id in sessions
      modifies this`sessions, this`bySubject, this`bySid, Secrets(sessions[id].rec)
      ensures Valid() && sessions == old(sessions) - {id}
      ensures forall c <- old(Secrets(sessions[id].rec)) :: c.text == ""
      ensures forall i <- sessions, c <- Secrets(sessions[i].rec) :: c.text == old(c.text)
    {
      hide IndexOk;
      ghost var was := sessions;
      ZeroSecrets(sessions[id].rec);
      forall i, c | i in was && i != id && c in Secrets(was[i].rec) ensures c.text == old(c.text) {
        assert owner[c] == i && c !in Secrets(was[id].rec);
      }
      Unlink(id);
    }

    /** Looks at up to budget entries, in any order, and removes the expired ones; with a budget for
        all of them every expired entry goes. */
    method SweepExpiredLocked(now: Time, budget: nat) returns (ghost swept: set<string>)
      requires Valid()
      modifies this`sessions, this`bySubject, this`bySid, Owned()
      ensures Valid()
      ensures swept <= old(sessions).Keys && forall id <- swept :: now > old(sessions)[id].expiresAt
      ensures |old(sessions)| <= budget ==> Overdue(old(sessions), now) <= swept
      ensures sessions == old(sessions) - swept
      ensures forall id <- swept, c <- old(Secrets(sessions[id].rec)) :: c.text == ""
      ensures forall id <- sessions, c <- Secrets(sessions[id].rec) :: c.text == old(c.text)
    {
      hide IndexOk, Value, Overdue, Secrets, Owns, Store.Valid;
      swept := {};
      var todo, n := sessions.Keys, 0;
      OverdueAreStored(sessions, now);
      while todo != {} && n < budget
        invariant Valid()
        invariant swept <= old(sessions).Keys && forall id <- swept :: now > old(sessions)[id].expiresAt
        invariant todo <= sessions.Keys && sessions == old(sessions) - swept && n + |todo| == |old(sessions)|
        invariant Overdue(old(sessions), now) <= swept + todo
        invariant forall id <- swept, c <- old(Secrets(sessions[id].rec)) :: c.text == ""
        invariant forall id <- sessions, c <- Secrets(sessions[id].rec) :: c.text == old(c.text)
        decreases todo
      {
        var key :| key in todo;
        LookedAt(old(sessions), swept, todo, key, now);
        todo, n := todo - {key}, n + 1;
        if now > sessions[key].expiresAt {
          RemoveLocked(key);
          swept := swept + {key};
        }
      }
    }

    method Delete(id: string)
      requires Valid()
      modifies this`sessions, this`bySubject, this`bySid, Owned()
      ensures Valid() && sessions == old(sessions) - {id}
      ensures View() == old(View()) - {id}
      ensures id in old(sessions) ==> forall c <- old(Secrets(sessions[id].rec)) :: c.text == ""
      ensures forall i <- sessions, c <- Secrets(sessions[i].rec) :: c.text == old(c.text)
    {
      hide IndexOk, Value;
      if id in sessions { RemoveLocked(id); }
      ViewOfRest({id});
    }

    /** Puts a session into the map and the indexes. */
    method Enter(id: string, e: MemEntry)
      requires IndexOk(Subject, bySubject, sessions) && IndexOk(Sid, bySid, sessions) && id !in sessions
      modifies this`sessions, this`bySubject, this`bySid
      ensures IndexOk(Subject, bySubject, sessions) && IndexOk(Sid, bySid, sessions)
      ensures sessions == old(sessions)[id := e]
    {
      hide IndexOk, AddIndex;
      AddKeepsIndex(Subject, bySubject, sessions, id, e);
      AddKeepsIndex(Sid, bySid, sessions, id, e);
      bySubject := AddIndex(bySubject, e.rec.fields.userId, id);
      bySid := AddIndex(bySid, e.rec.fields.sid, id);
      sessions := sessions[id := e];
    }

    /** Stores a record under an id and re-indexes it. */
    method SetLocked(id: string, e: MemEntry)
      requires Valid()
      requires forall c <- Secrets(e.rec) | c in Owned() :: id in sessions && c in Secrets(sessions[id].rec)
      modifies this
      ensures Valid() && sessions == old(sessions)[id := e]
      ensures owner.Keys == old(owner).Keys + Secrets(e.rec)
    {
      hide IndexOk, Secrets;
      assert forall c <- Secrets(e.rec) :: c in owner && owner[c] in sessions && c in Secrets(sessions[owner[c]].rec) ==> c in Owned();
      OwnsWith(sessions, owner, id, e);
      if id in sessions { Unlink(id); }
      Enter(id, e);
      assert sessions == old(sessions)[id := e];
      owner := owner + map c | c in Secrets(e.rec) :: id;
      hide Owns;
    }

    /** Zeroes the buffers of the session a record replaces, except those it keeps. */
    method ZeroExisting(id: string, rec: Record)
      requires Valid() && Incoming(id, rec)
      modifies Owned()
      ensures forall i <- sessions, c <- Secrets(sessions[i].rec) | i != id :: c.text == old(c.text)
      ensures forall c <- Secrets(rec) :: c.text == old(c.text)
      ensures id in sessions ==> forall c <- Secrets(sessions[id].rec) | c !in Secrets(rec) :: c.text == ""
    {
      hide IndexOk;
      if id in sessions {
        ZeroReplaced(sessions[id].rec, rec);
        forall i <- sessions, c <- Secrets(sessions[i].rec) | i != id ensures c.text == old(c.text) {
          assert owner[c] == i && c !in Secrets(sessions[id].rec);
        }
      }
    }

    /** Writes over a session: its buffers are zeroed, except those the new record keeps,
        and the new record takes its place; no buffer that is then stored has changed. */
    method Replace(id: string, rec: Record, expiresAt: Time)
      requires Valid() && Incoming(id, rec)
      modifies this, Owned()
      ensures Valid() && sessions == old(sessions)[id := MemEntry(rec, expiresAt)]
      ensures owner.Keys == old(owner).Keys + Secrets(rec)
      ensures forall i <- sessions, c <- Secrets(sessions[i].rec) :: c.text == old(c.text)
      ensures id in old(sessions) ==> forall c <- old(Secrets(sessions[id].rec)) | c !in Secrets(rec) :: c.text == ""
    {
      ZeroExisting(id, rec);
      hide IndexOk, Secrets;
      SetLocked(id, MemEntry(rec, expiresAt));
    }

    /** As Replace, said of the plain map. */
    method Overwrite(id: string, rec: Record, expiresAt: Time)
      requires Valid() && Incoming(id, rec)
      modifies this, Owned()
      ensures Valid() && sessions == old(sessions)[id := MemEntry(rec, expiresAt)]
      ensures owner.Keys == old(owner).Keys + Secrets(rec)
      ensures View() == old(View())[id := Timed(old(Value(rec)), expiresAt)]
      ensures forall i <- sessions, c <- Secrets(sessions[i].rec) :: c.text == old(c.text)
      ensures id in old(sessions) ==> forall c <- old(Secrets(sessions[id].rec)) | c !in Secrets(rec) :: c.text == ""
    {
      hide IndexOk, Secrets, Value;
      Replace(id, rec, expiresAt);
      assert sessions[id].rec == rec;
      ValueStays(rec);
      OthersKeepValues(id);
    }

    /** The sweep before a put: the record can still be stored, and stands for the same session. */
    method SweepBefore(id: string, rec: Record, now: Time) returns (ghost swept: set<string>)
      requires Valid() && Incoming(id, rec)
      requires id in sessions && now > sessions[id].expiresAt ==> forall c <- Secrets(rec) :: c !in Owned()
      modifies this`sessions, this`bySubject, this`bySid, Owned()
      ensures Valid() && Incoming(id, rec)
      ensures swept <= old(sessions).Keys && forall i <- swept :: now > old(sessions)[i].expiresAt
      ensures |old(sessions)| <= SWEEP_BUDGET ==> Overdue(old(sessions), now) <= swept
      ensures sessions == old(sessions) - swept && View() == old(View()) - swept
      ensures forall i <- swept, c <- old(Secrets(sessions[i].rec)) :: c.text == "" && c !in Owned()
      ensures forall i <- sessions, c <- Secrets(sessions[i].rec) :: c.text == old(c.text)
      ensures forall c <- Secrets(rec) :: c.text == old(c.text)
    {
      hide IndexOk, Value;
      swept := SweepExpiredLocked(now, SWEEP_BUDGET);
      ViewOfRest(swept);
      assert forall c <- Secrets(rec) :: c in old(Owned()) ==> id !in swept && c in Secrets(sessions[id].rec);
      forall i <- swept, c <- old(Secrets(sessions[i].rec)) ensures c !in Owned() {
        assert old(owner[c] == i);
      }
    }

    /** Sweeps some expired sessions, then stores; `swept` is what the sweep took. */
    method Put(id: string, rec: Record, ttl: int, now: Time) returns (ghost swept: set<string>)
      requires Valid() && Incoming(id, rec)
      requires id in sessions && now > sessions[id].expiresAt ==> forall c <- Secrets(rec) :: c !in Owned()
      modifies this, Owned()
      ensures Valid() && swept <= old(Expired(View(), now))
      ensures |old(sessions)| <= SWEEP_BUDGET ==> Overdue(old(sessions), now) <= swept
      ensures sessions == (old(sessions) - swept)[id := MemEntry(rec, now + ttl)]
      ensures owner.Keys == old(owner).Keys + Secrets(rec)
      ensures View() == Step(Step(old(View()), PlainStore.Sweep(swept), now).0,
                             PlainStore.Put(id, old(Value(rec)), ttl), now).0
      ensures forall i | i in old(sessions) && (i in swept || i == id) ::
                forall c <- old(Secrets(sessions[i].rec)) | c !in Secrets(rec) :: c.text == ""
      ensures forall i <- sessions, c <- Secrets(sessions[i].rec) :: c.text == old(c.text)
    {
      hide IndexOk, Value, Secrets, Owns, Store.Valid, Store.Incoming;
      swept := SweepBefore(id, rec, now);
      ValueStays(rec);
      assert swept * old(Expired(View(), now)) == swept;
      Overwrite(id, rec, now + ttl);
    }

    /** Compare-and-set. */
    method Update(id: string, expected: nat, rec: Record, ttl: int, now: Time) returns (stored: bool)
      requires Valid() && Incoming(id, rec)
      modifies this, Owned()
      ensures Valid()
      ensures (View(), Stored(stored)) == Step(old(View()), PlainStore.Update(id, expected, old(Value(rec)), ttl), now)
      ensures !stored ==> unchanged(this) && forall c <- old(Owned()) :: c.text == old(c.text)
      ensures stored ==> sessions == old(sessions)[id := MemEntry(rec, now + ttl)] && owner.Keys == old(owner).Keys + Secrets(rec)
      ensures stored ==> forall c <- old(Secrets(sessions[id].rec)) | c !in Secrets(rec) :: c.text == ""
      ensures forall i <- sessions, c <- Secrets(sessions[i].rec) :: c.text == old(c.text)
    {
      hide IndexOk, Secrets;
      if id !in sessions || now > sessions[id].expiresAt || sessions[id].rec.fields.version != expected {
        return false;
      }
      Overwrite(id, rec, now + ttl);
      stored := true;
    }

    /** Removes an entry that has expired since it was read. */
    method DeleteExpired(id: string, now: Time)
      requires Valid()
      modifies this`sessions, this`bySubject, this`bySid, Owned()
      ensures Valid() && View() == Step(old(View()), PlainStore.Sweep({id}), now).0
      ensures sessions == old(sessions) || sessions == old(sessions) - {id}
      ensures id in old(sessions) && id !in sessions ==> forall c <- old(Secrets(sessions[id].rec)) :: c.text == ""
      ensures forall i <- sessions, c <- Secrets(sessions[i].rec) :: c.text == old(c.text)
    {
      hide IndexOk, Value;
      if id in sessions && now > sessions[id].expiresAt {
        RemoveLocked(id);
        ViewOfRest({id});
      }
    }

    /** Returns a copy in buffers of its own. An expired entry is removed in a second
        critical section, at a later time. */
    method Get(id: string, now: Time, later: Time) returns (found: Option<Record>)
      requires Valid() && now <= later
      modifies this`sessions, this`bySubject, this`bySid, Owned()
      ensures Valid()
      ensures Found(if found.Some? then Some(Value(found.value)) else None) == Step(old(View()), PlainStore.Get(id), now).1
      ensures found.Some? ==> sessions == old(sessions) && View() == old(View()) && fresh(Secrets(found.value))
      ensures found.None? ==> View() == Step(old(View()), PlainStore.Sweep({id}), later).0
      ensures sessions == old(sessions) || sessions == old(sessions) - {id}
      ensures id in old(sessions) && id !in sessions ==> forall c <- old(Secrets(sessions[id].rec)) :: c.text == ""
      ensures forall i <- sessions, c <- Secrets(sessions[i].rec) :: c.text == old(c.text)
    {
      hide IndexOk;
      if id !in sessions {
        return None;
      }
      if now > sessions[id].expiresAt {
        DeleteExpired(id, later);
        return None;
      }
      var out := CloneSession(sessions[id].rec);
      found := Some(out);
    }

    lemma ListedAnswers(kind: KeyKind, key: string, now: Time)
      requires Valid()
      ensures Ids(Unexpired(sessions, Listed(if kind == Subject then bySubject else bySid, key), now)) ==
              Step(View(), if kind == Subject then IdsBySubject(key) else IdsBySid(key), now).1
    {
      hide IndexOk, Secrets, Listed, Unexpired, Step;
      var index := if kind == Subject then bySubject else bySid;
      IndexLists(kind, index, sessions, key);
      ListedIsAnswer(kind, sessions, View(), Listed(index, key), key, now);
    }

    /** The ids listed under a key whose sessions have not expired. */
    method LiveIds(kind: KeyKind, key: string, now: Time) returns (ids: set<string>)
      requires Valid()
      ensures Ids(ids) == Step(View(), if kind == Subject then IdsBySubject(key) else IdsBySid(key), now).1
    {
      ListedAnswers(kind, key, now);
      hide IndexOk, Secrets, Step, Value;
      var todo := Listed(if kind == Subject then bySubject else bySid, key);
      ids := {};
      ghost var all := todo;
      while todo != {}
        invariant todo <= all
        invariant ids == Unexpired(sessions, all - todo, now)
        decreases todo
      {
        var id :| id in todo;
        if id in sessions && now <= sessions[id].expiresAt { ids := ids + {id}; }
        todo := todo - {id};
      }
      assert all - todo == all;
    }
  }

  /** Zeroes the buffers of a replaced session, except one the new session reuses. */
  method ZeroReplaced(existing: Record, sess: Record)
    modifies Secrets(existing)
    ensures forall c <- Secrets(existing) | c !in Secrets(sess) :: c.text == ""
    ensures InPlace(existing, sess) ==> forall c <- Secrets(sess) :: c.text == old(c.text)
  {
    if existing.access != null && existing.access != sess.access { existing.access.Zero(); }
    if existing.refresh != null && existing.refresh != sess.refresh { existing.refresh.Zero(); }
    if existing.idToken != null && existing.idToken != sess.idToken { existing.idToken.Zero(); }
  }

  /** A copy that shares no buffer; an empty refresh or ID token becomes nil. */
  method CloneSession(r: Record) returns (out: Record)
    ensures fresh(Secrets(out)) && Value(out) == Value(r) && out.fields == r.fields
    ensures out.refresh != null <==> Text(r.refresh) != ""
    ensures out.idToken != null <==> Text(r.idToken) != ""
  {
    var access, refresh, idToken: Secret? := null, null, null;
    if r.access != null { access := new Secret(r.access.text); }
    if r.refresh != null && r.refresh.text != "" { refresh := new Secret(r.refresh.text); }
    if r.idToken != null && r.idToken.text != "" { idToken := new Secret(r.idToken.text); }
    out := Record(r.fields, access, refresh, idToken);
  }

  method ZeroSecrets(r: Record)
    modifies Secrets(r)
    ensures forall c <- Secrets(r) :: c.text == ""
  {
    if r.access != null { r.access.Zero(); }
    if r.refresh != null { r.refresh.Zero(); }
    if r.idToken != null { r.idToken.Zero(); }
  }
}
