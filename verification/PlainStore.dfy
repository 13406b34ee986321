/** A plain map with expiry times, and the proof that removing expired entries, at
    any time and in any choice, cannot be observed. */
module PlainStore {
  import opened Basics
  import opened Sessions

  type Contents = map<string, Timed<Session>>

  datatype Op =
    | Put(id: string, sess: Session, ttl: int)
    | Get(id: string)
    | Delete(id: string)
    | Update(id: string, expected: nat, sess: Session, ttl: int)
    | IdsBySubject(subject: string)
    | IdsBySid(sid: string)
    | Sweep(ids: set<string>)

  datatype Answer = Nothing | Found(sess: Option<Session>) | Stored(ok: bool) | Ids(ids: set<string>)

  predicate LiveIn(m: Contents, id: string, now: Time) {
    id in m && now <= m[id].expiresAt
  }

  function Expired(m: Contents, now: Time): set<string> {
    set id | id in m && now > m[id].expiresAt
  }

  predicate Updatable(m: Contents, id: string, expected: nat, now: Time) {
    LiveIn(m, id, now) && m[id].value.version == expected
  }

  /** What an operation at now does and answers. A sweep takes some of the expired
      entries and answers nothing. */
  function Step(m: Contents, op: Op, now: Time): (Contents, Answer) {
    match op
    case Put(id, sess, ttl) => (m[id := Timed(sess, now + ttl)], Nothing)
    case Get(id) => (m, Found(if LiveIn(m, id, now) then Some(m[id].value) else None))
    case Delete(id) => (m - {id}, Nothing)
    case Update(id, expected, sess, ttl) =>
      if Updatable(m, id, expected, now) then (m[id := Timed(sess, now + ttl)], Stored(true)) else (m, Stored(false))
    case IdsBySubject(subject) =>
      (m, Ids(set id | id in m && LiveIn(m, id, now) && subject != "" && m[id].value.userId == subject))
    case IdsBySid(sid) =>
      (m, Ids(set id | id in m && LiveIn(m, id, now) && sid != "" && m[id].value.sid == sid))
    case Sweep(ids) => (m - (ids * Expired(m, now)), Nothing)
  }

  /** The operations with the time of each. */
  datatype Call = Call(now: Time, op: Op)

  predicate Ordered(calls: seq<Call>, from: Time) {
    calls == [] || (from <= calls[0].now && Ordered(calls[1..], calls[0].now))
  }

  /** The answers given while sweeping. */
  function Answers(m: Contents, calls: seq<Call>): seq<Answer>
    decreases |calls|
  {
    if calls == [] then [] else
      var (m', a) := Step(m, calls[0].op, calls[0].now);
      [a] + Answers(m', calls[1..])
  }

  /** The answers of a store that never sweeps. */
  function PlainAnswers(m: Contents, calls: seq<Call>): seq<Answer>
    decreases |calls|
  {
    if calls == [] then [] else
      var (m', a) := if calls[0].op.Sweep? then (m, Nothing) else Step(m, calls[0].op, calls[0].now);
      [a] + PlainAnswers(m', calls[1..])
  }

  /** swept is plain without some entries that have expired. */
  ghost predicate Agree(swept: Contents, plain: Contents, now: Time) {
    && swept.Keys <= plain.Keys
    && (forall id <- swept :: swept[id] == plain[id])
    && (forall id <- plain :: id in swept || now > plain[id].expiresAt)
  }

  lemma StepAgrees(swept: Contents, plain: Contents, op: Op, now: Time)
    requires Agree(swept, plain, now)
    ensures op.Sweep? ==> Agree(Step(swept, op, now).0, plain, now)
    ensures !op.Sweep? ==>
              && Agree(Step(swept, op, now).0, Step(plain, op, now).0, now)
              && Step(swept, op, now).1 == Step(plain, op, now).1
  {
    assert forall id :: LiveIn(swept, id, now) <==> LiveIn(plain, id, now);
  }

  lemma {:induction false} SweepingIsUnobservable(swept: Contents, plain: Contents, calls: seq<Call>, from: Time)
    requires Ordered(calls, from) && Agree(swept, plain, from)
    ensures Answers(swept, calls) == PlainAnswers(plain, calls)
    decreases |calls|
  {
    if calls != [] {
      var c := calls[0];
      StepAgrees(swept, plain, c.op, c.now);
      var plain' := if c.op.Sweep? then plain else Step(plain, c.op, c.now).0;
      SweepingIsUnobservable(Step(swept, c.op, c.now).0, plain', calls[1..], c.now);
    }
  }
}
