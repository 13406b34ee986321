/** Deleting by subject or by provider session, one session at a time, while other
    handlers sign in, refresh, record activity and delete. */
module SessionDeletion {
  import opened Basics
  import opened Sessions
  import opened SessionProtocol
  import opened SessionInvariant
  import opened SessionRuns
  import opened SessionIdentity

  ghost predicate EverMatched(s: State, target: Target, id: Id) {
    exists w <- Hist(s, id) :: Matches(target, w.sess)
  }

  /** The deletion read this version of a session, not an earlier one than its lookup found, and
      it did not match. */
  ghost predicate Missed(s: State, w: Progress, id: Id) {
    && id in w.spared && Recorded(Hist(s, id), w.spared[id]) && !Matches(w.target, w.spared[id])
    && (id in w.looked ==> w.looked[id].version <= w.spared[id].version)
  }

  predicate Working(pc: Pc) {
    pc.Visit? || pc.Drop? || pc.Dropped?
  }

  /** Every session found by the lookup is still to be visited, dead, or was read in
      a version that did not match. */
  ghost predicate WorkInv(s: State, w: Progress) {
    && (forall id <- w.looked ::
          && Recorded(Hist(s, id), w.looked[id]) && Indexed(w.target, w.looked[id])
          && (id in w.rest || Dead(s, id) || id in w.spared))
    && (forall id <- w.spared :: Missed(s, w, id))
    && (forall id <- w.deleted :: EverMatched(s, w.target, id) && Dead(s, id))
  }

  ghost predicate DeletionInv(s: State, pc: Pc) {
    Working(pc) ==>
      && WorkInv(s, pc.work)
      && (pc.Dropped? <==> pc.work.rest == [])
      && (pc.Drop? ==> EverMatched(s, pc.work.target, pc.work.rest[0]))
  }

  lemma MatchedGrows(s: State, t: State, target: Target, id: Id)
    requires Grows(ViewOf(s, id), ViewOf(t, id))
    ensures EverMatched(s, target, id) ==> EverMatched(t, target, id)
  {
    assert forall v <- Hist(s, id) :: v in Hist(t, id);
  }

  lemma EverStays(s: State, t: State, w: Progress, id: Id)
    requires Grows(ViewOf(s, id), ViewOf(t, id))
    ensures EverMatched(s, w.target, id) ==> EverMatched(t, w.target, id)
    ensures Missed(s, w, id) ==> Missed(t, w, id)
    ensures id in w.looked && Recorded(Hist(s, id), w.looked[id]) ==> Recorded(Hist(t, id), w.looked[id])
  {
    MatchedGrows(s, t, w.target, id);
    hide EverMatched;
  }

  lemma LiveWasRecorded(s: State, id: Id)
    requires IdInv(s, id) && Live(s, id)
    ensures Hist(s, id) != [] && Hist(s, id)[|Hist(s, id)| - 1] in Hist(s, id)
    ensures Hist(s, id)[|Hist(s, id)| - 1].sess == s.store[id].sess
  {
  }

  lemma WorkStays(cfg: Config, s: State, e: Event, w: Progress)
    requires Inv(cfg, s) && WorkInv(s, w)
    ensures WorkInv(Next(cfg, s, e), w)
  {
    hide Inv, Next, EverMatched, Missed, Recorded, Dead, Indexed;
    NextKeepsInv(cfg, s, e);
    var t := Next(cfg, s, e);
    forall id ensures EverMatched(s, w.target, id) ==> EverMatched(t, w.target, id)
              ensures Missed(s, w, id) ==> Missed(t, w, id)
              ensures id in w.looked && Recorded(Hist(s, id), w.looked[id]) ==> Recorded(Hist(t, id), w.looked[id])
    {
      assert Grows(ViewOf(s, id), ViewOf(t, id));
      EverStays(s, t, w, id);
    }
    forall id | Dead(s, id) ensures Dead(t, id) { DeadStays(cfg, s, e, id); }
  }

  lemma DeadStays(cfg: Config, s: State, e: Event, id: Id)
    requires Inv(cfg, s) && Dead(s, id)
    ensures Dead(Next(cfg, s, e), id)
  {
    NextKeepsDead(cfg, s, e, id);
  }

  /** What the step does to the deletion that takes it, before its effect. */
  lemma LookupFinds(s: State, target: Target, ids: seq<Id>)
    requires forall id :: IdInv(s, id)
    requires forall id <- LiveMatches(s, target) :: id in ids
    ensures WorkInv(s, Progress(target, FoundBy(s, target), ids, map[], {}))
  {
    hide Chain, Recorded;
    forall id <- FoundBy(s, target) ensures Recorded(Hist(s, id), FoundBy(s, target)[id]) {
      assert IdInv(s, id);
      ReadIsRecorded(s, id);
    }
  }

  lemma WasStored(s: State, id: Id, v: Session)
    requires Recorded(Hist(s, id), v)
    ensures id in s.history
  {
  }

  lemma SkipDead(s: State, w: Progress)
    requires WorkInv(s, w) && w.rest != [] && !Live(s, w.rest[0])
    ensures WorkInv(s, w.(rest := w.rest[1..]))
  {
    hide Indexed, Matches, Recorded, EverMatched;
    forall id <- w.looked | id !in w.rest[1..] && id !in w.spared ensures Dead(s, id) {
      WasStored(s, id, w.looked[id]);
      assert id in w.rest ==> id == w.rest[0];
    }
    assert forall id <- w.spared :: Missed(s, w.(rest := w.rest[1..]), id) by {
      assert forall id <- w.spared :: Missed(s, w, id);
    }
  }

  lemma SpareMismatch(s: State, w: Progress)
    requires WorkInv(s, w) && w.rest != [] && IdInv(s, w.rest[0]) && Live(s, w.rest[0])
    requires !Matches(w.target, s.store[w.rest[0]].sess)
    ensures WorkInv(s, w.(rest := w.rest[1..], spared := w.spared[w.rest[0] := s.store[w.rest[0]].sess]))
  {
    var id := w.rest[0];
    var w' := w.(rest := w.rest[1..], spared := w.spared[id := s.store[id].sess]);
    ReadIsRecorded(s, id);
    assert id in w.looked ==> HasVersion(Hist(s, id), w.looked[id].version);
    hide Chain, Dead, EverMatched, Recorded, Indexed, HasVersion;
    forall i <- w'.spared ensures Missed(s, w', i) { assert i != id ==> Missed(s, w, i); }
    assert forall i <- w.rest :: i == id || i in w'.rest;
  }

  /** Once the entry is gone the session is dead. */
  lemma DropDeletes(s: State, t: State, w: Progress)
    requires WorkInv(s, w) && w.rest != [] && EverMatched(s, w.target, w.rest[0])
    requires t.history == s.history && t.store == s.store - {w.rest[0]} && t.now == s.now
    ensures WorkInv(t, w.(rest := w.rest[1..], deleted := w.deleted + {w.rest[0]}))
  {
    hide Indexed, Matches, Recorded;
    var w' := w.(rest := w.rest[1..], deleted := w.deleted + {w.rest[0]});
    assert forall id :: Hist(t, id) == Hist(s, id);
    assert forall id | Dead(s, id) :: Dead(t, id);
    assert Dead(t, w.rest[0]);
    assert forall id <- w.rest :: id == w.rest[0] || id in w.rest[1..];
    forall id <- w'.spared ensures Missed(t, w', id) { assert Missed(s, w, id); }
  }

  lemma SameWork(s: State, t: State, w: Progress)
    requires WorkInv(s, w) && t.history == s.history && t.store == s.store && t.now == s.now
    ensures WorkInv(t, w)
  {
    hide Indexed, Matches, Recorded;
    assert forall id :: Hist(t, id) == Hist(s, id);
    assert forall id | Dead(s, id) :: Dead(t, id);
    forall id <- w.spared ensures Missed(t, w, id) { assert Missed(s, w, id); }
  }

  function TargetOf(pc: Pc): Target
    requires pc.Lookup? || Working(pc)
  {
    if pc.Lookup? then pc.target else pc.work.target
  }

  function LookedOf(s: State, pc: Pc): map<Id, Session>
    requires pc.Lookup? || Working(pc)
  {
    if pc.Lookup? then FoundBy(s, pc.target) else pc.work.looked
  }

  lemma StepKeepsWork(s: State, p: Pid, pc: Pc, ch: Choice)
    requires (forall id :: IdInv(s, id)) && DeletionInv(s, pc) && (pc.Lookup? || pc.Visit? || pc.Drop?)
    ensures var (pc', e) := StepDeletion(s, pc, ch); DeletionInv(Apply(s, p, e), pc')
    ensures var (pc', e) := StepDeletion(s, pc, ch);
            Working(pc') ==> pc'.work.target == TargetOf(pc) && pc'.work.looked == LookedOf(s, pc)
  {
    hide WorkInv, LiveMatches, FoundBy, Matches, EverMatched, Chain;
    match pc
    case Lookup(target) =>
      if ch.Ids? && forall id <- LiveMatches(s, target) :: id in ch.ids { LookupFinds(s, target, ch.ids); }
    case Visit(w) =>
      assert IdInv(s, w.rest[0]);
      if !Live(s, w.rest[0]) {
        SkipDead(s, w);
      } else if Matches(w.target, s.store[w.rest[0]].sess) {
        LiveWasRecorded(s, w.rest[0]);
        assert EverMatched(s, w.target, w.rest[0]) by { NowMatched(s, w.target, w.rest[0]); }
      } else {
        SpareMismatch(s, w);
      }
    case Drop(w) => DropDeletes(s, Apply(s, p, Remove(w.rest[0])), w);
  }

  lemma NowMatched(s: State, target: Target, id: Id)
    requires IdInv(s, id) && Live(s, id) && Matches(target, s.store[id].sess)
    ensures EverMatched(s, target, id)
  {
    hide Chain;
    LiveWasRecorded(s, id);
  }

  lemma OthersDoNotWork(cfg: Config, s: State, h: Handler, ch: Choice)
    requires !h.pc.Lookup? && !h.pc.Visit? && !h.pc.Drop? && !h.pc.Dropped?
    ensures !Working(StepHandler(cfg, s, h, ch).0)
  {
    hide StepFlight;
  }

  /** A deletion under way, or one that gave up. */
  predicate Tracks(s: State, p: Pid, target: Target, looked: map<Id, Session>) {
    && p in s.handlers
    && (s.handlers[p].pc.Failed?
        || (Working(s.handlers[p].pc) && s.handlers[p].pc.work.target == target && s.handlers[p].pc.work.looked == looked))
  }

  lemma NextKeepsDeletion(cfg: Config, s: State, e: Event, p: Pid)
    requires Inv(cfg, s) && p in s.handlers && DeletionInv(s, s.handlers[p].pc)
    ensures var t := Next(cfg, s, e);
            && p in t.handlers && DeletionInv(t, t.handlers[p].pc)
            && (Working(s.handlers[p].pc) ==>
                  Tracks(t, p, s.handlers[p].pc.work.target, s.handlers[p].pc.work.looked))
  {
    var h, t := s.handlers[p], Next(cfg, s, e);
    if Enabled(s, e) && e.Run? && e.pid == p {
      RunKeepsDeletion(cfg, s, p, e.choice);
    } else {
      hide WorkInv, Inv, RunHandler, EverMatched, SessionTTLFor, NewSession;
      OthersKeepPc(cfg, s, e, p);
      if Working(h.pc) {
        WorkStays(cfg, s, e, h.pc.work);
        if h.pc.Drop? { MatchedStays(cfg, s, e, h.pc.work.target, h.pc.work.rest[0]); }
      }
    }
  }

  lemma MatchedStays(cfg: Config, s: State, e: Event, target: Target, id: Id)
    requires Inv(cfg, s) && EverMatched(s, target, id)
    ensures EverMatched(Next(cfg, s, e), target, id)
  {
    hide Inv, Next, EverMatched;
    NextKeepsInv(cfg, s, e);
    assert Grows(ViewOf(s, id), ViewOf(Next(cfg, s, e), id));
    MatchedGrows(s, Next(cfg, s, e), target, id);
  }

  lemma OthersKeepPc(cfg: Config, s: State, e: Event, p: Pid)
    requires p in s.handlers && !(Enabled(s, e) && e.Run? && e.pid == p)
    ensures p in Next(cfg, s, e).handlers && Next(cfg, s, e).handlers[p] == s.handlers[p]
  {
    hide StepHandler, Apply, SessionTTLFor, NewSession;
    if e.Run? && Enabled(s, e) { ApplyKeepsHandlers(s, e.pid, StepHandler(cfg, s, s.handlers[e.pid], e.choice).1); }
  }

  lemma RunKeepsDeletion(cfg: Config, s: State, p: Pid, ch: Choice)
    requires Inv(cfg, s) && p in s.handlers && DeletionInv(s, s.handlers[p].pc)
    ensures var h, t := s.handlers[p], RunHandler(cfg, s, p, ch);
            && p in t.handlers && DeletionInv(t, t.handlers[p].pc)
            && (h.pc.Lookup? || Working(h.pc) ==>
                  t.handlers[p].pc.Lookup? || Tracks(t, p, TargetOf(h.pc), LookedOf(s, h.pc)))
            && (Working(h.pc) ==> !t.handlers[p].pc.Lookup?)
  {
    hide WorkInv, LiveMatches, FoundBy, EverMatched, StepDeletion, StepRequest, StepFlight, StepActivity, Chain, Apply, HandlerInv, FreshInv;
    var h, t := s.handlers[p], RunHandler(cfg, s, p, ch);
    var (pc, e) := StepHandler(cfg, s, h, ch);
    assert forall id :: IdInv(s, id);
    if h.pc.Lookup? || h.pc.Visit? || h.pc.Drop? {
      StepKeepsWork(s, p, h.pc, ch);
      DeletionSteps(s, h.pc, ch);
      if Working(pc) {
        SameWork(Apply(s, p, e), t, pc.work);
        SameMatched(Apply(s, p, e), t, pc.work);
      }
    } else if h.pc.Dropped? {
      QuietStepKeeps(s, p);
      SameWork(s, t, h.pc.work);
    } else {
      OthersDoNotWork(cfg, s, h, ch);
    }
  }

  lemma QuietStepKeeps(s: State, p: Pid)
    ensures Apply(s, p, NoEffect) == s
  {
  }

  lemma SameMatched(s: State, t: State, w: Progress)
    requires t.history == s.history
    ensures w.rest != [] && EverMatched(s, w.target, w.rest[0]) ==> EverMatched(t, w.target, w.rest[0])
  {
  }

  lemma DeletionSteps(s: State, pc: Pc, ch: Choice)
    requires pc.Lookup? || pc.Visit? || pc.Drop?
    ensures var pc' := StepDeletion(s, pc, ch).0;
            (pc.Lookup? && pc'.Lookup?) || pc'.Failed? || Working(pc')
  {
  }

  lemma {:induction false} ExecKeepsDeletion(cfg: Config, s: State, events: seq<Event>, p: Pid, target: Target, looked: map<Id, Session>)
    requires Inv(cfg, s) && Tracks(s, p, target, looked) && DeletionInv(s, s.handlers[p].pc)
    ensures var t := Exec(cfg, s, events); Tracks(t, p, target, looked) && DeletionInv(t, t.handlers[p].pc)
    decreases |events|
  {
    hide Inv, Next, DeletionInv;
    if events != [] {
      NextKeepsInv(cfg, s, events[0]);
      NextKeepsDeletion(cfg, s, events[0], p);
      if s.handlers[p].pc.Failed? { FailedStays(cfg, s, events[0], p); }
      ExecKeepsDeletion(cfg, Next(cfg, s, events[0]), events[1..], p, target, looked);
    }
  }

  lemma FailedStays(cfg: Config, s: State, e: Event, p: Pid)
    requires p in s.handlers && s.handlers[p].pc.Failed?
    ensures p in Next(cfg, s, e).handlers && Next(cfg, s, e).handlers[p].pc.Failed?
  {
    hide SessionTTLFor, NewSession;
    if !(Enabled(s, e) && e.Run? && e.pid == p) { OthersKeepPc(cfg, s, e, p); }
  }

  /** In one chain, matching a subject once is matching it always. */
  lemma SubjectIsForever(s: State, id: Id, v: Session)
    requires IdInv(s, id) && Recorded(Hist(s, id), v)
    ensures forall w <- Hist(s, id) :: w.sess.userId == v.userId
    ensures forall u: Session | Recorded(Hist(s, id), u) :: u.userId == v.userId
  {
    var hs := Hist(s, id);
    forall i, j | 0 <= i < |hs| && 0 <= j < |hs| ensures hs[i].sess.userId == hs[j].sess.userId {
      if i <= j { assert Later(hs[i].sess, hs[j].sess); } else { assert Later(hs[j].sess, hs[i].sess); }
    }
  }

  function PcOf(s: State, p: Pid): Pc {
    if p in s.handlers then s.handlers[p].pc else Failed
  }

  /** The session can be read, and is one of the subject, or of the provider session. */
  predicate Sought(s: State, target: Target, id: Id) {
    Live(s, id) && if target.BySubject? then s.store[id].sess.userId == target.subject else s.store[id].sess.sid == target.sid
  }

  lemma SoughtIsFound(s: State, target: Target)
    ensures forall id <- s.store :: Sought(s, target, id) <==> id in LiveMatches(s, target)
    ensures FoundBy(s, target).Keys == LiveMatches(s, target)
  {
  }

  /** A deletion that ran to its end. Every session the lookup had to find is dead and stays dead,
      unless the deletion itself read a version of it, stored at the lookup or later, that did not
      match; whatever was deleted had matched. By subject nothing is spared, and no session of
      another subject was deleted. */
  lemma DeletionIsComplete(cfg: Config, s0: State, before: seq<Event>, p: Pid, target: Target, ids: seq<Id>,
                           during: seq<Event>, after: seq<Event>)
    requires Init(s0)
    ensures var s1 := Exec(cfg, s0, before);
            var s2 := Next(cfg, s1, Run(p, Ids(ids)));
            var s3 := Exec(cfg, s2, during);
            var s4 := Exec(cfg, s3, after);
            PcOf(s1, p) == Lookup(target) && !PcOf(s2, p).Lookup? && PcOf(s3, p).Dropped? ==>
              var w := PcOf(s3, p).work;
              && w.target == target && w.looked == FoundBy(s1, target)
              && (forall id <- s1.store | Sought(s1, target, id) ::
                    (Dead(s3, id) && !Live(s4, id)) || (target.BySid? && Missed(s3, w, id)))
              && (forall id <- w.deleted :: Dead(s3, id) && EverMatched(s3, target, id))
              && (target.BySubject? ==>
                    forall id <- w.deleted :: forall v <- Hist(s3, id) :: v.sess.userId == target.subject)
  {
    hide Init, Inv, Next, WorkInv, LiveMatches, EverMatched, Missed, Dead, Live, Sought, FoundBy;
    var s1 := Exec(cfg, s0, before);
    var s2 := Next(cfg, s1, Run(p, Ids(ids)));
    var s3 := Exec(cfg, s2, during);
    InitInv(cfg, s0);
    ExecKeepsInv(cfg, s0, before);
    if PcOf(s1, p) == Lookup(target) && !PcOf(s2, p).Lookup? && PcOf(s3, p).Dropped? {
      LookupStarts(cfg, s1, p, target, ids);
      NextKeepsInv(cfg, s1, Run(p, Ids(ids)));
      ExecKeepsDeletion(cfg, s2, during, p, target, FoundBy(s1, target));
      ExecKeepsInv(cfg, s2, during);
      DroppedMeans(cfg, s3, PcOf(s3, p).work, after);
      SoughtIsFound(s1, target);
    }
  }

  lemma LookupStarts(cfg: Config, s: State, p: Pid, target: Target, ids: seq<Id>)
    requires Inv(cfg, s) && p in s.handlers && s.handlers[p].pc == Lookup(target)
    ensures var t := Next(cfg, s, Run(p, Ids(ids)));
            p in t.handlers && DeletionInv(t, t.handlers[p].pc)
            && (!t.handlers[p].pc.Lookup? ==> Tracks(t, p, target, FoundBy(s, target)))
  {
    hide RunHandler, Inv, FoundBy, WorkInv;
    RunKeepsDeletion(cfg, s, p, Ids(ids));
  }

  lemma DroppedMeans(cfg: Config, s: State, w: Progress, after: seq<Event>)
    requires Inv(cfg, s) && WorkInv(s, w) && w.rest == []
    ensures forall id <- w.looked ::
              (Dead(s, id) && !Live(Exec(cfg, s, after), id)) || (w.target.BySid? && Missed(s, w, id))
    ensures forall id <- w.deleted :: Dead(s, id) && EverMatched(s, w.target, id)
    ensures w.target.BySubject? ==>
              forall id <- w.deleted :: forall v <- Hist(s, id) :: v.sess.userId == w.target.subject
  {
    hide Chain, HandlerInv, FreshInv, EverMatched, Exec;
    forall id <- w.looked
      ensures (Dead(s, id) && !Live(Exec(cfg, s, after), id)) || (w.target.BySid? && Missed(s, w, id))
    {
      assert IdInv(s, id);
      if w.target.BySubject? { SubjectIsForever(s, id, w.looked[id]); }
      if Dead(s, id) { ExecKeepsDead(cfg, s, after, id); }
    }
    if w.target.BySubject? {
      forall id <- w.deleted ensures forall v <- Hist(s, id) :: v.sess.userId == w.target.subject {
        assert IdInv(s, id);
        MatchedSubject(s, w.target.subject, id);
      }
    }
  }

  lemma MatchedSubject(s: State, subject: string, id: Id)
    requires IdInv(s, id) && EverMatched(s, BySubject(subject), id)
    ensures forall v <- Hist(s, id) :: v.sess.userId == subject
  {
    var hs := Hist(s, id);
    var w :| w in hs && Matches(BySubject(subject), w.sess);
    var i :| 0 <= i < |hs| && hs[i] == w;
    assert Recorded(hs, w.sess) by { assert hs[i].sess.version == hs[0].sess.version + i; }
    SubjectIsForever(s, id, w.sess);
  }

  // ---- which sessions survive ----

  /** Nobody but p ends the session. */
  predicate OthersLetLive(cfg: Config, s: State, events: seq<Event>, p: Pid, id: Id)
    decreases |events|
  {
    events != [] ==>
      && (!(events[0].Run? && events[0].pid == p) && Live(s, id) ==> Live(Next(cfg, s, events[0]), id))
      && OthersLetLive(cfg, Next(cfg, s, events[0]), events[1..], p, id)
  }

  /** p is about to read the session. */
  predicate Visiting(s: State, p: Pid, id: Id) {
    p in s.handlers && s.handlers[p].pc.Visit? && s.handlers[p].pc.work.rest != [] && s.handlers[p].pc.work.rest[0] == id
  }

  predicate Matching(s: State, target: Target, id: Id) {
    Live(s, id) && Matches(target, s.store[id].sess)
  }

  /** The n-th event is a step in which p reads the session. */
  ghost predicate VisitAt(cfg: Config, s: State, events: seq<Event>, n: int, p: Pid, id: Id) {
    0 <= n < |events| && events[n].Run? && events[n].pid == p && Visiting(Exec(cfg, s, events[..n]), p, id)
  }

  ghost predicate MatchedVisit(cfg: Config, s: State, events: seq<Event>, p: Pid, target: Target, id: Id) {
    exists n :: VisitAt(cfg, s, events, n, p, id) && Matching(Exec(cfg, s, events[..n]), target, id)
  }

  /** In a step, and after it. */
  lemma MatchedVisitSplits(cfg: Config, s: State, events: seq<Event>, p: Pid, target: Target, id: Id)
    requires events != []
    ensures MatchedVisit(cfg, s, events, p, target, id) <==>
            || (events[0].Run? && events[0].pid == p && Visiting(s, p, id) && Matching(s, target, id))
            || MatchedVisit(cfg, Next(cfg, s, events[0]), events[1..], p, target, id)
  {
    hide Next, Visiting, Matching;
    var t := Next(cfg, s, events[0]);
    assert Exec(cfg, s, events[..0]) == s;
    forall n | 0 <= n < |events| - 1
      ensures Exec(cfg, s, events[..n + 1]) == Exec(cfg, t, events[1..][..n]) && events[n + 1] == events[1..][n]
    {
      assert events[..n + 1][1..] == events[1..][..n] && events[..n + 1][0] == events[0];
    }
    if MatchedVisit(cfg, s, events, p, target, id) {
      var n :| VisitAt(cfg, s, events, n, p, id) && Matching(Exec(cfg, s, events[..n]), target, id);
      assert n > 0 ==> VisitAt(cfg, t, events[1..], n - 1, p, id) && Matching(Exec(cfg, t, events[1..][..n - 1]), target, id);
    }
    if MatchedVisit(cfg, t, events[1..], p, target, id) {
      var n :| VisitAt(cfg, t, events[1..], n, p, id) && Matching(Exec(cfg, t, events[1..][..n]), target, id);
      assert VisitAt(cfg, s, events, n + 1, p, id) && Matching(Exec(cfg, s, events[..n + 1]), target, id);
    }
    if events[0].Run? && events[0].pid == p && Visiting(s, p, id) && Matching(s, target, id) {
      assert VisitAt(cfg, s, events, 0, p, id);
    }
  }

  lemma {:induction false} ExecFailedStays(cfg: Config, s: State, events: seq<Event>, p: Pid)
    requires p in s.handlers && s.handlers[p].pc.Failed?
    ensures PcOf(Exec(cfg, s, events), p).Failed?
    decreases |events|
  {
    hide Next;
    if events != [] {
      FailedStays(cfg, s, events[0], p);
      ExecFailedStays(cfg, Next(cfg, s, events[0]), events[1..], p);
    }
  }

  lemma FaultStops(cfg: Config, s: State, p: Pid)
    requires p in s.handlers && (s.handlers[p].pc.Lookup? || s.handlers[p].pc.Visit? || s.handlers[p].pc.Drop?)
    ensures var t := Next(cfg, s, Run(p, Fault)); p in t.handlers && t.handlers[p].pc.Failed? && t.store == s.store
  {
    hide LiveMatches, FoundBy;
  }

  /** A deletion that the store fails deletes nothing in that step and never reports to have run to
      its end. */
  lemma FaultIsReported(cfg: Config, s: State, p: Pid, events: seq<Event>)
    requires PcOf(s, p).Lookup? || PcOf(s, p).Visit? || PcOf(s, p).Drop?
    ensures var t := Next(cfg, s, Run(p, Fault)); t.store == s.store && PcOf(Exec(cfg, t, events), p).Failed?
  {
    hide Next, Exec;
    FaultStops(cfg, s, p);
    ExecFailedStays(cfg, Next(cfg, s, Run(p, Fault)), events, p);
  }

  /** One step of the deletion itself: what it deletes, and when it is about to. */
  lemma DeletionStep(s: State, pc: Pc, ch: Choice, id: Id)
    requires (pc.Visit? || pc.Drop?) && pc.work.rest != []
    ensures var (pc', e) := StepDeletion(s, pc, ch);
            pc'.Failed? ||
            (&& Working(pc') && pc'.work.target == pc.work.target
             && (id in pc'.work.deleted <==> id in pc.work.deleted || (pc.Drop? && pc.work.rest[0] == id))
             && (e == if pc.Drop? then Remove(pc.work.rest[0]) else NoEffect)
             && (pc'.Drop? && pc'.work.rest[0] == id && Live(s, id) <==>
                 pc.Visit? && pc.work.rest[0] == id && Matching(s, pc.work.target, id)))
  {
    hide Matches;
  }

  lemma OwnStep(cfg: Config, s: State, p: Pid, ch: Choice, id: Id)
    requires p in s.handlers && Working(s.handlers[p].pc) && DeletionInv(s, s.handlers[p].pc)
    ensures var t, pc := Next(cfg, s, Run(p, ch)), s.handlers[p].pc;
            && p in t.handlers
            && (t.handlers[p].pc.Failed? ||
                (&& Working(t.handlers[p].pc) && t.handlers[p].pc.work.target == pc.work.target
                 && (id in t.handlers[p].pc.work.deleted <==> id in pc.work.deleted || (pc.Drop? && pc.work.rest[0] == id))
                 && (!(pc.Drop? && pc.work.rest[0] == id) && Live(s, id) ==> Live(t, id))
                 && (t.handlers[p].pc.Drop? && t.handlers[p].pc.work.rest[0] == id && Live(s, id) <==>
                     Visiting(s, p, id) && Matching(s, pc.work.target, id))))
  {
    hide WorkInv, EverMatched, StepDeletion, Matching;
    if s.handlers[p].pc.Visit? || s.handlers[p].pc.Drop? { DeletionStep(s, s.handlers[p].pc, ch, id); }
  }

  /** p is about to delete the session, or has. */
  predicate Doomed(pc: Pc, id: Id)
    requires Working(pc)
  {
    id in pc.work.deleted || (pc.Drop? && pc.work.rest != [] && pc.work.rest[0] == id)
  }

  lemma {:induction false} DeletedIff(cfg: Config, s: State, events: seq<Event>, p: Pid, id: Id)
    requires Inv(cfg, s) && p in s.handlers && Working(s.handlers[p].pc) && DeletionInv(s, s.handlers[p].pc)
    requires OthersLetLive(cfg, s, events, p, id) && (id !in s.handlers[p].pc.work.deleted ==> Live(s, id))
    requires PcOf(Exec(cfg, s, events), p).Dropped?
    ensures id in PcOf(Exec(cfg, s, events), p).work.deleted <==>
            Doomed(s.handlers[p].pc, id) || MatchedVisit(cfg, s, events, p, s.handlers[p].pc.work.target, id)
    ensures id !in PcOf(Exec(cfg, s, events), p).work.deleted ==> Live(Exec(cfg, s, events), id)
    decreases |events|
  {
    hide Next, Inv, WorkInv, MatchedVisit, Matching, Live, EverMatched;
    var pc := s.handlers[p].pc;
    if events == [] {
      NoVisit(cfg, s, p, pc.work.target, id);
    } else {
      var e, t := events[0], Next(cfg, s, events[0]);
      NextKeepsInv(cfg, s, e);
      NextKeepsDeletion(cfg, s, e, p);
      MatchedVisitSplits(cfg, s, events, p, pc.work.target, id);
      if e.Run? && e.pid == p {
        OwnStep(cfg, s, p, e.choice, id);
        if t.handlers[p].pc.Failed? { ExecFailedStays(cfg, t, events[1..], p); }
      } else {
        OthersKeepPc(cfg, s, e, p);
      }
      DeletedIff(cfg, t, events[1..], p, id);
    }
  }

  lemma NoVisit(cfg: Config, s: State, p: Pid, target: Target, id: Id)
    ensures !MatchedVisit(cfg, s, [], p, target, id)
  {
  }

  /** Which of the sessions found survive a deletion that ran to its end, where nobody else ends
      them: exactly those that did not match in any step in which the deletion read them. */
  lemma SurvivesIff(cfg: Config, s0: State, before: seq<Event>, p: Pid, target: Target, ids: seq<Id>,
                    during: seq<Event>, id: Id)
    requires Init(s0)
    ensures var s1 := Exec(cfg, s0, before);
            var s2 := Next(cfg, s1, Run(p, Ids(ids)));
            var s3 := Exec(cfg, s2, during);
            && PcOf(s1, p) == Lookup(target) && !PcOf(s2, p).Lookup? && PcOf(s3, p).Dropped?
            && id in s1.store && Sought(s1, target, id) && OthersLetLive(cfg, s2, during, p, id) ==>
              (Live(s3, id) <==> forall n :: VisitAt(cfg, s2, during, n, p, id) ==> !Matching(Exec(cfg, s2, during[..n]), target, id))
  {
    var s1 := Exec(cfg, s0, before);
    var s2 := Next(cfg, s1, Run(p, Ids(ids)));
    var s3 := Exec(cfg, s2, during);
    hide Init, Inv, Next, WorkInv, Exec, OthersLetLive, Matching, VisitAt;
    InitInv(cfg, s0);
    ExecKeepsInv(cfg, s0, before);
    if && PcOf(s1, p) == Lookup(target) && !PcOf(s2, p).Lookup? && PcOf(s3, p).Dropped?
       && id in s1.store && Sought(s1, target, id) && OthersLetLive(cfg, s2, during, p, id)
    {
      SoughtIsFound(s1, target);
      LookupStarts(cfg, s1, p, target, ids);
      NextKeepsInv(cfg, s1, Run(p, Ids(ids)));
      ExecKeepsDeletion(cfg, s2, during, p, target, FoundBy(s1, target));
      LookupLeavesLive(cfg, s1, p, ids, id);
      LookupDeletesNothing(cfg, s1, p, ids);
      if s2.handlers[p].pc.Failed? { ExecFailedStays(cfg, s2, during, p); }
      DeletedIff(cfg, s2, during, p, id);
      EndOfWork(s3, PcOf(s3, p).work, id);
    }
  }

  /** A stored session matches a provider session if and only if that was named by what its version
      goes back to. */
  lemma MatchesIffNamed(s: State, id: Id, target: Target)
    requires IdInv(s, id) && Live(s, id) && target.BySid?
    ensures Matches(target, s.store[id].sess) <==>
            && NamedSid(Hist(s, id), |Hist(s, id)| - 1) == target.sid
            && (target.onlySubject == "" || s.store[id].sess.userId == target.onlySubject)
  {
    SidIsNamed(Hist(s, id), |Hist(s, id)| - 1);
    hide Chain, NamedSid;
  }

  /** Of the sessions that matched a provider session at the lookup, those survive that go back to a
      response, or to an earlier version, naming another one, whenever the deletion reads them. */
  lemma SurvivesIffRenamed(cfg: Config, s0: State, before: seq<Event>, p: Pid, target: Target, ids: seq<Id>,
                           during: seq<Event>, id: Id)
    requires Init(s0) && target.BySid?
    ensures var s1 := Exec(cfg, s0, before);
            var s2 := Next(cfg, s1, Run(p, Ids(ids)));
            var s3 := Exec(cfg, s2, during);
            && PcOf(s1, p) == Lookup(target) && !PcOf(s2, p).Lookup? && PcOf(s3, p).Dropped?
            && Matching(s1, target, id) && OthersLetLive(cfg, s2, during, p, id) ==>
              (Live(s3, id) <==> forall n :: VisitAt(cfg, s2, during, n, p, id) ==> Renamed(Exec(cfg, s2, during[..n]), target, id))
  {
    var s1 := Exec(cfg, s0, before);
    var s2 := Next(cfg, s1, Run(p, Ids(ids)));
    var s3 := Exec(cfg, s2, during);
    SurvivesIff(cfg, s0, before, p, target, ids, during, id);
    hide Init, Inv, Next, Exec, OthersLetLive, VisitAt, Renamed, Matching;
    InitInv(cfg, s0);
    ExecKeepsInv(cfg, s0, before);
    if Matching(s1, target, id) {
      assert id in s1.store && Sought(s1, target, id) by { MatchingIsListed(s1, target, id); }
      NextKeepsInv(cfg, s1, Run(p, Ids(ids)));
      forall n | VisitAt(cfg, s2, during, n, p, id)
        ensures Matching(Exec(cfg, s2, during[..n]), target, id) <==> !Renamed(Exec(cfg, s2, during[..n]), target, id)
      {
        InRange(cfg, s2, during, n, p, id);
        ExecKeepsInv(cfg, s2, during[..n]);
        GrowthIsTransitive(s1, s2, Exec(cfg, s2, during[..n]));
        RenamedOrMatching(cfg, s1, Exec(cfg, s2, during[..n]), target, id);
      }
    }
  }

  /** The stored version goes back to something that names another provider session. */
  ghost predicate Renamed(s: State, target: Target, id: Id)
    requires target.BySid?
  {
    Live(s, id) && Hist(s, id) != [] ==> NamedSid(Hist(s, id), |Hist(s, id)| - 1) != target.sid
  }

  lemma InRange(cfg: Config, s: State, events: seq<Event>, n: int, p: Pid, id: Id)
    requires VisitAt(cfg, s, events, n, p, id)
    ensures 0 <= n < |events|
  {
  }

  lemma MatchingIsListed(s: State, target: Target, id: Id)
    requires Matching(s, target, id)
    ensures id in s.store && Sought(s, target, id)
  {
  }

  lemma RenamedOrMatching(cfg: Config, s: State, t: State, target: Target, id: Id)
    requires Inv(cfg, s) && Inv(cfg, t) && AllGrow(s, t) && target.BySid? && Matching(s, target, id)
    ensures Matching(t, target, id) <==> !Renamed(t, target, id)
  {
    hide Chain, HandlerInv, FreshInv, NamedSid, Recorded;
    assert IdInv(s, id) && IdInv(t, id) && Grows(ViewOf(s, id), ViewOf(t, id));
    if Live(t, id) {
      MatchesIffNamed(t, id, target);
      ReadIsRecorded(s, id);
      ReadIsRecorded(t, id);
      assert Recorded(Hist(t, id), s.store[id].sess) by { RecordedLater(ViewOf(s, id), ViewOf(t, id), s.store[id].sess); }
      SubjectIsForever(t, id, s.store[id].sess);
    }
  }

  lemma RecordedLater(v: View, w: View, sess: Session)
    requires Grows(v, w) && Recorded(v.hs, sess)
    ensures Recorded(w.hs, sess)
  {
  }

  /** Where no response is applied over another one, what counts is the last response that named a
      provider session after the version the lookup found: it names another one. */
  lemma RenamedIffLastNames(s: State, target: Target, id: Id, n: nat)
    requires IdInv(s, id) && Live(s, id) && target.BySid? && n < |Hist(s, id)|
    requires Hist(s, id)[n].sess.sid == target.sid && StraightFrom(Hist(s, id), n)
    ensures Renamed(s, target, id) <==>
            LastSid(Hist(s, id), n).Some? && LastSid(Hist(s, id), n).value != target.sid
  {
    hide NamedSid, LastSid, StraightFrom, Link, InOrder, Grounded;
    SidIsNamed(Hist(s, id), |Hist(s, id)| - 1);
    SidSince(Hist(s, id), n);
  }

  /** A deletion by an empty subject or provider session fails at once and deletes nothing. */
  lemma EmptyTargetFails(cfg: Config, s: State, p: Pid, proc: nat, target: Target, ch: Choice)
    requires p !in s.handlers && (target == BySubject("") || (target.BySid? && target.sid == ""))
    ensures var t := Next(cfg, Next(cfg, s, DeleteBy(p, proc, target)), Run(p, ch)); PcOf(t, p).Failed? && t.store == s.store
  {
    hide LiveMatches, FoundBy;
  }

  lemma LookupDeletesNothing(cfg: Config, s: State, p: Pid, ids: seq<Id>)
    requires p in s.handlers && s.handlers[p].pc.Lookup?
    ensures var pc := PcOf(Next(cfg, s, Run(p, Ids(ids))), p);
            Working(pc) ==> pc.work.deleted == {} && !pc.Drop?
  {
    hide LiveMatches, FoundBy;
  }

  lemma LookupLeavesLive(cfg: Config, s: State, p: Pid, ids: seq<Id>, id: Id)
    requires p in s.handlers && s.handlers[p].pc.Lookup? && Live(s, id)
    ensures Live(Next(cfg, s, Run(p, Ids(ids))), id)
  {
    hide LiveMatches, FoundBy;
  }

  lemma EndOfWork(s: State, w: Progress, id: Id)
    requires WorkInv(s, w) && w.rest == [] && id in w.looked
    ensures Live(s, id) ==> id in w.spared && id !in w.deleted
  {
    hide Matches, Indexed, Recorded, Missed, EverMatched;
  }
}
