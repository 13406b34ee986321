/** Sign-ins over a state store that takes entries atomically: any number of browsers, logins and
    callbacks, interleaved at every store access. */
module LoginFlow {
  import opened Basics
  import opened MemoryStateStore
  import opened PendingCookies

  const PENDING_RECOVERY_WINDOW := 3_600_000

  type Browser = nat

  datatype Pc =
    | Arrived
    | Discard
    | TakeState
    | CheckEntry(entry: StateEntry)
    | Exchange(entry: StateEntry, checkedAt: Time)
    | Over

  /** A callback request, with the cookies its browser sent. */
  datatype Callback = Callback(browser: Browser, state: string, cookies: Cookies, error: bool, code: string, pc: Pc)

  /** A code sent to the token endpoint. */
  datatype Exchanged = Exchanged(state: string, browser: Browser, code: string, checkedAt: Time)

  /** Who started a sign-in, and when. */
  datatype Start = Start(browser: Browser, at: Time)

  datatype State = State(now: Time, entries: Entries, issued: map<string, Start>, jars: map<Browser, Cookies>,
                         callbacks: map<nat, Callback>, exchanges: seq<Exchanged>)

  datatype Event =
    | Tick(to: Time)
    | Sweep(keys: set<string>)
    | Login(browser: Browser, state: string, entry: StateEntry, full: bool, dropped: set<string>)
    | Forget(browser: Browser, state: string)
    | Arrive(pid: nat, browser: Browser, state: string, error: bool, code: string)
    | Run(pid: nat, fault: bool)

  function Jar(jars: map<Browser, Cookies>, b: Browser): Cookies { if b in jars then jars[b] else map[] }

  /** The browser loses the cookie it has for a state. */
  function Lose(cfg: Config, jars: map<Browser, Cookies>, b: Browser, state: string): map<Browser, Cookies> {
    jars[b := Jar(jars, b) - {CookieName(cfg, state)}]
  }

  function Goto(s: State, pid: nat, pc: Pc): State
    requires pid in s.callbacks
  {
    s.(callbacks := s.callbacks[pid := s.callbacks[pid].(pc := pc)])
  }

  /** handleCallback up to the code exchange. */
  function StepCallback(cfg: Config, s: State, pid: nat, fault: bool): State
    requires pid in s.callbacks
  {
    var c := s.callbacks[pid];
    match c.pc
    case Arrived =>
      if IsBound(cfg, c.cookies, c.state) then Goto(s.(jars := Lose(cfg, s.jars, c.browser, c.state)), pid, TakeState)
      else Goto(s, pid, if c.state != "" then Discard else Over)
    case Discard => Goto(if fault then s else s.(entries := s.entries - {c.state}), pid, Over)
    case TakeState =>
      if fault then Goto(s, pid, Over)
      else Goto(s.(entries := s.entries - {c.state}), pid,
                if c.state in LiveKeys(s.entries, s.now) then CheckEntry(s.entries[c.state].value) else Over)
    case CheckEntry(entry) =>
      Goto(s, pid, if c.error || s.now - entry.createdAt > cfg.stateTTL || c.code == "" then Over
                   else Exchange(entry, s.now))
    case Exchange(_, checkedAt) =>
      Goto(s.(exchanges := s.exchanges + [Exchanged(c.state, c.browser, c.code, checkedAt)]), pid, Over)
    case Over => s
  }

  function Next(cfg: Config, s: State, e: Event): State {
    match e
    case Tick(to) => if s.now <= to then s.(now := to) else s
    case Sweep(keys) => s.(entries := s.entries - (keys * ExpiredKeys(s.entries, s.now)))
    case Login(browser, state, entry, full, dropped) =>
      // A login state is random, so it was never issued before.
      if state in s.issued || entry.createdAt > s.now || full || !Drops(cfg, Jar(s.jars, browser), dropped) then s
      else s.(issued := s.issued[state := Start(browser, entry.createdAt)],
              entries := s.entries[state := Timed(entry, s.now + cfg.stateTTL + PENDING_RECOVERY_WINDOW)],
              jars := s.jars[browser := WithPending(cfg, Jar(s.jars, browser), dropped, state, entry.createdAt)])
    case Forget(browser, state) => s.(jars := Lose(cfg, s.jars, browser, state))
    case Arrive(pid, browser, state, error, code) =>
      if pid in s.callbacks then s
      else s.(callbacks := s.callbacks[pid := Callback(browser, state, Jar(s.jars, browser), error, code, Arrived)])
    case Run(pid, fault) => if pid in s.callbacks then StepCallback(cfg, s, pid, fault) else s
  }

  function Exec(cfg: Config, s: State, events: seq<Event>): State
    decreases |events|
  {
    if events == [] then s else Exec(cfg, Next(cfg, s, events[0]), events[1..])
  }

  predicate Init(s: State) {
    s.entries == map[] && s.issued == map[] && s.jars == map[] && s.callbacks == map[] && s.exchanges == []
  }

  // ---- what every event keeps ----

  /** The callback has taken its state's entry and may still exchange a code for it. */
  predicate Holding(s: State, p: nat) {
    p in s.callbacks && (s.callbacks[p].pc.CheckEntry? || s.callbacks[p].pc.Exchange?)
  }

  predicate CallbackInv(cfg: Config, s: State, c: Callback) {
    && (c.pc.CheckEntry? || c.pc.Exchange? ==>
          && c.state in s.issued && c.pc.entry.createdAt == s.issued[c.state].at && c.state !in s.entries
          && forall x <- s.exchanges :: x.state != c.state)
    && (c.pc.Exchange? ==> c.pc.checkedAt <= c.pc.entry.createdAt + cfg.stateTTL)
  }

  predicate ExchangeInv(cfg: Config, s: State, x: Exchanged) {
    && x.state in s.issued && x.state !in s.entries
    && x.checkedAt <= s.issued[x.state].at + cfg.stateTTL
  }

  predicate EntriesIssued(s: State) {
    forall k <- s.entries :: k in s.issued && s.entries[k].value.createdAt == s.issued[k].at
  }

  ghost predicate Inv(cfg: Config, s: State) {
    && EntriesIssued(s)
    && (forall p <- s.callbacks :: CallbackInv(cfg, s, s.callbacks[p]))
    && (forall p, q | Holding(s, p) && Holding(s, q) && s.callbacks[p].state == s.callbacks[q].state :: p == q)
    && (forall x <- s.exchanges :: ExchangeInv(cfg, s, x))
    && (forall i, j | 0 <= i < j < |s.exchanges| :: s.exchanges[i].state != s.exchanges[j].state)
  }

  /** No state that was issued comes back, and no code is exchanged. */
  predicate Calm(s: State, t: State) {
    && t.exchanges == s.exchanges
    && s.issued.Keys <= t.issued.Keys && (forall k <- s.issued :: t.issued[k] == s.issued[k])
    && EntriesIssued(t) && (forall k <- t.entries :: k in s.issued ==> k in s.entries)
  }

  lemma CalmKeeps(cfg: Config, s: State, t: State)
    requires Inv(cfg, s) && Calm(s, t)
    ensures forall p <- s.callbacks :: CallbackInv(cfg, t, s.callbacks[p])
    ensures forall x <- t.exchanges :: ExchangeInv(cfg, t, x)
  {
    hide IsBound;
    forall p <- s.callbacks ensures CallbackInv(cfg, t, s.callbacks[p]) {
      assert CallbackInv(cfg, s, s.callbacks[p]);
    }
  }

  /** A step other than the exchange: what it must do for the callback that takes it. */
  lemma CalmStep(cfg: Config, s: State, t: State, pid: nat)
    requires Inv(cfg, s) && Calm(s, t) && pid in t.callbacks && t.callbacks == s.callbacks[pid := t.callbacks[pid]]
    requires CallbackInv(cfg, t, t.callbacks[pid])
    requires Holding(t, pid) && !Holding(s, pid) ==> t.callbacks[pid].state in s.entries
    requires pid in s.callbacks ==> t.callbacks[pid].state == s.callbacks[pid].state
    ensures Inv(cfg, t)
  {
    CalmKeeps(cfg, s, t);
    hide ExchangeInv, Calm;
    forall p, q | Holding(t, p) && Holding(t, q) && t.callbacks[p].state == t.callbacks[q].state ensures p == q {
      assert p != pid ==> Holding(s, p) && CallbackInv(cfg, s, s.callbacks[p]);
      assert q != pid ==> Holding(s, q) && CallbackInv(cfg, s, s.callbacks[q]);
    }
  }

  lemma ExchangeStep(cfg: Config, s: State, pid: nat)
    requires Inv(cfg, s) && pid in s.callbacks && s.callbacks[pid].pc.Exchange?
    ensures Inv(cfg, StepCallback(cfg, s, pid, false))
  {
    hide IsBound;
    var t := StepCallback(cfg, s, pid, false);
    assert CallbackInv(cfg, s, s.callbacks[pid]) && Holding(s, pid);
    forall p <- t.callbacks ensures CallbackInv(cfg, t, t.callbacks[p]) {
      assert CallbackInv(cfg, s, s.callbacks[p]);
      assert p != pid && Holding(s, p) ==> s.callbacks[p].state != s.callbacks[pid].state;
    }
    assert forall p | Holding(t, p) :: Holding(s, p) && t.callbacks[p] == s.callbacks[p];
  }

  lemma StoredMeansUnused(cfg: Config, s: State, state: string)
    requires Inv(cfg, s)
    ensures state in s.entries ==> forall x <- s.exchanges :: x.state != state
  {
    hide CallbackInv;
  }

  lemma StaysOver(cfg: Config, s: State, pid: nat, fault: bool)
    requires pid in s.callbacks && s.callbacks[pid].pc.Over?
    ensures StepCallback(cfg, s, pid, fault) == s
  {
  }

  /** A step other than the exchange is calm; only taking the state makes a callback hold it. */
  lemma StepIsCalm(cfg: Config, s: State, pid: nat, fault: bool)
    requires EntriesIssued(s) && pid in s.callbacks && !s.callbacks[pid].pc.Exchange? && !s.callbacks[pid].pc.Over?
    ensures var c, t := s.callbacks[pid], StepCallback(cfg, s, pid, fault);
            && Calm(s, t) && pid in t.callbacks && t.callbacks == s.callbacks[pid := t.callbacks[pid]]
            && t.callbacks[pid] == c.(pc := t.callbacks[pid].pc)
            && (Holding(t, pid) && !Holding(s, pid) ==> c.pc.TakeState? && c.state in s.entries)
  {
    assert LiveKeys(s.entries, s.now) <= s.entries.Keys;
    hide IsBound, Lose, LiveKeys;
  }

  lemma StepKeepsOwn(cfg: Config, s: State, pid: nat, fault: bool)
    requires Inv(cfg, s) && pid in s.callbacks && !s.callbacks[pid].pc.Exchange? && !s.callbacks[pid].pc.Over?
    ensures var t := StepCallback(cfg, s, pid, fault); pid in t.callbacks && CallbackInv(cfg, t, t.callbacks[pid])
  {
    hide IsBound, ExchangeInv, Lose;
    assert CallbackInv(cfg, s, s.callbacks[pid]);
    if s.callbacks[pid].pc.TakeState? { StoredMeansUnused(cfg, s, s.callbacks[pid].state); }
  }

  lemma StepKeepsInv(cfg: Config, s: State, pid: nat, fault: bool)
    requires Inv(cfg, s) && pid in s.callbacks
    ensures Inv(cfg, StepCallback(cfg, s, pid, fault))
  {
    hide *;
    if s.callbacks[pid].pc.Exchange? {
      ExchangeStep(cfg, s, pid);
      FaultIsNothingThere(cfg, s, pid, fault);
    } else if s.callbacks[pid].pc.Over? {
      StaysOver(cfg, s, pid, fault);
    } else {
      InvHas(cfg, s);
      StepIsCalm(cfg, s, pid, fault);
      StepKeepsOwn(cfg, s, pid, fault);
      CalmStep(cfg, s, StepCallback(cfg, s, pid, fault), pid);
    }
  }

  lemma InvHas(cfg: Config, s: State)
    requires Inv(cfg, s)
    ensures EntriesIssued(s)
  {
  }

  lemma FaultIsNothingThere(cfg: Config, s: State, pid: nat, fault: bool)
    requires pid in s.callbacks && s.callbacks[pid].pc.Exchange?
    ensures StepCallback(cfg, s, pid, fault) == StepCallback(cfg, s, pid, false)
  {
  }

  lemma NextKeepsInv(cfg: Config, s: State, e: Event)
    requires Inv(cfg, s)
    ensures Inv(cfg, Next(cfg, s, e))
  {
    hide StepCallback, Inv, Drops, WithPending, Lose, Jar;
    if e.Run? && e.pid in s.callbacks {
      StepKeepsInv(cfg, s, e.pid, e.fault);
    } else if e.Arrive? && e.pid !in s.callbacks {
      Arrives(cfg, s, e);
    } else if !e.Run? && !e.Arrive? {
      IsCalm(cfg, s, e);
      SameCallbacks(cfg, s, Next(cfg, s, e));
    }
  }

  lemma IsCalm(cfg: Config, s: State, e: Event)
    requires Inv(cfg, s) && !e.Run? && !e.Arrive?
    ensures var t := Next(cfg, s, e); Calm(s, t) && t.callbacks == s.callbacks
  {
    hide CallbackInv, ExchangeInv, Drops, WithPending, Lose, Jar;
  }

  lemma SameCallbacks(cfg: Config, s: State, t: State)
    requires Inv(cfg, s) && Calm(s, t) && t.callbacks == s.callbacks
    ensures Inv(cfg, t)
  {
    hide ExchangeInv, CallbackInv;
    assert forall p | Holding(t, p) :: Holding(s, p);
    CalmKeeps(cfg, s, t);
  }

  lemma Arrives(cfg: Config, s: State, e: Event)
    requires Inv(cfg, s) && e.Arrive? && e.pid !in s.callbacks
    ensures Inv(cfg, Next(cfg, s, e))
  {
    hide IsBound;
    CalmStep(cfg, s, Next(cfg, s, e), e.pid);
  }

  lemma {:induction false} ExecKeepsInv(cfg: Config, s: State, events: seq<Event>)
    requires Inv(cfg, s)
    ensures Inv(cfg, Exec(cfg, s, events))
    decreases |events|
  {
    hide Inv, Next;
    if events != [] {
      NextKeepsInv(cfg, s, events[0]);
      ExecKeepsInv(cfg, Next(cfg, s, events[0]), events[1..]);
    }
  }

  // ---- whose cookies they are ----

  /** The cookie was set for a sign-in that this browser started. */
  ghost predicate SetFor(cfg: Config, issued: map<string, Start>, b: Browser, name: string, value: string) {
    exists st <- issued ::
      issued[st].browser == b && name == CookieName(cfg, st) && value == PendingValue(cfg, st, issued[st].at)
  }

  ghost predicate OwnCookies(cfg: Config, issued: map<string, Start>, b: Browser, jar: Cookies) {
    forall k <- jar :: SetFor(cfg, issued, b, k, jar[k])
  }

  /** The browser started a sign-in that has the same binding as this state. */
  ghost predicate Bound(cfg: Config, issued: map<string, Start>, b: Browser, state: string) {
    exists st <- issued :: issued[st].browser == b && cfg.hash(st) == cfg.hash(state)
  }

  ghost predicate CookieInv(cfg: Config, s: State) {
    && (forall b <- s.jars :: OwnCookies(cfg, s.issued, b, s.jars[b]))
    && (forall p <- s.callbacks :: OwnCallback(cfg, s.issued, s.callbacks[p]))
    && (forall x <- s.exchanges :: Bound(cfg, s.issued, x.browser, x.state))
  }

  ghost predicate OwnCallback(cfg: Config, issued: map<string, Start>, c: Callback) {
    && OwnCookies(cfg, issued, c.browser, c.cookies)
    && (c.pc.TakeState? || c.pc.CheckEntry? || c.pc.Exchange? ==> Bound(cfg, issued, c.browser, c.state))
  }

  lemma BoundByCookie(cfg: Config, issued: map<string, Start>, b: Browser, jar: Cookies, state: string)
    requires OwnCookies(cfg, issued, b, jar) && IsBound(cfg, jar, state)
    ensures Bound(cfg, issued, b, state)
  {
    var k := CookieName(cfg, state);
    assert SetFor(cfg, issued, b, k, jar[k]);
    hide Cut, PendingValue, CookieName;
    var st :| st in issued && issued[st].browser == b && jar[k] == PendingValue(cfg, st, issued[st].at);
    ValueReads(cfg, st, issued[st].at);
  }

  predicate IssuedGrows(m: map<string, Start>, more: map<string, Start>) {
    forall st <- m :: st in more && more[st] == m[st]
  }

  lemma OwnStays(cfg: Config, m: map<string, Start>, more: map<string, Start>, b: Browser, jar: Cookies)
    requires IssuedGrows(m, more) && OwnCookies(cfg, m, b, jar)
    ensures OwnCookies(cfg, more, b, jar)
  {
    hide CookieName, PendingValue;
    forall k <- jar ensures SetFor(cfg, more, b, k, jar[k]) { assert SetFor(cfg, m, b, k, jar[k]); }
  }

  lemma BoundStays(cfg: Config, m: map<string, Start>, more: map<string, Start>, b: Browser, state: string)
    requires IssuedGrows(m, more) && Bound(cfg, m, b, state)
    ensures Bound(cfg, more, b, state)
  {
  }

  lemma CallbackStays(cfg: Config, m: map<string, Start>, more: map<string, Start>, c: Callback)
    requires IssuedGrows(m, more) && OwnCallback(cfg, m, c)
    ensures OwnCallback(cfg, more, c)
  {
    hide OwnCookies, Bound, IssuedGrows;
    OwnStays(cfg, m, more, c.browser, c.cookies);
    if Bound(cfg, m, c.browser, c.state) { BoundStays(cfg, m, more, c.browser, c.state); }
  }

  lemma LoginKeepsOwn(cfg: Config, m: map<string, Start>, b: Browser, jar: Cookies, dropped: set<string>, state: string, at: Time)
    requires OwnCookies(cfg, m, b, jar) && state !in m
    ensures OwnCookies(cfg, m[state := Start(b, at)], b, WithPending(cfg, jar, dropped, state, at))
  {
    OwnStays(cfg, m, m[state := Start(b, at)], b, jar);
    hide CookieName, PendingValue;
  }

  lemma FewerAreOwn(cfg: Config, m: map<string, Start>, b: Browser, jar: Cookies, gone: set<string>)
    requires OwnCookies(cfg, m, b, jar)
    ensures OwnCookies(cfg, m, b, jar - gone)
  {
    hide SetFor;
  }

  lemma JarIsOwn(cfg: Config, s: State, b: Browser)
    requires CookieInv(cfg, s)
    ensures OwnCookies(cfg, s.issued, b, Jar(s.jars, b))
  {
  }

  lemma LoseKeepsOwn(cfg: Config, s: State, b: Browser, state: string)
    requires CookieInv(cfg, s)
    ensures forall x <- Lose(cfg, s.jars, b, state) :: OwnCookies(cfg, s.issued, x, Lose(cfg, s.jars, b, state)[x])
  {
    JarIsOwn(cfg, s, b);
    FewerAreOwn(cfg, s.issued, b, Jar(s.jars, b), {CookieName(cfg, state)});
    hide OwnCookies, CookieName, Jar;
  }

  lemma ArrivedKeepsCookies(cfg: Config, s: State, pid: nat, fault: bool)
    requires CookieInv(cfg, s) && pid in s.callbacks && s.callbacks[pid].pc.Arrived?
    ensures CookieInv(cfg, StepCallback(cfg, s, pid, fault))
  {
    var c := s.callbacks[pid];
    assert OwnCallback(cfg, s.issued, c);
    if IsBound(cfg, c.cookies, c.state) { BoundByCookie(cfg, s.issued, c.browser, c.cookies, c.state); }
    LoseKeepsOwn(cfg, s, c.browser, c.state);
    hide IsBound, Bound, OwnCookies, Lose;
  }

  /** What a step other than the first does to what the cookies say. */
  lemma StepMoves(cfg: Config, s: State, pid: nat, fault: bool)
    requires pid in s.callbacks && !s.callbacks[pid].pc.Arrived?
    ensures var c, t := s.callbacks[pid], StepCallback(cfg, s, pid, fault);
            && t.issued == s.issued && t.jars == s.jars && pid in t.callbacks && t.callbacks == s.callbacks[pid := t.callbacks[pid]]
            && t.callbacks[pid] == c.(pc := t.callbacks[pid].pc) && !t.callbacks[pid].pc.TakeState?
            && (t.callbacks[pid].pc.CheckEntry? || t.callbacks[pid].pc.Exchange? ==> c.pc.TakeState? || c.pc.CheckEntry?)
            && (t.exchanges == s.exchanges
                || (c.pc.Exchange? && t.exchanges == s.exchanges + [Exchanged(c.state, c.browser, c.code, c.pc.checkedAt)]))
  {
    assert s.callbacks[pid := s.callbacks[pid]] == s.callbacks;
    hide LiveKeys;
  }

  lemma StepKeepsCookies(cfg: Config, s: State, pid: nat, fault: bool)
    requires CookieInv(cfg, s) && pid in s.callbacks
    ensures CookieInv(cfg, StepCallback(cfg, s, pid, fault))
  {
    hide IsBound, Bound, OwnCookies, StepCallback;
    if s.callbacks[pid].pc.Arrived? {
      ArrivedKeepsCookies(cfg, s, pid, fault);
    } else {
      StepMoves(cfg, s, pid, fault);
      assert OwnCallback(cfg, s.issued, s.callbacks[pid]);
    }
  }

  lemma NextKeepsCookies(cfg: Config, s: State, e: Event)
    requires CookieInv(cfg, s)
    ensures CookieInv(cfg, Next(cfg, s, e))
  {
    hide IsBound, Bound, OwnCookies, StepCallback, Drops, WithPending, Lose, Jar;
    if e.Run? && e.pid in s.callbacks {
      StepKeepsCookies(cfg, s, e.pid, e.fault);
    } else if e.Forget? {
      LoseKeepsOwn(cfg, s, e.browser, e.state);
    } else if e.Arrive? && e.pid !in s.callbacks {
      JarIsOwn(cfg, s, e.browser);
    } else if e.Login? && Next(cfg, s, e) != s {
      hide Next;
      LoginKeepsCookies(cfg, s, e);
    }
  }

  lemma LoginKeepsCookies(cfg: Config, s: State, e: Event)
    requires CookieInv(cfg, s) && e.Login? && Next(cfg, s, e) != s
    ensures CookieInv(cfg, Next(cfg, s, e))
  {
    var t := Next(cfg, s, e);
    JarIsOwn(cfg, s, e.browser);
    LoginKeepsOwn(cfg, s.issued, e.browser, Jar(s.jars, e.browser), e.dropped, e.state, e.entry.createdAt);
    hide Bound, OwnCookies, OwnCallback, Drops, WithPending, Jar;
    assert IssuedGrows(s.issued, t.issued);
    hide IssuedGrows;
    forall b <- t.jars ensures OwnCookies(cfg, t.issued, b, t.jars[b]) {
      if b != e.browser { OwnStays(cfg, s.issued, t.issued, b, s.jars[b]); }
    }
    forall p <- t.callbacks ensures OwnCallback(cfg, t.issued, t.callbacks[p]) {
      CallbackStays(cfg, s.issued, t.issued, s.callbacks[p]);
    }
    forall x <- t.exchanges ensures Bound(cfg, t.issued, x.browser, x.state) {
      BoundStays(cfg, s.issued, t.issued, x.browser, x.state);
    }
  }

  lemma {:induction false} ExecKeepsCookies(cfg: Config, s: State, events: seq<Event>)
    requires CookieInv(cfg, s)
    ensures CookieInv(cfg, Exec(cfg, s, events))
    decreases |events|
  {
    hide CookieInv, Next;
    if events != [] {
      NextKeepsCookies(cfg, s, events[0]);
      ExecKeepsCookies(cfg, Next(cfg, s, events[0]), events[1..]);
    }
  }

  // ---- which login it was ----

  /** The n-th event is the login in which this browser started the sign-in of this state. */
  ghost predicate LoginAt(cfg: Config, s0: State, events: seq<Event>, n: int, b: Browser, state: string) {
    && 0 <= n < |events| && events[n].Login? && events[n].browser == b && events[n].state == state && !events[n].full
    && state !in Exec(cfg, s0, events[..n]).issued
  }

  lemma {:induction false} ExecSplits(cfg: Config, s: State, a: seq<Event>, b: seq<Event>)
    ensures Exec(cfg, s, a + b) == Exec(cfg, Exec(cfg, s, a), b)
    decreases |a|
  {
    hide Next;
    if a == [] {
      assert a + b == b;
    } else {
      assert (a + b)[1..] == a[1..] + b;
      ExecSplits(cfg, Next(cfg, s, a[0]), a[1..], b);
    }
  }

  lemma IssuedStep(cfg: Config, s: State, e: Event, state: string)
    requires state in Next(cfg, s, e).issued
    ensures if state in s.issued then Next(cfg, s, e).issued[state] == s.issued[state]
            else e.Login? && e.state == state && !e.full && Next(cfg, s, e).issued[state].browser == e.browser
  {
    hide Drops, WithPending, IsBound;
  }

  lemma {:induction false} IssuedByLogin(cfg: Config, s0: State, events: seq<Event>, state: string)
    requires Init(s0) && state in Exec(cfg, s0, events).issued
    ensures exists n :: LoginAt(cfg, s0, events, n, Exec(cfg, s0, events).issued[state].browser, state)
    decreases |events|
  {
    hide Next;
    if events != [] {
      var last := |events| - 1;
      var most, e := events[..last], events[last];
      ExecSplits(cfg, s0, most, [e]);
      assert most + [e] == events && [e][1..] == [];
      var s := Exec(cfg, s0, most);
      IssuedStep(cfg, s, e, state);
      if state in s.issued {
        IssuedByLogin(cfg, s0, most, state);
        var n :| LoginAt(cfg, s0, most, n, s.issued[state].browser, state);
        assert events[..n] == most[..n];
        assert LoginAt(cfg, s0, events, n, s.issued[state].browser, state);
      } else {
        assert LoginAt(cfg, s0, events, last, e.browser, state);
      }
    }
  }

  ghost predicate Injective(hash: string -> string) {
    forall a, b :: hash(a) == hash(b) ==> a == b
  }

  /** A state that was issued leads to at most one code exchange, within stateTTL of its login, and
      only for a browser that started a sign-in with its binding. */
  lemma StateIsSingleUse(cfg: Config, s0: State, events: seq<Event>)
    requires Init(s0)
    ensures var s := Exec(cfg, s0, events);
            && (forall i, j | 0 <= i < j < |s.exchanges| :: s.exchanges[i].state != s.exchanges[j].state)
            && (forall x <- s.exchanges ::
                  && x.state in s.issued && x.checkedAt <= s.issued[x.state].at + cfg.stateTTL
                  && exists st <- s.issued :: s.issued[st].browser == x.browser && cfg.hash(st) == cfg.hash(x.state))
  {
    hide Next;
    ExecKeepsInv(cfg, s0, events);
    ExecKeepsCookies(cfg, s0, events);
    var s := Exec(cfg, s0, events);
    forall x <- s.exchanges ensures exists st <- s.issued :: s.issued[st].browser == x.browser && cfg.hash(st) == cfg.hash(x.state) {
      assert Bound(cfg, s.issued, x.browser, x.state);
    }
  }

  /** If no two states have the same binding, every code is exchanged for the browser that started
      the sign-in it is for: the run has a login of that browser with that state. */
  lemma ExchangeIsForItsBrowser(cfg: Config, s0: State, events: seq<Event>, x: Exchanged)
    requires Init(s0) && Injective(cfg.hash) && x in Exec(cfg, s0, events).exchanges
    ensures exists n :: LoginAt(cfg, s0, events, n, x.browser, x.state)
  {
    hide Next, Exec;
    StateIsSingleUse(cfg, s0, events);
    IssuedByLogin(cfg, s0, events, x.state);
  }

  // ---- what a callback that is left alone comes to ----

  lemma FourSteps(cfg: Config, s: State, e: Event)
    ensures Exec(cfg, s, [e, e, e, e]) == Next(cfg, Next(cfg, Next(cfg, Next(cfg, s, e), e), e), e)
  {
    hide Next;
    assert [e, e, e, e][1..] == [e, e, e] && [e, e, e][1..] == [e, e] && [e, e][1..] == [e] && [e][1..] == [];
    var s1 := Next(cfg, s, e);
    var s2 := Next(cfg, s1, e);
    var s3 := Next(cfg, s2, e);
    assert Exec(cfg, s3, [e]) == Next(cfg, s3, e);
    assert Exec(cfg, s1, [e, e, e]) == Exec(cfg, s2, [e, e]);
  }

  /** The callback may exchange its code: its browser presents the binding, its state is stored and
      young enough, the provider reports no error, and there is a code. */
  predicate MayExchange(cfg: Config, s: State, c: Callback) {
    && IsBound(cfg, c.cookies, c.state) && c.state in LiveKeys(s.entries, s.now)
    && !c.error && c.code != "" && s.now - s.entries[c.state].value.createdAt <= cfg.stateTTL
  }

  /** From the taken entry on. */
  lemma EntryDecides(cfg: Config, s: State, pid: nat, entry: StateEntry)
    requires pid in s.callbacks && s.callbacks[pid].pc == CheckEntry(entry)
    ensures var c, e := s.callbacks[pid], Run(pid, false);
            var t := Next(cfg, Next(cfg, s, e), e);
            && t.exchanges == s.exchanges + (if !c.error && c.code != "" && s.now - entry.createdAt <= cfg.stateTTL
                                             then [Exchanged(c.state, c.browser, c.code, s.now)] else [])
            && t.entries == s.entries && t.jars == s.jars && pid in t.callbacks && t.callbacks[pid].pc.Over?
  {
    hide LiveKeys, IsBound;
  }

  lemma TakesState(cfg: Config, s: State, pid: nat)
    requires pid in s.callbacks && s.callbacks[pid].pc.TakeState?
    ensures var c, t := s.callbacks[pid], Next(cfg, s, Run(pid, false));
            && t.now == s.now && t.exchanges == s.exchanges && t.jars == s.jars && t.entries == s.entries - {c.state} && pid in t.callbacks
            && t.callbacks[pid] == c.(pc := if c.state in LiveKeys(s.entries, s.now) then CheckEntry(s.entries[c.state].value) else Over)
  {
    hide LiveKeys;
  }

  lemma Enters(cfg: Config, s: State, pid: nat)
    requires pid in s.callbacks && s.callbacks[pid].pc.Arrived?
    ensures var c, t := s.callbacks[pid], Next(cfg, s, Run(pid, false));
            && t.now == s.now && t.exchanges == s.exchanges && t.entries == s.entries && pid in t.callbacks
            && t.jars == (if IsBound(cfg, c.cookies, c.state) then Lose(cfg, s.jars, c.browser, c.state) else s.jars)
            && t.callbacks[pid] == c.(pc := if IsBound(cfg, c.cookies, c.state) then TakeState else if c.state == "" then Over else Discard)
  {
    hide IsBound, Lose;
  }

  lemma Discards(cfg: Config, s: State, pid: nat)
    requires pid in s.callbacks && s.callbacks[pid].pc.Discard?
    ensures var c, t := s.callbacks[pid], Next(cfg, s, Run(pid, false));
            && t.exchanges == s.exchanges && t.jars == s.jars && t.entries == s.entries - {c.state}
            && pid in t.callbacks && t.callbacks[pid].pc.Over?
  {
  }

  lemma IsOver(cfg: Config, s: State, pid: nat)
    requires pid in s.callbacks && s.callbacks[pid].pc.Over?
    ensures Next(cfg, s, Run(pid, false)) == s
  {
  }

  lemma LostIsNotBound(cfg: Config, jars: map<Browser, Cookies>, b: Browser, state: string)
    ensures !IsBound(cfg, Jar(Lose(cfg, jars, b, state), b), state)
  {
    hide Cut, CookieName;
  }

  /** A callback that is left alone exchanges its code exactly when it may, and once. Whoever
      presents a state uses it up, also a browser that does not have its binding; and one that
      has it does not keep it. */
  lemma CallbackEnds(cfg: Config, s: State, pid: nat)
    requires pid in s.callbacks && s.callbacks[pid].pc.Arrived?
    ensures var c, e := s.callbacks[pid], Run(pid, false);
            var t := Exec(cfg, s, [e, e, e, e]);
            && t.exchanges == s.exchanges + (if MayExchange(cfg, s, c) then [Exchanged(c.state, c.browser, c.code, s.now)] else [])
            && t.entries == (if c.state == "" then s.entries else s.entries - {c.state})
            && (IsBound(cfg, c.cookies, c.state) ==> !IsBound(cfg, Jar(t.jars, c.browser), c.state))
            && pid in t.callbacks && t.callbacks[pid].pc.Over?
  {
    var c, e := s.callbacks[pid], Run(pid, false);
    assert IsBound(cfg, c.cookies, c.state) ==> c.state != "";
    LostIsNotBound(cfg, s.jars, c.browser, c.state);
    hide Next, IsBound, LiveKeys, Lose, Jar;
    FourSteps(cfg, s, e);
    Enters(cfg, s, pid);
    var s1 := Next(cfg, s, e);
    if s1.callbacks[pid].pc.TakeState? {
      TakesState(cfg, s1, pid);
      var s2 := Next(cfg, s1, e);
      if s2.callbacks[pid].pc.Over? { IsOver(cfg, s2, pid); } else { EntryDecides(cfg, s2, pid, s1.entries[c.state].value); }
    } else {
      if s1.callbacks[pid].pc.Discard? { Discards(cfg, s1, pid); } else { IsOver(cfg, s1, pid); }
      var s2 := Next(cfg, s1, e);
      IsOver(cfg, s2, pid);
    }
  }
}
