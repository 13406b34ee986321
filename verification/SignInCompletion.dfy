/** A browser that comes back from the provider in time completes the sign-in it started, whatever
    else happens, as long as it has not started too many others since. */
module SignInCompletion {
  import opened Basics
  import opened MemoryStateStore
  import opened PendingCookies
  import opened LoginFlow

  /** The sign-in of one state in one browser. */
  datatype SignIn = SignIn(browser: Browser, state: string, entry: StateEntry)

  /** The state has a cookie of its own: another binding to begin with. */
  predicate Apart(cfg: Config, x: SignIn, state: string) {
    Head(cfg.hash(state)) != Head(cfg.hash(x.state))
  }

  /** A callback that does not concern the sign-in. */
  predicate Elsewhere(cfg: Config, x: SignIn, b: Browser, state: string) {
    state != x.state && (b == x.browser ==> Apart(cfg, x, state))
  }

  /** No callback for the state, and the browser keeps its cookie. */
  predicate LeavesAlone(cfg: Config, x: SignIn, e: Event) {
    match e
    case Arrive(_, b, state, _, _) => Elsewhere(cfg, x, b, state)
    case Forget(b, state) => b == x.browser ==> Apart(cfg, x, state)
    case Login(b, state, _, _, _) => b == x.browser ==> Apart(cfg, x, state)
    case _ => true
  }

  predicate StartsOther(x: SignIn, e: Event) { e.Login? && e.browser == x.browser && !e.full }

  function Others(x: SignIn, events: seq<Event>): nat {
    if events == [] then 0 else (if StartsOther(x, events[0]) then 1 else 0) + Others(x, events[1..])
  }

  // ---- the browser's cookie ----

  /** Other pending sign-ins that are not older. */
  function Newer(cfg: Config, jar: Cookies, x: SignIn): set<string> {
    set k | k in Open(cfg, jar) && k != CookieName(cfg, x.state) && StartedOf(jar[k]) >= x.entry.createdAt
  }

  predicate HasCookie(cfg: Config, jar: Cookies, x: SignIn, newer: nat) {
    && CookieName(cfg, x.state) in jar && jar[CookieName(cfg, x.state)] == PendingValue(cfg, x.state, x.entry.createdAt)
    && |Newer(cfg, jar, x)| <= newer
  }

  lemma OwnName(cfg: Config, x: SignIn, state: string)
    requires Apart(cfg, x, state)
    ensures CookieName(cfg, state) != CookieName(cfg, x.state)
  {
    assert CookieName(cfg, state)[|cfg.cookiePrefix|..] == Head(cfg.hash(state));
    assert CookieName(cfg, x.state)[|cfg.cookiePrefix|..] == Head(cfg.hash(x.state));
  }

  lemma IsOpen(cfg: Config, jar: Cookies, state: string)
    requires CookieName(cfg, state) in jar
    ensures CookieName(cfg, state) in Open(cfg, jar)
  {
  }

  lemma Fewer(a: set<string>, b: set<string>)
    requires a <= b
    ensures |a| <= |b|
  {
    assert b == a + (b - a);
  }

  /** With at most three newer ones, the sign-in is not among the dropped. */
  lemma NotDropped(cfg: Config, jar: Cookies, dropped: set<string>, x: SignIn)
    requires HasCookie(cfg, jar, x, 3) && Drops(cfg, jar, dropped)
    ensures CookieName(cfg, x.state) !in dropped
  {
    var name, kept := CookieName(cfg, x.state), Open(cfg, jar) - dropped;
    IsOpen(cfg, jar, x.state);
    ValueReads(cfg, x.state, x.entry.createdAt);
    hide StartedOf, CookieName, PendingValue, Open;
    if name in dropped {
      assert kept <= Newer(cfg, jar, x);
      Fewer(kept, Newer(cfg, jar, x));
    }
  }

  lemma LoginKeepsCookie(cfg: Config, jar: Cookies, dropped: set<string>, x: SignIn, newer: nat, state: string, at: Time)
    requires HasCookie(cfg, jar, x, newer) && newer <= 3 && Drops(cfg, jar, dropped) && Apart(cfg, x, state)
    ensures HasCookie(cfg, WithPending(cfg, jar, dropped, state, at), x, newer + 1)
  {
    var more := WithPending(cfg, jar, dropped, state, at);
    NotDropped(cfg, jar, dropped, x);
    OwnName(cfg, x, state);
    hide StartedOf, CookieName, PendingValue, Drops;
    assert Newer(cfg, more, x) <= Newer(cfg, jar, x) + {CookieName(cfg, state)};
    Fewer(Newer(cfg, more, x), Newer(cfg, jar, x) + {CookieName(cfg, state)});
  }

  lemma LossKeepsCookie(cfg: Config, jar: Cookies, x: SignIn, newer: nat, state: string)
    requires HasCookie(cfg, jar, x, newer) && Apart(cfg, x, state)
    ensures HasCookie(cfg, jar - {CookieName(cfg, state)}, x, newer)
  {
    var less := jar - {CookieName(cfg, state)};
    OwnName(cfg, x, state);
    hide StartedOf, CookieName, PendingValue;
    assert Newer(cfg, less, x) <= Newer(cfg, jar, x);
    Fewer(Newer(cfg, less, x), Newer(cfg, jar, x));
  }

  // ---- the sign-in under way ----

  ghost predicate Started(cfg: Config, s: State, x: SignIn, newer: nat) {
    && x.state in s.issued && HasCookie(cfg, Jar(s.jars, x.browser), x, newer)
    && (forall p <- s.callbacks :: Elsewhere(cfg, x, s.callbacks[p].browser, s.callbacks[p].state))
    && InStore(cfg, s, x)
  }

  predicate InStore(cfg: Config, s: State, x: SignIn) {
    && x.state in s.entries && s.entries[x.state].value == x.entry
    && s.entries[x.state].expiresAt >= x.entry.createdAt + cfg.stateTTL
  }

  lemma LosesAnother(cfg: Config, jars: map<Browser, Cookies>, x: SignIn, newer: nat, b: Browser, state: string)
    requires HasCookie(cfg, Jar(jars, x.browser), x, newer) && (b == x.browser ==> Apart(cfg, x, state))
    ensures HasCookie(cfg, Jar(Lose(cfg, jars, b, state), x.browser), x, newer)
  {
    if b == x.browser { LossKeepsCookie(cfg, Jar(jars, b), x, newer, state); }
    hide HasCookie, CookieName;
  }

  lemma FirstStep(cfg: Config, s: State, pid: nat, fault: bool)
    requires pid in s.callbacks && s.callbacks[pid].pc.Arrived?
    ensures var c, t := s.callbacks[pid], StepCallback(cfg, s, pid, fault);
            && t.issued == s.issued && (t.jars == s.jars || t.jars == Lose(cfg, s.jars, c.browser, c.state))
            && pid in t.callbacks && t.callbacks == s.callbacks[pid := t.callbacks[pid]]
            && t.callbacks[pid] == c.(pc := t.callbacks[pid].pc)
  {
    hide IsBound, Lose;
  }

  lemma EntryStays(cfg: Config, s: State, pid: nat, fault: bool, state: string)
    requires pid in s.callbacks && s.callbacks[pid].state != state && state in s.entries
    ensures var t := StepCallback(cfg, s, pid, fault); state in t.entries && t.entries[state] == s.entries[state]
  {
    hide IsBound, Lose, LiveKeys;
  }

  /** What a callback's step leaves of a sign-in of another state. */
  lemma StepLeaves(cfg: Config, s: State, pid: nat, fault: bool)
    requires pid in s.callbacks
    ensures var c, t := s.callbacks[pid], StepCallback(cfg, s, pid, fault);
            && t.issued == s.issued && (t.jars == s.jars || t.jars == Lose(cfg, s.jars, c.browser, c.state))
            && pid in t.callbacks && t.callbacks == s.callbacks[pid := t.callbacks[pid]]
            && t.callbacks[pid] == c.(pc := t.callbacks[pid].pc)
  {
    hide StepCallback, Lose;
    if s.callbacks[pid].pc.Arrived? { FirstStep(cfg, s, pid, fault); } else { StepMoves(cfg, s, pid, fault); }
  }

  lemma RunKeepsStarted(cfg: Config, s: State, x: SignIn, newer: nat, pid: nat, fault: bool)
    requires Started(cfg, s, x, newer) && pid in s.callbacks
    ensures Started(cfg, StepCallback(cfg, s, pid, fault), x, newer)
  {
    var c := s.callbacks[pid];
    assert Elsewhere(cfg, x, c.browser, c.state);
    LosesAnother(cfg, s.jars, x, newer, c.browser, c.state);
    StepLeaves(cfg, s, pid, fault);
    EntryStays(cfg, s, pid, fault, x.state);
    hide HasCookie, Lose, Jar, Elsewhere, StepCallback;
  }

  lemma NextKeepsStarted(cfg: Config, s: State, x: SignIn, newer: nat, e: Event)
    requires Started(cfg, s, x, newer) && LeavesAlone(cfg, x, e) && newer <= (if StartsOther(x, e) then 3 else 4)
    requires s.now <= x.entry.createdAt + cfg.stateTTL
    ensures Started(cfg, Next(cfg, s, e), x, if StartsOther(x, e) then newer + 1 else newer)
  {
    if e.Run? && e.pid in s.callbacks {
      hide *;
      RunKeepsStarted(cfg, s, x, newer, e.pid, e.fault);
      RunIs(cfg, s, e);
      OtherStarts(x, e);
    } else if e.Login? {
      LoginKeepsStarted(cfg, s, x, newer, e);
    } else if e.Forget? {
      LosesAnother(cfg, s.jars, x, newer, e.browser, e.state);
      hide HasCookie, Lose, Jar, Apart;
    } else {
      hide HasCookie, Lose, Jar, Apart, StepCallback;
    }
  }

  lemma RunIs(cfg: Config, s: State, e: Event)
    requires e.Run? && e.pid in s.callbacks
    ensures Next(cfg, s, e) == StepCallback(cfg, s, e.pid, e.fault)
  {
  }

  lemma OtherStarts(x: SignIn, e: Event)
    ensures StartsOther(x, e) ==> e.Login?
  {
  }

  lemma LoginKeepsStarted(cfg: Config, s: State, x: SignIn, newer: nat, e: Event)
    requires Started(cfg, s, x, newer) && LeavesAlone(cfg, x, e) && e.Login? && newer <= (if StartsOther(x, e) then 3 else 4)
    ensures Started(cfg, Next(cfg, s, e), x, if StartsOther(x, e) then newer + 1 else newer)
  {
    var jar := Jar(s.jars, x.browser);
    assert StartsOther(x, e) ==> HasCookie(cfg, jar, x, newer + 1);
    if StartsOther(x, e) && Drops(cfg, jar, e.dropped) {
      LoginKeepsCookie(cfg, jar, e.dropped, x, newer, e.state, e.entry.createdAt);
    }
    hide HasCookie, Drops, WithPending, Apart;
  }

  lemma {:induction false} NowGrows(cfg: Config, s: State, events: seq<Event>)
    ensures s.now <= Exec(cfg, s, events).now
    decreases |events|
  {
    if events != [] {
      NowGrowsOnce(cfg, s, events[0]);
      hide Next;
      NowGrows(cfg, Next(cfg, s, events[0]), events[1..]);
    }
  }

  lemma NowGrowsOnce(cfg: Config, s: State, e: Event)
    ensures s.now <= Next(cfg, s, e).now
  {
    hide IsBound, Drops, WithPending, LiveKeys, Lose;
  }

  lemma {:induction false} ExecKeepsStarted(cfg: Config, s: State, x: SignIn, newer: nat, events: seq<Event>)
    requires Started(cfg, s, x, newer) && newer + Others(x, events) <= 4 && forall e <- events :: LeavesAlone(cfg, x, e)
    requires Exec(cfg, s, events).now <= x.entry.createdAt + cfg.stateTTL
    ensures Started(cfg, Exec(cfg, s, events), x, 4)
    decreases |events|
  {
    hide Next, LeavesAlone, StartsOther;
    if events == [] {
      Looser(cfg, s, x, newer);
    } else {
      hide Started;
      var e := events[0];
      NowGrows(cfg, s, events);
      NextKeepsStarted(cfg, s, x, newer, e);
      ExecKeepsStarted(cfg, Next(cfg, s, e), x, if StartsOther(x, e) then newer + 1 else newer, events[1..]);
    }
  }

  lemma Looser(cfg: Config, s: State, x: SignIn, newer: nat)
    requires Started(cfg, s, x, newer) && newer <= 4
    ensures Started(cfg, s, x, 4)
  {
  }

  // ---- from the login to the exchange ----

  lemma OlderOnly(cfg: Config, issued: map<string, Start>, jar: Cookies, x: SignIn)
    requires OwnCookies(cfg, issued, x.browser, jar)
    requires forall st <- issued | issued[st].browser == x.browser :: issued[st].at < x.entry.createdAt
    ensures Newer(cfg, jar, x) == {}
  {
    forall k <- Open(cfg, jar) ensures StartedOf(jar[k]) < x.entry.createdAt {
      assert SetFor(cfg, issued, x.browser, k, jar[k]);
      var st :| st in issued && issued[st].browser == x.browser && jar[k] == PendingValue(cfg, st, issued[st].at);
      ValueReads(cfg, st, issued[st].at);
    }
    hide StartedOf;
  }

  lemma FirstCookie(cfg: Config, jar: Cookies, dropped: set<string>, x: SignIn)
    requires Newer(cfg, jar, x) == {}
    ensures HasCookie(cfg, WithPending(cfg, jar, dropped, x.state, x.entry.createdAt), x, 0)
  {
    var more := WithPending(cfg, jar, dropped, x.state, x.entry.createdAt);
    hide StartedOf, CookieName, PendingValue;
    assert Newer(cfg, more, x) <= Newer(cfg, jar, x);
  }

  lemma LoginStarts(cfg: Config, s: State, e: Event, x: SignIn)
    requires CookieInv(cfg, s) && e.Login? && x == SignIn(e.browser, e.state, e.entry) && !e.full
    requires x.state !in s.issued && x.entry.createdAt <= s.now && Drops(cfg, Jar(s.jars, x.browser), e.dropped)
    requires forall p <- s.callbacks :: Elsewhere(cfg, x, s.callbacks[p].browser, s.callbacks[p].state)
    requires forall st <- s.issued | s.issued[st].browser == x.browser :: s.issued[st].at < x.entry.createdAt
    ensures Started(cfg, Next(cfg, s, e), x, 0)
  {
    JarIsOwn(cfg, s, x.browser);
    OlderOnly(cfg, s.issued, Jar(s.jars, x.browser), x);
    FirstCookie(cfg, Jar(s.jars, x.browser), e.dropped, x);
    hide HasCookie, Drops, WithPending, Elsewhere, CookieInv;
  }

  lemma Completes(cfg: Config, t: State, x: SignIn, pid: nat, code: string)
    requires Started(cfg, t, x, 4) && t.now <= x.entry.createdAt + cfg.stateTTL && pid !in t.callbacks && code != "" && x.state != ""
    ensures var run := Run(pid, false);
            Exec(cfg, t, [Arrive(pid, x.browser, x.state, false, code), run, run, run, run]).exchanges ==
            t.exchanges + [Exchanged(x.state, x.browser, code, t.now)]
  {
    var run, arrive := Run(pid, false), Arrive(pid, x.browser, x.state, false, code);
    var u := Next(cfg, t, arrive);
    ValueReads(cfg, x.state, x.entry.createdAt);
    assert IsBound(cfg, u.callbacks[pid].cookies, x.state) by { hide Cut, CookieName, PendingValue; }
    assert u.exchanges == t.exchanges && u.now == t.now && u.entries == t.entries;
    hide Next, IsBound, Started;
    assert x.state in LiveKeys(u.entries, u.now) && u.entries[x.state].value == x.entry by { Stored(cfg, t, x); }
    CallbackEnds(cfg, u, pid);
    assert [arrive, run, run, run, run][1..] == [run, run, run, run];
  }

  lemma Stored(cfg: Config, t: State, x: SignIn)
    requires Started(cfg, t, x, 4) && t.now <= x.entry.createdAt + cfg.stateTTL
    ensures x.state in LiveKeys(t.entries, t.now) && t.entries[x.state].value == x.entry
  {
  }

  /** A browser starts a sign-in, later than all it started before. Whatever then happens to other
      sign-ins and in other browsers, if it starts at most four others and keeps its cookie, no
      other state has a cookie of the same name there, and nobody else presents the state, then
      coming back with a code within stateTTL of the login gets the code exchanged. */
  lemma SignInCompletes(cfg: Config, s0: State, before: seq<Event>, login: Event, between: seq<Event>, pid: nat, code: string)
    requires Init(s0) && login.Login? && !login.full && login.state != "" && code != "" && cfg.stateTTL >= 0
    requires var s, x := Exec(cfg, s0, before), SignIn(login.browser, login.state, login.entry);
             && x.state !in s.issued && x.entry.createdAt <= s.now && Drops(cfg, Jar(s.jars, x.browser), login.dropped)
             && (forall p <- s.callbacks :: Elsewhere(cfg, x, s.callbacks[p].browser, s.callbacks[p].state))
             && (forall st <- s.issued | s.issued[st].browser == x.browser :: s.issued[st].at < x.entry.createdAt)
             && (forall e <- between :: LeavesAlone(cfg, x, e)) && Others(x, between) <= 4
             && var t := Exec(cfg, Next(cfg, s, login), between);
             t.now <= x.entry.createdAt + cfg.stateTTL && pid !in t.callbacks
    ensures var t, run := Exec(cfg, Next(cfg, Exec(cfg, s0, before), login), between), Run(pid, false);
            Exec(cfg, t, [Arrive(pid, login.browser, login.state, false, code), run, run, run, run]).exchanges ==
            t.exchanges + [Exchanged(login.state, login.browser, code, t.now)]
  {
    var s, x := Exec(cfg, s0, before), SignIn(login.browser, login.state, login.entry);
    assert CookieInv(cfg, s0);
    hide Next, Exec, Started, CookieInv, Drops, Elsewhere, LeavesAlone, Others;
    ExecKeepsCookies(cfg, s0, before);
    LoginStarts(cfg, s, login, x);
    ExecKeepsStarted(cfg, Next(cfg, s, login), x, 0, between);
    Completes(cfg, Exec(cfg, Next(cfg, s, login), between), x, pid, code);
  }
}
