/** The cookies that bind started sign-ins to the browser that started them. */
module PendingCookies {
  import opened Basics

  const MAX_PENDING: nat := 5

  /** `hash` is the one-way text that binds a state to a browser. */
  datatype Config = Config(stateTTL: int, hash: string -> string, cookiePrefix: string)

  type Cookies = map<string, string>

  // ---- numbers as text ----

  predicate IsDigit(c: char) { '0' <= c <= '9' }

  function Digits(n: nat): string
    decreases n
  {
    (if n < 10 then "" else Digits(n / 10)) + [(n % 10 + '0' as int) as char]
  }

  function Decimal(t: Time): string {
    if t < 0 then "-" + Digits(-t) else Digits(t)
  }

  predicate AllDigits(s: string) { s != "" && forall c <- s :: IsDigit(c) }

  function Number(s: string): int {
    if s == "" then 0 else 10 * Number(s[..|s| - 1]) + (s[|s| - 1] as int - '0' as int)
  }

  /** Text that is no number counts as 0. */
  function ParseInt(s: string): int {
    if AllDigits(s) then Number(s)
    else if s != "" && (s[0] == '-' || s[0] == '+') && AllDigits(s[1..]) then
      if s[0] == '-' then -Number(s[1..]) else Number(s[1..])
    else 0
  }

  lemma {:induction false} DigitsRead(n: nat)
    ensures AllDigits(Digits(n)) && Number(Digits(n)) == n
    decreases n
  {
    var last := [(n % 10 + '0' as int) as char];
    if n < 10 {
      assert Digits(n) == last && last[..0] == "";
      assert Number("") == 0;
    } else {
      DigitsRead(n / 10);
      assert Digits(n) == Digits(n / 10) + last;
      assert (Digits(n / 10) + last)[..|Digits(n / 10)|] == Digits(n / 10);
    }
  }

  /** A time that is written out and read again is the same, and its text has no dot. */
  lemma DecimalReads(t: Time)
    ensures ParseInt(Decimal(t)) == t && '.' !in Decimal(t)
  {
    hide Digits, Number;
    DigitsRead(if t < 0 then -t else t);
    if t < 0 {
      assert Decimal(t)[1..] == Digits(-t);
      assert !IsDigit(Decimal(t)[0]);
    }
  }

  // ---- the binding ----

  /** What stands before the first dot, and what follows it if there is one. */
  function Cut(v: string): (string, Option<string>) {
    if v == "" then ("", None)
    else if v[0] == '.' then ("", Some(v[1..]))
    else var (before, after) := Cut(v[1..]); ([v[0]] + before, after)
  }

  function CookieName(cfg: Config, state: string): string {
    cfg.cookiePrefix + Head(cfg.hash(state))
  }

  function Head(h: string): string { if |h| <= 16 then h else h[..16] }

  /** When the sign-in was started, and the binding of its state. */
  function PendingValue(cfg: Config, state: string, at: Time): string {
    Decimal(at) + "." + cfg.hash(state)
  }

  function StartedOf(v: string): Time { ParseInt(Cut(v).0) }

  /** The browser presents the cookie that /login set for this state. */
  predicate IsBound(cfg: Config, cookies: Cookies, state: string) {
    && state != ""
    && CookieName(cfg, state) in cookies
    && Cut(cookies[CookieName(cfg, state)]).1 == Some(cfg.hash(state))
  }

  lemma {:induction false} CutAtFirst(a: string, b: string)
    requires '.' !in a
    ensures Cut(a + "." + b) == (a, Some(b))
  {
    if a == "" {
      assert a + "." + b == "." + b;
    } else {
      assert (a + "." + b)[1..] == a[1..] + "." + b;
      CutAtFirst(a[1..], b);
      assert [a[0]] + a[1..] == a;
    }
  }

  /** What a pending cookie says is what was put into it. */
  lemma ValueReads(cfg: Config, state: string, at: Time)
    ensures Cut(PendingValue(cfg, state, at)).1 == Some(cfg.hash(state)) && StartedOf(PendingValue(cfg, state, at)) == at
  {
    DecimalReads(at);
    CutAtFirst(Decimal(at), cfg.hash(state));
    hide Decimal, Cut, ParseInt;
  }

  // ---- starting a sign-in ----

  /** The pending sign-ins a browser has cookies for. */
  function Open(cfg: Config, jar: Cookies): set<string> {
    set k | k in jar && cfg.cookiePrefix <= k
  }

  /** Of five or more pending sign-ins all but four are dropped, and none that was started after
      one that is kept. */
  predicate Drops(cfg: Config, jar: Cookies, dropped: set<string>) {
    var open := Open(cfg, jar);
    && dropped <= open
    && (if |open| < MAX_PENDING then dropped == {} else |open - dropped| == MAX_PENDING - 1)
    && forall d <- dropped, k <- open - dropped :: StartedOf(jar[d]) <= StartedOf(jar[k])
  }

  function WithPending(cfg: Config, jar: Cookies, dropped: set<string>, state: string, at: Time): Cookies {
    (jar - dropped)[CookieName(cfg, state) := PendingValue(cfg, state, at)]
  }

  datatype Cookie = Cookie(name: string, value: string)

  datatype Pending = Pending(name: string, started: Time)

  /** The cookies of a request, in the order they are sent in; no name is sent twice. */
  predicate NamesOnce(cookies: seq<Cookie>) {
    forall i, j | 0 <= i < j < |cookies| :: cookies[i].name != cookies[j].name
  }

  predicate IsJar(cookies: seq<Cookie>, jar: Cookies) {
    && NamesOnce(cookies)
    && (forall i | 0 <= i < |cookies| :: cookies[i].name in jar && jar[cookies[i].name] == cookies[i].value)
    && (forall k <- jar :: exists i | 0 <= i < |cookies| :: cookies[i].name == k)
  }

  predicate Ordered(open: seq<Pending>) {
    forall i, j | 0 <= i < j < |open| :: open[i].started <= open[j].started
  }

  /** Each pending sign-in once. */
  predicate Distinct(open: seq<Pending>) {
    forall i, j | 0 <= i < j < |open| :: open[i].name != open[j].name
  }

  function Inserted(sorted: seq<Pending>, i: nat, x: Pending): seq<Pending>
    requires i <= |sorted|
  {
    sorted[..i] + [x] + sorted[i..]
  }

  lemma InsertedAt(sorted: seq<Pending>, i: nat, x: Pending, h: int)
    requires i <= |sorted| && 0 <= h <= |sorted|
    ensures |Inserted(sorted, i, x)| == |sorted| + 1
    ensures Inserted(sorted, i, x)[h] == if h < i then sorted[h] else if h == i then x else sorted[h - 1]
  {
  }

  lemma InsertedOrder(sorted: seq<Pending>, i: nat, x: Pending)
    requires Ordered(sorted) && i <= |sorted|
    requires (i > 0 ==> sorted[i - 1].started <= x.started) && (i < |sorted| ==> x.started <= sorted[i].started)
    ensures Ordered(Inserted(sorted, i, x))
  {
    hide Inserted;
    var more := Inserted(sorted, i, x);
    InsertedAt(sorted, i, x, i);
    forall a, b | 0 <= a < b < |more| ensures more[a].started <= more[b].started {
      InsertedAt(sorted, i, x, a);
      InsertedAt(sorted, i, x, b);
    }
  }

  lemma InsertedDistinct(sorted: seq<Pending>, i: nat, x: Pending)
    requires Distinct(sorted) && i <= |sorted| && forall y <- sorted :: y.name != x.name
    ensures Distinct(Inserted(sorted, i, x))
  {
    hide Inserted;
    var more := Inserted(sorted, i, x);
    InsertedAt(sorted, i, x, i);
    forall a, b | 0 <= a < b < |more| ensures more[a].name != more[b].name {
      InsertedAt(sorted, i, x, a);
      InsertedAt(sorted, i, x, b);
    }
  }

  lemma InsertedHas(sorted: seq<Pending>, i: nat, x: Pending)
    requires i <= |sorted|
    ensures forall y :: y in Inserted(sorted, i, x) <==> y in sorted || y == x
  {
    assert forall y :: y in sorted <==> y in sorted[..i] || y in sorted[i..] by { assert sorted == sorted[..i] + sorted[i..]; }
  }

  /** Oldest first. */
  method Sort(open: seq<Pending>) returns (sorted: seq<Pending>)
    requires Distinct(open)
    ensures Ordered(sorted) && Distinct(sorted) && forall x :: x in sorted <==> x in open
  {
    sorted := [];
    for n := 0 to |open|
      invariant Ordered(sorted) && Distinct(sorted) && forall x :: x in sorted <==> x in open[..n]
    {
      var x, i := open[n], |sorted|;
      while i > 0 && x.started < sorted[i - 1].started
        invariant 0 <= i <= |sorted| && (i < |sorted| ==> x.started <= sorted[i].started)
      {
        i := i - 1;
      }
      assert forall y <- open[..n] :: y.name != x.name;
      InsertedOrder(sorted, i, x);
      InsertedDistinct(sorted, i, x);
      InsertedHas(sorted, i, x);
      hide Ordered, Distinct, Inserted;
      assert open[..n + 1] == open[..n] + [x];
      sorted := Inserted(sorted, i, x);
    }
    assert open[..|open|] == open;
  }

  /** The pending sign-ins among the cookies of a request. */
  predicate IsOpen(cfg: Config, cookies: seq<Cookie>, open: seq<Pending>) {
    && Distinct(open)
    && (forall x <- open :: exists c <- cookies :: cfg.cookiePrefix <= c.name && x == Pending(c.name, StartedOf(c.value)))
    && (forall c <- cookies :: cfg.cookiePrefix <= c.name ==> Pending(c.name, StartedOf(c.value)) in open)
  }

  method Collect(cfg: Config, cookies: seq<Cookie>) returns (open: seq<Pending>)
    requires NamesOnce(cookies)
    ensures IsOpen(cfg, cookies, open)
  {
    hide StartedOf;
    open := [];
    for n := 0 to |cookies|
      invariant IsOpen(cfg, cookies[..n], open)
    {
      var c := cookies[n];
      assert cookies[..n + 1] == cookies[..n] + [c];
      assert forall x <- open :: x.name != c.name;
      if cfg.cookiePrefix <= c.name { open := open + [Pending(c.name, StartedOf(c.value))]; }
    }
    assert cookies[..|cookies|] == cookies;
  }

  function Names(open: seq<Pending>): set<string> { set x | x in open :: x.name }

  lemma {:induction false} NamesCount(open: seq<Pending>)
    requires Distinct(open)
    ensures |Names(open)| == |open|
  {
    if open != [] {
      var last := |open| - 1;
      var most, x := open[..last], open[last];
      assert open == most + [x];
      NamesCount(most);
      assert Names(open) == Names(most) + {x.name};
      assert x.name !in Names(most);
    }
  }

  /** Binds a new sign-in to the browser: what happens to the browser's cookies. */
  method StartPending(cfg: Config, cookies: seq<Cookie>, ghost jar: Cookies, state: string, now: Time)
    returns (expired: set<string>, added: Cookie)
    requires IsJar(cookies, jar)
    ensures Drops(cfg, jar, expired) && (jar - expired)[added.name := added.value] == WithPending(cfg, jar, expired, state, now)
  {
    var open := Collect(cfg, cookies);
    var sorted := Sort(open);
    hide *;
    expired := {};
    assert expired == Names(sorted[..0]) by { NoNames(sorted); }
    var n := 0;
    while |sorted| - n >= 5
      invariant 0 <= n <= |sorted| && expired == Names(sorted[..n])
      invariant n == 0 || |sorted| - n >= 4
    {
      NamesGrow(sorted, n);
      expired := expired + {sorted[n].name};
      n := n + 1;
    }
    OldestAreDropped(cfg, cookies, jar, open, sorted, n);
    added := Cookie(CookieName(cfg, state), PendingValue(cfg, state, now));
    IsAdded(cfg, jar, expired, state, now);
  }

  lemma IsAdded(cfg: Config, jar: Cookies, dropped: set<string>, state: string, at: Time)
    ensures (jar - dropped)[CookieName(cfg, state) := PendingValue(cfg, state, at)] == WithPending(cfg, jar, dropped, state, at)
  {
  }

  lemma NoNames(open: seq<Pending>)
    ensures Names(open[..0]) == {}
  {
  }

  lemma NamesGrow(open: seq<Pending>, n: nat)
    requires n < |open|
    ensures Names(open[..n + 1]) == Names(open[..n]) + {open[n].name}
  {
    assert open[..n + 1] == open[..n] + [open[n]];
  }

  /** The sorted names are those of the pending sign-ins, with the times they were started. */
  lemma SortedIsOpen(cfg: Config, cookies: seq<Cookie>, jar: Cookies, open: seq<Pending>, sorted: seq<Pending>)
    requires IsJar(cookies, jar) && IsOpen(cfg, cookies, open) && forall x :: x in sorted <==> x in open
    ensures Names(sorted) == Open(cfg, jar)
    ensures forall x <- sorted :: x.name in jar && x.started == StartedOf(jar[x.name])
  {
    hide StartedOf;
    forall x <- sorted ensures x.name in jar && cfg.cookiePrefix <= x.name && x.started == StartedOf(jar[x.name]) {
      var c :| c in cookies && cfg.cookiePrefix <= c.name && x == Pending(c.name, StartedOf(c.value));
      var i :| 0 <= i < |cookies| && cookies[i] == c;
    }
    forall k <- Open(cfg, jar) ensures k in Names(sorted) {
      var i :| 0 <= i < |cookies| && cookies[i].name == k;
      assert cookies[i] in cookies;
      assert Pending(k, StartedOf(cookies[i].value)) in sorted;
    }
  }

  lemma OldestAreDropped(cfg: Config, cookies: seq<Cookie>, jar: Cookies, open: seq<Pending>, sorted: seq<Pending>, n: nat)
    requires IsJar(cookies, jar) && IsOpen(cfg, cookies, open) && (forall x :: x in sorted <==> x in open)
    requires Ordered(sorted) && Distinct(sorted)
    requires n <= |sorted| && n == (if |sorted| < MAX_PENDING then 0 else |sorted| - (MAX_PENDING - 1))
    ensures Drops(cfg, jar, Names(sorted[..n]))
  {
    hide *;
    SortedIsOpen(cfg, cookies, jar, open, sorted);
    NamesSplit(sorted, n);
    NamesCount(sorted);
    TailIsDistinct(sorted, n);
    NamesCount(sorted[n..]);
    OldestFirst(jar, sorted, n);
    DropsThese(cfg, jar, Names(sorted[..n]), Names(sorted[n..]));
  }

  lemma DropsThese(cfg: Config, jar: Cookies, dropped: set<string>, kept: set<string>)
    requires dropped <= Open(cfg, jar) && Open(cfg, jar) - dropped == kept
    requires if |Open(cfg, jar)| < MAX_PENDING then dropped == {} else |kept| == MAX_PENDING - 1
    requires forall d <- dropped, k <- kept :: d in jar && k in jar && StartedOf(jar[d]) <= StartedOf(jar[k])
    ensures Drops(cfg, jar, dropped)
  {
    hide StartedOf;
  }

  lemma TailIsDistinct(sorted: seq<Pending>, n: nat)
    requires n <= |sorted| && Distinct(sorted)
    ensures Distinct(sorted[n..])
  {
  }

  lemma NamesSplit(sorted: seq<Pending>, n: nat)
    requires n <= |sorted| && Distinct(sorted)
    ensures Names(sorted[..n]) <= Names(sorted) && Names(sorted) - Names(sorted[..n]) == Names(sorted[n..])
    ensures n == 0 ==> Names(sorted[..n]) == {}
  {
    assert forall x <- sorted :: x in sorted[..n] || x in sorted[n..] by { assert sorted == sorted[..n] + sorted[n..]; }
    forall x <- sorted[..n], y <- sorted[n..] ensures x.name != y.name {
      var i :| 0 <= i < n && sorted[..n][i] == x;
      var j :| 0 <= j < |sorted[n..]| && sorted[n..][j] == y;
      assert sorted[i] == x && sorted[n + j] == y;
    }
  }

  lemma OldestFirst(jar: Cookies, sorted: seq<Pending>, n: nat)
    requires n <= |sorted| && Ordered(sorted) && forall x <- sorted :: x.name in jar && x.started == StartedOf(jar[x.name])
    ensures forall d <- Names(sorted[..n]), k <- Names(sorted[n..]) :: d in jar && k in jar && StartedOf(jar[d]) <= StartedOf(jar[k])
  {
    hide StartedOf;
    forall d <- Names(sorted[..n]), k <- Names(sorted[n..]) ensures d in jar && k in jar && StartedOf(jar[d]) <= StartedOf(jar[k]) {
      var x :| x in sorted[..n] && x.name == d;
      var y :| y in sorted[n..] && y.name == k;
      var i :| 0 <= i < n && sorted[..n][i] == x;
      var j :| 0 <= j < |sorted[n..]| && sorted[n..][j] == y;
      assert sorted[i] == x && sorted[n + j] == y;
    }
  }
}
