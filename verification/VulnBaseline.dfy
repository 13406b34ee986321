/** The vulnerability gate's baseline: how a finding is judged, how the findings of a release
    are recorded and read back. Times count seconds from Go's zero time, so 0 is a time that
    IsZero; durations are not negative. */
module VulnBaseline {
  import opened Basics

  type Seconds = nat

  const DAY := 86_400

  datatype EntryState = Inherited | New | UnknownState

  /** A due date as the file holds it: left out, a day, or text that is no date. */
  datatype Due = NoDue | On(day: nat) | Garbled

  datatype Key = Key(component: string, pkg: string, id: string)

  datatype Entry = Entry(key: Key, state: EntryState, firstSeen: Option<nat>, due: Due)

  datatype File = File(release: string, recorded: nat, findings: seq<Entry>)

  type Table = map<Key, Entry>

  /** severity is in lower case; component is empty for what we own. */
  datatype Finding = Finding(component: string, pkg: string, id: string, aliases: seq<string>, image: string,
                             severity: string, exploited: bool, fixed: bool, fixedSince: Seconds)

  datatype Policy = Policy(exploited: nat, inheritedExploited: nat, severity: map<string, nat>)

  datatype Acceptance = Acceptance(id: string, pkg: string, image: Option<string>, until: Seconds)

  /** baseline is empty for a run without one. */
  datatype Judge = Judge(policy: Policy, accepted: seq<Acceptance>, baseline: Table, now: Seconds, initial: bool)

  datatype Verdict = Passes | Tracked | Late

  // ---- reading ----

  predicate Complete(e: Entry) {
    e.key.component != "" && e.key.pkg != "" && e.key.id != "" && (e.state.Inherited? || e.state.New?)
  }

  predicate Readable(e: Entry) { Complete(e) && !e.due.Garbled? }

  predicate ReadableFile(file: File) {
    file.release != "" && forall i :: 0 <= i < |file.findings| ==> Readable(file.findings[i])
  }

  /** The entries by key; the last one of a key counts. */
  function ByKey(entries: seq<Entry>): Table {
    if entries == [] then map[] else
      var e := entries[|entries| - 1];
      ByKey(entries[..|entries| - 1])[e.key := e]
  }

  predicate KeysOnce(entries: seq<Entry>) {
    forall a, b :: 0 <= a < b < |entries| ==> entries[a].key != entries[b].key
  }

  /** The table holds an entry of each key there is; the only one, where keys are not repeated. */
  lemma {:induction false} ByKeyHolds(entries: seq<Entry>)
    ensures forall k <- ByKey(entries) :: ByKey(entries)[k] in entries && ByKey(entries)[k].key == k
    ensures forall e <- entries :: e.key in ByKey(entries)
    ensures KeysOnce(entries) ==> forall e <- entries :: ByKey(entries)[e.key] == e
  {
    if entries != [] {
      var most, e := entries[..|entries| - 1], entries[|entries| - 1];
      ByKeyHolds(most);
      forall x <- entries ensures x.key in ByKey(entries) {
        assert x == e || x in most;
      }
      if KeysOnce(entries) {
        assert KeysOnce(most);
        forall x <- entries ensures ByKey(entries)[x.key] == x {
          var a :| 0 <= a < |entries| && entries[a] == x;
          if a < |most| { assert x == most[a] && x in most; }
        }
      }
    }
  }

  /** The time a recorded due date stands for: its first instant; 0 when there is none. */
  function DueTime(due: Due): Seconds {
    if due.On? then due.day * DAY else 0
  }

  method ReadBaseline(file: File) returns (table: Option<Table>)
    ensures table == if ReadableFile(file) then Some(ByKey(file.findings)) else None
  {
    if file.release == "" { return None; }
    var byKey: Table := map[];
    for i := 0 to |file.findings|
      invariant forall h :: 0 <= h < i ==> Readable(file.findings[h])
      invariant byKey == ByKey(file.findings[..i])
    {
      var e := file.findings[i];
      if !Complete(e) { return None; }
      if e.due.Garbled? { return None; }
      assert file.findings[..i + 1][..i] == file.findings[..i];
      byKey := byKey[e.key := e];
    }
    assert file.findings[..|file.findings|] == file.findings;
    return Some(byKey);
  }

  // ---- looking up ----

  function Ids(f: Finding): seq<string> { [f.id] + f.aliases }

  /** The first of the ids the table has an entry for. */
  function Find(t: Table, f: Finding, ids: seq<string>): (e: Option<Entry>)
    ensures e.Some? ==> exists i :: 0 <= i < |ids| && Key(f.component, f.pkg, ids[i]) in t
                                    && e.value == t[Key(f.component, f.pkg, ids[i])]
                                    && forall h :: 0 <= h < i ==> Key(f.component, f.pkg, ids[h]) !in t
    ensures e.None? ==> forall id <- ids :: Key(f.component, f.pkg, id) !in t
  {
    if ids == [] then None
    else if Key(f.component, f.pkg, ids[0]) in t then Some(t[Key(f.component, f.pkg, ids[0])])
    else
      var e := Find(t, f, ids[1..]);
      assert e.Some? ==>
        exists i :: 0 <= i < |ids[1..]| && Key(f.component, f.pkg, ids[1..][i]) in t
                    && e.value == t[Key(f.component, f.pkg, ids[1..][i])]
                    && forall h :: 0 <= h < i + 1 ==> Key(f.component, f.pkg, ids[h]) !in t;
      e
  }

  function LookupIn(t: Table, f: Finding): Option<Entry> { Find(t, f, Ids(f)) }

  method Lookup(t: Table, f: Finding) returns (e: Option<Entry>)
    ensures e == LookupIn(t, f)
  {
    var ids := [f.id] + f.aliases;
    for i := 0 to |ids|
      invariant LookupIn(t, f) == Find(t, f, ids[i..])
    {
      var k := Key(f.component, f.pkg, ids[i]);
      if k in t { return Some(t[k]); }
      assert ids[i..][1..] == ids[i + 1..];
    }
    return None;
  }

  predicate WellKeyed(t: Table) { forall k <- t :: t[k].key == k }

  /** A found entry is the finding's own: its component and package, under its id or an alias. */
  lemma FoundIsOwn(t: Table, f: Finding)
    requires WellKeyed(t)
    ensures var e := LookupIn(t, f);
            && (e.Some? ==> e.value.key in t && t[e.value.key] == e.value && e.value.key.id in Ids(f)
                            && e.value.key == Key(f.component, f.pkg, e.value.key.id))
            && (Key(f.component, f.pkg, f.id) in t ==> e == Some(t[Key(f.component, f.pkg, f.id)]))
  {
  }

  // ---- judging ----

  predicate Accepted(j: Judge, f: Finding) {
    exists a <- j.accepted ::
      a.id == f.id && a.pkg == f.pkg && j.now < a.until && (a.image.None? || a.image.value == f.image)
  }

  function Deadline(p: Policy, f: Finding): nat {
    if f.exploited then p.exploited
    else if f.severity in p.severity then p.severity[f.severity]
    else if "unknown" in p.severity then p.severity["unknown"]
    else 0
  }

  /** The deadline counted from the package's fix, when its date is known. */
  function LibraryDue(p: Policy, f: Finding): Option<Seconds> {
    if f.fixedSince == 0 then None else Some(f.fixedSince + Deadline(p, f))
  }

  function DeadlineState(now: Seconds, due: Option<Seconds>): Verdict {
    if due.None? || now >= due.value then Late else Passes
  }

  function InheritedStatus(j: Judge, f: Finding): Verdict {
    if f.exploited && f.fixedSince == 0 then DeadlineState(j.now, None)
    else if f.exploited && j.now >= f.fixedSince + j.policy.inheritedExploited then
      DeadlineState(j.now, Some(f.fixedSince + j.policy.inheritedExploited))
    else Tracked
  }

  function Status(j: Judge, f: Finding): Verdict {
    if Accepted(j, f) || !f.fixed then Passes
    else if f.component == "" then DeadlineState(j.now, LibraryDue(j.policy, f))
    else
      var e := LookupIn(j.baseline, f);
      if j.initial || (e.Some? && e.value.state.Inherited?) then InheritedStatus(j, f)
      else
        var due := LibraryDue(j.policy, f);
        var kept := if e.Some? then DueTime(e.value.due) else 0;
        DeadlineState(j.now, if kept != 0 && (due.None? || kept < due.value) then Some(kept) else due)
  }

  /** No acceptance covers the finding: each one of its id and package is over, or is for another
      image. */
  predicate Uncovered(j: Judge, f: Finding) {
    forall a <- j.accepted | a.id == f.id && a.pkg == f.pkg ::
      a.until <= j.now || (a.image.Some? && a.image.value != f.image)
  }

  /** The time the policy gives has passed since the fix: that of an exploited finding whatever its
      severity, else that of its severity, of "unknown" if the policy does not list it, and
      none if it does not list that either. */
  predicate PastFixDate(p: Policy, f: Finding, now: Seconds) {
    && (f.exploited ==> f.fixedSince + p.exploited <= now)
    && (!f.exploited && f.severity in p.severity ==> f.fixedSince + p.severity[f.severity] <= now)
    && (!f.exploited && f.severity !in p.severity && "unknown" in p.severity ==>
          f.fixedSince + p.severity["unknown"] <= now)
    && (!f.exploited && f.severity !in p.severity && "unknown" !in p.severity ==> f.fixedSince <= now)
  }

  /** Taken over with the component: everything a first report finds, and what the baseline says. */
  predicate TakenOver(j: Judge, f: Finding) {
    f.component != "" && (j.initial || (LookupIn(j.baseline, f).Some? && LookupIn(j.baseline, f).value.state.Inherited?))
  }

  /** The baseline keeps a due date for the finding, and it has come if `come`. */
  predicate KeptDate(j: Judge, f: Finding, come: bool) {
    var e := LookupIn(j.baseline, f);
    f.component != "" && e.Some? && e.value.due.On? && e.value.due.day != 0 && (come ==> e.value.due.day * DAY <= j.now)
  }

  /** What fails a run. A finding that has no fix, or that an acceptance covers, never does. One
      taken over with its component only when it is exploited. Any other at the earlier of its
      two dates, the kept and the counted one, and at once while there is neither. */
  predicate MustFail(j: Judge, f: Finding) {
    && f.fixed && Uncovered(j, f)
    && if TakenOver(j, f) then
         f.exploited && (f.fixedSince == 0 || f.fixedSince + j.policy.inheritedExploited <= j.now)
       else
         || (!KeptDate(j, f, false) && f.fixedSince == 0)
         || KeptDate(j, f, true)
         || (f.fixedSince != 0 && PastFixDate(j.policy, f, j.now))
  }

  lemma LateIff(j: Judge, f: Finding)
    ensures Status(j, f).Late? <==> MustFail(j, f)
    ensures Status(j, f).Tracked? <==> f.fixed && Uncovered(j, f) && TakenOver(j, f) && !MustFail(j, f)
  {
    hide Find;
    assert Accepted(j, f) <==> !Uncovered(j, f);
  }

  // ---- recording ----

  /** The entry that stands for a third-party finding in the next baseline. */
  function EntryFor(j: Judge, f: Finding): Entry {
    var known := LookupIn(j.baseline, f);
    var e := if known.Some? then known.value
             else if j.initial then Entry(Key(f.component, f.pkg, f.id), Inherited, None, NoDue)
             else Entry(Key(f.component, f.pkg, f.id), New, Some(j.now / DAY), NoDue);
    var due := LibraryDue(j.policy, f);
    if e.state.New? && e.due.NoDue? && due.Some? then e.(due := On(due.value / DAY)) else e
  }

  predicate HasKey(entries: seq<Entry>, k: Key) { exists e <- entries :: e.key == k }

  function Recorded(j: Judge, all: seq<Finding>): seq<Entry> {
    if all == [] then [] else
      var out := Recorded(j, all[..|all| - 1]);
      var f := all[|all| - 1];
      if f.component == "" || HasKey(out, EntryFor(j, f).key) then out else out + [EntryFor(j, f)]
  }

  method Record(j: Judge, release: string, all: seq<Finding>) returns (file: File)
    ensures file == File(release, j.now / DAY, Recorded(j, all))
  {
    var findings: seq<Entry> := [];
    var seen: set<Key> := {};
    for i := 0 to |all|
      invariant findings == Recorded(j, all[..i])
      invariant forall k :: k in seen <==> HasKey(findings, k)
    {
      assert all[..i + 1][..i] == all[..i];
      var f := all[i];
      if f.component == "" { continue; }
      var known := Lookup(j.baseline, f);
      var e;
      if known.Some? {
        e := known.value;
      } else {
        e := Entry(Key(f.component, f.pkg, f.id), New, Some(j.now / DAY), NoDue);
        if j.initial {
          e := Entry(Key(f.component, f.pkg, f.id), Inherited, None, NoDue);
        }
      }
      if e.state.New? && e.due.NoDue? {
        var due := LibraryDue(j.policy, f);
        if due.Some? { e := e.(due := On(due.value / DAY)); }
      }
      assert e == EntryFor(j, f);
      if e.key !in seen {
        SeenGrows(findings, seen, e);
        seen := seen + {e.key};
        findings := findings + [e];
      }
    }
    assert all[..|all|] == all;
    return File(release, j.now / DAY, findings);
  }

  lemma HasKeyGrows(entries: seq<Entry>, e: Entry, k: Key)
    ensures HasKey(entries + [e], k) <==> HasKey(entries, k) || e.key == k
  {
    assert (entries + [e])[|entries|] == e;
    if HasKey(entries, k) {
      var x :| x in entries && x.key == k;
      assert x in entries + [e];
    }
  }

  lemma SeenGrows(entries: seq<Entry>, seen: set<Key>, e: Entry)
    requires forall k :: k in seen <==> HasKey(entries, k)
    ensures forall k :: k in seen + {e.key} <==> HasKey(entries + [e], k)
  {
    forall k ensures HasKey(entries + [e], k) <==> HasKey(entries, k) || k == e.key {
      HasKeyGrows(entries, e, k);
    }
  }

  /** all[i] is the first third-party finding its entry stands for. */
  predicate First(j: Judge, all: seq<Finding>, i: int) {
    && 0 <= i < |all| && all[i].component != ""
    && forall h :: 0 <= h < i && all[h].component != "" ==> EntryFor(j, all[h]).key != EntryFor(j, all[i]).key
  }

  ghost predicate Stands(j: Judge, all: seq<Finding>, e: Entry) {
    exists i :: First(j, all, i) && e == EntryFor(j, all[i])
  }

  /** The last finding is the first of its key just when the others recorded no such key. */
  lemma LastIsFirst(j: Judge, most: seq<Finding>, f: Finding)
    requires forall e <- Recorded(j, most) :: Stands(j, most, e)
    requires forall i :: 0 <= i < |most| && most[i].component != "" ==>
               HasKey(Recorded(j, most), EntryFor(j, most[i]).key)
    ensures First(j, most + [f], |most|) <==>
            f.component != "" && !HasKey(Recorded(j, most), EntryFor(j, f).key)
  {
    hide EntryFor, Recorded;
    var all := most + [f];
    if f.component != "" && !HasKey(Recorded(j, most), EntryFor(j, f).key) {
      forall h | 0 <= h < |most| && all[h].component != ""
        ensures EntryFor(j, all[h]).key != EntryFor(j, f).key
      {
        assert all[h] == most[h];
      }
    } else if f.component != "" {
      var e :| e in Recorded(j, most) && e.key == EntryFor(j, f).key;
      var i :| First(j, most, i) && e == EntryFor(j, most[i]);
      assert all[i] == most[i];
    }
  }

  lemma StandsGrows(j: Judge, most: seq<Finding>, f: Finding, e: Entry)
    ensures Stands(j, most + [f], e) <==>
            Stands(j, most, e) || (First(j, most + [f], |most|) && e == EntryFor(j, f))
  {
    hide EntryFor;
    var all := most + [f];
    assert forall i :: 0 <= i < |most| ==> all[i] == most[i];
    if Stands(j, most, e) {
      var i :| First(j, most, i) && e == EntryFor(j, most[i]);
      assert First(j, all, i);
    }
    if Stands(j, all, e) {
      var i :| First(j, all, i) && e == EntryFor(j, all[i]);
      assert i < |most| ==> First(j, most, i);
    }
  }

  lemma {:induction false} RecordedStands(j: Judge, all: seq<Finding>)
    ensures forall e <- Recorded(j, all) :: Stands(j, all, e)
    ensures forall i :: 0 <= i < |all| && all[i].component != "" ==> HasKey(Recorded(j, all), EntryFor(j, all[i]).key)
  {
    if all != [] {
      var most, f := all[..|all| - 1], all[|all| - 1];
      RecordedStands(j, most);
      LastIsFirst(j, most, f);
      hide EntryFor, First, Stands;
      assert all == most + [f];
      var was, now := Recorded(j, most), Recorded(j, all);
      forall e <- now ensures Stands(j, all, e) {
        StandsGrows(j, most, f, e);
      }
      forall i | 0 <= i < |all| && all[i].component != "" ensures HasKey(now, EntryFor(j, all[i]).key) {
        assert all[i] == f || all[i] == most[i];
        HasKeyGrows(was, EntryFor(j, f), EntryFor(j, all[i]).key);
      }
    }
  }

  /** Every third-party finding has its entry's key recorded, each key once, with the entry of
      the first finding that has it; nothing else is recorded. */
  lemma {:induction false} RecordedExactly(j: Judge, all: seq<Finding>, e: Entry)
    ensures e in Recorded(j, all) <==> Stands(j, all, e)
    ensures KeysOnce(Recorded(j, all))
  {
    RecordedStands(j, all);
    if all != [] {
      var most, f := all[..|all| - 1], all[|all| - 1];
      RecordedExactly(j, most, e);
      RecordedStands(j, most);
      LastIsFirst(j, most, f);
      StandsGrows(j, most, f, e);
      hide EntryFor, First, Stands;
      assert all == most + [f];
    }
  }
}
