/** Runs of the vulnerability gate, release after release, each judging by the baseline the
    last recorded run wrote. */
module ReleaseHistory {
  import opened Basics
  import opened VulnBaseline

  /** record and baseline say whether the file is named; a name left out is empty. */
  datatype Flags = Flags(record: bool, release: string, baseline: bool, previous: string, report: bool, initial: bool)

  datatype Run = Run(flags: Flags, policy: Policy, accepted: seq<Acceptance>, now: Seconds, all: seq<Finding>)

  datatype Outcome = Outcome(code: nat, file: Option<File>)

  predicate Recordable(fl: Flags) {
    && !(fl.initial && (!fl.report || !fl.record || fl.baseline))
    && !(fl.record && !fl.baseline && !fl.initial)
  }

  /** The baseline is of the release before this one, or of this one. */
  predicate OfRelease(file: Option<File>, fl: Flags)
    requires fl.baseline ==> file.Some?
  {
    || fl.previous == ""
    || (fl.baseline && (file.value.release == fl.previous || file.value.release == fl.release))
  }

  predicate Starts(file: Option<File>, fl: Flags) {
    && fl.record == (fl.release != "")
    && Recordable(fl)
    && (fl.baseline ==> file.Some? && ReadableFile(file.value))
    && OfRelease(file, fl)
  }

  function TableOf(file: Option<File>): Table {
    if file.Some? then ByKey(file.value.findings) else map[]
  }

  function JudgeOf(file: Option<File>, r: Run): Judge {
    Judge(r.policy, r.accepted, if r.flags.baseline then TableOf(file) else map[], r.now, r.flags.initial)
  }

  predicate AnyLate(j: Judge, all: seq<Finding>) {
    exists f <- all :: Status(j, f).Late?
  }

  predicate Records(file: Option<File>, r: Run) {
    Starts(file, r.flags) && r.flags.record && (!AnyLate(JudgeOf(file, r), r.all) || r.flags.report)
  }

  function Gate(file: Option<File>, r: Run): Outcome {
    if !Starts(file, r.flags) then Outcome(2, file) else
      var j := JudgeOf(file, r);
      Outcome(if AnyLate(j, r.all) then 1 else 0,
              if Records(file, r) then Some(File(r.flags.release, r.now / DAY, Recorded(j, r.all))) else file)
  }

  /** What a run is refused for: a release without a file to record, or the other way round; -initial
      other than on a report that records without a baseline; recording without a baseline
      otherwise; a baseline that is not there or cannot be read; and one of neither release. */
  predicate Refused(file: Option<File>, fl: Flags) {
    || (fl.record && fl.release == "") || (!fl.record && fl.release != "")
    || (fl.initial && (!fl.report || !fl.record || fl.baseline))
    || (fl.record && !fl.baseline && !fl.initial)
    || (fl.baseline && file.None?)
    || (fl.baseline && file.value.release == "")
    || (fl.baseline && exists e <- file.value.findings :: Unusable(e))
    || (fl.previous != "" && !fl.baseline)
    || (fl.previous != "" && file.value.release != fl.previous && file.value.release != fl.release)
  }

  predicate Unusable(e: Entry) {
    || e.key.component == "" || e.key.pkg == "" || e.key.id == ""
    || e.state.UnknownState? || e.due.Garbled?
  }

  /** A run exits with 2 exactly when it is refused, else with 1 exactly when one of its findings
      must fail it. The baseline file changes exactly when the run is to record and passes or
      is a report. */
  lemma GateIff(file: Option<File>, r: Run)
    ensures var out := Gate(file, r);
            var j := JudgeOf(file, r);
            var fails := exists f <- r.all :: MustFail(j, f);
            && (out.code == 2 <==> Refused(file, r.flags))
            && (out.code == 1 <==> !Refused(file, r.flags) && fails)
            && (out.code == 0 <==> !Refused(file, r.flags) && !fails)
            && out.file == if !Refused(file, r.flags) && r.flags.record && (!fails || r.flags.report)
                           then Some(File(r.flags.release, r.now / DAY, Recorded(j, r.all))) else file
  {
    var j := JudgeOf(file, r);
    forall f <- r.all ensures Status(j, f).Late? <==> MustFail(j, f) { LateIff(j, f); }
    hide Status, MustFail, Recorded, JudgeOf;
    RefusedIff(file, r.flags);
    hide Refused, Starts;
  }

  lemma RefusedIff(file: Option<File>, fl: Flags)
    ensures Refused(file, fl) <==> !Starts(file, fl)
  {
    if fl.baseline && file.Some? {
      var entries := file.value.findings;
      assert forall e :: Readable(e) <==> !Unusable(e);
      hide Readable, Unusable;
      assert forall i | 0 <= i < |entries| :: entries[i] in entries;
    }
  }

  function Exec(file: Option<File>, runs: seq<Run>): Option<File>
    decreases |runs|
  {
    if runs == [] then file else Exec(Gate(file, runs[0]).file, runs[1..])
  }

  predicate NoInitial(runs: seq<Run>) {
    forall i :: 0 <= i < |runs| ==> !runs[i].flags.initial
  }

  predicate IsInherited(t: Table, k: Key) { k in t && t[k].state.Inherited? }

  // ---- one recorded run ----

  /** What was recorded under a key: the entry of a finding. */
  lemma RecordedUnder(j: Judge, all: seq<Finding>, k: Key) returns (f: Finding)
    requires WellKeyed(j.baseline) && k in ByKey(Recorded(j, all))
    ensures f in all && f.component != "" && ByKey(Recorded(j, all))[k] == EntryFor(j, f)
    ensures EntryFor(j, f).key == k
    ensures k in j.baseline ==> LookupIn(j.baseline, f) == Some(j.baseline[k])
    ensures k !in j.baseline ==> LookupIn(j.baseline, f).None?
  {
    var e := ByKey(Recorded(j, all))[k];
    ByKeyHolds(Recorded(j, all));
    RecordedExactly(j, all, e);
    var i :| First(j, all, i) && e == EntryFor(j, all[i]);
    f := all[i];
    FoundIsOwn(j.baseline, f);
  }

  /** What may change in an entry that stays: a new one without a due date may get one. */
  predicate Keeps(e: Entry, later: Entry) {
    later == e || (e.state.New? && e.due.NoDue? && later == e.(due := later.due) && later.due.On?)
  }

  /** An entry of the baseline that is recorded again keeps its state, first day and due date;
      any other is new. */
  lemma RecordKeeps(j: Judge, all: seq<Finding>, k: Key)
    requires WellKeyed(j.baseline) && !j.initial && k in ByKey(Recorded(j, all))
    ensures k in j.baseline ==> Keeps(j.baseline[k], ByKey(Recorded(j, all))[k])
    ensures k !in j.baseline ==>
              var e := ByKey(Recorded(j, all))[k];
              e.state.New? && e.firstSeen == Some(j.now / DAY)
  {
    var f := RecordedUnder(j, all, k);
    hide ByKey, Recorded, Find;
  }

  /** Exactly the inherited entries a third-party finding still resolves to stay inherited. */
  lemma InheritedAfter(j: Judge, all: seq<Finding>, k: Key)
    requires WellKeyed(j.baseline) && !j.initial
    ensures IsInherited(ByKey(Recorded(j, all)), k) <==>
            && IsInherited(j.baseline, k)
            && exists f <- all :: f.component != "" && LookupIn(j.baseline, f) == Some(j.baseline[k])
  {
    hide EntryFor, Recorded, ByKey, Find;
    var out := Recorded(j, all);
    if k in ByKey(out) {
      RecordKeeps(j, all, k);
      var f := RecordedUnder(j, all, k);
    }
    if IsInherited(j.baseline, k) {
      if f :| f in all && f.component != "" && LookupIn(j.baseline, f) == Some(j.baseline[k]) {
        assert EntryFor(j, f).key == k by { KnownKey(j, f); }
        RecordedStands(j, all);
        ByKeyHolds(out);
      }
    }
  }

  lemma KnownKey(j: Judge, f: Finding)
    requires WellKeyed(j.baseline)
    ensures var known := LookupIn(j.baseline, f);
            EntryFor(j, f).key == if known.Some? then known.value.key else Key(f.component, f.pkg, f.id)
  {
  }

  lemma EntryReadable(j: Judge, f: Finding)
    requires WellKeyed(j.baseline) && (forall k <- j.baseline :: Readable(j.baseline[k])) && f.component != ""
    ensures Readable(EntryFor(j, f)) <==> LookupIn(j.baseline, f).Some? || (f.pkg != "" && f.id != "")
  {
    FoundIsOwn(j.baseline, f);
    hide Find;
  }

  /** Reading what was recorded gives back exactly the recorded entries. */
  lemma RecordThenRead(j: Judge, all: seq<Finding>, e: Entry)
    ensures e in Recorded(j, all) <==> e.key in ByKey(Recorded(j, all)) && ByKey(Recorded(j, all))[e.key] == e
  {
    ByKeyHolds(Recorded(j, all));
    RecordedExactly(j, all, e);
  }

  /** What was recorded can be read unless a finding the baseline does not have lacks its
      package or id. */
  lemma RecordedReadsIff(j: Judge, release: string, all: seq<Finding>)
    requires release != "" && WellKeyed(j.baseline) && forall k <- j.baseline :: Readable(j.baseline[k])
    ensures ReadableFile(File(release, j.now / DAY, Recorded(j, all))) <==>
            forall f <- all :: f.component != "" && LookupIn(j.baseline, f).None? ==> f.pkg != "" && f.id != ""
  {
    hide EntryFor, Recorded, Find;
    var out := Recorded(j, all);
    RecordedStands(j, all);
    if forall f <- all :: f.component != "" && LookupIn(j.baseline, f).None? ==> f.pkg != "" && f.id != "" {
      forall i | 0 <= i < |out| ensures Readable(out[i]) {
        assert Stands(j, all, out[i]);
        var h :| First(j, all, h) && out[i] == EntryFor(j, all[h]);
        EntryReadable(j, all[h]);
      }
    }
    if ReadableFile(File(release, j.now / DAY, out)) {
      forall f <- all | f.component != "" && LookupIn(j.baseline, f).None? ensures f.pkg != "" && f.id != "" {
        KnownKey(j, f);
        var e :| e in out && e.key == EntryFor(j, f).key;
        assert Readable(e);
      }
    }
  }

  // ---- whole histories ----

  lemma TableIsKeyed(file: Option<File>)
    ensures WellKeyed(TableOf(file))
  {
    if file.Some? { ByKeyHolds(file.value.findings); }
  }

  lemma JudgeIsKeyed(file: Option<File>, r: Run)
    ensures WellKeyed(JudgeOf(file, r).baseline)
  {
    TableIsKeyed(file);
  }

  lemma GateShrinks(file: Option<File>, r: Run, k: Key)
    requires !r.flags.initial && IsInherited(TableOf(Gate(file, r).file), k)
    ensures IsInherited(TableOf(file), k)
  {
    JudgeIsKeyed(file, r);
    if Records(file, r) { InheritedAfter(JudgeOf(file, r), r.all, k); }
  }

  /** Over any history without -initial the inherited keys only shrink. */
  lemma {:induction false} InheritedOnlyShrinks(file: Option<File>, runs: seq<Run>, k: Key)
    requires NoInitial(runs) && IsInherited(TableOf(Exec(file, runs)), k)
    ensures IsInherited(TableOf(file), k)
    decreases |runs|
  {
    hide Gate, TableOf;
    if runs != [] {
      InheritedOnlyShrinks(Gate(file, runs[0]).file, runs[1..], k);
      GateShrinks(file, runs[0], k);
    }
  }

  /** Nothing is ever recorded before a run with -initial. */
  lemma {:induction false} NothingBeforeInitial(runs: seq<Run>)
    requires NoInitial(runs)
    ensures Exec(None, runs) == None
    decreases |runs|
  {
    if runs != [] { NothingBeforeInitial(runs[1..]); }
  }

  /** The third-party findings of a report without baseline, recorded as the first one. */
  predicate Declares(r: Run, k: Key) {
    && r.flags.initial && r.flags.report && r.flags.record && !r.flags.baseline
    && exists f <- r.all :: f.component != "" && k == Key(f.component, f.pkg, f.id)
  }

  lemma GateDeclares(file: Option<File>, r: Run, k: Key)
    requires IsInherited(TableOf(Gate(file, r).file), k)
    ensures IsInherited(TableOf(file), k) || Declares(r, k)
  {
    if !r.flags.initial {
      GateShrinks(file, r, k);
    } else if Records(file, r) {
      JudgeIsKeyed(file, r);
      var j := JudgeOf(file, r);
      var f := RecordedUnder(j, r.all, k);
      KnownKey(j, f);
    }
  }

  /** Whatever is inherited at the end of a history that began without a baseline was found
      by one of its -initial reports. */
  lemma {:induction false} InheritedWasDeclared(file: Option<File>, runs: seq<Run>, k: Key)
    requires IsInherited(TableOf(Exec(file, runs)), k)
    ensures IsInherited(TableOf(file), k) || exists i :: 0 <= i < |runs| && Declares(runs[i], k)
    decreases |runs|
  {
    hide Gate, TableOf, Declares;
    if runs != [] {
      InheritedWasDeclared(Gate(file, runs[0]).file, runs[1..], k);
      if IsInherited(TableOf(Gate(file, runs[0]).file), k) {
        GateDeclares(file, runs[0], k);
      } else {
        var i :| 0 <= i < |runs[1..]| && Declares(runs[1..][i], k);
        assert runs[i + 1] == runs[1..][i];
      }
    }
  }

  /** The key is in the file after each of the runs. */
  predicate Stays(file: Option<File>, runs: seq<Run>, k: Key)
    decreases |runs|
  {
    k in TableOf(file) && (runs != [] ==> Stays(Gate(file, runs[0]).file, runs[1..], k))
  }

  lemma GateKeeps(file: Option<File>, r: Run, k: Key)
    requires !r.flags.initial && k in TableOf(file) && k in TableOf(Gate(file, r).file)
    ensures Keeps(TableOf(file)[k], TableOf(Gate(file, r).file)[k])
  {
    JudgeIsKeyed(file, r);
    if Records(file, r) { RecordKeeps(JudgeOf(file, r), r.all, k); }
  }

  /** While an entry stays, its state, first day and due date stay; only a due date that is
      still missing can be added. */
  lemma {:induction false} EntryIsKept(file: Option<File>, runs: seq<Run>, k: Key)
    requires NoInitial(runs) && Stays(file, runs, k)
    ensures k in TableOf(Exec(file, runs)) && Keeps(TableOf(file)[k], TableOf(Exec(file, runs))[k])
    decreases |runs|
  {
    hide Gate, TableOf;
    if runs != [] {
      EntryIsKept(Gate(file, runs[0]).file, runs[1..], k);
      assert k in TableOf(Gate(file, runs[0]).file);
      GateKeeps(file, runs[0], k);
    }
  }

  /** A due date once recorded binds every later gate: from that day on a fixed, unaccepted
      finding that resolves to the entry is late, so the gate fails and, unless it is a report,
      records nothing. */
  lemma DueDateBinds(file: Option<File>, runs: seq<Run>, k: Key, r: Run, f: Finding)
    requires NoInitial(runs) && Stays(file, runs, k)
    requires var e := TableOf(file)[k]; e.state.New? && e.due.On? && 0 < e.due.day && r.now >= e.due.day * DAY
    requires var last := Exec(file, runs);
             && Starts(last, r.flags) && r.flags.baseline
             && f in r.all && f.component != "" && f.fixed && Uncovered(JudgeOf(last, r), f)
             && k in TableOf(last) && LookupIn(TableOf(last), f) == Some(TableOf(last)[k])
    ensures var last := Exec(file, runs);
            && TableOf(last)[k] == TableOf(file)[k]
            && Gate(last, r).code == 1
            && (!r.flags.report ==> Gate(last, r).file == last)
  {
    EntryIsKept(file, runs, k);
    hide Exec, Stays, Find, TableOf;
    var j := JudgeOf(Exec(file, runs), r);
    LateIff(j, f);
    hide Status, Uncovered;
    assert AnyLate(j, r.all);
  }

  // ---- starting out ----

  lemma InitialRecords(j: Judge, all: seq<Finding>, f: Finding)
    requires j.initial && j.baseline == map[] && f in all && f.component != ""
    ensures IsInherited(ByKey(Recorded(j, all)), Key(f.component, f.pkg, f.id))
  {
    hide Recorded, ByKey, EntryFor, Find;
    var k := Key(f.component, f.pkg, f.id);
    var out := Recorded(j, all);
    assert EntryFor(j, f).key == k by { KnownKey(j, f); }
    RecordedStands(j, all);
    ByKeyHolds(out);
    var e :| e in out && e.key == k;
    var g := RecordedUnder(j, all, k);
    InitialIsInherited(j, g);
  }

  lemma InitialIsInherited(j: Judge, f: Finding)
    requires j.initial && j.baseline == map[]
    ensures EntryFor(j, f).state.Inherited?
  {
  }

  /** What a first report found and nobody exploits passes every gate after it: the next gate
      on the same third-party findings, at any time and by any policy, exits 0 and keeps them
      all inherited. */
  lemma AdoptedDebtPasses(first: Run, next: Run)
    requires Starts(None, first.flags) && first.flags.initial && next.all == first.all
    requires next.flags.baseline && next.flags.record && next.flags.release != "" && !next.flags.initial
    requires next.flags.previous == "" || next.flags.previous == first.flags.release
    requires forall f <- first.all :: f.component != "" && f.pkg != "" && f.id != "" && !f.exploited
    ensures var file := Gate(None, first).file;
            && file.Some?
            && Gate(file, next).code == 0
            && forall f <- next.all :: IsInherited(TableOf(Gate(file, next).file), Key(f.component, f.pkg, f.id))
  {
    var j := JudgeOf(None, first);
    var file := Gate(None, first).file;
    RecordedReadsIff(j, first.flags.release, first.all);
    var j' := JudgeOf(file, next);
    TableIsKeyed(file);
    forall f <- next.all ensures !Status(j', f).Late? && IsInherited(j'.baseline, Key(f.component, f.pkg, f.id)) {
      InitialRecords(j, first.all, f);
      FoundIsOwn(j'.baseline, f);
      LateIff(j', f);
    }
    hide Status, Recorded, ByKey, Find, EntryFor;
    forall f <- next.all ensures IsInherited(TableOf(Gate(file, next).file), Key(f.component, f.pkg, f.id)) {
      FoundIsOwn(j'.baseline, f);
      InheritedAfter(j', next.all, Key(f.component, f.pkg, f.id));
    }
  }
}
