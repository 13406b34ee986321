/** A gate that passed and recorded, run again with the same arguments on the baseline it recorded. */
module ReleaseReruns {
  import opened Basics
  import opened VulnBaseline
  import opened ReleaseHistory

  // ---- what a rerun judges a finding by ----

  /** The first third-party finding whose entry has the key: the one that records it. */
  function Recorder(j: Judge, all: seq<Finding>, k: Key): Option<Finding> {
    if all == [] then None
    else if all[0].component != "" && EntryFor(j, all[0]).key == k then Some(all[0])
    else Recorder(j, all[1..], k)
  }

  /** The finding that records the entry a rerun looks f up in: the first of f's ids counts that
      any finding records. */
  function RecorderFor(j: Judge, all: seq<Finding>, f: Finding, ids: seq<string>): Option<Finding> {
    if ids == [] then None
    else
      var g := Recorder(j, all, Key(f.component, f.pkg, ids[0]));
      if g.Some? then g else RecorderFor(j, all, f, ids[1..])
  }

  /** Whether g's entry is inherited. */
  predicate RecordsInherited(j: Judge, g: Finding) {
    LookupIn(j.baseline, g).Some? && LookupIn(j.baseline, g).value.state.Inherited?
  }

  /** The due date g records, as it is read back: the one its entry has, or else the first instant
      of the day it falls due on; 0 when there is none. */
  function RecordedDue(j: Judge, g: Finding): Seconds {
    var known, due := LookupIn(j.baseline, g), LibraryDue(j.policy, g);
    if known.Some? && (!known.value.state.New? || !known.value.due.NoDue?) then DueTime(known.value.due)
    else if due.Some? then due.value / DAY * DAY
    else 0
  }

  /** What makes a third-party finding fail a rerun: it is fixed and not accepted, and by the entry
      recorded for it it is inherited, exploited and past that deadline; or new and without any
      date, past the recorded date, or past the date counted from its fix. */
  predicate FailsAgain(j: Judge, all: seq<Finding>, f: Finding) {
    var g := RecorderFor(j, all, f, Ids(f));
    && f.component != "" && f.fixed && Uncovered(j, f) && g.Some?
    && if RecordsInherited(j, g.value) then
         f.exploited && (f.fixedSince == 0 || j.now >= f.fixedSince + j.policy.inheritedExploited)
       else
         var kept := RecordedDue(j, g.value);
         || (kept == 0 && f.fixedSince == 0)
         || (kept != 0 && j.now >= kept)
         || (f.fixedSince != 0 && PastFixDate(j.policy, f, j.now))
  }

  lemma {:induction false} RecorderIs(j: Judge, all: seq<Finding>, k: Key)
    ensures var g := Recorder(j, all, k);
            && (g.Some? ==> EntryFor(j, g.value).key == k && Stands(j, all, EntryFor(j, g.value)))
            && (g.None? ==> forall i :: 0 <= i < |all| && all[i].component != "" ==> EntryFor(j, all[i]).key != k)
  {
    hide EntryFor;
    if all != [] {
      if all[0].component != "" && EntryFor(j, all[0]).key == k {
        assert First(j, all, 0);
      } else {
        RecorderIs(j, all[1..], k);
        var g := Recorder(j, all[1..], k);
        if g.Some? {
          var i :| First(j, all[1..], i) && EntryFor(j, g.value) == EntryFor(j, all[1..][i]);
          assert all[i + 1] == all[1..][i];
          forall h | 0 <= h < i + 1 && all[h].component != "" ensures EntryFor(j, all[h]).key != k {
            assert h > 0 ==> all[h] == all[1..][h - 1];
          }
          assert First(j, all, i + 1);
        } else {
          forall i | 0 <= i < |all| && all[i].component != "" ensures EntryFor(j, all[i]).key != k {
            assert i > 0 ==> all[i] == all[1..][i - 1];
          }
        }
      }
    }
  }

  /** The recorded baseline under one key. */
  lemma RecordedAt(j: Judge, all: seq<Finding>, k: Key)
    ensures var t, g := ByKey(Recorded(j, all)), Recorder(j, all, k);
            (k in t <==> g.Some?) && (g.Some? ==> t[k] == EntryFor(j, g.value))
  {
    hide EntryFor, Recorded, ByKey, Recorder, First;
    var t, g := ByKey(Recorded(j, all)), Recorder(j, all, k);
    RecorderIs(j, all, k);
    ByKeyHolds(Recorded(j, all));
    if g.Some? {
      RecordedExactly(j, all, EntryFor(j, g.value));
      RecordThenRead(j, all, EntryFor(j, g.value));
    } else if k in t {
      RecordedExactly(j, all, t[k]);
      StandsBySome(j, all, t[k]);
    }
  }

  lemma StandsBySome(j: Judge, all: seq<Finding>, e: Entry)
    requires Stands(j, all, e)
    ensures exists i :: 0 <= i < |all| && all[i].component != "" && EntryFor(j, all[i]).key == e.key
  {
    hide EntryFor;
  }

  /** A rerun finds the entry of the finding that records it. */
  lemma {:induction false} FoundAgain(j: Judge, all: seq<Finding>, f: Finding, ids: seq<string>)
    ensures var g := RecorderFor(j, all, f, ids);
            Find(ByKey(Recorded(j, all)), f, ids) == if g.Some? then Some(EntryFor(j, g.value)) else None
  {
    hide EntryFor, Recorded, ByKey, Recorder;
    if ids != [] {
      RecordedAt(j, all, Key(f.component, f.pkg, ids[0]));
      FoundAgain(j, all, f, ids[1..]);
    }
  }

  lemma EntryJudges(j: Judge, g: Finding)
    requires !j.initial && WellKeyed(j.baseline) && forall k <- j.baseline :: Readable(j.baseline[k])
    ensures EntryFor(j, g).state.Inherited? <==> RecordsInherited(j, g)
    ensures !RecordsInherited(j, g) ==> EntryFor(j, g).state.New? && DueTime(EntryFor(j, g).due) == RecordedDue(j, g)
  {
    FoundIsOwn(j.baseline, g);
    hide Find;
  }

  /** A finding among those recorded resolves to something recorded. */
  lemma {:induction false} SomeRecorder(j: Judge, all: seq<Finding>, f: Finding, ids: seq<string>)
    requires f in all && f.component != "" && EntryFor(j, f).key.id in ids
    requires EntryFor(j, f).key == Key(f.component, f.pkg, EntryFor(j, f).key.id)
    ensures RecorderFor(j, all, f, ids).Some?
  {
    hide EntryFor, Recorder;
    if ids[0] == EntryFor(j, f).key.id {
      RecorderIs(j, all, EntryFor(j, f).key);
      var i :| 0 <= i < |all| && all[i] == f;
    } else if Recorder(j, all, Key(f.component, f.pkg, ids[0])).None? {
      SomeRecorder(j, all, f, ids[1..]);
    }
  }

  /** Exactly when a finding is late in the rerun. */
  lemma RerunLateIff(j: Judge, all: seq<Finding>, f: Finding)
    requires !j.initial && WellKeyed(j.baseline) && (forall k <- j.baseline :: Readable(j.baseline[k])) && f in all
    ensures var again := j.(baseline := ByKey(Recorded(j, all)));
            && (f.component == "" ==> Status(again, f) == Status(j, f))
            && (f.component != "" ==> (Status(again, f).Late? <==> FailsAgain(j, all, f)))
  {
    hide EntryFor, Recorded, ByKey, Find, Recorder, RecorderFor, PastFixDate, RecordedDue, RecordsInherited;
    var again := j.(baseline := ByKey(Recorded(j, all)));
    assert Accepted(again, f) == Accepted(j, f) && Uncovered(again, f) == Uncovered(j, f);
    if f.component != "" {
      FoundAgain(j, all, f, Ids(f));
      KnownKey(j, f);
      FoundIsOwn(j.baseline, f);
      SomeRecorder(j, all, f, Ids(f));
      EntryJudges(j, RecorderFor(j, all, f, Ids(f)).value);
      LateIff(again, f);
    }
  }

  // ---- the gate ----

  /** A finding that is recorded and cannot be read back. */
  predicate Unreadable(j: Judge, f: Finding) {
    f.component != "" && LookupIn(j.baseline, f).None? && (f.pkg == "" || f.id == "")
  }

  lemma BaselineIsReadable(file: Option<File>, r: Run)
    requires Starts(file, r.flags)
    ensures forall k <- JudgeOf(file, r).baseline :: Readable(JudgeOf(file, r).baseline[k])
  {
    if r.flags.baseline { ByKeyHolds(file.value.findings); }
  }

  /** A gate that passed and recorded, run again: it fails if and only if one of its findings meets
      the condition above, and refuses the file if and only if it recorded a finding without
      package or id. A first report, which reads no baseline, passes again. */
  lemma RerunIff(file: Option<File>, r: Run)
    requires Gate(file, r).code == 0 && Records(file, r)
    ensures var j := JudgeOf(file, r);
            Gate(Gate(file, r).file, r).code ==
            if !r.flags.baseline then 0
            else if exists f <- r.all :: Unreadable(j, f) then 2
            else if exists f <- r.all :: FailsAgain(j, r.all, f) then 1
            else 0
  {
    hide Status, Recorded, EntryFor, Find, FailsAgain;
    var j, next := JudgeOf(file, r), Gate(file, r).file;
    if r.flags.baseline {
      JudgeIsKeyed(file, r);
      BaselineIsReadable(file, r);
      hide ByKey;
      RecordedReadsIff(j, r.flags.release, r.all);
      assert ReadableFile(next.value) <==> !exists f <- r.all :: Unreadable(j, f);
      var again := j.(baseline := ByKey(Recorded(j, r.all)));
      assert JudgeOf(next, r) == again;
      LateAgain(j, r.all);
    }
  }

  lemma LateAgain(j: Judge, all: seq<Finding>)
    requires !j.initial && WellKeyed(j.baseline) && (forall k <- j.baseline :: Readable(j.baseline[k])) && !AnyLate(j, all)
    ensures AnyLate(j.(baseline := ByKey(Recorded(j, all))), all) <==> exists f <- all :: FailsAgain(j, all, f)
  {
    hide Status, Recorded, ByKey, RecorderFor, Uncovered, RecordsInherited;
    var again := j.(baseline := ByKey(Recorded(j, all)));
    forall f <- all ensures Status(again, f).Late? <==> FailsAgain(j, all, f) {
      RerunLateIff(j, all, f);
      assert !Status(j, f).Late?;
    }
    hide FailsAgain;
  }

  // ---- two ways to fail ----

  const POLICY := Policy(0, 0, map["medium" := 90 * DAY])
  const FLAGS := Flags(true, "2", true, "1", false, false)
  const NOW := 737_000 * DAY + 36_000

  /** Its deadline is noon of that day. */
  const DUE_TODAY := Finding("proxy", "lib", "CVE-1", [], "", "medium", false, true, 736_910 * DAY + 43_200)

  /** A gate that passes and records fails when it is run again, at that time and with those
      arguments, on the baseline it recorded: the due date falls on the day of the run. */
  lemma RerunCanFail(file: Option<File>, r: Run)
    requires file == Some(File("1", 736_000, [])) && r == Run(FLAGS, POLICY, [], NOW, [DUE_TODAY])
    ensures Gate(file, r).code == 0 && Gate(Gate(file, r).file, r).code == 1
  {
    var j, f := JudgeOf(file, r), DUE_TODAY;
    assert j.baseline == map[] && !Status(j, f).Late? && EntryFor(j, f).key == Key("proxy", "lib", "CVE-1");
    assert RecorderFor(j, [f], f, Ids(f)) == Some(f);
    assert FailsAgain(j, [f], f);
    assert f in [f] && !AnyLate(j, [f]);
    hide FailsAgain, AnyLate, Recorded;
    RerunIff(file, r);
  }

  /** The baseline has the vulnerability as inherited, under its CVE. One finding names it by both
      its names, and one, not fixed there, by the other name only, which becomes a new entry. */
  const INHERITED := Entry(Key("proxy", "lib", "CVE-1"), Inherited, None, NoDue)
  const BOTH_NAMES := Finding("proxy", "lib", "GHSA-1", ["CVE-1"], "", "medium", false, true, DAY)
  const ONE_NAME := Finding("proxy", "lib", "GHSA-1", [], "", "medium", false, false, 0)

  /** Run again, the gate judges the inherited finding by the new entry and fails. */
  lemma RerunCanLoseInheritance(file: Option<File>, r: Run)
    requires file == Some(File("1", 736_000, [INHERITED])) && r == Run(FLAGS, POLICY, [], NOW, [BOTH_NAMES, ONE_NAME])
    ensures Gate(file, r).code == 0 && Gate(Gate(file, r).file, r).code == 1
  {
    var j, f, g := JudgeOf(file, r), BOTH_NAMES, ONE_NAME;
    assert [INHERITED][..0] == [] && ByKey([]) == map[];
    assert j.baseline == map[][INHERITED.key := INHERITED];
    assert Ids(f)[0] == "GHSA-1" && Ids(f)[1..] == ["CVE-1"];
    assert LookupIn(j.baseline, f) == Some(INHERITED) && LookupIn(j.baseline, g) == None;
    assert !Status(j, f).Late? && !Status(j, g).Late?;
    assert EntryFor(j, f).key == INHERITED.key && EntryFor(j, g).key == Key("proxy", "lib", "GHSA-1");
    assert [f, g][1..] == [g];
    assert Recorder(j, [f, g], Key("proxy", "lib", "GHSA-1")) == Some(g);
    assert FailsAgain(j, [f, g], f);
    hide FailsAgain, Recorded;
    assert f in [f, g] && !AnyLate(j, [f, g]);
    RerunIff(file, r);
  }
}
