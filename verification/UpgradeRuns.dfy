/** Upgrades over several runs (internal/cli/upgrade.go): going on after an interruption, what is
    left of the originals, and what a broken-off merge candidate does. */
module UpgradeRuns {
  import opened GoStrings
  import opened Upgrade

  // ---------------------------------------------------------------- planning again after an interruption

  /** An action planned again: the same one, or nothing to do because its content is there. */
  predicate Resumed(now: Files, first: Action, second: Action) {
    second == first ||
    (first.Writes() && second == Action(first.path, Current, first.content, "") && first.path in now && now[first.path] == first.content)
  }

  ghost predicate AllResumed(now: Files, first: seq<Action>, second: seq<Action>) {
    |first| == |second| && forall i :: 0 <= i < |first| ==> Resumed(now, first[i], second[i])
  }

  lemma JudgedAfter(before: Files, now: Files, rel: Release, path: string)
    requires Idempotent(rel) && Judge(before, rel, path).Act? && path in before && path in now
    requires var a := Judge(before, rel, path).action;
             now[path] == before[path] || (a.Writes() && now[path] == a.content)
    ensures Judge(now, rel, path).Act? && Resumed(now, Judge(before, rel, path).action, Judge(now, rel, path).action)
  {
    var a := Judge(before, rel, path).action;
    if now[path] != before[path] && a.status.Merge3? {
      var c, b, t := before[path], rel.base[path], rel.target[path];
      var m := rel.merge(c, b, t);
      assert rel.merge(m.text, b, t) == m;
      assert rel.merge(b, b, t) == Merged(t);
    }
  }

  /** At a safe point a planned file holds its original or what the plan says. */
  lemma PlannedFileAt(before: Files, now: Files, root: string, report: Report, manifest: string, k: nat)
    requires SafePoint(before, now, root, report, manifest) && Separate(report.actions) && k < |report.actions|
    requires report.actions[k].path in before
    ensures var a := report.actions[k];
            a.path in now && (now[a.path] == before[a.path] || (a.Writes() && now[a.path] == a.content))
  {
    hide BackedUp;
    var path := report.actions[k].path;
    PathsApart("", "", path);
    assert SafeFile(before, now, root, report, manifest, path);
    if now[path] != before[path] {
      var j :| 0 <= j < |report.actions| && WritesTo(report.actions[j], path, now[path]);
      assert j == k;
    }
  }

  lemma {:induction false} PlannedOnwards(before: Files, now: Files, rel: Release, n: nat)
    requires n <= |rel.paths| && Planned(before, rel, n).Some?
    requires forall i :: 0 <= i < n ==> Onwards(before, now, rel, rel.paths[i])
    ensures Planned(now, rel, n).Some? && AllResumed(now, Planned(before, rel, n).value, Planned(now, rel, n).value)
  {
    if n > 0 {
      PlannedOnwards(before, now, rel, n - 1);
      assert Onwards(before, now, rel, rel.paths[n - 1]);
    }
  }

  predicate Onwards(before: Files, now: Files, rel: Release, path: string) {
    match Judge(before, rel, path)
    case Absent => Judge(now, rel, path) == Absent
    case Refused => true
    case Act(a) => Judge(now, rel, path).Act? && Resumed(now, a, Judge(now, rel, path).action)
  }

  /** From every point of an interrupted run there is a new plan, and each of its actions is the old
      one or finds its content in place. */
  lemma ReplanResumes(before: Files, now: Files, rel: Release, report: Report, root: string, manifest: string)
    requires WellFormed(rel) && Idempotent(rel) && Planned(before, rel, |rel.paths|) == Some(report.actions)
    requires SafePoint(before, now, root, report, manifest)
    ensures Planned(now, rel, |rel.paths|).Some? && AllResumed(now, report.actions, Planned(now, rel, |rel.paths|).value)
  {
    var n := |rel.paths|;
    PlannedIsGood(before, rel, n);
    forall i | 0 <= i < n ensures Onwards(before, now, rel, rel.paths[i]) {
      var path := rel.paths[i];
      NeverRefused(before, rel, n, i);
      if Judge(before, rel, path).Act? {
        var k := ActionOf(before, rel, n, i);
        assert GoodAction(before, report.actions[k]);
        PlannedFileAt(before, now, root, report, manifest, k);
        JudgedAfter(before, now, rel, path);
      }
    }
    PlannedOnwards(before, now, rel, n);
  }

  // ---------------------------------------------------------------- going on

  /** A file as a run that is seen through leaves it: planned content, or as it was. */
  ghost predicate Finished(before: Files, plan: seq<Action>, now: Files, p: string) {
    (forall i :: 0 <= i < |plan| && plan[i].path == p && plan[i].Writes() ==> p in now && now[p] == plan[i].content) &&
    ((forall i :: 0 <= i < |plan| && plan[i].path == p ==> !plan[i].Writes()) ==> SameAt(before, now, p))
  }

  /** That settles what the file holds. */
  lemma FinishedDetermines(before: Files, plan: seq<Action>, x: Files, y: Files, p: string)
    requires Finished(before, plan, x, p) && Finished(before, plan, y, p)
    ensures SameAt(x, y, p)
  {
    if i :| 0 <= i < |plan| && plan[i].path == p && plan[i].Writes() { assert x[p] == plan[i].content == y[p]; }
  }

  /** A run that went through leaves every runtime file finished. */
  lemma CompletedIsFinished(before: Files, now: Files, report: Report, to: string, stamp: string, manifest: string, p: string)
    requires SafePoint(before, now, BackupRoot(to, stamp), report, manifest) && !Private(p)
    requires forall i :: 0 <= i < |report.actions| ==> Done(now, report.actions[i], BackupRoot(to, stamp), to)
    ensures Finished(before, report.actions, now, p)
  {
    hide SafePoint, BackupPath, CandidatePath;
    if forall i :: 0 <= i < |report.actions| && report.actions[i].path == p ==> !report.actions[i].Writes() {
      UnwrittenStays(before, now, BackupRoot(to, stamp), report, manifest, p);
    }
  }

  /** What the second run finishes of its plan, the first plan has finished. */
  lemma ResumedIsFinished(before: Files, middle: Files, now: Files, first: seq<Action>, second: seq<Action>, p: string)
    requires Separate(first) && AllResumed(middle, first, second) && Finished(middle, second, now, p)
    requires (forall i :: 0 <= i < |first| && first[i].path == p ==> !first[i].Writes()) ==> SameAt(before, middle, p)
    ensures Finished(before, first, now, p)
  {
    forall i | 0 <= i < |first| && first[i].path == p && first[i].Writes() ensures p in now && now[p] == first[i].content {
      assert Resumed(middle, first[i], second[i]);
      if second[i] != first[i] {
        forall j | 0 <= j < |second| && second[j].path == p ensures !second[j].Writes() {
          assert Resumed(middle, first[j], second[j]) && j == i;
        }
      }
    }
    if forall i :: 0 <= i < |first| && first[i].path == p ==> !first[i].Writes() {
      forall j | 0 <= j < |second| && second[j].path == p ensures !second[j].Writes() { assert Resumed(middle, first[j], second[j]); }
    }
  }

  lemma {:induction false} ResumedConflicts(now: Files, first: seq<Action>, second: seq<Action>)
    requires AllResumed(now, first, second)
    ensures Conflicts(first) == Conflicts(second)
  {
    if first != [] {
      var n := |first| - 1;
      assert Resumed(now, first[n], second[n]);
      ResumedConflicts(now, first[..n], second[..n]);
    }
  }

  lemma ResumedCandidates(files: Files, first: seq<Action>, second: seq<Action>, to: string)
    requires AllResumed(files, first, second) && forall i :: 0 <= i < |first| ==> CandidateFree(files, to, first[i])
    ensures forall i :: 0 <= i < |second| ==> CandidateFree(files, to, second[i])
  {
    hide CandidatePath;
    forall i | 0 <= i < |second| ensures CandidateFree(files, to, second[i]) { assert Resumed(files, first[i], second[i]); }
  }

  /** A run that is interrupted anywhere, and another one in a new process whose writes complete:
      if the merge candidates are not in the way, the second goes through, meets the conflicts of the
      first plan, and leaves every runtime file as the first run would have, had it gone through. */
  method ResumeInterrupted(project: Project, rel: Release, stamp: string, later: string, fate: nat -> Fate)
    returns (first: Result, second: Result, resumed: Project, ghost plan: seq<Action>)
    requires WellFormed(rel) && Idempotent(rel) && forall n: nat :: fate(n).Completes?
    modifies project
    ensures first.Applied? ==> Planned(old(project.files), rel, |rel.paths|) == Some(plan)
    ensures first.Applied? && !first.ok && NoBackups(project.files, rel.to, later) &&
            (forall i :: 0 <= i < |plan| ==> CandidateFree(project.files, rel.to, plan[i])) ==>
              && second == Applied(Conflicts(plan), true)
              && forall p :: !Private(p) ==> Finished(old(project.files), plan, resumed.files, p)
  {
    hide Upgraded, Clashes, ClashesIn, Unplannable, Unobstructed, Advanced, Ignores;
    ghost var before, report, again := project.files, Report([], None), Report([], None);
    first, report := RunUpgrade(project, rel, stamp);
    plan := report.actions;
    ghost var middle := project.files;
    resumed := new Project(project.files, fate);
    second := UpToDate;
    if !first.Applied? || first.ok {
      return;
    }
    ReplanResumes(before, middle, rel, report, BackupRoot(rel.to, stamp), ManifestText(before, rel));
    assert resumed.WritesComplete();
    second, again := RunUpgrade(resumed, rel, later);
    if NoBackups(middle, rel.to, later) && forall i :: 0 <= i < |plan| ==> CandidateFree(middle, rel.to, plan[i]) {
      GoesThroughIffCandidatesFree(middle, rel, again, later);
      ResumedCandidates(middle, plan, again.actions, rel.to);
      ResumedConflicts(middle, plan, again.actions);
      forall p | !Private(p) ensures Finished(before, plan, resumed.files, p) {
        CompletedIsFinished(middle, resumed.files, again, rel.to, later, ManifestText(middle, rel), p);
        if forall i :: 0 <= i < |plan| && plan[i].path == p ==> !plan[i].Writes() {
          UnwrittenStays(before, middle, BackupRoot(rel.to, stamp), report, ManifestText(before, rel), p);
        }
        ResumedIsFinished(before, middle, resumed.files, plan, again.actions, p);
      }
    }
  }

  // ---------------------------------------------------------------- nothing is ever lost

  /** One run, completed or broken off anywhere. */
  datatype RunRecord = RunRecord(to: string, stamp: string, report: Report, manifest: string)

  ghost predicate Follows(f: Files, g: Files, r: RunRecord) {
    SafePoint(f, g, BackupRoot(r.to, r.stamp), r.report, r.manifest) && Separate(r.report.actions)
  }

  ghost predicate IsHistory(states: seq<Files>, runs: seq<RunRecord>) {
    |states| == |runs| + 1 && forall k :: 0 <= k < |runs| ==> Follows(states[k], states[k + 1], runs[k])
  }

  predicate HeldBy(now: Files, p: string, text: string, r: RunRecord) {
    var backup := BackupPath(BackupRoot(r.to, r.stamp), p);
    backup in now && now[backup] == text
  }

  /** The file still holds the text, or the backup of one of the runs from the given one on does. */
  ghost predicate StillHeld(now: Files, p: string, text: string, runs: seq<RunRecord>, from: nat) {
    p in now && (now[p] == text || exists j :: from <= j < |runs| && HeldBy(now, p, text, runs[j]))
  }

  /** No later run writes over a backup. */
  lemma BackupStays(f: Files, g: Files, r: RunRecord, p: string, text: string, earlier: RunRecord)
    requires Follows(f, g, r) && HeldBy(f, p, text, earlier)
    ensures HeldBy(g, p, text, earlier)
  {
    var backup := BackupPath(BackupRoot(earlier.to, earlier.stamp), p);
    PathsApart(earlier.to, earlier.stamp, p);
    hide BackupPath, BackupRoot, BackedUp, Private;
    assert SafeFile(f, g, BackupRoot(r.to, r.stamp), r.report, r.manifest, backup);
  }

  /** Over any number of runs, whether they went through or broke off, and whatever their stamps:
      all a file ever held at the start of a run is in the file or in a backup of that name. */
  lemma {:induction false} NothingEverLost(states: seq<Files>, runs: seq<RunRecord>, k: nat, p: string)
    requires IsHistory(states, runs) && k < |states| && p in states[k]
    ensures StillHeld(states[|runs|], p, states[k][p], runs, k)
  {
    if k < |runs| {
      var n := |runs| - 1;
      var text, f, g, last := states[k][p], states[n], states[n + 1], runs[n];
      NothingEverLost(states[..n + 1], runs[..n], k, p);
      assert Follows(f, g, last);
      assert SafeFile(f, g, BackupRoot(last.to, last.stamp), last.report, last.manifest, p);
      hide SafePoint, BackupPath, BackupRoot, MayBecome;
      if f[p] == text {
        assert g[p] == text || HeldBy(g, p, text, runs[n]);
      } else {
        var j :| k <= j < n && HeldBy(f, p, text, runs[..n][j]);
        BackupStays(f, g, last, p, text, runs[j]);
      }
    }
  }

  // ---------------------------------------------------------------- a candidate that was cut short

  /** A planned conflict that meets a broken-off candidate of its own cannot be seen through. */
  lemma CutShortStops(files: Files, rel: Release, report: Report, stamp: string, i: nat, n: nat)
    requires i < |report.actions| && report.actions[i].status.Conflict? && n < |report.actions[i].content|
    requires var candidate := CandidatePath(rel.to, report.actions[i].path);
             candidate in files && files[candidate] == Part(report.actions[i].content, n)
    ensures !Ready(files, report, rel, stamp)
  {
    hide CandidatePath, BackupPath, BackupRoot, Conflicts, NextManifest;
    assert !ReadyAction(files, report.actions[i], BackupRoot(rel.to, stamp), rel.to);
  }

  /** A release with one runtime file and a merge that cannot reconcile anything. */
  function StubbornRelease(path: string): Release {
    Release("1.4.1", [path], map[path := "base"], map[path := "target"],
            (c, b, t) => if c == b then Merged(t) else Clash("<<< " + c + " >>>"),
            s => s, m => "", s => None, s => s)
  }

  lemma StubbornPlan(path: string, files: Files)
    requires path in files && files[path] == "mine"
    ensures Planned(files, StubbornRelease(path), |StubbornRelease(path).paths|) == Some([Action(path, Conflict, "mine", "<<< mine >>>")])
    ensures PlanIgnore(files, StubbornRelease(path)) == None
  {
    var rel := StubbornRelease(path);
    assert "mine" != "base" && "mine" != "target" by { assert |"mine"| == 4 && "mine"[0] != "base"[0] && |"target"| == 6; }
    assert rel.merge("mine", "base", "target") == Clash("<<< " + "mine" + " >>>");
    assert "<<< " + "mine" + " >>>" == "<<< mine >>>";
    var a := Action(path, Conflict, "mine", "<<< mine >>>");
    assert Judge(files, rel, path) == Act(a);
    OnlyAction(files, rel, a);
  }

  lemma OnlyAction(files: Files, rel: Release, a: Action)
    requires |rel.paths| == 1 && Judge(files, rel, rel.paths[0]) == Act(a)
    ensures Planned(files, rel, |rel.paths|) == Some([a])
  {
    var n: nat := |rel.paths|;
    assert Planned(files, rel, n - 1) == Some([]);
    assert [] + [a] == [a];
  }

  /** It does happen: one edited runtime file, a candidate of which only three bytes were written,
      and a second run with a healthy disk that cannot go through. */
  method StuckExample(path: string, stamp: string) returns (second: Result)
    requires !Private(path) && path != ""
    ensures second.Applied? && !second.ok
  {
    var rel := StubbornRelease(path);
    var candidate := CandidatePath(rel.to, path);
    PathsApart(rel.to, stamp, path);
    var broken := new Project(map[path := "mine"], n => if n == 0 then LeavesPart(3) else Completes);
    var _ := broken.WriteNew(candidate, "<<< mine >>>");
    var healthy := new Project(broken.files, n => Completes);
    ghost var files := healthy.files;
    StubbornPlan(path, files);
    assert healthy.WritesComplete();
    ghost var report;
    second, report := RunUpgrade(healthy, rel, stamp);
    CutShortStops(files, rel, report, stamp, 0, 3);
  }
}
