/** Planning and applying a runtime upgrade (internal/cli/upgrade.go) over a map of project
    files. The three-way merge, hashing and the manifest encoding are parameters. */
module Upgrade {
  import opened GoStrings

  type Files = map<string, string>

  datatype Merge = Merged(text: string) | Clash(candidate: string) | Broken

  datatype Manifest = Manifest(version: string, runtimeFiles: map<string, string>, rest: string)

  datatype Status = Current | Update | Merge3 | Conflict

  /** For a conflict the content is the merge candidate; a current file needs none. */
  datatype Action = Action(path: string, status: Status, original: string, content: string) {
    predicate Writes() {
      status.Update? || status.Merge3?
    }
  }

  /** What an upgrade to one version consists of. */
  datatype Release = Release(to: string, paths: seq<string>, base: Files, target: Files,
                             merge: (string, string, string) -> Merge, hash: string -> string,
                             encode: Manifest -> string, parse: string -> Option<Manifest>,
                             withRules: string -> string)

  datatype Report = Report(actions: seq<Action>, ignore: Option<Action>)

  const MANIFEST := ".fgoths/upgrade.json"
  const IGNORE := ".fgoths/.gitignore"
  const PATHS := ["pkg/runtime/server.go", "pkg/runtime/router.go", "pkg/runtime/proxy.go",
                  "pkg/runtime/metrics.go", "pkg/runtime/hmr/hmr.go", "pkg/runtime/auth.go"]

  /** Everything the command writes beside the runtime files lives under a dot directory. */
  predicate Private(path: string) {
    path != "" && path[0] == '.'
  }

  function BackupRoot(to: string, stamp: string): string {
    ".fgoths/upgrade-backups/v" + to + "-" + stamp
  }

  function BackupPath(root: string, path: string): string {
    root + "/" + path
  }

  function CandidatePath(to: string, path: string): string {
    ".fgoths/upgrade-conflicts/v" + to + "/" + path + ".merge"
  }

  predicate WellFormed(rel: Release) {
    (forall i :: 0 <= i < |rel.paths| ==> !Private(rel.paths[i])) &&
    forall i, j :: 0 <= i < j < |rel.paths| ==> rel.paths[i] != rel.paths[j]
  }

  // ---------------------------------------------------------------- planning

  datatype Verdict = Absent | Act(action: Action) | Refused

  function Judge(files: Files, rel: Release, path: string): Verdict {
    if path !in rel.base || path !in rel.target then Refused
    else if path !in files then Absent
    else
      var current, base, target := files[path], rel.base[path], rel.target[path];
      if current == target then Act(Action(path, Current, current, ""))
      else if current == base then Act(Action(path, Update, current, target))
      else
        match rel.merge(current, base, target)
        case Broken => Refused
        case Clash(candidate) => Act(Action(path, Conflict, current, candidate))
        case Merged(text) =>
          if current == text then Act(Action(path, Current, current, "")) else Act(Action(path, Merge3, current, text))
  }

  /** The actions of the first n paths, unless one of them is refused. */
  function Planned(files: Files, rel: Release, n: nat): Option<seq<Action>>
    requires n <= |rel.paths|
  {
    if n == 0 then Some([])
    else
      var earlier, v := Planned(files, rel, n - 1), Judge(files, rel, rel.paths[n - 1]);
      if earlier.None? || v.Refused? then None
      else if v.Absent? then earlier
      else Some(earlier.value + [v.action])
  }

  method PlanFiles(files: Files, rel: Release) returns (r: Option<seq<Action>>)
    ensures r == Planned(files, rel, |rel.paths|)
  {
    var actions: seq<Action> := [];
    for i := 0 to |rel.paths|
      invariant Planned(files, rel, i) == Some(actions)
    {
      var path := rel.paths[i];
      if path !in rel.base || path !in rel.target {
        RefusalStays(files, rel, i + 1, |rel.paths|);
        return None;
      }
      if path !in files {
        continue;
      }
      var current, base, target := files[path], rel.base[path], rel.target[path];
      var action := Action(path, Current, current, "");
      if current == target {
      } else if current == base {
        action := Action(path, Update, current, target);
      } else {
        match rel.merge(current, base, target) {
          case Broken =>
            RefusalStays(files, rel, i + 1, |rel.paths|);
            return None;
          case Clash(candidate) =>
            action := Action(path, Conflict, current, candidate);
          case Merged(text) =>
            if current != text {
              action := Action(path, Merge3, current, text);
            }
        }
      }
      actions := actions + [action];
    }
    return Some(actions);
  }

  lemma {:induction false} RefusalStays(files: Files, rel: Release, i: nat, n: nat)
    requires i <= n <= |rel.paths| && Planned(files, rel, i).None?
    ensures Planned(files, rel, n).None?
  {
    if i < n { RefusalStays(files, rel, i, n - 1); }
  }

  /** Actions belong to different runtime files that were there, with their content. */
  predicate GoodActions(files: Files, actions: seq<Action>) {
    (forall i :: 0 <= i < |actions| ==> GoodAction(files, actions[i])) &&
    forall i, j :: 0 <= i < j < |actions| ==> actions[i].path != actions[j].path
  }

  predicate GoodAction(files: Files, a: Action) {
    !Private(a.path) && a.path in files && files[a.path] == a.original
  }

  lemma {:induction false} PlannedIsGood(files: Files, rel: Release, n: nat)
    requires WellFormed(rel) && n <= |rel.paths| && Planned(files, rel, n).Some?
    ensures GoodActions(files, Planned(files, rel, n).value)
    ensures forall i :: 0 <= i < |Planned(files, rel, n).value| ==> Planned(files, rel, n).value[i].path in rel.paths[..n]
  {
    if n > 0 {
      PlannedIsGood(files, rel, n - 1);
      var path := rel.paths[n - 1];
      assert path !in rel.paths[..n - 1];
      assert rel.paths[..n] == rel.paths[..n - 1] + [path];
    }
  }

  // ---------------------------------------------------------------- the manifest

  function Hashes(files: Files, rel: Release, known: map<string, string>, n: nat): map<string, string>
    requires n <= |rel.paths|
  {
    if n == 0 then known
    else
      var earlier, path := Hashes(files, rel, known, n - 1), rel.paths[n - 1];
      if path !in files then earlier - {path} else earlier[path := rel.hash(SourceOf(rel, path))]
  }

  function SourceOf(rel: Release, path: string): string {
    if path in rel.target then rel.target[path] else ""
  }

  /** The manifest after the upgrade, unless the present one cannot be read. */
  function NextManifest(files: Files, rel: Release): Option<Manifest> {
    var m := if MANIFEST in files then rel.parse(files[MANIFEST]) else Some(Manifest("", map[], ""));
    if m.None? then None
    else Some(Manifest(rel.to, Hashes(files, rel, m.value.runtimeFiles, |rel.paths|), m.value.rest))
  }

  /** It records the shipped hash of every runtime file that is there, forgets those that are
      not, and keeps the rest. */
  lemma {:induction false} HashesMean(files: Files, rel: Release, known: map<string, string>, n: nat, path: string)
    requires n <= |rel.paths|
    ensures var h := Hashes(files, rel, known, n);
            if path in rel.paths[..n] then
              (path in h <==> path in files) && (path in h ==> h[path] == rel.hash(SourceOf(rel, path)))
            else (path in h <==> path in known) && (path in h ==> h[path] == known[path])
  {
    if n > 0 {
      HashesMean(files, rel, known, n - 1, path);
      assert rel.paths[..n] == rel.paths[..n - 1] + [rel.paths[n - 1]];
    }
  }

  lemma {:induction false} HashesSee(files: Files, now: Files, rel: Release, known: map<string, string>, n: nat)
    requires n <= |rel.paths| && forall i :: 0 <= i < n ==> (rel.paths[i] in files <==> rel.paths[i] in now)
    ensures Hashes(files, rel, known, n) == Hashes(now, rel, known, n)
  {
    if n > 0 { HashesSee(files, now, rel, known, n - 1); }
  }

  // ---------------------------------------------------------------- what must hold at every point

  /** The plan says that path gets this text. */
  ghost predicate MayBecome(report: Report, manifest: string, path: string, text: string) {
    (exists i :: 0 <= i < |report.actions| && WritesTo(report.actions[i], path, text)) ||
    (report.ignore.Some? && path == IGNORE && text == report.ignore.value.content) ||
    (path == MANIFEST && text == manifest)
  }

  predicate WritesTo(a: Action, path: string, text: string) {
    a.Writes() && a.path == path && a.content == text
  }

  predicate BackedUp(before: Files, now: Files, root: string, path: string) {
    path in before && BackupPath(root, path) in now && now[BackupPath(root, path)] == before[path]
  }

  /** Every file that was there holds its content, or holds planned content with the original
      in its backup; whatever is new is private to the tool. */
  ghost predicate SafePoint(before: Files, now: Files, root: string, report: Report, manifest: string) {
    (forall p :: p in before ==> SafeFile(before, now, root, report, manifest, p)) &&
    forall p :: p in now && p !in before ==> Private(p)
  }

  ghost predicate SafeFile(before: Files, now: Files, root: string, report: Report, manifest: string, p: string) {
    p in now && p in before && (now[p] == before[p] || (MayBecome(report, manifest, p, now[p]) && BackedUp(before, now, root, p)))
  }

  lemma NewFileKeepsSafe(before: Files, now: Files, root: string, report: Report, manifest: string, path: string, text: string)
    requires SafePoint(before, now, root, report, manifest) && path !in now && Private(path)
    ensures SafePoint(before, now[path := text], root, report, manifest)
  {
    hide MayBecome, BackupPath, Private;
    var next := now[path := text];
    forall p | p in before ensures SafeFile(before, next, root, report, manifest, p) {
      assert SafeFile(before, now, root, report, manifest, p);
    }
  }

  lemma RewriteKeepsSafe(before: Files, now: Files, root: string, report: Report, manifest: string, path: string, text: string)
    requires SafePoint(before, now, root, report, manifest) && MayBecome(report, manifest, path, text)
    requires path !in before ==> Private(path)
    requires path in before ==> BackedUp(before, now, root, path)
    requires forall p :: BackupPath(root, p) != path
    ensures SafePoint(before, now[path := text], root, report, manifest)
  {
    hide MayBecome, BackupPath, Private;
    var next := now[path := text];
    forall p | p in before ensures SafeFile(before, next, root, report, manifest, p) {
      assert SafeFile(before, now, root, report, manifest, p);
      assert BackupPath(root, p) != path;
    }
  }

  lemma PathsApart(to: string, stamp: string, path: string)
    ensures var b, c := BackupPath(BackupRoot(to, stamp), path), CandidatePath(to, path);
            Private(b) && Private(c) && b != MANIFEST && c != MANIFEST && b != IGNORE && c != IGNORE
    ensures Private(MANIFEST) && Private(IGNORE)
  {
    assert |BackupRoot(to, stamp)| > 24;
  }

  // ---------------------------------------------------------------- applying

  /** How a write ends. A file being created can be left cut short; a rewrite goes through a
      temporary file and a rename, so it happens or it does not. */
  datatype Fate = Completes | Fails | LeavesPart(n: nat)

  /** The part of a text that is on disk when writing it broke off. */
  function Part(text: string, n: nat): (p: string)
    ensures p <= text && (n < |text| ==> p != text)
  {
    if n <= |text| then text[..n] else text
  }

  predicate Done(now: Files, a: Action, root: string, to: string) {
    if a.Writes() then
      a.path in now && now[a.path] == a.content && BackupPath(root, a.path) in now && now[BackupPath(root, a.path)] == a.original
    else if a.status.Conflict? then CandidatePath(to, a.path) in now && now[CandidatePath(to, a.path)] == a.content
    else true
  }

  /** What an action finds when all goes well: the file as planned, and its backup or candidate not
      in the way; a candidate may be there if it holds the very same text. */
  predicate ReadyAction(now: Files, a: Action, root: string, to: string) {
    (a.Writes() ==> a.path in now && now[a.path] == a.original && BackupPath(root, a.path) !in now) &&
    (a.status.Conflict? ==>
       a.path in now && now[a.path] == a.original &&
       (CandidatePath(to, a.path) in now ==> now[CandidatePath(to, a.path)] == a.content))
  }

  predicate ReadyIgnore(now: Files, a: Action, root: string) {
    if IGNORE in now then now[IGNORE] == a.original && BackupPath(root, IGNORE) !in now else a.original == ""
  }

  predicate ReadyManifest(now: Files, rel: Release, root: string) {
    NextManifest(now, rel).Some? && (MANIFEST in now ==> BackupPath(root, MANIFEST) !in now)
  }

  /** Everything an upgrade needs to find in order to go through. */
  predicate Ready(now: Files, report: Report, rel: Release, stamp: string) {
    var root := BackupRoot(rel.to, stamp);
    && (report.ignore.Some? ==> ReadyIgnore(now, report.ignore.value, root))
    && (forall i :: 0 <= i < |report.actions| ==> ReadyAction(now, report.actions[i], root, rel.to))
    && (Conflicts(report.actions) == 0 ==> ReadyManifest(now, rel, root))
  }

  function Conflicts(actions: seq<Action>): nat {
    if actions == [] then 0
    else Conflicts(actions[..|actions| - 1]) + if actions[|actions| - 1].status.Conflict? then 1 else 0
  }

  /** Nothing that was there is gone or different, one path apart. */
  predicate SameBut(was: Files, now: Files, path: string) {
    forall p :: p in was && p != path ==> p in now && now[p] == was[p]
  }

  ghost predicate AllSafe(before: Files, points: seq<Files>, from: nat, root: string, report: Report, manifest: string) {
    forall i :: from <= i < |points| ==> SafePoint(before, points[i], root, report, manifest)
  }

  class Project {
    var files: Files
    /** Every state of the files so far, oldest first. */
    ghost var visited: seq<Files>
    var writes: nat
    const fate: nat -> Fate

    constructor (files: Files, fate: nat -> Fate)
      ensures this.files == files && visited == [files] && this.fate == fate && writes == 0
    {
      this.files, this.fate, writes, visited := files, fate, 0, [files];
    }

    ghost predicate WritesComplete() {
      forall n: nat :: fate(n).Completes?
    }

    /** writeNewProjectFile */
    method WriteNew(path: string, text: string) returns (ok: bool)
      modifies this
      ensures visited == old(visited) + [files]
      ensures files == old(files) || (path !in old(files) && path in files && files == old(files)[path := files[path]])
      ensures ok ==> path !in old(files) && path in files && files[path] == text
      ensures path !in old(files) && path in files ==> files[path] <= text
      ensures fate(old(writes)).Fails? ==> files == old(files)
      ensures writes == old(writes) + 1 && ok == (path !in old(files) && fate(old(writes)).Completes?)
      ensures path !in old(files) && fate(old(writes)).LeavesPart? ==> path in files && files[path] == Part(text, fate(old(writes)).n)
      ensures WritesComplete() ==> (ok <==> path !in old(files))
    {
      ok := false;
      if path !in files {
        match fate(writes)
        case Completes =>
          files := files[path := text];
          ok := true;
        case Fails =>
        case LeavesPart(n) =>
          files := files[path := Part(text, n)];
      }
      writes := writes + 1;
      visited := visited + [files];
    }

    /** writeProjectFile */
    method WriteOver(path: string, text: string) returns (ok: bool)
      modifies this
      ensures visited == old(visited) + [files]
      ensures files == if ok then old(files)[path := text] else old(files)
      ensures WritesComplete() ==> ok
    {
      ok := fate(writes).Completes?;
      if ok {
        files := files[path := text];
      }
      writes := writes + 1;
      visited := visited + [files];
    }

    /** Back up, then replace. */
    method Replace(path: string, original: string, text: string, to: string, stamp: string,
                   ghost before: Files, ghost report: Report, ghost manifest: string, ghost from: nat) returns (ok: bool)
      requires SafePoint(before, files, BackupRoot(to, stamp), report, manifest) && path in before
      requires AllSafe(before, visited, from, BackupRoot(to, stamp), report, manifest) && from <= |visited|
      requires path in files && files[path] == original == before[path] && MayBecome(report, manifest, path, text)
      requires forall p :: BackupPath(BackupRoot(to, stamp), p) != path
      modifies this
      ensures SafePoint(before, files, BackupRoot(to, stamp), report, manifest)
      ensures AllSafe(before, visited, from, BackupRoot(to, stamp), report, manifest) && |old(visited)| <= |visited|
      ensures SameBut(old(files), files, path) && path in files
      ensures forall p :: p in files && p !in old(files) ==> p == BackupPath(BackupRoot(to, stamp), path)
      ensures if ok then files[path] == text && BackedUp(before, files, BackupRoot(to, stamp), path) else files[path] == original
      ensures WritesComplete() ==> (ok <==> BackupPath(BackupRoot(to, stamp), path) !in old(files))
    {
      var root := BackupRoot(to, stamp);
      var backup := BackupPath(root, path);
      PathsApart(to, stamp, path);
      hide BackupRoot, BackupPath, Private, SafePoint, AllSafe, MayBecome, WritesComplete;
      ghost var start := files;
      var saved := WriteNew(backup, original);
      if files != start { NewFileKeepsSafe(before, start, root, report, manifest, backup, files[backup]); }
      SafeSnoc(before, old(visited), files, from, root, report, manifest);
      KeptByNew(start, files, backup, path);
      if !saved {
        return false;
      }
      RewriteKeepsSafe(before, files, root, report, manifest, path, text);
      ghost var points, middle := visited, files;
      ok := WriteOver(path, text);
      SafeSnoc(before, points, files, from, root, report, manifest);
      KeptByRewrite(before, start, middle, files, root, path, text);
    }

    /** applyUpgradeArtifactIgnore */
    method ApplyIgnore(a: Action, to: string, stamp: string, ghost report: Report, ghost manifest: string, ghost from: nat)
      returns (ok: bool)
      requires report.ignore == Some(a) && from == |visited|
      modifies this
      ensures SafePoint(old(files), files, BackupRoot(to, stamp), report, manifest)
      ensures AllSafe(old(files), visited, from, BackupRoot(to, stamp), report, manifest) && |old(visited)| <= |visited|
      ensures SameBut(old(files), files, IGNORE)
      ensures forall p :: p in files && p !in old(files) ==> p == IGNORE || p == BackupPath(BackupRoot(to, stamp), IGNORE)
      ensures ok ==> IGNORE in files && files[IGNORE] == a.content
      ensures WritesComplete() ==> (ok <==> ReadyIgnore(old(files), a, BackupRoot(to, stamp)))
    {
      ghost var before, root := files, BackupRoot(to, stamp);
      StartsSafe(before, visited, root, report, manifest);
      NoBackupIs(to, stamp, IGNORE);
      PathsApart(to, stamp, IGNORE);
      assert MayBecome(report, manifest, IGNORE, a.content);
      hide BackupRoot, BackupPath, Private, SafePoint, AllSafe, MayBecome, WritesComplete;
      if IGNORE !in files {
        if |a.original| != 0 {
          return false;
        }
        ok := WriteNew(IGNORE, a.content);
        if files != before { NewFileKeepsSafe(before, before, root, report, manifest, IGNORE, files[IGNORE]); }
        SafeSnoc(before, old(visited), files, from, root, report, manifest);
        KeptByNew(before, files, IGNORE, IGNORE);
        return;
      }
      if files[IGNORE] != a.original {
        return false;
      }
      ok := Replace(IGNORE, a.original, a.content, to, stamp, before, report, manifest, from);
    }

    /** One action of the loop. */
    method ApplyAction(report: Report, i: nat, to: string, stamp: string, ghost before: Files, ghost manifest: string, ghost from: nat)
      returns (ok: bool)
      requires i < |report.actions| && Separate(report.actions)
      requires SafePoint(before, files, BackupRoot(to, stamp), report, manifest)
      requires AllSafe(before, visited, from, BackupRoot(to, stamp), report, manifest) && from <= |visited|
      requires Between(before, files, report.actions, i, BackupRoot(to, stamp), to)
      modifies this
      ensures SafePoint(before, files, BackupRoot(to, stamp), report, manifest)
      ensures AllSafe(before, visited, from, BackupRoot(to, stamp), report, manifest) && |old(visited)| <= |visited|
      ensures Adds(old(files), files, report.actions[i], BackupRoot(to, stamp), to)
      ensures ok ==> Done(files, report.actions[i], BackupRoot(to, stamp), to)
      ensures WritesComplete() ==> (ok <==> ReadyAction(old(files), report.actions[i], BackupRoot(to, stamp), to))
    {
      var action := report.actions[i];
      ghost var root, start := BackupRoot(to, stamp), files;
      assert SameAt(before, files, action.path);
      PathsApart(to, stamp, action.path);
      NoBackupIs(to, stamp, action.path);
      hide SafePoint, AllSafe, BackupRoot, Private, CandidatePath, BackupPath, Between, MayBecome, WritesComplete, SameBut;
      if action.Writes() {
        if action.path !in files || files[action.path] != action.original {
          KeptByNew(start, files, BackupPath(root, action.path), action.path);
          return false;
        }
        assert WritesTo(action, action.path, action.content);
        PlannedText(report, i, manifest);
        ok := Replace(action.path, action.original, action.content, to, stamp, before, report, manifest, from);
      } else if action.status.Conflict? {
        var candidate := CandidatePath(to, action.path);
        if action.path !in files || files[action.path] != action.original {
          KeptByNew(start, files, candidate, action.path);
          return false;
        }
        var saved := WriteNew(candidate, action.content);
        if files != start { NewFileKeepsSafe(before, start, root, report, manifest, candidate, files[candidate]); }
        SafeSnoc(before, old(visited), files, from, root, report, manifest);
        KeptByNew(start, files, candidate, action.path);
        if !saved {
          if candidate !in files || files[candidate] != action.content {
            return false;
          }
        }
        return true;
      } else {
        KeptByNew(start, files, CandidatePath(to, action.path), action.path);
        return true;
      }
    }

    /** The loop over the actions. */
    method ApplyActions(report: Report, to: string, stamp: string, ghost before: Files, ghost manifest: string, ghost from: nat)
      returns (conflicts: nat, ok: bool)
      requires Separate(report.actions)
      requires SafePoint(before, files, BackupRoot(to, stamp), report, manifest)
      requires AllSafe(before, visited, from, BackupRoot(to, stamp), report, manifest) && from <= |visited|
      requires Between(before, files, report.actions, 0, BackupRoot(to, stamp), to)
      requires Ahead(before, files, report.actions, 0, BackupRoot(to, stamp), to)
      requires WritesComplete() ==> ReadyUpTo(before, report, 0, BackupRoot(to, stamp), to)
      modifies this
      ensures SafePoint(before, files, BackupRoot(to, stamp), report, manifest)
      ensures AllSafe(before, visited, from, BackupRoot(to, stamp), report, manifest) && from <= |visited|
      ensures SameAt(before, files, MANIFEST)
      ensures ok ==> conflicts == Conflicts(report.actions)
      ensures ok ==> Between(before, files, report.actions, |report.actions|, BackupRoot(to, stamp), to)
      ensures ok ==> Ahead(before, files, report.actions, |report.actions|, BackupRoot(to, stamp), to)
      ensures SameAt(old(files), files, IGNORE)
      ensures WritesComplete() ==> (ok <==> ReadyUpTo(before, report, |report.actions|, BackupRoot(to, stamp), to))
    {
      ghost var root, actions := BackupRoot(to, stamp), report.actions;
      conflicts := 0;
      StillThere(before, files, actions, root, to);
      hide BackupRoot, Private, SafePoint, AllSafe, WritesComplete, ReadyAction, ReadyUpTo, Between, Ahead, Conflicts, Adds, Separate,
        Done, SameAt, SameBut;
      for i := 0 to |report.actions|
        invariant SafePoint(before, files, root, report, manifest)
        invariant AllSafe(before, visited, from, root, report, manifest) && from <= |visited|
        invariant Between(before, files, actions, i, root, to) && Ahead(before, files, actions, i, root, to)
        invariant SameAt(before, files, MANIFEST)
        invariant conflicts == Conflicts(actions[..i])
        invariant SameAt(old(files), files, IGNORE)
        invariant WritesComplete() ==> ReadyUpTo(before, report, i, root, to)
      {
        ConflictsSnoc(actions, i);
        if report.actions[i].status.Conflict? {
          conflicts := conflicts + 1;
        }
        ghost var was := files;
        SameReady(before, was, report, i, root, to);
        ok := ApplyAction(report, i, to, stamp, before, manifest, from);
        ManifestStays(before, was, files, actions, i, to, stamp);
        IgnoreStays(old(files), was, files, actions, i, stamp, to);
        if !ok {
          ReadyAll(before, report, i + 1, root, to);
          return;
        }
        BetweenSteps(before, was, files, actions, i, stamp, to);
        AheadSteps(before, was, files, actions, i, stamp, to);
      }
      assert actions[..|actions|] == actions;
      return conflicts, true;
    }

    /** The end of applyRuntimeUpgrade: the manifest, only when nothing conflicted. */
    method AdvanceManifest(rel: Release, stamp: string, report: Report, ghost before: Files, ghost manifest: string, ghost from: nat)
      returns (ok: bool)
      requires SafePoint(before, files, BackupRoot(rel.to, stamp), report, manifest)
      requires AllSafe(before, visited, from, BackupRoot(rel.to, stamp), report, manifest) && from <= |visited|
      requires SameAt(before, files, MANIFEST)
      requires NextManifest(files, rel).Some? ==> manifest == rel.encode(NextManifest(files, rel).value)
      modifies this
      ensures SafePoint(before, files, BackupRoot(rel.to, stamp), report, manifest)
      ensures AllSafe(before, visited, from, BackupRoot(rel.to, stamp), report, manifest)
      ensures SameBut(old(files), files, MANIFEST)
      ensures forall p :: p in files && p !in old(files) ==> p == MANIFEST || p == BackupPath(BackupRoot(rel.to, stamp), MANIFEST)
      ensures if ok then NextManifest(old(files), rel).Some? && MANIFEST in files && files[MANIFEST] == manifest
              else SameAt(before, files, MANIFEST)
      ensures WritesComplete() ==> (ok <==> ReadyManifest(old(files), rel, BackupRoot(rel.to, stamp)))
    {
      var m := Manifest("", map[], "");
      if MANIFEST in files {
        var read := rel.parse(files[MANIFEST]);
        if read.None? {
          return false;
        }
        m := read.value;
      }
      var hashes := m.runtimeFiles;
      for i := 0 to |rel.paths|
        invariant hashes == Hashes(files, rel, m.runtimeFiles, i)
      {
        var path := rel.paths[i];
        hashes := if path !in files then hashes - {path} else hashes[path := rel.hash(SourceOf(rel, path))];
      }
      var text := rel.encode(Manifest(rel.to, hashes, m.rest));
      assert text == manifest;
      assert MayBecome(report, manifest, MANIFEST, text);
      NoBackupIs(rel.to, stamp, MANIFEST);
      PathsApart(rel.to, stamp, MANIFEST);
      ghost var start := files;
      assert NextManifest(start, rel).Some?;
      hide BackupRoot, BackupPath, Private, SafePoint, AllSafe, MayBecome, WritesComplete, NextManifest, Hashes;
      if MANIFEST in files {
        ok := Replace(MANIFEST, files[MANIFEST], text, rel.to, stamp, before, report, manifest, from);
      } else {
        RewriteKeepsSafe(before, files, BackupRoot(rel.to, stamp), report, manifest, MANIFEST, text);
        ok := WriteOver(MANIFEST, text);
        SafeSnoc(before, old(visited), files, from, BackupRoot(rel.to, stamp), report, manifest);
      }
    }

    /** applyRuntimeUpgrade, whatever the fate of each write, and whatever has happened to the
        files since the plan was made. */
    method Apply(report: Report, rel: Release, stamp: string) returns (conflicts: nat, ok: bool)
      requires WellFormed(rel) && Separate(report.actions)
      modifies this
      ensures AllSafe(old(files), visited, |old(visited)|, BackupRoot(rel.to, stamp), report, ManifestText(old(files), rel))
      ensures SafePoint(old(files), files, BackupRoot(rel.to, stamp), report, ManifestText(old(files), rel))
      ensures ok ==> conflicts == Conflicts(report.actions)
      ensures ok ==> forall i :: 0 <= i < |report.actions| ==> Done(files, report.actions[i], BackupRoot(rel.to, stamp), rel.to)
      ensures ok && report.ignore.Some? ==> IGNORE in files && files[IGNORE] == report.ignore.value.content
      ensures report.ignore.None? && IGNORE in files ==> IGNORE in old(files)
      ensures ok && conflicts == 0 ==>
                MANIFEST in files && files[MANIFEST] == ManifestText(old(files), rel) && NextManifest(old(files), rel).Some?
      ensures !(ok && conflicts == 0) ==> SameAt(old(files), files, MANIFEST)
      ensures WritesComplete() ==> (ok <==> Ready(old(files), report, rel, stamp))
    {
      conflicts := 0;
      ghost var before, from, root, actions := files, |visited|, BackupRoot(rel.to, stamp), report.actions;
      ghost var manifest := ManifestText(before, rel);
      StartsSafe(before, visited, root, report, manifest);
      hide BackupRoot, Private, SafePoint, AllSafe, WritesComplete, ManifestText, NextManifest, ReadyIgnore, ReadyManifest,
        Between, Ahead, Conflicts, Separate, Done, SameBut, Ready, ReadyUpTo;
      ReadyStarts(before, report, root, rel.to);
      ReadyMeans(before, report, rel, stamp);
      if report.ignore.Some? {
        ok := ApplyIgnore(report.ignore.value, rel.to, stamp, report, manifest, from);
        IgnoreMoves(before, files, actions, rel.to, stamp);
        if !ok {
          return;
        }
      } else {
        NothingMoves(before, actions, root, rel.to);
      }
      conflicts, ok := ApplyActions(report, rel.to, stamp, before, manifest, from);
      if !ok || conflicts > 0 {
        if ok { BetweenEnds(before, files, actions, root, rel.to); }
        return;
      }
      BetweenEnds(before, files, actions, root, rel.to);
      SameManifest(before, files, rel, root, report, manifest);
      SameReadyManifest(before, files, actions, rel, root);
      ghost var start := files;
      ok := AdvanceManifest(rel, stamp, report, before, manifest, from);
      DoneAtTheEnd(start, files, actions, rel.to, stamp);
    }
  }

  ghost function ManifestText(files: Files, rel: Release): string {
    if NextManifest(files, rel).Some? then rel.encode(NextManifest(files, rel).value) else ""
  }

  /** Between two actions: those behind are done, those ahead and the manifest are untouched. */
  ghost predicate Between(before: Files, now: Files, actions: seq<Action>, i: nat, root: string, to: string) {
    && (forall j :: 0 <= j < i && j < |actions| ==> Done(now, actions[j], root, to))
    && (forall j :: i <= j < |actions| ==> SameAt(before, now, actions[j].path))
    && SameAt(before, now, MANIFEST)
  }

  predicate Separate(actions: seq<Action>) {
    (forall i :: 0 <= i < |actions| ==> !Private(actions[i].path)) &&
    forall i, j :: 0 <= i < j < |actions| ==> actions[i].path != actions[j].path
  }

  lemma DoneStays(was: Files, now: Files, a: Action, root: string, to: string, path: string)
    requires Done(was, a, root, to) && SameBut(was, now, path)
    requires a.path != path && BackupPath(root, a.path) != path && CandidatePath(to, a.path) != path
    ensures Done(now, a, root, to)
  {
  }

  lemma BetweenEnds(before: Files, now: Files, actions: seq<Action>, root: string, to: string)
    requires Between(before, now, actions, |actions|, root, to)
    ensures forall i :: 0 <= i < |actions| ==> Done(now, actions[i], root, to)
    ensures SameAt(before, now, MANIFEST)
  {
    hide Done, SameAt;
  }

  lemma ConflictsSnoc(actions: seq<Action>, i: nat)
    requires i < |actions|
    ensures Conflicts(actions[..i + 1]) == Conflicts(actions[..i]) + if actions[i].status.Conflict? then 1 else 0
    ensures Conflicts(actions[..0]) == 0
  {
    assert actions[..i + 1][..i] == actions[..i];
  }

  /** The manifest to write does not depend on when the files are looked at. */
  lemma SameManifest(before: Files, now: Files, rel: Release, root: string, report: Report, manifest: string)
    requires WellFormed(rel) && SafePoint(before, now, root, report, manifest) && SameAt(before, now, MANIFEST)
    ensures NextManifest(before, rel) == NextManifest(now, rel)
  {
    hide Hashes, MayBecome, BackedUp, Private;
    forall i | 0 <= i < |rel.paths| ensures rel.paths[i] in before <==> rel.paths[i] in now {
      if rel.paths[i] in before { assert SafeFile(before, now, root, report, manifest, rel.paths[i]); }
    }
    var m := if MANIFEST in before then rel.parse(before[MANIFEST]) else Some(Manifest("", map[], ""));
    if m.Some? { HashesSee(before, now, rel, m.value.runtimeFiles, |rel.paths|); }
  }

  /** One action changes its own path at most, and adds its backup or its candidate at most. */
  predicate Adds(was: Files, now: Files, a: Action, root: string, to: string) {
    SameBut(was, now, a.path) &&
    forall p :: p in now && p !in was ==> p == if a.Writes() then BackupPath(root, a.path) else CandidatePath(to, a.path)
  }

  lemma PlannedText(report: Report, i: nat, manifest: string)
    requires i < |report.actions| && report.actions[i].Writes()
    ensures MayBecome(report, manifest, report.actions[i].path, report.actions[i].content)
  {
    assert WritesTo(report.actions[i], report.actions[i].path, report.actions[i].content);
  }

  lemma BetweenSteps(before: Files, was: Files, now: Files, actions: seq<Action>, i: nat, stamp: string, to: string)
    requires Separate(actions) && i < |actions| && Between(before, was, actions, i, BackupRoot(to, stamp), to)
    requires Adds(was, now, actions[i], BackupRoot(to, stamp), to) && Done(now, actions[i], BackupRoot(to, stamp), to)
    ensures Between(before, now, actions, i + 1, BackupRoot(to, stamp), to)
  {
    hide Done, SameAt, Private;
    var root, path := BackupRoot(to, stamp), actions[i].path;
    PathsApart(to, stamp, path);
    forall j | 0 <= j < i ensures Done(now, actions[j], root, to) {
      PathsApart(to, stamp, actions[j].path);
      DoneStays(was, now, actions[j], root, to, path);
    }
    forall j | i + 1 <= j < |actions| ensures SameAt(before, now, actions[j].path) {
      SameThere(before, was, now, actions[i], root, to, actions[j].path);
    }
    SameThere(before, was, now, actions[i], root, to, MANIFEST);
  }

  lemma ManifestStays(before: Files, was: Files, now: Files, actions: seq<Action>, i: nat, to: string, stamp: string)
    requires Separate(actions) && i < |actions| && SameAt(before, was, MANIFEST) && Adds(was, now, actions[i], BackupRoot(to, stamp), to)
    ensures SameAt(before, now, MANIFEST)
  {
    PathsApart(to, stamp, actions[i].path);
    SameThere(before, was, now, actions[i], BackupRoot(to, stamp), to, MANIFEST);
  }

  lemma IgnoreStays(before: Files, was: Files, now: Files, actions: seq<Action>, i: nat, stamp: string, to: string)
    requires Separate(actions) && i < |actions| && SameAt(before, was, IGNORE) && Adds(was, now, actions[i], BackupRoot(to, stamp), to)
    ensures SameAt(before, now, IGNORE)
  {
    PathsApart(to, stamp, actions[i].path);
    SameThere(before, was, now, actions[i], BackupRoot(to, stamp), to, IGNORE);
  }

  /** The backups and candidates of the actions ahead are as they were, so is the manifest's backup. */
  ghost predicate Ahead(before: Files, now: Files, actions: seq<Action>, i: nat, root: string, to: string) {
    (forall j :: i <= j < |actions| ==> FreeAt(before, now, actions[j].path, root, to)) &&
    SameAt(before, now, BackupPath(root, MANIFEST))
  }

  predicate FreeAt(before: Files, now: Files, path: string, root: string, to: string) {
    SameAt(before, now, BackupPath(root, path)) && SameAt(before, now, CandidatePath(to, path))
  }

  lemma PathsDiffer(to: string, stamp: string, p: string, q: string)
    ensures var root := BackupRoot(to, stamp);
            && BackupPath(root, p) != CandidatePath(to, q)
            && (p != q ==> BackupPath(root, p) != BackupPath(root, q) && CandidatePath(to, p) != CandidatePath(to, q))
  {
    var root := BackupRoot(to, stamp);
    assert BackupPath(root, p)[16] == 'b' && CandidatePath(to, q)[16] == 'c';
    var dir := ".fgoths/upgrade-conflicts/v" + to + "/";
    assert BackupPath(root, p)[|root| + 1..] == p && BackupPath(root, q)[|root| + 1..] == q;
    assert CandidatePath(to, p) == dir + p + ".merge" && CandidatePath(to, q) == dir + q + ".merge";
    assert (dir + p + ".merge")[|dir|..|dir + p|] == p && (dir + q + ".merge")[|dir|..|dir + q|] == q;
  }

  lemma AheadSteps(before: Files, was: Files, now: Files, actions: seq<Action>, i: nat, stamp: string, to: string)
    requires Separate(actions) && i < |actions| && Ahead(before, was, actions, i, BackupRoot(to, stamp), to)
    requires Adds(was, now, actions[i], BackupRoot(to, stamp), to)
    ensures Ahead(before, now, actions, i + 1, BackupRoot(to, stamp), to)
  {
    hide SameAt, Private, BackupPath, CandidatePath, BackupRoot, Adds;
    var root, a := BackupRoot(to, stamp), actions[i];
    forall j | i + 1 <= j < |actions| ensures FreeAt(before, now, actions[j].path, root, to) {
      var path := actions[j].path;
      assert FreeAt(before, was, path, root, to);
      PathsApart(to, stamp, path);
      PathsDiffer(to, stamp, path, a.path);
      PathsDiffer(to, stamp, a.path, path);
      SameThere(before, was, now, a, root, to, BackupPath(root, path));
      SameThere(before, was, now, a, root, to, CandidatePath(to, path));
    }
    PathsApart(to, stamp, MANIFEST);
    PathsDiffer(to, stamp, MANIFEST, a.path);
    SameThere(before, was, now, a, root, to, BackupPath(root, MANIFEST));
  }

  predicate ReadyUpTo(before: Files, report: Report, i: nat, root: string, to: string)
    requires i <= |report.actions|
  {
    (report.ignore.Some? ==> ReadyIgnore(before, report.ignore.value, root)) &&
    forall j :: 0 <= j < i ==> ReadyAction(before, report.actions[j], root, to)
  }

  lemma SameReady(before: Files, now: Files, report: Report, i: nat, root: string, to: string)
    requires i < |report.actions| && Between(before, now, report.actions, i, root, to)
    requires Ahead(before, now, report.actions, i, root, to)
    ensures ReadyUpTo(before, report, i + 1, root, to) <==>
            ReadyUpTo(before, report, i, root, to) && ReadyAction(now, report.actions[i], root, to)
    ensures SameAt(before, now, MANIFEST)
  {
    hide BackupPath, CandidatePath, Done, ReadyIgnore;
    var a := report.actions[i];
    assert FreeAt(before, now, a.path, root, to) && SameAt(before, now, a.path);
    assert ReadyAction(before, a, root, to) <==> ReadyAction(now, a, root, to);
  }

  lemma ReadyStarts(before: Files, report: Report, root: string, to: string)
    ensures ReadyUpTo(before, report, 0, root, to) <==> (report.ignore.Some? ==> ReadyIgnore(before, report.ignore.value, root))
  {
    hide ReadyIgnore;
  }

  lemma ReadyAll(before: Files, report: Report, i: nat, root: string, to: string)
    requires i <= |report.actions|
    ensures ReadyUpTo(before, report, |report.actions|, root, to) ==> ReadyUpTo(before, report, i, root, to)
  {
    hide ReadyIgnore, ReadyAction;
  }

  lemma ReadyMeans(before: Files, report: Report, rel: Release, stamp: string)
    ensures var root := BackupRoot(rel.to, stamp);
            && (Ready(before, report, rel, stamp) ==> ReadyUpTo(before, report, 0, root, rel.to))
            && (Ready(before, report, rel, stamp) <==>
                ReadyUpTo(before, report, |report.actions|, root, rel.to) &&
                (Conflicts(report.actions) == 0 ==> ReadyManifest(before, rel, root)))
  {
    hide ReadyIgnore, ReadyAction, ReadyManifest, Conflicts;
  }

  lemma StillThere(before: Files, now: Files, actions: seq<Action>, root: string, to: string)
    requires Between(before, now, actions, 0, root, to)
    ensures SameAt(before, now, MANIFEST) && Conflicts(actions[..0]) == 0
  {
    hide SameAt, Done;
  }

  lemma SameReadyManifest(before: Files, now: Files, actions: seq<Action>, rel: Release, root: string)
    requires NextManifest(before, rel) == NextManifest(now, rel) && SameAt(before, now, MANIFEST)
    requires Ahead(before, now, actions, |actions|, root, rel.to)
    ensures ReadyManifest(before, rel, root) <==> ReadyManifest(now, rel, root)
  {
    hide BackupPath, NextManifest;
  }

  /** Writing the ignore file disturbs no action and not the manifest. */
  lemma IgnoreMoves(before: Files, now: Files, actions: seq<Action>, to: string, stamp: string)
    requires Separate(actions) && SameBut(before, now, IGNORE)
    requires forall p :: p in now && p !in before ==> p == IGNORE || p == BackupPath(BackupRoot(to, stamp), IGNORE)
    ensures Between(before, now, actions, 0, BackupRoot(to, stamp), to) && Ahead(before, now, actions, 0, BackupRoot(to, stamp), to)
    ensures SameAt(before, now, MANIFEST)
  {
    var root := BackupRoot(to, stamp);
    PathsApart(to, stamp, IGNORE);
    forall j | 0 <= j < |actions| ensures SameAt(before, now, actions[j].path) && FreeAt(before, now, actions[j].path, root, to) {
      PathsApart(to, stamp, actions[j].path);
      PathsDiffer(to, stamp, actions[j].path, IGNORE);
      PathsDiffer(to, stamp, IGNORE, actions[j].path);
    }
    assert MANIFEST != IGNORE;
    PathsApart(to, stamp, MANIFEST);
    PathsDiffer(to, stamp, MANIFEST, IGNORE);
  }

  lemma NothingMoves(before: Files, actions: seq<Action>, root: string, to: string)
    ensures Between(before, before, actions, 0, root, to) && Ahead(before, before, actions, 0, root, to)
  {
  }

  lemma DoneAtTheEnd(was: Files, now: Files, actions: seq<Action>, to: string, stamp: string)
    requires Separate(actions) && SameBut(was, now, MANIFEST)
    requires forall p :: p in now && p !in was ==> p == MANIFEST || p == BackupPath(BackupRoot(to, stamp), MANIFEST)
    requires forall i :: 0 <= i < |actions| ==> Done(was, actions[i], BackupRoot(to, stamp), to)
    ensures forall i :: 0 <= i < |actions| ==> Done(now, actions[i], BackupRoot(to, stamp), to)
    ensures SameAt(was, now, IGNORE)
  {
    assert MANIFEST != IGNORE;
    PathsApart(to, stamp, MANIFEST);
    forall i | 0 <= i < |actions| ensures Done(now, actions[i], BackupRoot(to, stamp), to) {
      PathsApart(to, stamp, actions[i].path);
      DoneStays(was, now, actions[i], BackupRoot(to, stamp), to, MANIFEST);
    }
  }

  lemma SameThere(before: Files, was: Files, now: Files, a: Action, root: string, to: string, p: string)
    requires SameAt(before, was, p) && Adds(was, now, a, root, to)
    requires p != a.path && p != if a.Writes() then BackupPath(root, a.path) else CandidatePath(to, a.path)
    ensures SameAt(before, now, p)
  {
  }

  predicate SameAt(was: Files, now: Files, p: string) {
    (p in was <==> p in now) && (p in was ==> was[p] == now[p])
  }

  lemma StartsSafe(before: Files, points: seq<Files>, root: string, report: Report, manifest: string)
    ensures SafePoint(before, before, root, report, manifest)
    ensures AllSafe(before, points, |points|, root, report, manifest)
  {
  }

  lemma NoBackupIs(to: string, stamp: string, path: string)
    requires path == IGNORE || path == MANIFEST || !Private(path)
    ensures forall p :: BackupPath(BackupRoot(to, stamp), p) != path
  {
    forall p ensures BackupPath(BackupRoot(to, stamp), p) != path { PathsApart(to, stamp, p); }
  }

  lemma SafeSnoc(before: Files, points: seq<Files>, now: Files, from: nat, root: string, report: Report, manifest: string)
    requires AllSafe(before, points, from, root, report, manifest) && SafePoint(before, now, root, report, manifest)
    ensures AllSafe(before, points + [now], from, root, report, manifest)
  {
  }

  lemma KeptByNew(was: Files, now: Files, added: string, path: string)
    requires now == was || (added !in was && added in now && now == was[added := now[added]])
    ensures forall p :: p in was ==> p in now && now[p] == was[p]
    ensures SameBut(was, now, path)
    ensures forall p :: p in now && p !in was ==> p == added
  {
  }

  lemma KeptByRewrite(before: Files, was: Files, middle: Files, now: Files, root: string, path: string, text: string)
    requires SameBut(was, middle, path) && BackedUp(before, middle, root, path) && BackupPath(root, path) != path
    requires now == middle[path := text] || now == middle
    ensures SameBut(was, now, path) && BackedUp(before, now, root, path)
  {
  }

  lemma ShippedPathsAreWellFormed(rel: Release)
    requires rel.paths == PATHS
    ensures WellFormed(rel)
  {
    assert |PATHS[0]| == |PATHS[1]| == 21 && PATHS[0][12] != PATHS[1][12];
    assert |PATHS[2]| == 20 && |PATHS[3]| == 22 && |PATHS[4]| == 22 && PATHS[3][12] != PATHS[4][12] && |PATHS[5]| == 19;
  }

  // ---------------------------------------------------------------- runtime files

  /** At every point a runtime file the plan does not write is what it was: so are the files
      in conflict. */
  lemma UnwrittenStays(before: Files, now: Files, root: string, report: Report, manifest: string, path: string)
    requires SafePoint(before, now, root, report, manifest) && !Private(path)
    requires forall i :: 0 <= i < |report.actions| && report.actions[i].path == path ==> !report.actions[i].Writes()
    ensures SameAt(before, now, path)
  {
    hide BackedUp;
    PathsApart("", "", path);
    if path in before { assert SafeFile(before, now, root, report, manifest, path); }
  }

  // ---------------------------------------------------------------- running again

  /** A merge result merges to itself, and a file nobody edited merges to the target. */
  ghost predicate Idempotent(rel: Release) {
    (forall c, b, t :: rel.merge(c, b, t).Merged? ==> rel.merge(rel.merge(c, b, t).text, b, t) == rel.merge(c, b, t)) &&
    forall b, t :: rel.merge(b, b, t) == Merged(t)
  }

  ghost predicate RoundTrips(rel: Release) {
    forall m :: rel.parse(rel.encode(m)) == Some(m)
  }

  /** The second verdict on a file: still in conflict, or nothing to do. */
  predicate Settled(first: Verdict, second: Verdict) {
    match first
    case Absent => second == Absent
    case Refused => true
    case Act(a) =>
      if a.status.Conflict? then second == first else second.Act? && second.action.path == a.path && second.action.status.Current?
  }

  lemma JudgedAgain(before: Files, now: Files, rel: Release, path: string)
    requires Idempotent(rel) && (Judge(before, rel, path).Absent? ==> path !in now)
    requires var v := Judge(before, rel, path);
             v.Act? ==> path in now && now[path] == if v.action.Writes() then v.action.content else before[path]
    ensures Settled(Judge(before, rel, path), Judge(now, rel, path))
  {
    var v := Judge(before, rel, path);
    if v.Act? && v.action.status.Merge3? {
      var c, b, t := before[path], rel.base[path], rel.target[path];
      var m := rel.merge(c, b, t);
      assert rel.merge(m.text, b, t) == m;
      assert rel.merge(b, b, t) == Merged(t);
    }
  }

  ghost predicate AllSettled(first: seq<Action>, second: seq<Action>) {
    |first| == |second| && forall i :: 0 <= i < |first| ==> Settled(Act(first[i]), Act(second[i]))
  }

  lemma {:induction false} PlannedAgain(before: Files, now: Files, rel: Release, n: nat)
    requires n <= |rel.paths| && Planned(before, rel, n).Some?
    requires forall i :: 0 <= i < n ==> Settled(Judge(before, rel, rel.paths[i]), Judge(now, rel, rel.paths[i]))
    ensures Planned(now, rel, n).Some? && AllSettled(Planned(before, rel, n).value, Planned(now, rel, n).value)
  {
    if n > 0 {
      PlannedAgain(before, now, rel, n - 1);
      assert Settled(Judge(before, rel, rel.paths[n - 1]), Judge(now, rel, rel.paths[n - 1]));
    }
  }

  /** The action on each path is its verdict. */
  lemma {:induction false} ActionOf(files: Files, rel: Release, n: nat, i: nat) returns (k: nat)
    requires n <= |rel.paths| && Planned(files, rel, n).Some? && i < n && Judge(files, rel, rel.paths[i]).Act?
    ensures k < |Planned(files, rel, n).value| && Planned(files, rel, n).value[k] == Judge(files, rel, rel.paths[i]).action
  {
    if i == n - 1 {
      k := |Planned(files, rel, n).value| - 1;
    } else {
      k := ActionOf(files, rel, n - 1, i);
    }
  }

  lemma {:induction false} NeverRefused(files: Files, rel: Release, n: nat, i: nat)
    requires n <= |rel.paths| && Planned(files, rel, n).Some? && i < n
    ensures !Judge(files, rel, rel.paths[i]).Refused?
  {
    if i < n - 1 { NeverRefused(files, rel, n - 1, i); }
  }

  /** After a run that saw every action through, a new plan writes nothing, and its conflicts are
      the old ones. */
  lemma ReplanIsQuiet(before: Files, now: Files, rel: Release, report: Report, stamp: string, manifest: string)
    requires WellFormed(rel) && Idempotent(rel) && Planned(before, rel, |rel.paths|) == Some(report.actions)
    requires SafePoint(before, now, BackupRoot(rel.to, stamp), report, manifest)
    requires forall i :: 0 <= i < |report.actions| ==> Done(now, report.actions[i], BackupRoot(rel.to, stamp), rel.to)
    ensures Planned(now, rel, |rel.paths|).Some? && AllSettled(report.actions, Planned(now, rel, |rel.paths|).value)
  {
    var n := |rel.paths|;
    PlannedIsGood(before, rel, n);
    forall i | 0 <= i < n ensures Settled(Judge(before, rel, rel.paths[i]), Judge(now, rel, rel.paths[i])) {
      var path := rel.paths[i];
      NeverRefused(before, rel, n, i);
      var v := Judge(before, rel, path);
      if v.Act? {
        var k := ActionOf(before, rel, n, i);
        if !v.action.Writes() { UnwrittenStays(before, now, BackupRoot(rel.to, stamp), report, manifest, path); }
      }
      JudgedAgain(before, now, rel, path);
    }
    PlannedAgain(before, now, rel, n);
  }

  datatype Result = UpToDate | NoPlan | Applied(conflicts: nat, ok: bool)

  /** The manifest names the version already. */
  predicate AtTarget(files: Files, rel: Release) {
    MANIFEST in files && rel.parse(files[MANIFEST]).Some? && rel.parse(files[MANIFEST]).value.version == rel.to
  }

  predicate Unreadable(files: Files, rel: Release) {
    MANIFEST in files && rel.parse(files[MANIFEST]).None?
  }

  function PlanIgnore(files: Files, rel: Release): Option<Action> {
    var original := if IGNORE in files then files[IGNORE] else "";
    if rel.withRules(original) == original then None else Some(Action(IGNORE, Update, original, rel.withRules(original)))
  }

  /** No backup directory of that name yet; its name holds the present time. */
  ghost predicate NoBackups(files: Files, to: string, stamp: string) {
    forall p :: BackupPath(BackupRoot(to, stamp), p) !in files
  }

  predicate CandidateFree(files: Files, to: string, a: Action) {
    a.status.Conflict? && CandidatePath(to, a.path) in files ==> files[CandidatePath(to, a.path)] == a.content
  }

  /** A run that has just planned can go through, its writes permitting, exactly when the path of
      each merge candidate is free or holds that very candidate. So a candidate that an earlier run
      left cut short stops later runs that plan the same conflict until it is taken away. */
  lemma GoesThroughIffCandidatesFree(files: Files, rel: Release, report: Report, stamp: string)
    requires WellFormed(rel) && !Unreadable(files, rel) && NoBackups(files, rel.to, stamp)
    requires Planned(files, rel, |rel.paths|) == Some(report.actions) && report.ignore == PlanIgnore(files, rel)
    ensures Ready(files, report, rel, stamp) <==>
            forall i :: 0 <= i < |report.actions| ==> CandidateFree(files, rel.to, report.actions[i])
  {
    PlannedIsGood(files, rel, |rel.paths|);
    var root := BackupRoot(rel.to, stamp);
    hide Planned, Judge, BackupPath, CandidatePath, BackupRoot, Conflicts, Hashes;
    forall i | 0 <= i < |report.actions|
      ensures ReadyAction(files, report.actions[i], root, rel.to) <==> CandidateFree(files, rel.to, report.actions[i])
    {
      assert GoodAction(files, report.actions[i]);
      assert BackupPath(root, report.actions[i].path) !in files;
    }
    assert BackupPath(root, IGNORE) !in files && BackupPath(root, MANIFEST) !in files;
  }

  // ---------------------------------------------------------------- what a run does to the files

  /** The state of one runtime file after a run that went through. */
  predicate Upgraded(before: Files, now: Files, rel: Release, stamp: string, path: string) {
    if path !in before then path !in now
    else
      path in now && path in rel.base && path in rel.target &&
      (now[path] != before[path] ==> HoldsBackup(now, rel.to, stamp, path, before[path])) &&
      var current, base, target := before[path], rel.base[path], rel.target[path];
      if current == base || current == target then now[path] == target
      else
        match rel.merge(current, base, target)
        case Merged(text) => now[path] == text
        case Clash(candidate) => now[path] == current && HoldsCandidate(now, rel.to, path, candidate)
        case Broken => false
  }

  predicate HoldsBackup(files: Files, to: string, stamp: string, path: string, original: string) {
    var saved := ".fgoths/upgrade-backups/v" + to + "-" + stamp + "/" + path;
    saved in files && files[saved] == original
  }

  predicate HoldsCandidate(files: Files, to: string, path: string, candidate: string) {
    var saved := ".fgoths/upgrade-conflicts/v" + to + "/" + path + ".merge";
    saved in files && files[saved] == candidate
  }

  /** A file that is neither the shipped one nor the new one. */
  predicate Edited(files: Files, rel: Release, path: string) {
    path in files && path in rel.base && path in rel.target && files[path] != rel.base[path] && files[path] != rel.target[path]
  }

  predicate Clashes(files: Files, rel: Release, path: string) {
    Edited(files, rel, path) && rel.merge(files[path], rel.base[path], rel.target[path]).Clash?
  }

  /** What keeps a plan from being made. */
  predicate Unplannable(files: Files, rel: Release, path: string) {
    path !in rel.base || path !in rel.target ||
    (Edited(files, rel, path) && rel.merge(files[path], rel.base[path], rel.target[path]).Broken?)
  }

  /** The candidate of a clash, if there is something at its path, is there already. */
  predicate Unobstructed(files: Files, rel: Release, path: string) {
    Clashes(files, rel, path) && CandidatePath(rel.to, path) in files ==>
      HoldsCandidate(files, rel.to, path, rel.merge(files[path], rel.base[path], rel.target[path]).candidate)
  }

  /** The ignore file has its rules; it is only made where there are rules to put in. */
  predicate Ignores(before: Files, now: Files, rel: Release) {
    var was := if IGNORE in before then before[IGNORE] else "";
    if IGNORE in now then now[IGNORE] == rel.withRules(was) else IGNORE !in before && rel.withRules(was) == was
  }

  /** The manifest names the new version, records the shipped hash of each runtime file that is there,
      forgets those that are not, and keeps everything else. */
  ghost predicate Advanced(before: Files, now: Files, rel: Release) {
    var was := if MANIFEST in before then rel.parse(before[MANIFEST]) else Some(Manifest("", map[], ""));
    was.Some? && MANIFEST in now && exists m :: now[MANIFEST] == rel.encode(m) && IsNext(before, rel, was.value, m)
  }

  ghost predicate IsNext(before: Files, rel: Release, was: Manifest, m: Manifest) {
    m.version == rel.to && m.rest == was.rest && forall p :: HashFits(before, rel, was, m, p)
  }

  predicate HashFits(before: Files, rel: Release, was: Manifest, m: Manifest, p: string) {
    HashAt(m.runtimeFiles, p) ==
    if p !in rel.paths then HashAt(was.runtimeFiles, p)
    else if p in before && p in rel.target then Some(rel.hash(rel.target[p]))
    else None
  }

  function HashAt(hashes: map<string, string>, path: string): Option<string> {
    if path in hashes then Some(hashes[path]) else None
  }

  lemma ManifestAdvances(before: Files, now: Files, rel: Release)
    requires NextManifest(before, rel).Some? && MANIFEST in now && now[MANIFEST] == ManifestText(before, rel)
    requires forall i :: 0 <= i < |rel.paths| ==> !Unplannable(before, rel, rel.paths[i])
    ensures Advanced(before, now, rel)
  {
    var was := if MANIFEST in before then rel.parse(before[MANIFEST]) else Some(Manifest("", map[], ""));
    var m, n := NextManifest(before, rel).value, |rel.paths|;
    assert rel.paths[..n] == rel.paths;
    assert forall i :: 0 <= i < n ==> !Unplannable(before, rel, rel.paths[i]) && rel.paths[i] in rel.target;
    forall p ensures HashFits(before, rel, was.value, m, p) {
      HashesMean(before, rel, was.value.runtimeFiles, n, p);
    }
  }

  lemma {:induction false} PlannedIff(files: Files, rel: Release, n: nat)
    requires n <= |rel.paths|
    ensures Planned(files, rel, n).Some? <==> forall i :: 0 <= i < n ==> !Unplannable(files, rel, rel.paths[i])
  {
    if n > 0 { PlannedIff(files, rel, n - 1); }
  }

  ghost function ClashesIn(files: Files, rel: Release, n: nat): set<int>
    requires n <= |rel.paths|
  {
    set i | 0 <= i < n && Clashes(files, rel, rel.paths[i])
  }

  lemma OneMoreClash(files: Files, rel: Release, n: nat)
    requires n < |rel.paths|
    ensures |ClashesIn(files, rel, n + 1)| == |ClashesIn(files, rel, n)| + if Clashes(files, rel, rel.paths[n]) then 1 else 0
    ensures |ClashesIn(files, rel, 0)| == 0
  {
    hide Clashes;
    var here: set<int> := if Clashes(files, rel, rel.paths[n]) then {n} else {};
    assert ClashesIn(files, rel, n + 1) == ClashesIn(files, rel, n) + here;
    assert ClashesIn(files, rel, 0) == {};
  }

  lemma ClashHere(files: Files, rel: Release, path: string)
    ensures match Judge(files, rel, path)
            case Absent => !Clashes(files, rel, path)
            case Act(a) => a.status.Conflict? <==> Clashes(files, rel, path)
            case Refused => true
  {
  }

  lemma {:induction false} ConflictsAreClashes(files: Files, rel: Release, n: nat)
    requires n <= |rel.paths| && Planned(files, rel, n).Some?
    ensures Conflicts(Planned(files, rel, n).value) == |ClashesIn(files, rel, n)|
  {
    if n == 0 {
      if rel.paths != [] { OneMoreClash(files, rel, 0); } else { assert ClashesIn(files, rel, n) == {}; }
    } else {
      ConflictsAreClashes(files, rel, n - 1);
      OneMoreClash(files, rel, n - 1);
      ClashHere(files, rel, rel.paths[n - 1]);
      var front, v := Planned(files, rel, n - 1).value, Judge(files, rel, rel.paths[n - 1]);
      hide Judge, Clashes, ClashesIn;
      if v.Act? { assert (front + [v.action])[..|front|] == front; }
    }
  }

  lemma JudgedIsUpgraded(before: Files, now: Files, rel: Release, stamp: string, path: string)
    requires var v := Judge(before, rel, path);
             match v
             case Absent => path !in now
             case Refused => false
             case Act(a) => Done(now, a, BackupRoot(rel.to, stamp), rel.to) && (!a.Writes() ==> SameAt(before, now, path))
    ensures Upgraded(before, now, rel, stamp, path)
  {
  }

  lemma UpgradedAt(before: Files, now: Files, rel: Release, report: Report, stamp: string, manifest: string, i: nat)
    requires WellFormed(rel) && Planned(before, rel, |rel.paths|) == Some(report.actions) && i < |rel.paths|
    requires SafePoint(before, now, BackupRoot(rel.to, stamp), report, manifest)
    requires forall i :: 0 <= i < |report.actions| ==> Done(now, report.actions[i], BackupRoot(rel.to, stamp), rel.to)
    ensures Upgraded(before, now, rel, stamp, rel.paths[i])
  {
    var n, path := |rel.paths|, rel.paths[i];
    PlannedIsGood(before, rel, n);
    NeverRefused(before, rel, n, i);
    var v := Judge(before, rel, path);
    assert v.Absent? ==> path !in now;
    assert v.Act? ==> v.action.path == path;
    hide Judge, Upgraded, Done, SafePoint, Private, Planned;
    if v.Act? {
      var k := ActionOf(before, rel, n, i);
      assert Done(now, report.actions[k], BackupRoot(rel.to, stamp), rel.to);
      if !v.action.Writes() { UnwrittenStays(before, now, BackupRoot(rel.to, stamp), report, manifest, path); }
    }
    JudgedIsUpgraded(before, now, rel, stamp, path);
  }

  lemma {:induction false} CandidatesFreeIff(files: Files, rel: Release, n: nat)
    requires n <= |rel.paths| && Planned(files, rel, n).Some?
    ensures var actions := Planned(files, rel, n).value;
            (forall i :: 0 <= i < |actions| ==> CandidateFree(files, rel.to, actions[i])) <==>
            forall i :: 0 <= i < n ==> Unobstructed(files, rel, rel.paths[i])
  {
    if n > 0 {
      CandidatesFreeIff(files, rel, n - 1);
      FreeHere(files, rel, rel.paths[n - 1]);
      var front, v := Planned(files, rel, n - 1).value, Judge(files, rel, rel.paths[n - 1]);
      hide Judge, Unobstructed, CandidateFree;
      if v.Act? {
        var actions := front + [v.action];
        assert forall i :: 0 <= i < |front| ==> actions[i] == front[i];
        assert actions[|front|] == v.action;
      }
    }
  }

  lemma FreeHere(files: Files, rel: Release, path: string)
    ensures match Judge(files, rel, path)
            case Absent => Unobstructed(files, rel, path)
            case Act(a) => CandidateFree(files, rel.to, a) <==> Unobstructed(files, rel, path)
            case Refused => true
  {
  }

  lemma IgnoreKept(before: Files, now: Files, rel: Release, report: Report, root: string, manifest: string)
    requires report.ignore == PlanIgnore(before, rel) && SafePoint(before, now, root, report, manifest) && Separate(report.actions)
    requires IGNORE in now && report.ignore.None? ==> IGNORE in before
    ensures (report.ignore.Some? ==> IGNORE in now && now[IGNORE] == report.ignore.value.content) ==> Ignores(before, now, rel)
  {
    hide BackedUp;
    PathsApart("", "", "");
    if IGNORE in before { assert SafeFile(before, now, root, report, manifest, IGNORE); }
  }

  lemma AllUpgraded(before: Files, now: Files, rel: Release, report: Report, stamp: string, manifest: string)
    requires WellFormed(rel) && Planned(before, rel, |rel.paths|) == Some(report.actions)
    requires SafePoint(before, now, BackupRoot(rel.to, stamp), report, manifest)
    requires forall i :: 0 <= i < |report.actions| ==> Done(now, report.actions[i], BackupRoot(rel.to, stamp), rel.to)
    ensures forall i :: 0 <= i < |rel.paths| ==> Upgraded(before, now, rel, stamp, rel.paths[i])
  {
    hide *;
    forall i | 0 <= i < |rel.paths| ensures Upgraded(before, now, rel, stamp, rel.paths[i]) {
      UpgradedAt(before, now, rel, report, stamp, manifest, i);
    }
  }

  lemma SaidWithFiles(before: Files, now: Files, rel: Release, report: Report, stamp: string, conflicts: nat, ok: bool)
    requires WellFormed(rel) && Planned(before, rel, |rel.paths|) == Some(report.actions) && !Unreadable(before, rel)
    requires SafePoint(before, now, BackupRoot(rel.to, stamp), report, ManifestText(before, rel))
    requires report.ignore == PlanIgnore(before, rel)
    requires Separate(report.actions)
    requires ok ==> conflicts == Conflicts(report.actions) &&
                    forall i :: 0 <= i < |report.actions| ==> Done(now, report.actions[i], BackupRoot(rel.to, stamp), rel.to)
    requires ok && report.ignore.Some? ==> IGNORE in now && now[IGNORE] == report.ignore.value.content
    requires IGNORE in now && report.ignore.None? ==> IGNORE in before
    requires ok && conflicts == 0 ==> MANIFEST in now && now[MANIFEST] == ManifestText(before, rel) && NextManifest(before, rel).Some?
    ensures ok ==>
              && (forall i :: 0 <= i < |rel.paths| ==> Upgraded(before, now, rel, stamp, rel.paths[i]))
              && conflicts == |ClashesIn(before, rel, |rel.paths|)|
              && (conflicts == 0 ==> Advanced(before, now, rel)) && Ignores(before, now, rel)
    ensures NoBackups(before, rel.to, stamp) ==>
              (Ready(before, report, rel, stamp) <==> forall i :: 0 <= i < |rel.paths| ==> Unobstructed(before, rel, rel.paths[i]))
  {
    hide *;
    PlannedIff(before, rel, |rel.paths|);
    IgnoreKept(before, now, rel, report, BackupRoot(rel.to, stamp), ManifestText(before, rel));
    ConflictsAreClashes(before, rel, |rel.paths|);
    CandidatesFreeIff(before, rel, |rel.paths|);
    if NoBackups(before, rel.to, stamp) { GoesThroughIffCandidatesFree(before, rel, report, stamp); }
    if ok {
      AllUpgraded(before, now, rel, report, stamp, ManifestText(before, rel));
      if conflicts == 0 { ManifestAdvances(before, now, rel); }
    }
  }

  /** upgrade --apply, from plan to manifest. */
  method RunUpgrade(project: Project, rel: Release, stamp: string) returns (r: Result, ghost report: Report)
    requires WellFormed(rel)
    modifies project
    ensures r.UpToDate? <==> AtTarget(old(project.files), rel)
    ensures !r.Applied? ==> project.files == old(project.files)
    ensures r.NoPlan? <==> !r.UpToDate? && (Unreadable(old(project.files), rel) || Planned(old(project.files), rel, |rel.paths|).None?)
    ensures r.Applied? && !(r.ok && r.conflicts == 0) ==> SameAt(old(project.files), project.files, MANIFEST)
    ensures r.Applied? ==>
              && Planned(old(project.files), rel, |rel.paths|) == Some(report.actions) && Separate(report.actions)
              && report.ignore == PlanIgnore(old(project.files), rel)
              && (project.WritesComplete() ==> (r.ok <==> Ready(old(project.files), report, rel, stamp)))
              && SafePoint(old(project.files), project.files, BackupRoot(rel.to, stamp), report, ManifestText(old(project.files), rel))
    ensures r.Applied? && r.ok ==>
              && r.conflicts == Conflicts(report.actions)
              && (forall i :: 0 <= i < |report.actions| ==> Done(project.files, report.actions[i], BackupRoot(rel.to, stamp), rel.to))
    ensures r.Applied? && r.ok && r.conflicts == 0 && RoundTrips(rel) ==> AtTarget(project.files, rel)
    // the same said with the files and the release alone
    ensures r.NoPlan? <==>
              !r.UpToDate? && (Unreadable(old(project.files), rel) ||
                exists i :: 0 <= i < |rel.paths| && Unplannable(old(project.files), rel, rel.paths[i]))
    ensures r.Applied? && r.ok ==>
              && (forall i :: 0 <= i < |rel.paths| ==> Upgraded(old(project.files), project.files, rel, stamp, rel.paths[i]))
              && r.conflicts == |ClashesIn(old(project.files), rel, |rel.paths|)|
              && (r.conflicts == 0 ==> Advanced(old(project.files), project.files, rel))
              && Ignores(old(project.files), project.files, rel)
    ensures r.Applied? && project.WritesComplete() && NoBackups(old(project.files), rel.to, stamp) ==>
              (r.ok <==> forall i :: 0 <= i < |rel.paths| ==> Unobstructed(old(project.files), rel, rel.paths[i]))
  {
    report := Report([], None);
    if MANIFEST in project.files {
      var m := rel.parse(project.files[MANIFEST]);
      if m.None? {
        return NoPlan, report;
      }
      if m.value.version == rel.to {
        return UpToDate, report;
      }
    }
    PlannedIff(project.files, rel, |rel.paths|);
    var ignore := PlanIgnore(project.files, rel);
    var actions := PlanFiles(project.files, rel);
    if actions.None? {
      return NoPlan, report;
    }
    PlannedIsGood(project.files, rel, |rel.paths|);
    report := Report(actions.value, ignore);
    ghost var before := project.files;
    var conflicts, ok := project.Apply(Report(actions.value, ignore), rel, stamp);
    SaidWithFiles(before, project.files, rel, report, stamp, conflicts, ok);
    return Applied(conflicts, ok), report;
  }

  lemma {:induction false} SettledConflicts(first: seq<Action>, second: seq<Action>)
    requires AllSettled(first, second)
    ensures Conflicts(first) == Conflicts(second)
  {
    if first != [] {
      var n := |first| - 1;
      assert Settled(Act(first[n]), Act(second[n]));
      SettledConflicts(first[..n], second[..n]);
    }
  }

  lemma CandidatesSaved(files: Files, first: seq<Action>, second: seq<Action>, root: string, to: string)
    requires AllSettled(first, second) && forall i :: 0 <= i < |first| ==> Done(files, first[i], root, to)
    ensures forall i :: 0 <= i < |second| ==> CandidateFree(files, to, second[i])
  {
    hide BackupPath, CandidatePath;
    forall i | 0 <= i < |second| ensures CandidateFree(files, to, second[i]) {
      assert Settled(Act(first[i]), Act(second[i])) && Done(files, first[i], root, to);
    }
  }

  /** Run the upgrade, and if it went through, with or without conflicts, run it again: whatever
      happens to the writes of the second run, no runtime file changes; it has nothing to do
      exactly when there were no conflicts, and otherwise meets the same ones and, its writes
      permitting, goes through as well. */
  method UpgradeTwice(project: Project, rel: Release, stamp: string, later: string)
    returns (first: Result, second: Result, ghost middle: Files)
    requires WellFormed(rel) && Idempotent(rel) && RoundTrips(rel)
    modifies project
    ensures first.Applied? && first.ok ==>
              && (forall p :: !Private(p) ==> SameAt(middle, project.files, p))
              && !second.NoPlan? && (second.UpToDate? <==> first.conflicts == 0)
              && (second.Applied? && second.ok ==> second.conflicts == first.conflicts)
              && (second.Applied? && project.WritesComplete() && NoBackups(middle, rel.to, later) ==> second.ok)
  {
    hide Upgraded, Clashes, ClashesIn, Unplannable, Unobstructed, Advanced, Ignores, Judge, Planned, Ready, SafePoint, Done;
    ghost var before := project.files;
    ghost var report, again;
    first, report := RunUpgrade(project, rel, stamp);
    middle := project.files;
    second := UpToDate;
    if !first.Applied? || !first.ok {
      return;
    }
    ReplanIsQuiet(before, middle, rel, report, stamp, ManifestText(before, rel));
    second, again := RunUpgrade(project, rel, later);
    if second.Applied? {
      SettledConflicts(report.actions, again.actions);
      if NoBackups(middle, rel.to, later) {
        GoesThroughIffCandidatesFree(middle, rel, again, later);
        CandidatesSaved(middle, report.actions, again.actions, BackupRoot(rel.to, stamp), rel.to);
      }
      forall p | !Private(p) ensures SameAt(middle, project.files, p) {
        forall i | 0 <= i < |again.actions| && again.actions[i].path == p ensures !again.actions[i].Writes() {
          assert Settled(Act(report.actions[i]), Act(again.actions[i]));
        }
        UnwrittenStays(middle, project.files, BackupRoot(rel.to, later), again, ManifestText(middle, rel), p);
      }
    }
  }
}
