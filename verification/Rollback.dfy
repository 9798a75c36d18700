/**
 The complex lane's file edits and the rollback that follows a failed validation
 (nodes/remediation.py, adapters/validation.py, execution/git_runner.py).
 */
module Rollback {
  import opened Collections

  // A workspace is a map from file paths, relative to its root, to contents, next to the map HEAD holds.
  // What the text rewrites compute is a parameter. The scaffold runs in fixture mode and the restoring
  // rollback in live mode, so no configured run calls both; they are related here as functions.

  // A planned target names its file as the plan wrote it, so parts may be "", "." or "..".
  datatype Target = Target(absolute: bool, parts: seq<string>)

  datatype Failure = AbsoluteTarget | EscapingTarget | NotAFile

  // `given` is the workspace path as configured, `root` the same directory with links resolved.
  datatype Repo = Repo(given: Path, root: Path, head: map<Path, string>)

  // The text rewrites: of an existing planned file, of a missing one, and of any other source file.
  datatype Editor = Editor(revise: (Target, string) -> string, render: Target -> string, migrate: (Path, string) -> string)

  // Files after the planned edits, the files written, and the exception that stopped them.
  datatype Planned = Planned(files: map<Path, string>, written: seq<Path>, failure: Option<Failure>)

  /* ---------- Paths ---------- */

  // (base / parts).resolve()
  function Normalize(base: Path, parts: seq<string>): Path
    decreases |parts|
  {
    if parts == [] then base
    else if parts[0] == "" || parts[0] == "." then Normalize(base, parts[1..])
    else if parts[0] == ".." then Normalize(if base == [] then [] else base[..|base| - 1], parts[1..])
    else Normalize(base + [parts[0]], parts[1..])
  }

  predicate Plain(parts: seq<string>) {
    forall part :: part in parts ==> part != "" && part != "." && part != ".."
  }

  lemma {:induction false} PlainNormalize(base: Path, parts: seq<string>)
    requires Plain(parts)
    ensures Normalize(base, parts) == base + parts
    decreases |parts|
  {
    if parts != [] {
      assert parts[0] in parts;
      assert forall part :: part in parts[1..] ==> part in parts;
      PlainNormalize(base + [parts[0]], parts[1..]);
      assert base + [parts[0]] + parts[1..] == base + parts;
    } else {
      assert base + parts == base;
    }
  }

  lemma {:induction false} NormalizeConcat(base: Path, a: seq<string>, b: seq<string>)
    ensures Normalize(base, a + b) == Normalize(Normalize(base, a), b)
    decreases |a|
  {
    if a == [] {
      assert a + b == b;
    } else {
      assert (a + b)[1..] == a[1..] + b;
      var next := if a[0] == "" || a[0] == "." then base
        else if a[0] == ".." then (if base == [] then [] else base[..|base| - 1])
        else base + [a[0]];
      NormalizeConcat(next, a[1..], b);
    }
  }

  // The text `..`, m times.
  function Ups(m: nat): seq<string> {
    if m == 0 then [] else [".."] + Ups(m - 1)
  }

  // The directory m levels up, or the topmost one.
  function Above(base: Path, m: nat): Path {
    if m <= |base| then base[..|base| - m] else []
  }

  lemma {:induction false} NormalizeUps(base: Path, m: nat)
    ensures Normalize(base, Ups(m)) == Above(base, m)
  {
    if m > 0 {
      assert Ups(m)[0] == ".." && Ups(m)[1..] == Ups(m - 1);
      var up := if base == [] then [] else base[..|base| - 1];
      NormalizeUps(up, m - 1);
    }
  }

  // No file stands where a directory is needed, and the path names no directory.
  predicate Writable(files: map<Path, string>, p: Path) {
    p != [] && forall q :: q in files ==> !(q < p) && !(p < q)
  }

  // The file a target names, relative to the root.
  function TargetPath(repo: Repo, files: map<Path, string>, target: Target): (r: Result<Path, Failure>) {
    if target.absolute then Err(AbsoluteTarget)
    else
      var resolved := Normalize(repo.root, target.parts);
      if !(repo.root <= resolved) then Err(EscapingTarget)
      else if !Writable(files, resolved[|repo.root|..]) then Err(NotAFile)
      else Ok(resolved[|repo.root|..])
  }

  /** A target is refused as absolute exactly when it is. */
  lemma AbsoluteExactly(repo: Repo, files: map<Path, string>, target: Target)
    ensures TargetPath(repo, files, target) == Err(AbsoluteTarget) <==> target.absolute
  {
    hide Normalize, Writable;
  }

  /** Empty parts and parts `.` do not change which file a target names. */
  lemma DotsAreDropped(repo: Repo, files: map<Path, string>, a: seq<string>, dot: string, b: seq<string>)
    requires dot == "" || dot == "."
    ensures TargetPath(repo, files, Target(false, a + [dot] + b)) == TargetPath(repo, files, Target(false, a + b))
  {
    NormalizeConcat(repo.root, a + [dot], b);
    NormalizeConcat(repo.root, a, [dot]);
    NormalizeConcat(repo.root, a, b);
    var here := Normalize(repo.root, a);
    assert [dot][1..] == [];
    assert Normalize(here, [dot]) == here;
    hide Writable;
  }

  /** A name followed by `..` does not either. */
  lemma UpUndoesName(repo: Repo, files: map<Path, string>, a: seq<string>, name: string, b: seq<string>)
    requires Plain([name])
    ensures TargetPath(repo, files, Target(false, a + [name, ".."] + b)) == TargetPath(repo, files, Target(false, a + b))
  {
    NormalizeConcat(repo.root, a + [name, ".."], b);
    NormalizeConcat(repo.root, a, [name, ".."]);
    NormalizeConcat(repo.root, a, b);
    var here := Normalize(repo.root, a);
    assert name in [name];
    assert [name, ".."][1..] == [".."] && [".."][1..] == [];
    assert Normalize(here, [name, ".."]) == Normalize(here + [name], [".."]) == here;
    hide Writable;
  }

  // What a relative target names that goes down, then up, and then along plain names.
  function Landing(root: Path, down: seq<string>, m: nat, rest: seq<string>): Path {
    (if m <= |down| then root + down[..|down| - m] else Above(root, m - |down|)) + rest
  }

  lemma NormalizeLands(root: Path, down: seq<string>, m: nat, rest: seq<string>)
    requires Plain(down) && Plain(rest)
    ensures Normalize(root, down + Ups(m) + rest) == Landing(root, down, m, rest)
  {
    NormalizeConcat(root, down + Ups(m), rest);
    NormalizeConcat(root, down, Ups(m));
    PlainNormalize(root, down);
    NormalizeUps(root + down, m);
    PlainNormalize(Above(root + down, m), rest);
    if m <= |down| {
      assert Above(root + down, m) == root + down[..|down| - m];
    } else {
      assert Above(root + down, m) == Above(root, m - |down|);
    }
  }

  /** A relative target of that form escapes exactly when it climbs above the workspace and its last names
      do not lead back into it; otherwise it names the file where it lands. */
  lemma EscapesExactly(repo: Repo, files: map<Path, string>, down: seq<string>, m: nat, rest: seq<string>)
    requires Plain(down) && Plain(rest)
    ensures var landing := Landing(repo.root, down, m, rest);
      TargetPath(repo, files, Target(false, down + Ups(m) + rest)) ==
        if m > |down| && !(repo.root <= landing) then Err(EscapingTarget)
        else if Writable(files, landing[|repo.root|..]) then Ok(landing[|repo.root|..])
        else Err(NotAFile)
  {
    NormalizeLands(repo.root, down, m, rest);
    if m <= |down| {
      assert repo.root <= repo.root + down[..|down| - m] + rest;
    }
    hide Normalize, Writable, Above;
  }

  /** A plain target is refused where a directory stands, or a file where its directory would: exactly when
      it is the workspace itself, lies below a file, or has a file below it. */
  lemma NotAFileExactly(repo: Repo, files: map<Path, string>, parts: seq<string>)
    requires Plain(parts)
    ensures TargetPath(repo, files, Target(false, parts)) == Err(NotAFile) <==>
      || parts == []
      || (exists file, rest :: file in files && rest != [] && parts == file + rest)
      || (exists file, rest :: file in files && rest != [] && file == parts + rest)
  {
    PlainNormalize(repo.root, parts);
    assert (repo.root + parts)[|repo.root|..] == parts;
    forall file | file in files && file < parts
      ensures exists rest :: rest != [] && parts == file + rest
    {
      assert parts == file + parts[|file|..];
    }
    forall file | file in files && parts < file
      ensures exists rest :: rest != [] && file == parts + rest
    {
      assert file == parts + file[|parts|..];
    }
  }

  const IgnoredDirectories: set<string> := {".git", ".venv", ".mvn", "build", "out", "target"}

  predicate IsSource(p: Path) {
    && p != []
    && (var name := Last(p); |name| >= 5 && name[|name| - 5..] == ".java")
    && forall part :: part in p ==> part !in IgnoredDirectories
  }

  /* ---------- What the scaffold writes ---------- */

  function RevisedText(editor: Editor, files: map<Path, string>, target: Target, p: Path): string {
    if p in files then editor.revise(target, files[p]) else editor.render(target)
  }

  function EditPlanned(repo: Repo, editor: Editor, files: map<Path, string>, targets: seq<Target>): Planned {
    if targets == [] then Planned(files, [], None)
    else
      var target := targets[|targets| - 1];
      var before := EditPlanned(repo, editor, files, targets[..|targets| - 1]);
      if before.failure.Some? then before
      else
        match TargetPath(repo, before.files, target)
        case Err(failure) => before.(failure := Some(failure))
        case Ok(p) =>
          Planned(before.files[p := RevisedText(editor, before.files, target, p)], before.written + [p], None)
  }

  // The sources no target names, as spelled in the plan, whose migrated text differs.
  predicate Migrates(editor: Editor, files: map<Path, string>, targets: seq<Target>, p: Path) {
    p in files && IsSource(p) && Target(false, p) !in targets && editor.migrate(p, files[p]) != files[p]
  }

  function Migrated(editor: Editor, files: map<Path, string>, targets: seq<Target>): set<Path> {
    set p | p in files && Migrates(editor, files, targets, p)
  }

  function EditSources(editor: Editor, files: map<Path, string>, targets: seq<Target>): map<Path, string> {
    map p | p in files :: if Migrates(editor, files, targets, p) then editor.migrate(p, files[p]) else files[p]
  }

  // Files after the whole scaffold.
  function Scaffolded(repo: Repo, editor: Editor, files: map<Path, string>, targets: seq<Target>): map<Path, string> {
    EditSources(editor, EditPlanned(repo, editor, files, targets).files, targets)
  }

  // The planned files are reported by resolved path, the migrated sources below the configured one.
  ghost predicate Reports(repo: Repo, editor: Editor, files: map<Path, string>, targets: seq<Target>, modified: seq<Path>) {
    var planned := EditPlanned(repo, editor, files, targets);
    forall a :: a in modified <==>
      || (exists p :: p in planned.written && a == repo.root + p)
      || (exists p :: p in Migrated(editor, planned.files, targets) && a == repo.given + p)
  }

  function Touched(repo: Repo, editor: Editor, files: map<Path, string>, targets: seq<Target>): set<Path> {
    var planned := EditPlanned(repo, editor, files, targets);
    (set p | p in planned.written) + Migrated(editor, planned.files, targets)
  }

  /* ---------- What the rollback restores ---------- */

  // A reported path is taken relative to the configured workspace path; others are skipped.
  function RelativeRestorePaths(given: Path, modified: seq<Path>): seq<Path> {
    if modified == [] then []
    else
      var n := |modified| - 1;
      RelativeRestorePaths(given, modified[..n]) + (if given <= modified[n] then [modified[n][|given|..]] else [])
  }

  function RolledBack(head: map<Path, string>, files: map<Path, string>, paths: seq<Path>): map<Path, string> {
    map p | p in files.Keys + head.Keys && (if p in paths then p in head else p in files) ::
      if p in paths then head[p] else files[p]
  }

  /* ---------- The operations ---------- */

  class Workspace {
    const repo: Repo
    var files: map<Path, string>

    constructor (repo: Repo, files: map<Path, string>)
      ensures this.repo == repo && this.files == files
    {
      this.repo := repo;
      this.files := files;
    }

    method MaterializeComplexScaffold(editor: Editor, targets: seq<Target>) returns (modified: Result<seq<Path>, Failure>)
      modifies this`files
      ensures var planned := EditPlanned(repo, editor, old(files), targets);
        match planned.failure
        case Some(failure) => modified == Err(failure) && files == planned.files
        case None =>
          && modified.Ok?
          && Reports(repo, editor, old(files), targets, modified.value)
          && files == Scaffolded(repo, editor, old(files), targets)
    {
      var written: seq<Path> := [];
      var reported: seq<Path> := [];
      for i := 0 to |targets|
        invariant EditPlanned(repo, editor, old(files), targets[..i]) == Planned(files, written, None)
        invariant |reported| == |written| && forall j :: 0 <= j < |written| ==> reported[j] == repo.root + written[j]
      {
        assert targets[..i + 1][..i] == targets[..i];
        var target := targets[i];
        match TargetPath(repo, files, target) {
          case Err(failure) =>
            FailureIsFinal(repo, editor, old(files), targets, i + 1);
            return Err(failure);
          case Ok(p) =>
            files := files[p := RevisedText(editor, files, target, p)];
            written := written + [p];
            reported := reported + [repo.root + p];
        }
      }
      assert targets[..|targets|] == targets;
      var sources := MigrateSources(editor, targets);
      ReportsBoth(repo, editor, old(files), targets, reported, sources);
      return Ok(reported + sources);
    }

    // The files are visited in no particular order; each depends on its own content only.
    method MigrateSources(editor: Editor, targets: seq<Target>) returns (reported: seq<Path>)
      modifies this`files
      ensures files == EditSources(editor, old(files), targets)
      ensures forall a :: a in reported <==> exists p :: p in Migrated(editor, old(files), targets) && a == repo.given + p
    {
      hide IsSource;
      var pending := set p | p in files && IsSource(p);
      ghost var done: set<Path> := {};
      reported := [];
      while pending != {}
        invariant pending + done == set p | p in old(files) && IsSource(p)
        invariant pending !! done
        invariant files.Keys == old(files).Keys
        invariant forall p :: p in files ==>
          files[p] == if p in done && Migrates(editor, old(files), targets, p) then editor.migrate(p, old(files)[p]) else old(files)[p]
        invariant forall a :: a in reported <==>
          exists p :: p in done && Migrates(editor, old(files), targets, p) && a == repo.given + p
      {
        var p :| p in pending;
        pending, done := pending - {p}, done + {p};
        if Target(false, p) in targets {
          continue;
        }
        var rendered := editor.migrate(p, files[p]);
        if rendered == files[p] {
          continue;
        }
        files := files[p := rendered];
        reported := reported + [repo.given + p];
      }
    }

    method PartitionTrackedPaths(paths: seq<Path>) returns (tracked: seq<Path>, untracked: seq<Path>)
      ensures forall p :: p in tracked <==> p in paths && p in repo.head
      ensures forall p :: p in untracked <==> p in paths && p !in repo.head
    {
      tracked, untracked := [], [];
      for i := 0 to |paths|
        invariant forall p :: p in tracked <==> p in paths[..i] && p in repo.head
        invariant forall p :: p in untracked <==> p in paths[..i] && p !in repo.head
      {
        assert paths[..i + 1] == paths[..i] + [paths[i]];
        if paths[i] in repo.head {
          tracked := tracked + [paths[i]];
        } else {
          untracked := untracked + [paths[i]];
        }
      }
      assert paths[..|paths|] == paths;
    }

    method RestorePaths(paths: seq<Path>)
      requires forall p :: p in paths ==> p in repo.head
      modifies this`files
      ensures files == old(files) + map p | p in repo.head && p in paths :: repo.head[p]
    {
      files := files + map p | p in repo.head && p in paths :: repo.head[p];
    }

    method RemoveUntrackedPaths(paths: seq<Path>)
      modifies this`files
      ensures files == old(files) - (set p | p in paths)
    {
      for i := 0 to |paths|
        invariant files == old(files) - (set p | p in paths[..i])
      {
        assert paths[..i + 1] == paths[..i] + [paths[i]];
        if paths[i] in files {
          files := files - {paths[i]};
        }
      }
      assert paths[..|paths|] == paths;
    }

    method Rollback(modified: seq<Path>)
      modifies this`files
      ensures files == RolledBack(repo.head, old(files), RelativeRestorePaths(repo.given, modified))
    {
      hide RolledBack, Normalize;
      var paths: seq<Path> := [];
      for i := 0 to |modified|
        invariant paths == RelativeRestorePaths(repo.given, modified[..i])
      {
        assert modified[..i + 1][..i] == modified[..i];
        if !(repo.given <= modified[i]) {
          continue;
        }
        paths := paths + [modified[i][|repo.given|..]];
      }
      assert modified[..|modified|] == modified;
      if paths != [] {
        var tracked, untracked := PartitionTrackedPaths(paths);
        RestorePaths(tracked);
        RemoveUntrackedPaths(untracked);
        RestoredThenRemoved(repo.head, old(files), paths, tracked, untracked);
      } else {
        NothingToRestore(repo.head, files);
      }
    }
  }

  /* ---------- Lemmas ---------- */

  lemma RestoredThenRemoved(
    head: map<Path, string>, files: map<Path, string>, paths: seq<Path>, tracked: seq<Path>, untracked: seq<Path>)
    requires forall p :: p in tracked <==> p in paths && p in head
    requires forall p :: p in untracked <==> p in paths && p !in head
    ensures files + (map p | p in head && p in tracked :: head[p]) - (set p | p in untracked) == RolledBack(head, files, paths)
  {
  }

  lemma NothingToRestore(head: map<Path, string>, files: map<Path, string>)
    ensures RolledBack(head, files, []) == files
  {
  }

  lemma {:induction false} FailureIsFinal(repo: Repo, editor: Editor, files: map<Path, string>, targets: seq<Target>, i: nat)
    requires i <= |targets|
    requires EditPlanned(repo, editor, files, targets[..i]).failure.Some?
    ensures EditPlanned(repo, editor, files, targets) == EditPlanned(repo, editor, files, targets[..i])
  {
    if i == |targets| {
      assert targets[..i] == targets;
    } else {
      var shorter := targets[..|targets| - 1];
      assert shorter[..i] == targets[..i];
      FailureIsFinal(repo, editor, files, shorter, i);
    }
  }

  /** The first bad target stops the scaffold: the targets before it are written as planned, and neither
      it nor any later one is. */
  lemma {:induction false} BadTargetStops(repo: Repo, editor: Editor, files: map<Path, string>, targets: seq<Target>)
    returns (i: nat)
    requires EditPlanned(repo, editor, files, targets).failure.Some?
    ensures i < |targets|
    ensures var before := EditPlanned(repo, editor, files, targets[..i]); var stopped := EditPlanned(repo, editor, files, targets);
      && before.failure.None? && stopped.files == before.files && stopped.written == before.written
      && TargetPath(repo, before.files, targets[i]) == Err(stopped.failure.value)
  {
    var n := |targets| - 1;
    if EditPlanned(repo, editor, files, targets[..n]).failure.Some? {
      i := BadTargetStops(repo, editor, files, targets[..n]);
      assert targets[..n][..i] == targets[..i];
    } else {
      i := n;
    }
    hide TargetPath;
  }

  /** The planned edits go through exactly when no target is bad at its turn. */
  lemma PlanGoesThroughExactly(repo: Repo, editor: Editor, files: map<Path, string>, targets: seq<Target>)
    ensures EditPlanned(repo, editor, files, targets).failure.None? <==>
      forall i :: 0 <= i < |targets| ==>
        var before := EditPlanned(repo, editor, files, targets[..i]);
        before.failure.None? ==> TargetPath(repo, before.files, targets[i]).Ok?
  {
    hide TargetPath;
    if EditPlanned(repo, editor, files, targets).failure.Some? {
      var i := BadTargetStops(repo, editor, files, targets);
      assert TargetPath(repo, EditPlanned(repo, editor, files, targets[..i]).files, targets[i]).Err?;
    } else {
      forall i | 0 <= i < |targets| && EditPlanned(repo, editor, files, targets[..i]).failure.None?
        ensures TargetPath(repo, EditPlanned(repo, editor, files, targets[..i]).files, targets[i]).Ok?
      {
        assert targets[..i + 1][..i] == targets[..i];
        if EditPlanned(repo, editor, files, targets[..i + 1]).failure.Some? {
          FailureIsFinal(repo, editor, files, targets, i + 1);
        }
      }
    }
  }

  /** Each target edits the file it names as the targets before it left it: revised if it is there by then,
      rendered if not. */
  lemma EditsInOrder(repo: Repo, editor: Editor, files: map<Path, string>, targets: seq<Target>) returns (q: Path)
    requires targets != [] && EditPlanned(repo, editor, files, targets).failure.None?
    ensures var before := EditPlanned(repo, editor, files, targets[..|targets| - 1]); var target := targets[|targets| - 1];
      && before.failure.None? && TargetPath(repo, before.files, target) == Ok(q)
      && EditPlanned(repo, editor, files, targets).files ==
           before.files[q := if q in before.files then editor.revise(target, before.files[q]) else editor.render(target)]
  {
    hide TargetPath;
    q := TargetPath(repo, EditPlanned(repo, editor, files, targets[..|targets| - 1]).files, targets[|targets| - 1]).value;
  }

  lemma PrefixOfFront<T>(s: seq<T>, j: nat)
    requires s != [] && j < |s|
    ensures s[..|s| - 1][..j] == s[..j]
  {
  }

  // The file that target j of the plan names, given what the targets before it made.
  ghost predicate Names(repo: Repo, editor: Editor, files: map<Path, string>, targets: seq<Target>, j: nat, p: Path)
    requires j < |targets|
  {
    TargetPath(repo, EditPlanned(repo, editor, files, targets[..j]).files, targets[j]) == Ok(p)
  }

  lemma FrontNames(repo: Repo, editor: Editor, files: map<Path, string>, targets: seq<Target>, j: nat, p: Path)
    requires j < |targets| - 1
    ensures Names(repo, editor, files, targets[..|targets| - 1], j, p) == Names(repo, editor, files, targets, j, p)
  {
    PrefixOfFront(targets, j);
    hide EditPlanned, TargetPath;
  }

  lemma NothingPlanned(repo: Repo, editor: Editor, files: map<Path, string>, p: Path)
    ensures SameAt(EditPlanned(repo, editor, files, []).files, files, p)
  {
  }

  lemma SameAfter(before: map<Path, string>, files: map<Path, string>, q: Path, text: string, p: Path)
    requires SameAt(before, files, p) && p != q
    ensures SameAt(before[q := text], files, p)
  {
  }

  lemma {:induction false} NotNamed(repo: Repo, editor: Editor, files: map<Path, string>, targets: seq<Target>, p: Path)
    requires EditPlanned(repo, editor, files, targets).failure.None?
    requires forall j :: 0 <= j < |targets| ==> !Names(repo, editor, files, targets, j, p)
    ensures SameAt(EditPlanned(repo, editor, files, targets).files, files, p)
    decreases |targets|
  {
    if targets == [] {
      NothingPlanned(repo, editor, files, p);
    } else {
      var n := |targets| - 1;
      assert !Names(repo, editor, files, targets, n, p);
      hide TargetPath, EditPlanned, RevisedText, SameAt;
      var q := EditsInOrder(repo, editor, files, targets);
      forall j | 0 <= j < n
        ensures !Names(repo, editor, files, targets[..n], j, p)
      {
        FrontNames(repo, editor, files, targets, j, p);
      }
      NotNamed(repo, editor, files, targets[..n], p);
      var before := EditPlanned(repo, editor, files, targets[..n]).files;
      SameAfter(before, files, q, RevisedText(editor, before, targets[n], q), p);
    }
  }

  /** A planned file gets the revised text if it was there and the rendered one if not, whatever else is
      planned, when no other target names it. */
  lemma {:induction false} PlannedText(
    repo: Repo, editor: Editor, files: map<Path, string>, targets: seq<Target>, i: nat, p: Path)
    requires i < |targets| && EditPlanned(repo, editor, files, targets).failure.None?
    requires Names(repo, editor, files, targets, i, p)
    requires forall j :: 0 <= j < |targets| && j != i ==> !Names(repo, editor, files, targets, j, p)
    ensures var after := EditPlanned(repo, editor, files, targets).files;
      p in after && after[p] == if p in files then editor.revise(targets[i], files[p]) else editor.render(targets[i])
    decreases |targets|
  {
    hide TargetPath, EditPlanned;
    var n := |targets| - 1;
    var q := EditsInOrder(repo, editor, files, targets);
    forall j | 0 <= j < n
      ensures Names(repo, editor, files, targets[..n], j, p) == Names(repo, editor, files, targets, j, p)
    {
      FrontNames(repo, editor, files, targets, j, p);
    }
    if i < n {
      assert !Names(repo, editor, files, targets, n, p);
      PlannedText(repo, editor, files, targets[..n], i, p);
    } else {
      NotNamed(repo, editor, files, targets[..n], p);
    }
  }

  predicate InIgnoredDirectory(p: Path) {
    ".git" in p || ".venv" in p || ".mvn" in p || "build" in p || "out" in p || "target" in p
  }

  /** The source pass rewrites exactly the Java files that no target names, that stand in no ignored
      directory, and whose migrated text differs. */
  lemma MigratedExactly(editor: Editor, files: map<Path, string>, targets: seq<Target>)
    ensures forall p :: p in Migrated(editor, files, targets) ==> p != [] && exists stem :: Last(p) == stem + ".java"
    ensures forall dir: Path, stem: string :: var p := dir + [stem + ".java"];
      p in Migrated(editor, files, targets) <==>
        && p in files && Target(false, p) !in targets && !InIgnoredDirectory(p) && editor.migrate(p, files[p]) != files[p]
  {
    forall p | p in Migrated(editor, files, targets)
      ensures p != [] && exists stem :: Last(p) == stem + ".java"
    {
      var name := Last(p);
      assert name == name[..|name| - 5] + ".java";
    }
    forall dir: Path, stem: string
      ensures var p := dir + [stem + ".java"]; IsSource(p) <==> !InIgnoredDirectory(p)
    {
      var p := dir + [stem + ".java"];
      assert Last(p) == stem + ".java";
      assert (stem + ".java")[|stem|..] == ".java";
    }
    hide IsSource, InIgnoredDirectory;
  }

  lemma ReportsBoth(
    repo: Repo, editor: Editor, files: map<Path, string>, targets: seq<Target>, reported: seq<Path>, sources: seq<Path>)
    requires var planned := EditPlanned(repo, editor, files, targets);
      && |reported| == |planned.written|
      && (forall j :: 0 <= j < |reported| ==> reported[j] == repo.root + planned.written[j])
      && forall a :: a in sources <==> exists p :: p in Migrated(editor, planned.files, targets) && a == repo.given + p
    ensures Reports(repo, editor, files, targets, reported + sources)
  {
    var planned := EditPlanned(repo, editor, files, targets);
    hide EditPlanned, Migrated;
    forall a
      ensures a in reported <==> exists p :: p in planned.written && a == repo.root + p
    {
      if p :| p in planned.written && a == repo.root + p {
        var j :| 0 <= j < |planned.written| && planned.written[j] == p;
        assert reported[j] == a;
      }
      if a in reported {
        var j :| 0 <= j < |reported| && reported[j] == a;
        assert planned.written[j] in planned.written;
      }
    }
  }

  // The planned edits write the files they list and no others.
  lemma {:induction false} PlannedWritesOnly(repo: Repo, editor: Editor, files: map<Path, string>, targets: seq<Target>)
    ensures var planned := EditPlanned(repo, editor, files, targets);
      forall p :: if p in planned.written then p in planned.files else
        (p in planned.files <==> p in files) && (p in files ==> planned.files[p] == files[p])
  {
    if targets != [] {
      PlannedWritesOnly(repo, editor, files, targets[..|targets| - 1]);
    }
  }

  lemma {:induction false} RestorePathsAre(given: Path, modified: seq<Path>)
    ensures forall p :: p in RelativeRestorePaths(given, modified) <==> given + p in modified
  {
    if modified != [] {
      var n := |modified| - 1;
      RestorePathsAre(given, modified[..n]);
      assert modified == modified[..n] + [modified[n]];
      forall p
        ensures given + p == modified[n] <==> given <= modified[n] && modified[n][|given|..] == p
      {
      }
    }
  }

  // Same content, or absent from both.
  predicate SameAt(one: map<Path, string>, other: map<Path, string>, p: Path) {
    (p in one <==> p in other) && (p in one ==> one[p] == other[p])
  }

  lemma SameEverywhere(one: map<Path, string>, other: map<Path, string>)
    ensures one == other <==> forall p :: SameAt(one, other, p)
  {
    if forall p :: SameAt(one, other, p) {
      forall p
        ensures p in one <==> p in other
        ensures p in one ==> one[p] == other[p]
      {
        assert SameAt(one, other, p);
      }
    }
  }

  lemma RolledBackAt(head: map<Path, string>, files: map<Path, string>, paths: seq<Path>, p: Path)
    ensures SameAt(RolledBack(head, files, paths), if p in paths then head else files, p)
  {
  }

  /** For every workspace, plan and rewrite: scaffold then rollback gives back the files it started
      from exactly when the restored paths were as HEAD has them and the rest were left unchanged. */
  lemma RollbackExactly(repo: Repo, editor: Editor, files: map<Path, string>, targets: seq<Target>, paths: seq<Path>)
    ensures var after := Scaffolded(repo, editor, files, targets);
      RolledBack(repo.head, after, paths) == files <==>
        forall p :: if p in paths then SameAt(repo.head, files, p) else SameAt(after, files, p)
  {
    var after := Scaffolded(repo, editor, files, targets);
    var final := RolledBack(repo.head, after, paths);
    SameEverywhere(final, files);
    forall p
      ensures SameAt(final, files, p) <==> if p in paths then SameAt(repo.head, files, p) else SameAt(after, files, p)
    {
      RolledBackAt(repo.head, after, paths, p);
    }
  }

  lemma UntouchedStays(repo: Repo, editor: Editor, files: map<Path, string>, targets: seq<Target>, p: Path)
    requires p !in Touched(repo, editor, files, targets)
    ensures SameAt(Scaffolded(repo, editor, files, targets), files, p)
  {
    PlannedWritesOnly(repo, editor, files, targets);
    hide EditPlanned;
  }

  /** When the configured path has no links to resolve, the rollback undoes the scaffold exactly when
      every file the scaffold touched was as HEAD has it. */
  lemma RollbackInvertsScaffold(repo: Repo, editor: Editor, files: map<Path, string>, targets: seq<Target>, modified: seq<Path>)
    requires repo.given == repo.root
    requires Reports(repo, editor, files, targets, modified)
    ensures RolledBack(repo.head, Scaffolded(repo, editor, files, targets), RelativeRestorePaths(repo.given, modified)) == files
      <==> forall p :: p in Touched(repo, editor, files, targets) ==> SameAt(repo.head, files, p)
  {
    var paths := RelativeRestorePaths(repo.given, modified);
    RestorePathsAre(repo.given, modified);
    forall p
      ensures p in paths <==> p in Touched(repo, editor, files, targets)
    {
      BelowOnce(repo.root, p);
      hide EditPlanned, Migrated;
    }
    RollbackExactly(repo, editor, files, targets, paths);
    forall p | p !in paths
      ensures SameAt(Scaffolded(repo, editor, files, targets), files, p)
    {
      UntouchedStays(repo, editor, files, targets, p);
    }
  }

  lemma BelowOnce(root: Path, p: Path)
    ensures forall q: Path :: root + q == root + p ==> q == p
  {
    forall q: Path | root + q == root + p
      ensures q == p
    {
      assert (root + q)[|root|..] == q && (root + p)[|root|..] == p;
    }
  }

  /** When the configured path is reached through a link, so that no resolved path lies below it, the
      planned files are never restored: the rollback undoes the scaffold exactly when the migrated
      sources were as HEAD has them and the plan changed no other file at all. */
  lemma LinkedWorkspaceKeepsPlannedEdits(
    repo: Repo, editor: Editor, files: map<Path, string>, targets: seq<Target>, modified: seq<Path>)
    requires forall p: Path :: !(repo.given <= repo.root + p)
    requires Reports(repo, editor, files, targets, modified)
    ensures var planned := EditPlanned(repo, editor, files, targets);
      var sources := Migrated(editor, planned.files, targets);
      RolledBack(repo.head, Scaffolded(repo, editor, files, targets), RelativeRestorePaths(repo.given, modified)) == files
      <==> && (forall p :: p in sources ==> SameAt(repo.head, files, p))
           && (forall p :: p in planned.written && p !in sources ==> SameAt(planned.files, files, p))
  {
    var planned := EditPlanned(repo, editor, files, targets);
    var sources := Migrated(editor, planned.files, targets);
    var paths := RelativeRestorePaths(repo.given, modified);
    RestorePathsAre(repo.given, modified);
    forall p
      ensures p in paths <==> p in sources
    {
      BelowOnce(repo.given, p);
      assert repo.given <= repo.given + p;
      hide EditPlanned, Migrated;
    }
    RollbackExactly(repo, editor, files, targets, paths);
    forall p | p !in sources
      ensures SameAt(Scaffolded(repo, editor, files, targets), files, p) <==> SameAt(planned.files, files, p)
      ensures p !in planned.written ==> SameAt(planned.files, files, p)
    {
      PlannedWritesOnly(repo, editor, files, targets);
      hide EditPlanned;
    }
  }

  lemma OnePlanned(repo: Repo, editor: Editor, files: map<Path, string>, target: Target)
    requires !target.absolute && Plain(target.parts) && target.parts in files && Writable(files, target.parts)
    ensures EditPlanned(repo, editor, files, [target])
      == Planned(files[target.parts := editor.revise(target, files[target.parts])], [target.parts], None)
  {
    PlainTargetEditedOnce(repo, editor, files, [target], target);
    assert [target][..0] == [];
    assert EditPlanned(repo, editor, files, []) == Planned(files, [], None);
    hide TargetPath, Writable;
  }

  /** With a link on the way to the workspace, a plan that changes a single committed file is not
      undone, whatever the rest of the workspace holds. */
  lemma LinkedWorkspaceKeepsTheEdit(
    repo: Repo, editor: Editor, files: map<Path, string>, target: Target, modified: seq<Path>)
    requires !target.absolute && Plain(target.parts) && target.parts in files && Writable(files, target.parts)
    requires editor.revise(target, files[target.parts]) != files[target.parts]
    requires forall p: Path :: !(repo.given <= repo.root + p)
    requires Reports(repo, editor, files, [target], modified)
    ensures RolledBack(repo.head, Scaffolded(repo, editor, files, [target]), RelativeRestorePaths(repo.given, modified)) != files
  {
    var planned := EditPlanned(repo, editor, files, [target]);
    OnePlanned(repo, editor, files, target);
    LinkedWorkspaceKeepsPlannedEdits(repo, editor, files, [target], modified);
    PlainTargetEditedOnce(repo, editor, planned.files, [target], target);
    assert target.parts in planned.written && !SameAt(planned.files, files, target.parts);
    hide EditPlanned, Migrated, Reports;
  }

  /** The link that does it is one below the resolved workspace directory, such as a ticket directory
      that was there before: `mkdir(exist_ok=True)` takes it. HEAD is what the workspace held. */
  lemma LinkedTicketDirectory() returns (repo: Repo, editor: Editor, target: Target, modified: seq<Path>)
    ensures repo.given == ["data", "workspaces", "ticket", "app"] && repo.root == ["disk", "ticket", "app"]
    ensures Reports(repo, editor, repo.head, [target], modified)
    ensures RolledBack(repo.head, Scaffolded(repo, editor, repo.head, [target]), RelativeRestorePaths(repo.given, modified))
      != repo.head
  {
    var file: Path := ["App.java"];
    repo := Repo(["data", "workspaces", "ticket", "app"], ["disk", "ticket", "app"], map[file := "old"]);
    target := Target(false, file);
    editor := Editor((t: Target, text: string) => "new", (t: Target) => "new", (p: Path, text: string) => text);
    modified := [repo.root + file];
    var planned := EditPlanned(repo, editor, repo.head, [target]);
    assert "App.java" != "" && "App.java" != "." && "App.java" != "..";
    assert Plain(file) && Writable(repo.head, file);
    OnePlanned(repo, editor, repo.head, target);
    assert Migrated(editor, planned.files, [target]) == {};
    assert Reports(repo, editor, repo.head, [target], modified);
    forall p: Path
      ensures !(repo.given <= repo.root + p)
    {
      assert repo.given[0] != (repo.root + p)[0];
    }
    LinkedWorkspaceKeepsTheEdit(repo, editor, repo.head, target, modified);
  }

  /** A target that names its file plainly is found inside the workspace, and the source pass leaves it alone. */
  lemma PlainTargetEditedOnce(repo: Repo, editor: Editor, files: map<Path, string>, targets: seq<Target>, target: Target)
    requires target in targets && !target.absolute && Plain(target.parts)
    ensures TargetPath(repo, files, target) ==
      if Writable(files, target.parts) then Ok(target.parts) else Err(NotAFile)
    ensures target.parts !in Migrated(editor, files, targets)
  {
    PlainNormalize(repo.root, target.parts);
    assert (repo.root + target.parts)[|repo.root|..] == target.parts;
  }
}
