/** Promoting a prepared snapshot and its manifest over the current ones, with rollback.
    Any rename, directory sync or removal may fail, including those of the rollback itself. */
module SnapshotPromotion {
  type Path = string
  type Content = string

  /** The six paths a promotion works on; backup names are fresh siblings of their targets. */
  datatype Paths = Paths(
    output: Path, manifest: Path, stagedSnapshot: Path, stagedManifest: Path, outputBackup: Path, manifestBackup: Path)
  {
    function All(): set<Path> {
      {output, manifest, stagedSnapshot, stagedManifest, outputBackup, manifestBackup}
    }

    predicate Distinct() {
      && output !in {manifest, stagedSnapshot, stagedManifest, outputBackup, manifestBackup}
      && manifest !in {stagedSnapshot, stagedManifest, outputBackup, manifestBackup}
      && stagedSnapshot !in {stagedManifest, outputBackup, manifestBackup}
      && stagedManifest !in {outputBackup, manifestBackup}
      && outputBackup != manifestBackup
    }
  }

  /** A directory tree whose n-th operation fails when `fails(n)`. */
  class Disk {
    var files: map<Path, Content>
    var operations: nat
    const fails: nat -> bool

    /** `os.replace`: atomic, so a failure changes nothing. */
    method Replace(source: Path, target: Path) returns (ok: bool)
      requires source != target
      modifies this
      ensures operations == old(operations) + 1
      ensures ok <==> source in old(files) && !fails(old(operations))
      ensures files == if ok then (old(files) - {source})[target := old(files)[source]] else old(files)
    {
      ok := source in files && !fails(operations);
      operations := operations + 1;
      if ok { files := (files - {source})[target := files[source]]; }
    }

    method SyncDirectory() returns (ok: bool)
      modifies this`operations
      ensures operations == old(operations) + 1 && (ok <==> !fails(old(operations)))
    {
      ok := !fails(operations);
      operations := operations + 1;
    }

    /** Removing a tree that fails half-way may leave anything at that path, but touches no other. */
    method Remove(path: Path) returns (ok: bool)
      modifies this
      ensures operations == old(operations) + 1
      ensures forall p :: p != path ==> Same(old(files), files, p)
      ensures path in files ==> path in old(files)
      ensures !fails(old(operations)) ==> path !in files
    {
      ok := !fails(operations);
      operations := operations + 1;
      if path in files {
        if ok {
          files := files - {path};
        } else {
          var remains: Content := *;
          files := files[path := remains];
        }
      }
    }
  }

  datatype RollbackError = ManifestRollback | SnapshotRollback | SyncFailure

  datatype Outcome =
    | AlreadyExists
    | Promoted
    | Reraised
    | RecoveryRequired(retained: set<Path>, errors: seq<RollbackError>)

  /** Path `path` holds in `now` what it held in `before`, or is absent in both. */
  ghost predicate Same(before: map<Path, Content>, now: map<Path, Content>, path: Path) {
    (path in before <==> path in now) && (path in before ==> now[path] == before[path])
  }

  ghost predicate HeldAt(now: map<Path, Content>, path: Path, content: Content) {
    path in now && now[path] == content
  }

  /** Only the named paths were touched. */
  ghost predicate OnlyAt(before: map<Path, Content>, now: map<Path, Content>, touched: set<Path>) {
    forall p :: p !in touched ==> Same(before, now, p)
  }

  /** No path outside the six is touched. */
  ghost predicate Framed(before: map<Path, Content>, now: map<Path, Content>, paths: Paths) {
    OnlyAt(before, now, paths.All())
  }

  /** The object is where and what it was, with no backup. */
  ghost predicate Restored(before: map<Path, Content>, now: map<Path, Content>, target: Path, backup: Path) {
    Same(before, now, target) && backup !in now
  }

  /** What was at `target` is still there or at `other`. */
  ghost predicate Retained(before: map<Path, Content>, now: map<Path, Content>, target: Path, other: Path) {
    target in before ==> HeldAt(now, target, before[target]) || HeldAt(now, other, before[target])
  }

  lemma OnlyAtTwice(a: map<Path, Content>, b: map<Path, Content>, c: map<Path, Content>, s: set<Path>, t: set<Path>)
    requires OnlyAt(a, b, s) && OnlyAt(b, c, t)
    ensures OnlyAt(a, c, s + t)
  {
    forall p | p !in s + t ensures Same(a, c, p) {
      assert Same(a, b, p) && Same(b, c, p);
    }
  }

  /** What is known of paths that were not touched since still holds. */
  lemma StillSo(before: map<Path, Content>, now: map<Path, Content>, later: map<Path, Content>, touched: set<Path>,
                target: Path, backup: Path)
    requires OnlyAt(now, later, touched) && target !in touched && backup !in touched
    ensures Restored(before, now, target, backup) <==> Restored(before, later, target, backup)
    ensures Retained(before, now, target, backup) <==> Retained(before, later, target, backup)
    ensures Same(before, now, target) <==> Same(before, later, target)
    ensures target in now <==> target in later
    ensures backup in now <==> backup in later
  {
    assert Same(now, later, target) && Same(now, later, backup);
  }

  /** How far a promotion got before it failed: where each of the four objects is. */
  ghost predicate Underway(before: map<Path, Content>, now: map<Path, Content>, paths: Paths,
                           outputPromoted: bool, manifestPromoted: bool)
  {
    && Framed(before, now, paths)
    && Slot(before, now, paths.output, paths.outputBackup, paths.stagedSnapshot, outputPromoted)
    && Slot(before, now, paths.manifest, paths.manifestBackup, paths.stagedManifest, manifestPromoted)
  }

  /** One object's three paths: untouched, original moved to its backup, or replaced by the staged one. */
  ghost predicate Slot(before: map<Path, Content>, now: map<Path, Content>, target: Path, backup: Path, staged: Path,
                       promoted: bool)
  {
    && (if promoted then staged in before && staged !in now && HeldAt(now, target, before[staged])
        else Same(before, now, staged) && (target in now ==> Same(before, now, target)))
    && (backup in now ==> target in before && now[backup] == before[target])
    && (backup in now ==> promoted || target !in now)
    && (target in before && backup !in now ==> !promoted && target in now)
  }

  /** Renames one object needs: its original to the backup, if there is one, and the staged object into place. */
  function Renames(had: bool): nat {
    if had then 2 else 1
  }

  ghost predicate NoFault(disk: Disk, first: nat, count: nat) {
    forall n :: first <= n < first + count ==> !disk.fails(n)
  }

  /** Both staged objects exist and none of the renames, counted from operation `first`, fails. */
  ghost predicate MovesSucceed(disk: Disk, files: map<Path, Content>, first: nat, paths: Paths) {
    && paths.stagedSnapshot in files && paths.stagedManifest in files
    && NoFault(disk, first, Renames(paths.output in files) + Renames(paths.manifest in files))
  }

  /** The directory syncs that follow the renames succeed too. */
  ghost predicate SyncsSucceed(disk: Disk, files: map<Path, Content>, first: nat, paths: Paths, sharedParent: bool) {
    NoFault(disk, first + Renames(paths.output in files) + Renames(paths.manifest in files),
      Syncs(sharedParent))
  }

  /** Renames that undo an object's move: the old manifest goes straight over the new one, while a new snapshot first
      moves away, since a directory cannot be renamed over another. */
  function UndoManifest(files: map<Path, Content>, paths: Paths, promoted: bool): nat {
    if paths.manifestBackup in files || promoted then 1 else 0
  }

  function UndoOutput(files: map<Path, Content>, paths: Paths, promoted: bool): nat {
    (if paths.outputBackup in files then 1 else 0) + (if promoted then 1 else 0)
  }

  function Syncs(sharedParent: bool): nat {
    if sharedParent then 1 else 2
  }

  /** The old manifest goes straight over the new one; without an old one the new manifest is staged again. */
  method RestoreManifest(disk: Disk, paths: Paths, had: bool, promoted: bool, ghost before: map<Path, Content>)
    returns (ok: bool)
    requires paths.Distinct() && had == (paths.manifest in before) && paths.manifestBackup !in before
    requires Slot(before, disk.files, paths.manifest, paths.manifestBackup, paths.stagedManifest, promoted)
    modifies disk
    ensures OnlyAt(old(disk.files), disk.files, {paths.manifest, paths.manifestBackup, paths.stagedManifest})
    ensures ok ==>
      && Restored(before, disk.files, paths.manifest, paths.manifestBackup)
      && (if promoted && had then paths.stagedManifest !in disk.files
          else Same(before, disk.files, paths.stagedManifest))
    ensures Retained(before, disk.files, paths.manifest, paths.manifestBackup)
    ensures var undo := UndoManifest(old(disk.files), paths, promoted);
      disk.operations == old(disk.operations) + undo && (ok <==> NoFault(disk, old(disk.operations), undo))
  {
    ok := true;
    if had && paths.manifestBackup in disk.files {
      ok := disk.Replace(paths.manifestBackup, paths.manifest);
    } else if promoted && paths.manifest in disk.files {
      ok := disk.Replace(paths.manifest, paths.stagedManifest);
    }
  }

  /** A directory cannot be renamed over another: the new snapshot moves back to its staging path first. */
  method RestoreOutput(disk: Disk, paths: Paths, had: bool, promoted: bool, ghost before: map<Path, Content>)
    returns (ok: bool)
    requires paths.Distinct() && had == (paths.output in before) && paths.outputBackup !in before
    requires Slot(before, disk.files, paths.output, paths.outputBackup, paths.stagedSnapshot, promoted)
    modifies disk
    ensures OnlyAt(old(disk.files), disk.files, {paths.output, paths.outputBackup, paths.stagedSnapshot})
    ensures ok ==>
      && Restored(before, disk.files, paths.output, paths.outputBackup)
      && Same(before, disk.files, paths.stagedSnapshot)
    ensures Retained(before, disk.files, paths.output, paths.outputBackup)
    ensures Retained(before, disk.files, paths.stagedSnapshot, paths.output)
    ensures var undo := UndoOutput(old(disk.files), paths, promoted);
      && (ok <==> NoFault(disk, old(disk.operations), undo))
      && (ok ==> disk.operations == old(disk.operations) + undo)
  {
    ok := true;
    if had && paths.outputBackup in disk.files {
      if promoted && paths.output in disk.files {
        ok := disk.Replace(paths.output, paths.stagedSnapshot);
      }
      if ok { ok := disk.Replace(paths.outputBackup, paths.output); }
    } else if promoted && paths.output in disk.files {
      ok := disk.Replace(paths.output, paths.stagedSnapshot);
    }
  }

  /** The directories of both targets, or the one they share; every sync is tried. */
  method SyncParents(disk: Disk, sharedParent: bool) returns (errors: seq<RollbackError>)
    modifies disk`operations
    ensures errors == [] <==> NoFault(disk, old(disk.operations), Syncs(sharedParent))
  {
    errors := [];
    var ok := disk.SyncDirectory();
    if !ok { errors := errors + [SyncFailure]; }
    if !sharedParent {
      ok := disk.SyncDirectory();
      if !ok { errors := errors + [SyncFailure]; }
    }
  }

  /** The disk as a rollback leaves it when nothing in it failed. */
  ghost predicate Undone(before: map<Path, Content>, now: map<Path, Content>, paths: Paths, manifestLost: bool) {
    && Restored(before, now, paths.manifest, paths.manifestBackup)
    && Restored(before, now, paths.output, paths.outputBackup)
    && Same(before, now, paths.stagedSnapshot)
    && (if manifestLost then paths.stagedManifest !in now else Same(before, now, paths.stagedManifest))
  }

  /** Whatever fails: every original is at its path or its backup, and the new snapshot is not lost. */
  ghost predicate NothingLost(before: map<Path, Content>, now: map<Path, Content>, paths: Paths) {
    && Retained(before, now, paths.output, paths.outputBackup)
    && Retained(before, now, paths.manifest, paths.manifestBackup)
    && Retained(before, now, paths.stagedSnapshot, paths.output)
  }

  /** Undoes what was done, going on after each failure; returns what could not be undone. */
  method RestoreAfterFailedPromotion(
    disk: Disk, paths: Paths, hadOutput: bool, hadManifest: bool, outputPromoted: bool, manifestPromoted: bool,
    sharedParent: bool, ghost before: map<Path, Content>)
    returns (errors: seq<RollbackError>)
    requires paths.Distinct() && paths.outputBackup !in before && paths.manifestBackup !in before
    requires hadOutput == (paths.output in before) && hadManifest == (paths.manifest in before)
    requires Underway(before, disk.files, paths, outputPromoted, manifestPromoted)
    modifies disk
    ensures Framed(before, disk.files, paths)
    ensures errors == [] ==> Undone(before, disk.files, paths, manifestPromoted && hadManifest)
    ensures NothingLost(before, disk.files, paths)
    ensures errors == [] <==>
      NoFault(disk, old(disk.operations),
        UndoManifest(old(disk.files), paths, manifestPromoted) + UndoOutput(old(disk.files), paths, outputPromoted)
        + Syncs(sharedParent))
  {
    ghost var start := disk.files;
    ghost var manifestPaths := {paths.manifest, paths.manifestBackup, paths.stagedManifest};
    ghost var outputPaths := {paths.output, paths.outputBackup, paths.stagedSnapshot};
    assert manifestPaths + outputPaths == paths.All() == paths.All() + (manifestPaths + outputPaths);
    assert manifestPaths * outputPaths == {};
    hide OnlyAt, Same, Slot, HeldAt, Restored, Retained, Paths.Distinct, UndoManifest, UndoOutput, Syncs;
    hide Paths.All;
    errors := [];
    var ok := RestoreManifest(disk, paths, hadManifest, manifestPromoted, before);
    ghost var middle := disk.files;
    if !ok { errors := errors + [ManifestRollback]; }
    SlotFrame(before, start, middle, manifestPaths, paths.output, paths.outputBackup, paths.stagedSnapshot,
              outputPromoted);
    UndoFrame(start, middle, manifestPaths, paths, outputPromoted);
    ok := RestoreOutput(disk, paths, hadOutput, outputPromoted, before);
    ghost var end := disk.files;
    if !ok { errors := errors + [SnapshotRollback]; }
    StillSo(before, middle, end, outputPaths, paths.manifest, paths.manifestBackup);
    StillSo(before, middle, end, outputPaths, paths.stagedManifest, paths.manifestBackup);
    OnlyAtTwice(start, middle, end, manifestPaths, outputPaths);
    OnlyAtTwice(before, start, end, paths.All(), manifestPaths + outputPaths);
    var unsynced := SyncParents(disk, sharedParent);
    errors := errors + unsynced;
  }

  lemma UndoFrame(now: map<Path, Content>, later: map<Path, Content>, touched: set<Path>, paths: Paths, promoted: bool)
    requires OnlyAt(now, later, touched) && paths.outputBackup !in touched
    ensures UndoOutput(now, paths, promoted) == UndoOutput(later, paths, promoted)
  {
    assert Same(now, later, paths.outputBackup);
  }

  /** Undoing everything brings the old disk back, but for a staged manifest that went over an old one. */
  lemma UndoneIsBefore(before: map<Path, Content>, now: map<Path, Content>, paths: Paths, lost: bool)
    requires Framed(before, now, paths) && Undone(before, now, paths, lost) && paths.Distinct()
    requires paths.outputBackup !in before && paths.manifestBackup !in before
    ensures now == if lost then before - {paths.stagedManifest} else before
  {
    assert Same(before, now, paths.outputBackup) && Same(before, now, paths.manifestBackup);
    forall p | p != paths.stagedManifest ensures Same(before, now, p) {
      assert p in paths.All() || Same(before, now, p);
    }
    hide Framed, Undone;
    if lost { SameBut(before, now, paths.stagedManifest); } else { SameMaps(before, now); }
  }

  lemma SameBut(before: map<Path, Content>, now: map<Path, Content>, lost: Path)
    requires lost !in now && forall p :: p != lost ==> Same(before, now, p)
    ensures now == before - {lost}
  {
    var kept := before - {lost};
    forall p ensures Same(kept, now, p) {
      assert p == lost || Same(before, now, p);
    }
    SameMaps(kept, now);
  }

  lemma SameMaps(before: map<Path, Content>, now: map<Path, Content>)
    requires forall p :: Same(before, now, p)
    ensures now == before
  {
    forall p ensures p in before <==> p in now {
      assert Same(before, now, p);
    }
    forall p | p in now ensures now[p] == before[p] {
      assert Same(before, now, p);
    }
  }

  /** How many of an object's renames, counted from operation `first`, succeed before one fails. */
  function RenamesDone(disk: Disk, files: map<Path, Content>, first: nat, staged: Path, had: bool): nat {
    var last := if had then first + 1 else first;
    if had && disk.fails(first) then 0
    else if disk.fails(last) || staged !in files then Renames(had) - 1
    else Renames(had)
  }

  /** Moves one object's original to its backup, if there is one, and the staged object into its place. */
  method MoveOne(disk: Disk, target: Path, backup: Path, staged: Path, had: bool) returns (promoted: bool)
    requires target != backup && target != staged && backup != staged && backup !in disk.files
    requires had == (target in disk.files)
    modifies disk
    ensures Slot(old(disk.files), disk.files, target, backup, staged, promoted)
    ensures OnlyAt(old(disk.files), disk.files, {target, backup, staged})
    ensures var done := RenamesDone(disk, old(disk.files), old(disk.operations), staged, had);
      && (promoted <==> done == Renames(had))
      && (backup in disk.files <==> had && done > 0)
      && disk.operations == old(disk.operations) + if promoted then done else done + 1
  {
    var ok := true;
    promoted := false;
    if had { ok := disk.Replace(target, backup); }
    if ok { promoted := disk.Replace(staged, target); }
  }

  lemma RenamesDoneAll(disk: Disk, files: map<Path, Content>, first: nat, staged: Path, had: bool)
    ensures RenamesDone(disk, files, first, staged, had) == Renames(had)
       <==> staged in files && NoFault(disk, first, Renames(had))
  {
  }

  lemma SlotFrame(before: map<Path, Content>, now: map<Path, Content>, later: map<Path, Content>, touched: set<Path>,
                  target: Path, backup: Path, staged: Path, promoted: bool)
    requires Slot(before, now, target, backup, staged, promoted)
    requires OnlyAt(now, later, touched) && target !in touched && backup !in touched && staged !in touched
    ensures Slot(before, later, target, backup, staged, promoted)
  {
    assert Same(now, later, target) && Same(now, later, backup) && Same(now, later, staged);
  }

  lemma SlotStart(before: map<Path, Content>, now: map<Path, Content>, later: map<Path, Content>, touched: set<Path>,
                  target: Path, backup: Path, staged: Path, promoted: bool)
    requires OnlyAt(before, now, touched) && target !in touched && backup !in touched && staged !in touched
    requires Slot(now, later, target, backup, staged, promoted)
    ensures Slot(before, later, target, backup, staged, promoted)
  {
    assert Same(before, now, target) && Same(before, now, backup) && Same(before, now, staged);
  }

  lemma SlotUntouched(now: map<Path, Content>, target: Path, backup: Path, staged: Path)
    requires backup !in now
    ensures Slot(now, now, target, backup, staged, false)
  {
  }

  /** A forward half that fails: the operations it used up, the failing one included, and the renames to undo. */
  datatype Halt = Halt(used: nat, undo: nat)

  /** Renames of the output, then of the manifest, that succeed before one fails. */
  function OutputDone(disk: Disk, files: map<Path, Content>, first: nat, paths: Paths): nat {
    RenamesDone(disk, files, first, paths.stagedSnapshot, paths.output in files)
  }

  function ManifestDone(disk: Disk, files: map<Path, Content>, first: nat, paths: Paths): nat {
    var output := OutputDone(disk, files, first, paths);
    if output < Renames(paths.output in files) then 0
    else RenamesDone(disk, files, first + output, paths.stagedManifest, paths.manifest in files)
  }

  function HaltOf(disk: Disk, files: map<Path, Content>, first: nat, paths: Paths): Halt {
    var output, manifest := OutputDone(disk, files, first, paths), ManifestDone(disk, files, first, paths);
    if output < Renames(paths.output in files) || manifest < Renames(paths.manifest in files) then
      Halt(output + manifest + 1, output + manifest)
    else
      Halt(output + manifest + (if disk.fails(first + output + manifest) then 1 else 2), output + 1)
  }

  lemma MovesDone(disk: Disk, files: map<Path, Content>, first: nat, paths: Paths)
    ensures OutputDone(disk, files, first, paths) == Renames(paths.output in files)
            && ManifestDone(disk, files, first, paths) == Renames(paths.manifest in files)
       <==> MovesSucceed(disk, files, first, paths)
  {
    var output := Renames(paths.output in files);
    RenamesDoneAll(disk, files, first, paths.stagedSnapshot, paths.output in files);
    RenamesDoneAll(disk, files, first + output, paths.stagedManifest, paths.manifest in files);
  }

  /** No operation of the rollback fails. */
  ghost predicate RollbackSucceeds(
    disk: Disk, files: map<Path, Content>, first: nat, paths: Paths, sharedParent: bool)
  {
    var halt := HaltOf(disk, files, first, paths);
    NoFault(disk, first + halt.used, halt.undo + Syncs(sharedParent))
  }

  /** With both staged objects there, the first failure uses up the only fault. */
  lemma OneFault(disk: Disk, files: map<Path, Content>, first: nat, paths: Paths, sharedParent: bool)
    requires forall m, n :: disk.fails(m) && disk.fails(n) ==> m == n
    requires paths.stagedSnapshot in files && paths.stagedManifest in files
    requires !(MovesSucceed(disk, files, first, paths) && SyncsSucceed(disk, files, first, paths, sharedParent))
    ensures RollbackSucceeds(disk, files, first, paths, sharedParent)
  {
    var halt := HaltOf(disk, files, first, paths);
    assert disk.fails(first + halt.used - 1);
  }

  lemma DoneBounds(disk: Disk, files: map<Path, Content>, first: nat, paths: Paths)
    ensures OutputDone(disk, files, first, paths) <= Renames(paths.output in files)
    ensures ManifestDone(disk, files, first, paths) <= Renames(paths.manifest in files)
    ensures OutputDone(disk, files, first, paths) < Renames(paths.output in files) ==>
      ManifestDone(disk, files, first, paths) == 0
  {
  }

  /** The renames of the forward half, stopping at the first failure. */
  method MoveBoth(disk: Disk, paths: Paths, hadOutput: bool, hadManifest: bool)
    returns (outputPromoted: bool, manifestPromoted: bool)
    requires paths.Distinct() && paths.outputBackup !in disk.files && paths.manifestBackup !in disk.files
    requires hadOutput == (paths.output in disk.files) && hadManifest == (paths.manifest in disk.files)
    modifies disk
    ensures Underway(old(disk.files), disk.files, paths, outputPromoted, manifestPromoted)
    ensures
      var output := OutputDone(disk, old(disk.files), old(disk.operations), paths);
      var manifest := ManifestDone(disk, old(disk.files), old(disk.operations), paths);
      && (outputPromoted <==> output == Renames(hadOutput))
      && (manifestPromoted <==> outputPromoted && manifest == Renames(hadManifest))
      && (paths.outputBackup in disk.files <==> hadOutput && output > 0)
      && (paths.manifestBackup in disk.files <==> hadManifest && manifest > 0)
      && disk.operations == old(disk.operations) + output + manifest + if manifestPromoted then 0 else 1
  {
    ghost var start := disk.files;
    ghost var manifestPaths := {paths.manifest, paths.manifestBackup, paths.stagedManifest};
    ghost var outputPaths := {paths.output, paths.outputBackup, paths.stagedSnapshot};
    assert outputPaths + manifestPaths == paths.All() && manifestPaths * outputPaths == {};
    hide OnlyAt, Same, Slot, HeldAt, Restored, Retained, RenamesDone, Renames, Paths.Distinct, Paths.All;
    manifestPromoted := false;
    outputPromoted := MoveOne(disk, paths.output, paths.outputBackup, paths.stagedSnapshot, hadOutput);
    ghost var middle := disk.files;
    StillSo(start, start, middle, outputPaths, paths.manifest, paths.manifestBackup);
    StillSo(start, start, middle, outputPaths, paths.stagedManifest, paths.manifestBackup);
    if outputPromoted {
      manifestPromoted := MoveOne(disk, paths.manifest, paths.manifestBackup, paths.stagedManifest, hadManifest);
      SameDone(disk, start, middle, old(disk.operations) + OutputDone(disk, start, old(disk.operations), paths),
               paths.stagedManifest, hadManifest);
    } else {
      SlotUntouched(middle, paths.manifest, paths.manifestBackup, paths.stagedManifest);
      NothingTouched(middle, manifestPaths);
    }
    ghost var end := disk.files;
    StillSo(start, middle, end, manifestPaths, paths.output, paths.outputBackup);
    SlotFrame(start, middle, end, manifestPaths, paths.output, paths.outputBackup, paths.stagedSnapshot,
              outputPromoted);
    SlotStart(start, middle, end, outputPaths, paths.manifest, paths.manifestBackup, paths.stagedManifest,
              manifestPromoted);
    OnlyAtTwice(start, middle, end, outputPaths, manifestPaths);
  }

  lemma NothingTouched(now: map<Path, Content>, touched: set<Path>)
    ensures OnlyAt(now, now, touched)
  {
  }

  lemma SameDone(disk: Disk, a: map<Path, Content>, b: map<Path, Content>, first: nat, staged: Path, had: bool)
    requires staged in a <==> staged in b
    ensures RenamesDone(disk, a, first, staged, had) == RenamesDone(disk, b, first, staged, had)
  {
  }

  /** The forward half: four renames and the directory syncs, stopping at the first failure. */
  method MoveIntoPlace(disk: Disk, paths: Paths, hadOutput: bool, hadManifest: bool, sharedParent: bool)
    returns (ok: bool, outputPromoted: bool, manifestPromoted: bool)
    requires paths.Distinct() && paths.outputBackup !in disk.files && paths.manifestBackup !in disk.files
    requires hadOutput == (paths.output in disk.files) && hadManifest == (paths.manifest in disk.files)
    modifies disk
    ensures Underway(old(disk.files), disk.files, paths, outputPromoted, manifestPromoted)
    ensures manifestPromoted <==> MovesSucceed(disk, old(disk.files), old(disk.operations), paths)
    ensures ok <==> manifestPromoted && SyncsSucceed(disk, old(disk.files), old(disk.operations), paths, sharedParent)
    ensures ok ==> outputPromoted && disk.operations >= old(disk.operations)
    ensures !ok ==> var halt := HaltOf(disk, old(disk.files), old(disk.operations), paths);
      && disk.operations == old(disk.operations) + halt.used
      && halt.undo == UndoManifest(disk.files, paths, manifestPromoted) + UndoOutput(disk.files, paths, outputPromoted)
  {
    hide Underway, Paths.Distinct, OutputDone, ManifestDone, MovesSucceed;
    MovesDone(disk, disk.files, disk.operations, paths);
    DoneBounds(disk, disk.files, disk.operations, paths);
    outputPromoted, manifestPromoted := MoveBoth(disk, paths, hadOutput, hadManifest);
    ok := manifestPromoted;
    if ok { ok := disk.SyncDirectory(); }
    if ok && !sharedParent { ok := disk.SyncDirectory(); }
  }

  /** After the commit: a backup that cannot be removed is only warned about. */
  method RemoveBackups(disk: Disk, paths: Paths, hadOutput: bool, hadManifest: bool)
    requires paths.outputBackup != paths.manifestBackup
    modifies disk
    ensures OnlyAt(old(disk.files), disk.files, {paths.outputBackup, paths.manifestBackup})
    ensures (forall n :: n >= old(disk.operations) ==> !disk.fails(n)) ==>
      && (hadOutput ==> paths.outputBackup !in disk.files) && (hadManifest ==> paths.manifestBackup !in disk.files)
    ensures paths.outputBackup !in old(disk.files) ==> paths.outputBackup !in disk.files
    ensures paths.manifestBackup !in old(disk.files) ==> paths.manifestBackup !in disk.files
  {
    ghost var before := disk.files;
    var ok;
    if hadOutput { ok := disk.Remove(paths.outputBackup); }
    ghost var middle := disk.files;
    assert Same(before, middle, paths.manifestBackup);
    if hadManifest { ok := disk.Remove(paths.manifestBackup); }
    assert Same(middle, disk.files, paths.outputBackup);
    forall p | p !in {paths.outputBackup, paths.manifestBackup} ensures Same(before, disk.files, p) {
      assert Same(before, middle, p) && Same(middle, disk.files, p);
    }
  }

  /** Removing the backups leaves the promoted objects in place. */
  lemma InPlace(before: map<Path, Content>, committed: map<Path, Content>, now: map<Path, Content>, paths: Paths)
    requires Underway(before, committed, paths, true, true) && paths.Distinct()
    requires OnlyAt(committed, now, {paths.outputBackup, paths.manifestBackup})
    ensures Framed(before, now, paths)
    ensures paths.stagedSnapshot in before && HeldAt(now, paths.output, before[paths.stagedSnapshot])
    ensures paths.stagedManifest in before && HeldAt(now, paths.manifest, before[paths.stagedManifest])
    ensures paths.stagedSnapshot !in now && paths.stagedManifest !in now
    ensures paths.output !in before ==> paths.outputBackup !in committed
    ensures paths.manifest !in before ==> paths.manifestBackup !in committed
  {
    OnlyAtTwice(before, committed, now, paths.All(), {paths.outputBackup, paths.manifestBackup});
    assert paths.All() + {paths.outputBackup, paths.manifestBackup} == paths.All();
    assert Same(committed, now, paths.output) && Same(committed, now, paths.manifest);
    assert Same(committed, now, paths.stagedSnapshot) && Same(committed, now, paths.stagedManifest);
  }

  lemma FaultsAllow(disk: Disk, files: map<Path, Content>, first: nat, paths: Paths, sharedParent: bool)
    requires !(MovesSucceed(disk, files, first, paths) && SyncsSucceed(disk, files, first, paths, sharedParent))
    ensures
      (&& paths.stagedSnapshot in files && paths.stagedManifest in files
       && forall m, n :: disk.fails(m) && disk.fails(n) ==> m == n) ==>
      RollbackSucceeds(disk, files, first, paths, sharedParent)
  {
    hide MovesSucceed, SyncsSucceed, RollbackSucceeds;
    if paths.stagedSnapshot in files && paths.stagedManifest in files
       && forall m, n :: disk.fails(m) && disk.fails(n) ==> m == n {
      OneFault(disk, files, first, paths, sharedParent);
    }
  }

  method PromoteSnapshot(disk: Disk, paths: Paths, replaceExisting: bool, sharedParent: bool) returns (outcome: Outcome)
    requires paths.Distinct() && paths.outputBackup !in disk.files && paths.manifestBackup !in disk.files
    modifies disk
    ensures Framed(old(disk.files), disk.files, paths)
    ensures outcome.AlreadyExists? <==>
      !replaceExisting && (paths.output in old(disk.files) || paths.manifest in old(disk.files))
    ensures outcome.AlreadyExists? ==> disk.files == old(disk.files)
    // All: both new objects are in place and nothing is left staged.
    ensures outcome.Promoted? ==>
      && paths.stagedSnapshot in old(disk.files) && paths.stagedManifest in old(disk.files)
      && HeldAt(disk.files, paths.output, old(disk.files)[paths.stagedSnapshot])
      && HeldAt(disk.files, paths.manifest, old(disk.files)[paths.stagedManifest])
      && paths.stagedSnapshot !in disk.files && paths.stagedManifest !in disk.files
    ensures outcome.Promoted? <==>
      && !outcome.AlreadyExists? && MovesSucceed(disk, old(disk.files), old(disk.operations), paths)
      && SyncsSucceed(disk, old(disk.files), old(disk.operations), paths, sharedParent)
    // Nothing: the disk is as before. The staged manifest is gone exactly when it had already replaced an old one,
    // which means that all renames succeeded and a directory sync then failed.
    ensures outcome.Reraised? ==>
      disk.files ==
        if paths.manifest in old(disk.files) && MovesSucceed(disk, old(disk.files), old(disk.operations), paths)
        then old(disk.files) - {paths.stagedManifest}
        else old(disk.files)
    // Which of the two: the disk is restored exactly when no operation of the rollback fails, so never after one fault.
    ensures outcome.Reraised? <==>
      && !outcome.AlreadyExists? && !outcome.Promoted?
      && RollbackSucceeds(disk, old(disk.files), old(disk.operations), paths, sharedParent)
    ensures
      (&& paths.stagedSnapshot in old(disk.files) && paths.stagedManifest in old(disk.files)
       && forall m, n :: disk.fails(m) && disk.fails(n) ==> m == n) ==> !outcome.RecoveryRequired?
    // Recovery: every original is at its path or its backup, the new snapshot is not lost, and all remains are named.
    ensures outcome.RecoveryRequired? ==>
      && outcome.errors != []
      && outcome.retained == paths.All() * disk.files.Keys
      && NothingLost(old(disk.files), disk.files, paths)
    // Without faults a promotion leaves no backup behind.
    ensures (outcome.Promoted? && forall n :: n >= old(disk.operations) ==> !disk.fails(n)) ==>
      paths.outputBackup !in disk.files && paths.manifestBackup !in disk.files
  {
    if !replaceExisting && (paths.output in disk.files || paths.manifest in disk.files) { return AlreadyExists; }
    ghost var before := disk.files;
    var hadOutput := paths.output in disk.files;
    var hadManifest := paths.manifest in disk.files;
    hide Framed, Slot, Undone, NothingLost, MovesSucceed, SyncsSucceed, HaltOf, UndoManifest, UndoOutput, NoFault;
    hide OnlyAt, Same, HeldAt, Paths.Distinct, Paths.All;
    var ok, outputPromoted, manifestPromoted := MoveIntoPlace(disk, paths, hadOutput, hadManifest, sharedParent);
    if !ok {
      FaultsAllow(disk, before, old(disk.operations), paths, sharedParent);
      var errors := RestoreAfterFailedPromotion(
        disk, paths, hadOutput, hadManifest, outputPromoted, manifestPromoted, sharedParent, before);
      if errors != [] {
        return RecoveryRequired(paths.All() * disk.files.Keys, errors);
      }
      UndoneIsBefore(before, disk.files, paths, manifestPromoted && hadManifest);
      return Reraised;
    }
    ghost var committed := disk.files;
    RemoveBackups(disk, paths, hadOutput, hadManifest);
    InPlace(before, committed, disk.files, paths);
    return Promoted;
  }
}
