/** Publishing several files at once: all of them, or none. */
module Publish {
  import opened Basics

  /** Staged names are made up from a counter, so they meet no other name. */
  datatype Path =
    | Named(name: string)
    | Staged(number: nat)

  datatype File =
    | Regular(contents: seq<Byte>)
    | Special

  type Files = map<Path, File>

  datatype Output = Output(path: Path, contents: seq<Byte>)

  /** An original that was moved away, and where to. */
  datatype Backup = Backup(original: Path, saved: Path)

  /** A failed publish names what could not be rolled back. */
  datatype Published =
    | AllPublished
    | NotPublished(rollbackErrors: seq<Path>)

  /** `p` is in `a` as it is in `b`. */
  predicate Same(a: Files, b: Files, p: Path) {
    (p in a <==> p in b) && (p in a ==> a[p] == b[p])
  }

  // ---------- what an operation does ----------

  /** A successful look; one without a result says nothing. */
  predicate Looked(files: Files, path: Path, file: Option<File>) {
    file.Some? ==> path in files && file.value == files[path]
  }

  /** A probe that fails reads as absent; `missed` is the path if it is there all the same. */
  predicate Probed(files: Files, path: Path, there: bool, missed: seq<Path>) {
    && (there ==> path in files)
    && missed == if path in files && !there then [path] else []
  }

  predicate Written(a: Files, b: Files, path: Path, contents: seq<Byte>) {
    path !in a && b == a[path := Regular(contents)]
  }

  predicate Linked(a: Files, b: Files, from: Path, to: Path) {
    from in a && to !in a && b == a[to := a[from]]
  }

  predicate Removed(a: Files, b: Files, path: Path) {
    path in a && b == a - {path}
  }

  predicate Renamed(a: Files, b: Files, from: Path, to: Path) {
    from in a && b == a[to := a[from]] - {from}
  }

  // ---------- the file system ----------

  /** Any operation may fail; one that fails changes nothing, but a failed write may leave a
      new file behind. `missed` and `renames` record which probes did not see a file that was
      there, and where renames went and whether they succeeded. `faults` counts the other
      operations that failed although nothing in the files stood in their way. */
  class FileSystem {
    var files: Files
    var nextStaged: nat
    ghost var missed: seq<Path>
    ghost var renames: seq<(Path, bool)>
    ghost var faults: nat

    /** No metadata: absent, or it could not be read. */
    method Metadata(path: Path) returns (file: Option<File>)
      modifies this`faults
      ensures Looked(files, path, file)
      ensures faults == old(faults) + if path in files && file.None? then 1 else 0
    {
      if path in files {
        if * {
          return Some(files[path]);
        }
        faults := faults + 1;
      }
      return None;
    }

    method Exists(path: Path) returns (there: bool, ghost unseen: seq<Path>)
      modifies this`missed
      ensures Probed(files, path, there, unseen) && missed == old(missed) + unseen
    {
      there := false;
      if * {
        there := path in files;
      }
      unseen := if path in files && !there then [path] else [];
      missed := missed + unseen;
    }

    method StagedPath() returns (path: Path)
      modifies this`nextStaged
      ensures path == Staged(old(nextStaged)) && nextStaged == old(nextStaged) + 1
    {
      path := Staged(nextStaged);
      nextStaged := nextStaged + 1;
    }

    method WriteNew(path: Path, contents: seq<Byte>) returns (ok: bool)
      modifies this`files, this`faults
      ensures ok ==> Written(old(files), files, path, contents)
      ensures !ok && path in old(files) ==> files == old(files)
      ensures forall p :: p != path ==> Same(files, old(files), p)
      ensures faults == old(faults) + if !ok && path !in old(files) then 1 else 0
    {
      if path !in files {
        if * {
          files := files[path := Regular(contents)];
          return true;
        }
        if * {
          files := files[path := Regular([])];
        }
        faults := faults + 1;
      }
      return false;
    }

    method HardLink(from: Path, to: Path) returns (ok: bool)
      modifies this`files, this`faults
      ensures if ok then Linked(old(files), files, from, to) else files == old(files)
      ensures faults == old(faults) + if !ok && from in old(files) && to !in old(files) then 1 else 0
    {
      ok := false;
      if from in files && to !in files {
        if * {
          files := files[to := files[from]];
          ok := true;
        } else {
          faults := faults + 1;
        }
      }
    }

    method Remove(path: Path) returns (ok: bool)
      modifies this`files, this`faults
      ensures if ok then Removed(old(files), files, path) else files == old(files)
      ensures faults == old(faults) + if !ok && path in old(files) then 1 else 0
    {
      ok := false;
      if path in files {
        if * {
          files := files - {path};
          ok := true;
        } else {
          faults := faults + 1;
        }
      }
    }

    method Rename(from: Path, to: Path) returns (ok: bool)
      requires from != to
      modifies this`files, this`renames, this`faults
      ensures if ok then Renamed(old(files), files, from, to) else files == old(files)
      ensures renames == old(renames) + [(to, ok)]
      ensures faults == old(faults) + if !ok && from in old(files) then 1 else 0
    {
      ok := false;
      if from in files {
        if * {
          files := files[to := files[from]] - {from};
          ok := true;
        } else {
          faults := faults + 1;
        }
      }
      renames := renames + [(to, ok)];
    }
  }

  // ---------- what has been done so far ----------

  predicate Distinct(outputs: seq<Output>) {
    && (forall k :: 0 <= k < |outputs| ==> outputs[k].path.Named?)
    && forall j, k :: 0 <= j < k < |outputs| ==> outputs[j].path != outputs[k].path
  }

  predicate AllStaged(paths: seq<Path>, next: nat) {
    && (forall k :: 0 <= k < |paths| ==> paths[k].Staged? && paths[k].number < next)
    && forall j, k :: 0 <= j < k < |paths| ==> paths[j] != paths[k]
  }

  /** The contents to come, in temporary files. */
  predicate Ready(files: Files, outputs: seq<Output>, staged: seq<Path>, from: nat) {
    |staged| <= |outputs|
    && forall k :: from <= k < |staged| ==> staged[k] in files && files[staged[k]] == Regular(outputs[k].contents)
  }

  function Paths(outputs: seq<Output>): (paths: seq<Path>)
    ensures |paths| == |outputs|
  {
    seq(|outputs|, k requires 0 <= k < |outputs| => outputs[k].path)
  }

  function Originals(backups: seq<Backup>): (paths: seq<Path>)
    ensures |paths| == |backups|
  {
    seq(|backups|, k requires 0 <= k < |backups| => backups[k].original)
  }

  function SavedIn(backups: seq<Backup>): (paths: seq<Path>)
    ensures |paths| == |backups|
  {
    seq(|backups|, k requires 0 <= k < |backups| => backups[k].saved)
  }

  /** Each backup holds what its original held at the start. */
  predicate Kept(files: Files, start: Files, backups: seq<Backup>, next: nat) {
    && AllStaged(SavedIn(backups), next)
    && (forall k :: 0 <= k < |backups| ==>
          && backups[k].original.Named? && backups[k].original in start
          && backups[k].saved in files && files[backups[k].saved] == start[backups[k].original])
    && forall j, k :: 0 <= j < k < |backups| ==> backups[j].original != backups[k].original
  }

  /** Of the temporary names exactly `mine` may differ from the start, where they were free. */
  ghost predicate Tidy(files: Files, start: Files, mine: seq<Path>) {
    forall p: Path :: p.Staged? ==> if p in mine then p !in start else Same(files, start, p)
  }

  /** A name that is still to be made up is in use. */
  ghost predicate NameTaken(files: Files, next: nat) {
    exists n: nat :: n >= next && Staged(n) in files
  }

  // ---------- rolling back ----------

  /** Remove what can be removed. */
  method RemoveQuietly(fs: FileSystem, paths: seq<Path>)
    modifies fs`files, fs`faults
    ensures forall p :: p !in paths ==> Same(fs.files, old(fs.files), p)
    ensures fs.faults >= old(fs.faults)
    ensures fs.faults == old(fs.faults) ==> forall p <- paths :: p !in fs.files
  {
    for k := 0 to |paths|
      invariant forall p :: p !in paths ==> Same(fs.files, old(fs.files), p)
      invariant fs.faults >= old(fs.faults)
      invariant fs.faults == old(fs.faults) ==> forall j :: 0 <= j < k ==> paths[j] !in fs.files
    {
      var ok := fs.Remove(paths[k]);
      assert paths[k] in paths;
    }
  }

  /** Take back what was published already. */
  method Unpublish(fs: FileSystem, outputs: seq<Output>, count: nat) returns (errors: seq<Path>)
    requires count <= |outputs| && Distinct(outputs)
    modifies fs`files, fs`faults
    ensures fs.faults >= old(fs.faults)
    ensures forall k :: 0 <= k < count && outputs[k].path !in errors ==> outputs[k].path !in fs.files
    ensures forall p :: p !in Paths(outputs) ==> Same(fs.files, old(fs.files), p)
    ensures forall k :: count <= k < |outputs| ==> Same(fs.files, old(fs.files), outputs[k].path)
  {
    errors := [];
    for k := 0 to count
      invariant fs.faults >= old(fs.faults)
      invariant forall j :: 0 <= j < k && outputs[j].path !in errors ==> outputs[j].path !in fs.files
      invariant forall p :: p !in Paths(outputs) ==> Same(fs.files, old(fs.files), p)
      invariant forall j :: count <= j < |outputs| ==> Same(fs.files, old(fs.files), outputs[j].path)
    {
      assert Paths(outputs)[k] == outputs[k].path;
      var ok := fs.Remove(outputs[k].path);
      if !ok {
        errors := errors + [outputs[k].path];
      }
    }
  }

  /** Move the originals back, the last one first. */
  method RestoreBackups(fs: FileSystem, ghost start: Files, backups: seq<Backup>, ghost next: nat)
    returns (errors: seq<Path>)
    requires Kept(fs.files, start, backups, next)
    modifies fs`files, fs`renames, fs`faults
    ensures fs.faults >= old(fs.faults)
    ensures fs.faults == old(fs.faults) ==> errors == [] && forall p <- SavedIn(backups) :: p !in fs.files
    ensures forall k :: 0 <= k < |backups| && backups[k].original !in errors ==>
              Same(fs.files, start, backups[k].original)
    ensures old(fs.renames) <= fs.renames
    ensures forall p :: p !in Originals(backups) && p !in SavedIn(backups) ==> Same(fs.files, old(fs.files), p)
  {
    errors := [];
    var m: nat := |backups|;
    assert backups[..m] == backups;
    while m > 0
      invariant m <= |backups|
      invariant fs.faults >= old(fs.faults)
      invariant fs.faults == old(fs.faults) ==>
                  errors == [] && forall k :: m <= k < |backups| ==> backups[k].saved !in fs.files
      invariant Kept(fs.files, start, backups[..m], next)
      invariant forall k :: m <= k < |backups| && backups[k].original !in errors ==>
                  Same(fs.files, start, backups[k].original)
      invariant old(fs.renames) <= fs.renames
      invariant forall p :: p !in Originals(backups) && p !in SavedIn(backups) ==> Same(fs.files, old(fs.files), p)
    {
      m := m - 1;
      var b := backups[m];
      assert b == backups[..m + 1][m];
      assert Originals(backups)[m] == b.original && SavedIn(backups)[m] == b.saved;
      ghost var before := fs.files;
      var ok := fs.Rename(b.saved, b.original);
      if !ok {
        errors := errors + [b.original];
      }
      assert b.saved in before;
      forall k | m < k < |backups| && backups[k].saved !in before ensures backups[k].saved !in fs.files {
        assert SavedIn(backups)[k].Staged? && backups[..m + 1][m].original.Named?;
      }
      FewerKept(before, fs.files, start, backups, m, next);
    }
  }

  lemma FewerKept(before: Files, after: Files, start: Files, backups: seq<Backup>, m: nat, next: nat)
    requires m < |backups| && Kept(before, start, backups[..m + 1], next)
    requires forall p :: p != backups[m].original && p != backups[m].saved ==> Same(after, before, p)
    ensures Kept(after, start, backups[..m], next)
  {
    var more, fewer := backups[..m + 1], backups[..m];
    assert forall k :: 0 <= k < m ==> fewer[k] == more[k] && SavedIn(fewer)[k] == SavedIn(more)[k];
    assert more[m] == backups[m] && SavedIn(more)[m] == backups[m].saved;
    forall k | 0 <= k < m ensures fewer[k].saved in after && after[fewer[k].saved] == start[fewer[k].original] {
      assert SavedIn(more)[k] != SavedIn(more)[m];
      assert Same(after, before, fewer[k].saved);
    }
  }

  // ---------- publishing ----------

  /** Every named file is as it was, except perhaps those moved to their backups. */
  ghost predicate Parked(files: Files, start: Files, backups: seq<Backup>) {
    && (forall p: Path :: p.Named? && p !in Originals(backups) ==> Same(files, start, p))
    && (forall k :: 0 <= k < |backups| ==> backups[k].original !in files)
  }

  /** Write every output to a temporary file. */
  method StageAll(fs: FileSystem, outputs: seq<Output>) returns (ok: bool, staged: seq<Path>)
    modifies fs`files, fs`nextStaged, fs`faults
    ensures fs.faults >= old(fs.faults) && fs.nextStaged >= old(fs.nextStaged)
    ensures fs.faults == old(fs.faults) ==>
              Tidy(fs.files, old(fs.files), staged) && (!ok ==> NameTaken(old(fs.files), old(fs.nextStaged)))
    ensures !ok ==> staged == []
    ensures forall p: Path :: p.Named? ==> Same(fs.files, old(fs.files), p)
    ensures ok ==> |staged| == |outputs| && Ready(fs.files, outputs, staged, 0) && AllStaged(staged, fs.nextStaged)
  {
    hide Same, Ready, Tidy, NameTaken;
    staged := [];
    NothingStaged(fs.files, outputs);
    for k := 0 to |outputs|
      invariant fs.faults >= old(fs.faults) && fs.nextStaged >= old(fs.nextStaged)
      invariant fs.faults == old(fs.faults) ==> Tidy(fs.files, old(fs.files), staged)
      invariant forall p: Path :: p.Named? ==> Same(fs.files, old(fs.files), p)
      invariant |staged| == k && Ready(fs.files, outputs, staged, 0) && AllStaged(staged, fs.nextStaged)
    {
      ghost var earlier := fs.files;
      var temp := fs.StagedPath();
      assert fs.files == earlier;
      var wrote := fs.WriteNew(temp, outputs[k].contents);
      ghost var before := fs.files;
      if !wrote {
        RemoveQuietly(fs, staged);
        if fs.faults == old(fs.faults) {
          assert [] + staged == staged && before == earlier && temp in before;
          Swept(old(fs.files), before, fs.files, [], staged);
          Taken(old(fs.files), before, staged, old(fs.nextStaged), fs.nextStaged);
        }
        StillSame(old(fs.files), earlier, before, fs.files, staged, temp);
        return false, [];
      }
      AllSame(fs.files);
      StillSame(old(fs.files), earlier, before, fs.files, staged, temp);
      StagedOne(earlier, fs.files, outputs, staged, temp, fs.nextStaged);
      TidyOne(old(fs.files), earlier, fs.files, staged, temp);
      staged := staged + [temp];
    }
    return true, staged;
  }

  lemma TidyOne(start: Files, earlier: Files, files: Files, mine: seq<Path>, temp: Path)
    requires temp.Staged? && temp in files && temp !in mine
    requires temp !in earlier && forall p :: p != temp ==> Same(files, earlier, p)
    ensures Tidy(earlier, start, mine) ==> Tidy(files, start, mine + [temp])
  {
    if Tidy(earlier, start, mine) {
      forall p: Path | p.Staged? ensures if p in mine + [temp] then p !in start else Same(files, start, p) {
        assert p in mine + [temp] <==> p in mine || p == temp;
        assert if p in mine then p !in start else Same(earlier, start, p);
        assert p != temp ==> Same(files, earlier, p);
      }
    }
  }

  /** Removing some of the temporary files leaves only the others. */
  lemma Swept(start: Files, before: Files, files: Files, kept: seq<Path>, swept: seq<Path>)
    requires Tidy(before, start, kept + swept)
    requires forall p :: p !in swept ==> Same(files, before, p)
    requires forall p <- swept :: p !in files && p !in kept
    ensures Tidy(files, start, kept)
  {
    forall p: Path | p.Staged? ensures if p in kept then p !in start else Same(files, start, p) {
      assert p in kept + swept <==> p in kept || p in swept;
    }
  }

  /** A new name that is in use was in use from the start. */
  lemma Taken(start: Files, files: Files, mine: seq<Path>, first: nat, next: nat)
    requires first < next && Staged(next - 1) in files
    requires Tidy(files, start, mine) && AllStaged(mine, next - 1)
    ensures NameTaken(start, first)
  {
    assert Staged(next - 1) !in mine;
    assert Same(files, start, Staged(next - 1));
  }

  lemma NothingStaged(files: Files, outputs: seq<Output>)
    ensures Ready(files, outputs, [], 0) && AllStaged([], 0) && forall p: Path :: Same(files, files, p)
    ensures Tidy(files, files, [])
  {
  }

  lemma StagedOne(earlier: Files, files: Files, outputs: seq<Output>, staged: seq<Path>, temp: Path, next: nat)
    requires next > 0 && temp == Staged(next - 1)
    requires Ready(earlier, outputs, staged, 0) && AllStaged(staged, next - 1) && |staged| < |outputs|
    requires files == earlier[temp := Regular(outputs[|staged|].contents)]
    ensures Ready(files, outputs, staged + [temp], 0) && AllStaged(staged + [temp], next)
  {
  }

  lemma StillSame(start: Files, earlier: Files, before: Files, files: Files, staged: seq<Path>, temp: Path)
    requires forall p: Path :: p.Named? ==> Same(earlier, start, p)
    requires forall p :: p != temp ==> Same(before, earlier, p)
    requires forall p :: p !in staged ==> Same(files, before, p)
    requires temp.Staged? && forall k :: 0 <= k < |staged| ==> staged[k].Staged?
    ensures forall p: Path :: p.Named? ==> Same(files, start, p)
  {
    forall p: Path | p.Named? ensures Same(files, start, p) {
      assert p != temp && p !in staged;
      assert Same(files, before, p) && Same(before, earlier, p) && Same(earlier, start, p);
    }
  }

  /** Move one destination to a new name. */
  method BackUpOne(fs: FileSystem, path: Path) returns (moved: bool, backup: Path)
    requires path.Named?
    modifies fs`files, fs`nextStaged, fs`faults
    ensures fs.faults >= old(fs.faults)
    ensures fs.faults == old(fs.faults) && !moved && path in old(fs.files) ==>
              fs.files == old(fs.files) && backup in fs.files
    ensures backup == Staged(old(fs.nextStaged)) && fs.nextStaged == old(fs.nextStaged) + 1
    ensures moved ==> path in old(fs.files) && backup !in old(fs.files)
                      && fs.files == old(fs.files)[backup := old(fs.files)[path]] - {path}
    ensures !moved ==> forall p :: p != backup ==> Same(fs.files, old(fs.files), p)
  {
    backup := fs.StagedPath();
    var linked := fs.HardLink(path, backup);
    moved := false;
    if linked {
      moved := fs.Remove(path);
      if !moved {
        var ok := fs.Remove(backup);
      }
    }
  }

  /** Move all backups back and drop the temporary files. */
  method UndoBackups(fs: FileSystem, ghost start: Files, backups: seq<Backup>, staged: seq<Path>)
    returns (errors: seq<Path>)
    requires Kept(fs.files, start, backups, fs.nextStaged) && Parked(fs.files, start, backups)
    requires AllStaged(staged, fs.nextStaged)
    modifies fs`files, fs`renames, fs`faults
    ensures fs.faults >= old(fs.faults)
    ensures fs.faults == old(fs.faults) ==>
              errors == []
              && forall p: Path :: p.Staged? ==>
                   if p in staged || p in SavedIn(backups) then p !in fs.files
                   else Same(fs.files, old(fs.files), p)
    ensures forall p: Path :: p.Named? && (p !in Originals(backups) || p !in errors) ==> Same(fs.files, start, p)
  {
    ghost var parked := fs.files;
    errors := RestoreBackups(fs, start, backups, fs.nextStaged);
    ghost var restored := fs.files;
    RemoveQuietly(fs, staged);
    RolledBack(parked, restored, fs.files, start, backups, staged, fs.nextStaged, errors);
    if fs.faults == old(fs.faults) {
      NoneStaged(parked, restored, fs.files, start, backups, staged, fs.nextStaged);
    }
  }

  lemma NoneStaged(parked: Files, restored: Files, files: Files, start: Files, backups: seq<Backup>,
                   staged: seq<Path>, next: nat)
    requires Kept(parked, start, backups, next)
    requires forall p <- SavedIn(backups) :: p !in restored
    requires forall p :: p !in Originals(backups) && p !in SavedIn(backups) ==> Same(restored, parked, p)
    requires forall p <- staged :: p !in files
    requires forall p :: p !in staged ==> Same(files, restored, p)
    ensures forall p: Path :: p.Staged? ==>
              if p in staged || p in SavedIn(backups) then p !in files else Same(files, parked, p)
  {
    forall p: Path | p.Staged?
      ensures if p in staged || p in SavedIn(backups) then p !in files else Same(files, parked, p)
    {
      assert p !in Originals(backups);
    }
  }

  /** Move every destination that is seen to exist to a backup. If that fails, all is put back.
      `unseen` lists the destinations that are there and that the probe did not see. */
  method BackUpAll(fs: FileSystem, outputs: seq<Output>, staged: seq<Path>)
    returns (failed: Option<Published>, backups: seq<Backup>, ghost unseen: seq<Path>)
    requires Distinct(outputs) && |staged| == |outputs|
    requires Ready(fs.files, outputs, staged, 0) && AllStaged(staged, fs.nextStaged)
    modifies fs
    ensures fs.missed == old(fs.missed) + unseen
    ensures fs.faults >= old(fs.faults)
    ensures fs.faults == old(fs.faults) ==>
              if failed.None? then Tidy(fs.files, old(fs.files), SavedIn(backups))
              else
                && failed.value == NotPublished([]) && NameTaken(old(fs.files), old(fs.nextStaged))
                && forall p: Path :: p.Staged? ==>
                     if p in staged then p !in fs.files else Same(fs.files, old(fs.files), p)
    ensures failed.None? ==>
              Backing(fs.files, old(fs.files), outputs, staged, backups, |outputs|, unseen, fs.nextStaged)
              && fs.renames == old(fs.renames)
    ensures failed.Some? ==>
              && failed.value.NotPublished?
              && (forall p: Path :: p.Named? && (p !in Paths(outputs) || p !in failed.value.rollbackErrors) ==>
                    Same(fs.files, old(fs.files), p))
  {
    hide Backing, Same, Kept, Parked, AllStaged, Distinct, Ready, Tidy, NameTaken;
    backups, failed, unseen := [], None, [];
    BackingStarts(fs.files, outputs, staged, fs.nextStaged);
    for k := 0 to |outputs|
      invariant fs.faults >= old(fs.faults) && fs.nextStaged >= old(fs.nextStaged)
      invariant fs.faults == old(fs.faults) ==> Tidy(fs.files, old(fs.files), SavedIn(backups))
      invariant Backing(fs.files, old(fs.files), outputs, staged, backups, k, unseen, fs.nextStaged)
      invariant fs.missed == old(fs.missed) + unseen && fs.renames == old(fs.renames)
    {
      var path := outputs[k].path;
      IsNamed(outputs, k);
      ghost var earlier, before, missed := unseen, fs.files, [];
      var there;
      there, missed := fs.Exists(path);
      unseen := unseen + missed;
      assert there ==> unseen == earlier;
      SavedNames(fs.files, old(fs.files), outputs, staged, backups, k, earlier, fs.nextStaged);
      if there {
        var moved, backup := BackUpOne(fs, path);
        if !moved {
          NotMoved(before, fs.files, old(fs.files), outputs, staged, backups, k, earlier, fs.nextStaged, backup);
          var errors := UndoBackups(fs, old(fs.files), backups, staged);
          if fs.faults == old(fs.faults) {
            GivenUp(old(fs.files), before, fs.files, staged, backups, old(fs.nextStaged), fs.nextStaged);
          }
          return Some(NotPublished(errors)), [], unseen;
        }
        Moved(before, fs.files, old(fs.files), outputs, staged, backups, k, earlier, fs.nextStaged, backup);
        TidyBackup(old(fs.files), before, fs.files, backups, path, backup, fs.nextStaged);
        backups := backups + [Backup(path, backup)];
      } else {
        PassedBy(fs.files, old(fs.files), outputs, staged, backups, k, earlier, missed, fs.nextStaged);
      }
    }
  }

  lemma TidyBackup(start: Files, before: Files, files: Files, backups: seq<Backup>, path: Path,
                   backup: Path, next: nat)
    requires next > 0 && backup == Staged(next - 1) && path.Named? && path in before && backup !in before
    requires files == before[backup := before[path]] - {path}
    requires AllStaged(SavedIn(backups), next - 1)
    ensures Tidy(before, start, SavedIn(backups)) ==>
              Tidy(files, start, SavedIn(backups + [Backup(path, backup)]))
  {
    var mine := SavedIn(backups);
    assert SavedIn(backups + [Backup(path, backup)]) == mine + [backup];
    assert backup !in mine;
    if Tidy(before, start, mine) {
      assert Same(before, start, backup);
    }
  }

  lemma GivenUp(start: Files, before: Files, files: Files, staged: seq<Path>, backups: seq<Backup>,
                first: nat, next: nat)
    requires first < next && Staged(next - 1) in before
    requires Tidy(before, start, SavedIn(backups)) && AllStaged(SavedIn(backups), next - 1)
    requires forall p: Path :: p.Staged? ==>
               if p in staged || p in SavedIn(backups) then p !in files else Same(files, before, p)
    ensures NameTaken(start, first)
    ensures forall p: Path :: p.Staged? ==> if p in staged then p !in files else Same(files, start, p)
  {
    Taken(start, before, SavedIn(backups), first, next);
  }

  lemma SavedNames(files: Files, start: Files, outputs: seq<Output>, staged: seq<Path>,
                   backups: seq<Backup>, k: nat, unseen: seq<Path>, next: nat)
    requires Backing(files, start, outputs, staged, backups, k, unseen, next)
    ensures AllStaged(SavedIn(backups), next)
  {
  }

  lemma IsNamed(outputs: seq<Output>, k: nat)
    requires Distinct(outputs) && k < |outputs|
    ensures outputs[k].path.Named?
  {
  }

  lemma BackingStarts(files: Files, outputs: seq<Output>, staged: seq<Path>, next: nat)
    requires Distinct(outputs) && |staged| == |outputs|
    requires Ready(files, outputs, staged, 0) && AllStaged(staged, next)
    ensures Backing(files, files, outputs, staged, [], 0, [], next) && Tidy(files, files, SavedIn([]))
  {
  }

  /** A destination that is not seen stays where it is. */
  lemma PassedBy(files: Files, start: Files, outputs: seq<Output>, staged: seq<Path>,
                 backups: seq<Backup>, k: nat, unseen: seq<Path>, missed: seq<Path>, next: nat)
    requires k < |outputs| && Backing(files, start, outputs, staged, backups, k, unseen, next)
    requires Probed(files, outputs[k].path, false, missed)
    ensures Backing(files, start, outputs, staged, backups, k + 1, unseen + missed, next)
  {
    hide Same, Kept, Ready, AllStaged, Parked;
    PathsGrow(outputs, k);
    NewPath(outputs, k);
  }

  lemma NewPath(outputs: seq<Output>, k: nat)
    requires Distinct(outputs) && k < |outputs|
    ensures outputs[k].path !in Paths(outputs[..k])
    ensures forall j :: 0 <= j < k ==> outputs[j].path != outputs[k].path
  {
  }

  /** Backing up, with the first `k` outputs looked at. */
  ghost predicate Backing(files: Files, start: Files, outputs: seq<Output>, staged: seq<Path>,
                          backups: seq<Backup>, k: nat, unseen: seq<Path>, next: nat)
  {
    && Distinct(outputs) && |staged| == |outputs| && k <= |outputs|
    && Ready(files, outputs, staged, 0) && AllStaged(staged, next)
    && Kept(files, start, backups, next) && Parked(files, start, backups)
    && (forall b <- backups :: b.saved !in staged)
    && (forall j :: 0 <= j < |backups| ==> backups[j].original in Paths(outputs[..k]))
    && (forall p <- unseen :: p in Paths(outputs[..k]))
    && (forall j :: 0 <= j < k ==> (outputs[j].path in unseen <==> outputs[j].path in files))
  }

  lemma PathsGrow(outputs: seq<Output>, k: nat)
    requires k < |outputs|
    ensures Paths(outputs[..k + 1]) == Paths(outputs[..k]) + [outputs[k].path]
    ensures forall p <- Paths(outputs[..k]) :: p in Paths(outputs)
  {
    forall p | p in Paths(outputs[..k]) ensures p in Paths(outputs) {
      var i :| 0 <= i < k && Paths(outputs[..k])[i] == p;
      assert Paths(outputs)[i] == p;
    }
  }

  /** A named file whose backup was moved back without an error is as at the start. */
  lemma RolledBack(parked: Files, restored: Files, files: Files, start: Files, backups: seq<Backup>,
                   staged: seq<Path>, next: nat, errors: seq<Path>)
    requires Parked(parked, start, backups) && AllStaged(SavedIn(backups), next) && AllStaged(staged, next)
    requires forall k :: 0 <= k < |backups| && backups[k].original !in errors ==>
               Same(restored, start, backups[k].original)
    requires forall p :: p !in Originals(backups) && p !in SavedIn(backups) ==> Same(restored, parked, p)
    requires forall p :: p !in staged ==> Same(files, restored, p)
    ensures forall p: Path :: p.Named? && (p !in Originals(backups) || p !in errors) ==> Same(files, start, p)
  {
    forall p: Path | p.Named? && (p !in Originals(backups) || p !in errors) ensures Same(files, start, p) {
      assert Same(files, restored, p);
      if p in Originals(backups) {
        var k :| 0 <= k < |backups| && Originals(backups)[k] == p;
        assert Same(restored, start, backups[k].original);
      } else {
        assert p !in SavedIn(backups);
        assert Same(restored, parked, p) && Same(parked, start, p);
      }
    }
  }

  lemma NotMoved(before: Files, files: Files, start: Files, outputs: seq<Output>, staged: seq<Path>,
                 backups: seq<Backup>, k: nat, unseen: seq<Path>, next: nat, backup: Path)
    requires next > 0 && k < |outputs| && Backing(before, start, outputs, staged, backups, k, unseen, next - 1)
    requires backup == Staged(next - 1) && forall p :: p != backup ==> Same(files, before, p)
    ensures Kept(files, start, backups, next) && Parked(files, start, backups)
    ensures forall p :: p in Originals(backups) ==> p in Paths(outputs)
    ensures AllStaged(staged, next)
  {
    KeptElsewhere(before, files, start, backups, next, backup);
    PathsGrow(outputs, k);
    forall p: Path | p.Named? && p !in Originals(backups) ensures Same(files, start, p) {
      assert Same(files, before, p) && Same(before, start, p);
    }
    forall j | 0 <= j < |backups| ensures backups[j].original !in files {
      assert Same(files, before, backups[j].original);
    }
  }

  lemma KeptElsewhere(before: Files, files: Files, start: Files, backups: seq<Backup>, next: nat, backup: Path)
    requires next > 0 && Kept(before, start, backups, next - 1)
    requires backup == Staged(next - 1) && forall p: Path :: p.Staged? && p != backup ==> Same(files, before, p)
    ensures Kept(files, start, backups, next)
  {
    forall j | 0 <= j < |backups|
      ensures backups[j].saved in files && files[backups[j].saved] == start[backups[j].original]
    {
      assert SavedIn(backups)[j].number < next - 1;
      assert Same(files, before, backups[j].saved);
    }
  }

  lemma Moved(before: Files, files: Files, start: Files, outputs: seq<Output>, staged: seq<Path>,
              backups: seq<Backup>, k: nat, unseen: seq<Path>, next: nat, backup: Path)
    requires next > 0 && k < |outputs| && Backing(before, start, outputs, staged, backups, k, unseen, next - 1)
    requires backup == Staged(next - 1) && outputs[k].path in before
    requires files == before[backup := before[outputs[k].path]] - {outputs[k].path}
    ensures Kept(files, start, backups + [Backup(outputs[k].path, backup)], next)
    ensures Backing(files, start, outputs, staged, backups + [Backup(outputs[k].path, backup)], k + 1, unseen, next)
  {
    var path, all := outputs[k].path, backups + [Backup(outputs[k].path, backup)];
    MovedApart(before, start, outputs, staged, backups, k, unseen, next, backup);
    assert Originals(all) == Originals(backups) + [path];
    assert Same(before, start, path);
    forall p: Path | p.Named? && p !in Originals(all) ensures Same(files, start, p) {
      assert Same(before, start, p);
    }
    MovedKept(before, files, start, backups, next, path, backup);
    PathsGrow(outputs, k);
    NewPath(outputs, k);
    hide Kept;
  }

  /** The destination and its new name are not among those already dealt with. */
  lemma MovedApart(before: Files, start: Files, outputs: seq<Output>, staged: seq<Path>,
                   backups: seq<Backup>, k: nat, unseen: seq<Path>, next: nat, backup: Path)
    requires next > 0 && k < |outputs| && Backing(before, start, outputs, staged, backups, k, unseen, next - 1)
    requires backup == Staged(next - 1)
    ensures outputs[k].path !in Originals(backups) && backup !in staged
    ensures forall j :: 0 <= j < |backups| ==> backups[j].original != outputs[k].path
  {
    hide Same, Ready;
    forall j | 0 <= j < |backups| ensures backups[j].original != outputs[k].path {
      assert backups[j].original in Paths(outputs[..k]);
    }
  }

  lemma MovedKept(before: Files, files: Files, start: Files, backups: seq<Backup>, next: nat,
                  path: Path, backup: Path)
    requires next > 0 && Kept(before, start, backups, next - 1)
    requires backup == Staged(next - 1) && path.Named? && path in before && Same(before, start, path)
    requires files == before[backup := before[path]] - {path}
    requires forall j :: 0 <= j < |backups| ==> backups[j].original != path
    ensures Kept(files, start, backups + [Backup(path, backup)], next)
  {
    var all := backups + [Backup(path, backup)];
    KeptElsewhere(before, files, start, backups, next, backup);
    assert SavedIn(all) == SavedIn(backups) + [backup];
    forall j | 0 <= j < |backups| ensures SavedIn(all)[j] != backup {
      assert SavedIn(backups)[j].number < next - 1;
    }
  }

  /** Renaming into place, with the first `k` outputs published. */
  ghost predicate Publishing(files: Files, start: Files, outputs: seq<Output>, staged: seq<Path>,
                             backups: seq<Backup>, k: nat, unseen: seq<Path>, next: nat)
  {
    && Distinct(outputs) && |staged| == |outputs| && k <= |outputs|
    && Ready(files, outputs, staged, k) && AllStaged(staged, next)
    && Kept(files, start, backups, next)
    && (forall b <- backups :: b.saved !in staged)
    && (forall p <- Originals(backups) :: p in Paths(outputs))
    && (forall p: Path :: p.Named? && p !in Paths(outputs) ==> Same(files, start, p))
    && (forall j :: 0 <= j < k ==> outputs[j].path in files && files[outputs[j].path] == Regular(outputs[j].contents))
    && (forall p <- unseen :: p !in Originals(backups))
    && (forall j :: 0 <= j < |outputs| && outputs[j].path !in Originals(backups) ==>
          && (outputs[j].path in unseen <==> outputs[j].path in start)
          && (k <= j ==> Same(files, start, outputs[j].path)))
  }

  lemma PublishingStarts(files: Files, start: Files, outputs: seq<Output>, staged: seq<Path>,
                         backups: seq<Backup>, unseen: seq<Path>, next: nat)
    requires Backing(files, start, outputs, staged, backups, |outputs|, unseen, next)
    ensures Publishing(files, start, outputs, staged, backups, 0, unseen, next)
  {
    hide Kept, Ready, AllStaged;
    assert outputs[..|outputs|] == outputs;
    assert forall j :: 0 <= j < |outputs| ==> Paths(outputs)[j] == outputs[j].path;
    forall p | p in unseen ensures p !in Originals(backups) {
      var j :| 0 <= j < |outputs| && Paths(outputs)[j] == p;
      assert outputs[j].path in files;
    }
    forall j | 0 <= j < |outputs| && outputs[j].path !in Originals(backups)
      ensures Same(files, start, outputs[j].path) && (outputs[j].path in unseen <==> outputs[j].path in start)
    {
      assert outputs[j].path.Named?;
    }
  }

  lemma OnePublished(before: Files, files: Files, start: Files, outputs: seq<Output>, staged: seq<Path>,
                     backups: seq<Backup>, k: nat, unseen: seq<Path>, next: nat)
    requires k < |outputs| && Publishing(before, start, outputs, staged, backups, k, unseen, next)
    requires files == before[outputs[k].path := before[staged[k]]] - {staged[k]}
    ensures Publishing(files, start, outputs, staged, backups, k + 1, unseen, next)
  {
    var path, temp := outputs[k].path, staged[k];
    assert Paths(outputs)[k] == path;
    forall j | 0 <= j < |backups|
      ensures backups[j].saved in files && files[backups[j].saved] == start[backups[j].original]
    {
      assert backups[j] in backups && SavedIn(backups)[j].Staged?;
    }
    forall p: Path | p.Named? && p !in Paths(outputs) ensures Same(files, start, p) {
      assert Same(before, start, p);
    }
    forall j | k + 1 <= j < |staged| ensures staged[j] in files && files[staged[j]] == Regular(outputs[j].contents) {
      assert staged[j] != temp;
    }
    forall j | k + 1 <= j < |outputs| && outputs[j].path !in Originals(backups)
      ensures Same(files, start, outputs[j].path)
    {
      assert outputs[j].path != path && Same(before, start, outputs[j].path);
    }
    hide Same;
  }

  /** Of the destinations that rolled back without an error, exactly those are not as they were
      that were there unseen and had been replaced. */
  ghost predicate LostExactly(files: Files, start: Files, outputs: seq<Output>, unseen: seq<Path>,
                              reached: nat, errors: seq<Path>)
  {
    forall j :: 0 <= j < |outputs| && outputs[j].path !in errors ==>
      (Same(files, start, outputs[j].path) <==> !(outputs[j].path in unseen && j < reached))
  }

  /** Undo a publish that stopped after `k` outputs. */
  method UndoPublish(fs: FileSystem, ghost start: Files, outputs: seq<Output>, staged: seq<Path>,
                     backups: seq<Backup>, k: nat, ghost unseen: seq<Path>) returns (errors: seq<Path>)
    requires Publishing(fs.files, start, outputs, staged, backups, k, unseen, fs.nextStaged)
    modifies fs`files, fs`renames, fs`faults
    ensures old(fs.renames) <= fs.renames && fs.faults >= old(fs.faults)
    ensures forall p: Path :: p.Named? && p !in Paths(outputs) ==> Same(fs.files, start, p)
    ensures LostExactly(fs.files, start, outputs, unseen, k, errors)
  {
    hide Same, Kept, AllStaged, Ready;
    ghost var before := fs.files;
    AllSame(before);
    StillKept(before, before, start, outputs, staged, backups, k, unseen, fs.nextStaged);
    errors := Unpublish(fs, outputs, k);
    ghost var removed := fs.files;
    StillKept(before, removed, start, outputs, staged, backups, k, unseen, fs.nextStaged);
    var more := RestoreBackups(fs, start, backups, fs.nextStaged);
    ghost var restored := fs.files;
    RemoveQuietly(fs, staged[k..]);
    Undone(before, removed, restored, fs.files, start, outputs, staged, backups, k, unseen, fs.nextStaged,
           errors, more);
    errors := errors + more;
  }

  lemma StillKept(before: Files, removed: Files, start: Files, outputs: seq<Output>, staged: seq<Path>,
                  backups: seq<Backup>, k: nat, unseen: seq<Path>, next: nat)
    requires Publishing(before, start, outputs, staged, backups, k, unseen, next)
    requires forall p :: p !in Paths(outputs) ==> Same(removed, before, p)
    ensures Kept(removed, start, backups, next)
  {
    forall j | 0 <= j < |backups|
      ensures backups[j].saved in removed && removed[backups[j].saved] == start[backups[j].original]
    {
      assert SavedIn(backups)[j].Staged?;
      assert backups[j].saved !in Paths(outputs);
      assert Same(removed, before, backups[j].saved);
    }
  }

  lemma Undone(before: Files, removed: Files, restored: Files, files: Files, start: Files,
               outputs: seq<Output>, staged: seq<Path>, backups: seq<Backup>, k: nat, unseen: seq<Path>,
               next: nat, errors: seq<Path>, more: seq<Path>)
    requires Publishing(before, start, outputs, staged, backups, k, unseen, next)
    requires forall j :: 0 <= j < k && outputs[j].path !in errors ==> outputs[j].path !in removed
    requires forall p :: p !in Paths(outputs) ==> Same(removed, before, p)
    requires forall j :: k <= j < |outputs| ==> Same(removed, before, outputs[j].path)
    requires forall j :: 0 <= j < |backups| && backups[j].original !in more ==>
               Same(restored, start, backups[j].original)
    requires forall p :: p !in Originals(backups) && p !in SavedIn(backups) ==> Same(restored, removed, p)
    requires forall p :: p !in staged[k..] ==> Same(files, restored, p)
    ensures forall p: Path :: p.Named? && p !in Paths(outputs) ==> Same(files, start, p)
    ensures LostExactly(files, start, outputs, unseen, k, errors + more)
  {
    hide Kept, Ready;
    forall p: Path | p.Named? ensures p !in staged[k..] && p !in SavedIn(backups) {
      assert forall j :: k <= j < |staged| ==> staged[j].Staged?;
      KeptIsStaged(before, start, backups, next);
    }
    forall p: Path | p.Named? && p !in Paths(outputs) ensures Same(files, start, p) {
      assert p !in Originals(backups);
      assert Same(files, restored, p) && Same(restored, removed, p) && Same(removed, before, p) && Same(before, start, p);
    }
    forall j | 0 <= j < |outputs| && outputs[j].path !in errors + more
      ensures Same(files, start, outputs[j].path) <==> !(outputs[j].path in unseen && j < k)
    {
      var p := outputs[j].path;
      assert Same(files, restored, p);
      if p in Originals(backups) {
        var b :| 0 <= b < |backups| && Originals(backups)[b] == p;
        assert Same(restored, start, backups[b].original);
      } else {
        assert Same(restored, removed, p);
        assert j >= k ==> Same(removed, before, p) && Same(before, start, p);
      }
    }
  }

  lemma KeptIsStaged(files: Files, start: Files, backups: seq<Backup>, next: nat)
    requires Kept(files, start, backups, next)
    ensures forall p <- SavedIn(backups) :: p.Staged?
  {
  }

  /** The renames that put the first outputs in place. */
  function Landed(outputs: seq<Output>): (renames: seq<(Path, bool)>)
    ensures |renames| == |outputs|
  {
    seq(|outputs|, k requires 0 <= k < |outputs| => (outputs[k].path, true))
  }

  /** A destination that is there and is not a regular file. */
  ghost predicate Irregular(files: Files, outputs: seq<Output>) {
    exists k :: 0 <= k < |outputs| && outputs[k].path in files && files[outputs[k].path].Special?
  }

  /** Rename every temporary file onto its destination; if that fails, undo what was done. */
  method PutInPlace(fs: FileSystem, ghost origin: Files, ghost start: Files, outputs: seq<Output>,
                    staged: seq<Path>, backups: seq<Backup>, ghost unseen: seq<Path>)
    returns (done: bool, errors: seq<Path>, ghost reached: nat)
    requires Publishing(fs.files, start, outputs, staged, backups, 0, unseen, fs.nextStaged)
    modifies fs`files, fs`renames, fs`faults
    ensures fs.faults >= old(fs.faults) && reached <= |outputs|
    ensures done ==> reached == |outputs|
                     && Publishing(fs.files, start, outputs, staged, backups, reached, unseen, fs.nextStaged)
    ensures done && Tidy(old(fs.files), origin, staged + SavedIn(backups)) ==>
              Tidy(fs.files, origin, SavedIn(backups))
    ensures !done ==>
              && fs.faults > old(fs.faults) && reached < |outputs|
              && old(fs.renames) + Landed(outputs[..reached]) + [(outputs[reached].path, false)] <= fs.renames
              && (forall p: Path :: p.Named? && p !in Paths(outputs) ==> Same(fs.files, start, p))
              && LostExactly(fs.files, start, outputs, unseen, reached, errors)
  {
    hide Same, Kept, AllStaged, Ready, Publishing, Distinct, Tidy, LostExactly;
    LengthsAgree(fs.files, start, outputs, staged, backups, 0, unseen, fs.nextStaged);
    assert Landed(outputs[..0]) == [] && fs.renames + [] == fs.renames && staged[0..] == staged;
    for k := 0 to |outputs|
      invariant |outputs| == |staged| && fs.faults >= old(fs.faults)
      invariant Tidy(old(fs.files), origin, staged + SavedIn(backups)) ==>
                  Tidy(fs.files, origin, staged[k..] + SavedIn(backups))
      invariant Publishing(fs.files, start, outputs, staged, backups, k, unseen, fs.nextStaged)
      invariant fs.renames == old(fs.renames) + Landed(outputs[..k])
    {
      ghost var before := fs.files;
      RenameApart(before, start, outputs, staged, backups, k, unseen, fs.nextStaged);
      var renamed := fs.Rename(staged[k], outputs[k].path);
      if !renamed {
        errors := UndoPublish(fs, start, outputs, staged, backups, k, unseen);
        return false, errors, k;
      }
      OnePublished(before, fs.files, start, outputs, staged, backups, k, unseen, fs.nextStaged);
      TidyLanded(origin, before, fs.files, outputs[k].path, staged, k, SavedIn(backups));
      assert Landed(outputs[..k + 1]) == Landed(outputs[..k]) + [(outputs[k].path, true)];
    }
    assert staged[|outputs|..] + SavedIn(backups) == SavedIn(backups);
    return true, [], |outputs|;
  }

  lemma LengthsAgree(files: Files, start: Files, outputs: seq<Output>, staged: seq<Path>,
                     backups: seq<Backup>, k: nat, unseen: seq<Path>, next: nat)
    requires Publishing(files, start, outputs, staged, backups, k, unseen, next)
    ensures |staged| == |outputs|
  {
  }

  /** Whether a destination is seen not to be a regular file. */
  method SeesIrregular(fs: FileSystem, outputs: seq<Output>) returns (seen: bool)
    modifies fs`faults
    ensures fs.faults >= old(fs.faults)
    ensures fs.faults == old(fs.faults) ==> seen == Irregular(fs.files, outputs)
    ensures seen ==> Irregular(fs.files, outputs)
  {
    for k := 0 to |outputs|
      invariant fs.faults >= old(fs.faults)
      invariant fs.faults == old(fs.faults) ==>
                  forall j :: 0 <= j < k && outputs[j].path in fs.files ==> fs.files[outputs[j].path].Regular?
    {
      var file := fs.Metadata(outputs[k].path);
      if file.Some? && !file.value.Regular? {
        return true;
      }
    }
    return false;
  }

  /** Publish all outputs. On success every destination has its new contents. On failure the
      renaming stopped after `reached` outputs, and of the destinations whose rollback raised no
      error exactly those are lost that were there, unseen by the probe, and already replaced;
      every other is as it was. Nothing else is touched. Without a fault there is nothing to roll
      back: all is published unless a destination is irregular or a temporary name is in use, and
      no temporary file stays behind. */
  method PublishOutputs(fs: FileSystem, outputs: seq<Output>)
    returns (r: Published, ghost unseen: seq<Path>, ghost reached: nat)
    requires Distinct(outputs)
    modifies fs
    ensures fs.missed == old(fs.missed) + unseen
    ensures forall p: Path :: p.Named? && p !in Paths(outputs) ==> Same(fs.files, old(fs.files), p)
    ensures r.AllPublished? ==>
              forall k :: 0 <= k < |outputs| ==>
                outputs[k].path in fs.files && fs.files[outputs[k].path] == Regular(outputs[k].contents)
    ensures reached > 0 && r.NotPublished? ==>
              reached < |outputs|
              && old(fs.renames) + Landed(outputs[..reached]) + [(outputs[reached].path, false)] <= fs.renames
    ensures r.NotPublished? ==> LostExactly(fs.files, old(fs.files), outputs, unseen, reached, r.rollbackErrors)
    ensures r == NotPublished([]) ==>
              ((forall p: Path :: p.Named? ==> Same(fs.files, old(fs.files), p)) <==>
                 forall j :: 0 <= j < reached && j < |outputs| ==> outputs[j].path !in unseen)
    ensures fs.faults >= old(fs.faults)
    ensures fs.faults == old(fs.faults) ==>
              && (forall p: Path :: p.Staged? ==> Same(fs.files, old(fs.files), p))
              && (r.NotPublished? ==> r == NotPublished([]) && reached == 0)
              && (r.NotPublished? ==>
                    Irregular(old(fs.files), outputs) || NameTaken(old(fs.files), old(fs.nextStaged)))
              && (Irregular(old(fs.files), outputs) ==> r.NotPublished?)
  {
    hide Same, Kept, AllStaged, Ready, Backing, Publishing, Parked, Distinct, Tidy, NameTaken, Irregular;
    unseen, reached := [], 0;
    AllSame(fs.files);
    var irregular := SeesIrregular(fs, outputs);
    if irregular {
      NothingLost(fs.files, old(fs.files), outputs, [], []);
      return NotPublished([]), [], 0;
    }
    var ok, staged := StageAll(fs, outputs);
    if !ok {
      if fs.faults == old(fs.faults) {
        NothingMine(fs.files, old(fs.files));
      }
      NothingLost(fs.files, old(fs.files), outputs, [], []);
      return NotPublished([]), [], 0;
    }
    ghost var start, next := fs.files, fs.nextStaged;
    var failed, backups;
    failed, backups, unseen := BackUpAll(fs, outputs, staged);
    if failed.Some? {
      if fs.faults == old(fs.faults) {
        StagedBack(old(fs.files), start, fs.files, staged, old(fs.nextStaged), next);
      }
      SameAgain(old(fs.files), start, fs.files);
      NothingLost(fs.files, old(fs.files), outputs, unseen, failed.value.rollbackErrors);
      return failed.value, unseen, 0;
    }
    PublishingStarts(fs.files, start, outputs, staged, backups, unseen, fs.nextStaged);
    if fs.faults == old(fs.faults) {
      TidyBoth(old(fs.files), start, fs.files, staged, SavedIn(backups));
    }
    var done, errors;
    done, errors, reached := PutInPlace(fs, old(fs.files), start, outputs, staged, backups, unseen);
    if !done {
      SameAgain(old(fs.files), start, fs.files);
      LostSince(old(fs.files), start, fs.files, outputs, unseen, reached, errors);
      return NotPublished(errors), unseen, reached;
    }
    ghost var published := fs.files;
    RemoveQuietly(fs, SavedIn(backups));
    if fs.faults == old(fs.faults) {
      assert [] + SavedIn(backups) == SavedIn(backups);
      Swept(old(fs.files), published, fs.files, [], SavedIn(backups));
      NothingMine(fs.files, old(fs.files));
    }
    Cleared(published, fs.files, start, outputs, staged, backups, unseen, fs.nextStaged);
    SameAgain(old(fs.files), start, fs.files);
    return AllPublished, unseen, |outputs|;
  }

  lemma NothingMine(files: Files, start: Files)
    requires Tidy(files, start, [])
    ensures forall p: Path :: p.Staged? ==> Same(files, start, p)
  {
  }

  lemma StagedBack(a: Files, start: Files, files: Files, staged: seq<Path>, first: nat, next: nat)
    requires Tidy(start, a, staged) && AllStaged(staged, next) && first <= next && NameTaken(start, next)
    requires forall p: Path :: p.Staged? ==> if p in staged then p !in files else Same(files, start, p)
    ensures NameTaken(a, first)
    ensures forall p: Path :: p.Staged? ==> Same(files, a, p)
  {
    var n: nat :| n >= next && Staged(n) in start;
    assert Staged(n) !in staged && Same(start, a, Staged(n));
  }

  lemma TidyBoth(a: Files, start: Files, files: Files, staged: seq<Path>, saved: seq<Path>)
    requires Tidy(start, a, staged) && Tidy(files, start, saved)
    ensures Tidy(files, a, staged + saved)
  {
    forall p: Path | p.Staged? ensures if p in staged + saved then p !in a else Same(files, a, p) {
      assert p in staged + saved <==> p in staged || p in saved;
      assert if p in staged then p !in a else Same(start, a, p);
      assert if p in saved then p !in start else Same(files, start, p);
    }
  }

  lemma TidyLanded(a: Files, before: Files, files: Files, path: Path, staged: seq<Path>, k: nat, saved: seq<Path>)
    requires k < |staged| && staged[k] in before && staged[k].Staged? && path.Named?
    requires files == before[path := before[staged[k]]] - {staged[k]}
    ensures Tidy(before, a, staged[k..] + saved) ==> Tidy(files, a, staged[k + 1..] + saved)
  {
    if Tidy(before, a, staged[k..] + saved) {
      assert staged[k..] + saved == [staged[k]] + (staged[k + 1..] + saved);
      forall p: Path | p.Staged? ensures if p in staged[k + 1..] + saved then p !in a else Same(files, a, p) {
        assert p in staged[k..] + saved <==> p == staged[k] || p in staged[k + 1..] + saved;
        assert if p in staged[k..] + saved then p !in a else Same(before, a, p);
      }
    }
  }

  lemma NothingLost(files: Files, start: Files, outputs: seq<Output>, unseen: seq<Path>, errors: seq<Path>)
    requires Distinct(outputs)
    requires forall p: Path :: p.Named? && p !in errors ==> Same(files, start, p)
    ensures LostExactly(files, start, outputs, unseen, 0, errors)
  {
  }

  /** The same, measured from before the temporary files were written. */
  lemma LostSince(a: Files, start: Files, files: Files, outputs: seq<Output>, unseen: seq<Path>,
                  reached: nat, errors: seq<Path>)
    requires Distinct(outputs) && reached < |outputs|
    requires forall p: Path :: p.Named? ==> Same(start, a, p)
    requires LostExactly(files, start, outputs, unseen, reached, errors)
    requires forall p: Path :: p.Named? && p !in Paths(outputs) ==> Same(files, a, p)
    ensures LostExactly(files, a, outputs, unseen, reached, errors)
    ensures errors == [] ==>
              ((forall p: Path :: p.Named? ==> Same(files, a, p)) <==>
                 forall j :: 0 <= j < reached ==> outputs[j].path !in unseen)
  {
    forall j | 0 <= j < |outputs| ensures Same(files, start, outputs[j].path) <==> Same(files, a, outputs[j].path) {
      assert Same(start, a, outputs[j].path);
    }
    if errors == [] && forall j :: 0 <= j < reached ==> outputs[j].path !in unseen {
      forall p: Path | p.Named? && p in Paths(outputs) ensures Same(files, a, p) {
        var j :| 0 <= j < |outputs| && Paths(outputs)[j] == p;
        assert Same(files, start, outputs[j].path);
      }
    }
  }

  lemma AllSame(files: Files)
    ensures forall p: Path :: Same(files, files, p)
  {
  }

  lemma SameAgain(a: Files, b: Files, c: Files)
    requires forall p: Path :: p.Named? ==> Same(b, a, p)
    ensures forall p: Path :: p.Named? && Same(c, b, p) ==> Same(c, a, p)
  {
    forall p: Path | p.Named? && Same(c, b, p) ensures Same(c, a, p) {
      assert Same(b, a, p);
    }
  }

  lemma RenameApart(files: Files, start: Files, outputs: seq<Output>, staged: seq<Path>,
                    backups: seq<Backup>, k: nat, unseen: seq<Path>, next: nat)
    requires k < |outputs| && Publishing(files, start, outputs, staged, backups, k, unseen, next)
    ensures k < |staged| && staged[k] in files && staged[k].Staged? && outputs[k].path.Named?
  {
  }

  lemma Cleared(published: Files, files: Files, start: Files, outputs: seq<Output>, staged: seq<Path>,
                backups: seq<Backup>, unseen: seq<Path>, next: nat)
    requires Publishing(published, start, outputs, staged, backups, |outputs|, unseen, next)
    requires forall p :: p !in SavedIn(backups) ==> Same(files, published, p)
    ensures forall p: Path :: p.Named? && p !in Paths(outputs) ==> Same(files, start, p)
    ensures forall k :: 0 <= k < |outputs| ==>
              outputs[k].path in files && files[outputs[k].path] == Regular(outputs[k].contents)
  {
    KeptIsStaged(published, start, backups, next);
    hide Kept, Ready, AllStaged;
    forall p: Path | p.Named? && p !in Paths(outputs) ensures Same(files, start, p) {
      assert Same(files, published, p) && Same(published, start, p);
    }
    forall k | 0 <= k < |outputs|
      ensures outputs[k].path in files && files[outputs[k].path] == Regular(outputs[k].contents)
    {
      assert Same(files, published, outputs[k].path);
    }
  }

  /** A run that loses a file, operation by operation, from any files that hold `p` and none of
      the other names. The look finds `p` regular; both outputs are staged; the probe misses
      `p`; `p` is replaced without a backup; renaming onto `q` fails; the undo removes `p` and
      the last temporary file without an error. */
  lemma UnseenDestinationIsLost(start: Files, n: nat, p: Output, q: Output)
    returns (one: Files, two: Files, replaced: Files, removed: Files, end: Files)
    requires Distinct([p, q]) && p.path in start && start[p.path].Regular? && q.path !in start
    requires Staged(n) !in start && Staged(n + 1) !in start
    ensures Looked(start, p.path, Some(start[p.path])) && Looked(start, q.path, None)
    ensures Written(start, one, Staged(n), p.contents) && Written(one, two, Staged(n + 1), q.contents)
    ensures Probed(two, p.path, false, [p.path]) && Probed(two, q.path, false, [])
    ensures Renamed(two, replaced, Staged(n), p.path)
    ensures Removed(replaced, removed, p.path) && Removed(removed, end, Staged(n + 1))
    ensures end == start - {p.path} && LostExactly(end, start, [p, q], [p.path], 1, [])
  {
    assert [p, q][0] == p && [p, q][1] == q;
    one := start[Staged(n) := Regular(p.contents)];
    two := one[Staged(n + 1) := Regular(q.contents)];
    replaced := two[p.path := two[Staged(n)]] - {Staged(n)};
    removed := replaced - {p.path};
    end := removed - {Staged(n + 1)};
    assert end == start - {p.path};
  }
}
