/** `mux-update/src/transaction.rs`: replacing an installation file by file, and undoing it. */
module UpdateTransaction {
  import opened Options
  import opened UpdatePaths

  // The file system.  Every operation may fail, as often and whenever it likes;
  // a failed rename or removal changes nothing.
  class Disk {
    var files: Files
    var directories: set<Path>

    /** How many operations have failed for a reason of their own, not because of what they were asked to do. */
    ghost var failures: nat

    constructor (files: Files, directories: set<Path>)
      ensures this.files == files && this.directories == directories && failures == 0
    {
      this.files, this.directories, this.failures := files, directories, 0;
    }

    // Anything that may fail without touching the installation: a cancellation check, a probe of a
    // binary, a caller's callback.
    method Attempt() returns (ok: bool)
      modifies this`failures
      ensures failures == if ok then old(failures) else old(failures) + 1
    {
      ok := *;
      if !ok {
        failures := failures + 1;
      }
    }

    /** `fs::rename` */
    method Rename(source: Path, target: Path) returns (ok: bool)
      modifies this`files, this`failures
      ensures ok <==> failures == old(failures) && source in old(files) && target !in directories
      ensures old(failures) <= failures <= old(failures) + 1
      ensures files == if ok && source != target then old(files)[target := old(files)[source]] - {source}
                       else old(files)
    {
      ok := Attempt();
      if source !in files || target in directories {
        ok := false;
      }
      if ok && source != target {
        files := files[target := files[source]] - {source};
      }
    }

    /** `fs::remove_file`; a file that is not there is not an error for the caller. */
    method RemoveFile(path: Path) returns (ok: bool)
      modifies this`files, this`failures
      ensures files == if ok then old(files) - {path} else old(files)
      ensures ok <==> failures == old(failures) && path !in directories
      ensures path !in old(files) && path !in directories ==> ok
      ensures old(failures) <= failures <= old(failures) + 1
    {
      if path !in files && path !in directories {
        return true;
      }
      ok := Attempt();
      if path in directories {
        ok := false;
      }
      if ok {
        files := files - {path};
      }
    }

    // `fs::write` and `fs::copy`.  A failed one may have done nothing, or part of
    // it, which no receipt reads back from, or all of it.
    method Write(target: Path, content: Content) returns (ok: bool)
      modifies this`files, this`failures
      ensures ok <==> failures == old(failures) && target !in directories
      ensures old(failures) <= failures <= old(failures) + 1
      ensures ok ==> files == old(files)[target := content]
      ensures !ok ==> files == old(files) || (target in files && (files[target].Data? || files[target] == content))
      ensures forall path :: path != target ==> Get(files, path) == Get(old(files), path)
    {
      ok := Attempt();
      if target in directories {
        return false;
      }
      var started := *;
      if ok {
        files := files[target := content];
      } else if started {
        var finished := *;
        var written := *;
        files := files[target := if finished then content else Data(written)];
      }
    }

    /** `tempdir_in`: a directory that did not exist, with nothing in it; a name that is taken is a failure. */
    method MakeStage(parent: Path) returns (stage: Option<Path>)
      modifies this`directories, this`failures
      ensures stage.Some? <==> failures == old(failures) && parent in old(directories)
      ensures old(failures) <= failures <= old(failures) + 1
      ensures stage.Some? ==>
                && NewStage(stage.value, parent, old(directories))
                && directories == old(directories) + {stage.value}
                && forall path :: path in files ==> !Under(stage.value, path)
      ensures stage.None? ==> directories == old(directories)
    {
      stage := None;
      var suffix: string := *;
      var name := ".mux-update-" + suffix;
      var attempt := parent + [name];
      if parent !in directories {
        return;
      }
      if
        && (forall dir :: dir in directories ==> dir != attempt && !Under(attempt, dir))
        && (forall path :: path in files ==> path != attempt && !Under(attempt, path))
      {
        assert name[..12] == ".mux-update-";
        directories := directories + {attempt};
        stage := Some(attempt);
      } else {
        failures := failures + 1;
      }
    }

    /** `is_regular_existing`: whether a regular file is there, or an error. */
    method Inspect(path: Path) returns (existing: Option<bool>)
      modifies this`failures
      ensures existing.Some? <==> failures == old(failures) && path !in directories
      ensures old(failures) <= failures <= old(failures) + 1
      ensures existing.Some? ==> existing.value == (path in files)
    {
      var ok := Attempt();
      existing := if ok && path !in directories then Some(path in files) else None;
    }

  /** Dropping a staging directory: best effort, inside it only. */
    method DropStage(stage: Path)
      modifies this`files
      ensures forall path :: !Under(stage, path) ==> Get(files, path) == Get(old(files), path)
    {
      var done := *;
      if done {
        files := map path | path in files && !Under(stage, path) :: files[path];
      }
    }
  }

  /** One file of the transaction. */
  datatype Prepared = Prepared(destination: Path, replacement: Option<Path>, backup: Path, existed: bool)

  function PathsOf(item: Prepared): set<Path> {
    {item.destination, item.backup} + (if item.replacement.Some? then {item.replacement.value} else {})
  }

  /** The three paths of an item differ from each other. */
  predicate Proper(item: Prepared) {
    && item.destination != item.backup
    && (item.replacement.Some? ==>
          item.replacement.value != item.destination && item.replacement.value != item.backup)
  }

  /** No two items share a path. */
  predicate Separate(items: seq<Prepared>) {
    && (forall i :: 0 <= i < |items| ==> Proper(items[i]))
    && forall i, j :: 0 <= i < j < |items| ==> PathsOf(items[i]) !! PathsOf(items[j])
  }

  ghost predicate Same(left: Files, right: Files, path: Path) {
    Get(left, path) == Get(right, path)
  }

  function AllPaths(items: seq<Prepared>): set<Path> {
    set i, path | 0 <= i < |items| && path in PathsOf(items[i]) :: path
  }

  /** Outside the paths of the items two file systems agree. */
  ghost predicate AgreeOutside(left: Files, right: Files, items: seq<Prepared>) {
    forall path :: path !in AllPaths(items) ==> Same(left, right, path)
  }

  lemma {:induction false} OthersApart(items: seq<Prepared>, i: nat)
    requires Separate(items) && i < |items|
    ensures forall j :: 0 <= j < |items| && j != i ==> PathsOf(items[j]) !! PathsOf(items[i])
    ensures PathsOf(items[i]) <= AllPaths(items)
  {
  }

  /** `existed` and the staged files are as `prepare` found and left them. */
  predicate Staged(base: Files, item: Prepared) {
    && (item.existed <==> item.destination in base)
    && (item.replacement.Some? ==> item.replacement.value in base)
    && item.backup !in base
  }

  ghost predicate Untouched(base: Files, files: Files, item: Prepared) {
    forall path :: path in PathsOf(item) ==> Same(base, files, path)
  }

  /** The old content has left for the backup; the destination may hold anything. */
  predicate BackedUp(base: Files, files: Files, item: Prepared) {
    Get(files, item.backup) == if item.existed then Get(base, item.destination) else None
  }

  /** The item is fully installed. */
  predicate Replaced(base: Files, files: Files, item: Prepared) {
    && BackedUp(base, files, item)
    && Get(files, item.destination) ==
       if item.replacement.Some? then Get(base, item.replacement.value) else None
  }

  predicate Restored(base: Files, files: Files, item: Prepared) {
    Get(files, item.destination) == Get(base, item.destination)
  }

  /** The old content is at its destination or at its backup. */
  predicate Preserved(base: Files, files: Files, item: Prepared) {
    item.existed ==> Restored(base, files, item) || Get(files, item.backup) == Get(base, item.destination)
  }

  /** A change confined to one item leaves the others as they were. */
  lemma {:induction false} OthersKept(base: Files, before: Files, after: Files, items: seq<Prepared>, i: nat)
    requires Separate(items) && i < |items|
    requires forall path :: path !in PathsOf(items[i]) ==> Same(before, after, path)
    ensures forall j :: 0 <= j < |items| && j != i ==>
              && (forall path :: path in PathsOf(items[j]) ==> Same(before, after, path))
              && (Untouched(base, before, items[j]) ==> Untouched(base, after, items[j]))
              && (BackedUp(base, before, items[j]) ==> BackedUp(base, after, items[j]))
              && (Replaced(base, before, items[j]) ==> Replaced(base, after, items[j]))
              && (Preserved(base, before, items[j]) ==> Preserved(base, after, items[j]))
              && (Restored(base, before, items[j]) ==> Restored(base, after, items[j]))
  {
    OthersApart(items, i);
    forall j | 0 <= j < |items| && j != i
      ensures forall path :: path in PathsOf(items[j]) ==> Same(before, after, path)
    {
      assert PathsOf(items[j]) !! PathsOf(items[i]);
    }
  }

  /** `rollback`: undo the items in reverse order, going on past errors. */
  method Rollback(disk: Disk, items: seq<Prepared>, ghost base: Files) returns (ok: bool)
    requires Separate(items)
    requires forall i :: 0 <= i < |items| ==> Staged(base, items[i]) && BackedUp(base, disk.files, items[i])
    requires forall i :: 0 <= i < |items| ==> items[i].destination !in disk.directories
    modifies disk`files, disk`failures
    ensures ok <==> disk.failures == old(disk.failures)
    ensures old(disk.failures) <= disk.failures
    ensures AgreeOutside(old(disk.files), disk.files, items)
    ensures forall i :: 0 <= i < |items| ==> Preserved(base, disk.files, items[i])
    ensures ok ==> forall i :: 0 <= i < |items| ==> Restored(base, disk.files, items[i])
  {
    ok := true;
    var i := |items|;
    while i > 0
      invariant 0 <= i <= |items| && old(disk.failures) <= disk.failures
      invariant ok <==> disk.failures == old(disk.failures)
      invariant AgreeOutside(old(disk.files), disk.files, items)
      invariant forall j :: 0 <= j < i ==> BackedUp(base, disk.files, items[j])
      invariant forall j :: i <= j < |items| ==> Preserved(base, disk.files, items[j])
      invariant ok ==> forall j :: i <= j < |items| ==> Restored(base, disk.files, items[j])
    {
      i := i - 1;
      var item := items[i];
      ghost var before := disk.files;
      OthersApart(items, i);
      var removed := disk.RemoveFile(item.destination);
      if !removed {
        ok := false;
        OthersKept(base, before, disk.files, items, i);
        continue;
      }
      if item.existed {
        var renamed := disk.Rename(item.backup, item.destination);
        if !renamed {
          ok := false;
        }
      }
      assert forall path :: path !in PathsOf(item) ==> Same(before, disk.files, path);
      OthersKept(base, before, disk.files, items, i);
    }
  }

  // ------------------------------------------------------------------- backups

  /** Where the plan puts the old content of each destination. */
  ghost function BackupsOf(items: seq<Prepared>): map<Path, Path> {
    if items == [] then map[]
    else
      var n := |items| - 1;
      BackupsOf(items[..n])[items[n].destination := items[n].backup]
  }

  /** The item a backup belongs to. */
  lemma {:induction false} BackupIndex(items: seq<Prepared>, path: Path) returns (i: nat)
    requires path in BackupsOf(items)
    ensures i < |items| && items[i].destination == path && items[i].backup == BackupsOf(items)[path]
  {
    var n := |items| - 1;
    i := n;
    if path != items[n].destination {
      i := BackupIndex(items[..n], path);
    }
  }

  /** Each item has its own. */
  lemma {:induction false} BackupAt(items: seq<Prepared>, i: nat)
    requires Separate(items) && i < |items|
    ensures items[i].destination in BackupsOf(items) && BackupsOf(items)[items[i].destination] == items[i].backup
    decreases |items|
  {
    var n := |items| - 1;
    if i < n {
      SeparateFront(items, n);
      BackupAt(items[..n], i);
      OthersApart(items, n);
      assert PathsOf(items[i]) !! PathsOf(items[n]);
    }
  }

  lemma {:induction false} SeparateFront(items: seq<Prepared>, n: nat)
    requires Separate(items) && n <= |items|
    ensures Separate(items[..n])
  {
  }

  /** No two destinations share a backup. */
  lemma {:induction false} BackupsDiffer(items: seq<Prepared>, path: Path, other: Path)
    requires Separate(items) && path in BackupsOf(items) && other in BackupsOf(items)
    ensures BackupsOf(items)[path] == BackupsOf(items)[other] ==> path == other
  {
    var i := BackupIndex(items, path);
    var j := BackupIndex(items, other);
    if i != j {
      OthersApart(items, i);
      assert items[i].backup in PathsOf(items[i]) && items[j].backup in PathsOf(items[j]);
    }
  }

  // ------------------------------------------------------------------- prepare

  /** The regular files of an unpacked bundle. */
  type Bundle = map<OwnedFile, Content>

  /** The item `prepare` makes for the file with number `index`. */
  function ItemFor(newReceipt: Receipt, file: OwnedFile, index: nat, binStage: Path, libStage: Path,
                   existed: bool): Prepared {
    var stage := StageDir(file, binStage, libStage);
    Prepared(
      Destination(newReceipt, file),
      if file in newReceipt.files then Some(stage + [NewName(index)]) else None,
      stage + [OldName(index)],
      existed)
  }

  function ReceiptItem(newReceipt: Receipt, binStage: Path, existed: bool): Prepared {
    Prepared(ReceiptPath(newReceipt), Some(binStage + [RECEIPT_NEW]), binStage + [RECEIPT_OLD], existed)
  }

  /** Two staging directories made one after the other for an installation. */
  predicate Stages(receipt: Receipt, binStage: Path, libStage: Path, directories: set<Path>) {
    && receipt.binDir != receipt.libDir && receipt.binDir in directories && receipt.libDir in directories
    && NewStage(binStage, receipt.binDir, directories)
    && NewStage(libStage, receipt.libDir, directories + {binStage})
  }

  /** Inside one of the two staging directories. */
  predicate InStages(binStage: Path, libStage: Path, path: Path) {
    Under(binStage, path) || Under(libStage, path)
  }

  /** No file in a staging directory is a directory. */
  lemma {:induction false} StagedIsNoDirectory(receipt: Receipt, binStage: Path, libStage: Path,
                                               directories: set<Path>, path: Path)
    requires Stages(receipt, binStage, libStage, directories) && InStages(binStage, libStage, path)
    ensures path !in directories + {binStage, libStage}
  {
    if |binStage| <= |receipt.libDir| {
      assert libStage[..|binStage|] == receipt.libDir[..|binStage|];
    }
  }

  /** No destination is a staging directory. */
  lemma {:induction false} DestinationIsNoStage(receipt: Receipt, dir: Path, name: string, binStage: Path,
                                                libStage: Path, directories: set<Path>)
    requires Stages(receipt, binStage, libStage, directories) && (ValidName(name) || name == RECEIPT)
    ensures dir + [name] != binStage && dir + [name] != libStage
  {
    InstalledIsNoStage(dir, name, binStage, receipt.binDir, directories);
    InstalledIsNoStage(dir, name, libStage, receipt.libDir, directories + {binStage});
  }

  /** No destination lies in a staging directory: both directories were there before. */
  lemma {:induction false} DestinationOutside(receipt: Receipt, name: string, dir: Path, binStage: Path,
                                              libStage: Path, directories: set<Path>)
    requires Stages(receipt, binStage, libStage, directories) && dir in {receipt.binDir, receipt.libDir}
    ensures !InStages(binStage, libStage, dir + [name])
  {
    InstalledIsNotStaged(dir, name, binStage, receipt.binDir, directories);
    InstalledIsNotStaged(dir, name, libStage, receipt.libDir, directories + {binStage});
  }

  /** An item whose staged files have the given names in `stage`. */
  function StagedItem(destination: Path, stage: Path, newName: string, oldName: string, replaced: bool,
                      existed: bool): Prepared {
    Prepared(destination, if replaced then Some(stage + [newName]) else None, stage + [oldName], existed)
  }

  /** A path in a staging directory is not outside them, and two of different names differ. */
  lemma {:induction false} StagedPathsDiffer(leftStage: Path, leftName: string, rightStage: Path, rightName: string,
                                             binStage: Path, libStage: Path)
    requires leftStage in {binStage, libStage} && rightStage in {binStage, libStage}
    ensures InStages(binStage, libStage, leftStage + [leftName])
    ensures InStages(binStage, libStage, rightStage + [rightName])
    ensures leftName != rightName ==> leftStage + [leftName] != rightStage + [rightName]
  {
    StagedUnder(leftStage, leftName);
    StagedUnder(rightStage, rightName);
  }

  /** Items with different destinations outside the stages and different staging names share no path. */
  lemma {:induction false} StagedItemsApart(left: Prepared, leftStage: Path, leftNew: string, leftOld: string,
                                            right: Prepared, rightStage: Path, rightNew: string, rightOld: string,
                                            binStage: Path, libStage: Path)
    requires left == StagedItem(left.destination, leftStage, leftNew, leftOld, left.replacement.Some?, left.existed)
    requires right == StagedItem(right.destination, rightStage, rightNew, rightOld, right.replacement.Some?,
                                 right.existed)
    requires leftStage in {binStage, libStage} && rightStage in {binStage, libStage}
    requires !InStages(binStage, libStage, left.destination) && !InStages(binStage, libStage, right.destination)
    requires left.destination != right.destination
    requires leftNew != rightNew && leftNew != rightOld && leftOld != rightNew && leftOld != rightOld
    ensures PathsOf(left) !! PathsOf(right)
  {
    StagedPathsDiffer(leftStage, leftNew, rightStage, rightNew, binStage, libStage);
    StagedPathsDiffer(leftStage, leftNew, rightStage, rightOld, binStage, libStage);
    StagedPathsDiffer(leftStage, leftOld, rightStage, rightNew, binStage, libStage);
    StagedPathsDiffer(leftStage, leftOld, rightStage, rightOld, binStage, libStage);
  }

  lemma {:induction false} StagedItemProper(item: Prepared, stage: Path, newName: string, oldName: string,
                                            binStage: Path, libStage: Path)
    requires item == StagedItem(item.destination, stage, newName, oldName, item.replacement.Some?, item.existed)
    requires stage in {binStage, libStage} && !InStages(binStage, libStage, item.destination) && newName != oldName
    ensures Proper(item)
  {
    StagedUnder(stage, newName);
    StagedUnder(stage, oldName);
  }

  lemma {:induction false} FileOutside(receipt: Receipt, file: OwnedFile, binStage: Path, libStage: Path,
                                       directories: set<Path>)
    requires Stages(receipt, binStage, libStage, directories)
    ensures !InStages(binStage, libStage, Destination(receipt, file))
  {
    var dir := if file.area.Bin? then receipt.binDir else receipt.libDir;
    DestinationOutside(receipt, file.name, dir, binStage, libStage, directories);
  }

  lemma {:induction false} ItemsApart(newReceipt: Receipt, left: OwnedFile, i: nat, right: OwnedFile, j: nat,
                                      binStage: Path, libStage: Path, directories: set<Path>, leftExisted: bool,
                                      rightExisted: bool)
    requires Stages(newReceipt, binStage, libStage, directories)
    requires left != right && i != j && ValidName(left.name)
    ensures PathsOf(ItemFor(newReceipt, left, i, binStage, libStage, leftExisted)) !!
            PathsOf(ItemFor(newReceipt, right, j, binStage, libStage, rightExisted))
  {
    DestinationsDiffer(newReceipt, left, right);
    FileOutside(newReceipt, left, binStage, libStage, directories);
    FileOutside(newReceipt, right, binStage, libStage, directories);
    StagingNamesDiffer(i, j);
    StagingNamesDiffer(j, i);
    StagedItemsApart(
      ItemFor(newReceipt, left, i, binStage, libStage, leftExisted),
      StageDir(left, binStage, libStage), NewName(i), OldName(i),
      ItemFor(newReceipt, right, j, binStage, libStage, rightExisted),
      StageDir(right, binStage, libStage), NewName(j), OldName(j),
      binStage, libStage);
  }

  lemma {:induction false} ItemProper(newReceipt: Receipt, file: OwnedFile, i: nat, binStage: Path, libStage: Path,
                                      directories: set<Path>, existed: bool)
    requires Stages(newReceipt, binStage, libStage, directories)
    ensures Proper(ItemFor(newReceipt, file, i, binStage, libStage, existed))
  {
    FileOutside(newReceipt, file, binStage, libStage, directories);
    StagingNamesDiffer(i, i);
    StagedItemProper(ItemFor(newReceipt, file, i, binStage, libStage, existed),
                     StageDir(file, binStage, libStage), NewName(i), OldName(i), binStage, libStage);
  }

  lemma {:induction false} ReceiptItemApart(newReceipt: Receipt, file: OwnedFile, i: nat, binStage: Path,
                                            libStage: Path, directories: set<Path>, existed: bool,
                                            receiptExisted: bool)
    requires Stages(newReceipt, binStage, libStage, directories) && ValidName(file.name)
    ensures PathsOf(ItemFor(newReceipt, file, i, binStage, libStage, existed)) !!
            PathsOf(ReceiptItem(newReceipt, binStage, receiptExisted))
  {
    DestinationsDiffer(newReceipt, file, file);
    FileOutside(newReceipt, file, binStage, libStage, directories);
    DestinationOutside(newReceipt, RECEIPT, newReceipt.binDir, binStage, libStage, directories);
    ReceiptNamesDiffer(i);
    StagedItemsApart(
      ItemFor(newReceipt, file, i, binStage, libStage, existed),
      StageDir(file, binStage, libStage), NewName(i), OldName(i),
      ReceiptItem(newReceipt, binStage, receiptExisted), binStage, RECEIPT_NEW, RECEIPT_OLD,
      binStage, libStage);
  }

  lemma {:induction false} ReceiptItemProper(newReceipt: Receipt, binStage: Path, libStage: Path,
                                             directories: set<Path>, existed: bool)
    requires Stages(newReceipt, binStage, libStage, directories)
    ensures Proper(ReceiptItem(newReceipt, binStage, existed))
  {
    DestinationOutside(newReceipt, RECEIPT, newReceipt.binDir, binStage, libStage, directories);
    ReceiptNamesDiffer(0);
    StagedItemProper(ReceiptItem(newReceipt, binStage, existed), binStage, RECEIPT_NEW, RECEIPT_OLD, binStage,
                     libStage);
  }
}
