/** `prepare` and `install` of `mux-update/src/transaction.rs`: all or nothing, whatever fails. */
module UpdateInstall {
  import opened Options
  import opened UpdatePaths
  import opened UpdateTransaction

  /** `all` lists every file of either receipt once. */
  ghost predicate ListsBoth(all: seq<OwnedFile>, oldReceipt: Receipt, newReceipt: Receipt) {
    && (forall file :: file in all <==> file in oldReceipt.files || file in newReceipt.files)
    && forall i, j :: 0 <= i < j < |all| ==> all[i] != all[j]
  }

  /** The union of the two receipts' files; the program goes through it in sorted order, here the order is open. */
  method Union(oldReceipt: Receipt, newReceipt: Receipt) returns (all: seq<OwnedFile>)
    ensures ListsBoth(all, oldReceipt, newReceipt)
  {
    all := [];
    for i := 0 to |oldReceipt.files|
      invariant forall file :: file in all <==> file in oldReceipt.files[..i]
      invariant forall i, j :: 0 <= i < j < |all| ==> all[i] != all[j]
    {
      if oldReceipt.files[i] !in all {
        all := all + [oldReceipt.files[i]];
      }
    }
    assert oldReceipt.files[..|oldReceipt.files|] == oldReceipt.files;
    for i := 0 to |newReceipt.files|
      invariant forall file :: file in all <==> file in oldReceipt.files || file in newReceipt.files[..i]
      invariant forall i, j :: 0 <= i < j < |all| ==> all[i] != all[j]
    {
      if newReceipt.files[i] !in all {
        all := all + [newReceipt.files[i]];
      }
    }
    assert newReceipt.files[..|newReceipt.files|] == newReceipt.files;
  }

  /** No backup has been taken in this staging directory yet. */
  ghost predicate NoBackups(files: Files, stage: Path) {
    && stage + [RECEIPT_OLD] !in files
    && forall k: nat :: stage + [OldName(k)] !in files
  }

  lemma {:induction false} StagingKeepsNoBackups(before: Files, after: Files, stage: Path, target: Path, dir: Path,
                                                 name: string)
    requires NoBackups(before, stage) && target == dir + [name]
    requires name != RECEIPT_OLD && forall k: nat :: name != OldName(k)
    requires forall path :: path != target ==> Same(before, after, path)
    ensures NoBackups(after, stage)
  {
    StagedUnder(dir, name);
    assert Same(before, after, stage + [RECEIPT_OLD]);
    forall k: nat ensures stage + [OldName(k)] !in after {
      assert Same(before, after, stage + [OldName(k)]);
    }
  }

  /** What `prepare` has established about one item: nothing moved yet, the new content staged. */
  ghost predicate ItemReady(files: Files, item: Prepared, file: OwnedFile, bundle: Bundle) {
    && Staged(files, item)
    && (item.replacement.Some? ==> file in bundle && files[item.replacement.value] == bundle[file])
  }

  // The file may be put in place or taken away: nothing but a regular file is in its way, and
  // one that is there is owned.
  ghost predicate MayReplace(files: Files, directories: set<Path>, receipt: Receipt, file: OwnedFile) {
    && Destination(receipt, file) !in directories
    && (Destination(receipt, file) in files ==> file in receipt.files)
  }

  /** One turn of the loop in `prepare`. */
  method PrepareFile(disk: Disk, oldReceipt: Receipt, newReceipt: Receipt, bundle: Bundle, file: OwnedFile,
                     index: nat, binStage: Path, libStage: Path, ghost directories: set<Path>)
    returns (item: Option<Prepared>)
    requires Stages(newReceipt, binStage, libStage, directories)
    requires disk.directories == directories + {binStage, libStage}
    requires newReceipt.binDir == oldReceipt.binDir && newReceipt.libDir == oldReceipt.libDir
    requires NoBackups(disk.files, binStage) && NoBackups(disk.files, libStage)
    requires ValidName(file.name) && (file in newReceipt.files ==> file in bundle)
    modifies disk`files, disk`failures
    ensures item.Some? <==>
              disk.failures == old(disk.failures) && MayReplace(old(disk.files), directories, oldReceipt, file)
    ensures old(disk.failures) <= disk.failures <= old(disk.failures) + 1
    ensures NoBackups(disk.files, binStage) && NoBackups(disk.files, libStage)
    ensures forall path :: path != StageDir(file, binStage, libStage) + [NewName(index)] ==>
              Same(old(disk.files), disk.files, path)
    ensures item.Some? ==>
              && item.value == ItemFor(newReceipt, file, index, binStage, libStage, item.value.existed)
              && ItemReady(disk.files, item.value, file, bundle)
              && (item.value.existed ==> file in oldReceipt.files)
  {
    DestinationIsNoStage(newReceipt, if file.area.Bin? then newReceipt.binDir else newReceipt.libDir, file.name,
                         binStage, libStage, directories);
    item := None;
    var destination := Destination(newReceipt, file);
    var existing := disk.Inspect(destination);
    if existing.None? {
      return;
    }
    if existing.value && file !in oldReceipt.files {
      return;
    }
    var stage := StageDir(file, binStage, libStage);
    var replacement: Option<Path> := None;
    if file in newReceipt.files {
      var staged := stage + [NewName(index)];
      StagedUnder(stage, NewName(index));
      StagedIsNoDirectory(newReceipt, binStage, libStage, directories, staged);
      var written := disk.Write(staged, bundle[file]);
      forall k: nat ensures NewName(index) != OldName(k) {
        StagingNamesDiffer(index, k);
      }
      ReceiptNamesDiffer(index);
      StagingKeepsNoBackups(old(disk.files), disk.files, binStage, staged, stage, NewName(index));
      StagingKeepsNoBackups(old(disk.files), disk.files, libStage, staged, stage, NewName(index));
      if !written {
        return;
      }
      replacement := Some(staged);
    }
    item := Some(Prepared(destination, replacement, stage + [OldName(index)], existing.value));
  }

  /** The items of a transaction: one per file, the receipt last. */
  ghost predicate IsPlan(items: seq<Prepared>, all: seq<OwnedFile>, newReceipt: Receipt, binStage: Path,
                         libStage: Path) {
    && |items| == |all| + 1
    && (forall i :: 0 <= i < |all| ==>
          items[i] == ItemFor(newReceipt, all[i], i, binStage, libStage, items[i].existed))
    && items[|all|] == ReceiptItem(newReceipt, binStage, items[|all|].existed)
  }

  /** Everything `install` relies on when it starts moving files. */
  ghost predicate PlanReady(files: Files, items: seq<Prepared>, all: seq<OwnedFile>, newReceipt: Receipt,
                            bundle: Bundle, binStage: Path, libStage: Path) {
    && IsPlan(items, all, newReceipt, binStage, libStage)
    && (forall i :: 0 <= i < |all| ==> ItemReady(files, items[i], all[i], bundle))
    && Staged(files, items[|all|])
    && files[items[|all|].replacement.value] == ReceiptText(newReceipt)
  }

  // The paths of a plan are pairwise distinct: unsafe names are banned, the directories differ,
  // and staged files are numbered.
  lemma {:induction false} PlanIsSeparate(items: seq<Prepared>, all: seq<OwnedFile>, newReceipt: Receipt,
                                          binStage: Path, libStage: Path, directories: set<Path>)
    requires IsPlan(items, all, newReceipt, binStage, libStage) && Stages(newReceipt, binStage, libStage, directories)
    requires forall file :: file in all ==> ValidName(file.name)
    requires forall i, j :: 0 <= i < j < |all| ==> all[i] != all[j]
    ensures Separate(items)
    ensures forall i :: 0 <= i < |items| ==> !InStages(binStage, libStage, items[i].destination)
  {
    var n := |all|;
    forall i | 0 <= i < |items| ensures !InStages(binStage, libStage, items[i].destination) {
      if i < n {
        FileOutside(newReceipt, all[i], binStage, libStage, directories);
      } else {
        DestinationOutside(newReceipt, RECEIPT, newReceipt.binDir, binStage, libStage, directories);
      }
    }
    forall i | 0 <= i < |items| ensures Proper(items[i]) {
      if i < n {
        ItemProper(newReceipt, all[i], i, binStage, libStage, directories, items[i].existed);
      } else {
        ReceiptItemProper(newReceipt, binStage, libStage, directories, items[n].existed);
      }
    }
    forall i, j | 0 <= i < j < |items| ensures PathsOf(items[i]) !! PathsOf(items[j]) {
      if j < n {
        ItemsApart(newReceipt, all[i], i, all[j], j, binStage, libStage, directories, items[i].existed,
                   items[j].existed);
      } else {
        ReceiptItemApart(newReceipt, all[i], i, binStage, libStage, directories, items[i].existed, items[n].existed);
      }
    }
  }

  /** The staged path lies in a directory of its own beside the destination, so that renaming crosses no volume. */
  ghost predicate StagedBeside(destination: Path, staged: Path) {
    && destination != [] && |staged| == |destination| + 1
    && staged[..|destination| - 1] == destination[..|destination| - 1]
  }

  lemma {:induction false} BesideDirectory(dir: Path, name: string, stage: Path, directories: set<Path>, staged: string)
    requires NewStage(stage, dir, directories)
    ensures StagedBeside(dir + [name], stage + [staged])
  {
    assert (dir + [name])[..|dir|] == dir;
    assert (stage + [staged])[..|dir|] == stage[..|dir|];
  }

  /** New and old content of every item are staged in the directory that its destination is in. */
  lemma {:induction false} PlanIsBeside(items: seq<Prepared>, all: seq<OwnedFile>, newReceipt: Receipt,
                                        binStage: Path, libStage: Path, directories: set<Path>, i: nat)
    requires IsPlan(items, all, newReceipt, binStage, libStage) && Stages(newReceipt, binStage, libStage, directories)
    requires i < |items|
    ensures StagedBeside(items[i].destination, items[i].backup)
    ensures items[i].replacement.Some? ==> StagedBeside(items[i].destination, items[i].replacement.value)
  {
    if i == |all| {
      BesideDirectory(newReceipt.binDir, RECEIPT, binStage, directories, RECEIPT_OLD);
      BesideDirectory(newReceipt.binDir, RECEIPT, binStage, directories, RECEIPT_NEW);
    } else if all[i].area.Bin? {
      BesideDirectory(newReceipt.binDir, all[i].name, binStage, directories, OldName(i));
      BesideDirectory(newReceipt.binDir, all[i].name, binStage, directories, NewName(i));
    } else {
      BesideDirectory(newReceipt.libDir, all[i].name, libStage, directories + {binStage}, OldName(i));
      BesideDirectory(newReceipt.libDir, all[i].name, libStage, directories + {binStage}, NewName(i));
    }
  }

  /** Staging the new content of one file does not disturb an item made before. */
  lemma {:induction false} ReadyKept(before: Files, after: Files, item: Prepared, file: OwnedFile, bundle: Bundle,
                                     changed: Path)
    requires ItemReady(before, item, file, bundle) && changed !in PathsOf(item)
    requires forall path :: path != changed ==> Same(before, after, path)
    ensures ItemReady(after, item, file, bundle)
  {
    assert Same(before, after, item.destination) && Same(before, after, item.backup);
    if item.replacement.Some? {
      assert Same(before, after, item.replacement.value);
    }
  }

  /** The first `i` items of a plan, ready. */
  ghost predicate FilesReady(files: Files, prepared: seq<Prepared>, all: seq<OwnedFile>, i: nat, newReceipt: Receipt,
                             bundle: Bundle, binStage: Path, libStage: Path)
    requires i <= |all|
  {
    && |prepared| == i
    && forall k :: 0 <= k < i ==>
         && prepared[k] == ItemFor(newReceipt, all[k], k, binStage, libStage, prepared[k].existed)
         && ItemReady(files, prepared[k], all[k], bundle)
  }

  lemma {:induction false} MayReplaceKept(before: Files, after: Files, directories: set<Path>, receipt: Receipt,
                                          file: OwnedFile)
    requires Same(before, after, Destination(receipt, file))
    ensures MayReplace(before, directories, receipt, file) <==> MayReplace(after, directories, receipt, file)
  {
  }

  /** The loop of `prepare` over the files of both receipts. */
  method PrepareFiles(disk: Disk, oldReceipt: Receipt, newReceipt: Receipt, all: seq<OwnedFile>, bundle: Bundle,
                      binStage: Path, libStage: Path, ghost directories: set<Path>)
    returns (items: Option<seq<Prepared>>)
    requires Stages(newReceipt, binStage, libStage, directories)
    requires disk.directories == directories + {binStage, libStage}
    requires newReceipt.binDir == oldReceipt.binDir && newReceipt.libDir == oldReceipt.libDir
    requires ListsBoth(all, oldReceipt, newReceipt) && forall file :: file in all ==> ValidName(file.name)
    requires forall file :: file in newReceipt.files ==> file in bundle
    requires NoBackups(disk.files, binStage) && NoBackups(disk.files, libStage)
    modifies disk`files, disk`failures
    ensures items.Some? <==>
              && disk.failures == old(disk.failures)
              && forall file :: file in all ==> MayReplace(old(disk.files), directories, oldReceipt, file)
    ensures old(disk.failures) <= disk.failures <= old(disk.failures) + 1
    ensures NoBackups(disk.files, binStage) && NoBackups(disk.files, libStage)
    ensures forall path :: !InStages(binStage, libStage, path) ==> Same(old(disk.files), disk.files, path)
    ensures items.Some? ==> FilesReady(disk.files, items.value, all, |all|, newReceipt, bundle, binStage, libStage)
  {
    var prepared: seq<Prepared> := [];
    items := None;
    for i := 0 to |all|
      invariant disk.failures == old(disk.failures)
      invariant forall k :: 0 <= k < i ==> MayReplace(old(disk.files), directories, oldReceipt, all[k])
      invariant NoBackups(disk.files, binStage) && NoBackups(disk.files, libStage)
      invariant forall path :: !InStages(binStage, libStage, path) ==> Same(old(disk.files), disk.files, path)
      invariant FilesReady(disk.files, prepared, all, i, newReceipt, bundle, binStage, libStage)
    {
      ghost var before := disk.files;
      FileOutside(newReceipt, all[i], binStage, libStage, directories);
      MayReplaceKept(old(disk.files), before, directories, oldReceipt, all[i]);
      assert all[i] in all;
      var item := PrepareFile(disk, oldReceipt, newReceipt, bundle, all[i], i, binStage, libStage, directories);
      OutsideKept(before, disk.files, StageDir(all[i], binStage, libStage) + [NewName(i)], binStage, libStage);
      if item.None? {
        return;
      }
      forall k | 0 <= k < i ensures ItemReady(disk.files, prepared[k], all[k], bundle) {
        EarlierItemKept(before, disk.files, prepared[k], all[k], k, all[i], i, newReceipt, bundle, binStage, libStage,
                        directories);
      }
      prepared := prepared + [item.value];
    }
    items := Some(prepared);
  }

  // Every destination of the old and the new release may be replaced, and the receipt's place is
  // not taken by something else than a file.
  ghost predicate Replaceable(files: Files, directories: set<Path>, receipt: Receipt, newFiles: seq<OwnedFile>) {
    && ReceiptPath(receipt) !in directories
    && (forall file :: file in receipt.files ==> Destination(receipt, file) !in directories)
    && forall file :: file in newFiles ==>
         && Destination(receipt, file) !in directories
         && (Destination(receipt, file) in files ==> file in receipt.files)
  }

  lemma {:induction false} AllMayReplace(files: Files, directories: set<Path>, oldReceipt: Receipt,
                                         newReceipt: Receipt, all: seq<OwnedFile>)
    requires newReceipt.binDir == oldReceipt.binDir && newReceipt.libDir == oldReceipt.libDir
    requires ListsBoth(all, oldReceipt, newReceipt)
    ensures Replaceable(files, directories, oldReceipt, newReceipt.files) <==>
            && ReceiptPath(newReceipt) !in directories
            && forall file :: file in all ==> MayReplace(files, directories, oldReceipt, file)
  {
  }

  lemma {:induction false} ReceiptPlaces(receipt: Receipt, binStage: Path, libStage: Path, directories: set<Path>)
    requires Stages(receipt, binStage, libStage, directories)
    ensures ReceiptPath(receipt) in directories + {binStage, libStage} <==> ReceiptPath(receipt) in directories
    ensures binStage + [RECEIPT_NEW] !in directories + {binStage, libStage}
  {
    DestinationIsNoStage(receipt, receipt.binDir, RECEIPT, binStage, libStage, directories);
    StagedUnder(binStage, RECEIPT_NEW);
    StagedIsNoDirectory(receipt, binStage, libStage, directories, binStage + [RECEIPT_NEW]);
  }

  lemma {:induction false} PlanOutsideDirectories(files: Files, oldReceipt: Receipt, newReceipt: Receipt,
                                                  all: seq<OwnedFile>, items: seq<Prepared>, binStage: Path,
                                                  libStage: Path, directories: set<Path>)
    requires newReceipt.binDir == oldReceipt.binDir && newReceipt.libDir == oldReceipt.libDir
    requires Stages(newReceipt, binStage, libStage, directories) && |items| == |all|
    requires forall k :: 0 <= k < |all| ==>
               items[k].destination == Destination(newReceipt, all[k]) && ValidName(all[k].name)
    requires forall k :: 0 <= k < |all| ==> MayReplace(files, directories, oldReceipt, all[k])
    ensures forall k :: 0 <= k < |all| ==> items[k].destination !in directories + {binStage, libStage}
  {
    forall k | 0 <= k < |all| ensures items[k].destination !in directories + {binStage, libStage} {
      assert MayReplace(files, directories, oldReceipt, all[k]);
      DestinationIsNoStage(newReceipt, if all[k].area.Bin? then newReceipt.binDir else newReceipt.libDir,
                           all[k].name, binStage, libStage, directories);
    }
  }

  /** `prepare`: check every destination and stage every new file; nothing installed is touched. */
  method Prepare(disk: Disk, oldReceipt: Receipt, newReceipt: Receipt, bundle: Bundle, binStage: Path, libStage: Path,
                 ghost directories: set<Path>)
    returns (items: Option<seq<Prepared>>, ghost all: seq<OwnedFile>)
    requires Stages(newReceipt, binStage, libStage, directories)
    requires disk.directories == directories + {binStage, libStage}
    requires newReceipt.binDir == oldReceipt.binDir && newReceipt.libDir == oldReceipt.libDir
    requires ValidOwnership(oldReceipt.files) && ValidOwnership(newReceipt.files)
    requires forall file :: file in newReceipt.files ==> file in bundle
    requires forall path :: path in disk.files ==> !InStages(binStage, libStage, path)
    modifies disk`files, disk`failures
    ensures items.Some? <==>
              disk.failures == old(disk.failures)
              && Replaceable(old(disk.files), directories, oldReceipt, newReceipt.files)
    ensures old(disk.failures) <= disk.failures <= old(disk.failures) + 1
    ensures forall path :: !InStages(binStage, libStage, path) ==> Same(old(disk.files), disk.files, path)
    ensures items.Some? ==>
              && ListsBoth(all, oldReceipt, newReceipt) && Separate(items.value)
              && PlanReady(disk.files, items.value, all, newReceipt, bundle, binStage, libStage)
              && forall i :: 0 <= i < |items.value| ==>
                   !InStages(binStage, libStage, items.value[i].destination)
                   && items.value[i].destination !in disk.directories
  {
    ReceiptPlaces(newReceipt, binStage, libStage, directories);
    items := None;
    var union := Union(oldReceipt, newReceipt);
    all := union;
    AllMayReplace(disk.files, directories, oldReceipt, newReceipt, union);
    var prepared := PrepareFiles(disk, oldReceipt, newReceipt, union, bundle, binStage, libStage, directories);
    if prepared.None? {
      return;
    }
    ghost var before := disk.files;
    var receiptNew := binStage + [RECEIPT_NEW];
    var written := disk.Write(receiptNew, ReceiptText(newReceipt));
    OutsideKept(before, disk.files, receiptNew, binStage, libStage);
    if !written {
      return;
    }
    var destination := ReceiptPath(newReceipt);
    var existing := disk.Inspect(destination);
    if existing.None? {
      return;
    }
    var receiptItem := Prepared(destination, Some(receiptNew), binStage + [RECEIPT_OLD], existing.value);
    PlanCompleted(before, disk.files, prepared.value, union, newReceipt, bundle, binStage, libStage, directories,
                  existing.value);
    PlanOutsideDirectories(old(disk.files), oldReceipt, newReceipt, union, prepared.value, binStage, libStage,
                           directories);
    items := Some(prepared.value + [receiptItem]);
  }

  lemma {:induction false} PlanCompleted(before: Files, after: Files, prepared: seq<Prepared>, all: seq<OwnedFile>,
                                         newReceipt: Receipt, bundle: Bundle, binStage: Path, libStage: Path,
                                         directories: set<Path>, existed: bool)
    requires Stages(newReceipt, binStage, libStage, directories) && NoBackups(before, binStage)
    requires forall file :: file in all ==> ValidName(file.name)
    requires forall i, j :: 0 <= i < j < |all| ==> all[i] != all[j]
    requires FilesReady(before, prepared, all, |all|, newReceipt, bundle, binStage, libStage)
    requires after == before[binStage + [RECEIPT_NEW] := ReceiptText(newReceipt)]
    requires existed == (ReceiptPath(newReceipt) in after)
    ensures var items := prepared + [ReceiptItem(newReceipt, binStage, existed)];
            && Separate(items) && PlanReady(after, items, all, newReceipt, bundle, binStage, libStage)
            && forall i :: 0 <= i < |items| ==> !InStages(binStage, libStage, items[i].destination)
  {
    var items := prepared + [ReceiptItem(newReceipt, binStage, existed)];
    PlanIsSeparate(items, all, newReceipt, binStage, libStage, directories);
    forall k | 0 <= k < |all| ensures ItemReady(after, items[k], all[k], bundle) {
      assert PathsOf(items[k]) !! PathsOf(items[|all|]);
      ReadyKept(before, after, items[k], all[k], bundle, binStage + [RECEIPT_NEW]);
    }
    ReceiptReady(before, after, newReceipt, binStage, libStage, directories, existed);
  }

  lemma {:induction false} OutsideKept(before: Files, after: Files, changed: Path, binStage: Path, libStage: Path)
    requires InStages(binStage, libStage, changed)
    requires forall path :: path != changed ==> Same(before, after, path)
    ensures forall path :: !InStages(binStage, libStage, path) ==> Same(before, after, path)
  {
  }

  lemma {:induction false} EarlierItemKept(before: Files, after: Files, item: Prepared, earlier: OwnedFile, k: nat,
                                           file: OwnedFile, i: nat, newReceipt: Receipt, bundle: Bundle,
                                           binStage: Path, libStage: Path, directories: set<Path>)
    requires Stages(newReceipt, binStage, libStage, directories)
    requires earlier != file && k != i && ValidName(earlier.name)
    requires item == ItemFor(newReceipt, earlier, k, binStage, libStage, item.existed)
    requires ItemReady(before, item, earlier, bundle)
    requires forall path :: path != StageDir(file, binStage, libStage) + [NewName(i)] ==> Same(before, after, path)
    ensures ItemReady(after, item, earlier, bundle)
  {
    var changed := StageDir(file, binStage, libStage) + [NewName(i)];
    StagingNamesDiffer(i, k);
    StagedUnder(StageDir(file, binStage, libStage), NewName(i));
    ReadyKept(before, after, item, earlier, bundle, changed);
  }

  lemma {:induction false} ReceiptReady(before: Files, after: Files, newReceipt: Receipt, binStage: Path,
                                        libStage: Path, directories: set<Path>, existed: bool)
    requires Stages(newReceipt, binStage, libStage, directories) && NoBackups(before, binStage)
    requires after == before[binStage + [RECEIPT_NEW] := ReceiptText(newReceipt)]
    requires existed == (ReceiptPath(newReceipt) in after)
    ensures Staged(after, ReceiptItem(newReceipt, binStage, existed))
  {
    ReceiptNamesDiffer(0);
    StagedUnder(binStage, RECEIPT_OLD);
  }

  // ------------------------------------------------------------------- install

  // One item: back up the installed file, then move the new one in.  `started` says whether
  // rollback has to look at it.
  method ApplyItem(disk: Disk, item: Prepared, ghost base: Files) returns (ok: bool, started: bool)
    requires Proper(item) && Staged(base, item) && Untouched(base, disk.files, item)
    requires item.destination !in disk.directories && item.backup !in disk.directories
    modifies disk`files, disk`failures
    ensures disk.failures == if ok then old(disk.failures) else old(disk.failures) + 1
    ensures forall path :: path !in PathsOf(item) ==> Same(old(disk.files), disk.files, path)
    ensures if started then BackedUp(base, disk.files, item) else Untouched(base, disk.files, item)
    ensures ok ==> started && Replaced(base, disk.files, item)
  {
    ok, started := false, false;
    assert Same(base, disk.files, item.destination) && Same(base, disk.files, item.backup);
    if item.replacement.Some? {
      assert Same(base, disk.files, item.replacement.value);
    }
    var continuing := disk.Attempt();
    if !continuing {
      return;
    }
    if item.existed {
      var backedUp := disk.Rename(item.destination, item.backup);
      if !backedUp {
        return;
      }
    }
    started := true;
    if item.replacement.Some? {
      var replaced := disk.Rename(item.replacement.value, item.destination);
      if !replaced {
        return;
      }
    }
    ok := disk.Attempt();
  }

  /** The loop of `install`: `applied` items are to be undone if anything fails. */
  method ApplyItems(disk: Disk, items: seq<Prepared>, ghost base: Files) returns (ok: bool, applied: nat)
    requires Separate(items) && disk.files == base
    requires forall i :: 0 <= i < |items| ==> Staged(base, items[i])
    requires forall i :: 0 <= i < |items| ==>
               items[i].destination !in disk.directories && items[i].backup !in disk.directories
    modifies disk`files, disk`failures
    ensures disk.failures == if ok then old(disk.failures) else old(disk.failures) + 1
    ensures applied <= |items| && AgreeOutside(base, disk.files, items)
    ensures forall i :: 0 <= i < applied ==> BackedUp(base, disk.files, items[i])
    ensures forall i :: applied <= i < |items| ==> Untouched(base, disk.files, items[i])
    ensures ok ==> applied == |items| && forall i :: 0 <= i < |items| ==> Replaced(base, disk.files, items[i])
  {
    applied, ok := 0, true;
    while ok && applied < |items|
      invariant applied <= |items| && AgreeOutside(base, disk.files, items)
      invariant disk.failures == if ok then old(disk.failures) else old(disk.failures) + 1
      invariant forall i :: 0 <= i < applied ==> BackedUp(base, disk.files, items[i])
      invariant forall i :: applied <= i < |items| ==> Untouched(base, disk.files, items[i])
      invariant ok ==> forall i :: 0 <= i < applied ==> Replaced(base, disk.files, items[i])
      decreases ok, |items| - applied
    {
      ghost var before := disk.files;
      var done, started := ApplyItem(disk, items[applied], base);
      OthersApart(items, applied);
      OthersKept(base, before, disk.files, items, applied);
      ok := done;
      if started {
        applied := applied + 1;
      }
    }
  }

  datatype Outcome = Installed | Unchanged | RecoveryNeeded

  predicate OutsideStages(stages: set<Path>, path: Path) {
    forall stage :: stage in stages ==> !Under(stage, path)
  }

  /** Neither the receipt nor the destination of any file of the two receipts. */
  ghost predicate Unrelated(oldReceipt: Receipt, newReceipt: Receipt, path: Path) {
    && path != ReceiptPath(newReceipt)
    && forall file :: file in oldReceipt.files || file in newReceipt.files ==> path != Destination(newReceipt, file)
  }

  /** The new release is in place: its files, its receipt, none of the files it dropped, and nothing else changed. */
  ghost predicate UpdatedTo(before: Files, after: Files, oldReceipt: Receipt, newReceipt: Receipt, bundle: Bundle,
                            stages: set<Path>) {
    && (forall file :: file in newReceipt.files ==>
          file in bundle && Get(after, Destination(newReceipt, file)) == Some(bundle[file]))
    && (forall file :: file in oldReceipt.files && file !in newReceipt.files ==>
          Destination(newReceipt, file) !in after)
    && Get(after, ReceiptPath(newReceipt)) == Some(ReceiptText(newReceipt))
    && forall path :: OutsideStages(stages, path) && Unrelated(oldReceipt, newReceipt, path) ==>
          Same(before, after, path)
  }

  /** `backups` gives installed paths a place each in the staging directories. */
  ghost predicate BackupPlan(backups: map<Path, Path>, stages: set<Path>) {
    && (forall path :: path in backups ==> OutsideStages(stages, path) && !OutsideStages(stages, backups[path]))
    && forall path, other :: path in backups && other in backups && backups[path] == backups[other] ==> path == other
  }

  // Every file there was before is where it was, or at the place the plan gives
  // it, and nothing unrelated changed.
  ghost predicate Recoverable(before: Files, after: Files, oldReceipt: Receipt, newReceipt: Receipt,
                              stages: set<Path>, backups: map<Path, Path>) {
    && BackupPlan(backups, stages)
    && (forall path :: path in before ==>
          Same(before, after, path) || (path in backups && Get(after, backups[path]) == Get(before, path)))
    && forall path :: OutsideStages(stages, path) && Unrelated(oldReceipt, newReceipt, path) ==>
          Same(before, after, path)
  }

  /** All items replaced: the new release is in place. */
  lemma {:induction false} AllReplaced(before: Files, base: Files, after: Files, items: seq<Prepared>,
                                       all: seq<OwnedFile>, oldReceipt: Receipt, newReceipt: Receipt, bundle: Bundle,
                                       binStage: Path, libStage: Path)
    requires PlanReady(base, items, all, newReceipt, bundle, binStage, libStage)
    requires ListsBoth(all, oldReceipt, newReceipt)
    requires forall path :: !InStages(binStage, libStage, path) ==> Same(before, base, path)
    requires AgreeOutside(base, after, items)
    requires forall i :: 0 <= i < |items| ==> Replaced(base, after, items[i])
    ensures UpdatedTo(before, after, oldReceipt, newReceipt, bundle, {binStage, libStage})
  {
    forall file | file in all
      ensures if file in newReceipt.files then
                file in bundle && Get(after, Destination(newReceipt, file)) == Some(bundle[file])
              else Destination(newReceipt, file) !in after
    {
      var i :| 0 <= i < |all| && all[i] == file;
      assert ItemReady(base, items[i], all[i], bundle) && Replaced(base, after, items[i]);
    }
    assert Replaced(base, after, items[|all|]);
    UnrelatedKept(before, base, after, items, all, oldReceipt, newReceipt, binStage, libStage);
  }

  /** Whatever happens to the items, paths that belong to neither receipt stay as they are. */
  lemma {:induction false} UnrelatedKept(before: Files, base: Files, after: Files, items: seq<Prepared>,
                                         all: seq<OwnedFile>, oldReceipt: Receipt, newReceipt: Receipt,
                                         binStage: Path, libStage: Path)
    requires IsPlan(items, all, newReceipt, binStage, libStage) && ListsBoth(all, oldReceipt, newReceipt)
    requires forall path :: !InStages(binStage, libStage, path) ==> Same(before, base, path)
    requires AgreeOutside(base, after, items)
    ensures forall path :: OutsideStages({binStage, libStage}, path) && Unrelated(oldReceipt, newReceipt, path) ==>
              Same(before, after, path)
  {
    forall path | OutsideStages({binStage, libStage}, path) && Unrelated(oldReceipt, newReceipt, path)
      ensures Same(before, after, path)
    {
      assert Same(before, base, path) && (path !in AllPaths(items) ==> Same(base, after, path));
    }
  }

  /** All started items restored, the others untouched: everything outside the stages is as before. */
  lemma {:induction false} AllRestored(base: Files, after: Files, items: seq<Prepared>, binStage: Path, libStage: Path)
    requires forall i :: 0 <= i < |items| ==> Restored(base, after, items[i])
    requires forall i :: 0 <= i < |items| ==> InStages(binStage, libStage, items[i].backup)
    requires forall i :: 0 <= i < |items| ==> items[i].replacement.Some? ==>
               InStages(binStage, libStage, items[i].replacement.value)
    requires AgreeOutside(base, after, items)
    ensures forall path :: !InStages(binStage, libStage, path) ==> Same(base, after, path)
  {
    forall path | !InStages(binStage, libStage, path) ensures Same(base, after, path) {
      if path in AllPaths(items) {
        var i :| 0 <= i < |items| && path in PathsOf(items[i]);
        assert Restored(base, after, items[i]);
      }
    }
  }

  lemma {:induction false} AllPreserved(base: Files, after: Files, items: seq<Prepared>, binStage: Path, libStage: Path)
    requires Separate(items)
    requires forall i :: 0 <= i < |items| ==> Staged(base, items[i]) && Preserved(base, after, items[i])
    requires forall i :: 0 <= i < |items| ==> InStages(binStage, libStage, items[i].backup)
    requires forall i :: 0 <= i < |items| ==> items[i].replacement.Some? ==>
               InStages(binStage, libStage, items[i].replacement.value)
    requires AgreeOutside(base, after, items)
    ensures forall path :: path in base && !InStages(binStage, libStage, path) ==>
              Same(base, after, path)
              || (path in BackupsOf(items) && Get(after, BackupsOf(items)[path]) == Get(base, path))
  {
    forall path | path in base && !InStages(binStage, libStage, path)
      ensures Same(base, after, path)
                || (path in BackupsOf(items) && Get(after, BackupsOf(items)[path]) == Get(base, path))
    {
      if path in AllPaths(items) {
        var i :| 0 <= i < |items| && path in PathsOf(items[i]);
        assert Staged(base, items[i]) && Preserved(base, after, items[i]);
        assert InStages(binStage, libStage, items[i].backup);
        BackupAt(items, i);
      }
    }
  }

  /** The backups of a plan are one for each destination, all in the staging directories. */
  lemma {:induction false} PlanBacksUp(items: seq<Prepared>, binStage: Path, libStage: Path)
    requires Separate(items)
    requires forall i :: 0 <= i < |items| ==> InStages(binStage, libStage, items[i].backup)
    requires forall i :: 0 <= i < |items| ==> !InStages(binStage, libStage, items[i].destination)
    ensures BackupPlan(BackupsOf(items), {binStage, libStage})
  {
    var backups, stages := BackupsOf(items), {binStage, libStage};
    forall path | path in backups ensures OutsideStages(stages, path) && !OutsideStages(stages, backups[path]) {
      var i := BackupIndex(items, path);
      assert InStages(binStage, libStage, items[i].backup) && !InStages(binStage, libStage, items[i].destination);
    }
    forall path, other | path in backups && other in backups && backups[path] == backups[other] ensures path == other {
      BackupsDiffer(items, path, other);
    }
  }

  lemma {:induction false} PlanStaged(items: seq<Prepared>, all: seq<OwnedFile>, newReceipt: Receipt, binStage: Path,
                                      libStage: Path)
    requires IsPlan(items, all, newReceipt, binStage, libStage)
    ensures forall i :: 0 <= i < |items| ==> InStages(binStage, libStage, items[i].backup)
    ensures forall i :: 0 <= i < |items| ==> items[i].replacement.Some? ==>
              InStages(binStage, libStage, items[i].replacement.value)
  {
    forall i | 0 <= i < |items|
      ensures InStages(binStage, libStage, items[i].backup)
      ensures items[i].replacement.Some? ==> InStages(binStage, libStage, items[i].replacement.value)
    {
      if i < |all| {
      } else {
      }
    }
  }

  /** Undo the started items of a failed transaction; the others were never touched. */
  method Undo(disk: Disk, items: seq<Prepared>, applied: nat, ghost base: Files) returns (ok: bool)
    requires Separate(items) && applied <= |items| && AgreeOutside(base, disk.files, items)
    requires forall i :: 0 <= i < |items| ==> Staged(base, items[i])
    requires forall i :: 0 <= i < applied ==> BackedUp(base, disk.files, items[i])
    requires forall i :: applied <= i < |items| ==> Untouched(base, disk.files, items[i])
    requires forall i :: 0 <= i < |items| ==> items[i].destination !in disk.directories
    modifies disk`files, disk`failures
    ensures ok <==> disk.failures == old(disk.failures)
    ensures old(disk.failures) <= disk.failures
    ensures AgreeOutside(base, disk.files, items)
    ensures forall i :: 0 <= i < |items| ==> Preserved(base, disk.files, items[i])
    ensures ok ==> forall i :: 0 <= i < |items| ==> Restored(base, disk.files, items[i])
  {
    ghost var before := disk.files;
    ok := Rollback(disk, items[..applied], base);
    forall path | path !in AllPaths(items) ensures Same(base, disk.files, path) {
      assert path !in AllPaths(items[..applied]);
      assert Same(base, before, path) && Same(before, disk.files, path);
    }
    forall i | 0 <= i < |items|
      ensures Preserved(base, disk.files, items[i]) && (ok ==> Restored(base, disk.files, items[i]))
    {
      if i < applied {
        assert items[..applied][i] == items[i];
      } else {
        var path := items[i].destination;
        assert Untouched(base, before, items[i]);
        assert path !in AllPaths(items[..applied]);
        assert Same(base, before, path) && Same(before, disk.files, path);
      }
    }
  }

  // -------------------------------------------------------------------- bundle

  /** A directory entry of the unpacked bundle's `bin` or `lib`. */
  datatype BundleEntry = BundleEntry(file: OwnedFile, regular: bool, content: Content)

  // What `bundle_files` accepts: safe distinct names, regular files only, the runtime libraries
  // and the launcher present.
  ghost predicate BundleOk(entries: seq<BundleEntry>) {
    && (forall i :: 0 <= i < |entries| ==> ValidName(entries[i].file.name) && entries[i].regular)
    && (forall i, j :: 0 <= i < j < |entries| ==> entries[i].file != entries[j].file)
    && Lists(entries, OwnedFile(Bin, "mux")) && Lists(entries, OwnedFile(Lib, "libmux_runtime.a"))
    && Lists(entries, OwnedFile(Lib, "libmux_runtime.so"))
  }

  ghost predicate Lists(entries: seq<BundleEntry>, file: OwnedFile) {
    exists i :: 0 <= i < |entries| && entries[i].file == file
  }

  /** The names a bundle puts in place. */
  function FilesOf(entries: seq<BundleEntry>): (files: seq<OwnedFile>)
    ensures |files| == |entries|
    ensures forall i :: 0 <= i < |entries| ==> files[i] == entries[i].file
  {
    seq(|entries|, i requires 0 <= i < |entries| => entries[i].file)
  }

  /** `bundle_files`; a directory never lists a name twice. */
  method BundleFiles(entries: seq<BundleEntry>) returns (files: Option<seq<OwnedFile>>, bundle: Bundle)
    requires forall i, j :: 0 <= i < j < |entries| ==> entries[i].file != entries[j].file
    ensures files.Some? <==> BundleOk(entries)
    ensures files.Some? ==>
              && ValidOwnership(files.value) && LAUNCHER in files.value
              && |files.value| == |entries|
              && forall i :: 0 <= i < |entries| ==>
                   && files.value[i] == entries[i].file
                   && entries[i].file in bundle && bundle[entries[i].file] == entries[i].content
  {
    files, bundle := None, map[];
    var listed: seq<OwnedFile> := [];
    for i := 0 to |entries|
      invariant |listed| == i
      invariant forall k :: 0 <= k < i ==>
                  && listed[k] == entries[k].file && ValidName(listed[k].name) && entries[k].regular
                  && entries[k].file in bundle && bundle[entries[k].file] == entries[k].content
    {
      if !ValidName(entries[i].file.name) || !entries[i].regular {
        return;
      }
      listed := listed + [entries[i].file];
      bundle := bundle[entries[i].file := entries[i].content];
    }
    if forall file :: file in REQUIRED + {LAUNCHER} ==> file in listed {
      files := Some(listed);
    } else {
      var file :| file in REQUIRED + {LAUNCHER} && file !in listed;
      assert forall i :: 0 <= i < |entries| ==> listed[i] == entries[i].file;
    }
  }

  /** How far the closure of `install` and the rollback after it got. */
  datatype Attempted = AllDone | AllUndone | PartlyUndone

  ghost predicate ReachedState(base: Files, files: Files, items: seq<Prepared>, attempted: Attempted) {
    && AgreeOutside(base, files, items)
    && match attempted
       case AllDone => forall i :: 0 <= i < |items| ==> Replaced(base, files, items[i])
       case AllUndone => forall i :: 0 <= i < |items| ==> Restored(base, files, items[i])
       case PartlyUndone => forall i :: 0 <= i < |items| ==> Preserved(base, files, items[i])
  }

  // Apply the items and validate the result; undo them if anything fails.  A single
  // failure is always undone.
  method ApplyOrUndo(disk: Disk, items: seq<Prepared>, ghost base: Files) returns (attempted: Attempted)
    requires Separate(items) && disk.files == base
    requires forall i :: 0 <= i < |items| ==> Staged(base, items[i])
    requires forall i :: 0 <= i < |items| ==>
               items[i].destination !in disk.directories && items[i].backup !in disk.directories
    modifies disk`files, disk`failures
    ensures attempted.AllDone? <==> disk.failures == old(disk.failures)
    ensures attempted.AllUndone? <==> disk.failures == old(disk.failures) + 1
    ensures attempted.PartlyUndone? <==> disk.failures > old(disk.failures) + 1
    ensures ReachedState(base, disk.files, items, attempted)
  {
    var ok, applied := ApplyItems(disk, items, base);
    if ok {
      ok := disk.Attempt();
    }
    if ok {
      return AllDone;
    }
    var undone := Undo(disk, items, applied, base);
    return if undone then AllUndone else PartlyUndone;
  }

  /** What `prepare` promises about its items. */
  ghost predicate PreparedWell(before: Files, base: Files, items: seq<Prepared>, all: seq<OwnedFile>,
                               oldReceipt: Receipt, newReceipt: Receipt, bundle: Bundle, binStage: Path,
                               libStage: Path) {
    && (forall path :: !InStages(binStage, libStage, path) ==> Same(before, base, path))
    && ListsBoth(all, oldReceipt, newReceipt) && Separate(items)
    && PlanReady(base, items, all, newReceipt, bundle, binStage, libStage)
    && (forall i :: 0 <= i < |items| ==> !InStages(binStage, libStage, items[i].destination))
    && forall path :: path in before ==> !InStages(binStage, libStage, path)
  }

  lemma {:induction false} PlanItemsStaged(files: Files, items: seq<Prepared>, all: seq<OwnedFile>,
                                           newReceipt: Receipt, bundle: Bundle, binStage: Path, libStage: Path)
    requires PlanReady(files, items, all, newReceipt, bundle, binStage, libStage)
    ensures forall i :: 0 <= i < |items| ==> Staged(files, items[i])
  {
    forall i | 0 <= i < |items| ensures Staged(files, items[i]) {
      if i < |all| {
        assert ItemReady(files, items[i], all[i], bundle);
      }
    }
  }

  /** The outcome the new state of the files stands for. */
  ghost predicate IsOutcome(outcome: Outcome, before: Files, after: Files, oldReceipt: Receipt, newReceipt: Receipt,
                            bundle: Bundle, binStage: Path, libStage: Path, backups: map<Path, Path>) {
    match outcome
    case Installed => UpdatedTo(before, after, oldReceipt, newReceipt, bundle, {binStage, libStage})
    case Unchanged => forall path :: !InStages(binStage, libStage, path) ==> Same(before, after, path)
    case RecoveryNeeded => Recoverable(before, after, oldReceipt, newReceipt, {binStage, libStage}, backups)
  }

  lemma {:induction false} DoneIsInstalled(before: Files, base: Files, after: Files, items: seq<Prepared>,
                                           all: seq<OwnedFile>, oldReceipt: Receipt, newReceipt: Receipt,
                                           bundle: Bundle, binStage: Path, libStage: Path, backups: map<Path, Path>)
    requires PreparedWell(before, base, items, all, oldReceipt, newReceipt, bundle, binStage, libStage)
    requires ReachedState(base, after, items, AllDone)
    ensures IsOutcome(Installed, before, after, oldReceipt, newReceipt, bundle, binStage, libStage, backups)
  {
    AllReplaced(before, base, after, items, all, oldReceipt, newReceipt, bundle, binStage, libStage);
  }

  lemma {:induction false} UndoneIsUnchanged(before: Files, base: Files, after: Files, items: seq<Prepared>,
                                             all: seq<OwnedFile>, oldReceipt: Receipt, newReceipt: Receipt,
                                             bundle: Bundle, binStage: Path, libStage: Path, backups: map<Path, Path>)
    requires PreparedWell(before, base, items, all, oldReceipt, newReceipt, bundle, binStage, libStage)
    requires ReachedState(base, after, items, AllUndone)
    ensures IsOutcome(Unchanged, before, after, oldReceipt, newReceipt, bundle, binStage, libStage, backups)
  {
    PlanStaged(items, all, newReceipt, binStage, libStage);
    AllRestored(base, after, items, binStage, libStage);
    forall path | !InStages(binStage, libStage, path) ensures Same(before, after, path) {
      assert Same(before, base, path) && Same(base, after, path);
    }
  }

  lemma {:induction false} PartlyUndoneIsRecoverable(before: Files, base: Files, after: Files, items: seq<Prepared>,
                                                     all: seq<OwnedFile>, oldReceipt: Receipt, newReceipt: Receipt,
                                                     bundle: Bundle, binStage: Path, libStage: Path)
    requires PreparedWell(before, base, items, all, oldReceipt, newReceipt, bundle, binStage, libStage)
    requires ReachedState(base, after, items, PartlyUndone)
    ensures IsOutcome(RecoveryNeeded, before, after, oldReceipt, newReceipt, bundle, binStage, libStage,
                      BackupsOf(items))
  {
    PlanStaged(items, all, newReceipt, binStage, libStage);
    PlanItemsStaged(base, items, all, newReceipt, bundle, binStage, libStage);
    UnrelatedKept(before, base, after, items, all, oldReceipt, newReceipt, binStage, libStage);
    AllRecoverable(before, base, after, items, oldReceipt, newReceipt, binStage, libStage);
  }

  /** The steps of `install` once the staging directories exist. */
  method InstallStaged(disk: Disk, oldReceipt: Receipt, newReceipt: Receipt, bundle: Bundle, binStage: Path,
                       libStage: Path, ghost directories: set<Path>)
    returns (outcome: Outcome, ghost backups: map<Path, Path>)
    requires Stages(newReceipt, binStage, libStage, directories)
    requires disk.directories == directories + {binStage, libStage}
    requires newReceipt.binDir == oldReceipt.binDir && newReceipt.libDir == oldReceipt.libDir
    requires ValidOwnership(oldReceipt.files) && ValidOwnership(newReceipt.files)
    requires forall file :: file in newReceipt.files ==> file in bundle
    requires forall path :: path in disk.files ==> !InStages(binStage, libStage, path)
    modifies disk`files, disk`failures
    ensures outcome.Installed? <==>
              disk.failures == old(disk.failures)
              && Replaceable(old(disk.files), directories, oldReceipt, newReceipt.files)
    ensures outcome.RecoveryNeeded? ==> disk.failures > old(disk.failures) + 1
    ensures old(disk.failures) <= disk.failures
    ensures IsOutcome(outcome, old(disk.files), disk.files, oldReceipt, newReceipt, bundle, binStage, libStage, backups)
  {
    backups := map[];
    ghost var before := disk.files;
    var prepared, all := Prepare(disk, oldReceipt, newReceipt, bundle, binStage, libStage, directories);
    if prepared.None? {
      return Unchanged, backups;
    }
    var items := prepared.value;
    ghost var base := disk.files;
    assert PreparedWell(before, base, items, all, oldReceipt, newReceipt, bundle, binStage, libStage);
    PlanItemsStaged(base, items, all, newReceipt, bundle, binStage, libStage);
    backups := BackupsOf(items);
    PlanStaged(items, all, newReceipt, binStage, libStage);
    forall i | 0 <= i < |items| ensures items[i].backup !in disk.directories {
      StagedIsNoDirectory(newReceipt, binStage, libStage, directories, items[i].backup);
    }
    var attempted := ApplyOrUndo(disk, items, base);
    match attempted {
      case AllDone =>
        DoneIsInstalled(before, base, disk.files, items, all, oldReceipt, newReceipt, bundle, binStage, libStage,
                        backups);
        outcome := Installed;
      case AllUndone =>
        UndoneIsUnchanged(before, base, disk.files, items, all, oldReceipt, newReceipt, bundle, binStage, libStage,
                          backups);
        outcome := Unchanged;
      case PartlyUndone =>
        PartlyUndoneIsRecoverable(before, base, disk.files, items, all, oldReceipt, newReceipt, bundle, binStage,
                                  libStage);
        outcome := RecoveryNeeded;
    }
  }

  lemma {:induction false} AllRecoverable(before: Files, base: Files, after: Files, items: seq<Prepared>,
                                          oldReceipt: Receipt, newReceipt: Receipt, binStage: Path, libStage: Path)
    requires Separate(items)
    requires forall i :: 0 <= i < |items| ==> Staged(base, items[i]) && Preserved(base, after, items[i])
    requires forall i :: 0 <= i < |items| ==> InStages(binStage, libStage, items[i].backup)
    requires forall i :: 0 <= i < |items| ==> items[i].replacement.Some? ==>
               InStages(binStage, libStage, items[i].replacement.value)
    requires forall i :: 0 <= i < |items| ==> !InStages(binStage, libStage, items[i].destination)
    requires AgreeOutside(base, after, items)
    requires forall path :: OutsideStages({binStage, libStage}, path) && Unrelated(oldReceipt, newReceipt, path) ==>
               Same(before, after, path)
    requires forall path :: path in before ==> !InStages(binStage, libStage, path)
    requires forall path :: !InStages(binStage, libStage, path) ==> Same(before, base, path)
    ensures Recoverable(before, after, oldReceipt, newReceipt, {binStage, libStage}, BackupsOf(items))
  {
    AllPreserved(base, after, items, binStage, libStage);
    PlanBacksUp(items, binStage, libStage);
    forall path | path in before
      ensures Same(before, after, path)
                || (path in BackupsOf(items) && Get(after, BackupsOf(items)[path]) == Get(before, path))
    {
      assert Same(before, base, path);
    }
  }

  /** Both staging directories go, whatever is left in them. */
  method DropStages(disk: Disk, binStage: Path, libStage: Path)
    modifies disk`files
    ensures forall path :: !InStages(binStage, libStage, path) ==> Same(old(disk.files), disk.files, path)
  {
    disk.DropStage(binStage);
    ghost var between := disk.files;
    disk.DropStage(libStage);
    assert forall path :: !InStages(binStage, libStage, path) ==>
        Same(old(disk.files), between, path) && Same(between, disk.files, path);
  }

  lemma {:induction false} UpdatedAfterDrop(before: Files, updated: Files, after: Files, oldReceipt: Receipt,
                                            newReceipt: Receipt, bundle: Bundle, binStage: Path, libStage: Path,
                                            directories: set<Path>)
    requires Stages(newReceipt, binStage, libStage, directories)
    requires UpdatedTo(before, updated, oldReceipt, newReceipt, bundle, {binStage, libStage})
    requires forall path :: !InStages(binStage, libStage, path) ==> Same(updated, after, path)
    ensures UpdatedTo(before, after, oldReceipt, newReceipt, bundle, {binStage, libStage})
  {
    forall file | file in oldReceipt.files || file in newReceipt.files
      ensures Same(updated, after, Destination(newReceipt, file))
    {
    }
    assert Same(updated, after, ReceiptPath(newReceipt));
    forall path | OutsideStages({binStage, libStage}, path) && Unrelated(oldReceipt, newReceipt, path)
      ensures Same(before, after, path)
    {
      assert Same(before, updated, path) && Same(updated, after, path);
    }
  }

  /** `install` once the bundle has been accepted: make the staging directories, and go on in them. */
  method InstallAccepted(disk: Disk, oldReceipt: Receipt, newReceipt: Receipt, bundle: Bundle)
    returns (outcome: Outcome, ghost stages: set<Path>, ghost backups: map<Path, Path>)
    requires oldReceipt.binDir != oldReceipt.libDir && oldReceipt.binDir in disk.directories
    requires oldReceipt.libDir in disk.directories
    requires newReceipt.binDir == oldReceipt.binDir && newReceipt.libDir == oldReceipt.libDir
    requires ValidOwnership(oldReceipt.files) && ValidOwnership(newReceipt.files)
    requires forall file :: file in newReceipt.files ==> file in bundle
    modifies disk
    ensures old(disk.directories) <= disk.directories && old(disk.failures) <= disk.failures
    ensures forall stage :: stage in stages ==> stage !in old(disk.directories)
    ensures forall path :: path in old(disk.files) ==> OutsideStages(stages, path)
    ensures outcome.Installed? <==>
              && disk.failures == old(disk.failures)
              && Replaceable(old(disk.files), old(disk.directories), oldReceipt, newReceipt.files)
    ensures outcome.RecoveryNeeded? ==> disk.failures > old(disk.failures) + 1
    ensures outcome.Installed? ==> UpdatedTo(old(disk.files), disk.files, oldReceipt, newReceipt, bundle, stages)
    ensures outcome.Unchanged? ==>
              forall path :: OutsideStages(stages, path) ==> Same(old(disk.files), disk.files, path)
    ensures outcome.RecoveryNeeded? ==>
              Recoverable(old(disk.files), disk.files, oldReceipt, newReceipt, stages, backups)
  {
    stages, backups := {}, map[];
    ghost var directories := disk.directories;
    var binStage := disk.MakeStage(oldReceipt.binDir);
    if binStage.None? {
      return Unchanged, stages, backups;
    }
    stages := {binStage.value};
    var libStage := disk.MakeStage(oldReceipt.libDir);
    if libStage.None? {
      disk.DropStage(binStage.value);
      assert forall path :: OutsideStages(stages, path) ==> !Under(binStage.value, path);
      return Unchanged, stages, backups;
    }
    stages := {binStage.value, libStage.value};
    assert forall path :: OutsideStages(stages, path) ==> !InStages(binStage.value, libStage.value, path);
    outcome, backups := InstallStaged(disk, oldReceipt, newReceipt, bundle, binStage.value, libStage.value,
                                      directories);
    if !outcome.RecoveryNeeded? {
      ghost var finished := disk.files;
      DropStages(disk, binStage.value, libStage.value);
      if outcome.Installed? {
        UpdatedAfterDrop(old(disk.files), finished, disk.files, oldReceipt, newReceipt, bundle, binStage.value,
                         libStage.value, directories);
      } else {
        assert forall path :: !InStages(binStage.value, libStage.value, path) ==>
            Same(old(disk.files), finished, path) && Same(finished, disk.files, path);
      }
    }
  }

  // `install`: the new release entirely, or the old one entirely, or nothing lost.  It is the new
  // release exactly if no operation fails, the bundle is complete, and no file in the way is
  // unowned; and nothing short of two failures leaves anything to recover.
  method Install(disk: Disk, oldReceipt: Receipt, entries: seq<BundleEntry>, version: string)
    returns (outcome: Outcome, ghost newReceipt: Receipt, ghost stages: set<Path>, ghost bundle: Bundle,
             ghost backups: map<Path, Path>)
    requires oldReceipt.binDir != oldReceipt.libDir && oldReceipt.binDir in disk.directories
    requires oldReceipt.libDir in disk.directories
    requires ValidOwnership(oldReceipt.files)
    requires forall i, j :: 0 <= i < j < |entries| ==> entries[i].file != entries[j].file
    modifies disk
    ensures old(disk.directories) <= disk.directories
    ensures newReceipt == oldReceipt.(version := newReceipt.version, files := newReceipt.files)
    ensures forall stage :: stage in stages ==> stage !in old(disk.directories)
    ensures forall path :: path in old(disk.files) ==> OutsideStages(stages, path)
    ensures outcome.Installed? <==>
              && disk.failures == old(disk.failures) && BundleOk(entries)
              && Replaceable(old(disk.files), old(disk.directories), oldReceipt, FilesOf(entries))
    ensures outcome.RecoveryNeeded? ==> disk.failures > old(disk.failures) + 1
    ensures outcome.Installed? ==>
              && BundleOk(entries)
              && newReceipt.version == version
              && ValidOwnership(newReceipt.files) && LAUNCHER in newReceipt.files
              && (forall file :: file in newReceipt.files <==>
                    exists i :: 0 <= i < |entries| && entries[i].file == file)
              && (forall i :: 0 <= i < |entries| ==>
                    entries[i].file in bundle && bundle[entries[i].file] == entries[i].content)
              && UpdatedTo(old(disk.files), disk.files, oldReceipt, newReceipt, bundle, stages)
    ensures outcome.Unchanged? ==>
              forall path :: OutsideStages(stages, path) ==> Same(old(disk.files), disk.files, path)
    ensures outcome.RecoveryNeeded? ==>
              Recoverable(old(disk.files), disk.files, oldReceipt, newReceipt, stages, backups)
  {
    stages, newReceipt, bundle, backups := {}, oldReceipt, map[], map[];
    var checked := disk.Attempt();
    if !checked {
      return Unchanged, newReceipt, stages, bundle, backups;
    }
    var files, contents := BundleFiles(entries);
    if files.None? {
      return Unchanged, newReceipt, stages, bundle, backups;
    }
    newReceipt, bundle := oldReceipt.(version := version, files := files.value), contents;
    assert forall i :: 0 <= i < |files.value| ==> files.value[i] in FilesOf(entries);
    assert FilesOf(entries) == files.value;
    outcome, stages, backups :=
      InstallAccepted(disk, oldReceipt, oldReceipt.(version := version, files := files.value), contents);
  }
}
