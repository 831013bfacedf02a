/** The commands of `mux-update/src/lib.rs` and `receipt.rs` that take the installation lock. */
module UpdateCommands {
  import opened Options
  import opened UpdatePaths
  import opened UpdateTransaction
  import opened UpdateInstall
  import opened UpdateLock

  datatype GuardResult = NotInstalled | Refused | Guarded(receipt: Receipt)

  datatype UpdateResult = NoReceipt | Busy | InstallationChanged | Completed(outcome: Outcome)

  /** An installation directory with its lock: the file, whether it is held exclusively, and how many hold it shared. */
  class Installation {
    const syntax: Syntax
    const binDir: Path
    const disk: Disk
    var lockFile: bool
    var exclusive: bool
    var shared: nat

    /** The binary directory exists, the lock is held one way only, and a receipt never exists without the lock file. */
    ghost predicate Valid()
      reads this, disk
    {
      && binDir in disk.directories
      && (exclusive ==> shared == 0)
      && (binDir + [RECEIPT] in disk.files || exclusive || shared > 0 ==> lockFile)
    }

    constructor (syntax: Syntax, binDir: Path, disk: Disk)
      requires binDir in disk.directories && binDir + [RECEIPT] !in disk.files
      ensures Valid() && this.syntax == syntax && this.binDir == binDir && this.disk == disk
    {
      this.syntax, this.binDir, this.disk := syntax, binDir, disk;
      lockFile, exclusive, shared := false, false, 0;
    }

    function Read(): Loading
      reads this, disk
    {
      Load(syntax, disk.files, binDir, disk.directories)
    }

    /** The world of the machine in which this is the installation. */
    ghost predicate Mirrors(site: Site, w: World)
      reads this, disk
    {
      && site.syntax == syntax && site.binDir == binDir && site.directories == disk.directories
      && w.files == disk.files && w.lockFile == lockFile && (w.exclusive.Some? <==> exclusive) && |w.shared| == shared
    }

    /** `lock`: opens the lock file, making it if need be, and tries to take it without waiting. */
    method Lock(wantExclusive: bool) returns (ok: bool)
      requires Valid()
      modifies this
      ensures Valid() && lockFile
      ensures ok == (if wantExclusive then !old(exclusive) && old(shared) == 0 else !old(exclusive))
      ensures exclusive == (old(exclusive) || (ok && wantExclusive))
      ensures shared == if ok && !wantExclusive then old(shared) + 1 else old(shared)
    {
      lockFile := true;
      ok := !exclusive && (!wantExclusive || shared == 0);
      if ok {
        if wantExclusive {
          exclusive := true;
        } else {
          shared := shared + 1;
        }
      }
    }

    /** `shared_installation_lock`: what the machine does with a compiler that nobody interrupts. */
    method SharedInstallationLock() returns (result: GuardResult)
      requires Valid()
      modifies this
      ensures Valid()
      ensures result.NotInstalled? <==> !old(lockFile) && binDir + [RECEIPT] !in disk.files
      ensures result.Guarded? <==> old(lockFile) && !old(exclusive) && Read().Loaded?
      ensures result.Guarded? ==> Read() == Loaded(result.receipt)
      ensures shared == if result.Guarded? then old(shared) + 1 else old(shared)
      ensures exclusive == old(exclusive)
      ensures forall site, w, p :: old(Mirrors(site, w)) && StartsCompiling(w, p) ==>
                var v := CompilerAlone(site, w, p, 5);
                && Mirrors(site, v) && p in v.processes
                && (result.NotInstalled? <==> v.processes[p].CompilerRunsUnguarded?)
                && (result.Guarded? <==> v.processes[p].CompilerRuns?)
                && (result.Refused? <==> v.processes[p].Finished?)
    {
      forall site, w, p | Mirrors(site, w) && StartsCompiling(w, p)
        ensures var v, becomes := CompilerAlone(site, w, p, 5), CompilerBecomes(site, w);
                && v.processes == w.processes[p := becomes] && v.files == w.files && v.exclusive == w.exclusive
                && v.lockFile == (w.lockFile || !becomes.CompilerRunsUnguarded?)
                && |v.shared| == if becomes.CompilerRuns? then |w.shared| + 1 else |w.shared|
      {
        UninterruptedCompiler(site, w, p);
      }
      if !lockFile && binDir + [RECEIPT] !in disk.files {
        return NotInstalled;
      }
      var ok := Lock(false);
      if !ok {
        return Refused;
      }
      var loading := Read();
      if !loading.Loaded? {
        shared := shared - 1;
        return Refused;
      }
      return Guarded(loading.receipt);
    }

    lemma {:induction false} MirroredUpdate(installation: Receipt)
      ensures forall site, w, p :: Mirrors(site, w) && StartsUpdating(w, p, installation) ==>
                var v := UpdaterAlone(site, w, p, 3);
                && p in v.processes
                && v.processes[p] == if !exclusive && shared == 0 && Read() == Loaded(installation) then
                                       UpdaterInstalls(installation, disk.files)
                                     else Finished
    {
      forall site, w, p | Mirrors(site, w) && StartsUpdating(w, p, installation)
        ensures var v := UpdaterAlone(site, w, p, 3);
                && p in v.processes
                && v.processes[p] == if !exclusive && shared == 0 && Read() == Loaded(installation) then
                                       UpdaterInstalls(installation, disk.files)
                                     else Finished
      {
        UninterruptedUpdater(site, w, p, installation);
      }
    }

    // `run`, from the moment a newer release is known, its version parsed: lock,
    // load again, compare, install, unlock.
    method Run(installation: Receipt, entries: seq<BundleEntry>, version: string)
      returns (result: UpdateResult, ghost newReceipt: Receipt, ghost stages: set<Path>, ghost bundle: Bundle,
               ghost backups: map<Path, Path>)
      requires Valid() && syntax.version(version)
      requires forall i, j :: 0 <= i < j < |entries| ==> entries[i].file != entries[j].file
      modifies this, disk
      ensures Valid() && lockFile && exclusive == old(exclusive) && shared == old(shared)
      ensures result.Busy? <==> old(exclusive) || old(shared) > 0
      ensures result.NoReceipt? <==> !result.Busy? && !old(Read()).Loaded?
      ensures result.InstallationChanged? <==>
                !result.Busy? && old(Read()).Loaded? && old(Read()) != Loaded(installation)
      ensures result == Completed(Installed) <==>
                && !result.Busy? && old(Read()) == Loaded(installation)
                && disk.failures == old(disk.failures) && BundleOk(entries)
                && Replaceable(old(disk.files), old(disk.directories), installation, FilesOf(entries))
      ensures result == Completed(RecoveryNeeded) ==> disk.failures > old(disk.failures) + 1
      ensures forall site, w, p :: old(Mirrors(site, w)) && StartsUpdating(w, p, installation) ==>
                var v := UpdaterAlone(site, w, p, 3);
                && p in v.processes
                && (result.Completed? <==> v.processes[p] == UpdaterInstalls(installation, old(disk.files)))
                && (!result.Completed? <==> v.processes[p].Finished?)
      ensures !result.Completed? ==> disk.files == old(disk.files)
      ensures result.Completed? ==>
                && old(Read()) == Loaded(installation)
                && forall path :: path in old(disk.files) ==> OutsideStages(stages, path)
      ensures result == Completed(Installed) ==>
                && BundleOk(entries)
                && Read() == Loaded(newReceipt) && newReceipt.version == version
                && UpdatedTo(old(disk.files), disk.files, installation, newReceipt, bundle, stages)
      ensures result == Completed(Unchanged) ==>
                && Read() == old(Read())
                && forall path :: OutsideStages(stages, path) ==> Same(old(disk.files), disk.files, path)
      ensures result.Completed? && !result.outcome.RecoveryNeeded? ==>
                forall site: Site ::
                  site.syntax == syntax && site.binDir == binDir && newReceipt.version in site.releases
                  && site.releases[newReceipt.version] == bundle ==>
                    Ended(site, installation, old(disk.files), disk.files, newReceipt, stages)
      ensures result == Completed(RecoveryNeeded) ==>
                Recoverable(old(disk.files), disk.files, installation, newReceipt, stages, backups)
    {
      newReceipt, stages, bundle, backups := installation, {}, map[], map[];
      MirroredUpdate(installation);
      var ok := Lock(true);
      if !ok {
        return Busy, newReceipt, stages, bundle, backups;
      }
      var latest := Read();
      if !latest.Loaded? {
        exclusive := false;
        return NoReceipt, newReceipt, stages, bundle, backups;
      }
      if latest.receipt != installation {
        exclusive := false;
        return InstallationChanged, newReceipt, stages, bundle, backups;
      }
      var outcome;
      outcome, newReceipt, stages, bundle, backups := Install(disk, installation, entries, version);
      assert ReceiptPath(newReceipt) == binDir + [RECEIPT];
      if outcome == Unchanged {
        assert OutsideStages(stages, binDir + [RECEIPT]);
        assert Same(old(disk.files), disk.files, binDir + [RECEIPT]);
      }
      exclusive := false;
      result := Completed(outcome);
    }

    /** The part of `register_install` under the lock. */
    method WriteReceipt(made: Receipt) returns (ok: bool)
      requires Valid() && AcceptedReceipt(syntax, made, binDir, disk.directories)
      modifies this, disk
      ensures Valid() && disk.directories == old(disk.directories)
      ensures exclusive == old(exclusive) && shared == old(shared)
      ensures forall path :: path != binDir + [RECEIPT] ==> Same(old(disk.files), disk.files, path)
      ensures ok <==>
                && !old(exclusive) && old(shared) == 0 && disk.failures == old(disk.failures)
                && binDir + [RECEIPT] !in disk.directories
                && forall file :: file in made.files ==> Destination(made, file) in old(disk.files)
      ensures ok ==> Get(disk.files, binDir + [RECEIPT]) == Some(ReceiptText(made)) && lockFile
      ensures ok ==> forall file :: file in made.files ==> Destination(made, file) in disk.files
      ensures !ok ==>
                || disk.files == old(disk.files)
                || (binDir + [RECEIPT] in disk.files
                    && (disk.files[binDir + [RECEIPT]].Data? || disk.files[binDir + [RECEIPT]] == ReceiptText(made)))
    {
      ok := Lock(true);
      if !ok {
        return;
      }
      if exists i :: 0 <= i < |made.files| && Destination(made, made.files[i]) !in disk.files {
        exclusive, ok := false, false;
        return;
      }
      ok := disk.Write(ReceiptPath(made), ReceiptText(made));
      exclusive := false;
    }

    lemma {:induction false} SamePlaces(files: Files, made: Receipt, entries: seq<BundleEntry>, target: string,
                                        version: string, libDir: Path)
      requires made.binDir == binDir && made.libDir == libDir && |made.files| == |entries|
      requires forall i :: 0 <= i < |entries| ==> made.files[i] == entries[i].file
      ensures (forall file :: file in made.files ==> Destination(made, file) in files) <==>
              forall i :: 0 <= i < |entries| ==>
                  Destination(Receipt(1, target, version, binDir, libDir, []), entries[i].file) in files
    {
      forall i | 0 <= i < |entries|
        ensures entries[i].file in made.files
        ensures Destination(made, entries[i].file) ==
                Destination(Receipt(1, target, version, binDir, libDir, []), entries[i].file)
      {
        assert made.files[i] == entries[i].file;
      }
    }

    /** `register_install`: the receipt of files an installer has just put in place. */
    method RegisterInstall(entries: seq<BundleEntry>, libDir: Path, target: string, version: string)
      returns (registered: Option<Receipt>, ghost receipt: Receipt)
      requires Valid() && libDir in disk.directories
      requires forall i, j :: 0 <= i < j < |entries| ==> entries[i].file != entries[j].file
      modifies this, disk
      ensures Valid()
      ensures exclusive == old(exclusive) && shared == old(shared)
      ensures forall path :: path != binDir + [RECEIPT] ==> Same(old(disk.files), disk.files, path)
      ensures forall site: Site :: site.binDir == binDir && TrueOf(site, receipt, disk.files) ==>
                Registered(site, receipt, old(disk.files), disk.files)
      ensures registered.Some? <==>
                && syntax.target(target) && syntax.version(version) && BundleOk(entries) && binDir != libDir
                && !old(exclusive) && old(shared) == 0 && disk.failures == old(disk.failures)
                && binDir + [RECEIPT] !in disk.directories
                && forall i :: 0 <= i < |entries| ==>
                     Destination(Receipt(1, target, version, binDir, libDir, []), entries[i].file) in old(disk.files)
      ensures registered.Some? ==>
                && registered.value == receipt && Read() == Loaded(registered.value) && lockFile
                && BundleOk(entries) && syntax.target(target) && syntax.version(version) && binDir != libDir
                && registered.value.target == target && registered.value.version == version
                && registered.value.libDir == libDir
                && |registered.value.files| == |entries|
                && forall i :: 0 <= i < |entries| ==>
                     && registered.value.files[i] == entries[i].file
                     && Destination(registered.value, entries[i].file) in disk.files
    {
      registered, receipt := None, Receipt(1, target, version, binDir, libDir, []);
      if !syntax.target(target) || !syntax.version(version) {
        return;
      }
      var files, bundle := BundleFiles(entries);
      if files.None? || binDir == libDir {
        return;
      }
      var made := Receipt(1, target, version, binDir, libDir, files.value);
      receipt := made;
      SamePlaces(disk.files, made, entries, target, version, libDir);
      var written := WriteReceipt(made);
      SamePlaces(disk.files, made, entries, target, version, libDir);
      if written {
        registered := Some(made);
      }
    }
  }

  ghost predicate StartsCompiling(w: World, p: nat) {
    p in w.processes && w.processes[p].CompilerStarts? && p !in w.shared
  }

  ghost predicate StartsUpdating(w: World, p: nat, installation: Receipt) {
    p in w.processes && w.processes[p] == UpdaterOpens(installation)
  }

  /** If the receipt is in place, it tells the truth. */
  ghost predicate TrueOf(site: Site, receipt: Receipt, files: Files) {
    Get(files, site.binDir + [RECEIPT]) == Some(ReceiptText(receipt)) ==> OneVersion(site, files)
  }
}
