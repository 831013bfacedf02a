// The installation lock of `mux-update/src/receipt.rs` under any interleaving of
// installers that register, updaters and compilers.  Every look at the lock file or the receipt, every
// attempt on the lock and every change an update makes is a step of its own.
module UpdateLock {
  import opened Options
  import opened UpdatePaths
  import opened UpdateTransaction
  import opened UpdateInstall

  // -------------------------------------------------------------- the receipt

  datatype Loading = Missing | Invalid | Loaded(receipt: Receipt)

  /** The checks of `load`. */
  predicate AcceptedReceipt(syntax: Syntax, receipt: Receipt, binDir: Path, directories: set<Path>) {
    && receipt.schema == 1 && receipt.binDir == binDir && receipt.libDir in directories
    && receipt.binDir != receipt.libDir
    && syntax.target(receipt.target) && syntax.version(receipt.version)
    && ValidOwnership(receipt.files) && LAUNCHER in receipt.files
  }

  /** `load` */
  function Load(syntax: Syntax, files: Files, binDir: Path, directories: set<Path>): Loading {
    match Get(files, binDir + [RECEIPT])
    case None => Missing
    case Some(Data(_)) => Invalid
    case Some(ReceiptText(receipt)) =>
      if AcceptedReceipt(syntax, receipt, binDir, directories) then Loaded(receipt) else Invalid
  }

  /** What loads is what was written there, if it is a receipt for this place that owns a launcher. */
  lemma {:induction false} LoadsExactly(syntax: Syntax, files: Files, binDir: Path, directories: set<Path>,
                                        receipt: Receipt)
    ensures Load(syntax, files, binDir, directories) == Loaded(receipt) <==>
            && Get(files, binDir + [RECEIPT]) == Some(ReceiptText(receipt))
            && receipt.schema == 1 && receipt.binDir == binDir && receipt.libDir in directories - {binDir}
            && syntax.target(receipt.target) && syntax.version(receipt.version)
            && OwnedFile(Bin, "mux") in receipt.files
            && (forall file :: file in receipt.files ==> ValidName(file.name))
            && forall i, j :: 0 <= i < j < |receipt.files| ==> receipt.files[i] != receipt.files[j]
    ensures Load(syntax, files, binDir, directories).Missing? <==> binDir + [RECEIPT] !in files
  {
  }

  /** One installation: where it is, and what each release consists of. */
  datatype Site = Site(syntax: Syntax, binDir: Path, directories: set<Path>, releases: map<string, Bundle>)

  function LoadAt(site: Site, files: Files): Loading {
    Load(site.syntax, files, site.binDir, site.directories)
  }

  /** Receipt and files are those of one release. */
  ghost predicate OneVersion(site: Site, files: Files) {
    && LoadAt(site, files).Loaded?
    && var receipt := LoadAt(site, files).receipt;
       && receipt.version in site.releases
       && forall file :: file in receipt.files ==>
            && file in site.releases[receipt.version]
            && Get(files, Destination(receipt, file)) == Some(site.releases[receipt.version][file])
  }

  // How an update may end, by the contract of `UpdateInstall.Install`, when rollback never fails:
  // unchanged, or updated to a release.
  ghost predicate Ended(site: Site, oldReceipt: Receipt, before: Files, after: Files, newReceipt: Receipt,
                        stages: set<Path>) {
    && (forall path :: path in before ==> OutsideStages(stages, path))
    && (|| (forall path :: OutsideStages(stages, path) ==> Same(before, after, path))
        || (&& newReceipt == oldReceipt.(version := newReceipt.version, files := newReceipt.files)
            && ValidOwnership(newReceipt.files) && LAUNCHER in newReceipt.files
            && site.syntax.version(newReceipt.version) && newReceipt.version in site.releases
            && UpdatedTo(before, after, oldReceipt, newReceipt, site.releases[newReceipt.version], stages)))
  }

  /** An update that ends leaves the installation at one version, the old or the new. */
  lemma {:induction false} EndedIsOneVersion(site: Site, oldReceipt: Receipt, before: Files, after: Files,
                                             newReceipt: Receipt, stages: set<Path>)
    requires OneVersion(site, before) && LoadAt(site, before) == Loaded(oldReceipt)
    requires Ended(site, oldReceipt, before, after, newReceipt, stages)
    ensures OneVersion(site, after) && LoadAt(site, after) in {Loaded(oldReceipt), Loaded(newReceipt)}
  {
    if forall path :: OutsideStages(stages, path) ==> Same(before, after, path) {
      var receiptPath := site.binDir + [RECEIPT];
      assert OutsideStages(stages, receiptPath) && Same(before, after, receiptPath);
      forall file | file in oldReceipt.files
        ensures Get(after, Destination(oldReceipt, file)) == Get(before, Destination(oldReceipt, file))
      {
        var path := Destination(oldReceipt, file);
        assert OutsideStages(stages, path) && Same(before, after, path);
      }
    } else {
      assert ReceiptPath(newReceipt) == site.binDir + [RECEIPT];
    }
  }

  /** A receipt that loads tells the truth; there may be none, or one that does not load. */
  ghost predicate Coherent(site: Site, files: Files) {
    LoadAt(site, files).Loaded? ==> OneVersion(site, files)
  }

  function WithReceipt(site: Site, files: Files, receipt: Receipt): Files {
    files[site.binDir + [RECEIPT] := ReceiptText(receipt)]
  }

  // How registering may end, by the contract of `RegisterInstall`: with the receipt
  // as it was, unreadable after a failed write, or the new one.  An installer puts
  // the files of a release in place before it registers them.
  ghost predicate Registered(site: Site, receipt: Receipt, before: Files, after: Files) {
    var path := site.binDir + [RECEIPT];
    && (forall other :: other != path ==> Same(before, after, other))
    && (|| Same(before, after, path)
        || (path in after && after[path].Data?)
        || (Get(after, path) == Some(ReceiptText(receipt)) && OneVersion(site, after)))
  }

  lemma {:induction false} RegisteredIsCoherent(site: Site, receipt: Receipt, before: Files, after: Files)
    requires Coherent(site, before) && Registered(site, receipt, before, after)
    ensures Coherent(site, after)
  {
    if Same(before, after, site.binDir + [RECEIPT]) {
      SameEverywhere(before, after, site.binDir + [RECEIPT]);
    }
  }

  lemma {:induction false} SameEverywhere(before: Files, after: Files, path: Path)
    requires Same(before, after, path) && forall other :: other != path ==> Same(before, after, other)
    ensures before == after
  {
    forall other ensures other in before <==> other in after {
      assert Same(before, after, other);
    }
    forall other | other in before ensures before[other] == after[other] {
      assert Same(before, after, other);
    }
  }

  // ---------------------------------------------------------------- the machine

  /** What a process is about to do.  A running compiler remembers what it loaded under its guard. */
  datatype Process =
    | CompilerStarts
    | CompilerFoundNoLock
    | CompilerOpens
    | CompilerLocks
    | CompilerLoads
    | CompilerRuns(seen: Files)
    | CompilerRunsUnguarded
    | UpdaterStarts
    | UpdaterOpens(installation: Receipt)
    | UpdaterLocks(installation: Receipt)
    | UpdaterReloads(installation: Receipt)
    | UpdaterInstalls(installation: Receipt, before: Files)
    | RegistrarOpens(receipt: Receipt)
    | RegistrarLocks(receipt: Receipt)
    | RegistrarWrites(receipt: Receipt)
    | Finished

  datatype World = World(
    files: Files,
    lockFile: bool,
    exclusive: Option<nat>,
    shared: set<nat>,
    processes: map<nat, Process>)

  datatype Step =
    | Advance(process: nat)
    | Change(process: nat, files: Files)
    | Register(process: nat, files: Files)
    | End(process: nat, files: Files, receipt: Receipt, stages: set<Path>)

  function Set(w: World, p: nat, process: Process): World {
    w.(processes := w.processes[p := process])
  }

  /** `shared_installation_lock`, one access at a time, then the compiler's use of the installation. */
  function CompilerStep(site: Site, w: World, p: nat, process: Process): World {
    match process
    case CompilerStarts => Set(w, p, if w.lockFile then CompilerOpens else CompilerFoundNoLock)
    case CompilerFoundNoLock =>
      Set(w, p, if site.binDir + [RECEIPT] in w.files then CompilerOpens else CompilerRunsUnguarded)
    case CompilerOpens => Set(w.(lockFile := true), p, CompilerLocks)
    case CompilerLocks =>
      if w.exclusive.Some? then Set(w, p, Finished) else Set(w.(shared := w.shared + {p}), p, CompilerLoads)
    case CompilerLoads =>
      if LoadAt(site, w.files).Loaded? then Set(w, p, CompilerRuns(w.files))
      else Set(w.(shared := w.shared - {p}), p, Finished)
    case CompilerRuns(_) => Set(w.(shared := w.shared - {p}), p, Finished)
    case CompilerRunsUnguarded => Set(w, p, Finished)
    case _ => w
  }

  /** `run`: load, lock, load again and compare. */
  function UpdaterStep(site: Site, w: World, p: nat, process: Process): World {
    match process
    case UpdaterStarts =>
      var loading := LoadAt(site, w.files);
      Set(w, p, if loading.Loaded? then UpdaterOpens(loading.receipt) else Finished)
    case UpdaterOpens(installation) => Set(w.(lockFile := true), p, UpdaterLocks(installation))
    case UpdaterLocks(installation) =>
      if w.exclusive.Some? || w.shared != {} then Set(w, p, Finished)
      else Set(w.(exclusive := Some(p)), p, UpdaterReloads(installation))
    case UpdaterReloads(installation) =>
      if LoadAt(site, w.files) == Loaded(installation) then Set(w, p, UpdaterInstalls(installation, w.files))
      else Set(w.(exclusive := None), p, Finished)
    case _ => w
  }

  /** `register_install` up to the moment it holds the lock. */
  function RegistrarStep(w: World, p: nat, process: Process): World {
    match process
    case RegistrarOpens(receipt) => Set(w.(lockFile := true), p, RegistrarLocks(receipt))
    case RegistrarLocks(receipt) =>
      if w.exclusive.Some? || w.shared != {} then Set(w, p, Finished)
      else Set(w.(exclusive := Some(p)), p, RegistrarWrites(receipt))
    case _ => w
  }

  predicate IsUpdater(process: Process) {
    process.UpdaterStarts? || process.UpdaterOpens? || process.UpdaterLocks? || process.UpdaterReloads?
  }

  predicate IsRegistrar(process: Process) {
    process.RegistrarOpens? || process.RegistrarLocks?
  }

  ghost predicate CanStep(site: Site, w: World, step: Step) {
    && step.process in w.processes
    && match step
       case Advance(p) => !w.processes[p].UpdaterInstalls? && !w.processes[p].RegistrarWrites?
       case Change(p, _) => w.processes[p].UpdaterInstalls?
       case Register(p, files) =>
         w.processes[p].RegistrarWrites? && Registered(site, w.processes[p].receipt, w.files, files)
       case End(p, files, receipt, stages) =>
         && w.processes[p].UpdaterInstalls?
         && Ended(site, w.processes[p].installation, w.processes[p].before, files, receipt, stages)
  }

  // An update in progress may change any file; when it ends it drops the lock.
  // Registering writes the receipt and drops the lock.
  function Next(site: Site, w: World, step: Step): World
    requires CanStep(site, w, step)
  {
    match step
    case Advance(p) =>
      var process := w.processes[p];
      if IsUpdater(process) then UpdaterStep(site, w, p, process)
      else if IsRegistrar(process) then RegistrarStep(w, p, process)
      else CompilerStep(site, w, p, process)
    case Change(_, files) => w.(files := files)
    case Register(p, files) => Set(w.(files := files, exclusive := None), p, Finished)
    case End(p, files, _, _) => Set(w.(files := files, exclusive := None), p, Finished)
  }

  /** An installation nobody is using, registered or not, with the lock file there or not. */
  ghost predicate Start(site: Site, w: World) {
    && Coherent(site, w.files) && w.exclusive.None? && w.shared == {}
    && forall p :: p in w.processes ==>
         w.processes[p].CompilerStarts? || w.processes[p].UpdaterStarts? || w.processes[p].RegistrarOpens?
  }

  ghost predicate Runs(site: Site, worlds: seq<World>, steps: seq<Step>) {
    && |worlds| == |steps| + 1
    && Start(site, worlds[0])
    && forall i {:trigger steps[i]} :: 0 <= i < |steps| ==>
         CanStep(site, worlds[i], steps[i]) && worlds[i + 1] == Next(site, worlds[i], steps[i])
  }

  // ---------------------------------------------------------------- invariant

  ghost predicate ProcessOk(site: Site, w: World, p: nat, process: Process) {
    && (process.UpdaterReloads? || process.UpdaterInstalls? || process.RegistrarWrites? <==> w.exclusive == Some(p))
    && (process.CompilerLoads? || process.CompilerRuns? <==> p in w.shared)
    && !process.CompilerFoundNoLock? && !process.CompilerRunsUnguarded?
    && (process.CompilerRuns? ==> process.seen == w.files && LoadAt(site, w.files).Loaded?)
    && (process.UpdaterInstalls? ==>
          OneVersion(site, process.before) && LoadAt(site, process.before) == Loaded(process.installation))
    && (process.UpdaterReloads? || process.RegistrarWrites? ==> Coherent(site, w.files))
  }

  /** The lock is held one way, by processes there are, and a receipt tells the truth while nobody holds it alone. */
  ghost predicate LockOk(site: Site, w: World) {
    && w.lockFile
    && (w.exclusive.Some? ==> w.shared == {} && w.exclusive.value in w.processes)
    && w.shared <= w.processes.Keys
    && (w.exclusive.None? ==> Coherent(site, w.files))
  }

  ghost predicate LockInv(site: Site, w: World) {
    && LockOk(site, w)
    && forall p :: p in w.processes ==> ProcessOk(site, w, p, w.processes[p])
  }

  /** A step of one process that changes no file and no lock but its own. */
  ghost predicate StepsAlone(w: World, v: World, p: nat) {
    && p in w.processes && p in v.processes && v.lockFile
    && v.files == w.files && v.processes == w.processes[p := v.processes[p]]
    && v.shared - {p} == w.shared - {p}
    && forall q {:trigger Some(q)} :: q != p ==> (v.exclusive == Some(q) <==> w.exclusive == Some(q))
  }

  lemma {:induction false} OthersStayOk(site: Site, w: World, v: World, p: nat, q: nat)
    requires StepsAlone(w, v, p) && q != p && q in w.processes && ProcessOk(site, w, q, w.processes[q])
    ensures ProcessOk(site, v, q, v.processes[q])
  {
    assert v.processes[q] == w.processes[q];
    assert q in v.shared - {p} <==> q in w.shared - {p};
    assert v.exclusive == Some(q) <==> w.exclusive == Some(q);
  }

  lemma {:induction false} AloneKeepsLockInv(site: Site, w: World, v: World, p: nat)
    requires LockInv(site, w) && StepsAlone(w, v, p) && LockOk(site, v) && ProcessOk(site, v, p, v.processes[p])
    ensures LockInv(site, v)
  {
    forall q | q in v.processes ensures ProcessOk(site, v, q, v.processes[q]) {
      if q != p {
        OthersStayOk(site, w, v, p, q);
      }
    }
  }

  lemma {:induction false} CompilerStepsAlone(site: Site, w: World, p: nat)
    requires LockOk(site, w) && p in w.processes && ProcessOk(site, w, p, w.processes[p])
    ensures var v := CompilerStep(site, w, p, w.processes[p]); StepsAlone(w, v, p) && LockOk(site, v)
  {
  }

  lemma {:induction false} CompilerStaysOk(site: Site, w: World, p: nat)
    requires LockOk(site, w) && p in w.processes && ProcessOk(site, w, p, w.processes[p])
    ensures var v := CompilerStep(site, w, p, w.processes[p]); p in v.processes && ProcessOk(site, v, p, v.processes[p])
  {
  }

  lemma {:induction false} CompilerKeepsLockInv(site: Site, w: World, p: nat)
    requires LockInv(site, w) && p in w.processes
    ensures LockInv(site, CompilerStep(site, w, p, w.processes[p]))
  {
    CompilerStepsAlone(site, w, p);
    CompilerStaysOk(site, w, p);
    AloneKeepsLockInv(site, w, CompilerStep(site, w, p, w.processes[p]), p);
  }

  lemma {:induction false} UpdaterStepsAlone(site: Site, w: World, p: nat)
    requires LockOk(site, w) && p in w.processes && ProcessOk(site, w, p, w.processes[p])
    ensures var v := UpdaterStep(site, w, p, w.processes[p]); StepsAlone(w, v, p) && LockOk(site, v)
  {
  }

  lemma {:induction false} UpdaterStaysOk(site: Site, w: World, p: nat)
    requires LockOk(site, w) && p in w.processes && ProcessOk(site, w, p, w.processes[p])
    ensures var v := UpdaterStep(site, w, p, w.processes[p]); p in v.processes && ProcessOk(site, v, p, v.processes[p])
  {
  }

  lemma {:induction false} UpdaterKeepsLockInv(site: Site, w: World, p: nat)
    requires LockInv(site, w) && p in w.processes
    ensures LockInv(site, UpdaterStep(site, w, p, w.processes[p]))
  {
    UpdaterStepsAlone(site, w, p);
    UpdaterStaysOk(site, w, p);
    AloneKeepsLockInv(site, w, UpdaterStep(site, w, p, w.processes[p]), p);
  }

  lemma {:induction false} RegistrarStepsAlone(site: Site, w: World, p: nat)
    requires LockOk(site, w) && p in w.processes && ProcessOk(site, w, p, w.processes[p])
    ensures var v := RegistrarStep(w, p, w.processes[p]); StepsAlone(w, v, p) && LockOk(site, v)
  {
  }

  lemma {:induction false} RegistrarStaysOk(site: Site, w: World, p: nat)
    requires LockOk(site, w) && p in w.processes && ProcessOk(site, w, p, w.processes[p])
    ensures var v := RegistrarStep(w, p, w.processes[p]); p in v.processes && ProcessOk(site, v, p, v.processes[p])
  {
  }

  lemma {:induction false} RegistrarKeepsLockInv(site: Site, w: World, p: nat)
    requires LockInv(site, w) && p in w.processes
    ensures LockInv(site, RegistrarStep(w, p, w.processes[p]))
  {
    RegistrarStepsAlone(site, w, p);
    RegistrarStaysOk(site, w, p);
    AloneKeepsLockInv(site, w, RegistrarStep(w, p, w.processes[p]), p);
  }

  /** Whoever holds the lock alone can leave any files behind it that a receipt tells the truth about. */
  lemma {:induction false} ReleaseKeepsLockInv(site: Site, w: World, p: nat, files: Files)
    requires LockInv(site, w) && p in w.processes && w.exclusive == Some(p) && Coherent(site, files)
    ensures LockInv(site, Set(w.(files := files, exclusive := None), p, Finished))
  {
    var v := Set(w.(files := files, exclusive := None), p, Finished);
    assert ProcessOk(site, w, p, w.processes[p]);
    forall q | q in v.processes ensures ProcessOk(site, v, q, v.processes[q]) {
      if q != p {
        assert ProcessOk(site, w, q, w.processes[q]);
      }
    }
  }

  /** While an update is in progress no process depends on the files. */
  lemma {:induction false} ChangeKeepsLockInv(site: Site, w: World, p: nat, files: Files)
    requires LockInv(site, w) && p in w.processes && w.processes[p].UpdaterInstalls?
    ensures LockInv(site, w.(files := files))
  {
    var v := w.(files := files);
    assert ProcessOk(site, w, p, w.processes[p]);
    forall q | q in v.processes ensures ProcessOk(site, v, q, v.processes[q]) {
      assert ProcessOk(site, w, q, w.processes[q]);
    }
  }

  lemma {:induction false} StepKeepsLockInv(site: Site, w: World, step: Step)
    requires LockInv(site, w) && CanStep(site, w, step)
    ensures LockInv(site, Next(site, w, step))
  {
    var p := step.process;
    assert ProcessOk(site, w, p, w.processes[p]);
    match step {
      case Advance(_) =>
        CompilerKeepsLockInv(site, w, p);
        UpdaterKeepsLockInv(site, w, p);
        RegistrarKeepsLockInv(site, w, p);
      case Change(_, files) => ChangeKeepsLockInv(site, w, p, files);
      case Register(_, files) =>
        RegisteredIsCoherent(site, w.processes[p].receipt, w.files, files);
        ReleaseKeepsLockInv(site, w, p, files);
      case End(_, files, receipt, stages) =>
        EndedIsOneVersion(site, w.processes[p].installation, w.processes[p].before, files, receipt, stages);
        ReleaseKeepsLockInv(site, w, p, files);
    }
  }

  lemma {:induction false} RunKeepsLockInv(site: Site, worlds: seq<World>, steps: seq<Step>, i: nat)
    requires Runs(site, worlds, steps) && worlds[0].lockFile && i < |worlds|
    ensures LockInv(site, worlds[i])
    decreases i
  {
    if i > 0 {
      RunKeepsLockInv(site, worlds, steps, i - 1);
      assert CanStep(site, worlds[i - 1], steps[i - 1]);
      StepKeepsLockInv(site, worlds[i - 1], steps[i - 1]);
    }
  }

  // From loading the receipt until it exits, a compiler sees one unchanging installation, receipt
  // and files of one release.
  lemma {:induction false} GuardedCompilerSeesOneVersion(site: Site, worlds: seq<World>, steps: seq<Step>, i: nat,
                                                         p: nat)
    requires Runs(site, worlds, steps) && worlds[0].lockFile && i < |worlds|
    requires p in worlds[i].processes && worlds[i].processes[p].CompilerRuns?
    ensures worlds[i].files == worlds[i].processes[p].seen && OneVersion(site, worlds[i].files)
    ensures forall q :: q in worlds[i].processes ==> !worlds[i].processes[q].UpdaterInstalls?
  {
    RunKeepsLockInv(site, worlds, steps, i);
    assert ProcessOk(site, worlds[i], p, worlds[i].processes[p]);
    forall q | q in worlds[i].processes ensures !worlds[i].processes[q].UpdaterInstalls? {
      assert ProcessOk(site, worlds[i], q, worlds[i].processes[q]);
    }
  }

  ghost predicate SomeoneUnguarded(w: World) {
    exists p :: p in w.processes && w.processes[p].CompilerRunsUnguarded?
  }

  /** A compiler running without a guard while an update is changing the installation. */
  ghost predicate Slipped(w: World) {
    SomeoneUnguarded(w) && exists q :: q in w.processes && w.processes[q].UpdaterInstalls?
  }

  /** No compiler runs without a guard, however the processes interleave, when the lock file is there from the start. */
  lemma {:induction false} NoneRunsUnguarded(site: Site, worlds: seq<World>, steps: seq<Step>, i: nat)
    requires Runs(site, worlds, steps) && worlds[0].lockFile && i < |worlds|
    ensures !SomeoneUnguarded(worlds[i])
  {
    RunKeepsLockInv(site, worlds, steps, i);
    forall p | p in worlds[i].processes ensures !worlds[i].processes[p].CompilerRunsUnguarded? {
      assert ProcessOk(site, worlds[i], p, worlds[i].processes[p]);
    }
  }

  // ----------------------------------------------------- processes left to themselves

  /** The compiler takes its steps until it runs or gives up, at most `n` of them. */
  ghost function CompilerAlone(site: Site, w: World, p: nat, n: nat): World
    decreases n
  {
    if n == 0 || p !in w.processes || w.processes[p].CompilerRuns? || w.processes[p].CompilerRunsUnguarded? then w
    else CompilerAlone(site, CompilerStep(site, w, p, w.processes[p]), p, n - 1)
  }

  /** The updater takes its steps until it installs or gives up. */
  ghost function UpdaterAlone(site: Site, w: World, p: nat, n: nat): World
    decreases n
  {
    if n == 0 || p !in w.processes then w
    else UpdaterAlone(site, UpdaterStep(site, w, p, w.processes[p]), p, n - 1)
  }

  /** What becomes of a compiler that nobody interrupts. */
  ghost function CompilerBecomes(site: Site, w: World): Process {
    if !w.lockFile && site.binDir + [RECEIPT] !in w.files then CompilerRunsUnguarded
    else if w.exclusive.None? && LoadAt(site, w.files).Loaded? then CompilerRuns(w.files)
    else Finished
  }

  // A compiler that nobody interrupts runs without a guard exactly if it finds neither lock file nor
  // receipt, and under a guard exactly if nobody holds the lock alone and the receipt loads.
  lemma {:induction false} UninterruptedCompiler(site: Site, w: World, p: nat)
    requires p in w.processes && w.processes[p].CompilerStarts? && p !in w.shared
    ensures var v, becomes := CompilerAlone(site, w, p, 5), CompilerBecomes(site, w);
            && v.processes == w.processes[p := becomes] && v.files == w.files && v.exclusive == w.exclusive
            && v.lockFile == (w.lockFile || !becomes.CompilerRunsUnguarded?)
            && v.shared == if becomes.CompilerRuns? then w.shared + {p} else w.shared
  {
    var first := CompilerStep(site, w, p, w.processes[p]);
    if w.lockFile {
      assert first == Set(w, p, CompilerOpens);
      CompilerFromOpening(site, first, p, 4);
    } else {
      assert first == Set(w, p, CompilerFoundNoLock);
      var second := CompilerStep(site, first, p, CompilerFoundNoLock);
      if site.binDir + [RECEIPT] in w.files {
        assert second == Set(w, p, CompilerOpens);
        CompilerFromOpening(site, second, p, 3);
      } else {
        assert second == Set(w, p, CompilerRunsUnguarded);
        assert CompilerAlone(site, second, p, 3) == second;
      }
      assert CompilerAlone(site, first, p, 4) == CompilerAlone(site, second, p, 3);
    }
  }

  lemma {:induction false} CompilerFromOpening(site: Site, w: World, p: nat, n: nat)
    requires p in w.processes && w.processes[p].CompilerOpens? && p !in w.shared && n >= 3
    ensures var v := CompilerAlone(site, w, p, n);
            && v.processes ==
               w.processes[p := if w.exclusive.None? && LoadAt(site, w.files).Loaded? then CompilerRuns(w.files)
                                else Finished]
            && v.files == w.files && v.exclusive == w.exclusive && v.lockFile
            && v.shared == if w.exclusive.None? && LoadAt(site, w.files).Loaded? then w.shared + {p} else w.shared
  {
    var ready := CompilerStep(site, w, p, CompilerOpens);
    var locked := CompilerStep(site, ready, p, CompilerLocks);
    assert ready == Set(w.(lockFile := true), p, CompilerLocks);
    assert CompilerAlone(site, w, p, n) == CompilerAlone(site, ready, p, n - 1) ==
        CompilerAlone(site, locked, p, n - 2);
    if w.exclusive.Some? {
      FinishedStays(site, locked, p, n - 2);
    } else {
      var loaded := CompilerStep(site, locked, p, CompilerLoads);
      assert CompilerAlone(site, locked, p, n - 2) == CompilerAlone(site, loaded, p, n - 3);
      if LoadAt(site, w.files).Loaded? {
        assert CompilerAlone(site, loaded, p, n - 3) == loaded;
      } else {
        assert (w.shared + {p}) - {p} == w.shared;
        FinishedStays(site, loaded, p, n - 3);
      }
    }
  }

  lemma {:induction false} FinishedStays(site: Site, w: World, p: nat, n: nat)
    requires p in w.processes && w.processes[p].Finished?
    ensures CompilerAlone(site, w, p, n) == w
    decreases n
  {
    if n > 0 {
      FinishedStays(site, w, p, n - 1);
    }
  }

  /** An updater that nobody interrupts installs exactly if nobody holds the lock and its receipt is still the one. */
  lemma {:induction false} UninterruptedUpdater(site: Site, w: World, p: nat, installation: Receipt)
    requires p in w.processes && w.processes[p] == UpdaterOpens(installation)
    ensures var v := UpdaterAlone(site, w, p, 3);
            var free := w.exclusive.None? && w.shared == {};
            && v.files == w.files && v.lockFile && v.shared == w.shared
            && (if free && LoadAt(site, w.files) == Loaded(installation) then
                  v.processes == w.processes[p := UpdaterInstalls(installation, w.files)] && v.exclusive == Some(p)
                else
                  v.processes == w.processes[p := Finished] && v.exclusive == w.exclusive)
  {
    var ready := UpdaterStep(site, w, p, w.processes[p]);
    var locked := UpdaterStep(site, ready, p, ready.processes[p]);
    var reloaded := UpdaterStep(site, locked, p, locked.processes[p]);
    assert ready == Set(w.(lockFile := true), p, UpdaterLocks(installation));
    assert UpdaterAlone(site, w, p, 3) == UpdaterAlone(site, ready, p, 2) == UpdaterAlone(site, locked, p, 1);
    assert UpdaterAlone(site, locked, p, 1) == UpdaterAlone(site, reloaded, p, 0) == reloaded;
  }

  /** Steps of a process left to itself are steps of the machine. */
  lemma {:induction false} AloneSteps(site: Site, w: World, p: nat)
    requires p in w.processes
    ensures !w.processes[p].UpdaterInstalls? && !w.processes[p].RegistrarWrites? ==> CanStep(site, w, Advance(p))
    ensures IsUpdater(w.processes[p]) ==> Next(site, w, Advance(p)) == UpdaterStep(site, w, p, w.processes[p])
    ensures w.processes[p].CompilerStarts? || w.processes[p].CompilerFoundNoLock? || w.processes[p].CompilerOpens?
            || w.processes[p].CompilerLocks? || w.processes[p].CompilerLoads? ==>
              Next(site, w, Advance(p)) == CompilerStep(site, w, p, w.processes[p])
  {
  }

  /** An update can get going, from the receipt there is or from one about to be registered. */
  ghost predicate Updatable(site: Site, w: World) {
    LoadAt(site, w.files).Loaded? || exists p :: CanRegister(site, w, p)
  }

  /** The process is about to register a receipt that is true of the files in place. */
  ghost predicate CanRegister(site: Site, w: World, p: nat) {
    && p in w.processes && w.processes[p].RegistrarOpens?
    && OneVersion(site, WithReceipt(site, w.files, w.processes[p].receipt))
  }

  /** A registrar left alone with a free lock registers. */
  lemma {:induction false} RegistrarGetsDone(site: Site, worlds: seq<World>, steps: seq<Step>, p: nat)
    returns (more: seq<World>, further: seq<Step>)
    requires Runs(site, worlds, steps)
    requires var w := worlds[|worlds| - 1];
             CanRegister(site, w, p) && w.exclusive.None? && w.shared == {}
    ensures Runs(site, more, further) && more != [] && more[0] == worlds[0]
    ensures var w, v := worlds[|worlds| - 1], more[|more| - 1];
            && v.files == WithReceipt(site, w.files, w.processes[p].receipt)
            && v.processes == w.processes[p := Finished] && v.exclusive.None? && v.shared == {}
  {
    var w := worlds[|worlds| - 1];
    var receipt := w.processes[p].receipt;
    var files := WithReceipt(site, w.files, receipt);
    more, further := OneMore(site, worlds, steps, Advance(p));
    assert more[|worlds|].processes == w.processes[p := RegistrarLocks(receipt)];
    more, further := OneMore(site, more, further, Advance(p));
    assert more[|worlds| + 1].processes == w.processes[p := RegistrarWrites(receipt)];
    assert Registered(site, receipt, w.files, files);
    more, further := OneMore(site, more, further, Register(p, files));
  }

  // Without the lock file a compiler can look for it, lose the race against a process that
  // creates it, and then against an updater that moves the receipt away, and run unguarded.
  lemma {:induction false} SlipsWithoutLockFile(site: Site, start: World, compiler: nat, updater: nat)
    returns (worlds: seq<World>, steps: seq<Step>)
    requires Start(site, start) && !start.lockFile && Updatable(site, start)
    requires compiler in start.processes && start.processes[compiler].CompilerStarts?
    requires updater in start.processes && start.processes[updater].UpdaterStarts?
    ensures Runs(site, worlds, steps) && worlds[0] == start && Slipped(worlds[|worlds| - 1])
  {
    worlds, steps := OneMore(site, [start], [], Advance(compiler));
    LookingStaysUpdatable(site, start, compiler);
    worlds, steps := ReceiptAppears(site, worlds, steps, compiler, updater);
    worlds, steps := UpdaterGetsGoing(site, worlds, steps, updater);
    worlds, steps := CompilerLosesRace(site, worlds, steps, compiler, updater);
  }

  lemma {:induction false} LookingStaysUpdatable(site: Site, w: World, compiler: nat)
    requires Updatable(site, w) && compiler in w.processes && w.processes[compiler].CompilerStarts?
    ensures Updatable(site, Next(site, w, Advance(compiler)))
  {
    var v := Next(site, w, Advance(compiler));
    forall p | CanRegister(site, w, p) ensures CanRegister(site, v, p) {
    }
  }

  /** A lock nobody holds, a compiler that found no lock file, and an updater about to start. */
  ghost predicate Racing(w: World, compiler: nat, updater: nat) {
    && w.exclusive.None? && w.shared == {}
    && compiler in w.processes && w.processes[compiler].CompilerFoundNoLock?
    && updater in w.processes && w.processes[updater].UpdaterStarts?
  }

  /** If there is no receipt yet, someone registers one. */
  lemma {:induction false} ReceiptAppears(site: Site, worlds: seq<World>, steps: seq<Step>, compiler: nat, updater: nat)
    returns (more: seq<World>, further: seq<Step>)
    requires Runs(site, worlds, steps)
    requires Racing(worlds[|worlds| - 1], compiler, updater) && Updatable(site, worlds[|worlds| - 1])
    ensures Runs(site, more, further) && more != [] && more[0] == worlds[0]
    ensures Racing(more[|more| - 1], compiler, updater) && LoadAt(site, more[|more| - 1].files).Loaded?
  {
    more, further := worlds, steps;
    if !LoadAt(site, worlds[|worlds| - 1].files).Loaded? {
      var registrar :| CanRegister(site, worlds[|worlds| - 1], registrar);
      more, further := RegistrarGetsDone(site, worlds, steps, registrar);
    }
  }

  /** The updater moves the receipt away before the compiler looks for it. */
  lemma {:induction false} CompilerLosesRace(site: Site, worlds: seq<World>, steps: seq<Step>, compiler: nat,
                                             updater: nat)
    returns (more: seq<World>, further: seq<Step>)
    requires Runs(site, worlds, steps)
    requires var w := worlds[|worlds| - 1];
             && compiler in w.processes && w.processes[compiler].CompilerFoundNoLock?
             && updater in w.processes && w.processes[updater].UpdaterInstalls?
    ensures Runs(site, more, further) && more != [] && more[0] == worlds[0] && Slipped(more[|more| - 1])
  {
    var files := worlds[|worlds| - 1].files - {site.binDir + [RECEIPT]};
    more, further := OneMore(site, worlds, steps, Change(updater, files));
    more, further := OneMore(site, more, further, Advance(compiler));
    var last := more[|more| - 1];
    assert last.processes[compiler].CompilerRunsUnguarded? && last.processes[updater].UpdaterInstalls?;
  }

  lemma {:induction false} OneMore(site: Site, worlds: seq<World>, steps: seq<Step>, step: Step)
    returns (more: seq<World>, further: seq<Step>)
    requires Runs(site, worlds, steps) && CanStep(site, worlds[|worlds| - 1], step)
    ensures Runs(site, more, further) && |more| == |worlds| + 1
    ensures more[0] == worlds[0] && more[|worlds|] == Next(site, worlds[|worlds| - 1], step)
  {
    more, further := worlds + [Next(site, worlds[|worlds| - 1], step)], steps + [step];
  }

  /** An updater left alone loads the receipt and opens the lock file. */
  lemma {:induction false} UpdaterOpensLock(site: Site, worlds: seq<World>, steps: seq<Step>, p: nat)
    returns (more: seq<World>, further: seq<Step>)
    requires Runs(site, worlds, steps)
    requires var w := worlds[|worlds| - 1];
             p in w.processes && w.processes[p].UpdaterStarts? && LoadAt(site, w.files).Loaded?
    ensures Runs(site, more, further) && |more| == |worlds| + 2 && more[0] == worlds[0]
    ensures var w, v := worlds[|worlds| - 1], more[|more| - 1];
            && v.files == w.files && v.exclusive == w.exclusive && v.shared == w.shared
            && v.processes == w.processes[p := UpdaterLocks(LoadAt(site, w.files).receipt)]
  {
    var w := worlds[|worlds| - 1];
    more, further := OneMore(site, worlds, steps, Advance(p));
    assert more[|worlds|].processes == w.processes[p := UpdaterOpens(LoadAt(site, w.files).receipt)];
    more, further := OneMore(site, more, further, Advance(p));
  }

  /** With the lock free it takes it and finds the receipt unchanged. */
  lemma {:induction false} UpdaterTakesLock(site: Site, worlds: seq<World>, steps: seq<Step>, p: nat)
    returns (more: seq<World>, further: seq<Step>)
    requires Runs(site, worlds, steps)
    requires var w := worlds[|worlds| - 1];
             && LoadAt(site, w.files).Loaded? && w.exclusive.None? && w.shared == {}
             && p in w.processes && w.processes[p] == UpdaterLocks(LoadAt(site, w.files).receipt)
    ensures Runs(site, more, further) && |more| == |worlds| + 2 && more[0] == worlds[0]
    ensures var w, v := worlds[|worlds| - 1], more[|more| - 1];
            && v.files == w.files
            && v.processes == w.processes[p := UpdaterInstalls(LoadAt(site, w.files).receipt, w.files)]
  {
    var w := worlds[|worlds| - 1];
    more, further := OneMore(site, worlds, steps, Advance(p));
    assert more[|worlds|].processes == w.processes[p := UpdaterReloads(LoadAt(site, w.files).receipt)];
    more, further := OneMore(site, more, further, Advance(p));
  }

  /** An updater left alone with a free lock reaches its installation phase. */
  lemma {:induction false} UpdaterGetsGoing(site: Site, worlds: seq<World>, steps: seq<Step>, p: nat)
    returns (more: seq<World>, further: seq<Step>)
    requires Runs(site, worlds, steps)
    requires var w := worlds[|worlds| - 1];
             && p in w.processes && w.processes[p].UpdaterStarts?
             && w.exclusive.None? && w.shared == {} && LoadAt(site, w.files).Loaded?
    ensures Runs(site, more, further) && more != [] && more[0] == worlds[0]
    ensures var w, v := worlds[|worlds| - 1], more[|more| - 1];
            && v.files == w.files
            && v.processes == w.processes[p := UpdaterInstalls(LoadAt(site, w.files).receipt, w.files)]
  {
    more, further := UpdaterOpensLock(site, worlds, steps, p);
    more, further := UpdaterTakesLock(site, more, further, p);
  }

  // -------------------------------------------------- installations nobody can update

  /** Nothing but the receipt has changed since the start, it does not load, and nobody got hold of one. */
  ghost predicate StaysUnregistered(site: Site, start: World, w: World) {
    && !LoadAt(site, w.files).Loaded?
    && (forall path :: path != site.binDir + [RECEIPT] ==> Same(start.files, w.files, path))
    && forall p :: p in w.processes ==> HasNoReceipt(start, p, w.processes[p])
  }

  /** Not an updater that has loaded a receipt; a registrar has the one it started with. */
  predicate HasNoReceipt(start: World, p: nat, process: Process) {
    && !process.UpdaterOpens? && !process.UpdaterLocks? && !process.UpdaterReloads? && !process.UpdaterInstalls?
    && (process.RegistrarOpens? || process.RegistrarLocks? || process.RegistrarWrites? ==>
          && p in start.processes && start.processes[p] == RegistrarOpens(process.receipt))
  }

  lemma {:induction false} FailedRegistration(site: Site, start: World, w: World, p: nat, files: Files)
    requires StaysUnregistered(site, start, w) && !Updatable(site, start)
    requires p in w.processes && w.processes[p].RegistrarWrites?
    requires Registered(site, w.processes[p].receipt, w.files, files)
    ensures !LoadAt(site, files).Loaded?
    ensures forall path :: path != site.binDir + [RECEIPT] ==> Same(start.files, files, path)
  {
    var receipt, path := w.processes[p].receipt, site.binDir + [RECEIPT];
    forall other | other != path ensures Same(start.files, files, other) {
      assert Same(start.files, w.files, other) && Same(w.files, files, other);
    }
    assert HasNoReceipt(start, p, w.processes[p]) && !CanRegister(site, start, p);
    if Get(files, path) == Some(ReceiptText(receipt)) {
      var registered := WithReceipt(site, start.files, receipt);
      forall other | other != path ensures Same(registered, files, other) {
        assert Same(start.files, files, other);
      }
      SameEverywhere(registered, files, path);
    }
  }

  lemma {:induction false} AdvanceHasNoReceipt(site: Site, start: World, w: World, p: nat)
    requires CanStep(site, w, Advance(p)) && !LoadAt(site, w.files).Loaded? && HasNoReceipt(start, p, w.processes[p])
    ensures var v := Next(site, w, Advance(p));
            && v.files == w.files && p in v.processes && v.processes == w.processes[p := v.processes[p]]
            && HasNoReceipt(start, p, v.processes[p])
  {
  }

  lemma {:induction false} OthersHaveNoReceipt(start: World, w: World, v: World, p: nat)
    requires p in w.processes && p in v.processes && v.processes == w.processes[p := v.processes[p]]
    requires HasNoReceipt(start, p, v.processes[p])
    requires forall q :: q in w.processes ==> HasNoReceipt(start, q, w.processes[q])
    ensures forall q :: q in v.processes ==> HasNoReceipt(start, q, v.processes[q])
  {
  }

  lemma {:induction false} StepStaysUnregistered(site: Site, start: World, w: World, step: Step)
    requires StaysUnregistered(site, start, w) && !Updatable(site, start) && CanStep(site, w, step)
    ensures StaysUnregistered(site, start, Next(site, w, step))
  {
    var p := step.process;
    assert HasNoReceipt(start, p, w.processes[p]);
    if step.Register? {
      FailedRegistration(site, start, w, p, step.files);
    } else {
      AdvanceHasNoReceipt(site, start, w, p);
    }
    OthersHaveNoReceipt(start, w, Next(site, w, step), p);
  }

  /** Without a receipt, and without anyone who registers one, no update ever gets going. */
  lemma {:induction false} NobodyUpdates(site: Site, worlds: seq<World>, steps: seq<Step>, i: nat)
    requires Runs(site, worlds, steps) && !Updatable(site, worlds[0]) && i < |worlds|
    ensures StaysUnregistered(site, worlds[0], worlds[i])
    decreases i
  {
    if i > 0 {
      NobodyUpdates(site, worlds, steps, i - 1);
      assert CanStep(site, worlds[i - 1], steps[i - 1]);
      StepStaysUnregistered(site, worlds[0], worlds[i - 1], steps[i - 1]);
    }
  }

  lemma {:induction false} NobodySlips(site: Site, worlds: seq<World>, steps: seq<Step>)
    requires Runs(site, worlds, steps) && (worlds[0].lockFile || !Updatable(site, worlds[0]))
    ensures !Slipped(worlds[|worlds| - 1])
  {
    var last := |worlds| - 1;
    if worlds[0].lockFile {
      NoneRunsUnguarded(site, worlds, steps, last);
    } else {
      NobodyUpdates(site, worlds, steps, last);
      forall q | q in worlds[last].processes ensures !worlds[last].processes[q].UpdaterInstalls? {
        assert HasNoReceipt(worlds[0], q, worlds[last].processes[q]);
      }
    }
  }

  // From a start with a compiler and an updater, and with or without installers about to
  // register: compilers cannot slip past exactly if the lock file is there, or if there is
  // no receipt and none will be registered.
  lemma {:induction false} LockFileIsExactlyEnough(site: Site, start: World, compiler: nat, updater: nat)
    requires Start(site, start)
    requires compiler in start.processes && start.processes[compiler].CompilerStarts?
    requires updater in start.processes && start.processes[updater].UpdaterStarts?
    ensures start.lockFile || !Updatable(site, start) <==>
            forall worlds, steps :: Runs(site, worlds, steps) && worlds[0] == start ==> !Slipped(worlds[|worlds| - 1])
  {
    if start.lockFile || !Updatable(site, start) {
      forall worlds, steps | Runs(site, worlds, steps) && worlds[0] == start
        ensures !Slipped(worlds[|worlds| - 1])
      {
        NobodySlips(site, worlds, steps);
      }
    } else {
      var worlds, steps := SlipsWithoutLockFile(site, start, compiler, updater);
    }
  }
}
