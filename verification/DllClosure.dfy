// The worklist of `scripts/ci/bundle-windows-dlls.py`: everything imported, directly or not, ends
// up beside the binaries.
module DllClosure {
  import opened Collections
  import opened Options
  import opened DllIndex

  /** What a run starts from; `imports` is what the inspector prints for a binary's content. */
  datatype Setting = Setting(
    naming: Naming,
    imports: nat -> seq<string>,
    binaries: seq<File>,
    installed: Index,
    sources: Index,
    system: Index)

  predicate IsApiSet(name: string) {
    "api-ms-" <= name || "ext-ms-" <= name
  }

  /** Names with a directory part, or a drive. */
  predicate InvalidImport(dependency: string) {
    dependency == "." || '/' in dependency || '\\' in dependency || ':' in dependency
  }

  /** The file that stands for a name: the installed one, or else that of the search directories. */
  function Resolve(setting: Setting, name: string): Option<File> {
    if name in setting.installed then Some(setting.installed[name])
    else if name in setting.sources then Some(setting.sources[name])
    else None
  }

  /** An import nobody can satisfy. */
  predicate BadImport(setting: Setting, dependency: string) {
    || InvalidImport(dependency)
    || (!IsApiSet(setting.naming.fold(dependency)) && Resolve(setting, setting.naming.fold(dependency)).None?
        && setting.naming.fold(dependency) !in setting.system)
  }

  /** `binary` imports `file`. */
  ghost predicate Imports(setting: Setting, binary: File, file: File) {
    exists dependency :: dependency in setting.imports(binary.content)
      && !IsApiSet(setting.naming.fold(dependency)) && Resolve(setting, setting.naming.fold(dependency)) == Some(file)
  }

  /** One of the files has that folded name. */
  ghost predicate Named(naming: Naming, files: seq<File>, name: string) {
    exists file :: file in files && naming.Folded(file) == name
  }

  // The first binary of its folded name in the queue.  Where two executables
  // differ in case only, the second is never looked at: its name is known.
  ghost predicate Leads(setting: Setting, file: File) {
    exists i :: 0 <= i < |setting.binaries| && setting.binaries[i] == file
      && !Named(setting.naming, setting.binaries[..i], setting.naming.Folded(file))
  }

  lemma {:induction false} InFront(files: seq<File>, i: nat, j: nat)
    ensures i < j <= |files| ==> files[i] in files[..j]
  {
    if i < j <= |files| {
      assert files[..j][i] == files[i];
    }
  }

  lemma {:induction false} LeadsUnique(setting: Setting, file: File, other: File)
    requires Leads(setting, file) && Leads(setting, other)
    requires setting.naming.Folded(file) == setting.naming.Folded(other)
    ensures file == other
  {
    var i :| 0 <= i < |setting.binaries| && setting.binaries[i] == file
      && !Named(setting.naming, setting.binaries[..i], setting.naming.Folded(file));
    var j :| 0 <= j < |setting.binaries| && setting.binaries[j] == other
      && !Named(setting.naming, setting.binaries[..j], setting.naming.Folded(other));
    InFront(setting.binaries, i, j);
    InFront(setting.binaries, j, i);
  }

  /** A chain of imports from one of these binaries to a file. */
  ghost predicate IsChain(setting: Setting, chain: seq<File>) {
    && chain != [] && Leads(setting, chain[0])
    && forall k {:trigger chain[k]} :: 0 < k < |chain| ==> Imports(setting, chain[k - 1], chain[k])
  }

  ghost predicate Reachable(setting: Setting, file: File) {
    exists chain :: IsChain(setting, chain) && chain[|chain| - 1] == file
  }

  lemma {:induction false} BinariesReachable(setting: Setting, file: File)
    requires Leads(setting, file)
    ensures Reachable(setting, file)
  {
    assert IsChain(setting, [file]);
  }

  lemma {:induction false} LongerChain(setting: Setting, chain: seq<File>, file: File)
    requires IsChain(setting, chain) && Imports(setting, chain[|chain| - 1], file)
    ensures IsChain(setting, chain + [file])
    ensures (chain + [file])[|chain + [file]| - 1] == file
  {
    var more := chain + [file];
    forall k | 0 < k < |more| ensures Imports(setting, more[k - 1], more[k]) {
      if k < |chain| {
        assert more[k - 1] == chain[k - 1] && more[k] == chain[k];
      }
    }
  }

  lemma {:induction false} ImportedReachable(setting: Setting, binary: File, file: File)
    requires Reachable(setting, binary) && Imports(setting, binary, file)
    ensures Reachable(setting, file)
  {
    var chain :| IsChain(setting, chain) && chain[|chain| - 1] == binary;
    LongerChain(setting, chain, file);
  }

  /** Directory and sources as `DllIndex` makes them. */
  ghost predicate GoodSetting(setting: Setting) {
    && (forall file :: Leads(setting, file) && setting.naming.KindOf(file) == Dll ==>
          setting.naming.Folded(file) in setting.installed && setting.installed[setting.naming.Folded(file)] == file)
    && (forall name :: name in setting.installed ==>
          Leads(setting, setting.installed[name]) && setting.naming.Folded(setting.installed[name]) == name)
    && (forall name :: name in setting.sources ==>
          setting.naming.Folded(setting.sources[name]) == name && setting.naming.kind(name) == Dll)
  }

  /** What a run looks at: the directory's own binaries and what was copied there. */
  ghost predicate Present(setting: Setting, installed: Index, file: File) {
    Leads(setting, file) || (exists name :: name in installed && installed[name] == file)
  }

  /** Installed DLLs are the old ones and reachable ones from the sources. */
  ghost predicate Grown(setting: Setting, installed: Index) {
    && (forall name :: name in setting.installed ==> name in installed && installed[name] == setting.installed[name])
    && (forall name :: name in installed && name !in setting.installed ==>
          name in setting.sources && installed[name] == setting.sources[name])
    && (forall name {:trigger Reachable(setting, installed[name])} ::
          name in installed && name !in setting.installed ==>
            Reachable(setting, installed[name]))
  }

  /** An import that is satisfied: by Windows itself, or by a DLL beside the binaries. */
  ghost predicate Satisfied(setting: Setting, installed: Index, dependency: string) {
    && !InvalidImport(dependency)
    && (|| IsApiSet(setting.naming.fold(dependency))
        || setting.naming.fold(dependency) in installed
        || (setting.naming.fold(dependency) in setting.system && setting.naming.fold(dependency) !in setting.sources))
  }

  // An import needs no directory part; Windows provides the names of API sets, and any other DLL
  // has to be beside the binaries, or Windows' own and in no search directory.
  lemma {:induction false} SatisfiedExactly(setting: Setting, installed: Index, dependency: string)
    ensures Satisfied(setting, installed, dependency) <==>
            && dependency != "." && (forall c :: c in dependency ==> c != '/' && c != '\\' && c != ':')
            && var name := setting.naming.fold(dependency);
               || (|name| >= 7 && (name[..7] == "api-ms-" || name[..7] == "ext-ms-"))
               || name in installed || (name in setting.system && name !in setting.sources)
    ensures BadImport(setting, dependency) <==>
            || dependency == "." || (exists c :: c in dependency && (c == '/' || c == '\\' || c == ':'))
            || var name := setting.naming.fold(dependency);
               && !(|name| >= 7 && (name[..7] == "api-ms-" || name[..7] == "ext-ms-"))
               && name !in setting.installed && name !in setting.sources && name !in setting.system
  {
  }

  ghost predicate AllSatisfied(setting: Setting, installed: Index, binary: File) {
    forall dependency :: dependency in setting.imports(binary.content) ==> Satisfied(setting, installed, dependency)
  }

  lemma {:induction false} SatisfiedIsNotBad(setting: Setting, installed: Index, dependency: string)
    requires Grown(setting, installed) && Satisfied(setting, installed, dependency)
    ensures !BadImport(setting, dependency)
  {
  }

  /** Files of the directory with the same folded name are the same. */
  lemma {:induction false} PresentUnique(setting: Setting, installed: Index, file: File, other: File)
    requires GoodSetting(setting) && Grown(setting, installed)
    requires Present(setting, installed, file) && Present(setting, installed, other)
    requires setting.naming.Folded(file) == setting.naming.Folded(other)
    ensures file == other
  {
    PresentLeads(setting, installed, file, other);
    PresentLeads(setting, installed, other, file);
    if Leads(setting, file) && Leads(setting, other) {
      LeadsUnique(setting, file, other);
    }
  }

  /** A file that was copied in has the name of no binary of the queue. */
  lemma {:induction false} PresentLeads(setting: Setting, installed: Index, file: File, other: File)
    requires GoodSetting(setting) && Grown(setting, installed)
    requires Present(setting, installed, file) && Present(setting, installed, other)
    requires setting.naming.Folded(file) == setting.naming.Folded(other)
    ensures Leads(setting, file) ==> Leads(setting, other)
    ensures !Leads(setting, file) ==>
              setting.naming.Folded(file) in installed && installed[setting.naming.Folded(file)] == file
  {
    if !Leads(setting, file) {
      var name :| name in installed && installed[name] == file;
    }
    if Leads(setting, file) && !Leads(setting, other) {
      assert false;
    }
  }

  // ------------------------------------------------------------------------ the worklist

  /** Every file of the directory is inspected or waiting. */
  ghost predicate Covered(setting: Setting, installed: Index, done: set<File>, pending: seq<File>) {
    forall file :: Present(setting, installed, file) ==> file in done || file in pending
  }

  /** A file of that folded name was taken up, or will be before this one. */
  ghost predicate Preceded(naming: Naming, seen: set<File>, earlier: seq<File>, file: File) {
    exists other :: (other in seen || other in earlier) && naming.Folded(other) == naming.Folded(file)
  }

  /** A file to look at, with a chain of imports to it. */
  ghost predicate Wanted(setting: Setting, installed: Index, file: File) {
    Present(setting, installed, file) && Reachable(setting, file)
  }

  /** What waits is to be looked at, or has lost its turn to another file of its name. */
  ghost predicate Waiting(setting: Setting, installed: Index, seen: set<File>, pending: seq<File>)
    decreases |pending|
  {
    pending == [] ||
    (var earlier, file := pending[..|pending| - 1], pending[|pending| - 1];
     Waiting(setting, installed, seen, earlier)
     && (Wanted(setting, installed, file) || Preceded(setting.naming, seen, earlier, file)))
  }

  lemma {:induction false} WaitingMore(setting: Setting, installed: Index, name: string, file: File, seen: set<File>,
                                       pending: seq<File>)
    requires Waiting(setting, installed, seen, pending) && name !in installed
    ensures Waiting(setting, installed[name := file], seen, pending)
    decreases |pending|
  {
    if pending != [] {
      var n := |pending| - 1;
      WaitingMore(setting, installed, name, file, seen, pending[..n]);
      PresentAfter(setting, installed, name, file, pending[n]);
    }
  }

  lemma {:induction false} WaitingAppend(setting: Setting, installed: Index, seen: set<File>, pending: seq<File>,
                                         file: File)
    requires Waiting(setting, installed, seen, pending) && Wanted(setting, installed, file)
    ensures Waiting(setting, installed, seen, pending + [file])
  {
    assert (pending + [file])[..|pending|] == pending;
  }

  /** The first in the queue is to be looked at, unless a file of its name was taken up. */
  lemma {:induction false} WaitingHead(setting: Setting, installed: Index, seen: set<File>, file: File, rest: seq<File>)
    requires Waiting(setting, installed, seen, [file] + rest)
    ensures Wanted(setting, installed, file) || Preceded(setting.naming, seen, [], file)
    decreases |rest|
  {
    var pending := [file] + rest;
    if rest == [] {
      assert pending[..0] == [] && pending[0] == file;
    } else {
      assert pending[..|rest|] == [file] + rest[..|rest| - 1];
      WaitingHead(setting, installed, seen, file, rest[..|rest| - 1]);
    }
  }

  /** Once a file of its name is taken up, the first in the queue can go. */
  lemma {:induction false} WaitingRest(setting: Setting, installed: Index, seen: set<File>, more: set<File>,
                                       file: File, taken: File, rest: seq<File>)
    requires Waiting(setting, installed, seen, [file] + rest)
    requires seen <= more && taken in more && setting.naming.Folded(taken) == setting.naming.Folded(file)
    ensures Waiting(setting, installed, more, rest)
    decreases |rest|
  {
    if rest != [] {
      var n := |rest| - 1;
      var pending := [file] + rest;
      assert pending[..|rest|] == [file] + rest[..n] && pending[|rest|] == rest[n];
      WaitingRest(setting, installed, seen, more, file, taken, rest[..n]);
      if !Wanted(setting, installed, rest[n]) {
        StillPreceded(setting.naming, seen, more, file, taken, rest[..n], rest[n]);
      }
    }
  }

  lemma {:induction false} StillPreceded(naming: Naming, seen: set<File>, more: set<File>, file: File, taken: File,
                                         earlier: seq<File>, last: File)
    requires Preceded(naming, seen, [file] + earlier, last)
    requires seen <= more && taken in more && naming.Folded(taken) == naming.Folded(file)
    ensures Preceded(naming, more, earlier, last)
  {
    var other :| (other in seen || other in [file] + earlier) && naming.Folded(other) == naming.Folded(last);
    var same := if other == file then taken else other;
    assert same in more || same in earlier;
  }

  /** The queue a run starts with. */
  lemma {:induction false} WaitingFirst(setting: Setting, k: nat)
    requires k <= |setting.binaries|
    ensures Waiting(setting, setting.installed, {}, setting.binaries[..k])
    decreases k
  {
    if k > 0 {
      var earlier, file := setting.binaries[..k - 1], setting.binaries[k - 1];
      WaitingFirst(setting, k - 1);
      assert setting.binaries[..k][..k - 1] == earlier;
      if Named(setting.naming, earlier, setting.naming.Folded(file)) {
        var other :| other in earlier && setting.naming.Folded(other) == setting.naming.Folded(file);
      } else {
        assert setting.binaries[k - 1] == file;
        BinariesReachable(setting, file);
      }
    }
  }

  ghost predicate AllHandled(setting: Setting, installed: Index, done: set<File>) {
    forall file :: file in done ==> Present(setting, installed, file) && AllSatisfied(setting, installed, file)
  }

  /** The names copied are those of the DLLs that were not there before. */
  ghost predicate CopiedNames(setting: Setting, installed: Index, copied: seq<string>) {
    && |copied| + |setting.installed| == |installed|
    && forall name :: name in installed && name !in setting.installed ==> installed[name].name in copied
  }

  lemma {:induction false} MoreInstalled(setting: Setting, installed: Index, name: string, done: set<File>,
                                         seen: set<File>, pending: seq<File>)
    requires Grown(setting, installed) && name !in installed && name in setting.sources
    requires Reachable(setting, setting.sources[name])
    requires AllHandled(setting, installed, done) && Covered(setting, installed, seen, pending)
    requires Waiting(setting, installed, seen, pending)
    ensures var file := setting.sources[name];
            var more := installed[name := file];
            && Grown(setting, more) && AllHandled(setting, more, done)
            && Covered(setting, more, seen, pending + [file]) && Waiting(setting, more, seen, pending + [file])
  {
    var file := setting.sources[name];
    var more := installed[name := file];
    assert more[name] == file;
    forall other ensures Present(setting, more, other) <==> Present(setting, installed, other) || other == file {
      PresentAfter(setting, installed, name, file, other);
    }
    WaitingMore(setting, installed, name, file, seen, pending);
    WaitingAppend(setting, more, seen, pending, file);
  }

  lemma {:induction false} PresentAfter(setting: Setting, installed: Index, name: string, file: File, other: File)
    requires name !in installed
    ensures Present(setting, installed[name := file], other) <==> Present(setting, installed, other) || other == file
  {
    var more := installed[name := file];
    assert more[name] == file;
    if exists n :: n in installed && installed[n] == other {
      var n :| n in installed && installed[n] == other;
      assert more[n] == other;
    }
  }

  datatype Failure = InvalidName(binary: File, dependency: string) | MissingDll(binary: File, dependency: string)

  /** The collections a run updates. */
  datatype State = State(installed: Index, pending: seq<File>, copied: seq<string>)

  /** What holds between steps, `done` being the binaries inspected and `seen` those taken up. */
  ghost predicate Valid(setting: Setting, state: State, done: set<File>, seen: set<File>) {
    && GoodSetting(setting) && Grown(setting, state.installed) && CopiedNames(setting, state.installed, state.copied)
    && AllHandled(setting, state.installed, done) && Covered(setting, state.installed, seen, state.pending)
    && Waiting(setting, state.installed, seen, state.pending)
  }

  /** Nothing installed is lost, nor forgotten. */
  ghost predicate Extends(state: State, before: State) {
    && (forall name :: name in before.installed ==>
          name in state.installed && state.installed[name] == before.installed[name])
    && (forall file :: file in before.pending ==> file in state.pending)
  }

  function Requeue(state: State, name: string): State
    requires name in state.installed
  {
    state.(pending := state.pending + [state.installed[name]])
  }

  function CopyIn(state: State, name: string, source: File): State {
    state.(installed := state.installed[name := source], pending := state.pending + [source],
           copied := state.copied + [source.name])
  }

  lemma {:induction false} RequeueKeeps(setting: Setting, state: State, done: set<File>, seen: set<File>,
                                        binary: File, dependency: string)
    requires Valid(setting, state, done, seen) && Reachable(setting, binary)
    requires dependency in setting.imports(binary.content)
    requires !InvalidImport(dependency) && !IsApiSet(setting.naming.fold(dependency))
    requires setting.naming.fold(dependency) in state.installed
    ensures var after := Requeue(state, setting.naming.fold(dependency));
            && Valid(setting, after, done, seen) && Extends(after, state)
            && Satisfied(setting, after.installed, dependency)
  {
    var file := state.installed[setting.naming.fold(dependency)];
    ImportedReachable(setting, binary, file);
    WaitingAppend(setting, state.installed, seen, state.pending, file);
  }

  lemma {:induction false} CopyKeeps(setting: Setting, state: State, done: set<File>, seen: set<File>, binary: File,
                                     dependency: string)
    requires Valid(setting, state, done, seen) && Reachable(setting, binary)
    requires dependency in setting.imports(binary.content)
    requires !InvalidImport(dependency) && !IsApiSet(setting.naming.fold(dependency))
    requires setting.naming.fold(dependency) !in state.installed && setting.naming.fold(dependency) in setting.sources
    ensures var name := setting.naming.fold(dependency);
            var after := CopyIn(state, name, setting.sources[name]);
            && Valid(setting, after, done, seen) && Extends(after, state)
            && Satisfied(setting, after.installed, dependency)
  {
    var name := setting.naming.fold(dependency);
    var source := setting.sources[name];
    ImportedReachable(setting, binary, source);
    MoreInstalled(setting, state.installed, name, done, seen, state.pending);
    CopyExtends(state, name, source);
  }

  lemma {:induction false} CopyExtends(state: State, name: string, source: File)
    requires name !in state.installed
    ensures Extends(CopyIn(state, name, source), state)
  {
  }

  lemma {:induction false} MissingIsBad(setting: Setting, state: State, done: set<File>, seen: set<File>,
                                        dependency: string)
    requires Valid(setting, state, done, seen)
    requires !IsApiSet(setting.naming.fold(dependency)) && setting.naming.fold(dependency) !in state.installed
    requires setting.naming.fold(dependency) !in setting.sources && setting.naming.fold(dependency) !in setting.system
    ensures BadImport(setting, dependency)
  {
  }

  /** The mutable part of a run. */
  class Bundler {
    const setting: Setting
    var state: State

    constructor (setting: Setting)
      ensures this.setting == setting && state == State(setting.installed, setting.binaries, [])
    {
      this.setting := setting;
      state := State(setting.installed, setting.binaries, []);
    }

    /** `add_dependency` */
    method AddDependency(binary: File, dependency: string, ghost done: set<File>, ghost seen: set<File>)
      returns (failure: Option<Failure>)
      requires Valid(setting, state, done, seen) && Reachable(setting, binary)
      requires dependency in setting.imports(binary.content)
      modifies this
      ensures failure.None? ==>
                Valid(setting, state, done, seen) && Extends(state, old(state))
                && Satisfied(setting, state.installed, dependency)
      ensures failure.Some? ==> failure.value.binary == binary && failure.value.dependency == dependency
      ensures failure.Some? ==> BadImport(setting, dependency)
    {
      if InvalidImport(dependency) {
        return Some(InvalidName(binary, dependency));
      }
      var name := setting.naming.fold(dependency);
      failure := None;
      if IsApiSet(name) {
      } else if name in state.installed {
        RequeueKeeps(setting, state, done, seen, binary, dependency);
        state := Requeue(state, name);
      } else if name in setting.sources {
        CopyKeeps(setting, state, done, seen, binary, dependency);
        state := CopyIn(state, name, setting.sources[name]);
      } else if name !in setting.system {
        MissingIsBad(setting, state, done, seen, dependency);
        failure := Some(MissingDll(binary, dependency));
      }
    }

    /** The imports of one binary, in the order the inspector prints them. */
    method HandleImports(binary: File, ghost done: set<File>, ghost seen: set<File>) returns (failure: Option<Failure>)
      requires Valid(setting, state, done, seen) && Present(setting, state.installed, binary)
      requires Reachable(setting, binary)
      modifies this
      ensures failure.None? ==> Valid(setting, state, done + {binary}, seen)
      ensures failure.Some? ==> failure.value.binary == binary && IsFailure(setting, failure.value)
    {
      var dependencies := setting.imports(binary.content);
      ghost var before := state;
      for i := 0 to |dependencies|
        invariant Valid(setting, state, done, seen) && Extends(state, before)
        invariant forall j :: 0 <= j < i ==> Satisfied(setting, state.installed, dependencies[j])
      {
        ghost var last := state;
        failure := AddDependency(binary, dependencies[i], done, seen);
        if failure.Some? {
          return;
        }
        StillSatisfied(setting, last, state, dependencies, i);
      }
      Handled(setting, before, state, done, seen, binary);
      failure := None;
    }

    /** One round for a binary whose name is new. */
    method Inspect(binary: File, inspected: set<string>, ghost done: set<File>, ghost order: seq<File>)
      returns (failure: Option<Failure>, more: set<string>)
      requires Valid(setting, state, done, done + {binary}) && Inspected(setting.naming, order, done, inspected)
      requires Present(setting, state.installed, binary) && Reachable(setting, binary)
      requires setting.naming.Folded(binary) !in inspected
      modifies this
      ensures failure.None? ==> Valid(setting, state, done + {binary}, done + {binary})
      ensures more == inspected + {setting.naming.Folded(binary)}
      ensures Inspected(setting.naming, order + [binary], done + {binary}, more)
      ensures failure.Some? ==> IsFailure(setting, failure.value)
    {
      InspectedMore(setting.naming, order, done, inspected, binary);
      more := inspected + {setting.naming.Folded(binary)};
      failure := HandleImports(binary, done, done + {binary});
    }

    /** One round of the loop: the first binary of the queue, unless its name was inspected before. */
    method Round(inspected: set<string>, ghost done: set<File>, ghost order: seq<File>)
      returns (failure: Option<Failure>, more: set<string>, ghost now: set<File>, ghost longer: seq<File>)
      requires Valid(setting, state, done, done) && Inspected(setting.naming, order, done, inspected)
      requires state.pending != []
      modifies this
      ensures failure.None? ==> Valid(setting, state, now, now) && Inspected(setting.naming, longer, now, more)
      ensures failure.None? ==>
                || |AllNames(setting) - more| < |AllNames(setting) - inspected|
                || (more == inspected && |state.pending| < |old(state).pending|)
      ensures failure.Some? ==> IsFailure(setting, failure.value)
    {
      var binary := state.pending[0];
      Popped(setting, state, done, order, inspected);
      state := state.(pending := state.pending[1..]);
      if setting.naming.Folded(binary) in inspected {
        return None, inspected, done, order;
      }
      Shrinks(AllNames(setting), inspected, inspected + {setting.naming.Folded(binary)}, setting.naming.Folded(binary));
      failure, more := Inspect(binary, inspected, done, order);
      now, longer := done + {binary}, order + [binary];
    }

    /** The loop of `bundle`, over a queue of binaries; `order` lists those inspected. */
    method Drain()
      returns (failure: Option<Failure>, ghost done: set<File>, ghost order: seq<File>, inspected: set<string>)
      requires GoodSetting(setting) && state == State(setting.installed, setting.binaries, [])
      modifies this
      ensures failure.None? ==>
                Valid(setting, state, done, done) && Inspected(setting.naming, order, done, inspected)
                && |state.pending| == 0
      ensures failure.Some? ==> IsFailure(setting, failure.value)
    {
      failure, done, order, inspected := None, {}, [], {};
      InitiallyValid(setting, state);
      while |state.pending| > 0
        invariant Valid(setting, state, done, done) && Inspected(setting.naming, order, done, inspected)
        decreases |AllNames(setting) - inspected|, |state.pending|
      {
        failure, inspected, done, order := Round(inspected, done, order);
        if failure.Some? {
          return;
        }
      }
      failure := None;
    }

    /** A whole run: drained without failure, the directory is closed. */
    method Run() returns (failure: Option<Failure>, ghost order: seq<File>)
      requires GoodSetting(setting) && state == State(setting.installed, setting.binaries, [])
      modifies this
      ensures failure.None? ==> Closed(setting, state, order)
      ensures failure.Some? ==> IsFailure(setting, failure.value)
    {
      ghost var done;
      var inspected;
      failure, done, order, inspected := Drain();
      if failure.None? {
        ClosedAtEnd(setting, state, done, order, inspected);
      }
    }
  }

  /** A binary that can be reached has an import nobody can satisfy. */
  ghost predicate IsFailure(setting: Setting, failure: Failure) {
    && Reachable(setting, failure.binary) && failure.dependency in setting.imports(failure.binary.content)
    && BadImport(setting, failure.dependency)
  }

  lemma {:induction false} StillSatisfied(setting: Setting, before: State, after: State, dependencies: seq<string>,
                                          i: nat)
    requires Extends(after, before) && i < |dependencies| && Satisfied(setting, after.installed, dependencies[i])
    requires forall j :: 0 <= j < i ==> Satisfied(setting, before.installed, dependencies[j])
    ensures forall j :: 0 <= j < i + 1 ==> Satisfied(setting, after.installed, dependencies[j])
  {
  }

  lemma {:induction false} Handled(setting: Setting, before: State, after: State, done: set<File>, seen: set<File>,
                                   binary: File)
    requires Valid(setting, after, done, seen) && Extends(after, before) && Present(setting, before.installed, binary)
    requires forall dependency :: dependency in setting.imports(binary.content) ==>
               Satisfied(setting, after.installed, dependency)
    ensures Valid(setting, after, done + {binary}, seen)
  {
    if !Leads(setting, binary) {
      var name :| name in before.installed && before.installed[name] == binary;
      assert after.installed[name] == binary;
    }
  }

  // ------------------------------------------------------------------------- the run

  ghost predicate DistinctNames(naming: Naming, order: seq<File>) {
    forall i, j :: 0 <= i < j < |order| ==> naming.Folded(order[i]) != naming.Folded(order[j])
  }

  /** Every name a file of the directory can come to have. */
  ghost function AllNames(setting: Setting): set<string> {
    (set file | file in setting.binaries :: setting.naming.Folded(file)) + setting.sources.Keys
  }

  lemma {:induction false} PresentNamed(setting: Setting, installed: Index, file: File)
    requires GoodSetting(setting) && Grown(setting, installed) && Present(setting, installed, file)
    ensures setting.naming.Folded(file) in AllNames(setting)
  {
  }

  /** The directory after a successful run. */
  ghost predicate Closed(setting: Setting, state: State, order: seq<File>) {
    && Grown(setting, state.installed) && CopiedNames(setting, state.installed, state.copied)
    && (forall file :: Present(setting, state.installed, file) ==> AllSatisfied(setting, state.installed, file))
    && (forall file :: file in order <==> Present(setting, state.installed, file))
    && (forall file :: Present(setting, state.installed, file) <==> Reachable(setting, file))
    && DistinctNames(setting.naming, order)
  }

  /** Every binary that can be reached is in a directory whose files are all satisfied. */
  lemma {:induction false} ChainPresent(setting: Setting, installed: Index, chain: seq<File>, k: nat)
    requires Grown(setting, installed) && IsChain(setting, chain) && k < |chain|
    requires forall file :: Present(setting, installed, file) ==> AllSatisfied(setting, installed, file)
    ensures Present(setting, installed, chain[k])
    decreases k
  {
    if k > 0 {
      ChainPresent(setting, installed, chain, k - 1);
      ImportPresent(setting, installed, chain[k - 1], chain[k]);
    }
  }

  lemma {:induction false} ImportPresent(setting: Setting, installed: Index, binary: File, file: File)
    requires Grown(setting, installed) && AllSatisfied(setting, installed, binary) && Imports(setting, binary, file)
    ensures Present(setting, installed, file)
  {
    var dependency :| dependency in setting.imports(binary.content)
      && !IsApiSet(setting.naming.fold(dependency)) && Resolve(setting, setting.naming.fold(dependency)) == Some(file);
    assert Satisfied(setting, installed, dependency);
    var name := setting.naming.fold(dependency);
    assert name in installed;
    assert installed[name] == file;
  }

  lemma {:induction false} GrownReachable(setting: Setting, installed: Index, file: File)
    requires GoodSetting(setting) && Grown(setting, installed) && Present(setting, installed, file)
    ensures Reachable(setting, file)
  {
    if Leads(setting, file) {
      BinariesReachable(setting, file);
    }
  }

  lemma {:induction false} ClosedAtEnd(setting: Setting, state: State, done: set<File>, order: seq<File>,
                                       inspected: set<string>)
    requires Valid(setting, state, done, done) && state.pending == []
    requires Inspected(setting.naming, order, done, inspected)
    ensures Closed(setting, state, order)
  {
    forall file ensures Present(setting, state.installed, file) <==> Reachable(setting, file) {
      if Present(setting, state.installed, file) {
        GrownReachable(setting, state.installed, file);
      }
      if Reachable(setting, file) {
        var chain :| IsChain(setting, chain) && chain[|chain| - 1] == file;
        ChainPresent(setting, state.installed, chain, |chain| - 1);
      }
    }
  }

  /** There is no bad import to find. */
  ghost predicate NoFailure(setting: Setting) {
    forall failure :: !IsFailure(setting, failure)
  }

  /** A closed directory leaves no bad import to find. */
  lemma {:induction false} ClosedMeansNoFailure(setting: Setting, state: State, order: seq<File>, failure: Failure)
    requires Closed(setting, state, order)
    ensures !IsFailure(setting, failure)
  {
    if IsFailure(setting, failure) {
      assert AllSatisfied(setting, state.installed, failure.binary);
      SatisfiedIsNotBad(setting, state.installed, failure.dependency);
    }
  }

  lemma {:induction false} NothingFails(setting: Setting, state: State, order: seq<File>)
    requires Closed(setting, state, order)
    ensures NoFailure(setting)
  {
    forall failure ensures !IsFailure(setting, failure) {
      ClosedMeansNoFailure(setting, state, order, failure);
    }
  }

  /** The files inspected, each name once. */
  ghost predicate Inspected(naming: Naming, order: seq<File>, done: set<File>, inspected: set<string>) {
    && DistinctNames(naming, order) && (forall file :: file in order <==> file in done)
    && (forall file :: file in done ==> naming.Folded(file) in inspected)
    && (forall name :: name in inspected ==> exists file :: file in done && naming.Folded(file) == name)
  }

  lemma {:induction false} PresentInQueue(setting: Setting, file: File)
    requires GoodSetting(setting) && Present(setting, setting.installed, file)
    ensures file in setting.binaries
  {
  }

  lemma {:induction false} InitiallyValid(setting: Setting, state: State)
    requires GoodSetting(setting) && state == State(setting.installed, setting.binaries, [])
    ensures Valid(setting, state, {}, {})
  {
    assert setting.binaries[..|setting.binaries|] == setting.binaries;
    WaitingFirst(setting, |setting.binaries|);
    forall file | Present(setting, setting.installed, file) ensures file in setting.binaries {
      PresentInQueue(setting, file);
    }
  }

  /** Taking the first file off the queue: it is known already if its name is. */
  lemma {:induction false} Popped(setting: Setting, state: State, done: set<File>, order: seq<File>,
                                  inspected: set<string>)
    requires Valid(setting, state, done, done) && state.pending != []
    requires Inspected(setting.naming, order, done, inspected)
    ensures var binary, rest := state.pending[0], state.(pending := state.pending[1..]);
            if setting.naming.Folded(binary) in inspected then Valid(setting, rest, done, done)
            else
              && Present(setting, rest.installed, binary) && Reachable(setting, binary)
              && setting.naming.Folded(binary) in AllNames(setting)
              && Valid(setting, rest, done, done + {binary})
  {
    var binary, rest := state.pending[0], state.pending[1..];
    assert state.pending == [binary] + rest;
    WaitingHead(setting, state.installed, done, binary, rest);
    if setting.naming.Folded(binary) in inspected {
      var file :| file in done && setting.naming.Folded(file) == setting.naming.Folded(binary);
      WaitingRest(setting, state.installed, done, done, binary, file, rest);
      SkippedCovered(setting, state.installed, done, file, binary, rest);
    } else {
      PresentNamed(setting, state.installed, binary);
      WaitingRest(setting, state.installed, done, done + {binary}, binary, binary, rest);
    }
  }

  /** A file whose name is known is done already or not to be looked at. */
  lemma {:induction false} SkippedCovered(setting: Setting, installed: Index, done: set<File>, file: File,
                                          binary: File, rest: seq<File>)
    requires GoodSetting(setting) && Grown(setting, installed) && AllHandled(setting, installed, done)
    requires Covered(setting, installed, done, [binary] + rest)
    requires file in done && setting.naming.Folded(file) == setting.naming.Folded(binary)
    ensures Covered(setting, installed, done, rest)
  {
    if Present(setting, installed, binary) {
      PresentUnique(setting, installed, file, binary);
    }
  }

  lemma {:induction false} InspectedMore(naming: Naming, order: seq<File>, done: set<File>, inspected: set<string>,
                                         binary: File)
    requires Inspected(naming, order, done, inspected) && naming.Folded(binary) !in inspected
    ensures Inspected(naming, order + [binary], done + {binary}, inspected + {naming.Folded(binary)})
  {
    assert forall i :: 0 <= i < |order| ==> order[i] in done;
  }

  // ----------------------------------------------------------------- the whole program

  datatype Outcome = Bundled(copied: seq<string>) | DuplicateDll | Conflict | NoBinaries | Failed(failure: Failure)

  /** Executables and DLLs. */
  function BinariesOf(naming: Naming, directory: seq<File>): seq<File> {
    if directory == [] then []
    else
      var n := |directory| - 1;
      BinariesOf(naming, directory[..n]) + if naming.KindOf(directory[n]) != Other then [directory[n]] else []
  }

  lemma {:induction false} BinariesOfHas(naming: Naming, directory: seq<File>, file: File)
    ensures file in BinariesOf(naming, directory) <==> file in directory && naming.KindOf(file) != Other
    decreases |directory|
  {
    if directory != [] {
      BinariesOfHas(naming, directory[..|directory| - 1], file);
      assert directory == directory[..|directory| - 1] + [directory[|directory| - 1]];
    }
  }

  /** A DLL of the directory is the first binary of its name: executables have other names. */
  lemma {:induction false} DllLeads(setting: Setting, directory: seq<File>, file: File)
    requires setting.binaries == BinariesOf(setting.naming, directory)
    requires Indexes(setting.naming, setting.installed, directory)
    requires file in directory && setting.naming.KindOf(file) == Dll
    ensures Leads(setting, file)
  {
    var naming, binaries := setting.naming, setting.binaries;
    BinariesOfHas(naming, directory, file);
    var i := FirstNamed(naming, binaries, naming.Folded(file));
    BinariesOfHas(naming, directory, binaries[i]);
    InIndex(naming, setting.installed, directory, file);
    InIndex(naming, setting.installed, directory, binaries[i]);
  }

  lemma {:induction false} InIndex(naming: Naming, index: Index, directory: seq<File>, file: File)
    requires Indexes(naming, index, directory) && file in directory && naming.KindOf(file) == Dll
    ensures naming.Folded(file) in index && index[naming.Folded(file)] == file
  {
    var i :| 0 <= i < |directory| && directory[i] == file;
  }

  lemma {:induction false} FirstNamed(naming: Naming, files: seq<File>, name: string) returns (i: nat)
    requires Named(naming, files, name)
    ensures i < |files| && naming.Folded(files[i]) == name && !Named(naming, files[..i], name)
    decreases |files|
  {
    i := |files| - 1;
    if Named(naming, files[..i], name) {
      var earlier := files[..i];
      i := FirstNamed(naming, earlier, name);
      assert files[..i] == earlier[..i];
    } else {
      var file :| file in files && naming.Folded(file) == name;
      assert files == files[..i] + [files[i]];
    }
  }

  lemma {:induction false} SettingIsGood(setting: Setting, directory: seq<File>, searchDirectories: seq<seq<File>>)
    requires setting.binaries == BinariesOf(setting.naming, directory)
    requires Indexes(setting.naming, setting.installed, directory)
    requires Provides(setting.naming, setting.sources, searchDirectories)
    ensures GoodSetting(setting)
  {
    forall file | Leads(setting, file) && setting.naming.KindOf(file) == Dll
      ensures setting.naming.Folded(file) in setting.installed && setting.installed[setting.naming.Folded(file)] == file
    {
      BinariesOfHas(setting.naming, directory, file);
      InIndex(setting.naming, setting.installed, directory, file);
    }
    forall name | name in setting.installed ensures Leads(setting, setting.installed[name]) {
      DllLeads(setting, directory, setting.installed[name]);
    }
  }

  /** The setting of a run on these directories. */
  ghost predicate IsSetting(setting: Setting, naming: Naming, imports: nat -> seq<string>, directory: seq<File>,
                            searchDirectories: seq<seq<File>>, systemDirectory: seq<File>) {
    && setting.naming == naming && setting.imports == imports && setting.binaries == BinariesOf(naming, directory)
    && Indexes(naming, setting.installed, directory) && Provides(naming, setting.sources, searchDirectories)
    && Indexes(naming, setting.system, systemDirectory)
  }

  /** Every directory can be indexed, and the search directories do not contradict each other. */
  ghost predicate Indexable(naming: Naming, directory: seq<File>, searchDirectories: seq<seq<File>>,
                            systemDirectory: seq<File>) {
    && Consistent(naming, searchDirectories)
    && DistinctDlls(naming, directory) && DistinctDlls(naming, systemDirectory)
    && forall d :: 0 <= d < |searchDirectories| ==> DistinctDlls(naming, searchDirectories[d])
  }

  /** `bundle` */
  method Bundle(naming: Naming, imports: nat -> seq<string>, directory: seq<File>, searchDirectories: seq<seq<File>>,
                systemDirectory: seq<File>)
    returns (outcome: Outcome, ghost setting: Setting, ghost state: State, ghost order: seq<File>)
    ensures outcome.DuplicateDll? || outcome.Conflict? <==>
              !Indexable(naming, directory, searchDirectories, systemDirectory)
    ensures outcome.NoBinaries? <==>
              Indexable(naming, directory, searchDirectories, systemDirectory) && BinariesOf(naming, directory) == []
    ensures outcome.Bundled? || outcome.Failed? ==>
              && IsSetting(setting, naming, imports, directory, searchDirectories, systemDirectory)
              && GoodSetting(setting) && (outcome.Bundled? <==> NoFailure(setting))
    ensures outcome.Bundled? ==> Closed(setting, state, order) && outcome.copied == state.copied
    ensures outcome.Failed? ==> IsFailure(setting, outcome.failure)
  {
    var sources := DllSources(naming, searchDirectories);
    if !sources.Found? {
      return (if sources.DuplicateName? then DuplicateDll else Conflict), *, *, *;
    }
    var system := IndexDlls(naming, systemDirectory);
    if system.None? {
      return DuplicateDll, *, *, *;
    }
    var installed := IndexDlls(naming, directory);
    if installed.None? {
      return DuplicateDll, *, *, *;
    }
    var pending := BinariesOf(naming, directory);
    if pending == [] {
      return NoBinaries, *, *, *;
    }
    var run := Setting(naming, imports, pending, installed.value, sources.sources, system.value);
    SettingIsGood(run, directory, searchDirectories);
    var bundler := new Bundler(run);
    var failure;
    failure, order := bundler.Run();
    setting, state := run, bundler.state;
    if failure.Some? {
      return Failed(failure.value), setting, state, order;
    }
    NothingFails(setting, state, order);
    outcome := Bundled(bundler.state.copied);
  }
}
