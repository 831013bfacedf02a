// What `scripts/ci/bundle-windows-dlls.py` leaves out: a binary whose folded name
// was seen before is never inspected.  When exactly that can matter.
module DllShadowing {
  import opened DllIndex
  import opened DllClosure

  // ------------------------------------------------------------------- names

  /** What `\s` matches in a text. */
  predicate IsSpace(c: char) {
    var n := c as int;
    || 9 <= n <= 13 || 28 <= n <= 32 || n == 0x85 || n == 0xA0 || n == 0x1680 || 0x2000 <= n <= 0x200A
    || n == 0x2028 || n == 0x2029 || n == 0x202F || n == 0x205F || n == 0x3000
  }

  /** The pattern of `imported_dlls`: the only names the inspector's output can yield. */
  predicate IsDllName(name: string) {
    var n := |name| - 4;
    && n > 0 && name[n] == '.' && (name[n + 1] == 'd' || name[n + 1] == 'D')
    && (name[n + 2] == 'l' || name[n + 2] == 'L') && (name[n + 3] == 'l' || name[n + 3] == 'L')
    && forall i :: 0 <= i < n ==> !IsSpace(name[i]) && name[i] != '/' && name[i] != '\\' && name[i] != ':'
  }

  /** Such a name is never refused as having a directory part. */
  lemma {:induction false} DllNamesAreValid(name: string)
    requires IsDllName(name)
    ensures !InvalidImport(name)
  {
    forall i | 0 <= i < |name| ensures name[i] != '/' && name[i] != '\\' && name[i] != ':' {
      if i >= |name| - 4 {
        assert i == |name| - 4 || i == |name| - 3 || i == |name| - 2 || i == |name| - 1;
      }
    }
  }

  /** What an inspector can say about binaries. */
  ghost predicate Inspectable(imports: nat -> seq<string>) {
    forall content, name :: name in imports(content) ==> IsDllName(name)
  }

  // ----------------------------------------------------------- completeness

  /** Every binary of the directory has all its imports, whether it was inspected or not. */
  ghost predicate Complete(setting: Setting, state: State) {
    forall file :: file in setting.binaries ==> AllSatisfied(setting, state.installed, file)
  }

  /** The same directories with other imports. */
  function With(setting: Setting, imports: nat -> seq<string>): Setting {
    setting.(imports := imports)
  }

  /** However the imports are, a run that succeeds leaves no binary out. */
  ghost predicate AlwaysComplete(setting: Setting) {
    forall imports, state, order :: Inspectable(imports) && Closed(With(setting, imports), state, order) ==>
      Complete(With(setting, imports), state)
  }

  /** A binary that is the first of its name has the content of `file`. */
  ghost predicate ContentLed(naming: Naming, binaries: seq<File>, file: File) {
    exists i :: 0 <= i < |binaries| && binaries[i].content == file.content
      && !Named(naming, binaries[..i], naming.Folded(binaries[i]))
  }

  ghost predicate AllContentLed(naming: Naming, binaries: seq<File>) {
    forall file :: file in binaries ==> ContentLed(naming, binaries, file)
  }

  /** A name the inspector can yield, of a DLL that is nowhere. */
  ghost predicate Missing(setting: Setting, name: string) {
    && IsDllName(name) && !IsApiSet(setting.naming.fold(name))
    && setting.naming.fold(name) !in setting.installed && setting.naming.fold(name) !in setting.sources
    && setting.naming.fold(name) !in setting.system
  }

  lemma {:induction false} LedIsSatisfied(setting: Setting, state: State, order: seq<File>, file: File)
    requires Closed(setting, state, order) && ContentLed(setting.naming, setting.binaries, file)
    ensures AllSatisfied(setting, state.installed, file)
  {
    var i :| 0 <= i < |setting.binaries| && setting.binaries[i].content == file.content
      && !Named(setting.naming, setting.binaries[..i], setting.naming.Folded(setting.binaries[i]));
    assert Leads(setting, setting.binaries[i]);
    assert Present(setting, state.installed, setting.binaries[i]);
    assert AllSatisfied(setting, state.installed, setting.binaries[i]);
  }

  // ---------------------------------------------------- a run that leaves one out

  /** Only binaries with the given content import anything. */
  function Importing(content: nat, name: string): nat -> seq<string> {
    c => if c == content then [name] else []
  }

  /** The first binaries of their names, in order. */
  ghost function Leaders(naming: Naming, files: seq<File>): seq<File> {
    if files == [] then []
    else
      var n := |files| - 1;
      Leaders(naming, files[..n]) + if Named(naming, files[..n], naming.Folded(files[n])) then [] else [files[n]]
  }

  /** `file` is the first of its name among the files. */
  ghost predicate LeadsAmong(naming: Naming, files: seq<File>, file: File) {
    exists i :: 0 <= i < |files| && files[i] == file && !Named(naming, files[..i], naming.Folded(file))
  }

  lemma {:induction false} LeadsAmongMore(naming: Naming, files: seq<File>, last: File, file: File)
    ensures LeadsAmong(naming, files + [last], file) <==>
            LeadsAmong(naming, files, file) || (file == last && !Named(naming, files, naming.Folded(last)))
  {
    var more := files + [last];
    assert more[|files|] == last && more[..|files|] == files;
    assert forall i :: 0 <= i < |files| ==> more[i] == files[i] && more[..i] == files[..i];
  }

  lemma {:induction false} LeadersLead(naming: Naming, files: seq<File>, file: File)
    ensures file in Leaders(naming, files) <==> LeadsAmong(naming, files, file)
    decreases |files|
  {
    if files != [] {
      var n := |files| - 1;
      assert files == files[..n] + [files[n]];
      LeadersLead(naming, files[..n], file);
      LeadsAmongMore(naming, files[..n], files[n], file);
    }
  }

  lemma {:induction false} LeadersAreNamed(naming: Naming, files: seq<File>, file: File)
    requires file in Leaders(naming, files)
    ensures Named(naming, files, naming.Folded(file))
  {
    LeadersLead(naming, files, file);
  }

  lemma {:induction false} LeadersDiffer(naming: Naming, files: seq<File>)
    ensures DistinctNames(naming, Leaders(naming, files))
    decreases |files|
  {
    if files != [] {
      var n := |files| - 1;
      var before := Leaders(naming, files[..n]);
      LeadersDiffer(naming, files[..n]);
      forall i | 0 <= i < |before| ensures Named(naming, files[..n], naming.Folded(before[i])) {
        LeadersAreNamed(naming, files[..n], before[i]);
      }
    }
  }

  /** Which binaries lead does not depend on the imports. */
  lemma {:induction false} LeadsAlike(setting: Setting, imports: nat -> seq<string>, file: File)
    ensures Leads(With(setting, imports), file) <==> LeadsAmong(setting.naming, setting.binaries, file)
    ensures Leads(setting, file) <==> LeadsAmong(setting.naming, setting.binaries, file)
  {
  }

  lemma {:induction false} GoodAlike(setting: Setting, imports: nat -> seq<string>)
    requires GoodSetting(setting)
    ensures GoodSetting(With(setting, imports))
  {
    forall file ensures Leads(With(setting, imports), file) <==> Leads(setting, file) {
      LeadsAlike(setting, imports, file);
    }
  }

  lemma {:induction false} FirstPresent(setting: Setting, file: File)
    requires GoodSetting(setting)
    ensures Present(setting, setting.installed, file) <==> Leads(setting, file)
  {
  }

  /** No binary that would be inspected imports anything. */
  ghost predicate Idle(setting: Setting) {
    forall lead :: Leads(setting, lead) ==> setting.imports(lead.content) == []
  }

  lemma {:induction false} IdleImports(setting: Setting, lead: File, file: File)
    requires Idle(setting) && Leads(setting, lead)
    ensures !Imports(setting, lead, file)
  {
  }

  lemma {:induction false} OnlyLeadsReachable(setting: Setting, file: File)
    requires Idle(setting)
    ensures Reachable(setting, file) <==> Leads(setting, file)
  {
    if Leads(setting, file) {
      BinariesReachable(setting, file);
    }
    if Reachable(setting, file) {
      var chain :| IsChain(setting, chain) && chain[|chain| - 1] == file;
      if |chain| > 1 {
        IdleImports(setting, chain[0], chain[1]);
      }
    }
  }

  /** Then what is present, reachable and inspected are the first binaries of their names, and they need nothing. */
  lemma {:induction false} IdleFile(setting: Setting, file: File)
    requires GoodSetting(setting) && Idle(setting)
    ensures Present(setting, setting.installed, file) <==> Reachable(setting, file)
    ensures file in Leaders(setting.naming, setting.binaries) <==> Present(setting, setting.installed, file)
    ensures Present(setting, setting.installed, file) ==> AllSatisfied(setting, setting.installed, file)
  {
    FirstPresent(setting, file);
    OnlyLeadsReachable(setting, file);
    LeadersLead(setting.naming, setting.binaries, file);
    LeadsAlike(setting, setting.imports, file);
  }

  lemma {:induction false} NothingGrown(setting: Setting)
    ensures Grown(setting, setting.installed) && CopiedNames(setting, setting.installed, [])
  {
  }

  /** Then the directory is closed as it is. */
  lemma {:induction false} ClosedAtOnce(setting: Setting)
    requires GoodSetting(setting) && Idle(setting)
    ensures Closed(setting, State(setting.installed, [], []), Leaders(setting.naming, setting.binaries))
  {
    var order := Leaders(setting.naming, setting.binaries);
    NothingGrown(setting);
    LeadersDiffer(setting.naming, setting.binaries);
    forall file
      ensures Present(setting, setting.installed, file) <==> Reachable(setting, file)
      ensures file in order <==> Present(setting, setting.installed, file)
      ensures Present(setting, setting.installed, file) ==> AllSatisfied(setting, setting.installed, file)
    {
      IdleFile(setting, file);
    }
  }

  /** No binary with that content is the first of its name, so nothing is inspected that imports anything. */
  lemma {:induction false} UnledIsSkipped(setting: Setting, file: File, name: string)
    requires GoodSetting(setting) && !ContentLed(setting.naming, setting.binaries, file)
    ensures var slipped := With(setting, Importing(file.content, name));
            Closed(slipped, State(setting.installed, [], []), Leaders(setting.naming, setting.binaries))
  {
    var slipped := With(setting, Importing(file.content, name));
    GoodAlike(setting, slipped.imports);
    forall lead | Leads(slipped, lead) ensures slipped.imports(lead.content) == [] {
      var i :| 0 <= i < |slipped.binaries| && slipped.binaries[i] == lead
        && !Named(slipped.naming, slipped.binaries[..i], slipped.naming.Folded(lead));
      assert setting.binaries[i] == lead;
    }
    ClosedAtOnce(slipped);
  }

  lemma {:induction false} MissingIsBad(setting: Setting, imports: nat -> seq<string>, name: string)
    requires Missing(setting, name)
    ensures BadImport(With(setting, imports), name) && !Satisfied(With(setting, imports), setting.installed, name)
  {
  }

  lemma {:induction false} ImportingIsInspectable(content: nat, name: string)
    requires IsDllName(name)
    ensures Inspectable(Importing(content, name)) && name in Importing(content, name)(content)
  {
    assert Importing(content, name)(content) == [name];
  }

  // ------------------------------------------------------------------ results

  // A run that succeeds is certain to leave no binary out exactly if each binary has
  // the content of one that is the first of its name.
  lemma {:induction false} CompleteExactlyIfLed(setting: Setting, missing: string)
    requires GoodSetting(setting) && Missing(setting, missing)
    ensures AlwaysComplete(setting) <==> AllContentLed(setting.naming, setting.binaries)
  {
    if AllContentLed(setting.naming, setting.binaries) {
      forall imports, state, order | Inspectable(imports) && Closed(With(setting, imports), state, order)
        ensures Complete(With(setting, imports), state)
      {
        forall file | file in setting.binaries ensures AllSatisfied(With(setting, imports), state.installed, file) {
          LedIsSatisfied(With(setting, imports), state, order, file);
        }
      }
    } else {
      var file :| file in setting.binaries && !ContentLed(setting.naming, setting.binaries, file);
      var imports := Importing(file.content, missing);
      var state, order := State(setting.installed, [], []), Leaders(setting.naming, setting.binaries);
      ImportingIsInspectable(file.content, missing);
      UnledIsSkipped(setting, file, missing);
      MissingIsBad(setting, imports, missing);
      assert !AllSatisfied(With(setting, imports), state.installed, file);
      assert Closed(With(setting, imports), state, order) && !Complete(With(setting, imports), state);
    }
  }

  /** A binary of the directory is inspected exactly if it is the first of its name. */
  lemma {:induction false} InspectedExactlyIfFirst(setting: Setting, state: State, order: seq<File>, file: File)
    requires GoodSetting(setting) && Closed(setting, state, order) && file in setting.binaries
    ensures file in order <==> LeadsAmong(setting.naming, setting.binaries, file)
  {
    LeadsAlike(setting, setting.imports, file);
    if file in order {
      var i := FirstNamed(setting.naming, setting.binaries, setting.naming.Folded(file));
      assert Leads(setting, setting.binaries[i]);
      PresentLeads(setting, state.installed, setting.binaries[i], file);
    }
  }

  /** A name the inspector can yield, of a DLL that no directory has. */
  ghost predicate Unprovided(naming: Naming, directory: seq<File>, searchDirectories: seq<seq<File>>,
                             systemDirectory: seq<File>, name: string) {
    && IsDllName(name) && !IsApiSet(naming.fold(name))
    && !HasName(naming, directory, naming.fold(name)) && !HasName(naming, systemDirectory, naming.fold(name))
    && forall d :: 0 <= d < |searchDirectories| ==> !HasName(naming, searchDirectories[d], naming.fold(name))
  }

  lemma {:induction false} DllHasName(naming: Naming, directory: seq<File>, file: File)
    requires file in directory && naming.KindOf(file) == Dll
    ensures HasName(naming, directory, naming.Folded(file))
  {
    var i :| 0 <= i < |directory| && directory[i] == file;
  }

  lemma {:induction false} SourceHasName(naming: Naming, sources: Index, directories: seq<seq<File>>, name: string)
    requires Provides(naming, sources, directories) && name in sources
    ensures exists d :: 0 <= d < |directories| && HasName(naming, directories[d], name)
  {
    assert ProvidedLast(naming, directories, name, sources[name]);
    var d :| 0 <= d < |directories| && sources[name] in directories[d];
    DllHasName(naming, directories[d], sources[name]);
  }

  lemma {:induction false} UnprovidedIsMissing(setting: Setting, directory: seq<File>,
                                               searchDirectories: seq<seq<File>>, systemDirectory: seq<File>,
                                               name: string)
    requires IsSetting(setting, setting.naming, setting.imports, directory, searchDirectories, systemDirectory)
    requires Unprovided(setting.naming, directory, searchDirectories, systemDirectory, name)
    ensures Missing(setting, name)
  {
    var folded := setting.naming.fold(name);
    if folded in setting.installed {
      DllHasName(setting.naming, directory, setting.installed[folded]);
    }
    if folded in setting.system {
      DllHasName(setting.naming, systemDirectory, setting.system[folded]);
    }
    if folded in setting.sources {
      SourceHasName(setting.naming, setting.sources, searchDirectories, folded);
    }
  }

  // `bundle` itself, on a directory with a binary that is not led: it reports success
  // although a DLL the binary imports is nowhere.
  method BundleLeavesOut(naming: Naming, directory: seq<File>, searchDirectories: seq<seq<File>>,
                         systemDirectory: seq<File>, file: File, missing: string)
    returns (outcome: Outcome, ghost setting: Setting, ghost state: State, ghost order: seq<File>)
    requires Indexable(naming, directory, searchDirectories, systemDirectory)
    requires file in BinariesOf(naming, directory) && !ContentLed(naming, BinariesOf(naming, directory), file)
    requires Unprovided(naming, directory, searchDirectories, systemDirectory, missing)
    ensures outcome.Bundled? && Closed(setting, state, order)
    ensures IsSetting(setting, naming, Importing(file.content, missing), directory, searchDirectories, systemDirectory)
    ensures Inspectable(setting.imports) && missing in setting.imports(file.content)
    ensures BadImport(setting, missing) && !AllSatisfied(setting, state.installed, file)
  {
    var imports := Importing(file.content, missing);
    outcome, setting, state, order := Bundle(naming, imports, directory, searchDirectories, systemDirectory);
    ImportingIsInspectable(file.content, missing);
    UnprovidedIsMissing(setting, directory, searchDirectories, systemDirectory, missing);
    MissingIsBad(setting, imports, missing);
    UnledIsSkipped(setting, file, missing);
    assert With(setting, imports) == setting;
    NothingFails(setting, State(setting.installed, [], []), Leaders(naming, setting.binaries));
    MissingIsUnsatisfied(setting, state, order, missing);
  }

  lemma {:induction false} MissingIsUnsatisfied(setting: Setting, state: State, order: seq<File>, name: string)
    requires Closed(setting, state, order) && BadImport(setting, name)
    ensures !Satisfied(setting, state.installed, name)
  {
    if Satisfied(setting, state.installed, name) {
      SatisfiedIsNotBad(setting, state.installed, name);
    }
  }
}
