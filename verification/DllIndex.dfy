// Where `scripts/ci/bundle-windows-dlls.py` looks DLLs up: one index per directory, merged over
// the search directories.
module DllIndex {
  import opened Options

  datatype Kind = Dll | Exe | Other

  datatype File = File(name: string, content: nat)

  // How names are compared: `fold` is `str.casefold`, and `kind` is what the
  // suffix of a folded name says.  Folding changes no suffix into `.dll` or
  // `.exe` and none away from them.
  datatype Naming = Naming(fold: string -> string, kind: string -> Kind) {
    function Folded(file: File): string {
      fold(file.name)
    }

    function KindOf(file: File): Kind {
      kind(Folded(file))
    }
  }

  type Index = map<string, File>

  /** No two DLLs of the directory have the same folded name. */
  ghost predicate DistinctDlls(naming: Naming, directory: seq<File>) {
    forall i, j ::
      0 <= i < j < |directory| && naming.KindOf(directory[i]) == Dll && naming.KindOf(directory[j]) == Dll ==>
        naming.Folded(directory[i]) != naming.Folded(directory[j])
  }

  /** The index holds the directory's DLLs under their folded names, and nothing else. */
  ghost predicate Indexes(naming: Naming, index: Index, directory: seq<File>) {
    && (forall name :: name in index ==>
          index[name] in directory && naming.KindOf(index[name]) == Dll && naming.Folded(index[name]) == name)
    && (forall i :: 0 <= i < |directory| && naming.KindOf(directory[i]) == Dll ==>
          naming.Folded(directory[i]) in index && index[naming.Folded(directory[i])] == directory[i])
  }

  /** `dll_index`; none for the `ValueError` about a duplicate name. */
  method IndexDlls(naming: Naming, directory: seq<File>) returns (index: Option<Index>)
    ensures index.Some? <==> DistinctDlls(naming, directory)
    ensures index.Some? ==> Indexes(naming, index.value, directory)
  {
    var result: Index := map[];
    for i := 0 to |directory|
      invariant DistinctDlls(naming, directory[..i]) && Indexes(naming, result, directory[..i])
    {
      var path := directory[i];
      assert directory[..i + 1] == directory[..i] + [path];
      if naming.KindOf(path) == Dll {
        var name := naming.Folded(path);
        if name in result {
          var j :| 0 <= j < i && directory[..i][j] == result[name];
          assert directory[j] == result[name];
          return None;
        }
        result := result[name := path];
      }
    }
    assert directory[..|directory|] == directory;
    index := Some(result);
  }

  // ------------------------------------------------------------------------- sources

  /** `directory` has a DLL of that folded name. */
  ghost predicate HasName(naming: Naming, directory: seq<File>, name: string) {
    exists i :: 0 <= i < |directory| && naming.KindOf(directory[i]) == Dll && naming.Folded(directory[i]) == name
  }

  /** The file is a DLL of one of the directories. */
  ghost predicate IsSource(naming: Naming, directories: seq<seq<File>>, file: File) {
    naming.KindOf(file) == Dll && exists d :: 0 <= d < |directories| && file in directories[d]
  }

  /** Same folded name, same content, wherever found. */
  ghost predicate Consistent(naming: Naming, directories: seq<seq<File>>) {
    forall file, other ::
      (IsSource(naming, directories, file) && IsSource(naming, directories, other)
       && naming.Folded(file) == naming.Folded(other)) ==>
        file.content == other.content
  }

  /** The file is of the last directory with a DLL of that name. */
  ghost predicate ProvidedLast(naming: Naming, directories: seq<seq<File>>, name: string, file: File) {
    exists d :: 0 <= d < |directories| && file in directories[d]
      && forall e :: d < e < |directories| ==> !HasName(naming, directories[e], name)
  }

  /** The last directory with a DLL of a name provides it; every DLL found has the content of the one provided. */
  ghost predicate Provides(naming: Naming, sources: Index, directories: seq<seq<File>>) {
    && (forall name :: name in sources ==> naming.KindOf(sources[name]) == Dll && naming.Folded(sources[name]) == name)
    && (forall name :: name in sources ==> ProvidedLast(naming, directories, name, sources[name]))
    && (forall file :: IsSource(naming, directories, file) ==>
          naming.Folded(file) in sources && sources[naming.Folded(file)].content == file.content)
  }

  datatype Lookup = Found(sources: Index) | DuplicateName | ConflictingSources

  /** One directory's index agrees with what was found before. */
  ghost predicate Agrees(index: Index, sources: Index) {
    forall name :: name in index && name in sources ==> index[name].content == sources[name].content
  }

  /** The loop over one directory's index. */
  method MergeIndex(index: Index, sources: Index) returns (merged: Option<Index>)
    ensures merged.Some? <==> Agrees(index, sources)
    ensures merged.Some? ==> merged.value == sources + index
  {
    var result := sources;
    var left := index.Keys;
    while left != {}
      invariant left <= index.Keys
      invariant forall name :: name in index && name !in left && name in sources ==>
                  index[name].content == sources[name].content
      invariant result == sources + map name | name in index && name !in left :: index[name]
      decreases left
    {
      var name :| name in left;
      if name in result && result[name].content != index[name].content {
        return None;
      }
      result := result[name := index[name]];
      left := left - {name};
    }
    assert (map name | name in index && name !in left :: index[name]) == index;
    merged := Some(result);
  }

  lemma {:induction false} IsSourceSnoc(naming: Naming, directories: seq<seq<File>>, directory: seq<File>, file: File)
    ensures IsSource(naming, directories + [directory], file) <==>
            IsSource(naming, directories, file) || (naming.KindOf(file) == Dll && file in directory)
  {
    var more := directories + [directory];
    assert more[|directories|] == directory;
    assert forall d :: 0 <= d < |directories| ==> more[d] == directories[d];
  }

  lemma {:induction false} ProvidedStays(naming: Naming, directories: seq<seq<File>>, directory: seq<File>,
                                         name: string, file: File)
    requires ProvidedLast(naming, directories, name, file) && !HasName(naming, directory, name)
    ensures ProvidedLast(naming, directories + [directory], name, file)
  {
    var more := directories + [directory];
    var d :| 0 <= d < |directories| && file in directories[d]
      && forall e :: d < e < |directories| ==> !HasName(naming, directories[e], name);
    assert file in more[d];
  }

  lemma {:induction false} ProvidedNow(naming: Naming, directories: seq<seq<File>>, directory: seq<File>,
                                       name: string, file: File)
    requires file in directory
    ensures ProvidedLast(naming, directories + [directory], name, file)
  {
    assert file in (directories + [directory])[|directories|];
  }

  lemma {:induction false} MergedProvides(naming: Naming, directories: seq<seq<File>>, directory: seq<File>,
                                          sources: Index, index: Index)
    requires Provides(naming, sources, directories) && Indexes(naming, index, directory) && Agrees(index, sources)
    ensures Provides(naming, sources + index, directories + [directory])
  {
    var more, merged := directories + [directory], sources + index;
    forall name | name in merged ensures ProvidedLast(naming, more, name, merged[name]) {
      if name in index {
        ProvidedNow(naming, directories, directory, name, merged[name]);
      } else {
        ProvidedStays(naming, directories, directory, name, merged[name]);
      }
    }
    forall file | IsSource(naming, more, file)
      ensures naming.Folded(file) in merged && merged[naming.Folded(file)].content == file.content
    {
      IsSourceSnoc(naming, directories, directory, file);
    }
  }

  lemma {:induction false} ConsistentSnoc(naming: Naming, directories: seq<seq<File>>, directory: seq<File>,
                                          sources: Index, index: Index)
    requires Provides(naming, sources, directories) && Indexes(naming, index, directory)
    requires Consistent(naming, directories)
    ensures Consistent(naming, directories + [directory]) <==> Agrees(index, sources)
  {
    var more := directories + [directory];
    if Agrees(index, sources) {
      MergedProvides(naming, directories, directory, sources, index);
    }
    if Consistent(naming, more) {
      forall name | name in index && name in sources ensures index[name].content == sources[name].content {
        IsSourceSnoc(naming, directories, directory, index[name]);
        IsSourceSnoc(naming, directories, directory, sources[name]);
      }
    }
  }

  /** Everything is fine with the first `d` directories. */
  ghost predicate Gathered(naming: Naming, directories: seq<seq<File>>, d: nat, sources: Index) {
    && d <= |directories| && Provides(naming, sources, directories[..d]) && Consistent(naming, directories[..d])
  }

  lemma {:induction false} GatherStep(naming: Naming, directories: seq<seq<File>>, d: nat, sources: Index, index: Index)
    requires d < |directories| && Gathered(naming, directories, d, sources) && Indexes(naming, index, directories[d])
    ensures Agrees(index, sources) ==> Gathered(naming, directories, d + 1, sources + index)
    ensures !Agrees(index, sources) ==> !Consistent(naming, directories)
  {
    var more := directories[..d + 1];
    assert more == directories[..d] + [directories[d]];
    ConsistentSnoc(naming, directories[..d], directories[d], sources, index);
    if Agrees(index, sources) {
      MergedProvides(naming, directories[..d], directories[d], sources, index);
    }
  }

  /** `dll_sources` */
  method DllSources(naming: Naming, directories: seq<seq<File>>) returns (lookup: Lookup)
    ensures lookup.Found? <==>
            Consistent(naming, directories) && forall d :: 0 <= d < |directories| ==>
              DistinctDlls(naming, directories[d])
    ensures lookup.Found? ==> Provides(naming, lookup.sources, directories)
  {
    var sources: Index := map[];
    for d := 0 to |directories|
      invariant Gathered(naming, directories, d, sources)
      invariant forall e :: 0 <= e < d ==> DistinctDlls(naming, directories[e])
    {
      var index := IndexDlls(naming, directories[d]);
      if index.None? {
        return DuplicateName;
      }
      GatherStep(naming, directories, d, sources, index.value);
      var merged := MergeIndex(index.value, sources);
      if merged.None? {
        return ConflictingSources;
      }
      sources := merged.value;
    }
    assert directories[..|directories|] == directories;
    lookup := Found(sources);
  }
}
