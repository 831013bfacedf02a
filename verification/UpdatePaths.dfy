/** Installation paths, receipts and staging names of `mux-update`, Unix branch. */
module UpdatePaths {
  import opened Options

  /** An absolute canonical path, component by component. */
  type Path = seq<string>

  datatype Area = Bin | Lib

  datatype OwnedFile = OwnedFile(area: Area, name: string)

  datatype Receipt = Receipt(
    schema: int,
    target: string,
    version: string,
    binDir: Path,
    libDir: Path,
    files: seq<OwnedFile>)

  /** What a file holds; a serialised receipt reads back as itself. */
  datatype Content = Data(bytes: string) | ReceiptText(receipt: Receipt)

  type Files = map<Path, Content>

  /** What `validate_target` of the platform and `Version::parse` accept. */
  datatype Syntax = Syntax(target: string -> bool, version: string -> bool)

  const RECEIPT := ".mux-install.json"
  const LAUNCHER := OwnedFile(Bin, "mux")
  const REQUIRED := {OwnedFile(Lib, "libmux_runtime.a"), OwnedFile(Lib, "libmux_runtime.so")}

  function Get(files: Files, path: Path): Option<Content> {
    if path in files then Some(files[path]) else None
  }

  predicate HasMuxPrefix(name: string) {
    |name| >= 5 && name[..5] == ".mux-"
  }

  predicate HasStagePrefix(name: string) {
    |name| >= 12 && name[..12] == ".mux-update-"
  }

  /** `validate_name` */
  predicate ValidName(name: string) {
    && name != "" && name != "." && name != ".."
    && '/' !in name && '\\' !in name && ':' !in name
    && !HasMuxPrefix(name)
  }

  /** Names are safe exactly if they are one component, none of the special ones, and none of the updater's own. */
  lemma {:induction false} SafeNames(name: string)
    ensures ValidName(name) <==>
            && name !in ["", ".", ".."] && (forall c :: c in name ==> c !in ['/', '\\', ':'])
            && !(".mux-" <= name)
  {
    if ".mux-" <= name {
      assert name[..5] == ".mux-";
    }
  }

  /** `validate_ownership`: every name is safe and no destination is listed twice. */
  predicate ValidOwnership(files: seq<OwnedFile>) {
    && (forall i :: 0 <= i < |files| ==> ValidName(files[i].name))
    && (forall i, j :: 0 <= i < j < |files| ==> files[i] != files[j])
  }

  function Destination(receipt: Receipt, file: OwnedFile): Path {
    (if file.area.Bin? then receipt.binDir else receipt.libDir) + [file.name]
  }

  function ReceiptPath(receipt: Receipt): Path {
    receipt.binDir + [RECEIPT]
  }

  /** `path` lies in the directory `dir` or below it. */
  predicate Under(dir: Path, path: Path) {
    |dir| < |path| && path[..|dir|] == dir
  }

  // ------------------------------------------------------------ staging names

  function Digit(d: nat): char
    requires d < 10
  {
    ('0' as int + d) as char
  }

  function Decimal(n: nat): (text: string)
    ensures text != []
  {
    if n < 10 then [Digit(n)] else Decimal(n / 10) + [Digit(n % 10)]
  }

  function NewName(index: nat): string {
    "new-" + Decimal(index)
  }

  function OldName(index: nat): string {
    "old-" + Decimal(index)
  }

  const RECEIPT_NEW := "receipt-new"
  const RECEIPT_OLD := "receipt-old"

  lemma {:induction false} DecimalInjective(m: nat, n: nat)
    requires Decimal(m) == Decimal(n)
    ensures m == n
    decreases m
  {
    var s, t := Decimal(m), Decimal(n);
    assert s[|s| - 1] == Digit(m % 10) && t[|t| - 1] == Digit(n % 10);
    if m >= 10 && n >= 10 {
      assert s[..|s| - 1] == Decimal(m / 10) && t[..|t| - 1] == Decimal(n / 10);
      DecimalInjective(m / 10, n / 10);
    }
  }

  lemma {:induction false} StagingNamesDiffer(i: nat, j: nat)
    ensures NewName(i) != OldName(j)
    ensures NewName(i) == NewName(j) ==> i == j
    ensures OldName(i) == OldName(j) ==> i == j
  {
    assert NewName(i)[0] == 'n' && OldName(j)[0] == 'o';
    if NewName(i) == NewName(j) {
      assert NewName(i)[4..] == Decimal(i) && NewName(j)[4..] == Decimal(j);
      DecimalInjective(i, j);
    }
    if OldName(i) == OldName(j) {
      assert OldName(i)[4..] == Decimal(i) && OldName(j)[4..] == Decimal(j);
      DecimalInjective(i, j);
    }
  }

  lemma {:induction false} ReceiptNamesDiffer(i: nat)
    ensures RECEIPT_NEW != RECEIPT_OLD
    ensures RECEIPT_NEW != NewName(i) && RECEIPT_NEW != OldName(i)
    ensures RECEIPT_OLD != NewName(i) && RECEIPT_OLD != OldName(i)
  {
    assert NewName(i)[0] == 'n' && OldName(i)[0] == 'o';
    assert RECEIPT_NEW[0] == 'r' && RECEIPT_OLD[0] == 'r';
    assert RECEIPT_NEW[8] == 'n' && RECEIPT_OLD[8] == 'o';
  }

  /** Different owned files have different destinations, none of them the receipt. */
  lemma {:induction false} DestinationsDiffer(receipt: Receipt, left: OwnedFile, right: OwnedFile)
    requires receipt.binDir != receipt.libDir
    requires ValidName(left.name)
    ensures Destination(receipt, left) == Destination(receipt, right) ==> left == right
    ensures Destination(receipt, left) != ReceiptPath(receipt)
  {
    var l, r := Destination(receipt, left), Destination(receipt, right);
    assert l[..|l| - 1] == if left.area.Bin? then receipt.binDir else receipt.libDir;
    assert r[..|r| - 1] == if right.area.Bin? then receipt.binDir else receipt.libDir;
    assert l[|l| - 1] == left.name && r[|r| - 1] == right.name;
    assert ReceiptPath(receipt)[|ReceiptPath(receipt)| - 1] == RECEIPT;
    assert HasMuxPrefix(RECEIPT);
  }

  function StageDir(file: OwnedFile, binStage: Path, libStage: Path): Path {
    if file.area.Bin? then binStage else libStage
  }

  /** A staging directory made inside `parent` when `directories` existed. */
  predicate NewStage(stage: Path, parent: Path, directories: set<Path>) {
    && |stage| == |parent| + 1 && stage[..|parent|] == parent && HasStagePrefix(stage[|parent|])
    && forall dir :: dir in directories ==> dir != stage && !Under(stage, dir)
  }

  lemma {:induction false} StagePrefix(name: string)
    requires HasStagePrefix(name)
    ensures HasMuxPrefix(name) && name != RECEIPT
  {
    assert name[..5] == name[..12][..5];
    assert name[5] == name[..12][5] == 'u';
  }

  /** Neither an owned file nor the receipt is called like a staging directory. */
  lemma {:induction false} InstalledIsNoStage(dir: Path, name: string, stage: Path, parent: Path,
                                              directories: set<Path>)
    requires NewStage(stage, parent, directories) && (ValidName(name) || name == RECEIPT)
    ensures dir + [name] != stage
  {
    assert (dir + [name])[|dir|] == name;
    StagePrefix(stage[|parent|]);
  }

  /** What lies in a directory that existed does not lie in the new staging directory. */
  lemma {:induction false} InstalledIsNotStaged(dir: Path, name: string, stage: Path, parent: Path,
                                                directories: set<Path>)
    requires dir in directories && NewStage(stage, parent, directories)
    ensures !Under(stage, dir + [name])
  {
    var path := dir + [name];
    if |stage| <= |dir| {
      assert path[..|stage|] == dir[..|stage|];
    }
  }

  lemma {:induction false} StagedUnder(stage: Path, name: string)
    ensures Under(stage, stage + [name])
    ensures forall other, otherName :: stage + [name] == other + [otherName] ==> stage == other && name == otherName
  {
    forall other, otherName | stage + [name] == other + [otherName]
      ensures stage == other && name == otherName
    {
      assert (stage + [name])[..|stage|] == stage && (other + [otherName])[..|other|] == other;
      assert (stage + [name])[|stage|] == (other + [otherName])[|other|];
    }
  }
}
