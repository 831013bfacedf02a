// The program a test runs in (`run_one_test` of `mux-compiler/src/main.rs`) and
// `map_coverage_location`, which takes its lines back to the tested file.
// Texts are byte sequences here; a line number is one plus the newlines before.
module CoverageLines {
  import opened Options
  import opened CoverageBlanking

  const USIZE_MAX: nat := 0xFFFF_FFFF_FFFF_FFFF

  /** The line of byte `o`. */
  function LineAt(bytes: seq<nat>, o: nat): (line: nat)
    requires o <= |bytes|
    ensures 1 <= line <= o + 1
  {
    if o == 0 then 1 else LineAt(bytes, o - 1) + if bytes[o - 1] == NEWLINE then 1 else 0
  }

  function LastLine(bytes: seq<nat>): nat {
    LineAt(bytes, |bytes|)
  }

  lemma {:induction false} LineInPrefix(left: seq<nat>, right: seq<nat>, o: nat)
    requires o <= |left|
    ensures LineAt(left + right, o) == LineAt(left, o)
    decreases o
  {
    if o > 0 {
      LineInPrefix(left, right, o - 1);
    }
  }

  lemma {:induction false} LineBehind(left: seq<nat>, right: seq<nat>, q: nat)
    requires q <= |right|
    ensures LineAt(left + right, |left| + q) == LastLine(left) + LineAt(right, q) - 1
    decreases q
  {
    if q == 0 {
      LineInPrefix(left, right, |left|);
    } else {
      LineBehind(left, right, q - 1);
      assert (left + right)[|left| + q - 1] == right[q - 1];
    }
  }

  lemma {:induction false} LinesIncrease(bytes: seq<nat>, a: nat, b: nat)
    requires a <= b <= |bytes|
    ensures LineAt(bytes, a) <= LineAt(bytes, b)
    decreases b
  {
    if a < b {
      LinesIncrease(bytes, a, b - 1);
    }
  }

  /** A later line, counted from an earlier one. */
  lemma {:induction false} LineFrom(source: seq<nat>, part: seq<nat>, from: nat, q: nat)
    requires from + |part| <= |source| && source[from..from + |part|] == part && q <= |part|
    ensures LineAt(source, from + q) == LineAt(source, from) + LineAt(part, q) - 1
    decreases q
  {
    if q > 0 {
      LineFrom(source, part, from, q - 1);
      assert part[q - 1] == source[from..from + |part|][q - 1];
    }
  }

  /** Blanking keeps every byte on its line. */
  lemma {:induction false} BlankingKeepsLines(before: seq<nat>, after: seq<nat>, ranges: seq<(nat, nat)>, o: nat)
    requires Blanked(before, after, ranges) && o <= |before|
    ensures LineAt(after, o) == LineAt(before, o)
    decreases o
  {
    if o > 0 {
      BlankingKeepsLines(before, after, ranges, o - 1);
    }
  }

  // -------------------------------------------------------------------- renaming

  /** The bytes of ASCII text. */
  function Ascii(text: string): (bytes: seq<nat>)
    ensures |bytes| == |text| && forall i :: 0 <= i < |text| ==> bytes[i] == text[i] as int
  {
    seq(|text|, i requires 0 <= i < |text| => text[i] as int)
  }

  ghost predicate OneLine(bytes: seq<nat>) {
    NEWLINE !in bytes
  }

  lemma {:induction false} OneLineStays(bytes: seq<nat>, o: nat)
    requires OneLine(bytes) && o <= |bytes|
    ensures LineAt(bytes, o) == 1
    decreases o
  {
    if o > 0 {
      OneLineStays(bytes, o - 1);
    }
  }

  /** The name of the function to be renamed, and the new name. */
  datatype Names = Names(main: seq<nat>, original: seq<nat>)

  const NAMES: Names := Names(Ascii("main"), Ascii("__mux_original_main"))

  ghost predicate NamesOneLine(names: Names) {
    OneLine(names.main) && OneLine(names.original)
  }

  lemma {:induction false} NamesAreOneLine()
    ensures NamesOneLine(NAMES)
  {
    assert '\n' !in "main";
    assert '\n' !in "__mux_original_main";
  }

  /** Where the parser found the name of a function `main`, if anywhere. */
  ghost predicate NamesMain(names: Names, text: seq<nat>, main: Option<nat>) {
    main.Some? ==> main.value + |names.main| <= |text| && text[main.value..main.value + |names.main|] == names.main
  }

  /** `rename_main_declaration` */
  function RenameMain(names: Names, text: seq<nat>, main: Option<nat>): seq<nat>
    requires NamesMain(names, text, main)
  {
    if main.None? then text
    else text[..main.value] + names.original + text[main.value + |names.main|..]
  }

  /** Renaming puts the other name in the place of `main` and changes nothing else. */
  lemma {:induction false} RenamesOnlyMain(text: seq<nat>, at: nat)
    requires NamesMain(NAMES, text, Some(at))
    ensures var renamed := RenameMain(NAMES, text, Some(at));
            && at + 19 <= |renamed| == |text| + 15 && renamed[at..at + 19] == Ascii("__mux_original_main")
            && renamed[..at] == text[..at] && renamed[at + 19..] == text[at + 4..]
  {
    assert |Ascii("main")| == 4 && |Ascii("__mux_original_main")| == 19;
  }

  /** The byte of the text that a byte of the renamed text came from. */
  function Origin(names: Names, main: Option<nat>, o: nat): nat {
    if main.None? || o <= main.value then o
    else if o < main.value + |names.original| then main.value
    else o - |names.original| + |names.main|
  }

  lemma {:induction false} LineBefore(left: seq<nat>, word: seq<nat>, right: seq<nat>, o: nat)
    requires o <= |left|
    ensures LineAt(left + word + right, o) == LineAt(left, o)
  {
    LineInPrefix(left + word, right, o);
    LineInPrefix(left, word, o);
  }

  lemma {:induction false} LineOfWord(left: seq<nat>, word: seq<nat>, right: seq<nat>, q: nat)
    requires OneLine(word) && q <= |word|
    ensures LineAt(left + word + right, |left| + q) == LastLine(left)
  {
    LineInPrefix(left + word, right, |left| + q);
    LineBehind(left, word, q);
    OneLineStays(word, q);
  }

  lemma {:induction false} LineAfter(left: seq<nat>, word: seq<nat>, right: seq<nat>, q: nat)
    requires OneLine(word) && q <= |right|
    ensures LineAt(left + word + right, |left| + |word| + q) == LastLine(left) + LineAt(right, q) - 1
  {
    LineBehind(left + word, right, q);
    LineBehind(left, word, |word|);
    OneLineStays(word, |word|);
  }

  /** One word for another, neither with a line break: nothing changes its line. */
  lemma {:induction false} OtherWordKeepsLines(left: seq<nat>, word: seq<nat>, other: seq<nat>, right: seq<nat>,
                                               o: nat, origin: nat)
    requires OneLine(word) && OneLine(other) && o <= |left + other + right|
    requires origin == if o <= |left| then o else if o < |left| + |other| then |left| else o - |other| + |word|
    ensures origin <= |left + word + right|
    ensures LineAt(left + other + right, o) == LineAt(left + word + right, origin)
  {
    if o <= |left| {
      LineBefore(left, word, right, o);
      LineBefore(left, other, right, o);
    } else if o < |left| + |other| {
      LineOfWord(left, other, right, o - |left|);
      LineOfWord(left, word, right, 0);
    } else {
      LineAfter(left, other, right, o - |left| - |other|);
      LineAfter(left, word, right, o - |left| - |other|);
    }
  }

  /** Also at the end. */
  lemma {:induction false} OtherWordKeepsEnd(left: seq<nat>, word: seq<nat>, other: seq<nat>, right: seq<nat>)
    requires OneLine(word) && OneLine(other)
    ensures LastLine(left + other + right) == LastLine(left + word + right)
  {
    LineAfter(left, other, right, |right|);
    LineAfter(left, word, right, |right|);
  }

  /** Renaming moves bytes but changes no line. */
  lemma {:induction false} RenamingKeepsLines(names: Names, text: seq<nat>, main: Option<nat>, o: nat)
    requires NamesOneLine(names) && NamesMain(names, text, main) && o <= |RenameMain(names, text, main)|
    ensures Origin(names, main, o) <= |text|
    ensures LineAt(RenameMain(names, text, main), o) == LineAt(text, Origin(names, main, o))
    ensures o == |RenameMain(names, text, main)| ==> LineAt(text, Origin(names, main, o)) == LastLine(text)
  {
    if main.Some? {
      var left, right := text[..main.value], text[main.value + |names.main|..];
      assert text == left + names.main + right;
      OtherWordKeepsLines(left, names.main, names.original, right, o, Origin(names, main, o));
      OtherWordKeepsEnd(left, names.main, names.original, right);
    }
  }

  // -------------------------------------------------------------------- assembly

  /** The runner's own lines: the declaration before the body and, on new lines, what follows it. */
  datatype Scaffold = Scaffold(declaration: seq<nat>, ending: seq<nat>)

  const SCAFFOLD: Scaffold := Scaffold(
    Ascii("func __mux_test_body() returns void {"),
    Ascii("  return\n}\n\nfunc main() returns void {\n  __mux_test_body()\n  return\n}\n"))

  lemma {:induction false} DeclarationIsOneLine()
    ensures OneLine(SCAFFOLD.declaration)
  {
    assert '\n' !in "func __mux_test_body() returns void {";
  }

  /** Two line breaks with the declaration between them. */
  function Front(scaffold: Scaffold, renamed: seq<nat>): seq<nat> {
    renamed + ([NEWLINE] + scaffold.declaration) + [NEWLINE]
  }

  function Program(scaffold: Scaffold, renamed: seq<nat>, body: seq<nat>): seq<nat> {
    Front(scaffold, renamed) + body + ([NEWLINE] + scaffold.ending)
  }

  /** The counting expressions of `run_one_test`. */
  method CountNewlines(bytes: seq<nat>) returns (count: nat)
    ensures count + 1 == LastLine(bytes)
  {
    count := 0;
    for i := 0 to |bytes|
      invariant count + 1 == LineAt(bytes, i)
    {
      if bytes[i] == NEWLINE {
        count := count + 1;
      }
    }
  }

  /** The program of `run_one_test`, with the line its body starts on and the first line past the body. */
  method AssembleTest(sourceWithoutTests: seq<nat>, main: Option<nat>, body: seq<nat>)
    returns (generated: seq<nat>, generatedBodyLine: nat, generatedWrapperLine: nat)
    requires NamesMain(NAMES, sourceWithoutTests, main)
    ensures var renamed := RenameMain(NAMES, sourceWithoutTests, main);
            && generated == Program(SCAFFOLD, renamed, body)
            && generatedBodyLine == LineAt(generated, |Front(SCAFFOLD, renamed)|)
            && generatedWrapperLine == LineAt(generated, |Front(SCAFFOLD, renamed)| + |body|) + 1
  {
    var renamed := RenameMain(NAMES, sourceWithoutTests, main);
    var front := Front(SCAFFOLD, renamed);
    var newlines := CountNewlines(front);
    generatedBodyLine := newlines + 1;
    generated := front + body;
    newlines := CountNewlines(generated);
    generatedWrapperLine := newlines + 2;
    LineInPrefix(generated, [NEWLINE] + SCAFFOLD.ending, |front|);
    LineInPrefix(front, body, |front|);
    LineInPrefix(generated, [NEWLINE] + SCAFFOLD.ending, |front| + |body|);
    generated := generated + ([NEWLINE] + SCAFFOLD.ending);
  }

  // --------------------------------------------------------------------- mapping

  function SaturatingAdd(a: nat, b: nat): nat {
    if a + b > USIZE_MAX then USIZE_MAX else a + b
  }

  /** What a test result remembers about its generated program. */
  datatype Placement = Placement(file: string, generatedBodyLine: Option<nat>, originalBodyLine: Option<nat>,
                                 wrapperLine: Option<nat>)

  /** `map_coverage_location`; `temporary` says that the recorded path is the generated program's. */
  function MapCoverageLocation(placement: Placement, temporary: bool, recorded: string,
                               line: nat): Option<(string, nat)> {
    if !temporary then Some((recorded, line))
    else if placement.wrapperLine.Some? && line >= placement.wrapperLine.value then None
    else if placement.generatedBodyLine.Some? && placement.originalBodyLine.Some?
            && line >= placement.generatedBodyLine.value then
      Some((placement.file, SaturatingAdd(placement.originalBodyLine.value, line - placement.generatedBodyLine.value)))
    else
      Some((placement.file, line))
  }

  // --------------------------------------------------------------------- results

  // What another file than the generated program recorded stays where it is, whatever the test
  // remembers; the generated program's lines are all the tested file's or dropped.
  lemma {:induction false} OtherFilesStay(placement: Placement, recorded: string, line: nat)
    ensures MapCoverageLocation(placement, false, recorded, line) == Some((recorded, line))
    ensures MapCoverageLocation(placement, true, recorded, line) == None <==>
            exists wrapper :: placement.wrapperLine == Some(wrapper) && wrapper <= line
    ensures MapCoverageLocation(placement, true, recorded, line).Some? ==>
              MapCoverageLocation(placement, true, recorded, line).value.0 == placement.file
    ensures MapCoverageLocation(placement, true, recorded, line).Some?
            && (placement.generatedBodyLine.None? || placement.originalBodyLine.None?) ==>
              MapCoverageLocation(placement, true, recorded, line).value.1 == line
  {
    if placement.wrapperLine.Some? {
      assert placement.wrapperLine == Some(placement.wrapperLine.value);
    }
  }

  lemma {:induction false} FrontLines(scaffold: Scaffold, renamed: seq<nat>, o: nat)
    requires OneLine(scaffold.declaration) && o <= |Front(scaffold, renamed)|
    ensures |Front(scaffold, renamed)| == |renamed| + 2 + |scaffold.declaration|
    ensures LineAt(Front(scaffold, renamed), o) ==
            if o <= |renamed| then LineAt(renamed, o)
            else if o < |Front(scaffold, renamed)| then LastLine(renamed) + 1
            else LastLine(renamed) + 2
  {
    var header := [NEWLINE] + scaffold.declaration;
    var start := renamed + header;
    HeaderLines(renamed, scaffold.declaration, |start|);
    if o <= |start| {
      LineInPrefix(start, [NEWLINE], o);
      HeaderLines(renamed, scaffold.declaration, o);
    } else {
      LineBehind(start, [NEWLINE], 1);
    }
  }

  lemma {:induction false} HeaderLines(renamed: seq<nat>, declaration: seq<nat>, o: nat)
    requires OneLine(declaration) && o <= |renamed + ([NEWLINE] + declaration)|
    ensures LineAt(renamed + ([NEWLINE] + declaration), o) ==
              if o <= |renamed| then LineAt(renamed, o) else LastLine(renamed) + 1
  {
    var header := [NEWLINE] + declaration;
    if o <= |renamed| {
      LineInPrefix(renamed, header, o);
    } else {
      LineBehind(renamed, header, o - |renamed|);
      LineBehind([NEWLINE], declaration, o - |renamed| - 1);
      OneLineStays(declaration, o - |renamed| - 1);
    }
  }

  /** Front, body and a tail that starts on a new line. */
  ghost predicate Assembled(generated: seq<nat>, front: seq<nat>, body: seq<nat>, tail: seq<nat>) {
    tail != [] && tail[0] == NEWLINE && generated == front + body + tail
  }

  lemma {:induction false} LinesInBody(generated: seq<nat>, front: seq<nat>, body: seq<nat>, tail: seq<nat>, q: nat)
    requires Assembled(generated, front, body, tail) && q <= |body|
    ensures LineAt(generated, |front| + q) == LastLine(front) + LineAt(body, q) - 1
  {
    LineInPrefix(front + body, tail, |front| + q);
    LineBehind(front, body, q);
  }

  lemma {:induction false} LinesInTail(generated: seq<nat>, front: seq<nat>, body: seq<nat>, tail: seq<nat>, r: nat)
    requires Assembled(generated, front, body, tail) && 0 < r <= |tail|
    ensures LineAt(generated, |front| + |body| + r) >= LastLine(front) + LastLine(body)
  {
    LineBehind(front + body, tail, r);
    LineBehind(front, body, |body|);
    LinesIncrease(tail, 1, r);
  }

  /** The lines a test result records. */
  ghost predicate Records(placement: Placement, generated: seq<nat>, bodyAt: nat, bodyLength: nat) {
    && bodyAt + bodyLength <= |generated|
    && placement.generatedBodyLine == Some(LineAt(generated, bodyAt))
    && placement.wrapperLine == Some(LineAt(generated, bodyAt + bodyLength) + 1)
  }

  lemma {:induction false} RecordedLines(generated: seq<nat>, front: seq<nat>, body: seq<nat>, tail: seq<nat>,
                                         placement: Placement)
    requires Assembled(generated, front, body, tail) && Records(placement, generated, |front|, |body|)
    ensures placement.generatedBodyLine == Some(LastLine(front))
    ensures placement.wrapperLine == Some(LastLine(front) + LastLine(body))
  {
    LinesInBody(generated, front, body, tail, 0);
    LinesInBody(generated, front, body, tail, |body|);
  }

  /** What comes before the body's first line keeps its line. */
  lemma {:induction false} FrontMaps(generated: seq<nat>, front: seq<nat>, body: seq<nat>, tail: seq<nat>,
                                     placement: Placement, recorded: string, o: nat)
    requires Assembled(generated, front, body, tail) && Records(placement, generated, |front|, |body|)
    requires o <= |front| && LineAt(front, o) < LastLine(front)
    ensures LineAt(generated, o) == LineAt(front, o)
    ensures MapCoverageLocation(placement, true, recorded, LineAt(front, o)) == Some((placement.file, LineAt(front, o)))
  {
    RecordedLines(generated, front, body, tail, placement);
    LineInPrefix(front + body, tail, o);
    LineInPrefix(front, body, o);
  }

  /** The body's lines are moved to where the body is in the source. */
  lemma {:induction false} BodyMaps(generated: seq<nat>, front: seq<nat>, body: seq<nat>, tail: seq<nat>,
                                    placement: Placement, recorded: string, source: seq<nat>, bodyStart: nat, q: nat)
    requires Assembled(generated, front, body, tail) && Records(placement, generated, |front|, |body|)
    requires bodyStart + |body| <= |source| < USIZE_MAX && source[bodyStart..bodyStart + |body|] == body && q <= |body|
    requires placement.originalBodyLine == Some(LineAt(source, bodyStart))
    ensures MapCoverageLocation(placement, true, recorded, LineAt(generated, |front| + q)) ==
            Some((placement.file, LineAt(source, bodyStart + q)))
  {
    RecordedLines(generated, front, body, tail, placement);
    LinesInBody(generated, front, body, tail, q);
    LineFrom(source, body, bodyStart, q);
    LinesIncrease(body, q, |body|);
  }

  /** What follows the body has no line in the source. */
  lemma {:induction false} TailMaps(generated: seq<nat>, front: seq<nat>, body: seq<nat>, tail: seq<nat>,
                                    placement: Placement, recorded: string, r: nat)
    requires Assembled(generated, front, body, tail) && Records(placement, generated, |front|, |body|)
    requires 0 < r <= |tail|
    ensures MapCoverageLocation(placement, true, recorded, LineAt(generated, |front| + |body| + r)) == None
  {
    RecordedLines(generated, front, body, tail, placement);
    LinesInTail(generated, front, body, tail, r);
  }

  /** A test's source, its blanked form, and where its body and a `main` to be renamed are. */
  datatype Test = Test(source: seq<nat>, blanked: seq<nat>, main: Option<nat>, bodyStart: nat, bodyEnd: nat)

  /** What the runner adds. */
  datatype Runner = Runner(names: Names, scaffold: Scaffold)

  const RUNNER: Runner := Runner(NAMES, SCAFFOLD)

  lemma {:induction false} RunnerIsGood()
    ensures GoodRunner(RUNNER)
  {
    NamesAreOneLine();
    DeclarationIsOneLine();
  }

  ghost predicate GoodRunner(runner: Runner) {
    NamesOneLine(runner.names) && OneLine(runner.scaffold.declaration)
  }

  ghost predicate IsTest(runner: Runner, test: Test, ranges: seq<(nat, nat)>) {
    && Blanked(test.source, test.blanked, ranges) && NamesMain(runner.names, test.blanked, test.main)
    && test.bodyStart <= test.bodyEnd <= |test.source| < USIZE_MAX
  }

  ghost function Renamed(runner: Runner, test: Test): seq<nat>
    requires NamesMain(runner.names, test.blanked, test.main)
  {
    RenameMain(runner.names, test.blanked, test.main)
  }

  ghost function Body(test: Test): seq<nat>
    requires test.bodyStart <= test.bodyEnd <= |test.source|
  {
    test.source[test.bodyStart..test.bodyEnd]
  }

  ghost function Generated(runner: Runner, test: Test, ranges: seq<(nat, nat)>): seq<nat>
    requires IsTest(runner, test, ranges)
  {
    Program(runner.scaffold, Renamed(runner, test), Body(test))
  }

  /** Where the body starts in the generated program. */
  ghost function BodyAt(runner: Runner, test: Test, ranges: seq<(nat, nat)>): nat
    requires IsTest(runner, test, ranges)
  {
    |Front(runner.scaffold, Renamed(runner, test))|
  }

  /** The lines `run_one_test` records, with the body's first line in the source. */
  ghost predicate Places(placement: Placement, runner: Runner, test: Test, ranges: seq<(nat, nat)>)
    requires IsTest(runner, test, ranges)
  {
    && Records(placement, Generated(runner, test, ranges), BodyAt(runner, test, ranges), |Body(test)|)
    && placement.originalBodyLine == Some(LineAt(test.source, test.bodyStart))
  }

  /** The generated program is in the form that lines are mapped back from. */
  lemma {:induction false} GeneratedIsAssembled(runner: Runner, test: Test, ranges: seq<(nat, nat)>,
                                                placement: Placement)
    requires IsTest(runner, test, ranges) && Places(placement, runner, test, ranges)
    ensures var front, tail := Front(runner.scaffold, Renamed(runner, test)), [NEWLINE] + runner.scaffold.ending;
            && Assembled(Generated(runner, test, ranges), front, Body(test), tail)
            && Records(placement, Generated(runner, test, ranges), |front|, |Body(test)|)
            && |Generated(runner, test, ranges)| == |front| + |Body(test)| + |tail|
  {
  }

  /** Lines of the front, before the body's first. */
  lemma {:induction false} FrontLinesBack(runner: Runner, test: Test, ranges: seq<(nat, nat)>, o: nat)
    requires GoodRunner(runner) && IsTest(runner, test, ranges) && o < BodyAt(runner, test, ranges)
    ensures |Renamed(runner, test)| < BodyAt(runner, test, ranges)
    ensures o <= |Renamed(runner, test)| ==> Origin(runner.names, test.main, o) <= |test.source|
    ensures var front := Front(runner.scaffold, Renamed(runner, test));
            LineAt(front, o) < LastLine(front) && LineAt(front, o) ==
              if o <= |Renamed(runner, test)| then LineAt(test.source, Origin(runner.names, test.main, o))
              else LastLine(test.source) + 1
  {
    var renamed := Renamed(runner, test);
    FrontLines(runner.scaffold, renamed, o);
    FrontLines(runner.scaffold, renamed, |Front(runner.scaffold, renamed)|);
    RenamingKeepsLines(runner.names, test.blanked, test.main, |renamed|);
    BlankingKeepsLines(test.source, test.blanked, ranges, |test.source|);
    if o <= |renamed| {
      RenamingKeepsLines(runner.names, test.blanked, test.main, o);
      BlankingKeepsLines(test.source, test.blanked, ranges, Origin(runner.names, test.main, o));
      LinesIncrease(renamed, o, |renamed|);
    }
  }

  // Code outside tests keeps the line it has in the source; the scaffolding before the body gets
  // the line after the last.
  lemma {:induction false} FrontMapsBack(runner: Runner, test: Test, ranges: seq<(nat, nat)>, placement: Placement,
                                         recorded: string, o: nat)
    requires GoodRunner(runner) && IsTest(runner, test, ranges) && Places(placement, runner, test, ranges)
    requires o < BodyAt(runner, test, ranges)
    ensures |Renamed(runner, test)| < BodyAt(runner, test, ranges) <= |Generated(runner, test, ranges)|
    ensures o <= |Renamed(runner, test)| ==> Origin(runner.names, test.main, o) <= |test.source|
    ensures MapCoverageLocation(placement, true, recorded, LineAt(Generated(runner, test, ranges), o)) ==
            Some((placement.file,
                  if o <= |Renamed(runner, test)| then LineAt(test.source, Origin(runner.names, test.main, o))
                                  else LastLine(test.source) + 1))
  {
    FrontLinesBack(runner, test, ranges, o);
    GeneratedIsAssembled(runner, test, ranges, placement);
    FrontMaps(Generated(runner, test, ranges), Front(runner.scaffold, Renamed(runner, test)), Body(test),
              [NEWLINE] + runner.scaffold.ending, placement, recorded, o);
  }

  /** The body's code gets the line it has in the source. */
  lemma {:induction false} BodyMapsBack(runner: Runner, test: Test, ranges: seq<(nat, nat)>, placement: Placement,
                                        recorded: string, q: nat)
    requires IsTest(runner, test, ranges) && Places(placement, runner, test, ranges) && q <= |Body(test)|
    ensures BodyAt(runner, test, ranges) + q <= |Generated(runner, test, ranges)|
    ensures MapCoverageLocation(placement, true, recorded,
                                LineAt(Generated(runner, test, ranges), BodyAt(runner, test, ranges) + q)) ==
            Some((placement.file, LineAt(test.source, test.bodyStart + q)))
  {
    GeneratedIsAssembled(runner, test, ranges, placement);
    BodyMaps(Generated(runner, test, ranges), Front(runner.scaffold, Renamed(runner, test)), Body(test),
             [NEWLINE] + runner.scaffold.ending, placement, recorded, test.source, test.bodyStart, q);
  }

  /** Scaffolding behind the body has no line; and no user code is there. */
  lemma {:induction false} TailMapsBack(runner: Runner, test: Test, ranges: seq<(nat, nat)>, placement: Placement,
                                        recorded: string, o: nat)
    requires IsTest(runner, test, ranges) && Places(placement, runner, test, ranges)
    requires BodyAt(runner, test, ranges) + |Body(test)| < o <= |Generated(runner, test, ranges)|
    ensures MapCoverageLocation(placement, true, recorded, LineAt(Generated(runner, test, ranges), o)) == None
  {
    TailMaps(Generated(runner, test, ranges), Front(runner.scaffold, Renamed(runner, test)), Body(test),
             [NEWLINE] + runner.scaffold.ending, placement, recorded, o - BodyAt(runner, test, ranges) - |Body(test)|);
  }
}
