/**
 Lines that the filter of the Nimbus report and `parse_lcov` do not read alike.  The filter looks for
 its markers at the start of the raw line and strips the path; the parser strips the line, takes the
 rest as the path and turns backslashes in it.  This module says from the text of a line when that
 makes no difference, and shows that every other line makes some report count wrongly.
 */
module IrregularLines {
  import opened Wrappers
  import opened PyString
  import opened Coverage
  import opened Lcov
  import opened LcovFilter
  import opened NimbusReport

  /********************************* What the text decides *********************************/

  lemma {:induction false} StripRightOfTail(s: string)
    requires StripRight(s) != ""
    ensures |StripRight(s[1..])| < |StripRight(s)|
  {
    if IsSpace(s[|s| - 1]) {
      assert s[..|s| - 1][1..] == s[1..][..|s| - 2];
      StripRightOfTail(s[..|s| - 1]);
      assert s[1..][|s| - 2] == s[|s| - 1];
    }
  }

  lemma {:induction false} StripShorter(s: string)
    ensures |Strip(s)| <= |StripRight(s)|
    decreases |s|
  {
    if s != "" && IsSpace(s[0]) {
      StripShorter(s[1..]);
      if StripRight(s) == "" {
        BlankStrips(s);
      } else {
        StripRightOfTail(s);
      }
    }
  }

  lemma {:induction false} BlankStrips(s: string)
    requires StripRight(s) == ""
    ensures Strip(s) == "" && (s != "" ==> IsSpace(s[0]) && StripRight(s[1..]) == "")
    decreases |s|
  {
    if s != "" {
      AllBlank(s);
      StripRightOfBlank(s[1..]);
      BlankStrips(s[1..]);
    }
  }

  lemma {:induction false} AllBlank(s: string)
    requires StripRight(s) == ""
    ensures forall i :: 0 <= i < |s| ==> IsSpace(s[i])
  {
    if s != "" {
      AllBlank(s[..|s| - 1]);
    }
  }

  lemma {:induction false} StripRightOfBlank(s: string)
    requires forall i :: 0 <= i < |s| ==> IsSpace(s[i])
    ensures StripRight(s) == ""
  {
    if s != "" {
      StripRightOfBlank(s[..|s| - 1]);
    }
  }

  lemma {:induction false} StripRightBehind(prefix: string, s: string)
    requires prefix != "" && !IsSpace(prefix[|prefix| - 1])
    ensures StripRight(prefix + s) == prefix + StripRight(s)
  {
    var all := prefix + s;
    if s == "" {
      assert all == prefix;
    } else if IsSpace(s[|s| - 1]) {
      assert all[..|all| - 1] == prefix + s[..|s| - 1];
      StripRightBehind(prefix, s[..|s| - 1]);
    }
  }

  /** What follows the marker of a file line, without the blanks at its end. */
  function PathText(raw: string): string
    requires "SF:" <= raw
  {
    StripRight(raw[3..])
  }

  /** The text of a file line gives the parser and the filter the same path. */
  predicate PlainPath(raw: string)
    requires "SF:" <= raw
  {
    '\\' !in PathText(raw) && (PathText(raw) != "" ==> !IsSpace(PathText(raw)[0]))
  }

  lemma FilePaths(raw: string, toInt: ToInt)
    requires "SF:" <= raw
    ensures Classify(raw, toInt).filter == StartsFile(Strip(raw[3..]))
    ensures Classify(raw, toInt).parser == SourceFile(NormalizePath(PathText(raw)))
  {
    assert raw == "SF:" + raw[3..];
    StripRightBehind("SF:", raw[3..]);
    assert Strip(raw) == "SF:" + PathText(raw);
    assert ("SF:" + PathText(raw))[3..] == PathText(raw);
  }

  /** Both programs see the same path exactly if the line has no blank before the path and no backslash in it. */
  lemma SamePathIff(raw: string, toInt: ToInt)
    requires "SF:" <= raw
    ensures var l := Classify(raw, toInt);
            l.filter.StartsFile? && l.parser.SourceFile? && (l.filter.path == l.parser.path <==> PlainPath(raw))
  {
    FilePaths(raw, toInt);
    NamedPathIff(raw[3..]);
  }

  lemma NamedPathIff(rest: string)
    ensures var p := StripRight(rest);
            Strip(rest) == NormalizePath(p) <==> '\\' !in p && (p != "" ==> !IsSpace(p[0]))
  {
    var p := StripRight(rest);
    StripRightKeepsHead(rest);
    if p == "" {
      BlankStrips(rest);
    } else if IsSpace(p[0]) {
      StripRightOfTail(rest);
      StripShorter(rest[1..]);
    } else {
      assert StripLeft(rest) == rest;
      NormalizeIff(p);
    }
  }

  lemma {:induction false} StripRightKeepsHead(s: string)
    ensures StripRight(s) != "" ==> s != "" && s[0] == StripRight(s)[0]
  {
    if s != "" && IsSpace(s[|s| - 1]) {
      StripRightKeepsHead(s[..|s| - 1]);
    }
  }

  lemma NormalizeIff(p: string)
    ensures NormalizePath(p) == p <==> '\\' !in p
  {
    if '\\' in p {
      var i :| 0 <= i < |p| && p[i] == '\\';
      assert NormalizePath(p)[i] == '/';
    }
  }

  /** Whether the two programs cut a report alike at a line, by its text. */
  predicate PlainCut(raw: string) {
    if "SF:" <= raw then true
    else if "end_of_record" <= raw then Strip(raw) == "end_of_record"
    else !("SF:" <= Strip(raw)) || Strip(raw) == "SF:"
  }

  lemma SafeIff(raw: string, toInt: ToInt)
    ensures Safe(Classify(raw, toInt)) <==> PlainCut(raw)
  {
    ViewsOfMarkers(raw, toInt);
    EndViews(raw, toInt);
    FileViews(raw, toInt);
  }

  lemma EndViews(raw: string, toInt: ToInt)
    ensures "end_of_record" <= raw && !("SF:" <= raw) ==>
              (Parsed(raw, toInt).EndOfRecord? <==> Strip(raw) == "end_of_record")
  {
    if "end_of_record" <= raw {
      StripKeepsPrefix(raw, "end_of_record");
    }
  }

  lemma FileViews(raw: string, toInt: ToInt)
    ensures var v := Parsed(raw, toInt); v.SourceFile? && v.path != "" <==> "SF:" <= Strip(raw) && Strip(raw) != "SF:"
  {
    var line := Strip(raw);
    if "SF:" <= line {
      assert line == "SF:" + line[3..];
    }
  }

  /** A line that both programs read alike, whatever the scope. */
  predicate Plain(raw: string) {
    PlainCut(raw) && ("SF:" <= raw ==> PlainPath(raw))
  }

  lemma PlainIsRegular(raw: string, scope: Matcher, toInt: ToInt)
    requires Plain(raw)
    ensures Regular(raw, scope, scope, toInt)
  {
    SafeIff(raw, toInt);
    if "SF:" <= raw {
      SamePathIff(raw, toInt);
    }
  }

  /**
   For a report of plain lines, and any scope, filtering commutes with counting up to unreadable counters
   that are dropped.
   */
  lemma PlainReportCounts(lines: seq<string>, scope: Matcher, m: Matcher, toInt: ToInt)
    requires forall l :: l in lines ==> Plain(l)
    ensures var ls := ClassifyAll(lines, toInt);
            LcovTotals(Filter(lines, scope, toInt), m, toInt) == LcovTotals(lines, Both(scope, m), toInt) <==>
              || Readable(Views(lines, toInt))
              || exists i :: 0 <= i < |ls| && UnreadableInScope(ls, scope, i)
  {
    forall l | l in lines
      ensures Regular(l, scope, scope, toInt)
    {
      PlainIsRegular(l, scope, toInt);
    }
    CountAfterFilter(lines, scope, scope, m, toInt);
  }

  /****************************** Reports that count wrongly ******************************/

  /** The lines count one line of `m` more or less after filtering than before. */
  predicate Miscounted(lines: seq<Line>, scope: Matcher, m: Matcher, end: Line) {
    Sum(Records(ParserViews(Kept(None, lines, scope, end))), m, TotalPrimary)
    != Sum(Records(ParserViews(lines)), Both(scope, m), TotalPrimary)
  }

  function Only(path: string): Matcher {
    p => p == path
  }

  lemma RecordSum(path: string, body: seq<ParserView>, rest: seq<ParserView>, m: Matcher)
    requires path != "" && (forall v :: v in body ==> !Flushes(v)) && (rest == [] || Flushes(rest[0]))
    ensures Sum(Records([SourceFile(path)] + body + rest), m, TotalPrimary) ==
            (if m(path) then LastCount(LF, body) else 0) + Sum(Records(rest), m, TotalPrimary)
  {
    RecordStep(path, body, rest);
    var e := Entry(path, BodyTotals(body));
    assert ([e] + Records(rest))[1..] == Records(rest);
  }

  /** The lines that one record with a single counter is made of. */
  predicate IsCount(count: Line) {
    count.filter.InRecord? && count.parser == Count(LF, 1)
  }

  lemma CountSum(path: string, last: seq<ParserView>, m: Matcher)
    requires path != "" && (last == [] || last == [EndOfRecord])
    ensures Sum(Records([SourceFile(path)] + [Count(LF, 1)] + last), m, TotalPrimary) == if m(path) then 1 else 0
  {
    RecordSum(path, [Count(LF, 1)], last, m);
    assert Records([EndOfRecord]) == [];
  }

  lemma BodyFreeSum(path: string, rest: seq<ParserView>, m: Matcher)
    requires path != "" && (rest == [] || Flushes(rest[0]))
    ensures Sum(Records([SourceFile(path)] + rest), m, TotalPrimary) == Sum(Records(rest), m, TotalPrimary)
  {
    RecordSum(path, [], rest, m);
    assert [SourceFile(path)] + [] + rest == [SourceFile(path)] + rest;
  }

  lemma KeptTwoOf(file: Line, bad: Line, count: Line, scope: Matcher, end: Line)
    requires file.filter.StartsFile? && scope(file.filter.path) && bad.filter.EndsRecord? && count.filter.InRecord?
    ensures Kept(None, [file, bad, count], scope, end) == [file, bad]
  {
    KeptCons(None, count, [], scope, end);
    assert [count] == [count] + [];
    assert Kept(None, [count], scope, end) == [];
    KeptCons(Some(true), bad, [count], scope, end);
    assert [bad, count] == [bad] + [count];
    assert Kept(Some(true), [bad, count], scope, end) == [bad];
    KeptCons(None, file, [bad, count], scope, end);
    assert [file, bad, count] == [file] + [bad, count];
  }

  lemma KeptAllOf(file: Line, bad: Line, count: Line, scope: Matcher, end: Line)
    requires file.filter.StartsFile? && bad.filter.InRecord? && count.filter.InRecord?
    ensures Kept(None, [file, bad, count], scope, end) ==
            if scope(file.filter.path) then [file, bad, count, end] else []
  {
    var keep := Some(scope(file.filter.path));
    KeptCons(None, file, [bad, count], scope, end);
    KeptCons(keep, bad, [count], scope, end);
    KeptCons(keep, count, [], scope, end);
    assert [file, bad, count] == [file] + [bad, count] && [bad, count] == [bad] + [count] && [count] == [count] + [];
  }

  lemma KeptFileAndCount(file: Line, count: Line, scope: Matcher, end: Line)
    requires file.filter.StartsFile? && count.filter.InRecord?
    ensures Kept(None, [file, count], scope, end) == if scope(file.filter.path) then [file, count, end] else []
  {
    KeptCons(None, file, [count], scope, end);
    KeptCons(Some(scope(file.filter.path)), count, [], scope, end);
    assert [file, count] == [file] + [count] && [count] == [count] + [];
  }

  /** A line that only begins with the end marker: the filter ends the record there, the parser reads on. */
  lemma LongMarkerMiscounts(file: Line, bad: Line, count: Line, path: string, scope: Matcher, end: Line)
    requires file.filter.StartsFile? && scope(file.filter.path) && file.parser == SourceFile(path) && path != "" &&
               scope(path)
    requires bad.filter.EndsRecord? && bad.parser == Ignored && IsCount(count)
    ensures Miscounted([file, bad, count], scope, Only(path), end)
  {
    KeptTwoOf(file, bad, count, scope, end);
    assert ParserViews([file, bad]) == [SourceFile(path)] + [Ignored] + [];
    assert ParserViews([file, bad, count]) == [SourceFile(path)] + [Ignored, Count(LF, 1)] + [];
    RecordSum(path, [Ignored], [], Only(path));
    RecordSum(path, [Ignored, Count(LF, 1)], [], Both(scope, Only(path)));
    assert [Ignored][..0] == [];
  }

  /**
   An indented file line: the parser opens a record there, for the filter it belongs to the record before.
   That record is kept and the indented file is out of scope, or the other way round.
   */
  lemma IndentedFileMiscounts(file: Line, bad: Line, count: Line, path: string, inner: string, scope: Matcher,
        end: Line)
    requires file.filter.StartsFile? && file.parser == SourceFile(path) && path != "" && path != inner
    requires bad.filter.InRecord? && bad.parser == SourceFile(inner) && inner != "" && IsCount(count)
    requires end.parser == EndOfRecord && scope(file.filter.path) != scope(inner)
    ensures Miscounted([file, bad, count], scope, Only(inner), end)
  {
    KeptAllOf(file, bad, count, scope, end);
    IndentedSum(file, bad, count, path, inner, Both(scope, Only(inner)), []);
    IndentedSum(file, bad, count, path, inner, Only(inner), [end]);
    assert [file, bad, count] + [] == [file, bad, count] && [file, bad, count] + [end] == [file, bad, count, end];
    assert ParserViews([]) == [] && Records([]) == [];
  }

  lemma IndentedSum(file: Line, bad: Line, count: Line, path: string, inner: string, m: Matcher, last: seq<Line>)
    requires file.parser == SourceFile(path) && path != "" && bad.parser == SourceFile(inner) && inner != ""
    requires count.parser == Count(LF, 1) && (last == [] || (|last| == 1 && last[0].parser == EndOfRecord))
    ensures Sum(Records(ParserViews([file, bad, count] + last)), m, TotalPrimary) == if m(inner) then 1 else 0
  {
    var ends := ParserViews(last);
    var rest := [SourceFile(inner)] + [Count(LF, 1)] + ends;
    CountSum(inner, ends, m);
    BodyFreeSum(path, rest, m);
    assert ParserViews([file, bad, count] + last) == [SourceFile(path)] + rest;
  }

  /** A file line whose two paths are not both in scope or both out of it. */
  lemma MisnamedFileMiscounts(bad: Line, count: Line, path: string, scope: Matcher, end: Line)
    requires bad.filter.StartsFile? && bad.parser == SourceFile(path) && path != "" && IsCount(count)
    requires end.parser == EndOfRecord && scope(bad.filter.path) != scope(path)
    ensures Miscounted([bad, count], scope, Only(path), end)
  {
    KeptFileAndCount(bad, count, scope, end);
    FileAndCountSum(bad, count, [], path, Both(scope, Only(path)));
    FileAndCountSum(bad, count, [end], path, Only(path));
    assert [bad, count] + [] == [bad, count] && [bad, count] + [end] == [bad, count, end];
    assert ParserViews([]) == [] && Records([]) == [];
  }

  lemma FileAndCountSum(file: Line, count: Line, last: seq<Line>, path: string, m: Matcher)
    requires file.parser == SourceFile(path) && path != "" && count.parser == Count(LF, 1)
    requires last == [] || (|last| == 1 && last[0].parser == EndOfRecord)
    ensures Sum(Records(ParserViews([file, count] + last)), m, TotalPrimary) == if m(path) then 1 else 0
  {
    CountSum(path, ParserViews(last), m);
    assert ParserViews([file, count] + last) == [SourceFile(path)] + [Count(LF, 1)] + ParserViews(last);
  }

  /********************************* With the Nimbus scope *********************************/

  lemma MiscountShows(lines: seq<string>, scope: Matcher, m: Matcher, toInt: ToInt)
    requires Miscounted(ClassifyAll(lines, toInt), scope, m, FixedLines(toInt).end) && Readable(Views(lines, toInt))
    ensures LcovTotals(Filter(lines, scope, toInt), m, toInt) != LcovTotals(lines, Both(scope, m), toInt)
  {
    var ls := ClassifyAll(lines, toInt);
    ReadBack(lines, scope, toInt);
    FilterAddsNoMalformed(lines, scope, toInt);
    assert ParserViews(ls) == Views(lines, toInt);
    if Kept(None, ls, scope, FixedLines(toInt).end) == [] {
      DummyRecords(toInt);
      TotalOfDummy(m);
      assert ParserViews([]) == [] && Records([]) == [];
    }
  }

  lemma {:induction false} ContainsLetter(s: string, sub: string, c: char)
    requires c in sub && c !in s
    ensures !Contains(s, sub)
  {
    if s != "" {
      ContainsLetter(s[1..], sub, c);
    }
  }

  const CORE_FILE := "ncli/x"

  /** A file in scope, for any source directory. */
  function CoreFile(nimbusSrc: string): string {
    if Find(CORE_FILE, nimbusSrc).Some? then nimbusSrc + CORE_FILE else CORE_FILE
  }

  lemma CoreFileLetters(nimbusSrc: string)
    ensures forall c :: c in CoreFile(nimbusSrc) ==> c in CORE_FILE
    ensures CoreFile(nimbusSrc) != ""
  {
    match Find(CORE_FILE, nimbusSrc) {
      case None =>
      case Some(i) =>
        forall k | 0 <= k < |nimbusSrc|
          ensures nimbusSrc[k] in CORE_FILE
        {
          assert CORE_FILE[i..][k] == nimbusSrc[k];
        }
    }
  }

  lemma CoreFileInScope(nimbusSrc: string)
    ensures NimbusScope(nimbusSrc)(CoreFile(nimbusSrc))
  {
    CoreFileLetters(nimbusSrc);
    NoU();
    OutsideRoots(CoreFile(nimbusSrc));
    CoreRelative(nimbusSrc);
    var p := CorePrefix();
    InScopeIf(nimbusSrc, CoreFile(nimbusSrc), p);
  }

  lemma InScopeIf(nimbusSrc: string, file: string, p: string)
    requires !("/usr/" <= file) && !("/nimbus-eth2/" <= file) && !Contains(file, "/usr/")
    requires p in CORE_PREFIXES && p <= RelativePath(nimbusSrc, file)
    ensures NimbusScope(nimbusSrc)(file)
  {
  }

  lemma NoU()
    ensures 'u' !in CORE_FILE
  {
  }

  lemma CorePrefix() returns (p: string)
    ensures p in CORE_PREFIXES && p <= CORE_FILE
  {
    p := CORE_PREFIXES[1];
  }

  lemma OutsideRoots(file: string)
    requires 'u' !in file
    ensures !("/usr/" <= file) && !("/nimbus-eth2/" <= file) && !Contains(file, "/usr/") &&
              !Contains(file, "/nimbus-eth2/")
  {
    assert "/usr/"[1] == 'u' && "/nimbus-eth2/"[5] == 'u';
    ContainsLetter(file, "/usr/", 'u');
    ContainsLetter(file, "/nimbus-eth2/", 'u');
  }

  lemma CoreRelative(nimbusSrc: string)
    ensures RelativePath(nimbusSrc, CoreFile(nimbusSrc)) == CORE_FILE
  {
    var file := CoreFile(nimbusSrc);
    if Find(CORE_FILE, nimbusSrc).Some? {
      assert nimbusSrc <= file && Find(file, nimbusSrc) == Some(0);
      assert file[|nimbusSrc|..] == CORE_FILE;
    } else {
      NoU();
      OutsideRoots(CORE_FILE);
      NormalizeIff(CORE_FILE);
    }
  }

  lemma FileLine(path: string, toInt: ToInt)
    requires path != "" && !IsSpace(path[0]) && !IsSpace(path[|path| - 1]) && '\\' !in path
    ensures Classify("SF:" + path + "\n", toInt) == Line("SF:" + path + "\n", StartsFile(path), SourceFile(path))
  {
    FileLineViews(path, toInt);
    NormalizeIff(path);
  }

  lemma CoreFileLine(nimbusSrc: string, toInt: ToInt)
    ensures var path := CoreFile(nimbusSrc);
            && path != ""
            && Classify("SF:" + path + "\n", toInt) == Line("SF:" + path + "\n", StartsFile(path), SourceFile(path))
  {
    var path := CoreFile(nimbusSrc);
    CoreFileLetters(nimbusSrc);
    assert forall c :: c in CORE_FILE ==> !IsSpace(c) && c != '\\';
    assert path[0] in path && path[|path| - 1] in path;
    FileLine(path, toInt);
  }

  /** A plain file line in scope. */
  lemma LineInScope(nimbusSrc: string, toInt: ToInt) returns (file: string, path: string)
    ensures Classify(file, toInt) == Line(file, StartsFile(path), SourceFile(path)) && path != ""
    ensures NimbusScope(nimbusSrc)(path)
  {
    path := CoreFile(nimbusSrc);
    file := "SF:" + path + "\n";
    CoreFileLine(nimbusSrc, toInt);
    CoreFileInScope(nimbusSrc);
  }

  /** A plain file line out of scope. */
  lemma LineOutOfScope(nimbusSrc: string, toInt: ToInt) returns (file: string, path: string)
    ensures Classify(file, toInt) == Line(file, StartsFile(path), SourceFile(path)) && path != ""
    ensures !NimbusScope(nimbusSrc)(path)
  {
    path := ShortPath();
    file := "SF:" + path + "\n";
    ShortFileOutOfScope(nimbusSrc, path);
    FileLine(path, toInt);
  }

  lemma ShortPath() returns (path: string)
    ensures |path| == 5 && path[4] !in "/\\" && !IsSpace(path[0]) && !IsSpace(path[4]) && '\\' !in path
  {
    path := "dummy";
  }

  lemma CountLine(toInt: ToInt) returns (count: string)
    requires toInt("1") == Some(1)
    ensures IsCount(Classify(count, toInt))
  {
    count := "LF:1\n";
    StripLine("LF:1");
    assert "LF:1" + "\n" == count;
  }

  /** `bad` at position `at` of a report whose other lines are plain, and whose counters can be read. */
  ghost predicate OnlyBad(report: seq<string>, at: nat, bad: string, scope: Matcher, toInt: ToInt) {
    && at < |report| && report[at] == bad
    && (forall i :: 0 <= i < |report| && i != at ==> Regular(report[i], scope, scope, toInt))
    && Readable(Views(report, toInt))
  }

  /** Under `m`, the report counts differently after filtering, although `bad` is its only irregular line. */
  ghost predicate Breaks(bad: string, report: seq<string>, at: nat, scope: Matcher, m: Matcher, toInt: ToInt) {
    && OnlyBad(report, at, bad, scope, toInt)
    && LcovTotals(Filter(report, scope, toInt), m, toInt) != LcovTotals(report, Both(scope, m), toInt)
  }

  /** A file line with one path for both programs, or a counter that can be read. */
  predicate IsTidy(l: Line) {
    (l.filter.StartsFile? && l.parser == SourceFile(l.filter.path)) || IsCount(l)
  }

  lemma TidyIsRegular(raw: string, scope: Matcher, toInt: ToInt)
    requires IsTidy(Classify(raw, toInt))
    ensures Regular(raw, scope, scope, toInt) && !Parsed(raw, toInt).Malformed?
  {
  }

  lemma OneBad(report: seq<string>, at: nat, bad: string, scope: Matcher, m: Matcher, toInt: ToInt)
    requires at < |report| && report[at] == bad && !Parsed(bad, toInt).Malformed?
    requires forall i :: 0 <= i < |report| && i != at ==> IsTidy(Classify(report[i], toInt))
    requires Miscounted(ClassifyAll(report, toInt), scope, m, FixedLines(toInt).end)
    ensures Breaks(bad, report, at, scope, m, toInt)
  {
    var views := Views(report, toInt);
    forall i | 0 <= i < |report|
      ensures !views[i].Malformed? && (i != at ==> Regular(report[i], scope, scope, toInt))
    {
      if i != at {
        TidyIsRegular(report[i], scope, toInt);
      }
    }
    MiscountShows(report, scope, m, toInt);
  }

  lemma LongMarkerBreaks(bad: string, file: string, count: string, path: string, scope: Matcher, toInt: ToInt)
    requires Classify(file, toInt) == Line(file, StartsFile(path), SourceFile(path)) && path != "" && scope(path)
    requires IsCount(Classify(count, toInt)) && Filtered(bad).EndsRecord? && !Parsed(bad, toInt).EndOfRecord?
    ensures Breaks(bad, [file, bad, count], 1, scope, Only(path), toInt)
  {
    ViewsOfMarkers(bad, toInt);
    ThreeLines(file, bad, count, toInt);
    LongMarkerMiscounts(Classify(file, toInt), Classify(bad, toInt), Classify(count, toInt), path, scope,
        FixedLines(toInt).end);
    OneBad([file, bad, count], 1, bad, scope, Only(path), toInt);
  }

  lemma ThreeLines(a: string, b: string, c: string, toInt: ToInt)
    ensures ClassifyAll([a, b, c], toInt) == [Classify(a, toInt), Classify(b, toInt), Classify(c, toInt)]
    ensures ClassifyAll([a, b], toInt) == [Classify(a, toInt), Classify(b, toInt)]
  {
  }

  lemma TidyAround(file: string, bad: string, count: string, toInt: ToInt)
    requires IsTidy(Classify(file, toInt)) && IsTidy(Classify(count, toInt))
    ensures forall i :: 0 <= i < 3 && i != 1 ==> IsTidy(Classify([file, bad, count][i], toInt))
  {
  }

  lemma IndentedFileBreaks(bad: string, file: string, count: string, path: string, scope: Matcher, toInt: ToInt)
    requires Classify(file, toInt) == Line(file, StartsFile(path), SourceFile(path)) && path != ""
    requires IsCount(Classify(count, toInt)) && Filtered(bad).InRecord?
    requires Parsed(bad, toInt).SourceFile? && Parsed(bad, toInt).path != "" &&
               scope(path) != scope(Parsed(bad, toInt).path)
    ensures Breaks(bad, [file, bad, count], 1, scope, Only(Parsed(bad, toInt).path), toInt)
  {
    var inner, end := Parsed(bad, toInt).path, FixedLines(toInt).end;
    assert end.parser == EndOfRecord by {
      EndLineViews(toInt);
    }
    IndentedFileMiscounts(Classify(file, toInt), Classify(bad, toInt), Classify(count, toInt), path, inner, scope, end);
    ThreeLines(file, bad, count, toInt);
    TidyAround(file, bad, count, toInt);
    OneBad([file, bad, count], 1, bad, scope, Only(inner), toInt);
  }

  lemma MisnamedFileBreaks(bad: string, count: string, scope: Matcher, toInt: ToInt)
    requires IsCount(Classify(count, toInt)) && Filtered(bad).StartsFile? &&
               !SameScope(Classify(bad, toInt), scope, scope)
    ensures Breaks(bad, [bad, count], 0, scope, Only(Classify(bad, toInt).parser.path), toInt)
  {
    var path := Classify(bad, toInt).parser.path;
    ThreeLines(bad, count, count, toInt);
    EndLineViews(toInt);
    MisnamedFileMiscounts(Classify(bad, toInt), Classify(count, toInt), path, scope, FixedLines(toInt).end);
    OneBad([bad, count], 0, bad, scope, Only(path), toInt);
  }

  /** Given one plain file line in scope, one out of scope and a count, every irregular line breaks some count. */
  lemma IrregularBreaks(bad: string, kept: string, keptPath: string, left: string, leftPath: string, count: string,
        scope: Matcher, toInt: ToInt)
    returns (report: seq<string>, at: nat, m: Matcher)
    requires Classify(kept, toInt) == Line(kept, StartsFile(keptPath), SourceFile(keptPath)) && keptPath != "" &&
               scope(keptPath)
    requires Classify(left, toInt) == Line(left, StartsFile(leftPath), SourceFile(leftPath)) && leftPath != "" &&
               !scope(leftPath)
    requires IsCount(Classify(count, toInt)) && !Regular(bad, scope, scope, toInt)
    ensures Breaks(bad, report, at, scope, m, toInt)
  {
    ViewsOfMarkers(bad, toInt);
    var l := Classify(bad, toInt);
    match l.filter {
      case EndsRecord =>
        LongMarkerBreaks(bad, kept, count, keptPath, scope, toInt);
        report, at, m := [kept, bad, count], 1, Only(keptPath);
      case InRecord =>
        var file := if scope(l.parser.path) then left else kept;
        var path := if scope(l.parser.path) then leftPath else keptPath;
        IndentedFileBreaks(bad, file, count, path, scope, toInt);
        report, at, m := [file, bad, count], 1, Only(l.parser.path);
      case StartsFile(_) =>
        MisnamedFileBreaks(bad, count, scope, toInt);
        report, at, m := [bad, count], 0, Only(l.parser.path);
    }
  }

  /** With the Nimbus scope on both sides, every irregular line breaks the count of some report that has no other. */
  lemma UnsafeLineBreaksCount(bad: string, nimbusSrc: string, toInt: ToInt)
    returns (report: seq<string>, at: nat, m: Matcher)
    requires !Regular(bad, NimbusScope(nimbusSrc), NimbusScope(nimbusSrc), toInt) && toInt("1") == Some(1)
    ensures Breaks(bad, report, at, NimbusScope(nimbusSrc), m, toInt)
  {
    var kept, keptPath := LineInScope(nimbusSrc, toInt);
    var left, leftPath := LineOutOfScope(nimbusSrc, toInt);
    var count := CountLine(toInt);
    report, at, m := IrregularBreaks(bad, kept, keptPath, left, leftPath, count, NimbusScope(nimbusSrc), toInt);
  }

  /** Whatever the rest of a report, as long as it is regular, the line does no harm to its count. */
  ghost predicate Harmless(bad: string, scope: Matcher, toInt: ToInt) {
    forall report: seq<string>, at: nat, m: Matcher :: !Breaks(bad, report, at, scope, m, toInt)
  }

  /** The exact condition on a line: regular lines, and only they, never spoil a count. */
  lemma HarmlessIff(line: string, nimbusSrc: string, toInt: ToInt)
    requires toInt("1") == Some(1)
    ensures Harmless(line, NimbusScope(nimbusSrc), toInt) <==>
              Regular(line, NimbusScope(nimbusSrc), NimbusScope(nimbusSrc), toInt)
  {
    var scope := NimbusScope(nimbusSrc);
    if Regular(line, scope, scope, toInt) {
      RegularIsHarmless(line, scope, toInt);
    } else {
      var report, at, m := UnsafeLineBreaksCount(line, nimbusSrc, toInt);
    }
  }

  lemma RegularIsHarmless(line: string, scope: Matcher, toInt: ToInt)
    requires Regular(line, scope, scope, toInt)
    ensures Harmless(line, scope, toInt)
  {
    forall report: seq<string>, at: nat, m: Matcher
      ensures !Breaks(line, report, at, scope, m, toInt)
    {
      if OnlyBad(report, at, line, scope, toInt) {
        CountAfterFilter(report, scope, scope, m, toInt);
      }
    }
  }

  /** A blank after the marker goes into the parser's path, but not into the filter's. */
  lemma BlankBeforePath(raw: string, path: string, toInt: ToInt)
    requires "SF:" <= raw && raw[3..] == " " + path + "\n"
    requires path != "" && !IsSpace(path[0]) && !IsSpace(path[|path| - 1]) && '\\' !in path
    ensures Classify(raw, toInt).filter == StartsFile(path) && Classify(raw, toInt).parser == SourceFile(" " + path)
  {
    FilePaths(raw, toInt);
    BlankRest(raw[3..], path);
    NormalizeIff(" " + path);
  }

  lemma BlankRest(rest: string, path: string)
    requires rest == " " + path + "\n" && path != "" && !IsSpace(path[0]) && !IsSpace(path[|path| - 1])
    ensures Strip(rest) == path && StripRight(rest) == " " + path
  {
    assert rest[1..] == path + "\n";
    assert StripLeft(rest) == StripLeft(path + "\n") == path + "\n";
    StripNewline(path);
    StripNewline(" " + path);
    assert rest == (" " + path) + "\n";
  }

  lemma StripNewline(s: string)
    requires s != "" && !IsSpace(s[|s| - 1])
    ensures StripRight(s + "\n") == s
  {
    assert (s + "\n")[..|s|] == s;
  }

  lemma PrefixesAreVisible(p: string)
    requires p in CORE_PREFIXES
    ensures p != "" && p[0] != ' '
  {
  }

  lemma BlankOutOfScope(nimbusSrc: string, path: string)
    requires !Contains(" " + path, "/nimbus-eth2/") && Find(" " + path, nimbusSrc).None?
    ensures !NimbusScope(nimbusSrc)(" " + path)
  {
    var blank := " " + path;
    assert RelativePath(nimbusSrc, blank) == NormalizePath(blank);
    forall p | p in CORE_PREFIXES
      ensures !(p <= NormalizePath(blank))
    {
      PrefixesAreVisible(p);
    }
  }

  /**
   So such a line is irregular whenever its file is in scope, although both programs cut the report at it.
   The files of the source tree are like that when the paths are relative to it.
   */
  lemma BlankIsIrregular(nimbusSrc: string, raw: string, path: string, toInt: ToInt)
    requires "SF:" <= raw && raw[3..] == " " + path + "\n" && NimbusScope(nimbusSrc)(path)
    requires path != "" && !IsSpace(path[0]) && !IsSpace(path[|path| - 1]) && '\\' !in path
    requires !Contains(" " + path, "/nimbus-eth2/") && Find(" " + path, nimbusSrc).None?
    ensures PlainCut(raw) && !Regular(raw, NimbusScope(nimbusSrc), NimbusScope(nimbusSrc), toInt)
  {
    BlankBeforePath(raw, path, toInt);
    BlankOutOfScope(nimbusSrc, path);
  }

  /** The line "SF: ncli/x" is one, for every source directory that does not occur in the path. */
  lemma BlankExample(nimbusSrc: string, toInt: ToInt) returns (raw: string)
    requires Find(" " + CORE_FILE, nimbusSrc).None? && Find(CORE_FILE, nimbusSrc).None?
    ensures PlainCut(raw) && !Regular(raw, NimbusScope(nimbusSrc), NimbusScope(nimbusSrc), toInt)
  {
    var path := PlainCoreFile(nimbusSrc);
    raw := BlankLine(path);
    CoreFileInScope(nimbusSrc);
    BlankIsIrregular(nimbusSrc, raw, path, toInt);
  }

  lemma PlainCoreFile(nimbusSrc: string) returns (path: string)
    requires Find(CORE_FILE, nimbusSrc).None?
    ensures path == CORE_FILE == CoreFile(nimbusSrc) && !Contains(" " + path, "/nimbus-eth2/")
    ensures path != "" && !IsSpace(path[0]) && !IsSpace(path[|path| - 1]) && '\\' !in path
  {
    path := CORE_FILE;
    assert 'u' !in " " + CORE_FILE;
    OutsideRoots(" " + CORE_FILE);
  }

  lemma BlankLine(path: string) returns (raw: string)
    ensures "SF:" <= raw && raw[3..] == " " + path + "\n"
  {
    raw := "SF:" + (" " + path + "\n");
  }

  /** A line that only begins with the end marker is irregular for every scope. */
  lemma LongMarkerIsIrregular(raw: string, scope: Matcher, toInt: ToInt)
    requires "end_of_record" <= raw && !("SF:" <= raw) && Strip(raw) != "end_of_record"
    ensures !Regular(raw, scope, scope, toInt)
  {
    SafeIff(raw, toInt);
  }

  /** The line "end_of_records" is one. */
  lemma LongMarkerExample(scope: Matcher, toInt: ToInt) returns (raw: string)
    ensures raw == "end_of_records\n" && !Regular(raw, scope, scope, toInt)
  {
    raw := "end_of_record" + "s\n";
    StripLine("end_of_records");
    assert "end_of_records" + "\n" == raw;
    LongMarkerIsIrregular(raw, scope, toInt);
  }
}
