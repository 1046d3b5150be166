/**
 The Nimbus coverage report as text: the scope test of `_filter_nimbus_lcov_report`, the lines it
 writes of its own accord, and what `parse_lcov` counts in its output.
 */
module NimbusReport {
  import opened Wrappers
  import opened PyString
  import opened Coverage
  import opened Lcov
  import opened LcovFilter

  const CORE_PREFIXES := ["beacon_chain/", "ncli/", "vendor/nim-blscurve/", "vendor/nim-ssz-serialization/"]

  /** The path whose prefix is looked up. */
  function RelativePath(nimbusSrc: string, file: string): string {
    match Find(file, nimbusSrc)
    case Some(i) => StripSlashes(file[i + |nimbusSrc|..])
    case None =>
      if Contains(file, "/nimbus-eth2/") then AfterLastSplit(file, "/nimbus-eth2/") else NormalizePath(file)
  }

  predicate Excluded(file: string) {
    "/usr/" <= file || "/nimbus-eth2/" <= file || Contains(file, "/usr/")
  }

  predicate InCore(path: string) {
    exists p | p in CORE_PREFIXES :: p <= path
  }

  function NimbusScope(nimbusSrc: string): Matcher {
    file => !Excluded(file) && InCore(RelativePath(nimbusSrc, file))
  }

  const END_LINE := "end_of_record\n"
  const DUMMY_TEXT := ["TN:", "SF:dummy", "FN:1,dummy", "FNDA:0,dummy", "FNF:1", "FNH:0", "end_of_record"]

  function DummyLines(): (lines: seq<string>)
    ensures |lines| == 7 && forall i :: 0 <= i < 7 ==> lines[i] == DUMMY_TEXT[i] + "\n"
  {
    seq(7, i requires 0 <= i < 7 => DUMMY_TEXT[i] + "\n")
  }

  function FixedLines(toInt: ToInt): Fixed {
    Fixed(Classify(END_LINE, toInt), ClassifyAll(DummyLines(), toInt))
  }

  function Raws(lines: seq<Line>): (r: seq<string>)
    ensures |r| == |lines| && forall i :: 0 <= i < |lines| ==> r[i] == lines[i].raw
  {
    seq(|lines|, i requires 0 <= i < |lines| => lines[i].raw)
  }

  /** The text that `_filter_nimbus_lcov_report` writes for the text `lines`. */
  function Filter(lines: seq<string>, scope: Matcher, toInt: ToInt): seq<string> {
    Raws(Output(ClassifyAll(lines, toInt), scope, FixedLines(toInt)))
  }

  method FilterNimbusLcovReport(lines: seq<string>, nimbusSrc: string, toInt: ToInt)
    returns (output: seq<string>, includedCount: nat, excludedCount: nat)
    ensures output == Filter(lines, NimbusScope(nimbusSrc), toInt)
    ensures includedCount == CountFiles(ClassifyAll(lines, toInt), NimbusScope(nimbusSrc), true)
    ensures excludedCount == CountFiles(ClassifyAll(lines, toInt), NimbusScope(nimbusSrc), false)
                             + CountStrayEnds(false, ClassifyAll(lines, toInt))
  {
    var out;
    out, includedCount, excludedCount := FilterReport(ClassifyAll(lines, toInt), NimbusScope(nimbusSrc),
        FixedLines(toInt));
    output := Raws(out);
  }

  /** A line of visible text is stripped of its newline only. */
  lemma StripLine(text: string)
    requires text != "" && !IsSpace(text[0]) && !IsSpace(text[|text| - 1])
    ensures Strip(text + "\n") == text
  {
    var line := text + "\n";
    assert line[..|line| - 1] == text;
    assert StripRight(line) == StripRight(text) == text;
  }

  lemma EndLineViews(toInt: ToInt)
    ensures Classify(END_LINE, toInt) == Line(END_LINE, EndsRecord, EndOfRecord)
  {
    StripLine("end_of_record");
  }

  lemma OtherLineViews(text: string, toInt: ToInt)
    requires text != "" && text[0] in "FT" && !IsSpace(text[|text| - 1])
    ensures Classify(text + "\n", toInt) == Line(text + "\n", InRecord, Ignored)
  {
    StripLine(text);
    assert (text + "\n")[0] == text[0];
  }

  lemma FileLineViews(path: string, toInt: ToInt)
    requires path != "" && !IsSpace(path[0]) && !IsSpace(path[|path| - 1])
    ensures Classify("SF:" + path + "\n", toInt)
            == Line("SF:" + path + "\n", StartsFile(path), SourceFile(NormalizePath(path)))
  {
    StripLine("SF:" + path);
    StripLine(path);
    assert ("SF:" + path + "\n")[3..] == path + "\n";
    assert ("SF:" + path)[3..] == path;
  }

  lemma DummyText(i: nat)
    requires i < 6 && i != 1
    ensures DUMMY_TEXT[i] != "" && DUMMY_TEXT[i][0] in "FT" && !IsSpace(DUMMY_TEXT[i][|DUMMY_TEXT[i]| - 1])
  {
  }

  lemma DummyFileLine(toInt: ToInt)
    ensures Classify(DUMMY_TEXT[1] + "\n", toInt) ==
            Line(DUMMY_TEXT[1] + "\n", StartsFile("dummy"), SourceFile("dummy"))
  {
    FileLineViews("dummy", toInt);
    assert "SF:" + "dummy" == DUMMY_TEXT[1];
    assert NormalizePath("dummy") == "dummy";
  }

  lemma DummyEndLine(toInt: ToInt)
    ensures Classify(DUMMY_TEXT[6] + "\n", toInt) == Line(DUMMY_TEXT[6] + "\n", EndsRecord, EndOfRecord)
  {
    EndLineViews(toInt);
    assert DUMMY_TEXT[6] + "\n" == END_LINE;
  }

  function DummyFilterView(i: nat): FilterView {
    if i == 1 then StartsFile("dummy") else if i == 6 then EndsRecord else InRecord
  }

  function DummyParserView(i: nat): ParserView {
    if i == 1 then SourceFile("dummy") else if i == 6 then EndOfRecord else Ignored
  }

  /** The views of the dummy line `raw`. */
  lemma DummyLine(i: nat, raw: string, toInt: ToInt)
    requires i < 7 && raw == DUMMY_TEXT[i] + "\n"
    ensures Classify(raw, toInt).filter == DummyFilterView(i)
    ensures Classify(raw, toInt).parser == DummyParserView(i)
  {
    if i == 6 {
      DummyEndLine(toInt);
    } else if i == 1 {
      DummyFileLine(toInt);
    } else {
      DummyText(i);
      OtherLineViews(DUMMY_TEXT[i], toInt);
    }
  }

  lemma DummyViews(toInt: ToInt)
    ensures ParserViews(FixedLines(toInt).dummy)
            == [Ignored, SourceFile("dummy")] + seq(4, _ => Ignored) + [EndOfRecord]
    ensures forall i :: 0 <= i < 7 ==>
              FixedLines(toInt).dummy[i].filter == DummyFilterView(i)
  {
    forall i: nat | i < 7
      ensures FixedLines(toInt).dummy[i].filter == DummyFilterView(i)
      ensures FixedLines(toInt).dummy[i].parser == DummyParserView(i)
    {
      DummyLine(i, DummyLines()[i], toInt);
    }
  }

  lemma {:induction false} IgnoredBody(body: seq<ParserView>, counter: Counter)
    requires forall v :: v in body ==> v.Ignored?
    ensures LastCount(counter, body) == 0
  {
    if body != [] {
      assert body[|body| - 1] in body;
      IgnoredBody(body[..|body| - 1], counter);
    }
  }

  lemma IgnoredRecord(first: ParserView, path: string, body: seq<ParserView>)
    requires first.Ignored? && path != "" && forall v :: v in body ==> v.Ignored?
    ensures Records([first] + ([SourceFile(path)] + body + [EndOfRecord])) == [Entry(path, Totals(0, 0, 0, 0))]
  {
    var record := [SourceFile(path)] + body + [EndOfRecord];
    RecordStep(path, body, [EndOfRecord]);
    assert Records([EndOfRecord]) == [];
    assert ([first] + record)[1..] == record;
    IgnoredBody(body, LH);
    IgnoredBody(body, LF);
    IgnoredBody(body, BRH);
    IgnoredBody(body, BRF);
  }

  /** The dummy report holds one record, without counts. */
  lemma DummyRecords(toInt: ToInt)
    ensures Records(ParserViews(FixedLines(toInt).dummy)) == [Entry("dummy", Totals(0, 0, 0, 0))]
  {
    DummyViews(toInt);
    var body := seq(4, _ => Ignored);
    IgnoredRecord(Ignored, "dummy", body);
    assert [Ignored, SourceFile("dummy")] + body + [EndOfRecord]
        == [Ignored] + ([SourceFile("dummy")] + body + [EndOfRecord]);
  }

  /****************************** Filtering, then counting ******************************/

  /** Both programs cut this line alike, and the filter's scope is `scope` on the parser's path. */
  predicate Regular(raw: string, filterScope: Matcher, scope: Matcher, toInt: ToInt) {
    var l := Classify(raw, toInt);
    Safe(l) && SameScope(l, filterScope, scope)
  }

  /** Both programs read the filter's text as the filter's lines. */
  lemma ReadBack(lines: seq<string>, scope: Matcher, toInt: ToInt)
    ensures var out := Output(ClassifyAll(lines, toInt), scope, FixedLines(toInt));
            ClassifyAll(Filter(lines, scope, toInt), toInt) == out
            && Views(Filter(lines, scope, toInt), toInt) == ParserViews(out)
  {
    var out := Output(ClassifyAll(lines, toInt), scope, FixedLines(toInt));
    forall i | 0 <= i < |out|
      ensures out[i] == Classify(out[i].raw, toInt)
    {
      assert out[i] in out;
      OutputIsClassified(ClassifyAll(lines, toInt), scope, FixedLines(toInt), toInt, out[i]);
    }
    RawsBack(out, toInt);
  }

  lemma OutputIsClassified(ls: seq<Line>, scope: Matcher, fixed: Fixed, toInt: ToInt, l: Line)
    requires l in Output(ls, scope, fixed)
    requires forall x :: x in ls || x in fixed.dummy || x == fixed.end ==> x == Classify(x.raw, toInt)
    ensures l == Classify(l.raw, toInt)
  {
    KeptLinesAreGiven(None, ls, scope, fixed.end);
  }

  lemma RawsBack(out: seq<Line>, toInt: ToInt)
    requires forall i :: 0 <= i < |out| ==> out[i] == Classify(out[i].raw, toInt)
    ensures ClassifyAll(Raws(out), toInt) == out && Views(Raws(out), toInt) == ParserViews(out)
  {
  }

  lemma TotalOfDummy(m: Matcher)
    ensures Total([Entry("dummy", Totals(0, 0, 0, 0))], m) == Total([], m)
  {
    var e := Entry("dummy", Totals(0, 0, 0, 0));
    forall part: Part
      ensures Sum([e], m, part) == 0
    {
      assert [e][1..] == [];
    }
  }

  /**
   For a report of regular lines, the records of the filtered report count under `m` what those of the
   original count under both scopes; if nothing is kept, the dummy report counts like no report.
   */
  lemma FilteredTotal(lines: seq<string>, filterScope: Matcher, scope: Matcher, m: Matcher, toInt: ToInt)
    requires forall l :: l in lines ==> Regular(l, filterScope, scope, toInt)
    ensures Total(Records(Views(Filter(lines, filterScope, toInt), toInt)), m)
            == Total(Records(Views(lines, toInt)), Both(scope, m))
  {
    var ls := ClassifyAll(lines, toInt);
    var fixed := FixedLines(toInt);
    EndLineViews(toInt);
    ReadBack(lines, filterScope, toInt);
    forall l | l in ls
      ensures Safe(l) && SameScope(l, filterScope, scope)
    {
      var i :| 0 <= i < |ls| && ls[i] == l;
      assert Regular(lines[i], filterScope, scope, toInt);
    }
    KeptRecords(ls, filterScope, scope, fixed.end);
    assert ParserViews(ls) == Views(lines, toInt);
    TotalOfRestrict(Records(Views(lines, toInt)), scope, m);
    if Kept(None, ls, filterScope, fixed.end) == [] {
      DummyRecords(toInt);
      TotalOfDummy(m);
    }
  }

  /** The filter's decision when it reads line `i`: that of the last file or end line before it. */
  function DecisionAt(lines: seq<Line>, scope: Matcher, i: nat): Option<bool>
    requires i <= |lines|
  {
    if i == 0 then None else NextOpen(DecisionAt(lines, scope, i - 1), lines[i - 1], scope)
  }

  /** Line `i` is a counter that cannot be read, in a record that the filter keeps. */
  predicate UnreadableInScope(lines: seq<Line>, scope: Matcher, i: nat)
    requires i < |lines|
  {
    lines[i].parser.Malformed? && DecisionAt(lines, scope, i) == Some(true)
  }

  /** The kept lines from line `i` on are readable exactly if no unreadable counter in scope is among them. */
  lemma {:induction false} KeptReadable(lines: seq<Line>, scope: Matcher, end: Line, i: nat)
    requires i <= |lines| && !end.parser.Malformed?
    requires forall l :: l in lines && l.parser.Malformed? ==> l.filter.InRecord?
    ensures Readable(ParserViews(Kept(DecisionAt(lines, scope, i), lines[i..], scope, end))) <==>
            forall k :: i <= k < |lines| ==> !UnreadableInScope(lines, scope, k)
    decreases |lines| - i
  {
    var open := DecisionAt(lines, scope, i);
    if i == |lines| {
      assert lines[i..] == [];
    } else {
      KeptReadable(lines, scope, end, i + 1);
      var l := lines[i];
      assert l in lines && lines[i..][0] == l && lines[i..][1..] == lines[i + 1..];
      var rest := Kept(DecisionAt(lines, scope, i + 1), lines[i + 1..], scope, end);
      ReadableAppend(Written(open, l, scope, end), rest);
      WrittenReadable(open, l, scope, end);
      assert UnreadableInScope(lines, scope, i) <==> l.parser.Malformed? && open == Some(true);
    }
  }

  lemma ReadableAppend(a: seq<Line>, b: seq<Line>)
    ensures Readable(ParserViews(a + b)) <==> Readable(ParserViews(a)) && Readable(ParserViews(b))
  {
    assert ParserViews(a + b) == ParserViews(a) + ParserViews(b);
  }

  lemma WrittenReadable(open: Option<bool>, l: Line, scope: Matcher, end: Line)
    requires !end.parser.Malformed? && (l.parser.Malformed? ==> l.filter.InRecord?)
    ensures Readable(ParserViews(Written(open, l, scope, end))) <==> !(l.parser.Malformed? && open == Some(true))
  {
    var views := ParserViews(Written(open, l, scope, end));
    if l.parser.Malformed? && open == Some(true) {
      assert views[0] == l.parser && views[0] in views;
    }
  }

  /** When the filtered report can be read: every unreadable counter of the report lies outside the kept records. */
  lemma FilteredReadableIff(lines: seq<string>, scope: Matcher, toInt: ToInt)
    ensures var ls := ClassifyAll(lines, toInt);
            Readable(Views(Filter(lines, scope, toInt), toInt)) <==>
            forall i :: 0 <= i < |ls| ==> !UnreadableInScope(ls, scope, i)
  {
    var ls, fixed := ClassifyAll(lines, toInt), FixedLines(toInt);
    ReadBack(lines, scope, toInt);
    EndLineViews(toInt);
    forall l | l in ls && l.parser.Malformed?
      ensures l.filter.InRecord?
    {
      ViewsOfMarkers(l.raw, toInt);
      assert l == Classify(l.raw, toInt);
    }
    assert ls[0..] == ls;
    KeptReadable(ls, scope, fixed.end, 0);
    if Kept(None, ls, scope, fixed.end) == [] {
      DummyReadable(toInt);
    }
  }

  /** The filter adds no unreadable line. */
  lemma FilterAddsNoMalformed(lines: seq<string>, scope: Matcher, toInt: ToInt)
    ensures Readable(Views(lines, toInt)) ==> Readable(Views(Filter(lines, scope, toInt), toInt))
  {
    FilteredReadableIff(lines, scope, toInt);
    var ls, views := ClassifyAll(lines, toInt), Views(lines, toInt);
    forall i | 0 <= i < |ls| && Readable(views)
      ensures !ls[i].parser.Malformed?
    {
      assert ls[i].parser == views[i] && views[i] in views;
    }
  }

  lemma DummyReadable(toInt: ToInt)
    ensures Readable(ParserViews(FixedLines(toInt).dummy))
  {
    DummyViews(toInt);
  }

  /**
   Counting the filtered report under `m` is counting the original report under both scopes, for
   records with and without terminator, counters outside records and the dummy report alike.  The
   only exception: there are unreadable counters, and the filter drops them all with their records.
   */
  lemma CountAfterFilter(lines: seq<string>, filterScope: Matcher, scope: Matcher, m: Matcher, toInt: ToInt)
    requires forall l :: l in lines ==> Regular(l, filterScope, scope, toInt)
    ensures var ls := ClassifyAll(lines, toInt);
            LcovTotals(Filter(lines, filterScope, toInt), m, toInt) == LcovTotals(lines, Both(scope, m), toInt) <==>
              || Readable(Views(lines, toInt))
              || exists i :: 0 <= i < |ls| && UnreadableInScope(ls, filterScope, i)
  {
    FilteredTotal(lines, filterScope, scope, m, toInt);
    FilterAddsNoMalformed(lines, filterScope, toInt);
    FilteredReadableIff(lines, filterScope, toInt);
  }

  /** A comparison whose scope lies inside the filter's loses nothing by the filter. */
  lemma FilterLosesNothing(lines: seq<string>, filterScope: Matcher, scope: Matcher, m: Matcher, toInt: ToInt)
    requires forall l :: l in lines ==> Regular(l, filterScope, scope, toInt)
    requires Readable(Views(lines, toInt))
    requires forall e :: e in Records(Views(lines, toInt)) && m(e.path) ==> scope(e.path)
    ensures LcovTotals(Filter(lines, filterScope, toInt), m, toInt) == LcovTotals(lines, m, toInt)
  {
    CountAfterFilter(lines, filterScope, scope, m, toInt);
    TotalCong(Records(Views(lines, toInt)), Both(scope, m), m);
  }

  /*********************************** Filtering twice ***********************************/

  lemma {:induction false} StripSlashesShrinks(s: string)
    ensures |StripSlashes(s)| <= |s| && (|StripSlashes(s)| == |s| ==> StripSlashes(s) == s)
  {
    if s != "" && s[0] == '/' {
      StripSlashesShrinks(s[1..]);
    }
  }

  /** A file name no longer than the shortest scope prefix, and not itself a directory, is out of scope. */
  lemma ShortFileOutOfScope(nimbusSrc: string, file: string)
    requires |file| == 5 && file[4] !in "/\\"
    ensures !NimbusScope(nimbusSrc)(file)
  {
    var rel := RelativePath(nimbusSrc, file);
    match Find(file, nimbusSrc) {
      case Some(i) => StripSlashesShrinks(file[i + |nimbusSrc|..]);
      case None =>
    }
    assert |rel| == 5 ==> rel[4] != '/';
    forall p | p in CORE_PREFIXES
      ensures !(p <= rel)
    {
      assert |p| == 5 ==> p[4] == '/';
    }
  }

  /** The dummy report under the filter. */
  lemma KeptOfDummy(scope: Matcher, toInt: ToInt)
    ensures var fixed := FixedLines(toInt);
            Kept(None, fixed.dummy, scope, fixed.end) == if scope("dummy") then fixed.dummy[1..] else []
  {
    DummyViews(toInt);
    KeptRecord(FixedLines(toInt).dummy, scope, FixedLines(toInt).end);
  }

  /** Filtering its own output changes nothing, unless no file was included and the dummy file is in scope. */
  lemma FilterTwice(lines: seq<string>, scope: Matcher, toInt: ToInt)
    ensures var once := Filter(lines, scope, toInt);
            Filter(once, scope, toInt) == once
            <==> CountFiles(ClassifyAll(lines, toInt), scope, true) > 0 || !scope("dummy")
  {
    var ls, fixed := ClassifyAll(lines, toInt), FixedLines(toInt);
    ReadBack(lines, scope, toInt);
    EndLineViews(toInt);
    KeptNothing(None, ls, scope, fixed.end);
    KeptTwice(None, ls, scope, fixed.end);
    KeptOfDummy(scope, toInt);
    if Kept(None, ls, scope, fixed.end) == [] && scope("dummy") {
      assert |Raws(fixed.dummy[1..])| == 6;
    }
  }

  /** With the Nimbus scope the filter is idempotent, on its dummy report too. */
  lemma NimbusFilterTwice(lines: seq<string>, nimbusSrc: string, toInt: ToInt)
    ensures var once := Filter(lines, NimbusScope(nimbusSrc), toInt);
            Filter(once, NimbusScope(nimbusSrc), toInt) == once
  {
    ShortFileOutOfScope(nimbusSrc, "dummy");
    FilterTwice(lines, NimbusScope(nimbusSrc), toInt);
  }
}
