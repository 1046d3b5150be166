/**
 lcov reports by their text: what `parse_lcov` counts, and what the Nimbus filter writes, for a report of whole
 records, each a file line, counter and other lines in any order, and a terminator.
 */
module ReportTexts {
  import opened Sequences
  import opened Wrappers
  import opened PyString
  import opened Coverage
  import opened Lcov
  import opened LcovFilter
  import opened NimbusReport
  import opened IrregularLines

  /** A record with the numbers its last counter lines give: lines found and hit, branches found and hit. */
  datatype TextRecord = TextRecord(path: string, body: seq<string>, lf: int, lh: int, brf: int, brh: int)

  function Text(r: TextRecord): seq<string> {
    ["SF:" + r.path + "\n"] + r.body + ["end_of_record\n"]
  }

  function ReportText(rs: seq<TextRecord>): seq<string> {
    if rs == [] then [] else Text(rs[0]) + ReportText(rs[1..])
  }

  /** Line `i` gives the number `n` behind the marker. */
  predicate GivesAt(body: seq<string>, i: nat, marker: string, toInt: ToInt, n: int) {
    i < |body| && marker <= Strip(body[i]) && toInt(Strip(body[i])[|marker|..]) == Some(n)
  }

  /** No line from `i` on has the marker. */
  predicate NoneFrom(body: seq<string>, i: nat, marker: string) {
    forall j :: i <= j < |body| ==> !(marker <= Strip(body[j]))
  }

  /** The last line with the marker gives `n`; without such a line, `n` is 0. */
  ghost predicate LastGives(body: seq<string>, marker: string, toInt: ToInt, n: int) {
    || (n == 0 && NoneFrom(body, 0, marker))
    || exists i: nat :: GivesAt(body, i, marker, toInt, n) && NoneFrom(body, i + 1, marker)
  }

  predicate AllNumbers(body: seq<string>, marker: string, toInt: ToInt) {
    forall line | line in body :: marker <= Strip(line) ==> toInt(Strip(line)[|marker|..]).Some?
  }

  predicate PlainFile(path: string) {
    path != "" && !IsSpace(path[0]) && !IsSpace(path[|path| - 1]) && '\\' !in path
  }

  /** A line inside a record, for parser and filter. */
  predicate Inner(line: string) {
    && !("SF:" <= Strip(line)) && Strip(line) != "end_of_record"
    && !("SF:" <= line) && !("end_of_record" <= line)
  }

  /** All lines with this marker give a number, the last of them `n`. */
  ghost predicate Gives(body: seq<string>, marker: string, toInt: ToInt, n: int) {
    AllNumbers(body, marker, toInt) && LastGives(body, marker, toInt, n)
  }

  ghost predicate WellFormed(r: TextRecord, toInt: ToInt) {
    && PlainFile(r.path)
    && (forall line | line in r.body :: Inner(line))
    && Gives(r.body, "LF:", toInt, r.lf)
    && Gives(r.body, "LH:", toInt, r.lh)
    && Gives(r.body, "BRF:", toInt, r.brf)
    && Gives(r.body, "BRH:", toInt, r.brh)
  }

  function LinesFound(r: TextRecord): int { r.lf }
  function LinesHit(r: TextRecord): int { r.lh }
  function BranchesFound(r: TextRecord): int { r.brf }
  function BranchesHit(r: TextRecord): int { r.brh }

  /** One number of the records in scope, added up. */
  function SumOf(rs: seq<TextRecord>, m: Matcher, number: TextRecord -> int): int {
    if rs == [] then 0 else (if m(rs[0].path) then number(rs[0]) else 0) + SumOf(rs[1..], m, number)
  }

  /********************************* One counter line *********************************/

  function Marker(counter: Counter): string {
    match counter
    case LF => "LF:"
    case LH => "LH:"
    case BRF => "BRF:"
    case BRH => "BRH:"
  }

  /** The parser's view of a line inside a record, for one counter. */
  predicate ViewFits(line: string, view: ParserView, counter: Counter, marker: string, toInt: ToInt) {
    if marker <= line then view == CountView(counter, line[|marker|..], toInt)
    else view.Count? ==> view.counter != counter
  }

  lemma ViewOfStripped(raw: string, line: string, counter: Counter, toInt: ToInt)
    requires line == Strip(raw) && !("SF:" <= line)
    ensures ViewFits(line, Parsed(raw, toInt), counter, Marker(counter), toInt)
  {
    if "LF:" <= line {
      assert line[0] == 'L' && line[1] == 'F';
    } else if "LH:" <= line {
      assert line[0] == 'L' && line[1] == 'H';
    } else if "BRF:" <= line {
      assert line[0] == 'B' && line[2] == 'F';
    } else if "BRH:" <= line {
      assert line[0] == 'B' && line[2] == 'H';
    }
  }

  predicate NumberBehind(line: string, marker: string, toInt: ToInt) {
    marker <= line ==> toInt(line[|marker|..]).Some?
  }

  lemma InnerView(raw: string, line: string, toInt: ToInt)
    requires line == Strip(raw) && !("SF:" <= line) && line != "end_of_record"
    requires NumberBehind(line, "LF:", toInt) && NumberBehind(line, "LH:", toInt)
    requires NumberBehind(line, "BRF:", toInt) && NumberBehind(line, "BRH:", toInt)
    ensures !Flushes(Parsed(raw, toInt)) && !Parsed(raw, toInt).Malformed?
  {
  }

  /*********************************** One record ***********************************/

  ghost predicate AllFit(body: seq<string>, counter: Counter, marker: string, toInt: ToInt) {
    forall line | line in body :: ViewFits(Strip(line), Parsed(line, toInt), counter, marker, toInt)
  }

  lemma LastView(body: seq<string>, counter: Counter, marker: string, toInt: ToInt)
    requires body != [] && AllFit(body, counter, marker, toInt)
    ensures var front, line := body[..|body| - 1], Strip(body[|body| - 1]);
            && AllFit(front, counter, marker, toInt)
            && LastCount(counter, Views(body, toInt)) ==
               if marker <= line && toInt(line[|marker|..]).Some? then toInt(line[|marker|..]).value
               else LastCount(counter, Views(front, toInt))
  {
    var front := body[..|body| - 1];
    assert Views(body, toInt)[..|front|] == Views(front, toInt);
    assert body[|front|] in body;
  }

  lemma {:induction false} CountOfNone(body: seq<string>, counter: Counter, marker: string, toInt: ToInt)
    requires NoneFrom(body, 0, marker) && AllFit(body, counter, marker, toInt)
    ensures LastCount(counter, Views(body, toInt)) == 0
  {
    if body != [] {
      LastView(body, counter, marker, toInt);
      CountOfNone(body[..|body| - 1], counter, marker, toInt);
    }
  }

  lemma {:induction false} CountOfLast(body: seq<string>, counter: Counter, marker: string, toInt: ToInt, i: nat,
        n: int)
    requires GivesAt(body, i, marker, toInt, n) && NoneFrom(body, i + 1, marker) && AllFit(body, counter, marker, toInt)
    ensures LastCount(counter, Views(body, toInt)) == n
  {
    LastView(body, counter, marker, toInt);
    if i < |body| - 1 {
      CountOfLast(body[..|body| - 1], counter, marker, toInt, i, n);
    }
  }

  lemma CountIs(body: seq<string>, counter: Counter, marker: string, toInt: ToInt, n: int)
    requires marker == Marker(counter) && LastGives(body, marker, toInt, n)
    requires forall line | line in body :: !("SF:" <= Strip(line))
    ensures LastCount(counter, Views(body, toInt)) == n
  {
    forall line | line in body
      ensures ViewFits(Strip(line), Parsed(line, toInt), counter, marker, toInt)
    {
      ViewOfStripped(line, Strip(line), counter, toInt);
    }
    if n == 0 && NoneFrom(body, 0, marker) {
      CountOfNone(body, counter, marker, toInt);
    } else {
      var i: nat :| GivesAt(body, i, marker, toInt, n) && NoneFrom(body, i + 1, marker);
      CountOfLast(body, counter, marker, toInt, i, n);
    }
  }

  lemma InnerViews(r: TextRecord, toInt: ToInt)
    requires WellFormed(r, toInt)
    ensures forall v :: v in Views(r.body, toInt) ==> !Flushes(v) && !v.Malformed?
  {
    forall v | v in Views(r.body, toInt)
      ensures !Flushes(v) && !v.Malformed?
    {
      var i :| 0 <= i < |r.body| && Views(r.body, toInt)[i] == v;
      assert r.body[i] in r.body && Inner(r.body[i]);
      InnerView(r.body[i], Strip(r.body[i]), toInt);
    }
  }

  lemma RecordNumbers(r: TextRecord, toInt: ToInt)
    requires WellFormed(r, toInt)
    ensures BodyTotals(Views(r.body, toInt)) == EntryOf(r).totals
  {
    forall line | line in r.body
      ensures !("SF:" <= Strip(line))
    {
      assert Inner(line);
    }
    CountIs(r.body, LF, "LF:", toInt, r.lf);
    CountIs(r.body, LH, "LH:", toInt, r.lh);
    CountIs(r.body, BRF, "BRF:", toInt, r.brf);
    CountIs(r.body, BRH, "BRH:", toInt, r.brh);
  }

  lemma RecordViews(r: TextRecord, rest: seq<string>, toInt: ToInt)
    requires WellFormed(r, toInt)
    ensures Views(Text(r) + rest, toInt) ==
            [SourceFile(r.path)] + Views(r.body, toInt) + ([EndOfRecord] + Views(rest, toInt))
  {
    FileLine(r.path, toInt);
    EndLineViews(toInt);
    TextViews("SF:" + r.path + "\n", r.body, "end_of_record\n", rest, toInt);
  }

  lemma TextViews(first: string, body: seq<string>, last: string, rest: seq<string>, toInt: ToInt)
    ensures Views([first] + body + [last] + rest, toInt) ==
            [Parsed(first, toInt)] + Views(body, toInt) + ([Parsed(last, toInt)] + Views(rest, toInt))
  {
  }

  /*********************************** The whole report ***********************************/

  function EntryOf(r: TextRecord): Entry {
    Entry(r.path, Totals(r.lh, r.lf, r.brh, r.brf))
  }

  function Entries(rs: seq<TextRecord>): seq<Entry> {
    if rs == [] then [] else [EntryOf(rs[0])] + Entries(rs[1..])
  }

  lemma RecordOfText(r: TextRecord, rest: seq<string>, toInt: ToInt)
    requires WellFormed(r, toInt)
    ensures Records(Views(Text(r) + rest, toInt)) == [EntryOf(r)] + Records(Views(rest, toInt))
    ensures Readable(Views(rest, toInt)) ==> Readable(Views(Text(r) + rest, toInt))
  {
    RecordViews(r, rest, toInt);
    InnerViews(r, toInt);
    RecordNumbers(r, toInt);
    var tail := [EndOfRecord] + Views(rest, toInt);
    RecordStep(r.path, Views(r.body, toInt), tail);
    assert tail[1..] == Views(rest, toInt);
  }

  lemma {:induction false} RecordsOfText(rs: seq<TextRecord>, toInt: ToInt)
    requires forall r | r in rs :: WellFormed(r, toInt)
    ensures Records(Views(ReportText(rs), toInt)) == Entries(rs)
    ensures Readable(Views(ReportText(rs), toInt))
  {
    if rs != [] {
      RecordsOfText(rs[1..], toInt);
      RecordOfText(rs[0], ReportText(rs[1..]), toInt);
    }
  }

  lemma {:induction false} SumOfEntries(rs: seq<TextRecord>, m: Matcher, part: Part, number: TextRecord -> int)
    requires forall r | r in rs :: EntryOf(r).totals.Get(part) == number(r)
    ensures Sum(Entries(rs), m, part) == SumOf(rs, m, number)
  {
    if rs != [] {
      SumOfEntries(rs[1..], m, part, number);
      assert rs[0] in rs;
      assert Entries(rs)[1..] == Entries(rs[1..]);
    }
  }

  /**
   `parse_lcov` on a report of such records: each of the four totals adds up the numbers that the last line with
   its marker gives in each record whose file is in scope.
   */
  lemma TotalsOfText(rs: seq<TextRecord>, m: Matcher, toInt: ToInt)
    requires forall r | r in rs :: WellFormed(r, toInt)
    ensures LcovTotals(ReportText(rs), m, toInt) ==
            Some(Totals(SumOf(rs, m, LinesHit), SumOf(rs, m, LinesFound),
                        SumOf(rs, m, BranchesHit), SumOf(rs, m, BranchesFound)))
  {
    RecordsOfText(rs, toInt);
    SumOfEntries(rs, m, CoveredPrimary, LinesHit);
    SumOfEntries(rs, m, TotalPrimary, LinesFound);
    SumOfEntries(rs, m, CoveredBranch, BranchesHit);
    SumOfEntries(rs, m, TotalBranch, BranchesFound);
  }

  predicate Numbers(raw: string, toInt: ToInt) {
    var line := Strip(raw);
    && NumberBehind(line, "LF:", toInt) && NumberBehind(line, "LH:", toInt)
    && NumberBehind(line, "BRF:", toInt) && NumberBehind(line, "BRH:", toInt)
  }

  /** A report cannot be read exactly if some line gives something else than a number behind one of four markers. */
  lemma UnreadableIff(lines: seq<string>, m: Matcher, toInt: ToInt)
    ensures LcovTotals(lines, m, toInt) == None <==>
            exists line | line in lines :: !Numbers(line, toInt)
  {
    var views := Views(lines, toInt);
    forall i | 0 <= i < |lines|
      ensures views[i] in views && lines[i] in lines
      ensures views[i].Malformed? <==> !Numbers(lines[i], toInt)
    {
      MalformedIff(lines[i], Strip(lines[i]), toInt);
    }
    if v :| v in views && v.Malformed? {
      var i :| 0 <= i < |lines| && views[i] == v;
      assert !Numbers(lines[i], toInt);
    }
    assert forall line :: line in lines ==> exists i :: 0 <= i < |lines| && lines[i] == line;
  }

  lemma MalformedIff(raw: string, line: string, toInt: ToInt)
    requires line == Strip(raw)
    ensures Parsed(raw, toInt).Malformed? <==> !Numbers(raw, toInt)
  {
    if "SF:" <= line {
      assert line[0] == 'S';
    } else if "LF:" <= line {
      assert line[0] == 'L' && line[1] == 'F';
    } else if "LH:" <= line {
      assert line[0] == 'L' && line[1] == 'H';
    } else if "BRF:" <= line {
      assert line[0] == 'B' && line[2] == 'F';
    } else if "BRH:" <= line {
      assert line[0] == 'B' && line[2] == 'H';
    }
  }

  /** The text behind a counter's marker. */
  predicate NumberText(a: string, toInt: ToInt, n: int) {
    a != "" && !IsSpace(a[|a| - 1]) && toInt(a) == Some(n)
  }

  lemma CounterLine(marker: string, a: string)
    requires marker != "" && !IsSpace(marker[0]) && a != "" && !IsSpace(a[|a| - 1])
    ensures Strip(marker + a + "\n") == marker + a && marker + a + "\n" != ""
    ensures (marker + a)[|marker|..] == a && (marker + a + "\n")[0] == marker[0]
  {
    StripLine(marker + a);
  }

  /** Two markers that differ within their first three characters. */
  predicate Apart(p: string, q: string) {
    |p| >= 3 && |q| >= 3 && (p[0] != q[0] || p[1] != q[1] || p[2] != q[2])
  }

  lemma InnerLine(raw: string, marker: string, a: string)
    requires raw == marker + a + "\n" && Strip(raw) == marker + a
    requires |marker| >= 3 && (marker[0] == 'L' || marker[0] == 'B')
    ensures Inner(raw)
  {
    assert raw[0] == Strip(raw)[0] == marker[0];
  }

  lemma MarkedLine(marker: string, a: string) returns (raw: string)
    requires |marker| >= 3 && (marker[0] == 'L' || marker[0] == 'B') && a != "" && !IsSpace(a[|a| - 1])
    ensures raw == marker + a + "\n" && Strip(raw) == marker + a && Inner(raw)
    ensures forall other: string :: Apart(marker, other) ==> !(other <= Strip(raw))
  {
    raw := marker + a + "\n";
    CounterLine(marker, a);
    InnerLine(raw, marker, a);
    forall other: string | Apart(marker, other)
      ensures !(other <= Strip(raw))
    {
      assert (marker + a)[0] == marker[0] && (marker + a)[1] == marker[1] && (marker + a)[2] == marker[2];
    }
  }

  /** A line that is added with the marker gives the number. */
  lemma NumberAdded(body: seq<string>, raw: string, marker: string, a: string, toInt: ToInt, n: int)
    requires AllNumbers(body, marker, toInt) && Strip(raw) == marker + a && toInt(a) == Some(n)
    ensures Gives(body + [raw], marker, toInt, n)
  {
    assert (marker + a)[|marker|..] == a;
    assert GivesAt(body + [raw], |body|, marker, toInt, n) && NoneFrom(body + [raw], |body| + 1, marker);
  }

  /** A line that is added without the marker changes nothing for it. */
  lemma OtherAdded(body: seq<string>, raw: string, marker: string, toInt: ToInt, n: int)
    requires Gives(body, marker, toInt, n) && !(marker <= Strip(raw))
    ensures Gives(body + [raw], marker, toInt, n)
  {
    if i: nat :| GivesAt(body, i, marker, toInt, n) && NoneFrom(body, i + 1, marker) {
      assert GivesAt(body + [raw], i, marker, toInt, n) && NoneFrom(body + [raw], i + 1, marker);
    } else {
      assert NoneFrom(body + [raw], 0, marker);
    }
  }

  /** One more counter line with the marker `own`, for it and for the other three markers. */
  lemma CounterAdded(body: seq<string>, own: string, a: string, p: string, q: string, s: string, toInt: ToInt, n: int,
        i: int, j: int, k: int)
    requires |own| >= 3 && (own[0] == 'L' || own[0] == 'B') && Apart(own, p) && Apart(own, q) && Apart(own, s)
    requires AllNumbers(body, own, toInt) && NumberText(a, toInt, n)
    requires Gives(body, p, toInt, i) && Gives(body, q, toInt, j) && Gives(body, s, toInt, k)
    ensures var more := body + [own + a + "\n"];
            && Inner(own + a + "\n")
            && Gives(more, own, toInt, n)
            && Gives(more, p, toInt, i) && Gives(more, q, toInt, j) && Gives(more, s, toInt, k)
  {
    var raw := MarkedLine(own, a);
    NumberAdded(body, raw, own, a, toInt, n);
    OtherAdded(body, raw, p, toInt, i);
    OtherAdded(body, raw, q, toInt, j);
    OtherAdded(body, raw, s, toInt, k);
  }

  lemma LinesFoundAdded(r: TextRecord, a: string, n: int, toInt: ToInt)
    requires WellFormed(r, toInt) && NumberText(a, toInt, n)
    ensures WellFormed(r.(body := r.body + ["LF:" + a + "\n"], lf := n), toInt)
  {
    CounterAdded(r.body, "LF:", a, "LH:", "BRF:", "BRH:", toInt, n, r.lh, r.brf, r.brh);
  }

  lemma LinesHitAdded(r: TextRecord, a: string, n: int, toInt: ToInt)
    requires WellFormed(r, toInt) && NumberText(a, toInt, n)
    ensures WellFormed(r.(body := r.body + ["LH:" + a + "\n"], lh := n), toInt)
  {
    CounterAdded(r.body, "LH:", a, "LF:", "BRF:", "BRH:", toInt, n, r.lf, r.brf, r.brh);
  }

  lemma BranchesFoundAdded(r: TextRecord, a: string, n: int, toInt: ToInt)
    requires WellFormed(r, toInt) && NumberText(a, toInt, n)
    ensures WellFormed(r.(body := r.body + ["BRF:" + a + "\n"], brf := n), toInt)
  {
    CounterAdded(r.body, "BRF:", a, "LF:", "LH:", "BRH:", toInt, n, r.lf, r.lh, r.brh);
  }

  lemma BranchesHitAdded(r: TextRecord, a: string, n: int, toInt: ToInt)
    requires WellFormed(r, toInt) && NumberText(a, toInt, n)
    ensures WellFormed(r.(body := r.body + ["BRH:" + a + "\n"], brh := n), toInt)
  {
    CounterAdded(r.body, "BRH:", a, "LF:", "LH:", "BRF:", toInt, n, r.lf, r.lh, r.brf);
  }

  lemma EmptyRecord(path: string, toInt: ToInt) returns (r: TextRecord)
    requires PlainFile(path)
    ensures r.path == path && r.body == [] && WellFormed(r, toInt)
  {
    r := TextRecord(path, [], 0, 0, 0, 0);
  }

  /** The body of four counter lines. */
  function FourLines(a: string, b: string, c: string, d: string): seq<string> {
    ["LF:" + a + "\n", "LH:" + b + "\n", "BRF:" + c + "\n", "BRH:" + d + "\n"]
  }

  lemma FourOf(w: string, x: string, y: string, z: string)
    ensures [] + [w] + [x] + [y] + [z] == [w, x, y, z]
  {
  }

  lemma FourCounters(r: TextRecord, a: string, b: string, c: string, d: string, toInt: ToInt)
    requires PlainFile(r.path) && r.body == FourLines(a, b, c, d)
    requires NumberText(a, toInt, r.lf) && NumberText(b, toInt, r.lh)
    requires NumberText(c, toInt, r.brf) && NumberText(d, toInt, r.brh)
    ensures WellFormed(r, toInt)
  {
    var s := EmptyRecord(r.path, toInt);
    LinesFoundAdded(s, a, r.lf, toInt);
    s := s.(body := s.body + ["LF:" + a + "\n"], lf := r.lf);
    LinesHitAdded(s, b, r.lh, toInt);
    s := s.(body := s.body + ["LH:" + b + "\n"], lh := r.lh);
    BranchesFoundAdded(s, c, r.brf, toInt);
    s := s.(body := s.body + ["BRF:" + c + "\n"], brf := r.brf);
    BranchesHitAdded(s, d, r.brh, toInt);
    s := s.(body := s.body + ["BRH:" + d + "\n"], brh := r.brh);
    FourOf("LF:" + a + "\n", "LH:" + b + "\n", "BRF:" + c + "\n", "BRH:" + d + "\n");
    assert r == s;
  }

  /** A report of one record with its four counters. */
  lemma TotalsOfOneRecord(path: string, a: string, b: string, c: string, d: string, lf: int, lh: int, brf: int,
        brh: int, m: Matcher, toInt: ToInt)
    requires PlainFile(path) && m(path)
    requires NumberText(a, toInt, lf) && NumberText(b, toInt, lh)
    requires NumberText(c, toInt, brf) && NumberText(d, toInt, brh)
    ensures LcovTotals(["SF:" + path + "\n"] + FourLines(a, b, c, d) + ["end_of_record\n"], m, toInt) ==
            Some(Totals(lh, lf, brh, brf))
  {
    var r := TextRecord(path, FourLines(a, b, c, d), lf, lh, brf, brh);
    FourCounters(r, a, b, c, d, toInt);
    OneRecordTotals(r, m, toInt);
  }

  lemma OneRecordTotals(r: TextRecord, m: Matcher, toInt: ToInt)
    requires WellFormed(r, toInt) && m(r.path)
    ensures LcovTotals(Text(r), m, toInt) == Some(Totals(r.lh, r.lf, r.brh, r.brf))
  {
    TotalsOfText([r], m, toInt);
    OneRecordText(r);
    OneSum(r, m, LinesHit);
    OneSum(r, m, LinesFound);
    OneSum(r, m, BranchesHit);
    OneSum(r, m, BranchesFound);
  }

  lemma OneSum(r: TextRecord, m: Matcher, number: TextRecord -> int)
    requires m(r.path)
    ensures SumOf([r], m, number) == number(r)
  {
    assert [r][1..] == [];
  }

  lemma OneRecordText(r: TextRecord)
    ensures ReportText([r]) == Text(r)
  {
    assert [r][1..] == [];
  }

  /*********************************** The filter on such a report ***********************************/

  /** The records whose file is in scope, in order. */
  function InScopeOf(rs: seq<TextRecord>, scope: Matcher): seq<TextRecord> {
    if rs == [] then [] else (if scope(rs[0].path) then [rs[0]] else []) + InScopeOf(rs[1..], scope)
  }

  predicate FilterWellFormed(r: TextRecord) {
    PlainFile(r.path) && forall line | line in r.body :: !("SF:" <= line) && !("end_of_record" <= line)
  }

  lemma ClassifyAppend(a: seq<string>, b: seq<string>, toInt: ToInt)
    ensures ClassifyAll(a + b, toInt) == ClassifyAll(a, toInt) + ClassifyAll(b, toInt)
  {
  }

  lemma ClassifiedText(first: string, body: seq<string>, last: string, rest: seq<string>, toInt: ToInt)
    ensures ClassifyAll([first] + body + [last] + rest, toInt) ==
            [Classify(first, toInt)] + (ClassifyAll(body, toInt) + ([Classify(last, toInt)] + ClassifyAll(rest, toInt)))
  {
    ClassifyAppend([first] + body + [last], rest, toInt);
    ClassifyAppend([first] + body, [last], toInt);
    ClassifyAppend([first], body, toInt);
    assert ClassifyAll([first], toInt) == [Classify(first, toInt)];
    assert ClassifyAll([last], toInt) == [Classify(last, toInt)];
    Reassociate([Classify(first, toInt)], ClassifyAll(body, toInt), [Classify(last, toInt)], ClassifyAll(rest, toInt));
  }

  lemma Reassociate<T>(a: seq<T>, b: seq<T>, c: seq<T>, d: seq<T>)
    ensures a + b + c + d == a + (b + (c + d))
  {
  }

  lemma InnerLines(r: TextRecord, toInt: ToInt)
    requires FilterWellFormed(r)
    ensures forall l :: l in ClassifyAll(r.body, toInt) ==> l.filter.InRecord?
  {
    forall l | l in ClassifyAll(r.body, toInt)
      ensures l.filter.InRecord?
    {
      var i :| 0 <= i < |r.body| && ClassifyAll(r.body, toInt)[i] == l;
      assert r.body[i] in r.body;
    }
  }

  lemma KeptLines(first: string, body: seq<string>, last: string, rest: seq<string>, scope: Matcher, end: Line,
        toInt: ToInt)
    requires Filtered(first).StartsFile? && Filtered(last).EndsRecord?
    requires forall l :: l in ClassifyAll(body, toInt) ==> l.filter.InRecord?
    ensures Kept(None, ClassifyAll([first] + body + [last] + rest, toInt), scope, end) ==
            (if scope(Filtered(first).path) then ClassifyAll([first] + body + [last], toInt) else []) +
                Kept(None, ClassifyAll(rest, toInt), scope, end)
  {
    var file, inner, terminator := Classify(first, toInt), ClassifyAll(body, toInt), Classify(last, toInt);
    ClassifiedText(first, body, last, rest, toInt);
    ClassifiedText(first, body, last, [], toInt);
    assert [first] + body + [last] + [] == [first] + body + [last];
    assert [terminator] + ClassifyAll([], toInt) == [terminator];
    KeptRecordThen(file, inner, terminator, ClassifyAll(rest, toInt), scope, end);
  }

  lemma KeptText(r: TextRecord, rest: seq<string>, scope: Matcher, end: Line, toInt: ToInt)
    requires FilterWellFormed(r)
    ensures Kept(None, ClassifyAll(Text(r) + rest, toInt), scope, end) ==
            (if scope(r.path) then ClassifyAll(Text(r), toInt) else []) +
                Kept(None, ClassifyAll(rest, toInt), scope, end)
  {
    FileLine(r.path, toInt);
    EndLineViews(toInt);
    InnerLines(r, toInt);
    KeptLines("SF:" + r.path + "\n", r.body, "end_of_record\n", rest, scope, end, toInt);
  }

  lemma KeptRecordThen(file: Line, body: seq<Line>, last: Line, rest: seq<Line>, scope: Matcher, end: Line)
    requires file.filter.StartsFile? && last.filter.EndsRecord? && forall l :: l in body ==> l.filter.InRecord?
    ensures Kept(None, [file] + (body + ([last] + rest)), scope, end) ==
            (if scope(file.filter.path) then [file] + (body + [last]) else []) + Kept(None, rest, scope, end)
  {
    var keep, next := scope(file.filter.path), Kept(None, rest, scope, end);
    KeptCons(None, file, body + ([last] + rest), scope, end);
    KeptBody(Some(keep), body, [last] + rest, scope, end);
    KeptCons(Some(keep), last, rest, scope, end);
    if keep {
      Reassociate([file], body, [last], next);
      Regroup([file], body, [last]);
      assert [] + [file] == [file];
    } else {
      assert [] + next == next;
    }
  }

  lemma {:induction false} KeptRecordsOfText(rs: seq<TextRecord>, scope: Matcher, end: Line, toInt: ToInt)
    requires forall r | r in rs :: FilterWellFormed(r)
    ensures Kept(None, ClassifyAll(ReportText(rs), toInt), scope, end) ==
            ClassifyAll(ReportText(InScopeOf(rs, scope)), toInt)
  {
    if rs != [] {
      var r, kept := rs[0], InScopeOf(rs[1..], scope);
      KeptRecordsOfText(rs[1..], scope, end, toInt);
      KeptText(r, ReportText(rs[1..]), scope, end, toInt);
      if scope(r.path) {
        assert ([r] + kept)[1..] == kept;
        ClassifyAppend(Text(r), ReportText(kept), toInt);
      } else {
        assert InScopeOf(rs, scope) == kept;
      }
    }
  }

  lemma RawsOfClassified(lines: seq<string>, toInt: ToInt)
    ensures Raws(ClassifyAll(lines, toInt)) == lines
  {
  }

  /** The report that is written when nothing is in scope. */
  lemma DummyReportText()
    ensures DummyLines() == ["TN:" + "\n", "SF:dummy" + "\n", "FN:1,dummy" + "\n", "FNDA:0,dummy" + "\n",
                             "FNF:1" + "\n", "FNH:0" + "\n", "end_of_record" + "\n"]
  {
  }

  /** The filter writes the text of the records in scope, unchanged and in order, or the dummy report. */
  lemma FilterOfText(rs: seq<TextRecord>, scope: Matcher, toInt: ToInt)
    requires forall r | r in rs :: FilterWellFormed(r)
    ensures var kept := InScopeOf(rs, scope);
            Filter(ReportText(rs), scope, toInt) == if kept == [] then DummyLines() else ReportText(kept)
  {
    var kept := InScopeOf(rs, scope);
    KeptRecordsOfText(rs, scope, FixedLines(toInt).end, toInt);
    assert kept != [] ==> ReportText(kept) != [];
    RawsOfClassified(DummyLines(), toInt);
    RawsOfClassified(ReportText(kept), toInt);
  }

  lemma {:induction false} CountFilesAppend(a: seq<Line>, b: seq<Line>, scope: Matcher, keep: bool)
    ensures CountFiles(a + b, scope, keep) == CountFiles(a, scope, keep) + CountFiles(b, scope, keep)
  {
    if a == [] {
      assert a + b == b;
    } else {
      assert (a + b)[1..] == a[1..] + b;
      CountFilesAppend(a[1..], b, scope, keep);
    }
  }

  lemma {:induction false} NoFilesInside(body: seq<Line>, rest: seq<Line>, scope: Matcher, keep: bool)
    requires forall l :: l in body ==> l.filter.InRecord?
    ensures CountFiles(body, scope, keep) == 0
    ensures CountStrayEnds(true, body + rest) == CountStrayEnds(true, rest)
  {
    if body == [] {
      assert body + rest == rest;
    } else {
      assert (body + rest)[1..] == body[1..] + rest;
      NoFilesInside(body[1..], rest, scope, keep);
    }
  }

  lemma CountsOfRecord(file: Line, body: seq<Line>, last: Line, rest: seq<Line>, scope: Matcher, keep: bool)
    requires file.filter.StartsFile? && last.filter.EndsRecord? && forall l :: l in body ==> l.filter.InRecord?
    ensures CountFiles([file] + (body + ([last] + rest)), scope, keep) ==
            (if scope(file.filter.path) == keep then 1 else 0) + CountFiles(rest, scope, keep)
    ensures CountStrayEnds(false, [file] + (body + ([last] + rest))) == CountStrayEnds(false, rest)
  {
    NoFilesInside(body, [last] + rest, scope, keep);
    CountFilesAppend(body, [last] + rest, scope, keep);
    assert ([last] + rest)[1..] == rest;
    assert ([file] + (body + ([last] + rest)))[1..] == body + ([last] + rest);
  }

  /** The counts that the filter returns: the records in scope, and the others. */
  lemma {:induction false} CountsOfText(rs: seq<TextRecord>, scope: Matcher, toInt: ToInt)
    requires forall r | r in rs :: FilterWellFormed(r)
    ensures var ls := ClassifyAll(ReportText(rs), toInt);
            && CountFiles(ls, scope, true) == |InScopeOf(rs, scope)|
            && CountFiles(ls, scope, false) + CountStrayEnds(false, ls) == |rs| - |InScopeOf(rs, scope)|
            && CountStrayEnds(false, ls) == 0
  {
    if rs != [] {
      CountsOfText(rs[1..], scope, toInt);
      CountsOfFirst(rs[0], ReportText(rs[1..]), scope, true, toInt);
      CountsOfFirst(rs[0], ReportText(rs[1..]), scope, false, toInt);
    }
  }

  lemma CountsOfFirst(r: TextRecord, rest: seq<string>, scope: Matcher, keep: bool, toInt: ToInt)
    requires FilterWellFormed(r)
    ensures CountFiles(ClassifyAll(Text(r) + rest, toInt), scope, keep) ==
            (if scope(r.path) == keep then 1 else 0) + CountFiles(ClassifyAll(rest, toInt), scope, keep)
    ensures CountStrayEnds(false, ClassifyAll(Text(r) + rest, toInt)) ==
            CountStrayEnds(false, ClassifyAll(rest, toInt))
  {
    FileLine(r.path, toInt);
    EndLineViews(toInt);
    InnerLines(r, toInt);
    var first, last := "SF:" + r.path + "\n", "end_of_record\n";
    ClassifiedText(first, r.body, last, rest, toInt);
    CountsOfRecord(Classify(first, toInt), ClassifyAll(r.body, toInt), Classify(last, toInt), ClassifyAll(rest, toInt),
                   scope, keep);
  }

  /** A terminator that closes no record counts as one record left out. */
  lemma StrayEndCounts(rest: seq<string>, scope: Matcher, keep: bool, toInt: ToInt)
    ensures var ls, all := ClassifyAll(rest, toInt), ClassifyAll(["end_of_record\n"] + rest, toInt);
            && CountStrayEnds(false, all) == 1 + CountStrayEnds(false, ls)
            && CountFiles(all, scope, keep) == CountFiles(ls, scope, keep)
  {
    var last := "end_of_record\n";
    EndLineViews(toInt);
    ClassifyAppend([last], rest, toInt);
    assert ClassifyAll([last], toInt) == [Classify(last, toInt)];
    assert ([Classify(last, toInt)] + ClassifyAll(rest, toInt))[1..] == ClassifyAll(rest, toInt);
  }

  lemma KeptOpenEnd(file: Line, body: seq<Line>, scope: Matcher, end: Line)
    requires file.filter.StartsFile? && scope(file.filter.path) && forall l :: l in body ==> l.filter.InRecord?
    ensures Kept(None, [file] + body, scope, end) == [file] + body + [end]
  {
    KeptCons(None, file, body, scope, end);
    KeptBody(Some(true), body, [], scope, end);
    assert body + [] == body && [] + [file] == [file];
    Regroup([file], body, [end]);
  }

  /** A last record in scope that has no terminator gets one. */
  lemma TerminatorIsAdded(r: TextRecord, scope: Matcher, toInt: ToInt)
    requires FilterWellFormed(r) && scope(r.path)
    ensures Filter(["SF:" + r.path + "\n"] + r.body, scope, toInt) == Text(r)
  {
    var first := "SF:" + r.path + "\n";
    FileLine(r.path, toInt);
    EndLineViews(toInt);
    InnerLines(r, toInt);
    ClassifyAppend([first], r.body, toInt);
    assert ClassifyAll([first], toInt) == [Classify(first, toInt)];
    KeptOpenEnd(Classify(first, toInt), ClassifyAll(r.body, toInt), scope, FixedLines(toInt).end);
    ClassifyAppend([first] + r.body, ["end_of_record\n"], toInt);
    TerminatedText(r, toInt);
  }

  lemma TerminatedText(r: TextRecord, toInt: ToInt)
    ensures Raws(ClassifyAll(["SF:" + r.path + "\n"] + r.body, toInt) + [Classify(END_LINE, toInt)]) == Text(r)
  {
  }
}
