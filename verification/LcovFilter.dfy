/**
 `_filter_nimbus_lcov_report` keeps the records of an lcov report whose file is in scope, and
 `parse_lcov` then counts what is left.  The filter looks at raw lines and the parser at
 stripped ones; this module says when that difference matters.
 */
module LcovFilter {
  import opened Sequences
  import opened Wrappers
  import opened PyString
  import opened Coverage
  import opened Lcov

  datatype FilterView = StartsFile(path: string) | EndsRecord | InRecord

  function Filtered(raw: string): FilterView {
    if "SF:" <= raw then StartsFile(Strip(raw[3..]))
    else if "end_of_record" <= raw then EndsRecord
    else InRecord
  }

  lemma ViewsOfMarkers(raw: string, toInt: ToInt)
    ensures Filtered(raw).StartsFile? ==> Parsed(raw, toInt).SourceFile?
    ensures Filtered(raw).EndsRecord? ==> Parsed(raw, toInt).EndOfRecord? || Parsed(raw, toInt).Ignored?
  {
    if "SF:" <= raw {
      StripKeepsPrefix(raw, "SF:");
    } else if "end_of_record" <= raw {
      StripKeepsPrefix(raw, "end_of_record");
    }
  }

  /** A raw line with what the filter and the parser make of it. */
  datatype Line = Line(raw: string, filter: FilterView, parser: ParserView)

  function Classify(raw: string, toInt: ToInt): Line {
    Line(raw, Filtered(raw), Parsed(raw, toInt))
  }

  function ClassifyAll(lines: seq<string>, toInt: ToInt): (r: seq<Line>)
    ensures |r| == |lines|
    ensures forall i :: 0 <= i < |lines| ==> r[i] == Classify(lines[i], toInt)
  {
    seq(|lines|, i requires 0 <= i < |lines| => Classify(lines[i], toInt))
  }

  function ParserViews(lines: seq<Line>): (views: seq<ParserView>)
    ensures |views| == |lines|
    ensures forall i :: 0 <= i < |lines| ==> views[i] == lines[i].parser
  {
    seq(|lines|, i requires 0 <= i < |lines| => lines[i].parser)
  }

  /************************************** The filter **************************************/

  /** What the filter decides to write when it reads `l`. */
  function Written(open: Option<bool>, l: Line, scope: Matcher, end: Line): seq<Line> {
    match l.filter
    case StartsFile(path) => (if open == Some(true) then [end] else []) + (if scope(path) then [l] else [])
    case _ => if open == Some(true) then [l] else []
  }

  function NextOpen(open: Option<bool>, l: Line, scope: Matcher): Option<bool> {
    match l.filter
    case StartsFile(path) => Some(scope(path))
    case EndsRecord => None
    case InRecord => open
  }

  /**
   What the filter writes from `lines` on.  `open` is the pending decision on the current
   record, None between records; `end` is the terminator added to a record that has none.
   */
  function Kept(open: Option<bool>, lines: seq<Line>, scope: Matcher, end: Line): seq<Line>
    decreases |lines|
  {
    if lines == [] then (if open == Some(true) then [end] else [])
    else Written(open, lines[0], scope, end) + Kept(NextOpen(open, lines[0], scope), lines[1..], scope, end)
  }

  /** The lines the filter adds of its own: a terminator, and a report for the case that nothing is kept. */
  datatype Fixed = Fixed(end: Line, dummy: seq<Line>)

  function Output(lines: seq<Line>, scope: Matcher, fixed: Fixed): seq<Line> {
    var kept := Kept(None, lines, scope, fixed.end);
    if kept == [] then fixed.dummy else kept
  }

  /** The file records of the report whose decision is `keep`. */
  function CountFiles(lines: seq<Line>, scope: Matcher, keep: bool): nat {
    if lines == [] then 0
    else (if lines[0].filter.StartsFile? && scope(lines[0].filter.path) == keep then 1 else 0)
         + CountFiles(lines[1..], scope, keep)
  }

  /** The terminators that close no record. */
  function CountStrayEnds(open: bool, lines: seq<Line>): nat
    decreases |lines|
  {
    if lines == [] then 0
    else match lines[0].filter
      case StartsFile(_) => CountStrayEnds(true, lines[1..])
      case EndsRecord => (if open then 0 else 1) + CountStrayEnds(false, lines[1..])
      case InRecord => CountStrayEnds(open, lines[1..])
  }

  /** What is written for line `i` moves from the rest of the run to the part done. */
  lemma KeptGoesOn(written: seq<Line>, open: Option<bool>, lines: seq<Line>, i: nat, scope: Matcher, end: Line)
    requires i < |lines|
    ensures written + Kept(open, lines[i..], scope, end) ==
            written + Written(open, lines[i], scope, end) +
                Kept(NextOpen(open, lines[i], scope), lines[i + 1..], scope, end)
  {
    TailFrom(lines, i);
    Regroup(written, Written(open, lines[i], scope, end),
            Kept(NextOpen(open, lines[i], scope), lines[i + 1..], scope, end));
  }

  lemma CountsGoOn(lines: seq<Line>, i: nat, scope: Matcher, open: bool)
    requires i < |lines|
    ensures var f := lines[i].filter;
            && CountFiles(lines[i..], scope, true) ==
               CountFiles(lines[i + 1..], scope, true) + (if f.StartsFile? && scope(f.path) then 1 else 0)
            && CountFiles(lines[i..], scope, false) ==
               CountFiles(lines[i + 1..], scope, false) + (if f.StartsFile? && !scope(f.path) then 1 else 0)
            && CountStrayEnds(open, lines[i..]) ==
               CountStrayEnds(if f.StartsFile? then true else if f.EndsRecord? then false else open, lines[i + 1..])
               + (if f.EndsRecord? && !open then 1 else 0)
  {
    TailFrom(lines, i);
  }

  /** `_filter_nimbus_lcov_report`, with the two counts it prints. */
  method FilterReport(lines: seq<Line>, scope: Matcher, fixed: Fixed)
    returns (outputLines: seq<Line>, includedCount: nat, excludedCount: nat)
    ensures outputLines == Output(lines, scope, fixed)
    ensures includedCount == CountFiles(lines, scope, true)
    ensures excludedCount == CountFiles(lines, scope, false) + CountStrayEnds(false, lines)
  {
    var end := fixed.end;
    var currentRecord: seq<Line> := [];
    var currentFile: Option<string> := None;
    var shouldInclude := false;
    outputLines, includedCount, excludedCount := [], 0, 0;
    ghost var written: seq<Line>, open := [], None;
    assert lines[0..] == lines;
    for i := 0 to |lines|
      invariant open == if currentFile.None? then None else Some(shouldInclude)
      invariant shouldInclude ==> open == Some(true)
      invariant written == outputLines + if shouldInclude then currentRecord else []
      invariant written + Kept(open, lines[i..], scope, end) == Kept(None, lines, scope, end)
      invariant includedCount + (if shouldInclude then 1 else 0) + CountFiles(lines[i..], scope, true)
                == CountFiles(lines, scope, true)
      invariant excludedCount + (if open == Some(false) then 1 else 0)
                + CountFiles(lines[i..], scope, false) + CountStrayEnds(open.Some?, lines[i..])
                == CountFiles(lines, scope, false) + CountStrayEnds(false, lines)
    {
      var line := lines[i];
      KeptGoesOn(written, open, lines, i, scope, end);
      CountsGoOn(lines, i, scope, open.Some?);
      ghost var step := Written(open, line, scope, end);
      match line.filter {
        case StartsFile(path) =>
          if currentFile.Some? && shouldInclude {
            outputLines := outputLines + currentRecord + [end];
            includedCount := includedCount + 1;
          } else if currentFile.Some? {
            excludedCount := excludedCount + 1;
          }
          currentRecord, currentFile := [line], Some(path);
          shouldInclude := scope(path);
        case EndsRecord =>
          if shouldInclude {
            outputLines := outputLines + currentRecord + [line];
            includedCount := includedCount + 1;
          } else {
            excludedCount := excludedCount + 1;
          }
          currentRecord, currentFile, shouldInclude := [], None, false;
        case InRecord =>
          if currentFile.Some? {
            currentRecord := currentRecord + [line];
          }
      }
      written, open := written + step, NextOpen(open, line, scope);
    }
    assert lines[|lines|..] == [];
    if currentFile.Some? {
      if shouldInclude {
        outputLines := outputLines + currentRecord + [end];
        includedCount := includedCount + 1;
      } else {
        excludedCount := excludedCount + 1;
      }
    }
    if outputLines == [] {
      outputLines := fixed.dummy;
    }
  }

  /****************************** Filtering, then counting ******************************/

  /** Both programs cut the report at this line in the same way. */
  predicate Safe(l: Line) {
    && (l.filter.EndsRecord? ==> l.parser.EndOfRecord?)
    && (l.parser.SourceFile? && l.parser.path != "" ==> l.filter.StartsFile?)
    && (l.filter.StartsFile? ==> l.parser.SourceFile?)
  }

  /** The filter's scope, which sees the path its own way, as a scope on the parser's paths. */
  predicate SameScope(l: Line, filterScope: Matcher, scope: Matcher) {
    l.filter.StartsFile? && l.parser.SourceFile? && l.parser.path != ""
    ==> filterScope(l.filter.path) == scope(l.parser.path)
  }

  function Restrict(entries: seq<Entry>, scope: Matcher): seq<Entry> {
    if entries == [] then []
    else (if scope(entries[0].path) then [entries[0]] else []) + Restrict(entries[1..], scope)
  }

  lemma {:induction false} RestrictAppend(a: seq<Entry>, b: seq<Entry>, scope: Matcher)
    ensures Restrict(a + b, scope) == Restrict(a, scope) + Restrict(b, scope)
  {
    if a == [] {
      assert a + b == b;
    } else {
      assert (a + b)[1..] == a[1..] + b;
      RestrictAppend(a[1..], b, scope);
      Regroup(if scope(a[0].path) then [a[0]] else [], Restrict(a[1..], scope), Restrict(b, scope));
    }
  }

  lemma RestrictPending(s: Scan, scope: Matcher)
    ensures Restrict(Pending(s), scope) == if Named(s) && scope(s.file.value) then Pending(s) else []
  {
    if Named(s) {
      assert Pending(s)[1..] == [];
    }
  }

  /** How the parser's states on the filtered (`p`) and on the original report (`q`) correspond. */
  predicate InStep(open: Option<bool>, p: Scan, q: Scan, scope: Matcher) {
    if open == Some(true) then p == q && (Named(q) ==> scope(q.file.value))
    else p == FRESH && (Named(q) ==> !scope(q.file.value))
  }

  lemma ConsViews(l: Line, rest: seq<Line>)
    ensures ParserViews([l] + rest) == [l.parser] + ParserViews(rest)
  {
  }

  lemma RestCons(s: Scan, v: ParserView, views: seq<ParserView>)
    ensures Rest(s, [v] + views) == (if Flushes(v) then Pending(s) else []) + Rest(Next(s, v), views)
  {
    assert ([v] + views)[1..] == views;
  }

  /** The tail of the filtered run after a step that keeps `written` of the report. */
  lemma StepWrites(p: Scan, written: seq<Line>, next: seq<Line>)
    requires |written| <= 1
    ensures Rest(p, ParserViews(written + next)) ==
            if written == [] then Rest(p, ParserViews(next))
            else
              (if Flushes(written[0].parser) then Pending(p) else [])
              + Rest(Next(p, written[0].parser), ParserViews(next))
  {
    if written == [] {
      assert written + next == next;
    } else {
      assert written + next == [written[0]] + next;
      ConsViews(written[0], next);
      RestCons(p, written[0].parser, ParserViews(next));
    }
  }

  lemma RestrictStep(q: Scan, v: ParserView, views: seq<ParserView>, scope: Matcher)
    ensures Restrict(Rest(q, [v] + views), scope) ==
            (if Flushes(v) && Named(q) && scope(q.file.value) then Pending(q) else []) +
                Restrict(Rest(Next(q, v), views), scope)
  {
    RestCons(q, v, views);
    RestrictPending(q, scope);
    RestrictAppend(if Flushes(v) then Pending(q) else [], Rest(Next(q, v), views), scope);
  }

  /** The parser run on what the filter writes follows the parser run on the original report. */
  lemma {:induction false} FilteredRunFollows(open: Option<bool>, p: Scan, q: Scan, lines: seq<Line>,
                                              filterScope: Matcher, scope: Matcher, end: Line)
    requires InStep(open, p, q, scope) && end.parser.EndOfRecord?
    requires forall l :: l in lines ==> Safe(l) && SameScope(l, filterScope, scope)
    ensures Rest(p, ParserViews(Kept(open, lines, filterScope, end))) == Restrict(Rest(q, ParserViews(lines)), scope)
    decreases |lines|
  {
    if lines == [] {
      RestrictPending(q, scope);
      StepWrites(p, if open == Some(true) then [end] else [], []);
    } else {
      var l, rest := lines[0], lines[1..];
      assert l in lines;
      assert lines == [l] + rest;
      ConsViews(l, rest);
      RestrictStep(q, l.parser, ParserViews(rest), scope);
      var q' := Next(q, l.parser);
      match l.filter {
        case StartsFile(path) =>
          FilteredRunFollows(Some(filterScope(path)), if filterScope(path) then q' else FRESH, q', rest,
                             filterScope, scope, end);
          StartStep(open, p, l, filterScope(path), Kept(Some(filterScope(path)), rest, filterScope, end), end);
        case EndsRecord =>
          FilteredRunFollows(None, FRESH, q', rest, filterScope, scope, end);
          StepWrites(p, if open == Some(true) then [l] else [], Kept(None, rest, filterScope, end));
        case InRecord =>
          FilteredRunFollows(open, if open == Some(true) then q' else FRESH, q', rest, filterScope, scope, end);
          StepWrites(p, if open == Some(true) then [l] else [], Kept(open, rest, filterScope, end));
      }
    }
  }

  lemma StartWrites(l: Line, keep: bool, next: seq<Line>)
    requires l.parser.SourceFile?
    ensures Rest(FRESH, ParserViews((if keep then [l] else []) + next)) ==
            Rest(if keep then Next(FRESH, l.parser) else FRESH, ParserViews(next))
  {
    if keep {
      assert [l] + next == [l] + next;
      ConsViews(l, next);
      RestCons(FRESH, l.parser, ParserViews(next));
      assert [] + Rest(Next(FRESH, l.parser), ParserViews(next)) == Rest(Next(FRESH, l.parser), ParserViews(next));
    } else {
      assert [] + next == next;
    }
  }

  /** The terminator that is added to a kept record flushes it. */
  lemma EndWrites(p: Scan, end: Line, next: seq<Line>)
    requires end.parser.EndOfRecord?
    ensures Rest(p, ParserViews([end] + next)) == Pending(p) + Rest(FRESH, ParserViews(next))
  {
    ConsViews(end, next);
    RestCons(p, end.parser, ParserViews(next));
  }

  lemma StartStep(open: Option<bool>, p: Scan, l: Line, keep: bool, next: seq<Line>, end: Line)
    requires end.parser.EndOfRecord? && l.parser.SourceFile?
    requires open == Some(true) || p == FRESH
    ensures Rest(p, ParserViews((if open == Some(true) then [end] else []) + (if keep then [l] else []) + next)) ==
            (if open == Some(true) then Pending(p) else [])
            + Rest(if keep then Next(FRESH, l.parser) else FRESH, ParserViews(next))
  {
    var kept := if keep then [l] else [];
    StartWrites(l, keep, next);
    if open == Some(true) {
      EndWrites(p, end, kept + next);
      assert [end] + kept + next == [end] + (kept + next);
    } else {
      assert [] + kept + next == kept + next;
    }
  }

  /** Counting the restricted records is counting under both scopes. */
  lemma {:induction false} SumOfRestrict(entries: seq<Entry>, scope: Matcher, m: Matcher, part: Part)
    ensures Sum(Restrict(entries, scope), m, part) == Sum(entries, Both(scope, m), part)
  {
    if entries != [] {
      SumOfRestrict(entries[1..], scope, m, part);
      var head := if scope(entries[0].path) then [entries[0]] else [];
      SumAppend(head, Restrict(entries[1..], scope), m, part);
      assert head != [] ==> head[1..] == [];
    }
  }

  lemma TotalOfRestrict(entries: seq<Entry>, scope: Matcher, m: Matcher)
    ensures Total(Restrict(entries, scope), m) == Total(entries, Both(scope, m))
  {
    SumOfRestrict(entries, scope, m, CoveredPrimary);
    SumOfRestrict(entries, scope, m, TotalPrimary);
    SumOfRestrict(entries, scope, m, CoveredBranch);
    SumOfRestrict(entries, scope, m, TotalBranch);
  }

  lemma {:induction false} KeptLinesAreGiven(open: Option<bool>, lines: seq<Line>, scope: Matcher, end: Line)
    ensures forall l :: l in Kept(open, lines, scope, end) ==> l in lines || l == end
    decreases |lines|
  {
    if lines != [] {
      KeptLinesAreGiven(NextOpen(open, lines[0], scope), lines[1..], scope, end);
    }
  }

  lemma KeptCons(open: Option<bool>, l: Line, rest: seq<Line>, scope: Matcher, end: Line)
    ensures Kept(open, [l] + rest, scope, end) ==
            Written(open, l, scope, end) + Kept(NextOpen(open, l, scope), rest, scope, end)
  {
    assert ([l] + rest)[1..] == rest;
  }

  /** Something is written exactly if some file is in scope. */
  lemma {:induction false} KeptNothing(open: Option<bool>, lines: seq<Line>, scope: Matcher, end: Line)
    ensures Kept(open, lines, scope, end) == [] <==> open != Some(true) && CountFiles(lines, scope, true) == 0
    decreases |lines|
  {
    if lines != [] {
      KeptNothing(NextOpen(open, lines[0], scope), lines[1..], scope, end);
    }
  }

  lemma {:induction false} KeptBody(open: Option<bool>, body: seq<Line>, rest: seq<Line>, scope: Matcher, end: Line)
    requires forall l :: l in body ==> l.filter.InRecord?
    ensures Kept(open, body + rest, scope, end) ==
            (if open == Some(true) then body else []) + Kept(open, rest, scope, end)
  {
    if body == [] {
      assert body + rest == rest;
    } else {
      assert body + rest == [body[0]] + (body[1..] + rest);
      KeptCons(open, body[0], body[1..] + rest, scope, end);
      KeptBody(open, body[1..], rest, scope, end);
    }
  }

  /** A report of a single record after a line outside records. */
  lemma KeptRecord(d: seq<Line>, scope: Matcher, end: Line)
    requires |d| > 2 && d[0].filter.InRecord? && d[1].filter.StartsFile? && d[|d| - 1].filter.EndsRecord?
    requires forall i :: 2 <= i < |d| - 1 ==> d[i].filter.InRecord?
    ensures Kept(None, d, scope, end) == if scope(d[1].filter.path) then d[1..] else []
  {
    var body, last := d[2..|d| - 1], d[|d| - 1];
    assert d == [d[0]] + d[1..] && d[1..] == [d[1]] + (body + [last]);
    KeptCons(None, d[0], d[1..], scope, end);
    KeptFile(d[1], body, last, scope, end);
  }

  lemma KeptFile(file: Line, body: seq<Line>, last: Line, scope: Matcher, end: Line)
    requires file.filter.StartsFile? && last.filter.EndsRecord? && forall l :: l in body ==> l.filter.InRecord?
    ensures Kept(None, [file] + (body + [last]), scope, end) ==
            if scope(file.filter.path) then [file] + (body + [last]) else []
  {
    KeptCons(None, file, body + [last], scope, end);
    KeptEnd(Some(scope(file.filter.path)), body, last, scope, end);
  }

  lemma KeptEnd(open: Option<bool>, body: seq<Line>, last: Line, scope: Matcher, end: Line)
    requires last.filter.EndsRecord? && forall l :: l in body ==> l.filter.InRecord?
    ensures Kept(open, body + [last], scope, end) == if open == Some(true) then body + [last] else []
  {
    KeptBody(open, body, [last], scope, end);
    assert [last] + [] == [last];
    KeptCons(open, last, [], scope, end);
  }

  /** Before a kept report, a file left out is as good as none. */
  function Reopen(open: Option<bool>): Option<bool> {
    if open == Some(true) then open else None
  }

  lemma KeptAgainFile(l: Line, next: seq<Line>, scope: Matcher, end: Line)
    requires l.filter.StartsFile? && Kept(Reopen(Some(scope(l.filter.path))), next, scope, end) == next
    ensures var kept := if scope(l.filter.path) then [l] else []; Kept(None, kept + next, scope, end) == kept + next
  {
    if scope(l.filter.path) {
      KeptCons(None, l, next, scope, end);
    } else {
      assert [] + next == next;
    }
  }

  lemma KeptAgainEnd(end: Line, next: seq<Line>, again: seq<Line>, scope: Matcher)
    requires end.filter.EndsRecord? && again == [end] + next && Kept(None, next, scope, end) == next
    ensures Kept(Some(true), again, scope, end) == again
  {
    KeptCons(Some(true), end, next, scope, end);
  }

  lemma KeptAgainLine(l: Line, next: seq<Line>, again: seq<Line>, scope: Matcher, end: Line)
    requires !l.filter.StartsFile? && again == [l] + next &&
               Kept(NextOpen(Some(true), l, scope), next, scope, end) == next
    ensures Kept(Some(true), again, scope, end) == again
  {
    KeptCons(Some(true), l, next, scope, end);
  }

  lemma KeptAgainStart(open: Option<bool>, rest: seq<Line>, again: seq<Line>, scope: Matcher, end: Line)
    requires end.filter.EndsRecord? && Kept(None, rest, scope, end) == rest
    requires again == (if open == Some(true) then [end] else []) + rest
    ensures Kept(Reopen(open), again, scope, end) == again
  {
    if open == Some(true) {
      KeptAgainEnd(end, rest, again, scope);
    } else {
      assert again == rest;
    }
  }

  lemma WrittenStart(open: Option<bool>, l: Line, next: seq<Line>, scope: Matcher, end: Line)
    requires l.filter.StartsFile?
    ensures Written(open, l, scope, end) + next ==
            (if open == Some(true) then [end] else []) + ((if scope(l.filter.path) then [l] else []) + next)
  {
  }

  /** Filtering again what was written for one line and for the rest. */
  lemma KeptAgain(open: Option<bool>, l: Line, next: seq<Line>, again: seq<Line>, scope: Matcher, end: Line)
    requires end.filter.EndsRecord? && Kept(Reopen(NextOpen(open, l, scope)), next, scope, end) == next
    requires again == Written(open, l, scope, end) + next
    ensures Kept(Reopen(open), again, scope, end) == again
  {
    if l.filter.StartsFile? {
      KeptAgainFile(l, next, scope, end);
      WrittenStart(open, l, next, scope, end);
      KeptAgainStart(open, (if scope(l.filter.path) then [l] else []) + next, again, scope, end);
    } else if open == Some(true) {
      KeptAgainLine(l, next, again, scope, end);
    } else {
      assert again == next;
    }
  }

  /** Filtering what was kept keeps all of it. */
  lemma {:induction false} KeptTwice(open: Option<bool>, lines: seq<Line>, scope: Matcher, end: Line)
    requires end.filter.EndsRecord?
    ensures var once := Kept(open, lines, scope, end); Kept(Reopen(open), once, scope, end) == once
    decreases |lines|
  {
    if lines == [] {
      if open == Some(true) {
        KeptCons(open, end, [], scope, end);
      }
    } else {
      KeptTwice(NextOpen(open, lines[0], scope), lines[1..], scope, end);
      KeptAgain(open, lines[0], Kept(NextOpen(open, lines[0], scope), lines[1..], scope, end),
          Kept(open, lines, scope, end), scope, end);
    }
  }

  /** What the filter writes holds exactly the in-scope records of the report, in order and with their counts. */
  lemma KeptRecords(lines: seq<Line>, filterScope: Matcher, scope: Matcher, end: Line)
    requires end.parser.EndOfRecord?
    requires forall l :: l in lines ==> Safe(l) && SameScope(l, filterScope, scope)
    ensures Records(ParserViews(Kept(None, lines, filterScope, end))) == Restrict(Records(ParserViews(lines)), scope)
  {
    FilteredRunFollows(None, FRESH, FRESH, lines, filterScope, scope, end);
    RestIsRecords(ParserViews(lines));
    RestIsRecords(ParserViews(Kept(None, lines, filterScope, end)));
  }

  lemma RecordStep(path: string, body: seq<ParserView>, rest: seq<ParserView>)
    requires path != "" && (forall v :: v in body ==> !Flushes(v)) && (rest == [] || Flushes(rest[0]))
    ensures Records([SourceFile(path)] + body + rest) == [Entry(path, BodyTotals(body))] + Records(rest)
  {
    BodyOfPlain(body, rest);
    var views := [SourceFile(path)] + body + rest;
    assert views[1..] == body + rest;
    assert views[1..1 + |body|] == body;
    assert views[1 + |body|..] == rest;
  }

  lemma {:induction false} BodyOfPlain(body: seq<ParserView>, rest: seq<ParserView>)
    requires (forall v :: v in body ==> !Flushes(v)) && (rest == [] || Flushes(rest[0]))
    ensures BodyLength(body + rest) == |body|
  {
    if body == [] {
      assert body + rest == rest;
    } else {
      assert (body + rest)[1..] == body[1..] + rest;
      BodyOfPlain(body[1..], rest);
    }
  }
}
