/**
 lcov reports: `parse_lcov` reads one, `_filter_nimbus_lcov_report` rewrites one.

 A report is a sequence of raw lines.  The parser strips a line before looking at it, the
 filter does not, so each of the two has its own view of a line.  `ToInt` stands for Python's
 `int()` on a string, with None for ValueError.
 */
module Lcov {
  import opened Sequences
  import opened Wrappers
  import opened PyString
  import opened Coverage

  type ToInt = string -> Option<int>

  /*************************** How the two programs see one line ***************************/

  datatype Counter = LF | LH | BRF | BRH

  datatype ParserView =
    | SourceFile(path: string)
    | Count(counter: Counter, n: int)
    | Malformed
    | EndOfRecord
    | Ignored

  function CountView(counter: Counter, text: string, toInt: ToInt): ParserView {
    match toInt(text)
    case None => Malformed
    case Some(n) => Count(counter, n)
  }

  function Parsed(raw: string, toInt: ToInt): ParserView {
    var line := Strip(raw);
    if "SF:" <= line then SourceFile(NormalizePath(line[3..]))
    else if "LF:" <= line then CountView(LF, line[3..], toInt)
    else if "LH:" <= line then CountView(LH, line[3..], toInt)
    else if "BRF:" <= line then CountView(BRF, line[4..], toInt)
    else if "BRH:" <= line then CountView(BRH, line[4..], toInt)
    else if line == "end_of_record" then EndOfRecord
    else Ignored
  }

  function Views(lines: seq<string>, toInt: ToInt): (views: seq<ParserView>)
    ensures |views| == |lines|
    ensures forall i :: 0 <= i < |lines| ==> views[i] == Parsed(lines[i], toInt)
  {
    seq(|lines|, i requires 0 <= i < |lines| => Parsed(lines[i], toInt))
  }

  predicate Readable(views: seq<ParserView>) {
    forall v | v in views :: !v.Malformed?
  }

  /******************************** The parser as a machine ********************************/

  /** The variables lf, lh, brf and brh; a missing counter is 0. */
  type Counts = map<Counter, int>

  function Value(counts: Counts, counter: Counter): int {
    if counter in counts then counts[counter] else 0
  }

  function CountsTotals(counts: Counts): Totals {
    Totals(Value(counts, LH), Value(counts, LF), Value(counts, BRH), Value(counts, BRF))
  }

  datatype Scan = Scan(file: Option<string>, counts: Counts)

  const FRESH := Scan(None, map[])

  predicate Named(s: Scan) {
    s.file.Some? && s.file.value != ""
  }

  /** The record that `flush` hands to the totals in a given state, if it has a name. */
  function Pending(s: Scan): seq<Entry> {
    if Named(s) then [Entry(s.file.value, CountsTotals(s.counts))] else []
  }

  predicate Flushes(v: ParserView) {
    v.SourceFile? || v.EndOfRecord?
  }

  function Next(s: Scan, v: ParserView): Scan {
    match v
    case SourceFile(p) => Scan(Some(p), map[])
    case Count(c, n) => s.(counts := s.counts[c := n])
    case EndOfRecord => FRESH
    case _ => s
  }

  /** The records the machine still flushes when it is in state `s` before `views`. */
  function Rest(s: Scan, views: seq<ParserView>): seq<Entry>
    decreases |views|
  {
    if views == [] then Pending(s)
    else (if Flushes(views[0]) then Pending(s) else []) + Rest(Next(s, views[0]), views[1..])
  }

  /** The variables shared by `parse_lcov` and its inner function `flush`. */
  class LcovParser {
    const matcher: Matcher
    var totals: Totals
    var scan: Scan
    ghost var flushed: seq<Entry>

    ghost predicate Valid()
      reads this
    {
      totals == Total(flushed, matcher)
    }

    constructor (matcher: Matcher)
      ensures Valid() && this.matcher == matcher && flushed == [] && scan == FRESH
    {
      this.matcher := matcher;
      totals, scan, flushed := Totals(0, 0, 0, 0), FRESH, [];
    }

    method Flush()
      requires Valid()
      modifies this
      ensures Valid() && flushed == old(flushed) + Pending(old(scan)) && scan == FRESH
    {
      if Named(scan) {
        TotalSnoc(flushed, Pending(scan)[0], matcher);
        if matcher(scan.file.value) {
          totals := totals.Add(CountsTotals(scan.counts));
        }
      }
      assert !Named(scan) ==> flushed + Pending(scan) == flushed;
      flushed := flushed + Pending(scan);
      scan := FRESH;
    }

    /** The body of the line loop; false where `int()` raises ValueError. */
    method Read(v: ParserView) returns (ok: bool)
      requires Valid()
      modifies this
      ensures ok == !v.Malformed?
      ensures Valid() && scan == Next(old(scan), v)
      ensures flushed == old(flushed) + if Flushes(v) then Pending(old(scan)) else []
    {
      ok := !v.Malformed?;
      match v {
        case SourceFile(path) =>
          Flush();
          scan := scan.(file := Some(path));
        case Count(counter, n) =>
          scan := scan.(counts := scan.counts[counter := n]);
        case EndOfRecord =>
          Flush();
        case _ =>
      }
    }
  }

  /** Reading line `i`: what is flushed moves from the rest of the run to the part done. */
  lemma RestGoesOn(flushed: seq<Entry>, s: Scan, views: seq<ParserView>, i: nat)
    requires i < |views|
    ensures flushed + Rest(s, views[i..]) ==
            flushed + (if Flushes(views[i]) then Pending(s) else []) + Rest(Next(s, views[i]), views[i + 1..])
  {
    TailFrom(views, i);
    Regroup(flushed, if Flushes(views[i]) then Pending(s) else [], Rest(Next(s, views[i]), views[i + 1..]));
  }

  lemma ReadableSnoc(views: seq<ParserView>, i: nat)
    requires i < |views|
    ensures Readable(views[..i + 1]) <==> Readable(views[..i]) && !views[i].Malformed?
    ensures Readable(views) ==> !views[i].Malformed?
  {
    assert views[..i + 1] == views[..i] + [views[i]];
    assert views[i] in views;
  }

  /** The line loop of `parse_lcov`. */
  method ParseViews(views: seq<ParserView>, matcher: Matcher) returns (r: Option<Totals>)
    ensures r == if Readable(views) then Some(Total(Records(views), matcher)) else None
  {
    var p := new LcovParser(matcher);
    ghost var records := Records(views);
    RestIsRecords(views);
    assert views[0..] == views && views[..0] == [];
    for i := 0 to |views|
      invariant p.Valid() && p.matcher == matcher
      invariant Readable(views[..i])
      invariant p.flushed + Rest(p.scan, views[i..]) == records
    {
      RestGoesOn(p.flushed, p.scan, views, i);
      ReadableSnoc(views, i);
      var ok := p.Read(views[i]);
      if !ok {
        return None;
      }
    }
    assert views[..|views|] == views && views[|views|..] == [];
    p.Flush();
    return Some(p.totals);
  }

  /** `parse_lcov`: None when a counter of the report is not a number. */
  method ParseLcov(lines: seq<string>, matcher: Matcher, toInt: ToInt) returns (r: Option<Totals>)
    ensures r == LcovTotals(lines, matcher, toInt)
  {
    r := ParseViews(Views(lines, toInt), matcher);
  }

  /************************ The meaning of a report: a sum over records ********************/

  /** The number of lines before the next line that closes a record. */
  function BodyLength(views: seq<ParserView>): (n: nat)
    ensures n <= |views|
  {
    if views == [] || Flushes(views[0]) then 0 else 1 + BodyLength(views[1..])
  }

  /** The value of the last line of a record that gives this counter, 0 if there is none. */
  function LastCount(counter: Counter, body: seq<ParserView>): int {
    if body == [] then 0
    else
      var v := body[|body| - 1];
      if v.Count? && v.counter == counter then v.n else LastCount(counter, body[..|body| - 1])
  }

  function BodyTotals(body: seq<ParserView>): Totals {
    Totals(LastCount(LH, body), LastCount(LF, body), LastCount(BRH, body), LastCount(BRF, body))
  }

  /** The named records of a report, in order. */
  function Records(views: seq<ParserView>): seq<Entry>
    decreases |views|
  {
    if views == [] then []
    else if views[0].SourceFile? then
      var path, n := views[0].path, BodyLength(views[1..]);
      (if path == "" then [] else [Entry(path, BodyTotals(views[1..1 + n]))]) + Records(views[1 + n..])
    else Records(views[1..])
  }

  function LcovTotals(lines: seq<string>, m: Matcher, toInt: ToInt): Option<Totals> {
    var views := Views(lines, toInt);
    if Readable(views) then Some(Total(Records(views), m)) else None
  }

  /** The counters after reading a body, by the machine. */
  function Replay(counts: Counts, body: seq<ParserView>): Counts
    decreases |body|
  {
    if body == [] then counts
    else Replay(if body[0].Count? then counts[body[0].counter := body[0].n] else counts, body[1..])
  }

  lemma {:induction false} ReplaySnoc(counts: Counts, body: seq<ParserView>, last: ParserView)
    ensures var before := Replay(counts, body);
            Replay(counts, body + [last]) == if last.Count? then before[last.counter := last.n] else before
    decreases |body|
  {
    if body == [] {
      assert (body + [last])[1..] == [];
    } else {
      assert (body + [last])[1..] == body[1..] + [last];
      ReplaySnoc(if body[0].Count? then counts[body[0].counter := body[0].n] else counts, body[1..], last);
    }
  }

  lemma {:induction false} ReplayIsLastCount(body: seq<ParserView>, counter: Counter)
    ensures Value(Replay(map[], body), counter) == LastCount(counter, body)
  {
    if body != [] {
      var front, last := body[..|body| - 1], body[|body| - 1];
      assert body == front + [last];
      ReplaySnoc(map[], front, last);
      ReplayIsLastCount(front, counter);
    }
  }

  lemma ReplayIsBodyTotals(body: seq<ParserView>)
    ensures CountsTotals(Replay(map[], body)) == BodyTotals(body)
  {
    forall counter: Counter {
      ReplayIsLastCount(body, counter);
    }
  }

  /** Reading on to the end of the current record, then flushing it. */
  lemma {:induction false} RestOfRecord(s: Scan, views: seq<ParserView>)
    ensures var n := BodyLength(views);
            Rest(s, views) == Pending(Scan(s.file, Replay(s.counts, views[..n]))) + Rest(FRESH, views[n..])
    decreases |views|
  {
    var n := BodyLength(views);
    if views != [] && n == 0 {
      assert views[0..] == views;
    } else if views != [] {
      assert views[1..][n - 1..] == views[n..];
      assert views[..n][1..] == views[1..][..n - 1];
      RestOfRecord(Next(s, views[0]), views[1..]);
    }
  }

  /** Counters outside a named record change nothing. */
  lemma RestWithoutFile(s: Scan, views: seq<ParserView>)
    requires !Named(s)
    ensures Rest(s, views) == Rest(FRESH, views)
  {
    RestOfRecord(s, views);
    RestOfRecord(FRESH, views);
  }

  /** The machine flushes exactly the records of the report. */
  lemma {:induction false} RestIsRecords(views: seq<ParserView>)
    ensures Rest(FRESH, views) == Records(views)
    decreases |views|
  {
    if views != [] {
      if views[0].SourceFile? {
        var n := BodyLength(views[1..]);
        RestOfRecord(Scan(Some(views[0].path), map[]), views[1..]);
        assert views[1..][..n] == views[1..1 + n];
        assert views[1..][n..] == views[1 + n..];
        ReplayIsBodyTotals(views[1..1 + n]);
        RestIsRecords(views[1 + n..]);
      } else {
        RestWithoutFile(Next(FRESH, views[0]), views[1..]);
        RestIsRecords(views[1..]);
      }
    }
  }
}
