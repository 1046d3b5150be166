/**
 JaCoCo XML reports: `parse_teku` counts one from its stream of start and end events.

 Elements are modelled with the attributes the JaCoCo format requires of them; the numbers of a
 counter are already read.
 */
module TekuReport {
  import opened Sequences
  import opened Wrappers
  import opened PyString
  import opened Coverage

  datatype Kind = INSTRUCTION | BRANCH | LINE | OtherKind(name: string)

  datatype Node =
    | Package(name: string, children: seq<Node>)
    | SourceFile(name: string, children: seq<Node>)
    | Counter(kind: Kind, missed: int, covered: int)
    | Element(tag: string, children: seq<Node>)

  /** `element.findall("counter")` of one type */
  function Counters(children: seq<Node>, kind: Kind): seq<Node> {
    if children == [] then []
    else
      var first := children[0];
      (if first.Counter? && first.kind == kind then [first] else []) + Counters(children[1..], kind)
  }

  /********************************** The event stream **********************************/

  datatype Event = Start(node: Node) | End(node: Node)

  function Events(n: Node): seq<Event>
    decreases n, 1
  {
    match n
    case Package(_, children) => [Start(n)] + AllEvents(children) + [End(n)]
    case SourceFile(_, children) => [Start(n)] + AllEvents(children) + [End(n)]
    case Counter(_, _, _) => [Start(n), End(n)]
    case Element(_, children) => [Start(n)] + AllEvents(children) + [End(n)]
  }

  function AllEvents(ns: seq<Node>): seq<Event>
    decreases ns, 0
  {
    if ns == [] then [] else Events(ns[0]) + AllEvents(ns[1..])
  }

  /************************* The meaning of a report: a sum over a tree *************************/

  function FilePath(package: string, name: string): string {
    NormalizePath(if package != "" then package + "/" + name else name)
  }

  function Last(counters: seq<Node>): Option<Node> {
    if counters == [] then None else Some(counters[|counters| - 1])
  }

  function Covered(counter: Option<Node>): int
    requires counter.Some? ==> counter.value.Counter?
  {
    if counter.Some? then counter.value.covered else 0
  }

  function Lines(counter: Option<Node>): int
    requires counter.Some? ==> counter.value.Counter?
  {
    if counter.Some? then counter.value.covered + counter.value.missed else 0
  }

  lemma {:induction false} CountersAreCounters(children: seq<Node>, kind: Kind)
    ensures forall c :: c in Counters(children, kind) ==> c.Counter? && c.kind == kind
  {
    if children != [] {
      CountersAreCounters(children[1..], kind);
    }
  }

  /** The counts of a source file: its last LINE and its last BRANCH counter. */
  function FileTotals(children: seq<Node>): Totals {
    CountersAreCounters(children, LINE);
    CountersAreCounters(children, BRANCH);
    var line, branch := Last(Counters(children, LINE)), Last(Counters(children, BRANCH));
    Totals(Covered(line), Lines(line), Covered(branch), Lines(branch))
  }

  /** The last counter of a kind, by its place among the children. */
  lemma {:induction false} LastOfKind(before: seq<Node>, counter: Node, after: seq<Node>)
    requires counter.Counter? && forall n | n in after :: n.Counter? ==> n.kind != counter.kind
    ensures Last(Counters(before + [counter] + after, counter.kind)) == Some(counter)
    decreases |after|
  {
    if after == [] {
      assert before + [counter] + after == before + [counter];
      CountersSnoc(before, counter, counter.kind);
    } else {
      var front, last := after[..|after| - 1], after[|after| - 1];
      LastOfKind(before, counter, front);
      assert before + [counter] + after == before + [counter] + front + [last];
      CountersSnoc(before + [counter] + front, last, counter.kind);
    }
  }

  lemma {:induction false} NoneOfKind(children: seq<Node>, kind: Kind)
    requires forall n | n in children :: n.Counter? ==> n.kind != kind
    ensures Counters(children, kind) == []
  {
    if children != [] {
      NoneOfKind(children[1..], kind);
    }
  }

  /** A file counts as covered what its last LINE counter covers, and in total what that covers or misses. */
  lemma LineTotals(before: seq<Node>, missed: int, covered: int, after: seq<Node>)
    requires forall n | n in after :: n.Counter? ==> n.kind != LINE
    ensures var totals := FileTotals(before + [Counter(LINE, missed, covered)] + after);
            totals.coveredPrimary == covered && totals.totalPrimary == covered + missed
  {
    LastOfKind(before, Counter(LINE, missed, covered), after);
  }

  lemma BranchTotals(before: seq<Node>, missed: int, covered: int, after: seq<Node>)
    requires forall n | n in after :: n.Counter? ==> n.kind != BRANCH
    ensures var totals := FileTotals(before + [Counter(BRANCH, missed, covered)] + after);
            totals.coveredBranch == covered && totals.totalBranch == covered + missed
  {
    LastOfKind(before, Counter(BRANCH, missed, covered), after);
  }

  lemma NoTotals(children: seq<Node>)
    ensures (forall n | n in children :: n.Counter? ==> n.kind != LINE) ==>
              FileTotals(children).coveredPrimary == 0 && FileTotals(children).totalPrimary == 0
    ensures (forall n | n in children :: n.Counter? ==> n.kind != BRANCH) ==>
              FileTotals(children).coveredBranch == 0 && FileTotals(children).totalBranch == 0
  {
    if forall n | n in children :: n.Counter? ==> n.kind != LINE {
      NoneOfKind(children, LINE);
    }
    if forall n | n in children :: n.Counter? ==> n.kind != BRANCH {
      NoneOfKind(children, BRANCH);
    }
  }

  /**
   A report of one source file with its two counters: it counts exactly if the path of package and file is in
   scope.
   */
  lemma OneFileReport(package: string, file: string, bm: int, bc: int, lm: int, lc: int, m: Matcher)
    requires package != "" && '\\' !in package && '\\' !in file
    ensures var source := SourceFile(file, [Counter(BRANCH, bm, bc), Counter(LINE, lm, lc)]);
            var report := Element("report", [Package(package, [source])]);
            Total(Files(report, ""), m) ==
            if m(package + "/" + file) then Totals(lc, lc + lm, bc, bc + bm) else Total([], m)
  {
    var line, branch := Counter(LINE, lm, lc), Counter(BRANCH, bm, bc);
    var source := SourceFile(file, [branch, line]);
    assert [] + [branch] + [line] == [branch, line] == [branch] + [line] + [];
    BranchTotals([], bm, bc, [line]);
    LineTotals([branch], lm, lc, []);
    NormalizeSame(package);
    NormalizeSame(package + "/" + file);
    OneFileBelow(package, source);
    TotalSnoc([], Entry(package + "/" + file, FileTotals(source.children)), m);
    assert [] + [Entry(package + "/" + file, FileTotals(source.children))]
        == [Entry(package + "/" + file, FileTotals(source.children))];
  }

  lemma NormalizeSame(s: string)
    requires '\\' !in s
    ensures NormalizePath(s) == s
  {
  }

  lemma OneFileBelow(package: string, source: Node)
    requires source.SourceFile? && package != "" && forall n | n in source.children :: n.Counter?
    requires NormalizePath(package) == package
    requires NormalizePath(package + "/" + source.name) == package + "/" + source.name
    ensures Files(Element("report", [Package(package, [source])]), "")
            == [Entry(package + "/" + source.name, FileTotals(source.children))]
  {
    NothingBelow(source.children, package);
    var p := Package(package, [source]);
    assert [source][1..] == [] && [p][1..] == [];
    assert AllFiles([source], package) == Files(source, package) + AllFiles([], package);
    assert AllFiles([p], "") == Files(p, "") + AllFiles([], "");
  }

  lemma {:induction false} NothingBelow(ns: seq<Node>, package: string)
    requires forall n | n in ns :: n.Counter?
    ensures AllFiles(ns, package) == []
  {
    if ns != [] {
      NothingBelow(ns[1..], package);
      assert ns[0] in ns && Files(ns[0], package) == [];
    }
  }

  /** The source files below a node, each named by its innermost enclosing package. */
  function Files(n: Node, package: string): seq<Entry>
    decreases n, 1
  {
    match n
    case Package(name, children) => AllFiles(children, NormalizePath(name))
    case SourceFile(name, children) =>
      AllFiles(children, package) + [Entry(FilePath(package, name), FileTotals(children))]
    case Counter(_, _, _) => []
    case Element(_, children) => AllFiles(children, package)
  }

  function AllFiles(ns: seq<Node>, package: string): seq<Entry>
    decreases ns, 0
  {
    if ns == [] then [] else Files(ns[0], package) + AllFiles(ns[1..], package)
  }

  /*********************************** The event machine ***********************************/

  function Top(stack: seq<string>): string {
    if stack == [] then "" else stack[|stack| - 1]
  }

  function NextStack(stack: seq<string>, e: Event): seq<string> {
    match e
    case Start(Package(name, _)) => stack + [NormalizePath(name)]
    case End(Package(_, _)) => if stack == [] then [] else stack[..|stack| - 1]
    case _ => stack
  }

  function Reported(stack: seq<string>, e: Event): seq<Entry> {
    match e
    case End(SourceFile(name, children)) => [Entry(FilePath(Top(stack), name), FileTotals(children))]
    case _ => []
  }

  /** The source files reported from `events` on, and the stack at the end. */
  function Rest(stack: seq<string>, events: seq<Event>): (seq<Entry>, seq<string>)
    decreases |events|
  {
    if events == [] then ([], stack)
    else
      var rest := Rest(NextStack(stack, events[0]), events[1..]);
      (Reported(stack, events[0]) + rest.0, rest.1)
  }

  /** The variables of `parse_teku`. */
  class TekuParser {
    const matcher: Matcher
    var totals: Totals
    var packageStack: seq<string>
    ghost var seen: seq<Entry>

    ghost predicate Valid()
      reads this
    {
      totals == Total(seen, matcher)
    }

    constructor (matcher: Matcher)
      ensures Valid() && this.matcher == matcher && packageStack == [] && seen == []
    {
      this.matcher := matcher;
      totals, packageStack, seen := Totals(0, 0, 0, 0), [], [];
    }

    /** The body of the event loop. */
    method Handle(e: Event)
      requires Valid()
      modifies this
      ensures Valid() && packageStack == NextStack(old(packageStack), e)
      ensures seen == old(seen) + Reported(old(packageStack), e)
    {
      TotalOfReported(seen, packageStack, e, matcher);
      seen := seen + Reported(packageStack, e);
      match e {
        case Start(Package(name, _)) =>
          packageStack := packageStack + [NormalizePath(name)];
        case End(SourceFile(name, children)) =>
          totals := ReportFile(totals, packageStack, name, children, matcher);
        case End(Package(_, _)) =>
          if packageStack != [] {
            packageStack := packageStack[..|packageStack| - 1];
          }
        case _ =>
      }
    }
  }

  lemma TotalOfReported(seen: seq<Entry>, stack: seq<string>, e: Event, m: Matcher)
    ensures Total(seen + Reported(stack, e), m) ==
            match e
            case End(SourceFile(name, children)) =>
              if m(FilePath(Top(stack), name)) then Total(seen, m).Add(FileTotals(children)) else Total(seen, m)
            case _ => Total(seen, m)
  {
    if e.End? && e.node.SourceFile? {
      TotalSnoc(seen, Reported(stack, e)[0], m);
    } else {
      assert seen + [] == seen;
    }
  }

  /** The end of a source file. */
  method ReportFile(totals: Totals, packageStack: seq<string>, name: string, children: seq<Node>, matcher: Matcher)
    returns (sum: Totals)
    ensures sum == if matcher(FilePath(Top(packageStack), name)) then totals.Add(FileTotals(children)) else totals
  {
    var packageName := if packageStack != [] then packageStack[|packageStack| - 1] else "";
    var filePath := NormalizePath(if packageName != "" then packageName + "/" + name else name);
    sum := totals;
    if matcher(filePath) {
      var lineCounter, branchCounter := LastCounters(children);
      sum := AddCounters(totals, children, lineCounter, branchCounter);
    }
  }

  /** The inner loop of `parse_teku` over the counters of a source file. */
  method LastCounters(children: seq<Node>) returns (line: Option<Node>, branch: Option<Node>)
    ensures line == Last(Counters(children, LINE)) && branch == Last(Counters(children, BRANCH))
  {
    line, branch := None, None;
    for i := 0 to |children|
      invariant line == Last(Counters(children[..i], LINE)) && branch == Last(Counters(children[..i], BRANCH))
    {
      LastSnoc(children, i, LINE);
      LastSnoc(children, i, BRANCH);
      match children[i] {
        case Counter(LINE, _, _) => line := Some(children[i]);
        case Counter(BRANCH, _, _) => branch := Some(children[i]);
        case _ =>
      }
    }
    assert children[..|children|] == children;
  }

  lemma {:induction false} CountersSnoc(children: seq<Node>, last: Node, kind: Kind)
    ensures Counters(children + [last], kind) ==
            Counters(children, kind) + if last.Counter? && last.kind == kind then [last] else []
  {
    if children == [] {
      CountersCons(last, [], kind);
    } else {
      CountersSnoc(children[1..], last, kind);
      CountersCons(children[0], children[1..], kind);
      CountersCons(children[0], children[1..] + [last], kind);
      assert children == [children[0]] + children[1..];
      assert children + [last] == [children[0]] + (children[1..] + [last]);
      Regroup(Own(children[0], kind), Counters(children[1..], kind), Own(last, kind));
    }
  }

  lemma LastSnoc(children: seq<Node>, i: nat, kind: Kind)
    requires i < |children|
    ensures Last(Counters(children[..i + 1], kind)) ==
            if children[i].Counter? && children[i].kind == kind then Some(children[i])
            else Last(Counters(children[..i], kind))
  {
    assert children[..i + 1] == children[..i] + [children[i]];
    CountersSnoc(children[..i], children[i], kind);
    assert Counters(children[..i], kind) + [] == Counters(children[..i], kind);
  }

  function Own(n: Node, kind: Kind): seq<Node> {
    if n.Counter? && n.kind == kind then [n] else []
  }

  lemma CountersCons(n: Node, rest: seq<Node>, kind: Kind)
    ensures Counters([n] + rest, kind) == (if n.Counter? && n.kind == kind then [n] else []) + Counters(rest, kind)
  {
    assert ([n] + rest)[1..] == rest;
  }

  method AddCounters(totals: Totals, ghost children: seq<Node>, line: Option<Node>, branch: Option<Node>)
        returns (sum: Totals)
    requires line == Last(Counters(children, LINE)) && branch == Last(Counters(children, BRANCH))
    ensures sum == totals.Add(FileTotals(children))
  {
    CountersAreCounters(children, LINE);
    CountersAreCounters(children, BRANCH);
    sum := totals;
    if line.Some? {
      sum := sum.Add(Totals(line.value.covered, line.value.covered + line.value.missed, 0, 0));
    }
    if branch.Some? {
      sum := sum.Add(Totals(0, 0, branch.value.covered, branch.value.covered + branch.value.missed));
    }
  }

  /** What an element and its subtree report: the files below it, then itself if it is a source file. */
  lemma ElementReports(n: Node, stack: seq<string>)
    requires !n.Counter?
    ensures var inner := NextStack(stack, Start(n));
            && Reported(stack, Start(n)) == []
            && AllFiles(n.children, Top(inner)) + Reported(inner, End(n)) == Files(n, Top(stack))
  {
  }

  lemma EventsThen(n: Node, events: seq<Event>)
    ensures Events(n) + events ==
            [Start(n)] + ((if n.Counter? then [] else AllEvents(n.children)) + ([End(n)] + events))
  {
  }

  /** The end of an element takes from the stack what its start put there. */
  lemma StackRestored(stack: seq<string>, n: Node)
    ensures NextStack(NextStack(stack, Start(n)), End(n)) == stack
  {
    var inner := NextStack(stack, Start(n));
    if n.Package? {
      assert inner[..|inner| - 1] == stack;
    }
  }

  /** A subtree reports its files under the package on top of the stack, and leaves the stack as it was. */
  lemma {:induction false} RunOfTree(stack: seq<string>, n: Node, events: seq<Event>)
    ensures Rest(stack, Events(n) + events).0 == Files(n, Top(stack)) + Rest(stack, events).0
    ensures Rest(stack, Events(n) + events).1 == Rest(stack, events).1
    decreases n, 1
  {
    EventsThen(n, events);
    StackRestored(stack, n);
    if n.Counter? {
      RestCons(stack, Start(n), [End(n)] + events);
      RestCons(stack, End(n), events);
      assert [] + ([End(n)] + events) == [End(n)] + events;
    } else {
      var inner := NextStack(stack, Start(n));
      var later := [End(n)] + events;
      RestCons(stack, Start(n), AllEvents(n.children) + later);
      RunOfForest(inner, n.children, later);
      RestCons(inner, End(n), events);
      ElementReports(n, stack);
      Assoc(AllFiles(n.children, Top(inner)), Reported(inner, End(n)), Rest(stack, events).0);
    }
  }

  lemma {:induction false} RunOfForest(stack: seq<string>, ns: seq<Node>, events: seq<Event>)
    ensures Rest(stack, AllEvents(ns) + events).0 == AllFiles(ns, Top(stack)) + Rest(stack, events).0
    ensures Rest(stack, AllEvents(ns) + events).1 == Rest(stack, events).1
    decreases ns, 0
  {
    if ns == [] {
      assert AllEvents(ns) + events == events;
    } else {
      RunOfForest(stack, ns[1..], events);
      RunOfTree(stack, ns[0], AllEvents(ns[1..]) + events);
      Assoc(Files(ns[0], Top(stack)), AllFiles(ns[1..], Top(stack)), Rest(stack, events).0);
      assert AllEvents(ns) + events == Events(ns[0]) + (AllEvents(ns[1..]) + events);
    }
  }

  lemma Assoc(a: seq<Entry>, b: seq<Entry>, c: seq<Entry>)
    ensures a + b + c == a + (b + c) && [] + a == a == a + []
  {
  }

  lemma RestCons(stack: seq<string>, e: Event, events: seq<Event>)
    ensures Rest(stack, [e] + events) ==
            (Reported(stack, e) + Rest(NextStack(stack, e), events).0, Rest(NextStack(stack, e), events).1)
  {
    assert ([e] + events)[1..] == events;
  }

  /** Handling event `i`: what is reported moves from the rest of the run to the part done. */
  lemma RestGoesOn(seen: seq<Entry>, stack: seq<string>, events: seq<Event>, i: nat)
    requires i < |events|
    ensures var next := Rest(NextStack(stack, events[i]), events[i + 1..]);
            && seen + Rest(stack, events[i..]).0 == seen + Reported(stack, events[i]) + next.0
            && Rest(stack, events[i..]).1 == next.1
  {
    assert events[i..] == [events[i]] + events[i + 1..];
    RestCons(stack, events[i], events[i + 1..]);
    Assoc(seen, Reported(stack, events[i]), Rest(NextStack(stack, events[i]), events[i + 1..]).0);
  }

  lemma RestOfAll(root: Node)
    ensures Rest([], Events(root)) == (Files(root, ""), [])
  {
    RunOfTree([], root, []);
    assert Events(root) + [] == Events(root);
    Assoc(Files(root, ""), [], []);
  }

  /** `parse_teku`, with the package stack it ends on. */
  method ParseTeku(root: Node, matcher: Matcher) returns (totals: Totals, packageStack: seq<string>)
    ensures totals == Total(Files(root, ""), matcher)
    ensures packageStack == []
  {
    var p := new TekuParser(matcher);
    var events := Events(root);
    for i := 0 to |events|
      invariant p.Valid() && p.matcher == matcher
      invariant p.seen + Rest(p.packageStack, events[i..]).0 == Rest([], events).0
      invariant Rest(p.packageStack, events[i..]).1 == Rest([], events).1
    {
      RestGoesOn(p.seen, p.packageStack, events, i);
      p.Handle(events[i]);
    }
    RestOfAll(root);
    assert events[|events|..] == [];
    Assoc(p.seen, [], []);
    return p.totals, p.packageStack;
  }
}
