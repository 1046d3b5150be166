/**
 `_filter_teku_xml_report`: drop the packages out of scope from a JaCoCo tree, in place, and
 recompute the counters of the root.  When a package cannot be removed the input is written back.
 */
module TekuFilter {
  import opened Sequences
  import opened Wrappers
  import opened TekuReport

  const CORE_PREFIXES := [
    "tech/pegasys/teku/spec", "tech/pegasys/teku/infrastructure/ssz", "tech/pegasys/teku/bls", "tech/pegasys/teku/cli"
  ]

  predicate Core(name: string, prefixes: seq<string>) {
    exists p | p in prefixes :: p <= name
  }

  predicate Dropped(n: Node, prefixes: seq<string>) {
    n.Package? && !Core(n.name, prefixes)
  }

  function Children(n: Node): seq<Node> {
    if n.Counter? then [] else n.children
  }

  /** `element.findall(".//package")`, for the element with these children. */
  function Packages(ns: seq<Node>): seq<Node>
    decreases ns, 0
  {
    if ns == [] then [] else PackagesFrom(ns[0]) + Packages(ns[1..])
  }

  function PackagesFrom(n: Node): seq<Node>
    decreases n, 1
  {
    match n
    case Package(_, children) => [n] + Packages(children)
    case SourceFile(_, children) => Packages(children)
    case Counter(_, _, _) => []
    case Element(_, children) => Packages(children)
  }

  type Test = Node -> bool

  function OutOfScope(prefixes: seq<string>): Test {
    n => Dropped(n, prefixes)
  }

  const IS_COUNTER: Test := (n: Node) => n.Counter?
  const IS_PACKAGE: Test := (n: Node) => n.Package?

  function Only(ns: seq<Node>, test: Test): seq<Node> {
    if ns == [] then [] else (if test(ns[0]) then [ns[0]] else []) + Only(ns[1..], test)
  }

  function Without(ns: seq<Node>, test: Test): seq<Node> {
    if ns == [] then [] else (if test(ns[0]) then [] else [ns[0]]) + Without(ns[1..], test)
  }

  /** Some package out of scope is not a direct child of the root. */
  predicate DroppedBelow(ns: seq<Node>, drop: Test) {
    exists n, p :: n in ns && p in Packages(Children(n)) && drop(p)
  }

  /************************************ Removing packages ************************************/

  /** `root.remove(x)`, None for ValueError. */
  function Remove(ns: seq<Node>, x: Node): (r: Option<seq<Node>>)
    ensures r.Some? <==> x in ns
  {
    if ns == [] then None
    else if ns[0] == x then Some(ns[1..])
    else match Remove(ns[1..], x)
      case None => None
      case Some(rest) => Some([ns[0]] + rest)
  }

  function RemoveAll(ns: seq<Node>, xs: seq<Node>): Option<seq<Node>>
    decreases |xs|
  {
    if xs == [] then Some(ns)
    else match Remove(ns, xs[0])
      case None => None
      case Some(rest) => RemoveAll(rest, xs[1..])
  }

  lemma {:induction false} OnlyAppend(a: seq<Node>, b: seq<Node>, drop: Test)
    ensures Only(a + b, drop) == Only(a, drop) + Only(b, drop)
  {
    if a == [] {
      assert a + b == b;
    } else {
      assert (a + b)[1..] == a[1..] + b;
      OnlyAppend(a[1..], b, drop);
      Regroup(if drop(a[0]) then [a[0]] else [], Only(a[1..], drop), Only(b, drop));
    }
  }

  lemma {:induction false} OnlyIs(ns: seq<Node>, drop: Test)
    ensures forall x :: x in Only(ns, drop) <==> x in ns && drop(x)
    ensures Only(ns, drop) == [] <==> forall x :: x in ns ==> !drop(x)
  {
    if ns != [] {
      OnlyIs(ns[1..], drop);
      if Only(ns, drop) != [] {
        assert Only(ns, drop)[0] in Only(ns, drop);
      }
    }
  }

  lemma {:induction false} WithoutIs(ns: seq<Node>, drop: Test)
    ensures forall x :: x in Without(ns, drop) <==> x in ns && !drop(x)
  {
    if ns != [] {
      WithoutIs(ns[1..], drop);
    }
  }

  /** Which children of the root are kept, with the prefixes in use. */
  lemma KeptChildIff(children: seq<Node>, n: Node)
    ensures n in Without(children, OutOfScope(CORE_PREFIXES)) <==>
              && n in children
              && (n.Package? ==>
                    || "tech/pegasys/teku/spec" <= n.name
                    || "tech/pegasys/teku/infrastructure/ssz" <= n.name
                    || "tech/pegasys/teku/bls" <= n.name
                    || "tech/pegasys/teku/cli" <= n.name)
  {
    WithoutIs(children, OutOfScope(CORE_PREFIXES));
    if n.Package? {
      CoreIff(n.name);
    }
  }

  lemma CoreIff(name: string)
    ensures Core(name, CORE_PREFIXES) <==>
              || "tech/pegasys/teku/spec" <= name
              || "tech/pegasys/teku/infrastructure/ssz" <= name
              || "tech/pegasys/teku/bls" <= name
              || "tech/pegasys/teku/cli" <= name
  {
    var p0, p1, p2, p3 := CORE_PREFIXES[0], CORE_PREFIXES[1], CORE_PREFIXES[2], CORE_PREFIXES[3];
    FourPrefixes(p0, p1, p2, p3, name);
  }

  lemma FourPrefixes(p0: string, p1: string, p2: string, p3: string, name: string)
    ensures Core(name, [p0, p1, p2, p3]) <==> p0 <= name || p1 <= name || p2 <= name || p3 <= name
  {
    var prefixes := [p0, p1, p2, p3];
    assert p0 == prefixes[0] && p1 == prefixes[1] && p2 == prefixes[2] && p3 == prefixes[3];
    assert p0 in prefixes && p1 in prefixes && p2 in prefixes && p3 in prefixes;
  }

  lemma PackagesFromSplit(n: Node)
    ensures PackagesFrom(n) == (if n.Package? then [n] else []) + Packages(Children(n))
  {
  }

  /**
   With every package out of scope at the top, the list to remove is the dropped children in order;
   otherwise it is longer.
   */
  lemma {:induction false} ToRemove(ns: seq<Node>, drop: Test)
    requires forall n :: drop(n) ==> n.Package?
    ensures var xs := Only(Packages(ns), drop);
            if DroppedBelow(ns, drop) then |xs| > |Only(ns, drop)| else xs == Only(ns, drop)
  {
    if ns != [] {
      var n, rest := ns[0], ns[1..];
      ToRemove(rest, drop);
      PackagesFromSplit(n);
      var own := if n.Package? then [n] else [];
      OnlyAppend(PackagesFrom(n), Packages(rest), drop);
      OnlyAppend(own, Packages(Children(n)), drop);
      OnlyIs(Packages(Children(n)), drop);
      assert Only(own, drop) == if drop(n) then [n] else [];
      assert DroppedBelow(ns, drop) <==>
             DroppedBelow(rest, drop) || Only(Packages(Children(n)), drop) != [];
    }
  }

  lemma {:induction false} RemoveFrom(before: seq<Node>, x: Node, after: seq<Node>)
    requires x !in before
    ensures Remove(before + [x] + after, x) == Some(before + after)
  {
    if before == [] {
      assert before + [x] + after == [x] + after;
      assert before + after == after;
    } else {
      assert (before + [x] + after)[1..] == before[1..] + [x] + after;
      RemoveFrom(before[1..], x, after);
      assert [before[0]] + (before[1..] + after) == before + after;
    }
  }

  lemma RemoveAllCons(ns: seq<Node>, x: Node, xs: seq<Node>)
    ensures RemoveAll(ns, [x] + xs) == if Remove(ns, x).Some? then RemoveAll(Remove(ns, x).value, xs) else None
  {
    assert ([x] + xs)[1..] == xs;
  }

  lemma SplitHead(ns: seq<Node>, drop: Test)
    requires ns != []
    ensures Only(ns, drop) == if drop(ns[0]) then [ns[0]] + Only(ns[1..], drop) else Only(ns[1..], drop)
    ensures Without(ns, drop) == if drop(ns[0]) then Without(ns[1..], drop) else [ns[0]] + Without(ns[1..], drop)
  {
    assert [] + Only(ns[1..], drop) == Only(ns[1..], drop);
    assert [] + Without(ns[1..], drop) == Without(ns[1..], drop);
  }

  /** Removing the next dropped node, behind nodes that stay. */
  lemma RemoveNext(before: seq<Node>, n: Node, rest: seq<Node>, xs: seq<Node>)
    requires n !in before
    ensures RemoveAll(before + [n] + rest, [n] + xs) == RemoveAll(before + rest, xs)
  {
    RemoveFrom(before, n, rest);
    RemoveAllCons(before + [n] + rest, n, xs);
  }

  lemma {:induction false} RemoveChildren(before: seq<Node>, ns: seq<Node>, drop: Test)
    requires forall x :: x in before ==> !drop(x)
    ensures RemoveAll(before + ns, Only(ns, drop)) == Some(before + Without(ns, drop))
    decreases |ns|
  {
    if ns == [] {
      assert before + ns == before + Without(ns, drop);
    } else {
      var n, rest := ns[0], ns[1..];
      SplitHead(ns, drop);
      MoveHead(before, ns);
      if drop(n) {
        assert n !in before;
        RemoveNext(before, n, rest, Only(rest, drop));
        RemoveChildren(before, rest, drop);
      } else {
        StillKept(before, n, drop);
        RemoveChildren(before + [n], rest, drop);
        MoveHead(before, [n] + Without(rest, drop));
      }
    }
  }

  lemma MoveHead(a: seq<Node>, b: seq<Node>)
    requires b != []
    ensures a + b == a + [b[0]] + b[1..]
  {
  }

  lemma StillKept(before: seq<Node>, n: Node, drop: Test)
    requires (forall x :: x in before ==> !drop(x)) && !drop(n)
    ensures forall x :: x in before + [n] ==> !drop(x)
  {
  }

  lemma {:induction false} RemoveUsesUpDropped(ns: seq<Node>, x: Node, drop: Test)
    requires x in ns && drop(x)
    ensures |Only(Remove(ns, x).value, drop)| == |Only(ns, drop)| - 1
  {
    if ns[0] != x {
      RemoveUsesUpDropped(ns[1..], x, drop);
      var rest := Remove(ns[1..], x).value;
      assert ([ns[0]] + rest)[1..] == rest;
    }
  }

  lemma {:induction false} RemoveTooMany(ns: seq<Node>, xs: seq<Node>, drop: Test)
    requires forall x :: x in xs ==> drop(x)
    requires |xs| > |Only(ns, drop)|
    ensures RemoveAll(ns, xs) == None
    decreases |xs|
  {
    if xs[0] in ns {
      RemoveUsesUpDropped(ns, xs[0], drop);
      RemoveTooMany(Remove(ns, xs[0]).value, xs[1..], drop);
    }
  }

  /**
   The removal loop succeeds exactly if all packages out of scope are direct children, and then keeps the
   others in order.
   */
  lemma RemovePackages(ns: seq<Node>, drop: Test)
    requires forall n :: drop(n) ==> n.Package?
    ensures RemoveAll(ns, Only(Packages(ns), drop)) ==
            if DroppedBelow(ns, drop) then None else Some(Without(ns, drop))
  {
    ToRemove(ns, drop);
    if DroppedBelow(ns, drop) {
      OnlyIs(Packages(ns), drop);
      RemoveTooMany(ns, Only(Packages(ns), drop), drop);
    } else {
      RemoveChildren([], ns, drop);
      assert [] + ns == ns && [] + Without(ns, drop) == Without(ns, drop);
    }
  }

  /*********************************** Root counters ***********************************/

  /** The missed counts of these counters, added up. */
  function MissedOf(counters: seq<Node>): int {
    if counters == [] then 0
    else (if counters[0].Counter? then counters[0].missed else 0) + MissedOf(counters[1..])
  }

  /** The covered counts of these counters, added up. */
  function CoveredOf(counters: seq<Node>): int {
    if counters == [] then 0
    else (if counters[0].Counter? then counters[0].covered else 0) + CoveredOf(counters[1..])
  }

  /** All counters of one kind that stand directly in these packages. */
  function CountersIn(packages: seq<Node>, kind: Kind): seq<Node> {
    if packages == [] then [] else Counters(Children(packages[0]), kind) + CountersIn(packages[1..], kind)
  }

  lemma {:induction false} FieldsAppend(a: seq<Node>, b: seq<Node>)
    ensures MissedOf(a + b) == MissedOf(a) + MissedOf(b)
    ensures CoveredOf(a + b) == CoveredOf(a) + CoveredOf(b)
  {
    if a == [] {
      assert a + b == b;
    } else {
      assert (a + b)[1..] == a[1..] + b;
      FieldsAppend(a[1..], b);
    }
  }

  lemma OneCounter(c: Node)
    requires c.Counter?
    ensures MissedOf([c]) == c.missed && CoveredOf([c]) == c.covered
  {
    assert [c][1..] == [];
  }

  /** The counters of one kind that the root has when these packages are left. */
  function RootCounters(packages: seq<Node>, kind: Kind): seq<Node> {
    var own := CountersIn(packages, kind);
    if !kind.OtherKind? && (MissedOf(own) > 0 || CoveredOf(own) > 0) then
      [Counter(kind, MissedOf(own), CoveredOf(own))]
    else []
  }

  lemma CountersInSnoc(packages: seq<Node>, last: Node, kind: Kind)
    ensures MissedOf(CountersIn(packages + [last], kind)) ==
            MissedOf(CountersIn(packages, kind)) + MissedOf(Counters(Children(last), kind))
    ensures CoveredOf(CountersIn(packages + [last], kind)) ==
            CoveredOf(CountersIn(packages, kind)) + CoveredOf(Counters(Children(last), kind))
  {
    CountersInAppend(packages, [last], kind);
    assert [last][1..] == [];
    assert CountersIn([last], kind) == Counters(Children(last), kind) + CountersIn([], kind);
    assert CountersIn([last], kind) == Counters(Children(last), kind);
    FieldsAppend(CountersIn(packages, kind), CountersIn([last], kind));
  }

  lemma CountersSnocFields(children: seq<Node>, last: Node, kind: Kind)
    ensures MissedOf(Counters(children + [last], kind)) ==
            MissedOf(Counters(children, kind)) + if last.Counter? && last.kind == kind then last.missed else 0
    ensures CoveredOf(Counters(children + [last], kind)) ==
            CoveredOf(Counters(children, kind)) + if last.Counter? && last.kind == kind then last.covered else 0
  {
    CountersSnoc(children, last, kind);
    FieldsAppend(Counters(children, kind), Own(last, kind));
    if Own(last, kind) != [] {
      OneCounter(last);
    }
  }

  /** One package with one counter of a kind gives the root that counter. */
  lemma OnePackageShown(name: string, children: seq<Node>, kind: Kind, missed: nat, covered: nat)
    requires Counters(children, kind) == [Counter(kind, missed, covered)] && kind in {INSTRUCTION, BRANCH, LINE}
    requires missed > 0 || covered > 0
    ensures RootCounters([Package(name, children)], kind) == [Counter(kind, missed, covered)]
  {
    var p := Package(name, children);
    assert [p][1..] == [];
    assert CountersIn([p], kind) == Counters(children, kind) + CountersIn([], kind);
    assert CountersIn([p], kind) == [Counter(kind, missed, covered)];
    OneCounter(Counter(kind, missed, covered));
  }

  /** The counters that two lists of packages give the root add up field by field. */
  lemma {:induction false} RootCountersAdd(a: seq<Node>, b: seq<Node>, kind: Kind, x: Node, y: Node)
    requires x.Counter? && y.Counter? && RootCounters(a, kind) == [x] && RootCounters(b, kind) == [y]
    requires x.missed >= 0 && x.covered >= 0 && y.missed >= 0 && y.covered >= 0
    ensures RootCounters(a + b, kind) == [Counter(kind, x.missed + y.missed, x.covered + y.covered)]
  {
    CountersInAppend(a, b, kind);
    FieldsAppend(CountersIn(a, kind), CountersIn(b, kind));
  }

  lemma {:induction false} CountersInAppend(a: seq<Node>, b: seq<Node>, kind: Kind)
    ensures CountersIn(a + b, kind) == CountersIn(a, kind) + CountersIn(b, kind)
  {
    if a == [] {
      assert a + b == b;
    } else {
      assert (a + b)[1..] == a[1..] + b;
      CountersInAppend(a[1..], b, kind);
      Regroup(Counters(Children(a[0]), kind), CountersIn(a[1..], kind), CountersIn(b, kind));
    }
  }

  lemma {:induction false} WithoutAppend(a: seq<Node>, b: seq<Node>, test: Test)
    ensures Without(a + b, test) == Without(a, test) + Without(b, test)
  {
    if a == [] {
      assert a + b == b;
    } else {
      assert (a + b)[1..] == a[1..] + b;
      WithoutAppend(a[1..], b, test);
      Regroup(if test(a[0]) then [] else [a[0]], Without(a[1..], test), Without(b, test));
    }
  }

  lemma {:induction false} CountersAppend(a: seq<Node>, b: seq<Node>, kind: Kind)
    ensures Counters(a + b, kind) == Counters(a, kind) + Counters(b, kind)
  {
    if a == [] {
      assert a + b == b;
    } else {
      assert (a + b)[1..] == a[1..] + b;
      CountersAppend(a[1..], b, kind);
      var first := a[0];
      Regroup(if first.Counter? && first.kind == kind then [first] else [], Counters(a[1..], kind), Counters(b, kind));
    }
  }

  lemma {:induction false} NoCountersLeft(ns: seq<Node>, kind: Kind)
    ensures Counters(Without(ns, IS_COUNTER), kind) == []
  {
    if ns != [] {
      NoCountersLeft(ns[1..], kind);
      CountersAppend(if ns[0].Counter? then [] else [ns[0]], Without(ns[1..], IS_COUNTER), kind);
    }
  }

  /** `root.insert(i, x)`; an index past the end appends. */
  function Insert(ns: seq<Node>, i: nat, x: Node): seq<Node> {
    var at := if i < |ns| then i else |ns|;
    ns[..at] + [x] + ns[at..]
  }

  /** Inserting the counter of one kind, if there is one. */
  function WithCounter(ns: seq<Node>, i: nat, counters: seq<Node>): seq<Node> {
    if counters == [] then ns else Insert(ns, i, counters[0])
  }

  /** The root's children with its new counters. */
  function WithCounters(ns: seq<Node>, packages: seq<Node>): seq<Node> {
    var first := WithCounter(ns, 0, RootCounters(packages, INSTRUCTION));
    WithCounter(WithCounter(first, 1, RootCounters(packages, BRANCH)), 2, RootCounters(packages, LINE))
  }

  /** With instructions and branches counted, the counters come first, in the order of JaCoCo. */
  lemma CountersComeFirst(ns: seq<Node>, packages: seq<Node>)
    requires RootCounters(packages, INSTRUCTION) != [] && RootCounters(packages, BRANCH) != []
    ensures WithCounters(ns, packages) ==
            RootCounters(packages, INSTRUCTION) + RootCounters(packages, BRANCH) + RootCounters(packages, LINE) + ns
  {
    InsertInTurn(ns, RootCounters(packages, INSTRUCTION), RootCounters(packages, BRANCH), RootCounters(packages, LINE));
  }

  lemma InsertInTurn(ns: seq<Node>, i: seq<Node>, b: seq<Node>, l: seq<Node>)
    requires |i| == |b| == 1 && |l| <= 1
    ensures WithCounter(WithCounter(WithCounter(ns, 0, i), 1, b), 2, l) == i + b + l + ns
  {
    assert [] + ns == ns && [] + [i[0]] == i && i + [b[0]] == i + b;
    InsertBehind([], ns, i[0]);
    InsertBehind(i, ns, b[0]);
    if l == [] {
      assert i + b + l == i + b;
    } else {
      assert i + b + [l[0]] == i + b + l;
      InsertBehind(i + b, ns, l[0]);
    }
  }

  lemma InsertBehind(front: seq<Node>, ns: seq<Node>, x: Node)
    ensures Insert(front + ns, |front|, x) == front + [x] + ns
  {
    assert (front + ns)[|front|..] == ns;
    assert (front + ns)[..|front|] == front;
  }

  lemma InsertKeepsOthers(ns: seq<Node>, i: nat, x: Node)
    requires x.Counter?
    ensures Without(Insert(ns, i, x), IS_COUNTER) == Without(ns, IS_COUNTER)
  {
    var at := if i < |ns| then i else |ns|;
    assert ns == ns[..at] + ns[at..];
    WithoutAppend(ns[..at], ns[at..], IS_COUNTER);
    WithoutAppend(ns[..at] + [x], ns[at..], IS_COUNTER);
    WithoutAppend(ns[..at], [x], IS_COUNTER);
  }

  lemma CountersBetween(a: seq<Node>, x: Node, b: seq<Node>, kind: Kind)
    requires x.Counter?
    ensures Counters(a + [x] + b, kind) == Counters(a, kind) + (if kind == x.kind then [x] else []) + Counters(b, kind)
  {
    CountersAppend(a + [x], b, kind);
    CountersAppend(a, [x], kind);
    assert [x][1..] == [];
  }

  lemma InsertCounter(ns: seq<Node>, i: nat, x: Node, kind: Kind)
    requires x.Counter? && Counters(ns, x.kind) == []
    ensures Counters(Insert(ns, i, x), kind) == if kind == x.kind then [x] else Counters(ns, kind)
  {
    var at := if i < |ns| then i else |ns|;
    CountersSplit(ns[..at], ns[at..], x, kind);
    CountersSplit(ns[..at], ns[at..], x, x.kind);
    assert ns == ns[..at] + ns[at..];
  }

  lemma CountersSplit(a: seq<Node>, b: seq<Node>, x: Node, kind: Kind)
    requires x.Counter?
    ensures Counters(a + b, kind) == Counters(a, kind) + Counters(b, kind)
    ensures Counters(a + [x] + b, kind) == Counters(a, kind) + (if kind == x.kind then [x] else []) + Counters(b, kind)
  {
    CountersBetween(a, x, b, kind);
    CountersAppend(a, b, kind);
  }

  /************************************** The filter **************************************/

  /** The root element, whose list of children the filter changes in place. */
  class Root {
    var children: seq<Node>

    constructor (children: seq<Node>)
      ensures this.children == children
    {
      this.children := children;
    }

    method RemoveChild(x: Node) returns (ok: bool)
      modifies this
      ensures ok == (x in old(children))
      ensures children == if ok then Remove(old(children), x).value else old(children)
    {
      var r := Remove(children, x);
      ok := r.Some?;
      if r.Some? {
        children := r.value;
      }
    }

    method InsertChild(i: nat, x: Node)
      modifies this
      ensures children == Insert(old(children), i, x)
    {
      children := Insert(children, i, x);
    }
  }

  /** The counters of the packages under the root, by kind. */
  method SumPackages(packages: seq<Node>) returns (im: int, ic: int, bm: int, bc: int, lm: int, lc: int)
    ensures im == MissedOf(CountersIn(packages, INSTRUCTION)) && ic == CoveredOf(CountersIn(packages, INSTRUCTION))
    ensures bm == MissedOf(CountersIn(packages, BRANCH)) && bc == CoveredOf(CountersIn(packages, BRANCH))
    ensures lm == MissedOf(CountersIn(packages, LINE)) && lc == CoveredOf(CountersIn(packages, LINE))
  {
    im, ic, bm, bc, lm, lc := 0, 0, 0, 0, 0, 0;
    for i := 0 to |packages|
      invariant im == MissedOf(CountersIn(packages[..i], INSTRUCTION)) &&
                  ic == CoveredOf(CountersIn(packages[..i], INSTRUCTION))
      invariant bm == MissedOf(CountersIn(packages[..i], BRANCH)) && bc == CoveredOf(CountersIn(packages[..i], BRANCH))
      invariant lm == MissedOf(CountersIn(packages[..i], LINE)) && lc == CoveredOf(CountersIn(packages[..i], LINE))
    {
      assert packages[..i + 1] == packages[..i] + [packages[i]];
      forall kind {
        CountersInSnoc(packages[..i], packages[i], kind);
      }
      im, ic, bm, bc, lm, lc := AddPackage(Children(packages[i]), im, ic, bm, bc, lm, lc);
    }
    assert packages[..|packages|] == packages;
  }

  /** The inner loop: add the counters of one package. */
  method AddPackage(own: seq<Node>, im0: int, ic0: int, bm0: int, bc0: int, lm0: int, lc0: int)
    returns (im: int, ic: int, bm: int, bc: int, lm: int, lc: int)
    ensures im == im0 + MissedOf(Counters(own, INSTRUCTION)) && ic == ic0 + CoveredOf(Counters(own, INSTRUCTION))
    ensures bm == bm0 + MissedOf(Counters(own, BRANCH)) && bc == bc0 + CoveredOf(Counters(own, BRANCH))
    ensures lm == lm0 + MissedOf(Counters(own, LINE)) && lc == lc0 + CoveredOf(Counters(own, LINE))
  {
    im, ic, bm, bc, lm, lc := im0, ic0, bm0, bc0, lm0, lc0;
    for j := 0 to |own|
      invariant im == im0 + MissedOf(Counters(own[..j], INSTRUCTION))
      invariant ic == ic0 + CoveredOf(Counters(own[..j], INSTRUCTION))
      invariant bm == bm0 + MissedOf(Counters(own[..j], BRANCH)) && bc == bc0 + CoveredOf(Counters(own[..j], BRANCH))
      invariant lm == lm0 + MissedOf(Counters(own[..j], LINE)) && lc == lc0 + CoveredOf(Counters(own[..j], LINE))
    {
      assert own[..j + 1] == own[..j] + [own[j]];
      forall kind {
        CountersSnocFields(own[..j], own[j], kind);
      }
      match own[j] {
        case Counter(INSTRUCTION, missed, covered) => im, ic := im + missed, ic + covered;
        case Counter(BRANCH, missed, covered) => bm, bc := bm + missed, bc + covered;
        case Counter(LINE, missed, covered) => lm, lc := lm + missed, lc + covered;
        case _ =>
      }
    }
    assert own[..|own|] == own;
  }

  /** Remove these children one by one; false at the first that is not there. */
  method RemoveEach(root: Root, xs: seq<Node>) returns (ok: bool)
    modifies root
    ensures ok == RemoveAll(old(root.children), xs).Some?
    ensures ok ==> Some(root.children) == RemoveAll(old(root.children), xs)
  {
    assert xs[0..] == xs;
    for i := 0 to |xs|
      invariant RemoveAll(root.children, xs[i..]) == RemoveAll(old(root.children), xs)
    {
      assert xs[i..] == [xs[i]] + xs[i + 1..];
      RemoveAllCons(root.children, xs[i], xs[i + 1..]);
      ok := root.RemoveChild(xs[i]);
      if !ok {
        return;
      }
    }
    ok := true;
  }

  method FindAll(ns: seq<Node>, test: Test) returns (found: seq<Node>)
    ensures found == Only(ns, test)
  {
    found := [];
    for i := 0 to |ns|
      invariant found == Only(ns[..i], test)
    {
      assert ns[..i + 1] == ns[..i] + [ns[i]];
      OnlyAppend(ns[..i], [ns[i]], test);
      assert Only([ns[i]], test) == if test(ns[i]) then [ns[i]] else [];
      if test(ns[i]) {
        found := found + [ns[i]];
      }
    }
    assert ns[..|ns|] == ns;
  }

  /** Insert a counter unless both of its sums are zero. */
  method InsertCounterInPlace(root: Root, i: nat, kind: Kind, missed: int, covered: int, ghost packages: seq<Node>)
    requires !kind.OtherKind?
    requires missed == MissedOf(CountersIn(packages, kind)) && covered == CoveredOf(CountersIn(packages, kind))
    modifies root
    ensures root.children == WithCounter(old(root.children), i, RootCounters(packages, kind))
  {
    if missed > 0 || covered > 0 {
      root.InsertChild(i, Counter(kind, missed, covered));
    }
  }

  lemma CounterInserted(ns: seq<Node>, i: nat, kind: Kind, packages: seq<Node>)
    requires !kind.OtherKind? && Counters(ns, kind) == []
    ensures var after := WithCounter(ns, i, RootCounters(packages, kind));
            && Without(after, IS_COUNTER) == Without(ns, IS_COUNTER)
            && forall k :: Counters(after, k) == if k == kind then RootCounters(packages, kind) else Counters(ns, k)
  {
    if RootCounters(packages, kind) != [] {
      var counter := RootCounters(packages, kind)[0];
      InsertKeepsOthers(ns, i, counter);
      forall k
        ensures Counters(Insert(ns, i, counter), k) == if k == kind then [counter] else Counters(ns, k)
      {
        InsertCounter(ns, i, counter, k);
      }
    }
  }

  /** The inserted counters are the only ones, and the other children stay in order. */
  lemma CountersInserted(ns: seq<Node>, packages: seq<Node>)
    requires forall kind :: Counters(ns, kind) == []
    ensures Without(WithCounters(ns, packages), IS_COUNTER) == Without(ns, IS_COUNTER)
    ensures forall kind :: Counters(WithCounters(ns, packages), kind) == RootCounters(packages, kind)
  {
    var first := WithCounter(ns, 0, RootCounters(packages, INSTRUCTION));
    var second := WithCounter(first, 1, RootCounters(packages, BRANCH));
    CounterInserted(ns, 0, INSTRUCTION, packages);
    CounterInserted(first, 1, BRANCH, packages);
    CounterInserted(second, 2, LINE, packages);
  }

  method RemoveCounters(root: Root)
    modifies root
    ensures root.children == Without(old(root.children), IS_COUNTER)
  {
    ghost var kept := root.children;
    RemoveChildren([], kept, IS_COUNTER);
    assert [] + kept == kept && [] + Without(kept, IS_COUNTER) == Without(kept, IS_COUNTER);
    var counters := FindAll(root.children, IS_COUNTER);
    var _ := RemoveEach(root, counters);
  }

  /** Replace the counters of the root by the sums over the packages it has. */
  method RecomputeRootCounters(root: Root)
    modifies root
    ensures root.children ==
            WithCounters(Without(old(root.children), IS_COUNTER), Only(old(root.children), IS_PACKAGE))
    ensures Without(root.children, IS_COUNTER) == Without(old(root.children), IS_COUNTER)
    ensures forall kind :: Counters(root.children, kind) == RootCounters(Only(old(root.children), IS_PACKAGE), kind)
  {
    ghost var kept := root.children;
    var packages := FindAll(root.children, IS_PACKAGE);
    var im, ic, bm, bc, lm, lc := SumPackages(packages);
    RemoveCounters(root);
    WithoutTwice(kept);
    forall kind {
      NoCountersLeft(kept, kind);
    }
    InsertRootCounters(root, im, ic, bm, bc, lm, lc, packages);
  }

  method InsertRootCounters(root: Root, im: int, ic: int, bm: int, bc: int, lm: int, lc: int, ghost packages: seq<Node>)
    requires im == MissedOf(CountersIn(packages, INSTRUCTION)) && ic == CoveredOf(CountersIn(packages, INSTRUCTION))
    requires bm == MissedOf(CountersIn(packages, BRANCH)) && bc == CoveredOf(CountersIn(packages, BRANCH))
    requires lm == MissedOf(CountersIn(packages, LINE)) && lc == CoveredOf(CountersIn(packages, LINE))
    requires forall kind :: Counters(root.children, kind) == []
    modifies root
    ensures root.children == WithCounters(old(root.children), packages)
    ensures Without(root.children, IS_COUNTER) == Without(old(root.children), IS_COUNTER)
    ensures forall kind :: Counters(root.children, kind) == RootCounters(packages, kind)
  {
    CountersInserted(root.children, packages);
    InsertCounterInPlace(root, 0, INSTRUCTION, im, ic, packages);
    InsertCounterInPlace(root, 1, BRANCH, bm, bc, packages);
    InsertCounterInPlace(root, 2, LINE, lm, lc, packages);
  }

  /**
   `_filter_teku_xml_report`: the children of the root element that are written.  The packages in
   scope and all other elements stay, in order; each counter of the root is the sum over the
   packages kept.
   */
  method FilterTekuXmlReport(root: Root, prefixes: seq<string>) returns (output: seq<Node>)
    modifies root
    ensures DroppedBelow(old(root.children), OutOfScope(prefixes)) ==> output == old(root.children)
    ensures !DroppedBelow(old(root.children), OutOfScope(prefixes)) ==>
              var kept := Without(old(root.children), OutOfScope(prefixes));
              && output == root.children == WithCounters(Without(kept, IS_COUNTER), Only(kept, IS_PACKAGE))
              && Without(output, IS_COUNTER) == Without(kept, IS_COUNTER)
              && forall kind :: Counters(output, kind) == RootCounters(Only(kept, IS_PACKAGE), kind)
  {
    var original, drop := root.children, OutOfScope(prefixes);
    RemovePackages(original, drop);
    ghost var kept := Without(original, drop);
    var packagesToRemove := FindAll(Packages(root.children), drop);
    var ok := RemoveEach(root, packagesToRemove);
    if !ok {
      return original;
    }
    assert root.children == kept;
    RecomputeRootCounters(root);
    return root.children;
  }

  lemma {:induction false} WithoutTwice(ns: seq<Node>)
    ensures Without(Without(ns, IS_COUNTER), IS_COUNTER) == Without(ns, IS_COUNTER)
  {
    if ns != [] {
      WithoutTwice(ns[1..]);
      WithoutAppend(if ns[0].Counter? then [] else [ns[0]], Without(ns[1..], IS_COUNTER), IS_COUNTER);
    }
  }
}
