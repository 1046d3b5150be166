/**
 The two ways Teku line and branch coverage is read off a JaCoCo report: `parse_teku` adds up source
 files by path, the filtered report shows the counters its root was given.
 */
module TekuScope {
  import opened PyString
  import opened Coverage
  import opened TekuReport
  import opened TekuFilter

  const EVERY_FILE: Matcher := (p: string) => true

  /** `make_matcher(include_prefixes=prefixes)` */
  function PrefixMatcher(prefixes: seq<string>): Matcher {
    MakeMatcher(Patterns(prefixes, [], []), Patterns([], [], []))
  }

  /** These counters together show this many covered out of this total. */
  predicate CountersShow(counters: seq<Node>, covered: int, total: int) {
    CoveredOf(counters) == covered && CoveredOf(counters) + MissedOf(counters) == total
  }

  /** The LINE and BRANCH counters of a package are the sums over the source files below it. */
  predicate Consistent(p: Node) {
    var files, own := Files(p, ""), Children(p);
    && CountersShow(Counters(own, LINE), Sum(files, EVERY_FILE, CoveredPrimary), Sum(files, EVERY_FILE, TotalPrimary))
    && CountersShow(Counters(own, BRANCH), Sum(files, EVERY_FILE, CoveredBranch), Sum(files, EVERY_FILE, TotalBranch))
  }

  function PackageTotals(packages: seq<Node>): Totals {
    var line, branch := CountersIn(packages, LINE), CountersIn(packages, BRANCH);
    Totals(CoveredOf(line), CoveredOf(line) + MissedOf(line),
           CoveredOf(branch), CoveredOf(branch) + MissedOf(branch))
  }

  /** The children of the root that are not packages in scope. */
  function Others(children: seq<Node>, prefixes: seq<string>): seq<Node> {
    Without(children, KeptPackage(prefixes))
  }

  function KeptPackage(prefixes: seq<string>): Test {
    (n: Node) => n.Package? && !Dropped(n, prefixes)
  }

  function KeptPackages(children: seq<Node>, prefixes: seq<string>): seq<Node> {
    Only(Without(children, OutOfScope(prefixes)), IS_PACKAGE)
  }

  lemma {:induction false} SumOfConsistent(packages: seq<Node>, part: Part)
    requires forall p :: p in packages ==> p.Package? && Consistent(p)
    ensures Sum(AllFiles(packages, ""), EVERY_FILE, part) == PackageTotals(packages).Get(part)
  {
    if packages != [] {
      assert packages[0] in packages;
      SumOfConsistent(packages[1..], part);
      SumAppend(Files(packages[0], ""), AllFiles(packages[1..], ""), EVERY_FILE, part);
      forall kind {
        FieldsAppend(Counters(Children(packages[0]), kind), CountersIn(packages[1..], kind));
      }
    }
  }

  lemma {:induction false} AllFilesAppend(a: seq<Node>, b: seq<Node>, package: string)
    ensures AllFiles(a + b, package) == AllFiles(a, package) + AllFiles(b, package)
  {
    if a == [] {
      assert a + b == b;
    } else {
      assert (a + b)[1..] == a[1..] + b;
      AllFilesAppend(a[1..], b, package);
    }
  }

  lemma OneNode(n: Node, package: string)
    ensures AllFiles([n], package) == Files(n, package)
  {
    assert [n][1..] == [];
  }

  /** Every source file lies in a kept package or in one of the other children of the root. */
  lemma {:induction false} SumSplits(children: seq<Node>, prefixes: seq<string>, m: Matcher, part: Part)
    ensures Sum(AllFiles(children, ""), m, part)
            == Sum(AllFiles(KeptPackages(children, prefixes), ""), m, part) +
                Sum(AllFiles(Others(children, prefixes), ""), m, part)
  {
    if children != [] {
      var n, rest := children[0], children[1..];
      SumSplits(rest, prefixes, m, part);
      SumAppend(Files(n, ""), AllFiles(rest, ""), m, part);
      OneNode(n, "");
      if n.Package? && !Dropped(n, prefixes) {
        OnlyAppend([n], Without(rest, OutOfScope(prefixes)), IS_PACKAGE);
        assert Only([n], IS_PACKAGE) == [n];
        assert KeptPackages(children, prefixes) == [n] + KeptPackages(rest, prefixes);
        assert Others(children, prefixes) == Others(rest, prefixes);
        AllFilesAppend([n], KeptPackages(rest, prefixes), "");
        SumAppend(Files(n, ""), AllFiles(KeptPackages(rest, prefixes), ""), m, part);
      } else {
        var own := if Dropped(n, prefixes) then [] else [n];
        OnlyAppend(own, Without(rest, OutOfScope(prefixes)), IS_PACKAGE);
        assert Only(own, IS_PACKAGE) == [];
        assert KeptPackages(children, prefixes) == [] + KeptPackages(rest, prefixes) == KeptPackages(rest, prefixes);
        assert Others(children, prefixes) == [n] + Others(rest, prefixes);
        AllFilesAppend([n], Others(rest, prefixes), "");
        SumAppend(Files(n, ""), AllFiles(Others(rest, prefixes), ""), m, part);
      }
    }
  }

  /** The filtered root's counters are the sums over the kept packages, and these are not negative. */
  ghost predicate RootShows(output: seq<Node>, packages: seq<Node>) {
    && (forall kind :: Counters(output, kind) == RootCounters(packages, kind))
    && (forall kind :: 0 <= MissedOf(CountersIn(packages, kind)) && 0 <= CoveredOf(CountersIn(packages, kind)))
  }

  /** The counters a filtered root shows are those of its packages, where these are not negative. */
  lemma RootShowsPackages(output: seq<Node>, packages: seq<Node>)
    requires RootShows(output, packages)
    ensures FileTotals(output) == PackageTotals(packages)
  {
    assert Counters(output, LINE) == RootCounters(packages, LINE);
    assert Counters(output, BRANCH) == RootCounters(packages, BRANCH);
  }

  lemma PartExceedsByLeaks(children: seq<Node>, prefixes: seq<string>, m: Matcher, part: Part)
    requires var packages := KeptPackages(children, prefixes);
             && (forall p :: p in packages ==> p.Package? && Consistent(p))
             && (forall e :: e in AllFiles(packages, "") ==> m(e.path))
    ensures Sum(AllFiles(children, ""), m, part) ==
            PackageTotals(KeptPackages(children, prefixes)).Get(part) +
                Sum(AllFiles(Others(children, prefixes), ""), m, part)
  {
    var packages := KeptPackages(children, prefixes);
    SumSplits(children, prefixes, m, part);
    SumCong(AllFiles(packages, ""), m, EVERY_FILE, part);
    SumOfConsistent(packages, part);
  }

  lemma ByParts(all: seq<Entry>, others: seq<Entry>, m: Matcher, shown: Totals)
    requires forall part :: Sum(all, m, part) == shown.Get(part) + Sum(others, m, part)
    ensures Total(all, m) == shown.Add(Total(others, m))
  {
    assert Sum(all, m, CoveredPrimary) == shown.Get(CoveredPrimary) + Sum(others, m, CoveredPrimary);
    assert Sum(all, m, TotalPrimary) == shown.Get(TotalPrimary) + Sum(others, m, TotalPrimary);
    assert Sum(all, m, CoveredBranch) == shown.Get(CoveredBranch) + Sum(others, m, CoveredBranch);
    assert Sum(all, m, TotalBranch) == shown.Get(TotalBranch) + Sum(others, m, TotalBranch);
  }

  /**
   The totals of `parse_teku` on the unfiltered report exceed what the filtered root shows by exactly
   the matching source files outside the kept packages.
   */
  lemma ParseExceedsRootByLeaks(children: seq<Node>, output: seq<Node>, prefixes: seq<string>, m: Matcher)
    requires var packages := KeptPackages(children, prefixes);
             && RootShows(output, packages)
             && (forall p :: p in packages ==> p.Package? && Consistent(p))
             && (forall e :: e in AllFiles(packages, "") ==> m(e.path))
    ensures Total(AllFiles(children, ""), m)
            == FileTotals(output).Add(Total(AllFiles(Others(children, prefixes), ""), m))
  {
    RootShowsPackages(output, KeptPackages(children, prefixes));
    var shown, others := PackageTotals(KeptPackages(children, prefixes)), AllFiles(Others(children, prefixes), "");
    forall part
      ensures Sum(AllFiles(children, ""), m, part) == shown.Get(part) + Sum(others, m, part)
    {
      PartExceedsByLeaks(children, prefixes, m, part);
    }
    ByParts(AllFiles(children, ""), others, m, shown);
  }

  /********************** Source files of a kept package match the prefixes **********************/

  lemma NormalizeAppend(a: string, b: string)
    ensures NormalizePath(a + b) == NormalizePath(a) + NormalizePath(b)
    ensures NormalizePath(NormalizePath(a)) == NormalizePath(a)
  {
  }

  predicate InScope(package: string, prefixes: seq<string>) {
    exists p | p in prefixes :: NormalizePath(p) <= package
  }

  lemma CoreIsInScope(name: string, prefixes: seq<string>)
    requires Core(name, prefixes)
    ensures InScope(NormalizePath(name), prefixes)
  {
    var p :| p in prefixes && p <= name;
    assert name == p + name[|p|..];
    NormalizeAppend(p, name[|p|..]);
  }

  lemma FileOfScope(package: string, name: string, prefixes: seq<string>)
    requires InScope(package, prefixes) && NormalizePath(package) == package
    ensures PrefixMatcher(prefixes)(FilePath(package, name))
  {
    var p :| p in prefixes && NormalizePath(p) <= package;
    var path := FilePath(package, name);
    assert package <= path by {
      assert package + "/" + name == package + ("/" + name);
      NormalizeAppend(package, "/" + name);
    }
    NormalizeAppend(if package != "" then package + "/" + name else name, "");
    PrefixHit(path, p, prefixes);
  }

  lemma PrefixHit(path: string, p: string, prefixes: seq<string>)
    requires p in prefixes && NormalizePath(p) <= path && NormalizePath(path) == path
    ensures PrefixMatcher(prefixes)(path)
  {
    assert Patterns(prefixes, [], []).Hit(path);
    assert !Patterns([], [], []).Hit(path);
  }

  ghost predicate AllMatch(entries: seq<Entry>, prefixes: seq<string>) {
    forall e :: e in entries ==> PrefixMatcher(prefixes)(e.path)
  }

  lemma AllMatchAppend(a: seq<Entry>, b: seq<Entry>, prefixes: seq<string>)
    requires AllMatch(a, prefixes) && AllMatch(b, prefixes)
    ensures AllMatch(a + b, prefixes)
  {
  }

  lemma SnocMatches(entries: seq<Entry>, e: Entry, prefixes: seq<string>)
    requires AllMatch(entries, prefixes) && PrefixMatcher(prefixes)(e.path)
    ensures AllMatch(entries + [e], prefixes)
  {
  }

  lemma SourceFileMatches(n: Node, package: string, prefixes: seq<string>)
    requires n.SourceFile? && AllMatch(AllFiles(n.children, package), prefixes)
    requires InScope(package, prefixes) && NormalizePath(package) == package
    ensures AllMatch(Files(n, package), prefixes)
  {
    FileOfScope(package, n.name, prefixes);
    SnocMatches(AllFiles(n.children, package), Entry(FilePath(package, n.name), FileTotals(n.children)), prefixes);
  }

  /** A package that is not dropped starts in scope. */
  lemma KeptPackageInScope(n: Node, prefixes: seq<string>)
    requires n.Package? && !Dropped(n, prefixes)
    ensures InScope(NormalizePath(n.name), prefixes)
    ensures NormalizePath(NormalizePath(n.name)) == NormalizePath(n.name)
  {
    CoreIsInScope(n.name, prefixes);
    NormalizeAppend(n.name, "");
  }

  lemma {:induction false} KeptFilesMatch(n: Node, package: string, prefixes: seq<string>)
    requires forall p :: p in PackagesFrom(n) ==> !Dropped(p, prefixes)
    requires n.Package? || (InScope(package, prefixes) && NormalizePath(package) == package)
    ensures AllMatch(Files(n, package), prefixes)
    decreases n, 1
  {
    if !n.Counter? {
      PackagesFromSplit(n);
      var inner := if n.Package? then NormalizePath(n.name) else package;
      if n.Package? {
        assert n in PackagesFrom(n);
        KeptPackageInScope(n, prefixes);
      }
      AllKeptFilesMatch(n.children, inner, prefixes);
      if n.SourceFile? {
        SourceFileMatches(n, package, prefixes);
      }
    }
  }

  lemma {:induction false} AllKeptFilesMatch(ns: seq<Node>, package: string, prefixes: seq<string>)
    requires forall p :: p in Packages(ns) ==> !Dropped(p, prefixes)
    requires InScope(package, prefixes) && NormalizePath(package) == package
    ensures AllMatch(AllFiles(ns, package), prefixes)
    decreases ns, 0
  {
    if ns != [] {
      KeptFilesMatch(ns[0], package, prefixes);
      AllKeptFilesMatch(ns[1..], package, prefixes);
      AllMatchAppend(Files(ns[0], package), AllFiles(ns[1..], package), prefixes);
    }
  }

  lemma {:induction false} KeptPackagesAre(children: seq<Node>, prefixes: seq<string>)
    ensures forall p :: p in KeptPackages(children, prefixes) ==> p in children && p.Package? && !Dropped(p, prefixes)
  {
    if children != [] {
      KeptPackagesAre(children[1..], prefixes);
      var own := if Dropped(children[0], prefixes) then [] else [children[0]];
      OnlyAppend(own, Without(children[1..], OutOfScope(prefixes)), IS_PACKAGE);
    }
  }

  lemma {:induction false} PackagesMatch(packages: seq<Node>, prefixes: seq<string>)
    requires forall n, p :: n in packages && p in PackagesFrom(n) ==> n.Package? && !Dropped(p, prefixes)
    requires forall n :: n in packages ==> n.Package?
    ensures forall e :: e in AllFiles(packages, "") ==> PrefixMatcher(prefixes)(e.path)
  {
    if packages != [] {
      KeptFilesMatch(packages[0], "", prefixes);
      PackagesMatch(packages[1..], prefixes);
    }
  }

  /** The source files outside the kept packages whose path starts with a prefix all the same. */
  function LeakedTotals(children: seq<Node>, prefixes: seq<string>): Totals {
    Total(AllFiles(Others(children, prefixes), ""), PrefixMatcher(prefixes))
  }

  predicate NoCounts(t: Totals) {
    t.coveredPrimary == 0 && t.totalPrimary == 0 && t.coveredBranch == 0 && t.totalBranch == 0
  }

  lemma AddNothing(a: Totals, b: Totals)
    ensures a.Add(b) == a <==> NoCounts(b)
  {
  }

  /** If all packages out of scope are children of the root, every file of a kept package is in scope. */
  lemma KeptPackagesMatch(children: seq<Node>, prefixes: seq<string>)
    requires !DroppedBelow(children, OutOfScope(prefixes))
    ensures forall e :: e in AllFiles(KeptPackages(children, prefixes), "") ==> PrefixMatcher(prefixes)(e.path)
  {
    var packages := KeptPackages(children, prefixes);
    KeptPackagesAre(children, prefixes);
    forall n, p | n in packages && p in PackagesFrom(n)
      ensures !Dropped(p, prefixes)
    {
      PackagesFromSplit(n);
      if p != n {
        assert p in Packages(Children(n));
        assert !OutOfScope(prefixes)(p);
      }
    }
    PackagesMatch(packages, prefixes);
  }

  /**
   When the filter succeeds on a report whose package counters are the sums of their files, `parse_teku`
   with the filter's prefixes finds on the unfiltered report what the filtered root shows, plus the leak.
   So the two agree exactly if no leaked file carries a count.
   */
  lemma RootVersusParse(children: seq<Node>, output: seq<Node>, prefixes: seq<string>)
    requires !DroppedBelow(children, OutOfScope(prefixes))
    requires RootShows(output, KeptPackages(children, prefixes))
    requires forall p :: p in KeptPackages(children, prefixes) ==> Consistent(p)
    ensures var parsed := Total(Files(Element("report", children), ""), PrefixMatcher(prefixes));
            && parsed == FileTotals(output).Add(LeakedTotals(children, prefixes))
            && (parsed == FileTotals(output) <==> NoCounts(LeakedTotals(children, prefixes)))
  {
    KeptPackagesMatch(children, prefixes);
    KeptPackagesAre(children, prefixes);
    ParseExceedsRootByLeaks(children, output, prefixes, PrefixMatcher(prefixes));
    AddNothing(FileTotals(output), LeakedTotals(children, prefixes));
  }

  lemma OneDropped(p: Node, file: Node, prefixes: seq<string>)
    requires Dropped(p, prefixes) && p.children == [file] && file.SourceFile? && Packages(file.children) == []
    ensures !DroppedBelow([p], OutOfScope(prefixes)) && Others([p], prefixes) == [p]
  {
    assert [p][1..] == [] && [file][1..] == [];
    assert Packages([file]) == PackagesFrom(file) + Packages([]);
    assert !KeptPackage(prefixes)(p);
    assert Without([p], KeptPackage(prefixes)) == [p] + Without([], KeptPackage(prefixes));
  }

  lemma OneFile(p: Node, file: Node)
    requires p.Package? && p.children == [file] && file.SourceFile?
    requires AllFiles(file.children, NormalizePath(p.name)) == []
    ensures AllFiles([p], "") == [Entry(FilePath(NormalizePath(p.name), file.name), FileTotals(file.children))]
  {
    OneNode(p, "");
    OneNode(file, NormalizePath(p.name));
  }

  lemma DroppedPackageLeaks(p: Node, file: Node, prefixes: seq<string>, prefix: string)
    requires Dropped(p, prefixes) && p.children == [file] && file.SourceFile? && Packages(file.children) == []
    requires prefix in prefixes && NormalizePath(prefix) <= FilePath(NormalizePath(p.name), file.name)
    requires AllFiles(file.children, NormalizePath(p.name)) == []
    ensures !DroppedBelow([p], OutOfScope(prefixes))
    ensures LeakedTotals([p], prefixes).coveredPrimary == FileTotals(file.children).coveredPrimary
  {
    OneDropped(p, file, prefixes);
    OneFile(p, file);
    var e := Entry(FilePath(NormalizePath(p.name), file.name), FileTotals(file.children));
    PrefixHit(e.path, prefix, prefixes);
    assert [e][1..] == [];
    assert Sum([e], PrefixMatcher(prefixes), CoveredPrimary) == e.totals.coveredPrimary;
  }

  lemma NoBackslash(s: string)
    requires forall i :: 0 <= i < |s| ==> s[i] != '\\'
    ensures NormalizePath(s) == s
  {
  }

  lemma OneCoveredLine()
    ensures FileTotals([Counter(LINE, 0, 1)]).coveredPrimary == 1
  {
    assert [Counter(LINE, 0, 1)][1..] == [];
  }

  /** Every package out of scope leaks the files whose name completes a prefix that starts with the package's own. */
  lemma CompletedPrefixLeaks(p: Node, file: Node, start: string, end: string, prefixes: seq<string>)
    requires p.Package? && p.children == [file] && !Core(p.name, prefixes) && p.name != ""
    requires file.SourceFile? && file.name == start + end && file.children == [Counter(LINE, 0, 1)]
    requires p.name + "/" + start in prefixes
    requires forall i :: 0 <= i < |p.name + "/" + start + end| ==> (p.name + "/" + start + end)[i] != '\\'
    ensures !DroppedBelow([p], OutOfScope(prefixes)) && !NoCounts(LeakedTotals([p], prefixes))
  {
    var path := p.name + "/" + start + end;
    assert p.name == path[..|p.name|] && p.name + "/" + start == path[..|p.name + "/" + start|];
    NoBackslash(p.name);
    NoBackslash(p.name + "/" + start);
    NoBackslash(path);
    assert p.name + "/" + (start + end) == path;
    OneNode(file.children[0], p.name);
    DroppedPackageLeaks(p, file, prefixes, p.name + "/" + start);
    OneCoveredLine();
  }

  lemma ParentOutOfScope(name: string)
    requires |name| == 17
    ensures !Core(name, CORE_PREFIXES)
  {
    forall prefix | prefix in CORE_PREFIXES
      ensures !(prefix <= name)
    {
      assert |prefix| > 17;
    }
  }

  /** With the real prefixes: a file of the package `tech/pegasys/teku`, which is not in scope. */
  lemma LeakExists(p: Node)
    requires p == Package("tech/pegasys/teku", [SourceFile("spec" + "s", [Counter(LINE, 0, 1)])])
    ensures !DroppedBelow([p], OutOfScope(CORE_PREFIXES)) && !NoCounts(LeakedTotals([p], CORE_PREFIXES))
  {
    ParentOutOfScope(p.name);
    assert p.name + "/" + "spec" == CORE_PREFIXES[0];
    CompletedPrefixLeaks(p, p.children[0], "spec", "s", CORE_PREFIXES);
  }
}
