/**
 `parse_lodestar_intersection`: branch coverage of one Lodestar report, counted over the branches
 that both compared reports know.

 A report is the `coverage-final.json` object in file order.  `Norm` is `_lodestar_norm_key`: the
 comparison path of a key, None for a key out of scope.
 */
module Lodestar {
  import opened Sequences
  import opened Wrappers

  /** Branch type with the line and column of its start and end. */
  datatype Signature = Signature(kind: string, start: (int, int), end: (int, int))

  datatype Branch = Branch(signature: Signature, hits: seq<int>)

  datatype FileReport = FileReport(key: string, branches: seq<Branch>)

  type Norm = string -> Option<string>
  type Taken = map<Signature, bool>

  predicate AnyHit(b: Branch) {
    exists h | h in b.hits :: h > 0
  }

  /** Per signature, whether the last branch with that signature was taken. */
  function BranchMap(branches: seq<Branch>): Taken {
    if branches == [] then map[]
    else
      var last := branches[|branches| - 1];
      BranchMap(branches[..|branches| - 1])[last.signature := AnyHit(last)]
  }

  /** The last branch with a signature decides, and is taken if some hit count is positive. */
  lemma {:induction false} LastBranchDecides(branches: seq<Branch>, k: nat)
    requires k < |branches| && forall i :: k < i < |branches| ==> branches[i].signature != branches[k].signature
    ensures var s, hits := branches[k].signature, branches[k].hits;
            s in BranchMap(branches) && (BranchMap(branches)[s] <==> exists j :: 0 <= j < |hits| && hits[j] >= 1)
  {
    if k == |branches| - 1 {
      var hits := branches[k].hits;
      if h :| h in hits && h > 0 {
        var j :| 0 <= j < |hits| && hits[j] == h;
      }
      if j :| 0 <= j < |hits| && hits[j] >= 1 {
        assert hits[j] in hits;
      }
    } else {
      LastBranchDecides(branches[..|branches| - 1], k);
    }
  }

  lemma {:induction false} MappedIff(branches: seq<Branch>, s: Signature)
    ensures s in BranchMap(branches) <==> exists k :: 0 <= k < |branches| && branches[k].signature == s
  {
    if branches != [] {
      var front := branches[..|branches| - 1];
      MappedIff(front, s);
      if k :| 0 <= k < |front| && front[k].signature == s {
        assert branches[k].signature == s;
      }
      if k :| 0 <= k < |branches| && branches[k].signature == s {
        assert k < |front| ==> front[k].signature == s;
      }
    }
  }

  /** The file that stands for a path is the last whose key has it. */
  lemma {:induction false} LastKeyDecides(report: seq<FileReport>, norm: Norm, k: nat)
    requires k < |report| && norm(report[k].key).Some?
    requires forall i :: k < i < |report| ==> norm(report[i].key) != norm(report[k].key)
    ensures var path := norm(report[k].key).value;
            path in InScope(report, norm) && InScope(report, norm)[path] == report[k].branches
  {
    if k < |report| - 1 {
      LastKeyDecides(report[..|report| - 1], norm, k);
    }
  }

  lemma {:induction false} InScopeIff(report: seq<FileReport>, norm: Norm, path: string)
    ensures path in InScope(report, norm) <==> exists k :: 0 <= k < |report| && norm(report[k].key) == Some(path)
  {
    if report != [] {
      var front := report[..|report| - 1];
      InScopeIff(front, norm, path);
      if k :| 0 <= k < |front| && norm(front[k].key) == Some(path) {
        assert norm(report[k].key) == Some(path);
      }
      if k :| 0 <= k < |report| && norm(report[k].key) == Some(path) {
        assert k < |front| ==> norm(front[k].key) == Some(path);
      }
    }
  }

  /** `_lodestar_branch_map` */
  method BuildBranchMap(branches: seq<Branch>) returns (out: Taken)
    ensures out == BranchMap(branches)
  {
    out := map[];
    for i := 0 to |branches|
      invariant out == BranchMap(branches[..i])
    {
      assert branches[..i + 1][..i] == branches[..i];
      out := out[branches[i].signature := AnyHit(branches[i])];
    }
    assert branches[..|branches|] == branches;
  }

  /** The files in scope by comparison path; of two keys with the same path the last counts. */
  function InScope(report: seq<FileReport>, norm: Norm): map<string, seq<Branch>> {
    if report == [] then map[]
    else
      var last := report[|report| - 1];
      var before := InScope(report[..|report| - 1], norm);
      match norm(last.key)
      case None => before
      case Some(path) => before[path := last.branches]
  }

  method BuildKeys(report: seq<FileReport>, norm: Norm) returns (keys: map<string, seq<Branch>>)
    ensures keys == InScope(report, norm)
  {
    keys := map[];
    for i := 0 to |report|
      invariant keys == InScope(report[..i], norm)
    {
      assert report[..i + 1][..i] == report[..i];
      match norm(report[i].key) {
        case None =>
        case Some(path) => keys := keys[path := report[i].branches];
      }
    }
    assert report[..|report|] == report;
  }

  /** The branches of each file in scope. */
  type Report = map<string, Taken>

  function BranchMaps(files: map<string, seq<Branch>>): Report {
    map path | path in files :: BranchMap(files[path])
  }

  function Known(report: seq<FileReport>, norm: Norm): Report {
    BranchMaps(InScope(report, norm))
  }

  ghost predicate Knows(r: Report, path: string, s: Signature) {
    path in r && s in r[path]
  }

  ghost function Common(a: Report, b: Report): set<(string, Signature)> {
    CommonIn(a, b, a.Keys * b.Keys)
  }

  ghost function CommonIn(a: Report, b: Report, paths: set<string>): set<(string, Signature)>
    requires paths <= a.Keys * b.Keys
  {
    set path, s | path in paths && s in a[path].Keys * b[path].Keys :: (path, s)
  }

  /** The pairs that report `r` has taken. */
  ghost function TakenOf(r: Report, pairs: set<(string, Signature)>): set<(string, Signature)> {
    set p | p in pairs && Knows(r, p.0, p.1) && r[p.0][p.1]
  }

  ghost function Tag(path: string, ss: set<Signature>): set<(string, Signature)> {
    set s | s in ss :: (path, s)
  }

  lemma {:induction false} TagSize(path: string, ss: set<Signature>)
    ensures |Tag(path, ss)| == |ss|
  {
    if ss != {} {
      var s :| s in ss;
      TagSize(path, ss - {s});
      assert Tag(path, ss) == Tag(path, ss - {s}) + {(path, s)};
    }
  }

  ghost function TakenAmong(branches: Taken, ss: set<Signature>): set<Signature>
    requires ss <= branches.Keys
  {
    set s | s in ss && branches[s]
  }

  lemma TakeOne(branches: Taken, done: set<Signature>, s: Signature)
    requires done <= branches.Keys && s in branches && s !in done
    ensures |TakenAmong(branches, done + {s})| == |TakenAmong(branches, done)| + if branches[s] then 1 else 0
  {
    var before := TakenAmong(branches, done);
    assert TakenAmong(branches, done + {s}) == before + if branches[s] then {s} else {};
  }

  /** `sum(branches[sig] for sig in common)` */
  method CountTaken(branches: Taken, common: set<Signature>) returns (n: nat)
    requires common <= branches.Keys
    ensures n == |TakenAmong(branches, common)|
  {
    n := 0;
    var rest := common;
    ghost var done: set<Signature> := {};
    while rest != {}
      invariant done !! rest && done + rest == common
      invariant n == |TakenAmong(branches, done)|
      decreases |rest|
    {
      var s :| s in rest;
      TakeOne(branches, done, s);
      rest, done := rest - {s}, done + {s};
      n := n + if branches[s] then 1 else 0;
    }
    assert done == common;
  }

  ghost function TakenHere(a: Taken, b: Taken): set<Signature> {
    TakenAmong(a, a.Keys * b.Keys)
  }

  lemma AddPathTotal(a: Report, b: Report, done: set<string>, path: string)
    requires done <= a.Keys * b.Keys && path in a.Keys * b.Keys && path !in done
    ensures |CommonIn(a, b, done + {path})| == |CommonIn(a, b, done)| + |a[path].Keys * b[path].Keys|
  {
    var common := a[path].Keys * b[path].Keys;
    TagSize(path, common);
    CommonOfOneMore(a, b, done, path);
  }

  lemma CommonOfOneMore(a: Report, b: Report, done: set<string>, path: string)
    requires done <= a.Keys * b.Keys && path in a.Keys * b.Keys && path !in done
    ensures CommonIn(a, b, done + {path}) == CommonIn(a, b, done) + Tag(path, a[path].Keys * b[path].Keys)
    ensures CommonIn(a, b, done) !! Tag(path, a[path].Keys * b[path].Keys)
  {
    var before, here := CommonIn(a, b, done), Tag(path, a[path].Keys * b[path].Keys);
    forall p
      ensures p in CommonIn(a, b, done + {path}) <==> p in before || p in here
    {
    }
  }

  lemma AddPathCovered(a: Report, b: Report, done: set<string>, path: string)
    requires done <= a.Keys * b.Keys && path in a.Keys * b.Keys && path !in done
    ensures |TakenOf(a, CommonIn(a, b, done + {path}))| ==
            |TakenOf(a, CommonIn(a, b, done))| + |TakenHere(a[path], b[path])|
  {
    var taken := TakenHere(a[path], b[path]);
    TagSize(path, taken);
    var before, after := TakenOf(a, CommonIn(a, b, done)), TakenOf(a, CommonIn(a, b, done + {path}));
    forall p
      ensures p in after <==> p in before + Tag(path, taken)
    {
    }
    assert after == before + Tag(path, taken);
  }

  method IntersectFile(current: seq<Branch>, other: seq<Branch>) returns (covered: nat, total: nat)
    ensures total == |BranchMap(current).Keys * BranchMap(other).Keys|
    ensures covered == |TakenHere(BranchMap(current), BranchMap(other))|
  {
    var currentBranches := BuildBranchMap(current);
    var otherBranches := BuildBranchMap(other);
    var commonSigs := currentBranches.Keys * otherBranches.Keys;
    covered := CountTaken(currentBranches, commonSigs);
    total := |commonSigs|;
  }

  ghost function Elements<T>(ts: seq<T>): set<T> {
    set t | t in ts
  }

  /** The elements of a set in some order, as `sorted` gives them. */
  method Listed(s: set<string>) returns (ts: seq<string>)
    ensures Distinct(ts) && Elements(ts) == s
  {
    ts := [];
    var rest := s;
    while rest != {}
      invariant Distinct(ts) && Elements(ts) == s - rest && rest <= s
      decreases |rest|
    {
      var t :| t in rest;
      assert t !in Elements(ts);
      assert Elements(ts + [t]) == Elements(ts) + {t};
      assert s - (rest - {t}) == s - rest + {t};
      ts, rest := ts + [t], rest - {t};
    }
  }

  /** The two counts over the first paths of the list. */
  ghost function CoveredIn(a: Report, b: Report, paths: seq<string>): nat
    requires forall p :: p in paths ==> p in a && p in b
  {
    if paths == [] then 0
    else
      var last := paths[|paths| - 1];
      CoveredIn(a, b, paths[..|paths| - 1]) + |TakenHere(a[last], b[last])|
  }

  ghost function TotalIn(a: Report, b: Report, paths: seq<string>): nat
    requires forall p :: p in paths ==> p in a && p in b
  {
    if paths == [] then 0
    else
      var last := paths[|paths| - 1];
      TotalIn(a, b, paths[..|paths| - 1]) + |a[last].Keys * b[last].Keys|
  }

  lemma {:induction false} CountsArePairs(a: Report, b: Report, paths: seq<string>)
    requires Distinct(paths) && forall p :: p in paths ==> p in a && p in b
    ensures TotalIn(a, b, paths) == |CommonIn(a, b, Elements(paths))|
    ensures CoveredIn(a, b, paths) == |TakenOf(a, CommonIn(a, b, Elements(paths)))|
  {
    if paths == [] {
      assert CommonIn(a, b, Elements(paths)) == {};
    } else {
      var front, last := paths[..|paths| - 1], paths[|paths| - 1];
      CountsArePairs(a, b, front);
      assert Elements(paths) == Elements(front) + {last};
      AddPathTotal(a, b, Elements(front), last);
      AddPathCovered(a, b, Elements(front), last);
    }
  }

  /** The counting loop; the order of the paths does not matter. */
  method CountFiles(currentKeys: map<string, seq<Branch>>, otherKeys: map<string, seq<Branch>>)
    returns (covered: nat, total: nat)
    ensures total == |Common(BranchMaps(currentKeys), BranchMaps(otherKeys))|
    ensures covered == |TakenOf(BranchMaps(currentKeys), Common(BranchMaps(currentKeys), BranchMaps(otherKeys)))|
  {
    ghost var a, b := BranchMaps(currentKeys), BranchMaps(otherKeys);
    covered, total := 0, 0;
    var paths := Listed(currentKeys.Keys * otherKeys.Keys);
    forall p | p in paths
      ensures p in currentKeys && p in otherKeys
    {
      assert p in Elements(paths);
    }
    assert a.Keys == currentKeys.Keys && b.Keys == otherKeys.Keys;
    for i := 0 to |paths|
      invariant total == TotalIn(a, b, paths[..i]) && covered == CoveredIn(a, b, paths[..i])
    {
      assert paths[..i + 1][..i] == paths[..i];
      var n, k := IntersectFile(currentKeys[paths[i]], otherKeys[paths[i]]);
      covered, total := covered + n, total + k;
    }
    assert paths[..|paths|] == paths;
    CountsArePairs(a, b, paths);
    assert Elements(paths) == a.Keys * b.Keys;
  }

  /** The branch counts of `parse_lodestar_intersection` */
  method Intersect(current: seq<FileReport>, other: seq<FileReport>, norm: Norm) returns (covered: nat, total: nat)
    ensures total == |Common(Known(current, norm), Known(other, norm))|
    ensures covered == |TakenOf(Known(current, norm), Common(Known(current, norm), Known(other, norm)))|
  {
    var currentKeys := BuildKeys(current, norm);
    var otherKeys := BuildKeys(other, norm);
    covered, total := CountFiles(currentKeys, otherKeys);
  }

  /** The branches compared are those both reports know, whichever report is the current one. */
  lemma ComparisonIsFair(a: Report, b: Report)
    ensures forall path, s :: (path, s) in Common(a, b) <==> Knows(a, path, s) && Knows(b, path, s)
    ensures Common(a, b) == Common(b, a)
    ensures |TakenOf(a, Common(a, b))| <= |Common(a, b)| && |TakenOf(b, Common(b, a))| <= |Common(a, b)|
  {
    assert Common(a, b) == Common(b, a);
    SubsetSize(TakenOf(a, Common(a, b)), Common(a, b));
    SubsetSize(TakenOf(b, Common(b, a)), Common(a, b));
  }

  lemma {:induction false} SubsetSize<T>(a: set<T>, b: set<T>)
    requires a <= b
    ensures |a| <= |b|
  {
    assert b == a + (b - a);
  }

  /**
   The two rows of `main`: the total branch delta it reports is always zero, and no row covers more than
   it counts.
   */
  method Compare(baseline: seq<FileReport>, variant: seq<FileReport>, norm: Norm)
    returns (baseCovered: nat, baseTotal: nat, varCovered: nat, varTotal: nat)
    ensures varTotal - baseTotal == 0
    ensures baseCovered <= baseTotal && varCovered <= varTotal
    ensures var common := Common(Known(baseline, norm), Known(variant, norm));
            varCovered - baseCovered ==
            |TakenOf(Known(variant, norm), common)| - |TakenOf(Known(baseline, norm), common)|
  {
    ComparisonIsFair(Known(baseline, norm), Known(variant, norm));
    ComparisonIsFair(Known(variant, norm), Known(baseline, norm));
    baseCovered, baseTotal := Intersect(baseline, variant, norm);
    varCovered, varTotal := Intersect(variant, baseline, norm);
  }
}
