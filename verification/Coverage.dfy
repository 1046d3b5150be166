/** Coverage counts, path scopes, and the scoped sum that every report parser computes. */
module Coverage {
  import opened PyString

  /** Primary coverage counts lines or statements, depending on the client. */
  datatype Totals = Totals(coveredPrimary: int, totalPrimary: int, coveredBranch: int, totalBranch: int) {
    function Add(other: Totals): Totals {
      Totals(coveredPrimary + other.coveredPrimary, totalPrimary + other.totalPrimary,
             coveredBranch + other.coveredBranch, totalBranch + other.totalBranch)
    }

    predicate AtMost(other: Totals) {
      && coveredPrimary <= other.coveredPrimary && totalPrimary <= other.totalPrimary
      && coveredBranch <= other.coveredBranch && totalBranch <= other.totalBranch
    }

    function Get(part: Part): int {
      match part
      case CoveredPrimary => coveredPrimary
      case TotalPrimary => totalPrimary
      case CoveredBranch => coveredBranch
      case TotalBranch => totalBranch
    }
  }

  datatype Part = CoveredPrimary | TotalPrimary | CoveredBranch | TotalBranch

  type Matcher = string -> bool

  /** One source file of a report with its own counts. */
  datatype Entry = Entry(path: string, totals: Totals)

  function Both(a: Matcher, b: Matcher): Matcher {
    p => a(p) && b(p)
  }

  /** One component, summed over the files in scope. */
  function Sum(entries: seq<Entry>, m: Matcher, part: Part): int {
    if entries == [] then 0
    else (if m(entries[0].path) then entries[0].totals.Get(part) else 0) + Sum(entries[1..], m, part)
  }

  /** The counts of the files in scope, summed component by component. */
  function Total(entries: seq<Entry>, m: Matcher): Totals {
    Totals(Sum(entries, m, CoveredPrimary), Sum(entries, m, TotalPrimary),
           Sum(entries, m, CoveredBranch), Sum(entries, m, TotalBranch))
  }

  lemma {:induction false} SumAppend(a: seq<Entry>, b: seq<Entry>, m: Matcher, part: Part)
    ensures Sum(a + b, m, part) == Sum(a, m, part) + Sum(b, m, part)
  {
    if a == [] {
      assert a + b == b;
    } else {
      assert (a + b)[1..] == a[1..] + b;
      SumAppend(a[1..], b, m, part);
    }
  }

  lemma TotalAppend(a: seq<Entry>, b: seq<Entry>, m: Matcher)
    ensures Total(a + b, m) == Total(a, m).Add(Total(b, m))
  {
    SumAppend(a, b, m, CoveredPrimary);
    SumAppend(a, b, m, TotalPrimary);
    SumAppend(a, b, m, CoveredBranch);
    SumAppend(a, b, m, TotalBranch);
  }

  /** Reading one more file. */
  lemma TotalSnoc(entries: seq<Entry>, e: Entry, m: Matcher)
    ensures Total(entries + [e], m) == if m(e.path) then Total(entries, m).Add(e.totals) else Total(entries, m)
  {
    forall part: Part
      ensures Sum(entries + [e], m, part) == Sum(entries, m, part) + if m(e.path) then e.totals.Get(part) else 0
    {
      SumAppend(entries, [e], m, part);
      assert [e][1..] == [];
    }
  }

  lemma {:induction false} SumCong(entries: seq<Entry>, a: Matcher, b: Matcher, part: Part)
    requires forall e :: e in entries ==> a(e.path) == b(e.path)
    ensures Sum(entries, a, part) == Sum(entries, b, part)
  {
    if entries != [] {
      assert entries[0] in entries;
      SumCong(entries[1..], a, b, part);
    }
  }

  /** Two scopes that select the same files of a report give the same totals. */
  lemma TotalCong(entries: seq<Entry>, a: Matcher, b: Matcher)
    requires forall e :: e in entries ==> a(e.path) == b(e.path)
    ensures Total(entries, a) == Total(entries, b)
  {
    SumCong(entries, a, b, CoveredPrimary);
    SumCong(entries, a, b, TotalPrimary);
    SumCong(entries, a, b, CoveredBranch);
    SumCong(entries, a, b, TotalBranch);
  }

  lemma {:induction false} SumOfDisjointScopes(entries: seq<Entry>, m: Matcher, a: Matcher, b: Matcher, part: Part)
    requires forall e :: e in entries ==> !(a(e.path) && b(e.path)) && m(e.path) == (a(e.path) || b(e.path))
    ensures Sum(entries, m, part) == Sum(entries, a, part) + Sum(entries, b, part)
  {
    if entries != [] {
      assert entries[0] in entries;
      SumOfDisjointScopes(entries[1..], m, a, b, part);
    }
  }

  /** Coverage is additive in scope: if every file in scope `m` is in exactly one of `a` and `b`, the totals add up. */
  lemma TotalOfDisjointScopes(entries: seq<Entry>, m: Matcher, a: Matcher, b: Matcher)
    requires forall e :: e in entries ==> !(a(e.path) && b(e.path)) && m(e.path) == (a(e.path) || b(e.path))
    ensures Total(entries, m) == Total(entries, a).Add(Total(entries, b))
  {
    SumOfDisjointScopes(entries, m, a, b, CoveredPrimary);
    SumOfDisjointScopes(entries, m, a, b, TotalPrimary);
    SumOfDisjointScopes(entries, m, a, b, CoveredBranch);
    SumOfDisjointScopes(entries, m, a, b, TotalBranch);
  }

  predicate NonNegative(entries: seq<Entry>) {
    forall e, part: Part :: e in entries ==> 0 <= e.totals.Get(part)
  }

  lemma {:induction false} SumOfNarrowerScope(entries: seq<Entry>, narrow: Matcher, wide: Matcher, part: Part)
    requires NonNegative(entries)
    requires forall e :: e in entries ==> narrow(e.path) ==> wide(e.path)
    ensures 0 <= Sum(entries, narrow, part) <= Sum(entries, wide, part)
  {
    if entries != [] {
      assert entries[0] in entries;
      SumOfNarrowerScope(entries[1..], narrow, wide, part);
    }
  }

  /** Coverage is monotone in scope. */
  lemma TotalOfNarrowerScope(entries: seq<Entry>, narrow: Matcher, wide: Matcher)
    requires NonNegative(entries)
    requires forall e :: e in entries ==> narrow(e.path) ==> wide(e.path)
    ensures Total(entries, narrow).AtMost(Total(entries, wide))
  {
    SumOfNarrowerScope(entries, narrow, wide, CoveredPrimary);
    SumOfNarrowerScope(entries, narrow, wide, TotalPrimary);
    SumOfNarrowerScope(entries, narrow, wide, CoveredBranch);
    SumOfNarrowerScope(entries, narrow, wide, TotalBranch);
  }

  /** The arguments of `make_matcher`; a regular expression is the predicate "has a match in". */
  datatype Patterns = Patterns(prefixes: seq<string>, exact: seq<string>, regexes: seq<Matcher>) {
    predicate Hit(path: string) {
      || (exists e | e in exact :: path == NormalizePath(e))
      || (exists p | p in prefixes :: NormalizePath(p) <= path)
      || (exists i | 0 <= i < |regexes| :: regexes[i](path))
    }

    function Extend(more: Patterns): Patterns {
      Patterns(prefixes + more.prefixes, exact + more.exact, regexes + more.regexes)
    }
  }

  function MakeMatcher(kept: Patterns, dropped: Patterns): Matcher {
    path => var norm := NormalizePath(path); kept.Hit(norm) && !dropped.Hit(norm)
  }

  lemma ExtendHits(a: Patterns, b: Patterns, path: string)
    ensures a.Extend(b).Hit(path) <==> a.Hit(path) || b.Hit(path)
  {
    if i :| 0 <= i < |b.regexes| && b.regexes[i](path) {
      assert a.Extend(b).regexes[|a.regexes| + i] == b.regexes[i];
    }
    if i :| 0 <= i < |a.regexes| && a.regexes[i](path) {
      assert a.Extend(b).regexes[i] == a.regexes[i];
    }
  }

  /** Adding exclusions never raises a count, and what is lost is exactly what they exclude. */
  lemma ExclusionsSplitTotals(entries: seq<Entry>, kept: Patterns, dropped: Patterns, more: Patterns)
    ensures var before := MakeMatcher(kept, dropped);
            var after := MakeMatcher(kept, dropped.Extend(more));
            var lost: Matcher := p => more.Hit(NormalizePath(p));
            Total(entries, before) == Total(entries, after).Add(Total(entries, Both(before, lost)))
    ensures NonNegative(entries) ==>
              Total(entries, MakeMatcher(kept, dropped.Extend(more))).AtMost(Total(entries, MakeMatcher(kept, dropped)))
  {
    var before := MakeMatcher(kept, dropped);
    var after := MakeMatcher(kept, dropped.Extend(more));
    var lost: Matcher := p => more.Hit(NormalizePath(p));
    forall e | e in entries
      ensures before(e.path) == (after(e.path) || Both(before, lost)(e.path))
      ensures !(after(e.path) && Both(before, lost)(e.path))
    {
      ExtendHits(dropped, more, NormalizePath(e.path));
    }
    TotalOfDisjointScopes(entries, before, after, Both(before, lost));
    if NonNegative(entries) {
      TotalOfNarrowerScope(entries, after, before);
    }
  }

  predicate NoBackslash(s: string) {
    '\\' !in s
  }

  lemma NormalPath(s: string)
    requires NoBackslash(s)
    ensures NormalizePath(s) == s
  {
  }

  /** One of these strings is where the path begins. */
  ghost predicate BeginsWithOne(path: string, prefixes: seq<string>) {
    exists p: string, rest: string :: p in prefixes && path == p + rest
  }

  lemma HitIff(patterns: Patterns, path: string)
    requires NoBackslash(path) && forall p | p in patterns.prefixes + patterns.exact :: NoBackslash(p)
    ensures patterns.Hit(path) <==>
              || path in patterns.exact
              || BeginsWithOne(path, patterns.prefixes)
              || exists r | r in patterns.regexes :: r(path)
  {
    forall p | p in patterns.prefixes + patterns.exact
      ensures NormalizePath(p) == p
    {
      NormalPath(p);
    }
    if p :| p in patterns.prefixes && NormalizePath(p) <= path {
      assert p in patterns.prefixes + patterns.exact && path == p + path[|p|..];
    }
    if BeginsWithOne(path, patterns.prefixes) {
      var p: string, rest: string :| p in patterns.prefixes && path == p + rest;
      assert p in patterns.prefixes + patterns.exact && NormalizePath(p) <= path;
    }
    if path in patterns.exact {
      assert path in patterns.prefixes + patterns.exact;
    }
    if e :| e in patterns.exact && path == NormalizePath(e) {
      assert e in patterns.prefixes + patterns.exact;
    }
    if r :| r in patterns.regexes && r(path) {
      var i :| 0 <= i < |patterns.regexes| && patterns.regexes[i] == r;
      assert patterns.regexes[i](path);
    }
  }

  /** A file is in scope exactly if an include pattern hits it and no exclude pattern does. */
  lemma InScopeIff(kept: Patterns, dropped: Patterns, path: string)
    requires NoBackslash(path)
    requires forall p | p in kept.prefixes + kept.exact + dropped.prefixes + dropped.exact :: NoBackslash(p)
    ensures MakeMatcher(kept, dropped)(path) <==>
              && (|| path in kept.exact
                  || BeginsWithOne(path, kept.prefixes)
                  || exists r | r in kept.regexes :: r(path))
              && path !in dropped.exact
              && !BeginsWithOne(path, dropped.prefixes)
              && forall r | r in dropped.regexes :: !r(path)
  {
    NormalPath(path);
    HitIff(kept, path);
    HitIff(dropped, path);
  }
}
