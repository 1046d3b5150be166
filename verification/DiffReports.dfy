/**
 What the reports of `diff_jsonable` say about the two values, and the order they come in, which decides what
 a limited difference shows.
 */
module DiffReports {
  import opened Wrappers
  import opened SszJson
  import opened JsonDiff

  /*********************************** What a report says ***********************************/

  /** The value at a path. */
  function Lookup(j: Json, p: Path): Option<Json>
    decreases |p|
  {
    if p == [] then Some(j)
    else match p[0]
      case Key(k) => if j.JObj? && k in j.fields then Lookup(j.fields[k], p[1..]) else None
      case Index(i) => if j.JArr? && i < |j.items| then Lookup(j.items[i], p[1..]) else None
  }

  predicate HasPath(r: Report) {
    r != [] && !r[0].ShowA? && !r[0].ShowB?
  }

  function PathOf(r: Report): Path {
    if HasPath(r) then r[0].path else []
  }

  /** The report is true of the values `x` and `y` found at its path, None for no value. */
  predicate TrueOf(r: Report, x: Option<Json>, y: Option<Json>)
    requires HasPath(r)
  {
    match r[0]
    case OnlyInA(_) => x.Some? && y.None? && |r| == 1
    case OnlyInB(_) => x.None? && y.Some? && |r| == 1
    case TypeDiffers(_, s, t) =>
      x.Some? && y.Some? && s == TypeOf(x.value) != TypeOf(y.value) == t && r[1..] == [ShowA(x.value), ShowB(y.value)]
    case ValueDiffers(_) =>
      && x.Some? && y.Some? && TypeOf(x.value) == TypeOf(y.value) && x != y
      && r[1..] == [ShowA(x.value), ShowB(y.value)]
    case LengthDiffers(_, m, n) =>
      x.Some? && y.Some? && x.value.JArr? && y.value.JArr? && m == |x.value.items| != |y.value.items| == n && |r| == 1
  }

  predicate Tells(r: Report, a: Json, b: Json, base: Path) {
    && HasPath(r) && base <= PathOf(r)
    && TrueOf(r, Lookup(a, PathOf(r)[|base|..]), Lookup(b, PathOf(r)[|base|..]))
  }

  lemma LookupBelow(j: Json, step: Step, base: Path, p: Path)
    requires base + [step] <= p
    ensures base <= p
    ensures Lookup(j, p[|base|..]) ==
            match step
            case Key(k) => if j.JObj? && k in j.fields then Lookup(j.fields[k], p[|base + [step]|..]) else None
            case Index(i) => if j.JArr? && i < |j.items| then Lookup(j.items[i], p[|base + [step]|..]) else None
  {
    var rest := p[|base|..];
    assert rest[0] == p[|base|] == step;
    assert rest[1..] == p[|base + [step]|..];
  }

  /** Every report is true of the values at its path. */
  lemma {:induction false} ReportsTell(a: Json, b: Json, base: Path)
    ensures forall r: Report :: r in Reports(a, b, base) ==> Tells(r, a, b, base)
    decreases a, 1
  {
    assert base[|base|..] == [];
    if TypeOf(a) == TypeOf(b) {
      if a.JObj? {
        KeyReportsTell(a, b, Sorted(a.fields.Keys + b.fields.Keys), base);
      } else if a.JArr? && |a.items| == |b.items| {
        ItemReportsTell(a, b, 0, base);
      }
    }
  }

  lemma {:induction false} KeyReportsTell(a: Json, b: Json, keys: seq<string>, base: Path)
    requires a.JObj? && b.JObj? && forall k | k in keys :: k in a.fields || k in b.fields
    ensures forall r: Report :: r in KeyReports(a, b, keys, base) ==> Tells(r, a, b, base)
    decreases a, 0, |keys|
  {
    if keys != [] {
      KeyReportTells(a, b, keys[0], base);
      KeyReportsTell(a, b, keys[1..], base);
    }
  }

  lemma {:induction false} KeyReportTells(a: Json, b: Json, key: string, base: Path)
    requires a.JObj? && b.JObj? && (key in a.fields || key in b.fields)
    ensures forall r: Report :: r in KeyReport(a, b, key, base) ==>
              Tells(r, a, b, base) && base + [Key(key)] <= PathOf(r)
    decreases a, 0, 0
  {
    var below := base + [Key(key)];
    LookupBelow(a, Key(key), base, below);
    LookupBelow(b, Key(key), base, below);
    assert below[|below|..] == [];
    if key in a.fields && key in b.fields {
      ReportsTell(a.fields[key], b.fields[key], below);
      forall r: Report | r in Reports(a.fields[key], b.fields[key], below)
        ensures Tells(r, a, b, base)
      {
        LookupBelow(a, Key(key), base, PathOf(r));
        LookupBelow(b, Key(key), base, PathOf(r));
      }
    }
  }

  lemma {:induction false} ItemReportsTell(a: Json, b: Json, i: nat, base: Path)
    requires a.JArr? && b.JArr? && |a.items| == |b.items| && i <= |a.items|
    ensures forall r: Report :: r in ItemReports(a, b, i, base) ==> Tells(r, a, b, base)
    decreases a, 0, |a.items| - i
  {
    if i < |a.items| {
      ItemReportTells(a, b, i, base);
      ItemReportsTell(a, b, i + 1, base);
    }
  }

  lemma {:induction false} ItemReportTells(a: Json, b: Json, i: nat, base: Path)
    requires a.JArr? && b.JArr? && |a.items| == |b.items| && i < |a.items|
    ensures forall r: Report :: r in ItemReport(a, b, i, base) ==>
              Tells(r, a, b, base) && base + [Index(i)] <= PathOf(r)
    decreases a, 0, 0
  {
    var below := base + [Index(i)];
    if !PyEq(a.items[i], b.items[i]) {
      ReportsTell(a.items[i], b.items[i], below);
      forall r: Report | r in Reports(a.items[i], b.items[i], below)
        ensures Tells(r, a, b, base)
      {
        LookupBelow(a, Index(i), base, PathOf(r));
        LookupBelow(b, Index(i), base, PathOf(r));
      }
    }
  }

  /*********************************** The order of reports ***********************************/

  /** The first `i` elements agree, and one of the two sequences differs from the other at `i`. */
  predicate AgreeUpTo<T(==)>(p: seq<T>, q: seq<T>, i: nat) {
    i <= |p| && i <= |q| && p[..i] == q[..i]
  }

  /** `a < b` on Python strings: by the first character that differs, a proper prefix first. */
  ghost predicate Before(a: string, b: string) {
    exists i: nat :: AgreeUpTo(a, b, i) && i < |b| && (i == |a| || a[i] < b[i])
  }

  lemma {:induction false} LeIsBefore(a: string, b: string)
    requires Le(a, b) && a != b
    ensures Before(a, b)
  {
    if a == "" {
      assert AgreeUpTo(a, b, 0);
    } else if a[0] < b[0] {
      assert AgreeUpTo(a, b, 0);
    } else {
      assert a == [a[0]] + a[1..] && b == [b[0]] + b[1..];
      LeIsBefore(a[1..], b[1..]);
      var i: nat :| AgreeUpTo(a[1..], b[1..], i) && i < |b[1..]| && (i == |a[1..]| || a[1..][i] < b[1..][i]);
      assert a[..i + 1] == [a[0]] + a[1..][..i] && b[..i + 1] == [b[0]] + b[1..][..i];
      assert AgreeUpTo(a, b, i + 1);
    }
  }

  /** `sorted` gives the keys in ascending order, each once. */
  lemma {:induction false} SortedAscends(s: set<string>)
    ensures |Sorted(s)| == |s|
    ensures forall i, j :: 0 <= i < j < |s| ==> Before(Sorted(s)[i], Sorted(s)[j])
  {
    if s != {} {
      var keys := Sorted(s);
      var m, rest := keys[0], keys[1..];
      LeastExists(s);
      var least :| IsLeast(least, s);
      assert m in s && rest == Sorted(s - {m}) && IsLeast(m, s) by {
        SortedHead(s);
      }
      SortedAscends(s - {m});
      forall i, j | 0 <= i < j < |s|
        ensures Before(keys[i], keys[j])
      {
        assert keys[j] == rest[j - 1] && keys[j] in rest;
        if i == 0 {
          LeIsBefore(m, keys[j]);
        } else {
          assert keys[i] == rest[i - 1];
        }
      }
    }
  }

  lemma SortedHead(s: set<string>)
    requires s != {}
    ensures var m := Sorted(s)[0]; IsLeast(m, s) && Sorted(s)[1..] == Sorted(s - {m})
  {
  }

  ghost predicate StepBefore(s: Step, t: Step) {
    match (s, t)
    case (Key(a), Key(b)) => Before(a, b)
    case (Index(i), Index(j)) => i < j
    case _ => false
  }

  /** The paths part at some step, and the first goes on with the smaller key or index. */
  ghost predicate PathBefore(p: Path, q: Path) {
    exists i: nat :: AgreeUpTo(p, q, i) && i < |p| && i < |q| && StepBefore(p[i], q[i])
  }

  ghost predicate InOrder(reports: seq<Report>) {
    && (forall r: Report :: r in reports ==> HasPath(r))
    && forall i, j :: 0 <= i < j < |reports| ==> PathBefore(PathOf(reports[i]), PathOf(reports[j]))
  }

  lemma OrderedAppend(a: seq<Report>, b: seq<Report>)
    requires InOrder(a) && InOrder(b)
    requires forall r: Report, s: Report :: r in a && s in b ==> PathBefore(PathOf(r), PathOf(s))
    ensures InOrder(a + b)
  {
  }

  lemma PartAt(p: Path, q: Path, base: Path, s: Step, t: Step)
    requires base + [s] <= p && base + [t] <= q && StepBefore(s, t)
    ensures PathBefore(p, q)
  {
    assert p[..|base|] == base == q[..|base|];
    assert AgreeUpTo(p, q, |base|) && p[|base|] == s && q[|base|] == t;
  }

  /** The reports come in the order of their paths: keys in ascending order, list elements by index. */
  lemma {:induction false} ReportsInOrder(a: Json, b: Json, base: Path)
    ensures InOrder(Reports(a, b, base))
    decreases a, 1
  {
    if TypeOf(a) == TypeOf(b) {
      if a.JObj? {
        var keys := Sorted(a.fields.Keys + b.fields.Keys);
        SortedAscends(a.fields.Keys + b.fields.Keys);
        KeyReportsInOrder(a, b, keys, base);
      } else if a.JArr? && |a.items| == |b.items| {
        ItemReportsInOrder(a, b, 0, base);
      }
    }
  }

  /** Every report is about something below one of these keys. */
  ghost predicate BelowKeys(reports: seq<Report>, base: Path, keys: seq<string>) {
    forall r: Report :: r in reports ==> HasPath(r) && exists k | k in keys :: base + [Key(k)] <= PathOf(r)
  }

  lemma {:induction false} KeyReportsInOrder(a: Json, b: Json, keys: seq<string>, base: Path)
    requires a.JObj? && b.JObj? && forall k | k in keys :: k in a.fields || k in b.fields
    requires forall i, j :: 0 <= i < j < |keys| ==> Before(keys[i], keys[j])
    ensures InOrder(KeyReports(a, b, keys, base)) && BelowKeys(KeyReports(a, b, keys, base), base, keys)
    decreases a, 0, |keys|
  {
    if keys != [] {
      var key, first, later := keys[0], KeyReport(a, b, keys[0], base), KeyReports(a, b, keys[1..], base);
      KeyReportsInOrder(a, b, keys[1..], base);
      KeyReportTells(a, b, key, base);
      if key in a.fields && key in b.fields {
        ReportsInOrder(a.fields[key], b.fields[key], base + [Key(key)]);
      }
      forall r: Report, s: Report | r in first && s in later
        ensures PathBefore(PathOf(r), PathOf(s))
      {
        var k :| k in keys[1..] && base + [Key(k)] <= PathOf(s);
        var j :| 0 <= j < |keys[1..]| && keys[1..][j] == k;
        assert Before(keys[0], keys[j + 1]);
        PartAt(PathOf(r), PathOf(s), base, Key(key), Key(k));
      }
      OrderedAppend(first, later);
      assert forall k :: k in keys[1..] ==> k in keys;
    }
  }

  ghost predicate BelowItems(reports: seq<Report>, base: Path, i: nat) {
    forall r: Report :: r in reports ==> HasPath(r) && exists k: nat :: i <= k && base + [Index(k)] <= PathOf(r)
  }

  lemma LaterItems(first: seq<Report>, later: seq<Report>, base: Path, i: nat)
    requires forall r: Report :: r in first ==> base + [Index(i)] <= PathOf(r)
    requires BelowItems(later, base, i + 1)
    ensures forall r: Report, s: Report :: r in first && s in later ==> PathBefore(PathOf(r), PathOf(s))
  {
    forall r: Report, s: Report | r in first && s in later
      ensures PathBefore(PathOf(r), PathOf(s))
    {
      var k: nat :| i + 1 <= k && base + [Index(k)] <= PathOf(s);
      PartAt(PathOf(r), PathOf(s), base, Index(i), Index(k));
    }
  }

  lemma {:induction false} ItemReportsInOrder(a: Json, b: Json, i: nat, base: Path)
    requires a.JArr? && b.JArr? && |a.items| == |b.items| && i <= |a.items|
    ensures InOrder(ItemReports(a, b, i, base)) && BelowItems(ItemReports(a, b, i, base), base, i)
    decreases a, 0, |a.items| - i
  {
    if i < |a.items| {
      var first, later := ItemReport(a, b, i, base), ItemReports(a, b, i + 1, base);
      ItemReportsInOrder(a, b, i + 1, base);
      ItemReportTells(a, b, i, base);
      if !PyEq(a.items[i], b.items[i]) {
        ReportsInOrder(a.items[i], b.items[i], base + [Index(i)]);
      }
      LaterItems(first, later, base, i);
      OrderedAppend(first, later);
    }
  }
}
