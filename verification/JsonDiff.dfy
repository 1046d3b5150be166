/**
 `diff_jsonable`: the structural difference of two JSON values, appended to a shared list of lines
 until a budget is reached.

 A path is kept as its steps; the text of a line is kept as the facts it shows.
 */
module JsonDiff {
  import opened Wrappers
  import opened SszJson

  /************************************* Order of keys *************************************/

  /** The order of `sorted` on strings. */
  predicate Le(a: string, b: string) {
    a == "" || (b != "" && (a[0] < b[0] || (a[0] == b[0] && Le(a[1..], b[1..]))))
  }

  lemma {:induction false} LeTotal(a: string, b: string)
    ensures Le(a, b) || Le(b, a)
    ensures Le(a, b) && Le(b, a) ==> a == b
  {
    if a != "" && b != "" {
      LeTotal(a[1..], b[1..]);
      if a[0] == b[0] && a[1..] == b[1..] {
        assert a == [a[0]] + a[1..] && b == [b[0]] + b[1..];
      }
    }
  }

  lemma {:induction false} LeTransitive(a: string, b: string, c: string)
    requires Le(a, b) && Le(b, c)
    ensures Le(a, c)
  {
    if a != "" && a[0] == b[0] && b[0] == c[0] {
      LeTransitive(a[1..], b[1..], c[1..]);
    }
  }

  predicate IsLeast(m: string, s: set<string>) {
    m in s && forall x :: x in s ==> Le(m, x)
  }

  lemma {:induction false} LeastExists(s: set<string>)
    requires s != {}
    ensures exists m :: IsLeast(m, s)
  {
    var x :| x in s;
    LeTotal(x, x);
    if s - {x} == {} {
      assert s == {x};
      assert IsLeast(x, s);
    } else {
      LeastExists(s - {x});
      var m :| IsLeast(m, s - {x});
      LeTotal(m, x);
      if Le(m, x) {
        assert IsLeast(m, s);
      } else {
        forall y | y in s
          ensures Le(x, y)
        {
          if y != x {
            LeTransitive(x, m, y);
          }
        }
        assert IsLeast(x, s);
      }
    }
  }

  lemma LeastUnique(m: string, n: string, s: set<string>)
    requires IsLeast(m, s) && IsLeast(n, s)
    ensures m == n
  {
    LeTotal(m, n);
  }

  /** `sorted(s)` */
  function Sorted(s: set<string>): (keys: seq<string>)
    ensures forall k :: k in keys <==> k in s
  {
    if s == {} then []
    else
      LeastExists(s);
      assert forall m, n :: IsLeast(m, s) && IsLeast(n, s) ==> m == n by {
        forall m, n | IsLeast(m, s) && IsLeast(n, s) { LeastUnique(m, n, s); }
      }
      var m :| IsLeast(m, s);
      [m] + Sorted(s - {m})
  }

  /************************************ Python equality ************************************/

  /** Booleans are numbers: True is 1 and False is 0. */
  function Number(j: Json): Option<int> {
    match j
    case JInt(n) => Some(n)
    case JBool(b) => Some(if b then 1 else 0)
    case _ => None
  }

  /** `a == b` in Python. */
  predicate PyEq(a: Json, b: Json)
    decreases a, 0
  {
    if a.JArr? && b.JArr? then AllPyEq(a.items, b.items)
    else if a.JObj? && b.JObj? then
      a.fields.Keys == b.fields.Keys && forall k | k in a.fields :: PyEq(a.fields[k], b.fields[k])
    else if Number(a).Some? && Number(b).Some? then Number(a) == Number(b)
    else a == b
  }

  predicate AllPyEq(x: seq<Json>, y: seq<Json>)
    decreases x, 0
  {
    |x| == |y| && forall i | 0 <= i < |x| :: PyEq(x[i], y[i])
  }

  /*************************************** Reports ***************************************/

  datatype Step = Key(key: string) | Index(i: nat)
  type Path = seq<Step>

  datatype Type = NoneType | Bool | Int | Float | Str | List | Dict

  function TypeOf(j: Json): Type {
    match j
    case JNull => NoneType
    case JBool(_) => Bool
    case JInt(_) => Int
    case JFloat(_) => Float
    case JStr(_) => Str
    case JArr(_) => List
    case JObj(_) => Dict
  }

  datatype Line =
    | TypeDiffers(path: Path, a: Type, b: Type)
    | OnlyInA(path: Path)
    | OnlyInB(path: Path)
    | LengthDiffers(path: Path, lenA: nat, lenB: nat)
    | ValueDiffers(path: Path)
    | ShowA(value: Json)
    | ShowB(value: Json)

  /** One difference: the lines that are appended together, with the path in the first. */
  type Report = seq<Line>

  /** All differences, in the order of the traversal. */
  function Reports(a: Json, b: Json, path: Path): seq<Report>
    decreases a, 1
  {
    if TypeOf(a) != TypeOf(b) then [[TypeDiffers(path, TypeOf(a), TypeOf(b)), ShowA(a), ShowB(b)]]
    else if a.JObj? then KeyReports(a, b, Sorted(a.fields.Keys + b.fields.Keys), path)
    else if a.JArr? then
      if |a.items| != |b.items| then [[LengthDiffers(path, |a.items|, |b.items|)]]
      else ItemReports(a, b, 0, path)
    else if a != b then [[ValueDiffers(path), ShowA(a), ShowB(b)]]
    else []
  }

  function KeyReport(a: Json, b: Json, key: string, path: Path): seq<Report>
    requires a.JObj? && b.JObj? && (key in a.fields || key in b.fields)
    decreases a, 0, 0
  {
    if key !in a.fields then [[OnlyInB(path + [Key(key)])]]
    else if key !in b.fields then [[OnlyInA(path + [Key(key)])]]
    else Reports(a.fields[key], b.fields[key], path + [Key(key)])
  }

  function KeyReports(a: Json, b: Json, keys: seq<string>, path: Path): seq<Report>
    requires a.JObj? && b.JObj? && forall k | k in keys :: k in a.fields || k in b.fields
    decreases a, 0, |keys| + 1
  {
    if keys == [] then [] else KeyReport(a, b, keys[0], path) + KeyReports(a, b, keys[1..], path)
  }

  function ItemReport(a: Json, b: Json, i: nat, path: Path): seq<Report>
    requires a.JArr? && b.JArr? && |a.items| == |b.items| && i < |a.items|
    decreases a, 0, 0
  {
    if PyEq(a.items[i], b.items[i]) then [] else Reports(a.items[i], b.items[i], path + [Index(i)])
  }

  /** The differences of the list elements from index `i` on. */
  function ItemReports(a: Json, b: Json, i: nat, path: Path): seq<Report>
    requires a.JArr? && b.JArr? && |a.items| == |b.items| && i <= |a.items|
    decreases a, 0, |a.items| - i + 1
  {
    if i == |a.items| then [] else ItemReport(a, b, i, path) + ItemReports(a, b, i + 1, path)
  }

  /*********************************** The output budget ***********************************/

  /** `_diff_limit_reached` */
  predicate LimitReached(out: seq<Line>, maxReports: int) {
    maxReports > 0 && |out| >= maxReports
  }

  /** The lines after appending reports one by one for as long as the limit is not reached. */
  function Limited(out: seq<Line>, reports: seq<Report>, maxReports: int): seq<Line>
    decreases |reports|
  {
    if reports == [] || LimitReached(out, maxReports) then out
    else Limited(out + reports[0], reports[1..], maxReports)
  }

  lemma {:induction false} LimitedAppend(out: seq<Line>, a: seq<Report>, b: seq<Report>, maxReports: int)
    ensures Limited(out, a + b, maxReports) == Limited(Limited(out, a, maxReports), b, maxReports)
    decreases |a|
  {
    if a == [] {
      assert a + b == b;
    } else if !LimitReached(out, maxReports) {
      assert (a + b)[1..] == a[1..] + b;
      LimitedAppend(out + a[0], a[1..], b, maxReports);
    }
  }

  /** The list of lines that all recursive calls of `diff_jsonable` append to. */
  class DiffLog {
    var out: seq<Line>

    constructor ()
      ensures out == []
    {
      out := [];
    }

    /** `diff_jsonable` */
    method DiffJsonable(a: Json, b: Json, path: Path, maxReports: int)
      modifies this
      ensures out == Limited(old(out), Reports(a, b, path), maxReports)
      decreases a, 1
    {
      if LimitReached(out, maxReports) {
        return;
      }
      if TypeOf(a) != TypeOf(b) {
        out := out + [TypeDiffers(path, TypeOf(a), TypeOf(b))];
        out := out + [ShowA(a)];
        out := out + [ShowB(b)];
        assert out == old(out) + [TypeDiffers(path, TypeOf(a), TypeOf(b)), ShowA(a), ShowB(b)];
        return;
      }
      if a.JObj? {
        DiffKeys(a, b, path, maxReports);
        return;
      }
      if a.JArr? {
        if |a.items| != |b.items| {
          out := out + [LengthDiffers(path, |a.items|, |b.items|)];
          return;
        }
        DiffItems(a, b, path, maxReports);
        return;
      }
      if a != b {
        out := out + [ValueDiffers(path)];
        out := out + [ShowA(a)];
        out := out + [ShowB(b)];
        assert out == old(out) + [ValueDiffers(path), ShowA(a), ShowB(b)];
      }
    }

    method DiffKeys(a: Json, b: Json, path: Path, maxReports: int)
      requires a.JObj? && b.JObj?
      modifies this
      ensures out == Limited(old(out), KeyReports(a, b, Sorted(a.fields.Keys + b.fields.Keys), path), maxReports)
      decreases a, 0
    {
      var keys := Sorted(a.fields.Keys + b.fields.Keys);
      assert keys[0..] == keys;
      for i := 0 to |keys|
        invariant forall k | k in keys[i..] :: k in a.fields || k in b.fields
        invariant Limited(out, KeyReports(a, b, keys[i..], path), maxReports)
                  == Limited(old(out), KeyReports(a, b, keys, path), maxReports)
      {
        if LimitReached(out, maxReports) {
          return;
        }
        var key := keys[i];
        assert keys[i..] == [key] + keys[i + 1..];
        assert keys[i..][0] == key && keys[i..][1..] == keys[i + 1..];
        LimitedAppend(out, KeyReport(a, b, key, path), KeyReports(a, b, keys[i + 1..], path), maxReports);
        var currentPath := path + [Key(key)];
        if key !in a.fields {
          out := out + [OnlyInB(currentPath)];
        } else if key !in b.fields {
          out := out + [OnlyInA(currentPath)];
        } else {
          DiffJsonable(a.fields[key], b.fields[key], currentPath, maxReports);
        }
      }
    }

    method DiffItems(a: Json, b: Json, path: Path, maxReports: int)
      requires a.JArr? && b.JArr? && |a.items| == |b.items|
      modifies this
      ensures out == Limited(old(out), ItemReports(a, b, 0, path), maxReports)
      decreases a, 0
    {
      for i := 0 to |a.items|
        invariant Limited(out, ItemReports(a, b, i, path), maxReports)
                  == Limited(old(out), ItemReports(a, b, 0, path), maxReports)
      {
        if LimitReached(out, maxReports) {
          return;
        }
        LimitedAppend(out, ItemReport(a, b, i, path), ItemReports(a, b, i + 1, path), maxReports);
        if !PyEq(a.items[i], b.items[i]) {
          DiffJsonable(a.items[i], b.items[i], path + [Index(i)], maxReports);
        }
      }
    }
  }

  /******************************* The limited run is a prefix *******************************/

  function Lines(reports: seq<Report>): seq<Line> {
    if reports == [] then [] else reports[0] + Lines(reports[1..])
  }

  predicate Sized(reports: seq<Report>) {
    forall r | r in reports :: |r| == 1 || |r| == 3
  }

  lemma {:induction false} ReportsSized(a: Json, b: Json, path: Path)
    ensures Sized(Reports(a, b, path))
    decreases a, 1
  {
    if TypeOf(a) == TypeOf(b) {
      if a.JObj? {
        KeyReportsSized(a, b, Sorted(a.fields.Keys + b.fields.Keys), path);
      } else if a.JArr? && |a.items| == |b.items| {
        ItemReportsSized(a, b, 0, path);
      }
    }
  }

  lemma {:induction false} KeyReportsSized(a: Json, b: Json, keys: seq<string>, path: Path)
    requires a.JObj? && b.JObj? && forall k | k in keys :: k in a.fields || k in b.fields
    ensures Sized(KeyReports(a, b, keys, path))
    decreases a, 0, |keys|
  {
    if keys != [] {
      var key := keys[0];
      if key in a.fields && key in b.fields {
        ReportsSized(a.fields[key], b.fields[key], path + [Key(key)]);
      }
      KeyReportsSized(a, b, keys[1..], path);
    }
  }

  lemma {:induction false} ItemReportsSized(a: Json, b: Json, i: nat, path: Path)
    requires a.JArr? && b.JArr? && |a.items| == |b.items| && i <= |a.items|
    ensures Sized(ItemReports(a, b, i, path))
    decreases a, 0, |a.items| - i
  {
    if i < |a.items| {
      ReportsSized(a.items[i], b.items[i], path + [Index(i)]);
      ItemReportsSized(a, b, i + 1, path);
    }
  }

  lemma {:induction false} LimitedIsPrefix(out: seq<Line>, reports: seq<Report>, maxReports: int)
    requires Sized(reports) && !LimitReached(out, maxReports)
    ensures var limited, all := Limited(out, reports, maxReports), out + Lines(reports);
            && limited <= all
            && (maxReports <= 0 || |all| < maxReports ==> limited == all)
            && (0 < maxReports <= |all| ==> maxReports <= |limited| <= maxReports + 2)
    decreases |reports|
  {
    if reports != [] {
      var out' := out + reports[0];
      assert out + Lines(reports) == out' + Lines(reports[1..]);
      assert reports[0] in reports;
      if !LimitReached(out', maxReports) {
        LimitedIsPrefix(out', reports[1..], maxReports);
      }
    } else {
      assert out + Lines(reports) == out;
    }
  }

  /**
   The limited difference is a prefix of the unlimited one: all of it when that is shorter than the
   limit, otherwise it stops at the first report that reaches the limit, at most two lines past it.
   */
  lemma LimitedDiff(a: Json, b: Json, path: Path, maxReports: int)
    ensures var all, limited := Lines(Reports(a, b, path)), Limited([], Reports(a, b, path), maxReports);
            && limited <= all && Limited([], Reports(a, b, path), 0) == all
            && (maxReports <= 0 || |all| < maxReports ==> limited == all)
            && (0 < maxReports <= |all| ==> maxReports <= |limited| <= maxReports + 2)
  {
    ReportsSized(a, b, path);
    LimitedIsPrefix([], Reports(a, b, path), maxReports);
    LimitedIsPrefix([], Reports(a, b, path), 0);
  }

  /************************************ What is reported ************************************/

  /** The values differ in themselves: in type, as scalars, or in list length. */
  predicate DiffersHere(a: Json, b: Json) {
    || TypeOf(a) != TypeOf(b)
    || (a.JArr? && |a.items| != |b.items|)
    || (!a.JArr? && !a.JObj? && a != b)
  }

  /** The difference at `p` is minimal: the values agree in type and length on the way, and differ there. */
  predicate Differs(a: Json, b: Json, p: Path)
    decreases |p|
  {
    if p == [] then DiffersHere(a, b)
    else match p[0]
      case Key(k) =>
        a.JObj? && b.JObj?
        && (if k in a.fields && k in b.fields then Differs(a.fields[k], b.fields[k], p[1..])
            else p == [Key(k)] && (k in a.fields || k in b.fields))
      case Index(i) =>
        a.JArr? && b.JArr? && |a.items| == |b.items| && i < |a.items| && Differs(a.items[i], b.items[i], p[1..])
  }

  /** No list element on the way to `p` is skipped as equal. */
  predicate Reached(a: Json, b: Json, p: Path)
    decreases |p|
  {
    if p == [] then true
    else match p[0]
      case Key(k) =>
        a.JObj? && b.JObj? && k in a.fields && k in b.fields ==> Reached(a.fields[k], b.fields[k], p[1..])
      case Index(i) =>
        a.JArr? && b.JArr? && i < |a.items| && i < |b.items| ==>
          !PyEq(a.items[i], b.items[i]) && Reached(a.items[i], b.items[i], p[1..])
  }

  predicate About(r: Report, p: Path) {
    r != [] && !r[0].ShowA? && !r[0].ShowB? && r[0].path == p
  }

  ghost predicate Reported(reports: seq<Report>, p: Path) {
    exists r :: r in reports && About(r, p)
  }

  lemma ReportedAppend(a: seq<Report>, b: seq<Report>, p: Path)
    ensures Reported(a + b, p) <==> Reported(a, p) || Reported(b, p)
  {
    if r :| r in a && About(r, p) {
      assert r in a + b;
    }
    if r :| r in b && About(r, p) {
      assert r in a + b;
    }
  }

  lemma ReportedOne(r: Report, p: Path)
    ensures Reported([r], p) <==> About(r, p)
  {
    assert r in [r];
  }

  predicate Seen(a: Json, b: Json, p: Path) {
    Differs(a, b, p) && Reached(a, b, p)
  }

  /** `p` continues `base`, with a difference below it that the traversal gets to see. */
  predicate SeenBelow(a: Json, b: Json, base: Path, p: Path) {
    base <= p && Seen(a, b, p[|base|..])
  }

  /** The reported paths are exactly the minimal differences that are not below a skipped list element. */
  lemma {:induction false} ReportedIff(a: Json, b: Json, base: Path, p: Path)
    ensures Reported(Reports(a, b, base), p) <==> SeenBelow(a, b, base, p)
    decreases a, 1
  {
    if TypeOf(a) != TypeOf(b) {
      HereIff(a, b, [TypeDiffers(base, TypeOf(a), TypeOf(b)), ShowA(a), ShowB(b)], base, p);
    } else if a.JObj? {
      var keys := Sorted(a.fields.Keys + b.fields.Keys);
      KeysReportedIff(a, b, keys, base, p);
    } else if a.JArr? {
      if |a.items| != |b.items| {
        HereIff(a, b, [LengthDiffers(base, |a.items|, |b.items|)], base, p);
      } else {
        ItemsReportedIff(a, b, 0, base, p);
      }
    } else if a != b {
      HereIff(a, b, [ValueDiffers(base), ShowA(a), ShowB(b)], base, p);
    }
  }

  /** A difference here hides everything below. */
  lemma HereIff(a: Json, b: Json, r: Report, base: Path, p: Path)
    requires DiffersHere(a, b) && About(r, base)
    ensures Reported([r], p) <==> SeenBelow(a, b, base, p)
  {
    ReportedOne(r, p);
    if p == base {
      assert p[|base|..] == [];
    }
  }

  lemma {:induction false} KeysReportedIff(a: Json, b: Json, keys: seq<string>, base: Path, p: Path)
    requires a.JObj? && b.JObj? && forall k | k in keys :: k in a.fields || k in b.fields
    ensures Reported(KeyReports(a, b, keys, base), p) <==>
            SeenBelow(a, b, base, p) && |p| > |base| && p[|base|].Key? && p[|base|].key in keys
    decreases a, 0, |keys|
  {
    if keys != [] {
      var key := keys[0];
      ReportedAppend(KeyReport(a, b, key, base), KeyReports(a, b, keys[1..], base), p);
      KeysReportedIff(a, b, keys[1..], base, p);
      KeyReportedIff(a, b, key, base, p);
    }
  }

  lemma {:induction false} KeyReportedIff(a: Json, b: Json, key: string, base: Path, p: Path)
    requires a.JObj? && b.JObj? && (key in a.fields || key in b.fields)
    ensures Reported(KeyReport(a, b, key, base), p) <==>
            SeenBelow(a, b, base, p) && |p| > |base| && p[|base|] == Key(key)
    decreases a, 0, 0
  {
    var below := base + [Key(key)];
    if base <= p && |p| > |base| {
      assert p[|base|..][0] == p[|base|] && p[|base|..][1..] == p[|base| + 1..];
    }
    assert below <= p <==> base <= p && |p| > |base| && p[|base|] == Key(key);
    if key !in a.fields {
      ReportedOne([OnlyInB(below)], p);
      assert below <= p ==> (p[|base|..] == [Key(key)] <==> p == below);
    } else if key !in b.fields {
      ReportedOne([OnlyInA(below)], p);
      assert below <= p ==> (p[|base|..] == [Key(key)] <==> p == below);
    } else {
      ReportedIff(a.fields[key], b.fields[key], below, p);
    }
  }

  lemma {:induction false} ItemsReportedIff(a: Json, b: Json, i: nat, base: Path, p: Path)
    requires a.JArr? && b.JArr? && |a.items| == |b.items| && i <= |a.items|
    ensures Reported(ItemReports(a, b, i, base), p) <==>
            SeenBelow(a, b, base, p) && |p| > |base| && p[|base|].Index? && i <= p[|base|].i < |a.items|
    decreases a, 0, |a.items| - i
  {
    if i < |a.items| {
      ReportedAppend(ItemReport(a, b, i, base), ItemReports(a, b, i + 1, base), p);
      ItemsReportedIff(a, b, i + 1, base, p);
      ItemReportedIff(a, b, i, base, p);
    }
  }

  lemma {:induction false} ItemReportedIff(a: Json, b: Json, i: nat, base: Path, p: Path)
    requires a.JArr? && b.JArr? && |a.items| == |b.items| && i < |a.items|
    ensures Reported(ItemReport(a, b, i, base), p) <==>
            SeenBelow(a, b, base, p) && |p| > |base| && p[|base|] == Index(i)
    decreases a, 0, 0
  {
    var below := base + [Index(i)];
    if base <= p && |p| > |base| {
      assert p[|base|..][0] == p[|base|] && p[|base|..][1..] == p[|base| + 1..];
    }
    assert below <= p <==> base <= p && |p| > |base| && p[|base|] == Index(i);
    if !PyEq(a.items[i], b.items[i]) {
      ReportedIff(a.items[i], b.items[i], below, p);
    }
  }

  /********************************** When nothing is reported **********************************/

  /** Equal but for numbers and booleans that Python equates inside lists. */
  predicate Indistinct(a: Json, b: Json)
    decreases a, 0
  {
    TypeOf(a) == TypeOf(b)
    && if a.JObj? then
         a.fields.Keys == b.fields.Keys && forall k | k in a.fields :: Indistinct(a.fields[k], b.fields[k])
       else if a.JArr? then PyEq(a, b)
       else a == b
  }

  lemma {:induction false} IndistinctIsPyEq(a: Json, b: Json)
    requires Indistinct(a, b)
    ensures PyEq(a, b)
    decreases a
  {
    if a.JObj? {
      forall k | k in a.fields
        ensures PyEq(a.fields[k], b.fields[k])
      {
        IndistinctIsPyEq(a.fields[k], b.fields[k]);
      }
    }
  }

  /** The difference is empty exactly for values that are equal up to Python's equality of list elements. */
  lemma {:induction false} NoReportIff(a: Json, b: Json, path: Path)
    ensures Reports(a, b, path) == [] <==> Indistinct(a, b)
    decreases a, 1
  {
    if TypeOf(a) == TypeOf(b) {
      if a.JObj? {
        var keys := Sorted(a.fields.Keys + b.fields.Keys);
        NoKeyReportIff(a, b, keys, path);
        assert forall k :: k in a.fields || k in b.fields ==> k in keys;
      } else if a.JArr? && |a.items| == |b.items| {
        NoItemReportIff(a, b, 0, path);
        assert PyEq(a, b) == AllPyEq(a.items, b.items);
      } else if a.JArr? {
        assert !AllPyEq(a.items, b.items);
      }
    }
  }

  lemma {:induction false} NoKeyReportIff(a: Json, b: Json, keys: seq<string>, path: Path)
    requires a.JObj? && b.JObj? && forall k | k in keys :: k in a.fields || k in b.fields
    ensures KeyReports(a, b, keys, path) == [] <==>
            forall k | k in keys :: k in a.fields && k in b.fields && Indistinct(a.fields[k], b.fields[k])
    decreases a, 0, |keys|
  {
    if keys != [] {
      var key := keys[0];
      if key in a.fields && key in b.fields {
        NoReportIff(a.fields[key], b.fields[key], path + [Key(key)]);
      }
      NoKeyReportIff(a, b, keys[1..], path);
      assert forall k :: k in keys <==> k == key || k in keys[1..];
    }
  }

  lemma {:induction false} NoItemReportIff(a: Json, b: Json, i: nat, path: Path)
    requires a.JArr? && b.JArr? && |a.items| == |b.items| && i <= |a.items|
    ensures ItemReports(a, b, i, path) == [] <==> forall k | i <= k < |a.items| :: PyEq(a.items[k], b.items[k])
    decreases a, 0, |a.items| - i
  {
    if i < |a.items| {
      NoReportIff(a.items[i], b.items[i], path + [Index(i)]);
      if Indistinct(a.items[i], b.items[i]) {
        IndistinctIsPyEq(a.items[i], b.items[i]);
      }
      NoItemReportIff(a, b, i + 1, path);
    }
  }

  /** A difference that goes unreported: Python equates the list elements True and 1. */
  lemma SkipHidesDifference()
    ensures var a, b := JArr([JBool(true)]), JArr([JInt(1)]);
            a != b && Differs(a, b, [Index(0)]) && Reports(a, b, []) == []
  {
    var a, b := JArr([JBool(true)]), JArr([JInt(1)]);
    assert [Index(0)][1..] == [];
    NoReportIff(a, b, []);
  }

  /****************************** Values of the same SSZ type ******************************/

  /** Python's equality does not confuse printed values of the same type. */
  lemma {:induction false} TypedPyEq(v: Ssz, w: Ssz, t: SszType)
    requires WellFormed(t) && HasType(v, t) && HasType(w, t) && PyEq(Print(v), Print(w))
    ensures v == w
    decreases t, 1
  {
    match t {
      case ContainerT(fields) =>
        FieldCount(v.fields, fields);
        FieldCount(w.fields, fields);
        forall i | 0 <= i < |fields|
          ensures v.fields[i] == w.fields[i]
        {
          assert fields[i] in fields;
          PrintedField(v.fields, i);
          PrintedField(w.fields, i);
          TypedPyEq(v.fields[i].value, w.fields[i].value, fields[i].typ);
        }
      case VectorT(elem, _) => ElementsPyEq(v.elems, w.elems, elem);
      case ListT(elem, _) => ElementsPyEq(v.elems, w.elems, elem);
      case BitVectorT(_) => BitsPyEq(v.bits, w.bits);
      case BitListT(_) => BitsPyEq(v.bits, w.bits);
      case _ =>
        PrintInjective(v, w, t);
    }
  }

  lemma {:induction false} ElementsPyEq(vs: seq<Ssz>, ws: seq<Ssz>, t: SszType)
    requires WellFormed(t) && (forall e | e in vs :: HasType(e, t)) && (forall e | e in ws :: HasType(e, t))
    requires PyEq(JArr(PrintAll(vs)), JArr(PrintAll(ws)))
    ensures vs == ws
    decreases t, 2
  {
    forall i | 0 <= i < |vs|
      ensures vs[i] == ws[i]
    {
      assert PyEq(PrintAll(vs)[i], PrintAll(ws)[i]);
      TypedPyEq(vs[i], ws[i], t);
    }
  }

  lemma BitsPyEq(x: seq<bool>, y: seq<bool>)
    requires PyEq(JArr(Bools(x)), JArr(Bools(y)))
    ensures x == y
  {
    forall i | 0 <= i < |x|
      ensures x[i] == y[i]
    {
      assert PyEq(Bools(x)[i], Bools(y)[i]);
    }
  }

  lemma {:induction false} PyEqReflexive(a: Json)
    ensures PyEq(a, a)
    decreases a
  {
    if a.JArr? {
      forall i | 0 <= i < |a.items|
        ensures PyEq(a.items[i], a.items[i])
      {
        PyEqReflexive(a.items[i]);
      }
    } else if a.JObj? {
      forall k | k in a.fields
        ensures PyEq(a.fields[k], a.fields[k])
      {
        PyEqReflexive(a.fields[k]);
      }
    }
  }

  lemma {:induction false} IndistinctReflexive(a: Json)
    ensures Indistinct(a, a)
    decreases a
  {
    PyEqReflexive(a);
    if a.JObj? {
      forall k | k in a.fields
        ensures Indistinct(a.fields[k], a.fields[k])
      {
        IndistinctReflexive(a.fields[k]);
      }
    }
  }

  /** The structural difference of two states of the same type is empty exactly if they are equal. */
  lemma TypedDiffEmptyIff(v: Ssz, w: Ssz, t: SszType, path: Path)
    requires WellFormed(t) && HasType(v, t) && HasType(w, t)
    ensures Reports(Print(v), Print(w), path) == [] <==> v == w
  {
    NoReportIff(Print(v), Print(w), path);
    if Indistinct(Print(v), Print(w)) {
      IndistinctIsPyEq(Print(v), Print(w));
      TypedPyEq(v, w, t);
    }
    IndistinctReflexive(Print(v));
  }

  lemma {:induction false} NoDifferenceToItself(a: Json, p: Path)
    ensures !Differs(a, a, p)
    decreases |p|
  {
    if p != [] {
      match p[0] {
        case Key(k) => if a.JObj? && k in a.fields { NoDifferenceToItself(a.fields[k], p[1..]); }
        case Index(i) => if a.JArr? && i < |a.items| { NoDifferenceToItself(a.items[i], p[1..]); }
      }
    }
  }

  /** The field of a given name in two values of one container type. */
  lemma SharedField(vs: seq<FieldV>, ws: seq<FieldV>, fields: seq<FieldT>, name: string) returns (i: nat)
    requires WellFormed(ContainerT(fields)) && FieldsHaveType(vs, fields) && FieldsHaveType(ws, fields)
    requires name in PrintFields(vs) || name in PrintFields(ws)
    ensures i < |vs| == |ws| == |fields| && WellFormed(fields[i].typ)
    ensures HasType(vs[i].value, fields[i].typ) && HasType(ws[i].value, fields[i].typ)
    ensures name in PrintFields(vs) && PrintFields(vs)[name] == Print(vs[i].value)
    ensures name in PrintFields(ws) && PrintFields(ws)[name] == Print(ws[i].value)
  {
    i := if name in PrintFields(vs) then FieldIndex(vs, fields, name) else FieldIndex(ws, fields, name);
    FieldAt(vs, fields, i);
    FieldAt(ws, fields, i);
    assert fields[i] in fields;
  }

  ghost function FieldIndex(vs: seq<FieldV>, fields: seq<FieldT>, name: string): (i: nat)
    requires FieldsHaveType(vs, fields) && name in PrintFields(vs)
    ensures i < |fields| && fields[i].name == name
  {
    FieldCount(vs, fields);
    PrintedKeys(vs);
    var i :| 0 <= i < |NamesV(vs)| && NamesV(vs)[i] == name;
    i
  }

  lemma FieldAt(vs: seq<FieldV>, fields: seq<FieldT>, i: nat)
    requires WellFormed(ContainerT(fields)) && FieldsHaveType(vs, fields) && i < |fields|
    ensures |vs| == |fields| && HasType(vs[i].value, fields[i].typ)
    ensures fields[i].name in PrintFields(vs) && PrintFields(vs)[fields[i].name] == Print(vs[i].value)
  {
    FieldCount(vs, fields);
    PrintedField(vs, i);
  }

  /** Between states of the same type no minimal difference is skipped. */
  lemma {:induction false} TypedReached(v: Ssz, w: Ssz, t: SszType, p: Path)
    requires WellFormed(t) && HasType(v, t) && HasType(w, t) && Differs(Print(v), Print(w), p)
    ensures Reached(Print(v), Print(w), p)
    decreases |p|
  {
    if p != [] {
      match t {
        case ContainerT(fields) =>
          var i := SharedField(v.fields, w.fields, fields, p[0].key);
          TypedReached(v.fields[i].value, w.fields[i].value, fields[i].typ, p[1..]);
        case VectorT(elem, _) => ElementReached(v.elems, w.elems, elem, p);
        case ListT(elem, _) => ElementReached(v.elems, w.elems, elem, p);
        case BitVectorT(_) => BitReached(v.bits, w.bits, p);
        case BitListT(_) => BitReached(v.bits, w.bits, p);
        case _ =>
      }
    }
  }

  lemma {:induction false} ElementReached(vs: seq<Ssz>, ws: seq<Ssz>, t: SszType, p: Path)
    requires WellFormed(t) && (forall e | e in vs :: HasType(e, t)) && (forall e | e in ws :: HasType(e, t))
    requires p != [] && Differs(JArr(PrintAll(vs)), JArr(PrintAll(ws)), p)
    ensures Reached(JArr(PrintAll(vs)), JArr(PrintAll(ws)), p)
    decreases |p|, 0
  {
    var i := p[0].i;
    if PyEq(Print(vs[i]), Print(ws[i])) {
      TypedPyEq(vs[i], ws[i], t);
      NoDifferenceToItself(Print(vs[i]), p[1..]);
    }
    TypedReached(vs[i], ws[i], t, p[1..]);
  }

  lemma BitReached(x: seq<bool>, y: seq<bool>, p: Path)
    requires p != [] && Differs(JArr(Bools(x)), JArr(Bools(y)), p)
    ensures Reached(JArr(Bools(x)), JArr(Bools(y)), p)
  {
    var i := p[0].i;
    if x[i] == y[i] {
      NoDifferenceToItself(Bools(x)[i], p[1..]);
    }
  }

  /** The paths reported for two states of the same type are exactly their minimal differences. */
  lemma TypedDiffPaths(v: Ssz, w: Ssz, t: SszType, base: Path, p: Path)
    requires WellFormed(t) && HasType(v, t) && HasType(w, t)
    ensures Reported(Reports(Print(v), Print(w), base), p) <==> base <= p && Differs(Print(v), Print(w), p[|base|..])
  {
    ReportedIff(Print(v), Print(w), base, p);
    if base <= p && Differs(Print(v), Print(w), p[|base|..]) {
      TypedReached(v, w, t, p[|base|..]);
    }
  }

  /****************************** The traversal without the skip ******************************/

  /** All differences, in the order of the traversal, with every list element visited. */
  function Unskipped(a: Json, b: Json, path: Path): seq<Report>
    decreases a, 1
  {
    if TypeOf(a) != TypeOf(b) then [[TypeDiffers(path, TypeOf(a), TypeOf(b)), ShowA(a), ShowB(b)]]
    else if a.JObj? then UnskippedKeys(a, b, Sorted(a.fields.Keys + b.fields.Keys), path)
    else if a.JArr? then
      if |a.items| != |b.items| then [[LengthDiffers(path, |a.items|, |b.items|)]]
      else UnskippedItems(a, b, 0, path)
    else if a != b then [[ValueDiffers(path), ShowA(a), ShowB(b)]]
    else []
  }

  function UnskippedKey(a: Json, b: Json, key: string, path: Path): seq<Report>
    requires a.JObj? && b.JObj? && (key in a.fields || key in b.fields)
    decreases a, 0, 0
  {
    if key !in a.fields then [[OnlyInB(path + [Key(key)])]]
    else if key !in b.fields then [[OnlyInA(path + [Key(key)])]]
    else Unskipped(a.fields[key], b.fields[key], path + [Key(key)])
  }

  function UnskippedKeys(a: Json, b: Json, keys: seq<string>, path: Path): seq<Report>
    requires a.JObj? && b.JObj? && forall k | k in keys :: k in a.fields || k in b.fields
    decreases a, 0, |keys| + 1
  {
    if keys == [] then [] else UnskippedKey(a, b, keys[0], path) + UnskippedKeys(a, b, keys[1..], path)
  }

  function UnskippedItems(a: Json, b: Json, i: nat, path: Path): seq<Report>
    requires a.JArr? && b.JArr? && |a.items| == |b.items| && i <= |a.items|
    decreases a, 0, |a.items| - i + 1
  {
    if i == |a.items| then []
    else Unskipped(a.items[i], b.items[i], path + [Index(i)]) + UnskippedItems(a, b, i + 1, path)
  }

  lemma {:induction false} KeysAlike(a: Json, b: Json, keys: seq<string>, path: Path)
    requires a.JObj? && b.JObj? && forall k | k in keys :: k in a.fields || k in b.fields
    requires forall k | k in keys :: KeyReport(a, b, k, path) == UnskippedKey(a, b, k, path)
    ensures KeyReports(a, b, keys, path) == UnskippedKeys(a, b, keys, path)
  {
    if keys != [] {
      assert keys[0] in keys;
      KeysAlike(a, b, keys[1..], path);
    }
  }

  lemma {:induction false} ItemsAlike(a: Json, b: Json, i: nat, path: Path)
    requires a.JArr? && b.JArr? && |a.items| == |b.items| && i <= |a.items|
    requires forall k :: 0 <= k < |a.items| ==>
               ItemReport(a, b, k, path) == Unskipped(a.items[k], b.items[k], path + [Index(k)])
    ensures ItemReports(a, b, i, path) == UnskippedItems(a, b, i, path)
    decreases |a.items| - i
  {
    if i < |a.items| {
      ItemsAlike(a, b, i + 1, path);
    }
  }

  /** Visiting a value and itself reports nothing. */
  lemma {:induction false} UnskippedSelf(a: Json, path: Path)
    ensures Unskipped(a, a, path) == []
    decreases a, 1
  {
    if a.JObj? {
      SelfKeys(a, Sorted(a.fields.Keys + a.fields.Keys), path);
    } else if a.JArr? {
      SelfItems(a, 0, path);
    }
  }

  lemma {:induction false} SelfKeys(a: Json, keys: seq<string>, path: Path)
    requires a.JObj? && forall k | k in keys :: k in a.fields
    ensures UnskippedKeys(a, a, keys, path) == []
    decreases a, 0, |keys|
  {
    if keys != [] {
      UnskippedSelf(a.fields[keys[0]], path + [Key(keys[0])]);
      SelfKeys(a, keys[1..], path);
    }
  }

  lemma {:induction false} SelfItems(a: Json, i: nat, path: Path)
    requires a.JArr? && i <= |a.items|
    ensures UnskippedItems(a, a, i, path) == []
    decreases a, 0, |a.items| - i
  {
    if i < |a.items| {
      UnskippedSelf(a.items[i], path + [Index(i)]);
      SelfItems(a, i + 1, path);
    }
  }

  /** For two values of one type, the reports are the same, in the same order, if no list element is skipped. */
  lemma {:induction false} SkipChangesNothing(v: Ssz, w: Ssz, t: SszType, path: Path)
    requires WellFormed(t) && HasType(v, t) && HasType(w, t)
    ensures Reports(Print(v), Print(w), path) == Unskipped(Print(v), Print(w), path)
    decreases t, 2
  {
    match t {
      case ContainerT(fields) => SkipInFields(v.fields, w.fields, t, path);
      case VectorT(elem, _) => SkipInElements(v.elems, w.elems, elem, path);
      case ListT(elem, _) => SkipInElements(v.elems, w.elems, elem, path);
      case BitVectorT(_) => SkipInBits(v.bits, w.bits, path);
      case BitListT(_) => SkipInBits(v.bits, w.bits, path);
      case _ =>
    }
  }

  lemma {:induction false} SkipInFields(vs: seq<FieldV>, ws: seq<FieldV>, t: SszType, path: Path)
    requires t.ContainerT? && WellFormed(t) && FieldsHaveType(vs, t.fields) && FieldsHaveType(ws, t.fields)
    ensures Reports(JObj(PrintFields(vs)), JObj(PrintFields(ws)), path) ==
              Unskipped(JObj(PrintFields(vs)), JObj(PrintFields(ws)), path)
    decreases t, 1
  {
    var a, b := JObj(PrintFields(vs)), JObj(PrintFields(ws));
    var keys := Sorted(a.fields.Keys + b.fields.Keys);
    forall k | k in keys
      ensures KeyReport(a, b, k, path) == UnskippedKey(a, b, k, path)
    {
      var i := SharedField(vs, ws, t.fields, k);
      SkipChangesNothing(vs[i].value, ws[i].value, t.fields[i].typ, path + [Key(k)]);
    }
    KeysAlike(a, b, keys, path);
  }

  lemma {:induction false} SkipInElements(vs: seq<Ssz>, ws: seq<Ssz>, t: SszType, path: Path)
    requires WellFormed(t) && (forall e | e in vs :: HasType(e, t)) && (forall e | e in ws :: HasType(e, t))
    ensures Reports(JArr(PrintAll(vs)), JArr(PrintAll(ws)), path) ==
              Unskipped(JArr(PrintAll(vs)), JArr(PrintAll(ws)), path)
    decreases t, 3
  {
    var a, b := JArr(PrintAll(vs)), JArr(PrintAll(ws));
    if |vs| == |ws| {
      forall k | 0 <= k < |vs|
        ensures ItemReport(a, b, k, path) == Unskipped(a.items[k], b.items[k], path + [Index(k)])
      {
        if PyEq(a.items[k], b.items[k]) {
          TypedPyEq(vs[k], ws[k], t);
          UnskippedSelf(a.items[k], path + [Index(k)]);
        }
        SkipChangesNothing(vs[k], ws[k], t, path + [Index(k)]);
      }
      ItemsAlike(a, b, 0, path);
    }
  }

  lemma SkipInBits(x: seq<bool>, y: seq<bool>, path: Path)
    ensures Reports(JArr(Bools(x)), JArr(Bools(y)), path) == Unskipped(JArr(Bools(x)), JArr(Bools(y)), path)
  {
    var a, b := JArr(Bools(x)), JArr(Bools(y));
    if |x| == |y| {
      forall k | 0 <= k < |x|
        ensures ItemReport(a, b, k, path) == Unskipped(a.items[k], b.items[k], path + [Index(k)])
      {
        assert a.items[k] == JBool(x[k]) && b.items[k] == JBool(y[k]);
      }
      ItemsAlike(a, b, 0, path);
    }
  }
}
