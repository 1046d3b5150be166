/**
 The four `_merge_*` functions: coverage files are merged by a command-line tool that takes a
 bounded number of inputs, level by level, through files in a temporary directory.

 The functions differ in the tool, the name of the temporary directory and the suffix of the
 intermediate files, all of which are parameters here.
 */
module ChunkedMerge {
  import opened Wrappers

  /** A resolved path, as its components. */
  type Path = seq<string>

  /** A merge tool: the merged contents, or None when the process fails. */
  type Tool<!C> = seq<C> -> Option<C>

  /********************************* Names of intermediate files *********************************/

  function Digit(n: nat): char
    requires n < 10
  {
    '0' + n as char
  }

  function Decimal(n: nat): string {
    if n < 10 then [Digit(n)] else Decimal(n / 10) + [Digit(n % 10)]
  }

  lemma {:induction false} DecimalInjective(a: nat, b: nat)
    requires Decimal(a) == Decimal(b)
    ensures a == b
  {
    var s, t := Decimal(a), Decimal(b);
    assert s[|s| - 1] == Digit(a % 10) && t[|t| - 1] == Digit(b % 10);
    DecimalNonEmpty(a / 10);
    DecimalNonEmpty(b / 10);
    if a >= 10 && b >= 10 {
      assert s[..|s| - 1] == Decimal(a / 10) && t[..|t| - 1] == Decimal(b / 10);
      DecimalInjective(a / 10, b / 10);
    }
  }

  lemma DecimalNonEmpty(n: nat)
    ensures |Decimal(n)| >= 1
  {
  }

  /** `temp_root / f"level_{level}" / f"merge_{index}{suffix}"` */
  function ChunkPath(tempRoot: Path, suffix: string, level: nat, index: nat): Path {
    tempRoot + ["level_" + Decimal(level), "merge_" + Decimal(index) + suffix]
  }

  lemma ChunkPathInjective(tempRoot: Path, suffix: string, l1: nat, i1: nat, l2: nat, i2: nat)
    requires ChunkPath(tempRoot, suffix, l1, i1) == ChunkPath(tempRoot, suffix, l2, i2)
    ensures l1 == l2 && i1 == i2
  {
    var a, b := ChunkPath(tempRoot, suffix, l1, i1), ChunkPath(tempRoot, suffix, l2, i2);
    var n := |tempRoot|;
    assert a[n] == "level_" + Decimal(l1) && b[n] == "level_" + Decimal(l2);
    assert a[n][6..] == Decimal(l1) && b[n][6..] == Decimal(l2);
    DecimalInjective(l1, l2);
    assert a[n + 1] == "merge_" + Decimal(i1) + suffix && b[n + 1] == "merge_" + Decimal(i2) + suffix;
    assert a[n + 1][6..|a[n + 1]| - |suffix|] == Decimal(i1) && b[n + 1][6..|b[n + 1]| - |suffix|] == Decimal(i2);
    DecimalInjective(i1, i2);
  }

  /***************************************** Chunks *****************************************/

  function Min(a: nat, b: nat): nat {
    if a < b then a else b
  }

  /** `_chunk_list` */
  function Chunks<T>(items: seq<T>, size: nat): seq<seq<T>>
    requires size > 0
    decreases |items|
  {
    if items == [] then []
    else
      var n := Min(size, |items|);
      [items[..n]] + Chunks(items[n..], size)
  }

  /** Chunking cuts the list into consecutive pieces. */
  lemma {:induction false} ChunksConcat<T>(items: seq<T>, size: nat)
    requires size > 0
    ensures Concat(Chunks(items, size)) == items
    decreases |items|
  {
    if items != [] {
      var n := Min(size, |items|);
      ChunksConcat(items[n..], size);
      assert Chunks(items, size)[1..] == Chunks(items[n..], size);
      assert items == items[..n] + items[n..];
    }
  }

  /** Every piece has one to `size` items. */
  lemma {:induction false} ChunkSizes<T>(items: seq<T>, size: nat)
    requires size > 0
    ensures forall i :: 0 <= i < |Chunks(items, size)| ==> 1 <= |Chunks(items, size)[i]| <= size
    decreases |items|
  {
    if items != [] {
      var n := Min(size, |items|);
      ChunkSizes(items[n..], size);
      var rest := Chunks(items[n..], size);
      assert Chunks(items, size) == [items[..n]] + rest;
    }
  }

  function Concat<T>(xss: seq<seq<T>>): seq<T> {
    if xss == [] then [] else xss[0] + Concat(xss[1..])
  }

  method ChunkList<T>(items: seq<T>, size: nat) returns (chunks: seq<seq<T>>)
    requires size > 0
    ensures chunks == Chunks(items, size)
  {
    chunks := [];
    var i := 0;
    assert items[0..] == items;
    while i < |items|
      invariant i <= |items|
      invariant chunks + Chunks(items[i..], size) == Chunks(items, size)
    {
      var n := Min(size, |items| - i);
      assert items[i..][..n] == items[i..i + n] && items[i..][n..] == items[i + n..];
      chunks := chunks + [items[i..i + n]];
      i := i + n;
    }
    assert items[i..] == [];
  }

  lemma {:induction false} ChunkCount<T>(items: seq<T>, size: nat, x: nat)
    requires size > 0
    ensures |Chunks(items, size)| <= x <==> |items| <= size * x
    decreases |items|
  {
    if items != [] {
      var n := Min(size, |items|);
      if x > 0 {
        ChunkCount(items[n..], size, x - 1);
        assert size * x == size * (x - 1) + size;
        if n < size {
          assert items[n..] == [];
          assert size * (x - 1) >= 0;
        }
      }
    }
  }

  lemma PairsShrink(size: nat, n: nat)
    requires size > 1 && n > size
    ensures n <= size * (n - 1)
  {
    assert (size - 2) * (n - 1) >= 0;
  }

  lemma ChunkingShrinks<T>(items: seq<T>, size: nat)
    requires size > 1 && |items| > size
    ensures |Chunks(items, size)| < |items|
  {
    PairsShrink(size, |items|);
    ChunkCount(items, size, |items| - 1);
  }

  /*************************************** The tool ***************************************/

  /** Merging the merges of consecutive groups is merging all of their members. */
  ghost predicate Flattens<C(!new)>(tool: Tool<C>) {
    forall xss: seq<seq<C>>, ys: seq<C> {:trigger tool(ys), Concat(xss)} ::
      |xss| == |ys| && (forall i :: 0 <= i < |xss| ==> xss[i] != [] && tool(xss[i]) == Some(ys[i]))
      ==> tool(ys) == tool(Concat(xss))
  }

  function Fold<C>(op: (C, C) -> C, xs: seq<C>): C
    requires xs != []
  {
    if |xs| == 1 then xs[0] else op(xs[0], Fold(op, xs[1..]))
  }

  function FoldTool<C>(op: (C, C) -> C): Tool<C> {
    xs => if xs == [] then None else Some(Fold(op, xs))
  }

  lemma {:induction false} FoldAppend<C(!new)>(op: (C, C) -> C, a: seq<C>, b: seq<C>)
    requires forall x, y, z :: op(op(x, y), z) == op(x, op(y, z))
    requires a != [] && b != []
    ensures Fold(op, a + b) == op(Fold(op, a), Fold(op, b))
  {
    assert (a + b)[1..] == a[1..] + b;
    if |a| > 1 {
      FoldAppend(op, a[1..], b);
    } else {
      assert a[1..] + b == b;
    }
  }

  lemma {:induction false} FoldOfGroups<C(!new)>(op: (C, C) -> C, xss: seq<seq<C>>, ys: seq<C>)
    requires forall x, y, z :: op(op(x, y), z) == op(x, op(y, z))
    requires xss != [] && |xss| == |ys|
    requires forall i :: 0 <= i < |xss| ==> xss[i] != [] && Fold(op, xss[i]) == ys[i]
    ensures Concat(xss) != [] && Fold(op, ys) == Fold(op, Concat(xss))
  {
    if |xss| == 1 {
      assert Concat(xss) == xss[0] + Concat([]) == xss[0];
    } else {
      FoldOfGroups(op, xss[1..], ys[1..]);
      FoldAppend(op, xss[0], Concat(xss[1..]));
    }
  }

  /** Every tool that folds an associative operation flattens. */
  lemma AssociativeFlattens<C(!new)>(op: (C, C) -> C)
    requires forall x, y, z :: op(op(x, y), z) == op(x, op(y, z))
    ensures Flattens(FoldTool(op))
  {
    forall xss: seq<seq<C>>, ys: seq<C> |
      |xss| == |ys| && (forall i :: 0 <= i < |xss| ==> xss[i] != [] && FoldTool(op)(xss[i]) == Some(ys[i]))
      ensures FoldTool(op)(ys) == FoldTool(op)(Concat(xss))
    {
      if xss != [] {
        forall i | 0 <= i < |xss|
          ensures Fold(op, xss[i]) == ys[i]
        {
          assert FoldTool(op)(xss[i]) == Some(ys[i]);
        }
        FoldOfGroups(op, xss, ys);
      }
    }
  }

  /******************************** Merging level by level ********************************/

  /** One round on contents: the tool on every group, if it succeeds on all of them. */
  function MergeGroups<C>(tool: Tool<C>, xss: seq<seq<C>>): Option<seq<C>> {
    if forall i | 0 <= i < |xss| :: tool(xss[i]).Some? then
      Some(seq(|xss|, i requires 0 <= i < |xss| && tool(xss[i]).Some? => tool(xss[i]).value))
    else None
  }

  /** Merging by rounds, on contents: chunk by chunk for as long as there is more than one tool call can take. */
  function LevelMerge<C>(tool: Tool<C>, size: nat, contents: seq<C>): Option<C>
    requires size > 1
    decreases |contents|
  {
    if |contents| <= size then tool(contents)
    else
      ChunkingShrinks(contents, size);
      match MergeGroups(tool, Chunks(contents, size))
      case None => None
      case Some(next) => LevelMerge(tool, size, next)
  }

  /** A round leaves the merge of all contents as it was. */
  lemma LevelKeepsMerge<C(!new)>(tool: Tool<C>, size: nat, contents: seq<C>, next: seq<C>)
    requires size > 0 && Flattens(tool) && MergeGroups(tool, Chunks(contents, size)) == Some(next)
    ensures tool(next) == tool(contents)
  {
    var chunks := Chunks(contents, size);
    ChunkSizes(contents, size);
    ChunksConcat(contents, size);
    forall i | 0 <= i < |chunks|
      ensures chunks[i] != [] && tool(chunks[i]) == Some(next[i])
    {
      assert |chunks[i]| >= 1;
    }
    assert tool(next) == tool(Concat(chunks));
  }

  /** Merging by rounds, when it succeeds, gives what one call on all contents would give. */
  lemma {:induction false} LevelMergeIsFlat<C(!new)>(tool: Tool<C>, size: nat, contents: seq<C>)
    requires size > 1 && Flattens(tool) && LevelMerge(tool, size, contents).Some?
    ensures LevelMerge(tool, size, contents) == tool(contents)
    decreases |contents|
  {
    if |contents| > size {
      ChunkingShrinks(contents, size);
      var next := MergeGroups(tool, Chunks(contents, size)).value;
      LevelKeepsMerge(tool, size, contents, next);
      LevelMergeIsFlat(tool, size, next);
    }
  }

  /** The tool succeeds on every number of inputs that the loop may give it. */
  ghost predicate SucceedsUpTo<C(!new)>(tool: Tool<C>, size: nat) {
    forall xs: seq<C> :: 1 <= |xs| <= size ==> tool(xs).Some?
  }

  lemma {:induction false} LevelMergeSucceeds<C(!new)>(tool: Tool<C>, size: nat, contents: seq<C>)
    requires size > 1 && contents != [] && SucceedsUpTo(tool, size)
    ensures LevelMerge(tool, size, contents).Some?
    decreases |contents|
  {
    if |contents| > size {
      ChunkingShrinks(contents, size);
      ChunkSizes(contents, size);
      ChunkCount(contents, size, 0);
      LevelMergeSucceeds(tool, size, MergeGroups(tool, Chunks(contents, size)).value);
    }
  }

  /************************************* The merge loop *************************************/

  /** With an associative operation, merging by rounds is folding it over all contents in order. */
  lemma AssociativeMerge<C(!new)>(op: (C, C) -> C, size: nat, contents: seq<C>)
    requires forall x, y, z :: op(op(x, y), z) == op(x, op(y, z))
    requires size > 1 && contents != []
    ensures LevelMerge(FoldTool(op), size, contents) == Some(Fold(op, contents))
  {
    AssociativeFlattens(op);
    LevelMergeSucceeds(FoldTool(op), size, contents);
    LevelMergeIsFlat(FoldTool(op), size, contents);
  }

  ghost predicate Present<C>(files: map<Path, C>, paths: seq<Path>) {
    forall p :: p in paths ==> p in files
  }

  ghost function Contents<C>(files: map<Path, C>, paths: seq<Path>): (r: seq<C>)
    requires Present(files, paths)
    ensures |r| == |paths|
  {
    seq(|paths|, i requires 0 <= i < |paths| => files[paths[i]])
  }

  /** The two file maps agree outside the directory. */
  ghost predicate SameOutside<C>(a: map<Path, C>, b: map<Path, C>, dir: Path) {
    forall p :: !(dir <= p) ==> (p in a <==> p in b) && (p in a ==> a[p] == b[p])
  }

  /** No intermediate file of this level or a later one exists yet. */
  ghost predicate Unwritten<C>(files: map<Path, C>, tempRoot: Path, suffix: string, level: nat, index: nat) {
    forall l: nat, i: nat :: l > level || (l == level && i >= index) ==> ChunkPath(tempRoot, suffix, l, i) !in files
  }

  /** The files on disk, and the one way in which the merge functions use a tool. */
  class Workspace<C(!new)> {
    const tool: Tool<C>
    const size: nat
    var files: map<Path, C>

    constructor (tool: Tool<C>, size: nat, files: map<Path, C>)
      ensures this.tool == tool && this.size == size && this.files == files
    {
      this.tool, this.size, this.files := tool, size, files;
    }

    method RemoveTree(dir: Path)
      modifies this
      ensures files == map p | p in old(files) && !(dir <= p) :: old(files)[p]
    {
      files := map p | p in files && !(dir <= p) :: files[p];
    }

    /**
     `subprocess.run(..., check=True)`; false for CalledProcessError.  No call may have more inputs
     than fit on a command line, none may be without input unless there is nothing to merge at all,
     and none may overwrite a file.
     */
    method Run(inputs: seq<Path>, output: Path, ghost whole: seq<Path>) returns (ok: bool)
      requires |inputs| <= size && (whole != [] ==> |inputs| >= 1)
      requires output !in files
      modifies this
      ensures ok <==> Present(old(files), inputs) && tool(Contents(old(files), inputs)).Some?
      ensures files == if ok then old(files)[output := tool(Contents(old(files), inputs)).value] else old(files)
    {
      var contents: seq<C> := [];
      for i := 0 to |inputs|
        invariant Present(files, inputs[..i]) && contents == Contents(files, inputs[..i])
      {
        if inputs[i] !in files {
          assert inputs[i] in inputs;
          return false;
        }
        contents := contents + [files[inputs[i]]];
      }
      assert inputs[..|inputs|] == inputs;
      var merged := tool(contents);
      ok := merged.Some?;
      if ok {
        files := files[output := merged.value];
      }
    }
  }

  lemma ContentsSame<C>(a: map<Path, C>, b: map<Path, C>, paths: seq<Path>)
    requires forall p :: p in paths && p in a ==> p in b && a[p] == b[p]
    requires Present(a, paths)
    ensures Present(b, paths) && Contents(a, paths) == Contents(b, paths)
  {
  }

  /** The file at `output` holds the merge of what the inputs held before. */
  ghost predicate HoldsMerge<C>(tool: Tool<C>, before: map<Path, C>, inputs: seq<Path>, after: map<Path, C>,
        output: Path) {
    Present(before, inputs) && output in after && tool(Contents(before, inputs)) == Some(after[output])
  }

  /** A tool call on these inputs succeeds. */
  ghost predicate Mergeable<C>(tool: Tool<C>, files: map<Path, C>, inputs: seq<Path>) {
    Present(files, inputs) && tool(Contents(files, inputs)).Some?
  }

  /** One round of the while-loop body: merge each chunk into its own file of the level directory. */
  method MergeLevel<C(!new)>(ws: Workspace<C>, current: seq<Path>, tempRoot: Path, suffix: string, level: nat)
    returns (ok: bool, next: seq<Path>)
    requires ws.size > 0
    requires Unwritten(ws.files, tempRoot, suffix, level, 0)
    requires forall p :: p in current ==> NotOfLevel(p, tempRoot, suffix, level)
    modifies ws
    ensures SameOutside(old(ws.files), ws.files, tempRoot)
    ensures ok <==> var chunks := Chunks(current, ws.size);
                    forall i :: 0 <= i < |chunks| ==> Mergeable(ws.tool, old(ws.files), chunks[i])
    ensures ok ==> var chunks := Chunks(current, ws.size);
                   && |next| == |chunks|
                   && Unwritten(ws.files, tempRoot, suffix, level + 1, 0)
                   && (forall i :: 0 <= i < |next| ==> next[i] == ChunkPath(tempRoot, suffix, level, i))
                   && (forall i :: 0 <= i < |chunks| ==>
                         HoldsMerge(ws.tool, old(ws.files), chunks[i], ws.files, next[i]))
  {
    var chunks := ChunkList(current, ws.size);
    ChunkSizes(current, ws.size);
    next := [];
    for index := 0 to |chunks|
      invariant |next| == index
      invariant SameOutside(old(ws.files), ws.files, tempRoot)
      invariant Unwritten(ws.files, tempRoot, suffix, level, index)
      invariant forall p :: p in current ==>
                  (p in ws.files <==> p in old(ws.files)) && (p in ws.files ==> ws.files[p] == old(ws.files)[p])
      invariant forall i :: 0 <= i < index ==> next[i] == ChunkPath(tempRoot, suffix, level, i)
      invariant forall i :: 0 <= i < index ==> HoldsMerge(ws.tool, old(ws.files), chunks[i], ws.files, next[i])
    {
      var chunkOutput := ChunkPath(tempRoot, suffix, level, index);
      ChunkInItems(current, ws.size, index);
      ghost var before := ws.files;
      MergeableSame(ws.tool, before, old(ws.files), chunks[index]);
      ok := ws.Run(chunks[index], chunkOutput, current);
      if !ok {
        assert !Mergeable(ws.tool, old(ws.files), chunks[index]);
        return;
      }
      forall l: nat, i: nat | ChunkPath(tempRoot, suffix, l, i) == chunkOutput
        ensures l == level && i == index
      {
        ChunkPathInjective(tempRoot, suffix, l, i, level, index);
      }
      next := next + [chunkOutput];
    }
    ok := true;
    forall i | 0 <= i < |chunks|
      ensures Mergeable(ws.tool, old(ws.files), chunks[i])
    {
      assert HoldsMerge(ws.tool, old(ws.files), chunks[i], ws.files, next[i]);
    }
  }

  lemma MergeableSame<C>(tool: Tool<C>, a: map<Path, C>, b: map<Path, C>, paths: seq<Path>)
    requires forall p :: p in paths ==> (p in a <==> p in b) && (p in a ==> a[p] == b[p])
    ensures Mergeable(tool, a, paths) <==> Mergeable(tool, b, paths)
    ensures Present(a, paths) ==> Present(b, paths) && Contents(a, paths) == Contents(b, paths)
  {
    if Present(a, paths) {
      assert Contents(a, paths) == Contents(b, paths);
    } else {
      assert !Present(b, paths);
    }
  }

  lemma {:induction false} ChunkInItems<T>(items: seq<T>, size: nat, k: nat)
    requires size > 0 && k < |Chunks(items, size)|
    ensures forall x :: x in Chunks(items, size)[k] ==> x in items
    decreases |items|
  {
    var n := Min(size, |items|);
    if k > 0 {
      ChunkInItems(items[n..], size, k - 1);
      assert Chunks(items, size)[k] == Chunks(items[n..], size)[k - 1];
    }
  }

  ghost predicate AllPresent<C>(files: map<Path, C>, xss: seq<seq<Path>>) {
    forall i :: 0 <= i < |xss| ==> Present(files, xss[i])
  }

  lemma AllPresentCons<C>(files: map<Path, C>, xs: seq<Path>, xss: seq<seq<Path>>)
    ensures AllPresent(files, [xs] + xss) <==> Present(files, xs) && AllPresent(files, xss)
  {
    var all := [xs] + xss;
    assert all[0] == xs && all[1..] == xss;
    if AllPresent(files, all) {
      forall i | 0 <= i < |xss|
        ensures Present(files, xss[i])
      {
        assert Present(files, all[i + 1]);
      }
      assert Present(files, all[0]);
    }
  }

  lemma {:induction false} PresentInChunks<C>(files: map<Path, C>, paths: seq<Path>, size: nat)
    requires size > 0
    ensures Present(files, paths) <==> AllPresent(files, Chunks(paths, size))
    decreases |paths|
  {
    if paths != [] {
      var n := Min(size, |paths|);
      PresentInChunks(files, paths[n..], size);
      AllPresentCons(files, paths[..n], Chunks(paths[n..], size));
      assert paths == paths[..n] + paths[n..];
    }
  }

  lemma ContentsSplit<C>(files: map<Path, C>, paths: seq<Path>, n: nat)
    requires n <= |paths| && Present(files, paths)
    ensures Contents(files, paths)[..n] == Contents(files, paths[..n])
    ensures Contents(files, paths)[n..] == Contents(files, paths[n..])
  {
  }

  /** Chunking the paths is chunking their contents. */
  lemma {:induction false} ContentsOfChunks<C>(files: map<Path, C>, paths: seq<Path>, size: nat)
    requires size > 0 && Present(files, paths)
    ensures AllPresent(files, Chunks(paths, size))
    ensures |Chunks(Contents(files, paths), size)| == |Chunks(paths, size)|
    ensures forall i :: 0 <= i < |Chunks(paths, size)| ==>
              Chunks(Contents(files, paths), size)[i] == Contents(files, Chunks(paths, size)[i])
    decreases |paths|
  {
    PresentInChunks(files, paths, size);
    if paths != [] {
      var n := Min(size, |paths|);
      ContentsOfChunks(files, paths[n..], size);
      ContentsSplit(files, paths, n);
    }
  }

  /** What merging the files at these paths by rounds gives. */
  ghost function Outcome<C>(tool: Tool<C>, size: nat, files: map<Path, C>, paths: seq<Path>): Option<C>
    requires size > 1
  {
    if Present(files, paths) then LevelMerge(tool, size, Contents(files, paths)) else None
  }

  /** A round that fails decides the outcome; one that succeeds leaves it to its results. */
  lemma RoundOutcome<C>(tool: Tool<C>, size: nat, before: map<Path, C>, current: seq<Path>, after: map<Path, C>,
        next: seq<Path>)
    requires 1 < size < |current|
    requires var chunks := Chunks(current, size);
             (forall i :: 0 <= i < |chunks| ==> Mergeable(tool, before, chunks[i])) ==>
               |next| == |chunks| && forall i :: 0 <= i < |chunks| ==>
                   HoldsMerge(tool, before, chunks[i], after, next[i])
    ensures var chunks := Chunks(current, size);
            Outcome(tool, size, before, current) ==
            if forall i :: 0 <= i < |chunks| ==> Mergeable(tool, before, chunks[i])
            then Outcome(tool, size, after, next)
            else None
  {
    var chunks := Chunks(current, size);
    PresentInChunks(before, current, size);
    if Present(before, current) {
      ContentsOfChunks(before, current, size);
    }
    if forall i :: 0 <= i < |chunks| ==> Mergeable(tool, before, chunks[i]) {
      forall i | 0 <= i < |chunks|
        ensures Present(before, chunks[i])
      {
        assert Mergeable(tool, before, chunks[i]);
      }
      assert Present(before, current);
      var groups := Chunks(Contents(before, current), size);
      forall i | 0 <= i < |chunks|
        ensures next[i] in after && tool(groups[i]) == Some(after[next[i]])
      {
        assert HoldsMerge(tool, before, chunks[i], after, next[i]);
      }
      assert MergeGroups(tool, groups).value == Contents(after, next);
    } else if Present(before, current) {
      var i :| 0 <= i < |chunks| && !Mergeable(tool, before, chunks[i]);
      assert tool(Chunks(Contents(before, current), size)[i]).None?;
    }
  }

  function Pow(base: nat, exponent: nat): nat {
    if exponent == 0 then 1 else base * Pow(base, exponent - 1)
  }

  ghost predicate Fits(n: nat, size: nat, level: nat, x: nat) {
    n <= Pow(size, level) * x
  }

  /** The number of files after `level` rounds is n divided by size^level, rounded up. */
  ghost predicate CountAfter(n: nat, size: nat, level: nat, count: nat) {
    forall x: nat :: count <= x <==> Fits(n, size, level, x)
  }

  lemma PowStep(size: nat, level: nat, x: nat)
    ensures Pow(size, level + 1) * x == Pow(size, level) * (size * x)
  {
    MulAssoc(Pow(size, level), size, x);
  }

  lemma MulAssoc(a: nat, b: nat, c: nat)
    ensures b * a * c == a * (b * c)
  {
  }

  lemma CountNext(n: nat, size: nat, level: nat, items: seq<Path>)
    requires size > 0 && CountAfter(n, size, level, |items|)
    ensures CountAfter(n, size, level + 1, |Chunks(items, size)|)
  {
    var above := level + 1;
    forall x: nat
      ensures |Chunks(items, size)| <= x <==> Fits(n, size, above, x)
    {
      ChunkCount(items, size, x);
      PowStep(size, level, x);
      assert |items| <= size * x <==> Fits(n, size, level, size * x);
    }
  }

  /** `output.parent / tmpName` */
  function TempRoot(output: Path, tmpName: string): Path
    requires output != []
  {
    output[..|output| - 1] + [tmpName]
  }

  ghost predicate Empty<C>(files: map<Path, C>, dir: Path) {
    forall p :: p in files ==> !(dir <= p)
  }

  ghost predicate NotOfLevel(p: Path, tempRoot: Path, suffix: string, level: nat) {
    forall i: nat :: p != ChunkPath(tempRoot, suffix, level, i)
  }

  lemma ChunkPathInside(tempRoot: Path, suffix: string)
    ensures forall l: nat, i: nat :: tempRoot <= ChunkPath(tempRoot, suffix, l, i)
  {
  }

  lemma ChunkOfOtherLevel(p: Path, next: seq<Path>, tempRoot: Path, suffix: string, level: nat)
    requires p in next && forall i :: 0 <= i < |next| ==> next[i] == ChunkPath(tempRoot, suffix, level, i)
    ensures NotOfLevel(p, tempRoot, suffix, level + 1)
  {
    var j :| 0 <= j < |next| && next[j] == p;
    var above := level + 1;
    forall i: nat
      ensures p != ChunkPath(tempRoot, suffix, above, i)
    {
      if p == ChunkPath(tempRoot, suffix, above, i) {
        ChunkPathInjective(tempRoot, suffix, level, j, above, i);
      }
    }
  }

  /** The inputs are there, and removing the old output does not take one of them away. */
  ghost predicate Available<C>(files: map<Path, C>, inputs: seq<Path>, output: Path) {
    forall p :: p in inputs ==> p in files && !(output <= p)
  }

  /**
   `_merge_prysm_cov_dirs`, `_merge_lighthouse_profdata_inputs`, `_merge_teku_exec_files` and
   `_merge_nimbus_info_files`.  `level` is the number of rounds.
   */
  method MergeFiles<C(!new)>(ws: Workspace<C>, inputs: seq<Path>, output: Path, tmpName: string, suffix: string)
    returns (ok: bool, level: nat)
    requires ws.size > 1
    requires output != [] && output[|output| - 1] != tmpName
    requires forall p :: p in inputs ==> !(TempRoot(output, tmpName) <= p)
    modifies ws
    ensures ok <==>
              && Available(old(ws.files), inputs, output)
              && LevelMerge(ws.tool, ws.size, Contents(old(ws.files), inputs)).Some?
    ensures ok ==>
              && output in ws.files
              && LevelMerge(ws.tool, ws.size, Contents(old(ws.files), inputs)) == Some(ws.files[output])
    ensures ok && Flattens(ws.tool) ==> ws.tool(Contents(old(ws.files), inputs)) == Some(ws.files[output])
    ensures SucceedsUpTo(ws.tool, ws.size) && inputs != [] && Available(old(ws.files), inputs, output) ==> ok
    ensures ok ==> |inputs| <= Pow(ws.size, level + 1) && (level > 0 ==> |inputs| > Pow(ws.size, level))
    ensures !ok ==> output !in ws.files
    ensures Empty(ws.files, TempRoot(output, tmpName))
    ensures forall p :: !(TempRoot(output, tmpName) <= p) && !(output <= p) ==>
                          (p in ws.files <==> p in old(ws.files)) && (p in ws.files ==> ws.files[p] == old(ws.files)[p])
  {
    var tempRoot := TempRoot(output, tmpName);
    assert !(tempRoot <= output) && !(output <= tempRoot);
    ws.RemoveTree(output);
    ws.RemoveTree(tempRoot);
    ghost var start := ws.files;
    OutcomeOfAvailable(ws.tool, ws.size, old(ws.files), start, inputs, output);
    ok, level := MergeRounds(ws, inputs, output, tempRoot, suffix);
    ws.RemoveTree(tempRoot);
  }

  lemma OutcomeOfAvailable<C(!new)>(tool: Tool<C>, size: nat, before: map<Path, C>, start: map<Path, C>,
        inputs: seq<Path>, output: Path)
    requires size > 1
    requires forall p :: p in inputs ==>
               (p in start <==> p in before && !(output <= p)) && (p in start ==> start[p] == before[p])
    ensures Outcome(tool, size, start, inputs) ==
            if Available(before, inputs, output) then LevelMerge(tool, size, Contents(before, inputs)) else None
    ensures Flattens(tool) && Outcome(tool, size, start, inputs).Some? ==>
              tool(Contents(before, inputs)) == Outcome(tool, size, start, inputs)
    ensures SucceedsUpTo(tool, size) && inputs != [] && Available(before, inputs, output) ==>
              Outcome(tool, size, start, inputs).Some?
  {
    if Available(before, inputs, output) {
      ContentsSame(before, start, inputs);
      if Flattens(tool) && LevelMerge(tool, size, Contents(before, inputs)).Some? {
        LevelMergeIsFlat(tool, size, Contents(before, inputs));
      }
      if SucceedsUpTo(tool, size) && inputs != [] {
        LevelMergeSucceeds(tool, size, Contents(before, inputs));
      }
    }
  }

  /** The while-loop and the last call, once the old output and the temporary directory are gone. */
  method MergeRounds<C(!new)>(ws: Workspace<C>, inputs: seq<Path>, output: Path, tempRoot: Path, suffix: string)
    returns (ok: bool, level: nat)
    requires ws.size > 1 && output !in ws.files && !(tempRoot <= output) && Empty(ws.files, tempRoot)
    requires forall p :: p in inputs ==> !(tempRoot <= p)
    modifies ws
    ensures ok <==> Outcome(ws.tool, ws.size, old(ws.files), inputs).Some?
    ensures ok ==> output in ws.files && Outcome(ws.tool, ws.size, old(ws.files), inputs) == Some(ws.files[output])
    ensures !ok ==> output !in ws.files
    ensures ok ==> |inputs| <= Pow(ws.size, level + 1) && (level > 0 ==> |inputs| > Pow(ws.size, level))
    ensures forall p :: !(tempRoot <= p) && p != output ==>
                          (p in ws.files <==> p in old(ws.files)) && (p in ws.files ==> ws.files[p] == old(ws.files)[p])
  {
    ghost var start := ws.files;
    ChunkPathInside(tempRoot, suffix);
    var current := inputs;
    level := 0;
    while |current| > ws.size
      invariant SameOutside(start, ws.files, tempRoot)
      invariant Unwritten(ws.files, tempRoot, suffix, level, 0)
      invariant forall p :: p in current ==> NotOfLevel(p, tempRoot, suffix, level)
      invariant Outcome(ws.tool, ws.size, ws.files, current) == Outcome(ws.tool, ws.size, start, inputs)
      invariant CountAfter(|inputs|, ws.size, level, |current|)
      invariant level > 0 ==> |inputs| > Pow(ws.size, level)
      invariant inputs != [] ==> current != []
      decreases |current|
    {
      ghost var before := ws.files;
      var next;
      ok, next := MergeLevel(ws, current, tempRoot, suffix, level);
      RoundOutcome(ws.tool, ws.size, before, current, ws.files, next);
      if !ok {
        return;
      }
      NextRound(|inputs|, ws.size, level, current);
      forall p | p in next
        ensures NotOfLevel(p, tempRoot, suffix, level + 1)
      {
        ChunkOfOtherLevel(p, next, tempRoot, suffix, level);
      }
      current, level := next, level + 1;
    }
    assert Fits(|inputs|, ws.size, level, ws.size);
    PowStep(ws.size, level, 1);
    ok := ws.Run(current, output, inputs);
  }

  /** The count of files in the next round. */
  lemma NextRound(n: nat, size: nat, level: nat, current: seq<Path>)
    requires 1 < size < |current| && CountAfter(n, size, level, |current|)
    ensures CountAfter(n, size, level + 1, |Chunks(current, size)|) && n > Pow(size, level + 1)
    ensures 1 <= |Chunks(current, size)| < |current|
  {
    CountNext(n, size, level, current);
    ChunkingShrinks(current, size);
    ChunkCount(current, size, 0);
    assert !Fits(n, size, level, size);
    PowStep(size, level, 1);
  }

  /** Joining lists: the tool whose output shows which inputs it was given, in which order. */
  function Join(a: seq<Path>, b: seq<Path>): seq<Path> {
    a + b
  }

  lemma {:induction false} FoldOfJoin(xs: seq<seq<Path>>)
    requires xs != []
    ensures Fold(Join, xs) == Concat(xs)
  {
    if |xs| == 1 {
      assert Concat(xs) == xs[0] + Concat([]);
    } else {
      FoldOfJoin(xs[1..]);
    }
  }

  lemma {:induction false} ConcatOfSingletons(files: map<Path, seq<Path>>, inputs: seq<Path>)
    requires Present(files, inputs) && forall p :: p in inputs ==> files[p] == [p]
    ensures Concat(Contents(files, inputs)) == inputs
  {
    if inputs != [] {
      ConcatOfSingletons(files, inputs[1..]);
      assert Contents(files, inputs)[1..] == Contents(files, inputs[1..]);
    }
  }

  /**
   With a tool that joins lists, started on files that each hold their own name, merging by rounds
   gives the list of the inputs: every input is used exactly once, in order.
   */
  lemma InputsUsedOnceInOrder(size: nat, files: map<Path, seq<Path>>, inputs: seq<Path>)
    requires size > 1 && inputs != [] && Present(files, inputs) && forall p :: p in inputs ==> files[p] == [p]
    ensures LevelMerge(FoldTool(Join), size, Contents(files, inputs)) == Some(inputs)
  {
    forall a, b, c
      ensures Join(Join(a, b), c) == Join(a, Join(b, c))
    {
      assert a + b + c == a + (b + c);
    }
    AssociativeMerge(Join, size, Contents(files, inputs));
    FoldOfJoin(Contents(files, inputs));
    ConcatOfSingletons(files, inputs);
  }
}
