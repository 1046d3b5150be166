/**
 Generating test triples (pre state, block, post state or error) from a case made of blocks.

 The converters and eth2spec are arbitrary functions. Directories that are already in the output are part
 of the input: a complete one is skipped, and the state that its block leads to is not recovered.
 */
module TestGeneration {
  import opened Sequences
  import opened Wrappers

  datatype Tools<!J, !K, !S, !B> = Tools(
    stateToJson: S -> Option<J>,
    blockToJson: B -> Option<K>,
    eth2spec: (S, B) -> Result<S, string>)

  /** A block file: `None` if it cannot be decompressed. */
  datatype File<B> = File(num: nat, data: Option<B>)

  datatype Block<B> = Block(num: nat, ssz: B)

  /** The directory of one triple, with the files in it. */
  datatype Dir<J, K> = Dir(pre: Option<J>, block: Option<K>, post: Option<J>, error: Option<string>)
  {
    /** `_should_skip_test` */
    predicate Complete() {
      pre.Some? && (post.Some? || error.Some?)
    }
  }

  /** What becomes of one block. */
  datatype Event<J, K, S> =
    | Skipped
    | Dropped
    | Positive(preSsz: S, pre: J, block: K, postSsz: S, post: J)
    | Negative(preSsz: S, pre: J, block: K, text: string)
  {
    predicate Emits() {
      Positive? || Negative?
    }
  }

  function NumberOf<B>(block: Block<B>): nat {
    block.num
  }

  function FileNumber<B>(file: File<B>): nat {
    file.num
  }

  /************************************* The run *************************************/

  function ErrorText(text: string): (r: string)
    ensures r != "" && (text != "" ==> r == text)
  {
    if text == "" then "Unknown error" else text
  }

  /** The post state of a block: the case's own if it is `given`, eth2spec's otherwise. */
  function PostOf<J, K, S, B>(tools: Tools<J, K, S, B>, given: Option<S>, pre: S, block: B): Result<S, string> {
    match given
    case Some(post) => Ok(post)
    case None => tools.eth2spec(pre, block)
  }

  /** What becomes of a block, from the state before it; `done` are the blocks whose directories are complete. */
  function EventOf<J, K, S, B>(tools: Tools<J, K, S, B>, given: Option<S>, done: set<nat>)
    : (S, J, Block<B>) -> Event<J, K, S>
  {
    (preSsz: S, pre: J, block: Block<B>) =>
      if block.num in done then Skipped
      else
        match tools.blockToJson(block.ssz)
        case None => Dropped
        case Some(json) =>
          match PostOf(tools, given, preSsz, block.ssz)
          case Err(text) => Negative(preSsz, pre, json, ErrorText(text))
          case Ok(postSsz) =>
            match tools.stateToJson(postSsz)
            case None => Dropped
            case Some(post) => Positive(preSsz, pre, json, postSsz, post)
  }

  /** The events from the current pre state on: a positive one moves the state on, a negative one ends the run. */
  function Run<J, K, S, B>(event: (S, J, Block<B>) -> Event<J, K, S>, preSsz: S, pre: J,
        blocks: seq<Block<B>>)
    : (events: seq<Event<J, K, S>>)
    ensures |events| <= |blocks|
    decreases |blocks|, 0
  {
    if blocks == [] then []
    else
      var e := event(preSsz, pre, blocks[0]);
      [e] + RunAfter(event, e, preSsz, pre, blocks[1..])
  }

  function RunAfter<J, K, S, B>(event: (S, J, Block<B>) -> Event<J, K, S>, e: Event<J, K, S>, preSsz: S, pre: J,
        rest: seq<Block<B>>)
    : (events: seq<Event<J, K, S>>)
    ensures |events| <= |rest|
    decreases |rest|, 1
  {
    if e.Negative? then []
    else if e.Positive? then Run(event, e.postSsz, e.post, rest)
    else Run(event, preSsz, pre, rest)
  }

  function CountDropped<J, K, S>(events: seq<Event<J, K, S>>): (n: nat)
    ensures n <= |events|
  {
    if events == [] then 0
    else CountDropped(events[..|events| - 1]) + if events[|events| - 1].Dropped? then 1 else 0
  }

  /** The directory of a block after its event. Files that are not written stay as they are. */
  function DirAfter<J, K, S>(before: Option<Dir<J, K>>, e: Event<J, K, S>): Option<Dir<J, K>> {
    if e.Skipped? then before
    else
      var made := if before.Some? then before.value else Dir(None, None, None, None);
      match e
      case Positive(_, pre, block, _, post) => Some(made.(pre := Some(pre), block := Some(block), post := Some(post)))
      case Negative(_, pre, block, text) => Some(made.(pre := Some(pre), block := Some(block), error := Some(text)))
      case _ => Some(made)
  }

  function DirAt<J, K>(dirs: map<nat, Dir<J, K>>, num: nat): Option<Dir<J, K>> {
    if num in dirs then Some(dirs[num]) else None
  }

  function Put<J, K, S>(dirs: map<nat, Dir<J, K>>, num: nat, e: Event<J, K, S>): map<nat, Dir<J, K>> {
    match DirAfter(DirAt(dirs, num), e)
    case None => dirs
    case Some(dir) => dirs[num := dir]
  }

  /** Making the directory first does not change what an event leaves. */
  lemma PutIntoMade<J, K, S>(dirs: map<nat, Dir<J, K>>, num: nat, e: Event<J, K, S>)
    requires !e.Skipped?
    ensures var made := if num in dirs then dirs else dirs[num := Dir(None, None, None, None)];
            && Put(dirs, num, e) == Put(made, num, e)
            && (e.Dropped? ==> Put(dirs, num, e) == made)
  {
    if num in dirs {
      assert dirs[num := dirs[num]] == dirs;
    }
  }

  /** The output directory after the events. */
  function DirsAfter<J, K, S, B>(dirs: map<nat, Dir<J, K>>, blocks: seq<Block<B>>,
        events: seq<Event<J, K, S>>): map<nat, Dir<J, K>>
    requires |events| <= |blocks|
  {
    if events == [] then dirs
    else
      var last := |events| - 1;
      Put(DirsAfter(dirs, blocks, events[..last]), blocks[last].num, events[last])
  }

  /**
   Each block's directory depends on what was there before the run and on that block's event; the others
   are not touched.
   */
  lemma {:induction false} DirsAfterAt<J, K, S, B>(dirs: map<nat, Dir<J, K>>, blocks: seq<Block<B>>,
        events: seq<Event<J, K, S>>)
    requires |events| <= |blocks| && DistinctBy(blocks, NumberOf)
    ensures forall k :: 0 <= k < |events| ==>
              DirAt(DirsAfter(dirs, blocks, events), blocks[k].num) == DirAfter(DirAt(dirs, blocks[k].num), events[k])
    ensures forall num: nat :: (forall k :: 0 <= k < |events| ==> blocks[k].num != num) ==>
              DirAt(DirsAfter(dirs, blocks, events), num) == DirAt(dirs, num)
  {
    if events != [] {
      var last := |events| - 1;
      DirsAfterAt(dirs, blocks, events[..last]);
      forall k: nat | k < last
        ensures blocks[k].num != blocks[last].num
      {
        assert KeyAt(blocks, NumberOf, k) != KeyAt(blocks, NumberOf, last);
      }
    }
  }

  function CompleteIn<J, K>(dirs: map<nat, Dir<J, K>>): set<nat> {
    set num | num in dirs && dirs[num].Complete()
  }

  /** Whether the next block is skipped depends only on what was there before the run. */
  lemma NextUntouched<J, K, S, B>(dirs: map<nat, Dir<J, K>>, blocks: seq<Block<B>>, events: seq<Event<J, K, S>>)
    requires |events| < |blocks| && DistinctBy(blocks, NumberOf)
    ensures var num := blocks[|events|].num;
            num in CompleteIn(dirs) <==> num in CompleteIn(DirsAfter(dirs, blocks, events))
  {
    DirsAfterAt(dirs, blocks, events);
    forall k: nat | k < |events|
      ensures blocks[k].num != blocks[|events|].num
    {
      assert KeyAt(blocks, NumberOf, k) != KeyAt(blocks, NumberOf, |events|);
    }
    var num := blocks[|events|].num;
    assert DirAt(DirsAfter(dirs, blocks, events), num) == DirAt(dirs, num);
  }

  function Decompressed<B>(files: seq<File<B>>): (blocks: seq<Block<B>>)
    ensures |blocks| <= |files|
  {
    if files == [] then []
    else
      var last := files[|files| - 1];
      Decompressed(files[..|files| - 1]) + if last.data.Some? then [Block(last.num, last.data.value)] else []
  }

  /** The file holds this block. */
  ghost predicate Holds<B>(file: File<B>, block: Block<B>) {
    file.num == block.num && file.data == Some(block.ssz)
  }

  lemma {:induction false} DecompressedDistinct<B>(files: seq<File<B>>)
    requires DistinctBy(files, FileNumber)
    ensures DistinctBy(Decompressed(files), NumberOf)
    ensures forall b | b in Decompressed(files) :: exists i :: 0 <= i < |files| && Holds(files[i], b)
  {
    if files != [] {
      var front := files[..|files| - 1];
      DistinctFront(files, FileNumber, |front|);
      DecompressedDistinct(front);
      forall b | b in Decompressed(front)
        ensures b.num != files[|files| - 1].num
        ensures exists i :: 0 <= i < |files| && Holds(files[i], b)
      {
        var i :| 0 <= i < |front| && Holds(front[i], b);
        assert files[i] == front[i];
        DifferentKeys(files, FileNumber, i, |front|);
      }
      var blocks := Decompressed(files);
      forall i: nat, j: nat | i < j < |blocks|
        ensures KeyAt(blocks, NumberOf, i) != KeyAt(blocks, NumberOf, j)
      {
        assert Decompressed(front)[i] in Decompressed(front);
        if j < |Decompressed(front)| {
          DifferentKeys(Decompressed(front), NumberOf, i, j);
        }
      }
    }
  }

  /** File `i` is the only block file that decompresses. */
  ghost predicate OnlyReadable<B>(files: seq<File<B>>, i: nat) {
    i < |files| && forall k :: 0 <= k < |files| ==> (files[k].data.Some? <==> k == i)
  }

  lemma {:induction false} OneReadable<B>(files: seq<File<B>>, i: nat)
    requires OnlyReadable(files, i)
    ensures Decompressed(files) == [Block(files[i].num, files[i].data.value)]
  {
    var front := files[..|files| - 1];
    if i == |front| {
      NoneReadable(front);
    } else {
      OneReadable(front, i);
    }
  }

  lemma {:induction false} NoneReadable<B>(files: seq<File<B>>)
    requires forall k :: 0 <= k < |files| ==> files[k].data.None?
    ensures Decompressed(files) == []
  {
    if files != [] {
      NoneReadable(files[..|files| - 1]);
    }
  }

  function DirOrNew<J, K>(dirs: map<nat, Dir<J, K>>, num: nat): Dir<J, K> {
    if num in dirs then dirs[num] else Dir(None, None, None, None)
  }

  /** What a case of one block with its own post state leaves: that state as JSON, without any call of eth2spec. */
  lemma GivenPost<J, K, S, B>(tools: Tools<J, K, S, B>, dirs: map<nat, Dir<J, K>>, preSsz: S, pre: J,
        blocks: seq<Block<B>>, post: Option<S>)
    ensures post.Some? && |blocks| == 1 ==>
              var events := Run(EventOf(tools, post, CompleteIn(dirs)), preSsz, pre, blocks);
              var num, before := blocks[0].num, DirOrNew(dirs, blocks[0].num);
              var block, last := tools.blockToJson(blocks[0].ssz), tools.stateToJson(post.value);
              && |events| == 1
              && (DirsAfter(dirs, blocks, events), 1 - CountDropped(events)) ==
                 if before.pre.Some? && (before.post.Some? || before.error.Some?) then (dirs, 1)
                 else if block.None? || last.None? then (dirs[num := before], 0)
                 else (dirs[num := before.(pre := Some(pre), block := block, post := last)], 1)
  {
    if post.Some? && |blocks| == 1 {
      var event := EventOf(tools, post, CompleteIn(dirs));
      var e := event(preSsz, pre, blocks[0]);
      assert blocks[1..] == [];
      assert Run(event, preSsz, pre, blocks) == [e];
      assert [e][..0] == [];
      assert DirsAfter(dirs, blocks, [e]) == Put(dirs, blocks[0].num, e);
      assert blocks[0].num in dirs ==> dirs[blocks[0].num := dirs[blocks[0].num]] == dirs;
      assert CountDropped([e]) == if e.Dropped? then 1 else 0;
    }
  }

  /** The blocks are the files that decompress, in order: file `i` comes behind the readable ones before it. */
  lemma {:induction false} DecompressedAt<B>(files: seq<File<B>>, i: nat)
    requires i < |files| && files[i].data.Some?
    ensures var k := |Decompressed(files[..i])|;
            k < |Decompressed(files)| && Decompressed(files)[k] == Block(files[i].num, files[i].data.value)
    decreases |files|
  {
    var front := files[..|files| - 1];
    if i < |front| {
      DecompressedAt(front, i);
      assert front[..i] == files[..i];
    }
  }

  /** Converting one block and finding its post state or error: the part of the loop body before anything is written. */
  method MakeTriple<J, K, S, B>(tools: Tools<J, K, S, B>, postSsz: Option<S>, isSingleBlock: bool, currentPreSsz: S,
        currentPre: J, block: Block<B>, ghost given: Option<S>, ghost done: set<nat>)
        returns (e: Event<J, K, S>)
    requires given == (if isSingleBlock then postSsz else None) && block.num !in done
    ensures e == EventOf(tools, given, done)(currentPreSsz, currentPre, block)
  {
    var blockJson := tools.blockToJson(block.ssz);
    if blockJson.None? {
      return Dropped;
    }
    if isSingleBlock && postSsz.Some? {
      assert PostOf(tools, given, currentPreSsz, block.ssz) == Ok(postSsz.value);
      var post := tools.stateToJson(postSsz.value);
      if post.None? {
        return Dropped;
      }
      return Positive(currentPreSsz, currentPre, blockJson.value, postSsz.value, post.value);
    }
    var run := tools.eth2spec(currentPreSsz, block.ssz);
    assert run == PostOf(tools, given, currentPreSsz, block.ssz);
    if run.Err? {
      return Negative(currentPreSsz, currentPre, blockJson.value, ErrorText(run.error));
    }
    var post := tools.stateToJson(run.value);
    if post.None? {
      return Dropped;
    }
    return Positive(currentPreSsz, currentPre, blockJson.value, run.value, post.value);
  }

  /** The output directory for one case: its triples' directories by block number. */
  class CaseOutput<J, K> {
    var dirs: map<nat, Dir<J, K>>

    constructor (existing: map<nat, Dir<J, K>>)
      ensures dirs == existing
    {
      dirs := existing;
    }

    /** `case_output_dir.mkdir(parents=True, exist_ok=True)` */
    method MakeDir(num: nat)
      modifies this
      ensures dirs == if num in old(dirs) then old(dirs) else old(dirs)[num := Dir(None, None, None, None)]
    {
      if num !in dirs {
        dirs := dirs[num := Dir(None, None, None, None)];
      }
    }

    /** Copying the files of a triple into its directory. */
    method Write<S>(num: nat, triple: Event<J, K, S>)
      requires triple.Emits() && num in dirs
      modifies this
      ensures dirs == Put(old(dirs), num, triple)
      ensures var dir := old(dirs)[num].(pre := Some(triple.pre), block := Some(triple.block));
              dirs == old(dirs)[num := if triple.Negative? then dir.(error := Some(triple.text))
                                       else dir.(post := Some(triple.post))]
    {
      var dir := dirs[num].(pre := Some(triple.pre), block := Some(triple.block));
      if triple.Negative? {
        dirs := dirs[num := dir.(error := Some(triple.text))];
      } else {
        dirs := dirs[num := dir.(post := Some(triple.post))];
      }
    }

    /** The body of the loop for one block, up to the counters and the next pre state. */
    method ProcessBlock<S, B>(tools: Tools<J, K, S, B>, postSsz: Option<S>, isSingleBlock: bool, currentPreSsz: S,
          currentPre: J,
                              block: Block<B>, ghost given: Option<S>, ghost done: set<nat>) returns (e: Event<J, K, S>)
      requires given == if isSingleBlock then postSsz else None
      requires block.num in done <==> block.num in CompleteIn(dirs)
      modifies this
      ensures e == EventOf(tools, given, done)(currentPreSsz, currentPre, block)
      ensures dirs == Put(old(dirs), block.num, e)
    {
      var num := block.num;
      if num in dirs && dirs[num].Complete() {
        return Skipped;
      }
      ghost var untouched := dirs;
      MakeDir(num);
      e := MakeTriple(tools, postSsz, isSingleBlock, currentPreSsz, currentPre, block, given, done);
      PutIntoMade(untouched, num, e);
      if !e.Dropped? {
        Write(num, e);
      }
    }

    /** The loop over the blocks that could be decompressed. */
    method Generate<S, B>(tools: Tools<J, K, S, B>, initialSsz: S, initial: J, blocks: seq<Block<B>>,
          postSsz: Option<S>, ghost given: Option<S>)
      returns (generated: nat, errors: nat, ghost events: seq<Event<J, K, S>>)
      requires DistinctBy(blocks, NumberOf)
      requires given == if |blocks| == 1 then postSsz else None
      modifies this
      ensures events == Run(EventOf(tools, given, CompleteIn(old(dirs))), initialSsz, initial, blocks)
      ensures errors == CountDropped(events) && generated + errors == |events|
      ensures dirs == DirsAfter(old(dirs), blocks, events)
    {
      generated, errors, events := 0, 0, [];
      var currentPreSsz, currentPre := initialSsz, initial;
      var isSingleBlock := |blocks| == 1;
      ghost var dirs0, step := dirs, EventOf(tools, given, CompleteIn(dirs));
      ghost var goal := Run(step, initialSsz, initial, blocks);
      assert blocks[0..] == blocks;
      for i := 0 to |blocks|
        invariant |events| == i
        invariant events + Run(step, currentPreSsz, currentPre, blocks[i..]) == goal
        invariant errors == CountDropped(events) && generated + errors == |events|
        invariant dirs == DirsAfter(dirs0, blocks, events)
      {
        ghost var preSsz, pre := currentPreSsz, currentPre;
        NextUntouched(dirs0, blocks, events);
        var e := ProcessBlock(tools, postSsz, isSingleBlock, currentPreSsz, currentPre, blocks[i], given,
            CompleteIn(dirs0));
        if e.Positive? && !isSingleBlock {
          currentPreSsz, currentPre := e.postSsz, e.post;
        }
        NextEvent(step, preSsz, pre, blocks, i, events, e, currentPreSsz, currentPre);
        AddEvent(blocks, dirs0, events, e);
        events := events + [e];
        if e.Dropped? {
          errors := errors + 1;
        } else {
          generated := generated + 1;
        }
        if e.Negative? {
          break;
        }
      }
    }

    /** `process_block_test_case`. `pre` and `post` are `None` for a file that is missing or does not decompress. */
    method ProcessBlockTestCase<S, B>(tools: Tools<J, K, S, B>, pre: Option<S>, files: seq<File<B>>, post: Option<S>)
      returns (generated: nat, errors: nat, ghost events: seq<Event<J, K, S>>)
      requires DistinctBy(files, FileNumber)
      modifies this
      ensures var blocks := Decompressed(files);
              if pre.None? || files == [] then generated == 0 && errors == 1 && dirs == old(dirs)
              else if blocks == [] then generated == 0 && errors == |files| && dirs == old(dirs)
              else if tools.stateToJson(pre.value).None? then generated == 0 && errors == 1 && dirs == old(dirs)
              else
                && events == Run(EventOf(tools, if |blocks| == 1 then post else None, CompleteIn(old(dirs))),
                                 pre.value, tools.stateToJson(pre.value).value, blocks)
                && dirs == DirsAfter(old(dirs), blocks, events)
                && errors == CountDropped(events) + |files| - |blocks|
                && generated + errors == |events| + |files| - |blocks|
      ensures pre.Some? && post.Some? && tools.stateToJson(pre.value).Some? ==>
                forall i: nat :: OnlyReadable(files, i) ==>
                  var num, before := files[i].num, DirOrNew(old(dirs), files[i].num);
                  var block, last := tools.blockToJson(files[i].data.value), tools.stateToJson(post.value);
                  && errors == |files| - generated
                  && (dirs, generated) ==
                     if before.pre.Some? && (before.post.Some? || before.error.Some?) then (old(dirs), 1)
                     else if block.None? || last.None? then (old(dirs)[num := before], 0)
                     else
                       (old(dirs)[num := before.(pre := tools.stateToJson(pre.value), block := block, post := last)], 1)
    {
      events := [];
      if pre.None? || |files| == 0 {
        return 0, 1, events;
      }
      errors := 0;
      var blocks: seq<Block<B>> := [];
      for i := 0 to |files|
        invariant blocks == Decompressed(files[..i]) && errors + |blocks| == i
      {
        assert files[..i + 1][..i] == files[..i];
        if files[i].data.None? {
          errors := errors + 1;
          continue;
        }
        blocks := blocks + [Block(files[i].num, files[i].data.value)];
      }
      assert files[..|files|] == files;
      forall i: nat | OnlyReadable(files, i)
        ensures blocks == [Block(files[i].num, files[i].data.value)]
      {
        OneReadable(files, i);
      }
      if |blocks| == 0 {
        return 0, errors, events;
      }
      var preJson := tools.stateToJson(pre.value);
      if preJson.None? {
        return 0, 1, events;
      }
      DecompressedDistinct(files);
      var broken := errors;
      ghost var given := if |blocks| == 1 then post else None;
      generated, errors, events := Generate(tools, pre.value, preJson.value, blocks, post, given);
      errors := errors + broken;
      GivenPost(tools, old(dirs), pre.value, preJson.value, blocks, post);
    }
  }

  /** What one event more adds to the directories and to the count of errors. */
  lemma AddEvent<J, K, S, B>(blocks: seq<Block<B>>, dirs: map<nat, Dir<J, K>>, events: seq<Event<J, K, S>>,
        e: Event<J, K, S>)
    requires |events| < |blocks|
    ensures DirsAfter(dirs, blocks, events + [e]) == Put(DirsAfter(dirs, blocks, events), blocks[|events|].num, e)
    ensures CountDropped(events + [e]) == CountDropped(events) + (if e.Dropped? then 1 else 0)
  {
    assert (events + [e])[..|events|] == events;
  }

  /**
   A negative event ends the run, any other leads to the next block, from the state it leaves; behind the last
   block the state does not matter.
   */
  lemma NextEvent<J, K, S, B>(step: (S, J, Block<B>) -> Event<J, K, S>, preSsz: S, pre: J, blocks: seq<Block<B>>,
        i: nat, events: seq<Event<J, K, S>>, e: Event<J, K, S>, nextSsz: S, next: J)
    requires i < |blocks| && e == step(preSsz, pre, blocks[i])
    requires i + 1 < |blocks| && !e.Negative? ==>
               (nextSsz, next) == if e.Positive? then (e.postSsz, e.post) else (preSsz, pre)
    ensures events + Run(step, preSsz, pre, blocks[i..]) ==
            events + [e] + if e.Negative? then [] else Run(step, nextSsz, next, blocks[i + 1..])
  {
    TailFrom(blocks, i);
    Regroup(events, [e], RunAfter(step, e, preSsz, pre, blocks[i + 1..]));
    if i + 1 == |blocks| {
      assert blocks[i + 1..] == [];
    }
  }

  /*********************************** Chained triples ***********************************/

  /**
   The state that block `i` starts from: the post state of the last positive event before it, at first
   the case's pre state.
   */
  function StateAt<J, K, S>(events: seq<Event<J, K, S>>, preSsz: S, pre: J, i: nat): (S, J)
    requires i <= |events|
  {
    if i == 0 then (preSsz, pre)
    else if events[i - 1].Positive? then (events[i - 1].postSsz, events[i - 1].post)
    else StateAt(events, preSsz, pre, i - 1)
  }

  lemma {:induction false} StateAtCons<J, K, S>(events: seq<Event<J, K, S>>, preSsz: S, pre: J, i: nat)
    requires 0 < i <= |events|
    ensures StateAt(events, preSsz, pre, i) ==
            if events[0].Positive? then StateAt(events[1..], events[0].postSsz, events[0].post, i - 1)
            else StateAt(events[1..], preSsz, pre, i - 1)
  {
    if i > 1 {
      StateAtCons(events, preSsz, pre, i - 1);
    }
  }

  /**
   A run takes every block from the state that the positive events before it lead to, and ends early only
   with a negative event.
   */
  lemma {:induction false} RunIsChained<J, K, S, B>(event: (S, J, Block<B>) -> Event<J, K, S>, preSsz: S, pre: J,
        blocks: seq<Block<B>>, i: nat)
    ensures var events := Run(event, preSsz, pre, blocks);
            && (i < |events| ==> var (s, j) := StateAt(events, preSsz, pre, i); events[i] == event(s, j, blocks[i]))
            && (i + 1 < |events| ==> !events[i].Negative?)
            && (|events| < |blocks| ==> events != [] && events[|events| - 1].Negative?)
  {
    if blocks != [] {
      var events, e, rest := Run(event, preSsz, pre, blocks), event(preSsz, pre, blocks[0]), blocks[1..];
      assert events[0] == e && events[1..] == RunAfter(event, e, preSsz, pre, rest);
      if !e.Negative? {
        var s, j := if e.Positive? then e.postSsz else preSsz, if e.Positive? then e.post else pre;
        RunIsChained(event, s, j, rest, if i == 0 then 0 else i - 1);
        if 0 < i < |events| {
          StateAtCons(events, preSsz, pre, i);
        }
      }
    }
  }

  /**
   The triples of a case without directories from before. Block `i` starts from the post state of the last
   triple before it; a positive triple holds eth2spec's post state of that pre state and block, as JSON, a
   negative one comes last and holds its error.
   */
  lemma TriplesChain<J, K, S, B>(tools: Tools<J, K, S, B>, preSsz: S, pre: J, blocks: seq<Block<B>>, i: nat)
    requires i < |Run(EventOf(tools, None, {}), preSsz, pre, blocks)|
    ensures var events := Run(EventOf(tools, None, {}), preSsz, pre, blocks);
            var e, start, run := events[i], StateAt(events, preSsz, pre, i),
                tools.eth2spec(StateAt(events, preSsz, pre, i).0, blocks[i].ssz);
            && !e.Skipped?
            && (e.Emits() ==> e.preSsz == start.0 && e.pre == start.1)
            && (e.Emits() ==> tools.blockToJson(blocks[i].ssz) == Some(e.block))
            && (e.Positive? <==>
                  tools.blockToJson(blocks[i].ssz).Some? && run.Ok? && tools.stateToJson(run.value).Some?)
            && (e.Positive? ==> run == Ok(e.postSsz) && tools.stateToJson(e.postSsz) == Some(e.post))
            && (e.Negative? <==> tools.blockToJson(blocks[i].ssz).Some? && run.Err?)
            && (e.Negative? ==> i == |events| - 1 && e.text == ErrorText(run.error))
  {
    RunIsChained(EventOf(tools, None, {}), preSsz, pre, blocks, i);
    var (s, j) := StateAt(Run(EventOf(tools, None, {}), preSsz, pre, blocks), preSsz, pre, i);
    assert PostOf(tools, None, s, blocks[i].ssz) == tools.eth2spec(s, blocks[i].ssz);
  }

  /** Every pre state in a triple is the JSON of the bytes that eth2spec got. */
  lemma {:induction false} StatesMatchTheirJson<J, K, S, B>(tools: Tools<J, K, S, B>, done: set<nat>,
      preSsz: S, pre: J, blocks: seq<Block<B>>, i: nat)
    requires tools.stateToJson(preSsz) == Some(pre)
    requires i <= |Run(EventOf(tools, None, done), preSsz, pre, blocks)|
    ensures var (s, j) := StateAt(Run(EventOf(tools, None, done), preSsz, pre, blocks), preSsz, pre, i);
            tools.stateToJson(s) == Some(j)
  {
    if i > 0 {
      RunIsChained(EventOf(tools, None, done), preSsz, pre, blocks, i - 1);
      StatesMatchTheirJson(tools, done, preSsz, pre, blocks, i - 1);
    }
  }

  /**
   The files that a case leaves in an empty output. A positive triple's directory holds the pre state of the
   last triple before it, the block and eth2spec's post state, and no error; a negative one an error and no
   post state; that of a block without a triple is empty, and blocks behind a negative triple have none.
   */
  lemma FilesInEmptyOutput<J, K, S, B>(tools: Tools<J, K, S, B>, preSsz: S, pre: J, blocks: seq<Block<B>>, i: nat)
    requires DistinctBy(blocks, NumberOf) && i < |blocks|
    ensures var events := Run(EventOf(tools, None, {}), preSsz, pre, blocks);
            var dir := DirAt(DirsAfter(map[], blocks, events), blocks[i].num);
            if i >= |events| then dir == None && events[|events| - 1].Negative?
            else
              var (start, startJson) := StateAt(events, preSsz, pre, i);
              var run := tools.eth2spec(start, blocks[i].ssz);
              && dir.Some?
              && (dir.value.Complete() <==> events[i].Emits())
              && (dir.value.Complete() ==> dir.value.pre == Some(startJson))
              && (dir.value.Complete() ==> dir.value.block == tools.blockToJson(blocks[i].ssz))
              && (dir.value.post.Some? ==> run.Ok? && dir.value.post == tools.stateToJson(run.value))
              && (dir.value.error.Some? ==> run.Err? && dir.value.error == Some(ErrorText(run.error)))
              && (dir.value.post == None || dir.value.error == None)
              && (!dir.value.Complete() ==> dir.value == Dir(None, None, None, None))
  {
    var events := Run(EventOf(tools, None, {}), preSsz, pre, blocks);
    DirsAfterAt(map[], blocks, events);
    if i < |events| {
      TriplesChain(tools, preSsz, pre, blocks, i);
      assert DirAt(DirsAfter(map[], blocks, events), blocks[i].num) == DirAfter(None, events[i]);
    } else {
      RunIsChained(EventOf(tools, None, {}), preSsz, pre, blocks, i);
      forall k | 0 <= k < |events|
        ensures blocks[k].num != blocks[i].num
      {
        assert KeyAt(blocks, NumberOf, k) != KeyAt(blocks, NumberOf, i);
      }
    }
  }

  function Emitted<J, K, S>(events: seq<Event<J, K, S>>): seq<Event<J, K, S>> {
    if events == [] then []
    else (if events[0].Emits() then [events[0]] else []) + Emitted(events[1..])
  }

  /** The blocks whose events emit a triple. */
  function Kept<J, K, S, B>(blocks: seq<Block<B>>, events: seq<Event<J, K, S>>): seq<Block<B>>
    requires |events| <= |blocks|
  {
    if events == [] then []
    else (if events[0].Emits() then [blocks[0]] else []) + Kept(blocks[1..], events[1..])
  }

  /** Skipped and dropped blocks might as well not be in the case: the triples are those of the other blocks alone. */
  lemma {:induction false} OtherBlocksAlone<J, K, S, B>(event: (S, J, Block<B>) -> Event<J, K, S>, preSsz: S, pre: J,
        blocks: seq<Block<B>>)
    ensures var events := Run(event, preSsz, pre, blocks);
            Emitted(events) == Run(event, preSsz, pre, Kept(blocks, events))
  {
    if blocks != [] {
      var events, e, rest := Run(event, preSsz, pre, blocks), event(preSsz, pre, blocks[0]), blocks[1..];
      assert events[0] == e && events[1..] == RunAfter(event, e, preSsz, pre, rest);
      var kept := Kept(rest, events[1..]);
      if e.Positive? {
        OtherBlocksAlone(event, e.postSsz, e.post, rest);
      } else if !e.Negative? {
        OtherBlocksAlone(event, preSsz, pre, rest);
      }
      if e.Emits() {
        assert ([blocks[0]] + kept)[1..] == kept;
        assert Kept(blocks, events) == [blocks[0]] + kept;
      } else {
        assert Kept(blocks, events) == kept;
      }
    }
  }

  /*************************** Directories from an earlier run ***************************/

  /**
   If the directories of the first `m` blocks are complete, the run goes on with block `m` from the
   case's pre state.
   */
  lemma {:induction false} SkippedBlocksLeadNowhere<J, K, S, B>(tools: Tools<J, K, S, B>, given: Option<S>,
        done: set<nat>, preSsz: S, pre: J, blocks: seq<Block<B>>, m: nat)
    requires m <= |blocks| && forall k :: 0 <= k < m ==> blocks[k].num in done
    ensures Run(EventOf(tools, given, done), preSsz, pre, blocks) ==
            seq(m, k => Event<J, K, S>.Skipped) + Run(EventOf(tools, given, done), preSsz, pre, blocks[m..])
  {
    if m == 0 {
      assert blocks[0..] == blocks;
    } else {
      SkippedBlocksLeadNowhere(tools, given, done, preSsz, pre, blocks[1..], m - 1);
      assert blocks[1..][m - 1..] == blocks[m..];
      var one, more := [Event<J, K, S>.Skipped], seq(m - 1, k => Event<J, K, S>.Skipped);
      assert seq(m, k => Event<J, K, S>.Skipped) == one + more;
      assert EventOf(tools, given, done)(preSsz, pre, blocks[0]).Skipped?;
      Regroup(one, more, Run(EventOf(tools, given, done), preSsz, pre, blocks[m..]));
    }
  }

  lemma EventsAgreeIff<J, K, S, B>(tools: Tools<J, K, S, B>, done: set<nat>, preSsz: S, pre: J, otherSsz: S,
        other: J, block: Block<B>)
    requires block.num !in done
    ensures var e, f := EventOf(tools, None, done)(preSsz, pre, block),
              EventOf(tools, None, {})(otherSsz, other, block);
            && (e.Emits() ==> e.preSsz == preSsz && e.pre == pre)
            && (f.Emits() ==> (e == f <==> (otherSsz, other) == (preSsz, pre)))
  {
  }

  /** The run of a case without directories from before. */
  function Whole<J, K, S, B>(tools: Tools<J, K, S, B>, preSsz: S, pre: J,
        blocks: seq<Block<B>>)
    : (events: seq<Event<J, K, S>>)
    ensures |events| <= |blocks|
  {
    Run(EventOf(tools, None, {}), preSsz, pre, blocks)
  }

  /** The run of the case when the directories of the blocks `done` are complete. */
  function Resumed<J, K, S, B>(tools: Tools<J, K, S, B>, done: set<nat>, preSsz: S, pre: J, blocks: seq<Block<B>>)
    : (events: seq<Event<J, K, S>>)
    ensures |events| <= |blocks|
  {
    Run(EventOf(tools, None, done), preSsz, pre, blocks)
  }

  /**
   The state that a resumed run has before block `i`: the post state of the last positive block before it
   that is not done.
   */
  function ResumedStateAt<J, K, S, B>(events: seq<Event<J, K, S>>, blocks: seq<Block<B>>, done: set<nat>, preSsz: S,
        pre: J, i: nat): (S, J)
    requires i <= |events| <= |blocks|
  {
    if i == 0 then (preSsz, pre)
    else if events[i - 1].Positive? && blocks[i - 1].num !in done then (events[i - 1].postSsz, events[i - 1].post)
    else ResumedStateAt(events, blocks, done, preSsz, pre, i - 1)
  }

  function At<T>(xs: seq<T>, i: nat): Option<T> {
    if i < |xs| then Some(xs[i]) else None
  }

  /** The resumed run does with every block that is not done what the run of the whole case did. */
  ghost predicate SameTriples<J, K, S, B>(resumed: seq<Event<J, K, S>>, events: seq<Event<J, K, S>>,
        blocks: seq<Block<B>>, done: set<nat>) {
    forall i: nat :: i < |blocks| && blocks[i].num !in done ==> At(resumed, i) == At(events, i)
  }

  /**
   Block `i` can be taken up again: it starts from the same state as in the run of the whole case, or was
   dropped there and is dropped from the other state too.
   */
  predicate Recovers<J(==), K, S(==), B>(tools: Tools<J, K, S, B>, events: seq<Event<J, K, S>>, blocks: seq<Block<B>>,
                                         done: set<nat>, preSsz: S, pre: J, i: nat)
    requires i < |events| <= |blocks|
  {
    var state := ResumedStateAt(events, blocks, done, preSsz, pre, i);
    if events[i].Emits() then state == StateAt(events, preSsz, pre, i)
    else EventOf(tools, None, {})(state.0, state.1, blocks[i]).Dropped?
  }

  /** No block is left behind a rejected block that is done: the resumed run would go on there. */
  ghost predicate StopsAlike<J, K, S, B>(events: seq<Event<J, K, S>>, blocks: seq<Block<B>>, done: set<nat>)
    requires |events| <= |blocks|
  {
    0 < |events| < |blocks| && blocks[|events| - 1].num in done ==>
      forall i :: |events| <= i < |blocks| ==> blocks[i].num in done
  }

  /** Block `i` of a resumed run that has gone as the run of the whole case so far. */
  lemma {:induction false} ResumedGoesOn<J, K, S, B>(tools: Tools<J, K, S, B>, done: set<nat>, preSsz: S, pre: J,
        blocks: seq<Block<B>>, i: nat)
    requires var events, resumed := Whole(tools, preSsz, pre, blocks), Resumed(tools, done, preSsz, pre, blocks);
             && i <= |events|
             && (forall k: nat :: k < i && blocks[k].num !in done ==> At(resumed, k) == At(events, k))
    ensures var events, resumed := Whole(tools, preSsz, pre, blocks), Resumed(tools, done, preSsz, pre, blocks);
            && i <= |resumed|
            && StateAt(resumed, preSsz, pre, i) == ResumedStateAt(events, blocks, done, preSsz, pre, i)
            && (i < |events| ==> i < |resumed|)
  {
    var events, resumed := Whole(tools, preSsz, pre, blocks), Resumed(tools, done, preSsz, pre, blocks);
    if i > 0 {
      ResumedGoesOn(tools, done, preSsz, pre, blocks, i - 1);
      RunIsChained(EventOf(tools, None, {}), preSsz, pre, blocks, i - 1);
      RunIsChained(EventOf(tools, None, done), preSsz, pre, blocks, i - 1);
      assert blocks[i - 1].num !in done ==> At(resumed, i - 1) == At(events, i - 1);
      assert blocks[i - 1].num in done ==> resumed[i - 1].Skipped?;
      if |resumed| == i < |blocks| {
        assert resumed[i - 1].Negative?;
        assert events[i - 1] == resumed[i - 1];
      }
    } else if |events| > 0 {
      assert |resumed| > 0;
    }
  }

  /** One event of the resumed run against the run of the whole case. */
  lemma RecoversIff<J, K, S, B>(tools: Tools<J, K, S, B>, done: set<nat>, preSsz: S, pre: J, blocks: seq<Block<B>>,
        i: nat)
    requires var events, resumed := Whole(tools, preSsz, pre, blocks), Resumed(tools, done, preSsz, pre, blocks);
             && i < |events| && blocks[i].num !in done
             && (forall k: nat :: k < i && blocks[k].num !in done ==> At(resumed, k) == At(events, k))
    ensures var events, resumed := Whole(tools, preSsz, pre, blocks), Resumed(tools, done, preSsz, pre, blocks);
            At(resumed, i) == At(events, i) <==> Recovers(tools, events, blocks, done, preSsz, pre, i)
  {
    var events := Whole(tools, preSsz, pre, blocks);
    ResumedGoesOn(tools, done, preSsz, pre, blocks, i);
    RunIsChained(EventOf(tools, None, {}), preSsz, pre, blocks, i);
    RunIsChained(EventOf(tools, None, done), preSsz, pre, blocks, i);
    var (s, j) := ResumedStateAt(events, blocks, done, preSsz, pre, i);
    var (t, l) := StateAt(events, preSsz, pre, i);
    EventsAgreeIff(tools, done, s, j, t, l, blocks[i]);
  }

  /**
   Resuming, for any set of blocks whose directories are complete. The triples that are still missing come out
   as in the run of the whole case exactly if every block that is not done can be taken up again, and the
   resumed run has no block left behind a rejected one.
   */
  lemma ResumedTriplesIff<J, K, S, B>(tools: Tools<J, K, S, B>, done: set<nat>, preSsz: S, pre: J,
        blocks: seq<Block<B>>)
    ensures var events, resumed := Whole(tools, preSsz, pre, blocks), Resumed(tools, done, preSsz, pre, blocks);
            SameTriples(resumed, events, blocks, done) <==>
              && (forall i: nat :: i < |events| && blocks[i].num !in done ==>
                   Recovers(tools, events, blocks, done, preSsz, pre, i))
              && StopsAlike(events, blocks, done)
  {
    var events, resumed := Whole(tools, preSsz, pre, blocks), Resumed(tools, done, preSsz, pre, blocks);
    if SameTriples(resumed, events, blocks, done) {
      forall i: nat | i < |events| && blocks[i].num !in done
        ensures Recovers(tools, events, blocks, done, preSsz, pre, i)
      {
        RecoversIff(tools, done, preSsz, pre, blocks, i);
      }
      SameTriplesStop(tools, done, preSsz, pre, blocks);
    }
    if (forall i: nat :: i < |events| && blocks[i].num !in done ==>
        Recovers(tools, events, blocks, done, preSsz, pre, i)) && StopsAlike(events, blocks, done) {
      RecoveredTriples(tools, done, preSsz, pre, blocks, |events|);
      NothingBehind(tools, done, preSsz, pre, blocks);
    }
  }

  lemma {:induction false} RecoveredTriples<J, K, S, B>(tools: Tools<J, K, S, B>, done: set<nat>, preSsz: S, pre: J,
        blocks: seq<Block<B>>, n: nat)
    requires var events := Whole(tools, preSsz, pre, blocks);
             && n <= |events|
             && forall i: nat :: i < n && blocks[i].num !in done ==>
                  Recovers(tools, events, blocks, done, preSsz, pre, i)
    ensures var events, resumed := Whole(tools, preSsz, pre, blocks), Resumed(tools, done, preSsz, pre, blocks);
            forall k: nat :: k < n && blocks[k].num !in done ==> At(resumed, k) == At(events, k)
  {
    if n > 0 {
      RecoveredTriples(tools, done, preSsz, pre, blocks, n - 1);
      if blocks[n - 1].num !in done {
        RecoversIff(tools, done, preSsz, pre, blocks, n - 1);
      }
    }
  }

  /** A resumed run that stops where the run of the whole case does has nothing behind that. */
  lemma NothingBehind<J, K, S, B>(tools: Tools<J, K, S, B>, done: set<nat>, preSsz: S, pre: J, blocks: seq<Block<B>>)
    requires var events, resumed := Whole(tools, preSsz, pre, blocks), Resumed(tools, done, preSsz, pre, blocks);
             && (forall k: nat :: k < |events| && blocks[k].num !in done ==> At(resumed, k) == At(events, k))
             && StopsAlike(events, blocks, done)
    ensures var events, resumed := Whole(tools, preSsz, pre, blocks), Resumed(tools, done, preSsz, pre, blocks);
            SameTriples(resumed, events, blocks, done)
  {
    var events, resumed := Whole(tools, preSsz, pre, blocks), Resumed(tools, done, preSsz, pre, blocks);
    forall i: nat | |events| <= i < |blocks| && blocks[i].num !in done
      ensures At(resumed, i) == At(events, i)
    {
      RunIsChained(EventOf(tools, None, {}), preSsz, pre, blocks, 0);
      var last := |events| - 1;
      assert blocks[last].num !in done;
      assert At(resumed, last) == At(events, last);
      RunIsChained(EventOf(tools, None, done), preSsz, pre, blocks, last);
    }
  }

  lemma SameTriplesStop<J, K, S, B>(tools: Tools<J, K, S, B>, done: set<nat>, preSsz: S, pre: J, blocks: seq<Block<B>>)
    requires var events, resumed := Whole(tools, preSsz, pre, blocks), Resumed(tools, done, preSsz, pre, blocks);
             SameTriples(resumed, events, blocks, done)
    ensures StopsAlike(Whole(tools, preSsz, pre, blocks), blocks, done)
  {
    var events, resumed := Whole(tools, preSsz, pre, blocks), Resumed(tools, done, preSsz, pre, blocks);
    if 0 < |events| < |blocks| && blocks[|events| - 1].num in done {
      ResumedGoesOn(tools, done, preSsz, pre, blocks, |events|);
      AllDoneBehind(tools, done, preSsz, pre, blocks, |events|, |blocks|);
    }
  }

  /** Behind a done block, a resumed run without further triples skips every block. */
  lemma {:induction false} AllDoneBehind<J, K, S, B>(tools: Tools<J, K, S, B>, done: set<nat>, preSsz: S, pre: J,
        blocks: seq<Block<B>>, m: nat, n: nat)
    requires 0 < m <= n <= |blocks| && blocks[m - 1].num in done
    requires var resumed := Resumed(tools, done, preSsz, pre, blocks);
             m <= |resumed| && forall i: nat :: m <= i < |blocks| && blocks[i].num !in done ==> At(resumed, i) == None
    ensures n <= |Resumed(tools, done, preSsz, pre, blocks)|
    ensures forall i :: m <= i < n ==> blocks[i].num in done
  {
    if n > m {
      AllDoneBehind(tools, done, preSsz, pre, blocks, m, n - 1);
      var resumed := Resumed(tools, done, preSsz, pre, blocks);
      RunIsChained(EventOf(tools, None, done), preSsz, pre, blocks, n - 2);
      assert resumed[n - 2].Skipped?;
      assert n - 1 < |resumed|;
      assert At(resumed, n - 1) == Some(resumed[n - 1]);
    }
  }

  /**
   Any block of any run, by the files in its directory before and after. It is skipped exactly if a pre state and
   an outcome are there, and files that its triple does not hold stay.
   */
  lemma FilesOfBlock<J, K, S, B>(tools: Tools<J, K, S, B>, given: Option<S>, dirs: map<nat, Dir<J, K>>,
        preSsz: S, pre: J, blocks: seq<Block<B>>, k: nat)
    requires DistinctBy(blocks, NumberOf) && k < |Run(EventOf(tools, given, CompleteIn(dirs)), preSsz, pre, blocks)|
    ensures var events := Run(EventOf(tools, given, CompleteIn(dirs)), preSsz, pre, blocks);
            var e, before, after := events[k], DirOrNew(dirs, blocks[k].num), DirsAfter(dirs, blocks, events);
            && blocks[k].num in after
            && (e.Skipped? <==> before.pre.Some? && (before.post.Some? || before.error.Some?))
            && after[blocks[k].num] ==
               if e.Positive? then before.(pre := Some(e.pre), block := Some(e.block), post := Some(e.post))
               else if e.Negative? then before.(pre := Some(e.pre), block := Some(e.block), error := Some(e.text))
               else before
  {
    var events := Run(EventOf(tools, given, CompleteIn(dirs)), preSsz, pre, blocks);
    RunIsChained(EventOf(tools, given, CompleteIn(dirs)), preSsz, pre, blocks, k);
    DirsAfterAt(dirs, blocks, events);
    assert DirAt(DirsAfter(dirs, blocks, events), blocks[k].num) == DirAfter(DirAt(dirs, blocks[k].num), events[k]);
  }

  /** The first `n` events that are dropped, by position. */
  ghost function DroppedAmong<J, K, S>(events: seq<Event<J, K, S>>, n: nat): set<nat>
    requires n <= |events|
  {
    set k: nat | k < n && events[k].Dropped?
  }

  lemma DroppedSnoc<J, K, S>(events: seq<Event<J, K, S>>, n: nat)
    requires n < |events|
    ensures |DroppedAmong(events, n + 1)| == |DroppedAmong(events, n)| + if events[n].Dropped? then 1 else 0
  {
    assert DroppedAmong(events, n + 1) == DroppedAmong(events, n) + if events[n].Dropped? then {n} else {};
  }

  /** The errors that a run counts are its dropped blocks. */
  lemma {:induction false} CountDroppedIs<J, K, S>(events: seq<Event<J, K, S>>, n: nat)
    requires n <= |events|
    ensures CountDropped(events[..n]) == |DroppedAmong(events, n)|
  {
    if n > 0 {
      CountDroppedIs(events, n - 1);
      DroppedSnoc(events, n - 1);
      assert events[..n][..n - 1] == events[..n - 1];
    }
  }

  /** Which directories are complete after a run: those that were, and those of the emitted triples. */
  lemma CompleteAfter<J, K, S, B>(tools: Tools<J, K, S, B>, given: Option<S>, dirs: map<nat, Dir<J, K>>,
      preSsz: S, pre: J, blocks: seq<Block<B>>, k: nat)
    requires DistinctBy(blocks, NumberOf) && k < |blocks|
    ensures var events := Run(EventOf(tools, given, CompleteIn(dirs)), preSsz, pre, blocks);
            blocks[k].num in CompleteIn(DirsAfter(dirs, blocks, events)) <==>
              if k < |events| then !events[k].Dropped? else blocks[k].num in CompleteIn(dirs)
  {
    var events := Run(EventOf(tools, given, CompleteIn(dirs)), preSsz, pre, blocks);
    DirsAfterAt(dirs, blocks, events);
    if k < |events| {
      RunIsChained(EventOf(tools, given, CompleteIn(dirs)), preSsz, pre, blocks, k);
      var before, after := DirAt(dirs, blocks[k].num), DirAt(DirsAfter(dirs, blocks, events), blocks[k].num);
      assert after == DirAfter(before, events[k]);
      assert blocks[k].num in CompleteIn(dirs) <==> before.Some? && before.value.Complete();
      assert blocks[k].num in CompleteIn(DirsAfter(dirs, blocks, events)) <==> after.Some? && after.value.Complete();
    } else {
      forall i | 0 <= i < |events|
        ensures blocks[i].num != blocks[k].num
      {
        assert KeyAt(blocks, NumberOf, i) != KeyAt(blocks, NumberOf, k);
      }
      assert DirAt(DirsAfter(dirs, blocks, events), blocks[k].num) == DirAt(dirs, blocks[k].num);
    }
  }

  ghost predicate AllSkipped<J, K, S>(events: seq<Event<J, K, S>>, n: nat) {
    |events| == n && forall k :: 0 <= k < n ==> events[k].Skipped?
  }

  /** A run skips everything exactly if every directory is complete. */
  lemma {:induction false} AllSkippedIff<J, K, S, B>(tools: Tools<J, K, S, B>, given: Option<S>, done: set<nat>,
      preSsz: S, pre: J, blocks: seq<Block<B>>)
    ensures AllSkipped(Run(EventOf(tools, given, done), preSsz, pre, blocks), |blocks|) <==>
              forall k :: 0 <= k < |blocks| ==> blocks[k].num in done
  {
    var events := Run(EventOf(tools, given, done), preSsz, pre, blocks);
    if forall k :: 0 <= k < |blocks| ==> blocks[k].num in done {
      SkippedBlocksLeadNowhere(tools, given, done, preSsz, pre, blocks, |blocks|);
      assert blocks[|blocks|..] == [];
    }
    if AllSkipped(events, |blocks|) {
      forall k | 0 <= k < |blocks|
        ensures blocks[k].num in done
      {
        RunIsChained(EventOf(tools, given, done), preSsz, pre, blocks, k);
        assert events[k].Skipped?;
      }
    }
  }

  /**
   Running a case again generates nothing new exactly if the first run dropped no block and left no
   incomplete directory behind a negative triple. In particular, a case that ended with a negative triple before
   its last block is not finished: a second run goes on behind the rejected block.
   */
  lemma RerunIff<J, K, S, B>(tools: Tools<J, K, S, B>, given: Option<S>, dirs: map<nat, Dir<J, K>>, preSsz: S,
        pre: J, blocks: seq<Block<B>>)
    requires DistinctBy(blocks, NumberOf)
    ensures var events := Run(EventOf(tools, given, CompleteIn(dirs)), preSsz, pre, blocks);
            var done := CompleteIn(DirsAfter(dirs, blocks, events));
            AllSkipped(Run(EventOf(tools, given, done), preSsz, pre, blocks), |blocks|) <==>
              && (forall k :: 0 <= k < |events| ==> !events[k].Dropped?)
              && (forall k :: |events| <= k < |blocks| ==> blocks[k].num in CompleteIn(dirs))
  {
    var events := Run(EventOf(tools, given, CompleteIn(dirs)), preSsz, pre, blocks);
    var done := CompleteIn(DirsAfter(dirs, blocks, events));
    AllSkippedIff(tools, given, done, preSsz, pre, blocks);
    forall k | 0 <= k < |blocks|
      ensures blocks[k].num in done <==> if k < |events| then !events[k].Dropped? else blocks[k].num in CompleteIn(dirs)
    {
      CompleteAfter(tools, given, dirs, preSsz, pre, blocks, k);
    }
  }

  /**
   What the second run does after a negative triple at block `m`: it tries the block behind it on the
   case's pre state.
   */
  lemma RerunGoesPastRejection<J, K, S, B>(tools: Tools<J, K, S, B>, dirs: map<nat, Dir<J, K>>, preSsz: S, pre: J,
        blocks: seq<Block<B>>, m: nat)
    requires DistinctBy(blocks, NumberOf) && CompleteIn(dirs) == {} && m + 1 < |blocks|
    requires var events := Whole(tools, preSsz, pre, blocks);
             |events| == m + 1 && events[m].Negative? && forall k :: 0 <= k < m ==> events[k].Positive?
    ensures var done := CompleteIn(DirsAfter(dirs, blocks, Whole(tools, preSsz, pre, blocks)));
            var again := Resumed(tools, done, preSsz, pre, blocks);
            m + 1 < |again| && again[m + 1] == EventOf(tools, None, {})(preSsz, pre, blocks[m + 1])
  {
    var events := Whole(tools, preSsz, pre, blocks);
    var done := CompleteIn(DirsAfter(dirs, blocks, events));
    forall k: nat | k <= m + 1
      ensures blocks[k].num in done <==> k <= m
    {
      CompleteAfter(tools, None, dirs, preSsz, pre, blocks, k);
    }
    SkippedBlocksLeadNowhere(tools, None, done, preSsz, pre, blocks, m + 1);
    assert blocks[m + 1..][0] == blocks[m + 1];
  }
}
