/**
 One test case of the test runner: SpecTec and eth2spec run over the blocks of the case, each from its
 own previous post state (or, in the independent mode, each from the case's pre state), and the two
 outcomes of every block are compared.

 The clients and converters are arbitrary functions. A client may fail with an empty error text, which
 the verdict reads as no error; a block's number is the text in its file name.
 */
module SequentialRun {
  import opened Sequences
  import opened Wrappers

  datatype Tools<!J, !K, !S, !B> = Tools(
    stateToJson: S -> Option<J>,
    blockToJson: B -> Option<K>,
    spectec: (J, K) -> Result<J, string>,
    toSsz: J -> Option<S>,
    eth2spec: (S, B) -> Result<S, string>)

  /** A block file: `None` if it cannot be decompressed. */
  datatype File<B> = File(num: string, data: Option<B>)

  /** A block in both of its forms. */
  datatype Block<K, B> = Block(num: string, json: K, ssz: B)

  /** What one client made of one block. */
  datatype Outcome<S> = Post(bytes: S) | Failed(text: string)

  /** The list of results and the dictionary of errors that a client's loop leaves behind. */
  datatype Log<S> = Log(results: seq<(string, S)>, errors: map<string, string>)

  datatype Verdict = NotRun | Compared(allMatch: bool, mismatched: set<string>, inconsistent: set<string>) {
    predicate Passed() {
      Compared? && allMatch
    }
  }

  function NumberOf<K, B>(block: Block<K, B>): string {
    block.num
  }

  function FileNumber<B>(file: File<B>): string {
    file.num
  }

  /************************************** Traces **************************************/

  function ConversionError(num: string): (text: string)
    ensures text != ""
  {
    "Failed to convert Spectec output " + num + " to SSZ"
  }

  /** What SpecTec made of one post state: its bytes, unless the converter rejects it. */
  function Converted<J, K, S, B>(tools: Tools<J, K, S, B>, num: string, post: J): Outcome<S> {
    match tools.toSsz(post)
    case Some(s) => Post(s)
    case None => Failed(ConversionError(num))
  }

  /** SpecTec's outcomes: the run stops at a failing block, but goes on past a post state that does not convert. */
  function SpectecTrace<J, K, S, B>(tools: Tools<J, K, S, B>, pre: J,
        blocks: seq<Block<K, B>>)
    : (trace: seq<Outcome<S>>)
    ensures |trace| <= |blocks|
  {
    if blocks == [] then []
    else
      match tools.spectec(pre, blocks[0].json)
      case Err(text) => [Failed(text)]
      case Ok(post) => [Converted(tools, blocks[0].num, post)] + SpectecTrace(tools, post, blocks[1..])
  }

  /** eth2spec's outcomes: the run stops at a failing block. */
  function Eth2specTrace<J, K, S, B>(tools: Tools<J, K, S, B>, pre: S,
        blocks: seq<Block<K, B>>)
    : (trace: seq<Outcome<S>>)
    ensures |trace| <= |blocks|
  {
    if blocks == [] then []
    else
      match tools.eth2spec(pre, blocks[0].ssz)
      case Err(text) => [Failed(text)]
      case Ok(post) => [Post(post)] + Eth2specTrace(tools, post, blocks[1..])
  }

  /** SpecTec's outcome when the block starts from the case's pre state. */
  function SpectecAlone<J, K, S, B>(tools: Tools<J, K, S, B>, pre: J, block: Block<K, B>): Outcome<S> {
    match tools.spectec(pre, block.json)
    case Err(text) => Failed(text)
    case Ok(post) => Converted(tools, block.num, post)
  }

  function Eth2specAlone<J, K, S, B>(tools: Tools<J, K, S, B>, pre: S, block: Block<K, B>): Outcome<S> {
    match tools.eth2spec(pre, block.ssz)
    case Err(text) => Failed(text)
    case Ok(post) => Post(post)
  }

  /** The outcomes of the independent mode, which stops at no failure. */
  function SpectecEach<J, K, S, B>(tools: Tools<J, K, S, B>, pre: J, blocks: seq<Block<K, B>>): (trace: seq<Outcome<S>>)
    ensures |trace| == |blocks|
  {
    seq(|blocks|, i requires 0 <= i < |blocks| => SpectecAlone(tools, pre, blocks[i]))
  }

  function Eth2specEach<J, K, S, B>(tools: Tools<J, K, S, B>, pre: S,
        blocks: seq<Block<K, B>>)
    : (trace: seq<Outcome<S>>)
    ensures |trace| == |blocks|
  {
    seq(|blocks|, i requires 0 <= i < |blocks| => Eth2specAlone(tools, pre, blocks[i]))
  }

  /************************************ Running the clients ************************************/

  function Add<S>(log: Log<S>, num: string, outcome: Outcome<S>): Log<S> {
    match outcome
    case Post(bytes) => log.(results := log.results + [(num, bytes)])
    case Failed(text) => log.(errors := log.errors[num := text])
  }

  function LogOf<K, S, B>(blocks: seq<Block<K, B>>, trace: seq<Outcome<S>>): Log<S>
    requires |trace| <= |blocks|
  {
    if trace == [] then Log([], map[])
    else
      var last := |trace| - 1;
      Add(LogOf(blocks, trace[..last]), blocks[last].num, trace[last])
  }

  lemma LogOfSnoc<K, S, B>(blocks: seq<Block<K, B>>, trace: seq<Outcome<S>>, outcome: Outcome<S>)
    requires |trace| < |blocks|
    ensures LogOf(blocks, trace + [outcome]) == Add(LogOf(blocks, trace), blocks[|trace|].num, outcome)
  {
    assert (trace + [outcome])[..|trace|] == trace;
  }

  lemma SpectecGoesOn<J, K, S, B>(tools: Tools<J, K, S, B>, pre: J, blocks: seq<Block<K, B>>, i: nat,
        trace: seq<Outcome<S>>)
    requires |trace| == i < |blocks|
    ensures var outcome, run := SpectecAlone(tools, pre, blocks[i]), tools.spectec(pre, blocks[i].json);
            && LogOf(blocks, trace + [outcome]) == Add(LogOf(blocks, trace), blocks[i].num, outcome)
            && trace + SpectecTrace(tools, pre, blocks[i..]) ==
               trace + [outcome] + if run.Ok? then SpectecTrace(tools, run.value, blocks[i + 1..]) else []
  {
    var outcome, run := SpectecAlone(tools, pre, blocks[i]), tools.spectec(pre, blocks[i].json);
    LogOfSnoc(blocks, trace, outcome);
    TailFrom(blocks, i);
    SpectecCons(tools, pre, blocks[i..]);
    Regroup(trace, [outcome], if run.Ok? then SpectecTrace(tools, run.value, blocks[i + 1..]) else []);
  }

  lemma SpectecCons<J, K, S, B>(tools: Tools<J, K, S, B>, pre: J, blocks: seq<Block<K, B>>)
    requires blocks != []
    ensures var run := tools.spectec(pre, blocks[0].json);
            SpectecTrace(tools, pre, blocks) ==
            [SpectecAlone(tools, pre, blocks[0])] + if run.Ok? then SpectecTrace(tools, run.value, blocks[1..]) else []
  {
  }

  lemma Eth2specCons<J, K, S, B>(tools: Tools<J, K, S, B>, pre: S, blocks: seq<Block<K, B>>)
    requires blocks != []
    ensures var run := tools.eth2spec(pre, blocks[0].ssz);
            Eth2specTrace(tools, pre, blocks) ==
            [Eth2specAlone(tools, pre, blocks[0])]
            + if run.Ok? then Eth2specTrace(tools, run.value, blocks[1..]) else []
  {
  }

  lemma Eth2specGoesOn<J, K, S, B>(tools: Tools<J, K, S, B>, pre: S, blocks: seq<Block<K, B>>, i: nat,
        trace: seq<Outcome<S>>)
    requires |trace| == i < |blocks|
    ensures var outcome, run := Eth2specAlone(tools, pre, blocks[i]), tools.eth2spec(pre, blocks[i].ssz);
            && LogOf(blocks, trace + [outcome]) == Add(LogOf(blocks, trace), blocks[i].num, outcome)
            && trace + Eth2specTrace(tools, pre, blocks[i..]) ==
               trace + [outcome] + if run.Ok? then Eth2specTrace(tools, run.value, blocks[i + 1..]) else []
  {
    var outcome, run := Eth2specAlone(tools, pre, blocks[i]), tools.eth2spec(pre, blocks[i].ssz);
    LogOfSnoc(blocks, trace, outcome);
    TailFrom(blocks, i);
    Eth2specCons(tools, pre, blocks[i..]);
    Regroup(trace, [outcome], if run.Ok? then Eth2specTrace(tools, run.value, blocks[i + 1..]) else []);
  }

  /** The chained SpecTec loop. */
  method RunSpectec<J, K, S, B>(tools: Tools<J, K, S, B>, pre: J, blocks: seq<Block<K, B>>) returns (log: Log<S>)
    ensures log == LogOf(blocks, SpectecTrace(tools, pre, blocks))
  {
    var results, errors := [], map[];
    var currentPre := pre;
    ghost var trace: seq<Outcome<S>>, goal := [], SpectecTrace(tools, pre, blocks);
    assert blocks[0..] == blocks;
    for i := 0 to |blocks|
      invariant |trace| == i && Log(results, errors) == LogOf(blocks, trace)
      invariant trace + SpectecTrace(tools, currentPre, blocks[i..]) == goal
    {
      SpectecGoesOn(tools, currentPre, blocks, i, trace);
      trace := trace + [SpectecAlone(tools, currentPre, blocks[i])];
      var run := tools.spectec(currentPre, blocks[i].json);
      if run.Err? {
        errors := errors[blocks[i].num := run.error];
        assert trace == goal;
        return Log(results, errors);
      }
      currentPre := run.value;
      var ssz := tools.toSsz(run.value);
      if ssz.None? {
        errors := errors[blocks[i].num := ConversionError(blocks[i].num)];
        continue;
      }
      results := results + [(blocks[i].num, ssz.value)];
    }
    log := Log(results, errors);
    assert blocks[|blocks|..] == [] && trace == goal;
  }

  /** The chained eth2spec loop. */
  method RunEth2spec<J, K, S, B>(tools: Tools<J, K, S, B>, pre: S, blocks: seq<Block<K, B>>) returns (log: Log<S>)
    ensures log == LogOf(blocks, Eth2specTrace(tools, pre, blocks))
  {
    var results, errors := [], map[];
    var currentPre := pre;
    ghost var trace: seq<Outcome<S>>, goal := [], Eth2specTrace(tools, pre, blocks);
    assert blocks[0..] == blocks;
    for i := 0 to |blocks|
      invariant |trace| == i && Log(results, errors) == LogOf(blocks, trace)
      invariant trace + Eth2specTrace(tools, currentPre, blocks[i..]) == goal
    {
      Eth2specGoesOn(tools, currentPre, blocks, i, trace);
      trace := trace + [Eth2specAlone(tools, currentPre, blocks[i])];
      var run := tools.eth2spec(currentPre, blocks[i].ssz);
      if run.Err? {
        errors := errors[blocks[i].num := run.error];
        assert trace == goal;
        return Log(results, errors);
      }
      currentPre := run.value;
      results := results + [(blocks[i].num, run.value)];
    }
    log := Log(results, errors);
    assert blocks[|blocks|..] == [] && trace == goal;
  }

  /** The SpecTec loop of the independent mode: every block starts from `pre`. */
  method RunSpectecAlone<J, K, S, B>(tools: Tools<J, K, S, B>, pre: J, blocks: seq<Block<K, B>>) returns (log: Log<S>)
    ensures log == LogOf(blocks, SpectecEach(tools, pre, blocks))
  {
    var results, errors := [], map[];
    ghost var all := SpectecEach(tools, pre, blocks);
    for i := 0 to |blocks|
      invariant Log(results, errors) == LogOf(blocks, all[..i])
    {
      assert all[..i + 1] == all[..i] + [all[i]];
      LogOfSnoc(blocks, all[..i], all[i]);
      var run := tools.spectec(pre, blocks[i].json);
      if run.Err? {
        errors := errors[blocks[i].num := run.error];
        continue;
      }
      var ssz := tools.toSsz(run.value);
      if ssz.None? {
        errors := errors[blocks[i].num := ConversionError(blocks[i].num)];
        continue;
      }
      results := results + [(blocks[i].num, ssz.value)];
    }
    assert all[..|blocks|] == all;
    log := Log(results, errors);
  }

  /** The eth2spec loop of the independent mode. */
  method RunEth2specAlone<J, K, S, B>(tools: Tools<J, K, S, B>, pre: S, blocks: seq<Block<K, B>>) returns (log: Log<S>)
    ensures log == LogOf(blocks, Eth2specEach(tools, pre, blocks))
  {
    var results, errors := [], map[];
    ghost var all := Eth2specEach(tools, pre, blocks);
    for i := 0 to |blocks|
      invariant Log(results, errors) == LogOf(blocks, all[..i])
    {
      assert all[..i + 1] == all[..i] + [all[i]];
      LogOfSnoc(blocks, all[..i], all[i]);
      var run := tools.eth2spec(pre, blocks[i].ssz);
      if run.Err? {
        errors := errors[blocks[i].num := run.error];
        continue;
      }
      results := results + [(blocks[i].num, run.value)];
    }
    assert all[..|blocks|] == all;
    log := Log(results, errors);
  }

  /************************************** The verdict **************************************/

  /** The first result of a block. */
  function Find<S>(results: seq<(string, S)>, num: string): Option<S> {
    if results == [] then None
    else if results[0].0 == num then Some(results[0].1)
    else Find(results[1..], num)
  }

  /** `errors.get(num)` as a condition: an empty text counts as no error. */
  predicate HasError(errors: map<string, string>, num: string) {
    num in errors && errors[num] != ""
  }

  function At<S>(trace: seq<Outcome<S>>, i: nat): Option<Outcome<S>> {
    if i < |trace| then Some(trace[i]) else None
  }

  /** Both clients reached a post state, and the bytes differ. */
  predicate PostsDiffer<S(==)>(x: Option<Outcome<S>>, y: Option<Outcome<S>>) {
    x.Some? && y.Some? && x.value.Post? && y.value.Post? && x.value != y.value
  }

  /** Both clients report an error. */
  predicate BothFailed<S>(x: Option<Outcome<S>>, y: Option<Outcome<S>>) {
    x.Some? && y.Some? && x.value.Failed? && y.value.Failed? && x.value.text != "" && y.value.text != ""
  }

  predicate BothPosts<S>(x: Option<Outcome<S>>, y: Option<Outcome<S>>) {
    x.Some? && y.Some? && x.value.Post? && y.value.Post?
  }

  /** The two outcomes of a block agree. */
  predicate Agree<S(==)>(x: Outcome<S>, y: Outcome<S>) {
    if x.Post? && y.Post? then x == y else x.Failed? && y.Failed? && x.text != "" && y.text != ""
  }

  /** The clients got through the same blocks, and agree on each. */
  ghost predicate Consistent<S>(a: seq<Outcome<S>>, b: seq<Outcome<S>>) {
    |a| == |b| && forall i :: 0 <= i < |a| ==> Agree(a[i], b[i])
  }

  lemma {:induction false} FindSnoc<S>(results: seq<(string, S)>, num: string, bytes: S, k: string)
    ensures Find(results + [(num, bytes)], k) ==
            if Find(results, k).Some? then Find(results, k) else if k == num then Some(bytes) else None
  {
    if results != [] {
      assert (results + [(num, bytes)])[1..] == results[1..] + [(num, bytes)];
      FindSnoc(results[1..], num, bytes, k);
    } else {
      assert (results + [(num, bytes)])[1..] == [];
    }
  }

  /** What the log holds for block `i`: its outcome, or nothing if the client did not get there. */
  lemma {:induction false} LogHolds<K, S, B>(blocks: seq<Block<K, B>>, trace: seq<Outcome<S>>, i: nat)
    requires DistinctBy(blocks, NumberOf) && |trace| <= |blocks| && i < |blocks|
    ensures var log, num, outcome := LogOf(blocks, trace), blocks[i].num, At(trace, i);
            && Find(log.results, num) ==
               (if outcome.Some? && outcome.value.Post? then Some(outcome.value.bytes) else None)
            && (num in log.errors <==> outcome.Some? && outcome.value.Failed?)
            && (num in log.errors ==> log.errors[num] == outcome.value.text)
    decreases |trace|
  {
    if trace != [] {
      var last := |trace| - 1;
      LogHolds(blocks, trace[..last], i);
      if i != last {
        DifferentKeys(blocks, NumberOf, i, last);
      }
      var before := LogOf(blocks, trace[..last]);
      if trace[last].Post? {
        FindSnoc(before.results, blocks[last].num, trace[last].bytes, blocks[i].num);
      }
    }
  }

  function Numbers<S>(log: Log<S>): set<string> {
    (set i | 0 <= i < |log.results| :: log.results[i].0) + log.errors.Keys
  }

  /** The numbers in the log are those of the blocks that the client got to. */
  lemma {:induction false} LoggedNumbers<K, S, B>(blocks: seq<Block<K, B>>, trace: seq<Outcome<S>>)
    requires |trace| <= |blocks|
    ensures Numbers(LogOf(blocks, trace)) == set i | 0 <= i < |trace| :: blocks[i].num
  {
    if trace != [] {
      var last := |trace| - 1;
      LoggedNumbers(blocks, trace[..last]);
      var before, after := LogOf(blocks, trace[..last]), LogOf(blocks, trace);
      assert Numbers(after) == Numbers(before) + {blocks[last].num} by {
        if trace[last].Post? {
          var r := (blocks[last].num, trace[last].bytes);
          assert after.results == before.results + [r];
          assert forall k :: 0 <= k < |before.results| ==> after.results[k] == before.results[k];
          assert after.results[|before.results|] == r;
        }
      }
      assert (set i | 0 <= i < |trace| :: blocks[i].num)
          == (set i | 0 <= i < last :: blocks[i].num) + {blocks[last].num};
    }
  }

  predicate Inconsistent<S>(x: Option<Outcome<S>>, y: Option<Outcome<S>>) {
    (x.Some? || y.Some?) && !BothPosts(x, y) && !BothFailed(x, y)
  }

  /** The comparison of one block, in the order in which the code tests the errors and results. */
  method CompareBlock<S(==)>(num: string, spectec: Log<S>, eth2spec: Log<S>)
        returns (mismatch: bool, inconsistency: bool)
    ensures !(mismatch && inconsistency)
    ensures mismatch <==>
            && !HasError(spectec.errors, num) && !HasError(eth2spec.errors, num)
            && Find(spectec.results, num).Some? && Find(eth2spec.results, num).Some?
            && Find(spectec.results, num) != Find(eth2spec.results, num)
    ensures inconsistency <==>
            || HasError(spectec.errors, num) != HasError(eth2spec.errors, num)
            || (!HasError(spectec.errors, num)
                && (Find(spectec.results, num).None? || Find(eth2spec.results, num).None?))
  {
    mismatch, inconsistency := false, false;
    var spectecRes, eth2specRes := Find(spectec.results, num), Find(eth2spec.results, num);
    var spectecError, eth2specError := HasError(spectec.errors, num), HasError(eth2spec.errors, num);
    if spectecError && eth2specError {
    } else if spectecError {
      inconsistency := true;
    } else if eth2specError {
      inconsistency := true;
    } else if spectecRes.Some? && eth2specRes.Some? {
      mismatch := spectecRes.value != eth2specRes.value;
    } else {
      inconsistency := true;
    }
  }

  /** The block that a number in the logs belongs to. */
  ghost function BlockOf<K, S, B>(blocks: seq<Block<K, B>>, a: seq<Outcome<S>>, b: seq<Outcome<S>>,
        num: string): (k: nat)
    requires |a| <= |blocks| && |b| <= |blocks|
    requires num in Numbers(LogOf(blocks, a)) + Numbers(LogOf(blocks, b))
    ensures (k < |a| || k < |b|) && k < |blocks| && blocks[k].num == num
  {
    LoggedNumbers(blocks, a);
    LoggedNumbers(blocks, b);
    var k :| 0 <= k < |blocks| && blocks[k].num == num && (k < |a| || k < |b|);
    k
  }

  /** The numbers of the blocks, outside `pending`, on which both clients reached a post state and the bytes differ. */
  ghost function Mismatched<K, S, B>(blocks: seq<Block<K, B>>, a: seq<Outcome<S>>, b: seq<Outcome<S>>,
        pending: set<string>): set<string> {
    set i | 0 <= i < |blocks| && PostsDiffer(At(a, i), At(b, i)) && blocks[i].num !in pending :: blocks[i].num
  }

  /**
   The numbers of the blocks, outside `pending`, that a client got to without the two agreeing on success
   or failure.
   */
  ghost function Inconsistencies<K, S, B>(blocks: seq<Block<K, B>>, a: seq<Outcome<S>>, b: seq<Outcome<S>>,
        pending: set<string>): set<string> {
    set i | 0 <= i < |blocks| && Inconsistent(At(a, i), At(b, i)) && blocks[i].num !in pending :: blocks[i].num
  }

  lemma VisitOne<K, S, B>(blocks: seq<Block<K, B>>, a: seq<Outcome<S>>, b: seq<Outcome<S>>,
        pending: set<string>, k: nat)
    requires DistinctBy(blocks, NumberOf) && k < |blocks| && blocks[k].num in pending
    ensures var num, rest := blocks[k].num, pending - {blocks[k].num};
            && Mismatched(blocks, a, b, rest) ==
               Mismatched(blocks, a, b, pending) + (if PostsDiffer(At(a, k), At(b, k)) then {num} else {})
            && Inconsistencies(blocks, a, b, rest) ==
               Inconsistencies(blocks, a, b, pending) + (if Inconsistent(At(a, k), At(b, k)) then {num} else {})
  {
    var num := blocks[k].num;
    forall i | 0 <= i < |blocks| && i != k
      ensures blocks[i].num in pending - {num} <==> blocks[i].num in pending
    {
      DifferentKeys(blocks, NumberOf, i, k);
    }
  }

  /** All the numbers of the logs are still to be visited, so nothing is listed yet. */
  lemma NothingVisited<K, S, B>(blocks: seq<Block<K, B>>, a: seq<Outcome<S>>, b: seq<Outcome<S>>)
    requires |a| <= |blocks| && |b| <= |blocks|
    ensures var all := Numbers(LogOf(blocks, a)) + Numbers(LogOf(blocks, b));
            Mismatched(blocks, a, b, all) == {} && Inconsistencies(blocks, a, b, all) == {}
  {
    LoggedNumbers(blocks, a);
    LoggedNumbers(blocks, b);
  }

  lemma NothingListed<K, S, B>(blocks: seq<Block<K, B>>, a: seq<Outcome<S>>, b: seq<Outcome<S>>)
    requires |a| <= |blocks| && |b| <= |blocks|
    ensures Mismatched(blocks, a, b, {}) == {} && Inconsistencies(blocks, a, b, {}) == {} <==> Consistent(a, b)
  {
    var m, n := Mismatched(blocks, a, b, {}), Inconsistencies(blocks, a, b, {});
    forall i | 0 <= i < |blocks|
      ensures PostsDiffer(At(a, i), At(b, i)) ==> blocks[i].num in m
      ensures Inconsistent(At(a, i), At(b, i)) ==> blocks[i].num in n
    {
    }
    if m == {} && n == {} {
      if |a| < |b| {
        assert Inconsistent(At(a, |a|), At(b, |a|));
      } else if |b| < |a| {
        assert Inconsistent(At(a, |b|), At(b, |b|));
      }
      forall i | 0 <= i < |a|
        ensures Agree(a[i], b[i])
      {
        assert !PostsDiffer(At(a, i), At(b, i)) && !Inconsistent(At(a, i), At(b, i));
      }
    }
  }

  /**
   The comparison loop. It visits every block that a client got to; the order of the visits shows only in
   the message.
   */
  method Compare<K, S(==), B>(ghost blocks: seq<Block<K, B>>, ghost a: seq<Outcome<S>>, ghost b: seq<Outcome<S>>,
                              spectec: Log<S>, eth2spec: Log<S>) returns (verdict: Verdict)
    requires DistinctBy(blocks, NumberOf) && |a| <= |blocks| && |b| <= |blocks|
    requires spectec == LogOf(blocks, a) && eth2spec == LogOf(blocks, b)
    ensures verdict.Compared?
    ensures verdict.mismatched == Mismatched(blocks, a, b, {})
    ensures verdict.inconsistent == Inconsistencies(blocks, a, b, {})
    ensures verdict.Passed() <==> Consistent(a, b)
  {
    var allMatch, mismatched, inconsistent := true, {}, {};
    var pending := Numbers(spectec) + Numbers(eth2spec);
    NothingVisited(blocks, a, b);
    while pending != {}
      invariant pending <= Numbers(spectec) + Numbers(eth2spec)
      invariant mismatched == Mismatched(blocks, a, b, pending)
      invariant inconsistent == Inconsistencies(blocks, a, b, pending)
      invariant allMatch <==> mismatched == {} && inconsistent == {}
    {
      var num :| num in pending;
      ghost var k := BlockOf(blocks, a, b, num);
      LogHolds(blocks, a, k);
      LogHolds(blocks, b, k);
      VisitOne(blocks, a, b, pending, k);
      var mismatch, inconsistency := CompareBlock(num, spectec, eth2spec);
      pending := pending - {num};
      if mismatch {
        allMatch, mismatched := false, mismatched + {num};
      }
      if inconsistency {
        allMatch, inconsistent := false, inconsistent + {num};
      }
    }
    verdict := Compared(allMatch, mismatched, inconsistent);
    NothingListed(blocks, a, b);
  }

  /************************************* The test case *************************************/

  ghost predicate AllDecompress<B>(files: seq<File<B>>) {
    forall i :: 0 <= i < |files| ==> files[i].data.Some?
  }

  /** The case can be run: its files decompress and convert, and there is a block. */
  ghost predicate Ready<J, K, S, B>(tools: Tools<J, K, S, B>, pre: Option<S>, files: seq<File<B>>) {
    && pre.Some? && files != [] && AllDecompress(files)
    && tools.stateToJson(pre.value).Some?
    && forall i :: 0 <= i < |files| ==> tools.blockToJson(files[i].data.value).Some?
  }

  ghost predicate Prepared<J, K, S, B>(tools: Tools<J, K, S, B>, files: seq<File<B>>, blocks: seq<Block<K, B>>) {
    && |blocks| == |files|
    && forall i :: 0 <= i < |files| ==>
         && blocks[i].num == files[i].num && files[i].data == Some(blocks[i].ssz)
         && tools.blockToJson(blocks[i].ssz) == Some(blocks[i].json)
  }

  lemma PreparedDistinct<J, K, S, B>(tools: Tools<J, K, S, B>, files: seq<File<B>>, blocks: seq<Block<K, B>>)
    requires DistinctBy(files, FileNumber) && Prepared(tools, files, blocks)
    ensures DistinctBy(blocks, NumberOf)
  {
    forall i: nat, j: nat | i < j < |blocks|
      ensures KeyAt(blocks, NumberOf, i) != KeyAt(blocks, NumberOf, j)
    {
      DifferentKeys(files, FileNumber, i, j);
    }
  }

  /**
   Decompressing and converting the files, which both modes start with. `pre` is `None` if it is missing
   or broken.
   */
  method Prepare<J, K, S, B>(tools: Tools<J, K, S, B>, pre: Option<S>, files: seq<File<B>>)
    returns (ready: Option<(J, seq<Block<K, B>>)>)
    ensures ready.Some? <==> Ready(tools, pre, files)
    ensures ready.Some? ==> tools.stateToJson(pre.value) == Some(ready.value.0) && Prepared(tools, files, ready.value.1)
  {
    if pre.None? || |files| == 0 {
      return None;
    }
    var blockSszFiles: seq<(string, B)> := [];
    for i := 0 to |files|
      invariant |blockSszFiles| == i
      invariant forall k :: 0 <= k < i ==>
                  files[k].data == Some(blockSszFiles[k].1) && files[k].num == blockSszFiles[k].0
    {
      if files[i].data.None? {
        return None;
      }
      blockSszFiles := blockSszFiles + [(files[i].num, files[i].data.value)];
    }
    var preJson := tools.stateToJson(pre.value);
    if preJson.None? {
      return None;
    }
    var blocks: seq<Block<K, B>> := [];
    for i := 0 to |blockSszFiles|
      invariant |blocks| == i
      invariant forall k :: 0 <= k < i ==>
        && blocks[k].num == files[k].num && files[k].data == Some(blocks[k].ssz)
        && tools.blockToJson(blocks[k].ssz) == Some(blocks[k].json)
    {
      var json := tools.blockToJson(blockSszFiles[i].1);
      if json.None? {
        return None;
      }
      blocks := blocks + [Block(blockSszFiles[i].0, json.value, blockSszFiles[i].1)];
    }
    return Some((preJson.value, blocks));
  }

  /** What the sequential mode promises: the clients' two chains are consistent. */
  ghost predicate ChainsAgree<J, K, S, B>(tools: Tools<J, K, S, B>, preJson: J, pre: S, blocks: seq<Block<K, B>>) {
    Consistent(SpectecTrace(tools, preJson, blocks), Eth2specTrace(tools, pre, blocks))
  }

  /** What the independent mode promises: the clients agree on every block, run from the case's pre state. */
  ghost predicate EachAgrees<J, K, S, B>(tools: Tools<J, K, S, B>, preJson: J, pre: S, blocks: seq<Block<K, B>>) {
    forall i :: 0 <= i < |blocks| ==>
      Agree(SpectecAlone(tools, preJson, blocks[i]), Eth2specAlone(tools, pre, blocks[i]))
  }

  /** `process_test_case_sequential`. */
  method ProcessSequential<J, K, S(==), B>(tools: Tools<J, K, S, B>, pre: Option<S>, files: seq<File<B>>)
    returns (verdict: Verdict, ghost preJson: Option<J>, ghost blocks: seq<Block<K, B>>)
    requires DistinctBy(files, FileNumber)
    ensures verdict.Compared? <==> Ready(tools, pre, files)
    ensures verdict.Compared? ==>
      && preJson.Some? && tools.stateToJson(pre.value) == preJson && Prepared(tools, files, blocks)
      && (verdict.Passed() <==> ChainsAgree(tools, preJson.value, pre.value, blocks))
      && var a, b := SpectecTrace(tools, preJson.value, blocks), Eth2specTrace(tools, pre.value, blocks);
      && verdict.mismatched == Mismatched(blocks, a, b, {})
      && verdict.inconsistent == Inconsistencies(blocks, a, b, {})
  {
    preJson, blocks := None, [];
    var ready := Prepare(tools, pre, files);
    if ready.None? {
      return NotRun, preJson, blocks;
    }
    preJson, blocks := Some(ready.value.0), ready.value.1;
    PreparedDistinct(tools, files, ready.value.1);
    var spectec := RunSpectec(tools, ready.value.0, ready.value.1);
    var eth2spec := RunEth2spec(tools, pre.value, ready.value.1);
    verdict := Compare(blocks, SpectecTrace(tools, ready.value.0, blocks), Eth2specTrace(tools, pre.value, blocks),
        spectec, eth2spec);
  }

  /** `process_test_case`, the independent mode. */
  method ProcessIndependent<J, K, S(==), B>(tools: Tools<J, K, S, B>, pre: Option<S>, files: seq<File<B>>)
    returns (verdict: Verdict, ghost preJson: Option<J>, ghost blocks: seq<Block<K, B>>)
    requires DistinctBy(files, FileNumber)
    ensures verdict.Compared? <==> Ready(tools, pre, files)
    ensures verdict.Compared? ==>
      && preJson.Some? && tools.stateToJson(pre.value) == preJson && Prepared(tools, files, blocks)
      && (verdict.Passed() <==> EachAgrees(tools, preJson.value, pre.value, blocks))
  {
    preJson, blocks := None, [];
    var ready := Prepare(tools, pre, files);
    if ready.None? {
      return NotRun, preJson, blocks;
    }
    preJson, blocks := Some(ready.value.0), ready.value.1;
    PreparedDistinct(tools, files, ready.value.1);
    var spectec := RunSpectecAlone(tools, ready.value.0, ready.value.1);
    var eth2spec := RunEth2specAlone(tools, pre.value, ready.value.1);
    verdict := Compare(blocks, SpectecEach(tools, ready.value.0, blocks), Eth2specEach(tools, pre.value, blocks),
        spectec, eth2spec);
    assert Consistent(SpectecEach(tools, ready.value.0, blocks), Eth2specEach(tools, pre.value, blocks))
      <==> EachAgrees(tools, ready.value.0, pre.value, blocks);
  }

  /********************************* What a verdict means *********************************/

  /** Only the last block that eth2spec got to can be in error. */
  lemma {:induction false} ErrorEndsEth2spec<J, K, S, B>(tools: Tools<J, K, S, B>, pre: S, blocks: seq<Block<K, B>>,
        i: nat)
    requires i + 1 < |Eth2specTrace(tools, pre, blocks)|
    ensures Eth2specTrace(tools, pre, blocks)[i].Post?
  {
    if i > 0 {
      var post := tools.eth2spec(pre, blocks[0].ssz).value;
      ErrorEndsEth2spec(tools, post, blocks[1..], i - 1);
    }
  }

  /** SpecTec's chain without the converter: the JSON post states of the blocks that it accepts in a row. */
  function SpectecPosts<J, K, S, B>(tools: Tools<J, K, S, B>, pre: J, blocks: seq<Block<K, B>>): (posts: seq<J>)
    ensures |posts| <= |blocks|
  {
    if blocks == [] || tools.spectec(pre, blocks[0].json).Err? then []
    else
      var post := tools.spectec(pre, blocks[0].json).value;
      [post] + SpectecPosts(tools, post, blocks[1..])
  }

  /**
   SpecTec's outcomes in terms of its own chain: the converted posts, then one error if it rejected a block.
   A post state that does not convert leaves the rest of the chain as it was.
   */
  lemma {:induction false} SpectecTraceIs<J, K, S, B>(tools: Tools<J, K, S, B>, pre: J, blocks: seq<Block<K, B>>)
    ensures var trace, posts := SpectecTrace(tools, pre, blocks), SpectecPosts(tools, pre, blocks);
            && |trace| == (if |posts| < |blocks| then |posts| + 1 else |posts|)
            && (forall i :: 0 <= i < |posts| ==> trace[i] == Converted(tools, blocks[i].num, posts[i]))
            && (|posts| < |blocks| ==> trace[|posts|].Failed?)
  {
    if blocks != [] && tools.spectec(pre, blocks[0].json).Ok? {
      var post := tools.spectec(pre, blocks[0].json).value;
      SpectecTraceIs(tools, post, blocks[1..]);
    }
  }

  /**
   A passing run has at most its last executed block in error, and SpecTec's posts before it are, in
   bytes, eth2spec's. If the error is that a post state does not convert, that block is the last of the case.
   */
  lemma PassingRun<J, K, S, B>(tools: Tools<J, K, S, B>, preJson: J, pre: S, blocks: seq<Block<K, B>>)
    requires ChainsAgree(tools, preJson, pre, blocks)
    ensures var a, b, posts := SpectecTrace(tools, preJson, blocks), Eth2specTrace(tools, pre, blocks),
              SpectecPosts(tools, preJson, blocks);
            && |a| == |b|
            && (forall i :: 0 <= i < |a| - 1 ==> a[i].Post? && b[i] == a[i])
            && (forall i :: 0 <= i < |posts| && tools.toSsz(posts[i]).None? ==> i == |blocks| - 1 < |b| && b[i].Failed?)
  {
    var a, b, posts := SpectecTrace(tools, preJson, blocks), Eth2specTrace(tools, pre, blocks),
        SpectecPosts(tools, preJson, blocks);
    SpectecTraceIs(tools, preJson, blocks);
    forall i | 0 <= i < |a| - 1
      ensures a[i].Post? && b[i] == a[i]
    {
      ErrorEndsEth2spec(tools, pre, blocks, i);
      assert Agree(a[i], b[i]);
    }
    forall i | 0 <= i < |posts| && tools.toSsz(posts[i]).None?
      ensures i == |blocks| - 1 < |b| && b[i].Failed?
    {
      assert a[i].Failed? && Agree(a[i], b[i]);
    }
  }

  /** The clients agree on a step: from matching states, both accept with matching posts or both reject with a text. */
  ghost predicate StepAgrees<J, K, S, B>(tools: Tools<J, K, S, B>, preJson: J, pre: S, block: Block<K, B>) {
    var x, y := tools.spectec(preJson, block.json), tools.eth2spec(pre, block.ssz);
    if x.Ok? && y.Ok? then tools.toSsz(x.value) == Some(y.value) else x.Err? && y.Err? && x.error != "" && y.error != ""
  }

  /** The clients conform on these blocks: they agree on every step from matching states. */
  ghost predicate Conform<J(!new), K, S(!new), B>(tools: Tools<J, K, S, B>, blocks: seq<Block<K, B>>) {
    forall j: J, s: S, i: nat :: i < |blocks| && tools.toSsz(j) == Some(s) ==> StepAgrees(tools, j, s, blocks[i])
  }

  /** No false alarm: if the clients conform, the run passes. */
  lemma {:induction false} ConformingClientsPass<J(!new), K, S(!new), B>(tools: Tools<J, K, S, B>, preJson: J,
        pre: S, blocks: seq<Block<K, B>>)
    requires tools.toSsz(preJson) == Some(pre) && Conform(tools, blocks)
    ensures ChainsAgree(tools, preJson, pre, blocks)
  {
    if blocks != [] {
      assert StepAgrees(tools, preJson, pre, blocks[0]);
      var x, y := tools.spectec(preJson, blocks[0].json), tools.eth2spec(pre, blocks[0].ssz);
      if x.Ok? {
        assert Conform(tools, blocks[1..]) by {
          forall j: J, s: S, i: nat | i < |blocks[1..]| && tools.toSsz(j) == Some(s)
            ensures StepAgrees(tools, j, s, blocks[1..][i])
          {
            assert blocks[1..][i] == blocks[i + 1];
          }
        }
        ConformingClientsPass(tools, x.value, y.value, blocks[1..]);
      }
    }
  }

  lemma ConsistentCons<S>(x: Outcome<S>, a: seq<Outcome<S>>, y: Outcome<S>, b: seq<Outcome<S>>)
    ensures Consistent([x] + a, [y] + b) <==> Agree(x, y) && Consistent(a, b)
  {
    var c, d := [x] + a, [y] + b;
    assert a == c[1..] && b == d[1..];
    if Consistent(c, d) {
      assert Agree(c[0], d[0]);
      forall i | 0 <= i < |a|
        ensures Agree(a[i], b[i])
      {
        assert Agree(c[i + 1], d[i + 1]);
      }
    }
  }

  /**
   The verdict on a run from the verdict on its first step: the run goes on exactly if both clients
   accept the block.
   */
  lemma VerdictOfFirstStep<J, K, S, B>(tools: Tools<J, K, S, B>, preJson: J, pre: S, blocks: seq<Block<K, B>>)
    requires blocks != []
    ensures var x, y := tools.spectec(preJson, blocks[0].json), tools.eth2spec(pre, blocks[0].ssz);
            ChainsAgree(tools, preJson, pre, blocks) <==>
              if x.Ok? && y.Ok? then
                tools.toSsz(x.value) == Some(y.value) && ChainsAgree(tools, x.value, y.value, blocks[1..])
              else
                && Agree(SpectecAlone(tools, preJson, blocks[0]), Eth2specAlone(tools, pre, blocks[0]))
                && (x.Ok? ==> |blocks| == 1)
  {
    var x, y := tools.spectec(preJson, blocks[0].json), tools.eth2spec(pre, blocks[0].ssz);
    var first, second := SpectecAlone(tools, preJson, blocks[0]), Eth2specAlone(tools, pre, blocks[0]);
    var a := if x.Ok? then SpectecTrace(tools, x.value, blocks[1..]) else [];
    var b := if y.Ok? then Eth2specTrace(tools, y.value, blocks[1..]) else [];
    assert SpectecTrace(tools, preJson, blocks) == [first] + a;
    assert Eth2specTrace(tools, pre, blocks) == [second] + b;
    ConsistentCons(first, a, second, b);
  }

  /** Dropping blocks from the end never turns a passing run into a failing one. */
  lemma {:induction false} PrefixPasses<J, K, S, B>(tools: Tools<J, K, S, B>, preJson: J, pre: S,
        blocks: seq<Block<K, B>>, n: nat)
    requires n <= |blocks| && ChainsAgree(tools, preJson, pre, blocks)
    ensures ChainsAgree(tools, preJson, pre, blocks[..n])
  {
    if n > 0 {
      VerdictOfFirstStep(tools, preJson, pre, blocks);
      VerdictOfFirstStep(tools, preJson, pre, blocks[..n]);
      assert blocks[..n][0] == blocks[0] && blocks[..n][1..] == blocks[1..][..n - 1];
      var x, y := tools.spectec(preJson, blocks[0].json), tools.eth2spec(pre, blocks[0].ssz);
      if x.Ok? && y.Ok? {
        PrefixPasses(tools, x.value, y.value, blocks[1..], n - 1);
      }
    }
  }

  /** The independent mode passes exactly if the sequential mode passes on each block as a case of its own. */
  lemma IndependentIsEachBlockAlone<J, K, S, B>(tools: Tools<J, K, S, B>, preJson: J, pre: S, blocks: seq<Block<K, B>>)
    ensures EachAgrees(tools, preJson, pre, blocks) <==>
            forall i :: 0 <= i < |blocks| ==> ChainsAgree(tools, preJson, pre, [blocks[i]])
  {
    forall i | 0 <= i < |blocks|
      ensures ChainsAgree(tools, preJson, pre, [blocks[i]]) <==>
              Agree(SpectecAlone(tools, preJson, blocks[i]), Eth2specAlone(tools, pre, blocks[i]))
    {
      VerdictOfFirstStep(tools, preJson, pre, [blocks[i]]);
      assert [blocks[i]][1..] == [];
    }
  }

  /** The outcomes agree in success or failure and, if both succeed, in the bytes. */
  predicate SameOutcome<S(==)>(x: Outcome<S>, y: Outcome<S>) {
    if x.Post? || y.Post? then x == y else true
  }

  /** The outcome carries an error text if it is a failure. */
  predicate HasText<S>(x: Outcome<S>) {
    x.Failed? ==> x.text != ""
  }

  /** The clients get through the same blocks, with the same outcome on each. */
  ghost predicate SameOutcomes<S>(a: seq<Outcome<S>>, b: seq<Outcome<S>>) {
    |a| == |b| && forall i :: 0 <= i < |a| ==> SameOutcome(a[i], b[i])
  }

  /**
   The verdict raises a false alarm exactly for a silent rejection: when the clients have the same outcomes,
   the run passes if and only if the last outcome of either has a text, should it be a failure.
   */
  lemma SilentRejectionFails<J, K, S, B>(tools: Tools<J, K, S, B>, preJson: J, pre: S, blocks: seq<Block<K, B>>)
    ensures var a, b := SpectecTrace(tools, preJson, blocks), Eth2specTrace(tools, pre, blocks);
            ChainsAgree(tools, preJson, pre, blocks) <==>
              && SameOutcomes(a, b)
              && (a != [] ==> HasText(a[|a| - 1]) && HasText(b[|b| - 1]))
  {
    var a, b := SpectecTrace(tools, preJson, blocks), Eth2specTrace(tools, pre, blocks);
    if SameOutcomes(a, b) {
      forall i | 0 <= i < |a|
        ensures SameOutcome(a[i], b[i]) && (i < |a| - 1 ==> a[i].Post? && b[i].Post?)
      {
        if i < |a| - 1 {
          ErrorEndsEth2spec(tools, pre, blocks, i);
        }
      }
      if a != [] && HasText(a[|a| - 1]) && HasText(b[|b| - 1]) {
        assert Consistent(a, b);
      }
    }
    if Consistent(a, b) {
      assert a != [] ==> Agree(a[|a| - 1], b[|b| - 1]);
      forall i | 0 <= i < |a|
        ensures SameOutcome(a[i], b[i])
      {
        assert Agree(a[i], b[i]);
      }
    }
  }

  /** A false alarm: both clients reject the only block, eth2spec without a text. */
  lemma SilentRejectionExample<J, K, S, B>(tools: Tools<J, K, S, B>, preJson: J, pre: S, block: Block<K, B>)
    requires tools.spectec(preJson, block.json) == Err("x") && tools.eth2spec(pre, block.ssz) == Err("")
    ensures SameOutcomes(SpectecTrace(tools, preJson, [block]), Eth2specTrace(tools, pre, [block]))
    ensures !ChainsAgree(tools, preJson, pre, [block])
  {
    SilentRejectionFails(tools, preJson, pre, [block]);
  }
}
