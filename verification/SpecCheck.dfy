/**
 The checker of SpecTec against the official test vectors, for cases made of blocks: `check` applies the
 blocks in order, and between two blocks takes SpecTec's JSON output through SSZ before it is input again.

 SpecTec and the ssz library's byte encoding are arbitrary functions; of the encoding only what
 `Env.Valid` says is used.
 */
module SpecCheck {
  import opened Wrappers
  import opened SszJson
  import PyString

  type Bytes = seq<Byte>

  /** A finished run of the SpecTec executable: exit code, log, and the output file, `None` if it is not JSON. */
  datatype Process = Process(code: int, log: string, output: Option<Json>)

  datatype Env = Env(
    stateType: SszType,
    blockType: SszType,
    decode: (Bytes, SszType) -> Option<Ssz>,
    encode: (Ssz, SszType) -> Bytes,
    spectecx: (Json, Json) -> Process)
  {
    /** The byte encoding of states: decoding gives a value of the type, and undoes encoding. */
    ghost predicate Valid() {
      && WellFormed(stateType)
      && (forall data: Bytes :: decode(data, stateType).Some? ==> HasType(decode(data, stateType).value, stateType))
      && (forall v: Ssz :: HasType(v, stateType) ==> decode(encode(v, stateType), stateType) == Some(v))
    }
  }

  /** `post.ssz_snappy`: not there, not readable, or its bytes. */
  datatype PostFile = Absent | Broken | Present(data: Bytes)

  datatype Verdict =
    | PostMatches
    | PostDiffers
    | AcceptedWithoutPost
    | RejectedAsExpected(block: nat, log: string)
    | RejectedDespitePost(block: nat, log: string)
    | Raised
  {
    /** The verdict "ok". A raised exception is reported as a failure. */
    predicate Passes() {
      PostMatches? || RejectedAsExpected?
    }
  }

  /** Rejection by a failed premise of the specification, as opposed to a fault of the interpreter or a bad input. */
  predicate FailedPremise(p: Process) {
    p.code == 1 && PyString.Contains(p.log, "source: il-interp") && !PyString.Contains(p.log, "il-interp/fault")
  }

  /** One step on SSZ values, taken directly. */
  datatype Step<+V> = Accepted(state: V) | Rejected(log: string) | Faulted

  function StepValue(env: Env, state: Ssz, block: Ssz): Step<Ssz> {
    var p := env.spectecx(Print(state), Print(block));
    if p.code != 0 then (if FailedPremise(p) then Rejected(p.log) else Faulted)
    else if p.output.None? then Faulted
    else
      match Parse(p.output.value, env.stateType)
      case Ok(post) => Accepted(post)
      case Err(_) => Faulted
  }

  /** The blocks' files: `None` for one that is missing or does not decompress. */
  type Blocks = nat -> Option<Bytes>

  function BlockValue(env: Env, blocks: Blocks, i: nat): Option<Ssz> {
    match blocks(i)
    case None => None
    case Some(data) => env.decode(data, env.blockType)
  }

  /** The step through block `i`. */
  function StepAt(env: Env, blocks: Blocks): (Ssz, nat) -> Step<Ssz> {
    (state: Ssz, i: nat) =>
      match BlockValue(env, blocks, i)
      case None => Faulted
      case Some(block) => StepValue(env, state, block)
  }

  datatype Outcome<+V> = Ends(state: V) | RejectedAt(block: nat, log: string) | Faults

  /** The reference: a step function folded over blocks `i` to `n`, on values, with nothing in between. */
  function Fold<V>(step: (V, nat) -> Step<V>, state: V, i: nat, n: nat): Outcome<V>
    requires i <= n
    decreases n - i
  {
    if i == n then Ends(state)
    else
      match step(state, i)
      case Accepted(post) => Fold(step, post, i + 1, n)
      case Rejected(log) => RejectedAt(i, log)
      case Faulted => Faults
  }

  /** The run of SpecTec on a list of blocks, each on the state that the one before it put out. */
  function RunOn(env: Env, state: Ssz, bs: seq<Ssz>, at: nat): Outcome<Ssz>
    decreases |bs|
  {
    if bs == [] then Ends(state)
    else
      var p := env.spectecx(Print(state), Print(bs[0]));
      if
        p.code == 1
        && PyString.Contains(p.log, "source: il-interp") && !PyString.Contains(p.log, "il-interp/fault")
      then RejectedAt(at, p.log)
      else if p.code != 0 || p.output.None? || Parse(p.output.value, env.stateType).Err? then Faults
      else RunOn(env, Parse(p.output.value, env.stateType).value, bs[1..], at + 1)
  }

  ghost predicate DecodesTo(env: Env, blocks: Blocks, i: nat, block: Ssz) {
    blocks(i).Some? && env.decode(blocks(i).value, env.blockType) == Some(block)
  }

  /** The files `at`, `at + 1` and so on are there and decode, as the block type, to the blocks of this list. */
  ghost predicate Decodes(env: Env, blocks: Blocks, at: nat, bs: seq<Ssz>) {
    forall i :: 0 <= i < |bs| ==> DecodesTo(env, blocks, at + i, bs[i])
  }

  ghost predicate Unreadable(env: Env, blocks: Blocks, i: nat) {
    blocks(i).None? || env.decode(blocks(i).value, env.blockType).None?
  }

  lemma DecodesTail(env: Env, blocks: Blocks, at: nat, bs: seq<Ssz>)
    requires Decodes(env, blocks, at, bs) && bs != []
    ensures DecodesTo(env, blocks, at, bs[0]) && Decodes(env, blocks, at + 1, bs[1..])
  {
    assert DecodesTo(env, blocks, at + 0, bs[0]);
    forall i | 0 <= i < |bs| - 1
      ensures DecodesTo(env, blocks, at + 1 + i, bs[1..][i])
    {
      assert DecodesTo(env, blocks, at + (i + 1), bs[i + 1]);
    }
  }

  /** One step of the fold is one call of SpecTec on the block that the file decodes to. */
  lemma StepOnBlock(env: Env, blocks: Blocks, state: Ssz, at: nat, block: Ssz, n: nat)
    requires DecodesTo(env, blocks, at, block) && at < n
    ensures var p := env.spectecx(Print(state), Print(block));
            Fold(StepAt(env, blocks), state, at, n) ==
            if
              p.code == 1
              && PyString.Contains(p.log, "source: il-interp") && !PyString.Contains(p.log, "il-interp/fault")
            then RejectedAt(at, p.log)
            else if p.code != 0 || p.output.None? || Parse(p.output.value, env.stateType).Err? then Faults
            else Fold(StepAt(env, blocks), Parse(p.output.value, env.stateType).value, at + 1, n)
  {
    assert StepAt(env, blocks)(state, at) == StepValue(env, state, block);
  }

  /**
   Folding over the files is running SpecTec on the blocks they decode to. A file that is missing or does not
   decode ends in a fault if SpecTec gets that far.
   */
  lemma {:induction false} FoldIsRun(env: Env, blocks: Blocks, state: Ssz, at: nat, bs: seq<Ssz>, n: nat)
    requires Decodes(env, blocks, at, bs) && at + |bs| <= n
    requires at + |bs| < n ==> Unreadable(env, blocks, at + |bs|)
    ensures var run := RunOn(env, state, bs, at);
            Fold(StepAt(env, blocks), state, at, n) == if run.Ends? && at + |bs| < n then Faults else run
    decreases |bs|
  {
    if bs != [] {
      DecodesTail(env, blocks, at, bs);
      StepOnBlock(env, blocks, state, at, bs[0], n);
      var p := env.spectecx(Print(state), Print(bs[0]));
      if p.code == 0 && p.output.Some? && Parse(p.output.value, env.stateType).Ok? {
        FoldIsRun(env, blocks, Parse(p.output.value, env.stateType).value, at + 1, bs[1..], n);
      }
    } else if at < n {
      assert BlockValue(env, blocks, at).None?;
    }
  }

  /** The verdict that the documentation of the checker promises for an outcome. */
  function Judge(env: Env, outcome: Outcome<Ssz>, post: PostFile): Verdict {
    match outcome
    case Faults => Raised
    case RejectedAt(i, log) => if post.Absent? then RejectedAsExpected(i, log) else RejectedDespitePost(i, log)
    case Ends(state) =>
      match post
      case Absent => AcceptedWithoutPost
      case Broken => Raised
      case Present(data) => if env.encode(state, env.stateType) == data then PostMatches else PostDiffers
  }

  /** The inner `to_json`: the bytes of an SSZ file as JSON, `None` if they do not decode. */
  function ToJson(env: Env, data: Bytes, t: SszType): Option<Json> {
    match env.decode(data, t)
    case None => None
    case Some(v) => Some(Print(v))
  }

  /** What a call of the executable is taken for. */
  predicate IsStep(env: Env, pre: Json, block: Json, r: Step<Bytes>) {
    var p := env.spectecx(pre, block);
    && (r.Rejected? <==> p.code != 0 && FailedPremise(p))
    && (r.Rejected? ==> r.log == p.log)
    && (r.Accepted? <==> p.code == 0 && p.output.Some? && Parse(p.output.value, env.stateType).Ok?)
    && (r.Accepted? ==> r.state == env.encode(Parse(p.output.value, env.stateType).value, env.stateType))
  }

  /** The inner `spectec`: the post state's bytes. */
  method Spectec(env: Env, pre: Json, block: Json) returns (r: Step<Bytes>)
    requires WellFormed(env.stateType)
    ensures IsStep(env, pre, block, r)
  {
    var p := env.spectecx(pre, block);
    if p.code != 0 {
      if p.code != 1 || !PyString.Contains(p.log, "source: il-interp") || PyString.Contains(p.log, "il-interp/fault") {
        return Faulted;
      }
      return Rejected(p.log);
    }
    if p.output.None? {
      return Faulted;
    }
    var post := JsonToSsz(p.output.value, env.stateType);
    if post.Err? {
      return Faulted;
    }
    return Accepted(env.encode(post.value, env.stateType));
  }

  /** A rejection is exit code 1 with the interpreter named in the log and no fault of it; a fault is never one. */
  lemma RejectedIff(env: Env, pre: Json, block: Json, r: Step<Bytes>)
    requires IsStep(env, pre, block, r)
    ensures var p := env.spectecx(pre, block);
            r == Rejected(p.log) <==>
              && p.code == 1
              && PyString.Contains(p.log, "source: il-interp") && !PyString.Contains(p.log, "il-interp/fault")
  {
  }

  /** The inner call takes the step of the reference, between JSON and bytes. */
  lemma SpectecStep(env: Env, state: Ssz, block: Ssz, r: Step<Bytes>)
    requires env.Valid() && HasType(state, env.stateType)
    requires IsStep(env, Print(state), Print(block), r)
    ensures var s := StepValue(env, state, block);
            && (s.Faulted? <==> r.Faulted?)
            && (s.Rejected? <==> r.Rejected?) && (s.Rejected? ==> r.log == s.log)
            && (s.Accepted? <==> r.Accepted?)
            && (s.Accepted? ==>
                  && HasType(s.state, env.stateType)
                  && r.state == env.encode(s.state, env.stateType)
                  && ToJson(env, r.state, env.stateType) == Some(Print(s.state)))
  {
    var p := env.spectecx(Print(state), Print(block));
    if p.output.Some? {
      ParseTyped(p.output.value, env.stateType);
    }
  }

  /** `check`, for a case made of blocks: the verdict is that of running SpecTec on the blocks of the files. */
  method Check(env: Env, preFile: Option<Bytes>, blocksCount: int, blocks: Blocks, post: PostFile)
        returns (verdict: Verdict)
    requires env.Valid()
    ensures blocksCount <= 0 ==> verdict == Raised
    ensures preFile.None? || env.decode(preFile.value, env.stateType).None? ==> verdict == Raised
    ensures blocksCount > 0 && preFile.Some? && env.decode(preFile.value, env.stateType).Some? ==>
              var state := env.decode(preFile.value, env.stateType).value;
              && verdict == Judge(env, Fold(StepAt(env, blocks), state, 0, blocksCount), post)
              && forall bs: seq<Ssz> :: |bs| == blocksCount && Decodes(env, blocks, 0, bs) ==>
                   verdict == Judge(env, RunOn(env, state, bs, 0), post)
  {
    verdict := CheckBlocks(env, preFile, blocksCount, blocks, post);
    if preFile.Some? && env.decode(preFile.value, env.stateType).Some? {
      ghost var state := env.decode(preFile.value, env.stateType).value;
      forall bs: seq<Ssz> | |bs| == blocksCount && Decodes(env, blocks, 0, bs)
        ensures Fold(StepAt(env, blocks), state, 0, |bs|) == RunOn(env, state, bs, 0)
      {
        FoldIsRun(env, blocks, state, 0, bs, |bs|);
      }
    }
  }

  /** The body of `check`. Nothing is bound to the post state if the case has no block. */
  method CheckBlocks(env: Env, preFile: Option<Bytes>, blocksCount: int, blocks: Blocks, post: PostFile)
        returns (verdict: Verdict)
    requires env.Valid()
    ensures blocksCount <= 0 ==> verdict == Raised
    ensures preFile.None? || env.decode(preFile.value, env.stateType).None? ==> verdict == Raised
    ensures blocksCount > 0 && preFile.Some? && env.decode(preFile.value, env.stateType).Some? ==>
              var state := env.decode(preFile.value, env.stateType).value;
              verdict == Judge(env, Fold(StepAt(env, blocks), state, 0, blocksCount), post)
  {
    if preFile.None? {
      return Raised;
    }
    var first := ToJson(env, preFile.value, env.stateType);
    if first.None? {
      return Raised;
    }
    var pre := first.value;
    var state: Option<Bytes>, bound, rejection := None, false, (0, "");
    ghost var value := env.decode(preFile.value, env.stateType).value;
    ghost var goal := if blocksCount > 0 then Fold(StepAt(env, blocks), value, 0, blocksCount) else Faults;
    var i := 0;
    while i < blocksCount
      invariant 0 <= i && (blocksCount > 0 ==> i <= blocksCount) && (blocksCount <= 0 ==> i == 0)
      invariant bound <==> i > 0
      invariant HasType(value, env.stateType) && pre == Print(value)
      invariant blocksCount > 0 ==> Fold(StepAt(env, blocks), value, i, blocksCount) == goal
      invariant bound ==> state == Some(env.encode(value, env.stateType))
    {
      if blocks(i).None? {
        return Raised;
      }
      var block := ToJson(env, blocks(i).value, env.blockType);
      if block.None? {
        return Raised;
      }
      var r := Spectec(env, pre, block.value);
      SpectecStep(env, value, BlockValue(env, blocks, i).value, r);
      if r.Faulted? {
        return Raised;
      }
      bound := true;
      if r.Rejected? {
        state, rejection := None, (i, r.log);
        assert goal == RejectedAt(i, r.log);
        break;
      }
      state := Some(r.state);
      value := StepValue(env, value, BlockValue(env, blocks, i).value).state;
      var next := ToJson(env, r.state, env.stateType);
      if next.None? {
        return Raised;
      }
      pre := next.value;
      i := i + 1;
    }
    if !bound {
      return Raised;
    }
    verdict := Conclude(env, state, rejection, post, goal);
  }

  /** What is made of the run and the post file. */
  method Conclude(env: Env, state: Option<Bytes>, rejection: (nat, string), post: PostFile, ghost outcome: Outcome<Ssz>)
    returns (verdict: Verdict)
    requires match outcome
             case Faults => false
             case RejectedAt(i, log) => state == None && rejection == (i, log)
             case Ends(value) => state == Some(env.encode(value, env.stateType))
    ensures verdict == Judge(env, outcome, post)
  {
    if post.Absent? {
      return if state.None? then RejectedAsExpected(rejection.0, rejection.1) else AcceptedWithoutPost;
    }
    if state.None? {
      return RejectedDespitePost(rejection.0, rejection.1);
    }
    if post.Broken? {
      return Raised;
    }
    return if state.value == post.data then PostMatches else PostDiffers;
  }

  /********************************* What the verdict means *********************************/

  /** The state before block `n` if all blocks before it are accepted, one step at a time. */
  function After<V>(step: (V, nat) -> Step<V>, pre: V, n: nat): Option<V> {
    if n == 0 then Some(pre)
    else
      match After(step, pre, n - 1)
      case None => None
      case Some(before) => if step(before, n - 1).Accepted? then Some(step(before, n - 1).state) else None
  }

  /** The blocks before block `at` are accepted, and that one is rejected. */
  predicate RejectsAt<V(==)>(step: (V, nat) -> Step<V>, pre: V, at: nat, log: string) {
    var before := After(step, pre, at);
    before.Some? && step(before.value, at) == Rejected(log)
  }

  lemma {:induction false} NothingAfter<V>(step: (V, nat) -> Step<V>, pre: V, i: nat, n: nat)
    requires i <= n && After(step, pre, i).None?
    ensures After(step, pre, n).None?
  {
    if i < n {
      NothingAfter(step, pre, i, n - 1);
    }
  }

  /** The fold from block `i` on continues the accepted blocks before it. */
  lemma {:induction false} FoldContinues<V>(step: (V, nat) -> Step<V>, pre: V, state: V, i: nat, n: nat)
    requires i <= n && After(step, pre, i) == Some(state)
    ensures var outcome, last := Fold(step, state, i, n), After(step, pre, n);
            && (outcome.Ends? ==> last == Some(outcome.state))
            && (last.Some? ==> outcome == Ends(last.value))
            && (outcome.RejectedAt? ==> outcome.block < n && RejectsAt(step, pre, outcome.block, outcome.log))
    decreases n - i
  {
    if i < n {
      if step(state, i).Accepted? {
        FoldContinues(step, pre, step(state, i).state, i + 1, n);
      } else {
        NothingAfter(step, pre, i + 1, n);
      }
    }
  }

  lemma {:induction false} FoldRejects<V>(step: (V, nat) -> Step<V>, pre: V, state: V, i: nat, n: nat, at: nat,
        log: string)
    requires i <= at < n && After(step, pre, i) == Some(state) && RejectsAt(step, pre, at, log)
    ensures Fold(step, state, i, n) == RejectedAt(at, log)
    decreases at - i
  {
    if i < at {
      if step(state, i).Accepted? {
        FoldRejects(step, pre, step(state, i).state, i + 1, n, at, log);
      } else {
        NothingAfter(step, pre, i + 1, at);
      }
    }
  }

  /**
   The verdict is right: with a post file, "ok" exactly if SpecTec accepts all blocks and the last state
   encodes to that file; without one, "ok" exactly if SpecTec rejects one of the blocks.
   */
  lemma VerdictIsRight(env: Env, pre: Ssz, blocks: Blocks, n: nat, post: PostFile)
    ensures var verdict, last := Judge(env, Fold(StepAt(env, blocks), pre, 0, n), post),
              After(StepAt(env, blocks), pre, n);
            verdict.Passes() <==>
              || (post.Present? && last.Some? && env.encode(last.value, env.stateType) == post.data)
              || (post.Absent? && exists at: nat, log :: at < n && RejectsAt(StepAt(env, blocks), pre, at, log))
  {
    FoldContinues(StepAt(env, blocks), pre, pre, 0, n);
    if at: nat, log :| at < n && RejectsAt(StepAt(env, blocks), pre, at, log) {
      FoldRejects(StepAt(env, blocks), pre, pre, 0, n, at, log);
    }
  }

  /** A fault, a broken block or an unreadable output never passes, whatever the post file. */
  lemma FaultsFail(env: Env, pre: Ssz, blocks: Blocks, n: nat, post: PostFile)
    requires After(StepAt(env, blocks), pre, n).None?
    requires forall at: nat, log :: at < n ==> !RejectsAt(StepAt(env, blocks), pre, at, log)
    ensures Judge(env, Fold(StepAt(env, blocks), pre, 0, n), post) == Raised
  {
    FoldContinues(StepAt(env, blocks), pre, pre, 0, n);
  }

  lemma {:induction false} AfterTyped(env: Env, pre: Ssz, blocks: Blocks, n: nat)
    requires HasType(pre, env.stateType)
    ensures After(StepAt(env, blocks), pre, n).Some? ==>
              HasType(After(StepAt(env, blocks), pre, n).value, env.stateType)
  {
    if n > 0 {
      AfterTyped(env, pre, blocks, n - 1);
      var before, block := After(StepAt(env, blocks), pre, n - 1), BlockValue(env, blocks, n - 1);
      if After(StepAt(env, blocks), pre, n).Some? {
        ParseTyped(env.spectecx(Print(before.value), Print(block.value)).output.value, env.stateType);
      }
    }
  }

  /** Comparing bytes compares states: if the post file is the encoding of a state, it matches that state only. */
  lemma MatchesOneState(env: Env, pre: Ssz, blocks: Blocks, n: nat, expected: Ssz)
    requires env.Valid() && HasType(pre, env.stateType) && HasType(expected, env.stateType)
    ensures var post := Present(env.encode(expected, env.stateType));
            Judge(env, Fold(StepAt(env, blocks), pre, 0, n), post) == PostMatches <==>
            After(StepAt(env, blocks), pre, n) == Some(expected)
  {
    FoldContinues(StepAt(env, blocks), pre, pre, 0, n);
    AfterTyped(env, pre, blocks, n);
    var outcome := Fold(StepAt(env, blocks), pre, 0, n);
    if outcome.Ends? {
      assert env.decode(env.encode(outcome.state, env.stateType), env.stateType) == Some(outcome.state);
      assert env.decode(env.encode(expected, env.stateType), env.stateType) == Some(expected);
    }
  }

  /************************** The state between two blocks **************************/

  /** What SpecTec gets for the next block is the normal form of the JSON it put out. */
  lemma NextInputIsNormalForm(env: Env, output: Json)
    requires env.Valid() && Parse(output, env.stateType).Ok?
    ensures var state := Parse(output, env.stateType).value;
            ToJson(env, env.encode(state, env.stateType), env.stateType) == Some(Canon(output, env.stateType))
  {
    ParseTyped(output, env.stateType);
    PrintIsCanon(output, env.stateType);
  }

  /** The chain of `run_test_suite.py`, which gives SpecTec its own output back unchanged: the states as JSON. */
  function RawAfter(env: Env, pre: Json, blocks: Blocks, n: nat): Option<Json> {
    if n == 0 then Some(pre)
    else
      var before, block := RawAfter(env, pre, blocks, n - 1), BlockValue(env, blocks, n - 1);
      if before.None? || block.None? then None
      else
        var p := env.spectecx(before.value, Print(block.value));
        if p.code == 0 && p.output.Some? && Parse(p.output.value, env.stateType).Ok? then p.output else None
  }

  /** SpecTec does not tell a state's JSON from its normal form. */
  ghost predicate ReadsValues(env: Env) {
    forall j, b :: Parse(j, env.stateType).Ok? ==> env.spectecx(j, b) == env.spectecx(Canon(j, env.stateType), b)
  }

  /** For such a SpecTec both chains run through the same states: the detour through SSZ changes nothing. */
  lemma {:induction false} DetourChangesNothing(env: Env, pre: Ssz, blocks: Blocks, n: nat)
    requires env.Valid() && ReadsValues(env) && HasType(pre, env.stateType)
    ensures var raw, last := RawAfter(env, Print(pre), blocks, n), After(StepAt(env, blocks), pre, n);
            && (raw.Some? <==> last.Some?)
            && (raw.Some? ==> Parse(raw.value, env.stateType) == Ok(last.value))
  {
    if n == 0 {
      RoundTrip(pre, env.stateType);
    } else {
      DetourChangesNothing(env, pre, blocks, n - 1);
      var raw, before := RawAfter(env, Print(pre), blocks, n - 1), After(StepAt(env, blocks), pre, n - 1);
      var block := BlockValue(env, blocks, n - 1);
      if raw.Some? && block.Some? {
        PrintIsCanon(raw.value, env.stateType);
        assert env.spectecx(raw.value, Print(block.value)) == env.spectecx(Print(before.value), Print(block.value));
      }
    }
  }
}
