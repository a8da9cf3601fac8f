/**
 * The convergence driver of `main`: the missing-input check, the
 * parse -> clean -> write loop with its multipass stopping rule, the
 * "not bigger than the input" check, the optional trailing newline and the
 * copy-on-error recovery.
 *
 * Parsing, cleaning and serialising are opaque functions over bytes that may
 * fail; the file system is a record of answers (does the input exist, what
 * did loading return, does each copy or the save succeed). The program's exit
 * status is not modelled.
 */
module Driver {
  import opened Wrappers

  newtype byte = x: int | 0 <= x < 256

  type Bytes = seq<byte>

  const NEWLINE: byte := 10

  /** `parse_data`, `clean_doc` and `write_buffer` over some document type `D`. */
  datatype Cleaner<!D> = Cleaner(parse: Bytes -> Option<D>, clean: D -> Option<D>, write: D -> Bytes)

  /** The command-line switches the driver consults. */
  datatype Options = Options(multipass: bool, allowBigger: bool, appendNewline: bool, copyOnError: bool)

  datatype InputFrom = Stdin | InFile(path: string)

  datatype OutputTo = Stdout | OutFile(path: string)

  /**
   * The answers of the outside world. `on_err` can run twice in one run: after
   * a clean failure whose copy failed, the size check may call it again, and
   * that second `fs::copy` has its own answer, `retryCopyOk`.
   */
  datatype Env = Env(inputExists: bool, loaded: Option<Bytes>, copyOk: bool, retryCopyOk: bool, saveOk: bool)

  // ---------------------------------------------------------------------------
  // One cycle of the loop.

  datatype Cycle = Unparsed | Uncleaned | Written(out: Bytes)

  /** One parse -> clean -> write cycle on `buf`: the new buffer is the serialisation of the cleaned document. */
  function RunCycle<D>(c: Cleaner<D>, buf: Bytes): (r: Cycle)
    ensures r.Unparsed? <==> c.parse(buf).None?
    ensures r.Uncleaned? <==> c.parse(buf).Some? && c.clean(c.parse(buf).value).None?
    ensures r.Written? ==> r.out == c.write(c.clean(c.parse(buf).value).value)
  {
    match c.parse(buf)
    case None => Unparsed
    case Some(doc) =>
      match c.clean(doc)
      case None => Uncleaned
      case Some(cleaned) => Written(c.write(cleaned))
  }

  // ---------------------------------------------------------------------------
  // The loop as a specification over the buffers it goes through.

  /** How the loop ended; `buf` is the buffer the loop held at that moment. */
  datatype LoopExit = ParseFailed(buf: Bytes) | CleanFailed(buf: Bytes) | Finished(buf: Bytes) | FuelExhausted

  /** Each buffer of the trace is the output of a cycle on the one before. */
  predicate Chained<D>(c: Cleaner<D>, trace: seq<Bytes>) {
    forall i :: 0 <= i < |trace| - 1 ==> RunCycle(c, trace[i]) == Written(trace[i + 1])
  }

  /** `prev_size` when the output `trace[i]` is checked: 0 for the first output, else the length of the one before. */
  function PrevSize(trace: seq<Bytes>, i: nat): nat
    requires 1 <= i < |trace|
  {
    if i == 1 then 0 else |trace[i - 1]|
  }

  /** After writing `trace[i]` the loop goes round again. */
  predicate Continues(multipass: bool, trace: seq<Bytes>, i: nat)
    requires 1 <= i < |trace|
  {
    multipass && |trace[i]| != PrevSize(trace, i)
  }

  /** The last buffer written (if any) did not stop the loop. */
  predicate LastContinues(multipass: bool, trace: seq<Bytes>) {
    |trace| >= 2 ==> Continues(multipass, trace, |trace| - 1)
  }

  /**
   * The loop, started on `raw` and allowed at most `fuel` cycles, went through
   * the buffers `trace` (the input first) and ended with `exit`.
   */
  predicate LoopSpec<D>(c: Cleaner<D>, multipass: bool, raw: Bytes, fuel: nat, exit: LoopExit, trace: seq<Bytes>) {
    && 1 <= |trace| <= fuel + 1
    && trace[0] == raw
    && Chained(c, trace)
    && (forall i :: 1 <= i < |trace| - 1 ==> Continues(multipass, trace, i))
    && match exit
       case ParseFailed(b) =>
         |trace| <= fuel && b == trace[|trace| - 1] && RunCycle(c, b) == Unparsed && LastContinues(multipass, trace)
       case CleanFailed(b) =>
         |trace| <= fuel && b == trace[|trace| - 1] && RunCycle(c, b) == Uncleaned && LastContinues(multipass, trace)
       case Finished(b) =>
         2 <= |trace| && b == trace[|trace| - 1] && !Continues(multipass, trace, |trace| - 1)
       case FuelExhausted =>
         |trace| == fuel + 1 && LastContinues(multipass, trace)
  }

  /**
   * The loop of `main`. `buf` is cleared and rewritten by every cycle; without
   * multipass one cycle runs; with it the loop stops when a new buffer is as
   * long as the previous one (`prev_size` starts at 0). The loop need not
   * terminate, so it is given `fuel` cycles at most.
   */
  method CleanLoop<D>(c: Cleaner<D>, multipass: bool, raw: Bytes, fuel: nat) returns (exit: LoopExit, ghost trace: seq<Bytes>)
    ensures LoopSpec(c, multipass, raw, fuel, exit, trace)
  {
    var buf := raw;
    var prevSize: nat := 0;
    var cycles: nat := 0;
    trace := [raw];
    while cycles < fuel
      invariant cycles <= fuel && |trace| == cycles + 1
      invariant trace[0] == raw && buf == trace[cycles]
      invariant Chained(c, trace)
      invariant forall i :: 1 <= i < |trace| ==> Continues(multipass, trace, i)
      invariant prevSize == if cycles == 0 then 0 else |buf|
      decreases fuel - cycles
    {
      var parsed := c.parse(buf);
      if parsed.None? {
        exit := ParseFailed(buf);
        return;
      }
      var cleaned := c.clean(parsed.value);
      if cleaned.None? {
        exit := CleanFailed(buf);
        return;
      }
      buf := [];
      buf := buf + c.write(cleaned.value);
      ghost var before := trace;
      trace := trace + [buf];
      assert forall i :: 0 <= i < |before| ==> trace[i] == before[i];
      assert PrevSize(trace, |before|) == prevSize;
      forall i | 1 <= i < |before|
        ensures Continues(multipass, trace, i)
      {
        assert Continues(multipass, before, i);
        assert PrevSize(trace, i) == PrevSize(before, i);
      }
      if !multipass {
        exit := Finished(buf);
        return;
      }
      if prevSize == |buf| {
        exit := Finished(buf);
        return;
      }
      prevSize := |buf|;
      cycles := cycles + 1;
    }
    exit := FuelExhausted;
  }

  // ---------------------------------------------------------------------------
  // What the loop specification implies.

  /**
   * One step of `Chained`, unpacked: the cycle on buffer `i` wrote buffer `i + 1`.
   * A helper for the branches of `NotAProperPrefix` that cannot happen, where
   * the same fact stated as an assertion would be checked under contradictory facts.
   */
  lemma CycleBeforeLast<D>(c: Cleaner<D>, trace: seq<Bytes>, i: nat)
    requires Chained(c, trace)
    requires i < |trace| - 1
    ensures RunCycle(c, trace[i]) == Written(trace[i + 1])
  {
  }

  /** Two traces that both satisfy the loop specification agree on their common prefix. */
  lemma {:induction false} TracesAgree<D>(c: Cleaner<D>, multipass: bool, raw: Bytes, fuel: nat,
                                          e1: LoopExit, t1: seq<Bytes>, e2: LoopExit, t2: seq<Bytes>, n: nat)
    requires LoopSpec(c, multipass, raw, fuel, e1, t1) && LoopSpec(c, multipass, raw, fuel, e2, t2)
    requires n < |t1| && n < |t2|
    ensures forall i :: 0 <= i <= n ==> t1[i] == t2[i]
  {
    if n > 0 {
      TracesAgree(c, multipass, raw, fuel, e1, t1, e2, t2, n - 1);
      assert RunCycle(c, t1[n - 1]) == Written(t1[n]);
      assert RunCycle(c, t2[n - 1]) == Written(t2[n]);
    }
  }

  /** A trace that satisfies the loop specification is not a proper prefix of another. */
  lemma NotAProperPrefix<D>(c: Cleaner<D>, multipass: bool, raw: Bytes, fuel: nat,
                            e1: LoopExit, t1: seq<Bytes>, e2: LoopExit, t2: seq<Bytes>)
    requires LoopSpec(c, multipass, raw, fuel, e1, t1) && LoopSpec(c, multipass, raw, fuel, e2, t2)
    ensures |t2| <= |t1|
  {
    if |t1| < |t2| {
      var n: nat := |t1| - 1;
      TracesAgree(c, multipass, raw, fuel, e1, t1, e2, t2, n);
      match e1 {
        case FuelExhausted => assert false;
        case ParseFailed(_) =>
          CycleBeforeLast(c, t2, n);
          assert false;
        case CleanFailed(_) =>
          CycleBeforeLast(c, t2, n);
          assert false;
        case Finished(_) =>
          ContinuesBeforeLast(c, multipass, raw, fuel, e2, t2, n);
          assert false;
      }
    }
  }

  /** The loop specification determines the run: the trace and the way the loop ended are unique. */
  lemma LoopSpecUnique<D>(c: Cleaner<D>, multipass: bool, raw: Bytes, fuel: nat,
                          e1: LoopExit, t1: seq<Bytes>, e2: LoopExit, t2: seq<Bytes>)
    requires LoopSpec(c, multipass, raw, fuel, e1, t1) && LoopSpec(c, multipass, raw, fuel, e2, t2)
    ensures t1 == t2 && e1 == e2
  {
    NotAProperPrefix(c, multipass, raw, fuel, e1, t1, e2, t2);
    NotAProperPrefix(c, multipass, raw, fuel, e2, t2, e1, t1);
    TracesAgree(c, multipass, raw, fuel, e1, t1, e2, t2, |t1| - 1);
  }

  /** Every buffer but the last let the loop go round again. */
  lemma ContinuesBeforeLast<D>(c: Cleaner<D>, multipass: bool, raw: Bytes, fuel: nat, exit: LoopExit, trace: seq<Bytes>, i: nat)
    requires LoopSpec(c, multipass, raw, fuel, exit, trace)
    requires 1 <= i < |trace| - 1
    ensures multipass && |trace[i]| != PrevSize(trace, i)
  {
    assert Continues(multipass, trace, i);
  }

  /** Without multipass exactly one cycle runs, on the input. */
  lemma OneCycleWithoutMultipass<D>(c: Cleaner<D>, raw: Bytes, fuel: nat, exit: LoopExit, trace: seq<Bytes>)
    requires LoopSpec(c, false, raw, fuel, exit, trace) && fuel >= 1
    ensures |trace| <= 2
    ensures exit == match RunCycle(c, raw)
                    case Unparsed => ParseFailed(raw)
                    case Uncleaned => CleanFailed(raw)
                    case Written(out) => Finished(out)
  {
    if |trace| > 2 {
      ContinuesBeforeLast(c, false, raw, fuel, exit, trace, 1);
      assert false;
    }
    if |trace| == 2 {
      assert !Continues(false, trace, 1);
      assert RunCycle(c, trace[0]) == Written(trace[1]);
    }
  }

  /** With multipass the loop stops after a cycle exactly when its output is as long as the previous one. */
  lemma MultipassStopsOnEqualLength<D>(c: Cleaner<D>, raw: Bytes, fuel: nat, exit: LoopExit, trace: seq<Bytes>)
    requires LoopSpec(c, true, raw, fuel, exit, trace)
    ensures exit.Finished? && |trace| == 2 ==> |exit.buf| == 0
    ensures exit.Finished? && |trace| > 2 ==> |exit.buf| == |trace[|trace| - 2]|
    ensures forall i :: 2 <= i < |trace| - 1 ==> |trace[i]| != |trace[i - 1]|
    ensures |trace| >= 2 ==> |trace[1]| != 0 || exit == Finished(trace[1])
    ensures |trace| > 2 && |trace[|trace| - 1]| == |trace[|trace| - 2]| ==> exit == Finished(trace[|trace| - 1])
  {
    forall i | 2 <= i < |trace| - 1
      ensures |trace[i]| != |trace[i - 1]|
    {
      assert Continues(true, trace, i);
    }
    if |trace| >= 3 {
      assert Continues(true, trace, 1);
    }
  }

  // ---------------------------------------------------------------------------
  // The decisions after the loop.

  /** What `on_err` does: which copy it attempts, and whether it reaches `process::exit(0)`. */
  datatype Recovery = Recovery(copy: Option<(string, string)>, exits: bool)

  /**
   * `on_err`: the input is copied to the output only when both are files, the
   * copy-on-error flag is set and the paths differ; when the copy fails, the
   * closure returns to its caller instead of exiting.
   */
  function OnError(input: InputFrom, output: OutputTo, copyOnError: bool, copyOk: bool): (r: Recovery)
    ensures r.copy.Some? <==> input.InFile? && output.OutFile? && copyOnError && input.path != output.path
    ensures r.copy.Some? ==> r.copy.value == (input.path, output.path)
    ensures r.exits <==> r.copy.None? || copyOk
  {
    if input.InFile? && output.OutFile? && copyOnError then
      if input.path != output.path then Recovery(Some((input.path, output.path)), copyOk)
      else Recovery(None, true)
    else Recovery(None, true)
  }

  /** Why `on_err` was called. */
  datatype Reason = OnParse | OnClean | OnBigger

  /** How a run of the program ends. */
  datatype Outcome =
    | InputMissing
    | LoadFailed
    /** `on_err` reached `process::exit(0)`, after the copy it made (if any). */
    | ErrorExit(reason: Reason, copied: Option<(string, string)>)
    /** The copy of `on_err` failed and `main` returned without saving. */
    | CopyFailed(reason: Reason, copy: (string, string))
    | Saved(dest: OutputTo, data: Bytes)
    | SaveFailed(dest: OutputTo, data: Bytes)
    | OutOfFuel

  /** The outcome of a call to `on_err` whose caller then returns. */
  function ErrorOutcome(reason: Reason, rec: Recovery): Outcome {
    if rec.exits || rec.copy.None? then ErrorExit(reason, rec.copy) else CopyFailed(reason, rec.copy.value)
  }

  /**
   * Lines 168-188 on the final buffer: the size check, the newline, the save.
   * `copyOk` is the answer of the copy the size check's `on_err` would make.
   */
  function Finish(opts: Options, input: InputFrom, output: OutputTo, env: Env, copyOk: bool, inputSize: nat, buf: Bytes): (r: Outcome)
    ensures r.Saved? || r.SaveFailed? || (r.ErrorExit? && r.reason == OnBigger) || (r.CopyFailed? && r.reason == OnBigger)
    ensures (r.Saved? || r.SaveFailed?) <==> opts.allowBigger || |buf| <= inputSize
    ensures r.Saved? || r.SaveFailed? ==>
      r.dest == output && r.data == (if opts.appendNewline then buf + [NEWLINE] else buf)
    ensures r.Saved? <==> env.saveOk && (opts.allowBigger || |buf| <= inputSize)
  {
    if !opts.allowBigger && |buf| > inputSize then
      ErrorOutcome(OnBigger, OnError(input, output, opts.copyOnError, copyOk))
    else
      var data := if opts.appendNewline then buf + [NEWLINE] else buf;
      if env.saveOk then Saved(output, data) else SaveFailed(output, data)
  }

  /**
   * Everything after the loop. A parse failure calls `on_err` and returns; a
   * clean failure calls `on_err` and, when that returns (its copy failed),
   * breaks out of the loop with the buffer it had, which is then checked and
   * saved like a finished one; a second `on_err` there makes a second copy.
   */
  function AfterLoop(opts: Options, input: InputFrom, output: OutputTo, env: Env, inputSize: nat, exit: LoopExit): Outcome {
    match exit
    case FuelExhausted => OutOfFuel
    case ParseFailed(_) => ErrorOutcome(OnParse, OnError(input, output, opts.copyOnError, env.copyOk))
    case CleanFailed(buf) =>
      var rec := OnError(input, output, opts.copyOnError, env.copyOk);
      if rec.exits then ErrorExit(OnClean, rec.copy) else Finish(opts, input, output, env, env.retryCopyOk, inputSize, buf)
    case Finished(buf) => Finish(opts, input, output, env, env.copyOk, inputSize, buf)
  }

  /** `main` from the missing-input check onwards. */
  method Run<D>(c: Cleaner<D>, opts: Options, input: InputFrom, output: OutputTo, env: Env, fuel: nat)
    returns (r: Outcome, ghost exit: LoopExit, ghost trace: seq<Bytes>)
    ensures input.InFile? && !env.inputExists ==> r == InputMissing
    ensures (input.Stdin? || env.inputExists) && env.loaded.None? ==> r == LoadFailed
    ensures (input.Stdin? || env.inputExists) && env.loaded.Some? ==>
      && LoopSpec(c, opts.multipass, env.loaded.value, fuel, exit, trace)
      && r == AfterLoop(opts, input, output, env, |env.loaded.value|, exit)
  {
    exit, trace := FuelExhausted, [];
    if input.InFile? && !env.inputExists {
      return InputMissing, exit, trace;
    }
    if env.loaded.None? {
      return LoadFailed, exit, trace;
    }
    var raw := env.loaded.value;
    var inputSize := |raw|;
    var e;
    e, trace := CleanLoop(c, opts.multipass, raw, fuel);
    exit := e;
    match e {
      case FuelExhausted =>
        r := OutOfFuel;
      case ParseFailed(_) =>
        var rec := OnError(input, output, opts.copyOnError, env.copyOk);
        r := ErrorOutcome(OnParse, rec);
      case CleanFailed(b) =>
        var rec := OnError(input, output, opts.copyOnError, env.copyOk);
        if rec.exits {
          r := ErrorExit(OnClean, rec.copy);
        } else {
          r := SaveResult(opts, input, output, env, env.retryCopyOk, inputSize, b);
        }
      case Finished(b) =>
        r := SaveResult(opts, input, output, env, env.copyOk, inputSize, b);
    }
  }

  /** Lines 168-188 as the program runs them: the size check, then the newline, then the save. */
  method SaveResult(opts: Options, input: InputFrom, output: OutputTo, env: Env, copyOk: bool, inputSize: nat, buf: Bytes)
    returns (r: Outcome)
    ensures r == Finish(opts, input, output, env, copyOk, inputSize, buf)
  {
    if !opts.allowBigger {
      if |buf| > inputSize {
        var rec := OnError(input, output, opts.copyOnError, copyOk);
        return ErrorOutcome(OnBigger, rec);
      }
    }
    var data := buf;
    if opts.appendNewline {
      data := data + [NEWLINE];
    }
    if env.saveOk {
      r := Saved(output, data);
    } else {
      r := SaveFailed(output, data);
    }
  }

  // ---------------------------------------------------------------------------
  // Policies of the whole run.

  /** Unless bigger files are allowed, what is saved is at most the input's size, plus the newline when one is asked for. */
  lemma SavedNotBigger(opts: Options, input: InputFrom, output: OutputTo, env: Env, inputSize: nat, exit: LoopExit)
    requires !opts.allowBigger
    requires AfterLoop(opts, input, output, env, inputSize, exit).Saved?
    ensures |AfterLoop(opts, input, output, env, inputSize, exit).data| <= inputSize + (if opts.appendNewline then 1 else 0)
  {
  }

  /** The newline is added after the size check: an output as long as the input is saved one byte longer. */
  lemma NewlineAfterSizeCheck(opts: Options, input: InputFrom, output: OutputTo, env: Env, copyOk: bool, buf: Bytes)
    requires opts.appendNewline && env.saveOk
    ensures Finish(opts, input, output, env, copyOk, |buf|, buf) == Saved(output, buf + [NEWLINE])
    ensures |Finish(opts, input, output, env, copyOk, |buf|, buf).data| == |buf| + 1
  {
  }

  /** A failed parse never saves anything. */
  lemma ParseFailureSavesNothing(opts: Options, input: InputFrom, output: OutputTo, env: Env, inputSize: nat, b: Bytes)
    ensures !AfterLoop(opts, input, output, env, inputSize, ParseFailed(b)).Saved?
    ensures !AfterLoop(opts, input, output, env, inputSize, ParseFailed(b)).SaveFailed?
  {
  }

  /**
   * A failed clean saves nothing when `on_err` exits; and when `on_err`'s copy
   * fails, what can be saved is the buffer the failing cycle started from, not
   * a cleaned one.
   */
  lemma CleanFailureKeepsOldBuffer(opts: Options, input: InputFrom, output: OutputTo, env: Env, inputSize: nat, b: Bytes)
    ensures var r := AfterLoop(opts, input, output, env, inputSize, CleanFailed(b));
      && (OnError(input, output, opts.copyOnError, env.copyOk).exits ==> r.ErrorExit? && r.reason == OnClean)
      && (r.Saved? || r.SaveFailed? ==>
            input.InFile? && output.OutFile? && opts.copyOnError && input.path != output.path && !env.copyOk
            && r.data == (if opts.appendNewline then b + [NEWLINE] else b))
  {
  }

  /** Copy-on-error copies only between two different files, and only when the flag is set. */
  lemma CopyOnlyBetweenDifferentFiles(opts: Options, input: InputFrom, output: OutputTo, env: Env, inputSize: nat, exit: LoopExit)
    ensures var r := AfterLoop(opts, input, output, env, inputSize, exit);
      r.ErrorExit? && r.copied.Some? ==>
        && opts.copyOnError && input.InFile? && output.OutFile? && input.path != output.path
        && r.copied.value == (input.path, output.path)
        && (if exit.CleanFailed? && r.reason == OnBigger then env.retryCopyOk else env.copyOk)
  {
  }

  /**
   * After a clean failure whose copy failed, a kept buffer bigger than the
   * input sends the run to `on_err` again, and that second copy decides how
   * the run ends.
   */
  lemma CopyRetriedAfterBiggerBuffer(opts: Options, input: InputFrom, output: OutputTo, env: Env, inputSize: nat, b: Bytes)
    requires input.InFile? && output.OutFile? && opts.copyOnError && input.path != output.path
    requires !env.copyOk && !opts.allowBigger && |b| > inputSize
    ensures var r := AfterLoop(opts, input, output, env, inputSize, CleanFailed(b));
      r == if env.retryCopyOk then ErrorExit(OnBigger, Some((input.path, output.path)))
           else CopyFailed(OnBigger, (input.path, output.path))
  {
  }
}
