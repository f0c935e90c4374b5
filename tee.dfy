/** Tee.main: parse the arguments, then answer --help or --version, reject an invalid
    option, or open the outputs, copy standard input to them and close what is left. */
module TeeMain {
  import Parser
  import opened Copier

  /** How a run of tee ends. --help and --version print fixed text on standard output
      and open nothing; an invalid option is reported and the process exits with status
      1; otherwise the run leaves every stream it opened and the diagnostics it printed. */
  datatype Run =
    | ShowHelp
    | ShowVersion
    | Rejected(arg: string)
    | Copied(streams: seq<Stream>, log: seq<Diagnostic>)

  /** A copying run with options (append, files): the diagnostics come in phase order —
      failed opens, failed writes chunk by chunk, a read error, failed closes. */
  function CopyRun(append: bool, files: seq<string>, input: Input, env: Environment): Run
  {
    var paths := OpenedPaths(files, env.failedOpens);
    var outs := InitialOutputs(paths);
    var streams := InitialStreams(paths, append);
    var n := |input.chunks|;
    var live := Survivors(outs, env.failedWrites, n);
    InitialValid(paths, append);
    SurvivorsConsistent(outs, streams, input.chunks, env.failedWrites, n);
    Copied(CloseEach(CopiedStreams(streams, outs, input.chunks, env.failedWrites, n), live, |live|),
           OpenFailures(files, env.failedOpens) + CopyFailures(outs, env, n)
           + (if input.endsInError then [ReadFailed] else []) + CloseFailures(live, env.failedCloses))
  }

  /** What one run of tee does with arguments `args`, standard input `input` and the
      platform's failures `env`. */
  function Expected(args: seq<string>, input: Input, env: Environment): Run
  {
    var options := Parser.Outcome(args);
    if options.Help? then ShowHelp
    else if options.Version? then ShowVersion
    else if options.WrongOption? then Rejected(options.arg)
    else CopyRun(options.append, options.files, input, env)
  }

  /** Tee.main. The copy runs inside try/finally, so the outputs still live are closed
      however the copy ends. */
  method Execute(args: seq<string>, input: Input, env: Environment) returns (run: Run)
    ensures run == Expected(args, input, env)
  {
    var options := Parser.Parse(args);
    if options.Help? {
      run := ShowHelp;
    } else if options.Version? {
      run := ShowVersion;
    } else if options.WrongOption? {
      run := Rejected(options.arg);
    } else {
      var tee := new Tee.GetOutputs(options.files, options.append, env.failedOpens);
      tee.WriteToOutputs(input, env);
      tee.CloseAll(env.failedCloses);
      run := Copied(tee.streams, tee.log);
    }
  }

  // ---------------------------------------------------------------------------
  // Lemmas

  /** Each stream is closed exactly once over the run: either when a write to it fails
      or in the teardown loop. */
  lemma EveryStreamClosedOnce(append: bool, files: seq<string>, input: Input, env: Environment)
    ensures var run := CopyRun(append, files, input, env);
      forall h :: 0 <= h < |run.streams| ==> run.streams[h].closeCalls == 1
  {
    var run := CopyRun(append, files, input, env);
    forall h | 0 <= h < |run.streams| ensures run.streams[h].closeCalls == 1 {
      StreamAtEnd(append, files, input, env, h);
    }
  }

  /** Standard output receives the whole input whenever no write to it fails, however
      the files fare (the copy to standard output does not depend on the files). */
  lemma StdoutMirrorsInput(append: bool, files: seq<string>, input: Input, env: Environment)
    requires forall k :: 0 <= k < |input.chunks| ==> WriteOk(env.failedWrites, k, 0)
    ensures var run := CopyRun(append, files, input, env);
      |run.streams| > 0 && run.streams[0] == Stream(StdOut, Concat(input.chunks), 1)
  {
    StreamAtEnd(append, files, input, env, 0);
    AllDelivered(env.failedWrites, 0, |input.chunks|);
    assert input.chunks[..|input.chunks|] == input.chunks;
  }

  /** A read error is reported exactly when the input ends in one, and then once:
      reading goes on to the end of the input even when no output is left. */
  lemma ReadErrorReported(append: bool, files: seq<string>, input: Input, env: Environment)
    ensures var run := CopyRun(append, files, input, env);
      multiset(run.log)[ReadFailed] == (if input.endsInError then 1 else 0)
  {
    var paths := OpenedPaths(files, env.failedOpens);
    var outs := InitialOutputs(paths);
    var live := Survivors(outs, env.failedWrites, |input.chunks|);
    var opens := OpenFailures(files, env.failedOpens);
    var copies := CopyFailures(outs, env, |input.chunks|);
    var closes := CloseFailures(live, env.failedCloses);
    OpenFailuresKind(files, env.failedOpens);
    CopyFailuresKind(outs, env, |input.chunks|);
    CloseFailuresKind(live, env.failedCloses);
    assert ReadFailed !in opens && ReadFailed !in copies && ReadFailed !in closes;
  }

  /** With no failure anywhere, every file is opened, every stream receives the whole
      input and is closed once, and the only possible diagnostic is a read error. */
  lemma NoFailuresCopyEverywhere(append: bool, files: seq<string>, input: Input, env: Environment)
    requires env.failedOpens == {} && env.failedWrites == {} && env.failedCloses == {}
    ensures var run := CopyRun(append, files, input, env);
      |run.streams| == |files| + 1
      && (forall h :: 0 <= h < |run.streams| ==>
            run.streams[h].written == Concat(input.chunks) && run.streams[h].closeCalls == 1)
      && run.log == (if input.endsInError then [ReadFailed] else [])
  {
    var run := CopyRun(append, files, input, env);
    var n := |input.chunks|;
    AllOpensSucceed(files, env.failedOpens);
    var outs := InitialOutputs(files);
    var live := Survivors(outs, env.failedWrites, n);
    forall h | 0 <= h < |run.streams|
      ensures run.streams[h].written == Concat(input.chunks) && run.streams[h].closeCalls == 1
    {
      StreamAtEnd(append, files, input, env, h);
      AllDelivered(env.failedWrites, h, n);
      assert input.chunks[..n] == input.chunks;
    }
    NoCopyFailures(outs, env, n);
    NoCloseFailures(live, env.failedCloses);
  }

  /** Stream h at the end of a copying run: streams are standard output, then the
      opened files in the order given; each holds exactly the chunks before its first
      failed write, in order, and was closed once. */
  lemma StreamAtEnd(append: bool, files: seq<string>, input: Input, env: Environment, h: nat)
    ensures var run := CopyRun(append, files, input, env);
      var paths := OpenedPaths(files, env.failedOpens);
      |run.streams| == |paths| + 1
      && (h < |run.streams| ==>
            run.streams[h].written == Concat(input.chunks[..ChunksDelivered(env.failedWrites, h, |input.chunks|)])
            && run.streams[h].closeCalls == 1
            && run.streams[h].target == (if h == 0 then StdOut else File(paths[h - 1], append)))
  {
    var paths := OpenedPaths(files, env.failedOpens);
    var outs := InitialOutputs(paths);
    var streams := InitialStreams(paths, append);
    InitialValid(paths, append);
    if h < |streams| {
      assert outs[h].stream == h;
      assert streams[h] == Stream(if h == 0 then StdOut else File(paths[h - 1], append), [], 0);
      ClosedOnceAfterTeardown(streams, outs, input.chunks, env.failedWrites, outs[h]);
    }
  }

  /** A stream whose writes of the first k chunks all succeed receives all k. */
  lemma {:induction false} AllDelivered(failedWrites: set<Write>, h: nat, k: nat)
    requires forall j :: 0 <= j < k ==> WriteOk(failedWrites, j, h)
    ensures ChunksDelivered(failedWrites, h, k) == k
  {
  }

  /** The open phase reports only failed opens. */
  lemma {:induction false} OpenFailuresKind(files: seq<string>, failedOpens: set<nat>)
    ensures forall d :: d in OpenFailures(files, failedOpens) ==> d.OpenFailed?
    decreases |files|
  {
    if files != [] {
      OpenFailuresKind(files[..|files| - 1], failedOpens);
    }
  }

  /** Writing one chunk reports only failed writes. */
  lemma {:induction false} WriteFailuresKind(outs: seq<Output>, n: nat, env: Environment, k: nat)
    requires n <= |outs|
    ensures forall d :: d in WriteFailures(outs, n, env, k) ==> d.WriteFailed?
    decreases n
  {
    if n > 0 {
      WriteFailuresKind(outs, n - 1, env, k);
    }
  }

  /** The copy phase reports only failed writes (the read error is added after it). */
  lemma {:induction false} CopyFailuresKind(outs: seq<Output>, env: Environment, k: nat)
    ensures forall d :: d in CopyFailures(outs, env, k) ==> d.WriteFailed?
    decreases k
  {
    if k > 0 {
      CopyFailuresKind(outs, env, k - 1);
      var live := Survivors(outs, env.failedWrites, k - 1);
      WriteFailuresKind(live, |live|, env, k - 1);
    }
  }

  /** The teardown loop reports only failed closes. */
  lemma {:induction false} CloseFailuresKind(outs: seq<Output>, failedCloses: set<nat>)
    ensures forall d :: d in CloseFailures(outs, failedCloses) ==> d.CloseFailed?
    decreases |outs|
  {
    if outs != [] {
      CloseFailuresKind(outs[..|outs| - 1], failedCloses);
    }
  }

  /** Without failed writes, copying reports nothing. */
  lemma {:induction false} NoCopyFailures(outs: seq<Output>, env: Environment, k: nat)
    requires env.failedWrites == {}
    ensures CopyFailures(outs, env, k) == []
    decreases k
  {
    if k > 0 {
      NoCopyFailures(outs, env, k - 1);
      var live := Survivors(outs, env.failedWrites, k - 1);
      KeepCount(live, |live|, env, k - 1);
      KeepAll(live, |live|, env.failedWrites, k - 1);
    }
  }

  /** Without failed writes, every output is kept. */
  lemma {:induction false} KeepAll(outs: seq<Output>, n: nat, failedWrites: set<Write>, k: nat)
    requires n <= |outs| && failedWrites == {}
    ensures |Keep(outs, n, failedWrites, k)| == n
    decreases n
  {
    if n > 0 {
      KeepAll(outs, n - 1, failedWrites, k);
    }
  }

  /** Without failed closes, the teardown loop reports nothing. */
  lemma {:induction false} NoCloseFailures(outs: seq<Output>, failedCloses: set<nat>)
    requires failedCloses == {}
    ensures CloseFailures(outs, failedCloses) == []
    decreases |outs|
  {
    if outs != [] {
      NoCloseFailures(outs[..|outs| - 1], failedCloses);
    }
  }
}
