/** The fan-out copier of tee: opening the outputs (Tee.getOutputs), copying standard
    input to every live output (Tee.writeToOutputs) and closing what is left (the
    teardown loop of Tee.main). Streams, standard input and the platform's successes
    and failures are abstract: a stream is the record of what was done to it, input is
    a sequence of chunks, and an Environment says which open, write and close calls
    succeed. */
module Copier {

  newtype byte = b: int | 0 <= b < 256

  /** Where a stream's bytes go: standard output, or a file opened in append or
      truncate mode. */
  datatype Target = StdOut | File(path: string, append: bool)

  /** One output stream: its target, the bytes written through it and the number of
      times it was closed. */
  datatype Stream = Stream(target: Target, written: seq<byte>, closeCalls: nat)

  /** Tee.Output: a stream, named by its handle (its index in Tee.streams), and the
      name that diagnostics use for it. */
  datatype Output = Output(stream: nat, fileName: string)

  /** A line on the diagnostic stream. A write failure records whether closing the
      stream failed too (that error is attached to the write error, not printed). */
  datatype Diagnostic =
    | OpenFailed(path: string)
    | WriteFailed(fileName: string, closeAlsoFailed: bool)
    | ReadFailed
    | CloseFailed(fileName: string)

  /** The write of chunk k (counting from 0) to the stream with handle h. */
  datatype Write = Write(chunk: nat, handle: nat)

  /** Which calls into the platform fail: opening the i-th file of the list, writing
      chunk k to stream h, closing stream h (each stream is closed at most once). */
  datatype Environment = Environment(
    failedOpens: set<nat>,
    failedWrites: set<Write>,
    failedCloses: set<nat>)

  predicate OpenOk(failedOpens: set<nat>, i: nat) {
    i !in failedOpens
  }

  predicate WriteOk(failedWrites: set<Write>, k: nat, h: nat) {
    Write(k, h) !in failedWrites
  }

  /** Standard input: the chunks that successive reads return, then either end of
      input or a read error. */
  datatype Input = Input(chunks: seq<seq<byte>>, endsInError: bool)

  datatype ReadResult = Data(chunk: seq<byte>) | Eof | ReadError

  /** The k-th call of the read on standard input. */
  function Read(input: Input, k: nat): ReadResult
  {
    if k < |input.chunks| then Data(input.chunks[k])
    else if input.endsInError then ReadError
    else Eof
  }

  /** The bytes of a sequence of chunks, in order. */
  function Concat(chunks: seq<seq<byte>>): seq<byte>
  {
    if chunks == [] then [] else Concat(chunks[..|chunks| - 1]) + chunks[|chunks| - 1]
  }

  // ---------------------------------------------------------------------------
  // Opening (Tee.getOutputs)

  /** The files whose open succeeds, in the order given. */
  function OpenedPaths(files: seq<string>, failedOpens: set<nat>): seq<string>
  {
    if files == [] then []
    else
      var i := |files| - 1;
      OpenedPaths(files[..i], failedOpens) + (if OpenOk(failedOpens, i) then [files[i]] else [])
  }

  /** The diagnostics of the files whose open fails, in the order given. */
  function OpenFailures(files: seq<string>, failedOpens: set<nat>): seq<Diagnostic>
  {
    if files == [] then []
    else
      var i := |files| - 1;
      OpenFailures(files[..i], failedOpens) + (if OpenOk(failedOpens, i) then [] else [OpenFailed(files[i])])
  }

  /** Standard output, labelled "stdout", with handle 0, then the opened files with
      handles 1, 2, ... */
  function InitialOutputs(paths: seq<string>): (outs: seq<Output>)
  {
    [Output(0, "stdout")] + seq(|paths|, i requires 0 <= i < |paths| => Output(i + 1, paths[i]))
  }

  /** The streams behind InitialOutputs(paths), nothing written to them yet. */
  function InitialStreams(paths: seq<string>, append: bool): (streams: seq<Stream>)
  {
    [Stream(StdOut, [], 0)] + seq(|paths|, i requires 0 <= i < |paths| => Stream(File(paths[i], append), [], 0))
  }

  // ---------------------------------------------------------------------------
  // Copying (Tee.writeToOutputs)

  /** The handles of a list of outputs. */
  function Handles(outs: seq<Output>): set<nat>
  {
    set o | o in outs :: o.stream
  }

  /** How many of the first k chunks stream h receives: those before its first failed
      write. */
  function ChunksDelivered(failedWrites: set<Write>, h: nat, k: nat): (d: nat)
    ensures d <= k
    ensures forall j :: 0 <= j < d ==> WriteOk(failedWrites, j, h)
    ensures d < k ==> !WriteOk(failedWrites, d, h)
  {
    if k == 0 then 0
    else
      var d := ChunksDelivered(failedWrites, h, k - 1);
      if d == k - 1 && WriteOk(failedWrites, k - 1, h) then k else d
  }

  /** The first n of `outs`, in order, less those whose write of chunk k fails. */
  function Keep(outs: seq<Output>, n: nat, failedWrites: set<Write>, k: nat): (kept: seq<Output>)
    requires n <= |outs|
  {
    if n == 0 then []
    else
      var o := outs[n - 1];
      Keep(outs, n - 1, failedWrites, k) + (if WriteOk(failedWrites, k, o.stream) then [o] else [])
  }

  /** The outputs, in order, whose writes of all of the first k chunks succeed. */
  function Survivors(outs: seq<Output>, failedWrites: set<Write>, k: nat): (live: seq<Output>)
  {
    if outs == [] then []
    else
      var o := outs[|outs| - 1];
      Survivors(outs[..|outs| - 1], failedWrites, k)
        + (if ChunksDelivered(failedWrites, o.stream, k) == k then [o] else [])
  }

  /** The diagnostics, in list order, of the first n of `outs` whose write of chunk k fails. */
  function WriteFailures(outs: seq<Output>, n: nat, env: Environment, k: nat): seq<Diagnostic>
    requires n <= |outs|
  {
    if n == 0 then []
    else
      var o := outs[n - 1];
      WriteFailures(outs, n - 1, env, k)
        + (if WriteOk(env.failedWrites, k, o.stream) then [] else [Report(o, env.failedCloses)])
  }

  /** The diagnostic of an output whose write fails: its label, and whether closing its
      stream failed too. */
  function Report(o: Output, failedCloses: set<nat>): Diagnostic
  {
    WriteFailed(o.fileName, o.stream in failedCloses)
  }

  /** The diagnostics of the outputs `lost`, in that order. */
  function Reports(lost: seq<Output>, failedCloses: set<nat>): (r: seq<Diagnostic>)
    ensures |r| == |lost|
  {
    if lost == [] then []
    else Reports(lost[..|lost| - 1], failedCloses) + [Report(lost[|lost| - 1], failedCloses)]
  }

  /** The first n of `outs`, in order, whose write of chunk k fails. */
  function Dropped(outs: seq<Output>, n: nat, failedWrites: set<Write>, k: nat): seq<Output>
    requires n <= |outs|
  {
    if n == 0 then []
    else
      var o := outs[n - 1];
      Dropped(outs, n - 1, failedWrites, k) + (if WriteOk(failedWrites, k, o.stream) then [] else [o])
  }

  /** The outputs removed from the live list while copying the first k chunks, in the
      order of removal: chunk by chunk, and in list order within a chunk. */
  function Lost(outs: seq<Output>, failedWrites: set<Write>, k: nat): seq<Output>
  {
    if k == 0 then []
    else
      var live := Survivors(outs, failedWrites, k - 1);
      Lost(outs, failedWrites, k - 1) + Dropped(live, |live|, failedWrites, k - 1)
  }

  /** The diagnostics of copying the first k chunks, chunk by chunk. */
  function CopyFailures(outs: seq<Output>, env: Environment, k: nat): seq<Diagnostic>
  {
    if k == 0 then []
    else
      var live := Survivors(outs, env.failedWrites, k - 1);
      CopyFailures(outs, env, k - 1) + WriteFailures(live, |live|, env, k - 1)
  }

  /** The handles of `outs` increase strictly along the list: each stream is named once,
      in the order the streams were opened. */
  predicate Ascending(outs: seq<Output>) {
    forall i, j :: 0 <= i < j < |outs| ==> outs[i].stream < outs[j].stream
  }

  /** Every handle of `outs` names one of n streams. */
  predicate InRange(outs: seq<Output>, n: nat) {
    forall i :: 0 <= i < |outs| ==> outs[i].stream < n
  }

  /** The live list `outs` names open streams among `streams`, each once, in the order
      they were opened. */
  predicate Consistent(outs: seq<Output>, streams: seq<Stream>) {
    InRange(outs, |streams|) && Ascending(outs)
    && forall i :: 0 <= i < |outs| ==> streams[outs[i].stream].closeCalls == 0
  }

  /** One attempt to write a chunk: on success the stream holds the chunk after what it
      held; on failure the stream is closed. */
  function Attempt(s: Stream, chunk: seq<byte>, ok: bool): Stream
  {
    if ok then s.(written := s.written + chunk) else s.(closeCalls := s.closeCalls + 1)
  }

  /** The streams after chunk k has been offered to each of the first n of `outs` in turn. */
  function Offer(streams: seq<Stream>, outs: seq<Output>, n: nat, chunk: seq<byte>, failedWrites: set<Write>, k: nat): (r: seq<Stream>)
    requires n <= |outs| && InRange(outs, |streams|)
    ensures |r| == |streams|
  {
    if n == 0 then streams
    else
      var h := outs[n - 1].stream;
      var before := Offer(streams, outs, n - 1, chunk, failedWrites, k);
      before[h := Attempt(before[h], chunk, WriteOk(failedWrites, k, h))]
  }

  /** Stream h, live at the start, after the first k chunks: it holds the chunks before
      its first failed write, and it was closed once if such a failure happened. */
  function AfterCopy(s: Stream, chunks: seq<seq<byte>>, failedWrites: set<Write>, h: nat, k: nat): Stream
    requires k <= |chunks|
  {
    var d := ChunksDelivered(failedWrites, h, k);
    s.(written := s.written + Concat(chunks[..d]), closeCalls := s.closeCalls + if d < k then 1 else 0)
  }

  /** All streams after the first k chunks, when the outputs `outs` were live at the start. */
  function CopiedStreams(streams: seq<Stream>, outs: seq<Output>, chunks: seq<seq<byte>>, failedWrites: set<Write>, k: nat): (r: seq<Stream>)
    requires k <= |chunks|
    ensures |r| == |streams|
  {
    seq(|streams|, h requires 0 <= h < |streams| =>
      if h in Handles(outs) then AfterCopy(streams[h], chunks, failedWrites, h, k) else streams[h])
  }

  /** The streams after the first k chunks, written chunk by chunk, each chunk offered to
      the outputs still live when it is read. */
  function OfferEach(streams: seq<Stream>, outs: seq<Output>, chunks: seq<seq<byte>>, failedWrites: set<Write>, k: nat): (r: seq<Stream>)
    requires k <= |chunks| && InRange(outs, |streams|)
    ensures |r| == |streams|
  {
    if k == 0 then streams
    else
      var live := Survivors(outs, failedWrites, k - 1);
      SurvivorsInRange(outs, |streams|, failedWrites, k - 1);
      Offer(OfferEach(streams, outs, chunks, failedWrites, k - 1), live, |live|, chunks[k - 1], failedWrites, k - 1)
  }

  // ---------------------------------------------------------------------------
  // Teardown (the finally block of Tee.main)

  /** The streams after each of the first n of `outs` has been closed. */
  function CloseEach(streams: seq<Stream>, outs: seq<Output>, n: nat): (r: seq<Stream>)
    requires n <= |outs| && InRange(outs, |streams|)
    ensures |r| == |streams|
  {
    if n == 0 then streams
    else
      var h := outs[n - 1].stream;
      var before := CloseEach(streams, outs, n - 1);
      before[h := before[h].(closeCalls := before[h].closeCalls + 1)]
  }

  /** The diagnostics, in list order, of the outputs whose close fails. */
  function CloseFailures(outs: seq<Output>, failedCloses: set<nat>): seq<Diagnostic>
  {
    if outs == [] then []
    else
      var o := outs[|outs| - 1];
      CloseFailures(outs[..|outs| - 1], failedCloses) + (if o.stream in failedCloses then [CloseFailed(o.fileName)] else [])
  }

  /** The inner loop of Tee.writeToOutputs: write chunk k to every live output in list
      order; an output whose write fails is closed, reported and removed in place
      (iterator.remove()), and the others still receive the chunk. */
  method WriteChunk(outputs: seq<Output>, streams: seq<Stream>, log: seq<Diagnostic>, chunk: seq<byte>, k: nat, env: Environment)
    returns (live: seq<Output>, strs: seq<Stream>, diags: seq<Diagnostic>)
    requires InRange(outputs, |streams|)
    ensures live == Keep(outputs, |outputs|, env.failedWrites, k)
    ensures strs == Offer(streams, outputs, |outputs|, chunk, env.failedWrites, k)
    ensures diags == log + WriteFailures(outputs, |outputs|, env, k)
  {
    live, strs, diags := outputs, streams, log;
    var i := 0;
    ghost var p := 0;
    while i < |live|
      invariant 0 <= p <= |outputs| && i == |Keep(outputs, p, env.failedWrites, k)|
      invariant |strs| == |streams| && |live| - i == |outputs| - p
      invariant live == Keep(outputs, p, env.failedWrites, k) + outputs[p..]
      invariant strs == Offer(streams, outputs, p, chunk, env.failedWrites, k)
      invariant diags == log + WriteFailures(outputs, p, env, k)
      decreases |outputs| - p
    {
      var output := live[i];
      var h := output.stream;
      ChunkStep(outputs, streams, log, p, live, strs, diags, i, output, chunk, env, k);
      if WriteOk(env.failedWrites, k, h) {
        strs := strs[h := strs[h].(written := strs[h].written + chunk)];
        i := i + 1;
      } else {
        strs := strs[h := strs[h].(closeCalls := strs[h].closeCalls + 1)];
        live := live[..i] + live[i + 1..];
        diags := diags + [Report(output, env.failedCloses)];
      }
      p := p + 1;
    }
    assert p == |outputs| && outputs[p..] == [];
  }

  /** Tee.writeToOutputs: read chunks until end of input or a read error and write each
      to the outputs still live; reading goes on even when none is left, and a read
      error is reported once. */
  method CopyChunks(outputs: seq<Output>, streams: seq<Stream>, log: seq<Diagnostic>, input: Input, env: Environment)
    returns (live: seq<Output>, strs: seq<Stream>, diags: seq<Diagnostic>)
    requires Consistent(outputs, streams)
    ensures live == Survivors(outputs, env.failedWrites, |input.chunks|)
    ensures strs == CopiedStreams(streams, outputs, input.chunks, env.failedWrites, |input.chunks|)
    ensures diags == log + CopyFailures(outputs, env, |input.chunks|)
                     + (if input.endsInError then [ReadFailed] else [])
    ensures Consistent(live, strs)
  {
    live, strs, diags := outputs, streams, log;
    SurvivorsNone(outputs, env.failedWrites);
    var k := 0;
    var r := Read(input, k);
    while r.Data?
      invariant k <= |input.chunks| && r == Read(input, k)
      invariant live == Survivors(outputs, env.failedWrites, k)
      invariant strs == OfferEach(streams, outputs, input.chunks, env.failedWrites, k)
      invariant diags == log + CopyFailures(outputs, env, k)
      decreases |input.chunks| - k
    {
      CopyStep(outputs, streams, log, input.chunks, env, k, live, diags);
      live, strs, diags := WriteChunk(live, strs, diags, r.chunk, k, env);
      k := k + 1;
      r := Read(input, k);
    }
    assert k == |input.chunks| && (r.ReadError? <==> input.endsInError);
    if r.ReadError? {
      diags := diags + [ReadFailed];
    }
    OfferEachCopies(streams, outputs, input.chunks, env.failedWrites, k);
    SurvivorsConsistent(outputs, streams, input.chunks, env.failedWrites, k);
  }

  // ---------------------------------------------------------------------------
  // The state of a run

  /** The outputs of one run of tee: every stream it opened (`streams`), the live list
      (`outputs`, a LinkedList in Tee) and the diagnostic stream (`log`). */
  class Tee {
    var streams: seq<Stream>
    var outputs: seq<Output>
    var log: seq<Diagnostic>

    /** The live list names open streams, each once, in the order they were opened. */
    ghost predicate Valid()
      reads this
    {
      Consistent(outputs, streams)
    }

    /** Tee.getOutputs: standard output first, then each file, in order, whose open
        succeeds; a failed open is reported and skipped, and the rest are still tried. */
    constructor GetOutputs(files: seq<string>, append: bool, failedOpens: set<nat>)
      ensures Valid()
      ensures outputs == InitialOutputs(OpenedPaths(files, failedOpens))
      ensures streams == InitialStreams(OpenedPaths(files, failedOpens), append)
      ensures log == OpenFailures(files, failedOpens)
    {
      var outs := [Output(0, "stdout")];
      var strs := [Stream(StdOut, [], 0)];
      var diags := [];
      for i := 0 to |files|
        invariant outs == InitialOutputs(OpenedPaths(files[..i], failedOpens))
        invariant strs == InitialStreams(OpenedPaths(files[..i], failedOpens), append)
        invariant diags == OpenFailures(files[..i], failedOpens)
      {
        OpenStep(files, i, failedOpens, append);
        if OpenOk(failedOpens, i) {
          outs := outs + [Output(|strs|, files[i])];
          strs := strs + [Stream(File(files[i], append), [], 0)];
        } else {
          diags := diags + [OpenFailed(files[i])];
        }
      }
      assert files[..|files|] == files;
      streams, outputs, log := strs, outs, diags;
      InitialValid(OpenedPaths(files, failedOpens), append);
    }

    /** Tee.writeToOutputs on the outputs opened by GetOutputs, which it keeps
        consistent. */
    method WriteToOutputs(input: Input, env: Environment)
      requires Valid()
      modifies this
      ensures Valid()
      ensures outputs == Survivors(old(outputs), env.failedWrites, |input.chunks|)
      ensures streams == CopiedStreams(old(streams), old(outputs), input.chunks, env.failedWrites, |input.chunks|)
      ensures log == old(log) + CopyFailures(old(outputs), env, |input.chunks|)
                     + (if input.endsInError then [ReadFailed] else [])
    {
      outputs, streams, log := CopyChunks(outputs, streams, log, input, env);
    }

    /** The teardown loop of Tee.main: close every output still live, report each
        failed close, and go on closing the rest. */
    method CloseAll(failedCloses: set<nat>)
      requires Valid()
      modifies this
      ensures outputs == old(outputs)
      ensures streams == CloseEach(old(streams), outputs, |outputs|)
      ensures log == old(log) + CloseFailures(outputs, failedCloses)
    {
      ghost var streams0 := streams;
      for i := 0 to |outputs|
        invariant outputs == old(outputs)
        invariant streams == CloseEach(streams0, outputs, i)
        invariant log == old(log) + CloseFailures(outputs[..i], failedCloses)
      {
        assert outputs[..i + 1][..i] == outputs[..i];
        var output := outputs[i];
        var h := output.stream;
        streams := streams[h := streams[h].(closeCalls := streams[h].closeCalls + 1)];
        if h in failedCloses {
          log := log + [CloseFailed(output.fileName)];
        }
      }
      assert outputs[..|outputs|] == outputs;
    }
  }

  // ---------------------------------------------------------------------------
  // Lemmas

  /** Trying one more file either adds it, with the next handle, or reports it. */
  lemma OpenStep(files: seq<string>, i: nat, failedOpens: set<nat>, append: bool)
    requires i < |files|
    ensures var before := OpenedPaths(files[..i], failedOpens);
      && InitialOutputs(OpenedPaths(files[..i + 1], failedOpens))
         == InitialOutputs(before) + (if OpenOk(failedOpens, i) then [Output(|before| + 1, files[i])] else [])
      && InitialStreams(OpenedPaths(files[..i + 1], failedOpens), append)
         == InitialStreams(before, append) + (if OpenOk(failedOpens, i) then [Stream(File(files[i], append), [], 0)] else [])
      && |InitialStreams(before, append)| == |before| + 1
      && OpenFailures(files[..i + 1], failedOpens)
         == OpenFailures(files[..i], failedOpens) + (if OpenOk(failedOpens, i) then [] else [OpenFailed(files[i])])
  {
    assert files[..i + 1][..i] == files[..i];
    var before := OpenedPaths(files[..i], failedOpens);
    if OpenOk(failedOpens, i) {
      var after := before + [files[i]];
      assert InitialOutputs(after) == InitialOutputs(before) + [Output(|before| + 1, files[i])];
      assert InitialStreams(after, append) == InitialStreams(before, append) + [Stream(File(files[i], append), [], 0)];
    }
  }

  /** The outputs and streams that Tee.getOutputs builds satisfy the invariant, and
      their handles are exactly the streams opened. */
  lemma InitialValid(paths: seq<string>, append: bool)
    ensures Consistent(InitialOutputs(paths), InitialStreams(paths, append))
    ensures forall h: nat :: h in Handles(InitialOutputs(paths)) <==> h < |InitialStreams(paths, append)|
  {
    var outs := InitialOutputs(paths);
    assert forall i :: 0 <= i < |outs| ==> outs[i].stream == i;
    forall h | 0 <= h < |InitialStreams(paths, append)|
      ensures h in Handles(outs)
    {
      assert outs[h] in outs;
    }
  }

  /** One step of the loop of Tee.writeToOutputs over the live list for chunk k: the
      output at the cursor is output p of the list the loop started from, and writing to
      it, then keeping it or removing it in place, gives the state for p + 1. */
  lemma ChunkStep(outs: seq<Output>, streams: seq<Stream>, log: seq<Diagnostic>, p: nat,
                  live: seq<Output>, strs: seq<Stream>, diags: seq<Diagnostic>, i: nat, output: Output,
                  chunk: seq<byte>, env: Environment, k: nat)
    requires p < |outs| && InRange(outs, |streams|)
    requires live == Keep(outs, p, env.failedWrites, k) + outs[p..] && i == |Keep(outs, p, env.failedWrites, k)|
    requires strs == Offer(streams, outs, p, chunk, env.failedWrites, k)
    requires diags == log + WriteFailures(outs, p, env, k)
    requires i < |live| && output == live[i]
    ensures var h := output.stream;
      output == outs[p] && h < |strs|
      && |Keep(outs, p + 1, env.failedWrites, k)| == (if WriteOk(env.failedWrites, k, h) then i + 1 else i)
      && (WriteOk(env.failedWrites, k, h) ==>
            live == Keep(outs, p + 1, env.failedWrites, k) + outs[p + 1..]
            && strs[h := strs[h].(written := strs[h].written + chunk)]
               == Offer(streams, outs, p + 1, chunk, env.failedWrites, k)
            && diags == log + WriteFailures(outs, p + 1, env, k))
      && (!WriteOk(env.failedWrites, k, h) ==>
            live[..i] + live[i + 1..] == Keep(outs, p + 1, env.failedWrites, k) + outs[p + 1..]
            && strs[h := strs[h].(closeCalls := strs[h].closeCalls + 1)]
               == Offer(streams, outs, p + 1, chunk, env.failedWrites, k)
            && diags + [Report(output, env.failedCloses)]
               == log + WriteFailures(outs, p + 1, env, k))
  {
    IterationStep(outs, p, live, env.failedWrites, k);
    WriteFailuresStep(outs, p, env, k);
  }

  /** One more output's write of chunk k: a diagnostic exactly when it fails. */
  lemma WriteFailuresStep(outs: seq<Output>, p: nat, env: Environment, k: nat)
    requires p < |outs|
    ensures WriteFailures(outs, p + 1, env, k) == WriteFailures(outs, p, env, k)
      + (if WriteOk(env.failedWrites, k, outs[p].stream) then [] else [Report(outs[p], env.failedCloses)])
  {
  }

  /** One iteration over the live list, where the first p outputs of the original list
      have been handled and `outputs` is what is left of them followed by the rest: the
      cursor is at output p, and keeping it (a successful write) or removing it in place
      (a failed write) leaves the list for p + 1. */
  lemma IterationStep(outs: seq<Output>, p: nat, outputs: seq<Output>, failedWrites: set<Write>, k: nat)
    requires p < |outs| && outputs == Keep(outs, p, failedWrites, k) + outs[p..]
    ensures var i := |Keep(outs, p, failedWrites, k)|;
      i < |outputs| && outputs[i] == outs[p]
      && (WriteOk(failedWrites, k, outs[p].stream) ==>
            outputs == Keep(outs, p + 1, failedWrites, k) + outs[p + 1..]
            && |Keep(outs, p + 1, failedWrites, k)| == i + 1)
      && (!WriteOk(failedWrites, k, outs[p].stream) ==>
            outputs[..i] + outputs[i + 1..] == Keep(outs, p + 1, failedWrites, k) + outs[p + 1..]
            && |Keep(outs, p + 1, failedWrites, k)| == i)
  {
    var kept, rest := Keep(outs, p, failedWrites, k), outs[p + 1..];
    assert outs[p..] == [outs[p]] + rest;
    if !WriteOk(failedWrites, k, outs[p].stream) {
      assert outputs[..|kept|] == kept && outputs[|kept| + 1..] == rest;
    }
  }

  /** Offering a chunk to the first n outputs of a list that names each stream once
      changes exactly their streams, each by one write attempt. */
  lemma {:induction false} OfferPrefixAt(streams: seq<Stream>, outs: seq<Output>, n: nat, chunk: seq<byte>, failedWrites: set<Write>, k: nat, h: nat)
    requires n <= |outs| && InRange(outs, |streams|) && Ascending(outs) && h < |streams|
    ensures Offer(streams, outs, n, chunk, failedWrites, k)[h] ==
      if exists q :: 0 <= q < n && outs[q].stream == h then Attempt(streams[h], chunk, WriteOk(failedWrites, k, h)) else streams[h]
    decreases n
  {
    if n > 0 {
      OfferPrefixAt(streams, outs, n - 1, chunk, failedWrites, k, h);
    }
  }

  /** Offering a chunk to a list that names each stream once changes exactly the streams
      of that list, each by one write attempt. */
  lemma OfferAt(streams: seq<Stream>, outs: seq<Output>, chunk: seq<byte>, failedWrites: set<Write>, k: nat, h: nat)
    requires InRange(outs, |streams|) && Ascending(outs) && h < |streams|
    ensures Offer(streams, outs, |outs|, chunk, failedWrites, k)[h] ==
      if h in Handles(outs) then Attempt(streams[h], chunk, WriteOk(failedWrites, k, h)) else streams[h]
  {
    OfferPrefixAt(streams, outs, |outs|, chunk, failedWrites, k, h);
    if h in Handles(outs) {
      var o :| o in outs && o.stream == h;
      var q :| 0 <= q < |outs| && outs[q] == o;
    }
  }

  /** Closing the first n outputs of a list that names each stream once closes exactly
      their streams, once each. */
  lemma {:induction false} CloseEachPrefixAt(streams: seq<Stream>, outs: seq<Output>, n: nat, h: nat)
    requires n <= |outs| && InRange(outs, |streams|) && Ascending(outs) && h < |streams|
    ensures CloseEach(streams, outs, n)[h] ==
      if exists q :: 0 <= q < n && outs[q].stream == h then streams[h].(closeCalls := streams[h].closeCalls + 1) else streams[h]
    decreases n
  {
    if n > 0 {
      CloseEachPrefixAt(streams, outs, n - 1, h);
    }
  }

  /** Closing each of a list that names each stream once closes exactly those streams,
      once each. */
  lemma CloseEachAt(streams: seq<Stream>, outs: seq<Output>, h: nat)
    requires InRange(outs, |streams|) && Ascending(outs) && h < |streams|
    ensures CloseEach(streams, outs, |outs|)[h] ==
      if h in Handles(outs) then streams[h].(closeCalls := streams[h].closeCalls + 1) else streams[h]
  {
    CloseEachPrefixAt(streams, outs, |outs|, h);
    if h in Handles(outs) {
      var o :| o in outs && o.stream == h;
      var q :| 0 <= q < |outs| && outs[q] == o;
    }
  }

  /** An output is kept from the first n iff it is one of them and its write of chunk k
      succeeded. */
  lemma {:induction false} KeepMembers(outs: seq<Output>, n: nat, failedWrites: set<Write>, k: nat)
    requires n <= |outs|
    ensures forall o :: o in Keep(outs, n, failedWrites, k) <==> o in outs[..n] && WriteOk(failedWrites, k, o.stream)
    decreases n
  {
    if n > 0 {
      KeepMembers(outs, n - 1, failedWrites, k);
      assert outs[..n] == outs[..n - 1] + [outs[n - 1]];
    }
  }

  /** Keeping some outputs of an ascending list keeps it ascending. */
  lemma {:induction false} KeepAscending(outs: seq<Output>, n: nat, failedWrites: set<Write>, k: nat)
    requires n <= |outs| && Ascending(outs)
    ensures Ascending(Keep(outs, n, failedWrites, k))
    decreases n
  {
    if n > 0 {
      KeepAscending(outs, n - 1, failedWrites, k);
      KeepMembers(outs, n - 1, failedWrites, k);
      var kept := Keep(outs, n - 1, failedWrites, k);
      forall i | 0 <= i < |kept| ensures kept[i].stream < outs[n - 1].stream {
        assert kept[i] in outs[..n - 1];
        var q :| 0 <= q < n - 1 && outs[q] == kept[i];
      }
    }
  }

  /** After one chunk, the outputs kept still satisfy the invariant. */
  lemma KeepValid(streams: seq<Stream>, outs: seq<Output>, chunk: seq<byte>, failedWrites: set<Write>, k: nat)
    requires Consistent(outs, streams)
    ensures Consistent(Keep(outs, |outs|, failedWrites, k), Offer(streams, outs, |outs|, chunk, failedWrites, k))
  {
    var kept := Keep(outs, |outs|, failedWrites, k);
    KeepAscending(outs, |outs|, failedWrites, k);
    KeepMembers(outs, |outs|, failedWrites, k);
    assert outs[..|outs|] == outs;
    forall i | 0 <= i < |kept|
      ensures kept[i].stream < |streams|
      ensures Offer(streams, outs, |outs|, chunk, failedWrites, k)[kept[i].stream].closeCalls == 0
    {
      assert kept[i] in outs;
      var q :| 0 <= q < |outs| && outs[q] == kept[i];
      OfferAt(streams, outs, chunk, failedWrites, k, kept[i].stream);
    }
  }

  /** An output is live after k chunks iff it was live at the start and every one of its
      k writes succeeded. */
  lemma {:induction false} SurvivorsMembers(outs: seq<Output>, failedWrites: set<Write>, k: nat)
    ensures forall o :: o in Survivors(outs, failedWrites, k) <==> o in outs && ChunksDelivered(failedWrites, o.stream, k) == k
    decreases |outs|
  {
    if outs != [] {
      SurvivorsMembers(outs[..|outs| - 1], failedWrites, k);
      assert outs == outs[..|outs| - 1] + [outs[|outs| - 1]];
    }
  }

  /** Before any chunk is read, every output is live. */
  lemma {:induction false} SurvivorsNone(outs: seq<Output>, failedWrites: set<Write>)
    ensures Survivors(outs, failedWrites, 0) == outs
    decreases |outs|
  {
    if outs != [] {
      SurvivorsNone(outs[..|outs| - 1], failedWrites);
      assert outs == outs[..|outs| - 1] + [outs[|outs| - 1]];
    }
  }

  /** Before any chunk is read, no stream has changed. */
  lemma CopiedNone(streams: seq<Stream>, outs: seq<Output>, chunks: seq<seq<byte>>, failedWrites: set<Write>)
    ensures CopiedStreams(streams, outs, chunks, failedWrites, 0) == streams
  {
    var r := CopiedStreams(streams, outs, chunks, failedWrites, 0);
    forall h | 0 <= h < |streams| ensures r[h] == streams[h] {
      assert chunks[..0] == [];
      assert streams[h].written + [] == streams[h].written;
    }
  }

  /** Writing chunk k to the outputs that received every chunk before it leaves exactly
      the outputs that received every chunk up to k: the live list only shrinks, and
      only by the outputs whose write failed. */
  lemma {:induction false} KeepSurvivors(outs: seq<Output>, failedWrites: set<Write>, k: nat)
    ensures var live := Survivors(outs, failedWrites, k);
      Keep(live, |live|, failedWrites, k) == Survivors(outs, failedWrites, k + 1)
    decreases |outs|
  {
    if outs != [] {
      var init := outs[..|outs| - 1];
      var o := outs[|outs| - 1];
      KeepSurvivors(init, failedWrites, k);
      var live := Survivors(init, failedWrites, k);
      if ChunksDelivered(failedWrites, o.stream, k) == k {
        assert Survivors(outs, failedWrites, k) == live + [o];
        KeepAgree(live + [o], live, |live|, failedWrites, k);
      } else {
        assert Survivors(outs, failedWrites, k) == live;
      }
    }
  }

  /** Which of the first n outputs are kept depends on those n alone. */
  lemma {:induction false} KeepAgree(a: seq<Output>, b: seq<Output>, n: nat, failedWrites: set<Write>, k: nat)
    requires n <= |a| && n <= |b| && a[..n] == b[..n]
    ensures Keep(a, n, failedWrites, k) == Keep(b, n, failedWrites, k)
    decreases n
  {
    if n > 0 {
      assert a[n - 1] == a[..n][n - 1] == b[..n][n - 1] == b[n - 1];
      assert a[..n - 1] == a[..n][..n - 1] == b[..n][..n - 1] == b[..n - 1];
      KeepAgree(a, b, n - 1, failedWrites, k);
    }
  }

  /** The bytes of the first k + 1 chunks are those of the first k, then chunk k. */
  lemma ConcatStep(chunks: seq<seq<byte>>, k: nat)
    requires k < |chunks|
    ensures Concat(chunks[..k + 1]) == Concat(chunks[..k]) + chunks[k]
  {
    assert chunks[..k + 1][..k] == chunks[..k];
  }

  /** One pass of the outer loop of Tee.writeToOutputs: writing chunk k to the outputs
      live after k chunks gives the live list and the diagnostics after k + 1 chunks. */
  lemma CopyStep(outs: seq<Output>, streams: seq<Stream>, log: seq<Diagnostic>, chunks: seq<seq<byte>>, env: Environment, k: nat,
                 live: seq<Output>, diags: seq<Diagnostic>)
    requires k < |chunks| && InRange(outs, |streams|)
    requires live == Survivors(outs, env.failedWrites, k)
    requires diags == log + CopyFailures(outs, env, k)
    ensures InRange(live, |streams|)
    ensures Keep(live, |live|, env.failedWrites, k) == Survivors(outs, env.failedWrites, k + 1)
    ensures diags + WriteFailures(live, |live|, env, k) == log + CopyFailures(outs, env, k + 1)
  {
    SurvivorsInRange(outs, |streams|, env.failedWrites, k);
    KeepSurvivors(outs, env.failedWrites, k);
  }

  /** The outputs live after k chunks are among those live at the start. */
  lemma SurvivorsInRange(outs: seq<Output>, n: nat, failedWrites: set<Write>, k: nat)
    requires InRange(outs, n)
    ensures InRange(Survivors(outs, failedWrites, k), n)
  {
    SurvivorsMembers(outs, failedWrites, k);
    var live := Survivors(outs, failedWrites, k);
    forall i | 0 <= i < |live| ensures live[i].stream < n {
      assert live[i] in outs;
    }
  }

  /** Writing chunk by chunk gives every stream of the outputs live at the start exactly
      the chunks before its first failed write, and closes it once if that write
      happened; the other streams are untouched. */
  lemma {:induction false} OfferEachCopies(streams: seq<Stream>, outs: seq<Output>, chunks: seq<seq<byte>>, failedWrites: set<Write>, k: nat)
    requires k <= |chunks| && Consistent(outs, streams)
    ensures OfferEach(streams, outs, chunks, failedWrites, k) == CopiedStreams(streams, outs, chunks, failedWrites, k)
  {
    if k == 0 {
      CopiedNone(streams, outs, chunks, failedWrites);
    } else {
      OfferEachCopies(streams, outs, chunks, failedWrites, k - 1);
      SurvivorsConsistent(outs, streams, chunks, failedWrites, k - 1);
      CopiedStep(streams, outs, chunks, failedWrites, k - 1);
    }
  }

  /** The outputs live after k chunks name open streams, each once, in the order they
      were opened: the invariant of the live list holds throughout the copy. */
  lemma SurvivorsConsistent(outs: seq<Output>, streams: seq<Stream>, chunks: seq<seq<byte>>, failedWrites: set<Write>, k: nat)
    requires k <= |chunks| && Consistent(outs, streams)
    ensures Consistent(Survivors(outs, failedWrites, k), CopiedStreams(streams, outs, chunks, failedWrites, k))
  {
    var live := Survivors(outs, failedWrites, k);
    var copied := CopiedStreams(streams, outs, chunks, failedWrites, k);
    SurvivorsMembers(outs, failedWrites, k);
    SurvivorsAscending(outs, failedWrites, k);
    forall i | 0 <= i < |live|
      ensures live[i].stream < |streams| && copied[live[i].stream].closeCalls == 0
    {
      var o := live[i];
      assert o in outs;
      var j :| 0 <= j < |outs| && outs[j] == o;
      assert o.stream in Handles(outs);
    }
  }

  /** The live list is a sub-list of an ascending list, hence ascending. */
  lemma {:induction false} SurvivorsAscending(outs: seq<Output>, failedWrites: set<Write>, k: nat)
    requires Ascending(outs)
    ensures Ascending(Survivors(outs, failedWrites, k))
    decreases |outs|
  {
    if outs != [] {
      var init := outs[..|outs| - 1];
      var last := outs[|outs| - 1];
      SurvivorsAscending(init, failedWrites, k);
      SurvivorsMembers(init, failedWrites, k);
      var live := Survivors(init, failedWrites, k);
      forall i | 0 <= i < |live| ensures live[i].stream < last.stream {
        assert live[i] in init;
        var q :| 0 <= q < |init| && init[q] == live[i];
      }
    }
  }

  /** Offering chunk k to the outputs still live after k chunks yields the streams after
      k + 1 chunks. */
  lemma CopiedStep(streams: seq<Stream>, outs: seq<Output>, chunks: seq<seq<byte>>, failedWrites: set<Write>, k: nat)
    requires k < |chunks| && Consistent(outs, streams)
    requires Consistent(Survivors(outs, failedWrites, k), CopiedStreams(streams, outs, chunks, failedWrites, k))
    ensures var live := Survivors(outs, failedWrites, k);
      Offer(CopiedStreams(streams, outs, chunks, failedWrites, k), live, |live|, chunks[k], failedWrites, k)
            == CopiedStreams(streams, outs, chunks, failedWrites, k + 1)
  {
    var live := Survivors(outs, failedWrites, k);
    var after := Offer(CopiedStreams(streams, outs, chunks, failedWrites, k), live, |live|, chunks[k], failedWrites, k);
    var expected := CopiedStreams(streams, outs, chunks, failedWrites, k + 1);
    forall h | 0 <= h < |streams| ensures after[h] == expected[h] {
      CopiedStepAt(streams, outs, chunks, failedWrites, k, h);
    }
  }

  /** CopiedStep for stream h. */
  lemma CopiedStepAt(streams: seq<Stream>, outs: seq<Output>, chunks: seq<seq<byte>>, failedWrites: set<Write>, k: nat, h: nat)
    requires k < |chunks| && Consistent(outs, streams) && h < |streams|
    requires Consistent(Survivors(outs, failedWrites, k), CopiedStreams(streams, outs, chunks, failedWrites, k))
    ensures var live := Survivors(outs, failedWrites, k);
      Offer(CopiedStreams(streams, outs, chunks, failedWrites, k), live, |live|, chunks[k], failedWrites, k)[h]
            == CopiedStreams(streams, outs, chunks, failedWrites, k + 1)[h]
  {
    var before := CopiedStreams(streams, outs, chunks, failedWrites, k);
    var live := Survivors(outs, failedWrites, k);
    var after := Offer(before, live, |live|, chunks[k], failedWrites, k);
    var expected := CopiedStreams(streams, outs, chunks, failedWrites, k + 1);
    var s := streams[h];
    assert s.written + Concat(chunks[..k]) + chunks[k] == s.written + (Concat(chunks[..k]) + chunks[k]);
    OfferAt(before, live, chunks[k], failedWrites, k, h);
    var d := ChunksDelivered(failedWrites, h, k);
    assert ChunksDelivered(failedWrites, h, k + 1) == if d == k && WriteOk(failedWrites, k, h) then k + 1 else d;
    SurvivorsMembers(outs, failedWrites, k);
    if h in Handles(live) {
      var o :| o in live && o.stream == h;
      assert o in outs && d == k;
      assert h in Handles(outs);
      assert before[h] == s.(written := s.written + Concat(chunks[..k]));
      if WriteOk(failedWrites, k, h) {
        ConcatStep(chunks, k);
        assert expected[h] == s.(written := s.written + Concat(chunks[..k + 1]));
        assert after[h] == s.(written := s.written + Concat(chunks[..k]) + chunks[k]);
      } else {
        assert expected[h] == s.(written := s.written + Concat(chunks[..k]), closeCalls := s.closeCalls + 1);
        assert after[h] == s.(written := s.written + Concat(chunks[..k]), closeCalls := s.closeCalls + 1);
      }
    } else if h in Handles(outs) {
      var o :| o in outs && o.stream == h;
      assert d < k;
      assert after[h] == before[h];
      assert expected[h] == before[h];
    } else {
      assert after[h] == before[h] == s == expected[h];
    }
  }

  // ---------------------------------------------------------------------------
  // What a run promises

  /** The opened paths and the open diagnostics together number the files given: one
      entry per position. */
  lemma {:induction false} OpenPartition(files: seq<string>, failedOpens: set<nat>)
    ensures |OpenedPaths(files, failedOpens)| + |OpenFailures(files, failedOpens)| == |files|
    decreases |files|
  {
    if files != [] {
      OpenPartition(files[..|files| - 1], failedOpens);
    }
  }

  /** A path is opened iff it is given at a position whose open succeeds. */
  lemma {:induction false} OpenedMembers(files: seq<string>, failedOpens: set<nat>)
    ensures forall p :: p in OpenedPaths(files, failedOpens) <==>
      exists i :: 0 <= i < |files| && OpenOk(failedOpens, i) && files[i] == p
    decreases |files|
  {
    if files != [] {
      var init := files[..|files| - 1];
      OpenedMembers(init, failedOpens);
      forall p | p in OpenedPaths(files, failedOpens)
        ensures exists i :: 0 <= i < |files| && OpenOk(failedOpens, i) && files[i] == p
      {
        if p in OpenedPaths(init, failedOpens) {
          var i :| 0 <= i < |init| && OpenOk(failedOpens, i) && init[i] == p;
          assert files[i] == p;
        } else {
          assert files[|files| - 1] == p;
        }
      }
      forall p, i | 0 <= i < |files| && OpenOk(failedOpens, i) && files[i] == p
        ensures p in OpenedPaths(files, failedOpens)
      {
        if i < |init| {
          assert init[i] == p;
        }
      }
    }
  }

  /** A path is reported iff it is given at a position whose open fails. */
  lemma {:induction false} OpenFailedMembers(files: seq<string>, failedOpens: set<nat>)
    ensures forall p :: OpenFailed(p) in OpenFailures(files, failedOpens) <==>
      exists i :: 0 <= i < |files| && !OpenOk(failedOpens, i) && files[i] == p
    decreases |files|
  {
    if files != [] {
      var init := files[..|files| - 1];
      OpenFailedMembers(init, failedOpens);
      forall p | OpenFailed(p) in OpenFailures(files, failedOpens)
        ensures exists i :: 0 <= i < |files| && !OpenOk(failedOpens, i) && files[i] == p
      {
        if OpenFailed(p) in OpenFailures(init, failedOpens) {
          var i :| 0 <= i < |init| && !OpenOk(failedOpens, i) && init[i] == p;
          assert files[i] == p;
        } else {
          assert files[|files| - 1] == p;
        }
      }
      forall p, i | 0 <= i < |files| && !OpenOk(failedOpens, i) && files[i] == p
        ensures OpenFailed(p) in OpenFailures(files, failedOpens)
      {
        if i < |init| {
          assert init[i] == p;
        }
      }
    }
  }

  /** When no open fails, every file is opened, in the order given, and nothing is
      reported. */
  lemma {:induction false} AllOpensSucceed(files: seq<string>, failedOpens: set<nat>)
    requires forall i :: 0 <= i < |files| ==> OpenOk(failedOpens, i)
    ensures OpenedPaths(files, failedOpens) == files
    ensures OpenFailures(files, failedOpens) == []
    decreases |files|
  {
    if files != [] {
      var init := files[..|files| - 1];
      AllOpensSucceed(init, failedOpens);
      assert OpenOk(failedOpens, |files| - 1);
      assert files == init + [files[|files| - 1]];
    }
  }

  /** Writing chunk k to the first n outputs gives as many kept outputs and diagnostics
      together as there are outputs; KeepDropped and WriteFailuresReportDropped say
      which output goes where. */
  lemma {:induction false} KeepCount(outs: seq<Output>, n: nat, env: Environment, k: nat)
    requires n <= |outs|
    ensures |Keep(outs, n, env.failedWrites, k)| + |WriteFailures(outs, n, env, k)| == n
    decreases n
  {
    if n > 0 {
      KeepCount(outs, n - 1, env, k);
    }
  }

  /** The live list only shrinks, and by as many outputs as there are write
      diagnostics: after k chunks, the live outputs and the write diagnostics together
      number the outputs opened. */
  lemma {:induction false} CopyAccounts(outs: seq<Output>, env: Environment, k: nat)
    ensures |Survivors(outs, env.failedWrites, k)| + |CopyFailures(outs, env, k)| == |outs|
    decreases k
  {
    if k == 0 {
      SurvivorsNone(outs, env.failedWrites);
    } else {
      CopyAccounts(outs, env, k - 1);
      var live := Survivors(outs, env.failedWrites, k - 1);
      KeepCount(live, |live|, env, k - 1);
      KeepSurvivors(outs, env.failedWrites, k - 1);
    }
  }

  /** An output still live after the whole input holds, after what it held before,
      every chunk read, in order, and is still open. */
  lemma SurvivorsHoldInput(streams: seq<Stream>, outs: seq<Output>, chunks: seq<seq<byte>>, failedWrites: set<Write>, o: Output)
    requires InRange(outs, |streams|)
    requires o in Survivors(outs, failedWrites, |chunks|)
    ensures o.stream < |streams|
    ensures var s := CopiedStreams(streams, outs, chunks, failedWrites, |chunks|)[o.stream];
      s.written == streams[o.stream].written + Concat(chunks) && s.closeCalls == streams[o.stream].closeCalls
  {
    SurvivorsMembers(outs, failedWrites, |chunks|);
    var i :| 0 <= i < |outs| && outs[i] == o;
    assert o.stream in Handles(outs);
    assert chunks[..|chunks|] == chunks;
  }

  /** An output dropped during the copy failed its write of some chunk d: its stream
      holds exactly the chunks before d, was closed once then, and is never written
      again. */
  lemma RemovedKeepsPrefix(streams: seq<Stream>, outs: seq<Output>, chunks: seq<seq<byte>>, failedWrites: set<Write>, o: Output)
    requires InRange(outs, |streams|)
    requires o in outs && o !in Survivors(outs, failedWrites, |chunks|)
    ensures o.stream < |streams|
    ensures exists d :: (0 <= d < |chunks| && !WriteOk(failedWrites, d, o.stream)
      && CopiedStreams(streams, outs, chunks, failedWrites, |chunks|)[o.stream]
         == streams[o.stream].(written := streams[o.stream].written + Concat(chunks[..d]),
                               closeCalls := streams[o.stream].closeCalls + 1))
  {
    SurvivorsMembers(outs, failedWrites, |chunks|);
    var i :| 0 <= i < |outs| && outs[i] == o;
    assert o.stream in Handles(outs);
    var d := ChunksDelivered(failedWrites, o.stream, |chunks|);
    assert !WriteOk(failedWrites, d, o.stream);
  }

  /** Over copy and teardown together, each stream of an output live at the start gains
      the chunks before its first failed write and is closed exactly once: at that
      failure, or in the teardown loop if there was none. */
  lemma ClosedOnceAfterTeardown(streams: seq<Stream>, outs: seq<Output>, chunks: seq<seq<byte>>, failedWrites: set<Write>, o: Output)
    requires Consistent(outs, streams) && o in outs
    ensures o.stream < |streams| && InRange(Survivors(outs, failedWrites, |chunks|), |streams|)
    ensures var live := Survivors(outs, failedWrites, |chunks|);
      var copied := CopiedStreams(streams, outs, chunks, failedWrites, |chunks|);
      var s := streams[o.stream];
      CloseEach(copied, live, |live|)[o.stream]
        == s.(written := s.written + Concat(chunks[..ChunksDelivered(failedWrites, o.stream, |chunks|)]),
              closeCalls := s.closeCalls + 1)
  {
    var n := |chunks|;
    var h := o.stream;
    var live := Survivors(outs, failedWrites, n);
    var copied := CopiedStreams(streams, outs, chunks, failedWrites, n);
    var i :| 0 <= i < |outs| && outs[i] == o;
    assert h in Handles(outs);
    SurvivorsConsistent(outs, streams, chunks, failedWrites, n);
    SurvivorsMembers(outs, failedWrites, n);
    CloseEachAt(copied, live, h);
    if ChunksDelivered(failedWrites, h, n) == n {
      assert o in live;
      assert h in Handles(live);
    } else {
      assert h !in Handles(live);
    }
  }

  /** Writing chunk k to the first n outputs splits them into those kept and those
      dropped, each output in exactly one of the two. */
  lemma {:induction false} KeepDropped(outs: seq<Output>, n: nat, failedWrites: set<Write>, k: nat)
    requires n <= |outs|
    ensures multiset(Keep(outs, n, failedWrites, k)) + multiset(Dropped(outs, n, failedWrites, k)) == multiset(outs[..n])
    decreases n
  {
    if n > 0 {
      var m := n - 1;
      KeepDropped(outs, m, failedWrites, k);
      KeepDroppedStep(outs, m, failedWrites, k);
      assert m + 1 == n;
    }
  }

  /** Output n goes to exactly one side of the split. */
  lemma KeepDroppedStep(outs: seq<Output>, n: nat, failedWrites: set<Write>, k: nat)
    requires n < |outs|
    requires multiset(Keep(outs, n, failedWrites, k)) + multiset(Dropped(outs, n, failedWrites, k)) == multiset(outs[..n])
    ensures multiset(Keep(outs, n + 1, failedWrites, k)) + multiset(Dropped(outs, n + 1, failedWrites, k)) == multiset(outs[..n + 1])
  {
    var o := outs[n];
    var kept, dropped := Keep(outs, n, failedWrites, k), Dropped(outs, n, failedWrites, k);
    assert outs[..n + 1] == outs[..n] + [o];
    assert multiset(outs[..n + 1]) == multiset(outs[..n]) + multiset{o};
    if WriteOk(failedWrites, k, o.stream) {
      assert dropped + [] == dropped;
      assert Keep(outs, n + 1, failedWrites, k) == kept + [o];
      assert Dropped(outs, n + 1, failedWrites, k) == dropped;
      assert multiset(kept + [o]) == multiset(kept) + multiset{o};
    } else {
      assert kept + [] == kept;
      assert Keep(outs, n + 1, failedWrites, k) == kept;
      assert Dropped(outs, n + 1, failedWrites, k) == dropped + [o];
      assert multiset(dropped + [o]) == multiset(dropped) + multiset{o};
    }
  }

  /** Writing chunk k to the first n outputs reports exactly the dropped ones, in list
      order. */
  lemma {:induction false} WriteFailuresReportDropped(outs: seq<Output>, n: nat, env: Environment, k: nat)
    requires n <= |outs|
    ensures WriteFailures(outs, n, env, k) == Reports(Dropped(outs, n, env.failedWrites, k), env.failedCloses)
    decreases n
  {
    if n > 0 {
      WriteFailuresReportDropped(outs, n - 1, env, k);
      var o := outs[n - 1];
      var dropped := Dropped(outs, n - 1, env.failedWrites, k);
      if !WriteOk(env.failedWrites, k, o.stream) {
        var d := dropped + [o];
        assert d[..|d| - 1] == dropped && d[|d| - 1] == o;
        assert Reports(d, env.failedCloses) == Reports(dropped, env.failedCloses) + [Report(o, env.failedCloses)];
        assert WriteFailures(outs, n, env, k) == WriteFailures(outs, n - 1, env, k) + [Report(o, env.failedCloses)];
      } else {
        var before := WriteFailures(outs, n - 1, env, k);
        assert before + [] == before && dropped + [] == dropped;
        assert WriteFailures(outs, n, env, k) == before;
        assert Dropped(outs, n, env.failedWrites, k) == dropped;
      }
    }
  }

  /** The diagnostics of two lists of outputs, one after the other. */
  lemma {:induction false} ReportsConcat(a: seq<Output>, b: seq<Output>, failedCloses: set<nat>)
    ensures Reports(a + b, failedCloses) == Reports(a, failedCloses) + Reports(b, failedCloses)
    decreases |b|
  {
    if b == [] {
      assert a + b == a;
    } else {
      var b' := b[..|b| - 1];
      assert (a + b)[..|a + b| - 1] == a + b';
      ReportsConcat(a, b', failedCloses);
    }
  }

  /** After k chunks, each output opened is either still live or lost, and exactly
      once. */
  lemma {:induction false} LiveOrLost(outs: seq<Output>, failedWrites: set<Write>, k: nat)
    ensures multiset(Survivors(outs, failedWrites, k)) + multiset(Lost(outs, failedWrites, k)) == multiset(outs)
    decreases k
  {
    if k == 0 {
      NoneLost(outs, failedWrites);
    } else {
      var j := k - 1;
      LiveOrLost(outs, failedWrites, j);
      LostStep(outs, failedWrites, j);
      assert j + 1 == k;
    }
  }

  /** Before any chunk is read, every output is live and none is lost. */
  lemma NoneLost(outs: seq<Output>, failedWrites: set<Write>)
    ensures multiset(Survivors(outs, failedWrites, 0)) + multiset(Lost(outs, failedWrites, 0)) == multiset(outs)
  {
    SurvivorsNone(outs, failedWrites);
    assert Lost(outs, failedWrites, 0) == [];
  }

  /** Chunk k splits the outputs live before it into those still live and those lost
      with it. */
  lemma LostStep(outs: seq<Output>, failedWrites: set<Write>, k: nat)
    requires multiset(Survivors(outs, failedWrites, k)) + multiset(Lost(outs, failedWrites, k)) == multiset(outs)
    ensures multiset(Survivors(outs, failedWrites, k + 1)) + multiset(Lost(outs, failedWrites, k + 1)) == multiset(outs)
  {
    var live := Survivors(outs, failedWrites, k);
    var dropped := Dropped(live, |live|, failedWrites, k);
    KeepSurvivors(outs, failedWrites, k);
    KeepDropped(live, |live|, failedWrites, k);
    assert live[..|live|] == live;
    assert Lost(outs, failedWrites, k + 1) == Lost(outs, failedWrites, k) + dropped;
    SplitAgain(outs, live, Lost(outs, failedWrites, k), Survivors(outs, failedWrites, k + 1), dropped);
  }

  /** Splitting one part of a split of the outputs again. */
  lemma SplitAgain(outs: seq<Output>, live: seq<Output>, lost: seq<Output>, next: seq<Output>, dropped: seq<Output>)
    requires multiset(live) + multiset(lost) == multiset(outs)
    requires multiset(next) + multiset(dropped) == multiset(live)
    ensures multiset(next) + multiset(lost + dropped) == multiset(outs)
  {
  }

  /** The write diagnostics of the copy are those of the lost outputs, one each, in the
      order the outputs were removed. */
  lemma {:induction false} CopyFailuresReportLost(outs: seq<Output>, env: Environment, k: nat)
    ensures CopyFailures(outs, env, k) == Reports(Lost(outs, env.failedWrites, k), env.failedCloses)
    decreases k
  {
    if k > 0 {
      var j := k - 1;
      CopyFailuresReportLost(outs, env, j);
      ReportLostStep(outs, env, j);
      assert j + 1 == k;
    }
  }

  /** Chunk k adds the diagnostics of the outputs lost with it. */
  lemma ReportLostStep(outs: seq<Output>, env: Environment, k: nat)
    requires CopyFailures(outs, env, k) == Reports(Lost(outs, env.failedWrites, k), env.failedCloses)
    ensures CopyFailures(outs, env, k + 1) == Reports(Lost(outs, env.failedWrites, k + 1), env.failedCloses)
  {
    var live := Survivors(outs, env.failedWrites, k);
    var before := Lost(outs, env.failedWrites, k);
    var dropped := Dropped(live, |live|, env.failedWrites, k);
    WriteFailuresReportDropped(live, |live|, env, k);
    ReportsConcat(before, dropped, env.failedCloses);
    assert Lost(outs, env.failedWrites, k + 1) == before + dropped;
    assert CopyFailures(outs, env, k + 1) == CopyFailures(outs, env, k) + WriteFailures(live, |live|, env, k);
  }

  /** An output opened and no longer live after k chunks has its write failure
      reported. */
  lemma LostReported(outs: seq<Output>, env: Environment, k: nat, o: Output)
    requires o in outs && o !in Survivors(outs, env.failedWrites, k)
    ensures Report(o, env.failedCloses) in CopyFailures(outs, env, k)
  {
    LiveOrLost(outs, env.failedWrites, k);
    assert multiset(outs)[o] > 0;
    var lost := Lost(outs, env.failedWrites, k);
    assert o in lost;
    var i :| 0 <= i < |lost| && lost[i] == o;
    CopyFailuresReportLost(outs, env, k);
    ReportsAt(lost, env.failedCloses, i);
  }

  /** The i-th diagnostic is that of the i-th output. */
  lemma {:induction false} ReportsAt(lost: seq<Output>, failedCloses: set<nat>, i: nat)
    requires i < |lost|
    ensures Reports(lost, failedCloses)[i] == Report(lost[i], failedCloses)
    decreases |lost|
  {
    if i < |lost| - 1 {
      ReportsAt(lost[..|lost| - 1], failedCloses, i);
    }
  }
}
