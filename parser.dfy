/** Command-line parsing of tee: the Options hierarchy and Tee.parse. */
module Parser {

  /** What parsing the argument list yields: the two singleton options and the two
      data-carrying subclasses of Options. */
  datatype Options =
    | Help
    | Version
    | WrongOption(arg: string)
    | WriteOptions(append: bool, files: seq<string>)

  /** The effect a single argument has on parsing, judged on its own. */
  datatype Token =
    | Blank                   // the empty string: skipped
    | Path                    // a file to write to
    | AppendFlags             // '-' followed by one or more 'a'
    | Final(result: Options)  // parsing stops at this argument with this result

  /** An argument that names a file: non-empty and not starting with '-'. */
  predicate IsPathArg(arg: string) {
    arg != [] && arg[0] != '-'
  }

  /** A short-option cluster that consists of 'a' flags only: "-a", "-aa", ... */
  predicate IsAppendCluster(arg: string) {
    |arg| >= 2 && arg[0] == '-' && forall j :: 1 <= j < |arg| ==> arg[j] == 'a'
  }

  predicate IsLongOption(arg: string) {
    |arg| >= 2 && arg[0] == '-' && arg[1] == '-'
  }

  /** The position, at or after `from`, of the first flag character of `arg` that is not
      'a', or |arg| when there is none. */
  function FirstOtherFlag(arg: string, from: nat): (j: nat)
    requires 1 <= from <= |arg|
    ensures from <= j <= |arg|
    ensures forall m :: from <= m < j ==> arg[m] == 'a'
    ensures j < |arg| ==> arg[j] != 'a'
    decreases |arg| - from
  {
    if from == |arg| || arg[from] != 'a' then from else FirstOtherFlag(arg, from + 1)
  }

  /** How the parser treats one argument, following the order of its tests: the empty
      string, a path, the long options, a bare "-", then the characters of a short
      cluster. "--append" is not special-cased beyond setting the flag: it reaches the
      short-cluster scan, which rejects its second '-'. */
  function Classify(arg: string): (t: Token)
    ensures t == Blank <==> arg == []
    ensures t == Path <==> IsPathArg(arg)
    ensures t == AppendFlags <==> IsAppendCluster(arg)
  {
    if arg == [] then Blank
    else if arg[0] != '-' then Path
    else if arg == "--help" then assert arg[1] != 'a'; Final(Help)
    else if arg == "--version" then assert arg[1] != 'a'; Final(Version)
    else if IsLongOption(arg) && arg != "--append" then Final(WrongOption(arg))
    else if |arg| <= 1 then Final(WrongOption(arg))
    else
      var j := FirstOtherFlag(arg, 1);
      if j == |arg| then AppendFlags else Final(WrongOption(['-', arg[j]]))
  }

  /** The index of the first argument at which parsing stops, or |args|. */
  function FirstFinal(args: seq<string>): (k: nat)
    ensures k <= |args|
    ensures forall i :: 0 <= i < k ==> !Classify(args[i]).Final?
    ensures k < |args| ==> Classify(args[k]).Final?
  {
    if args == [] || Classify(args[0]).Final? then 0 else 1 + FirstFinal(args[1..])
  }

  /** The file arguments, in the order given, duplicates kept. */
  function PathsOf(args: seq<string>): (files: seq<string>)
  {
    if args == [] then []
    else
      var last := args[|args| - 1];
      PathsOf(args[..|args| - 1]) + (if IsPathArg(last) then [last] else [])
  }

  /** What parsing `args` yields: the verdict of the first argument that stops parsing,
      if any; otherwise the append flag (set by some "-a..." cluster) and the files. */
  function Outcome(args: seq<string>): Options
  {
    var k := FirstFinal(args);
    if k < |args| then Classify(args[k]).result
    else WriteOptions(AppendRequested(args), PathsOf(args))
  }

  /** Some argument is an "-a..." cluster. */
  predicate AppendRequested(args: seq<string>) {
    exists i | 0 <= i < |args| :: IsAppendCluster(args[i])
  }

  /** Tee.parse: one pass over the arguments with early returns, a flag that only ever
      becomes true and a list of files that only grows. */
  method Parse(args: seq<string>) returns (r: Options)
    ensures r == Outcome(args)
  {
    var append := false;
    var files: seq<string> := [];
    for n := 0 to |args|
      invariant forall i :: 0 <= i < n ==> !Classify(args[i]).Final?
      invariant files == PathsOf(args[..n])
      invariant append == AppendRequested(args[..n])
    {
      PrefixStep(args, n);
      var arg := args[n];
      if |arg| == 0 {
        continue;
      }
      if arg[0] != '-' {
        files := files + [arg];
        continue;
      }
      ghost var appendBefore := append;
      if IsLongOption(arg) {
        if arg == "--help" {
          StopAt(args, n);
          return Help;
        } else if arg == "--version" {
          StopAt(args, n);
          return Version;
        } else if arg == "--append" {
          append := true;
        } else {
          StopAt(args, n);
          return WrongOption(arg);
        }
      }
      if |arg| <= 1 {
        StopAt(args, n);
        return WrongOption(arg);
      }
      for i := 1 to |arg|
        invariant forall m :: 1 <= m < i ==> arg[m] == 'a'
        invariant append == (appendBefore || i > 1 || arg == "--append")
      {
        if arg[i] == 'a' {
          append := true;
        } else {
          assert FirstOtherFlag(arg, 1) == i;
          StopAt(args, n);
          return WrongOption(['-', arg[i]]);
        }
      }
      assert IsAppendCluster(arg);
    }
    assert args[..|args|] == args;
    return WriteOptions(append, files);
  }

  /** Parsing stops at the first argument whose classification is final. */
  lemma StopAt(args: seq<string>, n: nat)
    requires n < |args| && Classify(args[n]).Final?
    requires forall i :: 0 <= i < n ==> !Classify(args[i]).Final?
    ensures Outcome(args) == Classify(args[n]).result
  {
  }

  /** One more argument extends the files by itself when it is a path, and sets the
      append flag when it is an "-a..." cluster. */
  lemma PrefixStep(args: seq<string>, n: nat)
    requires n < |args|
    ensures PathsOf(args[..n + 1]) == PathsOf(args[..n]) + (if IsPathArg(args[n]) then [args[n]] else [])
    ensures AppendRequested(args[..n + 1]) == (AppendRequested(args[..n]) || IsAppendCluster(args[n]))
  {
    var pre := args[..n + 1];
    assert pre[..n] == args[..n] && pre[n] == args[n];
    if AppendRequested(pre) && !IsAppendCluster(args[n]) {
      var i :| 0 <= i < |pre| && IsAppendCluster(pre[i]);
      assert args[..n][i] == pre[i];
    }
  }

  /** The result of parsing `first` and then `second`: a result that stops parsing wins
      over anything later; two runs that both reach the end merge their flags and files. */
  function Combine(first: Options, second: Options): Options
  {
    match first
    case WriteOptions(append1, files1) =>
      (match second
       case WriteOptions(append2, files2) => WriteOptions(append1 || append2, files1 + files2)
       case _ => second)
    case _ => first
  }

  /** The long options: "--help" and "--version" are recognised, "--append" is rejected as
      "--" (its second '-' is read as a short flag), and any other "--xxx" is rejected whole. */
  lemma LongOptionVerdict(arg: string)
    requires IsLongOption(arg)
    ensures Classify(arg) == Final(
      if arg == "--help" then Help
      else if arg == "--version" then Version
      else if arg == "--append" then WrongOption("--")
      else WrongOption(arg))
  {
    if arg == "--append" {
      assert FirstOtherFlag(arg, 1) == 1;
    }
  }

  /** A bare "-" is rejected as it stands. */
  lemma BareDashVerdict()
    ensures Classify("-") == Final(WrongOption("-"))
  {
  }

  /** In a short cluster "-c1c2...", every 'a' before position j is accepted and the first
      other character, at j, is the one reported. */
  lemma ShortClusterVerdict(arg: string, j: nat)
    requires |arg| >= 2 && arg[0] == '-' && arg[1] != '-'
    requires 1 <= j < |arg| && arg[j] != 'a'
    requires forall m :: 1 <= m < j ==> arg[m] == 'a'
    ensures Classify(arg) == Final(WrongOption(['-', arg[j]]))
  {
  }

  /** The files of a concatenation are the files of each part, in order. */
  lemma {:induction false} PathsOfConcat(a: seq<string>, b: seq<string>)
    ensures PathsOf(a + b) == PathsOf(a) + PathsOf(b)
    decreases |b|
  {
    if b == [] {
      assert a + b == a;
    } else {
      var b' := b[..|b| - 1];
      assert (a + b)[..|a + b| - 1] == a + b';
      PathsOfConcat(a, b');
    }
  }

  /** Every file argument is kept, as many times as it occurs, and nothing else is. */
  lemma {:induction false} PathsOfCount(args: seq<string>, x: string)
    ensures multiset(PathsOf(args))[x] == if IsPathArg(x) then multiset(args)[x] else 0
    decreases |args|
  {
    if args != [] {
      var init := args[..|args| - 1];
      var last := args[|args| - 1];
      assert args == init + [last];
      PathsOfCount(init, x);
    }
  }

  /** Parsing a + b stops in a if parsing a stops, and otherwise where parsing b stops. */
  lemma FirstFinalConcat(a: seq<string>, b: seq<string>)
    ensures FirstFinal(a + b) == if FirstFinal(a) < |a| then FirstFinal(a) else |a| + FirstFinal(b)
  {
    assert forall i :: 0 <= i < |a| ==> (a + b)[i] == a[i];
    assert forall i :: 0 <= i < |b| ==> (a + b)[|a| + i] == b[i];
  }

  lemma AppendRequestedConcat(a: seq<string>, b: seq<string>)
    ensures AppendRequested(a + b) == (AppendRequested(a) || AppendRequested(b))
  {
    if AppendRequested(a + b) {
      var i :| 0 <= i < |a + b| && IsAppendCluster((a + b)[i]);
      if i < |a| {
        assert (a + b)[i] == a[i];
      } else {
        assert (a + b)[i] == b[i - |a|];
      }
    }
    if AppendRequested(a) {
      var i :| 0 <= i < |a| && IsAppendCluster(a[i]);
      assert (a + b)[i] == a[i];
    }
    if AppendRequested(b) {
      var i :| 0 <= i < |b| && IsAppendCluster(b[i]);
      assert (a + b)[|a| + i] == b[i];
    }
  }

  /** Parsing is compositional: parsing a + b is parsing a, then parsing b. */
  lemma OutcomeConcat(a: seq<string>, b: seq<string>)
    ensures Outcome(a + b) == Combine(Outcome(a), Outcome(b))
  {
    FirstFinalConcat(a, b);
    var ka, kb := FirstFinal(a), FirstFinal(b);
    if ka < |a| {
      assert (a + b)[ka] == a[ka];
    } else if kb < |b| {
      assert (a + b)[|a| + kb] == b[kb];
    } else {
      PathsOfConcat(a, b);
      AppendRequestedConcat(a, b);
    }
  }

  /** Once parsing has stopped, no later argument can influence the result. */
  lemma StopIsFinal(a: seq<string>, b: seq<string>)
    requires !Outcome(a).WriteOptions?
    ensures Outcome(a + b) == Outcome(a)
  {
    OutcomeConcat(a, b);
  }

  /** "--help" and "--version" return at once, whatever follows them. */
  lemma HelpAndVersionIgnoreRest(rest: seq<string>)
    ensures Outcome(["--help"] + rest) == Help
    ensures Outcome(["--version"] + rest) == Version
  {
    LongOptionVerdict("--help");
    LongOptionVerdict("--version");
    StopIsFinal(["--help"], rest);
    StopIsFinal(["--version"], rest);
  }

  /** "--append" never sets the append flag: it rejects the invocation as "--". */
  lemma LongAppendRejected(rest: seq<string>)
    ensures Outcome(["--append"] + rest) == WrongOption("--")
  {
    LongOptionVerdict("--append");
    StopIsFinal(["--append"], rest);
  }

  /** Parsing without a stop keeps the flag monotone: appending arguments can set it but
      never clear it, and only adds files at the end. */
  lemma AppendIsMonotone(a: seq<string>, b: seq<string>)
    requires Outcome(a).WriteOptions? && Outcome(a + b).WriteOptions?
    ensures Outcome(a).append ==> Outcome(a + b).append
    ensures Outcome(a).files <= Outcome(a + b).files
  {
    OutcomeConcat(a, b);
  }

  /** "-a out.txt" appends to out.txt. */
  lemma AppendExample()
    ensures Outcome(["-a", "out.txt"]) == WriteOptions(true, ["out.txt"])
  {
    var args := ["-a", "out.txt"];
    assert Classify(args[0]) == AppendFlags;
    assert Classify(args[1]) == Path;
    assert FirstFinal(args) == 2 by {
      assert args[1..] == ["out.txt"] && args[1..][1..] == [];
    }
    assert AppendRequested(args) by {
      assert IsAppendCluster(args[0]);
    }
    assert PathsOf(args) == ["out.txt"] by {
      assert args[..1] == ["-a"];
      assert ["-a"][..0] == [];
    }
  }

  /** Empty arguments are skipped and a repeated file is kept twice. */
  lemma BlankAndRepeatedExample()
    ensures Outcome(["", "x", "x"]) == WriteOptions(false, ["x", "x"])
  {
    var args := ["", "x", "x"];
    assert Classify(args[0]) == Blank && Classify(args[1]) == Path;
    assert FirstFinal(args) == 3 by {
      assert args[1..] == ["x", "x"] && args[1..][1..] == ["x"] && args[1..][1..][1..] == [];
    }
    assert !AppendRequested(args) by {
      forall i | 0 <= i < |args|
        ensures !IsAppendCluster(args[i])
      {
      }
    }
    assert PathsOf(args) == ["x", "x"] by {
      assert args[..2] == ["", "x"];
      assert ["", "x"][..1] == [""];
      assert [""][..0] == [];
    }
  }

  /** Example invocations that are rejected: an unknown long option, an unknown short
      flag, and an unknown flag after accepted ones (only that flag is reported). */
  lemma RejectedExamples()
    ensures Outcome(["--bogus"]) == WrongOption("--bogus")
    ensures Outcome(["-z"]) == WrongOption("-z")
    ensures Outcome(["-aaz", "f"]) == WrongOption("-z")
  {
    LongOptionVerdict("--bogus");
    ShortClusterVerdict("-z", 1);
    ShortClusterVerdict("-aaz", 3);
  }
}
