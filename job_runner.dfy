/**
 * JobRunner.run(args): the command line runner. The first argument names the job;
 * every later argument of the form key=value becomes a string job parameter after a
 * `run.time` parameter holding the launch time. A key that names a file path is
 * checked first: an input file must exist, and the parent directory of an output file
 * is created when it is missing.
 *
 * The clock is the parameter `now` (the time already formatted as ISO_LOCAL_DATE_TIME),
 * the application context is the set of job bean names `jobs`, the file system is a
 * FileSystem value, and a failure of jobLauncher.run is the parameter `launchFailure`.
 */
module JobRunner {
  import opened JavaLang
  import opened BatchCore

  /** The parameter run adds before the command line's own. */
  const RunTimeKey := "run.time"

  const InputFileMissing := "Input file not found: "

  const NullPointerException := Throwable("java.lang.NullPointerException", None)

  /** createDirectories failing for dir. */
  function IOException(dir: string): Throwable
  {
    Throwable("java.io.IOException", Some(dir))
  }

  /**
   * The paths that exist (files and directories), and the directories that
   * createDirectories cannot create.
   */
  datatype FileSystem = FileSystem(existing: set<string>, blocked: set<string>)

  // ---------------------------------------------------------------------------
  // split("=", 2)

  /** arg.split("=", 2): the whole argument, or the text before and after the first '='. */
  function SplitFirst(arg: string): (r: seq<string>)
    ensures |r| == 1 || |r| == 2
    ensures |r| == 2 <==> '=' in arg
  {
    if '=' !in arg then [arg]
    else
      var k := IndexOf(arg, '=');
      [arg[..k], arg[k + 1..]]
  }

  /** The argument is key=value, split at its first '='. */
  predicate IsPair(arg: string, key: string, value: string)
  {
    SplitFirst(arg) == [key, value]
  }

  /** An argument splits into key and value exactly when it is key + "=" + value with no '=' in key. */
  lemma SplitFirstIff(arg: string, key: string, value: string)
    ensures IsPair(arg, key, value) <==> arg == key + "=" + value && '=' !in key
  {
    if arg == key + "=" + value && '=' !in key {
      IndexOfAfter(key, '=', value);
      assert arg[..|key|] == key;
      assert arg[|key| + 1..] == value;
    }
    if IsPair(arg, key, value) {
      var k := IndexOf(arg, '=');
      assert arg == arg[..k] + "=" + arg[k + 1..];
    }
  }

  /** Arguments without '=' are kept whole, which is why run ignores them. */
  lemma SplitFirstNoEquals(arg: string)
    requires '=' !in arg
    ensures SplitFirst(arg) == [arg]
  {
  }

  // ---------------------------------------------------------------------------
  // validateFilePath

  /** The last '/' of s. */
  function LastSlash(s: string): (r: Option<nat>)
    ensures r.None? <==> '/' !in s
    ensures r.Some? ==> r.value < |s| && s[r.value] == '/' && '/' !in s[r.value + 1..]
    decreases |s|
  {
    if s == [] then None
    else if s[|s| - 1] == '/' then Some(|s| - 1)
    else
      var r := LastSlash(s[..|s| - 1]);
      assert s[..|s| - 1] + [s[|s| - 1]] == s;
      if r.Some? then
        assert s[r.value + 1..] == s[..|s| - 1][r.value + 1..] + [s[|s| - 1]];
        r
      else None
  }

  /**
   * Paths.get(path).getParent(): null for a path without a separator and for the
   * root, "/" for an entry of the root, otherwise the text before the last '/'.
   */
  function ParentOf(path: string): (r: Option<string>)
    ensures '/' !in path ==> r.None?
    ensures r.Some? ==> |r.value| < |path|
    // every path with a '/' has a parent, except the root itself
    ensures '/' in path && path != "/" ==> r.Some?
    // the parent is the text before the last '/', or the root when that '/' is the first character
    ensures r.Some? ==>
      (r.value == "/" && path[0] == '/' && '/' !in path[1..]) ||
      (r.value != "" && path[..|r.value|] == r.value && path[|r.value|] == '/' && '/' !in path[|r.value| + 1..])
  {
    var k := LastSlash(path);
    if k.None? then None
    else if k.value == 0 then (if |path| == 1 then None else Some("/"))
    else Some(path[..k.value])
  }

  /**
   * validateFilePath(key, path) as the source writes it: an output path without a
   * parent reaches Files.exists(null), which throws a NullPointerException.
   */
  function ValidateFilePathAsWritten(fs: FileSystem, key: string, path: string): (r: Result<FileSystem>)
    // an input key is only checked for existence, whatever else it contains
    ensures Contains(key, "input") ==>
      (r.Ok? <==> path in fs.existing) &&
      (r.Ok? ==> r.value == fs) &&
      (r.Err? ==> r.error == IllegalArgumentException(InputFileMissing + path))
    // an output key: a path without a parent throws, otherwise the parent exists afterwards or creating it failed
    ensures Contains(key, "output") && !Contains(key, "input") && ParentOf(path).None? ==> r == Err(NullPointerException)
    ensures Contains(key, "output") && !Contains(key, "input") && ParentOf(path).Some? ==>
      (r.Err? <==> ParentOf(path).value !in fs.existing && ParentOf(path).value in fs.blocked) &&
      (r.Ok? ==> ParentOf(path).value in r.value.existing && r.value.existing - fs.existing <= {ParentOf(path).value})
    // any other key is not checked
    ensures !Contains(key, "input") && !Contains(key, "output") ==> r == Ok(fs)
    // nothing is removed and what cannot be created stays so
    ensures r.Ok? ==> fs.existing <= r.value.existing && r.value.blocked == fs.blocked
  {
    if Contains(key, "input") then
      if path in fs.existing then Ok(fs) else Err(IllegalArgumentException(InputFileMissing + path))
    else if Contains(key, "output") then
      var parent := ParentOf(path);
      if parent.None? then Err(NullPointerException)
      else if parent.value in fs.existing then Ok(fs)
      else if parent.value in fs.blocked then Err(IOException(parent.value))
      else Ok(fs.(existing := fs.existing + {parent.value}))
    else Ok(fs)
  }

  /**
   * validateFilePath(key, path) as evidently intended: an output file in the working
   * directory has no parent to create.
   */
  function ValidateFilePath(fs: FileSystem, key: string, path: string): (r: Result<FileSystem>)
    // an input key is only checked for existence, whatever else it contains
    ensures Contains(key, "input") ==>
      (r.Ok? <==> path in fs.existing) &&
      (r.Ok? ==> r.value == fs) &&
      (r.Err? ==> r.error == IllegalArgumentException(InputFileMissing + path))
    // an output key: the parent exists afterwards, or creating it failed
    ensures !Contains(key, "input") && Contains(key, "output") ==>
      (r.Err? <==> ParentOf(path).Some? && ParentOf(path).value !in fs.existing && ParentOf(path).value in fs.blocked) &&
      (r.Ok? && ParentOf(path).Some? ==> ParentOf(path).value in r.value.existing) &&
      (r.Ok? ==> r.value.existing - fs.existing <= (if ParentOf(path).Some? then {ParentOf(path).value} else {}))
    // any other key is not checked
    ensures !Contains(key, "input") && !Contains(key, "output") ==> r == Ok(fs)
    // nothing is removed and what cannot be created stays so
    ensures r.Ok? ==> fs.existing <= r.value.existing && r.value.blocked == fs.blocked
  {
    if Contains(key, "input") then
      if path in fs.existing then Ok(fs) else Err(IllegalArgumentException(InputFileMissing + path))
    else if Contains(key, "output") then
      var parent := ParentOf(path);
      if parent.None? then Ok(fs)
      else if parent.value in fs.existing then Ok(fs)
      else if parent.value in fs.blocked then Err(IOException(parent.value))
      else Ok(fs.(existing := fs.existing + {parent.value}))
    else Ok(fs)
  }

  /** The two versions differ only on an output key whose path has no parent. */
  lemma ValidateFilePathCorrection(fs: FileSystem, key: string, path: string)
    ensures ValidateFilePathAsWritten(fs, key, path) != ValidateFilePath(fs, key, path) <==>
            !Contains(key, "input") && Contains(key, "output") && ParentOf(path).None?
  {
  }

  lemma OutputKeyNamesOutput()
    ensures Contains("output.file.path", "output") && Contains("output.file.path", "file.path")
    ensures !Contains("output.file.path", "input")
  {
    var s := "output.file.path";
    assert OccursAt(s, "output", 0) by { assert s[0..6] == "output"; }
    assert OccursAt(s, "file.path", 7) by { assert s[7..16] == "file.path"; }
    forall i | 0 <= i <= |s| ensures !OccursAt(s, "input", i) {
      if i + 5 <= |s| {
        assert s[i..i + 5][0] == s[i] && s[i..i + 5][1] == s[i + 1];
      }
    }
  }

  /** `output.file.path=out.csv`: the source throws a NullPointerException; intended is no check. */
  lemma OutputInWorkingDirectory(fs: FileSystem)
    ensures ValidateFilePathAsWritten(fs, "output.file.path", "out.csv") == Err(NullPointerException)
    ensures ValidateFilePath(fs, "output.file.path", "out.csv") == Ok(fs)
  {
    OutputKeyNamesOutput();
    assert ParentOf("out.csv").None?;
  }

  // ---------------------------------------------------------------------------
  // The parameter loop

  /**
   * The loop's state: the parameters added so far (keys are unique, a later put
   * replaces the value), the file system, and the exception thrown, if any.
   */
  datatype Builder = Builder(params: map<string, string>, fs: FileSystem, thrown: Option<Throwable>)

  /** The builder before the loop: only run.time. */
  function Start(now: string, fs: FileSystem): Builder
  {
    Builder(map[RunTimeKey := now], fs, None)
  }

  /** The loop body for one argument; once something was thrown, nothing more happens. */
  function AddArgument(b: Builder, arg: string): (r: Builder)
    ensures b.thrown.Some? ==> r == b
    ensures r.thrown.None? ==> b.thrown.None? && b.fs.existing <= r.fs.existing && r.fs.blocked == b.fs.blocked
    ensures '=' !in arg ==> r == b
    ensures b.params.Keys <= r.params.Keys
  {
    if b.thrown.Some? then b
    else
      var keyValue := SplitFirst(arg);
      if |keyValue| != 2 then b
      else
        var key, value := keyValue[0], keyValue[1];
        if Contains(key, "file.path") then
          var checked := ValidateFilePathAsWritten(b.fs, key, value);
          if checked.Err? then b.(thrown := Some(checked.error))
          else Builder(b.params[key := value], checked.value, None)
        else b.(params := b.params[key := value])
  }

  /** The loop over a list of arguments, left to right. */
  function AddArguments(b: Builder, args: seq<string>): (r: Builder)
    // a builder that already threw stays as it is
    ensures b.thrown.Some? ==> r == b
    // parameters are only added or replaced, files only added, and the blocked directories stay blocked
    ensures b.params.Keys <= r.params.Keys
    ensures r.thrown.None? ==> b.thrown.None? && b.fs.existing <= r.fs.existing && r.fs.blocked == b.fs.blocked
    decreases |args|
  {
    if args == [] then b
    else AddArgument(AddArguments(b, args[..|args| - 1]), args[|args| - 1])
  }

  /** What run does. */
  datatype Outcome =
    | NoJobSpecified
    | JobNotFound(jobName: string)
    | Threw(error: Throwable)
    | Launched(jobName: string, parameters: map<string, string>)

  datatype RunResult = RunResult(outcome: Outcome, fs: FileSystem)

  /** run(args) as a function of its inputs. */
  function RunSpec(args: seq<string>, jobs: set<string>, now: string, fs: FileSystem,
                   launchFailure: Option<Throwable>): (r: RunResult)
    ensures args == [] ==> r == RunResult(NoJobSpecified, fs)
    ensures args != [] && args[0] !in jobs ==> r == RunResult(JobNotFound(args[0]), fs)
    ensures r.outcome.Launched? ==> args != [] && r.outcome.jobName == args[0] && args[0] in jobs
    // a known job is launched exactly when the arguments pass their checks and the launcher does not fail,
    // with the parameters the loop built
    ensures r.outcome.Launched? <==>
      args != [] && args[0] in jobs && AddArguments(Start(now, fs), args[1..]).thrown.None? && launchFailure.None?
    ensures r.outcome.Launched? ==> r.outcome.parameters == AddArguments(Start(now, fs), args[1..]).params
    // what an argument throws is rethrown; so is a failure of the launcher once the arguments passed
    ensures args != [] && args[0] in jobs ==>
      var b := AddArguments(Start(now, fs), args[1..]);
      r.fs == b.fs &&
      (b.thrown.Some? ==> r.outcome == Threw(b.thrown.value)) &&
      (b.thrown.None? && launchFailure.Some? ==> r.outcome == Threw(launchFailure.value))
  {
    if args == [] then RunResult(NoJobSpecified, fs)
    else if args[0] !in jobs then RunResult(JobNotFound(args[0]), fs)
    else
      var b := AddArguments(Start(now, fs), args[1..]);
      if b.thrown.Some? then RunResult(Threw(b.thrown.value), b.fs)
      else if launchFailure.Some? then RunResult(Threw(launchFailure.value), b.fs)
      else RunResult(Launched(args[0], b.params), b.fs)
  }

  /** run(args): with no arguments or an unknown job it returns without launching anything. */
  method Run(args: seq<string>, jobs: set<string>, now: string, fs: FileSystem, launchFailure: Option<Throwable>)
    returns (outcome: Outcome, fsAfter: FileSystem)
    ensures RunResult(outcome, fsAfter) == RunSpec(args, jobs, now, fs, launchFailure)
  {
    if |args| == 0 {
      return NoJobSpecified, fs;
    }
    var jobName := args[0];
    if jobName !in jobs {
      return JobNotFound(jobName), fs;
    }
    var parameters := map[RunTimeKey := now];
    var files := fs;
    var i := 1;
    while i < |args|
      invariant 1 <= i <= |args|
      invariant AddArguments(Start(now, fs), args[1..i]) == Builder(parameters, files, None)
    {
      AddArgumentsStep(Start(now, fs), args, i);
      var keyValue := SplitFirst(args[i]);
      if |keyValue| == 2 {
        var key, value := keyValue[0], keyValue[1];
        if Contains(key, "file.path") {
          var checked := ValidateFilePathAsWritten(files, key, value);
          if checked.Err? {
            SlicesJoin(args, 1, i + 1);
            AddArgumentsStopped(Start(now, fs), args[1..i + 1], args[i + 1..]);
            return Threw(checked.error), files;
          }
          files := checked.value;
        }
        parameters := parameters[key := value];
      }
      i := i + 1;
    }
    assert args[1..i] == args[1..];
    if launchFailure.Some? {
      return Threw(launchFailure.value), files;
    }
    return Launched(jobName, parameters), files;
  }

  // ---------------------------------------------------------------------------
  // Properties of the loop

  lemma SlicesJoin(s: seq<string>, i: nat, j: nat)
    requires i <= j <= |s|
    ensures s[i..] == s[i..j] + s[j..]
  {
  }

  /** One more turn of the loop adds one more argument. */
  lemma AddArgumentsStep(b: Builder, args: seq<string>, i: nat)
    requires 1 <= i < |args|
    ensures AddArguments(b, args[1..i + 1]) == AddArgument(AddArguments(b, args[1..i]), args[i])
  {
    assert args[1..i + 1][..i - 1] == args[1..i];
  }

  /** Once an argument threw, the arguments after it are not looked at. */
  lemma {:induction false} AddArgumentsStopped(b: Builder, xs: seq<string>, ys: seq<string>)
    requires AddArguments(b, xs).thrown.Some?
    ensures AddArguments(b, xs + ys) == AddArguments(b, xs)
    decreases |ys|
  {
    if ys != [] {
      var ys' := ys[..|ys| - 1];
      assert (xs + ys)[..|xs + ys| - 1] == xs + ys';
      assert (xs + ys)[|xs + ys| - 1] == ys[|ys| - 1];
      AddArgumentsStopped(b, xs, ys');
    } else {
      assert xs + ys == xs;
    }
  }

  /** A loop that threw nothing threw nothing on any prefix. */
  lemma {:induction false} AddArgumentsPrefix(b: Builder, xs: seq<string>, n: nat)
    requires n <= |xs| && AddArguments(b, xs).thrown.None?
    ensures AddArguments(b, xs[..n]).thrown.None?
    ensures AddArguments(b, xs[..n]).fs.existing <= AddArguments(b, xs).fs.existing
    decreases |xs|
  {
    if n < |xs| {
      AddArgumentsPrefix(b, xs[..|xs| - 1], n);
      assert xs[..|xs| - 1][..n] == xs[..n];
    } else {
      assert xs[..n] == xs;
    }
  }

  /** An argument without '=' can be dropped from anywhere in the list. */
  lemma {:induction false} IgnoredArgument(b: Builder, xs: seq<string>, arg: string, ys: seq<string>)
    requires '=' !in arg
    ensures AddArguments(b, xs + [arg] + ys) == AddArguments(b, xs + ys)
    decreases |ys|
  {
    if ys == [] {
      assert (xs + [arg] + ys)[..|xs + [arg] + ys| - 1] == xs;
      assert xs + ys == xs;
    } else {
      var ys' := ys[..|ys| - 1];
      var y := ys[|ys| - 1];
      assert (xs + [arg] + ys)[..|xs + [arg] + ys| - 1] == xs + [arg] + ys';
      assert (xs + ys)[..|xs + ys| - 1] == xs + ys';
      assert (xs + [arg] + ys)[|xs + [arg] + ys| - 1] == y;
      assert (xs + ys)[|xs + ys| - 1] == y;
      IgnoredArgument(b, xs, arg, ys');
    }
  }

  /** The value the last key=value argument for key gives, if any. */
  function LastValue(args: seq<string>, key: string): (r: Option<string>)
    decreases |args|
  {
    if args == [] then None
    else
      var s := SplitFirst(args[|args| - 1]);
      if |s| == 2 && s[0] == key then Some(s[1])
      else LastValue(args[..|args| - 1], key)
  }

  /** The argument is key=something. */
  predicate Names(arg: string, key: string)
  {
    |SplitFirst(arg)| == 2 && SplitFirst(arg)[0] == key
  }

  /** args[i] is key=value and no later argument names key. */
  predicate LastPairAt(args: seq<string>, i: int, key: string, value: string)
  {
    0 <= i < |args| && IsPair(args[i], key, value) && forall j :: i < j < |args| ==> !Names(args[j], key)
  }

  /** LastValue is the value of the last argument that names the key. */
  lemma LastValueIff(args: seq<string>, key: string, value: string)
    ensures LastValue(args, key) == Some(value) <==> exists i :: LastPairAt(args, i, key, value)
  {
    if LastValue(args, key) == Some(value) {
      var i := LastValueFound(args, key, value);
      assert LastPairAt(args, i, key, value);
    }
    if exists i :: LastPairAt(args, i, key, value) {
      var i :| LastPairAt(args, i, key, value);
      LastValueOfLastPair(args, i, key, value);
    }
  }

  lemma {:induction false} LastValueFound(args: seq<string>, key: string, value: string) returns (i: nat)
    requires LastValue(args, key) == Some(value)
    ensures LastPairAt(args, i, key, value)
    decreases |args|
  {
    var n := |args| - 1;
    if Names(args[n], key) {
      i := n;
    } else {
      var init := args[..n];
      i := LastValueFound(init, key, value);
      assert args[i] == init[i];
      forall j | i < j < |args| ensures !Names(args[j], key) {
        if j < n {
          assert args[j] == init[j];
          assert LastPairAt(init, i, key, value);
        }
      }
    }
  }

  lemma {:induction false} LastValueOfLastPair(args: seq<string>, i: nat, key: string, value: string)
    requires LastPairAt(args, i, key, value)
    ensures LastValue(args, key) == Some(value)
    decreases |args|
  {
    var n := |args| - 1;
    if i < n {
      var init := args[..n];
      assert !Names(args[n], key);
      assert LastPairAt(init, i, key, value) by {
        assert init[i] == args[i];
        forall j | i < j < |init| ensures !Names(init[j], key) {
          assert init[j] == args[j];
        }
      }
      LastValueOfLastPair(init, i, key, value);
    }
  }

  /**
   * When nothing threw, the parameters are the starting ones overridden by the
   * arguments: a key is present when it started present or some argument names it,
   * and the last argument that names it decides its value.
   */
  lemma {:induction false} AddArgumentsParams(b: Builder, args: seq<string>, key: string)
    requires AddArguments(b, args).thrown.None?
    ensures key in AddArguments(b, args).params <==> key in b.params || LastValue(args, key).Some?
    ensures key in AddArguments(b, args).params ==>
      AddArguments(b, args).params[key] == if LastValue(args, key).Some? then LastValue(args, key).value else b.params[key]
    decreases |args|
  {
    if args != [] {
      AddArgumentsPrefix(b, args, |args| - 1);
      AddArgumentsParams(b, args[..|args| - 1], key);
    }
  }

  /** An input path named on a command line that got past the loop exists afterwards. */
  lemma {:induction false} AddArgumentsInputsExist(b: Builder, args: seq<string>, i: nat, key: string, value: string)
    requires AddArguments(b, args).thrown.None?
    requires i < |args| && IsPair(args[i], key, value) && Contains(key, "file.path") && Contains(key, "input")
    ensures value in AddArguments(b, args).fs.existing
    decreases |args|
  {
    var n := |args| - 1;
    var prev := AddArguments(b, args[..n]);
    assert AddArguments(b, args) == AddArgument(prev, args[n]);
    AddArgumentsPrefix(b, args, n);
    if i < n {
      assert args[..n][i] == args[i];
      AddArgumentsInputsExist(b, args[..n], i, key, value);
    } else {
      PathArgumentChecked(prev, args[n], key, value);
    }
  }

  /** The parent of an output path named on a command line that got past the loop exists afterwards. */
  lemma {:induction false} AddArgumentsOutputDirsExist(b: Builder, args: seq<string>, i: nat, key: string, value: string)
    requires AddArguments(b, args).thrown.None?
    requires i < |args| && IsPair(args[i], key, value) && Contains(key, "file.path") && Contains(key, "output")
    requires !Contains(key, "input")
    ensures ParentOf(value).Some? && ParentOf(value).value in AddArguments(b, args).fs.existing
    decreases |args|
  {
    var n := |args| - 1;
    var prev := AddArguments(b, args[..n]);
    assert AddArguments(b, args) == AddArgument(prev, args[n]);
    AddArgumentsPrefix(b, args, n);
    if i < n {
      assert args[..n][i] == args[i];
      AddArgumentsOutputDirsExist(b, args[..n], i, key, value);
    } else {
      PathArgumentChecked(prev, args[n], key, value);
    }
  }

  /** One file-path argument that does not throw leaves its file, or its output directory, in place. */
  lemma PathArgumentChecked(b: Builder, arg: string, key: string, value: string)
    requires AddArgument(b, arg).thrown.None? && IsPair(arg, key, value) && Contains(key, "file.path")
    ensures Contains(key, "input") ==> value in AddArgument(b, arg).fs.existing
    ensures !Contains(key, "input") && Contains(key, "output") ==>
      ParentOf(value).Some? && ParentOf(value).value in AddArgument(b, arg).fs.existing
  {
    assert SplitFirst(arg) == [key, value];
    var checked := ValidateFilePathAsWritten(b.fs, key, value);
    assert checked.Ok? && AddArgument(b, arg).fs == checked.value;
  }

  // ---------------------------------------------------------------------------
  // Properties of run

  /** A launched job always gets run.time: the launch time, unless the command line sets it. */
  lemma RunTimeAlwaysPassed(args: seq<string>, jobs: set<string>, now: string, fs: FileSystem, launchFailure: Option<Throwable>)
    requires RunSpec(args, jobs, now, fs, launchFailure).outcome.Launched?
    ensures var p := RunSpec(args, jobs, now, fs, launchFailure).outcome.parameters;
      RunTimeKey in p && p[RunTimeKey] == if LastValue(args[1..], RunTimeKey).Some? then LastValue(args[1..], RunTimeKey).value else now
  {
    AddArgumentsParams(Start(now, fs), args[1..], RunTimeKey);
  }

  /** A launched job gets run.time and exactly the keys the arguments name, each with its last value. */
  lemma LaunchedParameters(args: seq<string>, jobs: set<string>, now: string, fs: FileSystem,
                           launchFailure: Option<Throwable>, key: string)
    requires RunSpec(args, jobs, now, fs, launchFailure).outcome.Launched?
    ensures var p := RunSpec(args, jobs, now, fs, launchFailure).outcome.parameters;
      (key in p <==> key == RunTimeKey || LastValue(args[1..], key).Some?) &&
      (LastValue(args[1..], key).Some? ==> p[key] == LastValue(args[1..], key).value)
  {
    AddArgumentsParams(Start(now, fs), args[1..], key);
  }

  /** A launched job's input files all exist and so do its output files' parent directories. */
  lemma LaunchedPathsChecked(args: seq<string>, jobs: set<string>, now: string, fs: FileSystem,
                             launchFailure: Option<Throwable>, i: nat, key: string, value: string)
    requires RunSpec(args, jobs, now, fs, launchFailure).outcome.Launched?
    requires 1 <= i < |args| && IsPair(args[i], key, value) && Contains(key, "file.path")
    ensures Contains(key, "input") ==> value in RunSpec(args, jobs, now, fs, launchFailure).fs.existing
    ensures !Contains(key, "input") && Contains(key, "output") ==>
      ParentOf(value).Some? && ParentOf(value).value in RunSpec(args, jobs, now, fs, launchFailure).fs.existing
  {
    assert args[1..][i - 1] == args[i];
    if Contains(key, "input") {
      AddArgumentsInputsExist(Start(now, fs), args[1..], i - 1, key, value);
    } else if Contains(key, "output") {
      AddArgumentsOutputDirsExist(Start(now, fs), args[1..], i - 1, key, value);
    }
  }

  lemma InputKeyNamesInput()
    ensures Contains("input.file.path", "input") && Contains("input.file.path", "file.path")
  {
    var key := "input.file.path";
    assert OccursAt(key, "file.path", 6) by { assert key[6..15] == "file.path"; }
    assert OccursAt(key, "input", 0) by { assert key[0..5] == "input"; }
  }

  lemma AddOneArgument(b: Builder, arg: string)
    ensures AddArguments(b, [arg]) == AddArgument(b, arg)
  {
    assert [arg][..0] == [];
  }

  /** Arguments that name no file path never throw and leave the file system alone. */
  lemma {:induction false} AddArgumentsWithoutPaths(b: Builder, args: seq<string>)
    requires b.thrown.None?
    requires forall i :: 0 <= i < |args| ==> !Contains(SplitFirst(args[i])[0], "file.path")
    ensures AddArguments(b, args).thrown.None? && AddArguments(b, args).fs == b.fs
    decreases |args|
  {
    if args != [] {
      var init := args[..|args| - 1];
      forall i | 0 <= i < |init| ensures !Contains(SplitFirst(init[i])[0], "file.path") {
        assert init[i] == args[i];
      }
      AddArgumentsWithoutPaths(b, init);
    }
  }

  /** A known job whose arguments name no file path is launched when the launcher does not fail. */
  lemma LaunchedWithoutPaths(args: seq<string>, jobs: set<string>, now: string, fs: FileSystem)
    requires args != [] && args[0] in jobs
    requires forall i :: 1 <= i < |args| ==> !Contains(SplitFirst(args[i])[0], "file.path")
    ensures RunSpec(args, jobs, now, fs, None) ==
            RunResult(Launched(args[0], AddArguments(Start(now, fs), args[1..]).params), fs)
  {
    forall i | 0 <= i < |args[1..]| ensures !Contains(SplitFirst(args[1..][i])[0], "file.path") {
      assert args[1..][i] == args[i + 1];
    }
    AddArgumentsWithoutPaths(Start(now, fs), args[1..]);
  }

  /** The job name alone launches the job with run.time as its only parameter. */
  lemma JobNameAlone(job: string, jobs: set<string>, now: string, fs: FileSystem)
    requires job in jobs
    ensures RunSpec([job], jobs, now, fs, None) == RunResult(Launched(job, map[RunTimeKey := now]), fs)
  {
    assert [job][1..] == [];
  }

  /** An output file named without a directory stops the run with a NullPointerException. */
  lemma BareOutputFileThrows(job: string, jobs: set<string>, now: string, fs: FileSystem,
                             launchFailure: Option<Throwable>)
    requires job in jobs
    ensures RunSpec([job, "output.file.path=out.csv"], jobs, now, fs, launchFailure) ==
            RunResult(Threw(NullPointerException), fs)
  {
    var arg := "output.file.path=out.csv";
    BareOutputArgument(Start(now, fs));
    assert [job, arg][1..] == [arg];
    AddOneArgument(Start(now, fs), arg);
  }

  lemma BareOutputArgument(b: Builder)
    requires b.thrown.None?
    ensures AddArgument(b, "output.file.path=out.csv") == b.(thrown := Some(NullPointerException))
  {
    var key, value := "output.file.path", "out.csv";
    BareOutputSplits();
    OutputKeyNamesOutput();
    OutputInWorkingDirectory(b.fs);
  }

  lemma BareOutputSplits()
    ensures IsPair("output.file.path=out.csv", "output.file.path", "out.csv")
  {
    var key, value := "output.file.path", "out.csv";
    assert key + "=" + value == "output.file.path=out.csv";
    assert '=' !in key by {
      forall i | 0 <= i < |key| ensures key[i] != '=' { }
    }
    SplitFirstIff(key + "=" + value, key, value);
  }

  /** A missing input file stops the run with IllegalArgumentException before the job is launched. */
  lemma MissingInputFile(job: string, jobs: set<string>, now: string, fs: FileSystem,
                         launchFailure: Option<Throwable>, path: string)
    requires job in jobs && path !in fs.existing
    ensures RunSpec([job, "input.file.path=" + path], jobs, now, fs, launchFailure) ==
            RunResult(Threw(IllegalArgumentException("Input file not found: " + path)), fs)
  {
    var arg := "input.file.path=" + path;
    SplitFirstIff(arg, "input.file.path", path);
    InputKeyNamesInput();
    assert [job, arg][1..] == [arg];
    AddOneArgument(Start(now, fs), arg);
  }
}
