/** Executor resolution and the construction of the batch command line
    (pandoc_source_exec.py, `EXECUTORS`, `select_executor` and the first half
    of `execute_code_block`). */
module Executor {
  import opened Wrappers
  import opened Text
  import opened Ast
  import Plot

  /** The fixed table from language names to interpreter invocations. */
  const Executors: map<string, string> := map[
    "default" := "echo",
    "perl" := "/usr/bin/env perl -e",
    "php" := "/usr/bin/env php -r",
    "python" := "/usr/bin/env python3 -c",
    "python2" := "/usr/bin/env python2 -c",
    "python3" := "/usr/bin/env python3 -c",
    "ruby" := "/usr/bin/env ruby -e"
  ]

  /** `EXECUTORS[key]`: a missing key raises `KeyError`, it never falls back. */
  function Lookup(key: string): (r: Result<string, PyError>)
    ensures r.Success? <==> key in Executors
    ensures r.Success? ==> r.value == Executors[key]
    ensures r.Failure? ==> r.error == KeyError(key)
  {
    if key in Executors then Success(Executors[key]) else Failure(KeyError(key))
  }

  /** `select_executor`: `cmd` wins, then `runas` looked up in the table, then
      the first class looked up in the table, except that a first class
      `exec` keeps the default `echo`. */
  function SelectExecutor(classes: seq<string>, attributes: map<string, string>): (r: Result<string, PyError>)
    ensures r.Success? ==>
      if "cmd" in attributes then r.value == attributes["cmd"] else r.value in Executors.Values
    ensures "cmd" in attributes ==> r == Success(attributes["cmd"])
    ensures "cmd" !in attributes && "runas" in attributes ==> r == Lookup(attributes["runas"])
    ensures "cmd" !in attributes && "runas" !in attributes && classes != [] && classes[0] != "exec"
      ==> r == Lookup(classes[0])
    ensures "cmd" !in attributes && "runas" !in attributes && classes != [] && classes[0] == "exec"
      ==> r == Success("echo")
    ensures r.Failure? ==>
      && "cmd" !in attributes
      && (r.error == IndexError <==> "runas" !in attributes && classes == [])
      && (r.error.KeyError? ==> r.error.key !in Executors)
      && (r.error.KeyError? ==>
            r.error.key == if "runas" in attributes then attributes["runas"] else classes[0])
  {
    if "cmd" in attributes then Success(attributes["cmd"])
    else if "runas" in attributes then Lookup(attributes["runas"])
    else if |classes| == 0 then Failure(IndexError)
    else if classes[0] != "exec" then Lookup(classes[0])
    else Success(Executors["default"])
  }

  /** The precedence, stated as what the choice may depend on: with `cmd`
      only on `cmd`; else with `runas` only on `runas`; else only on the first
      class; and a first class `exec` gives `echo`. */
  lemma ExecutorPrecedence(classes: seq<string>, attributes: map<string, string>,
                           classes': seq<string>, attributes': map<string, string>)
    ensures "cmd" in attributes && "cmd" in attributes' && attributes["cmd"] == attributes'["cmd"]
      ==> SelectExecutor(classes, attributes) == SelectExecutor(classes', attributes')
    ensures "cmd" !in attributes && "cmd" !in attributes'
      && "runas" in attributes && "runas" in attributes' && attributes["runas"] == attributes'["runas"]
      ==> SelectExecutor(classes, attributes) == SelectExecutor(classes', attributes')
    ensures "cmd" !in attributes && "cmd" !in attributes' && "runas" !in attributes && "runas" !in attributes'
      && classes != [] && classes' != [] && classes[0] == classes'[0]
      ==> SelectExecutor(classes, attributes) == SelectExecutor(classes', attributes')
    ensures "cmd" !in attributes && "runas" !in attributes && classes != [] && classes[0] == "exec"
      ==> SelectExecutor(classes, attributes) == Success("echo")
  {
  }

  /** The argument vector and working directory of a batch execution. */
  datatype Command = Command(argv: seq<string>, cwd: Option<string>)

  /** The code handed to the interpreter: the block text, wrapped by
      `save_plot` when plot capture is requested. */
  function CodeArgument(text: string, classes: seq<string>, attributes: map<string, string>): Result<string, PyError>
  {
    if Plot.PlotRequested(classes, attributes) then Plot.SavePlot(text, attributes) else Success(text)
  }

  /** The whitespace-separated tokens of the `args` attribute, if any. */
  function ExtraArgs(attributes: map<string, string>): seq<string>
  {
    if "args" in attributes then SplitWhitespace(attributes["args"]) else []
  }

  /** The command built by `execute_code_block`: the executor split at single
      spaces, then the code as one argument, then the `args` tokens; the
      working directory is `wd`, or the filter's own when it is absent. The
      executor is resolved before the code is wrapped, so its error wins. */
  function BuildCommand(text: string, classes: seq<string>, attributes: map<string, string>): (r: Result<Command, PyError>)
    ensures r.Success? <==> SelectExecutor(classes, attributes).Success? && CodeArgument(text, classes, attributes).Success?
    ensures r.Failure? && SelectExecutor(classes, attributes).Failure? ==> r.error == SelectExecutor(classes, attributes).error
    ensures r.Failure? && SelectExecutor(classes, attributes).Success? ==> r.error == ValueError
    ensures r.Success? ==>
      var executor := SelectExecutor(classes, attributes).value;
      var n := |SplitOn(executor, ' ')|;
      var argv := r.value.argv;
      && |argv| > n
      && Join(argv[..n], " ") == executor
      && argv[n] == CodeArgument(text, classes, attributes).value
      && (!Plot.PlotRequested(classes, attributes) ==> argv[n] == text)
      && argv[n + 1..] == ExtraArgs(attributes)
      && (forall k :: n < k < |argv| ==> argv[k] != "" && NoSpace(argv[k]))
      && ("args" !in attributes ==> |argv| == n + 1)
    ensures r.Success? ==> r.value.cwd == if "wd" in attributes then Some(attributes["wd"]) else None
  {
    var executor :- SelectExecutor(classes, attributes);
    var code :- CodeArgument(text, classes, attributes);
    var head := SplitOn(executor, ' ');
    var argv := head + [code] + ExtraArgs(attributes);
    JoinSplitOn(executor, ' ');
    assert argv[..|head|] == head;
    assert argv[|head| + 1..] == ExtraArgs(attributes);
    Success(Command(argv, if "wd" in attributes then Some(attributes["wd"]) else None))
  }

  /** The batch output: what the process prints, exit status ignored. */
  function ExecuteCodeBlock(text: string, classes: seq<string>, attributes: map<string, string>, env: Env): (r: Result<string, PyError>)
    ensures r.Success? <==> BuildCommand(text, classes, attributes).Success?
    ensures r.Failure? ==> r.error == BuildCommand(text, classes, attributes).error
    ensures r.Success? ==>
      var command := BuildCommand(text, classes, attributes).value;
      r.value == env.run(command.argv, command.cwd)
  {
    var command :- BuildCommand(text, classes, attributes);
    Success(env.run(command.argv, command.cwd))
  }
}
