/** The earlier variant of the filter (pandoc_source_exec/pandoc_source_exec.py).
    It shares the executor table, `select_executor`, `trimpath` and
    `remove_import_statements` with the later one, but its batch command
    takes no `args`, its plot wrapper has no backend prelude, it centres a
    plot by dropping the first ten output lines, its interactive transcript
    keeps echoed lines, it has no listings, captions or line selection, and
    its `prepare` puts a pgfplots include first in `header-includes` while
    its `finalize` does nothing. */
module EarlyFilter {
  import opened Wrappers
  import opened Seqs
  import opened Text
  import opened Ast
  import Executor
  import Plot
  import Paths
  import Imports
  import Interactive
  import Filter

  // ---------------------------------------------------------------------
  // save_plot and execute_code_block

  function Postlude2(width: string, height: string): string {
    "tikz = get_tikz_code('', figureheight='" + height + "', figurewidth='" + width + "')"
  }

  /** The early `save_plot`: the user code followed by three lines printing
      the TikZ code of the current figure at the size `PlotSize` chooses. */
  function SavePlot(code: string, attributes: map<string, string>): (r: Result<string, PyError>)
    ensures r.Success? <==> Plot.PlotSize(attributes).Success?
    ensures r.Failure? ==> r.error == Plot.PlotSize(attributes).error
    ensures r.Success? ==>
      var size := Plot.PlotSize(attributes).value;
      && StartsWith(r.value, code)
      && r.value[|code|..] == "\n" + Plot.Line(Plot.Postlude1, Plot.Line(Postlude2(size.0, size.1), Plot.Postlude3))
  {
    match Plot.PlotSize(attributes)
    case Failure(e) => Failure(e)
    case Success(size) =>
      var post := "\n" + Plot.Line(Plot.Postlude1, Plot.Line(Postlude2(size.0, size.1), Plot.Postlude3));
      var program := Plot.Line(code, Plot.Line(Plot.Postlude1, Plot.Line(Postlude2(size.0, size.1), Plot.Postlude3)));
      assert program == code + post;
      assert (code + post)[|code|..] == post;
      Success(program)
  }

  lemma Postlude2OneLine(width: string, height: string)
    requires '\n' !in width && '\n' !in height
    ensures '\n' !in Postlude2(width, height)
  {
    var l, m, r := "tikz = get_tikz_code('', figureheight='", "', figurewidth='", "')";
    assert '\n' !in l;
    assert '\n' !in m && '\n' !in r;
    assert Postlude2(width, height) == l + height + m + width + r;
  }

  /** Line by line, the wrapped program is the user's lines unchanged and
      then the three-line postlude with the chosen size. */
  lemma SavePlotLines(code: string, attributes: map<string, string>)
    requires Plot.PlotSize(attributes).Success?
    requires '\n' !in Plot.PlotSize(attributes).value.0 && '\n' !in Plot.PlotSize(attributes).value.1
    ensures var size := Plot.PlotSize(attributes).value;
      SavePlot(code, attributes).Success? &&
      SplitOn(SavePlot(code, attributes).value, '\n')
        == SplitOn(code, '\n') + [Plot.Postlude1, Postlude2(size.0, size.1), Plot.Postlude3]
  {
    var size := Plot.PlotSize(attributes).value;
    var q2 := Postlude2(size.0, size.1);
    Plot.PostludeOneLine();
    Postlude2OneLine(size.0, size.1);
    Plot.SplitThree(Plot.Postlude1, q2, Plot.Postlude3);
    Plot.SplitLine(code, Plot.Line(Plot.Postlude1, Plot.Line(q2, Plot.Postlude3)));
  }

  /** The wrapping loses nothing of the code. */
  lemma SavePlotInjective(code1: string, code2: string, attributes: map<string, string>)
    requires SavePlot(code1, attributes).Success?
    requires SavePlot(code1, attributes) == SavePlot(code2, attributes)
    ensures code1 == code2
  {
    var size := Plot.PlotSize(attributes).value;
    var post := "\n" + Plot.Line(Plot.Postlude1, Plot.Line(Postlude2(size.0, size.1), Plot.Postlude3));
    assert SavePlot(code1, attributes).value == "" + code1 + post;
    assert SavePlot(code2, attributes).value == "" + code2 + post;
    Plot.CancelAffixes("", code1, code2, post);
  }

  /** The early `execute_code_block` command: the executor split at single
      spaces and the code as the last argument; the working directory is
      `wd`, or the filter's own. The executor is resolved first. */
  function BuildCommand(text: string, classes: seq<string>, attributes: map<string, string>): (r: Result<Executor.Command, PyError>)
    ensures r.Success? <==> (Executor.SelectExecutor(classes, attributes).Success?
      && (Plot.PlotRequested(classes, attributes) ==> SavePlot(text, attributes).Success?))
    ensures r.Failure? && Executor.SelectExecutor(classes, attributes).Failure? ==> r.error == Executor.SelectExecutor(classes, attributes).error
    ensures r.Failure? && Executor.SelectExecutor(classes, attributes).Success? ==> r.error == ValueError
    ensures r.Success? ==>
      var executor := Executor.SelectExecutor(classes, attributes).value;
      var argv := r.value.argv;
      && |argv| == |SplitOn(executor, ' ')| + 1
      && Join(argv[..|argv| - 1], " ") == executor
      && argv[|argv| - 1] == (if Plot.PlotRequested(classes, attributes) then SavePlot(text, attributes).value else text)
      && r.value.cwd == if "wd" in attributes then Some(attributes["wd"]) else None
  {
    var executor :- Executor.SelectExecutor(classes, attributes);
    var code :- if Plot.PlotRequested(classes, attributes) then SavePlot(text, attributes) else Success(text);
    var head := SplitOn(executor, ' ');
    JoinSplitOn(executor, ' ');
    assert (head + [code])[..|head|] == head;
    Success(Executor.Command(head + [code], if "wd" in attributes then Some(attributes["wd"]) else None))
  }

  /** Without plot capture and `args`, both variants build the same command. */
  lemma CommandsAgree(text: string, classes: seq<string>, attributes: map<string, string>)
    requires !Plot.PlotRequested(classes, attributes) && "args" !in attributes
    ensures BuildCommand(text, classes, attributes) == Executor.BuildCommand(text, classes, attributes)
  {
    if Executor.SelectExecutor(classes, attributes).Success? {
      var head := SplitOn(Executor.SelectExecutor(classes, attributes).value, ' ');
      assert head + [text] + [] == head + [text];
    }
  }

  // ---------------------------------------------------------------------
  // Centring a plot

  /** The early plot output: the output lines after the first ten, taken
      as the header matplotlib2tikz prints, inside a center environment. */
  function CenterPlot(result: string): (r: string)
    ensures StartsWith(r, Plot.BeginCenter + "\n")
    ensures |r| >= |Plot.EndCenter| + 1 && r[|r| - |Plot.EndCenter| - 1..] == "\n" + Plot.EndCenter
    ensures |SplitLines(result)| <= 10 ==> r == Plot.BeginCenter + "\n" + Plot.EndCenter
  {
    var rest := DropPrefix(SplitLines(result), 10);
    JoinSnoc([Plot.BeginCenter] + rest, Plot.EndCenter, "\n");
    JoinCons(Plot.BeginCenter, rest + [Plot.EndCenter], "\n");
    assert [Plot.BeginCenter] + rest + [Plot.EndCenter] == [Plot.BeginCenter] + (rest + [Plot.EndCenter]);
    Join([Plot.BeginCenter] + DropPrefix(SplitLines(result), 10) + [Plot.EndCenter], "\n")
  }

  /** Line by line, the centred plot is the opening, the output's lines from
      the eleventh on, and the closing. */
  lemma CenterPlotLines(result: string)
    ensures SplitLines(CenterPlot(result)) == [Plot.BeginCenter] + DropPrefix(SplitLines(result), 10) + [Plot.EndCenter]
  {
    var lines := SplitLines(result);
    var rest := DropPrefix(lines, 10);
    var all := [Plot.BeginCenter] + rest + [Plot.EndCenter];
    assert NoLineBreak(Plot.BeginCenter) && NoLineBreak(Plot.EndCenter);
    assert AllNoLineBreak(rest) by {
      forall k | 0 <= k < |rest| ensures NoLineBreak(rest[k]) { assert rest[k] == lines[10 + k]; }
    }
    assert AllNoLineBreak(all) by {
      forall k | 0 <= k < |all| ensures NoLineBreak(all[k]) {
        if 0 < k < |all| - 1 { assert all[k] == rest[k - 1]; }
      }
    }
    SplitLinesJoin(all);
  }

  // ---------------------------------------------------------------------
  // action

  /** The outcome of the early `action` on one block: the block's text and
      the returned blocks, or the exception. */
  datatype Outcome = Outcome(text: string, result: Result<seq<Node>, PyError>)

  /** The `exec` part of the early `action`: an interactive session without
      the echo filter, or a batch run adding an `Output:` paragraph and the
      output, centred raw LaTeX for a plot, with the imports stripped from
      the block when asked to. */
  function ExecStage(text: string, classes: seq<string>, attributes: map<string, string>, env: Env): Outcome {
    if "exec" !in classes then Outcome(text, Success([]))
    else if "interactive" in classes || StartsWith(text, ">>> ") then
      Outcome(Interactive.InteractiveSpec(env, text, false), Success([]))
    else
      match BuildCommand(text, classes, attributes)
      case Failure(e) => Outcome(text, Failure(e))
      case Success(command) =>
        var output := env.run(command.argv, command.cwd);
        var text' := if "hideimports" in classes then Imports.RemoveImportsSpec(text) else text;
        var block := if Plot.PlotRequested(classes, attributes) then RawBlock(CenterPlot(output), "latex")
          else NewCodeBlock(output, ["changelog"]);
        Outcome(text', Success([Filter.OutputPara(), block]))
  }

  /** The early `action` on code block `cb` whose text is `text`: `trimpath`
      runs, and can raise, as soon as the file is loaded, before execution. */
  function Annotate(cb: CodeBlock, text: string, classes: seq<string>, attributes: map<string, string>, env: Env): Outcome
    requires "file" in attributes ==> Paths.ValidRelPath(attributes["file"])
  {
    var loaded := Filter.LoadedText(text, attributes, env);
    match Filter.FileName(attributes)
    case Failure(e) => Outcome(loaded, Failure(e))
    case Success(filename) =>
      var ex := ExecStage(loaded, classes, attributes, env);
      if ex.result.Failure? then ex
      else Outcome(ex.text, Success(Filter.FileHead(attributes, filename) + Filter.Base(cb, classes) + ex.result.value))
  }

  /** The code block is returned exactly once, or not at all when hidden. */
  lemma AnnotateHide(cb: CodeBlock, text: string, classes: seq<string>, attributes: map<string, string>, env: Env)
    requires "file" in attributes ==> Paths.ValidRelPath(attributes["file"])
    requires Annotate(cb, text, classes, attributes, env).result.Success?
    ensures multiset(Annotate(cb, text, classes, attributes, env).result.value)[Block(cb)] == if "hide" in classes then 0 else 1
  {
    var loaded := Filter.LoadedText(text, attributes, env);
    var ex := ExecStage(loaded, classes, attributes, env);
    var head := Filter.FileHead(attributes, Filter.FileName(attributes).value);
    assert Block(cb) !in ex.result.value;
    CountBetween(head, Filter.Base(cb, classes), ex.result.value, Block(cb));
  }

  lemma CountBetween(head: seq<Node>, mid: seq<Node>, tail: seq<Node>, n: Node)
    requires n !in head && n !in tail
    ensures multiset(head + mid + tail)[n] == multiset(mid)[n]
  {
    MultisetAppend(head, mid);
    MultisetAppend(head + mid, tail);
  }

  /** A loaded file is always announced first; the block's final text is
      the file after execution. */
  lemma AnnotateFileFirst(cb: CodeBlock, text: string, classes: seq<string>, attributes: map<string, string>, env: Env)
    requires "file" in attributes && Paths.ValidRelPath(attributes["file"])
    requires Annotate(cb, text, classes, attributes, env).result.Success?
    ensures Annotate(cb, text, classes, attributes, env).result.value[0] == Filter.FilePara(Paths.TrimPathSpec(attributes).value)
    ensures Annotate(cb, text, classes, attributes, env).text == ExecStage(env.readFile(attributes["file"]), classes, attributes, env).text
  {
  }

  /** A batch run ends the returned blocks with the `Output:` paragraph and
      the output block, while the command runs the text as loaded. */
  lemma AnnotateBatch(cb: CodeBlock, text: string, classes: seq<string>, attributes: map<string, string>, env: Env)
    requires "file" in attributes ==> Paths.ValidRelPath(attributes["file"])
    requires "exec" in classes && "interactive" !in classes
    requires !StartsWith(Filter.LoadedText(text, attributes, env), ">>> ")
    requires Annotate(cb, text, classes, attributes, env).result.Success?
    ensures var loaded := Filter.LoadedText(text, attributes, env);
      var nodes := Annotate(cb, text, classes, attributes, env).result.value;
      var command := BuildCommand(loaded, classes, attributes);
      var output := env.run(command.value.argv, command.value.cwd);
      && command.Success?
      && |nodes| >= 2
      && nodes[|nodes| - 2] == Filter.OutputPara()
      && nodes[|nodes| - 1] == (if Plot.PlotRequested(classes, attributes) then RawBlock(CenterPlot(output), "latex")
           else NewCodeBlock(output, ["changelog"]))
      && Annotate(cb, text, classes, attributes, env).text == if "hideimports" in classes then Imports.RemoveImportsSpec(loaded) else loaded
  {
  }

  /** The early `action` raises exactly when `trimpath` does or the batch
      command cannot be built. */
  lemma AnnotateFailure(cb: CodeBlock, text: string, classes: seq<string>, attributes: map<string, string>, env: Env)
    requires "file" in attributes ==> Paths.ValidRelPath(attributes["file"])
    ensures var loaded := Filter.LoadedText(text, attributes, env);
      Annotate(cb, text, classes, attributes, env).result.Failure? <==>
        (Filter.FileName(attributes).Failure?
         || ("exec" in classes && "interactive" !in classes && !StartsWith(loaded, ">>> ")
             && BuildCommand(loaded, classes, attributes).Failure?))
  {
  }

  /** Without a caption, the later variant's listing stage only puts the
      `File:` paragraph first, as the early `action` does. */
  lemma ListingWithoutCaption(elems: seq<Node>, filename: string, labelName: string, classes: seq<string>, attributes: map<string, string>, env: Env)
    requires "caption" !in attributes && "caption" !in classes
    ensures Filter.ListingStage(elems, filename, labelName, classes, attributes, env) == (false, Filter.FileHead(attributes, filename) + elems)
  {
    if "file" !in attributes {
      assert [] + elems == elems;
    }
  }

  /** A block that is not executed, has no caption and selects no lines is
      treated alike by both variants. */
  lemma AgreesWithoutExec(cb: CodeBlock, text: string, classes: seq<string>, attributes: map<string, string>, counter: nat, env: Env)
    requires "file" in attributes ==> Paths.ValidRelPath(attributes["file"])
    requires "exec" !in classes && "lines" !in attributes
    requires "caption" !in attributes && "caption" !in classes
    ensures var s := Filter.Annotate(cb, text, classes, attributes, counter, env);
      Annotate(cb, text, classes, attributes, env) == Outcome(s.text, s.result)
  {
    var loaded := Filter.LoadedText(text, attributes, env);
    var filename := Filter.FileName(attributes);
    if filename.Success? {
      var base := Filter.Base(cb, classes);
      var labelName := Get(attributes, "label", Filter.DefaultLabel(counter));
      assert Filter.ExecStage(loaded, classes, attributes, env) == Filter.Step(loaded, false, false, Success([]));
      var listing := Filter.ListingStage(base + [], filename.value, labelName, classes, attributes, env);
      ListingWithoutCaption(base + [], filename.value, labelName, classes, attributes, env);
      Assoc(Filter.FileHead(attributes, filename.value), base, []);
      assert Filter.Annotate(cb, text, classes, attributes, counter, env) == Filter.Step(loaded, false, false, Success(listing.1));
    }
  }

  /** So is a batch run without plot capture, `args`, caption or line
      selection. */
  lemma AgreesOnBatch(cb: CodeBlock, text: string, classes: seq<string>, attributes: map<string, string>, counter: nat, env: Env)
    requires "file" in attributes ==> Paths.ValidRelPath(attributes["file"])
    requires "exec" in classes && "interactive" !in classes
    requires !StartsWith(Filter.LoadedText(text, attributes, env), ">>> ")
    requires !Plot.PlotRequested(classes, attributes) && "args" !in attributes && "lines" !in attributes
    requires "caption" !in attributes && "caption" !in classes
    ensures var s := Filter.Annotate(cb, text, classes, attributes, counter, env);
      Annotate(cb, text, classes, attributes, env) == Outcome(s.text, s.result)
  {
    var loaded := Filter.LoadedText(text, attributes, env);
    CommandsAgree(loaded, classes, attributes);
    var filename := Filter.FileName(attributes);
    var ex := ExecStage(loaded, classes, attributes, env);
    var top := Filter.ExecStage(loaded, classes, attributes, env);
    assert ex == Outcome(top.text, top.result) && !top.plotSet;
    if filename.Success? && ex.result.Success? {
      var base := Filter.Base(cb, classes);
      var labelName := Get(attributes, "label", Filter.DefaultLabel(counter));
      var listing := Filter.ListingStage(base + ex.result.value, filename.value, labelName, classes, attributes, env);
      ListingWithoutCaption(base + ex.result.value, filename.value, labelName, classes, attributes, env);
      Assoc(Filter.FileHead(attributes, filename.value), base, ex.result.value);
      assert Filter.Annotate(cb, text, classes, attributes, counter, env) == Filter.Step(ex.text, false, false, Success(listing.1));
    }
  }

  /** The `exec` part of the early `action` on the block. */
  method RunBlock(cb: CodeBlock, env: Env) returns (outputs: Result<seq<Node>, PyError>)
    modifies cb
    ensures var ex := ExecStage(old(cb.text), cb.classes, cb.attributes, env);
      cb.text == ex.text && outputs == ex.result
  {
    outputs := Success([]);
    if "exec" in cb.classes {
      if "interactive" in cb.classes || StartsWith(cb.text, ">>> ") {
        cb.text := Interactive.ExecuteInteractiveCode(env, cb.text, false);
      } else {
        var command := BuildCommand(cb.text, cb.classes, cb.attributes);
        if command.Failure? {
          return Failure(command.error);
        }
        var output := env.run(command.value.argv, command.value.cwd);
        if "hideimports" in cb.classes {
          cb.text := Imports.RemoveImportStatements(cb.text);
        }
        var block;
        if Plot.PlotRequested(cb.classes, cb.attributes) {
          block := RawBlock(CenterPlot(output), "latex");
        } else {
          block := NewCodeBlock(output, ["changelog"]);
        }
        outputs := Success([Filter.OutputPara(), block]);
      }
    }
  }

  /** The early `action`: other elements are left alone (`None`); a code
      block gets its final text and is replaced by the returned blocks, or
      the call raises. The document is not used. */
  method Action(elem: Element, env: Env) returns (r: Result<Option<seq<Node>>, PyError>)
    requires elem.CodeBlockElement? && "file" in elem.block.attributes ==> Paths.ValidRelPath(elem.block.attributes["file"])
    modifies if elem.CodeBlockElement? then {elem.block} else {}
    ensures elem.OtherElement? ==> r == Success(None)
    ensures elem.CodeBlockElement? ==>
      var cb := elem.block;
      var s := Annotate(cb, old(cb.text), cb.classes, cb.attributes, env);
      && cb.text == s.text
      && r == if s.result.Success? then Success(Some(s.result.value)) else Failure(s.result.error)
  {
    if elem.OtherElement? {
      return Success(None);
    }
    var cb := elem.block;
    var elems := Filter.Base(cb, cb.classes);
    var filename := Filter.LoadFile(cb, env);
    if filename.Failure? {
      return Failure(filename.error);
    }
    elems := Filter.FileHead(cb.attributes, filename.value) + elems;
    var outputs := RunBlock(cb, env);
    if outputs.Failure? {
      return Failure(outputs.error);
    }
    return Success(Some(elems + outputs.value));
  }

  // ---------------------------------------------------------------------
  // prepare and finalize

  const Usepackage := "\\usepackage{pgfplots}"

  function IncludeItem(): MetaItem {
    MetaInlines([RawInline(Usepackage, "tex")])
  }

  /** Whether an inline's text, or that of an inline inside it, contains `p`. */
  predicate InlineMentions(x: Inline, p: string) {
    match x
    case Str(t) => Contains(t, p)
    case Code(t) => Contains(t, p)
    case RawInline(t, _) => Contains(t, p)
    case Space => false
    case Emph(content) => exists i :: 0 <= i < |content| && InlineMentions(content[i], p)
  }

  /** Whether `header-includes` already includes pgfplots: the test
      `usepackage in str(...)`, taken on the texts of its inlines. */
  predicate Mentions(items: seq<MetaItem>) {
    exists i, j :: 0 <= i < |items| && 0 <= j < |items[i].content| && InlineMentions(items[i].content[j], Usepackage)
  }

  /** `header-includes` after the early `prepare`: the include goes first
      unless it is already there, and a missing key gets the include alone. */
  function Prepared(h: Option<seq<MetaItem>>): Option<seq<MetaItem>> {
    match h
    case None => Some([IncludeItem()])
    case Some(items) => if Mentions(items) then h else Some([IncludeItem()] + items)
  }

  lemma IncludeMentions(items: seq<MetaItem>)
    ensures Mentions([IncludeItem()] + items)
  {
    var all := [IncludeItem()] + items;
    assert StartsWith(Usepackage, Usepackage);
    assert InlineMentions(all[0].content[0], Usepackage);
  }

  /** After `prepare`, pgfplots is included and the previous entries follow
      in their order. */
  lemma PreparedEntries(h: Option<seq<MetaItem>>)
    ensures Prepared(h).Some? && Mentions(Prepared(h).value)
    ensures h.Some? ==> Prepared(h).value == h.value || Prepared(h).value == [IncludeItem()] + h.value
    ensures h.Some? && Mentions(h.value) ==> Prepared(h) == h
    ensures h.None? ==> Prepared(h) == Some([IncludeItem()])
  {
    IncludeMentions(if h.Some? then h.value else []);
    assert [IncludeItem()] + [] == [IncludeItem()];
  }

  /** Running `prepare` twice adds the include only once. */
  lemma PreparedIdempotent(h: Option<seq<MetaItem>>)
    ensures Prepared(Prepared(h)) == Prepared(h)
  {
    PreparedEntries(h);
  }

  method Prepare(doc: Doc)
    modifies doc
    ensures doc.headerIncludes == Prepared(old(doc.headerIncludes))
    ensures doc.listingsCounter == old(doc.listingsCounter)
    ensures doc.plotFound == old(doc.plotFound) && doc.captionFound == old(doc.captionFound)
  {
    match doc.headerIncludes
    case None =>
      doc.headerIncludes := Some([IncludeItem()]);
    case Some(items) =>
      if !Mentions(items) {
        doc.headerIncludes := Some([IncludeItem()] + items);
      }
  }
}
