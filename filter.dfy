/** The per-code-block rule engine of the filter (pandoc_source_exec.py,
    `make_codelisting`, `prepare`, `action` and `finalize`). `action` turns a
    code block into the list of blocks that replaces it: the block itself
    (unless hidden), a `File:` paragraph, the output of running it, and a
    code-listing environment with caption and label. The document keeps a
    listing counter and two flags that `finalize` turns into header
    includes. */
module Filter {
  import opened Wrappers
  import opened Text
  import opened Ast
  import opened Seqs
  import Executor
  import Plot
  import Paths
  import Imports
  import Interactive
  import LineFilter

  // ---------------------------------------------------------------------
  // make_codelisting

  const CodelistingBegin := "\\begin{codelisting}[hbtp]"
  const CodelistingEnd := "\\end{codelisting}"

  /** The caption command: the short caption, falling back to the caption
      when it is empty, goes to the list of listings; the label and the
      caption are typeset. */
  function CaptionText(caption: string, labelName: string, shortcaption: string): string {
    var short := if shortcaption == "" then caption else shortcaption;
    "\\caption[" + short + "]{\\label{" + labelName + "}" + caption + "}"
  }

  /** `make_codelisting`: the inner blocks inside a codelisting environment,
      with the caption after the opening (`above`) or before the closing. */
  function MakeCodelisting(inner: seq<Node>, caption: string, labelName: string, shortcaption: string, above: bool): (r: seq<Node>)
    ensures |r| == |inner| + 3
    ensures r[0] == RawBlock(CodelistingBegin, "tex") && r[|r| - 1] == RawBlock(CodelistingEnd, "tex")
    ensures above ==> r[1] == RawBlock(CaptionText(caption, labelName, shortcaption), "tex") && r[2..|r| - 1] == inner
    ensures !above ==> r[|r| - 2] == RawBlock(CaptionText(caption, labelName, shortcaption), "tex") && r[1..|r| - 2] == inner
    ensures multiset(r) == multiset(inner) + multiset{RawBlock(CodelistingBegin, "tex"), RawBlock(CaptionText(caption, labelName, shortcaption), "tex"), RawBlock(CodelistingEnd, "tex")}
  {
    var begin := RawBlock(CodelistingBegin, "tex");
    var end := RawBlock(CodelistingEnd, "tex");
    var cap := RawBlock(CaptionText(caption, labelName, shortcaption), "tex");
    if above then
      WrapAbove(begin, cap, inner, end);
      [begin, cap] + inner + [end]
    else
      WrapBelow(begin, inner, cap, end);
      [begin] + inner + [cap, end]
  }

  // ---------------------------------------------------------------------
  // The blocks action builds

  function OutputPara(): Node {
    Para([Emph([Str("Output:")])])
  }

  function FilePara(filename: string): Node {
    Para([Emph([Str("File:")]), Space, Code(filename)])
  }

  /** The `File:` paragraph, present exactly when a file was loaded. */
  function FileHead(attributes: map<string, string>, filename: string): seq<Node> {
    if "file" in attributes then [FilePara(filename)] else []
  }

  /** The label used without a `label` attribute: `cl:` and the counter. */
  function DefaultLabel(counter: nat): string {
    "cl:" + NatToString(counter)
  }

  /** The state of one block's processing when it returns or raises: the
      block's text, whether the plot or caption flag was set, and the
      returned blocks or the exception. */
  datatype Step = Step(text: string, plotSet: bool, captionSet: bool, result: Result<seq<Node>, PyError>)

  /** The `exec` part of `action`: an interactive session rewrites the
      block's text; a batch run adds an `Output:` paragraph and the output,
      as raw LaTeX centred when a plot was captured, and strips the imports
      from the block when asked to. The command is built from the text
      before the imports are removed. */
  function ExecStage(text: string, classes: seq<string>, attributes: map<string, string>, env: Env): Step {
    if "exec" !in classes then Step(text, false, false, Success([]))
    else if "interactive" in classes || StartsWith(text, ">>> ") then
      Step(Interactive.InteractiveSpec(env, text, true), false, false, Success([]))
    else
      match Executor.ExecuteCodeBlock(text, classes, attributes, env)
      case Failure(e) => Step(text, false, false, Failure(e))
      case Success(result) =>
        var text' := if "hideimports" in classes then Imports.RemoveImportsSpec(text) else text;
        var plot := Plot.PlotRequested(classes, attributes);
        var block := if plot then RawBlock(Plot.MaybeCenterPlot(result), "latex") else NewCodeBlock(result, ["changelog"]);
        Step(text', plot, false, Success([OutputPara(), block]))
  }

  /** The caption part of `action`: a `caption` attribute (converted to
      LaTeX, with the file name appended to the long caption only), or a
      `caption` class (the file name as caption, or none), wraps the blocks
      in a code listing; otherwise a `File:` paragraph goes first when a
      file was loaded. The first component says whether a caption was
      found. */
  function ListingStage(elems: seq<Node>, filename: string, labelName: string, classes: seq<string>, attributes: map<string, string>, env: Env): (bool, seq<Node>) {
    var above := "capbelow" !in classes;
    if "caption" in attributes then
      var cap := env.toLatex(attributes["caption"]);
      var shortcap := if "shortcaption" in attributes then env.toLatex(attributes["shortcaption"]) else cap;
      var cap' := if "file" in attributes then cap + env.toLatex("&nbsp;(`" + filename + "`)") else cap;
      (true, MakeCodelisting(elems, cap', labelName, shortcap, above))
    else if "caption" in classes then
      var cap := if "file" in attributes then env.toLatex("`" + filename + "`") else "";
      (true, MakeCodelisting(elems, cap, labelName, "", above))
    else if "file" in attributes then (false, [FilePara(filename)] + elems)
    else (false, elems)
  }

  /** The text once a `file` attribute has loaded it. */
  function LoadedText(text: string, attributes: map<string, string>, env: Env): string {
    if "file" in attributes then env.readFile(attributes["file"]) else text
  }

  /** The display name of a loaded file, "" when there is none. */
  function FileName(attributes: map<string, string>): Result<string, PyError>
    requires "file" in attributes ==> Paths.ValidRelPath(attributes["file"])
  {
    if "file" in attributes then Paths.TrimPathSpec(attributes) else Success("")
  }

  /** The text after the `lines` selection, if any. */
  function Filtered(text: string, attributes: map<string, string>): Result<string, PyError> {
    if "lines" in attributes then LineFilter.FilterLinesSpec(text, attributes["lines"]) else Success(text)
  }

  /** The code block itself, unless it is hidden. */
  function Base(cb: CodeBlock, classes: seq<string>): seq<Node> {
    if "hide" in classes then [] else [Block(cb)]
  }

  /** How the stages combine: the first raised exception ends the
      processing with the state reached by then. */
  function Assemble(cb: CodeBlock, classes: seq<string>, attributes: map<string, string>, counter: nat, env: Env,
                    loaded: string, filename: Result<string, PyError>, ex: Step, filtered: Result<string, PyError>): Step
  {
    if filename.Failure? then Step(loaded, false, false, Failure(filename.error))
    else if ex.result.Failure? then Step(ex.text, ex.plotSet, false, Failure(ex.result.error))
    else if filtered.Failure? then Step(ex.text, ex.plotSet, false, Failure(filtered.error))
    else
      var labelName := Get(attributes, "label", DefaultLabel(counter));
      var listing := ListingStage(Base(cb, classes) + ex.result.value, filename.value, labelName, classes, attributes, env);
      Step(filtered.value, ex.plotSet, listing.0, Success(listing.1))
  }

  /** `action` on the code block `cb` with text `text`, classes and
      attributes, once the counter has reached `counter`. */
  function Annotate(cb: CodeBlock, text: string, classes: seq<string>, attributes: map<string, string>, counter: nat, env: Env): Step
    requires "file" in attributes ==> Paths.ValidRelPath(attributes["file"])
  {
    var loaded := LoadedText(text, attributes, env);
    var ex := ExecStage(loaded, classes, attributes, env);
    Assemble(cb, classes, attributes, counter, env, loaded, FileName(attributes), ex, Filtered(ex.text, attributes))
  }

  // ---------------------------------------------------------------------
  // Properties of action

  /** Distinct counters give distinct default labels. */
  lemma DefaultLabelsDistinct(m: nat, n: nat)
    ensures DefaultLabel(m) == DefaultLabel(n) <==> m == n
  {
    if DefaultLabel(m) == DefaultLabel(n) {
      assert DefaultLabel(m)[3..] == NatToString(m);
      assert DefaultLabel(n)[3..] == NatToString(n);
      ParseNatToString(m);
      ParseNatToString(n);
    }
  }

  /** `exec` adds no node equal to the block itself. */
  lemma ExecStageNodes(text: string, classes: seq<string>, attributes: map<string, string>, env: Env, cb: CodeBlock)
    requires ExecStage(text, classes, attributes, env).result.Success?
    ensures Block(cb) !in ExecStage(text, classes, attributes, env).result.value
    ensures |ExecStage(text, classes, attributes, env).result.value| == if "exec" in classes && "interactive" !in classes && !StartsWith(text, ">>> ") then 2 else 0
  {
  }

  /** The caption and file blocks never equal the code block, so its count
      is unchanged by the listing stage. */
  lemma ListingKeepsBlock(elems: seq<Node>, filename: string, labelName: string, classes: seq<string>, attributes: map<string, string>, env: Env, cb: CodeBlock)
    ensures multiset(ListingStage(elems, filename, labelName, classes, attributes, env).1)[Block(cb)] == multiset(elems)[Block(cb)]
  {
    var above := "capbelow" !in classes;
    if "caption" in attributes {
      var cap := env.toLatex(attributes["caption"]);
      var shortcap := if "shortcaption" in attributes then env.toLatex(attributes["shortcaption"]) else cap;
      var cap' := if "file" in attributes then cap + env.toLatex("&nbsp;(`" + filename + "`)") else cap;
      CodelistingKeeps(elems, cap', labelName, shortcap, above, Block(cb));
    } else if "caption" in classes {
      var cap := if "file" in attributes then env.toLatex("`" + filename + "`") else "";
      CodelistingKeeps(elems, cap, labelName, "", above, Block(cb));
    } else if "file" in attributes {
      MultisetCons(FilePara(filename), elems);
    }
  }

  /** The listing environment adds only raw blocks. */
  lemma CodelistingKeeps(inner: seq<Node>, caption: string, labelName: string, shortcaption: string, above: bool, n: Node)
    requires !n.RawBlock?
    ensures multiset(MakeCodelisting(inner, caption, labelName, shortcaption, above))[n] == multiset(inner)[n]
  {
  }

  /** Every block handed to the listing stage is returned by it. */
  lemma ListingHolds(elems: seq<Node>, filename: string, labelName: string, classes: seq<string>, attributes: map<string, string>, env: Env, n: Node)
    requires n in elems
    ensures n in ListingStage(elems, filename, labelName, classes, attributes, env).1
  {
    MultisetCons(FilePara(filename), elems);
    assert multiset(ListingStage(elems, filename, labelName, classes, attributes, env).1)[n] >= multiset(elems)[n];
  }

  lemma AssembleHide(cb: CodeBlock, classes: seq<string>, attributes: map<string, string>, counter: nat, env: Env,
                     loaded: string, filename: Result<string, PyError>, ex: Step, filtered: Result<string, PyError>)
    requires Assemble(cb, classes, attributes, counter, env, loaded, filename, ex, filtered).result.Success?
    requires Block(cb) !in ex.result.value
    ensures multiset(Assemble(cb, classes, attributes, counter, env, loaded, filename, ex, filtered).result.value)[Block(cb)]
      == if "hide" in classes then 0 else 1
  {
    var labelName := Get(attributes, "label", DefaultLabel(counter));
    ListingKeepsBlock(Base(cb, classes) + ex.result.value, filename.value, labelName, classes, attributes, env, cb);
    MultisetAppend(Base(cb, classes), ex.result.value);
  }

  /** The code block is returned exactly once, or not at all when hidden. */
  lemma AnnotateHide(cb: CodeBlock, text: string, classes: seq<string>, attributes: map<string, string>, counter: nat, env: Env)
    requires "file" in attributes ==> Paths.ValidRelPath(attributes["file"])
    requires Annotate(cb, text, classes, attributes, counter, env).result.Success?
    ensures multiset(Annotate(cb, text, classes, attributes, counter, env).result.value)[Block(cb)] == if "hide" in classes then 0 else 1
  {
    var loaded := LoadedText(text, attributes, env);
    var ex := ExecStage(loaded, classes, attributes, env);
    ExecStageNodes(loaded, classes, attributes, env, cb);
    AssembleHide(cb, classes, attributes, counter, env, loaded, FileName(attributes), ex, Filtered(ex.text, attributes));
  }

  lemma AssembleCaption(cb: CodeBlock, classes: seq<string>, attributes: map<string, string>, counter: nat, env: Env,
                        loaded: string, filename: Result<string, PyError>, ex: Step, filtered: Result<string, PyError>)
    requires "caption" in attributes || "caption" in classes
    requires Assemble(cb, classes, attributes, counter, env, loaded, filename, ex, filtered).result.Success?
    ensures var s := Assemble(cb, classes, attributes, counter, env, loaded, filename, ex, filtered);
      var inner := Base(cb, classes) + ex.result.value;
      s.captionSet && |s.result.value| == |inner| + 3
      && s.result.value[0] == RawBlock(CodelistingBegin, "tex")
      && s.result.value[|s.result.value| - 1] == RawBlock(CodelistingEnd, "tex")
      && (if "capbelow" in classes then s.result.value[1..|s.result.value| - 2] == inner else s.result.value[2..|s.result.value| - 1] == inner)
  {
  }

  /** With a caption, the blocks are wrapped: three more than the code
      block and its output, which stay together in their order, and the
      caption flag is set. */
  lemma AnnotateCaption(cb: CodeBlock, text: string, classes: seq<string>, attributes: map<string, string>, counter: nat, env: Env)
    requires "file" in attributes ==> Paths.ValidRelPath(attributes["file"])
    requires "caption" in attributes || "caption" in classes
    requires Annotate(cb, text, classes, attributes, counter, env).result.Success?
    ensures var s := Annotate(cb, text, classes, attributes, counter, env);
      var inner := Base(cb, classes) + ExecStage(LoadedText(text, attributes, env), classes, attributes, env).result.value;
      s.captionSet && |s.result.value| == |inner| + 3
      && s.result.value[0] == RawBlock(CodelistingBegin, "tex")
      && s.result.value[|s.result.value| - 1] == RawBlock(CodelistingEnd, "tex")
      && (if "capbelow" in classes then s.result.value[1..|s.result.value| - 2] == inner else s.result.value[2..|s.result.value| - 1] == inner)
  {
    var loaded := LoadedText(text, attributes, env);
    var ex := ExecStage(loaded, classes, attributes, env);
    AssembleCaption(cb, classes, attributes, counter, env, loaded, FileName(attributes), ex, Filtered(ex.text, attributes));
  }

  /** A successful run hands the code block and its output, the file name
      and the label to the listing stage, and returns what it builds. */
  lemma AssembleListing(cb: CodeBlock, classes: seq<string>, attributes: map<string, string>, counter: nat, env: Env,
                        loaded: string, filename: Result<string, PyError>, ex: Step, filtered: Result<string, PyError>)
    requires Assemble(cb, classes, attributes, counter, env, loaded, filename, ex, filtered).result.Success?
    ensures filename.Success? && ex.result.Success?
    ensures var l := ListingStage(Base(cb, classes) + ex.result.value, filename.value, Get(attributes, "label", DefaultLabel(counter)), classes, attributes, env);
      var s := Assemble(cb, classes, attributes, counter, env, loaded, filename, ex, filtered);
      s.captionSet == l.0 && s.result.value == l.1
  {
  }

  /** With a `caption` attribute, the code block and its output are
      wrapped in a code listing: the caption is the attribute converted to
      LaTeX, with the file name appended when a file was loaded; the short
      caption is the `shortcaption` attribute converted, or else the
      caption; the label is the `label` attribute, or `cl:` and the
      counter; the caption goes above unless the class `capbelow` is set. */
  lemma AnnotateCaptionAttribute(cb: CodeBlock, text: string, classes: seq<string>, attributes: map<string, string>, counter: nat, env: Env)
    requires "file" in attributes ==> Paths.ValidRelPath(attributes["file"])
    requires "caption" in attributes
    requires Annotate(cb, text, classes, attributes, counter, env).result.Success?
    ensures FileName(attributes).Success?
    ensures var s := Annotate(cb, text, classes, attributes, counter, env);
      var inner := Base(cb, classes) + ExecStage(LoadedText(text, attributes, env), classes, attributes, env).result.value;
      var cap := env.toLatex(attributes["caption"]);
      var shortcap := if "shortcaption" in attributes then env.toLatex(attributes["shortcaption"]) else cap;
      var longcap := if "file" in attributes then cap + env.toLatex("&nbsp;(`" + FileName(attributes).value + "`)") else cap;
      s.captionSet && s.result.value == MakeCodelisting(inner, longcap, Get(attributes, "label", DefaultLabel(counter)), shortcap, "capbelow" !in classes)
  {
    var loaded := LoadedText(text, attributes, env);
    var ex := ExecStage(loaded, classes, attributes, env);
    assert Annotate(cb, text, classes, attributes, counter, env)
      == Assemble(cb, classes, attributes, counter, env, loaded, FileName(attributes), ex, Filtered(ex.text, attributes));
    AssembleListing(cb, classes, attributes, counter, env, loaded, FileName(attributes), ex, Filtered(ex.text, attributes));
  }

  /** With a `caption` class and no `caption` attribute, the code block and
      its output are wrapped in a code listing whose caption is the file
      name converted to LaTeX, or empty without a file, with no short
      caption and the same label and placement as above. */
  lemma AnnotateCaptionClass(cb: CodeBlock, text: string, classes: seq<string>, attributes: map<string, string>, counter: nat, env: Env)
    requires "file" in attributes ==> Paths.ValidRelPath(attributes["file"])
    requires "caption" !in attributes && "caption" in classes
    requires Annotate(cb, text, classes, attributes, counter, env).result.Success?
    ensures FileName(attributes).Success?
    ensures var s := Annotate(cb, text, classes, attributes, counter, env);
      var inner := Base(cb, classes) + ExecStage(LoadedText(text, attributes, env), classes, attributes, env).result.value;
      var cap := if "file" in attributes then env.toLatex("`" + FileName(attributes).value + "`") else "";
      s.captionSet && s.result.value == MakeCodelisting(inner, cap, Get(attributes, "label", DefaultLabel(counter)), "", "capbelow" !in classes)
  {
    var loaded := LoadedText(text, attributes, env);
    var ex := ExecStage(loaded, classes, attributes, env);
    assert Annotate(cb, text, classes, attributes, counter, env)
      == Assemble(cb, classes, attributes, counter, env, loaded, FileName(attributes), ex, Filtered(ex.text, attributes));
    AssembleListing(cb, classes, attributes, counter, env, loaded, FileName(attributes), ex, Filtered(ex.text, attributes));
  }

  /** A `caption` class without a file gives an empty caption that carries
      the label: the `label` attribute, or `cl:` and the counter. It is the
      second block, or the second to last with `capbelow`. */
  lemma AnnotateLabel(cb: CodeBlock, text: string, classes: seq<string>, attributes: map<string, string>, counter: nat, env: Env)
    requires "caption" !in attributes && "caption" in classes && "file" !in attributes
    requires Annotate(cb, text, classes, attributes, counter, env).result.Success?
    ensures var r := Annotate(cb, text, classes, attributes, counter, env).result.value;
      |r| >= 3
      && (if "capbelow" in classes then r[|r| - 2] else r[1])
           == RawBlock(CaptionText("", Get(attributes, "label", DefaultLabel(counter)), ""), "tex")
  {
    var loaded := LoadedText(text, attributes, env);
    var ex := ExecStage(loaded, classes, attributes, env);
    assert Annotate(cb, text, classes, attributes, counter, env)
      == Assemble(cb, classes, attributes, counter, env, loaded, Success(""), ex, Filtered(ex.text, attributes));
    AssembleListing(cb, classes, attributes, counter, env, loaded, Success(""), ex, Filtered(ex.text, attributes));
  }

  /** Without a caption, a loaded file is announced first, and the text the
      block ends with is the loaded file after execution and selection. */
  lemma AnnotateFileFirst(cb: CodeBlock, text: string, classes: seq<string>, attributes: map<string, string>, counter: nat, env: Env)
    requires "file" in attributes && Paths.ValidRelPath(attributes["file"])
    requires "caption" !in attributes && "caption" !in classes
    requires Annotate(cb, text, classes, attributes, counter, env).result.Success?
    ensures Annotate(cb, text, classes, attributes, counter, env).result.value[0] == FilePara(Paths.TrimPathSpec(attributes).value)
    ensures Annotate(cb, text, classes, attributes, counter, env).text ==
      Filtered(ExecStage(env.readFile(attributes["file"]), classes, attributes, env).text, attributes).value
  {
    var loaded := LoadedText(text, attributes, env);
    var ex := ExecStage(loaded, classes, attributes, env);
    assert Annotate(cb, text, classes, attributes, counter, env)
      == Assemble(cb, classes, attributes, counter, env, loaded, Paths.TrimPathSpec(attributes), ex, Filtered(ex.text, attributes));
  }

  /** A batch run executes the text as loaded and shows its output, while
      the block ends up with the text after import removal and line
      selection. */
  lemma AnnotateBatchOrder(cb: CodeBlock, text: string, classes: seq<string>, attributes: map<string, string>, counter: nat, env: Env)
    requires "file" in attributes ==> Paths.ValidRelPath(attributes["file"])
    requires "exec" in classes && "interactive" !in classes
    requires !StartsWith(LoadedText(text, attributes, env), ">>> ")
    requires Annotate(cb, text, classes, attributes, counter, env).result.Success?
    ensures var loaded := LoadedText(text, attributes, env);
      var s := Annotate(cb, text, classes, attributes, counter, env);
      var command := Executor.BuildCommand(loaded, classes, attributes);
      var output := env.run(command.value.argv, command.value.cwd);
      var kept := if "hideimports" in classes then Imports.RemoveImportsSpec(loaded) else loaded;
      var block := if s.plotSet then RawBlock(Plot.MaybeCenterPlot(output), "latex") else NewCodeBlock(output, ["changelog"]);
      && command.Success?
      && s.plotSet == Plot.PlotRequested(classes, attributes)
      && ExecStage(loaded, classes, attributes, env).result.value == [OutputPara(), block]
      && block in s.result.value
      && s.text == Filtered(kept, attributes).value
      && ("caption" !in attributes && "caption" !in classes ==>
            s.result.value == FileHead(attributes, FileName(attributes).value) + Base(cb, classes) + [OutputPara(), block])
  {
    var loaded := LoadedText(text, attributes, env);
    var ex := ExecStage(loaded, classes, attributes, env);
    var filename := FileName(attributes);
    var labelName := Get(attributes, "label", DefaultLabel(counter));
    assert Annotate(cb, text, classes, attributes, counter, env)
      == Assemble(cb, classes, attributes, counter, env, loaded, filename, ex, Filtered(ex.text, attributes));
    var block := ex.result.value[1];
    assert block in Base(cb, classes) + ex.result.value;
    ListingHolds(Base(cb, classes) + ex.result.value, filename.value, labelName, classes, attributes, env, block);
    Assoc(FileHead(attributes, filename.value), Base(cb, classes), ex.result.value);
  }

  /** A block that neither loads a file, runs, selects lines nor has a
      caption keeps its text and is returned as it is (or not, if hidden). */
  lemma AnnotatePlain(cb: CodeBlock, text: string, classes: seq<string>, attributes: map<string, string>, counter: nat, env: Env)
    requires "file" !in attributes && "exec" !in classes && "lines" !in attributes
    requires "caption" !in attributes && "caption" !in classes
    ensures Annotate(cb, text, classes, attributes, counter, env) == Step(text, false, false, Success(Base(cb, classes)))
  {
    assert Base(cb, classes) + [] == Base(cb, classes);
  }

  /** `action` raises exactly when `trimpath`, the executor lookup or
      plot size, or the `lines` selection does; the batch stage raises
      exactly when the command cannot be built. */
  lemma AnnotateFailure(cb: CodeBlock, text: string, classes: seq<string>, attributes: map<string, string>, counter: nat, env: Env)
    requires "file" in attributes ==> Paths.ValidRelPath(attributes["file"])
    ensures var loaded := LoadedText(text, attributes, env);
      var ex := ExecStage(loaded, classes, attributes, env);
      Annotate(cb, text, classes, attributes, counter, env).result.Failure? <==>
        FileName(attributes).Failure? || ex.result.Failure? || Filtered(ex.text, attributes).Failure?
    ensures var loaded := LoadedText(text, attributes, env);
      ExecStage(loaded, classes, attributes, env).result.Failure? <==>
        ("exec" in classes && "interactive" !in classes && !StartsWith(loaded, ">>> ")
         && Executor.BuildCommand(loaded, classes, attributes).Failure?)
  {
  }

  // ---------------------------------------------------------------------
  // prepare, action and finalize on the document

  /** `prepare`: no caption or plot seen yet, and the counter at zero. */
  method Prepare(doc: Doc)
    modifies doc
    ensures !doc.captionFound && !doc.plotFound && doc.listingsCounter == 0
    ensures doc.headerIncludes == old(doc.headerIncludes)
  {
    doc.captionFound := false;
    doc.plotFound := false;
    doc.listingsCounter := 0;
  }

  /** Loading the `file` attribute, if any, into the block, and its display
      name. */
  method LoadFile(cb: CodeBlock, env: Env) returns (filename: Result<string, PyError>)
    requires "file" in cb.attributes ==> Paths.ValidRelPath(cb.attributes["file"])
    modifies cb
    ensures cb.text == LoadedText(old(cb.text), cb.attributes, env)
    ensures filename == FileName(cb.attributes)
  {
    filename := Success("");
    if "file" in cb.attributes {
      cb.text := env.readFile(cb.attributes["file"]);
      filename := Paths.TrimPath(cb.attributes);
    }
  }

  /** The `exec` part of `action` on the block and the document. */
  method RunBlock(cb: CodeBlock, doc: Doc, env: Env) returns (outputs: Result<seq<Node>, PyError>)
    modifies cb, doc
    ensures var ex := ExecStage(old(cb.text), cb.classes, cb.attributes, env);
      && cb.text == ex.text && outputs == ex.result
      && doc.plotFound == (old(doc.plotFound) || ex.plotSet)
    ensures doc.listingsCounter == old(doc.listingsCounter) && doc.captionFound == old(doc.captionFound)
    ensures doc.headerIncludes == old(doc.headerIncludes)
  {
    outputs := Success([]);
    if "exec" in cb.classes {
      if "interactive" in cb.classes || StartsWith(cb.text, ">>> ") {
        cb.text := Interactive.ExecuteInteractiveCode(env, cb.text, true);
      } else {
        var result := Executor.ExecuteCodeBlock(cb.text, cb.classes, cb.attributes, env);
        if result.Failure? {
          return Failure(result.error);
        }
        if "hideimports" in cb.classes {
          cb.text := Imports.RemoveImportStatements(cb.text);
        }
        var block;
        if Plot.PlotRequested(cb.classes, cb.attributes) {
          doc.plotFound := true;
          block := RawBlock(Plot.MaybeCenterPlot(result.value), "latex");
        } else {
          block := NewCodeBlock(result.value, ["changelog"]);
        }
        outputs := Success([OutputPara(), block]);
      }
    }
  }

  /** The `lines` selection on the block's text, if asked for. */
  method SelectLines(cb: CodeBlock) returns (filtered: Result<string, PyError>)
    modifies cb
    ensures filtered == Filtered(old(cb.text), cb.attributes)
    ensures cb.text == if filtered.Success? then filtered.value else old(cb.text)
  {
    filtered := Success(cb.text);
    if "lines" in cb.attributes {
      filtered := LineFilter.FilterLines(cb.text, cb.attributes["lines"]);
      if filtered.Success? {
        cb.text := filtered.value;
      }
    }
  }

  /** `action`: other elements are left alone (`None`); a code block
      advances the counter by one, gets its final text, may set the flags,
      and is replaced by the returned blocks or raises. The returned list
      holds the block object itself, so it shows the block's final text. */
  method Action(elem: Element, doc: Doc, env: Env) returns (r: Result<Option<seq<Node>>, PyError>)
    requires elem.CodeBlockElement? && "file" in elem.block.attributes ==> Paths.ValidRelPath(elem.block.attributes["file"])
    modifies doc, if elem.CodeBlockElement? then {elem.block} else {}
    ensures elem.OtherElement? ==> r == Success(None) && unchanged(doc)
    ensures elem.CodeBlockElement? ==>
      var cb := elem.block;
      var s := Annotate(cb, old(cb.text), cb.classes, cb.attributes, old(doc.listingsCounter) + 1, env);
      && doc.listingsCounter == old(doc.listingsCounter) + 1
      && cb.text == s.text
      && doc.plotFound == (old(doc.plotFound) || s.plotSet)
      && doc.captionFound == (old(doc.captionFound) || s.captionSet)
      && doc.headerIncludes == old(doc.headerIncludes)
      && r == if s.result.Success? then Success(Some(s.result.value)) else Failure(s.result.error)
  {
    if elem.OtherElement? {
      return Success(None);
    }
    var cb := elem.block;
    ghost var text := cb.text;
    doc.listingsCounter := doc.listingsCounter + 1;
    ghost var counter := doc.listingsCounter;
    var elems: seq<Node> := Base(cb, cb.classes);

    var filename := LoadFile(cb, env);
    ghost var loaded := cb.text;
    if filename.Failure? {
      return Failure(filename.error);
    }
    var outputs := RunBlock(cb, doc, env);
    ghost var ex := ExecStage(loaded, cb.classes, cb.attributes, env);
    if outputs.Failure? {
      return Failure(outputs.error);
    }
    elems := elems + outputs.value;

    var filtered := SelectLines(cb);
    if filtered.Failure? {
      return Failure(filtered.error);
    }

    var labelName := Get(cb.attributes, "label", DefaultLabel(doc.listingsCounter));
    var listing := ListingStage(elems, filename.value, labelName, cb.classes, cb.attributes, env);
    if listing.0 {
      doc.captionFound := true;
    }
    assert Annotate(cb, text, cb.classes, cb.attributes, counter, env)
      == Step(cb.text, ex.plotSet, listing.0, Success(listing.1));
    return Success(Some(listing.1));
  }

  const PgfplotsHeader :=
    "%\n\\makeatletter\n\\@ifpackageloaded{pgfplots}{}{\\usepackage{pgfplots}}\n\\makeatother\n"
    + "\\usepgfplotslibrary{groupplots}\n"

  const CaptionHeader :=
    "%\n\\makeatletter\n\\@ifpackageloaded{caption}{}{\\usepackage{caption}}\n"
    + "\\@ifpackageloaded{cleveref}{}{\\usepackage{cleveref}}\n"
    + "\\@ifundefined{codelisting}{%\n"
    + "    \\DeclareCaptionType{codelisting}[Code Listing][List of Code Listings]\n"
    + "    \\crefname{codelisting}{code listing}{code listings}\n"
    + "    \\Crefname{codelisting}{Code Listing}{Code Listings}\n"
    + "    \\captionsetup[codelisting]{position=bottom}\n"
    + "}{}\n\\makeatother\n"

  function PgfplotsItem(): MetaItem {
    MetaInlines([RawInline(PgfplotsHeader, "tex")])
  }

  function CaptionItem(): MetaItem {
    MetaInlines([RawInline(CaptionHeader, "tex")])
  }

  /** The entries of `header-includes`, none when it is missing. */
  function Entries(h: Option<seq<MetaItem>>): seq<MetaItem> {
    if h.Some? then h.value else []
  }

  /** Appending to `header-includes`, or creating it with one entry. */
  function Appended(h: Option<seq<MetaItem>>, item: MetaItem): Option<seq<MetaItem>> {
    Some(Entries(h) + [item])
  }

  /** `header-includes` after `finalize`. */
  function Finalized(h: Option<seq<MetaItem>>, plotFound: bool, captionFound: bool): Option<seq<MetaItem>> {
    var h1 := if plotFound then Appended(h, PgfplotsItem()) else h;
    if captionFound then Appended(h1, CaptionItem()) else h1
  }

  /** `finalize` keeps the existing entries first and adds the pgfplots
      entry if a plot was found, then the caption entry if a caption was
      found; with neither it changes nothing. */
  lemma FinalizedEntries(h: Option<seq<MetaItem>>, plotFound: bool, captionFound: bool)
    ensures Entries(Finalized(h, plotFound, captionFound))
      == Entries(h) + (if plotFound then [PgfplotsItem()] else []) + (if captionFound then [CaptionItem()] else [])
    ensures !plotFound && !captionFound ==> Finalized(h, plotFound, captionFound) == h
    ensures plotFound || captionFound ==> Finalized(h, plotFound, captionFound).Some?
  {
    var h1 := if plotFound then Appended(h, PgfplotsItem()) else h;
    assert Entries(h1) == Entries(h) + (if plotFound then [PgfplotsItem()] else []);
  }

  method Finalize(doc: Doc)
    modifies doc
    ensures doc.headerIncludes == Finalized(old(doc.headerIncludes), old(doc.plotFound), old(doc.captionFound))
    ensures doc.listingsCounter == old(doc.listingsCounter)
    ensures doc.plotFound == old(doc.plotFound) && doc.captionFound == old(doc.captionFound)
  {
    if doc.plotFound {
      match doc.headerIncludes
      case Some(items) => doc.headerIncludes := Some(items + [PgfplotsItem()]);
      case None => assert [] + [PgfplotsItem()] == [PgfplotsItem()];
        doc.headerIncludes := Some([PgfplotsItem()]);
    }
    if doc.captionFound {
      match doc.headerIncludes
      case Some(items) => doc.headerIncludes := Some(items + [CaptionItem()]);
      case None => assert [] + [CaptionItem()] == [CaptionItem()];
        doc.headerIncludes := Some([CaptionItem()]);
    }
  }
}
