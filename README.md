# pandoc-source-exec, modelled in Dafny

pandoc-source-exec is a pandoc filter. It walks over the code blocks of a
document. A block with the `exec` class is run, either in batch mode through
an interpreter chosen from its classes and attributes, or as an interactive
Python session. The output is added after the block.

Other attributes change the block itself:
- `file` replaces its text with a file's contents;
- `hideimports` strips import statements;
- `lines` keeps only some lines;
- `hide` leaves the block out;
- `caption` (attribute or class) wraps everything in a LaTeX `codelisting`
  environment with a caption and a label.

A listing counter supplies default labels. Two flags record whether a plot or
a caption was produced; at the end, `finalize` adds the matching LaTeX
packages to the document's `header-includes`.

The model covers both copies of the filter:
- `pandoc_source_exec.py`, version 0.2.2: modules `Executor`, `LineFilter`,
  `Imports`, `Plot`, `Paths`, `Interactive` and `Filter`;
- `pandoc_source_exec/pandoc_source_exec.py`, the earlier variant: module
  `EarlyFilter`. It reuses the shared pieces, which are the executor table,
  `select_executor`, `trimpath`, `remove_import_statements` and the grouping
  logic of `execute_interactive_code`.

Supporting modules:
- `Wrappers` holds `Option`, `Result` and the Python exceptions the code can
  raise (`KeyError`, `IndexError`, `ValueError`, `TypeError`).
- `Text` states the Python string operations the filter uses over
  `seq<char>`: `split(sep)`, `split()`, `splitlines()`, `join`, the `strip`
  family, `startswith`, `in`, slicing and `int()`.
- `Ast` holds the document model:
  - a `CodeBlock` class whose `text` the filter rewrites in place;
  - a `Node` datatype for returned blocks, where `Block(cb)` holds the code
    block by reference, so a returned list shows the block's final text;
  - a `Doc` class with `header-includes` and the three bookkeeping fields;
  - an `Env` value with the outside capabilities as functions: reading a
    file, running a process, the Python REPL (and whether it is
    available), and pandoc's Markdown-to-LaTeX conversion.

Operations the source performs with loops or in-place updates are methods,
each proved equal to a specification function: `filter_lines`,
`remove_import_statements`, `trimpath`, `execute_interactive_code`, `action`,
`prepare` and `finalize`. The listed properties are proved about those
functions. A raised exception is a `Failure`. For `action`, the model also
states how far the block and the document were changed when it raised.

How the two variants treat `header-includes`:
- `finalize` in version 0.2.2 appends the pgfplots and caption entries every
  time its flag is set, without checking whether they are already present
  (the TeX in those entries guards itself with `\@ifpackageloaded`).
- The earlier variant's `prepare` checks `str(header-includes)` first and
  inserts the pgfplots include only when it is not mentioned yet.

## Model

| member | source | states |
|---|---|---|
| Executor.Lookup | pandoc_source_exec.py:21-29 | a table lookup succeeds exactly for the seven keys of `EXECUTORS` and otherwise raises `KeyError` for that key |
| Executor.SelectExecutor | pandoc_source_exec.py:48-57 | `cmd` is returned when present; else the table entry for `runas`; else the entry for the first class, except that `exec` gives `echo`; an empty class list without `cmd`/`runas` raises `IndexError`, an unknown `runas` or first class raises `KeyError` naming it |
| Executor.ExecutorPrecedence | pandoc_source_exec/pandoc_source_exec.py:42-51 | the choice depends on `cmd` alone when present, else on `runas` alone, else on the first class alone, and a first class `exec` gives `echo` (same rule in both variants) |
| Executor.ExecuteCodeBlock | pandoc_source_exec.py:60-85 | fails exactly when the command cannot be built, with that error; otherwise the result is what running that command's argument vector in its working directory prints |
| Executor.BuildCommand | pandoc_source_exec.py:70-79 | the argument vector is the executor split at spaces, then the code (wrapped by `save_plot` exactly when plotting), then the `args` tokens; cwd is `wd` or none; it fails exactly when the executor or the plot size fails, with that error |
| Plot.PlotSize | pandoc_source_exec.py:227-238 | `plt=W,H` gives W and H and raises `ValueError` unless it has exactly one comma; otherwise `width`/`height` with defaults 6cm and 4cm |
| Plot.SavePlot | pandoc_source_exec.py:227-245 | fails exactly when the plot size fails, with its error; otherwise the program is the two prelude lines, then the user's code unchanged, then a newline and the TikZ postlude carrying the size |
| Plot.SavePlotLines | pandoc_source_exec.py:240-245 | line by line the wrapped program is the two-line backend prelude, the user's lines unchanged, and the three-line TikZ postlude carrying the chosen size |
| Plot.SavePlotInjective | pandoc_source_exec.py:240-245 | different user code gives different wrapped programs |
| Plot.FirstHeaderLine | pandoc_source_exec.py:330 | the index found holds the `% … matplotlib2tikz v` header, or is the line count |
| Plot.FirstHeaderLineFirst | pandoc_source_exec.py:330 | no earlier line holds the header, so the search finds the first match |
| Plot.MaybeCenterPlot | pandoc_source_exec.py:318-334 | without a header match the output comes back unchanged; with one the result is `\begin{center}` and a newline, exactly the text after the match, and a newline and `\end{center}` |
| Plot.HeaderEndSplit | pandoc_source_exec.py:330-332 | the match ends at the end of the first header line: what follows it is a newline and the remaining lines, or nothing when the header line is last |
| Plot.CenterPlotLines | pandoc_source_exec.py:330-334 | with a header, the result's lines are `\begin{center}`, the empty rest of the header line, every line after the header, and `\end{center}` |
| Plot.CenterWithoutHeader | pandoc_source_exec.py:331-334 | output without a header line is returned unchanged |
| Plot.FirstHeaderLineOf | pandoc_source_exec.py:330 | in output built from header-free lines, a header line and more lines, the header found is that line |
| Paths.TrimPath | pandoc_source_exec.py:261-271 | the peeling loop returns what `TrimPathSpec` specifies: the basename without `pathdepth`, the whole path for `full`, the last N segments for N, `ValueError` for a non-number and `TypeError` for N below 1 |
| Paths.BasenameIsLastSegment | pandoc_source_exec.py:271 | the basename is the path's last segment |
| Paths.DeepEnoughIsFull | pandoc_source_exec.py:263-269 | a depth of at least the number of segments returns the whole path |
| Paths.TrimPathSpecDepth | pandoc_source_exec.py:263-269 | a numeric depth N gives the join of the last N segments, or `TypeError` when N is below 1 |
| Paths.TrimPathIsSuffix | pandoc_source_exec/pandoc_source_exec.py:196-208 | whatever is displayed is a tail of the `file` path (same function in both variants) |
| LineFilter.FilterLines | pandoc_source_exec.py:164-184 | the method with its loops returns `FilterLinesSpec`: the kept lines joined by newlines, or the conversion error |
| LineFilter.LineSet | pandoc_source_exec.py:168-177 | the loop over the items of one kind gives the union of their line sets, or the first failure |
| LineFilter.KeepLines | pandoc_source_exec.py:179-182 | the loop keeps exactly the lines whose 1-based number is selected |
| LineFilter.LineSpecs | pandoc_source_exec.py:166 | the items are the comma-separated pieces, each stripped |
| LineFilter.SingleLine | pandoc_source_exec.py:168 | an item without `-` names exactly the line `int(item)` and raises `ValueError` when `int` does |
| LineFilter.RangeMembers | pandoc_source_exec.py:177 | `range(begin, end + 1)` holds exactly the numbers from begin to end |
| LineFilter.RangeShapes | pandoc_source_exec.py:172-177 | `-` is every line, `-B` starts at line 1, `A-` ends at the last line, `A-B` is inclusive |
| LineFilter.SelectionFailure | pandoc_source_exec.py:166-177 | the selection raises exactly when some item is malformed, and the error is `ValueError` |
| LineFilter.SelectionMembers | pandoc_source_exec.py:166-177 | a line number is selected exactly when some item names it |
| LineFilter.MalformedItem | pandoc_source_exec.py:168-177 | one malformed item anywhere makes `filter_lines` raise `ValueError` |
| LineFilter.KeptAtPositions | pandoc_source_exec.py:179-184 | the kept lines are the lines at the kept positions, in order |
| LineFilter.KeptPositionsExact | pandoc_source_exec.py:179-184 | positions strictly increase (each line at most once, original order) and a position is kept exactly when its number is selected, so numbers past the end are ignored |
| LineFilter.KeptAll | pandoc_source_exec.py:179-184 | selecting every line keeps all lines |
| LineFilter.KeptNone | pandoc_source_exec.py:179-184 | selecting no line number of the code keeps nothing |
| LineFilter.FullRangeKeepsAll | pandoc_source_exec.py:164-184 | `lines=-` returns the code's lines unchanged |
| LineFilter.CollectFailure | pandoc_source_exec.py:168-177 | the union fails exactly when an item fails, with that item's error |
| LineFilter.CollectMembers | pandoc_source_exec.py:168-177 | a successful union holds exactly the lines of its items |
| Imports.RemoveImportStatements | pandoc_source_exec.py:198-209 | the append loop and the two pop loops return `RemoveImportsSpec`: the non-import lines with leading and trailing empty lines trimmed, joined by newlines |
| Imports.NonImportsMembers | pandoc_source_exec.py:199-202 | a line is kept exactly when it is in the code and is not an import |
| Imports.NonImportsConcat | pandoc_source_exec.py:199-202 | the filter works line by line and keeps the lines' order |
| Imports.TrimBlankShape | pandoc_source_exec.py:204-207 | the trimmed lines are a contiguous slice with only empty lines outside it (inner blank lines survive) and do not start or end with an empty line |
| Imports.NoImportsRemain | pandoc_source_exec/pandoc_source_exec.py:148-159 | no line of the result is an import statement (same function in both variants) |
| Imports.RemoveImportsIdempotent | pandoc_source_exec.py:198-209 | removing imports twice gives the same as once |
| Interactive.CodeLines | pandoc_source_exec.py:101 | every line of the text loses its first four characters |
| Interactive.GroupStatements | pandoc_source_exec.py:103-108 | the grouping loop computes `Group` |
| Interactive.GroupConcat | pandoc_source_exec.py:103-108 | the statements concatenate back to the lines |
| Interactive.GroupShape | pandoc_source_exec.py:103-108 | statements are non-empty, lines after a statement's first are empty or indented, later statements start with a non-empty unindented line, and the first line opens the first statement |
| Interactive.EchoRecovers | pandoc_source_exec.py:121-122 | removing the four-character prompts from a statement's echo gives the statement back |
| Interactive.EchoPrompts | pandoc_source_exec.py:121-122 | the first line of a statement gets `>>> `, the others `... ` |
| Interactive.NotEchoedMembers | pandoc_source_exec.py:124-125 | an answer line is kept exactly when, stripped, it is not a line of the statement |
| Interactive.OutputLines | pandoc_source_exec/pandoc_source_exec.py:114-115 | without the echo filter (earlier variant) every answer line is appended; with it (version 0.2.2) exactly the non-echo lines appear |
| Interactive.SilentSession | pandoc_source_exec.py:101-126 | with a REPL that answers nothing, the transcript without prompts is the block's lines |
| Interactive.ExecuteInteractiveCode | pandoc_source_exec.py:110-126 | the method's loop produces `InteractiveSpec`: "" without the REPL library, otherwise each statement's echo followed by its answer lines, joined by newlines, with the REPL given the statement history |
| Filter.MakeCodelisting | pandoc_source_exec.py:299-308 | the result has three more nodes than the inner blocks, opens and closes the environment, holds the caption (short caption defaulting to the caption) directly after the opening or before the closing with the inner blocks between, and has no other nodes |
| Filter.DefaultLabelsDistinct | pandoc_source_exec.py:380 | distinct counters give distinct default `cl:` labels |
| Filter.AnnotateHide | pandoc_source_exec.py:352 | the returned list holds the code block once, or not at all with `hide` |
| Filter.AnnotateCaption | pandoc_source_exec.py:382-400 | with a caption attribute or class the caption flag is set and the code block and outputs sit, in order, between the codelisting opening as first node and its closing as last node, together with the caption node, above or below per `capbelow` |
| Filter.AnnotateCaptionAttribute | pandoc_source_exec.py:380-393 | with a `caption` attribute the result is the codelisting of the code block and its output, with the caption converted to LaTeX and the file name appended when a file was loaded, the short caption converted or defaulting to the caption, the `label` attribute or `cl:<counter>` as label, and the caption above unless `capbelow` |
| Filter.AnnotateCaptionClass | pandoc_source_exec.py:380-400 | with a `caption` class and no attribute the result is the codelisting of the code block and its output, with the converted file name or an empty caption, no short caption, the same label and placement |
| Filter.AnnotateLabel | pandoc_source_exec.py:380-400 | a `caption` class without a file gives an empty caption carrying the `label` attribute or `cl:<counter>`, as the second node, or the second to last with `capbelow` |
| Filter.AnnotateFileFirst | pandoc_source_exec.py:354-406 | without a caption a loaded file puts the `File:` paragraph first; the block's final text is the file after execution and line selection |
| Filter.AnnotateBatchOrder | pandoc_source_exec.py:359-406 | the command is built from the text as loaded; the run adds exactly the `Output:` paragraph and then the output block; without a caption the result is the `File:` paragraph when a file was loaded, the code block unless hidden, and those two; the plot flag follows `plt`; the block ends with the text after import removal and then line selection |
| Filter.AnnotatePlain | pandoc_source_exec.py:350-406 | a block without file, exec, lines or caption keeps its text and is returned as it is, or dropped with `hide` |
| Filter.AnnotateFailure | pandoc_source_exec.py:354-378 | `action` raises exactly when `trimpath`, the batch command or the line selection raises, and the batch run raises exactly when the command cannot be built |
| Filter.Prepare | pandoc_source_exec.py:313-315 | the flags are cleared, the counter is 0 and `header-includes` is unchanged |
| Filter.Action | pandoc_source_exec.py:350-406 | other elements change nothing; a code block advances the counter by exactly one, gets the final text, ORs the flags and returns (or raises) what `Annotate` specifies |
| Filter.LoadFile | pandoc_source_exec.py:354-356 | the block's text becomes the file, and the display name is `trimpath`'s |
| Filter.RunBlock | pandoc_source_exec.py:359-375 | the `exec` part sets the text, the outputs and the plot flag as `ExecStage` specifies and leaves the rest of the document alone |
| Filter.SelectLines | pandoc_source_exec.py:377-378 | the `lines` selection rewrites the text when it succeeds |
| Filter.FinalizedEntries | pandoc_source_exec.py:412-442 | the existing entries stay first, followed by the pgfplots entry if a plot was found and the caption entry if a caption was found; with neither nothing changes |
| Filter.Finalize | pandoc_source_exec.py:412-442 | `header-includes` becomes `Finalized` of the old value and flags, creating the list when missing, and the bookkeeping fields are unchanged |
| EarlyFilter.BuildCommand | pandoc_source_exec/pandoc_source_exec.py:64-70 | the argument vector is the executor split at spaces and then the code (the early `save_plot` wrapping when plotting) and nothing else; cwd is `wd` or none; errors as in the later variant |
| EarlyFilter.CommandsAgree | pandoc_source_exec/pandoc_source_exec.py:64-76 | without plot capture and `args` both variants build the same command |
| EarlyFilter.SavePlot | pandoc_source_exec/pandoc_source_exec.py:177-193 | fails exactly when the plot size fails, with its error; otherwise the program is the user's code unchanged, then a newline and the TikZ postlude carrying the size |
| EarlyFilter.SavePlotLines | pandoc_source_exec/pandoc_source_exec.py:177-193 | line by line the wrapped program is the user's lines followed by the three-line TikZ postlude with the chosen size |
| EarlyFilter.SavePlotInjective | pandoc_source_exec/pandoc_source_exec.py:190-193 | different user code gives different wrapped programs |
| EarlyFilter.CenterPlot | pandoc_source_exec/pandoc_source_exec.py:242-246 | the result opens with `\begin{center}` and a newline and closes with a newline and `\end{center}`; an output of at most ten lines gives just those two lines |
| EarlyFilter.CenterPlotLines | pandoc_source_exec/pandoc_source_exec.py:242-246 | the centred plot's lines are `\begin{center}`, the output lines from index 10 on, and `\end{center}` |
| EarlyFilter.AnnotateHide | pandoc_source_exec/pandoc_source_exec.py:225 | the returned list holds the code block once, or not at all with `hide` |
| EarlyFilter.AnnotateFileFirst | pandoc_source_exec/pandoc_source_exec.py:227-231 | a loaded file always puts the `File:` paragraph first, and the block's final text is the file after execution |
| EarlyFilter.AnnotateBatch | pandoc_source_exec/pandoc_source_exec.py:236-250 | a batch run ends the list with the `Output:` paragraph and the centred raw LaTeX or the `changelog` block of the output of the command built from the loaded text; the text is then stripped of imports if asked |
| EarlyFilter.AnnotateFailure | pandoc_source_exec/pandoc_source_exec.py:227-237 | the early `action` raises exactly when `trimpath` raises or the batch command cannot be built |
| EarlyFilter.AgreesWithoutExec | pandoc_source_exec/pandoc_source_exec.py:223-252 | a block without exec, caption or lines gets the same text and blocks from both variants |
| EarlyFilter.AgreesOnBatch | pandoc_source_exec/pandoc_source_exec.py:233-250 | so does a batch block without plot capture, args, caption or lines |
| EarlyFilter.RunBlock | pandoc_source_exec/pandoc_source_exec.py:233-250 | the `exec` part sets the text and outputs as the early `ExecStage` specifies, with the transcript unfiltered |
| EarlyFilter.Action | pandoc_source_exec/pandoc_source_exec.py:222-252 | other elements give `None`; a code block gets the final text and returns, or raises, what the early `Annotate` specifies |
| EarlyFilter.PreparedEntries | pandoc_source_exec/pandoc_source_exec.py:211-219 | afterwards pgfplots is included, the previous entries follow unchanged, and entries that already include it are left alone |
| EarlyFilter.PreparedIdempotent | pandoc_source_exec/pandoc_source_exec.py:211-219 | running `prepare` twice gives the same as once |
| EarlyFilter.Prepare | pandoc_source_exec/pandoc_source_exec.py:211-219 | `header-includes` becomes `Prepared` of the old value, and the other fields are unchanged |

## Left out

- Running processes (`subprocess.run`), the pexpect REPL, finding and reading files (`glob`, `open`) and pandoc's `convert_text` are functions in `Env`. Exit status, encoding errors, timeouts and the launch failure (`subprocess.run` raising `FileNotFoundError` when the executable or the `wd` directory does not exist) are not modelled: `run` always returns an output.
- The REPL oracle sees the history of statements sent before. When the REPL library is missing, the result is "" in both variants; the debug messages are not modelled.
- `pf.debug` calls, `main`/`run_filter` (the document traversal) and the import fallbacks are not modelled. The traversal is represented by `Action` taking one element.
- `maybe_center_plot` uses a regular expression. It is modelled as finding the first line holding `% `, then later ` matplotlib2tikz v`, with the match running to the end of that line. General regex semantics are not modelled.
- Python's `int()` accepts digits after optional whitespace and sign. Underscores and non-ASCII digits are not accepted by the model.
- Paths.TrimPath: `file` must be a relative path with non-empty `/`-separated segments. Absolute paths, doubled slashes and trailing slashes, which exercise `os.path` edge cases, are excluded by that precondition.
- Filter.Action: a code block's `file` attribute must meet the same path precondition.
- EarlyFilter.Action: a code block's `file` attribute must meet the same path precondition.
- `filter_lines` iterates over a set. Every failure it can raise is `ValueError`, so the order in which ranges are visited does not matter, and the model takes them in list order.
- The `header-includes` metadata is modelled as a list of inline entries, or absent. A bare value that is not a list, on which `append` or `_content.list` would fail, is not modelled.
- The early `prepare` assigns a bare `RawInline` when the key is missing; the model holds it as a one-entry list.
- EarlyFilter.Mentions: the early test `usepackage not in str(header-includes)` is stated on the texts of the entries' inlines. An occurrence that only appears in the printed form across element boundaries is not modelled.
- The TeX macro blocks added by `finalize` are written out as constants. Their meaning to LaTeX is not modelled.
- `setup.py` is packaging metadata and is not part of this model.
