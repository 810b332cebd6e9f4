/** Plot capture: the wrapping of matplotlib code so that it prints TikZ
    code for its figure, and the centring of the TikZ code found in the
    output (pandoc_source_exec.py, `save_plot` and `maybe_center_plot`). */
module Plot {
  import opened Wrappers
  import opened Seqs
  import opened Text
  import opened Ast

  /** A block asks for plot capture by a `plt` attribute or a `plt` class. */
  predicate PlotRequested(classes: seq<string>, attributes: map<string, string>) {
    "plt" in attributes || "plt" in classes
  }

  /** The figure width and height: `plt=W,H` first, then the `width` and
      `height` attributes, then 6cm by 4cm. A `plt` value that does not split
      into exactly two parts at its commas raises `ValueError`. */
  function PlotSize(attributes: map<string, string>): (r: Result<(string, string), PyError>)
    ensures "plt" in attributes ==> (r.Success? <==> |SplitOn(attributes["plt"], ',')| == 2)
    ensures "plt" in attributes && r.Success? ==>
      r.value.0 + "," + r.value.1 == attributes["plt"] && ',' !in r.value.0 && ',' !in r.value.1
    ensures "plt" !in attributes ==>
      r == Success((Get(attributes, "width", "6cm"), Get(attributes, "height", "4cm")))
  {
    if "plt" in attributes then
      var parts := SplitOn(attributes["plt"], ',');
      if |parts| == 2 then
        JoinSplitOn(attributes["plt"], ',');
        SplitOnPieces(attributes["plt"], ',');
        Success((parts[0], parts[1]))
      else Failure(ValueError)
    else
      Success((Get(attributes, "width", "6cm"), Get(attributes, "height", "4cm")))
  }

  /** Text `first`, a newline, then `rest`. */
  function Line(first: string, rest: string): string {
    first + "\n" + rest
  }

  const Prelude1 := "import matplotlib"
  const Prelude2 := "matplotlib.use('TkAgg')"
  const Postlude1 := "from matplotlib2tikz import get_tikz_code"
  const Postlude3 := "print(tikz)"

  function Postlude2(width: string, height: string): string {
    "tikz = get_tikz_code(figureheight='" + height + "', figurewidth='" + width + "')  # noqa"
  }

  /** `save_plot`: the user code between a two-line prelude selecting a
      non-interactive backend and a three-line postlude printing the TikZ
      code of the current figure at the chosen size. */
  function SavePlot(code: string, attributes: map<string, string>): (r: Result<string, PyError>)
    ensures r.Success? <==> PlotSize(attributes).Success?
    ensures r.Failure? ==> r.error == PlotSize(attributes).error
    ensures r.Success? ==>
      var size := PlotSize(attributes).value;
      var pre := Prelude1 + "\n" + Prelude2 + "\n";
      && StartsWith(r.value, pre)
      && |r.value| >= |pre| + |code|
      && r.value[|pre|..|pre| + |code|] == code
      && r.value[|pre| + |code|..] == "\n" + Line(Postlude1, Line(Postlude2(size.0, size.1), Postlude3))
  {
    match PlotSize(attributes)
    case Failure(e) => Failure(e)
    case Success(size) =>
      var pre := Prelude1 + "\n" + Prelude2 + "\n";
      var post := "\n" + Line(Postlude1, Line(Postlude2(size.0, size.1), Postlude3));
      var program := Line(Prelude1, Line(Prelude2, Line(code, Line(Postlude1, Line(Postlude2(size.0, size.1), Postlude3)))));
      assert program == pre + code + post;
      assert (pre + code + post)[|pre|..|pre| + |code|] == code;
      assert (pre + code + post)[|pre| + |code|..] == post;
      Success(program)
  }

  lemma SplitOnSingle(s: string, c: char)
    requires c !in s
    ensures SplitOn(s, c) == [s]
  {
    IndexOfAbsent(s, c);
  }

  /** Splitting `Line(a, rest)` at newlines, when `a` holds none. */
  lemma SplitOnLead(a: string, rest: string)
    requires '\n' !in a
    ensures SplitOn(Line(a, rest), '\n') == [a] + SplitOn(rest, '\n')
  {
    SplitOnSingle(a, '\n');
    SplitOnConcat(a, rest, '\n');
  }

  lemma CancelAffixes(pre: string, a: string, b: string, post: string)
    requires pre + a + post == pre + b + post
    ensures a == b
  {
    var s := pre + a + post;
    assert a == s[|pre|..|s| - |post|];
    assert b == s[|pre|..|s| - |post|];
  }

  lemma PreludeOneLine()
    ensures '\n' !in Prelude1 && '\n' !in Prelude2
  {
  }

  lemma PostludeOneLine()
    ensures '\n' !in Postlude1 && '\n' !in Postlude3
  {
  }

  lemma Postlude2OneLine(width: string, height: string)
    requires '\n' !in width && '\n' !in height
    ensures '\n' !in Postlude2(width, height)
  {
    var l, m, r := "tikz = get_tikz_code(figureheight='", "', figurewidth='", "')  # noqa";
    assert '\n' !in l;
    assert '\n' !in m && '\n' !in r;
    assert Postlude2(width, height) == l + height + m + width + r;
  }

  lemma SplitLine(a: string, rest: string)
    ensures SplitOn(Line(a, rest), '\n') == SplitOn(a, '\n') + SplitOn(rest, '\n')
  {
    SplitOnConcat(a, rest, '\n');
  }

  /** The lines of three one-line texts joined by newlines. */
  lemma SplitThree(q1: string, q2: string, q3: string)
    requires '\n' !in q1 && '\n' !in q2 && '\n' !in q3
    ensures SplitOn(Line(q1, Line(q2, q3)), '\n') == [q1, q2, q3]
  {
    SplitOnSingle(q3, '\n');
    SplitOnLead(q2, q3);
    SplitOnLead(q1, Line(q2, q3));
  }

  /** The lines of a template of two fixed lines, user code and three fixed lines. */
  lemma {:induction false} SplitTemplate(p1: string, p2: string, code: string, q1: string, q2: string, q3: string)
    requires '\n' !in p1 && '\n' !in p2 && '\n' !in q1 && '\n' !in q2 && '\n' !in q3
    ensures SplitOn(Line(p1, Line(p2, Line(code, Line(q1, Line(q2, q3))))), '\n')
      == [p1, p2] + SplitOn(code, '\n') + [q1, q2, q3]
  {
    var tail := Line(q1, Line(q2, q3));
    var lines := SplitOn(code, '\n');
    var body := Line(code, tail);
    assert SplitOn(body, '\n') == lines + [q1, q2, q3] by {
      SplitThree(q1, q2, q3);
      SplitLine(code, tail);
    }
    assert SplitOn(Line(p2, body), '\n') == [p2] + (lines + [q1, q2, q3]) by {
      SplitOnLead(p2, body);
    }
    assert SplitOn(Line(p1, Line(p2, body)), '\n') == [p1] + ([p2] + (lines + [q1, q2, q3])) by {
      SplitOnLead(p1, Line(p2, body));
    }
    Regroup(p1, p2, lines, [q1, q2, q3]);
  }

  lemma TemplateLines(code: string, width: string, height: string)
    requires '\n' !in width && '\n' !in height
    ensures SplitOn(Line(Prelude1, Line(Prelude2, Line(code, Line(Postlude1, Line(Postlude2(width, height), Postlude3))))), '\n')
      == [Prelude1, Prelude2] + SplitOn(code, '\n') + [Postlude1, Postlude2(width, height), Postlude3]
  {
    PreludeOneLine();
    PostludeOneLine();
    Postlude2OneLine(width, height);
    SplitTemplate(Prelude1, Prelude2, code, Postlude1, Postlude2(width, height), Postlude3);
  }

  /** Line by line, the wrapped program is the prelude, the user's lines
      unchanged, and the postlude carrying the size from `PlotSize`. */
  lemma SavePlotLines(code: string, attributes: map<string, string>)
    requires PlotSize(attributes).Success?
    requires '\n' !in PlotSize(attributes).value.0 && '\n' !in PlotSize(attributes).value.1
    ensures var size := PlotSize(attributes).value;
      SavePlot(code, attributes).Success? &&
      SplitOn(SavePlot(code, attributes).value, '\n')
        == [Prelude1, Prelude2] + SplitOn(code, '\n') + [Postlude1, Postlude2(size.0, size.1), Postlude3]
  {
    var size := PlotSize(attributes).value;
    TemplateLines(code, size.0, size.1);
  }

  /** Different user code gives different wrapped programs: the wrapping
      loses nothing of the code. */
  lemma SavePlotInjective(code1: string, code2: string, attributes: map<string, string>)
    requires SavePlot(code1, attributes).Success?
    requires SavePlot(code1, attributes) == SavePlot(code2, attributes)
    ensures code1 == code2
  {
    var size := PlotSize(attributes).value;
    var pre := Prelude1 + "\n" + Prelude2 + "\n";
    var post := "\n" + Line(Postlude1, Line(Postlude2(size.0, size.1), Postlude3));
    assert SavePlot(code1, attributes).value == pre + code1 + post;
    assert SavePlot(code2, attributes).value == pre + code2 + post;
    CancelAffixes(pre, code1, code2, post);
  }

  // ---------------------------------------------------------------------
  // maybe_center_plot

  const TikzMarker := " matplotlib2tikz v"

  /** Whether the pattern `% .* matplotlib2tikz v` occurs in a line; `.`
      matches any character but a newline, so a match never leaves its line. */
  predicate HasTikzHeader(line: string)
    decreases |line|
  {
    (StartsWith(line, "% ") && Contains(line[2..], TikzMarker))
    || (line != [] && HasTikzHeader(line[1..]))
  }

  /** The index of the first line holding a header, or the number of lines. */
  function FirstHeaderLine(lines: seq<string>): (k: nat)
    ensures k <= |lines|
    ensures k < |lines| ==> HasTikzHeader(lines[k])
  {
    if lines == [] then 0
    else if HasTikzHeader(lines[0]) then 0
    else 1 + FirstHeaderLine(lines[1..])
  }

  /** No line before the first header line holds a header. */
  lemma {:induction false} FirstHeaderLineFirst(lines: seq<string>)
    ensures forall j :: 0 <= j < FirstHeaderLine(lines) ==> !HasTikzHeader(lines[j])
  {
    if lines != [] && !HasTikzHeader(lines[0]) {
      FirstHeaderLineFirst(lines[1..]);
      assert forall j :: 0 < j < |lines| ==> lines[j] == lines[1..][j - 1];
    }
  }

  /** Where the regular expression's match ends: the search finds the first
      line holding the pattern, and the trailing `.*` extends the match to
      the end of that line. */
  function HeaderEnd(s: string): (r: Option<nat>)
    ensures r.Some? ==> r.value <= |s|
  {
    var lines := SplitOn(s, '\n');
    var k := FirstHeaderLine(lines);
    if k == |lines| then None
    else
      JoinSplitOn(s, '\n');
      JoinPrefix(lines, k + 1);
      Some(|Join(lines[..k + 1], "\n")|)
  }

  const BeginCenter := "\\begin{center}"
  const EndCenter := "\\end{center}"

  /** `maybe_center_plot`: the output after the TikZ header line, inside a
      center environment, or the output unchanged when it has no header. */
  function MaybeCenterPlot(result: string): (r: string)
    ensures HeaderEnd(result).None? ==> r == result
    ensures HeaderEnd(result).Some? ==>
      var e := HeaderEnd(result).value;
      && StartsWith(r, BeginCenter + "\n")
      && |r| == |BeginCenter| + 1 + (|result| - e) + 1 + |EndCenter|
      && r[|BeginCenter| + 1..|r| - |EndCenter| - 1] == result[e..]
      && r[|r| - |EndCenter| - 1..] == "\n" + EndCenter
  {
    match HeaderEnd(result)
    case None => result
    case Some(e) => BeginCenter + "\n" + result[e..] + "\n" + EndCenter
  }

  /** The join of some lines is the join of a prefix of them, then a newline
      and the join of the others. */
  lemma JoinPrefix(lines: seq<string>, n: nat)
    requires 1 <= n <= |lines|
    ensures Join(lines, "\n")
      == Join(lines[..n], "\n") + if n == |lines| then "" else "\n" + Join(lines[n..], "\n")
  {
    if n < |lines| {
      Halves(lines, n);
      JoinAppend(lines[..n], lines[n..], "\n");
    } else {
      assert lines[..n] == lines;
    }
  }

  /** What follows the header line is a newline and the remaining lines. */
  lemma HeaderEndSplit(s: string)
    requires HeaderEnd(s).Some?
    ensures var lines := SplitOn(s, '\n');
      var k := FirstHeaderLine(lines);
      var e := HeaderEnd(s).value;
      e <= |s| &&
      s[e..] == if k + 1 == |lines| then "" else "\n" + Join(lines[k + 1..], "\n")
  {
    var lines := SplitOn(s, '\n');
    var k := FirstHeaderLine(lines);
    JoinSplitOn(s, '\n');
    JoinPrefix(lines, k + 1);
    DropConcat(Join(lines[..k + 1], "\n"), if k + 1 == |lines| then "" else "\n" + Join(lines[k + 1..], "\n"));
  }

  /** Output in which no line holds the header is passed through unchanged. */
  lemma CenterWithoutHeader(result: string)
    requires forall k :: 0 <= k < |SplitOn(result, '\n')| ==> !HasTikzHeader(SplitOn(result, '\n')[k])
    ensures MaybeCenterPlot(result) == result
  {
  }

  lemma CenterOneLine()
    ensures '\n' !in BeginCenter && '\n' !in EndCenter
  {
  }

  /** The lines of `open`, a newline, the newline-led remaining lines and
      `close`, joined by newlines. */
  lemma {:induction false} WrapLines(open: string, rest: seq<string>, close: string)
    requires '\n' !in open && '\n' !in close
    requires forall j :: 0 <= j < |rest| ==> '\n' !in rest[j]
    ensures var kept := if rest == [] then "" else "\n" + Join(rest, "\n");
      SplitOn(open + "\n" + kept + "\n" + close, '\n') == [open, ""] + rest + [close]
  {
    var kept := if rest == [] then "" else "\n" + Join(rest, "\n");
    SplitOnSingle(close, '\n');
    if rest == [] {
      assert open + "\n" + kept + "\n" + close == Line(open, Line("", close));
      SplitOnLead("", close);
      SplitOnLead(open, Line("", close));
    } else {
      var body := Line(Join(rest, "\n"), close);
      assert open + "\n" + kept + "\n" + close == Line(open, Line("", body));
      SplitOnJoin(rest, '\n');
      SplitLine(Join(rest, "\n"), close);
      SplitOnLead("", body);
      SplitOnLead(open, Line("", body));
      Regroup(open, "", rest, [close]);
    }
  }

  /** Line by line, a centred plot is the opening of the environment, the
      empty rest of the header line, every line after the first header line,
      and the closing of the environment. */
  lemma CenterPlotLines(result: string)
    requires HeaderEnd(result).Some?
    ensures var lines := SplitOn(result, '\n');
      SplitOn(MaybeCenterPlot(result), '\n')
        == [BeginCenter, ""] + lines[FirstHeaderLine(lines) + 1..] + [EndCenter]
  {
    var lines := SplitOn(result, '\n');
    var k := FirstHeaderLine(lines);
    var rest := lines[k + 1..];
    HeaderEndSplit(result);
    CenterOneLine();
    SplitOnPieces(result, '\n');
    assert forall j :: 0 <= j < |rest| ==> rest[j] == lines[k + 1 + j];
    assert k + 1 == |lines| <==> rest == [];
    WrapLines(BeginCenter, rest, EndCenter);
  }

  /** The first header line and the lines after it, for output built from
      header-free lines, one header line and further lines. */
  lemma {:induction false} FirstHeaderLineOf(before: seq<string>, header: string, after: seq<string>)
    requires forall j :: 0 <= j < |before| ==> !HasTikzHeader(before[j])
    requires HasTikzHeader(header)
    ensures FirstHeaderLine(before + [header] + after) == |before|
  {
    var lines := before + [header] + after;
    if before != [] {
      assert lines[0] == before[0];
      assert lines[1..] == before[1..] + [header] + after;
      FirstHeaderLineOf(before[1..], header, after);
    }
  }
}
