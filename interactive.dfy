/** Interactive code blocks (pandoc_source_exec.py, `execute_interactive_code`,
    and the same function in the earlier variant). The block holds a Python
    session transcript: every line loses its four prompt characters, the
    lines are grouped into statements, each statement is sent to the REPL,
    and the transcript is rebuilt with `>>> ` and `... ` prompts and the
    REPL's answers. The top-level version drops answer lines that echo a
    line of the statement (`filterEcho`); the earlier one keeps them all. */
module Interactive {
  import opened Seqs
  import opened Text
  import opened Ast

  /** Every line of the block's text with its first four characters removed. */
  function CodeLines(text: string): (r: seq<string>)
    ensures |r| == |SplitOn(text, '\n')| && |r| >= 1
    ensures forall i :: 0 <= i < |r| ==> r[i] == DropPrefix(SplitOn(text, '\n')[i], 4)
  {
    var ls := SplitOn(text, '\n');
    seq(|ls|, i requires 0 <= i < |ls| => DropPrefix(ls[i], 4))
  }

  /** A line that continues the current statement: indented or empty. */
  predicate Continues(line: string) {
    StartsWith(line, " ") || line == ""
  }

  /** The statements: the first line opens one, and so does every line that
      does not continue the one before it. */
  function Group(lines: seq<string>): (r: seq<seq<string>>)
    requires |lines| >= 1
    ensures |r| >= 1
    decreases |lines|
  {
    if |lines| == 1 then [[lines[0]]]
    else
      var g := Group(lines[..|lines| - 1]);
      var line := lines[|lines| - 1];
      if Continues(line) then g[..|g| - 1] + [g[|g| - 1] + [line]] else g + [[line]]
  }

  /** The lines of a sequence of statements, one after another. */
  function Concat(bs: seq<seq<string>>): seq<string> {
    if bs == [] then [] else bs[0] + Concat(bs[1..])
  }

  /** Every statement is non-empty, every line after a statement's first
      continues it, and every statement after the first starts with a line
      that does not continue. */
  predicate WellGrouped(bs: seq<seq<string>>) {
    (forall j :: 0 <= j < |bs| ==> |bs[j]| >= 1)
    && (forall j, m :: 0 <= j < |bs| && 1 <= m < |bs[j]| ==> Continues(bs[j][m]))
    && (forall j :: 1 <= j < |bs| && |bs[j]| >= 1 ==> !Continues(bs[j][0]))
  }

  /** The echo of a statement: `>>> ` before its first line, `... ` before
      the others. */
  function Echo(block: seq<string>): (r: seq<string>)
    ensures |r| == |block|
  {
    seq(|block|, i requires 0 <= i < |block| => (if i == 0 then ">>> " else "... ") + block[i])
  }

  /** The answer lines that do not, once stripped, equal a line of the
      statement. */
  function NotEchoed(rs: seq<string>, block: seq<string>): (r: seq<string>)
    ensures |r| <= |rs|
  {
    if rs == [] then []
    else
      var before := NotEchoed(rs[..|rs| - 1], block);
      var x := rs[|rs| - 1];
      if Strip(x) in block then before else before + [x]
  }

  /** The transcript lines for a REPL answer: none for an empty answer,
      otherwise its `\n`-separated lines, less the echoed ones when
      `filterEcho`. */
  function Output(result: string, block: seq<string>, filterEcho: bool): seq<string> {
    if result == "" then []
    else if filterEcho then NotEchoed(SplitOn(result, '\n'), block)
    else SplitOn(result, '\n')
  }

  /** What is sent to the REPL for a statement. */
  function Input(block: seq<string>): string {
    Join(block, "\n") + "\n"
  }

  /** The transcript of the statements `blocks`, after `sent` went to the
      same session before them. */
  function Transcript(repl: seq<string> -> string, blocks: seq<seq<string>>, sent: seq<string>, filterEcho: bool): seq<string>
    decreases |blocks|
  {
    if blocks == [] then []
    else
      var now := sent + [Input(blocks[0])];
      var result := RStripLineEnds(repl(now));
      Echo(blocks[0]) + Output(result, blocks[0], filterEcho) + Transcript(repl, blocks[1..], now, filterEcho)
  }

  /** What `execute_interactive_code` returns: the transcript joined by
      newlines, or "" when the REPL library is missing. */
  function InteractiveSpec(env: Env, text: string, filterEcho: bool): string {
    if !env.replAvailable then ""
    else Join(Transcript(env.repl, Group(CodeLines(text)), [], filterEcho), "\n")
  }

  // ---------------------------------------------------------------------
  // Properties of the grouping

  lemma {:induction false} ConcatSnoc(bs: seq<seq<string>>, b: seq<string>)
    ensures Concat(bs + [b]) == Concat(bs) + b
  {
    if bs != [] {
      assert (bs + [b])[1..] == bs[1..] + [b];
      ConcatSnoc(bs[1..], b);
    } else {
      assert [b][1..] == [];
    }
  }

  /** The statements hold exactly the lines, in their order. */
  lemma {:induction false} GroupConcat(lines: seq<string>)
    requires |lines| >= 1
    ensures Concat(Group(lines)) == lines
    decreases |lines|
  {
    if |lines| == 1 {
      assert [[lines[0]]][1..] == [];
    } else {
      var init := lines[..|lines| - 1];
      var g := Group(init);
      var line := lines[|lines| - 1];
      var front, last := g[..|g| - 1], g[|g| - 1];
      GroupConcat(init);
      InitLast(g, |g|);
      Whole(g);
      ConcatSnoc(front, last);
      assert Concat(front) + last == init;
      InitLast(lines, |lines|);
      Whole(lines);
      assert lines == init + [line];
      if Continues(line) {
        assert Group(lines) == front + [last + [line]];
        ConcatSnoc(front, last + [line]);
        assert Concat(front) + (last + [line]) == init + [line];
      } else {
        assert Group(lines) == g + [[line]];
        ConcatSnoc(g, [line]);
      }
    }
  }

  /** A continuing line extends the last statement. */
  lemma ContinueLast(g: seq<seq<string>>, line: string)
    requires |g| >= 1 && WellGrouped(g) && Continues(line)
    ensures var h := g[..|g| - 1] + [g[|g| - 1] + [line]];
      WellGrouped(h) && |h| == |g| && h[0][0] == g[0][0]
  {
    var n := |g| - 1;
    var h := g[..n] + [g[n] + [line]];
    assert forall j :: 0 <= j < n ==> h[j] == g[j];
    assert h[n] == g[n] + [line];
    forall j, m | 0 <= j < |h| && 1 <= m < |h[j]| ensures Continues(h[j][m]) {
      if j == n && m == |g[n]| {
        assert h[j][m] == line;
      } else {
        assert h[j][m] == g[j][m];
      }
    }
  }

  /** Any other line opens a new statement. */
  lemma OpenStatement(g: seq<seq<string>>, line: string)
    requires |g| >= 1 && WellGrouped(g) && !Continues(line)
    ensures var h := g + [[line]];
      WellGrouped(h) && h[0][0] == g[0][0]
  {
    var h := g + [[line]];
    assert forall j :: 0 <= j < |g| ==> h[j] == g[j];
  }

  /** The grouping follows the continuation rule. */
  lemma {:induction false} GroupShape(lines: seq<string>)
    requires |lines| >= 1
    ensures WellGrouped(Group(lines))
    ensures Group(lines)[0][0] == lines[0]
    decreases |lines|
  {
    if |lines| > 1 {
      var init := lines[..|lines| - 1];
      GroupShape(init);
      assert init[0] == lines[0];
      var line := lines[|lines| - 1];
      if Continues(line) {
        ContinueLast(Group(init), line);
      } else {
        OpenStatement(Group(init), line);
      }
    }
  }

  method GroupStatements(codeLines: seq<string>) returns (blocks: seq<seq<string>>)
    requires |codeLines| >= 1
    ensures blocks == Group(codeLines)
  {
    blocks := [[codeLines[0]]];
    var i := 1;
    while i < |codeLines|
      invariant 1 <= i <= |codeLines|
      invariant blocks == Group(codeLines[..i])
    {
      assert codeLines[..i + 1][..i] == codeLines[..i];
      var line := codeLines[i];
      if StartsWith(line, " ") || line == "" {
        blocks := blocks[..|blocks| - 1] + [blocks[|blocks| - 1] + [line]];
      } else {
        blocks := blocks + [[line]];
      }
      i := i + 1;
    }
    Whole(codeLines);
  }

  // ---------------------------------------------------------------------
  // Properties of the transcript

  /** The lines with their first four characters removed. */
  function Unprompt(lines: seq<string>): (r: seq<string>)
    ensures |r| == |lines|
    ensures forall i :: 0 <= i < |lines| ==> r[i] == DropPrefix(lines[i], 4)
  {
    seq(|lines|, i requires 0 <= i < |lines| => DropPrefix(lines[i], 4))
  }

  /** Taking the prompt off an echo gives the statement back. */
  lemma EchoRecovers(block: seq<string>)
    ensures Unprompt(Echo(block)) == block
  {
    forall i | 0 <= i < |block| ensures Unprompt(Echo(block))[i] == block[i] {
      var p := if i == 0 then ">>> " else "... ";
      assert Echo(block)[i] == p + block[i];
      assert (p + block[i])[4..] == block[i];
    }
  }

  /** A statement's first line gets the `>>> ` prompt and the others the
      `... ` prompt. */
  lemma EchoPrompts(block: seq<string>)
    ensures forall i :: 0 <= i < |block| ==> StartsWith(Echo(block)[i], if i == 0 then ">>> " else "... ")
  {
    forall i | 0 <= i < |block| ensures StartsWith(Echo(block)[i], if i == 0 then ">>> " else "... ") {
      var p := if i == 0 then ">>> " else "... ";
      assert (p + block[i])[..4] == p;
    }
  }

  lemma UnpromptConcat(a: seq<string>, b: seq<string>)
    ensures Unprompt(a + b) == Unprompt(a) + Unprompt(b)
  {
  }

  /** Every line the echo filter keeps differs, once stripped, from every
      line of the statement, and every line it drops equals one. */
  lemma {:induction false} NotEchoedMembers(rs: seq<string>, block: seq<string>)
    ensures forall x :: x in NotEchoed(rs, block) <==> x in rs && Strip(x) !in block
  {
    if rs != [] {
      var init := rs[..|rs| - 1];
      NotEchoedMembers(init, block);
      assert rs == init + [rs[|rs| - 1]];
    }
  }

  /** With a REPL that answers nothing, the transcript is the statements
      behind their prompts. */
  lemma {:induction false} SilentTranscript(repl: seq<string> -> string, blocks: seq<seq<string>>, sent: seq<string>, filterEcho: bool)
    requires forall s :: repl(s) == ""
    ensures Unprompt(Transcript(repl, blocks, sent, filterEcho)) == Concat(blocks)
    decreases |blocks|
  {
    if blocks != [] {
      var now := sent + [Input(blocks[0])];
      assert RStripLineEnds(repl(now)) == "";
      SilentTranscript(repl, blocks[1..], now, filterEcho);
      EchoRecovers(blocks[0]);
      UnpromptConcat(Echo(blocks[0]) + [], Transcript(repl, blocks[1..], now, filterEcho));
      assert Echo(blocks[0]) + [] == Echo(blocks[0]);
    }
  }

  /** A silent session gives back every line of the block, prompt removed,
      in its order. */
  lemma SilentSession(env: Env, text: string, filterEcho: bool)
    requires env.replAvailable && forall s :: env.repl(s) == ""
    ensures Unprompt(Transcript(env.repl, Group(CodeLines(text)), [], filterEcho)) == CodeLines(text)
  {
    SilentTranscript(env.repl, Group(CodeLines(text)), [], filterEcho);
    GroupConcat(CodeLines(text));
  }

  /** Without the echo filter every answer line is in the transcript; with
      it, exactly those that do not repeat a line of the statement. */
  lemma OutputLines(result: string, block: seq<string>, filterEcho: bool)
    requires result != ""
    ensures !filterEcho ==> Output(result, block, filterEcho) == SplitOn(result, '\n')
    ensures filterEcho ==> forall x :: x in Output(result, block, filterEcho) <==>
      x in SplitOn(result, '\n') && Strip(x) !in block
  {
    NotEchoedMembers(SplitOn(result, '\n'), block);
  }

  // ---------------------------------------------------------------------
  // execute_interactive_code, with its loops

  /** The transcript from statement `i` on: its echo, its answer, then the
      transcript of the statements after it. */
  lemma TranscriptStep(repl: seq<string> -> string, blocks: seq<seq<string>>, i: nat, sent: seq<string>, filterEcho: bool)
    requires i < |blocks|
    ensures var now := sent + [Input(blocks[i])];
      Transcript(repl, blocks[i..], sent, filterEcho) ==
        Echo(blocks[i]) + (Output(RStripLineEnds(repl(now)), blocks[i], filterEcho) + Transcript(repl, blocks[i + 1..], now, filterEcho))
  {
    assert blocks[i..][1..] == blocks[i + 1..];
    var now := sent + [Input(blocks[i])];
    Assoc(Echo(blocks[i]), Output(RStripLineEnds(repl(now)), blocks[i], filterEcho), Transcript(repl, blocks[i + 1..], now, filterEcho));
  }

  method ExecuteInteractiveCode(env: Env, text: string, filterEcho: bool) returns (r: string)
    ensures r == InteractiveSpec(env, text, filterEcho)
  {
    var codeLines := CodeLines(text);
    var blocks := GroupStatements(codeLines);
    if !env.replAvailable {
      return "";
    }
    var finalCode: seq<string> := [];
    var sent: seq<string> := [];
    var i := 0;
    while i < |blocks|
      invariant 0 <= i <= |blocks|
      invariant finalCode + Transcript(env.repl, blocks[i..], sent, filterEcho) == Transcript(env.repl, blocks, [], filterEcho)
    {
      var block := blocks[i];
      var now := sent + [Input(block)];
      var result := RStripLineEnds(env.repl(now));
      ghost var rest := Transcript(env.repl, blocks[i + 1..], now, filterEcho);
      TranscriptStep(env.repl, blocks, i, sent, filterEcho);
      Assoc(finalCode, Echo(block), Output(result, block, filterEcho) + rest);
      finalCode := finalCode + Echo(block);
      if result != "" {
        var answer := if filterEcho then NotEchoed(SplitOn(result, '\n'), block) else SplitOn(result, '\n');
        Assoc(finalCode, answer, rest);
        finalCode := finalCode + answer;
      } else {
        assert Output(result, block, filterEcho) + rest == rest;
      }
      sent := now;
      i := i + 1;
    }
    assert blocks[|blocks|..] == [];
    assert finalCode + [] == finalCode;
    return Join(finalCode, "\n");
  }
}
