/** Removing import statements from displayed code
    (pandoc_source_exec.py, `remove_import_statements`; the earlier variant
    has the same function). Lines whose left-stripped text starts with
    `import ` or `from ` go, then blank lines at either end. */
module Imports {
  import opened Seqs
  import opened Text

  /** A line the function treats as an import statement. */
  predicate IsImport(line: string) {
    var l := LStrip(line);
    StartsWith(l, "import ") || StartsWith(l, "from ")
  }

  /** The lines that are not import statements, in their order. */
  function NonImports(lines: seq<string>): (r: seq<string>)
    ensures |r| <= |lines|
  {
    if lines == [] then []
    else
      var before := NonImports(lines[..|lines| - 1]);
      if IsImport(lines[|lines| - 1]) then before else before + [lines[|lines| - 1]]
  }

  /** The lines after the leading empty ones. */
  function DropLeadingBlank(xs: seq<string>): (r: seq<string>)
    ensures |r| <= |xs|
  {
    if xs != [] && xs[0] == "" then DropLeadingBlank(xs[1..]) else xs
  }

  /** The lines before the trailing empty ones. */
  function DropTrailingBlank(xs: seq<string>): (r: seq<string>)
    ensures |r| <= |xs|
  {
    if xs != [] && xs[|xs| - 1] == "" then DropTrailingBlank(xs[..|xs| - 1]) else xs
  }

  function TrimBlank(xs: seq<string>): seq<string> {
    DropTrailingBlank(DropLeadingBlank(xs))
  }

  /** What `remove_import_statements` returns. */
  function RemoveImportsSpec(code: string): string {
    Join(TrimBlank(NonImports(SplitLines(code))), "\n")
  }

  // ---------------------------------------------------------------------
  // Properties

  /** The kept lines are exactly the lines that are not imports. */
  lemma {:induction false} NonImportsMembers(lines: seq<string>)
    ensures forall x :: x in NonImports(lines) <==> x in lines && !IsImport(x)
  {
    if lines != [] {
      var init := lines[..|lines| - 1];
      NonImportsMembers(init);
      assert lines == init + [lines[|lines| - 1]];
    }
  }

  /** The filter works line by line: it keeps the order of the lines. */
  lemma {:induction false} NonImportsConcat(a: seq<string>, b: seq<string>)
    ensures NonImports(a + b) == NonImports(a) + NonImports(b)
    decreases |b|
  {
    if b != [] {
      var init := b[..|b| - 1];
      NonImportsConcat(a, init);
      assert (a + b)[..|a + b| - 1] == a + init;
      assert (a + b)[|a + b| - 1] == b[|b| - 1];
    } else {
      assert a + b == a;
    }
  }

  /** Code without imports keeps all its lines. */
  lemma {:induction false} NonImportsNone(lines: seq<string>)
    requires forall k :: 0 <= k < |lines| ==> !IsImport(lines[k])
    ensures NonImports(lines) == lines
  {
    if lines != [] {
      var init := lines[..|lines| - 1];
      NonImportsNone(init);
      assert init + [lines[|lines| - 1]] == lines;
    }
  }

  /** Keeping lines keeps their freedom from line breaks. */
  lemma {:induction false} NonImportsNoLineBreak(lines: seq<string>)
    requires AllNoLineBreak(lines)
    ensures AllNoLineBreak(NonImports(lines))
  {
    if lines != [] {
      var init := lines[..|lines| - 1];
      assert AllNoLineBreak(init) by {
        forall k | 0 <= k < |init| ensures NoLineBreak(init[k]) { assert init[k] == lines[k]; }
      }
      NonImportsNoLineBreak(init);
    }
  }

  /** Only a prefix of empty lines goes, and what is left starts with a
      non-empty line. */
  lemma {:induction false} DropLeadingBlankSuffix(xs: seq<string>)
    ensures DropLeadingBlank(xs) == xs[|xs| - |DropLeadingBlank(xs)|..]
    ensures forall k :: 0 <= k < |xs| - |DropLeadingBlank(xs)| ==> xs[k] == ""
    ensures DropLeadingBlank(xs) == [] || DropLeadingBlank(xs)[0] != ""
  {
    if xs != [] && xs[0] == "" {
      DropLeadingBlankSuffix(xs[1..]);
    }
  }

  /** Only a suffix of empty lines goes, and what is left ends with a
      non-empty line. */
  lemma {:induction false} DropTrailingBlankPrefix(xs: seq<string>)
    ensures DropTrailingBlank(xs) == xs[..|DropTrailingBlank(xs)|]
    ensures forall k :: |DropTrailingBlank(xs)| <= k < |xs| ==> xs[k] == ""
    ensures DropTrailingBlank(xs) == [] || DropTrailingBlank(xs)[|DropTrailingBlank(xs)| - 1] != ""
  {
    if xs != [] && xs[|xs| - 1] == "" {
      DropTrailingBlankPrefix(xs[..|xs| - 1]);
    }
  }

  /** Dropping trailing empty lines keeps a non-empty first line first. */
  lemma DropTrailingKeepsFirst(xs: seq<string>)
    requires xs == [] || xs[0] != ""
    ensures DropTrailingBlank(xs) == [] || DropTrailingBlank(xs)[0] != ""
  {
    DropTrailingBlankPrefix(xs);
  }

  /** Where the trimmed lines start. */
  function TrimStart(xs: seq<string>): nat {
    |xs| - |DropLeadingBlank(xs)|
  }

  /** The trimmed lines are a slice of the lines with only empty lines
      outside it, and they neither start nor end with an empty line. */
  lemma TrimBlankShape(xs: seq<string>)
    ensures TrimStart(xs) + |TrimBlank(xs)| <= |xs|
    ensures TrimBlank(xs) == xs[TrimStart(xs)..TrimStart(xs) + |TrimBlank(xs)|]
    ensures forall k :: 0 <= k < TrimStart(xs) ==> xs[k] == ""
    ensures forall k :: TrimStart(xs) + |TrimBlank(xs)| <= k < |xs| ==> xs[k] == ""
    ensures TrimBlank(xs) == [] || (TrimBlank(xs)[0] != "" && TrimBlank(xs)[|TrimBlank(xs)| - 1] != "")
  {
    var l := DropLeadingBlank(xs);
    DropLeadingBlankSuffix(xs);
    DropTrailingBlankPrefix(l);
    DropTrailingKeepsFirst(l);
    var r := DropTrailingBlank(l);
    var i := |xs| - |l|;
    assert r == xs[i..i + |r|];
    assert forall k :: i + |r| <= k < |xs| ==> xs[k] == l[k - i];
  }

  lemma TrimBlankNone(xs: seq<string>)
    requires xs == [] || (xs[0] != "" && xs[|xs| - 1] != "")
    ensures TrimBlank(xs) == xs
  {
  }

  /** The lines that are joined into the result: free of line breaks and of
      imports, and neither starting nor ending with an empty line. */
  lemma TrimmedLines(lines: seq<string>)
    requires AllNoLineBreak(lines)
    ensures var r := TrimBlank(NonImports(lines));
      AllNoLineBreak(r) && (forall k :: 0 <= k < |r| ==> !IsImport(r[k]))
      && (r == [] || (r[0] != "" && r[|r| - 1] != ""))
  {
    var kept := NonImports(lines);
    var r := TrimBlank(kept);
    NonImportsMembers(lines);
    NonImportsNoLineBreak(lines);
    TrimBlankShape(kept);
    var i := TrimStart(kept);
    forall k | 0 <= k < |r| ensures r[k] in kept && NoLineBreak(r[k]) {
      assert r[k] == kept[i + k];
    }
  }

  lemma ResultLines(code: string)
    ensures var r := TrimBlank(NonImports(SplitLines(code)));
      AllNoLineBreak(r) && (forall k :: 0 <= k < |r| ==> !IsImport(r[k]))
      && (r == [] || (r[0] != "" && r[|r| - 1] != ""))
  {
    TrimmedLines(SplitLines(code));
  }

  /** No import statement is left in the returned code. */
  lemma NoImportsRemain(code: string)
    ensures forall k :: 0 <= k < |SplitLines(RemoveImportsSpec(code))| ==> !IsImport(SplitLines(RemoveImportsSpec(code))[k])
  {
    ResultLines(code);
    SplitLinesJoin(TrimBlank(NonImports(SplitLines(code))));
  }

  /** Removing imports twice removes no more than once. */
  lemma RemoveImportsIdempotent(code: string)
    ensures RemoveImportsSpec(RemoveImportsSpec(code)) == RemoveImportsSpec(code)
  {
    var r := TrimBlank(NonImports(SplitLines(code)));
    ResultLines(code);
    SplitLinesJoin(r);
    NonImportsNone(r);
    TrimBlankNone(r);
  }

  // ---------------------------------------------------------------------
  // remove_import_statements, with its loops

  method RemoveImportStatements(code: string) returns (r: string)
    ensures r == RemoveImportsSpec(code)
  {
    var lines := SplitLines(code);
    var newCode: seq<string> := [];
    var i := 0;
    while i < |lines|
      invariant 0 <= i <= |lines|
      invariant newCode == NonImports(lines[..i])
    {
      PrefixSnoc(lines, i);
      if !IsImport(lines[i]) {
        newCode := newCode + [lines[i]];
      }
      i := i + 1;
    }
    Whole(lines);

    ghost var kept := newCode;
    while newCode != [] && newCode[0] == ""
      invariant DropLeadingBlank(newCode) == DropLeadingBlank(kept)
      decreases |newCode|
    {
      newCode := newCode[1..];
    }

    ghost var lead := newCode;
    while newCode != [] && newCode[|newCode| - 1] == ""
      invariant DropTrailingBlank(newCode) == DropTrailingBlank(lead)
      decreases |newCode|
    {
      newCode := newCode[..|newCode| - 1];
    }
    return Join(newCode, "\n");
  }
}
