/** The `lines` attribute: keeping only the listed lines of a code block
    (pandoc_source_exec.py, `filter_lines`). A specification such as
    `1,3-5,-2,9-` names single lines and inclusive ranges; a range with an
    empty start begins at line 1 and one with an empty end stops at the last
    line. */
module LineFilter {
  import opened Wrappers
  import opened Seqs
  import opened Text

  /** The comma-separated items of a specification, stripped of whitespace. */
  function LineSpecs(spec: string): (r: seq<string>)
    ensures |r| == |SplitOn(spec, ',')|
    ensures forall i :: 0 <= i < |r| ==> r[i] == Strip(SplitOn(spec, ',')[i])
  {
    var pieces := SplitOn(spec, ',');
    seq(|pieces|, i requires 0 <= i < |pieces| => Strip(pieces[i]))
  }

  /** An item without `-`: `int(item)`. */
  function SingleLine(item: string): (r: Result<set<int>, PyError>)
    ensures r.Failure? <==> ParseInt(item).None?
    ensures r.Success? ==> r.value == {ParseInt(item).value}
    ensures r.Failure? ==> r.error == ValueError
  {
    match ParseInt(item)
    case None => Failure(ValueError)
    case Some(n) => Success({n})
  }

  /** The position of a range bound: an empty bound takes its default. */
  function Bound(text: string, default: int): Option<int> {
    if text == "" then Some(default) else ParseInt(text)
  }

  /** The inclusive range `begin..end`, which is empty when `begin > end`. */
  function Range(begin: int, end: int): set<int>
    decreases end - begin
  {
    if begin > end then {} else Range(begin, end - 1) + {end}
  }

  lemma {:induction false} RangeMembers(begin: int, end: int, k: int)
    ensures k in Range(begin, end) <==> begin <= k <= end
    decreases end - begin
  {
    if begin <= end {
      RangeMembers(begin, end - 1, k);
    }
  }

  /** An item with `-`: exactly two bounds around one `-`, each empty or an
      integer; the first defaults to 1, the second to the number of lines. */
  function RangeLines(item: string, count: nat): (r: Result<set<int>, PyError>)
    ensures r.Failure? ==> r.error == ValueError
  {
    var bounds := SplitOn(item, '-');
    if |bounds| != 2 then Failure(ValueError)
    else
      match (Bound(bounds[0], 1), Bound(bounds[1], count))
      case (Some(b), Some(e)) => Success(Range(b, e))
      case _ => Failure(ValueError)
  }

  /** The union of the line sets of a sequence of item results, or the
      error of the first item that failed. */
  function Collect(rs: seq<Result<set<int>, PyError>>): Result<set<int>, PyError>
    decreases |rs|
  {
    if rs == [] then Success({})
    else
      var before :- Collect(rs[..|rs| - 1]);
      var these :- rs[|rs| - 1];
      Success(before + these)
  }

  /** The items with `-` (`ranged`) or without it, in their order. */
  function Items(specs: seq<string>, ranged: bool): (r: seq<string>)
    ensures forall x :: x in r <==> x in specs && ('-' in x <==> ranged)
    decreases |specs|
  {
    if specs == [] then []
    else
      var before := Items(specs[..|specs| - 1], ranged);
      var item := specs[|specs| - 1];
      assert forall x :: x in specs <==> x in specs[..|specs| - 1] || x == item;
      if '-' in item <==> ranged then before + [item] else before
  }

  /** The lines one item names. */
  function ItemLines(item: string, count: nat): Result<set<int>, PyError> {
    if '-' in item then RangeLines(item, count) else SingleLine(item)
  }

  /** `map(int, ...)` over the single items, or the range conversion over the
      range items. */
  function Results(items: seq<string>, count: nat): (r: seq<Result<set<int>, PyError>>)
    ensures |r| == |items|
    ensures forall i :: 0 <= i < |items| ==> r[i] == ItemLines(items[i], count)
  {
    seq(|items|, i requires 0 <= i < |items| => ItemLines(items[i], count))
  }

  /** The selected line numbers for a code block of `count` lines: the single
      lines, then the lines of every range. */
  function Selection(specs: seq<string>, count: nat): Result<set<int>, PyError> {
    var singles :- Collect(Results(Items(specs, false), count));
    var ranges :- Collect(Results(Items(specs, true), count));
    Success(singles + ranges)
  }

  /** The lines whose 1-based number is selected, in their order. */
  function Kept(lines: seq<string>, selected: set<int>): (r: seq<string>)
    ensures |r| <= |lines|
  {
    if lines == [] then []
    else
      var before := Kept(lines[..|lines| - 1], selected);
      if |lines| in selected then before + [lines[|lines| - 1]] else before
  }

  /** What `filter_lines` returns: the kept lines joined by newlines, or the
      `ValueError` of a malformed item. */
  function FilterLinesSpec(code: string, spec: string): Result<string, PyError> {
    var lines := SplitLines(code);
    var selected :- Selection(LineSpecs(spec), |lines|);
    Success(Join(Kept(lines, selected), "\n"))
  }

  // ---------------------------------------------------------------------
  // Properties of the selection

  lemma CollectSnoc(rs: seq<Result<set<int>, PyError>>, r: Result<set<int>, PyError>)
    ensures Collect(rs + [r]) ==
      if Collect(rs).Failure? then Collect(rs)
      else if r.Failure? then r
      else Success(Collect(rs).value + r.value)
  {
    assert (rs + [r])[..|rs|] == rs;
  }

  /** The collection fails exactly when an item fails, with the error of the
      first one. */
  lemma {:induction false} CollectFailure(rs: seq<Result<set<int>, PyError>>)
    ensures Collect(rs).Failure? <==> exists i :: 0 <= i < |rs| && rs[i].Failure?
    ensures Collect(rs).Failure? ==> exists i :: 0 <= i < |rs| && rs[i] == Failure(Collect(rs).error)
    decreases |rs|
  {
    if rs != [] {
      var init := rs[..|rs| - 1];
      CollectFailure(init);
      assert forall i :: 0 <= i < |init| ==> init[i] == rs[i];
    }
  }

  /** A successful collection holds exactly the lines of its items. */
  lemma {:induction false} CollectMembers(rs: seq<Result<set<int>, PyError>>, k: int)
    requires Collect(rs).Success?
    ensures k in Collect(rs).value <==> exists i :: 0 <= i < |rs| && rs[i].Success? && k in rs[i].value
    decreases |rs|
  {
    if rs != [] {
      var init := rs[..|rs| - 1];
      CollectMembers(init, k);
      assert forall i :: 0 <= i < |init| ==> init[i] == rs[i];
    }
  }

  lemma ResultsMembers(items: seq<string>, count: nat, k: int)
    ensures (exists i :: 0 <= i < |Results(items, count)| && Results(items, count)[i].Success? && k in Results(items, count)[i].value)
      <==> exists x :: x in items && ItemLines(x, count).Success? && k in ItemLines(x, count).value
  {
    var rs := Results(items, count);
    if x :| x in items && ItemLines(x, count).Success? && k in ItemLines(x, count).value {
      var i :| 0 <= i < |items| && items[i] == x;
      assert rs[i] == ItemLines(x, count);
    }
  }

  lemma ResultsFailure(items: seq<string>, count: nat)
    ensures (exists i :: 0 <= i < |Results(items, count)| && Results(items, count)[i].Failure?)
      <==> exists x :: x in items && ItemLines(x, count).Failure?
    ensures forall i :: 0 <= i < |Results(items, count)| && Results(items, count)[i].Failure? ==>
      Results(items, count)[i].error == ValueError
  {
    var rs := Results(items, count);
    if x :| x in items && ItemLines(x, count).Failure? {
      var i :| 0 <= i < |items| && items[i] == x;
      assert rs[i] == ItemLines(x, count);
    }
  }

  /** The selection fails exactly when one of the items is malformed, and it
      then raises `ValueError`. */
  lemma SelectionFailure(specs: seq<string>, count: nat)
    ensures Selection(specs, count).Failure? <==> exists x :: x in specs && ItemLines(x, count).Failure?
    ensures Selection(specs, count).Failure? ==> Selection(specs, count).error == ValueError
  {
    var singles := Results(Items(specs, false), count);
    var ranges := Results(Items(specs, true), count);
    CollectFailure(singles);
    CollectFailure(ranges);
    ResultsFailure(Items(specs, false), count);
    ResultsFailure(Items(specs, true), count);
    if x :| x in specs && ItemLines(x, count).Failure? {
      if '-' in x { assert x in Items(specs, true); } else { assert x in Items(specs, false); }
    }
  }

  /** A line number is selected exactly when some item names it. */
  lemma SelectionMembers(specs: seq<string>, count: nat, k: int)
    requires Selection(specs, count).Success?
    ensures k in Selection(specs, count).value <==>
      exists x :: x in specs && ItemLines(x, count).Success? && k in ItemLines(x, count).value
  {
    var singles := Results(Items(specs, false), count);
    var ranges := Results(Items(specs, true), count);
    CollectMembers(singles, k);
    CollectMembers(ranges, k);
    ResultsMembers(Items(specs, false), count, k);
    ResultsMembers(Items(specs, true), count, k);
    if x :| x in specs && ItemLines(x, count).Success? && k in ItemLines(x, count).value {
      if '-' in x { assert x in Items(specs, true); } else { assert x in Items(specs, false); }
    }
  }

  /** The three shapes of a range item. */
  lemma RangeShapes(begin: string, end: string, count: nat)
    requires '-' !in begin && '-' !in end
    ensures begin == "" && end == "" ==> RangeLines(begin + "-" + end, count) == Success(Range(1, count))
    ensures begin == "" && ParseInt(end).Some? ==>
      RangeLines(begin + "-" + end, count) == Success(Range(1, ParseInt(end).value))
    ensures ParseInt(begin).Some? && end == "" ==>
      RangeLines(begin + "-" + end, count) == Success(Range(ParseInt(begin).value, count))
    ensures ParseInt(begin).Some? && ParseInt(end).Some? && begin != "" && end != "" ==>
      RangeLines(begin + "-" + end, count) == Success(Range(ParseInt(begin).value, ParseInt(end).value))
  {
    SplitOnJoin([begin, end], '-');
    assert Join([begin, end], "-") == begin + "-" + end;
  }

  // ---------------------------------------------------------------------
  // Properties of the kept lines

  /** The 0-based positions of the kept lines, in increasing order. */
  function KeptPositions(n: nat, selected: set<int>): (r: seq<nat>)
    ensures forall j :: 0 <= j < |r| ==> r[j] < n
  {
    if n == 0 then []
    else
      var before := KeptPositions(n - 1, selected);
      if n in selected then before + [n - 1] else before
  }

  /** The kept lines are exactly the lines at the kept positions. */
  lemma {:induction false} KeptAtPositions(lines: seq<string>, selected: set<int>)
    ensures |Kept(lines, selected)| == |KeptPositions(|lines|, selected)|
    ensures forall j :: 0 <= j < |Kept(lines, selected)| ==>
      Kept(lines, selected)[j] == lines[KeptPositions(|lines|, selected)[j]]
  {
    if lines != [] {
      var init := lines[..|lines| - 1];
      KeptAtPositions(init, selected);
      assert forall j :: 0 <= j < |init| ==> init[j] == lines[j];
    }
  }

  /** The positions grow strictly, and a position is kept exactly when the
      line numbered one more is selected. */
  lemma {:induction false} KeptPositionsExact(n: nat, selected: set<int>)
    ensures forall a, b :: 0 <= a < b < |KeptPositions(n, selected)| ==>
      KeptPositions(n, selected)[a] < KeptPositions(n, selected)[b]
    ensures forall p :: p in KeptPositions(n, selected) <==> 0 <= p < n && p + 1 in selected
  {
    if n > 0 {
      KeptPositionsExact(n - 1, selected);
    }
  }

  /** Selecting every line keeps the code as it is. */
  lemma {:induction false} KeptAll(lines: seq<string>, selected: set<int>)
    requires forall k :: 1 <= k <= |lines| ==> k in selected
    ensures Kept(lines, selected) == lines
  {
    if lines != [] {
      var init := lines[..|lines| - 1];
      KeptAll(init, selected);
      assert init + [lines[|lines| - 1]] == lines;
    }
  }

  /** Selecting no line of the code keeps nothing. */
  lemma {:induction false} KeptNone(lines: seq<string>, selected: set<int>)
    requires forall k :: 1 <= k <= |lines| ==> k !in selected
    ensures Kept(lines, selected) == []
  {
    if lines != [] {
      KeptNone(lines[..|lines| - 1], selected);
    }
  }

  // ---------------------------------------------------------------------
  // filter_lines, with its loops

  /** One more item: the collection over a prefix grows by that item's
      lines when it belongs to the kind being collected. */
  lemma CollectStep(specs: seq<string>, i: nat, ranged: bool, count: nat)
    requires i < |specs|
    ensures
      var before := Collect(Results(Items(specs[..i], ranged), count));
      var these := ItemLines(specs[i], count);
      Collect(Results(Items(specs[..i + 1], ranged), count)) ==
        if ('-' in specs[i]) != ranged || before.Failure? then before
        else if these.Failure? then these
        else Success(before.value + these.value)
  {
    var prefix := specs[..i + 1];
    assert prefix[..|prefix| - 1] == specs[..i];
    var items := Items(specs[..i], ranged);
    if ('-' in specs[i]) == ranged {
      assert Results(items + [specs[i]], count) == Results(items, count) + [ItemLines(specs[i], count)];
      CollectSnoc(Results(items, count), ItemLines(specs[i], count));
    }
  }

  /** Once an item has failed, the rest of the items change nothing. */
  lemma {:induction false} CollectStays(specs: seq<string>, n: nat, ranged: bool, count: nat)
    requires n <= |specs|
    requires Collect(Results(Items(specs[..n], ranged), count)).Failure?
    ensures Collect(Results(Items(specs, ranged), count)) == Collect(Results(Items(specs[..n], ranged), count))
    decreases |specs| - n
  {
    if n == |specs| {
      Whole(specs);
    } else {
      CollectStep(specs, n, ranged, count);
      CollectStays(specs, n + 1, ranged, count);
    }
  }

  /** The lines named by the items of one kind: `map(int, ...)` over the
      single items, or the range loop over the range items. */
  method LineSet(specs: seq<string>, ranged: bool, count: nat) returns (r: Result<set<int>, PyError>)
    ensures r == Collect(Results(Items(specs, ranged), count))
  {
    var selected: set<int> := {};
    var i := 0;
    while i < |specs|
      invariant 0 <= i <= |specs|
      invariant Collect(Results(Items(specs[..i], ranged), count)) == Success(selected)
    {
      CollectStep(specs, i, ranged, count);
      if ('-' in specs[i]) == ranged {
        var these := if ranged then RangeLines(specs[i], count) else SingleLine(specs[i]);
        if these.Failure? {
          CollectStays(specs, i + 1, ranged, count);
          return these;
        }
        selected := selected + these.value;
      }
      i := i + 1;
    }
    Whole(specs);
    return Success(selected);
  }

  /** The loop over the numbered lines of the code. */
  method KeepLines(codeLines: seq<string>, selected: set<int>) returns (keep: seq<string>)
    ensures keep == Kept(codeLines, selected)
  {
    keep := [];
    var k := 0;
    while k < |codeLines|
      invariant 0 <= k <= |codeLines|
      invariant keep == Kept(codeLines[..k], selected)
    {
      PrefixSnoc(codeLines, k);
      if k + 1 in selected {
        keep := keep + [codeLines[k]];
      }
      k := k + 1;
    }
    Whole(codeLines);
  }

  /** `filter_lines`. */
  method FilterLines(code: string, spec: string) returns (r: Result<string, PyError>)
    ensures r == FilterLinesSpec(code, spec)
  {
    var codeLines := SplitLines(code);
    var specs := LineSpecs(spec);
    var singles :- LineSet(specs, false, |codeLines|);
    var ranges :- LineSet(specs, true, |codeLines|);
    var keep := KeepLines(codeLines, singles + ranges);
    return Success(Join(keep, "\n"));
  }

  /** A malformed item anywhere makes `filter_lines` raise `ValueError`. */
  lemma MalformedItem(code: string, spec: string, item: string)
    requires item in LineSpecs(spec) && ItemLines(item, |SplitLines(code)|).Failure?
    ensures FilterLinesSpec(code, spec) == Failure(ValueError)
  {
    SelectionFailure(LineSpecs(spec), |SplitLines(code)|);
  }

  lemma DashSpecs()
    ensures LineSpecs("-") == ["-"]
  {
    assert SplitOn("-", ',') == ["-"];
    assert Strip("-") == "-";
  }

  lemma DashItems()
    ensures Items(["-"], false) == [] && Items(["-"], true) == ["-"]
  {
    assert ["-"][..0] == [];
  }

  lemma DashRange(count: nat)
    ensures RangeLines("-", count) == Success(Range(1, count))
  {
    RangeShapes("", "", count);
    assert "" + "-" + "" == "-";
  }

  lemma CollectOne(x: Result<set<int>, PyError>)
    requires x.Success?
    ensures Collect([x]) == x
  {
    assert [x][..0] == [];
    assert {} + x.value == x.value;
  }

  lemma DashResults(count: nat)
    ensures Results([], count) == []
    ensures Results(["-"], count) == [Success(Range(1, count))]
  {
    DashRange(count);
    assert '-' in "-";
  }

  lemma DashSelection(count: nat)
    ensures Selection(["-"], count) == Success(Range(1, count))
  {
    DashItems();
    DashResults(count);
    CollectOne(Success(Range(1, count)));
    assert {} + Range(1, count) == Range(1, count);
  }

  /** The open range `-` keeps every line. */
  lemma FullRangeKeepsAll(code: string)
    ensures FilterLinesSpec(code, "-") == Success(Join(SplitLines(code), "\n"))
  {
    var lines := SplitLines(code);
    DashSpecs();
    DashSelection(|lines|);
    forall k | 1 <= k <= |lines| ensures k in Range(1, |lines|) {
      RangeMembers(1, |lines|, k);
    }
    KeptAll(lines, Range(1, |lines|));
  }
}
