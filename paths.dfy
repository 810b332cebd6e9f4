/** Display paths for loaded files (pandoc_source_exec.py, `trimpath`). Paths
    are relative, `/`-separated and free of empty segments, so `os.path.split`
    and `os.path.join` reduce to cutting at, and joining with, single slashes. */
module Paths {
  import opened Wrappers
  import opened Seqs
  import opened Text

  /** A relative path whose `/`-separated segments are all non-empty. */
  predicate ValidRelPath(p: string) {
    forall k :: 0 <= k < |SplitOn(p, '/')| ==> SplitOn(p, '/')[k] != ""
  }

  function LastSlash(s: string): (r: Option<nat>)
    ensures r.Some? ==> r.value < |s| && s[r.value] == '/' && '/' !in s[r.value + 1..]
    ensures r.None? ==> '/' !in s
  {
    if s == [] then None
    else if s[|s| - 1] == '/' then Some(|s| - 1)
    else
      var r := LastSlash(s[..|s| - 1]);
      assert r.Some? ==> s[r.value + 1..] == s[..|s| - 1][r.value + 1..] + [s[|s| - 1]];
      assert r.None? ==> s == s[..|s| - 1] + [s[|s| - 1]];
      r
  }

  /** `os.path.split(p)`: everything before the last slash, and after it. */
  function PathSplit(p: string): (string, string)
  {
    match LastSlash(p)
    case None => ("", p)
    case Some(i) => (p[..i], p[i + 1..])
  }

  /** `os.path.basename(p)`. */
  function Basename(p: string): string {
    PathSplit(p).1
  }

  predicate NoSlash(segs: seq<string>) {
    forall k :: 0 <= k < |segs| ==> '/' !in segs[k]
  }

  predicate NoEmpty(segs: seq<string>) {
    forall k :: 0 <= k < |segs| ==> segs[k] != ""
  }

  lemma {:induction false} LastSlashAfter(a: string, b: string)
    requires '/' !in b
    ensures LastSlash(a + "/" + b) == Some(|a|)
    decreases |b|
  {
    var s := a + "/" + b;
    if b != [] {
      assert s[..|s| - 1] == a + "/" + b[..|b| - 1];
      assert s[|s| - 1] == b[|b| - 1];
      LastSlashAfter(a, b[..|b| - 1]);
    }
  }

  /** Splitting a joined path cuts off exactly its last segment. */
  lemma PathSplitJoin(init: seq<string>, last: string)
    requires '/' !in last
    ensures PathSplit(Join(init + [last], "/")) == (Join(init, "/"), last)
  {
    if init == [] {
      assert init + [last] == [last];
    } else {
      JoinSnoc(init, last, "/");
      var a := Join(init, "/");
      LastSlashAfter(a, last);
      var s := a + "/" + last;
      assert s[..|a|] == a && s[|a| + 1..] == last;
    }
  }

  lemma JoinEmpty(segs: seq<string>)
    requires NoEmpty(segs)
    ensures Join(segs, "/") == "" <==> segs == []
  {
    if |segs| > 1 {
      assert Join(segs, "/")[0] == segs[0][0];
    } else if |segs| == 1 {
      assert Join(segs, "/") == segs[0];
    }
  }

  /** The last `n` segments, or all of them when there are fewer. */
  function LastSegments(segs: seq<string>, n: nat): (r: seq<string>)
    ensures |r| == if n < |segs| then n else |segs|
    ensures r == segs[|segs| - |r|..]
  {
    if n < |segs| then segs[|segs| - n..] else segs
  }

  /** What `trimpath` displays for the `file` attribute: the whole path for
      `pathdepth=full`, its last N segments for `pathdepth=N`, its basename
      without `pathdepth`. A `pathdepth` that is not a number raises
      `ValueError`; one below 1 leaves `os.path.join` without arguments,
      which raises `TypeError`. */
  function TrimPathSpec(attributes: map<string, string>): Result<string, PyError>
    requires "file" in attributes && ValidRelPath(attributes["file"])
  {
    var file := attributes["file"];
    if "pathdepth" in attributes then
      if attributes["pathdepth"] != "full" then
        match ParseInt(attributes["pathdepth"])
        case None => Failure(ValueError)
        case Some(n) => if n <= 0 then Failure(TypeError) else Success(Join(LastSegments(SplitOn(file, '/'), n), "/"))
      else Success(file)
    else Success(Basename(file))
  }

  /** The basename is the last segment. */
  lemma BasenameIsLastSegment(file: string)
    requires ValidRelPath(file)
    ensures Basename(file) == SplitOn(file, '/')[|SplitOn(file, '/')| - 1]
  {
    var segs := SplitOn(file, '/');
    JoinSplitOn(file, '/');
    SplitOnPieces(file, '/');
    InitLast(segs, |segs|);
    assert segs[..|segs|] == segs;
    PathSplitJoin(segs[..|segs| - 1], segs[|segs| - 1]);
  }

  /** A depth of at least the number of segments shows the whole path. */
  lemma DeepEnoughIsFull(attributes: map<string, string>, n: int)
    requires "file" in attributes && ValidRelPath(attributes["file"])
    requires "pathdepth" in attributes && ParseInt(attributes["pathdepth"]) == Some(n)
    requires n >= |SplitOn(attributes["file"], '/')|
    ensures TrimPathSpec(attributes) == Success(attributes["file"])
  {
    assert attributes["pathdepth"] != "full";
    JoinSplitOn(attributes["file"], '/');
  }

  lemma {:induction false} JoinSuffix(segs: seq<string>, m: nat)
    requires m < |segs|
    ensures exists pre :: Join(segs, "/") == pre + Join(segs[m..], "/")
  {
    if m > 0 {
      JoinSuffix(segs[1..], m - 1);
      var pre :| Join(segs[1..], "/") == pre + Join(segs[1..][m - 1..], "/");
      assert segs[1..][m - 1..] == segs[m..];
      assert Join(segs, "/") == (segs[0] + "/" + pre) + Join(segs[m..], "/");
    } else {
      assert Join(segs, "/") == "" + Join(segs[m..], "/");
    }
  }

  lemma LastSegmentsSuffix(segs: seq<string>, n: nat)
    requires n >= 1 && |segs| >= 1
    ensures exists pre :: Join(segs, "/") == pre + Join(LastSegments(segs, n), "/")
  {
    JoinSuffix(segs, |segs| - |LastSegments(segs, n)|);
  }

  /** Whatever is displayed is a tail of the path. */
  lemma TrimPathIsSuffix(attributes: map<string, string>)
    requires "file" in attributes && ValidRelPath(attributes["file"])
    requires TrimPathSpec(attributes).Success?
    ensures exists pre :: attributes["file"] == pre + TrimPathSpec(attributes).value
  {
    var file := attributes["file"];
    var t := TrimPathSpec(attributes).value;
    JoinSplitOn(file, '/');
    if "pathdepth" in attributes && attributes["pathdepth"] != "full" {
      LastSegmentsSuffix(SplitOn(file, '/'), ParseInt(attributes["pathdepth"]).value);
    } else if "pathdepth" in attributes {
      assert file == "" + t;
    } else {
      var segs := SplitOn(file, '/');
      BasenameIsLastSegment(file);
      LastSegmentsSuffix(segs, 1);
      assert LastSegments(segs, 1) == [segs[|segs| - 1]];
    }
  }

  /** The loop state of `trimpath`: the segments taken so far are the last
      ones, and what remains is the join of the others. */
  predicate Peeled(segs: seq<string>, taken: seq<string>, remainder: string) {
    |taken| <= |segs|
    && taken == segs[|segs| - |taken|..]
    && remainder == Join(segs[..|segs| - |taken|], "/")
    && (remainder == "" <==> |taken| == |segs|)
  }

  lemma PeelStart(segs: seq<string>)
    requires NoEmpty(segs)
    ensures Peeled(segs, [], Join(segs, "/"))
  {
    assert segs[..|segs|] == segs && segs[|segs|..] == [];
    JoinEmpty(segs);
  }

  lemma PeelStep(segs: seq<string>, taken: seq<string>, remainder: string)
    requires NoSlash(segs) && NoEmpty(segs)
    requires Peeled(segs, taken, remainder) && remainder != ""
    ensures |taken| < |segs|
    ensures Peeled(segs, [PathSplit(remainder).1] + taken, PathSplit(remainder).0)
  {
    var m := |segs| - |taken|;
    InitLast(segs, m);
    ConsSuffix(segs, m);
    PathSplitJoin(segs[..m - 1], segs[m - 1]);
    assert NoEmpty(segs[..m - 1]);
    JoinEmpty(segs[..m - 1]);
  }

  lemma TrimPathSpecDepth(attributes: map<string, string>, n: int)
    requires "file" in attributes && ValidRelPath(attributes["file"])
    requires "pathdepth" in attributes && attributes["pathdepth"] != "full"
    requires ParseInt(attributes["pathdepth"]) == Some(n)
    ensures n <= 0 ==> TrimPathSpec(attributes) == Failure(TypeError)
    ensures n > 0 ==> TrimPathSpec(attributes) == Success(Join(LastSegments(SplitOn(attributes["file"], '/'), n), "/"))
  {
  }

  /** `trimpath`, with its loop peeling segments off the end. */
  method TrimPath(attributes: map<string, string>) returns (r: Result<string, PyError>)
    requires "file" in attributes && ValidRelPath(attributes["file"])
    ensures r == TrimPathSpec(attributes)
  {
    var file := attributes["file"];
    if "pathdepth" !in attributes {
      return Success(Basename(file));
    }
    if attributes["pathdepth"] == "full" {
      return Success(file);
    }
    var parsed := ParseInt(attributes["pathdepth"]);
    if parsed.None? {
      return Failure(ValueError);
    }
    var limit := parsed.value;
    TrimPathSpecDepth(attributes, limit);
    ghost var segs := SplitOn(file, '/');
    JoinSplitOn(file, '/');
    SplitOnPieces(file, '/');
    assert NoEmpty(segs) && NoSlash(segs);
    var pathelements: seq<string> := [];
    var remainder := file;
    PeelStart(segs);
    while |pathelements| < limit && remainder != ""
      invariant Peeled(segs, pathelements, remainder)
      invariant pathelements == [] || |pathelements| <= limit
      decreases |segs| - |pathelements|
    {
      PeelStep(segs, pathelements, remainder);
      var (head, tail) := PathSplit(remainder);
      remainder := head;
      pathelements := [tail] + pathelements;
    }
    if pathelements == [] {
      assert limit <= 0;
      return Failure(TypeError);
    }
    assert pathelements == LastSegments(segs, limit);
    return Success(Join(pathelements, "/"));
  }
}
