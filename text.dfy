/** The Python string operations the filter is built from, stated over
    `seq<char>`: `split(sep)`, `split()`, `splitlines()`, `join`, the `strip`
    family, `startswith`, slicing, `in` on strings and `int()`. */
module Text {
  import opened Wrappers
  import opened Seqs

  // ---------------------------------------------------------------------
  // Slicing and searching

  /** Python's `s[n:]` on a string or a list: empty when `s` is shorter
      than `n`. */
  function DropPrefix<T>(s: seq<T>, n: nat): (r: seq<T>)
    ensures |s| >= n ==> r == s[n..]
    ensures |s| < n ==> r == []
  {
    if |s| >= n then s[n..] else []
  }

  /** Python's `s.startswith(p)`. */
  predicate StartsWith(s: string, p: string) {
    |p| <= |s| && s[..|p|] == p
  }

  /** Python's `p in s` on strings. */
  predicate Contains(s: string, p: string)
    decreases |s|
  {
    StartsWith(s, p) || (s != [] && Contains(s[1..], p))
  }

  /** Index of the first `c` in `s`, or `|s|` when `s` holds none. */
  function IndexOf(s: string, c: char): (i: nat)
    ensures i <= |s|
    ensures i < |s| ==> s[i] == c
  {
    if s == [] then 0
    else if s[0] == c then 0
    else 1 + IndexOf(s[1..], c)
  }

  /** No earlier position holds `c`. */
  lemma {:induction false} IndexOfFirst(s: string, c: char)
    ensures forall k :: 0 <= k < IndexOf(s, c) ==> s[k] != c
  {
    if s != [] && s[0] != c {
      IndexOfFirst(s[1..], c);
      assert forall k :: 0 < k < IndexOf(s, c) ==> s[k] == s[1..][k - 1];
    }
  }

  lemma IndexOfAbsent(s: string, c: char)
    requires c !in s
    ensures IndexOf(s, c) == |s|
  {
  }

  lemma IndexOfAfter(a: string, b: string, c: char)
    requires c !in a && b != [] && b[0] == c
    ensures IndexOf(a + b, c) == |a|
  {
    IndexOfFirst(a + b, c);
    assert (a + b)[|a|] == c;
    assert forall k :: 0 <= k < |a| ==> (a + b)[k] == a[k];
  }

  // ---------------------------------------------------------------------
  // split(sep) and join

  /** Python's `s.split(c)` for a one-character separator: always at least
      one piece, and empty pieces are kept. */
  function SplitOn(s: string, c: char): (r: seq<string>)
    ensures |r| >= 1
    decreases |s|
  {
    var i := IndexOf(s, c);
    if i == |s| then [s] else [s[..i]] + SplitOn(s[i + 1..], c)
  }

  lemma PrefixLacks(s: string, c: char)
    ensures c !in s[..IndexOf(s, c)]
  {
    var i := IndexOf(s, c);
    IndexOfFirst(s, c);
    assert forall k :: 0 <= k < i ==> s[..i][k] == s[k];
  }

  lemma ConsLacks<T>(x: seq<T>, ps: seq<seq<T>>, c: T)
    requires c !in x && forall k :: 0 <= k < |ps| ==> c !in ps[k]
    ensures forall k :: 0 <= k < |[x] + ps| ==> c !in ([x] + ps)[k]
  {
    assert forall k :: 0 < k < |[x] + ps| ==> ([x] + ps)[k] == ps[k - 1];
  }

  /** No piece of a split holds the separator. */
  lemma {:induction false} SplitOnPieces(s: string, c: char)
    ensures forall k :: 0 <= k < |SplitOn(s, c)| ==> c !in SplitOn(s, c)[k]
    decreases |s|
  {
    var i := IndexOf(s, c);
    PrefixLacks(s, c);
    if i < |s| {
      SplitOnPieces(s[i + 1..], c);
      ConsLacks(s[..i], SplitOn(s[i + 1..], c), c);
    } else {
      assert s[..i] == s;
    }
  }

  /** Python's `sep.join(ps)`. */
  function Join(ps: seq<string>, sep: string): string
  {
    if |ps| == 0 then "" else if |ps| == 1 then ps[0] else ps[0] + sep + Join(ps[1..], sep)
  }

  lemma {:induction false} JoinAppend(xs: seq<string>, ys: seq<string>, sep: string)
    requires |xs| >= 1 && |ys| >= 1
    ensures Join(xs + ys, sep) == Join(xs, sep) + sep + Join(ys, sep)
  {
    if |xs| > 1 {
      assert (xs + ys)[1..] == xs[1..] + ys;
      JoinAppend(xs[1..], ys, sep);
    } else {
      assert (xs + ys)[1..] == ys;
    }
  }

  lemma JoinCons(x: string, tail: seq<string>, sep: string)
    requires tail != []
    ensures Join([x] + tail, sep) == x + sep + Join(tail, sep)
  {
    assert ([x] + tail)[1..] == tail;
  }

  lemma JoinSnoc(xs: seq<string>, y: string, sep: string)
    requires |xs| >= 1
    ensures Join(xs + [y], sep) == Join(xs, sep) + sep + y
  {
    JoinAppend(xs, [y], sep);
  }

  /** Joining the pieces of a split with the separator gives the string back. */
  lemma {:induction false} JoinSplitOn(s: string, c: char)
    ensures Join(SplitOn(s, c), [c]) == s
    decreases |s|
  {
    var i := IndexOf(s, c);
    if i < |s| {
      var pre, rest := s[..i], s[i + 1..];
      var ps := SplitOn(rest, c);
      JoinSplitOn(rest, c);
      assert SplitOn(s, c) == [pre] + ps;
      JoinCons(pre, ps, [c]);
      Around(s, i);
    }
  }

  /** Splitting a join of separator-free pieces gives the pieces back. */
  lemma {:induction false} SplitOnJoin(ps: seq<string>, c: char)
    requires |ps| >= 1
    requires forall k :: 0 <= k < |ps| ==> c !in ps[k]
    ensures SplitOn(Join(ps, [c]), c) == ps
  {
    if |ps| == 1 {
      IndexOfAbsent(ps[0], c);
    } else {
      var rest := Join(ps[1..], [c]);
      assert Join(ps, [c]) == ps[0] + ([c] + rest);
      IndexOfAfter(ps[0], [c] + rest, c);
      assert (ps[0] + ([c] + rest))[|ps[0]| + 1..] == rest;
      assert (ps[0] + ([c] + rest))[..|ps[0]|] == ps[0];
      SplitOnJoin(ps[1..], c);
    }
  }

  /** The split of `pre + [c] + post`, when `pre` holds no `c`, starts with `pre`. */
  lemma SplitOnFirst(pre: string, post: string, c: char)
    requires c !in pre
    ensures SplitOn(pre + [c] + post, c) == [pre] + SplitOn(post, c)
  {
    var s := pre + [c] + post;
    assert s == pre + ([c] + post);
    IndexOfAfter(pre, [c] + post, c);
    assert s[..|pre|] == pre && s[|pre| + 1..] == post;
  }

  /** A split distributes over a separator placed between two strings. */
  lemma {:induction false} SplitOnConcat(a: string, b: string, c: char)
    ensures SplitOn(a + [c] + b, c) == SplitOn(a, c) + SplitOn(b, c)
    decreases |a|
  {
    var i := IndexOf(a, c);
    PrefixLacks(a, c);
    if i == |a| {
      assert a[..i] == a;
      SplitOnFirst(a, b, c);
    } else {
      var pre, a' := a[..i], a[i + 1..];
      Around(a, i);
      Regroup3(pre, c, a', b);
      SplitOnFirst(pre, a' + [c] + b, c);
      SplitOnFirst(pre, a', c);
      SplitOnConcat(a', b, c);
      Assoc([pre], SplitOn(a', c), SplitOn(b, c));
    }
  }

  // ---------------------------------------------------------------------
  // splitlines()

  /** The characters Python's `str.splitlines()` treats as line boundaries. */
  predicate IsLineBreak(ch: char) {
    ch == '\n' || ch == '\r' || ch == '\U{000B}' || ch == '\U{000C}' || ch == '\U{001C}'
    || ch == '\U{001D}' || ch == '\U{001E}' || ch == '\U{0085}' || ch == '\U{2028}' || ch == '\U{2029}'
  }

  predicate NoLineBreak(s: string) {
    forall k :: 0 <= k < |s| ==> !IsLineBreak(s[k])
  }

  predicate AllNoLineBreak(ls: seq<string>) {
    forall k :: 0 <= k < |ls| ==> NoLineBreak(ls[k])
  }

  function LineBreakIndex(s: string): (i: nat)
    ensures i <= |s|
    ensures i < |s| ==> IsLineBreak(s[i])
    ensures NoLineBreak(s[..i])
  {
    if s == [] then 0
    else if IsLineBreak(s[0]) then 0
    else
      var j := LineBreakIndex(s[1..]);
      assert s[..1 + j] == [s[0]] + s[1..][..j];
      1 + j
  }

  /** Python's `s.splitlines()`: no line keeps its boundary, `\r\n` is one
      boundary, and a final boundary opens no extra line. */
  function SplitLines(s: string): (r: seq<string>)
    ensures AllNoLineBreak(r)
    decreases |s|
  {
    if s == [] then []
    else
      var i := LineBreakIndex(s);
      if i == |s| then [s]
      else
        var j := if s[i] == '\r' && i + 1 < |s| && s[i + 1] == '\n' then i + 2 else i + 1;
        [s[..i]] + SplitLines(s[j..])
  }

  /** `splitlines` undoes `'\n'.join` of break-free lines whose last line is
      not empty. */
  lemma {:induction false} SplitLinesJoin(ls: seq<string>)
    requires AllNoLineBreak(ls)
    requires ls == [] || ls[|ls| - 1] != ""
    ensures SplitLines(Join(ls, "\n")) == ls
  {
    if |ls| == 1 {
      assert NoLineBreak(ls[0]);
    } else if |ls| > 1 {
      var x, rest := ls[0], Join(ls[1..], "\n");
      var s := x + "\n" + rest;
      assert Join(ls, "\n") == s;
      assert s[|x|] == '\n';
      assert forall k :: 0 <= k < |x| ==> s[k] == x[k];
      assert LineBreakIndex(s) == |x|;
      assert s[..|x|] == x;
      assert s[|x| + 1..] == rest;
      assert AllNoLineBreak(ls[1..]) by {
        forall k | 0 <= k < |ls[1..]| ensures NoLineBreak(ls[1..][k]) { assert ls[1..][k] == ls[k + 1]; }
      }
      SplitLinesJoin(ls[1..]);
    }
  }

  // ---------------------------------------------------------------------
  // Whitespace: strip, lstrip, rstrip and split()

  /** Python's `str.isspace()` for one character. */
  predicate IsSpace(ch: char) {
    ch == ' ' || ch == '\t' || IsLineBreak(ch) || ch == '\U{001F}' || ch == '\U{00A0}'
    || ch == '\U{1680}' || ('\U{2000}' <= ch <= '\U{200A}') || ch == '\U{202F}'
    || ch == '\U{205F}' || ch == '\U{3000}'
  }

  /** Python's `s.lstrip()`. */
  function LStrip(s: string): (r: string)
    ensures |r| <= |s|
    ensures r == [] || !IsSpace(r[0])
  {
    if s != [] && IsSpace(s[0]) then LStrip(s[1..]) else s
  }

  /** `lstrip` removes a prefix made only of whitespace. */
  lemma {:induction false} LStripSuffix(s: string)
    ensures LStrip(s) == s[|s| - |LStrip(s)|..]
    ensures forall k :: 0 <= k < |s| - |LStrip(s)| ==> IsSpace(s[k])
  {
    if s != [] && IsSpace(s[0]) {
      LStripSuffix(s[1..]);
    }
  }

  /** Python's `s.rstrip()`. */
  function RStrip(s: string): (r: string)
    ensures |r| <= |s|
    ensures r == [] || !IsSpace(r[|r| - 1])
  {
    if s != [] && IsSpace(s[|s| - 1]) then RStrip(s[..|s| - 1]) else s
  }

  /** `rstrip` removes a suffix made only of whitespace. */
  lemma {:induction false} RStripPrefix(s: string)
    ensures RStrip(s) == s[..|RStrip(s)|]
    ensures forall k :: |RStrip(s)| <= k < |s| ==> IsSpace(s[k])
  {
    if s != [] && IsSpace(s[|s| - 1]) {
      RStripPrefix(s[..|s| - 1]);
    }
  }

  /** Python's `s.strip()`. */
  function Strip(s: string): string {
    RStrip(LStrip(s))
  }

  /** Python's `s.rstrip('\r\n')`. */
  function RStripLineEnds(s: string): (r: string)
    ensures |r| <= |s|
    ensures r == [] || (r[|r| - 1] != '\r' && r[|r| - 1] != '\n')
  {
    if s != [] && (s[|s| - 1] == '\r' || s[|s| - 1] == '\n') then RStripLineEnds(s[..|s| - 1]) else s
  }

  /** `rstrip('\r\n')` removes a suffix made only of line ends. */
  lemma {:induction false} RStripLineEndsPrefix(s: string)
    ensures RStripLineEnds(s) == s[..|RStripLineEnds(s)|]
    ensures forall k :: |RStripLineEnds(s)| <= k < |s| ==> s[k] == '\r' || s[k] == '\n'
  {
    if s != [] && (s[|s| - 1] == '\r' || s[|s| - 1] == '\n') {
      RStripLineEndsPrefix(s[..|s| - 1]);
    }
  }

  predicate NoSpace(s: string) {
    forall k :: 0 <= k < |s| ==> !IsSpace(s[k])
  }

  function SpaceIndex(s: string): (i: nat)
    ensures i <= |s|
    ensures i < |s| ==> IsSpace(s[i])
    ensures NoSpace(s[..i])
  {
    if s == [] then 0
    else if IsSpace(s[0]) then 0
    else
      var j := SpaceIndex(s[1..]);
      assert s[..1 + j] == [s[0]] + s[1..][..j];
      1 + j
  }

  /** Python's `s.split()` without a separator: the maximal runs of
      non-whitespace characters, in order. */
  function SplitWhitespace(s: string): (r: seq<string>)
    ensures forall k :: 0 <= k < |r| ==> r[k] != "" && NoSpace(r[k])
    decreases |s|
  {
    var t := LStrip(s);
    if t == [] then []
    else
      var i := SpaceIndex(t);
      [t[..i]] + SplitWhitespace(t[i..])
  }

  // ---------------------------------------------------------------------
  // Decimal numbers: int() and str()

  predicate IsDigit(ch: char) { '0' <= ch <= '9' }

  predicate AllDigits(s: string) {
    forall k :: 0 <= k < |s| ==> IsDigit(s[k])
  }

  function DigitsValue(s: string): (n: nat)
    requires AllDigits(s)
  {
    if s == [] then 0 else DigitsValue(s[..|s| - 1]) * 10 + (s[|s| - 1] as int - '0' as int)
  }

  /** Python's `int(s)` on a decimal literal: surrounding whitespace and one
      sign are accepted; anything else raises `ValueError`, here `None`. */
  function ParseInt(s: string): (r: Option<int>)
    ensures r.Some? && r.value < 0 ==> '-' in s
  {
    var t := Strip(s);
    var signed := |t| > 0 && (t[0] == '-' || t[0] == '+');
    var digits := if signed then t[1..] else t;
    if digits != [] && AllDigits(digits) then
      var n := DigitsValue(digits);
      if signed && t[0] == '-' then
        assert '-' in s by {
          var l := LStrip(s);
          LStripSuffix(s);
          RStripPrefix(l);
          assert t == l[..|t|];
          assert l[0] == s[|s| - |l|];
        }
        Some(0 - n as int)
      else Some(n)
    else None
  }

  function DigitChar(d: nat): (c: char)
    requires d < 10
    ensures IsDigit(c)
  {
    ('0' as int + d) as char
  }

  /** Python's `str(n)` (an f-string field) for a natural number. */
  function NatToString(n: nat): (r: string)
    ensures r != [] && AllDigits(r)
  {
    if n < 10 then [DigitChar(n)] else NatToString(n / 10) + [DigitChar(n % 10)]
  }

  lemma {:induction false} DigitsValueOfNatToString(n: nat)
    ensures DigitsValue(NatToString(n)) == n
  {
    if n >= 10 {
      var s := NatToString(n);
      assert s[..|s| - 1] == NatToString(n / 10);
      DigitsValueOfNatToString(n / 10);
    }
  }

  lemma StripDigits(s: string)
    requires AllDigits(s)
    ensures Strip(s) == s
  {
    if s != [] {
      assert IsDigit(s[0]) && IsDigit(s[|s| - 1]);
      assert LStrip(s) == s;
      assert RStrip(s) == s;
    }
  }

  /** `int(str(n)) == n`: a printed counter reads back as itself. */
  lemma ParseNatToString(n: nat)
    ensures ParseInt(NatToString(n)) == Some(n)
  {
    var s := NatToString(n);
    StripDigits(s);
    DigitsValueOfNatToString(n);
    assert IsDigit(s[0]);
  }
}
