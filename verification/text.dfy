/**
 String helpers shared by the model of `lid/lid.py`: the whitespace class of
 Python 2 byte strings, the run-collapsing rewrite behind `re.sub("C+", rep, s)`,
 `str.strip()` and `" ".join(...)`.
 */
module Text {

  /** The characters `\s` and `str.strip()` treat as whitespace on a Python 2 byte string. */
  predicate IsWhitespace(c: char) {
    c == ' ' || c == '\t' || c == '\n' || c == '\r' || c == '\U{0B}' || c == '\U{0C}'
  }

  /** The two character classes the source rewrites runs of: "\n" and "\s". */
  datatype CharClass = Newlines | Whitespace

  predicate InClass(cls: CharClass, c: char) {
    match cls
    case Newlines => c == '\n'
    case Whitespace => IsWhitespace(c)
  }

  /**
   Replaces every maximal run of `cls` characters by the single character `rep`,
   which is what `re.sub` does with the pattern "C+" for a character class C.
   */
  function CollapseRuns(cls: CharClass, rep: char, s: string): string {
    Scan(cls, rep, s, false)
  }

  /**
   The left-to-right scan behind `CollapseRuns`; `inRun` says that the
   character before `s` belonged to a run already replaced by `rep`.
   */
  function Scan(cls: CharClass, rep: char, s: string, inRun: bool): (r: string)
    ensures |r| <= |s|
  {
    if |s| == 0 then []
    else if InClass(cls, s[0]) then
      (if inRun then [] else [rep]) + Scan(cls, rep, s[1..], true)
    else [s[0]] + Scan(cls, rep, s[1..], false)
  }

  /** Positions `i` and `i + 1` of `s` both hold `cls` characters. */
  predicate AdjacentInClass(cls: CharClass, s: string, i: nat)
    requires i + 1 < |s|
  {
    InClass(cls, s[i]) && InClass(cls, s[i + 1])
  }

  /** `s` has the shape collapsing produces: its `cls` characters are all `rep`, never two in a row. */
  predicate Collapsed(cls: CharClass, rep: char, s: string) {
    && (forall i :: 0 <= i < |s| && InClass(cls, s[i]) ==> s[i] == rep)
    && (forall i :: 0 <= i < |s| - 1 ==> !AdjacentInClass(cls, s, i))
  }

  lemma {:induction false} ScanShape(cls: CharClass, rep: char, s: string, inRun: bool)
    ensures Collapsed(cls, rep, Scan(cls, rep, s, inRun))
    ensures inRun && Scan(cls, rep, s, inRun) != [] ==> !InClass(cls, Scan(cls, rep, s, inRun)[0])
    decreases |s|
  {
    if |s| > 0 {
      var r := Scan(cls, rep, s, inRun);
      var inClass := InClass(cls, s[0]);
      var head := if inClass then (if inRun then [] else [rep]) else [s[0]];
      var rt := Scan(cls, rep, s[1..], inClass);
      ScanShape(cls, rep, s[1..], inClass);
      assert r == head + rt;
      forall i | 0 <= i < |r| && InClass(cls, r[i]) ensures r[i] == rep {
        if i >= |head| {
          assert r[i] == rt[i - |head|];
        }
      }
      forall i | 0 <= i < |r| - 1 ensures !AdjacentInClass(cls, r, i) {
        if i >= |head| {
          assert !AdjacentInClass(cls, rt, i - |head|);
        }
      }
    }
  }

  /** Every result of collapsing is collapsed: `cls` characters are all `rep`, never two in a row. */
  lemma CollapseShape(cls: CharClass, rep: char, s: string)
    ensures Collapsed(cls, rep, CollapseRuns(cls, rep, s))
  {
    ScanShape(cls, rep, s, false);
  }

  lemma {:induction false} ScanFixes(cls: CharClass, rep: char, s: string, inRun: bool)
    requires InClass(cls, rep) && Collapsed(cls, rep, s)
    requires inRun && s != [] ==> !InClass(cls, s[0])
    ensures Scan(cls, rep, s, inRun) == s
    decreases |s|
  {
    if |s| > 0 {
      assert Collapsed(cls, rep, s[1..]) by {
        forall i | 0 <= i < |s[1..]| - 1
          ensures !AdjacentInClass(cls, s[1..], i)
        {
          assert !AdjacentInClass(cls, s, i + 1);
        }
      }
      if InClass(cls, s[0]) && |s| > 1 {
        assert !AdjacentInClass(cls, s, 0);
      }
      ScanFixes(cls, rep, s[1..], InClass(cls, s[0]));
    }
  }

  /** A string is left unchanged by collapsing exactly when it is already collapsed. */
  lemma CollapseFixpoint(cls: CharClass, rep: char, s: string)
    requires InClass(cls, rep)
    ensures CollapseRuns(cls, rep, s) == s <==> Collapsed(cls, rep, s)
  {
    CollapseShape(cls, rep, s);
    if Collapsed(cls, rep, s) {
      ScanFixes(cls, rep, s, false);
    }
  }

  /** Collapsing twice is collapsing once. */
  lemma CollapseIdempotent(cls: CharClass, rep: char, s: string)
    requires InClass(cls, rep)
    ensures CollapseRuns(cls, rep, CollapseRuns(cls, rep, s)) == CollapseRuns(cls, rep, s)
  {
    CollapseShape(cls, rep, s);
    ScanFixes(cls, rep, CollapseRuns(cls, rep, s), false);
  }

  /** Whether the scan is inside a run after reading `x`: `x` ends with a `cls` character. */
  function StateAfter(cls: CharClass, x: string, inRun: bool): bool {
    if |x| == 0 then inRun else InClass(cls, x[|x| - 1])
  }

  /** The scan of `x + y` is the scan of `x` followed by the scan of `y` from the state `x` leaves. */
  lemma {:induction false} ScanAppend(cls: CharClass, rep: char, x: string, y: string, inRun: bool)
    ensures Scan(cls, rep, x + y, inRun)
         == Scan(cls, rep, x, inRun) + Scan(cls, rep, y, StateAfter(cls, x, inRun))
    decreases |x|
  {
    if |x| == 0 {
      assert x + y == y;
    } else {
      var xs := x[1..];
      var c := InClass(cls, x[0]);
      ScanAppend(cls, rep, xs, y, c);
      assert StateAfter(cls, xs, c) == StateAfter(cls, x, inRun) by {
        if |xs| > 0 {
          assert xs[|xs| - 1] == x[|x| - 1];
        }
      }
      var sy := Scan(cls, rep, y, StateAfter(cls, x, inRun));
      var sxs := Scan(cls, rep, xs, c);
      var head := if c then (if inRun then [] else [rep]) else [x[0]];
      assert Scan(cls, rep, x + y, inRun) == head + Scan(cls, rep, xs + y, c) by {
        assert (x + y)[1..] == xs + y;
        assert (x + y)[0] == x[0];
      }
      assert Scan(cls, rep, x, inRun) == head + sxs;
      Associative(head, sxs, sy);
    }
  }

  /** A run of `cls` characters scanned on its own yields one `rep`, or nothing when already inside a run. */
  lemma {:induction false} ScanRun(cls: CharClass, rep: char, w: string, inRun: bool)
    requires forall i :: 0 <= i < |w| ==> InClass(cls, w[i])
    ensures Scan(cls, rep, w, inRun) == (if inRun || |w| == 0 then [] else [rep])
    decreases |w|
  {
    if |w| > 0 {
      assert InClass(cls, w[0]);
      assert forall i :: 0 <= i < |w[1..]| ==> InClass(cls, w[1..][i]) by {
        forall i | 0 <= i < |w[1..]| ensures InClass(cls, w[1..][i]) {
          assert w[1..][i] == w[i + 1];
        }
      }
      ScanRun(cls, rep, w[1..], true);
    }
  }

  /** A non-empty run of `cls` characters is replaced by exactly one `rep`. */
  lemma CollapseRun(cls: CharClass, rep: char, w: string)
    requires |w| > 0
    requires forall i :: 0 <= i < |w| ==> InClass(cls, w[i])
    ensures CollapseRuns(cls, rep, w) == [rep]
  {
    ScanRun(cls, rep, w, false);
  }

  /**
   Collapsing works run by run: it distributes over any split point that does
   not fall inside a run, that is, where `x` does not end or `y` does not start
   with a `cls` character.
   */
  lemma CollapseAppend(cls: CharClass, rep: char, x: string, y: string)
    requires || x == [] || !InClass(cls, x[|x| - 1])
             || y == [] || !InClass(cls, y[0])
    ensures CollapseRuns(cls, rep, x + y) == CollapseRuns(cls, rep, x) + CollapseRuns(cls, rep, y)
  {
    ScanAppend(cls, rep, x, y, false);
    if y != [] {
      assert Scan(cls, rep, y, StateAfter(cls, x, false)) == Scan(cls, rep, y, false);
    }
  }

  /** The two-space gap of `"a  b"` becomes one space, as `re.sub("\s+", " ", ...)` gives. */
  lemma CollapseExample()
    ensures CollapseRuns(Whitespace, ' ', "a  b") == "a b"
  {
    CollapseAppend(Whitespace, ' ', "a", "  b");
    CollapseAppend(Whitespace, ' ', "  ", "b");
    CollapseRun(Whitespace, ' ', "  ");
    assert "a" + "  b" == "a  b";
    assert "  " + "b" == "  b";
  }

  /** The characters of `s` outside `cls`, in order. */
  function Others(cls: CharClass, s: string): string {
    if |s| == 0 then []
    else if InClass(cls, s[0]) then Others(cls, s[1..])
    else [s[0]] + Others(cls, s[1..])
  }

  lemma {:induction false} ScanKeepsOthers(cls: CharClass, rep: char, s: string, inRun: bool)
    requires InClass(cls, rep)
    ensures Others(cls, Scan(cls, rep, s, inRun)) == Others(cls, s)
    decreases |s|
  {
    if |s| > 0 {
      var inClass := InClass(cls, s[0]);
      var head := if inClass then (if inRun then [] else [rep]) else [s[0]];
      var rt := Scan(cls, rep, s[1..], inClass);
      ScanKeepsOthers(cls, rep, s[1..], inClass);
      assert Scan(cls, rep, s, inRun) == head + rt;
      if head != [] {
        assert (head + rt)[0] == head[0];
        assert (head + rt)[1..] == rt;
        assert Others(cls, head + rt) == Others(cls, head) + Others(cls, rt);
      } else {
        assert head + rt == rt;
      }
      assert Others(cls, Scan(cls, rep, s, inRun)) == Others(cls, head) + Others(cls, rt);
      assert Others(cls, s) == Others(cls, head) + Others(cls, s[1..]);
    }
  }

  /** Collapsing keeps every character outside the class, in order, when `rep` is itself in the class. */
  lemma CollapseKeepsOthers(cls: CharClass, rep: char, s: string)
    requires InClass(cls, rep)
    ensures Others(cls, CollapseRuns(cls, rep, s)) == Others(cls, s)
  {
    ScanKeepsOthers(cls, rep, s, false);
  }

  /**
   A newline scan that is inside a run sits inside a whitespace run too, since
   its last output was a tab; from there the whitespace scan cannot tell the two apart.
   */
  lemma {:induction false} NewlineScanSubsumed(s: string, nlRun: bool, wsRun: bool)
    requires nlRun ==> wsRun
    ensures Scan(Whitespace, ' ', Scan(Newlines, '\t', s, nlRun), wsRun) == Scan(Whitespace, ' ', s, wsRun)
    decreases |s|
  {
    if |s| > 0 {
      var isNl := s[0] == '\n';
      var rest := Scan(Newlines, '\t', s[1..], isNl);
      var head := if isNl then (if nlRun then [] else ['\t']) else [s[0]];
      assert Scan(Newlines, '\t', s, nlRun) == head + rest;
      var wsNext := IsWhitespace(s[0]);
      NewlineScanSubsumed(s[1..], isNl, wsNext);
      var tail := Scan(Whitespace, ' ', s[1..], wsNext);
      assert Scan(Whitespace, ' ', s, wsRun) == (if wsNext && wsRun then [] else [if wsNext then ' ' else s[0]]) + tail;
      if head != [] {
        assert (head + rest)[0] == head[0];
        assert (head + rest)[1..] == rest;
        assert Scan(Whitespace, ' ', head + rest, wsRun)
            == (if wsNext && wsRun then [] else [if wsNext then ' ' else s[0]]) + Scan(Whitespace, ' ', rest, wsNext);
      } else {
        assert head + rest == rest;
        assert wsNext && wsRun;
      }
    }
  }

  /**
   Turning runs of newlines into one tab before collapsing whitespace changes
   nothing: the whitespace collapse alone gives the same string.
   */
  lemma NewlineStepSubsumed(s: string)
    ensures CollapseRuns(Whitespace, ' ', CollapseRuns(Newlines, '\t', s))
         == CollapseRuns(Whitespace, ' ', s)
  {
    NewlineScanSubsumed(s, false, false);
  }

  /** Number of leading whitespace characters of `s`. */
  function LeadingWhitespace(s: string): (n: nat)
    ensures n <= |s|
    ensures forall i :: 0 <= i < n ==> IsWhitespace(s[i])
    ensures n < |s| ==> !IsWhitespace(s[n])
  {
    if |s| > 0 && IsWhitespace(s[0]) then 1 + LeadingWhitespace(s[1..]) else 0
  }

  /** Length of `s` once its trailing whitespace is removed. */
  function TrailingCut(s: string): (n: nat)
    ensures n <= |s|
    ensures forall i :: n <= i < |s| ==> IsWhitespace(s[i])
    ensures n > 0 ==> !IsWhitespace(s[n - 1])
  {
    if |s| > 0 && IsWhitespace(s[|s| - 1]) then TrailingCut(s[..|s| - 1]) else |s|
  }

  /** Python 2 `str.strip()` with no argument. */
  function Strip(s: string): (r: string)
    ensures LeadingWhitespace(s) + |r| <= |s|
    ensures r == s[LeadingWhitespace(s)..LeadingWhitespace(s) + |r|]
    ensures forall i :: LeadingWhitespace(s) + |r| <= i < |s| ==> IsWhitespace(s[i])
    ensures r == [] <==> forall i :: 0 <= i < |s| ==> IsWhitespace(s[i])
    ensures r != [] ==> !IsWhitespace(r[0]) && !IsWhitespace(r[|r| - 1])
  {
    var t := s[LeadingWhitespace(s)..];
    var r := t[..TrailingCut(t)];
    assert r == s[LeadingWhitespace(s)..LeadingWhitespace(s) + |r|];
    r
  }

  /** Stripping twice is stripping once. */
  lemma {:induction false} StripIdempotent(s: string)
    ensures Strip(Strip(s)) == Strip(s)
  {
    var r := Strip(s);
    if r != [] {
      assert LeadingWhitespace(r) == 0;
      assert TrailingCut(r) == |r|;
      assert r[0..] == r;
    }
  }

  /** `sep.join(parts)` for a one-character separator. */
  function Join(parts: seq<string>, sep: char): string
    decreases |parts|
  {
    if |parts| == 0 then ""
    else if |parts| == 1 then parts[0]
    else parts[0] + [sep] + Join(parts[1..], sep)
  }

  /** `"".join(parts)`. */
  function Concat(parts: seq<string>): string {
    if |parts| == 0 then "" else parts[0] + Concat(parts[1..])
  }

  /** Position of the first `c` in `s`. */
  function IndexOf(s: string, c: char): (i: nat)
    requires c in s
    ensures i < |s| && s[i] == c && c !in s[..i]
  {
    if s[0] == c then 0 else 1 + IndexOf(s[1..], c)
  }

  /** `s.split(sep)` for a one-character separator: the reference inverse of `Join`. */
  function Split(s: string, sep: char): (parts: seq<string>)
    ensures |parts| >= 1
    decreases |s|
  {
    if sep !in s then [s]
    else
      var i := IndexOf(s, sep);
      [s[..i]] + Split(s[i + 1..], sep)
  }

  lemma {:induction false} SplitAfterPart(a: string, sep: char, b: string)
    requires sep !in a
    ensures Split(a + [sep] + b, sep) == [a] + Split(b, sep)
  {
    var s := a + [sep] + b;
    assert s[|a|] == sep;
    var i := IndexOf(s, sep);
    assert s[..|a|] == a;
    assert s[..i] == a;
    assert s[i + 1..] == b;
  }

  /** Splitting the joined text gives the parts back when no part contains the separator. */
  lemma {:induction false} SplitJoin(parts: seq<string>, sep: char)
    requires |parts| >= 1
    requires forall i :: 0 <= i < |parts| ==> sep !in parts[i]
    ensures Split(Join(parts, sep), sep) == parts
    decreases |parts|
  {
    if |parts| == 1 {
      assert Join(parts, sep) == parts[0];
    } else {
      var rest := parts[1..];
      assert forall i :: 0 <= i < |rest| ==> sep !in rest[i] by {
        forall i | 0 <= i < |rest| ensures sep !in rest[i] {
          assert rest[i] == parts[i + 1];
        }
      }
      SplitJoin(rest, sep);
      assert Join(parts, sep) == parts[0] + [sep] + Join(rest, sep);
      SplitAfterPart(parts[0], sep, Join(rest, sep));
      assert parts == [parts[0]] + rest;
    }
  }

  /** The first step of `Split` when `x` holds the separator. */
  lemma SplitAtFirst(x: string, sep: char)
    requires sep in x
    ensures var i := IndexOf(x, sep);
      && x == x[..i] + [sep] + x[i + 1..]
      && sep !in x[..i]
      && Split(x, sep) == [x[..i]] + Split(x[i + 1..], sep)
  {
  }

  /**
   One step of `SplitAppend`: a first part `a` free of the separator comes
   off both sides alike, leaving `b` to split against `y`.
   */
  lemma SplitAppendStep(a: string, b: string, sep: char, y: string)
    requires sep !in a
    requires Split(b + [sep] + y, sep) == Split(b, sep) + Split(y, sep)
    ensures Split(a + [sep] + b + [sep] + y, sep) == Split(a + [sep] + b, sep) + Split(y, sep)
  {
    var rest := b + [sep] + y;
    var pb, py := Split(b, sep), Split(y, sep);
    Regroup(a + [sep], b, [sep], y);
    SplitAfterPart(a, sep, rest);
    SplitAfterPart(a, sep, b);
    Associative([a], pb, py);
  }

  /** Regrouping a concatenation of four sequences. */
  lemma Regroup<T>(p: seq<T>, q: seq<T>, r: seq<T>, s: seq<T>)
    ensures p + q + r + s == p + (q + r + s)
  {
  }

  /** Concatenation of sequences is associative. */
  lemma Associative<T>(p: seq<T>, q: seq<T>, r: seq<T>)
    ensures p + q + r == p + (q + r)
  {
  }

  /** Splitting at a separator placed between `x` and `y` splits each side on its own. */
  lemma {:induction false} SplitAppend(x: string, sep: char, y: string)
    ensures Split(x + [sep] + y, sep) == Split(x, sep) + Split(y, sep)
    decreases |x|
  {
    if sep !in x {
      SplitAfterPart(x, sep, y);
    } else {
      var i := IndexOf(x, sep);
      var a, b := x[..i], x[i + 1..];
      assert x == a + [sep] + b && sep !in a by {
        SplitAtFirst(x, sep);
      }
      SplitAppend(b, sep, y);
      SplitAppendStep(a, b, sep, y);
    }
  }

  /** The parts of every string of `ss` split at `sep`, one after another. */
  function SplitAll(ss: seq<string>, sep: char): seq<string> {
    if |ss| == 0 then [] else Split(ss[0], sep) + SplitAll(ss[1..], sep)
  }

  /**
   Splitting a joined text gives the parts of each joined string in order,
   whatever the strings hold; the empty list is joined to "", which splits to [""].
   */
  lemma {:induction false} SplitJoinAll(ss: seq<string>, sep: char)
    requires |ss| >= 1
    ensures Split(Join(ss, sep), sep) == SplitAll(ss, sep)
    decreases |ss|
  {
    if |ss| == 1 {
      assert Join(ss, sep) == ss[0];
      assert SplitAll(ss[1..], sep) == [];
    } else {
      SplitJoinAll(ss[1..], sep);
      assert Join(ss, sep) == ss[0] + [sep] + Join(ss[1..], sep);
      SplitAppend(ss[0], sep, Join(ss[1..], sep));
    }
  }
}
