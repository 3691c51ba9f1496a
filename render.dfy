/**
 * The row selection behind the listing commands `ls`, `cat` and `grep`.
 * Each returns the rows it would print instead of printing them; the
 * printf-style formatting of a row is not part of this model.
 */
module Render {
  import opened Profile

  datatype Option<T> = None | Some(value: T)

  /** What `ls` prints for a file: its 0-based position, duration and name. */
  datatype FileRow = FileRow(index: nat, duration: real, fileName: string)

  /** What `cat` and `grep` print for a line. */
  datatype LineRow = LineRow(duration: real, hits: nat, lineNo: nat, text: string)

  function RowOf(l: LineProfile): LineRow
  {
    LineRow(l.duration, l.hits, l.lineNo, l.line)
  }

  function RowsOf(lines: seq<LineProfile>): (rows: seq<LineRow>)
    ensures |rows| == |lines|
    ensures forall k :: 0 <= k < |rows| ==> rows[k] == RowOf(lines[k])
  {
    seq(|lines|, k requires 0 <= k < |lines| => RowOf(lines[k]))
  }

  // ---------------------------------------------------------------- ls

  /** The number of leading files whose duration reaches t: `ls` stops at the first one that does not. */
  function ListedCount(files: seq<FileProfile>, t: real): (n: nat)
    ensures n <= |files|
    ensures forall i :: 0 <= i < n ==> files[i].duration >= t
    ensures n < |files| ==> files[n].duration < t
  {
    if files == [] || files[0].duration < t then 0
    else 1 + ListedCount(files[1..], t)
  }

  predicate SortedDescending(files: seq<FileProfile>)
  {
    forall i, j :: 0 <= i < j < |files| ==> files[i].duration >= files[j].duration
  }

  /**
   * On a run whose files are sorted by duration, longest first, the files
   * `ls` lists are exactly those whose duration reaches the threshold.
   */
  lemma ListedWhenSorted(files: seq<FileProfile>, t: real)
    requires SortedDescending(files)
    ensures forall i :: 0 <= i < |files| ==> (i < ListedCount(files, t) <==> files[i].duration >= t)
  {
  }

  /** On an unsorted run `ls` can stop before a file that reaches the threshold. */
  lemma ListedStopsEarly(a: FileProfile, b: FileProfile)
    requires a.duration < 1.0 <= b.duration
    ensures ListedCount([a, b], 1.0) == 0
  {
  }

  /** `ls(t)`: one row per file, in order, until the first file below t. */
  method Ls(run: ProfileRun, t: real) returns (rows: seq<FileRow>)
    ensures |rows| == ListedCount(run.files, t)
    ensures forall i :: 0 <= i < |rows| ==> rows[i] == FileRow(i, run.files[i].duration, run.files[i].fileName)
  {
    rows := [];
    var i := 0;
    while i < |run.files|
      invariant 0 <= i <= |run.files|
      invariant |rows| == i
      invariant forall k :: 0 <= k < i ==> run.files[k].duration >= t
      invariant forall k :: 0 <= k < i ==> rows[k] == FileRow(k, run.files[k].duration, run.files[k].fileName)
    {
      var f := run.files[i];
      if f.duration >= t {
        rows := rows + [FileRow(i, f.duration, f.fileName)];
      } else {
        break;
      }
      i := i + 1;
    }
    ListedCountIsPrefix(run.files, t, i);
  }

  /** The prefix characterization pins ListedCount down. */
  lemma {:induction false} ListedCountIsPrefix(files: seq<FileProfile>, t: real, n: nat)
    requires n <= |files|
    requires forall k :: 0 <= k < n ==> files[k].duration >= t
    requires n < |files| ==> files[n].duration < t
    ensures ListedCount(files, t) == n
  {
    if n > 0 {
      assert forall k :: 0 <= k < n - 1 ==> files[1..][k] == files[k + 1];
      ListedCountIsPrefix(files[1..], t, n - 1);
    }
  }

  // ---------------------------------------------------------------- cat

  /** `cat` prints the line at 0-based position i when `i >= from - 1` and, unless `to < 0`, `i <= to - 1`. */
  predicate InCatRange(i: int, from: int, to: int)
  {
    i >= from - 1 && (to < 0 || i <= to - 1)
  }

  /** The rows of the lines whose position is in range, in order. */
  function CatRows(lines: seq<LineProfile>, from: int, to: int): seq<LineRow>
  {
    if lines == [] then []
    else
      var i := |lines| - 1;
      CatRows(lines[..i], from, to) + (if InCatRange(i, from, to) then [RowOf(lines[i])] else [])
  }

  function Max(a: int, b: int): int { if a < b then b else a }
  function Min(a: int, b: int): int { if a < b then a else b }

  /** First position `cat` prints, clipped to the file. */
  function CatLow(n: nat, from: int): (lo: nat)
    ensures lo <= n
  {
    Min(n, Max(0, from - 1))
  }

  /** One past the last position `cat` prints, clipped to the file and never below CatLow. */
  function CatHigh(n: nat, from: int, to: int): (hi: nat)
    ensures CatLow(n, from) <= hi <= n
  {
    if to < 0 then n else Max(CatLow(n, from), Min(n, to))
  }

  /**
   * How the printed slice grows by one position: by that position when it
   * is in range, and otherwise not at all (an empty slice may move).
   */
  lemma CatBoundsStep(i: nat, from: int, to: int)
    ensures InCatRange(i, from, to) ==>
      CatLow(i + 1, from) == CatLow(i, from) && CatHigh(i + 1, from, to) == i + 1 && CatHigh(i, from, to) == i
    ensures !InCatRange(i, from, to) ==>
      (CatLow(i + 1, from) == CatHigh(i + 1, from, to) && CatLow(i, from) == CatHigh(i, from, to)) ||
      (CatLow(i + 1, from) == CatLow(i, from) && CatHigh(i + 1, from, to) == CatHigh(i, from, to))
  {
  }

  lemma RowsOfSnoc(lines: seq<LineProfile>, lo: nat, hi: nat)
    requires lo <= hi < |lines|
    ensures RowsOf(lines[lo..hi + 1]) == RowsOf(lines[lo..hi]) + [RowOf(lines[hi])]
  {
  }

  /** One more line extends the rows of the printed slice by that line's row exactly when it is in range. */
  lemma CatSliceStep(lines: seq<LineProfile>, from: int, to: int)
    requires lines != []
    ensures var i := |lines| - 1;
      RowsOf(lines[..i][CatLow(i, from)..CatHigh(i, from, to)]) +
        (if InCatRange(i, from, to) then [RowOf(lines[i])] else [])
      == RowsOf(lines[CatLow(|lines|, from)..CatHigh(|lines|, from, to)])
  {
    var i := |lines| - 1;
    var init := lines[..i];
    CatBoundsStep(i, from, to);
    var lo, hi := CatLow(|lines|, from), CatHigh(|lines|, from, to);
    var lo', hi' := CatLow(i, from), CatHigh(i, from, to);
    assert hi' <= i;
    assert forall k :: 0 <= k < hi' - lo' ==> init[lo'..hi'][k] == lines[lo'..hi'][k];
    assert init[lo'..hi'] == lines[lo'..hi'];
    if InCatRange(i, from, to) {
      RowsOfSnoc(lines, lo', hi');
      assert lo' == lo && hi' + 1 == hi;
    } else if lo == hi {
      assert lines[lo..hi] == [] && init[lo'..hi'] == [];
    } else {
      assert lines[lo..hi] == init[lo'..hi'];
    }
  }

  /**
   * The 1-based inclusive range [from, to] selects one contiguous slice of
   * the file: `to < 0` reaches the end, `from <= 1` starts at the top.
   */
  lemma {:induction false} CatRowsSlice(lines: seq<LineProfile>, from: int, to: int)
    ensures CatRows(lines, from, to) == RowsOf(lines[CatLow(|lines|, from)..CatHigh(|lines|, from, to)])
  {
    if lines != [] {
      CatRowsSlice(lines[..|lines| - 1], from, to);
      CatSliceStep(lines, from, to);
    }
  }

  /** Every position of the slice is one `cat` prints. */
  lemma CatSliceInRange(n: nat, from: int, to: int)
    ensures forall i :: CatLow(n, from) <= i < CatHigh(n, from, to) ==> InCatRange(i, from, to)
  {
  }

  /**
   * `cat(desc, from, to)`: resolves the file (its errors propagate) and
   * prints the lines in range; each row carries the raw source text.
   */
  method Cat(run: ProfileRun, desc: Descriptor, from: int, to: int) returns (r: Result<seq<LineRow>>)
    ensures ResolveFile(run, desc).Err? ==> r == Err(ResolveFile(run, desc).error)
    ensures ResolveFile(run, desc).Ok? ==>
      var lines := ResolveFile(run, desc).value.1.lines;
      && r == Ok(RowsOf(lines[CatLow(|lines|, from)..CatHigh(|lines|, from, to)]))
      && forall k :: 0 <= k < |r.value| ==>
           r.value[k].text == lines[CatLow(|lines|, from) + k].line &&
           InCatRange(CatLow(|lines|, from) + k, from, to)
  {
    var resolved := ResolveFile(run, desc);
    if resolved.Err? {
      return Err(resolved.error);
    }
    var lines := resolved.value.1.lines;
    var rows: seq<LineRow> := [];
    var i := 0;
    while i < |lines|
      invariant 0 <= i <= |lines|
      invariant rows == CatRows(lines[..i], from, to)
    {
      assert lines[..i + 1][..i] == lines[..i];
      if i >= from - 1 && (to < 0 || i <= to - 1) {
        rows := rows + [RowOf(lines[i])];
      }
      i := i + 1;
    }
    assert lines[..i] == lines;
    CatRowsSlice(lines, from, to);
    CatSliceInRange(|lines|, from, to);
    r := Ok(rows);
  }

  // ---------------------------------------------------------------- grep

  /** A row `grep` prints: a file header `# file[i]: name`, or a matching line. */
  datatype GrepRow = Header(index: int, fileName: string) | Match(row: LineRow)

  /** The rows of the lines the anchored pattern matches, in order. */
  function MatchRows(lines: seq<LineProfile>, pattern: string, m: Matcher): seq<LineRow>
  {
    if lines == [] then []
    else
      var i := |lines| - 1;
      MatchRows(lines[..i], pattern, m) + (if m(pattern, lines[i].line) then [RowOf(lines[i])] else [])
  }

  /** The rows for one file: a header before the first match, then the matches; nothing when no line matches. */
  function GrepFile(index: int, f: FileProfile, pattern: string, m: Matcher): seq<GrepRow>
  {
    var matches := MatchRows(f.lines, pattern, m);
    if matches == [] then [] else [Header(index, f.fileName)] + seq(|matches|, k requires 0 <= k < |matches| => Match(matches[k]))
  }

  /** The rows for several files, file after file. */
  function GrepRows(targets: seq<(int, FileProfile)>, pattern: string, m: Matcher): seq<GrepRow>
  {
    if targets == [] then []
    else
      var n := |targets| - 1;
      GrepRows(targets[..n], pattern, m) + GrepFile(targets[n].0, targets[n].1, pattern, m)
  }

  /** The files `grep` searches: the one the descriptor resolves to, or every file with its position. */
  function GrepTargets(run: ProfileRun, desc: Option<Descriptor>): (r: Result<seq<(int, FileProfile)>>)
    ensures desc.None? ==>
      (r.Ok? && |r.value| == |run.files| && forall i :: 0 <= i < |run.files| ==> r.value[i] == (i, run.files[i]))
    ensures desc.Some? ==> r == (match ResolveFile(run, desc.value) case Err(e) => Err(e) case Ok(x) => Ok([x]))
  {
    match desc
    case None => Ok(seq(|run.files|, i requires 0 <= i < |run.files| => (i, run.files[i])))
    case Some(d) =>
      match ResolveFile(run, d)
      case Err(e) => Err(e)
      case Ok(x) => Ok([x])
  }

  /** A line is matched exactly when the pattern matches its text at position 0. */
  lemma {:induction false} MatchRowsMeaning(lines: seq<LineProfile>, pattern: string, m: Matcher)
    ensures |MatchRows(lines, pattern, m)| <= |lines|
    ensures forall row :: row in MatchRows(lines, pattern, m) <==>
      exists j :: 0 <= j < |lines| && m(pattern, lines[j].line) && row == RowOf(lines[j])
  {
    if lines != [] {
      var i := |lines| - 1;
      var init := lines[..i];
      MatchRowsMeaning(init, pattern, m);
      assert forall j :: 0 <= j < i ==> init[j] == lines[j];
      forall row ensures row in MatchRows(lines, pattern, m) <==>
        exists j :: 0 <= j < |lines| && m(pattern, lines[j].line) && row == RowOf(lines[j])
      {
        if exists j :: 0 <= j < |lines| && m(pattern, lines[j].line) && row == RowOf(lines[j]) {
          var j :| 0 <= j < |lines| && m(pattern, lines[j].line) && row == RowOf(lines[j]);
          if j < i {
            assert row in MatchRows(init, pattern, m);
          }
        }
      }
    }
  }

  /** Counts the header rows. */
  function Headers(rows: seq<GrepRow>): nat
  {
    if rows == [] then 0 else Headers(rows[..|rows| - 1]) + (if rows[|rows| - 1].Header? then 1 else 0)
  }

  lemma {:induction false} HeadersAppend(a: seq<GrepRow>, b: seq<GrepRow>)
    ensures Headers(a + b) == Headers(a) + Headers(b)
    decreases |b|
  {
    if b == [] {
      assert a + b == a;
    } else {
      assert (a + b)[..|a + b| - 1] == a + b[..|b| - 1];
      HeadersAppend(a, b[..|b| - 1]);
    }
  }

  /** Counts the targets with at least one matching line. */
  function FilesWithMatches(targets: seq<(int, FileProfile)>, pattern: string, m: Matcher): nat
  {
    if targets == [] then 0
    else
      var n := |targets| - 1;
      FilesWithMatches(targets[..n], pattern, m) + (if MatchRows(targets[n].1.lines, pattern, m) != [] then 1 else 0)
  }

  /** One file's rows: a single header first when some line matches, then only matches. */
  lemma GrepFileShape(index: int, f: FileProfile, pattern: string, m: Matcher)
    ensures GrepFile(index, f, pattern, m) == [] <==> MatchRows(f.lines, pattern, m) == []
    ensures GrepFile(index, f, pattern, m) != [] ==>
      GrepFile(index, f, pattern, m)[0] == Header(index, f.fileName) &&
      |GrepFile(index, f, pattern, m)| == |MatchRows(f.lines, pattern, m)| + 1 &&
      forall k :: 1 <= k < |GrepFile(index, f, pattern, m)| ==>
        GrepFile(index, f, pattern, m)[k] == Match(MatchRows(f.lines, pattern, m)[k - 1])
    ensures Headers(GrepFile(index, f, pattern, m)) == if MatchRows(f.lines, pattern, m) == [] then 0 else 1
  {
    var rows := GrepFile(index, f, pattern, m);
    if rows != [] {
      var tail := rows[1..];
      assert rows == [rows[0]] + tail;
      HeadersAppend([rows[0]], tail);
      assert [rows[0]][..0] == [];
      NoHeaders(tail);
    }
  }

  lemma {:induction false} NoHeaders(rows: seq<GrepRow>)
    requires forall k :: 0 <= k < |rows| ==> rows[k].Match?
    ensures Headers(rows) == 0
  {
    if rows != [] {
      NoHeaders(rows[..|rows| - 1]);
    }
  }

  /** `grep` prints exactly one header per searched file that has a matching line. */
  lemma {:induction false} GrepHeaderPerFile(targets: seq<(int, FileProfile)>, pattern: string, m: Matcher)
    ensures Headers(GrepRows(targets, pattern, m)) == FilesWithMatches(targets, pattern, m)
  {
    if targets != [] {
      var n := |targets| - 1;
      GrepHeaderPerFile(targets[..n], pattern, m);
      HeadersAppend(GrepRows(targets[..n], pattern, m), GrepFile(targets[n].0, targets[n].1, pattern, m));
      GrepFileShape(targets[n].0, targets[n].1, pattern, m);
    }
  }

  /** The line loop of `grep` for one file, with its `headed` flag. */
  method GrepLines(index: int, f: FileProfile, pattern: string, m: Matcher) returns (rows: seq<GrepRow>)
    ensures rows == GrepFile(index, f, pattern, m)
  {
    var lines := f.lines;
    var headed := false;
    var matches: seq<LineRow> := [];
    rows := [];
    var j := 0;
    while j < |lines|
      invariant 0 <= j <= |lines|
      invariant matches == MatchRows(lines[..j], pattern, m)
      invariant headed <==> matches != []
      invariant rows == GrepFile(index, FileProfile(f.fileName, f.duration, lines[..j]), pattern, m)
    {
      var line := lines[j];
      assert lines[..j + 1][..j] == lines[..j];
      if m(pattern, line.line) {
        if !headed {
          rows := rows + [Header(index, f.fileName)];
          headed := true;
        }
        rows := rows + [Match(RowOf(line))];
        matches := matches + [RowOf(line)];
      }
      j := j + 1;
    }
    assert lines[..j] == lines;
  }

  /**
   * `grep(pattern, desc)`: resolves the descriptor when one is given (its
   * errors propagate), otherwise searches every file of the run in order.
   */
  method Grep(run: ProfileRun, pattern: string, desc: Option<Descriptor>, m: Matcher)
    returns (r: Result<seq<GrepRow>>)
    ensures GrepTargets(run, desc).Err? ==> r == Err(GrepTargets(run, desc).error)
    ensures GrepTargets(run, desc).Ok? ==> r == Ok(GrepRows(GrepTargets(run, desc).value, pattern, m))
  {
    var targets: seq<(int, FileProfile)> := [];
    if desc.Some? {
      var resolved := ResolveFile(run, desc.value);
      if resolved.Err? {
        return Err(resolved.error);
      }
      targets := [resolved.value];
    } else {
      var index := 0;
      while index < |run.files|
        invariant 0 <= index <= |run.files|
        invariant |targets| == index
        invariant forall i :: 0 <= i < index ==> targets[i] == (i, run.files[i])
      {
        targets := targets + [(index, run.files[index])];
        index := index + 1;
      }
    }
    assert targets == GrepTargets(run, desc).value;
    var rows: seq<GrepRow> := [];
    var i := 0;
    while i < |targets|
      invariant 0 <= i <= |targets|
      invariant rows == GrepRows(targets[..i], pattern, m)
    {
      assert targets[..i + 1][..i] == targets[..i];
      var fileRows := GrepLines(targets[i].0, targets[i].1, pattern, m);
      rows := rows + fileRows;
      i := i + 1;
    }
    assert targets[..i] == targets;
    r := Ok(rows);
  }

  /** A literal pattern matched at position 0: an anchored match for a pattern with no special characters. */
  predicate LiteralMatch(pattern: string, text: string)
  {
    |pattern| <= |text| && text[..|pattern|] == pattern
  }

  /** The pattern "foo" matches "foobar()" but not "xfoobar()": the match is anchored, not a substring search. */
  lemma GrepAnchoredExample(name: string, a: LineProfile, b: LineProfile)
    requires a.line == "foobar()" && b.line == "xfoobar()"
    ensures GrepRows([(0, FileProfile(name, 0.0, [a, b]))], "foo", LiteralMatch) ==
      [Header(0, name), Match(RowOf(a))]
  {
    assert LiteralMatch("foo", a.line);
    assert b.line[0] == 'x' != "foo"[0];
    assert !LiteralMatch("foo", b.line);
    assert [a, b][..1] == [a] && [a][..0] == [];
    assert MatchRows([a], "foo", LiteralMatch) == [RowOf(a)];
    assert MatchRows([a, b], "foo", LiteralMatch) == [RowOf(a)];
    assert [(0, FileProfile(name, 0.0, [a, b]))][..0] == [];
  }

  // ---------------------------------------------------------------- uncolored display

  /** `'\n'.join(texts)`. */
  function JoinLines(texts: seq<string>): (s: string)
    ensures forall i :: 0 <= i < |texts| ==> |texts[i]| <= |s|
    ensures |texts| >= 2 ==> |s| >= |texts| - 1
  {
    if texts == [] then ""
    else if |texts| == 1 then texts[0]
    else texts[0] + "\n" + JoinLines(texts[1..])
  }

  /**
   * The joined text starts with the first line and ends with the last; with
   * two or more lines a '\n' follows the first line and the rest is the join
   * of the other lines.
   */
  lemma {:induction false} JoinLinesShape(texts: seq<string>)
    requires texts != []
    ensures JoinLines(texts)[..|texts[0]|] == texts[0]
    ensures JoinLines(texts)[|JoinLines(texts)| - |texts[|texts| - 1]|..] == texts[|texts| - 1]
    ensures |texts| >= 2 ==>
      |texts[0]| < |JoinLines(texts)| && JoinLines(texts)[|texts[0]|] == '\n' &&
      JoinLines(texts)[|texts[0]| + 1..] == JoinLines(texts[1..])
  {
    if |texts| >= 2 {
      var rest := texts[1..];
      JoinLinesShape(rest);
      assert rest[|rest| - 1] == texts[|texts| - 1];
      var s := JoinLines(texts);
      assert s == texts[0] + "\n" + JoinLines(rest);
      assert s[|s| - |JoinLines(rest)|..] == JoinLines(rest);
    }
  }

  /**
   * The text `cat` and `grep` print for the i-th line when no highlighter is
   * installed, as written: the uncolored fallback hands back the joined
   * string, which is then indexed by the line's position, giving one
   * CHARACTER of the file. An empty joined string falls back to the line;
   * an index past its end raises.
   */
  function UncoloredDisplay(texts: seq<string>, i: nat): (r: Result<string>)
    requires i < |texts|
    ensures r.Err? <==> JoinLines(texts) != [] && i >= |JoinLines(texts)|
    ensures r.Ok? && JoinLines(texts) != [] ==> |r.value| == 1
  {
    var joined := JoinLines(texts);
    if joined == [] then Ok(texts[i])
    else if i < |joined| then Ok([joined[i]])
    else Err(IndexOutOfRange(i))
  }

  /** Any line of two or more characters is printed wrongly: never as its own text. */
  lemma UncoloredDisplayTruncates(texts: seq<string>, i: nat)
    requires i < |texts| && |texts[i]| >= 2
    ensures UncoloredDisplay(texts, i) != Ok(texts[i])
  {
  }

  /** Lines "ab" and "cd" are printed as "a" and "b". */
  lemma UncoloredDisplayExample()
    ensures UncoloredDisplay(["ab", "cd"], 0) == Ok("a")
    ensures UncoloredDisplay(["ab", "cd"], 1) == Ok("b")
  {
    var texts := ["ab", "cd"];
    assert texts[1..] == ["cd"];
    assert JoinLines(["cd"]) == "cd";
    var joined := JoinLines(texts);
    assert joined == "ab" + "\n" + "cd";
    assert |joined| == 5 && joined[0] == 'a' && joined[1] == 'b';
  }

  /** A file of two or more empty lines raises on its last line. */
  lemma UncoloredDisplayRaises(texts: seq<string>)
    requires |texts| >= 2
    requires forall i :: 0 <= i < |texts| ==> texts[i] == ""
    ensures UncoloredDisplay(texts, |texts| - 1).Err?
  {
    JoinLength(texts);
    SumLengthsZero(texts);
  }

  lemma {:induction false} JoinLength(texts: seq<string>)
    requires texts != []
    ensures |JoinLines(texts)| == SumLengths(texts) + |texts| - 1
  {
    if |texts| > 1 {
      JoinLength(texts[1..]);
    }
  }

  function SumLengths(texts: seq<string>): nat
  {
    if texts == [] then 0 else |texts[0]| + SumLengths(texts[1..])
  }

  lemma {:induction false} SumLengthsZero(texts: seq<string>)
    requires forall i :: 0 <= i < |texts| ==> texts[i] == ""
    ensures SumLengths(texts) == 0
  {
    if texts != [] {
      SumLengthsZero(texts[1..]);
    }
  }
}
