/** How often the terminal of module Terminal prints each line (scripts/tmate_log_filter.py): the
    unforced output of printable lines, and when the whole output is free of duplicates. */
module TerminalDuplicates {
  import opened Prelude
  import opened Terminal
  import opened TerminalOutput

  /** The duplicate filter for one line: it is kept unless it is in the window of those kept. */
  function Keep(kept: seq<string>, shown: seq<string>): seq<string> {
    if shown != [] && shown[0] in Window(kept) then kept else kept + shown
  }

  /** The shown lines, each kept only if it is not among the last hundred kept before it. */
  function Dedup(lines: seq<string>): seq<string> {
    if lines == [] then [] else Keep(Dedup(lines[..|lines| - 1]), Shown(lines[|lines| - 1]))
  }

  // ---------------------------------------------------------------- one line

  lemma UnforcedPrint(s: Screen, text: string)
    requires Windowed(s)
    ensures Lines(PrintLine(s, text, false).output, false) == Keep(Lines(s.output, false), Shown(text))
  {
    OneMoreLine(s, Strip(text), false);
  }

  /** The rows from `n` on have not been printed from. */
  ghost predicate Untouched(s: Screen, n: nat) {
    forall r :: n <= r < |s.shadow| ==> s.shadow[r] == ""
  }

  /** The flush of a row that was just completed. */
  lemma FlushCompletedRow(s: Screen, n: nat, line: string)
    requires Sized(s) && n < HEIGHT && Windowed(s) && s.grid[n] == Pad(line) && s.shadow[n] == ""
    ensures Lines(FlushRow(s, n).output, false) == Keep(Lines(s.output, false), Shown(line))
  {
    PaddedRowShows(line);
    UnforcedPrint(s, RStrip(s.grid[n]));
  }

  lemma FlushRowMarks(s: Screen, n: nat)
    requires Sized(s) && n < HEIGHT && Flushed(s, n) && Untouched(s, n)
    ensures Flushed(FlushRow(s, n), n + 1) && Untouched(FlushRow(s, n), n + 1)
  {
  }

  /** The state after some lines: the unforced output is what the duplicate filter leaves, and the
      shadow knows the rows above the cursor and no others. */
  ghost predicate Printing(lines: seq<string>, s: Screen) {
    && OnScreen(s) && Lines(s.output, false) == Dedup(lines)
    && Flushed(s, s.y) && Untouched(s, s.y)
  }

  lemma FlushIsOneRow(s: Screen, n: nat)
    requires Sized(s) && n < HEIGHT && s.y == n + 1 && Flushed(s, n)
    ensures Flush(s) == FlushRow(s, n)
  {
    FlushedRowsStaySilent(s, n);
    assert Flush(s) == FlushRows(s, s.y);
  }

  /** The flush above the cursor when only the row before it is new. */
  lemma FlushNewRow(s: Screen, n: nat, line: string)
    requires Sized(s) && n < HEIGHT && s.y == n + 1 && Windowed(s)
    requires Flushed(s, n) && Untouched(s, n) && s.grid[n] == Pad(line)
    ensures Lines(Flush(s).output, false) == Keep(Lines(s.output, false), Shown(line))
    ensures Flushed(Flush(s), n + 1) && Untouched(Flush(s), n + 1)
  {
    FlushIsOneRow(s, n);
    FlushCompletedRow(s, n, line);
    FlushRowMarks(s, n);
  }

  lemma DedupLast(lines: seq<string>, line: string)
    ensures Dedup(lines + [line]) == Keep(Dedup(lines), Shown(line))
  {
    assert (lines + [line])[..|lines|] == lines;
  }

  lemma EndUpper(lines: seq<string>, s: Screen, line: string)
    requires Printing(lines, s) && Windowed(s) && |Pad(line)| == WIDTH && s.y + 1 < HEIGHT
    ensures Printing(lines + [line], NextRow(s.(grid := s.grid[s.y := Pad(line)])))
  {
    FlushNewRow(s.(grid := s.grid[s.y := Pad(line)], y := s.y + 1), s.y, line);
    DedupLast(lines, line);
  }

  /** On the last row the screen scrolls first; a scroll forces a line and takes none into account. */
  lemma ScrollForcesOnly(s: Screen)
    requires Sized(s)
    ensures Lines(ScrollUp(s).output, false) == Lines(s.output, false)
    ensures ScrollUp(s).grid == s.grid[1..] + [BlankRow()] && ScrollUp(s).shadow == s.shadow[1..] + [""]
  {
    OneMoreLine(s, Strip(RStrip(s.grid[0])), true);
  }

  lemma ScrollKeepsMarks(s: Screen, n: nat)
    requires Sized(s) && n < HEIGHT && Flushed(s, n) && Untouched(s, n) && n > 0
    ensures Flushed(ScrollUp(s), n - 1) && Untouched(ScrollUp(s), n - 1)
  {
    ScrollForcesOnly(s);
    var moved := ScrollUp(s);
    forall r | 0 <= r < n - 1 ensures RStrip(moved.grid[r]) == "" || moved.shadow[r] == RStrip(moved.grid[r]) {
      assert moved.grid[r] == s.grid[r + 1] && moved.shadow[r] == s.shadow[r + 1];
    }
    forall r | n - 1 <= r < |moved.shadow| ensures moved.shadow[r] == "" {
      assert r < HEIGHT - 1 ==> moved.shadow[r] == s.shadow[r + 1];
    }
  }

  lemma EndLast(lines: seq<string>, s: Screen, line: string)
    requires Printing(lines, s) && Windowed(s) && |Pad(line)| == WIDTH && s.y == HEIGHT - 1
    ensures Printing(lines + [line], NextRow(s.(grid := s.grid[s.y := Pad(line)])))
  {
    var typed := s.(grid := s.grid[s.y := Pad(line)], y := s.y + 1);
    ScrollForcesOnly(typed);
    ScrollKeepsMarks(typed, HEIGHT - 1);
    ScrollKeepsWindow(typed);
    var up := ScrollUp(typed).(y := HEIGHT - 1);
    assert up.grid[HEIGHT - 2] == Pad(line);
    FlushNewRow(up, HEIGHT - 2, line);
    DedupLast(lines, line);
  }

  // ---------------------------------------------------------------- all lines

  lemma {:induction false} FeedPrints(rows: seq<string>)
    requires forall r :: r in rows ==> FitsRow(r)
    ensures Printing(rows, FeedAll(Initial(), RowStream(rows)))
  {
    if rows != [] {
      var front, last := rows[..|rows| - 1], rows[|rows| - 1];
      assert rows == front + [last];
      FeedPrints(front);
      var gone, standing := FeedRows(front);
      var s := FeedAll(Initial(), RowStream(front));
      StreamKeepsWindow(RowStream(front));
      FeedAllAppends(Initial(), RowStream(front), Ended(last));
      TypeRow(s, last);
      if s.y + 1 < HEIGHT { EndUpper(front, s, last); } else { EndLast(front, s, last); }
    }
  }

  lemma UnforcedBeforeDump(text: string)
    ensures Lines(Filter(text), false) == Lines(FeedAll(Initial(), text).output, false)
  {
    var s := FeedAll(Initial(), text);
    DumpForcesRows(s, s.grid);
  }

  /** The unforced output of printable lines is what the duplicate filter leaves of their rows. */
  lemma UnforcedOutputIsDedup(lines: seq<string>)
    requires forall l :: l in lines ==> Printable(l)
    ensures Lines(Filter(Stream(lines)), false) == Dedup(WrapAll(lines))
  {
    WrapAllStream(lines);
    FeedPrints(WrapAll(lines));
    UnforcedBeforeDump(Stream(lines));
  }

  // ---------------------------------------------------------------- duplicates

  /** Everything on standard output, forced or not. */
  function Texts(output: seq<Printed>): seq<string> {
    if output == [] then [] else Texts(output[..|output| - 1]) + [output[|output| - 1].line]
  }

  /** The filter drops a line only because it has kept it before. */
  lemma {:induction false} ShownIsKept(lines: seq<string>, l: string)
    ensures l in AllShown(lines) <==> l in Dedup(lines)
  {
    if lines != [] { ShownIsKept(lines[..|lines| - 1], l); }
  }

  lemma {:induction false} TextsAt(output: seq<Printed>, i: nat)
    requires i < |output|
    ensures |Texts(output)| == |output| && Texts(output)[i] == output[i].line
  {
    if |output| > 1 { TextsAt(output[..|output| - 1], if i < |output| - 1 then i else 0); }
  }

  lemma {:induction false} LineIsPrinted(output: seq<Printed>, forced: bool, l: string) returns (i: nat)
    requires l in Lines(output, forced)
    ensures i < |output| && output[i] == Printed(l, forced)
  {
    var front, last := output[..|output| - 1], output[|output| - 1];
    if last.forced == forced && last.line == l {
      i := |output| - 1;
    } else {
      i := LineIsPrinted(front, forced, l);
    }
  }

  lemma {:induction false} NothingPrinted(output: seq<Printed>)
    requires Lines(output, true) == [] && Lines(output, false) == []
    ensures output == []
  {
  }

  lemma {:induction false} NothingKept(lines: seq<string>)
    requires AllShown(lines) == []
    ensures Dedup(lines) == []
  {
    if lines != [] { NothingKept(lines[..|lines| - 1]); }
  }

  /** The header of the script promises lines without duplicates. For printable lines the promise
      holds only if nothing is shown at all: each shown line is printed unforced, when the cursor
      leaves it for the first time, and forced, when it scrolls off or is dumped. */
  lemma NoDuplicatesIffNothingShown(lines: seq<string>)
    requires forall l :: l in lines ==> Printable(l)
    ensures NoDup(Texts(Filter(Stream(lines)))) <==> AllShown(WrapAll(lines)) == []
    ensures forall l :: l in AllShown(WrapAll(lines)) ==>
              l in Lines(Filter(Stream(lines)), false) && l in Lines(Filter(Stream(lines)), true)
  {
    var output := Filter(Stream(lines));
    UnforcedOutputIsDedup(lines);
    ForcedOutputIsInput(lines);
    var rows := WrapAll(lines);
    forall l ensures l in AllShown(rows) <==> l in Dedup(rows) { ShownIsKept(rows, l); }
    NoDuplicatesMeansNothing(output, rows);
  }

  lemma NoDuplicatesMeansNothing(output: seq<Printed>, lines: seq<string>)
    requires Lines(output, true) == AllShown(lines) && Lines(output, false) == Dedup(lines)
    requires forall l :: l in AllShown(lines) <==> l in Dedup(lines)
    ensures NoDup(Texts(output)) <==> AllShown(lines) == []
  {
    if AllShown(lines) != [] {
      var l := AllShown(lines)[0];
      var i := LineIsPrinted(output, true, l);
      var j := LineIsPrinted(output, false, l);
      TextsAt(output, i);
      TextsAt(output, j);
    } else {
      NothingKept(lines);
      NothingPrinted(output);
    }
  }
}
