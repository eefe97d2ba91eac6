/** What the terminal of module Terminal guarantees about its output
    (scripts/tmate_log_filter.py). */
module TerminalOutput {
  import opened Prelude
  import opened Terminal
  import opened TerminalInvariants

  /** Lines closer than the window's size are different. */
  ghost predicate Spaced(lines: seq<string>) {
    forall i, j :: 0 <= i < j < |lines| && j - i <= MAX_RECENT ==> lines[i] != lines[j]
  }

  lemma InWindow(lines: seq<string>, i: nat)
    requires i < |lines| && |lines| - i <= MAX_RECENT
    ensures lines[i] in Window(lines)
  {
    assert Window(lines)[i - (|lines| - |Window(lines)|)] == lines[i];
  }

  lemma {:induction false} FreshIsSpaced(lines: seq<string>)
    requires Fresh(lines)
    ensures Spaced(lines)
  {
    if lines != [] {
      var front, last := lines[..|lines| - 1], lines[|lines| - 1];
      FreshIsSpaced(front);
      forall i | 0 <= i < |front| && |front| - i <= MAX_RECENT ensures lines[i] != last {
        InWindow(front, i);
      }
    }
  }

  lemma WindowSlides(lines: seq<string>, line: string)
    ensures Window(lines + [line]) == Remember(Window(lines), line)
    ensures Fresh(lines) && line !in Window(lines) ==> Fresh(lines + [line])
  {
    assert (lines + [line])[..|lines|] == lines;
  }

  lemma NewLineKeepsWindow(s: Screen, line: string)
    requires Windowed(s) && line !in s.recent
    ensures Windowed(s.(recent := Remember(s.recent, line), output := s.output + [Printed(line, false)]))
  {
    OneMoreLine(s, line, false);
    WindowSlides(Lines(s.output, false), line);
  }

  lemma ForcedLineKeepsWindow(s: Screen, line: string)
    requires Windowed(s)
    ensures Windowed(s.(output := s.output + [Printed(line, true)]))
  {
    OneMoreLine(s, line, true);
  }

  lemma PrintKeepsWindow(s: Screen, line: string, force: bool)
    requires Windowed(s)
    ensures Windowed(PrintLine(s, line, force))
  {
    var l := Strip(line);
    if force { ForcedLineKeepsWindow(s, l); } else if l !in s.recent { NewLineKeepsWindow(s, l); }
  }

  lemma {:induction false} DumpKeepsWindow(s: Screen, rows: seq<Row>)
    requires Windowed(s)
    ensures Windowed(PrintRows(s, rows))
  {
    if rows != [] {
      var front := rows[..|rows| - 1];
      DumpKeepsWindow(s, front);
      PrintKeepsWindow(PrintRows(s, front), RStrip(rows[|rows| - 1]), true);
    }
  }

  lemma ScrollKeepsWindow(s: Screen)
    requires Sized(s) && Windowed(s)
    ensures Windowed(ScrollUp(s))
  {
    PrintKeepsWindow(s.(grid := s.grid[1..] + [BlankRow()], shadow := s.shadow[1..] + [""]), RStrip(s.grid[0]), true);
  }

  lemma FlushRowKeepsWindow(s: Screen, r: nat)
    requires Sized(s) && r < HEIGHT && Windowed(s)
    ensures Windowed(FlushRow(s, r))
  {
    PrintKeepsWindow(s, RStrip(s.grid[r]), false);
  }

  lemma WindowIsKept()
    ensures KeptByPrinting(s => Windowed(s))
  {
    forall s | Sized(s) && Windowed(s) ensures Windowed(ScrollUp(s)) { ScrollKeepsWindow(s); }
    forall s, r: nat | Sized(s) && r < HEIGHT && Windowed(s)
      ensures Windowed(FlushRow(s, r))
    {
      FlushRowKeepsWindow(s, r);
    }
  }

  /** After every character stream the window holds the most recent unforced lines. */
  lemma StreamKeepsWindow(text: string)
    ensures Windowed(FeedAll(Initial(), text))
  {
    WindowIsKept();
    StreamKeeps(s => Windowed(s), text);
  }

  /** For every character stream the screen keeps its size with the cursor on it, and any 101
      consecutive unforced lines are pairwise different. */
  lemma AnyStream(text: string)
    ensures OnScreen(FeedAll(Initial(), text))
    ensures Spaced(Lines(Filter(text), false))
  {
    var s := FeedAll(Initial(), text);
    StreamKeepsWindow(text);
    DumpKeepsWindow(s, s.grid);
    FreshIsSpaced(Lines(Filter(text), false));
  }

  // ---------------------------------------------------------------- the shadow of printed rows

  /** Every row above the cursor that shows text has been printed as it is. */
  ghost predicate Flushed(s: Screen, n: nat)
    requires Sized(s) && n <= HEIGHT
  {
    forall r :: 0 <= r < n ==> RStrip(s.grid[r]) == "" || s.shadow[r] == RStrip(s.grid[r])
  }

  lemma {:induction false} FlushMarksRows(s: Screen, n: nat)
    requires Sized(s) && n <= HEIGHT
    ensures Flushed(FlushRows(s, n), n)
  {
    if n > 0 {
      FlushMarksRows(s, n - 1);
    }
  }

  lemma {:induction false} FlushedRowsStaySilent(s: Screen, n: nat)
    requires Sized(s) && n <= HEIGHT && Flushed(s, n)
    ensures FlushRows(s, n) == s
  {
    if n > 0 {
      FlushedRowsStaySilent(s, n - 1);
    }
  }

  /** Scrolling keeps the shadow aligned with the rows: after a flush, a scroll and any number of
      cursor moves within the rows that moved up, the next flush prints nothing. */
  lemma ScrollKeepsShadow(s: Screen, n: nat, y: nat)
    requires OnScreen(s) && n <= HEIGHT && Flushed(s, n) && y < n
    ensures Flush(ScrollUp(s).(y := y)) == ScrollUp(s).(y := y)
  {
    var moved := ScrollUp(s).(y := y);
    forall r | 0 <= r < y ensures RStrip(moved.grid[r]) == "" || moved.shadow[r] == RStrip(moved.grid[r]) {
      assert moved.grid[r] == s.grid[r + 1] && moved.shadow[r] == s.shadow[r + 1];
    }
    FlushedRowsStaySilent(moved, y);
  }

  // ---------------------------------------------------------------- status bars

  /** Digits and a colon, something within the line, a star, a space, and anything. */
  predicate IsBar(s: string, digits: string, middle: string, space: char, rest: string) {
    && digits != "" && (forall i :: 0 <= i < |digits| ==> IsDigit(digits[i]))
    && '\n' !in middle && IsSpace(space)
    && s == digits + ":" + middle + "*" + [space] + rest
  }

  lemma {:induction false} DigitsThenRest(digits: string, rest: string)
    requires (forall i :: 0 <= i < |digits| ==> IsDigit(digits[i])) && (rest != "" ==> !IsDigit(rest[0]))
    ensures AfterDigits(digits + rest) == rest
  {
    if digits == "" {
      assert digits + rest == rest;
    } else {
      DigitsThenRest(digits[1..], rest);
      assert (digits + rest)[1..] == digits[1..] + rest;
    }
  }

  lemma {:induction false} DigitsFirst(s: string) returns (digits: string)
    ensures s == digits + AfterDigits(s) && forall i :: 0 <= i < |digits| ==> IsDigit(digits[i])
  {
    if s != "" && IsDigit(s[0]) {
      digits := DigitsFirst(s[1..]);
      digits := [s[0]] + digits;
    } else {
      digits := "";
    }
  }

  lemma {:induction false} StarFound(middle: string, space: char, rest: string)
    requires '\n' !in middle && IsSpace(space)
    ensures StarBeforeSpace(middle + "*" + [space] + rest)
  {
    var s := middle + "*" + [space] + rest;
    if middle == "" {
      assert s[0] == '*' && s[1] == space;
    } else {
      StarFound(middle[1..], space, rest);
      assert s[1..] == middle[1..] + "*" + [space] + rest;
    }
  }

  lemma {:induction false} FindStar(s: string) returns (middle: string, space: char, rest: string)
    requires StarBeforeSpace(s)
    ensures '\n' !in middle && IsSpace(space) && s == middle + "*" + [space] + rest
  {
    if s[0] == '*' && IsSpace(s[1]) {
      middle, space, rest := "", s[1], s[2..];
    } else {
      middle, space, rest := FindStar(s[1..]);
      middle := [s[0]] + middle;
    }
  }

  /** The lines dropped as status bars are exactly those of that form. */
  lemma StatusBarExactly(s: string)
    ensures StatusBar(s) <==> exists digits, middle, space, rest :: IsBar(s, digits, middle, space, rest)
  {
    if StatusBar(s) {
      var digits := DigitsFirst(s);
      var middle, space, rest := FindStar(AfterDigits(s)[1..]);
      assert AfterDigits(s) == ":" + AfterDigits(s)[1..];
      assert IsBar(s, digits, middle, space, rest);
    }
    forall digits, middle, space, rest | IsBar(s, digits, middle, space, rest) ensures StatusBar(s) {
      var after := ":" + middle + "*" + [space] + rest;
      assert s == digits + after;
      DigitsThenRest(digits, after);
      StarFound(middle, space, rest);
      assert after[1..] == middle + "*" + [space] + rest;
    }
  }

  /** The lines that are never printed: status bars, the messages of script and ssh, and fragments
      of progress displays. All others that are not blank show as they are, stripped. */
  lemma DroppedExactly(line: string)
    ensures Shown(line) == [] <==>
            var s := Strip(line);
            || s == ""
            || (exists digits, middle, space, rest :: IsBar(s, digits, middle, space, rest))
            || Contains(s, "bash*")
            || (StartsWith(s, "Script ") && (Contains(s, "started") || Contains(s, "done")))
            || (Contains(s, "Connection to") && Contains(s, "closed"))
            || Contains(s, "[server exited]") || Contains(s, "[lost server]")
            || Contains(s, "size 80x23 from a smaller client")
            || s == "!" || StartsWith(s, "! ") || StartsWith(s, "Checking out")
            || Contains(s, "file/s]") || Contains(s, "files/s]") || Contains(s, "B/s]")
    ensures Shown(line) != [] ==> Shown(line) == [Strip(line)]
  {
    StatusBarExactly(Strip(line));
  }

  // ---------------------------------------------------------------- losslessness

  /** What printing a line adds to the forced output. */
  lemma PrintForces(s: Screen, line: string, force: bool)
    ensures Lines(PrintLine(s, line, force).output, true) == Lines(s.output, true) + (if force then Shown(line) else [])
  {
    OneMoreLine(s, Strip(line), true);
    OneMoreLine(s, Strip(line), false);
  }

  /** A line without control characters. */
  predicate Printable(line: string) {
    forall i :: 0 <= i < |line| ==> line[i] as int >= 32
  }

  /** The stream of the lines, each ended by carriage return and line feed. */
  function Stream(lines: seq<string>): string {
    if lines == [] then "" else Stream(lines[..|lines| - 1]) + lines[|lines| - 1] + "\r\n"
  }

  /** The rows that a line takes: full ones, and what is left. */
  function Wrap(line: string): seq<string>
    decreases |line|
  {
    if |line| < WIDTH then [line] else [line[..WIDTH]] + Wrap(line[WIDTH..])
  }

  function WrapAll(lines: seq<string>): seq<string> {
    if lines == [] then [] else WrapAll(lines[..|lines| - 1]) + Wrap(lines[|lines| - 1])
  }

  /** Printable text that fits into one row. */
  predicate FitsRow(line: string) {
    |line| <= WIDTH && Printable(line)
  }

  /** A full row ends by itself. */
  function Ended(row: string): string {
    if |row| == WIDTH then row else row + "\r\n"
  }

  function RowStream(rows: seq<string>): string {
    if rows == [] then "" else RowStream(rows[..|rows| - 1]) + Ended(rows[|rows| - 1])
  }

  lemma RowStreamLast(rows: seq<string>, row: string)
    ensures RowStream(rows + [row]) == RowStream(rows) + Ended(row)
  {
    assert (rows + [row])[..|rows + [row]| - 1] == rows;
  }

  lemma Associates(a: string, b: string, c: string)
    ensures (a + b) + c == a + (b + c)
  {
  }

  lemma {:induction false} RowStreamAppends(a: seq<string>, b: seq<string>)
    ensures RowStream(a + b) == RowStream(a) + RowStream(b)
  {
    if b == [] {
      assert a + b == a;
    } else {
      var front, last := b[..|b| - 1], b[|b| - 1];
      assert a + b == (a + front) + [last];
      RowStreamAppends(a, front);
      RowStreamLast(a + front, last);
      Associates(RowStream(a), RowStream(front), Ended(last));
    }
  }

  lemma RowStreamOne(row: string)
    ensures RowStream([row]) == Ended(row)
  {
    assert [row][..0] == [];
  }

  lemma {:induction false} WrapStream(line: string)
    requires Printable(line)
    ensures RowStream(Wrap(line)) == line + "\r\n" && forall r :: r in Wrap(line) ==> FitsRow(r)
    decreases |line|
  {
    if |line| < WIDTH {
      RowStreamOne(line);
    } else {
      WrapStream(line[WIDTH..]);
      WrapOneMore(line[..WIDTH], line[WIDTH..]);
      assert line == line[..WIDTH] + line[WIDTH..];
    }
  }

  lemma WrapOneMore(row: string, rest: string)
    requires |row| == WIDTH && RowStream(Wrap(rest)) == rest + "\r\n"
    ensures RowStream([row] + Wrap(rest)) == (row + rest) + "\r\n"
  {
    RowStreamAppends([row], Wrap(rest));
    RowStreamOne(row);
    Associates(row, rest, "\r\n");
  }

  /** A stream of lines is the stream of the rows that they take. */
  lemma {:induction false} WrapAllStream(lines: seq<string>)
    requires forall l :: l in lines ==> Printable(l)
    ensures RowStream(WrapAll(lines)) == Stream(lines) && forall r :: r in WrapAll(lines) ==> FitsRow(r)
  {
    if lines != [] {
      var front, last := lines[..|lines| - 1], lines[|lines| - 1];
      assert lines == front + [last];
      WrapAllStream(front);
      WrapStream(last);
      RowStreamAppends(WrapAll(front), Wrap(last));
    }
  }

  /** Lines shorter than the screen is wide take one row each. */
  lemma {:induction false} ShortLinesFit(lines: seq<string>)
    requires forall l :: l in lines ==> |l| < WIDTH
    ensures WrapAll(lines) == lines
  {
    if lines != [] {
      var front, last := lines[..|lines| - 1], lines[|lines| - 1];
      assert lines == front + [last];
      ShortLinesFit(front);
    }
  }

  function AllShown(lines: seq<string>): seq<string> {
    if lines == [] then [] else AllShown(lines[..|lines| - 1]) + Shown(lines[|lines| - 1])
  }

  function Pad(line: string): (r: Row)
    ensures |line| <= WIDTH ==> |r| == WIDTH
  {
    line + seq(if |line| < WIDTH then WIDTH - |line| else 0, i => ' ')
  }

  lemma {:induction false} FeedAllAppends(s: Screen, a: string, b: string)
    requires OnScreen(s)
    ensures FeedAll(s, a + b) == FeedAll(FeedAll(s, a), b)
  {
    if b == "" {
      assert a + b == a;
    } else {
      assert (a + b)[..|a + b| - 1] == a + b[..|b| - 1];
      FeedAllAppends(s, a, b[..|b| - 1]);
    }
  }

  lemma {:induction false} RStripDropsSpaces(line: string, n: nat)
    ensures RStrip(line + seq(n, i => ' ')) == RStrip(line)
  {
    var padded := line + seq(n, i => ' ');
    if n == 0 {
      assert padded == line;
    } else {
      assert padded[..|padded| - 1] == line + seq(n - 1, i => ' ');
      RStripDropsSpaces(line, n - 1);
    }
  }

  lemma {:induction false} RStripTwice(line: string)
    ensures RStrip(RStrip(line)) == RStrip(line)
  {
    if line != [] && IsSpace(line[|line| - 1]) { RStripTwice(line[..|line| - 1]); }
  }

  /** A padded row shows what its line shows. */
  lemma PaddedRowShows(line: string)
    ensures Shown(RStrip(Pad(line))) == Shown(line)
  {
    RStripDropsSpaces(line, if |line| < WIDTH then WIDTH - |line| else 0);
    RStripTwice(line);
  }

  lemma BlankRowIsEmpty()
    ensures RStrip(BlankRow()) == ""
  {
    RStripDropsSpaces("", WIDTH);
    assert BlankRow() == "" + seq(WIDTH, i => ' ');
  }

  lemma TypeOne(s: Screen, front: string, c: char)
    requires OnScreen(s) && s.mode.Normal? && s.x == |front| && s.grid[s.y] == Pad(front)
    requires |front| + 1 < WIDTH && c as int >= 32
    ensures Feed(s, c) == s.(grid := s.grid[s.y := Pad(front + [c])], x := |front| + 1)
  {
    assert Pad(front)[|front| := c] == Pad(front + [c]);
  }

  lemma FeedAllLast(s: Screen, front: string, c: char)
    requires OnScreen(s)
    ensures FeedAll(s, front + [c]) == Feed(FeedAll(s, front), c)
  {
    assert (front + [c])[..|front + [c]| - 1] == front;
  }

  /** Typing a printable line on a blank row. */
  lemma {:induction false} TypeLine(s: Screen, line: string)
    requires OnScreen(s) && s.mode.Normal? && s.x == 0 && s.grid[s.y] == BlankRow()
    requires Printable(line) && |line| < WIDTH
    ensures FeedAll(s, line) == s.(grid := s.grid[s.y := Pad(line)], x := |line|)
  {
    if line == "" {
      TypeNothing(s);
    } else {
      var front, c := line[..|line| - 1], line[|line| - 1];
      TypeLine(s, front);
      TypeMore(s, front, c);
      SplitLast(line);
    }
  }

  lemma SplitLast(line: string)
    requires line != ""
    ensures line == line[..|line| - 1] + [line[|line| - 1]]
  {
  }

  lemma TypeMore(s: Screen, front: string, c: char)
    requires OnScreen(s) && s.mode.Normal? && |front| + 1 < WIDTH && c as int >= 32
    requires FeedAll(s, front) == s.(grid := s.grid[s.y := Pad(front)], x := |front|)
    ensures FeedAll(s, front + [c]) == s.(grid := s.grid[s.y := Pad(front + [c])], x := |front| + 1)
  {
    FeedAllLast(s, front, c);
    TypeOnTop(s, front, c);
  }

  lemma TypeNothing(s: Screen)
    requires OnScreen(s) && s.x == 0 && s.grid[s.y] == BlankRow()
    ensures s == s.(grid := s.grid[s.y := Pad("")], x := 0)
  {
    assert Pad("") == BlankRow();
    assert s.grid[s.y := Pad("")] == s.grid;
  }

  lemma TypeOnTop(s: Screen, front: string, c: char)
    requires OnScreen(s) && s.mode.Normal? && |front| + 1 < WIDTH && c as int >= 32
    ensures Feed(s.(grid := s.grid[s.y := Pad(front)], x := |front|), c)
         == s.(grid := s.grid[s.y := Pad(front + [c])], x := |front| + 1)
  {
    var typed := s.(grid := s.grid[s.y := Pad(front)], x := |front|);
    TypeOne(typed, front, c);
    assert typed.grid[s.y := Pad(front + [c])] == s.grid[s.y := Pad(front + [c])];
  }

  /** The screen after some lines: those in `standing` fill the rows above the cursor, those in
      `gone` have scrolled off and were printed. */
  ghost predicate Holds(gone: seq<string>, standing: seq<string>, s: Screen) {
    && OnScreen(s) && s.mode.Normal? && s.x == 0
    && s.y == |standing| && (gone == [] || |standing| == HEIGHT - 1)
    && RowsShow(standing, s.grid)
    && Lines(s.output, true) == AllShown(gone)
  }

  ghost predicate RowsShow(standing: seq<string>, grid: seq<Row>) {
    && |standing| <= |grid|
    && (forall r :: 0 <= r < |standing| ==> grid[r] == Pad(standing[r]))
    && (forall r :: |standing| <= r < |grid| ==> grid[r] == BlankRow())
  }

  lemma {:induction false} FlushForcesNothing(s: Screen, n: nat)
    requires Sized(s) && n <= HEIGHT
    ensures Lines(FlushRows(s, n).output, true) == Lines(s.output, true)
  {
    if n > 0 {
      FlushForcesNothing(s, n - 1);
      FlushRowForcesNothing(FlushRows(s, n - 1), n - 1);
    }
  }

  lemma FlushRowForcesNothing(s: Screen, r: nat)
    requires Sized(s) && r < HEIGHT
    ensures Lines(FlushRow(s, r).output, true) == Lines(s.output, true)
  {
    PrintForces(s, RStrip(s.grid[r]), false);
  }

  lemma ScrollForces(s: Screen)
    requires Sized(s)
    ensures Lines(ScrollUp(s).output, true) == Lines(s.output, true) + Shown(RStrip(s.grid[0]))
  {
    PrintForces(s.(grid := s.grid[1..] + [BlankRow()], shadow := s.shadow[1..] + [""]), RStrip(s.grid[0]), true);
  }

  lemma FlushIsSilent(s: Screen)
    requires Sized(s)
    ensures Flush(s).grid == s.grid && Flush(s).y == s.y && Lines(Flush(s).output, true) == Lines(s.output, true)
  {
    FlushForcesNothing(s, if s.y < HEIGHT then s.y else HEIGHT);
  }

  lemma NextRowMoves(s: Screen)
    requires OnScreen(s) && s.y + 1 < HEIGHT
    ensures NextRow(s).grid == s.grid && NextRow(s).y == s.y + 1
    ensures Lines(NextRow(s).output, true) == Lines(s.output, true)
  {
    FlushIsSilent(s.(y := s.y + 1));
  }

  lemma NextRowScrolls(s: Screen)
    requires OnScreen(s) && s.y == HEIGHT - 1
    ensures NextRow(s).grid == s.grid[1..] + [BlankRow()] && NextRow(s).y == HEIGHT - 1
    ensures Lines(NextRow(s).output, true) == Lines(s.output, true) + Shown(RStrip(s.grid[0]))
  {
    ScrollForces(s.(y := s.y + 1));
    FlushIsSilent(ScrollUp(s.(y := s.y + 1)).(y := HEIGHT - 1));
  }

  lemma {:induction false} AllShownAppends(a: seq<string>, b: seq<string>)
    ensures AllShown(a + b) == AllShown(a) + AllShown(b)
  {
    if b == [] {
      assert a + b == a;
    } else {
      assert (a + b)[..|a + b| - 1] == a + b[..|b| - 1];
      AllShownAppends(a, b[..|b| - 1]);
    }
  }

  /** The rows after a scroll: every line has moved up by one. */
  lemma RowsMoveUp(standing: seq<string>, grid: seq<Row>, line: string)
    requires RowsShow(standing, grid) && |grid| == |standing| + 1 && standing != []
    ensures RowsShow(standing[1..] + [line], grid[|standing| := Pad(line)][1..] + [BlankRow()])
  {
    var up, standing' := grid[|standing| := Pad(line)][1..] + [BlankRow()], standing[1..] + [line];
    forall r | 0 <= r < |standing'| ensures up[r] == Pad(standing'[r]) {
      assert up[r] == grid[|standing| := Pad(line)][r + 1];
    }
  }

  lemma RowsGrow(standing: seq<string>, grid: seq<Row>, line: string)
    requires RowsShow(standing, grid) && |standing| < |grid|
    ensures RowsShow(standing + [line], grid[|standing| := Pad(line)])
  {
  }

  /** A line feed above the last row. */
  lemma EndUpperLine(standing: seq<string>, s: Screen, line: string)
    requires Holds([], standing, s) && |Pad(line)| == WIDTH && s.y + 1 < HEIGHT
    ensures Holds([], standing + [line], NextRow(s.(grid := s.grid[s.y := Pad(line)])))
  {
    NextRowMoves(s.(grid := s.grid[s.y := Pad(line)]));
    RowsGrow(standing, s.grid, line);
  }

  /** A line feed on the last row: the first line scrolls off and is printed. */
  lemma EndLastLine(gone: seq<string>, standing: seq<string>, s: Screen, line: string)
    requires Holds(gone, standing, s) && |Pad(line)| == WIDTH && s.y == HEIGHT - 1
    ensures Holds(gone + [standing[0]], standing[1..] + [line], NextRow(s.(grid := s.grid[s.y := Pad(line)])))
  {
    NextRowScrolls(s.(grid := s.grid[s.y := Pad(line)]));
    RowsMoveUp(standing, s.grid, line);
    PaddedRowShows(standing[0]);
    assert (gone + [standing[0]])[..|gone|] == gone;
  }

  lemma EndLine(gone: seq<string>, standing: seq<string>, s: Screen, line: string)
    returns (gone': seq<string>, standing': seq<string>)
    requires Holds(gone, standing, s) && |Pad(line)| == WIDTH
    ensures gone' + standing' == gone + standing + [line]
    ensures Holds(gone', standing', NextRow(s.(grid := s.grid[s.y := Pad(line)])))
  {
    if s.y + 1 < HEIGHT {
      EndUpperLine(standing, s, line);
      gone', standing' := gone, standing + [line];
    } else {
      EndLastLine(gone, standing, s, line);
      gone', standing' := gone + [standing[0]], standing[1..] + [line];
      FirstMovesOver(gone, standing, line);
    }
  }

  lemma FirstMovesOver(gone: seq<string>, standing: seq<string>, line: string)
    requires standing != []
    ensures (gone + [standing[0]]) + (standing[1..] + [line]) == gone + standing + [line]
  {
  }

  /** A line shorter than the row typed and ended. */
  lemma TypeAndEnd(s: Screen, line: string)
    requires OnScreen(s) && s.mode.Normal? && s.x == 0 && s.grid[s.y] == BlankRow()
    requires Printable(line) && |line| < WIDTH
    ensures FeedAll(s, line + "\r\n") == NextRow(s.(grid := s.grid[s.y := Pad(line)]))
  {
    TypeLine(s, line);
    var typed := FeedAll(s, line);
    FeedAllAppends(s, line, "\r\n");
    assert "\r\n"[..1] == "\r" && "\r"[..0] == "";
    assert FeedAll(typed, "\r") == typed.(x := 0);
    assert FeedAll(typed, "\r\n") == Feed(FeedAll(typed, "\r"), '\n');
  }

  lemma TypeFull(s: Screen, line: string)
    requires OnScreen(s) && s.mode.Normal? && s.x == 0 && s.grid[s.y] == BlankRow()
    requires Printable(line) && |line| == WIDTH
    ensures FeedAll(s, line) == NextRow(s.(grid := s.grid[s.y := Pad(line)]))
  {
    var front, c := line[..WIDTH - 1], line[WIDTH - 1];
    SplitLast(line);
    TypeLine(s, front);
    FeedAllLast(s, front, c);
    var typed := s.(grid := s.grid[s.y := Pad(front)], x := WIDTH - 1);
    assert Pad(front)[WIDTH - 1 := c] == Pad(line);
    assert typed.grid[s.y := Pad(line)] == s.grid[s.y := Pad(line)];
  }

  /** A row typed and ended. */
  lemma TypeRow(s: Screen, row: string)
    requires OnScreen(s) && s.mode.Normal? && s.x == 0 && s.grid[s.y] == BlankRow() && FitsRow(row)
    ensures FeedAll(s, Ended(row)) == NextRow(s.(grid := s.grid[s.y := Pad(row)]))
  {
    if |row| == WIDTH { TypeFull(s, row); } else { TypeAndEnd(s, row); }
  }

  lemma {:induction false} FeedRows(rows: seq<string>) returns (gone: seq<string>, standing: seq<string>)
    requires forall r :: r in rows ==> FitsRow(r)
    ensures gone + standing == rows
    ensures Holds(gone, standing, FeedAll(Initial(), RowStream(rows)))
  {
    if rows == [] {
      gone, standing := [], [];
    } else {
      var front, last := rows[..|rows| - 1], rows[|rows| - 1];
      assert rows == front + [last];
      gone, standing := FeedRows(front);
      var s := FeedAll(Initial(), RowStream(front));
      FeedAllAppends(Initial(), RowStream(front), Ended(last));
      TypeRow(s, last);
      gone, standing := EndLine(gone, standing, s, last);
    }
  }

  /** What rows show, one after the other. */
  function RowsShown(rows: seq<Row>): seq<string> {
    if rows == [] then [] else RowsShown(rows[..|rows| - 1]) + Shown(RStrip(rows[|rows| - 1]))
  }

  /** The dump forces what its rows show, and prints nothing else. */
  lemma {:induction false} DumpForcesRows(s: Screen, rows: seq<Row>)
    ensures Lines(PrintRows(s, rows).output, true) == Lines(s.output, true) + RowsShown(rows)
    ensures Lines(PrintRows(s, rows).output, false) == Lines(s.output, false)
  {
    if rows != [] {
      var front := PrintRows(s, rows[..|rows| - 1]);
      DumpForcesRows(s, rows[..|rows| - 1]);
      PrintForces(front, RStrip(rows[|rows| - 1]), true);
      OneMoreLine(front, Strip(RStrip(rows[|rows| - 1])), true);
    }
  }

  lemma {:induction false} RowsShownAppends(a: seq<Row>, b: seq<Row>)
    ensures RowsShown(a + b) == RowsShown(a) + RowsShown(b)
  {
    if b == [] {
      assert a + b == a;
    } else {
      assert (a + b)[..|a + b| - 1] == a + b[..|b| - 1];
      RowsShownAppends(a, b[..|b| - 1]);
    }
  }

  lemma {:induction false} PaddedRowsShow(rows: seq<Row>, lines: seq<string>)
    requires |rows| == |lines| && forall r :: 0 <= r < |rows| ==> rows[r] == Pad(lines[r])
    ensures RowsShown(rows) == AllShown(lines)
  {
    if rows != [] {
      PaddedRowsShow(rows[..|rows| - 1], lines[..|lines| - 1]);
      PaddedRowShows(lines[|lines| - 1]);
    }
  }

  lemma {:induction false} BlankRowsShowNothing(rows: seq<Row>)
    requires forall r :: 0 <= r < |rows| ==> rows[r] == BlankRow()
    ensures RowsShown(rows) == []
  {
    if rows != [] {
      BlankRowsShowNothing(rows[..|rows| - 1]);
      BlankRowIsEmpty();
    }
  }

  lemma SplitGrid(grid: seq<Row>, k: nat)
    requires k <= |grid|
    ensures grid == grid[..k] + grid[k..]
  {
  }

  /** What a grid shows that holds some lines. */
  lemma GridShows(standing: seq<string>, grid: seq<Row>)
    requires RowsShow(standing, grid)
    ensures RowsShown(grid) == AllShown(standing)
  {
    SplitGrid(grid, |standing|);
    RowsShownAppends(grid[..|standing|], grid[|standing|..]);
    PaddedRowsShow(grid[..|standing|], standing);
    BlankRowsShowNothing(grid[|standing|..]);
  }

  /** Losslessness: for any stream of printable lines the forced output is exactly the rows that the
      lines take, stripped and without the skipped ones, in order and each once; lines shorter than
      the screen is wide are their own rows. */
  lemma ForcedOutputIsInput(lines: seq<string>)
    requires forall l :: l in lines ==> Printable(l)
    ensures Lines(Filter(Stream(lines)), true) == AllShown(WrapAll(lines))
    ensures (forall l :: l in lines ==> |l| < WIDTH) ==> Lines(Filter(Stream(lines)), true) == AllShown(lines)
  {
    WrapAllStream(lines);
    var gone, standing := FeedRows(WrapAll(lines));
    DumpShows(gone, standing, FeedAll(Initial(), Stream(lines)));
    if forall l :: l in lines ==> |l| < WIDTH { ShortLinesFit(lines); }
  }

  /** What the dump adds to the forced output. */
  lemma DumpShows(gone: seq<string>, standing: seq<string>, s: Screen)
    requires RowsShow(standing, s.grid) && Lines(s.output, true) == AllShown(gone)
    ensures Lines(PrintRows(s, s.grid).output, true) == AllShown(gone + standing)
  {
    DumpForcesRows(s, s.grid);
    GridShows(standing, s.grid);
    AllShownAppends(gone, standing);
  }
}
