/** Lines that are drawn again in place, as progress displays do (scripts/tmate_log_filter.py). */
module TerminalRedraw {
  import opened Prelude
  import opened Terminal
  import opened TerminalOutput
  import opened TerminalCommands

  /** Each line written over a row that is erased first. */
  function Redrawn(lines: seq<string>): string {
    if lines == [] then ""
    else Redrawn(lines[..|lines| - 1]) + (Control([2], 'K') + (lines[|lines| - 1] + "\r\n"))
  }

  /** The screen while lines are drawn again: `rows` fill the screen down to where the cursor was
      before, and the first ones, up to the cursor, are up to date. */
  ghost predicate Drawing(gone: seq<string>, rows: seq<string>, y: nat, s: Screen) {
    && OnScreen(s) && s.mode.Normal? && s.x == 0 && s.y == y && y <= |rows| < HEIGHT
    && RowsShow(rows, s.grid) && Lines(s.output, true) == AllShown(gone)
  }

  lemma EraseLine(s: Screen)
    requires OnScreen(s) && s.mode.Normal?
    ensures var s' := FeedAll(s, Control([2], 'K'));
            && OnScreen(s') && s'.grid == s.grid[s.y := BlankRow()] && s'.x == s.x && s'.y == s.y
            && s'.mode.Normal? && Lines(s'.output, true) == Lines(s.output, true)
  {
    FlushedCommand(s, [2], 'K');
  }

  lemma DrawOne(gone: seq<string>, rows: seq<string>, y: nat, s: Screen, line: string)
    requires Drawing(gone, rows, y, s) && y < |rows| && Printable(line) && |line| < WIDTH
    ensures Drawing(gone, rows[y := line], y + 1, FeedAll(s, Control([2], 'K') + (line + "\r\n")))
  {
    FeedAllAppends(s, Control([2], 'K'), line + "\r\n");
    EraseLine(s);
    var erased := FeedAll(s, Control([2], 'K'));
    TypeAndEnd(erased, line);
    NextRowMoves(erased.(grid := erased.grid[y := Pad(line)]));
    assert erased.grid[y := Pad(line)] == s.grid[y := Pad(line)];
  }

  /** The rows from `y` on replaced by the lines. */
  function Replaced(rows: seq<string>, y: nat, lines: seq<string>): (r: seq<string>)
    requires y + |lines| <= |rows|
    ensures |r| == |rows|
  {
    rows[..y] + lines + rows[y + |lines|..]
  }

  lemma ReplaceOne(rows: seq<string>, y: nat, front: seq<string>, last: string)
    requires y + |front| < |rows|
    ensures Replaced(rows, y, front)[y + |front| := last] == Replaced(rows, y, front + [last])
  {
  }

  lemma ReplaceNone(rows: seq<string>, y: nat)
    requires y <= |rows|
    ensures Replaced(rows, y, []) == rows
  {
  }

  lemma RedrawnLast(front: seq<string>, last: string)
    ensures Redrawn(front + [last]) == Redrawn(front) + (Control([2], 'K') + (last + "\r\n"))
  {
    assert (front + [last])[..|front + [last]| - 1] == front;
  }

  lemma FeedRedrawn(s: Screen, front: seq<string>, last: string)
    requires OnScreen(s)
    ensures FeedAll(s, Redrawn(front + [last]))
         == FeedAll(FeedAll(s, Redrawn(front)), Control([2], 'K') + (last + "\r\n"))
  {
    RedrawnLast(front, last);
    FeedAllAppends(s, Redrawn(front), Control([2], 'K') + (last + "\r\n"));
  }

  lemma SameDrawing(gone: seq<string>, rows: seq<string>, y: nat, s: Screen, rows': seq<string>, s': Screen)
    requires Drawing(gone, rows, y, s) && rows' == rows && s' == s
    ensures Drawing(gone, rows', y, s')
  {
  }

  lemma DrawMore(gone: seq<string>, rows: seq<string>, y: nat, s: Screen, front: seq<string>, last: string)
    requires OnScreen(s) && y + |front| < |rows| && Printable(last) && |last| < WIDTH
    requires Drawing(gone, Replaced(rows, y, front), y + |front|, FeedAll(s, Redrawn(front)))
    ensures Drawing(gone, Replaced(rows, y, front + [last]), y + |front| + 1, FeedAll(s, Redrawn(front + [last])))
  {
    var now, text := FeedAll(s, Redrawn(front)), Control([2], 'K') + (last + "\r\n");
    DrawOne(gone, Replaced(rows, y, front), y + |front|, now, last);
    FeedRedrawn(s, front, last);
    ReplaceOne(rows, y, front, last);
    SameDrawing(gone, Replaced(rows, y, front)[y + |front| := last], y + |front| + 1, FeedAll(now, text),
                Replaced(rows, y, front + [last]), FeedAll(s, Redrawn(front + [last])));
  }

  lemma {:induction false} DrawAll(gone: seq<string>, rows: seq<string>, y: nat, s: Screen, lines: seq<string>)
    requires Drawing(gone, rows, y, s) && y + |lines| <= |rows|
    requires forall l :: l in lines ==> Printable(l) && |l| < WIDTH
    ensures Drawing(gone, Replaced(rows, y, lines), y + |lines|, FeedAll(s, Redrawn(lines)))
  {
    if lines == [] {
      ReplaceNone(rows, y);
    } else {
      var front, last := lines[..|lines| - 1], lines[|lines| - 1];
      assert lines == front + [last];
      DrawAll(gone, rows, y, s, front);
      DrawMore(gone, rows, y, s, front, last);
    }
  }

  /** The lines on the screen, with the cursor moved up by `k` rows. */
  lemma MoveUp(gone: seq<string>, standing: seq<string>, b: nat, s: Screen, k: nat)
    requires Holds(gone, standing, s) && k > 0 && b + k == |standing|
    ensures Drawing(gone, standing, b, FeedAll(s, Control([k], 'A')))
  {
    MovesByParameter(s, k, 'A');
    FlushedCommand(s, [k], 'A');
  }

  lemma EnoughStanding(gone: seq<string>, standing: seq<string>, s: Screen, lines: seq<string>, k: nat)
    requires Holds(gone, standing, s) && gone + standing == lines && k <= |lines| && k < HEIGHT
    ensures k <= |standing|
  {
  }

  /** The screen once the rows from `b` on are drawn again. */
  lemma RedrawRows(gone: seq<string>, standing: seq<string>, b: nat, s: Screen, news: seq<string>)
    requires Holds(gone, standing, s) && b + |news| == |standing| && news != []
    requires forall l :: l in news ==> Printable(l) && |l| < WIDTH
    ensures Drawing(gone, Replaced(standing, b, news), b + |news|,
                    FeedAll(FeedAll(s, Control([|news|], 'A')), Redrawn(news)))
  {
    MoveUp(gone, standing, b, s, |news|);
    DrawAll(gone, standing, b, FeedAll(s, Control([|news|], 'A')), news);
  }

  lemma ReplaceTail(gone: seq<string>, standing: seq<string>, b: nat, news: seq<string>)
    requires b + |news| == |standing|
    ensures gone + Replaced(standing, b, news) == (gone + standing)[..|gone + standing| - |news|] + news
  {
  }

  lemma FeedThree(a: string, b: string, c: string)
    ensures FeedAll(Initial(), a + b + c) == FeedAll(FeedAll(FeedAll(Initial(), a), b), c)
  {
    FeedAllAppends(Initial(), a, b);
    FeedAllAppends(Initial(), a + b, c);
  }

  lemma DrawnText(gone: seq<string>, rows: seq<string>, y: nat, s: Screen, text: string, all: seq<string>)
    requires Drawing(gone, rows, y, s) && s == FeedAll(Initial(), text) && all == gone + rows
    ensures Lines(Filter(text), true) == AllShown(all)
  {
    DumpShows(gone, rows, s);
  }

  lemma ShortRows(lines: seq<string>, k: nat) returns (gone: seq<string>, standing: seq<string>)
    requires (forall l :: l in lines ==> Printable(l) && |l| < WIDTH) && k <= |lines| && k < HEIGHT
    ensures gone + standing == lines && k <= |standing|
    ensures Holds(gone, standing, FeedAll(Initial(), Stream(lines)))
  {
    WrapAllStream(lines);
    ShortLinesFit(lines);
    gone, standing := FeedRows(lines);
    EnoughStanding(gone, standing, FeedAll(Initial(), Stream(lines)), lines, k);
  }

  /** A screen that holds the lines, drawn again from row `b` on. */
  lemma DrawnLines(gone: seq<string>, standing: seq<string>, b: nat, text: string, news: seq<string>, all: seq<string>)
    requires Holds(gone, standing, FeedAll(Initial(), text)) && b + |news| == |standing| && news != []
    requires forall l :: l in news ==> Printable(l) && |l| < WIDTH
    requires all == gone + Replaced(standing, b, news)
    ensures Lines(Filter(text + Control([|news|], 'A') + Redrawn(news)), true) == AllShown(all)
  {
    var s := FeedAll(Initial(), text);
    RedrawRows(gone, standing, b, s, news);
    FeedThree(text, Control([|news|], 'A'), Redrawn(news));
    DrawnText(gone, Replaced(standing, b, news), b + |news|, FeedAll(FeedAll(s, Control([|news|], 'A')), Redrawn(news)),
              text + Control([|news|], 'A') + Redrawn(news), all);
  }

  /** Moving up by as many rows as there are new lines, and writing each over its erased row: the
      forced output is that of the lines with the last ones replaced, as long as these are on the
      screen. */
  lemma RedrawnLinesAreReplaced(lines: seq<string>, news: seq<string>)
    requires forall l :: l in lines || l in news ==> Printable(l) && |l| < WIDTH
    requires 0 < |news| <= |lines| && |news| < HEIGHT
    ensures Lines(Filter(Stream(lines) + Control([|news|], 'A') + Redrawn(news)), true)
         == AllShown(lines[..|lines| - |news|] + news)
  {
    var gone, standing := ShortRows(lines, |news|);
    ReplaceTail(gone, standing, |standing| - |news|, news);
    DrawnLines(gone, standing, |standing| - |news|, Stream(lines), news, lines[..|lines| - |news|] + news);
  }
}
