/** The filter as the script runs it: one screen updated in place, character by character
    (scripts/tmate_log_filter.py). */
module TerminalFilter {
  import opened Prelude
  import opened Terminal

  class VirtualTerminal {
    var grid: seq<Row>
    var shadow: seq<string>
    var x: nat
    var y: nat
    var mode: Mode
    var params: string
    var recent: seq<string>
    var output: seq<Printed>

    function View(): Screen
      reads this
    {
      Screen(grid, shadow, x, y, mode, params, recent, output)
    }

    constructor ()
      ensures View() == Initial()
    {
      grid, shadow, x, y, mode := BlankGrid(), NoShadow(), 0, 0, Normal;
      params, recent, output := "", [], [];
    }

    /** print_line */
    method PrintLine(text: string, force: bool)
      modifies this`recent, this`output
      ensures View() == Terminal.PrintLine(old(View()), text, force)
    {
      if text == "" {
        return;
      }
      var line := Strip(text);
      if line == "" || Skipped(line) {
        return;
      }
      if !force {
        if line in recent {
          return;
        }
        recent := recent + [line];
        if |recent| > MAX_RECENT {
          recent := recent[1..];
        }
      }
      output := output + [Printed(line, force)];
    }

    /** scroll_up: the shadow moves with the rows, and the top line is printed in any case. */
    method ScrollUp()
      requires Sized(View())
      modifies this
      ensures View() == Terminal.ScrollUp(old(View()))
    {
      var top := RStrip(grid[0]);
      grid := grid[1..] + [BlankRow()];
      shadow := shadow[1..] + [""];
      PrintLine(top, true);
    }

    /** One round of the flush loop. */
    method FlushRow(r: nat)
      requires Sized(View()) && r < HEIGHT
      modifies this`shadow, this`recent, this`output
      ensures View() == Terminal.FlushRow(old(View()), r)
    {
      var line := RStrip(grid[r]);
      if line != "" {
        if line != shadow[r] {
          PrintLine(line, false);
          shadow := shadow[r := line];
        }
      }
    }

    /** flush_completed_lines */
    method FlushCompletedLines()
      requires Sized(View())
      modifies this`shadow, this`recent, this`output
      ensures View() == Flush(old(View()))
    {
      var n := if y < HEIGHT then y else HEIGHT;
      for r := 0 to n
        invariant n <= HEIGHT && Sized(View())
        invariant View() == FlushRows(old(View()), r)
      {
        FlushRow(r);
      }
    }

    /** The cursor goes to the next row, scrolling on the last one. */
    method NextRow()
      requires OnScreen(View())
      modifies this
      ensures View() == Terminal.NextRow(old(View()))
    {
      y := y + 1;
      if y >= HEIGHT {
        ScrollUp();
        y := HEIGHT - 1;
      }
      FlushCompletedLines();
    }

    /** Blank a stretch of the cursor's row. */
    method EraseCells(from: nat, to: nat)
      requires OnScreen(View()) && from <= to <= WIDTH
      modifies this`grid
      ensures View() == old(View()).(grid := old(grid)[y := Erase(old(grid)[y], from, to)])
    {
      var row := grid[y];
      for i := from to to
        invariant |row| == WIDTH
        invariant row == Erase(grid[y], from, i)
      {
        row := row[i := ' '];
      }
      grid := grid[y := row];
    }

    /** The command part of apply_csi. */
    method Execute(cmd: char, nums: seq<nat>)
      requires OnScreen(View()) && nums != []
      modifies this
      ensures View() == Command(old(View()), cmd, nums)
    {
      var n := Count(nums, 0);
      if cmd == 'H' || cmd == 'f' {
        y := Min(HEIGHT - 1, n - 1);
        x := Min(WIDTH - 1, Count(nums, 1) - 1);
      } else if cmd == 'A' {
        y := if y < n then 0 else y - n;
      } else if cmd == 'B' {
        y := Min(HEIGHT - 1, y + n);
      } else if cmd == 'C' {
        x := Min(WIDTH - 1, x + n);
      } else if cmd == 'D' {
        x := if x < n then 0 else x - n;
      } else if cmd == 'K' {
        if nums[0] == 0 {
          EraseCells(x, WIDTH);
        } else if nums[0] == 1 {
          EraseCells(0, Min(x + 1, WIDTH));
        } else if nums[0] == 2 {
          grid := grid[y := BlankRow()];
          shadow := shadow[y := ""];
        }
      } else if cmd == 'J' {
        if nums[0] == 2 {
          grid, shadow, x, y := BlankGrid(), NoShadow(), 0, 0;
        }
      } else if cmd == 'S' {
        ScrollTimes(n);
      }
    }

    method ScrollTimes(n: nat)
      requires OnScreen(View())
      modifies this
      ensures View() == Terminal.ScrollTimes(old(View()), n)
    {
      for i := 0 to n
        invariant OnScreen(View()) && View() == Terminal.ScrollTimes(old(View()), i)
      {
        ScrollUp();
      }
    }

    /** apply_csi: the command, and a flush if it moved the cursor to another row. */
    method ApplyCsi(cmd: char)
      requires OnScreen(View())
      modifies this
      ensures View() == Terminal.ApplyCsi(old(View()), cmd, old(params))
    {
      var oldY := y;
      Execute(cmd, Numbers(params));
      if y != oldY {
        FlushCompletedLines();
      }
    }

    /** A printable character at the cursor. */
    method Type(c: char)
      requires OnScreen(View())
      modifies this
      ensures View() == Terminal.Type(old(View()), c)
    {
      grid := grid[y := grid[y][x := c]];
      x := x + 1;
      if x >= WIDTH {
        x := 0;
        NextRow();
      }
    }

    /** One character of the stream. */
    method Feed(c: char)
      requires OnScreen(View())
      modifies this
      ensures View() == Terminal.Feed(old(View()), c)
    {
      match mode
      case Normal =>
        if c as int == 27 {
          mode := Escape;
        } else if c == '\n' {
          NextRow();
        } else if c == '\r' {
          x := 0;
        } else if c as int == 8 {
          x := if x == 0 then 0 else x - 1;
        } else if c == '\t' {
          x := (x + 8) / 8 * 8;
          if x >= WIDTH {
            x := WIDTH - 1;
          }
        } else if c as int >= 32 {
          Type(c);
        }
      case Escape =>
        if c == '[' {
          mode, params := Csi, "";
        } else if c == '(' || c == ')' {
          mode := Charset;
        } else {
          mode := Normal;
        }
      case Charset =>
        mode := Normal;
      case Csi =>
        if IsDigit(c) || c == ';' || c == '?' {
          params := params + [c];
        } else {
          ApplyCsi(c);
          mode := Normal;
        }
    }

    /** The character loop. */
    method FeedText(text: string)
      requires OnScreen(View())
      modifies this
      ensures View() == FeedAll(old(View()), text)
    {
      for i := 0 to |text|
        invariant OnScreen(View()) && View() == FeedAll(old(View()), text[..i])
      {
        assert text[..i + 1][..i] == text[..i];
        Feed(text[i]);
      }
      assert text[..|text|] == text;
    }

    /** The end of the stream: the rows still on the screen. */
    method Dump()
      modifies this`recent, this`output
      ensures View() == PrintRows(old(View()), grid)
    {
      ghost var screen := View();
      for r := 0 to |grid|
        invariant View() == PrintRows(screen, grid[..r])
      {
        assert grid[..r + 1][..r] == grid[..r];
        PrintLine(RStrip(grid[r]), true);
      }
      assert grid[..|grid|] == grid;
    }

    /** main */
    method Run(text: string)
      requires View() == Initial()
      modifies this
      ensures output == Filter(text)
    {
      FeedText(text);
      Dump();
    }
  }
}
