/** The virtual terminal that turns a tmate stream into log lines (scripts/tmate_log_filter.py):
    screen, cursor, escape sequences of ECMA-48, and the two ways of printing a line. */
module Terminal {
  import opened Prelude

  const WIDTH: nat := 160
  const HEIGHT: nat := 24
  const MAX_RECENT: nat := 100

  type Row = seq<char>

  datatype Mode = Normal | Escape | Charset | Csi

  /** A line on standard output, and whether it was forced past the duplicate filter. */
  datatype Printed = Printed(line: string, forced: bool)

  /** `shadow` is last_printed_content: what was last printed from each row. */
  datatype Screen = Screen(grid: seq<Row>, shadow: seq<string>, x: nat, y: nat,
                           mode: Mode, params: string, recent: seq<string>, output: seq<Printed>)

  // ---------------------------------------------------------------- text

  predicate IsDigit(c: char) {
    '0' <= c <= '9'
  }

  function AfterDigits(s: string): string {
    if s != [] && IsDigit(s[0]) then AfterDigits(s[1..]) else s
  }

  /** A star before a space, with no line end before it. */
  predicate StarBeforeSpace(s: string) {
    |s| >= 2 && ((s[0] == '*' && IsSpace(s[1])) || (s[0] != '\n' && StarBeforeSpace(s[1..])))
  }

  /** Digits, a colon, and later a star before a space: a tmux status bar. */
  predicate StatusBar(s: string) {
    var rest := AfterDigits(s);
    |rest| < |s| && rest != [] && rest[0] == ':' && StarBeforeSpace(rest[1..])
  }

  /** The lines that print_line drops. */
  predicate Skipped(line: string) {
    || StatusBar(line) || Contains(line, "bash*")
    || (StartsWith(line, "Script ") && (Contains(line, "started") || Contains(line, "done")))
    || (Contains(line, "Connection to") && Contains(line, "closed"))
    || Contains(line, "[server exited]") || Contains(line, "[lost server]")
    || Contains(line, "size 80x23 from a smaller client")
    || line == "!" || StartsWith(line, "! ") || StartsWith(line, "Checking out")
    || Contains(line, "file/s]") || Contains(line, "files/s]") || Contains(line, "B/s]")
  }

  /** What printing a line shows: the stripped line, or nothing. */
  function Shown(line: string): seq<string> {
    var s := Strip(line);
    if s == "" || Skipped(s) then [] else [s]
  }

  // ---------------------------------------------------------------- the output so far

  function Lines(output: seq<Printed>, forced: bool): seq<string> {
    if output == [] then []
    else
      var last := output[|output| - 1];
      Lines(output[..|output| - 1], forced) + (if last.forced == forced then [last.line] else [])
  }

  function Window(lines: seq<string>): seq<string> {
    if |lines| > MAX_RECENT then lines[|lines| - MAX_RECENT..] else lines
  }

  /** No line repeats one of the window before it. */
  ghost predicate Fresh(lines: seq<string>) {
    lines == [] || (Fresh(lines[..|lines| - 1]) && lines[|lines| - 1] !in Window(lines[..|lines| - 1]))
  }

  /** The sliding window holds the most recent unforced lines, and no unforced line repeats one of
      the hundred before it. */
  ghost predicate Windowed(s: Screen) {
    s.recent == Window(Lines(s.output, false)) && Fresh(Lines(s.output, false))
  }

  // ---------------------------------------------------------------- printing and scrolling

  function Remember(recent: seq<string>, line: string): seq<string> {
    var r := recent + [line];
    if |r| > MAX_RECENT then r[1..] else r
  }

  lemma OneMoreLine(s: Screen, line: string, forced: bool)
    ensures Lines(s.output + [Printed(line, forced)], forced) == Lines(s.output, forced) + [line]
    ensures Lines(s.output + [Printed(line, forced)], !forced) == Lines(s.output, !forced)
  {
    var output := s.output + [Printed(line, forced)];
    assert output[..|output| - 1] == s.output;
  }

  /** Forced lines are always shown; unforced ones only if they are not in the window. */
  function PrintLine(s: Screen, line: string, force: bool): (r: Screen)
    ensures r.grid == s.grid && r.shadow == s.shadow && r.x == s.x && r.y == s.y
    ensures r.mode == s.mode && r.params == s.params
  {
    if line == "" then s
    else
      var l := Strip(line);
      if l == "" || Skipped(l) then s
      else if force then s.(output := s.output + [Printed(l, true)])
      else if l in s.recent then s
      else s.(recent := Remember(s.recent, l), output := s.output + [Printed(l, false)])
  }

  function BlankRow(): (r: Row)
    ensures |r| == WIDTH && forall i :: 0 <= i < WIDTH ==> r[i] == ' '
  {
    seq(WIDTH, i => ' ')
  }

  function BlankGrid(): (g: seq<Row>)
    ensures |g| == HEIGHT && forall i :: 0 <= i < HEIGHT ==> g[i] == BlankRow()
  {
    seq(HEIGHT, i => BlankRow())
  }

  function NoShadow(): (r: seq<string>)
    ensures |r| == HEIGHT && forall i :: 0 <= i < HEIGHT ==> r[i] == ""
  {
    seq(HEIGHT, i => "")
  }

  function Initial(): Screen {
    Screen(BlankGrid(), NoShadow(), 0, 0, Normal, "", [], [])
  }

  /** The screen keeps its size and the cursor stays on it. */
  ghost predicate OnScreen(s: Screen) {
    && |s.grid| == HEIGHT && (forall r :: 0 <= r < HEIGHT ==> |s.grid[r]| == WIDTH)
    && |s.shadow| == HEIGHT
    && s.x < WIDTH && s.y < HEIGHT
  }

  /** The screen's size only; the cursor may be one row below it for a moment. */
  ghost predicate Sized(s: Screen) {
    && |s.grid| == HEIGHT && (forall r :: 0 <= r < HEIGHT ==> |s.grid[r]| == WIDTH)
    && |s.shadow| == HEIGHT
  }

  function ScrollUp(s: Screen): (r: Screen)
    requires Sized(s)
    ensures Sized(r) && r.x == s.x && r.y == s.y && r.mode == s.mode
  {
    PrintLine(s.(grid := s.grid[1..] + [BlankRow()], shadow := s.shadow[1..] + [""]),
              RStrip(s.grid[0]), true)
  }

  function FlushRow(s: Screen, r: nat): (s': Screen)
    requires Sized(s) && r < HEIGHT
    ensures s'.grid == s.grid && |s'.shadow| == HEIGHT && s'.x == s.x && s'.y == s.y && s'.mode == s.mode
  {
    var line := RStrip(s.grid[r]);
    if line != "" && line != s.shadow[r] then
      var p := PrintLine(s, line, false);
      p.(shadow := p.shadow[r := line])
    else s
  }

  /** Flush the first `n` rows. */
  function FlushRows(s: Screen, n: nat): (s': Screen)
    requires Sized(s) && n <= HEIGHT
    ensures s'.grid == s.grid && |s'.shadow| == HEIGHT && s'.x == s.x && s'.y == s.y && s'.mode == s.mode
  {
    if n == 0 then s else FlushRow(FlushRows(s, n - 1), n - 1)
  }

  /** flush_completed_lines: the rows above the cursor. */
  function Flush(s: Screen): (s': Screen)
    requires Sized(s)
    ensures s'.grid == s.grid && |s'.shadow| == HEIGHT && s'.x == s.x && s'.y == s.y && s'.mode == s.mode
  {
    FlushRows(s, if s.y < HEIGHT then s.y else HEIGHT)
  }

  /** One row down, scrolling at the bottom, then flush. */
  function NextRow(s: Screen): (s': Screen)
    requires OnScreen(s)
    ensures OnScreen(s') && s'.mode == s.mode && s'.x == s.x
  {
    if s.y + 1 >= HEIGHT then Flush(ScrollUp(s.(y := s.y + 1)).(y := HEIGHT - 1))
    else Flush(s.(y := s.y + 1))
  }

  // ---------------------------------------------------------------- control sequences

  /** The numeric parameters; a part without digits counts as 0. */
  function Numbers(params: string): (r: seq<nat>)
    ensures r != []
  {
    if params == [] then [0]
    else
      var before := Numbers(params[..|params| - 1]);
      var c := params[|params| - 1];
      if c == ';' then before + [0]
      else if IsDigit(c) then before[|before| - 1 := 10 * before[|before| - 1] + (c as int - '0' as int)]
      else before
  }

  /** A parameter that defaults to 1. */
  function Count(nums: seq<nat>, i: nat): (n: nat)
    ensures n > 0
  {
    if i < |nums| && nums[i] > 0 then nums[i] else 1
  }

  function Min(a: nat, b: nat): nat {
    if a < b then a else b
  }

  function Erase(row: Row, from: nat, to: nat): (r: Row)
    requires from <= to <= |row|
    ensures |r| == |row|
  {
    row[..from] + seq(to - from, i => ' ') + row[to..]
  }

  function ScrollTimes(s: Screen, n: nat): (r: Screen)
    requires OnScreen(s)
    ensures OnScreen(r) && r.y == s.y && r.x == s.x && r.mode == s.mode
  {
    if n == 0 then s else ScrollUp(ScrollTimes(s, n - 1))
  }

  /** The effect of a command before the flush: CUP, CUU, CUD, CUF, CUB, EL, ED 2 and SU. */
  function Command(s: Screen, cmd: char, nums: seq<nat>): (r: Screen)
    requires OnScreen(s) && nums != []
    ensures OnScreen(r) && r.mode == s.mode
  {
    if cmd == 'H' || cmd == 'f' then
      s.(y := Min(HEIGHT - 1, Count(nums, 0) - 1), x := Min(WIDTH - 1, Count(nums, 1) - 1))
    else if cmd == 'A' then s.(y := if s.y < Count(nums, 0) then 0 else s.y - Count(nums, 0))
    else if cmd == 'B' then s.(y := Min(HEIGHT - 1, s.y + Count(nums, 0)))
    else if cmd == 'C' then s.(x := Min(WIDTH - 1, s.x + Count(nums, 0)))
    else if cmd == 'D' then s.(x := if s.x < Count(nums, 0) then 0 else s.x - Count(nums, 0))
    else if cmd == 'K' then
      if nums[0] == 0 then s.(grid := s.grid[s.y := Erase(s.grid[s.y], s.x, WIDTH)])
      else if nums[0] == 1 then s.(grid := s.grid[s.y := Erase(s.grid[s.y], 0, Min(s.x + 1, WIDTH))])
      else if nums[0] == 2 then s.(grid := s.grid[s.y := BlankRow()], shadow := s.shadow[s.y := ""])
      else s
    else if cmd == 'J' then
      if nums[0] == 2 then s.(grid := BlankGrid(), shadow := NoShadow(), x := 0, y := 0) else s
    else if cmd == 'S' then ScrollTimes(s, Count(nums, 0))
    else s
  }

  function ApplyCsi(s: Screen, cmd: char, params: string): (r: Screen)
    requires OnScreen(s)
    ensures OnScreen(r) && r.mode == s.mode
  {
    var r := Command(s, cmd, Numbers(params));
    if r.y != s.y then Flush(r) else r
  }

  // ---------------------------------------------------------------- the character loop

  function Type(s: Screen, c: char): (r: Screen)
    requires OnScreen(s)
    ensures OnScreen(r) && r.mode == s.mode
  {
    var typed := s.(grid := s.grid[s.y := s.grid[s.y][s.x := c]]);
    if s.x + 1 >= WIDTH then NextRow(typed.(x := 0)) else typed.(x := s.x + 1)
  }

  function Feed(s: Screen, c: char): (r: Screen)
    requires OnScreen(s)
    ensures OnScreen(r)
  {
    match s.mode
    case Normal =>
      if c as int == 27 then s.(mode := Escape)
      else if c == '\n' then NextRow(s)
      else if c == '\r' then s.(x := 0)
      else if c as int == 8 then s.(x := if s.x == 0 then 0 else s.x - 1)
      else if c == '\t' then s.(x := Min(WIDTH - 1, (s.x + 8) / 8 * 8))
      else if c as int >= 32 then Type(s, c)
      else s
    case Escape =>
      if c == '[' then s.(mode := Csi, params := "")
      else if c == '(' || c == ')' then s.(mode := Charset)
      else s.(mode := Normal)
    case Charset => s.(mode := Normal)
    case Csi =>
      if IsDigit(c) || c == ';' || c == '?' then s.(params := s.params + [c])
      else ApplyCsi(s, c, s.params).(mode := Normal)
  }

  function FeedAll(s: Screen, text: string): (r: Screen)
    requires OnScreen(s)
    ensures OnScreen(r)
  {
    if text == [] then s else Feed(FeedAll(s, text[..|text| - 1]), text[|text| - 1])
  }

  /** The final dump: rows printed one after the other, forced. */
  function PrintRows(s: Screen, rows: seq<Row>): Screen {
    if rows == [] then s
    else PrintLine(PrintRows(s, rows[..|rows| - 1]), RStrip(rows[|rows| - 1]), true)
  }

  /** Everything the filter prints for a stream. */
  function Filter(text: string): seq<Printed> {
    var s := FeedAll(Initial(), text);
    PrintRows(s, s.grid).output
  }
}
