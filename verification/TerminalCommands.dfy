/** Control sequences as they come in the stream, and what each one does to the screen
    (scripts/tmate_log_filter.py). */
module TerminalCommands {
  import opened Prelude
  import opened Terminal
  import opened TerminalOutput

  // ---------------------------------------------------------------- decimal parameters

  function Digit(n: nat): char
    requires n < 10
  {
    '0' + n as char
  }

  function Decimal(n: nat): (r: string)
    ensures r != [] && forall i :: 0 <= i < |r| ==> IsDigit(r[i])
  {
    if n < 10 then [Digit(n)] else Decimal(n / 10) + [Digit(n % 10)]
  }

  /** What one more character makes of the numbers read so far. */
  function OneMore(before: seq<nat>, c: char): seq<nat>
    requires before != []
  {
    if c == ';' then before + [0]
    else if IsDigit(c) then before[|before| - 1 := 10 * before[|before| - 1] + (c as int - '0' as int)]
    else before
  }

  lemma NumbersLast(params: string, c: char)
    ensures Numbers(params + [c]) == OneMore(Numbers(params), c)
  {
    assert (params + [c])[..|params + [c]| - 1] == params;
  }

  lemma AppendDigit(before: seq<nat>, v: nat, d: nat)
    requires before != [] && d < 10
    ensures OneMore(before[|before| - 1 := v], Digit(d)) == before[|before| - 1 := 10 * v + d]
  {
  }

  lemma DecimalLast(params: string, n: nat)
    requires n >= 10
    ensures params + Decimal(n) == (params + Decimal(n / 10)) + [Digit(n % 10)]
  {
  }

  /** Digits after a fresh separator count as the number they write. */
  lemma {:induction false} DigitsAreRead(params: string, n: nat)
    requires Numbers(params)[|Numbers(params)| - 1] == 0
    ensures Numbers(params + Decimal(n)) == Numbers(params)[|Numbers(params)| - 1 := n]
  {
    var before := Numbers(params);
    if n < 10 {
      NumbersLast(params, Digit(n));
      assert before[|before| - 1 := 0] == before;
      AppendDigit(before, 0, n);
    } else {
      DigitsAreRead(params, n / 10);
      NumbersLast(params + Decimal(n / 10), Digit(n % 10));
      DecimalLast(params, n);
      AppendDigit(before, n / 10, n % 10);
    }
  }

  /** Numbers in decimal, separated by semicolons. */
  function Render(nums: seq<nat>): string
    requires nums != []
  {
    if |nums| == 1 then Decimal(nums[0])
    else Render(nums[..|nums| - 1]) + ";" + Decimal(nums[|nums| - 1])
  }

  /** Parsing parameters undoes writing them. */
  lemma {:induction false} NumbersOfRender(nums: seq<nat>)
    requires nums != []
    ensures Numbers(Render(nums)) == nums
  {
    if |nums| == 1 {
      DigitsAreRead("", nums[0]);
      assert "" + Decimal(nums[0]) == Decimal(nums[0]);
    } else {
      var front, last := nums[..|nums| - 1], nums[|nums| - 1];
      NumbersOfRender(front);
      NumbersLast(Render(front), ';');
      DigitsAreRead(Render(front) + [';'], last);
      assert Render(nums) == (Render(front) + [';']) + Decimal(last);
    }
  }

  lemma OneMoreBehind(first: seq<nat>, rest: seq<nat>, c: char)
    requires rest != []
    ensures OneMore(first + rest, c) == first + OneMore(rest, c)
  {
  }

  lemma SeparateMore(whole: string, first: seq<nat>, rest: string, c: char)
    requires Numbers(whole) == first + Numbers(rest)
    ensures Numbers(whole + [c]) == first + Numbers(rest + [c])
  {
    NumbersLast(whole, c);
    NumbersLast(rest, c);
    OneMoreBehind(first, Numbers(rest), c);
  }

  /** A semicolon separates parameters, of which an empty one counts as zero. */
  lemma {:induction false} ParametersSeparate(a: string, b: string)
    ensures Numbers(a + ";" + b) == Numbers(a) + Numbers(b) && Numbers("") == [0]
  {
    if b == "" {
      NumbersLast(a, ';');
      assert a + ";" + b == a + [';'];
    } else {
      var front, c := b[..|b| - 1], b[|b| - 1];
      ParametersSeparate(a, front);
      SeparateMore(a + ";" + front, Numbers(a), front, c);
      assert b == front + [c] && a + ";" + b == (a + ";" + front) + [c];
    }
  }

  /** What is neither a digit nor a semicolon makes no difference to the numbers. */
  lemma OthersDoNotCount(a: string, c: char)
    requires !IsDigit(c) && c != ';'
    ensures Numbers(a + [c]) == Numbers(a)
  {
    NumbersLast(a, c);
  }

  predicate Parameters(params: string) {
    forall i :: 0 <= i < |params| ==> IsDigit(params[i]) || params[i] == ';' || params[i] == '?'
  }

  lemma {:induction false} RenderIsParameters(nums: seq<nat>)
    requires nums != []
    ensures Parameters(Render(nums))
  {
    if |nums| > 1 { RenderIsParameters(nums[..|nums| - 1]); }
  }

  // ---------------------------------------------------------------- sequences in the stream

  const ESC: string := [27 as char]

  /** A control sequence with numeric parameters. */
  function Control(nums: seq<nat>, cmd: char): string
    requires nums != []
  {
    ESC + "[" + Render(nums) + [cmd]
  }

  predicate IsCommand(cmd: char) {
    !IsDigit(cmd) && cmd != ';' && cmd != '?'
  }

  lemma {:induction false} ParametersAreCollected(s: Screen, params: string)
    requires OnScreen(s) && s.mode.Csi? && Parameters(params)
    ensures FeedAll(s, params) == s.(params := s.params + params)
  {
    if params == "" {
      assert s.params + params == s.params;
    } else {
      var front, c := params[..|params| - 1], params[|params| - 1];
      ParametersAreCollected(s, front);
      assert s.params + params == (s.params + front) + [c];
    }
  }

  lemma IntroducerStarts(s: Screen)
    requires OnScreen(s) && s.mode.Normal?
    ensures FeedAll(s, ESC + "[") == s.(mode := Mode.Csi, params := "")
  {
    FeedAllLast(s, ESC, '[');
    FeedAllLast(s, "", 27 as char);
    assert "" + [27 as char] == ESC;
  }

  /** What a command makes of the screen, parameters aside. */
  function Commanded(s: Screen, cmd: char, nums: seq<nat>): (r: Screen)
    requires OnScreen(s) && nums != []
    ensures OnScreen(r)
  {
    var r := Command(s, cmd, nums);
    if r.y != s.y then Flush(r) else r
  }

  lemma CsiIsCommand(s: Screen, nums: seq<nat>, cmd: char)
    requires OnScreen(s) && s.mode.Normal? && nums != [] && IsCommand(cmd)
    ensures var started := s.(mode := Mode.Csi, params := Render(nums));
            FeedAll(s, Control(nums, cmd)) == Commanded(started, cmd, nums).(mode := Normal)
  {
    var started := s.(mode := Mode.Csi, params := "");
    NumbersOfRender(nums);
    RenderIsParameters(nums);
    IntroducerStarts(s);
    ParametersAreCollected(started, Render(nums));
    FeedAllAppends(s, ESC + "[", Render(nums));
    assert "" + Render(nums) == Render(nums);
    FeedAllLast(s, ESC + "[" + Render(nums), cmd);
  }

  // ---------------------------------------------------------------- cursor moves

  /** Same cells and same forced output, and ready for text. */
  ghost predicate SameText(s: Screen, s': Screen) {
    s'.grid == s.grid && Lines(s'.output, true) == Lines(s.output, true) && s'.mode.Normal?
  }

  lemma FlushedCommand(s: Screen, nums: seq<nat>, cmd: char)
    requires OnScreen(s) && s.mode.Normal? && nums != [] && IsCommand(cmd)
    ensures var r := Command(s.(mode := Mode.Csi, params := Render(nums)), cmd, nums);
            var s' := FeedAll(s, Control(nums, cmd));
            && s'.grid == r.grid && s'.x == r.x && s'.y == r.y && s'.mode.Normal?
            && Lines(s'.output, true) == Lines(r.output, true)
            && (r.y == s.y ==> s' == r.(mode := Normal))
  {
    CsiIsCommand(s, nums, cmd);
    FlushIsSilent(Command(s.(mode := Mode.Csi, params := Render(nums)), cmd, nums));
  }

  /** The moves by `n` cells, one if `n` is zero, stop at the edges; the screen and the forced
      output stay. */
  lemma MovesByParameter(s: Screen, n: nat, cmd: char)
    requires OnScreen(s) && s.mode.Normal? && cmd in {'A', 'B', 'C', 'D'}
    ensures var s', k := FeedAll(s, Control([n], cmd)), if n == 0 then 1 else n;
            && SameText(s, s')
            && s'.y == (if cmd == 'A' then (if k <= s.y then s.y - k else 0)
                        else if cmd == 'B' then (if s.y + k <= 23 then s.y + k else 23)
                        else s.y)
            && s'.x == (if cmd == 'D' then (if k <= s.x then s.x - k else 0)
                        else if cmd == 'C' then (if s.x + k <= 159 then s.x + k else 159)
                        else s.x)
  {
    FlushedCommand(s, [n], cmd);
  }

  /** An absolute move goes to the row and the column it names, counted from one. */
  lemma GoesToPosition(s: Screen, row: nat, column: nat, cmd: char)
    requires OnScreen(s) && s.mode.Normal? && cmd in {'H', 'f'} && 1 <= row <= 24 && 1 <= column <= 160
    ensures var s' := FeedAll(s, Control([row, column], cmd));
            SameText(s, s') && s'.y == row - 1 && s'.x == column - 1
  {
    FlushedCommand(s, [row, column], cmd);
  }

  /** A move to another row flushes: the rows above the cursor count as printed then. */
  lemma MovesFlush(s: Screen, nums: seq<nat>, cmd: char)
    requires OnScreen(s) && s.mode.Normal? && nums != [] && cmd in {'A', 'B', 'H', 'f'}
    ensures var s' := FeedAll(s, Control(nums, cmd)); s'.y != s.y ==> Flushed(s', s'.y)
  {
    CsiIsCommand(s, nums, cmd);
    var r := Command(s.(mode := Mode.Csi, params := Render(nums)), cmd, nums);
    FlushMarksRows(r, r.y);
  }

  /** A command that the terminal does not know changes nothing but the parameters read last. */
  lemma UnknownCommands(s: Screen, nums: seq<nat>, cmd: char)
    requires OnScreen(s) && s.mode.Normal? && nums != [] && IsCommand(cmd)
    requires cmd !in {'H', 'f', 'A', 'B', 'C', 'D', 'K', 'J', 'S'}
    ensures FeedAll(s, Control(nums, cmd)) == s.(params := Render(nums))
  {
    CsiIsCommand(s, nums, cmd);
  }

  /** Up and down again, and left and right again, come back, unless an edge was in the way. */
  lemma MovesComeBack(s: Screen, n: nat)
    requires OnScreen(s) && s.mode.Normal? && n > 0
    ensures n <= s.y ==> FeedAll(FeedAll(s, Control([n], 'A')), Control([n], 'B')).y == s.y
    ensures n <= s.x ==> FeedAll(FeedAll(s, Control([n], 'D')), Control([n], 'C')).x == s.x
  {
    MovesByParameter(s, n, 'A');
    MovesByParameter(s, n, 'D');
    MovesByParameter(FeedAll(s, Control([n], 'A')), n, 'B');
    MovesByParameter(FeedAll(s, Control([n], 'D')), n, 'C');
  }

  // ---------------------------------------------------------------- erasing

  /** The cells that an erase command blanks: to the right of the cursor, to its left, the row, or
      the whole screen. */
  predicate Erases(s: Screen, cmd: char, n: nat, r: nat, c: nat) {
    || (cmd == 'K' && r == s.y && ((n == 0 && c >= s.x) || (n == 1 && c <= s.x) || n == 2))
    || (cmd == 'J' && n == 2)
  }

  lemma ErasedCell(s: Screen, n: nat, cmd: char, r: nat, c: nat)
    requires OnScreen(s) && cmd in {'K', 'J'} && r < 24 && c < 160
    ensures Command(s, cmd, [n]).grid[r][c] == if Erases(s, cmd, n, r, c) then ' ' else s.grid[r][c]
  {
  }

  lemma ErasingPrintsNothing(s: Screen, n: nat, cmd: char)
    requires OnScreen(s) && cmd in {'K', 'J'}
    ensures var r := Command(s, cmd, [n]);
            && r.output == s.output && (r.x, r.y) == (if cmd == 'J' && n == 2 then (0, 0) else (s.x, s.y))
  {
  }

  /** Erasing blanks exactly these cells and prints nothing new for good; only clearing the whole
      screen moves the cursor, home. */
  lemma ErasesExactly(s: Screen, n: nat, cmd: char)
    requires OnScreen(s) && s.mode.Normal? && cmd in {'K', 'J'}
    ensures var s' := FeedAll(s, Control([n], cmd));
            && s'.mode.Normal? && Lines(s'.output, true) == Lines(s.output, true)
            && (forall r, c :: 0 <= r < 24 && 0 <= c < 160 ==>
                  s'.grid[r][c] == if Erases(s, cmd, n, r, c) then ' ' else s.grid[r][c])
            && (s'.x, s'.y) == (if cmd == 'J' && n == 2 then (0, 0) else (s.x, s.y))
  {
    FlushedCommand(s, [n], cmd);
    var started := s.(mode := Mode.Csi, params := Render([n]));
    ErasingPrintsNothing(started, n, cmd);
    forall r, c | 0 <= r < 24 && 0 <= c < 160
      ensures FeedAll(s, Control([n], cmd)).grid[r][c] == if Erases(s, cmd, n, r, c) then ' ' else s.grid[r][c]
    {
      ErasedCell(started, n, cmd, r, c);
    }
  }

  lemma ErasedShadow(s: Screen, n: nat, cmd: char)
    requires OnScreen(s) && cmd in {'K', 'J'}
    ensures var r := Command(s, cmd, [n]);
            && r.output == s.output && (r.y == s.y || r.y == 0)
            && r.shadow == if cmd == 'K' && n == 2 then s.shadow[s.y := ""]
                           else if cmd == 'J' && n == 2 then NoShadow()
                           else s.shadow
  {
  }

  lemma NothingAboveFirstRow(s: Screen)
    requires OnScreen(s) && s.y == 0
    ensures Flush(s) == s
  {
  }

  /** An erased row, and after clearing the screen every row, counts as not printed yet; erasing
      prints nothing. */
  lemma ErasedIsForgotten(s: Screen, n: nat, cmd: char)
    requires OnScreen(s) && s.mode.Normal? && cmd in {'K', 'J'}
    ensures FeedAll(s, Control([n], cmd)).shadow ==
            if cmd == 'K' && n == 2 then s.shadow[s.y := ""]
            else if cmd == 'J' && n == 2 then NoShadow()
            else s.shadow
    ensures FeedAll(s, Control([n], cmd)).output == s.output
  {
    CsiIsCommand(s, [n], cmd);
    var started := s.(mode := Mode.Csi, params := Render([n]));
    ErasedShadow(started, n, cmd);
    if Command(started, cmd, [n]).y == 0 { NothingAboveFirstRow(Command(started, cmd, [n])); }
  }

  lemma BlankRowsAppend(n: nat)
    ensures seq(n + 1, i => BlankRow()) == seq(n, i => BlankRow()) + [BlankRow()]
  {
  }

  lemma MoveRows(grid: seq<Row>, n: nat)
    requires n < |grid|
    ensures (grid[n..] + seq(n, i => BlankRow()))[1..] + [BlankRow()] == grid[n + 1..] + seq(n + 1, i => BlankRow())
    ensures (grid[n..] + seq(n, i => BlankRow()))[0] == grid[n]
  {
    BlankRowsAppend(n);
  }

  lemma {:induction false} ScrollMovesRows(s: Screen, n: nat)
    requires OnScreen(s) && n <= HEIGHT
    ensures ScrollTimes(s, n).grid == s.grid[n..] + seq(n, i => BlankRow())
  {
    if n > 0 {
      ScrollMovesRows(s, n - 1);
      MoveRows(s.grid, n - 1);
    }
  }

  lemma RowsShownOneMore(grid: seq<Row>, n: nat)
    requires n < |grid|
    ensures RowsShown(grid[..n + 1]) == RowsShown(grid[..n]) + Shown(RStrip(grid[n]))
  {
    assert grid[..n + 1][..n] == grid[..n];
  }

  lemma LinesAppend(a: seq<string>, b: seq<string>, c: seq<string>)
    ensures (a + b) + c == a + (b + c)
  {
  }

  lemma OneMoreRowForced(s: Screen, n: nat)
    requires OnScreen(s) && n < HEIGHT
    ensures Lines(ScrollTimes(s, n + 1).output, true)
         == Lines(ScrollTimes(s, n).output, true) + Shown(RStrip(s.grid[n]))
  {
    ScrollMovesRows(s, n);
    MoveRows(s.grid, n);
    ScrollForces(ScrollTimes(s, n));
  }

  /** Scrolling by some rows forces out what they show. */
  lemma {:induction false} ScrollForcesRows(s: Screen, n: nat)
    requires OnScreen(s) && n <= HEIGHT
    ensures Lines(ScrollTimes(s, n).output, true) == Lines(s.output, true) + RowsShown(s.grid[..n])
  {
    if n > 0 {
      ScrollForcesRows(s, n - 1);
      OneMoreRowForced(s, n - 1);
      RowsShownOneMore(s.grid, n - 1);
      LinesAppend(Lines(s.output, true), RowsShown(s.grid[..n - 1]), Shown(RStrip(s.grid[n - 1])));
    }
  }

  lemma ScrollCommand(s: Screen, n: nat)
    requires OnScreen(s) && n > 0
    ensures Command(s, 'S', [n]) == ScrollTimes(s, n)
  {
  }

  /** Scrolling by `n` rows forces out what the first `n` rows show, and moves the others up. */
  lemma ScrollsExactly(s: Screen, n: nat)
    requires OnScreen(s) && s.mode.Normal? && 0 < n <= HEIGHT
    ensures var s' := FeedAll(s, Control([n], 'S'));
            && s'.x == s.x && s'.y == s.y && s'.mode.Normal?
            && s'.grid == s.grid[n..] + seq(n, i => BlankRow())
            && Lines(s'.output, true) == Lines(s.output, true) + RowsShown(s.grid[..n])
  {
    FlushedCommand(s, [n], 'S');
    var started := s.(mode := Mode.Csi, params := Render([n]));
    ScrollCommand(started, n);
    ScrollForcesRows(started, n);
    ScrollMovesRows(started, n);
  }

  // ---------------------------------------------------------------- other characters

  lemma FeedOne(s: Screen, c: char)
    requires OnScreen(s)
    ensures FeedAll(s, [c]) == Feed(s, c)
  {
    FeedAllLast(s, "", c);
    assert "" + [c] == [c];
  }

  /** Carriage return, backspace and tab move the cursor within its row; other control characters
      but line feed and escape do nothing. */
  lemma ControlCharacters(s: Screen, c: char)
    requires OnScreen(s) && s.mode.Normal? && c as int < 32 && c != '\n' && c as int != 27
    ensures FeedAll(s, [c]) ==
            if c == '\r' then s.(x := 0)
            else if c as int == 8 then s.(x := if s.x > 0 then s.x - 1 else 0)
            else if c == '\t' then s.(x := if s.x < 152 then s.x + 8 - s.x % 8 else 159)
            else s
  {
    FeedOne(s, c);
  }

  /** A character set is selected, and any other escape that is no control sequence skipped, without
      a trace. */
  lemma EscapesAreSkipped(s: Screen, c: char)
    requires OnScreen(s) && s.mode.Normal?
    ensures c != '[' && c != '(' && c != ')' ==> FeedAll(s, ESC + [c]) == s
    ensures FeedAll(s, ESC + "(" + [c]) == s && FeedAll(s, ESC + ")" + [c]) == s
  {
    FeedOne(s, 27 as char);
    FeedAllLast(s, ESC, c);
    FeedAllLast(s, ESC, '(');
    FeedAllLast(s, ESC, ')');
    FeedAllLast(s, ESC + "(", c);
    FeedAllLast(s, ESC + ")", c);
  }
}
