/** Invariants of the terminal of module Terminal: what printing keeps, every character stream
    keeps (scripts/tmate_log_filter.py). */
module TerminalInvariants {
  import opened Prelude
  import opened Terminal

  // ---------------------------------------------------------------- invariants of every stream

  /** Same output, and at most the shadow of some rows is blank now. */
  ghost predicate PrintsNothing(s: Screen, s': Screen) {
    && s'.recent == s.recent && s'.output == s.output && |s'.shadow| == |s.shadow|
    && forall r :: 0 <= r < |s.shadow| ==> s'.shadow[r] == "" || s'.shadow[r] == s.shadow[r]
  }

  /** A property that printing keeps: changes that print nothing, scrolls and flushed rows. */
  ghost predicate KeptByPrinting(p: Screen -> bool) {
    && (forall s, s' {:trigger PrintsNothing(s, s')} :: p(s) && PrintsNothing(s, s') ==> p(s'))
    && (forall s {:trigger p(ScrollUp(s))} :: Sized(s) && p(s) ==> p(ScrollUp(s)))
    && (forall s, r: nat {:trigger p(FlushRow(s, r))} :: Sized(s) && r < HEIGHT && p(s) ==> p(FlushRow(s, r)))
  }

  type Invariant = p: Screen -> bool | KeptByPrinting(p) witness (s: Screen) => true

  lemma QuietKeeps(p: Invariant, s: Screen, s': Screen)
    requires p(s) && PrintsNothing(s, s')
    ensures p(s')
  {
  }

  lemma {:induction false} FlushRowsKeep(p: Invariant, s: Screen, n: nat)
    requires Sized(s) && n <= HEIGHT && p(s)
    ensures p(FlushRows(s, n))
  {
    if n > 0 { FlushRowsKeep(p, s, n - 1); }
  }

  lemma FlushKeeps(p: Invariant, s: Screen)
    requires Sized(s) && p(s)
    ensures p(Flush(s))
  {
    FlushRowsKeep(p, s, if s.y < HEIGHT then s.y else HEIGHT);
  }

  lemma ScrollKeeps(p: Invariant, s: Screen)
    requires Sized(s) && p(s)
    ensures p(ScrollUp(s))
  {
  }

  lemma NextRowKeeps(p: Invariant, s: Screen)
    requires OnScreen(s) && p(s)
    ensures p(NextRow(s))
  {
    var below := s.(y := s.y + 1);
    QuietKeeps(p, s, below);
    if s.y + 1 >= HEIGHT {
      ScrollKeeps(p, below);
      QuietKeeps(p, ScrollUp(below), ScrollUp(below).(y := HEIGHT - 1));
      FlushKeeps(p, ScrollUp(below).(y := HEIGHT - 1));
    } else {
      FlushKeeps(p, below);
    }
  }

  /** The screens before, between and after some scrolls. */
  ghost predicate ScrollTrace(states: seq<Screen>) {
    && states != [] && (forall i :: 0 <= i < |states| ==> OnScreen(states[i]))
    && forall i :: 0 <= i < |states| - 1 ==> states[i + 1] == ScrollUp(states[i])
  }

  lemma TraceGrows(states: seq<Screen>, s: Screen)
    requires ScrollTrace(states) && OnScreen(s) && s == ScrollUp(states[|states| - 1])
    ensures ScrollTrace(states + [s])
  {
  }

  lemma OneMoreScroll(s: Screen, n: nat)
    requires OnScreen(s) && n > 0
    ensures ScrollTimes(s, n) == ScrollUp(ScrollTimes(s, n - 1))
  {
  }

  lemma {:induction false} ScrollsTrace(s: Screen, n: nat) returns (states: seq<Screen>)
    requires OnScreen(s)
    ensures ScrollTrace(states) && states[0] == s && states[|states| - 1] == ScrollTimes(s, n)
  {
    if n == 0 {
      states := [s];
    } else {
      states := ScrollsTrace(s, n - 1);
      OneMoreScroll(s, n);
      TraceGrows(states, ScrollTimes(s, n));
      states := states + [ScrollTimes(s, n)];
    }
  }

  lemma {:induction false} TraceKeeps(p: Invariant, states: seq<Screen>, i: nat)
    requires ScrollTrace(states) && i < |states| && p(states[0])
    ensures p(states[i])
  {
    if i > 0 {
      TraceKeeps(p, states, i - 1);
      ScrollKeeps(p, states[i - 1]);
    }
  }

  lemma ScrollTimesKeeps(p: Invariant, s: Screen, n: nat)
    requires OnScreen(s) && p(s)
    ensures p(ScrollTimes(s, n))
  {
    var states := ScrollsTrace(s, n);
    TraceKeeps(p, states, |states| - 1);
  }

  lemma MovesAndErasuresPrintNothing(s: Screen, cmd: char, nums: seq<nat>)
    requires OnScreen(s) && nums != [] && cmd != 'S'
    ensures PrintsNothing(s, Command(s, cmd, nums))
  {
  }

  lemma QuietCommandKeeps(p: Invariant, s: Screen, cmd: char, nums: seq<nat>)
    requires OnScreen(s) && p(s) && nums != [] && cmd != 'S'
    ensures p(Command(s, cmd, nums))
  {
    MovesAndErasuresPrintNothing(s, cmd, nums);
    QuietKeeps(p, s, Command(s, cmd, nums));
  }

  lemma CommandKeeps(p: Invariant, s: Screen, cmd: char, nums: seq<nat>)
    requires OnScreen(s) && p(s) && nums != []
    ensures p(Command(s, cmd, nums))
  {
    if cmd == 'S' {
      assert Command(s, cmd, nums) == ScrollTimes(s, Count(nums, 0));
      ScrollTimesKeeps(p, s, Count(nums, 0));
    } else {
      QuietCommandKeeps(p, s, cmd, nums);
    }
  }

  lemma ApplyCsiKeeps(p: Invariant, s: Screen, cmd: char, params: string)
    requires OnScreen(s) && p(s)
    ensures p(ApplyCsi(s, cmd, params))
  {
    CommandKeeps(p, s, cmd, Numbers(params));
    FlushKeeps(p, Command(s, cmd, Numbers(params)));
  }

  lemma TypeKeeps(p: Invariant, s: Screen, c: char)
    requires OnScreen(s) && p(s)
    ensures p(Type(s, c))
  {
    var typed := s.(grid := s.grid[s.y := s.grid[s.y][s.x := c]]);
    QuietKeeps(p, s, typed.(x := 0));
    QuietKeeps(p, s, typed.(x := s.x + 1));
    if s.x + 1 >= WIDTH { NextRowKeeps(p, typed.(x := 0)); }
  }

  predicate EndsCsi(s: Screen, c: char) {
    s.mode.Csi? && !(IsDigit(c) || c == ';' || c == '?')
  }

  lemma OtherCharactersPrintNothing(s: Screen, c: char)
    requires OnScreen(s) && !EndsCsi(s, c) && !(s.mode.Normal? && (c == '\n' || c as int >= 32))
    ensures PrintsNothing(s, Feed(s, c))
  {
  }

  lemma FeedKeeps(p: Invariant, s: Screen, c: char)
    requires OnScreen(s) && p(s)
    ensures p(Feed(s, c))
  {
    if s.mode.Normal? && c == '\n' {
      NextRowKeeps(p, s);
    } else if s.mode.Normal? && c as int >= 32 {
      TypeKeeps(p, s, c);
    } else if EndsCsi(s, c) {
      ApplyCsiKeeps(p, s, c, s.params);
      QuietKeeps(p, ApplyCsi(s, c, s.params), ApplyCsi(s, c, s.params).(mode := Normal));
    } else {
      OtherCharactersPrintNothing(s, c);
      QuietKeeps(p, s, Feed(s, c));
    }
  }

  /** What printing keeps, every character stream keeps. */
  lemma {:induction false} StreamKeeps(p: Invariant, text: string)
    requires p(Initial())
    ensures p(FeedAll(Initial(), text))
  {
    if text != "" {
      StreamKeeps(p, text[..|text| - 1]);
      FeedKeeps(p, FeedAll(Initial(), text[..|text| - 1]), text[|text| - 1]);
    }
  }
}
