/** The shadow of the terminal of module Terminal: what it marks as printed was printed
    (scripts/tmate_log_filter.py, last_printed_content). */
module TerminalShadow {
  import opened Prelude
  import opened Terminal
  import opened TerminalInvariants
  import opened TerminalOutput

  // ---------------------------------------------------------------- the marks of the shadow

  /** The text was printed unforced, now or earlier, or shows nothing. */
  ghost predicate Accounted(lines: seq<string>, text: string) {
    forall l :: l in Shown(text) ==> l in lines
  }

  ghost predicate AllAccounted(lines: seq<string>, shadow: seq<string>) {
    forall r :: 0 <= r < |shadow| ==> Accounted(lines, shadow[r])
  }

  /** The screen's window is right and each mark of the shadow is accounted for. */
  ghost predicate Marked(s: Screen) {
    Windowed(s) && AllAccounted(Lines(s.output, false), s.shadow)
  }

  lemma PrintAccounts(s: Screen, text: string, force: bool)
    requires Windowed(s)
    ensures Lines(s.output, false) <= Lines(PrintLine(s, text, force).output, false)
    ensures !force ==> Accounted(Lines(PrintLine(s, text, force).output, false), text)
  {
    OneMoreLine(s, Strip(text), true);
    OneMoreLine(s, Strip(text), false);
  }

  lemma MarksStay(before: seq<string>, after: seq<string>, shadow: seq<string>)
    requires before <= after && AllAccounted(before, shadow)
    ensures AllAccounted(after, shadow)
  {
    forall r, l | 0 <= r < |shadow| && l in Shown(shadow[r]) ensures l in after {
      assert Accounted(before, shadow[r]);
    }
  }

  lemma NothingToAccount(lines: seq<string>)
    ensures Accounted(lines, "")
  {
  }

  lemma FlushRowKeepsMarks(s: Screen, r: nat)
    requires Sized(s) && r < HEIGHT && Marked(s)
    ensures Marked(FlushRow(s, r))
  {
    var line := RStrip(s.grid[r]);
    PrintAccounts(s, line, false);
    FlushRowKeepsWindow(s, r);
    MarksStay(Lines(s.output, false), Lines(PrintLine(s, line, false).output, false), s.shadow);
  }

  lemma ScrollKeepsMarks(s: Screen)
    requires Sized(s) && Marked(s)
    ensures Marked(ScrollUp(s))
  {
    var up := s.(grid := s.grid[1..] + [BlankRow()], shadow := s.shadow[1..] + [""]);
    NothingToAccount(Lines(s.output, false));
    assert AllAccounted(Lines(s.output, false), up.shadow);
    PrintAccounts(up, RStrip(s.grid[0]), true);
    ScrollKeepsWindow(s);
    MarksStay(Lines(s.output, false), Lines(ScrollUp(s).output, false), up.shadow);
  }

  lemma SameMarks(s: Screen, s': Screen)
    requires Marked(s) && PrintsNothing(s, s')
    ensures Marked(s')
  {
    NothingToAccount(Lines(s.output, false));
  }

  lemma MarksAreKept()
    ensures KeptByPrinting(s => Marked(s))
  {
    forall s, s' | Marked(s) && PrintsNothing(s, s') ensures Marked(s') { SameMarks(s, s'); }
    forall s | Sized(s) && Marked(s) ensures Marked(ScrollUp(s)) { ScrollKeepsMarks(s); }
    forall s, r: nat | Sized(s) && r < HEIGHT && Marked(s) ensures Marked(FlushRow(s, r)) { FlushRowKeepsMarks(s, r); }
  }

  /** For every character stream, what the shadow holds for a row was printed unforced, now or
      earlier, unless the filters leave that text out: no row is marked that was not printed. */
  lemma ShadowWasPrinted(text: string)
    ensures Marked(FeedAll(Initial(), text))
  {
    NothingToAccount([]);
    MarksAreKept();
    StreamKeeps(s => Marked(s), text);
  }
}
