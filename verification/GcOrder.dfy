/** In which order the garbage collector of module TieredGc reaches the workspaces
    (src/runner/gc_orchestrator.py). */
module GcOrder {
  import opened Prelude
  import opened TieredGc
  import opened GcStore

  lemma {:induction false} GoneByOne(d: Disk, log: seq<Action>, works: Action -> bool, q: Name)
    requires q in d.dirs && q !in Effects(d, log, works).dirs
    ensures exists r :: RemoveWorkspace(r) in log && Under(q, r)
  {
    var front, a := log[..|log| - 1], log[|log| - 1];
    assert log == front + [a];
    if q !in Effects(d, front, works).dirs {
      GoneByOne(d, front, works, q);
      var r :| RemoveWorkspace(r) in front && Under(q, r);
      assert RemoveWorkspace(r) in log;
    } else {
      assert a.RemoveWorkspace? && RemoveWorkspace(a.n) in log;
    }
  }

  lemma {:induction false} EarlierHadTheirTurn(d: Disk, el: seq<Name>, works: Action -> bool, done: seq<Action>, j: nat)
    requires NoDup(el) && j < |el| && done <= Tier5(d, el, works) && RemoveWorkspace(el[j]) in done
    ensures Tier5(d, el[..j], works) <= done
  {
    var n := |el| - 1;
    var front := el[..n];
    var before := Tier5(d, front, works);
    if |done| <= |before| {
      assert done <= before;
      assert el[j] in front;
      assert front[..j] == el[..j] && front[j] == el[j];
      EarlierHadTheirTurn(d, front, works, done, j);
    } else {
      assert before <= done;
      assert front[..j] == el[..j];
      Tier5Begins(d, front, works, j);
    }
  }

  /** The workspace of `q`, or one that contains it, was removed. */
  ghost predicate HadTurn(log: seq<Action>, q: Name) {
    exists r :: RemoveWorkspace(r) in log && Under(q, r)
  }

  lemma Tier5Grows(d: Disk, el: seq<Name>, works: Action -> bool, i: nat, j: nat)
    requires i <= j <= |el|
    ensures Tier5(d, el[..i], works) <= Tier5(d, el[..j], works)
  {
    assert el[..j][..i] == el[..i];
    Tier5Begins(d, el[..j], works, i);
  }

  /** The turn of a project: its workspace is removed, or it is gone already. */
  lemma TurnOf(d: Disk, el: seq<Name>, works: Action -> bool, i: nat)
    requires i < |el| && el[i] in d.dirs
    ensures HadTurn(Tier5(d, el[..i + 1], works), el[i])
  {
    assert el[..i + 1][..i] == el[..i];
    var t := Tier5(d, el[..i], works);
    if el[i] in Effects(d, t, works).dirs {
      assert RemoveWorkspace(el[i]) in Tier5(d, el[..i + 1], works) && Under(el[i], el[i]);
    } else {
      GoneByOne(d, t, works, el[i]);
      var r :| RemoveWorkspace(r) in t && Under(el[i], r);
      assert RemoveWorkspace(r) in Tier5(d, el[..i + 1], works);
    }
  }

  lemma HadTurnBefore(d: Disk, el: seq<Name>, works: Action -> bool, i: nat, j: nat)
    requires i < j <= |el| && el[i] in d.dirs
    ensures HadTurn(Tier5(d, el[..j], works), el[i])
  {
    Tier5Grows(d, el, works, i + 1, j);
    TurnOf(d, el, works, i);
  }

  lemma OlderWentFirst(d: Disk, el: seq<Name>, works: Action -> bool, done: seq<Action>, i: nat, j: nat)
    requires NoDup(el) && i < j < |el| && done <= Tier5(d, el, works) && el[i] in d.dirs
    requires RemoveWorkspace(el[j]) in done
    ensures HadTurn(done, el[i])
  {
    EarlierHadTheirTurn(d, el, works, done, j);
    HadTurnBefore(d, el, works, i, j);
  }

  /** A log that has come to the workspaces has all of the tiers before them. */
  lemma SplitLog(early: seq<Action>, last: seq<Action>, log: seq<Action>, p: Name) returns (done: seq<Action>)
    requires log <= early + last && RemoveWorkspace(p) in log && forall a :: a in early ==> !a.RemoveWorkspace?
    ensures log == early + done && done <= last && RemoveWorkspace(p) in done
  {
    var i :| 0 <= i < |log| && log[i] == RemoveWorkspace(p);
    forall k | 0 <= k < |early| ensures early[k] != RemoveWorkspace(p) {
      assert early[k] in early;
    }
    done := log[|early|..];
    assert done[i - |early|] == RemoveWorkspace(p);
  }

  /** When a workspace is removed, every earlier tier is done, and every older eligible workspace
      had its turn, or lay in one that had. */
  lemma WorkspacesGoInLruOrder(w: World, d: Disk, images: seq<Image>, works: Action -> bool, log: seq<Action>,
                               p: Name, q: Name)
    requires log <= Plan(w, d, images, works) && RemoveWorkspace(p) in log && NoDup(w.order)
    requires q in w.order && Eligible(w, q) && q in d.dirs && Age(w, q) < Age(w, p)
    ensures [Prune] + EarlyTiers(w, d, images, Collect(w, w.order)) <= log
    ensures HadTurn(log, q)
  {
    var el := Collect(w, w.order);
    CollectSorts(w, w.order);
    assert q in el;
    PlanIsEarlyThenLast(w, d, images, works);
    EarlyKeepsWorkspaces(w, d, images, el);
    var done := SplitLog([Prune] + EarlyTiers(w, d, images, el), Tier5(d, el, works), log, p);
    var j :| 0 <= j < |el| && el[j] == p;
    var i :| 0 <= i < |el| && el[i] == q;
    OlderWentFirst(d, el, works, done, i, j);
    var r :| RemoveWorkspace(r) in done && Under(q, r);
    assert RemoveWorkspace(r) in log;
  }
}
