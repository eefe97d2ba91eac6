/** Stages of a pipeline, their dependencies, and the selection of target stages with everything
    upstream of them (src/planner/stage_plan.py). */
module StageGraph {
  import opened Prelude

  type Name = string

  /** `intrinsic` is why the stage is out of date by itself: its parameters, its dependencies or
      its absence from dvc.lock. It is not consulted for frozen or always_changed stages. */
  datatype Stage = Stage(ups: seq<Name>, frozen: bool, alwaysChanged: bool, intrinsic: Option<string>)

  type Stages = map<Name, Stage>

  /** Upstream references stay inside the pipeline. */
  ghost predicate Closed(g: Stages) {
    forall n, u :: n in g && u in g[n].ups ==> u in g
  }

  /** Every stage once, each after its upstream stages. */
  ghost predicate TopologicalOrder(g: Stages, topo: seq<Name>) {
    && Enumerates(topo, g.Keys)
    && forall i, u :: 0 <= i < |topo| && u in g[topo[i]].ups ==> u in topo[..i]
  }

  ghost function Position(g: Stages, topo: seq<Name>, n: Name): (i: nat)
    requires TopologicalOrder(g, topo) && n in g
    ensures i < |topo| && topo[i] == n
  {
    assert n in topo;
    var i :| 0 <= i < |topo| && topo[i] == n;
    i
  }

  /** A walk along dependencies, upstream first. */
  ghost predicate Walk(g: Stages, p: seq<Name>) {
    && (forall i :: 0 <= i < |p| ==> p[i] in g)
    && (forall i :: 1 <= i < |p| ==> p[i - 1] in g[p[i]].ups)
  }

  /** In an acyclic pipeline a walk has distinct stages, so it is no longer than the pipeline. */
  lemma {:induction false} WalkClimbs(g: Stages, topo: seq<Name>, p: seq<Name>, i: nat, j: nat)
    requires TopologicalOrder(g, topo) && Walk(g, p) && i < j < |p|
    ensures Position(g, topo, p[i]) < Position(g, topo, p[j])
    decreases j
  {
    if i < j - 1 { WalkClimbs(g, topo, p, i, j - 1); }
  }

  lemma WalkFits(g: Stages, topo: seq<Name>, p: seq<Name>)
    requires TopologicalOrder(g, topo) && Walk(g, p)
    ensures |p| <= |g|
  {
    forall i, j | 0 <= i < j < |p| ensures p[i] != p[j] {
      WalkClimbs(g, topo, p, i, j);
    }
    NoDupFits(p, g.Keys);
  }

  // ---------------------------------------------------------------- target resolution

  /** A target is a stage name, or the base name of foreach stages `target@item`. */
  function Matches(names: set<Name>, target: string): set<Name> {
    if target in names then {target}
    else set n | n in names && StartsWith(n, target + "@")
  }

  /** A name of a foreach stage is its base name, an at sign and the item. */
  predicate IsInstance(n: Name, base: string, item: string) {
    n == base + "@" + item
  }

  lemma MatchesExactly(names: set<Name>, target: string, n: Name)
    ensures n in Matches(names, target) <==>
            n in names && (n == target || (target !in names && exists item :: IsInstance(n, target, item)))
  {
    if StartsWith(n, target + "@") { assert IsInstance(n, target, n[|target| + 1..]); }
    forall item | IsInstance(n, target, item) ensures StartsWith(n, target + "@") {
      assert n[..|target| + 1] == target + "@";
    }
  }

  function TargetSet(names: set<Name>, targets: seq<string>): (r: set<Name>)
    ensures r <= names
  {
    set t, n | t in targets && n in Matches(names, t) :: n
  }

  datatype Resolution = Resolved(names: set<Name>) | UnknownStage(target: string)

  /** The resolution loop: the first target that matches nothing is an error. */
  method ResolveTargets(names: set<Name>, targets: seq<string>) returns (r: Resolution)
    ensures r.Resolved? <==> forall t :: t in targets ==> Matches(names, t) != {}
    ensures r.Resolved? ==> r.names == TargetSet(names, targets)
    ensures r.UnknownStage? ==> r.target in targets && Matches(names, r.target) == {}
  {
    var resolved: set<Name> := {};
    for i := 0 to |targets|
      invariant forall t :: t in targets[..i] ==> Matches(names, t) != {}
      invariant resolved == TargetSet(names, targets[..i])
    {
      var t := targets[i];
      assert t in targets && targets[..i + 1] == targets[..i] + [t];
      var matched := false;
      ghost var before := resolved;
      if t in names {
        resolved := resolved + {t};
        matched := true;
      } else {
        var foreachMatches := set n | n in names && StartsWith(n, t + "@");
        if foreachMatches != {} {
          resolved := resolved + foreachMatches;
          matched := true;
        }
      }
      if !matched {
        return UnknownStage(t);
      }
      assert resolved == before + Matches(names, t) == TargetSet(names, targets[..i + 1]);
    }
    assert targets[..|targets|] == targets;
    return Resolved(resolved);
  }

  // ---------------------------------------------------------------- upstream closure

  function Expand(g: Stages, s: set<Name>): set<Name> {
    s + set u, n | n in g && n in s && u in g[n].ups && u in g :: u
  }

  /** The selected stages with all their ancestors. */
  function Closure(g: Stages, s: set<Name>): (r: set<Name>)
    requires s <= g.Keys
    ensures s <= r <= g.Keys
    decreases g.Keys - s
  {
    var more := Expand(g, s);
    if more == s then s
    else
      assert g.Keys - more < g.Keys - s by {
        var x :| x in more && x !in s;
        assert x in g.Keys - s && x !in g.Keys - more;
      }
      Closure(g, more)
  }

  ghost predicate AncestorClosed(g: Stages, s: set<Name>) {
    forall n, u :: n in s && n in g && u in g[n].ups && u in g ==> u in s
  }

  /** The closure is the least ancestor-closed set that contains the selection. */
  lemma {:induction false} ClosureIsLeast(g: Stages, s: set<Name>)
    requires s <= g.Keys
    ensures AncestorClosed(g, Closure(g, s))
    ensures forall c :: s <= c && AncestorClosed(g, c) ==> Closure(g, s) <= c
    decreases g.Keys - s
  {
    var more := Expand(g, s);
    if more == s {
      forall n, u | n in s && n in g && u in g[n].ups && u in g ensures u in s {
        assert u in more;
      }
    } else {
      var x :| x in more && x !in s;
      assert x in g.Keys - s && x !in g.Keys - more;
      ClosureIsLeast(g, more);
      forall c | s <= c && AncestorClosed(g, c) ensures Closure(g, s) <= c {
        assert more <= c;
      }
    }
  }

  /** The stages, and their upstream references, that lie in a selection. */
  function Restrict(g: Stages, s: set<Name>): Stages {
    map n | n in g && n in s :: g[n].(ups := KeepIn(g[n].ups, s))
  }

  function KeepIn(ups: seq<Name>, s: set<Name>): (r: seq<Name>)
    ensures forall u :: u in r <==> u in ups && u in s
  {
    if ups == [] then []
    else
      var last := ups[|ups| - 1];
      assert ups == ups[..|ups| - 1] + [last];
      KeepIn(ups[..|ups| - 1], s) + (if last in s then [last] else [])
  }

  lemma {:induction false} KeepAll(ups: seq<Name>, s: set<Name>)
    requires forall u :: u in ups ==> u in s
    ensures KeepIn(ups, s) == ups
  {
    if ups != [] {
      assert ups == ups[..|ups| - 1] + [ups[|ups| - 1]];
      KeepAll(ups[..|ups| - 1], s);
    }
  }

  /** Restricting to an ancestor-closed selection changes no stage of the selection. */
  lemma RestrictKeepsStages(g: Stages, s: set<Name>)
    requires Closed(g) && AncestorClosed(g, s)
    ensures forall n :: n in g && n in s ==> Restrict(g, s)[n] == g[n]
  {
    forall n | n in g && n in s ensures Restrict(g, s)[n] == g[n] {
      KeepAll(g[n].ups, s);
    }
  }
}
