/** Staleness propagation and remaining-path priorities of the stage planner
    (src/planner/stage_plan.py, steps 2 and 3). */
module Staleness {
  import opened Prelude
  import opened StageGraph

  datatype Reason = AlwaysChanged | Intrinsic(why: string) | UpstreamStale(stage: Name) | SkippedByFilter

  /** Final staleness of the stages decided so far; None stands for up to date. */
  type Verdicts = map<Name, Option<Reason>>

  function IntrinsicReason(s: Stage): Option<Reason> {
    if s.frozen then None
    else if s.alwaysChanged then Some(AlwaysChanged)
    else if s.intrinsic.Some? then Some(Intrinsic(s.intrinsic.value))
    else None
  }

  /** A stale stage passes its staleness on unless it is only an always_changed one. */
  predicate PassesOn(v: Verdicts, u: Name) {
    u in v && v[u].Some? && v[u] != Some(AlwaysChanged)
  }

  function FirstPassingOn(v: Verdicts, ups: seq<Name>): (r: Option<Name>)
    ensures r.Some? <==> exists u :: u in ups && PassesOn(v, u)
    ensures r.Some? ==> r.value in ups && PassesOn(v, r.value)
  {
    if ups == [] then None
    else if PassesOn(v, ups[0]) then Some(ups[0])
    else FirstPassingOn(v, ups[1..])
  }

  lemma {:induction false} NoneBeforePassesOn(v: Verdicts, ups: seq<Name>) returns (i: nat)
    requires FirstPassingOn(v, ups).Some?
    ensures i < |ups| && FirstPassingOn(v, ups) == Some(ups[i]) && forall j :: 0 <= j < i ==> !PassesOn(v, ups[j])
  {
    if PassesOn(v, ups[0]) {
      i := 0;
    } else {
      i := NoneBeforePassesOn(v, ups[1..]);
      i := i + 1;
      assert forall j :: 0 < j < i ==> ups[j] == ups[1..][j - 1];
    }
  }

  function Decide(v: Verdicts, s: Stage): Option<Reason> {
    if s.frozen then None
    else if IntrinsicReason(s).Some? then IntrinsicReason(s)
    else match FirstPassingOn(v, s.ups)
         case Some(u) => Some(UpstreamStale(u))
         case None => None
  }

  /** Every stage has the verdict that its upstream verdicts call for. */
  ghost predicate Consistent(g: Stages, v: Verdicts) {
    v.Keys == g.Keys && forall n :: n in g ==> v[n] == Decide(v, g[n])
  }

  /** The body of step 2 for one stage. */
  method DecideStage(v: Verdicts, stage: Stage) returns (verdict: Option<Reason>)
    ensures verdict == Decide(v, stage)
  {
    if stage.frozen {
      return None;
    }
    var intrinsic := IntrinsicReason(stage);
    if intrinsic.Some? {
      return intrinsic;
    }
    for i := 0 to |stage.ups|
      invariant FirstPassingOn(v, stage.ups) == FirstPassingOn(v, stage.ups[i..])
    {
      if PassesOn(v, stage.ups[i]) {
        return Some(UpstreamStale(stage.ups[i]));
      }
    }
    return None;
  }

  /** Step 2: visit the stages in a topological order and decide each from those before it. */
  method PropagateStaleness(g: Stages, topo: seq<Name>) returns (v: Verdicts)
    requires TopologicalOrder(g, topo)
    ensures Consistent(g, v)
  {
    v := map[];
    for i := 0 to |topo|
      invariant DecidedUpTo(g, topo, v, i)
    {
      assert topo[i] in topo;
      var verdict := DecideStage(v, g[topo[i]]);
      OneMoreDecided(g, topo, v, i);
      v := v[topo[i] := verdict];
    }
    assert topo[..|topo|] == topo;
  }

  /** The first `i` stages have the verdicts that their rule gives. */
  ghost predicate DecidedUpTo(g: Stages, topo: seq<Name>, v: Verdicts, i: nat)
    requires i <= |topo|
  {
    && (forall n :: n in v <==> n in topo[..i])
    && (forall n :: n in v ==> n in g && v[n] == Decide(v, g[n]))
  }

  lemma OneMoreDecided(g: Stages, topo: seq<Name>, v: Verdicts, i: nat)
    requires TopologicalOrder(g, topo) && i < |topo| && topo[i] in g && DecidedUpTo(g, topo, v, i)
    ensures DecidedUpTo(g, topo, v[topo[i] := Decide(v, g[topo[i]])], i + 1)
  {
    assert topo[i] !in topo[..i] && topo[..i + 1] == topo[..i] + [topo[i]];
    DecidedStays(g, topo, v, i, Decide(v, g[topo[i]]));
  }

  /** A later verdict does not touch the upstream stages of an earlier one. */
  lemma DecidedStays(g: Stages, topo: seq<Name>, v: Verdicts, i: nat, verdict: Option<Reason>)
    requires TopologicalOrder(g, topo) && i < |topo|
    requires forall n :: n in v <==> n in topo[..i]
    ensures forall n :: n in v && n in g ==> Decide(v[topo[i] := verdict], g[n]) == Decide(v, g[n])
    ensures topo[i] in g ==> Decide(v[topo[i] := verdict], g[topo[i]]) == Decide(v, g[topo[i]])
  {
    var v' := v[topo[i] := verdict];
    forall n | n in g && (n in v || n == topo[i]) ensures Decide(v', g[n]) == Decide(v, g[n]) {
      var j :| 0 <= j <= i && topo[j] == n;
      forall u | u in g[n].ups ensures u != topo[i] {
        assert u in topo[..j];
      }
      SameUpstream(v, v', g[n].ups);
    }
  }

  lemma {:induction false} SameUpstream(v: Verdicts, v': Verdicts, ups: seq<Name>)
    requires forall u :: u in ups ==> Lookup(v, u) == Lookup(v', u)
    ensures FirstPassingOn(v, ups) == FirstPassingOn(v', ups)
  {
    if ups != [] {
      assert Lookup(v, ups[0]) == Lookup(v', ups[0]);
      SameUpstream(v, v', ups[1..]);
    }
  }

  // ---------------------------------------------------------------- what the verdicts mean

  /** A walk from a stage that is stale by itself, through stages that pass staleness on. */
  ghost predicate StaleWalk(g: Stages, p: seq<Name>) {
    && p != [] && Walk(g, p)
    && !g[p[0]].frozen && (g[p[0]].alwaysChanged || g[p[0]].intrinsic.Some?)
    && forall i :: 0 <= i < |p| - 1 ==> !g[p[i]].frozen && !g[p[i]].alwaysChanged
  }

  ghost predicate ReachedByStale(g: Stages, n: Name) {
    exists p :: StaleWalk(g, p) && p[|p| - 1] == n
  }

  lemma {:induction false} WalkMakesStale(g: Stages, v: Verdicts, p: seq<Name>, i: nat)
    requires Consistent(g, v) && StaleWalk(g, p) && i < |p|
    ensures !g[p[i]].frozen ==> v[p[i]].Some?
    ensures i < |p| - 1 ==> PassesOn(v, p[i])
  {
    if i > 0 {
      WalkMakesStale(g, v, p, i - 1);
      assert p[i - 1] in g[p[i]].ups;
    }
  }

  lemma LongerStaleWalk(g: Stages, p: seq<Name>, n: Name)
    requires StaleWalk(g, p) && n in g && p[|p| - 1] in g[n].ups
    requires !g[p[|p| - 1]].frozen && !g[p[|p| - 1]].alwaysChanged
    ensures StaleWalk(g, p + [n])
  {
  }

  /** Following the upstream_stale reasons from a stale stage ends, in an acyclic pipeline, at a
      stage that is stale by itself; the trace, read backwards, is a stale walk. */
  lemma {:induction false} ReasonsEndAtIntrinsic(g: Stages, topo: seq<Name>, v: Verdicts, n: Name)
    returns (p: seq<Name>)
    requires TopologicalOrder(g, topo) && Consistent(g, v) && n in g && v[n].Some?
    ensures StaleWalk(g, p) && p[|p| - 1] == n
    ensures forall i :: 1 <= i < |p| ==> v[p[i]] == Some(UpstreamStale(p[i - 1]))
    ensures v[p[0]] == Some(if g[p[0]].alwaysChanged then AlwaysChanged else Intrinsic(g[p[0]].intrinsic.value))
    ensures |p| > 1 ==> !g[p[0]].alwaysChanged
    decreases Position(g, topo, n)
  {
    if IntrinsicReason(g[n]).Some? {
      p := [n];
    } else {
      var u := FirstPassingOn(v, g[n].ups).value;
      p := ReasonsEndAtIntrinsic(g, topo, v, u);
      LongerStaleWalk(g, p, n);
      p := p + [n];
    }
  }

  /** A non-frozen stage is stale exactly when it is stale by itself or a walk reaches it from
      such a stage through stages that are neither frozen nor always_changed; a frozen stage
      never is. The topological order plays no part. */
  lemma StaleIffReached(g: Stages, topo: seq<Name>, v: Verdicts, n: Name)
    requires TopologicalOrder(g, topo) && Consistent(g, v) && n in g
    ensures v[n].Some? <==> !g[n].frozen && ReachedByStale(g, n)
  {
    if v[n].Some? {
      var p := ReasonsEndAtIntrinsic(g, topo, v, n);
    }
    if !g[n].frozen && ReachedByStale(g, n) {
      var p :| StaleWalk(g, p) && p[|p| - 1] == n;
      WalkMakesStale(g, v, p, |p| - 1);
    }
  }

  /** There is only one consistent set of verdicts, whichever order produced it. */
  lemma {:induction false} VerdictsAgree(g: Stages, topo: seq<Name>, v: Verdicts, g': Stages, v': Verdicts, n: Name)
    requires TopologicalOrder(g, topo) && Consistent(g, v) && Consistent(g', v')
    requires n in g && n in g' && g'[n] == g[n]
    requires forall m :: m in g' && m in g ==> g'[m] == g[m]
    requires Closed(g')
    ensures v'[n] == v[n]
    decreases Position(g, topo, n)
  {
    forall u | u in g[n].ups ensures Lookup(v, u) == Lookup(v', u) {
      assert u in g'[n].ups;
      VerdictsAgree(g, topo, v, g', v', u);
    }
    SameUpstream(v, v', g[n].ups);
  }

  // ---------------------------------------------------------------- priorities

  /** A downstream chain of stale stages. */
  ghost predicate StaleChain(g: Stages, v: Verdicts, c: seq<Name>) {
    Walk(g, c) && forall i :: 0 <= i < |c| ==> c[i] in v && v[c[i]].Some?
  }

  ghost predicate ChainsAtMost(g: Stages, v: Verdicts, n: Name, p: nat) {
    forall c :: StaleChain(g, v, c) && c != [] && c[0] == n ==> |c| <= p
  }

  /** `p` is the number of stages on the longest chain of stale stages that starts at `n`; it is
      0 for a stage that is not stale. */
  ghost predicate IsPriority(g: Stages, v: Verdicts, n: Name, p: nat) {
    && ChainsAtMost(g, v, n, p)
    && (p > 0 ==> exists c :: StaleChain(g, v, c) && c != [] && c[0] == n && |c| == p)
  }

  lemma PriorityUnique(g: Stages, v: Verdicts, n: Name, p: nat, q: nat)
    requires IsPriority(g, v, n, p) && IsPriority(g, v, n, q)
    ensures p == q
  {
  }

  /** The downstream lists are the inverse of the upstream ones. */
  ghost predicate Inverse(g: Stages, downs: map<Name, seq<Name>>) {
    && downs.Keys == g.Keys
    && forall n, d :: n in g ==> (d in downs[n] <==> d in g && n in g[d].ups)
  }

  /** No chain from the first `i` listed stages has more than `best` stages. */
  ghost predicate BoundedSoFar(g: Stages, v: Verdicts, list: seq<Name>, i: nat, best: nat)
    requires i <= |list|
  {
    forall j :: 0 <= j < i && list[j] in v && v[list[j]].Some? ==> ChainsAtMost(g, v, list[j], best)
  }

  lemma BoundOneMore(g: Stages, v: Verdicts, list: seq<Name>, i: nat, best: nat, q: nat)
    requires i < |list| && BoundedSoFar(g, v, list, i, best)
    requires list[i] in v && v[list[i]].Some? ==> ChainsAtMost(g, v, list[i], q)
    ensures BoundedSoFar(g, v, list, i + 1, if q >= best then q else best)
  {
  }

  /** What the recursion computes from the priorities of the stale downstream stages. */
  lemma PriorityStep(g: Stages, v: Verdicts, n: Name, downs: map<Name, seq<Name>>, best: nat, argmax: Option<Name>)
    requires n in g && n in v && v[n].Some? && Inverse(g, downs)
    requires BoundedSoFar(g, v, downs[n], |downs[n]|, best)
    requires argmax.None? ==> best == 0
    requires argmax.Some? ==> argmax.value in downs[n] && IsPriority(g, v, argmax.value, best)
    ensures IsPriority(g, v, n, 1 + best)
  {
    forall c | StaleChain(g, v, c) && c != [] && c[0] == n ensures |c| <= 1 + best {
      if |c| > 1 {
        var rest := c[1..];
        assert c[1 - 1] in g[c[1]].ups;
        forall i | 1 <= i < |rest| ensures rest[i - 1] in g[rest[i]].ups {
          assert c[i + 1 - 1] in g[c[i + 1]].ups;
        }
        assert StaleChain(g, v, rest) && rest[0] == c[1] && c[1] in downs[n];
      }
    }
    if best == 0 {
      assert StaleChain(g, v, [n]);
    } else {
      var d := argmax.value;
      var c :| StaleChain(g, v, c) && c != [] && c[0] == d && |c| == best;
      assert StaleChain(g, v, [n] + c);
    }
  }

  ghost predicate MemoOk(g: Stages, v: Verdicts, memo: map<Name, nat>) {
    forall n :: n in memo ==> IsPriority(g, v, n, memo[n])
  }

  class PriorityTable {
    const g: Stages
    const v: Verdicts
    const downs: map<Name, seq<Name>>
    var memo: map<Name, nat>

    ghost predicate Valid()
      reads this
    {
      v.Keys == g.Keys && Inverse(g, downs) && MemoOk(g, v, memo)
    }

    constructor (g: Stages, v: Verdicts, downs: map<Name, seq<Name>>)
      requires v.Keys == g.Keys && Inverse(g, downs)
      ensures Valid() && this.g == g && this.v == v && this.downs == downs && memo == map[]
    {
      this.g, this.v, this.downs, memo := g, v, downs, map[];
    }

    /** The longest priority among the stale downstream stages, and a stage that has it. */
    method BestDownstream(node: Name, ghost topo: seq<Name>) returns (best: nat, ghost argmax: Option<Name>)
      requires Valid() && node in g && TopologicalOrder(g, topo)
      modifies this
      ensures Valid() && old(memo).Keys <= memo.Keys
      ensures BoundedSoFar(g, v, downs[node], |downs[node]|, best)
      ensures argmax.None? ==> best == 0
      ensures argmax.Some? ==> argmax.value in downs[node] && IsPriority(g, v, argmax.value, best)
      decreases |topo| - Position(g, topo, node), 0
    {
      best, argmax := 0, None;
      var list := downs[node];
      for i := 0 to |list|
        invariant Valid() && old(memo).Keys <= memo.Keys
        invariant BoundedSoFar(g, v, list, i, best)
        invariant argmax.None? ==> best == 0
        invariant argmax.Some? ==> argmax.value in list && IsPriority(g, v, argmax.value, best)
      {
        var d := list[i];
        assert d in list;
        if v[d].Some? {
          var q := GetPriority(d, topo);
          BoundOneMore(g, v, list, i, best, q);
          if q >= best {
            best, argmax := q, Some(d);
          }
        } else {
          BoundOneMore(g, v, list, i, best, 0);
        }
      }
    }

    /** _get_priority: memoised recursion over the stale downstream stages. */
    method GetPriority(node: Name, ghost topo: seq<Name>) returns (p: nat)
      requires Valid() && node in g && TopologicalOrder(g, topo)
      modifies this
      ensures Valid() && IsPriority(g, v, node, p)
      ensures node in memo && old(memo).Keys <= memo.Keys
      decreases |topo| - Position(g, topo, node), 1
    {
      if node in memo {
        return memo[node];
      }
      p := 0;
      if v[node].Some? {
        ghost var argmax;
        var best;
        best, argmax := BestDownstream(node, topo);
        PriorityStep(g, v, node, downs, best, argmax);
        p := 1 + best;
      }
      memo := memo[node := p];
    }
  }
}
