/** Ordering the stages to run one by one: ancestor search from the targets and Kahn's
    topological sort (src/runner/dvc_iterative_repro.py, get_dvc_dag). */
module TopoSort {
  import opened Prelude

  type Node = string

  /** An edge of the parsed DAG, from a stage to a stage that depends on it. */
  datatype Edge = Edge(src: Node, dst: Node)

  /** A parsed line of the DOT output. */
  datatype Line = EdgeLine(edge: Edge) | NodeLine(node: Node)

  // ---------------------------------------------------------------- adjacency lists

  /** edges[u]: the targets of the edges from `u`, repetitions included. */
  function Out(es: seq<Edge>, u: Node): seq<Node> {
    if es == [] then []
    else Out(es[..|es| - 1], u) + (if es[|es| - 1].src == u then [es[|es| - 1].dst] else [])
  }

  /** rev_edges[v] */
  function In(es: seq<Edge>, v: Node): (r: seq<Node>)
    ensures forall u :: u in r <==> Edge(u, v) in es
  {
    if es == [] then []
    else
      var last := es[|es| - 1];
      assert es == es[..|es| - 1] + [last];
      In(es[..|es| - 1], v) + (if last.dst == v then [last.src] else [])
  }

  /** How many edges lead to `v` from nodes that are not done. */
  function Waiting(es: seq<Edge>, done: set<Node>, v: Node): nat {
    if es == [] then 0
    else
      var last := es[|es| - 1];
      Waiting(es[..|es| - 1], done, v) + (if last.dst == v && last.src !in done then 1 else 0)
  }

  lemma {:induction false} WaitingZero(es: seq<Edge>, done: set<Node>, v: Node)
    ensures Waiting(es, done, v) == 0 <==> forall u :: Edge(u, v) in es ==> u in done
  {
    if es != [] {
      var front, last := es[..|es| - 1], es[|es| - 1];
      assert es == front + [last];
      WaitingZero(front, done, v);
      assert last == Edge(last.src, last.dst);
    }
  }

  lemma {:induction false} WaitingDrops(es: seq<Edge>, done: set<Node>, u: Node, v: Node)
    requires u !in done
    ensures Waiting(es, done + {u}, v) == Waiting(es, done, v) - multiset(Out(es, u))[v]
  {
    if es != [] {
      WaitingDrops(es[..|es| - 1], done, u, v);
    }
  }

  lemma {:induction false} OutTargets(es: seq<Edge>, u: Node, v: Node)
    ensures v in Out(es, u) <==> Edge(u, v) in es
  {
    if es != [] {
      var front, last := es[..|es| - 1], es[|es| - 1];
      assert es == front + [last];
      OutTargets(front, u, v);
      assert last == Edge(last.src, last.dst);
    }
  }

  // ---------------------------------------------------------------- sorting names

  /** Lexicographic order on names. */
  predicate Leq(a: string, b: string) {
    a == [] || (b != [] && (a[0] < b[0] || (a[0] == b[0] && Leq(a[1..], b[1..]))))
  }

  lemma {:induction false} LeqTotal(a: string, b: string)
    ensures Leq(a, b) || Leq(b, a)
  {
    if a != [] && b != [] { LeqTotal(a[1..], b[1..]); }
  }

  lemma {:induction false} LeqTransitive(a: string, b: string, c: string)
    requires Leq(a, b) && Leq(b, c)
    ensures Leq(a, c)
  {
    if a != [] && a[0] == b[0] && b[0] == c[0] { LeqTransitive(a[1..], b[1..], c[1..]); }
  }

  ghost predicate SortedNames(s: seq<Node>) {
    forall i, j :: 0 <= i < j < |s| ==> Leq(s[i], s[j])
  }

  function Insert(s: seq<Node>, x: Node): (r: seq<Node>)
    ensures multiset(r) == multiset(s) + multiset{x}
  {
    if s == [] then [x]
    else if Leq(x, s[0]) then [x] + s
    else
      assert s == [s[0]] + s[1..];
      [s[0]] + Insert(s[1..], x)
  }

  function Sort(s: seq<Node>): (r: seq<Node>)
    ensures multiset(r) == multiset(s)
  {
    if s == [] then []
    else
      assert s == [s[0]] + s[1..];
      Insert(Sort(s[1..]), s[0])
  }

  lemma {:induction false} InsertSorted(s: seq<Node>, x: Node)
    requires SortedNames(s)
    ensures SortedNames(Insert(s, x))
  {
    if s != [] {
      LeqTotal(x, s[0]);
      if Leq(x, s[0]) {
        forall j | 0 < j < |s| ensures Leq(x, s[j]) { LeqTransitive(x, s[0], s[j]); }
      } else {
        InsertSorted(s[1..], x);
        var r := Insert(s[1..], x);
        forall j | 0 <= j < |r| ensures Leq(s[0], r[j]) {
          assert r[j] in multiset(s[1..]) + multiset{x};
          if r[j] != x {
            assert r[j] in s[1..];
          }
        }
      }
    }
  }

  lemma {:induction false} SortSorts(s: seq<Node>)
    ensures SortedNames(Sort(s)) && multiset(Sort(s)) == multiset(s)
  {
    if s != [] {
      SortSorts(s[1..]);
      InsertSorted(Sort(s[1..]), s[0]);
    }
  }

  // ---------------------------------------------------------------- walks, ancestors, cycles

  ghost predicate Walk(es: seq<Edge>, w: seq<Node>) {
    w != [] && forall i :: 0 <= i < |w| - 1 ==> Edge(w[i], w[i + 1]) in es
  }

  ghost predicate LeadsTo(es: seq<Edge>, n: Node, targets: seq<Node>) {
    exists w :: Walk(es, w) && w[0] == n && w[|w| - 1] in targets
  }

  ghost predicate HasCycle(es: seq<Edge>) {
    exists w :: Walk(es, w) && |w| > 1 && w[0] == w[|w| - 1]
  }

  ghost predicate PrecededIn(es: seq<Edge>, s: set<Node>, v: Node) {
    exists u :: u in s && Edge(u, v) in es
  }

  ghost predicate AllPreceded(es: seq<Edge>, s: set<Node>) {
    forall v {:trigger PrecededIn(es, s, v)} :: v in s ==> PrecededIn(es, s, v)
  }

  /** A nonempty set in which every node has a predecessor contains a cycle. */
  lemma BackwardsForever(es: seq<Edge>, s: set<Node>)
    requires s != {}
    requires AllPreceded(es, s)
    ensures HasCycle(es)
  {
    var w := LongWalkBack(es, s, |s|);
    var i, j := Pigeonhole(w, s);
    var loop := w[i..j + 1];
    assert Walk(es, loop);
  }

  lemma {:induction false} LongWalkBack(es: seq<Edge>, s: set<Node>, k: nat) returns (w: seq<Node>)
    requires s != {}
    requires AllPreceded(es, s)
    ensures |w| == k + 1 && Walk(es, w) && forall n :: n in w ==> n in s
    decreases k
  {
    if k == 0 {
      var v :| v in s;
      w := [v];
    } else {
      w := LongWalkBack(es, s, k - 1);
      assert PrecededIn(es, s, w[0]);
      var u :| u in s && Edge(u, w[0]) in es;
      w := [u] + w;
    }
  }

  /** Each listed node comes after all its predecessors. */
  ghost predicate ParentsFirst(es: seq<Edge>, order: seq<Node>) {
    forall i, u :: 0 <= i < |order| && Edge(u, order[i]) in es ==> u in order[..i]
  }

  lemma {:induction false} WalkClimbs(es: seq<Edge>, order: seq<Node>, w: seq<Node>, k: nat, i: nat)
    requires ParentsFirst(es, order) && NoDup(order) && Walk(es, w)
    requires k < |w| && i < |order| && order[i] == w[|w| - 1]
    ensures k == |w| - 1 || w[k] in order[..i]
    decreases |w| - k
  {
    if k < |w| - 1 {
      assert Edge(w[k], w[k + 1]) in es;
      if k + 1 == |w| - 1 {
      } else {
        WalkClimbs(es, order, w, k + 1, i);
        var j :| 0 <= j < i && order[j] == w[k + 1];
        assert w[k] in order[..j];
      }
    }
  }

  lemma OrderedIsAcyclic(es: seq<Edge>, order: seq<Node>)
    requires ParentsFirst(es, order) && NoDup(order)
    requires forall e :: e in es ==> e.dst in order
    ensures !HasCycle(es)
  {
    if HasCycle(es) {
      var w :| Walk(es, w) && |w| > 1 && w[0] == w[|w| - 1];
      assert Edge(w[|w| - 2], w[|w| - 1]) in es;
      var i :| 0 <= i < |order| && order[i] == w[|w| - 1];
      WalkClimbs(es, order, w, 0, i);
    }
  }

  // ---------------------------------------------------------------- ancestor search

  ghost predicate Covered(es: seq<Edge>, needed: set<Node>, queue: seq<Node>) {
    forall u, v :: Edge(u, v) in es && v in needed ==> u in needed || u in queue
  }

  lemma {:induction false} ClosedUnderWalks(es: seq<Edge>, needed: set<Node>, w: seq<Node>, k: nat)
    requires Covered(es, needed, []) && Walk(es, w) && w[|w| - 1] in needed && k < |w|
    ensures w[k] in needed
    decreases |w| - k
  {
    if k < |w| - 1 {
      ClosedUnderWalks(es, needed, w, k + 1);
      assert Edge(w[k], w[k + 1]) in es;
    }
  }

  lemma LongerWalk(es: seq<Edge>, u: Node, v: Node, targets: seq<Node>)
    requires Edge(u, v) in es && LeadsTo(es, v, targets)
    ensures LeadsTo(es, u, targets)
  {
    var w :| Walk(es, w) && w[0] == v && w[|w| - 1] in targets;
    var w' := [u] + w;
    forall i | 0 <= i < |w'| - 1 ensures Edge(w'[i], w'[i + 1]) in es {
      if i > 0 { assert Edge(w[i - 1], w[i]) in es; }
    }
    assert Walk(es, w');
  }

  function Universe(es: seq<Edge>, targets: seq<Node>): set<Node> {
    (set e | e in es :: e.src) + (set t | t in targets)
  }

  /** The needed nodes: the targets and everything that leads to them. */
  method NeededNodes(es: seq<Edge>, targets: seq<Node>) returns (needed: set<Node>)
    ensures forall n :: n in needed <==> LeadsTo(es, n, targets)
  {
    needed := {};
    var queue := targets;
    forall t | t in targets ensures LeadsTo(es, t, targets) {
      assert Walk(es, [t]);
    }
    while queue != []
      invariant needed <= Universe(es, targets)
      invariant forall n :: n in queue ==> n in Universe(es, targets)
      invariant forall n :: n in needed || n in queue ==> LeadsTo(es, n, targets)
      invariant forall t :: t in targets ==> t in needed || t in queue
      invariant Covered(es, needed, queue)
      decreases Universe(es, targets) - needed, |queue|
    {
      var curr := queue[0];
      ghost var before := queue;
      assert curr in queue && queue == [curr] + queue[1..];
      queue := queue[1..];
      if curr !in needed {
        needed := needed + {curr};
        queue := queue + In(es, curr);
        forall u | u in In(es, curr) ensures LeadsTo(es, u, targets) && u in Universe(es, targets) {
          LongerWalk(es, u, curr, targets);
          assert Edge(u, curr).src in Universe(es, targets);
        }
      }
    }
    forall n | LeadsTo(es, n, targets) ensures n in needed {
      var w :| Walk(es, w) && w[0] == n && w[|w| - 1] in targets;
      ClosedUnderWalks(es, needed, w, 0);
    }
  }

  // ---------------------------------------------------------------- Kahn's sort

  function Elements(s: seq<Node>): set<Node> {
    set x | x in s
  }

  /** The edges between the given nodes. */
  function Between(es: seq<Edge>, nodes: set<Node>): (r: seq<Edge>)
    ensures forall e :: e in r <==> e in es && e.src in nodes && e.dst in nodes
  {
    if es == [] then []
    else
      var last := es[|es| - 1];
      assert es == es[..|es| - 1] + [last];
      Between(es[..|es| - 1], nodes) + (if last.src in nodes && last.dst in nodes then [last] else [])
  }

  /** in_degree, counting repeated edges. */
  method InDegrees(nodes: set<Node>, es: seq<Edge>) returns (inDegree: map<Node, int>)
    requires forall e :: e in es ==> e.dst in nodes
    ensures inDegree.Keys == nodes && forall v :: v in nodes ==> inDegree[v] == Waiting(es, {}, v)
  {
    inDegree := map v | v in nodes :: 0;
    for i := 0 to |es|
      invariant inDegree.Keys == nodes
      invariant forall v :: v in nodes ==> inDegree[v] == Waiting(es[..i], {}, v)
    {
      assert es[i] in es && es[..i + 1][..i] == es[..i];
      inDegree := inDegree[es[i].dst := inDegree[es[i].dst] + 1];
    }
    assert es[..|es|] == es;
  }

  method ToSeq(nodes: set<Node>) returns (s: seq<Node>)
    ensures Enumerates(s, nodes)
  {
    s := [];
    var rest := nodes;
    while rest != {}
      invariant NoDup(s) && rest <= nodes
      invariant forall x :: x in s <==> x in nodes && x !in rest
      decreases rest
    {
      var x :| x in rest;
      rest := rest - {x};
      s := s + [x];
    }
  }

  /** Between two visits: the counters say how many unfinished predecessors each node has, and
      exactly the nodes without any are listed or queued, once. */
  ghost predicate SortState(nodes: set<Node>, es: seq<Edge>, topo: seq<Node>, queue: seq<Node>,
                            inDegree: map<Node, int>) {
    && inDegree.Keys == nodes
    && NoDup(topo + queue)
    && (forall v :: v in topo + queue <==> v in nodes && inDegree[v] == 0)
    && (forall v :: v in nodes ==> inDegree[v] == Waiting(es, Elements(topo), v))
  }

  /** While the successors of `u` are visited: the first `k` of its sorted successors are counted
      off. */
  ghost predicate VisitState(nodes: set<Node>, es: seq<Edge>, topo: seq<Node>, queue: seq<Node>,
                             inDegree: map<Node, int>,
                             done: set<Node>, succ: seq<Node>, k: nat)
    requires k <= |succ|
  {
    && inDegree.Keys == nodes
    && NoDup(topo + queue)
    && (forall v :: v in topo + queue <==> v in nodes && inDegree[v] == 0)
    && (forall v :: v in nodes ==> inDegree[v] == Waiting(es, done, v) - multiset(succ[..k])[v])
  }

  /** Counting off one successor; a counter that reaches zero queues its node. */
  lemma VisitStep(nodes: set<Node>, es: seq<Edge>, topo: seq<Node>, queue: seq<Node>, inDegree: map<Node, int>,
                  done: set<Node>, u: Node, succ: seq<Node>, k: nat)
    requires k < |succ| && VisitState(nodes, es, topo, queue, inDegree, done, succ, k)
    requires u !in done && multiset(succ) == multiset(Out(es, u)) && forall e :: e in es ==> e.dst in nodes
    ensures succ[k] in nodes && inDegree[succ[k]] > 0
    ensures var next := inDegree[succ[k] := inDegree[succ[k]] - 1];
            var later := if next[succ[k]] == 0 then queue + [succ[k]] else queue;
            VisitState(nodes, es, topo, later, next, done, succ, k + 1)
  {
    var v := succ[k];
    StillWaiting(es, done, u, succ, k);
    assert succ[..k + 1] == succ[..k] + [v];
    assert v !in topo + queue;
    assert topo + (queue + [v]) == (topo + queue) + [v];
  }

  lemma CountedOnceMore(s: seq<Node>, k: nat)
    requires k < |s|
    ensures multiset(s)[s[k]] > multiset(s[..k])[s[k]]
  {
    assert s == s[..k] + ([s[k]] + s[k + 1..]);
  }

  /** The next successor has not been counted down to zero yet. */
  lemma StillWaiting(es: seq<Edge>, done: set<Node>, u: Node, succ: seq<Node>, k: nat)
    requires u !in done && multiset(succ) == multiset(Out(es, u)) && k < |succ|
    ensures Edge(u, succ[k]) in es
    ensures Waiting(es, done, succ[k]) - multiset(succ[..k])[succ[k]] > 0
  {
    var v := succ[k];
    WaitingDrops(es, done, u, v);
    CountedOnceMore(succ, k);
    assert v in multiset(Out(es, u));
    OutTargets(es, u, v);
  }

  lemma VisitEnd(nodes: set<Node>, es: seq<Edge>, topo: seq<Node>, queue: seq<Node>, inDegree: map<Node, int>,
                 done: set<Node>, u: Node, succ: seq<Node>)
    requires VisitState(nodes, es, topo, queue, inDegree, done, succ, |succ|)
    requires u !in done && Elements(topo) == done + {u} && multiset(succ) == multiset(Out(es, u))
    ensures SortState(nodes, es, topo, queue, inDegree)
  {
    assert succ[..|succ|] == succ;
    forall v | v in nodes ensures inDegree[v] == Waiting(es, Elements(topo), v) {
      WaitingDrops(es, done, u, v);
    }
  }

  // ---------------------------------------------------------------- the order among ready nodes

  /** With the first `k` listed nodes, and no fewer, all predecessors of `v` are listed. */
  ghost predicate ReadyAt(es: seq<Edge>, order: seq<Node>, v: Node, k: nat) {
    && k <= |order|
    && (forall u :: Edge(u, v) in es ==> u in order[..k])
    && (k > 0 ==> Edge(order[k - 1], v) in es)
  }

  /** The first is ready earlier than the second, or at the same time with a smaller name. */
  ghost predicate NoLater(es: seq<Edge>, order: seq<Node>, v: Node, w: Node) {
    forall k, l :: ReadyAt(es, order, v, k) && ReadyAt(es, order, w, l) ==> k < l || (k == l && Leq(v, w))
  }

  /** The list is in the order of readiness and name, `order` telling who is ready when. */
  ghost predicate FirstReadyFirst(es: seq<Edge>, order: seq<Node>, list: seq<Node>) {
    forall i, j :: 0 <= i < j < |list| ==> NoLater(es, order, list[i], list[j])
  }

  /** Listing one more node changes nothing for those that are ready without it. */
  lemma StaysReady(es: seq<Edge>, order: seq<Node>, u: Node, v: Node, k: nat)
    requires ReadyAt(es, order + [u], v, k) && Edge(u, v) !in es
    ensures ReadyAt(es, order, v, k)
  {
    var order' := order + [u];
    assert k < |order'|;
    assert order'[..k] == order[..k];
  }

  lemma OldStayInOrder(es: seq<Edge>, order: seq<Node>, u: Node, list: seq<Node>)
    requires FirstReadyFirst(es, order, list) && forall v :: v in list ==> Edge(u, v) !in es
    ensures FirstReadyFirst(es, order + [u], list)
  {
    forall i, j | 0 <= i < j < |list| ensures NoLater(es, order + [u], list[i], list[j]) {
      assert NoLater(es, order, list[i], list[j]);
      forall k, l | ReadyAt(es, order + [u], list[i], k) && ReadyAt(es, order + [u], list[j], l)
        ensures k < l || (k == l && Leq(list[i], list[j]))
      {
        StaysReady(es, order, u, list[i], k);
        StaysReady(es, order, u, list[j], l);
      }
    }
  }

  /** A successor of the last listed node is ready only now. */
  lemma ReadyNow(es: seq<Edge>, order: seq<Node>, u: Node, v: Node, k: nat)
    requires u !in order && Edge(u, v) in es && ReadyAt(es, order + [u], v, k)
    ensures k == |order| + 1
  {
    var order' := order + [u];
    assert u in order'[..k];
    assert forall m :: 0 <= m < |order| ==> order'[m] == order[m] && order[m] in order;
    var i :| 0 <= i < k && order'[..k][i] == u;
    assert order'[i] == u;
  }

  /** The nodes that become ready with `u` come after all others, by name. */
  lemma NewComeLast(es: seq<Edge>, order: seq<Node>, u: Node, list: seq<Node>, added: seq<Node>)
    requires FirstReadyFirst(es, order, list) && u !in order && SortedNames(added)
    requires forall v :: v in list ==> Edge(u, v) !in es
    requires forall v :: v in added ==> Edge(u, v) in es
    ensures FirstReadyFirst(es, order + [u], list + added)
  {
    OldStayInOrder(es, order, u, list);
    var all := list + added;
    forall i, j | 0 <= i < j < |all| ensures NoLater(es, order + [u], all[i], all[j]) {
      if j >= |list| {
        assert all[j] in added && all[j] == added[j - |list|];
        assert i >= |list| ==> all[i] in added && all[i] == added[i - |list|];
        assert i < |list| ==> all[i] in list;
        forall k, l | ReadyAt(es, order + [u], all[i], k) && ReadyAt(es, order + [u], all[j], l)
          ensures k < l || (k == l && Leq(all[i], all[j]))
        {
          ReadyNow(es, order, u, all[j], l);
          if i >= |list| { ReadyNow(es, order, u, all[i], k); } else { StaysReady(es, order, u, all[i], k); }
        }
      }
    }
  }

  lemma {:induction false} LeqAntisymmetric(a: string, b: string)
    requires Leq(a, b) && Leq(b, a)
    ensures a == b
  {
    if a != [] { LeqAntisymmetric(a[1..], b[1..]); }
  }

  lemma {:induction false} ReadyBefore(es: seq<Edge>, order: seq<Node>, v: Node, i: nat) returns (k: nat)
    requires i <= |order| && forall u :: Edge(u, v) in es ==> u in order[..i]
    ensures k <= i && ReadyAt(es, order, v, k)
  {
    if i == 0 || Edge(order[i - 1], v) in es {
      k := i;
    } else {
      assert order[..i] == order[..i - 1] + [order[i - 1]];
      k := ReadyBefore(es, order, v, i - 1);
    }
  }

  lemma SameReady(es: seq<Edge>, es': seq<Edge>, order: seq<Node>, order': seq<Node>, v: Node, k: nat)
    requires ReadyAt(es, order, v, k) && k <= |order'| && order[..k] == order'[..k]
    requires forall e :: e in es <==> e in es'
    ensures ReadyAt(es', order', v, k)
  {
    if k > 0 { assert order[k - 1] == order[..k][k - 1] == order'[..k][k - 1]; }
  }

  /** Two lists that agree so far agree in the next node. */
  lemma NextAgrees(es: seq<Edge>, es': seq<Edge>, order: seq<Node>, order': seq<Node>, i: nat)
    requires forall e :: e in es <==> e in es'
    requires ParentsFirst(es, order) && ParentsFirst(es', order')
    requires FirstReadyFirst(es, order, order) && FirstReadyFirst(es', order', order')
    requires i < |order| && i < |order'| && order[..i] == order'[..i]
    requires (exists j :: i < j < |order| && order[j] == order'[i]) || order[i] == order'[i]
    requires (exists j :: i < j < |order'| && order'[j] == order[i]) || order[i] == order'[i]
    ensures order[i] == order'[i]
  {
    var v, w := order[i], order'[i];
    if v != w {
      var k := ReadyBefore(es, order, v, i);
      var l := ReadyBefore(es', order', w, i);
      assert order[..k] == order[..i][..k] == order'[..i][..k] == order'[..k];
      assert order[..l] == order[..i][..l] == order'[..i][..l] == order'[..l];
      SameReady(es, es', order, order', v, k);
      SameReady(es', es, order', order, w, l);
      assert NoLater(es, order, v, w) && NoLater(es', order', w, v);
      LeqAntisymmetric(v, w);
    }
  }

  lemma {:induction false} PrefixesAgree(es: seq<Edge>, es': seq<Edge>, order: seq<Node>, order': seq<Node>,
                                         nodes: set<Node>, i: nat)
    requires forall e :: e in es <==> e in es'
    requires ParentsFirst(es, order) && ParentsFirst(es', order')
    requires FirstReadyFirst(es, order, order) && FirstReadyFirst(es', order', order')
    requires Enumerates(order, nodes) && Enumerates(order', nodes) && |order| == |order'| && i <= |order|
    ensures order[..i] == order'[..i]
  {
    if i > 0 {
      PrefixesAgree(es, es', order, order', nodes, i - 1);
      FoundLater(order, order', nodes, i - 1);
      FoundLater(order', order, nodes, i - 1);
      NextAgrees(es, es', order, order', i - 1);
      assert order[..i] == order[..i - 1] + [order[i - 1]];
      assert order'[..i] == order'[..i - 1] + [order'[i - 1]];
    }
  }

  lemma FoundLater(order: seq<Node>, order': seq<Node>, nodes: set<Node>, i: nat)
    requires Enumerates(order, nodes) && Enumerates(order', nodes)
    requires i < |order| && i < |order'| && order[..i] == order'[..i]
    ensures (exists j :: i < j < |order| && order[j] == order'[i]) || order[i] == order'[i]
  {
    assert order'[i] in order;
    forall m | 0 <= m < i ensures order[m] == order'[m] {
      assert order[m] == order[..i][m] == order'[..i][m];
    }
    var j :| 0 <= j < |order| && order[j] == order'[i];
    assert j >= i;
  }

  /** There is only one list of the nodes in which each node comes after its predecessors, in the
      order of readiness and name: it depends on the edges, not on how often or in which order they
      are given. */
  lemma OrderIsUnique(es: seq<Edge>, es': seq<Edge>, order: seq<Node>, order': seq<Node>, nodes: set<Node>)
    requires forall e :: e in es <==> e in es'
    requires ParentsFirst(es, order) && ParentsFirst(es', order')
    requires FirstReadyFirst(es, order, order) && FirstReadyFirst(es', order', order')
    requires Enumerates(order, nodes) && Enumerates(order', nodes)
    ensures order == order'
  {
    NoDupFits(order, nodes);
    NoDupFits(order', nodes);
    DistinctCount(order);
    DistinctCount(order');
    assert Elements(order) == nodes == Elements(order');
    PrefixesAgree(es, es', order, order', nodes, |order|);
  }

  // ---------------------------------------------------------------- the sort

  method VisitSuccessors(nodes: set<Node>, es: seq<Edge>, ghost topo: seq<Node>, queue: seq<Node>,
                         inDegree: map<Node, int>,
                         ghost done: set<Node>, u: Node)
    returns (queue': seq<Node>, inDegree': map<Node, int>)
    requires forall e :: e in es ==> e.dst in nodes
    requires u !in done && Elements(topo) == done + {u}
    requires VisitState(nodes, es, topo, queue, inDegree, done, [], 0)
    ensures SortState(nodes, es, topo, queue', inDegree')
    ensures QueuedByName(es, u, queue, queue')
  {
    var succ := Sort(Out(es, u));
    SortSorts(Out(es, u));
    queue', inDegree' := queue, inDegree;
    for k := 0 to |succ|
      invariant VisitState(nodes, es, topo, queue', inDegree', done, succ, k)
      invariant AddedFrom(queue, queue', succ[..k])
    {
      VisitStep(nodes, es, topo, queue', inDegree', done, u, succ, k);
      AddOne(queue, queue', succ, k);
      var v := succ[k];
      inDegree' := inDegree'[v := inDegree'[v] - 1];
      if inDegree'[v] == 0 {
        queue' := queue' + [v];
      }
    }
    AddedByName(es, u, queue, queue', succ);
    VisitEnd(nodes, es, topo, queue', inDegree', done, u, succ);
  }

  /** What was added to the queue are some of the names, in their order. */
  ghost predicate AddedFrom(queue: seq<Node>, queue': seq<Node>, names: seq<Node>) {
    && queue <= queue' && SortedNames(queue'[|queue|..])
    && forall v :: v in queue'[|queue|..] ==> v in names
  }

  lemma AddOne(queue: seq<Node>, queue': seq<Node>, succ: seq<Node>, k: nat)
    requires k < |succ| && SortedNames(succ) && AddedFrom(queue, queue', succ[..k])
    ensures AddedFrom(queue, queue', succ[..k + 1]) && AddedFrom(queue, queue' + [succ[k]], succ[..k + 1])
  {
    var added := queue'[|queue|..];
    assert (queue' + [succ[k]])[|queue|..] == added + [succ[k]];
    forall v | v in added ensures Leq(v, succ[k]) && v in succ[..k + 1] {
      var i :| 0 <= i < k && succ[..k][i] == v;
      assert succ[..k + 1][i] == v;
    }
    assert succ[..k + 1][k] == succ[k];
  }

  /** The nodes queued behind the others are successors of `u`, by name. */
  ghost predicate QueuedByName(es: seq<Edge>, u: Node, queue: seq<Node>, queue': seq<Node>) {
    && queue <= queue' && SortedNames(queue'[|queue|..])
    && forall v :: v in queue'[|queue|..] ==> Edge(u, v) in es
  }

  lemma AddedByName(es: seq<Edge>, u: Node, queue: seq<Node>, queue': seq<Node>, succ: seq<Node>)
    requires AddedFrom(queue, queue', succ[..|succ|]) && multiset(succ) == multiset(Out(es, u))
    ensures QueuedByName(es, u, queue, queue')
  {
    forall v | v in queue'[|queue|..] ensures Edge(u, v) in es {
      assert v in succ[..|succ|];
      assert v in multiset(succ);
      OutTargets(es, u, v);
    }
  }

  /** Taking the head of the queue: its predecessors are all listed. */
  lemma TakeHead(nodes: set<Node>, es: seq<Edge>, topo: seq<Node>, queue: seq<Node>, inDegree: map<Node, int>)
    requires SortState(nodes, es, topo, queue, inDegree) && ParentsFirst(es, topo) && queue != []
    ensures queue[0] in nodes && queue[0] !in topo
    ensures ParentsFirst(es, topo + [queue[0]])
    ensures Elements(topo + [queue[0]]) == Elements(topo) + {queue[0]}
    ensures VisitState(nodes, es, topo + [queue[0]], queue[1..], inDegree, Elements(topo), [], 0)
  {
    var u := queue[0];
    assert u in topo + queue;
    assert topo + queue == (topo + [u]) + queue[1..];
    WaitingZero(es, Elements(topo), u);
    assert (topo + queue)[|topo|] == u;
    assert forall i :: 0 <= i < |topo| ==> topo[i] == (topo + queue)[i] != u;
    var topo' := topo + [u];
    forall i, x | 0 <= i < |topo'| && Edge(x, topo'[i]) in es ensures x in topo'[..i] {
      if i < |topo| {
        assert topo'[..i] == topo[..i];
      } else {
        assert topo'[..i] == topo;
      }
    }
  }

  /** If the queue runs dry early, the nodes left over contain a cycle. */
  lemma LeftOverCycle(nodes: set<Node>, es: seq<Edge>, topo: seq<Node>, inDegree: map<Node, int>)
    requires SortState(nodes, es, topo, [], inDegree) && ParentsFirst(es, topo)
    requires forall e :: e in es ==> e.src in nodes && e.dst in nodes
    ensures Elements(topo) <= nodes && NoDup(topo)
    ensures Elements(topo) == nodes <==> !HasCycle(es)
  {
    assert topo + [] == topo;
    var left := nodes - Elements(topo);
    if left != {} {
      forall v | v in left ensures PrecededIn(es, left, v) {
        WaitingZero(es, Elements(topo), v);
        var u :| Edge(u, v) in es && u !in Elements(topo);
        assert Edge(u, v).src in nodes;
      }
      BackwardsForever(es, left);
    } else {
      assert nodes == Elements(topo) + left;
      forall e | e in es ensures e.dst in topo {
        assert e.dst in Elements(topo);
      }
      OrderedIsAcyclic(es, topo);
    }
  }

  /** Between two rounds of the sort. */
  ghost predicate KahnState(nodes: set<Node>, es: seq<Edge>, topo: seq<Node>, queue: seq<Node>,
                            inDegree: map<Node, int>) {
    && SortState(nodes, es, topo, queue, inDegree)
    && ParentsFirst(es, topo) && FirstReadyFirst(es, topo, topo + queue)
  }

  lemma StartState(nodes: set<Node>, es: seq<Edge>, queue: seq<Node>, inDegree: map<Node, int>)
    requires SortState(nodes, es, [], queue, inDegree) && SortedNames(queue)
    ensures KahnState(nodes, es, [], queue, inDegree)
  {
    RootsInOrder(es, queue);
  }

  /** A round: the head is listed and its successors are visited. */
  lemma RoundKeepsState(nodes: set<Node>, es: seq<Edge>, topo: seq<Node>, queue: seq<Node>, inDegree: map<Node, int>,
                        queue': seq<Node>, inDegree': map<Node, int>)
    requires KahnState(nodes, es, topo, queue, inDegree) && queue != []
    requires SortState(nodes, es, topo + [queue[0]], queue', inDegree')
    requires QueuedByName(es, queue[0], queue[1..], queue')
    ensures KahnState(nodes, es, topo + [queue[0]], queue', inDegree')
  {
    var u := queue[0];
    TakeHead(nodes, es, topo, queue, inDegree);
    ListedAreReady(nodes, es, topo, queue, inDegree, u);
    assert queue == [u] + queue[1..];
    QueueInOrder(es, topo, u, queue[1..], queue');
  }

  lemma EndState(nodes: set<Node>, es: seq<Edge>, topo: seq<Node>, inDegree: map<Node, int>)
    requires KahnState(nodes, es, topo, [], inDegree)
    requires forall e :: e in es ==> e.src in nodes && e.dst in nodes
    ensures NoDup(topo) && Elements(topo) <= nodes && ParentsFirst(es, topo) && FirstReadyFirst(es, topo, topo)
    ensures |topo| <= |nodes| && (|topo| == |nodes| <==> !HasCycle(es))
    ensures !HasCycle(es) ==> Enumerates(topo, nodes)
  {
    assert topo + [] == topo;
    LeftOverCycle(nodes, es, topo, inDegree);
    CountElements(topo, nodes);
  }

  /** Kahn's sort lists nodes, each once and after all its predecessors, and lists all of them
      exactly when the edges have no cycle. */
  method KahnSort(nodes: set<Node>, es: seq<Edge>) returns (topo: seq<Node>)
    requires forall e :: e in es ==> e.src in nodes && e.dst in nodes
    ensures NoDup(topo) && Elements(topo) <= nodes && ParentsFirst(es, topo)
    ensures |topo| <= |nodes|
    ensures |topo| == |nodes| <==> !HasCycle(es)
    ensures !HasCycle(es) ==> Enumerates(topo, nodes)
    ensures FirstReadyFirst(es, topo, topo)
  {
    var inDegree := InDegrees(nodes, es);
    var roots := ToSeq(set u | u in nodes && inDegree[u] == 0);
    var queue := SortRoots(roots);
    topo := [];
    assert topo + queue == queue && Elements(topo) == {};
    StartState(nodes, es, queue, inDegree);
    while queue != []
      invariant KahnState(nodes, es, topo, queue, inDegree)
      decreases nodes - Elements(topo)
    {
      var u := queue[0];
      TakeHead(nodes, es, topo, queue, inDegree);
      ghost var done := Elements(topo);
      var queue', inDegree' := VisitSuccessors(nodes, es, topo + [u], queue[1..], inDegree, done, u);
      RoundKeepsState(nodes, es, topo, queue, inDegree, queue', inDegree');
      topo, queue, inDegree := topo + [u], queue', inDegree';
    }
    EndState(nodes, es, topo, inDegree);
  }

  lemma RootsInOrder(es: seq<Edge>, roots: seq<Node>)
    requires SortedNames(roots)
    ensures FirstReadyFirst(es, [], [] + roots)
  {
    assert [] + roots == roots;
  }

  /** None of the listed and queued nodes waits for one that is not listed. */
  lemma ListedAreReady(nodes: set<Node>, es: seq<Edge>, topo: seq<Node>, queue: seq<Node>, inDegree: map<Node, int>,
                       u: Node)
    requires SortState(nodes, es, topo, queue, inDegree) && u !in topo
    ensures forall v :: v in topo + queue ==> Edge(u, v) !in es
  {
    forall v | v in topo + queue ensures Edge(u, v) !in es {
      WaitingZero(es, Elements(topo), v);
    }
  }

  lemma QueueInOrder(es: seq<Edge>, topo: seq<Node>, u: Node, rest: seq<Node>, queue: seq<Node>)
    requires FirstReadyFirst(es, topo, topo + ([u] + rest)) && u !in topo && QueuedByName(es, u, rest, queue)
    requires forall v :: v in topo + ([u] + rest) ==> Edge(u, v) !in es
    ensures FirstReadyFirst(es, topo + [u], (topo + [u]) + queue)
  {
    NewComeLast(es, topo, u, topo + ([u] + rest), queue[|rest|..]);
    assert topo + ([u] + rest) + queue[|rest|..] == (topo + [u]) + queue;
  }

  method SortRoots(roots: seq<Node>) returns (queue: seq<Node>)
    requires NoDup(roots)
    ensures NoDup(queue) && SortedNames(queue) && forall x :: x in queue <==> x in roots
  {
    queue := Sort(roots);
    SortSorts(roots);
    SortKeepsDistinct(roots);
  }

  lemma SortKeepsDistinct(s: seq<Node>)
    requires NoDup(s)
    ensures NoDup(Sort(s)) && forall x :: x in Sort(s) <==> x in s
  {
    var r := Sort(s);
    forall x ensures x in r <==> x in s {
      assert x in r <==> x in multiset(r);
      assert x in s <==> x in multiset(s);
    }
    if !NoDup(r) {
      var i, j :| 0 <= i < j < |r| && r[i] == r[j];
      assert r == r[..i] + [r[i]] + r[i + 1..j] + [r[j]] + r[j + 1..];
      assert multiset(r)[r[i]] >= 2;
      DistinctOccursOnce(s, r[i]);
    }
  }

  lemma {:induction false} DistinctOccursOnce(s: seq<Node>, x: Node)
    requires NoDup(s)
    ensures multiset(s)[x] <= 1
  {
    if s != [] {
      var front, last := s[..|s| - 1], s[|s| - 1];
      assert s == front + [last];
      DistinctOccursOnce(front, x);
    }
  }

  lemma CountElements(topo: seq<Node>, nodes: set<Node>)
    requires NoDup(topo) && Elements(topo) <= nodes
    ensures |topo| == |Elements(topo)| <= |nodes|
    ensures |topo| == |nodes| <==> Elements(topo) == nodes
  {
    DistinctCount(topo);
    var left := nodes - Elements(topo);
    assert nodes == Elements(topo) + left;
    assert |nodes| == |Elements(topo)| + |left|;
  }

  lemma {:induction false} DistinctCount(s: seq<Node>)
    requires NoDup(s)
    ensures |Elements(s)| == |s|
  {
    if s != [] {
      var front, last := s[..|s| - 1], s[|s| - 1];
      assert s == front + [last];
      DistinctCount(front);
      assert Elements(s) == Elements(front) + {last};
    }
  }

  // ---------------------------------------------------------------- the whole computation

  function EdgesOf(lines: seq<Line>): (r: seq<Edge>)
    ensures forall e :: e in r <==> EdgeLine(e) in lines
  {
    if lines == [] then []
    else
      var last := lines[|lines| - 1];
      assert lines == lines[..|lines| - 1] + [last];
      EdgesOf(lines[..|lines| - 1]) + (if last.EdgeLine? then [last.edge] else [])
  }

  ghost predicate OnEdge(es: seq<Edge>, n: Node) {
    exists e :: e in es && (n == e.src || n == e.dst)
  }

  function NodesOf(lines: seq<Line>): (r: set<Node>)
    ensures forall n :: n in r <==> NodeLine(n) in lines || OnEdge(EdgesOf(lines), n)
  {
    if lines == [] then {}
    else
      var last := lines[|lines| - 1];
      assert lines == lines[..|lines| - 1] + [last];
      NodesOf(lines[..|lines| - 1]) + (match last case EdgeLine(e) => {e.src, e.dst} case NodeLine(n) => {n})
  }

  /** The nodes to run: all of them, just the targets, or the targets with their ancestors. */
  ghost predicate Needed(lines: seq<Line>, targets: seq<Node>, singleNode: bool, nodes: set<Node>) {
    if targets == [] then nodes == NodesOf(lines)
    else if singleNode then nodes == Elements(targets)
    else forall n :: n in nodes <==> LeadsTo(EdgesOf(lines), n, targets)
  }

  /** get_dvc_dag: every needed node exactly once and, when the edges between them have no cycle,
      each after all its needed predecessors. */
  method GetDvcDag(lines: seq<Line>, targets: seq<Node>, singleNode: bool)
    returns (order: seq<Node>, ghost nodes: set<Node>)
    ensures NodesOf(lines) == {} ==> order == []
    ensures NodesOf(lines) != {} ==> Needed(lines, targets, singleNode, nodes) && Enumerates(order, nodes)
    ensures NodesOf(lines) != {} && !HasCycle(Between(EdgesOf(lines), nodes)) ==>
              && ParentsFirst(Between(EdgesOf(lines), nodes), order)
              && FirstReadyFirst(Between(EdgesOf(lines), nodes), order, order)
  {
    nodes := {};
    var all, es := NodesOf(lines), EdgesOf(lines);
    if all == {} {
      return [], nodes;
    }
    var needed := all;
    if targets != [] {
      if singleNode {
        needed := Elements(targets);
      } else {
        needed := NeededNodes(es, targets);
      }
    }
    nodes := needed;
    var kept := Between(es, needed);
    order := KahnSort(needed, kept);
    if |order| != |needed| {
      order := ToSeq(needed);
    }
  }
}
