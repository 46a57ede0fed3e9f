/** The cycle check over `predecessorIfPresent` edges of the frozen M8 planning profiles. */
module PredecessorCycles {
  import opened Prelude

  type Sku = string

  datatype PlanningProfile = PlanningProfile(sku: Sku, predecessorIfPresent: seq<Sku>)

  datatype ConfigurationIssue = ConfigurationIssue(code: string, affected: seq<Sku>)

  const PREDECESSOR_CYCLE := "PREDECESSOR_CYCLE"

  type Graph = map<Sku, seq<Sku>>

  function KnownSkus(skus: seq<Sku>, expected: set<Sku>): (known: seq<Sku>)
    ensures forall x :: x in known <==> x in skus && x in expected
  {
    if skus == [] then []
    else if skus[0] in expected then [skus[0]] + KnownSkus(skus[1..], expected)
    else KnownSkus(skus[1..], expected)
  }

  /** The dictionary built from the profiles: the last profile of a SKU wins, unknown SKUs are dropped. */
  function PredecessorGraph(profiles: seq<PlanningProfile>, expected: set<Sku>): (g: Graph)
    ensures forall v | v in g :: v in expected && forall w | w in g[v] :: w in expected
  {
    if profiles == [] then map[]
    else
      var last := profiles[|profiles| - 1];
      var g := PredecessorGraph(profiles[..|profiles| - 1], expected);
      if last.sku in expected then g[last.sku := KnownSkus(last.predecessorIfPresent, expected)] else g
  }

  function Predecessors(g: Graph, v: Sku): seq<Sku> {
    if v in g then g[v] else []
  }

  ghost predicate Edge(g: Graph, v: Sku, w: Sku) {
    w in Predecessors(g, v)
  }

  ghost predicate IsWalk(g: Graph, p: seq<Sku>) {
    forall i | 0 <= i < |p| - 1 :: Edge(g, p[i], p[i + 1])
  }

  ghost predicate IsCycle(g: Graph, p: seq<Sku>) {
    |p| >= 2 && p[0] == p[|p| - 1] && IsWalk(g, p)
  }

  ghost predicate Distinct<T>(s: seq<T>) {
    forall i, j | 0 <= i < j < |s| :: s[i] != s[j]
  }

  /** A cycle that visits each of its SKUs once before it closes. */
  ghost predicate IsSimpleCycle(g: Graph, p: seq<Sku>) {
    IsCycle(g, p) && Distinct(p[..|p| - 1])
  }

  ghost predicate Cyclic(g: Graph) {
    exists p :: IsCycle(g, p)
  }

  /** Every SKU stands after all of its predecessors. */
  ghost predicate PredecessorsFirst(g: Graph, order: seq<Sku>) {
    forall i, w | 0 <= i < |order| && Edge(g, order[i], w) :: w in order[..i]
  }

  ghost predicate IsTopologicalOrder(g: Graph, order: seq<Sku>) {
    Distinct(order) && PredecessorsFirst(g, order) && forall v | v in g :: v in order
  }

  function SkusOf(p: seq<Sku>): set<Sku> {
    set x | x in p
  }

  /** `w` stands before `v` in the list, wherever `v` stands. */
  ghost predicate Precedes(order: seq<Sku>, w: Sku, v: Sku) {
    forall at | 0 <= at < |order| && order[at] == v :: w in order[..at]
  }

  lemma {:induction false} WalkDescends(order: seq<Sku>, p: seq<Sku>, at: nat) returns (last: nat)
    requires |p| >= 2 && forall i | 0 <= i < |p| - 1 :: Precedes(order, p[i + 1], p[i])
    requires at < |order| && order[at] == p[0]
    ensures last < at && order[last] == p[|p| - 1]
  {
    assert Precedes(order, p[0 + 1], p[0]);
    var next: nat :| next < at && order[..at][next] == p[1];
    if |p| == 2 {
      last := next;
    } else {
      forall i | 0 <= i < |p[1..]| - 1 ensures Precedes(order, p[1..][i + 1], p[1..][i]) {
        assert Precedes(order, p[(i + 1) + 1], p[i + 1]);
      }
      last := WalkDescends(order, p[1..], next);
    }
  }

  /** No cycle descends at each of its edges in a list without repetition. */
  lemma {:induction false} SomeEdgeAscends(g: Graph, order: seq<Sku>, p: seq<Sku>) returns (i: nat)
    requires Distinct(order) && IsCycle(g, p) && p[0] in order
    ensures i < |p| - 1 && !Precedes(order, p[i + 1], p[i])
  {
    hide Precedes, IsWalk;
    if forall i | 0 <= i < |p| - 1 :: Precedes(order, p[i + 1], p[i]) {
      var at: nat :| at < |order| && order[at] == p[0];
      var last := WalkDescends(order, p, at);
      assert false;
    }
    i :| i < |p| - 1 && !Precedes(order, p[i + 1], p[i]);
  }

  lemma {:induction false} TopologicalOrderDescends(g: Graph, order: seq<Sku>, p: seq<Sku>)
    requires IsTopologicalOrder(g, order) && IsWalk(g, p)
    ensures forall i | 0 <= i < |p| - 1 :: Precedes(order, p[i + 1], p[i])
  {
    forall i | 0 <= i < |p| - 1 ensures Precedes(order, p[i + 1], p[i]) {
      assert Edge(g, p[i], p[i + 1]);
    }
  }

  lemma {:induction false} TopologicalOrderExcludesCycles(g: Graph, order: seq<Sku>)
    requires IsTopologicalOrder(g, order)
    ensures !Cyclic(g)
  {
    forall p | IsCycle(g, p) ensures false {
      assert Edge(g, p[0], p[1]);
      TopologicalOrderDescends(g, order, p);
      var i := SomeEdgeAscends(g, order, p);
    }
  }

  /** Some reported set holds both SKUs. */
  ghost predicate Together(reported: set<set<Sku>>, v: Sku, w: Sku) {
    exists skus | skus in reported :: v in skus && w in skus
  }

  lemma {:induction false} LieTogether(reported: set<set<Sku>>, skus: set<Sku>, v: Sku, w: Sku)
    requires skus in reported && v in skus && w in skus
    ensures Together(reported, v, w)
  {}

  /** The current depth-first path. */
  ghost predicate IsPath(g: Graph, nodes: set<Sku>, visiting: seq<Sku>) {
    Distinct(visiting) && IsWalk(g, visiting) && SkusOf(visiting) <= nodes
  }

  ghost predicate Separated(visiting: seq<Sku>, finished: seq<Sku>) {
    Distinct(finished) && forall v | v in visiting :: v !in finished
  }

  /** Every predecessor of a finished SKU was finished before it or lies with it in a reported set. */
  ghost predicate AccountedFor(g: Graph, finished: seq<Sku>, reported: set<set<Sku>>) {
    forall i, w | 0 <= i < |finished| && Edge(g, finished[i], w) ::
      w in finished[..i] || Together(reported, finished[i], w)
  }

  /** Everything appended to the shared list is a simple cycle, no two over the same SKUs. */
  ghost predicate IssuesAreCycles(g: Graph, prior: seq<ConfigurationIssue>, issues: seq<ConfigurationIssue>) {
    && prior <= issues
    && (forall k | |prior| <= k < |issues| ::
          issues[k].code == PREDECESSOR_CYCLE && IsSimpleCycle(g, issues[k].affected))
    && (forall j, k | |prior| <= j < k < |issues| :: SkusOf(issues[j].affected) != SkusOf(issues[k].affected))
  }

  ghost predicate NamedByIssue(issues: seq<ConfigurationIssue>, first: nat, skus: set<Sku>) {
    exists k | first <= k < |issues| :: skus == SkusOf(issues[k].affected)
  }

  /** The reported sets are those of the appended cycles. */
  ghost predicate ReportsAreIssues(
    prior: seq<ConfigurationIssue>, issues: seq<ConfigurationIssue>, reported: set<set<Sku>>
  ) {
    forall skus :: skus in reported <==> NamedByIssue(issues, |prior|, skus)
  }

  lemma {:induction false} OneMoreName(issues: seq<ConfigurationIssue>, first: nat, cycle: seq<Sku>, skus: set<Sku>)
    requires first <= |issues|
    ensures NamedByIssue(issues + [ConfigurationIssue(PREDECESSOR_CYCLE, cycle)], first, skus) <==>
      NamedByIssue(issues, first, skus) || skus == SkusOf(cycle)
  {
    hide SkusOf;
    var longer := issues + [ConfigurationIssue(PREDECESSOR_CYCLE, cycle)];
    if NamedByIssue(issues, first, skus) {
      var k :| first <= k < |issues| && skus == SkusOf(issues[k].affected);
      assert longer[k] == issues[k];
    }
    assert longer[|issues|].affected == cycle;
  }

  lemma {:induction false} OneMoreReport(
    g: Graph, prior: seq<ConfigurationIssue>, issues: seq<ConfigurationIssue>, reported: set<set<Sku>>, cycle: seq<Sku>
  )
    requires IssuesAreCycles(g, prior, issues) && ReportsAreIssues(prior, issues, reported)
    requires IsSimpleCycle(g, cycle) && SkusOf(cycle) !in reported
    ensures var longer := issues + [ConfigurationIssue(PREDECESSOR_CYCLE, cycle)];
      IssuesAreCycles(g, prior, longer) && ReportsAreIssues(prior, longer, reported + {SkusOf(cycle)})
  {
    hide IsSimpleCycle, SkusOf;
    var longer := issues + [ConfigurationIssue(PREDECESSOR_CYCLE, cycle)];
    forall k | |prior| <= k < |issues| ensures SkusOf(longer[k].affected) != SkusOf(cycle) {
      assert NamedByIssue(issues, |prior|, SkusOf(issues[k].affected));
    }
    forall skus ensures skus in reported + {SkusOf(cycle)} <==> NamedByIssue(longer, |prior|, skus) {
      OneMoreName(issues, |prior|, cycle, skus);
    }
  }

  /** Growing the set of reports keeps every edge accounted for. */
  lemma {:induction false} MoreReported(g: Graph, finished: seq<Sku>, fewer: set<set<Sku>>, more: set<set<Sku>>)
    requires AccountedFor(g, finished, fewer) && fewer <= more
    ensures AccountedFor(g, finished, more)
  {}

  // ---------------------------------------------------------------- the depth-first search, as a function

  /** What a search has found so far: the finished SKUs, the reported sets and the issue list. */
  datatype Findings = Findings(visited: set<Sku>, reported: set<set<Sku>>, issues: seq<ConfigurationIssue>)

  function FirstIndex(s: seq<Sku>, x: Sku): (i: nat)
    requires x in s
    ensures i < |s| && s[i] == x
  {
    if s[0] == x then 0 else 1 + FirstIndex(s[1..], x)
  }

  /** The cycle that the path closes at `sku` is reported, unless one over the same SKUs has been. */
  ghost function Closing(path: seq<Sku>, sku: Sku, found: Findings): Findings
    requires sku in path
  {
    var cycle := path[FirstIndex(path, sku)..] + [sku];
    if SkusOf(cycle) in found.reported then found
    else
      found.(reported := found.reported + {SkusOf(cycle)},
             issues := found.issues + [ConfigurationIssue(PREDECESSOR_CYCLE, cycle)])
  }

  ghost predicate IsClosed(g: Graph, nodes: set<Sku>) {
    forall v, w | v in nodes && Edge(g, v, w) :: w in nodes
  }

  lemma {:induction false} LongerPath(nodes: set<Sku>, path: seq<Sku>, sku: Sku)
    requires SkusOf(path) <= nodes && sku in nodes && sku !in path
    ensures SkusOf(path + [sku]) == SkusOf(path) + {sku}
    ensures SkusOf(path + [sku]) <= nodes && nodes - SkusOf(path + [sku]) < nodes - SkusOf(path)
  {
    assert sku in nodes - SkusOf(path);
  }

  /** Predecessors in the order in which they are visited: by their characters. */
  ghost function Ordered(g: Graph, nodes: set<Sku>, sku: Sku): (r: seq<Sku>)
    requires IsClosed(g, nodes) && sku in nodes
    ensures forall w :: w in r <==> Edge(g, sku, w)
    ensures forall w | w in r :: w in nodes
  {
    SortPermutes(Predecessors(g, sku), StringLeq);
    Sort(Predecessors(g, sku), StringLeq)
  }

  /** The findings after a SKU has been visited from the end of a path. */
  ghost function Visited(g: Graph, nodes: set<Sku>, path: seq<Sku>, sku: Sku, found: Findings): Findings
    requires IsClosed(g, nodes) && SkusOf(path) <= nodes && sku in nodes
    decreases nodes - SkusOf(path), 0, 0
  {
    if sku in path then Closing(path, sku, found)
    else if sku in found.visited then found
    else
      LongerPath(nodes, path, sku);
      var deeper := VisitedFirst(g, nodes, path + [sku], Ordered(g, nodes, sku), |Ordered(g, nodes, sku)|, found);
      deeper.(visited := deeper.visited + {sku})
  }

  /** The findings after the first `n` SKUs of a list have been visited from there, one after the other. */
  ghost function VisitedFirst(
    g: Graph, nodes: set<Sku>, path: seq<Sku>, skus: seq<Sku>, n: nat, found: Findings
  )
    : Findings
    requires IsClosed(g, nodes) && SkusOf(path) <= nodes && n <= |skus| && forall v | v in skus :: v in nodes
    decreases nodes - SkusOf(path), 1, n
  {
    if n == 0 then found
    else Visited(g, nodes, path, skus[n - 1], VisitedFirst(g, nodes, path, skus, n - 1, found))
  }

  lemma {:induction false} OnlyIndex(path: seq<Sku>, sku: Sku, i: nat)
    requires Distinct(path) && i < |path| && path[i] == sku
    ensures FirstIndex(path, sku) == i
  {}

  lemma {:induction false} ClosingAt(path: seq<Sku>, sku: Sku, start: nat, cycle: seq<Sku>, found: Findings)
    requires Distinct(path) && start < |path| && path[start] == sku && cycle == path[start..] + [sku]
    ensures SkusOf(cycle) in found.reported ==> Closing(path, sku, found) == found
    ensures SkusOf(cycle) !in found.reported ==>
      Closing(path, sku, found) == Findings(
        found.visited, found.reported + {SkusOf(cycle)},
        found.issues + [ConfigurationIssue(PREDECESSOR_CYCLE, cycle)])
  {
    hide SkusOf;
    OnlyIndex(path, sku, start);
  }

  /** A back edge from the end of the path closes a simple cycle through both of its ends. */
  lemma {:induction false} ClosesCycle(g: Graph, path: seq<Sku>, start: nat, cycle: seq<Sku>)
    requires Distinct(path) && IsWalk(g, path) && start < |path| && Edge(g, path[|path| - 1], path[start])
    requires cycle == path[start..] + [path[start]]
    ensures IsSimpleCycle(g, cycle)
    ensures path[|path| - 1] in SkusOf(cycle) && path[start] in SkusOf(cycle)
  {
    forall i | 0 <= i < |cycle| - 1 ensures Edge(g, cycle[i], cycle[i + 1]) {
      if i < |cycle| - 2 {
        assert Edge(g, path[start + i], path[start + i + 1]);
      }
    }
    assert cycle[..|cycle| - 1] == path[start..];
    assert cycle[|cycle| - 2] == path[|path| - 1];
  }

  /** Reporting the cycle of a back edge keeps every edge accounted for and every issue a cycle. */
  lemma {:induction false} ClosingKeeps(
    g: Graph, prior: seq<ConfigurationIssue>, path: seq<Sku>, finished: seq<Sku>, sku: Sku, found: Findings
  )
    requires Distinct(path) && IsWalk(g, path) && sku in path && Edge(g, path[|path| - 1], sku)
    requires AccountedFor(g, finished, found.reported)
    requires IssuesAreCycles(g, prior, found.issues) && ReportsAreIssues(prior, found.issues, found.reported)
    ensures var later := Closing(path, sku, found);
      && later.visited == found.visited && found.reported <= later.reported
      && AccountedFor(g, finished, later.reported) && Together(later.reported, path[|path| - 1], sku)
      && IssuesAreCycles(g, prior, later.issues) && ReportsAreIssues(prior, later.issues, later.reported)
  {
    var start: nat :| start < |path| && path[start] == sku;
    var cycle := path[start..] + [sku];
    ClosesCycle(g, path, start, cycle);
    ClosingAt(path, sku, start, cycle, found);
    MoreReported(g, finished, found.reported, found.reported + {SkusOf(cycle)});
    hide IsSimpleCycle, AccountedFor, IssuesAreCycles, ReportsAreIssues, SkusOf, Edge, Closing;
    if SkusOf(cycle) !in found.reported {
      OneMoreReport(g, prior, found.issues, found.reported, cycle);
    }
    LieTogether(Closing(path, sku, found).reported, SkusOf(cycle), path[|path| - 1], sku);
  }

  /** Each of the first `n` SKUs is finished, or lies with `from` in a reported set. */
  ghost predicate EnteredFirst(visited: set<Sku>, reported: set<set<Sku>>, from: Sku, skus: seq<Sku>, n: nat) {
    n <= |skus| && forall k | 0 <= k < n :: skus[k] in visited || Together(reported, from, skus[k])
  }

  lemma {:induction false} NoneEntered(visited: set<Sku>, reported: set<set<Sku>>, from: Sku, skus: seq<Sku>)
    ensures EnteredFirst(visited, reported, from, skus, 0)
  {}

  lemma {:induction false} OneMoreEntered(
    visited: set<Sku>, reported: set<set<Sku>>, later: set<Sku>, more: set<set<Sku>>, from: Sku, skus: seq<Sku>, n: nat
  )
    requires EnteredFirst(visited, reported, from, skus, n) && visited <= later && reported <= more && n < |skus|
    requires skus[n] in later || Together(more, from, skus[n])
    ensures EnteredFirst(later, more, from, skus, n + 1)
  {}

  /** The three collections that the nested `visit` function closes over, and the shared issue list. */
  class CycleSearch {
    const graph: Graph
    ghost const nodes: set<Sku>
    ghost const priorIssues: seq<ConfigurationIssue>
    var visiting: seq<Sku>
    var visited: set<Sku>
    var reported: set<set<Sku>>
    var issues: seq<ConfigurationIssue>
    ghost var finished: seq<Sku>

    ghost function Found(): Findings
      reads this
    {
      Findings(visited, reported, issues)
    }

    ghost predicate NothingReported()
      reads this
    {
      |issues| == |priorIssues|
    }

    /** Finished, or on the path, in which case a reported cycle holds it together with `from`. */
    ghost predicate Entered(from: Sku, sku: Sku)
      reads this
    {
      sku in visited || Together(reported, from, sku)
    }

    ghost predicate Valid()
      reads this
    {
      && IsClosed(graph, nodes)
      && IsPath(graph, nodes, visiting)
      && visited == SkusOf(finished) && visited <= nodes
      && Separated(visiting, finished)
      && AccountedFor(graph, finished, reported)
      && IssuesAreCycles(graph, priorIssues, issues) && ReportsAreIssues(priorIssues, issues, reported)
    }

    constructor (graph: Graph, issues: seq<ConfigurationIssue>, ghost nodes: set<Sku>)
      requires IsClosed(graph, nodes)
      ensures Valid() && NothingReported() && Found() == Findings({}, {}, issues)
      ensures this.graph == graph && this.nodes == nodes && this.priorIssues == issues
      ensures this.visiting == [] && this.visited == {}
    {
      this.graph, this.nodes, this.priorIssues := graph, nodes, issues;
      this.visiting, this.visited, this.reported := [], {}, {};
      this.issues, this.finished := issues, [];
    }

    lemma {:induction false} PathIsDistinct()
      requires Valid()
      ensures Distinct(visiting) && IsWalk(graph, visiting) && SkusOf(visiting) <= nodes && IsClosed(graph, nodes)
    {}

    /** The back edge that ends at `sku` closes a cycle through the tail of the current path. */
    method ReportCycle(sku: Sku)
      requires Valid() && sku in visiting
      requires Edge(graph, visiting[|visiting| - 1], sku)
      modifies this`reported, this`issues
      ensures Valid() && old(reported) <= reported
      ensures Together(reported, visiting[|visiting| - 1], sku)
      ensures Found() == Closing(visiting, sku, old(Found()))
    {
      hide IsPath, Separated, AccountedFor, IssuesAreCycles, ReportsAreIssues, SkusOf, Edge, Closing, IsClosed,
        Together, Distinct, IsWalk;
      PathIsDistinct();
      ClosingKeeps(graph, priorIssues, visiting, finished, sku, Found());
      var start: nat :| start < |visiting| && visiting[start] == sku;
      var cycle := visiting[start..] + [sku];
      ClosingAt(visiting, sku, start, cycle, Found());
      if SkusOf(cycle) !in reported {
        reported := reported + {SkusOf(cycle)};
        issues := issues + [ConfigurationIssue(PREDECESSOR_CYCLE, cycle)];
      }
    }

    /** `visiting.append(sku)`. */
    method Enter(sku: Sku)
      requires Valid() && sku in nodes && sku !in visiting && sku !in visited
      requires visiting != [] ==> Edge(graph, visiting[|visiting| - 1], sku)
      modifies this`visiting
      ensures Valid() && visiting == old(visiting) + [sku]
      ensures nodes - SkusOf(visiting) < nodes - SkusOf(old(visiting))
    {
      visiting := visiting + [sku];
      assert SkusOf(visiting) == SkusOf(old(visiting)) + {sku};
      assert sku in nodes - SkusOf(old(visiting));
    }

    method SortedPredecessors(sku: Sku) returns (predecessors: seq<Sku>)
      requires Valid() && sku in nodes
      ensures predecessors == Ordered(graph, nodes, sku)
      ensures forall w :: Edge(graph, sku, w) <==> w in predecessors
      ensures forall w | w in predecessors :: w in nodes && Edge(graph, sku, w)
    {
      hide IsPath, Separated, AccountedFor, IssuesAreCycles, ReportsAreIssues;
      predecessors := Sort(Predecessors(graph, sku), StringLeq);
      SortPermutes(Predecessors(graph, sku), StringLeq);
    }

    lemma {:induction false} EveryOneEntered(sku: Sku, predecessors: seq<Sku>)
      requires EnteredFirst(visited, reported, sku, predecessors, |predecessors|)
      requires forall w | Edge(graph, sku, w) :: w in predecessors
      ensures forall w | Edge(graph, sku, w) :: Entered(sku, w)
    {
      hide Edge, Together;
    }

    /** The loop over `sorted(graph.get(sku, ()))`. */
    method VisitPredecessors(sku: Sku)
      requires Valid() && sku in nodes && visiting != [] && visiting[|visiting| - 1] == sku
      modifies this`visiting, this`visited, this`reported, this`issues, this`finished
      ensures Valid() && visiting == old(visiting) && old(visited) <= visited && old(reported) <= reported
      ensures forall w | Edge(graph, sku, w) :: Entered(sku, w)
      ensures SkusOf(visiting) <= nodes && IsClosed(graph, nodes)
      ensures var predecessors := Ordered(graph, nodes, sku);
        Found() == VisitedFirst(graph, nodes, visiting, predecessors, |predecessors|, old(Found()))
      decreases nodes - SkusOf(visiting), 1
    {
      hide Valid, Edge, IsPath, IsClosed, SkusOf, Visited, Ordered, Together, EnteredFirst, Entered, IsWalk, Distinct;
      PathIsDistinct();
      var predecessors := SortedPredecessors(sku);
      NoneEntered(visited, reported, sku, predecessors);
      for i := 0 to |predecessors|
        invariant Valid() && visiting == old(visiting) && old(visited) <= visited && old(reported) <= reported
        invariant Found() == VisitedFirst(graph, nodes, visiting, predecessors, i, old(Found()))
        invariant EnteredFirst(visited, reported, sku, predecessors, i)
      {
        ghost var before := Found();
        Visit(predecessors[i]);
        OneMoreEntered(before.visited, before.reported, visited, reported, sku, predecessors, i);
      }
      assert EnteredFirst(visited, reported, sku, predecessors, |predecessors|);
      EveryOneEntered(sku, predecessors);
    }

    /** `visiting.pop()` and `visited.add(sku)`. */
    method Finish(ghost path: seq<Sku>, sku: Sku)
      requires Valid() && visiting == path + [sku]
      requires forall w | Edge(graph, sku, w) :: Entered(sku, w)
      modifies this`visiting, this`visited, this`finished
      ensures Valid() && visiting == path
      ensures visited == old(visited) + {sku} && finished == old(finished) + [sku]
      ensures reported == old(reported) && issues == old(issues)
    {
      visiting := visiting[..|visiting| - 1];
      visited := visited + {sku};
      finished := finished + [sku];
      assert visiting == path;
      assert sku == old(visiting)[|path|];
      assert old(SkusOf(visiting)) == SkusOf(path) + {sku};
      assert SkusOf(finished) == old(SkusOf(finished)) + {sku};
      assert forall i | 0 <= i < |old(finished)| :: finished[..i] == old(finished)[..i];
      assert finished[..|old(finished)|] == old(finished);
    }

    method Visit(sku: Sku)
      requires Valid() && sku in nodes
      requires visiting != [] ==> Edge(graph, visiting[|visiting| - 1], sku)
      modifies this`visiting, this`visited, this`reported, this`issues, this`finished
      ensures Valid()
      ensures visiting == old(visiting) && old(visited) <= visited && old(reported) <= reported
      ensures sku in visited || (visiting != [] && Together(reported, visiting[|visiting| - 1], sku))
      ensures SkusOf(visiting) <= nodes && IsClosed(graph, nodes)
      ensures Found() == Visited(graph, nodes, visiting, sku, old(Found()))
      decreases nodes - SkusOf(visiting), 0
    {
      PathIsDistinct();
      if sku in visiting {
        ReportCycle(sku);
        return;
      }
      if sku in visited {
        return;
      }
      ghost var path := visiting;
      Enter(sku);
      VisitPredecessors(sku);
      Finish(path, sku);
    }
  }

  /** Some issue from `first` on names both ends of an edge of the walk. */
  ghost predicate TouchedByIssue(issues: seq<ConfigurationIssue>, first: nat, p: seq<Sku>) {
    exists i, k | 0 <= i < |p| - 1 && first <= k < |issues| ::
      p[i] in issues[k].affected && p[i + 1] in issues[k].affected
  }

  /** What a search that has entered every SKU leaves in the issue list. */
  ghost predicate IsVerdict(g: Graph, issues: seq<ConfigurationIssue>, result: seq<ConfigurationIssue>) {
    && IssuesAreCycles(g, issues, result)
    && (result != issues <==> Cyclic(g))
    && (result == issues ==> exists order :: IsTopologicalOrder(g, order))
    && (forall p | IsCycle(g, p) :: TouchedByIssue(result, |issues|, p))
  }

  lemma {:induction false} DistinctFinished(search: CycleSearch)
    requires search.Valid()
    ensures Distinct(search.finished)
  {}

  /** Every cycle has an edge inside a reported set: none is missed altogether. */
  lemma {:induction false} EveryCycleIsTouched(search: CycleSearch, p: seq<Sku>)
    requires search.Valid() && IsCycle(search.graph, p) && forall v | v in search.graph :: v in search.visited
    ensures TouchedByIssue(search.issues, |search.priorIssues|, p)
  {
    hide IsPath, Separated, IssuesAreCycles;
    assert Edge(search.graph, p[0], p[1]);
    assert Distinct(search.finished) by {
      DistinctFinished(search);
    }
    var i := SomeEdgeAscends(search.graph, search.finished, p);
    var at :| 0 <= at < |search.finished| && search.finished[at] == p[i] && p[i + 1] !in search.finished[..at];
    assert Edge(search.graph, p[i], p[i + 1]);
    assert Together(search.reported, p[i], p[i + 1]);
    var skus :| skus in search.reported && p[i] in skus && p[i + 1] in skus;
    assert NamedByIssue(search.issues, |search.priorIssues|, skus);
    var k :| |search.priorIssues| <= k < |search.issues| && skus == SkusOf(search.issues[k].affected);
    assert p[i] in search.issues[k].affected && p[i + 1] in search.issues[k].affected;
  }

  lemma {:induction false} SimpleCycleIsCycle(g: Graph, p: seq<Sku>)
    requires IsSimpleCycle(g, p)
    ensures Cyclic(g)
  {}

  lemma {:induction false} NothingReportedMeansAcyclic(search: CycleSearch)
    requires search.Valid() && search.NothingReported() && forall v | v in search.graph :: v in search.visited
    ensures IsTopologicalOrder(search.graph, search.finished) && !Cyclic(search.graph)
  {
    hide IsPath;
    forall skus ensures skus !in search.reported {
      assert !NamedByIssue(search.issues, |search.priorIssues|, skus);
    }
    TopologicalOrderExcludesCycles(search.graph, search.finished);
  }

  lemma {:induction false} CyclesAreTouched(search: CycleSearch)
    requires search.Valid() && forall v | v in search.graph :: v in search.visited
    ensures forall p | IsCycle(search.graph, p) :: TouchedByIssue(search.issues, |search.priorIssues|, p)
  {
    hide CycleSearch.Valid, IsCycle, TouchedByIssue;
    forall p | IsCycle(search.graph, p) ensures TouchedByIssue(search.issues, |search.priorIssues|, p) {
      EveryCycleIsTouched(search, p);
    }
  }

  lemma {:induction false} Verdict(search: CycleSearch)
    requires search.Valid() && search.visiting == [] && forall v | v in search.graph :: v in search.visited
    ensures IsVerdict(search.graph, search.priorIssues, search.issues)
  {
    CyclesAreTouched(search);
    hide IsCycle, TouchedByIssue, AccountedFor, IsPath, Separated, IsTopologicalOrder, IsSimpleCycle, ReportsAreIssues,
      SkusOf;
    if search.NothingReported() {
      NothingReportedMeansAcyclic(search);
    } else {
      SimpleCycleIsCycle(search.graph, search.issues[|search.priorIssues|].affected);
    }
  }

  /** The outer loop `for sku in sorted(graph)`. */
  method VisitAll(search: CycleSearch, keys: seq<Sku>)
    requires search.Valid() && search.visiting == [] && forall v | v in keys :: v in search.nodes
    modifies search
    ensures search.Valid() && search.visiting == []
    ensures forall v | v in keys :: v in search.visited
    ensures IsClosed(search.graph, search.nodes) && SkusOf([]) <= search.nodes
    ensures search.Found() ==
      VisitedFirst(search.graph, search.nodes, [], keys, |keys|, old(search.Found()))
  {
    search.PathIsDistinct();
    hide CycleSearch.Valid, Visited, IsClosed;
    for i := 0 to |keys|
      invariant search.Valid() && search.visiting == []
      invariant forall k | 0 <= k < i :: keys[k] in search.visited
      invariant search.Found() == VisitedFirst(search.graph, search.nodes, [], keys, i, old(search.Found()))
    {
      search.Visit(keys[i]);
    }
  }

  // ---------------------------------------------------------------- what the profiles declare

  /** The profiles declare `w` as a predecessor of `v`: both are expected, and the last profile of `v` lists `w`. */
  ghost predicate Declares(profiles: seq<PlanningProfile>, expected: set<Sku>, v: Sku, w: Sku) {
    && v in expected && w in expected
    && exists i | 0 <= i < |profiles| ::
         && profiles[i].sku == v && w in profiles[i].predecessorIfPresent
         && forall j | i < j < |profiles| :: profiles[j].sku != v
  }

  ghost predicate IsDeclaredCycle(profiles: seq<PlanningProfile>, expected: set<Sku>, p: seq<Sku>) {
    && |p| >= 2 && p[0] == p[|p| - 1]
    && forall i | 0 <= i < |p| - 1 :: Declares(profiles, expected, p[i], p[i + 1])
  }

  /** Every expected SKU with a profile is listed once, after all of its declared predecessors. */
  ghost predicate IsDeclaredOrder(profiles: seq<PlanningProfile>, expected: set<Sku>, order: seq<Sku>) {
    && Distinct(order)
    && (forall profile | profile in profiles && profile.sku in expected :: profile.sku in order)
    && forall i, w | 0 <= i < |order| && Declares(profiles, expected, order[i], w) :: w in order[..i]
  }

  /** What the check promises about the profiles themselves. */
  ghost predicate IsDeclaredVerdict(
    profiles: seq<PlanningProfile>, expected: set<Sku>, issues: seq<ConfigurationIssue>, result: seq<ConfigurationIssue>
  ) {
    && issues <= result
    && (forall k | |issues| <= k < |result| ::
          && result[k].code == "PREDECESSOR_CYCLE" && IsDeclaredCycle(profiles, expected, result[k].affected)
          && Distinct(result[k].affected[..|result[k].affected| - 1]))
    && (forall j, k | |issues| <= j < k < |result| :: SkusOf(result[j].affected) != SkusOf(result[k].affected))
    && (result != issues <==> exists p :: IsDeclaredCycle(profiles, expected, p))
    && (result == issues ==> exists order :: IsDeclaredOrder(profiles, expected, order))
    && (forall p | IsDeclaredCycle(profiles, expected, p) :: TouchedByIssue(result, |issues|, p))
  }

  lemma {:induction false} LastProfileWins(
    init: seq<PlanningProfile>, last: PlanningProfile, expected: set<Sku>, v: Sku, w: Sku
  )
    ensures Declares(init + [last], expected, v, w) <==>
      if last.sku == v then v in expected && w in expected && w in last.predecessorIfPresent
      else Declares(init, expected, v, w)
  {
    var profiles := init + [last];
    assert profiles[|init|] == last;
    assert forall i | 0 <= i < |init| :: profiles[i] == init[i];
  }

  /** The graph that is searched has exactly the declared edges. */
  lemma {:induction false} GraphIsDeclared(profiles: seq<PlanningProfile>, expected: set<Sku>, v: Sku, w: Sku)
    ensures Edge(PredecessorGraph(profiles, expected), v, w) <==> Declares(profiles, expected, v, w)
  {
    if profiles != [] {
      hide Declares;
      var n := |profiles| - 1;
      assert profiles == profiles[..n] + [profiles[n]];
      GraphIsDeclared(profiles[..n], expected, v, w);
      LastProfileWins(profiles[..n], profiles[n], expected, v, w);
    }
  }

  lemma {:induction false} GraphHasProfiles(
    profiles: seq<PlanningProfile>, expected: set<Sku>, profile: PlanningProfile
  )
    requires profile in profiles && profile.sku in expected
    ensures profile.sku in PredecessorGraph(profiles, expected)
  {
    var n := |profiles| - 1;
    assert profiles == profiles[..n] + [profiles[n]];
    if profile != profiles[n] {
      GraphHasProfiles(profiles[..n], expected, profile);
    }
  }

  lemma {:induction false} CyclesAreDeclared(profiles: seq<PlanningProfile>, expected: set<Sku>, p: seq<Sku>)
    ensures IsCycle(PredecessorGraph(profiles, expected), p) <==> IsDeclaredCycle(profiles, expected, p)
  {
    hide Declares, Edge;
    var g := PredecessorGraph(profiles, expected);
    forall i | 0 <= i < |p| - 1 ensures Edge(g, p[i], p[i + 1]) <==> Declares(profiles, expected, p[i], p[i + 1]) {
      GraphIsDeclared(profiles, expected, p[i], p[i + 1]);
    }
  }

  lemma {:induction false} OrderIsDeclared(profiles: seq<PlanningProfile>, expected: set<Sku>, order: seq<Sku>)
    requires IsTopologicalOrder(PredecessorGraph(profiles, expected), order)
    ensures IsDeclaredOrder(profiles, expected, order)
  {
    hide Declares, Edge;
    forall i, w | 0 <= i < |order| && Declares(profiles, expected, order[i], w) ensures w in order[..i] {
      GraphIsDeclared(profiles, expected, order[i], w);
    }
    forall profile | profile in profiles && profile.sku in expected ensures profile.sku in order {
      GraphHasProfiles(profiles, expected, profile);
    }
  }

  /** The SKUs of a graph in the order in which the search begins: each once, by its characters. */
  ghost predicate ListsKeys(g: Graph, keys: seq<Sku>) {
    multiset(keys) == multiset(g.Keys) && SortedBy(keys, StringLeq)
  }

  /** The issues are those that the depth-first search appends, from each SKU and to its predecessors in order. */
  ghost predicate IsSearched(
    g: Graph, nodes: set<Sku>, issues: seq<ConfigurationIssue>, result: seq<ConfigurationIssue>
  ) {
    && IsClosed(g, nodes) && SkusOf([]) <= nodes
    && forall keys | ListsKeys(g, keys) ::
         && (forall v | v in keys :: v in nodes)
         && result == VisitedFirst(g, nodes, [], keys, |keys|, Findings({}, {}, issues)).issues
  }

  lemma {:induction false} KeysAreUnique(g: Graph, a: seq<Sku>, b: seq<Sku>)
    requires ListsKeys(g, a) && ListsKeys(g, b)
    ensures a == b
  {
    forall x, y | x in a && y in a && StringLeq(x, y) && StringLeq(y, x) ensures x == y {
      StringLeqTotal(x, y);
    }
    SortedListingsAgree(a, b, StringLeq);
  }

  /** One listing of the keys is as good as any. */
  lemma {:induction false} SearchedFrom(
    g: Graph, nodes: set<Sku>, keys: seq<Sku>, issues: seq<ConfigurationIssue>, result: seq<ConfigurationIssue>
  )
    requires IsClosed(g, nodes) && SkusOf([]) <= nodes && ListsKeys(g, keys) && forall v | v in keys :: v in nodes
    requires result == VisitedFirst(g, nodes, [], keys, |keys|, Findings({}, {}, issues)).issues
    ensures IsSearched(g, nodes, issues, result)
  {
    hide ListsKeys, IsClosed, VisitedFirst;
    forall other | ListsKeys(g, other) ensures other == keys {
      KeysAreUnique(g, other, keys);
    }
  }

  /** The verdict on the graph is a verdict on what the profiles declare. */
  lemma {:induction false} VerdictIsDeclared(
    profiles: seq<PlanningProfile>, expected: set<Sku>, issues: seq<ConfigurationIssue>, result: seq<ConfigurationIssue>
  )
    requires IsVerdict(PredecessorGraph(profiles, expected), issues, result)
    ensures IsDeclaredVerdict(profiles, expected, issues, result)
  {
    hide IsCycle, IsDeclaredCycle, TouchedByIssue, IsTopologicalOrder, IsDeclaredOrder, SkusOf, Distinct;
    var g := PredecessorGraph(profiles, expected);
    forall p ensures IsCycle(g, p) <==> IsDeclaredCycle(profiles, expected, p) {
      CyclesAreDeclared(profiles, expected, p);
    }
    if result == issues {
      var order :| IsTopologicalOrder(g, order);
      OrderIsDeclared(profiles, expected, order);
    } else {
      var p :| IsCycle(g, p);
      assert IsDeclaredCycle(profiles, expected, p);
    }
  }

  /** The check of one configuration: appends to the shared issue list. */
  method ValidatePredecessorCycles(
    profiles: seq<PlanningProfile>, expected: set<Sku>, issues: seq<ConfigurationIssue>
  ) returns (result: seq<ConfigurationIssue>)
    ensures IsDeclaredVerdict(profiles, expected, issues, result)
    ensures IsSearched(PredecessorGraph(profiles, expected), expected, issues, result)
  {
    hide IsVerdict, IsDeclaredVerdict, IsSearched, VisitedFirst;
    var graph := PredecessorGraph(profiles, expected);
    var search := new CycleSearch(graph, issues, expected);
    var keys := SortedSet(graph.Keys, StringLeq);
    StringLeqIsTotal();
    VisitAll(search, keys);
    SearchedFrom(graph, expected, keys, issues, search.issues);
    Verdict(search);
    VerdictIsDeclared(profiles, expected, issues, search.issues);
    result := search.issues;
  }

  // ---------------------------------------------------------------- the report

  /** The same predecessors, possibly listed in another order. */
  ghost predicate SamePredecessors(g: Graph, h: Graph) {
    g.Keys == h.Keys && forall v | v in g :: multiset(g[v]) == multiset(h[v])
  }

  lemma {:induction false} SameOrder(g: Graph, h: Graph, nodes: set<Sku>, v: Sku)
    requires SamePredecessors(g, h) && IsClosed(g, nodes) && IsClosed(h, nodes) && v in nodes
    ensures Ordered(g, nodes, v) == Ordered(h, nodes, v)
  {
    var p, q := Predecessors(g, v), Predecessors(h, v);
    StringLeqIsTotal();
    SortPermutes(p, StringLeq);
    SortPermutes(q, StringLeq);
    SortSorts(p, StringLeq);
    SortSorts(q, StringLeq);
    var a, b := Sort(p, StringLeq), Sort(q, StringLeq);
    forall x, y | x in a && y in a && StringLeq(x, y) && StringLeq(y, x) ensures x == y {
      StringLeqTotal(x, y);
    }
    hide StringLeq, Sort;
    SortedListingsAgree(a, b, StringLeq);
  }

  lemma {:induction false} SameVisit(g: Graph, h: Graph, nodes: set<Sku>, path: seq<Sku>, sku: Sku, found: Findings)
    requires SamePredecessors(g, h) && IsClosed(g, nodes) && IsClosed(h, nodes)
    requires SkusOf(path) <= nodes && sku in nodes
    ensures Visited(g, nodes, path, sku, found) == Visited(h, nodes, path, sku, found)
    decreases nodes - SkusOf(path), 0, 0
  {
    if sku !in path && sku !in found.visited {
      LongerPath(nodes, path, sku);
      SameOrder(g, h, nodes, sku);
      var skus := Ordered(g, nodes, sku);
      SameVisits(g, h, nodes, path + [sku], skus, |skus|, found);
    }
  }

  lemma {:induction false} SameVisits(
    g: Graph, h: Graph, nodes: set<Sku>, path: seq<Sku>, skus: seq<Sku>, n: nat, found: Findings
  )
    requires SamePredecessors(g, h) && IsClosed(g, nodes) && IsClosed(h, nodes)
    requires SkusOf(path) <= nodes && n <= |skus| && forall v | v in skus :: v in nodes
    ensures VisitedFirst(g, nodes, path, skus, n, found) == VisitedFirst(h, nodes, path, skus, n, found)
    decreases nodes - SkusOf(path), 1, n
  {
    hide Visited, IsClosed, SkusOf, SamePredecessors;
    if n > 0 {
      SameVisits(g, h, nodes, path, skus, n - 1, found);
      SameVisit(g, h, nodes, path, skus[n - 1], VisitedFirst(g, nodes, path, skus, n - 1, found));
    }
  }

  lemma {:induction false} SortedKeys(g: Graph) returns (keys: seq<Sku>)
    ensures ListsKeys(g, keys)
  {
    var rest, listed := g.Keys, [];
    while rest != {}
      invariant rest <= g.Keys && multiset(listed) == multiset(g.Keys - rest)
      decreases rest
    {
      var x :| x in rest;
      assert g.Keys - (rest - {x}) == (g.Keys - rest) + {x};
      listed, rest := listed + [x], rest - {x};
    }
    assert g.Keys - rest == g.Keys;
    keys := Sort(listed, StringLeq);
    StringLeqIsTotal();
    SortPermutes(listed, StringLeq);
    SortSorts(listed, StringLeq);
  }

  /** The report does not depend on the order in which predecessors are listed. */
  lemma {:induction false} ListingIsIrrelevant(
    g: Graph, h: Graph, nodes: set<Sku>, issues: seq<ConfigurationIssue>, a: seq<ConfigurationIssue>,
    b: seq<ConfigurationIssue>
  )
    requires SamePredecessors(g, h) && IsSearched(g, nodes, issues, a) && IsSearched(h, nodes, issues, b)
    ensures a == b
  {
    hide VisitedFirst, IsClosed, Visited;
    var keys := SortedKeys(g);
    assert ListsKeys(h, keys);
    SameVisits(g, h, nodes, [], keys, |keys|, Findings({}, {}, issues));
  }

  /** A SKU with two predecessors that both name it as theirs. */
  function Hub(v: Sku, a: Sku, b: Sku): Graph {
    map[v := [b, a], a := [v], b := [v]]
  }

  lemma {:induction false} HubInOrder(v: Sku, a: Sku, b: Sku, nodes: set<Sku>)
    requires ComesBefore(v, a) && ComesBefore(a, b) && v != a && a != b && v != b && {v, a, b} <= nodes
    ensures IsClosed(Hub(v, a, b), nodes) && ListsKeys(Hub(v, a, b), [v, a, b])
    ensures Ordered(Hub(v, a, b), nodes, v) == [a, b]
    ensures Ordered(Hub(v, a, b), nodes, a) == [v] && Ordered(Hub(v, a, b), nodes, b) == [v]
  {
    StringLeqMeans(v, a);
    StringLeqMeans(a, b);
    StringLeqMeans(b, a);
    StringLeqTotal(a, b);
    StringLeqTransitive(v, a, b);
    var g := Hub(v, a, b);
    assert g.Keys == {v, a, b};
    assert multiset([v, a, b]) == multiset({v, a, b});
    assert [b, a][1..] == [a] && [v][1..] == [];
    hide StringLeq;
    assert Sort([a], StringLeq) == [a];
    assert Sort([b, a], StringLeq) == Insert(b, [a], StringLeq) == [a] + Insert(b, [a][1..], StringLeq) == [a, b];
    assert Sort([v], StringLeq) == [v];
  }

  /** One visit below the hub: the back edge to it is reported, unless it has been. */
  lemma {:induction false} BelowHub(v: Sku, a: Sku, b: Sku, nodes: set<Sku>, x: Sku, found: Findings)
    requires IsClosed(Hub(v, a, b), nodes) && {v, a, b} <= nodes && v != a && v != b && (x == a || x == b)
    requires Ordered(Hub(v, a, b), nodes, x) == [v] && x !in found.visited && {v, x} !in found.reported
    ensures Visited(Hub(v, a, b), nodes, [v], x, found) ==
      Findings(found.visited + {x}, found.reported + {{v, x}},
               found.issues + [ConfigurationIssue(PREDECESSOR_CYCLE, [v, x, v])])
  {
    var g, path := Hub(v, a, b), [v, x];
    LongerPath(nodes, [v], x);
    assert [v] + [x] == path;
    assert path[0..] + [v] == [v, x, v];
    assert SkusOf([v, x, v]) == {v, x};
    ClosingAt(path, v, 0, [v, x, v], found);
    assert VisitedFirst(g, nodes, path, [v], 0, found) == found;
    assert VisitedFirst(g, nodes, path, [v], 1, found) == Visited(g, nodes, path, v, found);
  }

  lemma {:induction false} TwoVisits(
    g: Graph, nodes: set<Sku>, path: seq<Sku>, a: Sku, b: Sku, found: Findings
  )
    requires IsClosed(g, nodes) && SkusOf(path) <= nodes && a in nodes && b in nodes
    ensures VisitedFirst(g, nodes, path, [a, b], 2, found) ==
      Visited(g, nodes, path, b, Visited(g, nodes, path, a, found))
  {
    hide Visited, IsClosed, SkusOf;
    assert VisitedFirst(g, nodes, path, [a, b], 0, found) == found;
    assert VisitedFirst(g, nodes, path, [a, b], 1, found) == Visited(g, nodes, path, a, found);
  }

  /** From the hub itself both cycles are found, in order. */
  lemma {:induction false} FromHub(v: Sku, a: Sku, b: Sku, nodes: set<Sku>, issues: seq<ConfigurationIssue>)
    requires IsClosed(Hub(v, a, b), nodes) && v != a && a != b && v != b && {v, a, b} <= nodes && SkusOf([]) <= nodes
    requires Ordered(Hub(v, a, b), nodes, v) == [a, b]
    requires Ordered(Hub(v, a, b), nodes, a) == [v] && Ordered(Hub(v, a, b), nodes, b) == [v]
    ensures Visited(Hub(v, a, b), nodes, [], v, Findings({}, {}, issues)) ==
      Findings({a, b, v}, {{v, a}, {v, b}},
               issues + [ConfigurationIssue(PREDECESSOR_CYCLE, [v, a, v]),
                         ConfigurationIssue(PREDECESSOR_CYCLE, [v, b, v])])
  {
    var g, start := Hub(v, a, b), Findings({}, {}, issues);
    LongerPath(nodes, [], v);
    assert [] + [v] == [v];
    BelowHub(v, a, b, nodes, a, start);
    var first := Visited(g, nodes, [v], a, start);
    assert b in {v, b} && b !in {v, a};
    BelowHub(v, a, b, nodes, b, first);
    TwoVisits(g, nodes, [v], a, b, start);
    hide IsClosed, Ordered, Closing, SkusOf, Hub, VisitedFirst;
    var second := Visited(g, nodes, [v], b, first);
    assert second.issues == issues + [ConfigurationIssue(PREDECESSOR_CYCLE, [v, a, v]),
                                      ConfigurationIssue(PREDECESSOR_CYCLE, [v, b, v])];
    assert second.visited == {a, b} && second.reported == {{v, a}, {v, b}};
  }

  lemma {:induction false} FinishedIsLeft(g: Graph, nodes: set<Sku>, path: seq<Sku>, sku: Sku, found: Findings)
    requires IsClosed(g, nodes) && SkusOf(path) <= nodes && sku in nodes && sku !in path && sku in found.visited
    ensures Visited(g, nodes, path, sku, found) == found
  {}

  /** Cycles are reported in the order in which the search finds them: from the smallest SKU, smaller predecessors
      first, and each from the SKU at which it closes. */
  lemma {:induction false} SmallerComesFirst(
    v: Sku, a: Sku, b: Sku, nodes: set<Sku>, issues: seq<ConfigurationIssue>, result: seq<ConfigurationIssue>
  )
    requires ComesBefore(v, a) && ComesBefore(a, b) && v != a && a != b && v != b && {v, a, b} <= nodes
    requires IsSearched(Hub(v, a, b), nodes, issues, result)
    ensures result == issues + [ConfigurationIssue("PREDECESSOR_CYCLE", [v, a, v]),
                                ConfigurationIssue("PREDECESSOR_CYCLE", [v, b, v])]
  {
    HubInOrder(v, a, b, nodes);
    FromHub(v, a, b, nodes, issues);
    var g, keys, start := Hub(v, a, b), [v, a, b], Findings({}, {}, issues);
    hide IsClosed, Ordered, ListsKeys, SkusOf, Hub, Visited;
    var hub := Visited(g, nodes, [], v, start);
    FinishedIsLeft(g, nodes, [], a, hub);
    FinishedIsLeft(g, nodes, [], b, hub);
    assert VisitedFirst(g, nodes, [], keys, 0, start) == start;
    assert VisitedFirst(g, nodes, [], keys, 1, start) == hub;
    assert VisitedFirst(g, nodes, [], keys, 2, start) == hub;
    assert VisitedFirst(g, nodes, [], keys, 3, start) == hub;
  }
}
