/** Ahead, behind or diverged: the relation derived from two ordered compares,
    against reachability in the commit graph (src/upstream.rs). */
module CommitGraph {
  import opened Basics

  type Commit = string

  /** Every commit with its parents. */
  type Graph = map<Commit, set<Commit>>

  ghost predicate IsPath(g: Graph, p: seq<Commit>) {
    && p != []
    && (forall i :: 0 <= i < |p| ==> p[i] in g)
    && (forall i :: 0 <= i < |p| - 1 ==> p[i + 1] in g[p[i]])
  }

  ghost predicate Leads(g: Graph, p: seq<Commit>, from: Commit, to: Commit) {
    IsPath(g, p) && p[0] == from && p[|p| - 1] == to
  }

  /** a is b, a parent of b, a parent of one of those, and so on. */
  ghost predicate Ancestor(g: Graph, a: Commit, b: Commit) {
    exists p :: Leads(g, p, b, a)
  }

  ghost predicate Acyclic(g: Graph) {
    forall a, b :: Ancestor(g, a, b) && Ancestor(g, b, a) ==> a == b
  }

  ghost function Reachable(g: Graph, from: Commit): set<Commit> {
    set a | a in g && Ancestor(g, a, from)
  }

  /** A common ancestor that is not an ancestor of another one. */
  ghost predicate BestCommonAncestor(g: Graph, x: Commit, a: Commit, b: Commit) {
    && Ancestor(g, x, a) && Ancestor(g, x, b)
    && forall y :: Ancestor(g, y, a) && Ancestor(g, y, b) && Ancestor(g, x, y) ==> y == x
  }

  lemma SelfIsAncestor(g: Graph, a: Commit)
    requires a in g
    ensures Ancestor(g, a, a)
  {
    assert Leads(g, [a], a, a);
  }

  lemma AncestorsAreInGraph(g: Graph, a: Commit, b: Commit)
    requires Ancestor(g, a, b)
    ensures a in g && b in g
  {
    var p :| Leads(g, p, b, a);
    assert p[0] in g && p[|p| - 1] in g;
  }

  lemma JoinPaths(g: Graph, p: seq<Commit>, q: seq<Commit>, a: Commit, b: Commit, c: Commit)
    requires Leads(g, p, a, b) && Leads(g, q, b, c)
    ensures Leads(g, p + q[1..], a, c)
  {
    var r := p + q[1..];
    forall i | 0 <= i < |r| ensures r[i] in g {
      assert i >= |p| ==> r[i] == q[i - |p| + 1];
    }
    forall i | 0 <= i < |r| - 1 ensures r[i + 1] in g[r[i]] {
      if i >= |p| - 1 {
        assert r[i + 1] == q[i - |p| + 2] && r[i] == q[i - |p| + 1];
      }
    }
  }

  lemma AncestorTransitive(g: Graph, a: Commit, b: Commit, c: Commit)
    requires Ancestor(g, a, b) && Ancestor(g, b, c)
    ensures Ancestor(g, a, c)
  {
    var p :| Leads(g, p, c, b);
    var q :| Leads(g, q, b, a);
    JoinPaths(g, p, q, c, b, a);
  }

  // ----------------------------------------------------------------- compare

  datatype CompareResult = CompareResult(aheadBy: nat, behindBy: nat, mergeBase: Option<Commit>)

  datatype Relation = Ahead(commits: nat) | Behind(commits: nat) | Diverged(ahead: nat, behind: nat)

  /** The service's answer to one ordered compare: the commits reachable from
      `head` and not from `base`, and a merge base it may leave out. */
  ghost predicate Answers(g: Graph, base: Commit, head: Commit, r: CompareResult) {
    && r.aheadBy == |Reachable(g, head) - Reachable(g, base)| && r.behindBy == 0
    && (r.mergeBase.Some? ==> BestCommonAncestor(g, r.mergeBase.value, base, head))
  }

  function RelationFromOrderedCompares(
      main: Commit, current: Commit, first: CompareResult, reverse: CompareResult): Relation
  {
    if first.mergeBase == Some(main) then Ahead(first.aheadBy)
    else if first.mergeBase == Some(current) then Behind(reverse.aheadBy)
    else Diverged(first.aheadBy, reverse.aheadBy)
  }

  /** A best common ancestor is one of the two commits exactly when that one is
      an ancestor of the other. */
  lemma BaseIsEndIff(g: Graph, x: Commit, a: Commit, b: Commit)
    requires BestCommonAncestor(g, x, a, b)
    ensures x == a <==> Ancestor(g, a, b)
    ensures x == b <==> Ancestor(g, b, a)
  {
    AncestorsAreInGraph(g, x, a);
    AncestorsAreInGraph(g, x, b);
    SelfIsAncestor(g, a);
    SelfIsAncestor(g, b);
  }

  /** What an ancestor reaches its descendant reaches too, and only the
      descendant reaches itself. */
  lemma DescendantReachesMore(g: Graph, a: Commit, b: Commit)
    requires Acyclic(g) && Ancestor(g, a, b) && a != b
    ensures Reachable(g, a) - Reachable(g, b) == {}
    ensures |Reachable(g, b) - Reachable(g, a)| > 0
  {
    forall x | x in Reachable(g, a) ensures x in Reachable(g, b) {
      AncestorTransitive(g, x, a, b);
    }
    AncestorsAreInGraph(g, a, b);
    SelfIsAncestor(g, b);
    assert b in Reachable(g, b) - Reachable(g, a);
  }

  lemma UnrelatedReachThemselves(g: Graph, a: Commit, b: Commit)
    requires a in g && !Ancestor(g, a, b)
    ensures |Reachable(g, a) - Reachable(g, b)| > 0
  {
    SelfIsAncestor(g, a);
    assert a in Reachable(g, a) - Reachable(g, b);
  }

  /** On any commit graph and for two different revisions: the relation is
      `Ahead` exactly when main is an ancestor of the build, `Behind` exactly in
      the reverse case, `Diverged` otherwise; its counts are the sizes of the
      two differences, none of them zero, and a difference that is not reported
      is empty. */
  lemma RelationIsReachability(g: Graph, main: Commit, current: Commit, first: CompareResult, reverse: CompareResult)
    requires Acyclic(g) && main != current
    requires Answers(g, main, current, first) && Answers(g, current, main, reverse)
    requires first.mergeBase.Some?
    ensures var r := RelationFromOrderedCompares(main, current, first, reverse);
      var ours, theirs := Reachable(g, current) - Reachable(g, main), Reachable(g, main) - Reachable(g, current);
      && (r.Ahead? <==> Ancestor(g, main, current))
      && (r.Behind? <==> Ancestor(g, current, main))
      && (r.Ahead? ==> r.commits == |ours| > 0 && theirs == {})
      && (r.Behind? ==> r.commits == |theirs| > 0 && ours == {})
      && (r.Diverged? ==> r.ahead == |ours| > 0 && r.behind == |theirs| > 0)
  {
    var x := first.mergeBase.value;
    BaseIsEndIff(g, x, main, current);
    AncestorsAreInGraph(g, x, main);
    AncestorsAreInGraph(g, x, current);
    if Ancestor(g, main, current) {
      DescendantReachesMore(g, main, current);
    } else if Ancestor(g, current, main) {
      DescendantReachesMore(g, current, main);
    } else {
      UnrelatedReachThemselves(g, main, current);
      UnrelatedReachThemselves(g, current, main);
    }
  }

  /** For equal revisions the answer is "ahead by nothing": the caller has to
      rule that case out first. */
  lemma EqualRevisionsAreAheadByNone(g: Graph, main: Commit, first: CompareResult, reverse: CompareResult)
    requires Acyclic(g) && Answers(g, main, main, first) && first.mergeBase.Some?
    ensures RelationFromOrderedCompares(main, main, first, reverse) == Ahead(0)
  {
    BaseIsEndIff(g, first.mergeBase.value, main, main);
    AncestorsAreInGraph(g, first.mergeBase.value, main);
    SelfIsAncestor(g, main);
    assert Reachable(g, main) - Reachable(g, main) == {};
  }

  /** Without a merge base the answer is `Diverged`, which is wrong exactly when
      one revision is an ancestor of the other: then one count is zero. */
  lemma MissingMergeBase(g: Graph, main: Commit, current: Commit, first: CompareResult, reverse: CompareResult)
    requires Acyclic(g) && main != current && main in g && current in g
    requires Answers(g, main, current, first) && Answers(g, current, main, reverse)
    requires first.mergeBase.None?
    ensures var r := RelationFromOrderedCompares(main, current, first, reverse);
      && r == Diverged(first.aheadBy, reverse.aheadBy)
      && (r.ahead == 0 <==> Ancestor(g, current, main))
      && (r.behind == 0 <==> Ancestor(g, main, current))
  {
    if Ancestor(g, main, current) {
      DescendantReachesMore(g, main, current);
    } else {
      UnrelatedReachThemselves(g, main, current);
    }
    if Ancestor(g, current, main) {
      DescendantReachesMore(g, current, main);
    } else {
      UnrelatedReachThemselves(g, current, main);
    }
  }
}
