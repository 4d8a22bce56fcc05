/**
 The branches of one durable event log, and the lookup that says which branch owns a node.

 A reset at node `n` of branch `b` creates a new branch: it starts at `n`, and below `n` it shows
 what `b` showed.  The lookup walks from a branch to its root, sorts what it met by first node, and
 searches that.  `Overlay` is the reading a reset is meant to have; this module proves exactly when
 the two agree.
 */
module BranchLookup {

  datatype BranchPoint = BranchPoint(firstNode: int, parent: int)

  /** Branch points keyed by the branch they created; a branch without one is a root. */
  type BranchPoints = map<int, BranchPoint>

  /** A branch and the first node it claims. */
  datatype Span = Span(branch: int, from: int)

  /** Every branch was forked off an older one, at a real node id. */
  ghost predicate Rooted(points: BranchPoints) {
    forall b | b in points :: 0 < points[b].parent < b && 0 <= points[b].firstNode
  }

  /** Where branch `b` starts; a root starts at node 0. */
  function First(b: int, points: BranchPoints): int {
    if b in points then points[b].firstNode else 0
  }

  /** The walk from `b` to its root. */
  ghost function Spans(b: int, points: BranchPoints): (s: seq<Span>)
    requires Rooted(points)
    ensures |s| > 0 && s[0] == Span(b, First(b, points))
    decreases b
  {
    if b !in points then [Span(b, 0)]
    else [Span(b, points[b].firstNode)] + Spans(points[b].parent, points)
  }

  /** The comparator handed to the sort. */
  predicate Before(x: Span, y: Span) {
    if x.from != y.from then x.from < y.from else x.branch < y.branch
  }

  ghost predicate SortedSpans(s: seq<Span>) {
    forall i, j | 0 <= i < j < |s| :: !Before(s[j], s[i])
  }

  /** Copy on write: `b` owns the nodes from its first one on, its parent the rest. */
  ghost function Overlay(node: int, b: int, points: BranchPoints): int
    requires Rooted(points)
    decreases b
  {
    if b !in points || node >= points[b].firstNode then b
    else Overlay(node, points[b].parent, points)
  }

  /** What the walk, sort and search compute: among the spans started by `node`, the last in sort order. */
  ghost function Best(node: int, b: int, points: BranchPoints): Span
    requires Rooted(points) && 0 <= node
    decreases b
  {
    if b !in points then Span(b, 0)
    else
      var here, rest := Span(b, points[b].firstNode), Best(node, points[b].parent, points);
      if here.from <= node && Before(rest, here) then here else rest
  }

  ghost function Lookup(node: int, b: int, points: BranchPoints): int
    requires Rooted(points) && 0 <= node
  {
    Best(node, b, points).branch
  }

  // ---------------------------------------------------------------- the code

  method InsertSpan(s: seq<Span>, x: Span) returns (r: seq<Span>)
    requires SortedSpans(s)
    ensures SortedSpans(r) && multiset(r) == multiset(s) + multiset{x}
  {
    var k := 0;
    while k < |s| && !Before(x, s[k])
      invariant 0 <= k <= |s|
      invariant forall i | 0 <= i < k :: !Before(x, s[i])
    {
      k := k + 1;
    }
    r := s[..k] + [x] + s[k..];
    InsertedSpan(s, x, k);
  }

  lemma InsertedSpan(s: seq<Span>, x: Span, k: nat)
    requires SortedSpans(s) && k <= |s| && (k < |s| ==> Before(x, s[k])) && forall i | 0 <= i < k :: !Before(x, s[i])
    ensures SortedSpans(s[..k] + [x] + s[k..]) && multiset(s[..k] + [x] + s[k..]) == multiset(s) + multiset{x}
  {
    assert multiset(s[..k] + [x] + s[k..]) == multiset(s) + multiset{x} by {
      assert s == s[..k] + s[k..];
    }
    forall i | k <= i < |s| ensures !Before(s[i], x) {
      assert i == k || !Before(s[i], s[k]);
    }
  }

  method SortSpans(s: seq<Span>) returns (r: seq<Span>)
    ensures SortedSpans(r) && multiset(r) == multiset(s)
  {
    r := [];
    for k := 0 to |s|
      invariant SortedSpans(r) && multiset(r) == multiset(s[..k])
    {
      r := InsertSpan(r, s[k]);
      assert s[..k + 1] == s[..k] + [s[k]];
    }
    assert s[..|s|] == s;
  }

  /** Binary search for the first span that starts after `node`. */
  method SearchSpans(s: seq<Span>, node: int) returns (i: int)
    requires SortedSpans(s)
    ensures 0 <= i <= |s|
    ensures forall k | 0 <= k < i :: s[k].from <= node
    ensures forall k | i <= k < |s| :: s[k].from > node
  {
    var hi := |s|;
    i := 0;
    while i < hi
      invariant 0 <= i <= hi <= |s|
      invariant forall k | 0 <= k < i :: s[k].from <= node
      invariant forall k | hi <= k < |s| :: s[k].from > node
    {
      var h := (i + hi) / 2;
      if s[h].from > node { hi := h; } else { i := h + 1; }
    }
  }

  method ResolveBranchForNode(node: int, current: int, points: BranchPoints) returns (r: int)
    requires Rooted(points) && 0 <= node
    ensures r == Lookup(node, current, points)
  {
    var tree: seq<Span> := [];
    var curr := current;
    while curr in points
      invariant tree + Spans(curr, points) == Spans(current, points)
      decreases curr
    {
      var point := points[curr];
      tree := tree + [Span(curr, point.firstNode)];
      curr := point.parent;
    }
    tree := tree + [Span(curr, 0)];
    ghost var walked := tree;
    assert walked == Spans(current, points);

    tree := SortSpans(tree);
    var i := SearchSpans(tree, node);
    SearchFindsBest(node, current, points, walked, tree, i);
    r := tree[i - 1].branch;
  }

  lemma SearchFindsBest(node: int, b: int, points: BranchPoints, walked: seq<Span>, tree: seq<Span>, i: int)
    requires Rooted(points) && 0 <= node
    requires walked == Spans(b, points) && SortedSpans(tree) && multiset(tree) == multiset(walked)
    requires 0 <= i <= |tree|
    requires forall k | 0 <= k < i :: tree[k].from <= node
    requires forall k | i <= k < |tree| :: tree[k].from > node
    ensures 0 < i && tree[i - 1] == Best(node, b, points)
  {
    var best := Best(node, b, points);
    BestIsGreatest(node, b, points);
    assert best in multiset(walked);
    assert best in tree;
    var k :| 0 <= k < |tree| && tree[k] == best;
    assert tree[i - 1] in multiset(tree);
    assert tree[i - 1] in walked;
    assert k == i - 1 || !Before(tree[i - 1], tree[k]);
  }

  // ---------------------------------------------------------------- what the search finds

  lemma {:induction false} BestIsGreatest(node: int, b: int, points: BranchPoints)
    requires Rooted(points) && 0 <= node
    ensures Best(node, b, points) in Spans(b, points)
    ensures Best(node, b, points).from <= node
    ensures forall s | s in Spans(b, points) && s.from <= node ::
              s == Best(node, b, points) || Before(s, Best(node, b, points))
    decreases b
  {
    if b in points {
      BestIsGreatest(node, points[b].parent, points);
    }
  }

  /** Branch ids strictly fall along the walk. */
  lemma {:induction false} SpansFall(b: int, points: BranchPoints)
    requires Rooted(points)
    ensures forall i, j | 0 <= i < j < |Spans(b, points)| ::
              Spans(b, points)[i].branch > Spans(b, points)[j].branch
    decreases b
  {
    if b in points {
      SpansFall(points[b].parent, points);
    }
  }

  lemma {:induction false} SpansStart(b: int, points: BranchPoints)
    requires Rooted(points)
    ensures forall s | s in Spans(b, points) :: 0 <= s.from
    decreases b
  {
    if b in points {
      SpansStart(points[b].parent, points);
    }
  }

  /** The overlay picks the first span of the walk that has started by `node`. */
  lemma {:induction false} OverlayIsFirst(node: int, b: int, points: BranchPoints) returns (m: nat)
    requires Rooted(points) && 0 <= node
    ensures m < |Spans(b, points)|
    ensures Spans(b, points)[m].branch == Overlay(node, b, points)
    ensures Spans(b, points)[m].from <= node
    ensures forall i | 0 <= i < m :: Spans(b, points)[i].from > node
    decreases b
  {
    if b !in points || node >= points[b].firstNode {
      m := 0;
    } else {
      var k := OverlayIsFirst(node, points[b].parent, points);
      m := k + 1;
    }
  }

  // ---------------------------------------------------------------- when the lookup is the overlay

  ghost predicate Agrees(b: int, points: BranchPoints)
    requires Rooted(points)
  {
    forall node | 0 <= node :: Lookup(node, b, points) == Overlay(node, b, points)
  }

  /** Span `j` starts after a younger span `i` does, and no younger span starts at the same node. */
  ghost predicate Resurfaces(s: seq<Span>, i: int, j: int) {
    && 0 <= i < j < |s|
    && s[i].from < s[j].from
    && forall m | 0 <= m < j :: s[m].from != s[j].from
  }

  /**
   The search reads the tree as copy-on-write for every node exactly when no ancestor's first node
   lies beyond the first node of a younger branch that hides it.
   */
  lemma LookupIsOverlayExactly(b: int, points: BranchPoints)
    requires Rooted(points)
    ensures Agrees(b, points) <==> forall i, j :: !Resurfaces(Spans(b, points), i, j)
  {
    var s := Spans(b, points);
    SpansFall(b, points);
    SpansStart(b, points);
    if forall i, j :: !Resurfaces(s, i, j) {
      forall node | 0 <= node
        ensures Lookup(node, b, points) == Overlay(node, b, points)
      {
        NothingResurfaces(node, b, points);
      }
    }
    if i, j :| Resurfaces(s, i, j) {
      var node := s[j].from;
      assert s[j] in s && 0 <= node;
      BestIsGreatest(node, b, points);
      var best := Best(node, b, points);
      var k :| 0 <= k < |s| && s[k] == best;
      var m := OverlayIsFirst(node, b, points);
      assert m <= i && j <= k;
      assert Lookup(node, b, points) != Overlay(node, b, points);
    }
  }

  lemma NothingResurfaces(node: int, b: int, points: BranchPoints)
    requires Rooted(points) && 0 <= node
    requires forall i, j :: !Resurfaces(Spans(b, points), i, j)
    ensures Lookup(node, b, points) == Overlay(node, b, points)
  {
    var s := Spans(b, points);
    SpansFall(b, points);
    BestIsGreatest(node, b, points);
    var best := Best(node, b, points);
    var m := OverlayIsFirst(node, b, points);
    var k :| 0 <= k < |s| && s[k] == best && m <= k;
    assert s[m] in s;
    assert !Resurfaces(s, m, k);
  }

  // ---------------------------------------------------------------- forks

  /** A log file's branches: ids run from 1 to `latest`. */
  datatype Tree = Tree(latest: int, points: BranchPoints)

  ghost predicate ValidTree(t: Tree) {
    && 0 < t.latest
    && Rooted(t.points)
    && forall b | b in t.points :: b <= t.latest
  }

  const Fresh := Tree(1, map[])

  /** The new branch is numbered after the newest one and hangs off (node, branch). */
  function HandleBranch(t: Tree, node: int, branch: int): Tree {
    Tree(t.latest + 1, t.points[t.latest + 1 := BranchPoint(node, branch)])
  }

  /** A DAG replay forks the newest branch at node 0, so that every step is replanned. */
  function HandleBranchForDAGReplay(t: Tree): Tree {
    HandleBranch(t, 0, t.latest)
  }

  /** No branch starts before its parent does. */
  ghost predicate Ordered(points: BranchPoints) {
    forall b | b in points :: First(points[b].parent, points) <= points[b].firstNode
  }

  lemma {:induction false} OrderedSpans(b: int, points: BranchPoints)
    requires Rooted(points) && Ordered(points)
    ensures forall s | s in Spans(b, points) :: s.from <= First(b, points)
    ensures forall i, j :: !Resurfaces(Spans(b, points), i, j)
    decreases b
  {
    if b in points {
      var p := points[b].parent;
      OrderedSpans(p, points);
      var s, rest := Spans(b, points), Spans(p, points);
      forall i, j ensures !Resurfaces(s, i, j) {
        if Resurfaces(s, i, j) {
          assert s[j] == rest[j - 1] && rest[j - 1] in rest;
          if i > 0 {
            assert forall m | 0 <= m < j - 1 :: rest[m] == s[m + 1];
            assert Resurfaces(rest, i - 1, j - 1);
          }
        }
      }
    }
  }

  lemma OrderedAgrees(b: int, points: BranchPoints)
    requires Rooted(points) && Ordered(points)
    ensures Agrees(b, points)
  {
    OrderedSpans(b, points);
    LookupIsOverlayExactly(b, points);
  }

  /** A fork is invisible to every branch that was there before it. */
  lemma {:induction false} ForkKeepsOlder(t: Tree, node: int, branch: int, b: int)
    requires ValidTree(t) && 0 <= node && 0 < branch <= t.latest && b <= t.latest
    ensures ValidTree(HandleBranch(t, node, branch))
    ensures Spans(b, HandleBranch(t, node, branch).points) == Spans(b, t.points)
    ensures forall n | 0 <= n :: Best(n, b, HandleBranch(t, node, branch).points) == Best(n, b, t.points)
    ensures forall n | 0 <= n :: Overlay(n, b, HandleBranch(t, node, branch).points) == Overlay(n, b, t.points)
    decreases b
  {
    if b in t.points {
      ForkKeepsOlder(t, node, branch, t.points[b].parent);
    }
  }

  /** From the new branch: nodes from `node` on are its own, the rest are what `branch` showed. */
  ghost predicate ForkIsSeen(t: Tree, node: int, branch: int)
    requires ValidTree(t) && ValidTree(HandleBranch(t, node, branch))
  {
    var t' := HandleBranch(t, node, branch);
    forall n | 0 <= n ::
      Lookup(n, t'.latest, t'.points) == if n >= node then t'.latest else Lookup(n, branch, t.points)
  }

  /** Every branch on the walk from `b` has started by `node`. */
  ghost predicate AllStarted(node: int, b: int, points: BranchPoints)
    requires Rooted(points)
  {
    forall s | s in Spans(b, points) :: s.from <= node
  }

  /** What the lookup answers from a new branch: itself or what its parent answers. */
  lemma ForkLookup(t: Tree, node: int, branch: int, n: int)
    requires ValidTree(t) && 0 <= node && 0 < branch <= t.latest && 0 <= n
    ensures ValidTree(HandleBranch(t, node, branch))
    ensures var t' := HandleBranch(t, node, branch);
            var here, rest := Span(t'.latest, node), Best(n, branch, t.points);
            Best(n, t'.latest, t'.points) == if node <= n && Before(rest, here) then here else rest
  {
    ForkKeepsOlder(t, node, branch, branch);
  }

  /** A walk meets only branches up to the one it starts from. */
  lemma OnWalk(b: int, points: BranchPoints, s: Span)
    requires Rooted(points) && s in Spans(b, points)
    ensures s.branch <= b
  {
    SpansFall(b, points);
  }

  /** A reset that starts before a branch it hides does not own the node that branch starts at. */
  lemma HiddenStillOwns(t: Tree, node: int, branch: int, s: Span)
    requires ValidTree(t) && 0 <= node && 0 < branch <= t.latest
    requires s in Spans(branch, t.points) && node < s.from
    ensures ValidTree(HandleBranch(t, node, branch))
    ensures Lookup(s.from, t.latest + 1, HandleBranch(t, node, branch).points) <= branch
  {
    var best := Best(s.from, branch, t.points);
    BestIsGreatest(s.from, branch, t.points);
    ForkLookup(t, node, branch, s.from);
    OnWalk(branch, t.points, best);
  }

  /**
   A reset at (node, branch) keeps the prefix and replaces the suffix exactly when every branch on the
   walk from `branch` starts no later than `node`.
   */
  lemma ForkExactly(t: Tree, node: int, branch: int)
    requires ValidTree(t) && 0 <= node && 0 < branch <= t.latest
    ensures ValidTree(HandleBranch(t, node, branch))
    ensures ForkIsSeen(t, node, branch) <==> AllStarted(node, branch, t.points)
  {
    var t' := HandleBranch(t, node, branch);
    ForkKeepsOlder(t, node, branch, branch);
    if AllStarted(node, branch, t.points) {
      forall n | 0 <= n
        ensures Lookup(n, t'.latest, t'.points) == if n >= node then t'.latest else Lookup(n, branch, t.points)
      {
        ForkLookup(t, node, branch, n);
        BestIsGreatest(n, branch, t.points);
        OnWalk(branch, t.points, Best(n, branch, t.points));
      }
    } else {
      var s :| s in Spans(branch, t.points) && node < s.from;
      HiddenStillOwns(t, node, branch, s);
      assert Lookup(s.from, t'.latest, t'.points) != t'.latest;
    }
  }

  /** In an ordered tree that is: `node` is not below the first node of `branch`; and then the tree stays ordered. */
  lemma ForkOfOrdered(t: Tree, node: int, branch: int)
    requires ValidTree(t) && Ordered(t.points) && 0 <= node && 0 < branch <= t.latest
    ensures AllStarted(node, branch, t.points) <==> First(branch, t.points) <= node
    ensures ValidTree(HandleBranch(t, node, branch))
    ensures Ordered(HandleBranch(t, node, branch).points) <==> First(branch, t.points) <= node
  {
    var t' := HandleBranch(t, node, branch);
    OrderedSpans(branch, t.points);
    assert Spans(branch, t.points)[0] in Spans(branch, t.points);
    assert forall b | b in t.points :: t'.points[b] == t.points[b];
    assert t.latest + 1 in t'.points && t'.points[t.latest + 1].parent == branch;
    assert First(branch, t'.points) == First(branch, t.points);
  }

  // ---------------------------------------------------------------- a reset of what the newest branch shows

  /** After a reset at (node, branch): what the newest branch showed below `node`, and new from there on. */
  ghost predicate KeepsAndClears(t: Tree, node: int, branch: int)
    requires ValidTree(t) && ValidTree(HandleBranch(t, node, branch))
  {
    var t' := HandleBranch(t, node, branch);
    forall n | 0 <= n ::
      Lookup(n, t'.latest, t'.points) == if n >= node then t'.latest else Lookup(n, t.latest, t.points)
  }

  /** Below `n` nothing changes on the walk down to the branch that the overlay gives `n`. */
  lemma {:induction false} BestBelow(b: int, points: BranchPoints, n: int, m: int)
    requires Rooted(points) && 0 <= m < n
    ensures Best(m, b, points) == Best(m, Overlay(n, b, points), points)
    decreases b
  {
    if b in points && n < points[b].firstNode {
      BestBelow(points[b].parent, points, n, m);
    }
  }

  /** A younger branch that starts before the owner of `n` owns its own first node, and the owner's walk misses it. */
  lemma YoungerIsMissed(b: int, points: BranchPoints, n: int) returns (m: int)
    requires Rooted(points) && 0 <= n && Lookup(n, b, points) != Overlay(n, b, points)
    ensures 0 <= m < n && Lookup(m, b, points) != Lookup(m, Lookup(n, b, points), points)
  {
    var s, o := Spans(b, points), Best(n, b, points);
    SpansFall(b, points);
    SpansStart(b, points);
    BestIsGreatest(n, b, points);
    var v := OverlayIsFirst(n, b, points);
    var i :| 0 <= i < |s| && s[i] == o;
    assert s[v] in s && v <= i;
    m := s[v].from;
    BestIsGreatest(m, b, points);
    BestIsGreatest(m, o.branch, points);
    OnWalk(o.branch, points, Best(m, o.branch, points));
  }

  /**
   A reset at a node of the branch that owns it keeps what was shown below and clears the rest exactly
   when the overlay gives the node to the same branch, and every branch on its walk has started by then.
   */
  lemma OwnerForkExactly(t: Tree, node: int)
    requires ValidTree(t) && 0 <= node
    ensures var o := Lookup(node, t.latest, t.points);
      && 0 < o <= t.latest && ValidTree(HandleBranch(t, node, o))
      && (KeepsAndClears(t, node, o) <==> Overlay(node, t.latest, t.points) == o && AllStarted(node, o, t.points))
  {
    var o := Lookup(node, t.latest, t.points);
    BestIsGreatest(node, t.latest, t.points);
    OnWalk(t.latest, t.points, Best(node, t.latest, t.points));
    WalkIsPositive(t.latest, t.points, Best(node, t.latest, t.points));
    ForkExactly(t, node, o);
    if Overlay(node, t.latest, t.points) == o {
      forall m | 0 <= m < node ensures Lookup(m, o, t.points) == Lookup(m, t.latest, t.points) {
        BestBelow(t.latest, t.points, node, m);
      }
    } else {
      var m := YoungerIsMissed(t.latest, t.points, node);
      ForkLookup(t, node, o, m);
      assert !KeepsAndClears(t, node, o);
    }
    if KeepsAndClears(t, node, o) {
      assert ForkIsSeen(t, node, o);
    }
  }

  lemma {:induction false} WalkIsPositive(b: int, points: BranchPoints, s: Span)
    requires Rooted(points) && 0 < b && s in Spans(b, points)
    ensures 0 < s.branch
    decreases b
  {
    if b in points && s != Spans(b, points)[0] {
      WalkIsPositive(points[b].parent, points, s);
    }
  }

  // ---------------------------------------------------------------- DAG replays

  ghost predicate OwnsEveryNode(b: int, points: BranchPoints)
    requires Rooted(points)
  {
    forall n | 0 <= n :: Lookup(n, b, points) == b
  }

  /** A DAG replay takes over every node exactly when every branch on the newest one's walk starts at node 0. */
  lemma DAGReplayTakesOverExactly(t: Tree)
    requires ValidTree(t)
    ensures ValidTree(HandleBranchForDAGReplay(t))
    ensures OwnsEveryNode(t.latest + 1, HandleBranchForDAGReplay(t).points) <==> AllStarted(0, t.latest, t.points)
  {
    ForkExactly(t, 0, t.latest);
    var t' := HandleBranchForDAGReplay(t);
    assert OwnsEveryNode(t'.latest, t'.points) <==> ForkIsSeen(t, 0, t.latest);
  }

  /** A reset at node 5 followed by a DAG replay: node 5 is still read from the reset's branch. */
  lemma DAGReplayAfterReset()
    ensures ValidTree(HandleBranchForDAGReplay(HandleBranch(Fresh, 5, 1)))
    ensures Lookup(5, 3, HandleBranchForDAGReplay(HandleBranch(Fresh, 5, 1)).points) == 2
    ensures Overlay(5, 3, HandleBranchForDAGReplay(HandleBranch(Fresh, 5, 1)).points) == 3
  {
    var points := HandleBranchForDAGReplay(HandleBranch(Fresh, 5, 1)).points;
    assert points == map[2 := BranchPoint(5, 1), 3 := BranchPoint(0, 2)];
    assert Best(5, 1, points) == Span(1, 0);
    assert Best(5, 2, points) == Span(2, 5);
  }

  /** A second DAG replay does not help: the newest branch starts at node 0, and node 5 is still not its own. */
  lemma SecondDAGReplayAfterReset()
    ensures var t := HandleBranchForDAGReplay(HandleBranch(Fresh, 5, 1));
      && ValidTree(t) && First(t.latest, t.points) == 0
      && ValidTree(HandleBranchForDAGReplay(t))
      && Lookup(5, 4, HandleBranchForDAGReplay(t).points) == 2
  {
    var t := HandleBranchForDAGReplay(HandleBranch(Fresh, 5, 1));
    DAGReplayAfterReset();
    ForkLookup(t, 0, 3, 5);
    assert Best(5, 1, t.points) == Span(1, 0);
    assert Best(5, 2, t.points) == Span(2, 5);
    assert Best(5, 3, t.points) == Span(2, 5);
  }

  datatype Fork = Fork(node: int, branch: int)

  ghost function ForkAll(forks: seq<Fork>): Tree {
    if forks == [] then Fresh
    else
      var t, f := ForkAll(forks[..|forks| - 1]), forks[|forks| - 1];
      HandleBranch(t, f.node, f.branch)
  }

  /** Each reset names a branch that exists and a node that branch can own. */
  ghost predicate EachOnItsBranch(forks: seq<Fork>) {
    forall k | 0 <= k < |forks| ::
      && 0 < forks[k].branch <= ForkAll(forks[..k]).latest
      && 0 <= First(forks[k].branch, ForkAll(forks[..k]).points) <= forks[k].node
  }

  /** After any such history of resets, the lookup from any branch is the copy-on-write reading. */
  lemma {:induction false} EveryHistoryAgrees(forks: seq<Fork>)
    requires EachOnItsBranch(forks)
    ensures ValidTree(ForkAll(forks)) && Ordered(ForkAll(forks).points)
    ensures forall b :: Agrees(b, ForkAll(forks).points)
  {
    if forks != [] {
      var init := forks[..|forks| - 1];
      assert forall k | 0 <= k < |init| :: init[..k] == forks[..k];
      EveryHistoryAgrees(init);
      var f := forks[|forks| - 1];
      ForkOfOrdered(ForkAll(init), f.node, f.branch);
    }
    forall b ensures Agrees(b, ForkAll(forks).points) {
      OrderedAgrees(b, ForkAll(forks).points);
    }
  }
}
