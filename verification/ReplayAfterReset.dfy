/**
 What a replay finds after a reset: the calls before the reset node get their entries back, from the reset
 node on every entry is a new one, on the new branch.
 */
module ReplayAfterReset {
  import BranchLookup
  import opened DurableLog
  import opened RequestEffects
  import opened DurableReplay
  import opened ReplayPasses
  import opened Options

  // ---------------------------------------------------------------- the reset

  function TreeOf(g: Log): BranchLookup.Tree { BranchLookup.Tree(g.latestBranch, g.points) }

  /** A reset at `node` of `branch`, with the children to replay where the caller names them. */
  function Reset(g: Log, node: int, branch: int, forced: Option<set<Id>>): Log {
    var t := BranchLookup.HandleBranch(TreeOf(g), node, branch);
    g.(latestBranch := t.latest, points := t.points,
       forced := if forced.Some? then g.forced[t.latest := forced.value] else g.forced - {t.latest})
  }

  /** Entries are on branches that exist. */
  ghost predicate Branched(g: Log) {
    Valid(g) && BranchLookup.ValidTree(TreeOf(g)) && forall s | s in g.entries :: s.branch <= g.latestBranch
  }

  /** `h` shows what `g` showed below `n`, and its newest branch from there on. */
  ghost predicate ShowsReset(g: Log, h: Log, n: int)
    requires Valid(g) && Valid(h)
  {
    && (forall m | 0 <= m < n :: At(h, m) == At(g, m))
    && (forall m | 0 <= m && n <= m :: At(h, m) == Slot(m, g.latestBranch + 1))
  }

  /** The overlay gives the node to the branch it is read from, and every branch on its walk has started by then. */
  ghost predicate CleanReset(g: Log, n: int)
    requires Valid(g) && 0 <= n
  {
    && BranchLookup.Overlay(n, g.latestBranch, g.points) == At(g, n).branch
    && BranchLookup.AllStarted(n, At(g, n).branch, g.points)
  }

  /**
   A reset at a node of the branch that owns it keeps what is shown below and clears the rest exactly
   when it is clean.
   */
  lemma ResetShows(g: Log, n: int, forced: Option<set<Id>>)
    requires Branched(g) && 0 <= n
    ensures var h := Reset(g, n, At(g, n).branch, forced);
      Branched(h) && (ShowsReset(g, h, n) <==> CleanReset(g, n))
  {
    var branch := At(g, n).branch;
    var h := Reset(g, n, branch, forced);
    BranchLookup.OwnerForkExactly(TreeOf(g), n);
    assert TreeOf(h) == BranchLookup.HandleBranch(TreeOf(g), n, branch);
    if BranchLookup.KeepsAndClears(TreeOf(g), n, branch) {
      assert ShowsReset(g, h, n);
    }
    if ShowsReset(g, h, n) {
      forall m | 0 <= m
        ensures BranchLookup.Lookup(m, h.latestBranch, h.points)
             == if m >= n then h.latestBranch else BranchLookup.Lookup(m, g.latestBranch, g.points)
      {
        assert At(h, m) == if m >= n then Slot(m, g.latestBranch + 1) else At(g, m);
      }
      assert BranchLookup.KeepsAndClears(TreeOf(g), n, branch);
    }
  }

  lemma {:induction false} OverlayHasStarted(points: BranchLookup.BranchPoints, b: int, n: int)
    requires BranchLookup.Rooted(points) && 0 <= n && 0 < b
    ensures var o := BranchLookup.Overlay(n, b, points); BranchLookup.First(o, points) <= n && 0 < o <= b
    decreases b
  {
    if b in points && n < points[b].firstNode {
      OverlayHasStarted(points, points[b].parent, n);
    }
  }

  /** While branches are forked at nodes their parents can own, every reset is clean and keeps it so. */
  lemma OrderedIsClean(g: Log, n: int, forced: Option<set<Id>>)
    requires Branched(g) && BranchLookup.Ordered(g.points) && 0 <= n
    ensures CleanReset(g, n) && BranchLookup.Ordered(Reset(g, n, At(g, n).branch, forced).points)
  {
    BranchLookup.OrderedAgrees(g.latestBranch, g.points);
    OverlayHasStarted(g.points, g.latestBranch, n);
    BranchLookup.ForkOfOrdered(TreeOf(g), n, At(g, n).branch);
  }

  // ---------------------------------------------------------------- calls before the reset node

  /** `h` is `g` after a reset at `n` and no more than marks. */
  ghost predicate IsReset(g: Log, h: Log, n: int) {
    && Branched(g) && Valid(h)
    && h.spawned == g.spawned && h.entries.Keys == g.entries.Keys
    && (forall s | s in g.entries :: SameUpToMarks(g.entries[s], h.entries[s]))
    && ShowsReset(g, h, n)
  }

  ghost predicate ShownBelow(g: Log, c: Id, n: int)
    requires Valid(g)
  {
    exists s :: ChildAt(g.entries, s, c) && s == At(g, s.node) && s.node < n
  }

  lemma SameChildren(g: Log, h: Log, n: int, s: Slot, c: Id)
    requires IsReset(g, h, n)
    ensures s in h.entries <==> s in g.entries
    ensures ChildAt(h.entries, s, c) <==> ChildAt(g.entries, s, c)
  {
    assert s in h.entries.Keys <==> s in g.entries.Keys;
  }

  lemma ShownAfterReset(g: Log, h: Log, n: int, c: Id)
    requires IsReset(g, h, n)
    ensures Live(h, c) <==> ShownBelow(g, c, n)
  {
    if s :| ChildAt(g.entries, s, c) && s == At(g, s.node) && s.node < n {
      SameChildren(g, h, n, s, c);
      assert s == At(h, s.node);
    }
    if s :| ChildAt(h.entries, s, c) && s == At(h, s.node) {
      SameChildren(g, h, n, s, c);
      assert s.node < n;
    }
  }

  /** Which children a reset leaves to be reused: those shown below it, and the orphans whose results are kept. */
  ghost predicate KeptBy(g: Log, h: Log, t: Trigger, n: int)
    requires Valid(g)
  {
    && t.key.Some? && t.key.value in g.spawned
    && var c := g.spawned[t.key.value];
       ShownBelow(g, c, n) || (t.replayOrphans && KeepsOrphan(h, c, t.parentReExecuted))
  }

  lemma ReusedAfterReset(g: Log, h: Log, n: int, t: Trigger)
    requires IsReset(g, h, n)
    ensures Reuses(h, t) <==> KeptBy(g, h, t, n)
  {
    if t.key.Some? && t.key.value in g.spawned {
      ShownAfterReset(g, h, n, g.spawned[t.key.value]);
    }
  }

  /** The trigger's child is reused before and after, or its own slot lies below the reset node and it is not. */
  ghost predicate SurvivesOne(g: Log, h: Log, t: Trigger, s: Slot, n: int)
    requires Valid(g)
  {
    if Reuses(g, t) then KeptBy(g, h, t, n) else !KeptBy(g, h, t, n) && s.node < n
  }

  ghost predicate Survives(g: Log, h: Log, r: Request, slots: seq<Slot>, n: int)
    requires Valid(g)
  {
    if r.Run? then
      |slots| == |r.triggers| && forall k | 0 <= k < |slots| :: SurvivesOne(g, h, r.triggers[k], slots[k], n)
    else forall k | 0 <= k < |slots| :: slots[k].node < n
  }

  lemma NewestAfterReset(g: Log, h: Log, n: int, s: Slot, c: Id)
    requires IsReset(g, h, n)
    ensures IsNewest(h.entries, s, c) <==> IsNewest(g.entries, s, c)
  {
    forall x ensures ChildAt(h.entries, x, c) <==> ChildAt(g.entries, x, c) {
      SameChildren(g, h, n, x, c);
    }
  }

  /** A trigger that is found before and after the reset is reused both times or neither time. */
  lemma SameReuse(g: Log, h: Log, n: int, t: Trigger, node: nat, node': nat, s: Slot)
    requires IsReset(g, h, n) && Gets(g, t, node, s) && Gets(h, t, node', s)
    ensures Reuses(h, t) <==> Reuses(g, t)
  {
    if t.key.Some? && t.key.value in g.spawned {
      var c := g.spawned[t.key.value];
      SameChildren(g, h, n, s, c);
      if Reuses(g, t) && !Reuses(h, t) {
        ShownMeansReused(h, t, s);
      }
      if Reuses(h, t) && !Reuses(g, t) {
        ShownMeansReused(g, t, s);
      }
    }
  }

  lemma GetsAfterReset(g: Log, h: Log, n: int, t: Trigger, node: nat, s: Slot)
    requires IsReset(g, h, n) && Gets(g, t, node, s) && (Reuses(h, t) <==> Reuses(g, t))
    ensures Gets(h, t, node, s) <==> Reuses(g, t) || s.node < n
  {
    if Reuses(g, t) {
      NewestAfterReset(g, h, n, s, g.spawned[t.key.value]);
    }
    assert s in h.entries.Keys && SameUpToMarks(g.entries[s], h.entries[s]);
    assert At(h, node) == if node < n then At(g, node) else Slot(node, g.latestBranch + 1);
  }

  ghost predicate SameReuses(g: Log, h: Log, ts: seq<Trigger>)
    requires Valid(g) && Valid(h)
  {
    forall k | 0 <= k < |ts| :: Reuses(h, ts[k]) <==> Reuses(g, ts[k])
  }

  lemma {:induction false} SameNodes(g: Log, h: Log, ts: seq<Trigger>, k: nat)
    requires Valid(g) && Valid(h) && SameReuses(g, h, ts) && k <= |ts|
    ensures NodesTaken(h, ts, k) == NodesTaken(g, ts, k)
  {
    if k > 0 {
      SameNodes(g, h, ts, k - 1);
    }
  }

  lemma {:induction false} TriggerAfterReset(g: Log, h: Log, n: int, base: nat, ts: seq<Trigger>, s: Slot, k: nat)
    requires IsReset(g, h, n) && SameReuses(g, h, ts) && k < |ts| && FoundAt(g, base, ts, s, k)
    ensures FoundAt(h, base, ts, s, k) <==> SurvivesOne(g, h, ts[k], s, n)
  {
    SameNodes(g, h, ts, k);
    GetsAfterReset(g, h, n, ts[k], base + NodesTaken(g, ts, k), s);
    ReusedAfterReset(g, h, n, ts[k]);
  }

  lemma {:induction false} OneIsReused(g: Log, h: Log, n: int, base: nat, ts: seq<Trigger>, s: Slot, k: nat)
    requires IsReset(g, h, n) && k < |ts| && FoundAt(g, base, ts, s, k) && FoundAt(h, base, ts, s, k)
    ensures Reuses(h, ts[k]) <==> Reuses(g, ts[k])
  {
    SameReuse(g, h, n, ts[k], base + NodesTaken(g, ts, k), base + NodesTaken(h, ts, k), s);
  }

  lemma {:induction false} FoundIsReused(g: Log, h: Log, n: int, base: nat, ts: seq<Trigger>, slots: seq<Slot>)
    requires IsReset(g, h, n) && FoundAll(g, base, ts, slots) && FoundAll(h, base, ts, slots)
    ensures SameReuses(g, h, ts)
  {
    forall k | 0 <= k < |ts| ensures Reuses(h, ts[k]) <==> Reuses(g, ts[k]) {
      OneIsReused(g, h, n, base, ts, slots[k], k);
    }
  }

  lemma SurvivorIsReused(g: Log, h: Log, n: int, ts: seq<Trigger>, slots: seq<Slot>)
    requires IsReset(g, h, n) && Survives(g, h, Run(ts), slots, n)
    ensures SameReuses(g, h, ts)
  {
    forall k | 0 <= k < |ts| ensures Reuses(h, ts[k]) <==> Reuses(g, ts[k]) {
      assert SurvivesOne(g, h, ts[k], slots[k], n);
      ReusedAfterReset(g, h, n, ts[k]);
    }
  }

  lemma {:induction false} SteadyAfterReset(g: Log, h: Log, n: int, base: nat, ts: seq<Trigger>, slots: seq<Slot>)
    requires IsReset(g, h, n) && FoundAll(g, base, ts, slots) && SameReuses(g, h, ts)
    ensures FoundAll(h, base, ts, slots) <==> Survives(g, h, Run(ts), slots, n)
  {
    forall k | 0 <= k < |ts| ensures FoundAt(h, base, ts, slots[k], k) <==> SurvivesOne(g, h, ts[k], slots[k], n) {
      assert FoundAt(g, base, ts, slots[k], k);
      TriggerAfterReset(g, h, n, base, ts, slots[k], k);
    }
  }

  /** A call that is found is found after the reset exactly when it survives. */
  lemma {:induction false} RunAfterReset(g: Log, h: Log, n: int, base: nat, ts: seq<Trigger>, slots: seq<Slot>)
    requires IsReset(g, h, n) && FoundAll(g, base, ts, slots)
    ensures FoundAll(h, base, ts, slots) <==> Survives(g, h, Run(ts), slots, n)
  {
    if FoundAll(h, base, ts, slots) {
      FoundIsReused(g, h, n, base, ts, slots);
      SteadyAfterReset(g, h, n, base, ts, slots);
    } else if Survives(g, h, Run(ts), slots, n) {
      SurvivorIsReused(g, h, n, ts, slots);
      SteadyAfterReset(g, h, n, base, ts, slots);
    }
  }

  lemma {:induction false} FoundAfterReset(g: Log, h: Log, n: int, base: nat, r: Request, slots: seq<Slot>)
    requires IsReset(g, h, n) && Found(g, base, r, slots)
    ensures Found(h, base, r, slots) <==> Survives(g, h, r, slots, n)
  {
    if r.Run? {
      RunAfterReset(g, h, n, base, r.triggers, slots);
    } else {
      assert slots[0] in h.entries.Keys && slots[0].node == base;
      assert At(h, base) == if base < n then At(g, base) else Slot(base, g.latestBranch + 1);
    }
  }

  // ---------------------------------------------------------------- from the reset node on

  /** The newest branch `b` shows every node from `n` on, and its entries lie at or below the latest node. */
  ghost predicate OnNewBranch(g: Log, n: int, b: int) {
    && Valid(g) && g.latestBranch == b
    && (forall m | 0 <= m && n <= m :: At(g, m) == Slot(m, b))
    && (forall s | s in g.entries && s.branch == b :: s.node <= g.latestNode)
  }

  /** What a request leaves behind, whether it succeeds or not. */
  ghost function Left(g: Log, r: Request): Log
    requires Valid(g)
  {
    match Append(g, r)
    case Done(log, _) => log
    case Failed(log, _) => log
    case Fatal(_) => g
  }

  /** Every entry the request asks for from node `n` on is a new one, on branch `b`. */
  ghost predicate NewFrom(g: Log, r: Request, n: int, b: int) {
    Valid(g) && (Append(g, r).Done? ==>
      forall k | 0 <= k < |Plan(g, r)| && Plan(g, r)[k].Put? && n <= Plan(g, r)[k].slot.node ::
        k < |Append(g, r).results| && Append(g, r).results[k] == Result(Slot(Plan(g, r)[k].slot.node, b), false))
  }

  /** Planned entries lie above the latest node, where the log shows them. */
  lemma PlannedAbove(g: Log, r: Request, k: nat)
    requires Valid(g) && !r.Unsupported? && k < |Plan(g, r)| && Plan(g, r)[k].Put?
    ensures var s := Plan(g, r)[k].slot; g.latestNode < s.node && s == At(g, s.node)
  {
    if r.Run? {
      assert Plan(g, r)[k] == RunOpt(g, r.triggers, k);
    }
  }

  lemma PlannedIsNew(g: Log, r: Request, n: int, b: int, k: nat)
    requires OnNewBranch(g, n, b) && !r.Unsupported? && k < |Plan(g, r)| && Plan(g, r)[k].Put?
    requires n <= Plan(g, r)[k].slot.node
    ensures Plan(g, r)[k].slot.branch == b && Plan(g, r)[k].slot !in g.entries
  {
    PlannedAbove(g, r, k);
  }

  lemma FromNodeIsNew(g: Log, r: Request, n: int, b: int)
    requires OnNewBranch(g, n, b)
    ensures NewFrom(g, r, n, b)
  {
    if Append(g, r).Done? {
      forall k | 0 <= k < |Plan(g, r)| && Plan(g, r)[k].Put? && n <= Plan(g, r)[k].slot.node
        ensures k < |Append(g, r).results|
             && Append(g, r).results[k] == Result(Slot(Plan(g, r)[k].slot.node, b), false)
      {
        PlannedIsNew(g, r, n, b, k);
      }
    }
  }

  /** A new entry lies at or below the latest node of the log it is in. */
  lemma NewIsCovered(g: Log, r: Request, s: Slot)
    requires Valid(g) && Append(g, r).Done? && s in Append(g, r).log.entries && s !in g.entries
    ensures s.node <= Append(g, r).log.latestNode
  {
    var opts := Plan(g, r);
    var k := AfterComesFrom(g.entries, opts, s);
    MaxNodeIsMax(g.latestNode, Append(g, r).results);
    var result := Append(g, r).results[k];
    assert result.slot == s && result in Append(g, r).results;
  }

  lemma LeftIsValid(g: Log, r: Request)
    requires Valid(g) && FreshRequest(g, r)
    ensures Valid(Left(g, r))
    ensures Left(g, r).points == g.points && Left(g, r).latestBranch == g.latestBranch
    ensures g.latestNode <= Left(g, r).latestNode && (!Append(g, r).Done? ==> Left(g, r).entries == g.entries)
  {
    if Append(g, r).Done? {
      SuccessGrows(g, r, Slots(Append(g, r).results));
      MaxNodeIsMax(g.latestNode, Append(g, r).results);
    } else if r.Run? {
      forall a, b | a in Left(g, r).spawned && b in Left(g, r).spawned && a != b
        ensures Left(g, r).spawned[a] != Left(g, r).spawned[b]
      {
        if Append(g, r).Failed? {
          SpawnedDiffer(g, r.triggers, a, b);
        }
      }
    }
  }

  lemma StaysOnNewBranch(g: Log, r: Request, h: Log, n: int, b: int)
    requires OnNewBranch(g, n, b) && FreshRequest(g, r) && Marked(Left(g, r), h)
    ensures OnNewBranch(h, n, b)
  {
    LeftIsValid(g, r);
    MarksGrow(Left(g, r), h);
    forall s | s in h.entries && s.branch == b ensures s.node <= h.latestNode {
      assert s in h.entries.Keys && s in Left(g, r).entries.Keys;
      if s !in g.entries {
        NewIsCovered(g, r, s);
      }
    }
    forall m | 0 <= m && n <= m ensures At(h, m) == Slot(m, b) {
      assert At(g, m) == Slot(m, b);
    }
  }

  ghost predicate AnyStep(g: Log, r: Request, h: Log) {
    Valid(g) && FreshRequest(g, r) && Marked(Left(g, r), h)
  }

  ghost predicate AnyStepAt(logs: seq<Log>, rs: seq<Request>, i: int)
    requires 0 <= i < |rs| && |logs| == |rs| + 1
  {
    AnyStep(logs[i], rs[i], logs[i + 1])
  }

  /** Any calls, from `start` on, whether they succeed or not. */
  ghost predicate Calls(start: Log, logs: seq<Log>, rs: seq<Request>) {
    && |logs| == |rs| + 1
    && Marked(start, logs[0])
    && (forall i | 0 <= i < |rs| :: AnyStepAt(logs, rs, i))
  }

  lemma {:induction false} CallsStayOnBranch(start: Log, logs: seq<Log>, rs: seq<Request>, n: int, b: int, i: nat)
    requires OnNewBranch(start, n, b) && Calls(start, logs, rs) && i <= |rs|
    ensures OnNewBranch(logs[i], n, b)
  {
    if i == 0 {
      MarksStayOnBranch(start, logs[0], n, b);
    } else {
      CallsStayOnBranch(start, logs, rs, n, b, i - 1);
      assert AnyStepAt(logs, rs, i - 1);
      StaysOnNewBranch(logs[i - 1], rs[i - 1], logs[i], n, b);
    }
  }

  lemma MarksStayOnBranch(g: Log, h: Log, n: int, b: int)
    requires OnNewBranch(g, n, b) && Marked(g, h)
    ensures OnNewBranch(h, n, b)
  {
    MarksGrow(g, h);
    forall s | s in h.entries && s.branch == b ensures s.node <= h.latestNode {
      assert s in h.entries.Keys && s in g.entries;
    }
    forall m | 0 <= m && n <= m ensures At(h, m) == Slot(m, b) {
      assert At(g, m) == Slot(m, b);
    }
  }

  // ---------------------------------------------------------------- a pass, a reset, and the calls after it

  function ResetAt(g: Log, n: int, branch: int, forced: Option<set<Id>>): Log { Restart(Reset(g, n, branch, forced)) }

  lemma AtAfterRestart(g: Log, m: int)
    requires Valid(g) && 0 <= m
    ensures Valid(Restart(g)) && At(Restart(g), m) == At(g, m)
  {}

  lemma StartIsReset(g: Log, n: int, forced: Option<set<Id>>)
    requires Branched(g) && 0 <= n && CleanReset(g, n)
    ensures var start := ResetAt(g, n, At(g, n).branch, forced);
      IsReset(g, start, n) && OnNewBranch(start, n, g.latestBranch + 1)
  {
    var h := Reset(g, n, At(g, n).branch, forced);
    ResetShows(g, n, forced);
    forall m | 0 <= m ensures At(Restart(h), m) == At(h, m) {
      AtAfterRestart(h, m);
    }
  }

  lemma MarkedReset(g: Log, start: Log, h: Log, n: int)
    requires IsReset(g, start, n) && OnlyMarks(start, h)
    ensures IsReset(g, h, n)
  {
    MarksGrow(start, h);
    forall s | s in g.entries ensures SameUpToMarks(g.entries[s], h.entries[s]) {
      assert s in start.entries.Keys;
    }
    forall m | 0 <= m ensures At(h, m) == At(start, m) {
      SameAt(start, h, m);
    }
  }

  ghost predicate SurvivesAt(p: Invocation, i: int, h: Log, n: int)
    requires Shaped(p) && 0 <= i < |p.calls|
  {
    Valid(End(p)) && Survives(End(p), h, p.calls[i], p.outs[i], n)
  }

  /** Call `i` of the pass, one that lasted to its end, at a log that differs by the reset and marks only. */
  lemma {:induction false} CallAfterReset(p: Invocation, i: nat, h: Log, n: int, base: nat)
    requires Pass(p) && i < |p.calls| && LastsAt(p, i, End(p)) && IsReset(End(p), h, n)
    requires base == Position(p.outs, i) + 1
    ensures Valid(h) && Known(h, p.calls[i])
    ensures Found(h, base, p.calls[i], p.outs[i]) <==> SurvivesAt(p, i, h, n)
  {
    FoundAtEnd(p, i, End(p), base);
    FoundAfterReset(End(p), h, n, base, p.calls[i], p.outs[i]);
  }

  ghost predicate GetsBack(p: Invocation, again: seq<Log>, rs': seq<Request>, i: int)
    requires Shaped(p) && 0 <= i < |p.calls| && i < |rs'| < |again|
  {
    Finds(again[i], rs'[i], p.outs[i])
  }

  ghost predicate GetBackUpTo(p: Invocation, again: seq<Log>, rs': seq<Request>, m: nat)
    requires Shaped(p) && m <= |p.calls| && m <= |rs'| < |again|
  {
    forall i | 0 <= i < m :: GetsBack(p, again, rs', i)
  }

  ghost predicate SurviveUpTo(p: Invocation, again: seq<Log>, n: int, m: nat)
    requires Shaped(p) && m <= |p.calls| && m < |again|
  {
    forall i | 0 <= i < m :: SurvivesAt(p, i, again[i], n)
  }

  /** Call `i` of the pass is among those a plain replay finds, and is made again. */
  ghost predicate MadeAgainAt(p: Invocation, rs': seq<Request>, i: int)
    requires Shaped(p) && 0 <= i < |p.calls| && i < |rs'|
  {
    SameRequest(p.calls[i], rs'[i]) && LastsAt(p, i, End(p))
  }

  ghost predicate MadeAgain(p: Invocation, rs': seq<Request>, m: nat) {
    Pass(p) && m <= |p.calls| && m <= |rs'| && forall i | 0 <= i < m :: MadeAgainAt(p, rs', i)
  }

  lemma CallIsAnswered(start: Log, logs: seq<Log>, rs: seq<Request>, i: nat, next: nat)
    requires Calls(start, logs, rs) && i < |rs| && next == i + 1
    ensures Answered(logs[i], rs[i], logs[next])
  {
    assert AnyStepAt(logs, rs, i);
  }

  lemma {:induction false} PrefixIsFound(p: Invocation, start: Log, h: Log, rs': seq<Request>, n: int, m: nat, i: nat,
                                         base: nat)
    requires MadeAgain(p, rs', m) && i < m && IsReset(End(p), start, n) && OnlyMarks(start, h)
    requires base == Position(p.outs, i) + 1
    ensures Valid(h) && Known(h, p.calls[i]) && SameRequest(p.calls[i], rs'[i])
    ensures Found(h, base, p.calls[i], p.outs[i]) <==> SurvivesAt(p, i, h, n)
  {
    assert MadeAgainAt(p, rs', i);
    MarkedReset(End(p), start, h, n);
    CallAfterReset(p, i, h, n, base);
  }

  lemma {:induction false} PositionNext(outs: seq<seq<Slot>>, i: nat, next: nat)
    requires next == i + 1 && i < |outs|
    ensures Position(outs, next) == MaxNode(Position(outs, i), Existing(outs[i]))
  {}

  lemma {:induction false} PrefixAnswer(h: Log, h': Log, r: Request, r': Request, slots: seq<Slot>, base: nat,
                                        position: nat)
    requires Valid(h) && Known(h, r) && SameRequest(r, r') && Answered(h, r', h') && base == h.latestNode + 1
    requires position == MaxNode(h.latestNode, Existing(slots))
    ensures Finds(h, r', slots) <==> Found(h, base, r, slots)
    ensures Finds(h, r', slots) ==> OnlyMarks(h, h') && h'.latestNode == position
  {
    FindingKeeps(h, r, r', slots, h', base);
  }

  lemma {:induction false} PrefixCall(p: Invocation, start: Log, again: seq<Log>, rs': seq<Request>, n: int, m: nat,
                                      i: nat, next: nat)
    requires MadeAgain(p, rs', m) && i < m && IsReset(End(p), start, n) && Calls(start, again, rs') && next == i + 1
    requires OnlyMarks(start, again[i]) && again[i].latestNode == Position(p.outs, i)
    ensures GetsBack(p, again, rs', i) <==> SurvivesAt(p, i, again[i], n)
    ensures GetsBack(p, again, rs', i) ==>
      OnlyMarks(start, again[next]) && again[next].latestNode == Position(p.outs, next)
  {
    var base := again[i].latestNode + 1;
    PrefixIsFound(p, start, again[i], rs', n, m, i, base);
    CallIsAnswered(start, again, rs', i, next);
    PositionNext(p.outs, i, next);
    PrefixAnswer(again[i], again[next], p.calls[i], rs'[i], p.outs[i], base, Position(p.outs, next));
    if GetsBack(p, again, rs', i) {
      MarksCompose(start, again[i], again[next]);
    }
  }

  lemma {:induction false} PrefixPosition(p: Invocation, start: Log, again: seq<Log>, rs': seq<Request>, n: int, m: nat,
                                          i: nat)
    requires MadeAgain(p, rs', m) && IsReset(End(p), start, n) && start.latestNode == 0 && Calls(start, again, rs')
    requires i <= m && GetBackUpTo(p, again, rs', i)
    ensures OnlyMarks(start, again[i]) && again[i].latestNode == Position(p.outs, i)
  {
    if i > 0 {
      BackOneMore(p, again, rs', i - 1, i);
      PrefixPosition(p, start, again, rs', n, m, i - 1);
      PrefixCall(p, start, again, rs', n, m, i - 1, i);
    }
  }

  lemma BackOneMore(p: Invocation, again: seq<Log>, rs': seq<Request>, m: nat, next: nat)
    requires Shaped(p) && m < |p.calls| && m < |rs'| < |again| && next == m + 1
    ensures GetBackUpTo(p, again, rs', next) <==> GetBackUpTo(p, again, rs', m) && GetsBack(p, again, rs', m)
  {}

  lemma SurvivesOneMore(p: Invocation, again: seq<Log>, n: int, m: nat, next: nat)
    requires Shaped(p) && m < |p.calls| && next < |again| && next == m + 1
    ensures SurviveUpTo(p, again, n, next) <==> SurviveUpTo(p, again, n, m) && SurvivesAt(p, m, again[m], n)
  {}

  lemma {:induction false} NextGetsBack(p: Invocation, start: Log, again: seq<Log>, rs': seq<Request>, n: int, m: nat,
                                        i: nat)
    requires MadeAgain(p, rs', m) && IsReset(End(p), start, n) && start.latestNode == 0 && Calls(start, again, rs')
    requires i < m && GetBackUpTo(p, again, rs', i)
    ensures GetsBack(p, again, rs', i) <==> SurvivesAt(p, i, again[i], n)
  {
    PrefixPosition(p, start, again, rs', n, m, i);
    PrefixCall(p, start, again, rs', n, m, i, i + 1);
  }

  lemma {:induction false} PrefixExactly(p: Invocation, start: Log, again: seq<Log>, rs': seq<Request>, n: int, m: nat,
                                         i: nat)
    requires MadeAgain(p, rs', m) && IsReset(End(p), start, n) && start.latestNode == 0 && Calls(start, again, rs')
    requires i <= m
    ensures GetBackUpTo(p, again, rs', i) <==> SurviveUpTo(p, again, n, i)
  {
    if i > 0 {
      PrefixExactly(p, start, again, rs', n, m, i - 1);
      BackOneMore(p, again, rs', i - 1, i);
      SurvivesOneMore(p, again, n, i - 1, i);
      if GetBackUpTo(p, again, rs', i - 1) {
        NextGetsBack(p, start, again, rs', n, m, i - 1);
      }
    }
  }

  /**
   An invocation, a clean reset at node `n` and a restart; then the first `m` calls of the invocation are
   made again, followed by any others. The calls made again get their entries back exactly as far as they
   survive the reset, and add none; and every entry any call asks for from node `n` on is a new one, on
   the new branch.
   */
  lemma KeepPrefixReplaceSuffix(p: Invocation, n: int, forced: Option<set<Id>>, again: seq<Log>, rs': seq<Request>,
                                m: nat)
    requires MadeAgain(p, rs', m) && Branched(End(p)) && 0 <= n && CleanReset(End(p), n)
    requires Calls(ResetAt(End(p), n, At(End(p), n).branch, forced), again, rs')
    ensures GetBackUpTo(p, again, rs', m) <==> SurviveUpTo(p, again, n, m)
    ensures GetBackUpTo(p, again, rs', m) ==>
      again[m].entries.Keys == End(p).entries.Keys && again[m].latestNode == Position(p.outs, m)
    ensures forall i | 0 <= i < |rs'| :: NewFrom(again[i], rs'[i], n, End(p).latestBranch + 1)
  {
    var start := ResetAt(End(p), n, At(End(p), n).branch, forced);
    StartIsReset(End(p), n, forced);
    PrefixExactly(p, start, again, rs', n, m, m);
    if GetBackUpTo(p, again, rs', m) {
      PrefixPosition(p, start, again, rs', n, m, m);
    }
    forall i | 0 <= i < |rs'| ensures NewFrom(again[i], rs'[i], n, End(p).latestBranch + 1) {
      CallsStayOnBranch(start, again, rs', n, End(p).latestBranch + 1, i);
      FromNodeIsNew(again[i], rs'[i], n, End(p).latestBranch + 1);
    }
  }
}
