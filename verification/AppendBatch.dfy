/**
 One transaction that appends the requests of many tasks: spawn keys are resolved for all of them at
 once, each request is planned, and one get-or-create serves the lot.
 */
module AppendBatch {
  import BranchLookup
  import opened DurableLog
  import opened RequestEffects
  import opened GetOrCreate
  import opened Options

  datatype File = File(
    latestNode: nat,
    latestBranch: int,
    invocation: int,
    points: BranchLookup.BranchPoints,
    forced: map<int, set<Id>>)

  datatype SpawnKey = SpawnKey(task: Task, key: Key)

  type Spawned = map<SpawnKey, Id>

  datatype Db = Db(files: map<Task, File>, rows: Rows, spawned: Spawned)

  datatype Item = Item(task: Task, invocation: int, request: Request)

  function SpawnedOf(spawned: Spawned, t: Task): map<Key, Id> {
    map x | x in spawned && x.task == t :: x.key := spawned[x]
  }

  lemma SpawnedIs(spawned: Spawned, t: Task, k: Key)
    ensures k in SpawnedOf(spawned, t) <==> SpawnKey(t, k) in spawned
    ensures SpawnKey(t, k) in spawned ==> SpawnedOf(spawned, t)[k] == spawned[SpawnKey(t, k)]
  {
    if SpawnKey(t, k) in spawned {
      assert SpawnKey(t, k).key in SpawnedOf(spawned, t);
    }
  }

  /** One task's log, as its rows in the tables make it up. */
  function LogOf(db: Db, t: Task): Log
    requires t in db.files
  {
    var f := db.files[t];
    Log(f.latestNode, f.latestBranch, f.invocation, f.points, f.forced, EntriesOf(db.rows, t), SpawnedOf(db.spawned, t))
  }

  // ---------------------------------------------------------------- spawn keys

  /** A trigger with the child it resolved to. */
  datatype Resolved = Resolved(child: Id, skip: bool)

  function Triggers(r: Request): seq<Trigger> { if r.Run? then r.triggers else [] }

  lemma {:induction false} MergeSpawned(m: map<Key, Id>, ts: seq<Trigger>)
    ensures SpawnedAfter(m, ts) == SpawnedAfter(map[], ts) + m
  {
    if ts != [] {
      MergeSpawned(m, ts[..|ts| - 1]);
    }
  }

  lemma PutSpawned(spawned: Spawned, t: Task, k: Key, id: Id, u: Task)
    ensures SpawnedOf(spawned[SpawnKey(t, k) := id], u) ==
      if u == t then SpawnedOf(spawned, u)[k := id] else SpawnedOf(spawned, u)
  {
    var after := spawned[SpawnKey(t, k) := id];
    var expected := if u == t then SpawnedOf(spawned, u)[k := id] else SpawnedOf(spawned, u);
    forall x ensures x in SpawnedOf(after, u) <==> x in expected
      ensures x in expected ==> SpawnedOf(after, u)[x] == expected[x]
    {
      SpawnedIs(spawned, u, x);
      SpawnedIs(after, u, x);
    }
  }

  /** Proposes a child for each key of one task that has none proposed yet. */
  method ProposeFor(before: Spawned, t: Task, ts: seq<Trigger>) returns (proposed: Spawned)
    requires SpawnedOf(before, t) == map[]
    ensures SpawnedOf(proposed, t) == SpawnedAfter(map[], ts)
    ensures forall u | u != t :: SpawnedOf(proposed, u) == SpawnedOf(before, u)
  {
    proposed := before;
    for k := 0 to |ts|
      invariant SpawnedOf(proposed, t) == SpawnedAfter(map[], ts[..k])
      invariant forall u | u != t :: SpawnedOf(proposed, u) == SpawnedOf(before, u)
    {
      assert ts[..k + 1][..k] == ts[..k];
      if ts[k].key.Some? {
        var key := ts[k].key.value;
        SpawnedIs(proposed, t, key);
        if SpawnKey(t, key) !in proposed {
          forall u ensures SpawnedOf(proposed[SpawnKey(t, key) := ts[k].candidate], u)
            == if u == t then SpawnedOf(proposed, u)[key := ts[k].candidate] else SpawnedOf(proposed, u) {
            PutSpawned(proposed, t, key, ts[k].candidate, u);
          }
          proposed := proposed[SpawnKey(t, key) := ts[k].candidate];
        }
      }
    }
    assert ts[..|ts|] == ts;
  }

  ghost predicate DistinctItems(items: seq<Item>) {
    forall i, j | 0 <= i < j < |items| :: items[i].task != items[j].task
  }

  ghost predicate Named(items: seq<Item>, t: Task) { exists i | 0 <= i < |items| :: items[i].task == t }

  /** Some of the first `k` items is for the task. */
  ghost predicate NamedBefore(items: seq<Item>, k: nat, t: Task)
    requires k <= |items|
  {
    exists i | 0 <= i < k :: items[i].task == t
  }

  /** The triggers whose keys a batch resolves: those of the tasks that got this far. */
  function Wanted(items: seq<Item>, live: seq<bool>, i: nat): seq<Trigger>
    requires |live| == |items| && i < |items|
  {
    if live[i] then Triggers(items[i].request) else []
  }

  ghost predicate ProposedFor(items: seq<Item>, live: seq<bool>, proposed: Spawned, i: nat)
    requires |live| == |items| && i < |items|
  {
    SpawnedOf(proposed, items[i].task) == SpawnedAfter(map[], Wanted(items, live, i))
  }

  ghost predicate Unproposed(proposed: Spawned, t: Task) { SpawnedOf(proposed, t) == map[] }

  /** The keys of the first `k` items have been proposed, and no others. */
  ghost predicate ProposedUpTo(items: seq<Item>, live: seq<bool>, proposed: Spawned, k: nat)
    requires |live| == |items| && k <= |items|
  {
    && (forall i | 0 <= i < k :: ProposedFor(items, live, proposed, i))
    && (forall t | !NamedBefore(items, k, t) :: Unproposed(proposed, t))
  }

  ghost predicate SameBut(before: Spawned, after: Spawned, t: Task) {
    forall u | u != t :: SpawnedOf(after, u) == SpawnedOf(before, u)
  }

  lemma {:induction false} StaysProposed(items: seq<Item>, live: seq<bool>, before: Spawned, after: Spawned, k: nat,
                                         i: nat)
    requires DistinctItems(items) && |live| == |items| && i < k < |items| && ProposedFor(items, live, before, i)
    requires SameBut(before, after, items[k].task)
    ensures ProposedFor(items, live, after, i)
  {
    assert items[i].task != items[k].task;
  }

  lemma StaysUnproposed(before: Spawned, after: Spawned, t: Task, u: Task)
    requires SameBut(before, after, t) && Unproposed(before, u) && u != t
    ensures Unproposed(after, u)
  {}

  lemma {:induction false} ProposedOneMore(items: seq<Item>, live: seq<bool>, before: Spawned, after: Spawned, k: nat)
    requires DistinctItems(items) && |live| == |items| && k < |items| && ProposedUpTo(items, live, before, k)
    requires ProposedFor(items, live, after, k) && SameBut(before, after, items[k].task)
    ensures ProposedUpTo(items, live, after, k + 1)
  {
    forall i | 0 <= i < k + 1 ensures ProposedFor(items, live, after, i) {
      if i < k {
        StaysProposed(items, live, before, after, k, i);
      }
    }
    forall t | !NamedBefore(items, k + 1, t) ensures Unproposed(after, t) {
      assert !NamedBefore(items, k, t) && t != items[k].task;
      StaysUnproposed(before, after, items[k].task, t);
    }
  }

  lemma AllProposed(items: seq<Item>, live: seq<bool>, proposed: Spawned)
    requires |live| == |items| && ProposedUpTo(items, live, proposed, |items|)
    ensures forall i | 0 <= i < |items| ::
      SpawnedOf(proposed, items[i].task) == SpawnedAfter(map[], Wanted(items, live, i))
    ensures forall t | !Named(items, t) :: SpawnedOf(proposed, t) == map[]
  {
    forall i | 0 <= i < |items|
      ensures SpawnedOf(proposed, items[i].task) == SpawnedAfter(map[], Wanted(items, live, i))
    {
      assert ProposedFor(items, live, proposed, i);
    }
    forall t | !Named(items, t) ensures SpawnedOf(proposed, t) == map[] {
      assert !NamedBefore(items, |items|, t);
      assert Unproposed(proposed, t);
    }
  }

  method ProposeAll(items: seq<Item>, live: seq<bool>) returns (proposed: Spawned)
    requires DistinctItems(items) && |live| == |items|
    ensures forall i | 0 <= i < |items| ::
      SpawnedOf(proposed, items[i].task) == SpawnedAfter(map[], Wanted(items, live, i))
    ensures forall t | !Named(items, t) :: SpawnedOf(proposed, t) == map[]
  {
    proposed := map[];
    for k := 0 to |items|
      invariant ProposedUpTo(items, live, proposed, k)
    {
      ghost var before := proposed;
      assert !NamedBefore(items, k, items[k].task) && Unproposed(proposed, items[k].task);
      proposed := ProposeFor(proposed, items[k].task, Wanted(items, live, k));
      ProposedOneMore(items, live, before, proposed, k);
    }
    AllProposed(items, live, proposed);
  }

  lemma UpsertFor(proposed: Spawned, spawned: Spawned, t: Task)
    ensures SpawnedOf(proposed + spawned, t) == SpawnedOf(proposed, t) + SpawnedOf(spawned, t)
  {
    var l, r := SpawnedOf(proposed + spawned, t), SpawnedOf(proposed, t) + SpawnedOf(spawned, t);
    forall x ensures x in l <==> x in r
      ensures x in l ==> l[x] == r[x]
    {
      SpawnedIs(proposed, t, x);
      SpawnedIs(spawned, t, x);
      SpawnedIs(proposed + spawned, t, x);
    }
  }

  /** Spawn keys of the whole batch: keys that exist keep their child, the rest get the proposed one. */
  method ResolveKeys(spawned: Spawned, items: seq<Item>, live: seq<bool>) returns (proposed: Spawned, after: Spawned)
    requires DistinctItems(items) && |live| == |items|
    ensures forall i | 0 <= i < |items| ::
      SpawnedOf(proposed, items[i].task) == SpawnedAfter(map[], Wanted(items, live, i))
    ensures forall i | 0 <= i < |items| ::
      SpawnedOf(after, items[i].task) == SpawnedAfter(SpawnedOf(spawned, items[i].task), Wanted(items, live, i))
    ensures forall t | !Named(items, t) :: SpawnedOf(after, t) == SpawnedOf(spawned, t)
  {
    proposed := ProposeAll(items, live);
    after := proposed + spawned;
    forall i | 0 <= i < |items|
      ensures SpawnedOf(after, items[i].task) == SpawnedAfter(SpawnedOf(spawned, items[i].task), Wanted(items, live, i))
    {
      UpsertFor(proposed, spawned, items[i].task);
      MergeSpawned(SpawnedOf(spawned, items[i].task), Wanted(items, live, i));
    }
    forall t | !Named(items, t) ensures SpawnedOf(after, t) == SpawnedOf(spawned, t) {
      UpsertFor(proposed, spawned, t);
    }
  }

  /** What the resolution makes of trigger `k` of a log's request. */
  function ResolvedAt(spawned: map<Key, Id>, ts: seq<Trigger>, k: nat): Resolved
    requires k < |ts|
  {
    var t, before := ts[k], SpawnedAfter(spawned, ts[..k]);
    if t.key.None? then Resolved(t.candidate, false)
    else if t.key.value in before then Resolved(before[t.key.value], true)
    else Resolved(t.candidate, false)
  }

  function ResolvedAll(spawned: map<Key, Id>, ts: seq<Trigger>): seq<Resolved> {
    seq(|ts|, k requires 0 <= k < |ts| => ResolvedAt(spawned, ts, k))
  }

  lemma {:induction false} KeyStaysResolved(spawned: map<Key, Id>, ts: seq<Trigger>, k: nat, key: Key)
    requires k <= |ts| && key in SpawnedAfter(spawned, ts[..k])
    ensures key in SpawnedAfter(spawned, ts) && SpawnedAfter(spawned, ts)[key] == SpawnedAfter(spawned, ts[..k])[key]
    decreases |ts|
  {
    if k < |ts| {
      var init := ts[..|ts| - 1];
      assert init[..k] == ts[..k];
      KeyStaysResolved(spawned, init, k, key);
    } else {
      assert ts[..k] == ts;
    }
  }

  lemma ResolvedKey(spawned: map<Key, Id>, ts: seq<Trigger>, k: nat)
    requires k < |ts| && ts[k].key.Some?
    ensures ts[k].key.value in SpawnedAfter(spawned, ts)
    ensures ResolvedAt(spawned, ts, k).child == SpawnedAfter(spawned, ts)[ts[k].key.value]
  {
    var key := ts[k].key.value;
    if key in SpawnedAfter(spawned, ts[..k]) {
      KeyStaysResolved(spawned, ts, k, key);
    } else {
      assert ts[..k + 1][..k] == ts[..k];
      assert SpawnedAfter(spawned, ts[..k + 1])[key] == ts[k].candidate;
      KeyStaysResolved(spawned, ts, k + 1, key);
    }
  }

  /** A trigger is skipped when its key came earlier in the request, or resolved to another child than proposed. */
  lemma SkipExactly(g: Log, ts: seq<Trigger>, k: nat)
    requires FreshIds(g, ts) && k < |ts| && ts[k].key.Some?
    ensures var key := ts[k].key.value;
      && key in SpawnedAfter(map[], ts) && key in SpawnedAfter(g.spawned, ts)
      && (ResolvedAt(g.spawned, ts, k).skip <==>
          key in SpawnedAfter(map[], ts[..k]) || SpawnedAfter(g.spawned, ts)[key] != SpawnedAfter(map[], ts)[key])
  {
    var key := ts[k].key.value;
    MergeSpawned(g.spawned, ts);
    MergeSpawned(g.spawned, ts[..k]);
    KeyIsKnown(map[], ts, k);
    if key in g.spawned {
      var j := KeyComesFrom(map[], ts, key);
      assert Unused(g, ts[j].candidate);
    }
  }

  /** Hands one trigger its child; `repeated` says that its key came earlier in the request. */
  method ResolveOne(proposed: Spawned, after: Spawned, t: Task, tr: Trigger, repeated: bool, ghost g: Log,
                    ghost ts: seq<Trigger>, ghost k: nat) returns (r: Resolved)
    requires FreshIds(g, ts) && k < |ts| && tr == ts[k]
    requires SpawnedOf(proposed, t) == SpawnedAfter(map[], ts) && SpawnedOf(after, t) == SpawnedAfter(g.spawned, ts)
    requires tr.key.Some? ==> (repeated <==> tr.key.value in SpawnedAfter(map[], ts[..k]))
    ensures r == ResolvedAt(g.spawned, ts, k)
  {
    if tr.key.None? {
      return Resolved(tr.candidate, false);
    }
    var key := tr.key.value;
    SkipExactly(g, ts, k);
    ResolvedKey(g.spawned, ts, k);
    SpawnedIs(proposed, t, key);
    SpawnedIs(after, t, key);
    var id := after[SpawnKey(t, key)];
    return Resolved(id, repeated || id != proposed[SpawnKey(t, key)]);
  }

  ghost predicate SeenUpTo(ts: seq<Trigger>, k: nat, seen: set<Key>)
    requires k <= |ts|
  {
    forall key :: key in seen <==> key in SpawnedAfter(map[], ts[..k])
  }

  /** Hands the next trigger its child, `want`, and notes its key. */
  method ResolveNext(proposed: Spawned, after: Spawned, t: Task, ts: seq<Trigger>, k: nat, seen: set<Key>,
                     ghost g: Log, ghost want: Resolved) returns (r: Resolved, seen': set<Key>)
    requires FreshIds(g, ts) && k < |ts| && SeenUpTo(ts, k, seen) && want == ResolvedAt(g.spawned, ts, k)
    requires SpawnedOf(proposed, t) == SpawnedAfter(map[], ts) && SpawnedOf(after, t) == SpawnedAfter(g.spawned, ts)
    ensures r == want && SeenUpTo(ts, k + 1, seen')
  {
    assert ts[..k + 1][..k] == ts[..k];
    var tr := ts[k];
    r := ResolveOne(proposed, after, t, tr, tr.key.Some? && tr.key.value in seen, g, ts, k);
    seen' := if tr.key.Some? then seen + {tr.key.value} else seen;
  }

  /** Hands every trigger of one task its child; `want` is what they should get. */
  method ResolveEach(proposed: Spawned, after: Spawned, t: Task, ts: seq<Trigger>, ghost g: Log,
                     ghost want: seq<Resolved>)
    returns (rs: seq<Resolved>)
    requires FreshIds(g, ts) && |want| == |ts|
    requires SpawnedOf(proposed, t) == SpawnedAfter(map[], ts) && SpawnedOf(after, t) == SpawnedAfter(g.spawned, ts)
    requires forall k {:trigger ResolvedAt(g.spawned, ts, k)} | 0 <= k < |ts| :: ResolvedAt(g.spawned, ts, k) == want[k]
    ensures rs == want
  {
    rs := [];
    var seen: set<Key> := {};
    for k := 0 to |ts|
      invariant rs == want[..k] && SeenUpTo(ts, k, seen)
    {
      var r;
      r, seen := ResolveNext(proposed, after, t, ts, k, seen, g, ResolvedAt(g.spawned, ts, k));
      rs := rs + [r];
    }
  }

  method ResolveFor(proposed: Spawned, after: Spawned, t: Task, ts: seq<Trigger>, ghost g: Log)
    returns (rs: seq<Resolved>)
    requires FreshIds(g, ts)
    requires SpawnedOf(proposed, t) == SpawnedAfter(map[], ts) && SpawnedOf(after, t) == SpawnedAfter(g.spawned, ts)
    ensures rs == ResolvedAll(g.spawned, ts)
  {
    rs := ResolveEach(proposed, after, t, ts, g, ResolvedAll(g.spawned, ts));
  }

  // ---------------------------------------------------------------- orphaned children

  ghost predicate Describes(g: Log, rows: Rows, t: Task, f: File) {
    && Valid(g) && g.entries == EntriesOf(rows, t)
    && g.latestNode == f.latestNode && g.latestBranch == f.latestBranch && g.points == f.points && g.forced == f.forced
  }

  ghost predicate Nodes(ss: seq<ChildRow>) { forall x | x in ss :: 0 <= x.slot.node }

  ghost predicate ShownIn(g: Log, ss: seq<ChildRow>, c: Id)
    requires Valid(g) && Nodes(ss)
  {
    exists x | x in ss :: x.child == c && x.slot == At(g, x.slot.node)
  }

  ghost predicate ShownSoFar(g: Log, ss: seq<ChildRow>, shown: set<Id>)
    requires Valid(g) && Nodes(ss)
  {
    forall c :: c in shown <==> ShownIn(g, ss, c)
  }

  lemma ShownNext(g: Log, ss: seq<ChildRow>, x: ChildRow, shown: set<Id>)
    requires Valid(g) && Nodes(ss) && 0 <= x.slot.node && ShownSoFar(g, ss, shown)
    ensures Nodes(ss + [x])
    ensures ShownSoFar(g, ss + [x], if x.slot == At(g, x.slot.node) then shown + {x.child} else shown)
  {
    var shown' := if x.slot == At(g, x.slot.node) then shown + {x.child} else shown;
    assert x in ss + [x];
    forall c ensures c in shown' <==> ShownIn(g, ss + [x], c) {
      if ShownIn(g, ss, c) {
        var y :| y in ss && y.child == c && y.slot == At(g, y.slot.node);
        assert y in ss + [x];
      }
    }
  }

  /** One scan of the rows of some children: which are shown, and each one's newest entry. */
  method ScanRows(f: File, ss: seq<ChildRow>, ghost g: Log) returns (shown: set<Id>, newest: map<Id, Slot>)
    requires Valid(g) && g.latestBranch == f.latestBranch && g.points == f.points && Nodes(ss) && ByNode(ss)
    ensures NewestSoFar(ss, newest) && ShownSoFar(g, ss, shown)
  {
    shown, newest := {}, map[];
    for k := 0 to |ss|
      invariant NewestSoFar(ss[..k], newest) && Nodes(ss[..k]) && ShownSoFar(g, ss[..k], shown)
    {
      var x := ss[k];
      assert ss[..k + 1] == ss[..k] + [x] && x in ss;
      NewestNext(ss[..k], x, newest);
      ShownNext(g, ss[..k], x, shown);
      var b := BranchLookup.ResolveBranchForNode(x.slot.node, f.latestBranch, f.points);
      if b == x.slot.branch {
        shown := shown + {x.child};
      }
      if x.child !in newest || newest[x.child].branch < x.slot.branch {
        newest := newest[x.child := x.slot];
      }
    }
    assert ss[..|ss|] == ss;
  }

  method ScanChildren(rows: Rows, t: Task, f: File, ids: set<Id>, ghost g: Log)
    returns (shown: set<Id>, newest: map<Id, Slot>)
    requires Describes(g, rows, t, f)
    ensures forall c :: c in shown <==> c in ids && Live(g, c)
    ensures forall c :: c in newest <==> c in ids && HasEntry(g.entries, c)
    ensures forall c | c in newest :: IsNewest(g.entries, newest[c], c)
  {
    var ss := RowsOfChildren(rows, t, ids);
    forall x | x in ss ensures 0 <= x.slot.node {
      EntryIs(rows, t, x.slot);
    }
    shown, newest := ScanRows(f, ss, g);
    NewestScanned(rows, t, ids, ss, newest);
    forall c ensures c in shown <==> c in ids && Live(g, c) {
      ShownIsLive(g, rows, t, ids, ss, c);
    }
  }

  lemma ShownIsLive(g: Log, rows: Rows, t: Task, ids: set<Id>, ss: seq<ChildRow>, c: Id)
    requires Valid(g) && g.entries == EntriesOf(rows, t)
    requires (forall x :: x in ss <==> Has(rows, t, x) && x.child in ids) && Nodes(ss)
    ensures ShownIn(g, ss, c) <==> c in ids && Live(g, c)
  {
    forall s ensures ChildAt(g.entries, s, c) <==> Has(rows, t, ChildRow(s, c)) {
      EntryIs(rows, t, s);
    }
    if c in ids && Live(g, c) {
      var s :| ChildAt(g.entries, s, c) && s == At(g, s.node);
      assert ChildRow(s, c) in ss;
    }
    if ShownIn(g, ss, c) {
      var x :| x in ss && x.child == c && x.slot == At(g, x.slot.node);
      assert ChildAt(g.entries, x.slot, c);
    }
  }

  function SkippedIds(rs: seq<Resolved>): set<Id> { set x | x in rs && x.skip :: x.child }

  /** The verdict on one skipped trigger, from the scan. */
  method Decide(rows: Rows, t: Task, f: File, tr: Trigger, c: Id, shown: set<Id>, newest: map<Id, Slot>, ghost g: Log)
    returns (v: Verdict)
    requires Describes(g, rows, t, f)
    requires c in shown <==> Live(g, c)
    requires c in newest <==> HasEntry(g.entries, c)
    requires c in newest ==> IsNewest(g.entries, newest[c], c)
    ensures v == KnownVerdict(g, tr, c)
  {
    if c in shown {
      return Reuse(c);
    }
    if c !in newest || !tr.replayOrphans {
      return Place(tr.replacement, false);
    }
    NewestIs(g.entries, newest[c], c);
    EntryIs(rows, t, newest[c]);
    var e := rows[Row(t, newest[c])];
    var hasForced := f.latestBranch in f.points && f.latestBranch in f.forced;
    if hasForced && !(c in f.forced[f.latestBranch] || tr.parentReExecuted) && e.satisfied {
      return Reuse(c);
    }
    return Place(c, e.triggered);
  }

  /** A trigger placed under an id that has entries is an in-place replay. */
  lemma PlacedWithEntry(g: Log, ts: seq<Trigger>, k: nat)
    requires Valid(g) && FreshIds(g, ts) && k < |ts| && VerdictAt(g, ts, k).Place?
    ensures VerdictAt(g, ts, k).replayed ==> HasEntry(g.entries, VerdictAt(g, ts, k).child)
    ensures HasEntry(g.entries, VerdictAt(g, ts, k).child) ==>
      (VerdictAt(g, ts, k).replayed <==> g.entries[Newest(g.entries, VerdictAt(g, ts, k).child)].triggered)
  {
    assert Unused(g, ts[k].candidate) && Unused(g, ts[k].replacement);
  }

  /** The verdict on any trigger of a request. */
  method DecideOne(rows: Rows, t: Task, f: File, tr: Trigger, r: Resolved, shown: set<Id>, newest: map<Id, Slot>,
                   ghost g: Log, ghost ts: seq<Trigger>, ghost k: nat) returns (v: Verdict)
    requires Describes(g, rows, t, f) && k < |ts| && tr == ts[k] && r == ResolvedAt(g.spawned, ts, k)
    requires r.skip ==>
      && (r.child in shown <==> Live(g, r.child)) && (r.child in newest <==> HasEntry(g.entries, r.child))
      && (r.child in newest ==> IsNewest(g.entries, newest[r.child], r.child))
    ensures v == VerdictAt(g, ts, k)
  {
    if !r.skip {
      return Place(r.child, false);
    }
    v := Decide(rows, t, f, tr, r.child, shown, newest, g);
  }

  ghost function Verdicts(g: Log, ts: seq<Trigger>): seq<Verdict>
    requires Valid(g)
  {
    seq(|ts|, k requires 0 <= k < |ts| => VerdictAt(g, ts, k))
  }

  /**
   The children replayed in place so far are those of the in-place verdicts, and their newest entries
   were triggered.
   */
  ghost predicate ReplaySoFar(g: Log, vs: seq<Verdict>, replay: set<Id>) {
    && (forall i | 0 <= i < |vs| && vs[i].Place? && vs[i].replayed :: vs[i].child in replay)
    && (forall c | c in replay :: HasEntry(g.entries, c) && g.entries[Newest(g.entries, c)].triggered)
  }

  lemma ReplayIsExact(g: Log, ts: seq<Trigger>, vs: seq<Verdict>, replay: set<Id>, k: nat)
    requires Valid(g) && FreshIds(g, ts) && k < |ts| == |vs| && vs[k] == VerdictAt(g, ts, k) && vs[k].Place?
    requires ReplaySoFar(g, vs, replay)
    ensures vs[k].replayed <==> vs[k].child in replay
  {
    PlacedWithEntry(g, ts, k);
  }

  /** The scan answers for every child that is skipped. */
  ghost predicate Answers(g: Log, rs: seq<Resolved>, shown: set<Id>, newest: map<Id, Slot>)
    requires Valid(g)
  {
    forall k | 0 <= k < |rs| && rs[k].skip ::
      && (rs[k].child in shown <==> Live(g, rs[k].child))
      && (rs[k].child in newest <==> HasEntry(g.entries, rs[k].child))
      && (rs[k].child in newest ==> IsNewest(g.entries, newest[rs[k].child], rs[k].child))
  }

  /** Decides every trigger; `want` is what the verdicts should be. */
  method DecideEach(rows: Rows, t: Task, f: File, ts: seq<Trigger>, rs: seq<Resolved>, shown: set<Id>, newest: map<Id,
                    Slot>,
                    ghost g: Log, ghost want: seq<Verdict>) returns (vs: seq<Verdict>, replay: set<Id>)
    requires Describes(g, rows, t, f) && FreshIds(g, ts) && |rs| == |ts| == |want| && Answers(g, rs, shown, newest)
    requires forall k {:trigger ResolvedAt(g.spawned, ts, k)} | 0 <= k < |ts| :: ResolvedAt(g.spawned, ts, k) == rs[k]
    requires forall k {:trigger VerdictAt(g, ts, k)} | 0 <= k < |ts| :: VerdictAt(g, ts, k) == want[k]
    ensures vs == want && ReplaySoFar(g, vs, replay)
  {
    vs, replay := [], {};
    for k := 0 to |ts|
      invariant vs == want[..k] && ReplaySoFar(g, vs, replay)
    {
      assert ResolvedAt(g.spawned, ts, k) == rs[k];
      var v := DecideOne(rows, t, f, ts[k], rs[k], shown, newest, g, ts, k);
      if v.Place? {
        PlacedWithEntry(g, ts, k);
        if v.replayed {
          replay := replay + {v.child};
        }
      }
      vs := vs + [v];
    }
  }

  /** Decides every trigger of a request; `replay` collects the children to be replayed in place. */
  method ResolveOrphans(rows: Rows, t: Task, f: File, ts: seq<Trigger>, rs: seq<Resolved>, ghost g: Log)
    returns (vs: seq<Verdict>, replay: set<Id>)
    requires Describes(g, rows, t, f) && FreshIds(g, ts)
    requires rs == ResolvedAll(g.spawned, ts)
    ensures vs == Verdicts(g, ts)
    ensures forall k | 0 <= k < |vs| && vs[k].Place? :: vs[k].replayed <==> vs[k].child in replay
  {
    var shown, newest := ScanChildren(rows, t, f, SkippedIds(rs), g);
    assert forall k | 0 <= k < |rs| && rs[k].skip :: rs[k].child in SkippedIds(rs);
    vs, replay := DecideEach(rows, t, f, ts, rs, shown, newest, g, Verdicts(g, ts));
    forall k | 0 <= k < |vs| && vs[k].Place? ensures vs[k].replayed <==> vs[k].child in replay {
      ReplayIsExact(g, ts, vs, replay, k);
    }
  }

  // ---------------------------------------------------------------- planning

  method SlotFor(f: File, node: nat, ghost g: Log) returns (s: Slot)
    requires Valid(g) && g.latestBranch == f.latestBranch && g.points == f.points
    ensures s == At(g, node)
  {
    var b := BranchLookup.ResolveBranchForNode(node, f.latestBranch, f.points);
    return Slot(node, b);
  }

  method OptFor(f: File, t: Trigger, v: Verdict, replayed: bool, offset: nat, ghost g: Log, ghost ts: seq<Trigger>,
                ghost k: nat) returns (o: Opt)
    requires Valid(g) && g.latestNode == f.latestNode && g.latestBranch == f.latestBranch && g.points == f.points
    requires k < |ts| && t == ts[k] && v == VerdictAt(g, ts, k) && offset == Offset(g, ts, k)
    requires v.Place? ==> replayed == v.replayed
    ensures o == RunOpt(g, ts, k)
  {
    if v.Reuse? {
      return Skip(v.child, t.idem, t.byIndex, t.dagStep);
    }
    var s := SlotFor(f, f.latestNode + 1 + offset, g);
    return Put(s, Entry(RunKind, t.idem, Some(v.child), t.terminal, replayed), t.dagStep);
  }

  /** Lays the triggers out: each one that is not reused takes the next node. */
  method PlanRun(f: File, ts: seq<Trigger>, vs: seq<Verdict>, replay: set<Id>, ghost g: Log) returns (opts: seq<Opt>)
    requires Valid(g) && g.latestNode == f.latestNode && g.latestBranch == f.latestBranch && g.points == f.points
    requires vs == Verdicts(g, ts)
    requires forall k | 0 <= k < |vs| && vs[k].Place? :: vs[k].replayed <==> vs[k].child in replay
    ensures opts == Plan(g, Run(ts))
  {
    opts := [];
    var offset := 0;
    ghost var want := Plan(g, Run(ts));
    for k := 0 to |ts|
      invariant opts == want[..k] && offset == Offset(g, ts, k)
    {
      var o := OptFor(f, ts[k], vs[k], vs[k].child in replay, offset, g, ts, k);
      assert want[k] == o;
      opts := opts + [o];
      if vs[k].Place? {
        offset := offset + 1;
      }
    }
  }

  method PlanRequest(rows: Rows, t: Task, f: File, r: Request, rs: seq<Resolved>, ghost g: Log) returns (opts: seq<Opt>)
    requires Describes(g, rows, t, f) && FreshIds(g, Triggers(r)) && !r.Unsupported?
    requires rs == ResolvedAll(g.spawned, Triggers(r))
    ensures opts == Plan(g, r)
  {
    match r
    case Wait(idem) =>
      var s := SlotFor(f, f.latestNode + 1, g);
      return [Put(s, Entry(WaitKind, idem, None, false, false), false)];
    case Memo(idem, hasPayload) =>
      var s := SlotFor(f, f.latestNode + 1, g);
      return [Put(s, Entry(MemoKind, idem, None, hasPayload, false), false)];
    case Run(ts) =>
      var vs, replay := ResolveOrphans(rows, t, f, ts, rs, g);
      opts := PlanRun(f, ts, vs, replay, g);
  }

  // ---------------------------------------------------------------- the latest node

  method MaxResult(rs: seq<Result>) returns (n: nat)
    ensures IsMax(n, 0, rs)
  {
    n := 0;
    for k := 0 to |rs|
      invariant IsMax(n, 0, rs[..k])
    {
      assert rs[..k + 1] == rs[..k] + [rs[k]];
      if rs[k].slot.node > n {
        n := rs[k].slot.node;
        assert rs[k] in rs[..k + 1];
      }
    }
    assert rs[..|rs|] == rs;
  }

  lemma MaxIsMaxNode(start: nat, n: nat, out: seq<Result>, results: seq<Result>)
    requires IsMax(n, 0, out) && multiset(out) == multiset(results)
    ensures MaxNode(start, results) == if n > start then n else start
  {
    MaxNodeIsMax(start, results);
    assert forall x :: x in out <==> x in multiset(out);
    assert forall x :: x in results <==> x in multiset(results);
  }

  // ---------------------------------------------------------------- one task of the batch

  datatype Reply = Refused(error: Error) | Answered(results: seq<Result>)

  ghost predicate ValidDb(db: Db) { forall t | t in db.files :: Valid(LogOf(db, t)) }

  /** The ids the request brings are new to its task. */
  ghost predicate FreshItem(db: Db, x: Item) { x.task in db.files ==> FreshIds(LogOf(db, x.task), Triggers(x.request)) }

  /** What the item would get alone. */
  ghost function Solo(db: Db, x: Item): Outcome
    requires ValidDb(db) && x.task in db.files
  {
    Serve(LogOf(db, x.task), x.invocation, x.request)
  }

  /** The item's reply and its task's log are what they would be alone. */
  ghost predicate AsAlone(db: Db, db': Db, x: Item, reply: Reply)
    requires ValidDb(db)
  {
    if x.task !in db.files then x.task !in db'.files && reply == Refused(NoLogFile)
    else
      && x.task in db'.files
      && match Solo(db, x)
         case Done(log, results) => LogOf(db', x.task) == log && reply.Answered? && Reports(reply.results, results)
         case Failed(log, error) => LogOf(db', x.task) == log && reply == Refused(error)
         case Fatal(_) => false
  }

  predicate IsLive(db: Db, x: Item) { x.task in db.files && db.files[x.task].invocation == x.invocation }

  predicate IsPlanned(db: Db, x: Item) { IsLive(db, x) && !x.request.Unsupported? }

  /** The list of entries the item asks for. */
  ghost function OptsOf(db: Db, x: Item): seq<Opt>
    requires ValidDb(db)
  {
    if IsPlanned(db, x) then Plan(LogOf(db, x.task), x.request) else []
  }

  method PlanItem(db: Db, x: Item, proposed: Spawned, after: Spawned) returns (opts: seq<Opt>)
    requires ValidDb(db) && FreshItem(db, x)
    requires IsLive(db, x) ==>
      && SpawnedOf(proposed, x.task) == SpawnedAfter(map[], Triggers(x.request))
      && SpawnedOf(after, x.task) == SpawnedAfter(SpawnedOf(db.spawned, x.task), Triggers(x.request))
    ensures opts == OptsOf(db, x)
  {
    if !IsPlanned(db, x) {
      return [];
    }
    ghost var g := LogOf(db, x.task);
    var rs := ResolveFor(proposed, after, x.task, Triggers(x.request), g);
    opts := PlanRequest(db.rows, x.task, db.files[x.task], x.request, rs, g);
  }

  /** The file a served item leaves behind: its latest node never moves back. */
  method UpdateFile(f: File, out: seq<Result>, ghost results: seq<Result>) returns (f': File)
    requires multiset(out) == multiset(results)
    ensures f' == f.(latestNode := MaxNode(f.latestNode, results))
  {
    var n := MaxResult(out);
    MaxIsMaxNode(f.latestNode, n, out, results);
    return if n > f.latestNode then f.(latestNode := n) else f;
  }

  /** What an item is told, and the file its task is left with. */
  datatype Settlement = Settlement(reply: Reply, file: Option<File>)

  /** The reply and the file that go with an outcome. */
  ghost predicate Settles(was: map<Task, File>, x: Item, solo: Option<Outcome>, s: Settlement) {
    if solo.None? then x.task !in was && s == Settlement(Refused(NoLogFile), None)
    else
      && x.task in was && s.file.Some?
      && match solo.value
         case Done(log, results) =>
           && s.reply.Answered? && Reports(s.reply.results, results)
           && s.file.value == was[x.task].(latestNode := log.latestNode)
         case Failed(_, error) => s.reply == Refused(error) && s.file.value == was[x.task]
         case Fatal(_) => false
  }

  /** What the get-or-create told the item fits its outcome alone. */
  ghost predicate Fits(was: map<Task, File>, x: Item, solo: Option<Outcome>, answer: Answer) {
    if x.task !in was then solo.None?
    else
      && solo.Some?
      && (was[x.task].invocation != x.invocation ==> solo.value.Failed? && solo.value.error == StaleInvocation)
      && (was[x.task].invocation == x.invocation && x.request.Unsupported? ==>
            solo.value.Failed? && solo.value.error == UnsupportedKind)
      && (was[x.task].invocation == x.invocation && !x.request.Unsupported? ==>
            if answer.Rejected? then solo.value.Failed? && solo.value.error == NonDeterminism
            else
              && solo.value.Done? && Reports(answer.results, solo.value.results)
              && solo.value.log.latestNode == MaxNode(was[x.task].latestNode, solo.value.results))
  }

  ghost function SoloOf(db: Db, x: Item): Option<Outcome>
    requires ValidDb(db)
  {
    if x.task in db.files then Some(Solo(db, x)) else None
  }

  lemma AnswerFits(db: Db, after: Rows, x: Item, answer: Answer)
    requires ValidDb(db) && ServedAlone(db.rows, after, AskOf(db, x), answer)
    ensures Fits(db.files, x, SoloOf(db, x), answer)
  {}

  method SettleItem(was: map<Task, File>, x: Item, answer: Answer, ghost solo: Option<Outcome>) returns (s: Settlement)
    requires Fits(was, x, solo, answer)
    ensures Settles(was, x, solo, s)
  {
    if x.task !in was {
      return Settlement(Refused(NoLogFile), None);
    }
    var f := was[x.task];
    if f.invocation != x.invocation {
      return Settlement(Refused(StaleInvocation), Some(f));
    }
    if x.request.Unsupported? {
      return Settlement(Refused(UnsupportedKind), Some(f));
    }
    if answer.Rejected? {
      return Settlement(Refused(NonDeterminism), Some(f));
    }
    var f' := UpdateFile(f, answer.results, solo.value.results);
    return Settlement(Answered(answer.results), Some(f'));
  }

  // ---------------------------------------------------------------- the whole batch

  datatype BatchResult = Aborted | Committed(db: Db, replies: seq<Reply>)

  ghost function AskOf(db: Db, x: Item): Ask
    requires ValidDb(db)
  {
    Ask(x.task, OptsOf(db, x))
  }

  lemma NothingAskedPasses(rows: Rows, t: Task)
    ensures !AbortsAlone(rows, Ask(t, []))
  {}

  lemma PlannedAborts(g: Log, r: Request)
    requires Valid(g) && !r.Unsupported?
    ensures var opts := Plan(g, r);
      Append(g, r).Fatal? <==> Deterministic(g.entries, opts) && Aborts(EntriesAfter(g.entries, opts), opts)
  {}

  lemma PlannedIsServed(db: Db, x: Item)
    requires ValidDb(db) && IsPlanned(db, x)
    ensures Solo(db, x) == Append(LogOf(db, x.task), x.request) && OptsOf(db, x) == Plan(LogOf(db, x.task), x.request)
  {}

  lemma UnplannedIsRefused(db: Db, x: Item)
    requires ValidDb(db) && !IsPlanned(db, x)
    ensures OptsOf(db, x) == [] && (x.task in db.files ==> Solo(db, x).Failed?)
  {}

  lemma PlanAborts(rows: Rows, t: Task, g: Log, r: Request)
    requires Valid(g) && !r.Unsupported? && g.entries == EntriesOf(rows, t)
    ensures AbortsAlone(rows, Ask(t, Plan(g, r))) <==> Append(g, r).Fatal?
  {
    PlannedAborts(g, r);
  }

  lemma AbortsLikeSolo(db: Db, x: Item)
    requires ValidDb(db)
    ensures AbortsAlone(db.rows, AskOf(db, x)) <==> x.task in db.files && Solo(db, x).Fatal?
  {
    if IsPlanned(db, x) {
      PlannedIsServed(db, x);
      PlanAborts(db.rows, x.task, LogOf(db, x.task), x.request);
    } else {
      UnplannedIsRefused(db, x);
      NothingAskedPasses(db.rows, x.task);
    }
  }

  function LiveTriggers(db: Db, x: Item): seq<Trigger> { if IsLive(db, x) then Triggers(x.request) else [] }

  /** What a request does to a log, part by part. */
  lemma AppendLog(g: Log, r: Request)
    requires Valid(g) && !r.Unsupported? && !Append(g, r).Fatal?
    ensures var log := Append(g, r).log;
      && (Append(g, r).Done? <==> Deterministic(g.entries, Plan(g, r)))
      && log.spawned == SpawnedAfter(g.spawned, Triggers(r))
      && log.entries == (if Append(g, r).Done? then EntriesAfter(g.entries, Plan(g, r)) else g.entries)
      && log == g.(spawned := log.spawned, entries := log.entries, latestNode := log.latestNode)
      && (Append(g, r).Failed? ==> log.latestNode == g.latestNode)
  {}

  lemma {:induction false} PlannedLogAsAlone(db: Db, db': Db, x: Item, answer: Answer, s: Settlement)
    requires ValidDb(db) && IsPlanned(db, x) && x.task in db'.files
    requires ServedAlone(db.rows, db'.rows, AskOf(db, x), answer)
    requires Settles(db.files, x, SoloOf(db, x), s) && db'.files[x.task] == s.file.value
    requires SpawnedOf(db'.spawned, x.task) == SpawnedAfter(SpawnedOf(db.spawned, x.task), LiveTriggers(db, x))
    ensures !Solo(db, x).Fatal? && LogOf(db', x.task) == Solo(db, x).log
  {
    PlannedIsServed(db, x);
    AppendLog(LogOf(db, x.task), x.request);
  }

  lemma NothingAskedKeeps(rows: Rows, after: Rows, t: Task, answer: Answer)
    requires ServedAlone(rows, after, Ask(t, []), answer)
    ensures EntriesOf(after, t) == EntriesOf(rows, t)
  {}

  lemma RefusedKeepsFile(db: Db, x: Item, s: Settlement)
    requires ValidDb(db) && x.task in db.files && !IsPlanned(db, x) && Settles(db.files, x, SoloOf(db, x), s)
    ensures Solo(db, x).Failed? && Solo(db, x).log == LogOf(db, x.task) && s.file == Some(db.files[x.task])
    ensures LiveTriggers(db, x) == [] && OptsOf(db, x) == []
  {}

  lemma SameLog(db: Db, db': Db, t: Task)
    requires t in db.files && t in db'.files && db'.files[t] == db.files[t]
    requires EntriesOf(db'.rows, t) == EntriesOf(db.rows, t) && SpawnedOf(db'.spawned, t) == SpawnedOf(db.spawned, t)
    ensures LogOf(db', t) == LogOf(db, t)
  {}

  lemma {:induction false} UnplannedLogAsAlone(db: Db, db': Db, x: Item, answer: Answer, s: Settlement)
    requires ValidDb(db) && x.task in db.files && x.task in db'.files && !IsPlanned(db, x)
    requires ServedAlone(db.rows, db'.rows, AskOf(db, x), answer)
    requires Settles(db.files, x, SoloOf(db, x), s) && db'.files[x.task] == s.file.value
    requires SpawnedOf(db'.spawned, x.task) == SpawnedAfter(SpawnedOf(db.spawned, x.task), LiveTriggers(db, x))
    ensures Solo(db, x).Failed? && LogOf(db', x.task) == Solo(db, x).log
  {
    RefusedKeepsFile(db, x, s);
    NothingAskedKeeps(db.rows, db'.rows, x.task, answer);
    SameLog(db, db', x.task);
  }

  lemma {:induction false} LogAsAlone(db: Db, db': Db, x: Item, answer: Answer, s: Settlement)
    requires ValidDb(db) && x.task in db.files && x.task in db'.files
    requires ServedAlone(db.rows, db'.rows, AskOf(db, x), answer)
    requires Settles(db.files, x, SoloOf(db, x), s) && db'.files[x.task] == s.file.value
    requires SpawnedOf(db'.spawned, x.task) == SpawnedAfter(SpawnedOf(db.spawned, x.task), LiveTriggers(db, x))
    ensures !Solo(db, x).Fatal? && LogOf(db', x.task) == Solo(db, x).log
  {
    if IsPlanned(db, x) {
      PlannedLogAsAlone(db, db', x, answer, s);
    } else {
      UnplannedLogAsAlone(db, db', x, answer, s);
    }
  }

  lemma ItemAsAlone(db: Db, db': Db, x: Item, answer: Answer, s: Settlement)
    requires ValidDb(db) && (x.task in db'.files <==> x.task in db.files)
    requires ServedAlone(db.rows, db'.rows, AskOf(db, x), answer)
    requires Settles(db.files, x, SoloOf(db, x), s) && (x.task in db.files ==> db'.files[x.task] == s.file.value)
    requires SpawnedOf(db'.spawned, x.task) == SpawnedAfter(SpawnedOf(db.spawned, x.task), LiveTriggers(db, x))
    ensures AsAlone(db, db', x, s.reply)
  {
    if x.task in db.files {
      LogAsAlone(db, db', x, answer, s);
    }
  }

  method PlanAll(db: Db, items: seq<Item>, proposed: Spawned, after: Spawned) returns (asks: seq<Ask>)
    requires ValidDb(db) && forall i | 0 <= i < |items| :: FreshItem(db, items[i])
    requires forall i | 0 <= i < |items| ::
      && SpawnedOf(proposed, items[i].task) == SpawnedAfter(map[], LiveTriggers(db, items[i]))
      && SpawnedOf(after, items[i].task) ==
        SpawnedAfter(SpawnedOf(db.spawned, items[i].task), LiveTriggers(db, items[i]))
    ensures |asks| == |items| && forall i | 0 <= i < |items| :: asks[i] == AskOf(db, items[i])
  {
    asks := [];
    for k := 0 to |items|
      invariant |asks| == k && forall i | 0 <= i < k :: asks[i] == AskOf(db, items[i])
    {
      var opts := PlanItem(db, items[k], proposed, after);
      asks := asks + [Ask(items[k].task, opts)];
    }
  }

  /** The files after the first `k` items are settled. */
  function FilesAfter(was: map<Task, File>, items: seq<Item>, settled: seq<Settlement>, k: nat): map<Task, File>
    requires k <= |items| == |settled|
  {
    if k == 0 then was else
      var m, file := FilesAfter(was, items, settled, k - 1), settled[k - 1].file;
      if file.Some? then m[items[k - 1].task := file.value] else m
  }

  lemma {:induction false} UnnamedFile(was: map<Task, File>, items: seq<Item>, settled: seq<Settlement>, k: nat,
                                       t: Task)
    requires k <= |items| == |settled| && forall i | 0 <= i < k :: items[i].task != t
    ensures t in FilesAfter(was, items, settled, k) <==> t in was
    ensures t in was ==> FilesAfter(was, items, settled, k)[t] == was[t]
  {
    if k > 0 {
      UnnamedFile(was, items, settled, k - 1, t);
    }
  }

  lemma {:induction false} NamedFile(was: map<Task, File>, items: seq<Item>, settled: seq<Settlement>, k: nat, i: nat)
    requires i < k <= |items| == |settled| && DistinctItems(items) && (settled[i].file.Some? <==> items[i].task in was)
    ensures items[i].task in FilesAfter(was, items, settled, k) <==> items[i].task in was
    ensures settled[i].file.Some? ==> FilesAfter(was, items, settled, k)[items[i].task] == settled[i].file.value
  {
    if i < k - 1 {
      NamedFile(was, items, settled, k - 1, i);
    } else {
      UnnamedFile(was, items, settled, k - 1, items[i].task);
    }
  }

  method UpdateFiles(was: map<Task, File>, items: seq<Item>, settled: seq<Settlement>) returns (files: map<Task, File>)
    requires |settled| == |items|
    ensures files == FilesAfter(was, items, settled, |items|)
  {
    files := was;
    for k := 0 to |items|
      invariant files == FilesAfter(was, items, settled, k)
    {
      if settled[k].file.Some? {
        files := files[items[k].task := settled[k].file.value];
      }
    }
  }

  method SettleAll(was: map<Task, File>, items: seq<Item>, answers: seq<Answer>, ghost solos: seq<Option<Outcome>>)
    returns (settled: seq<Settlement>)
    requires |answers| == |items| == |solos|
    requires forall i | 0 <= i < |items| :: Fits(was, items[i], solos[i], answers[i])
    ensures |settled| == |items| && forall i | 0 <= i < |items| :: Settles(was, items[i], solos[i], settled[i])
  {
    settled := [];
    for k := 0 to |items|
      invariant |settled| == k && forall i | 0 <= i < k :: Settles(was, items[i], solos[i], settled[i])
    {
      var s := SettleItem(was, items[k], answers[k], solos[k]);
      settled := settled + [s];
    }
  }

  /** Answers each item and writes the files back. */
  method Finish(db: Db, items: seq<Item>, rows: Rows, spawned: Spawned, answers: seq<Answer>)
    returns (db': Db, replies: seq<Reply>)
    requires ValidDb(db) && DistinctItems(items) && |answers| == |items|
    requires forall i | 0 <= i < |items| :: ServedAlone(db.rows, rows, AskOf(db, items[i]), answers[i])
    requires forall i | 0 <= i < |items| ::
      SpawnedOf(spawned, items[i].task) ==
        SpawnedAfter(SpawnedOf(db.spawned, items[i].task), LiveTriggers(db, items[i]))
    ensures db'.rows == rows && db'.spawned == spawned
    ensures |replies| == |items| && forall i | 0 <= i < |items| :: AsAlone(db, db', items[i], replies[i])
    ensures forall t | t in db.files && !Named(items, t) :: t in db'.files && db'.files[t] == db.files[t]
  {
    ghost var solos := seq(|items|, i requires 0 <= i < |items| => SoloOf(db, items[i]));
    forall i | 0 <= i < |items| ensures Fits(db.files, items[i], solos[i], answers[i]) {
      AnswerFits(db, rows, items[i], answers[i]);
    }
    var settled := SettleAll(db.files, items, answers, solos);
    var files := UpdateFiles(db.files, items, settled);
    db' := Db(files, rows, spawned);
    replies := seq(|items|, i requires 0 <= i < |items| => settled[i].reply);
    forall i | 0 <= i < |items| ensures AsAlone(db, db', items[i], replies[i]) {
      NamedFile(db.files, items, settled, |items|, i);
      ItemAsAlone(db, db', items[i], answers[i], settled[i]);
    }
    forall t | t in db.files && !Named(items, t) ensures t in db'.files && db'.files[t] == db.files[t] {
      UnnamedFile(db.files, items, settled, |items|, t);
    }
  }

  ghost predicate AbortsBatch(db: Db, items: seq<Item>)
    requires ValidDb(db)
  {
    exists i | 0 <= i < |items| :: items[i].task in db.files && Solo(db, items[i]).Fatal?
  }

  lemma AbortsExactly(db: Db, items: seq<Item>, asks: seq<Ask>)
    requires ValidDb(db) && |asks| == |items| && forall i | 0 <= i < |items| :: asks[i] == AskOf(db, items[i])
    ensures (exists i | 0 <= i < |asks| :: AbortsAlone(db.rows, asks[i])) <==> AbortsBatch(db, items)
  {
    if i :| 0 <= i < |asks| && AbortsAlone(db.rows, asks[i]) {
      AbortsLikeSolo(db, items[i]);
    }
    if i :| 0 <= i < |items| && items[i].task in db.files && Solo(db, items[i]).Fatal? {
      AbortsLikeSolo(db, items[i]);
    }
  }

  /**
   Appending a batch of distinct tasks refines appending one task at a time: it aborts exactly when some
   task would have aborted alone; otherwise each task has the log, the results or the error it would have
   had alone, and no other task's log changes.
   */
  method AppendAll(db: Db, items: seq<Item>) returns (r: BatchResult)
    requires ValidDb(db) && DistinctItems(items) && forall i | 0 <= i < |items| :: FreshItem(db, items[i])
    ensures r.Aborted? <==> AbortsBatch(db, items)
    ensures r.Committed? ==>
      |r.replies| == |items| && forall i | 0 <= i < |items| :: AsAlone(db, r.db, items[i], r.replies[i])
    ensures r.Committed? ==>
      forall t | t in db.files && !Named(items, t) :: t in r.db.files && LogOf(r.db, t) == LogOf(db, t)
  {
    var live := seq(|items|, i requires 0 <= i < |items| => IsLive(db, items[i]));
    var proposed, spawned := ResolveKeys(db.spawned, items, live);
    assert forall i | 0 <= i < |items| :: Wanted(items, live, i) == LiveTriggers(db, items[i]);
    var asks := PlanAll(db, items, proposed, spawned);
    var abort, rows, answers := GetOrCreateForTasks(db.rows, asks);
    AbortsExactly(db, items, asks);
    if abort {
      return Aborted;
    }
    var db', replies := Finish(db, items, rows, spawned, answers);
    forall t | t in db.files && !Named(items, t) ensures t in db'.files && LogOf(db', t) == LogOf(db, t) {
      AskedIsNamed(items, asks, t);
    }
    return Committed(db', replies);
  }

  lemma AskedIsNamed(items: seq<Item>, asks: seq<Ask>, t: Task)
    requires |asks| == |items| && forall i | 0 <= i < |items| :: asks[i].task == items[i].task
    ensures Asked(asks, t) <==> Named(items, t)
  {
    if i :| 0 <= i < |items| && items[i].task == t {
      assert asks[i].task == t;
    }
    if i :| 0 <= i < |asks| && asks[i].task == t {
      assert items[i].task == t;
    }
  }
}
