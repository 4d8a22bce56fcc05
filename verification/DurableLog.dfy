/**
 One durable task's event log and what one request does to it.

 A log maps slots, a node on a branch, to entries. A task that is invoked again starts over at node 1
 and finds its earlier entries at the slots its requests land on. Runs spawned under a key are found by
 their child instead: a key that is already known names a child, and the child's entry is handed back,
 unless a reset has left that entry on a branch the log no longer shows.

 Ids the database hands out are part of the request: each trigger brings the id it proposes for its
 child and the one that replaces it if its child turns out to be lost.
 */
module DurableLog {
  import BranchLookup
  import opened Options

  type Id = nat
  type Key = nat
  type Idem = nat

  datatype Slot = Slot(node: int, branch: int)

  datatype Kind = RunKind | WaitKind | MemoKind

  datatype Entry = Entry(kind: Kind, idem: Idem, child: Option<Id>, satisfied: bool, triggered: bool)

  type Entries = map<Slot, Entry>

  /** `forced` holds, per branch, the set of children a reset asked to replay, where it gave one. */
  datatype Log = Log(
    latestNode: nat,
    latestBranch: int,
    invocation: int,
    points: BranchLookup.BranchPoints,
    forced: map<int, set<Id>>,
    entries: Entries,
    spawned: map<Key, Id>)

  /** `byIndex`: the child is deduplicated by position, so its inputs are checked when it is reused. */
  datatype Trigger = Trigger(
    key: Option<Key>,
    idem: Idem,
    byIndex: bool,
    dagStep: bool,
    replayOrphans: bool,
    parentReExecuted: bool,
    terminal: bool,
    candidate: Id,
    replacement: Id)

  datatype Request = Wait(idem: Idem) | Memo(idem: Idem, hasPayload: bool) | Run(triggers: seq<Trigger>) | Unsupported

  /** What planning asks of the log: the entry of a child, or an entry at a slot. */
  datatype Opt =
    | Skip(child: Id, idem: Idem, checked: bool, dagStep: bool)
    | Put(slot: Slot, entry: Entry, dagStep: bool)

  datatype Result = Result(slot: Slot, existed: bool)

  function Slots(results: seq<Result>): seq<Slot> {
    seq(|results|, k requires 0 <= k < |results| => results[k].slot)
  }

  datatype Error = NoLogFile | StaleInvocation | UnsupportedKind | NonDeterminism

  datatype FatalError = EntryNotFound | ReusedInputsDiffer

  /** `Fatal` aborts the transaction the request shares with the rest of its batch. */
  datatype Outcome = Done(log: Log, results: seq<Result>) | Failed(log: Log, error: Error) | Fatal(cause: FatalError)

  // ---------------------------------------------------------------- reading a log

  ghost predicate Valid(g: Log) {
    && BranchLookup.Rooted(g.points)
    && (forall s | s in g.entries :: 0 <= s.node)
    && (forall k, l | k in g.spawned && l in g.spawned && k != l :: g.spawned[k] != g.spawned[l])
  }

  /** The slot the log shows for a node. */
  ghost function At(g: Log, node: int): Slot
    requires Valid(g) && 0 <= node
  {
    Slot(node, BranchLookup.Lookup(node, g.latestBranch, g.points))
  }

  predicate ChildAt(entries: Entries, s: Slot, c: Id) { s in entries && entries[s].child == Some(c) }

  ghost predicate HasEntry(entries: Entries, c: Id) { exists s :: ChildAt(entries, s, c) }

  /** The log shows an entry of child `c`. */
  ghost predicate Live(g: Log, c: Id)
    requires Valid(g)
  {
    exists s :: ChildAt(g.entries, s, c) && s == At(g, s.node)
  }

  /** Node ids start over with each invocation, so newer means a higher branch; rows come by node. */
  predicate AsNew(a: Slot, b: Slot) { a.branch > b.branch || (a.branch == b.branch && a.node <= b.node) }

  ghost predicate IsNewest(entries: Entries, s: Slot, c: Id) {
    ChildAt(entries, s, c) && forall x | ChildAt(entries, x, c) :: AsNew(s, x)
  }

  lemma {:induction false} NewestOf(ss: set<Slot>) returns (s: Slot)
    requires ss != {}
    ensures s in ss && forall x | x in ss :: AsNew(s, x)
    decreases |ss|
  {
    var a :| a in ss;
    if ss == {a} {
      s := a;
    } else {
      assert ss - {a} != {};
      var b := NewestOf(ss - {a});
      s := if AsNew(a, b) then a else b;
      forall x | x in ss ensures AsNew(s, x) {
        assert x == a || x in ss - {a};
      }
    }
  }

  lemma NewestExists(entries: Entries, c: Id)
    requires HasEntry(entries, c)
    ensures exists s :: IsNewest(entries, s, c)
  {
    var ss := set s | s in entries && ChildAt(entries, s, c);
    var w :| ChildAt(entries, w, c);
    assert w in ss;
    var s := NewestOf(ss);
    assert IsNewest(entries, s, c);
  }

  ghost function Newest(entries: Entries, c: Id): (s: Slot)
    requires HasEntry(entries, c)
    ensures IsNewest(entries, s, c)
  {
    NewestExists(entries, c);
    var s :| IsNewest(entries, s, c); s
  }

  lemma NewestIs(entries: Entries, s: Slot, c: Id)
    requires IsNewest(entries, s, c)
    ensures HasEntry(entries, c) && Newest(entries, c) == s
  {}

  /** The children the current branch was asked to replay, if its reset named any. */
  function Forced(g: Log): Option<set<Id>> {
    if g.latestBranch in g.points && g.latestBranch in g.forced then Some(g.forced[g.latestBranch]) else None
  }

  // ---------------------------------------------------------------- resolving children

  /** Spawn keys after the triggers of one request: the first to use a key decides its child. */
  function SpawnedAfter(spawned: map<Key, Id>, ts: seq<Trigger>): map<Key, Id> {
    if ts == [] then spawned else
      var m, t := SpawnedAfter(spawned, ts[..|ts| - 1]), ts[|ts| - 1];
      if t.key.Some? && t.key.value !in m then m[t.key.value := t.candidate] else m
  }

  datatype Verdict = Reuse(child: Id) | Place(child: Id, replayed: bool)

  /** An untouched child of a partial replay: its result is handed back although its entry is not shown. */
  ghost predicate KeepsOrphan(g: Log, c: Id, parentReExecuted: bool) {
    && Forced(g).Some?
    && !(c in Forced(g).value || parentReExecuted)
    && HasEntry(g.entries, c)
    && g.entries[Newest(g.entries, c)].satisfied
  }

  /** What happens to a trigger whose key was known before it. */
  ghost function KnownVerdict(g: Log, t: Trigger, c: Id): Verdict
    requires Valid(g)
  {
    if Live(g, c) then Reuse(c)
    else if !HasEntry(g.entries, c) || !t.replayOrphans then Place(t.replacement, false)
    else if KeepsOrphan(g, c, t.parentReExecuted) then Reuse(c)
    else Place(c, g.entries[Newest(g.entries, c)].triggered)
  }

  ghost function VerdictAt(g: Log, ts: seq<Trigger>, k: nat): Verdict
    requires Valid(g) && k < |ts|
  {
    var t, before := ts[k], SpawnedAfter(g.spawned, ts[..k]);
    if t.key.None? || t.key.value !in before then Place(t.candidate, false)
    else KnownVerdict(g, t, before[t.key.value])
  }

  /** How many of the first `k` triggers take a node. */
  ghost function Offset(g: Log, ts: seq<Trigger>, k: nat): nat
    requires Valid(g) && k <= |ts|
  {
    if k == 0 then 0 else Offset(g, ts, k - 1) + (if VerdictAt(g, ts, k - 1).Place? then 1 else 0)
  }

  ghost function RunOpt(g: Log, ts: seq<Trigger>, k: nat): Opt
    requires Valid(g) && k < |ts|
  {
    var t, v := ts[k], VerdictAt(g, ts, k);
    if v.Reuse? then Skip(v.child, t.idem, t.byIndex, t.dagStep)
    else
      var e := Entry(RunKind, t.idem, Some(v.child), t.terminal, v.replayed);
      Put(At(g, g.latestNode + 1 + Offset(g, ts, k)), e, t.dagStep)
  }

  ghost function Plan(g: Log, r: Request): seq<Opt>
    requires Valid(g) && !r.Unsupported?
  {
    var base := g.latestNode + 1;
    match r
    case Wait(idem) => [Put(At(g, base), Entry(WaitKind, idem, None, false, false), false)]
    case Memo(idem, hasPayload) => [Put(At(g, base), Entry(MemoKind, idem, None, hasPayload, false), false)]
    case Run(ts) => seq(|ts|, k requires 0 <= k < |ts| => RunOpt(g, ts, k))
  }

  // ---------------------------------------------------------------- get or create

  predicate Matches(o: Opt, e: Entry) { o.dagStep || (if o.Put? then o.entry.idem else o.idem) == e.idem }

  /** Every slot that is already filled holds an entry for the same call. */
  predicate Deterministic(entries: Entries, opts: seq<Opt>) {
    forall k | 0 <= k < |opts| && opts[k].Put? && opts[k].slot in entries :: Matches(opts[k], entries[opts[k].slot])
  }

  function EntriesAfter(entries: Entries, opts: seq<Opt>): Entries {
    if opts == [] then entries else
      var m, o := EntriesAfter(entries, opts[..|opts| - 1]), opts[|opts| - 1];
      if o.Put? && o.slot !in entries then m[o.slot := o.entry] else m
  }

  /** The children asked for have an entry. */
  ghost predicate SkipsFound(entries: Entries, opts: seq<Opt>) {
    forall k | 0 <= k < |opts| && opts[k].Skip? :: HasEntry(entries, opts[k].child)
  }

  /** Where the inputs of a reused child are checked, they agree. */
  ghost predicate SkipsAgree(entries: Entries, opts: seq<Opt>)
    requires SkipsFound(entries, opts)
  {
    forall k | 0 <= k < |opts| && opts[k].Skip? && opts[k].checked ::
      Matches(opts[k], entries[Newest(entries, opts[k].child)])
  }

  ghost function ResultOf(entries: Entries, after: Entries, o: Opt): Result
    requires o.Skip? ==> HasEntry(after, o.child)
  {
    if o.Skip? then Result(Newest(after, o.child), true) else Result(o.slot, o.slot in entries)
  }

  ghost function Results(entries: Entries, opts: seq<Opt>): seq<Result>
    requires SkipsFound(EntriesAfter(entries, opts), opts)
  {
    var after := EntriesAfter(entries, opts);
    seq(|opts|, k requires 0 <= k < |opts| => ResultOf(entries, after, opts[k]))
  }

  function MaxNode(start: nat, results: seq<Result>): nat {
    if results == [] then start else
      var m, last := MaxNode(start, results[..|results| - 1]), results[|results| - 1];
      if last.slot.node > m then last.slot.node else m
  }

  /** `n` is the greatest of `start` and the nodes returned. */
  ghost predicate IsMax(n: nat, start: nat, results: seq<Result>) {
    && start <= n && (forall x | x in results :: x.slot.node <= n)
    && (n == start || exists x | x in results :: x.slot.node == n)
  }

  lemma {:induction false} MaxNodeIsMax(start: nat, results: seq<Result>)
    ensures IsMax(MaxNode(start, results), start, results)
  {
    if results != [] {
      var n := |results| - 1;
      MaxNodeIsMax(start, results[..n]);
      assert results == results[..n] + [results[n]];
      assert results[n] in results;
    }
  }

  /** One request of the current invocation. */
  ghost function Append(g: Log, r: Request): Outcome
    requires Valid(g)
  {
    if r.Unsupported? then Failed(g, UnsupportedKind) else
      var h := if r.Run? then g.(spawned := SpawnedAfter(g.spawned, r.triggers)) else g;
      var opts := Plan(g, r);
      var after := EntriesAfter(g.entries, opts);
      if !Deterministic(g.entries, opts) then Failed(h, NonDeterminism)
      else if !SkipsFound(after, opts) then Fatal(EntryNotFound)
      else if !SkipsAgree(after, opts) then Fatal(ReusedInputsDiffer)
      else
        var results := Results(g.entries, opts);
        Done(h.(entries := after, latestNode := MaxNode(g.latestNode, results)), results)
  }

  /** A request names the invocation it belongs to; any other than the current one is turned away. */
  ghost function Serve(g: Log, invocation: int, r: Request): Outcome
    requires Valid(g)
  {
    if invocation != g.invocation then Failed(g, StaleInvocation) else Append(g, r)
  }

  function Restart(g: Log): Log { g.(latestNode := 0, invocation := g.invocation + 1) }
}
