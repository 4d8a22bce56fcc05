/**
 What one successful request leaves behind: which entries and keys are new, whose children they belong to,
 and how a log grows while it is not reset.
 */
module RequestEffects {
  import opened DurableLog
  import opened Options

  // ---------------------------------------------------------------- entries and keys after a request

  lemma {:induction false} AfterKeeps(entries: Entries, opts: seq<Opt>, s: Slot)
    requires s in entries
    ensures s in EntriesAfter(entries, opts) && EntriesAfter(entries, opts)[s] == entries[s]
  {
    if opts != [] {
      AfterKeeps(entries, opts[..|opts| - 1], s);
    }
  }

  /** Where an entry that was not there before comes from. */
  lemma {:induction false} AfterComesFrom(entries: Entries, opts: seq<Opt>, s: Slot) returns (k: nat)
    requires s in EntriesAfter(entries, opts) && s !in entries
    ensures k < |opts| && opts[k].Put? && opts[k].slot == s && EntriesAfter(entries, opts)[s] == opts[k].entry
  {
    var n := |opts| - 1;
    if opts[n].Put? && opts[n].slot == s {
      k := n;
    } else {
      k := AfterComesFrom(entries, opts[..n], s);
    }
  }

  ghost predicate DistinctPuts(opts: seq<Opt>) {
    forall j, k | 0 <= j < k < |opts| && opts[j].Put? && opts[k].Put? :: opts[j].slot != opts[k].slot
  }

  lemma {:induction false} AfterHas(entries: Entries, opts: seq<Opt>, k: nat)
    requires k < |opts| && opts[k].Put?
    ensures opts[k].slot in EntriesAfter(entries, opts)
  {
    var n := |opts| - 1;
    if opts[k].slot in entries {
      AfterKeeps(entries, opts, opts[k].slot);
    } else if k < n {
      AfterHas(entries, opts[..n], k);
    }
  }

  lemma AfterPuts(entries: Entries, opts: seq<Opt>, k: nat)
    requires k < |opts| && opts[k].Put? && opts[k].slot !in entries && DistinctPuts(opts)
    ensures opts[k].slot in EntriesAfter(entries, opts) && EntriesAfter(entries, opts)[opts[k].slot] == opts[k].entry
  {
    AfterHas(entries, opts, k);
    var j := AfterComesFrom(entries, opts, opts[k].slot);
  }

  lemma {:induction false} NothingPut(entries: Entries, opts: seq<Opt>)
    requires forall k | 0 <= k < |opts| && opts[k].Put? :: opts[k].slot in entries
    ensures EntriesAfter(entries, opts) == entries
  {
    if opts != [] {
      NothingPut(entries, opts[..|opts| - 1]);
    }
  }

  lemma {:induction false} KeysStay(spawned: map<Key, Id>, ts: seq<Trigger>, key: Key)
    requires key in spawned
    ensures key in SpawnedAfter(spawned, ts) && SpawnedAfter(spawned, ts)[key] == spawned[key]
  {
    if ts != [] {
      KeysStay(spawned, ts[..|ts| - 1], key);
    }
  }

  lemma {:induction false} KeyIsKnown(spawned: map<Key, Id>, ts: seq<Trigger>, k: nat)
    requires k < |ts| && ts[k].key.Some?
    ensures ts[k].key.value in SpawnedAfter(spawned, ts)
  {
    if k < |ts| - 1 {
      KeyIsKnown(spawned, ts[..|ts| - 1], k);
    }
  }

  /** No earlier trigger of the request uses the key of trigger `k`. */
  ghost predicate FirstUse(ts: seq<Trigger>, k: nat)
    requires k < |ts|
  {
    forall j | 0 <= j < k :: ts[j].key != ts[k].key
  }

  /** A key that was not known before gets the child its first trigger proposes. */
  lemma {:induction false} KeyComesFrom(spawned: map<Key, Id>, ts: seq<Trigger>, key: Key) returns (k: nat)
    requires key in SpawnedAfter(spawned, ts) && key !in spawned
    ensures k < |ts| && ts[k].key == Some(key) && SpawnedAfter(spawned, ts)[key] == ts[k].candidate && FirstUse(ts, k)
  {
    var n := |ts| - 1;
    if key in SpawnedAfter(spawned, ts[..n]) {
      k := KeyComesFrom(spawned, ts[..n], key);
      assert forall j | 0 <= j < k :: ts[..n][j] == ts[j];
    } else {
      k := n;
      forall j | 0 <= j < n ensures ts[j].key != Some(key) {
        if ts[j].key == Some(key) {
          KeyIsKnown(spawned, ts[..n], j);
        }
      }
    }
  }

  /** What the log and the earlier triggers of the request know of a trigger's key. */
  lemma KeyBefore(g: Log, ts: seq<Trigger>, k: nat)
    requires FreshIds(g, ts) && k < |ts| && ts[k].key.Some?
    ensures var before, key := SpawnedAfter(g.spawned, ts[..k]), ts[k].key.value;
      if key in g.spawned then key in before && before[key] == g.spawned[key]
      else (key in before <==> !FirstUse(ts, k)) && (key in before ==> Unused(g, before[key]))
  {
    var before, key := SpawnedAfter(g.spawned, ts[..k]), ts[k].key.value;
    if key in g.spawned {
      KeysStay(g.spawned, ts[..k], key);
    } else if key in before {
      var j := KeyComesFrom(g.spawned, ts[..k], key);
      assert ts[j].key == ts[k].key && Unused(g, ts[j].candidate);
    } else if !FirstUse(ts, k) {
      var j :| 0 <= j < k && ts[j].key == ts[k].key;
      KeyIsKnown(g.spawned, ts[..k], j);
    }
  }

  lemma NewKeyGetsCandidate(spawned: map<Key, Id>, ts: seq<Trigger>, k: nat)
    requires k < |ts| && ts[k].key.Some? && ts[k].key.value !in spawned && FirstUse(ts, k)
    ensures ts[k].key.value in SpawnedAfter(spawned, ts)
    ensures SpawnedAfter(spawned, ts)[ts[k].key.value] == ts[k].candidate
  {
    KeyIsKnown(spawned, ts, k);
    var j := KeyComesFrom(spawned, ts, ts[k].key.value);
    assert ts[j].key == ts[k].key;
  }

  // ---------------------------------------------------------------- the slots of one request

  lemma {:induction false} OffsetGrows(g: Log, ts: seq<Trigger>, j: nat, k: nat)
    requires Valid(g) && j < k <= |ts|
    ensures Offset(g, ts, j) + (if VerdictAt(g, ts, j).Place? then 1 else 0) <= Offset(g, ts, k)
    decreases k
  {
    if j < k - 1 {
      OffsetGrows(g, ts, j, k - 1);
    }
  }

  lemma PlanIsDistinct(g: Log, ts: seq<Trigger>)
    requires Valid(g)
    ensures DistinctPuts(Plan(g, Run(ts)))
  {
    var opts := Plan(g, Run(ts));
    forall j, k | 0 <= j < k < |opts| && opts[j].Put? && opts[k].Put? ensures opts[j].slot != opts[k].slot {
      assert opts[j] == RunOpt(g, ts, j) && opts[k] == RunOpt(g, ts, k);
      OffsetGrows(g, ts, j, k);
    }
  }

  // ---------------------------------------------------------------- ids that have not been seen

  ghost predicate Unused(g: Log, id: Id) {
    (forall k | k in g.spawned :: g.spawned[k] != id) && !HasEntry(g.entries, id)
  }

  /** The ids a request brings are new. */
  ghost predicate FreshIds(g: Log, ts: seq<Trigger>) {
    && (forall k {:trigger ts[k].candidate} | 0 <= k < |ts| :: Unused(g, ts[k].candidate))
    && (forall k {:trigger ts[k].replacement} | 0 <= k < |ts| :: Unused(g, ts[k].replacement))
    && DistinctIds(ts)
  }

  ghost predicate DistinctIds(ts: seq<Trigger>) {
    && (forall j, k {:trigger ts[j].candidate, ts[k].candidate} | 0 <= j < k < |ts| ::
          ts[j].candidate != ts[k].candidate)
    && (forall j, k {:trigger ts[j].replacement, ts[k].replacement} | 0 <= j < k < |ts| ::
          ts[j].replacement != ts[k].replacement)
    && (forall j, k {:trigger ts[j].candidate, ts[k].replacement} | 0 <= j < |ts| && 0 <= k < |ts| ::
          ts[j].candidate != ts[k].replacement)
  }

  // ---------------------------------------------------------------- what can happen to a trigger

  /** The child of `c` has entries, and the log shows none of them. */
  ghost predicate Hidden(g: Log, c: Id)
    requires Valid(g)
  {
    !Live(g, c) && HasEntry(g.entries, c)
  }

  /** The trigger's key is known and its child's entry is handed back. */
  ghost predicate Reuses(g: Log, t: Trigger)
    requires Valid(g)
  {
    && t.key.Some? && t.key.value in g.spawned
    && var c := g.spawned[t.key.value];
       Live(g, c) || (t.replayOrphans && KeepsOrphan(g, c, t.parentReExecuted))
  }

  /** The child's entries are hidden and it is to be replayed in place. */
  ghost predicate InPlace(g: Log, t: Trigger)
    requires Valid(g)
  {
    && t.key.Some? && t.key.value in g.spawned
    && Hidden(g, g.spawned[t.key.value]) && t.replayOrphans && !Reuses(g, t)
  }

  ghost predicate NewKey(g: Log, t: Trigger) { t.key.Some? && t.key.value !in g.spawned }

  ghost function SlotOf(g: Log, ts: seq<Trigger>, k: nat): Slot
    requires Valid(g) && k < |ts|
  {
    At(g, g.latestNode + 1 + Offset(g, ts, k))
  }

  /**
   What happens to a trigger. Whether it reuses a child depends on the log alone: an earlier trigger of the
   same request with the same new key does not make it find that child.
   */
  lemma VerdictCases(g: Log, ts: seq<Trigger>, k: nat)
    requires Valid(g) && FreshIds(g, ts) && k < |ts|
    ensures var t, v := ts[k], VerdictAt(g, ts, k);
      && (v.Reuse? <==> Reuses(g, t))
      && v.child == if t.key.None? || (NewKey(g, t) && FirstUse(ts, k)) then t.candidate
                    else if Reuses(g, t) || InPlace(g, t) then g.spawned[t.key.value]
                    else t.replacement
  {
    if ts[k].key.Some? {
      KeyBefore(g, ts, k);
    }
  }

  /** A child that is placed is new to the log, or it has entries. */
  lemma PlacedChild(g: Log, ts: seq<Trigger>, k: nat)
    requires Valid(g) && k < |ts| && VerdictAt(g, ts, k).Place?
    ensures var c := VerdictAt(g, ts, k).child;
      c == ts[k].candidate || c == ts[k].replacement || HasEntry(g.entries, c)
  {}

  /** A known child is placed only by an in-place replay of a trigger with its key. */
  lemma PlacedKnownChild(g: Log, ts: seq<Trigger>, k: nat, key: Key)
    requires Valid(g) && FreshIds(g, ts) && k < |ts| && key in g.spawned
    requires VerdictAt(g, ts, k).Place? && VerdictAt(g, ts, k).child == g.spawned[key]
    ensures ts[k].key == Some(key) && InPlace(g, ts[k])
  {
    assert Unused(g, ts[k].candidate) && Unused(g, ts[k].replacement);
    VerdictCases(g, ts, k);
  }

  // ---------------------------------------------------------------- the entries of a successful request

  ghost predicate Appended(g: Log, ts: seq<Trigger>, g': Log) {
    Valid(g) && FreshIds(g, ts) && Append(g, Run(ts)).Done? && g' == Append(g, Run(ts)).log
  }

  lemma NewEntryIsFrom(g: Log, ts: seq<Trigger>, g': Log, s: Slot) returns (k: nat)
    requires Appended(g, ts, g') && s in g'.entries && s !in g.entries
    ensures k < |ts| && VerdictAt(g, ts, k).Place? && s == SlotOf(g, ts, k)
    ensures g'.entries[s].child == Some(VerdictAt(g, ts, k).child) && g'.entries[s].idem == ts[k].idem
  {
    var opts := Plan(g, Run(ts));
    k := AfterComesFrom(g.entries, opts, s);
    assert opts[k] == RunOpt(g, ts, k);
  }

  ghost predicate SameCall(t: Trigger, e: Entry) { t.dagStep || t.idem == e.idem }

  lemma PlacedAt(g: Log, ts: seq<Trigger>, g': Log, k: nat)
    requires Appended(g, ts, g') && k < |ts| && VerdictAt(g, ts, k).Place?
    ensures SlotOf(g, ts, k) in g'.entries && SameCall(ts[k], g'.entries[SlotOf(g, ts, k)])
    ensures SlotOf(g, ts, k) !in g.entries ==>
      g'.entries[SlotOf(g, ts, k)].child == Some(VerdictAt(g, ts, k).child)
  {
    var opts := Plan(g, Run(ts));
    assert opts[k] == RunOpt(g, ts, k);
    PlanIsDistinct(g, ts);
    if SlotOf(g, ts, k) in g.entries {
      AfterKeeps(g.entries, opts, SlotOf(g, ts, k));
    } else {
      AfterPuts(g.entries, opts, k);
    }
  }

  lemma OldEntryStays(g: Log, ts: seq<Trigger>, g': Log, s: Slot)
    requires Appended(g, ts, g') && s in g.entries
    ensures s in g'.entries && g'.entries[s] == g.entries[s]
  {
    AfterKeeps(g.entries, Plan(g, Run(ts)), s);
  }

  /** A known child gains an entry only by an in-place replay of a trigger with its key. */
  lemma KnownChildGains(g: Log, ts: seq<Trigger>, g': Log, key: Key, s: Slot) returns (k: nat)
    requires Appended(g, ts, g') && key in g.spawned
    requires s !in g.entries && ChildAt(g'.entries, s, g.spawned[key])
    ensures k < |ts| && ts[k].key == Some(key) && InPlace(g, ts[k]) && s == SlotOf(g, ts, k)
  {
    k := NewEntryIsFrom(g, ts, g', s);
    PlacedKnownChild(g, ts, k, key);
  }

  /** A proposed child gains an entry only at its own trigger's slot. */
  lemma CandidateGains(g: Log, ts: seq<Trigger>, g': Log, k: nat, s: Slot)
    requires Appended(g, ts, g') && k < |ts| && ChildAt(g'.entries, s, ts[k].candidate)
    ensures s !in g.entries && s == SlotOf(g, ts, k) && VerdictAt(g, ts, k).child == ts[k].candidate
  {
    assert Unused(g, ts[k].candidate);
    if s in g.entries {
      OldEntryStays(g, ts, g', s);
      assert ChildAt(g.entries, s, ts[k].candidate);
    }
    var j := NewEntryIsFrom(g, ts, g', s);
    PlacedChild(g, ts, j);
  }

  lemma SameFile(g: Log, ts: seq<Trigger>, g': Log)
    requires Appended(g, ts, g')
    ensures g'.points == g.points && g'.latestBranch == g.latestBranch && g'.forced == g.forced
    ensures g'.spawned == SpawnedAfter(g.spawned, ts)
  {}

  /** Distinct keys have distinct children. */
  lemma SpawnedDiffer(g: Log, ts: seq<Trigger>, a: Key, b: Key)
    requires Valid(g) && FreshIds(g, ts) && a != b
    requires a in SpawnedAfter(g.spawned, ts) && b in SpawnedAfter(g.spawned, ts)
    ensures SpawnedAfter(g.spawned, ts)[a] != SpawnedAfter(g.spawned, ts)[b]
  {
    if a in g.spawned {
      KeysStay(g.spawned, ts, a);
      if b in g.spawned {
        KeysStay(g.spawned, ts, b);
      } else {
        var j := KeyComesFrom(g.spawned, ts, b);
        assert Unused(g, ts[j].candidate);
      }
    } else {
      var i := KeyComesFrom(g.spawned, ts, a);
      assert Unused(g, ts[i].candidate);
      if b in g.spawned {
        KeysStay(g.spawned, ts, b);
      } else {
        var j := KeyComesFrom(g.spawned, ts, b);
      }
    }
  }

  /** A successful request keeps the log valid, whatever keys it repeats. */
  lemma AppendedIsValid(g: Log, ts: seq<Trigger>, g': Log)
    requires Appended(g, ts, g')
    ensures Valid(g')
  {
    forall s | s in g'.entries ensures 0 <= s.node {
      if s !in g.entries {
        var k := NewEntryIsFrom(g, ts, g', s);
      }
    }
    forall a, b | a in g'.spawned && b in g'.spawned && a != b ensures g'.spawned[a] != g'.spawned[b] {
      SpawnedDiffer(g, ts, a, b);
    }
  }

  // ---------------------------------------------------------------- growth

  ghost predicate SameUpToMarks(e: Entry, e': Entry) {
    && e'.kind == e.kind && e'.idem == e.idem && e'.child == e.child
    && (e.satisfied ==> e'.satisfied) && (e.triggered ==> e'.triggered)
  }

  ghost predicate Gains(g: Log, h: Log, c: Id, s: Slot) { ChildAt(h.entries, s, c) && s !in g.entries }

  /**
   How a log may change while it is not reset: keys keep their children, entries are only marked, new ones
   are shown, and of the known children only hidden ones gain any.
   */
  ghost predicate Grows(g: Log, h: Log) {
    && Valid(g) && Valid(h)
    && h.points == g.points && h.latestBranch == g.latestBranch && h.forced == g.forced
    && (forall k | k in g.spawned :: k in h.spawned && h.spawned[k] == g.spawned[k])
    && (forall s | s in g.entries :: s in h.entries && SameUpToMarks(g.entries[s], h.entries[s]))
    && (forall s | s in h.entries && s !in g.entries :: s == At(h, s.node))
    && (forall k, s | k in g.spawned && Gains(g, h, g.spawned[k], s) :: Hidden(g, g.spawned[k]))
  }

  lemma SameAt(g: Log, h: Log, node: int)
    requires Grows(g, h) && 0 <= node
    ensures At(h, node) == At(g, node)
  {}

  lemma LiveStays(g: Log, h: Log, c: Id)
    requires Grows(g, h) && Live(g, c)
    ensures Live(h, c)
  {
    var s :| ChildAt(g.entries, s, c) && s == At(g, s.node);
    SameAt(g, h, s.node);
    assert ChildAt(h.entries, s, c);
  }

  lemma GrowsOn(a: Log, b: Log, c: Log)
    requires Grows(a, b) && Grows(b, c)
    ensures Grows(a, c)
  {
    forall s | s in c.entries && s !in a.entries ensures s == At(c, s.node) {
      if s in b.entries {
        SameAt(b, c, s.node);
      }
    }
    forall k, s | k in a.spawned && Gains(a, c, a.spawned[k], s) ensures Hidden(a, a.spawned[k]) {
      GainsOn(a, b, c, k, s);
    }
  }

  lemma GainsOn(a: Log, b: Log, c: Log, k: Key, s: Slot)
    requires Grows(a, b) && Grows(b, c) && k in a.spawned && Gains(a, c, a.spawned[k], s)
    ensures Hidden(a, a.spawned[k])
  {
    var id := a.spawned[k];
    if s in b.entries {
      assert Gains(a, b, id, s);
    } else {
      assert k in b.spawned && Gains(b, c, b.spawned[k], s);
      if Live(a, id) {
        LiveStays(a, b, id);
      }
      var x :| ChildAt(b.entries, x, id);
      assert ChildAt(a.entries, x, id) || Gains(a, b, id, x);
    }
  }

  lemma AppendedGrows(g: Log, ts: seq<Trigger>, g': Log)
    requires Appended(g, ts, g')
    ensures Grows(g, g')
  {
    AppendedIsValid(g, ts, g');
    SameFile(g, ts, g');
    forall k | k in g.spawned ensures k in g'.spawned && g'.spawned[k] == g.spawned[k] {
      KeysStay(g.spawned, ts, k);
    }
    forall s | s in g.entries ensures s in g'.entries && SameUpToMarks(g.entries[s], g'.entries[s]) {
      OldEntryStays(g, ts, g', s);
    }
    forall s | s in g'.entries && s !in g.entries ensures s == At(g', s.node) {
      NewIsShown(g, ts, g', s);
    }
    forall key, s | key in g.spawned && Gains(g, g', g.spawned[key], s) ensures Hidden(g, g.spawned[key]) {
      var k := KnownChildGains(g, ts, g', key, s);
    }
  }

  lemma NewIsShown(g: Log, ts: seq<Trigger>, g': Log, s: Slot)
    requires Appended(g, ts, g') && Valid(g') && s in g'.entries && s !in g.entries
    ensures s == At(g', s.node)
  {
    var k := NewEntryIsFrom(g, ts, g', s);
    SameFile(g, ts, g');
    SlotIsShown(g, ts, g', k);
  }

  lemma SlotIsShown(g: Log, ts: seq<Trigger>, g': Log, k: nat)
    requires Valid(g) && Valid(g') && g'.points == g.points && g'.latestBranch == g.latestBranch && k < |ts|
    ensures SlotOf(g, ts, k) == At(g', g.latestNode + 1 + Offset(g, ts, k)) == At(g', SlotOf(g, ts, k).node)
  {}

  // ---------------------------------------------------------------- claims

  /** The child of the trigger's key comes to own the slot the trigger lands on. */
  ghost predicate Claims(g: Log, ts: seq<Trigger>, k: nat)
    requires Valid(g) && k < |ts|
  {
    (InPlace(g, ts[k]) || (NewKey(g, ts[k]) && FirstUse(ts, k))) && SlotOf(g, ts, k) !in g.entries
  }

  /** Some trigger with the key claims its slot. */
  ghost predicate ClaimedKey(g: Log, ts: seq<Trigger>, key: Option<Key>)
    requires Valid(g)
  {
    exists j | 0 <= j < |ts| :: Claims(g, ts, j) && ts[j].key == key
  }

  lemma ClaimedChild(g: Log, ts: seq<Trigger>, k: nat)
    requires Valid(g) && FreshIds(g, ts) && k < |ts| && Claims(g, ts, k)
    ensures ts[k].key.value in SpawnedAfter(g.spawned, ts)
    ensures VerdictAt(g, ts, k).Place?
    ensures SpawnedAfter(g.spawned, ts)[ts[k].key.value] == VerdictAt(g, ts, k).child
  {
    VerdictCases(g, ts, k);
    if NewKey(g, ts[k]) {
      NewKeyGetsCandidate(g.spawned, ts, k);
    } else {
      KeysStay(g.spawned, ts, ts[k].key.value);
    }
  }

  /** The claimed slot is shown, and it is the key's child's. */
  lemma ClaimIsShown(g: Log, ts: seq<Trigger>, g': Log, k: nat)
    requires Appended(g, ts, g') && Valid(g') && k < |ts| && Claims(g, ts, k)
    ensures ts[k].key.value in g'.spawned && ChildAt(g'.entries, SlotOf(g, ts, k), g'.spawned[ts[k].key.value])
    ensures SlotOf(g, ts, k) == At(g', SlotOf(g, ts, k).node)
  {
    ClaimedChild(g, ts, k);
    PlacedAt(g, ts, g', k);
    SameFile(g, ts, g');
    SlotIsShown(g, ts, g', k);
  }

  lemma ShownMeansReused(g: Log, t: Trigger, s: Slot)
    requires Valid(g) && t.key.Some? && t.key.value in g.spawned
    requires ChildAt(g.entries, s, g.spawned[t.key.value]) && s == At(g, s.node)
    ensures Reuses(g, t)
  {}

  /** The child of a key gains an entry only where a trigger with that key claims it. */
  lemma GainIsClaim(g: Log, ts: seq<Trigger>, g': Log, key: Key, s: Slot) returns (k: nat)
    requires Appended(g, ts, g') && key in g'.spawned && s !in g.entries && ChildAt(g'.entries, s, g'.spawned[key])
    ensures k < |ts| && ts[k].key == Some(key) && Claims(g, ts, k) && s == SlotOf(g, ts, k)
  {
    SameFile(g, ts, g');
    if key in g.spawned {
      KeysStay(g.spawned, ts, key);
      k := KnownChildGains(g, ts, g', key, s);
    } else {
      k := KeyComesFrom(g.spawned, ts, key);
      CandidateGains(g, ts, g', k, s);
    }
  }

  /** If its entries do not change, a child is reused afterwards exactly when it was. */
  lemma SameEntriesSameReuse(g: Log, g': Log, t: Trigger)
    requires Valid(g) && Valid(g') && t.key.Some? && t.key.value in g.spawned
    requires g'.points == g.points && g'.latestBranch == g.latestBranch && g'.forced == g.forced
    requires t.key.value in g'.spawned && g'.spawned[t.key.value] == g.spawned[t.key.value]
    requires forall s ::
      ChildAt(g'.entries, s, g.spawned[t.key.value]) <==> ChildAt(g.entries, s, g.spawned[t.key.value])
    requires forall s | s in g.entries :: s in g'.entries && g'.entries[s] == g.entries[s]
    ensures Reuses(g', t) <==> Reuses(g, t)
  {
    var c := g.spawned[t.key.value];
    if HasEntry(g.entries, c) {
      NewestIs(g'.entries, Newest(g.entries, c), c);
    }
  }

  /** A new key that no trigger claims a slot for has a child without entries. */
  lemma UnclaimedNewKey(g: Log, ts: seq<Trigger>, g': Log, t: Trigger)
    requires Appended(g, ts, g') && Valid(g') && NewKey(g, t) && t.key.value in g'.spawned && !ClaimedKey(g, ts, t.key)
    ensures !Reuses(g', t)
  {
    var c := g'.spawned[t.key.value];
    SameFile(g, ts, g');
    var f := KeyComesFrom(g.spawned, ts, t.key.value);
    forall s ensures !ChildAt(g'.entries, s, c) {
      if ChildAt(g'.entries, s, c) {
        CandidateGains(g, ts, g', f, s);
        assert Claims(g, ts, f);
      }
    }
  }

  /** A known key that no trigger claims a slot for keeps the entries it had. */
  lemma UnclaimedKnownKey(g: Log, ts: seq<Trigger>, g': Log, t: Trigger)
    requires Appended(g, ts, g') && Valid(g') && t.key.Some? && t.key.value in g.spawned && !ClaimedKey(g, ts, t.key)
    ensures Reuses(g', t) <==> Reuses(g, t)
  {
    SameFile(g, ts, g');
    KeysStay(g.spawned, ts, t.key.value);
    forall s
      ensures ChildAt(g'.entries, s, g.spawned[t.key.value]) <==> ChildAt(g.entries, s, g.spawned[t.key.value])
      ensures s in g.entries ==> s in g'.entries && g'.entries[s] == g.entries[s]
    {
      if s in g.entries {
        OldEntryStays(g, ts, g', s);
      } else if ChildAt(g'.entries, s, g.spawned[t.key.value]) {
        var j := GainIsClaim(g, ts, g', t.key.value, s);
      }
    }
    SameEntriesSameReuse(g, g', t);
  }

  lemma ClaimedIsReused(g: Log, ts: seq<Trigger>, g': Log, t: Trigger)
    requires Appended(g, ts, g') && Valid(g') && ClaimedKey(g, ts, t.key)
    ensures Reuses(g', t)
  {
    var j :| 0 <= j < |ts| && Claims(g, ts, j) && ts[j].key == t.key;
    ClaimIsShown(g, ts, g', j);
    ShownMeansReused(g', t, SlotOf(g, ts, j));
  }

  /** Afterwards the triggers reused are those that were, and those for whose key a slot was claimed. */
  lemma ReusedAfter(g: Log, ts: seq<Trigger>, g': Log, k: nat)
    requires Appended(g, ts, g') && Valid(g') && k < |ts|
    ensures Reuses(g', ts[k]) <==> Reuses(g, ts[k]) || ClaimedKey(g, ts, ts[k].key)
  {
    var t := ts[k];
    if ClaimedKey(g, ts, t.key) {
      ClaimedIsReused(g, ts, g', t);
    } else if NewKey(g, t) {
      KeyIsKnown(g.spawned, ts, k);
      UnclaimedNewKey(g, ts, g', t);
    } else if t.key.Some? {
      UnclaimedKnownKey(g, ts, g', t);
    }
  }

  lemma ResultAt(g: Log, ts: seq<Trigger>, g': Log, k: nat)
    requires Appended(g, ts, g') && k < |ts|
    ensures k < |Append(g, Run(ts)).results|
    ensures var o, s := RunOpt(g, ts, k), Append(g, Run(ts)).results[k].slot;
      if o.Put? then s == SlotOf(g, ts, k)
      else IsNewest(g'.entries, s, o.child) && (ts[k].byIndex ==> SameCall(ts[k], g'.entries[s]))
  {
    var opts := Plan(g, Run(ts));
    assert opts[k] == RunOpt(g, ts, k);
  }
}
