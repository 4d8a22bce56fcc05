/**
 A reset may name the children to replay. This module says, on what a call is told, what the task then gets
 for a child whose entries the reset has hidden: its old result, or a new entry to run it again.
 */
module PartialReplay {
  import opened DurableLog
  import opened DurableReplay
  import opened EntriesWritten
  import opened Options
  import opened ReplayAfterReset
  import opened ReplayPasses
  import opened RequestEffects

  // ---------------------------------------------------------------- the calls after a reset

  lemma LeftGrows(g: Log, r: Request)
    requires Valid(g) && FreshRequest(g, r)
    ensures Grows(g, Left(g, r))
  {
    LeftIsValid(g, r);
    if Append(g, r).Done? {
      SuccessGrows(g, r, Slots(Append(g, r).results));
    } else if r.Run? && Append(g, r).Failed? {
      forall k | k in g.spawned ensures k in Left(g, r).spawned && Left(g, r).spawned[k] == g.spawned[k] {
        KeysStay(g.spawned, r.triggers, k);
      }
    }
  }

  lemma {:induction false} CallsGrow(start: Log, logs: seq<Log>, rs: seq<Request>, i: nat)
    requires Valid(start) && Calls(start, logs, rs) && i <= |rs|
    ensures Grows(start, logs[i])
  {
    if i == 0 {
      MarksGrow(start, logs[0]);
    } else {
      CallsGrow(start, logs, rs, i - 1);
      assert AnyStepAt(logs, rs, i - 1);
      var left := Left(logs[i - 1], rs[i - 1]);
      LeftGrows(logs[i - 1], rs[i - 1]);
      MarksGrow(left, logs[i]);
      GrowsOn(logs[i - 1], left, logs[i]);
      GrowsOn(start, logs[i - 1], logs[i]);
    }
  }

  /** `h` is `g` some calls after a clean reset at `n` that named `forced`. */
  ghost predicate AfterReset(g: Log, n: int, forced: Option<set<Id>>, h: Log) {
    && Branched(g) && 0 <= n && CleanReset(g, n)
    && exists logs, rs :: Calls(ResetAt(g, n, At(g, n).branch, forced), logs, rs) && h == logs[|rs|]
  }

  // ---------------------------------------------------------------- orphans

  /** The key's child has entries, and the reset at `n` hides them all. */
  ghost predicate Orphaned(g: Log, n: int, key: Option<Key>)
    requires Valid(g)
  {
    && key.Some? && key.value in g.spawned
    && HasEntry(g.entries, g.spawned[key.value]) && !ShownBelow(g, g.spawned[key.value], n)
  }

  /** The child has the entries it had. */
  ghost predicate StillOrphaned(g: Log, h: Log, c: Id) {
    forall s | ChildAt(h.entries, s, c) :: ChildAt(g.entries, s, c)
  }

  /** The reset named children to replay, and neither this one nor its parent is among them; it had finished. */
  ghost predicate Untouched(h: Log, t: Trigger, c: Id, forced: Option<set<Id>>) {
    && forced.Some? && c !in forced.value && !t.parentReExecuted
    && exists s :: IsNewest(h.entries, s, c) && h.entries[s].satisfied
  }

  /** A reset leaves the set it was given with its branch, one without a set leaves none, and calls keep it. */
  lemma NamedByReset(g: Log, n: int, forced: Option<set<Id>>, h: Log)
    requires AfterReset(g, n, forced, h)
    ensures Valid(h) && Forced(h) == forced && OnNewBranch(h, n, g.latestBranch + 1)
    ensures Grows(ResetAt(g, n, At(g, n).branch, forced), h)
    ensures IsReset(g, ResetAt(g, n, At(g, n).branch, forced), n)
  {
    var start := ResetAt(g, n, At(g, n).branch, forced);
    StartIsReset(g, n, forced);
    var logs, rs :| Calls(start, logs, rs) && h == logs[|rs|];
    CallsGrow(start, logs, rs, |rs|);
    CallsStayOnBranch(start, logs, rs, n, g.latestBranch + 1, |rs|);
  }

  lemma OrphanIsHidden(g: Log, n: int, forced: Option<set<Id>>, h: Log, key: Key)
    requires AfterReset(g, n, forced, h) && Orphaned(g, n, Some(key)) && StillOrphaned(g, h, g.spawned[key])
    ensures Valid(h) && key in h.spawned && h.spawned[key] == g.spawned[key] && Hidden(h, h.spawned[key])
  {
    NamedByReset(g, n, forced, h);
    var start, c := ResetAt(g, n, At(g, n).branch, forced), g.spawned[key];
    ShownAfterReset(g, start, n, c);
    SameChild(start, h, c);
  }

  lemma OrphanIsReused(g: Log, n: int, forced: Option<set<Id>>, h: Log, t: Trigger)
    requires AfterReset(g, n, forced, h) && Orphaned(g, n, t.key) && StillOrphaned(g, h, g.spawned[t.key.value])
    ensures Valid(h) && t.key.value in h.spawned && h.spawned[t.key.value] == g.spawned[t.key.value]
    ensures Hidden(h, h.spawned[t.key.value])
    ensures Reuses(h, t) <==> t.replayOrphans && Untouched(h, t, h.spawned[t.key.value], forced)
  {
    NamedByReset(g, n, forced, h);
    OrphanIsHidden(g, n, forced, h, t.key.value);
    if x :| IsNewest(h.entries, x, g.spawned[t.key.value]) && h.entries[x].satisfied {
      NewestIs(h.entries, x, g.spawned[t.key.value]);
    }
  }

  /** The request succeeds at `h`, and its trigger `k` gets `x` in the log `h'`. */
  ghost predicate Told(h: Log, ts: seq<Trigger>, k: nat, h': Log, x: Result) {
    && Appended(h, ts, h') && k < |ts|
    && k < |Append(h, Run(ts)).results| && x == Append(h, Run(ts)).results[k]
  }

  /** The child is handed its old result: its newest entry, unless another trigger of the request adds one. */
  ghost predicate HandedBack(h: Log, ts: seq<Trigger>, k: nat, h': Log, x: Result, c: Id)
    requires k < |ts|
  {
    && x.existed && IsNewest(h'.entries, x.slot, c)
    && ((forall j | 0 <= j < |ts| && ts[j].key == ts[k].key :: j == k) ==> IsNewest(h.entries, x.slot, c))
  }

  /** The trigger gets an entry for `child` to run now; only below `n` may it land on one that is there. */
  ghost predicate RunsAgain(h: Log, t: Trigger, h': Log, x: Result, child: Id, n: int) {
    && (x.existed ==> x.slot.node < n)
    && x.slot in h'.entries
    && (!x.existed ==> x.slot !in h.entries && h'.entries[x.slot].child == Some(child))
    && (!x.existed ==> (h'.entries[x.slot].satisfied <==> t.terminal))
  }

  lemma HandedIsOld(h: Log, ts: seq<Trigger>, h': Log, k: nat, s: Slot)
    requires Appended(h, ts, h') && k < |ts| && Reuses(h, ts[k]) && IsNewest(h'.entries, s, h.spawned[ts[k].key.value])
    requires forall j | 0 <= j < |ts| && ts[j].key == ts[k].key :: j == k
    ensures IsNewest(h.entries, s, h.spawned[ts[k].key.value])
  {
    var c := h.spawned[ts[k].key.value];
    forall x | ChildAt(h'.entries, x, c) ensures ChildAt(h.entries, x, c) {
      if x !in h.entries {
        var j := KnownChildGains(h, ts, h', ts[k].key.value, x);
      } else {
        OldEntryStays(h, ts, h', x);
      }
    }
    forall x | ChildAt(h.entries, x, c) ensures AsNew(s, x) {
      OldEntryStays(h, ts, h', x);
    }
  }

  /** A slot the log shows is none of a hidden child's, and from the reset node on it is free. */
  lemma ShownSlot(h: Log, n: int, b: int, s: Slot, c: Id)
    requires OnNewBranch(h, n, b) && Hidden(h, c) && h.latestNode < s.node && s == At(h, s.node)
    ensures !ChildAt(h.entries, s, c) && (n <= s.node ==> s !in h.entries)
  {
    assert n <= s.node ==> s.branch == b;
  }

  lemma PlacedRunsAgain(h: Log, ts: seq<Trigger>, k: nat, h': Log, x: Result, n: int, b: int)
    requires OnNewBranch(h, n, b) && Told(h, ts, k, h', x) && !Reuses(h, ts[k])
    requires ts[k].key.Some? && ts[k].key.value in h.spawned && Hidden(h, h.spawned[ts[k].key.value])
    ensures RunsAgain(h, ts[k], h', x, if ts[k].replayOrphans then h.spawned[ts[k].key.value] else ts[k].replacement, n)
    ensures !ChildAt(h.entries, x.slot, h.spawned[ts[k].key.value])
  {
    PlacedIsAnswered(h, ts, h', k, x);
    ShownSlot(h, n, b, x.slot, h.spawned[ts[k].key.value]);
  }

  lemma PlacedIsNotHanded(h: Log, ts: seq<Trigger>, k: nat, h': Log, x: Result, c: Id)
    requires Told(h, ts, k, h', x) && !Reuses(h, ts[k]) && !ChildAt(h.entries, x.slot, c)
    ensures !HandedBack(h, ts, k, h', x, c)
  {
    PlacedIsAnswered(h, ts, h', k, x);
    if x.existed {
      OldEntryStays(h, ts, h', x.slot);
    }
  }

  /**
   After a clean reset and any calls, a trigger that replays orphans gets the old result of a child the reset
   has hidden exactly when the reset named children to replay, neither this one nor its parent is among them,
   and the child had finished. Otherwise it gets a new entry for the same child.
   */
  lemma OrphanIsKeptExactly(g: Log, n: int, forced: Option<set<Id>>, h: Log, ts: seq<Trigger>, k: nat, h': Log,
                            x: Result)
    requires AfterReset(g, n, forced, h) && Told(h, ts, k, h', x) && ts[k].replayOrphans
    requires Orphaned(g, n, ts[k].key) && StillOrphaned(g, h, g.spawned[ts[k].key.value])
    ensures var c := g.spawned[ts[k].key.value];
      && (HandedBack(h, ts, k, h', x, c) <==> Untouched(h, ts[k], c, forced))
      && (!Untouched(h, ts[k], c, forced) ==> RunsAgain(h, ts[k], h', x, c, n) && !ChildAt(h.entries, x.slot, c))
  {
    var c := g.spawned[ts[k].key.value];
    OrphanIsReused(g, n, forced, h, ts[k]);
    if Reuses(h, ts[k]) {
      TriggerIsAnswered(h, ts, h', k);
      if forall j | 0 <= j < |ts| && ts[j].key == ts[k].key :: j == k {
        HandedIsOld(h, ts, h', k, x.slot);
      }
    } else {
      NamedByReset(g, n, forced, h);
      PlacedRunsAgain(h, ts, k, h', x, n, g.latestBranch + 1);
      PlacedIsNotHanded(h, ts, k, h', x, c);
    }
  }

  /** A trigger that does not replay orphans gets a new child in place of one the reset has hidden. */
  lemma OrphanIsReplaced(g: Log, n: int, forced: Option<set<Id>>, h: Log, ts: seq<Trigger>, k: nat, h': Log, x: Result)
    requires AfterReset(g, n, forced, h) && Told(h, ts, k, h', x) && !ts[k].replayOrphans
    requires Orphaned(g, n, ts[k].key) && StillOrphaned(g, h, g.spawned[ts[k].key.value])
    ensures RunsAgain(h, ts[k], h', x, ts[k].replacement, n)
    ensures !HandedBack(h, ts, k, h', x, g.spawned[ts[k].key.value])
  {
    OrphanIsReused(g, n, forced, h, ts[k]);
    NamedByReset(g, n, forced, h);
    PlacedRunsAgain(h, ts, k, h', x, n, g.latestBranch + 1);
    PlacedIsNotHanded(h, ts, k, h', x, g.spawned[ts[k].key.value]);
  }

  lemma {:induction false} OnBranch(h: Log, node: int, n: int, b: int)
    requires OnNewBranch(h, n, b) && 0 <= node && n <= node
    ensures At(h, node) == Slot(node, b)
  {}

  lemma {:induction false} LaterSlot(h: Log, ts: seq<Trigger>, k: nat, j: nat, n: int, b: int)
    requires OnNewBranch(h, n, b) && k <= j < |ts| && VerdictAt(h, ts, k).Place? && n <= SlotOf(h, ts, k).node
    ensures SlotOf(h, ts, k).branch == b && SlotOf(h, ts, j).branch == b
    ensures SlotOf(h, ts, k).node <= SlotOf(h, ts, j).node
  {
    if k < j {
      OffsetGrows(h, ts, k, j);
    }
    OnBranch(h, h.latestNode + 1 + Offset(h, ts, k), n, b);
    OnBranch(h, h.latestNode + 1 + Offset(h, ts, j), n, b);
  }

  lemma OldOnesAreOlder(g: Log, h: Log, c: Id, s: Slot, y: Slot)
    requires Branched(g) && StillOrphaned(g, h, c) && ChildAt(h.entries, y, c) && s.branch == g.latestBranch + 1
    ensures AsNew(s, y)
  {
    assert ChildAt(g.entries, y, c);
  }

  /** The other entries of the child are older: from before the reset, or by a later trigger of the same request. */
  lemma {:induction false} OthersAreOlder(g: Log, n: int, h: Log, ts: seq<Trigger>, k: nat, h': Log, y: Slot)
    requires Branched(g) && OnNewBranch(h, n, g.latestBranch + 1) && Appended(h, ts, h') && k < |ts| && FirstUse(ts, k)
    requires ts[k].key.Some? && ts[k].key.value in h.spawned && StillOrphaned(g, h, h.spawned[ts[k].key.value])
    requires !Reuses(h, ts[k]) && n <= SlotOf(h, ts, k).node && ChildAt(h'.entries, y, h.spawned[ts[k].key.value])
    ensures AsNew(SlotOf(h, ts, k), y)
  {
    var c := h.spawned[ts[k].key.value];
    PlacedLands(h, ts, k);
    LaterSlot(h, ts, k, k, n, g.latestBranch + 1);
    if y in h.entries {
      OldEntryStays(h, ts, h', y);
      OldOnesAreOlder(g, h, c, SlotOf(h, ts, k), y);
    } else {
      var j := KnownChildGains(h, ts, h', ts[k].key.value, y);
      LaterSlot(h, ts, k, j, n, g.latestBranch + 1);
    }
  }

  /** A child that runs again from the reset node on is found at its new entry, at the first of them, from then on. */
  lemma RerunIsFound(g: Log, n: int, forced: Option<set<Id>>, h: Log, ts: seq<Trigger>, k: nat, h': Log, x: Result)
    requires AfterReset(g, n, forced, h) && Told(h, ts, k, h', x) && ts[k].replayOrphans && FirstUse(ts, k)
    requires Orphaned(g, n, ts[k].key) && StillOrphaned(g, h, g.spawned[ts[k].key.value])
    requires !Untouched(h, ts[k], g.spawned[ts[k].key.value], forced) && n <= x.slot.node
    ensures IsNewest(h'.entries, x.slot, g.spawned[ts[k].key.value])
  {
    var c := g.spawned[ts[k].key.value];
    OrphanIsReused(g, n, forced, h, ts[k]);
    NamedByReset(g, n, forced, h);
    PlacedRunsAgain(h, ts, k, h', x, n, g.latestBranch + 1);
    PlacedLands(h, ts, k);
    TriggerIsAnswered(h, ts, h', k);
    forall y | ChildAt(h'.entries, y, c) ensures AsNew(x.slot, y) {
      OthersAreOlder(g, n, h, ts, k, h', y);
    }
  }
}
