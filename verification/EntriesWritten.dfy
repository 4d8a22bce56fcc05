/**
 What a request writes and what it is told, from the log before it and the request alone: which entry each
 call gets, what a new entry says, and when the request is turned down.
 */
module EntriesWritten {
  import opened DurableLog
  import opened DurableReplay
  import opened Options
  import opened RequestEffects

  // ---------------------------------------------------------------- one run request

  /** The slot trigger `k` lands on if it takes a node: one node for each trigger before it that took one. */
  ghost function LandsOn(g: Log, ts: seq<Trigger>, k: nat): Slot
    requires Valid(g) && k < |ts|
  {
    At(g, g.latestNode + 1 + NodesTaken(g, ts, k))
  }

  /** The child a trigger that takes a node runs: its own if the key is new, the key's in place, or a replacement. */
  ghost function ChildFor(g: Log, ts: seq<Trigger>, k: nat): Id
    requires Valid(g) && k < |ts|
  {
    if ts[k].key.None? || (NewKey(g, ts[k]) && FirstUse(ts, k)) then ts[k].candidate
    else if InPlace(g, ts[k]) then g.spawned[ts[k].key.value]
    else ts[k].replacement
  }

  /**
   The entry of a trigger that takes a node: done at once only if its child is (cancelled or skipped), and
   triggered already only if the child replays in place and had been triggered.
   */
  ghost predicate EntryFor(g: Log, ts: seq<Trigger>, k: nat, e: Entry)
    requires Valid(g) && k < |ts|
  {
    && e.kind == RunKind && e.idem == ts[k].idem && e.child == Some(ChildFor(g, ts, k))
    && (e.satisfied <==> ts[k].terminal)
    && (e.triggered <==> InPlace(g, ts[k]) && g.entries[Newest(g.entries, ChildFor(g, ts, k))].triggered)
  }

  lemma {:induction false} OffsetIsNodesTaken(g: Log, ts: seq<Trigger>, k: nat)
    requires Valid(g) && FreshIds(g, ts) && k <= |ts|
    ensures Offset(g, ts, k) == NodesTaken(g, ts, k)
  {
    if k > 0 {
      OffsetIsNodesTaken(g, ts, k - 1);
      VerdictCases(g, ts, k - 1);
    }
  }

  /** What planning asks for trigger `k`. */
  lemma {:induction false} OptIs(g: Log, ts: seq<Trigger>, k: nat)
    requires Valid(g) && FreshIds(g, ts) && k < |ts|
    ensures var o := RunOpt(g, ts, k);
      if Reuses(g, ts[k]) then
        o == Skip(g.spawned[ts[k].key.value], ts[k].idem, ts[k].byIndex, ts[k].dagStep)
      else o.Put? && o.slot == LandsOn(g, ts, k) && EntryFor(g, ts, k, o.entry) && o.dagStep == ts[k].dagStep
  {
    VerdictCases(g, ts, k);
    OffsetIsNodesTaken(g, ts, k);
    if ts[k].key.Some? {
      KeyBefore(g, ts, k);
    }
  }

  /** What trigger `k` of a successful request gets, and what its entry says if it is new. */
  ghost predicate AnsweredFor(g: Log, ts: seq<Trigger>, k: nat, g': Log, x: Result)
    requires Valid(g) && k < |ts|
  {
    if Reuses(g, ts[k]) then x.existed && IsNewest(g'.entries, x.slot, g.spawned[ts[k].key.value])
    else
      && x == Result(LandsOn(g, ts, k), LandsOn(g, ts, k) in g.entries)
      && x.slot in g'.entries
      && (!x.existed ==> EntryFor(g, ts, k, g'.entries[x.slot]))
  }

  lemma {:induction false} TriggerIsAnswered(g: Log, ts: seq<Trigger>, g': Log, k: nat)
    requires Appended(g, ts, g') && k < |ts|
    ensures k < |Append(g, Run(ts)).results| && AnsweredFor(g, ts, k, g', Append(g, Run(ts)).results[k])
  {
    var opts := Plan(g, Run(ts));
    assert opts[k] == RunOpt(g, ts, k);
    OptIs(g, ts, k);
    if !Reuses(g, ts[k]) {
      PlanIsDistinct(g, ts);
      AfterHas(g.entries, opts, k);
      if opts[k].slot !in g.entries {
        AfterPuts(g.entries, opts, k);
      }
    }
  }

  lemma AtItself(g: Log, node: int)
    requires Valid(g) && 0 <= node
    ensures At(g, node).node == node && At(g, At(g, node).node) == At(g, node)
  {}

  lemma {:induction false} LandsShown(g: Log, ts: seq<Trigger>, k: nat)
    requires Valid(g) && k < |ts|
    ensures g.latestNode < LandsOn(g, ts, k).node && LandsOn(g, ts, k) == At(g, LandsOn(g, ts, k).node)
  {
    AtItself(g, g.latestNode + 1 + NodesTaken(g, ts, k));
  }

  /** The same for a trigger that takes a node: it lands above the latest node, where the log shows it. */
  lemma {:induction false} PlacedIsAnswered(g: Log, ts: seq<Trigger>, g': Log, k: nat, x: Result)
    requires Appended(g, ts, g') && k < |ts| && !Reuses(g, ts[k])
    requires k < |Append(g, Run(ts)).results| && x == Append(g, Run(ts)).results[k]
    ensures g.latestNode < x.slot.node && x.slot == At(g, x.slot.node)
    ensures x.slot in g'.entries && (x.existed <==> x.slot in g.entries)
    ensures !x.existed ==>
      g'.entries[x.slot].child == Some(ChildFor(g, ts, k)) && (g'.entries[x.slot].satisfied <==> ts[k].terminal)
  {
    TriggerIsAnswered(g, ts, g', k);
    LandsShown(g, ts, k);
  }

  lemma {:induction false} PlacedLands(g: Log, ts: seq<Trigger>, k: nat)
    requires Valid(g) && FreshIds(g, ts) && k < |ts|
    ensures SlotOf(g, ts, k) == LandsOn(g, ts, k) && (VerdictAt(g, ts, k).Place? <==> !Reuses(g, ts[k]))
  {
    VerdictCases(g, ts, k);
    OffsetIsNodesTaken(g, ts, k);
  }

  /** A new entry is the entry of a trigger that took its node. */
  lemma {:induction false} NewEntryHasTrigger(g: Log, ts: seq<Trigger>, g': Log, s: Slot) returns (k: nat)
    requires Appended(g, ts, g') && s in g'.entries && s !in g.entries
    ensures k < |ts| && !Reuses(g, ts[k]) && s == LandsOn(g, ts, k)
  {
    k := NewEntryIsFrom(g, ts, g', s);
    PlacedLands(g, ts, k);
  }

  /**
   A successful request answers every trigger, in order; it writes the entries of the triggers that took a
   free slot and no others, and it changes no entry, no key and nothing else that was there.
   */
  lemma RunWritesExactly(g: Log, ts: seq<Trigger>, g': Log)
    requires Appended(g, ts, g')
    ensures var results := Append(g, Run(ts)).results;
      && |results| == |ts|
      && (forall k | 0 <= k < |ts| :: AnsweredFor(g, ts, k, g', results[k]))
      && (forall s | s in g'.entries && s !in g.entries ::
            exists k | 0 <= k < |ts| :: !Reuses(g, ts[k]) && s == LandsOn(g, ts, k))
      && IsMax(g'.latestNode, g.latestNode, results)
    ensures forall s | s in g.entries :: s in g'.entries && g'.entries[s] == g.entries[s]
    ensures g' == g.(latestNode := g'.latestNode, entries := g'.entries, spawned := g'.spawned)
  {
    var results := Append(g, Run(ts)).results;
    forall k | 0 <= k < |ts| ensures AnsweredFor(g, ts, k, g', results[k]) {
      TriggerIsAnswered(g, ts, g', k);
    }
    forall s | s in g'.entries && s !in g.entries
      ensures exists k | 0 <= k < |ts| :: !Reuses(g, ts[k]) && s == LandsOn(g, ts, k)
    {
      var k := NewEntryHasTrigger(g, ts, g', s);
    }
    forall s | s in g.entries ensures s in g'.entries && g'.entries[s] == g.entries[s] {
      OldEntryStays(g, ts, g', s);
    }
    MaxNodeIsMax(g.latestNode, results);
  }

  /**
   The keys known after a request, whether it succeeds or not: those known before, with their children, and
   those its triggers use, each with the child its first trigger proposed.
   */
  lemma KeysExactly(g: Log, ts: seq<Trigger>, key: Key)
    requires Valid(g) && !Append(g, Run(ts)).Fatal?
    ensures var after := Append(g, Run(ts)).log.spawned;
      && (key in after <==> key in g.spawned || exists k | 0 <= k < |ts| :: ts[k].key == Some(key))
      && (key in g.spawned ==> after[key] == g.spawned[key])
      && (forall k | 0 <= k < |ts| && ts[k].key == Some(key) && key !in g.spawned && FirstUse(ts, k) ::
            after[key] == ts[k].candidate)
  {
    var after := SpawnedAfter(g.spawned, ts);
    if key in g.spawned {
      KeysStay(g.spawned, ts, key);
    } else if key in after {
      var k := KeyComesFrom(g.spawned, ts, key);
    }
    forall k | 0 <= k < |ts| && ts[k].key == Some(key) ensures key in after {
      KeyIsKnown(g.spawned, ts, k);
    }
    forall k | 0 <= k < |ts| && ts[k].key == Some(key) && key !in g.spawned && FirstUse(ts, k)
      ensures after[key] == ts[k].candidate
    {
      NewKeyGetsCandidate(g.spawned, ts, k);
    }
  }

  // ---------------------------------------------------------------- when a run request is turned down

  /** Trigger `k` takes a node and lands on the entry of another call. */
  ghost predicate Misplaced(g: Log, ts: seq<Trigger>, k: nat)
    requires Valid(g) && k < |ts|
  {
    !Reuses(g, ts[k]) && LandsOn(g, ts, k) in g.entries && !SameCall(ts[k], g.entries[LandsOn(g, ts, k)])
  }

  /** Trigger `j` gives the child of a known key a new entry at `s`. */
  ghost predicate AddsTo(g: Log, ts: seq<Trigger>, key: Key, s: Slot, j: nat)
    requires Valid(g) && j < |ts|
  {
    ts[j].key == Some(key) && InPlace(g, ts[j]) && s == LandsOn(g, ts, j) && s !in g.entries
  }

  /** The child of a known key has an entry for call `idem` at `s`, from before or by a trigger of the request. */
  ghost predicate HasCall(g: Log, ts: seq<Trigger>, key: Key, s: Slot, idem: Idem)
    requires Valid(g) && key in g.spawned
  {
    || (ChildAt(g.entries, s, g.spawned[key]) && g.entries[s].idem == idem)
    || exists j | 0 <= j < |ts| :: AddsTo(g, ts, key, s, j) && ts[j].idem == idem
  }

  /** Trigger `k` reuses its child, by position, and the child's newest entry is of another call. */
  ghost predicate Mismatched(g: Log, ts: seq<Trigger>, k: nat)
    requires Valid(g) && k < |ts|
  {
    && Reuses(g, ts[k]) && ts[k].byIndex && !ts[k].dagStep
    && exists s, idem :: HasCall(g, ts, ts[k].key.value, s, idem) && idem != ts[k].idem
         && forall x, i | HasCall(g, ts, ts[k].key.value, x, i) :: AsNew(s, x)
  }

  /** The entries a request would leave if nothing turned it down. */
  ghost function Proposed(g: Log, ts: seq<Trigger>): Entries
    requires Valid(g)
  {
    EntriesAfter(g.entries, Plan(g, Run(ts)))
  }

  lemma {:induction false} ProposedFrom(g: Log, ts: seq<Trigger>, key: Key, s: Slot)
    requires Valid(g) && FreshIds(g, ts) && key in g.spawned && ChildAt(Proposed(g, ts), s, g.spawned[key])
    ensures HasCall(g, ts, key, s, Proposed(g, ts)[s].idem)
  {
    var opts := Plan(g, Run(ts));
    if s in g.entries {
      AfterKeeps(g.entries, opts, s);
    } else {
      var j := AfterComesFrom(g.entries, opts, s);
      assert opts[j] == RunOpt(g, ts, j);
      OptIs(g, ts, j);
      assert Unused(g, ts[j].candidate) && Unused(g, ts[j].replacement);
      assert AddsTo(g, ts, key, s, j);
    }
  }

  lemma {:induction false} ProposedHas(g: Log, ts: seq<Trigger>, key: Key, s: Slot, idem: Idem)
    requires Valid(g) && FreshIds(g, ts) && key in g.spawned && HasCall(g, ts, key, s, idem)
    ensures ChildAt(Proposed(g, ts), s, g.spawned[key]) && Proposed(g, ts)[s].idem == idem
  {
    var opts := Plan(g, Run(ts));
    if s in g.entries {
      AfterKeeps(g.entries, opts, s);
    } else {
      var j :| 0 <= j < |ts| && AddsTo(g, ts, key, s, j) && ts[j].idem == idem;
      assert opts[j] == RunOpt(g, ts, j);
      OptIs(g, ts, j);
      PlanIsDistinct(g, ts);
      AfterPuts(g.entries, opts, j);
    }
  }

  /** Where a reused child is found. */
  lemma {:induction false} ReusedHasEntry(g: Log, ts: seq<Trigger>, k: nat)
    requires Valid(g) && FreshIds(g, ts) && k < |ts| && Reuses(g, ts[k])
    ensures HasEntry(Proposed(g, ts), g.spawned[ts[k].key.value])
  {
    var c := g.spawned[ts[k].key.value];
    var s :| ChildAt(g.entries, s, c);
    AfterKeeps(g.entries, Plan(g, Run(ts)), s);
    assert ChildAt(Proposed(g, ts), s, c);
  }

  lemma {:induction false} MismatchedIs(g: Log, ts: seq<Trigger>, k: nat)
    requires Valid(g) && FreshIds(g, ts) && k < |ts| && Reuses(g, ts[k]) && ts[k].byIndex
    requires HasEntry(Proposed(g, ts), g.spawned[ts[k].key.value])
    ensures Mismatched(g, ts, k) <==>
      !SameCall(ts[k], Proposed(g, ts)[Newest(Proposed(g, ts), g.spawned[ts[k].key.value])])
  {
    var key := ts[k].key.value;
    var after, c := Proposed(g, ts), g.spawned[key];
    var w := Newest(after, c);
    ProposedFrom(g, ts, key, w);
    forall x, i | HasCall(g, ts, key, x, i) ensures AsNew(w, x) {
      ProposedHas(g, ts, key, x, i);
    }
    if Mismatched(g, ts, k) {
      var s, idem :| HasCall(g, ts, key, s, idem) && idem != ts[k].idem
        && forall x, i | HasCall(g, ts, key, x, i) :: AsNew(s, x);
      ProposedHas(g, ts, key, s, idem);
      assert AsNew(s, w) && AsNew(w, s);
    }
  }

  /**
   Exactly when a run request fails: a trigger lands on the entry of another call. Exactly when it takes its
   whole batch down: none does, and a child reused by position has a newest entry of another call.
   */
  lemma RunFailsExactly(g: Log, ts: seq<Trigger>)
    requires Valid(g) && FreshIds(g, ts)
    ensures var o := Append(g, Run(ts));
      var misplaced := exists k | 0 <= k < |ts| :: Misplaced(g, ts, k);
      && (o.Failed? <==> misplaced)
      && (o.Fatal? <==> !misplaced && exists k | 0 <= k < |ts| :: Mismatched(g, ts, k))
      && (o.Failed? ==> o.error == NonDeterminism && o.log == g.(spawned := o.log.spawned))
      && (o.Fatal? ==> o.cause == ReusedInputsDiffer)
  {
    var opts := Plan(g, Run(ts));
    var after := Proposed(g, ts);
    forall k | 0 <= k < |ts|
      ensures Misplaced(g, ts, k) <==>
        opts[k].Put? && opts[k].slot in g.entries && !Matches(opts[k], g.entries[opts[k].slot])
      ensures opts[k].Skip? ==> HasEntry(after, opts[k].child)
      ensures Mismatched(g, ts, k) <==>
        opts[k].Skip? && opts[k].checked && !Matches(opts[k], after[Newest(after, opts[k].child)])
    {
      assert opts[k] == RunOpt(g, ts, k);
      OptIs(g, ts, k);
      if Reuses(g, ts[k]) {
        ReusedHasEntry(g, ts, k);
        if ts[k].byIndex {
          MismatchedIs(g, ts, k);
        }
      }
    }
  }

  // ---------------------------------------------------------------- waits and memos

  /**
   A wait or memo asks for the next node: it fails exactly if another call's entry is there, and otherwise
   gets that entry or writes its own, which for a wait is open and for a memo is done if it brings its payload.
   */
  lemma WaitOrMemoExactly(g: Log, r: Request)
    requires Valid(g) && (r.Wait? || r.Memo?)
    ensures var s := At(g, g.latestNode + 1);
      var e := if s in g.entries then g.entries[s]
               else if r.Wait? then Entry(WaitKind, r.idem, None, false, false)
               else Entry(MemoKind, r.idem, None, r.hasPayload, false);
      Append(g, r) == if e.idem != r.idem then Failed(g, NonDeterminism)
                      else Done(g.(latestNode := g.latestNode + 1, entries := g.entries[s := e]),
                                [Result(s, s in g.entries)])
  {
    var s, opts := At(g, g.latestNode + 1), Plan(g, r);
    assert |opts| == 1 && opts[..0] == [];
    assert EntriesAfter(g.entries, opts) == if s in g.entries then g.entries else g.entries[s := opts[0].entry];
    if s in g.entries {
      assert g.entries[s := g.entries[s]] == g.entries;
    }
    if Deterministic(g.entries, opts) {
      var results := Results(g.entries, opts);
      assert results == [Result(s, s in g.entries)] && results[..0] == [];
      assert MaxNode(g.latestNode, results[..0]) == g.latestNode;
    } else {
      var k :| 0 <= k < |opts| && opts[k].Put? && opts[k].slot in g.entries
        && !Matches(opts[k], g.entries[opts[k].slot]);
    }
  }
}
