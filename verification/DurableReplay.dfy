/**
 Deterministic replay: a task that starts over and issues the same requests gets the same entries back.
 This module says exactly when it does, for one request and for a whole invocation.
 */
module DurableReplay {
  import opened DurableLog
  import opened RequestEffects

  // ---------------------------------------------------------------- a request that finds its entries

  /** How many of the first `k` triggers do not reuse an entry. */
  ghost function NodesTaken(g: Log, ts: seq<Trigger>, k: nat): nat
    requires Valid(g) && k <= |ts|
  {
    if k == 0 then 0 else NodesTaken(g, ts, k - 1) + (if Reuses(g, ts[k - 1]) then 0 else 1)
  }

  /** Issued now, with `node` as the next node, the trigger gets the entry at `s`. */
  ghost predicate Gets(g: Log, t: Trigger, node: nat, s: Slot)
    requires Valid(g)
  {
    && s in g.entries
    && (if Reuses(g, t) then
          IsNewest(g.entries, s, g.spawned[t.key.value]) && (t.byIndex ==> SameCall(t, g.entries[s]))
        else s == At(g, node) && SameCall(t, g.entries[s]))
  }

  /** The same for trigger `k` of a request that starts at node `base`. */
  ghost predicate FoundAt(g: Log, base: nat, ts: seq<Trigger>, s: Slot, k: nat)
    requires Valid(g) && k < |ts|
  {
    Gets(g, ts[k], base + NodesTaken(g, ts, k), s)
  }

  ghost predicate FoundAll(g: Log, base: nat, ts: seq<Trigger>, slots: seq<Slot>)
    requires Valid(g)
  {
    |slots| == |ts| && forall k | 0 <= k < |ts| :: FoundAt(g, base, ts, slots[k], k)
  }

  /** Issued with `base` as its next node, the request gets exactly the entries at `slots`. */
  ghost predicate Found(g: Log, base: nat, r: Request, slots: seq<Slot>)
    requires Valid(g)
  {
    match r
    case Wait(idem) => slots == [At(g, base)] && slots[0] in g.entries && g.entries[slots[0]].idem == idem
    case Memo(idem, _) => slots == [At(g, base)] && slots[0] in g.entries && g.entries[slots[0]].idem == idem
    case Run(ts) => FoundAll(g, base, ts, slots)
    case Unsupported => false
  }

  // ---------------------------------------------------------------- what a request returns

  ghost predicate KnowsKeys(g: Log, ts: seq<Trigger>) {
    forall j | 0 <= j < |ts| && ts[j].key.Some? :: ts[j].key.value in g.spawned
  }

  lemma {:induction false} KeysAllKnown(spawned: map<Key, Id>, ts: seq<Trigger>)
    requires forall k | 0 <= k < |ts| && ts[k].key.Some? :: ts[k].key.value in spawned
    ensures SpawnedAfter(spawned, ts) == spawned
  {
    if ts != [] {
      KeysAllKnown(spawned, ts[..|ts| - 1]);
    }
  }

  lemma VerdictWhenKnown(g: Log, ts: seq<Trigger>, k: nat)
    requires Valid(g) && k < |ts| && KnowsKeys(g, ts)
    ensures VerdictAt(g, ts, k).Reuse? <==> Reuses(g, ts[k])
    ensures Reuses(g, ts[k]) ==> VerdictAt(g, ts, k).child == g.spawned[ts[k].key.value]
  {
    KeysAllKnown(g.spawned, ts[..k]);
  }

  lemma {:induction false} OffsetWhenKnown(g: Log, ts: seq<Trigger>, k: nat)
    requires Valid(g) && k <= |ts| && KnowsKeys(g, ts)
    ensures Offset(g, ts, k) == NodesTaken(g, ts, k)
  {
    if k > 0 {
      OffsetWhenKnown(g, ts, k - 1);
      VerdictWhenKnown(g, ts, k - 1);
    }
  }

  /** The results of a call that finds the entries at `slots`. */
  function Existing(slots: seq<Slot>): seq<Result> {
    seq(|slots|, k requires 0 <= k < |slots| => Result(slots[k], true))
  }

  /** What planning asks for is there, at `s`, and fits. */
  ghost predicate Meets(entries: Entries, o: Opt, s: Slot) {
    && s in entries
    && (if o.Skip? then IsNewest(entries, s, o.child) && (o.checked ==> Matches(o, entries[s]))
        else o.slot == s && Matches(o, entries[s]))
  }

  lemma OptMeets(g: Log, ts: seq<Trigger>, s: Slot, k: nat)
    requires Valid(g) && k < |ts| && KnowsKeys(g, ts)
    ensures Meets(g.entries, RunOpt(g, ts, k), s) <==> FoundAt(g, g.latestNode + 1, ts, s, k)
  {
    VerdictWhenKnown(g, ts, k);
    OffsetWhenKnown(g, ts, k);
  }

  ghost predicate AllMeet(entries: Entries, opts: seq<Opt>, slots: seq<Slot>) {
    |slots| == |opts| && forall k | 0 <= k < |opts| :: Meets(entries, opts[k], slots[k])
  }

  /** The call succeeds and finds exactly the entries at `slots`, all of them already there. */
  ghost predicate Finds(g: Log, r: Request, slots: seq<Slot>) {
    Valid(g) && Append(g, r).Done? && Append(g, r).results == Existing(slots)
  }

  lemma MetIsReturned(entries: Entries, opts: seq<Opt>, slots: seq<Slot>)
    requires AllMeet(entries, opts, slots)
    ensures Deterministic(entries, opts) && EntriesAfter(entries, opts) == entries
    ensures SkipsFound(entries, opts) && SkipsAgree(entries, opts) && Results(entries, opts) == Existing(slots)
  {
    assert forall k | 0 <= k < |opts| :: Meets(entries, opts[k], slots[k]);
    NothingPut(entries, opts);
    forall k | 0 <= k < |opts| && opts[k].Skip?
      ensures HasEntry(entries, opts[k].child) && Newest(entries, opts[k].child) == slots[k]
    {
      NewestIs(entries, slots[k], opts[k].child);
    }
    assert Results(entries, opts) == Existing(slots);
  }

  lemma PlanReturned(entries: Entries, opts: seq<Opt>, slots: seq<Slot>)
    requires Deterministic(entries, opts) && SkipsFound(EntriesAfter(entries, opts), opts)
    requires SkipsAgree(EntriesAfter(entries, opts), opts) && Results(entries, opts) == Existing(slots)
    ensures AllMeet(entries, opts, slots)
  {
    forall k | 0 <= k < |opts| && opts[k].Put? ensures opts[k].slot in entries && opts[k].slot == slots[k] {
      assert Results(entries, opts)[k] == Existing(slots)[k];
    }
    NothingPut(entries, opts);
    forall k | 0 <= k < |opts| ensures Meets(entries, opts[k], slots[k]) {
      assert Results(entries, opts)[k] == Existing(slots)[k];
    }
  }

  ghost predicate Known(g: Log, r: Request) { r.Run? ==> KnowsKeys(g, r.triggers) }

  lemma FoundIsMet(g: Log, r: Request, slots: seq<Slot>)
    requires Valid(g) && Known(g, r) && !r.Unsupported?
    ensures Found(g, g.latestNode + 1, r, slots) <==> AllMeet(g.entries, Plan(g, r), slots)
  {
    if r.Run? {
      var opts := Plan(g, r);
      forall k | 0 <= k < |opts| && k < |slots|
        ensures Meets(g.entries, opts[k], slots[k]) <==> FoundAt(g, g.latestNode + 1, r.triggers, slots[k], k)
      {
        assert opts[k] == RunOpt(g, r.triggers, k);
        OptMeets(g, r.triggers, slots[k], k);
      }
    } else {
      assert |Plan(g, r)| == 1;
      if |slots| == 1 {
        assert slots == [slots[0]];
      }
    }
  }

  /**
   A request whose keys are known returns existing entries exactly when it finds them, and then changes
   nothing else.
   */
  lemma FindsExactly(g: Log, r: Request, slots: seq<Slot>)
    requires Valid(g) && Known(g, r)
    ensures Finds(g, r, slots) <==> Found(g, g.latestNode + 1, r, slots)
    ensures Finds(g, r, slots) ==> Append(g, r).log == g.(latestNode := MaxNode(g.latestNode, Existing(slots)))
  {
    if !r.Unsupported? {
      FoundIsMet(g, r, slots);
      if r.Run? {
        KeysAllKnown(g.spawned, r.triggers);
      }
      if AllMeet(g.entries, Plan(g, r), slots) {
        MetIsReturned(g.entries, Plan(g, r), slots);
      } else if Finds(g, r, slots) {
        PlanReturned(g.entries, Plan(g, r), slots);
      }
    }
  }

  // ---------------------------------------------------------------- staying found while the log grows

  ghost predicate GainsNothing(g: Log, h: Log, c: Id) { forall s :: !Gains(g, h, c, s) }

  /** The child gains no entry newer than the newest it has. */
  ghost predicate KeepsNewest(g: Log, h: Log, c: Id)
    requires HasEntry(g.entries, c)
  {
    forall s | ChildAt(h.entries, s, c) :: AsNew(Newest(g.entries, c), s)
  }

  /**
   What must not happen to a trigger whose child is hidden: if it is reused, that it gains a newer entry;
   if it is not, that it gains any, or that it becomes one whose result is kept.
   */
  ghost predicate Undisturbed(g: Log, h: Log, t: Trigger)
    requires Valid(g)
  {
    t.key.Some? && t.key.value in g.spawned && Hidden(g, g.spawned[t.key.value]) ==>
      var c := g.spawned[t.key.value];
      if Reuses(g, t) then KeepsNewest(g, h, c)
      else GainsNothing(g, h, c) && !(t.replayOrphans && KeepsOrphan(h, c, t.parentReExecuted))
  }

  ghost predicate AllUndisturbed(g: Log, h: Log, ts: seq<Trigger>)
    requires Valid(g)
  {
    forall k | 0 <= k < |ts| :: Undisturbed(g, h, ts[k])
  }

  /** A child that gains nothing has the entries it had. */
  lemma SameChild(g: Log, h: Log, c: Id)
    requires Grows(g, h) && GainsNothing(g, h, c)
    ensures forall s :: ChildAt(h.entries, s, c) <==> ChildAt(g.entries, s, c)
    ensures Live(h, c) <==> Live(g, c)
    ensures HasEntry(h.entries, c) <==> HasEntry(g.entries, c)
    ensures forall s :: IsNewest(h.entries, s, c) <==> IsNewest(g.entries, s, c)
  {
    forall s ensures ChildAt(h.entries, s, c) <==> ChildAt(g.entries, s, c) {
      assert !Gains(g, h, c, s);
    }
  }

  /** A kept result stays kept while its child gains nothing. */
  lemma OrphanStays(g: Log, h: Log, c: Id, parentReExecuted: bool)
    requires Grows(g, h) && GainsNothing(g, h, c) && KeepsOrphan(g, c, parentReExecuted)
    ensures KeepsOrphan(h, c, parentReExecuted)
  {
    SameChild(g, h, c);
    NewestIs(h.entries, Newest(g.entries, c), c);
  }

  /** Entries gained are shown. */
  lemma GainIsLive(g: Log, h: Log, c: Id)
    requires Grows(g, h) && !GainsNothing(g, h, c)
    ensures Live(h, c)
  {
    var s :| Gains(g, h, c, s);
    assert ChildAt(h.entries, s, c) && s == At(h, s.node);
  }

  /** A hidden child that is reused stays reused. */
  lemma KeptStaysReused(g: Log, h: Log, t: Trigger)
    requires Grows(g, h) && Reuses(g, t)
    ensures Reuses(h, t)
  {
    var c := g.spawned[t.key.value];
    if Live(g, c) {
      LiveStays(g, h, c);
    } else if GainsNothing(g, h, c) {
      OrphanStays(g, h, c, t.parentReExecuted);
    } else {
      GainIsLive(g, h, c);
    }
  }

  /** The child of a trigger that is undisturbed is reused as before, from the same entry. */
  lemma UndisturbedStays(g: Log, h: Log, t: Trigger)
    requires Grows(g, h) && (t.key.Some? ==> t.key.value in g.spawned) && Undisturbed(g, h, t)
    ensures Reuses(h, t) <==> Reuses(g, t)
    ensures Reuses(g, t) ==>
      forall s :: IsNewest(h.entries, s, g.spawned[t.key.value]) <==> IsNewest(g.entries, s, g.spawned[t.key.value])
  {
    if t.key.Some? {
      var c := g.spawned[t.key.value];
      if Reuses(g, t) {
        KeptStaysReused(g, h, t);
        SameNewest(g, h, t.key.value);
      } else {
        assert GainsNothing(g, h, c);
        SameChild(g, h, c);
      }
    }
  }

  lemma SameNewest(g: Log, h: Log, key: Key)
    requires Grows(g, h) && key in g.spawned && HasEntry(g.entries, g.spawned[key])
    requires Hidden(g, g.spawned[key]) ==> KeepsNewest(g, h, g.spawned[key])
    ensures forall s :: IsNewest(h.entries, s, g.spawned[key]) <==> IsNewest(g.entries, s, g.spawned[key])
  {
    var c := g.spawned[key];
    if GainsNothing(g, h, c) {
      SameChild(g, h, c);
    } else {
      var x :| Gains(g, h, c, x);
      var w := Newest(g.entries, c);
      assert ChildAt(h.entries, w, c);
      assert IsNewest(h.entries, w, c);
      forall s ensures IsNewest(h.entries, s, c) <==> IsNewest(g.entries, s, c) {
        if IsNewest(h.entries, s, c) {
          NewestIs(h.entries, s, c);
          NewestIs(h.entries, w, c);
        }
        if IsNewest(g.entries, s, c) {
          NewestIs(g.entries, s, c);
        }
      }
    }
  }

  /** A trigger that is found before and after was undisturbed. */
  lemma FoundMeansUndisturbed(g: Log, h: Log, base: nat, ts: seq<Trigger>, s: Slot, k: nat)
    requires Grows(g, h) && k < |ts| && FoundAt(g, base, ts, s, k) && FoundAt(h, base, ts, s, k)
    ensures Undisturbed(g, h, ts[k])
  {
    var t := ts[k];
    if t.key.Some? && t.key.value in g.spawned && Hidden(g, g.spawned[t.key.value]) {
      var c := g.spawned[t.key.value];
      if Reuses(g, t) {
        KeptStaysReused(g, h, t);
        NewestIs(g.entries, s, c);
      } else {
        if !GainsNothing(g, h, c) {
          GainIsLive(g, h, c);
        }
      }
    }
  }

  lemma {:induction false} SameNodesTaken(g: Log, h: Log, ts: seq<Trigger>, k: nat)
    requires Grows(g, h) && KnowsKeys(g, ts) && AllUndisturbed(g, h, ts) && k <= |ts|
    ensures NodesTaken(h, ts, k) == NodesTaken(g, ts, k)
  {
    if k > 0 {
      SameNodesTaken(g, h, ts, k - 1);
      UndisturbedStays(g, h, ts[k - 1]);
    }
  }

  lemma UndisturbedIsFound(g: Log, h: Log, base: nat, ts: seq<Trigger>, s: Slot, k: nat)
    requires Grows(g, h) && KnowsKeys(g, ts) && AllUndisturbed(g, h, ts) && k < |ts| && FoundAt(g, base, ts, s, k)
    ensures FoundAt(h, base, ts, s, k)
  {
    SameNodesTaken(g, h, ts, k);
    UndisturbedStays(g, h, ts[k]);
    SameAt(g, h, base + NodesTaken(g, ts, k));
    if ts[k].key.Some? {
      assert h.spawned[ts[k].key.value] == g.spawned[ts[k].key.value];
    }
  }

  /** A request that finds its entries still finds them later exactly when none of its triggers was disturbed. */
  lemma StaysFoundExactly(g: Log, h: Log, base: nat, ts: seq<Trigger>, slots: seq<Slot>)
    requires Grows(g, h) && KnowsKeys(g, ts) && FoundAll(g, base, ts, slots)
    ensures FoundAll(h, base, ts, slots) <==> AllUndisturbed(g, h, ts)
  {
    if AllUndisturbed(g, h, ts) {
      forall k | 0 <= k < |ts| ensures FoundAt(h, base, ts, slots[k], k) {
        UndisturbedIsFound(g, h, base, ts, slots[k], k);
      }
    }
    if FoundAll(h, base, ts, slots) {
      forall k | 0 <= k < |ts| ensures Undisturbed(g, h, ts[k]) {
        FoundMeansUndisturbed(g, h, base, ts, slots[k], k);
      }
    }
  }

  // ---------------------------------------------------------------- right after the request

  /** The trigger takes a node this time, and reuses a child from then on. */
  ghost predicate Settles(g: Log, ts: seq<Trigger>, k: nat)
    requires Valid(g) && k < |ts|
  {
    !Reuses(g, ts[k]) && ClaimedKey(g, ts, ts[k].key)
  }

  function CountTrue(bs: seq<bool>, k: nat): nat
    requires k <= |bs|
  {
    if k == 0 then 0 else CountTrue(bs, k - 1) + (if bs[k - 1] then 1 else 0)
  }

  lemma {:induction false} CountsAny(bs: seq<bool>, k: nat)
    requires k <= |bs|
    ensures CountTrue(bs, k) > 0 <==> exists j | 0 <= j < k :: bs[j]
  {
    if k > 0 {
      CountsAny(bs, k - 1);
    }
  }

  ghost function SettledFlags(g: Log, ts: seq<Trigger>): seq<bool>
    requires Valid(g)
  {
    seq(|ts|, k requires 0 <= k < |ts| => Settles(g, ts, k))
  }

  /** How many triggers settle before trigger `k`. */
  ghost function SettledBefore(g: Log, ts: seq<Trigger>, k: nat): nat
    requires Valid(g) && k <= |ts|
  {
    CountTrue(SettledFlags(g, ts), k)
  }

  ghost predicate ReusedAgain(g: Log, ts: seq<Trigger>, g': Log, k: nat)
    requires Valid(g) && Valid(g') && k < |ts|
  {
    Reuses(g', ts[k]) <==> Reuses(g, ts[k]) || Settles(g, ts, k)
  }

  ghost predicate AllReusedAgain(g: Log, ts: seq<Trigger>, g': Log)
    requires Valid(g) && Valid(g')
  {
    forall k | 0 <= k < |ts| :: ReusedAgain(g, ts, g', k)
  }

  lemma RequestIsReusedAgain(g: Log, ts: seq<Trigger>, g': Log)
    requires Appended(g, ts, g')
    ensures Valid(g') && AllReusedAgain(g, ts, g')
  {
    AppendedIsValid(g, ts, g');
    forall k | 0 <= k < |ts| ensures ReusedAgain(g, ts, g', k) {
      ReusedAfter(g, ts, g', k);
    }
  }

  /** Issued again, a trigger lands as many nodes earlier as triggers have settled before it. */
  lemma {:induction false} NodesTakenAfter(g: Log, ts: seq<Trigger>, g': Log, k: nat)
    requires Valid(g) && Valid(g') && FreshIds(g, ts) && AllReusedAgain(g, ts, g') && k <= |ts|
    ensures Offset(g, ts, k) == NodesTaken(g', ts, k) + SettledBefore(g, ts, k)
  {
    if k > 0 {
      NodesTakenAfter(g, ts, g', k - 1);
      assert SettledFlags(g, ts)[k - 1] == Settles(g, ts, k - 1);
      assert ReusedAgain(g, ts, g', k - 1);
      VerdictCases(g, ts, k - 1);
    }
  }

  lemma {:induction false} AnySettled(g: Log, ts: seq<Trigger>, k: nat)
    requires Valid(g) && k <= |ts|
    ensures SettledBefore(g, ts, k) > 0 <==> exists j | 0 <= j < k :: Settles(g, ts, j)
  {
    var flags := SettledFlags(g, ts);
    CountsAny(flags, k);
    assert forall j | 0 <= j < k :: flags[j] == Settles(g, ts, j);
  }

  /** No trigger that takes a node each time comes after one that takes its node only once. */
  ghost predicate Ordered(g: Log, ts: seq<Trigger>)
    requires Valid(g)
  {
    forall j, k {:trigger Settles(g, ts, j), Settles(g, ts, k)} | 0 <= j < k < |ts| && Settles(g, ts, j) ::
      Settles(g, ts, k) || Reuses(g, ts[k])
  }

  /** The slot the trigger claims is the newest of its child, old entries and other claims included. */
  ghost predicate ClaimsNewest(g: Log, ts: seq<Trigger>, k: nat)
    requires Valid(g) && k < |ts|
  {
    && Claims(g, ts, k)
    && (InPlace(g, ts[k]) ==> AsNew(SlotOf(g, ts, k), Newest(g.entries, g.spawned[ts[k].key.value])))
    && (forall j | 0 <= j < |ts| && Claims(g, ts, j) && ts[j].key == ts[k].key ::
          AsNew(SlotOf(g, ts, k), SlotOf(g, ts, j)))
  }

  /** Every trigger that settles claims the slot its child is found at from then on. */
  ghost predicate SettlesOnNewest(g: Log, ts: seq<Trigger>)
    requires Valid(g)
  {
    forall k | 0 <= k < |ts| && Settles(g, ts, k) :: ClaimsNewest(g, ts, k)
  }

  lemma ClaimIsNewest(g: Log, ts: seq<Trigger>, g': Log, k: nat)
    requires Appended(g, ts, g') && Valid(g') && k < |ts| && ClaimsNewest(g, ts, k)
    ensures ts[k].key.value in g'.spawned && IsNewest(g'.entries, SlotOf(g, ts, k), g'.spawned[ts[k].key.value])
  {
    ClaimIsShown(g, ts, g', k);
    var key, s := ts[k].key.value, SlotOf(g, ts, k);
    var c := g'.spawned[key];
    forall x | ChildAt(g'.entries, x, c) ensures AsNew(s, x) {
      if x in g.entries {
        OldChildIsKnown(g, ts, g', key, x);
      } else {
        var j := GainIsClaim(g, ts, g', key, x);
      }
    }
  }

  /** Only a child the log knew has an entry from before the request. */
  lemma OldChildIsKnown(g: Log, ts: seq<Trigger>, g': Log, key: Key, x: Slot)
    requires Appended(g, ts, g') && key in g'.spawned && x in g.entries && ChildAt(g'.entries, x, g'.spawned[key])
    ensures key in g.spawned && g.spawned[key] == g'.spawned[key] && ChildAt(g.entries, x, g.spawned[key])
  {
    SameFile(g, ts, g');
    OldEntryStays(g, ts, g', x);
    assert ChildAt(g.entries, x, g'.spawned[key]);
    assert forall k | 0 <= k < |ts| :: Unused(g, ts[k].candidate);
    if key in g.spawned {
      KeysStay(g.spawned, ts, key);
    } else {
      var f := KeyComesFrom(g.spawned, ts, key);
    }
  }

  lemma {:induction false} SameSlotSameTrigger(g: Log, ts: seq<Trigger>, j: nat, k: nat)
    requires Valid(g) && j < |ts| && k < |ts| && VerdictAt(g, ts, j).Place? && VerdictAt(g, ts, k).Place?
    requires SlotOf(g, ts, j) == SlotOf(g, ts, k)
    ensures j == k
  {
    if j < k {
      OffsetGrows(g, ts, j, k);
    } else if k < j {
      OffsetGrows(g, ts, k, j);
    }
  }

  lemma {:induction false} OwnSlotIsShown(g: Log, ts: seq<Trigger>, k: nat)
    requires Valid(g) && k < |ts| && ts[k].key.Some? && ts[k].key.value in g.spawned
    requires ChildAt(g.entries, SlotOf(g, ts, k), g.spawned[ts[k].key.value])
    ensures Reuses(g, ts[k])
  {
    SlotIsShown(g, ts, g, k);
    ShownMeansReused(g, ts[k], SlotOf(g, ts, k));
  }

  /** A trigger that does not reuse its child lands on none of the child's old slots. */
  lemma {:induction false} OwnSlotIsNew(g: Log, ts: seq<Trigger>, g': Log, k: nat)
    requires Appended(g, ts, g') && Valid(g') && k < |ts| && ts[k].key.Some? && ts[k].key.value in g'.spawned
    requires !Reuses(g, ts[k]) && ChildAt(g'.entries, SlotOf(g, ts, k), g'.spawned[ts[k].key.value])
    ensures SlotOf(g, ts, k) !in g.entries
  {
    if SlotOf(g, ts, k) in g.entries {
      OldChildIsKnown(g, ts, g', ts[k].key.value, SlotOf(g, ts, k));
      OwnSlotIsShown(g, ts, k);
    }
  }

  lemma {:induction false} OwnSlotIsClaimed(g: Log, ts: seq<Trigger>, g': Log, k: nat)
    requires Appended(g, ts, g') && Valid(g') && k < |ts| && ts[k].key.Some? && ts[k].key.value in g'.spawned
    requires !Reuses(g, ts[k]) && ChildAt(g'.entries, SlotOf(g, ts, k), g'.spawned[ts[k].key.value])
    ensures Claims(g, ts, k)
  {
    OwnSlotIsNew(g, ts, g', k);
    var j := GainIsClaim(g, ts, g', ts[k].key.value, SlotOf(g, ts, k));
    assert VerdictAt(g, ts, j).Place? by { ClaimedChild(g, ts, j); }
    assert VerdictAt(g, ts, k).Place? by { VerdictCases(g, ts, k); }
    SameSlotSameTrigger(g, ts, j, k);
  }

  lemma {:induction false} OlderThanClaim(g: Log, ts: seq<Trigger>, g': Log, k: nat)
    requires Appended(g, ts, g') && Valid(g') && k < |ts| && Claims(g, ts, k) && ts[k].key.value in g'.spawned
    requires IsNewest(g'.entries, SlotOf(g, ts, k), g'.spawned[ts[k].key.value])
    ensures ClaimsNewest(g, ts, k)
  {
    var key, s := ts[k].key.value, SlotOf(g, ts, k);
    if InPlace(g, ts[k]) {
      var w := Newest(g.entries, g.spawned[key]);
      OldEntryStays(g, ts, g', w);
      KeysStay(g.spawned, ts, key);
      assert ChildAt(g'.entries, w, g'.spawned[key]);
    }
    forall j | 0 <= j < |ts| && Claims(g, ts, j) && ts[j].key == ts[k].key ensures AsNew(s, SlotOf(g, ts, j)) {
      ClaimIsShown(g, ts, g', j);
    }
  }

  lemma {:induction false} FoundWhereItLanded(g: Log, ts: seq<Trigger>, g': Log, k: nat)
    requires Valid(g) && Valid(g') && g'.points == g.points && g'.latestBranch == g.latestBranch
    requires k < |ts| && !Reuses(g', ts[k])
    requires Offset(g, ts, k) == NodesTaken(g', ts, k) + SettledBefore(g, ts, k)
    requires SlotOf(g, ts, k) in g'.entries && SameCall(ts[k], g'.entries[SlotOf(g, ts, k)])
    ensures FoundAt(g', g.latestNode + 1, ts, SlotOf(g, ts, k), k) <==> SettledBefore(g, ts, k) == 0
  {}

  /** A trigger that takes a node each time finds it again exactly when no trigger settled before it. */
  lemma {:induction false} NodeIsFound(g: Log, ts: seq<Trigger>, g': Log, k: nat)
    requires Appended(g, ts, g') && Valid(g') && AllReusedAgain(g, ts, g') && k < |ts|
    requires VerdictAt(g, ts, k).Place? && !Reuses(g', ts[k])
    ensures FoundAt(g', g.latestNode + 1, ts, SlotOf(g, ts, k), k) <==> SettledBefore(g, ts, k) == 0
  {
    PlacedAt(g, ts, g', k);
    SameFile(g, ts, g');
    NodesTakenAfter(g, ts, g', k);
    FoundWhereItLanded(g, ts, g', k);
  }

  /** A trigger that settles finds its slot again exactly when it claimed its child's newest. */
  lemma {:induction false} SettledIsFound(g: Log, ts: seq<Trigger>, g': Log, base: nat, k: nat)
    requires Appended(g, ts, g') && Valid(g') && AllReusedAgain(g, ts, g') && k < |ts| && Settles(g, ts, k)
    ensures FoundAt(g', base, ts, SlotOf(g, ts, k), k) <==> ClaimsNewest(g, ts, k)
  {
    assert ReusedAgain(g, ts, g', k);
    VerdictCases(g, ts, k);
    PlacedAt(g, ts, g', k);
    if ClaimsNewest(g, ts, k) {
      ClaimIsNewest(g, ts, g', k);
    } else if FoundAt(g', base, ts, SlotOf(g, ts, k), k) {
      OwnSlotIsClaimed(g, ts, g', k);
      OlderThanClaim(g, ts, g', k);
    }
  }

  /** The request succeeds and its trigger `k` gets the entry at `s`. */
  ghost predicate LandsAt(g: Log, ts: seq<Trigger>, k: nat, s: Slot) {
    Valid(g) && Append(g, Run(ts)).Done? && k < |Append(g, Run(ts)).results| && Append(g, Run(ts)).results[k].slot == s
  }

  /** A trigger that reused a child is always found again. */
  lemma {:induction false} ReuseIsFound(g: Log, ts: seq<Trigger>, g': Log, base: nat, s: Slot, k: nat)
    requires Appended(g, ts, g') && Valid(g') && AllReusedAgain(g, ts, g') && k < |ts|
    requires Reuses(g, ts[k]) && LandsAt(g, ts, k, s)
    ensures FoundAt(g', base, ts, s, k)
  {
    assert ReusedAgain(g, ts, g', k);
    VerdictCases(g, ts, k);
    ResultAt(g, ts, g', k);
    SameFile(g, ts, g');
    KeysStay(g.spawned, ts, ts[k].key.value);
  }

  /** Where a trigger that does not reuse a child landed. */
  lemma LandedAt(g: Log, ts: seq<Trigger>, g': Log, s: Slot, k: nat)
    requires Appended(g, ts, g') && k < |ts| && !Reuses(g, ts[k]) && LandsAt(g, ts, k, s)
    ensures VerdictAt(g, ts, k).Place? && s == SlotOf(g, ts, k)
  {
    VerdictCases(g, ts, k);
    ResultAt(g, ts, g', k);
  }

  /** Exactly when one trigger of a successful request finds what it got. */
  lemma {:induction false} TriggerIsFound(g: Log, ts: seq<Trigger>, g': Log, s: Slot, k: nat)
    requires Appended(g, ts, g') && Valid(g') && AllReusedAgain(g, ts, g') && k < |ts| && LandsAt(g, ts, k, s)
    ensures FoundAt(g', g.latestNode + 1, ts, s, k) <==>
      Reuses(g, ts[k]) || (if Settles(g, ts, k) then ClaimsNewest(g, ts, k) else SettledBefore(g, ts, k) == 0)
  {
    if Reuses(g, ts[k]) {
      ReuseIsFound(g, ts, g', g.latestNode + 1, s, k);
    } else {
      LandedAt(g, ts, g', s, k);
      assert ReusedAgain(g, ts, g', k);
      if Settles(g, ts, k) {
        SettledIsFound(g, ts, g', g.latestNode + 1, k);
      } else {
        NodeIsFound(g, ts, g', k);
      }
    }
  }

  /** The slots a successful request got. */
  ghost predicate Got(g: Log, ts: seq<Trigger>, slots: seq<Slot>) {
    |slots| == |ts| && forall k | 0 <= k < |ts| :: LandsAt(g, ts, k, slots[k])
  }

  /**
   Issued again at once, a successful request finds what it got exactly when no trigger that takes a node
   each time follows one that settles, and every trigger that settles claims its child's newest slot.
   */
  lemma {:induction false} FoundAtOnceExactly(g: Log, ts: seq<Trigger>, g': Log, slots: seq<Slot>)
    requires Appended(g, ts, g') && Got(g, ts, slots)
    ensures Valid(g')
    ensures FoundAll(g', g.latestNode + 1, ts, slots) <==> Ordered(g, ts) && SettlesOnNewest(g, ts)
  {
    RequestIsReusedAgain(g, ts, g');
    forall k | 0 <= k < |ts|
      ensures FoundAt(g', g.latestNode + 1, ts, slots[k], k) <==>
        Reuses(g, ts[k]) || (if Settles(g, ts, k) then ClaimsNewest(g, ts, k) else SettledBefore(g, ts, k) == 0)
    {
      assert LandsAt(g, ts, k, slots[k]);
      TriggerIsFound(g, ts, g', slots[k], k);
    }
    ExactlyOrdered(g, ts);
  }

  lemma {:induction false} ExactlyOrdered(g: Log, ts: seq<Trigger>)
    requires Valid(g)
    ensures Ordered(g, ts) && SettlesOnNewest(g, ts) <==> forall k | 0 <= k < |ts| ::
      Reuses(g, ts[k]) || (if Settles(g, ts, k) then ClaimsNewest(g, ts, k) else SettledBefore(g, ts, k) == 0)
  {
    forall k | 0 <= k < |ts| ensures SettledBefore(g, ts, k) > 0 <==> exists j | 0 <= j < k :: Settles(g, ts, j) {
      AnySettled(g, ts, k);
    }
  }

  lemma KnowsKeysAfter(g: Log, ts: seq<Trigger>, g': Log)
    requires Appended(g, ts, g')
    ensures KnowsKeys(g', ts)
  {
    forall j | 0 <= j < |ts| && ts[j].key.Some? ensures ts[j].key.value in g'.spawned {
      KeyIsKnown(g.spawned, ts, j);
    }
  }
}
