/**
 What deterministic replay depends on: exactly when one request is replayed, a run in which it is not, what a
 repeated key does within a request, and why a child that is to be reused always has an entry.
 */
module ReplayLimits {
  import opened DurableLog
  import opened RequestEffects
  import opened DurableReplay
  import opened ReplayPasses
  import GetOrCreate
  import opened Options

  // ---------------------------------------------------------------- exactly when a request is replayed

  /** The log as it is when the request is issued again at the same position. */
  function Again(g: Log, g': Log): Log { g'.(latestNode := g.latestNode) }

  lemma SameEntriesUndisturbed(a: Log, n: nat, ts: seq<Trigger>)
    requires Valid(a)
    ensures Grows(a, a.(latestNode := n)) && AllUndisturbed(a, a.(latestNode := n), ts)
  {
    var h := a.(latestNode := n);
    MarksGrow(a, h);
    forall k | 0 <= k < |ts| ensures Undisturbed(a, h, ts[k]) {
      assert Forced(h) == Forced(a);
    }
  }

  lemma {:induction false} FoundAgainExactly(g: Log, ts: seq<Trigger>, slots: seq<Slot>, a: Log, h: Log, base: nat)
    requires Succeeds(g, Run(ts), slots) && a == Append(g, Run(ts)).log && Valid(a) && h == Again(g, a)
    requires base == g.latestNode + 1 && Valid(h)
    ensures Found(h, base, Run(ts), slots) <==> Ordered(g, ts) && SettlesOnNewest(g, ts)
  {
    SameEntriesUndisturbed(a, g.latestNode, ts);
    CallLasts(g, Run(ts), slots, a, h);
  }

  /**
   A successful request, issued again at the same position, gets exactly the entries it got if and only if no
   trigger that takes a node each time follows one that settles, and every trigger that settles claims its
   child's newest slot.
   */
  lemma {:induction false} ReplayedExactlyWhenOrdered(g: Log, ts: seq<Trigger>, ts': seq<Trigger>, slots: seq<Slot>,
                                                      a: Log)
    requires Succeeds(g, Run(ts), slots) && a == Append(g, Run(ts)).log && SameTriggers(ts, ts')
    ensures Finds(Again(g, a), Run(ts'), slots) <==> Ordered(g, ts) && SettlesOnNewest(g, ts)
  {
    var h, base := Again(g, a), g.latestNode + 1;
    SuccessGrows(g, Run(ts), slots);
    MarksGrow(a, h);
    KnownStays(a, h, Run(ts));
    FoundAgainExactly(g, ts, slots, a, h, base);
    FoundHere(h, ts, ts', slots, base);
  }

  lemma {:induction false} FoundHere(h: Log, ts: seq<Trigger>, ts': seq<Trigger>, slots: seq<Slot>, base: nat)
    requires Valid(h) && Known(h, Run(ts)) && SameTriggers(ts, ts') && base == h.latestNode + 1
    ensures Finds(h, Run(ts'), slots) <==> Found(h, base, Run(ts), slots)
  {
    SameCallFinds(h, Run(ts), Run(ts'), slots);
  }

  lemma KeysStayKnown(g: Log, ts: seq<Trigger>, g': Log, ts': seq<Trigger>)
    requires Appended(g, ts, g') && SameTriggers(ts, ts')
    ensures KnowsKeys(Again(g, g'), ts')
  {
    forall j | 0 <= j < |ts'| && ts'[j].key.Some? ensures ts'[j].key.value in g'.spawned {
      assert SameTrigger(ts[j], ts'[j]);
      KeyIsKnown(g.spawned, ts, j);
    }
  }

  lemma ReusesAgain(g: Log, n: nat, t: Trigger, t': Trigger)
    requires Valid(g) && SameTrigger(t, t')
    ensures Valid(g.(latestNode := n)) && Reuses(g.(latestNode := n), t') == Reuses(g, t)
  {
    var h := g.(latestNode := n);
    MarksGrow(g, h);
    MarksGrow(h, g);
    if Reuses(g, t) {
      KeptStaysReused(g, h, t);
    }
    if Reuses(h, t') {
      KeptStaysReused(h, g, t');
    }
  }

  lemma {:induction false} NodesTakenAgain(g: Log, n: nat, ts: seq<Trigger>, ts': seq<Trigger>, k: nat)
    requires Valid(g) && SameTriggers(ts, ts') && k <= |ts|
    ensures Valid(g.(latestNode := n)) && NodesTaken(g.(latestNode := n), ts', k) == NodesTaken(g, ts, k)
  {
    if k > 0 {
      NodesTakenAgain(g, n, ts, ts', k - 1);
      assert SameTrigger(ts[k - 1], ts'[k - 1]);
      ReusesAgain(g, n, ts[k - 1], ts'[k - 1]);
    } else {
      MarksGrow(g, g.(latestNode := n));
    }
  }

  /** Where a trigger that does not reuse a child lands when its keys are known. */
  lemma ReissuedNode(h: Log, ts: seq<Trigger>, k: nat, s: Slot)
    requires LandsAt(h, ts, k, s) && k < |ts| && !Reuses(h, ts[k]) && KnowsKeys(h, ts)
    ensures s.node == h.latestNode + 1 + NodesTaken(h, ts, k)
  {
    VerdictWhenKnown(h, ts, k);
    OffsetWhenKnown(h, ts, k);
    assert Plan(h, Run(ts))[k] == RunOpt(h, ts, k);
  }

  /** A trigger that takes a node each time, after one that settles, lands as many nodes earlier as have settled. */
  lemma {:induction false} OutOfOrderMoves(g: Log, ts: seq<Trigger>, g': Log, ts': seq<Trigger>, k: nat, s: Slot,
                                           s': Slot)
    requires Appended(g, ts, g') && SameTriggers(ts, ts') && k < |ts| && !Settles(g, ts, k) && !Reuses(g, ts[k])
    requires LandsAt(g, ts, k, s) && LandsAt(Again(g, g'), ts', k, s')
    ensures s'.node == s.node - SettledBefore(g, ts, k)
  {
    RequestIsReusedAgain(g, ts, g');
    LandedAt(g, ts, g', s, k);
    NodesTakenAfter(g, ts, g', k);
    NodesTakenAgain(g', g.latestNode, ts, ts', k);
    assert SameTrigger(ts[k], ts'[k]) && ReusedAgain(g, ts, g', k);
    ReusesAgain(g', g.latestNode, ts[k], ts'[k]);
    KeysStayKnown(g, ts, g', ts');
    ReissuedNode(Again(g, g'), ts', k, s');
  }

  /** A reused child is handed back at an entry at least as new as any it had. */
  lemma {:induction false} ReissuedReuse(h: Log, ts: seq<Trigger>, k: nat, s: Slot)
    requires LandsAt(h, ts, k, s) && k < |ts| && Reuses(h, ts[k]) && KnowsKeys(h, ts) && s in h.entries
    ensures IsNewest(h.entries, s, h.spawned[ts[k].key.value])
  {
    var opts, c := Plan(h, Run(ts)), h.spawned[ts[k].key.value];
    VerdictWhenKnown(h, ts, k);
    assert opts[k] == RunOpt(h, ts, k);
    AfterKeeps(h.entries, opts, s);
    forall x | ChildAt(h.entries, x, c) ensures AsNew(s, x) {
      AfterKeeps(h.entries, opts, x);
      assert ChildAt(EntriesAfter(h.entries, opts), x, c);
    }
  }

  /** A trigger that settles without claiming its child's newest slot does not land where it did. */
  lemma {:induction false} OlderSlotMoves(g: Log, ts: seq<Trigger>, g': Log, ts': seq<Trigger>, k: nat, s: Slot,
                                          s': Slot)
    requires Appended(g, ts, g') && SameTriggers(ts, ts') && k < |ts| && Settles(g, ts, k) && !ClaimsNewest(g, ts, k)
    requires LandsAt(g, ts, k, s) && LandsAt(Again(g, g'), ts', k, s')
    ensures s' != s
  {
    RequestIsReusedAgain(g, ts, g');
    LandedAt(g, ts, g', s, k);
    PlacedAt(g, ts, g', k);
    assert SameTrigger(ts[k], ts'[k]) && ReusedAgain(g, ts, g', k);
    ReusesAgain(g', g.latestNode, ts[k], ts'[k]);
    KeysStayKnown(g, ts, g', ts');
    if s' == s {
      ReissuedReuse(Again(g, g'), ts', k, s');
      OwnSlotIsClaimed(g, ts, g', k);
      OlderThanClaim(g, ts, g', k);
    }
  }

  // ---------------------------------------------------------------- keys that are lost

  /**
   A request that fails its determinism check leaves the log's entries alone but keeps its keys: each new one
   is lost from then on. As long as the log is not reset its child has no entry, so that a trigger with the
   key takes a node every time it is issued.
   */
  lemma FailureLosesNewKeys(g: Log, ts: seq<Trigger>, h: Log, k: nat, later: Log, t: Trigger)
    requires Valid(g) && FreshIds(g, ts) && k < |ts| && NewKey(g, ts[k]) && t.key == ts[k].key
    requires Append(g, Run(ts)).Failed? && h == Append(g, Run(ts)).log && Grows(h, later)
    ensures h.entries == g.entries && h.latestNode == g.latestNode && t.key.value in later.spawned
    ensures !HasEntry(later.entries, later.spawned[t.key.value]) && !Reuses(later, t) && !InPlace(later, t)
  {
    KeyIsKnown(g.spawned, ts, k);
    var key := ts[k].key.value;
    var f := KeyComesFrom(g.spawned, ts, key);
    assert Unused(g, ts[f].candidate);
    forall s ensures !ChildAt(later.entries, s, h.spawned[key]) {
      assert !ChildAt(h.entries, s, h.spawned[key]) && !Gains(h, later, h.spawned[key], s);
    }
  }

  // ---------------------------------------------------------------- a run in which a call is not replayed

  function Spawn(key: Key, idem: Idem, candidate: Id, replacement: Id): Trigger {
    Trigger(Some(key), idem, true, false, false, false, false, candidate, replacement)
  }

  const NewLog := Log(0, 1, 1, map[], map[], map[], map[])

  const WaitEntry := Entry(WaitKind, 5, None, false, false)
  const FirstChild := Entry(RunKind, 1, Some(201), false, false)
  const SecondChild := Entry(RunKind, 2, Some(302), false, false)

  /** After the first wait. */
  const Waited := NewLog.(latestNode := 1, entries := map[Slot(1, 1) := WaitEntry])

  /** The same log in a later invocation, once key 9 is lost. */
  function Lost(node: nat, invocation: int): Log {
    Log(node, 1, invocation, map[], map[], map[Slot(1, 1) := WaitEntry], map[9 := 100])
  }

  /** Once keys 7 and 9 have been spawned at nodes 2 and 3. */
  function Spawned(node: nat, invocation: int): Log {
    Log(node, 1, invocation, map[], map[],
        map[Slot(1, 1) := WaitEntry, Slot(2, 1) := FirstChild, Slot(3, 1) := SecondChild], map[9 := 100, 7 := 201])
  }

  /** A new key followed by the lost one. */
  const NewThenLost := [Spawn(7, 1, 201, 301), Spawn(9, 2, 202, 302)]

  /** The same call with the ids it brings the next time. */
  const NewThenLostAgain := [Spawn(7, 1, 211, 311), Spawn(9, 2, 212, 312)]

  lemma WaitAppends(g: Log, idem: Idem, s: Slot)
    requires Valid(g) && g.points == map[] && s == Slot(g.latestNode + 1, g.latestBranch)
    ensures s !in g.entries ==> Append(g, Wait(idem)) == Done(
      g.(latestNode := g.latestNode + 1, entries := g.entries[s := Entry(WaitKind, idem, None, false, false)]),
      [Result(s, false)])
    ensures s in g.entries && g.entries[s].idem == idem ==>
      Append(g, Wait(idem)) == Done(g.(latestNode := g.latestNode + 1), [Result(s, true)])
  {
    var opts := Plan(g, Wait(idem));
    assert opts[..0] == [] && At(g, g.latestNode + 1) == s;
    assert EntriesAfter(g.entries, []) == g.entries;
    var result := Result(s, s in g.entries);
    assert Results(g.entries, opts) == [result] && [result][..0] == [];
    assert MaxNode(g.latestNode, []) == g.latestNode;
  }

  lemma FailsOn(g: Log, ts: seq<Trigger>, k: nat, o: Opt)
    requires Valid(g) && k < |ts| && o == RunOpt(g, ts, k) && o.Put?
    requires o.slot in g.entries && !Matches(o, g.entries[o.slot])
    ensures Append(g, Run(ts)) == Failed(g.(spawned := SpawnedAfter(g.spawned, ts)), NonDeterminism)
  {
    assert Plan(g, Run(ts))[k] == o;
  }

  /** In the second invocation the task spawns key 9 where it waited before: the call fails, and the key is lost. */
  lemma SpawnFails()
    ensures Valid(Waited)
    ensures Append(Restart(Waited), Run([Spawn(9, 2, 100, 101)])) == Failed(Lost(0, 2), NonDeterminism)
  {
    var g, ts := Restart(Waited), [Spawn(9, 2, 100, 101)];
    assert ts[..0] == [];
    assert SpawnedAfter(g.spawned, ts[..0]) == g.spawned;
    assert SpawnedAfter(g.spawned, ts) == map[9 := 100];
    assert VerdictAt(g, ts, 0) == Place(100, false);
    assert At(g, 1) == Slot(1, 1);
    FailsOn(g, ts, 0, Put(Slot(1, 1), Entry(RunKind, 2, Some(100), false, false), false));
  }

  lemma NewThenLostVerdicts()
    ensures Valid(Lost(1, 3))
    ensures SpawnedAfter(Lost(1, 3).spawned, NewThenLost) == map[9 := 100, 7 := 201]
    ensures VerdictAt(Lost(1, 3), NewThenLost, 0) == Place(201, false)
    ensures VerdictAt(Lost(1, 3), NewThenLost, 1) == Place(302, false)
  {
    var g, ts := Lost(1, 3), NewThenLost;
    assert ts[..1] == [ts[0]] && [ts[0]][..0] == [] && ts[..0] == [];
    assert SpawnedAfter(g.spawned, ts[..0]) == g.spawned;
    assert SpawnedAfter(g.spawned, ts[..1]) == map[9 := 100, 7 := 201];
    assert !HasEntry(g.entries, 100);
  }

  lemma NewThenLostPlan()
    ensures Valid(Lost(1, 3))
    ensures Plan(Lost(1, 3), Run(NewThenLost)) ==
      [Put(Slot(2, 1), FirstChild, false), Put(Slot(3, 1), SecondChild, false)]
  {
    var g, ts := Lost(1, 3), NewThenLost;
    NewThenLostVerdicts();
    assert Offset(g, ts, 0) == 0 && Offset(g, ts, 1) == 1;
    assert At(g, 2) == Slot(2, 1) && At(g, 3) == Slot(3, 1);
    assert Plan(g, Run(ts))[0] == RunOpt(g, ts, 0) && Plan(g, Run(ts))[1] == RunOpt(g, ts, 1);
  }

  /** Two new entries. */
  lemma BothPut(entries: Entries, a: Opt, b: Opt)
    requires a.Put? && b.Put? && a.slot != b.slot && a.slot !in entries && b.slot !in entries
    ensures EntriesAfter(entries, [a, b]) == entries[a.slot := a.entry][b.slot := b.entry]
    ensures Deterministic(entries, [a, b]) && SkipsFound(EntriesAfter(entries, [a, b]), [a, b])
    ensures Results(entries, [a, b]) == [Result(a.slot, false), Result(b.slot, false)]
  {
    assert [a, b][..1] == [a] && [a][..0] == [];
    assert EntriesAfter(entries, [a]) == entries[a.slot := a.entry];
  }

  lemma MaxOfTwo(start: nat, a: Result, b: Result)
    requires start <= a.slot.node <= b.slot.node
    ensures MaxNode(start, [a, b]) == b.slot.node
  {
    assert [a, b][..1] == [a] && [a][..0] == [];
    assert MaxNode(start, [a]) == a.slot.node;
  }

  lemma TwoNew(g: Log, ts: seq<Trigger>, a: Opt, b: Opt)
    requires Valid(g) && Plan(g, Run(ts)) == [a, b] && a.Put? && b.Put? && a.slot !in g.entries && b.slot !in g.entries
    requires a.slot != b.slot && g.latestNode <= a.slot.node <= b.slot.node
    ensures Append(g, Run(ts)) == Done(
      g.(latestNode := b.slot.node, entries := g.entries[a.slot := a.entry][b.slot := b.entry],
         spawned := SpawnedAfter(g.spawned, ts)),
      [Result(a.slot, false), Result(b.slot, false)])
  {
    BothPut(g.entries, a, b);
    MaxOfTwo(g.latestNode, Result(a.slot, false), Result(b.slot, false));
  }

  /** In the third invocation the task waits again and then spawns keys 7 and 9: both get a node. */
  lemma NewThenLostSucceeds()
    ensures Valid(Lost(1, 3))
    ensures Append(Lost(1, 3), Run(NewThenLost)) ==
      Done(Spawned(3, 3), [Result(Slot(2, 1), false), Result(Slot(3, 1), false)])
  {
    NewThenLostVerdicts();
    NewThenLostPlan();
    TwoNew(Lost(1, 3), NewThenLost, Put(Slot(2, 1), FirstChild, false), Put(Slot(3, 1), SecondChild, false));
  }

  lemma AgainVerdicts()
    ensures Valid(Spawned(1, 4))
    ensures SpawnedAfter(Spawned(1, 4).spawned, NewThenLostAgain) == Spawned(1, 4).spawned
    ensures VerdictAt(Spawned(1, 4), NewThenLostAgain, 0) == Reuse(201)
    ensures VerdictAt(Spawned(1, 4), NewThenLostAgain, 1) == Place(312, false)
  {
    var g, ts := Spawned(1, 4), NewThenLostAgain;
    KeysAllKnown(g.spawned, ts);
    KeysAllKnown(g.spawned, ts[..0]);
    KeysAllKnown(g.spawned, ts[..1]);
    assert At(g, 2) == Slot(2, 1);
    assert ChildAt(g.entries, Slot(2, 1), 201);
    assert Live(g, 201) && !HasEntry(g.entries, 100);
  }

  lemma AgainOpt()
    ensures Valid(Spawned(1, 4))
    ensures RunOpt(Spawned(1, 4), NewThenLostAgain, 1) ==
      Put(Slot(2, 1), Entry(RunKind, 2, Some(312), false, false), false)
  {
    var g, ts := Spawned(1, 4), NewThenLostAgain;
    AgainVerdicts();
    assert Offset(g, ts, 0) == 0 && Offset(g, ts, 1) == 0;
    assert At(g, 2) == Slot(2, 1);
  }

  /** In the fourth invocation the same calls fail: key 9 now lands on the node that key 7 claimed. */
  lemma NewThenLostIsNotReplayed()
    ensures Valid(Spawned(1, 4))
    ensures Append(Spawned(1, 4), Run(NewThenLostAgain)) == Failed(Spawned(1, 4), NonDeterminism)
  {
    AgainVerdicts();
    AgainOpt();
    FailsOn(Spawned(1, 4), NewThenLostAgain, 1, Put(Slot(2, 1), Entry(RunKind, 2, Some(312), false, false), false));
  }

  /** A call, the log it was made on and what came of it. */
  datatype Made = Made(log: Log, request: Request, outcome: Outcome)

  ghost predicate Happens(c: Made) { Valid(c.log) && Append(c.log, c.request) == c.outcome }

  /** The next call is made on the log the last one left, in the same invocation or the next. */
  predicate Follows(c: Made, d: Made) {
    !c.outcome.Fatal? && (d.log == c.outcome.log || d.log == Restart(c.outcome.log))
  }

  const FourInvocations := [
    Made(NewLog, Wait(5), Done(Waited, [Result(Slot(1, 1), false)])),
    Made(Restart(Waited), Run([Spawn(9, 2, 100, 101)]), Failed(Lost(0, 2), NonDeterminism)),
    Made(Lost(0, 3), Wait(5), Done(Lost(1, 3), [Result(Slot(1, 1), true)])),
    Made(Lost(1, 3), Run(NewThenLost), Done(Spawned(3, 3), [Result(Slot(2, 1), false), Result(Slot(3, 1), false)])),
    Made(Spawned(0, 4), Wait(5), Done(Spawned(1, 4), [Result(Slot(1, 1), true)])),
    Made(Spawned(1, 4), Run(NewThenLostAgain), Failed(Spawned(1, 4), NonDeterminism))]

  /**
   From a new task's log on, in four invocations: the calls of the third succeed, the same calls in the
   fourth fail.
   */
  lemma SameCallsFail()
    ensures forall i | 0 <= i < |FourInvocations| :: Happens(FourInvocations[i])
    ensures forall i | 0 < i < |FourInvocations| :: Follows(FourInvocations[i - 1], FourInvocations[i])
    ensures SameTriggers(NewThenLost, NewThenLostAgain)
  {
    forall i | 0 <= i < |FourInvocations| ensures Happens(FourInvocations[i]) {
      CallHappens(i);
    }
    CallsFollow();
  }

  lemma CallsFollow()
    ensures forall i | 0 < i < |FourInvocations| :: Follows(FourInvocations[i - 1], FourInvocations[i])
  {}

  lemma CallHappens(i: nat)
    requires i < |FourInvocations|
    ensures Happens(FourInvocations[i])
  {
    if i == 0 {
      WaitAppends(NewLog, 5, Slot(1, 1));
    } else if i == 1 {
      SpawnFails();
    } else if i == 2 {
      WaitAppends(Lost(0, 3), 5, Slot(1, 1));
    } else if i == 3 {
      NewThenLostSucceeds();
    } else if i == 4 {
      WaitAppends(Spawned(0, 4), 5, Slot(1, 1));
    } else {
      NewThenLostIsNotReplayed();
    }
  }

  // ---------------------------------------------------------------- a key used twice in one request

  /** Two triggers of one request with the same new key get two children and two nodes. */
  lemma NewKeyTwiceSpawnsTwice(g: Log, ts: seq<Trigger>, j: nat, k: nat)
    requires Valid(g) && FreshIds(g, ts) && j < k < |ts| && NewKey(g, ts[k]) && ts[j].key == ts[k].key
    ensures VerdictAt(g, ts, k) == Place(ts[k].replacement, false)
    ensures VerdictAt(g, ts, j).Place? && VerdictAt(g, ts, j).child != VerdictAt(g, ts, k).child
    ensures SlotOf(g, ts, j) != SlotOf(g, ts, k)
  {
    VerdictCases(g, ts, j);
    VerdictCases(g, ts, k);
    KeyBefore(g, ts, k);
    OffsetGrows(g, ts, j, k);
  }

  // ---------------------------------------------------------------- reused children have an entry

  /** The failure "no entry for a reused child" cannot happen, whatever the request. */
  lemma ReusedChildIsFound(g: Log, r: Request)
    requires Valid(g)
    ensures Append(g, r) != Fatal(EntryNotFound)
  {
    if r.Run? {
      var opts := Plan(g, r);
      forall k | 0 <= k < |opts| && opts[k].Skip? ensures HasEntry(EntriesAfter(g.entries, opts), opts[k].child) {
        assert opts[k] == RunOpt(g, r.triggers, k);
        var s :| ChildAt(g.entries, s, opts[k].child);
        AfterKeeps(g.entries, opts, s);
        assert ChildAt(EntriesAfter(g.entries, opts), s, opts[k].child);
      }
    }
  }

  /** A placed child is marked as already spawned exactly when it is replayed in place and its newest entry was. */
  lemma ReplayedExactlyWhenTriggered(g: Log, ts: seq<Trigger>, k: nat)
    requires Valid(g) && FreshIds(g, ts) && k < |ts| && VerdictAt(g, ts, k).Place?
    ensures VerdictAt(g, ts, k).replayed <==>
      InPlace(g, ts[k]) && g.entries[Newest(g.entries, g.spawned[ts[k].key.value])].triggered
  {
    VerdictCases(g, ts, k);
    if ts[k].key.Some? {
      KeyBefore(g, ts, k);
    }
  }

  // ---------------------------------------------------------------- the order of the results

  /**
   Results are reported by node. Where a child is reused after a trigger that takes a node, they come in the
   order of the triggers only if the child's entry lies above the latest node.
   */
  lemma ReusedIsReportedFirst(g: Log, ts: seq<Trigger>, j: nat, k: nat)
    requires Valid(g) && Append(g, Run(ts)).Done? && j < k < |ts|
    requires VerdictAt(g, ts, j).Place? && VerdictAt(g, ts, k).Reuse?
    ensures |Append(g, Run(ts)).results| == |ts|
    ensures GetOrCreate.BySlot(Append(g, Run(ts)).results) ==> g.latestNode < Append(g, Run(ts)).results[k].slot.node
  {
    var opts, results := Plan(g, Run(ts)), Append(g, Run(ts)).results;
    assert opts[j] == RunOpt(g, ts, j);
    if GetOrCreate.BySlot(results) {
      assert GetOrCreate.NotBefore(results[k], results[j]);
    }
  }
}
