/**
 Whole invocations: a task that starts over and issues the calls of its last invocation again. Exactly which
 calls find the entries they had is decided by what happened to their children in between.
 */
module ReplayPasses {
  import opened DurableLog
  import opened RequestEffects
  import opened DurableReplay

  // ---------------------------------------------------------------- the same call again

  /** The same call, with other ids to draw on. */
  ghost predicate SameTrigger(t: Trigger, t': Trigger) {
    t' == t.(candidate := t'.candidate, replacement := t'.replacement)
  }

  ghost predicate SameTriggers(ts: seq<Trigger>, ts': seq<Trigger>) {
    |ts'| == |ts| && forall k | 0 <= k < |ts| :: SameTrigger(ts[k], ts'[k])
  }

  ghost predicate SameRequest(r: Request, r': Request) {
    if r.Run? then r'.Run? && SameTriggers(r.triggers, r'.triggers) else r' == r
  }

  ghost predicate SameRequests(rs: seq<Request>, rs': seq<Request>) {
    |rs'| == |rs| && forall k | 0 <= k < |rs| :: SameRequest(rs[k], rs'[k])
  }

  lemma {:induction false} SameNodesTaken(g: Log, ts: seq<Trigger>, ts': seq<Trigger>, k: nat)
    requires Valid(g) && SameTriggers(ts, ts') && k <= |ts|
    ensures NodesTaken(g, ts', k) == NodesTaken(g, ts, k)
  {
    if k > 0 {
      SameNodesTaken(g, ts, ts', k - 1);
      assert SameTrigger(ts[k - 1], ts'[k - 1]);
    }
  }

  lemma {:induction false} TriggerForSame(g: Log, base: nat, ts: seq<Trigger>, ts': seq<Trigger>, s: Slot, k: nat)
    requires Valid(g) && SameTriggers(ts, ts') && k < |ts|
    ensures FoundAt(g, base, ts', s, k) <==> FoundAt(g, base, ts, s, k)
  {
    SameNodesTaken(g, ts, ts', k);
    assert SameTrigger(ts[k], ts'[k]);
  }

  /** What a request finds does not depend on the ids it brings. */
  lemma FoundForSame(g: Log, base: nat, r: Request, r': Request, slots: seq<Slot>)
    requires Valid(g) && SameRequest(r, r')
    ensures Found(g, base, r', slots) <==> Found(g, base, r, slots)
  {
    if r.Run? && |slots| == |r.triggers| {
      forall k | 0 <= k < |slots|
        ensures FoundAt(g, base, r'.triggers, slots[k], k) <==> FoundAt(g, base, r.triggers, slots[k], k)
      {
        TriggerForSame(g, base, r.triggers, r'.triggers, slots[k], k);
      }
    }
  }

  lemma KnownForSame(g: Log, r: Request, r': Request)
    requires Known(g, r) && SameRequest(r, r')
    ensures Known(g, r')
  {
    if r.Run? {
      assert forall j | 0 <= j < |r.triggers| :: SameTrigger(r.triggers[j], r'.triggers[j]);
    }
  }

  // ---------------------------------------------------------------- marks

  /** Between requests entries are satisfied and children are triggered; nothing else changes. */
  ghost predicate OnlyMarks(g: Log, g': Log) {
    && g'.points == g.points && g'.latestBranch == g.latestBranch && g'.forced == g.forced && g'.spawned == g.spawned
    && g'.entries.Keys == g.entries.Keys
    && (forall s | s in g.entries :: SameUpToMarks(g.entries[s], g'.entries[s]))
  }

  ghost predicate Marked(g: Log, g': Log) {
    OnlyMarks(g, g') && g'.latestNode == g.latestNode && g'.invocation == g.invocation
  }

  lemma MarksGrow(g: Log, g': Log)
    requires Valid(g) && OnlyMarks(g, g')
    ensures Grows(g, g')
  {
    assert forall s | s in g.entries :: s in g'.entries.Keys;
    assert forall s | s in g'.entries :: s in g'.entries.Keys;
  }

  lemma MarksCompose(a: Log, b: Log, c: Log)
    requires OnlyMarks(a, b) && OnlyMarks(b, c)
    ensures OnlyMarks(a, c)
  {
    assert forall s | s in a.entries :: s in b.entries.Keys;
  }

  // ---------------------------------------------------------------- one call, then and later

  ghost predicate FreshRequest(g: Log, r: Request) { r.Run? ==> FreshIds(g, r.triggers) }

  /** The request succeeds and gets the entries at `slots`. */
  ghost predicate Succeeds(g: Log, r: Request, slots: seq<Slot>) {
    Valid(g) && FreshRequest(g, r) && Append(g, r).Done? && slots == Slots(Append(g, r).results)
  }

  /**
   What it takes for a call made at `g`, which left `a` behind, to find its entries at `h`: its triggers are
   ordered and settle on their children's newest slots, and nothing disturbed the hidden children among
   them in between.
   */
  ghost predicate Lasts(g: Log, r: Request, a: Log, h: Log)
    requires Valid(g) && Valid(a)
  {
    r.Run? ==> Ordered(g, r.triggers) && SettlesOnNewest(g, r.triggers) && AllUndisturbed(a, h, r.triggers)
  }

  /** What a wait or memo leaves behind. */
  lemma SingleLog(g: Log, r: Request)
    requires Valid(g) && (r.Wait? || r.Memo?) && Append(g, r).Done?
    ensures var o, g' := Plan(g, r)[0], Append(g, r).log;
      && g' == g.(entries := g'.entries, latestNode := g'.latestNode)
      && g'.entries == (if o.slot in g.entries then g.entries else g.entries[o.slot := o.entry])
      && Append(g, r).results == [Result(o.slot, o.slot in g.entries)]
      && (o.slot in g.entries ==> g.entries[o.slot].idem == o.entry.idem)
  {
    var opts := Plan(g, r);
    assert opts[..0] == [];
    assert EntriesAfter(g.entries, []) == g.entries;
    assert Results(g.entries, opts) == [Result(opts[0].slot, opts[0].slot in g.entries)];
  }

  lemma PutGrows(g: Log, s: Slot, e: Entry, n: nat)
    requires Valid(g) && 0 <= s.node && s == At(g, s.node) && s !in g.entries && e.child.None?
    ensures Grows(g, g.(entries := g.entries[s := e], latestNode := n))
  {}

  lemma SingleGrows(g: Log, r: Request)
    requires Valid(g) && (r.Wait? || r.Memo?) && Append(g, r).Done?
    ensures Grows(g, Append(g, r).log)
  {
    var o, g' := Plan(g, r)[0], Append(g, r).log;
    SingleLog(g, r);
    if o.slot !in g.entries {
      PutGrows(g, o.slot, o.entry, g'.latestNode);
    }
  }

  lemma SingleIsFound(g: Log, r: Request, slots: seq<Slot>)
    requires Succeeds(g, r, slots) && !r.Run?
    ensures Valid(Append(g, r).log) && Found(Append(g, r).log, g.latestNode + 1, r, slots)
  {
    SingleLog(g, r);
    SingleGrows(g, r);
    SameAt(g, Append(g, r).log, g.latestNode + 1);
  }

  lemma SuccessGrows(g: Log, r: Request, slots: seq<Slot>)
    requires Succeeds(g, r, slots)
    ensures Grows(g, Append(g, r).log) && Known(Append(g, r).log, r)
  {
    if r.Run? {
      AppendedGrows(g, r.triggers, Append(g, r).log);
      KnowsKeysAfter(g, r.triggers, Append(g, r).log);
    } else {
      SingleGrows(g, r);
    }
  }

  lemma SlotsAreGot(g: Log, ts: seq<Trigger>, slots: seq<Slot>)
    requires Succeeds(g, Run(ts), slots)
    ensures Got(g, ts, slots)
  {}

  lemma {:induction false} NodesTakenShrink(g: Log, h: Log, ts: seq<Trigger>, k: nat)
    requires Grows(g, h) && k <= |ts|
    ensures NodesTaken(h, ts, k) <= NodesTaken(g, ts, k)
  {
    if k > 0 {
      NodesTakenShrink(g, h, ts, k - 1);
      if Reuses(g, ts[k - 1]) {
        KeptStaysReused(g, h, ts[k - 1]);
      }
    }
  }

  lemma SameSlotsKept(g: Log, h: Log, s: Slot, c: Id)
    requires Grows(g, h) && s in g.entries
    ensures ChildAt(h.entries, s, c) <==> ChildAt(g.entries, s, c)
    ensures IsNewest(h.entries, s, c) ==> IsNewest(g.entries, s, c)
  {
    if IsNewest(h.entries, s, c) {
      forall x | ChildAt(g.entries, x, c) ensures AsNew(s, x) {
        assert ChildAt(h.entries, x, c);
      }
    }
  }

  /** Where a slot lies for a trigger to have landed on it at `g`. */
  ghost predicate Landed(g: Log, base: nat, ts: seq<Trigger>, s: Slot, k: nat)
    requires Valid(g) && k < |ts|
  {
    s in g.entries && (Reuses(g, ts[k]) || (s == At(g, s.node) && base + NodesTaken(g, ts, k) <= s.node))
  }

  lemma {:induction false} FoundLaterWasFound(g: Log, h: Log, base: nat, ts: seq<Trigger>, s: Slot, k: nat)
    requires Grows(g, h) && k < |ts| && KnowsKeys(g, ts) && Landed(g, base, ts, s, k) && FoundAt(h, base, ts, s, k)
    ensures FoundAt(g, base, ts, s, k)
  {
    var t := ts[k];
    if Reuses(g, t) {
      KeptStaysReused(g, h, t);
      SameSlotsKept(g, h, s, g.spawned[t.key.value]);
    } else {
      if Reuses(h, t) {
        SameSlotsKept(g, h, s, g.spawned[t.key.value]);
        ShownMeansReused(g, t, s);
      }
      NodesTakenShrink(g, h, ts, k);
      assert s.node == base + NodesTaken(g, ts, k);
    }
  }

  lemma {:induction false} PlacedHasLanded(g: Log, ts: seq<Trigger>, g': Log, k: nat)
    requires Valid(g) && Valid(g') && g'.points == g.points && g'.latestBranch == g.latestBranch && k < |ts|
    requires NodesTaken(g', ts, k) <= Offset(g, ts, k) && SlotOf(g, ts, k) in g'.entries
    ensures Landed(g', g.latestNode + 1, ts, SlotOf(g, ts, k), k)
  {
    SlotIsShown(g, ts, g', k);
  }

  lemma {:induction false} ResultHasLanded(g: Log, ts: seq<Trigger>, g': Log, s: Slot, k: nat)
    requires Appended(g, ts, g') && Valid(g') && AllReusedAgain(g, ts, g') && k < |ts| && LandsAt(g, ts, k, s)
    ensures Landed(g', g.latestNode + 1, ts, s, k)
  {
    if Reuses(g, ts[k]) {
      ReuseIsFound(g, ts, g', g.latestNode + 1, s, k);
      assert ReusedAgain(g, ts, g', k);
    } else {
      LandedAt(g, ts, g', s, k);
      PlacedAt(g, ts, g', k);
      SameFile(g, ts, g');
      NodesTakenAfter(g, ts, g', k);
      PlacedHasLanded(g, ts, g', k);
    }
  }

  /** What a request does not find at once it does not find later. */
  lemma {:induction false} NeverFoundLater(g: Log, ts: seq<Trigger>, g': Log, slots: seq<Slot>, h: Log)
    requires Appended(g, ts, g') && Got(g, ts, slots) && Grows(g', h) && FoundAll(h, g.latestNode + 1, ts, slots)
    ensures FoundAll(g', g.latestNode + 1, ts, slots)
  {
    RequestIsReusedAgain(g, ts, g');
    KnowsKeysAfter(g, ts, g');
    forall k | 0 <= k < |ts| ensures FoundAt(g', g.latestNode + 1, ts, slots[k], k) {
      assert LandsAt(g, ts, k, slots[k]);
      ResultHasLanded(g, ts, g', slots[k], k);
      FoundLaterWasFound(g', h, g.latestNode + 1, ts, slots[k], k);
    }
  }

  lemma {:induction false} RunLasts(g: Log, ts: seq<Trigger>, slots: seq<Slot>, g': Log, h: Log)
    requires Succeeds(g, Run(ts), slots) && g' == Append(g, Run(ts)).log && Grows(g', h)
    ensures FoundAll(h, g.latestNode + 1, ts, slots) <==> Lasts(g, Run(ts), g', h)
  {
    SlotsAreGot(g, ts, slots);
    FoundAtOnceExactly(g, ts, g', slots);
    KnowsKeysAfter(g, ts, g');
    if FoundAll(g', g.latestNode + 1, ts, slots) {
      StaysFoundExactly(g', h, g.latestNode + 1, ts, slots);
    } else if FoundAll(h, g.latestNode + 1, ts, slots) {
      NeverFoundLater(g, ts, g', slots, h);
    }
  }

  /** A successful call finds its entries at a later log exactly when it lasts. */
  lemma {:induction false} CallLasts(g: Log, r: Request, slots: seq<Slot>, a: Log, h: Log)
    requires Succeeds(g, r, slots) && a == Append(g, r).log && Grows(a, h)
    ensures Found(h, g.latestNode + 1, r, slots) <==> Lasts(g, r, a, h)
  {
    if r.Run? {
      RunLasts(g, r.triggers, slots, a, h);
    } else {
      SingleIsFound(g, r, slots);
      SameAt(a, h, g.latestNode + 1);
    }
  }

  /** What the same call finds again, and what it leaves behind. */
  lemma {:induction false} SameCallFinds(g: Log, r: Request, r': Request, slots: seq<Slot>)
    requires Valid(g) && Known(g, r) && SameRequest(r, r')
    ensures Finds(g, r', slots) <==> Found(g, g.latestNode + 1, r, slots)
    ensures Finds(g, r', slots) ==> Append(g, r').log == g.(latestNode := MaxNode(g.latestNode, Existing(slots)))
  {
    FoundForSame(g, g.latestNode + 1, r, r', slots);
    KnownForSame(g, r, r');
    FindsExactly(g, r', slots);
  }

  // ---------------------------------------------------------------- an invocation, and the same calls again

  /** One successful call, which leaves `a` behind, and the marks made before the next. */
  ghost predicate PassStep(g: Log, r: Request, a: Log, g': Log, slots: seq<Slot>) {
    Succeeds(g, r, slots) && a == Append(g, r).log && Marked(a, g')
  }

  /** An invocation: the log before each call and at the end, what each call left behind, and what it got. */
  datatype Invocation = Invocation(logs: seq<Log>, afters: seq<Log>, calls: seq<Request>, outs: seq<seq<Slot>>)

  ghost predicate PassStepAt(p: Invocation, i: int)
    requires 0 <= i < |p.calls| == |p.afters| == |p.outs| && |p.logs| == |p.calls| + 1
  {
    PassStep(p.logs[i], p.calls[i], p.afters[i], p.logs[i + 1], p.outs[i])
  }

  ghost predicate Shaped(p: Invocation) { |p.calls| == |p.afters| == |p.outs| && |p.logs| == |p.calls| + 1 }

  /** Successful calls one after another, from the start of an invocation. */
  ghost predicate Pass(p: Invocation) {
    && Shaped(p)
    && Valid(p.logs[0]) && p.logs[0].latestNode == 0
    && (forall i | 0 <= i < |p.calls| :: PassStepAt(p, i))
  }

  function End(p: Invocation): Log
    requires Shaped(p)
  {
    p.logs[|p.calls|]
  }

  ghost predicate Answered(g: Log, r: Request, g': Log) {
    Valid(g) && Append(g, r).Done? ==> Marked(Append(g, r).log, g')
  }

  ghost predicate AnsweredAt(logs: seq<Log>, rs: seq<Request>, i: int)
    requires 0 <= i < |rs| && |logs| == |rs| + 1
  {
    Answered(logs[i], rs[i], logs[i + 1])
  }

  /** The calls are made again from `start`; if one is answered, the next sees the log it left. */
  ghost predicate SecondPass(start: Log, again: seq<Log>, rs: seq<Request>) {
    && |again| == |rs| + 1
    && Marked(start, again[0])
    && (forall i | 0 <= i < |rs| :: AnsweredAt(again, rs, i))
  }

  lemma {:induction false} MaxNodeBySlots(start: nat, a: seq<Result>, b: seq<Result>)
    requires |a| == |b| && forall k | 0 <= k < |a| :: a[k].slot == b[k].slot
    ensures MaxNode(start, a) == MaxNode(start, b)
  {
    if a != [] {
      MaxNodeBySlots(start, a[..|a| - 1], b[..|b| - 1]);
    }
  }

  lemma NodeAfter(g: Log, r: Request, slots: seq<Slot>)
    requires Succeeds(g, r, slots)
    ensures Append(g, r).log.latestNode == MaxNode(g.latestNode, Existing(slots))
  {
    MaxNodeBySlots(g.latestNode, Append(g, r).results, Existing(slots));
  }

  lemma KnownStays(g: Log, h: Log, r: Request)
    requires Grows(g, h) && Known(g, r)
    ensures Known(h, r)
  {}

  lemma StepGrows(g: Log, r: Request, a: Log, g': Log, slots: seq<Slot>)
    requires PassStep(g, r, a, g', slots)
    ensures Grows(g, g') && Grows(a, g') && Known(g', r)
    ensures g'.latestNode == MaxNode(g.latestNode, Existing(slots))
  {
    SuccessGrows(g, r, slots);
    MarksGrow(a, g');
    GrowsOn(g, a, g');
    KnownStays(a, g', r);
    NodeAfter(g, r, slots);
  }

  lemma PassStepGrows(p: Invocation, i: nat)
    requires Pass(p) && i < |p.calls|
    ensures Grows(p.logs[i], p.logs[i + 1]) && Grows(p.afters[i], p.logs[i + 1]) && Known(p.logs[i + 1], p.calls[i])
    ensures p.logs[i + 1].latestNode == MaxNode(p.logs[i].latestNode, Existing(p.outs[i]))
  {
    assert PassStepAt(p, i);
    StepGrows(p.logs[i], p.calls[i], p.afters[i], p.logs[i + 1], p.outs[i]);
  }

  /** What a call leaves behind grows to what every later call finds. */
  lemma {:induction false} PassGrows(p: Invocation, i: nat, j: nat)
    requires Pass(p) && i < j <= |p.calls|
    ensures Grows(p.afters[i], p.logs[j]) && Known(p.logs[j], p.calls[i])
    decreases j
  {
    PassStepGrows(p, j - 1);
    if i + 1 < j {
      PassGrows(p, i, j - 1);
      GrowsOn(p.afters[i], p.logs[j - 1], p.logs[j]);
      KnownStays(p.logs[j - 1], p.logs[j], p.calls[i]);
    }
  }

  /** The latest node after the first `i` calls got `outs`. */
  function Position(outs: seq<seq<Slot>>, i: nat): nat
    requires i <= |outs|
  {
    if i == 0 then 0 else MaxNode(Position(outs, i - 1), Existing(outs[i - 1]))
  }

  lemma {:induction false} PassPosition(p: Invocation, i: nat)
    requires Pass(p) && i <= |p.calls|
    ensures Valid(p.logs[i]) && p.logs[i].latestNode == Position(p.outs, i)
  {
    if i > 0 {
      PassPosition(p, i - 1);
      PassStepGrows(p, i - 1);
    }
  }

  /** Call `i` of the pass lasts until `h`. */
  ghost predicate LastsAt(p: Invocation, i: int, h: Log)
    requires Shaped(p) && 0 <= i < |p.calls|
  {
    Valid(p.logs[i]) && Valid(p.afters[i]) && Lasts(p.logs[i], p.calls[i], p.afters[i], h)
  }

  lemma {:induction false} StepLasts(g: Log, r: Request, a: Log, g': Log, slots: seq<Slot>, h: Log, base: nat)
    requires PassStep(g, r, a, g', slots) && Grows(a, h) && base == g.latestNode + 1
    ensures Found(h, base, r, slots) <==> Lasts(g, r, a, h)
  {
    CallLasts(g, r, slots, a, h);
  }

  lemma {:induction false} FoundIfLasts(p: Invocation, i: nat, h: Log, base: nat)
    requires Pass(p) && i < |p.calls| && Grows(p.afters[i], h) && base == Position(p.outs, i) + 1
    ensures Found(h, base, p.calls[i], p.outs[i]) <==> LastsAt(p, i, h)
  {
    PassPosition(p, i);
    assert PassStepAt(p, i);
    StepLasts(p.logs[i], p.calls[i], p.afters[i], p.logs[i + 1], p.outs[i], h, base);
  }

  /** Call `i` of the pass, at a log that differs from the end of the pass by marks only. */
  lemma {:induction false} FoundAtEnd(p: Invocation, i: nat, h: Log, base: nat)
    requires Pass(p) && i < |p.calls| && OnlyMarks(End(p), h) && base == Position(p.outs, i) + 1
    ensures Valid(h) && Known(h, p.calls[i])
    ensures Found(h, base, p.calls[i], p.outs[i]) <==> LastsAt(p, i, h)
  {
    PassPosition(p, |p.calls|);
    PassGrows(p, i, |p.calls|);
    MarksGrow(End(p), h);
    GrowsOn(p.afters[i], End(p), h);
    KnownStays(End(p), h, p.calls[i]);
    FoundIfLasts(p, i, h, base);
  }

  /** The call finds the entries at `slots`, and the next call sees the log but for its position and marks. */
  lemma {:induction false} FindingKeeps(g: Log, r: Request, r': Request, slots: seq<Slot>, g': Log, base: nat)
    requires Valid(g) && Known(g, r) && SameRequest(r, r') && Answered(g, r', g') && base == g.latestNode + 1
    ensures Finds(g, r', slots) <==> Found(g, base, r, slots)
    ensures Finds(g, r', slots) ==> OnlyMarks(g, g') && g'.latestNode == MaxNode(g.latestNode, Existing(slots))
  {
    SameCallFinds(g, r, r', slots);
  }

  lemma {:induction false} CallIsFoundAgain(p: Invocation, again: seq<Log>, rs': seq<Request>, i: nat, next: nat)
    requires Pass(p) && SameRequests(p.calls, rs') && |again| == |rs'| + 1 && i < |rs'| && AnsweredAt(again, rs', i)
    requires OnlyMarks(End(p), again[i]) && again[i].latestNode == Position(p.outs, i) && next == i + 1
    ensures FindsAt(again, rs', p.outs, i) <==> LastsAt(p, i, again[i])
    ensures FindsAt(again, rs', p.outs, i) ==>
      OnlyMarks(End(p), again[next]) && again[next].latestNode == Position(p.outs, next)
  {
    var base := again[i].latestNode + 1;
    FoundAtEnd(p, i, again[i], base);
    assert SameRequest(p.calls[i], rs'[i]);
    FindingKeeps(again[i], p.calls[i], rs'[i], p.outs[i], again[next], base);
    if FindsAt(again, rs', p.outs, i) {
      MarksCompose(End(p), again[i], again[next]);
    }
  }

  ghost predicate FindsAt(again: seq<Log>, rs': seq<Request>, outs: seq<seq<Slot>>, i: int)
    requires 0 <= i < |rs'| == |outs| && |again| == |rs'| + 1
  {
    Finds(again[i], rs'[i], outs[i])
  }

  ghost predicate FoundUpTo(again: seq<Log>, rs': seq<Request>, outs: seq<seq<Slot>>, m: nat)
    requires m <= |rs'| == |outs| && |again| == |rs'| + 1
  {
    forall i | 0 <= i < m :: FindsAt(again, rs', outs, i)
  }

  ghost predicate LastUpTo(p: Invocation, again: seq<Log>, m: nat)
    requires Shaped(p) && m <= |p.calls| && |again| == |p.logs|
  {
    forall i | 0 <= i < m :: LastsAt(p, i, again[i])
  }

  /** While the calls before it are found, a call of the second pass starts where it started in the first. */
  lemma {:induction false} SecondPassPosition(p: Invocation, again: seq<Log>, rs': seq<Request>, i: nat)
    requires Pass(p) && SameRequests(p.calls, rs') && SecondPass(Restart(End(p)), again, rs')
    requires i <= |p.calls| && FoundUpTo(again, rs', p.outs, i)
    ensures OnlyMarks(End(p), again[i]) && again[i].latestNode == Position(p.outs, i)
  {
    if i == 0 {
      SecondPassStart(p, again, rs');
    } else {
      FoundOneMore(again, rs', p.outs, i - 1, i);
      SecondPassPosition(p, again, rs', i - 1);
      assert AnsweredAt(again, rs', i - 1);
      CallIsFoundAgain(p, again, rs', i - 1, i);
    }
  }

  lemma SecondPassStart(p: Invocation, again: seq<Log>, rs': seq<Request>)
    requires Shaped(p) && SecondPass(Restart(End(p)), again, rs')
    ensures OnlyMarks(End(p), again[0]) && again[0].latestNode == 0
  {
    MarksCompose(End(p), Restart(End(p)), again[0]);
  }

  lemma FoundOneMore(again: seq<Log>, rs': seq<Request>, outs: seq<seq<Slot>>, m: nat, next: nat)
    requires m < |rs'| == |outs| && |again| == |rs'| + 1 && next == m + 1
    ensures FoundUpTo(again, rs', outs, next) <==> FoundUpTo(again, rs', outs, m) && FindsAt(again, rs', outs, m)
  {}

  /** A call of the second pass whose predecessors are found is found exactly when it lasts. */
  lemma {:induction false} NextIsFound(p: Invocation, again: seq<Log>, rs': seq<Request>, i: nat)
    requires Pass(p) && SameRequests(p.calls, rs') && SecondPass(Restart(End(p)), again, rs')
    requires i < |p.calls| && FoundUpTo(again, rs', p.outs, i)
    ensures FindsAt(again, rs', p.outs, i) <==> LastsAt(p, i, again[i])
  {
    SecondPassPosition(p, again, rs', i);
    assert AnsweredAt(again, rs', i);
    CallIsFoundAgain(p, again, rs', i, i + 1);
  }

  lemma LastsOneMore(p: Invocation, again: seq<Log>, m: nat, next: nat)
    requires Shaped(p) && m < |p.calls| && |again| == |p.logs| && next == m + 1
    ensures LastUpTo(p, again, next) <==> LastUpTo(p, again, m) && LastsAt(p, m, again[m])
  {}

  lemma {:induction false} FoundExactlyAsFar(p: Invocation, again: seq<Log>, rs': seq<Request>, m: nat)
    requires Pass(p) && SameRequests(p.calls, rs') && SecondPass(Restart(End(p)), again, rs') && m <= |p.calls|
    ensures FoundUpTo(again, rs', p.outs, m) <==> LastUpTo(p, again, m)
  {
    if m > 0 {
      FoundExactlyAsFar(p, again, rs', m - 1);
      FoundOneMore(again, rs', p.outs, m - 1, m);
      LastsOneMore(p, again, m - 1, m);
      if FoundUpTo(again, rs', p.outs, m - 1) {
        NextIsFound(p, again, rs', m - 1);
      }
    }
  }

  /**
   A task is restarted and makes the calls of its last invocation again. As far as its calls last they find
   the entries they had, and no further: the first call that does not find them is the first that does not
   last. While they are found no entry and no key is added.
   */
  lemma {:induction false} ReplayExactly(p: Invocation, again: seq<Log>, rs': seq<Request>, m: nat)
    requires Pass(p) && SameRequests(p.calls, rs') && SecondPass(Restart(End(p)), again, rs') && m <= |p.calls|
    ensures FoundUpTo(again, rs', p.outs, m) <==> LastUpTo(p, again, m)
    ensures FoundUpTo(again, rs', p.outs, m) ==>
      again[m].entries.Keys == End(p).entries.Keys && again[m].spawned == End(p).spawned
  {
    FoundExactlyAsFar(p, again, rs', m);
    if FoundUpTo(again, rs', p.outs, m) {
      SecondPassPosition(p, again, rs', m);
    }
  }

  // ---------------------------------------------------------------- calls that do not replay orphans

  ghost predicate PlainTriggers(ts: seq<Trigger>) { forall k | 0 <= k < |ts| :: !ts[k].replayOrphans }

  ghost predicate Plain(r: Request) { r.Run? ==> PlainTriggers(r.triggers) }

  ghost predicate AllPlain(p: Invocation) { forall k | 0 <= k < |p.calls| :: Plain(p.calls[k]) }

  /** No child the log knew has gained an entry. */
  ghost predicate Still(g: Log, h: Log) { forall k | k in g.spawned :: GainsNothing(g, h, g.spawned[k]) }

  lemma PlainIsStill(g: Log, r: Request, slots: seq<Slot>)
    requires Succeeds(g, r, slots) && Plain(r)
    ensures Still(g, Append(g, r).log)
  {
    var a := Append(g, r).log;
    forall k, s | k in g.spawned ensures !Gains(g, a, g.spawned[k], s) {
      if Gains(g, a, g.spawned[k], s) {
        if r.Run? {
          var j := KnownChildGains(g, r.triggers, a, k, s);
        } else {
          SingleLog(g, r);
        }
      }
    }
  }

  lemma StillOn(a: Log, b: Log, c: Log)
    requires Grows(a, b) && Grows(b, c) && Still(a, b) && Still(b, c)
    ensures Still(a, c)
  {
    forall k, s | k in a.spawned ensures !Gains(a, c, a.spawned[k], s) {
      assert GainsNothing(a, b, a.spawned[k]) && !Gains(a, b, a.spawned[k], s);
      assert GainsNothing(b, c, b.spawned[k]) && !Gains(b, c, b.spawned[k], s);
    }
  }

  lemma MarksAreStill(g: Log, h: Log)
    requires OnlyMarks(g, h)
    ensures Still(g, h)
  {
    forall k, s | k in g.spawned ensures !Gains(g, h, g.spawned[k], s) {
      assert s in h.entries <==> s in g.entries.Keys;
    }
  }

  lemma PlainStep(p: Invocation, i: nat)
    requires Pass(p) && i < |p.calls| && Plain(p.calls[i])
    ensures Still(p.logs[i], p.logs[i + 1]) && Still(p.afters[i], p.logs[i + 1])
  {
    assert PassStepAt(p, i);
    SuccessGrows(p.logs[i], p.calls[i], p.outs[i]);
    PlainIsStill(p.logs[i], p.calls[i], p.outs[i]);
    MarksAreStill(p.afters[i], p.logs[i + 1]);
    MarksGrow(p.afters[i], p.logs[i + 1]);
    StillOn(p.logs[i], p.afters[i], p.logs[i + 1]);
  }

  lemma {:induction false} StillLater(p: Invocation, i: nat, j: nat)
    requires Pass(p) && i < j < |p.calls| && Plain(p.calls[j]) && Still(p.afters[i], p.logs[j])
    ensures Still(p.afters[i], p.logs[j + 1])
  {
    PlainStep(p, j);
    PassGrows(p, i, j);
    PassStepGrows(p, j);
    StillOn(p.afters[i], p.logs[j], p.logs[j + 1]);
  }

  lemma {:induction false} PlainPass(p: Invocation, i: nat, j: nat)
    requires Pass(p) && i < j <= |p.calls| && AllPlain(p)
    ensures Still(p.afters[i], p.logs[j])
    decreases j
  {
    assert Plain(p.calls[j - 1]);
    if i + 1 == j {
      PlainStep(p, i);
    } else {
      PlainPass(p, i, j - 1);
      StillLater(p, i, j - 1);
    }
  }

  lemma StillIsUndisturbed(a: Log, h: Log, ts: seq<Trigger>)
    requires Valid(a) && Still(a, h) && PlainTriggers(ts)
    ensures AllUndisturbed(a, h, ts)
  {
    forall k | 0 <= k < |ts| ensures Undisturbed(a, h, ts[k]) {
      if ts[k].key.Some? && ts[k].key.value in a.spawned {
        assert GainsNothing(a, h, a.spawned[ts[k].key.value]);
      }
    }
  }

  /** No trigger repeats a new key that a trigger of the request claims a slot for. */
  ghost predicate SettlesOnce(g: Log, ts: seq<Trigger>)
    requires Valid(g)
  {
    forall k | 0 <= k < |ts| && Settles(g, ts, k) :: FirstUse(ts, k)
  }

  lemma {:induction false} PlainClaim(g: Log, ts: seq<Trigger>, k: nat)
    requires Valid(g) && PlainTriggers(ts) && k < |ts| && Settles(g, ts, k)
    ensures ClaimsNewest(g, ts, k) <==> FirstUse(ts, k)
  {
    var j :| 0 <= j < |ts| && Claims(g, ts, j) && ts[j].key == ts[k].key;
    assert FirstUse(ts, j);
    if FirstUse(ts, k) {
      assert j == k;
    }
  }

  lemma PlainSettles(g: Log, ts: seq<Trigger>)
    requires Valid(g) && PlainTriggers(ts)
    ensures SettlesOnNewest(g, ts) <==> SettlesOnce(g, ts)
  {
    forall k | 0 <= k < |ts| && Settles(g, ts, k) ensures ClaimsNewest(g, ts, k) <==> FirstUse(ts, k) {
      PlainClaim(g, ts, k);
    }
  }

  /** Call `i` is ordered and repeats no new key that it claims a slot for. */
  ghost predicate OrderedAt(p: Invocation, i: int)
    requires Shaped(p) && 0 <= i < |p.calls|
  {
    Valid(p.logs[i]) && (p.calls[i].Run? ==>
      Ordered(p.logs[i], p.calls[i].triggers) && SettlesOnce(p.logs[i], p.calls[i].triggers))
  }

  lemma {:induction false} PlainLasts(p: Invocation, i: nat, h: Log)
    requires Pass(p) && i < |p.calls| && OnlyMarks(End(p), h) && AllPlain(p)
    ensures LastsAt(p, i, h) <==> OrderedAt(p, i)
  {
    PassPosition(p, i);
    PassPosition(p, |p.calls|);
    PassGrows(p, i, |p.calls|);
    if p.calls[i].Run? {
      assert Plain(p.calls[i]);
      PlainPass(p, i, |p.calls|);
      MarksAreStill(End(p), h);
      MarksGrow(End(p), h);
      StillOn(p.afters[i], End(p), h);
      StillIsUndisturbed(p.afters[i], h, p.calls[i].triggers);
      PlainSettles(p.logs[i], p.calls[i].triggers);
    }
  }

  ghost predicate OrderedUpTo(p: Invocation, m: nat)
    requires Shaped(p) && m <= |p.calls|
  {
    forall i | 0 <= i < m :: OrderedAt(p, i)
  }

  lemma OrderedOneMore(p: Invocation, m: nat, next: nat)
    requires Shaped(p) && m < |p.calls| && next == m + 1
    ensures OrderedUpTo(p, next) <==> OrderedUpTo(p, m) && OrderedAt(p, m)
  {}

  lemma {:induction false} NextPlainIsFound(p: Invocation, again: seq<Log>, rs': seq<Request>, i: nat)
    requires Pass(p) && SameRequests(p.calls, rs') && SecondPass(Restart(End(p)), again, rs') && AllPlain(p)
    requires i < |p.calls| && FoundUpTo(again, rs', p.outs, i)
    ensures FindsAt(again, rs', p.outs, i) <==> OrderedAt(p, i)
  {
    NextIsFound(p, again, rs', i);
    SecondPassPosition(p, again, rs', i);
    PlainLasts(p, i, again[i]);
  }

  /**
   Where no call asks for orphans to be replayed, what the calls were when they were made decides alone: the
   replay finds all entries exactly when every call is ordered and repeats no new key.
   */
  lemma {:induction false} PlainReplayExactly(p: Invocation, again: seq<Log>, rs': seq<Request>, m: nat)
    requires Pass(p) && SameRequests(p.calls, rs') && SecondPass(Restart(End(p)), again, rs') && AllPlain(p)
    requires m <= |p.calls|
    ensures FoundUpTo(again, rs', p.outs, m) <==> OrderedUpTo(p, m)
  {
    if m > 0 {
      PlainReplayExactly(p, again, rs', m - 1);
      FoundOneMore(again, rs', p.outs, m - 1, m);
      OrderedOneMore(p, m - 1, m);
      if FoundUpTo(again, rs', p.outs, m - 1) {
        NextPlainIsFound(p, again, rs', m - 1);
      }
    }
  }
}
