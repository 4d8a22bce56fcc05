/**
 The life of a task that is never reset: it makes calls, is restarted any number of times, makes the calls of
 its earlier invocations again and goes on from there, while requests of earlier invocations still arrive.
 */
module TaskLifetime {
  import opened DurableLog
  import opened RequestEffects
  import opened DurableReplay
  import opened ReplayPasses

  // ---------------------------------------------------------------- one branch

  /** One branch, no entry above `top`, and every key's child has its one entry. */
  ghost predicate Tidy(g: Log, top: nat) {
    && Valid(g) && g.points == map[]
    && (forall s | s in g.entries :: s.node <= top && s.branch == g.latestBranch)
    && (forall k | k in g.spawned :: HasEntry(g.entries, g.spawned[k]))
    && SpawnedOnce(g)
  }

  ghost predicate SpawnedOnce(g: Log) {
    forall k, x, y | k in g.spawned && ChildAt(g.entries, x, g.spawned[k]) && ChildAt(g.entries, y, g.spawned[k]) ::
      x == y
  }

  lemma OneBranch(g: Log, node: int)
    requires Valid(g) && g.points == map[] && 0 <= node
    ensures At(g, node) == Slot(node, g.latestBranch)
  {}

  lemma TidyIsLive(g: Log, top: nat, key: Key)
    requires Tidy(g, top) && key in g.spawned
    ensures Live(g, g.spawned[key]) && !Hidden(g, g.spawned[key])
  {
    var s :| ChildAt(g.entries, s, g.spawned[key]);
    OneBranch(g, s.node);
  }

  ghost predicate NoneHidden(g: Log)
    requires Valid(g)
  {
    forall k | k in g.spawned :: !Hidden(g, g.spawned[k])
  }

  lemma TidyHidesNone(g: Log, top: nat)
    requires Tidy(g, top)
    ensures NoneHidden(g)
  {
    forall k | k in g.spawned ensures !Hidden(g, g.spawned[k]) {
      TidyIsLive(g, top, k);
    }
  }

  /** The call has landed on its slots, whether it finds them again or not. */
  ghost predicate HasLanded(g: Log, base: nat, r: Request, slots: seq<Slot>)
    requires Valid(g)
  {
    if r.Run? then
      |slots| == |r.triggers| && forall k | 0 <= k < |slots| :: Landed(g, base, r.triggers, slots[k], k)
    else Found(g, base, r, slots)
  }

  lemma {:induction false} StaysLanded(g: Log, h: Log, base: nat, ts: seq<Trigger>, s: Slot, k: nat)
    requires Grows(g, h) && k < |ts| && Landed(g, base, ts, s, k)
    ensures Landed(h, base, ts, s, k)
  {
    if Reuses(g, ts[k]) {
      KeptStaysReused(g, h, ts[k]);
    } else {
      NodesTakenShrink(g, h, ts, k);
      SameAt(g, h, s.node);
    }
  }

  lemma {:induction false} RunStaysAsItIs(g: Log, h: Log, base: nat, ts: seq<Trigger>, slots: seq<Slot>)
    requires Grows(g, h) && NoneHidden(g) && KnowsKeys(g, ts) && HasLanded(g, base, Run(ts), slots)
    ensures HasLanded(h, base, Run(ts), slots)
    ensures FoundAll(h, base, ts, slots) <==> FoundAll(g, base, ts, slots)
  {
    forall k | 0 <= k < |ts| ensures Landed(h, base, ts, slots[k], k) {
      assert Landed(g, base, ts, slots[k], k);
      StaysLanded(g, h, base, ts, slots[k], k);
    }
    if FoundAll(g, base, ts, slots) {
      StaysFoundExactly(g, h, base, ts, slots);
    } else if FoundAll(h, base, ts, slots) {
      forall k | 0 <= k < |ts| ensures FoundAt(g, base, ts, slots[k], k) {
        assert Landed(g, base, ts, slots[k], k);
        FoundLaterWasFound(g, h, base, ts, slots[k], k);
      }
    }
  }

  /** While no child is hidden, what a call finds it goes on finding, and what it does not find it never does. */
  lemma StaysAsItIs(g: Log, h: Log, base: nat, r: Request, slots: seq<Slot>)
    requires Grows(g, h) && NoneHidden(g) && Known(g, r) && HasLanded(g, base, r, slots)
    ensures Known(h, r) && HasLanded(h, base, r, slots)
    ensures Found(h, base, r, slots) <==> Found(g, base, r, slots)
  {
    KnownStays(g, h, r);
    if r.Run? {
      RunStaysAsItIs(g, h, base, r.triggers, slots);
    } else {
      SameAt(g, h, base);
    }
  }

  // ---------------------------------------------------------------- a new call at the end of what was made

  /** No trigger that takes a node each time follows one that settles, and no new key is used twice. */
  ghost predicate Repeatable(g: Log, r: Request)
    requires Valid(g)
  {
    r.Run? ==> Ordered(g, r.triggers) && SettlesOnce(g, r.triggers)
  }

  lemma TidyKey(g: Log, top: nat, t: Trigger)
    requires Tidy(g, top)
    ensures !InPlace(g, t) && (t.key.Some? ==> Reuses(g, t) || NewKey(g, t))
  {
    if t.key.Some? && t.key.value in g.spawned {
      TidyIsLive(g, top, t.key.value);
    }
  }

  /** The first use of a new key claims its slot. */
  lemma {:induction false} NewKeyClaims(g: Log, ts: seq<Trigger>, k: nat)
    requires Tidy(g, g.latestNode) && k < |ts| && NewKey(g, ts[k]) && FirstUse(ts, k)
    ensures Claims(g, ts, k)
  {
    OneBranch(g, g.latestNode + 1 + Offset(g, ts, k));
  }

  lemma {:induction false} OneClaimPerKey(g: Log, ts: seq<Trigger>, j: nat, k: nat)
    requires Tidy(g, g.latestNode) && j < |ts| && k < |ts| && Claims(g, ts, j)
    requires Claims(g, ts, k) && ts[j].key == ts[k].key
    ensures j == k
  {
    TidyKey(g, g.latestNode, ts[j]);
    TidyKey(g, g.latestNode, ts[k]);
  }

  lemma {:induction false} TidyClaim(g: Log, ts: seq<Trigger>, k: nat)
    requires Tidy(g, g.latestNode) && k < |ts| && Settles(g, ts, k)
    ensures ClaimsNewest(g, ts, k) <==> FirstUse(ts, k)
  {
    TidyKey(g, g.latestNode, ts[k]);
    if FirstUse(ts, k) {
      var i :| 0 <= i < |ts| && Claims(g, ts, i) && ts[i].key == ts[k].key;
      NewKeyClaims(g, ts, k);
      forall j | 0 <= j < |ts| && Claims(g, ts, j) && ts[j].key == ts[k].key ensures j == k {
        OneClaimPerKey(g, ts, j, k);
      }
    }
  }

  lemma {:induction false} TidySettles(g: Log, ts: seq<Trigger>)
    requires Tidy(g, g.latestNode)
    ensures SettlesOnNewest(g, ts) <==> SettlesOnce(g, ts)
  {
    forall k | 0 <= k < |ts| && Settles(g, ts, k) ensures ClaimsNewest(g, ts, k) <==> FirstUse(ts, k) {
      TidyClaim(g, ts, k);
    }
  }

  /** Triggers that spawn under keys, distinct within the request, need no further condition. */
  lemma {:induction false} KeyedIsRepeatable(g: Log, ts: seq<Trigger>)
    requires Tidy(g, g.latestNode)
    requires forall k | 0 <= k < |ts| :: ts[k].key.Some? && FirstUse(ts, k)
    ensures Repeatable(g, Run(ts))
  {
    forall k | 0 <= k < |ts| ensures Settles(g, ts, k) || Reuses(g, ts[k]) {
      TidyKey(g, g.latestNode, ts[k]);
      assert FirstUse(ts, k);
      if NewKey(g, ts[k]) {
        NewKeyClaims(g, ts, k);
      }
    }
  }

  /** The latest node after a successful call covers every entry. */
  lemma RunIsCovered(g: Log, ts: seq<Trigger>, g': Log, s: Slot)
    requires Tidy(g, g.latestNode) && Appended(g, ts, g') && s in g'.entries
    ensures s.node <= g'.latestNode && s.branch == g'.latestBranch
  {
    MaxNodeIsMax(g.latestNode, Append(g, Run(ts)).results);
    SameFile(g, ts, g');
    if s !in g.entries {
      var k := NewEntryIsFrom(g, ts, g', s);
      OneBranch(g, g.latestNode + 1 + Offset(g, ts, k));
      ResultAt(g, ts, g', k);
      assert Append(g, Run(ts)).results[k] in Append(g, Run(ts)).results;
    }
  }

  lemma RunSpawnsOnce(g: Log, ts: seq<Trigger>, g': Log, key: Key, x: Slot, y: Slot)
    requires Tidy(g, g.latestNode) && Appended(g, ts, g') && key in g'.spawned
    requires ChildAt(g'.entries, x, g'.spawned[key]) && ChildAt(g'.entries, y, g'.spawned[key])
    ensures x == y
  {
    if x in g.entries {
      OldChildIsKnown(g, ts, g', key, x);
      OldKeyGainsNothing(g, ts, g', key, y);
    } else if y in g.entries {
      OldChildIsKnown(g, ts, g', key, y);
      OldKeyGainsNothing(g, ts, g', key, x);
    } else {
      var i := GainIsClaim(g, ts, g', key, x);
      var j := GainIsClaim(g, ts, g', key, y);
      OneClaimPerKey(g, ts, i, j);
    }
  }

  lemma OldKeyGainsNothing(g: Log, ts: seq<Trigger>, g': Log, key: Key, x: Slot)
    requires Tidy(g, g.latestNode) && Appended(g, ts, g') && key in g.spawned && key in g'.spawned
    requires ChildAt(g'.entries, x, g'.spawned[key])
    ensures ChildAt(g.entries, x, g.spawned[key])
  {
    if x in g.entries {
      OldChildIsKnown(g, ts, g', key, x);
    } else {
      var i := GainIsClaim(g, ts, g', key, x);
      TidyKey(g, g.latestNode, ts[i]);
    }
  }

  lemma RunKeepsChildren(g: Log, ts: seq<Trigger>, g': Log, key: Key)
    requires Tidy(g, g.latestNode) && Appended(g, ts, g') && Valid(g') && key in g'.spawned
    ensures HasEntry(g'.entries, g'.spawned[key])
  {
    SameFile(g, ts, g');
    if key in g.spawned {
      KeysStay(g.spawned, ts, key);
      var s :| ChildAt(g.entries, s, g.spawned[key]);
      OldEntryStays(g, ts, g', s);
      assert ChildAt(g'.entries, s, g.spawned[key]);
    } else {
      var k := KeyComesFrom(g.spawned, ts, key);
      NewKeyClaims(g, ts, k);
      ClaimIsShown(g, ts, g', k);
    }
  }

  lemma RunStaysTidy(g: Log, ts: seq<Trigger>, g': Log)
    requires Tidy(g, g.latestNode) && Appended(g, ts, g')
    ensures Tidy(g', g'.latestNode)
  {
    AppendedIsValid(g, ts, g');
    SameFile(g, ts, g');
    forall s | s in g'.entries ensures s.node <= g'.latestNode && s.branch == g'.latestBranch {
      RunIsCovered(g, ts, g', s);
    }
    forall k | k in g'.spawned ensures HasEntry(g'.entries, g'.spawned[k]) {
      RunKeepsChildren(g, ts, g', k);
    }
    forall k, x, y | k in g'.spawned && ChildAt(g'.entries, x, g'.spawned[k]) && ChildAt(g'.entries, y, g'.spawned[k])
      ensures x == y
    {
      RunSpawnsOnce(g, ts, g', k, x, y);
    }
  }

  /** If the entries of known children stay, so does everything else that is tidy about them. */
  lemma ChildrenStayTidy(g: Log, h: Log, top: nat)
    requires Tidy(g, top) && Valid(h) && h.spawned == g.spawned
    requires forall s, c :: ChildAt(h.entries, s, c) <==> ChildAt(g.entries, s, c)
    ensures SpawnedOnce(h) && forall k | k in h.spawned :: HasEntry(h.entries, h.spawned[k])
  {
    forall k | k in h.spawned ensures HasEntry(h.entries, h.spawned[k]) {
      var s :| ChildAt(g.entries, s, g.spawned[k]);
      assert ChildAt(h.entries, s, g.spawned[k]);
    }
  }

  lemma SingleStaysTidy(g: Log, r: Request)
    requires Tidy(g, g.latestNode) && (r.Wait? || r.Memo?) && Append(g, r).Done?
    ensures Tidy(Append(g, r).log, Append(g, r).log.latestNode)
  {
    var g' := Append(g, r).log;
    SingleGrows(g, r);
    SingleLog(g, r);
    OneBranch(g, g.latestNode + 1);
    MaxNodeIsMax(g.latestNode, Append(g, r).results);
    assert Append(g, r).results[0] in Append(g, r).results;
    ChildrenStayTidy(g, g', g.latestNode);
  }

  lemma MarksStayTidy(g: Log, h: Log, top: nat)
    requires Tidy(g, top) && OnlyMarks(g, h)
    ensures Tidy(h, top)
  {
    MarksGrow(g, h);
    forall s ensures s in h.entries <==> s in g.entries {
      assert s in h.entries.Keys <==> s in g.entries.Keys;
    }
    ChildrenStayTidy(g, h, top);
  }

  /** A new call of a tidy task does not fail its determinism check. */
  lemma NewIsDeterministic(g: Log, r: Request)
    requires Tidy(g, g.latestNode) && !r.Unsupported?
    ensures !Append(g, r).Failed?
  {
    var opts := Plan(g, r);
    forall k | 0 <= k < |opts| && opts[k].Put? ensures opts[k].slot !in g.entries {
      if r.Run? {
        assert opts[k] == RunOpt(g, r.triggers, k);
      }
    }
  }

  lemma {:induction false} ResultsHaveLanded(g: Log, ts: seq<Trigger>, slots: seq<Slot>, a: Log, base: nat)
    requires Succeeds(g, Run(ts), slots) && a == Append(g, Run(ts)).log && base == g.latestNode + 1
    ensures Valid(a) && HasLanded(a, base, Run(ts), slots)
  {
    RequestIsReusedAgain(g, ts, a);
    forall k | 0 <= k < |ts| ensures Landed(a, base, ts, slots[k], k) {
      ResultHasLanded(g, ts, a, slots[k], k);
    }
  }

  /** A new call that succeeds leaves a tidy log, in which it finds what it got exactly when it is repeatable. */
  lemma NewCall(g: Log, r: Request, slots: seq<Slot>, a: Log, base: nat)
    requires Tidy(g, g.latestNode) && Succeeds(g, r, slots) && a == Append(g, r).log && base == g.latestNode + 1
    ensures Grows(g, a) && Tidy(a, a.latestNode) && Known(a, r) && HasLanded(a, base, r, slots)
    ensures Found(a, base, r, slots) <==> Repeatable(g, r)
  {
    SuccessGrows(g, r, slots);
    MarksGrow(a, a);
    CallLasts(g, r, slots, a, a);
    if r.Run? {
      RunStaysTidy(g, r.triggers, a);
      TidySettles(g, r.triggers);
      TidyHidesNone(a, a.latestNode);
      ResultsHaveLanded(g, r.triggers, slots, a, base);
    } else {
      SingleStaysTidy(g, r);
    }
  }

  // ---------------------------------------------------------------- the machine

  /**
   The log, the calls made so far with what each got and whether it was repeatable when it was made, and how
   many of them the current invocation has made.
   */
  datatype Task = Task(log: Log, made: seq<Request>, outs: seq<seq<Slot>>, repeatable: seq<bool>, pos: nat)

  datatype Move =
    | Restarts
    | Marks(marked: Log)
    | Repeats(request: Request)
    | GoesOn(request: Request)
    | Stale(invocation: int, request: Request)

  const NewTask := Task(Log(0, 1, 1, map[], map[], map[], map[]), [], [], [], 0)

  /**
   A call is made again in its turn, a new one when all earlier ones have been. At a call that was not
   repeatable the task no longer follows its history.
   */
  ghost predicate Enabled(t: Task, m: Move) {
    match m
    case Restarts => true
    case Marks(h) => Marked(t.log, h)
    case Repeats(r) => t.pos < |t.made| == |t.repeatable| && t.repeatable[t.pos] && SameRequest(t.made[t.pos], r)
    case GoesOn(r) => t.pos == |t.made| && FreshRequest(t.log, r)
    case Stale(invocation, _) => invocation < t.log.invocation
  }

  /** A request that aborts its transaction leaves the log as it was. */
  function LogAfter(g: Log, o: Outcome): Log {
    match o
    case Done(log, _) => log
    case Failed(log, _) => log
    case Fatal(_) => g
  }

  /** One more call was made, which left `a` behind. */
  ghost function MadeOne(t: Task, r: Request, slots: seq<Slot>, a: Log): Task
    requires Valid(t.log)
  {
    Task(a, t.made + [r], t.outs + [slots], t.repeatable + [Repeatable(t.log, r)], t.pos + 1)
  }

  ghost function Do(t: Task, m: Move): Task
    requires Valid(t.log)
  {
    match m
    case Restarts => t.(log := Restart(t.log), pos := 0)
    case Marks(h) => t.(log := h)
    case Repeats(r) =>
      var o := Serve(t.log, t.log.invocation, r);
      t.(log := LogAfter(t.log, o), pos := if o.Done? then t.pos + 1 else t.pos)
    case GoesOn(r) =>
      var o := Serve(t.log, t.log.invocation, r);
      if o.Done? then MadeOne(t, r, Slots(o.results), o.log)
      else t.(log := LogAfter(t.log, o))
    case Stale(invocation, r) => t.(log := LogAfter(t.log, Serve(t.log, invocation, r)))
  }

  ghost predicate Next(t: Task, m: Move, t': Task) { Valid(t.log) && Enabled(t, m) && t' == Do(t, m) }

  ghost predicate NextAt(ts: seq<Task>, ms: seq<Move>, i: int)
    requires 0 <= i < |ms| && |ts| == |ms| + 1
  {
    Next(ts[i], ms[i], ts[i + 1])
  }

  ghost predicate Behaviour(ts: seq<Task>, ms: seq<Move>) {
    |ts| == |ms| + 1 && ts[0] == NewTask && forall i | 0 <= i < |ms| :: NextAt(ts, ms, i)
  }

  // ---------------------------------------------------------------- what every step keeps

  /** Issued at its own position, call `i` finds what it got exactly when it was repeatable. */
  ghost predicate CallOk(t: Task, i: int)
    requires 0 <= i < |t.made| == |t.outs| == |t.repeatable|
  {
    && Valid(t.log) && Known(t.log, t.made[i]) && HasLanded(t.log, Position(t.outs, i) + 1, t.made[i], t.outs[i])
    && (Found(t.log, Position(t.outs, i) + 1, t.made[i], t.outs[i]) <==> t.repeatable[i])
  }

  ghost predicate Inv(t: Task) {
    && |t.outs| == |t.made| == |t.repeatable| && t.pos <= |t.made|
    && Tidy(t.log, Position(t.outs, |t.outs|)) && t.log.latestNode == Position(t.outs, t.pos)
    && (forall i | 0 <= i < |t.made| :: CallOk(t, i))
  }

  lemma CallStaysOk(t: Task, h: Log, i: nat)
    requires |t.made| == |t.outs| == |t.repeatable| && i < |t.made| && CallOk(t, i)
    requires Grows(t.log, h) && NoneHidden(t.log)
    ensures CallOk(t.(log := h), i)
  {
    StaysAsItIs(t.log, h, Position(t.outs, i) + 1, t.made[i], t.outs[i]);
  }

  /** The calls stay as they are as the log grows. */
  lemma CallsStayOk(t: Task, h: Log)
    requires Inv(t) && Grows(t.log, h)
    ensures forall i | 0 <= i < |t.made| :: CallOk(t.(log := h), i)
  {
    TidyHidesNone(t.log, Position(t.outs, |t.outs|));
    forall i | 0 <= i < |t.made| ensures CallOk(t.(log := h), i) {
      assert CallOk(t, i);
      CallStaysOk(t, h, i);
    }
  }

  lemma MarksKeep(t: Task, h: Log, pos: nat)
    requires Inv(t) && OnlyMarks(t.log, h) && pos <= |t.made| && h.latestNode == Position(t.outs, pos)
    ensures Inv(t.(log := h, pos := pos))
  {
    MarksGrow(t.log, h);
    MarksStayTidy(t.log, h, Position(t.outs, |t.outs|));
    CallsStayOk(t, h);
    forall i | 0 <= i < |t.made| ensures CallOk(t.(log := h, pos := pos), i) {
      assert CallOk(t.(log := h), i);
    }
  }

  /** A call made again finds what it got exactly when it was repeatable, and then changes only the position. */
  lemma RepeatFinds(t: Task, r: Request)
    requires Inv(t) && t.pos < |t.made| && SameRequest(t.made[t.pos], r)
    ensures Finds(t.log, r, t.outs[t.pos]) <==> t.repeatable[t.pos]
    ensures t.repeatable[t.pos] ==> Append(t.log, r).log == t.log.(latestNode := Position(t.outs, t.pos + 1))
  {
    assert CallOk(t, t.pos);
    FoundAtPosition(t.log, t.made[t.pos], r, t.outs[t.pos], Position(t.outs, t.pos) + 1);
  }

  lemma FoundAtPosition(g: Log, r: Request, r': Request, slots: seq<Slot>, base: nat)
    requires Valid(g) && Known(g, r) && SameRequest(r, r') && base == g.latestNode + 1
    ensures Finds(g, r', slots) <==> Found(g, base, r, slots)
    ensures Finds(g, r', slots) ==> Append(g, r').log == g.(latestNode := MaxNode(g.latestNode, Existing(slots)))
  {
    SameCallFinds(g, r, r', slots);
  }

  lemma {:induction false} PositionKept(outs: seq<seq<Slot>>, slots: seq<Slot>, i: nat)
    requires i <= |outs|
    ensures Position(outs + [slots], i) == Position(outs, i)
  {
    if i > 0 {
      PositionKept(outs, slots, i - 1);
      assert (outs + [slots])[i - 1] == outs[i - 1];
    }
  }

  lemma NewPosition(outs: seq<seq<Slot>>, slots: seq<Slot>)
    ensures Position(outs + [slots], |outs| + 1) == MaxNode(Position(outs, |outs|), Existing(slots))
  {
    PositionKept(outs, slots, |outs|);
  }

  lemma OldCallKept(t: Task, r: Request, slots: seq<Slot>, h: Log, i: nat)
    requires Valid(t.log) && |t.made| == |t.outs| == |t.repeatable| && i < |t.made| && CallOk(t.(log := h), i)
    ensures CallOk(MadeOne(t, r, slots, h), i)
  {
    PositionKept(t.outs, slots, i);
  }

  lemma NewCallKept(t: Task, r: Request, slots: seq<Slot>, h: Log, base: nat)
    requires Valid(t.log) && |t.made| == |t.outs| == |t.repeatable| && Valid(h) && Known(h, r)
    requires base == Position(t.outs, |t.outs|) + 1 && HasLanded(h, base, r, slots)
    requires Found(h, base, r, slots) <==> Repeatable(t.log, r)
    ensures CallOk(MadeOne(t, r, slots, h), |t.made|)
  {
    PositionKept(t.outs, slots, |t.outs|);
  }

  lemma GoingOnKeepsCalls(t: Task, r: Request, slots: seq<Slot>, a: Log)
    requires Inv(t) && Grows(t.log, a) && CallOk(MadeOne(t, r, slots, a), |t.made|)
    ensures forall i | 0 <= i < |t.made| + 1 :: CallOk(MadeOne(t, r, slots, a), i)
  {
    CallsStayOk(t, a);
    forall i | 0 <= i < |t.made| + 1 ensures CallOk(MadeOne(t, r, slots, a), i) {
      if i < |t.made| {
        OldCallKept(t, r, slots, a, i);
      }
    }
  }

  lemma GoingOnKeeps(t: Task, r: Request, slots: seq<Slot>, a: Log, base: nat)
    requires Inv(t) && t.pos == |t.made| && Grows(t.log, a) && Tidy(a, a.latestNode) && Known(a, r)
    requires a.latestNode == MaxNode(t.log.latestNode, Existing(slots))
    requires base == t.log.latestNode + 1 && HasLanded(a, base, r, slots)
    requires Found(a, base, r, slots) <==> Repeatable(t.log, r)
    ensures Inv(MadeOne(t, r, slots, a))
  {
    NewPosition(t.outs, slots);
    NewCallKept(t, r, slots, a, base);
    GoingOnKeepsCalls(t, r, slots, a);
  }

  lemma SuccessKeeps(t: Task, r: Request, slots: seq<Slot>, a: Log)
    requires Inv(t) && t.pos == |t.made| && Succeeds(t.log, r, slots) && a == Append(t.log, r).log
    ensures Inv(MadeOne(t, r, slots, a))
  {
    NewCall(t.log, r, slots, a, t.log.latestNode + 1);
    NodeAfter(t.log, r, slots);
    GoingOnKeeps(t, r, slots, a, t.log.latestNode + 1);
  }

  lemma FailureKeeps(t: Task, r: Request)
    requires Inv(t) && t.pos == |t.made| && !Append(t.log, r).Done?
    ensures LogAfter(t.log, Append(t.log, r)) == t.log
  {
    if !r.Unsupported? {
      NewIsDeterministic(t.log, r);
    }
  }

  lemma {:induction false} GoesOnKeeps(t: Task, r: Request)
    requires Inv(t) && Enabled(t, GoesOn(r))
    ensures Inv(Do(t, GoesOn(r)))
  {
    if Append(t.log, r).Done? {
      SuccessKeeps(t, r, Slots(Append(t.log, r).results), Append(t.log, r).log);
    } else {
      FailureKeeps(t, r);
    }
  }

  function Advanced(t: Task): Task
    requires t.pos < |t.outs|
  {
    t.(log := t.log.(latestNode := Position(t.outs, t.pos + 1)), pos := t.pos + 1)
  }

  lemma RepeatAdvances(t: Task, r: Request)
    requires Inv(t) && Enabled(t, Repeats(r))
    ensures Do(t, Repeats(r)) == Advanced(t)
  {
    RepeatFinds(t, r);
  }

  lemma AdvanceKeeps(t: Task)
    requires Inv(t) && t.pos < |t.made|
    ensures Inv(Advanced(t))
  {
    MarksKeep(t, t.log.(latestNode := Position(t.outs, t.pos + 1)), t.pos + 1);
  }

  lemma StepKeeps(t: Task, m: Move, t': Task)
    requires Inv(t) && Next(t, m, t')
    ensures Inv(t')
  {
    match m
    case Restarts => MarksKeep(t, Restart(t.log), 0);
    case Marks(h) => MarksKeep(t, h, t.pos);
    case Repeats(r) =>
      RepeatAdvances(t, r);
      AdvanceKeeps(t);
    case GoesOn(r) => GoesOnKeeps(t, r);
    case Stale(_, _) =>
  }

  lemma {:induction false} BehaviourKeepsInv(ts: seq<Task>, ms: seq<Move>, i: nat)
    requires Behaviour(ts, ms) && i <= |ms|
    ensures Inv(ts[i])
  {
    if i > 0 {
      BehaviourKeepsInv(ts, ms, i - 1);
      assert NextAt(ts, ms, i - 1);
      StepKeeps(ts[i - 1], ms[i - 1], ts[i]);
    }
  }

  /**
   In every state of every life of a task that is never reset, the next call to be made again finds exactly
   the entries it got when it was first made, if and only if it was repeatable then, however many restarts,
   marks and stale requests lie between; and it adds none. Every key's child has exactly one entry.
   */
  lemma EveryRepeatFinds(ts: seq<Task>, ms: seq<Move>, i: nat, r: Request)
    requires Behaviour(ts, ms) && i <= |ms| && ts[i].pos < |ts[i].made| && SameRequest(ts[i].made[ts[i].pos], r)
    ensures |ts[i].outs| == |ts[i].made| == |ts[i].repeatable|
    ensures Finds(ts[i].log, r, ts[i].outs[ts[i].pos]) <==> ts[i].repeatable[ts[i].pos]
    ensures ts[i].repeatable[ts[i].pos] ==>
      Append(ts[i].log, r).log == ts[i].log.(latestNode := Position(ts[i].outs, ts[i].pos + 1))
    ensures SpawnedOnce(ts[i].log)
  {
    BehaviourKeepsInv(ts, ms, i);
    RepeatFinds(ts[i], r);
  }

  // ---------------------------------------------------------------- what was made stays made

  /** Nothing that was recorded is forgotten or changed. */
  ghost predicate Extends(t: Task, t': Task) {
    && t.made <= t'.made && t.outs <= t'.outs && t.repeatable <= t'.repeatable
    && forall k | k in t.log.spawned :: k in t'.log.spawned && t'.log.spawned[k] == t.log.spawned[k]
  }

  lemma ExtendsOn(a: Task, b: Task, c: Task)
    requires Extends(a, b) && Extends(b, c)
    ensures Extends(a, c)
  {}

  lemma StepExtends(t: Task, m: Move, t': Task)
    requires Inv(t) && Next(t, m, t')
    ensures Extends(t, t')
  {
    match m
    case Restarts =>
    case Marks(_) =>
    case Repeats(r) => RepeatAdvances(t, r);
    case GoesOn(r) =>
      if Append(t.log, r).Done? {
        SuccessGrows(t.log, r, Slots(Append(t.log, r).results));
      } else {
        FailureKeeps(t, r);
      }
    case Stale(_, _) =>
  }

  /** The calls made, what each got, and the child of every key are the same for the rest of the task's life. */
  lemma {:induction false} HistoryIsKept(ts: seq<Task>, ms: seq<Move>, i: nat, j: nat)
    requires Behaviour(ts, ms) && i <= j <= |ms|
    ensures Extends(ts[i], ts[j])
    decreases j
  {
    if i < j {
      HistoryIsKept(ts, ms, i, j - 1);
      BehaviourKeepsInv(ts, ms, j - 1);
      assert NextAt(ts, ms, j - 1);
      StepExtends(ts[j - 1], ms[j - 1], ts[j]);
      ExtendsOn(ts[i], ts[j - 1], ts[j]);
    }
  }

  // ---------------------------------------------------------------- requests of earlier invocations

  lemma AppendKeepsInvocation(g: Log, r: Request)
    requires Valid(g)
    ensures LogAfter(g, Append(g, r)).invocation == g.invocation
  {}

  lemma StepCounts(t: Task, m: Move, t': Task)
    requires Next(t, m, t')
    ensures t'.log.invocation == t.log.invocation + (if m.Restarts? then 1 else 0)
  {
    match m
    case Repeats(r) => AppendKeepsInvocation(t.log, r);
    case GoesOn(r) => AppendKeepsInvocation(t.log, r);
    case _ =>
  }

  lemma {:induction false} InvocationGrows(ts: seq<Task>, ms: seq<Move>, i: nat, j: nat)
    requires Behaviour(ts, ms) && i <= j <= |ms|
    ensures ts[i].log.invocation <= ts[j].log.invocation
    decreases j
  {
    if i < j {
      InvocationGrows(ts, ms, i, j - 1);
      assert NextAt(ts, ms, j - 1);
      StepCounts(ts[j - 1], ms[j - 1], ts[j]);
    }
  }

  /** A request that was sent before a restart is turned away at any time after it, and changes nothing. */
  lemma StaleChangesNothing(ts: seq<Task>, ms: seq<Move>, i: nat, k: nat, j: nat, r: Request)
    requires Behaviour(ts, ms) && i <= k < j <= |ms| && ms[k].Restarts?
    ensures Valid(ts[j].log) && Serve(ts[j].log, ts[i].log.invocation, r) == Failed(ts[j].log, StaleInvocation)
  {
    BehaviourKeepsInv(ts, ms, j);
    InvocationGrows(ts, ms, i, k);
    assert NextAt(ts, ms, k);
    StepCounts(ts[k], ms[k], ts[k + 1]);
    InvocationGrows(ts, ms, k + 1, j);
  }
}
