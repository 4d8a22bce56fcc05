/**
 The two lock-free usage aggregators: writers add to counters found through a concurrent map, and a
 flusher swaps each counter to zero, removes the idle ones and seals them with a large negative value.

 Every atomic operation of the code is one `Move`, so a list of moves is one interleaving.  `Analytics`
 caps the number of keys and counts them; `Observability` does neither, and on an evicted counter goes
 straight to publishing a new one.
 */
module UsageAggregator {
  import opened Int64
  import opened Sums

  type Key = nat

  datatype Config = Analytics(maxKeys: int) | Observability

  const EVICTED := -0x4000_0000_0000_0000

  /** `sealed` records that the seal was swapped in; the code sees only `value`. */
  datatype Counter = Counter(key: Key, value: int64, sealed: bool)

  datatype Pc =
    | Lookup
    | Missed
    | Recheck
    | Publish
    | Holding(counter: nat, looked: bool)
    | CountKey
    | Counted
    | Dropped

  /** One call that adds `n` under `key`; `hit` records the counters its increments landed on. */
  datatype Call = Call(key: Key, n: nat, evicted: bool, pc: Pc, hit: set<nat>)

  datatype Flusher =
    | Idle
    | Emptied(key: Key, counter: nat)
    | Deleted(key: Key, counter: nat)
    | Sealing(key: Key, counter: nat)
    | Reporting(key: Key, count: int)

  datatype Report = Report(key: Key, count: int)

  datatype State = State(
    counters: seq<Counter>,
    slots: map<Key, nat>,
    calls: seq<Call>,
    keyCount: int,
    flusher: Flusher,
    reports: seq<Report>)

  const Init := State([], map[], [], 0, Idle, [])

  datatype Move =
    | Begin(key: Key, n: nat)
    | LookUp(i: nat)
    | ReadKeyCount(i: nat)
    | LookAgain(i: nat)
    | LoadOrStore(i: nat)
    | Add(i: nat)
    | IncrementKeyCount(i: nat)
    | SwapZero(k: Key)
    | Delete
    | DecrementKeyCount
    | Seal
    | Hand

  // ---------------------------------------------------------------- the atomic steps

  function Size(c: Call): int { c.n }

  ghost predicate At(s: State, i: nat, pc: Pc) {
    i < |s.calls| && s.calls[i].pc == pc
  }

  ghost predicate Enabled(cfg: Config, s: State, m: Move) {
    match m
    // callers never add more than a quarter of the 64-bit range in total
    case Begin(_, n) => 0 < n && Sum(s.calls, Size) + n < -EVICTED
    case LookUp(i) => At(s, i, Lookup)
    case ReadKeyCount(i) => At(s, i, Missed)
    case LookAgain(i) => At(s, i, Recheck)
    case LoadOrStore(i) => At(s, i, Publish)
    case Add(i) => i < |s.calls| && s.calls[i].pc.Holding? && s.calls[i].pc.counter < |s.counters|
    case IncrementKeyCount(i) => At(s, i, CountKey)
    case SwapZero(k) => s.flusher.Idle? && k in s.slots && s.slots[k] < |s.counters|
    case Delete => s.flusher.Emptied?
    case DecrementKeyCount => s.flusher.Deleted?
    case Seal => s.flusher.Sealing? && s.flusher.counter < |s.counters|
    case Hand => s.flusher.Reporting?
  }

  function Goto(s: State, i: nat, pc: Pc): State
    requires i < |s.calls|
  {
    s.(calls := s.calls[i := s.calls[i].(pc := pc)])
  }

  function DoLookUp(cfg: Config, s: State, i: nat): State
    requires i < |s.calls|
  {
    var k := s.calls[i].key;
    Goto(s, i, if k in s.slots then Holding(s.slots[k], true) else if cfg.Analytics? then Missed else Publish)
  }

  function DoReadKeyCount(cfg: Config, s: State, i: nat): State
    requires i < |s.calls|
  {
    var atCap := cfg.Analytics? && !s.calls[i].evicted && s.keyCount >= cfg.maxKeys;
    Goto(s, i, if atCap then Recheck else Publish)
  }

  function DoLookAgain(s: State, i: nat): State
    requires i < |s.calls|
  {
    Goto(s, i, if s.calls[i].key in s.slots then Lookup else Dropped)
  }

  function DoLoadOrStore(cfg: Config, s: State, i: nat): State
    requires i < |s.calls| && s.calls[i].n <= MAX
  {
    var c := s.calls[i];
    if c.key in s.slots then
      Goto(s, i, Holding(s.slots[c.key], false))
    else
      var newest := |s.counters|;
      var c' := c.(pc := if cfg.Analytics? then CountKey else Counted, hit := c.hit + {newest});
      s.(counters := s.counters + [Counter(c.key, c.n, false)],
         slots := s.slots[c.key := newest],
         calls := s.calls[i := c'])
  }

  /** The increment lands either way; its sign tells the writer whether it was counted. */
  function DoAdd(cfg: Config, s: State, i: nat): State
    requires i < |s.calls| && s.calls[i].pc.Holding? && s.calls[i].pc.counter < |s.counters|
  {
    var c := s.calls[i];
    var e := c.pc.counter;
    var sum := Wrap(s.counters[e].value + c.n);
    var counted := if cfg.Analytics? then sum >= 0 else sum > 0;
    var c' := c.(hit := c.hit + {e},
                 evicted := c.evicted || !counted,
                 pc := if counted then Counted
                       else if cfg.Observability? && c.pc.looked then Publish
                       else Lookup);
    s.(counters := s.counters[e := s.counters[e].(value := sum)], calls := s.calls[i := c'])
  }

  function DoSwapZero(s: State, k: Key): State
    requires k in s.slots && s.slots[k] < |s.counters|
  {
    var e := s.slots[k];
    var count := s.counters[e].value;
    s.(counters := s.counters[e := s.counters[e].(value := 0)],
       flusher := if count <= 0 then Emptied(k, e) else Reporting(k, count))
  }

  function DoDelete(cfg: Config, s: State): State
    requires s.flusher.Emptied?
  {
    var k, e := s.flusher.key, s.flusher.counter;
    s.(slots := s.slots - {k}, flusher := if cfg.Analytics? then Deleted(k, e) else Sealing(k, e))
  }

  function DoSeal(s: State): State
    requires s.flusher.Sealing? && s.flusher.counter < |s.counters|
  {
    var k, e := s.flusher.key, s.flusher.counter;
    var count := s.counters[e].value;
    s.(counters := s.counters[e := s.counters[e].(value := EVICTED, sealed := true)],
       flusher := if count <= 0 then Idle else Reporting(k, count))
  }

  ghost function Do(cfg: Config, s: State, m: Move): State
    requires Enabled(cfg, s, m) && (m.LoadOrStore? ==> s.calls[m.i].n <= MAX)
  {
    match m
    case Begin(k, n) => s.(calls := s.calls + [Call(k, n, false, Lookup, {})])
    case LookUp(i) => DoLookUp(cfg, s, i)
    case ReadKeyCount(i) => DoReadKeyCount(cfg, s, i)
    case LookAgain(i) => DoLookAgain(s, i)
    case LoadOrStore(i) => DoLoadOrStore(cfg, s, i)
    case Add(i) => DoAdd(cfg, s, i)
    case IncrementKeyCount(i) => Goto(s, i, Counted).(keyCount := s.keyCount + 1)
    case SwapZero(k) => DoSwapZero(s, k)
    case Delete => DoDelete(cfg, s)
    case DecrementKeyCount => s.(keyCount := s.keyCount - 1, flusher := Sealing(s.flusher.key, s.flusher.counter))
    case Seal => DoSeal(s)
    case Hand => s.(reports := s.reports + [Report(s.flusher.key, s.flusher.count)], flusher := Idle)
  }

  /** One interleaving of writers and flusher, from the empty aggregator. */
  ghost predicate Behaviour(cfg: Config, trace: seq<State>) {
    && |trace| > 0
    && trace[0] == Init
    && forall i | 0 <= i < |trace| - 1 :: NextAt(cfg, trace, i)
  }

  ghost predicate NextAt(cfg: Config, trace: seq<State>, i: int)
    requires 0 <= i < |trace| - 1
  {
    Next(cfg, trace[i], trace[i + 1])
  }

  ghost predicate Next(cfg: Config, s: State, s': State) {
    exists m: Move :: Steps(cfg, s, m, s')
  }

  ghost predicate Steps(cfg: Config, s: State, m: Move, s': State) {
    && Enabled(cfg, s, m)
    && (m.LoadOrStore? ==> s.calls[m.i].n <= MAX)
    && s' == Do(cfg, s, m)
  }

  // ---------------------------------------------------------------- what is conserved

  predicate Landed(c: Call) { c.pc.CountKey? || c.pc.Counted? }

  function LandedUnder(k: Key): Call -> int { (c: Call) => if c.key == k && Landed(c) then c.n else 0 }
  function HeldUnder(k: Key): Counter -> int { (c: Counter) => if c.key == k && !c.sealed then c.value else 0 }
  function ReportedUnder(k: Key): Report -> int { (r: Report) => if r.key == k then r.count else 0 }

  function InHand(f: Flusher, k: Key): int {
    if f.Reporting? && f.key == k then f.count else 0
  }

  /** For every key: what was flushed, is being flushed or still sits in a live counter is what was counted. */
  ghost predicate Conserved(s: State) {
    forall k: Key :: Balanced(s, k)
  }

  ghost predicate Balanced(s: State, k: Key) {
    Sum(s.calls, LandedUnder(k))
    == Sum(s.reports, ReportedUnder(k)) + InHand(s.flusher, k) + Sum(s.counters, HeldUnder(k))
  }

  function Uncounted(c: Call): int { if c.pc.CountKey? then 1 else 0 }

  /** The key count lags the map by the stores not yet counted and the delete not yet uncounted. */
  ghost predicate KeysAccounted(cfg: Config, s: State) {
    cfg.Analytics? ==>
      s.keyCount == |s.slots| - Sum(s.calls, Uncounted) + (if s.flusher.Deleted? then 1 else 0)
  }

  /** A call whose increment met a sealed counter is never dropped by the key cap. */
  ghost predicate NoneDroppedAfterHit(s: State) {
    forall c | c in s.calls && c.pc.Dropped? :: c.hit == {}
  }

  // ---------------------------------------------------------------- the invariant

  function HitBy(e: nat): Call -> int { (c: Call) => if e in c.hit then c.n else 0 }

  ghost predicate SlotsValid(s: State) {
    forall k | k in s.slots ::
      && s.slots[k] < |s.counters|
      && s.counters[s.slots[k]].key == k
      && !s.counters[s.slots[k]].sealed
  }

  ghost predicate CallValid(cfg: Config, s: State, c: Call) {
    && 0 < c.n
    && (c.pc.CountKey? ==> cfg.Analytics?)
    && (!Landed(c) && !c.evicted ==> c.hit == {})
    && (c.pc.Recheck? || c.pc.Dropped? ==> !c.evicted)
    && (!Landed(c) ==> forall e | e in c.hit :: e < |s.counters| && s.counters[e].sealed)
    && (c.pc.Holding? ==>
          && c.pc.counter < |s.counters|
          && c.pc.counter !in c.hit
          && s.counters[c.pc.counter].key == c.key)
  }

  ghost predicate CallsValid(cfg: Config, s: State) {
    && Sum(s.calls, Size) < -EVICTED
    && forall i | 0 <= i < |s.calls| :: CallValid(cfg, s, s.calls[i])
  }

  /** A live counter holds at most the increments that hit it; a sealed one is that far above the seal. */
  ghost predicate CounterValid(s: State, e: nat)
    requires e < |s.counters|
  {
    var floor := if s.counters[e].sealed then EVICTED else 0;
    floor <= s.counters[e].value <= floor + Sum(s.calls, HitBy(e))
  }

  ghost predicate CountersValid(s: State) {
    forall e: nat | e < |s.counters| :: CounterValid(s, e)
  }

  ghost predicate FlusherValid(s: State) {
    match s.flusher
    case Idle => true
    case Emptied(k, e) => k in s.slots && s.slots[k] == e
    case Deleted(k, e) => Detached(s, k, e)
    case Sealing(k, e) => Detached(s, k, e)
    case Reporting(_, count) => count > 0
  }

  ghost predicate Detached(s: State, k: Key, e: nat) {
    && e < |s.counters|
    && s.counters[e].key == k
    && !s.counters[e].sealed
    && (k in s.slots ==> s.slots[k] != e)
  }

  ghost predicate Inv(cfg: Config, s: State) {
    && SlotsValid(s)
    && CallsValid(cfg, s)
    && CountersValid(s)
    && FlusherValid(s)
    && Conserved(s)
    && KeysAccounted(cfg, s)
  }

  // ---------------------------------------------------------------- sums under one update

  lemma HitsBounded(s: State, e: nat)
    ensures Sum(s.calls, HitBy(e)) <= Sum(s.calls, Size)
  {
    SumAtMost(s.calls, HitBy(e), Size);
  }

  // ---------------------------------------------------------------- one step

  lemma BeginKeeps(cfg: Config, s: State, k: Key, n: nat)
    requires Inv(cfg, s) && Enabled(cfg, s, Begin(k, n))
    ensures Inv(cfg, Do(cfg, s, Begin(k, n)))
  {
    var s' := Do(cfg, s, Begin(k, n));
    var c := Call(k, n, false, Lookup, {});
    SumAppend(s.calls, c, Size);
    SumAppend(s.calls, c, Uncounted);
    forall j: Key ensures Balanced(s', j) {
      assert Balanced(s, j);
      SumAppend(s.calls, c, LandedUnder(j));
    }
    forall e: nat | e < |s'.counters| ensures CounterValid(s', e) {
      assert CounterValid(s, e);
      SumAppend(s.calls, c, HitBy(e));
    }
    forall i | 0 <= i < |s'.calls| ensures CallValid(cfg, s', s'.calls[i]) {
      if i < |s.calls| { assert CallValid(cfg, s, s.calls[i]); }
    }
  }

  /** Moving a call between two points of its loop changes nothing that is summed. */
  lemma GotoKeeps(cfg: Config, s: State, i: nat, pc: Pc)
    requires Inv(cfg, s) && i < |s.calls|
    requires Landed(s.calls[i]) == Landed(s.calls[i].(pc := pc))
    requires CallValid(cfg, s, s.calls[i].(pc := pc))
    ensures var s' := Goto(s, i, pc);
            && SlotsValid(s') && CallsValid(cfg, s') && CountersValid(s') && FlusherValid(s') && Conserved(s')
            && Sum(s'.calls, Uncounted) == Sum(s.calls, Uncounted) - Uncounted(s.calls[i]) + Uncounted(s'.calls[i])
  {
    var s' := Goto(s, i, pc);
    var c := s.calls[i].(pc := pc);
    SumUpdate(s.calls, i, c, Size);
    SumUpdate(s.calls, i, c, Uncounted);
    forall k: Key ensures Balanced(s', k) {
      assert Balanced(s, k);
      SumUpdate(s.calls, i, c, LandedUnder(k));
    }
    forall e: nat | e < |s'.counters| ensures CounterValid(s', e) {
      assert CounterValid(s, e);
      SumUpdate(s.calls, i, c, HitBy(e));
    }
    forall j | 0 <= j < |s'.calls| ensures CallValid(cfg, s', s'.calls[j]) {
      assert CallValid(cfg, s, s.calls[j]);
    }
  }

  lemma LookUpKeeps(cfg: Config, s: State, i: nat)
    requires Inv(cfg, s) && Enabled(cfg, s, LookUp(i))
    ensures Inv(cfg, DoLookUp(cfg, s, i))
  {
    var c := s.calls[i];
    assert CallValid(cfg, s, c);
    if c.key in s.slots {
      GotoKeeps(cfg, s, i, Holding(s.slots[c.key], true));
    } else {
      GotoKeeps(cfg, s, i, if cfg.Analytics? then Missed else Publish);
    }
  }

  lemma CapStepsKeep(cfg: Config, s: State, i: nat)
    requires Inv(cfg, s) && (At(s, i, Missed) || At(s, i, Recheck))
    ensures s.calls[i].pc.Missed? ==> Inv(cfg, DoReadKeyCount(cfg, s, i))
    ensures s.calls[i].pc.Recheck? ==> Inv(cfg, DoLookAgain(s, i))
  {
    var c := s.calls[i];
    assert CallValid(cfg, s, c);
    if c.pc.Missed? {
      GotoKeeps(cfg, s, i, if cfg.Analytics? && !c.evicted && s.keyCount >= cfg.maxKeys then Recheck else Publish);
    } else {
      GotoKeeps(cfg, s, i, if c.key in s.slots then Lookup else Dropped);
    }
  }

  lemma LoadOrStoreKeeps(cfg: Config, s: State, i: nat)
    requires Inv(cfg, s) && Enabled(cfg, s, LoadOrStore(i))
    ensures s.calls[i].n <= MAX
    ensures Inv(cfg, DoLoadOrStore(cfg, s, i))
  {
    var c := s.calls[i];
    assert CallValid(cfg, s, c);
    CallFits(cfg, s, i);
    if c.key in s.slots {
      GotoKeeps(cfg, s, i, Holding(s.slots[c.key], false));
    } else {
      StoreKeeps(cfg, s, i);
    }
  }

  lemma CallFits(cfg: Config, s: State, i: nat)
    requires CallsValid(cfg, s) && i < |s.calls|
    ensures s.calls[i].n < -EVICTED
  {
    SumTerm(s.calls, i, Size);
  }

  lemma StoreKeeps(cfg: Config, s: State, i: nat)
    requires Inv(cfg, s) && At(s, i, Publish) && s.calls[i].n <= MAX && s.calls[i].key !in s.slots
    ensures Inv(cfg, DoLoadOrStore(cfg, s, i))
  {
    StoreKeepsSlots(cfg, s, i);
    StoreKeepsKeys(cfg, s, i);
    StoreKeepsCalls(cfg, s, i);
    StoreKeepsCounters(cfg, s, i);
    forall k: Key ensures Balanced(DoLoadOrStore(cfg, s, i), k) {
      StoreBalances(cfg, s, i, k);
    }
  }

  lemma StoreKeepsSlots(cfg: Config, s: State, i: nat)
    requires SlotsValid(s) && FlusherValid(s) && At(s, i, Publish) && s.calls[i].n <= MAX && s.calls[i].key !in s.slots
    ensures var s' := DoLoadOrStore(cfg, s, i); SlotsValid(s') && FlusherValid(s')
  {}

  lemma StoreKeepsKeys(cfg: Config, s: State, i: nat)
    requires KeysAccounted(cfg, s) && At(s, i, Publish) && s.calls[i].n <= MAX && s.calls[i].key !in s.slots
    ensures KeysAccounted(cfg, DoLoadOrStore(cfg, s, i))
  {
    var s' := DoLoadOrStore(cfg, s, i);
    assert s'.slots.Keys == s.slots.Keys + {s.calls[i].key};
    SumUpdate(s.calls, i, s'.calls[i], Uncounted);
  }

  lemma StoreKeepsCalls(cfg: Config, s: State, i: nat)
    requires Inv(cfg, s) && At(s, i, Publish) && s.calls[i].n <= MAX && s.calls[i].key !in s.slots
    ensures CallsValid(cfg, DoLoadOrStore(cfg, s, i))
  {
    var s' := DoLoadOrStore(cfg, s, i);
    SumUpdate(s.calls, i, s'.calls[i], Size);
    forall j | 0 <= j < |s'.calls| ensures CallValid(cfg, s', s'.calls[j]) {
      StoreKeepsCall(cfg, s, i, j);
    }
  }

  lemma StoreKeepsCounters(cfg: Config, s: State, i: nat)
    requires Inv(cfg, s) && At(s, i, Publish) && s.calls[i].n <= MAX && s.calls[i].key !in s.slots
    ensures CountersValid(DoLoadOrStore(cfg, s, i))
  {
    forall e: nat | e < |DoLoadOrStore(cfg, s, i).counters| ensures CounterValid(DoLoadOrStore(cfg, s, i), e) {
      StoreKeepsCounter(cfg, s, i, e);
    }
  }

  lemma StoreKeepsCall(cfg: Config, s: State, i: nat, j: nat)
    requires CallsValid(cfg, s) && At(s, i, Publish) && s.calls[i].n <= MAX
    requires s.calls[i].key !in s.slots && j < |s.calls|
    ensures CallValid(cfg, DoLoadOrStore(cfg, s, i), DoLoadOrStore(cfg, s, i).calls[j])
  {
    assert CallValid(cfg, s, s.calls[j]);
  }

  lemma StoreKeepsCounter(cfg: Config, s: State, i: nat, e: nat)
    requires Inv(cfg, s) && At(s, i, Publish) && s.calls[i].n <= MAX && s.calls[i].key !in s.slots
    requires e <= |s.counters|
    ensures CounterValid(DoLoadOrStore(cfg, s, i), e)
  {
    assert CallValid(cfg, s, s.calls[i]);
    SumUpdate(s.calls, i, DoLoadOrStore(cfg, s, i).calls[i], HitBy(e));
    HitsNonNegative(s.calls, e);
    assert e < |s.counters| ==> CounterValid(s, e);
  }

  lemma StoreBalances(cfg: Config, s: State, i: nat, k: Key)
    requires Inv(cfg, s) && At(s, i, Publish) && s.calls[i].n <= MAX && s.calls[i].key !in s.slots
    ensures Balanced(DoLoadOrStore(cfg, s, i), k)
  {
    var c := s.calls[i];
    assert Balanced(s, k);
    SumUpdate(s.calls, i, DoLoadOrStore(cfg, s, i).calls[i], LandedUnder(k));
    SumAppend(s.counters, Counter(c.key, c.n, false), HeldUnder(k));
  }

  lemma HitsNonNegative(calls: seq<Call>, e: nat)
    ensures Sum(calls, HitBy(e)) >= 0
  {
    if calls != [] {
      SumTerm(calls, 0, HitBy(e));
    }
  }

  /** An increment is answered with a negative number exactly when the counter was sealed. */
  lemma SignTellsSealed(cfg: Config, s: State, i: nat)
    requires Inv(cfg, s) && Enabled(cfg, s, Add(i))
    ensures DoAdd(cfg, s, i).counters[s.calls[i].pc.counter].value ==
      s.counters[s.calls[i].pc.counter].value + s.calls[i].n
    ensures DoAdd(cfg, s, i).counters[s.calls[i].pc.counter].value < 0 <==> s.counters[s.calls[i].pc.counter].sealed
    ensures DoAdd(cfg, s, i).calls[i].pc.Counted? <==> !s.counters[s.calls[i].pc.counter].sealed
    ensures s.calls[i].pc.counter !in s.calls[i].hit && s.counters[s.calls[i].pc.counter].key == s.calls[i].key
  {
    var c := s.calls[i];
    var e := c.pc.counter;
    assert CallValid(cfg, s, c) && CounterValid(s, e);
    var c' := c.(hit := c.hit + {e});
    SumUpdate(s.calls, i, c', HitBy(e));
    SumUpdate(s.calls, i, c', Size);
    HitsBounded(s.(calls := s.calls[i := c']), e);
  }

  lemma AddKeeps(cfg: Config, s: State, i: nat)
    requires Inv(cfg, s) && Enabled(cfg, s, Add(i))
    ensures Inv(cfg, DoAdd(cfg, s, i))
  {
    AddKeepsShape(cfg, s, i);
    AddKeepsCalls(cfg, s, i);
    AddKeepsCounters(cfg, s, i);
    forall k: Key ensures Balanced(DoAdd(cfg, s, i), k) {
      AddBalances(cfg, s, i, k);
    }
  }

  lemma {:induction false} AddKeepsSlots(cfg: Config, s: State, i: nat)
    requires Inv(cfg, s) && Enabled(cfg, s, Add(i))
    ensures SlotsValid(DoAdd(cfg, s, i)) && FlusherValid(DoAdd(cfg, s, i))
  {
    var s' := DoAdd(cfg, s, i);
    assert forall e | 0 <= e < |s.counters| ::
      s'.counters[e].sealed == s.counters[e].sealed && s'.counters[e].key == s.counters[e].key;
  }

  lemma {:induction false} AddKeepsKeys(cfg: Config, s: State, i: nat)
    requires Inv(cfg, s) && Enabled(cfg, s, Add(i))
    ensures KeysAccounted(cfg, DoAdd(cfg, s, i))
  {
    SignTellsSealed(cfg, s, i);
    SumUpdate(s.calls, i, DoAdd(cfg, s, i).calls[i], Uncounted);
  }

  lemma AddKeepsShape(cfg: Config, s: State, i: nat)
    requires Inv(cfg, s) && Enabled(cfg, s, Add(i))
    ensures var s' := DoAdd(cfg, s, i); SlotsValid(s') && FlusherValid(s') && KeysAccounted(cfg, s')
  {
    AddKeepsSlots(cfg, s, i);
    AddKeepsKeys(cfg, s, i);
  }

  lemma AddKeepsCalls(cfg: Config, s: State, i: nat)
    requires Inv(cfg, s) && Enabled(cfg, s, Add(i))
    ensures CallsValid(cfg, DoAdd(cfg, s, i))
  {
    var s' := DoAdd(cfg, s, i);
    SumUpdate(s.calls, i, s'.calls[i], Size);
    forall j | 0 <= j < |s'.calls| ensures CallValid(cfg, s', s'.calls[j]) {
      AddKeepsCall(cfg, s, i, j);
    }
  }

  lemma AddKeepsCounters(cfg: Config, s: State, i: nat)
    requires Inv(cfg, s) && Enabled(cfg, s, Add(i))
    ensures CountersValid(DoAdd(cfg, s, i))
  {
    forall d: nat | d < |DoAdd(cfg, s, i).counters| ensures CounterValid(DoAdd(cfg, s, i), d) {
      AddKeepsCounter(cfg, s, i, d);
    }
  }

  lemma {:induction false} AddKeepsOwnCall(cfg: Config, s: State, i: nat)
    requires Inv(cfg, s) && Enabled(cfg, s, Add(i))
    ensures CallValid(cfg, DoAdd(cfg, s, i), DoAdd(cfg, s, i).calls[i])
  {
    SignTellsSealed(cfg, s, i);
    assert CallValid(cfg, s, s.calls[i]);
  }

  /** A counter's value does not matter to a call that is not counted yet. */
  lemma {:induction false} OtherCallStays(cfg: Config, s: State, s': State, c: Call)
    requires CallValid(cfg, s, c) && |s'.counters| == |s.counters|
    requires forall e | 0 <= e < |s.counters| ::
      s'.counters[e].sealed == s.counters[e].sealed && s'.counters[e].key == s.counters[e].key
    ensures CallValid(cfg, s', c)
  {}

  lemma {:induction false} AddKeepsCall(cfg: Config, s: State, i: nat, j: nat)
    requires Inv(cfg, s) && Enabled(cfg, s, Add(i)) && j < |s.calls|
    ensures CallValid(cfg, DoAdd(cfg, s, i), DoAdd(cfg, s, i).calls[j])
  {
    if i == j {
      AddKeepsOwnCall(cfg, s, i);
    } else {
      assert CallValid(cfg, s, s.calls[j]);
      OtherCallStays(cfg, s, DoAdd(cfg, s, i), s.calls[j]);
    }
  }

  lemma AddKeepsCounter(cfg: Config, s: State, i: nat, d: nat)
    requires Inv(cfg, s) && Enabled(cfg, s, Add(i)) && d < |s.counters|
    ensures CounterValid(DoAdd(cfg, s, i), d)
  {
    SignTellsSealed(cfg, s, i);
    assert CallValid(cfg, s, s.calls[i]) && CounterValid(s, d);
    SumUpdate(s.calls, i, DoAdd(cfg, s, i).calls[i], HitBy(d));
  }

  lemma AddBalances(cfg: Config, s: State, i: nat, k: Key)
    requires Inv(cfg, s) && Enabled(cfg, s, Add(i))
    ensures Balanced(DoAdd(cfg, s, i), k)
  {
    var s', c := DoAdd(cfg, s, i), s.calls[i];
    var e := c.pc.counter;
    SignTellsSealed(cfg, s, i);
    assert Balanced(s, k);
    SumUpdate(s.calls, i, s'.calls[i], LandedUnder(k));
    SumUpdate(s.counters, e, s'.counters[e], HeldUnder(k));
    assert s'.counters[e].sealed == s.counters[e].sealed && s'.counters[e].key == c.key;
  }

  lemma IncrementKeeps(cfg: Config, s: State, i: nat)
    requires Inv(cfg, s) && Enabled(cfg, s, IncrementKeyCount(i))
    ensures Inv(cfg, Do(cfg, s, IncrementKeyCount(i)))
  {
    var s' := Do(cfg, s, IncrementKeyCount(i));
    assert CallValid(cfg, s, s.calls[i]);
    GotoKeeps(cfg, s, i, Counted);
    var t := Goto(s, i, Counted);
    FrameKeeps(cfg, t, s');
  }

  /** Slots, key count, flusher and reports aside, validity is about the counters and the calls. */
  lemma FrameKeeps(cfg: Config, s: State, s': State)
    requires CallsValid(cfg, s) && CountersValid(s) && s'.calls == s.calls && s'.counters == s.counters
    ensures CallsValid(cfg, s') && CountersValid(s')
    ensures Conserved(s) && s'.reports == s.reports && s'.flusher == s.flusher ==> Conserved(s')
  {
    forall d: nat | d < |s'.counters| ensures CounterValid(s', d) {
      assert CounterValid(s, d);
    }
    forall j | 0 <= j < |s'.calls| ensures CallValid(cfg, s', s'.calls[j]) {
      assert CallValid(cfg, s, s.calls[j]);
    }
    if Conserved(s) && s'.reports == s.reports && s'.flusher == s.flusher {
      forall k: Key ensures Balanced(s', k) { assert Balanced(s, k); }
    }
  }

  lemma SwapZeroKeeps(cfg: Config, s: State, k: Key)
    requires Inv(cfg, s) && Enabled(cfg, s, SwapZero(k))
    ensures Inv(cfg, DoSwapZero(s, k))
  {
    var s' := DoSwapZero(s, k);
    var e := s.slots[k];
    assert CounterValid(s, e);
    forall j: Key ensures Balanced(s', j) {
      assert Balanced(s, j);
      SumUpdate(s.counters, e, s'.counters[e], HeldUnder(j));
    }
    forall d: nat | d < |s'.counters| ensures CounterValid(s', d) {
      assert CounterValid(s, d);
      HitsNonNegative(s.calls, d);
    }
    forall j | 0 <= j < |s'.calls| ensures CallValid(cfg, s', s'.calls[j]) {
      assert CallValid(cfg, s, s.calls[j]);
    }
  }

  lemma DeleteKeeps(cfg: Config, s: State)
    requires Inv(cfg, s) && Enabled(cfg, s, Delete)
    ensures Inv(cfg, DoDelete(cfg, s))
  {
    var s' := DoDelete(cfg, s);
    assert s.slots.Keys == s'.slots.Keys + {s.flusher.key};
    FrameKeeps(cfg, s, s');
    forall k: Key ensures Balanced(s', k) { assert Balanced(s, k); }
  }

  lemma SealKeeps(cfg: Config, s: State)
    requires Inv(cfg, s) && Enabled(cfg, s, Seal)
    ensures Inv(cfg, DoSeal(s))
  {
    var s' := DoSeal(s);
    var e := s.flusher.counter;
    assert CounterValid(s, e);
    forall k: Key ensures Balanced(s', k) {
      assert Balanced(s, k);
      SumUpdate(s.counters, e, s'.counters[e], HeldUnder(k));
    }
    forall d: nat | d < |s'.counters| ensures CounterValid(s', d) {
      assert CounterValid(s, d);
      HitsNonNegative(s.calls, d);
    }
    forall j | 0 <= j < |s'.calls| ensures CallValid(cfg, s', s'.calls[j]) {
      assert CallValid(cfg, s, s.calls[j]);
    }
  }

  lemma FlusherOnlyKeeps(cfg: Config, s: State, m: Move)
    requires Inv(cfg, s) && Enabled(cfg, s, m) && (m.DecrementKeyCount? || m.Hand?)
    ensures Inv(cfg, Do(cfg, s, m))
  {
    var s' := Do(cfg, s, m);
    FrameKeeps(cfg, s, s');
    forall k: Key ensures Balanced(s', k) {
      assert Balanced(s, k);
      if m.Hand? {
        SumAppend(s.reports, Report(s.flusher.key, s.flusher.count), ReportedUnder(k));
      }
    }
  }

  lemma StepKeeps(cfg: Config, s: State, m: Move, s': State)
    requires Inv(cfg, s) && Steps(cfg, s, m, s')
    ensures Inv(cfg, s')
  {
    match m
    case Begin(k, n) => BeginKeeps(cfg, s, k, n);
    case LookUp(i) => LookUpKeeps(cfg, s, i);
    case ReadKeyCount(i) => CapStepsKeep(cfg, s, i);
    case LookAgain(i) => CapStepsKeep(cfg, s, i);
    case LoadOrStore(i) => LoadOrStoreKeeps(cfg, s, i);
    case Add(i) => AddKeeps(cfg, s, i);
    case IncrementKeyCount(i) => IncrementKeeps(cfg, s, i);
    case SwapZero(k) => SwapZeroKeeps(cfg, s, k);
    case Delete => DeleteKeeps(cfg, s);
    case DecrementKeyCount => FlusherOnlyKeeps(cfg, s, m);
    case Seal => SealKeeps(cfg, s);
    case Hand => FlusherOnlyKeeps(cfg, s, m);
  }

  // ---------------------------------------------------------------- every interleaving

  lemma StepFrom(cfg: Config, trace: seq<State>, n: nat, next: nat) returns (m: Move)
    requires Behaviour(cfg, trace) && next == n + 1 && next < |trace|
    ensures Steps(cfg, trace[n], m, trace[next])
  {
    assert NextAt(cfg, trace, n);
    m :| Steps(cfg, trace[n], m, trace[next]);
  }

  lemma {:induction false} BehaviourKeepsInv(cfg: Config, trace: seq<State>, n: nat)
    requires Behaviour(cfg, trace) && n < |trace|
    ensures Inv(cfg, trace[n])
    decreases n
  {
    if n > 0 {
      BehaviourKeepsInv(cfg, trace, n - 1);
      var m := StepFrom(cfg, trace, n - 1, n);
      StepKeeps(cfg, trace[n - 1], m, trace[n]);
    }
  }

  /**
   Under every interleaving nothing is lost or counted twice, the key count is accounted for, and no
   call is dropped after its increment met a sealed counter.
   */
  lemma NothingIsLost(cfg: Config, trace: seq<State>)
    requires Behaviour(cfg, trace)
    ensures forall s | s in trace :: Conserved(s) && KeysAccounted(cfg, s) && NoneDroppedAfterHit(s)
  {
    forall i | 0 <= i < |trace|
      ensures Conserved(trace[i]) && KeysAccounted(cfg, trace[i]) && NoneDroppedAfterHit(trace[i])
    {
      BehaviourKeepsInv(cfg, trace, i);
    }
  }

  /** Once the flusher rests and every live counter is drained, each key was reported exactly once over. */
  lemma DrainedMeansReported(cfg: Config, trace: seq<State>, k: Key)
    requires Behaviour(cfg, trace)
    requires var s := trace[|trace| - 1]; s.flusher.Idle? && forall c | c in s.counters && !c.sealed :: c.value == 0
    ensures var s := trace[|trace| - 1]; Sum(s.reports, ReportedUnder(k)) == Sum(s.calls, LandedUnder(k))
  {
    BehaviourKeepsInv(cfg, trace, |trace| - 1);
    assert Balanced(trace[|trace| - 1], k);
    SumIsZero(trace[|trace| - 1].counters, HeldUnder(k));
  }

  // ---------------------------------------------------------------- the key cap

  /** In some state up to `n` since call `i` began the key count was at the cap. */
  ghost predicate AtCapSince(cfg: Config, trace: seq<State>, i: nat, n: nat)
    requires n < |trace|
  {
    cfg.Analytics? && exists k | 0 <= k <= n :: i < |trace[k].calls| && trace[k].keyCount >= cfg.maxKeys
  }

  ghost predicate BelowCapSince(cfg: Config, trace: seq<State>, i: nat, n: nat)
    requires n < |trace|
  {
    cfg.Analytics? && exists k | 0 <= k <= n :: i < |trace[k].calls| && trace[k].keyCount < cfg.maxKeys
  }

  /** What a step of a call that is giving up its event, or is about to store a key, follows from. */
  lemma CapStep(cfg: Config, s: State, m: Move, s': State, i: nat)
    requires Steps(cfg, s, m, s') && i < |s'.calls|
    ensures i < |s.calls| || s'.calls[i].pc.Lookup?
    ensures s'.calls[i].pc.Dropped? ==>
      s.calls[i].pc.Dropped? || (s.calls[i].pc.Recheck? && s.calls[i].key !in s.slots)
    ensures s'.calls[i].pc.Recheck? ==> s.calls[i].pc.Recheck? || (cfg.Analytics? && s.keyCount >= cfg.maxKeys)
    ensures s'.calls[i].pc.Publish? && cfg.Analytics? ==>
      s.calls[i].pc.Publish? || s.calls[i].evicted || s.keyCount < cfg.maxKeys
    ensures i < |s.calls| ==> s'.calls[i].key == s.calls[i].key && s'.calls[i].n == s.calls[i].n
    ensures i < |s.calls| && s.calls[i].evicted ==> s'.calls[i].evicted
  {}

  lemma {:induction false} RecheckedAtCap(cfg: Config, trace: seq<State>, i: nat, n: nat)
    requires Behaviour(cfg, trace) && n < |trace| && i < |trace[n].calls| && trace[n].calls[i].pc.Recheck?
    ensures AtCapSince(cfg, trace, i, n)
    decreases n
  {
    var m := StepFrom(cfg, trace, n - 1, n);
    CapStep(cfg, trace[n - 1], m, trace[n], i);
    if trace[n - 1].calls[i].pc.Recheck? {
      RecheckedAtCap(cfg, trace, i, n - 1);
    }
  }

  /** Since call `i` began the cap was reached, and then its key was not in the map. */
  ghost predicate RefusedSince(cfg: Config, trace: seq<State>, i: nat, n: nat)
    requires n < |trace|
  {
    exists k | 0 <= k <= n ::
      i < |trace[k].calls| && AtCapSince(cfg, trace, i, k) && trace[k].calls[i].key !in trace[k].slots
  }

  /** A call gives its event up only under a cap on keys that was reached, and only if its key is not known then. */
  lemma {:induction false} DroppedOnlyAtCap(cfg: Config, trace: seq<State>, i: nat, n: nat)
    requires Behaviour(cfg, trace) && n < |trace| && i < |trace[n].calls| && trace[n].calls[i].pc.Dropped?
    ensures RefusedSince(cfg, trace, i, n)
    decreases n
  {
    var m := StepFrom(cfg, trace, n - 1, n);
    CapStep(cfg, trace[n - 1], m, trace[n], i);
    if trace[n - 1].calls[i].pc.Dropped? {
      DroppedOnlyAtCap(cfg, trace, i, n - 1);
    } else {
      RecheckedAtCap(cfg, trace, i, n - 1);
    }
  }

  /** While the key count stays below the cap no event is given up. */
  lemma NoneDroppedBelowCap(cfg: Config, trace: seq<State>)
    requires Behaviour(cfg, trace) && (cfg.Analytics? ==> forall s | s in trace :: s.keyCount < cfg.maxKeys)
    ensures forall c | c in trace[|trace| - 1].calls :: !c.pc.Dropped?
  {
    var s := trace[|trace| - 1];
    forall i | 0 <= i < |s.calls| ensures !s.calls[i].pc.Dropped? {
      if s.calls[i].pc.Dropped? {
        DroppedOnlyAtCap(cfg, trace, i, |trace| - 1);
      }
    }
  }

  /** A call that may store a key came by below the cap, or has added to a counter that was sealed. */
  lemma {:induction false} MayStore(cfg: Config, trace: seq<State>, i: nat, n: nat)
    requires cfg.Analytics? && Behaviour(cfg, trace)
    requires n < |trace| && i < |trace[n].calls| && trace[n].calls[i].pc.Publish?
    ensures BelowCapSince(cfg, trace, i, n) || trace[n].calls[i].evicted
    decreases n
  {
    var m := StepFrom(cfg, trace, n - 1, n);
    CapStep(cfg, trace[n - 1], m, trace[n], i);
    if trace[n - 1].calls[i].pc.Publish? {
      MayStore(cfg, trace, i, n - 1);
    }
  }

  ghost predicate HitSealed(s: State, c: Call) { exists e | e in c.hit :: e < |s.counters| && s.counters[e].sealed }

  /** Only an increment of its own that met a sealed counter makes a call count as evicted. */
  ghost predicate EvictedHit(s: State) {
    forall i | 0 <= i < |s.calls| && s.calls[i].evicted :: HitSealed(s, s.calls[i])
  }

  lemma SealedStays(cfg: Config, s: State, m: Move, s': State, i: nat)
    requires Steps(cfg, s, m, s') && i < |s.calls| && HitSealed(s, s.calls[i])
    ensures i < |s'.calls| && HitSealed(s', s'.calls[i])
  {
    var e :| e in s.calls[i].hit && e < |s.counters| && s.counters[e].sealed;
    assert e in s'.calls[i].hit && e < |s'.counters| && s'.counters[e].sealed;
  }

  lemma OnlyAddEvicts(cfg: Config, s: State, m: Move, s': State, i: nat)
    requires Steps(cfg, s, m, s') && i < |s'.calls| && s'.calls[i].evicted
    ensures i < |s.calls| && (s.calls[i].evicted || (m == Add(i) && s' == DoAdd(cfg, s, i)))
  {}

  lemma NewlyEvictedHit(cfg: Config, s: State, i: nat)
    requires Inv(cfg, s) && Enabled(cfg, s, Add(i)) && !s.calls[i].evicted && DoAdd(cfg, s, i).calls[i].evicted
    ensures HitSealed(DoAdd(cfg, s, i), DoAdd(cfg, s, i).calls[i])
  {
    SignTellsSealed(cfg, s, i);
    var s', e := DoAdd(cfg, s, i), s.calls[i].pc.counter;
    assert e in s'.calls[i].hit && e < |s'.counters| && s'.counters[e].sealed;
  }

  lemma EvictedHitStays(cfg: Config, s: State, m: Move, s': State)
    requires Inv(cfg, s) && EvictedHit(s) && Steps(cfg, s, m, s')
    ensures EvictedHit(s')
  {
    forall i | 0 <= i < |s'.calls| && s'.calls[i].evicted ensures HitSealed(s', s'.calls[i]) {
      OnlyAddEvicts(cfg, s, m, s', i);
      if s.calls[i].evicted {
        SealedStays(cfg, s, m, s', i);
      } else {
        NewlyEvictedHit(cfg, s, i);
      }
    }
  }

  lemma {:induction false} AllEvictedHit(cfg: Config, trace: seq<State>, n: nat)
    requires Behaviour(cfg, trace) && n < |trace|
    ensures EvictedHit(trace[n])
    decreases n
  {
    if n > 0 {
      BehaviourKeepsInv(cfg, trace, n - 1);
      AllEvictedHit(cfg, trace, n - 1);
      var m := StepFrom(cfg, trace, n - 1, n);
      EvictedHitStays(cfg, trace[n - 1], m, trace[n]);
    }
  }

  /**
   A key comes into the map only through a call for it that since it began has seen the key count below the
   cap, or whose increment has met a sealed counter: such a call is let through so that it is not lost.
   */
  lemma StoredOnlyBelowCap(cfg: Config, trace: seq<State>, n: nat, k: Key) returns (i: nat)
    requires cfg.Analytics? && Behaviour(cfg, trace) && n < |trace| - 1
    requires k !in trace[n].slots && k in trace[n + 1].slots
    ensures var s := trace[n];
      && i < |s.calls| && s.calls[i].key == k && At(trace[n + 1], i, CountKey)
      && (BelowCapSince(cfg, trace, i, n) || HitSealed(s, s.calls[i]))
  {
    var m := StepFrom(cfg, trace, n, n + 1);
    i := m.i;
    MayStore(cfg, trace, i, n);
    AllEvictedHit(cfg, trace, n);
  }

  // ---------------------------------------------------------------- a key that is in the map

  /** From state `b` on, call `i` is there and its key is in the map. */
  ghost predicate KnownSince(trace: seq<State>, b: nat, i: nat) {
    forall k | b <= k < |trace| :: i < |trace[k].calls| && trace[k].calls[i].key in trace[k].slots
  }

  /** On its way to the counter its key has in the map. */
  ghost predicate OnTheWay(s: State, i: nat) {
    && i < |s.calls| && s.calls[i].key in s.slots
    && (s.calls[i].pc.Lookup? || s.calls[i].pc.Counted? || s.calls[i].pc == Holding(s.slots[s.calls[i].key], true))
  }

  lemma StaysOnTheWay(cfg: Config, s: State, m: Move, s': State, i: nat)
    requires Inv(cfg, s) && Steps(cfg, s, m, s') && OnTheWay(s, i) && s.calls[i].key in s'.slots
    ensures OnTheWay(s', i)
    ensures m == LookUp(i) ==> s'.calls[i].pc.Holding?
    ensures m == Add(i) ==> s'.calls[i].pc.Counted?
  {
    if m == Add(i) {
      SignTellsSealed(cfg, s, i);
    }
  }

  /** A call whose key stays in the map is counted there: it looks once, adds once, and is never given up. */
  lemma {:induction false} KnownKeyIsCounted(cfg: Config, trace: seq<State>, b: nat, i: nat, n: nat)
    requires Behaviour(cfg, trace) && b <= n < |trace| && KnownSince(trace, b, i) && trace[b].calls[i].pc.Lookup?
    ensures OnTheWay(trace[n], i)
    decreases n
  {
    if b < n {
      KnownKeyIsCounted(cfg, trace, b, i, n - 1);
      BehaviourKeepsInv(cfg, trace, n - 1);
      var m := StepFrom(cfg, trace, n - 1, n);
      CapStep(cfg, trace[n - 1], m, trace[n], i);
      StaysOnTheWay(cfg, trace[n - 1], m, trace[n], i);
    }
  }

  // ---------------------------------------------------------------- one visit of the flusher

  /** Where the flusher is after it has swapped counter `e` of key `k` and found `v`, with `reports` made before. */
  ghost predicate Visiting(s: State, k: Key, e: nat, v: int, reports: seq<Report>) {
    && e < |s.counters|
    && if v > 0 then
         if s.flusher.Idle? then s.reports == reports + [Report(k, v)]
         else s.flusher == Reporting(k, v) && s.reports == reports
       else
         match s.flusher
         case Idle => s.counters[e].sealed && Unreferenced(s, e)
                      && (s.reports == reports || exists w: int :: w > 0 && s.reports == reports + [Report(k, w)])
         case Emptied(_, _) => s.flusher == Emptied(k, e) && s.reports == reports
         case Deleted(_, _) => s.flusher == Deleted(k, e) && s.reports == reports && Unreferenced(s, e)
         case Sealing(_, _) => s.flusher == Sealing(k, e) && s.reports == reports && Unreferenced(s, e)
         case Reporting(_, w) => s.flusher.key == k && w > 0 && s.reports == reports
                                 && s.counters[e].sealed && Unreferenced(s, e)
  }

  ghost predicate Unreferenced(s: State, e: nat) { forall k | k in s.slots :: s.slots[k] != e }

  lemma UnreferencedStays(cfg: Config, s: State, m: Move, s': State, e: nat)
    requires Steps(cfg, s, m, s') && e < |s.counters| && Unreferenced(s, e)
    ensures Unreferenced(s', e)
  {}

  lemma DeletedIsUnreferenced(cfg: Config, s: State, s': State, k: Key, e: nat)
    requires Inv(cfg, s) && Steps(cfg, s, Delete, s') && s.flusher == Emptied(k, e)
    ensures Unreferenced(s', e)
  {}

  lemma StaysVisiting(cfg: Config, s: State, m: Move, s': State, k: Key, e: nat, v: int, reports: seq<Report>)
    requires Inv(cfg, s) && Steps(cfg, s, m, s') && Visiting(s, k, e, v, reports) && !s.flusher.Idle?
    ensures Visiting(s', k, e, v, reports)
  {
    if Unreferenced(s, e) {
      UnreferencedStays(cfg, s, m, s', e);
    }
    if m.Delete? {
      DeletedIsUnreferenced(cfg, s, s', k, e);
    }
  }

  /** The flusher is at work between states `b` and `n`. */
  ghost predicate AtWork(trace: seq<State>, b: nat, n: nat)
    requires n < |trace|
  {
    forall k | b < k < n :: !trace[k].flusher.Idle?
  }

  lemma VisitBegins(cfg: Config, s: State, k: Key, s': State)
    requires Inv(cfg, s) && Steps(cfg, s, SwapZero(k), s')
    ensures var e := s.slots[k]; Visiting(s', k, e, s.counters[e].value, s.reports)
  {}

  lemma {:induction false} VisitGoesOn(cfg: Config, trace: seq<State>, b: nat, k: Key, e: nat, v: int, n: nat)
    requires Behaviour(cfg, trace) && b < n < |trace| && Visiting(trace[b + 1], k, e, v, trace[b].reports)
    requires AtWork(trace, b, n)
    ensures Visiting(trace[n], k, e, v, trace[b].reports)
    decreases n
  {
    if b < n - 1 {
      VisitGoesOn(cfg, trace, b, k, e, v, n - 1);
      BehaviourKeepsInv(cfg, trace, n - 1);
      var m := StepFrom(cfg, trace, n - 1, n);
      StaysVisiting(cfg, trace[n - 1], m, trace[n], k, e, v, trace[b].reports);
    }
  }

  /**
   Whatever writers do meanwhile: a visit to a counter that held something reports exactly that, and a visit
   to an idle one takes it out of the map and seals it, reporting only what came in between.
   */
  lemma VisitReportsOrEvicts(cfg: Config, trace: seq<State>, b: nat, k: Key, n: nat)
    requires Behaviour(cfg, trace) && b < n < |trace| && Steps(cfg, trace[b], SwapZero(k), trace[b + 1])
    requires AtWork(trace, b, n) && trace[n].flusher.Idle?
    ensures var s, e, before := trace[n], trace[b].slots[k], trace[b].reports;
      var v := trace[b].counters[e].value;
      if v > 0 then s.reports == before + [Report(k, v)]
      else
        && e < |s.counters| && s.counters[e].sealed && Unreferenced(s, e)
        && (s.reports == before || exists w: int :: w > 0 && s.reports == before + [Report(k, w)])
  {
    var e := trace[b].slots[k];
    BehaviourKeepsInv(cfg, trace, b);
    VisitBegins(cfg, trace[b], k, trace[b + 1]);
    VisitGoesOn(cfg, trace, b, k, e, trace[b].counters[e].value, n);
  }
}
